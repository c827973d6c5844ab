/**
 * Layer filtering (src/util/helpers.ts): a layer is ignored when one of the
 * configured ignore terms occurs in it. The ignore list is a parameter here;
 * in the source it is read from the environment.
 */
module Helpers {

  /** `t` occurs in `s` starting at position `i`. */
  ghost predicate OccursAt(t: string, s: string, i: int) {
    0 <= i <= |s| - |t| && s[i..i + |t|] == t
  }

  /** `t` occurs in `s` at some position. */
  ghost predicate OccursIn(t: string, s: string) {
    exists i :: OccursAt(t, s, i)
  }

  /** `t` occurs in `s` at a position no smaller than `from`. */
  ghost predicate OccursFrom(t: string, s: string, from: nat) {
    exists i :: from <= i && OccursAt(t, s, i)
  }

  /** `s.includes(t)` searched from position `from` onwards: exact, case-sensitive comparison. */
  function IncludesFrom(s: string, t: string, from: nat): (r: bool)
    requires from <= |s|
    ensures r <==> OccursFrom(t, s, from)
    decreases |s| - from
  {
    if |s| - from < |t| then
      assert !OccursFrom(t, s, from);
      false
    else if s[from..from + |t|] == t then
      assert OccursAt(t, s, from);
      true
    else
      var rest := IncludesFrom(s, t, from + 1);
      assert OccursFrom(t, s, from) ==> OccursFrom(t, s, from + 1) by {
        if OccursFrom(t, s, from) {
          var i :| from <= i && OccursAt(t, s, i);
          assert i != from;
        }
      }
      rest
  }

  /** `layer.includes(term)`. */
  function Includes(layer: string, term: string): (r: bool)
    ensures r <==> OccursIn(term, layer)
  {
    IncludesFrom(layer, term, 0)
  }

  /** `shouldIgnoreLayer(layer)`: the for-of over the ignore terms, returning at the first hit. */
  function ShouldIgnoreLayer(layer: string, ignores: seq<string>): (r: bool)
    ensures r <==> exists k :: 0 <= k < |ignores| && OccursIn(ignores[k], layer)
    ensures ignores == [] ==> !r
  {
    if ignores == [] then false
    else if Includes(layer, ignores[0]) then true
    else
      var r := ShouldIgnoreLayer(layer, ignores[1..]);
      assert forall k :: 1 <= k < |ignores| ==> ignores[k] == ignores[1..][k - 1];
      r
  }

  /** An empty term, as a doubled or trailing comma in the configured list yields, ignores every layer. */
  lemma EmptyTermIgnoresAll(layer: string, ignores: seq<string>)
    requires "" in ignores
    ensures ShouldIgnoreLayer(layer, ignores)
  {
    var k :| 0 <= k < |ignores| && ignores[k] == "";
    assert OccursAt(ignores[k], layer, 0);
  }

  /** The verdict depends only on which terms are configured, not on their order or repetition. */
  lemma OrderIrrelevant(layer: string, ignores: seq<string>, others: seq<string>)
    requires forall t :: t in ignores <==> t in others
    ensures ShouldIgnoreLayer(layer, ignores) == ShouldIgnoreLayer(layer, others)
  {
    if ShouldIgnoreLayer(layer, ignores) {
      var k :| 0 <= k < |ignores| && OccursIn(ignores[k], layer);
      assert ignores[k] in others;
      var j :| 0 <= j < |others| && others[j] == ignores[k];
    }
    if ShouldIgnoreLayer(layer, others) {
      var k :| 0 <= k < |others| && OccursIn(others[k], layer);
      assert others[k] in ignores;
      var j :| 0 <= j < |ignores| && ignores[j] == others[k];
    }
  }

  /** Matching is case-sensitive: a lower-case term does not ignore the same layer name in upper case. */
  lemma CaseSensitive()
    ensures !ShouldIgnoreLayer("SEED", ["seed"])
    ensures ShouldIgnoreLayer("Narva_Seed_v1", ["Seed"])
  {
    assert OccursAt("Seed", "Narva_Seed_v1", 6);
    assert "SEED"[0..4][0] != "seed"[0];
    assert forall i :: OccursAt("seed", "SEED", i) ==> i == 0;
  }
}
