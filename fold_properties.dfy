/**
 * What the event folder of src/lib/player.ts does, stated over the fold
 * functions of module Player: the exact effect of one event on every record,
 * that the order of the events of a pass does not matter, and what a whole
 * pass adds to each record.
 */
module FoldProperties {
  import opened Optional
  import opened Stats
  import opened Player
  import Knex

  /** Side `a` of an event on `server` lands on record `k` of player `id`. */
  predicate Hit(sh: map<string, seq<int>>, a: Option<string>, server: int, id: string, k: int) {
    a == Some(id) && id in sh && 0 <= k && k == IndexOf(sh[id], server)
  }

  /** Some side of `e` lands on record `k` of player `id`. */
  predicate Touches(sh: map<string, seq<int>>, e: Event, id: string, k: int) {
    Hit(sh, Actor(e), e.server, id, k) || Hit(sh, e.victim, e.server, id, k)
  }

  /** How much `e` adds to counter `f` of record `k` of player `id`: one per side that lands there and gains `f`. */
  function Contribution(sh: map<string, seq<int>>, e: Event, id: string, k: int, f: Field): nat {
    One(Hit(sh, Actor(e), e.server, id, k) && f in ActorFields(e)) + One(Hit(sh, e.victim, e.server, id, k) && f in VictimFields(e))
  }

  /**
   * `r` keeps every player of `m`, with the same id, name and number of
   * records, and every player that is neither `a` nor `v` is unchanged.
   */
  ghost predicate FrameKept(m: map<string, Stats.Player>, r: map<string, Stats.Player>, a: Option<string>, v: Option<string>) {
    && r.Keys == m.Keys
    && (forall id | id in m ::
         r[id].steamId == m[id].steamId && r[id].name == m[id].name && |r[id].servers| == |m[id].servers|)
    && (forall id | id in m && a != Some(id) && v != Some(id) :: r[id] == m[id])
  }

  /** Every counter of record `j` of player `id` grows by one for each of `a` (gaining `af`) and `v` (gaining `vf`) that names `id`, when `j == k`. */
  ghost predicate CountsBumped(m: map<string, Stats.Player>, r: map<string, Stats.Player>, k: int,
                               a: Option<string>, af: set<Field>, v: Option<string>, vf: set<Field>)
    requires FrameKept(m, r, a, v)
  {
    forall id, j, f {:trigger Get(r[id].servers[j], f)} | id in m && 0 <= j < |m[id].servers| ::
      Get(r[id].servers[j], f) == Get(m[id].servers[j], f) + One(j == k && a == Some(id) && f in af) + One(j == k && v == Some(id) && f in vf)
  }

  /** Record `k` of `a` and of `v` gains `matchId`; no other match set, server id, server name or damage changes. */
  ghost predicate MatchesAdded(m: map<string, Stats.Player>, r: map<string, Stats.Player>, k: int,
                               a: Option<string>, v: Option<string>, matchId: int)
    requires FrameKept(m, r, a, v)
  {
    forall id, j | id in m && 0 <= j < |m[id].servers| ::
      && r[id].servers[j].id == m[id].servers[j].id
      && r[id].servers[j].name == m[id].servers[j].name
      && r[id].servers[j].damage == m[id].servers[j].damage
      && r[id].servers[j].matches == m[id].servers[j].matches + (if j == k && (a == Some(id) || v == Some(id)) then {matchId} else {})
  }

  /**
   * `r` is `m` after an event whose actor `a` gains `af` and whose victim `v`
   * gains `vf` on record `k` of every player (the event's server): every
   * counter of every record goes up by exactly that, each side that lands
   * adds the match id, and nothing else of any player changes.
   */
  ghost predicate Effect(m: map<string, Stats.Player>, r: map<string, Stats.Player>, k: int,
                         a: Option<string>, af: set<Field>, v: Option<string>, vf: set<Field>, matchId: int)
  {
    && FrameKept(m, r, a, v)
    && CountsBumped(m, r, k, a, af, v, vf)
    && MatchesAdded(m, r, k, a, v, matchId)
  }

  /** Updating one side keeps every player's id, name and number of records, and changes no player other than `a`. */
  lemma UpdateSideFrame(m: map<string, Stats.Player>, a: Option<string>, server: int, fs: set<Field>, matchId: int, id: string)
    requires id in m
    ensures var r := UpdateSide(m, a, server, fs, matchId);
      && id in r && r[id].steamId == m[id].steamId && r[id].name == m[id].name
      && |r[id].servers| == |m[id].servers|
      && (a != Some(id) ==> r[id] == m[id])
  {
  }

  /** Updating one side bumps record `k` of player `id` exactly when the side lands there. */
  lemma UpdateSideEffect(m: map<string, Stats.Player>, a: Option<string>, server: int, fs: set<Field>, matchId: int, id: string, k: int)
    requires id in m && 0 <= k < |m[id].servers|
    ensures var r := UpdateSide(m, a, server, fs, matchId);
      && id in r && |r[id].servers| == |m[id].servers|
      && r[id].servers[k] == (if Hit(Shape(m), a, server, id, k) then Bump(m[id].servers[k], fs, matchId) else m[id].servers[k])
  {
    assert Shape(m)[id] == Ids(m[id].servers);
  }

  /** An event keeps every player's id, name and number of records, and changes no player it does not name. */
  lemma ApplyEventFrame(m: map<string, Stats.Player>, e: Event)
    ensures FrameKept(m, ApplyEvent(m, e), Actor(e), e.victim)
  {
    var m1 := UpdateSide(m, Actor(e), e.server, ActorFields(e), e.matchId);
    var r := ApplyEvent(m, e);
    ApplyEventShape(m, e);
    UpdateSideShape(m, Actor(e), e.server, ActorFields(e), e.matchId);
    assert m1.Keys == Shape(m1).Keys == Shape(m).Keys == m.Keys;
    forall id | id in m
      ensures r[id].steamId == m[id].steamId && r[id].name == m[id].name && |r[id].servers| == |m[id].servers|
      ensures Actor(e) != Some(id) && e.victim != Some(id) ==> r[id] == m[id]
    {
      UpdateSideFrame(m, Actor(e), e.server, ActorFields(e), e.matchId, id);
      UpdateSideFrame(m1, e.victim, e.server, VictimFields(e), e.matchId, id);
    }
  }

  /** One event on one record: each counter gains its contribution, and the match id joins when a side lands there. */
  lemma ApplyEventEffect(m: map<string, Stats.Player>, e: Event, id: string, k: int)
    requires id in m && 0 <= k < |m[id].servers|
    ensures var r := ApplyEvent(m, e);
      && id in r && |r[id].servers| == |m[id].servers|
      && r[id].servers[k].id == m[id].servers[k].id
      && r[id].servers[k].name == m[id].servers[k].name
      && r[id].servers[k].damage == m[id].servers[k].damage
      && (forall f :: Get(r[id].servers[k], f) == Get(m[id].servers[k], f) + Contribution(Shape(m), e, id, k, f))
      && r[id].servers[k].matches == m[id].servers[k].matches + (if Touches(Shape(m), e, id, k) then {e.matchId} else {})
  {
    var m1 := UpdateSide(m, Actor(e), e.server, ActorFields(e), e.matchId);
    UpdateSideEffect(m, Actor(e), e.server, ActorFields(e), e.matchId, id, k);
    UpdateSideShape(m, Actor(e), e.server, ActorFields(e), e.matchId);
    UpdateSideEffect(m1, e.victim, e.server, VictimFields(e), e.matchId, id, k);
  }

  /** Under the shared server list, a side lands on record `k` of `id` exactly when it names `id` and `k` is the event server's index. */
  lemma HitShared(m: map<string, Stats.Player>, serverIds: seq<int>, a: Option<string>, server: int, id: string, k: int)
    requires Consistent(m, serverIds) && id in m && 0 <= k < |m[id].servers|
    ensures Hit(Shape(m), a, server, id, k) <==> (k == IndexOf(serverIds, server) && a == Some(id))
  {
    assert Shape(m)[id] == Ids(m[id].servers) == serverIds;
  }

  lemma ApplyEventCounts(m: map<string, Stats.Player>, serverIds: seq<int>, e: Event)
    requires Consistent(m, serverIds) && FrameKept(m, ApplyEvent(m, e), Actor(e), e.victim)
    ensures CountsBumped(m, ApplyEvent(m, e), IndexOf(serverIds, e.server), Actor(e), ActorFields(e), e.victim, VictimFields(e))
  {
    var r := ApplyEvent(m, e);
    var k := IndexOf(serverIds, e.server);
    forall id, j, f {:trigger Get(r[id].servers[j], f)} | id in m && 0 <= j < |m[id].servers|
      ensures Get(r[id].servers[j], f) == Get(m[id].servers[j], f) + One(j == k && Actor(e) == Some(id) && f in ActorFields(e)) + One(j == k && e.victim == Some(id) && f in VictimFields(e))
    {
      ApplyEventEffect(m, e, id, j);
      HitShared(m, serverIds, Actor(e), e.server, id, j);
      HitShared(m, serverIds, e.victim, e.server, id, j);
    }
  }

  lemma ApplyEventMatches(m: map<string, Stats.Player>, serverIds: seq<int>, e: Event)
    requires Consistent(m, serverIds) && FrameKept(m, ApplyEvent(m, e), Actor(e), e.victim)
    ensures MatchesAdded(m, ApplyEvent(m, e), IndexOf(serverIds, e.server), Actor(e), e.victim, e.matchId)
  {
    var r := ApplyEvent(m, e);
    var k := IndexOf(serverIds, e.server);
    forall id, j | id in m && 0 <= j < |m[id].servers|
      ensures r[id].servers[j].id == m[id].servers[j].id
      ensures r[id].servers[j].name == m[id].servers[j].name
      ensures r[id].servers[j].damage == m[id].servers[j].damage
      ensures r[id].servers[j].matches == m[id].servers[j].matches + (if j == k && (Actor(e) == Some(id) || e.victim == Some(id)) then {e.matchId} else {})
    {
      ApplyEventEffect(m, e, id, j);
      HitShared(m, serverIds, Actor(e), e.server, id, j);
      HitShared(m, serverIds, e.victim, e.server, id, j);
    }
  }

  /**
   * The exact effect of one event on a consistent map: the acting side gains
   * `ActorFields(e)` and the victim `VictimFields(e)`, both on the record of the
   * event's server. An unknown server (index -1) changes nothing here only
   * because `UpdateSide` is total; the source throws on `servers[-1]`, and the
   * class methods exclude that case with `ServerKnown`.
   */
  lemma ApplyEventExact(m: map<string, Stats.Player>, serverIds: seq<int>, e: Event)
    requires Consistent(m, serverIds)
    ensures Effect(m, ApplyEvent(m, e), IndexOf(serverIds, e.server), Actor(e), ActorFields(e), e.victim, VictimFields(e), e.matchId)
  {
    ApplyEventFrame(m, e);
    ApplyEventCounts(m, serverIds, e);
    ApplyEventMatches(m, serverIds, e);
  }

  /**
   * A death that is not a teamkill adds 1 to the attacker's `kills` and 1 to
   * the victim's `deaths` on the event's server, and nothing else.
   */
  lemma NonTeamkillDeath(m: map<string, Stats.Player>, serverIds: seq<int>, e: Event)
    requires Consistent(m, serverIds) && e.Death? && !e.teamkill
    ensures Effect(m, ApplyEvent(m, e), IndexOf(serverIds, e.server), e.attacker, {Kills}, e.victim, {Deaths}, e.matchId)
  {
    ApplyEventExact(m, serverIds, e);
  }

  /**
   * A teamkill adds 1 to the attacker's `tks` (not `kills`) and 1 to both the
   * victim's `deaths` and `tkd`, so every record keeps `tkd <= deaths`.
   */
  lemma TeamkillDeath(m: map<string, Stats.Player>, serverIds: seq<int>, e: Event)
    requires Consistent(m, serverIds) && e.Death? && e.teamkill
    ensures Effect(m, ApplyEvent(m, e), IndexOf(serverIds, e.server), e.attacker, {Tks}, e.victim, {Deaths, Tkd}, e.matchId)
    ensures Consistent(ApplyEvent(m, e), serverIds)
  {
    ApplyEventExact(m, serverIds, e);
    ApplyEventConsistent(m, serverIds, e);
  }

  /**
   * An incap adds 1 to the attacker's `incaps` unless it is a teamkill, and
   * always 1 to the victim's `falls`.
   */
  lemma IncapEffect(m: map<string, Stats.Player>, serverIds: seq<int>, e: Event)
    requires Consistent(m, serverIds) && e.Incap?
    ensures Effect(m, ApplyEvent(m, e), IndexOf(serverIds, e.server), e.attacker, if e.teamkill then {} else {Incaps}, e.victim, {Falls}, e.matchId)
  {
    ApplyEventExact(m, serverIds, e);
  }

  /** A revive adds 1 to the reviver's `revives` and 1 to the victim's `revived`. */
  lemma ReviveEffect(m: map<string, Stats.Player>, serverIds: seq<int>, e: Event)
    requires Consistent(m, serverIds) && e.Revive?
    ensures Effect(m, ApplyEvent(m, e), IndexOf(serverIds, e.server), e.reviver, {Revives}, e.victim, {Revived}, e.matchId)
  {
    ApplyEventExact(m, serverIds, e);
  }

  /**
   * A side whose id is not in the map is skipped and the other side is still
   * updated: the event does what the other side's update alone does.
   */
  lemma UnresolvedSideSkipped(m: map<string, Stats.Player>, e: Event)
    ensures !Resolves(m.Keys, Actor(e)) ==>
      ApplyEvent(m, e) == UpdateSide(m, e.victim, e.server, VictimFields(e), e.matchId)
    ensures !Resolves(m.Keys, e.victim) ==>
      ApplyEvent(m, e) == UpdateSide(m, Actor(e), e.server, ActorFields(e), e.matchId)
  {
    var m1 := UpdateSide(m, Actor(e), e.server, ActorFields(e), e.matchId);
    UpdateSideShape(m, Actor(e), e.server, ActorFields(e), e.matchId);
    assert m1.Keys == Shape(m1).Keys == Shape(m).Keys == m.Keys;
  }

  /**
   * The events a pass actually folds: those the loops' filter keeps, in order.
   * Every tracked event is kept as often as it occurs, and nothing else is.
   */
  function Kept(es: seq<Event>, ignores: seq<string>): (r: seq<Event>)
    ensures |r| <= |es|
    ensures forall e :: e in r <==> e in es && Tracked(e, ignores)
    ensures forall e :: multiset(r)[e] == if Tracked(e, ignores) then multiset(es)[e] else 0
  {
    if es == [] then []
    else
      assert es == es[..|es| - 1] + [es[|es| - 1]];
      var init := Kept(es[..|es| - 1], ignores);
      if Tracked(es[|es| - 1], ignores) then init + [es[|es| - 1]] else init
  }

  /** The filter keeps order: filtering two lists one after the other is filtering their concatenation. */
  lemma {:induction false} KeptAppend(a: seq<Event>, b: seq<Event>, ignores: seq<string>)
    ensures Kept(a + b, ignores) == Kept(a, ignores) + Kept(b, ignores)
    decreases |b|
  {
    if b == [] {
      assert a + b == a;
    } else {
      var n := |b| - 1;
      assert (a + b)[..|a + b| - 1] == a + b[..n];
      KeptAppend(a, b[..n], ignores);
    }
  }

  /** An event with an empty or ignored layer, or without an actor or a victim, changes nothing: a pass folds only the kept events. */
  lemma {:induction false} FoldSkipsUntracked(m: map<string, Stats.Player>, es: seq<Event>, ignores: seq<string>)
    ensures Fold(m, es, ignores) == Fold(m, Kept(es, ignores), ignores)
  {
    if es != [] {
      var init := es[..|es| - 1];
      var e := es[|es| - 1];
      FoldSkipsUntracked(m, init, ignores);
      if Tracked(e, ignores) {
        assert (Kept(init, ignores) + [e])[..|Kept(init, ignores)|] == Kept(init, ignores);
      }
    }
  }

  /** Folding keeps every player and its server-id list. */
  lemma {:induction false} FoldShape(m: map<string, Stats.Player>, es: seq<Event>, ignores: seq<string>)
    ensures Shape(Fold(m, es, ignores)) == Shape(m)
    ensures Fold(m, es, ignores).Keys == m.Keys
  {
    if es != [] {
      FoldShape(m, es[..|es| - 1], ignores);
      ApplyEventShape(Fold(m, es[..|es| - 1], ignores), es[|es| - 1]);
    }
  }

  /** Two records bumped in either order end up equal. */
  lemma BumpCommute(s: Stat, f1: set<Field>, id1: int, f2: set<Field>, id2: int)
    ensures Bump(Bump(s, f1, id1), f2, id2) == Bump(Bump(s, f2, id2), f1, id1)
  {
    var x := Bump(Bump(s, f1, id1), f2, id2);
    var y := Bump(Bump(s, f2, id2), f1, id1);
    assert forall f :: Get(x, f) == Get(y, f);
    assert x.kills == Get(x, Kills) && y.kills == Get(y, Kills);
    assert x.tks == Get(x, Tks) && y.tks == Get(y, Tks);
    assert x.deaths == Get(x, Deaths) && y.deaths == Get(y, Deaths);
    assert x.tkd == Get(x, Tkd) && y.tkd == Get(y, Tkd);
    assert x.incaps == Get(x, Incaps) && y.incaps == Get(y, Incaps);
    assert x.falls == Get(x, Falls) && y.falls == Get(y, Falls);
    assert x.revives == Get(x, Revives) && y.revives == Get(y, Revives);
    assert x.revived == Get(x, Revived) && y.revived == Get(y, Revived);
  }

  /** The two orders agree on one player. */
  lemma UpdateSideCommuteAt(m: map<string, Stats.Player>,
                            a: Option<string>, s1: int, f1: set<Field>, id1: int,
                            b: Option<string>, s2: int, f2: set<Field>, id2: int, id: string)
    requires id in m
    ensures id in UpdateSide(UpdateSide(m, a, s1, f1, id1), b, s2, f2, id2)
    ensures id in UpdateSide(UpdateSide(m, b, s2, f2, id2), a, s1, f1, id1)
    ensures UpdateSide(UpdateSide(m, a, s1, f1, id1), b, s2, f2, id2)[id]
         == UpdateSide(UpdateSide(m, b, s2, f2, id2), a, s1, f1, id1)[id]
  {
    var ma := UpdateSide(m, a, s1, f1, id1);
    var mb := UpdateSide(m, b, s2, f2, id2);
    var r1 := UpdateSide(ma, b, s2, f2, id2);
    var r2 := UpdateSide(mb, a, s1, f1, id1);
    UpdateSideShape(m, a, s1, f1, id1);
    UpdateSideShape(m, b, s2, f2, id2);
    UpdateSideFrame(m, a, s1, f1, id1, id);
    UpdateSideFrame(ma, b, s2, f2, id2, id);
    UpdateSideFrame(m, b, s2, f2, id2, id);
    UpdateSideFrame(mb, a, s1, f1, id1, id);
    forall k | 0 <= k < |m[id].servers|
      ensures r1[id].servers[k] == r2[id].servers[k]
    {
      UpdateSideEffect(m, a, s1, f1, id1, id, k);
      UpdateSideEffect(ma, b, s2, f2, id2, id, k);
      UpdateSideEffect(m, b, s2, f2, id2, id, k);
      UpdateSideEffect(mb, a, s1, f1, id1, id, k);
      BumpCommute(m[id].servers[k], f1, id1, f2, id2);
    }
    assert r1[id].servers == r2[id].servers;
  }

  /** Two side updates commute: increments and match-set insertions do not depend on order. */
  lemma UpdateSideCommute(m: map<string, Stats.Player>,
                          a: Option<string>, s1: int, f1: set<Field>, id1: int,
                          b: Option<string>, s2: int, f2: set<Field>, id2: int)
    ensures UpdateSide(UpdateSide(m, a, s1, f1, id1), b, s2, f2, id2)
         == UpdateSide(UpdateSide(m, b, s2, f2, id2), a, s1, f1, id1)
  {
    var ma := UpdateSide(m, a, s1, f1, id1);
    var mb := UpdateSide(m, b, s2, f2, id2);
    var r1 := UpdateSide(ma, b, s2, f2, id2);
    var r2 := UpdateSide(mb, a, s1, f1, id1);
    UpdateSideShape(m, a, s1, f1, id1);
    UpdateSideShape(m, b, s2, f2, id2);
    UpdateSideShape(ma, b, s2, f2, id2);
    UpdateSideShape(mb, a, s1, f1, id1);
    assert r1.Keys == Shape(r1).Keys == Shape(m).Keys == Shape(r2).Keys == r2.Keys;
    forall id | id in r1
      ensures r1[id] == r2[id]
    {
      UpdateSideCommuteAt(m, a, s1, f1, id1, b, s2, f2, id2, id);
    }
  }

  /** Two events applied in either order give the same map. */
  lemma ApplyEventCommute(m: map<string, Stats.Player>, e1: Event, e2: Event)
    ensures ApplyEvent(ApplyEvent(m, e1), e2) == ApplyEvent(ApplyEvent(m, e2), e1)
  {
    var a1 := UpdateSide(m, Actor(e1), e1.server, ActorFields(e1), e1.matchId);
    var a2 := UpdateSide(m, Actor(e2), e2.server, ActorFields(e2), e2.matchId);
    var a1a2 := UpdateSide(a1, Actor(e2), e2.server, ActorFields(e2), e2.matchId);
    var a2a1 := UpdateSide(a2, Actor(e1), e1.server, ActorFields(e1), e1.matchId);
    var a1v1 := UpdateSide(a1, e1.victim, e1.server, VictimFields(e1), e1.matchId);
    var a2v2 := UpdateSide(a2, e2.victim, e2.server, VictimFields(e2), e2.matchId);
    // the second actor update moves in front of the first victim update
    UpdateSideCommute(a1, e1.victim, e1.server, VictimFields(e1), e1.matchId,
                      Actor(e2), e2.server, ActorFields(e2), e2.matchId);
    // the two actor updates swap
    UpdateSideCommute(m, Actor(e1), e1.server, ActorFields(e1), e1.matchId,
                      Actor(e2), e2.server, ActorFields(e2), e2.matchId);
    // the two victim updates swap
    UpdateSideCommute(a2a1, e1.victim, e1.server, VictimFields(e1), e1.matchId,
                      e2.victim, e2.server, VictimFields(e2), e2.matchId);
    // the first actor update moves behind the second victim update
    UpdateSideCommute(a2, Actor(e1), e1.server, ActorFields(e1), e1.matchId,
                      e2.victim, e2.server, VictimFields(e2), e2.matchId);
  }

  /** Two loop iterations applied in either order give the same map. */
  lemma StepCommute(m: map<string, Stats.Player>, e1: Event, e2: Event, ignores: seq<string>)
    ensures Step(Step(m, e1, ignores), e2, ignores) == Step(Step(m, e2, ignores), e1, ignores)
  {
    if Tracked(e1, ignores) && Tracked(e2, ignores) {
      ApplyEventCommute(m, e1, e2);
    }
  }

  /** An event anywhere in the sequence has the same result as that event folded last. */
  lemma {:induction false} FoldMoveToEnd(m: map<string, Stats.Player>, xs: seq<Event>, e: Event, ys: seq<Event>, ignores: seq<string>)
    ensures Fold(m, xs + [e] + ys, ignores) == Step(Fold(m, xs + ys, ignores), e, ignores)
    decreases |ys|
  {
    if ys == [] {
      assert xs + [e] + ys == xs + [e];
      assert (xs + [e])[..|xs|] == xs;
      assert xs + ys == xs;
    } else {
      var n := |ys| - 1;
      var y := ys[n];
      assert (xs + [e] + ys)[..|xs| + 1 + n] == xs + [e] + ys[..n];
      assert (xs + ys)[..|xs| + n] == xs + ys[..n];
      FoldMoveToEnd(m, xs, e, ys[..n], ignores);
      StepCommute(Fold(m, xs + ys[..n], ignores), e, y, ignores);
    }
  }

  /** Taking the same element out of two equal multisets leaves equal multisets. */
  lemma RemoveOne<T>(zs: seq<T>, xs: seq<T>, e: T, ys: seq<T>)
    requires multiset(zs + [e]) == multiset(xs + [e] + ys)
    ensures multiset(zs) == multiset(xs + ys)
  {
    forall x
      ensures multiset(zs)[x] == multiset(xs + ys)[x]
    {
      assert multiset(zs + [e])[x] == multiset(zs)[x] + multiset([e])[x];
      assert multiset(xs + [e] + ys)[x] == multiset(xs)[x] + multiset([e])[x] + multiset(ys)[x];
      assert multiset(xs + ys)[x] == multiset(xs)[x] + multiset(ys)[x];
    }
  }

  /**
   * Event order does not matter: any rearrangement of the same events folds
   * to the same map.
   */
  lemma {:induction false} FoldPermutation(m: map<string, Stats.Player>, es: seq<Event>, fs: seq<Event>, ignores: seq<string>)
    requires multiset(es) == multiset(fs)
    ensures Fold(m, es, ignores) == Fold(m, fs, ignores)
    decreases |es|
  {
    if es == [] {
      assert |fs| == |multiset(fs)| == 0;
    } else {
      var n := |es| - 1;
      var e := es[n];
      assert es == es[..n] + [e];
      assert e in multiset(fs);
      var j :| 0 <= j < |fs| && fs[j] == e;
      var xs, ys := fs[..j], fs[j + 1..];
      assert fs == xs + [e] + ys;
      RemoveOne(es[..n], xs, e, ys);
      FoldPermutation(m, es[..n], xs + ys, ignores);
      FoldMoveToEnd(m, xs, e, ys, ignores);
    }
  }

  /** What the kept events of `es` add, in total, to counter `f` of record `k` of player `id`. */
  function Count(sh: map<string, seq<int>>, es: seq<Event>, ignores: seq<string>, id: string, k: int, f: Field): nat {
    if es == [] then 0
    else
      var e := es[|es| - 1];
      Count(sh, es[..|es| - 1], ignores, id, k, f) + (if Tracked(e, ignores) then Contribution(sh, e, id, k, f) else 0)
  }

  /** The match ids of the kept events of `es` that land on record `k` of player `id`. */
  function MatchesOf(sh: map<string, seq<int>>, es: seq<Event>, ignores: seq<string>, id: string, k: int): set<int> {
    if es == [] then {}
    else
      var e := es[|es| - 1];
      MatchesOf(sh, es[..|es| - 1], ignores, id, k) + (if Tracked(e, ignores) && Touches(sh, e, id, k) then {e.matchId} else {})
  }

  /**
   * A whole pass: every counter of every record ends as its start value plus
   * what the kept events contribute to it, and its match set gains exactly
   * the match ids of the kept events that land on it.
   */
  lemma {:induction false} FoldEffect(m: map<string, Stats.Player>, es: seq<Event>, ignores: seq<string>, id: string, k: int)
    requires id in m && 0 <= k < |m[id].servers|
    ensures var r := Fold(m, es, ignores);
      && id in r && |r[id].servers| == |m[id].servers|
      && (forall f :: Get(r[id].servers[k], f) == Get(m[id].servers[k], f) + Count(Shape(m), es, ignores, id, k, f))
      && r[id].servers[k].matches == m[id].servers[k].matches + MatchesOf(Shape(m), es, ignores, id, k)
  {
    if es != [] {
      var init := es[..|es| - 1];
      var e := es[|es| - 1];
      var mi := Fold(m, init, ignores);
      FoldEffect(m, init, ignores, id, k);
      FoldShape(m, init, ignores);
      if Tracked(e, ignores) {
        ApplyEventEffect(mi, e, id, k);
      }
    }
  }

  /**
   * From the stubs of `initPlayers`, a pass leaves each counter equal to what
   * its events contribute (there is one `incaps` counter and it starts at 0),
   * and `matchCount`, the size of the match set, is the number of distinct
   * match ids of the kept events that land on the record.
   */
  lemma StubCountsFromZero(rows: seq<PlayerRow>, servers: seq<Server>, es: seq<Event>, ignores: seq<string>, id: string, k: int)
    requires id in Knex.InitialMap(rows, servers) && 0 <= k < |servers|
    ensures var m := Knex.InitialMap(rows, servers);
      var r := Fold(m, es, ignores);
      && id in r && |r[id].servers| == |servers|
      && (forall f :: Get(r[id].servers[k], f) == Count(Shape(m), es, ignores, id, k, f))
      && |r[id].servers[k].matches| == |MatchesOf(Shape(m), es, ignores, id, k)|
  {
    var m := Knex.InitialMap(rows, servers);
    Knex.InitialMapValues(rows, servers);
    assert m[id].servers == Stubs(servers);
    assert Zeroed(m[id].servers[k]);
    FoldEffect(m, es, ignores, id, k);
  }
}
