/**
 * Stub initialisation (src/lib/knex.ts `initPlayers`): every player row becomes a
 * map entry keyed by its steam id, holding its own copy of one zeroed record per
 * server. The server list is a parameter; the query that reads it is not modelled.
 */
module Knex {
  import opened Optional
  import opened Stats
  import JsNumber

  /** The map after `playersMap.set` has been called for each row in turn: a later row with the same id wins. */
  function InitialMap(rows: seq<PlayerRow>, servers: seq<Server>): map<string, Player> {
    if rows == [] then map[]
    else
      var p := rows[|rows| - 1];
      InitialMap(rows[..|rows| - 1], servers)[p.steamId := Player(p.steamId, p.name, Stubs(servers))]
  }

  /** No later row carries the same steam id as row `j`. */
  predicate LastWithId(rows: seq<PlayerRow>, j: int)
    requires 0 <= j < |rows|
  {
    forall k :: j < k < |rows| ==> rows[k].steamId != rows[j].steamId
  }

  lemma {:induction false} InitialMapKeys(rows: seq<PlayerRow>, servers: seq<Server>)
    ensures InitialMap(rows, servers).Keys == set r | r in rows :: r.steamId
  {
    if rows != [] {
      var init := rows[..|rows| - 1];
      InitialMapKeys(init, servers);
      assert rows == init + [rows[|rows| - 1]];
      assert (set r | r in rows :: r.steamId) == (set r | r in init :: r.steamId) + {rows[|rows| - 1].steamId};
    }
  }

  lemma {:induction false} InitialMapValues(rows: seq<PlayerRow>, servers: seq<Server>)
    ensures forall id :: id in InitialMap(rows, servers) ==>
      InitialMap(rows, servers)[id].steamId == id && InitialMap(rows, servers)[id].servers == Stubs(servers)
  {
    if rows != [] {
      InitialMapValues(rows[..|rows| - 1], servers);
    }
  }

  lemma {:induction false} InitialMapLastWins(rows: seq<PlayerRow>, servers: seq<Server>, j: int)
    requires 0 <= j < |rows| && LastWithId(rows, j)
    ensures rows[j].steamId in InitialMap(rows, servers)
    ensures InitialMap(rows, servers)[rows[j].steamId].name == rows[j].name
  {
    var n := |rows| - 1;
    if j < n {
      var init := rows[..n];
      assert LastWithId(init, j);
      InitialMapLastWins(init, servers, j);
      assert rows[n].steamId != rows[j].steamId;
    }
  }

  /**
   * `initPlayers(players)` with the server list passed in: one loop of `set` calls.
   * Every row's id is a key, each entry carries a zeroed record per server in
   * server order, and a later duplicate id overwrites an earlier one.
   */
  method InitPlayers(rows: seq<PlayerRow>, servers: seq<Server>) returns (m: map<string, Player>)
    ensures m == InitialMap(rows, servers)
    ensures m.Keys == set r | r in rows :: r.steamId
    ensures forall id :: id in m ==> m[id].steamId == id && m[id].servers == Stubs(servers)
    ensures forall id :: id in m ==> Ids(m[id].servers) == ServerIds(servers)
    ensures forall j :: 0 <= j < |rows| && LastWithId(rows, j) ==> m[rows[j].steamId].name == rows[j].name
  {
    var stubs := Stubs(servers);
    m := map[];
    var i := 0;
    while i < |rows|
      invariant 0 <= i <= |rows|
      invariant m == InitialMap(rows[..i], servers)
    {
      var p := rows[i];
      // cloneDeep(playerServerStubs): a value copy, shared with no other player
      m := m[p.steamId := Player(p.steamId, p.name, stubs)];
      assert rows[..i + 1][..i] == rows[..i];
      i := i + 1;
    }
    assert rows[..i] == rows;
    InitialMapKeys(rows, servers);
    InitialMapValues(rows, servers);
    forall j | 0 <= j < |rows| && LastWithId(rows, j)
      ensures m[rows[j].steamId].name == rows[j].name
    {
      InitialMapLastWins(rows, servers, j);
    }
  }

  /**
   * The `incaps` field of a stub record after `n` calls of `incaps++`, as the
   * source builds the stub: the stub names that counter `downs`, so `incaps`
   * starts absent (None, JavaScript `undefined`) and `undefined++` stores NaN.
   */
  function IncapsAfterAsWritten(n: nat): (r: Option<JsNumber.JsNum>)
    ensures r.None? <==> n == 0
  {
    if n == 0 then None
    else
      var before := IncapsAfterAsWritten(n - 1);
      Some(JsNumber.Increment(if before.None? then JsNumber.NaN else before.value))
  }

  /** With the stub as written, no number of incaps ever makes the counter a number. */
  lemma {:induction false} IncapsNeverCountAsWritten(n: nat)
    requires n >= 1
    ensures IncapsAfterAsWritten(n) == Some(JsNumber.NaN)
  {
    if n > 1 {
      IncapsNeverCountAsWritten(n - 1);
    }
  }
}
