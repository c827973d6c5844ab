/**
 * The earlier, single-file revision of the aggregator (index.js): players are
 * stubbed with one zeroed record per server, every death and every revive is
 * folded in with no layer filter and no match tracking, and each record's
 * `kd` and each player's leaderboard totals are derived afterwards.
 *
 * Unlike the later folder, this one does not check that the ids it reads name
 * known players: a present id that is missing from the map, or a server that
 * is not in the list, makes the source throw. Those are the preconditions here.
 */
module Legacy {
  import opened Optional
  import Stats
  import Knex

  /** A server stub of this revision: counters only, `kd` is derived (see `Kd`). */
  datatype LegacyStat = LegacyStat(
    id: int,
    name: string,
    kills: nat,
    deaths: nat,
    revives: nat,
    revived: nat,
    tks: nat,
    tkd: nat)

  datatype LegacyPlayer = LegacyPlayer(steamId: string, name: string, servers: seq<LegacyStat>)

  /** A row of the deaths table or of the revives table. */
  datatype LegacyEvent =
    | Death(attacker: Option<string>, victim: Option<string>, teamkill: bool, server: int)
    | Revive(reviver: Option<string>, victim: Option<string>, server: int)

  datatype Counter = Kills | Deaths | Revives | Revived | Tks | Tkd

  function Get(s: LegacyStat, c: Counter): nat {
    match c
    case Kills => s.kills
    case Deaths => s.deaths
    case Revives => s.revives
    case Revived => s.revived
    case Tks => s.tks
    case Tkd => s.tkd
  }

  /** Each counter in `cs` goes up by one; nothing else changes. */
  function Bump(s: LegacyStat, cs: set<Counter>): (r: LegacyStat)
    ensures forall c :: Get(r, c) == Get(s, c) + Stats.One(c in cs)
    ensures r.id == s.id && r.name == s.name
  {
    s.(kills := s.kills + Stats.One(Kills in cs),
       deaths := s.deaths + Stats.One(Deaths in cs),
       revives := s.revives + Stats.One(Revives in cs),
       revived := s.revived + Stats.One(Revived in cs),
       tks := s.tks + Stats.One(Tks in cs),
       tkd := s.tkd + Stats.One(Tkd in cs))
  }

  predicate WellFormed(s: LegacyStat) {
    s.tkd <= s.deaths
  }

  function Ids(ss: seq<LegacyStat>): seq<int> {
    seq(|ss|, i requires 0 <= i < |ss| => ss[i].id)
  }

  /** The stub of one server: its id and name, every counter zero. */
  function ZeroStat(server: Stats.Server): LegacyStat {
    LegacyStat(server.id, server.name, 0, 0, 0, 0, 0, 0)
  }

  function Stubs(servers: seq<Stats.Server>): (r: seq<LegacyStat>)
    ensures |r| == |servers| && Ids(r) == Stats.ServerIds(servers)
    ensures forall i :: 0 <= i < |r| ==> r[i].name == servers[i].name && forall c :: Get(r[i], c) == 0
  {
    seq(|servers|, i requires 0 <= i < |servers| => ZeroStat(servers[i]))
  }

  /** Every record of every player has all counters zero. */
  ghost predicate AllZero(m: map<string, LegacyPlayer>) {
    forall id, k, c :: id in m && 0 <= k < |m[id].servers| ==> Get(m[id].servers[k], c) == 0
  }

  /** Every player lists exactly the servers `serverIds`, and every record keeps `tkd <= deaths`. */
  ghost predicate Consistent(m: map<string, LegacyPlayer>, serverIds: seq<int>) {
    forall id :: id in m ==> Ids(m[id].servers) == serverIds && forall k :: 0 <= k < |m[id].servers| ==> WellFormed(m[id].servers[k])
  }

  function Actor(e: LegacyEvent): Option<string> {
    if e.Revive? then e.reviver else e.attacker
  }

  /** The attacker of a team kill gains a `tks`, of any other kill a `kills`; a reviver gains a `revives`. */
  function ActorCounters(e: LegacyEvent): set<Counter> {
    match e
    case Death(_, _, tk, _) => if tk then {Tks} else {Kills}
    case Revive(_, _, _) => {Revives}
  }

  /** A victim of a death gains a `deaths`, and a `tkd` too when it was a team kill; a revived player gains a `revived`. */
  function VictimCounters(e: LegacyEvent): set<Counter> {
    match e
    case Death(_, _, tk, _) => if tk then {Deaths, Tkd} else {Deaths}
    case Revive(_, _, _) => {Revived}
  }

  /**
   * What the loop body needs in order not to throw: each present id names a
   * player, and when some id is present the event's server is in the list.
   */
  predicate Resolvable(keys: set<string>, serverIds: seq<int>, e: LegacyEvent) {
    && (Truthy(Actor(e)) ==> Actor(e).value in keys)
    && (Truthy(e.victim) ==> e.victim.value in keys)
    && (Truthy(Actor(e)) || Truthy(e.victim) ==> e.server in serverIds)
  }

  /** Under `Resolvable`, a present side's lookup finds a real record holding the event's server. */
  lemma ResolvableFinds(keys: set<string>, serverIds: seq<int>, e: LegacyEvent)
    requires Resolvable(keys, serverIds, e)
    requires Truthy(Actor(e)) || Truthy(e.victim)
    ensures 0 <= Stats.IndexOf(serverIds, e.server) < |serverIds| && serverIds[Stats.IndexOf(serverIds, e.server)] == e.server
  {
  }

  /** One side of an event: a present id that names a player listing `server` gets `cs` bumped on that record. */
  function UpdateSide(m: map<string, LegacyPlayer>, who: Option<string>, server: int, cs: set<Counter>): map<string, LegacyPlayer> {
    if Truthy(who) && who.value in m && server in Ids(m[who.value].servers) then
      var p := m[who.value];
      var k := Stats.IndexOf(Ids(p.servers), server);
      m[who.value := p.(servers := p.servers[k := Bump(p.servers[k], cs)])]
    else m
  }

  /** One iteration of the deaths loop or of the revives loop. */
  function ApplyEvent(m: map<string, LegacyPlayer>, e: LegacyEvent): map<string, LegacyPlayer> {
    UpdateSide(UpdateSide(m, Actor(e), e.server, ActorCounters(e)), e.victim, e.server, VictimCounters(e))
  }

  function Fold(m: map<string, LegacyPlayer>, es: seq<LegacyEvent>): map<string, LegacyPlayer> {
    if es == [] then m
    else ApplyEvent(Fold(m, es[..|es| - 1]), es[|es| - 1])
  }

  /** What one side adds to counter `c` of player `id`: one if the side names `id` and bumps `c`. */
  function Gain(who: Option<string>, cs: set<Counter>, id: string, c: Counter): nat {
    Stats.One(Truthy(who) && who.value == id && c in cs)
  }

  /** Folding two lists one after the other is folding their concatenation. */
  lemma {:induction false} FoldAppend(m: map<string, LegacyPlayer>, a: seq<LegacyEvent>, b: seq<LegacyEvent>)
    ensures Fold(m, a + b) == Fold(Fold(m, a), b)
    decreases |b|
  {
    if b == [] {
      assert a + b == a;
    } else {
      var n := |b| - 1;
      assert (a + b)[..|a + b| - 1] == a + b[..n];
      FoldAppend(m, a, b[..n]);
    }
  }

  /** How much event `e` adds to counter `c` of player `id` (on the event's server). */
  function Delta(e: LegacyEvent, id: string, c: Counter): nat {
    Gain(Actor(e), ActorCounters(e), id, c) + Gain(e.victim, VictimCounters(e), id, c)
  }

  /** The increments of counter `c` of player `id` over a list of events, on any server. */
  function Tally(es: seq<LegacyEvent>, id: string, c: Counter): nat {
    if es == [] then 0
    else Tally(es[..|es| - 1], id, c) + Delta(es[|es| - 1], id, c)
  }

  /** The same, counting only the events of server `server`. */
  function TallyOn(es: seq<LegacyEvent>, id: string, server: int, c: Counter): nat {
    if es == [] then 0
    else TallyOn(es[..|es| - 1], id, server, c) + (if es[|es| - 1].server == server then Delta(es[|es| - 1], id, c) else 0)
  }

  /** `player.servers.reduce((acc, curr) => acc + curr.<c>, 0)`: a left fold over the records. */
  function Total(ss: seq<LegacyStat>, c: Counter): nat {
    if ss == [] then 0
    else Total(ss[..|ss| - 1], c) + Get(ss[|ss| - 1], c)
  }

  /**
   * A record's `kd`: 0 without kills, 1 with kills and no deaths, otherwise
   * kills per death (rounding to two decimals is not modelled).
   */
  function Kd(s: LegacyStat): (r: real)
    ensures r >= 0.0
    ensures r == 0.0 <==> s.kills == 0
    ensures s.kills > 0 && s.deaths == 0 ==> r == 1.0
    ensures s.deaths > 0 ==> r * s.deaths as real == s.kills as real
    ensures s.deaths > 0 ==> (r >= 1.0 <==> s.kills >= s.deaths)
  {
    if s.kills == 0 then 0.0
    else if s.deaths == 0 then 1.0
    else
      var r := s.kills as real / s.deaths as real;
      assert r * s.deaths as real == s.kills as real;
      r
  }

  /** The three leaderboard scores of a player. */
  datatype Scores = Scores(kills: nat, deaths: nat, revives: nat)

  function ScoresOf(p: LegacyPlayer): Scores {
    Scores(Total(p.servers, Kills), Total(p.servers, Deaths), Total(p.servers, Revives))
  }

  /** Replacing one record changes a total by the difference of that record's counter. */
  lemma {:induction false} TotalReplace(ss: seq<LegacyStat>, k: int, t: LegacyStat, c: Counter)
    requires 0 <= k < |ss|
    ensures Total(ss[k := t], c) + Get(ss[k], c) == Total(ss, c) + Get(t, c)
  {
    var n := |ss| - 1;
    if k == n {
      assert ss[k := t][..n] == ss[..n];
    } else {
      assert ss[k := t][..n] == ss[..n][k := t];
      TotalReplace(ss[..n], k, t, c);
    }
  }

  /** Records whose counter `c` is zero everywhere total zero. */
  lemma {:induction false} TotalZero(ss: seq<LegacyStat>, c: Counter)
    requires forall k :: 0 <= k < |ss| ==> Get(ss[k], c) == 0
    ensures Total(ss, c) == 0
  {
    if ss != [] {
      TotalZero(ss[..|ss| - 1], c);
    }
  }

  /** Bumping a side keeps every player, its server list and `tkd <= deaths` (a `tkd` is bumped only with a `deaths`). */
  lemma UpdateSideConsistent(m: map<string, LegacyPlayer>, serverIds: seq<int>, who: Option<string>, server: int, cs: set<Counter>)
    requires Consistent(m, serverIds)
    requires Tkd in cs ==> Deaths in cs
    ensures Consistent(UpdateSide(m, who, server, cs), serverIds)
    ensures UpdateSide(m, who, server, cs).Keys == m.Keys
  {
    if Truthy(who) && who.value in m && server in Ids(m[who.value].servers) {
      var p := m[who.value];
      var k := Stats.IndexOf(Ids(p.servers), server);
      var t := Bump(p.servers[k], cs);
      assert WellFormed(t);
      assert Ids(p.servers[k := t]) == Ids(p.servers);
    }
  }

  lemma ApplyEventConsistent(m: map<string, LegacyPlayer>, serverIds: seq<int>, e: LegacyEvent)
    requires Consistent(m, serverIds)
    ensures Consistent(ApplyEvent(m, e), serverIds)
    ensures ApplyEvent(m, e).Keys == m.Keys
  {
    UpdateSideConsistent(m, serverIds, Actor(e), e.server, ActorCounters(e));
    var m1 := UpdateSide(m, Actor(e), e.server, ActorCounters(e));
    UpdateSideConsistent(m1, serverIds, e.victim, e.server, VictimCounters(e));
  }

  /** A whole pass keeps every player, its server list and `tkd <= deaths` on every record. */
  lemma {:induction false} FoldConsistent(m: map<string, LegacyPlayer>, serverIds: seq<int>, es: seq<LegacyEvent>)
    requires Consistent(m, serverIds)
    ensures Consistent(Fold(m, es), serverIds)
    ensures Fold(m, es).Keys == m.Keys
  {
    if es != [] {
      FoldConsistent(m, serverIds, es[..|es| - 1]);
      ApplyEventConsistent(Fold(m, es[..|es| - 1]), serverIds, es[|es| - 1]);
    }
  }

  /** The exact effect of one side on one counter of one record. */
  lemma UpdateSideGet(m: map<string, LegacyPlayer>, serverIds: seq<int>, who: Option<string>, server: int, cs: set<Counter>, id: string, j: int, c: Counter)
    requires Consistent(m, serverIds) && id in m && 0 <= j < |serverIds|
    requires Truthy(who) ==> who.value in m && server in serverIds
    ensures id in UpdateSide(m, who, server, cs)
    ensures |UpdateSide(m, who, server, cs)[id].servers| == |serverIds|
    ensures Get(UpdateSide(m, who, server, cs)[id].servers[j], c)
      == Get(m[id].servers[j], c) + (if j == Stats.IndexOf(serverIds, server) then Gain(who, cs, id, c) else 0)
  {
    assert |Ids(m[id].servers)| == |serverIds|;
  }

  /** The exact effect of one side on one counter summed over a player's servers. */
  lemma UpdateSideTotal(m: map<string, LegacyPlayer>, serverIds: seq<int>, who: Option<string>, server: int, cs: set<Counter>, id: string, c: Counter)
    requires Consistent(m, serverIds) && id in m
    requires Truthy(who) ==> who.value in m && server in serverIds
    ensures id in UpdateSide(m, who, server, cs)
    ensures Total(UpdateSide(m, who, server, cs)[id].servers, c)
      == Total(m[id].servers, c) + Gain(who, cs, id, c)
  {
    if Truthy(who) && who.value == id {
      var p := m[id];
      var k := Stats.IndexOf(Ids(p.servers), server);
      TotalReplace(p.servers, k, Bump(p.servers[k], cs), c);
    }
  }

  /**
   * One event changes counter `c` of player `id` only on the record of the
   * event's server, and there by `Delta`: a kill credits the attacker's
   * `kills`, a team kill its `tks`; every death credits the victim's `deaths`,
   * a team kill its `tkd` as well; a revive credits `revives` and `revived`;
   * an absent side gains nothing.
   */
  lemma ApplyEventGet(m: map<string, LegacyPlayer>, serverIds: seq<int>, e: LegacyEvent, id: string, j: int, c: Counter)
    requires Consistent(m, serverIds) && Resolvable(m.Keys, serverIds, e) && id in m && 0 <= j < |serverIds|
    ensures id in ApplyEvent(m, e) && |ApplyEvent(m, e)[id].servers| == |serverIds|
    ensures Get(ApplyEvent(m, e)[id].servers[j], c)
      == Get(m[id].servers[j], c) + (if j == Stats.IndexOf(serverIds, e.server) then Delta(e, id, c) else 0)
  {
    var m1 := UpdateSide(m, Actor(e), e.server, ActorCounters(e));
    var hit := j == Stats.IndexOf(serverIds, e.server);
    assert id in m1 && Get(m1[id].servers[j], c) == Get(m[id].servers[j], c) + (if hit then Gain(Actor(e), ActorCounters(e), id, c) else 0) by {
      UpdateSideGet(m, serverIds, Actor(e), e.server, ActorCounters(e), id, j, c);
    }
    assert Consistent(m1, serverIds) && m1.Keys == m.Keys by {
      UpdateSideConsistent(m, serverIds, Actor(e), e.server, ActorCounters(e));
    }
    UpdateSideGet(m1, serverIds, e.victim, e.server, VictimCounters(e), id, j, c);
  }

  /** One event adds `Delta` to a player's total of counter `c`. */
  lemma ApplyEventTotal(m: map<string, LegacyPlayer>, serverIds: seq<int>, e: LegacyEvent, id: string, c: Counter)
    requires Consistent(m, serverIds) && Resolvable(m.Keys, serverIds, e) && id in m
    ensures id in ApplyEvent(m, e)
    ensures Total(ApplyEvent(m, e)[id].servers, c) == Total(m[id].servers, c) + Delta(e, id, c)
  {
    var m1 := UpdateSide(m, Actor(e), e.server, ActorCounters(e));
    UpdateSideTotal(m, serverIds, Actor(e), e.server, ActorCounters(e), id, c);
    UpdateSideConsistent(m, serverIds, Actor(e), e.server, ActorCounters(e));
    UpdateSideTotal(m1, serverIds, e.victim, e.server, VictimCounters(e), id, c);
  }

  /** A pass adds to each player's total of `c` exactly the tally of its events. */
  lemma {:induction false} FoldTotal(m: map<string, LegacyPlayer>, serverIds: seq<int>, es: seq<LegacyEvent>, id: string, c: Counter)
    requires Consistent(m, serverIds) && id in m
    requires forall e :: e in es ==> Resolvable(m.Keys, serverIds, e)
    ensures id in Fold(m, es)
    ensures Total(Fold(m, es)[id].servers, c) == Total(m[id].servers, c) + Tally(es, id, c)
  {
    FoldConsistent(m, serverIds, es);
    if es != [] {
      var init := es[..|es| - 1];
      FoldTotal(m, serverIds, init, id, c);
      FoldConsistent(m, serverIds, init);
      ApplyEventTotal(Fold(m, init), serverIds, es[|es| - 1], id, c);
    }
  }

  /** Two servers of the list share a record position only if they are the same server. */
  lemma IndexOfInjective(ids: seq<int>, x: int, y: int)
    requires x in ids && y in ids && Stats.IndexOf(ids, x) == Stats.IndexOf(ids, y)
    ensures x == y
  {
  }

  /** A pass adds to a player's record of `server` exactly the tally of that server's events. */
  lemma {:induction false} FoldRecord(m: map<string, LegacyPlayer>, serverIds: seq<int>, es: seq<LegacyEvent>, id: string, server: int, c: Counter)
    requires Consistent(m, serverIds) && id in m && server in serverIds
    requires forall e :: e in es ==> Resolvable(m.Keys, serverIds, e)
    ensures id in Fold(m, es) && |Fold(m, es)[id].servers| == |serverIds|
    ensures Get(Fold(m, es)[id].servers[Stats.IndexOf(serverIds, server)], c)
      == Get(m[id].servers[Stats.IndexOf(serverIds, server)], c) + TallyOn(es, id, server, c)
  {
    FoldConsistent(m, serverIds, es);
    assert |Ids(Fold(m, es)[id].servers)| == |serverIds|;
    if es != [] {
      var init := es[..|es| - 1];
      var e := es[|es| - 1];
      var j := Stats.IndexOf(serverIds, server);
      FoldRecord(m, serverIds, init, id, server, c);
      FoldConsistent(m, serverIds, init);
      ApplyEventGet(Fold(m, init), serverIds, e, id, j, c);
      if Delta(e, id, c) != 0 && j == Stats.IndexOf(serverIds, e.server) {
        IndexOfInjective(serverIds, server, e.server);
      }
    }
  }

  /**
   * From freshly stubbed players, a player's leaderboard scores after the pass
   * are the numbers of deaths, team kills excluded, it made, of deaths it
   * suffered, and of revives it gave, over all servers.
   */
  lemma PassScores(m: map<string, LegacyPlayer>, serverIds: seq<int>, es: seq<LegacyEvent>, id: string)
    requires Consistent(m, serverIds) && AllZero(m) && id in m
    requires forall e :: e in es ==> Resolvable(m.Keys, serverIds, e)
    ensures id in Fold(m, es)
    ensures ScoresOf(Fold(m, es)[id]) == Scores(Tally(es, id, Kills), Tally(es, id, Deaths), Tally(es, id, Revives))
  {
    FoldConsistent(m, serverIds, es);
    var cs := [Kills, Deaths, Revives];
    forall c | c in cs
      ensures Total(Fold(m, es)[id].servers, c) == Tally(es, id, c)
    {
      FoldTotal(m, serverIds, es, id, c);
      TotalZero(m[id].servers, c);
    }
    assert Kills in cs && Deaths in cs && Revives in cs;
  }

  /** From freshly stubbed players, each record after the pass counts exactly its own server's events. */
  lemma PassRecord(m: map<string, LegacyPlayer>, serverIds: seq<int>, es: seq<LegacyEvent>, id: string, server: int, c: Counter)
    requires Consistent(m, serverIds) && AllZero(m) && id in m && server in serverIds
    requires forall e :: e in es ==> Resolvable(m.Keys, serverIds, e)
    ensures id in Fold(m, es) && |Fold(m, es)[id].servers| == |serverIds|
    ensures Get(Fold(m, es)[id].servers[Stats.IndexOf(serverIds, server)], c) == TallyOn(es, id, server, c)
  {
    FoldRecord(m, serverIds, es, id, server, c);
    assert |Ids(m[id].servers)| == |serverIds|;
  }

  /** The stubbed map of this revision has the players of the later one, each with this revision's stubs. */
  function Restub(k: map<string, Stats.Player>, servers: seq<Stats.Server>): map<string, LegacyPlayer> {
    map id | id in k :: LegacyPlayer(k[id].steamId, k[id].name, Stubs(servers))
  }

  /**
   * `initPlayers()`, given the named player rows and the server list: each row's
   * steam id maps to a player holding its own zeroed copy of every server stub;
   * a later row with the same id overwrites an earlier one.
   */
  method InitPlayers(rows: seq<Stats.PlayerRow>, servers: seq<Stats.Server>) returns (m: map<string, LegacyPlayer>)
    ensures m.Keys == set r | r in rows :: r.steamId
    ensures forall id :: id in m ==> m[id].steamId == id && m[id].servers == Stubs(servers)
    ensures forall j :: 0 <= j < |rows| && Knex.LastWithId(rows, j) ==> m[rows[j].steamId].name == rows[j].name
    ensures Consistent(m, Stats.ServerIds(servers)) && AllZero(m)
    ensures m == Restub(Knex.InitialMap(rows, servers), servers)
  {
    var stubs := Stubs(servers);
    m := map[];
    var i := 0;
    while i < |rows|
      invariant 0 <= i <= |rows|
      invariant m == Restub(Knex.InitialMap(rows[..i], servers), servers)
    {
      var p := rows[i];
      // cloneDeep(servers): a value copy, shared with no other player
      m := m[p.steamId := LegacyPlayer(p.steamId, p.name, stubs)];
      assert rows[..i + 1][..i] == rows[..i];
      i := i + 1;
    }
    assert rows[..i] == rows;
    Knex.InitialMapKeys(rows, servers);
    Knex.InitialMapValues(rows, servers);
    forall j | 0 <= j < |rows| && Knex.LastWithId(rows, j)
      ensures m[rows[j].steamId].name == rows[j].name
    {
      Knex.InitialMapLastWins(rows, servers, j);
    }
  }

  /** A resolved side whose record sits at `k`: writing back its bumped copy is the side update. */
  lemma ReplaceRecord(m: map<string, LegacyPlayer>, serverIds: seq<int>, a: string, server: int, cs: set<Counter>, k: int, s: LegacyStat)
    requires Consistent(m, serverIds) && a != ""
    requires a in m && 0 <= k && k == Stats.IndexOf(Ids(m[a].servers), server)
    requires s == Bump(m[a].servers[k], cs)
    ensures m[a := m[a].(servers := m[a].servers[k := s])] == UpdateSide(m, Some(a), server, cs)
  {
  }

  /** The attacker block's record update is a bump of `tks` (team kill) or `kills`. */
  lemma KillRecord(t: LegacyStat, teamkill: bool)
    ensures (if teamkill then t.(tks := t.tks + 1) else t.(kills := t.kills + 1)) == Bump(t, if teamkill then {Tks} else {Kills})
  {
  }

  /** The victim block's record update is a bump of `deaths`, and of `tkd` for a team kill. */
  lemma DeathRecord(t: LegacyStat, teamkill: bool)
    ensures (var u := if teamkill then t.(tkd := t.tkd + 1) else t; u.(deaths := u.deaths + 1)) == Bump(t, if teamkill then {Deaths, Tkd} else {Deaths})
  {
  }

  /** The revive blocks' record updates are bumps of `revives` and `revived`. */
  lemma ReviveRecords(t: LegacyStat)
    ensures t.(revives := t.revives + 1) == Bump(t, {Revives})
    ensures t.(revived := t.revived + 1) == Bump(t, {Revived})
  {
  }

  /**
   * The first block of a loop iteration (`if (death.attacker)` or
   * `if (revive.reviver)`): look up the player, find the record of the event's
   * server and bump it. Returns the index it found, if the block ran.
   */
  method CreditActor(m: map<string, LegacyPlayer>, ghost serverIds: seq<int>, e: LegacyEvent) returns (r: map<string, LegacyPlayer>, serverIndex: Option<int>)
    requires Consistent(m, serverIds) && Resolvable(m.Keys, serverIds, e)
    ensures r == UpdateSide(m, Actor(e), e.server, ActorCounters(e))
    ensures serverIndex.Some? <==> Truthy(Actor(e))
    ensures serverIndex.Some? ==> serverIndex.value == Stats.IndexOf(serverIds, e.server)
  {
    r := m;
    serverIndex := None;
    if Truthy(Actor(e)) {
      var actor := m[Actor(e).value];
      var k := Stats.FindIndex(Ids(actor.servers), e.server);
      serverIndex := Some(k);
      var s := actor.servers[k];
      match e {
        case Death(_, _, teamkill, _) =>
          if teamkill {
            s := s.(tks := s.tks + 1);
          } else {
            s := s.(kills := s.kills + 1);
          }
          KillRecord(actor.servers[k], teamkill);
        case Revive(_, _, _) =>
          s := s.(revives := s.revives + 1);
          ReviveRecords(actor.servers[k]);
      }
      r := m[Actor(e).value := actor.(servers := actor.servers[k := s])];
      ReplaceRecord(m, serverIds, Actor(e).value, e.server, ActorCounters(e), k, s);
    }
  }

  /**
   * The second block (`if (death.victim)` or `if (revive.victim)`): reuse the
   * first block's index when it is set and not 0, otherwise search the
   * victim's own list, then bump that record.
   */
  method CreditVictim(m: map<string, LegacyPlayer>, ghost serverIds: seq<int>, e: LegacyEvent, serverIndex: Option<int>) returns (r: map<string, LegacyPlayer>)
    requires Consistent(m, serverIds) && Resolvable(m.Keys, serverIds, e)
    requires serverIndex.Some? ==> serverIndex.value == Stats.IndexOf(serverIds, e.server)
    ensures r == UpdateSide(m, e.victim, e.server, VictimCounters(e))
  {
    r := m;
    if Truthy(e.victim) {
      var victim := m[e.victim.value];
      var k;
      if serverIndex == None || serverIndex == Some(0) {
        k := Stats.FindIndex(Ids(victim.servers), e.server);
      } else {
        // the first block's index, valid here because both lists have the same ids
        k := serverIndex.value;
      }
      assert k == Stats.IndexOf(Ids(victim.servers), e.server);
      var s := victim.servers[k];
      match e {
        case Death(_, _, teamkill, _) =>
          if teamkill {
            s := s.(tkd := s.tkd + 1);
          }
          s := s.(deaths := s.deaths + 1);
          DeathRecord(victim.servers[k], teamkill);
        case Revive(_, _, _) =>
          s := s.(revived := s.revived + 1);
          ReviveRecords(victim.servers[k]);
      }
      r := m[e.victim.value := victim.(servers := victim.servers[k := s])];
      ReplaceRecord(m, serverIds, e.victim.value, e.server, VictimCounters(e), k, s);
    }
  }

  /**
   * The map that `updatePlayers` mutates. `serverIds` is the server list every
   * player was stubbed with.
   */
  class LegacyPlayersMap {
    var players: map<string, LegacyPlayer>
    ghost var serverIds: seq<int>

    ghost predicate Valid()
      reads this
    {
      Consistent(players, serverIds)
    }

    constructor Init(rows: seq<Stats.PlayerRow>, servers: seq<Stats.Server>)
      ensures Valid() && AllZero(players)
      ensures serverIds == Stats.ServerIds(servers)
      ensures players.Keys == set r | r in rows :: r.steamId
      ensures forall id :: id in players ==> players[id].steamId == id && players[id].servers == Stubs(servers)
      ensures forall j :: 0 <= j < |rows| && Knex.LastWithId(rows, j) ==> players[rows[j].steamId].name == rows[j].name
      ensures players == Restub(Knex.InitialMap(rows, servers), servers)
    {
      var m := InitPlayers(rows, servers);
      players := m;
      serverIds := Stats.ServerIds(servers);
    }

    /**
     * One iteration of the deaths loop or of the revives loop: the attacker's
     * (reviver's) block, then the victim's block, which reuses the index the
     * first block found unless it is 0.
     */
    method ApplyRow(e: LegacyEvent)
      requires Valid() && Resolvable(players.Keys, serverIds, e)
      modifies this
      ensures Valid() && serverIds == old(serverIds) && players.Keys == old(players).Keys
      ensures players == ApplyEvent(old(players), e)
    {
      var m, serverIndex := CreditActor(players, serverIds, e);
      UpdateSideConsistent(players, serverIds, Actor(e), e.server, ActorCounters(e));
      m := CreditVictim(m, serverIds, e, serverIndex);
      ApplyEventConsistent(players, serverIds, e);
      players := m;
    }

    /** One loop of `updatePlayers`: every row, unfiltered, in order. */
    method FoldRows(es: seq<LegacyEvent>)
      requires Valid()
      requires forall e :: e in es ==> Resolvable(players.Keys, serverIds, e)
      modifies this
      ensures Valid() && serverIds == old(serverIds) && players.Keys == old(players).Keys
      ensures players == Fold(old(players), es)
    {
      ghost var keys := players.Keys;
      var i := 0;
      while i < |es|
        invariant 0 <= i <= |es|
        invariant Valid() && serverIds == old(serverIds) && players.Keys == keys
        invariant players == Fold(old(players), es[..i])
      {
        assert es[..i + 1][..i] == es[..i];
        assert es[i] in es;
        ApplyRow(es[i]);
        i := i + 1;
      }
      assert es[..i] == es;
    }

    /** `updatePlayers`: the deaths loop, then the revives loop. */
    method UpdatePlayers(deaths: seq<LegacyEvent>, revives: seq<LegacyEvent>)
      requires Valid()
      requires forall e :: e in deaths ==> e.Death? && Resolvable(players.Keys, serverIds, e)
      requires forall e :: e in revives ==> e.Revive? && Resolvable(players.Keys, serverIds, e)
      modifies this
      ensures Valid() && serverIds == old(serverIds) && players.Keys == old(players).Keys
      ensures players == Fold(old(players), deaths + revives)
    {
      ghost var m0 := players;
      FoldRows(deaths);
      FoldRows(revives);
      FoldAppend(m0, deaths, revives);
    }
  }
}
