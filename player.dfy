/**
 * The event folder of src/lib/player.ts: `addDeath`, `addIncap`, `addRevive`
 * and the filtering loops of `updatePlayers` that feed them.
 *
 * The specification side says what one event does to the player map
 * (`ApplyEvent`: each resolved side gets its counters bumped on its own record
 * for the event's server) and what a pass does (`Fold`). The class
 * `PlayersMap` holds the map and runs the source's procedures, including the
 * reuse of the attacker's server index for the victim; its methods are proved
 * to agree with the specification.
 */
module Player {
  import opened Optional
  import opened Stats
  import Helpers
  import Knex

  /** A row of the deaths, incaps (downs) or revives table, joined with its match's layer. */
  datatype Event =
    | Death(attacker: Option<string>, victim: Option<string>, teamkill: bool, server: int, matchId: int, layer: Option<string>)
    | Incap(attacker: Option<string>, victim: Option<string>, teamkill: bool, server: int, matchId: int, layer: Option<string>)
    | Revive(reviver: Option<string>, victim: Option<string>, server: int, matchId: int, layer: Option<string>)

  /** The acting side: the attacker of a death or incap, the reviver of a revive. */
  function Actor(e: Event): Option<string> {
    if e.Revive? then e.reviver else e.attacker
  }

  /** The counters the acting side gains. A team-killing incap gains nothing. */
  function ActorFields(e: Event): set<Field> {
    match e
    case Death(_, _, tk, _, _, _) => if tk then {Tks} else {Kills}
    case Incap(_, _, tk, _, _, _) => if tk then {} else {Incaps}
    case Revive(_, _, _, _, _) => {Revives}
  }

  /** The counters the victim gains. A team-killed death counts as a death and as a `tkd`. */
  function VictimFields(e: Event): set<Field> {
    match e
    case Death(_, _, tk, _, _, _) => if tk then {Deaths, Tkd} else {Deaths}
    case Incap(_, _, _, _, _, _) => {Falls}
    case Revive(_, _, _, _, _) => {Revived}
  }

  /** The filter of the three `updatePlayers` loops: a layer that is set and not ignored, and both sides named. */
  predicate Tracked(e: Event, ignores: seq<string>)
    ensures Tracked(e, ignores) <==>
      && Truthy(e.layer) && Truthy(Actor(e)) && Truthy(e.victim)
      && forall k :: 0 <= k < |ignores| ==> !Helpers.OccursIn(ignores[k], e.layer.value)
  {
    && Truthy(e.layer)
    && !Helpers.ShouldIgnoreLayer(e.layer.value, ignores)
    && Truthy(Actor(e))
    && Truthy(e.victim)
  }

  /** `playersMap.get(id)` finds a player. */
  predicate Resolves(keys: set<string>, a: Option<string>) {
    a.Some? && a.value in keys
  }

  /**
   * The source throws (`servers[-1]` is undefined) when a side resolves but the
   * event's server is not in the server list; callers must not pass such an event.
   */
  predicate ServerKnown(keys: set<string>, serverIds: seq<int>, e: Event)
  {
    (Resolves(keys, Actor(e)) || Resolves(keys, e.victim)) ==> e.server in serverIds
  }

  /** Under `ServerKnown`, the lookup of a side that resolves finds a real record holding the event's server. */
  lemma ServerKnownFinds(keys: set<string>, serverIds: seq<int>, e: Event)
    requires ServerKnown(keys, serverIds, e)
    requires Resolves(keys, Actor(e)) || Resolves(keys, e.victim)
    ensures 0 <= IndexOf(serverIds, e.server) < |serverIds| && serverIds[IndexOf(serverIds, e.server)] == e.server
  {
  }

  /** The server-id list of every player. */
  function Shape(m: map<string, Player>): map<string, seq<int>> {
    map id | id in m :: Ids(m[id].servers)
  }

  /** Every player lists exactly the servers `serverIds`, in that order, and every record is consistent. */
  ghost predicate Consistent(m: map<string, Player>, serverIds: seq<int>) {
    forall id :: id in m ==> Ids(m[id].servers) == serverIds && forall k :: 0 <= k < |m[id].servers| ==> WellFormed(m[id].servers[k])
  }

  /**
   * One side of an event: if `a` names a player that lists `server`, its record
   * for that server gets `fs` bumped and the match id; otherwise nothing changes.
   */
  function UpdateSide(m: map<string, Player>, a: Option<string>, server: int, fs: set<Field>, matchId: int): map<string, Player> {
    if a.Some? && a.value in m && server in Ids(m[a.value].servers) then
      var p := m[a.value];
      var k := IndexOf(Ids(p.servers), server);
      m[a.value := p.(servers := p.servers[k := Bump(p.servers[k], fs, matchId)])]
    else m
  }

  /** One event, both sides, each on its own record for the event's server. */
  function ApplyEvent(m: map<string, Player>, e: Event): map<string, Player> {
    var afterActor := UpdateSide(m, Actor(e), e.server, ActorFields(e), e.matchId);
    UpdateSide(afterActor, e.victim, e.server, VictimFields(e), e.matchId)
  }

  /** One iteration of a filtering loop: untracked events change nothing. */
  function Step(m: map<string, Player>, e: Event, ignores: seq<string>): map<string, Player> {
    if Tracked(e, ignores) then ApplyEvent(m, e) else m
  }

  /** The fold of a whole event sequence, in order. */
  function Fold(m: map<string, Player>, es: seq<Event>, ignores: seq<string>): map<string, Player> {
    if es == [] then m
    else Step(Fold(m, es[..|es| - 1], ignores), es[|es| - 1], ignores)
  }

  /** Updating one side keeps every player and its server-id list. */
  lemma UpdateSideShape(m: map<string, Player>, a: Option<string>, server: int, fs: set<Field>, matchId: int)
    ensures Shape(UpdateSide(m, a, server, fs, matchId)) == Shape(m)
  {
    if a.Some? && a.value in m && server in Ids(m[a.value].servers) {
      var p := m[a.value];
      var k := IndexOf(Ids(p.servers), server);
      assert Ids(p.servers[k := Bump(p.servers[k], fs, matchId)]) == Ids(p.servers);
    }
  }

  lemma UpdateSideConsistent(m: map<string, Player>, serverIds: seq<int>, a: Option<string>, server: int, fs: set<Field>, matchId: int)
    requires Consistent(m, serverIds)
    requires Tkd in fs ==> Deaths in fs
    ensures Consistent(UpdateSide(m, a, server, fs, matchId), serverIds)
  {
    var r := UpdateSide(m, a, server, fs, matchId);
    UpdateSideShape(m, a, server, fs, matchId);
    forall id | id in r
      ensures Ids(r[id].servers) == serverIds
    {
      assert Shape(r)[id] == Shape(m)[id];
    }
  }

  /** Folding an event keeps every player on the same server list and keeps `tkd <= deaths` on every record. */
  lemma ApplyEventConsistent(m: map<string, Player>, serverIds: seq<int>, e: Event)
    requires Consistent(m, serverIds)
    ensures Consistent(ApplyEvent(m, e), serverIds)
  {
    UpdateSideConsistent(m, serverIds, Actor(e), e.server, ActorFields(e), e.matchId);
    var m1 := UpdateSide(m, Actor(e), e.server, ActorFields(e), e.matchId);
    UpdateSideConsistent(m1, serverIds, e.victim, e.server, VictimFields(e), e.matchId);
  }

  /** Folding an event keeps every player and its server-id list. */
  lemma ApplyEventShape(m: map<string, Player>, e: Event)
    ensures Shape(ApplyEvent(m, e)) == Shape(m)
    ensures ApplyEvent(m, e).Keys == m.Keys
  {
    UpdateSideShape(m, Actor(e), e.server, ActorFields(e), e.matchId);
    var m1 := UpdateSide(m, Actor(e), e.server, ActorFields(e), e.matchId);
    UpdateSideShape(m1, e.victim, e.server, VictimFields(e), e.matchId);
    assert Shape(ApplyEvent(m, e)).Keys == ApplyEvent(m, e).Keys;
  }

  /** Folding two lists one after the other is folding their concatenation. */
  lemma {:induction false} FoldAppend(m: map<string, Player>, a: seq<Event>, b: seq<Event>, ignores: seq<string>)
    ensures Fold(m, a + b, ignores) == Fold(Fold(m, a, ignores), b, ignores)
    decreases |b|
  {
    if b == [] {
      assert a + b == a;
    } else {
      var n := |b| - 1;
      assert (a + b)[..|a + b| - 1] == a + b[..n];
      assert (a + b)[|a + b| - 1] == b[n];
      FoldAppend(m, a, b[..n], ignores);
    }
  }

  /** The record updates of `addDeath` on the attacker's side are a bump of `ActorFields(e)`. */
  lemma DeathActorRecord(s: Stat, e: Event)
    requires e.Death?
    ensures var t := s.(matches := s.matches + {e.matchId});
      (if e.teamkill then t.(tks := t.tks + 1) else t.(kills := t.kills + 1)) == Bump(s, ActorFields(e), e.matchId)
  {
  }

  /** The record updates of `addDeath` on the victim's side are a bump of `VictimFields(e)`. */
  lemma DeathVictimRecord(s: Stat, e: Event)
    requires e.Death?
    ensures var t := s.(matches := s.matches + {e.matchId});
      var u := if e.teamkill then t.(tkd := t.tkd + 1) else t;
      u.(deaths := u.deaths + 1) == Bump(s, VictimFields(e), e.matchId)
  {
  }

  /** The record updates of `addIncap` on the attacker's side are a bump of `ActorFields(e)`. */
  lemma IncapActorRecord(s: Stat, e: Event)
    requires e.Incap?
    ensures var t := s.(matches := s.matches + {e.matchId});
      (if !e.teamkill then t.(incaps := t.incaps + 1) else t) == Bump(s, ActorFields(e), e.matchId)
  {
  }

  /** The record updates of `addIncap` on the victim's side are a bump of `VictimFields(e)`. */
  lemma IncapVictimRecord(s: Stat, e: Event)
    requires e.Incap?
    ensures var t := s.(matches := s.matches + {e.matchId});
      t.(falls := t.falls + 1) == Bump(s, VictimFields(e), e.matchId)
  {
  }

  /** The record updates of `addRevive` on the reviver's side are a bump of `ActorFields(e)`. */
  lemma ReviveActorRecord(s: Stat, e: Event)
    requires e.Revive?
    ensures var t := s.(matches := s.matches + {e.matchId});
      t.(revives := t.revives + 1) == Bump(s, ActorFields(e), e.matchId)
  {
  }

  /** The record updates of `addRevive` on the victim's side are a bump of `VictimFields(e)`. */
  lemma ReviveVictimRecord(s: Stat, e: Event)
    requires e.Revive?
    ensures var t := s.(matches := s.matches + {e.matchId});
      t.(revived := t.revived + 1) == Bump(s, VictimFields(e), e.matchId)
  {
  }

  /**
   * A resolved side whose record sits at `k`: the update replaces that one
   * record by its bumped copy, and the map stays consistent.
   */
  lemma ReplaceRecord(m: map<string, Player>, serverIds: seq<int>, a: string, server: int, fs: set<Field>, matchId: int, k: int, s: Stat)
    requires Consistent(m, serverIds) && (Tkd in fs ==> Deaths in fs)
    requires a in m && 0 <= k && k == IndexOf(Ids(m[a].servers), server)
    requires s == Bump(m[a].servers[k], fs, matchId)
    ensures m[a := m[a].(servers := m[a].servers[k := s])] == UpdateSide(m, Some(a), server, fs, matchId)
    ensures Consistent(m[a := m[a].(servers := m[a].servers[k := s])], serverIds)
  {
    UpdateSideConsistent(m, serverIds, Some(a), server, fs, matchId);
  }

  /** A side that names no player in the map changes nothing. */
  lemma SkipSide(m: map<string, Player>, a: Option<string>, server: int, fs: set<Field>, matchId: int)
    requires !(a.Some? && a.value in m)
    ensures UpdateSide(m, a, server, fs, matchId) == m
  {
  }

  /**
   * The per-pass player map (`playersMap`): player id to player, each player
   * owning one stat record per server. `serverIds` is the server list every
   * player was stubbed with.
   */
  class PlayersMap {
    var players: map<string, Player>
    ghost var serverIds: seq<int>

    ghost predicate Valid()
      reads this
    {
      Consistent(players, serverIds)
    }

    /** `initPlayers(players)` against the server list `servers`. */
    constructor Init(rows: seq<PlayerRow>, servers: seq<Server>)
      ensures Valid()
      ensures serverIds == ServerIds(servers)
      ensures players == Knex.InitialMap(rows, servers)
    {
      var m := Knex.InitPlayers(rows, servers);
      players := m;
      serverIds := ServerIds(servers);
    }

    /** `addDeath(playersMap, death)`. */
    method AddDeath(e: Event)
      requires Valid() && e.Death?
      requires ServerKnown(players.Keys, serverIds, e)
      modifies this
      ensures Valid() && serverIds == old(serverIds)
      ensures players == ApplyEvent(old(players), e)
    {
      var m := players;
      ghost var m0 := m;
      var serverIndex: Option<int> := None;
      if e.attacker.Some? && e.attacker.value in m {
        var attacker := m[e.attacker.value];
        var k := FindIndex(Ids(attacker.servers), e.server);
        serverIndex := Some(k);
        var s := attacker.servers[k];
        s := s.(matches := s.matches + {e.matchId});
        if e.teamkill {
          s := s.(tks := s.tks + 1);
        } else {
          s := s.(kills := s.kills + 1);
        }
        DeathActorRecord(attacker.servers[k], e);
        m := m[e.attacker.value := attacker.(servers := attacker.servers[k := s])];
        ReplaceRecord(m0, serverIds, e.attacker.value, e.server, ActorFields(e), e.matchId, k, s);
      } else {
        SkipSide(m0, Actor(e), e.server, ActorFields(e), e.matchId);
      }
      ghost var m1 := m;
      assert Consistent(m1, serverIds) && m1 == UpdateSide(m0, Actor(e), e.server, ActorFields(e), e.matchId);
      assert serverIndex.Some? ==> serverIndex.value == IndexOf(serverIds, e.server);
      if e.victim.Some? && e.victim.value in m {
        var victim := m[e.victim.value];
        var k;
        if serverIndex == None || serverIndex == Some(0) {
          k := FindIndex(Ids(victim.servers), e.server);
        } else {
          // the attacker's index, valid for the victim because both lists have the same ids
          k := serverIndex.value;
        }
        assert k == IndexOf(Ids(victim.servers), e.server);
        var s := victim.servers[k];
        s := s.(matches := s.matches + {e.matchId});
        if e.teamkill {
          s := s.(tkd := s.tkd + 1);
        }
        s := s.(deaths := s.deaths + 1);
        DeathVictimRecord(victim.servers[k], e);
        m := m[e.victim.value := victim.(servers := victim.servers[k := s])];
        ReplaceRecord(m1, serverIds, e.victim.value, e.server, VictimFields(e), e.matchId, k, s);
      } else {
        SkipSide(m1, e.victim, e.server, VictimFields(e), e.matchId);
      }
      assert Consistent(m, serverIds) && m == UpdateSide(m1, e.victim, e.server, VictimFields(e), e.matchId);
      players := m;
    }

    /** `addIncap(playersMap, incap)`. */
    method AddIncap(e: Event)
      requires Valid() && e.Incap?
      requires ServerKnown(players.Keys, serverIds, e)
      modifies this
      ensures Valid() && serverIds == old(serverIds)
      ensures players == ApplyEvent(old(players), e)
    {
      var m := players;
      ghost var m0 := m;
      var serverIndex: Option<int> := None;
      if e.attacker.Some? && e.attacker.value in m {
        var attacker := m[e.attacker.value];
        var k := FindIndex(Ids(attacker.servers), e.server);
        serverIndex := Some(k);
        var s := attacker.servers[k];
        s := s.(matches := s.matches + {e.matchId});
        if !e.teamkill {
          s := s.(incaps := s.incaps + 1);
        }
        IncapActorRecord(attacker.servers[k], e);
        m := m[e.attacker.value := attacker.(servers := attacker.servers[k := s])];
        ReplaceRecord(m0, serverIds, e.attacker.value, e.server, ActorFields(e), e.matchId, k, s);
      } else {
        SkipSide(m0, Actor(e), e.server, ActorFields(e), e.matchId);
      }
      ghost var m1 := m;
      assert Consistent(m1, serverIds) && m1 == UpdateSide(m0, Actor(e), e.server, ActorFields(e), e.matchId);
      assert serverIndex.Some? ==> serverIndex.value == IndexOf(serverIds, e.server);
      if e.victim.Some? && e.victim.value in m {
        var victim := m[e.victim.value];
        var k;
        if serverIndex == None || serverIndex == Some(0) {
          k := FindIndex(Ids(victim.servers), e.server);
        } else {
          // the attacker's index, valid for the victim because both lists have the same ids
          k := serverIndex.value;
        }
        assert k == IndexOf(Ids(victim.servers), e.server);
        var s := victim.servers[k];
        s := s.(matches := s.matches + {e.matchId});
        s := s.(falls := s.falls + 1);
        IncapVictimRecord(victim.servers[k], e);
        m := m[e.victim.value := victim.(servers := victim.servers[k := s])];
        ReplaceRecord(m1, serverIds, e.victim.value, e.server, VictimFields(e), e.matchId, k, s);
      } else {
        SkipSide(m1, e.victim, e.server, VictimFields(e), e.matchId);
      }
      assert Consistent(m, serverIds) && m == UpdateSide(m1, e.victim, e.server, VictimFields(e), e.matchId);
      players := m;
    }

    /** `addRevive(playersMap, revive)`. */
    method AddRevive(e: Event)
      requires Valid() && e.Revive?
      requires ServerKnown(players.Keys, serverIds, e)
      modifies this
      ensures Valid() && serverIds == old(serverIds)
      ensures players == ApplyEvent(old(players), e)
    {
      var m := players;
      ghost var m0 := m;
      var serverIndex: Option<int> := None;
      if e.reviver.Some? && e.reviver.value in m {
        var reviver := m[e.reviver.value];
        var k := FindIndex(Ids(reviver.servers), e.server);
        serverIndex := Some(k);
        var s := reviver.servers[k];
        s := s.(matches := s.matches + {e.matchId});
        s := s.(revives := s.revives + 1);
        ReviveActorRecord(reviver.servers[k], e);
        m := m[e.reviver.value := reviver.(servers := reviver.servers[k := s])];
        ReplaceRecord(m0, serverIds, e.reviver.value, e.server, ActorFields(e), e.matchId, k, s);
      } else {
        SkipSide(m0, Actor(e), e.server, ActorFields(e), e.matchId);
      }
      ghost var m1 := m;
      assert Consistent(m1, serverIds) && m1 == UpdateSide(m0, Actor(e), e.server, ActorFields(e), e.matchId);
      assert serverIndex.Some? ==> serverIndex.value == IndexOf(serverIds, e.server);
      if e.victim.Some? && e.victim.value in m {
        var victim := m[e.victim.value];
        var k;
        if serverIndex == None || serverIndex == Some(0) {
          k := FindIndex(Ids(victim.servers), e.server);
        } else {
          // the attacker's index, valid for the victim because both lists have the same ids
          k := serverIndex.value;
        }
        assert k == IndexOf(Ids(victim.servers), e.server);
        var s := victim.servers[k];
        s := s.(matches := s.matches + {e.matchId});
        s := s.(revived := s.revived + 1);
        ReviveVictimRecord(victim.servers[k], e);
        m := m[e.victim.value := victim.(servers := victim.servers[k := s])];
        ReplaceRecord(m1, serverIds, e.victim.value, e.server, VictimFields(e), e.matchId, k, s);
      } else {
        SkipSide(m1, e.victim, e.server, VictimFields(e), e.matchId);
      }
      assert Consistent(m, serverIds) && m == UpdateSide(m1, e.victim, e.server, VictimFields(e), e.matchId);
      players := m;
    }

    /**
     * One filtering loop of `updatePlayers`: every event whose layer is set and
     * not ignored and whose two sides are named is folded in, the rest are
     * skipped.
     */
    method FoldEvents(es: seq<Event>, ignores: seq<string>)
      requires Valid()
      requires forall e :: e in es && Tracked(e, ignores) ==> ServerKnown(players.Keys, serverIds, e)
      modifies this
      ensures Valid() && serverIds == old(serverIds) && players.Keys == old(players).Keys
      ensures players == Fold(old(players), es, ignores)
    {
      ghost var keys := players.Keys;
      var i := 0;
      while i < |es|
        invariant 0 <= i <= |es|
        invariant Valid() && serverIds == old(serverIds) && players.Keys == keys
        invariant players == Fold(old(players), es[..i], ignores)
      {
        var e := es[i];
        i := i + 1;
        assert es[..i][..i - 1] == es[..i - 1];
        if !Truthy(e.layer) || Helpers.ShouldIgnoreLayer(e.layer.value, ignores) {
          continue;
        }
        if !Truthy(Actor(e)) || !Truthy(e.victim) {
          continue;
        }
        ApplyEventShape(players, e);
        match e {
          case Death(_, _, _, _, _, _) => AddDeath(e);
          case Incap(_, _, _, _, _, _) => AddIncap(e);
          case Revive(_, _, _, _, _) => AddRevive(e);
        }
      }
      assert es[..i] == es;
    }

    /** `updatePlayers`: the deaths, then the incaps, then the revives of a batch. */
    method UpdatePlayers(deaths: seq<Event>, incaps: seq<Event>, revives: seq<Event>, ignores: seq<string>)
      requires Valid()
      requires forall e :: e in deaths + incaps + revives && Tracked(e, ignores) ==> ServerKnown(players.Keys, serverIds, e)
      modifies this
      ensures Valid() && serverIds == old(serverIds) && players.Keys == old(players).Keys
      ensures players == Fold(old(players), deaths + incaps + revives, ignores)
    {
      ghost var m0 := players;
      FoldEvents(deaths, ignores);
      FoldEvents(incaps, ignores);
      FoldAppend(m0, deaths, incaps, ignores);
      FoldEvents(revives, ignores);
      FoldAppend(m0, deaths + incaps, revives, ignores);
    }
  }
}
