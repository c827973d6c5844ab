/**
 * The per-pass data model of the aggregator: servers, player rows, the
 * per-(player, server) stat record with its counters and match-id set, and
 * the lookup of a server's record in a player's server list.
 */
module Stats {

  /** A row of the servers table: numeric id and display name. */
  datatype Server = Server(id: int, name: string)

  /** A row of the players table: steam id and last known name. */
  datatype PlayerRow = PlayerRow(steamId: string, name: string)

  /**
   * PlayerServer: the counters of one player on one server, the set of match
   * ids seen there, and the server's id and name. `damage` is stubbed but never
   * folded. The source's stub calls the incap counter `downs`; this record has
   * one counter, `incaps`, which is what the fold and the tests use.
   */
  datatype Stat = Stat(
    id: int,
    name: string,
    kills: nat,
    tks: nat,
    deaths: nat,
    tkd: nat,
    incaps: nat,
    falls: nat,
    revives: nat,
    revived: nat,
    damage: nat,
    matches: set<int>)

  /** A player as the pass holds it: its own deep copy of one record per server. */
  datatype Player = Player(steamId: string, name: string, servers: seq<Stat>)

  /** The counters an event can increment. */
  datatype Field = Kills | Tks | Deaths | Tkd | Incaps | Falls | Revives | Revived

  function Get(s: Stat, f: Field): nat {
    match f
    case Kills => s.kills
    case Tks => s.tks
    case Deaths => s.deaths
    case Tkd => s.tkd
    case Incaps => s.incaps
    case Falls => s.falls
    case Revives => s.revives
    case Revived => s.revived
  }

  function One(b: bool): nat { if b then 1 else 0 }

  /**
   * One side of one event applied to a record: each counter in `fs` goes up by
   * one and the match id joins the match set; nothing else changes.
   */
  function Bump(s: Stat, fs: set<Field>, matchId: int): (r: Stat)
    ensures forall f :: Get(r, f) == Get(s, f) + One(f in fs)
    ensures r.matches == s.matches + {matchId}
    ensures r.id == s.id && r.name == s.name && r.damage == s.damage
  {
    s.(kills := s.kills + One(Kills in fs),
       tks := s.tks + One(Tks in fs),
       deaths := s.deaths + One(Deaths in fs),
       tkd := s.tkd + One(Tkd in fs),
       incaps := s.incaps + One(Incaps in fs),
       falls := s.falls + One(Falls in fs),
       revives := s.revives + One(Revives in fs),
       revived := s.revived + One(Revived in fs),
       matches := s.matches + {matchId})
  }

  /** A record is consistent when its team-killed deaths are among its deaths. */
  predicate WellFormed(s: Stat) {
    s.tkd <= s.deaths
  }

  /** The server ids of a list of records, in list order. */
  function Ids(ss: seq<Stat>): seq<int> {
    seq(|ss|, i requires 0 <= i < |ss| => ss[i].id)
  }

  /** The ids of the servers table, in its order. */
  function ServerIds(servers: seq<Server>): seq<int> {
    seq(|servers|, i requires 0 <= i < |servers| => servers[i].id)
  }

  /** The first position of `x` in `ids`, or -1 when it is absent (`Array.prototype.findIndex`). */
  function IndexOf(ids: seq<int>, x: int): (r: int)
    ensures -1 <= r < |ids|
    ensures r == -1 <==> x !in ids
    ensures 0 <= r ==> ids[r] == x && x !in ids[..r]
  {
    if ids == [] then -1
    else if ids[0] == x then 0
    else
      var r := IndexOf(ids[1..], x);
      assert ids == [ids[0]] + ids[1..];
      if r == -1 then -1
      else
        assert ids[..r + 1] == [ids[0]] + ids[1..][..r];
        r + 1
  }

  /** `servers.findIndex(({id}) => id === server)`: a linear scan for the first record of `server`. */
  method FindIndex(ids: seq<int>, server: int) returns (r: int)
    ensures r == IndexOf(ids, server)
    ensures r == -1 <==> forall j :: 0 <= j < |ids| ==> ids[j] != server
    ensures r != -1 ==> 0 <= r < |ids| && ids[r] == server && forall j :: 0 <= j < r ==> ids[j] != server
  {
    var i := 0;
    while i < |ids|
      invariant 0 <= i <= |ids|
      invariant forall j :: 0 <= j < i ==> ids[j] != server
    {
      if ids[i] == server {
        assert server !in ids[..i];
        return i;
      }
      i := i + 1;
    }
    return -1;
  }

  /** All counters zero and no match seen: the state of a freshly stubbed record. */
  predicate Zeroed(s: Stat) {
    && (forall f :: Get(s, f) == 0)
    && s.damage == 0
    && s.matches == {}
  }

  /** The stub of one server (knex.ts `playerServerStubs`). */
  function ZeroStat(server: Server): Stat {
    Stat(server.id, server.name, 0, 0, 0, 0, 0, 0, 0, 0, 0, {})
  }

  /** One zeroed record per server, in server-list order, carrying that server's id and name. */
  function Stubs(servers: seq<Server>): (r: seq<Stat>)
    ensures |r| == |servers|
    ensures Ids(r) == ServerIds(servers)
    ensures forall i :: 0 <= i < |servers| ==> r[i].name == servers[i].name && Zeroed(r[i]) && WellFormed(r[i])
  {
    seq(|servers|, i requires 0 <= i < |servers| => ZeroStat(servers[i]))
  }
}
