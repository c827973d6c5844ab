/**
 * The derived metrics of one (player, server) record, computed in the second
 * half of `updatePlayers` (src/lib/player.ts): the kill and incap ratios, the
 * kill and death efficiencies, the rating of `getPlayerServerRating`, the
 * match count and the leaderboard gate.
 *
 * Numbers are exact reals; a division the source may do by zero yields a
 * `JsNum`, so infinities and NaN stay visible. `Math.log` is a parameter `ln`
 * about which only `LogLaws` is known.
 */
module Rating {
  import opened Stats
  import opened JsNumber

  const KillFactor: real := 0.9
  const IncapFactor: real := 0.6
  const DeathFactor: real := 1.0
  const ReviveFactor: real := 1.0
  const FallFactor: real := 0.3
  const TkFactor: real := 0.5
  const ContributionThreshold: real := 4000.0

  /** What the rating relies on about the natural logarithm: log 1 = 0, log 10 > 0, and log is monotone on the positive reals. */
  ghost predicate LogLaws(ln: real -> real) {
    && ln(1.0) == 0.0
    && ln(10.0) > 0.0
    && forall x, y :: 0.0 < x <= y ==> ln(x) <= ln(y)
  }

  function RealMin(x: real, y: real): (r: real)
    ensures r <= x && r <= y && (r == x || r == y)
  {
    if x <= y then x else y
  }

  function RealMax(x: real, y: real): (r: real)
    ensures r >= x && r >= y && (r == x || r == y)
  {
    if x >= y then x else y
  }

  /** `logBase(n, base)`: the logarithm of `n` to `base`, as a quotient of natural logarithms. */
  function LogBase(n: real, base: real, ln: real -> real): (r: real)
    requires ln(base) != 0.0
    ensures r * ln(base) == ln(n)
    ensures n == base ==> r == 1.0
    ensures ln(n) == 0.0 ==> r == 0.0
  {
    ln(n) / ln(base)
  }

  /** `Math.log10(x)`. */
  function Log10(x: real, ln: real -> real): real
    requires LogLaws(ln)
  {
    LogBase(x, 10.0, ln)
  }

  /** Under `LogLaws`, log is nonnegative from 1 on and at least log 10 from 10 on, and log 4000 is positive. */
  lemma LogFacts(ln: real -> real, x: real)
    requires LogLaws(ln) && x > 0.0
    ensures x >= 1.0 ==> ln(x) >= 0.0
    ensures x >= 10.0 ==> ln(x) >= ln(10.0)
    ensures x >= ContributionThreshold ==> ln(x) >= ln(ContributionThreshold)
    ensures ln(ContributionThreshold) >= ln(10.0) > 0.0
  {
    if x >= 1.0 {
      assert ln(1.0) <= ln(x);
    }
    if x >= 10.0 {
      assert ln(10.0) <= ln(x);
    }
    if x >= ContributionThreshold {
      assert ln(ContributionThreshold) <= ln(x);
    }
    assert ln(10.0) <= ln(ContributionThreshold);
  }

  /** The argument of the falloff logarithm: `killFactor * kills + reviveFactor + revives` (a sum, not a product). */
  function FalloffArg(s: Stat): (r: real)
    ensures r >= 1.0
  {
    KillFactor * s.kills as real + ReviveFactor + s.revives as real
  }

  /** The falloff: how far the player's contribution is from the threshold, on a log scale, capped at 1. */
  function Falloff(s: Stat, ln: real -> real): (r: real)
    requires LogLaws(ln)
    ensures 0.0 <= r <= 1.0
    ensures s.kills == 0 && s.revives == 0 ==> r == 0.0
    ensures FalloffArg(s) >= ContributionThreshold ==> r == 1.0
  {
    LogFacts(ln, FalloffArg(s));
    QuotientFacts(ln(FalloffArg(s)), ln(ContributionThreshold));
    RealMin(LogBase(FalloffArg(s), ContributionThreshold, ln), 1.0)
  }

  /** The positive contributions, floored at 1. */
  function Top(s: Stat): (r: real)
    ensures r >= 1.0
    ensures r >= KillFactor * s.kills as real + IncapFactor * (s.incaps - s.kills) as real + ReviveFactor * s.revives as real
  {
    RealMax(KillFactor * s.kills as real + IncapFactor * (s.incaps - s.kills) as real + ReviveFactor * s.revives as real, 1.0)
  }

  /** The negative contributions, floored at 1. */
  function Bottom(s: Stat): (r: real)
    ensures r >= 1.0
    ensures r >= DeathFactor * (s.deaths - s.tkd) as real + FallFactor * (s.falls - (s.deaths - s.tkd)) as real + TkFactor * s.tks as real
  {
    RealMax(DeathFactor * (s.deaths - s.tkd) as real + FallFactor * (s.falls - (s.deaths - s.tkd)) as real + TkFactor * s.tks as real, 1.0)
  }

  /** `min(2, log10(top / bottom) + 1)`: 1 for an even ratio, 2 from a ratio of 10 on. */
  function ContributionFactor(top: real, bottom: real, ln: real -> real): (r: real)
    requires LogLaws(ln) && top >= 1.0 && bottom >= 1.0
    ensures r <= 2.0
    ensures top >= 10.0 * bottom ==> r == 2.0
    ensures top >= bottom ==> r >= 1.0
  {
    var ratio := top / bottom;
    QuotientFacts(top, bottom);
    assert ratio > 0.0;
    LogFacts(ln, ratio);
    QuotientFacts(ln(ratio), ln(10.0));
    RealMin(2.0, Log10(ratio, ln) + 1.0)
  }

  /** A quotient by a positive divisor is nonnegative for a nonnegative dividend and at least 1 (or 10) from the divisor (ten times it) on. */
  lemma QuotientFacts(a: real, b: real)
    requires b > 0.0
    ensures a >= 0.0 ==> a / b >= 0.0
    ensures a >= b ==> a / b >= 1.0
    ensures a >= 10.0 * b ==> a / b >= 10.0
  {
    var q := a / b;
    assert q * b == a;
    if a >= 10.0 * b {
      assert q * b >= 10.0 * b;
    }
  }

  /** A product of a factor in [0, 1] and one at most 2 is at most 2, and not positive when the second is not. */
  lemma ScaleBounds(falloff: real, cf: real)
    requires 0.0 <= falloff <= 1.0 && cf <= 2.0
    ensures falloff * cf <= 2.0
    ensures cf <= 0.0 ==> falloff * cf <= 0.0
  {
    if cf >= 0.0 {
      assert falloff * cf <= 1.0 * cf;
    }
  }

  /**
   * `getPlayerServerRating`: 0 for a player with no death left after
   * subtracting team-killed deaths, otherwise 500 times the falloff times the
   * contribution factor, clamped below at 0. It always lies in [0, 1000].
   */
  function PlayerServerRating(s: Stat, ln: real -> real): (r: real)
    requires LogLaws(ln)
    ensures 0.0 <= r <= 1000.0
    ensures s.deaths - s.tkd <= 0 ==> r == 0.0
  {
    if s.deaths - s.tkd <= 0 then 0.0
    else
      var falloff := Falloff(s, ln);
      var cf := ContributionFactor(Top(s), Bottom(s), ln);
      ScaleBounds(falloff, cf);
      var finalScore := 500.0 * falloff * cf;
      if finalScore < 0.0 then 0.0 else finalScore
  }

  /** A player with neither kills nor revives has rated nothing yet: the falloff is 0. */
  lemma RatingZeroWithoutContribution(s: Stat, ln: real -> real)
    requires LogLaws(ln) && s.kills == 0 && s.revives == 0
    ensures PlayerServerRating(s, ln) == 0.0
  {
    if s.deaths - s.tkd > 0 {
      assert Falloff(s, ln) == 0.0;
      assert 500.0 * Falloff(s, ln) * ContributionFactor(Top(s), Bottom(s), ln) == 0.0;
    }
  }

  /** Past the contribution threshold and with ten times more positive than negative contribution, the rating is the maximum, 1000. */
  lemma RatingMaximum(s: Stat, ln: real -> real)
    requires LogLaws(ln) && s.deaths - s.tkd > 0
    requires FalloffArg(s) >= ContributionThreshold && Top(s) >= 10.0 * Bottom(s)
    ensures PlayerServerRating(s, ln) == 1000.0
  {
    assert Falloff(s, ln) == 1.0;
    assert ContributionFactor(Top(s), Bottom(s), ln) == 2.0;
  }

  /** A player past the threshold whose positive contribution is at least the negative one rates at least 500. */
  lemma RatingHalfway(s: Stat, ln: real -> real)
    requires LogLaws(ln) && s.deaths - s.tkd > 0
    requires FalloffArg(s) >= ContributionThreshold && Top(s) >= Bottom(s)
    ensures PlayerServerRating(s, ln) >= 500.0
  {
    assert Falloff(s, ln) == 1.0;
    assert ContributionFactor(Top(s), Bottom(s), ln) >= 1.0;
  }

  /**
   * The `kdr`/`idr` computation as written: 0 without kills (or incaps), 1
   * when `deaths` is 0, otherwise the count divided by `deaths - tkd`, which
   * may be 0 although `deaths` is not.
   */
  function RatioAsWritten(n: nat, deaths: nat, tkd: nat): (r: JsNum)
    ensures r != NaN && r != NegInf
    ensures tkd <= deaths ==> r == PosInf || (r.Num? && r.v >= 0.0)
  {
    if n == 0 then Num(0.0)
    else if deaths == 0 then Num(1.0)
    else Div(n as real, (deaths - tkd) as real)
  }

  /** The ratio as evidently intended: the zero test is on the divisor `deaths - tkd` itself. */
  function Ratio(n: nat, deaths: nat, tkd: nat): (r: real)
    requires tkd <= deaths
    ensures n == 0 ==> r == 0.0
    ensures n > 0 && deaths == tkd ==> r == 1.0
    ensures deaths > tkd ==> r * (deaths - tkd) as real == n as real
    ensures r >= 0.0
  {
    if n == 0 then 0.0
    else if deaths - tkd == 0 then 1.0
    else n as real / (deaths - tkd) as real
  }

  /** Kill/death ratio as written. */
  function KdrAsWritten(s: Stat): (r: JsNum)
    ensures WellFormed(s) ==> (r == PosInf <==> s.kills > 0 && s.deaths > 0 && s.deaths == s.tkd)
  {
    RatioAsWritten(s.kills, s.deaths, s.tkd)
  }

  /** Incap/death ratio as written. */
  function IdrAsWritten(s: Stat): (r: JsNum)
    ensures WellFormed(s) ==> (r == PosInf <==> s.incaps > 0 && s.deaths > 0 && s.deaths == s.tkd)
  {
    RatioAsWritten(s.incaps, s.deaths, s.tkd)
  }

  /** Kill/death ratio as intended. */
  function Kdr(s: Stat): (r: real)
    requires WellFormed(s)
    ensures r >= 0.0 && (r == 0.0 <==> s.kills == 0)
    ensures s.kills > 0 && s.deaths == s.tkd ==> r == 1.0
    ensures s.deaths > s.tkd ==> r * (s.deaths - s.tkd) as real == s.kills as real
  {
    Ratio(s.kills, s.deaths, s.tkd)
  }

  /** Incap/death ratio as intended. */
  function Idr(s: Stat): (r: real)
    requires WellFormed(s)
    ensures r >= 0.0 && (r == 0.0 <==> s.incaps == 0)
    ensures s.incaps > 0 && s.deaths == s.tkd ==> r == 1.0
    ensures s.deaths > s.tkd ==> r * (s.deaths - s.tkd) as real == s.incaps as real
  {
    Ratio(s.incaps, s.deaths, s.tkd)
  }

  /**
   * On consistent records, the written ratio is finite and agrees with the
   * intended one except exactly when there are kills (or incaps) and every
   * death is a team-killed one; then it is +Infinity.
   */
  lemma RatioAsWrittenDiverges(n: nat, deaths: nat, tkd: nat)
    requires tkd <= deaths
    ensures RatioAsWritten(n, deaths, tkd) == PosInf <==> (n > 0 && deaths > 0 && deaths == tkd)
    ensures RatioAsWritten(n, deaths, tkd) != PosInf ==> RatioAsWritten(n, deaths, tkd) == Num(Ratio(n, deaths, tkd))
  {
  }

  /** One kill, two deaths, both team-killed: the written `kdr` is +Infinity where the intended one is 1. */
  lemma KdrAllTeamkilledExample()
    ensures var s := Stat(1, "server", 1, 0, 2, 2, 0, 0, 0, 0, 0, {});
      KdrAsWritten(s) == PosInf && Kdr(s) == 1.0
  {
  }

  /**
   * `Math.min(a / b, 1)` for the efficiencies: NaN exactly for `0 / 0`,
   * otherwise a number in [0, 1] (1 when `b` is 0).
   */
  lemma EfficiencyRange(a: nat, b: nat)
    ensures Min(Div(a as real, b as real), 1.0) == NaN <==> a == 0 && b == 0
    ensures !(a == 0 && b == 0) ==>
      (Min(Div(a as real, b as real), 1.0).Num? && 0.0 <= Min(Div(a as real, b as real), 1.0).v <= 1.0)
    ensures b == 0 && a > 0 ==> Min(Div(a as real, b as real), 1.0) == Num(1.0)
  {
    if b != 0 {
      assert a as real / b as real >= 0.0;
    }
  }

  /** Kill efficiency: how often an incap turned into a kill, capped at 1. */
  function KillEfficiency(s: Stat): (r: JsNum)
    ensures r == NaN <==> s.kills == 0 && s.incaps == 0
    ensures r != NaN ==> r.Num? && 0.0 <= r.v <= 1.0
  {
    EfficiencyRange(s.kills, s.incaps);
    Min(Div(s.kills as real, s.incaps as real), 1.0)
  }

  /** Death efficiency: how often a fall turned into a death (team-killed deaths excluded), capped at 1. */
  function DeathEfficiency(s: Stat): (r: JsNum)
    requires WellFormed(s)
    ensures r == NaN <==> s.deaths == s.tkd && s.falls == 0
    ensures r != NaN ==> r.Num? && 0.0 <= r.v <= 1.0
  {
    EfficiencyRange(s.deaths - s.tkd, s.falls);
    Min(Div((s.deaths - s.tkd) as real, s.falls as real), 1.0)
  }

  /** The published form of one record: the derived metrics and the number of matches. */
  datatype Derived = Derived(kdr: real, idr: real, ke: JsNum, de: JsNum, rating: real, matchCount: nat)

  /** The per-record assignments of `updatePlayers` (with the ratios as intended). */
  function Derive(s: Stat, ln: real -> real): (d: Derived)
    requires LogLaws(ln) && WellFormed(s)
    ensures d.matchCount == |s.matches|
    ensures 0.0 <= d.rating <= 1000.0 && d.kdr >= 0.0 && d.idr >= 0.0
  {
    Derived(Kdr(s), Idr(s), KillEfficiency(s), DeathEfficiency(s), PlayerServerRating(s, ln), |s.matches|)
  }

  /** `player.servers.map(...)`: the derived metrics of every record of a player, in server order. */
  method DeriveServers(servers: seq<Stat>, ln: real -> real) returns (ds: seq<Derived>)
    requires LogLaws(ln)
    requires forall k :: 0 <= k < |servers| ==> WellFormed(servers[k])
    ensures |ds| == |servers|
    ensures forall k :: 0 <= k < |servers| ==> ds[k] == Derive(servers[k], ln)
    ensures forall k :: 0 <= k < |ds| ==> 0.0 <= ds[k].rating <= 1000.0 && ds[k].matchCount == |servers[k].matches|
  {
    ds := [];
    var i := 0;
    while i < |servers|
      invariant 0 <= i <= |servers|
      invariant |ds| == i
      invariant forall k :: 0 <= k < i ==> ds[k] == Derive(servers[k], ln)
    {
      ds := ds + [Derive(servers[i], ln)];
      i := i + 1;
    }
  }

  /** The leaderboard gate: a record is published only with a truthy match count of at least `minimum`. */
  predicate Published(d: Derived, minimum: int) {
    d.matchCount != 0 && d.matchCount >= minimum
  }

  /** The gate is "at least `minimum` matches, and at least one". */
  lemma PublishedIff(d: Derived, minimum: int)
    ensures Published(d, minimum) <==> d.matchCount >= (if minimum > 1 then minimum else 1)
  {
  }
}
