# Squad stats aggregator: a verified model of the event folder and the rating

The stats updater reads players, servers and three kinds of game events
(deaths, incaps, revives) from the database. For each player it builds one
stat record per server, folds every event into those records, derives ratios,
efficiencies and a rating, and publishes the result. This project models the
in-memory part of that process and proves its properties:

- `Stats`: the per-(player, server) record (`kills`, `tks`, `deaths`, `tkd`,
  `incaps`, `falls`, `revives`, `revived`, `damage`, the set of match ids) and
  the `findIndex` lookup of a server's record.
- `Knex`: `initPlayers`. Every player row gets its own zeroed copy of one
  stub per server.
- `Helpers`: `shouldIgnoreLayer`, with the ignore list passed in.
- `Player`: `addDeath`, `addIncap` and `addRevive`, plus the filtering loops of
  `updatePlayers`.
  - The class `PlayersMap` owns the player map and runs the procedures as
    written, including the reuse of the attacker's server index for the
    victim (`if (!serverIndex)`).
  - The functions `UpdateSide`, `ApplyEvent`, `Step` and `Fold` say what one
    event and one pass do. The methods are proved to agree with them.
- `FoldProperties`:
  - the exact effect of each event kind, and the frame (nothing else changes);
  - that filtered events change nothing;
  - that event order does not matter;
  - the counters after a whole pass.
- `Rating`: the derived-metric block of `updatePlayers` (`kdr`, `idr`, `ke`,
  `de`, `rating`, `matchCount`), `getPlayerServerRating`, `logBase` and the
  leaderboard gate.
- `Legacy`: the earlier single-file revision (index.js). It has a stub
  initialiser, an unfiltered death and revive fold with no match tracking,
  `kd`, and the per-player totals published on the leaderboards.
- `Optional` and `JsNumber`: JavaScript's absent values and the results of a
  JavaScript division (a number, ±Infinity or NaN).

The model uses these conventions:
- **Value semantics.** Players are values in a `map<string, Player>`. `initPlayers` deep-copies the stubs, so no two players share a record, and updating values is exact.
- **Ids and layers.** They are `Option<string>`. A JavaScript truthy id is `Some` of a non-empty string (`Optional.Truthy`).
- **The index-reuse invariant.** The reuse is correct only because every player lists the same server ids in the same order. `Player.Consistent` and `Legacy.Consistent` carry this invariant, together with `tkd <= deaths` on every record.
- **A missing server.** If a side resolves to a player but the event's server is not in the list, the source dereferences `servers[-1]` and throws. The fold methods therefore require the server to be known. The legacy loops in index.js throw in a second case as well: a truthy attacker, reviver or victim id that is not a key of the map makes `players.get(id)` undefined, and reading its `servers` throws (index.js:113-114, 124-128, 147-149, 153-157). `Legacy.Resolvable` therefore requires every truthy id to be a key and its server to be listed.
- **Logarithms.** `Math.log` is a parameter `ln: real -> real`. All that is assumed about it is `Rating.LogLaws`: ln 1 = 0, ln 10 > 0, and ln is monotone on the positive reals.
- **Layer matching.** `includes` compares characters exactly, so matching is case-sensitive (`Helpers.CaseSensitive`).
- **The falloff argument.** `reviveFactor` is 1, so the argument of the base-4000 logarithm is `0.9·kills + 1 + revives` (`Rating.FalloffArg`).

## Model

| member | source | states |
|---|---|---|
| Helpers.ShouldIgnoreLayer | src/util/helpers.ts:5-13 | true exactly when some ignore term occurs as a substring of the layer; false for every layer when the ignore list is empty |
| Helpers.EmptyTermIgnoresAll | src/util/helpers.ts:6-8 | an empty-string ignore term matches every layer |
| Helpers.OrderIrrelevant | src/util/helpers.ts:6-10 | the result does not depend on the order of the ignore terms |
| Helpers.CaseSensitive | src/util/helpers.ts:7 | matching is case-sensitive: a term that differs only in letter case does not match |
| Helpers.Includes | src/util/helpers.ts:7 | `layer.includes(term)` is true exactly when the term occurs in the layer at some position |
| Helpers.IncludesFrom | src/util/helpers.ts:7 | the substring scan from a position is true exactly when the term occurs at that position or later |
| Stats.IndexOf | src/lib/player.ts:270 | the first position of a server id in a list, or -1 exactly when it is absent |
| Stats.FindIndex | src/lib/player.ts:270 | the `findIndex` scan returns the first record with the server's id, or -1 when none has it |
| Stats.Bump | src/lib/player.ts:272-294 | one side of an event raises exactly the counters it names by one and adds the match id; id, name and damage are unchanged |
| Stats.Stubs | src/lib/knex.ts:165-180 | one stub per server, in server order, carrying that server's id and name, every counter zero and no matches |
| Knex.InitPlayers | src/lib/knex.ts:157-199 | every row's steam id is a key; each entry holds the stubs of every server; a later duplicate id overwrites an earlier one; all players share the server-id list |
| Knex.InitialMapKeys | src/lib/knex.ts:182-192 | the keys of the initial map are exactly the rows' steam ids |
| Knex.InitialMapValues | src/lib/knex.ts:186-191 | each entry is keyed by its own steam id and holds a copy of the stubs |
| Knex.InitialMapLastWins | src/lib/knex.ts:191 | the last row with a given steam id decides that entry's name |
| Knex.InitialMap | src/lib/knex.ts:182-192 | the map after one `playersMap.set` per row, in row order; its keys, values and last-wins rule are stated by Knex.InitialMapKeys, Knex.InitialMapValues and Knex.InitialMapLastWins |
| Knex.IncapsAfterAsWritten | src/lib/knex.ts:168 | the stub's `incaps` after `n` increments: absent (`undefined`) exactly when no increment has run |
| Knex.IncapsNeverCountAsWritten | src/lib/knex.ts:168 | with the stub as written (`downs`, no `incaps`), any number of `incaps++` leaves the counter NaN |
| Player.ApplyEventConsistent | src/lib/player.ts:264-359 | every event keeps every player on the shared server-id list and keeps `tkd <= deaths` |
| Player.ApplyEventShape | src/lib/player.ts:264-359 | every event keeps the set of players and each player's server-id list |
| Player.Tracked | src/lib/player.ts:24-33 | an event is folded exactly when its layer is present and non-empty, no ignore term occurs in it, and both sides are present |
| Player.ServerKnown | src/lib/player.ts:270-271 | what `addDeath`/`addIncap`/`addRevive` need not to throw: when a side names an existing player, the event's server is in the shared list |
| Player.ServerKnownFinds | src/lib/player.ts:270-271 | under that condition `findIndex` returns a real position holding the event's server, so `servers[serverIndex]` does not throw |
| Player.UpdateSide | src/lib/player.ts:266-294 | one `if (player)` block: bump the named counters on the record of the event's server; its frame and effect are stated by FoldProperties.UpdateSideFrame and FoldProperties.UpdateSideEffect |
| Player.ApplyEvent | src/lib/player.ts:264-359 | the body of `addDeath`/`addIncap`/`addRevive`: the acting side, then the victim; its exact effect is stated by FoldProperties.ApplyEventExact |
| Player.Step | src/lib/player.ts:24-35 | one loop iteration: a filtered event changes nothing, a kept one is applied; see FoldProperties.FoldSkipsUntracked |
| Player.Fold | src/lib/player.ts:24-70 | the loops as a fold over the events in order; its result is stated by FoldProperties.FoldEffect and FoldProperties.FoldPermutation |
| Player.FoldAppend | src/lib/player.ts:24-70 | folding two event lists one after the other equals folding their concatenation |
| Player.PlayersMap.Init | src/lib/knex.ts:157-199 | the map starts as the initial map of the rows, consistent with the server list |
| Player.PlayersMap.AddDeath | src/lib/player.ts:264-296 | `addDeath` with its index reuse leaves the map equal to `ApplyEvent` of the death, and keeps the invariant |
| Player.PlayersMap.AddIncap | src/lib/player.ts:304-329 | `addIncap` leaves the map equal to `ApplyEvent` of the incap, and keeps the invariant |
| Player.PlayersMap.AddRevive | src/lib/player.ts:337-359 | `addRevive` leaves the map equal to `ApplyEvent` of the revive, and keeps the invariant |
| Player.PlayersMap.FoldEvents | src/lib/player.ts:24-70 | a filtering loop leaves the map equal to the fold of its events (untracked ones skipped), with the same players |
| Player.PlayersMap.UpdatePlayers | src/lib/player.ts:18-70 | deaths, then incaps, then revives: the map becomes the fold of their concatenation |
| FoldProperties.ApplyEventFrame | src/lib/player.ts:264-359 | an event keeps every player's id, name and number of records and leaves every player it does not name unchanged |
| FoldProperties.ApplyEventEffect | src/lib/player.ts:264-359 | on one record, each counter gains one for each side that lands there and gains that counter; the match id is added exactly when a side lands there |
| FoldProperties.HitShared | src/lib/player.ts:284-286 | under the shared server list, a side lands on record k of a player exactly when it names that player and k is the index of the event's server |
| FoldProperties.ApplyEventExact | src/lib/player.ts:264-359 | the exact effect of an event on a consistent map: counter deltas, match ids and frame, on the record of the event's server |
| FoldProperties.NonTeamkillDeath | src/lib/player.ts:264-295 | a non-teamkill death adds 1 to the attacker's `kills` and 1 to the victim's `deaths`, and changes nothing else |
| FoldProperties.TeamkillDeath | src/lib/player.ts:274-294 | a teamkill adds 1 to the attacker's `tks` (not `kills`) and 1 to the victim's `deaths` and `tkd`; `tkd <= deaths` still holds |
| FoldProperties.IncapEffect | src/lib/player.ts:304-328 | an incap adds 1 to the attacker's `incaps` unless it is a teamkill, and 1 to the victim's `falls` |
| FoldProperties.ReviveEffect | src/lib/player.ts:337-358 | a revive adds 1 to the reviver's `revives` and 1 to the victim's `revived` |
| FoldProperties.UnresolvedSideSkipped | src/lib/player.ts:267-288 | a side whose id is not in the map is skipped and the other side is still updated |
| FoldProperties.Kept | src/lib/player.ts:24-70 | the events a pass folds: an event is kept exactly when it is in the input and passes the filter, and each kept event is kept as often as it occurs |
| FoldProperties.KeptAppend | src/lib/player.ts:24-70 | the filter keeps the input order: filtering a concatenation is the concatenation of the filtered parts |
| FoldProperties.FoldSkipsUntracked | src/lib/player.ts:24-70 | an event with an empty or ignored layer, or without both sides, changes nothing: the pass equals the pass over the kept events |
| FoldProperties.FoldShape | src/lib/player.ts:24-70 | a pass keeps the players and their server-id lists |
| FoldProperties.BumpCommute | src/lib/player.ts:272-294 | two bumps of a record commute |
| FoldProperties.UpdateSideCommute | src/lib/player.ts:264-359 | two side updates commute |
| FoldProperties.ApplyEventCommute | src/lib/player.ts:264-359 | two events applied in either order give the same map |
| FoldProperties.StepCommute | src/lib/player.ts:24-70 | two loop iterations applied in either order give the same map |
| FoldProperties.FoldMoveToEnd | src/lib/player.ts:24-70 | an event anywhere in the list has the same effect as that event folded last |
| FoldProperties.FoldPermutation | src/lib/player.ts:24-70 | any rearrangement of the same events folds to the same map |
| FoldProperties.FoldEffect | src/lib/player.ts:24-70 | after a pass, every counter is its start value plus what the kept events contribute, and every match set gains exactly their match ids |
| FoldProperties.StubCountsFromZero | src/lib/knex.ts:165-192 | from fresh stubs (with `incaps` starting at 0), every counter after a pass is its events' count, and the match count is the number of distinct match ids |
| Rating.LogBase | src/lib/player.ts:254-256 | `logBase(n, b)` times ln b is ln n; it is 1 at n = b and 0 where ln n = 0 |
| Rating.LogFacts | src/lib/player.ts:228-247 | under the log laws, log is nonnegative from 1 on, at least log 10 from 10 on, and log 4000 >= log 10 > 0 |
| Rating.FalloffArg | src/lib/player.ts:228 | the falloff argument `0.9·kills + 1 + revives` is at least 1 |
| Rating.Falloff | src/lib/player.ts:228 | the falloff lies in [0, 1]; it is 0 without kills and revives, and 1 once the argument reaches the threshold 4000 |
| Rating.Top | src/lib/player.ts:235 | `top` is at least 1 and at least the weighted positive contributions |
| Rating.Bottom | src/lib/player.ts:242 | `bottom` is at least 1 and at least the weighted negative contributions |
| Rating.ContributionFactor | src/lib/player.ts:247 | the contribution factor is at most 2; it is exactly 2 when top >= 10·bottom, and at least 1 when top >= bottom |
| Rating.PlayerServerRating | src/lib/player.ts:196-252 | the rating lies in [0, 1000] and is 0 when `deaths - tkd <= 0` |
| Rating.RatingZeroWithoutContribution | src/lib/player.ts:228-251 | a player with no kills and no revives rates 0 |
| Rating.RatingMaximum | src/lib/player.ts:228-251 | past the threshold, with top >= 10·bottom, the rating is exactly 1000 |
| Rating.RatingHalfway | src/lib/player.ts:228-251 | past the threshold, with top >= bottom, the rating is at least 500 |
| Rating.Ratio | src/lib/player.ts:84-106 | `kdr`/`idr` as intended: 0 without kills (incaps), 1 when no deaths remain after team-killed ones, otherwise the count per such death |
| Rating.RatioAsWritten | src/lib/player.ts:84-106 | the ratio as written is never NaN or -Infinity; with `tkd <= deaths` it is +Infinity or a nonnegative number |
| Rating.KdrAsWritten | src/lib/player.ts:84-94 | the written `kdr` is +Infinity exactly when there are kills, deaths, and every death is team-killed |
| Rating.IdrAsWritten | src/lib/player.ts:96-106 | the written `idr` is +Infinity exactly when there are incaps, deaths, and every death is team-killed |
| Rating.Kdr | src/lib/player.ts:84-94 | the intended `kdr` is 0 exactly without kills, 1 with kills and no deaths left after team-killed ones, otherwise kills per such death |
| Rating.Idr | src/lib/player.ts:96-106 | the intended `idr` is 0 exactly without incaps, 1 with incaps and no deaths left after team-killed ones, otherwise incaps per such death |
| Rating.RatioAsWrittenDiverges | src/lib/player.ts:88-104 | the ratio as written is +Infinity exactly when there are kills and every death is team-killed; otherwise it equals the intended ratio |
| Rating.KdrAllTeamkilledExample | src/lib/player.ts:88-92 | one kill and two team-killed deaths: the written `kdr` is +Infinity, the intended one is 1 |
| Rating.EfficiencyRange | src/lib/player.ts:109-112 | `Math.min(a / b, 1)` is NaN exactly for 0/0, 1 for a > 0 and b = 0, and otherwise in [0, 1] |
| Rating.KillEfficiency | src/lib/player.ts:109 | `ke` is NaN exactly when there are no kills and no incaps, otherwise a number in [0, 1] |
| Rating.DeathEfficiency | src/lib/player.ts:112 | `de` is NaN exactly when no deaths remain after team-killed ones and there are no falls, otherwise a number in [0, 1] |
| Rating.Derive | src/lib/player.ts:83-121 | the derived record: `matchCount` is the number of distinct match ids, the rating is in [0, 1000], the ratios are nonnegative |
| Rating.DeriveServers | src/lib/player.ts:83-122 | the loop over a player's records derives each one, in order, with each rating in [0, 1000] |
| Rating.PublishedIff | src/lib/player.ts:127-130 | a record reaches the leaderboards exactly when its match count is at least the minimum and at least 1 |
| Rating.Published | src/lib/player.ts:128-130 | the leaderboard test `matchCount && matchCount >= minimum`; Rating.PublishedIff states it as one threshold |
| Legacy.Bump | index.js:116-159 | one side raises exactly the counters it names by one; id and name unchanged |
| Legacy.Stubs | index.js:42-44 | one zeroed stub per server, in server order, with that server's id and name |
| Legacy.Resolvable | index.js:113-157 | what the loop body needs not to throw: every present id is a key of the map, and when some side is present the event's server is in the shared list |
| Legacy.ResolvableFinds | index.js:114-128 | under that condition `findIndex` returns a real position holding the event's server, so `servers[serverIndex]` does not throw |
| Legacy.UpdateSide | index.js:112-159 | one `if (death.attacker)` / `if (death.victim)` block on the event's server record; its effect is stated by Legacy.UpdateSideGet and Legacy.UpdateSideTotal |
| Legacy.ApplyEvent | index.js:107-161 | one iteration of either loop; its effect is stated by Legacy.ApplyEventGet and Legacy.ApplyEventTotal |
| Legacy.Fold | index.js:107-161 | both loops as a fold over the rows in order; its result is stated by Legacy.FoldRecord and Legacy.FoldTotal |
| Legacy.Total | index.js:195-205 | `servers.reduce((acc, curr) => acc + curr.<counter>, 0)`; stated by Legacy.TotalReplace and Legacy.TotalZero |
| Legacy.ScoresOf | index.js:195-205 | the three leaderboard scores (kills, deaths, revives) of a player; stated by Legacy.PassScores |
| Legacy.Kd | index.js:178-189 | `kd` is 0 exactly without kills, 1 with kills and no deaths, otherwise kills per death (at least 1 exactly when kills >= deaths) |
| Legacy.TotalReplace | index.js:195-205 | replacing one record changes a `reduce` total by the difference of that record's counter |
| Legacy.TotalZero | index.js:195-205 | records whose counter is zero total zero |
| Legacy.UpdateSideConsistent | index.js:112-159 | a side update keeps the players, the shared server list and `tkd <= deaths` |
| Legacy.ApplyEventConsistent | index.js:107-161 | a death or revive keeps the players, the shared server list and `tkd <= deaths` |
| Legacy.FoldConsistent | index.js:107-161 | both loops together keep the players, the shared server list and `tkd <= deaths` on every record |
| Legacy.UpdateSideGet | index.js:112-159 | a present side adds one to each counter it names, on the record of the event's server only; an absent side adds nothing |
| Legacy.UpdateSideTotal | index.js:112-159 | a present side adds one to the player's total of each counter it names |
| Legacy.ApplyEventGet | index.js:107-161 | a death credits the attacker's `tks` (teamkill) or `kills`, the victim's `deaths` and, for a teamkill, `tkd`; a revive credits `revives` and `revived`; only on the event's server, and only for present sides |
| Legacy.ApplyEventTotal | index.js:107-161 | one event adds its credit to the player's totals |
| Legacy.FoldTotal | index.js:195-205 | after the loops, each total is its start value plus the tally of all events |
| Legacy.IndexOfInjective | index.js:114 | two listed servers share a record position only if they are the same server |
| Legacy.FoldRecord | index.js:107-161 | after the loops, each record is its start value plus the tally of its own server's events |
| Legacy.PassScores | index.js:195-205 | from fresh stubs, the published kill, death and revive totals are the numbers of credited kills, deaths suffered and revives given |
| Legacy.PassRecord | index.js:107-161 | from fresh stubs, each record counts exactly its own server's events |
| Legacy.InitPlayers | index.js:25-54 | each named player gets its own zeroed copy of every server stub, keyed by steam id (a later duplicate overwrites), on the shared server list |
| Legacy.LegacyPlayersMap.Init | index.js:25-54 | the map is the one `InitPlayers` builds: the rows' steam ids as keys, each player with its own id, the name of the last row with that id and zeroed stubs of every server, on the shared server list |
| Legacy.FoldAppend | index.js:107-161 | running the deaths and then the revives is the same as folding their concatenation |
| Legacy.ReplaceRecord | index.js:117-159 | writing back the bumped record of a resolved side, at the index of the event's server, is exactly the side update |
| Legacy.CreditActor | index.js:112-121 | the attacker or reviver is credited as the side update says; the server index is found exactly when that side is present, and is then the position of the event's server |
| Legacy.CreditVictim | index.js:123-135 | the victim is credited on the event's own server even when the attacker's index is reused or the falsy index 0 triggers a fresh lookup |
| Legacy.LegacyPlayersMap.ApplyRow | index.js:107-161 | one loop iteration leaves the map equal to `ApplyEvent` of the row, with the same players and the invariant kept |
| Legacy.LegacyPlayersMap.FoldRows | index.js:107-161 | one loop over rows leaves the map equal to the fold of those rows |
| Legacy.LegacyPlayersMap.UpdatePlayers | index.js:101-161 | all deaths, then all revives: the map becomes the fold of their concatenation, with the same players and the invariant kept |

## Left out

- Database queries (`getServers`, `getDeaths`, `getDowns`, `getRevives`, the player query and its `whereNotNull` filter) are not modelled. Their results are parameters: the server list, the player rows and the event lists.
- Redis publication is not modelled: pipelines, `hset`/`zadd`, `lastUpdate`, the `updating` flag, JSON serialisation, batching with `chunk`, `Promise.all`, `setInterval`, timing and logging.
- Configuration is passed in: `LAYERS_TO_IGNORE` as `ignores` and `MATCHES_MINIMUM` as `minimum`. Parsing the environment is not modelled.
- Floating point is not modelled. Arithmetic is on exact reals, and `toFixed`/`parseFloat` rounding is left out: `kdr`/`idr` are rounded to one decimal and `kd` to two. `Math.log` is an abstract function with the stated laws, so concrete ratings (such as a specific test value) are out of reach.
- Aliasing and in-place mutation are not modelled. Records are values, which is exact because `cloneDeep` gives each player its own records; no two players share one.
- `damage` is stubbed and never folded. The model carries it unchanged.
- `delete server.matches` is not modelled. The derived record keeps `matchCount` instead of the match set.
- Player.PlayersMap.FoldEvents: the source has one loop per event kind. The model has one loop that dispatches on the kind, and `UpdatePlayers` calls it three times in the source's order.
- Rating.Derive: `kdr`/`idr` use the corrected ratio (see Findings), not the ratio as written. The as-written ratio is `Rating.RatioAsWritten`. Its contract states bounds, not the rating's value, which depends on the unspecified logarithm.
- Rating.LogBase: requires ln(base) ≠ 0. The only call uses base 4000.
- Rating.PlayerServerRating: states the bounds and, with the lemmas beside it, the zero, maximum and halfway cases, not the value. The value depends on the unspecified logarithm.
- Rating.Kdr: the one-decimal rounding (`toFixed(1)`, src/lib/player.ts:92) is not modelled. With it, 1 kill and 21 deaths give `kdr` 0 although there is a kill, so "0 exactly without kills" holds only without the rounding.
- Rating.Idr: the same one-decimal rounding (src/lib/player.ts:104) is not modelled, with the same consequence for "0 exactly without incaps".
- Legacy.Kd: states kills per death exactly. The two-decimal rounding (`toFixed(2)`, index.js:186) is not modelled, and `kd` is a function of the record rather than a stored field. Two of its clauses hold only without the rounding: `kd` is 0 exactly without kills, and at least 1 exactly when kills >= deaths. With the rounding, kills 1 and deaths 201 give `kd` 0 although there is a kill, and a ratio such as 0.996 rounds up to 1.
- The typings file src/typings/players.d.ts is stale; the model uses the fields the code reads.

## Findings

| source | as written | input that shows it | evidently intended | confidence | as-written member | corrected member |
|---|---|---|---|---|---|---|
| src/lib/player.ts:88-104 | `kdr`/`idr` test `deaths === 0` but divide by `deaths - tkd` | kills 1, deaths 2, tkd 2: `kdr` = 1 / 0 = Infinity | test the divisor: with kills and no deaths left after team-killed ones, the ratio is 1 | high (not executed) | Rating.KdrAllTeamkilledExample | Rating.Ratio |
| src/lib/knex.ts:168 | the stub names the incap counter `downs`, but `addIncap` increments `incaps` (src/lib/player.ts:315) | one non-teamkill incap on a fresh stub: `incaps` = `undefined + 1` = NaN. Even with no incap events, `incaps` stays `undefined`, so `ke` (src/lib/player.ts:109) is always NaN, `idr` is 1 (no deaths) or NaN, and `top` (src/lib/player.ts:235), and with it `rating`, is NaN for every record with `deaths - tkd > 0` | the stub starts `incaps` at 0, so it counts incaps | high (not executed) | Knex.IncapsNeverCountAsWritten | FoldProperties.StubCountsFromZero |
