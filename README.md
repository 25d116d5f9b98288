# steam-analytics: the sync-and-notify pipeline in Dafny

This project models the core of the steam-analytics server:

- **Reconciler.** It ranks the owned games by playtime and applies the `STEAM_MAX_GAMES` ceiling. It then walks the selected games one at a time. For each game it:
  - upserts the game row;
  - fetches the game's achievements;
  - records the game's achievement total;
  - inserts every unlocked achievement through the idempotent insert.

  Along the way it counts, and keeps three bounded samples: failing app ids (20), per-app insert counts (10) and new events (`MAX_NEW_EVENTS_RETURNED`).
- **Persistence primitives** the reconciler writes through:
  - insert-or-ignore on the triple user/app/key;
  - the last-writer-wins upserts of games and achievement totals;
  - the insert-or-return-existing registration of webhook targets.
- **Notifier.** It POSTs one payload to every registered target and builds one report entry per target, in target order.
- **Poll cycle and debug handlers:** `runPollOnce`, the background poller, `/debug/steam/poll-once`, `/debug/seed` and the owned-games summary, plus the `envNumber` and `envBool` helpers.
- **Response validation** of `getPlayerAchievements`.
- **Dashboard post-processing:** parameter clamps, the Monday-first weekday table, the empty best streak and the summary defaults.

The modules are laid out as the program is.

| File | Module | Models |
|---|---|---|
| `wrappers.dfy` | `Wrappers` | `Option` and `Result` |
| `jstext.dfy` | `JsText` | the subset of JavaScript `trim`, `Number()` and `toLowerCase` the helpers rely on |
| `config.dfy` | `Config` | `envNumber` and `envBool` over an environment map |
| `steam_client.dfy` | `SteamClient` | provider records and the validation in `getPlayerAchievements` |
| `event_store.dfy` | `EventStore` | the three tables as pure functions, and the class `Store` holding them |
| `webhook_registry.dfy` | `WebhookRegistry` | `webhook_targets`: `addWebhookTarget` and `listWebhookTargets`, with the class `TargetTable` |
| `ranking.dfy` | `Ranking` | the stable playtime sort and the ceiling |
| `reconciler.dfy` | `Reconciler` | the sync as a pure fold (`Run` / `GameStep` / `InnerRun`), and the imperative methods proved to end where the fold ends |
| `reconciler_props.dfy` | `ReconcilerProps` | what a run guarantees: counters, samples, failures, tables, events and idempotence |
| `notifier.dfy` | `Notifier` | `sendAchievementWebhooks` |
| `poller.dfy` | `Poller` | the poll cycle, the poller, the two debug handlers and the owned-games summary |
| `dashboard.dfy` | `Dashboard` | the TypeScript post-processing of the dashboard queries |

External inputs are parameters:

- The environment is a `map<string, string>`.
- The owned-games request is a `Result` of a game list.
- Each game's achievements request is an `HttpResponse`, looked up by app id. A missing entry is a failed request.
- The clock is one integer in epoch milliseconds.
- The network for the webhooks is a function `net(k, j)`: how the request of the `k`-th fan-out of a cycle to its `j`-th target settled.
- The store is a `Store` object that the imperative methods update in place.
- The webhook targets are a `TargetTable` object. Every fan-out reads them through `listWebhookTargets`. The poller's input for each cycle lists the urls that `POST /webhooks` registered since the previous cycle; they are applied through `addWebhookTarget` before the cycle runs.
- Each class method is proved to leave exactly the state that the pure function beside it computes.

Two consequences of where the code places its `try`:

- **Failing insert.** A failing insert ends its game. The insert sits inside the per-game `try` (src/steam/sync.js:39-80), so anything thrown in the inner loop skips the game's remaining achievements and counts the game as an API failure. The model does this for the one error it can raise there: an unlock time that `toISOString` cannot format.
- **Failing `upsertGame`.** `upsertGame` is outside that `try` (src/steam/sync.js:34-38), so a failure there would end the whole run. Database failures are not modelled; see below.

## Model

| member | source | states |
|---|---|---|
| JsText.RoundToDouble | src/index.ts:38 | a magnitude up to 2^53 is kept exactly; any magnitude is rounded to a multiple of the spacing of the doubles around it, at most half a spacing away, and on a tie to the even multiple (round to nearest, ties to even) |
| JsText.FirstGap | src/index.ts:38 | 2^53 + 1 is not a double and rounds down to 2^53, as `Number("9007199254740993")` does; the tie 2^53 + 3 rounds up to the even 2^53 + 4 |
| JsText.ToNumber | src/index.ts:38 | a blank string is 0; a decimal run is its value, rounded to a double, or Infinity from 2^1024 - 2^970 on |
| JsText.PlainDigits | src/index.ts:38 | `Number()` of decimal digits is their value rounded to a double, or Infinity when too large |
| JsText.ToNumberRoundTrip | src/index.ts:38 | `Number()` of the decimal spelling of a natural number up to 2^53 gives that number back |
| JsText.NegatedDigits | src/index.ts:38 | `Number()` of a minus sign followed by digits is the negated, rounded value of the digits, or -Infinity when too large |
| JsText.PrefixedLiteral | src/index.ts:38 | `Number()` of an unsigned `0b`, `0o` or `0x` literal is the value of its digits in that radix, rounded or infinite like a decimal |
| JsText.WordIsNaN | src/index.ts:38-39 | `Number()` of a word starting with a lower-case letter is `NaN` |
| Config.EnvNumber | src/index.ts:36-40 | the fallback when the variable is unset or empty; otherwise the converted value if it is finite, else the fallback |
| Config.EnvNumberReadsDecimal | src/index.ts:36-40 | a variable holding the decimal spelling of a natural number `n` up to 2^53 reads as `n` |
| Config.EnvNumberReadsNegative | src/index.ts:36-40 | a variable holding `-` followed by digits worth at most 2^53 reads as the negated value of the digits |
| Config.EnvNumberRounds | src/index.ts:36-40 | a larger decimal value below the overflow threshold reads as a double: a multiple of the spacing, within half a spacing of the value, and the even multiple on a tie |
| Config.EnvNumberOverflowFallsBack | src/index.ts:36-40 | a decimal value of 2^1024 - 2^970 or more, with or without a minus sign, is infinite, so it reads as the fallback |
| Config.EnvNumberReadsPrefixed | src/index.ts:36-40 | a `0b`, `0o` or `0x` literal worth at most 2^53 reads as its value |
| Config.EnvNumberBlankIsZero | src/index.ts:38-39 | a set, non-empty, whitespace-only value reads as 0, not as the fallback |
| Config.EnvNumberGarbageFallsBack | src/index.ts:39 | a value that is not a number reads as the fallback |
| Config.EnvBool | src/index.ts:42-46 | the fallback exactly when unset; otherwise true iff the value is "1", or "true" or "yes" ignoring case |
| Config.EnvBoolEmptyIsFalse | src/index.ts:44-45 | "", "0" and "false" read as false whatever the fallback |
| Config.EnvBoolIgnoresCase | src/index.ts:45 | "TRUE", "True", "YES" and "Yes" read as true |
| Config.EnvBoolTrueLengths | src/index.ts:45 | a set value that reads as true is 1, 3 or 4 characters long |
| SteamClient.ParsePlayerAchievements | src/steam/client.ts:36-51 | each of these is an error: non-ok status, undecodable body, missing `playerstats`, truthy `error`; success holds exactly when none of them occurs; on success `steamID`/`gameName` are passed through (missing is null) and missing `achievements` is `[]` |
| SteamClient.ParseResponseForRoundTrip | src/steam/client.ts:47-51 | validating a well-formed response gives back exactly the record it carries |
| SteamClient.EmptyErrorIsAccepted | src/steam/client.ts:45 | an empty `error` string is falsy and does not reject the response |
| EventStore.InsertEventIfNew | src/repositories/achievements.js:2-19 | true iff the triple had no row; afterwards the triple has a row; a new row holds the event's name (missing is null) and time; existing rows are unchanged; the other tables are untouched |
| EventStore.InsertTwice | src/repositories/achievements.js:8 | the same triple twice gives true then false, and exactly one row holding the first call's values |
| EventStore.UpsertGame | src/repositories/games.js:5-15 | the row for the app id becomes the given one, whether or not it existed; other games and the other tables are unchanged |
| EventStore.UpsertGameLastWriterWins | src/repositories/games.js:9-13 | after two upserts of one game, its name and playtime are the second's; repeating an upsert leaves name and playtime as they are |
| EventStore.UpsertTotal | src/repositories/gameTotals.ts:6-21 | the total for the app id becomes the given one; other totals and the other tables are unchanged |
| EventStore.UpsertTotalLastWriterWins | src/repositories/gameTotals.ts:14-17 | after two upserts of one total, the total is the second's; repeating an upsert leaves the total as it is |
| EventStore.Store.InsertAchievementEvent | src/repositories/achievements.js:2-19 | the store's new state and the returned flag are those of `InsertEventIfNew` |
| EventStore.Store.UpsertGameRow | src/repositories/games.js:5-15 | the store's new state is that of `UpsertGame` |
| EventStore.Store.UpsertGameAchievementTotal | src/repositories/gameTotals.ts:6-21 | the store's new state is that of `UpsertTotal` |
| WebhookRegistry.FindByUrl | src/repositories/webhooks.js:15-16 | finds a row with the url iff one exists |
| WebhookRegistry.AddTarget | src/repositories/webhooks.js:6-19 | a new url is appended with the next id and returned; a registered url leaves the rows unchanged and returns its existing row; every call advances the id sequence; the table constraints are preserved |
| WebhookRegistry.AddTwiceSameRow | src/repositories/webhooks.js:6-19 | registering a url twice returns the same row (hence id) both times and adds one row at most |
| WebhookRegistry.DuplicateConsumesId | src/repositories/webhooks.js:8-10 | registering "a", "a", "b" on an empty table gives "a" id 1 twice and "b" id 3: the conflicting insert used up id 2 |
| WebhookRegistry.FindLast | src/repositories/webhooks.js:14-16 | a lookup after appending a new url finds the appended row |
| WebhookRegistry.AddAllKeepsValid | src/repositories/webhooks.js:10 | after any sequence of registrations urls are unique, ids increasing and below the sequence, with at most one row added per call |
| WebhookRegistry.ListTargets | src/repositories/webhookTargets.ts:11-16 | one `(id, url)` per row, in order |
| WebhookRegistry.ListTargetsOrderedById | src/repositories/webhookTargets.ts:13 | on a valid table the listing is strictly ordered by id |
| WebhookRegistry.TargetTable.AddWebhookTarget | src/repositories/webhooks.js:6-19 | the table's new state and the returned row are those of `AddTarget`, and the constraints hold |
| WebhookRegistry.TargetTable.ListWebhookTargets | src/repositories/webhookTargets.ts:11-16 | returns `ListTargets` of the rows, strictly ordered by id |
| Ranking.InsertByPlaytime | src/steam/sync.js:22 | one insertion step of the sort: length plus one, a permutation, sortedness kept |
| Ranking.InsertStable | src/steam/sync.js:22 | the inserted game goes in front of every game of equal playtime |
| Ranking.Ranked | src/steam/sync.js:22 | the sort result is a permutation of the owned list, ordered by playtime (missing is 0), descending |
| Ranking.RankedStable | src/steam/sync.js:22 | games of equal playtime keep their input order |
| Ranking.Select | src/steam/sync.js:23 | with a ceiling of 0 or less, all games; otherwise the first `min(ceiling, n)` of them |
| Ranking.SelectionIsTop | src/steam/sync.js:22-23 | no game left out by the ceiling has more playtime than a selected one |
| Reconciler.AchievedAt | src/steam/sync.js:48-50 | `unlocktime * 1000` when `unlocktime` is truthy, else the clock; no value (a throw) when that time cannot be formatted |
| Reconciler.Unlocked | src/steam/sync.js:45 | exactly the achievements with `achieved == 1` |
| Reconciler.SyncSteamAchievements | src/steam/sync.js:15-93 | a failed run returns its error and leaves the store unchanged; otherwise the returned summary and the new store are those of `SyncSpec` |
| Reconciler.SyncSelected | src/steam/sync.js:25-81 | the counters, samples and store after the loop over the selected games are those of the fold `Run` from an empty run state |
| Reconciler.SyncGame | src/steam/sync.js:32-80 | one pass of the outer loop ends in the state `GameStep` computes |
| Reconciler.InsertUnlocked | src/steam/sync.js:47-67 | the inner loop over a game's unlocked achievements ends in the state `InnerRun` computes |
| Reconciler.RunUnfold | src/steam/sync.js:32 | the fold over the remaining games is one game step followed by the fold over the rest |
| ReconcilerProps.RunSamples | src/steam/sync.js:59-79 | every game is counted; the failure sample is the first ≤20 failures; the event sample is the first `min(n, max(0, cap))` inserted events; the per-app sample is the first ≤10 games that inserted, each with `inserted > 0` |
| ReconcilerProps.RunFailures | src/steam/sync.js:75-79 | whatever the store holds, the run appends `FailedIds` to the failure list: in processing order, the games whose request fails or one of whose unlock times cannot be formatted. Each game's entry depends only on that game's own response |
| ReconcilerProps.RunTables | src/steam/sync.js:34-44 | after the run, the games table is every selected game upserted in order, and the totals table is every successful game's total set in order |
| ReconcilerProps.GamesAfterKeys | src/steam/sync.js:32-38 | after the run, exactly the old ids and the selected ids have a game row, whether or not a game's fetch fails |
| ReconcilerProps.GamesAfterLast | src/repositories/games.js:9-13 | the row for a selected id is that of the last selected game with that id |
| ReconcilerProps.GamesAfterOther | src/repositories/games.js:9 | rows of ids that were not selected are unchanged |
| ReconcilerProps.TotalsAfterRows | src/steam/sync.js:41-44 | each successfully fetched game's total is its number of achievements, locked ones included; ids with no successful fetch keep their total; no other id gains one |
| ReconcilerProps.TotalsAfterKeeps | src/repositories/gameTotals.ts:14 | an id every one of whose fetches fails keeps its total |
| ReconcilerProps.RunEvents | src/steam/sync.js:47-66 | the inserted events each were new, are stored as given, come from an unlocked achievement of a successful game (key and name = `apiname`), and have distinct keys; every new row is one of them; old rows are unchanged |
| ReconcilerProps.RunKeys | src/steam/sync.js:47-59 | the event keys after a run are the old keys plus the keys the run attempted, which do not depend on the store |
| ReconcilerProps.RunNothingNew | src/repositories/achievements.js:8 | a run whose attempted keys are all already stored inserts nothing |
| ReconcilerProps.AttemptedClock | src/steam/sync.js:48-50 | the attempted keys do not depend on the clock reading, as long as both readings can be formatted or neither can |
| ReconcilerProps.SyncFailures | src/steam/sync.js:16-21 | a run fails exactly when `STEAM_STEAMID64` is missing or empty (checked first) or the owned-games request fails |
| ReconcilerProps.SyncCountFacts | src/steam/sync.js:19-33 | `maxGames` is the parsed ceiling; `gamesConsidered` is the owned count; `effectiveMaxGames` and `gamesProcessed` equal the selection length, which is all games or the first `maxGames` |
| ReconcilerProps.SyncSampleFacts | src/steam/sync.js:59-79 | `apiFailures` counts the failing games; `failedAppIdsSample` is their first ≤20; the per-app sample has ≤10 entries, each with `inserted > 0`; the event sample has length `min(newUnlocksInserted, max(0, cap))` |
| ReconcilerProps.SyncEventsFacts | src/steam/sync.js:45-66 | `newUnlocksInserted` counts the inserts that returned true, whose prefix is the event sample; they are exactly the new rows, built from the provider's unlocked achievements; old rows are kept |
| ReconcilerProps.SyncTablesFacts | src/steam/sync.js:32-59 | the games, totals and event keys after a successful run, as functions of the old tables and the provider data |
| ReconcilerProps.SyncTwiceInsertsNothing | src/steam/sync.js:59-62 | running again against an unchanged provider, on the store the first run left, gives `newUnlocksInserted == 0` |
| Notifier.RequestFor | src/webhooks/sender.ts:23-27 | a POST of the JSON payload to the target's url |
| Notifier.Requests | src/webhooks/sender.ts:21-31 | one request per target, in target order |
| Notifier.ReportOf | src/webhooks/sender.ts:33-37 | fulfilled gives `ok` with the target's id, url and status; rejected gives not `ok` with the reason |
| Notifier.Reports | src/webhooks/sender.ts:33-37 | one entry per target; entry `i` depends only on target `i` and how its own request settled |
| Notifier.SendAchievementWebhooks | src/webhooks/sender.ts:18-38 | one request and one report entry per target, in target order |
| Notifier.NoTargetsNoReport | src/webhooks/sender.ts:21-22 | with no targets, nothing is sent and the report is empty |
| Notifier.SameBodyForAll | src/webhooks/sender.ts:23-27 | every target receives the same body, by POST, as JSON |
| Notifier.Isolation | src/webhooks/sender.ts:33-37 | a target's entry is unchanged however the other targets' requests settle |
| Notifier.AnyStatusIsOk | src/webhooks/sender.ts:29-35 | any HTTP status, 404 and 500 included, is reported as `ok` with that status |
| Notifier.OkCount | src/webhooks/sender.ts:33-37 | the report has as many `ok` entries as deliveries that got a response |
| Poller.PayloadOf | src/index.ts:463-466 | the payload is the event's fields with `type` set to "achievement_unlocked" |
| Poller.Notifications | src/index.ts:462-467 | one fan-out per event of the sample, in order |
| Poller.NotificationsCarryEvents | src/index.ts:462-467 | every request of fan-out `k` carries event `k`'s payload, to one of the targets |
| Poller.NotifyAll | src/index.ts:460-467 | the loop over the events, each fan-out reading the registered targets, produces exactly `Notifications` to `ListTargets` of the table |
| Poller.PollSpecFacts | src/index.ts:446-480 | a failing sync is caught and logged, and nothing is sent and nothing written; otherwise one fan-out per sampled event, and the log's `webhooksSent` is the sample's length |
| Poller.RunPollOnce | src/index.ts:446-480 | the cycle always completes, with the log, the fan-outs and the store that `PollSpec` gives for the targets registered in the table |
| Poller.PollSendsOnlyNewEvents | src/index.ts:448-467 | a completed cycle sends at most as many events as it inserted; each sent event is one new to the store before the cycle and stored after it |
| Poller.SecondCycleSendsNothing | src/index.ts:446-467 | a second cycle with unchanged provider data sends nothing and inserts nothing |
| Poller.PollerSpecFacts | src/index.ts:482-486 | the first cycle runs on the initial store and registry, and each later cycle on the store and registry the previous one left, after that cycle's registrations |
| Poller.PollerSpecPrefix | src/index.ts:482-486 | the cycles of the first `m` ticks are the first `m` cycles of any longer run: a later tick never changes an earlier one |
| Poller.PollerSendsToRegistered | src/webhooks/sender.ts:18-27 | every fan-out of a poller cycle has one request per row registered at that cycle, to that row's url, in id order |
| Poller.RegistrationPersists | src/repositories/webhooks.js:6-19 | a url registered before cycle `k` is in the registry of every later cycle |
| Poller.RegisteredUrlIsNotified | src/index.ts:462-467 | every fan-out of a cycle at or after a url's registration holds a request to that url |
| Poller.ApplyRegistrations | src/repositories/webhooks.js:6-19 | the registrations applied in place end in the registry `AddAll` computes, and the table's constraints hold |
| Poller.Tick | src/index.ts:482-486 | one tick applies the registrations since the last one and then runs a cycle, ending where `CycleStep` ends |
| Poller.TickAt | src/index.ts:482-486 | tick `k` of a run, started where tick `k - 1` left the store and the table, ends on cycle `k` of `PollerSpec` |
| Poller.RunPoller | src/index.ts:433-486 | when the poller is disabled: no cycle and no write; when enabled: the cycles `PollerSpec` gives, one per input in order, ending on the last cycle's store and registry |
| Poller.RunCycles | src/index.ts:482-486 | the cycles of an enabled poller: log and fan-outs of cycle `k` are those of `PollerSpec`, and the store and the table end as the last cycle left them |
| WebhookRegistry.AddAllRegisters | src/repositories/webhooks.js:6-19 | registrations only append: earlier rows stay in place and every url registered is present afterwards |
| Poller.AllDeliveries | src/index.ts:337-348 | one `deliveries` entry per event: its app id, its key and its fan-out's report |
| Poller.PollOnceSpec | src/index.ts:321-356 | a failing sync fails the request and nothing is sent; otherwise one fan-out per sampled event, `webhooksSentForEvents` is the sample's length, and `deliveriesSample` holds the entries of the first `min(10, n)` events |
| Poller.NotifyAndCollect | src/index.ts:334-348 | the handler's loop produces the fan-outs to the registered targets and the `deliveries` list |
| Poller.PollOnceHandler | src/index.ts:321-356 | the reply, the fan-outs and the new store are those of `PollOnceSpec` for the targets registered in the table |
| Poller.SeedSpec | src/index.ts:393-414 | throws (no reply) when the clock cannot be formatted; otherwise inserts the fixed event; notifies only when the insert reported a new row, else `deliveries` is empty and nothing is sent |
| Poller.DebugSeed | src/index.ts:393-414 | the reply, the requests sent and the new store are those of `SeedSpec` for the targets registered in the table |
| Poller.SeedTwice | src/index.ts:402-405 | seeding again at any valid time inserts nothing, sends nothing and returns empty `deliveries` |
| Poller.SliceLength | src/index.ts:119 | a finite ceiling of 0 or less, or one at least n, gives all n games; one between gives itself; ±Infinity gives all; NaN gives none |
| Poller.BuildOwnedGamesSummary | src/index.ts:114-131 | `totalOwned` is the owned count; `returned` is the count after the ceiling; `sample` is the first ≤10 ranked games, with a missing name as null and a missing playtime as 0 |
| Poller.SummaryMatchesSelection | src/index.ts:116-125 | with a numeric ceiling, the summary returns the games a sync with that ceiling selects, and samples the top of them |
| Poller.EmptyCeilingDisagrees | src/index.ts:118 | an empty `STEAM_MAX_GAMES` means no ceiling for the summary but the default 50 for the sync |
| Dashboard.Clamp | src/repositories/dashboard.ts:81 | the result lies in [lo, hi]: x inside the range, lo below it, hi above it |
| Dashboard.SafeDays | src/repositories/dashboard.ts:81 | the day window is clamped to [1, 365] |
| Dashboard.SafeTopGamesLimit | src/repositories/dashboard.ts:114 | the top-games limit is clamped to [1, 50] |
| Dashboard.SafeListLimit | src/repositories/dashboard.ts:155 | the recent, stats and progress limits (the same clamp again at lines 194 and 236) are clamped to [1, 100] |
| Dashboard.SafeMonths | src/repositories/dashboard.ts:414 | the month window is clamped to [1, 240] |
| Dashboard.LastWithDow | src/repositories/dashboard.ts:307 | the index of the last row with a given DOW, or none when no row has it |
| Dashboard.RowsByDowIsLast | src/repositories/dashboard.ts:307 | the map built from the rows holds a DOW iff some row has it, and maps it to the last such row |
| Dashboard.LastWithDowNormalized | src/repositories/dashboard.ts:299-303 | trimming the abbreviations does not change which row is last for a DOW |
| Dashboard.LastWithDowUnique | src/repositories/dashboard.ts:307 | when a DOW has a single row, that row is the one used |
| Dashboard.AchievementsByWeekday | src/repositories/dashboard.ts:299-329 | always 7 entries, Mon…Sun (DOW 1..6 then 0); a DOW with rows gives the trimmed abbreviation and count of its last row; one without gives its default abbreviation and 0 |
| Dashboard.EmptyWeek | src/repositories/dashboard.ts:306-329 | with no rows the result is Mon…Sun with every count 0 |
| Dashboard.BestStreakOf | src/repositories/dashboard.ts:376-395 | no streak row gives 0 days, null start and end and no dates; a row gives its length, bounds and expanded dates |
| Dashboard.DashboardSummaryOf | src/repositories/dashboard.ts:52-69 | a missing aggregate row gives 0 games, 0 unlocks and a null last unlock; a present row's counts are passed through; its last unlock is kept only when it is truthy; a missing 7-day row gives 0 |

## Left out

- **The network.** `fetch`, HTTP and JSON decoding are replaced by their results: the owned-games outcome, one `HttpResponse` per app id, and the function `net`. `getOwnedGames` is not part of this model; its outcome is an input.
- **Concurrency.**
  - `Promise.allSettled` runs the deliveries concurrently; the model treats them as one batch with settled results in target order.
  - The timer is left out: `setInterval`, the `POLL_INTERVAL_SECONDS` value and cycles that overlap because `runPollOnce` is not awaited. The poller runs a finite sequence of cycles, one per input, in order.
  - Between two cycles no other writer touches the store. The debug routes `/debug/steam/sync`, `/debug/steam/poll-once` and `/debug/seed` also write it, and an unlock that `/debug/steam/sync` inserts between ticks is never webhooked by a later cycle; that interleaving is not modelled.
- RunPollOnce: `listWebhookTargets` runs inside every `sendAchievementWebhooks` call, and the model reads the table there too. Registrations are applied only between cycles, so a registration that lands while a cycle is still sending is not modelled.
- WebhookRegistry.AddTarget: the DDL of `webhook_targets` is not part of this model. `id` is taken to be a serial column, whose sequence value is drawn before `ON CONFLICT (url) DO NOTHING` detects the clash, so a conflicting registration consumes an id.
- ApplyRegistrations: a registered row's `created_at` is stamped with the next cycle's clock reading, not the time of the request.
- **Database failures.** A query that throws is not modelled. This includes an `upsertGame` failure that would abort the whole run, and a failing insert that ends one game.
- **The clock.** A run reads one clock value, `now`, whereas the code calls `new Date()` again for each achievement without an unlock time.
- **Times as integers.** Times are epoch milliseconds rather than ISO strings, and the formatting is not modelled. The one thing kept from `toISOString` is that it throws outside ±8.64e15 ms.
- JsText.ToNumber: covers whitespace (blank reads as 0), decimal integers with an optional sign, unsigned `0b`/`0o`/`0x` literals and `Infinity`. Integers are rounded to doubles and overflow to ±Infinity. Fractions and exponents read as NaN, while JavaScript gives their value. So `STEAM_MAX_GAMES` values such as "2.5" or "1e3" are not modelled.
- EventStore.UpsertGame and EventStore.UpsertTotal: the `updated_at = NOW()` column of `games` and `game_achievement_totals` is not modelled. So the last-writer-wins lemmas speak of name, playtime and total only. A repeated upsert does move that timestamp.
- **Sorting.** `Array.prototype.sort` is a library call that sorts in place. The model uses a stable insertion sort on values. It does not model the in-place mutation of the local array.
- **Floating point.** The dashboard's `Math.round` average and `completionPercent` are not modelled.
- **Dashboard SQL.** All of it is left out: time-zone bucketing, `DATE_TRUNC`, the streak query, `generate_series` and the `NOW()` windows. Query rows are inputs, with dates already formatted.
- Dashboard.Clamp: works on integers. A NaN or fractional limit is not modelled.
- **HTTP layer.** Route registration, status codes, `ENABLE_DEBUG_ROUTES` gating and the URL validation of `POST /webhooks` are not modelled. A sync error in `/debug/steam/poll-once` is returned as `Err`; the error response Fastify would send is not modelled. `/debug/steam/achievements` is not modelled either.
- **Logging.** It is modelled only as the value `CycleLog`.
