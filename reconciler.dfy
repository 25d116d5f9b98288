/**
 * `syncSteamAchievementsForConfiguredUser`: rank the owned games, apply the
 * ceiling, and walk the selected games one at a time, upserting each game,
 * fetching its achievements, recording its total and inserting every unlocked
 * achievement through the idempotent insert, while counting and sampling.
 *
 * The run is specified by the pure fold `Run` over the selected games (one
 * `GameStep` per game, one `InsertStep` per unlocked achievement); the method
 * `SyncSteamAchievements` performs the same walk against a `Store` object and
 * is proved to end in the state and summary the fold computes.
 */
module Reconciler {
  import opened Wrappers
  import opened Config
  import opened SteamClient
  import opened EventStore
  import opened Ranking

  /** The largest distance from the epoch, in ms, that a JavaScript Date can hold. */
  const MaxDateMs: int := 8_640_000_000_000_000
  /** Length bound of `failedAppIdsSample`. */
  const FailedSampleCap: int := 20
  /** Length bound of `newUnlocksInsertedPerAppSample`. */
  const PerAppSampleCap: int := 10

  /** Times for which `toISOString` succeeds (beyond them it throws a RangeError). */
  predicate ValidTime(ms: int) {
    -MaxDateMs <= ms <= MaxDateMs
  }

  /** `a.unlocktime` is truthy. */
  predicate HasUnlockTime(a: SteamAchievement) {
    a.unlocktime.Some? && a.unlocktime.value != 0
  }

  /**
   * The unlock time of an event in ms: `unlocktime * 1000` when `unlocktime` is
   * truthy, else the clock; None when formatting that time would throw.
   */
  function AchievedAt(a: SteamAchievement, now: int): (r: Option<int>)
    ensures HasUnlockTime(a) ==>
      (r.Some? <==> ValidTime(a.unlocktime.value * 1000)) && (r.Some? ==> r.value == a.unlocktime.value * 1000)
    ensures !HasUnlockTime(a) ==> (r.Some? <==> ValidTime(now)) && (r.Some? ==> r.value == now)
  {
    var ms := if HasUnlockTime(a) then a.unlocktime.value * 1000 else now;
    if ValidTime(ms) then Some(ms) else None
  }

  /** `achievements.filter((a) => a.achieved === 1)`. */
  function Unlocked(s: seq<SteamAchievement>): (r: seq<SteamAchievement>)
    ensures |r| <= |s|
    ensures forall a :: a in r <==> a in s && a.achieved == 1
  {
    if s == [] then []
    else (if s[0].achieved == 1 then [s[0]] else []) + Unlocked(s[1..])
  }

  /** The event inserted for an unlocked achievement: key and name are both `apiname`. */
  function EventFor(steamUserId: string, appId: int, a: SteamAchievement, achievedAt: int): UnlockEvent {
    UnlockEvent(steamUserId, appId, a.apiname, Some(a.apiname), achievedAt)
  }

  /** One entry of `newUnlocksInsertedPerAppSample`. */
  datatype AppInserted = AppInserted(appid: int, inserted: int)

  /**
   * The state of a run: the store, the summary's counters and samples, and
   * (`failedAll`, `insertedAll`, `perAppAll`) the unbounded lists the samples
   * are prefixes of.
   */
  datatype Acc = Acc(
    db: StoreState,
    gamesProcessed: nat,
    apiFailures: nat,
    failedAll: seq<int>,
    failedSample: seq<int>,
    newUnlocksInserted: nat,
    insertedAll: seq<UnlockEvent>,
    newEvents: seq<UnlockEvent>,
    perAppAll: seq<AppInserted>,
    perAppSample: seq<AppInserted>)

  function StartAcc(db: StoreState): Acc {
    Acc(db, 0, 0, [], [], 0, [], [], [], [])
  }

  /** The state inside one game's loop over its unlocked achievements. */
  datatype Inner = Inner(acc: Acc, forApp: nat, threw: bool)

  /** The loop body for one unlocked achievement; `cap` is `maxNewEventsToReturn`. */
  function InsertStep(inner: Inner, steamUserId: string, appId: int, a: SteamAchievement, now: int, cap: int): Inner {
    match AchievedAt(a, now)
    case None => inner.(threw := true)
    case Some(at) =>
      var e := EventFor(steamUserId, appId, a, at);
      var ins := InsertEventIfNew(inner.acc.db, e);
      var acc := inner.acc.(db := ins.state);
      if ins.inserted then
        Inner(acc.(newUnlocksInserted := acc.newUnlocksInserted + 1,
                   insertedAll := acc.insertedAll + [e],
                   newEvents := if |acc.newEvents| < cap then acc.newEvents + [e] else acc.newEvents),
              inner.forApp + 1, inner.threw)
      else
        inner.(acc := acc)
  }

  /** The loop over one game's unlocked achievements; a throw ends it. */
  function InnerRun(inner: Inner, steamUserId: string, appId: int, unl: seq<SteamAchievement>, now: int, cap: int): Inner
    decreases |unl|
  {
    if unl == [] || inner.threw then inner
    else InnerRun(InsertStep(inner, steamUserId, appId, unl[0], now, cap), steamUserId, appId, unl[1..], now, cap)
  }

  /** The achievement request for one game: no recorded response is a transport failure. */
  function Fetch(responses: map<int, HttpResponse>, appId: int): Result<PlayerAchievements, ProviderError> {
    if appId in responses then ParsePlayerAchievements(responses[appId]) else Err(TransportFailed)
  }

  /** The catch block: count the failure and sample the first 20 failing app ids. */
  function RecordFailure(acc: Acc, appId: int): Acc {
    acc.(apiFailures := acc.apiFailures + 1,
         failedAll := acc.failedAll + [appId],
         failedSample := if |acc.failedSample| < FailedSampleCap then acc.failedSample + [appId] else acc.failedSample)
  }

  /** After a game's loop completed: sample the first 10 games that inserted something. */
  function RecordPerApp(acc: Acc, appId: int, inserted: nat): Acc {
    if inserted > 0 then
      var entry := AppInserted(appId, inserted);
      acc.(perAppAll := acc.perAppAll + [entry],
           perAppSample := if |acc.perAppSample| < PerAppSampleCap then acc.perAppSample + [entry] else acc.perAppSample)
    else acc
  }

  /** After a game's loop over its unlocked achievements: the catch block, or the per-app sample. */
  function FinishGame(inner: Inner, appId: int): Acc {
    if inner.threw then RecordFailure(inner.acc, appId) else RecordPerApp(inner.acc, appId, inner.forApp)
  }

  /** The part of the loop body after a successful achievement request. */
  function AfterFetch(a1: Acc, steamUserId: string, appId: int, pa: PlayerAchievements, now: int, cap: int): Acc {
    var a2 := a1.(db := UpsertTotal(a1.db, appId, |pa.achievements|));
    FinishGame(InnerRun(Inner(a2, 0, false), steamUserId, appId, Unlocked(pa.achievements), now, cap), appId)
  }

  /** The state after `gamesProcessed++` and `upsertGame`. */
  function Upserted(acc: Acc, g: OwnedGame): Acc {
    acc.(db := UpsertGame(acc.db, g.appid, GameRow(g.name, Playtime(g))), gamesProcessed := acc.gamesProcessed + 1)
  }

  /** The loop body for one selected game. */
  function GameStep(acc: Acc, steamUserId: string, g: OwnedGame, responses: map<int, HttpResponse>, now: int, cap: int): Acc {
    match Fetch(responses, g.appid)
    case Err(_) => RecordFailure(Upserted(acc, g), g.appid)
    case Ok(pa) => AfterFetch(Upserted(acc, g), steamUserId, g.appid, pa, now, cap)
  }

  /** The loop over the selected games, in order. */
  function Run(acc: Acc, steamUserId: string, sel: seq<OwnedGame>, responses: map<int, HttpResponse>, now: int, cap: int): Acc
    decreases |sel|
  {
    if sel == [] then acc
    else Run(GameStep(acc, steamUserId, sel[0], responses, now, cap), steamUserId, sel[1..], responses, now, cap)
  }

  /** The record the sync returns. */
  datatype SyncSummary = SyncSummary(
    maxGames: int,
    effectiveMaxGames: nat,
    gamesConsidered: nat,
    gamesProcessed: nat,
    apiFailures: nat,
    failedAppIdsSample: seq<int>,
    newUnlocksInserted: nat,
    newUnlocksInsertedPerAppSample: seq<AppInserted>,
    newEventsSample: seq<UnlockEvent>)

  /** Why a whole run fails: no configured account, or the owned-games request failed. */
  datatype RunError = MissingSteamUserId | OwnedGamesFailed(error: ProviderError)

  datatype SyncOutcome = SyncOutcome(summary: SyncSummary, db: StoreState)

  const SteamIdVar := "STEAM_STEAMID64"

  /** `process.env.STEAM_STEAMID64` when it is set and non-empty. */
  function SteamUserId(env: Env): Option<string> {
    if SteamIdVar in env && env[SteamIdVar] != "" then Some(env[SteamIdVar]) else None
  }

  function MaxGames(env: Env): int { EnvNumber(env, "STEAM_MAX_GAMES", 50) }

  function MaxNewEvents(env: Env): int { EnvNumber(env, "MAX_NEW_EVENTS_RETURNED", 50) }

  /**
   * A whole sync run on a store in state `db`: `owned` is the outcome of the
   * owned-games request, `responses` the achievement response per app id (a
   * missing one is a failed request) and `now` the clock in ms.
   */
  function SyncSpec(env: Env, owned: Result<seq<OwnedGame>, ProviderError>,
                    responses: map<int, HttpResponse>, now: int, db: StoreState): Result<SyncOutcome, RunError>
  {
    match SteamUserId(env)
    case None => Err(MissingSteamUserId)
    case Some(steamUserId) =>
      match owned
      case Err(e) => Err(OwnedGamesFailed(e))
      case Ok(list) =>
        var games := Ranked(list);
        var selected := Select(games, MaxGames(env));
        var acc := Run(StartAcc(db), steamUserId, selected, responses, now, MaxNewEvents(env));
        Ok(SyncOutcome(
          SyncSummary(MaxGames(env), |selected|, |games|, acc.gamesProcessed, acc.apiFailures, acc.failedSample,
                      acc.newUnlocksInserted, acc.perAppSample, acc.newEvents),
          acc.db))
  }

  /** One more game of the outer loop. */
  lemma RunUnfold(acc: Acc, steamUserId: string, sel: seq<OwnedGame>, i: nat, responses: map<int, HttpResponse>, now: int, cap: int)
    requires i < |sel|
    ensures Run(acc, steamUserId, sel[i..], responses, now, cap)
         == Run(GameStep(acc, steamUserId, sel[i], responses, now, cap), steamUserId, sel[i + 1..], responses, now, cap)
  {
    assert sel[i..][0] == sel[i] && sel[i..][1..] == sel[i + 1..];
  }

  /**
   * `syncSteamAchievementsForConfiguredUser`, performed against `store`. A run
   * that fails leaves the store as it was; otherwise the store and the summary
   * are those of `SyncSpec`.
   */
  method SyncSteamAchievements(env: Env, owned: Result<seq<OwnedGame>, ProviderError>,
                               responses: map<int, HttpResponse>, now: int, store: Store)
    returns (r: Result<SyncSummary, RunError>)
    modifies store
    ensures match SyncSpec(env, owned, responses, now, old(store.State()))
      case Err(e) => r == Err(e) && store.State() == old(store.State())
      case Ok(out) => r == Ok(out.summary) && store.State() == out.db
  {
    if SteamIdVar !in env || env[SteamIdVar] == "" {
      return Err(MissingSteamUserId);
    }
    var steamUserId := env[SteamIdVar];
    var maxGames := EnvNumber(env, "STEAM_MAX_GAMES", 50);
    var maxNewEventsToReturn := EnvNumber(env, "MAX_NEW_EVENTS_RETURNED", 50);
    if owned.Err? {
      return Err(OwnedGamesFailed(owned.error));
    }
    var games := Ranked(owned.value);
    var selected := Select(games, maxGames);
    var effectiveMaxGames := |selected|;
    var gamesProcessed, apiFailures, failedAppIds, newUnlocksInserted, perAppInsertedSample, newEvents :=
      SyncSelected(store, steamUserId, selected, responses, now, maxNewEventsToReturn);
    r := Ok(SyncSummary(maxGames, effectiveMaxGames, |games|, gamesProcessed, apiFailures, failedAppIds,
                        newUnlocksInserted, perAppInsertedSample, newEvents));
  }

  /**
   * The loop over the selected games against `store`: leaves the store and
   * the counters and samples as `Run` computes them from an empty run state.
   */
  method SyncSelected(store: Store, steamUserId: string, selected: seq<OwnedGame>, responses: map<int, HttpResponse>,
                      now: int, maxNewEventsToReturn: int)
    returns (gamesProcessed: nat, apiFailures: nat, failedAppIds: seq<int>, newUnlocksInserted: nat,
             perAppInsertedSample: seq<AppInserted>, newEvents: seq<UnlockEvent>)
    modifies store
    ensures var run := Run(StartAcc(old(store.State())), steamUserId, selected, responses, now, maxNewEventsToReturn);
      && store.State() == run.db
      && gamesProcessed == run.gamesProcessed && apiFailures == run.apiFailures && failedAppIds == run.failedSample
      && newUnlocksInserted == run.newUnlocksInserted && perAppInsertedSample == run.perAppSample
      && newEvents == run.newEvents
  {
    gamesProcessed, apiFailures, newUnlocksInserted := 0, 0, 0;
    failedAppIds, perAppInsertedSample, newEvents := [], [], [];
    ghost var failedAll: seq<int>, insertedAll: seq<UnlockEvent>, perAppAll: seq<AppInserted> := [], [], [];
    ghost var goal := Run(StartAcc(store.State()), steamUserId, selected, responses, now, maxNewEventsToReturn);

    var i := 0;
    while i < |selected|
      invariant 0 <= i <= |selected|
      invariant Run(Acc(store.State(), gamesProcessed, apiFailures, failedAll, failedAppIds, newUnlocksInserted,
                        insertedAll, newEvents, perAppAll, perAppInsertedSample),
                    steamUserId, selected[i..], responses, now, maxNewEventsToReturn) == goal
    {
      ghost var before := Acc(store.State(), gamesProcessed, apiFailures, failedAll, failedAppIds, newUnlocksInserted,
                              insertedAll, newEvents, perAppAll, perAppInsertedSample);
      RunUnfold(before, steamUserId, selected, i, responses, now, maxNewEventsToReturn);
      gamesProcessed, apiFailures, failedAppIds, newUnlocksInserted, newEvents, perAppInsertedSample,
        failedAll, insertedAll, perAppAll :=
        SyncGame(store, steamUserId, selected[i], responses, now, maxNewEventsToReturn,
                 gamesProcessed, apiFailures, failedAppIds, newUnlocksInserted, newEvents, perAppInsertedSample,
                 failedAll, insertedAll, perAppAll);
      i := i + 1;
    }
    assert selected[i..] == [];
  }

  /**
   * The body of the outer `for (const g of selected)` loop, against `store`:
   * `gamesProcessed` … `perAppAll` on entry and on exit are the run state
   * before and after one `GameStep`.
   */
  method SyncGame(store: Store, steamUserId: string, g: OwnedGame, responses: map<int, HttpResponse>, now: int, cap: int,
                  gamesProcessed0: nat, apiFailures0: nat, failedAppIds0: seq<int>, newUnlocksInserted0: nat,
                  newEvents0: seq<UnlockEvent>, perAppInsertedSample0: seq<AppInserted>,
                  ghost failedAll0: seq<int>, ghost insertedAll0: seq<UnlockEvent>, ghost perAppAll0: seq<AppInserted>)
    returns (gamesProcessed: nat, apiFailures: nat, failedAppIds: seq<int>, newUnlocksInserted: nat,
             newEvents: seq<UnlockEvent>, perAppInsertedSample: seq<AppInserted>,
             ghost failedAll: seq<int>, ghost insertedAll: seq<UnlockEvent>, ghost perAppAll: seq<AppInserted>)
    modifies store
    ensures Acc(store.State(), gamesProcessed, apiFailures, failedAll, failedAppIds, newUnlocksInserted,
                insertedAll, newEvents, perAppAll, perAppInsertedSample)
         == GameStep(Acc(old(store.State()), gamesProcessed0, apiFailures0, failedAll0, failedAppIds0, newUnlocksInserted0,
                         insertedAll0, newEvents0, perAppAll0, perAppInsertedSample0),
                     steamUserId, g, responses, now, cap)
  {
    gamesProcessed, apiFailures, failedAppIds, newUnlocksInserted, newEvents, perAppInsertedSample :=
      gamesProcessed0, apiFailures0, failedAppIds0, newUnlocksInserted0, newEvents0, perAppInsertedSample0;
    failedAll, insertedAll, perAppAll := failedAll0, insertedAll0, perAppAll0;
    ghost var before := Acc(store.State(), gamesProcessed, apiFailures, failedAll, failedAppIds, newUnlocksInserted,
                            insertedAll, newEvents, perAppAll, perAppInsertedSample);
    gamesProcessed := gamesProcessed + 1;
    store.UpsertGameRow(g.appid, g.name, Playtime(g));
    var fetched := Fetch(responses, g.appid);
    if fetched.Err? {
      apiFailures := apiFailures + 1;
      failedAll := failedAll + [g.appid];
      failedAppIds := if |failedAppIds| < FailedSampleCap then failedAppIds + [g.appid] else failedAppIds;
    } else {
      var res := fetched.value;
      store.UpsertGameAchievementTotal(g.appid, |res.achievements|);
      var unlocked := Unlocked(res.achievements);
      ghost var afterTotal := Acc(store.State(), gamesProcessed, apiFailures, failedAll, failedAppIds, newUnlocksInserted,
                                  insertedAll, newEvents, perAppAll, perAppInsertedSample);
      var insertedForThisApp, threw;
      newUnlocksInserted, newEvents, insertedForThisApp, threw, insertedAll :=
        InsertUnlocked(store, steamUserId, g.appid, unlocked, now, cap,
                       newUnlocksInserted, newEvents, afterTotal);
      ghost var inner := Inner(afterTotal.(db := store.State(), newUnlocksInserted := newUnlocksInserted,
                                           insertedAll := insertedAll, newEvents := newEvents),
                               insertedForThisApp, threw);
      assert afterTotal == Upserted(before, g).(db := UpsertTotal(Upserted(before, g).db, g.appid, |res.achievements|));
      if threw {
        apiFailures := apiFailures + 1;
        failedAll := failedAll + [g.appid];
        failedAppIds := if |failedAppIds| < FailedSampleCap then failedAppIds + [g.appid] else failedAppIds;
      } else if insertedForThisApp > 0 {
        var entry := AppInserted(g.appid, insertedForThisApp);
        perAppAll := perAppAll + [entry];
        perAppInsertedSample :=
          if |perAppInsertedSample| < PerAppSampleCap then perAppInsertedSample + [entry] else perAppInsertedSample;
      }
    }
    assert Acc(store.State(), gamesProcessed, apiFailures, failedAll, failedAppIds, newUnlocksInserted,
               insertedAll, newEvents, perAppAll, perAppInsertedSample)
        == GameStep(before, steamUserId, g, responses, now, cap);
  }

  /**
   * The inner `for (const a of unlocked)` loop of one game, against `store`:
   * ends in the state `InnerRun` computes from `acc0`, the run state on entry.
   */
  method InsertUnlocked(store: Store, steamUserId: string, appId: int, unlocked: seq<SteamAchievement>,
                        now: int, maxNewEventsToReturn: int, inserted0: nat, events0: seq<UnlockEvent>,
                        ghost acc0: Acc)
    returns (newUnlocksInserted: nat, newEvents: seq<UnlockEvent>, insertedForThisApp: nat, threw: bool,
             ghost insertedAll: seq<UnlockEvent>)
    requires acc0.db == store.State() && acc0.newUnlocksInserted == inserted0 && acc0.newEvents == events0
    modifies store
    ensures InnerRun(Inner(acc0, 0, false), steamUserId, appId, unlocked, now, maxNewEventsToReturn)
         == Inner(acc0.(db := store.State(), newUnlocksInserted := newUnlocksInserted,
                        insertedAll := insertedAll, newEvents := newEvents),
                  insertedForThisApp, threw)
  {
    newUnlocksInserted, newEvents, insertedForThisApp, threw, insertedAll := inserted0, events0, 0, false, acc0.insertedAll;
    ghost var goal := InnerRun(Inner(acc0, 0, false), steamUserId, appId, unlocked, now, maxNewEventsToReturn);
    var j := 0;
    while j < |unlocked| && !threw
      invariant 0 <= j <= |unlocked|
      invariant InnerRun(Inner(acc0.(db := store.State(), newUnlocksInserted := newUnlocksInserted,
                                     insertedAll := insertedAll, newEvents := newEvents),
                               insertedForThisApp, threw),
                         steamUserId, appId, unlocked[j..], now, maxNewEventsToReturn) == goal
      decreases |unlocked| - j + (if threw then 0 else 1)
    {
      var a := unlocked[j];
      assert unlocked[j..][0] == a && unlocked[j..][1..] == unlocked[j + 1..];
      var achievedAt := AchievedAt(a, now);
      if achievedAt.None? {
        threw := true;
      } else {
        var event := EventFor(steamUserId, appId, a, achievedAt.value);
        var inserted := store.InsertAchievementEvent(event);
        if inserted {
          newUnlocksInserted := newUnlocksInserted + 1;
          insertedForThisApp := insertedForThisApp + 1;
          insertedAll := insertedAll + [event];
          if |newEvents| < maxNewEventsToReturn {
            newEvents := newEvents + [event];
          }
        }
        j := j + 1;
      }
    }
  }
}
