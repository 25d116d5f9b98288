/**
 * What a sync run promises, proved about the fold `Run` (and through it
 * about `SyncSpec`, which `Reconciler.SyncSteamAchievements` is proved to
 * compute):
 *  - the counters and the three bounded samples (`SamplesInv`);
 *  - which games fail (`FailedIds`), whatever the store holds;
 *  - the game and total rows written (`GamesAfter`, `TotalsAfter`);
 *  - the events written: each new, persisted, correctly shaped (`EventsInv`);
 *  - the keys written (`Attempted`), and so that a second run inserts nothing.
 */
module ReconcilerProps {
  import opened Wrappers
  import opened Config
  import opened SteamClient
  import opened EventStore
  import opened Ranking
  import opened Reconciler

  function Min(a: int, b: int): int { if a <= b then a else b }

  function Max(a: int, b: int): int { if a >= b then a else b }

  // ---------------------------------------------------------------------------
  // Counters and samples

  /**
   * `apiFailures` counts `failedAll` and `failedAppIdsSample` is its first 20;
   * `newUnlocksInserted` counts `insertedAll` and `newEventsSample` is its
   * first `max(0, cap)`; the per-app sample is the first 10 of `perAppAll`,
   * every entry of which inserted something.
   */
  ghost predicate SamplesInv(acc: Acc, cap: int) {
    && |acc.failedAll| == acc.apiFailures
    && acc.failedSample == acc.failedAll[..Min(|acc.failedAll|, FailedSampleCap)]
    && |acc.insertedAll| == acc.newUnlocksInserted
    && acc.newEvents == acc.insertedAll[..Min(|acc.insertedAll|, Max(0, cap))]
    && acc.perAppSample == acc.perAppAll[..Min(|acc.perAppAll|, PerAppSampleCap)]
    && (forall k :: 0 <= k < |acc.perAppAll| ==> acc.perAppAll[k].inserted > 0)
  }

  lemma StartSamples(db: StoreState, cap: int)
    ensures SamplesInv(StartAcc(db), cap)
  {
  }

  /** Appending to a list and, while it is short, to its capped prefix keeps the prefix. */
  lemma CappedAppend<T>(all: seq<T>, sample: seq<T>, x: T, cap: int)
    requires sample == all[..Min(|all|, Max(0, cap))]
    ensures (if |sample| < cap then sample + [x] else sample) == (all + [x])[..Min(|all| + 1, Max(0, cap))]
  {
    if |sample| < cap {
      assert sample == all;
    }
  }

  lemma InsertStepSamples(inner: Inner, steamUserId: string, appId: int, a: SteamAchievement, now: int, cap: int)
    requires SamplesInv(inner.acc, cap)
    ensures SamplesInv(InsertStep(inner, steamUserId, appId, a, now, cap).acc, cap)
  {
    if AchievedAt(a, now).Some? {
      var e := EventFor(steamUserId, appId, a, AchievedAt(a, now).value);
      CappedAppend(inner.acc.insertedAll, inner.acc.newEvents, e, cap);
    }
  }

  lemma {:induction false} InnerRunSamples(inner: Inner, steamUserId: string, appId: int, unl: seq<SteamAchievement>,
                                           now: int, cap: int)
    requires SamplesInv(inner.acc, cap)
    ensures SamplesInv(InnerRun(inner, steamUserId, appId, unl, now, cap).acc, cap)
    decreases |unl|
  {
    if unl != [] && !inner.threw {
      InsertStepSamples(inner, steamUserId, appId, unl[0], now, cap);
      InnerRunSamples(InsertStep(inner, steamUserId, appId, unl[0], now, cap), steamUserId, appId, unl[1..], now, cap);
    }
  }

  lemma FinishGameSamples(inner: Inner, appId: int, cap: int)
    requires SamplesInv(inner.acc, cap)
    ensures SamplesInv(FinishGame(inner, appId), cap)
  {
    CappedAppend(inner.acc.failedAll, inner.acc.failedSample, appId, FailedSampleCap);
    CappedAppend(inner.acc.perAppAll, inner.acc.perAppSample, AppInserted(appId, inner.forApp), PerAppSampleCap);
  }

  lemma GameStepSamples(acc: Acc, steamUserId: string, g: OwnedGame, responses: map<int, HttpResponse>, now: int, cap: int)
    requires SamplesInv(acc, cap)
    ensures SamplesInv(GameStep(acc, steamUserId, g, responses, now, cap), cap)
  {
    var a1 := Upserted(acc, g);
    match Fetch(responses, g.appid)
    case Err(_) =>
      CappedAppend(a1.failedAll, a1.failedSample, g.appid, FailedSampleCap);
    case Ok(pa) =>
      var a2 := a1.(db := UpsertTotal(a1.db, g.appid, |pa.achievements|));
      InnerRunSamples(Inner(a2, 0, false), steamUserId, g.appid, Unlocked(pa.achievements), now, cap);
      FinishGameSamples(InnerRun(Inner(a2, 0, false), steamUserId, g.appid, Unlocked(pa.achievements), now, cap),
                        g.appid, cap);
  }

  /** The whole loop keeps the counters and samples consistent, and processes every selected game. */
  lemma {:induction false} RunSamples(acc: Acc, steamUserId: string, sel: seq<OwnedGame>,
                                      responses: map<int, HttpResponse>, now: int, cap: int)
    requires SamplesInv(acc, cap)
    ensures SamplesInv(Run(acc, steamUserId, sel, responses, now, cap), cap)
    ensures Run(acc, steamUserId, sel, responses, now, cap).gamesProcessed == acc.gamesProcessed + |sel|
    decreases |sel|
  {
    if sel != [] {
      GameStepSamples(acc, steamUserId, sel[0], responses, now, cap);
      GameStepFailures(acc, steamUserId, sel[0], responses, now, cap);
      RunSamples(GameStep(acc, steamUserId, sel[0], responses, now, cap), steamUserId, sel[1..], responses, now, cap);
    }
  }

  // ---------------------------------------------------------------------------
  // Which games fail

  /** Some unlocked achievement has a time `toISOString` rejects. */
  predicate SomeTimeInvalid(unl: seq<SteamAchievement>, now: int) {
    exists k :: 0 <= k < |unl| && AchievedAt(unl[k], now).None?
  }

  /** The achievement request fails, or one of the game's unlock times cannot be formatted. */
  predicate GameFails(g: OwnedGame, responses: map<int, HttpResponse>, now: int) {
    match Fetch(responses, g.appid)
    case Err(_) => true
    case Ok(pa) => SomeTimeInvalid(Unlocked(pa.achievements), now)
  }

  /** The app ids of the failing games, in processing order. */
  function FailedIds(sel: seq<OwnedGame>, responses: map<int, HttpResponse>, now: int): (r: seq<int>)
    ensures |r| <= |sel|
  {
    if sel == [] then [] else FailedHead(sel[0], responses, now) + FailedIds(sel[1..], responses, now)
  }

  /** `[g.appid]` when the game fails, else nothing. */
  function FailedHead(g: OwnedGame, responses: map<int, HttpResponse>, now: int): seq<int> {
    if GameFails(g, responses, now) then [g.appid] else []
  }

  lemma AppendFailedIds(prefix: seq<int>, sel: seq<OwnedGame>, responses: map<int, HttpResponse>, now: int)
    requires sel != []
    ensures prefix + FailedIds(sel, responses, now)
         == prefix + FailedHead(sel[0], responses, now) + FailedIds(sel[1..], responses, now)
  {
    var head := FailedHead(sel[0], responses, now);
    var rest := FailedIds(sel[1..], responses, now);
    assert prefix + (head + rest) == prefix + head + rest;
  }

  /** A game's inner loop throws exactly when one of its unlock times is invalid. */
  lemma {:induction false} InnerRunThrows(inner: Inner, steamUserId: string, appId: int, unl: seq<SteamAchievement>,
                                          now: int, cap: int)
    ensures InnerRun(inner, steamUserId, appId, unl, now, cap).threw <==> inner.threw || SomeTimeInvalid(unl, now)
    decreases |unl|
  {
    if unl != [] && !inner.threw {
      var next := InsertStep(inner, steamUserId, appId, unl[0], now, cap);
      InnerRunThrows(next, steamUserId, appId, unl[1..], now, cap);
      if SomeTimeInvalid(unl[1..], now) {
        var k :| 0 <= k < |unl[1..]| && AchievedAt(unl[1..][k], now).None?;
        assert AchievedAt(unl[k + 1], now).None?;
      }
      if AchievedAt(unl[0], now).Some? && SomeTimeInvalid(unl, now) {
        var k :| 0 <= k < |unl| && AchievedAt(unl[k], now).None?;
        assert k > 0 && AchievedAt(unl[1..][k - 1], now).None?;
      }
    }
  }

  lemma GameStepFailures(acc: Acc, steamUserId: string, g: OwnedGame, responses: map<int, HttpResponse>, now: int, cap: int)
    ensures GameStep(acc, steamUserId, g, responses, now, cap).failedAll
         == acc.failedAll + FailedHead(g, responses, now)
    ensures GameStep(acc, steamUserId, g, responses, now, cap).gamesProcessed == acc.gamesProcessed + 1
  {
    match Fetch(responses, g.appid)
    case Err(_) =>
    case Ok(pa) =>
      var a1 := Upserted(acc, g);
      var a2 := a1.(db := UpsertTotal(a1.db, g.appid, |pa.achievements|));
      InnerRunThrows(Inner(a2, 0, false), steamUserId, g.appid, Unlocked(pa.achievements), now, cap);
      ForAppKeepsFailures(Inner(a2, 0, false), steamUserId, g.appid, Unlocked(pa.achievements), now, cap);
  }

  /** The inner loop touches neither the game count nor the failure list. */
  lemma {:induction false} ForAppKeepsFailures(inner: Inner, steamUserId: string, appId: int, unl: seq<SteamAchievement>,
                                               now: int, cap: int)
    ensures InnerRun(inner, steamUserId, appId, unl, now, cap).acc.failedAll == inner.acc.failedAll
    ensures InnerRun(inner, steamUserId, appId, unl, now, cap).acc.gamesProcessed == inner.acc.gamesProcessed
    decreases |unl|
  {
    if unl != [] && !inner.threw {
      ForAppKeepsFailures(InsertStep(inner, steamUserId, appId, unl[0], now, cap), steamUserId, appId, unl[1..], now, cap);
    }
  }

  /** The failing games of a run, whatever the store holds: exactly `FailedIds` of the selection. */
  lemma {:induction false} RunFailures(acc: Acc, steamUserId: string, sel: seq<OwnedGame>,
                                       responses: map<int, HttpResponse>, now: int, cap: int)
    ensures Run(acc, steamUserId, sel, responses, now, cap).failedAll == acc.failedAll + FailedIds(sel, responses, now)
    decreases |sel|
  {
    if sel != [] {
      var next := GameStep(acc, steamUserId, sel[0], responses, now, cap);
      GameStepFailures(acc, steamUserId, sel[0], responses, now, cap);
      RunFailures(next, steamUserId, sel[1..], responses, now, cap);
      AppendFailedIds(acc.failedAll, sel, responses, now);
    }
  }

  // ---------------------------------------------------------------------------
  // The game and total rows

  /** `games` after upserting every selected game in order. */
  function GamesAfter(games: map<int, GameRow>, sel: seq<OwnedGame>): map<int, GameRow>
    decreases |sel|
  {
    if sel == [] then games
    else GamesAfter(games[sel[0].appid := GameRow(sel[0].name, Playtime(sel[0]))], sel[1..])
  }

  /** `game_achievement_totals` after one game: its achievement count, when the request succeeded. */
  function TotalAfterGame(totals: map<int, int>, g: OwnedGame, responses: map<int, HttpResponse>): map<int, int> {
    match Fetch(responses, g.appid)
    case Err(_) => totals
    case Ok(pa) => totals[g.appid := |pa.achievements|]
  }

  function TotalsAfter(totals: map<int, int>, sel: seq<OwnedGame>, responses: map<int, HttpResponse>): map<int, int>
    decreases |sel|
  {
    if sel == [] then totals else TotalsAfter(TotalAfterGame(totals, sel[0], responses), sel[1..], responses)
  }

  /** The inner loop writes only events. */
  lemma {:induction false} InnerRunKeepsTables(inner: Inner, steamUserId: string, appId: int, unl: seq<SteamAchievement>,
                                               now: int, cap: int)
    ensures InnerRun(inner, steamUserId, appId, unl, now, cap).acc.db.games == inner.acc.db.games
    ensures InnerRun(inner, steamUserId, appId, unl, now, cap).acc.db.totals == inner.acc.db.totals
    decreases |unl|
  {
    if unl != [] && !inner.threw {
      InnerRunKeepsTables(InsertStep(inner, steamUserId, appId, unl[0], now, cap), steamUserId, appId, unl[1..], now, cap);
    }
  }

  lemma GameStepTables(acc: Acc, steamUserId: string, g: OwnedGame, responses: map<int, HttpResponse>, now: int, cap: int)
    ensures GameStep(acc, steamUserId, g, responses, now, cap).db.games
         == acc.db.games[g.appid := GameRow(g.name, Playtime(g))]
    ensures GameStep(acc, steamUserId, g, responses, now, cap).db.totals == TotalAfterGame(acc.db.totals, g, responses)
  {
    match Fetch(responses, g.appid)
    case Err(_) =>
    case Ok(pa) =>
      var a1 := Upserted(acc, g);
      var a2 := a1.(db := UpsertTotal(a1.db, g.appid, |pa.achievements|));
      InnerRunKeepsTables(Inner(a2, 0, false), steamUserId, g.appid, Unlocked(pa.achievements), now, cap);
  }

  /**
   * Every selected game is upserted, whether or not its request fails, and
   * every game whose request succeeds gets its total; nothing else changes
   * these two tables.
   */
  lemma {:induction false} RunTables(acc: Acc, steamUserId: string, sel: seq<OwnedGame>,
                                     responses: map<int, HttpResponse>, now: int, cap: int)
    ensures Run(acc, steamUserId, sel, responses, now, cap).db.games == GamesAfter(acc.db.games, sel)
    ensures Run(acc, steamUserId, sel, responses, now, cap).db.totals == TotalsAfter(acc.db.totals, sel, responses)
    decreases |sel|
  {
    if sel != [] {
      GameStepTables(acc, steamUserId, sel[0], responses, now, cap);
      RunTables(GameStep(acc, steamUserId, sel[0], responses, now, cap), steamUserId, sel[1..], responses, now, cap);
    }
  }

  /** After the upserts exactly the old ids and the selected ids have a row. */
  lemma {:induction false} GamesAfterKeys(games: map<int, GameRow>, sel: seq<OwnedGame>)
    ensures GamesAfter(games, sel).Keys == games.Keys + set g | g in sel :: g.appid
    decreases |sel|
  {
    if sel != [] {
      GamesAfterKeys(games[sel[0].appid := GameRow(sel[0].name, Playtime(sel[0]))], sel[1..]);
      assert sel == [sel[0]] + sel[1..];
    }
  }

  /** The row for a selected id is that of the last selected game with the id: the last writer wins. */
  lemma {:induction false} GamesAfterLast(games: map<int, GameRow>, sel: seq<OwnedGame>, i: nat)
    requires i < |sel|
    requires forall j :: i < j < |sel| ==> sel[j].appid != sel[i].appid
    ensures sel[i].appid in GamesAfter(games, sel)
    ensures GamesAfter(games, sel)[sel[i].appid] == GameRow(sel[i].name, Playtime(sel[i]))
    decreases |sel|
  {
    var next := games[sel[0].appid := GameRow(sel[0].name, Playtime(sel[0]))];
    if i > 0 {
      assert sel[1..][i - 1] == sel[i];
      forall j | i - 1 < j < |sel[1..]| ensures sel[1..][j].appid != sel[1..][i - 1].appid {
        assert sel[1..][j] == sel[j + 1];
      }
      GamesAfterLast(next, sel[1..], i - 1);
    } else {
      forall g | g in sel[1..] ensures g.appid != sel[0].appid {
        var j :| 0 <= j < |sel[1..]| && sel[1..][j] == g;
        assert sel[j + 1] == g;
      }
      GamesAfterOther(next, sel[1..], sel[0].appid);
    }
  }

  /** The rows of ids not selected are untouched. */
  lemma {:induction false} GamesAfterOther(games: map<int, GameRow>, sel: seq<OwnedGame>, id: int)
    requires id in games
    requires forall g :: g in sel ==> g.appid != id
    ensures id in GamesAfter(games, sel) && GamesAfter(games, sel)[id] == games[id]
    decreases |sel|
  {
    if sel != [] {
      assert sel[0] in sel;
      assert forall g :: g in sel[1..] ==> g in sel;
      GamesAfterOther(games[sel[0].appid := GameRow(sel[0].name, Playtime(sel[0]))], sel[1..], id);
    }
  }

  /** After the run, each successfully fetched game's total is its number of achievements, locked ones included. */
  lemma {:induction false} TotalsAfterRows(totals: map<int, int>, sel: seq<OwnedGame>, responses: map<int, HttpResponse>)
    ensures forall g :: g in sel && Fetch(responses, g.appid).Ok? ==>
      g.appid in TotalsAfter(totals, sel, responses)
      && TotalsAfter(totals, sel, responses)[g.appid] == |Fetch(responses, g.appid).value.achievements|
    ensures forall id :: id in totals && (forall g :: g in sel ==> g.appid != id || Fetch(responses, id).Err?) ==>
      id in TotalsAfter(totals, sel, responses) && TotalsAfter(totals, sel, responses)[id] == totals[id]
    ensures forall id :: id in TotalsAfter(totals, sel, responses) ==> id in totals || Fetch(responses, id).Ok?
    decreases |sel|
  {
    if sel != [] {
      var next := TotalAfterGame(totals, sel[0], responses);
      TotalsAfterRows(next, sel[1..], responses);
      assert sel == [sel[0]] + sel[1..];
      forall g | g in sel && Fetch(responses, g.appid).Ok?
        ensures g.appid in TotalsAfter(totals, sel, responses)
        ensures TotalsAfter(totals, sel, responses)[g.appid] == |Fetch(responses, g.appid).value.achievements|
      {
        if g !in sel[1..] && !(exists h :: h in sel[1..] && h.appid == g.appid && Fetch(responses, g.appid).Ok?) {
          assert g == sel[0];
          TotalsAfterKeeps(next, sel[1..], responses, g.appid);
        } else if g !in sel[1..] {
          var h :| h in sel[1..] && h.appid == g.appid && Fetch(responses, g.appid).Ok?;
          assert TotalsAfter(next, sel[1..], responses)[h.appid] == |Fetch(responses, h.appid).value.achievements|;
        }
      }
    }
  }

  /** An id whose later requests all fail keeps the total it has. */
  lemma {:induction false} TotalsAfterKeeps(totals: map<int, int>, sel: seq<OwnedGame>, responses: map<int, HttpResponse>, id: int)
    requires id in totals
    requires forall g :: g in sel ==> g.appid != id || Fetch(responses, id).Err?
    ensures id in TotalsAfter(totals, sel, responses) && TotalsAfter(totals, sel, responses)[id] == totals[id]
    decreases |sel|
  {
    if sel != [] {
      assert sel[0] in sel;
      assert forall g :: g in sel[1..] ==> g in sel;
      TotalsAfterKeeps(TotalAfterGame(totals, sel[0], responses), sel[1..], responses, id);
    }
  }

  // ---------------------------------------------------------------------------
  // The events written

  /**
   * An event as the run builds it: for the configured user, keyed and named
   * by the `apiname` of an unlocked achievement of a game whose request
   * succeeded, at that achievement's derived time.
   */
  ghost predicate FromProvider(e: UnlockEvent, steamUserId: string, responses: map<int, HttpResponse>, now: int) {
    && e.steamUserId == steamUserId
    && e.achievementName == Some(e.achievementKey)
    && ValidTime(e.achievedAt)
    && Fetch(responses, e.appId).Ok?
    && exists a :: a in Unlocked(Fetch(responses, e.appId).value.achievements)
                 && a.apiname == e.achievementKey && AchievedAt(a, now) == Some(e.achievedAt)
  }

  /** Rows that were in `db0` are still in `db`, unchanged. */
  ghost predicate KeepsRows(db0: StoreState, db: StoreState) {
    forall k :: k in db0.events ==> k in db.events && db.events[k] == db0.events[k]
  }

  /** Each of `ins` was new with respect to `db0` and is stored in `db` as given. */
  ghost predicate StoredNew(db0: StoreState, db: StoreState, ins: seq<UnlockEvent>) {
    forall i :: 0 <= i < |ins| ==>
      KeyOf(ins[i]) !in db0.events && KeyOf(ins[i]) in db.events && db.events[KeyOf(ins[i])] == RowOf(ins[i])
  }

  ghost predicate AllFromProvider(ins: seq<UnlockEvent>, steamUserId: string, responses: map<int, HttpResponse>, now: int) {
    forall i :: 0 <= i < |ins| ==> FromProvider(ins[i], steamUserId, responses, now)
  }

  ghost predicate DistinctKeys(ins: seq<UnlockEvent>) {
    forall i, j :: 0 <= i < j < |ins| ==> KeyOf(ins[i]) != KeyOf(ins[j])
  }

  /** Every row of `db` not in `db0` is one of `ins`. */
  ghost predicate Covered(db0: StoreState, db: StoreState, ins: seq<UnlockEvent>) {
    forall k :: k in db.events && k !in db0.events ==> exists i :: 0 <= i < |ins| && KeyOf(ins[i]) == k
  }

  /**
   * `ins` are the events the run inserted: each was new with respect to
   * `db0`, is stored in `db` as given, is built from the provider's data, and
   * has a key of its own; every row of `db` not in `db0` is one of them.
   */
  ghost predicate InsertedRows(db0: StoreState, db: StoreState, ins: seq<UnlockEvent>, steamUserId: string,
                               responses: map<int, HttpResponse>, now: int) {
    StoredNew(db0, db, ins) && AllFromProvider(ins, steamUserId, responses, now) && DistinctKeys(ins) && Covered(db0, db, ins)
  }

  ghost predicate EventsInv(db0: StoreState, acc: Acc, steamUserId: string, responses: map<int, HttpResponse>, now: int) {
    KeepsRows(db0, acc.db) && InsertedRows(db0, acc.db, acc.insertedAll, steamUserId, responses, now)
  }

  /** An insert that writes a row: the row joins the inserted events. */
  lemma InsertNewRow(db0: StoreState, db: StoreState, ins: seq<UnlockEvent>, e: UnlockEvent, steamUserId: string,
                     responses: map<int, HttpResponse>, now: int)
    requires KeepsRows(db0, db) && InsertedRows(db0, db, ins, steamUserId, responses, now)
    requires FromProvider(e, steamUserId, responses, now)
    requires KeyOf(e) !in db.events
    ensures KeepsRows(db0, InsertEventIfNew(db, e).state)
    ensures InsertedRows(db0, InsertEventIfNew(db, e).state, ins + [e], steamUserId, responses, now)
  {
    StoredNewAppend(db0, db, ins, e);
    ProviderAppend(ins, e, steamUserId, responses, now);
    DistinctAppend(db, ins, e);
    CoveredAppend(db0, db, ins, e);
  }

  lemma StoredNewAppend(db0: StoreState, db: StoreState, ins: seq<UnlockEvent>, e: UnlockEvent)
    requires KeepsRows(db0, db) && StoredNew(db0, db, ins) && KeyOf(e) !in db.events
    ensures KeepsRows(db0, InsertEventIfNew(db, e).state) && StoredNew(db0, InsertEventIfNew(db, e).state, ins + [e])
  {
    var all := ins + [e];
    assert forall i :: 0 <= i < |ins| ==> all[i] == ins[i];
  }

  lemma ProviderAppend(ins: seq<UnlockEvent>, e: UnlockEvent, steamUserId: string, responses: map<int, HttpResponse>, now: int)
    requires AllFromProvider(ins, steamUserId, responses, now) && FromProvider(e, steamUserId, responses, now)
    ensures AllFromProvider(ins + [e], steamUserId, responses, now)
  {
    var all := ins + [e];
    assert forall i :: 0 <= i < |ins| ==> all[i] == ins[i];
  }

  lemma DistinctAppend(db: StoreState, ins: seq<UnlockEvent>, e: UnlockEvent)
    requires DistinctKeys(ins) && KeyOf(e) !in db.events
    requires forall i :: 0 <= i < |ins| ==> KeyOf(ins[i]) in db.events
    ensures DistinctKeys(ins + [e])
  {
    var all := ins + [e];
    assert forall i :: 0 <= i < |ins| ==> all[i] == ins[i];
  }

  lemma CoveredAppend(db0: StoreState, db: StoreState, ins: seq<UnlockEvent>, e: UnlockEvent)
    requires Covered(db0, db, ins)
    ensures Covered(db0, InsertEventIfNew(db, e).state, ins + [e])
  {
    var db' := InsertEventIfNew(db, e).state;
    var all := ins + [e];
    forall k | k in db'.events && k !in db0.events
      ensures exists i :: 0 <= i < |all| && KeyOf(all[i]) == k
    {
      if k == KeyOf(e) {
        assert KeyOf(all[|all| - 1]) == k;
      } else {
        var i :| 0 <= i < |ins| && KeyOf(ins[i]) == k;
        assert KeyOf(all[i]) == k;
      }
    }
  }

  lemma SameEvents(db0: StoreState, acc: Acc, acc': Acc, steamUserId: string, responses: map<int, HttpResponse>, now: int)
    requires EventsInv(db0, acc, steamUserId, responses, now)
    requires acc'.db.events == acc.db.events && acc'.insertedAll == acc.insertedAll
    ensures EventsInv(db0, acc', steamUserId, responses, now)
  {
  }

  lemma InsertStepEvents(db0: StoreState, inner: Inner, steamUserId: string, appId: int, a: SteamAchievement,
                         responses: map<int, HttpResponse>, now: int, cap: int)
    requires EventsInv(db0, inner.acc, steamUserId, responses, now)
    requires Fetch(responses, appId).Ok? && a in Unlocked(Fetch(responses, appId).value.achievements)
    ensures EventsInv(db0, InsertStep(inner, steamUserId, appId, a, now, cap).acc, steamUserId, responses, now)
  {
    if AchievedAt(a, now).Some? {
      var e := EventFor(steamUserId, appId, a, AchievedAt(a, now).value);
      var db := inner.acc.db;
      var next := InsertStep(inner, steamUserId, appId, a, now, cap).acc;
      if KeyOf(e) !in db.events {
        assert FromProvider(e, steamUserId, responses, now);
        InsertNewRow(db0, db, inner.acc.insertedAll, e, steamUserId, responses, now);
        assert next.db == InsertEventIfNew(db, e).state && next.insertedAll == inner.acc.insertedAll + [e];
      } else {
        SameEvents(db0, inner.acc, next, steamUserId, responses, now);
      }
    }
  }

  lemma {:induction false} InnerRunEvents(db0: StoreState, inner: Inner, steamUserId: string, appId: int,
                                          unl: seq<SteamAchievement>, responses: map<int, HttpResponse>, now: int, cap: int)
    requires EventsInv(db0, inner.acc, steamUserId, responses, now)
    requires Fetch(responses, appId).Ok?
    requires forall k :: 0 <= k < |unl| ==> unl[k] in Unlocked(Fetch(responses, appId).value.achievements)
    ensures EventsInv(db0, InnerRun(inner, steamUserId, appId, unl, now, cap).acc, steamUserId, responses, now)
    decreases |unl|
  {
    if unl != [] && !inner.threw {
      InsertStepEvents(db0, inner, steamUserId, appId, unl[0], responses, now, cap);
      assert forall k :: 0 <= k < |unl[1..]| ==> unl[1..][k] == unl[k + 1];
      InnerRunEvents(db0, InsertStep(inner, steamUserId, appId, unl[0], now, cap), steamUserId, appId, unl[1..],
                     responses, now, cap);
    }
  }

  /** The part of one game after a successful fetch keeps the invariant. */
  lemma AfterFetchEvents(db0: StoreState, a1: Acc, steamUserId: string, appId: int, pa: PlayerAchievements,
                         responses: map<int, HttpResponse>, now: int, cap: int)
    requires EventsInv(db0, a1, steamUserId, responses, now)
    requires Fetch(responses, appId) == Ok(pa)
    ensures EventsInv(db0, AfterFetch(a1, steamUserId, appId, pa, now, cap), steamUserId, responses, now)
  {
    var a2 := a1.(db := UpsertTotal(a1.db, appId, |pa.achievements|));
    SameEvents(db0, a1, a2, steamUserId, responses, now);
    var inner := InnerRun(Inner(a2, 0, false), steamUserId, appId, Unlocked(pa.achievements), now, cap);
    InnerRunEvents(db0, Inner(a2, 0, false), steamUserId, appId, Unlocked(pa.achievements), responses, now, cap);
    SameEvents(db0, inner.acc, FinishGame(inner, appId), steamUserId, responses, now);
  }

  lemma GameStepEvents(db0: StoreState, acc: Acc, steamUserId: string, g: OwnedGame,
                       responses: map<int, HttpResponse>, now: int, cap: int)
    requires EventsInv(db0, acc, steamUserId, responses, now)
    ensures EventsInv(db0, GameStep(acc, steamUserId, g, responses, now, cap), steamUserId, responses, now)
  {
    var a1 := Upserted(acc, g);
    SameEvents(db0, acc, a1, steamUserId, responses, now);
    match Fetch(responses, g.appid)
    case Err(_) =>
      SameEvents(db0, a1, RecordFailure(a1, g.appid), steamUserId, responses, now);
    case Ok(pa) =>
      AfterFetchEvents(db0, a1, steamUserId, g.appid, pa, responses, now, cap);
  }

  /** Over the whole loop: old rows are kept, and the rows added are exactly the inserted events. */
  lemma {:induction false} RunEvents(db0: StoreState, acc: Acc, steamUserId: string, sel: seq<OwnedGame>,
                                     responses: map<int, HttpResponse>, now: int, cap: int)
    requires EventsInv(db0, acc, steamUserId, responses, now)
    ensures EventsInv(db0, Run(acc, steamUserId, sel, responses, now, cap), steamUserId, responses, now)
    decreases |sel|
  {
    if sel != [] {
      GameStepEvents(db0, acc, steamUserId, sel[0], responses, now, cap);
      RunEvents(db0, GameStep(acc, steamUserId, sel[0], responses, now, cap), steamUserId, sel[1..], responses, now, cap);
    }
  }

  // ---------------------------------------------------------------------------
  // The keys written, and a second run

  /** The keys one game's inner loop tries to insert: up to the first time that cannot be formatted. */
  function AttemptedIn(steamUserId: string, appId: int, unl: seq<SteamAchievement>, now: int): seq<EventKey>
    decreases |unl|
  {
    if unl == [] || AchievedAt(unl[0], now).None? then []
    else [EventKey(steamUserId, appId, unl[0].apiname)] + AttemptedIn(steamUserId, appId, unl[1..], now)
  }

  function GameAttempted(steamUserId: string, g: OwnedGame, responses: map<int, HttpResponse>, now: int): seq<EventKey> {
    match Fetch(responses, g.appid)
    case Err(_) => []
    case Ok(pa) => AttemptedIn(steamUserId, g.appid, Unlocked(pa.achievements), now)
  }

  /** The keys a run tries to insert, in order; none of them depends on the store. */
  function Attempted(steamUserId: string, sel: seq<OwnedGame>, responses: map<int, HttpResponse>, now: int): seq<EventKey>
    decreases |sel|
  {
    if sel == [] then [] else GameAttempted(steamUserId, sel[0], responses, now) + Attempted(steamUserId, sel[1..], responses, now)
  }

  function KeySet(s: seq<EventKey>): set<EventKey> {
    set k | k in s
  }

  lemma KeySetAppend(a: seq<EventKey>, b: seq<EventKey>)
    ensures KeySet(a + b) == KeySet(a) + KeySet(b)
  {
  }

  /** The inner loop adds exactly the keys it attempts (an existing key is left, a new one added). */
  lemma {:induction false} InnerRunKeys(inner: Inner, steamUserId: string, appId: int, unl: seq<SteamAchievement>,
                                        now: int, cap: int)
    requires !inner.threw
    ensures InnerRun(inner, steamUserId, appId, unl, now, cap).acc.db.events.Keys
         == inner.acc.db.events.Keys + KeySet(AttemptedIn(steamUserId, appId, unl, now))
    decreases |unl|
  {
    if unl != [] {
      var next := InsertStep(inner, steamUserId, appId, unl[0], now, cap);
      if AchievedAt(unl[0], now).Some? {
        InnerRunKeys(next, steamUserId, appId, unl[1..], now, cap);
        KeySetAppend([EventKey(steamUserId, appId, unl[0].apiname)], AttemptedIn(steamUserId, appId, unl[1..], now));
      }
    }
  }

  /** When every attempted key is already stored, the inner loop inserts nothing. */
  lemma {:induction false} InnerRunNothingNew(inner: Inner, steamUserId: string, appId: int, unl: seq<SteamAchievement>,
                                              now: int, cap: int)
    requires KeySet(AttemptedIn(steamUserId, appId, unl, now)) <= inner.acc.db.events.Keys
    ensures InnerRun(inner, steamUserId, appId, unl, now, cap).acc.newUnlocksInserted == inner.acc.newUnlocksInserted
    ensures InnerRun(inner, steamUserId, appId, unl, now, cap).forApp == inner.forApp
    decreases |unl|
  {
    if unl != [] && !inner.threw && AchievedAt(unl[0], now).Some? {
      var next := InsertStep(inner, steamUserId, appId, unl[0], now, cap);
      KeySetAppend([EventKey(steamUserId, appId, unl[0].apiname)], AttemptedIn(steamUserId, appId, unl[1..], now));
      InnerRunNothingNew(next, steamUserId, appId, unl[1..], now, cap);
    }
  }

  lemma GameStepKeys(acc: Acc, steamUserId: string, g: OwnedGame, responses: map<int, HttpResponse>, now: int, cap: int)
    ensures GameStep(acc, steamUserId, g, responses, now, cap).db.events.Keys
         == acc.db.events.Keys + KeySet(GameAttempted(steamUserId, g, responses, now))
    ensures KeySet(GameAttempted(steamUserId, g, responses, now)) <= acc.db.events.Keys ==>
      GameStep(acc, steamUserId, g, responses, now, cap).newUnlocksInserted == acc.newUnlocksInserted
  {
    match Fetch(responses, g.appid)
    case Err(_) =>
    case Ok(pa) =>
      var a1 := Upserted(acc, g);
      var a2 := a1.(db := UpsertTotal(a1.db, g.appid, |pa.achievements|));
      InnerRunKeys(Inner(a2, 0, false), steamUserId, g.appid, Unlocked(pa.achievements), now, cap);
      if KeySet(GameAttempted(steamUserId, g, responses, now)) <= acc.db.events.Keys {
        InnerRunNothingNew(Inner(a2, 0, false), steamUserId, g.appid, Unlocked(pa.achievements), now, cap);
      }
  }

  /** A run adds exactly the attempted keys to the store (an existing key is left as it is). */
  lemma {:induction false} RunKeys(acc: Acc, steamUserId: string, sel: seq<OwnedGame>,
                                   responses: map<int, HttpResponse>, now: int, cap: int)
    ensures Run(acc, steamUserId, sel, responses, now, cap).db.events.Keys
         == acc.db.events.Keys + KeySet(Attempted(steamUserId, sel, responses, now))
    decreases |sel|
  {
    if sel != [] {
      KeySetAppend(GameAttempted(steamUserId, sel[0], responses, now), Attempted(steamUserId, sel[1..], responses, now));
      GameStepKeys(acc, steamUserId, sel[0], responses, now, cap);
      RunKeys(GameStep(acc, steamUserId, sel[0], responses, now, cap), steamUserId, sel[1..], responses, now, cap);
    }
  }

  /** A run whose attempted keys are all stored already inserts nothing. */
  lemma {:induction false} RunNothingNew(acc: Acc, steamUserId: string, sel: seq<OwnedGame>,
                                         responses: map<int, HttpResponse>, now: int, cap: int)
    requires KeySet(Attempted(steamUserId, sel, responses, now)) <= acc.db.events.Keys
    ensures Run(acc, steamUserId, sel, responses, now, cap).newUnlocksInserted == acc.newUnlocksInserted
    decreases |sel|
  {
    if sel != [] {
      KeySetAppend(GameAttempted(steamUserId, sel[0], responses, now), Attempted(steamUserId, sel[1..], responses, now));
      GameStepKeys(acc, steamUserId, sel[0], responses, now, cap);
      RunNothingNew(GameStep(acc, steamUserId, sel[0], responses, now, cap), steamUserId, sel[1..], responses, now, cap);
    }
  }

  /** The attempted keys depend on the clock only through whether it can be formatted. */
  lemma {:induction false} AttemptedInClock(steamUserId: string, appId: int, unl: seq<SteamAchievement>, now1: int, now2: int)
    requires ValidTime(now1) <==> ValidTime(now2)
    ensures AttemptedIn(steamUserId, appId, unl, now1) == AttemptedIn(steamUserId, appId, unl, now2)
    decreases |unl|
  {
    if unl != [] {
      AttemptedInClock(steamUserId, appId, unl[1..], now1, now2);
    }
  }

  lemma {:induction false} AttemptedClock(steamUserId: string, sel: seq<OwnedGame>, responses: map<int, HttpResponse>,
                                          now1: int, now2: int)
    requires ValidTime(now1) <==> ValidTime(now2)
    ensures Attempted(steamUserId, sel, responses, now1) == Attempted(steamUserId, sel, responses, now2)
    decreases |sel|
  {
    if sel != [] {
      if Fetch(responses, sel[0].appid).Ok? {
        AttemptedInClock(steamUserId, sel[0].appid, Unlocked(Fetch(responses, sel[0].appid).value.achievements), now1, now2);
      }
      AttemptedClock(steamUserId, sel[1..], responses, now1, now2);
    }
  }

  // ---------------------------------------------------------------------------
  // A whole sync run

  /** The games a run on `owned` walks: ranked by playtime, then cut to `STEAM_MAX_GAMES`. */
  function Selected(env: Env, owned: seq<OwnedGame>): seq<OwnedGame> {
    Select(Ranked(owned), MaxGames(env))
  }

  /** A run fails exactly when the user id is missing or the owned-games request fails, and the id is checked first. */
  lemma SyncFailures(env: Env, owned: Result<seq<OwnedGame>, ProviderError>, responses: map<int, HttpResponse>,
                     now: int, db: StoreState)
    ensures SyncSpec(env, owned, responses, now, db).Err? <==> SteamUserId(env).None? || owned.Err?
    ensures SteamUserId(env).None? ==> SyncSpec(env, owned, responses, now, db) == Err(MissingSteamUserId)
    ensures SteamUserId(env).Some? && owned.Err? ==> SyncSpec(env, owned, responses, now, db) == Err(OwnedGamesFailed(owned.error))
  {
  }

  /** The counts of a successful run's summary: every selected game is processed. */
  lemma SyncCountFacts(env: Env, owned: Result<seq<OwnedGame>, ProviderError>, responses: map<int, HttpResponse>,
                       now: int, db: StoreState)
    requires SyncSpec(env, owned, responses, now, db).Ok?
    ensures var s := SyncSpec(env, owned, responses, now, db).value.summary;
      var sel := Selected(env, owned.value);
      && s.maxGames == MaxGames(env)
      && s.gamesConsidered == |owned.value|
      && s.effectiveMaxGames == |sel|
      && s.effectiveMaxGames == (if MaxGames(env) <= 0 || MaxGames(env) >= |owned.value| then |owned.value| else MaxGames(env))
      && s.gamesProcessed == |sel|
  {
    var sel := Selected(env, owned.value);
    var cap := MaxNewEvents(env);
    StartSamples(db, cap);
    RunSamples(StartAcc(db), SteamUserId(env).value, sel, responses, now, cap);
  }

  /** The failure count and the three samples of a successful run's summary. */
  lemma SyncSampleFacts(env: Env, owned: Result<seq<OwnedGame>, ProviderError>, responses: map<int, HttpResponse>,
                        now: int, db: StoreState)
    requires SyncSpec(env, owned, responses, now, db).Ok?
    ensures var s := SyncSpec(env, owned, responses, now, db).value.summary;
      var failed := FailedIds(Selected(env, owned.value), responses, now);
      && s.apiFailures == |failed|
      && s.failedAppIdsSample == failed[..Min(|failed|, FailedSampleCap)]
      && |s.newUnlocksInsertedPerAppSample| <= PerAppSampleCap
      && (forall k :: 0 <= k < |s.newUnlocksInsertedPerAppSample| ==> s.newUnlocksInsertedPerAppSample[k].inserted > 0)
      && |s.newEventsSample| == Min(s.newUnlocksInserted, Max(0, MaxNewEvents(env)))
  {
    var id := SteamUserId(env).value;
    var sel := Selected(env, owned.value);
    var cap := MaxNewEvents(env);
    var acc := Run(StartAcc(db), id, sel, responses, now, cap);
    assert SyncSpec(env, owned, responses, now, db).value.summary
        == SyncSummary(MaxGames(env), |sel|, |owned.value|, acc.gamesProcessed, acc.apiFailures, acc.failedSample,
                       acc.newUnlocksInserted, acc.perAppSample, acc.newEvents);
    StartSamples(db, cap);
    RunSamples(StartAcc(db), id, sel, responses, now, cap);
    RunFailures(StartAcc(db), id, sel, responses, now, cap);
    assert acc.failedAll == FailedIds(sel, responses, now);
  }

  /**
   * The events of a successful run: `insertedAll` lists the inserts that
   * returned true, in order; `newUnlocksInserted` counts them and the sample
   * is their prefix; each is a new row stored as given, built from an
   * unlocked achievement, with a key of its own; the store gained exactly
   * those rows and lost or changed none.
   */
  lemma SyncEventsFacts(env: Env, owned: Result<seq<OwnedGame>, ProviderError>, responses: map<int, HttpResponse>,
                        now: int, db: StoreState)
    requires SyncSpec(env, owned, responses, now, db).Ok?
    ensures var out := SyncSpec(env, owned, responses, now, db).value;
      var id := SteamUserId(env).value;
      var ins := Run(StartAcc(db), id, Selected(env, owned.value), responses, now, MaxNewEvents(env)).insertedAll;
      && out.summary.newUnlocksInserted == |ins|
      && out.summary.newEventsSample == ins[..Min(|ins|, Max(0, MaxNewEvents(env)))]
      && KeepsRows(db, out.db)
      && InsertedRows(db, out.db, ins, id, responses, now)
  {
    var id := SteamUserId(env).value;
    var sel := Selected(env, owned.value);
    var cap := MaxNewEvents(env);
    StartSamples(db, cap);
    RunSamples(StartAcc(db), id, sel, responses, now, cap);
    RunEvents(db, StartAcc(db), id, sel, responses, now, cap);
  }

  /** The game and total rows of a successful run. */
  lemma SyncTablesFacts(env: Env, owned: Result<seq<OwnedGame>, ProviderError>, responses: map<int, HttpResponse>,
                        now: int, db: StoreState)
    requires SyncSpec(env, owned, responses, now, db).Ok?
    ensures var out := SyncSpec(env, owned, responses, now, db).value;
      var sel := Selected(env, owned.value);
      && out.db.games == GamesAfter(db.games, sel)
      && out.db.totals == TotalsAfter(db.totals, sel, responses)
      && out.db.events.Keys == db.events.Keys + KeySet(Attempted(SteamUserId(env).value, sel, responses, now))
  {
    var id := SteamUserId(env).value;
    var sel := Selected(env, owned.value);
    RunTables(StartAcc(db), id, sel, responses, now, MaxNewEvents(env));
    RunKeys(StartAcc(db), id, sel, responses, now, MaxNewEvents(env));
  }

  /**
   * Running again against the same configuration and provider data, on the
   * store the first run left, inserts nothing, even at another clock reading
   * (as long as both readings can be formatted, or neither).
   */
  lemma SyncTwiceInsertsNothing(env: Env, owned: Result<seq<OwnedGame>, ProviderError>, responses: map<int, HttpResponse>,
                                now: int, now2: int, db: StoreState)
    requires SyncSpec(env, owned, responses, now, db).Ok?
    requires ValidTime(now) <==> ValidTime(now2)
    ensures var again := SyncSpec(env, owned, responses, now2, SyncSpec(env, owned, responses, now, db).value.db);
      again.Ok? && again.value.summary.newUnlocksInserted == 0
  {
    var id := SteamUserId(env).value;
    var sel := Selected(env, owned.value);
    var cap := MaxNewEvents(env);
    var db1 := SyncSpec(env, owned, responses, now, db).value.db;
    RunKeys(StartAcc(db), id, sel, responses, now, cap);
    AttemptedClock(id, sel, responses, now, now2);
    RunNothingNew(StartAcc(db1), id, sel, responses, now2, cap);
  }
}
