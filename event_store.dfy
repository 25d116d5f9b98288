/**
 * The tables the reconciler writes: `achievement_events` (insert-or-ignore on
 * the triple user/app/key), `games` and `game_achievement_totals` (both
 * last-writer-wins upserts keyed on the app id).
 */
module EventStore {
  import opened Wrappers

  /** The uniqueness key of `achievement_events`. */
  datatype EventKey = EventKey(steamUserId: string, appId: int, achievementKey: string)

  /** An unlock event as handed to the insert; `achievedAt` is in epoch milliseconds. */
  datatype UnlockEvent = UnlockEvent(
    steamUserId: string,
    appId: int,
    achievementKey: string,
    achievementName: Option<string>,
    achievedAt: int)

  /** The non-key columns of a stored event; a missing name is stored as null (None). */
  datatype EventRow = EventRow(achievementName: Option<string>, achievedAt: int)

  /** The non-key columns of `games`. */
  datatype GameRow = GameRow(name: Option<string>, playtimeForever: int)

  /** The three tables, each keyed on its unique constraint. */
  datatype StoreState = StoreState(
    games: map<int, GameRow>,
    totals: map<int, int>,
    events: map<EventKey, EventRow>)

  const EmptyStore := StoreState(map[], map[], map[])

  function KeyOf(e: UnlockEvent): EventKey {
    EventKey(e.steamUserId, e.appId, e.achievementKey)
  }

  function RowOf(e: UnlockEvent): EventRow {
    EventRow(e.achievementName, e.achievedAt)
  }

  datatype InsertResult = InsertResult(state: StoreState, inserted: bool)

  /**
   * `insertAchievementEvent`: adds the row when its triple is new and reports
   * whether it did; an existing row for the triple is left as it is.
   */
  function InsertEventIfNew(s: StoreState, e: UnlockEvent): (r: InsertResult)
    ensures r.inserted <==> KeyOf(e) !in s.events
    ensures r.state.events.Keys == s.events.Keys + {KeyOf(e)}
    ensures r.inserted ==> r.state.events[KeyOf(e)] == RowOf(e)
    ensures forall k :: k in s.events ==> r.state.events[k] == s.events[k]
    ensures r.state.games == s.games && r.state.totals == s.totals
  {
    if KeyOf(e) in s.events then InsertResult(s, false)
    else InsertResult(s.(events := s.events[KeyOf(e) := RowOf(e)]), true)
  }

  /** The same triple twice: new the first time, not the second, and one row with the first call's values. */
  lemma InsertTwice(s: StoreState, e1: UnlockEvent, e2: UnlockEvent)
    requires KeyOf(e1) == KeyOf(e2) && KeyOf(e1) !in s.events
    ensures InsertEventIfNew(s, e1).inserted
    ensures !InsertEventIfNew(InsertEventIfNew(s, e1).state, e2).inserted
    ensures InsertEventIfNew(InsertEventIfNew(s, e1).state, e2).state.events[KeyOf(e1)] == RowOf(e1)
    ensures |InsertEventIfNew(InsertEventIfNew(s, e1).state, e2).state.events| == |s.events| + 1
  {
    var s1 := InsertEventIfNew(s, e1).state;
    assert s1.events.Keys == s.events.Keys + {KeyOf(e1)};
  }

  /** `upsertGame`: the row for `appId` becomes `row`; other games are untouched. */
  function UpsertGame(s: StoreState, appId: int, row: GameRow): (r: StoreState)
    ensures r.games.Keys == s.games.Keys + {appId} && r.games[appId] == row
    ensures forall a :: a in s.games && a != appId ==> r.games[a] == s.games[a]
    ensures r.totals == s.totals && r.events == s.events
  {
    s.(games := s.games[appId := row])
  }

  /** `upsertGameAchievementTotal`: the total for `appId` becomes `total`; other totals are untouched. */
  function UpsertTotal(s: StoreState, appId: int, total: int): (r: StoreState)
    ensures r.totals.Keys == s.totals.Keys + {appId} && r.totals[appId] == total
    ensures forall a :: a in s.totals && a != appId ==> r.totals[a] == s.totals[a]
    ensures r.games == s.games && r.events == s.events
  {
    s.(totals := s.totals[appId := total])
  }

  /** Two upserts of one game leave its name and playtime as the second set them; repeating an upsert leaves them as they are. */
  lemma UpsertGameLastWriterWins(s: StoreState, appId: int, row1: GameRow, row2: GameRow)
    ensures UpsertGame(UpsertGame(s, appId, row1), appId, row2) == UpsertGame(s, appId, row2)
    ensures UpsertGame(UpsertGame(s, appId, row2), appId, row2) == UpsertGame(s, appId, row2)
  {
  }

  /** Two upserts of one total leave it as the second set it; repeating an upsert leaves it as it is. */
  lemma UpsertTotalLastWriterWins(s: StoreState, appId: int, t1: int, t2: int)
    ensures UpsertTotal(UpsertTotal(s, appId, t1), appId, t2) == UpsertTotal(s, appId, t2)
    ensures UpsertTotal(UpsertTotal(s, appId, t2), appId, t2) == UpsertTotal(s, appId, t2)
  {
  }

  /** The database tables the core writes, updated in place. */
  class Store {
    var games: map<int, GameRow>
    var totals: map<int, int>
    var events: map<EventKey, EventRow>

    function State(): StoreState
      reads this
    {
      StoreState(games, totals, events)
    }

    constructor (initial: StoreState)
      ensures State() == initial
    {
      games, totals, events := initial.games, initial.totals, initial.events;
    }

    /** `insertAchievementEvent`: true only when a new row was written. */
    method InsertAchievementEvent(e: UnlockEvent) returns (inserted: bool)
      modifies this
      ensures inserted <==> KeyOf(e) !in old(events)
      ensures InsertResult(State(), inserted) == InsertEventIfNew(old(State()), e)
    {
      var key := KeyOf(e);
      inserted := key !in events;
      if inserted {
        events := events[key := RowOf(e)];
      }
    }

    /** `upsertGame`. */
    method UpsertGameRow(appId: int, name: Option<string>, playtimeForever: int)
      modifies this
      ensures State() == UpsertGame(old(State()), appId, GameRow(name, playtimeForever))
    {
      games := games[appId := GameRow(name, playtimeForever)];
    }

    /** `upsertGameAchievementTotal`. */
    method UpsertGameAchievementTotal(appId: int, totalAchievements: int)
      modifies this
      ensures State() == UpsertTotal(old(State()), appId, totalAchievements)
    {
      totals := totals[appId := totalAchievements];
    }
  }
}
