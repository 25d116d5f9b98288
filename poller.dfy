/**
 * The poll cycle and the debug handlers of the server: `runPollOnce` (sync,
 * then one webhook fan-out per new event, errors swallowed), the
 * `/debug/steam/poll-once` handler, the `/debug/seed` handler, the owned-games
 * summary and the background poller as a bounded sequence of cycles.
 *
 * The network is an input: `net(k, j)` is how the request of the `k`-th
 * fan-out of a cycle to its `j`-th target settled. Every fan-out reads the
 * registered targets from the `TargetTable`, as `sendAchievementWebhooks`
 * does through `listWebhookTargets`.
 */
module Poller {
  import opened Wrappers
  import opened JsText
  import opened Config
  import opened SteamClient
  import opened EventStore
  import opened Ranking
  import opened Reconciler
  import opened ReconcilerProps
  import opened WebhookRegistry
  import opened Notifier

  type Network = (int, int) -> Settled

  /** `{ type: "achievement_unlocked", ...ev }`. */
  function PayloadOf(e: UnlockEvent): (p: Payload)
    ensures p.eventType == EventType
    ensures p.steamUserId == e.steamUserId && p.appId == e.appId && p.achievementKey == e.achievementKey
    ensures p.achievementName == e.achievementName && p.achievedAt == e.achievedAt
  {
    Payload(EventType, e.steamUserId, e.appId, e.achievementKey, e.achievementName, e.achievedAt)
  }

  /** How the `k`-th fan-out's requests to the targets settled. */
  function SettledFor(net: Network, k: int, n: nat): (r: seq<Settled>)
    ensures |r| == n
  {
    seq(n, j => net(k, j))
  }

  /** The `k`-th fan-out of a cycle, for the `k`-th event to send. */
  function SendFor(events: seq<UnlockEvent>, k: nat, targets: seq<TargetRef>, net: Network): Sent
    requires k < |events|
  {
    SendAchievementWebhooks(PayloadOf(events[k]), targets, SettledFor(net, k, |targets|))
  }

  /** All fan-outs of a cycle, one per event, in order. */
  function Notifications(events: seq<UnlockEvent>, targets: seq<TargetRef>, net: Network): (r: seq<Sent>)
    ensures |r| == |events|
    ensures forall k :: 0 <= k < |events| ==> r[k] == SendFor(events, k, targets, net)
  {
    seq(|events|, k requires 0 <= k < |events| => SendFor(events, k, targets, net))
  }

  /** Every request of a cycle carries the payload of its own event and goes to one of the targets. */
  lemma NotificationsCarryEvents(events: seq<UnlockEvent>, targets: seq<TargetRef>, net: Network, k: nat)
    requires k < |events|
    ensures var s := Notifications(events, targets, net)[k];
      |s.requests| == |targets|
      && forall j :: 0 <= j < |targets| ==>
           s.requests[j].body == PayloadOf(events[k]) && s.requests[j].body.eventType == "achievement_unlocked"
           && s.requests[j].url == targets[j].url
  {
  }

  /**
   * The loop `for (const ev of eventsToSend) await sendAchievementWebhooks(...)`:
   * one fan-out per event, in order.
   */
  method NotifyAll(events: seq<UnlockEvent>, table: TargetTable, net: Network) returns (sent: seq<Sent>)
    requires Valid(table.State())
    ensures sent == Notifications(events, ListTargets(table.rows), net)
  {
    sent := [];
    var k := 0;
    while k < |events|
      invariant 0 <= k <= |events|
      invariant |sent| == k
      invariant forall i :: 0 <= i < k ==> sent[i] == SendFor(events, i, ListTargets(table.rows), net)
    {
      var targets := table.ListWebhookTargets();
      var d := SendAchievementWebhooks(PayloadOf(events[k]), targets, SettledFor(net, k, |targets|));
      sent := sent + [d];
      k := k + 1;
    }
  }

  // ---------------------------------------------------------------------------
  // runPollOnce

  /** What a cycle logs: the counts of a completed cycle, or the error it caught. */
  datatype CycleLog = CycleOk(gamesProcessed: nat, newUnlocksInserted: nat, webhooksSent: nat) | CycleFailed(error: RunError)

  datatype CycleOutcome = CycleOutcome(log: CycleLog, sent: seq<Sent>, db: StoreState)

  /**
   * The provider data, clock and network of one cycle, and the urls that
   * `POST /webhooks` registered since the previous cycle, in arrival order.
   */
  datatype PollInput = PollInput(
    registered: seq<string>,
    owned: Result<seq<OwnedGame>, ProviderError>,
    responses: map<int, HttpResponse>,
    now: int,
    net: Network)

  /** One cycle on a store in state `db`: a failing sync is logged and nothing is sent. */
  function PollSpec(env: Env, input: PollInput, targets: seq<TargetRef>, db: StoreState): (r: CycleOutcome)
  {
    match SyncSpec(env, input.owned, input.responses, input.now, db)
    case Err(e) => CycleOutcome(CycleFailed(e), [], db)
    case Ok(out) =>
      var events := out.summary.newEventsSample;
      CycleOutcome(CycleOk(out.summary.gamesProcessed, out.summary.newUnlocksInserted, |events|),
                   Notifications(events, targets, input.net), out.db)
  }

  /**
   * A cycle fails exactly when the sync does, and then sends nothing and
   * leaves the store as it was; otherwise it sends one fan-out per event of
   * the sync's sample and logs how many.
   */
  lemma PollSpecFacts(env: Env, input: PollInput, targets: seq<TargetRef>, db: StoreState)
    ensures var sync := SyncSpec(env, input.owned, input.responses, input.now, db);
      var r := PollSpec(env, input, targets, db);
      && (r.log.CycleFailed? <==> sync.Err?)
      && (sync.Err? ==> r.log == CycleFailed(sync.error) && r.sent == [] && r.db == db)
      && (sync.Ok? ==> r.db == sync.value.db && |r.sent| == |sync.value.summary.newEventsSample|
                       && r.log.webhooksSent == |r.sent|)
  {
  }

  /**
   * `runPollOnce` against `store`: it always completes, with the log line and
   * the fan-outs `PollSpec` gives.
   */
  method RunPollOnce(env: Env, input: PollInput, table: TargetTable, store: Store) returns (log: CycleLog, sent: seq<Sent>)
    requires Valid(table.State())
    modifies store
    ensures CycleOutcome(log, sent, store.State()) == PollSpec(env, input, ListTargets(table.rows), old(store.State()))
  {
    var r := SyncSteamAchievements(env, input.owned, input.responses, input.now, store);
    if r.Err? {
      return CycleFailed(r.error), [];
    }
    var summary := r.value;
    var eventsToSend := summary.newEventsSample;
    sent := NotifyAll(eventsToSend, table, input.net);
    log := CycleOk(summary.gamesProcessed, summary.newUnlocksInserted, |eventsToSend|);
  }

  /**
   * A completed cycle sends for the events of the summary's sample exactly,
   * at most as many as it inserted, each fan-out carrying an event that was
   * newly inserted by this cycle.
   */
  lemma PollSendsOnlyNewEvents(env: Env, input: PollInput, targets: seq<TargetRef>, db: StoreState)
    requires SyncSpec(env, input.owned, input.responses, input.now, db).Ok?
    ensures var out := SyncSpec(env, input.owned, input.responses, input.now, db).value;
      var c := PollSpec(env, input, targets, db);
      && c.log.CycleOk?
      && c.log.webhooksSent <= out.summary.newUnlocksInserted
      && forall k :: 0 <= k < |c.sent| ==>
           var e := out.summary.newEventsSample[k];
           KeyOf(e) !in db.events && KeyOf(e) in out.db.events
           && c.sent[k] == SendAchievementWebhooks(PayloadOf(e), targets, SettledFor(input.net, k, |targets|))
  {
    var out := SyncSpec(env, input.owned, input.responses, input.now, db).value;
    SyncSampleFacts(env, input.owned, input.responses, input.now, db);
    SyncEventsFacts(env, input.owned, input.responses, input.now, db);
    var ins := Run(StartAcc(db), SteamUserId(env).value, Selected(env, input.owned.value), input.responses, input.now,
                   MaxNewEvents(env)).insertedAll;
    assert forall k :: 0 <= k < |out.summary.newEventsSample| ==> out.summary.newEventsSample[k] == ins[k];
  }

  /**
   * Two cycles in a row with the same provider data (and clocks that are
   * both valid or both not): the second inserts nothing and sends nothing.
   */
  lemma SecondCycleSendsNothing(env: Env, input: PollInput, now2: int, net2: Network, targets: seq<TargetRef>, db: StoreState)
    requires ValidTime(input.now) <==> ValidTime(now2)
    ensures var first := PollSpec(env, input, targets, db);
      var second := PollSpec(env, input.(now := now2, net := net2), targets, first.db);
      second.sent == [] && (second.log.CycleOk? ==> second.log.newUnlocksInserted == 0)
  {
    var sync := SyncSpec(env, input.owned, input.responses, input.now, db);
    if sync.Ok? {
      SyncTwiceInsertsNothing(env, input.owned, input.responses, input.now, now2, db);
      SyncSampleFacts(env, input.owned, input.responses, now2, sync.value.db);
    }
  }

  // ---------------------------------------------------------------------------
  // The background poller

  /** `ENABLE_POLLER`, on unless set to something other than 1/true/yes. */
  function PollerEnabled(env: Env): bool {
    EnvBool(env, "ENABLE_POLLER", true)
  }

  /** The registry a cycle runs against and the cycle's outcome. */
  datatype PollerCycle = PollerCycle(registry: Registry, outcome: CycleOutcome)

  /**
   * One cycle of a running poller: the registrations that arrived since the
   * previous cycle are applied, then the cycle runs on the targets listed.
   */
  function CycleStep(env: Env, input: PollInput, db: StoreState, reg: Registry): PollerCycle {
    var reg' := AddAll(reg, input.registered, input.now);
    PollerCycle(reg', PollSpec(env, input, ListTargets(reg'.rows), db))
  }

  /**
   * The cycles of a poller that runs, one per input: those of all inputs but
   * the last, then the last one on the store and registry they left.
   */
  function PollerSpec(env: Env, inputs: seq<PollInput>, db: StoreState, reg: Registry): (r: seq<PollerCycle>)
    ensures |r| == |inputs|
    decreases |inputs|, 1
  {
    if inputs == [] then [] else PollerSpec(env, inputs[..|inputs| - 1], db, reg) + [LastCycle(env, inputs, db, reg)]
  }

  /** The cycle of the last input, run where the cycles before it left the store and the registry. */
  function LastCycle(env: Env, inputs: seq<PollInput>, db: StoreState, reg: Registry): PollerCycle
    requires inputs != []
    decreases |inputs|, 0
  {
    var n := |inputs| - 1;
    var before := PollerSpec(env, inputs[..n], db, reg);
    CycleStep(env, inputs[n], DbBefore(before, db, n), RegistryBefore(before, reg, n))
  }

  /** The store a poller cycle starts on: the initial one, or the one the previous cycle left. */
  function DbBefore(spec: seq<PollerCycle>, db: StoreState, k: nat): StoreState
    requires k <= |spec|
  {
    if k == 0 then db else spec[k - 1].outcome.db
  }

  /** The registry a poller cycle starts on, before its own registrations. */
  function RegistryBefore(spec: seq<PollerCycle>, reg: Registry, k: nat): Registry
    requires k <= |spec|
  {
    if k == 0 then reg else spec[k - 1].registry
  }

  /** The cycles of the first `m` inputs are the first `m` cycles: a later input does not change an earlier cycle. */
  lemma {:induction false} PollerSpecPrefix(env: Env, inputs: seq<PollInput>, db: StoreState, reg: Registry, m: nat)
    requires m <= |inputs|
    ensures PollerSpec(env, inputs[..m], db, reg) == PollerSpec(env, inputs, db, reg)[..m]
    decreases |inputs|
  {
    if m < |inputs| {
      var n := |inputs| - 1;
      PollerSpecPrefix(env, inputs[..n], db, reg, m);
      assert inputs[..n][..m] == inputs[..m];
    } else {
      assert inputs[..m] == inputs;
    }
  }

  /** Cycle `k` is one `CycleStep` from what cycle `k - 1` left, the first one from the initial store and registry. */
  lemma PollerSpecFacts(env: Env, inputs: seq<PollInput>, db: StoreState, reg: Registry, k: nat)
    requires k < |inputs|
    ensures var spec := PollerSpec(env, inputs, db, reg);
      spec[k] == CycleStep(env, inputs[k], DbBefore(spec, db, k), RegistryBefore(spec, reg, k))
  {
    var spec := PollerSpec(env, inputs, db, reg);
    var upto := inputs[..k + 1];
    PollerSpecPrefix(env, inputs, db, reg, k + 1);
    PollerSpecPrefix(env, inputs, db, reg, k);
    assert upto[..k] == inputs[..k] && upto[k] == inputs[k];
    assert spec[k] == PollerSpec(env, upto, db, reg)[k] == LastCycle(env, upto, db, reg);
  }

  /**
   * Every fan-out of a cycle goes to the targets registered at that cycle:
   * one request per registered row, in id order, to that row's url.
   */
  lemma PollerSendsToRegistered(env: Env, inputs: seq<PollInput>, db: StoreState, reg: Registry, k: nat, i: nat)
    requires k < |inputs|
    requires i < |PollerSpec(env, inputs, db, reg)[k].outcome.sent|
    ensures var c := PollerSpec(env, inputs, db, reg)[k];
      var s := c.outcome.sent[i];
      |s.requests| == |c.registry.rows|
      && forall j :: 0 <= j < |s.requests| ==> s.requests[j].url == c.registry.rows[j].url
  {
    var spec := PollerSpec(env, inputs, db, reg);
    var c := spec[k];
    var prev := DbBefore(spec, db, k);
    PollerSpecFacts(env, inputs, db, reg, k);
    var targets := ListTargets(c.registry.rows);
    assert c.outcome == PollSpec(env, inputs[k], targets, prev);
    var sync := SyncSpec(env, inputs[k].owned, inputs[k].responses, inputs[k].now, prev);
    assert sync.Ok? && c.outcome.sent == Notifications(sync.value.summary.newEventsSample, targets, inputs[k].net);
  }

  /** The registry only grows from cycle to cycle, and a url registered before cycle `k` is in every later registry. */
  lemma {:induction false} RegistrationPersists(env: Env, inputs: seq<PollInput>, db: StoreState, reg: Registry,
                                                k: nat, m: nat, url: string)
    requires k <= m < |inputs| && url in inputs[k].registered
    ensures HasUrl(PollerSpec(env, inputs, db, reg)[m].registry.rows, url)
    decreases m
  {
    var spec := PollerSpec(env, inputs, db, reg);
    var before := RegistryBefore(spec, reg, m);
    PollerSpecFacts(env, inputs, db, reg, m);
    assert spec[m].registry == AddAll(before, inputs[m].registered, inputs[m].now);
    AddAllRegisters(before, inputs[m].registered, inputs[m].now);
    if m > k {
      RegistrationPersists(env, inputs, db, reg, k, m - 1, url);
      HasUrlExtended(before.rows, spec[m].registry.rows, url);
    }
  }

  /**
   * A url registered between cycles is delivered to from the next cycle on:
   * every later fan-out holds a request to it.
   */
  lemma RegisteredUrlIsNotified(env: Env, inputs: seq<PollInput>, db: StoreState, reg: Registry,
                                k: nat, m: nat, url: string, i: nat)
    requires k <= m < |inputs| && url in inputs[k].registered
    requires i < |PollerSpec(env, inputs, db, reg)[m].outcome.sent|
    ensures exists j :: 0 <= j < |PollerSpec(env, inputs, db, reg)[m].outcome.sent[i].requests|
                     && PollerSpec(env, inputs, db, reg)[m].outcome.sent[i].requests[j].url == url
  {
    var c := PollerSpec(env, inputs, db, reg)[m];
    RegistrationPersists(env, inputs, db, reg, k, m, url);
    PollerSendsToRegistered(env, inputs, db, reg, m, i);
    var j :| 0 <= j < |c.registry.rows| && c.registry.rows[j].url == url;
    assert c.outcome.sent[i].requests[j].url == url;
  }

  /** The `POST /webhooks` requests that arrive between two cycles, applied in order. */
  method ApplyRegistrations(table: TargetTable, urls: seq<string>, now: int)
    requires Valid(table.State())
    modifies table
    ensures Valid(table.State())
    ensures table.State() == AddAll(old(table.State()), urls, now)
  {
    ghost var reg0 := table.State();
    var k := 0;
    while k < |urls|
      invariant 0 <= k <= |urls|
      invariant Valid(table.State())
      invariant AddAll(table.State(), urls[k..], now) == AddAll(reg0, urls, now)
    {
      ghost var before := table.State();
      assert AddAll(before, urls[k..], now) == AddAll(AddTarget(before, urls[k], now).registry, urls[k + 1..], now) by {
        assert urls[k..][0] == urls[k] && urls[k..][1..] == urls[k + 1..];
      }
      var _ := table.AddWebhookTarget(urls[k], now);
      k := k + 1;
    }
    assert urls[k..] == [];
  }

  /** One tick of a running poller: the registrations since the previous tick, then one cycle. */
  method Tick(env: Env, input: PollInput, store: Store, table: TargetTable) returns (log: CycleLog, sent: seq<Sent>)
    requires Valid(table.State())
    modifies store, table
    ensures Valid(table.State())
    ensures PollerCycle(table.State(), CycleOutcome(log, sent, store.State()))
         == CycleStep(env, input, old(store.State()), old(table.State()))
  {
    ApplyRegistrations(table, input.registered, input.now);
    log, sent := RunPollOnce(env, input, table, store);
  }

  /** Tick `k` of a running poller, from where tick `k - 1` left the store and the table. */
  method TickAt(env: Env, inputs: seq<PollInput>, k: nat, ghost db0: StoreState, ghost reg0: Registry,
                ghost spec: seq<PollerCycle>, store: Store, table: TargetTable) returns (log: CycleLog, sent: seq<Sent>)
    requires spec == PollerSpec(env, inputs, db0, reg0)
    requires k < |inputs| && Valid(table.State())
    requires store.State() == DbBefore(spec, db0, k) && table.State() == RegistryBefore(spec, reg0, k)
    modifies store, table
    ensures Valid(table.State())
    ensures log == spec[k].outcome.log && sent == spec[k].outcome.sent
    ensures store.State() == spec[k].outcome.db && table.State() == spec[k].registry
  {
    PollerSpecFacts(env, inputs, db0, reg0, k);
    log, sent := Tick(env, inputs[k], store, table);
  }

  /**
   * The cycles of a running poller, one per input: the registrations since
   * the previous cycle are applied to `table`, then the cycle runs on `store`.
   */
  method RunCycles(env: Env, inputs: seq<PollInput>, store: Store, table: TargetTable, ghost spec: seq<PollerCycle>)
    returns (logs: seq<CycleLog>, sent: seq<seq<Sent>>)
    requires Valid(table.State())
    requires spec == PollerSpec(env, inputs, store.State(), table.State())
    modifies store, table
    ensures |logs| == |inputs| && |sent| == |inputs|
    ensures forall k :: 0 <= k < |inputs| ==> logs[k] == spec[k].outcome.log && sent[k] == spec[k].outcome.sent
    ensures |inputs| > 0 ==> store.State() == spec[|inputs| - 1].outcome.db && table.State() == spec[|inputs| - 1].registry
  {
    logs, sent := [], [];
    ghost var db0, reg0 := store.State(), table.State();
    var k := 0;
    while k < |inputs|
      invariant 0 <= k <= |inputs|
      invariant |logs| == k && |sent| == k
      invariant forall i :: 0 <= i < k ==> logs[i] == spec[i].outcome.log && sent[i] == spec[i].outcome.sent
      invariant Valid(table.State())
      invariant store.State() == DbBefore(spec, db0, k) && table.State() == RegistryBefore(spec, reg0, k)
    {
      var log, s := TickAt(env, inputs, k, db0, reg0, spec, store, table);
      logs, sent := logs + [log], sent + [s];
      k := k + 1;
    }
  }

  /**
   * The poller: nothing when disabled; otherwise a cycle at start-up and one
   * per interval after it, here one per input, in order.
   */
  method RunPoller(env: Env, inputs: seq<PollInput>, store: Store, table: TargetTable)
    returns (logs: seq<CycleLog>, sent: seq<seq<Sent>>)
    requires Valid(table.State())
    modifies store, table
    ensures !PollerEnabled(env) ==>
      logs == [] && sent == [] && store.State() == old(store.State()) && table.State() == old(table.State())
    ensures PollerEnabled(env) ==>
      var spec := PollerSpec(env, inputs, old(store.State()), old(table.State()));
      && |logs| == |inputs| && |sent| == |inputs|
      && (forall k :: 0 <= k < |inputs| ==> logs[k] == spec[k].outcome.log && sent[k] == spec[k].outcome.sent)
      && (|inputs| > 0 ==> store.State() == spec[|inputs| - 1].outcome.db && table.State() == spec[|inputs| - 1].registry)
  {
    if !EnvBool(env, "ENABLE_POLLER", true) {
      return [], [];
    }
    logs, sent := RunCycles(env, inputs, store, table, PollerSpec(env, inputs, store.State(), table.State()));
  }

  // ---------------------------------------------------------------------------
  // /debug/steam/poll-once

  const DeliveriesSampleCap: int := 10

  /** One entry of `deliveries`: the event's app and key, and its fan-out's report. */
  datatype EventDeliveries = EventDeliveries(appId: int, achievementKey: string, deliveries: seq<DeliveryReport>)

  datatype PollOnceReply = PollOnceReply(summary: SyncSummary, webhooksSentForEvents: nat, deliveriesSample: seq<EventDeliveries>)

  datatype PollOnceOutcome = PollOnceOutcome(reply: Result<PollOnceReply, RunError>, sent: seq<Sent>, db: StoreState)

  function DeliveriesFor(events: seq<UnlockEvent>, k: nat, targets: seq<TargetRef>, net: Network): EventDeliveries
    requires k < |events|
  {
    EventDeliveries(events[k].appId, events[k].achievementKey, SendFor(events, k, targets, net).report)
  }

  /** The `deliveries` list of the handler, one entry per event in order. */
  function AllDeliveries(events: seq<UnlockEvent>, targets: seq<TargetRef>, net: Network): (r: seq<EventDeliveries>)
    ensures |r| == |events|
    ensures forall k :: 0 <= k < |events| ==> r[k] == DeliveriesFor(events, k, targets, net)
  {
    seq(|events|, k requires 0 <= k < |events| => DeliveriesFor(events, k, targets, net))
  }

  /**
   * The handler on a store in state `db`: a failing sync fails the request;
   * otherwise one fan-out per event of the sample, `webhooksSentForEvents` the
   * sample's length and `deliveriesSample` the entries of its first 10 events.
   */
  function PollOnceSpec(env: Env, input: PollInput, targets: seq<TargetRef>, db: StoreState): (r: PollOnceOutcome)
    ensures var sync := SyncSpec(env, input.owned, input.responses, input.now, db);
      && (sync.Err? ==> r.reply == Err(sync.error) && r.sent == [] && r.db == db)
      && (sync.Ok? ==>
            var events := sync.value.summary.newEventsSample;
            && r.db == sync.value.db
            && r.sent == Notifications(events, targets, input.net)
            && r.reply.Ok? && r.reply.value.summary == sync.value.summary
            && r.reply.value.webhooksSentForEvents == |events|
            && |r.reply.value.deliveriesSample| == Min(DeliveriesSampleCap, |events|)
            && forall k :: 0 <= k < |r.reply.value.deliveriesSample| ==>
                 r.reply.value.deliveriesSample[k] == DeliveriesFor(events, k, targets, input.net))
  {
    match SyncSpec(env, input.owned, input.responses, input.now, db)
    case Err(e) => PollOnceOutcome(Err(e), [], db)
    case Ok(out) =>
      var events := out.summary.newEventsSample;
      var sample := AllDeliveries(events, targets, input.net)[..Min(DeliveriesSampleCap, |events|)];
      PollOnceOutcome(Ok(PollOnceReply(out.summary, |events|, sample)), Notifications(events, targets, input.net), out.db)
  }

  /** The handler's loop: one fan-out per event, and its entry pushed onto `deliveries`. */
  method NotifyAndCollect(events: seq<UnlockEvent>, table: TargetTable, net: Network)
    returns (sent: seq<Sent>, deliveries: seq<EventDeliveries>)
    requires Valid(table.State())
    ensures sent == Notifications(events, ListTargets(table.rows), net)
    ensures deliveries == AllDeliveries(events, ListTargets(table.rows), net)
  {
    sent, deliveries := [], [];
    ghost var registered := ListTargets(table.rows);
    var k := 0;
    while k < |events|
      invariant 0 <= k <= |events|
      invariant sent == Notifications(events, registered, net)[..k]
      invariant deliveries == AllDeliveries(events, registered, net)[..k]
    {
      var ev := events[k];
      var targets := table.ListWebhookTargets();
      var d := SendAchievementWebhooks(PayloadOf(ev), targets, SettledFor(net, k, |targets|));
      assert Notifications(events, registered, net)[..k + 1] == sent + [d];
      assert AllDeliveries(events, registered, net)[..k + 1] == deliveries + [EventDeliveries(ev.appId, ev.achievementKey, d.report)];
      sent := sent + [d];
      deliveries := deliveries + [EventDeliveries(ev.appId, ev.achievementKey, d.report)];
      k := k + 1;
    }
  }

  /** The `/debug/steam/poll-once` handler against `store`. */
  method PollOnceHandler(env: Env, input: PollInput, table: TargetTable, store: Store)
    returns (reply: Result<PollOnceReply, RunError>, sent: seq<Sent>)
    requires Valid(table.State())
    modifies store
    ensures PollOnceOutcome(reply, sent, store.State()) == PollOnceSpec(env, input, ListTargets(table.rows), old(store.State()))
  {
    var r := SyncSteamAchievements(env, input.owned, input.responses, input.now, store);
    if r.Err? {
      return Err(r.error), [];
    }
    var summary := r.value;
    var eventsToSend := summary.newEventsSample;
    var deliveries;
    sent, deliveries := NotifyAndCollect(eventsToSend, table, input.net);
    reply := Ok(PollOnceReply(summary, |eventsToSend|, deliveries[..Min(DeliveriesSampleCap, |deliveries|)]));
  }

  // ---------------------------------------------------------------------------
  // /debug/seed

  /** The fixed event the seed handler inserts, stamped with the clock. */
  function SeedEvent(now: int): UnlockEvent {
    UnlockEvent("demo-user", 440, "FIRST_WIN", Some("First Win"), now)
  }

  datatype SeedReply = SeedReply(inserted: bool, deliveries: seq<DeliveryReport>)

  /** The reply (None when the clock cannot be formatted and the handler throws), the requests sent and the store. */
  datatype SeedOutcome = SeedOutcome(reply: Option<SeedReply>, sent: seq<Request>, db: StoreState)

  /** The seed handler on a store in state `db`: it notifies only when the insert wrote a new row. */
  function SeedSpec(db: StoreState, targets: seq<TargetRef>, net: Network, now: int): (r: SeedOutcome)
    ensures r.reply.None? <==> !ValidTime(now)
    ensures r.reply.None? ==> r.sent == [] && r.db == db
    ensures r.reply.Some? ==>
      && (r.reply.value.inserted <==> KeyOf(SeedEvent(now)) !in db.events)
      && r.db == InsertEventIfNew(db, SeedEvent(now)).state
      && (!r.reply.value.inserted ==> r.reply.value.deliveries == [] && r.sent == [])
      && (r.reply.value.inserted ==>
            var s := SendAchievementWebhooks(PayloadOf(SeedEvent(now)), targets, SettledFor(net, 0, |targets|));
            r.reply.value.deliveries == s.report && r.sent == s.requests)
  {
    if !ValidTime(now) then SeedOutcome(None, [], db)
    else
      var ins := InsertEventIfNew(db, SeedEvent(now));
      if !ins.inserted then SeedOutcome(Some(SeedReply(false, [])), [], ins.state)
      else
        var s := SendAchievementWebhooks(PayloadOf(SeedEvent(now)), targets, SettledFor(net, 0, |targets|));
        SeedOutcome(Some(SeedReply(true, s.report)), s.requests, ins.state)
  }

  /** The `/debug/seed` handler against `store`. */
  method DebugSeed(store: Store, table: TargetTable, net: Network, now: int) returns (reply: Option<SeedReply>, sent: seq<Request>)
    requires Valid(table.State())
    modifies store
    ensures SeedOutcome(reply, sent, store.State()) == SeedSpec(old(store.State()), ListTargets(table.rows), net, now)
  {
    if !ValidTime(now) {
      return None, [];
    }
    var event := SeedEvent(now);
    var inserted := store.InsertAchievementEvent(event);
    if !inserted {
      return Some(SeedReply(false, [])), [];
    }
    var targets := table.ListWebhookTargets();
    var d := SendAchievementWebhooks(PayloadOf(event), targets, SettledFor(net, 0, |targets|));
    reply, sent := Some(SeedReply(true, d.report)), d.requests;
  }

  /** Seeding again, at any valid time, inserts nothing, sends nothing and leaves the store as it is. */
  lemma SeedTwice(db: StoreState, targets: seq<TargetRef>, net1: Network, net2: Network, now1: int, now2: int)
    requires ValidTime(now1) && ValidTime(now2)
    ensures var first := SeedSpec(db, targets, net1, now1);
      var second := SeedSpec(first.db, targets, net2, now2);
      second.reply == Some(SeedReply(false, [])) && second.sent == [] && second.db == first.db
  {
    var first := SeedSpec(db, targets, net1, now1);
    assert KeyOf(SeedEvent(now2)) == KeyOf(SeedEvent(now1));
    assert InsertEventIfNew(first.db, SeedEvent(now2)).state == first.db;
  }

  // ---------------------------------------------------------------------------
  // The owned-games summary

  const SummarySampleCap: int := 10

  /** A sample row: a missing name is null (None), a missing playtime 0. */
  datatype GameSummaryRow = GameSummaryRow(appid: int, name: Option<string>, playtimeForever: int)

  datatype OwnedGamesSummary = OwnedGamesSummary(totalOwned: nat, returned: nat, sample: seq<GameSummaryRow>)

  /** `Number(process.env.STEAM_MAX_GAMES ?? 50)`: unlike `envNumber`, an empty value is 0 and no fallback applies. */
  function SummaryCeiling(env: Env): JsNumber {
    if "STEAM_MAX_GAMES" in env then ToNumber(env["STEAM_MAX_GAMES"]) else Finite(50)
  }

  /** The length of `max <= 0 ? games : games.slice(0, max)` for `n` games. */
  function SliceLength(max: JsNumber, n: nat): (r: nat)
    ensures r <= n
    ensures max.Finite? && 0 < max.value < n ==> r == max.value
    ensures max.Finite? && (max.value <= 0 || max.value >= n) ==> r == n
    ensures max.PosInfinity? || max.NegInfinity? ==> r == n
    ensures max.NaN? ==> r == 0
  {
    match max
    case Finite(m) => if m <= 0 || m >= n then n else m
    case PosInfinity => n
    case NegInfinity => n
    case NaN => 0
  }

  function SummaryRow(g: OwnedGame): GameSummaryRow {
    GameSummaryRow(g.appid, g.name, Playtime(g))
  }

  /** `buildOwnedGamesSummary` on the owned games. */
  function BuildOwnedGamesSummary(env: Env, owned: seq<OwnedGame>): (r: OwnedGamesSummary)
    ensures r.totalOwned == |owned|
    ensures r.returned == SliceLength(SummaryCeiling(env), |owned|)
    ensures |r.sample| == Min(SummarySampleCap, r.returned)
    ensures forall i :: 0 <= i < |r.sample| ==> r.sample[i] == SummaryRow(Ranked(owned)[i])
  {
    var games := Ranked(owned);
    var slice := games[..SliceLength(SummaryCeiling(env), |games|)];
    var n := Min(SummarySampleCap, |slice|);
    OwnedGamesSummary(|games|, |slice|, seq(n, i requires 0 <= i < n => SummaryRow(slice[i])))
  }

  /**
   * With a numeric ceiling the summary returns the games the sync would
   * select under that ceiling, and samples the top of that selection.
   */
  lemma SummaryMatchesSelection(env: Env, owned: seq<OwnedGame>)
    requires SummaryCeiling(env).Finite?
    ensures var r := BuildOwnedGamesSummary(env, owned);
      var sel := Select(Ranked(owned), SummaryCeiling(env).value);
      r.returned == |sel| && forall i :: 0 <= i < |r.sample| ==> r.sample[i] == SummaryRow(sel[i])
  {
  }

  /**
   * An empty `STEAM_MAX_GAMES` means no ceiling for the summary but the
   * default 50 for the sync, so with more than 50 games they disagree.
   */
  lemma EmptyCeilingDisagrees(env: Env, owned: seq<OwnedGame>)
    requires "STEAM_MAX_GAMES" in env && env["STEAM_MAX_GAMES"] == "" && |owned| > 50
    ensures BuildOwnedGamesSummary(env, owned).returned == |owned|
    ensures |Selected(env, owned)| == 50
  {
  }
}
