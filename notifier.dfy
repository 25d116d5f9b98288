/**
 * `sendAchievementWebhooks`: one POST of the same JSON payload to every
 * registered target, all settled, and one report entry per target in target
 * order. The network is an input: `settled[i]` is how the request to
 * `targets[i]` settled.
 */
module Notifier {
  import opened Wrappers
  import opened WebhookRegistry

  const EventType := "achievement_unlocked"

  /** The webhook body; `eventType` is always `EventType`, `achievedAt` in epoch milliseconds. */
  datatype Payload = Payload(
    eventType: string,
    steamUserId: string,
    appId: int,
    achievementKey: string,
    achievementName: Option<string>,
    achievedAt: int)

  /** One HTTP request as the sender issues it. */
  datatype Request = Request(url: string, httpMethod: string, contentType: string, body: Payload)

  /** A settled delivery: the response status, or the rejection reason as a string. */
  datatype Settled = Fulfilled(status: int) | Rejected(reason: string)

  /** One report entry: `{ ok: true, targetId, url, status }` or `{ ok: false, error }`. */
  datatype DeliveryReport = Delivered(targetId: int, url: string, status: int) | Failed(error: string)

  predicate Ok(r: DeliveryReport) { r.Delivered? }

  /** The request the sender makes to one target. */
  function RequestFor(t: TargetRef, payload: Payload): (r: Request)
    ensures r.url == t.url && r.httpMethod == "POST" && r.contentType == "application/json" && r.body == payload
  {
    Request(t.url, "POST", "application/json", payload)
  }

  /** The requests issued for one payload, one per target, in target order. */
  function Requests(payload: Payload, targets: seq<TargetRef>): (r: seq<Request>)
    ensures |r| == |targets|
    ensures forall i :: 0 <= i < |targets| ==> r[i] == RequestFor(targets[i], payload)
  {
    if targets == [] then [] else [RequestFor(targets[0], payload)] + Requests(payload, targets[1..])
  }

  /** The report entry for one target and how its request settled. */
  function ReportOf(t: TargetRef, s: Settled): (r: DeliveryReport)
    ensures Ok(r) <==> s.Fulfilled?
    ensures s.Fulfilled? ==> r == Delivered(t.id, t.url, s.status)
    ensures s.Rejected? ==> r == Failed(s.reason)
  {
    match s
    case Fulfilled(status) => Delivered(t.id, t.url, status)
    case Rejected(reason) => Failed(reason)
  }

  /** The report entries, entry `i` built from target `i` and its own settled result only. */
  function Reports(targets: seq<TargetRef>, settled: seq<Settled>): (r: seq<DeliveryReport>)
    requires |settled| == |targets|
    ensures |r| == |targets|
    ensures forall i :: 0 <= i < |targets| ==> r[i] == ReportOf(targets[i], settled[i])
  {
    if targets == [] then [] else [ReportOf(targets[0], settled[0])] + Reports(targets[1..], settled[1..])
  }

  /** What one call does: the requests it issues and the report it returns. */
  datatype Sent = Sent(requests: seq<Request>, report: seq<DeliveryReport>)

  /**
   * `sendAchievementWebhooks(payload)` against the listed `targets`: one
   * request and one report entry per target, in target order.
   */
  function SendAchievementWebhooks(payload: Payload, targets: seq<TargetRef>, settled: seq<Settled>): (r: Sent)
    requires |settled| == |targets|
    ensures |r.requests| == |targets| && |r.report| == |targets|
    ensures forall i :: 0 <= i < |targets| ==>
      r.requests[i] == RequestFor(targets[i], payload) && r.report[i] == ReportOf(targets[i], settled[i])
  {
    Sent(Requests(payload, targets), Reports(targets, settled))
  }

  /** No registered target: no request and an empty report. */
  lemma NoTargetsNoReport(payload: Payload)
    ensures SendAchievementWebhooks(payload, [], []) == Sent([], [])
  {
  }

  /** Every target is sent the same body, by POST, as JSON, to its own url. */
  lemma SameBodyForAll(payload: Payload, targets: seq<TargetRef>, settled: seq<Settled>)
    requires |settled| == |targets|
    ensures forall r :: r in SendAchievementWebhooks(payload, targets, settled).requests ==>
      r.body == payload && r.httpMethod == "POST" && r.contentType == "application/json"
  {
  }

  /**
   * Failures are isolated: changing how other targets' requests settle does
   * not change a target's entry.
   */
  lemma Isolation(payload: Payload, targets: seq<TargetRef>, settled1: seq<Settled>, settled2: seq<Settled>, i: nat)
    requires |settled1| == |targets| && |settled2| == |targets| && i < |targets|
    requires settled1[i] == settled2[i]
    ensures SendAchievementWebhooks(payload, targets, settled1).report[i]
         == SendAchievementWebhooks(payload, targets, settled2).report[i]
  {
  }

  /** Any response counts as delivered, a 404 or a 500 included; only a rejection is a failure. */
  lemma AnyStatusIsOk(payload: Payload, targets: seq<TargetRef>, settled: seq<Settled>, i: nat)
    requires |settled| == |targets| && i < |targets| && settled[i].Fulfilled?
    ensures Ok(SendAchievementWebhooks(payload, targets, settled).report[i])
    ensures SendAchievementWebhooks(payload, targets, settled).report[i].status == settled[i].status
  {
  }

  function CountOk(r: seq<DeliveryReport>): (n: nat)
    ensures n <= |r|
  {
    if r == [] then 0 else (if Ok(r[0]) then 1 else 0) + CountOk(r[1..])
  }

  function CountFulfilled(s: seq<Settled>): (n: nat)
    ensures n <= |s|
  {
    if s == [] then 0 else (if s[0].Fulfilled? then 1 else 0) + CountFulfilled(s[1..])
  }

  /** The report holds as many ok entries as deliveries that got a response, and the rest failed. */
  lemma {:induction false} OkCount(targets: seq<TargetRef>, settled: seq<Settled>)
    requires |settled| == |targets|
    ensures CountOk(Reports(targets, settled)) == CountFulfilled(settled)
    decreases |targets|
  {
    if targets != [] {
      var r := Reports(targets, settled);
      assert r[1..] == Reports(targets[1..], settled[1..]);
      OkCount(targets[1..], settled[1..]);
    }
  }
}
