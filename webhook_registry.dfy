/**
 * The `webhook_targets` table: registration by url (`addWebhookTarget`,
 * insert-or-return-existing) and the listing the notifier reads
 * (`listWebhookTargets`, ordered by id).
 */
module WebhookRegistry {
  import opened Wrappers

  /** A stored row: serial id, unique url, creation time in epoch milliseconds. */
  datatype WebhookTarget = WebhookTarget(id: int, url: string, createdAt: int)

  /** What `listWebhookTargets` selects of a row. */
  datatype TargetRef = TargetRef(id: int, url: string)

  /** The table's rows in insertion order and the next value of its id sequence. */
  datatype Registry = Registry(rows: seq<WebhookTarget>, nextId: int)

  const EmptyRegistry := Registry([], 1)

  /** The table's constraints: urls unique, ids positive, increasing and below the sequence. */
  ghost predicate Valid(reg: Registry) {
    && 1 <= reg.nextId
    && (forall i :: 0 <= i < |reg.rows| ==> 1 <= reg.rows[i].id < reg.nextId)
    && (forall i, j :: 0 <= i < j < |reg.rows| ==> reg.rows[i].id < reg.rows[j].id)
    && (forall i, j :: 0 <= i < j < |reg.rows| ==> reg.rows[i].url != reg.rows[j].url)
  }

  ghost predicate HasUrl(rows: seq<WebhookTarget>, url: string) {
    exists i :: 0 <= i < |rows| && rows[i].url == url
  }

  /** `SELECT … WHERE url = $1`, first row. */
  function FindByUrl(rows: seq<WebhookTarget>, url: string): (r: Option<WebhookTarget>)
    ensures r.None? <==> !HasUrl(rows, url)
    ensures r.Some? ==> r.value in rows && r.value.url == url
  {
    if rows == [] then None
    else if rows[0].url == url then Some(rows[0])
    else
      var rest := FindByUrl(rows[1..], url);
      assert HasUrl(rows[1..], url) ==> HasUrl(rows, url) by {
        if HasUrl(rows[1..], url) {
          var i :| 0 <= i < |rows[1..]| && rows[1..][i].url == url;
          assert rows[i + 1].url == url;
        }
      }
      assert HasUrl(rows, url) ==> HasUrl(rows[1..], url) by {
        if HasUrl(rows, url) {
          var i :| 0 <= i < |rows| && rows[i].url == url;
          assert rows[1..][i - 1].url == url;
        }
      }
      rest
  }

  datatype AddOutcome = AddOutcome(registry: Registry, row: WebhookTarget)

  /**
   * `addWebhookTarget`: a new url is appended with the next id and returned;
   * a registered url leaves the rows as they are and its existing row is
   * returned. Either way the id sequence advances: a serial column draws its
   * value before `ON CONFLICT` finds the clash, so a conflicting insert
   * consumes one id too.
   */
  function AddTarget(reg: Registry, url: string, now: int): (r: AddOutcome)
    ensures r.row.url == url
    ensures HasUrl(reg.rows, url) ==> r.registry == Registry(reg.rows, reg.nextId + 1) && r.row in reg.rows
    ensures !HasUrl(reg.rows, url) ==>
      && r.row == WebhookTarget(reg.nextId, url, now)
      && r.registry == Registry(reg.rows + [r.row], reg.nextId + 1)
    ensures Valid(reg) ==> Valid(r.registry)
  {
    match FindByUrl(reg.rows, url)
    case Some(existing) => AddOutcome(Registry(reg.rows, reg.nextId + 1), existing)
    case None =>
      var row := WebhookTarget(reg.nextId, url, now);
      AddOutcome(Registry(reg.rows + [row], reg.nextId + 1), row)
  }

  /** Registering one url twice returns the same row, hence the same id, both times, and adds no row. */
  lemma AddTwiceSameRow(reg: Registry, url: string, t1: int, t2: int)
    ensures AddTarget(AddTarget(reg, url, t1).registry, url, t2).row == AddTarget(reg, url, t1).row
    ensures AddTarget(AddTarget(reg, url, t1).registry, url, t2).registry.rows == AddTarget(reg, url, t1).registry.rows
  {
    var r1 := AddTarget(reg, url, t1);
    if !HasUrl(reg.rows, url) {
      var rows := r1.registry.rows;
      assert rows[|rows| - 1].url == url;
      assert FindByUrl(rows, url) == Some(r1.row) by { FindLast(reg.rows, r1.row); }
    }
  }

  /** A duplicate registration uses up an id: after "a", "a" on an empty table, "b" gets id 3, not 2. */
  lemma DuplicateConsumesId(now: int)
    ensures var r1 := AddTarget(Registry([], 1), "a", now);
      var r2 := AddTarget(r1.registry, "a", now);
      var r3 := AddTarget(r2.registry, "b", now);
      r1.row.id == 1 && r2.row.id == 1 && r3.row.id == 3 && |r3.registry.rows| == 2
  {
    var r1 := AddTarget(Registry([], 1), "a", now);
    assert r1.registry.rows == [WebhookTarget(1, "a", now)];
    assert FindByUrl(r1.registry.rows, "a") == Some(WebhookTarget(1, "a", now));
    var r2 := AddTarget(r1.registry, "a", now);
    assert r2.registry == Registry([WebhookTarget(1, "a", now)], 3);
    assert !HasUrl(r2.registry.rows, "b");
  }

  /** Looking a url up after appending a row for it that was not there finds that row. */
  lemma {:induction false} FindLast(rows: seq<WebhookTarget>, row: WebhookTarget)
    requires !HasUrl(rows, row.url)
    ensures FindByUrl(rows + [row], row.url) == Some(row)
  {
    if rows != [] {
      assert (rows + [row])[1..] == rows[1..] + [row];
      assert rows[0].url != row.url;
      assert forall i :: 0 <= i < |rows[1..]| ==> rows[1..][i] == rows[i + 1];
      FindLast(rows[1..], row);
    }
  }

  /** Registering urls one after another, all at time `now`. */
  function AddAll(reg: Registry, urls: seq<string>, now: int): Registry
    decreases |urls|
  {
    if urls == [] then reg else AddAll(AddTarget(reg, urls[0], now).registry, urls[1..], now)
  }

  /** After any sequence of registrations urls stay unique (with the other constraints). */
  lemma {:induction false} AddAllKeepsValid(reg: Registry, urls: seq<string>, now: int)
    requires Valid(reg)
    ensures Valid(AddAll(reg, urls, now))
    ensures |AddAll(reg, urls, now).rows| <= |reg.rows| + |urls|
    decreases |urls|
  {
    if urls != [] {
      AddAllKeepsValid(AddTarget(reg, urls[0], now).registry, urls[1..], now);
    }
  }

  /** A url present in a list of rows is still present once rows are appended. */
  lemma HasUrlExtended(rows: seq<WebhookTarget>, longer: seq<WebhookTarget>, url: string)
    requires |rows| <= |longer| && longer[..|rows|] == rows && HasUrl(rows, url)
    ensures HasUrl(longer, url)
  {
    var i :| 0 <= i < |rows| && rows[i].url == url;
    assert longer[i] == rows[i];
  }

  /**
   * Registrations only ever append: the earlier rows stay where they were, and
   * every url registered is present afterwards.
   */
  lemma {:induction false} AddAllRegisters(reg: Registry, urls: seq<string>, now: int)
    ensures var r := AddAll(reg, urls, now);
      && |reg.rows| <= |r.rows| && r.rows[..|reg.rows|] == reg.rows
      && forall u :: u in urls ==> HasUrl(r.rows, u)
    decreases |urls|
  {
    if urls != [] {
      var r1 := AddTarget(reg, urls[0], now).registry;
      var r := AddAll(reg, urls, now);
      AddAllRegisters(r1, urls[1..], now);
      assert HasUrl(r1.rows, urls[0]) by {
        if !HasUrl(reg.rows, urls[0]) {
          assert r1.rows[|reg.rows|].url == urls[0];
        }
      }
      assert r1.rows[..|reg.rows|] == reg.rows;
      assert r.rows[..|reg.rows|] == reg.rows by {
        assert r.rows[..|reg.rows|] == r.rows[..|r1.rows|][..|reg.rows|];
      }
      HasUrlExtended(r1.rows, r.rows, urls[0]);
      forall u | u in urls
        ensures HasUrl(r.rows, u)
      {
        if u != urls[0] {
          assert u in urls[1..];
        }
      }
    }
  }

  /** `listWebhookTargets`: id and url of every row, ordered by id. */
  function ListTargets(rows: seq<WebhookTarget>): (r: seq<TargetRef>)
    ensures |r| == |rows|
    ensures forall i :: 0 <= i < |rows| ==> r[i] == TargetRef(rows[i].id, rows[i].url)
  {
    if rows == [] then [] else [TargetRef(rows[0].id, rows[0].url)] + ListTargets(rows[1..])
  }

  /** On a valid table the listing is strictly ordered by id, as `ORDER BY id` returns it. */
  lemma ListTargetsOrderedById(reg: Registry)
    requires Valid(reg)
    ensures forall i, j :: 0 <= i < j < |reg.rows| ==> ListTargets(reg.rows)[i].id < ListTargets(reg.rows)[j].id
  {
  }

  /** The `webhook_targets` table, updated in place. */
  class TargetTable {
    var rows: seq<WebhookTarget>
    var nextId: int

    function State(): Registry
      reads this
    {
      Registry(rows, nextId)
    }

    constructor ()
      ensures State() == EmptyRegistry && Valid(State())
    {
      rows, nextId := [], 1;
    }

    /** `addWebhookTarget`. */
    method AddWebhookTarget(url: string, now: int) returns (row: WebhookTarget)
      requires Valid(State())
      modifies this
      ensures Valid(State())
      ensures AddOutcome(State(), row) == AddTarget(old(State()), url, now)
    {
      var existing := FindByUrl(rows, url);
      if existing.Some? {
        row := existing.value;
        nextId := nextId + 1;
      } else {
        row := WebhookTarget(nextId, url, now);
        rows := rows + [row];
        nextId := nextId + 1;
      }
    }

    /** `listWebhookTargets`. */
    method ListWebhookTargets() returns (targets: seq<TargetRef>)
      requires Valid(State())
      ensures targets == ListTargets(rows)
      ensures forall i, j :: 0 <= i < j < |targets| ==> targets[i].id < targets[j].id
    {
      targets := ListTargets(rows);
    }
  }
}
