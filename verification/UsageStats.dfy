/**
 Base usage statistics (service/usage_stats.go): a queue of call records not yet aggregated and four
 tables of counters. Token and request counters are uint64 and wrap; Credits are unbounded.
 */
module UsageStats {
  import opened Numbers
  import opened Sums

  type RecordId = nat

  datatype TaskType = ImageTask | LlmTask

  /** Where a job ran: the node network or a Provider API. */
  datatype Source = Crynux | Provider

  datatype CallRecord = CallRecord(
    source: Source, user: nat, project: nat, job: nat, taskType: TaskType, model: string, cacheHash: string, dtype: string,
    promptTokens: nat, completionTokens: nat, totalTokens: nat, imageCount: nat, tokenUsageApplicable: bool,
    success: bool, acceptedAt: nat, durationMs: nat)

  datatype Counters = Counters(
    requests: nat, successes: nat, failures: nat, prompt: nat, completion: nat, total: nat, images: nat, credits: int)

  datatype Table = AccountHourly | ProjectHourly | ModelTenMinute | DurationTenMinute

  datatype Key =
    | AccountHour(user: nat, hour: nat)
    | ProjectHour(project: nat, hour: nat)
    | ModelSlot(project: nat, cacheHash: string, dtype: string, model: string, period: nat)
    | DurationSlot(project: nat, period: nat, bucket: nat)

  datatype Row = Row(key: Key, counts: Counters)

  /** One aggregated record and the Credits found for it in the ledger. */
  datatype Entry = Entry(id: RecordId, credits: int)

  /** `aggregated` is history only: the records already counted, in order. */
  datatype State = State(tables: map<Table, seq<Row>>, pending: seq<RecordId>, aggregated: seq<Entry>)

  const BATCH: nat := 200

  const TABLES: set<Table> := {AccountHourly, ProjectHourly, ModelTenMinute, DurationTenMinute}

  const ZERO: Counters := Counters(0, 0, 0, 0, 0, 0, 0, 0)

  const EMPTY: State := State(
    map[AccountHourly := [], ProjectHourly := [], ModelTenMinute := [], DurationTenMinute := []], [], [])

  // ---------------------------------------------------------------------------------------------
  // Keys

  function HourStart(ts: nat): nat { ts - ts % 3600 }

  function TenMinuteStart(ts: nat): nat { ts - ts % 600 }

  /** Lower bounds of the twelve duration buckets; each ends where the next begins. */
  const BOUNDS: seq<nat> := [0, 250, 500, 1000, 2000, 5000, 10000, 30000, 60000, 120000, 300000, 600000]

  predicate InBucket(i: nat, ms: nat)
    requires i < |BOUNDS|
  {
    BOUNDS[i] <= ms && (i + 1 < |BOUNDS| ==> ms < BOUNDS[i + 1])
  }

  function BucketFrom(i: nat, ms: nat): (r: nat)
    requires i < |BOUNDS| && BOUNDS[i] <= ms
    ensures i <= r < |BOUNDS| && InBucket(r, ms)
    decreases |BOUNDS| - i
  {
    if i + 1 < |BOUNDS| && BOUNDS[i + 1] <= ms then BucketFrom(i + 1, ms) else i
  }

  function BucketOf(ms: nat): nat { BucketFrom(0, ms) }

  /** Scans the bucket list for the one holding a duration: the list partitions all durations. */
  method DurationBucketID(ms: nat) returns (bucket: nat)
    ensures bucket < |BOUNDS| && InBucket(bucket, ms)
    ensures forall i | 0 <= i < |BOUNDS| && InBucket(i, ms) :: i == bucket
    ensures bucket == BucketOf(ms)
  {
    for i := 0 to |BOUNDS|
      invariant BOUNDS[if i < |BOUNDS| then i else i - 1] <= ms
    {
      if BOUNDS[i] <= ms && (i + 1 == |BOUNDS| || ms < BOUNDS[i + 1]) {
        BucketIsUnique(i, BucketOf(ms), ms);
        forall k | 0 <= k < |BOUNDS| && InBucket(k, ms) ensures k == i {
          BucketIsUnique(i, k, ms);
        }
        return i;
      }
    }
    bucket := |BOUNDS| - 1;
    forall k | 0 <= k < |BOUNDS| && InBucket(k, ms) ensures k == bucket {
      BucketIsUnique(bucket, k, ms);
    }
    BucketIsUnique(bucket, BucketOf(ms), ms);
  }

  lemma BucketIsUnique(i: nat, k: nat, ms: nat)
    requires i < |BOUNDS| && k < |BOUNDS| && InBucket(i, ms) && InBucket(k, ms)
    ensures i == k
  {
    assert forall a, b | 0 <= a < b < |BOUNDS| :: BOUNDS[a] < BOUNDS[b];
  }

  function KeyOf(t: Table, r: CallRecord): Key {
    match t
    case AccountHourly => AccountHour(r.user, HourStart(r.acceptedAt))
    case ProjectHourly => ProjectHour(r.project, HourStart(r.acceptedAt))
    case ModelTenMinute => ModelSlot(r.project, r.cacheHash, r.dtype, r.model, TenMinuteStart(r.acceptedAt))
    case DurationTenMinute => DurationSlot(r.project, TenMinuteStart(r.acceptedAt), BucketOf(r.durationMs))
  }

  // ---------------------------------------------------------------------------------------------
  // Counters

  function Add(a: Counters, b: Counters): Counters {
    Counters(Wrap(a.requests + b.requests), Wrap(a.successes + b.successes), Wrap(a.failures + b.failures),
             Wrap(a.prompt + b.prompt), Wrap(a.completion + b.completion), Wrap(a.total + b.total),
             Wrap(a.images + b.images), a.credits + b.credits)
  }

  predicate Words(c: Counters) {
    c.requests < WORD && c.successes < WORD && c.failures < WORD && c.prompt < WORD && c.completion < WORD
    && c.total < WORD && c.images < WORD
  }

  /** What one record adds to its row of a table. The duration table counts requests only. */
  function Increment(t: Table, r: CallRecord, credits: int): (c: Counters)
    ensures Words(c) && c.requests == 1
  {
    if t == DurationTenMinute then ZERO.(requests := 1)
    else
      var tokens := r.tokenUsageApplicable;
      Counters(1, if r.success then 1 else 0, if r.success then 0 else 1,
               if tokens then Wrap(r.promptTokens) else 0,
               if tokens then Wrap(r.completionTokens) else 0,
               if tokens then Wrap(r.totalTokens) else 0,
               if r.taskType == ImageTask then Wrap(r.imageCount) else 0,
               credits)
  }

  function Upsert(rows: seq<Row>, key: Key, inc: Counters): seq<Row> {
    if rows == [] then [Row(key, inc)]
    else if rows[0].key == key then [Row(key, Add(rows[0].counts, inc))] + rows[1..]
    else [rows[0]] + Upsert(rows[1..], key, inc)
  }

  // ---------------------------------------------------------------------------------------------
  // Transactions

  /** A new call record joins the queue in the transaction that inserts it. */
  function Enqueue(s: State, id: RecordId): State {
    s.(pending := s.pending + [id])
  }

  function UpsertAll(tables: map<Table, seq<Row>>, r: CallRecord, credits: int): (out: map<Table, seq<Row>>)
    ensures out.Keys == tables.Keys
    ensures forall t | t in tables :: out[t] == Upsert(tables[t], KeyOf(t, r), Increment(t, r, credits))
  {
    map t | t in tables :: Upsert(tables[t], KeyOf(t, r), Increment(t, r, credits))
  }

  function ApplyRecord(s: State, r: CallRecord, id: RecordId, credits: int): State {
    s.(tables := UpsertAll(s.tables, r, credits), aggregated := s.aggregated + [Entry(id, credits)])
  }

  function ApplyAll(s: State, records: seq<CallRecord>, ids: seq<RecordId>, amounts: RecordId -> int): State
    requires forall i | 0 <= i < |ids| :: ids[i] < |records|
    decreases |ids|
  {
    if ids == [] then s
    else
      var last := ids[|ids| - 1];
      ApplyRecord(ApplyAll(s, records, ids[..|ids| - 1], amounts), records[last], last, amounts(last))
  }

  function BatchSize(s: State): nat {
    if |s.pending| < BATCH then |s.pending| else BATCH
  }

  /** One aggregation batch; it rolls back when a queued record has no permanent row. */
  function Aggregate(s: State, records: seq<CallRecord>, amounts: RecordId -> int): State {
    var ids := s.pending[..BatchSize(s)];
    if exists i :: 0 <= i < |ids| && ids[i] >= |records| then s
    else ApplyAll(s, records, ids, amounts).(pending := s.pending[BatchSize(s)..])
  }

  // ---------------------------------------------------------------------------------------------
  // The invariant

  /** The counters that the aggregated records with key `k` add up to. */
  function Total(records: seq<CallRecord>, log: seq<Entry>, t: Table, k: Key): Counters
    requires forall i | 0 <= i < |log| :: log[i].id < |records|
  {
    if log == [] then ZERO
    else
      var e := log[|log| - 1];
      var before := Total(records, log[..|log| - 1], t, k);
      if KeyOf(t, records[e.id]) == k then Add(before, Increment(t, records[e.id], e.credits)) else before
  }

  ghost predicate HasKey(rows: seq<Row>, k: Key) {
    exists i :: 0 <= i < |rows| && rows[i].key == k
  }

  ghost predicate UniqueKeys(rows: seq<Row>) {
    forall i, j | 0 <= i < j < |rows| :: rows[i].key != rows[j].key
  }

  /** Every row holds the total of its key, and a key that was counted has a row. */
  ghost predicate TableExact(records: seq<CallRecord>, log: seq<Entry>, t: Table, rows: seq<Row>)
    requires forall i | 0 <= i < |log| :: log[i].id < |records|
  {
    && UniqueKeys(rows)
    && (forall i | 0 <= i < |rows| :: Words(rows[i].counts) && rows[i].counts == Total(records, log, t, rows[i].key))
    && (forall i | 0 <= i < |log| :: HasKey(rows, KeyOf(t, records[log[i].id])))
  }

  function Ids(log: seq<Entry>): (ids: seq<RecordId>)
    ensures |ids| == |log| && forall i | 0 <= i < |log| :: ids[i] == log[i].id
  {
    seq(|log|, i requires 0 <= i < |log| => log[i].id)
  }

  ghost predicate TablesExact(s: State, records: seq<CallRecord>) {
    && (forall i | 0 <= i < |s.aggregated| :: s.aggregated[i].id < |records|)
    && s.tables.Keys == TABLES
    && (forall t | t in s.tables :: TableExact(records, s.aggregated, t, s.tables[t]))
  }

  /** Counted records followed by queued ones are all the records, each once, in order. */
  ghost predicate QueueExact(s: State, records: seq<CallRecord>) {
    Ids(s.aggregated) + s.pending == seq(|records|, i => i)
  }

  ghost predicate Inv(s: State, records: seq<CallRecord>) {
    && QueueExact(s, records)
    && TablesExact(s, records)
  }

  // ---------------------------------------------------------------------------------------------
  // Preservation

  lemma {:induction false} UpsertRows(rows: seq<Row>, key: Key, inc: Counters)
    requires UniqueKeys(rows)
    ensures var out := Upsert(rows, key, inc);
            && UniqueKeys(out) && HasKey(out, key)
            && (forall k :: HasKey(out, k) <==> HasKey(rows, k) || k == key)
            && (forall i | 0 <= i < |out| && out[i].key != key :: out[i] in rows)
            && (forall i | 0 <= i < |out| && out[i].key == key ::
                  (out[i].counts == inc && !HasKey(rows, key))
                  || exists j :: 0 <= j < |rows| && rows[j].key == key && out[i].counts == Add(rows[j].counts, inc))
  {
    var out := Upsert(rows, key, inc);
    if rows == [] {
      assert out[0].key == key;
    } else if rows[0].key == key {
      assert out[0].key == key;
      forall k ensures HasKey(out, k) <==> HasKey(rows, k) {
        if HasKey(rows, k) {
          var i :| 0 <= i < |rows| && rows[i].key == k;
          assert out[i].key == k;
        }
      }
    } else {
      var rest := rows[1..];
      UpsertRows(rest, key, inc);
      var sub := Upsert(rest, key, inc);
      assert out == [rows[0]] + sub;
      forall k ensures HasKey(out, k) <==> HasKey(rows, k) || k == key {
        HasKeyCons(rows[0], rest, k);
        HasKeyCons(rows[0], sub, k);
        assert rows == [rows[0]] + rest;
      }
      assert !HasKey(rest, rows[0].key);
    }
  }

  lemma HasKeyCons(row: Row, rest: seq<Row>, k: Key)
    ensures HasKey([row] + rest, k) <==> row.key == k || HasKey(rest, k)
  {
    var all := [row] + rest;
    if HasKey(rest, k) {
      var i :| 0 <= i < |rest| && rest[i].key == k;
      assert all[i + 1].key == k;
    }
    if row.key == k {
      assert all[0].key == k;
    }
  }

  lemma TotalIsZeroWithoutKey(records: seq<CallRecord>, log: seq<Entry>, t: Table, k: Key)
    requires forall i | 0 <= i < |log| :: log[i].id < |records| && KeyOf(t, records[log[i].id]) != k
    ensures Total(records, log, t, k) == ZERO
  {
  }

  /** Totals depend on the rows of aggregated records only, so new records leave them alone. */
  lemma {:induction false} TotalIgnoresNewRecords(records: seq<CallRecord>, more: seq<CallRecord>, log: seq<Entry>, t: Table, k: Key)
    requires forall i | 0 <= i < |log| :: log[i].id < |records|
    ensures Total(records + more, log, t, k) == Total(records, log, t, k)
  {
    if log != [] {
      TotalIgnoresNewRecords(records, more, log[..|log| - 1], t, k);
    }
  }

  lemma AddToZero(c: Counters)
    requires Words(c)
    ensures Add(ZERO, c) == c
  {
  }

  lemma ApplyRecordKeepsTable(records: seq<CallRecord>, log: seq<Entry>, t: Table, rows: seq<Row>, e: Entry)
    requires forall i | 0 <= i < |log| :: log[i].id < |records|
    requires e.id < |records| && TableExact(records, log, t, rows)
    ensures var r := records[e.id];
            TableExact(records, log + [e], t, Upsert(rows, KeyOf(t, r), Increment(t, r, e.credits)))
  {
    var r := records[e.id];
    var key := KeyOf(t, r);
    var inc := Increment(t, r, e.credits);
    var out := Upsert(rows, key, inc);
    UpsertRows(rows, key, inc);
    assert (log + [e])[..|log|] == log;
    forall i | 0 <= i < |out|
      ensures Words(out[i].counts) && out[i].counts == Total(records, log + [e], t, out[i].key)
    {
      if out[i].key == key && !HasKey(rows, key) {
        TotalIsZeroWithoutKey(records, log, t, key);
        AddToZero(inc);
      }
    }
    forall i | 0 <= i < |log + [e]| ensures HasKey(out, KeyOf(t, records[(log + [e])[i].id])) {
      if i < |log| {
        assert HasKey(rows, KeyOf(t, records[log[i].id]));
      }
    }
  }

  lemma ApplyRecordKeeps(s: State, records: seq<CallRecord>, id: RecordId, credits: int)
    requires TablesExact(s, records) && id < |records|
    ensures TablesExact(ApplyRecord(s, records[id], id, credits), records)
  {
    hide TableExact, Upsert;
    forall t | t in s.tables
      ensures TableExact(records, s.aggregated + [Entry(id, credits)], t,
                         UpsertAll(s.tables, records[id], credits)[t])
    {
      ApplyRecordKeepsTable(records, s.aggregated, t, s.tables[t], Entry(id, credits));
    }
  }

  function Entries(ids: seq<RecordId>, amounts: RecordId -> int): (log: seq<Entry>)
    ensures |log| == |ids| && forall i | 0 <= i < |ids| :: log[i] == Entry(ids[i], amounts(ids[i]))
  {
    seq(|ids|, i requires 0 <= i < |ids| => Entry(ids[i], amounts(ids[i])))
  }

  lemma {:induction false} ApplyAllLog(s: State, records: seq<CallRecord>, ids: seq<RecordId>, amounts: RecordId -> int)
    requires forall i | 0 <= i < |ids| :: ids[i] < |records|
    ensures ApplyAll(s, records, ids, amounts).aggregated == s.aggregated + Entries(ids, amounts)
    decreases |ids|
  {
    if ids != [] {
      var n := |ids| - 1;
      ApplyAllLog(s, records, ids[..n], amounts);
      assert Entries(ids, amounts) == Entries(ids[..n], amounts) + [Entry(ids[n], amounts(ids[n]))];
    }
  }

  lemma {:induction false} ApplyAllKeeps(s: State, records: seq<CallRecord>, ids: seq<RecordId>, amounts: RecordId -> int)
    requires TablesExact(s, records) && forall i | 0 <= i < |ids| :: ids[i] < |records|
    ensures TablesExact(ApplyAll(s, records, ids, amounts), records)
    decreases |ids|
  {
    if ids != [] {
      var n := |ids| - 1;
      var before := ApplyAll(s, records, ids[..n], amounts);
      assert TablesExact(before, records) by {
        ApplyAllKeeps(s, records, ids[..n], amounts);
      }
      var after := ApplyRecord(before, records[ids[n]], ids[n], amounts(ids[n]));
      assert TablesExact(after, records) by {
        ApplyRecordKeeps(before, records, ids[n], amounts(ids[n]));
      }
      assert ApplyAll(s, records, ids, amounts) == after;
    }
  }

  /** The queue holds the identifiers that follow the counted ones. */
  lemma PendingIsSuffix(s: State, records: seq<CallRecord>)
    requires QueueExact(s, records)
    ensures |s.aggregated| + |s.pending| == |records|
    ensures forall i | 0 <= i < |s.pending| :: s.pending[i] == |s.aggregated| + i
  {
    var all := Ids(s.aggregated) + s.pending;
    forall i | 0 <= i < |s.pending| ensures s.pending[i] == |s.aggregated| + i {
      assert s.pending[i] == all[|s.aggregated| + i];
    }
  }

  lemma TablesExactIgnoresQueue(s: State, pending: seq<RecordId>, records: seq<CallRecord>)
    requires TablesExact(s, records)
    ensures TablesExact(s.(pending := pending), records)
  {
  }

  lemma BatchMoves(s: State, records: seq<CallRecord>, n: nat, a: State, amounts: RecordId -> int)
    requires QueueExact(s, records) && n <= |s.pending|
    requires a.aggregated == s.aggregated + Entries(s.pending[..n], amounts) && a.pending == s.pending[n..]
    ensures QueueExact(a, records)
  {
    var ids := s.pending[..n];
    assert Ids(a.aggregated) == Ids(s.aggregated) + ids;
    assert ids + a.pending == s.pending;
  }

  /** A batch moves exactly its records from the queue to the counted ones, with the amounts it was given. */
  lemma AggregateMoves(s: State, records: seq<CallRecord>, amounts: RecordId -> int)
    requires QueueExact(s, records)
    ensures var a := Aggregate(s, records, amounts);
            && a.aggregated == s.aggregated + Entries(s.pending[..BatchSize(s)], amounts)
            && a.pending == s.pending[BatchSize(s)..]
            && QueueExact(a, records)
  {
    hide ApplyAll, QueueExact;
    var ids := s.pending[..BatchSize(s)];
    PendingIsSuffix(s, records);
    ApplyAllLog(s, records, ids, amounts);
    BatchMoves(s, records, BatchSize(s), Aggregate(s, records, amounts), amounts);
  }

  lemma AggregateKeeps(s: State, records: seq<CallRecord>, amounts: RecordId -> int)
    requires Inv(s, records)
    ensures Inv(Aggregate(s, records, amounts), records)
  {
    var ids := s.pending[..BatchSize(s)];
    PendingIsSuffix(s, records);
    AggregateMoves(s, records, amounts);
    var applied := ApplyAll(s, records, ids, amounts);
    ApplyAllKeeps(s, records, ids, amounts);
    TablesExactIgnoresQueue(applied, s.pending[BatchSize(s)..], records);
  }

  lemma EnqueueQueue(s: State, records: seq<CallRecord>, r: CallRecord)
    requires QueueExact(s, records)
    ensures QueueExact(Enqueue(s, |records|), records + [r])
  {
    assert seq(|records| + 1, i => i) == seq(|records|, i => i) + [|records|];
    assert Ids(s.aggregated) + (s.pending + [|records|]) == (Ids(s.aggregated) + s.pending) + [|records|];
  }

  lemma EnqueueKeeps(s: State, records: seq<CallRecord>, r: CallRecord)
    requires Inv(s, records)
    ensures Inv(Enqueue(s, |records|), records + [r])
  {
    hide QueueExact, Total;
    EnqueueQueue(s, records, r);
    forall t | t in s.tables ensures TableExact(records + [r], s.aggregated, t, s.tables[t]) {
      forall k ensures Total(records + [r], s.aggregated, t, k) == Total(records, s.aggregated, t, k) {
        TotalIgnoresNewRecords(records, [r], s.aggregated, t, k);
      }
    }
  }

  lemma EmptyHolds()
    ensures Inv(EMPTY, [])
  {
  }

  // ---------------------------------------------------------------------------------------------
  // Agreement between the tables

  function Requests(rows: seq<Row>): nat {
    if rows == [] then 0 else Wrap(rows[0].counts.requests + Requests(rows[1..]))
  }

  lemma WrapAdd(a: nat, b: nat)
    ensures Wrap(Wrap(a) + b) == Wrap(a + b)
  {
  }

  lemma {:induction false} UpsertCountsOneRequest(rows: seq<Row>, key: Key, inc: Counters)
    requires inc.requests == 1
    ensures Requests(Upsert(rows, key, inc)) == Wrap(Requests(rows) + 1)
  {
    hide Wrap;
    if rows != [] {
      var rest := rows[1..];
      var out := Upsert(rows, key, inc);
      if rows[0].key == key {
        assert out[1..] == rest;
        WrapAdd(rows[0].counts.requests + 1, Requests(rest));
        WrapAdd(rows[0].counts.requests + Requests(rest), 1);
      } else {
        assert out[1..] == Upsert(rest, key, inc);
        UpsertCountsOneRequest(rest, key, inc);
        WrapAdd(Requests(rest) + 1, rows[0].counts.requests);
        WrapAdd(rows[0].counts.requests + Requests(rest), 1);
      }
    }
  }

  /** All four tables count the same requests: one per aggregated record, modulo the counter width. */
  ghost predicate RequestsAgree(s: State) {
    forall t | t in s.tables :: Requests(s.tables[t]) == Wrap(|s.aggregated|)
  }

  lemma ApplyRecordAgrees(s: State, r: CallRecord, id: RecordId, credits: int)
    requires RequestsAgree(s)
    ensures RequestsAgree(ApplyRecord(s, r, id, credits))
  {
    hide Requests, Wrap, Upsert, KeyOf;
    var tables := UpsertAll(s.tables, r, credits);
    forall t | t in tables ensures Requests(tables[t]) == Wrap(|s.aggregated| + 1) {
      UpsertCountsOneRequest(s.tables[t], KeyOf(t, r), Increment(t, r, credits));
      WrapAdd(|s.aggregated|, 1);
    }
  }

  lemma {:induction false} ApplyAllAgrees(s: State, records: seq<CallRecord>, ids: seq<RecordId>, amounts: RecordId -> int)
    requires RequestsAgree(s) && forall i | 0 <= i < |ids| :: ids[i] < |records|
    ensures RequestsAgree(ApplyAll(s, records, ids, amounts))
    decreases |ids|
  {
    if ids != [] {
      var n := |ids| - 1;
      ApplyAllAgrees(s, records, ids[..n], amounts);
      ApplyRecordAgrees(ApplyAll(s, records, ids[..n], amounts), records[ids[n]], ids[n], amounts(ids[n]));
    }
  }

  lemma AggregateAgrees(s: State, records: seq<CallRecord>, amounts: RecordId -> int)
    requires RequestsAgree(s)
    ensures RequestsAgree(Aggregate(s, records, amounts))
  {
    var ids := s.pending[..BatchSize(s)];
    if forall i | 0 <= i < |ids| :: ids[i] < |records| {
      ApplyAllAgrees(s, records, ids, amounts);
    }
  }

  // ---------------------------------------------------------------------------------------------
  // Credits in the tables

  function CreditsIn(rows: seq<Row>): int {
    if rows == [] then 0 else rows[0].counts.credits + CreditsIn(rows[1..])
  }

  function LoggedCredits(log: seq<Entry>): int {
    if log == [] then 0 else LoggedCredits(log[..|log| - 1]) + log[|log| - 1].credits
  }

  lemma {:induction false} UpsertAddsCredits(rows: seq<Row>, key: Key, inc: Counters)
    ensures CreditsIn(Upsert(rows, key, inc)) == CreditsIn(rows) + inc.credits
  {
    if rows != [] && rows[0].key != key {
      UpsertAddsCredits(rows[1..], key, inc);
      assert Upsert(rows, key, inc)[1..] == Upsert(rows[1..], key, inc);
    }
  }

  /** Each table that carries Credits carries the Credits of all counted records. */
  ghost predicate CreditsAgree(s: State) {
    forall t | t in s.tables && t != DurationTenMinute :: CreditsIn(s.tables[t]) == LoggedCredits(s.aggregated)
  }

  lemma ApplyRecordAgreesOnCredits(s: State, r: CallRecord, id: RecordId, credits: int)
    requires CreditsAgree(s)
    ensures CreditsAgree(ApplyRecord(s, r, id, credits))
  {
    var tables := UpsertAll(s.tables, r, credits);
    forall t | t in tables && t != DurationTenMinute
      ensures CreditsIn(tables[t]) == LoggedCredits(s.aggregated + [Entry(id, credits)])
    {
      UpsertAddsCredits(s.tables[t], KeyOf(t, r), Increment(t, r, credits));
      assert (s.aggregated + [Entry(id, credits)])[..|s.aggregated|] == s.aggregated;
    }
  }

  lemma {:induction false} ApplyAllAgreesOnCredits(s: State, records: seq<CallRecord>, ids: seq<RecordId>, amounts: RecordId -> int)
    requires CreditsAgree(s) && forall i | 0 <= i < |ids| :: ids[i] < |records|
    ensures CreditsAgree(ApplyAll(s, records, ids, amounts))
    decreases |ids|
  {
    if ids != [] {
      var n := |ids| - 1;
      ApplyAllAgreesOnCredits(s, records, ids[..n], amounts);
      ApplyRecordAgreesOnCredits(ApplyAll(s, records, ids[..n], amounts), records[ids[n]], ids[n], amounts(ids[n]));
    }
  }

  lemma AggregateAgreesOnCredits(s: State, records: seq<CallRecord>, amounts: RecordId -> int)
    requires CreditsAgree(s)
    ensures CreditsAgree(Aggregate(s, records, amounts))
  {
    var ids := s.pending[..BatchSize(s)];
    if forall i | 0 <= i < |ids| :: ids[i] < |records| {
      ApplyAllAgreesOnCredits(s, records, ids, amounts);
    }
  }

  // ---------------------------------------------------------------------------------------------
  // What the totals mean

  lemma HourStartOf(ts: nat, h: nat, rest: nat)
    requires ts == 3600 * h + rest && rest < 3600
    ensures HourStart(ts) == 3600 * h
  {
  }

  lemma TenMinuteStartOf(ts: nat, m: nat, rest: nat)
    requires ts == 600 * m + rest && rest < 600
    ensures TenMinuteStart(ts) == 600 * m
  {
  }

  lemma StartsOf(h: nat, m: nat, rest: nat)
    requires m < 6 && rest < 600
    ensures HourStart(3600 * h + 600 * m + rest) == 3600 * h
    ensures TenMinuteStart(3600 * h + 600 * m + rest) == 3600 * h + 600 * m
  {
    hide HourStart, TenMinuteStart;
    var ts := 3600 * h + 600 * m + rest;
    HourStartOf(ts, h, 600 * m + rest);
    TenMinuteStartOf(ts, 6 * h + m, rest);
  }

  lemma Boundaries(h: nat, m: nat)
    ensures 3600 * h % 3600 == 0 && (3600 * h + 600 * m) % 600 == 0
  {
    assert 3600 * h + 600 * m == 600 * (6 * h + m);
  }

  lemma SplitTime(ts: nat) returns (h: nat, m: nat, rest: nat)
    ensures ts == 3600 * h + 600 * m + rest && m < 6 && rest < 600
  {
    h := ts / 3600;
    var left := ts - 3600 * h;
    m := left / 600;
    rest := left - 600 * m;
  }

  /** Hours and ten-minute periods start on their boundary at or before the moment, and periods nest in hours. */
  lemma PeriodStarts(ts: nat)
    ensures HourStart(ts) % 3600 == 0 && HourStart(ts) <= ts < HourStart(ts) + 3600
    ensures TenMinuteStart(ts) % 600 == 0 && TenMinuteStart(ts) <= ts < TenMinuteStart(ts) + 600
    ensures HourStart(TenMinuteStart(ts)) == HourStart(ts)
  {
    hide HourStart, TenMinuteStart;
    var h, m, rest := SplitTime(ts);
    StartsOf(h, m, rest);
    StartsOf(h, m, 0);
    Boundaries(h, m);
  }

  /** The row a record goes to: its account or project by the hour, its model or its project and duration by ten minutes. */
  lemma KeyIs(r: CallRecord)
    ensures KeyOf(AccountHourly, r).AccountHour? && KeyOf(AccountHourly, r).user == r.user
            && IsHour(KeyOf(AccountHourly, r).hour, r.acceptedAt)
    ensures KeyOf(ProjectHourly, r).ProjectHour? && KeyOf(ProjectHourly, r).project == r.project
            && IsHour(KeyOf(ProjectHourly, r).hour, r.acceptedAt)
    ensures var k := KeyOf(ModelTenMinute, r);
            && k == ModelSlot(r.project, r.cacheHash, r.dtype, r.model, KeyOf(ModelTenMinute, r).period)
            && IsTenMinutes(k.period, r.acceptedAt)
    ensures var k := KeyOf(DurationTenMinute, r);
            && k.DurationSlot? && k.project == r.project && IsTenMinutes(k.period, r.acceptedAt)
            && k.bucket < 12 && LOWER_BOUNDS[k.bucket] <= r.durationMs
            && (k.bucket < 11 ==> r.durationMs < LOWER_BOUNDS[k.bucket + 1])
  {
    PeriodStarts(r.acceptedAt);
    hide HourStart, TenMinuteStart;
    assert BOUNDS == LOWER_BOUNDS;
    hide BucketOf;
    BucketHolds(r.durationMs);
  }

  lemma BucketHolds(ms: nat)
    ensures BucketOf(ms) < |BOUNDS| && InBucket(BucketOf(ms), ms)
  {
  }

  /** The milliseconds at which the duration buckets begin. */
  ghost const LOWER_BOUNDS: seq<nat> := [0, 250, 500, 1000, 2000, 5000, 10000, 30000, 60000, 120000, 300000, 600000]

  ghost predicate IsHour(start: nat, ts: nat) { start % 3600 == 0 && start <= ts < start + 3600 }

  ghost predicate IsTenMinutes(start: nat, ts: nat) { start % 600 == 0 && start <= ts < start + 600 }

  datatype Quantity = RequestCount | Successes | Failures | Prompt | Completion | TotalTokens | Images

  /** What a record contributes to a table, as the statistics are meant to count it; the duration table counts requests. */
  function Contribution(t: Table, r: CallRecord, q: Quantity): nat {
    if t == DurationTenMinute && q != RequestCount then 0
    else
      match q
      case RequestCount => 1
      case Successes => if r.success then 1 else 0
      case Failures => if r.success then 0 else 1
      case Prompt => if r.tokenUsageApplicable then r.promptTokens else 0
      case Completion => if r.tokenUsageApplicable then r.completionTokens else 0
      case TotalTokens => if r.tokenUsageApplicable then r.totalTokens else 0
      case Images => if r.taskType == ImageTask then r.imageCount else 0
  }

  function CounterOf(c: Counters, q: Quantity): nat {
    match q
    case RequestCount => c.requests
    case Successes => c.successes
    case Failures => c.failures
    case Prompt => c.prompt
    case Completion => c.completion
    case TotalTokens => c.total
    case Images => c.images
  }

  function OfKey(records: seq<CallRecord>, t: Table, k: Key, q: Quantity): Entry -> int {
    (e: Entry) => if e.id < |records| && KeyOf(t, records[e.id]) == k then Contribution(t, records[e.id], q) else 0
  }

  function CreditsOfKey(records: seq<CallRecord>, t: Table, k: Key): Entry -> int {
    (e: Entry) => if e.id < |records| && KeyOf(t, records[e.id]) == k && t != DurationTenMinute then e.credits else 0
  }

  lemma WrapAddBoth(a: nat, b: nat)
    ensures Wrap(Wrap(a) + Wrap(b)) == Wrap(a + b)
  {
  }

  lemma AddCounter(a: Counters, b: Counters, q: Quantity)
    ensures CounterOf(Add(a, b), q) == Wrap(CounterOf(a, q) + CounterOf(b, q))
  {
  }

  lemma IncrementCounter(t: Table, r: CallRecord, credits: int, q: Quantity)
    ensures CounterOf(Increment(t, r, credits), q) == Wrap(Contribution(t, r, q))
  {
  }

  lemma IncrementCredits(t: Table, r: CallRecord, credits: int)
    ensures Increment(t, r, credits).credits == if t == DurationTenMinute then 0 else credits
  {
  }

  lemma CounterGrows(c: Counters, t: Table, r: CallRecord, credits: int, q: Quantity, sum: nat)
    requires CounterOf(c, q) == Wrap(sum)
    ensures CounterOf(Add(c, Increment(t, r, credits)), q) == Wrap(sum + Contribution(t, r, q))
  {
    hide CounterOf, Contribution, KeyOf, Increment, Add, Wrap;
    AddCounter(c, Increment(t, r, credits), q);
    IncrementCounter(t, r, credits, q);
    WrapAddBoth(sum, Contribution(t, r, q));
  }

  /** Each counter of a key's total is the sum of what its records contribute, modulo 2^64. */
  lemma {:induction false} TotalIsSum(records: seq<CallRecord>, log: seq<Entry>, t: Table, k: Key, q: Quantity)
    requires forall i | 0 <= i < |log| :: log[i].id < |records|
    ensures Sum(log, OfKey(records, t, k, q)) >= 0
    ensures CounterOf(Total(records, log, t, k), q) == Sum(log, OfKey(records, t, k, q)) % 0x1_0000_0000_0000_0000
  {
    if log != [] {
      hide CounterOf, Contribution, KeyOf, Increment, Add, Wrap;
      var n := |log| - 1;
      var r := records[log[n].id];
      TotalIsSum(records, log[..n], t, k, q);
      if KeyOf(t, r) == k {
        CounterGrows(Total(records, log[..n], t, k), t, r, log[n].credits, q, Sum(log[..n], OfKey(records, t, k, q)));
      }
    } else {
      ZeroCounter(q);
    }
  }

  lemma ZeroCounter(q: Quantity)
    ensures CounterOf(ZERO, q) == Wrap(0)
  {
  }

  /** A key's Credits are the sum of its records' Credits, exactly; the duration table carries none. */
  lemma {:induction false} TotalCreditsAreSum(records: seq<CallRecord>, log: seq<Entry>, t: Table, k: Key)
    requires forall i | 0 <= i < |log| :: log[i].id < |records|
    ensures Total(records, log, t, k).credits == Sum(log, CreditsOfKey(records, t, k))
  {
    if log != [] {
      hide KeyOf, Increment, Wrap;
      var n := |log| - 1;
      TotalCreditsAreSum(records, log[..n], t, k);
      IncrementCredits(t, records[log[n].id], log[n].credits);
    }
  }

  /** In every exact state, every row of every table holds these sums. */
  lemma RowIsSum(s: State, records: seq<CallRecord>, t: Table, i: nat, q: Quantity)
    requires TablesExact(s, records) && t in s.tables && i < |s.tables[t]|
    ensures var row := s.tables[t][i];
            && Sum(s.aggregated, OfKey(records, t, row.key, q)) >= 0
            && CounterOf(row.counts, q) == Wrap(Sum(s.aggregated, OfKey(records, t, row.key, q)))
            && row.counts.credits == Sum(s.aggregated, CreditsOfKey(records, t, row.key))
  {
    TotalIsSum(records, s.aggregated, t, s.tables[t][i].key, q);
    TotalCreditsAreSum(records, s.aggregated, t, s.tables[t][i].key);
  }
}
