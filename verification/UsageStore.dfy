/** The statistics tables as a batch updates them in place (service/usage_stats.go). */
module UsageStore {
  import opened UsageStats

  method UpsertInto(rows: seq<Row>, key: Key, inc: Counters) returns (out: seq<Row>)
    ensures out == Upsert(rows, key, inc)
  {
    hide Add;
    var i := 0;
    while i < |rows| && rows[i].key != key
      invariant 0 <= i <= |rows|
      invariant Upsert(rows, key, inc) == rows[..i] + Upsert(rows[i..], key, inc)
    {
      assert rows[i..][1..] == rows[i + 1..];
      assert rows[..i + 1] == rows[..i] + [rows[i]];
      i := i + 1;
    }
    if i < |rows| {
      var row := Row(key, Add(rows[i].counts, inc));
      assert rows[i..][1..] == rows[i + 1..];
      assert rows[i := row] == rows[..i] + ([row] + rows[i + 1..]);
      return rows[i := row];
    }
    assert rows[..i] == rows && rows[i..] == [];
    return rows + [Row(key, inc)];
  }

  lemma ApplyOneMore(s: State, records: seq<CallRecord>, ids: seq<RecordId>, i: nat, amounts: RecordId -> int)
    requires i < |ids| && forall k | 0 <= k < |ids| :: ids[k] < |records|
    ensures ApplyAll(s, records, ids[..i + 1], amounts)
            == ApplyRecord(ApplyAll(s, records, ids[..i], amounts), records[ids[i]], ids[i], amounts(ids[i]))
  {
    hide ApplyRecord;
    assert ids[..i + 1][..i] == ids[..i];
  }

  lemma ApplyNone(s: State, records: seq<CallRecord>, amounts: RecordId -> int)
    ensures ApplyAll(s, records, [], amounts) == s
  {
  }

  class UsageTables {
    var tables: map<Table, seq<Row>>
    var pending: seq<RecordId>
    ghost var aggregated: seq<Entry>

    ghost function Tables(): State
      reads this
    {
      State(tables, pending, aggregated)
    }

    constructor ()
      ensures Tables() == EMPTY
    {
      tables := map[AccountHourly := [], ProjectHourly := [], ModelTenMinute := [], DurationTenMinute := []];
      pending := [];
      aggregated := [];
    }

    /** Adds to the row of the key, or inserts it. */
    method UpsertRow(t: Table, key: Key, inc: Counters)
      requires t in tables
      modifies this`tables
      ensures tables == old(tables)[t := Upsert(old(tables)[t], key, inc)]
    {
      var rows := UpsertInto(tables[t], key, inc);
      tables := tables[t := rows];
    }

    /** One record into each of the four tables. */
    method ApplyCallRecord(r: CallRecord, id: RecordId, credits: int)
      requires tables.Keys == TABLES
      modifies this`tables, this`aggregated
      ensures Tables() == ApplyRecord(old(Tables()), r, id, credits) && tables.Keys == TABLES && pending == old(pending)
    {
      hide Upsert, KeyOf, Increment;
      UpsertRow(AccountHourly, KeyOf(AccountHourly, r), Increment(AccountHourly, r, credits));
      UpsertRow(ProjectHourly, KeyOf(ProjectHourly, r), Increment(ProjectHourly, r, credits));
      UpsertRow(ModelTenMinute, KeyOf(ModelTenMinute, r), Increment(ModelTenMinute, r, credits));
      UpsertRow(DurationTenMinute, KeyOf(DurationTenMinute, r), Increment(DurationTenMinute, r, credits));
      aggregated := aggregated + [Entry(id, credits)];
      assert tables == UpsertAll(old(tables), r, credits);
    }

    /** One batch of queued records; nothing changes when one of them has no permanent row. */
    method RunUsageStatsBaseAggregation(records: seq<CallRecord>, amounts: RecordId -> int) returns (processed: nat)
      requires tables.Keys == TABLES
      modifies this
      ensures Tables() == Aggregate(old(Tables()), records, amounts) && tables.Keys == TABLES
      ensures processed == |old(pending)| - |pending|
    {
      hide Upsert, ApplyRecord, ApplyAll;
      var size := if |pending| < BATCH then |pending| else BATCH;
      var ids := pending[..size];
      if exists i :: 0 <= i < |ids| && ids[i] >= |records| {
        return 0;
      }
      ghost var before := Tables();
      ApplyNone(before, records, amounts);
      for i := 0 to |ids|
        invariant Tables() == ApplyAll(before, records, ids[..i], amounts) && tables.Keys == TABLES && pending == old(pending)
      {
        ApplyOneMore(before, records, ids, i, amounts);
        ApplyCallRecord(records[ids[i]], ids[i], amounts(ids[i]));
      }
      assert ids[..|ids|] == ids;
      pending := pending[size..];
      processed := size;
    }
  }
}
