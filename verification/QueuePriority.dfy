/**
 Queue ordering by fixed-width text (models/llm_job.go) and the keyset scan for the lowest and highest priority
 of the queued Provider jobs (service/provider_queue_priority.go).
 */
module QueuePriority {
  import opened Numbers
  import opened Options
  import opened Texts

  // ---------------------------------------------------------------------------------------------
  // Decimal texts

  /** Texts of one width: a difference in the prefix decides. */
  lemma {:induction false} LessExtends(a: string, b: string, c: char, d: char)
    requires |a| == |b| && (Less(a, b) || (a == b && c < d))
    ensures Less(a + [c], b + [d])
  {
    if |a| > 0 {
      assert (a + [c])[1..] == a[1..] + [c] && (b + [d])[1..] == b[1..] + [d];
      if a[0] == b[0] {
        LessExtends(a[1..], b[1..], c, d);
      }
    }
  }

  function DigitChar(d: nat): char
    requires d < 10
  {
    '0' + d as char
  }

  /** The decimal text of a number, as big.Int prints it. */
  function DecimalText(x: nat): (s: string)
    ensures |s| > 0
  {
    if x < 10 then [DigitChar(x)] else DecimalText(x / 10) + [DigitChar(x % 10)]
  }

  const WIDTH: nat := 78

  function Zeros(n: nat): (s: string)
    ensures |s| == n
  {
    seq(n, i => '0')
  }

  function FormatSortablePriority(x: nat): string {
    var s := DecimalText(x);
    if |s| >= WIDTH then s else Zeros(WIDTH - |s|) + s
  }

  /** The last w decimal digits of a number. */
  function Fixed(x: nat, w: nat): (s: string)
    ensures |s| == w
  {
    if w == 0 then "" else Fixed(x / 10, w - 1) + [DigitChar(x % 10)]
  }

  lemma {:induction false} FixedOrders(x: nat, y: nat, w: nat)
    requires x < y < Pow10(w)
    ensures Less(Fixed(x, w), Fixed(y, w))
  {
    if w > 0 {
      if x / 10 < y / 10 {
        FixedOrders(x / 10, y / 10, w - 1);
      }
      LessExtends(Fixed(x / 10, w - 1), Fixed(y / 10, w - 1), DigitChar(x % 10), DigitChar(y % 10));
    }
  }

  lemma {:induction false} FixedOfZero(w: nat)
    ensures Fixed(0, w) == Zeros(w)
  {
    if w > 0 {
      FixedOfZero(w - 1);
    }
  }

  /** A number below 10^w has at most w digits (one for zero), and padding its text to w gives its w digits. */
  lemma {:induction false} PaddedIsFixed(x: nat, w: nat)
    requires x < Pow10(w) && w > 0
    ensures |DecimalText(x)| <= w
    ensures Zeros(w - |DecimalText(x)|) + DecimalText(x) == Fixed(x, w)
  {
    if x < 10 {
      FixedOfZero(w - 1);
    } else {
      PaddedIsFixed(x / 10, w - 1);
      var n := w - |DecimalText(x)|;
      assert Zeros(n) + DecimalText(x) == (Zeros(n) + DecimalText(x / 10)) + [DigitChar(x % 10)];
    }
  }

  lemma FormatIsFixed(x: nat)
    requires x < Pow10(WIDTH)
    ensures FormatSortablePriority(x) == Fixed(x, WIDTH)
  {
    PaddedIsFixed(x, WIDTH);
    if |DecimalText(x)| == WIDTH {
      assert Zeros(0) + DecimalText(x) == DecimalText(x);
    }
  }

  lemma {:induction false} PowerStartsWithOne(n: nat)
    ensures DecimalText(Pow10(n))[0] == '1' && |DecimalText(Pow10(n))| == n + 1
  {
    if n > 0 {
      PowerStartsWithOne(n - 1);
    }
  }

  lemma {:induction false} NinesStartWithNine(n: nat)
    requires n > 0
    ensures Pow10(n) >= 10 && DecimalText(Pow10(n) - 1)[0] == '9' && |DecimalText(Pow10(n) - 1)| == n
  {
    if n > 1 {
      NinesStartWithNine(n - 1);
      assert (Pow10(n) - 1) / 10 == Pow10(n - 1) - 1;
    }
  }

  /** The number a decimal text stands for. */
  function NumberOf(s: string): nat
    requires forall i | 0 <= i < |s| :: '0' <= s[i] <= '9'
  {
    if s == "" then 0 else 10 * NumberOf(s[..|s| - 1]) + (s[|s| - 1] - '0') as nat
  }

  lemma {:induction false} DecimalReadsBack(x: nat)
    ensures forall i | 0 <= i < |DecimalText(x)| :: '0' <= DecimalText(x)[i] <= '9'
    ensures NumberOf(DecimalText(x)) == x
  {
    if x < 10 {
      assert DecimalText(x)[..0] == "";
    } else {
      DecimalReadsBack(x / 10);
      var s := DecimalText(x);
      assert s[..|s| - 1] == DecimalText(x / 10);
    }
  }

  lemma {:induction false} ZerosAddNothing(n: nat, s: string)
    requires forall i | 0 <= i < |s| :: '0' <= s[i] <= '9'
    ensures forall i | 0 <= i < |Zeros(n) + s| :: '0' <= (Zeros(n) + s)[i] <= '9'
    ensures NumberOf(Zeros(n) + s) == NumberOf(s)
    decreases n + |s|
  {
    var all := Zeros(n) + s;
    if s != "" {
      assert all[..|all| - 1] == Zeros(n) + s[..|s| - 1];
      ZerosAddNothing(n, s[..|s| - 1]);
    } else if n > 0 {
      assert all[..|all| - 1] == Zeros(n - 1) + "";
      ZerosAddNothing(n - 1, "");
    }
  }

  /** The text is the number in decimal digits, with zeros in front up to 78 digits. */
  lemma FormatReadsBack(x: nat)
    ensures var s := FormatSortablePriority(x);
            && (forall i | 0 <= i < |s| :: '0' <= s[i] <= '9') && NumberOf(s) == x
            && |s| >= 78 && (x < MILLION_TO_THE_13 ==> |s| == 78) && (|s| > 78 ==> s[0] != '0')
  {
    DecimalReadsBack(x);
    WidthPower();
    hide Pow10, DecimalText, NumberOf;
    var s := DecimalText(x);
    if |s| < WIDTH {
      ZerosAddNothing(WIDTH - |s|, s);
    } else {
      NoLeadingZero(x);
    }
    if x < Pow10(WIDTH) {
      PaddedIsFixed(x, WIDTH);
    }
  }

  lemma {:induction false} NoLeadingZero(x: nat)
    ensures x > 0 ==> DecimalText(x)[0] != '0'
  {
    if x >= 10 {
      NoLeadingZero(x / 10);
    }
  }

  /** 10^78. */
  const MILLION_TO_THE_13: nat := 1_000000_000000_000000_000000_000000_000000_000000_000000_000000_000000_000000_000000_000000

  lemma {:induction false} PowerAdds(a: nat, b: nat)
    ensures Pow10(a + b) == Pow10(a) * Pow10(b)
  {
    if a > 0 {
      PowerAdds(a - 1, b);
      assert Pow10(a + b) == 10 * Pow10(a - 1 + b);
    }
  }

  lemma WidthPower()
    ensures Pow10(WIDTH) == MILLION_TO_THE_13
  {
    PowerOf26();
    hide Pow10;
    PowerAdds(26, 26);
    PowerAdds(26, 52);
  }

  lemma PowerOf26()
    ensures Pow10(26) == 100_000_000_000_000_000_000_000_000
  {
    PowerOf13();
    hide Pow10;
    PowerAdds(13, 13);
  }

  lemma PowerOf13()
    ensures Pow10(13) == 10_000_000_000_000
  {
  }

  lemma TextsAtTheLimit()
    ensures Less(FormatSortablePriority(Pow10(WIDTH)), FormatSortablePriority(Pow10(WIDTH) - 1))
    ensures !Less(FormatSortablePriority(Pow10(WIDTH) - 1), FormatSortablePriority(Pow10(WIDTH)))
  {
    hide Pow10;
    NinesStartWithNine(WIDTH);
    PowerStartsWithOne(WIDTH);
    assert FormatSortablePriority(Pow10(WIDTH) - 1)[0] == '9' && FormatSortablePriority(Pow10(WIDTH))[0] == '1';
  }

  lemma TextOrderHolds(x: nat, y: nat)
    requires x < y < Pow10(WIDTH)
    ensures Less(FormatSortablePriority(x), FormatSortablePriority(y))
  {
    FormatIsFixed(x);
    FormatIsFixed(y);
    FixedOrders(x, y, WIDTH);
  }

  /** The texts order exactly as the numbers for all numbers below a bound iff the bound is at most 10^78. */
  lemma TextOrderHoldsBelowIff(bound: nat)
    ensures (forall x: nat, y: nat | x < y < bound :: Less(FormatSortablePriority(x), FormatSortablePriority(y)))
            <==> bound <= MILLION_TO_THE_13
  {
    WidthPower();
    hide Pow10, FormatSortablePriority, Less;
    if bound <= Pow10(WIDTH) {
      forall x: nat, y: nat | x < y < bound ensures Less(FormatSortablePriority(x), FormatSortablePriority(y)) {
        TextOrderHolds(x, y);
      }
    } else {
      TextsAtTheLimit();
    }
  }

  // ---------------------------------------------------------------------------------------------
  // The keyset scan

  datatype Row = Row(id: nat, sortable: string, priority: nat, expiresAt: nat)

  /** (sortable_priority, id), ascending or descending. */
  predicate Before(a: Row, b: Row, ascending: bool) {
    var (x, y) := if ascending then (a, b) else (b, a);
    Less(x.sortable, y.sortable) || (x.sortable == y.sortable && x.id < y.id)
  }

  ghost predicate Ordered(rows: seq<Row>, ascending: bool) {
    forall i, k | 0 <= i < k < |rows| :: Before(rows[i], rows[k], ascending)
  }

  function Matching(rows: seq<Row>, cursor: Option<Row>, ascending: bool): seq<Row> {
    if rows == [] then []
    else
      var rest := Matching(rows[1..], cursor, ascending);
      if cursor.None? || Before(cursor.value, rows[0], ascending) then [rows[0]] + rest else rest
  }

  const BATCH: nat := 100

  function Page(rows: seq<Row>, cursor: Option<Row>, ascending: bool): seq<Row> {
    var all := Matching(rows, cursor, ascending);
    if |all| <= BATCH then all else all[..BATCH]
  }

  predicate Expired(r: Row, now: nat) { r.expiresAt < now }

  lemma {:induction false} NoCursorMatchesAll(rows: seq<Row>, ascending: bool)
    ensures Matching(rows, None, ascending) == rows
  {
    if rows != [] {
      NoCursorMatchesAll(rows[1..], ascending);
    }
  }

  lemma {:induction false} AllAfterMatch(rows: seq<Row>, c: Row, ascending: bool)
    requires forall i | 0 <= i < |rows| :: Before(c, rows[i], ascending)
    ensures Matching(rows, Some(c), ascending) == rows
  {
    if rows != [] {
      AllAfterMatch(rows[1..], c, ascending);
    }
  }

  /** In ordered rows the rows past a cursor are the rows after it. */
  lemma {:induction false} CursorMatchesRest(rows: seq<Row>, n: nat, ascending: bool)
    requires Ordered(rows, ascending) && n < |rows|
    ensures Matching(rows, Some(rows[n]), ascending) == rows[n + 1..]
  {
    var c := rows[n];
    if n == 0 {
      BeforeIsIrreflexive(c, ascending);
      AllAfterMatch(rows[1..], c, ascending);
    } else {
      BeforeIsAsymmetric(rows[0], c, ascending);
      CursorMatchesRest(rows[1..], n - 1, ascending);
    }
  }

  lemma BeforeIsIrreflexive(a: Row, ascending: bool)
    ensures !Before(a, a, ascending)
  {
    if Less(a.sortable, a.sortable) {
      LessIsAsymmetric(a.sortable, a.sortable);
    }
  }

  lemma BeforeIsAsymmetric(a: Row, b: Row, ascending: bool)
    requires Before(a, b, ascending)
    ensures !Before(b, a, ascending)
  {
    if Less(a.sortable, b.sortable) {
      LessIsAsymmetric(a.sortable, b.sortable);
    }
    if Less(b.sortable, a.sortable) {
      LessIsAsymmetric(b.sortable, a.sortable);
    }
  }

  /** The first row in scan order that has not expired. */
  ghost predicate IsFirstLive(rows: seq<Row>, now: nat, r: Option<Row>) {
    match r
    case None => forall i | 0 <= i < |rows| :: rows[i].expiresAt < now
    case Some(row) =>
      exists n :: 0 <= n < |rows| && rows[n] == row && now <= row.expiresAt && forall i | 0 <= i < n :: rows[i].expiresAt < now
  }

  method FirstLive(page: seq<Row>, now: nat) returns (r: Option<Row>)
    ensures IsFirstLive(page, now, r)
  {
    for i := 0 to |page|
      invariant forall k | 0 <= k < i :: Expired(page[k], now)
    {
      if !Expired(page[i], now) {
        return Some(page[i]);
      }
    }
    return None;
  }

  /** The first live row of a later part is the first of all when everything before it has expired. */
  lemma FirstOfRest(rows: seq<Row>, now: nat, seen: nat, page: seq<Row>, r: Option<Row>)
    requires seen <= |rows| && page <= rows[seen..] && forall i | 0 <= i < seen :: Expired(rows[i], now)
    requires IsFirstLive(page, now, r)
    ensures r.Some? ==> IsFirstLive(rows, now, r)
    ensures r.None? ==> forall i | 0 <= i < seen + |page| :: Expired(rows[i], now)
  {
    assert forall i | 0 <= i < |page| :: page[i] == rows[seen + i];
    if r.Some? {
      var n :| 0 <= n < |page| && page[n] == r.value && !Expired(r.value, now) && forall i | 0 <= i < n :: Expired(page[i], now);
      assert rows[seen + n] == r.value;
      forall i | 0 <= i < seen + n ensures Expired(rows[i], now) {
        if i >= seen {
          assert rows[i] == page[i - seen];
        }
      }
    }
  }

  /**
   Reads pages of 100 past the last row seen until a live row turns up or a short page ends the scan. `rows` are
   the queued rows in scan order; the result is that of one unpaged search.
   */
  method FirstNonExpiredProviderQueuedJob(rows: seq<Row>, now: nat, ascending: bool) returns (r: Option<Row>)
    requires Ordered(rows, ascending)
    ensures IsFirstLive(rows, now, r)
  {
    var cursor: Option<Row> := None;
    ghost var seen := 0;
    NoCursorMatchesAll(rows, ascending);
    while true
      invariant 0 <= seen <= |rows|
      invariant Matching(rows, cursor, ascending) == rows[seen..]
      invariant forall i | 0 <= i < seen :: Expired(rows[i], now)
      decreases |rows| - seen
    {
      var page := Page(rows, cursor, ascending);
      if page == [] {
        return None;
      }
      hide Before, Matching, Ordered;
      r := FirstLive(page, now);
      FirstOfRest(rows, now, seen, page, r);
      if r.Some? || |page| < BATCH {
        return;
      }
      cursor := Some(page[|page| - 1]);
      seen := seen + |page|;
      assert cursor.value == rows[seen - 1];
      CursorMatchesRest(rows, seen - 1, ascending);
    }
  }

  // ---------------------------------------------------------------------------------------------
  // The snapshot

  function Reversed(rows: seq<Row>): (out: seq<Row>)
    ensures |out| == |rows| && forall i | 0 <= i < |rows| :: out[i] == rows[|rows| - 1 - i]
  {
    seq(|rows|, i requires 0 <= i < |rows| => rows[|rows| - 1 - i])
  }

  ghost predicate Formatted(rows: seq<Row>) {
    forall i | 0 <= i < |rows| ::
      rows[i].priority < Pow10(WIDTH) && rows[i].sortable == FormatSortablePriority(rows[i].priority)
  }

  /** Rows come by priority as numbers and then by id, and in descending order the other way round. */
  lemma BeforeIsNumeric(a: Row, b: Row)
    requires Formatted([a, b])
    ensures Before(a, b, true) <==> a.priority < b.priority || (a.priority == b.priority && a.id < b.id)
    ensures Before(a, b, false) <==> b.priority < a.priority || (a.priority == b.priority && b.id < a.id)
  {
    assert [a, b][0] == a && [a, b][1] == b;
    LessIsNumeric(a.priority, b.priority);
    LessIsNumeric(b.priority, a.priority);
    FormatReadsBack(a.priority);
    FormatReadsBack(b.priority);
  }

  lemma LessIsNumeric(x: nat, y: nat)
    requires x < Pow10(WIDTH) && y < Pow10(WIDTH)
    ensures Less(FormatSortablePriority(x), FormatSortablePriority(y)) <==> x < y
  {
    hide Pow10, FormatSortablePriority;
    if x < y {
      TextOrderHolds(x, y);
    } else {
      if y < x {
        TextOrderHolds(y, x);
      }
      if Less(FormatSortablePriority(x), FormatSortablePriority(y)) {
        LessIsAsymmetric(FormatSortablePriority(x), FormatSortablePriority(y));
      }
    }
  }

  /** In ascending row order priorities do not decrease. */
  lemma OrderedPriorities(rows: seq<Row>, i: nat, k: nat)
    requires Ordered(rows, true) && Formatted(rows) && i <= k < |rows|
    ensures rows[i].priority <= rows[k].priority
  {
    if rows[k].priority < rows[i].priority {
      TextOrderHolds(rows[k].priority, rows[i].priority);
      assert Less(rows[k].sortable, rows[i].sortable);
      assert Before(rows[k], rows[i], true);
      BeforeIsAsymmetric(rows[k], rows[i], true);
    }
  }

  datatype Snapshot = Snapshot(observedAt: nat, bounds: Option<(nat, nat)>)

  predicate AnyLive(rows: seq<Row>, now: nat) {
    exists i :: 0 <= i < |rows| && now <= rows[i].expiresAt
  }

  ghost predicate IsLeastLive(rows: seq<Row>, now: nat, p: nat) {
    && (exists i :: 0 <= i < |rows| && now <= rows[i].expiresAt && rows[i].priority == p)
    && forall i | 0 <= i < |rows| && now <= rows[i].expiresAt :: p <= rows[i].priority
  }

  ghost predicate IsGreatestLive(rows: seq<Row>, now: nat, p: nat) {
    && (exists i :: 0 <= i < |rows| && now <= rows[i].expiresAt && rows[i].priority == p)
    && forall i | 0 <= i < |rows| && now <= rows[i].expiresAt :: rows[i].priority <= p
  }

  lemma FirstLiveIsLeast(rows: seq<Row>, now: nat, row: Row)
    requires Ordered(rows, true) && Formatted(rows) && IsFirstLive(rows, now, Some(row))
    ensures IsLeastLive(rows, now, row.priority)
  {
    hide Ordered, Formatted;
    var n :| 0 <= n < |rows| && rows[n] == row && !Expired(row, now) && forall i | 0 <= i < n :: Expired(rows[i], now);
    forall i | 0 <= i < |rows| && !Expired(rows[i], now) ensures row.priority <= rows[i].priority {
      OrderedPriorities(rows, n, i);
    }
  }

  lemma LastLiveIsGreatest(rows: seq<Row>, now: nat, row: Row)
    requires Ordered(rows, true) && Formatted(rows) && IsFirstLive(Reversed(rows), now, Some(row))
    ensures IsGreatestLive(rows, now, row.priority)
  {
    hide Ordered, Formatted;
    var down := Reversed(rows);
    var m :| 0 <= m < |rows| && down[m] == row && !Expired(row, now) && forall i | 0 <= i < m :: Expired(down[i], now);
    var top := |rows| - 1 - m;
    assert rows[top] == row;
    forall i | 0 <= i < |rows| && !Expired(rows[i], now) ensures rows[i].priority <= row.priority {
      assert down[|rows| - 1 - i] == rows[i];
      OrderedPriorities(rows, i, top);
    }
  }

  lemma ReversedIsOrdered(rows: seq<Row>)
    requires Ordered(rows, true)
    ensures Ordered(Reversed(rows), false)
  {
  }

  lemma NoneIsReversed(rows: seq<Row>, now: nat)
    ensures AnyLive(Reversed(rows), now) <==> AnyLive(rows, now)
  {
    var down := Reversed(rows);
    if i :| 0 <= i < |rows| && !Expired(rows[i], now) {
      assert down[|rows| - 1 - i] == rows[i];
    }
  }

  class ProviderQueuePriority {
    var snapshot: Snapshot

    constructor ()
      ensures snapshot == Snapshot(0, None)
    {
      snapshot := Snapshot(0, None);
    }

    /**
     `rows` are the queued Provider jobs, in ascending order, when the first search runs and `later` when the second
     does. A failed second search leaves the old snapshot.
     */
    method Refresh(rows: seq<Row>, later: seq<Row>, now: nat) returns (ok: bool)
      requires Ordered(rows, true) && Formatted(rows) && Ordered(later, true) && Formatted(later)
      modifies this
      ensures ok <==> (AnyLive(rows, now) ==> AnyLive(later, now))
      ensures !ok ==> snapshot == old(snapshot)
      ensures ok ==> snapshot.observedAt == now && (snapshot.bounds.Some? <==> AnyLive(rows, now))
      ensures ok && snapshot.bounds.Some? ==>
                IsLeastLive(rows, now, snapshot.bounds.value.0) && IsGreatestLive(later, now, snapshot.bounds.value.1)
    {
      hide Ordered, Formatted, IsLeastLive, IsGreatestLive;
      var lowest := FirstNonExpiredProviderQueuedJob(rows, now, true);
      if lowest.None? {
        snapshot := Snapshot(now, None);
        return true;
      }
      FirstLiveIsLeast(rows, now, lowest.value);
      ReversedIsOrdered(later);
      NoneIsReversed(later, now);
      var highest := FirstNonExpiredProviderQueuedJob(Reversed(later), now, false);
      if highest.None? {
        return false;
      }
      LastLiveIsGreatest(later, now, highest.value);
      snapshot := Snapshot(now, Some((lowest.value.priority, highest.value.priority)));
      return true;
    }
  }
}
