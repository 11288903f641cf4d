/**
 Key Owner earnings and withdrawals (service/earning.go and service/earning_withdrawal.go).

 A table is the sequence of its rows; a row's primary key is its index. Every function that stands for a
 database transaction returns the new tables, or the error on which the transaction rolls back.
 */
module Earnings {
  import opened Options
  import opened Sums

  type UserId = nat
  type WithdrawalId = nat

  datatype Account = Account(available: int, locked: int)

  datatype Status = Pending | Success | Failed

  datatype Withdrawal = Withdrawal(
    user: UserId, benefit: string, network: string, amount: int, fee: int, status: Status, createdAt: nat,
    fingerprint: string)
  {
    function Total(): int { amount + fee }
  }

  /** The event type determines the source table, so (kind, source) is the unique ledger key. */
  datatype Kind = TaskIncome | FeeIncome | Withdraw | Refund

  /** `owner` is None for fee income, which belongs to no earning account. */
  datatype Event = Event(owner: Option<UserId>, kind: Kind, source: nat, amount: int)

  datatype State = State(accounts: map<UserId, Account>, withdrawals: seq<Withdrawal>, events: seq<Event>)

  datatype Network = Network(minAmount: int, fee: int, maxPerDay: nat)

  type Config = map<string, Network>

  datatype Error =
    | InvalidAmount | UnknownNetwork | BelowMinimum | StaleAuthorization | BenefitMismatch | BadSignature
    | InsufficientEarnings | DailyLimit | AuthorizationReplay | NotFound | Conflict | Inconsistent | DuplicateEvent

  datatype Result = Committed(state: State) | RolledBack(error: Error)

  /**
   A signed request. The benefit address read from the chain, whether it matches the requested one, the
   signature check and the message fingerprint are inputs.
   */
  datatype Request = Request(
    user: UserId, amount: int, network: string, benefit: string, benefitMatches: bool, timestamp: int,
    signatureValid: bool, fingerprint: string)

  const SECONDS_PER_DAY: nat := 86400

  function Day(t: nat): nat { t / SECONDS_PER_DAY }

  // ---------------------------------------------------------------------------------------------
  // Row functions summed over the tables

  function Entry(kind: Kind, source: nat): Event -> int {
    (e: Event) => if e.kind == kind && e.source == source then 1 else 0
  }

  function EntryAmount(kind: Kind, source: nat): Event -> int {
    (e: Event) => if e.kind == kind && e.source == source then e.amount else 0
  }

  function SignedFor(u: UserId): Event -> int {
    (e: Event) => if e.owner != Some(u) then 0 else if e.kind == Withdraw then -e.amount else e.amount
  }

  function IncomeFor(u: UserId): Event -> int {
    (e: Event) => if e.owner == Some(u) && e.kind == TaskIncome then e.amount else 0
  }

  function PendingFor(u: UserId): Withdrawal -> int {
    (w: Withdrawal) => if w.user == u && w.status == Pending then w.Total() else 0
  }

  function PaidFor(u: UserId): Withdrawal -> int {
    (w: Withdrawal) => if w.user == u && w.status == Success then w.Total() else 0
  }

  function LiveForUser(u: UserId, network: string, day: nat): Withdrawal -> int {
    (w: Withdrawal) =>
      if w.user == u && w.network == network && Day(w.createdAt) == day && w.status != Failed then 1 else 0
  }

  function LiveForBenefit(benefit: string, network: string, day: nat): Withdrawal -> int {
    (w: Withdrawal) =>
      if w.benefit == benefit && w.network == network && Day(w.createdAt) == day && w.status != Failed then 1 else 0
  }

  /** What the daily-limit query counts: non-failed rows created at or after the start of today. */
  function SinceForUser(u: UserId, network: string, start: nat): Withdrawal -> int {
    (w: Withdrawal) => if w.user == u && w.network == network && w.createdAt >= start && w.status != Failed then 1 else 0
  }

  function SinceForBenefit(benefit: string, network: string, start: nat): Withdrawal -> int {
    (w: Withdrawal) =>
      if w.benefit == benefit && w.network == network && w.createdAt >= start && w.status != Failed then 1 else 0
  }

  // ---------------------------------------------------------------------------------------------
  // Transactions

  const EMPTY: State := State(map[], [], [])

  predicate HasEvent(s: State, kind: Kind, source: nat) {
    exists i :: 0 <= i < |s.events| && s.events[i].kind == kind && s.events[i].source == source
  }

  function AccountOf(s: State, u: UserId): Account {
    if u in s.accounts then s.accounts[u] else Account(0, 0)
  }

  /** Pays a call's earning to its key owner; a non-positive amount pays nothing. */
  function Income(s: State, u: UserId, amount: int, record: nat): Result {
    if amount <= 0 then Committed(s)
    else if HasEvent(s, TaskIncome, record) then RolledBack(DuplicateEvent)
    else
      var a := AccountOf(s, u);
      Committed(s.(accounts := s.accounts[u := a.(available := a.available + amount)],
                   events := s.events + [Event(Some(u), TaskIncome, record, amount)]))
  }

  /** Checks made before the transaction starts, in order. */
  function Refusal(cfg: Config, r: Request, now: nat): Option<Error> {
    if r.amount <= 0 then Some(InvalidAmount)
    else if r.network !in cfg then Some(UnknownNetwork)
    else if r.amount < cfg[r.network].minAmount then Some(BelowMinimum)
    else if r.timestamp < now - 120 || r.timestamp > now + 60 then Some(StaleAuthorization)
    else if !r.benefitMatches then Some(BenefitMismatch)
    else if !r.signatureValid then Some(BadSignature)
    else None
  }

  function Create(cfg: Config, s: State, r: Request, now: nat): Result {
    var refusal := Refusal(cfg, r, now);
    if refusal.Some? then RolledBack(refusal.value)
    else
      var network := cfg[r.network];
      var total := r.amount + network.fee;
      var start := Day(now) * SECONDS_PER_DAY;
      if r.user !in s.accounts then RolledBack(InsufficientEarnings)
      else if Sum(s.withdrawals, SinceForUser(r.user, r.network, start)) >= network.maxPerDay then RolledBack(DailyLimit)
      else if Sum(s.withdrawals, SinceForBenefit(r.benefit, r.network, start)) >= network.maxPerDay then
        RolledBack(DailyLimit)
      else if s.accounts[r.user].available < total then RolledBack(InsufficientEarnings)
      else if exists i :: 0 <= i < |s.withdrawals| && s.withdrawals[i].fingerprint == r.fingerprint then
        RolledBack(AuthorizationReplay)
      else if HasEvent(s, Withdraw, |s.withdrawals|) then RolledBack(DuplicateEvent)
      else
        var a := s.accounts[r.user];
        var w := Withdrawal(r.user, r.benefit, r.network, r.amount, network.fee, Pending, now, r.fingerprint);
        Committed(State(
                    s.accounts[r.user := Account(a.available - total, a.locked + total)],
                    s.withdrawals + [w],
                    s.events + [Event(Some(r.user), Withdraw, |s.withdrawals|, total)]))
  }

  function Fulfill(s: State, id: WithdrawalId): Result {
    if id >= |s.withdrawals| then RolledBack(NotFound)
    else
      var w := s.withdrawals[id];
      if w.user !in s.accounts then RolledBack(NotFound)
      else if w.status == Success then Committed(s)
      else if w.status != Pending then RolledBack(Conflict)
      else
        var a := s.accounts[w.user];
        if a.locked - w.Total() < 0 then RolledBack(Inconsistent)
        else
          // A fee event that already exists is ignored.
          var fee := if w.fee > 0 && !HasEvent(s, FeeIncome, id) then [Event(None, FeeIncome, id, w.fee)] else [];
          Committed(State(
                      s.accounts[w.user := a.(locked := a.locked - w.Total())],
                      s.withdrawals[id := w.(status := Success)],
                      s.events + fee))
  }

  function Reject(s: State, id: WithdrawalId): Result {
    if id >= |s.withdrawals| then RolledBack(NotFound)
    else
      var w := s.withdrawals[id];
      if w.user !in s.accounts then RolledBack(NotFound)
      else if w.status == Failed then Committed(s)
      else if w.status != Pending then RolledBack(Conflict)
      else
        var a := s.accounts[w.user];
        if a.locked - w.Total() < 0 then RolledBack(Inconsistent)
        else
          // A refund event that already exists is ignored, after the account row has been saved.
          var refund := if HasEvent(s, Refund, id) then [] else [Event(Some(w.user), Refund, id, w.Total())];
          Committed(State(
                      s.accounts[w.user := Account(a.available + w.Total(), a.locked - w.Total())],
                      s.withdrawals[id := w.(status := Failed)],
                      s.events + refund))
  }

  // ---------------------------------------------------------------------------------------------
  // The invariant

  ghost predicate ValidConfig(cfg: Config) {
    forall n | n in cfg :: 0 <= cfg[n].fee
  }

  /** Balances agree with the event table and with the withdrawal table, user by user. */
  ghost predicate Balanced(s: State, u: UserId) {
    var a := AccountOf(s, u);
    && 0 <= a.available
    && a.available == Sum(s.events, SignedFor(u))
    && a.locked == Sum(s.withdrawals, PendingFor(u))
    && Sum(s.events, IncomeFor(u)) == a.available + a.locked + Sum(s.withdrawals, PaidFor(u))
  }

  /** Which events a withdrawal has, as a function of its status. */
  ghost predicate Evented(s: State, id: WithdrawalId)
    requires id < |s.withdrawals|
  {
    var w := s.withdrawals[id];
    && Sum(s.events, Entry(Withdraw, id)) == 1
    && Sum(s.events, EntryAmount(Withdraw, id)) == w.Total()
    && Sum(s.events, Entry(Refund, id)) == (if w.status == Failed then 1 else 0)
    && Sum(s.events, EntryAmount(Refund, id)) == (if w.status == Failed then w.Total() else 0)
    && Sum(s.events, Entry(FeeIncome, id)) == (if w.status == Success && w.fee > 0 then 1 else 0)
    && Sum(s.events, EntryAmount(FeeIncome, id)) == (if w.status == Success then w.fee else 0)
  }

  ghost predicate RowsOk(s: State, clock: nat) {
    && (forall i | 0 <= i < |s.withdrawals| ::
          var w := s.withdrawals[i];
          w.amount > 0 && 0 <= w.fee && w.createdAt <= clock && w.user in s.accounts)
    && (forall i, k | 0 <= i < k < |s.withdrawals| :: s.withdrawals[i].fingerprint != s.withdrawals[k].fingerprint)
    && (forall i | 0 <= i < |s.events| ::
          s.events[i].amount > 0 && (s.events[i].kind != TaskIncome ==> s.events[i].source < |s.withdrawals|))
    && (forall i, k | 0 <= i < k < |s.events| ::
          s.events[i].kind != s.events[k].kind || s.events[i].source != s.events[k].source)
  }

  ghost predicate WithinLimits(cfg: Config, s: State) {
    && (forall u, n, d | n in cfg :: Sum(s.withdrawals, LiveForUser(u, n, d)) <= cfg[n].maxPerDay)
    && (forall b, n, d | n in cfg :: Sum(s.withdrawals, LiveForBenefit(b, n, d)) <= cfg[n].maxPerDay)
  }

  ghost predicate Inv(cfg: Config, s: State, clock: nat) {
    && RowsOk(s, clock)
    && (forall u :: Balanced(s, u))
    && (forall id | 0 <= id < |s.withdrawals| :: Evented(s, id))
    && WithinLimits(cfg, s)
  }

  // ---------------------------------------------------------------------------------------------
  // Preservation

  lemma EventCountIsPresence(s: State, kind: Kind, source: nat)
    ensures HasEvent(s, kind, source) <==> Sum(s.events, Entry(kind, source)) > 0
  {
    SumAtLeastRow(s.events, Entry(kind, source));
    if !HasEvent(s, kind, source) {
      SumZero(s.events, Entry(kind, source));
    } else {
      var i :| 0 <= i < |s.events| && s.events[i].kind == kind && s.events[i].source == source;
      assert Entry(kind, source)(s.events[i]) == 1;
    }
  }

  lemma EmptyHolds(cfg: Config, clock: nat)
    ensures Inv(cfg, EMPTY, clock)
  {
  }

  lemma LaterClock(cfg: Config, s: State, clock: nat, later: nat)
    requires Inv(cfg, s, clock) && clock <= later
    ensures Inv(cfg, s, later)
  {
  }

  /** All sums over events after appending one event. */
  lemma AppendEvent(events: seq<Event>, e: Event)
    ensures forall f: Event -> int :: Sum(events + [e], f) == Sum(events, f) + f(e)
  {
    forall f: Event -> int ensures Sum(events + [e], f) == Sum(events, f) + f(e) {
      SumAppend(events, e, f);
    }
  }

  lemma AppendWithdrawal(rows: seq<Withdrawal>, w: Withdrawal)
    ensures forall f: Withdrawal -> int :: Sum(rows + [w], f) == Sum(rows, f) + f(w)
  {
    forall f: Withdrawal -> int ensures Sum(rows + [w], f) == Sum(rows, f) + f(w) {
      SumAppend(rows, w, f);
    }
  }

  lemma UpdateWithdrawal(rows: seq<Withdrawal>, id: WithdrawalId, w: Withdrawal)
    requires id < |rows|
    ensures forall f: Withdrawal -> int :: Sum(rows[id := w], f) == Sum(rows, f) - f(rows[id]) + f(w)
  {
    forall f: Withdrawal -> int ensures Sum(rows[id := w], f) == Sum(rows, f) - f(rows[id]) + f(w) {
      SumUpdate(rows, id, w, f);
    }
  }

  lemma IncomeKeeps(cfg: Config, s: State, u: UserId, amount: int, record: nat, clock: nat)
    requires Inv(cfg, s, clock) && Income(s, u, amount, record).Committed?
    ensures Inv(cfg, Income(s, u, amount, record).state, clock)
  {
    if amount > 0 {
      AppendEvent(s.events, Event(Some(u), TaskIncome, record, amount));
      var t := Income(s, u, amount, record).state;
      forall v ensures Balanced(t, v) {
        assert Balanced(s, v);
      }
      forall id | 0 <= id < |t.withdrawals| ensures Evented(t, id) {
        assert Evented(s, id);
      }
    }
  }

  /** Rows created at or after the start of today were created today. */
  lemma SinceIsToday(s: State, clock: nat, now: nat, u: UserId, b: string, n: string)
    requires RowsOk(s, clock) && clock <= now
    ensures var start := Day(now) * SECONDS_PER_DAY;
            && Sum(s.withdrawals, SinceForUser(u, n, start)) == Sum(s.withdrawals, LiveForUser(u, n, Day(now)))
            && Sum(s.withdrawals, SinceForBenefit(b, n, start)) == Sum(s.withdrawals, LiveForBenefit(b, n, Day(now)))
  {
    var start := Day(now) * SECONDS_PER_DAY;
    SumCongruent(s.withdrawals, SinceForUser(u, n, start), LiveForUser(u, n, Day(now)));
    SumCongruent(s.withdrawals, SinceForBenefit(b, n, start), LiveForBenefit(b, n, Day(now)));
  }

  /** Today's non-failed requests of a user or for a beneficial address on a network; days are UTC days. */
  ghost function TodayOfUser(s: State, u: UserId, network: string, now: nat): set<int> {
    set i | 0 <= i < |s.withdrawals| && s.withdrawals[i].user == u && s.withdrawals[i].network == network
            && s.withdrawals[i].status != Failed && s.withdrawals[i].createdAt / 86400 == now / 86400
  }

  ghost function TodayForBenefit(s: State, benefit: string, network: string, now: nat): set<int> {
    set i | 0 <= i < |s.withdrawals| && s.withdrawals[i].benefit == benefit && s.withdrawals[i].network == network
            && s.withdrawals[i].status != Failed && s.withdrawals[i].createdAt / 86400 == now / 86400
  }

  lemma TodayIsCounted(s: State, u: UserId, benefit: string, network: string, now: nat)
    ensures Sum(s.withdrawals, LiveForUser(u, network, Day(now))) == |TodayOfUser(s, u, network, now)|
    ensures Sum(s.withdrawals, LiveForBenefit(benefit, network, Day(now))) == |TodayForBenefit(s, benefit, network, now)|
  {
    SumIsCount(s.withdrawals, TodayOfUser(s, u, network, now), LiveForUser(u, network, Day(now)));
    SumIsCount(s.withdrawals, TodayForBenefit(s, benefit, network, now), LiveForBenefit(benefit, network, Day(now)));
  }

  /** The checks made before the transaction. */
  ghost predicate Wellformed(cfg: Config, r: Request) {
    r.amount > 0 && r.network in cfg && cfg[r.network].minAmount <= r.amount
  }

  ghost predicate Fresh(r: Request, now: nat) { now - 120 <= r.timestamp <= now + 60 }

  ghost predicate Authorized(cfg: Config, r: Request, now: nat) {
    Wellformed(cfg, r) && Fresh(r, now) && r.benefitMatches && r.signatureValid
  }

  ghost predicate BelowLimits(cfg: Config, s: State, r: Request, now: nat)
    requires r.network in cfg
  {
    && |TodayOfUser(s, r.user, r.network, now)| < cfg[r.network].maxPerDay
    && |TodayForBenefit(s, r.benefit, r.network, now)| < cfg[r.network].maxPerDay
  }

  ghost predicate Replayed(s: State, r: Request) {
    exists i :: 0 <= i < |s.withdrawals| && s.withdrawals[i].fingerprint == r.fingerprint
  }

  lemma LimitsAreCounts(cfg: Config, s: State, r: Request, clock: nat, now: nat)
    requires RowsOk(s, clock) && clock <= now && r.network in cfg
    ensures var start := Day(now) * SECONDS_PER_DAY;
            BelowLimits(cfg, s, r, now)
            <==> Sum(s.withdrawals, SinceForUser(r.user, r.network, start)) < cfg[r.network].maxPerDay
                 && Sum(s.withdrawals, SinceForBenefit(r.benefit, r.network, start)) < cfg[r.network].maxPerDay
  {
    hide RowsOk;
    SinceIsToday(s, clock, now, r.user, r.benefit, r.network);
    TodayIsCounted(s, r.user, r.benefit, r.network, now);
  }

  lemma NoWithdrawEvent(s: State, clock: nat)
    requires RowsOk(s, clock)
    ensures !HasEvent(s, Withdraw, |s.withdrawals|)
  {
  }

  /** Exactly when a request is accepted. */
  lemma CreateCommitsIff(cfg: Config, s: State, r: Request, clock: nat, now: nat)
    requires RowsOk(s, clock) && clock <= now
    ensures Create(cfg, s, r, now).Committed? <==>
              && r.amount > 0 && r.network in cfg && cfg[r.network].minAmount <= r.amount
              && now - 120 <= r.timestamp <= now + 60
              && r.benefitMatches && r.signatureValid
              && r.user in s.accounts
              && r.amount + cfg[r.network].fee <= s.accounts[r.user].available
              && |TodayOfUser(s, r.user, r.network, now)| < cfg[r.network].maxPerDay
              && |TodayForBenefit(s, r.benefit, r.network, now)| < cfg[r.network].maxPerDay
              && forall i | 0 <= i < |s.withdrawals| :: s.withdrawals[i].fingerprint != r.fingerprint
  {
    NoWithdrawEvent(s, clock);
    if r.network in cfg {
      LimitsAreCounts(cfg, s, r, clock, now);
    }
    hide RowsOk, HasEvent, TodayOfUser, TodayForBenefit;
  }

  /** Each error of a request, in the order of the checks. */
  lemma CreateErrors(cfg: Config, s: State, r: Request, clock: nat, now: nat)
    requires RowsOk(s, clock) && clock <= now
    ensures var out := Create(cfg, s, r, now);
            && (out == RolledBack(InvalidAmount) <==> r.amount <= 0)
            && (out == RolledBack(UnknownNetwork) <==> r.amount > 0 && r.network !in cfg)
            && (out == RolledBack(BelowMinimum) <==> r.amount > 0 && r.network in cfg && r.amount < cfg[r.network].minAmount)
            && (out == RolledBack(StaleAuthorization) <==> Wellformed(cfg, r) && !Fresh(r, now))
            && (out == RolledBack(BenefitMismatch) <==> Wellformed(cfg, r) && Fresh(r, now) && !r.benefitMatches)
            && (out == RolledBack(BadSignature) <==> Wellformed(cfg, r) && Fresh(r, now) && r.benefitMatches && !r.signatureValid)
            && (out == RolledBack(DailyLimit) <==>
                  Authorized(cfg, r, now) && r.user in s.accounts && !BelowLimits(cfg, s, r, now))
            && (out == RolledBack(InsufficientEarnings) <==>
                  Authorized(cfg, r, now)
                  && (r.user !in s.accounts
                      || (BelowLimits(cfg, s, r, now) && s.accounts[r.user].available < r.amount + cfg[r.network].fee)))
            && (out == RolledBack(AuthorizationReplay) <==>
                  Authorized(cfg, r, now) && r.user in s.accounts && BelowLimits(cfg, s, r, now)
                  && s.accounts[r.user].available >= r.amount + cfg[r.network].fee && Replayed(s, r))
  {
    NoWithdrawEvent(s, clock);
    if r.network in cfg {
      LimitsAreCounts(cfg, s, r, clock, now);
    }
    hide RowsOk, HasEvent, BelowLimits;
  }

  /** What an accepted request changes. */
  lemma CreateMoves(cfg: Config, s: State, r: Request, now: nat)
    requires Create(cfg, s, r, now).Committed?
    ensures r.network in cfg && r.user in s.accounts && r.amount > 0
    ensures var total := r.amount + cfg[r.network].fee;
            var a := s.accounts[r.user];
            && total <= a.available
            && (forall i | 0 <= i < |s.withdrawals| :: s.withdrawals[i].fingerprint != r.fingerprint)
            && Create(cfg, s, r, now).state
               == State(s.accounts[r.user := Account(a.available - total, a.locked + total)],
                        s.withdrawals + [Withdrawal(r.user, r.benefit, r.network, r.amount, cfg[r.network].fee, Pending, now,
                                                    r.fingerprint)],
                        s.events + [Event(Some(r.user), Withdraw, |s.withdrawals|, total)])
  {
  }

  function NewRow(cfg: Config, r: Request, now: nat): Withdrawal
    requires r.network in cfg
  {
    Withdrawal(r.user, r.benefit, r.network, r.amount, cfg[r.network].fee, Pending, now, r.fingerprint)
  }

  lemma CreateBalances(cfg: Config, s: State, r: Request, now: nat)
    requires Create(cfg, s, r, now).Committed? && forall v :: Balanced(s, v)
    ensures forall v :: Balanced(Create(cfg, s, r, now).state, v)
  {
    CreateMoves(cfg, s, r, now);
    hide Create;
    var t := Create(cfg, s, r, now).state;
    AppendEvent(s.events, Event(Some(r.user), Withdraw, |s.withdrawals|, r.amount + cfg[r.network].fee));
    AppendWithdrawal(s.withdrawals, NewRow(cfg, r, now));
    forall v ensures Balanced(t, v) {
      assert Balanced(s, v);
    }
  }

  lemma CreateEvents(cfg: Config, s: State, r: Request, clock: nat, now: nat)
    requires Create(cfg, s, r, now).Committed? && RowsOk(s, clock)
    requires forall i | 0 <= i < |s.withdrawals| :: Evented(s, i)
    ensures var t := Create(cfg, s, r, now).state;
            forall i | 0 <= i < |t.withdrawals| :: Evented(t, i)
  {
    CreateMoves(cfg, s, r, now);
    NewWithdrawalHasNoEvents(s, clock);
    hide Create, RowsOk;
    var t := Create(cfg, s, r, now).state;
    AppendEvent(s.events, Event(Some(r.user), Withdraw, |s.withdrawals|, r.amount + cfg[r.network].fee));
    forall i | 0 <= i < |t.withdrawals| ensures Evented(t, i) {
      if i < |s.withdrawals| {
        assert Evented(s, i);
      }
    }
  }

  lemma CreateRows(cfg: Config, s: State, r: Request, clock: nat, now: nat)
    requires ValidConfig(cfg) && RowsOk(s, clock) && clock <= now && Create(cfg, s, r, now).Committed?
    ensures RowsOk(Create(cfg, s, r, now).state, now)
  {
    CreateMoves(cfg, s, r, now);
    hide Create;
  }

  lemma CreateKeeps(cfg: Config, s: State, r: Request, clock: nat, now: nat)
    requires ValidConfig(cfg) && Inv(cfg, s, clock) && clock <= now && Create(cfg, s, r, now).Committed?
    ensures Inv(cfg, Create(cfg, s, r, now).state, now)
  {
    CreateCommitsIff(cfg, s, r, clock, now);
    TodayIsCounted(s, r.user, r.benefit, r.network, now);
    hide Create, RowsOk, Balanced, Evented, WithinLimits, ValidConfig, TodayOfUser, TodayForBenefit;
    CreateBalances(cfg, s, r, now);
    CreateEvents(cfg, s, r, clock, now);
    CreateRows(cfg, s, r, clock, now);
    CreateKeepsLimits(cfg, s, r, now);
  }

  lemma NewWithdrawalHasNoEvents(s: State, clock: nat)
    requires RowsOk(s, clock)
    ensures forall k | k != TaskIncome ::
              Sum(s.events, Entry(k, |s.withdrawals|)) == 0 && Sum(s.events, EntryAmount(k, |s.withdrawals|)) == 0
  {
    forall k | k != TaskIncome
      ensures Sum(s.events, Entry(k, |s.withdrawals|)) == 0 && Sum(s.events, EntryAmount(k, |s.withdrawals|)) == 0
    {
      SumZero(s.events, Entry(k, |s.withdrawals|));
      SumZero(s.events, EntryAmount(k, |s.withdrawals|));
    }
  }

  lemma CreateKeepsLimits(cfg: Config, s: State, r: Request, now: nat)
    requires Create(cfg, s, r, now).Committed? && WithinLimits(cfg, s)
    requires Sum(s.withdrawals, LiveForUser(r.user, r.network, Day(now))) < cfg[r.network].maxPerDay
    requires Sum(s.withdrawals, LiveForBenefit(r.benefit, r.network, Day(now))) < cfg[r.network].maxPerDay
    ensures WithinLimits(cfg, Create(cfg, s, r, now).state)
  {
    var t := Create(cfg, s, r, now).state;
    AppendWithdrawal(s.withdrawals, t.withdrawals[|s.withdrawals|]);
  }

  /** A pending withdrawal's total is still locked on its account. */
  lemma PendingIsLocked(s: State, id: WithdrawalId, clock: nat)
    requires RowsOk(s, clock) && id < |s.withdrawals| && s.withdrawals[id].status == Pending
    requires Balanced(s, s.withdrawals[id].user)
    ensures s.withdrawals[id].Total() <= s.accounts[s.withdrawals[id].user].locked
  {
    SumAtLeastRow(s.withdrawals, PendingFor(s.withdrawals[id].user));
    assert PendingFor(s.withdrawals[id].user)(s.withdrawals[id]) == s.withdrawals[id].Total();
  }

  /** Both ways out of pending: the inconsistency error and the ignored duplicate event never happen. */
  lemma PendingSettles(cfg: Config, s: State, id: WithdrawalId, clock: nat)
    requires Inv(cfg, s, clock) && id < |s.withdrawals| && s.withdrawals[id].status == Pending
    ensures var w := s.withdrawals[id];
            var a := s.accounts[w.user];
            && Fulfill(s, id) == Committed(State(
                 s.accounts[w.user := a.(locked := a.locked - w.Total())],
                 s.withdrawals[id := w.(status := Success)],
                 s.events + if w.fee > 0 then [Event(None, FeeIncome, id, w.fee)] else []))
            && Reject(s, id) == Committed(State(
                 s.accounts[w.user := Account(a.available + w.Total(), a.locked - w.Total())],
                 s.withdrawals[id := w.(status := Failed)],
                 s.events + [Event(Some(w.user), Refund, id, w.Total())]))
  {
    assert Evented(s, id);
    assert Balanced(s, s.withdrawals[id].user);
    PendingIsLocked(s, id, clock);
    EventCountIsPresence(s, FeeIncome, id);
    EventCountIsPresence(s, Refund, id);
  }

  /** Changing a withdrawal's status can only lower the daily counts when it becomes failed. */
  lemma StatusKeepsLimits(cfg: Config, s: State, id: WithdrawalId, status: Status, t: State)
    requires WithinLimits(cfg, s) && id < |s.withdrawals| && s.withdrawals[id].status == Pending
    requires t.withdrawals == s.withdrawals[id := s.withdrawals[id].(status := status)]
    ensures WithinLimits(cfg, t)
  {
    UpdateWithdrawal(s.withdrawals, id, t.withdrawals[id]);
  }

  /** Appending no event or one new event for withdrawal `id` leaves other withdrawals' events alone. */
  lemma OtherEventsKept(s: State, t: State, id: WithdrawalId, e: Event)
    requires |t.withdrawals| == |s.withdrawals| && id < |s.withdrawals|
    requires forall i | 0 <= i < |s.withdrawals| && i != id :: t.withdrawals[i] == s.withdrawals[i]
    requires t.events == s.events || (t.events == s.events + [e] && e.source == id)
    requires forall i | 0 <= i < |s.withdrawals| :: Evented(s, i)
    ensures forall i | 0 <= i < |t.withdrawals| && i != id :: Evented(t, i)
  {
    AppendEvent(s.events, e);
    forall i | 0 <= i < |t.withdrawals| && i != id ensures Evented(t, i) {
      assert Evented(s, i);
    }
  }

  lemma FulfillBalances(cfg: Config, s: State, id: WithdrawalId, clock: nat)
    requires Inv(cfg, s, clock) && id < |s.withdrawals| && s.withdrawals[id].status == Pending
    ensures Fulfill(s, id).Committed? && forall v :: Balanced(Fulfill(s, id).state, v)
  {
    PendingSettles(cfg, s, id, clock);
    hide Fulfill, RowsOk, Evented, WithinLimits;
    var w := s.withdrawals[id];
    var t := Fulfill(s, id).state;
    AppendEvent(s.events, Event(None, FeeIncome, id, w.fee));
    assert s.events + [] == s.events;
    UpdateWithdrawal(s.withdrawals, id, t.withdrawals[id]);
    forall v ensures Balanced(t, v) {
      assert Balanced(s, v);
    }
  }

  lemma FulfillKeeps(cfg: Config, s: State, id: WithdrawalId, clock: nat)
    requires Inv(cfg, s, clock) && Fulfill(s, id).Committed?
    ensures Inv(cfg, Fulfill(s, id).state, clock)
  {
    var w := s.withdrawals[id];
    if w.status == Pending {
      FulfillBalances(cfg, s, id, clock);
      PendingSettles(cfg, s, id, clock);
      hide Balanced, Fulfill, RowsOk, WithinLimits;
      var t := Fulfill(s, id).state;
      var e := Event(None, FeeIncome, id, w.fee);
      AppendEvent(s.events, e);
      assert s.events + [] == s.events;
      StatusKeepsLimits(cfg, s, id, Success, t);
      OtherEventsKept(s, t, id, e);
      assert Evented(s, id);
      assert Evented(t, id);
      AppendKeepsRows(s, t, id, e, clock);
    }
  }

  lemma RejectKeeps(cfg: Config, s: State, id: WithdrawalId, clock: nat)
    requires Inv(cfg, s, clock) && Reject(s, id).Committed?
    ensures Inv(cfg, Reject(s, id).state, clock)
  {
    var w := s.withdrawals[id];
    if w.status == Pending {
      PendingSettles(cfg, s, id, clock);
      var t := Reject(s, id).state;
      var e := Event(Some(w.user), Refund, id, w.Total());
      AppendEvent(s.events, e);
      UpdateWithdrawal(s.withdrawals, id, t.withdrawals[id]);
      StatusKeepsLimits(cfg, s, id, Failed, t);
      OtherEventsKept(s, t, id, e);
      assert Evented(s, id);
      assert Evented(t, id);
      forall v ensures Balanced(t, v) {
        assert Balanced(s, v);
      }
      AppendKeepsRows(s, t, id, e, clock);
    }
  }

  lemma AppendKeepsRows(s: State, t: State, id: WithdrawalId, e: Event, clock: nat)
    requires RowsOk(s, clock) && id < |s.withdrawals| && s.accounts.Keys <= t.accounts.Keys
    requires exists st :: t.withdrawals == s.withdrawals[id := s.withdrawals[id].(status := st)]
    requires t.events == s.events || (t.events == s.events + [e] && e.source == id && e.kind != TaskIncome)
    requires t.events != s.events ==> e.amount > 0 && Sum(s.events, Entry(e.kind, id)) == 0
    ensures RowsOk(t, clock)
  {
    EventCountIsPresence(s, e.kind, id);
  }

  /** Fulfilling: pending is settled, a repeated call changes nothing, a failed withdrawal is a conflict. */
  lemma FulfillIs(cfg: Config, s: State, id: WithdrawalId, clock: nat)
    requires Inv(cfg, s, clock)
    ensures Fulfill(s, id) == RolledBack(NotFound) <==> id >= |s.withdrawals|
    ensures id < |s.withdrawals| ==>
              match s.withdrawals[id].status
              case Pending => Fulfill(s, id).Committed? && Fulfill(s, id).state.withdrawals[id].status == Success
              case Success => Fulfill(s, id) == Committed(s)
              case Failed => Fulfill(s, id) == RolledBack(Conflict)
  {
    if id < |s.withdrawals| && s.withdrawals[id].status == Pending {
      PendingSettles(cfg, s, id, clock);
    }
  }

  /** Rejecting, likewise. */
  lemma RejectIs(cfg: Config, s: State, id: WithdrawalId, clock: nat)
    requires Inv(cfg, s, clock)
    ensures Reject(s, id) == RolledBack(NotFound) <==> id >= |s.withdrawals|
    ensures id < |s.withdrawals| ==>
              match s.withdrawals[id].status
              case Pending => Reject(s, id).Committed? && Reject(s, id).state.withdrawals[id].status == Failed
              case Success => Reject(s, id) == RolledBack(Conflict)
              case Failed => Reject(s, id) == Committed(s)
  {
    if id < |s.withdrawals| && s.withdrawals[id].status == Pending {
      PendingSettles(cfg, s, id, clock);
    }
  }

  /** Income for a record not paid yet: a positive amount is added to the owner and posted once, another amount does nothing. */
  lemma IncomeIs(s: State, u: UserId, amount: int, record: nat)
    ensures var a := if u in s.accounts then s.accounts[u] else Account(0, 0);
            var paid := exists i :: 0 <= i < |s.events| && s.events[i].kind == TaskIncome && s.events[i].source == record;
            Income(s, u, amount, record)
            == if amount <= 0 then Committed(s)
               else if paid then RolledBack(DuplicateEvent)
               else Committed(State(s.accounts[u := Account(a.available + amount, a.locked)], s.withdrawals,
                                    s.events + [Event(Some(u), TaskIncome, record, amount)]))
  {
  }
}
