/** The promises of the Credits system, over every run and every step of a run. */
module CreditsTheorems {
  import opened Numbers
  import opened Options
  import opened Sums
  import opened CreditsLedger
  import opened CreditsInvariant
  import opened CreditsSteps
  import opened CreditsRuns
  import Referral
  import Earnings
  import UsageStats

  // ---------------------------------------------------------------------------------------------
  // Over every run

  /** Solvency, exact holds and an exact ledger, whatever the interleaving. */
  lemma RunIsSolvent(cfg: Config, steps: seq<Step>, u: UserId)
    requires ValidConfig(cfg) && u < |Run(cfg, EMPTY, steps).accounts|
    ensures var db := Run(cfg, EMPTY, steps);
            && 0 <= db.accounts[u].locked <= db.accounts[u].balance
            && db.accounts[u].locked == Sum(db.jobs, HeldBy(u))
            && db.accounts[u].balance == Sum(db.events, SignedFor(u))
            && Available(db.accounts[u]) == db.accounts[u].balance - db.accounts[u].locked
            && ApplyReconcile(db, u) == db
  {
    RunKeeps(cfg, steps);
    var db := Run(cfg, EMPTY, steps);
    assert AccountOk(db.accounts[u], u, db.jobs, db.events);
  }

  /** A job never has two call records, and no source row ever has two ledger events. */
  lemma RunChargesAtMostOnce(cfg: Config, steps: seq<Step>, j: JobId, kind: EventType, ref: nat)
    requires ValidConfig(cfg)
    ensures var db := Run(cfg, EMPTY, steps);
            && Sum(db.records, ForJob(j)) <= 1
            && Sum(db.events, Entry(kind, ref)) <= 1
  {
    RunKeeps(cfg, steps);
    var db := Run(cfg, EMPTY, steps);
    if j < |db.jobs| {
      assert JobOk(db.jobs, j, db.records, db.clock);
    } else {
      SumZero(db.records, ForJob(j));
    }
    UniqueMeansAtMostOne(db.events, kind, ref);
  }

  /** Every recorded job's call record carries the job's own columns, outcome and times. */
  lemma RunRecordsDescribeJobs(cfg: Config, steps: seq<Step>, j: JobId)
    requires ValidConfig(cfg)
    requires var db := Run(cfg, EMPTY, steps); JobExists(db, j) && db.jobs[j].job.record.Some?
    ensures var db := Run(cfg, EMPTY, steps);
            var job := db.jobs[j].job;
            && Terminal(job) && job.record.value < |db.records| && Describes(db.records[job.record.value], j, job)
  {
    RunKeeps(cfg, steps);
    hide Run;
    var db := Run(cfg, EMPTY, steps);
    assert JobOk(db.jobs, j, db.records, db.clock);
  }

  lemma UniqueMeansAtMostOne(events: seq<Event>, kind: EventType, ref: nat)
    requires UniqueEvents(events)
    ensures Sum(events, Entry(kind, ref)) <= 1
  {
    if i :| 0 <= i < |events| && events[i].kind == kind && events[i].ref == ref {
      SumOnly(events, i, Entry(kind, ref));
    } else {
      SumZero(events, Entry(kind, ref));
    }
  }

  /** Rewards to a referrer never exceed what the invitees deposited. */
  lemma RunRewardsAreCovered(cfg: Config, steps: seq<Step>, referrer: UserId)
    requires ValidConfig(cfg)
    ensures var db := Run(cfg, EMPTY, steps);
            Sum(db.rewards, RewardTo(referrer)) <= Sum(db.deposits, DepositedUnder(db.bindings, referrer))
  {
    RunKeeps(cfg, steps);
  }

  /** Earnings: conservation, one refund iff failed, one fee event iff fulfilled with a fee, limits kept. */
  lemma RunEarningsAreExact(cfg: Config, steps: seq<Step>, u: UserId, w: Earnings.WithdrawalId, n: string, day: nat, b: string)
    requires ValidConfig(cfg)
    ensures var e := Run(cfg, EMPTY, steps).earnings;
            var a := Earnings.AccountOf(e, u);
            && 0 <= a.available && a.locked == Sum(e.withdrawals, Earnings.PendingFor(u))
            && a.available == Sum(e.events, Earnings.SignedFor(u))
            && Sum(e.events, Earnings.IncomeFor(u)) == a.available + a.locked + Sum(e.withdrawals, Earnings.PaidFor(u))
            && (w < |e.withdrawals| ==>
                  var row := e.withdrawals[w];
                  && Sum(e.events, Earnings.EntryAmount(Earnings.Refund, w)) == (if row.status == Earnings.Failed then row.Total() else 0)
                  && Sum(e.events, Earnings.EntryAmount(Earnings.FeeIncome, w)) == (if row.status == Earnings.Success then row.fee else 0))
            && (n in cfg.networks ==>
                  && Sum(e.withdrawals, Earnings.LiveForUser(u, n, day)) <= cfg.networks[n].maxPerDay
                  && Sum(e.withdrawals, Earnings.LiveForBenefit(b, n, day)) <= cfg.networks[n].maxPerDay)
  {
    RunKeeps(cfg, steps);
    var e := Run(cfg, EMPTY, steps).earnings;
    assert Earnings.Balanced(e, u);
    if w < |e.withdrawals| {
      assert Earnings.Evented(e, w);
    }
  }

  // ---------------------------------------------------------------------------------------------
  // Statistics against the ledger

  /** The charges posted for the first n call records. */
  function ChargesBelow(n: nat): Event -> int {
    (e: Event) => if e.kind == TaskCharge && e.ref < n then e.amount else 0
  }

  function AllCharges(): Event -> int {
    (e: Event) => if e.kind == TaskCharge then e.amount else 0
  }

  lemma {:induction false} LoggedAreCharged(log: seq<UsageStats.Entry>, events: seq<Event>)
    requires forall i | 0 <= i < |log| :: log[i] == UsageStats.Entry(i, ChargeOf(events)(i))
    ensures UsageStats.LoggedCredits(log) == Sum(events, ChargesBelow(|log|))
  {
    if log == [] {
      SumZero(events, ChargesBelow(0));
    } else {
      var n := |log| - 1;
      LoggedAreCharged(log[..n], events);
      SumAdds(events, ChargesBelow(n), EntryAmount(TaskCharge, n), ChargesBelow(n + 1));
    }
  }

  /**
   In every reachable state each table that carries Credits carries exactly the ledger's charges for the records
   counted so far, and once the queue is drained all charges ever posted and one request for every record.
   */
  lemma RunStatsMatchLedger(cfg: Config, steps: seq<Step>, t: UsageStats.Table)
    requires ValidConfig(cfg)
    ensures var db := Run(cfg, EMPTY, steps);
            && t in db.usage.tables
            && UsageStats.Requests(db.usage.tables[t]) == Wrap(|db.usage.aggregated|)
            && (t != UsageStats.DurationTenMinute ==>
                  UsageStats.CreditsIn(db.usage.tables[t]) == Sum(db.events, ChargesBelow(|db.usage.aggregated|)))
            && (db.usage.pending == [] ==> |db.usage.aggregated| == |db.records|)
            && (db.usage.pending == [] && t != UsageStats.DurationTenMinute ==>
                  UsageStats.CreditsIn(db.usage.tables[t]) == Sum(db.events, AllCharges()))
  {
    hide MoneyOk, LifecycleOk, ReferralOk, EarningsOk, Run, UsageStats.TableExact;
    RunKeeps(cfg, steps);
    var db := Run(cfg, EMPTY, steps);
    assert t in UsageStats.TABLES;
    UsageStats.PendingIsSuffix(db.usage, db.records);
    AggregatedInOrder(db.usage, db.records);
    LoggedAreCharged(db.usage.aggregated, db.events);
    if db.usage.pending == [] {
      forall i | 0 <= i < |db.events| ensures AllCharges()(db.events[i]) == ChargesBelow(|db.records|)(db.events[i]) {
        assert EventOk(db.events[i], db);
      }
      SumCongruent(db.events, AllCharges(), ChargesBelow(|db.records|));
    }
  }

  lemma AggregatedInOrder(s: UsageStats.State, records: seq<UsageStats.CallRecord>)
    requires UsageStats.QueueExact(s, records)
    ensures forall i | 0 <= i < |s.aggregated| :: s.aggregated[i].id == i
  {
    var all := UsageStats.Ids(s.aggregated) + s.pending;
    forall i | 0 <= i < |s.aggregated| ensures s.aggregated[i].id == i {
      assert all[i] == s.aggregated[i].id;
    }
  }

  // ---------------------------------------------------------------------------------------------
  // What a settlement charges

  /** Under the invariant, closing a job without a record always commits unless the Credits are negative. */
  lemma FinishCommits(cfg: Config, db: Db, j: JobId, outcome: Outcome)
    requires Inv(cfg, db) && JobExists(db, j) && db.jobs[j].job.record.None?
    ensures Finish(db, j, outcome).Some? <==> (outcome.Succeeded? ==> 0 <= outcome.credits)
  {
    hide StatsOk, EarningsOk, ReferralOk;
    ReleaseMoney(db, j);
    var released := Release(db, j).value;
    var job := released.jobs[j].job;
    assert JobOk(db.jobs, j, db.records, db.clock);
    RecordCountIsPresence(db.records, j);
    NewRecordIsUncharged(db);
    assert AccountOk(released.accounts[job.user], job.user, released.jobs, released.events);
  }

  lemma NewRecordIsUncharged(db: Db)
    requires LedgerOk(db)
    ensures !HasEvent(db.events, TaskCharge, |db.records|)
    ensures ChargeOf(db.events)(|db.records|) == 0
  {
    forall i | 0 <= i < |db.events| ensures db.events[i].kind != TaskCharge || db.events[i].ref != |db.records| {
      assert EventOk(db.events[i], db);
    }
    NewKeyHasNoEntries(db.events, TaskCharge, |db.records|);
  }

  function HoldOf(job: Job): int {
    if job.lock == Held then job.creditsLocked else 0
  }

  /** Writing a successful call's record takes the clamped Credits from the balance and posts them. */
  lemma WrittenCharge(db: Db, r: UsageStats.CallRecord, credits: nat)
    requires r.success && r.user < |db.accounts| && WriteCall(db, r, credits).Some?
    requires db.accounts[r.user].locked <= db.accounts[r.user].balance && ChargeOf(db.events)(|db.records|) == 0
    ensures var charge := Charged(db.accounts[r.user], credits);
            var out := WriteCall(db, r, credits).value;
            && 0 <= charge
            && ChargeOf(out.events)(|db.records|) == charge
            && out.accounts == db.accounts[r.user := db.accounts[r.user].(balance := db.accounts[r.user].balance - charge)]
  {
    hide HasEvent, Sum, ChargeOf;
    var a := db.accounts[r.user];
    OneMoreCharge(db.events, Event(r.user, TaskCharge, |db.records|, Charged(a, credits)));
    assert db.accounts[r.user := a] == db.accounts;
  }

  lemma OneMoreCharge(events: seq<Event>, e: Event)
    requires e.kind == TaskCharge && ChargeOf(events)(e.ref) == 0
    ensures ChargeOf(events + [e])(e.ref) == e.amount
  {
    hide Sum;
    SumAppend(events, e, EntryAmount(TaskCharge, e.ref));
  }

  /**
   A successful call is charged its computed Credits, clamped to what its user has outside other jobs' holds;
   the ledger event, the balance and the hold move together.
   */
  lemma SettlementCharge(cfg: Config, db: Db, j: JobId, credits: nat, usage: Usage, lag: nat)
    requires Inv(cfg, db) && JobExists(db, j) && db.jobs[j].job.record.None?
    requires Finish(db, j, Succeeded(credits, usage, lag)).Some?
    ensures var job := db.jobs[j].job;
            var a := db.accounts[job.user];
            var free := a.balance - a.locked + HoldOf(job);
            var charge := if free < credits then free else credits;
            var out := Finish(db, j, Succeeded(credits, usage, lag)).value;
            && 0 <= charge
            && ChargeOf(out.events)(|db.records|) == charge
            && out.accounts == db.accounts[job.user := Account(a.balance - charge, a.locked - HoldOf(job))]
  {
    hide StatsOk, EarningsOk, ReferralOk, LifecycleOk, PaidOk, Finish, WriteCall, LedgerOk;
    var job := db.jobs[j].job;
    ReleaseMoney(db, j);
    var released := Release(db, j).value;
    assert AccountOk(released.accounts[job.user], job.user, released.jobs, released.events);
    NewRecordIsUncharged(db);
    FinishRows(db, j, Succeeded(credits, usage, lag), released);
    WrittenCharge(released, RecordFor(j, released.jobs[j].job, Succeeded(credits, usage, lag), db.clock), credits);
  }

  /** When the computed Credits are at most the hold, no clamp fires: the debit is exactly those Credits. */
  lemma HeldSettlementIsExact(cfg: Config, db: Db, j: JobId, credits: nat, usage: Usage, lag: nat)
    requires Inv(cfg, db) && JobExists(db, j) && !Terminal(db.jobs[j].job)
    requires credits <= db.jobs[j].job.creditsLocked
    ensures Finish(db, j, Succeeded(credits, usage, lag)).Some?
    ensures var out := Finish(db, j, Succeeded(credits, usage, lag)).value;
            var job := db.jobs[j].job;
            var a := db.accounts[job.user];
            && ChargeOf(out.events)(|db.records|) == credits
            && out.accounts == db.accounts[job.user := Account(a.balance - credits, a.locked - job.creditsLocked)]
  {
    hide StatsOk, EarningsOk, ReferralOk, PaidOk, Finish, LedgerOk;
    assert JobOk(db.jobs, j, db.records, db.clock);
    FinishCommits(cfg, db, j, Succeeded(credits, usage, lag));
    SettlementCharge(cfg, db, j, credits, usage, lag);
    assert AccountOk(db.accounts[db.jobs[j].job.user], db.jobs[j].job.user, db.jobs, db.events);
  }

  // ---------------------------------------------------------------------------------------------
  // What one step can do to a job

  /**
   A hold is released at most once and never retaken; a row with a call record changes no more, except that
   retention may delete it; the user, the held amount and the workload never change.
   */
  ghost predicate RowStep(before: JobRow, after: JobRow, nextRecord: RecordId) {
    match (before, after)
    case (Deleted, _) => after.Deleted?
    case (Row(x), Deleted) => x.record.Some?
    case (Row(x), Row(y)) =>
      && y.user == x.user && y.creditsLocked == x.creditsLocked && y.work == x.work && y.source == x.source
      && y.createdAt == x.createdAt
      && (x.lock == Released ==> y.lock == Released)
      && (x.record.Some? ==> y == x)
      && (x.record.None? && y.record.Some? ==> y.record == Some(nextRecord) && Terminal(y) && y.lock != Held)
  }

  lemma FinishRowStep(db: Db, j: JobId, outcome: Outcome, k: JobId)
    requires MoneyOk(db) && JobExists(db, j) && db.jobs[j].job.record.None? && Finish(db, j, outcome).Some?
    requires k < |db.jobs|
    ensures RowStep(db.jobs[k], Finish(db, j, outcome).value.jobs[k], |db.records|)
    ensures |Finish(db, j, outcome).value.jobs| == |db.jobs|
  {
    FinishHasShape(db, j, outcome);
  }

  lemma FailRowStep(db: Db, j: JobId, k: JobId)
    requires MoneyOk(db) && LifecycleOk(db) && k < |db.jobs|
    ensures var out := ApplyFailWithoutRecord(db, j);
            k < |out.jobs| && RowStep(db.jobs[k], out.jobs[k], |db.records|)
  {
    hide MoneyOk, ApplyFailWithoutRecord;
    assert JobOk(db.jobs, k, db.records, db.clock);
    FailIsQuiet(db, j);
  }

  lemma MovedRowStep(db: Db, k: JobId, after: JobRow)
    requires LifecycleOk(db) && k < |db.jobs| && RowMoves(db.jobs[k], after)
    ensures RowStep(db.jobs[k], after, |db.records|)
  {
    assert JobOk(db.jobs, k, db.records, db.clock);
  }

  lemma ClosingRowStep(cfg: Config, db: Db, a: Action, k: JobId)
    requires MoneyOk(db) && LifecycleOk(db) && k < |db.jobs| && Closes(a) && Apply(cfg, db, a) != db
    ensures var out := Apply(cfg, db, a);
            k < |out.jobs| && RowStep(db.jobs[k], out.jobs[k], |db.records|)
  {
    hide MoneyOk, Apply, Finish, RowStep, Describes;
    ClosingStep(cfg, db, a);
    assert JobOk(db.jobs, a.job, db.records, db.clock);
    ClosedWasOpen(db, a.job);
    FinishRowStep(db, a.job, ClosingOutcome(db, a), k);
  }

  /** A job that was finished had no call record. */
  lemma ClosedWasOpen(db: Db, j: JobId)
    requires LifecycleOk(db) && JobExists(db, j) && forall i | 0 <= i < |db.records| :: db.records[i].job != j
    ensures db.jobs[j].job.record.None?
  {
    assert JobOk(db.jobs, j, db.records, db.clock);
  }

  lemma ApplyRowStep(cfg: Config, db: Db, a: Action, k: JobId)
    requires Inv(cfg, db) && k < |db.jobs|
    ensures var out := Apply(cfg, db, a);
            k < |out.jobs| && RowStep(db.jobs[k], out.jobs[k], |db.records|)
  {
    hide StatsOk, EarningsOk, ReferralOk, LedgerOk, MoneyOk, LifecycleOk, Finish, ApplyFailWithoutRecord, RowMoves;
    if a.FailWithoutRecord? {
      FailRowStep(db, a.job, k);
    } else {
      hide Apply, RowStep;
      if Closes(a) {
        RowStays(db, k);
        if Apply(cfg, db, a) != db {
          ClosingRowStep(cfg, db, a, k);
        }
      } else {
        OtherStepMovesRows(cfg, db, a);
        MovedRowStep(db, k, Apply(cfg, db, a).jobs[k]);
      }
    }
  }

  lemma RowStays(db: Db, k: JobId)
    requires LifecycleOk(db) && k < |db.jobs|
    ensures RowStep(db.jobs[k], db.jobs[k], |db.records|)
  {
    assert JobOk(db.jobs, k, db.records, db.clock);
  }

  ghost predicate StatusStays(before: Db, after: Db, j: JobId)
    requires JobExists(before, j)
  {
    JobExists(after, j) ==> after.jobs[j].job.status == before.jobs[j].job.status
  }

  lemma RecordedStatusStays(cfg: Config, db: Db, j: JobId, s: Step)
    requires Inv(cfg, db) && JobExists(db, j) && db.jobs[j].job.record.Some?
    ensures StatusStays(db, Take(cfg, db, s), j)
  {
    hide MoneyOk, LifecycleOk, StatsOk, EarningsOk, ReferralOk, LedgerOk, Apply;
    ClockKeeps(cfg, db, s.elapsed);
    ApplyRowStep(cfg, db.(clock := db.clock + s.elapsed), s.action, j);
  }

  /** The completion a node job's billing data allows, for the least Credits a conversion yields. */
  function LateSuccess(j: JobId, job: Job): Action {
    if LlmBilled(job) then Complete(j, 1, Usage(0, 0, 0, true)) else CompleteImage(j, 1)
  }

  /** A node job failed without a record is completed, and billed, by a late success. */
  lemma UnrecordedFailureCanComplete(cfg: Config, db: Db, j: JobId)
    requires Inv(cfg, db) && JobExists(db, j)
    requires db.jobs[j].job.status == Failed && db.jobs[j].job.record.None? && db.jobs[j].job.source == UsageStats.Crynux
    ensures var out := Take(cfg, db, Step(0, LateSuccess(j, db.jobs[j].job)));
            && JobExists(out, j) && out.jobs[j].job.status == Completed && out.jobs[j].job.billing == Billed
            && out.jobs[j].job.record == Some(|db.records|)
  {
    hide MoneyOk, StatsOk, EarningsOk, ReferralOk, LedgerOk, PaidOk, Finish;
    var a := LateSuccess(j, db.jobs[j].job);
    var outcome := OutcomeOf(db.jobs[j].job, a);
    assert db.(clock := db.clock + 0) == db;
    assert JobOk(db.jobs, j, db.records, db.clock);
    FinishCommits(cfg, db, j, outcome);
    FinishHasShape(db, j, outcome);
  }

  /** A failed Provider job has no billing data a completion could charge from, recorded or not. */
  lemma FailedProviderStatusStays(cfg: Config, db: Db, j: JobId, s: Step)
    requires Inv(cfg, db) && JobExists(db, j)
    requires db.jobs[j].job.status == Failed && db.jobs[j].job.record.None? && db.jobs[j].job.source == UsageStats.Provider
    ensures StatusStays(db, Take(cfg, db, s), j)
  {
    hide MoneyOk, LifecycleOk, StatsOk, EarningsOk, ReferralOk, LedgerOk, PaidOk, Apply;
    var later := db.(clock := db.clock + s.elapsed);
    ClockKeeps(cfg, db, s.elapsed);
    if Closes(s.action) {
      FailedProviderStaysFailed(cfg, later, j, s.action);
    } else if s.action.FailWithoutRecord? {
      FailLeavesTerminal(cfg, later, s.action, j);
    } else {
      OtherStepMovesRows(cfg, later, s.action);
    }
  }

  lemma FailLeavesTerminal(cfg: Config, db: Db, a: Action, k: JobId)
    requires MoneyOk(db) && a.FailWithoutRecord? && JobExists(db, k) && Terminal(db.jobs[k].job)
    ensures StatusStays(db, Apply(cfg, db, a), k)
  {
    hide MoneyOk, ApplyFailWithoutRecord;
    FailIsQuiet(db, a.job);
  }

  lemma ClosingStaysAway(db: Db, a: Action)
    requires Closes(a) && JobExists(db, a.job)
    requires db.jobs[a.job].job.status == Failed && db.jobs[a.job].job.source == UsageStats.Provider && !a.FailAndRecord?
    ensures a.SettleProvider? ==> ApplySettleProvider(db, a.job, a.owner, a.credits, a.wei, a.usage, a.lag) == db
    ensures ClosesJob(a) ==> ApplyFinish(db, a) == db
  {
    hide Finish;
  }

  lemma FailedProviderStaysFailed(cfg: Config, db: Db, j: JobId, a: Action)
    requires MoneyOk(db) && Closes(a) && JobExists(db, j)
    requires db.jobs[j].job.status == Failed && db.jobs[j].job.source == UsageStats.Provider
    ensures StatusStays(db, Apply(cfg, db, a), j)
  {
    hide MoneyOk, Apply, Finish, ApplyFinish, ApplySettleProvider, Describes;
    if Apply(cfg, db, a) != db {
      ClosingStep(cfg, db, a);
      if a.job == j && !a.FailAndRecord? {
        ClosingStaysAway(db, a);
        if ClosesJob(a) {
          ClosingIsFinish(cfg, db, a);
        } else {
          SettlingIsSettle(cfg, db, a);
        }
      }
    }
  }

  /**
   The status of a terminal job survives every possible step exactly when the job has a call record or is a Provider
   job: only a node job failed without a record can still be completed.
   */
  lemma TerminalStaysIff(cfg: Config, db: Db, j: JobId)
    requires Inv(cfg, db) && JobExists(db, j) && Terminal(db.jobs[j].job)
    ensures (forall s: Step :: StatusStays(db, Take(cfg, db, s), j))
            <==> db.jobs[j].job.record.Some? || db.jobs[j].job.source == UsageStats.Provider
  {
    assert JobOk(db.jobs, j, db.records, db.clock);
    hide Inv, Take;
    if db.jobs[j].job.record.Some? {
      forall s: Step ensures StatusStays(db, Take(cfg, db, s), j) {
        RecordedStatusStays(cfg, db, j, s);
      }
    } else if db.jobs[j].job.source == UsageStats.Provider {
      forall s: Step ensures StatusStays(db, Take(cfg, db, s), j) {
        FailedProviderStatusStays(cfg, db, j, s);
      }
    } else {
      UnrecordedFailureCanComplete(cfg, db, j);
      assert !StatusStays(db, Take(cfg, db, Step(0, LateSuccess(j, db.jobs[j].job))), j);
    }
  }

  lemma RunOneMore(cfg: Config, steps: seq<Step>, s: Step)
    ensures Run(cfg, EMPTY, steps + [s]) == Take(cfg, Run(cfg, EMPTY, steps), s)
  {
    assert (steps + [s])[..|steps|] == steps;
  }

  /** A user signs up, reserves part of the sign-up bonus for an LLM job, and the job is failed without a record. */
  function FailedWithoutRecord(address: string, work: Work, amount: nat): seq<Step> {
    [Step(0, SignUp(address, None))]
    + [Step(0, CreateJob(0, UsageStats.Crynux, work, false, amount))]
    + [Step(0, FailWithoutRecord(0))]
  }

  lemma SignedUpState(cfg: Config, address: string)
    ensures var db := Take(cfg, EMPTY, Step(0, SignUp(address, None)));
            db.accounts == [Account(cfg.signupBonus, 0)] && db.jobs == [] && db.records == [] && db.clock == 0
  {
  }

  lemma CreatedState(cfg: Config, db: Db, work: Work, amount: nat)
    requires db.accounts == [Account(cfg.signupBonus, 0)] && db.jobs == [] && db.clock == 0 && 1 <= amount <= cfg.signupBonus
    ensures var out := Take(cfg, db, Step(0, CreateJob(0, UsageStats.Crynux, work, false, amount)));
            && out.accounts == [Account(cfg.signupBonus, amount)] && out.records == db.records && out.clock == 0
            && out.jobs == [Row(Job(0, UsageStats.Crynux, work, PendingSubmit, false, BillingPending, None, amount, Held, 0, None))]
  {
    hide HasEvent;
  }

  lemma FailedState(cfg: Config, db: Db, work: Work, bonus: nat, amount: nat)
    requires db.accounts == [Account(bonus, amount)] && db.clock == 0
    requires db.jobs == [Row(Job(0, UsageStats.Crynux, work, PendingSubmit, false, BillingPending, None, amount, Held, 0, None))]
    ensures var out := Take(cfg, db, Step(0, FailWithoutRecord(0)));
            && out.accounts == [Account(bonus, 0)] && out.records == db.records
            && out.jobs == [Row(Job(0, UsageStats.Crynux, work, Failed, false, NotBilled, None, amount, Released, 0, Some(0)))]
  {
  }

  lemma FailedWithoutRecordState(cfg: Config, address: string, work: Work, amount: nat)
    requires 1 <= amount <= cfg.signupBonus
    ensures var db := Run(cfg, EMPTY, FailedWithoutRecord(address, work, amount));
            && db.accounts == [Account(cfg.signupBonus, 0)] && db.records == []
            && db.jobs == [Row(Job(0, UsageStats.Crynux, work, Failed, false, NotBilled, None, amount, Released, 0, Some(0)))]
  {
    hide Take;
    var first := Step(0, SignUp(address, None));
    var second := Step(0, CreateJob(0, UsageStats.Crynux, work, false, amount));
    RunOneMore(cfg, [], first);
    assert [] + [first] == [first];
    RunOneMore(cfg, [first], second);
    RunOneMore(cfg, [first] + [second], Step(0, FailWithoutRecord(0)));
    SignedUpState(cfg, address);
    CreatedState(cfg, Run(cfg, EMPTY, [first]), work, amount);
    FailedState(cfg, Run(cfg, EMPTY, [first] + [second]), work, cfg.signupBonus, amount);
  }

  ghost predicate BilledFor(db: Db, balance: int, amount: int) {
    && JobExists(db, 0) && db.jobs[0].job.status == Completed && db.jobs[0].job.billing == Billed
    && ChargeOf(db.events)(0) == amount && db.accounts == [Account(balance, 0)]
  }

  lemma LateCompletionBills(cfg: Config, db: Db, job: Job, balance: int, amount: nat, usage: Usage)
    requires Inv(cfg, db) && db.jobs == [Row(job)] && db.records == [] && db.accounts == [Account(balance, 0)]
    requires job.user == 0 && LlmBilled(job) && job.status == Failed && job.record.None? && job.lock == Released
    requires 1 <= amount <= balance
    ensures BilledFor(ApplyFinish(db, Complete(0, amount, usage)), balance - amount, amount)
  {
    hide MoneyOk, LifecycleOk, StatsOk, EarningsOk, ReferralOk, LedgerOk, PaidOk, Finish;
    var outcome := Succeeded(amount, usage, 0);
    FinishCommits(cfg, db, 0, outcome);
    FinishHasShape(db, 0, outcome);
    SettlementCharge(cfg, db, 0, amount, usage, 0);
  }

  lemma TakeFinish(cfg: Config, db: Db, a: Action)
    requires ClosesJob(a)
    ensures Take(cfg, db, Step(0, a)) == ApplyFinish(db, a)
  {
    hide ApplyFinish;
    assert db.(clock := db.clock + 0) == db;
  }

  /** That state is reached, and from it a late result completes the job and takes the Credits from the account. */
  lemma LateCompletionIsReached(cfg: Config, address: string, work: Work, amount: nat, usage: Usage)
    requires ValidConfig(cfg) && 1 <= amount <= cfg.signupBonus && work.taskType == UsageStats.LlmTask
    ensures BilledFor(Run(cfg, EMPTY, FailedWithoutRecord(address, work, amount) + [Step(0, Complete(0, amount, usage))]),
                      cfg.signupBonus - amount, amount)
  {
    hide Run, FailedWithoutRecord, Inv, ApplyFinish, BilledFor, ValidConfig, Take;
    var steps := FailedWithoutRecord(address, work, amount);
    var a := Complete(0, amount, usage);
    FailedWithoutRecordState(cfg, address, work, amount);
    RunKeeps(cfg, steps);
    RunOneMore(cfg, steps, Step(0, a));
    var db := Run(cfg, EMPTY, steps);
    TakeFinish(cfg, db, a);
    LateCompletionBills(cfg, db, db.jobs[0].job, cfg.signupBonus, amount, usage);
  }

  // ---------------------------------------------------------------------------------------------
  // Runs in which every failure is recorded

  ghost predicate Recorded(db: Db) {
    forall j | 0 <= j < |db.jobs| && db.jobs[j].Row? :: Terminal(db.jobs[j].job) <==> db.jobs[j].job.record.Some?
  }

  lemma ApplyKeepsRecorded(cfg: Config, db: Db, a: Action)
    requires MoneyOk(db) && Recorded(db) && !a.FailWithoutRecord?
    ensures Recorded(Apply(cfg, db, a))
  {
    hide MoneyOk, Apply, Finish, Describes;
    if Closes(a) {
      if Apply(cfg, db, a) != db {
        ClosingStep(cfg, db, a);
      }
    } else {
      OtherStepMovesRows(cfg, db, a);
    }
  }

  /** Unless a job is failed without a record, terminal means recorded in every state. */
  lemma {:induction false} RunIsRecorded(cfg: Config, steps: seq<Step>)
    requires ValidConfig(cfg) && forall i | 0 <= i < |steps| :: !steps[i].action.FailWithoutRecord?
    ensures Recorded(Run(cfg, EMPTY, steps))
  {
    hide MoneyOk, LifecycleOk, StatsOk, EarningsOk, ReferralOk, LedgerOk, Apply;
    if steps != [] {
      var n := |steps| - 1;
      RunIsRecorded(cfg, steps[..n]);
      RunKeeps(cfg, steps[..n]);
      var before := Run(cfg, EMPTY, steps[..n]);
      ClockKeeps(cfg, before, steps[n].elapsed);
      ApplyKeepsRecorded(cfg, before.(clock := before.clock + steps[n].elapsed), steps[n].action);
    }
  }

  // ---------------------------------------------------------------------------------------------
  // Key owners

  /** Settling a Provider job pays its key owner the computed wei, once, for the record it writes. */
  lemma SettlementPaysOwner(cfg: Config, db: Db, j: JobId, owner: UserId, credits: nat, wei: int, usage: Usage, lag: nat)
    requires Inv(cfg, db) && CanSettle(db, j, credits) && !Terminal(db.jobs[j].job) && wei > 0
    ensures var out := Apply(cfg, db, SettleProvider(j, owner, credits, wei, usage, lag));
            && JobExists(out, j) && out.jobs[j].job.status == Completed && out.jobs[j].job.record == Some(|db.records|)
            && out.payouts == db.payouts[|db.records| := Payout(j, owner, wei)]
            && out.earnings.events == db.earnings.events + [Earnings.Event(Some(owner), Earnings.TaskIncome, |db.records|, wei)]
            && Sum(out.earnings.events, Earnings.EntryAmount(Earnings.TaskIncome, |db.records|)) == wei
            && Earnings.AccountOf(out.earnings, owner).available == Earnings.AccountOf(db.earnings, owner).available + wei
  {
    hide StatsOk, ReferralOk, LedgerOk, PaidOk, Earnings.Inv;
    var outcome := Succeeded(credits, usage, lag);
    assert JobOk(db.jobs, j, db.records, db.clock);
    FinishCommits(cfg, db, j, outcome);
    FinishHasShape(db, j, outcome);
    var e := Earnings.Event(Some(owner), Earnings.TaskIncome, |db.records|, wei);
    SumZero(db.earnings.events, Earnings.EntryAmount(Earnings.TaskIncome, |db.records|));
    Earnings.AppendEvent(db.earnings.events, e);
  }

  /** The payout history is what was settled: it grows by a settlement's own job, owner and wei, and by nothing else. */
  lemma PayoutsAreSettlements(cfg: Config, db: Db, a: Action)
    requires MoneyOk(db)
    ensures var out := Apply(cfg, db, a);
            if a.SettleProvider? && out != db
            then |out.records| == |db.records| + 1 && out.payouts == db.payouts[|db.records| := Payout(a.job, a.owner, a.wei)]
            else out.payouts == db.payouts
  {
    hide MoneyOk, Apply, Finish, Describes;
    if Closes(a) {
      if Apply(cfg, db, a) != db {
        ClosingStep(cfg, db, a);
      }
    } else {
      OtherStepIsQuiet(cfg, db, a);
    }
  }

  /**
   After any run a call record has exactly one income event when it is a successful Provider record settled for
   positive wei, and none otherwise; the event goes to the settled owner and is of the settled wei.
   */
  lemma RunPaysOwnersOnce(cfg: Config, steps: seq<Step>, r: RecordId)
    requires ValidConfig(cfg)
    ensures var db := Run(cfg, EMPTY, steps);
            && (r in db.payouts <==> r < |db.records| && PaidProvider(db.records[r]))
            && (r in db.payouts ==> db.payouts[r].job == db.records[r].job)
            && Sum(db.earnings.events, Earnings.Entry(Earnings.TaskIncome, r))
               == (if r in db.payouts && db.payouts[r].wei > 0 then 1 else 0)
            && (forall i | 0 <= i < |db.earnings.events| && db.earnings.events[i].kind == Earnings.TaskIncome
                           && db.earnings.events[i].source == r ::
                  r in db.payouts && db.earnings.events[i] == IncomeOf(r, db.payouts[r]))
  {
    RunKeeps(cfg, steps);
    hide Run;
    var db := Run(cfg, EMPTY, steps);
    IncomeIsUnique(cfg, db, r);
  }

  lemma IncomeIsUnique(cfg: Config, db: Db, r: RecordId)
    requires EarningsOk(cfg, db) && PaidOk(db)
    ensures Sum(db.earnings.events, Earnings.Entry(Earnings.TaskIncome, r))
            == (if r in db.payouts && db.payouts[r].wei > 0 then 1 else 0)
  {
    var events := db.earnings.events;
    if r in db.payouts && db.payouts[r].wei > 0 {
      assert IncomeOf(r, db.payouts[r]) in events;
      var i :| 0 <= i < |events| && events[i] == IncomeOf(r, db.payouts[r]);
      assert Earnings.RowsOk(db.earnings, db.clock / 1000);
      SumOnly(events, i, Earnings.Entry(Earnings.TaskIncome, r));
    } else {
      SumZero(events, Earnings.Entry(Earnings.TaskIncome, r));
    }
  }

  /** After any run every completed Provider job's record has a payout for that job, so its owner was paid as above. */
  lemma RunPaysCompletedProviderJobs(cfg: Config, steps: seq<Step>, j: JobId)
    requires ValidConfig(cfg)
    requires var db := Run(cfg, EMPTY, steps);
             JobExists(db, j) && db.jobs[j].job.source == UsageStats.Provider && db.jobs[j].job.status == Completed
    ensures var db := Run(cfg, EMPTY, steps);
            var record := db.jobs[j].job.record;
            && record.Some? && record.value in db.payouts && db.payouts[record.value].job == j
            && Sum(db.earnings.events, Earnings.Entry(Earnings.TaskIncome, record.value))
               == (if db.payouts[record.value].wei > 0 then 1 else 0)
  {
    RunKeeps(cfg, steps);
    hide Run, EarningsOk, StatsOk, LedgerOk, ReferralOk, MoneyOk;
    var db := Run(cfg, EMPTY, steps);
    assert JobOk(db.jobs, j, db.records, db.clock);
    IncomeIsUnique(cfg, db, db.jobs[j].job.record.value);
  }

  /** Nothing else ever pays for a record, and no later step changes what was paid or charged for it. */
  lemma PaymentsAreFinal(cfg: Config, db: Db, a: Action, r: RecordId)
    requires Inv(cfg, db) && r < |db.records|
    ensures var out := Apply(cfg, db, a);
            && r < |out.records| && out.records[r] == db.records[r]
            && ChargeOf(out.events)(r) == ChargeOf(db.events)(r)
            && Sum(out.earnings.events, Earnings.EntryAmount(Earnings.TaskIncome, r))
               == Sum(db.earnings.events, Earnings.EntryAmount(Earnings.TaskIncome, r))
  {
    hide StatsOk, ReferralOk, LedgerOk, LifecycleOk, EarningsOk;
    ApplyGrows(cfg, db, a);
    ChargeIsStable(db, Apply(cfg, db, a), r);
    IncomeIsStable(cfg, db, a, r);
  }

  lemma ApplyGrows(cfg: Config, db: Db, a: Action)
    requires MoneyOk(db)
    ensures Grows(db, Apply(cfg, db, a))
  {
    hide MoneyOk, Apply, Finish, Describes;
    if Closes(a) {
      if Apply(cfg, db, a) != db {
        ClosingStep(cfg, db, a);
      }
    } else {
      OtherStepIsQuiet(cfg, db, a);
    }
  }

  /** A step appends at most one earning event, and task income only for the record it writes. */
  lemma EarningsEventsGrow(cfg: Config, db: Db, a: Action)
    requires MoneyOk(db)
    ensures EarningsGrow(db.earnings.events, Apply(cfg, db, a).earnings.events, |db.records|)
  {
    hide MoneyOk, Apply, Finish, FinishShape;
    if Closes(a) {
      if Apply(cfg, db, a) != db {
        ClosingStep(cfg, db, a);
      }
    } else {
      OtherStepIsQuiet(cfg, db, a);
    }
  }

  lemma IncomeIsStable(cfg: Config, db: Db, a: Action, r: RecordId)
    requires MoneyOk(db) && r < |db.records|
    ensures Sum(Apply(cfg, db, a).earnings.events, Earnings.EntryAmount(Earnings.TaskIncome, r))
            == Sum(db.earnings.events, Earnings.EntryAmount(Earnings.TaskIncome, r))
  {
    hide Apply, MoneyOk;
    EarningsEventsGrow(cfg, db, a);
    var after := Apply(cfg, db, a).earnings.events;
    if after != db.earnings.events {
      var e :| after == db.earnings.events + [e] && (e.kind == Earnings.TaskIncome ==> e.source == |db.records|);
      SumAppend(db.earnings.events, e, Earnings.EntryAmount(Earnings.TaskIncome, r));
    }
  }

  lemma FinishLeavesEarnings(db: Db, j: JobId, outcome: Outcome)
    requires JobExists(db, j) && Finish(db, j, outcome).Some?
    ensures Finish(db, j, outcome).value.earnings == db.earnings
  {
  }

  lemma ClosingLeavesWithdrawals(cfg: Config, db: Db, a: Action)
    requires Closes(a)
    ensures Apply(cfg, db, a).earnings.withdrawals == db.earnings.withdrawals
  {
    hide Apply, Finish;
    if JobExists(db, a.job) && Finish(db, a.job, ClosingOutcome(db, a)).Some? {
      FinishLeavesEarnings(db, a.job, ClosingOutcome(db, a));
    }
    if ClosesJob(a) {
      ClosingIsFinish(cfg, db, a);
    } else {
      SettlingIsSettle(cfg, db, a);
    }
  }

  lemma OtherStepsLeaveWithdrawals(cfg: Config, db: Db, a: Action)
    requires !MovesWithdrawal(a)
    ensures Apply(cfg, db, a).earnings.withdrawals == db.earnings.withdrawals
  {
    if !a.CreateJob? && !a.FailWithoutRecord? {
      hide Apply;
      if Closes(a) {
        ClosingLeavesWithdrawals(cfg, db, a);
      } else if UpdatesJob(a) {
        ApplyIsUpdate(cfg, db, a);
        UpdateMovesRow(db, a);
      } else {
        LeavesJobsAlone(cfg, db, a);
      }
    }
  }

  /** A withdrawal leaves pending at most once: fulfilled and rejected rows never change. */
  lemma WithdrawalSettlesOnce(cfg: Config, db: Db, a: Action, w: Earnings.WithdrawalId)
    requires w < |db.earnings.withdrawals| && db.earnings.withdrawals[w].status != Earnings.Pending
    ensures var out := Apply(cfg, db, a);
            w < |out.earnings.withdrawals| && out.earnings.withdrawals[w] == db.earnings.withdrawals[w]
  {
    if !MovesWithdrawal(a) {
      hide Apply;
      OtherStepsLeaveWithdrawals(cfg, db, a);
    }
  }
}
