/** What holds in every state of every run of the Credits transactions. */
module CreditsRuns {
  import opened Options
  import opened Sums
  import opened CreditsLedger
  import opened CreditsInvariant
  import opened CreditsSteps
  import Referral
  import Earnings
  import UsageStats

  ghost predicate ValidConfig(cfg: Config) {
    Referral.Accepted(cfg.referral) && Earnings.ValidConfig(cfg.networks)
  }

  /** The statistics tables count exactly the call records, with the Credits the ledger charged for them. */
  ghost predicate StatsOk(db: Db) {
    && UsageStats.Inv(db.usage, db.records)
    && UsageStats.RequestsAgree(db.usage)
    && UsageStats.CreditsAgree(db.usage)
    && (forall i | 0 <= i < |db.usage.aggregated| ::
          db.usage.aggregated[i].credits == ChargeOf(db.events)(db.usage.aggregated[i].id))
  }

  ghost predicate EarningsOk(cfg: Config, db: Db) {
    && Earnings.Inv(cfg.networks, db.earnings, db.clock / 1000)
    && (forall i | 0 <= i < |db.earnings.events| && db.earnings.events[i].kind == Earnings.TaskIncome ::
          db.earnings.events[i].source < |db.records|)
  }

  /** Everything but the payouts. */
  ghost predicate Core(cfg: Config, db: Db) {
    MoneyOk(db) && LifecycleOk(db) && LedgerOk(db) && ReferralOk(db) && StatsOk(db) && EarningsOk(cfg, db)
  }

  // ---------------------------------------------------------------------------------------------
  // History only grows

  /** New charges are for new records, so a record's charge is settled when the record is written. */
  ghost predicate Grows(before: Db, after: Db) {
    && before.records <= after.records
    && before.events <= after.events
    && (forall i | |before.events| <= i < |after.events| && after.events[i].kind == TaskCharge ::
          after.events[i].ref >= |before.records|)
  }

  lemma ChargeIsStable(before: Db, after: Db, r: RecordId)
    requires Grows(before, after) && r < |before.records|
    ensures ChargeOf(after.events)(r) == ChargeOf(before.events)(r)
  {
    var more := after.events[|before.events|..];
    assert after.events == before.events + more;
    SumConcat(before.events, more, EntryAmount(TaskCharge, r));
    forall i | 0 <= i < |more| ensures EntryAmount(TaskCharge, r)(more[i]) == 0 {
      assert more[i] == after.events[|before.events| + i];
    }
    SumZero(more, EntryAmount(TaskCharge, r));
  }

  /** Steps that leave the statistics alone keep them exact as long as history grows. */
  lemma StatsFrame(before: Db, after: Db)
    requires StatsOk(before) && Grows(before, after) && after.usage == before.usage && after.records == before.records
    ensures StatsOk(after)
  {
    UsageStats.PendingIsSuffix(before.usage, before.records);
    forall i | 0 <= i < |after.usage.aggregated|
      ensures after.usage.aggregated[i].credits == ChargeOf(after.events)(after.usage.aggregated[i].id)
    {
      ChargeIsStable(before, after, before.usage.aggregated[i].id);
    }
  }

  lemma FinishStats(db: Db, j: JobId, outcome: Outcome, out: Db)
    requires StatsOk(db) && JobExists(db, j) && FinishShape(db, j, outcome, out)
    ensures StatsOk(out)
  {
    UsageStats.EnqueueKeeps(db.usage, db.records, out.records[|db.records|]);
    assert Grows(db, out);
    forall i | 0 <= i < |out.usage.aggregated|
      ensures out.usage.aggregated[i].credits == ChargeOf(out.events)(out.usage.aggregated[i].id)
    {
      ChargeIsStable(db, out, db.usage.aggregated[i].id);
    }
  }

  lemma AggregateStats(db: Db)
    requires StatsOk(db)
    ensures StatsOk(db.(usage := UsageStats.Aggregate(db.usage, db.records, ChargeOf(db.events))))
  {
    hide UsageStats.Aggregate, UsageStats.TableExact, UsageStats.QueueExact, UsageStats.RequestsAgree, UsageStats.CreditsAgree;
    UsageStats.AggregateKeeps(db.usage, db.records, ChargeOf(db.events));
    UsageStats.AggregateMoves(db.usage, db.records, ChargeOf(db.events));
    UsageStats.AggregateAgrees(db.usage, db.records, ChargeOf(db.events));
    UsageStats.AggregateAgreesOnCredits(db.usage, db.records, ChargeOf(db.events));
  }

  // ---------------------------------------------------------------------------------------------
  // Every step keeps the invariant

  lemma EmptyCore(cfg: Config)
    ensures Core(cfg, EMPTY)
  {
    hide UsageStats.Inv, Earnings.Inv;
    UsageStats.EmptyHolds();
    Earnings.EmptyHolds(cfg.networks, 0);
  }

  lemma ClockKeepsCore(cfg: Config, db: Db, elapsed: nat)
    requires Core(cfg, db)
    ensures Core(cfg, db.(clock := db.clock + elapsed))
  {
    hide MoneyOk, LifecycleOk, LedgerOk, ReferralOk, StatsOk, EarningsOk;
    var out := db.(clock := db.clock + elapsed);
    MoneyFrame(db, out);
    LifecycleFrame(db, out);
    LedgerFrame(db, out);
    ReferralFrame(db, out);
    StatsFrame(db, out);
    EarningsFrame(cfg, db, out);
  }

  // What each part of the invariant reads.

  lemma MoneyFrame(db: Db, out: Db)
    requires MoneyOk(db)
    requires out.users == db.users && out.accounts == db.accounts && out.jobs == db.jobs && out.events == db.events
    ensures MoneyOk(out)
  {
  }

  lemma LifecycleFrame(db: Db, out: Db)
    requires LifecycleOk(db) && out.jobs == db.jobs && out.records == db.records && db.clock <= out.clock
    ensures LifecycleOk(out)
  {
    forall j | 0 <= j < |out.jobs| ensures JobOk(out.jobs, j, out.records, out.clock) {
      assert JobOk(db.jobs, j, db.records, db.clock);
    }
  }

  lemma LedgerFrame(db: Db, out: Db)
    requires LedgerOk(db)
    requires out.events == db.events && out.deposits == db.deposits && out.rewards == db.rewards
    requires db.records <= out.records && |db.accounts| <= |out.accounts|
    ensures LedgerOk(out)
  {
    forall i | 0 <= i < |out.events| ensures EventOk(out.events[i], out) {
      assert EventOk(db.events[i], db);
    }
  }

  lemma ReferralFrame(db: Db, out: Db)
    requires ReferralOk(db) && |db.accounts| <= |out.accounts|
    requires out.deposits == db.deposits && out.bindings == db.bindings && out.rewards == db.rewards
    ensures ReferralOk(out)
  {
  }

  lemma EarningsFrame(cfg: Config, db: Db, out: Db)
    requires EarningsOk(cfg, db) && out.earnings == db.earnings && db.clock <= out.clock && db.records <= out.records
    ensures EarningsOk(cfg, out)
  {
    Earnings.LaterClock(cfg.networks, db.earnings, db.clock / 1000, out.clock / 1000);
  }

  lemma FinishKeeps(cfg: Config, db: Db, j: JobId, outcome: Outcome)
    requires Core(cfg, db) && JobExists(db, j) && db.jobs[j].job.record.None? && Finish(db, j, outcome).Some?
    ensures Core(cfg, Finish(db, j, outcome).value)
  {
    hide MoneyOk, LifecycleOk, LedgerOk, ReferralOk, StatsOk, EarningsOk;
    var out := Finish(db, j, outcome).value;
    FinishHasShape(db, j, outcome);
    FinishMoney(db, j, outcome);
    FinishLifecycle(db, j, outcome, out);
    FinishLedger(db, j, outcome, out);
    FinishStats(db, j, outcome, out);
    ReferralFrame(db, out);
    EarningsFrame(cfg, db, out);
  }

  lemma ApplyFinishKeeps(cfg: Config, db: Db, a: Action)
    requires Core(cfg, db) && ClosesJob(a)
    ensures Core(cfg, ApplyFinish(db, a))
  {
    hide MoneyOk, LedgerOk, ReferralOk, StatsOk, EarningsOk;
    if ApplyFinish(db, a) != db {
      assert JobOk(db.jobs, a.job, db.records, db.clock);
      FinishKeeps(cfg, db, a.job, OutcomeOf(db.jobs[a.job].job, a));
    }
  }

  lemma IncomeEarnings(cfg: Config, db: Db, owner: UserId, wei: int, r: RecordId)
    requires EarningsOk(cfg, db) && r < |db.records| && Earnings.Income(db.earnings, owner, wei, r).Committed?
    ensures EarningsOk(cfg, db.(earnings := Earnings.Income(db.earnings, owner, wei, r).state))
  {
    Earnings.IncomeKeeps(cfg.networks, db.earnings, owner, wei, r, db.clock / 1000);
  }

  /** Steps on the earnings tables and the payout history alone. */
  lemma EarningsStepKeeps(cfg: Config, db: Db, earnings: Earnings.State, payouts: map<RecordId, Payout>)
    requires Core(cfg, db) && EarningsOk(cfg, db.(earnings := earnings))
    ensures Core(cfg, db.(earnings := earnings, payouts := payouts))
  {
    hide MoneyOk, LifecycleOk, LedgerOk, ReferralOk, StatsOk, EarningsOk;
    var earned := db.(earnings := earnings);
    var out := earned.(payouts := payouts);
    EarningsFrame(cfg, earned, out);
    MoneyFrame(db, out);
    LifecycleFrame(db, out);
    LedgerFrame(db, out);
    ReferralFrame(db, out);
    StatsFrame(db, out);
  }

  lemma SettleProviderKeeps(cfg: Config, db: Db, j: JobId, owner: UserId, credits: int, wei: int, usage: Usage, lag: nat)
    requires Core(cfg, db)
    ensures Core(cfg, ApplySettleProvider(db, j, owner, credits, wei, usage, lag))
  {
    hide MoneyOk, LifecycleOk, LedgerOk, ReferralOk, StatsOk, EarningsOk;
    var out := ApplySettleProvider(db, j, owner, credits, wei, usage, lag);
    if out != db {
      var outcome := Succeeded(credits, usage, lag);
      FinishKeeps(cfg, db, j, outcome);
      FinishHasShape(db, j, outcome);
      var done := Finish(db, j, outcome).value;
      IncomeEarnings(cfg, done, owner, wei, |db.records|);
      EarningsStepKeeps(cfg, done, out.earnings, out.payouts);
    }
  }

  lemma JobUpdateMoney(db: Db, a: Action)
    requires MoneyOk(db) && LifecycleOk(db) && UpdatesJob(a)
    ensures MoneyOk(ApplyJobUpdate(db, a))
  {
    hide MoneyOk;
    var out := ApplyJobUpdate(db, a);
    if out != db {
      assert JobOk(db.jobs, a.job, db.records, db.clock);
      WithJobMoney(db, a.job, out.jobs[a.job]);
    }
  }

  lemma JobUpdateKeeps(cfg: Config, db: Db, a: Action)
    requires Core(cfg, db) && UpdatesJob(a)
    ensures Core(cfg, ApplyJobUpdate(db, a))
  {
    hide MoneyOk, LifecycleOk, LedgerOk, ReferralOk, StatsOk, EarningsOk, ApplyJobUpdate;
    var out := ApplyJobUpdate(db, a);
    UpdateMovesRow(db, a);
    JobUpdateMoney(db, a);
    JobUpdateLifecycle(db, a);
    LedgerFrame(db, out);
    ReferralFrame(db, out);
    StatsFrame(db, out);
    EarningsFrame(cfg, db, out);
  }

  lemma FailWithoutRecordKeeps(cfg: Config, db: Db, j: JobId)
    requires Core(cfg, db)
    ensures Core(cfg, ApplyFailWithoutRecord(db, j))
  {
    var out := ApplyFailWithoutRecord(db, j);
    if out != db {
      ReleaseMoney(db, j);
      var released := Release(db, j).value;
      WithJobMoney(released, j, out.jobs[j]);
      FailWithoutRecordLifecycle(db, j);
      LedgerFrame(db, out);
      ReferralFrame(db, out);
      StatsFrame(db, out);
      EarningsFrame(cfg, db, out);
    }
  }

  lemma CreateKeeps(cfg: Config, db: Db, u: UserId, source: Source, work: Work, admitting: bool, amount: int)
    requires Core(cfg, db)
    ensures Core(cfg, ApplyCreate(db, u, source, work, admitting, amount))
  {
    hide MoneyOk, LifecycleOk, LedgerOk, ReferralOk, StatsOk, EarningsOk;
    var out := ApplyCreate(db, u, source, work, admitting, amount);
    CreateMoney(db, u, source, work, admitting, amount);
    CreateLifecycle(db, u, source, work, admitting, amount);
    LedgerFrame(db, out);
    ReferralFrame(db, out);
    StatsFrame(db, out);
    EarningsFrame(cfg, db, out);
  }

  lemma SignUpKeeps(cfg: Config, db: Db, address: string, inviter: Option<UserId>)
    requires Core(cfg, db)
    ensures Core(cfg, ApplySignUp(cfg, db, address, inviter))
  {
    hide MoneyOk, LifecycleOk, LedgerOk, ReferralOk, StatsOk, EarningsOk;
    var out := ApplySignUp(cfg, db, address, inviter);
    SignUpMoney(cfg, db, address, inviter);
    SignUpLedger(cfg, db, address, inviter);
    SignUpReferral(cfg, db, address, inviter);
    LifecycleFrame(db, out);
    StatsFrame(db, out);
    EarningsFrame(cfg, db, out);
  }

  lemma DepositKeeps(cfg: Config, db: Db, u: UserId, key: LogKey, credits: int)
    requires Core(cfg, db) && Referral.Accepted(cfg.referral)
    ensures Core(cfg, ApplyDeposit(cfg, db, u, key, credits))
  {
    hide MoneyOk, LifecycleOk, LedgerOk, ReferralOk, StatsOk, EarningsOk;
    var out := ApplyDeposit(cfg, db, u, key, credits);
    DepositMoney(cfg, db, u, key, credits);
    DepositLedger(cfg, db, u, key, credits);
    DepositReferral(cfg, db, u, key, credits);
    LifecycleFrame(db, out);
    StatsFrame(db, out);
    EarningsFrame(cfg, db, out);
  }

  lemma WithdrawalInv(cfg: Config, db: Db, a: Action)
    requires ValidConfig(cfg) && MovesWithdrawal(a) && Earnings.Inv(cfg.networks, db.earnings, db.clock / 1000)
    ensures Earnings.Inv(cfg.networks, Apply(cfg, db, a).earnings, db.clock / 1000)
  {
    hide Earnings.Inv, Earnings.Create, Earnings.Fulfill, Earnings.Reject;
    var now := db.clock / 1000;
    match a
    case RequestWithdrawal(r) =>
      if Earnings.Create(cfg.networks, db.earnings, r, now).Committed? {
        Earnings.CreateKeeps(cfg.networks, db.earnings, r, now, now);
      }
    case FulfillWithdrawal(w) =>
      if Earnings.Fulfill(db.earnings, w).Committed? {
        Earnings.FulfillKeeps(cfg.networks, db.earnings, w, now);
      }
    case RejectWithdrawal(w) =>
      if Earnings.Reject(db.earnings, w).Committed? {
        Earnings.RejectKeeps(cfg.networks, db.earnings, w, now);
      }
  }

  lemma WithdrawalEarnings(cfg: Config, db: Db, a: Action)
    requires ValidConfig(cfg) && EarningsOk(cfg, db) && MovesWithdrawal(a)
    ensures EarningsOk(cfg, Apply(cfg, db, a))
  {
    hide Earnings.Inv, Apply;
    WithdrawalInv(cfg, db, a);
    WithdrawalIsQuiet(cfg, db, a);
  }

  lemma WithdrawalKeeps(cfg: Config, db: Db, a: Action)
    requires ValidConfig(cfg) && Core(cfg, db) && MovesWithdrawal(a)
    ensures Core(cfg, Apply(cfg, db, a))
  {
    hide MoneyOk, LifecycleOk, LedgerOk, ReferralOk, StatsOk, EarningsOk, Apply;
    WithdrawalEarnings(cfg, db, a);
    WithdrawalIsQuiet(cfg, db, a);
    EarningsStepKeeps(cfg, db, Apply(cfg, db, a).earnings, db.payouts);
  }

  lemma AggregateKeeps(cfg: Config, db: Db)
    requires Core(cfg, db)
    ensures Core(cfg, Apply(cfg, db, AggregateUsage))
  {
    hide MoneyOk, LifecycleOk, LedgerOk, ReferralOk, StatsOk, EarningsOk;
    var out := Apply(cfg, db, AggregateUsage);
    AggregateStats(db);
    MoneyFrame(db, out);
    LifecycleFrame(db, out);
    LedgerFrame(db, out);
    ReferralFrame(db, out);
    EarningsFrame(cfg, db, out);
  }

  lemma ApplyKeepsCore(cfg: Config, db: Db, a: Action)
    requires ValidConfig(cfg) && Core(cfg, db)
    ensures Core(cfg, Apply(cfg, db, a))
  {
    hide MoneyOk, LifecycleOk, LedgerOk, ReferralOk, StatsOk, EarningsOk;
    match a
    case SignUp(address, inviter) => SignUpKeeps(cfg, db, address, inviter);
    case MakeDeposit(u, key, credits) => DepositKeeps(cfg, db, u, key, credits);
    case CreateJob(u, source, work, admitting, amount) => CreateKeeps(cfg, db, u, source, work, admitting, amount);
    case Complete(_, _, _) => ApplyFinishKeeps(cfg, db, a);
    case CompleteImage(_, _) => ApplyFinishKeeps(cfg, db, a);
    case FailAndRecord(_) => ApplyFinishKeeps(cfg, db, a);
    case FailProvider(_, _) => ApplyFinishKeeps(cfg, db, a);
    case SettleProvider(j, owner, credits, wei, usage, lag) => SettleProviderKeeps(cfg, db, j, owner, credits, wei, usage, lag);
    case FailWithoutRecord(j) => FailWithoutRecordKeeps(cfg, db, j);
    case Submit(_) => JobUpdateKeeps(cfg, db, a);
    case Publish(_) => JobUpdateKeeps(cfg, db, a);
    case SetStatus(_, _) => JobUpdateKeeps(cfg, db, a);
    case SetPhase(_, _) => JobUpdateKeeps(cfg, db, a);
    case ResetToPending(_) => JobUpdateKeeps(cfg, db, a);
    case Purge(_, _) => JobUpdateKeeps(cfg, db, a);
    case Reconcile(u) => ReconcileFindsNothing(db, u);
    case AggregateUsage => AggregateKeeps(cfg, db);
    case RequestWithdrawal(_) => WithdrawalKeeps(cfg, db, a);
    case FulfillWithdrawal(_) => WithdrawalKeeps(cfg, db, a);
    case RejectWithdrawal(_) => WithdrawalKeeps(cfg, db, a);
  }

  // ---------------------------------------------------------------------------------------------
  // Payouts: successful Provider records against the earnings ledger

  ghost predicate PaidProvider(r: UsageStats.CallRecord) {
    r.success && r.source == UsageStats.Provider
  }

  /** The income event a payout calls for. */
  function IncomeOf(r: RecordId, p: Payout): Earnings.Event {
    Earnings.Event(Some(p.owner), Earnings.TaskIncome, r, p.wei)
  }

  /**
   Exactly the successful Provider records have a payout, and exactly the payouts of positive wei have an income
   event: one, to the owner, of that amount.
   */
  ghost predicate PaidOk(db: Db) {
    && (forall r | r in db.payouts :: r < |db.records| && db.records[r].job == db.payouts[r].job)
    && (forall r | 0 <= r < |db.records| :: PaidProvider(db.records[r]) <==> r in db.payouts)
    && (forall i | 0 <= i < |db.earnings.events| && db.earnings.events[i].kind == Earnings.TaskIncome ::
          var e := db.earnings.events[i];
          e.source in db.payouts && db.payouts[e.source].wei > 0 && e == IncomeOf(e.source, db.payouts[e.source]))
    && (forall r | r in db.payouts && db.payouts[r].wei > 0 :: IncomeOf(r, db.payouts[r]) in db.earnings.events)
  }

  ghost predicate Inv(cfg: Config, db: Db) {
    Core(cfg, db) && PaidOk(db)
  }

  /** Steps that settle no Provider job leave the payouts exact. */
  lemma PaidFrame(db: Db, out: Db)
    requires PaidOk(db) && out.payouts == db.payouts && db.records <= out.records
    requires forall r | |db.records| <= r < |out.records| :: !PaidProvider(out.records[r])
    requires NoIncome(db.earnings.events, out.earnings.events)
    ensures PaidOk(out)
  {
    assert db.earnings.events <= out.earnings.events;
    forall r | r in out.payouts && out.payouts[r].wei > 0 ensures IncomeOf(r, out.payouts[r]) in out.earnings.events {
      assert IncomeOf(r, db.payouts[r]) in db.earnings.events;
      var i :| 0 <= i < |db.earnings.events| && db.earnings.events[i] == IncomeOf(r, db.payouts[r]);
      assert out.earnings.events[i] == IncomeOf(r, db.payouts[r]);
    }
    forall i | 0 <= i < |out.earnings.events| && out.earnings.events[i].kind == Earnings.TaskIncome
      ensures i < |db.earnings.events| && out.earnings.events[i] == db.earnings.events[i]
    {
    }
  }

  /** A settlement adds one payout and, when it is positive, its one income event. */
  lemma PaidOneMore(db: Db, out: Db, p: Payout)
    requires PaidOk(db)
    requires |out.records| == |db.records| + 1 && db.records <= out.records
    requires PaidProvider(out.records[|db.records|]) && out.records[|db.records|].job == p.job
    requires out.payouts == db.payouts[|db.records| := p]
    requires out.earnings.events == db.earnings.events + if p.wei > 0 then [IncomeOf(|db.records|, p)] else []
    ensures PaidOk(out)
  {
    var id := |db.records|;
    assert id !in db.payouts;
    forall r | r in out.payouts && out.payouts[r].wei > 0 ensures IncomeOf(r, out.payouts[r]) in out.earnings.events {
      if r != id {
        assert IncomeOf(r, db.payouts[r]) in db.earnings.events;
      }
    }
  }

  lemma IncomeEvents(s: Earnings.State, u: UserId, wei: int, r: RecordId)
    requires Earnings.Income(s, u, wei, r).Committed?
    ensures Earnings.Income(s, u, wei, r).state.events
            == s.events + if wei > 0 then [Earnings.Event(Some(u), Earnings.TaskIncome, r, wei)] else []
  {
    assert s.events + [] == s.events;
  }

  lemma SettleProviderPays(db: Db, j: JobId, owner: UserId, credits: int, wei: int, usage: Usage, lag: nat)
    requires MoneyOk(db) && PaidOk(db)
    ensures PaidOk(ApplySettleProvider(db, j, owner, credits, wei, usage, lag))
  {
    hide MoneyOk, PaidOk, Finish, Earnings.Income;
    var out := ApplySettleProvider(db, j, owner, credits, wei, usage, lag);
    if out != db {
      var outcome := Succeeded(credits, usage, lag);
      FinishHasShape(db, j, outcome);
      IncomeEvents(db.earnings, owner, wei, |db.records|);
      PaidOneMore(db, out, Payout(j, owner, wei));
    }
  }

  lemma ApplyFinishPays(db: Db, a: Action)
    requires MoneyOk(db) && PaidOk(db) && ClosesJob(a)
    ensures PaidOk(ApplyFinish(db, a))
  {
    hide MoneyOk, PaidOk, Finish;
    var out := ApplyFinish(db, a);
    if out != db {
      FinishHasShape(db, a.job, OutcomeOf(db.jobs[a.job].job, a));
      PaidFrame(db, out);
    }
  }

  lemma ApplyPays(cfg: Config, db: Db, a: Action)
    requires MoneyOk(db) && PaidOk(db)
    ensures PaidOk(Apply(cfg, db, a))
  {
    hide PaidOk, MoneyOk, ApplyFinish, ApplySettleProvider, Apply;
    if ClosesJob(a) {
      ClosingIsFinish(cfg, db, a);
      ApplyFinishPays(db, a);
    } else if a.SettleProvider? {
      SettlingIsSettle(cfg, db, a);
      SettleProviderPays(db, a.job, a.owner, a.credits, a.wei, a.usage, a.lag);
    } else {
      OtherStepIsQuiet(cfg, db, a);
      PaidFrame(db, Apply(cfg, db, a));
    }
  }

  // ---------------------------------------------------------------------------------------------
  // The whole invariant

  lemma EmptyHolds(cfg: Config)
    ensures Inv(cfg, EMPTY)
  {
    hide Core;
    EmptyCore(cfg);
  }

  lemma ClockKeeps(cfg: Config, db: Db, elapsed: nat)
    requires Inv(cfg, db)
    ensures Inv(cfg, db.(clock := db.clock + elapsed))
  {
    hide Core, PaidOk;
    ClockKeepsCore(cfg, db, elapsed);
    PaidFrame(db, db.(clock := db.clock + elapsed));
  }

  lemma ApplyKeeps(cfg: Config, db: Db, a: Action)
    requires ValidConfig(cfg) && Inv(cfg, db)
    ensures Inv(cfg, Apply(cfg, db, a))
  {
    assert MoneyOk(db);
    hide Core, PaidOk, MoneyOk, Apply, ValidConfig;
    ApplyKeepsCore(cfg, db, a);
    ApplyPays(cfg, db, a);
  }

  /** Every state of every run satisfies the invariant. */
  lemma {:induction false} RunKeeps(cfg: Config, steps: seq<Step>)
    requires ValidConfig(cfg)
    ensures Inv(cfg, Run(cfg, EMPTY, steps))
  {
    hide Inv, Apply, ValidConfig;
    if steps == [] {
      EmptyHolds(cfg);
    } else {
      var n := |steps| - 1;
      var before := Run(cfg, EMPTY, steps[..n]);
      RunKeeps(cfg, steps[..n]);
      ClockKeeps(cfg, before, steps[n].elapsed);
      ApplyKeeps(cfg, before.(clock := before.clock + steps[n].elapsed), steps[n].action);
    }
  }
}
