/** What a step of each kind leaves alone. */
module CreditsSteps {
  import opened Options
  import opened CreditsLedger
  import opened CreditsInvariant
  import Earnings
  import Referral
  import UsageStats

  predicate Closes(a: Action) {
    ClosesJob(a) || a.SettleProvider?
  }

  predicate UpdatesJob(a: Action) {
    a.Submit? || a.Publish? || a.SetStatus? || a.SetPhase? || a.ResetToPending? || a.Purge?
  }

  predicate LeavesJobs(a: Action) {
    a.SignUp? || a.MakeDeposit? || a.Reconcile? || a.AggregateUsage?
  }

  predicate MovesWithdrawal(a: Action) {
    a.RequestWithdrawal? || a.FulfillWithdrawal? || a.RejectWithdrawal?
  }

  // ---------------------------------------------------------------------------------------------
  // Closing steps

  function ClosingOutcome(db: Db, a: Action): Outcome
    requires Closes(a) && JobExists(db, a.job)
  {
    if a.SettleProvider? then Succeeded(a.credits, a.usage, a.lag) else OutcomeOf(db.jobs[a.job].job, a)
  }

  lemma ClosingIsFinish(cfg: Config, db: Db, a: Action)
    requires ClosesJob(a)
    ensures Apply(cfg, db, a) == ApplyFinish(db, a)
  {
    hide ApplyFinish;
  }

  lemma SettlingIsSettle(cfg: Config, db: Db, a: Action)
    requires a.SettleProvider?
    ensures Apply(cfg, db, a) == ApplySettleProvider(db, a.job, a.owner, a.credits, a.wei, a.usage, a.lag)
  {
    hide ApplySettleProvider;
  }

  /** Earnings events grow by at most one event, and by task income only for this record. */
  ghost predicate EarningsGrow(before: seq<Earnings.Event>, after: seq<Earnings.Event>, record: RecordId) {
    after == before || exists e: Earnings.Event ::
                         after == before + [e] && (e.kind == Earnings.TaskIncome ==> e.source == record)
  }

  /** What the record of a closing step says, in terms of the step. */
  ghost predicate Reports(r: UsageStats.CallRecord, a: Action, job: Job, now: nat)
    requires Closes(a)
  {
    && r.job == a.job && r.user == job.user && r.project == job.work.project && r.taskType == job.work.taskType
    && r.model == job.work.model && r.cacheHash == job.work.cacheHash && r.dtype == job.work.dtype
    && r.imageCount == job.work.imageCount
    && r.acceptedAt == job.createdAt / 1000 && r.durationMs == now - job.createdAt
    && (match a
        case Complete(_, _, u) => HasUsage(r, u.prompt, u.completion, u.total, u.applicable) && r.success && r.source == job.source
        case SettleProvider(_, _, _, _, u, _) =>
          HasUsage(r, u.prompt, u.completion, u.total, u.applicable) && r.success && r.source == job.source
        case CompleteImage(_, _) => HasUsage(r, 0, 0, 0, false) && r.success && r.source == job.source
        case FailAndRecord(_) =>
          HasUsage(r, 0, 0, 0, job.work.taskType == UsageStats.LlmTask) && !r.success && r.source == UsageStats.Crynux
        case FailProvider(_, _) => HasUsage(r, 0, 0, 0, false) && !r.success && r.source == job.source)
  }

  predicate HasUsage(r: UsageStats.CallRecord, prompt: nat, completion: nat, total: nat, applicable: bool) {
    && r.promptTokens == prompt && r.completionTokens == completion && r.totalTokens == total
    && r.tokenUsageApplicable == applicable
  }

  /** The job after a closing step. */
  ghost predicate ClosedAs(before: Job, a: Action, record: RecordId, now: nat, after: Job)
    requires Closes(a)
  {
    var success := a.Complete? || a.CompleteImage? || a.SettleProvider?;
    && after.status == (if success then Completed else Failed)
    && after.billing == (if success then Billed else NotBilled)
    && after.record == Some(record) && !after.admitting && after.lock == (if before.lock == Held then Released else before.lock)
    && after.completedAt
       == Some(now + if before.source == UsageStats.Provider && (a.SettleProvider? || a.FailProvider?) then a.lag else 0)
    && after.user == before.user && after.source == before.source && after.work == before.work
    && after.creditsLocked == before.creditsLocked && after.createdAt == before.createdAt
  }

  /** A closing step either leaves the tables alone or finishes its job, and a settlement also pays the owner. */
  lemma ClosingStep(cfg: Config, db: Db, a: Action)
    requires MoneyOk(db) && Closes(a) && Apply(cfg, db, a) != db
    ensures JobExists(db, a.job) && Finish(db, a.job, ClosingOutcome(db, a)).Some?
    ensures var done := Finish(db, a.job, ClosingOutcome(db, a)).value;
            var out := Apply(cfg, db, a);
            && FinishShape(db, a.job, ClosingOutcome(db, a), done)
            && Reports(out.records[|db.records|], a, db.jobs[a.job].job, db.clock)
            && out.jobs == db.jobs[a.job := out.jobs[a.job]] && out.jobs[a.job].Row?
            && ClosedAs(db.jobs[a.job].job, a, |db.records|, db.clock, out.jobs[a.job].job)
            && out == done.(earnings := out.earnings, payouts := out.payouts)
            && out.payouts == (if a.SettleProvider? then db.payouts[|db.records| := Payout(a.job, a.owner, a.wei)] else db.payouts)
            && (ClosesJob(a) ==> out.earnings == db.earnings)
            && out.earnings.withdrawals == db.earnings.withdrawals
            && EarningsGrow(db.earnings.events, out.earnings.events, |db.records|)
  {
    hide MoneyOk, Finish, Apply;
    if ClosesJob(a) {
      ClosingIsFinish(cfg, db, a);
      FinishHasShape(db, a.job, ClosingOutcome(db, a));
    } else {
      SettlingIsSettle(cfg, db, a);
      FinishHasShape(db, a.job, ClosingOutcome(db, a));
      IncomeGrows(db.earnings, a.owner, a.wei, |db.records|);
    }
  }

  lemma IncomeGrows(s: Earnings.State, u: UserId, wei: int, r: RecordId)
    requires Earnings.Income(s, u, wei, r).Committed?
    ensures Earnings.Income(s, u, wei, r).state.withdrawals == s.withdrawals
    ensures EarningsGrow(s.events, Earnings.Income(s, u, wei, r).state.events, r)
  {
    var after := Earnings.Income(s, u, wei, r).state.events;
    if after != s.events {
      assert after == s.events + [Earnings.Event(Some(u), Earnings.TaskIncome, r, wei)];
    }
  }

  // ---------------------------------------------------------------------------------------------
  // All other steps

  /** New earnings events are not task income. */
  ghost predicate NoIncome(before: seq<Earnings.Event>, after: seq<Earnings.Event>) {
    after == before || exists e: Earnings.Event :: after == before + [e] && e.kind != Earnings.TaskIncome
  }

  /** No call record, no charge, no payout, and no user is lost. */
  ghost predicate Quiet(before: Db, after: Db) {
    && before.users <= after.users
    && after.records == before.records
    && after.payouts == before.payouts
    && before.events <= after.events
    && (forall i | |before.events| <= i < |after.events| :: after.events[i].kind != TaskCharge)
    && NoIncome(before.earnings.events, after.earnings.events)
  }

  lemma SignUpIsQuiet(cfg: Config, db: Db, address: string, inviter: Option<UserId>)
    ensures var out := ApplySignUp(cfg, db, address, inviter);
            Quiet(db, out) && out.jobs == db.jobs && out.earnings == db.earnings && out.deposits == db.deposits
  {
  }

  lemma PayReferralIsQuiet(cfg: Config, db: Db, id: nat)
    requires id < |db.deposits| && PayReferral(cfg, db, id).Some?
    ensures var out := PayReferral(cfg, db, id).value;
            && Quiet(db, out) && out.jobs == db.jobs && out.earnings == db.earnings
            && out.users == db.users && out.deposits == db.deposits
  {
    hide HasEvent, Referral.DepositReward, Referral.Readable;
  }

  lemma DepositIsQuiet(cfg: Config, db: Db, u: UserId, key: LogKey, credits: int)
    ensures var out := ApplyDeposit(cfg, db, u, key, credits);
            && Quiet(db, out) && out.jobs == db.jobs && out.earnings == db.earnings && out.users == db.users
            && (out != db ==> out.deposits == db.deposits + [Deposit(u, key, credits)])
  {
    hide HasEvent, PayReferral;
    if ApplyDeposit(cfg, db, u, key, credits) != db {
      PayReferralIsQuiet(cfg, Credit(db, u, key, credits), |db.deposits|);
    }
  }

  lemma LeavesJobsAlone(cfg: Config, db: Db, a: Action)
    requires LeavesJobs(a)
    ensures var out := Apply(cfg, db, a);
            && Quiet(db, out) && out.jobs == db.jobs && out.earnings == db.earnings
            && (!a.MakeDeposit? ==> out.deposits == db.deposits)
  {
    hide ApplySignUp, ApplyDeposit, UsageStats.Aggregate;
    match a
    case SignUp(address, inviter) => SignUpIsQuiet(cfg, db, address, inviter);
    case MakeDeposit(u, key, credits) => DepositIsQuiet(cfg, db, u, key, credits);
    case _ =>
  }

  /** A row moved without being closed: at most its open status and its admitting mark change, or a recorded row is deleted. */
  ghost predicate RowMoves(before: JobRow, after: JobRow) {
    match (before, after)
    case (Deleted, _) => after.Deleted?
    case (Row(x), Deleted) => x.record.Some?
    case (Row(x), Row(y)) =>
      && y == x.(status := y.status, admitting := y.admitting)
      && (y.admitting ==> x.admitting)
      && (Terminal(y) <==> Terminal(x))
      && (Terminal(x) ==> y.status == x.status)
  }

  lemma UpdateMovesRow(db: Db, a: Action)
    requires UpdatesJob(a)
    ensures var out := ApplyJobUpdate(db, a);
            && out == db.(jobs := out.jobs) && |out.jobs| == |db.jobs|
            && forall k | 0 <= k < |db.jobs| :: RowMoves(db.jobs[k], out.jobs[k])
  {
  }

  lemma ApplyIsUpdate(cfg: Config, db: Db, a: Action)
    requires UpdatesJob(a)
    ensures Apply(cfg, db, a) == ApplyJobUpdate(db, a)
  {
    hide ApplyJobUpdate;
  }

  lemma CreateIsQuiet(db: Db, u: UserId, source: Source, work: Work, admitting: bool, amount: int)
    ensures var out := ApplyCreate(db, u, source, work, admitting, amount);
            && Quiet(db, out) && out.earnings == db.earnings && out.deposits == db.deposits && db.jobs <= out.jobs
            && forall k | |db.jobs| <= k < |out.jobs| ::
                 out.jobs[k].Row? && !Terminal(out.jobs[k].job) && out.jobs[k].job.record.None?
  {
  }

  lemma FailIsQuiet(db: Db, j: JobId)
    requires MoneyOk(db)
    ensures var out := ApplyFailWithoutRecord(db, j);
            && Quiet(db, out) && out.earnings == db.earnings && out.deposits == db.deposits && |out.jobs| == |db.jobs|
            && (out != db ==>
                              JobExists(db, j) && !Terminal(db.jobs[j].job)
                              && out.jobs == db.jobs[j := out.jobs[j]] && out.jobs[j].Row?
                              && out.jobs[j].job == db.jobs[j].job.(
                                   status := Failed, admitting := false, billing := NotBilled, completedAt := Some(db.clock),
                                   lock := if db.jobs[j].job.lock == Held then Released else db.jobs[j].job.lock))
  {
    hide MoneyOk, Release;
    if JobExists(db, j) {
      ReleaseMoney(db, j);
    }
  }

  lemma WithdrawalIsQuiet(cfg: Config, db: Db, a: Action)
    requires MovesWithdrawal(a)
    ensures var out := Apply(cfg, db, a);
            out == db.(earnings := out.earnings) && NoIncome(db.earnings.events, out.earnings.events)
  {
    match a
    case RequestWithdrawal(r) => CreateAddsNoIncome(cfg, db.earnings, r, db.clock / 1000);
    case FulfillWithdrawal(w) => FulfillAddsNoIncome(db.earnings, w);
    case RejectWithdrawal(w) => RejectAddsNoIncome(db.earnings, w);
  }

  lemma CreateAddsNoIncome(cfg: Config, s: Earnings.State, r: Earnings.Request, now: nat)
    ensures Earnings.Create(cfg.networks, s, r, now).Committed? ==> NoIncome(s.events, Earnings.Create(cfg.networks, s, r, now).state.events)
  {
  }

  lemma FulfillAddsNoIncome(s: Earnings.State, w: Earnings.WithdrawalId)
    ensures Earnings.Fulfill(s, w).Committed? ==> NoIncome(s.events, Earnings.Fulfill(s, w).state.events)
  {
  }

  lemma RejectAddsNoIncome(s: Earnings.State, w: Earnings.WithdrawalId)
    ensures Earnings.Reject(s, w).Committed? ==> NoIncome(s.events, Earnings.Reject(s, w).state.events)
  {
  }

  /** Steps that close no job write no call record, charge nothing and pay nobody. */
  lemma OtherStepIsQuiet(cfg: Config, db: Db, a: Action)
    requires MoneyOk(db) && !Closes(a)
    ensures Quiet(db, Apply(cfg, db, a))
    ensures !MovesWithdrawal(a) ==> Apply(cfg, db, a).earnings == db.earnings
    ensures !a.MakeDeposit? ==> Apply(cfg, db, a).deposits == db.deposits
  {
    hide MoneyOk, ApplyCreate, ApplyFailWithoutRecord, ApplyJobUpdate;
    match a
    case CreateJob(u, source, work, admitting, amount) => CreateIsQuiet(db, u, source, work, admitting, amount);
    case FailWithoutRecord(j) => FailIsQuiet(db, j);
    case _ =>
      hide Apply;
      if UpdatesJob(a) {
        ApplyIsUpdate(cfg, db, a);
        UpdateMovesRow(db, a);
      } else if LeavesJobs(a) {
        LeavesJobsAlone(cfg, db, a);
      } else {
        WithdrawalIsQuiet(cfg, db, a);
      }
  }

  /** And unless a job is failed without a record, they close no row and add only open ones. */
  lemma OtherStepMovesRows(cfg: Config, db: Db, a: Action)
    requires !Closes(a) && !a.FailWithoutRecord?
    ensures var out := Apply(cfg, db, a);
            && |db.jobs| <= |out.jobs|
            && (forall k | 0 <= k < |db.jobs| :: RowMoves(db.jobs[k], out.jobs[k]))
            && (forall k | |db.jobs| <= k < |out.jobs| ::
                  out.jobs[k].Row? && !Terminal(out.jobs[k].job) && out.jobs[k].job.record.None?)
  {
    hide ApplyCreate, ApplyJobUpdate, Quiet;
    match a
    case CreateJob(u, source, work, admitting, amount) => CreateIsQuiet(db, u, source, work, admitting, amount);
    case _ =>
      hide Apply;
      if UpdatesJob(a) {
        ApplyIsUpdate(cfg, db, a);
        UpdateMovesRow(db, a);
      } else if LeavesJobs(a) {
        LeavesJobsAlone(cfg, db, a);
      } else {
        WithdrawalIsQuiet(cfg, db, a);
      }
  }
}
