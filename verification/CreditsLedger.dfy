/**
 Credits accounts, task jobs, call records and the Credits ledger as tables, and every database transaction
 over them as one atomic action (service/credits_lock.go, llm_charge.go, llm_job.go, provider_job.go,
 raw_task_job.go, credits.go, referral.go).

 A table is the sequence of the rows ever inserted and a primary key is an index into it; a deleted job row
 leaves a gap. A transaction that returns an error leaves the tables as they were.
 */
module CreditsLedger {
  import opened Options
  import opened Sums
  import Referral
  import Earnings
  import UsageStats

  type UserId = nat
  type JobId = nat
  type RecordId = nat

  datatype Account = Account(balance: int, locked: int)

  type Source = UsageStats.Source
  datatype Status = PendingSubmit | Submitted | InProgress | Completed | Failed
  datatype Billing = BillingPending | Billed | NotBilled
  datatype Lock = NoHold | Held | Released

  /** The columns of a job that its call record copies. */
  datatype Work = Work(
    project: nat, taskType: UsageStats.TaskType, model: string, cacheHash: string, dtype: string, imageCount: nat)

  datatype Job = Job(
    user: UserId, source: Source, work: Work, status: Status, admitting: bool, billing: Billing,
    record: Option<RecordId>, creditsLocked: int, lock: Lock, createdAt: nat, completedAt: Option<nat>)

  datatype JobRow = Deleted | Row(job: Job)

  datatype EventType = DepositEvent | TaskCharge | SignupBonus | InviteeBonus | ReferralReward

  /** (kind, ref) is the unique key of the append-only ledger. */
  datatype Event = Event(user: UserId, kind: EventType, ref: nat, amount: int)

  datatype LogKey = LogKey(network: string, txHash: string, logIndex: nat)

  datatype Deposit = Deposit(user: UserId, key: LogKey, credits: int)

  datatype Reward = Reward(deposit: nat, referrer: UserId, amount: int, extraAmount: int)

  /** What a Provider settlement paid: history only, kept under the id of the call record it wrote. */
  datatype Payout = Payout(job: JobId, owner: UserId, wei: int)

  datatype Db = Db(
    users: seq<string>,
    accounts: seq<Account>,
    jobs: seq<JobRow>,
    records: seq<UsageStats.CallRecord>,
    events: seq<Event>,
    deposits: seq<Deposit>,
    bindings: map<UserId, UserId>,
    rewards: seq<Reward>,
    earnings: Earnings.State,
    usage: UsageStats.State,
    payouts: map<RecordId, Payout>,
    clock: nat)

  datatype Config = Config(
    signupBonus: nat, inviteeBonus: nat, referral: Referral.Config, networks: Earnings.Config)

  const EMPTY: Db := Db([], [], [], [], [], [], map[], [], Earnings.EMPTY, UsageStats.EMPTY, map[], 0)

  // ---------------------------------------------------------------------------------------------
  // Row functions summed over the tables

  function HeldBy(u: UserId): JobRow -> int {
    (r: JobRow) => if r.Row? && r.job.user == u && r.job.lock == Held then r.job.creditsLocked else 0
  }

  function SignedFor(u: UserId): Event -> int {
    (e: Event) => if e.user != u then 0 else if e.kind == TaskCharge then -e.amount else e.amount
  }

  function Entry(kind: EventType, ref: nat): Event -> int {
    (e: Event) => if e.kind == kind && e.ref == ref then 1 else 0
  }

  function EntryAmount(kind: EventType, ref: nat): Event -> int {
    (e: Event) => if e.kind == kind && e.ref == ref then e.amount else 0
  }

  function ForJob(j: JobId): UsageStats.CallRecord -> int {
    (r: UsageStats.CallRecord) => if r.job == j then 1 else 0
  }

  predicate Invited(bindings: map<UserId, UserId>, u: UserId, referrer: UserId) {
    u in bindings && bindings[u] == referrer
  }

  function PurchaseOf(bindings: map<UserId, UserId>, referrer: UserId): Deposit -> int {
    (d: Deposit) => if Invited(bindings, d.user, referrer) then 1 else 0
  }

  function DepositedUnder(bindings: map<UserId, UserId>, referrer: UserId): Deposit -> int {
    (d: Deposit) => if Invited(bindings, d.user, referrer) then d.credits else 0
  }

  function RewardTo(referrer: UserId): Reward -> int {
    (r: Reward) => if r.referrer == referrer then r.amount else 0
  }

  /** The Credits charged for a call record. */
  function ChargeOf(events: seq<Event>): RecordId -> int {
    (r: RecordId) => Sum(events, EntryAmount(TaskCharge, r))
  }

  // ---------------------------------------------------------------------------------------------
  // Pieces shared by the transactions

  predicate HasEvent(events: seq<Event>, kind: EventType, ref: nat) {
    exists i :: 0 <= i < |events| && events[i].kind == kind && events[i].ref == ref
  }

  predicate Terminal(job: Job) {
    job.status == Completed || job.status == Failed
  }

  predicate JobExists(db: Db, j: JobId) {
    j < |db.jobs| && db.jobs[j].Row?
  }

  /** balance - locked, clamped to zero. */
  function Available(a: Account): int {
    if a.balance - a.locked < 0 then 0 else a.balance - a.locked
  }

  predicate Sufficient(balance: int, required: int) {
    required <= 0 || required <= balance
  }

  function Reserve(db: Db, u: UserId, amount: int): Option<Db> {
    if amount <= 0 || u >= |db.accounts| then None
    else
      var a := db.accounts[u];
      if !Sufficient(Available(a), amount) then None
      else Some(db.(accounts := db.accounts[u := a.(locked := a.locked + amount)]))
  }

  /** Releases a held job's Credits; a hold larger than the locked total leaves zero locked. */
  function Release(db: Db, j: JobId): Option<Db>
    requires JobExists(db, j)
  {
    var job := db.jobs[j].job;
    if job.lock != Held then Some(db)
    else if job.user >= |db.accounts| || job.creditsLocked < 0 then None
    else
      var a := db.accounts[job.user];
      var locked := if a.locked < job.creditsLocked then 0 else a.locked - job.creditsLocked;
      Some(db.(accounts := db.accounts[job.user := a.(locked := locked)],
               jobs := db.jobs[j := Row(job.(lock := Released))]))
  }

  /** The amount a charge takes: the computed Credits, clamped to what is available. */
  function Charged(a: Account, credits: int): int {
    if Available(a) < credits then Available(a) else credits
  }

  function ChargeAmount(db: Db, r: UsageStats.CallRecord, credits: int): int {
    if r.success && credits > 0 && r.user < |db.accounts| then Charged(db.accounts[r.user], credits) else 0
  }

  /** Writes a call record, queues it for statistics, and debits a successful call. */
  function WriteCall(db: Db, r: UsageStats.CallRecord, credits: int): Option<Db> {
    var id := |db.records|;
    var amount := ChargeAmount(db, r, credits);
    if credits < 0 || (r.success && credits > 0 && r.user >= |db.accounts|) then None
    else if exists i :: 0 <= i < |db.records| && db.records[i].job == r.job then None
    else if amount > 0 && HasEvent(db.events, TaskCharge, id) then None
    else
      var written := db.(records := db.records + [r], usage := UsageStats.Enqueue(db.usage, id));
      if amount == 0 then Some(written)
      else
        var a := db.accounts[r.user];
        Some(written.(accounts := db.accounts[r.user := a.(balance := a.balance - amount)],
                      events := db.events + [Event(r.user, TaskCharge, id, amount)]))
  }

  datatype Usage = Usage(prompt: nat, completion: nat, total: nat, applicable: bool)

  /**
   `lag` is the time between the two clock readings of a Provider closing, the call record's and the job's; the
   other transactions read the clock once. A failed call's record is written under `source`.
   */
  datatype Outcome = Succeeded(credits: int, usage: Usage, lag: nat) | Unsuccessful(applicable: bool, source: Source, lag: nat)

  function RecordFor(j: JobId, job: Job, outcome: Outcome, now: nat): UsageStats.CallRecord
    requires job.createdAt <= now
  {
    var usage := if outcome.Succeeded? then outcome.usage else Usage(0, 0, 0, outcome.applicable);
    UsageStats.CallRecord(
      if outcome.Succeeded? then job.source else outcome.source,
      job.user, job.work.project, j, job.work.taskType, job.work.model, job.work.cacheHash, job.work.dtype,
      usage.prompt, usage.completion, usage.total, job.work.imageCount, usage.applicable,
      outcome.Succeeded?, job.createdAt / 1000, now - job.createdAt)
  }

  function Finished(job: Job, outcome: Outcome, record: RecordId, now: nat): Job {
    job.(status := if outcome.Succeeded? then Completed else Failed,
         billing := if outcome.Succeeded? then Billed else NotBilled,
         admitting := false, record := Some(record),
         completedAt := Some(now + if job.source == UsageStats.Provider then outcome.lag else 0))
  }

  /** Release, record, and close a job: the common part of the settle and fail transactions. */
  function Finish(db: Db, j: JobId, outcome: Outcome): Option<Db>
    requires JobExists(db, j)
  {
    match Release(db, j)
    case None => None
    case Some(released) =>
      var job := released.jobs[j].job;
      if db.clock < job.createdAt then None
      else
        match WriteCall(released, RecordFor(j, job, outcome, db.clock), if outcome.Succeeded? then outcome.credits else 0)
        case None => None
        case Some(written) =>
          Some(written.(jobs := written.jobs[j := Row(Finished(job, outcome, |db.records|, db.clock))]))
  }

  // ---------------------------------------------------------------------------------------------
  // Actions

  datatype Action =
    | SignUp(address: string, inviter: Option<UserId>)
    | MakeDeposit(user: UserId, key: LogKey, credits: int)
    | CreateJob(user: UserId, source: Source, work: Work, admitting: bool, creditsToLock: int)
    | Complete(job: JobId, credits: int, usage: Usage)
    | CompleteImage(job: JobId, credits: int)
    | SettleProvider(job: JobId, owner: UserId, credits: int, wei: int, usage: Usage, lag: nat)
    | FailAndRecord(job: JobId)
    | FailWithoutRecord(job: JobId)
    | FailProvider(job: JobId, lag: nat)
    | Submit(job: JobId)
    | Publish(job: JobId)
    | SetStatus(job: JobId, status: Status)
    | SetPhase(job: JobId, status: Status)
    | ResetToPending(job: JobId)
    | Purge(job: JobId, cutoff: nat)
    | Reconcile(user: UserId)
    | AggregateUsage
    | RequestWithdrawal(request: Earnings.Request)
    | FulfillWithdrawal(withdrawal: Earnings.WithdrawalId)
    | RejectWithdrawal(withdrawal: Earnings.WithdrawalId)

  function OrElse(r: Option<Db>, db: Db): Db {
    if r.Some? then r.value else db
  }

  function ApplySignUp(cfg: Config, db: Db, address: string, inviter: Option<UserId>): Db {
    if address in db.users then db
    else
      var id := |db.accounts|;
      var added := db.(
        users := db.users + [address],
        accounts := db.accounts + [Account(cfg.signupBonus, 0)],
        events := if cfg.signupBonus > 0 then db.events + [Event(id, SignupBonus, id, cfg.signupBonus)] else db.events);
      if inviter.None? || inviter.value >= id then added
      else if id in db.bindings then added
      else
        var bound := added.(bindings := db.bindings[id := inviter.value]);
        if cfg.inviteeBonus == 0 then bound
        else
          bound.(accounts := db.accounts + [Account(cfg.signupBonus + cfg.inviteeBonus, 0)],
                 events := bound.events + [Event(id, InviteeBonus, id, cfg.inviteeBonus)])
  }

  /** The referrer's reward for deposit `id`, the newest row, paid inside the deposit transaction. */
  function PayReferral(cfg: Config, db: Db, id: nat): Option<Db>
    requires id < |db.deposits|
  {
    var d := db.deposits[id];
    if d.user !in db.bindings then Some(db)
    else
      var referrer := db.bindings[d.user];
      var prior := Sum(db.deposits[..id], PurchaseOf(db.bindings, referrer));
      if referrer >= |db.accounts| || prior < 0 || !Referral.Readable(cfg.referral, prior) then None
      else
        match Referral.DepositReward(cfg.referral, d.credits, prior)
        case None => Some(db)
        case Some(reward) =>
          if exists i :: 0 <= i < |db.rewards| && db.rewards[i].deposit == id then Some(db)
          else if HasEvent(db.events, ReferralReward, |db.rewards|) then None
          else
            var a := db.accounts[referrer];
            Some(db.(
                   rewards := db.rewards + [Reward(id, referrer, reward.amount, reward.extraAmount)],
                   events := db.events + [Event(referrer, ReferralReward, |db.rewards|, reward.amount)],
                   accounts := db.accounts[referrer := a.(balance := a.balance + reward.amount)]))
  }

  function Credit(db: Db, u: UserId, key: LogKey, credits: int): Db
    requires u < |db.accounts|
  {
    var a := db.accounts[u];
    db.(deposits := db.deposits + [Deposit(u, key, credits)],
        events := db.events + [Event(u, DepositEvent, |db.deposits|, credits)],
        accounts := db.accounts[u := a.(balance := a.balance + credits)])
  }

  function ApplyDeposit(cfg: Config, db: Db, u: UserId, key: LogKey, credits: int): Db {
    var id := |db.deposits|;
    if credits <= 0 || u >= |db.accounts| then db
    else if exists i :: 0 <= i < |db.deposits| && db.deposits[i].key == key then db
    else if HasEvent(db.events, DepositEvent, id) then db
    else
      OrElse(PayReferral(cfg, Credit(db, u, key, credits), id), db)
  }

  function ApplyCreate(db: Db, u: UserId, source: Source, work: Work, admitting: bool, amount: int): Db {
    match Reserve(db, u, amount)
    case None => db
    case Some(reserved) =>
      reserved.(jobs := db.jobs + [Row(Job(u, source, work, PendingSubmit, admitting, BillingPending, None, amount,
                                           Held, db.clock, None))])
  }

  /** Settling needs the job's Provider billing data, and its Credits conversion never yields less than one. */
  predicate CanSettle(db: Db, j: JobId, credits: int) {
    JobExists(db, j) && db.jobs[j].job.source == UsageStats.Provider && credits >= 1
  }

  function ApplySettleProvider(db: Db, j: JobId, owner: UserId, credits: int, wei: int, usage: Usage, lag: nat): Db {
    if !CanSettle(db, j, credits) || Terminal(db.jobs[j].job) || db.jobs[j].job.record.Some? then db
    else
      match Finish(db, j, Succeeded(credits, usage, lag))
      case None => db
      case Some(done) =>
        match Earnings.Income(done.earnings, owner, wei, |db.records|)
        case RolledBack(_) => db
        case Committed(earnings) => done.(earnings := earnings, payouts := done.payouts[|db.records| := Payout(j, owner, wei)])
  }

  /** Marks a job failed and releases its hold, but writes no call record. */
  function ApplyFailWithoutRecord(db: Db, j: JobId): Db {
    if !JobExists(db, j) || Terminal(db.jobs[j].job) then db
    else
      match Release(db, j)
      case None => db
      case Some(released) =>
        var job := released.jobs[j].job;
        released.(jobs := released.jobs[j := Row(job.(status := Failed, admitting := false, billing := NotBilled,
                                                      completedAt := Some(db.clock)))])
  }

  function WithJob(db: Db, j: JobId, job: Job): Db
    requires JobExists(db, j)
  {
    db.(jobs := db.jobs[j := Row(job)])
  }

  predicate Purgeable(job: Job, cutoff: nat) {
    && ((job.status == Completed && job.billing == Billed) || (job.status == Failed && job.billing == NotBilled))
    && job.record.Some?
    && job.completedAt.Some? && job.completedAt.value < cutoff
  }

  function ApplyReconcile(db: Db, u: UserId): Db {
    if u >= |db.accounts| then db
    else
      var expected := Sum(db.jobs, HeldBy(u));
      if db.accounts[u].locked == expected then db
      else db.(accounts := db.accounts[u := db.accounts[u].(locked := expected)])
  }

  predicate Running(s: Status) {
    s == Submitted || s == InProgress
  }

  function ApplyJobUpdate(db: Db, a: Action): Db
    requires a.Submit? || a.Publish? || a.SetStatus? || a.SetPhase? || a.ResetToPending? || a.Purge?
  {
    if !JobExists(db, a.job) then db
    else
      var job := db.jobs[a.job].job;
      match a
      case Submit(j) => if job.status == PendingSubmit then WithJob(db, j, job.(status := Submitted, admitting := false)) else db
      case Publish(j) => WithJob(db, j, job.(admitting := false))
      case SetStatus(j, status) =>
        if !Terminal(job) && status != Completed && status != Failed then WithJob(db, j, job.(status := status)) else db
      case SetPhase(j, status) =>
        if Running(job.status) && status != Completed && status != Failed
        then WithJob(db, j, job.(status := status, admitting := false)) else db
      case ResetToPending(j) =>
        if Running(job.status) && job.record.None?
        then WithJob(db, j, job.(status := PendingSubmit, admitting := false)) else db
      case Purge(j, cutoff) => if Purgeable(job, cutoff) then db.(jobs := db.jobs[j := Deleted]) else db
  }

  predicate ClosesJob(a: Action) {
    a.Complete? || a.CompleteImage? || a.FailAndRecord? || a.FailProvider?
  }

  /** The job has the billing data of a node LLM job. */
  predicate LlmBilled(job: Job) { job.source == UsageStats.Crynux && job.work.taskType == UsageStats.LlmTask }

  predicate ImageBilled(job: Job) { job.source == UsageStats.Crynux && job.work.taskType == UsageStats.ImageTask }

  /** The closing transaction finds the job closed already and reports success without doing anything. */
  predicate Closed(job: Job, a: Action)
    requires ClosesJob(a)
  {
    match a
    case Complete(_, _, _) => (job.status == Completed && job.billing == Billed) || (Chargeable(job, a) && job.record.Some?)
    case CompleteImage(_, _) => job.record.Some?
    case FailAndRecord(_) => job.record.Some?
    case FailProvider(_, _) => Terminal(job)
  }

  /** The job has the billing data the transaction charges from, and the Credits that come of it are at least one. */
  predicate Chargeable(job: Job, a: Action)
    requires ClosesJob(a)
  {
    match a
    case Complete(_, credits, _) => LlmBilled(job) && credits >= 1
    case CompleteImage(_, credits) => ImageBilled(job) && credits >= 1
    case FailAndRecord(_) => true
    case FailProvider(_, _) => true
  }

  /** Nothing to do, or an error before anything is written. */
  predicate Skips(job: Job, a: Action)
    requires ClosesJob(a)
  {
    Closed(job, a) || !Chargeable(job, a)
  }

  /** A closing transaction reports success: the job was closed before, or it is closed now. */
  predicate Succeeds(db: Db, a: Action)
    requires ClosesJob(a)
  {
    && JobExists(db, a.job)
    && (Closed(db.jobs[a.job].job, a)
        || (Chargeable(db.jobs[a.job].job, a) && Finish(db, a.job, OutcomeOf(db.jobs[a.job].job, a)).Some?))
  }

  function OutcomeOf(job: Job, a: Action): Outcome
    requires ClosesJob(a)
  {
    match a
    case Complete(_, credits, usage) => Succeeded(credits, usage, 0)
    case CompleteImage(_, credits) => Succeeded(credits, Usage(0, 0, 0, false), 0)
    case FailAndRecord(_) => Unsuccessful(job.work.taskType == UsageStats.LlmTask, UsageStats.Crynux, 0)
    case FailProvider(_, lag) => Unsuccessful(false, job.source, lag)
  }

  function ApplyFinish(db: Db, a: Action): Db
    requires ClosesJob(a)
  {
    if !JobExists(db, a.job) || Skips(db.jobs[a.job].job, a) then db
    else OrElse(Finish(db, a.job, OutcomeOf(db.jobs[a.job].job, a)), db)
  }

  function WithEarnings(db: Db, r: Earnings.Result): Db {
    if r.Committed? then db.(earnings := r.state) else db
  }

  function Apply(cfg: Config, db: Db, a: Action): Db {
    match a
    case SignUp(address, inviter) => ApplySignUp(cfg, db, address, inviter)
    case MakeDeposit(u, key, credits) => ApplyDeposit(cfg, db, u, key, credits)
    case CreateJob(u, source, work, admitting, amount) => ApplyCreate(db, u, source, work, admitting, amount)
    case Complete(_, _, _) => ApplyFinish(db, a)
    case CompleteImage(_, _) => ApplyFinish(db, a)
    case FailAndRecord(_) => ApplyFinish(db, a)
    case FailProvider(_, _) => ApplyFinish(db, a)
    case SettleProvider(j, owner, credits, wei, usage, lag) => ApplySettleProvider(db, j, owner, credits, wei, usage, lag)
    case FailWithoutRecord(j) => ApplyFailWithoutRecord(db, j)
    case Submit(_) => ApplyJobUpdate(db, a)
    case Publish(_) => ApplyJobUpdate(db, a)
    case SetStatus(_, _) => ApplyJobUpdate(db, a)
    case SetPhase(_, _) => ApplyJobUpdate(db, a)
    case ResetToPending(_) => ApplyJobUpdate(db, a)
    case Purge(_, _) => ApplyJobUpdate(db, a)
    case Reconcile(u) => ApplyReconcile(db, u)
    case AggregateUsage => db.(usage := UsageStats.Aggregate(db.usage, db.records, ChargeOf(db.events)))
    case RequestWithdrawal(r) => WithEarnings(db, Earnings.Create(cfg.networks, db.earnings, r, db.clock / 1000))
    case FulfillWithdrawal(w) => WithEarnings(db, Earnings.Fulfill(db.earnings, w))
    case RejectWithdrawal(w) => WithEarnings(db, Earnings.Reject(db.earnings, w))
  }

  /** One step of a run: time passes, then one transaction commits or rolls back. */
  datatype Step = Step(elapsed: nat, action: Action)

  function Take(cfg: Config, db: Db, s: Step): Db {
    Apply(cfg, db.(clock := db.clock + s.elapsed), s.action)
  }

  /** The tables after a run: any interleaving of the transactions of all processes is such a sequence. */
  function Run(cfg: Config, db: Db, steps: seq<Step>): Db {
    if steps == [] then db else Take(cfg, Run(cfg, db, steps[..|steps| - 1]), steps[|steps| - 1])
  }
}
