/** The invariant of the Credits tables, and its preservation by every transaction. */
module CreditsInvariant {
  import opened Options
  import opened Sums
  import opened CreditsLedger
  import Referral
  import UsageStats

  // ---------------------------------------------------------------------------------------------
  // Money: accounts against jobs and events

  ghost predicate AccountOk(a: Account, u: UserId, jobs: seq<JobRow>, events: seq<Event>) {
    && a.locked == Sum(jobs, HeldBy(u))
    && 0 <= a.locked <= a.balance
    && a.balance == Sum(events, SignedFor(u))
  }

  ghost predicate MoneyOk(db: Db) {
    && |db.users| == |db.accounts|
    && (forall u | 0 <= u < |db.accounts| :: AccountOk(db.accounts[u], u, db.jobs, db.events))
    && (forall j | 0 <= j < |db.jobs| && db.jobs[j].Row? ::
          db.jobs[j].job.user < |db.accounts| && db.jobs[j].job.creditsLocked > 0)
    && (forall i | 0 <= i < |db.events| :: db.events[i].user < |db.accounts| && db.events[i].amount > 0)
  }

  lemma AppendEvent(events: seq<Event>, e: Event)
    ensures forall f: Event -> int :: Sum(events + [e], f) == Sum(events, f) + f(e)
  {
    forall f: Event -> int ensures Sum(events + [e], f) == Sum(events, f) + f(e) {
      SumAppend(events, e, f);
    }
  }

  lemma UpdateJobSums(jobs: seq<JobRow>, j: JobId, row: JobRow)
    requires j < |jobs|
    ensures forall u :: Sum(jobs[j := row], HeldBy(u)) == Sum(jobs, HeldBy(u)) - HeldBy(u)(jobs[j]) + HeldBy(u)(row)
  {
    forall u ensures Sum(jobs[j := row], HeldBy(u)) == Sum(jobs, HeldBy(u)) - HeldBy(u)(jobs[j]) + HeldBy(u)(row) {
      SumUpdate(jobs, j, row, HeldBy(u));
    }
  }

  /** A held job's amount is part of its user's locked total, so release never underflows. */
  lemma HoldIsLocked(db: Db, j: JobId)
    requires MoneyOk(db) && JobExists(db, j) && db.jobs[j].job.lock == Held
    ensures db.jobs[j].job.creditsLocked <= db.accounts[db.jobs[j].job.user].locked
  {
    var u := db.jobs[j].job.user;
    SumAtLeastRow(db.jobs, HeldBy(u));
    assert HeldBy(u)(db.jobs[j]) == db.jobs[j].job.creditsLocked;
  }

  /** The clamp in `Available` never fires. */
  lemma AvailableIsExact(db: Db, u: UserId)
    requires MoneyOk(db) && u < |db.accounts|
    ensures Available(db.accounts[u]) == db.accounts[u].balance - db.accounts[u].locked
  {
    assert AccountOk(db.accounts[u], u, db.jobs, db.events);
  }

  /** Releasing a hold subtracts exactly the job's amount. */
  lemma ReleaseMoney(db: Db, j: JobId)
    requires MoneyOk(db) && JobExists(db, j)
    ensures var job := db.jobs[j].job;
            var a := db.accounts[job.user];
            && Release(db, j) == Some(if job.lock != Held then db else db.(
                 accounts := db.accounts[job.user := a.(locked := a.locked - job.creditsLocked)],
                 jobs := db.jobs[j := Row(job.(lock := Released))]))
            && MoneyOk(Release(db, j).value)
  {
    var job := db.jobs[j].job;
    if job.lock == Held {
      HoldIsLocked(db, j);
      var out := Release(db, j).value;
      UpdateJobSums(db.jobs, j, Row(job.(lock := Released)));
      forall u | 0 <= u < |out.accounts| ensures AccountOk(out.accounts[u], u, out.jobs, out.events) {
        assert AccountOk(db.accounts[u], u, db.jobs, db.events);
      }
    }
  }

  /** Posting an event and moving the balance by it keeps the accounts exact. */
  lemma PostMoney(db: Db, e: Event, balance: int)
    requires MoneyOk(db) && e.user < |db.accounts| && e.amount > 0
    requires balance == db.accounts[e.user].balance + SignedFor(e.user)(e)
    requires db.accounts[e.user].locked <= balance
    ensures MoneyOk(db.(events := db.events + [e],
                        accounts := db.accounts[e.user := db.accounts[e.user].(balance := balance)]))
  {
    var out := db.(events := db.events + [e],
                   accounts := db.accounts[e.user := db.accounts[e.user].(balance := balance)]);
    AppendEvent(db.events, e);
    forall u | 0 <= u < |out.accounts| ensures AccountOk(out.accounts[u], u, out.jobs, out.events) {
      assert AccountOk(db.accounts[u], u, db.jobs, db.events);
    }
  }

  lemma WriteCallMoney(db: Db, r: UsageStats.CallRecord, credits: int)
    requires MoneyOk(db) && r.user < |db.accounts| && WriteCall(db, r, credits).Some?
    ensures MoneyOk(WriteCall(db, r, credits).value)
  {
    assert AccountOk(db.accounts[r.user], r.user, db.jobs, db.events);
    var amount := ChargeAmount(db, r, credits);
    if amount != 0 {
      PostMoney(db, Event(r.user, TaskCharge, |db.records|, amount), db.accounts[r.user].balance - amount);
    }
  }

  /** Rewriting a job without touching its hold keeps the accounts exact. */
  lemma WithJobMoney(db: Db, j: JobId, row: JobRow)
    requires MoneyOk(db) && JobExists(db, j)
    requires row.Row? ==> row.job.user == db.jobs[j].job.user && row.job.creditsLocked == db.jobs[j].job.creditsLocked
                          && row.job.lock == db.jobs[j].job.lock
    requires row.Deleted? ==> db.jobs[j].job.lock != Held
    ensures MoneyOk(db.(jobs := db.jobs[j := row]))
  {
    var out := db.(jobs := db.jobs[j := row]);
    UpdateJobSums(db.jobs, j, row);
    forall u | 0 <= u < |out.accounts| ensures AccountOk(out.accounts[u], u, out.jobs, out.events) {
      assert AccountOk(db.accounts[u], u, db.jobs, db.events);
    }
  }

  lemma FinishMoney(db: Db, j: JobId, outcome: Outcome)
    requires MoneyOk(db) && JobExists(db, j) && Finish(db, j, outcome).Some?
    ensures MoneyOk(Finish(db, j, outcome).value)
  {
    ReleaseMoney(db, j);
    var released := Release(db, j).value;
    var job := released.jobs[j].job;
    var credits := if outcome.Succeeded? then outcome.credits else 0;
    WriteCallMoney(released, RecordFor(j, job, outcome, db.clock), credits);
    var written := WriteCall(released, RecordFor(j, job, outcome, db.clock), credits).value;
    WithJobMoney(written, j, Row(Finished(job, outcome, |db.records|, db.clock)));
  }

  lemma CreateMoney(db: Db, u: UserId, source: Source, work: Work, admitting: bool, amount: int)
    requires MoneyOk(db)
    ensures MoneyOk(ApplyCreate(db, u, source, work, admitting, amount))
  {
    var out := ApplyCreate(db, u, source, work, admitting, amount);
    if Reserve(db, u, amount).Some? {
      var row := out.jobs[|db.jobs|];
      forall v | 0 <= v < |out.accounts| ensures AccountOk(out.accounts[v], v, out.jobs, out.events) {
        assert AccountOk(db.accounts[v], v, db.jobs, db.events);
        SumAppend(db.jobs, row, HeldBy(v));
      }
    }
  }

  /** A new account with nothing but its sign-up bonus, which is posted when it is positive. */
  lemma NewAccountMoney(db: Db, address: string, bonus: nat)
    requires MoneyOk(db)
    ensures MoneyOk(db.(
              users := db.users + [address],
              accounts := db.accounts + [Account(bonus, 0)],
              events := if bonus > 0 then db.events + [Event(|db.accounts|, SignupBonus, |db.accounts|, bonus)] else db.events))
  {
    var id := |db.accounts|;
    var e := Event(id, SignupBonus, id, bonus);
    SumZero(db.jobs, HeldBy(id));
    SumZero(db.events, SignedFor(id));
    AppendEvent(db.events, e);
    var events := if bonus > 0 then db.events + [e] else db.events;
    var accounts := db.accounts + [Account(bonus, 0)];
    forall u | 0 <= u < |accounts| ensures AccountOk(accounts[u], u, db.jobs, events) {
      if u < id {
        assert AccountOk(db.accounts[u], u, db.jobs, db.events);
      }
    }
  }

  /** The invitee bonus on top of a new account. */
  lemma InviteeMoney(db: Db, address: string, bonus: nat, invitee: nat)
    requires MoneyOk(db) && invitee > 0
    ensures var id := |db.accounts|;
            MoneyOk(db.(
              users := db.users + [address],
              accounts := db.accounts + [Account(bonus + invitee, 0)],
              events := (if bonus > 0 then db.events + [Event(id, SignupBonus, id, bonus)] else db.events)
                        + [Event(id, InviteeBonus, id, invitee)]))
  {
    var id := |db.accounts|;
    var added := db.(
      users := db.users + [address],
      accounts := db.accounts + [Account(bonus, 0)],
      events := if bonus > 0 then db.events + [Event(id, SignupBonus, id, bonus)] else db.events);
    NewAccountMoney(db, address, bonus);
    hide MoneyOk;
    PostMoney(added, Event(id, InviteeBonus, id, invitee), bonus + invitee);
    assert added.accounts[id := Account(bonus + invitee, 0)] == db.accounts + [Account(bonus + invitee, 0)];
  }

  lemma BindingMoney(db: Db, bindings: map<UserId, UserId>)
    requires MoneyOk(db)
    ensures MoneyOk(db.(bindings := bindings))
  {
  }

  lemma SignUpMoney(cfg: Config, db: Db, address: string, inviter: Option<UserId>)
    requires MoneyOk(db)
    ensures MoneyOk(ApplySignUp(cfg, db, address, inviter))
  {
    hide MoneyOk;
    if address !in db.users {
      var out := ApplySignUp(cfg, db, address, inviter);
      BindingMoney(db, out.bindings);
      var bound := db.(bindings := out.bindings);
      NewAccountMoney(bound, address, cfg.signupBonus);
      if cfg.inviteeBonus > 0 {
        InviteeMoney(bound, address, cfg.signupBonus, cfg.inviteeBonus);
      }
    }
  }

  lemma PayReferralMoney(cfg: Config, db: Db, id: nat)
    requires MoneyOk(db) && id < |db.deposits| && PayReferral(cfg, db, id).Some?
    ensures MoneyOk(PayReferral(cfg, db, id).value)
  {
    var paid := PayReferral(cfg, db, id).value;
    if |paid.rewards| != |db.rewards| {
      var e := paid.events[|db.events|];
      assert AccountOk(db.accounts[e.user], e.user, db.jobs, db.events);
      PostMoney(db, e, db.accounts[e.user].balance + e.amount);
    }
  }

  lemma CreditMoney(db: Db, u: UserId, key: LogKey, credits: int)
    requires MoneyOk(db) && u < |db.accounts| && credits > 0
    ensures MoneyOk(Credit(db, u, key, credits))
  {
    assert AccountOk(db.accounts[u], u, db.jobs, db.events);
    PostMoney(db, Event(u, DepositEvent, |db.deposits|, credits), db.accounts[u].balance + credits);
  }

  lemma DepositMoney(cfg: Config, db: Db, u: UserId, key: LogKey, credits: int)
    requires MoneyOk(db)
    ensures MoneyOk(ApplyDeposit(cfg, db, u, key, credits))
  {
    hide MoneyOk, PayReferral;
    if ApplyDeposit(cfg, db, u, key, credits) != db {
      CreditMoney(db, u, key, credits);
      PayReferralMoney(cfg, Credit(db, u, key, credits), |db.deposits|);
    }
  }

  /** Under the invariant reconcile finds nothing to correct. */
  lemma ReconcileFindsNothing(db: Db, u: UserId)
    requires MoneyOk(db)
    ensures ApplyReconcile(db, u) == db
  {
    if u < |db.accounts| {
      assert AccountOk(db.accounts[u], u, db.jobs, db.events);
    }
  }

  // ---------------------------------------------------------------------------------------------
  // Lifecycle: jobs against call records

  function BillingOf(s: Status): Billing {
    match s
    case Completed => Billed
    case Failed => NotBilled
    case _ => BillingPending
  }

  /** A call record carries its job's own columns, outcome and times; a failed call used no tokens. */
  predicate Describes(r: UsageStats.CallRecord, j: JobId, job: Job) {
    && r.job == j && r.user == job.user && r.project == job.work.project && r.taskType == job.work.taskType
    && r.model == job.work.model && r.cacheHash == job.work.cacheHash && r.dtype == job.work.dtype
    && r.imageCount == job.work.imageCount
    && (r.success ==> r.source == job.source)
    && r.success == (job.status == Completed)
    && r.acceptedAt == job.createdAt / 1000
    && job.completedAt.Some? && job.createdAt + r.durationMs <= job.completedAt.value
    && (job.source == UsageStats.Crynux ==> job.completedAt.value == job.createdAt + r.durationMs)
    && (!r.success ==> r.promptTokens == 0 && r.completionTokens == 0 && r.totalTokens == 0)
  }

  ghost predicate JobOk(jobs: seq<JobRow>, j: JobId, records: seq<UsageStats.CallRecord>, clock: nat)
    requires j < |jobs|
  {
    match jobs[j]
    case Deleted => Sum(records, ForJob(j)) == 1
    case Row(job) =>
      && job.lock != NoHold
      && (job.lock == Held <==> !Terminal(job))
      && job.billing == BillingOf(job.status)
      && job.createdAt <= clock
      && (job.completedAt.Some? <==> Terminal(job))
      && (Terminal(job) ==> !job.admitting)
      && (job.status == Completed ==> job.record.Some?)
      && (job.record.Some? ==>
            && Terminal(job)
            && job.record.value < |records|
            && Describes(records[job.record.value], j, job))
      && Sum(records, ForJob(j)) == (if job.record.Some? then 1 else 0)
  }

  ghost predicate LifecycleOk(db: Db) {
    && (forall j | 0 <= j < |db.jobs| :: JobOk(db.jobs, j, db.records, db.clock))
    && (forall r | 0 <= r < |db.records| :: db.records[r].job < |db.jobs|)
  }

  lemma RecordCountIsPresence(records: seq<UsageStats.CallRecord>, j: JobId)
    ensures (exists i :: 0 <= i < |records| && records[i].job == j) <==> Sum(records, ForJob(j)) > 0
  {
    SumAtLeastRow(records, ForJob(j));
    if exists i :: 0 <= i < |records| && records[i].job == j {
      var i :| 0 <= i < |records| && records[i].job == j;
      assert ForJob(j)(records[i]) == 1;
    } else {
      SumZero(records, ForJob(j));
    }
  }

  /** The new call record carries the outcome: the usage of a success, no tokens of a failure, and the time it took. */
  predicate Tells(r: UsageStats.CallRecord, outcome: Outcome, job: Job, now: nat) {
    && r.success == outcome.Succeeded?
    && (match outcome
        case Succeeded(_, u, _) =>
          && r.source == job.source
          && r.promptTokens == u.prompt && r.completionTokens == u.completion && r.totalTokens == u.total
          && r.tokenUsageApplicable == u.applicable
        case Unsuccessful(applicable, source, _) =>
          && r.source == source
          && r.promptTokens == r.completionTokens == r.totalTokens == 0
          && r.tokenUsageApplicable == applicable)
    && r.acceptedAt == job.createdAt / 1000 && r.durationMs == now - job.createdAt
  }

  /** What finishing a job does to the tables other than the account row. */
  ghost predicate FinishShape(db: Db, j: JobId, outcome: Outcome, out: Db)
    requires JobExists(db, j)
  {
    var job := db.jobs[j].job;
    var success := outcome.Succeeded?;
    var id := |db.records|;
    && out == db.(accounts := out.accounts, jobs := out.jobs, records := out.records, events := out.events,
                  usage := out.usage)
    && |out.accounts| == |db.accounts|
    && (exists done: Job ::
          && out.jobs == db.jobs[j := Row(done)]
          && done == job.(status := if success then Completed else Failed,
                          billing := if success then Billed else NotBilled, admitting := false,
                          record := Some(id),
                          completedAt := Some(db.clock + if job.source == UsageStats.Provider then outcome.lag else 0),
                          lock := if job.lock == Held then Released else job.lock))
    && (exists r: UsageStats.CallRecord ::
          out.records == db.records + [r] && r.job == j && r.user == job.user && Tells(r, outcome, job, db.clock))
    && out.jobs[j].Row? && Describes(out.records[id], j, out.jobs[j].job)
    && out.usage == UsageStats.Enqueue(db.usage, id)
    && (out.events == db.events
        || (success && exists amount :: amount > 0 && out.events == db.events + [Event(job.user, TaskCharge, id, amount)]))
    && (forall i | 0 <= i < |db.records| :: db.records[i].job != j)
  }

  lemma WriteCallRows(db: Db, r: UsageStats.CallRecord, credits: int)
    requires WriteCall(db, r, credits).Some?
    requires r.user < |db.accounts| && db.accounts[r.user].locked <= db.accounts[r.user].balance
    ensures var out := WriteCall(db, r, credits).value;
            && out == db.(accounts := out.accounts, records := db.records + [r], events := out.events,
                          usage := UsageStats.Enqueue(db.usage, |db.records|))
            && |out.accounts| == |db.accounts|
            && (out.events == db.events
                || (r.success && exists amount ::
                      amount > 0 && out.events == db.events + [Event(r.user, TaskCharge, |db.records|, amount)]))
            && (forall i | 0 <= i < |db.records| :: db.records[i].job != r.job)
  {
    hide HasEvent;
  }

  lemma FinishRows(db: Db, j: JobId, outcome: Outcome, released: Db)
    requires JobExists(db, j) && Release(db, j) == Some(released) && Finish(db, j, outcome).Some?
    ensures JobExists(released, j) && released.jobs[j].job.createdAt <= db.clock
    ensures var r := RecordFor(j, released.jobs[j].job, outcome, db.clock);
            var written := WriteCall(released, r, if outcome.Succeeded? then outcome.credits else 0);
            && written.Some?
            && Finish(db, j, outcome).value == written.value.(
                 jobs := written.value.jobs[j := Row(Finished(released.jobs[j].job, outcome, |db.records|, db.clock))])
  {
    hide WriteCall;
  }

  /** The row and the record a closing transaction writes, for the job as it was before. */
  lemma FinishedRow(db: Db, j: JobId, outcome: Outcome)
    requires JobExists(db, j) && Finish(db, j, outcome).Some?
    ensures var released := Release(db, j);
            && released.Some? && JobExists(released.value, j)
            && released.value == db.(accounts := released.value.accounts, jobs := released.value.jobs)
            && |released.value.accounts| == |db.accounts|
            && var job := released.value.jobs[j].job;
            && released.value.jobs == db.jobs[j := Row(job)]
            && job == db.jobs[j].job.(lock := if db.jobs[j].job.lock == Held then Released else db.jobs[j].job.lock)
            && Tells(RecordFor(j, job, outcome, db.clock), outcome, db.jobs[j].job, db.clock)
  {
    hide WriteCall;
  }

  lemma FinishHasShape(db: Db, j: JobId, outcome: Outcome)
    requires MoneyOk(db) && JobExists(db, j) && Finish(db, j, outcome).Some?
    ensures FinishShape(db, j, outcome, Finish(db, j, outcome).value)
  {
    ReleaseMoney(db, j);
    FinishedRow(db, j, outcome);
    var released := Release(db, j).value;
    FinishRows(db, j, outcome, released);
    var job := released.jobs[j].job;
    var r := RecordFor(j, job, outcome, db.clock);
    assert AccountOk(released.accounts[r.user], r.user, released.jobs, released.events);
    assert r.user == job.user && r.job == j && r.success == outcome.Succeeded?;
    hide MoneyOk, Release, Finish, WriteCall, Tells;
    WriteCallRows(released, r, if outcome.Succeeded? then outcome.credits else 0);
    var out := Finish(db, j, outcome).value;
    var done := Finished(job, outcome, |db.records|, db.clock);
    assert out.records == db.records + [r];
    assert out.jobs == db.jobs[j := Row(done)];
    assert Describes(r, j, done);
    hide AccountOk, RecordFor, Describes;
  }

  lemma FinishLifecycle(db: Db, j: JobId, outcome: Outcome, out: Db)
    requires LifecycleOk(db) && JobExists(db, j) && FinishShape(db, j, outcome, out)
    ensures LifecycleOk(out)
  {
    var r := out.records[|db.records|];
    assert JobOk(db.jobs, j, db.records, db.clock);
    RecordCountIsPresence(db.records, j);
    forall k | 0 <= k < |out.jobs| ensures JobOk(out.jobs, k, out.records, out.clock) {
      assert JobOk(db.jobs, k, db.records, db.clock);
      SumAppend(db.records, r, ForJob(k));
    }
  }

  lemma JobUpdateLifecycle(db: Db, a: Action)
    requires LifecycleOk(db)
    requires a.Submit? || a.Publish? || a.SetStatus? || a.SetPhase? || a.ResetToPending? || a.Purge?
    ensures LifecycleOk(ApplyJobUpdate(db, a))
  {
    if JobExists(db, a.job) {
      var out := ApplyJobUpdate(db, a);
      forall k | 0 <= k < |out.jobs| ensures JobOk(out.jobs, k, out.records, out.clock) {
        assert JobOk(db.jobs, k, db.records, db.clock);
      }
    }
  }

  lemma FailWithoutRecordLifecycle(db: Db, j: JobId)
    requires MoneyOk(db) && LifecycleOk(db)
    ensures LifecycleOk(ApplyFailWithoutRecord(db, j))
  {
    if JobExists(db, j) && !Terminal(db.jobs[j].job) {
      ReleaseMoney(db, j);
      var out := ApplyFailWithoutRecord(db, j);
      forall k | 0 <= k < |out.jobs| ensures JobOk(out.jobs, k, out.records, out.clock) {
        assert JobOk(db.jobs, k, db.records, db.clock);
      }
    }
  }

  lemma CreateLifecycle(db: Db, u: UserId, source: Source, work: Work, admitting: bool, amount: int)
    requires LifecycleOk(db)
    ensures LifecycleOk(ApplyCreate(db, u, source, work, admitting, amount))
  {
    var out := ApplyCreate(db, u, source, work, admitting, amount);
    SumZero(db.records, ForJob(|db.jobs|));
    forall k | 0 <= k < |out.jobs| ensures JobOk(out.jobs, k, out.records, out.clock) {
      if k < |db.jobs| {
        assert JobOk(db.jobs, k, db.records, db.clock);
      }
    }
  }

  // ---------------------------------------------------------------------------------------------
  // Ledger: events against their source rows

  ghost predicate EventOk(e: Event, db: Db) {
    match e.kind
    case DepositEvent => e.ref < |db.deposits| && db.deposits[e.ref].user == e.user
    case TaskCharge => e.ref < |db.records| && db.records[e.ref].success && db.records[e.ref].user == e.user
    case SignupBonus => e.ref == e.user && e.user < |db.accounts|
    case InviteeBonus => e.ref == e.user && e.user < |db.accounts|
    case ReferralReward => e.ref < |db.rewards| && db.rewards[e.ref].referrer == e.user
  }

  ghost predicate UniqueEvents(events: seq<Event>) {
    forall i, k | 0 <= i < k < |events| :: events[i].kind != events[k].kind || events[i].ref != events[k].ref
  }

  ghost predicate LedgerOk(db: Db) {
    && UniqueEvents(db.events)
    && (forall i | 0 <= i < |db.events| :: EventOk(db.events[i], db))
    && (forall d | 0 <= d < |db.deposits| :: Sum(db.events, EntryAmount(DepositEvent, d)) == db.deposits[d].credits)
    && (forall w | 0 <= w < |db.rewards| :: Sum(db.events, EntryAmount(ReferralReward, w)) == db.rewards[w].amount)
  }

  /** Deposits, bindings and rewards among themselves. */
  ghost predicate ReferralOk(db: Db) {
    && (forall d | 0 <= d < |db.deposits| :: db.deposits[d].user < |db.accounts| && db.deposits[d].credits > 0)
    && (forall d, k | 0 <= d < k < |db.deposits| :: db.deposits[d].key != db.deposits[k].key)
    && (forall u | u in db.bindings :: db.bindings[u] < u < |db.accounts|)
    && (forall w | 0 <= w < |db.rewards| :: db.rewards[w].deposit < |db.deposits|)
    && (forall w, k | 0 <= w < k < |db.rewards| :: db.rewards[w].deposit != db.rewards[k].deposit)
    && (forall v :: Sum(db.rewards, RewardTo(v)) <= Sum(db.deposits, DepositedUnder(db.bindings, v)))
  }

  lemma NewKeyHasNoEntries(events: seq<Event>, kind: EventType, ref: nat)
    requires forall i | 0 <= i < |events| :: events[i].kind != kind || events[i].ref != ref
    ensures Sum(events, Entry(kind, ref)) == 0 && Sum(events, EntryAmount(kind, ref)) == 0
  {
    SumZero(events, Entry(kind, ref));
    SumZero(events, EntryAmount(kind, ref));
  }

  /** Finishing a job posts at most the charge of the record it wrote. */
  lemma FinishLedger(db: Db, j: JobId, outcome: Outcome, out: Db)
    requires LedgerOk(db) && JobExists(db, j) && FinishShape(db, j, outcome, out)
    ensures LedgerOk(out)
  {
    forall i | 0 <= i < |db.events|
      ensures EventOk(db.events[i], out) && (db.events[i].kind != TaskCharge || db.events[i].ref != |db.records|)
    {
      assert EventOk(db.events[i], db);
    }
    if out.events != db.events {
      AppendEvent(db.events, out.events[|db.events|]);
    }
  }

  /** A new user's bonus events are new keys. */
  lemma PostBonusLedger(db: Db, out: Db, e: Event)
    requires LedgerOk(db) && (e.kind == SignupBonus || e.kind == InviteeBonus) && e.ref == e.user < |out.accounts|
    requires out == db.(users := out.users, accounts := out.accounts, bindings := out.bindings, events := db.events + [e])
    requires |db.accounts| <= |out.accounts|
    requires forall i | 0 <= i < |db.events| :: db.events[i].kind != e.kind || db.events[i].ref != e.ref
    ensures LedgerOk(out)
  {
    AppendEvent(db.events, e);
    forall i | 0 <= i < |db.events| ensures EventOk(db.events[i], out) {
      assert EventOk(db.events[i], db);
    }
  }

  /** No bonus is on the ledger of a user who does not exist yet, and new accounts and bindings do not matter to it. */
  lemma BeforeSignUp(db: Db, bound: Db)
    requires LedgerOk(db) && bound == db.(users := bound.users, accounts := bound.accounts, bindings := bound.bindings)
    requires |db.accounts| <= |bound.accounts|
    ensures LedgerOk(bound)
    ensures forall i | 0 <= i < |db.events| && (db.events[i].kind == SignupBonus || db.events[i].kind == InviteeBonus) ::
              db.events[i].ref != |db.accounts|
  {
    forall i | 0 <= i < |db.events|
      ensures EventOk(db.events[i], bound)
      ensures db.events[i].kind == SignupBonus || db.events[i].kind == InviteeBonus ==> db.events[i].ref != |db.accounts|
    {
      assert EventOk(db.events[i], db);
    }
  }

  lemma SignUpLedger(cfg: Config, db: Db, address: string, inviter: Option<UserId>)
    requires LedgerOk(db)
    ensures LedgerOk(ApplySignUp(cfg, db, address, inviter))
  {
    hide LedgerOk;
    var out := ApplySignUp(cfg, db, address, inviter);
    if address !in db.users {
      var id := |db.accounts|;
      var bound := db.(users := out.users, accounts := out.accounts, bindings := out.bindings);
      BeforeSignUp(db, bound);
      var signup := Event(id, SignupBonus, id, cfg.signupBonus);
      var added := if cfg.signupBonus > 0 then bound.(events := db.events + [signup]) else bound;
      if cfg.signupBonus > 0 {
        PostBonusLedger(bound, added, signup);
      }
      if out.events != added.events {
        PostBonusLedger(added, out, Event(id, InviteeBonus, id, cfg.inviteeBonus));
      }
    }
  }

  lemma SignUpReferral(cfg: Config, db: Db, address: string, inviter: Option<UserId>)
    requires ReferralOk(db)
    ensures ReferralOk(ApplySignUp(cfg, db, address, inviter))
  {
    var out := ApplySignUp(cfg, db, address, inviter);
    forall v ensures Sum(db.deposits, DepositedUnder(out.bindings, v)) == Sum(db.deposits, DepositedUnder(db.bindings, v)) {
      SumCongruent(db.deposits, DepositedUnder(out.bindings, v), DepositedUnder(db.bindings, v));
    }
  }

  lemma CreditedLedger(db: Db, u: UserId, key: LogKey, credits: int)
    requires LedgerOk(db) && u < |db.accounts|
    ensures LedgerOk(Credit(db, u, key, credits))
  {
    var out := Credit(db, u, key, credits);
    var id := |db.deposits|;
    forall i | 0 <= i < |db.events| ensures EventOk(db.events[i], out) && (db.events[i].kind != DepositEvent || db.events[i].ref != id) {
      assert EventOk(db.events[i], db);
    }
    NewKeyHasNoEntries(db.events, DepositEvent, id);
    AppendEvent(db.events, Event(u, DepositEvent, id, credits));
  }

  lemma PayReferralLedger(cfg: Config, db: Db, id: nat)
    requires LedgerOk(db) && id < |db.deposits| && PayReferral(cfg, db, id).Some?
    ensures LedgerOk(PayReferral(cfg, db, id).value)
  {
    var out := PayReferral(cfg, db, id).value;
    if |out.rewards| != |db.rewards| {
      var w := |db.rewards|;
      forall i | 0 <= i < |db.events| ensures EventOk(db.events[i], out) && (db.events[i].kind != ReferralReward || db.events[i].ref != w) {
        assert EventOk(db.events[i], db);
      }
      NewKeyHasNoEntries(db.events, ReferralReward, w);
      AppendEvent(db.events, out.events[|db.events|]);
    }
  }

  lemma DepositLedger(cfg: Config, db: Db, u: UserId, key: LogKey, credits: int)
    requires LedgerOk(db)
    ensures LedgerOk(ApplyDeposit(cfg, db, u, key, credits))
  {
    var out := ApplyDeposit(cfg, db, u, key, credits);
    if out != db {
      CreditedLedger(db, u, key, credits);
      PayReferralLedger(cfg, Credit(db, u, key, credits), |db.deposits|);
    }
  }

  /** A reward paid for a deposit is between nothing and the deposit. */
  lemma PaidReward(cfg: Config, db: Db, id: nat)
    requires id < |db.deposits| && PayReferral(cfg, db, id).Some? && Referral.Accepted(cfg.referral) && db.deposits[id].credits > 0
    ensures var d := db.deposits[id];
            var out := PayReferral(cfg, db, id).value;
            && out.bindings == db.bindings && out.deposits == db.deposits && |out.accounts| == |db.accounts|
            && (out.rewards == db.rewards
                || (d.user in db.bindings
                    && (forall w | 0 <= w < |db.rewards| :: db.rewards[w].deposit != id)
                    && exists amount, extra ::
                         0 < amount <= d.credits && out.rewards == db.rewards + [Reward(id, db.bindings[d.user], amount, extra)]))
  {
    hide HasEvent;
    var d := db.deposits[id];
    if d.user in db.bindings && PayReferral(cfg, db, id).value.rewards != db.rewards {
      var prior := Sum(db.deposits[..id], PurchaseOf(db.bindings, db.bindings[d.user]));
      Referral.RewardBounds(cfg.referral, d.credits, prior, prior);
      hide Referral.DepositReward, Referral.Readable;
    }
  }

  /** A deposit and a reward for it that is not larger keep the rewards of every referrer covered. */
  lemma RewardedReferral(db: Db, out: Db, d: Deposit, amount: int, extra: int)
    requires ReferralOk(db) && d.user < |db.accounts| && d.credits > 0
    requires forall i | 0 <= i < |db.deposits| :: db.deposits[i].key != d.key
    requires |out.accounts| == |db.accounts| && out.bindings == db.bindings && out.deposits == db.deposits + [d]
    requires out.rewards == db.rewards
             || (d.user in db.bindings && 0 < amount <= d.credits
                 && out.rewards == db.rewards + [Reward(|db.deposits|, db.bindings[d.user], amount, extra)])
    ensures ReferralOk(out)
  {
    forall v ensures Sum(out.rewards, RewardTo(v)) <= Sum(out.deposits, DepositedUnder(out.bindings, v)) {
      SumAppend(db.deposits, d, DepositedUnder(db.bindings, v));
      if out.rewards != db.rewards {
        SumAppend(db.rewards, Reward(|db.deposits|, db.bindings[d.user], amount, extra), RewardTo(v));
      }
    }
  }

  lemma DepositReferral(cfg: Config, db: Db, u: UserId, key: LogKey, credits: int)
    requires ReferralOk(db) && Referral.Accepted(cfg.referral)
    ensures ReferralOk(ApplyDeposit(cfg, db, u, key, credits))
  {
    hide ReferralOk, PayReferral, HasEvent, Referral.Accepted;
    var out := ApplyDeposit(cfg, db, u, key, credits);
    if out != db {
      PaidReward(cfg, Credit(db, u, key, credits), |db.deposits|);
      var d := Deposit(u, key, credits);
      if out.rewards == db.rewards {
        RewardedReferral(db, out, d, 0, 0);
      } else {
        var amount, extra :| 0 < amount <= credits
                             && out.rewards == db.rewards + [Reward(|db.deposits|, db.bindings[u], amount, extra)];
        RewardedReferral(db, out, d, amount, extra);
      }
    }
  }
}
