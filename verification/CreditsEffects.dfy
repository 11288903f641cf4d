/** What each Credits transaction does to the tables, in terms of the tables before it and its own parameters. */
module CreditsEffects {
  import opened Options
  import opened Sums
  import opened CreditsLedger
  import opened CreditsInvariant
  import opened CreditsSteps
  import opened CreditsRuns
  import opened CreditsTheorems
  import Earnings
  import Referral
  import UsageStats

  // ---------------------------------------------------------------------------------------------
  // Closing a job

  /** When a closing step goes through. */
  predicate MayClose(job: Job, a: Action)
    requires Closes(a)
  {
    match a
    case Complete(_, credits, _) =>
      job.record.None? && job.source == UsageStats.Crynux && job.work.taskType == UsageStats.LlmTask && credits >= 1
    case CompleteImage(_, credits) =>
      job.record.None? && job.source == UsageStats.Crynux && job.work.taskType == UsageStats.ImageTask && credits >= 1
    case SettleProvider(_, _, credits, _, _, _) =>
      job.status != Completed && job.status != Failed && job.source == UsageStats.Provider && credits >= 1
    case FailAndRecord(_) => job.record.None?
    case FailProvider(_, _) => job.status != Completed && job.status != Failed
  }

  lemma MayCloseIsOpen(cfg: Config, db: Db, a: Action)
    requires Inv(cfg, db) && Closes(a) && JobExists(db, a.job)
    ensures MayClose(db.jobs[a.job].job, a)
            <==> db.jobs[a.job].job.record.None?
                 && (if a.SettleProvider? then CanSettle(db, a.job, a.credits) && !Terminal(db.jobs[a.job].job)
                     else !Skips(db.jobs[a.job].job, a))
  {
    hide MoneyOk, StatsOk, EarningsOk, ReferralOk, LedgerOk, PaidOk, Describes;
    assert JobOk(db.jobs, a.job, db.records, db.clock);
  }

  lemma NoIncomeYet(cfg: Config, db: Db)
    requires EarningsOk(cfg, db)
    ensures !Earnings.HasEvent(db.earnings, Earnings.TaskIncome, |db.records|)
  {
    hide Earnings.Inv;
  }

  lemma SettlementCommits(cfg: Config, db: Db, a: Action)
    requires Inv(cfg, db) && a.SettleProvider? && CanSettle(db, a.job, a.credits)
    requires !Terminal(db.jobs[a.job].job) && db.jobs[a.job].job.record.None?
    ensures |Apply(cfg, db, a).records| == |db.records| + 1
  {
    hide MoneyOk, LifecycleOk, StatsOk, ReferralOk, LedgerOk, PaidOk, Finish, Apply;
    var outcome := Succeeded(a.credits, a.usage, a.lag);
    FinishCommits(cfg, db, a.job, outcome);
    FinishHasShape(db, a.job, outcome);
    NoIncomeYet(cfg, db);
    SettlingIsSettle(cfg, db, a);
  }

  lemma FinishingCommits(cfg: Config, db: Db, a: Action)
    requires Inv(cfg, db) && ClosesJob(a) && JobExists(db, a.job)
    requires !Skips(db.jobs[a.job].job, a) && db.jobs[a.job].job.record.None?
    ensures |Apply(cfg, db, a).records| == |db.records| + 1
  {
    hide MoneyOk, LifecycleOk, StatsOk, EarningsOk, ReferralOk, LedgerOk, PaidOk, Finish, Apply;
    var outcome := OutcomeOf(db.jobs[a.job].job, a);
    FinishCommits(cfg, db, a.job, outcome);
    FinishHasShape(db, a.job, outcome);
    ClosingIsFinish(cfg, db, a);
  }

  lemma StaysAway(cfg: Config, db: Db, a: Action)
    requires Inv(cfg, db) && Closes(a) && Apply(cfg, db, a) != db
    ensures JobExists(db, a.job) && db.jobs[a.job].job.record.None?
    ensures if a.SettleProvider? then CanSettle(db, a.job, a.credits) && !Terminal(db.jobs[a.job].job)
            else !Skips(db.jobs[a.job].job, a)
  {
    hide MoneyOk, StatsOk, EarningsOk, ReferralOk, LedgerOk, PaidOk, Apply, Finish, Describes, JobOk;
    ClosingStep(cfg, db, a);
    ClosedWasOpen(db, a.job);
    if a.SettleProvider? {
      SettlingIsSettle(cfg, db, a);
    } else {
      ClosingIsFinish(cfg, db, a);
    }
  }

  /** A closing step goes through exactly when it may, and then writes exactly one call record. */
  lemma ClosesIff(cfg: Config, db: Db, a: Action)
    requires Inv(cfg, db) && Closes(a)
    ensures Apply(cfg, db, a) != db <==> JobExists(db, a.job) && MayClose(db.jobs[a.job].job, a)
    ensures Apply(cfg, db, a) != db ==> |Apply(cfg, db, a).records| == |db.records| + 1
  {
    hide Inv, Apply, MayClose, Skips, Terminal, CanSettle;
    if Apply(cfg, db, a) != db {
      StaysAway(cfg, db, a);
    }
    if JobExists(db, a.job) {
      MayCloseIsOpen(cfg, db, a);
      if MayClose(db.jobs[a.job].job, a) {
        if a.SettleProvider? {
          SettlementCommits(cfg, db, a);
        } else {
          FinishingCommits(cfg, db, a);
        }
      }
    }
  }

  /** What a closing step charges: the Credits of a success, but no more than its user has outside other jobs' holds. */
  function ChargeFor(a: Action, account: Account, job: Job): int
    requires Closes(a)
  {
    if a.FailAndRecord? || a.FailProvider? then 0
    else
      var free := account.balance - account.locked + (if job.lock == Held then job.creditsLocked else 0);
      if free < a.credits then free else a.credits
  }

  /** The hold is given back, the charge is taken off the balance and, when it is positive, posted. */
  ghost predicate Debited(db: Db, j: JobId, charge: int, out: Db)
    requires JobExists(db, j)
  {
    var job := db.jobs[j].job;
    && job.user < |db.accounts| && 0 <= charge
    && var a := db.accounts[job.user];
    && out.accounts
       == db.accounts[job.user := Account(a.balance - charge, a.locked - if job.lock == Held then job.creditsLocked else 0)]
    && out.events == db.events + if charge > 0 then [Event(job.user, TaskCharge, |db.records|, charge)] else []
  }

  lemma FailureMoney(cfg: Config, db: Db, j: JobId, outcome: Outcome)
    requires Inv(cfg, db) && JobExists(db, j) && outcome.Unsuccessful? && Finish(db, j, outcome).Some?
    ensures Debited(db, j, 0, Finish(db, j, outcome).value)
  {
    hide StatsOk, EarningsOk, ReferralOk, LifecycleOk, PaidOk, LedgerOk, Finish;
    assert db.events + [] == db.events;
    ReleaseMoney(db, j);
    var released := Release(db, j).value;
    FinishRows(db, j, outcome, released);
    assert db.accounts[db.jobs[j].job.user := db.accounts[db.jobs[j].job.user]] == db.accounts;
  }

  lemma SuccessMoney(cfg: Config, db: Db, j: JobId, credits: nat, usage: Usage, lag: nat, charge: int)
    requires Inv(cfg, db) && JobExists(db, j) && db.jobs[j].job.record.None?
    requires Finish(db, j, Succeeded(credits, usage, lag)).Some?
    requires var job := db.jobs[j].job;
             var a := db.accounts[job.user];
             var free := a.balance - a.locked + HoldOf(job);
             charge == if free < credits then free else credits
    ensures Debited(db, j, charge, Finish(db, j, Succeeded(credits, usage, lag)).value)
  {
    hide StatsOk, EarningsOk, ReferralOk, LifecycleOk, PaidOk, Finish, Describes;
    var outcome := Succeeded(credits, usage, lag);
    SettlementCharge(cfg, db, j, credits, usage, lag);
    FinishHasShape(db, j, outcome);
    NewRecordIsUncharged(db);
    hide LedgerOk, MoneyOk, ChargeOf;
    var out := Finish(db, j, outcome).value;
    assert db.events + [] == db.events;
    if out.events != db.events {
      var amount :| amount > 0 && out.events == db.events + [Event(db.jobs[j].job.user, TaskCharge, |db.records|, amount)];
      OneMoreCharge(db.events, Event(db.jobs[j].job.user, TaskCharge, |db.records|, amount));
    }
  }

  /** The account and the ledger after a closing step. */
  lemma ClosingMoney(cfg: Config, db: Db, a: Action)
    requires Inv(cfg, db) && Closes(a) && Apply(cfg, db, a) != db
    ensures JobExists(db, a.job) && db.jobs[a.job].job.user < |db.accounts|
    ensures Debited(db, a.job, ChargeFor(a, db.accounts[db.jobs[a.job].job.user], db.jobs[a.job].job), Apply(cfg, db, a))
  {
    assert MoneyOk(db);
    hide Apply, Finish, Inv, FinishShape, Reports, ClosedAs, MoneyOk, Skips, Debited, ClosingOutcome, Core;
    StaysAway(cfg, db, a);
    ClosingStep(cfg, db, a);
    UserExists(db, a.job);
    FinishingMoney(cfg, db, a);
    var job := db.jobs[a.job].job;
    SameMoney(db, a.job, ChargeFor(a, db.accounts[job.user], job), Finish(db, a.job, ClosingOutcome(db, a)).value, Apply(cfg, db, a));
  }

  lemma FinishingMoney(cfg: Config, db: Db, a: Action)
    requires Inv(cfg, db) && Closes(a) && JobExists(db, a.job) && db.jobs[a.job].job.record.None?
    requires if a.SettleProvider? then CanSettle(db, a.job, a.credits) else !Skips(db.jobs[a.job].job, a)
    requires Finish(db, a.job, ClosingOutcome(db, a)).Some? && db.jobs[a.job].job.user < |db.accounts|
    ensures Debited(db, a.job, ChargeFor(a, db.accounts[db.jobs[a.job].job.user], db.jobs[a.job].job),
                    Finish(db, a.job, ClosingOutcome(db, a)).value)
  {
    hide Finish, Inv, Debited;
    OutcomeIsPositive(db, a);
    var job := db.jobs[a.job].job;
    var outcome := ClosingOutcome(db, a);
    if outcome.Unsuccessful? {
      FailureMoney(cfg, db, a.job, outcome);
    } else {
      SuccessMoney(cfg, db, a.job, outcome.credits, outcome.usage, outcome.lag, ChargeFor(a, db.accounts[job.user], job));
    }
  }

  lemma SameMoney(db: Db, j: JobId, charge: int, done: Db, out: Db)
    requires JobExists(db, j) && Debited(db, j, charge, done) && out.accounts == done.accounts && out.events == done.events
    ensures Debited(db, j, charge, out)
  {
  }

  lemma UserExists(db: Db, j: JobId)
    requires MoneyOk(db) && JobExists(db, j)
    ensures db.jobs[j].job.user < |db.accounts|
  {
  }

  lemma OutcomeIsPositive(db: Db, a: Action)
    requires Closes(a) && JobExists(db, a.job)
    requires if a.SettleProvider? then CanSettle(db, a.job, a.credits) else !Skips(db.jobs[a.job].job, a)
    ensures ClosingOutcome(db, a).Succeeded? ==> ClosingOutcome(db, a).credits == a.credits >= 1
    ensures ClosingOutcome(db, a).Succeeded? <==> !a.FailAndRecord? && !a.FailProvider?
  {
  }

  // ---------------------------------------------------------------------------------------------
  // Every call record of a run

  /** The step that wrote a record, and the tables it found. */
  ghost predicate WrittenBy(cfg: Config, steps: seq<Step>, i: nat, r: RecordId, db: Db)
    requires i < |steps| && r < |db.records|
  {
    var a := steps[i].action;
    var before := Run(cfg, EMPTY, steps[..i]);
    var now := before.clock + steps[i].elapsed;
    && Closes(a) && JobExists(before, a.job) && |before.records| == r
    && MayClose(before.jobs[a.job].job, a)
    && Reports(db.records[r], a, before.jobs[a.job].job, now)
  }

  lemma StepRecords(cfg: Config, db: Db, s: Step)
    requires ValidConfig(cfg) && Inv(cfg, db)
    ensures var out := Take(cfg, db, s);
            && db.records <= out.records
            && (out.records != db.records ==>
                  && Closes(s.action) && JobExists(db, s.action.job) && MayClose(db.jobs[s.action.job].job, s.action)
                  && |out.records| == |db.records| + 1
                  && Reports(out.records[|db.records|], s.action, db.jobs[s.action.job].job, db.clock + s.elapsed))
  {
    hide MoneyOk, LifecycleOk, StatsOk, EarningsOk, ReferralOk, LedgerOk, PaidOk, Apply, Reports, MayClose, FinishShape;
    var later := db.(clock := db.clock + s.elapsed);
    ClockKeeps(cfg, db, s.elapsed);
    ApplyGrows(cfg, later, s.action);
    if Closes(s.action) {
      ClosesIff(cfg, later, s.action);
      if Apply(cfg, later, s.action) != later {
        ClosingStep(cfg, later, s.action);
      }
    } else {
      OtherStepIsQuiet(cfg, later, s.action);
    }
  }

  /** Every call record of a run was written by one of its closing steps and says what that step says. */
  lemma {:induction false} RunRecordsReport(cfg: Config, steps: seq<Step>, r: RecordId) returns (i: nat)
    requires ValidConfig(cfg) && r < |Run(cfg, EMPTY, steps).records|
    ensures i < |steps| && WrittenBy(cfg, steps, i, r, Run(cfg, EMPTY, steps))
  {
    hide Inv, Take, ValidConfig, Reports, MayClose;
    var n := |steps| - 1;
    var before := Run(cfg, EMPTY, steps[..n]);
    RunKeeps(cfg, steps[..n]);
    StepRecords(cfg, before, steps[n]);
    if r < |before.records| {
      i := RunRecordsReport(cfg, steps[..n], r);
      assert steps[..n][..i] == steps[..i];
    } else {
      i := n;
    }
  }

  // ---------------------------------------------------------------------------------------------
  // Jobs

  /** A job is created exactly when its Credits are positive and free; they are added to the locked total. */
  lemma CreateEffect(cfg: Config, db: Db, u: UserId, source: Source, work: Work, admitting: bool, amount: int)
    requires MoneyOk(db)
    ensures var out := Apply(cfg, db, CreateJob(u, source, work, admitting, amount));
            if amount > 0 && u < |db.accounts| && db.accounts[u].locked + amount <= db.accounts[u].balance
            then out == db.(
                   accounts := db.accounts[u := Account(db.accounts[u].balance, db.accounts[u].locked + amount)],
                   jobs := db.jobs + [Row(Job(u, source, work, PendingSubmit, admitting, BillingPending, None, amount,
                                              Held, db.clock, None))])
            else out == db
  {
    if u < |db.accounts| {
      assert AccountOk(db.accounts[u], u, db.jobs, db.events);
    }
  }

  /** A failure without a record: the hold goes back, the job fails, and nothing else happens. */
  lemma FailEffect(cfg: Config, db: Db, j: JobId)
    requires MoneyOk(db)
    ensures var out := Apply(cfg, db, FailWithoutRecord(j));
            if JobExists(db, j) && db.jobs[j].job.status != Completed && db.jobs[j].job.status != Failed
            then
              var job := db.jobs[j].job;
              && job.user < |db.accounts|
              && var a := db.accounts[job.user];
              && out == db.(
                   accounts := db.accounts[job.user := a.(locked := a.locked - if job.lock == Held then job.creditsLocked else 0)],
                   jobs := db.jobs[j := Row(job.(
                                              status := Failed, admitting := false, billing := NotBilled,
                                              completedAt := Some(db.clock),
                                              lock := if job.lock == Held then Released else job.lock))])
            else out == db
  {
    hide MoneyOk, Release;
    if JobExists(db, j) {
      ReleaseMoney(db, j);
      UserExists(db, j);
      assert db.accounts[db.jobs[j].job.user := db.accounts[db.jobs[j].job.user]] == db.accounts;
    }
  }

  /** The columns a guarded update writes, or None when its guard does not hold. */
  ghost predicate UpdatesTo(job: Job, a: Action, after: Option<Job>)
    requires UpdatesJob(a) && !a.Purge?
  {
    match a
    case Submit(_) =>
      after == if job.status == PendingSubmit then Some(job.(status := Submitted, admitting := false)) else None
    case Publish(_) => after == Some(job.(admitting := false))
    case SetStatus(_, status) =>
      after == if job.status !in {Completed, Failed} && status !in {Completed, Failed} then Some(job.(status := status)) else None
    case SetPhase(_, status) =>
      after == if job.status in {Submitted, InProgress} && status !in {Completed, Failed}
               then Some(job.(status := status, admitting := false)) else None
    case ResetToPending(_) =>
      after == if job.status in {Submitted, InProgress} && job.record.None?
               then Some(job.(status := PendingSubmit, admitting := false)) else None
  }

  /** A guarded update writes its columns of its own job when its guard holds, and nothing else ever. */
  lemma UpdateEffect(cfg: Config, db: Db, a: Action)
    requires UpdatesJob(a) && !a.Purge?
    ensures var out := Apply(cfg, db, a);
            if !JobExists(db, a.job) then out == db
            else exists after :: UpdatesTo(db.jobs[a.job].job, a, after)
                                 && out == if after.Some? then db.(jobs := db.jobs[a.job := Row(after.value)]) else db
  {
    ApplyIsUpdate(cfg, db, a);
    hide Apply;
    if JobExists(db, a.job) {
      var job := db.jobs[a.job].job;
      var out := ApplyJobUpdate(db, a);
      if UpdatesTo(job, a, None) {
      } else {
        assert UpdatesTo(job, a, Some(out.jobs[a.job].job));
      }
    }
  }

  /** Retention deletes a job exactly when it has a call record and completed before the cutoff. */
  lemma PurgeEffect(cfg: Config, db: Db, j: JobId, cutoff: nat)
    requires Inv(cfg, db)
    ensures var out := Apply(cfg, db, Purge(j, cutoff));
            if JobExists(db, j) && db.jobs[j].job.record.Some? && db.jobs[j].job.completedAt.Some?
               && db.jobs[j].job.completedAt.value < cutoff
            then out == db.(jobs := db.jobs[j := Deleted])
            else out == db
  {
    hide MoneyOk, StatsOk, EarningsOk, ReferralOk, LedgerOk, PaidOk, Describes, Apply;
    ApplyIsUpdate(cfg, db, Purge(j, cutoff));
    if JobExists(db, j) {
      assert JobOk(db.jobs, j, db.records, db.clock);
    }
  }

  // ---------------------------------------------------------------------------------------------
  // Sign-up and deposits

  /** A new address gets an account with the sign-up bonus; with an existing inviter it is bound and gets the invitee bonus. */
  lemma SignUpEffect(cfg: Config, db: Db, address: string, inviter: Option<UserId>)
    requires ReferralOk(db)
    ensures var out := Apply(cfg, db, SignUp(address, inviter));
            var id := |db.accounts|;
            var invited := inviter.Some? && inviter.value < id;
            var extra := if invited then cfg.inviteeBonus else 0;
            if address in db.users then out == db
            else out == db.(
                   users := db.users + [address],
                   accounts := db.accounts + [Account(cfg.signupBonus + extra, 0)],
                   bindings := if invited then db.bindings[id := inviter.value] else db.bindings,
                   events := db.events
                             + (if cfg.signupBonus > 0 then [Event(id, SignupBonus, id, cfg.signupBonus)] else [])
                             + (if extra > 0 then [Event(id, InviteeBonus, id, extra)] else []))
  {
    assert db.events + [] == db.events;
    var first := db.events + (if cfg.signupBonus > 0 then [Event(|db.accounts|, SignupBonus, |db.accounts|, cfg.signupBonus)] else []);
    assert first + [] == first;
    assert |db.accounts| !in db.bindings;
  }

  /** The earlier deposits by users bound to the referrer. */
  ghost function PriorPurchases(db: Db, referrer: UserId): set<int> {
    set d | 0 <= d < |db.deposits| && db.deposits[d].user in db.bindings && db.bindings[db.deposits[d].user] == referrer
  }

  lemma PurchasesAreCounted(db: Db, referrer: UserId)
    ensures Sum(db.deposits, PurchaseOf(db.bindings, referrer)) == |PriorPurchases(db, referrer)|
  {
    SumIsCount(db.deposits, PriorPurchases(db, referrer), PurchaseOf(db.bindings, referrer));
  }

  /** What a deposit transaction leaves, given the reward to the referrer; zero is no reward. */
  ghost predicate DepositedAs(db: Db, u: UserId, key: LogKey, credits: int, reward: nat, extra: int, out: Db)
    requires u < |db.accounts| && (reward > 0 ==> u in db.bindings && db.bindings[u] < |db.accounts|)
  {
    var id := |db.deposits|;
    var credited := db.accounts[u := db.accounts[u].(balance := db.accounts[u].balance + credits)];
    var posted := db.events + [Event(u, DepositEvent, id, credits)];
    if reward == 0
    then out == db.(deposits := db.deposits + [Deposit(u, key, credits)], accounts := credited, events := posted)
    else
      var referrer := db.bindings[u];
      out == db.(
        deposits := db.deposits + [Deposit(u, key, credits)],
        accounts := credited[referrer := credited[referrer].(balance := credited[referrer].balance + reward)],
        events := posted + [Event(referrer, ReferralReward, |db.rewards|, reward)],
        rewards := db.rewards + [Reward(id, referrer, reward, extra)])
  }

  /** Under the invariant the reward part of a deposit never fails. */
  lemma PayReferralSucceeds(cfg: Config, db: Db, u: UserId, key: LogKey, credits: int)
    requires ValidConfig(cfg) && Inv(cfg, db) && u < |db.accounts| && credits > 0
    ensures PayReferral(cfg, Credit(db, u, key, credits), |db.deposits|).Some?
  {
    hide MoneyOk, LifecycleOk, StatsOk, EarningsOk;
    var credited := Credit(db, u, key, credits);
    if u in db.bindings {
      var referrer := db.bindings[u];
      assert credited.deposits[..|db.deposits|] == db.deposits;
      SumAtLeastRow(db.deposits, PurchaseOf(db.bindings, referrer));
      forall i | 0 <= i < |credited.events|
        ensures credited.events[i].kind != ReferralReward || credited.events[i].ref != |db.rewards|
      {
        if i < |db.events| {
          assert EventOk(db.events[i], db);
        }
      }
    }
  }

  lemma NewDepositIsFirst(db: Db)
    requires LedgerOk(db)
    ensures !HasEvent(db.events, DepositEvent, |db.deposits|)
  {
    forall i | 0 <= i < |db.events| ensures db.events[i].kind != DepositEvent || db.events[i].ref != |db.deposits| {
      assert EventOk(db.events[i], db);
    }
  }

  /** The reward of a referrer: the deposit at the base ratio plus that of every tier reached, rounded down. */
  ghost predicate IsReward(cfg: Referral.Config, credits: int, prior: nat, reward: nat) {
    cfg.depositRewardRatio.Number?
    && var ratio := cfg.depositRewardRatio.value + Referral.ExtraFor(cfg.tiers, prior);
    reward as real <= credits as real * ratio < reward as real + 1.0
  }

  lemma CreditBefore(db: Db, u: UserId, key: LogKey, credits: int)
    requires u < |db.accounts|
    ensures var credited := Credit(db, u, key, credits);
            && credited.deposits[|db.deposits|] == Deposit(u, key, credits) && credited.deposits[..|db.deposits|] == db.deposits
  {
  }

  /** The reward computed for a deposit after `prior` purchases; zero when none is paid. */
  lemma RewardWorth(cfg: Referral.Config, credits: nat, prior: nat)
    requires Referral.Accepted(cfg)
    ensures match Referral.DepositReward(cfg, credits, prior)
            case None => IsReward(cfg, credits, prior, 0)
            case Some(r) => r.amount > 0 && IsReward(cfg, credits, prior, r.amount)
  {
    Referral.RewardIs(cfg, credits, prior);
  }

  /** The purchases before the deposit just credited. */
  lemma PriorToCredit(db: Db, u: UserId, key: LogKey, credits: int)
    requires u < |db.accounts| && u in db.bindings
    ensures var credited := Credit(db, u, key, credits);
            && Sum(credited.deposits[..|db.deposits|], PurchaseOf(credited.bindings, db.bindings[u]))
               == |PriorPurchases(db, db.bindings[u])|
            && credited.deposits[|db.deposits|] == Deposit(u, key, credits)
  {
    CreditBefore(db, u, key, credits);
    PurchasesAreCounted(db, db.bindings[u]);
  }

  lemma RewardStep(cfg: Config, db: Db, u: UserId, key: LogKey, credits: int) returns (reward: nat, extra: int)
    requires ValidConfig(cfg) && Inv(cfg, db) && u < |db.accounts| && credits > 0
    requires PayReferral(cfg, Credit(db, u, key, credits), |db.deposits|).Some?
    ensures reward > 0 ==> u in db.bindings && db.bindings[u] < |db.accounts|
    ensures u !in db.bindings ==> reward == 0
    ensures u in db.bindings ==> IsReward(cfg.referral, credits, |PriorPurchases(db, db.bindings[u])|, reward)
    ensures DepositedAs(db, u, key, credits, reward, extra, PayReferral(cfg, Credit(db, u, key, credits), |db.deposits|).value)
  {
    hide MoneyOk, LifecycleOk, StatsOk, EarningsOk, LedgerOk, PaidOk, ReferralOk, HasEvent, IsReward, Referral.Accepted,
      Referral.DepositReward, Referral.Readable;
    reward, extra := 0, 0;
    if u in db.bindings {
      var prior := |PriorPurchases(db, db.bindings[u])|;
      PriorToCredit(db, u, key, credits);
      RewardWorth(cfg.referral, credits, prior);
      match Referral.DepositReward(cfg.referral, credits, prior) {
        case None =>
        case Some(r) =>
          reward, extra := r.amount, r.extraAmount;
          NoRewardYet(cfg, db);
      }
    }
  }

  /** No reward names a deposit still to come. */
  lemma NoRewardYet(cfg: Config, db: Db)
    requires Inv(cfg, db)
    ensures forall i | 0 <= i < |db.rewards| :: db.rewards[i].deposit != |db.deposits|
  {
    hide MoneyOk, LifecycleOk, StatsOk, EarningsOk, LedgerOk, PaidOk, HasEvent;
  }

  /**
   A deposit is credited exactly when its amount is positive, its user exists and its key is new; the referrer of a
   bound user then gets the reward for the purchases before this one, when it comes to a whole Credit.
   */
  lemma DepositEffect(cfg: Config, db: Db, u: UserId, key: LogKey, credits: int)
    requires ValidConfig(cfg) && Inv(cfg, db)
    ensures var out := Apply(cfg, db, MakeDeposit(u, key, credits));
            if credits > 0 && u < |db.accounts| && forall d | 0 <= d < |db.deposits| :: db.deposits[d].key != key
            then exists reward: nat, extra: int ::
                   && (reward > 0 ==> u in db.bindings && db.bindings[u] < |db.accounts|)
                   && DepositedAs(db, u, key, credits, reward, extra, out)
                   && (u !in db.bindings ==> reward == 0)
                   && (u in db.bindings ==> IsReward(cfg.referral, credits, |PriorPurchases(db, db.bindings[u])|, reward))
            else out == db
  {
    hide MoneyOk, LifecycleOk, StatsOk, EarningsOk, ReferralOk, PaidOk, PayReferral, ValidConfig, HasEvent, LedgerOk, IsReward,
      DepositedAs;
    if credits > 0 && u < |db.accounts| && forall d | 0 <= d < |db.deposits| :: db.deposits[d].key != key {
      NewDepositIsFirst(db);
      PayReferralSucceeds(cfg, db, u, key, credits);
      var reward, extra := RewardStep(cfg, db, u, key, credits);
      assert Apply(cfg, db, MakeDeposit(u, key, credits)) == PayReferral(cfg, Credit(db, u, key, credits), |db.deposits|).value;
      assert DepositedAs(db, u, key, credits, reward, extra, Apply(cfg, db, MakeDeposit(u, key, credits)));
    }
  }

  // ---------------------------------------------------------------------------------------------
  // The other tables

  /** Withdrawal steps read the networks of the configuration and the clock in seconds, and touch the earnings tables only. */
  lemma WithdrawalEffect(cfg: Config, db: Db, a: Action)
    requires MovesWithdrawal(a)
    ensures var r := match a
                     case RequestWithdrawal(request) => Earnings.Create(cfg.networks, db.earnings, request, db.clock / 1000)
                     case FulfillWithdrawal(w) => Earnings.Fulfill(db.earnings, w)
                     case RejectWithdrawal(w) => Earnings.Reject(db.earnings, w);
            Apply(cfg, db, a) == if r.Committed? then db.(earnings := r.state) else db
  {
    hide Earnings.Create, Earnings.Fulfill, Earnings.Reject;
  }

  /** Aggregation counts up to 200 queued records, each with what the ledger charged for it, and touches nothing else. */
  lemma AggregateEffect(cfg: Config, db: Db)
    requires StatsOk(db)
    ensures var out := Apply(cfg, db, AggregateUsage);
            var n := if |db.usage.pending| < 200 then |db.usage.pending| else 200;
            && out == db.(usage := out.usage)
            && out.usage.pending == db.usage.pending[n..]
            && |out.usage.aggregated| == |db.usage.aggregated| + n
            && (forall i | 0 <= i < |db.usage.aggregated| :: out.usage.aggregated[i] == db.usage.aggregated[i])
            && (forall i | 0 <= i < n ::
                  out.usage.aggregated[|db.usage.aggregated| + i]
                  == UsageStats.Entry(db.usage.pending[i], ChargeOf(db.events)(db.usage.pending[i])))
  {
    hide UsageStats.Aggregate, UsageStats.TableExact, UsageStats.QueueExact;
    UsageStats.AggregateMoves(db.usage, db.records, ChargeOf(db.events));
  }
}
