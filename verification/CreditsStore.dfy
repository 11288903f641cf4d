/**
 The Credits tables as the service updates them in place. Each method is a database transaction (or a part of
 one, ending in Tx) and is proved to move the tables exactly as the matching action of CreditsLedger.
 */
module CreditsStore {
  import opened Numbers
  import opened Options
  import opened Sums
  import opened CreditsLedger
  import opened CreditsInvariant
  import opened CreditsRuns
  import CreditsTheorems
  import Referral
  import Earnings
  import opened EarningStore
  import UsageStats

  class CreditsTables {
    const cfg: Config
    const earningTables: EarningTables
    var users: seq<string>
    var accounts: seq<Account>
    var jobs: seq<JobRow>
    var records: seq<UsageStats.CallRecord>
    var events: seq<Event>
    var deposits: seq<Deposit>
    var bindings: map<UserId, UserId>
    var rewards: seq<Reward>
    var usage: UsageStats.State
    /** History only: what each Provider settlement paid. */
    var payouts: map<RecordId, Payout>
    var clock: nat

    function Tables(): Db
      reads this, earningTables
    {
      Db(users, accounts, jobs, records, events, deposits, bindings, rewards, earningTables.Tables(), usage, payouts, clock)
    }

    constructor (cfg: Config, earningTables: EarningTables)
      requires earningTables.Tables() == Earnings.EMPTY
      ensures this.cfg == cfg && this.earningTables == earningTables && Tables() == EMPTY
    {
      this.cfg, this.earningTables := cfg, earningTables;
      users, accounts, jobs, records, events, deposits, bindings, rewards := [], [], [], [], [], [], map[], [];
      usage, payouts, clock := UsageStats.EMPTY, map[], 0;
    }

    /** Rolls the transaction back. */
    method Rollback(saved: Db)
      modifies this, earningTables
      ensures Tables() == saved
    {
      users, accounts, jobs, records, events := saved.users, saved.accounts, saved.jobs, saved.records, saved.events;
      deposits, bindings, rewards := saved.deposits, saved.bindings, saved.rewards;
      usage, payouts, clock := saved.usage, saved.payouts, saved.clock;
      earningTables.Restore(saved.earnings);
    }

    method InsertEvent(e: Event) returns (ok: bool)
      modifies this`events
      ensures ok == !HasEvent(old(events), e.kind, e.ref)
      ensures events == if ok then old(events) + [e] else old(events)
    {
      ok := true;
      for i := 0 to |events|
        invariant ok == forall k | 0 <= k < i :: events[k].kind != e.kind || events[k].ref != e.ref
      {
        if events[i].kind == e.kind && events[i].ref == e.ref {
          ok := false;
        }
      }
      if ok {
        events := events + [e];
      }
    }

    // -------------------------------------------------------------------------------------------
    // Holds

    method ReserveCreditsTx(u: UserId, amount: int) returns (ok: bool)
      modifies this`accounts
      ensures ok == Reserve(old(Tables()), u, amount).Some?
      ensures Tables() == if ok then Reserve(old(Tables()), u, amount).value else old(Tables())
    {
      if amount <= 0 || u >= |accounts| {
        return false;
      }
      var account := accounts[u];
      if !Sufficient(Available(account), amount) {
        return false;
      }
      accounts := accounts[u := account.(locked := account.locked + amount)];
      return true;
    }

    method ReleaseCreditsHoldTx(j: JobId) returns (ok: bool)
      requires JobExists(Tables(), j)
      modifies this`accounts, this`jobs
      ensures ok == Release(old(Tables()), j).Some?
      ensures Tables() == if ok then Release(old(Tables()), j).value else old(Tables())
    {
      var job := jobs[j].job;
      if job.lock != Held {
        return true;
      }
      if job.user >= |accounts| || job.creditsLocked < 0 {
        return false;
      }
      var account := accounts[job.user];
      if account.locked < job.creditsLocked {
        accounts := accounts[job.user := account.(locked := 0)];
      } else {
        accounts := accounts[job.user := account.(locked := account.locked - job.creditsLocked)];
      }
      jobs := jobs[j := Row(job.(lock := Released))];
      return true;
    }

    method SumHeldCreditsLocked(u: UserId) returns (sum: int)
      ensures sum == Sum(jobs, HeldBy(u))
    {
      sum := 0;
      for i := 0 to |jobs|
        invariant sum == Sum(jobs[..i], HeldBy(u))
      {
        assert jobs[..i + 1] == jobs[..i] + [jobs[i]];
        SumAppend(jobs[..i], jobs[i], HeldBy(u));
        if jobs[i].Row? && jobs[i].job.user == u && jobs[i].job.lock == Held {
          sum := sum + jobs[i].job.creditsLocked;
        }
      }
      assert jobs[..|jobs|] == jobs;
    }

    method ReconcileAccount(u: UserId) returns (corrected: bool)
      modifies this`accounts
      ensures Tables() == Apply(cfg, old(Tables()), Reconcile(u))
      ensures corrected <==> u < |accounts| && old(accounts[u].locked) != Sum(jobs, HeldBy(u))
      ensures accounts == if corrected then old(accounts)[u := old(accounts[u]).(locked := Sum(jobs, HeldBy(u)))] else old(accounts)
    {
      if u >= |accounts| {
        return false;
      }
      var expected := SumHeldCreditsLocked(u);
      if accounts[u].locked == expected {
        return false;
      }
      accounts := accounts[u := accounts[u].(locked := expected)];
      return true;
    }

    /**
     Reconciles every account that has held jobs or a non-zero locked total. Whatever the locked totals were,
     each ends equal to its held jobs, balances are untouched, and the result is the number of accounts changed.
     */
    method ReconcileCreditsLocked() returns (corrected: nat)
      modifies this`accounts
      ensures |accounts| == |old(accounts)|
      ensures forall u | 0 <= u < |accounts| ::
                accounts[u] == old(accounts)[u].(locked := Sum(jobs, HeldBy(u)))
      ensures corrected == |set u | 0 <= u < |accounts| && accounts[u] != old(accounts)[u]|
    {
      hide Apply, CreditsTables.Tables;
      corrected := 0;
      ghost var changed: set<int> := {};
      for u := 0 to |accounts|
        invariant |accounts| == |old(accounts)|
        invariant forall v | 0 <= v < u :: accounts[v] == old(accounts)[v].(locked := Sum(jobs, HeldBy(v)))
        invariant forall v | u <= v < |accounts| :: accounts[v] == old(accounts)[v]
        invariant forall v :: v in changed <==> 0 <= v < u && accounts[v] != old(accounts)[v]
        invariant corrected == |changed|
      {
        var held := SumHeldCreditsLocked(u);
        if HasHeldJob(u) || accounts[u].locked != 0 {
          var fixed := ReconcileAccount(u);
          if fixed {
            corrected := corrected + 1;
            changed := changed + {u};
          }
        } else {
          NoHeldJobs(u);
        }
      }
      assert changed == set u | 0 <= u < |accounts| && accounts[u] != old(accounts)[u];
    }

    predicate HasHeldJob(u: UserId)
      reads this`jobs
    {
      exists j :: 0 <= j < |jobs| && jobs[j].Row? && jobs[j].job.user == u && jobs[j].job.lock == Held
    }

    lemma NoHeldJobs(u: UserId)
      requires !HasHeldJob(u)
      ensures Sum(jobs, HeldBy(u)) == 0
    {
      SumZero(jobs, HeldBy(u));
    }

    // -------------------------------------------------------------------------------------------
    // Jobs

    method ReserveCreditsAndCreateJob(u: UserId, source: Source, work: Work, admitting: bool, creditsToLock: int)
      returns (id: Option<JobId>)
      modifies this
      ensures Tables() == Apply(cfg, old(Tables()), CreateJob(u, source, work, admitting, creditsToLock))
      ensures id == if Reserve(old(Tables()), u, creditsToLock).Some? then Some(|old(jobs)|) else None
    {
      var ok := ReserveCreditsTx(u, creditsToLock);
      if !ok {
        return None;
      }
      id := Some(|jobs|);
      jobs := jobs + [Row(Job(u, source, work, PendingSubmit, admitting, BillingPending, None, creditsToLock, Held, clock, None))];
    }

    /** Takes a successful call's Credits, clamped to what is available, off the balance; None without an account. */
    method DebitTx(r: UsageStats.CallRecord, credits: nat) returns (charge: Option<int>)
      modifies this`accounts
      ensures charge.None? <==> r.success && credits > 0 && r.user >= |accounts|
      ensures charge.Some? ==> charge.value == ChargeAmount(old(Tables()), r, credits) >= 0
      ensures charge.Some? && charge.value != 0 ==>
                r.user < |old(accounts)|
                && accounts == old(accounts)[r.user := old(accounts)[r.user].(balance := old(accounts)[r.user].balance - charge.value)]
      ensures charge.None? || charge.value == 0 ==> accounts == old(accounts)
    {
      if !r.success || credits == 0 {
        return Some(0);
      }
      if r.user >= |accounts| {
        return None;
      }
      var account := accounts[r.user];
      var available := Available(account);
      var amount := if available < credits then available else credits;
      if amount != 0 {
        accounts := accounts[r.user := account.(balance := account.balance - amount)];
      }
      return Some(amount);
    }

    /** Debits a successful call, writes its record, queues it for statistics and posts the charge. */
    method ProcessTaskCallTx(r: UsageStats.CallRecord, credits: int) returns (ok: bool)
      modifies this
      ensures earningTables.Tables() == old(earningTables.Tables())
      ensures ok == WriteCall(old(Tables()), r, credits).Some?
      ensures ok ==> Tables() == WriteCall(old(Tables()), r, credits).value
    {
      hide ChargeAmount;
      if credits < 0 {
        return false;
      }
      var charge := DebitTx(r, credits);
      if charge.None? {
        return false;
      }
      var id := |records|;
      if exists i :: 0 <= i < |records| && records[i].job == r.job {
        return false;
      }
      records := records + [r];
      usage := UsageStats.Enqueue(usage, id);
      if charge.value == 0 {
        return true;
      }
      ok := InsertEvent(Event(r.user, TaskCharge, id, charge.value));
    }

    /** Release, record and close; the caller rolls back when it fails. */
    method FinishTx(j: JobId, outcome: Outcome) returns (ok: bool)
      requires JobExists(Tables(), j)
      modifies this
      ensures earningTables.Tables() == old(earningTables.Tables())
      ensures ok == Finish(old(Tables()), j, outcome).Some?
      ensures ok ==> Tables() == Finish(old(Tables()), j, outcome).value
    {
      ok := ReleaseCreditsHoldTx(j);
      if !ok {
        return;
      }
      var job := jobs[j].job;
      if clock < job.createdAt {
        return false;
      }
      var id := |records|;
      ok := ProcessTaskCallTx(RecordFor(j, job, outcome, clock), if outcome.Succeeded? then outcome.credits else 0);
      if ok {
        jobs := jobs[j := Row(Finished(job, outcome, id, clock))];
      }
    }

    method CompleteAndSettleTaskJob(j: JobId, credits: int, u: Usage) returns (ok: bool)
      modifies this, earningTables
      ensures Tables() == Apply(cfg, old(Tables()), Complete(j, credits, u))
      ensures ok == Succeeds(old(Tables()), Complete(j, credits, u))
    {
      var saved := Tables();
      if !JobExists(saved, j) {
        return false;
      }
      var job := jobs[j].job;
      if job.status == Completed && job.billing == Billed {
        return true;
      }
      if !LlmBilled(job) || credits < 1 {
        return false;
      }
      if job.record.Some? {
        return true;
      }
      ok := FinishTx(j, Succeeded(credits, u, 0));
      if !ok {
        Rollback(saved);
      }
    }

    method CompleteAndSettleImageTaskJob(j: JobId, credits: int) returns (ok: bool)
      modifies this, earningTables
      ensures Tables() == Apply(cfg, old(Tables()), CompleteImage(j, credits))
      ensures ok == Succeeds(old(Tables()), CompleteImage(j, credits))
    {
      var saved := Tables();
      if !JobExists(saved, j) {
        return false;
      }
      if jobs[j].job.record.Some? {
        return true;
      }
      if !ImageBilled(jobs[j].job) || credits <= 0 {
        return false;
      }
      ok := FinishTx(j, Succeeded(credits, Usage(0, 0, 0, false), 0));
      if !ok {
        Rollback(saved);
      }
    }

    method FailAndRecordTaskJob(j: JobId) returns (ok: bool)
      modifies this, earningTables
      ensures Tables() == Apply(cfg, old(Tables()), FailAndRecord(j))
      ensures ok == Succeeds(old(Tables()), FailAndRecord(j))
    {
      var saved := Tables();
      if !JobExists(saved, j) {
        return false;
      }
      var job := jobs[j].job;
      if job.record.Some? {
        return true;
      }
      ok := FinishTx(j, Unsuccessful(job.work.taskType == UsageStats.LlmTask, UsageStats.Crynux, 0));
      if !ok {
        Rollback(saved);
      }
    }

    method FailTaskJob(j: JobId) returns (ok: bool)
      modifies this
      ensures Tables() == Apply(cfg, old(Tables()), FailWithoutRecord(j))
      ensures ok <==> JobExists(old(Tables()), j) && (Terminal(old(jobs[j].job)) || Release(old(Tables()), j).Some?)
    {
      if !JobExists(Tables(), j) {
        return false;
      }
      if Terminal(jobs[j].job) {
        return true;
      }
      ok := ReleaseCreditsHoldTx(j);
      if ok {
        var job := jobs[j].job;
        jobs := jobs[j := Row(job.(status := Failed, admitting := false, billing := NotBilled, completedAt := Some(clock)))];
      }
    }

    method FailProviderTaskJob(j: JobId, lag: nat) returns (ok: bool)
      modifies this, earningTables
      ensures Tables() == Apply(cfg, old(Tables()), FailProvider(j, lag))
      ensures ok == Succeeds(old(Tables()), FailProvider(j, lag))
    {
      var saved := Tables();
      if !JobExists(saved, j) {
        return false;
      }
      if Terminal(jobs[j].job) {
        return true;
      }
      ok := FinishTx(j, Unsuccessful(false, jobs[j].job.source, lag));
      if !ok {
        Rollback(saved);
      }
    }

    method SettleProviderTaskJob(j: JobId, owner: UserId, credits: int, wei: int, u: Usage, lag: nat) returns (ok: bool)
      modifies this, earningTables
      ensures Tables() == Apply(cfg, old(Tables()), SettleProvider(j, owner, credits, wei, u, lag))
      ensures ok <==>
                && CanSettle(old(Tables()), j, credits)
                && (Terminal(old(jobs[j].job)) || old(jobs[j].job).record.Some?
                    || Tables() != old(Tables()))
    {
      var saved := Tables();
      if !CanSettle(saved, j, credits) {
        return false;
      }
      if Terminal(jobs[j].job) || jobs[j].job.record.Some? {
        return true;
      }
      var id := |records|;
      ok := FinishTx(j, Succeeded(credits, u, lag));
      if !ok {
        Rollback(saved);
        return;
      }
      FinishWritesRecord(saved, j, Succeeded(credits, u, lag));
      var error := earningTables.CreateTaskIncome(owner, wei, id);
      if error.Some? {
        Rollback(saved);
        return false;
      }
      payouts := payouts[id := Payout(j, owner, wei)];
      assert |Tables().records| != |saved.records|;
    }

    // -------------------------------------------------------------------------------------------
    // Sign-up and deposits

    method EnsureUserWithReferral(address: string, inviter: Option<UserId>)
      modifies this
      ensures Tables() == ApplySignUp(cfg, old(Tables()), address, inviter)
    {
      for i := 0 to |users|
        invariant address !in users[..i]
      {
        if users[i] == address {
          return;
        }
      }
      assert users[..|users|] == users;
      var id := |accounts|;
      users := users + [address];
      accounts := accounts + [Account(cfg.signupBonus, 0)];
      if cfg.signupBonus > 0 {
        events := events + [Event(id, SignupBonus, id, cfg.signupBonus)];
      }
      if inviter.None? || inviter.value >= id || id in bindings {
        return;
      }
      bindings := bindings[id := inviter.value];
      if cfg.inviteeBonus > 0 {
        events := events + [Event(id, InviteeBonus, id, cfg.inviteeBonus)];
        accounts := accounts[id := accounts[id].(balance := accounts[id].balance + cfg.inviteeBonus)];
        assert accounts == old(accounts) + [Account(cfg.signupBonus + cfg.inviteeBonus, 0)];
      }
    }

    /** The deposits of a referrer's invitees other than deposit `id`, the newest. */
    method CountInviteePurchases(referrer: UserId, id: nat) returns (count: nat)
      requires id + 1 == |deposits|
      ensures count == Sum(deposits[..id], PurchaseOf(bindings, referrer))
    {
      count := 0;
      for i := 0 to id
        invariant count == Sum(deposits[..i], PurchaseOf(bindings, referrer))
      {
        assert deposits[..i + 1] == deposits[..i] + [deposits[i]];
        SumAppend(deposits[..i], deposits[i], PurchaseOf(bindings, referrer));
        if Invited(bindings, deposits[i].user, referrer) {
          count := count + 1;
        }
      }
    }

    /** The referrer's reward for the newest deposit; the caller rolls back when it fails. */
    method ApplyDepositReferralReward(id: nat) returns (ok: bool)
      requires id + 1 == |deposits|
      modifies this`accounts, this`events, this`rewards
      ensures ok == PayReferral(cfg, old(Tables()), id).Some?
      ensures ok ==> Tables() == PayReferral(cfg, old(Tables()), id).value
    {
      hide HasEvent;
      var d := deposits[id];
      if d.user !in bindings {
        return true;
      }
      var referrer := bindings[d.user];
      if referrer >= |accounts| {
        return false;
      }
      var prior := CountInviteePurchases(referrer, id);
      var ratio := cfg.referral.depositRewardRatio;
      if !NonNegative(ratio) {
        return false;
      }
      var extra, tier := Referral.PurchaseBonusExtra(cfg.referral.tiers, prior);
      if extra.None? {
        return false;
      }
      var effective := ratio.value + extra.value;
      var amount := Referral.FloorCreditsTimesRatio(d.credits, effective);
      if effective <= 0.0 || amount <= 0 {
        return true;
      }
      var baseAmount := Referral.FloorCreditsTimesRatio(d.credits, ratio.value);
      var extraAmount := if amount - baseAmount < 0 then 0 else amount - baseAmount;
      if exists i :: 0 <= i < |rewards| && rewards[i].deposit == id {
        return true;
      }
      var reward := |rewards|;
      rewards := rewards + [Reward(id, referrer, amount, extraAmount)];
      ok := InsertEvent(Event(referrer, ReferralReward, reward, amount));
      if ok {
        accounts := accounts[referrer := accounts[referrer].(balance := accounts[referrer].balance + amount)];
      }
    }

    method ProcessDeposit(u: UserId, key: LogKey, credits: int) returns (ok: bool)
      modifies this, earningTables
      ensures Tables() == ApplyDeposit(cfg, old(Tables()), u, key, credits)
      ensures ok <==> credits > 0 && u < |accounts| && exists i :: 0 <= i < |deposits| && deposits[i].key == key
    {
      if credits <= 0 || u >= |accounts| {
        return false;
      }
      if exists i :: 0 <= i < |deposits| && deposits[i].key == key {
        return true;
      }
      var saved := Tables();
      var id := |deposits|;
      deposits := deposits + [Deposit(u, key, credits)];
      ok := InsertEvent(Event(u, DepositEvent, id, credits));
      if !ok {
        Rollback(saved);
        return;
      }
      accounts := accounts[u := accounts[u].(balance := accounts[u].balance + credits)];
      assert Tables() == Credit(saved, u, key, credits);
      hide PayReferral;
      assert deposits[id].key == key;
      ok := ApplyDepositReferralReward(id);
      if !ok {
        Rollback(saved);
      }
    }

    // -------------------------------------------------------------------------------------------
    // Retention

    /** The oldest expired job of a status outside the batch, the smaller id first of two completed together. */
    method OldestExpired(cutoff: nat, status: Status, batch: seq<JobId>) returns (next: Option<JobId>)
      ensures next.None? ==> forall j | 0 <= j < |jobs| && Expired(jobs[j], cutoff, {status}) :: j in batch
      ensures next.Some? ==>
                && next.value < |jobs| && Expired(jobs[next.value], cutoff, {status}) && next.value !in batch
                && forall j | 0 <= j < |jobs| && Expired(jobs[j], cutoff, {status}) && j !in batch && j != next.value ::
                     Earlier(jobs, next.value, j)
    {
      next := None;
      for j := 0 to |jobs|
        invariant next.None? ==> forall k | 0 <= k < j && Expired(jobs[k], cutoff, {status}) :: k in batch
        invariant next.Some? ==>
                    && next.value < j && Expired(jobs[next.value], cutoff, {status}) && next.value !in batch
                    && forall k | 0 <= k < j && Expired(jobs[k], cutoff, {status}) && k !in batch && k != next.value ::
                         Earlier(jobs, next.value, k)
      {
        if Expired(jobs[j], cutoff, {status}) && j !in batch
           && (next.None? || CompletedAt(jobs[j]) < CompletedAt(jobs[next.value])) {
          next := Some(j);
        }
      }
    }

    /** The first `limit` expired jobs of one terminal status, in order of completion. */
    method SelectBatch(cutoff: nat, status: Status, limit: nat) returns (ids: seq<JobId>)
      ensures |ids| <= limit && IsFirst(jobs, ids, cutoff, {status})
      ensures |ids| < limit ==> forall j | 0 <= j < |jobs| && Expired(jobs[j], cutoff, {status}) :: j in ids
    {
      ids := [];
      while |ids| < limit
        invariant |ids| <= limit && IsFirst(jobs, ids, cutoff, {status})
      {
        var next := OldestExpired(cutoff, status, ids);
        if next.None? {
          return;
        }
        ids := ids + [next.value];
      }
    }

    /** The completed jobs first, then the failed ones, `limit` in all. */
    method SelectPurgeable(cutoff: nat, limit: nat) returns (ids: seq<JobId>)
      ensures |ids| <= limit && IsFirst(jobs, ids, cutoff, {Completed, Failed})
      ensures |ids| < limit ==> forall j | 0 <= j < |jobs| && IsPurgeable(jobs[j], cutoff) :: j in ids
    {
      var completed := SelectBatch(cutoff, Completed, limit);
      var failed := SelectBatch(cutoff, Failed, limit);
      ids := completed + failed;
      if |ids| > limit {
        ids := ids[..limit];
      }
      FirstOfBoth(jobs, cutoff, limit, completed, failed, ids);
    }

    method PurgeJob(j: JobId, cutoff: nat)
      requires ValidConfig(cfg) && Inv(cfg, Tables())
      requires j < |jobs| && IsPurgeable(jobs[j], cutoff)
      modifies this`jobs
      ensures Inv(cfg, Tables()) && jobs == old(jobs)[j := Deleted]
    {
      hide Inv, ValidConfig;
      PurgeOne(cfg, Tables(), j, cutoff);
      jobs := jobs[j := Deleted];
    }

    method DeleteExpiredTerminalTaskJobs(cutoff: nat, limit: nat) returns (deleted: nat)
      requires ValidConfig(cfg) && Inv(cfg, Tables())
      modifies this`jobs
      ensures Inv(cfg, Tables()) && OnlyPurged(old(jobs), jobs, cutoff)
      ensures deleted == Sum(old(jobs), PurgeableCount(cutoff)) - Sum(jobs, PurgeableCount(cutoff))
      ensures deleted < limit ==> forall j | 0 <= j < |jobs| :: !IsPurgeable(jobs[j], cutoff)
      ensures forall i, j | 0 <= i < |jobs| && 0 <= j < |jobs| && jobs[i] != old(jobs)[i] && IsPurgeable(jobs[j], cutoff) ::
                Earlier(old(jobs), i, j)
    {
      hide Inv, ValidConfig, CreditsTables.Tables, IsPurgeable;
      var ids := SelectPurgeable(cutoff, limit);
      FirstAreDistinct(jobs, ids, cutoff);
      for i := 0 to |ids|
        invariant Inv(cfg, Tables()) && OnlyPurged(old(jobs), jobs, cutoff)
        invariant forall j | 0 <= j < |jobs| && jobs[j] != old(jobs)[j] :: j in ids
        invariant forall k | i <= k < |ids| :: IsPurgeable(jobs[ids[k]], cutoff)
        invariant forall k | 0 <= k < i :: jobs[ids[k]].Deleted?
        invariant Sum(jobs, PurgeableCount(cutoff)) == Sum(old(jobs), PurgeableCount(cutoff)) - i
      {
        DeletedIsNotPurgeable(cutoff);
        SumUpdate(jobs, ids[i], Deleted, PurgeableCount(cutoff));
        PurgeJob(ids[i], cutoff);
      }
      DeletedIsNotPurgeable(cutoff);
      RestIsLater(old(jobs), jobs, ids, cutoff);
      deleted := |ids|;
    }

    /**
     Deletes batches until one is short, each against the cutoff of its own moment. Then exactly the jobs that had
     expired at the last batch are gone.
     */
    method RunTaskJobRetentionCleanup(cutoffs: nat -> nat) returns (total: nat, batches: nat)
      requires ValidConfig(cfg) && Inv(cfg, Tables())
      requires forall i, k | i <= k :: cutoffs(i) <= cutoffs(k)
      modifies this`jobs
      ensures Inv(cfg, Tables()) && |jobs| == |old(jobs)|
      ensures forall j | 0 <= j < |jobs| ::
                jobs[j] == if HasExpired(old(jobs)[j], cutoffs(batches)) then Deleted else old(jobs)[j]
      ensures total == |ExpiredJobs(old(jobs), cutoffs(batches))|
    {
      ghost var start := Tables();
      assert start.jobs == jobs;
      NothingCleaned(jobs, cutoffs(0));
      hide Inv, ValidConfig, CreditsTables.Tables, IsPurgeable, HasExpired, ExpiredJobs, OnlyPurged, Cleaned, RowCount,
        PurgeableCount;
      total, batches := 0, 0;
      while true
        invariant Inv(cfg, Tables()) && Cleaned(start.jobs, jobs, cutoffs(batches), total)
        decreases Sum(jobs, RowCount())
      {
        ghost var before := jobs;
        var deleted := DeleteExpiredTerminalTaskJobs(cutoffs(batches), 200);
        CleanedOnce(start.jobs, before, jobs, cutoffs(batches), total, deleted);
        total := total + deleted;
        if deleted < 200 {
          CleanedUp(cfg, start, jobs, cutoffs(batches), total);
          return;
        }
        LaterCutoff(start.jobs, jobs, cutoffs(batches), cutoffs(batches + 1), total);
        batches := batches + 1;
      }
    }

    // -------------------------------------------------------------------------------------------
    // Restart sweep

    /** The first `limit` interrupted jobs in id order. */
    method SelectInterrupted(limit: nat) returns (ids: seq<JobId>)
      ensures |ids| <= limit
      ensures forall i | 0 <= i < |ids| :: ids[i] < |jobs| && Interrupted(jobs[ids[i]])
      ensures forall i, k | 0 <= i < k < |ids| :: ids[i] != ids[k]
      ensures |ids| < limit ==> forall j | 0 <= j < |jobs| && Interrupted(jobs[j]) :: j in ids
    {
      ids := [];
      for j := 0 to |jobs|
        invariant |ids| <= limit
        invariant forall i | 0 <= i < |ids| :: ids[i] < j && Interrupted(jobs[ids[i]])
        invariant forall i, k | 0 <= i < k < |ids| :: ids[i] != ids[k]
        invariant |ids| < limit ==> forall k | 0 <= k < j && Interrupted(jobs[k]) :: k in ids
      {
        if Interrupted(jobs[j]) && |ids| < limit {
          ids := ids + [j];
        }
      }
    }

    /** Fails one interrupted job. */
    method SweepJob(j: JobId) returns (ok: bool)
      requires ValidConfig(cfg) && Inv(cfg, Tables())
      requires j < |jobs| && Interrupted(jobs[j])
      modifies this, earningTables
      ensures ok && Inv(cfg, Tables())
      ensures exists done :: Swept(done) && jobs == old(jobs)[j := done]
    {
      hide Inv, ValidConfig;
      var lag: nat := *;
      SweepOne(cfg, Tables(), j, lag);
      ok := FailProviderTaskJob(j, lag);
      assert Swept(jobs[j]) && jobs == old(jobs)[j := jobs[j]];
    }

    /** Fails one batch, stopping at the first error; under the invariant there is none. */
    method FailBatch(ids: seq<JobId>) returns (ok: bool)
      requires ValidConfig(cfg) && Inv(cfg, Tables())
      requires forall i | 0 <= i < |ids| :: ids[i] < |jobs| && Interrupted(jobs[ids[i]])
      requires forall i, k | 0 <= i < k < |ids| :: ids[i] != ids[k]
      modifies this, earningTables
      ensures ok && Inv(cfg, Tables()) && OnlySwept(old(jobs), jobs)
      ensures forall i | 0 <= i < |ids| :: Swept(jobs[ids[i]])
      ensures Sum(jobs, InterruptedCount()) == Sum(old(jobs), InterruptedCount()) - |ids|
    {
      hide Inv, ValidConfig, CreditsTables.Tables;
      for i := 0 to |ids|
        invariant Inv(cfg, Tables()) && OnlySwept(old(jobs), jobs)
        invariant forall k | 0 <= k < i :: Swept(jobs[ids[k]])
        invariant forall k | i <= k < |ids| :: Interrupted(jobs[ids[k]])
        invariant Sum(jobs, InterruptedCount()) == Sum(old(jobs), InterruptedCount()) - i
      {
        ghost var was := jobs;
        ok := SweepJob(ids[i]);
        SumUpdate(was, ids[i], jobs[ids[i]], InterruptedCount());
      }
      ok := true;
    }

    /**
     Fails every Provider job the previous process left in flight. From a state satisfying the invariant it
     always succeeds, leaves no interrupted job, touches no other job, and keeps the invariant.
     */
    method FailPriorProcessProviderJobs() returns (ok: bool)
      requires ValidConfig(cfg) && Inv(cfg, Tables())
      modifies this, earningTables
      ensures ok && Inv(cfg, Tables()) && |jobs| == |old(jobs)|
      ensures forall j | 0 <= j < |jobs| :: if LeftRunning(old(jobs)[j]) then Swept(jobs[j]) else jobs[j] == old(jobs)[j]
    {
      hide Inv, ValidConfig, CreditsTables.Tables;
      while true
        invariant Inv(cfg, Tables()) && OnlySwept(old(jobs), jobs)
        decreases Sum(jobs, InterruptedCount())
      {
        ghost var before := jobs;
        var ids := SelectInterrupted(1000);
        if |ids| == 0 {
          return true;
        }
        ok := FailBatch(ids);
        if !ok {
          return;
        }
        if |ids| < 1000 {
          return true;
        }
        SumAtLeastRow(before, InterruptedCount());
        SumAtLeastRow(jobs, InterruptedCount());
      }
    }
  }

  predicate IsPurgeable(row: JobRow, cutoff: nat) { row.Row? && Purgeable(row.job, cutoff) }

  /** The job has a call record and completed before the cutoff. */
  ghost predicate HasExpired(row: JobRow, cutoff: nat) {
    row.Row? && row.job.record.Some? && row.job.completedAt.Some? && row.job.completedAt.value < cutoff
  }

  ghost function ExpiredJobs(jobs: seq<JobRow>, cutoff: nat): set<int> {
    set j | 0 <= j < |jobs| && HasExpired(jobs[j], cutoff)
  }

  /** After some batches: what is gone had expired, and it was counted. */
  ghost predicate Cleaned(start: seq<JobRow>, jobs: seq<JobRow>, cutoff: nat, total: nat) {
    OnlyPurged(start, jobs, cutoff) && total == Sum(start, RowCount()) - Sum(jobs, RowCount())
  }

  lemma NothingCleaned(jobs: seq<JobRow>, cutoff: nat)
    ensures Cleaned(jobs, jobs, cutoff, 0)
  {
  }

  lemma CleanedOnce(start: seq<JobRow>, before: seq<JobRow>, after: seq<JobRow>, cutoff: nat, total: nat, deleted: nat)
    requires Cleaned(start, before, cutoff, total) && OnlyPurged(before, after, cutoff)
    requires deleted == Sum(before, PurgeableCount(cutoff)) - Sum(after, PurgeableCount(cutoff))
    ensures Cleaned(start, after, cutoff, total + deleted)
    ensures 0 <= Sum(after, RowCount()) == Sum(before, RowCount()) - deleted
  {
    PurgedRows(before, after, cutoff);
    PurgedTwice(start, before, after, cutoff);
    SumAtLeastRow(after, RowCount());
  }

  lemma CleanedUp(cfg: Config, start: Db, jobs: seq<JobRow>, cutoff: nat, total: nat)
    requires Inv(cfg, start) && Cleaned(start.jobs, jobs, cutoff, total)
    requires forall j | 0 <= j < |jobs| :: !IsPurgeable(jobs[j], cutoff)
    ensures |jobs| == |start.jobs|
    ensures forall j | 0 <= j < |jobs| :: jobs[j] == if HasExpired(start.jobs[j], cutoff) then Deleted else start.jobs[j]
    ensures total == |ExpiredJobs(start.jobs, cutoff)|
  {
    PurgeableHasExpired(cfg, start, cutoff);
    hide Inv, IsPurgeable, HasExpired, RowCount;
    PurgedRows(start.jobs, jobs, cutoff);
    SumZero(jobs, PurgeableCount(cutoff));
    PurgedExactly(start.jobs, jobs, cutoff);
    SumIsCount(start.jobs, ExpiredJobs(start.jobs, cutoff), PurgeableCount(cutoff));
  }

  /** In a consistent state those are the jobs that retention takes. */
  lemma PurgeableHasExpired(cfg: Config, db: Db, cutoff: nat)
    requires Inv(cfg, db)
    ensures forall j | 0 <= j < |db.jobs| :: IsPurgeable(db.jobs[j], cutoff) <==> HasExpired(db.jobs[j], cutoff)
  {
    hide MoneyOk, StatsOk, EarningsOk, ReferralOk, LedgerOk, PaidOk, Describes;
    forall j | 0 <= j < |db.jobs| ensures IsPurgeable(db.jobs[j], cutoff) <==> HasExpired(db.jobs[j], cutoff) {
      assert JobOk(db.jobs, j, db.records, db.clock);
    }
  }

  function PurgeableCount(cutoff: nat): JobRow -> int {
    (row: JobRow) => if IsPurgeable(row, cutoff) then 1 else 0
  }

  ghost predicate OnlyPurged(before: seq<JobRow>, after: seq<JobRow>, cutoff: nat) {
    && |after| == |before|
    && forall j | 0 <= j < |after| :: after[j] == before[j] || (IsPurgeable(before[j], cutoff) && after[j] == Deleted)
  }

  function RowCount(): JobRow -> int {
    (row: JobRow) => if row.Row? then 1 else 0
  }

  function CompletedAt(row: JobRow): nat { if row.Row? && row.job.completedAt.Some? then row.job.completedAt.value else 0 }

  predicate Expired(row: JobRow, cutoff: nat, among: set<Status>) { IsPurgeable(row, cutoff) && row.job.status in among }

  /** The order of retention: completed jobs before failed ones, then by completion, then by id. */
  predicate Earlier(jobs: seq<JobRow>, i: JobId, k: JobId)
    requires i < |jobs| && k < |jobs|
  {
    jobs[i].Row? && jobs[k].Row?
    && (if jobs[i].job.status == jobs[k].job.status
        then
          && jobs[i].job.completedAt.Some? && jobs[k].job.completedAt.Some?
          && var x, y := jobs[i].job.completedAt.value, jobs[k].job.completedAt.value;
          x < y || (x == y && i < k)
        else jobs[i].job.status == Completed && jobs[k].job.status == Failed)
  }

  /** The ids are those of the first expired rows of these statuses, in the order of retention. */
  ghost predicate IsFirst(jobs: seq<JobRow>, ids: seq<JobId>, cutoff: nat, among: set<Status>) {
    && (forall i | 0 <= i < |ids| :: ids[i] < |jobs| && Expired(jobs[ids[i]], cutoff, among))
    && (forall i, k | 0 <= i < k < |ids| :: Earlier(jobs, ids[i], ids[k]))
    && (forall i, j | 0 <= i < |ids| && 0 <= j < |jobs| && Expired(jobs[j], cutoff, among) && j !in ids :: Earlier(jobs, ids[i], j))
  }

  lemma FirstAreDistinct(jobs: seq<JobRow>, ids: seq<JobId>, cutoff: nat)
    requires IsFirst(jobs, ids, cutoff, {Completed, Failed})
    ensures forall i, k | 0 <= i < k < |ids| :: ids[i] != ids[k]
    ensures forall i | 0 <= i < |ids| :: IsPurgeable(jobs[ids[i]], cutoff)
  {
  }

  lemma ExpiredStatus(row: JobRow, cutoff: nat)
    ensures IsPurgeable(row, cutoff) <==> Expired(row, cutoff, {Completed}) || Expired(row, cutoff, {Failed})
    ensures Expired(row, cutoff, {Completed, Failed}) <==> IsPurgeable(row, cutoff)
  {
  }

  /** The batches of the two statuses, one behind the other, cut to the limit. */
  lemma FirstOfBoth(jobs: seq<JobRow>, cutoff: nat, limit: nat, completed: seq<JobId>, failed: seq<JobId>, ids: seq<JobId>)
    requires IsFirst(jobs, completed, cutoff, {Completed}) && IsFirst(jobs, failed, cutoff, {Failed})
    requires |completed| <= limit && |failed| <= limit
    requires |completed| < limit ==> forall j | 0 <= j < |jobs| && Expired(jobs[j], cutoff, {Completed}) :: j in completed
    requires |failed| < limit ==> forall j | 0 <= j < |jobs| && Expired(jobs[j], cutoff, {Failed}) :: j in failed
    requires ids == if |completed| + |failed| > limit then (completed + failed)[..limit] else completed + failed
    ensures IsFirst(jobs, ids, cutoff, {Completed, Failed})
    ensures |ids| < limit ==> forall j | 0 <= j < |jobs| && IsPurgeable(jobs[j], cutoff) :: j in ids
  {
    forall i | 0 <= i < |ids| ensures ids[i] < |jobs| && Expired(jobs[ids[i]], cutoff, {Completed, Failed}) {
      ExpiredStatus(jobs[ids[i]], cutoff);
    }
    forall i, k | 0 <= i < k < |ids| ensures Earlier(jobs, ids[i], ids[k]) {
    }
    forall i, j | 0 <= i < |ids| && 0 <= j < |jobs| && Expired(jobs[j], cutoff, {Completed, Failed}) && j !in ids
      ensures Earlier(jobs, ids[i], j)
    {
      LaterIsBehind(jobs, cutoff, limit, completed, failed, ids, i, j);
    }
    if |ids| < limit {
      forall j | 0 <= j < |jobs| && IsPurgeable(jobs[j], cutoff) ensures j in ids {
        ExpiredStatus(jobs[j], cutoff);
      }
    }
  }

  lemma LaterIsBehind(
      jobs: seq<JobRow>, cutoff: nat, limit: nat, completed: seq<JobId>, failed: seq<JobId>, ids: seq<JobId>, i: nat, j: JobId)
    requires IsFirst(jobs, completed, cutoff, {Completed}) && IsFirst(jobs, failed, cutoff, {Failed})
    requires |completed| <= limit
    requires |completed| < limit ==> forall j | 0 <= j < |jobs| && Expired(jobs[j], cutoff, {Completed}) :: j in completed
    requires ids == if |completed| + |failed| > limit then (completed + failed)[..limit] else completed + failed
    requires i < |ids| && j < |jobs| && IsPurgeable(jobs[j], cutoff) && j !in ids
    ensures Earlier(jobs, ids[i], j)
  {
    forall k | 0 <= k < |completed| ensures completed[k] != j {
      assert ids[k] == completed[k];
    }
    forall k | 0 <= k < |failed| && |completed| + k < |ids| ensures failed[k] != j {
      assert ids[|completed| + k] == failed[k];
    }
    if i >= |completed| {
      assert ids[i] == failed[i - |completed|];
    }
  }

  /** What a batch leaves comes after what it deletes. */
  lemma RestIsLater(before: seq<JobRow>, after: seq<JobRow>, ids: seq<JobId>, cutoff: nat)
    requires OnlyPurged(before, after, cutoff) && IsFirst(before, ids, cutoff, {Completed, Failed})
    requires forall j | 0 <= j < |after| && after[j] != before[j] :: j in ids
    requires forall i | 0 <= i < |ids| :: after[ids[i]].Deleted?
    ensures forall i, j | 0 <= i < |after| && 0 <= j < |after| && after[i] != before[i] && IsPurgeable(after[j], cutoff) ::
              Earlier(before, i, j)
  {
    forall i, j | 0 <= i < |after| && 0 <= j < |after| && after[i] != before[i] && IsPurgeable(after[j], cutoff)
      ensures Earlier(before, i, j)
    {
      var k :| 0 <= k < |ids| && ids[k] == i;
      ExpiredStatus(before[j], cutoff);
    }
  }

  /** Every deleted row was one that could be deleted. */
  lemma {:induction false} PurgedRows(before: seq<JobRow>, after: seq<JobRow>, cutoff: nat)
    requires OnlyPurged(before, after, cutoff)
    ensures Sum(before, RowCount()) - Sum(after, RowCount())
            == Sum(before, PurgeableCount(cutoff)) - Sum(after, PurgeableCount(cutoff))
  {
    if before != [] {
      var n := |before| - 1;
      assert after[n] == before[n] || after[n] == Deleted;
      PurgedRows(before[..n], after[..n], cutoff);
    }
  }

  lemma PurgedTwice(first: seq<JobRow>, before: seq<JobRow>, after: seq<JobRow>, cutoff: nat)
    requires OnlyPurged(first, before, cutoff) && OnlyPurged(before, after, cutoff)
    ensures OnlyPurged(first, after, cutoff)
  {
    DeletedIsNotPurgeable(cutoff);
  }

  lemma PurgedExactly(before: seq<JobRow>, after: seq<JobRow>, cutoff: nat)
    requires OnlyPurged(before, after, cutoff) && forall j | 0 <= j < |after| :: !IsPurgeable(after[j], cutoff)
    ensures |after| == |before|
    ensures forall j | 0 <= j < |after| :: after[j] == if IsPurgeable(before[j], cutoff) then Deleted else before[j]
  {
  }

  /** What has expired stays expired. */
  lemma LaterCutoff(before: seq<JobRow>, after: seq<JobRow>, cutoff: nat, later: nat, total: nat)
    requires Cleaned(before, after, cutoff, total) && cutoff <= later
    ensures Cleaned(before, after, later, total)
  {
  }

  lemma DeletedIsNotPurgeable(cutoff: nat)
    ensures !IsPurgeable(Deleted, cutoff)
  {
  }

  lemma PurgeOne(cfg: Config, db: Db, j: JobId, cutoff: nat)
    requires ValidConfig(cfg) && Inv(cfg, db) && j < |db.jobs| && IsPurgeable(db.jobs[j], cutoff)
    ensures Inv(cfg, db.(jobs := db.jobs[j := Deleted]))
  {
    hide Inv;
    ApplyKeeps(cfg, db, Purge(j, cutoff));
  }

  /** A Provider job the previous process left running or being admitted. */
  predicate Interrupted(row: JobRow) {
    row.Row? && row.job.source == UsageStats.Provider
    && (Running(row.job.status) || (row.job.status == PendingSubmit && row.job.admitting))
  }

  /** A Provider job that was submitted, in progress, or still being admitted. */
  ghost predicate LeftRunning(row: JobRow) {
    row.Row? && row.job.source == UsageStats.Provider
    && (row.job.status == Submitted || row.job.status == InProgress || (row.job.status == PendingSubmit && row.job.admitting))
  }

  predicate Swept(row: JobRow) {
    row.Row? && row.job.status == Failed && row.job.record.Some?
  }

  function InterruptedCount(): JobRow -> int {
    (row: JobRow) => if Interrupted(row) then 1 else 0
  }

  ghost predicate OnlySwept(before: seq<JobRow>, after: seq<JobRow>) {
    && |after| == |before|
    && forall j | 0 <= j < |after| :: after[j] == before[j] || (Interrupted(before[j]) && Swept(after[j]))
  }

  lemma FinishWritesRecord(db: Db, j: JobId, outcome: Outcome)
    requires JobExists(db, j) && Finish(db, j, outcome).Some?
    ensures |Finish(db, j, outcome).value.records| == |db.records| + 1
  {
  }

  /** Failing one interrupted job: it commits, it closes that job only, and it keeps the invariant. */
  lemma SweepOne(cfg: Config, db: Db, j: JobId, lag: nat)
    requires ValidConfig(cfg) && Inv(cfg, db) && JobExists(db, j) && !Terminal(db.jobs[j].job)
    ensures Succeeds(db, FailProvider(j, lag))
    ensures var out := Apply(cfg, db, FailProvider(j, lag));
            && Inv(cfg, out)
            && out.earnings == db.earnings
            && exists done: Job :: out.jobs == db.jobs[j := Row(done)] && done.status == Failed && done.record.Some?
  {
    hide StatsOk, EarningsOk, ReferralOk, LedgerOk, PaidOk;
    assert JobOk(db.jobs, j, db.records, db.clock);
    var outcome := OutcomeOf(db.jobs[j].job, FailProvider(j, lag));
    CreditsTheorems.FinishCommits(cfg, db, j, outcome);
    FinishHasShape(db, j, outcome);
    ApplyKeeps(cfg, db, FailProvider(j, lag));
  }
}
