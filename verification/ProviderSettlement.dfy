/** The quote a Provider job locked against the Credits its settlement takes from the account. */
module ProviderSettlement {
  import opened Options
  import opened CreditsLedger
  import opened CreditsInvariant
  import opened CreditsRuns
  import CreditsTheorems
  import Billing = ProviderBilling

  /**
   A job that locked its quote, whose usage stays within the admission estimates, is debited exactly the Credits
   computed from that usage: no clamp fires, the whole hold is released, and the rest of it is available again.
   */
  lemma QuotedJobSettlesExactly(cfg: Config, db: Db, j: JobId, s: Billing.Snapshot, u: Billing.Usage, usage: Usage, lag: nat)
    requires Inv(cfg, db) && JobExists(db, j) && !Terminal(db.jobs[j].job)
    requires Billing.QuotedCredits(s) == Some(db.jobs[j].job.creditsLocked)
    requires Billing.Billable(u, s.weights)
    requires Billing.InputSideTokens(u) <= s.inputTokens && Billing.OutputSideTokens(u) <= s.maxOutputTokens
    ensures Billing.SettledCredits(s, u).Some?
    ensures var credits := Billing.SettledCredits(s, u).value;
            var job := db.jobs[j].job;
            var a := db.accounts[job.user];
            var settled := Account(a.balance - credits, a.locked - job.creditsLocked);
            && 1 <= credits <= job.creditsLocked
            && Finish(db, j, Succeeded(credits, usage, lag)).Some?
            && var out := Finish(db, j, Succeeded(credits, usage, lag)).value;
            && ChargeOf(out.events)(|db.records|) == credits
            && out.accounts == db.accounts[job.user := settled]
            && Available(settled) == Available(a) + (job.creditsLocked - credits)
  {
    hide StatsOk, EarningsOk, ReferralOk, LedgerOk, LifecycleOk, PaidOk, Finish, Billing.Billable, Billing.SettledUnits,
      Billing.QuotedCredits, Billing.SettledCredits;
    Billing.QuoteCoversSettlement(s, u);
    var credits := Billing.SettledCredits(s, u).value;
    CreditsTheorems.HeldSettlementIsExact(cfg, db, j, credits, usage, lag);
    HoldsOfRunningJob(db, j);
  }

  lemma HoldsOfRunningJob(db: Db, j: JobId)
    requires MoneyOk(db) && JobExists(db, j)
    ensures Available(db.accounts[db.jobs[j].job.user]) == db.accounts[db.jobs[j].job.user].balance - db.accounts[db.jobs[j].job.user].locked
  {
    AvailableIsExact(db, db.jobs[j].job.user);
  }
}
