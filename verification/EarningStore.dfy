/** The earnings tables as they are updated in place, each method against its transaction in Earnings. */
module EarningStore {
  import opened Options
  import opened Sums
  import opened Earnings

  function ErrorOf(r: Result): Option<Error> {
    match r
    case Committed(_) => None
    case RolledBack(e) => Some(e)
  }

  function StateAfter(r: Result, before: State): State {
    if r.Committed? then r.state else before
  }

  class EarningTables {
    var accounts: map<UserId, Account>
    var withdrawals: seq<Withdrawal>
    var events: seq<Event>

    function Tables(): State
      reads this
    {
      State(accounts, withdrawals, events)
    }

    constructor ()
      ensures Tables() == EMPTY
    {
      accounts, withdrawals, events := map[], [], [];
    }

    method Restore(s: State)
      modifies this
      ensures Tables() == s
    {
      accounts, withdrawals, events := s.accounts, s.withdrawals, s.events;
    }

    /** Inserts an event; the unique index refuses a second one for the same source row. */
    method InsertEvent(e: Event) returns (ok: bool)
      modifies this`events
      ensures ok == !HasEvent(old(Tables()), e.kind, e.source)
      ensures events == if ok then old(events) + [e] else old(events)
    {
      ok := true;
      for i := 0 to |events|
        invariant ok == forall k | 0 <= k < i :: events[k].kind != e.kind || events[k].source != e.source
      {
        if events[i].kind == e.kind && events[i].source == e.source {
          ok := false;
        }
      }
      if ok {
        events := events + [e];
      }
    }

    method CreateTaskIncome(u: UserId, amount: int, record: nat) returns (error: Option<Error>)
      modifies this
      ensures error == ErrorOf(Income(old(Tables()), u, amount, record))
      ensures Tables() == StateAfter(Income(old(Tables()), u, amount, record), old(Tables()))
    {
      if amount <= 0 {
        return None;
      }
      var saved := Tables();
      if u !in accounts {
        accounts := accounts[u := Account(0, 0)];
      }
      accounts := accounts[u := accounts[u].(available := accounts[u].available + amount)];
      var ok := InsertEvent(Event(Some(u), TaskIncome, record, amount));
      if !ok {
        Restore(saved);
        return Some(DuplicateEvent);
      }
      return None;
    }

    /** Counts the non-failed rows of one requester or one beneficial address since the start of the day. */
    method CountNonFailed(user: Option<UserId>, benefit: string, network: string, start: nat) returns (count: nat)
      ensures count == Sum(withdrawals, if user.Some? then SinceForUser(user.value, network, start)
                                        else SinceForBenefit(benefit, network, start))
    {
      ghost var f := if user.Some? then SinceForUser(user.value, network, start) else SinceForBenefit(benefit, network, start);
      count := 0;
      for i := 0 to |withdrawals|
        invariant count == Sum(withdrawals[..i], f)
      {
        var w := withdrawals[i];
        assert withdrawals[..i + 1] == withdrawals[..i] + [w];
        SumAppend(withdrawals[..i], w, f);
        var selected := if user.Some? then w.user == user.value else w.benefit == benefit;
        if selected && w.network == network && w.createdAt >= start && w.status != Failed {
          count := count + 1;
        }
      }
      assert withdrawals[..|withdrawals|] == withdrawals;
    }

    method CreateWithdrawal(cfg: Config, r: Request, now: nat) returns (error: Option<Error>)
      modifies this
      ensures error == ErrorOf(Create(cfg, old(Tables()), r, now))
      ensures Tables() == StateAfter(Create(cfg, old(Tables()), r, now), old(Tables()))
    {
      var refusal := Refusal(cfg, r, now);
      if refusal.Some? {
        return refusal;
      }
      if r.user !in accounts {
        return Some(InsufficientEarnings);
      }
      var network := cfg[r.network];
      var total := r.amount + network.fee;
      var start := Day(now) * SECONDS_PER_DAY;
      var byUser := CountNonFailed(Some(r.user), r.benefit, r.network, start);
      if byUser >= network.maxPerDay {
        return Some(DailyLimit);
      }
      var byBenefit := CountNonFailed(None, r.benefit, r.network, start);
      if byBenefit >= network.maxPerDay {
        return Some(DailyLimit);
      }
      var account := accounts[r.user];
      if account.available < total {
        return Some(InsufficientEarnings);
      }
      if exists i :: 0 <= i < |withdrawals| && withdrawals[i].fingerprint == r.fingerprint {
        return Some(AuthorizationReplay);
      }
      var saved := Tables();
      var id := |withdrawals|;
      withdrawals := withdrawals
                     + [Withdrawal(r.user, r.benefit, r.network, r.amount, network.fee, Pending, now, r.fingerprint)];
      var ok := InsertEvent(Event(Some(r.user), Withdraw, id, total));
      if !ok {
        Restore(saved);
        return Some(DuplicateEvent);
      }
      accounts := accounts[r.user := Account(account.available - total, account.locked + total)];
      return None;
    }

    method FulfillWithdrawal(id: WithdrawalId) returns (error: Option<Error>)
      modifies this
      ensures error == ErrorOf(Fulfill(old(Tables()), id))
      ensures Tables() == StateAfter(Fulfill(old(Tables()), id), old(Tables()))
    {
      if id >= |withdrawals| || withdrawals[id].user !in accounts {
        return Some(NotFound);
      }
      var w := withdrawals[id];
      if w.status == Success {
        return None;
      }
      if w.status != Pending {
        return Some(Conflict);
      }
      var account := accounts[w.user];
      if account.locked - w.Total() < 0 {
        return Some(Inconsistent);
      }
      accounts := accounts[w.user := account.(locked := account.locked - w.Total())];
      withdrawals := withdrawals[id := w.(status := Success)];
      if w.fee > 0 {
        var inserted := InsertEvent(Event(None, FeeIncome, id, w.fee));
      }
      return None;
    }

    method RejectWithdrawal(id: WithdrawalId) returns (error: Option<Error>)
      modifies this
      ensures error == ErrorOf(Reject(old(Tables()), id))
      ensures Tables() == StateAfter(Reject(old(Tables()), id), old(Tables()))
    {
      if id >= |withdrawals| || withdrawals[id].user !in accounts {
        return Some(NotFound);
      }
      var w := withdrawals[id];
      if w.status == Failed {
        return None;
      }
      if w.status != Pending {
        return Some(Conflict);
      }
      var account := accounts[w.user];
      if account.locked - w.Total() < 0 {
        return Some(Inconsistent);
      }
      accounts := accounts[w.user := Account(account.available + w.Total(), account.locked - w.Total())];
      withdrawals := withdrawals[id := w.(status := Failed)];
      var inserted := InsertEvent(Event(Some(w.user), Refund, id, w.Total()));
      return None;
    }
  }
}
