/** The runner's loop over attempts as one method on the slot table, without interference from other goroutines. */
module ProviderRunner {
  import opened KeySlots
  import opened Options
  import opened ProviderScheduler

  /** What the database and the upstream services answer, by attempt. */
  datatype World = World(usable: nat -> bool, execute: (KeyId, nat) -> Answer, listed: nat -> Option<seq<KeyId>>)

  ghost predicate IsWorld(w: World) {
    forall i, k | w.listed(i).Some? && k in w.listed(i).value :: k != 0
  }

  lemma ReserveUndoesRelease(active: Slots, k: KeyId)
    requires Canonical(active) && Count(active, k) > 0
    ensures Reserved(Released(active, k), k) == active
  {
    ReleasedCounts(active, k);
    ReservedCounts(Released(active, k), k);
    CountsDetermineSlots(Reserved(Released(active, k), k), active);
  }

  /** The calls follow the world's answers, each on a new key, and only a switchable answer leads to another. */
  ghost predicate FollowsWorld(cfg: Config, w: World, deadline: nat, calls: seq<Call>, answers: seq<Answer>) {
    && |answers| == |calls| <= Limit(cfg)
    && (forall i | 0 <= i < |calls| :: calls[i].tryIndex == i && w.usable(i) && answers[i] == w.execute(calls[i].key, i))
    && (forall i, k | 0 <= i < k < |calls| :: calls[i].key != calls[k].key)
    && (forall i | 0 <= i < |calls| - 1 :: MaySwitch(answers[i], deadline) && i + 1 < cfg.maxAttempts)
    && (forall i | 0 < i < |calls| :: w.listed(i).Some? && calls[i].key in w.listed(i).value)
  }

  /** A definite refusal for a reason of the key, with nothing confirmed, cancelled or shown, before the timeout. */
  ghost predicate MaySwitch(answer: Answer, deadline: nat) {
    && !answer.confirmed && !answer.cancelled && answer.keySpecificUnaccepted && !answer.publicOutputBegan
    && answer.at < deadline
  }

  /** Why the loop stopped where it did; `left` is the slot table without this runner. */
  ghost predicate Stopped(cfg: Config, w: World, deadline: nat, calls: seq<Call>, answers: seq<Answer>, left: Slots)
    requires |answers| == |calls|
  {
    var n := |calls|;
    if n == 0 then !w.usable(0)
    else
      || !MaySwitch(answers[n - 1], deadline)
      || n >= cfg.maxAttempts
      || w.listed(n).None?
      || (forall k | k in w.listed(n).value :: (exists i :: 0 <= i < n && calls[i].key == k) || Count(left, k) >= cfg.maxSlots)
      || !w.usable(n)
  }

  /** The loop before an attempt: every call so far allowed another, and `current` is new and was listed. */
  ghost predicate Ready(cfg: Config, w: World, deadline: nat, key: KeyId, calls: seq<Call>, answers: seq<Answer>, tried: set<KeyId>, current: KeyId) {
    && FollowsWorld(cfg, w, deadline, calls, answers) && |calls| < Limit(cfg)
    && TriedAre(calls, tried - {current}) && current in tried
    && (forall i | 0 <= i < |calls| :: MaySwitch(answers[i], deadline) && i + 1 < cfg.maxAttempts)
    && (if calls == [] then current == key
        else w.usable(0) && calls[0].key == key && w.listed(|calls|).Some? && current in w.listed(|calls|).value)
  }

  ghost predicate TriedAre(calls: seq<Call>, tried: set<KeyId>) {
    && (forall i | 0 <= i < |calls| :: calls[i].key in tried)
    && (forall k | k in tried :: exists i :: 0 <= i < |calls| && calls[i].key == k)
  }

  /** After a call. */
  ghost predicate Heard(cfg: Config, w: World, deadline: nat, key: KeyId, calls: seq<Call>, answers: seq<Answer>, tried: set<KeyId>) {
    && FollowsWorld(cfg, w, deadline, calls, answers) && TriedAre(calls, tried)
    && |calls| > 0 && w.usable(0) && calls[0].key == key
    && (forall i | 0 <= i < |calls| - 1 :: MaySwitch(answers[i], deadline) && i + 1 < cfg.maxAttempts)
  }

  lemma CallOnce(cfg: Config, w: World, deadline: nat, key: KeyId, calls: seq<Call>, answers: seq<Answer>, tried: set<KeyId>, current: KeyId)
    requires Ready(cfg, w, deadline, key, calls, answers, tried, current) && w.usable(|calls|)
    ensures Heard(cfg, w, deadline, key, calls + [Call(current, |calls|)], answers + [w.execute(current, |calls|)], tried)
  {
    var all := calls + [Call(current, |calls|)];
    forall k | k in tried ensures exists i :: 0 <= i < |all| && all[i].key == k {
      if k == current {
        assert all[|calls|].key == k;
      } else {
        assert k in tried - {current};
        var i :| 0 <= i < |calls| && calls[i].key == k;
        assert all[i].key == k;
      }
    }
  }

  lemma SwitchOnce(cfg: Config, w: World, deadline: nat, key: KeyId, calls: seq<Call>, answers: seq<Answer>, tried: set<KeyId>, next: KeyId)
    requires Heard(cfg, w, deadline, key, calls, answers, tried)
    requires CanSwitch(cfg, answers[|calls| - 1], |calls|, deadline)
    requires w.listed(|calls|).Some? && next in w.listed(|calls|).value && next !in tried
    ensures Ready(cfg, w, deadline, key, calls, answers, tried + {next}, next)
  {
    assert tried + {next} - {next} == tried;
  }

  lemma StartsReady(cfg: Config, w: World, deadline: nat, key: KeyId)
    ensures Ready(cfg, w, deadline, key, [], [], {key}, key)
  {
  }

  lemma StopsUnusable(cfg: Config, w: World, deadline: nat, key: KeyId, calls: seq<Call>, answers: seq<Answer>, tried: set<KeyId>, current: KeyId, left: Slots)
    requires Ready(cfg, w, deadline, key, calls, answers, tried, current) && !w.usable(|calls|)
    ensures Ended(cfg, w, deadline, key, calls, answers, left)
  {
  }

  lemma StopsHeard(cfg: Config, w: World, deadline: nat, key: KeyId, calls: seq<Call>, answers: seq<Answer>, tried: set<KeyId>, left: Slots)
    requires Heard(cfg, w, deadline, key, calls, answers, tried)
    requires !CanSwitch(cfg, answers[|calls| - 1], |calls|, deadline) || w.listed(|calls|).None?
             || forall k | k in w.listed(|calls|).value :: k in tried || Count(left, k) >= cfg.maxSlots
    ensures Ended(cfg, w, deadline, key, calls, answers, left)
  {
  }

  ghost predicate Ended(cfg: Config, w: World, deadline: nat, key: KeyId, calls: seq<Call>, answers: seq<Answer>, left: Slots) {
    && FollowsWorld(cfg, w, deadline, calls, answers)
    && (if w.usable(0) then |calls| > 0 && calls[0].key == key else calls == [])
    && Stopped(cfg, w, deadline, calls, answers, left)
  }

  lemma AttemptsAreBounded(cfg: Config, w: World, deadline: nat, key: KeyId, calls: seq<Call>, answers: seq<Answer>, tried: set<KeyId>, current: KeyId)
    requires Ready(cfg, w, deadline, key, calls, answers, tried, current)
    ensures |calls| == |answers| < Limit(cfg)
  {
  }

  /**
   Runs a claimed job to its end. Whichever way it ends, exactly the slot it was started with has been given
   back: every slot taken on a switch is released again. The loop goes on as long as it may: it stops only on an
   answer that rules a switch out, at the limit, without a further key, or on an unusable attempt.
   */
  method RunProviderJob(cfg: Config, slots: ProviderKeySlotManager, w: World, deadline: nat, key: KeyId)
    returns (calls: seq<Call>, answers: seq<Answer>)
    requires slots.Valid() && slots.maxSlots == cfg.maxSlots && IsWorld(w)
    requires key != 0 && Count(slots.active, key) > 0
    modifies slots
    ensures slots.Valid() && slots.active == Released(old(slots.active), key)
    ensures FollowsWorld(cfg, w, deadline, calls, answers)
    ensures if w.usable(0) then |calls| > 0 && calls[0].key == key else calls == []
    ensures Stopped(cfg, w, deadline, calls, answers, slots.active)
  {
    ghost var others := Released(slots.active, key);
    ReleasedCounts(slots.active, key);
    ReserveUndoesRelease(slots.active, key);
    var tried, current, held, attempts := {key}, key, key, 0;
    calls, answers := [], [];
    StartsReady(cfg, w, deadline, key);
    hide Ready, Heard, CanSwitch, Reserved, Released;
    while true
      invariant slots.Valid() && held == current != 0 && Canonical(others) && slots.active == Reserved(others, held)
      invariant |calls| == |answers| == attempts < Limit(cfg)
      invariant Ready(cfg, w, deadline, key, calls, answers, tried, current)
      decreases Limit(cfg) - attempts
    {
      attempts := attempts + 1;
      if !w.usable(attempts - 1) {
        StopsUnusable(cfg, w, deadline, key, calls, answers, tried, current, others);
        break;
      }
      var answer := w.execute(current, attempts - 1);
      CallOnce(cfg, w, deadline, key, calls, answers, tried, current);
      calls := calls + [Call(current, attempts - 1)];
      answers := answers + [answer];
      if !CanSwitch(cfg, answer, attempts, deadline) {
        StopsHeard(cfg, w, deadline, key, calls, answers, tried, others);
        break;
      }
      ReleaseUndoesReserve(others, held, held);
      slots.Release(held);
      held := 0;
      var keys := w.listed(attempts);
      if keys.None? {
        StopsHeard(cfg, w, deadline, key, calls, answers, tried, others);
        break;
      }
      var next := slots.SelectRandomEligibleKey(keys.value, tried);
      if next.None? {
        StopsHeard(cfg, w, deadline, key, calls, answers, tried, others);
        break;
      }
      var reserved := slots.Reserve(next.value);
      if !reserved {
        break;
      }
      SwitchOnce(cfg, w, deadline, key, calls, answers, tried, next.value);
      held, current, tried := next.value, next.value, tried + {next.value};
      AttemptsAreBounded(cfg, w, deadline, key, calls, answers, tried, current);
    }
    assert Ended(cfg, w, deadline, key, calls, answers, others);
    if held != 0 {
      ReleaseUndoesReserve(others, held, held);
      slots.Release(held);
    }
  }
}
