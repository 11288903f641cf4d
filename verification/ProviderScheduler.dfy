/**
 The Provider scheduler and its runners as a transition system (service/provider_scheduler.go,
 service/provider_runner.go). One scheduler and any number of runners interleave; each slot operation, claim,
 check and upstream call is one step, and a step that is not enabled changes nothing.
 */
module ProviderScheduler {
  import opened KeySlots
  import opened Options
  import opened Sums

  type JobId = nat
  type RunnerId = nat

  datatype Config = Config(maxSlots: nat, maxAttempts: nat)

  /** A claimed job is submitted; completion or failure by anyone closes it. */
  datatype JobStatus = PendingSubmit | Submitted | Closed

  datatype Job = Job(status: JobStatus, deadline: nat)

  /** What an upstream call returned, as far as the loop looks at it, and when. */
  datatype Answer = Answer(confirmed: bool, cancelled: bool, keySpecificUnaccepted: bool, publicOutputBegan: bool, at: nat)

  datatype Call = Call(key: KeyId, tryIndex: nat)

  datatype Pc = Top | Calling | Switching | Choosing | Reserving(next: KeyId) | Returning | Returned

  /** `calls` and `answers` are history: the upstream calls made so far and what they returned. */
  datatype Runner = Runner(
    job: JobId, current: KeyId, held: KeyId, tried: set<KeyId>, attempts: nat, pc: Pc,
    calls: seq<Call>, answers: seq<Answer>)

  datatype Scheduler = Idle | Selected(job: JobId, key: KeyId) | Holding(job: JobId, key: KeyId) | GivingBack(key: KeyId)

  datatype State = State(slots: Slots, jobs: seq<Job>, scheduler: Scheduler, runners: seq<Runner>, now: nat)

  const EMPTY: State := State(map[], [], Idle, [], 0)

  datatype Step =
    | Tick(elapsed: nat)
    | Enqueue(queueTimeout: nat)
    | Close(job: JobId)
    | Select(job: JobId, key: KeyId)
    | Reserve
    | Claim(dbError: bool)
    | GiveBack
    | Load(runner: RunnerId, usable: bool)
    | Answered(runner: RunnerId, confirmed: bool, cancelled: bool, keySpecificUnaccepted: bool, publicOutputBegan: bool)
    | ReleaseForSwitch(runner: RunnerId)
    | Choose(runner: RunnerId, next: Option<KeyId>)
    | ReserveNext(runner: RunnerId)
    | Leave(runner: RunnerId)

  predicate IsRunnerStep(step: Step) {
    step.Load? || step.Answered? || step.ReleaseForSwitch? || step.Choose? || step.ReserveNext? || step.Leave?
  }

  predicate HasRoom(cfg: Config, slots: Slots, k: KeyId) {
    Count(slots, k) < cfg.maxSlots
  }

  predicate CanSwitch(cfg: Config, answer: Answer, attempts: nat, deadline: nat) {
    && !answer.confirmed && !answer.cancelled
    && answer.keySpecificUnaccepted && !answer.publicOutputBegan
    && attempts < cfg.maxAttempts
    && answer.at < deadline
  }

  /** The runner's own move: its next local state and the slot table. */
  function Move(cfg: Config, s: State, r: Runner, step: Step): Option<(Runner, Slots)>
    requires IsRunnerStep(step) && r.job < |s.jobs|
  {
    var job := s.jobs[r.job];
    match step
    case Load(_, usable) =>
      if r.pc != Top then None
      else
        var loaded := r.(attempts := r.attempts + 1);
        if !usable || job.status == Closed || s.now > job.deadline then Some((loaded.(pc := Returning), s.slots))
        else Some((loaded.(pc := Calling, calls := r.calls + [Call(r.current, r.attempts)]), s.slots))
    case Answered(_, confirmed, cancelled, unaccepted, began) =>
      if r.pc != Calling then None
      else
        var answer := Answer(confirmed, cancelled, unaccepted, began, s.now);
        var heard := r.(answers := r.answers + [answer]);
        Some((heard.(pc := if CanSwitch(cfg, answer, r.attempts, job.deadline) then Switching else Returning), s.slots))
    case ReleaseForSwitch(_) =>
      if r.pc != Switching then None else Some((r.(held := 0, pc := Choosing), Released(s.slots, r.held)))
    case Choose(_, next) =>
      if r.pc != Choosing then None
      else if next.None? then Some((r.(pc := Returning), s.slots))
      else if next.value == 0 || next.value in r.tried || !HasRoom(cfg, s.slots, next.value) then None
      else Some((r.(pc := Reserving(next.value)), s.slots))
    case ReserveNext(_) =>
      if !r.pc.Reserving? then None
      else if !HasRoom(cfg, s.slots, r.pc.next) then Some((r.(pc := Returning), s.slots))
      else
        var k := r.pc.next;
        Some((r.(current := k, held := k, tried := r.tried + {k}, pc := Top), Reserved(s.slots, k)))
    case Leave(_) =>
      if r.pc != Returning then None
      else Some((r.(held := 0, pc := Returned), if r.held != 0 then Released(s.slots, r.held) else s.slots))
  }

  function Next(cfg: Config, s: State, step: Step): Option<State> {
    match step
    case Tick(elapsed) => Some(s.(now := s.now + elapsed))
    case Enqueue(timeout) => Some(s.(jobs := s.jobs + [Job(PendingSubmit, s.now + timeout)]))
    case Close(j) => if j >= |s.jobs| then None else Some(s.(jobs := s.jobs[j := s.jobs[j].(status := Closed)]))
    case Select(j, k) =>
      if s.scheduler != Idle || j >= |s.jobs| || s.now > s.jobs[j].deadline || k == 0 || !HasRoom(cfg, s.slots, k) then None
      else Some(s.(scheduler := Selected(j, k)))
    case Reserve =>
      if !s.scheduler.Selected? then None
      else if !HasRoom(cfg, s.slots, s.scheduler.key) then Some(s.(scheduler := Idle))
      else Some(s.(slots := Reserved(s.slots, s.scheduler.key), scheduler := Holding(s.scheduler.job, s.scheduler.key)))
    case Claim(dbError) =>
      if !s.scheduler.Holding? || s.scheduler.job >= |s.jobs| then None
      else
        var (j, k) := (s.scheduler.job, s.scheduler.key);
        var job := s.jobs[j];
        if dbError || job.status != PendingSubmit || s.now > job.deadline then Some(s.(scheduler := GivingBack(k)))
        else Some(s.(scheduler := Idle, jobs := s.jobs[j := job.(status := Submitted)],
                     runners := s.runners + [Runner(j, k, k, {k}, 0, Top, [], [])]))
    case GiveBack =>
      if !s.scheduler.GivingBack? then None
      else Some(s.(slots := Released(s.slots, s.scheduler.key), scheduler := Idle))
    case _ =>
      if step.runner >= |s.runners| || s.runners[step.runner].job >= |s.jobs| then None
      else
        var moved := Move(cfg, s, s.runners[step.runner], step);
        if moved.None? then None
        else Some(s.(runners := s.runners[step.runner := moved.value.0], slots := moved.value.1))
  }

  function Take(cfg: Config, s: State, step: Step): State {
    var next := Next(cfg, s, step);
    if next.Some? then next.value else s
  }

  function Run(cfg: Config, steps: seq<Step>): State {
    if steps == [] then EMPTY else Take(cfg, Run(cfg, steps[..|steps| - 1]), steps[|steps| - 1])
  }

  // ---------------------------------------------------------------------------------------------
  // The invariant

  function Holds(k: KeyId): Runner -> int {
    (r: Runner) => if k != 0 && r.held == k then 1 else 0
  }

  function SchedulerHolds(scheduler: Scheduler, k: KeyId): nat {
    if (scheduler.Holding? || scheduler.GivingBack?) && scheduler.key == k then 1 else 0
  }

  /** Live holders of a key: the scheduler's reservation in flight and the runners holding it. */
  function Holders(s: State, k: KeyId): int { SchedulerHolds(s.scheduler, k) + Sum(s.runners, Holds(k)) }

  ghost predicate SlotsOk(cfg: Config, s: State) {
    && Canonical(s.slots)
    && (s.scheduler != Idle ==> s.scheduler.key != 0)
    && (forall k :: Count(s.slots, k) == Holders(s, k))
    && (forall k :: Count(s.slots, k) <= cfg.maxSlots)
  }

  function Limit(cfg: Config): nat { if cfg.maxAttempts == 0 then 1 else cfg.maxAttempts }

  predicate Live(r: Runner) { r.pc != Returning && r.pc != Returned }

  ghost predicate KeysOk(r: Runner) {
    && r.current != 0 && r.current in r.tried && 0 !in r.tried
    && (match r.pc
        case Top => r.held == r.current && forall i | 0 <= i < |r.calls| :: r.calls[i].key != r.current
        case Calling => r.held == r.current && |r.calls| > 0 && r.calls[|r.calls| - 1].key == r.current
        case Switching => r.held == r.current
        case Choosing => r.held == 0
        case Reserving(next) => r.held == 0 && next != 0 && next !in r.tried
        case Returning => r.held == 0 || r.held == r.current
        case Returned => r.held == 0)
  }

  /** Pairwise distinct keys, try indexes in order, and every call but the last answered so that a switch is allowed. */
  ghost predicate CallsOk(cfg: Config, r: Runner, deadline: nat) {
    && (forall i | 0 <= i < |r.calls| :: r.calls[i].tryIndex == i && r.calls[i].key in r.tried)
    && (forall i, k | 0 <= i < k < |r.calls| :: r.calls[i].key != r.calls[k].key)
    && |r.answers| == |r.calls| - (if r.pc == Calling then 1 else 0)
    && (forall i | 0 <= i < |r.answers| && (i < |r.calls| - 1 || (Live(r) && r.pc != Calling)) ::
          CanSwitch(cfg, r.answers[i], i + 1, deadline))
    && |r.calls| <= Limit(cfg)
    && (Live(r) ==> |r.calls| == r.attempts)
    && (Live(r) && r.pc != Calling ==> r.attempts < Limit(cfg))
    && r.attempts <= Limit(cfg)
  }

  ghost predicate RunnerOk(cfg: Config, s: State, r: Runner) {
    r.job < |s.jobs| && s.jobs[r.job].status != PendingSubmit && KeysOk(r) && CallsOk(cfg, r, s.jobs[r.job].deadline)
  }

  ghost predicate Inv(cfg: Config, s: State) {
    && SlotsOk(cfg, s)
    && (forall i | 0 <= i < |s.runners| :: RunnerOk(cfg, s, s.runners[i]))
    && (forall i, k | 0 <= i < k < |s.runners| :: s.runners[i].job != s.runners[k].job)
  }

  // ---------------------------------------------------------------------------------------------
  // Preservation

  /** A runner that holds a key is counted for it. */
  lemma HeldIsCounted(cfg: Config, s: State, i: RunnerId)
    requires SlotsOk(cfg, s) && i < |s.runners| && s.runners[i].held != 0
    ensures Count(s.slots, s.runners[i].held) > 0
  {
    var k := s.runners[i].held;
    SumAtLeastRow(s.runners, Holds(k));
    assert Holds(k)(s.runners[i]) == 1;
    assert Count(s.slots, k) == Holders(s, k);
  }

  lemma UpdateHolders(runners: seq<Runner>, i: RunnerId, r: Runner)
    requires i < |runners|
    ensures forall k :: Sum(runners[i := r], Holds(k)) == Sum(runners, Holds(k)) - Holds(k)(runners[i]) + Holds(k)(r)
  {
    forall k ensures Sum(runners[i := r], Holds(k)) == Sum(runners, Holds(k)) - Holds(k)(runners[i]) + Holds(k)(r) {
      SumUpdate(runners, i, r, Holds(k));
    }
  }

  lemma MoveKeepsRunner(cfg: Config, s: State, r: Runner, step: Step)
    requires RunnerOk(cfg, s, r) && IsRunnerStep(step) && Move(cfg, s, r, step).Some?
    ensures RunnerOk(cfg, s, Move(cfg, s, r, step).value.0)
  {
    MoveKeepsKeys(cfg, s, r, step);
    MoveKeepsCalls(cfg, s, r, step);
    hide KeysOk, CallsOk, Move;
  }

  lemma MoveKeepsKeys(cfg: Config, s: State, r: Runner, step: Step)
    requires RunnerOk(cfg, s, r) && IsRunnerStep(step) && Move(cfg, s, r, step).Some?
    ensures KeysOk(Move(cfg, s, r, step).value.0) && Move(cfg, s, r, step).value.0.job == r.job
  {
    hide CanSwitch, HasRoom;
  }

  lemma MoveKeepsCalls(cfg: Config, s: State, r: Runner, step: Step)
    requires RunnerOk(cfg, s, r) && IsRunnerStep(step) && Move(cfg, s, r, step).Some?
    ensures CallsOk(cfg, Move(cfg, s, r, step).value.0, s.jobs[r.job].deadline)
  {
    hide HasRoom;
  }

  /** A move leaves the table and the held key alone, gives the held key back, or takes a new one that has room. */
  ghost predicate SlotEffect(cfg: Config, before: Slots, held: KeyId, after: Slots, now: KeyId) {
    || (after == before && now == held)
    || (held != 0 && now == 0 && after == Released(before, held))
    || (held == 0 && now != 0 && HasRoom(cfg, before, now) && after == Reserved(before, now))
  }

  lemma MoveHasSlotEffect(cfg: Config, s: State, r: Runner, step: Step)
    requires IsRunnerStep(step) && r.job < |s.jobs| && KeysOk(r) && Move(cfg, s, r, step).Some?
    ensures SlotEffect(cfg, s.slots, r.held, Move(cfg, s, r, step).value.1, Move(cfg, s, r, step).value.0.held)
  {
    hide HasRoom, CanSwitch;
  }

  lemma EffectKeepsSlots(cfg: Config, s: State, i: RunnerId, r: Runner, slots: Slots)
    requires SlotsOk(cfg, s) && i < |s.runners| && SlotEffect(cfg, s.slots, s.runners[i].held, slots, r.held)
    ensures SlotsOk(cfg, s.(runners := s.runners[i := r], slots := slots))
  {
    var out := s.(runners := s.runners[i := r], slots := slots);
    var held := s.runners[i].held;
    UpdateHolders(s.runners, i, r);
    if slots != s.slots || held != r.held {
      if held != 0 {
        HeldIsCounted(cfg, s, i);
        ReleasedCounts(s.slots, held);
      } else {
        ReservedCounts(s.slots, r.held);
      }
    }
    forall k ensures Count(out.slots, k) == Holders(out, k) <= cfg.maxSlots {
      assert Count(s.slots, k) == Holders(s, k) <= cfg.maxSlots;
    }
  }

  lemma MoveKeepsSlots(cfg: Config, s: State, step: Step)
    requires Inv(cfg, s) && IsRunnerStep(step) && Next(cfg, s, step).Some?
    ensures SlotsOk(cfg, Take(cfg, s, step))
  {
    hide CallsOk, KeysOk, SlotsOk, Move, SlotEffect;
    var r := s.runners[step.runner];
    assert RunnerOk(cfg, s, r);
    MoveHasSlotEffect(cfg, s, r, step);
    var (moved, slots) := Move(cfg, s, r, step).value;
    EffectKeepsSlots(cfg, s, step.runner, moved, slots);
  }

  lemma RunnerStepKeeps(cfg: Config, s: State, step: Step)
    requires Inv(cfg, s) && IsRunnerStep(step)
    ensures Inv(cfg, Take(cfg, s, step))
  {
    hide SlotsOk;
    if Next(cfg, s, step).Some? {
      MoveKeepsSlots(cfg, s, step);
      var out := Take(cfg, s, step);
      MoveKeepsRunner(cfg, s, s.runners[step.runner], step);
      hide KeysOk, CallsOk, Move;
      forall i | 0 <= i < |out.runners| ensures RunnerOk(cfg, out, out.runners[i]) {
        if i != step.runner {
          assert RunnerOk(cfg, s, s.runners[i]);
        }
      }
      MoveKeepsJob(cfg, s, s.runners[step.runner], step);
    }
  }

  lemma MoveKeepsJob(cfg: Config, s: State, r: Runner, step: Step)
    requires IsRunnerStep(step) && r.job < |s.jobs| && Move(cfg, s, r, step).Some?
    ensures Move(cfg, s, r, step).value.0.job == r.job
  {
  }

  /** Steps that only add jobs, close jobs or submit them leave the runners right. */
  lemma RunnersFrame(cfg: Config, s: State, out: State)
    requires Inv(cfg, s) && out.runners == s.runners
    requires |s.jobs| <= |out.jobs|
    requires forall j | 0 <= j < |s.jobs| :: out.jobs[j].deadline == s.jobs[j].deadline
                                             && (s.jobs[j].status != PendingSubmit ==> out.jobs[j].status != PendingSubmit)
    ensures forall i | 0 <= i < |out.runners| :: RunnerOk(cfg, out, out.runners[i])
  {
    hide SlotsOk;
    forall i | 0 <= i < |out.runners| ensures RunnerOk(cfg, out, out.runners[i]) {
      assert RunnerOk(cfg, s, s.runners[i]);
    }
  }

  lemma SchedulerKeepsSlots(cfg: Config, s: State, step: Step)
    requires Inv(cfg, s) && !IsRunnerStep(step) && !step.Claim?
    ensures SlotsOk(cfg, Take(cfg, s, step))
  {
    hide RunnerOk;
    var out := Take(cfg, s, step);
    if step.Reserve? && s.scheduler.Selected? {
      ReservedCounts(s.slots, s.scheduler.key);
    } else if step.GiveBack? && s.scheduler.GivingBack? {
      SumAtLeastRow(s.runners, Holds(s.scheduler.key));
      assert Count(s.slots, s.scheduler.key) == Holders(s, s.scheduler.key);
      ReleasedCounts(s.slots, s.scheduler.key);
    }
    forall k ensures Count(out.slots, k) == Holders(out, k) <= cfg.maxSlots {
      assert Count(s.slots, k) == Holders(s, k) <= cfg.maxSlots;
    }
  }

  /** A successful claim hands the scheduler's reservation to the new runner. */
  lemma ClaimKeepsSlots(cfg: Config, s: State, step: Step)
    requires Inv(cfg, s) && step.Claim?
    ensures SlotsOk(cfg, Take(cfg, s, step))
  {
    var out := Take(cfg, s, step);
    ClaimHolders(cfg, s, step);
    hide RunnerOk, Take, Holders, Count;
    forall k ensures Count(out.slots, k) == Holders(out, k) <= cfg.maxSlots {
      assert Count(s.slots, k) == Holders(s, k) <= cfg.maxSlots;
    }
  }

  /** A claim moves no slot and nobody's count changes. */
  lemma ClaimHolders(cfg: Config, s: State, step: Step)
    requires s.scheduler != Idle ==> s.scheduler.key != 0
    requires step.Claim?
    ensures Take(cfg, s, step).slots == s.slots
    ensures Take(cfg, s, step).scheduler != Idle ==> Take(cfg, s, step).scheduler.key != 0
    ensures forall k :: Holders(Take(cfg, s, step), k) == Holders(s, k)
  {
    var out := Take(cfg, s, step);
    var j, key := if s.scheduler.Holding? then s.scheduler.job else 0, if s.scheduler == Idle then 0 else s.scheduler.key;
    var r := Runner(j, key, key, {key}, 0, Top, [], []);
    assert out == s || out == s.(scheduler := GivingBack(key))
           || out == s.(scheduler := Idle, jobs := out.jobs, runners := s.runners + [r]);
    assert out != s ==> s.scheduler == Holding(j, key);
    hide Take;
    AppendHolders(s.runners, r);
    hide *;
    forall k ensures Holders(out, k) == Holders(s, k) {
      HandedOver(s, out, j, key, r, k);
    }
  }

  /** One holder of the key takes the place of another. */
  lemma HandedOver(s: State, out: State, j: JobId, key: KeyId, r: Runner, k: KeyId)
    requires out == s || (s.scheduler == Holding(j, key) && key != 0)
    requires out == s || out == s.(scheduler := GivingBack(key))
             || (out.scheduler == Idle && out.runners == s.runners + [r] && r.held == key)
    requires Sum(s.runners + [r], Holds(k)) == Sum(s.runners, Holds(k)) + Holds(k)(r)
    ensures Holders(out, k) == Holders(s, k)
  {
  }

  lemma AppendHolders(runners: seq<Runner>, r: Runner)
    ensures forall k :: Sum(runners + [r], Holds(k)) == Sum(runners, Holds(k)) + Holds(k)(r)
  {
    forall k ensures Sum(runners + [r], Holds(k)) == Sum(runners, Holds(k)) + Holds(k)(r) {
      SumAppend(runners, r, Holds(k));
    }
  }

  lemma NewRunnerIsOk(cfg: Config, s: State, j: JobId, k: KeyId)
    requires j < |s.jobs| && s.jobs[j].status != PendingSubmit && k != 0
    ensures RunnerOk(cfg, s, Runner(j, k, k, {k}, 0, Top, [], []))
  {
  }

  lemma ClaimKeeps(cfg: Config, s: State, step: Step)
    requires Inv(cfg, s) && step.Claim?
    ensures Inv(cfg, Take(cfg, s, step))
  {
    ClaimKeepsSlots(cfg, s, step);
    var out := Take(cfg, s, step);
    if |out.runners| != |s.runners| {
      NewRunnerIsOk(cfg, out, s.scheduler.job, s.scheduler.key);
      hide SlotsOk, KeysOk, CallsOk;
      forall i | 0 <= i < |s.runners| ensures RunnerOk(cfg, out, s.runners[i]) && s.runners[i].job != s.scheduler.job {
        assert RunnerOk(cfg, s, s.runners[i]);
      }
    } else {
      hide SlotsOk, RunnerOk;
      RunnersFrame(cfg, s, out);
    }
  }

  lemma StepKeeps(cfg: Config, s: State, step: Step)
    requires Inv(cfg, s)
    ensures Inv(cfg, Take(cfg, s, step))
  {
    if IsRunnerStep(step) {
      RunnerStepKeeps(cfg, s, step);
    } else if step.Claim? {
      ClaimKeeps(cfg, s, step);
    } else {
      hide SlotsOk, RunnerOk;
      SchedulerKeepsSlots(cfg, s, step);
      RunnersFrame(cfg, s, Take(cfg, s, step));
    }
  }

  lemma {:induction false} RunKeeps(cfg: Config, steps: seq<Step>)
    ensures Inv(cfg, Run(cfg, steps))
  {
    hide SlotsOk, RunnerOk;
    if steps == [] {
      EmptyHolds(cfg);
    } else {
      RunKeeps(cfg, steps[..|steps| - 1]);
      StepKeeps(cfg, Run(cfg, steps[..|steps| - 1]), steps[|steps| - 1]);
    }
  }

  lemma EmptyHolds(cfg: Config)
    ensures Inv(cfg, EMPTY)
  {
  }

  // ---------------------------------------------------------------------------------------------
  // What each step does

  /** An attempt is counted; the call goes out exactly for a usable key and an open job that has not timed out. */
  lemma LoadEffect(cfg: Config, s: State, i: RunnerId, usable: bool)
    requires i < |s.runners| && s.runners[i].job < |s.jobs| && s.runners[i].pc == Top
    ensures var r := s.runners[i];
            var job := s.jobs[r.job];
            var calls := usable && job.status != Closed && s.now <= job.deadline;
            Take(cfg, s, Load(i, usable)) == s.(runners := s.runners[i := r.(
                  attempts := r.attempts + 1,
                  pc := if calls then Calling else Returning,
                  calls := if calls then r.calls + [Call(r.current, r.attempts)] else r.calls)])
  {
  }

  /**
   The runner goes on to another key exactly when the answer is a definite refusal for a reason of this key, nothing
   was confirmed, cancelled or shown to a client, the job has not timed out, and fewer calls than the limit were made.
   */
  lemma AnsweredEffect(cfg: Config, s: State, i: RunnerId, confirmed: bool, cancelled: bool, unaccepted: bool, began: bool)
    requires Inv(cfg, s) && i < |s.runners| && s.runners[i].pc == Calling
    ensures s.runners[i].job < |s.jobs|
    ensures var r := s.runners[i];
            var switches := !confirmed && !cancelled && unaccepted && !began && |r.calls| < cfg.maxAttempts
                            && s.now < s.jobs[r.job].deadline;
            Take(cfg, s, Answered(i, confirmed, cancelled, unaccepted, began)) == s.(runners := s.runners[i := r.(
                  answers := r.answers + [Answer(confirmed, cancelled, unaccepted, began, s.now)],
                  pc := if switches then Switching else Returning)])
  {
    assert RunnerOk(cfg, s, s.runners[i]);
    hide SlotsOk, RunnerOk;
  }

  /** Switching gives the slot back before a key is looked for. */
  lemma SwitchEffect(cfg: Config, s: State, i: RunnerId)
    requires Inv(cfg, s) && i < |s.runners| && s.runners[i].pc == Switching
    ensures var r := s.runners[i];
            var out := Take(cfg, s, ReleaseForSwitch(i));
            && out == s.(runners := s.runners[i := r.(held := 0, pc := Choosing)], slots := out.slots)
            && forall k :: Count(out.slots, k) == Count(s.slots, k) - if k == r.current then 1 else 0
  {
    var r := s.runners[i];
    assert RunnerOk(cfg, s, r);
    HeldIsCounted(cfg, s, i);
    ReleasedCounts(s.slots, r.held);
    hide SlotsOk, CallsOk;
  }

  /** An untried key with a free slot is tried next; without one the runner is done. */
  lemma ChooseEffect(cfg: Config, s: State, i: RunnerId, next: Option<KeyId>)
    requires i < |s.runners| && s.runners[i].job < |s.jobs| && s.runners[i].pc == Choosing
    ensures var r := s.runners[i];
            Take(cfg, s, Choose(i, next))
            == match next
               case None => s.(runners := s.runners[i := r.(pc := Returning)])
               case Some(k) =>
                 if k != 0 && k !in r.tried && Count(s.slots, k) < cfg.maxSlots
                 then s.(runners := s.runners[i := r.(pc := Reserving(k))]) else s
  {
  }

  /** The chosen key's slot is taken if it is still free; otherwise the runner is done. */
  lemma ReserveNextEffect(cfg: Config, s: State, i: RunnerId)
    requires i < |s.runners| && s.runners[i].job < |s.jobs| && s.runners[i].pc.Reserving?
    ensures var r := s.runners[i];
            var k := r.pc.next;
            var out := Take(cfg, s, ReserveNext(i));
            if Count(s.slots, k) < cfg.maxSlots
            then
              && out == s.(runners := s.runners[i := r.(current := k, held := k, tried := r.tried + {k}, pc := Top)],
                           slots := out.slots)
              && forall x :: Count(out.slots, x) == Count(s.slots, x) + if x == k then 1 else 0
            else out == s.(runners := s.runners[i := r.(pc := Returning)])
  {
  }

  /** On the way out a slot still held is given back. */
  lemma LeaveEffect(cfg: Config, s: State, i: RunnerId)
    requires Inv(cfg, s) && i < |s.runners| && s.runners[i].pc == Returning
    ensures var r := s.runners[i];
            var out := Take(cfg, s, Leave(i));
            && out == s.(runners := s.runners[i := r.(held := 0, pc := Returned)], slots := out.slots)
            && forall k :: Count(out.slots, k) == Count(s.slots, k) - if r.held != 0 && k == r.held then 1 else 0
  {
    var r := s.runners[i];
    assert RunnerOk(cfg, s, r);
    if r.held != 0 {
      HeldIsCounted(cfg, s, i);
      ReleasedCounts(s.slots, r.held);
    }
    hide SlotsOk, CallsOk;
  }

  /** The idle scheduler selects a job that has not timed out and a key with a free slot, and then takes the slot. */
  lemma SelectEffect(cfg: Config, s: State, j: JobId, k: KeyId)
    ensures Take(cfg, s, Select(j, k))
            == if s.scheduler == Idle && j < |s.jobs| && s.now <= s.jobs[j].deadline && k != 0 && Count(s.slots, k) < cfg.maxSlots
               then s.(scheduler := Selected(j, k)) else s
  {
  }

  lemma ReserveEffect(cfg: Config, s: State)
    requires s.scheduler.Selected?
    ensures var out := Take(cfg, s, Reserve);
            if Count(s.slots, s.scheduler.key) < cfg.maxSlots
            then
              && out == s.(scheduler := Holding(s.scheduler.job, s.scheduler.key), slots := out.slots)
              && forall x :: Count(out.slots, x) == Count(s.slots, x) + if x == s.scheduler.key then 1 else 0
            else out == s.(scheduler := Idle)
  {
  }

  /** A claim starts a runner exactly on a job still pending and not timed out; otherwise the slot goes back. */
  lemma ClaimEffect(cfg: Config, s: State, dbError: bool)
    requires s.scheduler.Holding? && s.scheduler.job < |s.jobs|
    ensures var j, k := s.scheduler.job, s.scheduler.key;
            var job := s.jobs[j];
            Take(cfg, s, Claim(dbError))
            == if !dbError && job.status == PendingSubmit && s.now <= job.deadline
               then s.(scheduler := Idle, jobs := s.jobs[j := Job(Submitted, job.deadline)],
                       runners := s.runners + [Runner(j, k, k, {k}, 0, Top, [], [])])
               else s.(scheduler := GivingBack(k))
  {
  }

  lemma GiveBackEffect(cfg: Config, s: State)
    requires SlotsOk(cfg, s) && s.scheduler.GivingBack?
    ensures var out := Take(cfg, s, GiveBack);
            && out == s.(scheduler := Idle, slots := out.slots)
            && forall k :: Count(out.slots, k) == Count(s.slots, k) - if k == s.scheduler.key then 1 else 0
  {
    var k := s.scheduler.key;
    SumAtLeastRow(s.runners, Holds(k));
    assert Count(s.slots, k) == Holders(s, k);
    ReleasedCounts(s.slots, k);
  }

  // ---------------------------------------------------------------------------------------------
  // Theorems

  /** Every key's active count is its number of live holders and never exceeds the limit. */
  lemma SlotsAreExact(cfg: Config, steps: seq<Step>, k: KeyId)
    ensures var s := Run(cfg, steps);
            Count(s.slots, k) == Holders(s, k) <= cfg.maxSlots
  {
    RunKeeps(cfg, steps);
  }

  /** An upstream call runs only on a key whose slot its runner holds. */
  lemma CallsRunOnHeldKeys(cfg: Config, steps: seq<Step>, i: RunnerId)
    requires i < |Run(cfg, steps).runners| && Run(cfg, steps).runners[i].pc == Calling
    ensures var s := Run(cfg, steps);
            var r := s.runners[i];
            r.held != 0 && |r.calls| > 0 && r.held == r.current == r.calls[|r.calls| - 1].key && Count(s.slots, r.held) > 0
  {
    RunKeeps(cfg, steps);
    assert RunnerOk(cfg, Run(cfg, steps), Run(cfg, steps).runners[i]);
    HeldIsCounted(cfg, Run(cfg, steps), i);
  }

  /** When the scheduler is idle and every runner has returned, no slot is taken. */
  lemma QuiescentIsEmpty(cfg: Config, steps: seq<Step>)
    requires var s := Run(cfg, steps);
             (s.scheduler == Idle || s.scheduler.Selected?) && forall i | 0 <= i < |s.runners| :: s.runners[i].pc == Returned
    ensures Run(cfg, steps).slots == map[]
  {
    RunKeeps(cfg, steps);
    var s := Run(cfg, steps);
    forall k ensures Count(s.slots, k) == Count(map[], k) {
      forall i | 0 <= i < |s.runners| ensures Holds(k)(s.runners[i]) == 0 {
        assert RunnerOk(cfg, s, s.runners[i]);
      }
      SumZero(s.runners, Holds(k));
      assert Count(s.slots, k) == Holders(s, k);
    }
    CountsDetermineSlots(s.slots, map[]);
  }

  /** A job is claimed by at most one runner. */
  lemma ClaimedAtMostOnce(cfg: Config, steps: seq<Step>, i: RunnerId, k: RunnerId)
    requires i < k < |Run(cfg, steps).runners|
    ensures Run(cfg, steps).runners[i].job != Run(cfg, steps).runners[k].job
  {
    RunKeeps(cfg, steps);
  }

  /**
   A runner makes at most max(1, MaxAttemptsPerJob) calls, on distinct keys and with distinct try indexes, and
   every call but its last was definitely unaccepted for a key-specific reason, before any public output and
   before the job's queue timeout.
   */
  lemma RunnerCalls(cfg: Config, steps: seq<Step>, i: RunnerId)
    requires i < |Run(cfg, steps).runners|
    ensures var s := Run(cfg, steps);
            var r := s.runners[i];
            && r.job < |s.jobs|
            && |r.calls| <= (if cfg.maxAttempts == 0 then 1 else cfg.maxAttempts)
            && (forall a, b | 0 <= a < b < |r.calls| :: r.calls[a].key != r.calls[b].key && r.calls[a].tryIndex != r.calls[b].tryIndex)
            && (forall a | 0 <= a < |r.calls| - 1 ::
                  a < |r.answers| && r.answers[a].keySpecificUnaccepted && !r.answers[a].publicOutputBegan
                  && !r.answers[a].confirmed && !r.answers[a].cancelled && r.answers[a].at < s.jobs[r.job].deadline)
  {
    RunKeeps(cfg, steps);
    assert RunnerOk(cfg, Run(cfg, steps), Run(cfg, steps).runners[i]);
  }

  function Rank(pc: Pc): nat {
    match pc
    case Returned => 0
    case Returning => 1
    case Top => 2
    case Reserving(_) => 3
    case Choosing => 4
    case Switching => 5
    case Calling => 6
  }

  /** Bounds the steps a runner still has to take. */
  function Measure(cfg: Config, r: Runner): int { 8 * (Limit(cfg) - r.attempts) + Rank(r.pc) }

  lemma MoveDecreases(cfg: Config, s: State, r: Runner, step: Step)
    requires RunnerOk(cfg, s, r) && IsRunnerStep(step) && Move(cfg, s, r, step).Some?
    ensures 0 <= Measure(cfg, Move(cfg, s, r, step).value.0) < Measure(cfg, r)
  {
  }

  /** Whatever the state, a runner that has not returned can take a step as soon as its pending call is answered. */
  lemma RunnerCanMove(cfg: Config, s: State, i: RunnerId)
    requires Inv(cfg, s) && i < |s.runners| && s.runners[i].pc != Returned
    ensures exists step :: IsRunnerStep(step) && step.runner == i && Next(cfg, s, step).Some?
  {
    var r := s.runners[i];
    assert RunnerOk(cfg, s, r);
    var step := match r.pc
      case Top => Load(i, true)
      case Calling => Answered(i, true, false, false, false)
      case Switching => ReleaseForSwitch(i)
      case Choosing => Choose(i, None)
      case Reserving(_) => ReserveNext(i)
      case _ => Leave(i);
    assert IsRunnerStep(step) && Next(cfg, s, step).Some?;
  }

  function StepsOf(cfg: Config, steps: seq<Step>, i: RunnerId): nat {
    if steps == [] then 0
    else
      var n := |steps| - 1;
      var step := steps[n];
      StepsOf(cfg, steps[..n], i)
      + if IsRunnerStep(step) && step.runner == i && Next(cfg, Run(cfg, steps[..n]), step).Some? then 1 else 0
  }

  lemma StepOnRunner(cfg: Config, s: State, step: Step, i: RunnerId)
    requires Inv(cfg, s) && i < |s.runners|
    ensures var out := Take(cfg, s, step);
            && i < |out.runners|
            && (if IsRunnerStep(step) && step.runner == i && Next(cfg, s, step).Some?
                then 0 <= Measure(cfg, out.runners[i]) < Measure(cfg, s.runners[i])
                else out.runners[i] == s.runners[i])
  {
    assert RunnerOk(cfg, s, s.runners[i]);
    hide SlotsOk, RunnerOk;
    if IsRunnerStep(step) && step.runner == i && Next(cfg, s, step).Some? {
      MoveDecreases(cfg, s, s.runners[i], step);
    }
    hide Move;
  }

  /** A runner is claimed with all its steps ahead, and takes none before. */
  lemma NewRunner(cfg: Config, s: State, step: Step, i: RunnerId)
    requires i >= |s.runners|
    ensures var out := Take(cfg, s, step);
            i < |out.runners| ==> Measure(cfg, out.runners[i]) == 8 * Limit(cfg) + 2
    ensures !(IsRunnerStep(step) && step.runner == i && Next(cfg, s, step).Some?)
  {
    hide Move, HasRoom;
  }

  /** In any run, and whatever everyone else does, a runner takes at most 8 * max(1, MaxAttemptsPerJob) + 2 steps. */
  lemma {:induction false} RunnerStepsAreBounded(cfg: Config, steps: seq<Step>, i: RunnerId)
    ensures var s := Run(cfg, steps);
            if i < |s.runners|
            then 0 <= Measure(cfg, s.runners[i]) && Measure(cfg, s.runners[i]) + StepsOf(cfg, steps, i) <= 8 * Limit(cfg) + 2
            else StepsOf(cfg, steps, i) == 0
  {
    hide Inv, Take, Next, Measure, Limit;
    if steps != [] {
      var n := |steps| - 1;
      var before := Run(cfg, steps[..n]);
      RunKeeps(cfg, steps[..n]);
      RunnerStepsAreBounded(cfg, steps[..n], i);
      if i < |before.runners| {
        StepOnRunner(cfg, before, steps[n], i);
      } else {
        NewRunner(cfg, before, steps[n], i);
        LimitIsPositive(cfg);
      }
    }
  }

  lemma LimitIsPositive(cfg: Config)
    ensures Limit(cfg) >= 1
  {
  }
}
