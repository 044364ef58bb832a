/** The pool that serves request handlers: workers are started on demand up to a maximum and retire when idle;
    draining closes the gate, waits for the senders, closes the channel and waits for the workers. */
module RpcPool {
  import opened Numbers

  datatype Policy = Policy(minWorkers: nat, maxWorkers: nat, depth: nat)

  /** The fields under the pool's lock. */
  datatype Core = Core(stopping: bool, live: nat, pending: nat)

  function Grown(c: Core, policy: Policy): Core {
    if c.pending <= c.live || c.live >= policy.maxWorkers then c else c.(live := c.live + 1)
  }

  function Admitted(c: Core, policy: Policy): Core {
    if c.stopping then c else Grown(c.(pending := c.pending + 1), policy)
  }

  predicate MayRetire(c: Core, policy: Policy) {
    c.live > policy.minWorkers && c.pending < c.live
  }

  type Job = nat

  datatype Place = Sending | Queued | Running | Completed | Refused

  /** Where every submitted job stands; `handled` are those whose handler ran. A sender waits to put its job into the
      channel; a running job occupies one worker. */
  datatype State = State(core: Core, place: map<Job, Place>, handled: set<Job>, workClosed: bool, drained: bool)

  function Jobs(s: State, p: Place): set<Job> {
    set j | j in s.place && s.place[j] == p
  }

  function Count(s: State, p: Place): nat {
    |Jobs(s, p)|
  }

  function Idle(s: State): int {
    s.core.live - Count(s, Running)
  }

  datatype Step =
    | Submit(j: Job)               // admitted, or answered that the service is draining
    | Enqueue(j: Job)              // a sender's job goes into the buffer
    | Handoff(j: Job)              // or straight to an idle worker
    | Take(j: Job)
    | Finish(j: Job, expired: bool)
    | Retire
    | CloseGate
    | CloseWork
    | Exit                         // an idle worker finds the closed channel empty
    | Drained

  predicate Is(s: State, j: Job, p: Place) {
    j in s.place && s.place[j] == p
  }

  predicate Ready(policy: Policy, s: State, step: Step) {
    match step
    case Submit(j) => j !in s.place
    case Enqueue(j) => Is(s, j, Sending) && Count(s, Queued) < policy.depth
    case Handoff(j) => Is(s, j, Sending) && Count(s, Queued) == 0 && Idle(s) > 0
    case Take(j) => Is(s, j, Queued) && Idle(s) > 0
    case Finish(j, _) => Is(s, j, Running) && s.core.pending > 0
    case Retire => Idle(s) > 0 && MayRetire(s.core, policy)
    case CloseGate => true
    case CloseWork => s.core.stopping && Count(s, Sending) == 0
    case Exit => s.workClosed && Count(s, Queued) == 0 && Idle(s) > 0 && s.core.live > 0
    case Drained => s.workClosed && s.core.live == 0
  }

  function Next(policy: Policy, s: State, step: Step): State
    requires Ready(policy, s, step)
  {
    match step
    case Submit(j) =>
      if s.core.stopping then s.(place := s.place[j := Refused])
      else s.(core := Admitted(s.core, policy), place := s.place[j := Sending])
    case Enqueue(j) => s.(place := s.place[j := Queued])
    case Handoff(j) => s.(place := s.place[j := Running])
    case Take(j) => s.(place := s.place[j := Running])
    case Finish(j, expired) =>
      s.(core := s.core.(pending := s.core.pending - 1), place := s.place[j := Completed],
         handled := if expired then s.handled else s.handled + {j})
    case Retire => s.(core := s.core.(live := s.core.live - 1))
    case CloseGate => s.(core := s.core.(stopping := true))
    case CloseWork => s.(workClosed := true)
    case Exit => s.(core := s.core.(live := s.core.live - 1))
    case Drained => s.(drained := true)
  }

  ghost predicate Init(s: State) {
    s == State(Core(false, 0, 0), map[], {}, false, false)
  }

  ghost predicate Inv(policy: Policy, s: State) {
    && s.core.pending == Count(s, Sending) + Count(s, Queued) + Count(s, Running)
    && Least(s.core.pending, policy.maxWorkers) <= s.core.live <= policy.maxWorkers
    && Count(s, Running) <= s.core.live && Count(s, Queued) <= policy.depth
    && (s.workClosed ==> s.core.stopping && Count(s, Sending) == 0)
    && (s.drained ==> s.workClosed && s.core.live == 0 && s.core.pending == 0)
    && (forall j :: j in s.handled ==> Is(s, j, Completed))
  }

  /** Moving a job changes two counts by one. */
  lemma Moved(s: State, t: State, j: Job, dest: Place, p: Place)
    requires t.place == s.place[j := dest]
    ensures Count(t, p) == Count(s, p) - (if Is(s, j, p) then 1 else 0) + (if p == dest then 1 else 0)
  {
    var before, after := Jobs(s, p), Jobs(t, p);
    forall k ensures k in after <==> if k == j then p == dest else k in before {
      assert k != j ==> (k in t.place <==> k in s.place);
    }
    OneMemberChanges(before, after, j);
  }

  lemma OneMemberChanges(before: set<Job>, after: set<Job>, j: Job)
    requires forall k :: k != j ==> (k in after <==> k in before)
    ensures |after| == |before| - (if j in before then 1 else 0) + (if j in after then 1 else 0)
  {
    var rest := before - {j};
    assert after - {j} == rest;
    assert before == if j in before then rest + {j} else rest;
    assert after == if j in after then rest + {j} else rest;
  }

  lemma StepHolds(policy: Policy, s: State, step: Step)
    requires policy.maxWorkers >= 1 && Inv(policy, s) && Ready(policy, s, step)
    ensures Inv(policy, Next(policy, s, step))
  {
    var t := Next(policy, s, step);
    if step.Submit? || step.Enqueue? || step.Handoff? || step.Take? || step.Finish? {
      var dest := t.place[step.j];
      Moved(s, t, step.j, dest, Sending);
      Moved(s, t, step.j, dest, Queued);
      Moved(s, t, step.j, dest, Running);
    } else {
      assert t.place == s.place;
      assert forall p :: Jobs(t, p) == Jobs(s, p);
    }
  }

  ghost predicate Feasible(policy: Policy, s: State, steps: seq<Step>)
    decreases |steps|
  {
    steps != [] ==> Ready(policy, s, steps[0]) && Feasible(policy, Next(policy, s, steps[0]), steps[1..])
  }

  function Run(policy: Policy, s: State, steps: seq<Step>): State
    requires Feasible(policy, s, steps)
    decreases |steps|
  {
    if steps == [] then s else Run(policy, Next(policy, s, steps[0]), steps[1..])
  }

  lemma {:induction false} RunHolds(policy: Policy, s: State, steps: seq<Step>)
    requires policy.maxWorkers >= 1 && Inv(policy, s) && Feasible(policy, s, steps)
    ensures Inv(policy, Run(policy, s, steps))
    decreases |steps|
  {
    if steps != [] {
      StepHolds(policy, s, steps[0]);
      RunHolds(policy, Next(policy, s, steps[0]), steps[1..]);
    }
  }

  lemma InitHolds(policy: Policy, s: State)
    requires Init(s)
    ensures Inv(policy, s)
  {
    assert forall p :: Jobs(s, p) == {};
  }

  /** At every moment of every run: the pending jobs are those being sent, queued or run; there are as many workers as
      pending jobs or the most allowed; when the channel is closed nobody is left to send on it; and a job that waits
      finds an idle worker unless every worker allowed is busy. The channel's buffer is never exceeded. */
  lemma AlwaysStaffed(policy: Policy, s: State, steps: seq<Step>)
    requires policy.maxWorkers >= 1 && Init(s) && Feasible(policy, s, steps)
    ensures var t := Run(policy, s, steps);
      && t.core.pending == Count(t, Sending) + Count(t, Queued) + Count(t, Running)
      && Least(t.core.pending, policy.maxWorkers) <= t.core.live <= policy.maxWorkers
      && (t.workClosed ==> Count(t, Sending) == 0 && t.core.stopping) && Count(t, Queued) <= policy.depth
      && (Count(t, Sending) + Count(t, Queued) > 0 ==> Idle(t) > 0 || Count(t, Running) == policy.maxWorkers)
  {
    InitHolds(policy, s);
    RunHolds(policy, s, steps);
  }

  /** A job that was admitted stays admitted, and one that was completed stays completed; its handler, which ran at
      its completion or not at all, is not run again. */
  lemma {:induction false} JobsStay(policy: Policy, s: State, steps: seq<Step>, j: Job)
    requires policy.maxWorkers >= 1 && Inv(policy, s) && Feasible(policy, s, steps) && j in s.place
    ensures var t := Run(policy, s, steps);
      && j in t.place && (t.place[j] == Refused <==> s.place[j] == Refused)
      && (s.place[j] == Completed ==> t.place[j] == Completed && (j in t.handled <==> j in s.handled))
    decreases |steps|
  {
    if steps != [] {
      StepHolds(policy, s, steps[0]);
      JobsStay(policy, Next(policy, s, steps[0]), steps[1..], j);
    }
  }

  /** A job's handler has run exactly if it was finished in time: an expired job is completed without it. */
  lemma {:induction false} HandledIff(policy: Policy, s: State, steps: seq<Step>, j: Job)
    requires Feasible(policy, s, steps)
    ensures j in Run(policy, s, steps).handled <==> j in s.handled || Finish(j, false) in steps
    decreases |steps|
  {
    if steps != [] {
      HandledIff(policy, Next(policy, s, steps[0]), steps[1..], j);
      assert steps == [steps[0]] + steps[1..];
    }
  }

  lemma {:induction false} StoppingIff(policy: Policy, s: State, steps: seq<Step>)
    requires Feasible(policy, s, steps)
    ensures Run(policy, s, steps).core.stopping <==> s.core.stopping || CloseGate in steps
    decreases |steps|
  {
    if steps != [] {
      StoppingIff(policy, Next(policy, s, steps[0]), steps[1..]);
      assert steps == [steps[0]] + steps[1..];
    }
  }

  /** A job is refused exactly if the gate was closed before it was submitted; otherwise it is counted in. */
  lemma RefusedIffClosed(policy: Policy, s: State, steps: seq<Step>, j: Job)
    requires Init(s) && Feasible(policy, s, steps) && j !in Run(policy, s, steps).place
    ensures var t := Run(policy, s, steps);
      && Ready(policy, t, Submit(j))
      && var u := Next(policy, t, Submit(j));
        && Is(u, j, if CloseGate in steps then Refused else Sending)
        && u.core.pending == t.core.pending + if CloseGate in steps then 0 else 1
  {
    StoppingIff(policy, s, steps);
  }

  /** When the pool reports that it has drained, every job it had admitted at any earlier moment has been handed to a
      worker and completed, its handler has run unless it had expired, and no worker is left. */
  lemma DrainCompletesEverything(policy: Policy, s: State, earlier: seq<Step>, later: seq<Step>, j: Job)
    requires policy.maxWorkers >= 1 && Init(s) && Feasible(policy, s, earlier)
    requires Feasible(policy, Run(policy, s, earlier), later) && Run(policy, Run(policy, s, earlier), later).drained
    requires j in Run(policy, s, earlier).place && Run(policy, s, earlier).place[j] != Refused
    ensures var t := Run(policy, Run(policy, s, earlier), later);
      && Is(t, j, Completed) && t.core.live == 0 && t.core.pending == 0
      && (j in t.handled <==> Finish(j, false) in earlier + later)
  {
    InitHolds(policy, s);
    RunHolds(policy, s, earlier);
    RunHolds(policy, Run(policy, s, earlier), later);
    JobsStay(policy, Run(policy, s, earlier), later, j);
    HandledIff(policy, s, earlier, j);
    HandledIff(policy, Run(policy, s, earlier), later, j);
    var t := Run(policy, Run(policy, s, earlier), later);
    assert j in Jobs(t, t.place[j]);
  }

  lemma Member(s: State, p: Place) returns (j: Job)
    requires Count(s, p) > 0
    ensures Is(s, j, p)
  {
    j :| j in Jobs(s, p);
  }

  /** While a job is pending, some worker can finish one, or take one. */
  lemma SomeoneMoves(policy: Policy, s: State) returns (step: Step)
    requires policy.maxWorkers >= 1 && Inv(policy, s) && s.core.pending > 0
    ensures Ready(policy, s, step) && (step.Finish? || step.Take? || step.Handoff?)
    ensures step.Finish? ==> !step.expired
  {
    if Count(s, Running) > 0 {
      var j := Member(s, Running);
      step := Finish(j, false);
    } else if Count(s, Queued) > 0 {
      var j := Member(s, Queued);
      step := Take(j);
    } else {
      var j := Member(s, Sending);
      step := Handoff(j);
    }
  }

  lemma FewerWait(policy: Policy, s: State, step: Step)
    requires Ready(policy, s, step) && (step.Finish? || step.Take? || step.Handoff?)
    ensures var t := Next(policy, s, step);
      && t.core.stopping == s.core.stopping
      && (step.Finish? ==> t.core.pending == s.core.pending - 1)
      && (!step.Finish? ==> t.core.pending == s.core.pending
                            && Count(t, Sending) + Count(t, Queued) < Count(s, Sending) + Count(s, Queued))
  {
    var t := Next(policy, s, step);
    Moved(s, t, step.j, t.place[step.j], Sending);
    Moved(s, t, step.j, t.place[step.j], Queued);
  }

  lemma Prepend(policy: Policy, s: State, step: Step, rest: seq<Step>)
    requires Ready(policy, s, step) && Feasible(policy, Next(policy, s, step), rest)
    ensures Feasible(policy, s, [step] + rest)
    ensures Run(policy, s, [step] + rest) == Run(policy, Next(policy, s, step), rest)
  {
    assert ([step] + rest)[1..] == rest;
  }

  /** The teardown cannot get stuck: from every state in which the gate is closed the pool can drain. */
  lemma {:induction false} CanDrain(policy: Policy, s: State) returns (steps: seq<Step>)
    requires policy.maxWorkers >= 1 && Inv(policy, s) && s.core.stopping
    ensures Feasible(policy, s, steps) && Run(policy, s, steps).drained
    decreases s.core.pending, Count(s, Sending) + Count(s, Queued), if s.workClosed then 0 else 1, s.core.live
  {
    if s.core.pending > 0 {
      var step := SomeoneMoves(policy, s);
      StepHolds(policy, s, step);
      FewerWait(policy, s, step);
      var rest := CanDrain(policy, Next(policy, s, step));
      Prepend(policy, s, step, rest);
      steps := [step] + rest;
    } else if s.workClosed && s.core.live == 0 {
      steps := [Drained];
      Prepend(policy, s, Drained, []);
      assert [Drained] + [] == [Drained];
    } else {
      var step := if s.workClosed then Exit else CloseWork;
      StepHolds(policy, s, step);
      assert Jobs(Next(policy, s, step), Sending) == Jobs(s, Sending);
      assert Jobs(Next(policy, s, step), Queued) == Jobs(s, Queued);
      var rest := CanDrain(policy, Next(policy, s, step));
      Prepend(policy, s, step, rest);
      steps := [step] + rest;
    }
  }

  /** So it can be shut down from every state. */
  lemma CanShutDown(policy: Policy, s: State) returns (steps: seq<Step>)
    requires policy.maxWorkers >= 1 && Inv(policy, s)
    ensures Feasible(policy, s, steps) && Run(policy, s, steps).drained
  {
    StepHolds(policy, s, CloseGate);
    var rest := CanDrain(policy, Next(policy, s, CloseGate));
    Prepend(policy, s, CloseGate, rest);
    steps := [CloseGate] + rest;
  }

  /** Workers are started only for jobs that have none, and retire only above the minimum and when the others
      suffice. */
  lemma OnlyAsManyAsNeeded(policy: Policy, s: State, step: Step)
    requires Ready(policy, s, step)
    ensures var c, d := s.core, Next(policy, s, step).core;
      && (d.live > c.live ==> step.Submit? && d.live == c.live + 1 && d.pending > c.live)
      && (step.Retire? ==> d.live == c.live - 1 >= policy.minWorkers && d.pending == c.pending <= d.live)
  {
  }

  /** A pool without jobs shrinks to its minimum. */
  lemma {:induction false} ShrinksToMinimum(policy: Policy, s: State) returns (steps: seq<Step>)
    requires policy.maxWorkers >= 1 && Inv(policy, s) && s.core.pending == 0
    ensures Feasible(policy, s, steps) && (forall x :: x in steps ==> x == Retire)
    ensures Run(policy, s, steps).core.live == Least(s.core.live, policy.minWorkers)
    decreases s.core.live
  {
    if s.core.live <= policy.minWorkers {
      steps := [];
    } else {
      StepHolds(policy, s, Retire);
      var rest := ShrinksToMinimum(policy, Next(policy, s, Retire));
      Prepend(policy, s, Retire, rest);
      steps := [Retire] + rest;
    }
  }

  // ---------- The counters as the program keeps them ----------

  class Counters {
    const policy: Policy
    var stopping: bool
    var live: nat
    var pending: nat

    function Value(): Core
      reads this
    {
      Core(stopping, live, pending)
    }

    constructor (policy: Policy)
      ensures this.policy == policy && Value() == Core(false, 0, 0)
    {
      this.policy := policy;
      stopping, live, pending := false, 0, 0;
    }

    /** Counts a job in and starts a worker for it if one is needed and allowed. */
    method Admit() returns (ok: bool, started: bool)
      modifies this
      ensures ok == !old(stopping)
      ensures Value() == Admitted(old(Value()), policy)
      ensures started == (live == old(live) + 1)
    {
      started := false;
      if stopping {
        return false, false;
      }
      pending := pending + 1;
      if !(pending <= live || live >= policy.maxWorkers) {
        live := live + 1;
        started := true;
      }
      ok := true;
    }

    /** An idle worker's attempt to leave. */
    method RetireSelf() returns (left: bool)
      modifies this
      ensures left == MayRetire(old(Value()), policy)
      ensures Value() == if left then old(Value()).(live := old(live) - 1) else old(Value())
    {
      if live <= policy.minWorkers || pending >= live {
        return false;
      }
      live := live - 1;
      left := true;
    }

    method DropWorker()
      requires live > 0
      modifies this
      ensures Value() == old(Value()).(live := old(live) - 1)
    {
      live := live - 1;
    }

    method Complete()
      requires pending > 0
      modifies this
      ensures Value() == old(Value()).(pending := old(pending) - 1)
    {
      pending := pending - 1;
    }

    method CloseGate()
      modifies this
      ensures Value() == old(Value()).(stopping := true)
    {
      stopping := true;
    }
  }
}
