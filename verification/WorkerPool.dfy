/** One consumer unit: the admission gate's capacity, the workers that serve it, and the retire tokens by which
    surplus workers are called in. Scaling, dispatch and shutdown interleave step by step. */
module WorkerPool {

  datatype Scaling = Steady | Growing(target: nat) | Shrinking(target: nat)

  /** `tokens` lie in the retire channel, `queued` in the work channel; both channels hold `max`. `sending` readers
      hold a slot and are about to send; `busy` workers run a handler; `exited` workers saw the work channel end. */
  datatype Unit = Unit(max: nat, capacity: nat, desired: nat, scaling: Scaling,
                       live: nat, tokens: nat, busy: nat, exited: nat,
                       inflight: nat, sending: nat, queued: nat, readersDone: bool, workClosed: bool)

  datatype Step =
    | SetRoutines(n: nat)
    | Resize        // one round of the resize loop, or its end
    | Retire        // an idle worker takes a token and leaves
    | Admit         // the gate gives a reader a slot
    | Send
    | Take
    | Finish        // a handler returns and its slot with it
    | ReadersExit
    | CloseWork
    | Exit          // an idle worker finds the closed channel empty

  predicate Ready(u: Unit, s: Step) {
    match s
    case SetRoutines(n) => u.scaling.Steady? && 1 <= n <= u.max
    case Resize => !u.scaling.Steady?
    case Retire => u.tokens > 0 && u.busy < u.live
    case Admit => !u.readersDone && u.inflight < u.capacity
    case Send => u.sending > 0 && u.queued < u.max
    case Take => u.queued > 0 && u.busy < u.live
    case Finish => u.busy > 0 && u.inflight > 0
    case ReadersExit => u.sending == 0
    case CloseWork => u.readersDone
    case Exit => u.workClosed && u.queued == 0 && u.busy < u.live
  }

  /** One more desired worker: an outstanding token is taken back before a worker is started. */
  function Grow(u: Unit): Unit {
    if u.tokens > 0 then u.(desired := u.desired + 1, tokens := u.tokens - 1)
    else u.(desired := u.desired + 1, live := u.live + 1)
  }

  /** One less desired worker; a token that finds the channel full is lost. */
  function Shrink(u: Unit): Unit
    requires u.desired > 0
  {
    if u.tokens < u.max then u.(desired := u.desired - 1, tokens := u.tokens + 1) else u.(desired := u.desired - 1)
  }

  function Next(u: Unit, s: Step): Unit
    requires Ready(u, s)
  {
    match s
    case SetRoutines(n) =>
      if n > u.capacity then u.(scaling := Growing(n)) else u.(scaling := Shrinking(n), capacity := n)
    case Resize =>
      (match u.scaling
       case Growing(n) =>
         if u.desired < n then Grow(u) else if u.desired > n then Shrink(u) else u.(scaling := Steady, capacity := n)
       case Shrinking(n) =>
         if u.desired < n then Grow(u) else if u.desired > n then Shrink(u) else u.(scaling := Steady)
       case Steady => u)
    case Retire => u.(tokens := u.tokens - 1, live := u.live - 1)
    case Admit => u.(inflight := u.inflight + 1, sending := u.sending + 1)
    case Send => u.(sending := u.sending - 1, queued := u.queued + 1)
    case Take => u.(queued := u.queued - 1, busy := u.busy + 1)
    case Finish => u.(busy := u.busy - 1, inflight := u.inflight - 1)
    case ReadersExit => u.(readersDone := true)
    case CloseWork => u.(workClosed := true)
    case Exit => u.(live := u.live - 1, exited := u.exited + 1)
  }

  /** A unit starts with as many workers as its gate has slots. */
  ghost predicate Init(u: Unit) {
    && 1 <= u.capacity == u.desired == u.live <= u.max && u.scaling.Steady?
    && u.tokens == 0 && u.busy == 0 && u.exited == 0
    && u.inflight == 0 && u.sending == 0 && u.queued == 0 && !u.readersDone && !u.workClosed
  }

  ghost predicate Inv(u: Unit) {
    && u.inflight == u.sending + u.queued + u.busy <= u.max
    && u.live + u.exited == u.desired + u.tokens
    && 1 <= u.capacity <= u.desired <= u.max
    && u.live + u.exited <= u.max && u.busy <= u.live
    && (match u.scaling
        case Steady => u.desired == u.capacity
        case Growing(n) => u.capacity <= u.desired <= n <= u.max
        case Shrinking(n) => u.capacity == n <= u.desired)
    && (u.exited > 0 ==> u.workClosed && u.queued == 0)
    && (u.workClosed ==> u.readersDone) && (u.readersDone ==> u.sending == 0)
  }

  ghost predicate Feasible(u: Unit, steps: seq<Step>)
    decreases |steps|
  {
    steps != [] ==> Ready(u, steps[0]) && Feasible(Next(u, steps[0]), steps[1..])
  }

  function Run(u: Unit, steps: seq<Step>): Unit
    requires Feasible(u, steps)
    decreases |steps|
  {
    if steps == [] then u else Run(Next(u, steps[0]), steps[1..])
  }

  lemma ResizeHolds(u: Unit)
    requires Inv(u) && !u.scaling.Steady?
    ensures Inv(Next(u, Resize))
  {
  }

  lemma ScalingHolds(u: Unit, n: nat)
    requires Inv(u) && Ready(u, SetRoutines(n))
    ensures Inv(Next(u, SetRoutines(n)))
  {
  }

  lemma WorkHolds(u: Unit, s: Step)
    requires Inv(u) && Ready(u, s) && !s.Resize? && !s.SetRoutines?
    ensures Inv(Next(u, s))
  {
  }

  lemma StepHolds(u: Unit, s: Step)
    requires Inv(u) && Ready(u, s)
    ensures Inv(Next(u, s))
  {
    match s
    case Resize => ResizeHolds(u);
    case SetRoutines(n) => ScalingHolds(u, n);
    case _ => WorkHolds(u, s);
  }

  lemma {:induction false} RunHolds(u: Unit, steps: seq<Step>)
    requires Inv(u) && Feasible(u, steps)
    ensures Inv(Run(u, steps))
    decreases |steps|
  {
    if steps != [] {
      StepHolds(u, steps[0]);
      RunHolds(Next(u, steps[0]), steps[1..]);
    }
  }

  /** At every moment of every run: the live workers are the desired ones and those a token still has to reach, and
      until the channel is closed there are at least as many as the gate admits; a reader that holds a slot can send
      at once and on an open channel; and a worker to be retired always gets its token. */
  lemma AlwaysServed(u: Unit, steps: seq<Step>)
    requires Init(u) && Feasible(u, steps)
    ensures var v := Run(u, steps);
      && (v.exited == 0 ==> v.live == v.desired + v.tokens && v.live >= v.desired >= v.capacity)
      && (v.sending > 0 ==> Ready(v, Send) && !v.workClosed)
      && (!v.scaling.Steady? && v.desired > v.scaling.target ==> Shrink(v).tokens == v.tokens + 1)
      && (v.queued > 0 ==> v.exited == 0 && v.live >= 1)
  {
    RunHolds(u, steps);
  }

  /** When the last worker is gone, the readers have gone before it and everything they sent has been handled. */
  lemma DrainsCompletely(u: Unit, steps: seq<Step>)
    requires Init(u) && Feasible(u, steps) && Run(u, steps).live == 0
    ensures var v := Run(u, steps);
      v.readersDone && v.workClosed && v.inflight == 0 && v.sending == 0 && v.queued == 0 && v.busy == 0
  {
    RunHolds(u, steps);
  }

  lemma Prepend(u: Unit, s: Step, rest: seq<Step>)
    requires Ready(u, s) && Feasible(Next(u, s), rest)
    ensures Feasible(u, [s] + rest) && Run(u, [s] + rest) == Run(Next(u, s), rest)
  {
    assert ([s] + rest)[1..] == rest;
  }

  /** What comes next on the way out: handlers return, workers take what is queued, readers send what they hold. */
  function Outwards(u: Unit): Step {
    if u.busy > 0 then Finish
    else if u.queued > 0 then Take
    else if u.sending > 0 then Send
    else if !u.readersDone then ReadersExit
    else if !u.workClosed then CloseWork
    else Exit
  }

  /** A unit can be shut down from every state, while it scales or not: there is a run after which its last worker is
      gone. */
  lemma {:induction false} CanDrain(u: Unit) returns (steps: seq<Step>)
    requires Inv(u)
    ensures Feasible(u, steps) && Run(u, steps).live == 0
    decreases u.inflight, u.sending, u.queued, if u.readersDone then 0 else 1, if u.workClosed then 0 else 1, u.live
  {
    if u.live == 0 {
      steps := [];
    } else {
      StepHolds(u, Outwards(u));
      var rest := CanDrain(Next(u, Outwards(u)));
      Prepend(u, Outwards(u), rest);
      steps := [Outwards(u)] + rest;
    }
  }

  function One(condition: bool): nat {
    if condition then 1 else 0
  }

  /** How often a step occurs. */
  function Count(steps: seq<Step>, s: Step): nat {
    if steps == [] then 0 else Count(steps[1..], s) + One(steps[0] == s)
  }

  lemma SlotMoves(u: Unit, s: Step)
    requires Inv(u) && Ready(u, s)
    ensures var v := Next(u, s);
      && v.inflight + One(s == Finish) == u.inflight + One(s == Admit)
      && v.sending + One(s == Send) == u.sending + One(s == Admit)
      && v.queued + One(s == Take) == u.queued + One(s == Send)
      && v.busy + One(s == Finish) == u.busy + One(s == Take)
  {
  }

  /** Every slot goes once round: in every run the slots in use are those given less those returned, and what is
      queued or worked on was sent and is not finished. */
  lemma {:induction false} SlotsGoRound(u: Unit, steps: seq<Step>)
    requires Inv(u) && Feasible(u, steps)
    ensures var v := Run(u, steps);
      && v.inflight + Count(steps, Finish) == u.inflight + Count(steps, Admit)
      && v.sending + Count(steps, Send) == u.sending + Count(steps, Admit)
      && v.queued + Count(steps, Take) == u.queued + Count(steps, Send)
      && v.busy + Count(steps, Finish) == u.busy + Count(steps, Take)
    decreases |steps|
  {
    if steps != [] {
      StepHolds(u, steps[0]);
      SlotMoves(u, steps[0]);
      SlotsGoRound(Next(u, steps[0]), steps[1..]);
    }
  }

  /** A narrowed unit lets its surplus workers go as soon as they are idle: when all tokens have been taken and scaling
      is at rest, there are exactly as many workers as slots. */
  lemma TokensCallIn(u: Unit, steps: seq<Step>)
    requires Init(u) && Feasible(u, steps)
    ensures var v := Run(u, steps);
      && (v.scaling.Steady? && v.tokens == 0 && v.exited == 0 ==> v.live == v.capacity)
      && (v.tokens > 0 && v.busy < v.live ==> Ready(v, Retire) && Next(v, Retire).live == v.live - 1)
  {
    RunHolds(u, steps);
  }

  /** Scaling comes to rest where it was told to: once it is steady again the desired workers are the new capacity. */
  lemma {:induction false} ScalingSettles(u: Unit, n: nat, rounds: nat)
    requires Inv(u) && !u.scaling.Steady? && u.scaling.target == n
    requires rounds == (if u.desired < n then n - u.desired else u.desired - n) + 1
    ensures Feasible(u, seq(rounds, i => Resize))
    ensures var v := Run(u, seq(rounds, i => Resize)); v.scaling.Steady? && v.capacity == v.desired == n
    decreases rounds
  {
    var steps := seq(rounds, i => Resize);
    assert steps[1..] == seq(rounds - 1, i => Resize);
    StepHolds(u, Resize);
    if rounds > 1 {
      ScalingSettles(Next(u, Resize), n, rounds - 1);
    }
  }

  /** So a unit at rest can be set to any number of routines up to its maximum. */
  lemma AnyNumberSettles(u: Unit, n: nat)
    requires Inv(u) && u.scaling.Steady? && 1 <= n <= u.max
    ensures var steps := [SetRoutines(n)] + seq(Distance(u, n) + 1, i => Resize);
      && Feasible(u, steps)
      && var v := Run(u, steps); v.scaling.Steady? && v.capacity == v.desired == n
  {
    var rounds := Distance(u, n) + 1;
    StepHolds(u, SetRoutines(n));
    ScalingSettles(Next(u, SetRoutines(n)), n, rounds);
    Prepend(u, SetRoutines(n), seq(rounds, i => Resize));
  }

  /** The order matters: narrowing the workers before the gate would, between the two, leave fewer workers than the
      gate admits. */
  lemma ShrinkingFirstStarves(u: Unit)
    requires Inv(u) && u.scaling.Steady? && u.exited == 0 && u.tokens == 0 && u.busy == 0 && u.capacity > 1
    ensures var v := Next(Shrink(u), Retire); v.live < v.capacity
  {
  }

  // ---------- The worker counters, as the program updates them ----------

  function Rounds(k: nat): seq<Step> {
    seq(k, i => Resize)
  }

  function Distance(u: Unit, n: nat): nat {
    if u.desired < n then n - u.desired else u.desired - n
  }

  /** One more round, at the end of the rounds so far. */
  lemma {:induction false} OneMoreRound(u: Unit, k: nat)
    requires Inv(u) && Feasible(u, Rounds(k)) && !Run(u, Rounds(k)).scaling.Steady?
    ensures Feasible(u, Rounds(k + 1)) && Run(u, Rounds(k + 1)) == Next(Run(u, Rounds(k)), Resize)
    decreases k
  {
    assert Rounds(k + 1)[1..] == Rounds(k);
    if k > 0 {
      assert Rounds(k)[1..] == Rounds(k - 1);
      StepHolds(u, Resize);
      OneMoreRound(Next(u, Resize), k - 1);
    }
  }

  /** `v` is the unit after `k` of the rounds that lead `u` to `n` desired workers. */
  ghost predicate OnTheWay(u: Unit, n: nat, k: nat, v: Unit) {
    && Inv(v) && v.scaling == u.scaling && v.exited == u.exited
    && Feasible(u, Rounds(k)) && v == Run(u, Rounds(k)) && k + Distance(v, n) == Distance(u, n)
  }

  lemma SetsOut(u: Unit, n: nat)
    requires Inv(u)
    ensures OnTheWay(u, n, 0, u)
  {
    assert Rounds(0) == [];
  }

  lemma RoundOn(u: Unit, n: nat, k: nat, v: Unit)
    requires Inv(u) && !u.scaling.Steady? && u.scaling.target == n && OnTheWay(u, n, k, v) && v.desired != n
    ensures OnTheWay(u, n, k + 1, if v.desired < n then Grow(v) else Shrink(v))
  {
    OneMoreRound(u, k);
    StepHolds(v, Resize);
    assert Next(v, Resize) == if v.desired < n then Grow(v) else Shrink(v);
  }

  /** Each turn of `Resize` is one round of the model, between two of which idle workers may leave. */
  class Workers {
    const max: nat
    var desired: nat
    var tokens: nat
    var live: nat

    ghost predicate Shows(u: Unit)
      reads this
    {
      u.max == max && u.desired == desired && u.tokens == tokens && u.live == live
    }

    constructor (max: nat)
      ensures this.max == max && desired == tokens == live == 0
    {
      this.max, desired, tokens, live := max, 0, 0, 0;
    }

    /** Moves the desired number to `n`, starting and retiring workers one at a time. */
    method Resize(n: nat, ghost u: Unit)
      requires Inv(u) && Shows(u) && !u.scaling.Steady? && u.scaling.target == n
      modifies this
      ensures desired == n && Feasible(u, Rounds(Distance(u, n))) && Shows(Run(u, Rounds(Distance(u, n))))
      ensures live - tokens == n - u.exited
    {
      ghost var k, v := 0, u;
      SetsOut(u, n);
      while desired < n
        invariant Shows(v) && OnTheWay(u, n, k, v)
      {
        RoundOn(u, n, k, v);
        desired := desired + 1;
        GrowLocked(v);
        k, v := k + 1, Grow(v);
      }
      while desired > n
        invariant Shows(v) && OnTheWay(u, n, k, v) && desired >= n
      {
        RoundOn(u, n, k, v);
        desired := desired - 1;
        ShrinkLocked(v);
        k, v := k + 1, Shrink(v);
      }
    }

    method GrowLocked(ghost u: Unit)
      requires desired == u.desired + 1 && Shows(u.(desired := desired))
      modifies this`tokens, this`live
      ensures Shows(Grow(u))
    {
      if tokens > 0 {
        tokens := tokens - 1;
      } else {
        live := live + 1;
      }
    }

    method ShrinkLocked(ghost u: Unit)
      requires u.desired == desired + 1 && Shows(u.(desired := desired))
      modifies this`tokens
      ensures Shows(Shrink(u))
    {
      if tokens < max {
        tokens := tokens + 1;
      }
    }
  }
}
