/** A delivered message: it is resolved once, tells its subscriber once, and its two signals are made on demand. */
module Message {

  datatype Standing = Pending | Acked | Nacked

  // ---------- Resolution as values ----------

  datatype Resolution = Resolution(standing: Standing, retryAfter: int)

  /** The standing after an attempt to resolve, what the attempt is told, and whether it is the one that resolves. */
  function Resolve(r: Resolution, goal: Standing, retryAfter: int): (Resolution, bool, bool)
    requires !goal.Pending?
  {
    if !r.standing.Pending? then (r, r.standing == goal, false) else (Resolution(goal, retryAfter), true, true)
  }

  datatype Attempt = Attempt(goal: Standing, retryAfter: int)

  /** The standing after the attempts, how often the subscriber was told, and what each attempt was told. */
  function Outcome(r: Resolution, attempts: seq<Attempt>): (Resolution, nat, seq<bool>)
    requires forall a :: a in attempts ==> !a.goal.Pending?
    decreases |attempts|
  {
    if attempts == [] then (r, 0, [])
    else
      var (next, won, first) := Resolve(r, attempts[0].goal, attempts[0].retryAfter);
      var (final, told, answers) := Outcome(next, attempts[1..]);
      (final, told + (if first then 1 else 0), [won] + answers)
  }

  lemma {:induction false} ResolvedStays(r: Resolution, attempts: seq<Attempt>)
    requires !r.standing.Pending? && forall a :: a in attempts ==> !a.goal.Pending?
    ensures var (final, told, answers) := Outcome(r, attempts);
      && final == r && told == 0 && |answers| == |attempts|
      && forall i :: 0 <= i < |attempts| ==> answers[i] == (attempts[i].goal == r.standing)
    decreases |attempts|
  {
    if attempts != [] {
      ResolvedStays(r, attempts[1..]);
    }
  }

  /** Whatever attempts follow, the first one resolves the message with its own delay, the subscriber is told exactly
      once, and every attempt is told whether it asked for what the first one did. */
  lemma FirstAttemptWins(attempts: seq<Attempt>)
    requires attempts != [] && forall a :: a in attempts ==> !a.goal.Pending?
    ensures var (final, told, answers) := Outcome(Resolution(Pending, 0), attempts);
      && final == Resolution(attempts[0].goal, attempts[0].retryAfter) && told == 1
      && |answers| == |attempts|
      && forall i :: 0 <= i < |attempts| ==> answers[i] == (attempts[i].goal == attempts[0].goal)
  {
    ResolvedStays(Resolution(attempts[0].goal, attempts[0].retryAfter), attempts[1..]);
  }

  // ---------- The message as the program keeps it ----------

  /** A channel used only to be closed; closing it twice is a fault. */
  class Signal {
    var closed: bool

    constructor (resolved: bool)
      ensures closed == resolved
    {
      closed := resolved;
    }

    method Close()
      requires !closed
      modifies this
      ensures closed
    {
      closed := true;
    }
  }

  class Message {
    var ack: Signal?
    var nack: Signal?
    var standing: Standing
    var retryAfter: int
    var handler: bool      // whether a subscriber waits to be told

    ghost predicate Valid()
      reads this, ack, nack
    {
      && (ack != null ==> ack.closed == standing.Acked?)
      && (nack != null ==> nack.closed == standing.Nacked?)
      && (ack != null && nack != null ==> ack != nack)
    }

    function Value(): Resolution
      reads this
    {
      Resolution(standing, retryAfter)
    }

    constructor ()
      ensures Valid() && ack == null && nack == null && Value() == Resolution(Pending, 0) && !handler
    {
      ack, nack, standing, retryAfter, handler := null, null, Pending, 0, false;
    }

    method SetResolveHandler()
      requires Valid()
      modifies this`handler
      ensures Valid() && handler
    {
      handler := true;
    }

    /** The locked part of `resolve`; `tells` is true when the caller has to run the handler. */
    method Transition(goal: Standing, delay: int) returns (won: bool, tells: bool)
      requires Valid() && !goal.Pending?
      modifies this`standing, this`retryAfter, ack, nack
      ensures Valid() && ack == old(ack) && nack == old(nack)
      ensures var (next, answer, first) := Resolve(old(Value()), goal, delay);
        Value() == next && won == answer && tells == (first && handler)
    {
      if !standing.Pending? {
        return standing == goal, false;
      }
      standing := goal;
      retryAfter := delay;
      var signal := if goal.Nacked? then nack else ack;
      if signal != null {
        signal.Close();
      }
      return true, handler;
    }

    /** The signal of a standing: the same object on every call, closed exactly when that standing is reached. */
    method SignalOf(goal: Standing) returns (signal: Signal)
      requires Valid() && !goal.Pending?
      modifies this`ack, this`nack
      ensures Valid() && Value() == old(Value())
      ensures signal == (if goal.Acked? then ack else nack)
      ensures old(ack) != null ==> ack == old(ack)
      ensures old(nack) != null ==> nack == old(nack)
      ensures ack != null && nack != null
      ensures signal.closed == (standing == goal)
    {
      if ack == null {
        ack := new Signal(standing.Acked?);
      }
      if nack == null {
        nack := new Signal(standing.Nacked?);
      }
      signal := if goal.Acked? then ack else nack;
    }
  }
}
