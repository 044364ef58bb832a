/** Delivery accounting of the durable subscriber: every message in flight has a watch; a wheel reports progress for
    it on every tick and gives it up after a fixed number of ticks; a counter of unacknowledged deliveries, with one
    seat for the subscriber itself, tells a closing subscriber when it may go. */
module Delivery {
  import opened Options

  type Id = nat

  /** `arm` is the wheel's epoch when the watch was registered; `reports` counts its progress reports, and
      `abandoned` says on which tick after its registration the wheel gave it up. */
  datatype Watch = Watch(arm: Option<nat>, finished: bool, reports: nat, abandoned: Option<nat>)

  datatype Phase = Resting | Sweeping(due: seq<Id>, survivors: seq<Id>)

  datatype Wheel = Wheel(buckets: seq<seq<Id>>, cursor: nat, epoch: nat)

  /** `finishing` deliveries are finished but not yet counted off; `active` callbacks are inside the gate. */
  datatype State = State(wheel: Wheel, phase: Phase, watches: map<Id, Watch>, acks: int, finishing: nat, seat: bool,
                         active: nat, stopping: bool)

  datatype Step =
    | Enter
    | Leave
    | Add(w: Id)          // a callback counts a new watch in
    | Register(w: Id)     // and puts it on the wheel
    | Finish(w: Id)       // its message is resolved, or its handoff is undone
    | Done                // a finished delivery is counted off
    | Begin               // the wheel's tick takes the due bucket
    | Sweep               // looks at one due watch
    | Refile              // and puts the survivors back
    | StopCallbacks
    | ReleaseSeat

  function Registered(wheel: Wheel, w: Id): Wheel
    requires wheel.cursor < |wheel.buckets|
  {
    wheel.(buckets := wheel.buckets[wheel.cursor := wheel.buckets[wheel.cursor] + [w]])
  }

  /** The next bucket, around the wheel. */
  function After(cursor: nat, steps: nat): (next: nat)
    requires cursor < steps
    ensures next == (cursor + 1) % steps
  {
    if cursor + 1 == steps then 0 else cursor + 1
  }

  function Current(wheel: Wheel): seq<Id>
    requires wheel.cursor < |wheel.buckets|
  {
    wheel.buckets[wheel.cursor]
  }

  /** The wheel after a tick took the due bucket. */
  function Turned(wheel: Wheel): Wheel
    requires wheel.cursor < |wheel.buckets|
  {
    Wheel(wheel.buckets[wheel.cursor := []], After(wheel.cursor, |wheel.buckets|), wheel.epoch + 1)
  }

  function Refiled(wheel: Wheel, survivors: seq<Id>): Wheel
    requires wheel.cursor < |wheel.buckets|
  {
    wheel.(buckets := wheel.buckets[wheel.cursor := wheel.buckets[wheel.cursor] + survivors])
  }

  predicate Sound(wheel: Wheel) {
    wheel.cursor < |wheel.buckets| && forall i :: 0 <= i < |wheel.buckets| && i != wheel.cursor ==>
      wheel.buckets[i] == []
  }

  function Steps(s: State): nat {
    |s.wheel.buckets|
  }

  predicate Ready(s: State, step: Step) {
    && s.wheel.cursor < |s.wheel.buckets|
    && match step
       case Enter => !s.stopping
       case Leave => s.active > 0
       case Add(w) => s.active > 0 && w !in s.watches
       case Register(w) => w in s.watches && s.watches[w].arm.None?
       case Finish(w) => w in s.watches && !s.watches[w].finished
       case Done => s.finishing > 0
       case Begin => s.phase.Resting?
       case Sweep => s.phase.Sweeping? && s.phase.due != [] && s.phase.due[0] in s.watches
       case Refile => s.phase.Sweeping? && s.phase.due == []
       case StopCallbacks => true
       case ReleaseSeat => s.stopping && s.active == 0 && s.seat
  }

  /** How old a watch is on this epoch. */
  function Age(s: State, w: Watch): int {
    if w.arm.Some? then s.wheel.epoch - w.arm.value else 0
  }

  function Swept(s: State): State
    requires Ready(s, Sweep)
  {
    var id := s.phase.due[0];
    var w := s.watches[id];
    var rest := s.phase.(due := s.phase.due[1..]);
    if w.finished then s.(phase := rest)
    else if Age(s, w) < Steps(s) then
      s.(phase := rest.(survivors := s.phase.survivors + [id]),
         watches := s.watches[id := w.(reports := w.reports + 1)])
    else
      s.(phase := rest, finishing := s.finishing + 1,
         watches := s.watches[id := w.(finished := true, abandoned := Some(if Age(s, w) < 0 then 0 else Age(s, w)))])
  }

  function Next(s: State, step: Step): State
    requires Ready(s, step)
  {
    match step
    case Enter => s.(active := s.active + 1)
    case Leave => s.(active := s.active - 1)
    case Add(w) => s.(acks := s.acks + 1, watches := s.watches[w := Watch(None, false, 0, None)])
    case Register(w) =>
      s.(wheel := Registered(s.wheel, w), watches := s.watches[w := s.watches[w].(arm := Some(s.wheel.epoch))])
    case Finish(w) => s.(finishing := s.finishing + 1, watches := s.watches[w := s.watches[w].(finished := true)])
    case Done => s.(finishing := s.finishing - 1, acks := s.acks - 1)
    case Begin => s.(wheel := Turned(s.wheel), phase := Sweeping(Current(s.wheel), []))
    case Sweep => Swept(s)
    case Refile => s.(wheel := Refiled(s.wheel, s.phase.survivors), phase := Resting)
    case StopCallbacks => s.(stopping := true)
    case ReleaseSeat => s.(seat := false, acks := s.acks - 1)
  }

  ghost predicate Init(s: State) {
    && |s.wheel.buckets| >= 1 && s.wheel.cursor == 0 && s.wheel.epoch == 0
    && (forall b :: b in s.wheel.buckets ==> b == [])
    && s.phase.Resting? && s.watches == map[] && s.acks == 1 && s.finishing == 0 && s.seat
    && s.active == 0 && !s.stopping
  }

  // ---------- The counter ----------

  function Unfinished(watches: map<Id, Watch>): set<Id> {
    set w | w in watches && !watches[w].finished
  }

  ghost predicate Counted(s: State) {
    && s.acks == |Unfinished(s.watches)| + s.finishing + (if s.seat then 1 else 0)
    && (!s.seat ==> s.stopping && s.active == 0)
  }

  lemma UnfinishedChanges(watches: map<Id, Watch>, id: Id, w: Watch)
    ensures |Unfinished(watches[id := w])| == |Unfinished(watches)|
      - (if id in watches && !watches[id].finished then 1 else 0) + (if w.finished then 0 else 1)
  {
    if w.finished {
      assert Unfinished(watches[id := w]) == Unfinished(watches) - {id};
    } else {
      assert Unfinished(watches[id := w]) == Unfinished(watches) + {id};
    }
  }

  /** The counter is the unfinished watches, the deliveries being finished and the subscriber's own seat. */
  lemma CountedHolds(s: State, step: Step)
    requires Counted(s) && Ready(s, step)
    ensures Counted(Next(s, step))
  {
    var t := Next(s, step);
    match step
    case Add(w) => UnfinishedChanges(s.watches, w, t.watches[w]);
    case Register(w) => UnfinishedChanges(s.watches, w, t.watches[w]);
    case Finish(w) => UnfinishedChanges(s.watches, w, t.watches[w]);
    case Sweep => UnfinishedChanges(s.watches, s.phase.due[0], t.watches[s.phase.due[0]]);
    case _ =>
  }

  // ---------- The wheel ----------

  function Occurs(ids: seq<Id>, id: Id): nat {
    if ids == [] then 0 else (if ids[0] == id then 1 else 0) + Occurs(ids[1..], id)
  }

  lemma {:induction false} OccursInBoth(a: seq<Id>, b: seq<Id>, id: Id)
    ensures Occurs(a + b, id) == Occurs(a, id) + Occurs(b, id)
  {
    if a == [] {
      assert a + b == b;
    } else {
      OccursInBoth(a[1..], b, id);
      assert (a + b)[1..] == a[1..] + b;
    }
  }

  /** How often a watch stands in the bucket at the cursor, and during a pass among those due and those that
      survived it. */
  datatype Spot = Spot(current: nat, due: nat, survived: nat)

  function SpotOf(s: State, id: Id): Spot
    requires s.wheel.cursor < |s.wheel.buckets|
  {
    match s.phase
    case Resting => Spot(Occurs(Current(s.wheel), id), 0, 0)
    case Sweeping(due, survivors) => Spot(Occurs(Current(s.wheel), id), Occurs(due, id), Occurs(survivors, id))
  }

  /** A watch is on the wheel once or not at all. An unfinished one is on it from its registration, has one report
      for every tick it has lived through, and is never as old as the wheel is long; a due one has yet to live
      through the current tick. One that was given up was given up on the last tick. */
  ghost predicate WatchOk(s: State, spot: Spot, w: Watch) {
    && spot.current + spot.due + spot.survived <= 1
    && (w.arm.None? ==> spot == Spot(0, 0, 0) && w.reports == 0 && w.abandoned.None?)
    && (w.arm.Some? && !w.finished ==>
          && spot != Spot(0, 0, 0)
          && w.reports == Age(s, w) - spot.due
          && w.reports < Steps(s))
    && (w.abandoned.Some? ==> w.finished && w.abandoned.value == Steps(s) && w.reports == Steps(s) - 1)
  }

  ghost predicate IdOk(s: State, id: Id)
    requires s.wheel.cursor < |s.wheel.buckets|
  {
    if id in s.watches then WatchOk(s, SpotOf(s, id), s.watches[id]) else SpotOf(s, id) == Spot(0, 0, 0)
  }

  ghost predicate WheelOk(s: State) {
    Sound(s.wheel) && forall id {:trigger IdOk(s, id)} :: IdOk(s, id)
  }

  lemma TurningKeepsSound(wheel: Wheel)
    requires Sound(wheel)
    ensures Sound(Turned(wheel)) && Current(Turned(wheel)) == [] && |Turned(wheel).buckets| == |wheel.buckets|
  {
  }

  lemma FilingKeepsSound(wheel: Wheel, ids: seq<Id>)
    requires Sound(wheel)
    ensures Sound(Refiled(wheel, ids)) && Current(Refiled(wheel, ids)) == Current(wheel) + ids
    ensures |Refiled(wheel, ids).buckets| == |wheel.buckets|
  {
  }

  /** Where a step moves a watch on the wheel. */
  function Moved(s: State, step: Step, id: Id): Spot
    requires Ready(s, step)
  {
    var spot := SpotOf(s, id);
    match step
    case Register(w) => if w == id then spot.(current := spot.current + 1) else spot
    case Begin => Spot(0, spot.current, 0)
    case Refile => Spot(spot.current + spot.survived, 0, 0)
    case Sweep =>
      if s.phase.due[0] != id then spot
      else if s.watches[id].finished || Age(s, s.watches[id]) >= Steps(s) then
        spot.(due := if spot.due > 0 then spot.due - 1 else 0)
      else spot.(due := if spot.due > 0 then spot.due - 1 else 0, survived := spot.survived + 1)
    case _ => spot
  }

  lemma SpotMoves(s: State, step: Step, id: Id)
    requires Sound(s.wheel) && Ready(s, step)
    ensures var t := Next(s, step);
      Sound(t.wheel) && Steps(t) == Steps(s) && SpotOf(t, id) == Moved(s, step, id)
  {
    match step
    case Register(w) =>
      FilingKeepsSound(s.wheel, [w]);
      OccursInBoth(Current(s.wheel), [w], id);
    case Begin => TurningKeepsSound(s.wheel);
    case Refile =>
      FilingKeepsSound(s.wheel, s.phase.survivors);
      OccursInBoth(Current(s.wheel), s.phase.survivors, id);
    case Sweep =>
      OccursInBoth(s.phase.survivors, [s.phase.due[0]], id);
    case _ =>
  }

  lemma SweepHolds(s: State, id: Id)
    requires WheelOk(s) && Ready(s, Sweep)
    ensures Next(s, Sweep).wheel.cursor < |Next(s, Sweep).wheel.buckets| && IdOk(Next(s, Sweep), id)
  {
    SpotMoves(s, Sweep, id);
    assert IdOk(s, id);
    assert s.phase.due[0] == id ==> SpotOf(s, id).due >= 1;
  }

  lemma OthersHold(s: State, step: Step, id: Id)
    requires WheelOk(s) && Ready(s, step) && !step.Sweep?
    ensures Next(s, step).wheel.cursor < |Next(s, step).wheel.buckets| && IdOk(Next(s, step), id)
  {
    SpotMoves(s, step, id);
    assert IdOk(s, id);
  }

  lemma WheelHolds(s: State, step: Step)
    requires WheelOk(s) && Ready(s, step)
    ensures WheelOk(Next(s, step)) && Steps(Next(s, step)) == Steps(s)
  {
    SpotMoves(s, step, 0);
    forall id ensures IdOk(Next(s, step), id) {
      if step.Sweep? {
        SweepHolds(s, id);
      } else {
        OthersHold(s, step, id);
      }
    }
  }

  // ---------- Runs ----------

  ghost predicate Feasible(s: State, steps: seq<Step>)
    decreases |steps|
  {
    steps != [] ==> Ready(s, steps[0]) && Feasible(Next(s, steps[0]), steps[1..])
  }

  function Run(s: State, steps: seq<Step>): State
    requires Feasible(s, steps)
    decreases |steps|
  {
    if steps == [] then s else Run(Next(s, steps[0]), steps[1..])
  }

  lemma {:induction false} RunHolds(s: State, steps: seq<Step>)
    requires Counted(s) && WheelOk(s) && Feasible(s, steps)
    ensures Counted(Run(s, steps)) && WheelOk(Run(s, steps)) && Steps(Run(s, steps)) == Steps(s)
    decreases |steps|
  {
    if steps != [] {
      CountedHolds(s, steps[0]);
      WheelHolds(s, steps[0]);
      RunHolds(Next(s, steps[0]), steps[1..]);
    }
  }

  lemma InitHolds(s: State)
    requires Init(s)
    ensures Counted(s) && WheelOk(s)
  {
    assert Unfinished(s.watches) == {};
    forall i | 0 <= i < |s.wheel.buckets| ensures s.wheel.buckets[i] == [] {
      assert s.wheel.buckets[i] in s.wheel.buckets;
    }
  }

  /** Between ticks of any run: an unfinished watch on the wheel stands in the bucket at the cursor, once, and in no
      other; it has been reported once for every tick since its registration; and fewer ticks have passed than the
      wheel has steps, so at the last one it is given up, never before and never after. */
  lemma EveryTickReports(s: State, steps: seq<Step>, id: Id)
    requires Init(s) && Feasible(s, steps) && id in Run(s, steps).watches
    ensures var t := Run(s, steps);
      var w := t.watches[id];
      && Sound(t.wheel)
      && (w.arm.Some? && !w.finished && t.phase.Resting? ==>
            && Occurs(Current(t.wheel), id) == 1
            && (forall i :: 0 <= i < Steps(t) && i != t.wheel.cursor ==> t.wheel.buckets[i] == [])
            && w.reports == t.wheel.epoch - w.arm.value < Steps(s))
      && (w.abandoned.Some? ==> w.abandoned == Some(Steps(s)) && w.reports == Steps(s) - 1)
  {
    InitHolds(s);
    RunHolds(s, steps);
    assert IdOk(Run(s, steps), id);
  }

  /** The counter of any run: unfinished watches, deliveries being finished, and the seat. It never goes below zero,
      nothing is counted in once the seat is given up, and at zero nothing is left in flight. */
  lemma AcksBalance(s: State, steps: seq<Step>)
    requires Init(s) && Feasible(s, steps)
    ensures var t := Run(s, steps);
      && t.acks == |Unfinished(t.watches)| + t.finishing + (if t.seat then 1 else 0) >= 0
      && (!t.seat ==> forall w :: !Ready(t, Add(w)))
      && (t.acks == 0 ==> !t.seat && t.finishing == 0 && forall id :: id in t.watches ==> t.watches[id].finished)
  {
    InitHolds(s);
    RunHolds(s, steps);
    var t := Run(s, steps);
    if t.acks == 0 {
      forall id | id in t.watches ensures t.watches[id].finished {
        assert id !in Unfinished(t.watches);
      }
    }
  }

  lemma Prepend(s: State, step: Step, rest: seq<Step>)
    requires Ready(s, step) && Feasible(Next(s, step), rest)
    ensures Feasible(s, [step] + rest) && Run(s, [step] + rest) == Run(Next(s, step), rest)
  {
    assert ([step] + rest)[1..] == rest;
  }

  /** Until the subscriber stops a callback can take a new message in: its watch is on the wheel, unfinished and
      counted, and the callback is gone again. */
  lemma CanTakeIn(s: State, id: Id)
    requires s.wheel.cursor < |s.wheel.buckets| && !s.stopping && id !in s.watches
    ensures var steps := [Enter] + ([Add(id)] + ([Register(id)] + ([Leave] + [])));
      && Feasible(s, steps)
      && var t := Run(s, steps);
        && id in t.watches && t.watches[id] == Watch(Some(s.wheel.epoch), false, 0, None)
        && t.wheel == Registered(s.wheel, id) && t.acks == s.acks + 1 && t.active == s.active && t.seat == s.seat
        && (forall other :: other in s.watches ==> other in t.watches && t.watches[other] == s.watches[other])
  {
    var entered := Next(s, Enter);
    var added := Next(entered, Add(id));
    var registered := Next(added, Register(id));
    Prepend(registered, Leave, []);
    Prepend(added, Register(id), [Leave] + []);
    Prepend(entered, Add(id), [Register(id)] + ([Leave] + []));
    Prepend(s, Enter, [Add(id)] + ([Register(id)] + ([Leave] + [])));
  }

  /** What comes next on the way out. */
  lemma Outwards(s: State) returns (step: Step)
    requires Counted(s) && s.wheel.cursor < |s.wheel.buckets| && s.acks != 0
    ensures Ready(s, step) && (step.Finish? || step.Done? || step.Leave? || step.StopCallbacks? || step.ReleaseSeat?)
    ensures step.StopCallbacks? ==> !s.stopping
    ensures step.Leave? ==> s.active > 0
  {
    if Unfinished(s.watches) != {} {
      var id :| id in Unfinished(s.watches);
      step := Finish(id);
    } else if s.finishing > 0 {
      step := Done;
    } else if s.active > 0 {
      step := Leave;
    } else {
      step := if s.stopping then ReleaseSeat else StopCallbacks;
    }
  }

  /** A subscriber can close from every state: there is a run after which nothing is in flight and its counter is 0. */
  lemma {:induction false} CanClose(s: State) returns (steps: seq<Step>)
    requires Counted(s) && s.wheel.cursor < |s.wheel.buckets|
    ensures Feasible(s, steps) && Run(s, steps).acks == 0
    decreases |Unfinished(s.watches)|, s.finishing, s.active, if s.stopping then 0 else 1, if s.seat then 1 else 0
  {
    if s.acks == 0 {
      steps := [];
    } else {
      var step := Outwards(s);
      CountedHolds(s, step);
      if step.Finish? {
        UnfinishedChanges(s.watches, step.w, Next(s, step).watches[step.w]);
      }
      var rest := CanClose(Next(s, step));
      Prepend(s, step, rest);
      steps := [step] + rest;
    }
  }

  // ---------- The wheel as the program keeps it ----------

  class KeepAliveWheel {
    const buckets: array<seq<Id>>
    var cursor: nat
    var epoch: nat

    ghost predicate Valid()
      reads this, buckets
    {
      cursor < buckets.Length
    }

    function Value(): Wheel
      reads this, buckets
    {
      Wheel(buckets[..], cursor, epoch)
    }

    /** A wheel has at least one step. */
    constructor (steps: int)
      ensures Valid() && fresh(buckets) && buckets.Length == if steps < 1 then 1 else steps
      ensures Sound(Value()) && Current(Value()) == [] && epoch == 0
    {
      cursor, epoch := 0, 0;
      buckets := new seq<Id>[if steps < 1 then 1 else steps](i => []);
    }

    method Register(w: Id) returns (arm: nat)
      requires Valid()
      modifies buckets
      ensures Valid() && Value() == Registered(old(Value()), w) && arm == epoch
    {
      arm := epoch;
      buckets[cursor] := buckets[cursor] + [w];
    }

    method Turn() returns (due: seq<Id>)
      requires Valid()
      modifies this, buckets
      ensures Valid() && Value() == Turned(old(Value())) && due == old(Current(Value()))
    {
      due := buckets[cursor];
      buckets[cursor] := [];
      cursor := (cursor + 1) % buckets.Length;
      epoch := epoch + 1;
    }

    /** The bucket is read again: watches may have been registered during the pass. */
    method Refile(survivors: seq<Id>)
      requires Valid()
      modifies buckets
      ensures Valid() && Value() == Refiled(old(Value()), survivors)
    {
      if |survivors| == 0 {
        assert survivors == [] && buckets[cursor] + survivors == buckets[cursor];
        assert buckets[..] == buckets[..][cursor := buckets[cursor] + survivors];
        return;
      }
      buckets[cursor] := buckets[cursor] + survivors;
    }
  }

  // ---------- Redelivery ----------

  /** How long a failed delivery waits, or that it is the last. */
  datatype Wait = Again(delay: int) | Terminate

  datatype RetryDelay = RetryDelay(delay: int, max: nat, schedule: seq<int>, deferral: int)
  {
    /** A schedule has one entry for every delivery but the last. */
    ghost predicate Valid() {
      schedule != [] ==> max == |schedule| + 1
    }

    function Deliveries(): nat {
      if deferral > 0 then max + 1 else max
    }

    function WaitTime(retry: nat): Wait
      requires Valid()
    {
      if max == 0 then Again(0)
      else if retry >= max then Terminate
      else if schedule == [] then Again(delay)
      else Again(schedule[(if retry < 1 then 1 else retry) - 1])
    }

    function NakDelay(retry: nat, retryAfter: int): Wait
      requires Valid()
    {
      var wait := WaitTime(retry);
      if !wait.Terminate? || retryAfter <= 0 then wait
      else if retry >= Deliveries() then Terminate
      else Again(if retryAfter <= deferral then retryAfter else deferral)
    }
  }

  /** A message whose handler keeps failing ends at its last delivery, or one later when the last handler asks for a
      deferral; it never ends earlier, and a deferral is never longer than the limit. */
  lemma DeliveriesAreBounded(d: RetryDelay, retry: nat, retryAfter: int)
    requires d.Valid() && d.max > 0
    ensures d.NakDelay(retry, retryAfter).Terminate? <==>
      retry >= d.Deliveries() || (retry >= d.max && retryAfter <= 0)
    ensures retry >= d.max && d.NakDelay(retry, retryAfter).Again? ==>
      0 < d.NakDelay(retry, retryAfter).delay <= d.deferral && retry == d.Deliveries() - 1
  {
  }

  /** Before its last delivery a message waits for the schedule's entry of that delivery, each in its turn, or always
      for the same delay; without a bound it is delivered again at once. */
  lemma WaitsInTurn(d: RetryDelay, retry: nat, retryAfter: int)
    requires d.Valid() && (d.max > 0 ==> 1 <= retry < d.max)
    ensures d.max == 0 ==> d.NakDelay(retry, retryAfter) == Again(0)
    ensures d.max > 0 && d.schedule == [] ==> d.NakDelay(retry, retryAfter) == Again(d.delay)
    ensures d.schedule != [] ==>
      retry - 1 < |d.schedule| && d.NakDelay(retry, retryAfter) == Again(d.schedule[retry - 1])
  {
  }
}
