/** The admission gate of a weighted consumer: one pool of slots shared by lanes that hold reserves for each other,
    with a condition variable a lane. Signals and broadcasts are sent after the lock is released. */
module RoutinePool {
  import opened Numbers

  /** One lane: the slots it holds, its sleeping and its notified waiters, and the signals and broadcasts that a
      releaser owes it but has not sent yet. */
  datatype Lane = Lane(inflight: nat, sleeping: nat, woken: nat, signals: nat, broadcasts: nat)

  datatype Pool = Pool(lanes: seq<Lane>, capacity: nat, inflight: nat, closed: bool)

  /** The limit of a lane at a capacity. What is proved of waking holds for any such function. */
  type Limits = (nat, nat) -> int

  function Held(lanes: seq<Lane>): nat {
    if lanes == [] then 0 else Held(lanes[..|lanes| - 1]) + lanes[|lanes| - 1].inflight
  }

  predicate Full(p: Pool) {
    p.inflight >= p.capacity
  }

  predicate Blocked(limit: Limits, p: Pool, l: nat)
    requires l < |p.lanes|
  {
    Full(p) || p.lanes[l].inflight >= limit(p.capacity, l)
  }

  function At(p: Pool, l: nat, lane: Lane): Pool
    requires l < |p.lanes|
  {
    p.(lanes := p.lanes[l := lane])
  }

  /** Every sleeper of every lane is notified; this happens under the lock. */
  function WakeAll(lanes: seq<Lane>): seq<Lane> {
    seq(|lanes|, i requires 0 <= i < |lanes| =>
      lanes[i].(sleeping := 0, woken := lanes[i].woken + lanes[i].sleeping))
  }

  /** Every lane is owed one more broadcast. */
  function OweBroadcasts(lanes: seq<Lane>): seq<Lane> {
    seq(|lanes|, i requires 0 <= i < |lanes| => lanes[i].(broadcasts := lanes[i].broadcasts + 1))
  }

  // ---------- Steps ----------

  datatype Step =
    | Acquire(l: nat)       // a new caller takes the lock
    | Resume(l: nat)        // a notified waiter takes the lock back
    | Release(l: nat)       // a holder returns its slot; what it owes is sent later
    | Signal(l: nat)        // one owed signal is sent
    | Broadcast(l: nat)     // one owed broadcast is sent
    | SetCapacity(n: nat)
    | Close

  /** A caller that holds the lock and is not yet counted as asleep or notified. */
  function Enter(limit: Limits, p: Pool, l: nat): Pool
    requires l < |p.lanes|
  {
    var lane := p.lanes[l];
    if p.closed then p
    else if Blocked(limit, p, l) then At(p, l, lane.(sleeping := lane.sleeping + 1))
    else At(p, l, lane.(inflight := lane.inflight + 1)).(inflight := p.inflight + 1)
  }

  function Released(p: Pool, l: nat): Pool
    requires l < |p.lanes| && p.lanes[l].inflight > 0 && p.inflight > 0
  {
    var lane := p.lanes[l];
    var q := At(p, l, lane.(inflight := lane.inflight - 1)).(inflight := p.inflight - 1);
    if Full(p) then q.(lanes := OweBroadcasts(q.lanes))
    else if lane.sleeping + lane.woken > 0 then At(q, l, q.lanes[l].(signals := lane.signals + 1))
    else q
  }

  predicate Ready(p: Pool, s: Step) {
    match s
    case Acquire(l) => l < |p.lanes|
    case Resume(l) => l < |p.lanes| && p.lanes[l].woken > 0
    case Release(l) => l < |p.lanes| && p.lanes[l].inflight > 0
    case Signal(l) => l < |p.lanes| && p.lanes[l].signals > 0
    case Broadcast(l) => l < |p.lanes| && p.lanes[l].broadcasts > 0
    case SetCapacity(_) => true
    case Close => true
  }

  function Next(limit: Limits, p: Pool, s: Step): Pool
    requires Ready(p, s) && p.inflight == Held(p.lanes)
  {
    match s
    case Acquire(l) => Enter(limit, p, l)
    case Resume(l) => Enter(limit, At(p, l, p.lanes[l].(woken := p.lanes[l].woken - 1)), l)
    case Release(l) =>
      HeldCovers(p.lanes, l);
      Released(p, l)
    case Signal(l) =>
      var lane := p.lanes[l];
      var sent := lane.(signals := lane.signals - 1);
      At(p, l, if lane.sleeping == 0 then sent else sent.(sleeping := lane.sleeping - 1, woken := lane.woken + 1))
    case Broadcast(l) =>
      var lane := p.lanes[l];
      At(p, l, lane.(broadcasts := lane.broadcasts - 1, sleeping := 0, woken := lane.woken + lane.sleeping))
    case SetCapacity(n) => p.(capacity := n, lanes := WakeAll(p.lanes))
    case Close => p.(closed := true, lanes := WakeAll(p.lanes))
  }

  lemma {:induction false} HeldCovers(lanes: seq<Lane>, l: nat)
    requires l < |lanes|
    ensures lanes[l].inflight <= Held(lanes)
  {
    if l < |lanes| - 1 {
      HeldCovers(lanes[..|lanes| - 1], l);
    }
  }

  // ---------- No lost wake-up ----------

  /** A sleeping waiter means: the pool is full, or a broadcast is on its way, or the lane's free slots are all
      spoken for by notified waiters and signals on their way. A closed pool has no sleepers. */
  ghost predicate Awake(limit: Limits, p: Pool, l: nat)
    requires l < |p.lanes|
  {
    var lane := p.lanes[l];
    lane.sleeping > 0 ==>
      && !p.closed
      && (Full(p) || lane.broadcasts > 0 || limit(p.capacity, l) - lane.inflight <= lane.woken + lane.signals)
  }

  ghost predicate Inv(limit: Limits, p: Pool) {
    && p.inflight == Held(p.lanes)
    && forall l: nat {:trigger Awake(limit, p, l)} :: l < |p.lanes| ==> Awake(limit, p, l)
  }

  lemma {:induction false} SameSum(a: seq<Lane>, b: seq<Lane>)
    requires |a| == |b| && forall i :: 0 <= i < |a| ==> a[i].inflight == b[i].inflight
    ensures Held(a) == Held(b)
  {
    if a != [] {
      SameSum(a[..|a| - 1], b[..|b| - 1]);
    }
  }

  lemma {:induction false} ChangedSum(a: seq<Lane>, l: nat, lane: Lane)
    requires l < |a|
    ensures Held(a[l := lane]) == Held(a) - a[l].inflight + lane.inflight
  {
    var b := a[l := lane];
    if l == |a| - 1 {
      assert b[..l] == a[..l];
    } else {
      assert b[..|a| - 1] == a[..|a| - 1][l := lane];
      ChangedSum(a[..|a| - 1], l, lane);
    }
  }

  /** The pool's count stays the sum of the lanes'. */
  lemma StepSums(limit: Limits, p: Pool, s: Step)
    requires p.inflight == Held(p.lanes) && Ready(p, s)
    ensures |Next(limit, p, s).lanes| == |p.lanes| && Next(limit, p, s).inflight == Held(Next(limit, p, s).lanes)
  {
    var q := Next(limit, p, s);
    match s
    case Acquire(l) => ChangedSum(p.lanes, l, q.lanes[l]);
    case Resume(l) =>
      var r := At(p, l, p.lanes[l].(woken := p.lanes[l].woken - 1));
      ChangedSum(p.lanes, l, r.lanes[l]);
      ChangedSum(r.lanes, l, q.lanes[l]);
    case Release(l) =>
      HeldCovers(p.lanes, l);
      var lane := p.lanes[l].(inflight := p.lanes[l].inflight - 1);
      ChangedSum(p.lanes, l, lane);
      SameSum(p.lanes[l := lane], q.lanes);
    case Signal(l) => ChangedSum(p.lanes, l, q.lanes[l]);
    case Broadcast(l) => ChangedSum(p.lanes, l, q.lanes[l]);
    case SetCapacity(n) => SameSum(p.lanes, q.lanes);
    case Close => SameSum(p.lanes, q.lanes);
  }

  lemma StaysAwake(limit: Limits, p: Pool, s: Step, l: nat)
    requires Inv(limit, p) && Ready(p, s) && l < |p.lanes|
    ensures l < |Next(limit, p, s).lanes| && Awake(limit, Next(limit, p, s), l)
  {
    StepSums(limit, p, s);
    assert Awake(limit, p, l);
  }

  /** Every step keeps the accounts and loses no wake-up. */
  lemma StepHolds(limit: Limits, p: Pool, s: Step)
    requires Inv(limit, p) && Ready(p, s)
    ensures Inv(limit, Next(limit, p, s))
  {
    StepSums(limit, p, s);
    forall l: nat {:trigger Awake(limit, Next(limit, p, s), l)} | l < |Next(limit, p, s).lanes|
      ensures Awake(limit, Next(limit, p, s), l) {
      StaysAwake(limit, p, s, l);
    }
  }

  ghost predicate Feasible(limit: Limits, p: Pool, steps: seq<Step>)
    requires Inv(limit, p)
    decreases |steps|
  {
    steps != [] ==>
      && Ready(p, steps[0])
      && (StepHolds(limit, p, steps[0]); Feasible(limit, Next(limit, p, steps[0]), steps[1..]))
  }

  ghost function Run(limit: Limits, p: Pool, steps: seq<Step>): Pool
    requires Inv(limit, p) && Feasible(limit, p, steps)
    decreases |steps|
  {
    if steps == [] then p
    else
      StepHolds(limit, p, steps[0]);
      Run(limit, Next(limit, p, steps[0]), steps[1..])
  }

  /** Every run keeps the invariant. */
  lemma {:induction false} RunHolds(limit: Limits, p: Pool, steps: seq<Step>)
    requires Inv(limit, p) && Feasible(limit, p, steps)
    ensures Inv(limit, Run(limit, p, steps))
    decreases |steps|
  {
    if steps != [] {
      StepHolds(limit, p, steps[0]);
      RunHolds(limit, Next(limit, p, steps[0]), steps[1..]);
    }
  }

  lemma {:induction false} NothingHeld(lanes: nat)
    ensures Held(seq(lanes, i => Lane(0, 0, 0, 0, 0))) == 0
  {
    if lanes > 0 {
      assert seq(lanes, i => Lane(0, 0, 0, 0, 0))[..lanes - 1] == seq(lanes - 1, i => Lane(0, 0, 0, 0, 0));
      NothingHeld(lanes - 1);
    }
  }

  /** A pool as the program makes it. */
  ghost function NewPool(limit: Limits, lanes: nat, capacity: nat): (p: Pool)
    ensures Inv(limit, p) && !p.closed && p.inflight == 0 && p.capacity == capacity
  {
    NothingHeld(lanes);
    Pool(seq(lanes, i => Lane(0, 0, 0, 0, 0)), capacity, 0, false)
  }

  /** No wake-up is lost: in every state of every run of a new pool, an un-notified waiter means that the pool is open
      and full, or that a broadcast is on its way, or that the lane's free slots are covered by notified waiters and
      signals on their way. */
  lemma NoWakeUpIsLost(limit: Limits, lanes: nat, capacity: nat, steps: seq<Step>, l: nat)
    requires Feasible(limit, NewPool(limit, lanes, capacity), steps)
    requires l < |Run(limit, NewPool(limit, lanes, capacity), steps).lanes|
    ensures var q := Run(limit, NewPool(limit, lanes, capacity), steps);
      q.lanes[l].sleeping > 0 ==>
        && !q.closed
        && (|| Full(q) || q.lanes[l].broadcasts > 0
            || limit(q.capacity, l) - q.lanes[l].inflight <= q.lanes[l].woken + q.lanes[l].signals)
  {
    RunHolds(limit, NewPool(limit, lanes, capacity), steps);
    assert Awake(limit, Run(limit, NewPool(limit, lanes, capacity), steps), l);
  }

  /** In any state of any run in which nothing is on its way to a lane, its waiters sleep only because the pool is
      full or the lane is at its limit. */
  lemma NobodySleepsInVain(limit: Limits, p: Pool, steps: seq<Step>, l: nat)
    requires Inv(limit, p) && Feasible(limit, p, steps) && l < |Run(limit, p, steps).lanes|
    ensures var q := Run(limit, p, steps);
      q.lanes[l].sleeping > 0 && q.lanes[l].woken + q.lanes[l].signals + q.lanes[l].broadcasts == 0 ==>
        !q.closed && Blocked(limit, q, l)
  {
    RunHolds(limit, p, steps);
    assert Awake(limit, Run(limit, p, steps), l);
  }

  // ---------- What becomes of callers, signals and calls ----------

  /** The callers of a lane that hold a slot or wait. */
  function Present(lane: Lane): nat {
    lane.inflight + lane.sleeping + lane.woken
  }

  function One(condition: bool): nat {
    if condition then 1 else 0
  }

  /** Nobody is lost: a caller that has come holds a slot or waits until it returns the slot or, once the pool is
      closed, is turned away. */
  lemma CallersStay(limit: Limits, p: Pool, s: Step, l: nat)
    requires Inv(limit, p) && Ready(p, s) && l < |p.lanes|
    ensures var q := Next(limit, p, s);
      && |q.lanes| == |p.lanes|
      && Present(q.lanes[l]) + One(s == Release(l)) + One(p.closed && (s == Acquire(l) || s == Resume(l)))
         == Present(p.lanes[l]) + One(s == Acquire(l))
  {
    StepSums(limit, p, s);
  }

  /** A signal or a broadcast is sent only if a release owes it, and each is owed once: at most one for the lane of the
      release, and one broadcast for every lane. */
  lemma SignalsAreOwed(limit: Limits, p: Pool, s: Step, l: nat)
    requires Inv(limit, p) && Ready(p, s) && l < |p.lanes|
    ensures var q := Next(limit, p, s);
      && |q.lanes| == |p.lanes|
      && q.lanes[l].signals + One(s == Signal(l)) <= p.lanes[l].signals + One(s == Release(l))
      && q.lanes[l].broadcasts + One(s == Broadcast(l)) <= p.lanes[l].broadcasts + One(s.Release?)
  {
    StepSums(limit, p, s);
  }

  /** What the pool's two settings are rests on the calls that set them. */
  lemma SettingsAreCalls(limit: Limits, p: Pool, s: Step)
    requires Inv(limit, p) && Ready(p, s)
    ensures Next(limit, p, s).closed <==> p.closed || s.Close?
    ensures Next(limit, p, s).capacity == if s.SetCapacity? then s.n else p.capacity
  {
    StepSums(limit, p, s);
  }

  /** A new caller gets a slot exactly if the pool is open and has room for its lane. */
  lemma AdmitsIff(limit: Limits, p: Pool, l: nat)
    requires Inv(limit, p) && l < |p.lanes|
    ensures Ready(p, Acquire(l)) && |Next(limit, p, Acquire(l)).lanes| == |p.lanes|
    ensures Next(limit, p, Acquire(l)).lanes[l].inflight == p.lanes[l].inflight + 1 <==>
      !p.closed && p.inflight < p.capacity && p.lanes[l].inflight < limit(p.capacity, l)
  {
    StepSums(limit, p, Acquire(l));
  }

  function Notified(lanes: seq<Lane>): nat {
    if lanes == [] then 0 else Notified(lanes[..|lanes| - 1]) + lanes[|lanes| - 1].woken
  }

  lemma {:induction false} NotifiedChanges(a: seq<Lane>, l: nat, lane: Lane)
    requires l < |a|
    ensures Notified(a[l := lane]) == Notified(a) - a[l].woken + lane.woken
  {
    var b := a[l := lane];
    if l == |a| - 1 {
      assert b[..l] == a[..l];
    } else {
      assert b[..|a| - 1] == a[..|a| - 1][l := lane];
      NotifiedChanges(a[..|a| - 1], l, lane);
    }
  }

  lemma {:induction false} SomeNotified(lanes: seq<Lane>) returns (l: nat)
    ensures Notified(lanes) > 0 ==> l < |lanes| && lanes[l].woken > 0
    ensures Notified(lanes) == 0 ==> forall k :: 0 <= k < |lanes| ==> lanes[k].woken == 0
  {
    l := 0;
    if lanes != [] {
      var n := |lanes| - 1;
      l := SomeNotified(lanes[..n]);
      if lanes[n].woken > 0 {
        l := n;
      }
    }
  }

  ghost predicate NobodyWaits(p: Pool) {
    forall l :: 0 <= l < |p.lanes| ==> p.lanes[l].sleeping + p.lanes[l].woken == 0
  }

  lemma Prepend(limit: Limits, p: Pool, s: Step, rest: seq<Step>)
    requires Inv(limit, p) && Ready(p, s)
    requires Inv(limit, Next(limit, p, s)) && Feasible(limit, Next(limit, p, s), rest)
    ensures Feasible(limit, p, [s] + rest) && Run(limit, p, [s] + rest) == Run(limit, Next(limit, p, s), rest)
  {
    assert ([s] + rest)[1..] == rest;
  }

  /** After closing, the waiters need only the lock to leave. */
  lemma {:induction false} WaitersLeave(limit: Limits, p: Pool) returns (steps: seq<Step>)
    requires Inv(limit, p) && p.closed
    ensures Feasible(limit, p, steps) && NobodyWaits(Run(limit, p, steps)) && (forall s :: s in steps ==> s.Resume?)
    decreases Notified(p.lanes)
  {
    var l := SomeNotified(p.lanes);
    if Notified(p.lanes) == 0 {
      steps := [];
      forall k | 0 <= k < |p.lanes| ensures p.lanes[k].sleeping + p.lanes[k].woken == 0 {
        assert Awake(limit, p, k);
      }
    } else {
      StepHolds(limit, p, Resume(l));
      NotifiedChanges(p.lanes, l, p.lanes[l].(woken := p.lanes[l].woken - 1));
      var rest := WaitersLeave(limit, Next(limit, p, Resume(l)));
      Prepend(limit, p, Resume(l), rest);
      steps := [Resume(l)] + rest;
    }
  }

  /** From every state closing lets all waiters leave. */
  lemma CloseFreesEverybody(limit: Limits, p: Pool) returns (steps: seq<Step>)
    requires Inv(limit, p)
    ensures Feasible(limit, p, steps) && NobodyWaits(Run(limit, p, steps)) && Run(limit, p, steps).closed
    ensures forall s :: s in steps ==> s.Close? || s.Resume?
  {
    StepHolds(limit, p, Close);
    var rest := WaitersLeave(limit, Next(limit, p, Close));
    Prepend(limit, p, Close, rest);
    steps := [Close] + rest;
    StaysClosed(limit, p, steps);
  }

  lemma {:induction false} StaysClosed(limit: Limits, p: Pool, steps: seq<Step>)
    requires Inv(limit, p) && Feasible(limit, p, steps)
    ensures Run(limit, p, steps).closed <==> p.closed || Close in steps
    decreases |steps|
  {
    if steps != [] {
      StepHolds(limit, p, steps[0]);
      SettingsAreCalls(limit, p, steps[0]);
      StaysClosed(limit, Next(limit, p, steps[0]), steps[1..]);
      assert steps == [steps[0]] + steps[1..];
    }
  }

  // ---------- Admission ----------

  /** A slot is given only within the capacity and the lane's limit of that moment, and never after closing. */
  lemma AdmitsOnlyWithRoom(limit: Limits, p: Pool, s: Step, l: nat)
    requires Inv(limit, p) && Ready(p, s) && l < |p.lanes|
    ensures var q := Next(limit, p, s);
      && |q.lanes| == |p.lanes|
      && (q.lanes[l].inflight > p.lanes[l].inflight ==>
            !p.closed && q.inflight <= q.capacity && q.lanes[l].inflight <= limit(q.capacity, l))
      && (q.inflight > p.inflight ==> s == Acquire(s.l) || s == Resume(s.l))
  {
    StepSums(limit, p, s);
  }

  ghost predicate Within(limit: Limits, p: Pool) {
    p.inflight <= p.capacity && forall l :: 0 <= l < |p.lanes| ==> p.lanes[l].inflight <= limit(p.capacity, l)
  }

  /** While the capacity is not changed, the pool stays within it and every lane within its limit. */
  lemma StaysWithin(limit: Limits, p: Pool, s: Step)
    requires Inv(limit, p) && Ready(p, s) && !s.SetCapacity? && Within(limit, p)
    ensures Within(limit, Next(limit, p, s))
  {
    StepSums(limit, p, s);
    forall l | 0 <= l < |p.lanes| ensures Next(limit, p, s).lanes[l].inflight <= limit(p.capacity, l) {
      AdmitsOnlyWithRoom(limit, p, s, l);
    }
  }

  // ---------- Reserves ----------

  function Sum(s: seq<nat>): nat {
    if s == [] then 0 else Sum(s[..|s| - 1]) + s[|s| - 1]
  }

  lemma {:induction false} SumChanged(s: seq<nat>, l: nat, x: nat)
    requires l < |s|
    ensures Sum(s[l := x]) == Sum(s) - s[l] + x
  {
    if l == |s| - 1 {
      assert s[l := x][..l] == s[..l];
    } else {
      assert s[l := x][..|s| - 1] == s[..|s| - 1][l := x];
      SumChanged(s[..|s| - 1], l, x);
    }
  }

  lemma {:induction false} SumCovers(s: seq<nat>, l: nat)
    requires l < |s|
    ensures s[l] <= Sum(s)
  {
    if l < |s| - 1 {
      SumCovers(s[..|s| - 1], l);
    }
  }

  lemma {:induction false} SumGrows(s: seq<nat>, t: seq<nat>)
    requires |s| == |t| && forall i :: 0 <= i < |s| ==> s[i] <= t[i]
    ensures Sum(s) <= Sum(t)
  {
    if s != [] {
      SumGrows(s[..|s| - 1], t[..|t| - 1]);
    }
  }

  /** How the lanes of an open pool of fixed capacity may be filled. */
  ghost predicate Filling(counts: seq<nat>, caps: seq<nat>, capacity: nat) {
    && |counts| == |caps| && Sum(counts) <= capacity
    && forall i :: 0 <= i < |caps| ==> counts[i] <= caps[i]
  }

  /** A lane that holds fewer than `need` slots always finds one free. */
  ghost predicate ReserveHolds(caps: seq<nat>, l: nat, need: nat, capacity: nat)
    requires l < |caps|
  {
    forall counts: seq<nat> :: Filling(counts, caps, capacity) && counts[l] < need ==> Sum(counts) < capacity
  }

  lemma {:induction false} FillUp(caps: seq<nat>, total: nat) returns (counts: seq<nat>)
    requires total <= Sum(caps)
    ensures |counts| == |caps| && Sum(counts) == total && forall i :: 0 <= i < |caps| ==> counts[i] <= caps[i]
  {
    if caps == [] {
      counts := [];
    } else {
      var last := caps[|caps| - 1];
      var take := if total < last then total else last;
      var rest := FillUp(caps[..|caps| - 1], total - take);
      counts := rest + [take];
      assert counts[..|counts| - 1] == rest;
    }
  }

  /** A lane's reserve is a guarantee exactly when what the other lanes may hold together leaves room for it. */
  lemma ReserveHoldsIff(caps: seq<nat>, l: nat, need: nat, capacity: nat)
    requires l < |caps| && 1 <= need <= caps[l]
    ensures ReserveHolds(caps, l, need, capacity) <==> Sum(caps) - caps[l] + need <= capacity
  {
    var others := caps[l := need - 1];
    SumChanged(caps, l, need - 1);
    if Sum(caps) - caps[l] + need <= capacity {
      forall counts: seq<nat> | Filling(counts, caps, capacity) && counts[l] < need ensures Sum(counts) < capacity {
        SumGrows(counts, others);
      }
    } else {
      var counts := FillUp(others, capacity);
      forall i | 0 <= i < |caps| ensures counts[i] <= caps[i] {
        assert counts[i] <= others[i];
      }
      assert Filling(counts, caps, capacity) && counts[l] < need && Sum(counts) == capacity;
    }
  }

  ghost function Counts(p: Pool): seq<nat> {
    seq(|p.lanes|, i requires 0 <= i < |p.lanes| => p.lanes[i].inflight)
  }

  lemma {:induction false} HeldIsSum(lanes: seq<Lane>, counts: seq<nat>)
    requires |counts| == |lanes| && forall i :: 0 <= i < |lanes| ==> counts[i] == lanes[i].inflight
    ensures Held(lanes) == Sum(counts)
  {
    if lanes != [] {
      HeldIsSum(lanes[..|lanes| - 1], counts[..|counts| - 1]);
    }
  }

  /** What a guaranteed reserve means for a caller: below it, and below the lane's limit, a slot is free. */
  lemma ReserveFindsASlot(limit: Limits, p: Pool, caps: seq<nat>, l: nat, need: nat)
    requires Inv(limit, p) && Within(limit, p) && l < |p.lanes| == |caps|
    requires forall i :: 0 <= i < |caps| ==> caps[i] == limit(p.capacity, i)
    requires ReserveHolds(caps, l, need, p.capacity) && p.lanes[l].inflight < need <= caps[l]
    ensures !Blocked(limit, p, l)
  {
    HeldIsSum(p.lanes, Counts(p));
    assert Filling(Counts(p), caps, p.capacity);
  }

  /** Every filling is reached by some run of arrivals, so a reserve that is no guarantee can really be missed. */
  lemma {:induction false} Reach(limit: Limits, p: Pool, counts: seq<nat>) returns (steps: seq<Step>)
    requires Inv(limit, p) && !p.closed && |counts| == |p.lanes| && Sum(counts) <= p.capacity
    requires forall i :: 0 <= i < |counts| ==> p.lanes[i].inflight <= counts[i] <= limit(p.capacity, i)
    ensures Feasible(limit, p, steps) && Counts(Run(limit, p, steps)) == counts
    decreases Sum(counts) - p.inflight
  {
    HeldIsSum(p.lanes, Counts(p));
    SumGrows(Counts(p), counts);
    if Counts(p) == counts {
      steps := [];
    } else {
      var l: nat :| l < |counts| && p.lanes[l].inflight != counts[l];
      SumChanged(Counts(p), l, p.lanes[l].inflight + 1);
      SumGrows(Counts(p)[l := p.lanes[l].inflight + 1], counts);
      StepHolds(limit, p, Acquire(l));
      var rest := Reach(limit, Next(limit, p, Acquire(l)), counts);
      steps := [Acquire(l)] + rest;
      assert steps[1..] == rest;
    }
  }

  // ---------- The limits of the program ----------

  function CeilDiv(a: int, b: int): int
    requires b > 0
  {
    (a + b - 1) / b
  }

  /** The slots that a percentage sets aside. */
  function SetAside(capacity: nat, percent: nat): nat {
    CeilDiv(capacity * percent, 100)
  }

  /** What is left to a lane when the other lanes' reserves are set aside, and never less than one. */
  function LaneLimit(capacity: nat, totalReserve: nat, reserve: nat): (limit: int)
    requires reserve <= totalReserve
    ensures limit >= 1
  {
    var left := capacity - SetAside(capacity, totalReserve - reserve);
    if left < 1 then 1 else left
  }

  lemma PairSum(x: nat, y: nat)
    ensures Sum([x, y]) == x + y
  {
    var one, two := [x], [x, y];
    assert one[..|one| - 1] == [] && two[..|two| - 1] == one;
    assert Sum(one) == x;
  }

  lemma OtherReserve(capacity: nat, mine: nat, other: nat)
    requires capacity - SetAside(capacity, other) >= 1
    ensures LaneLimit(capacity, mine + other, mine) == LaneLimit(capacity, other + mine, mine)
        == capacity - SetAside(capacity, other)
  {
    assert mine + other - mine == other;
  }

  /** With two lanes, as long as neither limit had to be raised to one, a lane below its reserve and below its
      limit always finds a slot. */
  lemma TwoLanesKeepReserves(capacity: nat, r0: nat, r1: nat, l: nat)
    requires l < 2
    requires capacity - SetAside(capacity, r0) >= 1 && capacity - SetAside(capacity, r1) >= 1
    ensures var caps: seq<nat> := [LaneLimit(capacity, r0 + r1, r0), LaneLimit(capacity, r0 + r1, r1)];
      ReserveHolds(caps, l, Least(SetAside(capacity, if l == 0 then r0 else r1), caps[l]), capacity)
  {
    var caps: seq<nat> := [LaneLimit(capacity, r0 + r1, r0), LaneLimit(capacity, r0 + r1, r1)];
    var need := Least(SetAside(capacity, if l == 0 then r0 else r1), caps[l]);
    PairSum(caps[0], caps[1]);
    assert caps == [caps[0], caps[1]];
    OtherReserve(capacity, r1, r0);
    OtherReserve(capacity, r0, r1);
    if need >= 1 {
      ReserveHoldsIff(caps, l, need, capacity);
    }
  }

  /** Where a limit was raised to one the guarantee is lost: of one slot, either lane can take the other's. */
  lemma RaisedLimitsLoseIt()
    ensures var limit := LaneLimit(1, 100, 50);
      limit == 1 && SetAside(1, 50) == 1 && !ReserveHolds([limit, limit], 1, 1, 1)
  {
    PairSum(1, 1);
    ReserveHoldsIff([1, 1], 1, 1, 1);
  }

  /** With three lanes it is not: at a capacity of ten and reserves of a fifth each, two lanes can take every slot
      while the third holds none of its two. */
  lemma ThreeLanesDoNot()
    ensures var limit := LaneLimit(10, 60, 20);
      limit == 6 && SetAside(10, 20) == 2 && !ReserveHolds([limit, limit, limit], 2, 2, 10)
  {
    var caps: seq<nat> := [6, 6, 6];
    PairSum(6, 6);
    assert caps[..2] == [6, 6];
    ReserveHoldsIff(caps, 2, 2, 10);
  }

  // ---------- The gate as the program keeps it ----------

  datatype Verdict = Admitted | Refused | Asleep

  /** Critical sections of the gate. `p` is the model's view; the gate counts its waiters without telling sleepers
      from the notified. */
  class Gate {
    const reserves: seq<nat>
    const totalReserve: nat
    const laneInflight: array<nat>
    const waiters: array<nat>
    var capacity: nat
    var inflight: nat
    var closed: bool

    ghost predicate Valid()
      reads this
    {
      laneInflight.Length == |reserves| == waiters.Length && laneInflight != waiters && totalReserve == Sum(reserves)
    }

    function Limits(): Limits
      reads this
    {
      var (total, each) := (totalReserve, reserves);
      (c: nat, l: nat) => if l < |each| && each[l] <= total then LaneLimit(c, total, each[l]) else 1
    }

    /** The gate holds what the model's pool holds; `entering` callers of lane `l` are counted but not placed. */
    ghost predicate Shows(p: Pool, l: nat, entering: nat)
      requires Valid()
      reads this, laneInflight, waiters
    {
      && |p.lanes| == |reserves| && p.capacity == capacity && p.inflight == inflight && p.closed == closed
      && forall i :: 0 <= i < |reserves| ==>
           && p.lanes[i].inflight == laneInflight[i]
           && waiters[i] == p.lanes[i].sleeping + p.lanes[i].woken + if i == l then entering else 0
    }

    constructor (reserves: seq<nat>, capacity: nat)
      ensures Valid() && fresh(laneInflight) && fresh(waiters) && this.reserves == reserves
      ensures Shows(Pool(seq(|reserves|, i => Lane(0, 0, 0, 0, 0)), capacity, 0, false), 0, 0)
    {
      this.reserves := reserves;
      this.capacity, inflight, closed := capacity, 0, false;
      laneInflight := new nat[|reserves|](i => 0);
      waiters := new nat[|reserves|](i => 0);
      totalReserve := Sum(reserves);
    }

    /** The test of `acquire` under the lock, by a caller already counted among the waiters. */
    method Check(l: nat, ghost p: Pool) returns (v: Verdict)
      requires Valid() && l < |reserves| && Shows(p, l, 1)
      modifies this, laneInflight, waiters
      ensures Valid()
      ensures v == if p.closed then Refused else if Blocked(Limits(), p, l) then Asleep else Admitted
      ensures Shows(Enter(Limits(), p, l), 0, 0)
    {
      SumCovers(reserves, l);
      if !closed && (inflight >= capacity || laneInflight[l] >= LaneLimit(capacity, totalReserve, reserves[l])) {
        return Asleep;
      }
      waiters[l] := waiters[l] - 1;
      if closed {
        return Refused;
      }
      inflight := inflight + 1;
      laneInflight[l] := laneInflight[l] + 1;
      return Admitted;
    }

    method Arrive(l: nat, ghost p: Pool) returns (v: Verdict)
      requires Valid() && l < |reserves| && Shows(p, 0, 0)
      modifies this, laneInflight, waiters
      ensures Valid()
      ensures v == if p.closed then Refused else if Blocked(Limits(), p, l) then Asleep else Admitted
      ensures Shows(Enter(Limits(), p, l), 0, 0)
    {
      waiters[l] := waiters[l] + 1;
      v := Check(l, p);
    }

    /** The locked part of `release`, and what it owes once the lock is free. */
    method Release(l: nat, ghost p: Pool) returns (saturated: bool, wake: bool)
      requires Valid() && l < |reserves| && Shows(p, 0, 0) && p.lanes[l].inflight > 0 && p.inflight > 0
      modifies this, laneInflight
      ensures Valid()
      ensures Shows(Released(p, l), 0, 0)
      ensures saturated == Full(p) && wake == (p.lanes[l].sleeping + p.lanes[l].woken > 0)
      ensures Released(p, l).lanes[l].broadcasts == p.lanes[l].broadcasts + (if saturated then 1 else 0)
      ensures Released(p, l).lanes[l].signals == p.lanes[l].signals + (if wake && !saturated then 1 else 0)
    {
      saturated := inflight >= capacity;
      inflight := inflight - 1;
      laneInflight[l] := laneInflight[l] - 1;
      wake := waiters[l] > 0;
    }

    method SetCapacity(n: nat, ghost p: Pool)
      requires Valid() && Shows(p, 0, 0)
      modifies this
      ensures Valid() && Shows(p.(capacity := n, lanes := WakeAll(p.lanes)), 0, 0)
    {
      capacity := n;
    }

    method Close(ghost p: Pool)
      requires Valid() && Shows(p, 0, 0)
      modifies this
      ensures Valid() && Shows(p.(closed := true, lanes := WakeAll(p.lanes)), 0, 0)
    {
      closed := true;
    }
  }
}
