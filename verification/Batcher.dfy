/** The write-coalescing batcher: the newest value of a key waits in memory, a flush takes all waiting values at once,
    and values that did not land are put back unless a newer one has come. */
module Batcher {
  import opened Options

  /** Puts back what was taken; a value that came meanwhile stays. */
  function Restored<K(==), V>(pending: map<K, V>, taken: map<K, V>): map<K, V> {
    taken + pending
  }

  /** The batcher's lock-protected state, as the program updates it. */
  class Batcher<K(==), V> {
    var pending: map<K, V>
    const maxSize: int

    constructor (maxSize: int)
      ensures pending == map[] && this.maxSize == maxSize
    {
      pending := map[];
      this.maxSize := maxSize;
    }

    /** `kick` asks for a flush before the next tick. */
    method Add(key: K, value: V) returns (kick: bool)
      modifies this
      ensures pending == old(pending)[key := value] && kick == (|pending| >= maxSize)
    {
      pending := pending[key := value];
      kick := |pending| >= maxSize;
    }

    /** Puts one value back unless a newer one has come. */
    method Restore(key: K, value: V)
      modifies this
      ensures pending == if key in old(pending) then old(pending) else old(pending)[key := value]
    {
      if key !in pending {
        pending := pending[key := value];
      }
    }

    method Take() returns (taken: map<K, V>)
      modifies this
      ensures taken == old(pending) && pending == map[]
    {
      taken := pending;
      pending := map[];
    }

    /** After a failed flush every taken value is put back, in whatever order the map gives them. */
    method RestoreAll(taken: map<K, V>)
      modifies this
      ensures pending == Restored(old(pending), taken)
    {
      var left := taken.Keys;
      while left != {}
        invariant left <= taken.Keys
        invariant forall k {:trigger k in pending} :: k in pending <==> k in old(pending) || (k in taken && k !in left)
        invariant forall k {:trigger pending[k]} :: k in pending ==>
          pending[k] == if k in old(pending) then old(pending)[k] else taken[k]
        decreases |left|
      {
        var k :| k in left;
        Restore(k, taken[k]);
        left := left - {k};
      }
      assert pending == Restored(old(pending), taken);
    }
  }

  // ---------- Every value of every key, by the order of its addition ----------

  type Key = nat

  /** A flush under way: what it took, and which of its keys its callback has put back itself. */
  datatype Flight = Flight(taken: map<Key, nat>, requeued: set<Key>)

  /** The background loop flushes one batch at a time; a second flush is under way only when two callers close the
      batcher at once. */
  datatype Slot = Main | Second

  /** Values are numbered per key in the order they were added; `landed` lists those a successful flush wrote. */
  datatype State = State(pending: map<Key, nat>, main: Option<Flight>, second: Option<Flight>,
                         added: map<Key, nat>, landed: map<Key, seq<nat>>)

  datatype Step = Add(k: Key) | Take(slot: Slot) | Requeue(slot: Slot, k: Key) | Succeed(slot: Slot) | Fail(slot: Slot)

  function Added(s: State, k: Key): nat {
    if k in s.added then s.added[k] else 0
  }

  function Landed(s: State, k: Key): seq<nat> {
    if k in s.landed then s.landed[k] else []
  }

  function At(s: State, slot: Slot): Option<Flight> {
    if slot.Main? then s.main else s.second
  }

  function With(s: State, slot: Slot, flight: Option<Flight>): State {
    if slot.Main? then s.(main := flight) else s.(second := flight)
  }

  predicate Ready(s: State, step: Step) {
    match step
    case Add(_) => true
    case Take(slot) => At(s, slot).None?
    case Requeue(slot, k) => At(s, slot).Some? && k in At(s, slot).value.taken
    case Succeed(slot) => At(s, slot).Some?
    case Fail(slot) => At(s, slot).Some?
  }

  function Next(s: State, step: Step): State
    requires Ready(s, step)
  {
    match step
    case Add(k) => s.(added := s.added[k := Added(s, k) + 1], pending := s.pending[k := Added(s, k) + 1])
    case Take(slot) => With(s, slot, Some(Flight(s.pending, {}))).(pending := map[])
    case Requeue(slot, k) =>
      var flight := At(s, slot).value;
      With(s, slot, Some(flight.(requeued := flight.requeued + {k}))).(
        pending := if k in s.pending then s.pending else s.pending[k := flight.taken[k]])
    case Succeed(slot) =>
      var flight := At(s, slot).value;
      With(s, slot, None).(landed := map k | k in s.landed.Keys + flight.taken.Keys ::
        Landed(s, k) + if k in flight.taken && k !in flight.requeued then [flight.taken[k]] else [])
    case Fail(slot) => With(s, slot, None).(pending := Restored(s.pending, At(s, slot).value.taken))
  }

  const EMPTY := State(map[], None, None, map[], map[])

  // ---------- One key ----------

  /** What the batcher holds of one key: its waiting value, the value under way and whether it was put back, how many
      were added, and which landed. */
  datatype View = View(waiting: Option<nat>, underway: Option<nat>, requeued: bool, added: nat, landed: seq<nat>)

  function ViewOf(s: State, k: Key): View {
    View(if k in s.pending then Some(s.pending[k]) else None,
         if s.main.Some? && k in s.main.value.taken then Some(s.main.value.taken[k]) else None,
         s.main.Some? && k in s.main.value.requeued, Added(s, k), Landed(s, k))
  }

  function Last(s: seq<nat>): int {
    if s == [] then 0 else s[|s| - 1]
  }

  ghost predicate Increasing(s: seq<nat>) {
    forall i, j :: 0 <= i < j < |s| ==> s[i] < s[j]
  }

  /** Landed values are in the order of their additions; one under way is newer than those, and one that waits is newer
      still unless it is the one put back; and the newest is waiting, under way, or the last that landed. */
  ghost predicate KeyOk(v: View) {
    && Increasing(v.landed) && Last(v.landed) <= v.added
    && (v.waiting.Some? ==> Last(v.landed) < v.waiting.value <= v.added)
    && (v.underway.Some? ==> Last(v.landed) < v.underway.value <= v.added)
    && (v.waiting.Some? && v.underway.Some? ==>
          v.underway.value < v.waiting.value || (v.requeued && v.underway.value == v.waiting.value))
    && (v.requeued ==> v.waiting.Some? && v.underway.Some?)
    && (v.waiting == Some(v.added) || v.underway == Some(v.added) || Last(v.landed) == v.added)
  }

  ghost predicate Inv(s: State) {
    s.second.None? && forall k {:trigger ViewOf(s, k)} :: KeyOk(ViewOf(s, k))
  }

  /** Flushes do not overlap. */
  predicate Serial(step: Step) {
    !step.Take? || step.slot.Main?
  }

  /** A successful flush lands what it still has under way. */
  lemma SuccessLands(s: State, k: Key)
    requires Inv(s) && s.main.Some?
    ensures KeyOk(ViewOf(Next(s, Succeed(Main)), k))
  {
    var v, w := ViewOf(s, k), ViewOf(Next(s, Succeed(Main)), k);
    assert KeyOk(v);
    assert w.waiting == v.waiting && w.underway.None? && !w.requeued && w.added == v.added;
    assert w.landed == v.landed + if v.underway.Some? && !v.requeued then [v.underway.value] else [];
  }

  lemma OthersKeep(s: State, step: Step, k: Key)
    requires Inv(s) && Ready(s, step) && Serial(step) && !step.Succeed?
    ensures KeyOk(ViewOf(Next(s, step), k))
  {
    var v, w := ViewOf(s, k), ViewOf(Next(s, step), k);
    assert KeyOk(v);
    assert w.landed == v.landed;
  }

  lemma StepHolds(s: State, step: Step)
    requires Inv(s) && Ready(s, step) && Serial(step)
    ensures Inv(Next(s, step))
  {
    forall k {:trigger ViewOf(Next(s, step), k)} ensures KeyOk(ViewOf(Next(s, step), k)) {
      if step.Succeed? {
        SuccessLands(s, k);
      } else {
        OthersKeep(s, step, k);
      }
    }
  }

  /** The steps are possible one after the other; flushes overlap only if they may. */
  ghost predicate Feasible(overlap: bool, s: State, steps: seq<Step>)
    decreases |steps|
  {
    steps != [] ==>
      Ready(s, steps[0]) && (overlap || Serial(steps[0])) && Feasible(overlap, Next(s, steps[0]), steps[1..])
  }

  function Run(overlap: bool, s: State, steps: seq<Step>): State
    requires Feasible(overlap, s, steps)
    decreases |steps|
  {
    if steps == [] then s else Run(overlap, Next(s, steps[0]), steps[1..])
  }

  lemma {:induction false} RunHolds(s: State, steps: seq<Step>)
    requires Inv(s) && Feasible(false, s, steps)
    ensures Inv(Run(false, s, steps))
    decreases |steps|
  {
    if steps != [] {
      StepHolds(s, steps[0]);
      RunHolds(Next(s, steps[0]), steps[1..]);
    }
  }

  /** In every run whose flushes do not overlap, for every key: the newest value is waiting, under way, or the last
      that landed; a value put back never stands in for a newer one; the values that landed did so in the order they
      were added; and once nothing waits and nothing is under way, the newest has landed. */
  lemma NothingLostOrReordered(steps: seq<Step>, k: Key)
    requires Feasible(false, EMPTY, steps)
    ensures var s := Run(false, EMPTY, steps);
      && KeyOk(ViewOf(s, k))
      && (s.pending == map[] && s.main.None? ==> Last(Landed(s, k)) == Added(s, k))
  {
    RunHolds(EMPTY, steps);
    assert KeyOk(ViewOf(Run(false, EMPTY, steps), k));
  }

  /** The newest value of the key is waiting, under way, or has landed. */
  ghost predicate NewestIsKept(s: State, k: Key) {
    || Added(s, k) == 0
    || (k in s.pending && s.pending[k] == Added(s, k))
    || (s.main.Some? && k in s.main.value.taken && s.main.value.taken[k] == Added(s, k))
    || (s.second.Some? && k in s.second.value.taken && s.second.value.taken[k] == Added(s, k))
    || Added(s, k) in Landed(s, k)
  }

  ghost predicate KeepsOrder(overlap: bool, steps: seq<Step>, k: Key) {
    Feasible(overlap, EMPTY, steps) ==> Increasing(Landed(Run(overlap, EMPTY, steps), k))
  }

  ghost predicate KeepsNewest(overlap: bool, steps: seq<Step>, k: Key) {
    Feasible(overlap, EMPTY, steps) ==> NewestIsKept(Run(overlap, EMPTY, steps), k)
  }

  /** The order of every key's values is kept in all runs exactly when flushes do not overlap, and so is the newest
      value of every key. */
  lemma OverlapDecides(overlap: bool)
    ensures !overlap <==> forall steps, k {:trigger KeepsOrder(overlap, steps, k)} :: KeepsOrder(overlap, steps, k)
    ensures !overlap <==> forall steps, k {:trigger KeepsNewest(overlap, steps, k)} :: KeepsNewest(overlap, steps, k)
  {
    if overlap {
      var reordering := OverlappingFlushesReorder(0);
      var losing := OverlappingFlushesLose(0);
    } else {
      forall steps, k ensures KeepsOrder(overlap, steps, k) && KeepsNewest(overlap, steps, k) {
        if Feasible(false, EMPTY, steps) {
          NothingLostOrReordered(steps, k);
        }
      }
    }
  }

  // ---------- Two flushes that overlap ----------

  lemma OneStep(s: State, step: Step, rest: seq<Step>)
    ensures Feasible(true, s, [step] + rest) <==> Ready(s, step) && Feasible(true, Next(s, step), rest)
    ensures Ready(s, step) && Feasible(true, Next(s, step), rest) ==>
      Run(true, s, [step] + rest) == Run(true, Next(s, step), rest)
  {
    assert ([step] + rest)[1..] == rest;
  }

  function Reordering(k: Key): seq<Step> {
    [Add(k)] + ([Take(Main)] + ([Add(k)] + ([Take(Second)] + (
      [Succeed(Second)] + ([Fail(Main)] + ([Take(Main)] + ([Succeed(Main)] + [])))))))
  }

  function Losing(k: Key): seq<Step> {
    [Add(k)] + ([Take(Main)] + ([Add(k)] + ([Take(Second)] + ([Fail(Main)] + ([Fail(Second)] + [])))))
  }

  /** The flush that took the older value can fail after the newer one has landed; the older value is put back, and
      landing it undoes the newer. */
  lemma OverlappingFlushesReorder(k: Key) returns (steps: seq<Step>)
    ensures Feasible(true, EMPTY, steps) && Landed(Run(true, EMPTY, steps), k) == [2, 1]
    ensures !KeepsOrder(true, steps, k)
  {
    steps := Reordering(k);
    var s1 := Next(EMPTY, Add(k));
    var s2 := Next(s1, Take(Main));
    var s3 := Next(s2, Add(k));
    var s4 := Next(s3, Take(Second));
    var s5 := Next(s4, Succeed(Second));
    var s6 := Next(s5, Fail(Main));
    var s7 := Next(s6, Take(Main));
    OneStep(s7, Succeed(Main), []);
    OneStep(s6, Take(Main), [Succeed(Main)] + []);
    OneStep(s5, Fail(Main), [Take(Main)] + ([Succeed(Main)] + []));
    OneStep(s4, Succeed(Second), [Fail(Main)] + ([Take(Main)] + ([Succeed(Main)] + [])));
    OneStep(s3, Take(Second), [Succeed(Second)] + ([Fail(Main)] + ([Take(Main)] + ([Succeed(Main)] + []))));
    OneStep(s2, Add(k),
            [Take(Second)] + ([Succeed(Second)] + ([Fail(Main)] + ([Take(Main)] + ([Succeed(Main)] + [])))));
    OneStep(s1, Take(Main),
            [Add(k)] + ([Take(Second)] +
            ([Succeed(Second)] + ([Fail(Main)] + ([Take(Main)] + ([Succeed(Main)] + []))))));
    OneStep(EMPTY, Add(k),
            [Take(Main)] + ([Add(k)] +
            ([Take(Second)] + ([Succeed(Second)] + ([Fail(Main)] + ([Take(Main)] + ([Succeed(Main)] + [])))))));
  }

  /** When both fail, the older one first, the value it puts back stands in the way of the newer, which is dropped. */
  lemma OverlappingFlushesLose(k: Key) returns (steps: seq<Step>)
    ensures !KeepsNewest(true, steps, k)
  {
    steps := Losing(k);
    var s1 := Next(EMPTY, Add(k));
    var s2 := Next(s1, Take(Main));
    var s3 := Next(s2, Add(k));
    var s4 := Next(s3, Take(Second));
    var s5 := Next(s4, Fail(Main));
    OneStep(s5, Fail(Second), []);
    OneStep(s4, Fail(Main), [Fail(Second)] + []);
    OneStep(s3, Take(Second), [Fail(Main)] + ([Fail(Second)] + []));
    OneStep(s2, Add(k), [Take(Second)] + ([Fail(Main)] + ([Fail(Second)] + [])));
    OneStep(s1, Take(Main), [Add(k)] + ([Take(Second)] + ([Fail(Main)] + ([Fail(Second)] + []))));
    OneStep(EMPTY, Add(k), [Take(Main)] + ([Add(k)] + ([Take(Second)] + ([Fail(Main)] + ([Fail(Second)] + [])))));
  }
}
