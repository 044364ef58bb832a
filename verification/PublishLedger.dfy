/** The publisher's resolution ledger: out-of-order completions in a growing ring, a bounded list of
    failures, and flushes that report them. Each method is one critical section of the publisher. */
module PublishLedger {
  import opened Options

  type Cause = string

  const MAX_PENDING_ERRORS := 128
  const FIRST_RING := 1024

  /** A ring slot; sequence 0 is an empty slot. */
  datatype Resolution = Resolution(sequence: nat, err: Option<Cause>)

  datatype PublishError = PublishError(first: nat, last: nat, cause: Cause, count: nat)

  datatype FlushError = Single(cause: Cause) | Several(count: nat, cause: Cause) | Cancelled

  datatype FlushState = FlushState(target: nat, err: Option<FlushError>)

  /** What became of every resolved sequence. */
  type Outcomes = map<nat, Option<Cause>>

  ghost function Resolve(outcome: Outcomes, sequences: seq<nat>, err: Option<Cause>): Outcomes {
    if sequences == [] then outcome
    else Resolve(outcome, sequences[..|sequences| - 1], err)[sequences[|sequences| - 1] := err]
  }

  ghost predicate Failed(outcome: Outcomes, s: nat) {
    s in outcome && outcome[s].Some?
  }

  // ---------- The failure list ----------

  function RecordError(errors: seq<PublishError>, sequence: nat, cause: Cause): seq<PublishError> {
    if |errors| < MAX_PENDING_ERRORS then errors + [PublishError(sequence, sequence, cause, 1)]
    else
      var tail := errors[|errors| - 1];
      errors[|errors| - 1 := tail.(last := sequence, count := tail.count + 1)]
  }

  /** The list after the sequences in (lo, hi] have completed. */
  ghost function Recorded(errors: seq<PublishError>, outcome: Outcomes, lo: nat, hi: nat): seq<PublishError>
    decreases hi
  {
    if hi <= lo then errors
    else
      var before := Recorded(errors, outcome, lo, hi - 1);
      if Failed(outcome, hi) then RecordError(before, hi, outcome[hi].value) else before
  }

  lemma OneMoreRecorded(errors: seq<PublishError>, outcome: Outcomes, lo: nat, hi: nat)
    requires lo <= hi
    ensures Recorded(errors, outcome, lo, hi + 1)
        == if Failed(outcome, hi + 1) then RecordError(Recorded(errors, outcome, lo, hi), hi + 1, outcome[hi + 1].value)
           else Recorded(errors, outcome, lo, hi)
  {
  }

  /** The first entry from `i` on that reaches beyond `target`. */
  function FirstBeyond(errors: seq<PublishError>, target: nat, i: nat): (k: nat)
    requires i <= |errors|
    ensures i <= k <= |errors|
    ensures forall j :: i <= j < k ==> errors[j].last <= target
    ensures k < |errors| ==> errors[k].last > target
    decreases |errors| - i
  {
    if i < |errors| && errors[i].last <= target then FirstBeyond(errors, target, i + 1) else i
  }

  function DropReported(errors: seq<PublishError>, target: nat): seq<PublishError> {
    var left := errors[FirstBeyond(errors, target, 0)..];
    if left != [] && left[0].first <= target then left[0 := left[0].(first := target + 1)] else left
  }

  function FlushErrorForTarget(target: nat, failures: seq<PublishError>): Option<FlushError> {
    if failures == [] || failures[0].first > target then None
    else if failures[0].count > 1 then Some(Several(failures[0].count, failures[0].cause))
    else Some(Single(failures[0].cause))
  }

  function CaptureFlushError(state: FlushState, failures: seq<PublishError>): FlushState {
    if state.err.Some? then state else state.(err := FlushErrorForTarget(state.target, failures))
  }

  function CaptureAll(active: map<nat, FlushState>, failures: seq<PublishError>): map<nat, FlushState> {
    map id | id in active :: CaptureFlushError(active[id], failures)
  }

  ghost predicate Covered(errors: seq<PublishError>, s: nat) {
    exists i :: 0 <= i < |errors| && errors[i].first <= s <= errors[i].last
  }

  ghost predicate Before(errors: seq<PublishError>, i: nat, j: nat)
    requires i < |errors| && j < |errors|
  {
    errors[i].last < errors[j].first
  }

  /** A range within (high, upto] that ends in a real failure; a range of one is that failure. */
  ghost predicate EntryOk(e: PublishError, outcome: Outcomes, high: nat, upto: nat) {
    && high < e.first <= e.last <= upto && e.last in outcome && outcome[e.last].Some?
    && e.count > 0 && (e.count == 1 ==> e.first == e.last)
  }

  /** Sorted, disjoint ranges within (high, upto], each ending in a real failure. */
  ghost predicate Sorted(errors: seq<PublishError>, outcome: Outcomes, high: nat, upto: nat) {
    && |errors| <= MAX_PENDING_ERRORS
    && (forall i :: 0 <= i < |errors| ==> EntryOk(errors[i], outcome, high, upto))
    && (forall i: nat, j: nat {:trigger Before(errors, i, j)} :: i < j < |errors| ==> Before(errors, i, j))
  }

  /** Every failure in (high, upto] lies in some range of the list. */
  ghost predicate CoversFailures(errors: seq<PublishError>, outcome: Outcomes, high: nat, upto: nat) {
    forall s: nat {:trigger Failed(outcome, s)} :: Failed(outcome, s) && high < s <= upto ==> Covered(errors, s)
  }

  lemma RecordKeepsCover(errors: seq<PublishError>, sequence: nat, cause: Cause, s: nat)
    requires Covered(errors, s) && forall i :: 0 <= i < |errors| ==> errors[i].last < sequence
    ensures Covered(RecordError(errors, sequence, cause), s)
  {
    var i :| 0 <= i < |errors| && errors[i].first <= s <= errors[i].last;
    var after := RecordError(errors, sequence, cause);
    assert after[i].first <= s <= after[i].last;
  }

  lemma RecordKeepsSorted(errors: seq<PublishError>, outcome: Outcomes, high: nat, sequence: nat)
    requires high < sequence && Sorted(errors, outcome, high, sequence - 1) && Failed(outcome, sequence)
    ensures Sorted(RecordError(errors, sequence, outcome[sequence].value), outcome, high, sequence)
    ensures Covered(RecordError(errors, sequence, outcome[sequence].value), sequence)
  {
    var after := RecordError(errors, sequence, outcome[sequence].value);
    assert after[|after| - 1].first <= sequence <= after[|after| - 1].last;
    forall i: nat, j: nat {:trigger Before(after, i, j)} | i < j < |after| ensures Before(after, i, j) {
      assert j < |errors| ==> Before(errors, i, j);
    }
  }

  /** Completing a stretch of sequences keeps the list in order and covers the new failures. */
  lemma {:induction false} RecordedCovers(errors: seq<PublishError>, outcome: Outcomes, high: nat, lo: nat, hi: nat)
    requires high <= lo <= hi
    requires Sorted(errors, outcome, high, lo) && CoversFailures(errors, outcome, high, lo)
    ensures Sorted(Recorded(errors, outcome, lo, hi), outcome, high, hi)
    ensures CoversFailures(Recorded(errors, outcome, lo, hi), outcome, high, hi)
    decreases hi
  {
    if hi > lo {
      RecordedCovers(errors, outcome, high, lo, hi - 1);
      var before := Recorded(errors, outcome, lo, hi - 1);
      if Failed(outcome, hi) {
        RecordKeepsSorted(before, outcome, high, hi);
        forall s: nat {:trigger Failed(outcome, s)} | Failed(outcome, s) && high < s < hi
          ensures Covered(RecordError(before, hi, outcome[hi].value), s) {
          RecordKeepsCover(before, hi, outcome[hi].value, s);
        }
      }
    }
  }

  /** What is left after a drop: the entries from the first one beyond the target on, the first perhaps cut. */
  lemma DropLeaves(errors: seq<PublishError>, target: nat, i: nat)
    ensures var k, after := FirstBeyond(errors, target, 0), DropReported(errors, target);
      && |after| == |errors| - k
      && (i < |after| ==>
            && after[i].last == errors[k + i].last && after[i].count == errors[k + i].count
            && after[i].first == (if i == 0 && errors[k].first <= target then target + 1 else errors[k + i].first))
  {
  }

  /** Dropping what a flush reported keeps the order and loses nothing above its target. */
  lemma DropKeeps(errors: seq<PublishError>, outcome: Outcomes, high: nat, upto: nat, target: nat)
    requires Sorted(errors, outcome, high, upto)
    ensures Sorted(DropReported(errors, target), outcome, if target > high then target else high, upto)
    ensures forall s: nat :: s > target && Covered(errors, s) ==> Covered(DropReported(errors, target), s)
  {
    var least, after := if target > high then target else high, DropReported(errors, target);
    forall i: nat, j: nat {:trigger Before(after, i, j)} | i < j < |after| ensures Before(after, i, j) {
      DropKeepsOrder(errors, outcome, high, upto, target, i, j);
    }
    forall i: nat | i < |after| ensures EntryOk(after[i], outcome, least, upto) {
      DropKeepsEntry(errors, outcome, high, upto, target, i);
    }
    forall s: nat | s > target && Covered(errors, s) ensures Covered(after, s) {
      DropCovers(errors, target, s);
    }
    DropLeaves(errors, target, 0);
  }

  lemma DropKeepsOrder(errors: seq<PublishError>, outcome: Outcomes, high: nat, upto: nat, target: nat, i: nat, j: nat)
    requires Sorted(errors, outcome, high, upto) && i < j < |DropReported(errors, target)|
    ensures Before(DropReported(errors, target), i, j)
  {
    var k := FirstBeyond(errors, target, 0);
    DropLeaves(errors, target, i);
    DropLeaves(errors, target, j);
    assert Before(errors, k + i, k + j);
  }

  lemma DropKeepsEntry(errors: seq<PublishError>, outcome: Outcomes, high: nat, upto: nat, target: nat, i: nat)
    requires Sorted(errors, outcome, high, upto) && i < |DropReported(errors, target)|
    ensures EntryOk(DropReported(errors, target)[i], outcome, if target > high then target else high, upto)
  {
    var k := FirstBeyond(errors, target, 0);
    DropLeaves(errors, target, i);
    assert EntryOk(errors[k + i], outcome, high, upto);
    assert i > 0 ==> Before(errors, k, k + i);
  }

  lemma DropKeepsCover(errors: seq<PublishError>, outcome: Outcomes, high: nat, upto: nat, target: nat)
    requires CoversFailures(errors, outcome, high, upto)
    ensures CoversFailures(DropReported(errors, target), outcome, if target > high then target else high, upto)
  {
    forall s: nat {:trigger Failed(outcome, s)}
      | Failed(outcome, s) && (if target > high then target else high) < s <= upto
      ensures Covered(DropReported(errors, target), s) {
      DropCovers(errors, target, s);
    }
  }

  lemma DropCovers(errors: seq<PublishError>, target: nat, s: nat)
    requires s > target && Covered(errors, s)
    ensures Covered(DropReported(errors, target), s)
  {
    var i :| 0 <= i < |errors| && errors[i].first <= s <= errors[i].last;
    var k, after := FirstBeyond(errors, target, 0), DropReported(errors, target);
    DropLeaves(errors, target, i - k);
    assert after[i - k].first <= s <= after[i - k].last;
  }

  // ---------- Flushes ----------

  /** A flush that has captured no error owes none for what other flushes already reported: between `floor`,
      the highest target reported before it registered, and its own target, nothing at or below `high` failed. */
  ghost predicate NothingHidden(state: FlushState, floor: nat, outcome: Outcomes, high: nat) {
    state.err.None? ==>
      forall s: nat {:trigger Failed(outcome, s)} :: Failed(outcome, s) && floor < s <= state.target ==> s > high
  }

  /** A flush without a captured error faces a list that starts beyond its target. */
  lemma NoErrorMeansNoFailure(state: FlushState, floor: nat, errors: seq<PublishError>, outcome: Outcomes, high: nat,
                              upto: nat, s: nat)
    requires Sorted(errors, outcome, high, upto) && CoversFailures(errors, outcome, high, upto)
    requires NothingHidden(state, floor, outcome, high)
    requires CaptureFlushError(state, errors).err.None?
    requires floor < s <= state.target && s <= upto
    ensures !Failed(outcome, s)
  {
    forall i | 0 < i < |errors| ensures errors[i].first > state.target {
      assert Before(errors, 0, i);
    }
  }

  /** When one flush reports up to `target`, the others, having captured first, still hide nothing. */
  lemma DropHidesNothing(state: FlushState, floor: nat, errors: seq<PublishError>, outcome: Outcomes, high: nat,
                         upto: nat, target: nat)
    requires Sorted(errors, outcome, high, upto) && CoversFailures(errors, outcome, high, upto)
    requires NothingHidden(state, floor, outcome, high) && target <= upto
    ensures NothingHidden(CaptureFlushError(state, errors), floor, outcome, if target > high then target else high)
  {
    if CaptureFlushError(state, errors).err.None? {
      forall s: nat {:trigger Failed(outcome, s)} | Failed(outcome, s) && floor < s <= state.target
        ensures s > high && s > target
      {
        if s <= target {
          NoErrorMeansNoFailure(state, floor, errors, outcome, high, upto, s);
        }
      }
    }
  }

  /** While no ranges were merged, an error is reported exactly when an unreported failure is at or below the target. */
  lemma ExactWhileUnmerged(errors: seq<PublishError>, outcome: Outcomes, high: nat, upto: nat, target: nat)
    requires Sorted(errors, outcome, high, upto) && CoversFailures(errors, outcome, high, upto) && target <= upto
    requires forall i :: 0 <= i < |errors| ==> errors[i].count == 1
    ensures FlushErrorForTarget(target, errors).Some? <==>
              exists s: nat {:trigger Failed(outcome, s)} :: Failed(outcome, s) && high < s <= target
  {
    if FlushErrorForTarget(target, errors).Some? {
      assert Failed(outcome, errors[0].last);
    }
    if s: nat {:trigger Failed(outcome, s)} :| Failed(outcome, s) && high < s <= target {
      var i :| 0 <= i < |errors| && errors[i].first <= s <= errors[i].last;
      assert i > 0 ==> Before(errors, 0, i);
    }
  }

  /** Merging over-reports: with a full list, the merged tail covers the successes between two failures, and once a
      flush has reported its lower part, a later flush that ends before the next failure still gets an error. */
  lemma MergedTailOverReports(errors: seq<PublishError>, outcome: Outcomes, high: nat, failure: nat, reported: nat,
                              target: nat)
    requires failure > 0 && |errors| == MAX_PENDING_ERRORS
    requires Sorted(errors, outcome, high, failure - 1) && Failed(outcome, failure)
    requires errors[MAX_PENDING_ERRORS - 1].last <= reported < target < failure
    requires forall s: nat {:trigger Failed(outcome, s)} :: reported < s < failure ==> !Failed(outcome, s)
    ensures var left := DropReported(RecordError(errors, failure, outcome[failure].value), reported);
      FlushErrorForTarget(target, left).Some?
  {
    forall i | 0 <= i < |errors| ensures errors[i].last <= reported {
      assert i < |errors| - 1 ==> Before(errors, i, |errors| - 1);
    }
    var merged := RecordError(errors, failure, outcome[failure].value);
    assert FirstBeyond(merged, reported, 0) == |errors| - 1;
  }

  /** A flush to `target` reports an error exactly when an unreported failure lies at or below it. */
  ghost predicate Exact(errors: seq<PublishError>, outcome: Outcomes, high: nat, target: nat) {
    FlushErrorForTarget(target, errors).Some? <==>
      exists s: nat {:trigger Failed(outcome, s)} :: Failed(outcome, s) && high < s <= target
  }

  /** Reports are exact, whatever the target, exactly when the first pending range begins with a failure: when it is
      not the rest of a merged range of which an earlier flush reported the lower part. */
  lemma ExactIff(errors: seq<PublishError>, outcome: Outcomes, high: nat, upto: nat)
    requires Sorted(errors, outcome, high, upto) && CoversFailures(errors, outcome, high, upto)
    ensures (forall target: nat {:trigger Exact(errors, outcome, high, target)} :: target <= upto ==>
      Exact(errors, outcome, high, target))
       <==> errors == [] || Failed(outcome, errors[0].first)
  {
    if errors == [] || Failed(outcome, errors[0].first) {
      forall target: nat {:trigger Exact(errors, outcome, high, target)} | target <= upto
        ensures Exact(errors, outcome, high, target) {
        if s: nat {:trigger Failed(outcome, s)} :| Failed(outcome, s) && high < s <= target {
          FirstIsLeast(errors, outcome, high, upto, s);
        }
      }
    } else {
      var first := errors[0].first;
      if Exact(errors, outcome, high, first) {
        var s: nat {:trigger Failed(outcome, s)} :| Failed(outcome, s) && high < s <= first;
        FirstIsLeast(errors, outcome, high, upto, s);
      }
    }
  }

  lemma FirstIsLeast(errors: seq<PublishError>, outcome: Outcomes, high: nat, upto: nat, s: nat)
    requires Sorted(errors, outcome, high, upto) && CoversFailures(errors, outcome, high, upto)
    requires Failed(outcome, s) && high < s <= upto
    ensures errors != [] && errors[0].first <= s
  {
    var i :| 0 <= i < |errors| && errors[i].first <= s <= errors[i].last;
    assert i > 0 ==> Before(errors, 0, i);
  }

  /** The first `n` sequences, of which only number 129 succeeded. */
  function Mostly(cause: Cause, n: nat): (outcome: Outcomes)
    ensures forall s :: s in outcome <==> 1 <= s <= n
    ensures forall s :: s in outcome ==> outcome[s] == if s == 129 then None else Some(cause)
  {
    if n == 0 then map[] else Mostly(cause, n - 1)[n := if n == 129 then None else Some(cause)]
  }

  lemma {:induction false} SinglesUpTo(cause: Cause, n: nat)
    requires n <= MAX_PENDING_ERRORS
    ensures Recorded([], Mostly(cause, 130), 0, n)
        == seq(n, i requires 0 <= i < n => PublishError(i + 1, i + 1, cause, 1))
  {
    if n > 0 {
      SinglesUpTo(cause, n - 1);
      assert Failed(Mostly(cause, 130), n);
    }
  }

  /** A ledger that over-reports: one flush reports up to 128, and the next, to 129, gets an error although 129
      succeeded. */
  lemma OverReports(cause: Cause)
    ensures var outcome := Mostly(cause, 130);
      var left := DropReported(Recorded([], outcome, 0, 130), 128);
      && Sorted(left, outcome, 128, 130) && CoversFailures(left, outcome, 128, 130)
      && FlushErrorForTarget(129, left) == Some(Several(2, cause)) && !Failed(outcome, 129)
  {
    var outcome := Mostly(cause, 130);
    RecordedCovers([], outcome, 0, 0, 130);
    var errors := Recorded([], outcome, 0, 130);
    DropKeeps(errors, outcome, 0, 130, 128);
    assert Sorted(DropReported(errors, 128), outcome, 128, 130);
    DropKeepsCover(errors, outcome, 0, 130, 128);
    TailIsMerged(cause);
  }

  lemma TailIsMerged(cause: Cause)
    ensures DropReported(Recorded([], Mostly(cause, 130), 0, 130), 128) == [PublishError(129, 130, cause, 2)]
  {
    MergedList(cause);
    CutTail(Recorded([], Mostly(cause, 130), 0, 130), cause);
  }

  lemma MergedList(cause: Cause)
    ensures var errors := Recorded([], Mostly(cause, 130), 0, 130);
      && |errors| == MAX_PENDING_ERRORS && errors[127] == PublishError(128, 130, cause, 2)
      && forall i :: 0 <= i < 127 ==> errors[i].last == i + 1
  {
    var outcome := Mostly(cause, 130);
    SinglesUpTo(cause, 128);
    assert Failed(outcome, 130) && !Failed(outcome, 129);
    assert Recorded([], outcome, 0, 129) == Recorded([], outcome, 0, 128);
    assert Recorded([], outcome, 0, 130) == RecordError(Recorded([], outcome, 0, 128), 130, cause);
  }

  lemma CutTail(errors: seq<PublishError>, cause: Cause)
    requires |errors| == MAX_PENDING_ERRORS && errors[127] == PublishError(128, 130, cause, 2)
    requires forall i :: 0 <= i < 127 ==> errors[i].last == i + 1
    ensures DropReported(errors, 128) == [PublishError(129, 130, cause, 2)]
  {
    var k := FirstBeyond(errors, 128, 0);
    assert k == 127;
    assert errors[127..] == [errors[127]];
  }

  // ---------- The ring ----------

  /** `s % n`, by repeated subtraction. */
  ghost function Slot(s: nat, n: nat): (k: nat)
    ensures n > 0 ==> k < n
  {
    if s < n || n == 0 then s else Slot(s - n, n)
  }

  lemma {:induction false} SlotIsRemainder(s: nat, n: nat)
    requires n > 0
    ensures Slot(s, n) == s % n
  {
    if s >= n {
      SlotIsRemainder(s - n, n);
      var q, r := (s - n) / n, (s - n) % n;
      assert n * (q + 1) == n * q + n;
      Remainder(s, n, q + 1, r);
    }
  }

  lemma Remainder(s: nat, n: nat, q: nat, r: nat)
    requires r < n && s == n * q + r
    ensures s % n == r
  {
    assert s == n * (s / n) + s % n;
    if s / n < q {
      Spread(n, s / n, q);
    } else if q < s / n {
      Spread(n, q, s / n);
    }
  }

  lemma {:induction false} Spread(n: nat, p: nat, q: nat)
    requires p < q
    ensures n * p + n <= n * q
  {
    assert n * q == n * (q - 1) + n;
    if p < q - 1 {
      Spread(n, p, q - 1);
    }
  }

  /** Two outstanding sequences never share a slot. */
  lemma {:induction false} NoAlias(s: nat, t: nat, n: nat)
    requires s < t < s + n
    ensures Slot(s, n) != Slot(t, n)
    decreases s
  {
    if s >= n {
      NoAlias(s - n, t - n, n);
    }
  }

  ghost predicate Held(ring: seq<Resolution>, outcome: Outcomes, completed: nat, s: nat)
    requires s in outcome
  {
    |ring| > 0 && s < completed + |ring| && ring[Slot(s, |ring|)] == Resolution(s, outcome[s])
  }

  ghost predicate Occupied(ring: seq<Resolution>, outcome: Outcomes, completed: nat, i: nat)
    requires i < |ring|
  {
    var s := ring[i].sequence;
    s in outcome && s > completed && i == Slot(s, |ring|)
  }

  /** The ring holds exactly the sequences resolved beyond `completed`, each in its own slot. */
  ghost predicate RingHolds(ring: seq<Resolution>, outcome: Outcomes, completed: nat) {
    && (ring == [] ==> outcome == map[])
    && (forall s: nat {:trigger Held(ring, outcome, completed, s)} :: s in outcome && s > completed ==>
      Held(ring, outcome, completed, s))
    && (forall i: nat {:trigger Occupied(ring, outcome, completed, i)} ::
          i < |ring| && ring[i].sequence != 0 ==> Occupied(ring, outcome, completed, i))
  }

  /** `completed` is the longest contiguous prefix of the resolved sequences. */
  ghost predicate LongestPrefix(outcome: Outcomes, completed: nat) {
    && (forall s :: 1 <= s <= completed ==> s in outcome)
    && completed + 1 !in outcome
  }

  lemma PutKeepsRing(ring: seq<Resolution>, outcome: Outcomes, completed: nat, s: nat, err: Option<Cause>)
    requires ring != [] && RingHolds(ring, outcome, completed)
    requires completed < s < completed + |ring| && s !in outcome
    ensures RingHolds(ring[Slot(s, |ring|) := Resolution(s, err)], outcome[s := err], completed)
  {
    var ring', outcome' := ring[Slot(s, |ring|) := Resolution(s, err)], outcome[s := err];
    forall t: nat {:trigger Held(ring', outcome', completed, t)} | t in outcome' && t > completed
      ensures Held(ring', outcome', completed, t)
    {
      if t != s {
        assert Held(ring, outcome, completed, t);
        Apart(s, t, |ring|);
      }
    }
    forall i: nat {:trigger Occupied(ring', outcome', completed, i)} | i < |ring'| && ring'[i].sequence != 0
      ensures Occupied(ring', outcome', completed, i)
    {
      assert i != Slot(s, |ring|) ==> Occupied(ring, outcome, completed, i);
    }
  }

  lemma Apart(s: nat, t: nat, n: nat)
    requires s != t && s < t + n && t < s + n
    ensures Slot(s, n) != Slot(t, n)
  {
    if s < t {
      NoAlias(s, t, n);
    } else {
      NoAlias(t, s, n);
    }
  }

  lemma AdvanceKeepsRing(ring: seq<Resolution>, outcome: Outcomes, completed: nat)
    requires ring != [] && RingHolds(ring, outcome, completed) && completed + 1 in outcome
    ensures RingHolds(ring[Slot(completed + 1, |ring|) := Resolution(0, None)], outcome, completed + 1)
  {
    var next := completed + 1;
    var ring' := ring[Slot(next, |ring|) := Resolution(0, None)];
    assert Held(ring, outcome, completed, next);
    forall t: nat {:trigger Held(ring', outcome, next, t)} | t in outcome && t > next
      ensures Held(ring', outcome, next, t) {
      assert Held(ring, outcome, completed, t);
      Apart(next, t, |ring|);
    }
    forall i: nat {:trigger Occupied(ring', outcome, next, i)} | i < |ring'| && ring'[i].sequence != 0
      ensures Occupied(ring', outcome, next, i)
    {
      assert Occupied(ring, outcome, completed, i);
    }
  }

  /** One turn of the advance: the next sequence leaves the ring. */
  lemma AdvanceStep(ring: seq<Resolution>, outcome: Outcomes, completed: nat)
    requires ring != [] && RingHolds(ring, outcome, completed) && completed + 1 in outcome
    ensures RingHolds(ring[(completed + 1) % |ring| := Resolution(0, None)], outcome, completed + 1)
  {
    SlotIsRemainder(completed + 1, |ring|);
    AdvanceKeepsRing(ring, outcome, completed);
  }

  /** The slot of the next sequence tells whether it has been resolved. */
  lemma NextSlot(ring: seq<Resolution>, outcome: Outcomes, completed: nat)
    requires ring != [] && RingHolds(ring, outcome, completed)
    ensures var entry := ring[(completed + 1) % |ring|];
      if entry.sequence == completed + 1 then
        completed + 1 in outcome && entry == Resolution(completed + 1, outcome[completed + 1])
      else completed + 1 !in outcome
  {
    SlotIsRemainder(completed + 1, |ring|);
    var k := Slot(completed + 1, |ring|);
    if ring[k].sequence != 0 {
      assert Occupied(ring, outcome, completed, k);
    }
    if completed + 1 in outcome {
      assert Held(ring, outcome, completed, completed + 1);
    }
  }

  /** A larger ring into which the first `upto` slots of `ring` have been copied. */
  ghost predicate Copied(ring: seq<Resolution>, upto: nat, grown: seq<Resolution>, completed: nat) {
    && upto <= |ring| <= |grown|
    && (forall i :: 0 <= i < upto && ring[i].sequence > completed ==> grown[Slot(ring[i].sequence, |grown|)] == ring[i])
    && (forall j: nat {:trigger CopiedFrom(ring, upto, grown, completed, j)} ::
          j < |grown| && grown[j].sequence != 0 ==> CopiedFrom(ring, upto, grown, completed, j))
  }

  ghost predicate CopiedFrom(ring: seq<Resolution>, upto: nat, grown: seq<Resolution>, completed: nat, j: nat)
    requires j < |grown| && upto <= |ring|
  {
    && grown[j].sequence > completed && j == Slot(grown[j].sequence, |grown|)
    && exists i :: 0 <= i < upto && ring[i] == grown[j]
  }

  lemma CopyStep(ring: seq<Resolution>, i: nat, grown: seq<Resolution>, outcome: Outcomes, completed: nat)
    requires RingHolds(ring, outcome, completed) && i < |ring| && Copied(ring, i, grown, completed)
    ensures Copied(ring, i + 1,
              if ring[i].sequence > completed then grown[Slot(ring[i].sequence, |grown|) := ring[i]]
              else grown, completed)
  {
    var s, n := ring[i].sequence, |grown|;
    var after := if s > completed then grown[Slot(s, n) := ring[i]] else grown;
    if s > completed {
      assert Occupied(ring, outcome, completed, i) && Held(ring, outcome, completed, s);
    }
    forall k | 0 <= k < i && ring[k].sequence > completed ensures after[Slot(ring[k].sequence, n)] == ring[k] {
      var t := ring[k].sequence;
      assert Occupied(ring, outcome, completed, k) && Held(ring, outcome, completed, t);
      if s > completed {
        Apart(s, t, n);
      }
    }
    forall j: nat {:trigger CopiedFrom(ring, i + 1, after, completed, j)} | j < n && after[j].sequence != 0
      ensures CopiedFrom(ring, i + 1, after, completed, j)
    {
      if s > completed && j == Slot(s, n) {
        assert ring[i] == after[j];
      } else {
        assert CopiedFrom(ring, i, grown, completed, j);
      }
    }
  }

  lemma CopyDone(ring: seq<Resolution>, grown: seq<Resolution>, outcome: Outcomes, completed: nat)
    requires RingHolds(ring, outcome, completed) && grown != [] && Copied(ring, |ring|, grown, completed)
    ensures RingHolds(grown, outcome, completed)
  {
    forall s: nat {:trigger Held(grown, outcome, completed, s)} | s in outcome && s > completed
      ensures Held(grown, outcome, completed, s)
    {
      assert Held(ring, outcome, completed, s);
      assert ring[Slot(s, |ring|)].sequence == s;
    }
    forall j: nat {:trigger Occupied(grown, outcome, completed, j)} | j < |grown| && grown[j].sequence != 0
      ensures Occupied(grown, outcome, completed, j)
    {
      assert CopiedFrom(ring, |ring|, grown, completed, j);
      var i :| 0 <= i < |ring| && ring[i] == grown[j];
      assert Occupied(ring, outcome, completed, i);
    }
  }

  ghost predicate FlushesOk(active: map<nat, FlushState>, floor: map<nat, nat>, nextFlush: nat, accepted: nat,
                            outcome: Outcomes, high: nat)
  {
    && floor.Keys == active.Keys
    && (forall id :: id in active ==>
          && id <= nextFlush && active[id].target <= accepted
          && NothingHidden(active[id], floor[id], outcome, high))
  }

  /** A resolution beyond `completed` touches neither the failure list nor the flushes. */
  lemma PutKeepsReports(errors: seq<PublishError>, active: map<nat, FlushState>, floor: map<nat, nat>, nextFlush: nat,
                        accepted: nat, outcome: Outcomes, high: nat, completed: nat, s: nat, err: Option<Cause>)
    requires Sorted(errors, outcome, high, completed) && CoversFailures(errors, outcome, high, completed)
    requires FlushesOk(active, floor, nextFlush, accepted, outcome, high)
    requires high <= completed < s
    ensures Sorted(errors, outcome[s := err], high, completed)
    ensures CoversFailures(errors, outcome[s := err], high, completed)
    ensures FlushesOk(active, floor, nextFlush, accepted, outcome[s := err], high)
  {
    var after := outcome[s := err];
    forall t: nat {:trigger Failed(after, t)} | Failed(after, t) && t <= completed ensures Failed(outcome, t) {}
    forall id | id in active ensures NothingHidden(active[id], floor[id], after, high) {
      assert NothingHidden(active[id], floor[id], outcome, high);
      forall t: nat {:trigger Failed(after, t)}
        | active[id].err.None? && Failed(after, t) && floor[id] < t <= active[id].target
        ensures t > high
      {
        assert t == s || Failed(outcome, t);
      }
    }
  }

  /** The books after one flush has captured for all, left, and dropped what it reported. */
  lemma FlushLeaves(errors: seq<PublishError>, active: map<nat, FlushState>, floor: map<nat, nat>, nextFlush: nat,
                    accepted: nat, outcome: Outcomes, high: nat, completed: nat, target: nat, flushID: nat)
    requires Sorted(errors, outcome, high, completed) && CoversFailures(errors, outcome, high, completed)
    requires FlushesOk(active, floor, nextFlush, accepted, outcome, high) && target <= completed
    ensures var high' := if target > high then target else high;
      && Sorted(DropReported(errors, target), outcome, high', completed)
      && CoversFailures(DropReported(errors, target), outcome, high', completed)
      && FlushesOk(CaptureAll(active, errors) - {flushID}, floor - {flushID},
                   nextFlush, accepted, outcome, high')
  {
    var high' := if target > high then target else high;
    DropKeeps(errors, outcome, high, completed, target);
    forall id | id in active ensures NothingHidden(CaptureFlushError(active[id], errors), floor[id], outcome, high') {
      DropHidesNothing(active[id], floor[id], errors, outcome, high, completed, target);
    }
  }

  /** What a flush that leaves without an error vouches for. */
  lemma CleanFlush(state: FlushState, floor: nat, errors: seq<PublishError>, outcome: Outcomes, high: nat, upto: nat)
    requires Sorted(errors, outcome, high, upto) && CoversFailures(errors, outcome, high, upto)
    requires NothingHidden(state, floor, outcome, high)
    requires CaptureFlushError(state, errors).err.None? && state.target <= upto
    ensures forall s: nat {:trigger Failed(outcome, s)} :: floor < s <= state.target ==> !Failed(outcome, s)
  {
    forall s: nat {:trigger Failed(outcome, s)} | floor < s <= state.target ensures !Failed(outcome, s) {
      NoErrorMeansNoFailure(state, floor, errors, outcome, high, upto, s);
    }
  }

  // ---------- Whose failure is reported ----------

  /** How many sequences of [lo, hi] failed. */
  ghost function Failures(outcome: Outcomes, lo: nat, hi: nat): nat {
    if hi < lo || hi == 0 then 0 else Failures(outcome, lo, hi - 1) + if Failed(outcome, hi) then 1 else 0
  }

  /** The entry stands for the failures of [origin, e.last]: its cause is that of the first, and its count is their
      number. It begins there, but for what earlier flushes have reported of it. */
  ghost predicate Tells(e: PublishError, outcome: Outcomes, high: nat, origin: nat) {
    && 0 < origin <= e.first && (origin == e.first || origin <= high) && (e.count == 1 ==> origin == e.first)
    && origin in outcome && outcome[origin] == Some(e.cause) && e.count == Failures(outcome, origin, e.last)
  }

  ghost predicate Truthful(e: PublishError, outcome: Outcomes, high: nat) {
    exists origin :: Tells(e, outcome, high, origin)
  }

  ghost predicate AllTruthful(errors: seq<PublishError>, outcome: Outcomes, high: nat) {
    forall i: nat {:trigger Truthful(errors[i], outcome, high)} :: i < |errors| ==>
      Truthful(errors[i], outcome, high)
  }

  /** What a reported error says: the cause is that of a failure at or below the target, all failures before which, down
      to the floor, were reported by some earlier flush. A single failure is the flush's own; several are those counted
      from there up to some completed sequence. */
  ghost predicate ReportAt(err: FlushError, floor: nat, target: nat, outcome: Outcomes, high: nat, upto: nat, s: nat,
                           last: nat)
  {
    && 0 < s <= target && s <= last <= upto && Failed(outcome, s)
    && (forall t: nat {:trigger Failed(outcome, t)} :: Failed(outcome, t) && floor < t < s ==> t <= high)
    && match err
       case Single(cause) => floor < s == last && outcome[s] == Some(cause)
       case Several(count, cause) => outcome[s] == Some(cause) && count == Failures(outcome, s, last) > 1
       case Cancelled => false
  }

  ghost predicate TrueReport(err: FlushError, floor: nat, target: nat, outcome: Outcomes, high: nat, upto: nat) {
    exists s, last {:trigger ReportAt(err, floor, target, outcome, high, upto, s, last)} ::
      ReportAt(err, floor, target, outcome, high, upto, s, last)
  }

  ghost predicate FlushTruthful(state: FlushState, floor: nat, outcome: Outcomes, high: nat, upto: nat) {
    floor <= high && (state.err.Some? ==> TrueReport(state.err.value, floor, state.target, outcome, high, upto))
  }

  ghost predicate FlushesTruthful(active: map<nat, FlushState>, floor: map<nat, nat>, outcome: Outcomes, high: nat,
                                  upto: nat)
  {
    && floor.Keys == active.Keys
    && forall id {:trigger FlushTruthful(active[id], floor[id], outcome, high, upto)} :: id in active ==>
         FlushTruthful(active[id], floor[id], outcome, high, upto)
  }

  lemma {:induction false} NoFailures(outcome: Outcomes, lo: nat, mid: nat, hi: nat)
    requires lo <= mid <= hi && forall s: nat {:trigger Failed(outcome, s)} :: mid < s <= hi ==> !Failed(outcome, s)
    ensures Failures(outcome, lo, hi) == Failures(outcome, lo, mid)
  {
    if mid < hi {
      NoFailures(outcome, lo, mid, hi - 1);
    }
  }

  lemma {:induction false} SameFailures(x: Outcomes, y: Outcomes, lo: nat, hi: nat)
    requires forall s: nat {:trigger Failed(x, s)} :: lo <= s <= hi ==> (Failed(x, s) <==> Failed(y, s))
    ensures Failures(x, lo, hi) == Failures(y, lo, hi)
  {
    if lo <= hi && hi > 0 {
      SameFailures(x, y, lo, hi - 1);
      assert Failed(x, hi) <==> Failed(y, hi);
    }
  }

  /** A recorded failure is told by its own entry, or counted by the last one. */
  lemma RecordIsTruthful(errors: seq<PublishError>, outcome: Outcomes, high: nat, sequence: nat)
    requires high < sequence && Sorted(errors, outcome, high, sequence - 1) && Failed(outcome, sequence)
    requires CoversFailures(errors, outcome, high, sequence - 1) && AllTruthful(errors, outcome, high)
    ensures AllTruthful(RecordError(errors, sequence, outcome[sequence].value), outcome, high)
  {
    var cause := outcome[sequence].value;
    var after := RecordError(errors, sequence, cause);
    if |errors| < MAX_PENDING_ERRORS {
      assert Failures(outcome, sequence, sequence - 1) == 0;
      assert Tells(after[|errors|], outcome, high, sequence);
    } else {
      MergedIsTruthful(errors, outcome, high, sequence);
    }
    forall i | 0 <= i < |after| ensures Truthful(after[i], outcome, high) {
      assert i < |errors| ==> Truthful(errors[i], outcome, high);
    }
  }

  lemma MergedIsTruthful(errors: seq<PublishError>, outcome: Outcomes, high: nat, sequence: nat)
    requires high < sequence && Sorted(errors, outcome, high, sequence - 1) && Failed(outcome, sequence)
    requires CoversFailures(errors, outcome, high, sequence - 1) && AllTruthful(errors, outcome, high)
    requires |errors| == MAX_PENDING_ERRORS
    ensures var tail := errors[|errors| - 1];
      Truthful(tail.(last := sequence, count := tail.count + 1), outcome, high)
  {
    var tail := errors[|errors| - 1];
    assert EntryOk(tail, outcome, high, sequence - 1) && Truthful(errors[|errors| - 1], outcome, high);
    var origin :| Tells(tail, outcome, high, origin);
    forall i | 0 <= i < |errors| ensures errors[i].last <= tail.last {
      assert i < |errors| - 1 ==> Before(errors, i, |errors| - 1);
    }
    forall s: nat {:trigger Failed(outcome, s)} | tail.last < s <= sequence - 1 ensures !Failed(outcome, s) {
      assert Failed(outcome, s) ==> Covered(errors, s);
    }
    NoFailures(outcome, origin, tail.last, sequence - 1);
    assert Tells(tail.(last := sequence, count := tail.count + 1), outcome, high, origin);
  }

  /** What a drop leaves is still true; a cut entry began before what is now reported. */
  lemma DropIsTruthful(errors: seq<PublishError>, outcome: Outcomes, high: nat, upto: nat, target: nat)
    requires Sorted(errors, outcome, high, upto) && AllTruthful(errors, outcome, high)
    ensures AllTruthful(DropReported(errors, target), outcome, if target > high then target else high)
  {
    var high', after := if target > high then target else high, DropReported(errors, target);
    forall i: nat | i < |after| ensures Truthful(after[i], outcome, high') {
      var k := FirstBeyond(errors, target, 0);
      DropLeaves(errors, target, i);
      assert EntryOk(errors[k + i], outcome, high, upto) && Truthful(errors[k + i], outcome, high);
      var origin :| Tells(errors[k + i], outcome, high, origin);
      assert Tells(after[i], outcome, high', origin);
    }
  }

  /** The answer of a flush is true of its ledger. */
  lemma AnswerIsTrue(errors: seq<PublishError>, outcome: Outcomes, high: nat, upto: nat, floor: nat, target: nat)
    requires Sorted(errors, outcome, high, upto) && CoversFailures(errors, outcome, high, upto)
    requires AllTruthful(errors, outcome, high) && floor <= high && FlushErrorForTarget(target, errors).Some?
    ensures TrueReport(FlushErrorForTarget(target, errors).value, floor, target, outcome, high, upto)
  {
    var e := errors[0];
    assert EntryOk(e, outcome, high, upto) && Truthful(e, outcome, high);
    var s :| Tells(e, outcome, high, s);
    forall t: nat {:trigger Failed(outcome, t)} | Failed(outcome, t) && floor < t < s ensures t <= high {
      if t > high {
        FirstIsLeast(errors, outcome, high, upto, t);
      }
    }
    assert ReportAt(FlushErrorForTarget(target, errors).value, floor, target, outcome, high, upto, s, e.last);
  }

  /** While no ranges were merged, the answer is the cause of the least failure not yet reported, if the target has
      any. */
  lemma UnmergedAnswer(errors: seq<PublishError>, outcome: Outcomes, high: nat, upto: nat, target: nat, s: nat)
    requires Sorted(errors, outcome, high, upto) && CoversFailures(errors, outcome, high, upto)
    requires AllTruthful(errors, outcome, high) && forall i :: 0 <= i < |errors| ==> errors[i].count == 1
    requires Failed(outcome, s) && high < s <= target && s <= upto
    requires forall t: nat {:trigger Failed(outcome, t)} :: Failed(outcome, t) && high < t ==> s <= t
    ensures FlushErrorForTarget(target, errors) == Some(Single(outcome[s].value))
  {
    FirstIsLeast(errors, outcome, high, upto, s);
    assert EntryOk(errors[0], outcome, high, upto) && Truthful(errors[0], outcome, high);
    var origin :| Tells(errors[0], outcome, high, origin);
    assert Failed(outcome, origin);
  }

  /** And of a merged first entry: as many failures as were merged into it, under the cause of the first of them. */
  lemma MergedAnswer(errors: seq<PublishError>, outcome: Outcomes, high: nat, target: nat)
    requires AllTruthful(errors, outcome, high) && errors != [] && errors[0].count > 1 && errors[0].first <= target
    ensures exists origin: nat ::
      && origin <= errors[0].first && Failed(outcome, origin)
      && FlushErrorForTarget(target, errors)
         == Some(Several(Failures(outcome, origin, errors[0].last), outcome[origin].value))
  {
    assert Truthful(errors[0], outcome, high);
    var origin :| Tells(errors[0], outcome, high, origin);
    assert Failed(outcome, origin);
  }

  /** A report stays true while sequences complete and others report. */
  lemma ReportStays(err: FlushError, floor: nat, target: nat, x: Outcomes, high: nat, upto: nat, y: Outcomes,
                    high': nat, upto': nat)
    requires TrueReport(err, floor, target, x, high, upto) && high <= high' && upto <= upto'
    requires forall s :: s in x && s <= upto ==> s in y && y[s] == x[s]
    requires forall s :: s in y && s <= upto ==> s in x
    ensures TrueReport(err, floor, target, y, high', upto')
  {
    var s, last :| ReportAt(err, floor, target, x, high, upto, s, last);
    forall t: nat {:trigger Failed(y, t)} | t <= upto ensures Failed(x, t) <==> Failed(y, t) {
    }
    SameFailures(y, x, s, last);
    forall t: nat {:trigger Failed(y, t)} | Failed(y, t) && floor < t < s ensures t <= high' {
      assert Failed(x, t);
    }
    assert ReportAt(err, floor, target, y, high', upto', s, last);
  }

  lemma PutStaysTruthful(errors: seq<PublishError>, active: map<nat, FlushState>, floor: map<nat, nat>,
                         outcome: Outcomes, high: nat, completed: nat, s: nat, err: Option<Cause>)
    requires Sorted(errors, outcome, high, completed) && AllTruthful(errors, outcome, high)
    requires FlushesTruthful(active, floor, outcome, high, completed) && completed < s && s !in outcome
    ensures AllTruthful(errors, outcome[s := err], high)
    ensures FlushesTruthful(active, floor, outcome[s := err], high, completed)
  {
    var after := outcome[s := err];
    forall i | 0 <= i < |errors| ensures Truthful(errors[i], after, high) {
      assert EntryOk(errors[i], outcome, high, completed) && Truthful(errors[i], outcome, high);
      var origin :| Tells(errors[i], outcome, high, origin);
      SameFailures(after, outcome, origin, errors[i].last);
      assert Tells(errors[i], after, high, origin);
    }
    forall id | id in active ensures FlushTruthful(active[id], floor[id], after, high, completed) {
      assert FlushTruthful(active[id], floor[id], outcome, high, completed);
      if active[id].err.Some? {
        ReportStays(active[id].err.value, floor[id], active[id].target, outcome, high, completed, after, high,
                    completed);
      }
    }
  }

  lemma FlushesStayTruthful(active: map<nat, FlushState>, floor: map<nat, nat>, outcome: Outcomes, high: nat,
                            completed: nat, high': nat, completed': nat)
    requires FlushesTruthful(active, floor, outcome, high, completed) && high <= high' && completed <= completed'
    ensures FlushesTruthful(active, floor, outcome, high', completed')
  {
    forall id | id in active ensures FlushTruthful(active[id], floor[id], outcome, high', completed') {
      assert FlushTruthful(active[id], floor[id], outcome, high, completed);
      if active[id].err.Some? {
        ReportStays(active[id].err.value, floor[id], active[id].target, outcome, high, completed, outcome, high',
                    completed');
      }
    }
  }

  /** Every captured report is true. */
  lemma CapturesAreTruthful(errors: seq<PublishError>, active: map<nat, FlushState>, floor: map<nat, nat>,
                            outcome: Outcomes, high: nat, completed: nat)
    requires Sorted(errors, outcome, high, completed) && CoversFailures(errors, outcome, high, completed)
    requires AllTruthful(errors, outcome, high) && FlushesTruthful(active, floor, outcome, high, completed)
    ensures FlushesTruthful(CaptureAll(active, errors), floor, outcome, high, completed)
  {
    var captured := CaptureAll(active, errors);
    forall id | id in captured ensures FlushTruthful(captured[id], floor[id], outcome, high, completed) {
      assert FlushTruthful(active[id], floor[id], outcome, high, completed);
      if active[id].err.None? && FlushErrorForTarget(active[id].target, errors).Some? {
        AnswerIsTrue(errors, outcome, high, completed, floor[id], active[id].target);
      }
    }
  }

  // ---------- All books together ----------

  ghost predicate Books(errors: seq<PublishError>, active: map<nat, FlushState>, floor: map<nat, nat>, nextFlush: nat,
                        accepted: nat, outcome: Outcomes, high: nat, completed: nat)
  {
    && Sorted(errors, outcome, high, completed) && CoversFailures(errors, outcome, high, completed)
    && FlushesOk(active, floor, nextFlush, accepted, outcome, high)
    && AllTruthful(errors, outcome, high) && FlushesTruthful(active, floor, outcome, high, completed)
  }

  lemma PutKeepsBooks(errors: seq<PublishError>, active: map<nat, FlushState>, floor: map<nat, nat>, nextFlush: nat,
                      accepted: nat, outcome: Outcomes, high: nat, completed: nat, s: nat, err: Option<Cause>,
                      after: Outcomes)
    requires Books(errors, active, floor, nextFlush, accepted, outcome, high, completed)
    requires high <= completed < s && s !in outcome && after == outcome[s := err]
    ensures Books(errors, active, floor, nextFlush, accepted, after, high, completed)
  {
    PutKeepsReports(errors, active, floor, nextFlush, accepted, outcome, high, completed, s, err);
    PutStaysTruthful(errors, active, floor, outcome, high, completed, s, err);
  }

  lemma AdvanceKeepsBooks(errors: seq<PublishError>, active: map<nat, FlushState>, floor: map<nat, nat>, nextFlush: nat,
                          accepted: nat, outcome: Outcomes, high: nat, completed: nat, after: seq<PublishError>,
                          next: nat)
    requires Books(errors, active, floor, nextFlush, accepted, outcome, high, completed)
    requires next == completed + 1 && next in outcome && high <= completed
    requires after == if outcome[next].Some? then RecordError(errors, next, outcome[next].value) else errors
    ensures Books(after, active, floor, nextFlush, accepted, outcome, high, next)
  {
    RecordedCovers(errors, outcome, high, completed, next);
    assert Recorded(errors, outcome, completed, completed) == errors;
    assert after == Recorded(errors, outcome, completed, next);
    assert AllTruthful(after, outcome, high) by {
      if outcome[next].Some? {
        RecordIsTruthful(errors, outcome, high, next);
      }
    }
    FlushesStayTruthful(active, floor, outcome, high, completed, high, next);
  }

  /** One flush captures for all, leaves, and drops what it reported. */
  lemma FlushKeepsBooks(errors: seq<PublishError>, active: map<nat, FlushState>, floor: map<nat, nat>, nextFlush: nat,
                        accepted: nat, outcome: Outcomes, high: nat, completed: nat, target: nat, flushID: nat,
                        errors': seq<PublishError>, active': map<nat, FlushState>, floor': map<nat, nat>, high': nat)
    requires Books(errors, active, floor, nextFlush, accepted, outcome, high, completed) && target <= completed
    requires errors' == DropReported(errors, target) && active' == CaptureAll(active, errors) - {flushID}
    requires floor' == floor - {flushID} && high' == if target > high then target else high
    ensures Books(errors', active', floor', nextFlush, accepted, outcome, high', completed)
  {
    FlushLeaves(errors, active, floor, nextFlush, accepted, outcome, high, completed, target, flushID);
    DropIsTruthful(errors, outcome, high, completed, target);
    CapturesAreTruthful(errors, active, floor, outcome, high, completed);
    FlushesStayTruthful(CaptureAll(active, errors), floor, outcome, high, completed, high', completed);
  }

  /** What a flush is told: without an error it has no failure to its name that was not reported before; with one,
      the error is true. */
  lemma FlushIsTold(errors: seq<PublishError>, active: map<nat, FlushState>, floor: map<nat, nat>, nextFlush: nat,
                    accepted: nat, outcome: Outcomes, high: nat, completed: nat, flushID: nat)
    requires Books(errors, active, floor, nextFlush, accepted, outcome, high, completed)
    requires flushID in active && active[flushID].target <= completed
    ensures var state, high' := active[flushID], if active[flushID].target > high then active[flushID].target else high;
      match CaptureFlushError(state, errors).err
      case None =>
        forall s: nat {:trigger Failed(outcome, s)} :: floor[flushID] < s <= state.target ==> !Failed(outcome, s)
      case Some(err) => TrueReport(err, floor[flushID], state.target, outcome, high', completed)
  {
    var state := active[flushID];
    CapturesAreTruthful(errors, active, floor, outcome, high, completed);
    assert FlushTruthful(CaptureAll(active, errors)[flushID], floor[flushID], outcome, high, completed);
    if CaptureFlushError(state, errors).err.None? {
      CleanFlush(state, floor[flushID], errors, outcome, high, completed);
    } else {
      ReportStays(CaptureFlushError(state, errors).err.value, floor[flushID], state.target, outcome, high, completed,
                  outcome, if state.target > high then state.target else high, completed);
    }
  }

  // ---------- The ledger ----------

  class Ledger {
    var accepted: nat
    var completed: nat
    var resolved: array<Resolution>
    var errors: seq<PublishError>
    var activeFlushes: map<nat, FlushState>
    var nextFlush: nat

    /** What every sequence resolved to; the highest target a finished flush reported up to; and that
        height when each active flush registered. */
    ghost var outcome: Outcomes
    ghost var high: nat
    ghost var floor: map<nat, nat>

    ghost predicate Settled()
      reads this, resolved
    {
      && completed <= accepted && high <= completed
      && (forall s :: s in outcome ==> 1 <= s <= accepted)
      && RingHolds(resolved[..], outcome, completed)
      && Books(errors, activeFlushes, floor, nextFlush, accepted, outcome, high, completed)
    }

    /** What holds whenever the lock is free. */
    ghost predicate Valid()
      reads this, resolved
    {
      Settled() && LongestPrefix(outcome, completed)
    }

    constructor ()
      ensures Valid() && accepted == completed == high == 0 && outcome == map[] && activeFlushes == map[]
    {
      accepted, completed, nextFlush := 0, 0, 0;
      resolved := new Resolution[0];
      errors, activeFlushes := [], map[];
      outcome, high, floor := map[], 0, map[];
    }

    method MarkAccepted() returns (sequence: nat)
      requires Valid()
      modifies this`accepted
      ensures Valid() && accepted == old(accepted) + 1 == sequence && sequence !in outcome
    {
      accepted := accepted + 1;
      sequence := accepted;
    }

    /** Reads the accepted counter, which other goroutines advance without the lock. */
    method LoadAccepted() returns (a: nat)
      requires Settled()
      modifies this`accepted
      ensures Settled() && a == accepted >= old(accepted)
    {
      var others: nat :| true;
      accepted := accepted + others;
      a := accepted;
    }

    method EnsureCapacity()
      requires Settled()
      modifies this`accepted, this`resolved
      ensures Settled() && accepted >= old(accepted)
      ensures resolved == old(resolved) || fresh(resolved)
      ensures resolved.Length > old(accepted) - completed
    {
      var a := LoadAccepted();
      var needed := a - completed + 1;
      if resolved.Length >= needed {
        return;
      }
      var size := FIRST_RING;
      while size < needed
        invariant size > 0
      {
        size := size * 2;
      }
      resolved := Resized(size);
    }

    /** A larger ring holding what is outstanding. */
    method Resized(size: nat) returns (resized: array<Resolution>)
      requires size > 0 && size >= resolved.Length && RingHolds(resolved[..], outcome, completed)
      ensures fresh(resized) && resized.Length == size && RingHolds(resized[..], outcome, completed)
    {
      resized := new Resolution[size](_ => Resolution(0, None));
      var i := 0;
      while i < resolved.Length
        invariant i <= resolved.Length && Copied(resolved[..], i, resized[..], completed)
      {
        CopyStep(resolved[..], i, resized[..], outcome, completed);
        if resolved[i].sequence > completed {
          SlotIsRemainder(resolved[i].sequence, size);
          ghost var before := resized[..];
          resized[resolved[i].sequence % size] := resolved[i];
          assert resized[..] == before[resolved[i].sequence % size := resolved[i]];
        }
        i := i + 1;
      }
      CopyDone(resolved[..], resized[..], outcome, completed);
    }

    /** Resolves accepted sequences, each for the first time, and advances over the contiguous prefix.
        Both completion entry points of the publisher are this section. */
    method Complete(sequences: seq<nat>, err: Option<Cause>)
      requires Valid()
      requires forall i :: 0 <= i < |sequences| ==> 1 <= sequences[i] <= accepted && sequences[i] !in outcome
      requires forall i, j :: 0 <= i < j < |sequences| ==> sequences[i] != sequences[j]
      modifies this`accepted, this`resolved, this`completed, this`errors, this`outcome, resolved
      ensures Valid() && accepted >= old(accepted)
      ensures completed >= old(completed) && (resolved == old(resolved) || fresh(resolved))
      ensures outcome == Resolve(old(outcome), sequences, err)
      ensures errors == Recorded(old(errors), outcome, old(completed), completed)
    {
      EnsureCapacity();
      var i := 0;
      while i < |sequences|
        invariant i <= |sequences|
        invariant Settled() && accepted >= old(accepted) && resolved.Length > old(accepted) - completed
        invariant completed == old(completed) && errors == old(errors)
        invariant resolved == old(resolved) || fresh(resolved)
        invariant outcome == Resolve(old(outcome), sequences[..i], err)
        invariant forall k :: i <= k < |sequences| ==> sequences[k] !in outcome
        invariant forall s :: 1 <= s <= completed ==> s in outcome
      {
        assert sequences[..i + 1] == sequences[..i] + [sequences[i]];
        Put(sequences[i], err);
        i := i + 1;
      }
      assert sequences[..i] == sequences;
      Advance();
    }

    method Put(s: nat, err: Option<Cause>)
      requires Settled() && completed < s <= accepted && s < completed + resolved.Length && s !in outcome
      modifies this`outcome, resolved
      ensures Settled() && outcome == old(outcome)[s := err]
    {
      SlotIsRemainder(s, resolved.Length);
      PutKeepsRing(resolved[..], outcome, completed, s, err);
      ghost var ring := resolved[..];
      resolved[s % resolved.Length] := Resolution(s, err);
      assert resolved[..] == ring[s % |ring| := Resolution(s, err)];
      outcome := outcome[s := err];
      PutKeepsBooks(errors, activeFlushes, floor, nextFlush, accepted, old(outcome), high, completed, s, err, outcome);
    }

    method Advance()
      requires Settled() && resolved.Length > 0 && forall s :: 1 <= s <= completed ==> s in outcome
      modifies this`accepted, this`completed, this`errors, resolved
      ensures Valid() && accepted >= old(accepted) && completed >= old(completed)
      ensures errors == Recorded(old(errors), outcome, old(completed), completed)
    {
      var more := true;
      while more
        invariant Settled() && accepted >= old(accepted) && old(completed) <= completed <= old(accepted)
        invariant forall s :: 1 <= s <= completed ==> s in outcome
        invariant errors == Recorded(old(errors), outcome, old(completed), completed)
        invariant !more ==> completed + 1 !in outcome
        decreases old(accepted) - completed, more
      {
        ghost var before := completed;
        more := AdvanceOnce();
        OneMoreRecorded(old(errors), outcome, old(completed), before);
      }
    }

    /** Lets the next sequence leave the ring if it has been resolved. */
    method AdvanceOnce() returns (moved: bool)
      requires Settled() && resolved.Length > 0
      modifies this`accepted, this`completed, this`errors, resolved
      ensures Settled() && accepted >= old(accepted) && moved == (old(completed) + 1 in outcome)
      ensures completed == old(completed) + (if moved then 1 else 0)
      ensures errors == if moved && outcome[completed].Some?
                        then RecordError(old(errors), completed, outcome[completed].value)
                        else old(errors)
    {
      var a := LoadAccepted();
      if completed >= a {
        return false;
      }
      NextSlot(resolved[..], outcome, completed);
      var entry := resolved[(completed + 1) % resolved.Length];
      moved := entry.sequence == completed + 1;
      if moved {
        Retire(entry);
      }
    }

    /** The next sequence leaves the ring. */
    method Retire(entry: Resolution)
      requires Settled() && resolved.Length > 0 && completed < accepted
      requires completed + 1 in outcome && entry == Resolution(completed + 1, outcome[completed + 1])
      modifies this`completed, this`errors, resolved
      ensures Settled() && completed == old(completed) + 1
      ensures errors == if entry.err.Some? then RecordError(old(errors), completed, entry.err.value) else old(errors)
    {
      AdvanceStep(resolved[..], outcome, completed);
      ghost var ring := resolved[..];
      var next := completed + 1;
      resolved[next % resolved.Length] := Resolution(0, None);
      assert resolved[..] == ring[next % |ring| := Resolution(0, None)];
      completed := next;
      if entry.err.Some? {
        errors := RecordError(errors, next, entry.err.value);
      }
      AdvanceKeepsBooks(old(errors), activeFlushes, floor, nextFlush, accepted, outcome, high, old(completed), errors,
                        completed);
    }

    method SnapshotFlush() returns (target: nat, flushID: nat)
      requires Valid()
      modifies this`accepted, this`activeFlushes, this`nextFlush, this`floor
      ensures Valid() && target == accepted >= old(accepted)
      ensures flushID == nextFlush == old(nextFlush) + 1 && flushID !in old(activeFlushes)
      ensures activeFlushes == old(activeFlushes)[flushID := FlushState(target, None)]
      ensures floor == old(floor)[flushID := high]
    {
      target := LoadAccepted();
      nextFlush := nextFlush + 1;
      flushID := nextFlush;
      activeFlushes := activeFlushes[flushID := FlushState(target, None)];
      floor := floor[flushID := high];
    }

    method CaptureFlushErrors()
      modifies this`activeFlushes
      ensures activeFlushes == CaptureAll(old(activeFlushes), errors)
    {
      var ids := activeFlushes.Keys;
      ghost var before := activeFlushes;
      while ids != {}
        invariant ids <= before.Keys == activeFlushes.Keys
        invariant forall id :: id in before ==>
          activeFlushes[id] == if id in ids then before[id] else CaptureFlushError(before[id], errors)
      {
        var id :| id in ids;
        ids := ids - {id};
        activeFlushes := activeFlushes[id := CaptureFlushError(activeFlushes[id], errors)];
      }
    }

    method DropReportedErrors(target: nat)
      requires forall i :: 0 <= i < |errors| ==> errors[i].first <= errors[i].last
      modifies this`errors
      ensures errors == DropReported(old(errors), target)
    {
      ghost var k := 0;
      while errors != []
        invariant k <= |old(errors)| && errors == old(errors)[k..]
        invariant FirstBeyond(old(errors), target, k) == FirstBeyond(old(errors), target, 0)
        decreases |errors|
      {
        if errors[0].first > target {
          return;
        }
        if errors[0].last > target {
          errors := errors[0 := errors[0].(first := target + 1)];
          return;
        }
        errors := errors[1..];
        k := k + 1;
      }
    }

    /** One deed of another goroutine while this flush waits and the lock is free: its contract says what any number of
        them may do. This flush stays registered, and what is resolved stays resolved. */
    method Elsewhere(flushID: nat)
      requires Valid() && flushID in activeFlushes
      modifies this, resolved
      ensures Valid() && flushID in activeFlushes && (resolved == old(resolved) || fresh(resolved))
      ensures activeFlushes[flushID].target == old(activeFlushes)[flushID].target
      ensures floor[flushID] == old(floor)[flushID]
      ensures accepted >= old(accepted) && completed >= old(completed)
    {
      if * {
        var sequence := MarkAccepted();
        var err: Option<Cause> := *;
        Complete([sequence], err);
      } else {
        var target, other := SnapshotFlush();
        var err := FinishFlush(other, target);
      }
    }

    /** Waits until the target has completed or, after `wakeups` turns, its context is done. A flush that resolves
        without an error has no failure to its name but those an earlier flush reported. */
    method WaitFlush(flushID: nat, target: nat, wakeups: nat) returns (err: Option<FlushError>)
      requires Valid() && flushID in activeFlushes && activeFlushes[flushID].target == target
      modifies this, resolved
      ensures Valid() && flushID !in activeFlushes
      ensures err.None? ==>
                forall s: nat {:trigger Failed(outcome, s)} :: old(floor)[flushID] < s <= target ==>
                  s in outcome && !Failed(outcome, s)
      // An error it resolves with tells the truth.
      ensures completed >= target && err.Some? ==>
                TrueReport(err.value, old(floor)[flushID], target, outcome, high, completed)
      ensures completed < target ==> err == Some(Cancelled)
    {
      var left := wakeups;
      while completed < target && left > 0
        invariant Valid() && flushID in activeFlushes && (resolved == old(resolved) || fresh(resolved))
        invariant activeFlushes[flushID].target == target && floor[flushID] == old(floor)[flushID]
      {
        Elsewhere(flushID);
        left := left - 1;
      }
      err := FinishFlush(flushID, target);
    }

    /** The last section of a waiting flush: it runs once the target has completed or its context is done. */
    method FinishFlush(flushID: nat, target: nat) returns (err: Option<FlushError>)
      requires Valid() && flushID in activeFlushes && activeFlushes[flushID].target == target
      modifies this`activeFlushes, this`errors, this`high, this`floor
      ensures Valid()
      ensures activeFlushes.Keys == old(activeFlushes).Keys - {flushID}
      ensures activeFlushes == (if completed < target then old(activeFlushes)
                                else CaptureAll(old(activeFlushes), old(errors))) - {flushID}
      ensures floor == old(floor) - {flushID}
      ensures completed < target ==> err == Some(Cancelled) && errors == old(errors) && high == old(high)
      // A flush that resolves without an error has no failure to its name but those an earlier flush reported.
      ensures completed >= target && err.None? ==>
                forall s: nat {:trigger Failed(outcome, s)} :: old(floor)[flushID] < s <= target ==>
                  s in outcome && !Failed(outcome, s)
      // An error it resolves with tells the truth.
      ensures completed >= target && err.Some? ==>
                TrueReport(err.value, old(floor)[flushID], target, outcome, high, completed)
      ensures completed >= target ==> errors == DropReported(old(errors), target)
      ensures completed >= target && old(activeFlushes)[flushID].err.None? ==>
        err == FlushErrorForTarget(target, old(errors))
    {
      if completed < target {
        Unregister(flushID);
        return Some(Cancelled);
      }
      err := ReportFlush(flushID, target);
    }

    method Unregister(flushID: nat)
      requires Valid()
      modifies this`activeFlushes, this`floor
      ensures Valid() && activeFlushes == old(activeFlushes) - {flushID} && floor == old(floor) - {flushID}
    {
      activeFlushes := activeFlushes - {flushID};
      floor := floor - {flushID};
    }

    method ReportFlush(flushID: nat, target: nat) returns (err: Option<FlushError>)
      requires Valid() && flushID in activeFlushes && activeFlushes[flushID].target == target <= completed
      modifies this`activeFlushes, this`errors, this`high, this`floor
      ensures Valid()
      ensures activeFlushes == CaptureAll(old(activeFlushes), old(errors)) - {flushID}
      ensures floor == old(floor) - {flushID}
      ensures err == CaptureFlushError(old(activeFlushes)[flushID], old(errors)).err
      ensures err.None? ==>
                forall s: nat {:trigger Failed(outcome, s)} :: old(floor)[flushID] < s <= target ==> !Failed(outcome, s)
      ensures err.Some? ==> TrueReport(err.value, old(floor)[flushID], target, outcome, high, completed)
      ensures errors == DropReported(old(errors), target)
    {
      FlushIsTold(errors, activeFlushes, floor, nextFlush, accepted, outcome, high, completed, flushID);
      err := TakeReport(flushID);
      DropReportedErrors(target);
      high := if target > high then target else high;
      FlushKeepsBooks(old(errors), old(activeFlushes), old(floor), nextFlush, accepted, outcome, old(high), completed,
                      target, flushID, errors, activeFlushes, floor, high);
    }

    /** Gives every active flush its report before the errors go, and takes this one's. */
    method TakeReport(flushID: nat) returns (err: Option<FlushError>)
      requires flushID in activeFlushes
      modifies this`activeFlushes, this`floor
      ensures err == CaptureFlushError(old(activeFlushes)[flushID], errors).err
      ensures activeFlushes == CaptureAll(old(activeFlushes), errors) - {flushID} && floor == old(floor) - {flushID}
    {
      CaptureFlushErrors();
      err := activeFlushes[flushID].err;
      activeFlushes := activeFlushes - {flushID};
      floor := floor - {flushID};
    }
  }
}
