/** What one pod spends of one bucket id in one plan generation. The pod's map names at most one bucket for the id,
    but a caller may still hold one that the map has dropped, and a caller of another generation may reconfigure
    either; all of them interleave, each with the clock reading it took before it waited for the lock. */
module PodBudget {
  import opened Options
  import opened Numbers
  import opened TokenBucket

  /** What stays fixed for a pod while a generation lasts. */
  datatype Terms = Terms(generation: nat, holder: string,
                         sharedRate: real, sharedBurst: int, standardRate: real, standardBurst: int)
  {
    ghost predicate Valid() {
      && generation != 0 && holder != ""
      && sharedRate > 0.0 && sharedBurst > 0
      && standardBurst >= 0 && standardRate >= 0.0 && (standardBurst > 0 ==> standardRate > 0.0)
    }

    function Config(epoch: nat, notBefore: real, notAfter: real): BucketConfig {
      BucketConfig(epoch, generation, holder, notBefore, notAfter, sharedRate, sharedBurst, standardRate, standardBurst)
    }

    predicate Holds(l: Local) {
      l.generation == generation && l.holder == holder
    }
  }

  datatype Lane = Shared | Standard

  /** A bucket that some caller may hold. `until` is there once another bucket has taken its place under these
      terms: the date up to which it has been accounted for. */
  datatype Object = Object(l: Local, until: Option<real>)

  /** `mapped` is the bucket new callers find. `front` is the one configured last under these terms, if it still is;
      otherwise `seen` is the date of the last one's last use. `overlap` adds up by how much the dates of successive
      buckets overlap: a new bucket dated before its predecessor's last use, or a use of a bucket dated after the
      start of its successor. */
  datatype Pod = Pod(objects: seq<Object>, mapped: Option<nat>, front: Option<nat>, seen: real, overlap: real)

  /** One locked section. Several callers interleave freely: a caller that found its bucket stale refreshes it and
      tries again in later steps. `Overwrite` is a caller of another generation. After a `Restart` the pod has forgotten
      its buckets. */
  datatype Op =
    | Install
    | Restart
    | DeleteExpired(at: real, notBefore: real, notAfter: real)
    | Refresh(i: nat, now: real, epoch: nat, notBefore: real, notAfter: real)
    | Overwrite(i: nat, now: real, config: BucketConfig)
    | Renew(i: nat, epoch: nat, notBefore: real, notAfter: real)
    | Spend(i: nat, now: real, epoch: nat, generation: nat, standard: bool)

  function NewPod(seen: real): Pod {
    Pod([], None, None, seen, 0.0)
  }

  /** When either of the bucket's two lanes was last brought up to date. */
  function Used(l: Local): real {
    if l.hasStandard then Max(l.shared.last, l.standard.last) else l.shared.last
  }

  function FrontDate(pod: Pod): real {
    if pod.front.Some? && pod.front.value < |pod.objects| then Used(pod.objects[pod.front.value].l) else pod.seen
  }

  /** Bucket `i` becomes `l` in a section dated `now`. */
  function Touched(pod: Pod, i: nat, now: real, l: Local): Pod
    requires i < |pod.objects|
  {
    match pod.objects[i].until
    case None => pod.(objects := pod.objects[i := Object(l, None)])
    case Some(until) => pod.(objects := pod.objects[i := Object(l, Some(Max(until, now)))],
                             overlap := pod.overlap + Max(0.0, now - until))
  }

  /** Bucket `i` starts as `l` under these terms and takes the place of the one before. */
  function Begun(pod: Pod, i: nat, now: real, l: Local): Pod
    requires i < |pod.objects|
  {
    var date := FrontDate(pod);
    var objects := if pod.front.None? || pod.front.value >= |pod.objects| then pod.objects
                   else pod.objects[pod.front.value := pod.objects[pod.front.value].(until := Some(Max(now, date)))];
    Pod(objects[i := Object(l, None)], pod.mapped, Some(i), pod.seen, pod.overlap + Max(0.0, date - now))
  }

  /** Bucket `i` becomes `l`, which is not under these terms. */
  function Ended(pod: Pod, i: nat, l: Local): Pod
    requires i < |pod.objects|
  {
    var objects := pod.objects[i := Object(l, None)];
    if pod.front == Some(i) then pod.(objects := objects, front := None, seen := Used(pod.objects[i].l))
    else pod.(objects := objects)
  }

  function Attempt(l: Local, op: Op): (Local, Verdict)
    requires op.Spend?
  {
    if op.standard then TryStandard(l, op.now, op.epoch, op.generation)
    else TryPremium(l, op.now, op.epoch, op.generation)
  }

  /** A bucket is dropped when its window ended two windows before the activation, or it was never configured. */
  predicate Expired(l: Local, at: real, notBefore: real, notAfter: real) {
    l.config.Unset? || l.notAfter <= at - 2.0 * (notAfter - notBefore)
  }

  function Step(terms: Terms, pod: Pod, op: Op): Pod {
    match op
    case Install =>
      if pod.mapped.Some? then pod
      else pod.(objects := pod.objects + [Object(NEW_LOCAL, None)], mapped := Some(|pod.objects|))
    case Restart => pod.(mapped := None)
    case DeleteExpired(at, notBefore, notAfter) =>
      if pod.mapped.Some? && pod.mapped.value < |pod.objects|
         && Expired(pod.objects[pod.mapped.value].l, at, notBefore, notAfter)
      then pod.(mapped := None) else pod
    case _ =>
      if op.i >= |pod.objects| then pod else StepOn(terms, pod, op, pod.objects[op.i].l)
  }

  /** A section on bucket `op.i`, whose value is `l`. */
  function StepOn(terms: Terms, pod: Pod, op: Op, l: Local): Pod
    requires !op.Install? && !op.DeleteExpired? && !op.Restart? && op.i < |pod.objects|
  {
    match op
    case Refresh(i, now, epoch, notBefore, notAfter) =>
      var next := Updated(l, now, terms.Config(epoch, notBefore, notAfter));
      if terms.Holds(l) then Touched(pod, i, now, next) else Begun(pod, i, now, next)
    case Overwrite(i, now, config) => Ended(pod, i, Updated(l, now, config))
    case Renew(i, epoch, notBefore, notAfter) =>
      var renewed := l.(epoch := epoch, notBefore := notBefore, notAfter := notAfter);
      pod.(objects := pod.objects[i := pod.objects[i].(l := renewed)])
    case Spend(i, now, _, _, _) =>
      var (next, verdict) := Attempt(l, op);
      if verdict.Behind? then pod else Touched(pod, i, now, next)
  }

  /** The tokens of these terms a step takes from a lane: a premium spend takes a shared token, a standard spend one
      of each. */
  function Pays(terms: Terms, pod: Pod, op: Op, lane: Lane): nat {
    if op.Spend? && op.i < |pod.objects| && op.generation == terms.generation && (op.standard || lane.Shared?)
       && Attempt(pod.objects[op.i].l, op).1.Admit?
    then 1 else 0
  }

  /** A step the program takes: a real epoch, a non-empty window, and another generation's plan is another's. */
  ghost predicate Proper(terms: Terms, op: Op) {
    match op
    case Refresh(_, _, epoch, notBefore, notAfter) => epoch != 0 && notBefore < notAfter
    case Overwrite(_, _, config) => config.generation != terms.generation || !config.Valid()
    case Spend(_, _, epoch, _, _) => epoch != 0
    case _ => true
  }

  // ---------- Runs ----------

  ghost function After(terms: Terms, pod: Pod, ops: seq<Op>): Pod {
    if ops == [] then pod else Step(terms, After(terms, pod, ops[..|ops| - 1]), ops[|ops| - 1])
  }

  ghost function Paid(terms: Terms, pod: Pod, ops: seq<Op>, lane: Lane): nat {
    if ops == [] then 0
    else
      var rest := ops[..|ops| - 1];
      Paid(terms, pod, rest, lane) + Pays(terms, After(terms, pod, rest), ops[|ops| - 1], lane)
  }

  /** A stretch of the pod's clock. */
  datatype Stretch = Stretch(start: real, end: real)

  predicate ReadIn(op: Op, s: Stretch) {
    op.Spend? && s.start <= op.now <= s.end
  }

  /** The payments of a run whose clock readings lie in the stretch, wherever in the run they are made. */
  ghost function PaidIn(terms: Terms, pod: Pod, ops: seq<Op>, lane: Lane, s: Stretch): nat {
    if ops == [] then 0
    else
      var rest, last := ops[..|ops| - 1], ops[|ops| - 1];
      PaidIn(terms, pod, rest, lane, s)
      + if ReadIn(last, s) then Pays(terms, After(terms, pod, rest), last, lane) else 0
  }

  /** How far the reading of a payment lies behind the date up to which its bucket has been refilled. */
  function Lag(terms: Terms, pod: Pod, op: Op, lane: Lane): real {
    if Pays(terms, pod, op, lane) > 0 then Max(0.0, Of(pod.objects[op.i].l, lane).last - op.now) else 0.0
  }

  /** The largest lag of the payments read in the stretch. */
  ghost function LagIn(terms: Terms, pod: Pod, ops: seq<Op>, lane: Lane, s: Stretch): real {
    if ops == [] then 0.0
    else
      var rest, last := ops[..|ops| - 1], ops[|ops| - 1];
      Max(LagIn(terms, pod, rest, lane, s),
          if ReadIn(last, s) then Lag(terms, After(terms, pod, rest), last, lane) else 0.0)
  }

  lemma OneMore(terms: Terms, lane: Lane, pod: Pod, ops: seq<Op>, op: Op)
    ensures After(terms, pod, ops + [op]) == Step(terms, After(terms, pod, ops), op)
    ensures Paid(terms, pod, ops + [op], lane)
        == Paid(terms, pod, ops, lane) + Pays(terms, After(terms, pod, ops), op, lane)
  {
    assert (ops + [op])[..|ops|] == ops;
  }

  lemma OneMoreIn(terms: Terms, lane: Lane, pod: Pod, ops: seq<Op>, op: Op, s: Stretch)
    ensures PaidIn(terms, pod, ops + [op], lane, s) == PaidIn(terms, pod, ops, lane, s)
         + if ReadIn(op, s) then Pays(terms, After(terms, pod, ops), op, lane) else 0
    ensures LagIn(terms, pod, ops + [op], lane, s)
         == Max(LagIn(terms, pod, ops, lane, s),
                if ReadIn(op, s) then Lag(terms, After(terms, pod, ops), op, lane) else 0.0)
  {
    assert (ops + [op])[..|ops|] == ops;
  }

  // ---------- Time in tokens ----------

  /** What a rate is worth in a stretch of time. */
  function Worth(rate: real, seconds: real): real {
    rate * seconds
  }

  lemma WorthAdds(rate: real, x: real, y: real)
    ensures Worth(rate, x + y) == Worth(rate, x) + Worth(rate, y)
    ensures Worth(rate, x - y) == Worth(rate, x) - Worth(rate, y)
    ensures Worth(rate, 0.0) == 0.0
  {
  }

  lemma WorthGrows(rate: real, x: real, y: real)
    requires rate > 0.0
    ensures x <= y <==> Worth(rate, x) <= Worth(rate, y)
  {
    assert rate * (y - x) == rate * y - rate * x;
  }

  lemma WorthOfMax(rate: real, x: real, y: real)
    requires rate > 0.0
    ensures Worth(rate, Max(x, y)) == Max(Worth(rate, x), Worth(rate, y))
  {
    WorthGrows(rate, x, y);
  }

  // In this section a time is given by its worth, so that a bucket gains one token per unit of time.

  /** The tokens at `at` of a bucket that held `tokens` at `last`. */
  function Full(tokens: real, last: real, at: real, burst: real): real {
    if last < at then Min(tokens + (at - last), burst) else tokens
  }

  /** What a bucket can still give in [start, end] if its last use is dated at `until`: nothing once it has been
      refilled beyond the end. */
  function Due(tokens: real, last: real, until: real, start: real, end: real, burst: real): real {
    if last > end then 0.0 else Max(0.0, Full(tokens, last, start, burst) + Min(until, end) - Max(last, start))
  }

  /** A use gains no more than the time it moves the bucket's date on. */
  lemma UseBalances(tokens: real, last: real, now: real, start: real, end: real, burst: real, paid: real)
    requires 0.0 <= tokens <= burst && 0.0 <= paid <= Full(tokens, last, now, burst) && start <= end
    ensures var (left, date) := (Full(tokens, last, now, burst) - paid, Max(last, now));
      Due(left, date, end, start, end, burst) + (if now >= start && date <= end then paid else 0.0)
        <= Due(tokens, last, end, start, end, burst)
  {
  }

  /** A use of a replaced bucket takes from its due, and more only by as much as it is late. */
  lemma LateUseBalances(tokens: real, last: real, until: real, now: real, start: real, end: real, burst: real,
                        paid: real)
    requires 0.0 <= tokens <= burst && 0.0 <= paid <= Full(tokens, last, now, burst) && last <= until && start <= end
    ensures var (left, date, late) := (Full(tokens, last, now, burst) - paid, Max(last, now), Max(until, now));
      Due(left, date, late, start, end, burst) + (if now >= start && date <= end then paid else 0.0)
        <= Due(tokens, last, until, start, end, burst) + late - until
  {
  }

  lemma IdleBalances(tokens: real, last: real, until: real, late: real, start: real, end: real, burst: real)
    requires until <= late
    ensures Due(tokens, last, late, start, end, burst) <= Due(tokens, last, until, start, end, burst) + late - until
  {
  }

  /** A new bucket, empty at `now`, and the one it replaces, last used at `date`, together can give no more than the
      old one alone, but for the time by which the new one is dated before that use. */
  lemma StartBalances(tokens: real, last: real, date: real, now: real, start: real, end: real, burst: real)
    requires 0.0 <= tokens <= burst && last <= date && start <= end
    ensures Due(tokens, last, Max(now, date), start, end, burst) + Due(0.0, now, end, start, end, burst)
         <= Due(tokens, last, end, start, end, burst) + Max(0.0, date - now)
  {
  }

  // ---------- The accounts of a pod ----------

  function Rate(terms: Terms, lane: Lane): real {
    if lane.Shared? then terms.sharedRate else terms.standardRate
  }

  function Burst(terms: Terms, lane: Lane): int {
    if lane.Shared? then terms.sharedBurst else terms.standardBurst
  }

  function Of(l: Local, lane: Lane): Bucket {
    if lane.Shared? then l.shared else l.standard
  }

  /** A lane's bucket holds its share, and was not used after the date it is accounted for. */
  ghost predicate BucketOk(b: Bucket, rate: real, burst: real, until: Option<real>) {
    b.ratePerSec == rate && b.burst == burst && 0.0 <= b.tokens <= burst && (until.Some? ==> b.last <= until.value)
  }

  ghost predicate ObjectOk(terms: Terms, o: Object) {
    if o.l.generation == terms.generation then
      && o.l.holder == terms.holder && o.l.hasShared && (o.l.hasStandard <==> terms.standardBurst > 0)
      && BucketOk(o.l.shared, terms.sharedRate, terms.sharedBurst as real, o.until)
      && (o.l.hasStandard ==> BucketOk(o.l.standard, terms.standardRate, terms.standardBurst as real, o.until))
    else o.until.None?
  }

  /** Every bucket is in order, and the one under these terms that no other has replaced is the front. */
  ghost predicate Shaped(terms: Terms, pod: Pod) {
    && pod.overlap >= 0.0
    && (pod.front.Some? ==> IsFront(terms, pod, pod.front.value))
    && (forall k: nat {:trigger pod.objects[k]} :: k < |pod.objects| ==>
          ObjectOk(terms, pod.objects[k]) && (IsFront(terms, pod, k) ==> pod.front == Some(k)))
  }

  ghost predicate IsFront(terms: Terms, pod: Pod, k: nat) {
    k < |pod.objects| && terms.Holds(pod.objects[k].l) && pod.objects[k].until.None?
  }

  /** What a lane's bucket, last used at `until`, can still give in the stretch. */
  function BucketDue(terms: Terms, lane: Lane, b: Bucket, until: real, s: Stretch): real {
    var rate := Rate(terms, lane);
    Due(b.tokens, Worth(rate, b.last), Worth(rate, until), Worth(rate, s.start), Worth(rate, s.end),
        Burst(terms, lane) as real)
  }

  /** What a replaced bucket can still give in the stretch. */
  function DueOf(terms: Terms, lane: Lane, o: Object, s: Stretch): real {
    if o.until.None? then 0.0 else BucketDue(terms, lane, Of(o.l, lane), o.until.value, s)
  }

  function AllDue(terms: Terms, lane: Lane, objects: seq<Object>, s: Stretch): real {
    if objects == [] then 0.0
    else AllDue(terms, lane, objects[..|objects| - 1], s) + DueOf(terms, lane, objects[|objects| - 1], s)
  }

  lemma {:induction false} DueChanges(terms: Terms, lane: Lane, objects: seq<Object>, s: Stretch, k: nat, o: Object)
    requires k < |objects|
    ensures AllDue(terms, lane, objects[k := o], s)
         == AllDue(terms, lane, objects, s) - DueOf(terms, lane, objects[k], s) + DueOf(terms, lane, o, s)
  {
    var rest, changed := objects[..|objects| - 1], objects[k := o];
    if k == |objects| - 1 {
      assert changed[..k] == rest;
    } else {
      assert changed[..|objects| - 1] == rest[k := o];
      DueChanges(terms, lane, rest, s, k, o);
    }
  }

  lemma {:induction false} DueIsNoDebt(terms: Terms, lane: Lane, objects: seq<Object>, s: Stretch)
    ensures AllDue(terms, lane, objects, s) >= 0.0
  {
    if objects != [] {
      DueIsNoDebt(terms, lane, objects[..|objects| - 1], s);
    }
  }

  /** The bucket a lane spends from; while none is configured, an empty one dated at the last use stands for it. */
  function FrontBucket(terms: Terms, pod: Pod, lane: Lane): Bucket {
    if pod.front.Some? && pod.front.value < |pod.objects| then Of(pod.objects[pod.front.value].l, lane)
    else Init(pod.seen, Rate(terms, lane), Burst(terms, lane))
  }

  /** The account of a lane in a stretch: what it has paid, what replaced buckets can still give and what the front
      can is at most one burst, the worth of the stretch, and that of the overlap. */
  ghost predicate LaneInv(terms: Terms, pod: Pod, lane: Lane, s: Stretch, paid: nat) {
    if Burst(terms, lane) == 0 then paid == 0
    else Balanced(terms, lane, pod.objects, FrontBucket(terms, pod, lane), pod.overlap, s, paid)
  }

  ghost predicate Balanced(terms: Terms, lane: Lane, objects: seq<Object>, front: Bucket, overlap: real, s: Stretch,
                           paid: nat) {
    var rate := Rate(terms, lane);
    paid as real + AllDue(terms, lane, objects, s) + BucketDue(terms, lane, front, s.end, s)
      <= Burst(terms, lane) as real + Worth(rate, s.end) - Worth(rate, s.start) + Worth(rate, overlap)
  }

  // ---------- What a section does to one bucket ----------

  /** The lane's bucket was brought up to `now` and gave `paid` tokens, or was left alone. */
  ghost predicate Moves(b: Bucket, next: Bucket, now: real, paid: nat) {
    || (next == b && paid == 0)
    || (Refill(b, now).tokens >= paid as real &&
      next == Refill(b, now).(tokens := Refill(b, now).tokens - paid as real))
  }

  lemma RefillIsFull(b: Bucket, rate: real, burst: real, now: real)
    requires rate > 0.0 && BucketOk(b, rate, burst, None)
    ensures Refill(b, now).tokens == Full(b.tokens, Worth(rate, b.last), Worth(rate, now), burst)
    ensures Refill(b, now).last == Max(b.last, now)
    ensures 0.0 <= Refill(b, now).tokens <= burst
  {
    WorthGrows(rate, b.last, now);
    WorthGrows(rate, now, b.last);
    WorthAdds(rate, now, b.last);
    if b.last < now {
      assert (now - b.last) * rate == Worth(rate, now - b.last);
    }
  }

  /** What a section pays counts when its reading is in the stretch and its bucket is not refilled beyond it. */
  function InStretch(b: Bucket, now: real, s: Stretch, paid: nat): nat {
    if now >= s.start && Max(b.last, now) <= s.end then paid else 0
  }

  /** The stretch and the dates of a use, in tokens. */
  lemma InTokens(rate: real, b: Bucket, now: real, s: Stretch)
    requires rate > 0.0
    ensures Worth(rate, Max(b.last, now)) == Max(Worth(rate, b.last), Worth(rate, now))
    ensures now >= s.start <==> Worth(rate, now) >= Worth(rate, s.start)
    ensures Max(b.last, now) <= s.end <==> Max(Worth(rate, b.last), Worth(rate, now)) <= Worth(rate, s.end)
    ensures s.start <= s.end <==> Worth(rate, s.start) <= Worth(rate, s.end)
  {
    WorthOfMax(rate, b.last, now);
    WorthGrows(rate, s.start, now);
    WorthGrows(rate, Max(b.last, now), s.end);
    WorthGrows(rate, s.start, s.end);
  }

  /** The front, used. */
  lemma FrontMoves(terms: Terms, lane: Lane, b: Bucket, next: Bucket, now: real, paid: nat, s: Stretch)
    requires Rate(terms, lane) > 0.0 && BucketOk(b, Rate(terms, lane), Burst(terms, lane) as real, None)
    requires Moves(b, next, now, paid) && s.start <= s.end
    ensures BucketDue(terms, lane, next, s.end, s) + InStretch(b, now, s, paid) as real
         <= BucketDue(terms, lane, b, s.end, s)
  {
    var rate, burst := Rate(terms, lane), Burst(terms, lane) as real;
    if next != b || paid != 0 {
      RefillIsFull(b, rate, burst, now);
      InTokens(rate, b, now, s);
      UseBalances(b.tokens, Worth(rate, b.last), Worth(rate, now), Worth(rate, s.start), Worth(rate, s.end), burst,
                  paid as real);
    }
  }

  /** A replaced bucket, used. */
  lemma ReplacedMoves(terms: Terms, lane: Lane, b: Bucket, until: real, next: Bucket, now: real, paid: nat, s: Stretch)
    requires Rate(terms, lane) > 0.0 && s.start <= s.end
    requires BucketOk(b, Rate(terms, lane), Burst(terms, lane) as real, Some(until))
    requires Moves(b, next, now, paid)
    ensures BucketDue(terms, lane, next, Max(until, now), s) + InStretch(b, now, s, paid) as real
        <= BucketDue(terms, lane, b, until, s) + Worth(Rate(terms, lane), Max(0.0, now - until))
  {
    var rate, burst, late := Rate(terms, lane), Burst(terms, lane) as real, Max(until, now);
    WorthGrows(rate, until, late);
    WorthAdds(rate, late, until);
    assert late - until == Max(0.0, now - until);
    if next == b && paid == 0 {
      IdleBalances(b.tokens, Worth(rate, b.last), Worth(rate, until), Worth(rate, late), Worth(rate, s.start),
                   Worth(rate, s.end), burst);
    } else {
      RefillIsFull(b, rate, burst, now);
      InTokens(rate, b, now, s);
      WorthOfMax(rate, until, now);
      WorthGrows(rate, b.last, until);
      LateUseBalances(b.tokens, Worth(rate, b.last), Worth(rate, until), Worth(rate, now), Worth(rate, s.start),
                      Worth(rate, s.end), burst, paid as real);
    }
  }

  /** A section on a bucket under these terms keeps the lane's account, whichever bucket it is and whenever it was
      dated. */
  lemma TouchKeeps(terms: Terms, pod: Pod, i: nat, now: real, next: Local, lane: Lane, s: Stretch, paid: nat,
                   more: nat)
    requires terms.Valid() && Shaped(terms, pod) && i < |pod.objects| && terms.Holds(pod.objects[i].l)
    requires LaneInv(terms, pod, lane, s, paid) && Burst(terms, lane) > 0 && s.start <= s.end
    requires Moves(Of(pod.objects[i].l, lane), Of(next, lane), now, more)
    ensures LaneInv(terms, Touched(pod, i, now, next), lane, s,
                    paid + InStretch(Of(pod.objects[i].l, lane), now, s, more))
  {
    var o := pod.objects[i];
    match o.until
    case None =>
      assert pod.front == Some(i);
      DueChanges(terms, lane, pod.objects, s, i, Object(next, None));
      FrontMoves(terms, lane, Of(o.l, lane), Of(next, lane), now, more, s);
    case Some(until) =>
      DueChanges(terms, lane, pod.objects, s, i, Object(next, Some(Max(until, now))));
      ReplacedMoves(terms, lane, Of(o.l, lane), until, Of(next, lane), now, more, s);
      WorthAdds(Rate(terms, lane), pod.overlap, Max(0.0, now - until));
  }

  lemma FrontIsOk(terms: Terms, pod: Pod, lane: Lane)
    requires terms.Valid() && Shaped(terms, pod) && Burst(terms, lane) > 0
    ensures BucketOk(FrontBucket(terms, pod, lane), Rate(terms, lane), Burst(terms, lane) as real, None)
    ensures FrontBucket(terms, pod, lane).last <= FrontDate(pod)
  {
  }

  /** A bucket configured under these terms for the first time, or again, keeps the lane's account: it starts empty,
      and what its date overlaps is counted. */
  lemma BeginKeeps(terms: Terms, pod: Pod, i: nat, now: real, next: Local, lane: Lane, s: Stretch, paid: nat)
    requires terms.Valid() && Shaped(terms, pod) && i < |pod.objects| && !terms.Holds(pod.objects[i].l)
    requires LaneInv(terms, pod, lane, s, paid) && Burst(terms, lane) > 0 && s.start <= s.end
    requires Of(next, lane) == Init(now, Rate(terms, lane), Burst(terms, lane))
    ensures LaneInv(terms, Begun(pod, i, now, next), lane, s, paid)
  {
    var rate, front, date := Rate(terms, lane), FrontBucket(terms, pod, lane), FrontDate(pod);
    DueOnceBegun(terms, pod, i, now, next, lane, s);
    StartIsPaidFor(terms, lane, front, date, now, s);
    WorthAdds(rate, pod.overlap, Max(0.0, date - now));
  }

  /** `StartBalances`, for buckets. */
  lemma StartIsPaidFor(terms: Terms, lane: Lane, front: Bucket, date: real, now: real, s: Stretch)
    requires Rate(terms, lane) > 0.0 && s.start <= s.end
    requires BucketOk(front, Rate(terms, lane), Burst(terms, lane) as real, None) && front.last <= date
    ensures BucketDue(terms, lane, front, Max(now, date), s)
          + BucketDue(terms, lane, Init(now, Rate(terms, lane), Burst(terms, lane)), s.end, s)
        <= BucketDue(terms, lane, front, s.end, s) + Worth(Rate(terms, lane), Max(0.0, date - now))
  {
    var rate := Rate(terms, lane);
    WorthOfMax(rate, now, date);
    WorthGrows(rate, front.last, date);
    WorthOfMax(rate, 0.0, date - now);
    WorthAdds(rate, date, now);
    WorthGrows(rate, s.start, s.end);
    StartBalances(front.tokens, Worth(rate, front.last), Worth(rate, date), Worth(rate, now), Worth(rate, s.start),
                  Worth(rate, s.end), Burst(terms, lane) as real);
  }

  /** What is due once bucket `i` has taken the front's place. */
  lemma DueOnceBegun(terms: Terms, pod: Pod, i: nat, now: real, next: Local, lane: Lane, s: Stretch)
    requires terms.Valid() && Shaped(terms, pod) && i < |pod.objects|
    requires !terms.Holds(pod.objects[i].l) && Burst(terms, lane) > 0
    ensures var front := FrontBucket(terms, pod, lane);
      AllDue(terms, lane, Begun(pod, i, now, next).objects, s)
        <= AllDue(terms, lane, pod.objects, s) + BucketDue(terms, lane, front, Max(now, FrontDate(pod)), s)
    ensures FrontBucket(terms, Begun(pod, i, now, next), lane) == Of(next, lane)
    ensures BucketOk(FrontBucket(terms, pod, lane), Rate(terms, lane), Burst(terms, lane) as real, None)
    ensures FrontBucket(terms, pod, lane).last <= FrontDate(pod)
  {
    FrontIsOk(terms, pod, lane);
    assert ObjectOk(terms, pod.objects[i]);
    if pod.front.Some? {
      var m := pod.front.value;
      var replaced := pod.objects[m].(until := Some(Max(now, FrontDate(pod))));
      DueChanges(terms, lane, pod.objects, s, m, replaced);
      DueChanges(terms, lane, pod.objects[m := replaced], s, i, Object(next, None));
    } else {
      DueChanges(terms, lane, pod.objects, s, i, Object(next, None));
    }
  }

  /** A bucket that another generation's caller takes over can only give less. */
  lemma EndKeeps(terms: Terms, pod: Pod, i: nat, next: Local, lane: Lane, s: Stretch, paid: nat)
    requires terms.Valid() && Shaped(terms, pod) && i < |pod.objects|
    requires LaneInv(terms, pod, lane, s, paid) && Burst(terms, lane) > 0 && s.start <= s.end
    ensures LaneInv(terms, Ended(pod, i, next), lane, s, paid)
  {
    var o := pod.objects[i];
    DueChanges(terms, lane, pod.objects, s, i, Object(next, None));
    if pod.front == Some(i) {
      var rate, front := Rate(terms, lane), FrontBucket(terms, pod, lane);
      FrontIsOk(terms, pod, lane);
      WorthGrows(rate, front.last, Used(o.l));
      WorthGrows(rate, s.start, s.end);
    }
  }

  lemma UpdatedIsRefilled(terms: Terms, o: Object, now: real, epoch: nat, notBefore: real, notAfter: real, lane: Lane)
    requires terms.Valid() && terms.Holds(o.l) && ObjectOk(terms, o) && Burst(terms, lane) > 0
    requires epoch != 0 && notBefore < notAfter
    ensures Of(Updated(o.l, now, terms.Config(epoch, notBefore, notAfter)), lane) == Refill(Of(o.l, lane), now)
  {
  }

  lemma AttemptMoves(terms: Terms, o: Object, op: Op, lane: Lane)
    requires terms.Valid() && terms.Holds(o.l) && ObjectOk(terms, o) && Burst(terms, lane) > 0
    requires op.Spend? && op.epoch != 0 && !Attempt(o.l, op).1.Behind?
    ensures op.generation == terms.generation
    ensures Moves(Of(o.l, lane), Of(Attempt(o.l, op).0, lane), op.now,
                  if Attempt(o.l, op).1.Admit? && (op.standard || lane.Shared?) then 1 else 0)
  {
    RefillIsFull(Of(o.l, lane), Rate(terms, lane), Burst(terms, lane) as real, op.now);
  }

  // ---------- Steps ----------

  /** What a step pays that counts in the stretch. */
  function Counted(terms: Terms, pod: Pod, op: Op, lane: Lane, s: Stretch): nat {
    if op.Spend? && op.i < |pod.objects|
    then InStretch(Of(pod.objects[op.i].l, lane), op.now, s, Pays(terms, pod, op, lane)) else 0
  }

  /** A step that changes bucket `i` without its tokens, or one that is not under these terms. */
  lemma SameDue(terms: Terms, pod: Pod, i: nat, o: Object, lane: Lane, s: Stretch, paid: nat)
    requires i < |pod.objects| && LaneInv(terms, pod, lane, s, paid)
    requires if pod.objects[i].until.None? && pod.front != Some(i) then o.until.None?
             else o.until == pod.objects[i].until && Of(o.l, lane) == Of(pod.objects[i].l, lane)
    ensures LaneInv(terms, pod.(objects := pod.objects[i := o]), lane, s, paid)
  {
    DueChanges(terms, lane, pod.objects, s, i, o);
  }

  lemma SpendKeeps(terms: Terms, pod: Pod, op: Op, lane: Lane, s: Stretch, paid: nat)
    requires terms.Valid() && Shaped(terms, pod) && LaneInv(terms, pod, lane, s, paid) && s.start <= s.end
    requires op.Spend? && op.epoch != 0 && op.i < |pod.objects| && Burst(terms, lane) > 0
    ensures LaneInv(terms, Step(terms, pod, op), lane, s, paid + Counted(terms, pod, op, lane, s))
  {
    var o := pod.objects[op.i];
    assert ObjectOk(terms, o);
    var (next, verdict) := Attempt(o.l, op);
    if !verdict.Behind? {
      if terms.Holds(o.l) {
        AttemptMoves(terms, o, op, lane);
        TouchKeeps(terms, pod, op.i, op.now, next, lane, s, paid, Pays(terms, pod, op, lane));
      } else {
        SameDue(terms, pod, op.i, Object(next, None), lane, s, paid);
      }
    }
  }

  lemma RefreshKeeps(terms: Terms, pod: Pod, op: Op, lane: Lane, s: Stretch, paid: nat)
    requires terms.Valid() && Shaped(terms, pod) && LaneInv(terms, pod, lane, s, paid) && s.start <= s.end
    requires op.Refresh? && Proper(terms, op) && op.i < |pod.objects| && Burst(terms, lane) > 0
    ensures LaneInv(terms, Step(terms, pod, op), lane, s, paid)
  {
    var o := pod.objects[op.i];
    assert ObjectOk(terms, o);
    var next := Updated(o.l, op.now, terms.Config(op.epoch, op.notBefore, op.notAfter));
    if terms.Holds(o.l) {
      UpdatedIsRefilled(terms, o, op.now, op.epoch, op.notBefore, op.notAfter, lane);
      RefillIsFull(Of(o.l, lane), Rate(terms, lane), Burst(terms, lane) as real, op.now);
      TouchKeeps(terms, pod, op.i, op.now, next, lane, s, paid, 0);
    } else {
      BeginKeeps(terms, pod, op.i, op.now, next, lane, s, paid);
    }
  }

  /** Every section keeps the account of both lanes for every stretch, on whichever bucket and under whichever plan a
      caller runs it, and whenever it read its clock. */
  lemma StepKeeps(terms: Terms, pod: Pod, op: Op, lane: Lane, s: Stretch, paid: nat)
    requires terms.Valid() && Shaped(terms, pod) && Proper(terms, op) && LaneInv(terms, pod, lane, s, paid)
    requires s.start <= s.end
    ensures LaneInv(terms, Step(terms, pod, op), lane, s, paid + Counted(terms, pod, op, lane, s))
  {
    if Burst(terms, lane) == 0 {
      NoBurstNoPay(terms, pod, op, lane);
    } else {
      match op
      case Refresh(_, _, _, _, _) =>
        if op.i < |pod.objects| {
          RefreshKeeps(terms, pod, op, lane, s, paid);
        }
      case Spend(_, _, _, _, _) =>
        if op.i < |pod.objects| {
          SpendKeeps(terms, pod, op, lane, s, paid);
        }
      case Overwrite(i, now, config) =>
        if i < |pod.objects| {
          EndKeeps(terms, pod, i, Updated(pod.objects[i].l, now, config), lane, s, paid);
        }
      case _ => IdleKeeps(terms, pod, op, lane, s, paid);
    }
  }

  /** A section that moves no tokens. */
  lemma IdleKeeps(terms: Terms, pod: Pod, op: Op, lane: Lane, s: Stretch, paid: nat)
    requires LaneInv(terms, pod, lane, s, paid)
    requires (op.Renew? || op.Install? || op.DeleteExpired? || op.Restart?) && Burst(terms, lane) > 0
    requires pod.front.Some? ==> pod.front.value < |pod.objects|
    ensures LaneInv(terms, Step(terms, pod, op), lane, s, paid)
  {
    match op
    case Renew(i, epoch, notBefore, notAfter) =>
      if i < |pod.objects| {
        var o := pod.objects[i];
        SameDue(terms, pod, i, o.(l := o.l.(epoch := epoch, notBefore := notBefore, notAfter := notAfter)), lane, s,
                paid);
      }
    case Install =>
      var more := pod.objects + [Object(NEW_LOCAL, None)];
      assert more[..|pod.objects|] == pod.objects;
    case _ =>
  }

  lemma NoBurstNoPay(terms: Terms, pod: Pod, op: Op, lane: Lane)
    requires terms.Valid() && Shaped(terms, pod) && Proper(terms, op) && Burst(terms, lane) == 0
    ensures Pays(terms, pod, op, lane) == 0
  {
    if op.Spend? && op.i < |pod.objects| {
      assert ObjectOk(terms, pod.objects[op.i]);
    }
  }

  lemma ChangedIsShaped(terms: Terms, pod: Pod, i: nat, o: Object, t: Pod)
    requires Shaped(terms, pod) && i < |pod.objects| && t.overlap >= 0.0
    requires t == pod.(objects := pod.objects[i := o], overlap := t.overlap)
    requires ObjectOk(terms, o) && (pod.front == Some(i) <==> terms.Holds(o.l) && o.until.None?)
    ensures Shaped(terms, t)
  {
    assert t.front.Some? ==> IsFront(terms, t, t.front.value) by {
      if pod.front.Some? {
        assert IsFront(terms, pod, pod.front.value);
        assert pod.front != Some(i) ==> t.objects[pod.front.value] == pod.objects[pod.front.value];
      }
    }
    forall k: nat {:trigger t.objects[k]} | k < |t.objects|
      ensures ObjectOk(terms, t.objects[k]) && (IsFront(terms, t, k) ==> t.front == Some(k)) {
      if k == i {
        assert t.objects[k] == o;
      } else {
        assert t.objects[k] == pod.objects[k];
        assert ObjectOk(terms, pod.objects[k]) && (IsFront(terms, pod, k) ==> pod.front == Some(k));
      }
    }
  }

  lemma MovedIsOk(terms: Terms, b: Bucket, next: Bucket, now: real, paid: nat, lane: Lane,
                  until: Option<real>)
    requires terms.Valid() && Burst(terms, lane) > 0
    requires BucketOk(b, Rate(terms, lane), Burst(terms, lane) as real, until)
    requires Moves(b, next, now, paid)
    ensures BucketOk(next, Rate(terms, lane), Burst(terms, lane) as real,
                     match until case None => None case Some(u) => Some(Max(u, now)))
  {
    RefillIsFull(b, Rate(terms, lane), Burst(terms, lane) as real, now);
  }

  /** A section on a bucket under these terms, dated by `end`. */
  lemma TouchedIsShaped(terms: Terms, pod: Pod, i: nat, now: real, next: Local, shared: nat, standard: nat)
    requires terms.Valid() && Shaped(terms, pod)
    requires i < |pod.objects| && terms.Holds(pod.objects[i].l)
    requires terms.Holds(next) && next.hasShared && (next.hasStandard <==> terms.standardBurst > 0)
    requires Moves(pod.objects[i].l.shared, next.shared, now, shared)
    requires terms.standardBurst > 0 ==> Moves(pod.objects[i].l.standard, next.standard, now, standard)
    ensures Shaped(terms, Touched(pod, i, now, next))
  {
    var o := pod.objects[i];
    assert ObjectOk(terms, o) && (IsFront(terms, pod, i) ==> pod.front == Some(i));
    MovedIsOk(terms, o.l.shared, next.shared, now, shared, Shared, o.until);
    if terms.standardBurst > 0 {
      MovedIsOk(terms, o.l.standard, next.standard, now, standard, Standard, o.until);
    }
    match o.until
    case None => ChangedIsShaped(terms, pod, i, Object(next, None), Touched(pod, i, now, next));
    case Some(until) =>
      ChangedIsShaped(terms, pod, i, Object(next, Some(Max(until, now))), Touched(pod, i, now, next));
  }

  lemma SpendIsShaped(terms: Terms, pod: Pod, op: Op)
    requires terms.Valid() && Shaped(terms, pod) && op.Spend? && op.epoch != 0 && op.i < |pod.objects|
    ensures Shaped(terms, Step(terms, pod, op))
  {
    var o := pod.objects[op.i];
    assert ObjectOk(terms, o);
    var (next, verdict) := Attempt(o.l, op);
    if !verdict.Behind? {
      if terms.Holds(o.l) {
        AttemptMoves(terms, o, op, Shared);
        if terms.standardBurst > 0 {
          AttemptMoves(terms, o, op, Standard);
        }
        var paid := if verdict.Admit? then 1 else 0;
        TouchedIsShaped(terms, pod, op.i, op.now, next, paid, if op.standard then paid else 0);
      } else {
        ChangedIsShaped(terms, pod, op.i, Object(next, None), Step(terms, pod, op));
      }
    }
  }

  lemma RefreshIsShaped(terms: Terms, pod: Pod, op: Op)
    requires terms.Valid() && Shaped(terms, pod) && op.Refresh? && Proper(terms, op) && op.i < |pod.objects|
    ensures Shaped(terms, Step(terms, pod, op))
  {
    var o := pod.objects[op.i];
    assert ObjectOk(terms, o);
    var next := Updated(o.l, op.now, terms.Config(op.epoch, op.notBefore, op.notAfter));
    if terms.Holds(o.l) {
      UpdatedIsRefilled(terms, o, op.now, op.epoch, op.notBefore, op.notAfter, Shared);
      RefillIsFull(o.l.shared, terms.sharedRate, terms.sharedBurst as real, op.now);
      if terms.standardBurst > 0 {
        UpdatedIsRefilled(terms, o, op.now, op.epoch, op.notBefore, op.notAfter, Standard);
        RefillIsFull(o.l.standard, terms.standardRate, terms.standardBurst as real, op.now);
      }
      TouchedIsShaped(terms, pod, op.i, op.now, next, 0, 0);
    } else {
      BegunIsShaped(terms, pod, op.i, op.now, next);
    }
  }

  lemma BegunIsShaped(terms: Terms, pod: Pod, i: nat, now: real, next: Local)
    requires terms.Valid() && Shaped(terms, pod)
    requires i < |pod.objects| && !terms.Holds(pod.objects[i].l)
    requires ObjectOk(terms, Object(next, None)) && terms.Holds(next)
    ensures Shaped(terms, Begun(pod, i, now, next))
  {
    var t := Begun(pod, i, now, next);
    forall k: nat {:trigger t.objects[k]} | k < |t.objects|
      ensures ObjectOk(terms, t.objects[k]) && (IsFront(terms, t, k) ==> t.front == Some(k)) {
      assert ObjectOk(terms, pod.objects[k]) && (IsFront(terms, pod, k) ==> pod.front == Some(k));
    }
  }

  lemma EndedIsShaped(terms: Terms, pod: Pod, i: nat, next: Local)
    requires terms.Valid() && Shaped(terms, pod) && i < |pod.objects| && next.generation != terms.generation
    ensures Shaped(terms, Ended(pod, i, next))
  {
    var t := Ended(pod, i, next);
    forall k: nat {:trigger t.objects[k]} | k < |t.objects|
      ensures ObjectOk(terms, t.objects[k]) && (IsFront(terms, t, k) ==> t.front == Some(k)) {
      assert ObjectOk(terms, pod.objects[k]) && (IsFront(terms, pod, k) ==> pod.front == Some(k));
    }
  }

  lemma InstalledIsShaped(terms: Terms, pod: Pod)
    requires terms.Valid() && Shaped(terms, pod)
    ensures Shaped(terms, Step(terms, pod, Install))
  {
    var t := Step(terms, pod, Install);
    forall k: nat {:trigger t.objects[k]} | k < |t.objects|
      ensures ObjectOk(terms, t.objects[k]) && (IsFront(terms, t, k) ==> t.front == Some(k)) {
      if k < |pod.objects| {
        assert t.objects[k] == pod.objects[k];
        assert ObjectOk(terms, pod.objects[k]) && (IsFront(terms, pod, k) ==> pod.front == Some(k));
      } else {
        assert t.objects[k] == Object(NEW_LOCAL, None);
      }
    }
  }

  lemma StepIsShaped(terms: Terms, pod: Pod, op: Op)
    requires terms.Valid() && Shaped(terms, pod) && Proper(terms, op)
    ensures Shaped(terms, Step(terms, pod, op))
  {
    match op
    case Refresh(_, _, _, _, _) =>
      if op.i < |pod.objects| {
        RefreshIsShaped(terms, pod, op);
      }
    case Spend(_, _, _, _, _) =>
      if op.i < |pod.objects| {
        SpendIsShaped(terms, pod, op);
      }
    case Overwrite(i, now, config) =>
      if i < |pod.objects| {
        EndedIsShaped(terms, pod, i, Updated(pod.objects[i].l, now, config));
      }
    case Renew(i, epoch, notBefore, notAfter) =>
      if i < |pod.objects| {
        var o := pod.objects[i];
        assert ObjectOk(terms, o) && (IsFront(terms, pod, i) ==> pod.front == Some(i));
        ChangedIsShaped(terms, pod, i, o.(l := o.l.(epoch := epoch, notBefore := notBefore, notAfter := notAfter)),
                        Step(terms, pod, op));
      }
    case Install => InstalledIsShaped(terms, pod);
    case _ => RemappedIsShaped(terms, pod, Step(terms, pod, op));
  }

  lemma RemappedIsShaped(terms: Terms, pod: Pod, t: Pod)
    requires Shaped(terms, pod) && t == pod.(mapped := t.mapped)
    ensures Shaped(terms, t)
  {
    forall k: nat {:trigger t.objects[k]} | k < |t.objects|
      ensures ObjectOk(terms, t.objects[k]) && (IsFront(terms, t, k) ==> t.front == Some(k)) {
      assert ObjectOk(terms, pod.objects[k]) && (IsFront(terms, pod, k) ==> pod.front == Some(k));
    }
  }

  // ---------- Every run ----------

  /** The pod is in order, and no stretch owes anything yet. */
  ghost predicate Settled(terms: Terms, pod: Pod) {
    Shaped(terms, pod) && forall lane, s: Stretch {:trigger LaneInv(terms, pod, lane, s, 0)} ::
      s.start <= s.end ==> LaneInv(terms, pod, lane, s, 0)
  }

  lemma NewPodIsSettled(terms: Terms, seen: real)
    requires terms.Valid()
    ensures Settled(terms, NewPod(seen))
  {
    var pod := NewPod(seen);
    forall lane: Lane, s: Stretch | s.start <= s.end ensures LaneInv(terms, pod, lane, s, 0) {
      if Burst(terms, lane) > 0 {
        WorthAdds(Rate(terms, lane), 0.0, 0.0);
        WorthGrows(Rate(terms, lane), s.start, s.end);
      }
    }
  }

  lemma StepSettles(terms: Terms, pod: Pod, op: Op)
    requires terms.Valid() && Settled(terms, pod) && Proper(terms, op)
    ensures Settled(terms, Step(terms, pod, op))
  {
    StepIsShaped(terms, pod, op);
    forall lane, s: Stretch | s.start <= s.end ensures LaneInv(terms, Step(terms, pod, op), lane, s, 0) {
      assert LaneInv(terms, pod, lane, s, 0);
      StepKeeps(terms, pod, op, lane, s, 0);
      OwesLess(terms, Step(terms, pod, op), lane, s, Counted(terms, pod, op, lane, s), 0);
    }
  }

  lemma OwesLess(terms: Terms, pod: Pod, lane: Lane, s: Stretch, paid: nat, less: nat)
    requires LaneInv(terms, pod, lane, s, paid) && less <= paid
    ensures LaneInv(terms, pod, lane, s, less)
  {
  }

  lemma {:induction false} RunSettles(terms: Terms, pod: Pod, ops: seq<Op>)
    requires terms.Valid() && Settled(terms, pod) && forall i :: 0 <= i < |ops| ==> Proper(terms, ops[i])
    ensures Settled(terms, After(terms, pod, ops))
  {
    if ops != [] {
      RunSettles(terms, pod, ops[..|ops| - 1]);
      StepSettles(terms, After(terms, pod, ops[..|ops| - 1]), ops[|ops| - 1]);
    }
  }

  /** The stretch up to which the buckets of payments with these lags may have been refilled. */
  function Extended(s: Stretch, lag: real): Stretch {
    Stretch(s.start, s.end + lag)
  }

  /** What a step pays, and its reading is in the stretch, counts in the extended one. */
  lemma LaggingCounts(terms: Terms, pod: Pod, op: Op, lane: Lane, s: Stretch, lag: real)
    requires ReadIn(op, s) ==> Lag(terms, pod, op, lane) <= lag
    ensures (if ReadIn(op, s) then Pays(terms, pod, op, lane) else 0)
         <= Counted(terms, pod, op, lane, Extended(s, lag))
  {
  }

  /** A run keeps the account of any stretch, extended by the lags. */
  lemma {:induction false} RunKeeps(terms: Terms, pod: Pod, ops: seq<Op>, lane: Lane, s: Stretch, lag: real)
    requires terms.Valid() && Settled(terms, pod) && forall i :: 0 <= i < |ops| ==> Proper(terms, ops[i])
    requires s.start <= s.end && 0.0 <= lag && LagIn(terms, pod, ops, lane, s) <= lag
    ensures Shaped(terms, After(terms, pod, ops))
    ensures LaneInv(terms, After(terms, pod, ops), lane, Extended(s, lag), PaidIn(terms, pod, ops, lane, s))
  {
    if ops == [] {
      assert LaneInv(terms, pod, lane, Extended(s, lag), 0);
    } else {
      var rest, last := ops[..|ops| - 1], ops[|ops| - 1];
      RunKeeps(terms, pod, rest, lane, s, lag);
      var p, more := After(terms, pod, rest), Counted(terms, After(terms, pod, rest), last, lane, Extended(s, lag));
      StepIsShaped(terms, p, last);
      StepKeeps(terms, p, last, lane, Extended(s, lag), PaidIn(terms, pod, rest, lane, s));
      LaggingCounts(terms, p, last, lane, s, lag);
      OwesLess(terms, Step(terms, p, last), lane, Extended(s, lag), PaidIn(terms, pod, rest, lane, s) + more,
               PaidIn(terms, pod, ops, lane, s));
    }
  }

  /** What the account says at the end: one burst, the worth of the stretch and that of the overlap. */
  lemma LaneGives(terms: Terms, pod: Pod, lane: Lane, s: Stretch, paid: nat)
    requires terms.Valid() && s.start <= s.end
    requires Shaped(terms, pod) && LaneInv(terms, pod, lane, s, paid)
    ensures paid as real <= Burst(terms, lane) as real + Worth(Rate(terms, lane), s.end - s.start)
                                + Worth(Rate(terms, lane), pod.overlap)
  {
    var rate := Rate(terms, lane);
    WorthAdds(rate, s.end, s.start);
    if Burst(terms, lane) > 0 {
      DueIsNoDebt(terms, lane, pod.objects, s);
    } else {
      Positive(rate, s.end - s.start);
      Positive(rate, pod.overlap);
    }
  }

  lemma Positive(rate: real, seconds: real)
    requires rate >= 0.0 && seconds >= 0.0
    ensures Worth(rate, seconds) >= 0.0
  {
  }

  lemma {:induction false} LagIsPositive(terms: Terms, pod: Pod, ops: seq<Op>, lane: Lane, s: Stretch)
    ensures LagIn(terms, pod, ops, lane, s) >= 0.0
  {
    if ops != [] {
      LagIsPositive(terms, pod, ops[..|ops| - 1], lane, s);
    }
  }

  /** In every run, whatever clock readings its sections carry, what a lane pays on readings of a stretch is at most
      its burst, what its rate brings in that time, in the time by which readings lag, and in the time by which the
      dates of buckets overlap. */
  lemma RunGives(terms: Terms, pod: Pod, ops: seq<Op>, lane: Lane, s: Stretch, lag: real)
    requires terms.Valid() && Settled(terms, pod) && s.start <= s.end
    requires forall i :: 0 <= i < |ops| ==> Proper(terms, ops[i])
    requires 0.0 <= lag && LagIn(terms, pod, ops, lane, s) <= lag
    ensures PaidIn(terms, pod, ops, lane, s) as real
         <= Burst(terms, lane) as real + Worth(Rate(terms, lane), s.end - s.start) + Worth(Rate(terms, lane), lag)
             + Worth(Rate(terms, lane), After(terms, pod, ops).overlap)
    ensures After(terms, pod, ops).overlap >= 0.0
  {
    RunKeeps(terms, pod, ops, lane, s, lag);
    LaneGives(terms, After(terms, pod, ops), lane, Extended(s, lag), PaidIn(terms, pod, ops, lane, s));
    ExtendedWorth(Rate(terms, lane), s, lag);
  }

  lemma ExtendedWorth(rate: real, s: Stretch, lag: real)
    ensures var e := Extended(s, lag);
      Worth(rate, e.end - e.start) == Worth(rate, s.end - s.start) + Worth(rate, lag)
  {
    WorthAdds(rate, s.end - s.start, lag);
    assert (s.end + lag) - s.start == (s.end - s.start) + lag;
  }
}
