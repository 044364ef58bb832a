/** Which clock readings keep a pod's share: exactly those without overlap and without lag. */
module PodDates {
  import opened Options
  import opened Numbers
  import opened TokenBucket
  import opened PodBudget

  /** The pod's window for an epoch: there is one, and those of later epochs are later. */
  datatype Span = Span(notBefore: real, notAfter: real)

  ghost predicate Epochs(windows: nat -> Span) {
    && (forall e: nat {:trigger windows(e)} :: windows(e).notBefore < windows(e).notAfter)
    && (forall e: nat, later: nat {:trigger windows(e), windows(later)} :: e < later ==>
      windows(e).notAfter <= windows(later).notBefore)
  }

  /** A step as a caller takes it: it reads its clock inside the window of the plan it goes on with, however long it
      then takes to get the lock, and expired buckets are dropped while the activated plan is in force. A bucket that
      an activation primes may also be refreshed before the window opens; that is a `Proper` step. */
  ghost predicate Plausible(terms: Terms, windows: nat -> Span, op: Op) {
    match op
    case Install => true
    case Restart => true
    case DeleteExpired(at, notBefore, notAfter) =>
      notBefore <= at < notAfter && exists e :: windows(e) == Span(notBefore, notAfter)
    case Refresh(_, now, epoch, notBefore, notAfter) =>
      epoch != 0 && windows(epoch) == Span(notBefore, notAfter) && notBefore <= now < notAfter
    case Overwrite(_, _, config) => config.generation != terms.generation
    case Renew(_, epoch, notBefore, notAfter) => epoch != 0 && windows(epoch) == Span(notBefore, notAfter)
    case Spend(_, now, epoch, _, _) => epoch != 0 && windows(epoch).notBefore <= now < windows(epoch).notAfter
  }

  /** A run of a new pod, and a stretch of its clock. The run may begin before the stretch and go on after it, and
      readings need not come in order. */
  datatype History = History(windows: nat -> Span, seen: real, ops: seq<Op>, s: Stretch)

  /** All steps are ones the program takes; or, if `plausible`, ones a caller takes. */
  ghost predicate Possible(terms: Terms, h: History, plausible: bool) {
    && h.s.start <= h.s.end && (plausible ==> Epochs(h.windows))
    && forall i :: 0 <= i < |h.ops| ==>
         if plausible then Plausible(terms, h.windows, h.ops[i]) else Proper(terms, h.ops[i])
  }

  ghost function Closed(terms: Terms, h: History): Pod {
    After(terms, NewPod(h.seen), h.ops)
  }

  ghost function PaidOn(terms: Terms, h: History, lane: Lane): nat {
    PaidIn(terms, NewPod(h.seen), h.ops, lane, h.s)
  }

  ghost function LagOn(terms: Terms, h: History, lane: Lane): real {
    LagIn(terms, NewPod(h.seen), h.ops, lane, h.s)
  }

  /** The stretch costs the lane no more than its share. */
  ghost predicate WithinShare(terms: Terms, h: History, lane: Lane) {
    PaidOn(terms, h, lane) as real <= Burst(terms, lane) as real + Worth(Rate(terms, lane), h.s.end - h.s.start)
  }

  // ---------- Every run ----------

  lemma PossibleIsProper(terms: Terms, h: History, plausible: bool)
    requires Possible(terms, h, plausible)
    ensures forall i :: 0 <= i < |h.ops| ==> Proper(terms, h.ops[i])
  {
    forall i | 0 <= i < |h.ops| ensures Proper(terms, h.ops[i]) {
      assert plausible ==> Plausible(terms, h.windows, h.ops[i]);
    }
  }

  /** In any stretch of any run a lane pays at most its burst, what its rate brings in that time, in the time by which
      readings lag behind their bucket's date, and in the time by which the dates of buckets overlap. */
  lemma StretchBudget(terms: Terms, h: History, lane: Lane, plausible: bool)
    requires terms.Valid() && Possible(terms, h, plausible)
    ensures PaidOn(terms, h, lane) as real
         <= Burst(terms, lane) as real + Worth(Rate(terms, lane), h.s.end - h.s.start)
             + Worth(Rate(terms, lane), LagOn(terms, h, lane)) + Worth(Rate(terms, lane), Closed(terms, h).overlap)
    ensures Closed(terms, h).overlap >= 0.0 && LagOn(terms, h, lane) >= 0.0
  {
    NewPodIsSettled(terms, h.seen);
    PossibleIsProper(terms, h, plausible);
    LagIsPositive(terms, NewPod(h.seen), h.ops, lane, h.s);
    RunGives(terms, NewPod(h.seen), h.ops, lane, h.s, LagOn(terms, h, lane));
  }

  // ---------- Windows of the runs below ----------

  function Begins(width: real, fill: real, e: nat): real {
    if e == 0 then -fill - width else Begins(width, fill, e - 1) + width
  }

  /** Epoch 1 begins at `-fill`, when the bucket is configured; at 0 it is full. */
  function Windows(t: Times): nat -> Span {
    (e: nat) => Span(Begins(t.width, t.fill, e), Begins(t.width, t.fill, e) + t.width)
  }

  lemma WindowsAreEpochs(t: Times)
    requires t.width > 0.0
    ensures Epochs(Windows(t))
    ensures Windows(t)(1) == Span(-t.fill, t.width - t.fill)
    ensures Windows(t)(4) == Span(3.0 * t.width - t.fill, 4.0 * t.width - t.fill)
  {
    var windows := Windows(t);
    forall e: nat, later: nat | e < later ensures windows(e).notAfter <= windows(later).notBefore {
      BeginsLater(t.width, t.fill, e, later);
    }
    assert Begins(t.width, t.fill, 1) == -t.fill && Begins(t.width, t.fill, 2) == t.width - t.fill;
    assert Begins(t.width, t.fill, 3) == 2.0 * t.width - t.fill && Begins(t.width, t.fill, 4) == 3.0 * t.width - t.fill;
  }

  lemma {:induction false} BeginsLater(width: real, fill: real, e: nat, later: nat)
    requires width > 0.0 && e < later
    ensures Begins(width, fill, e) + width <= Begins(width, fill, later)
  {
    if e < later - 1 {
      BeginsLater(width, fill, e, later - 1);
    }
  }

  /** The numbers of a run: how long the lane's burst and a single token take, and a window that holds all dates. */
  datatype Times = Times(fill: real, token: real, width: real)

  /** The lane has a burst, and a standard spend finds the shared token it takes along with the standard one. */
  ghost predicate Supports(terms: Terms, lane: Lane) {
    && Burst(terms, lane) > 0
    && (lane.Standard? ==> terms.standardBurst <= terms.sharedBurst && terms.standardRate <= terms.sharedRate)
  }

  function TimesOf(terms: Terms, lane: Lane): Times
    requires terms.Valid() && Burst(terms, lane) > 0
  {
    var fill, token := Burst(terms, lane) as real / Rate(terms, lane), 1.0 / Rate(terms, lane);
    Times(fill, token, fill + token + 1.0)
  }

  /** The times are those of the lane. */
  ghost predicate Suit(terms: Terms, lane: Lane, t: Times) {
    && 0.0 < t.token <= t.fill && t.width > t.fill + t.token
    && Worth(Rate(terms, lane), t.fill) == Burst(terms, lane) as real && Worth(Rate(terms, lane), t.token) == 1.0
  }

  lemma TimesFit(terms: Terms, lane: Lane)
    requires terms.Valid() && Burst(terms, lane) > 0
    ensures Suit(terms, lane, TimesOf(terms, lane))
  {
    var t, rate := TimesOf(terms, lane), Rate(terms, lane);
    assert rate * t.fill == Burst(terms, lane) as real && rate * t.token == 1.0;
    WorthAdds(rate, 0.0, 0.0);
    WorthGrows(rate, t.token, 0.0);
    WorthGrows(rate, t.token, t.fill);
  }

  // ---------- What a bucket holds ----------

  /** A bucket with the lane's rate and burst that at `at` holds at least `n` tokens. */
  ghost predicate Has(terms: Terms, b: Bucket, lane: Lane, at: real, n: int) {
    && b.ratePerSec == Rate(terms, lane) && b.burst == Burst(terms, lane) as real
    && b.last <= at && Refill(b, at).tokens >= n as real
  }

  /** The bucket pays `n` spends of the lane at `at`, if no earlier ones. */
  ghost predicate Stocked(terms: Terms, l: Local, lane: Lane, at: real, n: int) {
    && terms.Holds(l) && l.epoch == 1 && l.hasShared && l.config.Rates? && Used(l) <= at
    && (lane.Standard? ==> l.hasStandard) && Has(terms, l.shared, Shared, at, n)
    && Has(terms, Of(l, lane), lane, at, n)
  }

  lemma RefillGrows(b: Bucket, at: real, later: real)
    requires b.last <= at <= later && b.ratePerSec > 0.0
    ensures Refill(b, later).tokens >= Min(Refill(b, at).tokens + Worth(b.ratePerSec, later - at), b.burst)
  {
    var rate := b.ratePerSec;
    assert Accrued(rate, b.last, at) == Worth(rate, at - b.last);
    assert Accrued(rate, b.last, later) == Worth(rate, later - b.last);
    assert later - b.last == (later - at) + (at - b.last);
    WorthAdds(rate, later - at, at - b.last);
    WorthAdds(rate, 0.0, 0.0);
    WorthGrows(rate, 0.0, later - at);
    WorthGrows(rate, 0.0, at - b.last);
  }

  lemma HasMore(terms: Terms, b: Bucket, lane: Lane, at: real, n: int, later: real, m: int)
    requires Rate(terms, lane) > 0.0 && Has(terms, b, lane, at, n)
    requires at <= later && m <= Burst(terms, lane) && Worth(Rate(terms, lane), later - at) >= (m - n) as real
    ensures Has(terms, b, lane, later, m)
  {
    RefillGrows(b, at, later);
  }

  /** With time the bucket pays for more. */
  lemma StocksUp(terms: Terms, l: Local, lane: Lane, at: real, n: int, later: real, m: int)
    requires terms.Valid() && Supports(terms, lane) && Stocked(terms, l, lane, at, n)
    requires at <= later && m <= Burst(terms, lane) && Worth(Rate(terms, lane), later - at) >= (m - n) as real
    ensures Stocked(terms, l, lane, later, m)
  {
    HasMore(terms, Of(l, lane), lane, at, n, later, m);
    if lane.Standard? {
      SharedIsFaster(terms, later - at);
      HasMore(terms, l.shared, Shared, at, n, later, m);
    }
  }

  lemma SharedIsFaster(terms: Terms, seconds: real)
    requires terms.standardRate <= terms.sharedRate && seconds >= 0.0
    ensures Worth(terms.standardRate, seconds) <= Worth(terms.sharedRate, seconds)
  {
    Positive(terms.sharedRate - terms.standardRate, seconds);
    assert Worth(terms.sharedRate - terms.standardRate, seconds)
        == Worth(terms.sharedRate, seconds) - Worth(terms.standardRate, seconds);
  }

  function SpendAt(terms: Terms, lane: Lane, i: nat, now: real): Op {
    Op.Spend(i, now, 1, terms.generation, lane.Standard?)
  }

  /** A spend at `at` on a bucket that then holds a token. */
  lemma SpendsOne(terms: Terms, pod: Pod, i: nat, lane: Lane, at: real, n: int)
    requires terms.Valid() && i < |pod.objects| && n >= 1 && Stocked(terms, pod.objects[i].l, lane, at, n)
    ensures var op := SpendAt(terms, lane, i, at);
      var next := Attempt(pod.objects[i].l, op).0;
      && Pays(terms, pod, op, lane) == 1 && Lag(terms, pod, op, lane) == 0.0
      && Step(terms, pod, op) == Touched(pod, i, at, next)
      && Stocked(terms, next, lane, at, n - 1) && Used(next) == at
  {
  }

  /** A bucket configured at `now` in epoch 1. */
  function Configured(terms: Terms, t: Times, now: real): Local {
    Updated(NEW_LOCAL, now, terms.Config(1, -t.fill, t.width - t.fill))
  }

  lemma ConfiguredIsStocked(terms: Terms, lane: Lane, t: Times, now: real)
    requires terms.Valid() && Supports(terms, lane) && t.width > 0.0
    ensures var l := Configured(terms, t, now);
      Stocked(terms, l, lane, now, 0) && Used(l) == now && l.notAfter == t.width - t.fill
  {
  }

  // ---------- Runs ----------

  /** What a run of a new pod has come to. */
  datatype Tally = Tally(pod: Pod, paid: nat, lag: real)

  ghost function TallyOf(terms: Terms, lane: Lane, h: History): Tally {
    Tally(Closed(terms, h), PaidOn(terms, h, lane), LagOn(terms, h, lane))
  }

  function More(h: History, op: Op): History {
    h.(ops := h.ops + [op])
  }

  lemma Onward(terms: Terms, lane: Lane, h: History, op: Op)
    ensures var (t, u) := (TallyOf(terms, lane, h), TallyOf(terms, lane, More(h, op)));
      && u.pod == Step(terms, t.pod, op)
      && u.paid == t.paid + (if ReadIn(op, h.s) then Pays(terms, t.pod, op, lane) else 0)
      && u.lag == Max(t.lag, if ReadIn(op, h.s) then Lag(terms, t.pod, op, lane) else 0.0)
  {
    assert More(h, op).ops[..|h.ops|] == h.ops;
  }

  function RefreshAt(t: Times, i: nat, now: real): Op {
    Refresh(i, now, 1, -t.fill, t.width - t.fill)
  }

  /** The activation of epoch 4 drops what epoch 1 left. */
  function DropAll(t: Times): Op {
    DeleteExpired(3.0 * t.width - t.fill, 3.0 * t.width - t.fill, 4.0 * t.width - t.fill)
  }

  /** The steps the runs are made of. */
  ghost predicate Fits(terms: Terms, lane: Lane, t: Times, op: Op) {
    match op
    case Install => true
    case DeleteExpired(_, _, _) => op == DropAll(t)
    case Refresh(i, now, _, _, _) => op == RefreshAt(t, i, now) && -t.fill <= now < t.width - t.fill
    case Spend(i, now, _, _, _) => op == SpendAt(terms, lane, i, now) && -t.fill <= now < t.width - t.fill
    case _ => false
  }

  ghost predicate AllFit(terms: Terms, lane: Lane, t: Times, h: History) {
    h.windows == Windows(t) && h.s.start <= h.s.end && forall i :: 0 <= i < |h.ops| ==> Fits(terms, lane, t, h.ops[i])
  }

  lemma FitsIsPossible(terms: Terms, lane: Lane, t: Times, h: History, plausible: bool)
    requires terms.Valid() && Suit(terms, lane, t) && AllFit(terms, lane, t, h)
    ensures Possible(terms, h, plausible)
  {
    WindowsAreEpochs(t);
    forall i | 0 <= i < |h.ops|
      ensures Plausible(terms, h.windows, h.ops[i]) && Proper(terms, h.ops[i]) {
      assert Fits(terms, lane, t, h.ops[i]);
      assert Windows(t)(4) == Span(3.0 * t.width - t.fill, 4.0 * t.width - t.fill);
    }
  }

  /** The same pod, windows and stretch, and still a run of those steps. */
  ghost predicate GoesOn(terms: Terms, lane: Lane, t: Times, h: History, g: History) {
    AllFit(terms, lane, t, g) && g.s == h.s && g.seen == h.seen
  }

  /** A new bucket, configured a burst's time before 0. */
  lemma Primes(terms: Terms, lane: Lane, t: Times, s: Stretch) returns (h: History)
    requires terms.Valid() && Suit(terms, lane, t) && Supports(terms, lane) && s.start <= s.end
    ensures AllFit(terms, lane, t, h) && h.s == s
    ensures var l := Configured(terms, t, -t.fill);
      && TallyOf(terms, lane, h) == Tally(Pod([Object(l, None)], Some(0), Some(0), -t.fill, 0.0), 0, 0.0)
      && Stocked(terms, l, lane, 0.0, Burst(terms, lane)) && Used(l) == -t.fill && l.notAfter == t.width - t.fill
  {
    var empty := History(Windows(t), -t.fill, [], s);
    var installed := More(empty, Install);
    h := More(installed, RefreshAt(t, 0, -t.fill));
    Onward(terms, lane, empty, Install);
    Onward(terms, lane, installed, RefreshAt(t, 0, -t.fill));
    ConfiguredIsStocked(terms, lane, t, -t.fill);
    StocksUp(terms, Configured(terms, t, -t.fill), lane, -t.fill, 0, 0.0, Burst(terms, lane));
    assert Closed(terms, installed).objects == [Object(NEW_LOCAL, None)];
  }

  /** Bucket `i` was used at 0. */
  ghost predicate UsedUp(terms: Terms, lane: Lane, p: Pod, q: Pod, i: nat, left: int)
    requires i < |p.objects|
  {
    && i < |q.objects|
    && q == p.(objects := p.objects[i := q.objects[i]], overlap := q.overlap)
    && q.objects[i].l.notAfter == p.objects[i].l.notAfter && Stocked(terms, q.objects[i].l, lane, 0.0, left)
    && Used(q.objects[i].l) == 0.0
    && match p.objects[i].until
       case None => q.objects[i].until.None? && q.overlap == p.overlap
       case Some(until) =>
         q.objects[i].until == Some(Max(until, 0.0)) && q.overlap == p.overlap + Max(0.0, 0.0 - until)
  }

  lemma UsedTwice(terms: Terms, lane: Lane, p: Pod, q: Pod, r: Pod, i: nat, left: int)
    requires i < |p.objects| && UsedUp(terms, lane, p, q, i, left + 1) && UsedUp(terms, lane, q, r, i, left)
    ensures UsedUp(terms, lane, p, r, i, left)
  {
    assert r.objects == p.objects[i := r.objects[i]];
  }

  lemma SpendsAtZero(terms: Terms, lane: Lane, t: Times, h: History, i: nat, left: int)
    requires terms.Valid() && Suit(terms, lane, t) && AllFit(terms, lane, t, h) && h.s.start <= 0.0 <= h.s.end
    requires i < |Closed(terms, h).objects| && left >= 0 && LagOn(terms, h, lane) >= 0.0
    requires Stocked(terms, Closed(terms, h).objects[i].l, lane, 0.0, left + 1)
    ensures var g := More(h, SpendAt(terms, lane, i, 0.0));
      && GoesOn(terms, lane, t, h, g) && UsedUp(terms, lane, Closed(terms, h), Closed(terms, g), i, left)
      && PaidOn(terms, g, lane) == PaidOn(terms, h, lane) + 1 && LagOn(terms, g, lane) == LagOn(terms, h, lane)
  {
    Onward(terms, lane, h, SpendAt(terms, lane, i, 0.0));
    SpendsOne(terms, Closed(terms, h), i, lane, 0.0, left + 1);
  }

  /** Several spends at 0. */
  lemma {:induction false} Drains(terms: Terms, lane: Lane, t: Times, h: History, i: nat, n: nat, left: nat)
    returns (g: History)
    requires terms.Valid() && Suit(terms, lane, t) && AllFit(terms, lane, t, h) && h.s.start <= 0.0 <= h.s.end
    requires i < |Closed(terms, h).objects| && n > 0 && LagOn(terms, h, lane) >= 0.0
    requires Stocked(terms, Closed(terms, h).objects[i].l, lane, 0.0, n + left)
    ensures GoesOn(terms, lane, t, h, g) && UsedUp(terms, lane, Closed(terms, h), Closed(terms, g), i, left)
    ensures PaidOn(terms, g, lane) == PaidOn(terms, h, lane) + n && LagOn(terms, g, lane) == LagOn(terms, h, lane)
  {
    if n == 1 {
      g := More(h, SpendAt(terms, lane, i, 0.0));
      SpendsAtZero(terms, lane, t, h, i, left);
    } else {
      var rest := Drains(terms, lane, t, h, i, n - 1, left + 1);
      g := More(rest, SpendAt(terms, lane, i, 0.0));
      SpendsAtZero(terms, lane, t, rest, i, left);
      UsedTwice(terms, lane, Closed(terms, h), Closed(terms, rest), Closed(terms, g), i, left);
    }
  }

  /** The pod's only bucket, once it is dropped and replaced by one configured at `now`. */
  function Two(terms: Terms, t: Times, p: Pod, now: real): Pod
    requires |p.objects| == 1
  {
    var l := p.objects[0].l;
    Pod([Object(l, Some(Max(now, Used(l)))), Object(Configured(terms, t, now), None)], Some(1), Some(1), p.seen,
        p.overlap + Max(0.0, Used(l) - now))
  }

  ghost predicate Alone(terms: Terms, t: Times, p: Pod) {
    && |p.objects| == 1 && p.mapped == Some(0) && p.front == Some(0) && p.objects[0].until.None?
    && terms.Holds(p.objects[0].l) && p.objects[0].l.notAfter == t.width - t.fill
  }

  lemma Replaces(terms: Terms, t: Times, p: Pod, now: real)
    requires terms.Valid() && t.width > 0.0 && Alone(terms, t, p)
    ensures var dropped := Step(terms, p, DropAll(t));
      Step(terms, Step(terms, dropped, Install), RefreshAt(t, 1, now)) == Two(terms, t, p, now)
  {
    var installed := Step(terms, Step(terms, p, DropAll(t)), Install);
    assert installed.objects == [p.objects[0], Object(NEW_LOCAL, None)];
    assert Step(terms, installed, RefreshAt(t, 1, now)).objects == Two(terms, t, p, now).objects;
  }

  lemma Replaced(terms: Terms, lane: Lane, t: Times, h: History, now: real) returns (g: History)
    requires terms.Valid() && Suit(terms, lane, t) && AllFit(terms, lane, t, h) && Alone(terms, t, Closed(terms, h))
    requires -t.fill <= now < t.width - t.fill && LagOn(terms, h, lane) >= 0.0
    ensures GoesOn(terms, lane, t, h, g) && Closed(terms, g) == Two(terms, t, Closed(terms, h), now)
    ensures PaidOn(terms, g, lane) == PaidOn(terms, h, lane) && LagOn(terms, g, lane) == LagOn(terms, h, lane)
  {
    var dropped := More(h, DropAll(t));
    var installed := More(dropped, Install);
    g := More(installed, RefreshAt(t, 1, now));
    Onward(terms, lane, h, DropAll(t));
    Onward(terms, lane, dropped, Install);
    Onward(terms, lane, installed, RefreshAt(t, 1, now));
    Replaces(terms, t, Closed(terms, h), now);
  }

  /** A full bucket pays its burst at 0. */
  lemma SpendsBurst(terms: Terms, lane: Lane) returns (h: History)
    requires terms.Valid() && Supports(terms, lane)
    ensures Possible(terms, h, true) && h.s == Stretch(0.0, 0.0)
    ensures TallyOf(terms, lane, h) == Tally(Closed(terms, h), Burst(terms, lane), 0.0)
    ensures Closed(terms, h).overlap == 0.0
  {
    var t := TimesOf(terms, lane);
    TimesFit(terms, lane);
    var primed := Primes(terms, lane, t, Stretch(0.0, 0.0));
    h := Drains(terms, lane, t, primed, 0, Burst(terms, lane), 0);
    FitsIsPossible(terms, lane, t, h, true);
  }

  // ---------- Runs that exceed the share ----------

  /** The stretch of the runs below: a token's time, less that of the overlap or the lag. */
  function Short(t: Times, less: real): Stretch {
    Stretch(0.0, t.token - less)
  }

  /** One token more than the burst, in less than a token's time. */
  lemma TooMuch(terms: Terms, lane: Lane, t: Times, h: History, less: real)
    requires terms.Valid() && Supports(terms, lane) && Suit(terms, lane, t) && 0.0 < less <= t.token
    requires h.s == Short(t, less) && PaidOn(terms, h, lane) == Burst(terms, lane) + 1
    ensures !WithinShare(terms, h, lane)
  {
    var rate := Rate(terms, lane);
    WorthGrows(rate, t.token, t.token - less);
  }

  /** A possible run of a caller's steps that costs the lane one token more than its burst in `h.s`, which is shorter
      than a token's time by `less`. */
  ghost predicate Overspends(terms: Terms, lane: Lane, h: History, less: real)
    requires terms.Valid() && Burst(terms, lane) > 0
  {
    && Possible(terms, h, true) && Possible(terms, h, false) && !WithinShare(terms, h, lane)
    && h.s == Short(TimesOf(terms, lane), less) && PaidOn(terms, h, lane) == Burst(terms, lane) + 1
  }

  /** The last token of such a run. */
  lemma OneTokenMore(terms: Terms, lane: Lane, h: History, i: nat, less: real)
    requires terms.Valid() && Supports(terms, lane)
    requires var t := TimesOf(terms, lane);
      && AllFit(terms, lane, t, h) && 0.0 < less <= t.token && h.s == Short(t, less)
      && PaidOn(terms, h, lane) == Burst(terms, lane)
      && Pays(terms, Closed(terms, h), SpendAt(terms, lane, i, t.token - less), lane) == 1
    ensures var op := SpendAt(terms, lane, i, TimesOf(terms, lane).token - less);
      && Overspends(terms, lane, More(h, op), less)
      && Closed(terms, More(h, op)) == Step(terms, Closed(terms, h), op)
      && LagOn(terms, More(h, op), lane) == Max(LagOn(terms, h, lane), Lag(terms, Closed(terms, h), op, lane))
  {
    var t := TimesOf(terms, lane);
    var op := SpendAt(terms, lane, i, t.token - less);
    TimesFit(terms, lane);
    Onward(terms, lane, h, op);
    FitsIsPossible(terms, lane, t, More(h, op), true);
    FitsIsPossible(terms, lane, t, More(h, op), false);
    TooMuch(terms, lane, t, More(h, op), less);
  }

  /** The bucket configured last has a token at the end of the stretch. */
  lemma NewBucketPays(terms: Terms, lane: Lane, pod: Pod, less: real)
    requires terms.Valid() && Supports(terms, lane) && 0.0 < less <= TimesOf(terms, lane).token
    requires |pod.objects| == 2
    requires pod.objects[1] == Object(Configured(terms, TimesOf(terms, lane), -less), None)
    ensures var op := SpendAt(terms, lane, 1, TimesOf(terms, lane).token - less);
      Pays(terms, pod, op, lane) == 1 && Lag(terms, pod, op, lane) == 0.0 && Step(terms, pod, op).overlap == pod.overlap
  {
    var t := TimesOf(terms, lane);
    TimesFit(terms, lane);
    ConfiguredIsStocked(terms, lane, t, -less);
    StocksUp(terms, Configured(terms, t, -less), lane, -less, 0, t.token - less, 1);
    SpendsOne(terms, pod, 1, lane, t.token - less, 1);
  }

  /** A run that has spent the burst at 0, and holds a bucket configured `overlap` before 0 beside the old one. */
  ghost predicate SpentOnOld(terms: Terms, lane: Lane, h: History, overlap: real)
    requires terms.Valid() && Burst(terms, lane) > 0
  {
    var t := TimesOf(terms, lane);
    && AllFit(terms, lane, t, h) && h.s == Short(t, overlap)
    && PaidOn(terms, h, lane) == Burst(terms, lane) && LagOn(terms, h, lane) == 0.0
    && |Closed(terms, h).objects| == 2 && Closed(terms, h).overlap == overlap
    && Closed(terms, h).objects[1] == Object(Configured(terms, t, -overlap), None)
  }

  lemma SpendsOnNew(terms: Terms, lane: Lane, h: History, overlap: real) returns (g: History)
    requires terms.Valid() && Supports(terms, lane) && 0.0 < overlap <= TimesOf(terms, lane).token
    requires SpentOnOld(terms, lane, h, overlap)
    ensures Overspends(terms, lane, g, overlap)
    ensures Closed(terms, g).overlap == overlap && LagOn(terms, g, lane) == 0.0
  {
    NewBucketPays(terms, lane, Closed(terms, h), overlap);
    OneTokenMore(terms, lane, h, 1, overlap);
    g := More(h, SpendAt(terms, lane, 1, TimesOf(terms, lane).token - overlap));
  }

  lemma SpentThenReplaced(terms: Terms, lane: Lane, overlap: real) returns (h: History)
    requires terms.Valid() && Supports(terms, lane) && 0.0 < overlap <= TimesOf(terms, lane).token
    ensures SpentOnOld(terms, lane, h, overlap)
  {
    var t := TimesOf(terms, lane);
    TimesFit(terms, lane);
    var primed := Primes(terms, lane, t, Short(t, overlap));
    var drained := Drains(terms, lane, t, primed, 0, Burst(terms, lane), 0);
    h := Replaced(terms, lane, t, drained, -overlap);
  }

  lemma ReplacedThenSpent(terms: Terms, lane: Lane, overlap: real) returns (h: History)
    requires terms.Valid() && Supports(terms, lane) && 0.0 < overlap <= TimesOf(terms, lane).token
    ensures SpentOnOld(terms, lane, h, overlap)
  {
    var t := TimesOf(terms, lane);
    TimesFit(terms, lane);
    var primed := Primes(terms, lane, t, Short(t, overlap));
    var replaced := Replaced(terms, lane, t, primed, -overlap);
    h := Drains(terms, lane, t, replaced, 0, Burst(terms, lane), 0);
  }

  /** A caller that read its clock early starts the new bucket before its predecessor's last use. */
  lemma LateStart(terms: Terms, lane: Lane, overlap: real) returns (h: History)
    requires terms.Valid() && Supports(terms, lane) && 0.0 < overlap <= TimesOf(terms, lane).token
    ensures Overspends(terms, lane, h, overlap)
    ensures Closed(terms, h).overlap == overlap && LagOn(terms, h, lane) == 0.0
  {
    var g := SpentThenReplaced(terms, lane, overlap);
    h := SpendsOnNew(terms, lane, g, overlap);
  }

  /** A caller that still holds the dropped bucket spends from it after its replacement has started. No bucket is
      dated before its predecessor's last use. */
  lemma HeldBucket(terms: Terms, lane: Lane, overlap: real) returns (h: History)
    requires terms.Valid() && Supports(terms, lane) && 0.0 < overlap <= TimesOf(terms, lane).token
    ensures Overspends(terms, lane, h, overlap)
    ensures Closed(terms, h).overlap == overlap && LagOn(terms, h, lane) == 0.0
  {
    var g := ReplacedThenSpent(terms, lane, overlap);
    h := SpendsOnNew(terms, lane, g, overlap);
  }

  /** A spend on a bucket that has been refilled up to `date`, which is later than its reading. */
  lemma SpendsLate(terms: Terms, pod: Pod, i: nat, lane: Lane, now: real, date: real)
    requires terms.Valid() && i < |pod.objects| && Stocked(terms, pod.objects[i].l, lane, date, 1)
    requires now <= date == pod.objects[i].l.shared.last == Of(pod.objects[i].l, lane).last
    ensures Pays(terms, pod, SpendAt(terms, lane, i, now), lane) == 1
    ensures Lag(terms, pod, SpendAt(terms, lane, i, now), lane) == date - now
    ensures pod.objects[i].until.None? ==> Step(terms, pod, SpendAt(terms, lane, i, now)).overlap == pod.overlap
  {
  }

  lemma ReshapedHas(terms: Terms, b: Bucket, lane: Lane, now: real, n: int)
    requires Has(terms, b, lane, now, n) && n <= Burst(terms, lane)
    ensures var r := Applied(true, b, now, Rate(terms, lane), Burst(terms, lane), false);
      Has(terms, r, lane, now, n) && r.last == now
  {
  }

  /** A bucket under these terms, refreshed under them. */
  lemma RefreshedIsStocked(terms: Terms, lane: Lane, t: Times, l: Local, now: real)
    requires terms.Valid() && Supports(terms, lane) && t.width > 0.0 && Stocked(terms, l, lane, now, 1)
    ensures var next := Updated(l, now, terms.Config(1, -t.fill, t.width - t.fill));
      && Stocked(terms, next, lane, now, 1) && next.notAfter == t.width - t.fill
      && now == next.shared.last == Of(next, lane).last
  {
    ReshapedHas(terms, l.shared, Shared, now, 1);
    ReshapedHas(terms, Of(l, lane), lane, now, 1);
  }

  /** A refresh by another caller brings the bucket up to `now`. */
  lemma RefreshStocks(terms: Terms, lane: Lane, t: Times, pod: Pod, now: real)
    requires terms.Valid() && Supports(terms, lane) && Suit(terms, lane, t) && Alone(terms, t, pod) && now >= t.token
    requires Stocked(terms, pod.objects[0].l, lane, 0.0, 0)
    ensures var q := Step(terms, pod, RefreshAt(t, 0, now));
      && Alone(terms, t, q) && q.overlap == pod.overlap && Stocked(terms, q.objects[0].l, lane, now, 1)
      && now == q.objects[0].l.shared.last == Of(q.objects[0].l, lane).last
  {
    WorthGrows(Rate(terms, lane), t.token, now - 0.0);
    StocksUp(terms, pod.objects[0].l, lane, 0.0, 0, now, 1);
    RefreshedIsStocked(terms, lane, t, pod.objects[0].l, now);
  }

  /** A run that has spent the burst at 0, and whose only bucket has been refreshed a token's time later. */
  ghost predicate SpentAndRefreshed(terms: Terms, lane: Lane, h: History, lag: real)
    requires terms.Valid() && Burst(terms, lane) > 0
  {
    var t, pod := TimesOf(terms, lane), Closed(terms, h);
    && AllFit(terms, lane, t, h) && h.s == Short(t, lag)
    && PaidOn(terms, h, lane) == Burst(terms, lane) && LagOn(terms, h, lane) == 0.0
    && pod.overlap == 0.0 && Alone(terms, t, pod) && Stocked(terms, pod.objects[0].l, lane, t.token, 1)
    && t.token == pod.objects[0].l.shared.last == Of(pod.objects[0].l, lane).last
  }

  lemma DrainedAndRefreshed(terms: Terms, lane: Lane, lag: real) returns (h: History)
    requires terms.Valid() && Supports(terms, lane) && 0.0 < lag <= TimesOf(terms, lane).token
    ensures SpentAndRefreshed(terms, lane, h, lag)
  {
    var t := TimesOf(terms, lane);
    TimesFit(terms, lane);
    var primed := Primes(terms, lane, t, Short(t, lag));
    var drained := Drains(terms, lane, t, primed, 0, Burst(terms, lane), 0);
    h := More(drained, RefreshAt(t, 0, t.token));
    Onward(terms, lane, drained, RefreshAt(t, 0, t.token));
    RefreshStocks(terms, lane, t, Closed(terms, drained), t.token);
  }

  lemma SpendsOnRefreshed(terms: Terms, lane: Lane, h: History, lag: real)
    requires terms.Valid() && Supports(terms, lane) && 0.0 < lag <= TimesOf(terms, lane).token
    requires SpentAndRefreshed(terms, lane, h, lag)
    ensures var op := SpendAt(terms, lane, 0, TimesOf(terms, lane).token - lag);
      && Pays(terms, Closed(terms, h), op, lane) == 1 && Lag(terms, Closed(terms, h), op, lane) == lag
      && Step(terms, Closed(terms, h), op).overlap == 0.0
  {
    var t := TimesOf(terms, lane);
    SpendsLate(terms, Closed(terms, h), 0, lane, t.token - lag, t.token);
  }

  /** No bucket is replaced: the refresh of another caller, which had found the bucket unconfigured as well, is dated
      after the reading of a caller that gets the lock later, and the token it brings is spent on that reading. */
  lemma StalledSpend(terms: Terms, lane: Lane, lag: real) returns (h: History)
    requires terms.Valid() && Supports(terms, lane) && 0.0 < lag <= TimesOf(terms, lane).token
    ensures Overspends(terms, lane, h, lag)
    ensures Closed(terms, h).overlap == 0.0 && LagOn(terms, h, lane) == lag
  {
    var refreshed := DrainedAndRefreshed(terms, lane, lag);
    SpendsOnRefreshed(terms, lane, refreshed, lag);
    OneTokenMore(terms, lane, refreshed, 0, lag);
    h := More(refreshed, SpendAt(terms, lane, 0, TimesOf(terms, lane).token - lag));
  }

  // ---------- Exactly when the share is kept ----------

  /** The run is possible, its dates overlap and its readings lag by no more than the limits, and its stretch is within
      the share. */
  ghost predicate Keeps(terms: Terms, lane: Lane, h: History, overlap: real, lag: real, plausible: bool) {
    Possible(terms, h, plausible) && Closed(terms, h).overlap <= overlap && LagOn(terms, h, lane) <= lag
    ==> WithinShare(terms, h, lane)
  }

  /** A lane's share is kept by all runs exactly when neither overlap nor lag is allowed: however small a limit, some
      run within it spends more. It makes no difference whether the steps are any the program takes or those of
      callers inside their windows. */
  lemma DatesDecide(terms: Terms, lane: Lane, overlap: real, lag: real, plausible: bool)
    requires terms.Valid() && Supports(terms, lane) && overlap >= 0.0 && lag >= 0.0
    ensures overlap == 0.0 && lag == 0.0 <==>
      forall h {:trigger Keeps(terms, lane, h, overlap, lag, plausible)} ::
        Keeps(terms, lane, h, overlap, lag, plausible)
  {
    if overlap == 0.0 && lag == 0.0 {
      forall h ensures Keeps(terms, lane, h, overlap, lag, plausible) {
        if Possible(terms, h, plausible) {
          StretchBudget(terms, h, lane, plausible);
          WorthAdds(Rate(terms, lane), 0.0, 0.0);
        }
      }
    } else {
      var h := Exceeds(terms, lane, overlap, lag);
      assert !Keeps(terms, lane, h, overlap, lag, plausible);
    }
  }

  lemma Exceeds(terms: Terms, lane: Lane, overlap: real, lag: real) returns (h: History)
    requires terms.Valid() && Supports(terms, lane) && overlap >= 0.0 && lag >= 0.0 && overlap + lag > 0.0
    ensures Possible(terms, h, true) && Possible(terms, h, false) && !WithinShare(terms, h, lane)
    ensures Closed(terms, h).overlap <= overlap && LagOn(terms, h, lane) <= lag
  {
    TimesFit(terms, lane);
    if overlap > 0.0 {
      h := LateStart(terms, lane, Min(overlap, TimesOf(terms, lane).token));
    } else {
      h := StalledSpend(terms, lane, Min(lag, TimesOf(terms, lane).token));
    }
  }
}
