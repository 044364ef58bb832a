/** Which runs keep the fleet's budget: exactly those in which no dates overlap, no reading lags and all calls for the
    reserve meet at one key. Whatever else may happen, the bound holds; whichever of the three may happen, some run
    exceeds it. */
module LeaseLimits {
  import opened Options
  import opened Numbers
  import opened TokenBucket
  import opened PodBudget
  import opened PodDates
  import opened LeaseBudget
  import Central = CentralBucket
  import LeasePlan

  /** What a run may contain: overlapping dates, lagging readings, pods without a plan; and whether its steps are any
      the program takes, or only those of callers inside their windows. */
  datatype Freedom = Freedom(overlaps: bool, lags: bool, planless: bool, anyStep: bool)

  /** A run of a new fleet, the pods' windows, and a stretch of `seconds`. */
  datatype Story = Story(f: Fleet, events: seq<Event>, windows: seq<nat -> Span>, w: Window, seconds: real)

  ghost predicate IsNew(b: Budget, f: Fleet) {
    && |f.pods| == |b.holders|
    && (forall k :: 0 <= k < |f.pods| ==> f.pods[k] == NewPod(f.pods[k].seen))
    && forall lane :: b.Key(lane) !in f.store
  }

  ghost predicate EventPlausible(b: Budget, windows: seq<nat -> Span>, e: Event)
    requires |windows| == |b.holders|
  {
    e.AtPod? ==> e.rank < |windows| && Plausible(b.TermsAt(e.rank), windows[e.rank], e.op)
  }

  ghost predicate IsPlausible(b: Budget, s: Story) {
    && |s.windows| == |b.holders| && (forall k :: 0 <= k < |s.windows| ==> Epochs(s.windows[k]))
    && forall i :: 0 <= i < |s.events| ==> EventPlausible(b, s.windows, s.events[i])
  }

  ghost predicate Permitted(b: Budget, lane: Lane, s: Story, may: Freedom) {
    && IsNew(b, s.f) && Orderly(b, s.f, s.events, may.planless) && s.w.Lasts(|b.holders|, s.seconds)
    && (may.anyStep || IsPlausible(b, s))
    && (may.overlaps || Total(Overlaps(LeaseBudget.After(b, s.f, s.events).pods)) == 0.0)
    && (may.lags || Total(Lags(b, s.f, s.events, lane, s.w)) == 0.0)
  }

  /** The stretch costs the lane no more than the provider's budget. */
  ghost predicate KeepsBudget(b: Budget, lane: Lane, s: Story, may: Freedom) {
    Permitted(b, lane, s, may) ==>
      Admitted(b, s.f, s.events, lane, s.w) as real
          <= b.Spec(lane).capacity as real + Worth(b.Spec(lane).refill, s.seconds)
  }

  /** A spec that is part of another: smaller shares, a smaller rate and a smaller reserve. */
  ghost predicate Part(small: LeasePlan.Spec, large: LeasePlan.Spec) {
    && small.capacity - small.emergencyBurst <= large.capacity - large.emergencyBurst
    && small.refill - small.emergencyRate <= large.refill - large.emergencyRate
    && small.emergencyBurst <= large.emergencyBurst
  }

  /** The lane has a spec, and a standard spend finds the shared token it takes along: `LeaseManager.ProfilesNest`. */
  ghost predicate Nested(b: Budget, lane: Lane) {
    LeasePlan.Sound(b.Spec(lane)) && (lane.Standard? ==> LeasePlan.Sound(b.shared) && Part(b.standard, b.shared))
  }

  /** Some pod has a share: the reserve is not everything. */
  predicate Shares(b: Budget, lane: Lane) {
    b.Spec(lane).emergencyBurst < b.Spec(lane).capacity
  }

  // ---------- Shares of nested specs ----------

  lemma SharesGrow(x: nat, y: nat, n: nat, k: nat)
    requires x <= y && n > 0
    ensures x / n + (if k < x % n then 1 else 0) <= y / n + (if k < y % n then 1 else 0)
  {
    assert x == n * (x / n) + x % n && y == n * (y / n) + y % n;
    QuotientGrows(x / n, x % n, y / n, y % n, n);
  }

  lemma QuotientGrows(q: int, r: int, p: int, t: int, n: int)
    requires n > 0 && 0 <= r < n && 0 <= t < n && n * q + r <= n * p + t
    ensures q < p || (q == p && r <= t)
  {
    if q > p {
      assert n * (q - p) == n * q - n * p;
      AtLeast(n, q - p);
    }
  }

  lemma AtLeast(n: int, d: int)
    requires n > 0 && d >= 1
    ensures n * d >= n
  {
  }

  lemma RateGrows(x: real, y: real, n: real)
    requires x <= y && n > 0.0
    ensures x / n <= y / n
  {
    LeasePlan.Cancel(x, n);
    LeasePlan.Cancel(y, n);
  }

  /** The lane's burst of every pod can be spent. */
  lemma TermsSupport(b: Budget, lane: Lane, k: nat)
    requires b.Valid() && Nested(b, lane) && k < |b.holders|
    ensures Burst(b.TermsAt(k), lane) >= 0
    ensures Burst(b.TermsAt(k), lane) > 0 ==> b.TermsAt(k).Valid() && Supports(b.TermsAt(k), lane)
  {
    var n := |b.holders|;
    LaneRefills(b, k, lane);
    if lane.Standard? {
      SpecFacts(b.standard, n, k);
      SpecFacts(b.shared, n, k);
      SharesGrow(b.standard.capacity - b.standard.emergencyBurst, b.shared.capacity - b.shared.emergencyBurst, n, k);
      RateGrows(b.standard.refill - b.standard.emergencyRate, b.shared.refill - b.shared.emergencyRate, n as real);
    }
    if Burst(b.TermsAt(k), lane) > 0 {
      TermsValid(b, k);
    }
  }

  /** The first pod has a share if any has. */
  lemma FirstHasShare(b: Budget, lane: Lane)
    requires b.Valid() && Nested(b, lane) && Shares(b, lane)
    ensures Burst(b.TermsAt(0), lane) > 0
  {
    var leased, n := b.Spec(lane).capacity - b.Spec(lane).emergencyBurst, |b.holders|;
    ShareOfLane(b, 0, lane);
    if leased % n == 0 {
      assert leased == n * (leased / n);
    }
  }

  // ---------- Runs put together from the pods' ----------

  function Lift(rank: nat, ops: seq<Op>): seq<Event> {
    seq(|ops|, i requires 0 <= i < |ops| => AtPod(rank, ops[i], true))
  }

  function LiftAll(hs: seq<History>): seq<Event> {
    if hs == [] then [] else LiftAll(hs[..|hs| - 1]) + Lift(|hs| - 1, hs[|hs| - 1].ops)
  }

  lemma {:induction false} OpsOfLift(rank: nat, ops: seq<Op>, k: nat)
    ensures OpsOf(Lift(rank, ops), k) == if rank == k then ops else []
  {
    if ops != [] {
      var rest := ops[..|ops| - 1];
      OpsOfLift(rank, rest, k);
      assert Lift(rank, ops) == Lift(rank, rest) + [AtPod(rank, ops[|ops| - 1], true)];
      OpsGrow(Lift(rank, rest), AtPod(rank, ops[|ops| - 1], true), k);
      assert rest + [ops[|ops| - 1]] == ops;
    }
  }

  lemma {:induction false} OpsOfBoth(x: seq<Event>, y: seq<Event>, k: nat)
    ensures OpsOf(x + y, k) == OpsOf(x, k) + OpsOf(y, k)
  {
    if y == [] {
      assert x + y == x;
    } else {
      var rest := y[..|y| - 1];
      OpsOfBoth(x, rest, k);
      assert x + y == (x + rest) + [y[|y| - 1]] && y == rest + [y[|y| - 1]];
      OpsGrow(x + rest, y[|y| - 1], k);
      OpsGrow(rest, y[|y| - 1], k);
    }
  }

  lemma {:induction false} OpsOfAll(hs: seq<History>, k: nat)
    ensures OpsOf(LiftAll(hs), k) == if k < |hs| then hs[k].ops else []
  {
    if hs != [] {
      var rest, last := hs[..|hs| - 1], hs[|hs| - 1];
      OpsOfAll(rest, k);
      OpsOfBoth(LiftAll(rest), Lift(|hs| - 1, last.ops), k);
      OpsOfLift(|hs| - 1, last.ops, k);
    }
  }

  /** The first pods each have a run, at most those with a share a non-empty one. */
  ghost predicate Cast(b: Budget, hs: seq<History>) {
    && |hs| <= |b.holders|
    && forall k :: 0 <= k < |hs| ==>
         Possible(b.TermsAt(k), hs[k], true) && (b.TermsAt(k).sharedBurst <= 0 ==> hs[k].ops == [])
  }

  /** Events of pods only, each a step of its pod's run. */
  ghost predicate Staged(b: Budget, hs: seq<History>, events: seq<Event>) {
    forall i :: 0 <= i < |events| ==>
      && events[i].AtPod? && events[i].delivered && events[i].rank < |hs| <= |b.holders|
      && Plausible(b.TermsAt(events[i].rank), hs[events[i].rank].windows, events[i].op)
      && Proper(b.TermsAt(events[i].rank), events[i].op) && b.TermsAt(events[i].rank).sharedBurst > 0
  }

  lemma {:induction false} AllStaged(b: Budget, hs: seq<History>)
    requires Cast(b, hs)
    ensures Staged(b, hs, LiftAll(hs))
  {
    if hs != [] {
      var n := |hs| - 1;
      var rest, last := hs[..n], hs[n];
      assert Cast(b, rest);
      AllStaged(b, rest);
      PossibleIsProper(b.TermsAt(n), last, true);
      forall i | 0 <= i < |last.ops|
        ensures Plausible(b.TermsAt(n), last.windows, last.ops[i]) && b.TermsAt(n).sharedBurst > 0 {
        assert Possible(b.TermsAt(n), last, true);
      }
      StagedLonger(b, hs, LiftAll(rest), Lift(n, last.ops));
    }
  }

  lemma StagedLonger(b: Budget, hs: seq<History>, x: seq<Event>, y: seq<Event>)
    requires hs != [] && Staged(b, hs[..|hs| - 1], x) && Staged(b, hs, y) && |hs| <= |b.holders|
    ensures Staged(b, hs, x + y)
  {
    var rest := hs[..|hs| - 1];
    forall i | 0 <= i < |x + y|
      ensures (x + y)[i].AtPod? && (x + y)[i].delivered && (x + y)[i].rank < |hs|
      ensures Plausible(b.TermsAt((x + y)[i].rank), hs[(x + y)[i].rank].windows, (x + y)[i].op)
      ensures Proper(b.TermsAt((x + y)[i].rank), (x + y)[i].op) && b.TermsAt((x + y)[i].rank).sharedBurst > 0 {
      if i < |x| {
        assert (x + y)[i] == x[i] && hs[x[i].rank] == rest[x[i].rank];
      } else {
        assert (x + y)[i] == y[i - |x|];
      }
    }
  }

  /** A fleet about to play these runs, on an empty store. */
  function Stage(hs: seq<History>): Fleet {
    Fleet(seq(|hs|, k requires 0 <= k < |hs| => NewPod(hs[k].seen)), map[], 0)
  }

  lemma {:induction false} StagedIsOrderly(b: Budget, hs: seq<History>, f: Fleet, events: seq<Event>, planless: bool)
    requires |hs| == |b.holders| == |f.pods| && Staged(b, hs, events)
    ensures Orderly(b, f, events, planless)
    ensures LeaseBudget.After(b, f, events).store == f.store && LeaseBudget.After(b, f, events).now == f.now
  {
    if events != [] {
      StagedIsOrderly(b, hs, f, events[..|events| - 1], planless);
    }
  }

  // ---------- All pods spend their burst in one moment ----------

  const INSTANT := Stretch(0.0, 0.0)

  function Moment(n: nat): Window {
    Window(seq(n, k => INSTANT), 0, 0)
  }

  /** The run of the pod of rank `k`: `extra` tokens more than its burst at 0, with such an overlap and such a lag. */
  ghost predicate Plays(b: Budget, lane: Lane, k: nat, h: History, extra: nat, overlap: real, lag: real)
    requires k < |b.holders|
  {
    var terms := b.TermsAt(k);
    && h.s == INSTANT && Possible(terms, h, true) && (terms.sharedBurst <= 0 ==> h.ops == [])
    && PaidOn(terms, h, lane) == Burst(terms, lane) + extra
    && Closed(terms, h).overlap == overlap && LagOn(terms, h, lane) == lag
  }

  lemma PlaysBurst(b: Budget, lane: Lane, k: nat) returns (h: History)
    requires b.Valid() && Nested(b, lane) && k < |b.holders|
    ensures Plays(b, lane, k, h, 0, 0.0, 0.0)
  {
    var terms := b.TermsAt(k);
    TermsSupport(b, lane, k);
    if Burst(terms, lane) > 0 {
      h := SpendsBurst(terms, lane);
    } else {
      h := History(Windows(Times(1.0, 1.0, 1.0)), 0.0, [], INSTANT);
      WindowsAreEpochs(Times(1.0, 1.0, 1.0));
    }
  }

  /** With a token's time of overlap, or of lag, a pod spends one more. */
  lemma PlaysMore(b: Budget, lane: Lane, lagging: bool) returns (h: History, amount: real)
    requires b.Valid() && Nested(b, lane) && Burst(b.TermsAt(0), lane) > 0
    ensures Plays(b, lane, 0, h, 1, if lagging then 0.0 else amount, if lagging then amount else 0.0)
    ensures Worth(PodRate(b, lane), amount) == 1.0
  {
    var terms := b.TermsAt(0);
    ShareOfLane(b, 0, lane);
    TermsSupport(b, lane, 0);
    TimesFit(terms, lane);
    amount := TimesOf(terms, lane).token;
    if lagging {
      h := StalledSpend(terms, lane, amount);
    } else {
      h := HeldBucket(terms, lane, amount);
    }
  }

  /** Every pod's run; only the first may be of the second kind. */
  ghost predicate AllPlay(b: Budget, lane: Lane, hs: seq<History>, extra: nat, overlap: real, lag: real) {
    && |hs| == |b.holders| > 0 && Plays(b, lane, 0, hs[0], extra, overlap, lag)
    && forall k :: 0 < k < |hs| ==> Plays(b, lane, k, hs[k], 0, 0.0, 0.0)
  }

  lemma {:induction false} Others(b: Budget, lane: Lane, first: History, n: nat) returns (hs: seq<History>)
    requires b.Valid() && Nested(b, lane) && 0 < n <= |b.holders|
    ensures |hs| == n && hs[0] == first && forall k :: 0 < k < n ==> Plays(b, lane, k, hs[k], 0, 0.0, 0.0)
  {
    if n == 1 {
      hs := [first];
    } else {
      var rest := Others(b, lane, first, n - 1);
      var last := PlaysBurst(b, lane, n - 1);
      hs := rest + [last];
    }
  }

  lemma AllCast(b: Budget, lane: Lane, hs: seq<History>, extra: nat, overlap: real, lag: real)
    requires AllPlay(b, lane, hs, extra, overlap, lag)
    ensures Cast(b, hs)
  {
    forall k | 0 <= k < |hs|
      ensures Possible(b.TermsAt(k), hs[k], true) && (b.TermsAt(k).sharedBurst <= 0 ==> hs[k].ops == []) {
      assert k == 0 || Plays(b, lane, k, hs[k], 0, 0.0, 0.0);
    }
  }

  /** The events are the pods' runs, and calls of the reserve. */
  ghost predicate Consists(hs: seq<History>, events: seq<Event>) {
    forall k: nat {:trigger OpsOf(events, k)} :: k < |hs| ==> OpsOf(events, k) == hs[k].ops
  }

  /** What each pod does in such a run is what it does in its own. */
  lemma PodPlays(b: Budget, lane: Lane, hs: seq<History>, f: Fleet, events: seq<Event>, k: nat)
    requires |hs| == |b.holders| && f.pods == Stage(hs).pods && Consists(hs, events) && k < |hs|
    requires hs[k].s == INSTANT
    ensures |f.pods| == |b.holders| == |Moment(|hs|).pods|
    ensures PodPaid(b, f, events, lane, Moment(|hs|), k) == PaidOn(b.TermsAt(k), hs[k], lane)
    ensures Lags(b, f, events, lane, Moment(|hs|))[k] == LagOn(b.TermsAt(k), hs[k], lane)
    ensures LeaseBudget.After(b, f, events).pods[k] == Closed(b.TermsAt(k), hs[k])
  {
    PodsAreApart(b, f, events, k);
    assert OpsOf(events, k) == hs[k].ops && f.pods[k] == NewPod(hs[k].seen);
  }

  lemma {:induction false} SumOfBursts(b: Budget, lane: Lane, paid: seq<nat>, extra: nat, n: nat)
    requires b.Valid() && n <= |paid| == |b.holders|
    requires forall k :: 0 <= k < |paid| ==> paid[k] == Burst(b.TermsAt(k), lane) + if k == 0 then extra else 0
    ensures Sum(paid[..n]) == LeasePlan.Bursts(b.Spec(lane), |b.holders|, n) + if n == 0 then 0 else extra
  {
    if n > 0 {
      SumOfBursts(b, lane, paid, extra, n - 1);
      ShareOfLane(b, n - 1, lane);
      assert paid[..n][..n - 1] == paid[..n - 1];
    }
  }

  lemma {:induction false} TotalOfOne(xs: seq<real>, x: real)
    requires xs != [] && xs[0] == x && forall k :: 0 < k < |xs| ==> xs[k] == 0.0
    ensures Total(xs) == x
  {
    if |xs| == 1 {
      assert xs[..0] == [];
    } else {
      TotalOfOne(xs[..|xs| - 1], x);
    }
  }

  /** What every pod pays, and the lags and overlaps; only the first has any. */
  ghost predicate Each(b: Budget, lane: Lane, extra: nat, overlap: real, lag: real, paid: seq<nat>, lags: seq<real>,
                       overlaps: seq<real>)
  {
    && |paid| == |lags| == |overlaps| == |b.holders|
    && forall k :: 0 <= k < |b.holders| ==>
         && paid[k] == Burst(b.TermsAt(k), lane) + (if k == 0 then extra else 0)
         && lags[k] == (if k == 0 then lag else 0.0) && overlaps[k] == if k == 0 then overlap else 0.0
  }

  lemma EachPays(b: Budget, lane: Lane, hs: seq<History>, extra: nat, overlap: real, lag: real, f: Fleet,
                 events: seq<Event>)
    requires b.Valid() && AllPlay(b, lane, hs, extra, overlap, lag) && Consists(hs, events)
    requires f.pods == Stage(hs).pods
    ensures |f.pods| == |b.holders| == |Moment(|hs|).pods|
    ensures Each(b, lane, extra, overlap, lag, Payments(b, f, events, lane, Moment(|hs|)),
                 Lags(b, f, events, lane, Moment(|hs|)), Overlaps(LeaseBudget.After(b, f, events).pods))
  {
    var w := Moment(|hs|);
    var paid, lags := Payments(b, f, events, lane, w), Lags(b, f, events, lane, w);
    var overlaps := Overlaps(LeaseBudget.After(b, f, events).pods);
    forall k | 0 <= k < |hs|
      ensures paid[k] == Burst(b.TermsAt(k), lane) + if k == 0 then extra else 0
      ensures lags[k] == (if k == 0 then lag else 0.0) && overlaps[k] == if k == 0 then overlap else 0.0 {
      assert k == 0 || Plays(b, lane, k, hs[k], 0, 0.0, 0.0);
      PodPlays(b, lane, hs, f, events, k);
    }
  }

  lemma EachAddsUp(b: Budget, lane: Lane, extra: nat, overlap: real, lag: real, paid: seq<nat>, lags: seq<real>,
                   overlaps: seq<real>)
    requires b.Valid() && Each(b, lane, extra, overlap, lag, paid, lags, overlaps)
    ensures Sum(paid) == LeasePlan.Bursts(b.Spec(lane), |b.holders|, |b.holders|) + extra
    ensures Total(lags) == lag && Total(overlaps) == overlap
  {
    SumOfBursts(b, lane, paid, extra, |paid|);
    assert paid[..|paid|] == paid;
    TotalOfOne(lags, lag);
    TotalOfOne(overlaps, overlap);
  }

  /** Together they pay all bursts and the extra tokens; only the first overlaps and lags. */
  lemma AllPay(b: Budget, lane: Lane, hs: seq<History>, extra: nat, overlap: real, lag: real, f: Fleet,
               events: seq<Event>)
    requires b.Valid() && AllPlay(b, lane, hs, extra, overlap, lag) && Consists(hs, events)
    requires f.pods == Stage(hs).pods
    ensures |f.pods| == |b.holders| == |Moment(|hs|).pods|
    ensures Sum(Payments(b, f, events, lane, Moment(|hs|)))
         == LeasePlan.Bursts(b.Spec(lane), |b.holders|, |b.holders|) + extra
    ensures Total(Lags(b, f, events, lane, Moment(|hs|))) == lag
    ensures Total(Overlaps(LeaseBudget.After(b, f, events).pods)) == overlap
  {
    EachPays(b, lane, hs, extra, overlap, lag, f, events);
    EachAddsUp(b, lane, extra, overlap, lag, Payments(b, f, events, lane, Moment(|hs|)),
               Lags(b, f, events, lane, Moment(|hs|)), Overlaps(LeaseBudget.After(b, f, events).pods));
  }

  // ---------- The reserves, in the same moment ----------

  function KeyOf(b: Budget, lane: Lane, generation: nat): string {
    EmergencyKey(if lane.Shared? then b.sharedKey else b.standardKey, generation)
  }

  /** A request for the lane's reserve of a generation. A standard one takes a shared token along. */
  function CallFor(b: Budget, lane: Lane, generation: nat): Central.Call {
    if lane.Shared? then Central.Call([KeyOf(b, Shared, generation)], [b.Emergency(Shared)], 0)
    else
      Central.Call([KeyOf(b, Standard, generation), KeyOf(b, Shared, generation)],
                   [b.Emergency(Standard), b.Emergency(Shared)], 0)
  }

  lemma KeysTellLanes(b: Budget, x: Lane, g: nat, y: Lane, h: nat)
    requires b.Valid() && KeyOf(b, x, g) == KeyOf(b, y, h)
    ensures x == y && g == h
  {
    KeysAreApart(if x.Shared? then b.sharedKey else b.standardKey, g,
                 if y.Shared? then b.sharedKey else b.standardKey, h);
  }

  lemma CallIsConsistent(b: Budget, lane: Lane, generation: nat, other: Lane, g: nat)
    requires b.Valid()
    ensures Central.Consistent(CallFor(b, lane, generation), KeyOf(b, other, g), b.Emergency(other))
    ensures KeyOf(b, other, g) in CallFor(b, lane, generation).keys ==> g == generation
  {
    var call := CallFor(b, lane, generation);
    if lane.Standard? && call.keys[0] == call.keys[1] {
      KeysTellLanes(b, Standard, generation, Shared, generation);
    }
    forall i | 0 <= i < |call.keys| && call.keys[i] == KeyOf(b, other, g)
      ensures call.args[i] == b.Emergency(other) && g == generation {
      KeysTellLanes(b, if lane.Standard? && i == 0 then Standard else Shared, generation, other, g);
    }
  }

  lemma CallIsProper(b: Budget, f: Fleet, lane: Lane, generation: nat, planless: bool)
    requires b.Valid() && |f.pods| == |b.holders| && f.now <= 0
    requires generation == b.generation || (planless && generation == 1)
    ensures EventProper(b, f, AtStore(CallFor(b, lane, generation), true), planless)
  {
    var call := CallFor(b, lane, generation);
    forall other: Lane
      ensures Central.Consistent(call, b.Key(other), b.Emergency(other))
      ensures Central.Consistent(call, b.PlanlessKey(other), b.Emergency(other))
      ensures planless || b.PlanlessKey(other) == b.Key(other) || b.PlanlessKey(other) !in call.keys {
      CallIsConsistent(b, lane, generation, other, b.generation);
      CallIsConsistent(b, lane, generation, other, 1);
    }
  }

  /** At time 0 the key can pay `n` more. */
  ghost predicate KeyPays(b: Budget, store: Central.Store, lane: Lane, generation: nat, n: int) {
    var key := KeyOf(b, lane, generation);
    Central.Readable(store, key, 0) && Central.Level(store, key, b.Emergency(lane), 0) >= n as real
  }

  ghost predicate ReservePays(b: Budget, store: Central.Store, lane: Lane, generation: nat, n: int) {
    KeyPays(b, store, Shared, generation, n) && KeyPays(b, store, lane, generation, n)
  }

  lemma CallIsAllowed(b: Budget, store: Central.Store, lane: Lane, generation: nat)
    requires b.Valid() && Nested(b, lane) && ReservePays(b, store, lane, generation, 1)
    ensures var call := CallFor(b, lane, generation);
      Central.Script(store, call.keys, call.args, call.now).1.Allowed?
  {
    SpecFacts(b.Spec(lane), |b.holders|, 0);
    SpecFacts(b.shared, |b.holders|, 0);
    var call := CallFor(b, lane, generation);
    var levels := Central.Levels(store, call.keys, call.args, 0);
    assert forall i :: 0 <= i < |levels| ==> levels[i] >= 1.0;
  }

  /** A spend leaves its own keys with one token less, and those of another generation as they were. */
  lemma KeyPaysOne(b: Budget, store: Central.Store, lane: Lane, generation: nat, other: Lane, g: nat, n: int)
    requires b.Valid() && Nested(b, lane) && LeasePlan.Sound(b.Spec(other))
    requires ReservePays(b, store, lane, generation, 1) && KeyPays(b, store, other, g, n)
    ensures var call := CallFor(b, lane, generation);
      KeyPays(b, Central.Script(store, call.keys, call.args, call.now).0, other, g,
              if g == generation then n - 1 else n)
  {
    var call, key, args := CallFor(b, lane, generation), KeyOf(b, other, g), b.Emergency(other);
    var after := Central.Script(store, call.keys, call.args, call.now).0;
    CallIsAllowed(b, store, lane, generation);
    CallIsConsistent(b, lane, generation, other, g);
    SpecFacts(b.Spec(other), |b.holders|, 0);
    Central.AllowedWrites(store, call, key, args);
    if key in call.keys {
      assert Central.Refill(args.refillPerMs, 0, 0) == 0.0;
      assert Central.Level(after, key, args, 0) == Central.Level(store, key, args, 0) - 1.0;
    } else {
      assert Central.Level(after, key, args, 0) == Central.Level(store, key, args, 0);
    }
  }

  // ---------- Whole runs ----------

  function WindowsOf(hs: seq<History>): seq<nat -> Span> {
    seq(|hs|, k requires 0 <= k < |hs| => hs[k].windows)
  }

  function StoryOf(hs: seq<History>, events: seq<Event>): Story {
    Story(Stage(hs), events, WindowsOf(hs), Moment(|hs|), 0.0)
  }

  /** The pods have played their runs, and the reserves have given `n` tokens at 0. */
  ghost predicate Played(b: Budget, lane: Lane, hs: seq<History>, events: seq<Event>, n: nat, planless: bool) {
    && |hs| == |b.holders| && Orderly(b, Stage(hs), events, planless) && Consists(hs, events)
    && (forall e :: e in events ==> e.delivered) && LeaseBudget.After(b, Stage(hs), events).now == 0
    && ReservePaid(b, Stage(hs), events, lane, Moment(|hs|)) == n
    && IsPlausible(b, StoryOf(hs, events))
  }

  lemma PodsHavePlayed(b: Budget, lane: Lane, hs: seq<History>, planless: bool)
    requires |hs| == |b.holders| && Cast(b, hs)
    ensures Played(b, lane, hs, LiftAll(hs), 0, planless)
    ensures LeaseBudget.After(b, Stage(hs), LiftAll(hs)).store == map[]
  {
    var events := LiftAll(hs);
    AllStaged(b, hs);
    StagedIsOrderly(b, hs, Stage(hs), events, planless);
    StagedIsFree(b, lane, hs, Stage(hs), events);
    StagedIsPlausible(b, hs, events);
    forall k: nat | k < |hs| ensures OpsOf(events, k) == hs[k].ops {
      OpsOfAll(hs, k);
    }
  }

  lemma StagedIsPlausible(b: Budget, hs: seq<History>, events: seq<Event>)
    requires |hs| == |b.holders| && Cast(b, hs) && Staged(b, hs, events)
    ensures IsPlausible(b, StoryOf(hs, events)) && forall e :: e in events ==> e.delivered
  {
    forall k | 0 <= k < |hs| ensures Epochs(hs[k].windows) {
      assert Possible(b.TermsAt(k), hs[k], true);
    }
  }

  lemma {:induction false} StagedIsFree(b: Budget, lane: Lane, hs: seq<History>, f: Fleet, events: seq<Event>)
    requires |hs| == |b.holders| == |f.pods| && Staged(b, hs, events)
    ensures ReservePaid(b, f, events, lane, Moment(|hs|)) == 0
  {
    if events != [] {
      StagedIsFree(b, lane, hs, f, events[..|events| - 1]);
    }
  }

  lemma CallTakes(b: Budget, f: Fleet, lane: Lane, generation: nat)
    requires b.Valid() && Nested(b, lane) && ReservePays(b, f.store, lane, generation, 1)
    requires generation == b.generation || generation == 1
    ensures StoreTakes(b, f, CallFor(b, lane, generation), lane) == 1
  {
    var call := CallFor(b, lane, generation);
    CallIsAllowed(b, f.store, lane, generation);
    assert call.keys[0] == KeyOf(b, lane, generation);
  }

  /** A call is no pod's step. */
  lemma StillConsists(b: Budget, hs: seq<History>, events: seq<Event>, call: Central.Call)
    requires |hs| == |b.holders| && Consists(hs, events) && IsPlausible(b, StoryOf(hs, events))
    ensures Consists(hs, events + [AtStore(call, true)])
    ensures IsPlausible(b, StoryOf(hs, events + [AtStore(call, true)]))
  {
    var more := events + [AtStore(call, true)];
    forall k: nat | k < |hs| ensures OpsOf(more, k) == hs[k].ops {
      OpsGrow(events, AtStore(call, true), k);
    }
    forall i | 0 <= i < |more| ensures EventPlausible(b, WindowsOf(hs), more[i]) {
      assert i < |events| ==> more[i] == events[i] && EventPlausible(b, WindowsOf(hs), events[i]);
    }
  }

  /** One more request for a reserve that can pay. */
  lemma OneCall(b: Budget, lane: Lane, hs: seq<History>, events: seq<Event>, n: nat, generation: nat, planless: bool)
    requires b.Valid() && Nested(b, lane) && Played(b, lane, hs, events, n, planless)
    requires generation == b.generation || (planless && generation == 1)
    requires ReservePays(b, LeaseBudget.After(b, Stage(hs), events).store, lane, generation, 1)
    ensures var call := CallFor(b, lane, generation);
      && Played(b, lane, hs, events + [AtStore(call, true)], n + 1, planless)
      && LeaseBudget.After(b, Stage(hs), events + [AtStore(call, true)]).store
         == Central.Script(LeaseBudget.After(b, Stage(hs), events).store, call.keys, call.args, call.now).0
  {
    var call, g := CallFor(b, lane, generation), LeaseBudget.After(b, Stage(hs), events);
    assert (events + [AtStore(call, true)])[..|events|] == events;
    CallIsProper(b, g, lane, generation, planless);
    CallTakes(b, g, lane, generation);
    StillConsists(b, hs, events, call);
  }

  /** What the stores can pay after the plan's reserve has given `j` tokens. */
  ghost predicate Remains(b: Budget, lane: Lane, store: Central.Store, j: nat) {
    && ReservePays(b, store, lane, b.generation, b.Spec(lane).emergencyBurst - j)
    && (b.generation != 1 ==> ReservePays(b, store, lane, 1, 1))
  }

  lemma EmptyStorePays(b: Budget, lane: Lane)
    requires b.Valid() && Nested(b, lane)
    ensures Remains(b, lane, map[], 0)
  {
    SpecFacts(b.Spec(lane), |b.holders|, 0);
    SpecFacts(b.shared, |b.holders|, 0);
  }

  /** The plan's reserve gives all it has. */
  lemma {:induction false} ReserveDrains(b: Budget, lane: Lane, hs: seq<History>, j: nat, planless: bool)
    returns (events: seq<Event>)
    requires b.Valid() && Nested(b, lane) && |hs| == |b.holders| && Cast(b, hs) && j <= b.Spec(lane).emergencyBurst
    ensures Played(b, lane, hs, events, j, planless)
    ensures Remains(b, lane, LeaseBudget.After(b, Stage(hs), events).store, j)
  {
    if j == 0 {
      events := LiftAll(hs);
      PodsHavePlayed(b, lane, hs, planless);
      EmptyStorePays(b, lane);
    } else {
      var rest := ReserveDrains(b, lane, hs, j - 1, planless);
      var store := LeaseBudget.After(b, Stage(hs), rest).store;
      OneCall(b, lane, hs, rest, j - 1, b.generation, planless);
      events := rest + [AtStore(CallFor(b, lane, b.generation), true)];
      CallLeaves(b, lane, store, j - 1);
    }
  }

  lemma CallLeaves(b: Budget, lane: Lane, store: Central.Store, j: nat)
    requires b.Valid() && Nested(b, lane) && Remains(b, lane, store, j) && j < b.Spec(lane).emergencyBurst
    ensures var call := CallFor(b, lane, b.generation);
      Remains(b, lane, Central.Script(store, call.keys, call.args, call.now).0, j + 1)
  {
    var left, g := b.Spec(lane).emergencyBurst - j, b.generation;
    KeyPaysOne(b, store, lane, g, Shared, g, left);
    KeyPaysOne(b, store, lane, g, lane, g, left);
    if g != 1 {
      KeyPaysOne(b, store, lane, g, Shared, 1, 1);
      KeyPaysOne(b, store, lane, g, lane, 1, 1);
    }
  }

  /** The reserve of generation 1, when it is another, gives a token on top. */
  lemma PlanlessPays(b: Budget, lane: Lane, hs: seq<History>) returns (events: seq<Event>)
    requires b.Valid() && Nested(b, lane) && |hs| == |b.holders| && Cast(b, hs) && b.generation != 1
    ensures Played(b, lane, hs, events, b.Spec(lane).emergencyBurst + 1, true)
  {
    var rest := ReserveDrains(b, lane, hs, b.Spec(lane).emergencyBurst, true);
    OneCall(b, lane, hs, rest, b.Spec(lane).emergencyBurst, 1, true);
    events := rest + [AtStore(CallFor(b, lane, 1), true)];
  }

  // ---------- Runs that exceed the budget ----------

  /** A run of a new fleet, possible for callers inside their windows, that admits `more` requests than the whole
      capacity in a single moment. */
  ghost predicate Overruns(b: Budget, lane: Lane, s: Story, more: nat, overlap: real, lag: real, planless: bool) {
    && IsNew(b, s.f) && Orderly(b, s.f, s.events, planless) && IsPlausible(b, s)
    && s.w.Lasts(|b.holders|, s.seconds) && s.seconds == 0.0
    && Admitted(b, s.f, s.events, lane, s.w) == b.Spec(lane).capacity + more
    && Total(Overlaps(LeaseBudget.After(b, s.f, s.events).pods)) == overlap
    && Total(Lags(b, s.f, s.events, lane, s.w)) == lag
  }

  lemma AllSpend(b: Budget, lane: Lane, hs: seq<History>, events: seq<Event>, extra: nat, overlap: real, lag: real,
                 more: nat, planless: bool)
    requires b.Valid() && Nested(b, lane) && AllPlay(b, lane, hs, extra, overlap, lag)
    requires Played(b, lane, hs, events, b.Spec(lane).emergencyBurst + more, planless)
    ensures Overruns(b, lane, StoryOf(hs, events), extra + more, overlap, lag, planless)
  {
    AllPay(b, lane, hs, extra, overlap, lag, Stage(hs), events);
    AdmittedWasPaid(b, Stage(hs), events, lane, Moment(|hs|));
    SpecFacts(b.Spec(lane), |b.holders|, 0);
    LeasePlan.SharesAddUp(b.Spec(lane), |b.holders|, 0, 0);
  }

  /** Every pod's burst, the plan's reserve and one token of the other: more than the capacity, in no time. */
  lemma PlanlessOverspends(b: Budget, lane: Lane) returns (s: Story)
    requires b.Valid() && Nested(b, lane) && b.generation != 1
    ensures Overruns(b, lane, s, 1, 0.0, 0.0, true)
  {
    var first := PlaysBurst(b, lane, 0);
    var hs := Others(b, lane, first, |b.holders|);
    AllCast(b, lane, hs, 0, 0.0, 0.0);
    var events := PlanlessPays(b, lane, hs);
    s := StoryOf(hs, events);
    AllSpend(b, lane, hs, events, 0, 0.0, 0.0, 1, true);
  }

  /** Every pod's burst and the plan's reserve, and one token more at a pod two of whose buckets overlap by a token's
      time, or whose bucket another caller has refilled a token's time beyond a stalled caller's reading. */
  lemma DatesOverspend(b: Budget, lane: Lane, lagging: bool) returns (s: Story, amount: real)
    requires b.Valid() && Nested(b, lane) && Shares(b, lane)
    ensures Overruns(b, lane, s, 1, if lagging then 0.0 else amount, if lagging then amount else 0.0, false)
    ensures Worth(PodRate(b, lane), amount) == 1.0
  {
    FirstHasShare(b, lane);
    var first;
    first, amount := PlaysMore(b, lane, lagging);
    var overlap, lag := if lagging then 0.0 else amount, if lagging then amount else 0.0;
    var hs := Others(b, lane, first, |b.holders|);
    AllCast(b, lane, hs, 1, overlap, lag);
    var events := ReserveDrains(b, lane, hs, b.Spec(lane).emergencyBurst, false);
    s := StoryOf(hs, events);
    AllSpend(b, lane, hs, events, 1, overlap, lag, 0, false);
  }

  lemma OverrunsBreak(b: Budget, lane: Lane, s: Story, more: nat, overlap: real, lag: real, planless: bool,
                      may: Freedom)
    requires more > 0 && Overruns(b, lane, s, more, overlap, lag, planless) && (planless ==> may.planless)
    requires (overlap == 0.0 || may.overlaps) && (lag == 0.0 || may.lags)
    ensures !KeepsBudget(b, lane, s, may)
  {
    OrderlyAnyway(b, s.f, s.events, planless, may.planless);
    assert Worth(b.Spec(lane).refill, 0.0) == 0.0;
  }

  lemma {:induction false} OrderlyAnyway(b: Budget, f: Fleet, events: seq<Event>, planless: bool, may: bool)
    requires |f.pods| == |b.holders| && Orderly(b, f, events, planless) && (planless ==> may)
    ensures Orderly(b, f, events, may)
  {
    if events != [] {
      OrderlyAnyway(b, f, events[..|events| - 1], planless, may);
    }
  }

  // ---------- Exactly when the budget is kept ----------

  /** The runs that `may` leaves open cannot exceed the budget. */
  ghost predicate Safe(b: Budget, lane: Lane, may: Freedom) {
    OneReserve(b, may.planless) && (Shares(b, lane) ==> !may.overlaps && !may.lags)
  }

  /** A lane of which no pod has a share is paid by the reserve alone. */
  lemma NoShareNoPay(b: Budget, f: Fleet, events: seq<Event>, lane: Lane, w: Window, k: nat, planless: bool)
    requires b.Valid() && Nested(b, lane) && !Shares(b, lane) && |f.pods| == |b.holders| == |w.pods| && k < |f.pods|
    requires Opens(b, f) && Orderly(b, f, events, planless) && w.pods[k].start <= w.pods[k].end
    ensures PodPaid(b, f, events, lane, w, k) == 0
  {
    var terms, pod, ops, s := b.TermsAt(k), f.pods[k], OpsOf(events, k), w.pods[k];
    assert PodSettled(b, f, k);
    ShareOfLane(b, k, lane);
    LeasePlan.NothingToShare(|b.holders|, k);
    OpsAreProper(b, f, events, k, planless);
    LaneRefills(b, k, Shared);
    if terms.sharedBurst > 0 {
      TermsValid(b, k);
      LagIsPositive(terms, pod, ops, lane, s);
      RunKeeps(terms, pod, ops, lane, s, LagIn(terms, pod, ops, lane, s));
    }
  }

  lemma NobodyPays(b: Budget, f: Fleet, events: seq<Event>, lane: Lane, w: Window, seconds: real, planless: bool)
    requires b.Valid() && Nested(b, lane) && !Shares(b, lane) && |f.pods| == |b.holders|
    requires Opens(b, f) && Orderly(b, f, events, planless) && w.Lasts(|b.holders|, seconds)
    ensures Sum(Payments(b, f, events, lane, w)) == 0
  {
    forall k | 0 <= k < |f.pods| ensures Payments(b, f, events, lane, w)[k] == 0 {
      NoShareNoPay(b, f, events, lane, w, k, planless);
    }
    SumOfZeros(Payments(b, f, events, lane, w));
  }

  lemma PartIsLess(rate: real, whole: real, seconds: real)
    requires rate <= whole && seconds >= 0.0
    ensures Worth(rate, seconds) <= Worth(whole, seconds)
  {
    Positive(whole - rate, seconds);
    assert Worth(whole - rate, seconds) == Worth(whole, seconds) - Worth(rate, seconds);
  }

  lemma ReserveAlone(b: Budget, f: Fleet, events: seq<Event>, lane: Lane, w: Window, seconds: real, planless: bool)
    requires b.Valid() && Nested(b, lane) && !Shares(b, lane) && |f.pods| == |b.holders| && OneReserve(b, planless)
    requires Opens(b, f) && Orderly(b, f, events, planless) && w.Lasts(|b.holders|, seconds)
    ensures Admitted(b, f, events, lane, w) as real
         <= b.Spec(lane).capacity as real + Worth(b.Spec(lane).refill, seconds)
  {
    NobodyPays(b, f, events, lane, w, seconds, planless);
    AdmittedWasPaid(b, f, events, lane, w);
    ReserveGives(b, f, events, lane, w, seconds, planless);
    SpecFacts(b.Spec(lane), |b.holders|, 0);
    assert w.pods[0].start <= w.pods[0].start + seconds;
    PartIsLess(b.Spec(lane).emergencyRate, b.Spec(lane).refill, seconds);
  }

  lemma SafeRunsKeep(b: Budget, lane: Lane, s: Story, may: Freedom)
    requires b.Valid() && Nested(b, lane) && Safe(b, lane, may)
    ensures KeepsBudget(b, lane, s, may)
  {
    if Permitted(b, lane, s, may) {
      NewFleetOpens(b, s.f);
      if Shares(b, lane) {
        FleetBudget(b, s.f, s.events, lane, s.w, s.seconds, may.planless);
        WorthAdds(PodRate(b, lane), 0.0, 0.0);
      } else {
        ReserveAlone(b, s.f, s.events, lane, s.w, s.seconds, may.planless);
      }
    }
  }

  lemma UnsafeRunsBreak(b: Budget, lane: Lane, may: Freedom) returns (s: Story)
    requires b.Valid() && Nested(b, lane) && !Safe(b, lane, may)
    ensures !KeepsBudget(b, lane, s, may)
  {
    if !OneReserve(b, may.planless) {
      s := PlanlessOverspends(b, lane);
      OverrunsBreak(b, lane, s, 1, 0.0, 0.0, true, may);
    } else {
      var amount;
      s, amount := DatesOverspend(b, lane, !may.overlaps);
      OverrunsBreak(b, lane, s, 1, if may.overlaps then amount else 0.0, if may.overlaps then 0.0 else amount, false,
                    may);
    }
  }

  /** The fleet's budget holds for all runs exactly when all calls for the reserve meet at one key and, if pods have
      shares at all, no dates overlap and no reading lags. It makes no difference whether the steps are any the program
      takes or those of callers inside their windows. */
  lemma LimitsDecide(b: Budget, lane: Lane, may: Freedom)
    requires b.Valid() && Nested(b, lane)
    ensures Safe(b, lane, may) <==> forall s {:trigger KeepsBudget(b, lane, s, may)} :: KeepsBudget(b, lane, s, may)
  {
    if Safe(b, lane, may) {
      forall s ensures KeepsBudget(b, lane, s, may) {
        SafeRunsKeep(b, lane, s, may);
      }
    } else {
      var s := UnsafeRunsBreak(b, lane, may);
    }
  }
}
