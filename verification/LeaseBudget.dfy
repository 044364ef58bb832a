/** The fleet-wide budget of one bucket id in one plan generation: every pod spends the share of its rank from
    its own buckets, for itself and for the peers that borrow from it, and all of them share the emergency
    bucket in the central store. */
module LeaseBudget {
  import opened Options
  import opened TokenBucket
  import opened PodBudget
  import Central = CentralBucket
  import LeasePlan

  // ---------- The keys of the reserve ----------

  function Digit(d: nat): char
    requires d < 10
  {
    "0123456789"[d]
  }

  function Decimal(n: nat): string {
    if n < 10 then [Digit(n)] else Decimal(n / 10) + [Digit(n % 10)]
  }

  function EmergencyKey(key: string, generation: nat): string {
    key + ":emergency:g" + Decimal(generation)
  }

  lemma {:induction false} DecimalIsUnique(m: nat, n: nat)
    requires Decimal(m) == Decimal(n)
    ensures m == n
  {
    if m >= 10 && n >= 10 {
      assert Decimal(m)[..|Decimal(m)| - 1] == Decimal(m / 10) && Decimal(n)[..|Decimal(n)| - 1] == Decimal(n / 10);
      assert Decimal(m)[|Decimal(m)| - 1] == Digit(m % 10) && Decimal(n)[|Decimal(n)| - 1] == Digit(n % 10);
      DecimalIsUnique(m / 10, n / 10);
    }
  }

  lemma {:induction false} DecimalHasNoLetter(n: nat)
    ensures 'g' !in Decimal(n)
  {
    if n >= 10 {
      DecimalHasNoLetter(n / 10);
    }
  }

  lemma LetterIsBeforeDigits(p: string, d: string, q: string, e: string)
    requires p + d == q + e && 'g' !in d && q != [] && q[|q| - 1] == 'g'
    ensures |q| <= |p|
  {
    var s := p + d;
    forall i | |p| <= i < |s| ensures s[i] != 'g' {
      assert s[i] == d[i - |p|] && d[i - |p|] in d;
    }
    assert s[|q| - 1] == q[|q| - 1];
  }

  /** Every bucket has its own reserve in every generation. */
  lemma KeysAreApart(a: string, g: nat, b: string, h: nat)
    requires EmergencyKey(a, g) == EmergencyKey(b, h)
    ensures a == b && g == h
  {
    var p, q := a + ":emergency:g", b + ":emergency:g";
    DecimalHasNoLetter(g);
    DecimalHasNoLetter(h);
    assert p + Decimal(g) == q + Decimal(h);
    LetterIsBeforeDigits(p, Decimal(g), q, Decimal(h));
    LetterIsBeforeDigits(q, Decimal(h), p, Decimal(g));
    assert (p + Decimal(g))[..|p|] == p && (p + Decimal(g))[|p|..] == Decimal(g);
    assert (q + Decimal(h))[..|q|] == q && (q + Decimal(h))[|q|..] == Decimal(h);
    assert p[..|a|] == a && q[..|b|] == b;
    DecimalIsUnique(g, h);
  }

  // ---------- The fleet ----------

  /** One bucket id in one generation: the two specs of its profile, the members' names in canonical order, and
      the keys of its two buckets. */
  datatype Budget = Budget(shared: LeasePlan.Spec, standard: LeasePlan.Spec, generation: nat,
                           holders: seq<string>, sharedKey: string, standardKey: string)
  {
    function Spec(lane: Lane): LeasePlan.Spec {
      if lane.Shared? then shared else standard
    }

    /** The key of a lane's emergency bucket, and the one that a pod without a plan asks. */
    function Key(lane: Lane): string {
      EmergencyKey(if lane.Shared? then sharedKey else standardKey, generation)
    }

    function PlanlessKey(lane: Lane): string {
      EmergencyKey(if lane.Shared? then sharedKey else standardKey, 1)
    }

    ghost predicate Valid() {
      && generation != 0 && holders != [] && (forall h :: h in holders ==> h != "")
      && IsSpec(shared) && IsSpec(standard)
      && sharedKey != standardKey
    }

    function TermsAt(rank: nat): Terms
      requires rank < |holders|
    {
      var (sharedRate, sharedBurst) := LeasePlan.LocalShare(shared, |holders|, rank);
      var (standardRate, standardBurst) := LeasePlan.LocalShare(standard, |holders|, rank);
      Terms(generation, holders[rank], sharedRate, sharedBurst, standardRate, standardBurst)
    }

    /** What the central script is told about a lane's emergency bucket. */
    function Emergency(lane: Lane): Central.Args {
      var s := Spec(lane);
      Central.Args(s.emergencyBurst as real, s.emergencyRate / 1000.0, s.emergencyTTL, 0)
    }
  }

  const NO_SPEC := LeasePlan.Spec(0, 0.0, 0, 0, 0.0, 0)

  /** A spec with a sound reserve, as every profile's is (`LeasePlan.SpecReserves`), or the missing standard
      spec of the helix:system profile. */
  ghost predicate IsSpec(s: LeasePlan.Spec) {
    s == NO_SPEC || LeasePlan.Sound(s)
  }

  /** The pods, the central store and the server's clock at the last call. */
  datatype Fleet = Fleet(pods: seq<Pod>, store: Central.Store, now: int)

  /** A locked section at one pod, or one call of the central script. `delivered` is false when the request the
      tokens were taken for does not go ahead: a borrowed permit whose reply is lost or late. */
  datatype Event = AtPod(rank: nat, op: Op, delivered: bool) | AtStore(call: Central.Call, delivered: bool)

  function FleetStep(b: Budget, f: Fleet, e: Event): Fleet
    requires |f.pods| == |b.holders|
  {
    match e
    case AtPod(rank, op, _) =>
      if rank >= |f.pods| then f else f.(pods := f.pods[rank := Step(b.TermsAt(rank), f.pods[rank], op)])
    case AtStore(call, _) => f.(store := Central.Script(f.store, call.keys, call.args, call.now).0, now := call.now)
  }

  function StoreTakes(b: Budget, f: Fleet, call: Central.Call, lane: Lane): nat {
    if Central.Takes(f.store, call, b.Key(lane)) + Central.Takes(f.store, call, b.PlanlessKey(lane)) > 0 then 1 else 0
  }

  function Takes(b: Budget, f: Fleet, e: Event, lane: Lane): nat
    requires |f.pods| == |b.holders|
  {
    match e
    case AtPod(rank, op, _) => if rank >= |f.pods| then 0 else Pays(b.TermsAt(rank), f.pods[rank], op, lane)
    case AtStore(call, _) => StoreTakes(b, f, call, lane)
  }

  ghost function After(b: Budget, f: Fleet, events: seq<Event>): (r: Fleet)
    requires |f.pods| == |b.holders|
    ensures |r.pods| == |f.pods|
  {
    if events == [] then f else FleetStep(b, After(b, f, events[..|events| - 1]), events[|events| - 1])
  }

  /** A step the program takes. The server's clock does not go back, and only a pod without a plan, if there may be
      one, asks the reserve of generation 1. */
  ghost predicate EventProper(b: Budget, f: Fleet, e: Event, planless: bool)
    requires |f.pods| == |b.holders|
  {
    match e
    case AtPod(rank, op, _) =>
      rank < |f.pods| && b.TermsAt(rank).sharedBurst > 0 && Proper(b.TermsAt(rank), op)
    case AtStore(call, _) =>
      && f.now <= call.now
      && forall lane ::
        && Central.Consistent(call, b.Key(lane), b.Emergency(lane))
        && Central.Consistent(call, b.PlanlessKey(lane), b.Emergency(lane))
        && (planless || b.PlanlessKey(lane) == b.Key(lane) || b.PlanlessKey(lane) !in call.keys)
  }

  ghost predicate Orderly(b: Budget, f: Fleet, events: seq<Event>, planless: bool)
    requires |f.pods| == |b.holders|
  {
    events != [] ==>
      var rest := events[..|events| - 1];
      Orderly(b, f, rest, planless) && EventProper(b, After(b, f, rest), events[|events| - 1], planless)
  }

  /** A stretch of time as each clock sees it: every pod's own, and the server's in milliseconds. */
  datatype Window = Window(pods: seq<Stretch>, serverStart: int, serverEnd: int)
  {
    ghost predicate Lasts(members: nat, seconds: real) {
      && |pods| == members
      && (forall k :: 0 <= k < |pods| ==> pods[k].start <= pods[k].end <= pods[k].start + seconds)
      && serverStart <= serverEnd && (serverEnd - serverStart) as real <= 1000.0 * seconds
    }

    /** The event carries a reading of the stretch. */
    predicate Holds(e: Event) {
      match e
      case AtPod(rank, op, _) => rank < |pods| && ReadIn(op, pods[rank])
      case AtStore(call, _) => serverStart <= call.now <= serverEnd
    }
  }

  /** The requests of a lane that go ahead on readings of the window, wherever in the run they do. */
  ghost function Admitted(b: Budget, f: Fleet, events: seq<Event>, lane: Lane, w: Window): nat
    requires |f.pods| == |b.holders|
  {
    if events == [] then 0
    else
      var rest, last := events[..|events| - 1], events[|events| - 1];
      Admitted(b, f, rest, lane, w)
      + if last.delivered && w.Holds(last) then Takes(b, After(b, f, rest), last, lane) else 0
  }

  // ---------- Each pod's part of a run ----------

  ghost function OpsOf(events: seq<Event>, k: nat): seq<Op> {
    if events == [] then []
    else
      var rest, last := OpsOf(events[..|events| - 1], k), events[|events| - 1];
      if last.AtPod? && last.rank == k then rest + [last.op] else rest
  }

  lemma OpsGrow(events: seq<Event>, e: Event, k: nat)
    ensures OpsOf(events + [e], k) == if e.AtPod? && e.rank == k then OpsOf(events, k) + [e.op] else OpsOf(events, k)
  {
    assert (events + [e])[..|events|] == events;
  }

  /** A pod lives its own part of the run. */
  lemma {:induction false} PodsAreApart(b: Budget, f: Fleet, events: seq<Event>, k: nat)
    requires |f.pods| == |b.holders| && k < |f.pods|
    ensures After(b, f, events).pods[k] == PodBudget.After(b.TermsAt(k), f.pods[k], OpsOf(events, k))
  {
    if events != [] {
      var rest, last := events[..|events| - 1], events[|events| - 1];
      PodsAreApart(b, f, rest, k);
      if last.AtPod? && last.rank == k {
        OneMore(b.TermsAt(k), Shared, f.pods[k], OpsOf(rest, k), last.op);
      }
    }
  }

  /** What the pod of rank `k` pays on readings of the window. */
  ghost function PodPaid(b: Budget, f: Fleet, events: seq<Event>, lane: Lane, w: Window, k: nat): nat
    requires |f.pods| == |b.holders| == |w.pods| && k < |f.pods|
  {
    PaidIn(b.TermsAt(k), f.pods[k], OpsOf(events, k), lane, w.pods[k])
  }

  ghost function Payments(b: Budget, f: Fleet, events: seq<Event>, lane: Lane, w: Window): seq<nat>
    requires |f.pods| == |b.holders| == |w.pods|
  {
    seq(|f.pods|, k requires 0 <= k < |f.pods| => PodPaid(b, f, events, lane, w, k))
  }

  ghost function Sum(paid: seq<nat>): nat {
    if paid == [] then 0 else Sum(paid[..|paid| - 1]) + paid[|paid| - 1]
  }

  lemma {:induction false} SumOfZeros(paid: seq<nat>)
    requires forall k :: 0 <= k < |paid| ==> paid[k] == 0
    ensures Sum(paid) == 0
  {
    if paid != [] {
      SumOfZeros(paid[..|paid| - 1]);
    }
  }

  lemma {:induction false} SumUpdate(paid: seq<nat>, k: nat, more: nat)
    requires k < |paid|
    ensures Sum(paid[k := paid[k] + more]) == Sum(paid) + more
  {
    var next := paid[k := paid[k] + more];
    if k == |paid| - 1 {
      assert next[..k] == paid[..k];
    } else {
      assert next[..|paid| - 1] == paid[..|paid| - 1][k := paid[k] + more];
      SumUpdate(paid[..|paid| - 1], k, more);
    }
  }

  function ReserveAdds(b: Budget, f: Fleet, e: Event, lane: Lane, w: Window): nat
    requires |f.pods| == |b.holders|
  {
    if e.AtStore? && w.Holds(e) then Takes(b, f, e, lane) else 0
  }

  /** What the reserve gives to calls of the window. */
  ghost function ReservePaid(b: Budget, f: Fleet, events: seq<Event>, lane: Lane, w: Window): nat
    requires |f.pods| == |b.holders|
  {
    if events == [] then 0
    else
      var rest, last := events[..|events| - 1], events[|events| - 1];
      ReservePaid(b, f, rest, lane, w) + ReserveAdds(b, After(b, f, rest), last, lane, w)
  }

  /** What an event after `events` adds to the payments of the pod of rank `k`. */
  ghost function PodAdds(b: Budget, f: Fleet, events: seq<Event>, e: Event, lane: Lane, w: Window, k: nat): nat
    requires |f.pods| == |b.holders|
  {
    if e.AtPod? && e.rank == k && w.Holds(e) then Takes(b, After(b, f, events), e, lane) else 0
  }

  ghost function PodsAdd(b: Budget, f: Fleet, events: seq<Event>, e: Event, lane: Lane, w: Window): nat
    requires |f.pods| == |b.holders|
  {
    if e.AtPod? then PodAdds(b, f, events, e, lane, w, e.rank) else 0
  }

  lemma PodPaysMore(b: Budget, f: Fleet, events: seq<Event>, e: Event, lane: Lane, w: Window, k: nat)
    requires |f.pods| == |b.holders| == |w.pods| && k < |f.pods|
    ensures PodPaid(b, f, events + [e], lane, w, k)
         == PodPaid(b, f, events, lane, w, k) + PodAdds(b, f, events, e, lane, w, k)
  {
    OpsGrow(events, e, k);
    if e.AtPod? && e.rank == k {
      PodsAreApart(b, f, events, k);
      OneMoreIn(b.TermsAt(k), lane, f.pods[k], OpsOf(events, k), e.op, w.pods[k]);
    }
  }

  lemma SumGrows(paid: seq<nat>, next: seq<nat>, rank: nat, more: nat)
    requires |paid| == |next| && (rank >= |paid| ==> more == 0)
    requires forall k :: 0 <= k < |paid| ==> next[k] == paid[k] + if k == rank then more else 0
    ensures Sum(next) == Sum(paid) + more
  {
    if rank < |paid| {
      SumUpdate(paid, rank, more);
      assert next == paid[rank := paid[rank] + more];
    } else {
      assert next == paid;
    }
  }

  /** An event adds to the payments of the pod at which it happens, and of no other. */
  lemma PodsPayMore(b: Budget, f: Fleet, events: seq<Event>, e: Event, lane: Lane, w: Window)
    requires |f.pods| == |b.holders| == |w.pods|
    ensures Sum(Payments(b, f, events + [e], lane, w))
         == Sum(Payments(b, f, events, lane, w)) + PodsAdd(b, f, events, e, lane, w)
  {
    var paid, next := Payments(b, f, events, lane, w), Payments(b, f, events + [e], lane, w);
    var rank, more := if e.AtPod? then e.rank else |paid|, PodsAdd(b, f, events, e, lane, w);
    forall k | 0 <= k < |paid| ensures next[k] == paid[k] + if k == rank then more else 0 {
      PodPaysMore(b, f, events, e, lane, w, k);
    }
    SumGrows(paid, next, rank, more);
  }

  /** Nobody is admitted unpaid: what goes ahead is at most what the pods and the reserve give, and all of it when
      every request that tokens were taken for goes ahead. */
  lemma {:induction false} AdmittedWasPaid(b: Budget, f: Fleet, events: seq<Event>, lane: Lane, w: Window)
    requires |f.pods| == |b.holders| == |w.pods|
    ensures Admitted(b, f, events, lane, w)
         <= Sum(Payments(b, f, events, lane, w)) + ReservePaid(b, f, events, lane, w)
    ensures (forall e :: e in events ==> e.delivered) ==>
      Admitted(b, f, events, lane, w)
         == Sum(Payments(b, f, events, lane, w)) + ReservePaid(b, f, events, lane, w)
  {
    if events == [] {
      SumOfZeros(Payments(b, f, events, lane, w));
    } else {
      var rest, last := events[..|events| - 1], events[|events| - 1];
      assert rest + [last] == events;
      AdmittedWasPaid(b, f, rest, lane, w);
      PodsPayMore(b, f, rest, last, lane, w);
    }
  }

  // ---------- Shares ----------

  /** All calls for the reserve meet at one key: no pod is without a plan, or the plan's generation is 1. */
  ghost predicate OneReserve(b: Budget, planless: bool) {
    !planless || b.generation == 1
  }

  /** A spec's split leaves every pod that has a burst a positive rate, and an emergency key that lives long
      enough. */
  lemma SpecFacts(s: LeasePlan.Spec, members: nat, rank: nat)
    requires IsSpec(s) && rank < members
    ensures s.emergencyBurst <= s.capacity && 0.0 <= s.emergencyRate <= s.refill
    ensures LeasePlan.LocalShare(s, members, rank).1 >= 0
    ensures LeasePlan.LocalShare(s, members, rank).1 > 0 ==> LeasePlan.LocalShare(s, members, rank).0 > 0.0
    ensures LeasePlan.LocalShare(s, members, rank).0 >= 0.0
    ensures s.emergencyBurst > 0 ==>
      var a := Central.Args(s.emergencyBurst as real, s.emergencyRate / 1000.0, s.emergencyTTL, 0);
      a.Valid() && a.RefillsBeforeExpiry()
  {
    if s != NO_SPEC {
      LeasePlan.ShareRefills(s, members, rank);
      PerMillisecond(s.emergencyRate, s.emergencyTTL);
    } else {
      LeasePlan.NothingToShare(members, rank);
    }
  }

  lemma PerMillisecond(rate: real, seconds: int)
    ensures rate / 1000.0 * (seconds * 1000) as real == seconds as real * rate
  {
    assert (seconds * 1000) as real == 1000.0 * seconds as real;
  }

  lemma TermsValid(b: Budget, k: nat)
    requires b.Valid() && k < |b.holders| && b.TermsAt(k).sharedBurst > 0
    ensures b.TermsAt(k).Valid()
  {
    SpecFacts(b.shared, |b.holders|, k);
    SpecFacts(b.standard, |b.holders|, k);
    assert b.holders[k] in b.holders;
  }

  // ---------- Where runs begin ----------

  ghost predicate PodSettled(b: Budget, f: Fleet, k: nat)
    requires |f.pods| == |b.holders| && k < |f.pods|
  {
    if b.TermsAt(k).sharedBurst == 0 then f.pods[k].overlap >= 0.0 else Settled(b.TermsAt(k), f.pods[k])
  }

  ghost predicate StoreSettled(b: Budget, f: Fleet, lane: Lane) {
    b.Spec(lane).emergencyBurst > 0 ==> Central.Account(f.store, b.Key(lane), b.Emergency(lane), f.now, f.now, 0)
  }

  /** The states in which a run may begin: every pod's and the reserve's accounts are in order. */
  ghost predicate Opens(b: Budget, f: Fleet)
    requires |f.pods| == |b.holders|
  {
    && (forall k: nat {:trigger PodSettled(b, f, k)} :: k < |f.pods| ==> PodSettled(b, f, k))
    && (forall lane {:trigger StoreSettled(b, f, lane)} :: StoreSettled(b, f, lane))
  }

  /** A fleet may begin without buckets, on a store without the reserve's keys. */
  lemma NewFleetOpens(b: Budget, f: Fleet)
    requires b.Valid() && |f.pods| == |b.holders|
    requires forall k :: 0 <= k < |f.pods| ==> f.pods[k] == NewPod(f.pods[k].seen)
    requires forall lane :: b.Key(lane) !in f.store
    ensures Opens(b, f)
  {
    forall k: nat {:trigger PodSettled(b, f, k)} | k < |f.pods| ensures PodSettled(b, f, k) {
      if b.TermsAt(k).sharedBurst != 0 {
        LaneRefills(b, k, Shared);
        TermsValid(b, k);
        NewPodIsSettled(b.TermsAt(k), f.pods[k].seen);
      }
    }
  }

  lemma EventSettles(b: Budget, f: Fleet, e: Event, planless: bool)
    requires b.Valid() && |f.pods| == |b.holders| && OneReserve(b, planless)
    requires Opens(b, f) && EventProper(b, f, e, planless)
    ensures Opens(b, FleetStep(b, f, e))
  {
    var g := FleetStep(b, f, e);
    forall k: nat {:trigger PodSettled(b, g, k)} | k < |g.pods| ensures PodSettled(b, g, k) {
      assert PodSettled(b, f, k);
      if e.AtPod? && e.rank == k {
        TermsValid(b, k);
        StepSettles(b.TermsAt(k), f.pods[k], e.op);
      }
    }
    forall lane {:trigger StoreSettled(b, g, lane)} ensures StoreSettled(b, g, lane) {
      assert StoreSettled(b, f, lane);
      if e.AtStore? && b.Spec(lane).emergencyBurst > 0 {
        CallKeeps(b, f, e.call, lane, f.now, 0, planless);
        Reopens(b, g.store, lane, f.now, g.now, StoreTakes(b, f, e.call, lane), g.now, g.now);
      }
    }
  }

  /** Every run leads to a state in which another may begin. */
  lemma {:induction false} RunSettles(b: Budget, f: Fleet, events: seq<Event>, planless: bool)
    requires b.Valid() && |f.pods| == |b.holders| && OneReserve(b, planless)
    requires Opens(b, f) && Orderly(b, f, events, planless)
    ensures Opens(b, After(b, f, events))
  {
    if events != [] {
      RunSettles(b, f, events[..|events| - 1], planless);
      EventSettles(b, After(b, f, events[..|events| - 1]), events[|events| - 1], planless);
    }
  }

  // ---------- The reserve ----------

  /** A call keeps the account of a lane's reserve since any date. */
  lemma CallKeeps(b: Budget, f: Fleet, call: Central.Call, lane: Lane, start: int, taken: nat, planless: bool)
    requires b.Valid() && |f.pods| == |b.holders| && OneReserve(b, planless) && b.Spec(lane).emergencyBurst > 0
    requires EventProper(b, f, AtStore(call, true), planless)
    requires Central.Account(f.store, b.Key(lane), b.Emergency(lane), start, f.now, taken)
    ensures Central.Account(Central.Script(f.store, call.keys, call.args, call.now).0, b.Key(lane), b.Emergency(lane),
                            start, call.now, taken + StoreTakes(b, f, call, lane))
  {
    assert Central.Consistent(call, b.Key(lane), b.Emergency(lane));
    SpecFacts(b.Spec(lane), |b.holders|, 0);
    Central.CallKeepsAccount(f.store, call, b.Key(lane), b.Emergency(lane), start, f.now, taken);
  }

  /** An account may be opened again at any later moment, and since any date before that. */
  lemma Reopens(b: Budget, store: Central.Store, lane: Lane, start: int, now: int, taken: nat, since: int, later: int)
    requires b.Valid() && b.Spec(lane).emergencyBurst > 0
    requires Central.Account(store, b.Key(lane), b.Emergency(lane), start, now, taken) && now <= later && since <= later
    ensures Central.Account(store, b.Key(lane), b.Emergency(lane), since, later, 0)
  {
    SpecFacts(b.Spec(lane), |b.holders|, 0);
    Central.TimePasses(store, b.Key(lane), b.Emergency(lane), start, now, later, taken);
    Central.Accrues(b.Emergency(lane).refillPerMs, since, later, later);
  }

  /** A profile without a standard bucket has no valid arguments for its key. */
  lemma NeverPays(store: Central.Store, call: Central.Call, key: string, args: Central.Args)
    requires Central.Consistent(call, key, args) && !args.Valid()
    ensures Central.Takes(store, call, key) == 0
  {
  }

  /** The account of a lane's reserve before, in and after the window. */
  ghost predicate ReserveInv(b: Budget, f: Fleet, lane: Lane, w: Window, taken: nat) {
    var args := b.Emergency(lane);
    if b.Spec(lane).emergencyBurst == 0 then taken == 0
    else if f.now < w.serverStart then
      taken == 0 && Central.Account(f.store, b.Key(lane), args, f.now, f.now, 0)
    else if f.now <= w.serverEnd then Central.Account(f.store, b.Key(lane), args, w.serverStart, f.now, taken)
    else taken as real <= args.capacity + Central.Refill(args.refillPerMs, w.serverStart, w.serverEnd)
  }

  lemma CallKeepsReserve(b: Budget, f: Fleet, call: Central.Call, lane: Lane, w: Window, taken: nat, planless: bool)
    requires b.Valid() && |f.pods| == |b.holders| && OneReserve(b, planless) && w.serverStart <= w.serverEnd
    requires EventProper(b, f, AtStore(call, true), planless) && ReserveInv(b, f, lane, w, taken)
    requires b.Spec(lane).emergencyBurst > 0
    ensures ReserveInv(b, FleetStep(b, f, AtStore(call, true)), lane, w,
                       taken + if w.Holds(AtStore(call, true)) then StoreTakes(b, f, call, lane) else 0)
  {
    var g := FleetStep(b, f, AtStore(call, true));
    SpecFacts(b.Spec(lane), |b.holders|, 0);
    if f.now < w.serverStart {
      if g.now < w.serverStart {
        CallKeeps(b, f, call, lane, f.now, 0, planless);
        Reopens(b, g.store, lane, f.now, g.now, StoreTakes(b, f, call, lane), g.now, g.now);
      } else {
        Reopens(b, f.store, lane, f.now, f.now, 0, w.serverStart, w.serverStart);
        var late := f.(now := w.serverStart);
        CallKeeps(b, late, call, lane, w.serverStart, 0, planless);
        Closes(b, late, lane, w, 0);
      }
    } else if f.now <= w.serverEnd {
      CallKeeps(b, f, call, lane, w.serverStart, taken, planless);
      Closes(b, f, lane, w, taken);
    }
  }

  /** What the account says at the end of the window. */
  lemma Closes(b: Budget, f: Fleet, lane: Lane, w: Window, taken: nat)
    requires b.Valid() && b.Spec(lane).emergencyBurst > 0 && f.now <= w.serverEnd
    requires Central.Account(f.store, b.Key(lane), b.Emergency(lane), w.serverStart, f.now, taken)
    ensures taken as real
        <= b.Emergency(lane).capacity + Central.Refill(b.Emergency(lane).refillPerMs, w.serverStart, w.serverEnd)
  {
    SpecFacts(b.Spec(lane), |b.holders|, 0);
    Central.AccountBounds(f.store, b.Key(lane), b.Emergency(lane), w.serverStart, f.now, w.serverEnd, taken);
  }

  lemma EventKeepsReserve(b: Budget, f: Fleet, e: Event, lane: Lane, w: Window, taken: nat, planless: bool)
    requires b.Valid() && |f.pods| == |b.holders| && OneReserve(b, planless) && w.serverStart <= w.serverEnd
    requires EventProper(b, f, e, planless) && ReserveInv(b, f, lane, w, taken)
    ensures ReserveInv(b, FleetStep(b, f, e), lane, w, taken + ReserveAdds(b, f, e, lane, w))
  {
    if e.AtStore? {
      if b.Spec(lane).emergencyBurst > 0 {
        CallKeepsReserve(b, f, e.call, lane, w, taken, planless);
      } else {
        NothingInReserve(b, f, e.call, lane, planless);
      }
    }
  }

  lemma {:induction false} ReserveKeeps(b: Budget, f: Fleet, events: seq<Event>, lane: Lane, w: Window, planless: bool)
    requires b.Valid() && |f.pods| == |b.holders| && OneReserve(b, planless) && w.serverStart <= w.serverEnd
    requires Opens(b, f) && Orderly(b, f, events, planless)
    ensures ReserveInv(b, After(b, f, events), lane, w, ReservePaid(b, f, events, lane, w))
  {
    if events == [] {
      ReserveStarts(b, f, lane, w);
    } else {
      var rest, last := events[..|events| - 1], events[|events| - 1];
      ReserveKeeps(b, f, rest, lane, w, planless);
      EventKeepsReserve(b, After(b, f, rest), last, lane, w, ReservePaid(b, f, rest, lane, w), planless);
    }
  }

  lemma NothingInReserve(b: Budget, f: Fleet, call: Central.Call, lane: Lane, planless: bool)
    requires b.Valid() && |f.pods| == |b.holders| && b.Spec(lane).emergencyBurst == 0
    requires EventProper(b, f, AtStore(call, true), planless)
    ensures StoreTakes(b, f, call, lane) == 0
  {
    assert Central.Consistent(call, b.Key(lane), b.Emergency(lane))
        && Central.Consistent(call, b.PlanlessKey(lane), b.Emergency(lane));
    NeverPays(f.store, call, b.Key(lane), b.Emergency(lane));
    NeverPays(f.store, call, b.PlanlessKey(lane), b.Emergency(lane));
  }

  lemma ReserveStarts(b: Budget, f: Fleet, lane: Lane, w: Window)
    requires b.Valid() && |f.pods| == |b.holders| && Opens(b, f) && w.serverStart <= w.serverEnd
    ensures ReserveInv(b, f, lane, w, 0)
  {
    assert StoreSettled(b, f, lane);
    if b.Spec(lane).emergencyBurst > 0 {
      SpecFacts(b.Spec(lane), |b.holders|, 0);
      if f.now > w.serverEnd {
        Central.Accrues(b.Emergency(lane).refillPerMs, w.serverStart, w.serverEnd, w.serverEnd);
      } else if w.serverStart <= f.now {
        Reopens(b, f.store, lane, f.now, f.now, 0, w.serverStart, f.now);
      }
    }
  }

  /** The emergency bucket gives at most the reserve to calls of the window. */
  lemma ReserveGives(b: Budget, f: Fleet, events: seq<Event>, lane: Lane, w: Window, seconds: real, planless: bool)
    requires b.Valid() && |f.pods| == |b.holders| && OneReserve(b, planless) && w.Lasts(|b.holders|, seconds)
    requires Opens(b, f) && Orderly(b, f, events, planless)
    ensures ReservePaid(b, f, events, lane, w) as real
         <= b.Spec(lane).emergencyBurst as real + Worth(b.Spec(lane).emergencyRate, seconds)
  {
    var s, g := b.Spec(lane), After(b, f, events);
    SpecFacts(s, |b.holders|, 0);
    ReserveKeeps(b, f, events, lane, w, planless);
    if s.emergencyBurst > 0 {
      Central.Accrues(b.Emergency(lane).refillPerMs, w.serverStart, w.serverEnd, w.serverEnd);
      if w.serverStart <= g.now <= w.serverEnd {
        Closes(b, g, lane, w, ReservePaid(b, f, events, lane, w));
      }
      PerSecond(s.emergencyRate, w.serverStart, w.serverEnd, seconds);
    } else {
      RatesAdd(0.0, 0.0, seconds);
    }
  }

  lemma PerSecond(rate: real, start: int, end: int, seconds: real)
    requires rate >= 0.0 && start <= end && (end - start) as real <= 1000.0 * seconds
    ensures Central.Refill(rate / 1000.0, start, end) <= Worth(rate, seconds)
  {
    var ms := (end - start) as real;
    assert rate / 1000.0 * ms == Worth(rate, ms / 1000.0);
    WorthAdds(rate, seconds, ms / 1000.0);
    Positive(rate, seconds - ms / 1000.0);
  }

  // ---------- The pods ----------

  /** The rate of every pod's share, whatever its rank. */
  function PodRate(b: Budget, lane: Lane): real
    requires |b.holders| > 0
  {
    LeasePlan.LocalShare(b.Spec(lane), |b.holders|, 0).0
  }

  function Total(xs: seq<real>): real {
    if xs == [] then 0.0 else Total(xs[..|xs| - 1]) + xs[|xs| - 1]
  }

  /** By how much dates overlapped at the pods. */
  function Overlaps(pods: seq<Pod>): seq<real> {
    seq(|pods|, k requires 0 <= k < |pods| => pods[k].overlap)
  }

  /** The lags of the pods' payments in the window. */
  ghost function Lags(b: Budget, f: Fleet, events: seq<Event>, lane: Lane, w: Window): seq<real>
    requires |f.pods| == |b.holders| == |w.pods|
  {
    seq(|f.pods|, k requires 0 <= k < |f.pods| =>
      LagIn(b.TermsAt(k), f.pods[k], OpsOf(events, k), lane, w.pods[k]))
  }

  /** The steps of a pod with a share are proper ones, and a pod without a share takes none. */
  lemma {:induction false} OpsAreProper(b: Budget, f: Fleet, events: seq<Event>, k: nat, planless: bool)
    requires |f.pods| == |b.holders| && k < |f.pods| && Orderly(b, f, events, planless)
    ensures forall i :: 0 <= i < |OpsOf(events, k)| ==> Proper(b.TermsAt(k), OpsOf(events, k)[i])
    ensures b.TermsAt(k).sharedBurst <= 0 ==> OpsOf(events, k) == []
  {
    if events != [] {
      OpsAreProper(b, f, events[..|events| - 1], k, planless);
    }
  }

  lemma ShareOfLane(b: Budget, k: nat, lane: Lane)
    requires b.Valid() && k < |b.holders|
    ensures LeasePlan.LocalShare(b.Spec(lane), |b.holders|, k) == (Rate(b.TermsAt(k), lane), Burst(b.TermsAt(k), lane))
    ensures Rate(b.TermsAt(k), lane) == PodRate(b, lane)
  {
  }

  lemma LaneRefills(b: Budget, k: nat, lane: Lane)
    requires b.Valid() && k < |b.holders|
    ensures Rate(b.TermsAt(k), lane) >= 0.0 && Burst(b.TermsAt(k), lane) >= 0 && PodRate(b, lane) >= 0.0
  {
    SpecFacts(b.Spec(lane), |b.holders|, k);
    SpecFacts(b.Spec(lane), |b.holders|, 0);
  }

  /** What a pod pays in a window: its share of that time, and what its lag and its overlap are worth. */
  lemma PodGives(b: Budget, f: Fleet, events: seq<Event>, lane: Lane, w: Window, k: nat, seconds: real, planless: bool)
    requires b.Valid() && |f.pods| == |b.holders| && k < |f.pods| && w.Lasts(|b.holders|, seconds)
    requires Opens(b, f) && Orderly(b, f, events, planless)
    ensures PodPaid(b, f, events, lane, w, k) as real
         <= LeasePlan.LocalShare(b.Spec(lane), |b.holders|, k).1 as real + Worth(PodRate(b, lane), seconds)
             + Worth(PodRate(b, lane), LagIn(b.TermsAt(k), f.pods[k], OpsOf(events, k), lane, w.pods[k]))
             + Worth(PodRate(b, lane), After(b, f, events).pods[k].overlap)
  {
    assert PodSettled(b, f, k);
    ShareOfLane(b, k, lane);
    LaneRefills(b, k, lane);
    PodsAreApart(b, f, events, k);
    OpsAreProper(b, f, events, k, planless);
    var terms, pod, ops, s := b.TermsAt(k), f.pods[k], OpsOf(events, k), w.pods[k];
    if terms.sharedBurst > 0 {
      TermsValid(b, k);
      TermsGive(terms, pod, ops, lane, s, seconds);
    } else {
      LaneRefills(b, k, Shared);
      Positive(PodRate(b, lane), seconds);
      Positive(PodRate(b, lane), pod.overlap);
      RatesAdd(0.0, 0.0, seconds);
      WorthAdds(PodRate(b, lane), 0.0, 0.0);
    }
  }

  lemma TermsGive(terms: Terms, pod: Pod, ops: seq<Op>, lane: Lane, s: Stretch, seconds: real)
    requires terms.Valid() && Settled(terms, pod) && s.start <= s.end <= s.start + seconds
    requires forall i :: 0 <= i < |ops| ==> Proper(terms, ops[i])
    ensures PaidIn(terms, pod, ops, lane, s) as real
         <= Burst(terms, lane) as real + Worth(Rate(terms, lane), seconds)
             + Worth(Rate(terms, lane), LagIn(terms, pod, ops, lane, s))
             + Worth(Rate(terms, lane), PodBudget.After(terms, pod, ops).overlap)
  {
    LagIsPositive(terms, pod, ops, lane, s);
    RunGives(terms, pod, ops, lane, s, LagIn(terms, pod, ops, lane, s));
    WorthAdds(Rate(terms, lane), seconds, s.end - s.start);
    Positive(Rate(terms, lane), seconds - (s.end - s.start));
  }

  /** What was paid is bounded by the share, the lag and the overlap of the pod of rank `k`. */
  ghost predicate Bounded(b: Budget, lane: Lane, paid: seq<nat>, seconds: real, lags: seq<real>, overlaps: seq<real>,
                          k: nat)
    requires k < |paid| == |b.holders| == |lags| == |overlaps|
  {
    paid[k] as real
      <= LeasePlan.LocalShare(b.Spec(lane), |b.holders|, k).1 as real + Worth(PodRate(b, lane), seconds)
          + Worth(PodRate(b, lane), lags[k]) + Worth(PodRate(b, lane), overlaps[k])
  }

  /** The first `n` pods together pay no more than their shares, lags and overlaps. */
  lemma {:induction false} SharesBound(b: Budget, lane: Lane, paid: seq<nat>, seconds: real, lags: seq<real>,
                                       overlaps: seq<real>, n: nat)
    requires b.Valid() && n <= |paid| == |b.holders| == |lags| == |overlaps|
    requires forall k: nat :: k < n ==> Bounded(b, lane, paid, seconds, lags, overlaps, k)
    ensures Sum(paid[..n]) as real
         <= LeasePlan.Bursts(b.Spec(lane), |b.holders|, n) as real
             + Worth(LeasePlan.Rates(b.Spec(lane), |b.holders|, n), seconds)
             + Worth(PodRate(b, lane), Total(lags[..n])) + Worth(PodRate(b, lane), Total(overlaps[..n]))
  {
    if n == 0 {
      RatesAdd(0.0, 0.0, seconds);
      WorthAdds(PodRate(b, lane), 0.0, 0.0);
    } else {
      SharesBound(b, lane, paid, seconds, lags, overlaps, n - 1);
      assert Bounded(b, lane, paid, seconds, lags, overlaps, n - 1);
      ShareOfLane(b, n - 1, lane);
      assert paid[..n][..n - 1] == paid[..n - 1];
      assert lags[..n][..n - 1] == lags[..n - 1] && overlaps[..n][..n - 1] == overlaps[..n - 1];
      RatesAdd(LeasePlan.Rates(b.Spec(lane), |b.holders|, n - 1), PodRate(b, lane), seconds);
      WorthAdds(PodRate(b, lane), Total(lags[..n - 1]), lags[n - 1]);
      WorthAdds(PodRate(b, lane), Total(overlaps[..n - 1]), overlaps[n - 1]);
    }
  }

  lemma PodsGive(b: Budget, f: Fleet, events: seq<Event>, lane: Lane, w: Window, seconds: real, planless: bool)
    requires b.Valid() && |f.pods| == |b.holders| && w.Lasts(|b.holders|, seconds)
    requires Opens(b, f) && Orderly(b, f, events, planless)
    ensures Sum(Payments(b, f, events, lane, w)) as real
         <= LeasePlan.Bursts(b.Spec(lane), |b.holders|, |b.holders|) as real
             + Worth(LeasePlan.Rates(b.Spec(lane), |b.holders|, |b.holders|), seconds)
             + Worth(PodRate(b, lane), Total(Lags(b, f, events, lane, w)))
             + Worth(PodRate(b, lane), Total(Overlaps(After(b, f, events).pods)))
  {
    var paid, lags := Payments(b, f, events, lane, w), Lags(b, f, events, lane, w);
    var n, overlaps := |b.holders|, Overlaps(After(b, f, events).pods);
    forall k: nat | k < n ensures Bounded(b, lane, paid, seconds, lags, overlaps, k) {
      PodGives(b, f, events, lane, w, k, seconds, planless);
    }
    SharesBound(b, lane, paid, seconds, lags, overlaps, n);
    assert paid[..n] == paid && lags[..n] == lags && overlaps[..n] == overlaps;
  }

  lemma RatesAdd(x: real, y: real, seconds: real)
    ensures Worth(x + y, seconds) == Worth(x, seconds) + Worth(y, seconds)
    ensures Worth(0.0, seconds) == 0.0
  {
  }

  /** The fleet-wide budget: however the callers of all pods interleave, whichever readings they carry and whichever
      buckets they still hold, and whoever borrows from whom, the requests of a lane that go ahead on readings of
      `seconds` are at most the provider's capacity, its refill over that time, and a pod's refill over the time by
      which readings lag and dates overlap. */
  lemma FleetBudget(b: Budget, f: Fleet, events: seq<Event>, lane: Lane, w: Window, seconds: real, planless: bool)
    requires b.Valid() && |f.pods| == |b.holders| && OneReserve(b, planless)
    requires Opens(b, f) && Orderly(b, f, events, planless) && w.Lasts(|b.holders|, seconds)
    ensures Admitted(b, f, events, lane, w) as real
         <= b.Spec(lane).capacity as real + Worth(b.Spec(lane).refill, seconds)
             + Worth(PodRate(b, lane), Total(Lags(b, f, events, lane, w)))
             + Worth(PodRate(b, lane), Total(Overlaps(After(b, f, events).pods)))
  {
    var s, n := b.Spec(lane), |b.holders|;
    AdmittedWasPaid(b, f, events, lane, w);
    PodsGive(b, f, events, lane, w, seconds, planless);
    ReserveGives(b, f, events, lane, w, seconds, planless);
    SpecFacts(s, n, 0);
    LeasePlan.SharesAddUp(s, n, 0, 0);
    RatesAdd(LeasePlan.Rates(s, n, n), s.emergencyRate, seconds);
  }
}
