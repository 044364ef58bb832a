/** A pod's lease manager: the active plan, the leased buckets, and the order in which an admission looks for a
    token: the pod's own bucket, then a peer's, then the emergency reserve. What peers and the central store
    answer comes in as parameters. Bucket times are seconds, plan times nanoseconds, both on the pod's clock. */
module LeaseManager {
  import opened Options
  import opened TokenBucket
  import opened LeaseWindow
  import LeasePlan
  import LeaseBudget
  import LeaseLimits
  import PodBudget

  datatype Profile = Unknown | Chat | ChatMod | HelixGeneral | HelixSystem | HelixUser

  datatype Need = NeedStandard | NeedShared | NeedSystem

  datatype Share = Share(sharedRate: real, sharedBurst: int, standardRate: real, standardBurst: int)
  {
    function Signature(): Signature {
      Rates(sharedRate, sharedBurst, standardRate, standardBurst)
    }
  }

  datatype ActivePlan = ActivePlan(epoch: nat, generation: nat, window: Window,
                                   members: seq<LeasePlan.Member>, selfIndex: int, selfPod: string)
  {
    function ShareFor(profile: Profile): Option<Share> {
      if selfIndex < 0 then None else ComputeShare(profile, |members|, selfIndex)
    }

    function Config(share: Share): BucketConfig {
      BucketConfig(epoch, generation, selfPod, Seconds(window.notBefore), Seconds(window.notAfter),
                   share.sharedRate, share.sharedBurst, share.standardRate, share.standardBurst)
    }
  }

  function Seconds(ns: int): real {
    ns as real / 1000000000.0
  }

  function MakeSpec(capacity: real, refill: real): LeasePlan.Spec {
    if LeasePlan.NewSpec(capacity, refill).Some? then LeasePlan.NewSpec(capacity, refill).value else LeaseBudget.NO_SPEC
  }

  /** The shared and the standard budget of a profile. */
  function SpecsFor(profile: Profile): Option<(LeasePlan.Spec, LeasePlan.Spec)> {
    match profile
    case Unknown => None
    case Chat => Some((MakeSpec(20.0, 20.0 / 30.0), MakeSpec(10.0, 10.0 / 30.0)))
    case ChatMod => Some((MakeSpec(100.0, 100.0 / 30.0), MakeSpec(50.0, 50.0 / 30.0)))
    case HelixGeneral => Some((MakeSpec(700.0, 700.0 / 60.0), MakeSpec(350.0, 350.0 / 60.0)))
    case HelixSystem => Some((MakeSpec(100.0, 100.0 / 60.0), LeaseBudget.NO_SPEC))
    case HelixUser => Some((MakeSpec(800.0, 800.0 / 60.0), MakeSpec(400.0, 400.0 / 60.0)))
  }

  function ComputeShare(profile: Profile, members: int, rank: int): Option<Share> {
    match SpecsFor(profile)
    case None => None
    case Some((shared, standard)) =>
      var (sharedRate, sharedBurst) := LeasePlan.LocalShare(shared, members, rank);
      if sharedBurst <= 0 then None
      else
        var (standardRate, standardBurst) :=
          if standard.capacity != 0 then LeasePlan.LocalShare(standard, members, rank) else (0.0, 0);
        Some(Share(sharedRate, sharedBurst, standardRate, standardBurst))
  }

  // ---------- Leases on one bucket ----------

  /** The bucket under its share's signature; a new or reshaped one is configured first. */
  function Configured(bucket: Option<Local>, now: int, plan: ActivePlan, share: Share): Local {
    var l := if bucket.Some? then bucket.value else NEW_LOCAL;
    if bucket.Some? && l.config == share.Signature() then l else Updated(l, Seconds(now), plan.Config(share))
  }

  function Try(l: Local, now: int, plan: ActivePlan, standard: bool): (Local, Verdict) {
    if standard then TryStandard(l, Seconds(now), plan.epoch, plan.generation)
    else TryPremium(l, Seconds(now), plan.epoch, plan.generation)
  }

  /** A lease that finds the bucket behind the plan refreshes it and tries once more. */
  function Lease(l: Local, now: int, plan: ActivePlan, share: Share, standard: bool): (Local, bool) {
    var (l1, v1) := Try(l, now, plan, standard);
    if !v1.Behind? then (l1, v1.Admit?)
    else
      var (l2, v2) := Try(Updated(l1, Seconds(now), plan.Config(share)), now, plan, standard);
      (l2, v2.Admit?)
  }

  ghost predicate PlanOk(plan: ActivePlan) {
    plan.epoch != 0 && plan.generation != 0 && plan.selfPod != "" && plan.window.notBefore < plan.window.notAfter
  }

  ghost predicate ShareOk(share: Share) {
    && share.sharedRate > 0.0 && share.sharedBurst > 0
    && share.standardBurst >= 0 && (share.standardBurst > 0 ==> share.standardRate > 0.0)
  }

  /** Every share a plan gives is one a bucket accepts. */
  lemma SharesAreOk(plan: ActivePlan, profile: Profile)
    requires plan.selfIndex < |plan.members|
    ensures plan.ShareFor(profile).Some? ==> ShareOk(plan.ShareFor(profile).value)
  {
    match SpecsFor(profile)
    case None =>
    case Some((shared, standard)) =>
      if plan.selfIndex >= 0 {
        ProfilesAreSpecs(profile);
        LeaseBudget.SpecFacts(shared, |plan.members|, plan.selfIndex);
        LeaseBudget.SpecFacts(standard, |plan.members|, plan.selfIndex);
      }
  }

  lemma MadeSpec(capacity: real, refill: real)
    ensures LeaseBudget.IsSpec(MakeSpec(capacity, refill))
  {
    if LeasePlan.NewSpec(capacity, refill).Some? {
      LeasePlan.SpecReserves(capacity, refill);
    }
  }

  lemma ProfilesAreSpecs(profile: Profile)
    ensures SpecsFor(profile).Some? ==>
      LeaseBudget.IsSpec(SpecsFor(profile).value.0) && LeaseBudget.IsSpec(SpecsFor(profile).value.1)
  {
    MadeSpec(20.0, 20.0 / 30.0);
    MadeSpec(10.0, 10.0 / 30.0);
    MadeSpec(100.0, 100.0 / 30.0);
    MadeSpec(50.0, 50.0 / 30.0);
    MadeSpec(700.0, 700.0 / 60.0);
    MadeSpec(350.0, 350.0 / 60.0);
    MadeSpec(100.0, 100.0 / 60.0);
    MadeSpec(800.0, 800.0 / 60.0);
    MadeSpec(400.0, 400.0 / 60.0);
  }

  /** The capacity of a profile, and the seconds in which the provider grants it once. */
  function Grants(profile: Profile): (nat, nat)
    requires !profile.Unknown?
  {
    match profile
    case Chat => (20, 30)
    case ChatMod => (100, 30)
    case HelixGeneral => (700, 60)
    case HelixSystem => (100, 60)
    case HelixUser => (800, 60)
  }

  /** Every profile refills once in its period, its standard budget is half the shared one, and only the system's has
      none. */
  lemma ProfilesRefillOnce(profile: Profile)
    ensures SpecsFor(profile).None? <==> profile.Unknown?
    ensures !profile.Unknown? ==>
      var ((shared, standard), (capacity, seconds)) := (SpecsFor(profile).value, Grants(profile));
      && shared.capacity == capacity && shared.refill * seconds as real == capacity as real
      && (profile.HelixSystem? <==> standard == LeaseBudget.NO_SPEC)
      && (!profile.HelixSystem? ==>
            && 2 * standard.capacity == shared.capacity && 2.0 * standard.refill == shared.refill)
  {
    ProfilesAreSpecs(profile);
  }

  /** In every profile with a standard budget it is part of the shared one, and both leave the pods a share. */
  lemma ProfilesNest(profile: Profile)
    requires SpecsFor(profile).Some? && SpecsFor(profile).value.1 != LeaseBudget.NO_SPEC
    ensures var (shared, standard) := SpecsFor(profile).value;
      && LeasePlan.Sound(shared) && LeasePlan.Sound(standard) && LeaseLimits.Part(standard, shared)
      && standard.emergencyBurst < standard.capacity && shared.emergencyBurst < shared.capacity
  {
    ProfilesAreSpecs(profile);
  }

  /** A refreshed bucket is never behind: one retry is enough. */
  lemma OneRetryIsEnough(l: Local, now: int, plan: ActivePlan, share: Share, standard: bool)
    requires PlanOk(plan) && ShareOk(share)
    ensures !Try(Updated(l, Seconds(now), plan.Config(share)), now, plan, standard).1.Behind?
  {
    assert plan.window.notBefore as real / 1000000000.0 < plan.window.notAfter as real / 1000000000.0;
  }

  /** The bucket is the plan's own and holds a token, of each kind if the request takes both. */
  ghost predicate HoldsToken(l: Local, plan: ActivePlan, share: Share, standard: bool) {
    && l.config == share.Signature() && l.epoch == plan.epoch != 0 && l.generation == plan.generation
    && l.hasShared && Plenty(l.shared) && (standard ==> l.hasStandard && Plenty(l.standard))
  }

  ghost predicate Plenty(b: Bucket) {
    1.0 <= b.tokens <= b.burst && b.ratePerSec >= 0.0
  }

  lemma PlentyStays(b: Bucket, now: real)
    requires Plenty(b)
    ensures Refill(b, now).tokens >= 1.0
  {
    if now > b.last {
      PodBudget.Positive(b.ratePerSec, now - b.last);
      assert Accrued(b.ratePerSec, b.last, now) == PodBudget.Worth(b.ratePerSec, now - b.last);
    }
  }

  /** Such a bucket pays, whatever its age. */
  lemma TokenIsLeased(l: Local, now: int, plan: ActivePlan, share: Share, standard: bool)
    requires HoldsToken(l, plan, share, standard)
    ensures Configured(Some(l), now, plan, share) == l && Lease(l, now, plan, share, standard).1
  {
    PlentyStays(l.shared, Seconds(now));
    if standard {
      PlentyStays(l.standard, Seconds(now));
    }
  }

  /** The shares of the manager are those of the fleet's budget: under a plan, every pod has the share of its rank of
      its profile's budget, and has one exactly when that rank has a burst. */
  lemma SharesAreTerms(plan: ActivePlan, profile: Profile, b: LeaseBudget.Budget)
    requires 0 <= plan.selfIndex < |plan.members| == |b.holders| && plan.selfPod == b.holders[plan.selfIndex]
    requires SpecsFor(profile) == Some((b.shared, b.standard)) && b.generation == plan.generation
    ensures plan.ShareFor(profile).Some? <==> b.TermsAt(plan.selfIndex).sharedBurst > 0
    ensures plan.ShareFor(profile).Some? ==>
      TermsOf(plan, plan.ShareFor(profile).value) == b.TermsAt(plan.selfIndex)
  {
    if b.standard.capacity == 0 {
      ProfilesAreSpecs(profile);
      LeasePlan.NothingToShare(|b.holders|, plan.selfIndex);
      assert 0.0 / |b.holders| as real == 0.0;
    }
  }

  // ---------- The same lease as steps of the fleet ----------

  function TermsOf(plan: ActivePlan, share: Share): PodBudget.Terms {
    PodBudget.Terms(plan.generation, plan.selfPod, share.sharedRate, share.sharedBurst,
                    share.standardRate, share.standardBurst)
  }

  function RefreshOp(i: nat, now: int, plan: ActivePlan): PodBudget.Op {
    PodBudget.Refresh(i, Seconds(now), plan.epoch, Seconds(plan.window.notBefore), Seconds(plan.window.notAfter))
  }

  function TryOp(i: nat, now: int, plan: ActivePlan, standard: bool): PodBudget.Op {
    PodBudget.Op.Spend(i, Seconds(now), plan.epoch, plan.generation, standard)
  }

  /** The bucket that the pod's map names, and the place in the model where a caller finds it or puts a new one. */
  function Mapped(pod: PodBudget.Pod): Option<Local> {
    if pod.mapped.Some? && pod.mapped.value < |pod.objects| then Some(pod.objects[pod.mapped.value].l) else None
  }

  function Place(pod: PodBudget.Pod): nat {
    if pod.mapped.Some? then pod.mapped.value else |pod.objects|
  }

  ghost predicate Maps(pod: PodBudget.Pod, i: nat, l: Local) {
    pod.mapped == Some(i) && i < |pod.objects| && pod.objects[i].l == l
  }

  /** The locked sections that configure a bucket, and those of a lease on a configured one. */
  function ConfigureOps(bucket: Option<Local>, i: nat, now: int, plan: ActivePlan, share: Share): seq<PodBudget.Op> {
    if bucket.None? then [PodBudget.Install] + [RefreshOp(i, now, plan)]
    else if bucket.value.config == share.Signature() then []
    else [RefreshOp(i, now, plan)]
  }

  function LeaseOps(l: Local, i: nat, now: int, plan: ActivePlan, standard: bool): seq<PodBudget.Op> {
    var attempt := [TryOp(i, now, plan, standard)];
    if Try(l, now, plan, standard).1.Behind? then attempt + [RefreshOp(i, now, plan)] + attempt else attempt
  }

  lemma RefreshSets(pod: PodBudget.Pod, i: nat, l: Local, now: int, plan: ActivePlan, share: Share,
                    lane: PodBudget.Lane)
    requires Maps(pod, i, l)
    ensures Maps(PodBudget.Step(TermsOf(plan, share), pod, RefreshOp(i, now, plan)), i,
                 Updated(l, Seconds(now), plan.Config(share)))
    ensures PodBudget.Pays(TermsOf(plan, share), pod, RefreshOp(i, now, plan), lane) == 0
  {
  }

  lemma TrySets(pod: PodBudget.Pod, i: nat, l: Local, now: int, plan: ActivePlan, share: Share, standard: bool,
                lane: PodBudget.Lane)
    requires Maps(pod, i, l)
    ensures Maps(PodBudget.Step(TermsOf(plan, share), pod, TryOp(i, now, plan, standard)), i,
                 Try(l, now, plan, standard).0)
    ensures PodBudget.Pays(TermsOf(plan, share), pod, TryOp(i, now, plan, standard), lane)
         == if Try(l, now, plan, standard).1.Admit? && (standard || lane.Shared?) then 1 else 0
  {
  }

  lemma ConfigureIsSteps(pod: PodBudget.Pod, now: int, plan: ActivePlan, share: Share, lane: PodBudget.Lane)
    requires pod.mapped.Some? ==> pod.mapped.value < |pod.objects|
    ensures var terms, ops := TermsOf(plan, share), ConfigureOps(Mapped(pod), Place(pod), now, plan, share);
      && Maps(PodBudget.After(terms, pod, ops), Place(pod), Configured(Mapped(pod), now, plan, share))
      && PodBudget.Paid(terms, pod, ops, lane) == 0
  {
    var terms, i := TermsOf(plan, share), Place(pod);
    if pod.mapped.None? {
      Installs(terms, pod, lane);
      RefreshAfter(pod, [PodBudget.Install], i, NEW_LOCAL, now, plan, share, lane);
    } else if Mapped(pod).value.config != share.Signature() {
      RefreshAfter(pod, [], i, Mapped(pod).value, now, plan, share, lane);
      assert [] + [RefreshOp(i, now, plan)] == [RefreshOp(i, now, plan)];
    }
  }

  lemma Installs(terms: PodBudget.Terms, pod: PodBudget.Pod, lane: PodBudget.Lane)
    requires pod.mapped.None?
    ensures Maps(PodBudget.After(terms, pod, [PodBudget.Install]), |pod.objects|, NEW_LOCAL)
    ensures PodBudget.Paid(terms, pod, [PodBudget.Install], lane) == 0
  {
    assert [PodBudget.Install][..0] == [];
  }

  lemma RefreshAfter(pod: PodBudget.Pod, ops: seq<PodBudget.Op>, i: nat, l: Local, now: int, plan: ActivePlan,
                     share: Share, lane: PodBudget.Lane)
    requires Maps(PodBudget.After(TermsOf(plan, share), pod, ops), i, l)
    ensures var terms, all := TermsOf(plan, share), ops + [RefreshOp(i, now, plan)];
      && Maps(PodBudget.After(terms, pod, all), i, Updated(l, Seconds(now), plan.Config(share)))
      && PodBudget.Paid(terms, pod, all, lane) == PodBudget.Paid(terms, pod, ops, lane)
  {
    PodBudget.OneMore(TermsOf(plan, share), lane, pod, ops, RefreshOp(i, now, plan));
    RefreshSets(PodBudget.After(TermsOf(plan, share), pod, ops), i, l, now, plan, share, lane);
  }

  lemma TryAfter(pod: PodBudget.Pod, ops: seq<PodBudget.Op>, i: nat, l: Local, now: int, plan: ActivePlan, share: Share,
                 standard: bool, lane: PodBudget.Lane)
    requires Maps(PodBudget.After(TermsOf(plan, share), pod, ops), i, l)
    ensures var terms, all := TermsOf(plan, share), ops + [TryOp(i, now, plan, standard)];
      && Maps(PodBudget.After(terms, pod, all), i, Try(l, now, plan, standard).0)
      && PodBudget.Paid(terms, pod, all, lane)
         == PodBudget.Paid(terms, pod, ops, lane)
            + if Try(l, now, plan, standard).1.Admit? && (standard || lane.Shared?) then 1 else 0
  {
    PodBudget.OneMore(TermsOf(plan, share), lane, pod, ops, TryOp(i, now, plan, standard));
    TrySets(PodBudget.After(TermsOf(plan, share), pod, ops), i, l, now, plan, share, standard, lane);
  }

  /** A lease on bucket `i`, after the steps `ops`. */
  lemma LeaseIsSteps(pod: PodBudget.Pod, ops: seq<PodBudget.Op>, i: nat, l: Local, now: int, plan: ActivePlan,
                     share: Share,
                     standard: bool, lane: PodBudget.Lane)
    requires PlanOk(plan) && ShareOk(share) && Maps(PodBudget.After(TermsOf(plan, share), pod, ops), i, l)
    ensures var terms, all := TermsOf(plan, share), ops + LeaseOps(l, i, now, plan, standard);
      var (after, paid) := Lease(l, now, plan, share, standard);
      && Maps(PodBudget.After(terms, pod, all), i, after)
      && PodBudget.Paid(terms, pod, all, lane) == PodBudget.Paid(terms, pod, ops, lane)
            + if paid && (standard || lane.Shared?) then 1 else 0
  {
    var attempt := TryOp(i, now, plan, standard);
    TryAfter(pod, ops, i, l, now, plan, share, standard, lane);
    if Try(l, now, plan, standard).1.Behind? {
      LeaseAgain(pod, ops + [attempt], i, Try(l, now, plan, standard).0, now, plan, share, standard, lane);
      TriedAgain(ops, attempt, RefreshOp(i, now, plan));
    }
  }

  lemma TriedAgain(ops: seq<PodBudget.Op>, attempt: PodBudget.Op, refresh: PodBudget.Op)
    ensures ops + ([attempt] + [refresh] + [attempt]) == ops + [attempt] + [refresh] + [attempt]
  {
  }

  /** The second attempt, on a refreshed bucket. */
  lemma LeaseAgain(pod: PodBudget.Pod, ops: seq<PodBudget.Op>, i: nat, l: Local, now: int, plan: ActivePlan,
                   share: Share,
                   standard: bool, lane: PodBudget.Lane)
    requires PlanOk(plan) && ShareOk(share) && Maps(PodBudget.After(TermsOf(plan, share), pod, ops), i, l)
    ensures var terms, all := TermsOf(plan, share), ops + [RefreshOp(i, now, plan)] + [TryOp(i, now, plan, standard)];
      var (after, verdict) := Try(Updated(l, Seconds(now), plan.Config(share)), now, plan, standard);
      && Maps(PodBudget.After(terms, pod, all), i, after)
      && PodBudget.Paid(terms, pod, all, lane) == PodBudget.Paid(terms, pod, ops, lane)
            + if verdict.Admit? && (standard || lane.Shared?) then 1 else 0
  {
    RefreshAfter(pod, ops, i, l, now, plan, share, lane);
    TryAfter(pod, ops + [RefreshOp(i, now, plan)], i, Updated(l, Seconds(now), plan.Config(share)), now, plan, share,
             standard, lane);
  }

  /** Configuring the bucket that the pod's map names and leasing from it are exactly those locked sections of the
      pod's model: the same bucket afterwards, and a token paid in each lane exactly when the lease says so. */
  lemma AdmissionIsSteps(pod: PodBudget.Pod, now: int, plan: ActivePlan, share: Share, standard: bool,
                         lane: PodBudget.Lane)
    requires PlanOk(plan) && ShareOk(share) && (pod.mapped.Some? ==> pod.mapped.value < |pod.objects|)
    ensures var l, terms := Configured(Mapped(pod), now, plan, share), TermsOf(plan, share);
      var ops := ConfigureOps(Mapped(pod), Place(pod), now, plan, share) + LeaseOps(l, Place(pod), now, plan, standard);
      var (after, paid) := Lease(l, now, plan, share, standard);
      && Mapped(PodBudget.After(terms, pod, ops)) == Some(after)
      && PodBudget.Paid(terms, pod, ops, lane) == if paid && (standard || lane.Shared?) then 1 else 0
  {
    var l := Configured(Mapped(pod), now, plan, share);
    ConfigureIsSteps(pod, now, plan, share, lane);
    LeaseIsSteps(pod, ConfigureOps(Mapped(pod), Place(pod), now, plan, share), Place(pod), l, now, plan, share,
                 standard, lane);
  }

  // ---------- Activation ----------

  /** The ids every pod keeps a bucket for, with their profiles. */
  const FIXED: seq<(string, Profile)> :=
    [("helix:app", HelixGeneral), ("helix:system", HelixSystem), ("helix:user:bot", HelixUser)]

  /** A fixed bucket brought under a new plan: renewed when it already belongs to this generation and pod. */
  function PrimedBucket(bucket: Option<Local>, now: int, plan: ActivePlan, share: Share): Local {
    var l := Configured(bucket, now, plan, share);
    if l.generation != plan.generation || l.holder != plan.selfPod then Updated(l, Seconds(now), plan.Config(share))
    else l.(epoch := plan.epoch, notBefore := Seconds(plan.window.notBefore), notAfter := Seconds(plan.window.notAfter))
  }

  function Primed(buckets: map<string, Local>, now: int, plan: ActivePlan, n: nat): map<string, Local>
    requires n <= |FIXED|
  {
    if n == 0 then buckets
    else
      var before := Primed(buckets, now, plan, n - 1);
      var (id, profile) := FIXED[n - 1];
      var share := plan.ShareFor(profile);
      if share.None? then before
      else before[id := PrimedBucket(if id in before then Some(before[id]) else None, now, plan, share.value)]
  }

  /** A bucket is dropped when its window ended before the cutoff, or when it was never configured. */
  predicate Expired(l: Local, cutoff: int) {
    l.config.Unset? || l.notAfter <= Seconds(cutoff)
  }

  /** The drop of the pod's model is the one an activation makes. */
  lemma DropAgrees(l: Local, localNow: int, window: Window)
    ensures Expired(l, localNow - 2 * (window.notAfter - window.notBefore))
       <==> PodBudget.Expired(l, Seconds(localNow), Seconds(window.notBefore), Seconds(window.notAfter))
  {
  }

  function Kept(buckets: map<string, Local>, cutoff: int): map<string, Local> {
    map id | id in buckets && !Expired(buckets[id], cutoff) :: buckets[id]
  }

  /** The bucket already holds this share for this pod in this generation. */
  ghost predicate AlreadyHeld(bucket: Option<Local>, plan: ActivePlan, share: Share) {
    && bucket.Some? && bucket.value.config == share.Signature()
    && bucket.value.generation == plan.generation && bucket.value.holder == plan.selfPod
  }

  /** A primed bucket belongs to the plan whatever it was before, and keeps its tokens and accounts when only the
      epoch changed. */
  lemma PrimingBelongs(bucket: Option<Local>, now: int, plan: ActivePlan, share: Share, standard: bool)
    requires PlanOk(plan) && ShareOk(share)
    ensures var l := PrimedBucket(bucket, now, plan, share);
      && !Try(l, now, plan, standard).1.Behind?
      && l.config == share.Signature() && !l.config.Unset?
      && (AlreadyHeld(bucket, plan, share) ==> l.shared == bucket.value.shared && l.standard == bucket.value.standard)
  {
    OneRetryIsEnough(Configured(bucket, now, plan, share), now, plan, share, standard);
    OneRetryIsEnough(NEW_LOCAL, now, plan, share, standard);
    if bucket.Some? {
      OneRetryIsEnough(bucket.value, now, plan, share, standard);
    }
  }

  /** The place of a fixed id, or none. */
  function PlaceOf(id: string): (k: Option<nat>)
    ensures k.Some? ==> k.value < |FIXED| && FIXED[k.value].0 == id
    ensures k.None? ==> forall j :: 0 <= j < |FIXED| ==> FIXED[j].0 != id
  {
    if id == "helix:app" then Some(0)
    else if id == "helix:system" then Some(1)
    else if id == "helix:user:bot" then Some(2)
    else None
  }

  function Find(buckets: map<string, Local>, id: string): Option<Local> {
    if id in buckets then Some(buckets[id]) else None
  }

  /** Priming touches the fixed ids of which the plan gives this pod a share, each once, and no other bucket. */
  lemma {:induction false} PrimedAre(buckets: map<string, Local>, now: int, plan: ActivePlan, n: nat, id: string)
    requires n <= |FIXED|
    ensures var k := PlaceOf(id);
      Find(Primed(buckets, now, plan, n), id)
        == if k.Some? && k.value < n && plan.ShareFor(FIXED[k.value].1).Some?
           then Some(PrimedBucket(Find(buckets, id), now, plan, plan.ShareFor(FIXED[k.value].1).value))
           else Find(buckets, id)
  {
    if n > 0 {
      PrimedAre(buckets, now, plan, n - 1, id);
      assert FIXED[n - 1].0 == id ==> PlaceOf(id) == Some(n - 1);
    }
  }

  /** After an activation in time every fixed bucket with a share is there and current, with the tokens it had if it
      belonged to the plan's generation and pod; every other bucket is there exactly if it was and has not expired,
      unchanged. */
  lemma AfterActivation(buckets: map<string, Local>, now: int, plan: ActivePlan, id: string)
    requires PlanOk(plan) && plan.selfIndex < |plan.members|
    ensures var cutoff := now - 2 * (plan.window.notAfter - plan.window.notBefore);
      var (k, after) := (PlaceOf(id), Kept(Primed(buckets, now, plan, |FIXED|), cutoff));
      if k.Some? && plan.ShareFor(FIXED[k.value].1).Some? then
        var share := plan.ShareFor(FIXED[k.value].1).value;
        && (id in after <==> cutoff < plan.window.notAfter)
        && (id in after ==> !Try(after[id], now, plan, false).1.Behind?)
        && (id in after && AlreadyHeld(Find(buckets, id), plan, share) ==>
              after[id].shared == buckets[id].shared && after[id].standard == buckets[id].standard)
      else
        && (id in after <==> id in buckets && !Expired(buckets[id], cutoff))
        && (id in after ==> after[id] == buckets[id])
  {
    var primed := Primed(buckets, now, plan, |FIXED|);
    PrimedAre(buckets, now, plan, |FIXED|, id);
    var k := PlaceOf(id);
    if k.Some? && plan.ShareFor(FIXED[k.value].1).Some? {
      var share := plan.ShareFor(FIXED[k.value].1).value;
      SharesAreOk(plan, FIXED[k.value].1);
      PrimingBelongs(Find(buckets, id), now, plan, share, false);
      PrimingHasWindow(Find(buckets, id), now, plan, share);
      assert primed[id] == PrimedBucket(Find(buckets, id), now, plan, share);
    } else {
      assert Find(primed, id) == Find(buckets, id);
    }
  }

  lemma PrimingHasWindow(bucket: Option<Local>, now: int, plan: ActivePlan, share: Share)
    requires PlanOk(plan) && ShareOk(share)
    ensures PrimedBucket(bucket, now, plan, share).notAfter == Seconds(plan.window.notAfter)
  {
    assert plan.window.notBefore as real / 1000000000.0 < plan.window.notAfter as real / 1000000000.0;
  }

  // ---------- The manager ----------

  /** The peers a pod borrows from: its own region first, each in canonical order. */
  function Peers(members: seq<LeasePlan.Member>, self: int, region: string, local: bool, n: nat): seq<nat>
    requires n <= |members|
  {
    if n == 0 then []
    else
      Peers(members, self, region, local, n - 1)
      + if n - 1 != self && (members[n - 1].region == region) == local then [n - 1] else []
  }

  function BorrowOrder(members: seq<LeasePlan.Member>, self: int, region: string): seq<nat> {
    Peers(members, self, region, true, |members|) + Peers(members, self, region, false, |members|)
  }

  lemma {:induction false} PeersAre(members: seq<LeasePlan.Member>, self: int, region: string, local: bool, n: nat)
    requires n <= |members|
    ensures var ps := Peers(members, self, region, local, n);
      && (forall k: nat :: k in ps <==> k < n && k != self && (members[k].region == region) == local)
      && (forall i, j :: 0 <= i < j < |ps| ==> ps[i] < ps[j])
  {
    if n > 0 {
      PeersAre(members, self, region, local, n - 1);
      var before, ps := Peers(members, self, region, local, n - 1), Peers(members, self, region, local, n);
      forall k: nat
        ensures k in ps <==> k in before || (k == n - 1 && k != self && (members[k].region == region) == local) {
      }
      forall i, j | 0 <= i < j < |ps| ensures ps[i] < ps[j] {
        assert ps[i] in before;
      }
    }
  }

  /** Every other member is in the order exactly once, and no remote one comes before a local one. */
  lemma BorrowOrderIsComplete(members: seq<LeasePlan.Member>, self: int, region: string)
    ensures var order := BorrowOrder(members, self, region);
      && (forall k: nat :: k in order <==> k < |members| && k != self)
      && (forall i, j :: 0 <= i < j < |order| ==> order[i] != order[j])
      && (forall i, j :: 0 <= i < j < |order| && order[j] < |members| && members[order[j]].region == region ==>
            order[i] < |members| && members[order[i]].region == region)
  {
    PeersAre(members, self, region, true, |members|);
    PeersAre(members, self, region, false, |members|);
    var near, far := Peers(members, self, region, true, |members|), Peers(members, self, region, false, |members|);
    var order := BorrowOrder(members, self, region);
    assert order == near + far;
    forall i, j | 0 <= i < j < |order|
      ensures order[i] != order[j]
      ensures order[j] < |members| && members[order[j]].region == region ==>
        order[i] < |members| && members[order[i]].region == region
    {
      assert order[i] in (if i < |near| then near else far);
      assert order[j] in (if j < |near| then near else far);
    }
  }

  /** What the world answers an admission with: each peer's paid needs if it answers in time, whether a borrow
      slot and a reserve slot are free, and the central store's decision. */
  datatype World = World(peers: map<nat, set<Need>>, permits: bool, borrowSlot: bool, reserveSlot: bool, central: bool)

  /** What an admission did: its decision, the peers it asked, and the generation whose reserve it asked. */
  datatype Outcome = Outcome(allowed: bool, asked: seq<nat>, reserve: Option<nat>)

  const REFUSED := Outcome(false, [], None)

  function FromReserve(world: World, generation: nat, asked: seq<nat>): Outcome {
    if world.reserveSlot then Outcome(world.central, asked, Some(generation)) else Outcome(false, asked, None)
  }

  /** What a peer's answer adds; an answer that pays for more than was asked is dropped. */
  function Answer(world: World, peer: nat, wanted: set<Need>): set<Need> {
    if peer in world.peers && world.peers[peer] <= wanted then world.peers[peer] else {}
  }

  /** What the first `n` peers of the order pay together. */
  function PaidBy(world: World, order: seq<nat>, need: set<Need>, n: nat): set<Need>
    requires n <= |order|
  {
    if n == 0 then {}
    else
      var before := PaidBy(world, order, need, n - 1);
      before + Answer(world, order[n - 1], need - before)
  }

  predicate Pays(world: World, peer: nat, what: set<Need>) {
    peer in world.peers && world.peers[peer] == what
  }

  /** The peer does not answer, has nothing, or answers with more than it may. */
  predicate Useless(world: World, peer: nat, need: set<Need>) {
    peer !in world.peers || world.peers[peer] == {} || !(world.peers[peer] <= need)
  }

  /** The order's first peer pays everything. */
  predicate FirstPays(world: World, order: seq<nat>, need: set<Need>) {
    order != [] && Pays(world, order[0], need)
  }

  /** The second peer pays what the first has left unpaid, be it a part or everything. */
  predicate SecondPays(world: World, order: seq<nat>, need: set<Need>) {
    && |order| > 1
    && if Useless(world, order[0], need) then Pays(world, order[1], need)
       else world.peers[order[0]] != need && Pays(world, order[1], need - world.peers[order[0]])
  }

  /** Neither of the two pays anything. */
  predicate NobodyPays(world: World, order: seq<nat>, need: set<Need>) {
    forall k :: 0 <= k < |order| && k < 2 ==> Useless(world, order[k], need)
  }

  /** The pod's own bucket did not pay, and a chat request may borrow only if the pod knew its bucket. */
  predicate MayBorrow(p: ActivePlan, profile: Profile, own: Option<(Local, bool)>, known: bool) {
    && (own.Some? ==> !own.value.1)
    && (p.selfIndex >= 0 && (profile.Chat? || profile.ChatMod?) ==> own.Some? && known)
  }

  datatype Request = Request(epoch: nat, generation: nat, id: string, profile: Profile, need: set<Need>, share: Share)

  datatype Reply = Granted(paid: set<Need>) | Empty | Stale | Invalid

  class LeaseManager {
    const pod: string
    const region: string
    var plan: Option<ActivePlan>
    var buckets: map<string, Local>

    constructor (pod: string, region: string)
      ensures this.pod == pod && this.region == region && plan == None && buckets == map[]
    {
      this.pod, this.region := pod, region;
      plan, buckets := None, map[];
    }

    function Bucket(id: string): Option<Local>
      reads this
    {
      if id in buckets then Some(buckets[id]) else None
    }

    function Active(now: int): Option<ActivePlan>
      reads this
    {
      if plan.Some? && plan.value.window.Covers(now) then plan else None
    }

    /** Stores a plan and opens its window; a plan that is not valid, or whose window the guard consumes, changes
        nothing. */
    method ActivatePlan(p: LeasePlan.Plan, serverNow: int, localNow: int, guard: int) returns (ok: bool)
      modifies this
      ensures var w := Opened(p.content.validFrom, p.content.validUntil, serverNow, localNow, guard);
        ok <==> LeasePlan.Valid(p) && w.notBefore < w.notAfter
      ensures !ok ==> plan == old(plan) && buckets == old(buckets)
      ensures ok ==>
        && plan.Some? && plan.value.epoch == p.content.epoch && plan.value.generation == p.content.generation
        && plan.value.window == Opened(p.content.validFrom, p.content.validUntil, serverNow, localNow, guard)
        && plan.value.members == LeasePlan.Canonical(p.content).members
        && (plan.value.selfIndex >= 0 ==>
              && plan.value.selfIndex < |plan.value.members|
              && plan.value.members[plan.value.selfIndex].pod == pod == plan.value.selfPod)
        && (plan.value.selfIndex < 0 ==> forall m :: m in plan.value.members ==> m.pod != pod)
        && buckets == Kept(Primed(old(buckets), localNow, plan.value, |FIXED|),
                           localNow - 2 * (plan.value.window.notAfter - plan.value.window.notBefore))
    {
      var valid := LeasePlan.Validate(p);
      if !valid {
        return false;
      }
      var canonical := LeasePlan.Canonical(p.content);
      var selfIndex := LeasePlan.SelfIndex(canonical.members, pod);
      var window := Opened(canonical.validFrom, canonical.validUntil, serverNow, localNow, guard);
      if window.notBefore >= window.notAfter {
        return false;
      }
      var active := ActivePlan(canonical.epoch, canonical.generation, window, canonical.members, selfIndex,
                               if selfIndex >= 0 then pod else "");
      plan := Some(active);
      for i := 0 to |FIXED|
        invariant plan == Some(active) && buckets == Primed(old(buckets), localNow, active, i)
      {
        var (id, profile) := FIXED[i];
        var share := active.ShareFor(profile);
        if share.Some? {
          buckets := buckets[id := PrimedBucket(Bucket(id), localNow, active, share.value)];
        }
      }
      buckets := Kept(buckets, localNow - 2 * (window.notAfter - window.notBefore));
      ok := true;
    }

    /** What a lease from the pod's own bucket comes to, if the plan gives a share. */
    function Leased(p: ActivePlan, id: string, profile: Profile, standard: bool, now: int): Option<(Local, bool)>
      reads this
    {
      var share := p.ShareFor(profile);
      if share.None? || (standard && share.value.standardBurst <= 0) then None
      else Some(Lease(Configured(Bucket(id), now, p, share.value), now, p, share.value, standard))
    }

    lemma HeldTokenPays(p: ActivePlan, id: string, profile: Profile, standard: bool, now: int)
      ensures var share := p.ShareFor(profile);
        share.Some? && (standard ==> share.value.standardBurst > 0) && id in buckets &&
          HoldsToken(buckets[id], p, share.value, standard) ==>
        Leased(p, id, profile, standard, now).Some? && Leased(p, id, profile, standard, now).value.1
    {
      var share := p.ShareFor(profile);
      if share.Some? && id in buckets && HoldsToken(buckets[id], p, share.value, standard) {
        TokenIsLeased(buckets[id], now, p, share.value, standard);
      }
    }

    /** Leases a token of one id under the plan's share, if the plan gives this pod one. */
    method TryLocal(p: ActivePlan, id: string, profile: Profile, standard: bool, now: int)
      returns (paid: bool, existed: bool)
      modifies this`buckets
      ensures match old(Leased(p, id, profile, standard, now))
        case None => !paid && !existed && buckets == old(buckets)
        case Some((l, ok)) => paid == ok && existed == (id in old(buckets)) && buckets == old(buckets)[id := l]
    {
      var share := p.ShareFor(profile);
      if share.None? || (standard && share.value.standardBurst <= 0) {
        return false, false;
      }
      existed := id in buckets;
      var l := Configured(Bucket(id), now, p, share.value);
      var r := Lease(l, now, p, share.value, standard);
      buckets := buckets[id := r.0];
      paid := r.1;
    }

    /** Asks at most two peers for what is still unpaid. */
    method Borrow(p: ActivePlan, need: set<Need>, world: World) returns (paid: set<Need>, asked: seq<nat>)
      ensures paid <= need && |asked| <= 2
      ensures !world.permits || |p.members| < 2 || !world.borrowSlot ==> paid == {} && asked == []
      ensures asked <= BorrowOrder(p.members, p.selfIndex, region)
      ensures paid == PaidBy(world, BorrowOrder(p.members, p.selfIndex, region), need, |asked|)
      ensures world.permits && |p.members| >= 2 && world.borrowSlot && !(need <= paid) ==>
        |asked| == 2 || asked == BorrowOrder(p.members, p.selfIndex, region)
      // What that means for the peers' answers.
      ensures world.permits && |p.members| >= 2 && world.borrowSlot && need != {} ==>
        var order := BorrowOrder(p.members, p.selfIndex, region);
        && (FirstPays(world, order, need) ==> paid == need && asked == order[..1])
        && (SecondPays(world, order, need) ==> paid == need && asked == order[..2])
        && (NobodyPays(world, order, need) ==> paid == {} && asked == if |order| < 2 then order else order[..2])
      ensures forall x :: x in paid ==>
        exists k :: 0 <= k < |asked| && asked[k] in world.peers && x in world.peers[asked[k]]
    {
      paid, asked := {}, [];
      if !world.permits || |p.members| < 2 || !world.borrowSlot {
        return;
      }
      var order := BorrowOrder(p.members, p.selfIndex, region);
      var attempts: nat := 0;
      while attempts < 2 && attempts < |order|
        invariant attempts <= 2 && attempts <= |order|
        invariant asked == order[..attempts] && paid <= need
        invariant paid == PaidBy(world, order, need, attempts)
        invariant attempts > 0 ==> !(need <= paid)
        invariant forall x :: x in paid ==>
          exists k :: 0 <= k < attempts && order[k] in world.peers && x in world.peers[order[k]]
      {
        paid := paid + Answer(world, order[attempts], need - paid);
        attempts := attempts + 1;
        asked := order[..attempts];
        if need <= paid {
          return;
        }
      }
    }

    /** What is left when the pod's own bucket has not paid: the peers, and then the reserve. */
    method AskOthers(p: ActivePlan, need: set<Need>, world: World) returns (o: Outcome)
      requires need != {}
      ensures o.reserve.Some? ==> o.reserve.value == p.generation && world.reserveSlot && o.allowed == world.central
      ensures |o.asked| <= 2 && p.selfIndex !in o.asked && o.asked <= BorrowOrder(p.members, p.selfIndex, region)
      ensures o.allowed && o.reserve.None? ==>
        o.asked != [] && need <= PaidBy(world, BorrowOrder(p.members, p.selfIndex, region), need, |o.asked|)
      ensures !o.allowed && o.reserve.None? ==> !world.reserveSlot
      // The peers are asked before the reserve.
      ensures world.permits && |p.members| >= 2 && world.borrowSlot ==>
        var order := BorrowOrder(p.members, p.selfIndex, region);
        && (FirstPays(world, order, need) ==> o == Outcome(true, order[..1], None))
        && (SecondPays(world, order, need) ==> o == Outcome(true, order[..2], None))
        && (NobodyPays(world, order, need) ==>
              o == FromReserve(world, p.generation, if |order| < 2 then order else order[..2]))
    {
      var lent, asked := Borrow(p, need, world);
      AskedAreOthers(p, asked, region);
      if lent == need {
        return Outcome(true, asked, None);
      }
      o := FromReserve(world, p.generation, asked);
    }

    /** Admits a premium request (`standard` false) or an ordered one. */
    method Allow(id: string, profile: Profile, standard: bool, now: int, world: World) returns (o: Outcome)
      modifies this`buckets
      // Before any plan: only the reserve of generation 1.
      ensures plan.None? ==> o == FromReserve(world, 1, []) && buckets == old(buckets)
      // Outside the stored plan's window: nothing is spent anywhere.
      ensures plan.Some? && !plan.value.window.Covers(now) ==> o == REFUSED && buckets == old(buckets)
      // Inside it, the id's own bucket is leased from, and no other changes.
      ensures plan.Some? && plan.value.window.Covers(now) ==>
        buckets == match old(Leased(plan.value, id, profile, standard, now))
          case None => old(buckets)
          case Some((l, _)) => old(buckets)[id := l]
      ensures plan.Some? && o.reserve.Some? ==> o.reserve.value == plan.value.generation
      ensures |o.asked| <= 2 && (plan.None? ==> o.asked == [])
      ensures plan.Some? ==>
        plan.value.selfIndex !in o.asked && o.asked <= BorrowOrder(plan.value.members, plan.value.selfIndex, region)
      // An admission is paid for: by the pod's own bucket, by the peers it asked, or by the reserve.
      ensures plan.Some? && plan.value.window.Covers(now) ==>
        var own := old(Leased(plan.value, id, profile, standard, now));
        && (o == Outcome(true, [], None) <== own.Some? && own.value.1)
        && (o.allowed && o.reserve.None? && o.asked == [] ==> own.Some? && own.value.1)
      ensures o.allowed && plan.Some? && o.reserve.None? && o.asked != [] ==>
        NeedOf(profile, standard) <= PaidBy(world, BorrowOrder(plan.value.members, plan.value.selfIndex, region),
                                            NeedOf(profile, standard), |o.asked|)
      ensures o.reserve.Some? ==> world.reserveSlot && o.allowed == world.central
      // A bucket of the plan that holds a token pays.
      ensures plan.Some? && plan.value.window.Covers(now) && id in old(buckets) ==>
        var share := plan.value.ShareFor(profile);
        share.Some? && (standard ==> share.value.standardBurst > 0) &&
          HoldsToken(old(buckets[id]), plan.value, share.value, standard) ==>
        o == Outcome(true, [], None)
      // A request inside the window is refused only after the reserve was asked or found busy.
      ensures plan.Some? && plan.value.window.Covers(now) && !o.allowed && o.reserve.None? ==> !world.reserveSlot
      // When the pod's own bucket does not pay, the peers are asked before the reserve.
      ensures plan.Some? && plan.value.window.Covers(now) && world.permits && |plan.value.members| >= 2 ==>
        var p, own := plan.value, old(Leased(plan.value, id, profile, standard, now));
        var order, need := BorrowOrder(p.members, p.selfIndex, region), NeedOf(profile, standard);
        world.borrowSlot && MayBorrow(p, profile, own, id in old(buckets)) ==>
          && (FirstPays(world, order, need) ==> o == Outcome(true, order[..1], None))
          && (SecondPays(world, order, need) ==> o == Outcome(true, order[..2], None))
          && (NobodyPays(world, order, need) ==>
            o == FromReserve(world, p.generation, if |order| < 2 then order else order[..2]))
      // A chat bucket the pod has only just created does not borrow.
      ensures plan.Some? && plan.value.selfIndex >= 0 && (profile.Chat? || profile.ChatMod?) ==>
        id in old(buckets) || o.asked == []
    {
      if plan.None? {
        return FromReserve(world, 1, []);
      }
      var p := plan.value;
      if !p.window.Covers(now) {
        return REFUSED;
      }
      HeldTokenPays(p, id, profile, standard, now);
      var paid, existed := TryLocal(p, id, profile, standard, now);
      if paid {
        return Outcome(true, [], None);
      }
      if p.selfIndex >= 0 && !existed && (profile.Chat? || profile.ChatMod?) {
        return FromReserve(world, p.generation, []);
      }
      o := AskOthers(p, NeedOf(profile, standard), world);
    }

    /** Serves a peer's borrow request from this pod's own bucket. */
    method GrantPermit(now: int, r: Request) returns (reply: Reply)
      modifies this`buckets
      ensures Active(now).None? ==> reply == Reply.Stale
      ensures Active(now).Some? && (plan.value.epoch, plan.value.generation) != (r.epoch, r.generation) ==>
        reply == Reply.Stale
      ensures reply.Stale? ==> buckets == old(buckets)
      ensures !reply.Stale? ==> Active(now).Some?
      ensures !reply.Stale? && Mismatched(plan.value, r) ==> reply == Invalid && buckets == old(buckets)
      ensures !reply.Stale? && !Mismatched(plan.value, r) && !KnownNeed(r.need) ==> reply == Invalid
      ensures !reply.Stale? && !Mismatched(plan.value, r) && KnownNeed(r.need) ==>
        var share := plan.value.ShareFor(r.profile).value;
        var own := Lease(Configured(old(Bucket(r.id)), now, plan.value, share), now, plan.value, share,
                         r.need == {NeedStandard, NeedShared});
        buckets == old(buckets)[r.id := own.0] && reply == if own.1 then Granted(r.need) else Empty
      ensures forall id :: id != r.id ==>
        ((id in buckets) == (id in old(buckets))) && (id in buckets ==> buckets[id] == old(buckets[id]))
    {
      var p := Active(now);
      if p.None? || p.value.epoch != r.epoch || p.value.generation != r.generation {
        return Reply.Stale;
      }
      var share := p.value.ShareFor(r.profile);
      if share.None? || !Matches(r.share, share.value) {
        return Invalid;
      }
      var l := Configured(Bucket(r.id), now, p.value, share.value);
      buckets := buckets[r.id := l];
      if r.need == {NeedShared} || r.need == {NeedSystem} {
        var leased := Lease(l, now, p.value, share.value, false);
        buckets := buckets[r.id := leased.0];
        return if leased.1 then Granted(r.need) else Empty;
      }
      if r.need == {NeedStandard, NeedShared} {
        var leased := Lease(l, now, p.value, share.value, true);
        buckets := buckets[r.id := leased.0];
        return if leased.1 then Granted(r.need) else Empty;
      }
      reply := Invalid;
    }
  }

  function NeedOf(profile: Profile, standard: bool): (need: set<Need>) {
    if standard then {NeedStandard, NeedShared} else if profile.HelixSystem? then {NeedSystem} else {NeedShared}
  }

  predicate KnownNeed(need: set<Need>) {
    need == {NeedShared} || need == {NeedSystem} || need == {NeedStandard, NeedShared}
  }

  /** The request was made for another share than the plan gives this pod. */
  predicate Mismatched(p: ActivePlan, r: Request) {
    p.ShareFor(r.profile).None? || !Matches(r.share, p.ShareFor(r.profile).value)
  }

  /** Rates are compared in whole millionths. */
  predicate Matches(asked: Share, mine: Share) {
    && (asked.sharedRate * 1000000.0).Floor == (mine.sharedRate * 1000000.0).Floor
    && asked.sharedBurst == mine.sharedBurst
    && (asked.standardRate * 1000000.0).Floor == (mine.standardRate * 1000000.0).Floor
    && asked.standardBurst == mine.standardBurst
  }

  /** What a pod asks for is what a donor serves, and with a lease of the same kind. */
  lemma NeedIsServed(profile: Profile, standard: bool)
    ensures KnownNeed(NeedOf(profile, standard))
    ensures NeedOf(profile, standard) == {NeedStandard, NeedShared} <==> standard
    ensures NeedSystem in NeedOf(profile, standard) <==> profile.HelixSystem? && !standard
  {
  }

  /** A share matches itself, and only shares with its bursts and, up to a millionth, its rates. */
  lemma MatchesItsOwn(asked: Share, mine: Share)
    ensures Matches(mine, mine)
    ensures Matches(asked, mine) ==>
      && asked.sharedBurst == mine.sharedBurst && asked.standardBurst == mine.standardBurst
      && -1.0 < 1000000.0 * (asked.sharedRate - mine.sharedRate) < 1.0
      && -1.0 < 1000000.0 * (asked.standardRate - mine.standardRate) < 1.0
  {
  }

  lemma AskedAreOthers(p: ActivePlan, asked: seq<nat>, region: string)
    requires asked <= BorrowOrder(p.members, p.selfIndex, region)
    ensures p.selfIndex !in asked
  {
    BorrowOrderIsComplete(p.members, p.selfIndex, region);
    forall k | k in asked ensures k != p.selfIndex {
      assert k in BorrowOrder(p.members, p.selfIndex, region);
    }
  }
}
