/** Lease plans: their canonical form and digest, the rank a pod reads from it, and the share of a provider
    budget that goes with each rank. */
module LeasePlan {
  import opened Options
  import opened Ordering

  datatype Member = Member(pod: string, region: string)

  /** What a digest covers. */
  datatype Content = Content(version: nat, epoch: nat, generation: nat, validFrom: int, validUntil: int,
                             members: seq<Member>)

  /** A digest stands for the canonical content it was computed from: hashing is taken to be injective. */
  datatype Plan = Plan(content: Content, digest: Option<Content>)

  const PLAN_VERSION := 3

  // ---------- The canonical form ----------

  predicate MemberBefore(a: Member, b: Member) {
    if a.pod != b.pod then Before(a.pod, b.pod) else Before(a.region, b.region)
  }

  lemma MembersAreOrdered()
    ensures Strict(MemberBefore)
  {
    NamesAreOrdered();
    forall x, y ensures Compare(MemberBefore, x, y) {
      BeforeIsTotal(x.pod, y.pod);
      BeforeIsTotal(x.region, y.region);
    }
    forall x, y, z ensures Chain(MemberBefore, x, y, z) {
      assert Chain(Before, x.pod, y.pod, z.pod);
      assert Chain(Before, x.region, y.region, z.region);
      if MemberBefore(x, y) && MemberBefore(y, z) && x.pod == z.pod && x.pod != y.pod {
        BeforeIsTotal(x.pod, y.pod);
      }
    }
    forall x ensures !MemberBefore(x, x) {
      BeforeIsTotal(x.region, x.region);
    }
  }

  function Canonical(c: Content): Content {
    c.(members := Sort(MemberBefore, c.members))
  }

  function ComputeDigest(p: Plan): Plan {
    p.(digest := Some(Canonical(p.content)))
  }

  ghost predicate DistinctPods(members: seq<Member>) {
    forall i, j :: 0 <= i < j < |members| ==> members[i].pod != members[j].pod
  }

  /** What a plan must be before anyone acts on it. */
  ghost predicate Valid(p: Plan) {
    && p.content.version == PLAN_VERSION && p.content.epoch != 0 && p.content.generation != 0
    && p.content.validFrom < p.content.validUntil
    && p.content.members != []
    && (forall m :: m in p.content.members ==> m.pod != "" && m.region != "")
    && DistinctPods(p.content.members)
    && p.digest == Some(Canonical(p.content))
  }

  method Validate(p: Plan) returns (ok: bool)
    ensures ok == Valid(p)
  {
    var c := p.content;
    if c.version != PLAN_VERSION || c.epoch == 0 || c.generation == 0 || c.validFrom >= c.validUntil
       || c.members == [] || p.digest == None {
      return false;
    }
    var pods: set<string> := {};
    for i := 0 to |c.members|
      invariant forall x :: x in pods <==> exists j :: 0 <= j < i && c.members[j].pod == x
      invariant forall j :: 0 <= j < i ==> c.members[j].pod != "" && c.members[j].region != ""
      invariant DistinctPods(c.members[..i])
    {
      var m := c.members[i];
      if m.pod == "" || m.region == "" {
        return false;
      }
      if m.pod in pods {
        return false;
      }
      pods := pods + {m.pod};
    }
    assert c.members[..|c.members|] == c.members;
    ok := p.digest == Some(Canonical(c));
  }

  /** Two plans carry the same digest exactly when they agree on every field and on who the members are,
      in whatever order they list them. */
  lemma DigestNamesThePlan(p: Content, q: Content)
    ensures Canonical(p) == Canonical(q)
       <==> p.(members := []) == q.(members := []) && multiset(p.members) == multiset(q.members)
  {
    MembersAreOrdered();
    SortSorts(MemberBefore, p.members);
    SortSorts(MemberBefore, q.members);
    if Canonical(p) == Canonical(q) {
      assert p.(members := []) == Canonical(p).(members := []);
      assert q.(members := []) == Canonical(q).(members := []);
      assert multiset(p.members) == multiset(Canonical(p).members);
    }
    if multiset(p.members) == multiset(q.members) {
      SortIsUnique(MemberBefore, p.members, q.members);
    }
  }

  // ---------- Ranks ----------

  /** The position of `pod` in the canonical order, or -1. */
  method SelfIndex(members: seq<Member>, pod: string) returns (index: int)
    ensures -1 <= index < |members|
    ensures index >= 0 ==> members[index].pod == pod
    ensures index == -1 ==> forall i :: 0 <= i < |members| ==> members[i].pod != pod
  {
    for i := 0 to |members|
      invariant forall j :: 0 <= j < i ==> members[j].pod != pod
    {
      if members[i].pod == pod {
        return i;
      }
    }
    index := -1;
  }

  lemma DistinctAsMultiset(s: seq<Member>, t: seq<Member>)
    requires DistinctPods(s) && multiset(s) == multiset(t)
    ensures DistinctPods(t)
  {
    forall i, j | 0 <= i < j < |t| ensures t[i].pod != t[j].pod {
      if t[i].pod == t[j].pod {
        assert t[i] in multiset(s) && t[j] in multiset(s);
        var a :| 0 <= a < |s| && s[a] == t[i];
        var b :| 0 <= b < |s| && s[b] == t[j];
        assert a == b;
        Twice(t, i, j);
        Once(s, a);
        assert false;
      }
    }
  }

  lemma Once(s: seq<Member>, a: nat)
    requires DistinctPods(s) && a < |s|
    ensures multiset(s)[s[a]] == 1
  {
    assert s == s[..a] + [s[a]] + s[a + 1..];
    assert s[a] !in s[..a] && s[a] !in s[a + 1..];
  }

  /** Pods that hold the same valid membership, in any order, all read the same rank for each pod; distinct
      pods read distinct ranks, and every rank belongs to some pod. */
  lemma RanksAgree(p: Plan, q: Plan, i: nat, j: nat)
    requires Valid(p) && Valid(q) && multiset(p.content.members) == multiset(q.content.members)
    requires i < |Canonical(p.content).members| && j < |Canonical(q.content).members|
    ensures |Canonical(p.content).members| == |p.content.members|
    ensures Canonical(p.content).members[i].pod == Canonical(q.content).members[j].pod <==> i == j
  {
    MembersAreOrdered();
    SortIsUnique(MemberBefore, p.content.members, q.content.members);
    SortSorts(MemberBefore, p.content.members);
    assert |multiset(p.content.members)| == |multiset(Canonical(p.content).members)|;
    DistinctAsMultiset(p.content.members, Canonical(p.content).members);
  }

  // ---------- Specs and shares ----------

  datatype Spec = Spec(capacity: nat, refill: real, ttl: int, emergencyBurst: nat, emergencyRate: real,
                       emergencyTTL: int)

  function Ceil(x: real): int {
    -(-x).Floor
  }

  /** The program panics where this is `None`. */
  function NewSpec(capacity: real, refill: real): Option<Spec> {
    if capacity <= 0.0 || refill <= 0.0 || capacity != capacity.Floor as real then None
    else
      var floor := (capacity * 0.10).Floor;
      var least := if floor < 1 then 1 else floor;
      var burst := if least > capacity.Floor then capacity.Floor else least;
      var rate := EmergencyRate(burst as real, capacity, refill);
      Some(Spec(capacity.Floor, refill, TimeToLive(capacity, refill), burst, rate, TimeToLive(burst as real, rate)))
  }

  function EmergencyRate(burst: real, capacity: real, refill: real): real
    requires capacity > 0.0
  {
    refill * (burst / capacity)
  }

  /** Twice the time a bucket takes to fill, in whole seconds. */
  function TimeToLive(capacity: real, refill: real): int
    requires refill != 0.0
  {
    Ceil(capacity / refill) * 2
  }

  lemma Cancel(x: real, y: real)
    requires y > 0.0
    ensures (x / y) * y == x
  {
  }

  lemma Scale(x: real, y: real, c: real)
    requires c > 0.0
    ensures x <= y ==> x * c <= y * c
    ensures x < y ==> x * c < y * c
  {
  }

  lemma EmergencyRateIsPart(burst: real, capacity: real, refill: real)
    requires 0.0 < burst <= capacity && refill > 0.0
    ensures 0.0 < EmergencyRate(burst, capacity, refill) <= refill
    ensures burst < capacity ==> EmergencyRate(burst, capacity, refill) < refill
    ensures EmergencyRate(burst, capacity, refill) * capacity == refill * burst
  {
    var part := burst / capacity;
    Cancel(burst, capacity);
    Scale(part, 1.0, refill);
    Scale(0.0, part, refill);
    assert 0.0 < part <= 1.0 && (burst < capacity ==> part < 1.0);
    assert (refill * part) * capacity == refill * (part * capacity);
  }

  lemma LivesLongEnough(capacity: real, refill: real)
    requires capacity > 0.0 && refill > 0.0
    ensures TimeToLive(capacity, refill) > 0
    ensures TimeToLive(capacity, refill) as real * refill >= capacity
  {
    var fill := capacity / refill;
    Cancel(capacity, refill);
    assert fill > 0.0 && Ceil(fill) as real >= fill;
    Scale(fill, TimeToLive(capacity, refill) as real, refill);
  }

  ghost predicate Sound(s: Spec) {
    && 1 <= s.emergencyBurst <= s.capacity
    && 0.0 < s.emergencyRate <= s.refill
    && (s.emergencyBurst < s.capacity ==> s.emergencyRate < s.refill)
    && s.emergencyTTL > 0
    && s.emergencyTTL as real * s.emergencyRate >= s.emergencyBurst as real
  }

  /** The emergency reserve is a real part of the budget, refills in the same proportion, and its key lives long
      enough to be full again when it expires. */
  lemma SpecReserves(capacity: real, refill: real)
    requires NewSpec(capacity, refill).Some?
    ensures var s := NewSpec(capacity, refill).value;
      && Sound(s) && s.capacity as real == capacity && s.refill == refill
      && s.emergencyRate * capacity == refill * s.emergencyBurst as real
      && (capacity >= 20.0 ==> s.emergencyBurst as real <= capacity * 0.10 < s.emergencyBurst as real + 1.0)
  {
    var s := NewSpec(capacity, refill).value;
    EmergencyRateIsPart(s.emergencyBurst as real, capacity, refill);
    LivesLongEnough(s.emergencyBurst as real, s.emergencyRate);
  }

  function LocalShare(spec: Spec, members: int, rank: int): (real, int) {
    if members <= 0 || rank < 0 || rank >= members then (0.0, 0)
    else
      var leased := spec.capacity - spec.emergencyBurst;
      ((spec.refill - spec.emergencyRate) / members as real,
       leased / members + (if rank < leased % members then 1 else 0))
  }

  /** The bursts of the first `n` ranks together. */
  function Bursts(spec: Spec, members: int, n: nat): int {
    if n == 0 then 0 else Bursts(spec, members, n - 1) + LocalShare(spec, members, n - 1).1
  }

  function Rates(spec: Spec, members: int, n: nat): real {
    if n == 0 then 0.0 else Rates(spec, members, n - 1) + LocalShare(spec, members, n - 1).0
  }

  lemma {:induction false} PartialShares(spec: Spec, members: int, n: nat)
    requires members > 0 && n <= members && spec.emergencyBurst <= spec.capacity
    ensures var leased := spec.capacity - spec.emergencyBurst;
      Bursts(spec, members, n) == n * (leased / members) + (if n < leased % members then n else leased % members)
    ensures Rates(spec, members, n) == n as real * ((spec.refill - spec.emergencyRate) / members as real)
  {
    if n > 0 {
      PartialShares(spec, members, n - 1);
      var leased := spec.capacity - spec.emergencyBurst;
      assert n * (leased / members) == (n - 1) * (leased / members) + leased / members;
      var rate := (spec.refill - spec.emergencyRate) / members as real;
      assert n as real * rate == (n - 1) as real * rate + rate;
    }
  }

  /** The shares of all ranks, with the reserve, are the budget: no token is lost to rounding and none is
      handed out twice. No two shares differ by more than one. */
  lemma SharesAddUp(spec: Spec, members: int, i: int, j: int)
    requires members > 0 && spec.emergencyBurst <= spec.capacity
    requires 0 <= i < members && 0 <= j < members
    ensures Bursts(spec, members, members) + spec.emergencyBurst == spec.capacity
    ensures Rates(spec, members, members) + spec.emergencyRate == spec.refill
    ensures 0 <= LocalShare(spec, members, i).1 <= LocalShare(spec, members, j).1 + 1
  {
    PartialShares(spec, members, members);
    var leased := spec.capacity - spec.emergencyBurst;
    assert members * (leased / members) + leased % members == leased;
    Cancel(spec.refill - spec.emergencyRate, members as real);
  }

  /** A rank that is given any burst is given a positive rate. */
  lemma ShareRefills(s: Spec, members: int, rank: int)
    requires Sound(s) && 0 <= rank < members
    ensures var (rate, burst) := LocalShare(s, members, rank);
      rate >= 0.0 && burst >= 0 && (burst > 0 ==> rate > 0.0)
  {
    if s.capacity == s.emergencyBurst {
      NothingToShare(members, rank);
    }
    Quotient(s.refill - s.emergencyRate, members as real);
  }

  lemma NothingToShare(members: int, rank: int)
    requires 0 <= rank < members
    ensures 0 / members == 0 && 0 % members == 0
  {
  }

  lemma Quotient(x: real, y: real)
    requires x >= 0.0 && y > 0.0
    ensures x / y >= 0.0 && (x > 0.0 ==> x / y > 0.0)
  {
  }
}
