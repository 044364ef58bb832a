/** The token bucket and the leased bucket a pod keeps for one key. Times are seconds on the pod's clock. */
module TokenBucket {
  import opened Numbers

  datatype Bucket = Bucket(tokens: real, last: real, ratePerSec: real, burst: real)

  const EMPTY := Bucket(0.0, 0.0, 0.0, 0.0)

  /** What a rate brings over [since, now]. */
  function Accrued(rate: real, since: real, now: real): real {
    (now - since) * rate
  }

  function Init(now: real, ratePerSec: real, burst: int): Bucket {
    Bucket(0.0, now, ratePerSec, burst as real)
  }

  function Refill(b: Bucket, now: real): Bucket {
    if now > b.last then b.(tokens := Min(b.tokens + Accrued(b.ratePerSec, b.last, now), b.burst), last := now) else b
  }

  /** A spend of one token from a bucket already brought up to date. */
  function Spend(b: Bucket): Bucket {
    b.(tokens := b.tokens - 1.0)
  }

  function SetRate(b: Bucket, now: real, ratePerSec: real): Bucket {
    Refill(b, now).(ratePerSec := ratePerSec)
  }

  function SetBurst(b: Bucket, now: real, burst: int): Bucket {
    var r := Refill(b, now);
    r.(burst := burst as real, tokens := Min(r.tokens, burst as real))
  }

  datatype BucketConfig = BucketConfig(
    epoch: nat, generation: nat, holder: string, notBefore: real, notAfter: real,
    sharedRate: real, sharedBurst: int, standardRate: real, standardBurst: int)
  {
    predicate Valid() {
      && generation != 0 && holder != ""
      && notBefore < notAfter
      && sharedRate > 0.0 && sharedBurst > 0
      && standardBurst >= 0
      && (standardBurst == 0 || standardRate > 0.0)
    }

    function Signature(): Signature {
      Rates(sharedRate, sharedBurst, standardRate, standardBurst)
    }
  }

  /** The configuration fingerprint. The program folds it to 64 bits; here it is the four numbers. */
  datatype Signature = Unset | Rates(sharedRate: real, sharedBurst: int, standardRate: real, standardBurst: int)

  /** The value of a leased bucket. */
  datatype Local = Local(
    epoch: nat, generation: nat, holder: string, shared: Bucket, standard: Bucket,
    hasShared: bool, hasStandard: bool, notBefore: real, notAfter: real, config: Signature)

  const NEW_LOCAL := Local(0, 0, "", EMPTY, EMPTY, false, false, 0.0, 0.0, Unset)

  /** A bucket under a new configuration: emptied for a new incarnation, otherwise refilled and reshaped. */
  function Applied(has: bool, b: Bucket, now: real, rate: real, burst: int, incarnationChanged: bool): Bucket {
    if !has || incarnationChanged then Init(now, rate, burst) else SetBurst(SetRate(b, now, rate), now, burst)
  }

  function Updated(l: Local, now: real, cfg: BucketConfig): Local {
    if !cfg.Valid() then NEW_LOCAL
    else
      var changed := l.holder != cfg.holder || l.generation != cfg.generation;
      Local(cfg.epoch, cfg.generation, cfg.holder,
            Applied(l.hasShared, l.shared, now, cfg.sharedRate, cfg.sharedBurst, changed),
            if cfg.standardBurst <= 0 then EMPTY
            else Applied(l.hasStandard, l.standard, now, cfg.standardRate, cfg.standardBurst, changed),
            true, cfg.standardBurst > 0, cfg.notBefore, cfg.notAfter, cfg.Signature())
  }

  datatype Validity = Open | Stale | Shut

  function WindowValid(l: Local, now: real, epoch: nat, generation: nat): Validity {
    if epoch != 0 then
      if l.epoch != epoch || l.generation != generation then Stale else Open
    else if now < l.notBefore || now >= l.notAfter then Shut
    else Open
  }

  datatype Verdict = Admit | Deny | Behind

  /** The bucket after a premium attempt, and the verdict; `Behind` asks the caller to refresh it. */
  function TryPremium(l: Local, now: real, epoch: nat, generation: nat): (Local, Verdict) {
    match WindowValid(l, now, epoch, generation)
    case Stale => (l, Behind)
    case Shut => (l, Deny)
    case Open =>
      if !l.hasShared then (l, Deny)
      else
        var r := Refill(l.shared, now);
        if r.tokens < 1.0 then (l.(shared := r), Deny) else (l.(shared := Spend(r)), Admit)
  }

  /** A standard attempt spends both buckets or neither; the shared bucket is not even refilled when the
      standard one denies. */
  function TryStandard(l: Local, now: real, epoch: nat, generation: nat): (Local, Verdict) {
    match WindowValid(l, now, epoch, generation)
    case Stale => (l, Behind)
    case Shut => (l, Deny)
    case Open =>
      if !l.hasStandard || !l.hasShared then (l, Deny)
      else
        var std := Refill(l.standard, now);
        if std.tokens < 1.0 then (l.(standard := std), Deny)
        else
          var shr := Refill(l.shared, now);
          if shr.tokens < 1.0 then (l.(standard := std, shared := shr), Deny)
          else (l.(standard := Spend(std), shared := Spend(shr)), Admit)
  }

  /** A caller may spend under a plan's epoch and generation if the bucket has both; without an epoch, while the
      bucket's window is open. */
  ghost predicate MaySpend(l: Local, now: real, epoch: nat, generation: nat) {
    if epoch == 0 then l.notBefore <= now < l.notAfter else l.epoch == epoch && l.generation == generation
  }

  /** The verdict on a premium attempt: behind exactly under another plan, admitted exactly if the caller may spend and
      the shared bucket holds a token; and one token is gone exactly then. */
  lemma PremiumVerdict(l: Local, now: real, epoch: nat, generation: nat)
    ensures var (after, verdict) := TryPremium(l, now, epoch, generation);
      && (verdict.Behind? <==> epoch != 0 && !MaySpend(l, now, epoch, generation))
      && (verdict.Admit? <==>
            MaySpend(l, now, epoch, generation) && l.hasShared && Refill(l.shared, now).tokens >= 1.0)
      && (verdict.Admit? ==> after.shared.tokens == Refill(l.shared, now).tokens - 1.0)
      && (!verdict.Admit? ==> after.shared == l.shared || after.shared == Refill(l.shared, now))
      && after.standard == l.standard
  {
  }

  /** And on a standard one: both buckets must hold a token, and both give one or neither. */
  lemma StandardVerdict(l: Local, now: real, epoch: nat, generation: nat)
    ensures var (after, verdict) := TryStandard(l, now, epoch, generation);
      && (verdict.Behind? <==> epoch != 0 && !MaySpend(l, now, epoch, generation))
      && (verdict.Admit? <==>
            && MaySpend(l, now, epoch, generation) && l.hasStandard && l.hasShared
            && Refill(l.standard, now).tokens >= 1.0 && Refill(l.shared, now).tokens >= 1.0)
      && (verdict.Admit? ==>
            && after.standard.tokens == Refill(l.standard, now).tokens - 1.0
            && after.shared.tokens == Refill(l.shared, now).tokens - 1.0)
      && (!verdict.Admit? ==>
            && (after.shared == l.shared || after.shared == Refill(l.shared, now))
            && (after.standard == l.standard || after.standard == Refill(l.standard, now)))
  {
  }

  // ---------- What one bucket can admit ----------

  /** The account of one bucket since `start`: it holds the share (rate, burst), and what it has admitted plus
      what it still holds is at most one burst plus what the rate brings from `start` to its last refill. */
  ghost predicate Account(b: Bucket, rate: real, burst: real, start: real, admitted: nat) {
    && b.ratePerSec == rate && b.burst == burst
    && 0.0 <= b.tokens <= burst
    && (b.last < start ==> admitted == 0)
    && admitted as real + b.tokens <= burst + Accrued(rate, start, Max(b.last, start))
  }

  lemma RefillKeepsAccount(b: Bucket, rate: real, burst: real, start: real, admitted: nat, now: real)
    requires rate > 0.0 && start <= now && Account(b, rate, burst, start, admitted)
    ensures Account(Refill(b, now), rate, burst, start, admitted)
    ensures Refill(b, now).last >= now
  {
    if now > b.last {
      AccruesInParts(rate, b.last, b.last, now);
      AccruesInParts(rate, start, Max(b.last, start), now);
    }
  }

  lemma SpendKeepsAccount(b: Bucket, rate: real, burst: real, start: real, admitted: nat)
    requires Account(b, rate, burst, start, admitted) && b.tokens >= 1.0 && start <= b.last
    ensures Account(Spend(b), rate, burst, start, admitted + 1)
  {
  }

  /** The tokens of two stretches of time add up. */
  lemma AccruesInParts(rate: real, since: real, now: real, later: real)
    requires rate > 0.0 && since <= now <= later
    ensures Accrued(rate, since, later) == Accrued(rate, since, now) + Accrued(rate, now, later)
    ensures Accrued(rate, now, later) >= 0.0
  {
    assert (later - since) * rate == (now - since) * rate + (later - now) * rate;
  }

  /** A bucket emptied and dated no earlier than its predecessor cannot bring back what that one admitted. */
  lemma RestartKeepsAccount(b: Bucket, rate: real, burst: int, start: real, admitted: nat, now: real)
    requires rate > 0.0 && burst > 0 && start <= now && b.last <= now
    requires Account(b, rate, burst as real, start, admitted)
    ensures Account(Init(now, rate, burst), rate, burst as real, start, admitted)
  {
    RefillKeepsAccount(b, rate, burst as real, start, admitted, now);
  }

  lemma AccountBounds(b: Bucket, rate: real, burst: real, start: real, admitted: nat, end: real)
    requires rate > 0.0 && start <= end && b.last <= end && Account(b, rate, burst, start, admitted)
    ensures admitted as real <= burst + Accrued(rate, start, end)
  {
    AccruesInParts(rate, start, Max(b.last, start), end);
  }

  /** A caller asks for a token, or the bucket is emptied for a new incarnation. */
  datatype Use = Ask(now: real) | Restart(now: real)

  function AfterUse(b: Bucket, use: Use): Bucket {
    match use
    case Ask(now) => if Refill(b, now).tokens >= 1.0 then Spend(Refill(b, now)) else Refill(b, now)
    case Restart(now) => Bucket(0.0, now, b.ratePerSec, b.burst)
  }

  function AfterUses(b: Bucket, uses: seq<Use>): Bucket {
    if uses == [] then b else AfterUse(AfterUses(b, uses[..|uses| - 1]), uses[|uses| - 1])
  }

  function GivenBy(b: Bucket, uses: seq<Use>): nat {
    if uses == [] then 0
    else
      var rest, last := uses[..|uses| - 1], uses[|uses| - 1];
      GivenBy(b, rest) + if last.Ask? && Refill(AfterUses(b, rest), last.now).tokens >= 1.0 then 1 else 0
  }

  /** All uses are dated in [start, end], and none restarts the bucket before its last use. */
  ghost predicate Dated(b: Bucket, uses: seq<Use>, start: real, end: real) {
    uses != [] ==>
      var rest, last := uses[..|uses| - 1], uses[|uses| - 1];
      && Dated(b, rest, start, end) && start <= last.now <= end
      && (last.Restart? ==> AfterUses(b, rest).last <= last.now)
  }

  lemma {:induction false} UsesKeepAccount(b: Bucket, uses: seq<Use>, rate: real, burst: int, start: real, end: real)
    requires rate > 0.0 && burst > 0 && start <= end && b.last <= end && Dated(b, uses, start, end)
    requires Account(b, rate, burst as real, start, 0)
    ensures Account(AfterUses(b, uses), rate, burst as real, start, GivenBy(b, uses)) && AfterUses(b, uses).last <= end
  {
    if uses != [] {
      var rest, last := uses[..|uses| - 1], uses[|uses| - 1];
      UsesKeepAccount(b, rest, rate, burst, start, end);
      var held := AfterUses(b, rest);
      match last
      case Restart(now) => RestartKeepsAccount(held, rate, burst, start, GivenBy(b, rest), now);
      case Ask(now) =>
        RefillKeepsAccount(held, rate, burst as real, start, GivenBy(b, rest), now);
        if Refill(held, now).tokens >= 1.0 {
          SpendKeepsAccount(Refill(held, now), rate, burst as real, start, GivenBy(b, rest));
        }
    }
  }

  /** Whatever it holds and whenever it is asked, one bucket gives at most its burst and what its rate brings. */
  lemma BucketBudget(b: Bucket, uses: seq<Use>, rate: real, burst: int, start: real, end: real)
    requires rate > 0.0 && burst > 0 && start <= end && b.last <= end && Dated(b, uses, start, end)
    requires b.ratePerSec == rate && b.burst == burst as real && 0.0 <= b.tokens <= burst as real
    ensures GivenBy(b, uses) as real <= burst as real + Accrued(rate, start, end)
  {
    AccruesInParts(rate, start, start, Max(b.last, start));
    UsesKeepAccount(b, uses, rate, burst, start, end);
    AccountBounds(AfterUses(b, uses), rate, burst as real, start, GivenBy(b, uses), end);
  }

  // ---------- The bucket as the program keeps it ----------

  class TokenCell {
    var tokens: real
    var last: real
    var ratePerSec: real
    var burst: real

    function Value(): Bucket
      reads this
    {
      Bucket(tokens, last, ratePerSec, burst)
    }

    constructor ()
      ensures Value() == EMPTY
    {
      tokens, last, ratePerSec, burst := 0.0, 0.0, 0.0, 0.0;
    }

    method Clear()
      modifies this
      ensures Value() == EMPTY
    {
      tokens, last, ratePerSec, burst := 0.0, 0.0, 0.0, 0.0;
    }

    method Start(now: real, rate: real, size: int)
      modifies this
      ensures Value() == Init(now, rate, size)
    {
      ratePerSec := rate;
      burst := size as real;
      tokens := 0.0;
      last := now;
    }

    method BringUpToDate(now: real) returns (left: real)
      modifies this
      ensures Value() == Refill(old(Value()), now) && left == tokens
    {
      if now > last {
        tokens := tokens + (now - last) * ratePerSec;
        if tokens > burst {
          tokens := burst;
        }
        last := now;
      }
      left := tokens;
    }

    method Allow(now: real) returns (allowed: bool)
      modifies this
      ensures allowed == (Refill(old(Value()), now).tokens >= 1.0)
      ensures Value() == if allowed then Spend(Refill(old(Value()), now)) else Refill(old(Value()), now)
    {
      var left := BringUpToDate(now);
      if left < 1.0 {
        return false;
      }
      tokens := tokens - 1.0;
      allowed := true;
    }

    method Reshape(now: real, rate: real, size: int)
      modifies this
      ensures Value() == SetBurst(SetRate(old(Value()), now, rate), now, size)
    {
      var _ := BringUpToDate(now);
      ratePerSec := rate;
      var _ := BringUpToDate(now);
      burst := size as real;
      if tokens > burst {
        tokens := burst;
      }
    }
  }

  class LocalBucket {
    var epoch: nat
    var generation: nat
    var holder: string
    const shared: TokenCell
    const standard: TokenCell
    var hasShared: bool
    var hasStandard: bool
    var notBefore: real
    var notAfter: real
    var config: Signature

    ghost predicate Apart() {
      shared != standard
    }

    function State(): Local
      reads this, shared, standard
    {
      Local(epoch, generation, holder, shared.Value(), standard.Value(), hasShared, hasStandard,
            notBefore, notAfter, config)
    }

    constructor ()
      ensures Apart() && fresh(shared) && fresh(standard) && State() == NEW_LOCAL
    {
      epoch, generation, holder := 0, 0, "";
      hasShared, hasStandard := false, false;
      notBefore, notAfter := 0.0, 0.0;
      config := Unset;
      shared := new TokenCell();
      standard := new TokenCell();
    }

    method Reset()
      requires Apart()
      modifies this, shared, standard
      ensures State() == NEW_LOCAL
    {
      epoch, generation, holder := 0, 0, "";
      hasShared, hasStandard := false, false;
      shared.Clear();
      standard.Clear();
      notBefore, notAfter := 0.0, 0.0;
      config := Unset;
    }

    method Update(now: real, cfg: BucketConfig)
      requires Apart()
      modifies this, shared, standard
      ensures State() == Updated(old(State()), now, cfg)
    {
      if !cfg.Valid() {
        Reset();
        return;
      }
      var changed := holder != cfg.holder || generation != cfg.generation;
      epoch, generation, holder := cfg.epoch, cfg.generation, cfg.holder;
      notBefore, notAfter := cfg.notBefore, cfg.notAfter;
      if !hasShared || changed {
        shared.Start(now, cfg.sharedRate, cfg.sharedBurst);
        hasShared := true;
      } else {
        shared.Reshape(now, cfg.sharedRate, cfg.sharedBurst);
      }
      if cfg.standardBurst <= 0 {
        hasStandard := false;
        standard.Clear();
      } else if !hasStandard || changed {
        standard.Start(now, cfg.standardRate, cfg.standardBurst);
        hasStandard := true;
      } else {
        standard.Reshape(now, cfg.standardRate, cfg.standardBurst);
      }
      config := cfg.Signature();
    }

    method Renew(newEpoch: nat, begin: real, end: real)
      requires Apart()
      modifies this
      ensures State() == old(State()).(epoch := newEpoch, notBefore := begin, notAfter := end)
    {
      epoch, notBefore, notAfter := newEpoch, begin, end;
    }

    method TryPremiumLease(now: real, e: nat, g: nat) returns (allowed: bool, stale: bool)
      requires Apart()
      modifies shared
      ensures State() == TryPremium(old(State()), now, e, g).0
      ensures allowed == TryPremium(old(State()), now, e, g).1.Admit?
      ensures stale == TryPremium(old(State()), now, e, g).1.Behind?
    {
      var window := WindowValid(State(), now, e, g);
      if !window.Open? {
        return false, window.Stale?;
      }
      if !hasShared {
        return false, false;
      }
      allowed := shared.Allow(now);
      stale := false;
    }

    method TryStandardLease(now: real, e: nat, g: nat) returns (allowed: bool, stale: bool)
      requires Apart()
      modifies shared, standard
      ensures State() == TryStandard(old(State()), now, e, g).0
      ensures allowed == TryStandard(old(State()), now, e, g).1.Admit?
      ensures stale == TryStandard(old(State()), now, e, g).1.Behind?
    {
      var window := WindowValid(State(), now, e, g);
      if !window.Open? {
        return false, window.Stale?;
      }
      if !hasStandard || !hasShared {
        return false, false;
      }
      var left := standard.BringUpToDate(now);
      if left < 1.0 {
        return false, false;
      }
      left := shared.BringUpToDate(now);
      if left < 1.0 {
        return false, false;
      }
      standard.tokens := standard.tokens - 1.0;
      shared.tokens := shared.tokens - 1.0;
      return true, false;
    }
  }
}
