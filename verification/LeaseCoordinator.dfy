/** The coordinator of one pod: on every round it samples the server's clock, activates the plan of the epoch the
    server is in, and near the epoch's end proposes the next one. What the store answers comes in as parameters. */
module LeaseCoordinator {
  import opened Options
  import opened LeaseWindow
  import opened Ordering
  import LeasePlan
  import LeaseManager

  datatype Load = Loaded(plan: LeasePlan.Plan) | Missing | LoadFailed

  datatype Proposal = Committed | NotCommitted(agreed: bool) | ProposeFailed

  /** What the store answers during one round. */
  datatype Answers = Answers(load: Load, members: Option<seq<LeasePlan.Member>>, proposal: Proposal)

  const PROPOSE_AHEAD_MS := 10_000
  const MISSING_PLAN_RETRY := 250 * MILLISECOND

  /** The sample leaves the plan a window that is not empty. */
  predicate Opens(s: Sample, plan: LeasePlan.Content, guard: int) {
    var w := Leased(s, plan.validFrom, plan.validUntil, guard);
    w.notBefore < w.notAfter
  }

  /** The plan proposed for an epoch: its boundaries follow from its number, its members are put in order. */
  function BuildPlan(epoch: nat, epochMs: nat, generation: nat, members: seq<LeasePlan.Member>): LeasePlan.Plan {
    var content := LeasePlan.Content(LeasePlan.PLAN_VERSION, epoch, generation, epoch * epochMs, (epoch + 1) * epochMs,
                                     members);
    LeasePlan.ComputeDigest(LeasePlan.Plan(LeasePlan.Canonical(content), None))
  }

  /** A plan built from distinct, named members is one that every pod accepts; it keeps the members, whatever order they
      were listed in, and says what it is for. */
  lemma BuiltPlanIsValid(epoch: nat, epochMs: nat, generation: nat, members: seq<LeasePlan.Member>,
                         other: seq<LeasePlan.Member>)
    requires epoch > 0 && epochMs > 0 && generation > 0 && members != [] && LeasePlan.DistinctPods(members)
    requires (forall m :: m in members ==> m.pod != "" && m.region != "") && multiset(members) == multiset(other)
    ensures var plan := BuildPlan(epoch, epochMs, generation, members);
      && LeasePlan.Valid(plan) && plan == BuildPlan(epoch, epochMs, generation, other)
      && plan.content.epoch == epoch && plan.content.generation == generation
      && multiset(plan.content.members) == multiset(members)
      && plan.content.validUntil == BuildPlan(epoch + 1, epochMs, generation, members).content.validFrom
      && plan.content.validUntil - plan.content.validFrom == epochMs
  {
    LeasePlan.MembersAreOrdered();
    var sorted := Sort(LeasePlan.MemberBefore, members);
    SortSorts(LeasePlan.MemberBefore, members);
    SortSorts(LeasePlan.MemberBefore, sorted);
    SortIsUnique(LeasePlan.MemberBefore, members, other);
    SortIsUnique(LeasePlan.MemberBefore, members, sorted);
    LeasePlan.DistinctAsMultiset(members, sorted);
    forall m | m in sorted ensures m.pod != "" && m.region != "" {
      assert m in multiset(sorted);
    }
    assert |multiset(members)| == |multiset(sorted)|;
    assert (epoch + 1) * epochMs == epoch * epochMs + epochMs;
  }

  class Coordinator {
    const manager: LeaseManager.LeaseManager
    const epochMs: nat
    const guard: int
    const minMembers: int
    var activated: nat
    var proposed: nat

    constructor (manager: LeaseManager.LeaseManager, epochMs: nat, guard: int, minMembers: int)
      requires epochMs > 0
      ensures this.manager == manager && this.epochMs == epochMs && this.guard == guard && this.minMembers == minMembers
      ensures activated == 0 && proposed == 0
    {
      this.manager, this.epochMs, this.guard, this.minMembers := manager, epochMs, guard, minMembers;
      activated, proposed := 0, 0;
    }

    /** At the beginning of an epoch: activates its plan, or looks for it again soon. */
    method ActivateNew(s: Sample, epoch: nat, load: Load, usual: int) returns (delay: int, failed: bool)
      requires activated != epoch
      modifies this`activated, manager
      ensures failed <==> load.LoadFailed? || (load.Loaded? && activated != epoch)
      ensures activated == epoch || activated == old(activated)
      ensures activated == epoch <==>
        load.Loaded? && LeasePlan.Valid(load.plan) && Opens(s, load.plan.content, guard)
      ensures activated == epoch ==>
        && manager.plan.Some?
        && manager.plan.value.window == Leased(s, load.plan.content.validFrom, load.plan.content.validUntil, guard)
      ensures activated != epoch ==> manager.plan == old(manager.plan) && manager.buckets == old(manager.buckets)
      ensures delay == if failed then RECONCILE_INTERVAL
                       else if load.Missing? && usual > MISSING_PLAN_RETRY then MISSING_PLAN_RETRY
                       else usual
    {
      delay, failed := usual, false;
      match load {
        case Loaded(plan) =>
          var ok := manager.ActivatePlan(plan, s.ServerNow(), s.Midpoint(), s.Uncertainty(guard));
          if !ok {
            return RECONCILE_INTERVAL, true;
          }
          activated := epoch;
        case Missing =>
          delay := if delay < MISSING_PLAN_RETRY then delay else MISSING_PLAN_RETRY;
        case LoadFailed =>
          delay, failed := RECONCILE_INTERVAL, true;
      }
    }

    /** Near the end of an epoch: proposes the next one if enough members are known. */
    method ProposeNext(epoch: nat, answers: Answers, generation: nat, usual: int)
      returns (delay: int, failed: bool, proposes: Option<LeasePlan.Plan>)
      requires epochMs > 0
      modifies this`proposed
      ensures failed <==> answers.members.None? || (proposes.Some? && answers.proposal.ProposeFailed?)
      ensures proposes
           == if answers.members.Some? && |answers.members.value| >= minMembers
              then Some(BuildPlan(epoch + 1, epochMs, generation, answers.members.value)) else None
      ensures delay == if proposes.None? || failed then RECONCILE_INTERVAL else usual
      ensures proposed == if proposes.Some? && (answers.proposal.Committed? || answers.proposal == NotCommitted(true))
                          then epoch + 1 else old(proposed)
    {
      if answers.members.None? {
        return RECONCILE_INTERVAL, true, None;
      }
      if |answers.members.value| < minMembers {
        return RECONCILE_INTERVAL, false, None;
      }
      delay, failed := usual, false;
      proposes := Some(BuildPlan(epoch + 1, epochMs, generation, answers.members.value));
      match answers.proposal {
        case Committed => proposed := epoch + 1;
        case NotCommitted(agreed) =>
          if agreed {
            proposed := epoch + 1;
          }
        case ProposeFailed =>
          delay, failed := RECONCILE_INTERVAL, true;
      }
    }

    /** It has not been proposed yet, and the current epoch has ten seconds left at most. */
    predicate Due(s: Sample)
      requires epochMs > 0
      reads this
    {
      var epoch := CurrentEpoch(s.ServerNow(), epochMs);
      proposed != epoch + 1 && s.ServerNow() / MILLISECOND >= (epoch + 1) * epochMs - PROPOSE_AHEAD_MS
    }

    /** One round. `proposes` is the plan put forward, if any. */
    method Reconcile(s: Sample, answers: Answers, generation: nat)
      returns (delay: int, failed: bool, proposes: Option<LeasePlan.Plan>)
      requires s.Real() && epochMs > 0 && s.ServerNow() >= 0
      modifies this, manager
      ensures MINIMUM_WAKE <= delay <= RECONCILE_INTERVAL
      // A plan is activated only if it is valid, with the window this sample gives it, and at most once an epoch.
      ensures activated != old(activated) ==>
        && activated == CurrentEpoch(s.ServerNow(), epochMs) && answers.load.Loaded? &&
          LeasePlan.Valid(answers.load.plan)
        && manager.plan.Some?
        && manager.plan.value.window
            == Leased(s, answers.load.plan.content.validFrom, answers.load.plan.content.validUntil, guard)
        && manager.plan.value.window.notBefore < manager.plan.value.window.notAfter
      ensures activated == old(activated) ==>
        manager.plan == old(manager.plan) && manager.buckets == old(manager.buckets)
      // A plan that can be activated is, and a missing one is looked for again within a quarter of a second.
      ensures var epoch := CurrentEpoch(s.ServerNow(), epochMs);
        old(activated) != epoch && answers.load.Loaded? && LeasePlan.Valid(answers.load.plan) &&
          Opens(s, answers.load.plan.content, guard) ==>
          activated == epoch
      ensures old(activated) != CurrentEpoch(s.ServerNow(), epochMs) && answers.load.Missing? && !failed &&
              (answers.members.None? || |answers.members.value| >= minMembers) ==>
        delay <= MISSING_PLAN_RETRY
      ensures failed ==> delay == RECONCILE_INTERVAL
      // A round fails when the store does, or the plan of a new epoch cannot be activated.
      ensures var epoch := CurrentEpoch(s.ServerNow(), epochMs);
        failed <==>
          || (old(activated) != epoch && !answers.load.Missing? && activated != epoch)
          || (old(Due(s)) && (answers.members.None? || (proposes.Some? && answers.proposal.ProposeFailed?)))
      // Otherwise it sleeps to the next boundary, or as long as it may when it waits for members.
      ensures var epoch := CurrentEpoch(s.ServerNow(), epochMs);
        !failed && (old(activated) == epoch || answers.load.Loaded?) ==>
          || delay == NextReconcileDelay(s.ServerNow(), (epoch + 1) * epochMs, s.Uncertainty(guard))
          || (delay == RECONCILE_INTERVAL && answers.members.Some? && |answers.members.value| < minMembers)
      // A plan is proposed only for the next epoch, in the last ten seconds of this one, with enough members.
      ensures proposes.Some? ==>
        var epoch := CurrentEpoch(s.ServerNow(), epochMs);
        && answers.members.Some? && |answers.members.value| >= minMembers
        && s.ServerNow() / MILLISECOND >= (epoch + 1) * epochMs - PROPOSE_AHEAD_MS
        && proposes.value.content.epoch == epoch + 1
        && proposes.value.content.validFrom == (epoch + 1) * epochMs
        && proposes.value.content.validUntil == (epoch + 2) * epochMs
        && proposes.value == BuildPlan(epoch + 1, epochMs, generation, answers.members.value)
        && proposes.value.digest == Some(LeasePlan.Canonical(proposes.value.content))
      ensures var epoch := CurrentEpoch(s.ServerNow(), epochMs);
        !failed && old(proposed) != epoch + 1 && answers.members.Some? && |answers.members.value| >= minMembers ==>
          s.ServerNow() / MILLISECOND < (epoch + 1) * epochMs - PROPOSE_AHEAD_MS || proposes.Some?
      ensures proposed != old(proposed) ==> proposes.Some? && proposed == proposes.value.content.epoch && !failed
      // An epoch is proposed once: after a commit, its own or one with which it agrees, and again after anything else.
      ensures old(proposed) == CurrentEpoch(s.ServerNow(), epochMs) + 1 ==> proposes.None?
      ensures proposes.Some? && (answers.proposal.Committed? || answers.proposal == NotCommitted(true)) ==>
        proposed == CurrentEpoch(s.ServerNow(), epochMs) + 1
      ensures proposes.Some? && (answers.proposal.ProposeFailed? || answers.proposal == NotCommitted(false)) ==>
        proposed == old(proposed) && failed == answers.proposal.ProposeFailed?
    {
      failed, proposes := false, None;
      var serverNow := s.ServerNow();
      var epoch := CurrentEpoch(serverNow, epochMs);
      EpochIsNatural(serverNow, epochMs);
      var next := (epoch + 1) * epochMs;
      delay := NextReconcileDelay(serverNow, next, s.Uncertainty(guard));
      if activated != epoch {
        delay, failed := ActivateNew(s, epoch, answers.load, delay);
        if failed {
          return;
        }
      }
      if proposed == epoch + 1 || serverNow / MILLISECOND < next - PROPOSE_AHEAD_MS {
        return;
      }
      delay, failed, proposes := ProposeNext(epoch, answers, generation, delay);
    }
  }

  lemma EpochIsNatural(serverNow: int, epochMs: int)
    requires serverNow >= 0 && epochMs > 0
    ensures CurrentEpoch(serverNow, epochMs) >= 0
  {
  }

  /** The plans that coordinators build for two epochs never hold at the same time, and their windows at any two pods
      never meet, however the clocks are set. */
  lemma BuiltPlansNeverMeet(p: Sample, q: Sample, guard: int, epochMs: nat, n: nat, m: nat, g: nat, h: nat,
                            us: seq<LeasePlan.Member>, vs: seq<LeasePlan.Member>, atP: int, atQ: int)
    requires p.Real() && q.Real() && guard >= MICROSECOND - 1 && epochMs > 0 && n < m
    requires var a := BuildPlan(n, epochMs, g, us).content; Leased(p, a.validFrom, a.validUntil, guard).Covers(atP)
    requires var b := BuildPlan(m, epochMs, h, vs).content; Leased(q, b.validFrom, b.validUntil, guard).Covers(atQ)
    ensures p.ServerAt(atP) < q.ServerAt(atQ)
  {
    EpochsNeverOverlap(p, q, guard, epochMs, n, m, atP, atQ);
  }
}
