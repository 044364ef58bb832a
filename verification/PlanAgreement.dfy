/** Agreement on the plan of one epoch: proposers and loaders interleave command by command on a shared store, may
    fail or crash between any two commands, and the plan's key does not expire meanwhile. WAIT may fail at will. */
module PlanAgreement {
  import opened Options
  import opened LeasePlan

  type Digest = Option<Content>

  /** Where a proposer stands. `seen` is the key's stamp when it was watched. */
  datatype Proposer =
    | Ready
    | Watching(seen: nat)
    | Absent(seen: nat)
    | Found(existing: Plan)
    | Extended(existing: Plan)
    | Settled(existing: Plan)
    | Marked
    | Wrote
    | Replicated
    | MarkedOwn
    | Won
    | Lost
    | Failed

  datatype Loader = Idle | Got(plan: Plan) | Loaded(plan: Plan) | NotLoaded

  /** `stamp` counts the commands that touched the plan's key, `writes` those that wrote it. */
  datatype State = State(plan: Option<Plan>, marker: Option<Digest>, stamp: nat, writes: nat,
                         proposers: seq<Proposer>, proposals: seq<Plan>, loaders: seq<Loader>)

  datatype Action =
    | Validate(i: nat)
    | Get(i: nat)
    | Extend(i: nat)
    | Exec(i: nat)
    | Wait(i: nat, enough: bool)
    | Mark(i: nat)
    | Stop(i: nat)
    | LoadPlanKey(k: nat)
    | LoadMarker(k: nat)

  ghost function At(s: State, i: nat, p: Proposer): State
    requires i < |s.proposers|
  {
    s.(proposers := s.proposers[i := p])
  }

  ghost function LoaderAt(s: State, k: nat, l: Loader): State
    requires k < |s.loaders|
  {
    s.(loaders := s.loaders[k := l])
  }

  /** The state after an action; an action its actor is not ready for changes nothing. */
  ghost function Next(s: State, a: Action): State
    requires |s.proposals| == |s.proposers|
  {
    match a
    case LoadPlanKey(k) =>
      if k >= |s.loaders| || !s.loaders[k].Idle? then s
      else if s.plan.None? then LoaderAt(s, k, NotLoaded)
      else LoaderAt(s, k, Got(s.plan.value))
    case LoadMarker(k) =>
      if k >= |s.loaders| || !s.loaders[k].Got? then s
      else
        var p := s.loaders[k].plan;
        LoaderAt(s, k, if s.marker == Some(p.digest) && Valid(p) then Loaded(p) else NotLoaded)
    case _ =>
      if a.i >= |s.proposers| then s else Propose(s, a)
  }

  /** One command of a proposer. */
  ghost function Propose(s: State, a: Action): State
    requires !a.LoadPlanKey? && !a.LoadMarker? && a.i < |s.proposers| == |s.proposals|
  {
    var i, mine := a.i, s.proposals[a.i];
    match (a, s.proposers[i])
    case (Validate(_), Ready) => At(s, i, if Valid(mine) then Watching(s.stamp) else Failed)
    case (Get(_), Watching(seen)) => At(s, i, if s.plan.Some? then Found(s.plan.value) else Absent(seen))
    case (Extend(_), Found(existing)) =>
      if !Valid(existing) then At(s, i, Failed) else At(s, i, Extended(existing)).(stamp := s.stamp + 1)
    case (Wait(_, enough), Extended(existing)) => At(s, i, if enough then Settled(existing) else Failed)
    case (Mark(_), Settled(existing)) => At(s, i, Marked).(marker := Some(existing.digest))
    case (Wait(_, enough), Marked) => At(s, i, if enough then Lost else Failed)
    case (Exec(_), Absent(seen)) =>
      if seen != s.stamp then At(s, i, Lost)
      else At(s, i, Wrote).(plan := Some(mine), stamp := s.stamp + 1, writes := s.writes + 1)
    case (Wait(_, enough), Wrote) => At(s, i, if enough then Replicated else Failed)
    case (Mark(_), Replicated) => At(s, i, MarkedOwn).(marker := Some(mine.digest))
    case (Wait(_, enough), MarkedOwn) => At(s, i, if enough then Won else Failed)
    case (Stop(_), Won) => s
    case (Stop(_), Lost) => s
    case (Stop(_), _) => At(s, i, Failed)
    case (_, _) => s
  }

  // ---------- The invariant ----------

  /** The proposers that wrote the key themselves and have not failed since. */
  ghost predicate Owns(p: Proposer) {
    p.Wrote? || p.Replicated? || p.MarkedOwn? || p.Won?
  }

  ghost predicate ProposerOk(s: State, i: nat)
    requires i < |s.proposers| == |s.proposals|
  {
    match s.proposers[i]
    case Ready => true
    case Watching(seen) => Valid(s.proposals[i]) && seen <= s.stamp
    case Absent(seen) => Valid(s.proposals[i]) && seen <= s.stamp && (s.plan.Some? ==> seen < s.stamp)
    case Found(existing) => s.plan == Some(existing)
    case Extended(existing) => s.plan == Some(existing)
    case Settled(existing) => s.plan == Some(existing)
    case Marked => s.marker.Some?
    case Wrote => s.plan == Some(s.proposals[i])
    case Replicated => s.plan == Some(s.proposals[i])
    case MarkedOwn => s.plan == Some(s.proposals[i]) && s.marker.Some?
    case Won => s.plan == Some(s.proposals[i]) && s.marker.Some?
    case _ => true
  }

  ghost predicate LoaderOk(s: State, k: nat)
    requires k < |s.loaders|
  {
    match s.loaders[k]
    case Got(p) => s.plan == Some(p)
    case Loaded(p) => s.plan == Some(p) && s.marker == Some(p.digest)
    case _ => true
  }

  ghost predicate Alone(s: State, i: nat, j: nat)
    requires i < |s.proposers| && j < |s.proposers|
  {
    Owns(s.proposers[i]) && Owns(s.proposers[j]) ==> i == j
  }

  ghost predicate Inv(s: State, epoch: nat) {
    && |s.proposals| == |s.proposers|
    && (forall i: nat {:trigger s.proposals[i]} :: i < |s.proposals| ==> s.proposals[i].content.epoch == epoch)
    && s.writes == (if s.plan.Some? then 1 else 0)
    && (s.plan.Some? ==> Valid(s.plan.value) && s.plan.value.content.epoch == epoch && s.plan.value in s.proposals)
    && (s.marker.Some? ==> s.plan.Some? && s.marker == Some(s.plan.value.digest))
    && (forall i: nat {:trigger ProposerOk(s, i)} :: i < |s.proposers| ==> ProposerOk(s, i))
    && (forall i: nat, j: nat {:trigger Alone(s, i, j)} :: i < |s.proposers| && j < |s.proposers| ==> Alone(s, i, j))
    && (forall i: nat {:trigger s.proposers[i]} :: i < |s.proposers| && Owns(s.proposers[i]) ==> s.plan.Some?)
    && (forall k: nat {:trigger LoaderOk(s, k)} :: k < |s.loaders| ==> LoaderOk(s, k))
  }

  ghost predicate Init(s: State, epoch: nat) {
    && |s.proposals| == |s.proposers|
    && (forall i: nat {:trigger s.proposals[i]} :: i < |s.proposals| ==> s.proposals[i].content.epoch == epoch)
    && s.plan == None && s.marker == None && s.writes == 0
    && (forall p :: p in s.proposers ==> p.Ready?)
    && (forall l :: l in s.loaders ==> l.Idle?)
  }

  lemma InitHolds(s: State, epoch: nat)
    requires Init(s, epoch)
    ensures Inv(s, epoch)
  {
    forall i: nat | i < |s.proposers| ensures s.proposers[i].Ready? {
      assert s.proposers[i] in s.proposers;
    }
    forall k: nat | k < |s.loaders| ensures s.loaders[k].Idle? {
      assert s.loaders[k] in s.loaders;
    }
  }

  /** The write happens only while the key is still absent. */
  lemma WritesOnlyWhenAbsent(s: State, a: Action, epoch: nat)
    requires Inv(s, epoch) && Next(s, a).writes != s.writes
    ensures s.plan.None? && Next(s, a).writes == s.writes + 1
  {
    assert ProposerOk(s, a.i);
  }

  /** What one command does to the store: the plan, once there, stays; the marker is only ever its digest. */
  lemma StoreMoves(s: State, a: Action, epoch: nat)
    requires Inv(s, epoch)
    ensures var t := Next(s, a);
      && |t.proposals| == |t.proposers| == |s.proposers| && t.proposals == s.proposals && |t.loaders| == |s.loaders|
      && (s.plan.Some? ==> t.plan == s.plan && t.writes == s.writes)
      && (s.plan.None? && t.plan.Some? ==>
            && a.Exec? && a.i < |s.proposers| && s.proposers[a.i].Absent? && t.plan.value == s.proposals[a.i]
            && t.proposers == s.proposers[a.i := Wrote] && t.writes == s.writes + 1)
      && (s.plan.None? && t.plan.None? ==> t.writes == s.writes)
      && s.stamp <= t.stamp && (t.plan != s.plan ==> s.stamp < t.stamp)
      && (s.marker.Some? ==> t.marker == s.marker)
      && (t.marker.Some? ==> t.plan.Some? && t.marker == Some(t.plan.value.digest))
  {
    if !a.LoadPlanKey? && !a.LoadMarker? && a.i < |s.proposers| {
      assert ProposerOk(s, a.i);
    }
  }

  lemma ProposerMoves(s: State, a: Action, epoch: nat, i: nat)
    requires Inv(s, epoch) && i < |s.proposers|
    ensures var t := Next(s, a);
      && |t.proposals| == |t.proposers| == |s.proposers|
      && ProposerOk(t, i)
      && (Owns(t.proposers[i]) ==> t.plan.Some? && (Owns(s.proposers[i]) || s.plan.None?))
      && (i != (if a.LoadPlanKey? || a.LoadMarker? then |s.proposers| else a.i) ==> t.proposers[i] == s.proposers[i])
  {
    if a.LoadPlanKey? || a.LoadMarker? || a.i != i {
      OtherProposerStays(s, a, epoch, i);
    } else {
      MovingProposer(s, a, epoch, i);
    }
  }

  /** A proposer that does not move is still where the store allows it to be. */
  lemma OtherProposerStays(s: State, a: Action, epoch: nat, i: nat)
    requires Inv(s, epoch) && i < |s.proposers| && (a.LoadPlanKey? || a.LoadMarker? || a.i != i)
    ensures var t := Next(s, a);
      && |t.proposals| == |t.proposers| == |s.proposers| && t.proposers[i] == s.proposers[i]
      && ProposerOk(t, i) && (Owns(t.proposers[i]) ==> t.plan.Some?)
  {
    StoreMoves(s, a, epoch);
    assert ProposerOk(s, i);
  }

  lemma MovingProposer(s: State, a: Action, epoch: nat, i: nat)
    requires Inv(s, epoch) && i < |s.proposers| && !a.LoadPlanKey? && !a.LoadMarker? && a.i == i
    ensures var t := Next(s, a);
      && |t.proposals| == |t.proposers| == |s.proposers|
      && ProposerOk(t, i)
      && (Owns(t.proposers[i]) ==> t.plan.Some? && (Owns(s.proposers[i]) || s.plan.None?))
  {
    StoreMoves(s, a, epoch);
    assert ProposerOk(s, i);
  }

  lemma LoaderMoves(s: State, a: Action, epoch: nat, k: nat)
    requires Inv(s, epoch) && k < |s.loaders|
    ensures |Next(s, a).loaders| == |s.loaders| && LoaderOk(Next(s, a), k)
  {
    StoreMoves(s, a, epoch);
    assert LoaderOk(s, k);
  }

  lemma StepHolds(s: State, a: Action, epoch: nat)
    requires Inv(s, epoch)
    ensures Inv(Next(s, a), epoch)
  {
    var t := Next(s, a);
    StoreMoves(s, a, epoch);
    forall i: nat {:trigger ProposerOk(t, i)} | i < |t.proposers| ensures ProposerOk(t, i) {
      ProposerMoves(s, a, epoch, i);
    }
    forall i: nat {:trigger t.proposers[i]} | i < |t.proposers| && Owns(t.proposers[i]) ensures t.plan.Some? {
      ProposerMoves(s, a, epoch, i);
    }
    forall i: nat, j: nat {:trigger Alone(t, i, j)} | i < |t.proposers| && j < |t.proposers| ensures Alone(t, i, j) {
      ProposerMoves(s, a, epoch, i);
      ProposerMoves(s, a, epoch, j);
      assert Alone(s, i, j);
    }
    forall k: nat {:trigger LoaderOk(t, k)} | k < |t.loaders| ensures LoaderOk(t, k) {
      LoaderMoves(s, a, epoch, k);
    }
    if s.plan.None? && t.plan.Some? {
      assert ProposerOk(s, a.i);
      assert t.plan.value in t.proposals;
    }
  }

  // ---------- Runs ----------

  ghost function After(s: State, actions: seq<Action>): State
    requires |s.proposals| == |s.proposers|
    ensures |After(s, actions).proposals| == |After(s, actions).proposers|
  {
    if actions == [] then s else Next(After(s, actions[..|actions| - 1]), actions[|actions| - 1])
  }

  lemma {:induction false} RunHolds(s: State, actions: seq<Action>, epoch: nat)
    requires Init(s, epoch)
    ensures Inv(After(s, actions), epoch)
  {
    if actions == [] {
      InitHolds(s, epoch);
    } else {
      RunHolds(s, actions[..|actions| - 1], epoch);
      StepHolds(After(s, actions[..|actions| - 1]), actions[|actions| - 1], epoch);
    }
  }

  /** The plan an epoch once has is the plan it keeps, and what is marked as committed stays marked: a winner may
      crash anywhere, and nothing but its plan can be committed after it. */
  lemma {:induction false} NothingElseIsEverCommitted(s: State, actions: seq<Action>, more: seq<Action>, epoch: nat)
    requires Init(s, epoch)
    ensures var early, late := After(s, actions), After(s, actions + more);
      && early.writes <= late.writes <= 1
      && (early.plan.Some? ==> late.plan == early.plan)
      && (early.marker.Some? ==> late.marker == early.marker)
      && (late.marker.Some? ==> late.plan.Some? && late.marker == Some(late.plan.value.digest))
      && (early.plan.Some? && late.marker.Some? ==> late.marker == Some(early.plan.value.digest))
    decreases |more|
  {
    RunHolds(s, actions, epoch);
    RunHolds(s, actions + more, epoch);
    if more == [] {
      assert actions + more == actions;
    } else {
      var rest := more[..|more| - 1];
      NothingElseIsEverCommitted(s, actions, rest, epoch);
      RunHolds(s, actions + rest, epoch);
      assert (actions + more)[..|actions + more| - 1] == actions + rest;
      StoreMoves(After(s, actions + rest), more[|more| - 1], epoch);
    }
  }

  /** Two pods that both load a plan for the epoch, at whatever times, loaded the same valid plan of that epoch,
      although each read the plan and its marker in two separate commands. */
  lemma LoadersAgree(s: State, actions: seq<Action>, more: seq<Action>, epoch: nat, j: nat, k: nat)
    requires Init(s, epoch) && j < |After(s, actions).loaders| && k < |After(s, actions + more).loaders|
    requires After(s, actions).loaders[j].Loaded? && After(s, actions + more).loaders[k].Loaded?
    ensures After(s, actions).loaders[j] == After(s, actions + more).loaders[k]
    ensures Valid(After(s, actions).loaders[j].plan) && After(s, actions).loaders[j].plan.content.epoch == epoch
    ensures After(s, actions).loaders[j].plan in s.proposals
  {
    RunHolds(s, actions, epoch);
    RunHolds(s, actions + more, epoch);
    NothingElseIsEverCommitted(s, actions, more, epoch);
    ProposalsStay(s, actions);
    assert LoaderOk(After(s, actions), j) && LoaderOk(After(s, actions + more), k);
  }

  lemma {:induction false} ProposalsStay(s: State, actions: seq<Action>)
    requires |s.proposals| == |s.proposers|
    ensures After(s, actions).proposals == s.proposals && |After(s, actions).proposers| == |s.proposers|
  {
    if actions != [] {
      ProposalsStay(s, actions[..|actions| - 1]);
    }
  }

  /** At most one proposer is told that it won, and its plan is the one every loader gets. */
  lemma OneWinner(s: State, actions: seq<Action>, epoch: nat, i: nat, j: nat, k: nat)
    requires Init(s, epoch) && i < |s.proposers| && j < |s.proposers| && k < |After(s, actions).loaders|
    requires i < |After(s, actions).proposers| && j < |After(s, actions).proposers|
    ensures After(s, actions).proposers[i].Won? && After(s, actions).proposers[j].Won? ==> i == j
    ensures After(s, actions).proposers[i].Won? && After(s, actions).loaders[k].Loaded? ==>
      After(s, actions).loaders[k].plan == s.proposals[i]
  {
    RunHolds(s, actions, epoch);
    ProposalsStay(s, actions);
    var t := After(s, actions);
    assert Alone(t, i, j) && ProposerOk(t, i) && LoaderOk(t, k);
  }

  // ---------- What comes to pass ----------

  lemma OneMore(s: State, actions: seq<Action>, a: Action)
    requires |s.proposals| == |s.proposers|
    ensures After(s, actions + [a]) == Next(After(s, actions), a)
  {
    assert (actions + [a])[..|actions|] == actions;
  }

  /** A load succeeds exactly when the plan is there and marked, whatever happened before or between its commands. */
  lemma LoadSucceedsIff(s: State, actions: seq<Action>, epoch: nat, k: nat)
    requires Init(s, epoch) && k < |After(s, actions).loaders|
    ensures var t := After(s, actions);
      && (t.marker.Some? ==> t.plan.Some?)
      && (t.loaders[k].Idle? ==>
            Next(t, LoadPlanKey(k)).loaders[k] == if t.plan.Some? then Got(t.plan.value) else NotLoaded)
      && (t.loaders[k].Got? ==>
            Next(t, LoadMarker(k)).loaders[k] == if t.marker.Some? then Loaded(t.plan.value) else NotLoaded)
  {
    RunHolds(s, actions, epoch);
    assert LoaderOk(After(s, actions), k);
  }

  predicate OfLoader(a: Action, k: nat) {
    (a.LoadPlanKey? || a.LoadMarker?) && a.k == k
  }

  lemma OtherLoaderStays(s: State, a: Action, k: nat)
    requires |s.proposals| == |s.proposers| && k < |s.loaders| && !OfLoader(a, k)
    ensures |Next(s, a).loaders| == |s.loaders| && Next(s, a).loaders[k] == s.loaders[k]
  {
  }

  lemma {:induction false} LoaderWaits(s: State, actions: seq<Action>, k: nat)
    requires |s.proposals| == |s.proposers| && k < |s.loaders| && forall a :: a in actions ==> !OfLoader(a, k)
    ensures |After(s, actions).loaders| == |s.loaders| && After(s, actions).loaders[k] == s.loaders[k]
  {
    if actions != [] {
      LoaderWaits(s, actions[..|actions| - 1], k);
      OtherLoaderStays(After(s, actions[..|actions| - 1]), actions[|actions| - 1], k);
    }
  }

  lemma {:induction false} AfterBoth(s: State, x: seq<Action>, y: seq<Action>)
    requires |s.proposals| == |s.proposers|
    ensures After(s, x + y) == After(After(s, x), y)
  {
    if y == [] {
      assert x + y == x;
    } else {
      AfterBoth(s, x, y[..|y| - 1]);
      OneMore(s, x + y[..|y| - 1], y[|y| - 1]);
      assert x + y == (x + y[..|y| - 1]) + [y[|y| - 1]];
    }
  }

  /** The loader has read the plan's key. */
  lemma GotIt(s: State, actions: seq<Action>, epoch: nat, k: nat)
    requires Init(s, epoch) && After(s, actions).marker.Some? && k < |After(s, actions).loaders|
    requires After(s, actions).loaders[k].Idle?
    ensures var t := After(s, actions + [LoadPlanKey(k)]);
      k < |t.loaders| && t.loaders[k].Got? && t.plan.Some? && t.marker.Some? && After(s, actions).plan == t.plan
  {
    LoadSucceedsIff(s, actions, epoch, k);
    OneMore(s, actions, LoadPlanKey(k));
  }

  /** The loader has read the plan, and others have moved since. */
  lemma GotAndWaited(s: State, actions: seq<Action>, between: seq<Action>, epoch: nat, k: nat)
    requires Init(s, epoch) && After(s, actions).marker.Some? && k < |After(s, actions).loaders|
    requires After(s, actions).loaders[k].Idle? && forall a :: a in between ==> !OfLoader(a, k)
    ensures var t := After(s, actions + [LoadPlanKey(k)] + between);
      k < |t.loaders| && t.loaders[k].Got? && After(s, actions).plan == t.plan && t.plan.Some? && t.marker.Some?
  {
    GotIt(s, actions, epoch, k);
    var got := actions + [LoadPlanKey(k)];
    AfterBoth(s, got, between);
    LoaderWaits(After(s, got), between, k);
    NothingElseIsEverCommitted(s, got, between, epoch);
  }

  /** Every loader that starts once the plan is marked gets it, whoever moves between its two commands. */
  lemma LoadsOnceMarked(s: State, actions: seq<Action>, between: seq<Action>, epoch: nat, k: nat)
    requires Init(s, epoch) && After(s, actions).marker.Some? && k < |After(s, actions).loaders|
    requires After(s, actions).loaders[k].Idle? && forall a :: a in between ==> !OfLoader(a, k)
    ensures var t := Next(After(s, actions + [LoadPlanKey(k)] + between), LoadMarker(k));
      && k < |t.loaders| && After(s, actions).plan.Some?
      && t.loaders[k] == Loaded(After(s, actions).plan.value)
  {
    GotAndWaited(s, actions, between, epoch, k);
    LoadSucceedsIff(s, actions + [LoadPlanKey(k)] + between, epoch, k);
  }

  /** The commands of a proposer that nobody disturbs, up to its own write or to its hold on the plan it finds. */
  function Beginning(i: nat, found: bool): seq<Action> {
    [Validate(i)] + [Get(i)] + [if found then Extend(i) else Exec(i)]
  }

  /** And those that commit it. */
  function Ending(i: nat): seq<Action> {
    [Wait(i, true)] + [Mark(i)] + [Wait(i, true)]
  }

  lemma Three(s: State, a: Action, t: State, b: Action, u: State, c: Action)
    requires |s.proposals| == |s.proposers| && |t.proposals| == |t.proposers| && |u.proposals| == |u.proposers|
    requires Next(s, a) == t && Next(t, b) == u
    ensures After(s, [a] + [b] + [c]) == Next(u, c)
  {
    OneMore(s, [], a);
    assert [] + [a] == [a];
    OneMore(s, [a], b);
    OneMore(s, [a] + [b], c);
  }

  lemma Looks(s: State, i: nat)
    requires |s.proposals| == |s.proposers| && i < |s.proposers| && s.proposers[i].Ready? && Valid(s.proposals[i])
    ensures Next(s, Validate(i)) == At(s, i, Watching(s.stamp))
    ensures Next(At(s, i, Watching(s.stamp)), Get(i))
         == At(s, i, if s.plan.Some? then Found(s.plan.value) else Absent(s.stamp))
  {
  }

  lemma BeginsAlone(s: State, i: nat)
    requires |s.proposals| == |s.proposers| && i < |s.proposers| && s.proposers[i].Ready? && Valid(s.proposals[i])
    requires s.plan.Some? ==> Valid(s.plan.value)
    ensures var u := After(s, Beginning(i, s.plan.Some?));
      && i < |u.proposers| && u.proposals == s.proposals && u.loaders == s.loaders
      && (if s.plan.Some? then u.plan == s.plan && u.proposers[i] == Extended(s.plan.value)
          else u.plan == Some(s.proposals[i]) && u.proposers[i] == Wrote)
  {
    Looks(s, i);
    Three(s, Validate(i), At(s, i, Watching(s.stamp)), Get(i),
          At(s, i, if s.plan.Some? then Found(s.plan.value) else Absent(s.stamp)),
          if s.plan.Some? then Extend(i) else Exec(i));
  }

  lemma OwnSteps(s: State, i: nat)
    requires |s.proposals| == |s.proposers| && i < |s.proposers| && s.proposers[i].Wrote?
    ensures Next(s, Wait(i, true)) == At(s, i, Replicated)
    ensures Next(At(s, i, Replicated), Mark(i)) == At(s, i, MarkedOwn).(marker := Some(s.proposals[i].digest))
  {
  }

  lemma MarksOwn(s: State, i: nat)
    requires |s.proposals| == |s.proposers| && i < |s.proposers| && s.proposers[i].Wrote?
    ensures After(s, Ending(i)) == At(s, i, Won).(marker := Some(s.proposals[i].digest))
  {
    OwnSteps(s, i);
    Three(s, Wait(i, true), At(s, i, Replicated), Mark(i),
          At(s, i, MarkedOwn).(marker := Some(s.proposals[i].digest)), Wait(i, true));
  }

  lemma FoundSteps(s: State, i: nat)
    requires |s.proposals| == |s.proposers| && i < |s.proposers| && s.proposers[i].Extended?
    ensures var existing := s.proposers[i].existing;
      && Next(s, Wait(i, true)) == At(s, i, Settled(existing))
      && Next(At(s, i, Settled(existing)), Mark(i)) == At(s, i, Marked).(marker := Some(existing.digest))
  {
  }

  lemma MarksFound(s: State, i: nat)
    requires |s.proposals| == |s.proposers| && i < |s.proposers| && s.proposers[i].Extended?
    ensures After(s, Ending(i)) == At(s, i, Lost).(marker := Some(s.proposers[i].existing.digest))
  {
    var existing := s.proposers[i].existing;
    FoundSteps(s, i);
    Three(s, Wait(i, true), At(s, i, Settled(existing)), Mark(i),
          At(s, i, Marked).(marker := Some(existing.digest)), Wait(i, true));
  }

  lemma EndsAlone(s: State, i: nat)
    requires |s.proposals| == |s.proposers| && i < |s.proposers|
    requires s.proposers[i].Wrote? || s.proposers[i].Extended?
    ensures var u := After(s, Ending(i));
      && i < |u.proposers| && u.plan == s.plan && u.loaders == s.loaders && u.marker.Some?
      && u.proposers[i] == if s.proposers[i].Wrote? then Won else Lost
  {
    if s.proposers[i].Wrote? {
      MarksOwn(s, i);
    } else {
      MarksFound(s, i);
    }
  }

  /** From every reachable state a proposer with a valid plan that runs on alone commits a plan: its own, and it has
      won, if there is none yet; otherwise the one that is there, also when its writer has crashed before it marked it,
      and it has lost. */
  lemma AloneItCommits(s: State, actions: seq<Action>, epoch: nat, i: nat)
    requires Init(s, epoch) && i < |After(s, actions).proposers| && After(s, actions).proposers[i].Ready?
    requires Valid(After(s, actions).proposals[i])
    ensures var t := After(s, actions);
      var u := After(s, actions + Beginning(i, t.plan.Some?) + Ending(i));
      && i < |u.proposers| && u.marker.Some? && u.loaders == t.loaders
      && (if t.plan.None? then u.plan == Some(t.proposals[i]) && u.proposers[i].Won?
          else u.plan == t.plan && u.proposers[i].Lost?)
  {
    var t := After(s, actions);
    RunHolds(s, actions, epoch);
    BeginsAlone(t, i);
    EndsAlone(After(t, Beginning(i, t.plan.Some?)), i);
    AfterBoth(s, actions, Beginning(i, t.plan.Some?));
    AfterBoth(s, actions + Beginning(i, t.plan.Some?), Ending(i));
  }

  /** One valid proposal, nobody disturbed: the proposer wins and every loader that then loads gets its plan. */
  lemma UndisturbedEpoch(s: State, epoch: nat, i: nat, k: nat)
    requires Init(s, epoch) && i < |s.proposers| && Valid(s.proposals[i]) && k < |s.loaders|
    ensures var u := After(s, Beginning(i, false) + Ending(i));
      var v := Next(After(s, Beginning(i, false) + Ending(i) + [LoadPlanKey(k)] + []), LoadMarker(k));
      && i < |u.proposers| && u.proposers[i].Won? && u.plan == Some(s.proposals[i])
      && k < |v.loaders| && v.loaders[k] == Loaded(s.proposals[i])
  {
    assert s.proposers[i] in s.proposers && s.loaders[k] in s.loaders;
    AloneItCommits(s, [], epoch, i);
    assert [] + Beginning(i, false) == Beginning(i, false);
    LoadsOnceMarked(s, Beginning(i, false) + Ending(i), [], epoch, k);
  }

  /** A proposer that found no plan, but whose key was written before it could write, has lost. */
  lemma OvertakenIsLost(s: State, actions: seq<Action>, epoch: nat, i: nat)
    requires Init(s, epoch) && i < |After(s, actions).proposers|
    requires After(s, actions).proposers[i].Absent? && After(s, actions).plan.Some?
    ensures Next(After(s, actions), Exec(i)).proposers[i].Lost?
    ensures Next(After(s, actions), Exec(i)).plan == After(s, actions).plan
  {
    RunHolds(s, actions, epoch);
    assert ProposerOk(After(s, actions), i);
  }

  /** How often enough replicas had a proposer's last command. */
  ghost function Waits(actions: seq<Action>, i: nat): nat {
    if actions == [] then 0
    else Waits(actions[..|actions| - 1], i) + if actions[|actions| - 1] == Wait(i, true) then 1 else 0
  }

  /** How many of those a proposer needs to stand where it does. */
  function Needs(p: Proposer): nat {
    match p
    case Settled(_) => 1
    case Replicated => 1
    case Marked => 1
    case MarkedOwn => 1
    case Won => 2
    case _ => 0
  }

  lemma StepNeeds(s: State, a: Action, i: nat)
    requires |s.proposals| == |s.proposers| && i < |s.proposers|
    ensures i < |Next(s, a).proposers|
    ensures Needs(Next(s, a).proposers[i]) <= Needs(s.proposers[i]) + if a == Wait(i, true) then 1 else 0
  {
  }

  lemma StepMarks(s: State, a: Action)
    requires |s.proposals| == |s.proposers| && s.marker.None? && Next(s, a).marker.Some?
    ensures a.Mark? && a.i < |s.proposers| && Needs(s.proposers[a.i]) >= 1
  {
  }

  lemma {:induction false} StandsOnWaits(s: State, actions: seq<Action>, epoch: nat, i: nat)
    requires Init(s, epoch) && i < |s.proposers|
    ensures i < |After(s, actions).proposers| && Needs(After(s, actions).proposers[i]) <= Waits(actions, i)
  {
    if actions == [] {
      assert s.proposers[i] in s.proposers;
    } else {
      StandsOnWaits(s, actions[..|actions| - 1], epoch, i);
      StepNeeds(After(s, actions[..|actions| - 1]), actions[|actions| - 1], i);
    }
  }

  /** Nobody has won before enough replicas had its plan and then its mark. */
  lemma WonAfterReplication(s: State, actions: seq<Action>, epoch: nat, i: nat)
    requires Init(s, epoch) && i < |s.proposers|
    ensures i < |After(s, actions).proposers| && (After(s, actions).proposers[i].Won? ==> Waits(actions, i) >= 2)
  {
    StandsOnWaits(s, actions, epoch, i);
  }

  /** Nothing is marked before enough replicas had the plan. */
  lemma {:induction false} MarkedAfterReplication(s: State, actions: seq<Action>, epoch: nat) returns (i: nat)
    requires Init(s, epoch) && After(s, actions).marker.Some?
    ensures i < |s.proposers| && Waits(actions, i) >= 1
  {
    var rest, last := actions[..|actions| - 1], actions[|actions| - 1];
    if After(s, rest).marker.Some? {
      i := MarkedAfterReplication(s, rest, epoch);
    } else {
      StepMarks(After(s, rest), last);
      ProposalsStay(s, rest);
      i := last.i;
      StandsOnWaits(s, rest, epoch, i);
    }
  }

  // ---------- Retention ----------

  /** How long the plan's key is kept, in milliseconds. */
  function Retention(p: Plan): int {
    var three := 3 * (p.content.validUntil - p.content.validFrom);
    if three < 60000 then 60000 else three
  }

  /** A plan proposed within its predecessor's epoch, and touched again or not, is still there when its own epoch
      ends, whenever both epochs have the same length. */
  lemma OutlivesItsEpoch(p: Plan, writtenAt: int)
    requires Valid(p)
    requires p.content.validFrom - (p.content.validUntil - p.content.validFrom) <= writtenAt
    ensures writtenAt + Retention(p) > p.content.validUntil
  {
  }
}
