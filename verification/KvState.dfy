/** The coordination loop over a revisioned document: read, edit, write at the revision read, and start over when
    another caller won the race. The edit is whatever the callers pass; it sees the revision that was read. */
module KvState {
  import opened Options

  const MAX_TRIES := 16

  /** A stored revision; numbers start at 1 and `created` is the broker's stamp. */
  datatype Revision<D> = Revision(number: nat, doc: D, created: real)

  /** What an edit makes of the revision it read and a caller's input: the new document and the answer, or nothing
      when it fails. */
  type Edit<!D, !Q, !A> = (Option<Revision<D>>, Q) -> Option<(D, A)>

  /** A caller of `Change`: about to read again after `tries` lost races, holding what it read, or finished. */
  datatype Caller<D, A> =
    | Reading(tries: nat)
    | Holding(tries: nat, base: Option<Revision<D>>)
    | Decided(answer: A)
    | Errored

  datatype Commit<Q, A> = Commit(caller: nat, input: Q, answer: A, number: nat, created: real)

  datatype State<D, Q, A> =
    State(entry: Option<Revision<D>>, callers: seq<Caller<D, A>>, inputs: seq<Q>, log: seq<Commit<Q, A>>)

  /** A write reaches the broker or not, and its answer reaches the caller or not. */
  datatype Action =
    | Read(i: nat)
    | Write(i: nat, number: nat, created: real, heard: bool)
    | Fail(i: nat)

  /** Create succeeds on a missing key, update on the revision it names. */
  ghost predicate Wins<D, Q, A>(s: State<D, Q, A>, base: Option<Revision<D>>) {
    if base.None? then s.entry.None? else s.entry.Some? && s.entry.value.number == base.value.number
  }

  ghost function CallerAt<D, Q, A>(s: State<D, Q, A>, i: nat, c: Caller<D, A>): State<D, Q, A>
    requires i < |s.callers|
  {
    s.(callers := s.callers[i := c])
  }

  /** One step of one caller. An error that is not a lost race ends the call, whether or not its write happened. */
  ghost function Next<D, Q, A>(edit: Edit<D, Q, A>, s: State<D, Q, A>, a: Action): State<D, Q, A>
    requires |s.callers| == |s.inputs|
  {
    if a.i >= |s.callers| then s
    else
      match (a, s.callers[a.i])
      case (Read(i), Reading(tries)) => CallerAt(s, i, if tries >= MAX_TRIES then Errored else Holding(tries, s.entry))
      case (Write(i, number, created, heard), Holding(tries, base)) =>
        (match edit(base, s.inputs[i])
         case None => CallerAt(s, i, Errored)
         case Some((doc, answer)) =>
           if !Wins(s, base) then CallerAt(s, i, if heard then Reading(tries + 1) else Errored)
           else
             CallerAt(s, i, if heard then Decided(answer) else Errored).(
               entry := Some(Revision(number, doc, created)),
               log := s.log + [Commit(i, s.inputs[i], answer, number, created)]))
      case (Fail(i), Reading(_)) => CallerAt(s, i, Errored)
      case (Fail(i), Holding(_, _)) => CallerAt(s, i, Errored)
      case (_, _) => s
  }

  /** The broker numbers revisions upwards and its clock does not go back. */
  ghost predicate Enabled<D, Q, A>(s: State<D, Q, A>, a: Action) {
    a.Write? && s.entry.Some? ==> a.number > s.entry.value.number && a.created >= s.entry.value.created
  }

  /** The document after the commits are made one after the other. */
  ghost function Replay<D, Q, A>(edit: Edit<D, Q, A>, log: seq<Commit<Q, A>>): Option<Revision<D>> {
    if log == [] then None
    else
      var before, c := Replay(edit, log[..|log| - 1]), log[|log| - 1];
      var made := edit(before, c.input);
      if made.None? then before else Some(Revision(c.number, made.value.0, c.created))
  }

  /** The k-th commit answered what the edit answers at its place in the replay, no earlier than its predecessor. */
  ghost predicate InSequence<D, Q, A>(edit: Edit<D, Q, A>, log: seq<Commit<Q, A>>, k: nat)
    requires k < |log|
  {
    var made := edit(Replay(edit, log[..k]), log[k].input);
    && made.Some? && log[k].answer == made.value.1
    && (k > 0 ==> log[k - 1].created <= log[k].created)
  }

  ghost predicate Faithful<D, Q, A>(edit: Edit<D, Q, A>, log: seq<Commit<Q, A>>) {
    forall k: nat {:trigger InSequence(edit, log, k)} :: k < |log| ==> InSequence(edit, log, k)
  }

  ghost predicate Wrote<Q, A>(log: seq<Commit<Q, A>>, i: nat) {
    exists k :: 0 <= k < |log| && log[k].caller == i
  }

  /** How a caller's standing agrees with the log: nothing of its own while it still tries, and the answer it was
      given is that of its own commit. */
  ghost predicate CallerOk<D, Q, A>(s: State<D, Q, A>, i: nat)
    requires i < |s.callers|
  {
    match s.callers[i]
    case Reading(tries) => tries <= MAX_TRIES && !Wrote(s.log, i)
    case Holding(tries, base) =>
      && tries < MAX_TRIES && !Wrote(s.log, i)
      && (base.Some? ==> s.entry.Some? && base.value.number <= s.entry.value.number)
      && (Wins(s, base) ==> base == s.entry)
    case Decided(answer) => exists k :: 0 <= k < |s.log| && s.log[k].caller == i && s.log[k].answer == answer
    case Errored => true
  }

  ghost predicate Apart<Q, A>(log: seq<Commit<Q, A>>, j: nat, k: nat)
    requires j < |log| && k < |log|
  {
    log[j].caller != log[k].caller
  }

  /** The k-th commit is of a caller's own input. */
  ghost predicate Owned<D, Q, A>(s: State<D, Q, A>, k: nat)
    requires k < |s.log|
  {
    s.log[k].caller < |s.inputs| && s.log[k].input == s.inputs[s.log[k].caller]
  }

  ghost predicate Inv<D, Q, A>(edit: Edit<D, Q, A>, s: State<D, Q, A>) {
    && |s.callers| == |s.inputs|
    && s.entry == Replay(edit, s.log)
    && Faithful(edit, s.log)
    && (s.entry.Some? ==> s.log != [] && s.log[|s.log| - 1].created == s.entry.value.created)
    && (s.entry.None? ==> s.log == [])
    && (forall k: nat {:trigger Owned(s, k)} :: k < |s.log| ==> Owned(s, k))
    && (forall j: nat, k: nat {:trigger Apart(s.log, j, k)} :: j < k < |s.log| ==> Apart(s.log, j, k))
    && (forall i: nat {:trigger CallerOk(s, i)} :: i < |s.callers| ==> CallerOk(s, i))
  }

  ghost predicate Init<D, Q, A>(s: State<D, Q, A>) {
    && |s.callers| == |s.inputs| && s.entry == None && s.log == []
    && forall i :: 0 <= i < |s.callers| ==> s.callers[i] == Reading(0)
  }

  lemma SameSequence<D, Q, A>(edit: Edit<D, Q, A>, log: seq<Commit<Q, A>>, c: Commit<Q, A>, k: nat)
    requires k < |log| && InSequence(edit, log, k)
    ensures InSequence(edit, log + [c], k)
  {
    assert (log + [c])[..k] == log[..k];
  }

  /** A write that wins the race extends the replay by its own commit. */
  lemma CommitExtends<D, Q, A>(edit: Edit<D, Q, A>, s: State<D, Q, A>, a: Action)
    requires Inv(edit, s) && Enabled(s, a) && Next(edit, s, a).log != s.log
    ensures var t := Next(edit, s, a);
      && t.entry == Replay(edit, t.log) && t.entry.Some?
      && Faithful(edit, t.log)
      && t.log[|t.log| - 1].created == t.entry.value.created
      && (forall j: nat, k: nat {:trigger Apart(t.log, j, k)} :: j < k < |t.log| ==> Apart(t.log, j, k))
      && (forall k: nat {:trigger Owned(t, k)} :: k < |t.log| ==> Owned(t, k))
  {
    var t := Next(edit, s, a);
    assert CallerOk(s, a.i);
    var c := t.log[|s.log|];
    assert t.log == s.log + [c] && t.log[..|s.log|] == s.log;
    forall k: nat {:trigger InSequence(edit, t.log, k)} | k < |t.log| ensures InSequence(edit, t.log, k) {
      if k < |s.log| {
        assert InSequence(edit, s.log, k);
        SameSequence(edit, s.log, c, k);
      }
    }
    forall j: nat, k: nat {:trigger Apart(t.log, j, k)} | j < k < |t.log| ensures Apart(t.log, j, k) {
      if k < |s.log| {
        assert Apart(s.log, j, k);
      }
    }
    forall k: nat {:trigger Owned(t, k)} | k < |t.log| ensures Owned(t, k) {
      assert k < |s.log| ==> Owned(s, k);
    }
  }

  lemma CallersKeep<D, Q, A>(edit: Edit<D, Q, A>, s: State<D, Q, A>, a: Action, i: nat)
    requires Inv(edit, s) && Enabled(s, a) && i < |s.callers|
    ensures |Next(edit, s, a).callers| == |Next(edit, s, a).inputs| == |s.callers| && CallerOk(Next(edit, s, a), i)
  {
    var t := Next(edit, s, a);
    assert CallerOk(s, i);
    if a.i < |s.callers| {
      assert CallerOk(s, a.i);
      if t.log != s.log {
        assert t.log[|s.log|].caller == a.i && t.log[..|s.log|] == s.log;
        forall k | 0 <= k < |s.log| ensures t.log[k] == s.log[k] {
        }
      }
    }
  }

  lemma StepHolds<D, Q, A>(edit: Edit<D, Q, A>, s: State<D, Q, A>, a: Action)
    requires Inv(edit, s) && Enabled(s, a)
    ensures Inv(edit, Next(edit, s, a))
  {
    var t := Next(edit, s, a);
    forall i: nat {:trigger CallerOk(t, i)} | i < |t.callers| ensures CallerOk(t, i) {
      CallersKeep(edit, s, a, i);
    }
    if t.log != s.log {
      CommitExtends(edit, s, a);
    } else {
      forall k: nat {:trigger Owned(t, k)} | k < |t.log| ensures Owned(t, k) {
        assert Owned(s, k);
      }
    }
  }

  ghost function Run<D, Q, A>(edit: Edit<D, Q, A>, s: State<D, Q, A>, actions: seq<Action>): State<D, Q, A>
    requires |s.callers| == |s.inputs|
    ensures |Run(edit, s, actions).callers| == |Run(edit, s, actions).inputs|
  {
    if actions == [] then s else Next(edit, Run(edit, s, actions[..|actions| - 1]), actions[|actions| - 1])
  }

  ghost predicate Possible<D, Q, A>(edit: Edit<D, Q, A>, s: State<D, Q, A>, actions: seq<Action>)
    requires |s.callers| == |s.inputs|
  {
    actions != [] ==>
      var rest := actions[..|actions| - 1];
      Possible(edit, s, rest) && Enabled(Run(edit, s, rest), actions[|actions| - 1])
  }

  /** Under any interleaving the document is what making the commits in order gives, every commit's answer is the
      edit's at its place, a caller commits at most once, and an answer it was given is that of its commit. */
  lemma {:induction false} Linearizable<D, Q, A>(edit: Edit<D, Q, A>, s: State<D, Q, A>, actions: seq<Action>)
    requires Init(s) && Possible(edit, s, actions)
    ensures Inv(edit, Run(edit, s, actions))
  {
    if actions != [] {
      Linearizable(edit, s, actions[..|actions| - 1]);
      StepHolds(edit, Run(edit, s, actions[..|actions| - 1]), actions[|actions| - 1]);
    }
  }

  /** A call reads at most sixteen times. */
  lemma TriesAreBounded<D, Q, A>(edit: Edit<D, Q, A>, s: State<D, Q, A>, actions: seq<Action>, i: nat)
    requires Init(s) && Possible(edit, s, actions) && i < |Run(edit, s, actions).callers|
    ensures Run(edit, s, actions).callers[i].Holding? ==> Run(edit, s, actions).callers[i].tries < MAX_TRIES
    ensures Run(edit, s, actions).callers[i].Decided? ==> Wrote(Run(edit, s, actions).log, i)
  {
    Linearizable(edit, s, actions);
    assert CallerOk(Run(edit, s, actions), i);
  }

  /** How often a caller has written. */
  ghost function Writes<D, Q, A>(edit: Edit<D, Q, A>, s: State<D, Q, A>, actions: seq<Action>, i: nat): nat
    requires |s.callers| == |s.inputs|
  {
    if actions == [] then 0
    else
      var rest, last := actions[..|actions| - 1], actions[|actions| - 1];
      var before := Run(edit, s, rest);
      Writes(edit, s, rest, i)
      + if last.Write? && last.i == i < |before.callers| && before.callers[i].Holding? then 1 else 0
  }

  /** A call writes at most sixteen times, and knows how often it has. */
  lemma {:induction false} WritesAreBounded<D, Q, A>(edit: Edit<D, Q, A>, s: State<D, Q, A>, actions: seq<Action>,
                                                     i: nat)
    requires Init(s) && i < |s.callers|
    ensures |Run(edit, s, actions).callers| == |s.callers| && Writes(edit, s, actions, i) <= MAX_TRIES
    ensures match Run(edit, s, actions).callers[i]
            case Reading(tries) => Writes(edit, s, actions, i) == tries
            case Holding(tries, _) => Writes(edit, s, actions, i) == tries < MAX_TRIES
            case _ => true
  {
    if actions != [] {
      WritesAreBounded(edit, s, actions[..|actions| - 1], i);
    }
  }

  /** A step in which nothing goes wrong but a lost race. */
  ghost predicate Sound(a: Action) {
    !a.Fail? && (a.Write? ==> a.heard)
  }

  /** Every lost race is a commit of another caller's. */
  ghost predicate LossesAreCommits<D, Q, A>(s: State<D, Q, A>, i: nat)
    requires i < |s.callers|
  {
    match s.callers[i]
    case Reading(tries) => tries <= |s.log|
    case Holding(tries, base) => tries <= |s.log| && (base != s.entry ==> tries + 1 <= |s.log|)
    case Decided(_) => true
    case Errored => |s.log| >= MAX_TRIES && !Wrote(s.log, i)
  }

  lemma StepCountsLosses<D, Q, A>(edit: Edit<D, Q, A>, s: State<D, Q, A>, a: Action, i: nat)
    requires Inv(edit, s) && Enabled(s, a) && Sound(a) && i < |s.callers| && forall e, q :: edit(e, q).Some?
    requires LossesAreCommits(s, i)
    ensures i < |Next(edit, s, a).callers| && LossesAreCommits(Next(edit, s, a), i)
  {
    var t := Next(edit, s, a);
    assert CallerOk(s, i);
    if a.i < |s.callers| {
      assert CallerOk(s, a.i);
      if t.log != s.log {
        assert t.log[|s.log|].caller == a.i && t.log[..|s.log|] == s.log;
      }
    }
  }

  /** A call gives up only after sixteen commits of others, if no answer is lost and no edit refuses. */
  lemma {:induction false} OnlyContentionFails<D, Q, A>(edit: Edit<D, Q, A>, s: State<D, Q, A>, actions: seq<Action>,
                                                       i: nat)
    requires Init(s) && Possible(edit, s, actions) && i < |s.callers|
    requires (forall e, q :: edit(e, q).Some?) && forall k :: 0 <= k < |actions| ==> Sound(actions[k])
    ensures i < |Run(edit, s, actions).callers| && LossesAreCommits(Run(edit, s, actions), i)
    ensures Run(edit, s, actions).callers[i].Errored? ==>
      |Run(edit, s, actions).log| >= MAX_TRIES && !Wrote(Run(edit, s, actions).log, i)
  {
    if actions != [] {
      var rest, last := actions[..|actions| - 1], actions[|actions| - 1];
      OnlyContentionFails(edit, s, rest, i);
      Linearizable(edit, s, rest);
      StepCountsLosses(edit, Run(edit, s, rest), last, i);
    }
  }

  // ---------- Every faithful log is the log of a run ----------

  /** A log in which every caller commits once, numbered and stamped as the broker does. */
  ghost predicate Numbered<Q, A>(log: seq<Commit<Q, A>>) {
    && (forall k :: 0 <= k < |log| ==> log[k].caller == k)
    && (forall j, k :: 0 <= j < k < |log| ==> log[j].number < log[k].number && log[j].created <= log[k].created)
  }

  function Callers<D, A>(answers: seq<A>, n: nat): seq<Caller<D, A>> {
    seq(n, i requires 0 <= i < n => if i < |answers| then Decided(answers[i]) else Reading(0))
  }

  ghost function Answers<Q, A>(log: seq<Commit<Q, A>>): seq<A> {
    seq(|log|, i requires 0 <= i < |log| => log[i].answer)
  }

  /** What a run that has made the first `n` commits has come to. */
  ghost function Reached<D, Q, A>(edit: Edit<D, Q, A>, log: seq<Commit<Q, A>>, n: nat): State<D, Q, A>
    requires n <= |log|
  {
    State(Replay(edit, log[..n]), Callers<D, A>(Answers(log[..n]), |log|),
          seq(|log|, i requires 0 <= i < |log| => log[i].input), log[..n])
  }

  /** The next caller reads and writes without a rival. */
  lemma NextCommit<D, Q, A>(edit: Edit<D, Q, A>, log: seq<Commit<Q, A>>, n: nat)
    requires n < |log| && Numbered(log) && Faithful(edit, log)
    ensures var s, c := Reached(edit, log, n), log[n];
      Next(edit, Next(edit, s, Read(n)), Write(n, c.number, c.created, true)) == Reached(edit, log, n + 1)
  {
    var s, t, c := Reached(edit, log, n), Reached(edit, log, n + 1), log[n];
    assert InSequence(edit, log, n);
    assert log[..n + 1][..n] == log[..n] && log[..n + 1] == log[..n] + [c];
    var read := Next(edit, s, Read(n));
    assert read == s.(callers := s.callers[n := Holding(0, s.entry)]);
    assert s.callers[n := Holding(0, s.entry)][n := Decided(c.answer)] == t.callers;
  }

  lemma ReplayNumbers<D, Q, A>(edit: Edit<D, Q, A>, log: seq<Commit<Q, A>>, n: nat)
    requires n <= |log| && Faithful(edit, log)
    ensures if n == 0 then Replay(edit, log[..n]).None?
            else Replay(edit, log[..n]).Some? && Replay(edit, log[..n]).value.number == log[n - 1].number
                 && Replay(edit, log[..n]).value.created == log[n - 1].created
  {
    if n > 0 {
      assert InSequence(edit, log, n - 1);
      assert log[..n][..n - 1] == log[..n - 1];
    }
  }

  lemma OneCommitMore<D, Q, A>(edit: Edit<D, Q, A>, log: seq<Commit<Q, A>>, n: nat,
                               rest: seq<Action>) returns (actions: seq<Action>)
    requires n < |log| && Numbered(log) && Faithful(edit, log)
    requires Possible(edit, Reached(edit, log, 0), rest)
    requires Run(edit, Reached(edit, log, 0), rest) == Reached(edit, log, n)
    ensures Possible(edit, Reached(edit, log, 0), actions)
    ensures Run(edit, Reached(edit, log, 0), actions) == Reached(edit, log, n + 1)
  {
    var s, c := Reached(edit, log, 0), log[n];
    NextCommit(edit, log, n);
    ReplayNumbers(edit, log, n);
    Extended(edit, s, rest, Read(n));
    Extended(edit, s, rest + [Read(n)], Write(n, c.number, c.created, true));
    actions := rest + [Read(n)] + [Write(n, c.number, c.created, true)];
  }

  lemma Extended<D, Q, A>(edit: Edit<D, Q, A>, s: State<D, Q, A>, actions: seq<Action>, a: Action)
    requires |s.callers| == |s.inputs| && Possible(edit, s, actions) && Enabled(Run(edit, s, actions), a)
    ensures Possible(edit, s, actions + [a]) && Run(edit, s, actions + [a]) == Next(edit, Run(edit, s, actions), a)
  {
    assert (actions + [a])[..|actions|] == actions;
  }

  lemma {:induction false} RunsUpTo<D, Q, A>(edit: Edit<D, Q, A>, log: seq<Commit<Q, A>>,
                                             n: nat) returns (actions: seq<Action>)
    requires n <= |log| && Numbered(log) && Faithful(edit, log)
    ensures Possible(edit, Reached(edit, log, 0), actions)
    ensures Run(edit, Reached(edit, log, 0), actions) == Reached(edit, log, n)
  {
    if n == 0 {
      actions := [];
    } else {
      var rest := RunsUpTo(edit, log, n - 1);
      actions := OneCommitMore(edit, log, n - 1, rest);
    }
  }

  /** The converse of `Linearizable`: every faithful log that the broker could number is written by some run. */
  lemma EveryFaithfulLogHappens<D, Q, A>(edit: Edit<D, Q, A>, log: seq<Commit<Q, A>>) returns (s: State<D, Q, A>,
                                         actions: seq<Action>)
    requires Numbered(log) && Faithful(edit, log)
    ensures Init(s) && Possible(edit, s, actions) && Run(edit, s, actions).log == log
  {
    s := Reached(edit, log, 0);
    actions := RunsUpTo(edit, log, |log|);
    assert log[..|log|] == log;
  }

  // ---------- The loop itself ----------

  /** Somebody else's successful edit between a read and the write that follows it; the broker leaves `gap` numbers
      out and stamps it `wait` after the revision before. */
  datatype Turn<Q> = Turn(caller: nat, input: Q, gap: nat, wait: nat)

  /** What happens around one write: who goes first, how the broker stamps it, and whether its answer comes back. */
  datatype Round<Q> = Round(others: seq<Turn<Q>>, gap: nat, wait: nat, heard: bool)

  datatype Reply<A> = Done(answer: A, number: nat) | Failed | Contended

  ghost predicate Agrees<D, Q, A>(edit: Edit<D, Q, A>, entry: Option<Revision<D>>, log: seq<Commit<Q, A>>) {
    && entry == Replay(edit, log) && Faithful(edit, log)
    && (entry.Some? <==> log != [])
    && (entry.Some? ==> log[|log| - 1].created == entry.value.created)
  }

  lemma Appended<D, Q, A>(edit: Edit<D, Q, A>, entry: Option<Revision<D>>, log: seq<Commit<Q, A>>, doc: D,
                          c: Commit<Q, A>)
    requires Agrees(edit, entry, log) && edit(entry, c.input) == Some((doc, c.answer))
    requires entry.Some? ==> entry.value.created <= c.created
    ensures Agrees(edit, Some(Revision(c.number, doc, c.created)), log + [c])
  {
    var more := log + [c];
    assert more[..|log|] == log;
    forall k: nat {:trigger InSequence(edit, more, k)} | k < |more| ensures InSequence(edit, more, k) {
      if k < |log| {
        assert InSequence(edit, log, k);
        SameSequence(edit, log, c, k);
      }
    }
  }

  /** `log` is `before` and after it commits of callers other than `me`. */
  ghost predicate Grown<Q, A>(before: seq<Commit<Q, A>>, log: seq<Commit<Q, A>>, me: nat) {
    |before| <= |log| && log[..|before|] == before && forall k :: |before| <= k < |log| ==> log[k].caller != me
  }

  lemma GrownTwice<Q, A>(x: seq<Commit<Q, A>>, y: seq<Commit<Q, A>>, z: seq<Commit<Q, A>>, me: nat)
    requires Grown(x, y, me) && Grown(y, z, me)
    ensures Grown(x, z, me)
  {
    assert z[..|x|] == z[..|y|][..|x|];
  }

  lemma GrownByOne<Q, A>(before: seq<Commit<Q, A>>, log: seq<Commit<Q, A>>, c: Commit<Q, A>, me: nat)
    requires Grown(before, log, me) && c.caller != me
    ensures Grown(before, log + [c], me)
  {
    assert (log + [c])[..|before|] == log[..|before|];
  }

  /** What a call may leave behind: while it still tries, other callers' commits, at least one for every lost race;
      when it is done, its own commit after those. */
  ghost predicate Leaves<D, Q, A>(before: seq<Commit<Q, A>>, entry: Option<Revision<D>>, log: seq<Commit<Q, A>>,
                                  me: nat, input: Q, races: nat, r: Reply<A>) {
    match r
    case Contended => Grown(before, log, me) && |log| >= |before| + races
    case Done(answer, number) =>
      && entry.Some? && log != [] && log[|log| - 1] == Commit(me, input, answer, number, entry.value.created)
      && Grown(before, log[..|log| - 1], me)
    case Failed => Grown(before, log, me) || (log != [] && Grown(before, log[..|log| - 1], me))
  }

  lemma LeavesMore<D, Q, A>(x: seq<Commit<Q, A>>, y: seq<Commit<Q, A>>, entry: Option<Revision<D>>, log: seq<Commit<Q,
                            A>>,
                            me: nat, input: Q, races: nat, r: Reply<A>)
    requires Leaves(x, entry, y, me, input, races, Reply<A>.Contended) && Leaves(y, entry, log, me, input, 1, r)
    ensures Leaves(x, entry, log, me, input, races + 1, r)
  {
    if Grown(y, log, me) {
      GrownTwice(x, y, log, me);
    }
    if log != [] && Grown(y, log[..|log| - 1], me) {
      GrownTwice(x, y, log[..|log| - 1], me);
    }
  }

  class Cell<D, Q, A> {
    const edit: Edit<D, Q, A>
    var entry: Option<Revision<D>>
    ghost var log: seq<Commit<Q, A>>

    ghost predicate Valid()
      reads this
    {
      Agrees(edit, entry, log)
    }

    constructor (edit: Edit<D, Q, A>)
      ensures this.edit == edit && Valid() && log == []
    {
      this.edit, entry, log := edit, None, [];
    }

    ghost predicate Newer(than: Option<Revision<D>>)
      reads this
    {
      entry.Some? && (than.Some? ==> entry.value.number > than.value.number)
    }

    /** The broker takes a revision. */
    method Accept(doc: D, gap: nat, wait: nat, ghost caller: nat, ghost input: Q, ghost answer: A)
      requires Valid() && edit(entry, input) == Some((doc, answer))
      modifies this
      ensures Valid() && Newer(old(entry)) && entry.value.doc == doc
      ensures log == old(log) + [Commit(caller, input, answer, entry.value.number, entry.value.created)]
    {
      var (number, created) := match entry
        case None => (1 + gap, wait as real)
        case Some(r) => (r.number + 1 + gap, r.created + wait as real);
      ghost var c := Commit(caller, input, answer, number, created);
      Appended(edit, entry, log, doc, c);
      entry := Some(Revision(number, doc, created));
      log := log + [c];
    }

    /** Other callers win the race, one after the other. */
    method Others(turns: seq<Turn<Q>>, ghost me: nat)
      requires Valid() && forall t :: t in turns ==> t.caller != me
      modifies this
      ensures Valid() && Grown(old(log), log, me)
      ensures if |log| == |old(log)| then entry == old(entry) else Newer(old(entry))
      ensures turns == [] ==> entry == old(entry)
    {
      for i := 0 to |turns|
        invariant Valid() && Grown(old(log), log, me)
        invariant if |log| == |old(log)| then entry == old(entry) else Newer(old(entry))
        invariant i == 0 ==> entry == old(entry)
      {
        var made := edit(entry, turns[i].input);
        if made.Some? {
          ghost var before := log;
          assert turns[i] in turns;
          Accept(made.value.0, turns[i].gap, turns[i].wait, turns[i].caller, turns[i].input, made.value.1);
          GrownByOne(old(log), before, log[|before|], me);
        }
      }
    }

    /** Create on a missing key, update at the revision that was read; the write is refused when that is no longer
        the stored one. */
    method Write(base: Option<Revision<D>>, doc: D, round: Round<Q>, ghost me: nat, ghost input: Q, ghost answer: A)
      returns (won: bool)
      requires Valid() && edit(base, input) == Some((doc, answer))
      requires base.Some? ==> entry.Some?
      requires base.Some? && base.value.number == entry.value.number ==> base == entry
      modifies this
      ensures Valid()
      ensures won <==> old(entry) == base
      ensures !won ==> entry == old(entry) && log == old(log)
      ensures won ==>
        entry.Some? && log == old(log) + [Commit(me, input, answer, entry.value.number, entry.value.created)]
    {
      won := if base.None? then entry.None? else entry.value.number == base.value.number;
      if won {
        Accept(doc, round.gap, round.wait, me, input, answer);
      }
    }

    /** One turn of the loop; `Contended` is a lost race. */
    method Attempt(input: Q, round: Round<Q>, ghost me: nat) returns (r: Reply<A>)
      requires Valid() && forall t :: t in round.others ==> t.caller != me
      modifies this
      ensures Valid() && Leaves(old(log), entry, log, me, input, 1, r)
      // Only an edit that refuses or an answer that is lost fails the call; a lost race does not.
      ensures edit(old(entry), input).None? ==> r.Failed? && entry == old(entry) && log == old(log)
      ensures edit(old(entry), input).Some? && round.heard ==> !r.Failed?
      ensures edit(old(entry), input).Some? && !round.heard ==> r.Failed?
      ensures edit(old(entry), input).Some? && round.heard && round.others == [] ==>
        r.Done? && r.answer == edit(old(entry), input).value.1
    {
      var base := entry;
      var made := edit(base, input);
      if made.None? {
        return Failed;
      }
      Others(round.others, me);
      ghost var before := log;
      var won := Write(base, made.value.0, round, me, input, made.value.1);
      if won {
        assert log[..|log| - 1] == before;
      }
      r := if !round.heard then Failed else if won then Done(made.value.1, entry.value.number) else Contended;
    }

    /** Reads, edits and writes until a write is not refused, at most sixteen times. Only the last commit can be its
        own; its answer is the edit's at that place in the log; and it gives up only after sixteen others went ahead. */
    method Change(input: Q, rounds: seq<Round<Q>>, ghost me: nat) returns (r: Reply<A>)
      requires Valid() && |rounds| == MAX_TRIES
      requires forall i :: 0 <= i < |rounds| ==> forall t :: t in rounds[i].others ==> t.caller != me
      modifies this
      ensures Valid() && Leaves(old(log), entry, log, me, input, MAX_TRIES, r)
      // A call whose edit never refuses and whose answers all arrive ends with its commit, or after sixteen lost races;
      // with its commit as soon as nobody goes before one of its writes.
      ensures (forall e :: edit(e, input).Some?) && (forall i :: 0 <= i < MAX_TRIES ==> rounds[i].heard) ==>
        !r.Failed? && ((exists i :: 0 <= i < MAX_TRIES && rounds[i].others == []) ==> r.Done?)
    {
      var i := 0;
      r := Contended;
      while i < MAX_TRIES && r.Contended?
        invariant 0 <= i <= MAX_TRIES
        invariant Valid() && Leaves(old(log), entry, log, me, input, i, r)
        invariant (forall e :: edit(e, input).Some?) && (forall j :: 0 <= j < i ==> rounds[j].heard) ==>
          !r.Failed? && (r.Contended? ==> forall j :: 0 <= j < i ==> rounds[j].others != [])
      {
        ghost var before := log;
        r := Attempt(input, rounds[i], me);
        LeavesMore(old(log), before, entry, log, me, input, i, r);
        i := i + 1;
      }
    }
  }
}
