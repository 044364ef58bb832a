/** The limiter kept in one revisioned document: a bounded compare-and-swap loop around a two-bucket spend whose
    clock is the time the broker stamped on the revision it read. */
module CasBudget {
  import opened Options
  import opened Numbers
  import opened KvState

  /** Seconds on the broker's clock; `None` is the zero time, which no revision carries. */
  type Time = Option<real>

  datatype Bucket = Bucket(tokens: real, at: Time)

  type Document = map<string, Bucket>

  datatype Request = Request(id: string, capacity: nat, refill: real)

  predicate Later(x: Time, y: Time) {
    x.Some? && (y.None? || x.value > y.value)
  }

  /** What a rate brings from `since` to `now`; nothing when time does not advance. */
  function Brings(rate: real, since: real, now: real): real {
    if now <= since then 0.0 else (now - since) * rate
  }

  function Held(doc: Document, id: string): Option<Bucket> {
    if id in doc then Some(doc[id]) else None
  }

  /** A bucket brought up to `now`. A missing bucket is full; one that was never dated starts at `now`. */
  function TopUp(held: Option<Bucket>, req: Request, now: Time): Bucket {
    var b := if held.Some? then held.value else Bucket(req.capacity as real, now);
    var at := if b.at.None? then now else b.at;
    var gain := if now.Some? && at.Some? then Brings(req.refill, at.value, now.value) else 0.0;
    Bucket(Min(req.capacity as real, b.tokens + gain), if Later(now, at) then now else at)
  }

  function Topped(doc: Document, req: Request, now: Time): Bucket {
    TopUp(Held(doc, req.id), req, now)
  }

  /** The first `n` requests brought up to date, one after the other. */
  function Refilled(doc: Document, reqs: seq<Request>, now: Time, n: nat): Document
    requires n <= |reqs|
  {
    if n == 0 then doc
    else
      var before := Refilled(doc, reqs, now, n - 1);
      before[reqs[n - 1].id := Topped(before, reqs[n - 1], now)]
  }

  /** The first of the first `n` requests found empty, counting from 1; 0 when there is none. */
  function FirstDenied(doc: Document, reqs: seq<Request>, now: Time, n: nat): nat
    requires n <= |reqs|
  {
    if n == 0 then 0
    else
      var before := FirstDenied(doc, reqs, now, n - 1);
      if before == 0 && Topped(Refilled(doc, reqs, now, n - 1), reqs[n - 1], now).tokens < 1.0 then n else before
  }

  function Spent(doc: Document, reqs: seq<Request>, n: nat): Document
    requires n <= |reqs| && forall i :: 0 <= i < |reqs| ==> reqs[i].id in doc
    ensures doc.Keys == Spent(doc, reqs, n).Keys
  {
    if n == 0 then doc
    else
      var before := Spent(doc, reqs, n - 1);
      var b := before[reqs[n - 1].id];
      before[reqs[n - 1].id := b.(tokens := b.tokens - 1.0)]
  }

  lemma {:induction false} RefilledHasAll(doc: Document, reqs: seq<Request>, now: Time, n: nat)
    requires n <= |reqs|
    ensures forall i :: 0 <= i < n ==> reqs[i].id in Refilled(doc, reqs, now, n)
  {
    if n > 0 {
      RefilledHasAll(doc, reqs, now, n - 1);
    }
  }

  /** The document after an evaluation, and its decision. */
  function Evaluated(doc: Document, reqs: seq<Request>, now: Time): (Document, nat) {
    var refilled := Refilled(doc, reqs, now, |reqs|);
    var denied := FirstDenied(doc, reqs, now, |reqs|);
    RefilledHasAll(doc, reqs, now, |reqs|);
    (if denied == 0 then Spent(refilled, reqs, |reqs|) else refilled, denied)
  }

  method EvaluateBudget(doc: Document, reqs: seq<Request>, now: Time) returns (state: Document, denied: nat)
    ensures (state, denied) == Evaluated(doc, reqs, now)
  {
    state, denied := doc, 0;
    for i := 0 to |reqs|
      invariant state == Refilled(doc, reqs, now, i) && denied == FirstDenied(doc, reqs, now, i)
    {
      var bucket := Topped(state, reqs[i], now);
      state := state[reqs[i].id := bucket];
      if bucket.tokens < 1.0 && denied == 0 {
        denied := i + 1;
      }
    }
    RefilledHasAll(doc, reqs, now, |reqs|);
    ghost var refilled := state;
    if denied == 0 {
      for i := 0 to |reqs|
        invariant state == Spent(refilled, reqs, i)
      {
        state := state[reqs[i].id := state[reqs[i].id].(tokens := state[reqs[i].id].tokens - 1.0)];
      }
    }
  }

  // ---------- One evaluation ----------

  ghost predicate Distinct(reqs: seq<Request>) {
    forall i, j :: 0 <= i < j < |reqs| ==> reqs[i].id != reqs[j].id
  }

  /** One of the first `n` requests names the bucket. */
  predicate Names(reqs: seq<Request>, n: nat, id: string)
    requires n <= |reqs|
  {
    n > 0 && (reqs[n - 1].id == id || Names(reqs, n - 1, id))
  }

  lemma {:induction false} NamesOnce(reqs: seq<Request>, n: nat, i: nat)
    requires n <= |reqs| && i < |reqs| && Distinct(reqs)
    ensures Names(reqs, n, reqs[i].id) <==> i < n
  {
    if n > 0 {
      NamesOnce(reqs, n - 1, i);
    }
  }

  lemma {:induction false} RefilledElsewhere(doc: Document, reqs: seq<Request>, now: Time, n: nat, id: string)
    requires n <= |reqs| && !Names(reqs, n, id)
    ensures var r := Refilled(doc, reqs, now, n);
      (id in r <==> id in doc) && (id in doc ==> r[id] == doc[id])
  {
    if n > 0 {
      RefilledElsewhere(doc, reqs, now, n - 1, id);
    }
  }

  lemma {:induction false} RefilledAt(doc: Document, reqs: seq<Request>, now: Time, n: nat, i: nat)
    requires i < n <= |reqs| && Distinct(reqs)
    ensures var r := Refilled(doc, reqs, now, n);
      reqs[i].id in r && r[reqs[i].id] == Topped(doc, reqs[i], now)
  {
    if i == n - 1 {
      NamesOnce(reqs, n - 1, i);
      RefilledElsewhere(doc, reqs, now, n - 1, reqs[i].id);
    } else {
      RefilledAt(doc, reqs, now, n - 1, i);
    }
  }

  /** Whether the i-th request finds a token. */
  ghost predicate HasToken(doc: Document, reqs: seq<Request>, now: Time, i: nat)
    requires i < |reqs|
  {
    Topped(doc, reqs[i], now).tokens >= 1.0
  }

  lemma StillUntouched(doc: Document, reqs: seq<Request>, now: Time, n: nat)
    requires n < |reqs| && Distinct(reqs)
    ensures HasToken(doc, reqs, now, n) <==> Topped(Refilled(doc, reqs, now, n), reqs[n], now).tokens >= 1.0
  {
    NamesOnce(reqs, n, n);
    RefilledElsewhere(doc, reqs, now, n, reqs[n].id);
  }

  lemma {:induction false} FirstDeniedIs(doc: Document, reqs: seq<Request>, now: Time, n: nat)
    requires n <= |reqs| && Distinct(reqs)
    ensures var d := FirstDenied(doc, reqs, now, n);
      && d <= n
      && (d > 0 ==> !HasToken(doc, reqs, now, d - 1))
      && (forall i: nat {:trigger HasToken(doc, reqs, now, i)} :: i < (if d == 0 then n else d - 1) ==>
        HasToken(doc, reqs, now, i))
  {
    if n > 0 {
      FirstDeniedIs(doc, reqs, now, n - 1);
      StillUntouched(doc, reqs, now, n - 1);
    }
  }

  lemma {:induction false} SpentIs(doc: Document, reqs: seq<Request>, n: nat, id: string)
    requires n <= |reqs| && Distinct(reqs) && id in doc
    requires forall i :: 0 <= i < |reqs| ==> reqs[i].id in doc
    ensures Spent(doc, reqs, n)[id] == doc[id].(tokens := doc[id].tokens - if Names(reqs, n, id) then 1.0 else 0.0)
  {
    if n > 0 {
      SpentIs(doc, reqs, n - 1, id);
      NamesOnce(reqs, n - 1, n - 1);
    }
  }

  /** What an evaluation makes of the bucket of the i-th request. */
  ghost predicate TakenFrom(doc: Document, reqs: seq<Request>, now: Time, after: Document, denied: nat, i: nat)
    requires i < |reqs|
  {
    var b := Topped(doc, reqs[i], now);
    && reqs[i].id in after
    && after[reqs[i].id] == b.(tokens := b.tokens - if denied == 0 then 1.0 else 0.0)
  }

  /** With distinct ids an evaluation takes one token from every bucket it names or from none, and names the
      first empty one when it denies. */
  lemma AllOrNothing(doc: Document, reqs: seq<Request>, now: Time, i: nat)
    requires Distinct(reqs) && i < |reqs|
    ensures var (after, denied) := Evaluated(doc, reqs, now);
      && TakenFrom(doc, reqs, now, after, denied, i)
      && denied <= |reqs|
      && (denied == 0 ==> HasToken(doc, reqs, now, i))
      && (denied > 0 ==> !HasToken(doc, reqs, now, denied - 1) && (i < denied - 1 ==> HasToken(doc, reqs, now, i)))
  {
    FirstDeniedIs(doc, reqs, now, |reqs|);
    RefilledHasAll(doc, reqs, now, |reqs|);
    RefilledAt(doc, reqs, now, |reqs|, i);
    NamesOnce(reqs, |reqs|, i);
    if FirstDenied(doc, reqs, now, |reqs|) == 0 {
      SpentIs(Refilled(doc, reqs, now, |reqs|), reqs, |reqs|, reqs[i].id);
    }
  }

  /** An evaluation leaves every bucket it does not name alone. */
  lemma OthersUntouched(doc: Document, reqs: seq<Request>, now: Time, id: string)
    requires Distinct(reqs) && !Names(reqs, |reqs|, id)
    ensures var after := Evaluated(doc, reqs, now).0;
      (id in after <==> id in doc) && (id in doc ==> after[id] == doc[id])
  {
    RefilledElsewhere(doc, reqs, now, |reqs|, id);
    RefilledHasAll(doc, reqs, now, |reqs|);
    if FirstDenied(doc, reqs, now, |reqs|) == 0 && id in doc {
      SpentIs(Refilled(doc, reqs, now, |reqs|), reqs, |reqs|, id);
    }
  }

  /** Distinct ids are needed: a request that names one bucket twice can drive it below zero. */
  lemma SameIdTwiceOverdraws(req: Request, now: Time)
    requires req.capacity == 1
    ensures var (after, denied) := Evaluated(map[], [req, req], now);
      denied == 0 && req.id in after && after[req.id].tokens == -1.0
  {
    var reqs, doc := [req, req], map[];
    var first := doc[req.id := Topped(doc, req, now)];
    assert Refilled(doc, reqs, now, 0) == doc && Refilled(doc, reqs, now, 1) == first;
    assert Topped(first, req, now).tokens == 1.0;
    assert FirstDenied(doc, reqs, now, 0) == 0 && FirstDenied(doc, reqs, now, 1) == 0 &&
      FirstDenied(doc, reqs, now, 2) == 0;
    var refilled := Refilled(doc, reqs, now, 2);
    assert refilled[req.id].tokens == 1.0;
    assert Spent(refilled, reqs, 0) == refilled;
    assert Spent(refilled, reqs, 1)[req.id].tokens == 0.0;
    assert Spent(refilled, reqs, 2)[req.id].tokens == -1.0;
  }

  ghost predicate InRange(doc: Document, req: Request) {
    req.id in doc ==> 0.0 <= doc[req.id].tokens <= req.capacity as real
  }

  /** From this document, evaluated now, the two requests leave their buckets in range. */
  ghost predicate StaysInRange(doc: Document, p: Request, q: Request, now: Time) {
    InRange(doc, p) && InRange(doc, q) ==>
      var after := Evaluated(doc, [p, q], now).0; InRange(after, p) && InRange(after, q)
  }

  /** A spend of two tokens keeps every bucket in range exactly when the requests name two. */
  lemma DistinctIdsDecide(p: Request, q: Request)
    requires p.capacity >= 1 && q.capacity >= 1 && p.refill > 0.0 && q.refill > 0.0
    ensures p.id != q.id <==> forall doc, now {:trigger StaysInRange(doc, p, q, now)} :: StaysInRange(doc, p, q, now)
  {
    if p.id != q.id {
      forall doc, now ensures StaysInRange(doc, p, q, now) {
        if InRange(doc, p) && InRange(doc, q) {
          BothStayInRange(doc, p, q, now);
        }
      }
    } else {
      LastTokenIsTakenTwice(p, q, Some(0.0));
    }
  }

  lemma BothStayInRange(doc: Document, p: Request, q: Request, now: Time)
    requires p.id != q.id && p.refill > 0.0 && q.refill > 0.0 && InRange(doc, p) && InRange(doc, q)
    ensures var after := Evaluated(doc, [p, q], now).0; InRange(after, p) && InRange(after, q)
  {
    var reqs := [p, q];
    TopUpStaysInRange(Held(doc, p.id), p, now);
    TopUpStaysInRange(Held(doc, q.id), q, now);
    AllOrNothing(doc, reqs, now, 0);
    AllOrNothing(doc, reqs, now, 1);
  }

  /** A bucket with a single token is left with one less than none. */
  lemma LastTokenIsTakenTwice(p: Request, q: Request, now: Time)
    requires p.id == q.id && p.capacity >= 1 && q.capacity >= 1 && now.Some?
    ensures !StaysInRange(map[p.id := Bucket(1.0, now)], p, q, now)
  {
    var doc, reqs := map[p.id := Bucket(1.0, now)], [p, q];
    assert Topped(doc, p, now) == Bucket(1.0, now) && Topped(doc, q, now) == Bucket(1.0, now);
    assert Refilled(doc, reqs, now, 0) == doc && Refilled(doc, reqs, now, 1) == doc &&
      Refilled(doc, reqs, now, 2) == doc;
    assert FirstDenied(doc, reqs, now, 0) == 0 && FirstDenied(doc, reqs, now, 1) == 0 &&
      FirstDenied(doc, reqs, now, 2) == 0;
    assert Spent(doc, reqs, 0) == doc;
    assert Spent(doc, reqs, 1)[p.id].tokens == 0.0;
    assert Spent(doc, reqs, 2)[p.id].tokens == -1.0;
  }

  // ---------- What one bucket grants ----------

  type Commit = KvState.Commit<seq<Request>, nat>

  type Version = Option<Revision<Document>>

  function DocOf(r: Version): Document {
    if r.Some? then r.value.doc else map[]
  }

  /** The clock of an edit: when the revision it read was created. */
  function TimeOf(r: Version): Time {
    if r.Some? then Some(r.value.created) else None
  }

  /** The edit that `allow` passes to the loop. */
  function Spend(r: Version, reqs: seq<Request>): Option<(Document, nat)> {
    Some(Evaluated(DocOf(r), reqs, TimeOf(r)))
  }

  /** A budget decision: the first request denied, or 0 when all have spent. A decision without an error is the
      answer of this call's own commit, which every other caller sees; a call that lost every race decides nothing. */
  method Allow(cell: Cell<Document, seq<Request>, nat>, reqs: seq<Request>, rounds: seq<Round<seq<Request>>>,
               ghost me: nat)
    returns (denied: Option<nat>)
    requires cell.Valid() && cell.edit == Spend && |rounds| == MAX_TRIES
    requires forall i :: 0 <= i < |rounds| ==> forall t :: t in rounds[i].others ==> t.caller != me
    modifies cell
    ensures cell.Valid()
    ensures denied.Some? ==>
      && cell.log != [] && cell.entry.Some? && Grown(old(cell.log), cell.log[..|cell.log| - 1], me)
      && cell.log[|cell.log| - 1].caller == me && cell.log[|cell.log| - 1].answer == denied.value
      && (cell.entry.value.doc, denied.value)
         == var read := Replay(Spend, cell.log[..|cell.log| - 1]); Evaluated(DocOf(read), reqs, TimeOf(read))
    // It is undecided only if an answer was lost or sixteen other commits went before it.
    ensures denied.None? && (forall i :: 0 <= i < |rounds| ==> rounds[i].heard) ==>
      |cell.log| >= |old(cell.log)| + MAX_TRIES && forall i :: 0 <= i < |rounds| ==> rounds[i].others != []
  {
    var r := cell.Change(reqs, rounds, me);
    if r.Done? {
      assert InSequence(Spend, cell.log, |cell.log| - 1);
    }
    return if r.Done? then Some(r.answer) else None;
  }

  ghost function VersionAt(log: seq<Commit>, k: nat): Version
    requires k <= |log|
  {
    Replay(Spend, log[..k])
  }

  /** Every commit names its buckets once, and gives `req.id` the same capacity and refill. */
  ghost predicate Consistent(log: seq<Commit>, req: Request) {
    forall k :: 0 <= k < |log| ==> Distinct(log[k].input) && Uniform(log[k].input, req)
  }

  ghost predicate Uniform(reqs: seq<Request>, req: Request) {
    forall i :: 0 <= i < |reqs| && reqs[i].id == req.id ==> reqs[i] == req
  }

  /** Broker time only moves forward along the log. */
  ghost predicate Forward(log: seq<Commit>) {
    forall j, k :: 0 <= j <= k < |log| ==> log[j].created <= log[k].created
  }

  predicate Grants(c: Commit, id: string) {
    c.answer == 0 && Names(c.input, |c.input|, id)
  }

  /** The tokens of `id` granted by the commits from `lo` up to `hi`. */
  function Granted(log: seq<Commit>, lo: nat, hi: nat, id: string): nat
    requires hi <= |log|
  {
    if hi <= lo then 0 else Granted(log, lo, hi - 1, id) + if Grants(log[hi - 1], id) then 1 else 0
  }

  /** The account of a bucket since `start`. A missing bucket is a full one that has granted nothing. */
  ghost predicate Account(held: Option<Bucket>, req: Request, start: real, granted: nat) {
    match held
    case None => granted == 0
    case Some(b) =>
      && 0.0 <= b.tokens <= req.capacity as real
      && match b.at
         case None => granted as real + b.tokens <= req.capacity as real
         case Some(at) =>
           && (at < start ==> granted == 0)
           && granted as real + b.tokens <= req.capacity as real + Brings(req.refill, start, at)
  }

  lemma BringsInParts(rate: real, since: real, now: real, later: real)
    requires rate > 0.0 && since <= now <= later
    ensures Brings(rate, since, later) == Brings(rate, since, now) + Brings(rate, now, later)
    ensures Brings(rate, now, later) >= 0.0 && Brings(rate, since, now) >= 0.0
  {
    SpansAdd(rate, now - since, later - now);
  }

  lemma SpansAdd(rate: real, x: real, y: real)
    requires rate > 0.0 && x >= 0.0 && y >= 0.0
    ensures (x + y) * rate == x * rate + y * rate
    ensures x * rate >= 0.0 && y * rate >= 0.0
  {
  }

  lemma TopUpKeepsAccount(held: Option<Bucket>, req: Request, start: real, granted: nat, now: Time)
    requires req.refill > 0.0 && (now.Some? ==> start <= now.value) && Account(held, req, start, granted)
    ensures Account(Some(TopUp(held, req, now)), req, start, granted)
    ensures TopUp(held, req, now).at.Some? ==> TopUp(held, req, now).at.value >= start || now.None?
  {
    if now.Some? {
      BringsInParts(req.refill, start, now.value, now.value);
      if held.Some? && held.value.at.Some? {
        var at := held.value.at.value;
        if at < now.value {
          BringsInParts(req.refill, at, now.value, now.value);
          if start <= at {
            BringsInParts(req.refill, start, at, now.value);
          }
        }
      }
    }
  }

  lemma SpendKeepsAccount(b: Bucket, req: Request, start: real, granted: nat)
    requires Account(Some(b), req, start, granted) && b.tokens >= 1.0 && (b.at.Some? ==> b.at.value >= start)
    ensures Account(Some(b.(tokens := b.tokens - 1.0)), req, start, granted + 1)
  {
  }

  /** One evaluation keeps the account of every bucket. An edit that read no revision has no earlier bucket. */
  lemma EvaluationKeepsAccount(doc: Document, c: Commit, now: Time, req: Request, start: real, granted: nat)
    requires req.refill > 0.0 && Distinct(c.input) && Uniform(c.input, req)
    requires if now.None? then doc == map[] else start <= now.value
    requires Account(Held(doc, req.id), req, start, granted) && c.answer == Evaluated(doc, c.input, now).1
    ensures Account(Held(Evaluated(doc, c.input, now).0, req.id), req, start,
                    granted + if Grants(c, req.id) then 1 else 0)
  {
    if Names(c.input, |c.input|, req.id) {
      var i := NamedAt(c.input, |c.input|, req.id);
      AllOrNothing(doc, c.input, now, i);
      TopUpKeepsAccount(Held(doc, req.id), req, start, granted, now);
      if c.answer == 0 {
        SpendKeepsAccount(Topped(doc, req, now), req, start, granted);
      }
    } else {
      OthersUntouched(doc, c.input, now, req.id);
    }
  }

  lemma {:induction false} NamedAt(reqs: seq<Request>, n: nat, id: string) returns (i: nat)
    requires n <= |reqs| && Names(reqs, n, id)
    ensures i < n && reqs[i].id == id
  {
    if reqs[n - 1].id == id {
      i := n - 1;
    } else {
      i := NamedAt(reqs, n - 1, id);
    }
  }

  /** The bucket after the first `k` commits. */
  ghost function HeldAt(log: seq<Commit>, k: nat, id: string): Option<Bucket>
    requires k <= |log|
  {
    Held(DocOf(VersionAt(log, k)), id)
  }

  /** The k-th commit evaluated what the first `k` left, on the clock of its predecessor. */
  lemma CommitReads(log: seq<Commit>, k: nat)
    requires k < |log|
    ensures VersionAt(log, k + 1).Some?
    ensures VersionAt(log, k + 1).value.doc
        == Evaluated(DocOf(VersionAt(log, k)), log[k].input, TimeOf(VersionAt(log, k))).0
    ensures TimeOf(VersionAt(log, k)) == if k == 0 then None else Some(log[k - 1].created)
    ensures k == 0 ==> DocOf(VersionAt(log, k)) == map[]
  {
    assert log[..k + 1][..k] == log[..k];
  }

  /** No bucket is ever below zero or above its capacity, and none is dated later than the clock of the edit that
      last brought it up to date. */
  lemma {:induction false} BucketsStayInRange(log: seq<Commit>, k: nat, req: Request)
    requires k <= |log| && Consistent(log, req) && Forward(log) && req.refill > 0.0
    ensures HeldAt(log, k, req.id).Some? ==>
      && 0.0 <= HeldAt(log, k, req.id).value.tokens <= req.capacity as real
      && (HeldAt(log, k, req.id).value.at.Some? ==>
        k > 1 && HeldAt(log, k, req.id).value.at.value <= log[k - 2].created)
  {
    if k > 0 {
      BucketsStayInRange(log, k - 1, req);
      CommitReads(log, k - 1);
      var doc, now, reqs := DocOf(VersionAt(log, k - 1)), TimeOf(VersionAt(log, k - 1)), log[k - 1].input;
      if Names(reqs, |reqs|, req.id) {
        var i := NamedAt(reqs, |reqs|, req.id);
        AllOrNothing(doc, reqs, now, i);
        TopUpStaysInRange(Held(doc, req.id), req, now);
      } else {
        OthersUntouched(doc, reqs, now, req.id);
      }
    }
  }

  lemma TopUpStaysInRange(held: Option<Bucket>, req: Request, now: Time)
    requires req.refill > 0.0 && (held.Some? ==> 0.0 <= held.value.tokens <= req.capacity as real)
    ensures 0.0 <= TopUp(held, req, now).tokens <= req.capacity as real
    ensures held.Some? ==> !Later(held.value.at, TopUp(held, req, now).at)
  {
    if now.Some? && held.Some? && held.value.at.Some? && held.value.at.value < now.value {
      BringsInParts(req.refill, held.value.at.value, now.value, now.value);
    }
  }

  /** The first commit's clock is the zero time; a stretch that opens with it is measured from its own stamp. */
  function ClockAt(log: seq<Commit>, k: nat): real
    requires k < |log|
  {
    if k == 0 then log[0].created else log[k - 1].created
  }

  lemma {:induction false} LogKeepsAccount(log: seq<Commit>, lo: nat, hi: nat, req: Request)
    requires lo <= hi <= |log| && lo < |log| && Consistent(log, req)
    requires Faithful(Spend, log) && Forward(log) && req.refill > 0.0
    requires Account(HeldAt(log, lo, req.id), req, ClockAt(log, lo), 0)
    ensures Account(HeldAt(log, hi, req.id), req, ClockAt(log, lo), Granted(log, lo, hi, req.id))
  {
    if lo < hi {
      LogKeepsAccount(log, lo, hi - 1, req);
      CommitKeepsAccount(log, hi - 1, req, ClockAt(log, lo), Granted(log, lo, hi - 1, req.id));
    }
  }

  lemma CommitKeepsAccount(log: seq<Commit>, k: nat, req: Request, start: real, granted: nat)
    requires k < |log| && Consistent(log, req) && Faithful(Spend, log) && req.refill > 0.0
    requires k > 0 ==> start <= log[k - 1].created
    requires Account(HeldAt(log, k, req.id), req, start, granted)
    ensures Account(HeldAt(log, k + 1, req.id), req, start, granted + if Grants(log[k], req.id) then 1 else 0)
  {
    CommitReads(log, k);
    assert InSequence(Spend, log, k);
    EvaluationKeepsAccount(DocOf(VersionAt(log, k)), log[k], TimeOf(VersionAt(log, k)), req, start, granted);
  }

  /** On the clock the edits read, the budget is exact: the tokens granted by a stretch of commits are at most the
      capacity plus the refill between the first edit's clock and the last one's. */
  lemma BudgetOnTheReadClock(log: seq<Commit>, lo: nat, hi: nat, req: Request)
    requires lo < hi <= |log| && Consistent(log, req) && Faithful(Spend, log) && Forward(log) && req.refill > 0.0
    ensures Granted(log, lo, hi, req.id) as real
         <= req.capacity as real + Brings(req.refill, ClockAt(log, lo), ClockAt(log, hi - 1))
  {
    var start, end := ClockAt(log, lo), ClockAt(log, hi - 1);
    BucketsStayInRange(log, lo, req);
    BringsInParts(req.refill, start, start, end);
    assert lo == 0 ==> log[..lo] == [];
    LogKeepsAccount(log, lo, hi, req);
    BucketsStayInRange(log, hi, req);
    var held := HeldAt(log, hi, req.id);
    if held.Some? && held.value.at.Some? && held.value.at.value >= start {
      BringsInParts(req.refill, start, held.value.at.value, end);
    }
  }

  /** On the broker's clock at the writes, the budget can be overrun by what refills between the last write
      before the stretch and the first one in it, and never by more than one token. */
  lemma BudgetOnTheWriteClock(log: seq<Commit>, lo: nat, hi: nat, req: Request)
    requires lo < hi <= |log| && Consistent(log, req) && Faithful(Spend, log) && Forward(log) && req.refill > 0.0
    ensures Granted(log, lo, hi, req.id) as real
         <= req.capacity as real + Brings(req.refill, log[lo].created, log[hi - 1].created)
            + Min(1.0, Brings(req.refill, ClockAt(log, lo), log[lo].created))
  {
    var first, last, before, end := log[lo].created, log[hi - 1].created, ClockAt(log, lo), ClockAt(log, hi - 1);
    BudgetOnTheReadClock(log, lo, hi, req);
    BringsInParts(req.refill, before, first, last);
    BringsInParts(req.refill, before, end, last);
    GrantedSplits(log, lo, hi, req.id);
    if lo + 1 < hi {
      BudgetOnTheReadClock(log, lo + 1, hi, req);
      BringsInParts(req.refill, first, end, last);
    }
  }

  lemma {:induction false} GrantedSplits(log: seq<Commit>, lo: nat, hi: nat, id: string)
    requires lo < hi <= |log|
    ensures Granted(log, lo, hi, id) <= 1 + Granted(log, lo + 1, hi, id)
  {
    if lo + 1 < hi {
      GrantedSplits(log, lo, hi - 1, id);
    }
  }

  lemma {:induction false} StampsGoForward(log: seq<Commit>, j: nat, k: nat)
    requires Faithful(Spend, log) && j <= k < |log|
    ensures log[j].created <= log[k].created
  {
    if j < k {
      StampsGoForward(log, j, k - 1);
      assert InSequence(Spend, log, k);
    }
  }

  /** Both budgets hold of every stretch of every run of the loop, whoever races with whom, as long as no call names
      a bucket twice and all calls agree on the bucket's spec. */
  lemma EveryRunKeepsTheBudget(s: State<Document, seq<Request>, nat>, actions: seq<Action>, lo: nat, hi: nat,
                               req: Request)
    requires Init(s) && Possible(Spend, s, actions) && req.refill > 0.0
    requires forall i :: 0 <= i < |s.inputs| ==> Distinct(s.inputs[i]) && Uniform(s.inputs[i], req)
    requires lo < hi <= |Run(Spend, s, actions).log|
    ensures var log := Run(Spend, s, actions).log;
      && Granted(log, lo, hi, req.id) as real
         <= req.capacity as real + Brings(req.refill, ClockAt(log, lo), ClockAt(log, hi - 1))
      && Granted(log, lo, hi, req.id) as real
         <= req.capacity as real + Brings(req.refill, log[lo].created, log[hi - 1].created) + 1.0
  {
    var t := Run(Spend, s, actions);
    Linearizable(Spend, s, actions);
    InputsStay(s, actions);
    forall k | 0 <= k < |t.log| ensures Distinct(t.log[k].input) && Uniform(t.log[k].input, req) {
      assert Owned(t, k);
    }
    forall j, k | 0 <= j <= k < |t.log| ensures t.log[j].created <= t.log[k].created {
      StampsGoForward(t.log, j, k);
    }
    BudgetOnTheReadClock(t.log, lo, hi, req);
    BudgetOnTheWriteClock(t.log, lo, hi, req);
  }

  lemma {:induction false} InputsStay(s: State<Document, seq<Request>, nat>, actions: seq<Action>)
    requires |s.callers| == |s.inputs|
    ensures Run(Spend, s, actions).inputs == s.inputs
  {
    if actions != [] {
      InputsStay(s, actions[..|actions| - 1]);
    }
  }

  // ---------- The overrun is real ----------

  /** The stretch of the log from `lo` up to `hi` opens with a commit stamped `gap` after its predecessor. */
  ghost predicate Stretch(log: seq<Commit>, lo: nat, hi: nat, req: Request, gap: real) {
    && lo < hi <= |log| && Consistent(log, req) && Faithful(Spend, log) && Forward(log)
    && log[lo].created - ClockAt(log, lo) == gap
  }

  /** Its grants are within the capacity and the refill between its own stamps. */
  ghost predicate WithinStamps(log: seq<Commit>, lo: nat, hi: nat, req: Request, gap: real) {
    Stretch(log, lo, hi, req, gap) ==>
      Granted(log, lo, hi, req.id) as real
          <= req.capacity as real + Brings(req.refill, log[lo].created, log[hi - 1].created)
  }

  /** On the stamps of the grants the budget is kept by all stretches whose first commit is stamped at the moment its
      edit read, and by no others: whatever the capacity, any later stamp lets some log grant too much. */
  lemma GapDecides(req: Request, gap: real)
    requires req.capacity >= 1 && req.refill > 0.0 && gap >= 0.0
    ensures gap == 0.0 <==>
      forall log, lo, hi {:trigger WithinStamps(log, lo, hi, req, gap)} :: WithinStamps(log, lo, hi, req, gap)
  {
    if gap == 0.0 {
      forall log, lo, hi ensures WithinStamps(log, lo, hi, req, gap) {
        if Stretch(log, lo, hi, req, gap) {
          BudgetOnTheWriteClock(log, lo, hi, req);
        }
      }
    } else {
      var log, hi := GapOverspends(req, gap);
    }
  }

  /** How long a token takes, and how long the whole bucket. */
  function TokenTime(req: Request): real
    requires req.refill > 0.0
  {
    1.0 / req.refill
  }

  function FillTime(req: Request): real
    requires req.refill > 0.0
  {
    req.capacity as real / req.refill
  }

  lemma TimesAre(req: Request)
    requires req.refill > 0.0 && req.capacity >= 1
    ensures TokenTime(req) > 0.0 && FillTime(req) > 0.0
    ensures Brings(req.refill, 0.0, FillTime(req)) == req.capacity as real
    ensures forall since, now {:trigger Brings(req.refill, since, now)} :: now == since + TokenTime(req) ==>
      Brings(req.refill, since, now) == 1.0
  {
    var t, fill := TokenTime(req), FillTime(req);
    assert t * req.refill == 1.0 && fill * req.refill == req.capacity as real;
    forall since, now | now == since + t ensures Brings(req.refill, since, now) == 1.0 {
      assert now - since == t;
    }
  }

  // The log of the overrun. A new, full bucket gives a token, and another if it has one; once it is full again, commit
  // 2 takes a token and is stamped `gap` after its read. The commits that follow read that stamp and take the other
  // tokens at once. What has been refilled in the gap is still there: either it is a whole token, or a request is
  // denied and the next one finds the rest of the token refilled.

  /** How many commits the log has. */
  function Length(req: Request, gap: real): nat
    requires req.refill > 0.0
  {
    if gap < TokenTime(req) then req.capacity + 4 else req.capacity + 3
  }

  function StampOf(req: Request, gap: real, k: nat): real
    requires req.refill > 0.0
  {
    if k == 0 then 0.0
    else if k == 1 then FillTime(req)
    else if k <= req.capacity + 1 || gap >= TokenTime(req) then FillTime(req) + gap
    else FillTime(req) + TokenTime(req)
  }

  function AnswerOf(req: Request, gap: real, k: nat): nat
    requires req.refill > 0.0
  {
    if (k == 1 && req.capacity == 1) || (k == req.capacity + 2 && gap < TokenTime(req)) then 1 else 0
  }

  ghost function Overrun(req: Request, gap: real): seq<Commit>
    requires req.refill > 0.0
  {
    seq(Length(req, gap), k requires 0 <= k < Length(req, gap) =>
      Commit(k, [req], AnswerOf(req, gap, k), k + 1, StampOf(req, gap, k)))
  }

  /** What the gap brings, and what the bucket holds when the first commit after it is evaluated. */
  function Gained(req: Request, gap: real): real
    requires req.refill > 0.0
  {
    Brings(req.refill, FillTime(req), FillTime(req) + gap)
  }

  function Remaining(req: Request, gap: real): real
    requires req.refill > 0.0
  {
    Min(req.capacity as real, req.capacity as real - 1.0 + Gained(req, gap))
  }

  lemma GainIs(req: Request, gap: real)
    requires req.refill > 0.0 && req.capacity >= 1 && gap > 0.0
    ensures Gained(req, gap) > 0.0 && (Gained(req, gap) >= 1.0 <==> gap >= TokenTime(req))
    ensures gap < TokenTime(req) ==>
      Gained(req, gap) + Brings(req.refill, FillTime(req) + gap, FillTime(req) + TokenTime(req)) == 1.0
  {
    var fill, t := FillTime(req), TokenTime(req);
    TimesAre(req);
    Positive(req.refill, fill, fill + gap);
    assert Brings(req.refill, fill, fill + t) == 1.0;
    if gap < t {
      BringsInParts(req.refill, fill, fill + gap, fill + t);
      Positive(req.refill, fill + gap, fill + t);
    } else {
      BringsInParts(req.refill, fill, fill + t, fill + gap);
    }
  }

  lemma Positive(rate: real, since: real, now: real)
    requires rate > 0.0 && since < now
    ensures Brings(rate, since, now) > 0.0
  {
  }

  /** One more commit on a bucket that holds `tokens` since `since`. */
  lemma NextHeld(log: seq<Commit>, k: nat, req: Request, tokens: real, since: real)
    requires 0 < k < |log| && log[k].input == [req]
    requires since <= log[k - 1].created <= log[k].created
    requires HeldAt(log, k, req.id) == Some(Bucket(tokens, Some(since)))
    ensures var now := log[k - 1].created;
      var held := Min(req.capacity as real, tokens + Brings(req.refill, since, now));
      && (InSequence(Spend, log, k) <==> log[k].answer == if held < 1.0 then 1 else 0)
      && HeldAt(log, k + 1, req.id) == Some(Bucket(if held < 1.0 then held else held - 1.0, Some(now)))
  {
    CommitReads(log, k);
    TopUpOf(DocOf(VersionAt(log, k)), req, since, log[k - 1].created, tokens);
    Single(DocOf(VersionAt(log, k)), req, Some(log[k - 1].created));
  }

  /** A bucket brought up to date. */
  lemma TopUpOf(doc: Document, req: Request, since: real, now: real, tokens: real)
    requires since <= now && Held(doc, req.id) == Some(Bucket(tokens, Some(since)))
    ensures Topped(doc, req, Some(now))
         == Bucket(Min(req.capacity as real, tokens + Brings(req.refill, since, now)), Some(now))
  {
  }

  lemma StampsRise(req: Request, gap: real, k: nat)
    requires req.refill > 0.0 && req.capacity >= 1 && gap > 0.0 && k > 0
    ensures StampOf(req, gap, k - 1) <= StampOf(req, gap, k)
  {
    TimesAre(req);
  }

  /** A commit of that log: if the bucket holds `held` when it is evaluated, its answer is the right one. */
  lemma Turn(req: Request, gap: real, k: nat, tokens: real, since: real, held: real)
    requires req.refill > 0.0 && req.capacity >= 1 && gap > 0.0 && 0 < k < Length(req, gap)
    requires HeldAt(Overrun(req, gap), k, req.id) == Some(Bucket(tokens, Some(since)))
    requires since <= StampOf(req, gap, k - 1)
    requires held == Min(req.capacity as real, tokens + Brings(req.refill, since, StampOf(req, gap, k - 1)))
    requires AnswerOf(req, gap, k) == if held < 1.0 then 1 else 0
    ensures InSequence(Spend, Overrun(req, gap), k)
    ensures HeldAt(Overrun(req, gap), k + 1, req.id)
         == Some(Bucket(if held < 1.0 then held else held - 1.0, Some(StampOf(req, gap, k - 1))))
  {
    StampsRise(req, gap, k);
    NextHeld(Overrun(req, gap), k, req, tokens, since);
  }

  /** The commits before the stretch. */
  lemma OverrunStarts(req: Request, gap: real)
    requires req.capacity >= 1 && req.refill > 0.0 && gap > 0.0
    ensures var log := Overrun(req, gap);
      && InSequence(Spend, log, 0) && InSequence(Spend, log, 1)
      && HeldAt(log, 2, req.id)
         == Some(Bucket(if req.capacity == 1 then 0.0 else req.capacity as real - 2.0, Some(0.0)))
  {
    var log := Overrun(req, gap);
    TimesAre(req);
    CommitReads(log, 0);
    Single(DocOf(VersionAt(log, 0)), req, None);
    CommitReads(log, 1);
    Single(DocOf(VersionAt(log, 1)), req, Some(0.0));
  }

  /** The first commit of the stretch. */
  lemma OverrunBegins(req: Request, gap: real)
    requires req.capacity >= 1 && req.refill > 0.0 && gap > 0.0
    ensures InSequence(Spend, Overrun(req, gap), 2)
    ensures HeldAt(Overrun(req, gap), 3, req.id)
         == Some(Bucket(req.capacity as real - 1.0, Some(FillTime(req))))
  {
    TimesAre(req);
    OverrunStarts(req, gap);
    Turn(req, gap, 2, if req.capacity == 1 then 0.0 else req.capacity as real - 2.0, 0.0, req.capacity as real);
  }

  /** What the bucket holds for the k-th commit, which reads the stamp of the first in the stretch. */
  function Left(req: Request, gap: real, k: nat): real
    requires req.refill > 0.0
  {
    Remaining(req, gap) - (k as real - 3.0)
  }

  /** Only the last of these commits may find less than a token. */
  lemma LeftIs(req: Request, gap: real, k: nat)
    requires req.capacity >= 1 && req.refill > 0.0 && gap > 0.0 && 3 <= k <= req.capacity + 2
    ensures AnswerOf(req, gap, k) == (if Left(req, gap, k) < 1.0 then 1 else 0)
    ensures Left(req, gap, k) <= req.capacity as real && StampOf(req, gap, k - 1) == FillTime(req) + gap
    ensures k < req.capacity + 2 ==> Left(req, gap, k) >= 1.0
  {
    GainIs(req, gap);
  }

  /** The k-th commit leaves what it should of the tokens it finds. */
  ghost predicate Leaves(req: Request, gap: real, k: nat)
    requires req.refill > 0.0 && k < Length(req, gap)
  {
    HeldAt(Overrun(req, gap), k + 1, req.id)
      == Some(Bucket(if Left(req, gap, k) < 1.0 then Left(req, gap, k) else Left(req, gap, k) - 1.0,
                     Some(FillTime(req) + gap)))
  }

  lemma FirstTakes(req: Request, gap: real)
    requires req.capacity >= 1 && req.refill > 0.0 && gap > 0.0
    ensures InSequence(Spend, Overrun(req, gap), 3) && Leaves(req, gap, 3)
  {
    LeftIs(req, gap, 3);
    OverrunBegins(req, gap);
    Turn(req, gap, 3, req.capacity as real - 1.0, FillTime(req), Left(req, gap, 3));
  }

  lemma NextTakes(req: Request, gap: real, k: nat)
    requires req.capacity >= 1 && req.refill > 0.0 && gap > 0.0 && 3 < k <= req.capacity + 2
    requires Leaves(req, gap, k - 1)
    ensures InSequence(Spend, Overrun(req, gap), k) && Leaves(req, gap, k)
  {
    var now := FillTime(req) + gap;
    LeftIs(req, gap, k - 1);
    LeftIs(req, gap, k);
    assert Brings(req.refill, now, now) == 0.0;
    Turn(req, gap, k, Left(req, gap, k), now, Left(req, gap, k));
  }

  /** The commits that read that stamp. */
  lemma {:induction false} AllTake(req: Request, gap: real, k: nat)
    requires req.capacity >= 1 && req.refill > 0.0 && gap > 0.0 && 3 <= k <= req.capacity + 2
    ensures InSequence(Spend, Overrun(req, gap), k) && Leaves(req, gap, k)
  {
    if k == 3 {
      FirstTakes(req, gap);
    } else {
      AllTake(req, gap, k - 1);
      NextTakes(req, gap, k);
    }
  }

  lemma GapIsLeft(req: Request, gap: real)
    requires req.capacity >= 1 && req.refill > 0.0 && 0.0 < gap < TokenTime(req)
    ensures Left(req, gap, req.capacity + 2) == Gained(req, gap) < 1.0
  {
    GainIs(req, gap);
  }

  /** The commit after a denied one finds a whole token. */
  lemma OverrunEnds(req: Request, gap: real)
    requires req.capacity >= 1 && req.refill > 0.0 && 0.0 < gap < TokenTime(req)
    ensures InSequence(Spend, Overrun(req, gap), req.capacity + 3)
  {
    AllTake(req, gap, req.capacity + 2);
    GapIsLeft(req, gap);
    GainIs(req, gap);
    assert StampOf(req, gap, req.capacity + 2) == FillTime(req) + TokenTime(req);
    Turn(req, gap, req.capacity + 3, Gained(req, gap), FillTime(req) + gap, 1.0);
  }

  lemma OverrunIsFaithful(req: Request, gap: real)
    requires req.capacity >= 1 && req.refill > 0.0 && gap > 0.0
    ensures Faithful(Spend, Overrun(req, gap))
  {
    var log := Overrun(req, gap);
    forall k: nat {:trigger InSequence(Spend, log, k)} | k < |log| ensures InSequence(Spend, log, k) {
      if k <= 1 {
        OverrunStarts(req, gap);
      } else if k == 2 {
        OverrunBegins(req, gap);
      } else if k <= req.capacity + 2 {
        AllTake(req, gap, k);
      } else {
        OverrunEnds(req, gap);
      }
    }
  }

  lemma {:induction false} OverrunGrants(req: Request, gap: real, hi: nat)
    requires req.refill > 0.0 && req.capacity >= 1 && 2 <= hi <= Length(req, gap)
    ensures Granted(Overrun(req, gap), 2, hi, req.id)
         == if hi <= req.capacity + 2 || gap >= TokenTime(req) then hi - 2 else hi - 3
  {
    if hi > 2 {
      OverrunGrants(req, gap, hi - 1);
      assert Names([req], 1, req.id);
    }
  }

  lemma OverrunIsStretch(req: Request, gap: real)
    requires req.capacity >= 1 && req.refill > 0.0 && gap > 0.0
    ensures Stretch(Overrun(req, gap), 2, |Overrun(req, gap)|, req, gap)
  {
    var log := Overrun(req, gap);
    TimesAre(req);
    OverrunIsFaithful(req, gap);
    forall k | 0 <= k < |log| ensures Distinct(log[k].input) && Uniform(log[k].input, req) {
      assert log[k].input == [req];
    }
  }

  /** One token more than the capacity, in less time than a token takes. */
  lemma GapOverspends(req: Request, gap: real) returns (log: seq<Commit>, hi: nat)
    requires req.capacity >= 1 && req.refill > 0.0 && gap > 0.0
    ensures log == Overrun(req, gap) && hi == |log| && !WithinStamps(log, 2, hi, req, gap)
    ensures Granted(log, 2, hi, req.id) == req.capacity + 1
  {
    log, hi := Overrun(req, gap), |Overrun(req, gap)|;
    OverrunIsStretch(req, gap);
    OverrunGrants(req, gap, hi);
    GainIs(req, gap);
  }

  /** After a gap of a token's time the whole capacity and one token more are granted on one stamp. */
  lemma FullAndOneInOneInstant(req: Request, gap: real)
    requires req.capacity >= 1 && req.refill > 0.0 && gap >= TokenTime(req)
    ensures var log, hi := Overrun(req, gap), req.capacity + 3;
      && Stretch(log, 2, hi, req, gap) && log[2].created == log[hi - 1].created
      && Granted(log, 2, hi, req.id) == req.capacity + 1
  {
    TimesAre(req);
    OverrunIsStretch(req, gap);
    OverrunGrants(req, gap, req.capacity + 3);
  }

  /** Some run, with a caller for each commit, writes that log. */
  lemma OverrunHappens(req: Request, gap: real) returns (s: State<Document, seq<Request>, nat>, actions: seq<Action>)
    requires req.capacity >= 1 && req.refill > 0.0 && gap > 0.0
    ensures Init(s) && Possible(Spend, s, actions) && Run(Spend, s, actions).log == Overrun(req, gap)
  {
    var log := Overrun(req, gap);
    TimesAre(req);
    OverrunIsFaithful(req, gap);
    s, actions := EveryFaithfulLogHappens(Spend, log);
  }

  /** A request for one bucket. */
  lemma Single(doc: Document, req: Request, now: Time)
    ensures var b, (after, denied) := Topped(doc, req, now), Evaluated(doc, [req], now);
      && denied == (if b.tokens < 1.0 then 1 else 0)
      && Held(after, req.id) == Some(if denied == 0 then b.(tokens := b.tokens - 1.0) else b)
  {
    var reqs := [req];
    assert Distinct(reqs);
    AllOrNothing(doc, reqs, now, 0);
  }
}
