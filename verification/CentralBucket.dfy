/** The shared store's token buckets: one script call reads one or two keys, and spends from all of them or
    from none. Times are whole milliseconds on the server. */
module CentralBucket {
  import opened Options
  import opened Numbers

  datatype Args = Args(capacity: real, refillPerMs: real, ttlS: int, originMs: int)
  {
    predicate Valid() {
      capacity > 0.0 && refillPerMs > 0.0 && ttlS > 0 && originMs >= 0
    }

    /** An untouched bucket is full again before its key expires. */
    ghost predicate RefillsBeforeExpiry() {
      refillPerMs * (ttlS * 1000) as real >= capacity
    }
  }

  /** A stored key. `Foreign` is a value of another type, on which the field read fails. */
  datatype Entry = Hash(tokens: Option<real>, lastMs: Option<int>, expiresAt: int) | Foreign

  type Store = map<string, Entry>

  datatype Reply = Allowed | Denied(index: nat) | Failed

  function Elapsed(now: int, since: int): real {
    if now <= since then 0.0 else (now - since) as real
  }

  /** What the rate `r` brings over [since, now]. */
  function Refill(r: real, since: int, now: int): real {
    r * Elapsed(now, since)
  }

  /** A key past its expiry reads as missing. */
  predicate Live(store: Store, key: string, now: int) {
    key in store && (store[key].Hash? ==> now < store[key].expiresAt)
  }

  predicate Readable(store: Store, key: string, now: int) {
    Live(store, key, now) ==> store[key].Hash?
  }

  predicate Stored(store: Store, key: string, now: int) {
    Live(store, key, now) && store[key].Hash? && store[key].tokens.Some? && store[key].lastMs.Some?
  }

  /** What the script reckons the bucket holds at `now`. */
  function Level(store: Store, key: string, args: Args, now: int): real {
    if Stored(store, key, now) then
      Min(args.capacity, store[key].tokens.value + Refill(args.refillPerMs, store[key].lastMs.value, now))
    else if args.originMs == 0 then args.capacity
    else Min(args.capacity, Refill(args.refillPerMs, args.originMs, now))
  }

  predicate WellFormed(store: Store, keys: seq<string>, args: seq<Args>, now: int) {
    && 1 <= |keys| <= 2 && |args| == |keys|
    && forall i :: 0 <= i < |keys| ==> args[i].Valid() && Readable(store, keys[i], now)
  }

  /** The first bucket that has no token, counting from 1; 0 when all have one. */
  function FirstEmpty(levels: seq<real>): (k: nat)
    ensures k <= |levels|
    ensures k > 0 ==> levels[k - 1] < 1.0
    ensures forall i :: 0 <= i < (if k == 0 then |levels| else k - 1) ==> levels[i] >= 1.0
  {
    if levels == [] then 0
    else if levels[0] < 1.0 then 1
    else
      var k := FirstEmpty(levels[1..]);
      assert forall i :: 0 < i < |levels| ==> levels[i] == levels[1..][i - 1];
      if k == 0 then 0 else k + 1
  }

  function Levels(store: Store, keys: seq<string>, args: seq<Args>, now: int): seq<real>
    requires |keys| == |args|
  {
    seq(|keys|, i requires 0 <= i < |keys| => Level(store, keys[i], args[i], now))
  }

  function Written(level: real, args: Args, now: int): Entry {
    Hash(Some(level - 1.0), Some(now), now + args.ttlS * 1000)
  }

  /** The store after the first `n` keys are written. */
  function Spent(store: Store, keys: seq<string>, args: seq<Args>, levels: seq<real>, now: int, n: nat): Store
    requires n <= |keys| && |keys| == |args| == |levels|
  {
    if n == 0 then store
    else Spent(store, keys, args, levels, now, n - 1)[keys[n - 1] := Written(levels[n - 1], args[n - 1], now)]
  }

  function Script(store: Store, keys: seq<string>, args: seq<Args>, now: int): (Store, Reply) {
    if !WellFormed(store, keys, args, now) then (store, Failed)
    else
      var levels := Levels(store, keys, args, now);
      var k := FirstEmpty(levels);
      if k > 0 then (store, Denied(k)) else (Spent(store, keys, args, levels, now, |keys|), Allowed)
  }

  /** The store, with the script run as the program runs it. */
  class Server {
    var buckets: Store

    constructor ()
      ensures buckets == map[]
    {
      buckets := map[];
    }

    method Evaluate(keys: seq<string>, args: seq<Args>, now: int) returns (reply: Reply)
      modifies this
      ensures (buckets, reply) == Script(old(buckets), keys, args, now)
    {
      if |keys| < 1 || |keys| > 2 {
        return Failed;
      }
      if |args| != |keys| {
        return Failed;
      }
      var levels: seq<real> := [];
      for i := 0 to |keys|
        invariant buckets == old(buckets)
        invariant |levels| == i
        invariant forall j :: 0 <= j < i ==>
          args[j].Valid() && Readable(buckets, keys[j], now) && levels[j] == Level(buckets, keys[j], args[j], now)
      {
        if !args[i].Valid() {
          return Failed;
        }
        if !Readable(buckets, keys[i], now) {
          return Failed;
        }
        levels := levels + [Level(buckets, keys[i], args[i], now)];
      }
      assert levels == Levels(buckets, keys, args, now);
      var denied := 0;
      while denied < |levels| && levels[denied] >= 1.0
        invariant 0 <= denied <= |levels|
        invariant forall j :: 0 <= j < denied ==> levels[j] >= 1.0
      {
        denied := denied + 1;
      }
      if denied < |levels| {
        return Denied(denied + 1);
      }
      for i := 0 to |keys|
        invariant buckets == Spent(old(buckets), keys, args, levels, now, i)
      {
        buckets := buckets[keys[i] := Written(levels[i], args[i], now)];
      }
      reply := Allowed;
    }
  }

  // ---------- Runs of calls ----------

  datatype Call = Call(keys: seq<string>, args: seq<Args>, now: int)

  /** How many tokens a call takes from `key`. */
  function Takes(store: Store, call: Call, key: string): nat {
    if Script(store, call.keys, call.args, call.now).1.Allowed? && key in call.keys then 1 else 0
  }

  /** A call that names its keys once, and gives `key` the arguments `args`. */
  ghost predicate Consistent(call: Call, key: string, args: Args) {
    && (|call.keys| == 2 ==> call.keys[0] != call.keys[1])
    && (forall i :: 0 <= i < |call.keys| && i < |call.args| && call.keys[i] == key ==> call.args[i] == args)
  }

  /** The account of `key` since `start`, at time `now`: what it gave plus what it holds is at most one capacity
      plus the refill since `start`. A missing key holds a whole capacity. */
  ghost predicate Account(store: Store, key: string, args: Args, start: int, now: int, taken: nat) {
    && start <= now
    && (if Stored(store, key, now) then
          && store[key].lastMs.value <= now
          && store[key].expiresAt == store[key].lastMs.value + args.ttlS * 1000
          && 0.0 <= store[key].tokens.value
          && taken as real + Level(store, key, args, now)
             <= args.capacity + Refill(args.refillPerMs, start, now)
        else
          taken as real <= Refill(args.refillPerMs, start, now))
  }

  /** Time may pass: the bucket gains no more than the refill, and a key that expires was full. */
  lemma TimePasses(store: Store, key: string, args: Args, start: int, now: int, later: int, taken: nat)
    requires args.Valid() && args.RefillsBeforeExpiry() && now <= later
    requires Account(store, key, args, start, now, taken)
    ensures Account(store, key, args, start, later, taken)
  {
    Accrues(args.refillPerMs, start, now, later);
    if Stored(store, key, now) {
      var e := store[key];
      Accrues(args.refillPerMs, e.lastMs.value, now, later);
      if !Stored(store, key, later) {
        FullByExpiry(args, e.lastMs.value, later);
        assert taken as real <= Refill(args.refillPerMs, start, later);
      }
    }
  }

  lemma FullByExpiry(args: Args, since: int, later: int)
    requires args.Valid() && args.RefillsBeforeExpiry() && later >= since + args.ttlS * 1000
    ensures Refill(args.refillPerMs, since, later) >= args.capacity
  {
    Grows(args.refillPerMs, (args.ttlS * 1000) as real, Elapsed(later, since));
  }

  /** The refill over [since, later] is the refill over [since, now] and the refill over [now, later]. */
  lemma Accrues(r: real, since: int, now: int, later: int)
    requires r > 0.0 && since <= now <= later
    ensures Refill(r, since, later) == Refill(r, since, now) + Refill(r, now, later)
    ensures Refill(r, now, later) >= 0.0
  {
    assert Elapsed(later, since) == Elapsed(now, since) + Elapsed(later, now);
  }

  lemma Grows(r: real, x: real, y: real)
    requires r > 0.0 && x <= y
    ensures r * x <= r * y
  {
  }

  /** The entry a call leaves under `key` when it allows and names that key once. */
  lemma AllowedWrites(store: Store, call: Call, key: string, args: Args)
    requires Consistent(call, key, args) && Script(store, call.keys, call.args, call.now).1.Allowed?
    ensures key in call.keys ==>
      && args.Valid() && Level(store, key, args, call.now) >= 1.0
      && key in Script(store, call.keys, call.args, call.now).0
      && Script(store, call.keys, call.args, call.now).0[key]
         == Written(Level(store, key, args, call.now), args, call.now)
    ensures key !in call.keys ==>
      && (key in Script(store, call.keys, call.args, call.now).0) == (key in store)
      && (key in store ==> Script(store, call.keys, call.args, call.now).0[key] == store[key])
  {
    var levels := Levels(store, call.keys, call.args, call.now);
    assert Spent(store, call.keys, call.args, levels, call.now, 0) == store;
    var once := store[call.keys[0] := Written(levels[0], call.args[0], call.now)];
    assert Spent(store, call.keys, call.args, levels, call.now, 1) == once;
    if |call.keys| == 2 {
      assert Spent(store, call.keys, call.args, levels, call.now, 2)
          == once[call.keys[1] := Written(levels[1], call.args[1], call.now)];
    }
    if key in call.keys {
      var i :| 0 <= i < |call.keys| && call.keys[i] == key;
      assert call.args[i] == args && levels[i] == Level(store, key, args, call.now) && levels[i] >= 1.0;
    }
  }

  lemma SpendKeepsAccount(store: Store, after: Store, key: string, args: Args, start: int, now: int, taken: nat)
    requires args.Valid() && Account(store, key, args, start, now, taken)
    requires Level(store, key, args, now) >= 1.0
    requires key in after && after[key] == Written(Level(store, key, args, now), args, now)
    ensures Account(after, key, args, start, now, taken + 1)
  {
    var left := Level(store, key, args, now) - 1.0;
    assert Stored(after, key, now);
    assert Refill(args.refillPerMs, now, now) == 0.0;
    assert Level(after, key, args, now) == left;
  }

  lemma SameEntrySameAccount(store: Store, after: Store, key: string, args: Args, start: int, now: int, taken: nat)
    requires Account(store, key, args, start, now, taken)
    requires (key in after) == (key in store) && (key in store ==> after[key] == store[key])
    ensures Account(after, key, args, start, now, taken)
  {
    assert Level(after, key, args, now) == Level(store, key, args, now);
  }

  /** One call keeps the account of a key. */
  lemma CallKeepsAccount(store: Store, call: Call, key: string, args: Args, start: int, now: int, taken: nat)
    requires args.Valid() && args.RefillsBeforeExpiry() && Consistent(call, key, args) && now <= call.now
    requires Account(store, key, args, start, now, taken)
    ensures Account(Script(store, call.keys, call.args, call.now).0, key, args, start, call.now,
                    taken + Takes(store, call, key))
  {
    TimePasses(store, key, args, start, now, call.now, taken);
    var (after, reply) := Script(store, call.keys, call.args, call.now);
    if reply.Allowed? {
      AllowedWrites(store, call, key, args);
      if key in call.keys {
        SpendKeepsAccount(store, after, key, args, start, call.now, taken);
      } else {
        SameEntrySameAccount(store, after, key, args, start, call.now, taken);
      }
    } else {
      assert after == store;
    }
  }

  ghost function After(store: Store, calls: seq<Call>): Store {
    if calls == [] then store
    else
      var last := calls[|calls| - 1];
      Script(After(store, calls[..|calls| - 1]), last.keys, last.args, last.now).0
  }

  ghost function Taken(store: Store, calls: seq<Call>, key: string): nat {
    if calls == [] then 0
    else
      var rest := calls[..|calls| - 1];
      Taken(store, rest, key) + Takes(After(store, rest), calls[|calls| - 1], key)
  }

  /** The calls come in server order within [start, end] and agree on what `key` is. */
  ghost predicate Run(calls: seq<Call>, key: string, args: Args, start: int, end: int) {
    && (forall i :: 0 <= i < |calls| ==> start <= calls[i].now <= end && Consistent(calls[i], key, args))
    && (forall i :: 0 < i < |calls| ==> calls[i - 1].now <= calls[i].now)
  }

  lemma {:induction false} RunKeepsAccount(store: Store, calls: seq<Call>, key: string, args: Args, start: int,
                                           end: int)
    requires args.Valid() && args.RefillsBeforeExpiry() && start <= end
    requires Account(store, key, args, start, start, 0) && Run(calls, key, args, start, end)
    ensures Account(After(store, calls), key, args, start,
                    if calls == [] then start else calls[|calls| - 1].now, Taken(store, calls, key))
  {
    if calls != [] {
      var rest := calls[..|calls| - 1];
      RunKeepsAccount(store, rest, key, args, start, end);
      var now := if rest == [] then start else rest[|rest| - 1].now;
      CallKeepsAccount(After(store, rest), calls[|calls| - 1], key, args, start, now, Taken(store, rest, key));
    }
  }

  /** Whatever else the calls touch and however often the key expires, one key gives at most its capacity plus
      its refill over the window. */
  lemma KeyBudget(store: Store, calls: seq<Call>, key: string, args: Args, start: int, end: int)
    requires args.Valid() && args.RefillsBeforeExpiry() && start <= end
    requires Account(store, key, args, start, start, 0) && Run(calls, key, args, start, end)
    ensures Taken(store, calls, key) as real <= args.capacity + Refill(args.refillPerMs, start, end)
  {
    RunKeepsAccount(store, calls, key, args, start, end);
    AccountBounds(After(store, calls), key, args, start, if calls == [] then start else calls[|calls| - 1].now,
                  end, Taken(store, calls, key));
  }

  lemma AccountBounds(store: Store, key: string, args: Args, start: int, now: int, end: int, taken: nat)
    requires args.Valid() && now <= end && Account(store, key, args, start, now, taken)
    ensures taken as real <= args.capacity + Refill(args.refillPerMs, start, end)
  {
    Grows(args.refillPerMs, Elapsed(now, start), (end - start) as real);
    if Stored(store, key, now) {
      assert Refill(args.refillPerMs, store[key].lastMs.value, now) >= 0.0;
    }
  }

  /** A key that is not stored holds a whole capacity or, if it has an origin, what has been refilled since then. */
  lemma MissingKeyLevel(store: Store, key: string, args: Args, now: int)
    requires args.Valid() && !Stored(store, key, now)
    ensures args.originMs == 0 ==> Level(store, key, args, now) == args.capacity
    ensures args.originMs > 0 && now <= args.originMs ==> Level(store, key, args, now) == 0.0
    ensures args.originMs > 0 ==>
      Level(store, key, args, now) <= Refill(args.refillPerMs, args.originMs, now) &&
        (Level(store, key, args, now) == args.capacity <==>
          Refill(args.refillPerMs, args.originMs, now) >= args.capacity)
  {
  }

  /** A key that has been spent pays again once a token's time has passed, and is full again after the time of what it
      lacks. */
  lemma TokensComeBack(store: Store, key: string, args: Args, now: int)
    requires args.Valid() && Stored(store, key, now) && 0.0 <= store[key].tokens.value <= args.capacity
    ensures args.capacity >= 1.0 && Refill(args.refillPerMs, store[key].lastMs.value, now) >= 1.0 ==>
      Level(store, key, args, now) >= 1.0
    ensures Level(store, key, args, now) == args.capacity <==>
      store[key].tokens.value + Refill(args.refillPerMs, store[key].lastMs.value, now) >= args.capacity
  {
  }

  /** The verdict: allowed exactly when every key has a token, denied by the first that has none, and failed exactly on
      a malformed call or an unreadable key. */
  lemma VerdictIs(store: Store, call: Call)
    ensures var reply := Script(store, call.keys, call.args, call.now).1;
      && (reply.Failed? <==> !WellFormed(store, call.keys, call.args, call.now))
      && (!reply.Failed? ==>
            && (reply.Allowed? <==>
                  forall i :: 0 <= i < |call.keys| ==> Level(store, call.keys[i], call.args[i], call.now) >= 1.0)
            && (reply.Denied? ==>
                  && 1 <= reply.index <= |call.keys|
                  && Level(store, call.keys[reply.index - 1], call.args[reply.index - 1], call.now) < 1.0
                  && forall i :: 0 <= i < reply.index - 1 ==>
                       Level(store, call.keys[i], call.args[i], call.now) >= 1.0))
  {
    if WellFormed(store, call.keys, call.args, call.now) {
      var levels := Levels(store, call.keys, call.args, call.now);
      assert forall i :: 0 <= i < |call.keys| ==> levels[i] == Level(store, call.keys[i], call.args[i], call.now);
    }
  }

  /** `store` holds, for the i-th key of the call, what it held before less one token. */
  ghost predicate OneTaken(store: Store, call: Call, after: Store, i: nat)
    requires i < |call.keys| && i < |call.args|
  {
    var level := Level(store, call.keys[i], call.args[i], call.now);
    && level >= 1.0
    && call.keys[i] in after
    && after[call.keys[i]] == Written(level, call.args[i], call.now)
  }

  /** A call that does not allow leaves every key, and its expiry, as it was; one that allows takes one token
      from each key it names. */
  lemma AllOrNothing(store: Store, call: Call)
    requires |call.keys| == 2 ==> call.keys[0] != call.keys[1]
    ensures var (after, reply) := Script(store, call.keys, call.args, call.now);
      && (!reply.Allowed? ==> after == store)
      && (reply.Allowed? ==> forall i :: 0 <= i < |call.keys| ==> OneTaken(store, call, after, i))
  {
    var (after, reply) := Script(store, call.keys, call.args, call.now);
    if reply.Allowed? {
      forall i | 0 <= i < |call.keys| ensures OneTaken(store, call, after, i) {
        assert Consistent(call, call.keys[i], call.args[i]);
        AllowedWrites(store, call, call.keys[i], call.args[i]);
      }
    }
  }
}
