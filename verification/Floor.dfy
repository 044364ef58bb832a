/** The always-on floor: a bounded domain anywhere in a skeleton, or a scam phrase, whose words are consecutive
    maximal runs of letters. */
module Floor {
  import opened Options
  import opened Words

  /** The two classes of bytes, as characters. */
  lemma ClassesAre(c: byte)
    ensures IsToken(c) <==> 'a' <= c as char <= 'z'
    ensures IsAlnum(c) <==> 'a' <= c as char <= 'z' || '0' <= c as char <= '9'
  {
  }

  predicate IsToken(c: byte) {
    97 <= c <= 122
  }

  predicate IsAlnum(c: byte) {
    97 <= c <= 122 || 48 <= c <= 57
  }

  // ---------- Phrases ----------

  datatype Span = Span(start: nat, end: nat)

  /** A maximal run of letters. */
  ghost predicate IsRun(v: Word, r: Span) {
    && r.start < r.end <= |v|
    && (forall i :: r.start <= i < r.end ==> IsToken(v[i]))
    && (r.start > 0 ==> !IsToken(v[r.start - 1]))
    && (r.end < |v| ==> !IsToken(v[r.end]))
  }

  /** No letter stands in [from, to). */
  ghost predicate Gap(v: Word, from: nat, upto: nat)
    requires upto <= |v|
  {
    forall i :: from <= i < upto ==> !IsToken(v[i])
  }

  /** The runs spell the words, one after the other with nothing but gaps between them. */
  ghost predicate Spells(v: Word, runs: seq<Span>, words: seq<Word>) {
    && |runs| == |words|
    && (forall i :: 0 <= i < |runs| ==> IsRun(v, runs[i]) && v[runs[i].start..runs[i].end] == words[i])
    && (forall i :: 0 <= i < |runs| - 1 ==> runs[i].end <= runs[i + 1].start && Gap(v, runs[i].end, runs[i + 1].start))
  }

  /** The phrase stands in `v` with its first word at the run `r`. */
  ghost predicate PhraseAt(v: Word, r: Span, words: seq<Word>) {
    exists runs: seq<Span> :: Spells(v, runs, words) && (runs != [] ==> runs[0] == r)
  }

  /** Two runs that both follow a position with nothing but a gap between are one and the same. */
  lemma NextRunIsUnique(v: Word, from: nat, r: Span, s: Span)
    requires IsRun(v, r) && IsRun(v, s) && from <= r.start && from <= s.start
    requires Gap(v, from, r.start) && Gap(v, from, s.start)
    ensures r == s
  {
    assert IsToken(v[r.start]) && IsToken(v[s.start]);
    assert r.end < |v| ==> !IsToken(v[r.end]);
    assert s.end < |v| ==> !IsToken(v[s.end]);
  }

  /** One more run of a spelling is the next run. */
  ghost predicate Follows(v: Word, runs: seq<Span>, words: seq<Word>, i: nat)
    requires 0 < i < |runs| && i < |words|
  {
    && IsRun(v, runs[i]) && v[runs[i].start..runs[i].end] == words[i]
    && runs[i - 1].end <= runs[i].start && Gap(v, runs[i - 1].end, runs[i].start)
  }

  lemma SpellingFollows(v: Word, runs: seq<Span>, words: seq<Word>, i: nat)
    requires Spells(v, runs, words) && 0 < i < |runs|
    ensures Follows(v, runs, words, i)
  {
    assert i - 1 < |runs| - 1;
  }

  /** However far they get, the runs that spell a phrase from a given run on are determined. */
  lemma {:induction false} SpellingIsUnique(v: Word, runs: seq<Span>, all: seq<Span>, words: seq<Word>, k: nat)
    requires k < |runs| <= |all| == |words| && Spells(v, all, words)
    requires (forall i :: 0 < i < |runs| ==> Follows(v, runs, words, i)) && runs[0] == all[0]
    ensures runs[k] == all[k]
    decreases k
  {
    if k > 0 {
      SpellingIsUnique(v, runs, all, words, k - 1);
      SpellingFollows(v, all, words, k);
      assert Follows(v, runs, words, k);
      NextRunIsUnique(v, runs[k - 1].end, runs[k], all[k]);
    }
  }

  /** A spelling that cannot go on, because no run follows or the one that follows is not the word, is no phrase. */
  lemma NoPhrase(v: Word, r: Span, runs: seq<Span>, next: Option<Span>, words: seq<Word>)
    requires |runs| < |words| && (forall i :: 0 < i < |runs| ==> Follows(v, runs, words, i))
    requires runs != [] ==> runs[0] == r
    requires runs == [] ==> next == Some(r)
    requires next.Some? ==> IsRun(v, next.value) && v[next.value.start..next.value.end] != words[|runs|]
    requires runs != [] ==> runs[|runs| - 1].end <= |v| && match next
      case None => Gap(v, runs[|runs| - 1].end, |v|)
      case Some(s) => runs[|runs| - 1].end <= s.start && Gap(v, runs[|runs| - 1].end, s.start)
    ensures !PhraseAt(v, r, words)
  {
    if PhraseAt(v, r, words) {
      var all: seq<Span> :| Spells(v, all, words) && (all != [] ==> all[0] == r);
      if runs != [] {
        NextIsNext(v, runs, next, all, words);
      }
      assert false;
    }
  }

  /** If the phrase did go on, it would go on with the run that follows. */
  lemma NextIsNext(v: Word, runs: seq<Span>, next: Option<Span>, all: seq<Span>, words: seq<Word>)
    requires 0 < |runs| < |words| && (forall i :: 0 < i < |runs| ==> Follows(v, runs, words, i))
    requires Spells(v, all, words) && runs[0] == all[0]
    requires next.Some? ==> IsRun(v, next.value)
    requires runs[|runs| - 1].end <= |v| && match next
      case None => Gap(v, runs[|runs| - 1].end, |v|)
      case Some(s) => runs[|runs| - 1].end <= s.start && Gap(v, runs[|runs| - 1].end, s.start)
    ensures next == Some(all[|runs|])
  {
    var k := |runs|;
    SpellingIsUnique(v, runs, all, words, k - 1);
    SpellingFollows(v, all, words, k);
    assert IsToken(v[all[k].start]);
    if next.Some? {
      NextRunIsUnique(v, runs[k - 1].end, all[k], next.value);
    }
  }

  /** The next maximal run from a position at which no run is under way. */
  method NextFloorToken(v: Word, from: nat) returns (next: Option<Span>)
    requires from <= |v| && (0 < from < |v| && IsToken(v[from]) ==> !IsToken(v[from - 1]))
    ensures next.Some? ==> IsRun(v, next.value) && from <= next.value.start && Gap(v, from, next.value.start)
    ensures next.None? ==> Gap(v, from, |v|)
  {
    var i := from;
    while i < |v| && !IsToken(v[i])
      invariant from <= i <= |v| && Gap(v, from, i)
    {
      i := i + 1;
    }
    if i >= |v| {
      return None;
    }
    var start := i;
    while i < |v| && IsToken(v[i])
      invariant start <= i <= |v| && forall j :: start <= j < i ==> IsToken(v[j])
    {
      i := i + 1;
    }
    next := Some(Span(start, i));
  }

  method EqRun(v: Word, pos: nat, w: Word) returns (same: bool)
    requires pos + |w| <= |v|
    ensures same == (v[pos..pos + |w|] == w)
  {
    for k := 0 to |w|
      invariant forall j :: 0 <= j < k ==> v[pos + j] == w[j]
    {
      if v[pos + k] != w[k] {
        assert v[pos..pos + |w|][k] != w[k];
        return false;
      }
    }
    same := true;
  }

  /** Whether the phrase stands here: each word is compared with the next run, and runs are never skipped. */
  method FindPhraseAt(v: Word, r: Span, words: seq<Word>) returns (found: bool)
    requires IsRun(v, r)
    ensures found == PhraseAt(v, r, words)
  {
    var at := r;
    ghost var runs: seq<Span> := [];
    for wi := 0 to |words|
      invariant |runs| == wi && (forall i :: 0 < i < |runs| ==> Follows(v, runs, words, i))
      invariant runs != [] ==> runs[0] == r && v[r.start..r.end] == words[0]
      invariant IsRun(v, at) && at == if wi > 0 then runs[wi - 1] else r
    {
      if wi > 0 {
        var next := NextFloorToken(v, at.end);
        if next.None? {
          NoPhrase(v, r, runs, None, words);
          return false;
        }
        at := next.value;
      }
      var w := words[wi];
      var same := false;
      if at.end - at.start == |w| {
        same := EqRun(v, at.start, w);
      }
      if !same {
        NoPhrase(v, r, runs, Some(at), words);
        return false;
      }
      OneRunMore(v, runs, words, at);
      runs := runs + [at];
    }
    RunsSpell(v, r, runs, words);
    found := true;
  }

  /** One more run that is the next word. */
  lemma OneRunMore(v: Word, runs: seq<Span>, words: seq<Word>, at: Span)
    requires |runs| < |words| && forall i :: 0 < i < |runs| ==> Follows(v, runs, words, i)
    requires IsRun(v, at) && v[at.start..at.end] == words[|runs|]
    requires runs != [] ==> runs[|runs| - 1].end <= at.start && Gap(v, runs[|runs| - 1].end, at.start)
    ensures forall i :: 0 < i < |runs + [at]| ==> Follows(v, runs + [at], words, i)
  {
    forall i | 0 < i < |runs + [at]| ensures Follows(v, runs + [at], words, i) {
      assert i < |runs| ==> Follows(v, runs, words, i);
    }
  }

  lemma RunsSpell(v: Word, r: Span, runs: seq<Span>, words: seq<Word>)
    requires |runs| == |words| && forall i :: 0 < i < |runs| ==> Follows(v, runs, words, i)
    requires runs != [] ==> runs[0] == r && IsRun(v, r) && v[r.start..r.end] == words[0]
    ensures PhraseAt(v, r, words)
  {
    forall i | 0 <= i < |runs| ensures IsRun(v, runs[i]) && v[runs[i].start..runs[i].end] == words[i] {
      assert i > 0 ==> Follows(v, runs, words, i);
    }
    forall i | 0 <= i < |runs| - 1 ensures runs[i].end <= runs[i + 1].start && Gap(v, runs[i].end, runs[i + 1].start) {
      assert Follows(v, runs, words, i + 1);
    }
    assert Spells(v, runs, words);
  }

  /** A phrase hit: the run at which it starts and the phrase's index. */
  datatype ScamHit = ScamHit(at: Span, phrase: nat)

  /** The phrase stands at the run, no phrase of lower index does, and none starts at an earlier run. */
  ghost predicate IsFirstHit(v: Word, at: Span, phrase: nat, phrases: seq<seq<Word>>)
    requires phrase < |phrases|
  {
    && IsRun(v, at) && PhraseAt(v, at, phrases[phrase])
    && (forall p :: 0 <= p < phrase ==> !PhraseAt(v, at, phrases[p]))
    && (forall r: Span, p :: IsRun(v, r) && r.start < at.start && 0 <= p < |phrases| ==> !PhraseAt(v, r, phrases[p]))
  }

  /** The first hit: no phrase starts at an earlier run, and no phrase of lower index starts at this one. */
  method MatchScam(v: Word, phrases: seq<seq<Word>>) returns (hit: Option<ScamHit>)
    ensures hit.Some? ==> hit.value.phrase < |phrases| && IsFirstHit(v, hit.value.at, hit.value.phrase, phrases)
    ensures hit.None? ==> forall r: Span, p :: IsRun(v, r) && 0 <= p < |phrases| ==> !PhraseAt(v, r, phrases[p])
  {
    var next := NextFloorToken(v, 0);
    ghost var from := 0;
    while next.Some?
      invariant from <= |v| && (from > 0 ==> from == |v| || !IsToken(v[from]))
      invariant next.Some? ==> IsRun(v, next.value) && from <= next.value.start && Gap(v, from, next.value.start)
      invariant next.None? ==> Gap(v, from, |v|)
      invariant forall r: Span, p :: IsRun(v, r) && r.start < from && 0 <= p < |phrases| ==> !PhraseAt(v, r, phrases[p])
      decreases |v| - from
    {
      var r := next.value;
      for p := 0 to |phrases|
        invariant forall q :: 0 <= q < p ==> !PhraseAt(v, r, phrases[q])
      {
        var here := FindPhraseAt(v, r, phrases[p]);
        if here {
          forall s: Span, q | IsRun(v, s) && s.start < r.start && 0 <= q < |phrases|
            ensures !PhraseAt(v, s, phrases[q]) {
            assert s.start < from by { assert IsToken(v[s.start]); }
          }
          return Some(ScamHit(r, p));
        }
      }
      forall s: Span, q | IsRun(v, s) && s.start < r.end && 0 <= q < |phrases| ensures !PhraseAt(v, s, phrases[q]) {
        assert IsToken(v[s.start]) && (s.start > 0 ==> !IsToken(v[s.start - 1]));
        if s.start >= from {
          NextRunIsUnique(v, s.start, s, r);
        }
      }
      from := r.end;
      next := NextFloorToken(v, r.end);
    }
    forall s: Span, q | IsRun(v, s) && 0 <= q < |phrases| ensures !PhraseAt(v, s, phrases[q]) {
      assert IsToken(v[s.start]);
    }
    hit := None;
  }

  // ---------- Domains ----------

  /** `d` stands at `s` with no letter or digit on either side. */
  ghost predicate BoundedAt(v: Word, d: Word, s: int) {
    && At(d, v, s)
    && (s > 0 ==> !IsAlnum(v[s - 1]))
    && (s + |d| < |v| ==> !IsAlnum(v[s + |d|]))
  }

  predicate DomainBounded(v: Word, s: nat, e: nat)
    requires s <= e <= |v|
  {
    && (s > 0 ==> !IsAlnum(v[s - 1]))
    && (e == |v| || !IsAlnum(v[e]))
  }

  /** The first place from `from` on at which `d` stands. */
  method Index(v: Word, d: Word, from: nat) returns (at: Option<nat>)
    requires from <= |v|
    ensures at.Some? ==> from <= at.value && At(d, v, at.value) && forall k :: from <= k < at.value ==> !At(d, v, k)
    ensures at.None? ==> forall k :: from <= k ==> !At(d, v, k)
  {
    var k := from;
    while k + |d| <= |v|
      invariant from <= k && forall j :: from <= j < k ==> !At(d, v, j)
    {
      if v[k..k + |d|] == d {
        return Some(k);
      }
      k := k + 1;
    }
    at := None;
  }

  /** The first pattern that stands somewhere bounded. Patterns are not empty. */
  method MatchDomain(v: Word, patterns: seq<Word>) returns (hit: Option<nat>)
    requires forall d :: d in patterns ==> d != []
    ensures hit.Some? ==>
      && hit.value < |patterns| && (exists s :: BoundedAt(v, patterns[hit.value], s))
      && forall p, s :: 0 <= p < hit.value ==> !BoundedAt(v, patterns[p], s)
    ensures hit.None? ==> forall p, s :: 0 <= p < |patterns| ==> !BoundedAt(v, patterns[p], s)
  {
    for p := 0 to |patterns|
      invariant forall q, s :: 0 <= q < p ==> !BoundedAt(v, patterns[q], s)
    {
      var d := patterns[p];
      assert d in patterns;
      var i := 0;
      while true
        invariant i <= |v| && forall s :: s < i ==> !BoundedAt(v, d, s)
        decreases |v| - i
      {
        var s := Index(v, d, i);
        if s.None? {
          break;
        }
        if DomainBounded(v, s.value, s.value + |d|) {
          assert BoundedAt(v, patterns[p], s.value);
          return Some(p);
        }
        i := s.value + 1;
      }
      assert forall s :: !BoundedAt(v, patterns[p], s);
    }
    hit := None;
  }

  /** Domains are looked for before phrases. */
  datatype Verdict = Clean | IpLogger(domain: nat) | Scam(phrase: nat)

  method MatchFloor(v: Word, patterns: seq<Word>, phrases: seq<seq<Word>>) returns (verdict: Verdict)
    requires forall d :: d in patterns ==> d != []
    ensures verdict.IpLogger? <==> v != [] && exists p, s :: 0 <= p < |patterns| && BoundedAt(v, patterns[p], s)
    ensures verdict.IpLogger? ==>
      && verdict.domain < |patterns| && (exists s :: BoundedAt(v, patterns[verdict.domain], s))
      && forall p, s :: 0 <= p < verdict.domain ==> !BoundedAt(v, patterns[p], s)
    ensures verdict.Clean? ==>
      v == [] || forall r: Span, p :: IsRun(v, r) && 0 <= p < |phrases| ==> !PhraseAt(v, r, phrases[p])
    ensures verdict.Scam? ==> verdict.phrase < |phrases| && exists r: Span :: IsFirstHit(v, r, verdict.phrase, phrases)
  {
    if |v| == 0 {
      return Clean;
    }
    var domain := MatchDomain(v, patterns);
    if domain.Some? {
      return IpLogger(domain.value);
    }
    var scam := MatchScam(v, phrases);
    verdict := if scam.Some? then Scam(scam.value.phrase) else Clean;
  }
}
