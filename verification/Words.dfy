/** Byte strings, and the theory of suffixes the matcher and the text scanners rest on. */
module Words {

  newtype byte = b: int | 0 <= b < 256

  type Word = seq<byte>

  /** `s` ends `w`. Stated byte by byte: the indices of `s` lead into `w` and not back. */
  ghost predicate Suffix(s: Word, w: Word) {
    |s| <= |w| && forall i {:trigger s[i]} :: 0 <= i < |s| ==> s[i] == w[|w| - |s| + i]
  }

  lemma SuffixIsDrop(s: Word, w: Word)
    ensures Suffix(s, w) <==> |s| <= |w| && w[|w| - |s|..] == s
  {
    if |s| <= |w| && w[|w| - |s|..] == s {
      assert forall i :: 0 <= i < |s| ==> s[i] == w[|w| - |s|..][i];
    }
  }

  /** `p` stands in `text` at position `k`. */
  ghost predicate At(p: Word, text: Word, k: int) {
    0 <= k <= |text| - |p| && text[k..k + |p|] == p
  }

  /** `p` is a substring of `text`. */
  ghost predicate Occurs(p: Word, text: Word) {
    exists k :: At(p, text, k)
  }

  /** An occurrence of `p` in `text` ends after `e` bytes. */
  ghost predicate EndsAt(p: Word, text: Word, e: int) {
    0 <= e <= |text| && Suffix(p, text[..e])
  }

  /** `s` is the longest member of `T` that is a suffix of `w`. */
  ghost predicate Longest(T: set<Word>, w: Word, s: Word) {
    && s in T
    && Suffix(s, w)
    && forall t {:trigger Suffix(t, w)} :: t in T && Suffix(t, w) ==> |t| <= |s|
  }

  ghost function Init(w: Word): Word
    requires w != []
  {
    w[..|w| - 1]
  }

  ghost function Last(w: Word): byte
    requires w != []
  {
    w[|w| - 1]
  }

  /** Stated over `Init` so that it is only unfolded where a parent is asked for. */
  ghost predicate PrefixClosed(T: set<Word>) {
    && [] in T
    && forall w {:trigger Init(w)} :: w in T && w != [] ==> Init(w) in T
  }

  lemma OccursEndsSomewhere(p: Word, text: Word)
    ensures Occurs(p, text) <==> exists e :: EndsAt(p, text, e)
  {
    if Occurs(p, text) {
      var k :| At(p, text, k);
      SuffixIsDrop(p, text[..k + |p|]);
      assert text[..k + |p|][k..] == text[k..k + |p|];
      assert EndsAt(p, text, k + |p|);
    }
    if e :| EndsAt(p, text, e) {
      SuffixIsDrop(p, text[..e]);
      assert text[e - |p|..e] == text[..e][e - |p|..];
      assert At(p, text, e - |p|);
    }
  }

  /** Two suffixes of one word are nested. */
  lemma SuffixesNest(s: Word, t: Word, w: Word)
    requires Suffix(s, w) && Suffix(t, w) && |s| <= |t|
    ensures Suffix(s, t)
    ensures |s| == |t| ==> s == t
  {}

  lemma SuffixTransitive(s: Word, t: Word, w: Word)
    requires Suffix(s, t) && Suffix(t, w)
    ensures Suffix(s, w)
  {}

  lemma SuffixSnoc(s: Word, w: Word, b: byte)
    ensures Suffix(s + [b], w + [b]) <==> Suffix(s, w)
  {
    if Suffix(s + [b], w + [b]) {
      forall i | 0 <= i < |s| ensures s[i] == w[|w| - |s| + i] {
        assert (s + [b])[i] == (w + [b])[|w| - |s| + i];
      }
    }
  }

  /** A nonempty suffix of `w + [b]` is a suffix of `w` followed by `b`. */
  lemma SuffixOfSnoc(t: Word, w: Word, b: byte)
    requires Suffix(t, w + [b]) && t != []
    ensures t == Init(t) + [b] && Suffix(Init(t), w)
  {
    assert t[|t| - 1] == (w + [b])[|w|] == b;
    assert t == Init(t) + [b];
    SuffixSnoc(Init(t), w, b);
  }
}
