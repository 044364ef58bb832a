/** Sorting under a strict total order, and the byte order on names. A sorted arrangement is unique, so what is
    proved here of insertion holds of any library sort. */
module Ordering {

  ghost predicate Chain<T>(below: (T, T) -> bool, x: T, y: T, z: T) {
    below(x, y) && below(y, z) ==> below(x, z)
  }

  ghost predicate Compare<T>(below: (T, T) -> bool, x: T, y: T) {
    below(x, y) || x == y || below(y, x)
  }

  /** `below` is a strict total order. */
  ghost predicate Strict<T(!new)>(below: (T, T) -> bool) {
    && (forall x :: !below(x, x))
    && (forall x, y, z {:trigger Chain(below, x, y, z)} :: Chain(below, x, y, z))
    && (forall x, y {:trigger Compare(below, x, y)} :: Compare(below, x, y))
  }

  ghost predicate InPlace<T>(below: (T, T) -> bool, s: seq<T>, i: nat, j: nat)
    requires i < |s| && j < |s|
  {
    !below(s[j], s[i])
  }

  ghost predicate Sorted<T>(below: (T, T) -> bool, s: seq<T>) {
    forall i: nat, j: nat {:trigger InPlace(below, s, i, j)} :: i < j < |s| ==> InPlace(below, s, i, j)
  }

  lemma TailSorted<T>(below: (T, T) -> bool, s: seq<T>)
    requires s != [] && Sorted(below, s)
    ensures Sorted(below, s[1..])
  {
    forall i: nat, j: nat | i < j < |s| - 1 ensures InPlace(below, s[1..], i, j) {
      assert InPlace(below, s, i + 1, j + 1);
    }
  }

  /** A sequence is sorted when nothing in its tail is below its head and the tail is sorted. */
  lemma ConsSorted<T>(below: (T, T) -> bool, x: T, s: seq<T>)
    requires Sorted(below, s) && forall y :: y in s ==> !below(y, x)
    ensures Sorted(below, [x] + s)
  {
    var r := [x] + s;
    forall i: nat, j: nat | i < j < |r| ensures InPlace(below, r, i, j) {
      if i > 0 {
        assert InPlace(below, s, i - 1, j - 1);
      } else {
        assert r[j] in s;
      }
    }
  }

  function Insert<T>(below: (T, T) -> bool, x: T, s: seq<T>): seq<T> {
    if s == [] || below(x, s[0]) then [x] + s else [s[0]] + Insert(below, x, s[1..])
  }

  function Sort<T>(below: (T, T) -> bool, s: seq<T>): seq<T> {
    if s == [] then [] else Insert(below, s[0], Sort(below, s[1..]))
  }

  lemma {:induction false} InsertSorts<T(!new)>(below: (T, T) -> bool, x: T, s: seq<T>)
    requires Strict(below) && Sorted(below, s)
    ensures Sorted(below, Insert(below, x, s))
    ensures multiset(Insert(below, x, s)) == multiset(s) + multiset{x}
  {
    if s == [] {
      ConsSorted(below, x, s);
    } else if below(x, s[0]) {
      forall y | y in s ensures !below(y, x) {
        var j: nat :| j < |s| && s[j] == y;
        assert j > 0 ==> InPlace(below, s, 0, j);
        assert Chain(below, y, x, s[0]);
        assert Chain(below, x, s[0], x);
      }
      ConsSorted(below, x, s);
    } else {
      TailSorted(below, s);
      InsertSorts(below, x, s[1..]);
      var rest := Insert(below, x, s[1..]);
      assert s == [s[0]] + s[1..];
      forall y | y in rest ensures !below(y, s[0]) {
        assert y in multiset(rest);
        if y != x {
          var j: nat :| j < |s| - 1 && s[1..][j] == y;
          assert InPlace(below, s, 0, j + 1);
        }
      }
      ConsSorted(below, s[0], rest);
    }
  }

  lemma {:induction false} SortSorts<T(!new)>(below: (T, T) -> bool, s: seq<T>)
    requires Strict(below)
    ensures Sorted(below, Sort(below, s)) && multiset(Sort(below, s)) == multiset(s)
  {
    if s != [] {
      SortSorts(below, s[1..]);
      InsertSorts(below, s[0], Sort(below, s[1..]));
      assert s == [s[0]] + s[1..];
    }
  }

  lemma SameHead<T(!new)>(below: (T, T) -> bool, s: seq<T>, t: seq<T>)
    requires Strict(below) && Sorted(below, s) && Sorted(below, t) && multiset(s) == multiset(t) && s != [] && t != []
    ensures s[0] == t[0]
  {
    assert s[0] in multiset(t) && t[0] in multiset(s);
    var i: nat :| i < |t| && t[i] == s[0];
    var j: nat :| j < |s| && s[j] == t[0];
    assert i > 0 ==> InPlace(below, t, 0, i);
    assert j > 0 ==> InPlace(below, s, 0, j);
    assert Compare(below, s[0], t[0]);
  }

  /** Two sorted arrangements of the same elements are the same sequence. */
  lemma {:induction false} SortedIsUnique<T(!new)>(below: (T, T) -> bool, s: seq<T>, t: seq<T>)
    requires Strict(below) && Sorted(below, s) && Sorted(below, t) && multiset(s) == multiset(t)
    ensures s == t
  {
    assert |multiset(s)| == |multiset(t)|;
    if s != [] {
      SameHead(below, s, t);
      assert s == [s[0]] + s[1..] && t == [t[0]] + t[1..];
      assert multiset(s[1..]) == multiset(s) - multiset{s[0]};
      assert multiset(t[1..]) == multiset(t) - multiset{t[0]};
      TailSorted(below, s);
      TailSorted(below, t);
      SortedIsUnique(below, s[1..], t[1..]);
    }
  }

  lemma SortIsUnique<T(!new)>(below: (T, T) -> bool, s: seq<T>, t: seq<T>)
    requires Strict(below) && multiset(s) == multiset(t)
    ensures Sort(below, s) == Sort(below, t)
  {
    SortSorts(below, s);
    SortSorts(below, t);
    SortedIsUnique(below, Sort(below, s), Sort(below, t));
  }

  lemma Twice<T>(s: seq<T>, i: nat, j: nat)
    requires i < j < |s| && s[i] == s[j]
    ensures multiset(s)[s[i]] >= 2
  {
    assert s == s[..i] + [s[i]] + s[i + 1..j] + [s[j]] + s[j + 1..];
  }

  // ---------- Names ----------

  /** Lexicographic order of strings. */
  predicate Before(a: string, b: string) {
    b != [] && (a == [] || a[0] < b[0] || (a[0] == b[0] && Before(a[1..], b[1..])))
  }

  lemma {:induction false} BeforeIsTotal(a: string, b: string)
    ensures Before(a, b) || a == b || Before(b, a)
    ensures !(Before(a, b) && Before(b, a))
  {
    if a != [] && b != [] && a[0] == b[0] {
      BeforeIsTotal(a[1..], b[1..]);
      assert a == [a[0]] + a[1..] && b == [b[0]] + b[1..];
    }
  }

  lemma {:induction false} BeforeChains(a: string, b: string, c: string)
    requires Before(a, b) && Before(b, c)
    ensures Before(a, c)
  {
    if a != [] && a[0] == b[0] == c[0] {
      BeforeChains(a[1..], b[1..], c[1..]);
    }
  }

  lemma NamesAreOrdered()
    ensures Strict(Before)
  {
    forall x ensures !Before(x, x) {
      BeforeIsTotal(x, x);
    }
    forall x, y, z ensures Chain(Before, x, y, z) {
      if Before(x, y) && Before(y, z) {
        BeforeChains(x, y, z);
      }
    }
    forall x, y ensures Compare(Before, x, y) {
      BeforeIsTotal(x, y);
    }
  }
}
