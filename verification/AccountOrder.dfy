/** The order in which accounts are compiled: exporters before their importers, ties by name, and cycles broken by
    name as well. */
module AccountOrder {
  import opened Ordering

  /** For every account, the accounts its imports come from, as written. */
  type Acl = map<string, seq<string>>

  /** The distinct other accounts an account imports from. */
  function Exporters(acl: Acl, name: string): set<string> {
    if name in acl then set f | f in acl[name] && f != name else {}
  }

  function Done(order: seq<string>): set<string> {
    set n | n in order
  }

  /** Nothing the account imports from is still to come. */
  predicate Ready(acl: Acl, name: string, done: set<string>) {
    Exporters(acl, name) <= done
  }

  ghost predicate Distinct(s: seq<string>) {
    forall i, j :: 0 <= i < j < |s| ==> s[i] != s[j]
  }

  /** The account names in ascending order. */
  ghost predicate Names(acl: Acl, names: seq<string>) {
    Sorted(Before, names) && Distinct(names) && forall n :: n in names <==> n in acl
  }

  /** From position `i` on: the first ready account that is not done, otherwise the fallback, which is the first not
      done unless its name is empty. */
  function Pick(acl: Acl, names: seq<string>, done: set<string>, i: nat, fallback: string): string
    requires i <= |names|
    decreases |names| - i
  {
    if i == |names| then fallback
    else if names[i] in done then Pick(acl, names, done, i + 1, fallback)
    else if Ready(acl, names[i], done) then names[i]
    else Pick(acl, names, done, i + 1, if fallback == "" then names[i] else fallback)
  }

  /** What is picked is not done; it is ready if anything is, and then nothing ready comes before it by position. */
  lemma {:induction false} PickIs(acl: Acl, names: seq<string>, done: set<string>, i: nat, fallback: string)
    requires i <= |names|
    requires fallback == "" || (fallback in names && fallback !in done && !Ready(acl, fallback, done))
    ensures var p := Pick(acl, names, done, i, fallback);
      && (p == fallback || (p in names && p !in done))
      && ((exists k :: i <= k < |names| && names[k] !in done) ==> p in names && p !in done)
      && (forall k :: i <= k < |names| && names[k] !in done && Ready(acl, names[k], done) ==>
            Ready(acl, p, done) && exists j :: i <= j <= k && names[j] == p)
    decreases |names| - i
  {
    if i < |names| {
      if names[i] in done {
        PickIs(acl, names, done, i + 1, fallback);
      } else if !Ready(acl, names[i], done) {
        PickIs(acl, names, done, i + 1, if fallback == "" then names[i] else fallback);
      }
    }
  }

  /** With nothing ready the pick is the fallback or, for want of one, the first account by position that is not done
      and has a name. */
  lemma {:induction false} PickFallsBack(acl: Acl, names: seq<string>, done: set<string>, i: nat, fallback: string)
    requires i <= |names|
    requires forall k :: i <= k < |names| && names[k] !in done ==> !Ready(acl, names[k], done)
    ensures var p := Pick(acl, names, done, i, fallback);
      if fallback != "" then p == fallback
      else forall k :: i <= k < |names| && names[k] !in done && names[k] != "" ==>
             p != "" && exists j :: i <= j <= k && names[j] == p
    decreases |names| - i
  {
    if i < |names| {
      var next := if names[i] in done || fallback != "" then fallback else names[i];
      PickFallsBack(acl, names, done, i + 1, next);
    }
  }

  predicate AllDone(names: seq<string>, order: seq<string>) {
    forall n :: n in names ==> n in order
  }

  function Next(acl: Acl, names: seq<string>, order: seq<string>): (next: string)
    requires !AllDone(names, order)
    ensures next in names && next !in order
    ensures forall k :: 0 <= k < |names| && names[k] !in order && Ready(acl, names[k], Done(order)) ==>
      Ready(acl, next, Done(order)) && exists j :: 0 <= j <= k && names[j] == next
  {
    PickIs(acl, names, Done(order), 0, "");
    var n :| n in names && n !in order;
    assert exists k :: 0 <= k < |names| && names[k] !in Done(order) by {
      var k :| 0 <= k < |names| && names[k] == n;
    }
    Pick(acl, names, Done(order), 0, "")
  }

  lemma Shrinks(names: seq<string>, order: seq<string>, next: string)
    requires next in names && next !in order
    ensures Done(names) - Done(order + [next]) < Done(names) - Done(order)
  {
    assert Done(order + [next]) == Done(order) + {next};
    assert next in Done(names) - Done(order);
  }

  /** The whole order, from the part already chosen. */
  ghost function Ordered(acl: Acl, names: seq<string>, order: seq<string>): seq<string>
    decreases Done(names) - Done(order)
  {
    if AllDone(names, order) then order
    else
      var next := Next(acl, names, order);
      Shrinks(names, order, next);
      Ordered(acl, names, order + [next])
  }

  /** The k-th account was picked by the rule, given those before it. */
  ghost predicate Picked(acl: Acl, names: seq<string>, all: seq<string>, k: nat)
    requires k < |all|
  {
    !AllDone(names, all[..k]) && all[k] == Next(acl, names, all[..k])
  }

  lemma {:induction false} OrderedIs(acl: Acl, names: seq<string>, order: seq<string>)
    requires Distinct(order) && forall n :: n in order ==> n in names
    ensures var all := Ordered(acl, names, order);
      && order <= all && Distinct(all) && (forall n :: n in all <==> n in names)
      && forall k: nat {:trigger Picked(acl, names, all, k)} :: |order| <= k < |all| ==> Picked(acl, names, all, k)
    decreases Done(names) - Done(order)
  {
    if !AllDone(names, order) {
      var next := Next(acl, names, order);
      Shrinks(names, order, next);
      DistinctSnoc(order, next);
      OrderedIs(acl, names, order + [next]);
      var all := Ordered(acl, names, order + [next]);
      assert Ordered(acl, names, order) == all;
      FirstPick(acl, names, order, all);
      forall k: nat {:trigger Picked(acl, names, all, k)} | |order| <= k < |all| ensures Picked(acl, names, all, k) {
        if k > |order| {
          assert |order + [next]| <= k;
        }
      }
    }
  }

  lemma DistinctSnoc(s: seq<string>, x: string)
    requires Distinct(s) && x !in s
    ensures Distinct(s + [x])
  {
  }

  lemma FirstPick(acl: Acl, names: seq<string>, order: seq<string>, all: seq<string>)
    requires !AllDone(names, order) && order + [Next(acl, names, order)] <= all
    ensures order <= all && Picked(acl, names, all, |order|)
  {
    var k := |order|;
    assert all[..k + 1] == order + [Next(acl, names, order)];
    assert all[..k] == all[..k + 1][..k] == order;
  }

  /** The result is a permutation of the account names, whatever the imports. */
  lemma IsPermutation(acl: Acl, names: seq<string>)
    requires Names(acl, names)
    ensures Distinct(Ordered(acl, names, [])) && multiset(Ordered(acl, names, [])) == multiset(names)
  {
    OrderedIs(acl, names, []);
    SameElements(Ordered(acl, names, []), names);
  }

  lemma {:induction false} Once(s: seq<string>, x: string)
    requires Distinct(s)
    ensures multiset(s)[x] == if x in s then 1 else 0
  {
    if s != [] {
      var rest := s[..|s| - 1];
      Once(rest, x);
      assert s == rest + [s[|s| - 1]];
    }
  }

  lemma SameElements(s: seq<string>, t: seq<string>)
    requires Distinct(s) && Distinct(t) && forall n :: n in s <==> n in t
    ensures multiset(s) == multiset(t)
  {
    forall x ensures multiset(s)[x] == multiset(t)[x] {
      Once(s, x);
      Once(t, x);
    }
  }

  // ---------- Exporters first ----------

  /** A walk from importer to exporter. */
  ghost predicate Path(acl: Acl, p: seq<string>) {
    forall i :: 0 <= i < |p| - 1 ==> p[i + 1] in Exporters(acl, p[i])
  }

  /** Following the imports of an account never leads to an unknown account and never comes back. */
  ghost predicate Grounded(acl: Acl, name: string) {
    forall p: seq<string> :: p != [] && p[0] == name && Path(acl, p) ==> Distinct(p) && forall n :: n in p ==> n in acl
  }

  lemma ExportersAreGrounded(acl: Acl, name: string, from: string)
    requires Grounded(acl, name) && from in Exporters(acl, name)
    ensures Grounded(acl, from)
  {
    forall p: seq<string> | p != [] && p[0] == from && Path(acl, p)
      ensures Distinct(p) && forall n :: n in p ==> n in acl {
      var q := [name] + p;
      assert Path(acl, q) by {
        forall i | 0 <= i < |q| - 1 ensures q[i + 1] in Exporters(acl, q[i]) {
          assert i > 0 ==> q[i] == p[i - 1] && q[i + 1] == p[i];
        }
      }
      assert Distinct(q) && forall n :: n in q ==> n in acl;
      forall i, j | 0 <= i < j < |p| ensures p[i] != p[j] {
        assert p[i] == q[i + 1] && p[j] == q[j + 1];
      }
      forall n | n in p ensures n in acl {
        assert n in q;
      }
    }
  }

  /** A sequence of distinct names from a set is no longer than the set. */
  lemma {:induction false} Pigeonhole(p: seq<string>, names: set<string>)
    requires Distinct(p) && forall n :: n in p ==> n in names
    ensures |p| <= |names|
  {
    if p != [] {
      var last, rest := p[|p| - 1], p[..|p| - 1];
      Pigeonhole(rest, names - {last});
      assert |names - {last}| == |names| - 1;
    }
  }

  /** When nothing that is left is ready, a walk of any length stays among what is left. */
  lemma {:induction false} WalkOn(acl: Acl, done: set<string>, name: string, length: nat) returns (p: seq<string>)
    requires name in acl && name !in done
    requires forall n :: n in acl && n !in done ==> !Ready(acl, n, done)
    requires Grounded(acl, name) && length >= 1
    ensures |p| == length && p[0] == name && Path(acl, p) && forall n :: n in p ==> n in acl && n !in done
    decreases length
  {
    p := [name];
    if length > 1 {
      var from :| from in Exporters(acl, name) && from !in done;
      ExportersAreGrounded(acl, name, from);
      assert from in acl by {
        assert Path(acl, [from]) && from in [from];
      }
      var rest := WalkOn(acl, done, from, length - 1);
      p := [name] + rest;
      assert forall i :: 0 < i < |p| ==> p[i] == rest[i - 1];
    }
  }

  /** While a grounded account is left, something that is left is ready. */
  lemma SomethingIsReady(acl: Acl, done: set<string>, name: string)
    requires Grounded(acl, name) && name in acl && name !in done
    ensures exists n :: n in acl && n !in done && Ready(acl, n, done)
  {
    if forall n :: n in acl && n !in done ==> !Ready(acl, n, done) {
      var p := WalkOn(acl, done, name, |acl.Keys| + 1);
      Pigeonhole(p, acl.Keys);
      assert false;
    }
  }

  /** Every account whose transitive imports contain no cycle and no unknown account comes after all its exporters,
      self-imports aside, whatever the other accounts look like. */
  lemma GroundedComeAfterExporters(acl: Acl, names: seq<string>, k: nat)
    requires Names(acl, names) && k < |Ordered(acl, names, [])| && Grounded(acl, Ordered(acl, names, [])[k])
    ensures Exporters(acl, Ordered(acl, names, [])[k]) <= Done(Ordered(acl, names, [])[..k])
  {
    OrderedIs(acl, names, []);
    var all := Ordered(acl, names, []);
    var order := all[..k];
    assert Picked(acl, names, all, k);
    SomethingIsReady(acl, Done(order), all[k]);
    var n :| n in acl && n !in Done(order) && Ready(acl, n, Done(order));
    assert n in names;
    var j :| 0 <= j < |names| && names[j] == n;
    assert names[j] !in order;
  }

  // ---------- The least topological order ----------

  /** A permutation of the names in which every account comes after all its exporters. */
  ghost predicate Topological(acl: Acl, names: seq<string>, t: seq<string>) {
    && Distinct(t) && (forall n :: n in t <==> n in names)
    && forall k :: 0 <= k < |t| ==> Exporters(acl, t[k]) <= Done(t[..k])
  }

  /** The orders agree up to a place where the first has the smaller name. */
  ghost predicate Earlier(s: seq<string>, t: seq<string>) {
    exists k :: 0 <= k < |s| && k < |t| && s[..k] == t[..k] && Before(s[k], t[k])
  }

  lemma FirstDifference(s: seq<string>, t: seq<string>) returns (k: nat)
    requires |s| == |t| && s != t
    ensures k < |s| && s[..k] == t[..k] && s[k] != t[k]
  {
    var d :| 0 <= d < |s| && s[d] != t[d];
    k := 0;
    while s[k] == t[k]
      invariant k <= d && s[..k] == t[..k]
      decreases d - k
    {
      k := k + 1;
    }
  }

  lemma SameLength(s: seq<string>, t: seq<string>)
    requires Distinct(s) && Distinct(t) && forall n :: n in s <==> n in t
    ensures |s| == |t|
  {
    SameElements(s, t);
    assert |multiset(s)| == |multiset(t)|;
  }

  lemma IsTopological(acl: Acl, names: seq<string>)
    requires Names(acl, names) && forall n :: n in acl ==> Grounded(acl, n)
    ensures Topological(acl, names, Ordered(acl, names, []))
  {
    OrderedIs(acl, names, []);
    var all := Ordered(acl, names, []);
    forall k | 0 <= k < |all| ensures Exporters(acl, all[k]) <= Done(all[..k]) {
      assert all[k] in names;
      GroundedComeAfterExporters(acl, names, k);
    }
  }

  /** Of two ready accounts the rule picks the one with the smaller name. */
  lemma PicksTheSmaller(acl: Acl, names: seq<string>, order: seq<string>, other: string)
    requires Names(acl, names) && other in names && other !in order && Ready(acl, other, Done(order))
    ensures Next(acl, names, order) == other || Before(Next(acl, names, order), other)
  {
    var i :| 0 <= i < |names| && names[i] == other;
    var j :| 0 <= j <= i && names[j] == Next(acl, names, order);
    if j < i {
      assert InPlace(Before, names, j, i);
      BeforeIsTotal(names[j], names[i]);
    }
  }

  /** A cycle is broken at its account with the smallest name: with nothing ready the rule picks the least of the
      accounts that have a name. */
  lemma CyclesBreakAtTheSmallest(acl: Acl, names: seq<string>, order: seq<string>, other: string)
    requires Names(acl, names) && other in names && other !in order && other != ""
    requires forall n :: n in names && n !in order ==> !Ready(acl, n, Done(order))
    ensures Next(acl, names, order) == other || Before(Next(acl, names, order), other)
  {
    PickFallsBack(acl, names, Done(order), 0, "");
    var i :| 0 <= i < |names| && names[i] == other;
    var j :| 0 <= j <= i && names[j] == Next(acl, names, order);
    if j < i {
      assert InPlace(Before, names, j, i);
      BeforeIsTotal(names[j], names[i]);
    }
  }

  /** Without cycles and unknown accounts the result is a topological order, and of all of them the one that is
      least by name. */
  lemma LeastTopologicalOrder(acl: Acl, names: seq<string>, t: seq<string>)
    requires Names(acl, names) && (forall n :: n in acl ==> Grounded(acl, n)) && Topological(acl, names, t)
    ensures Topological(acl, names, Ordered(acl, names, []))
    ensures t == Ordered(acl, names, []) || Earlier(Ordered(acl, names, []), t)
  {
    IsTopological(acl, names);
    var all := Ordered(acl, names, []);
    if t != all {
      SameLength(all, t);
      var k := FirstDifference(all, t);
      OrderedIs(acl, names, []);
      assert Picked(acl, names, all, k);
      assert t[k] in names && t[k] !in t[..k];
      PicksTheSmaller(acl, names, all[..k], t[k]);
    }
  }

  // ---------- The computation ----------

  method SortedAccountNames(acl: Acl) returns (names: seq<string>)
    ensures Names(acl, names)
  {
    var left := acl.Keys;
    var listed: seq<string> := [];
    while left != {}
      invariant left <= acl.Keys && Distinct(listed)
      invariant forall n :: n in listed <==> n in acl.Keys - left
      decreases |left|
    {
      var name :| name in left;
      assert forall n :: n in listed + [name] <==> n in listed || n == name;
      listed, left := listed + [name], left - {name};
    }
    names := Sort(Before, listed);
    NamesAreOrdered();
    SortSorts(Before, listed);
    DistinctByCount(listed, names);
  }

  lemma DistinctByCount(s: seq<string>, t: seq<string>)
    requires Distinct(s) && multiset(s) == multiset(t)
    ensures Distinct(t) && forall n :: n in s <==> n in t
  {
    forall n ensures n in s <==> n in t {
      assert n in multiset(s) <==> n in multiset(t);
    }
    forall i, j | 0 <= i < j < |t| ensures t[i] != t[j] {
      if t[i] == t[j] {
        Once(s, t[i]);
        Twice(t, i, j);
        assert false;
      }
    }
  }

  function Degree(inDegree: map<string, int>, name: string): int {
    if name in inDegree then inDegree[name] else 0
  }

  function Targets(edges: map<string, seq<string>>, from: string): seq<string> {
    if from in edges then edges[from] else []
  }

  /** The distinct other accounts among the first `j` imports. */
  function Seen(imports: seq<string>, name: string, j: nat): set<string>
    requires j <= |imports|
  {
    set f | f in imports[..j] && f != name
  }

  /** The exporters of `t` found when the first `i` names and `j` imports of the next have been read. */
  function Found(acl: Acl, names: seq<string>, i: nat, j: nat, t: string): set<string>
    requires i <= |names| && (i < |names| ==> names[i] in acl && j <= |acl[names[i]]|)
  {
    if t in names[..i] then Exporters(acl, t)
    else if i < |names| && t == names[i] then Seen(acl[t], t, j)
    else {}
  }

  /** The edges lead from every exporter found to its importers, each once, and the degrees count them. */
  ghost predicate Linked(found: string -> set<string>, edges: map<string, seq<string>>, inDegree: map<string, int>) {
    && (forall from: string {:trigger Targets(edges, from)} :: Distinct(Targets(edges, from)))
    && (forall from: string, t: string {:trigger t in Targets(edges, from)} :: t in Targets(edges, from) <==>
      from in found(t))
    && (forall t: string {:trigger Degree(inDegree, t)} :: Degree(inDegree, t) == |found(t)|)
  }

  lemma FoundGrows(acl: Acl, names: seq<string>, i: nat, j: nat, t: string)
    requires Distinct(names) && i < |names| && names[i] in acl && j < |acl[names[i]]|
    ensures var from := acl[names[i]][j];
      Found(acl, names, i, j + 1, t) == Found(acl, names, i, j, t) + if t == names[i] && from != t then {from} else {}
  {
    if t == names[i] {
      var imports := acl[t];
      assert imports[..j + 1] == imports[..j] + [imports[j]];
      assert t !in names[..i];
    }
  }

  lemma NextName(acl: Acl, names: seq<string>, i: nat, t: string)
    requires Distinct(names) && i < |names| && names[i] in acl && (i + 1 < |names| ==> names[i + 1] in acl)
    ensures Found(acl, names, i, |acl[names[i]]|, t) == Found(acl, names, i + 1, 0, t)
  {
    assert names[..i + 1] == names[..i] + [names[i]];
    assert acl[names[i]][..|acl[names[i]]|] == acl[names[i]];
    if i + 1 < |names| && t == names[i + 1] {
      assert t !in names[..i + 1];
    }
  }

  function With(found: string -> set<string>, from: string, name: string): string -> set<string> {
    (t: string) => if t == name then found(t) + {from} else found(t)
  }

  /** One more exporter of `name` is one more edge and one more degree. */
  lemma LinkMore(found: string -> set<string>, edges: map<string, seq<string>>, inDegree: map<string, int>,
                 from: string, name: string)
    requires Linked(found, edges, inDegree) && from !in found(name)
    ensures Linked(With(found, from, name), edges[from := Targets(edges, from) + [name]],
                   inDegree[name := Degree(inDegree, name) + 1])
  {
    var more, deg := edges[from := Targets(edges, from) + [name]], inDegree[name := Degree(inDegree, name) + 1];
    forall f: string ensures Distinct(Targets(more, f)) {
      OneTargetMore(found, edges, inDegree, from, name, f);
    }
    forall f: string, t: string ensures t in Targets(more, f) <==> f in With(found, from, name)(t) {
      assert t in Targets(edges, f) <==> f in found(t);
    }
    forall t: string ensures Degree(deg, t) == |With(found, from, name)(t)| {
      OneDegreeMore(found, edges, inDegree, from, name, t);
    }
  }

  lemma OneTargetMore(found: string -> set<string>, edges: map<string, seq<string>>, inDegree: map<string, int>,
                      from: string, name: string, f: string)
    requires Linked(found, edges, inDegree) && from !in found(name)
    ensures Distinct(Targets(edges[from := Targets(edges, from) + [name]], f))
  {
    assert Distinct(Targets(edges, f));
    if f == from {
      assert name !in Targets(edges, from);
      DistinctSnoc(Targets(edges, from), name);
    }
  }

  lemma OneDegreeMore(found: string -> set<string>, edges: map<string, seq<string>>, inDegree: map<string, int>,
                      from: string, name: string, t: string)
    requires Linked(found, edges, inDegree) && from !in found(name)
    ensures Degree(inDegree[name := Degree(inDegree, name) + 1], t) == |With(found, from, name)(t)|
  {
    assert Degree(inDegree, t) == |found(t)|;
  }

  /** The pairs seen, the edges and the degrees all say the same. */
  ghost predicate Agree(found: string -> set<string>, edges: map<string, seq<string>>, inDegree: map<string, int>,
                        seenPair: set<(string, string)>) {
    && Linked(found, edges, inDegree)
    && forall f: string, t: string {:trigger (f, t) in seenPair} :: (f, t) in seenPair <==> f in found(t)
  }

  method LinkImport(from: string, name: string, edges: map<string, seq<string>>, inDegree: map<string, int>,
                    seenPair: set<(string, string)>, ghost found: string -> set<string>)
    returns (edges': map<string, seq<string>>, inDegree': map<string, int>, seenPair': set<(string, string)>)
    requires Agree(found, edges, inDegree, seenPair)
    ensures Agree(if from == name then found else With(found, from, name), edges', inDegree', seenPair')
  {
    edges', inDegree', seenPair' := edges, inDegree, seenPair;
    if from == name {
      return;
    }
    if (from, name) in seenPair {
      SameFound(found, With(found, from, name), edges, inDegree);
      return;
    }
    LinkMore(found, edges, inDegree, from, name);
    seenPair' := seenPair + {(from, name)};
    edges' := edges[from := Targets(edges, from) + [name]];
    inDegree' := inDegree[name := Degree(inDegree, name) + 1];
  }

  lemma SameFound(found: string -> set<string>, found': string -> set<string>, edges: map<string, seq<string>>,
                  inDegree: map<string, int>)
    requires Linked(found, edges, inDegree) && forall t :: found(t) == found'(t)
    ensures Linked(found', edges, inDegree)
  {
  }

  /** Who exports to the named accounts. */
  function ExportersOf(acl: Acl, names: seq<string>): string -> set<string> {
    (t: string) => if t in names then Exporters(acl, t) else {}
  }

  method ImportEdges(acl: Acl, names: seq<string>) returns (edges: map<string, seq<string>>, inDegree: map<string, int>)
    requires Names(acl, names)
    ensures Linked(ExportersOf(acl, names), edges, inDegree)
  {
    edges, inDegree := map[], map[];
    ghost var found: string -> set<string> := (t: string) => {};
    assert forall n :: n in names ==> n in acl;
    var seenPair: set<(string, string)> := {};
    for i := 0 to |names|
      invariant Agree(found, edges, inDegree, seenPair)
      invariant forall t {:trigger found(t)} :: found(t) == Found(acl, names, i, 0, t)
    {
      var name := names[i];
      for j := 0 to |acl[name]|
        invariant Agree(found, edges, inDegree, seenPair)
        invariant forall t {:trigger found(t)} :: found(t) == Found(acl, names, i, j, t)
      {
        var from := acl[name][j];
        edges, inDegree, seenPair := LinkImport(from, name, edges, inDegree, seenPair, found);
        found := if from == name then found else With(found, from, name);
        forall t: string ensures found(t) == Found(acl, names, i, j + 1, t) {
          FoundGrows(acl, names, i, j, t);
        }
      }
      forall t: string ensures found(t) == Found(acl, names, i + 1, 0, t) {
        NextName(acl, names, i, t);
      }
    }
    assert names[..|names|] == names;
    SameFound(found, ExportersOf(acl, names), edges, inDegree);
  }

  method PickNext(acl: Acl, names: seq<string>, remaining: set<string>, inDegree: map<string, int>,
                  ghost done: set<string>)
    returns (next: string)
    requires forall n :: n in names ==> (n in remaining <==> n !in done)
    requires forall n {:trigger Degree(inDegree, n)} :: n in remaining ==>
      (Degree(inDegree, n) <= 0 <==> Ready(acl, n, done))
    ensures next == Pick(acl, names, done, 0, "")
  {
    var fallback := "";
    for i := 0 to |names|
      invariant Pick(acl, names, done, 0, "") == Pick(acl, names, done, i, fallback)
    {
      var name := names[i];
      assert name in names;
      if name !in remaining {
        continue;
      }
      if Degree(inDegree, name) <= 0 {
        return name;
      }
      if fallback == "" {
        fallback := name;
      }
    }
    next := fallback;
  }

  /** The exporters of an account that are still to come, counted. */
  ghost predicate Waits(acl: Acl, order: seq<string>, inDegree: map<string, int>, n: string) {
    Degree(inDegree, n) == |Exporters(acl, n) - Done(order)|
  }

  lemma WaitingMeansNotReady(acl: Acl, order: seq<string>, inDegree: map<string, int>, n: string)
    requires Waits(acl, order, inDegree, n)
    ensures Degree(inDegree, n) <= 0 <==> Ready(acl, n, Done(order))
  {
    var left := Exporters(acl, n) - Done(order);
    if left == {} {
      forall f | f in Exporters(acl, n) ensures f in Done(order) {
        assert f !in left;
      }
    } else {
      var f :| f in left;
      assert f in Exporters(acl, n) && f !in Done(order);
    }
  }

  lemma OneLessToWaitFor(acl: Acl, order: seq<string>, next: string, n: string)
    requires next !in order
    ensures |Exporters(acl, n) - Done(order + [next])|
         == |Exporters(acl, n) - Done(order)| - if next in Exporters(acl, n) then 1 else 0
  {
    var before, after := Exporters(acl, n) - Done(order), Exporters(acl, n) - Done(order + [next]);
    if next in Exporters(acl, n) {
      assert after == before - {next};
    } else {
      assert after == before;
    }
  }

  lemma StillWaits(acl: Acl, order: seq<string>, next: string, inDegree: map<string, int>, lowered: map<string, int>,
                   n: string)
    requires next !in order && Waits(acl, order, inDegree, n)
    requires Degree(lowered, n) == Degree(inDegree, n) - if next in Exporters(acl, n) then 1 else 0
    ensures Waits(acl, order + [next], lowered, n)
  {
    OneLessToWaitFor(acl, order, next, n);
  }

  /** Takes one off the degree of every target that remains. */
  method Lower(targets: seq<string>, remaining: set<string>, inDegree: map<string, int>) returns (lowered: map<string,
               int>)
    requires Distinct(targets)
    ensures forall n {:trigger Degree(lowered, n)} ::
      Degree(lowered, n) == Degree(inDegree, n) - if n in targets && n in remaining then 1 else 0
  {
    lowered := inDegree;
    for i := 0 to |targets|
      invariant forall n {:trigger Degree(lowered, n)} ::
        Degree(lowered, n) == Degree(inDegree, n) - if n in targets[..i] && n in remaining then 1 else 0
    {
      assert targets[..i + 1] == targets[..i] + [targets[i]] && targets[i] !in targets[..i];
      if targets[i] in remaining {
        lowered := lowered[targets[i] := Degree(lowered, targets[i]) - 1];
      }
    }
    assert targets[..|targets|] == targets;
  }

  /** Everything that remains still waits for what is counted, once `next` has been chosen and the degrees of its
      targets lowered. */
  lemma AllStillWait(acl: Acl, order: seq<string>, next: string, remaining: set<string>, targets: seq<string>,
                     inDegree: map<string, int>, lowered: map<string, int>)
    requires next !in order
    requires forall n {:trigger Waits(acl, order, inDegree, n)} :: n in remaining ==> Waits(acl, order, inDegree, n)
    requires forall n {:trigger n in targets} :: n in remaining ==> (n in targets <==> next in Exporters(acl, n))
    requires forall n {:trigger Degree(lowered, n)} ::
      Degree(lowered, n) == Degree(inDegree, n) - if n in targets && n in remaining then 1 else 0
    ensures forall n {:trigger Waits(acl, order + [next], lowered, n)} :: n in remaining ==>
      Waits(acl, order + [next], lowered, n)
  {
    forall n {:trigger Waits(acl, order + [next], lowered, n)} | n in remaining
      ensures Waits(acl, order + [next], lowered, n) {
      assert Waits(acl, order, inDegree, n);
      StillWaits(acl, order, next, inDegree, lowered, n);
    }
  }

  /** What the loop knows: which accounts remain, and what each of them waits for. */
  ghost predicate Progress(acl: Acl, names: seq<string>, order: seq<string>, remaining: set<string>,
                           inDegree: map<string, int>) {
    && (forall n :: n in names <==> n in remaining || n in order)
    && (forall n :: n in remaining ==> n !in order)
    && (forall n {:trigger Waits(acl, order, inDegree, n)} :: n in remaining ==> Waits(acl, order, inDegree, n))
  }

  method Choose(acl: Acl, names: seq<string>, remaining: set<string>, inDegree: map<string, int>,
                ghost order: seq<string>)
    returns (next: string)
    requires Progress(acl, names, order, remaining, inDegree) && remaining != {}
    ensures !AllDone(names, order) && next == Next(acl, names, order) && next in remaining
  {
    forall n {:trigger Degree(inDegree, n)} | n in remaining
      ensures Degree(inDegree, n) <= 0 <==> Ready(acl, n, Done(order)) {
      assert Waits(acl, order, inDegree, n);
      WaitingMeansNotReady(acl, order, inDegree, n);
    }
    next := PickNext(acl, names, remaining, inDegree, Done(order));
    var some :| some in remaining;
    assert some in names && some !in order;
  }

  /** There is one such sequence of names, so there is one such order. */
  lemma NamesAreUnique(acl: Acl, s: seq<string>, t: seq<string>)
    requires Names(acl, s) && Names(acl, t)
    ensures s == t
  {
    SameElements(s, t);
    NamesAreOrdered();
    SortedIsUnique(Before, s, t);
  }

  /** Exporters first: the order the specification gives, computed with degrees. */
  method OrderAccounts(acl: Acl) returns (order: seq<string>)
    ensures Distinct(order) && forall n :: n in order <==> n in acl
    ensures exists names :: Names(acl, names) && order == Ordered(acl, names, [])
  {
    var sorted := SortedAccountNames(acl);
    var edges, inDegree := ImportEdges(acl, sorted);
    ghost var found := ExportersOf(acl, sorted);
    var remaining := set n | n in sorted;
    order := [];
    forall n {:trigger Waits(acl, order, inDegree, n)} | n in remaining ensures Waits(acl, order, inDegree, n) {
      assert Exporters(acl, n) - Done(order) == Exporters(acl, n);
      assert Degree(inDegree, n) == |found(n)|;
    }
    while remaining != {}
      invariant Progress(acl, sorted, order, remaining, inDegree)
      invariant Ordered(acl, sorted, order) == Ordered(acl, sorted, [])
      decreases |remaining|
    {
      var next := Choose(acl, sorted, remaining, inDegree, order);
      var before := inDegree;
      remaining := remaining - {next};
      inDegree := Lower(Targets(edges, next), remaining, before);
      forall n {:trigger n in Targets(edges, next)} | n in remaining
        ensures n in Targets(edges, next) <==> next in Exporters(acl, n) {
        assert n in Targets(edges, next) <==> next in found(n);
        assert n in sorted;
      }
      AllStillWait(acl, order, next, remaining, Targets(edges, next), before, inDegree);
      order := order + [next];
    }
    assert AllDone(sorted, order);
    OrderedIs(acl, sorted, []);
  }
}
