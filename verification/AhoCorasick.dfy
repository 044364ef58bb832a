/** The multi-pattern matcher: a trie, its fail links built breadth first, and the scan through it. */
module AhoCorasick {
  import opened Words

  const NO_PATTERN := -1

  datatype Node = Node(next: map<byte, nat>, fail: nat, matchedPattern: int)

  // ---------- Specification ----------

  ghost predicate IsPath(patterns: seq<Word>, w: Word) {
    w == [] || exists i :: 0 <= i < |patterns| && w <= patterns[i]
  }

  /** `m` is the first index of the pattern `w`, or -1 when `w` is no pattern. */
  ghost predicate NamesPattern(patterns: seq<Word>, w: Word, m: int) {
    if m < 0 then m == NO_PATTERN && w !in patterns
    else m < |patterns| && patterns[m] == w && w !in patterns[..m]
  }

  /** `m` names the longest pattern that ends `w` (first index among equals), or is -1 when none does. */
  ghost predicate NamesLongest(patterns: seq<Word>, w: Word, m: int) {
    if m < 0 then m == NO_PATTERN && forall p :: p in patterns ==> !Suffix(p, w)
    else
      && m < |patterns| && Suffix(patterns[m], w) && patterns[m] !in patterns[..m]
      && forall p :: p in patterns && Suffix(p, w) ==> |p| <= |patterns[m]|
  }

  ghost predicate QuietUpTo(patterns: seq<Word>, text: Word, e: int) {
    forall p, k :: p in patterns && 0 <= k < e ==> !EndsAt(p, text, k)
  }

  /** `r` is the longest pattern that ends at `e`, and no pattern ends earlier. */
  ghost predicate FirstHit(patterns: seq<Word>, text: Word, e: nat, r: int) {
    && e <= |text|
    && 0 <= r && NamesLongest(patterns, text[..e], r)
    && QuietUpTo(patterns, text, e)
  }

  ghost predicate EdgesOf(node: Node, path: Word, index: map<Word, nat>) {
    forall b :: && (b in node.next <==> path + [b] in index)
                && (b in node.next ==> node.next[b] == index[path + [b]])
  }

  /** `index` and `paths` number the same words. */
  ghost predicate Numbering(paths: seq<Word>, index: map<Word, nat>) {
    && |paths| > 0 && paths[0] == []
    && (forall v :: 0 <= v < |paths| ==> paths[v] in index && index[paths[v]] == v)
    && (forall w :: w in index ==> index[w] < |paths| && paths[index[w]] == w)
    && PrefixClosed(index.Keys)
  }

  /** One node per path, and the edges spell the paths. */
  ghost predicate Trie(nodes: seq<Node>, paths: seq<Word>, index: map<Word, nat>) {
    && |paths| == |nodes|
    && Numbering(paths, index)
    && (forall u {:trigger EdgesOf(nodes[u], paths[u], index)} :: 0 <= u < |nodes| ==>
      EdgesOf(nodes[u], paths[u], index))
  }

  ghost predicate Holds(index: map<Word, nat>, patterns: seq<Word>) {
    forall p :: p in patterns ==> p in index
  }

  ghost predicate Spells(index: map<Word, nat>, patterns: seq<Word>) {
    forall w {:trigger IsPath(patterns, w)} :: w in index <==> IsPath(patterns, w)
  }

  /** The fail link of `v` leads to the longest path that is a proper suffix of `v`'s own. */
  ghost predicate FailOk(nodes: seq<Node>, paths: seq<Word>, index: map<Word, nat>, v: nat)
    requires |paths| == |nodes| && v < |nodes| && paths[v] != []
  {
    && nodes[v].fail < |nodes|
    && Longest(index.Keys, paths[v][1..], paths[nodes[v].fail])
  }

  /** Node `v` has its final links. The root never gets a fail link. */
  ghost predicate NodeOk(nodes: seq<Node>, paths: seq<Word>, index: map<Word, nat>, patterns: seq<Word>, v: nat)
    requires |paths| == |nodes| && v < |nodes|
  {
    && (paths[v] != [] ==> FailOk(nodes, paths, index, v))
    && NamesLongest(patterns, paths[v], nodes[v].matchedPattern)
  }

  ghost predicate Automaton(nodes: seq<Node>, paths: seq<Word>, index: map<Word, nat>, patterns: seq<Word>) {
    && Trie(nodes, paths, index)
    && Spells(index, patterns)
    && forall v {:trigger NodeOk(nodes, paths, index, patterns, v)} ::
      0 <= v < |nodes| ==> NodeOk(nodes, paths, index, patterns, v)
  }

  /** The trie of the patterns `ps`, before any fail link is set. */
  ghost predicate Inserted(nodes: seq<Node>, paths: seq<Word>, ps: seq<Word>)
    requires |paths| == |nodes|
  {
    forall v :: 0 <= v < |nodes| ==> nodes[v].fail == 0 && NamesPattern(ps, paths[v], nodes[v].matchedPattern)
  }

  const SPACE: byte := 32

  /** Letters to lower case, the leet digits and signs to letters, other ASCII to a space, the rest to 255. */
  function FoldTable(b: byte): byte {
    if b == '0' as byte then 'o' as byte
    else if b == '1' as byte then 'i' as byte
    else if b == '3' as byte then 'e' as byte
    else if b == '4' as byte || b == '@' as byte then 'a' as byte
    else if b == '5' as byte || b == '$' as byte then 's' as byte
    else if b == '7' as byte then 't' as byte
    else if b == '8' as byte then 'b' as byte
    else if 'a' as byte <= b <= 'z' as byte then b
    else if 'A' as byte <= b <= 'Z' as byte then b + 32
    else if b < 0x80 then SPACE
    else 0xff
  }

  function Fold(text: Word): (f: Word)
    ensures |f| == |text|
  {
    seq(|text|, i requires 0 <= i < |text| => FoldTable(text[i]))
  }

  function Padded(text: Word): (p: Word)
    ensures |p| == |text| + 2
  {
    [SPACE] + Fold(text) + [SPACE]
  }

  // ---------- Lemmas: the trie ----------

  lemma StartOfPattern(ps: seq<Word>, index: map<Word, nat>)
    requires Spells(index, ps)
    ensures Spells(index, ps + [[]])
  {
    var qs := ps + [[]];
    forall w ensures IsPath(ps, w) <==> IsPath(qs, w) {
      if i :| 0 <= i < |ps| && w <= ps[i] {
        assert w <= qs[i];
      }
      if i :| 0 <= i < |qs| && w <= qs[i] {
        assert i < |ps| ==> w <= ps[i];
      }
    }
  }

  lemma PathGrows(ps: seq<Word>, p: Word, k: nat, w: Word)
    requires k < |p|
    ensures IsPath(ps + [p[..k + 1]], w) <==> IsPath(ps + [p[..k]], w) || w == p[..k + 1]
  {
    var before, after := ps + [p[..k]], ps + [p[..k + 1]];
    assert before[|ps|] == p[..k] && after[|ps|] == p[..k + 1];
    assert forall i :: 0 <= i < |ps| ==> before[i] == ps[i] == after[i];
    if w <= p[..k + 1] && w != p[..k + 1] {
      assert w == p[..k + 1][..|w|] == p[..k][..|w|];
    }
    if w <= p[..k] {
      assert w == p[..k][..|w|] == p[..k + 1][..|w|];
    }
  }

  lemma SpellsMore(index: map<Word, nat>, ps: seq<Word>, p: Word, k: nat, v: nat)
    requires k < |p| && Spells(index, ps + [p[..k]])
    ensures p[..k + 1] in index ==> Spells(index, ps + [p[..k + 1]])
    ensures Spells(index[p[..k + 1] := v], ps + [p[..k + 1]])
    ensures p[..k + 1] !in index ==> p[..k + 1] !in ps
  {
    forall w ensures IsPath(ps + [p[..k + 1]], w) <==> w in index || w == p[..k + 1] {
      PathGrows(ps, p, k, w);
    }
    if i :| 0 <= i < |ps| && ps[i] == p[..k + 1] {
      assert (ps + [p[..k]])[i] == ps[i];
      assert IsPath(ps + [p[..k]], p[..k + 1]);
    }
  }

  lemma SameEdges(nodes: seq<Node>, nodes': seq<Node>, paths: seq<Word>, index: map<Word, nat>)
    requires Trie(nodes, paths, index) && |nodes'| == |nodes|
    requires forall v :: 0 <= v < |nodes| ==> nodes'[v].next == nodes[v].next
    ensures Trie(nodes', paths, index)
  {
    forall v | 0 <= v < |nodes| ensures EdgesOf(nodes'[v], paths[v], index) {
      assert EdgesOf(nodes[v], paths[v], index);
    }
  }

  lemma FinishPattern(nodes: seq<Node>, paths: seq<Word>, index: map<Word, nat>, ps: seq<Word>, p: Word, cur: nat)
    requires Trie(nodes, paths, index) && Inserted(nodes, paths, ps) && cur < |nodes| && paths[cur] == p
    ensures var nodes' :=
        if nodes[cur].matchedPattern < 0 then nodes[cur := nodes[cur].(matchedPattern := |ps|)] else nodes;
      Trie(nodes', paths, index) && Inserted(nodes', paths, ps + [p])
  {
    var nodes' := if nodes[cur].matchedPattern < 0 then nodes[cur := nodes[cur].(matchedPattern := |ps|)] else nodes;
    SameEdges(nodes, nodes', paths, index);
    var qs := ps + [p];
    forall v | 0 <= v < |nodes| ensures NamesPattern(qs, paths[v], nodes'[v].matchedPattern) {
      var m := nodes'[v].matchedPattern;
      assert paths[v] == p ==> v == cur;
      assert forall w :: w in qs <==> w in ps || w == p;
      if 0 <= m {
        assert qs[..m] == ps[..m];
      }
    }
  }

  lemma AddNode(nodes: seq<Node>, paths: seq<Word>, index: map<Word, nat>, u: nat, b: byte)
    requires Trie(nodes, paths, index) && u < |nodes| && b !in nodes[u].next
    ensures Trie(nodes[u := nodes[u].(next := nodes[u].next[b := |nodes|])] + [Node(map[], 0, NO_PATTERN)],
                 paths + [paths[u] + [b]], index[paths[u] + [b] := |nodes|])
  {
    var w := paths[u] + [b];
    var nodes' := nodes[u := nodes[u].(next := nodes[u].next[b := |nodes|])] + [Node(map[], 0, NO_PATTERN)];
    var paths' := paths + [w];
    var index' := index[w := |nodes|];
    assert EdgesOf(nodes[u], paths[u], index);
    assert w !in index && Init(w) == paths[u];
    forall v | 0 <= v < |nodes'| ensures EdgesOf(nodes'[v], paths'[v], index') {
      forall c: byte
        ensures c in nodes'[v].next <==> paths'[v] + [c] in index'
        ensures c in nodes'[v].next ==> nodes'[v].next[c] == index'[paths'[v] + [c]]
      {
        var x := paths'[v] + [c];
        assert Init(x) == paths'[v] && x[|x| - 1] == c && w[|w| - 1] == b;
        if v < |nodes| {
          assert EdgesOf(nodes[v], paths[v], index);
          assert c in nodes[v].next <==> x in index;
          assert x == w ==> Init(x) == Init(w);
        }
      }
    }
  }

  // ---------- Lemmas: following fail links ----------

  /** No path `t` with `t + [b]` also a path, ending `w`, is longer than `s`. */
  ghost predicate Candidate(T: set<Word>, w: Word, b: byte, s: Word) {
    && s in T
    && Suffix(s, w)
    && forall t {:trigger Suffix(t, w)} :: t in T && t + [b] in T && Suffix(t, w) ==> |t| <= |s|
  }

  lemma FailKeepsCandidate(T: set<Word>, w: Word, b: byte, s: Word, f: Word)
    requires Candidate(T, w, b, s) && s != [] && s + [b] !in T && Longest(T, s[1..], f)
    ensures Candidate(T, w, b, f) && |f| < |s|
  {
    assert Suffix(s[1..], s);
    SuffixTransitive(s[1..], s, w);
    SuffixTransitive(f, s[1..], w);
    forall t | t in T && t + [b] in T && Suffix(t, w) ensures |t| <= |f| {
      SuffixesNest(t, s, w);
      SuffixesNest(t, s[1..], w);
    }
  }

  lemma CandidateExtends(T: set<Word>, w: Word, b: byte, s: Word)
    requires PrefixClosed(T) && Candidate(T, w, b, s) && s + [b] in T
    ensures Longest(T, w + [b], s + [b])
  {
    SuffixSnoc(s, w, b);
    forall t | t in T && Suffix(t, w + [b]) ensures |t| <= |s + [b]| {
      if t != [] {
        SuffixOfSnoc(t, w, b);
      }
    }
  }

  lemma NoCandidate(T: set<Word>, w: Word, b: byte)
    requires PrefixClosed(T) && Candidate(T, w, b, []) && [b] !in T
    ensures Longest(T, w + [b], [])
  {
    forall t | t in T && Suffix(t, w + [b]) ensures |t| <= 0 {
      if t != [] {
        SuffixOfSnoc(t, w, b);
      }
    }
  }

  /** Where the search for the fail link of `v`, the child of `u` along `b`, ends up. */
  lemma TargetOk(nodes: seq<Node>, paths: seq<Word>, index: map<Word, nat>, u: nat, b: byte, v: nat, f: nat)
    requires Trie(nodes, paths, index) && 0 < u < |nodes| && v < |nodes| && f < |nodes|
    requires paths[u] != [] && paths[v] == paths[u] + [b]
    requires Candidate(index.Keys, paths[u][1..], b, paths[f])
    requires f == 0 || b in nodes[f].next
    ensures var target := if b in nodes[f].next then nodes[f].next[b] else 0;
      && target < |nodes| && |paths[target]| < |paths[v]|
      && Longest(index.Keys, paths[v][1..], paths[target])
  {
    assert EdgesOf(nodes[f], paths[f], index);
    assert paths[v][1..] == paths[u][1..] + [b];
    if b in nodes[f].next {
      CandidateExtends(index.Keys, paths[u][1..], b, paths[f]);
    } else {
      assert [] + [b] == [b];
      NoCandidate(index.Keys, paths[u][1..], b);
    }
  }

  lemma PatternsArePaths(index: map<Word, nat>, patterns: seq<Word>)
    requires Spells(index, patterns)
    ensures Holds(index, patterns)
  {
    forall p | p in patterns ensures IsPath(patterns, p) {
      var i :| 0 <= i < |patterns| && patterns[i] == p;
      assert p <= patterns[i];
    }
  }

  /** What a node inherits along its fail link: every pattern that ends it properly ends the fail path. */
  lemma InheritMatch(patterns: seq<Word>, T: set<Word>, w: Word, f: Word, own: int, inherited: int)
    requires w != [] && Longest(T, w[1..], f)
    requires forall p :: p in patterns ==> p in T
    requires NamesPattern(patterns, w, own) && NamesLongest(patterns, f, inherited)
    ensures NamesLongest(patterns, w, if own < 0 then inherited else own)
  {
    assert Suffix(w[1..], w) && Suffix(w, w);
    if own < 0 {
      SuffixTransitive(f, w[1..], w);
      forall p | p in patterns && Suffix(p, w) ensures Suffix(p, f) {
        SuffixesNest(p, w, w);
        SuffixesNest(p, w[1..], w);
        SuffixesNest(p, f, w[1..]);
      }
      if inherited >= 0 {
        SuffixTransitive(patterns[inherited], f, w);
      }
    }
  }

  lemma Relinked(nodes: seq<Node>, paths: seq<Word>, index: map<Word, nat>, patterns: seq<Word>, v: nat, target: nat)
    requires |paths| == |nodes| && v < |nodes| && target < |nodes| && target != v && paths[v] != []
    requires Longest(index.Keys, paths[v][1..], paths[target]) && Holds(index, patterns)
    requires NamesPattern(patterns, paths[v], nodes[v].matchedPattern)
    requires NamesLongest(patterns, paths[target], nodes[target].matchedPattern)
    ensures NodeOk(nodes[v := Node(nodes[v].next, target,
              if nodes[v].matchedPattern < 0 then nodes[target].matchedPattern else nodes[v].matchedPattern)],
              paths, index, patterns, v)
  {
    InheritMatch(patterns, index.Keys, paths[v], paths[target], nodes[v].matchedPattern, nodes[target].matchedPattern);
  }

  // ---------- Lemmas: scanning ----------

  /** Every pattern that ends the text also ends the state, so the state names the text's match. */
  lemma StateMatchesText(patterns: seq<Word>, index: map<Word, nat>, w: Word, s: Word, m: int)
    requires Longest(index.Keys, w, s) && Holds(index, patterns) && NamesLongest(patterns, s, m)
    ensures NamesLongest(patterns, w, m)
  {
    forall p | p in patterns && Suffix(p, w) ensures Suffix(p, s) {
      SuffixesNest(p, s, w);
    }
    if m >= 0 {
      SuffixTransitive(patterns[m], s, w);
    }
  }

  lemma StepCandidate(T: set<Word>, w: Word, b: byte, s: Word)
    requires Longest(T, w, s)
    ensures Candidate(T, w, b, s)
  {}

  lemma QuietGrows(patterns: seq<Word>, text: Word, i: nat)
    requires QuietUpTo(patterns, text, i) && i <= |text| && NamesLongest(patterns, text[..i], NO_PATTERN)
    ensures QuietUpTo(patterns, text, i + 1)
  {}

  ghost predicate Absent(patterns: seq<Word>, text: Word) {
    forall p :: p in patterns ==> !Occurs(p, text)
  }

  lemma QuietMeansAbsent(patterns: seq<Word>, text: Word)
    requires QuietUpTo(patterns, text, |text| + 1)
    ensures Absent(patterns, text)
  {
    forall p | p in patterns ensures !Occurs(p, text) {
      OccursEndsSomewhere(p, text);
    }
  }

  ghost predicate QuietButSpace(patterns: seq<Word>, text: Word, e: int) {
    forall p, k :: p in patterns && p != [SPACE] && 0 <= k < e ==> !EndsAt(p, text, k)
  }

  /** The byte at `k` of the padded text, and the first `k` bytes of it. */
  function PadByte(text: Word, k: nat): byte {
    if 0 < k <= |text| then FoldTable(text[k - 1]) else SPACE
  }

  ghost function PaddedUpTo(text: Word, k: nat): (w: Word)
    ensures |w| == k
  {
    if k == 0 then [] else PaddedUpTo(text, k - 1) + [PadByte(text, k - 1)]
  }

  lemma {:induction false} PaddedPrefix(text: Word, k: nat)
    requires k <= |text| + 2
    ensures PaddedUpTo(text, k) == Padded(text)[..k]
  {
    if k > 0 {
      PaddedPrefix(text, k - 1);
      assert Padded(text)[k - 1] == PadByte(text, k - 1);
    }
  }

  lemma QuietStart(patterns: seq<Word>, text: Word)
    requires [] !in patterns && text != [] && text[0] == SPACE
    ensures QuietButSpace(patterns, text, 2)
  {
    forall p, k | p in patterns && 0 <= k < 2 && EndsAt(p, text, k) ensures p == [SPACE] {
      assert p != [] && |p| <= |text[..k]| == k;
      assert p[0] == text[0];
    }
  }

  lemma QuietButSpaceGrows(patterns: seq<Word>, text: Word, k: nat)
    requires k <= |text| + 2 && QuietButSpace(patterns, Padded(text), k)
    requires NamesLongest(patterns, PaddedUpTo(text, k), NO_PATTERN)
    ensures QuietButSpace(patterns, Padded(text), k + 1)
  {
    PaddedPrefix(text, k);
  }

  /** A lone space would also end the text, so nothing is missed by not looking at the first one. */
  lemma QuietButSpaceMeansAbsent(patterns: seq<Word>, text: Word)
    requires QuietButSpace(patterns, text, |text|) && text != [] && Last(text) == SPACE
    requires NamesLongest(patterns, text, NO_PATTERN)
    ensures Absent(patterns, text)
  {
    assert text[..|text|] == text && text[|text| - 1..] == [SPACE];
    assert Suffix([SPACE], text);
    forall p | p in patterns ensures !Occurs(p, text) {
      OccursEndsSomewhere(p, text);
      assert p != [SPACE];
    }
  }

  lemma MatchMeansPresent(patterns: seq<Word>, text: Word, k: nat, m: int)
    requires k <= |text| && NamesLongest(patterns, text[..k], m) && m >= 0
    ensures !Absent(patterns, text)
  {
    assert EndsAt(patterns[m], text, k);
    OccursEndsSomewhere(patterns[m], text);
  }

  /** The hit depends on the patterns and the text alone, not on the order the maps were walked in. */
  lemma HitIsUnique(patterns: seq<Word>, text: Word, e: nat, r: int, e': nat, r': int)
    requires FirstHit(patterns, text, e, r) && FirstHit(patterns, text, e', r')
    ensures e == e' && r == r'
  {
    assert EndsAt(patterns[r], text, e) && EndsAt(patterns[r'], text, e');
    assert e == e';
    SuffixesNest(patterns[r], patterns[r'], text[..e]);
    assert patterns[r] == patterns[r'];
  }

  // ---------- Lemmas: the breadth-first frontier ----------

  ghost function Parent(paths: seq<Word>, index: map<Word, nat>, v: nat): (p: nat)
    requires Numbering(paths, index) && 0 < v < |paths|
    ensures p < |paths| && paths[v] != [] && paths[v] == paths[p] + [Last(paths[v])]
  {
    assert index[paths[v]] != index[[]];
    assert paths[v] == Init(paths[v]) + [Last(paths[v])];
    index[Init(paths[v])]
  }

  ghost function Below(n: nat): (s: set<nat>)
    ensures forall v: nat :: v in s <==> v < n
  {
    if n == 0 then {} else Below(n - 1) + {n - 1}
  }

  ghost predicate Reached(expanded: set<nat>, queue: seq<nat>, u: nat, v: nat) {
    v in expanded || v == u || v in queue
  }

  /** The queue while `u` is being expanded, in order of depth. */
  ghost predicate Queued(paths: seq<Word>, expanded: set<nat>, queue: seq<nat>, u: nat) {
    && u < |paths| && u !in expanded
    && (0 in expanded || u == 0)
    && (forall v :: v in expanded ==> v < |paths|)
    && (forall i :: 0 <= i < |queue| ==>
          && 0 < queue[i] < |paths| && queue[i] !in expanded && queue[i] != u
          && |paths[u]| <= |paths[queue[i]]| <= |paths[u]| + 1)
    && (forall i, j :: 0 <= i < j < |queue| ==> queue[i] != queue[j] && |paths[queue[i]]| <= |paths[queue[j]]|)
  }

  /** A node has been reached exactly when the edge from its parent has been followed; `keys` are the
      edges of `u` still to follow. */
  ghost predicate ReachedByEdges(paths: seq<Word>, index: map<Word, nat>, expanded: set<nat>, queue: seq<nat>, u: nat,
                                 keys: set<byte>)
    requires Numbering(paths, index)
  {
    forall v :: 0 < v < |paths| ==>
      (Reached(expanded, queue, u, v) <==> Followed(paths, index, expanded, u, keys, v))
  }

  ghost predicate Followed(paths: seq<Word>, index: map<Word, nat>, expanded: set<nat>, u: nat, keys: set<byte>, v: nat)
    requires Numbering(paths, index) && 0 < v < |paths|
  {
    var p := Parent(paths, index, v);
    p in expanded || (p == u && Last(paths[v]) !in keys)
  }

  ghost predicate Frontier(paths: seq<Word>, index: map<Word, nat>, expanded: set<nat>, queue: seq<nat>, u: nat,
                           keys: set<byte>)
    requires Numbering(paths, index)
  {
    Queued(paths, expanded, queue, u) && ReachedByEdges(paths, index, expanded, queue, u, keys)
  }

  /** Reached nodes have their final links; the others are as the trie left them. */
  ghost predicate Progress(own: seq<Node>, nodes: seq<Node>, paths: seq<Word>, index: map<Word, nat>,
                           patterns: seq<Word>,
                           expanded: set<nat>, queue: seq<nat>, u: nat)
  {
    && Trie(nodes, paths, index)
    && |own| == |nodes| && Inserted(own, paths, patterns)
    && (forall v :: 0 <= v < |nodes| ==> nodes[v].next == own[v].next)
    && (forall v {:trigger Reached(expanded, queue, u, v)} :: 0 <= v < |nodes| ==>
          if Reached(expanded, queue, u, v) then NodeOk(nodes, paths, index, patterns, v) else nodes[v] == own[v])
  }

  lemma StartFrontier(nodes: seq<Node>, paths: seq<Word>, index: map<Word, nat>)
    requires Trie(nodes, paths, index)
    ensures Frontier(paths, index, {}, [], 0, nodes[0].next.Keys)
  {
    assert EdgesOf(nodes[0], paths[0], index);
  }

  lemma Enqueue(paths: seq<Word>, index: map<Word, nat>, expanded: set<nat>, queue: seq<nat>, u: nat, keys: set<byte>,
                b: byte, v: nat)
    requires Numbering(paths, index) && Frontier(paths, index, expanded, queue, u, keys) && b in keys
    requires v < |paths| && paths[v] == paths[u] + [b]
    ensures 0 < v && !Reached(expanded, queue, u, v)
    ensures Frontier(paths, index, expanded, queue + [v], u, keys - {b})
  {
    assert 0 < v;
    assert Init(paths[v]) == paths[u];
    var queue' := queue + [v];
    forall x | 0 < x < |paths|
      ensures Reached(expanded, queue', u, x) <==> Followed(paths, index, expanded, u, keys - {b}, x)
    {
      assert Reached(expanded, queue', u, x) <==> Reached(expanded, queue, u, x) || x == v;
      assert Parent(paths, index, v) == u;
      assert Last(paths[v]) == b;
    }
  }

  lemma Dequeue(nodes: seq<Node>, paths: seq<Word>, index: map<Word, nat>, expanded: set<nat>, queue: seq<nat>, u: nat)
    requires Trie(nodes, paths, index) && Frontier(paths, index, expanded, queue, u, {}) && queue != []
    ensures Frontier(paths, index, expanded + {u}, queue[1..], queue[0], nodes[queue[0]].next.Keys)
    ensures forall v :: Reached(expanded + {u}, queue[1..], queue[0], v) <==> Reached(expanded, queue, u, v)
  {
    var v0, rest := queue[0], queue[1..];
    assert forall v :: v in queue <==> v == v0 || v in rest;
    assert forall i :: 0 <= i < |rest| ==> rest[i] == queue[i + 1];
    assert EdgesOf(nodes[v0], paths[v0], index);
    forall v | 0 < v < |paths|
      ensures Reached(expanded + {u}, rest, v0, v) <==>
        Followed(paths, index, expanded + {u}, v0, nodes[v0].next.Keys, v)
    {
      assert Reached(expanded, queue, u, v) <==> Followed(paths, index, expanded, u, {}, v);
    }
  }

  /** Giving the next child of `u` its final links keeps the pass on track. */
  lemma Linked(own: seq<Node>, nodes: seq<Node>, nodes': seq<Node>, paths: seq<Word>, index: map<Word, nat>,
               patterns: seq<Word>, expanded: set<nat>, queue: seq<nat>, u: nat, v: nat)
    requires Progress(own, nodes, paths, index, patterns, expanded, queue, u)
    requires v < |nodes| == |nodes'| && !Reached(expanded, queue, u, v)
    requires nodes'[v].next == nodes[v].next
    requires forall x :: 0 <= x < |nodes| && x != v ==> nodes'[x] == nodes[x]
    requires NodeOk(nodes', paths, index, patterns, v)
    ensures Progress(own, nodes', paths, index, patterns, expanded, queue + [v], u)
  {
    SameEdges(nodes, nodes', paths, index);
    forall x | 0 <= x < |nodes'|
      ensures if Reached(expanded, queue + [v], u, x) then NodeOk(nodes', paths, index, patterns, x)
              else nodes'[x] == own[x]
    {
      assert Reached(expanded, queue + [v], u, x) <==> Reached(expanded, queue, u, x) || x == v;
      if x != v && Reached(expanded, queue, u, x) {
        assert NodeOk(nodes, paths, index, patterns, x);
      }
    }
  }

  /** Everything no deeper than the node being expanded has been reached. */
  lemma {:induction false} Shallow(paths: seq<Word>, index: map<Word, nat>, expanded: set<nat>, queue: seq<nat>, u: nat,
                                   keys: set<byte>, v: nat)
    requires Numbering(paths, index) && Frontier(paths, index, expanded, queue, u, keys)
    requires v < |paths| && |paths[v]| <= |paths[u]|
    ensures Reached(expanded, queue, u, v)
    decreases |paths[v]|
  {
    if v > 0 {
      Shallow(paths, index, expanded, queue, u, keys, Parent(paths, index, v));
    }
  }

  lemma {:induction false} Exhausted(paths: seq<Word>, index: map<Word, nat>, expanded: set<nat>, u: nat, v: nat)
    requires Numbering(paths, index) && Frontier(paths, index, expanded, [], u, {}) && v < |paths|
    ensures Reached(expanded, [], u, v)
    decreases |paths[v]|
  {
    if v > 0 {
      Exhausted(paths, index, expanded, u, Parent(paths, index, v));
    }
  }

  lemma FirstLevel(nodes: seq<Node>, paths: seq<Word>, index: map<Word, nat>, patterns: seq<Word>, b: byte, v: nat)
    requires Trie(nodes, paths, index) && Inserted(nodes, paths, patterns) && [] !in patterns
    requires v < |nodes| && paths[v] == [b]
    ensures NodeOk(nodes, paths, index, patterns, v)
  {
    assert paths[nodes[v].fail] == [] == [b][1..];
    forall p | p in patterns && Suffix(p, [b]) ensures p == [b] {
      assert p != [] && p == [b][1 - |p|..];
    }
    assert Suffix([b], [b]);
  }

  // ---------- The matcher ----------

  class Matcher {
    var nodes: seq<Node>
    ghost var paths: seq<Word>
    ghost var index: map<Word, nat>
    ghost var patterns: seq<Word>

    ghost predicate Valid()
      reads this
    {
      Automaton(nodes, paths, index, patterns)
    }

    constructor (patterns: seq<Word>)
      requires [] !in patterns
      ensures Valid() && this.patterns == patterns
    {
      nodes := [Node(map[], 0, NO_PATTERN)];
      paths := [[]];
      index := map[[] := 0];
      this.patterns := patterns;
      new;
      assert EdgesOf(nodes[0], paths[0], index);
      var pi := 0;
      while pi < |patterns|
        invariant pi <= |patterns| && this.patterns == patterns
        invariant Trie(nodes, paths, index) && Spells(index, patterns[..pi])
        invariant Inserted(nodes, paths, patterns[..pi])
      {
        Insert(patterns[pi], pi);
        pi := pi + 1;
      }
      assert patterns[..pi] == patterns;
      PatternsArePaths(index, patterns);
      LinkFails();
    }

    /** Adds the pattern `p`, the one at `pi`, to the trie. */
    method Insert(p: Word, pi: nat)
      requires pi < |patterns| && patterns[pi] == p
      requires Trie(nodes, paths, index) && Spells(index, patterns[..pi])
      requires Inserted(nodes, paths, patterns[..pi])
      modifies this`nodes, this`paths, this`index
      ensures Trie(nodes, paths, index) && Spells(index, patterns[..pi + 1])
      ensures Inserted(nodes, paths, patterns[..pi + 1])
    {
      ghost var ps := patterns[..pi];
      var cur: nat := 0;
      var k := 0;
      StartOfPattern(ps, index);
      while k < |p|
        invariant k <= |p| && cur < |nodes|
        invariant Trie(nodes, paths, index) && paths[cur] == p[..k]
        invariant Spells(index, ps + [p[..k]])
        invariant Inserted(nodes, paths, ps)
      {
        var b := p[k];
        assert EdgesOf(nodes[cur], paths[cur], index) && p[..k + 1] == paths[cur] + [b];
        SpellsMore(index, ps, p, k, |nodes|);
        if b !in nodes[cur].next {
          AddChild(cur, b, ps);
          cur := |nodes| - 1;
        } else {
          cur := nodes[cur].next[b];
        }
        k := k + 1;
      }
      assert p[..k] == p && ps + [p] == patterns[..pi + 1];
      FinishPattern(nodes, paths, index, ps, p, cur);
      if nodes[cur].matchedPattern < 0 {
        nodes := nodes[cur := nodes[cur].(matchedPattern := pi)];
      }
    }

    method AddChild(cur: nat, b: byte, ghost ps: seq<Word>)
      requires Trie(nodes, paths, index) && Inserted(nodes, paths, ps)
      requires cur < |nodes| && b !in nodes[cur].next && paths[cur] + [b] !in ps
      modifies this`nodes, this`paths, this`index
      ensures Trie(nodes, paths, index) && Inserted(nodes, paths, ps)
      ensures paths == old(paths) + [old(paths)[cur] + [b]]
      ensures index == old(index)[old(paths)[cur] + [b] := |old(nodes)|]
    {
      AddNode(nodes, paths, index, cur, b);
      index := index[paths[cur] + [b] := |nodes|];
      paths := paths + [paths[cur] + [b]];
      nodes := nodes[cur := nodes[cur].(next := nodes[cur].next[b := |nodes|])] + [Node(map[], 0, NO_PATTERN)];
    }

    /** The breadth-first pass. The children of a node are visited in whatever order its map yields them. */
    method LinkFails()
      requires Trie(nodes, paths, index) && Holds(index, patterns) && [] !in patterns
      requires Inserted(nodes, paths, patterns)
      modifies this`nodes
      ensures Trie(nodes, paths, index)
      ensures forall v {:trigger NodeOk(nodes, paths, index, patterns, v)} ::
      0 <= v < |nodes| ==> NodeOk(nodes, paths, index, patterns, v)
    {
      ghost var own := nodes;
      ghost var expanded: set<nat> := {};
      var queue := QueueFirstLevel();
      ghost var u0: nat := 0;
      while queue != []
        invariant Frontier(paths, index, expanded, queue, u0, {})
        invariant Progress(own, nodes, paths, index, patterns, expanded, queue, u0)
        decreases Below(|paths|) - expanded - {u0}
      {
        var u := queue[0];
        Dequeue(own, paths, index, expanded, queue, u0);
        expanded := expanded + {u0};
        queue := queue[1..];
        queue := LinkChildren(own, expanded, queue, u);
        u0 := u;
      }
      forall v {:trigger NodeOk(nodes, paths, index, patterns, v)} | 0 <= v < |paths|
        ensures NodeOk(nodes, paths, index, patterns, v) {
        Exhausted(paths, index, expanded, u0, v);
      }
    }

    method QueueFirstLevel() returns (queue: seq<nat>)
      requires Trie(nodes, paths, index) && [] !in patterns && Inserted(nodes, paths, patterns)
      ensures Frontier(paths, index, {}, queue, 0, {})
      ensures Progress(nodes, nodes, paths, index, patterns, {}, queue, 0)
    {
      queue := [];
      var keys := nodes[0].next.Keys;
      StartFrontier(nodes, paths, index);
      while keys != {}
        invariant Progress(nodes, nodes, paths, index, patterns, {}, queue, 0)
        invariant Frontier(paths, index, {}, queue, 0, keys)
        invariant keys <= nodes[0].next.Keys
      {
        var b :| b in keys;
        var v := nodes[0].next[b];
        assert EdgesOf(nodes[0], paths[0], index);
        Enqueue(paths, index, {}, queue, 0, keys, b, v);
        FirstLevel(nodes, paths, index, patterns, b, v);
        Linked(nodes, nodes, nodes, paths, index, patterns, {}, queue, 0, v);
        keys := keys - {b};
        queue := queue + [v];
      }
    }

    /** Links the children of `u` and queues them behind `waiting`. */
    method LinkChildren(ghost own: seq<Node>, ghost expanded: set<nat>, waiting: seq<nat>,
                        u: nat) returns (queue: seq<nat>)
      requires Progress(own, nodes, paths, index, patterns, expanded, waiting, u)
      requires 0 < u < |nodes| && Holds(index, patterns)
      requires Frontier(paths, index, expanded, waiting, u, nodes[u].next.Keys)
      modifies this`nodes
      ensures Progress(own, nodes, paths, index, patterns, expanded, queue, u)
      ensures Frontier(paths, index, expanded, queue, u, {})
    {
      queue := waiting;
      var keys := nodes[u].next.Keys;
      while keys != {}
        invariant Progress(own, nodes, paths, index, patterns, expanded, queue, u)
        invariant Frontier(paths, index, expanded, queue, u, keys)
        invariant keys <= nodes[u].next.Keys
      {
        var b :| b in keys;
        var v := nodes[u].next[b];
        assert EdgesOf(nodes[u], paths[u], index);
        Enqueue(paths, index, expanded, queue, u, keys, b, v);
        forall x {:trigger NodeOk(nodes, paths, index, patterns, x)} | 0 <= x < |paths| && |paths[x]| <= |paths[u]|
          ensures NodeOk(nodes, paths, index, patterns, x) {
          Shallow(paths, index, expanded, queue, u, keys, x);
        }
        var node := LinkChild(u, b, v);
        Linked(own, nodes, nodes[v := node], paths, index, patterns, expanded, queue, u, v);
        nodes := nodes[v := node];
        keys := keys - {b};
        queue := queue + [v];
      }
    }

    /** Follows fail links from `from` until an edge `b` leaves the node, or the root is reached. */
    method Chase(from: nat, b: byte, ghost w: Word) returns (f: nat)
      requires Trie(nodes, paths, index) && from < |nodes|
      requires Candidate(index.Keys, w, b, paths[from])
      requires forall x {:trigger FailOk(nodes, paths, index, x)} ::
        0 <= x < |nodes| && |paths[x]| <= |w| && paths[x] != [] ==> FailOk(nodes, paths, index, x)
      ensures f < |nodes| && (f == 0 || b in nodes[f].next)
      ensures Candidate(index.Keys, w, b, paths[f])
    {
      f := from;
      while f != 0 && b !in nodes[f].next
        invariant f < |nodes| && Candidate(index.Keys, w, b, paths[f])
        decreases |paths[f]|
      {
        assert EdgesOf(nodes[f], paths[f], index) && FailOk(nodes, paths, index, f);
        FailKeepsCandidate(index.Keys, w, b, paths[f], paths[nodes[f].fail]);
        f := nodes[f].fail;
      }
    }

    /** The node of `v`, the child of `u` along `b`, with the links it gets from the shallower nodes. */
    method LinkChild(u: nat, b: byte, v: nat) returns (node: Node)
      requires Trie(nodes, paths, index) && Holds(index, patterns)
      requires 0 < u < |nodes| && v < |nodes| && paths[v] == paths[u] + [b]
      requires forall x {:trigger NodeOk(nodes, paths, index, patterns, x)} ::
        0 <= x < |nodes| && |paths[x]| <= |paths[u]| ==> NodeOk(nodes, paths, index, patterns, x)
      requires NamesPattern(patterns, paths[v], nodes[v].matchedPattern)
      ensures node.next == nodes[v].next
      ensures NodeOk(nodes[v := node], paths, index, patterns, v)
    {
      assert NodeOk(nodes, paths, index, patterns, u);
      forall x {:trigger FailOk(nodes, paths, index, x)} | 0 <= x < |nodes| && |paths[x]| < |paths[u]| && paths[x] != []
        ensures FailOk(nodes, paths, index, x)
      {
        assert NodeOk(nodes, paths, index, patterns, x);
      }
      var f := Chase(nodes[u].fail, b, paths[u][1..]);
      ghost var target := if b in nodes[f].next then nodes[f].next[b] else 0;
      TargetOk(nodes, paths, index, u, b, v, f);
      assert NodeOk(nodes, paths, index, patterns, target);
      Relinked(nodes, paths, index, patterns, v, target);
      node := nodes[v];
      if b in nodes[f].next && nodes[f].next[b] != v {
        node := node.(fail := nodes[f].next[b]);
      } else {
        node := node.(fail := 0);
      }
      if node.matchedPattern < 0 {
        node := node.(matchedPattern := nodes[node.fail].matchedPattern);
      }
    }

    /** One byte of the scan: `w` is the text consumed so far. */
    method Step(cur: nat, b: byte, ghost w: Word) returns (r: nat)
      requires Valid() && cur < |nodes| && Longest(index.Keys, w, paths[cur])
      ensures r < |nodes| && Longest(index.Keys, w + [b], paths[r])
      ensures NamesLongest(patterns, w + [b], nodes[r].matchedPattern)
    {
      PatternsArePaths(index, patterns);
      forall x {:trigger FailOk(nodes, paths, index, x)} | 0 <= x < |nodes| && paths[x] != []
        ensures FailOk(nodes, paths, index, x)
      {
        assert NodeOk(nodes, paths, index, patterns, x);
      }
      StepCandidate(index.Keys, w, b, paths[cur]);
      var at := Chase(cur, b, w);
      assert EdgesOf(nodes[at], paths[at], index);
      if b in nodes[at].next {
        CandidateExtends(index.Keys, w, b, paths[at]);
        r := nodes[at].next[b];
      } else {
        assert [] + [b] == [b];
        NoCandidate(index.Keys, w, b);
        r := at;
      }
      assert NodeOk(nodes, paths, index, patterns, r);
      StateMatchesText(patterns, index, w + [b], paths[r], nodes[r].matchedPattern);
    }

    method Find(text: Word) returns (r: int)
      requires Valid() && [] !in patterns
      ensures r == NO_PATTERN <==> Absent(patterns, text)
      ensures r != NO_PATTERN ==> exists e :: FirstHit(patterns, text, e, r)
    {
      var cur: nat := 0;
      var i := 0;
      while i < |text|
        invariant i <= |text| && cur < |nodes|
        invariant Longest(index.Keys, text[..i], paths[cur])
        invariant QuietUpTo(patterns, text, i + 1)
      {
        assert text[..i + 1] == text[..i] + [text[i]];
        cur := Step(cur, text[i], text[..i]);
        i := i + 1;
        if nodes[cur].matchedPattern >= 0 {
          r := nodes[cur].matchedPattern;
          assert FirstHit(patterns, text, i, r);
          MatchMeansPresent(patterns, text, i, r);
          return;
        }
        QuietGrows(patterns, text, i);
      }
      QuietMeansAbsent(patterns, text);
      r := NO_PATTERN;
    }

    /** The prescan: the text is folded byte by byte and scanned between two spaces. */
    method FindFolded(text: Word) returns (found: bool)
      requires Valid() && [] !in patterns
      ensures found <==> !Absent(patterns, Padded(text))
    {
      QuietStart(patterns, Padded(text));
      var cur: nat := StepFolded(text, 0, 0, SPACE);
      var i := 0;
      while i < |text|
        invariant i <= |text| && cur < |nodes|
        invariant Longest(index.Keys, PaddedUpTo(text, i + 1), paths[cur])
        invariant QuietButSpace(patterns, Padded(text), i + 2)
      {
        cur := StepFolded(text, i + 1, cur, FoldTable(text[i]));
        if nodes[cur].matchedPattern >= 0 {
          return true;
        }
        i := i + 1;
      }
      found := EndFolded(text, cur);
    }

    /** The last step, on the closing space. */
    method EndFolded(ghost text: Word, cur: nat) returns (found: bool)
      requires Valid() && cur < |nodes| && Longest(index.Keys, PaddedUpTo(text, |text| + 1), paths[cur])
      requires QuietButSpace(patterns, Padded(text), |text| + 2)
      ensures found <==> !Absent(patterns, Padded(text))
    {
      var last := StepFolded(text, |text| + 1, cur, SPACE);
      found := nodes[last].matchedPattern >= 0;
      if !found {
        PaddedPrefix(text, |text| + 2);
        QuietButSpaceMeansAbsent(patterns, Padded(text));
      }
    }

    /** Step number `k` of the scan of the padded text. */
    method StepFolded(ghost text: Word, ghost k: nat, cur: nat, c: byte) returns (r: nat)
      requires Valid() && k <= |text| + 1 && cur < |nodes| && Longest(index.Keys, PaddedUpTo(text, k), paths[cur])
      requires c == PadByte(text, k)
      ensures r < |nodes| && Longest(index.Keys, PaddedUpTo(text, k + 1), paths[r])
      ensures nodes[r].matchedPattern >= 0 ==> !Absent(patterns, Padded(text))
      ensures nodes[r].matchedPattern < 0 ==> NamesLongest(patterns, PaddedUpTo(text, k + 1), NO_PATTERN)
      ensures nodes[r].matchedPattern < 0 && QuietButSpace(patterns, Padded(text), k + 1) ==>
                QuietButSpace(patterns, Padded(text), k + 2)
    {
      r := Step(cur, c, PaddedUpTo(text, k));
      PaddedPrefix(text, k + 1);
      if nodes[r].matchedPattern >= 0 {
        MatchMeansPresent(patterns, Padded(text), k + 1, nodes[r].matchedPattern);
      } else if QuietButSpace(patterns, Padded(text), k + 1) {
        QuietButSpaceGrows(patterns, text, k + 1);
      }
    }
  }
}
