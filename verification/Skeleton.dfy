/** The text skeleton on plain bytes: tokens are folded in place, letters to lower case and, in a token with at least
    two letters, look-alike digits and signs to letters; every run of spaces becomes one. */
module Skeleton {
  import opened Words

  const SPACE: byte := 32

  predicate IsSpace(c: byte) {
    c == 32 || 9 <= c <= 13
  }

  predicate IsLower(c: byte) {
    97 <= c <= 122
  }

  function Lower(c: byte): byte {
    if 65 <= c <= 90 then c + 32 else c
  }

  /** The spaces, the letters and their lower case, as characters. */
  lemma ClassesAre(c: byte)
    ensures IsSpace(c) <==> c as char in {' ', '\t', '\n', '\r', 11 as char, 12 as char}
    ensures IsLower(c) <==> 'a' <= c as char <= 'z'
    ensures 'A' <= c as char <= 'Z' ==> IsLower(Lower(c)) && Lower(c) as int - 'a' as int == c as int - 'A' as int
    ensures !('A' <= c as char <= 'Z') ==> Lower(c) == c
  {
  }

  /** The letter a look-alike byte stands for, if it is one: 0 1 3 4 5 7 8 @ $. */
  function Leet(c: byte): byte {
    if c == 48 then 111
    else if c == 49 then 105
    else if c == 51 then 101
    else if c == 52 || c == 64 then 97
    else if c == 53 || c == 36 then 115
    else if c == 55 then 116
    else if c == 56 then 98
    else c
  }

  function FoldByte(c: byte, leet: bool): byte {
    if leet then Leet(Lower(c)) else Lower(c)
  }

  function Letters(token: Word): nat {
    if token == [] then 0 else Letters(token[..|token| - 1]) + if IsLower(Lower(token[|token| - 1])) then 1 else 0
  }

  predicate Quorum(token: Word) {
    Letters(token) >= 2
  }

  /** Two places of the token hold letters. */
  lemma {:induction false} QuorumIff(token: Word)
    ensures Quorum(token) <==>
      exists i, j :: 0 <= i < j < |token| && IsLower(Lower(token[i])) && IsLower(Lower(token[j]))
    ensures Letters(token) > 0 <==> exists i :: 0 <= i < |token| && IsLower(Lower(token[i]))
  {
    if token != [] {
      var n := |token| - 1;
      var rest := token[..n];
      QuorumIff(rest);
      forall i | 0 <= i < n ensures token[i] == rest[i] {
      }
    }
  }

  /** Digits and signs, and the letters they look like. */
  const LOOK_ALIKES: map<char, char> :=
    map['0' := 'o', '1' := 'i', '3' := 'e', '4' := 'a', '@' := 'a', '5' := 's', '$' := 's', '7' := 't', '8' := 'b']

  lemma LeetIs(c: byte)
    ensures Leet(c) as char == if c as char in LOOK_ALIKES then LOOK_ALIKES[c as char] else c as char
  {
  }

  function Folded(token: Word, leet: bool): (r: Word)
    ensures |r| == |token|
  {
    seq(|token|, i requires 0 <= i < |token| => FoldByte(token[i], leet))
  }

  function FoldToken(token: Word): Word {
    Folded(token, Quorum(token))
  }

  /** The length of the longest prefix of which every byte is a space, or none is. */
  function Run(u: Word, spaces: bool): (n: nat)
    ensures n <= |u|
  {
    if u == [] || IsSpace(u[0]) != spaces then 0 else 1 + Run(u[1..], spaces)
  }

  lemma {:induction false} RunIs(u: Word, spaces: bool, n: nat)
    requires n <= |u| && (forall i :: 0 <= i < n ==> IsSpace(u[i]) == spaces) && (n < |u| ==> IsSpace(u[n]) != spaces)
    ensures Run(u, spaces) == n
    decreases n
  {
    if n > 0 {
      RunIs(u[1..], spaces, n - 1);
    }
  }

  lemma {:induction false} RunStops(u: Word, spaces: bool)
    ensures forall i :: 0 <= i < Run(u, spaces) ==> IsSpace(u[i]) == spaces
    ensures Run(u, spaces) < |u| ==> IsSpace(u[Run(u, spaces)]) != spaces
    decreases |u|
  {
    if u != [] && IsSpace(u[0]) == spaces {
      RunStops(u[1..], spaces);
      assert forall i :: 0 < i < |u| ==> u[i] == u[1..][i - 1];
    }
  }

  /** The text's skeleton, token by token. */
  function Skeleton(u: Word): Word {
    if u == [] then []
    else if IsSpace(u[0]) then [SPACE] + Skeleton(u[Run(u, true)..])
    else FoldToken(u[..Run(u, false)]) + Skeleton(u[Run(u, false)..])
  }

  // ---------- Folding again changes nothing ----------

  lemma {:induction false} FoldingKeepsLetters(token: Word, leet: bool)
    ensures Letters(Folded(token, leet)) >= Letters(token)
    ensures !leet ==> Letters(Folded(token, leet)) == Letters(token)
  {
    if token != [] {
      var rest := token[..|token| - 1];
      FoldingKeepsLetters(rest, leet);
      assert Folded(token, leet)[..|token| - 1] == Folded(rest, leet);
    }
  }

  /** A folded token is its own fold, and folding neither makes nor removes spaces. */
  lemma FoldTokenTwice(token: Word)
    ensures FoldToken(FoldToken(token)) == FoldToken(token)
    ensures forall i :: 0 <= i < |token| ==> IsSpace(FoldToken(token)[i]) == IsSpace(token[i])
  {
    var leet := Quorum(token);
    FoldingKeepsLetters(token, leet);
    assert Quorum(FoldToken(token)) == leet;
  }

  /** The skeleton of a token followed by something that begins with a space or is empty. */
  lemma TokenFirst(token: Word, rest: Word)
    requires token != [] && (forall c :: c in token ==> !IsSpace(c)) && (rest == [] || IsSpace(rest[0]))
    ensures Skeleton(token + rest) == FoldToken(token) + Skeleton(rest)
  {
    var u := token + rest;
    forall i | 0 <= i < |token| ensures !IsSpace(u[i]) {
      assert u[i] == token[i] && token[i] in token;
    }
    RunIs(u, false, |token|);
    assert u[..|token|] == token && u[|token|..] == rest;
  }

  lemma SpaceFirst(rest: Word)
    requires rest == [] || !IsSpace(rest[0])
    ensures Skeleton([SPACE] + rest) == [SPACE] + Skeleton(rest)
  {
    var u := [SPACE] + rest;
    RunIs(u, true, 1);
    assert u[1..] == rest;
  }

  /** The skeleton begins with a space exactly when the text does, and is no longer than the text. */
  lemma {:induction false} SkeletonBegins(u: Word)
    ensures (Skeleton(u) == []) == (u == []) && |Skeleton(u)| <= |u|
    ensures u != [] ==> IsSpace(Skeleton(u)[0]) == IsSpace(u[0])
    decreases |u|
  {
    if u != [] {
      var n := Run(u, IsSpace(u[0]));
      RunStops(u, IsSpace(u[0]));
      SkeletonBegins(u[n..]);
      if !IsSpace(u[0]) {
        FoldTokenTwice(u[..n]);
      }
    }
  }

  /** A skeleton is its own skeleton. */
  lemma {:induction false} Idempotent(u: Word)
    ensures Skeleton(Skeleton(u)) == Skeleton(u)
    decreases |u|
  {
    if u != [] {
      var spaces := IsSpace(u[0]);
      var n := Run(u, spaces);
      var rest := u[n..];
      RunStops(u, spaces);
      Idempotent(rest);
      SkeletonBegins(rest);
      if spaces {
        SpaceFirst(Skeleton(rest));
      } else {
        var token := FoldToken(u[..n]);
        FoldTokenTwice(u[..n]);
        forall c | c in token ensures !IsSpace(c) {
          var i :| 0 <= i < |token| && token[i] == c;
          assert IsSpace(token[i]) == IsSpace(u[..n][i]);
        }
        TokenFirst(token, Skeleton(rest));
      }
    }
  }

  // ---------- The buffer ----------

  method TokenQuorum(buf: array<byte>, from: nat, n: nat) returns (leet: bool)
    requires from <= n <= buf.Length
    ensures leet == Quorum(buf[from..n])
  {
    var votes := 0;
    for i := from to n
      invariant votes == Letters(buf[from..i]) < 2
    {
      assert buf[from..i + 1][..i - from] == buf[from..i];
      if IsLower(Lower(buf[i])) {
        votes := votes + 1;
        if votes >= 2 {
          MoreLetters(buf[from..n], i + 1 - from);
          assert buf[from..n][..i + 1 - from] == buf[from..i + 1];
          return true;
        }
      }
    }
    leet := false;
  }

  lemma {:induction false} MoreLetters(token: Word, k: nat)
    requires k <= |token|
    ensures Letters(token[..k]) <= Letters(token)
    decreases |token|
  {
    if k < |token| {
      MoreLetters(token[..|token| - 1], k);
      assert token[..|token| - 1][..k] == token[..k];
    } else {
      assert token[..k] == token;
    }
  }

  /** Folds the token that fills the buffer from `from` up to `n`. */
  method FoldTokenBytes(buf: array<byte>, from: nat, n: nat)
    requires from <= n <= buf.Length
    modifies buf
    ensures buf[..from] == old(buf[..from]) && buf[from..n] == FoldToken(old(buf[from..n])) && buf[n..] == old(buf[n..])
  {
    var leet := TokenQuorum(buf, from, n);
    for i := from to n
      invariant buf[..from] == old(buf[..from]) && buf[i..] == old(buf[i..])
      invariant forall j :: from <= j < i ==> buf[j] == FoldByte(old(buf[j]), leet)
    {
      assert buf[i] == buf[i..][0] == old(buf[i..])[0];
      buf[i] := FoldByte(buf[i], leet);
    }
  }

  /** What is still to be written when the output so far ends in a collapsed space, or does not. */
  function Rest(u: Word, spaced: bool): Word {
    if spaced then Skeleton(u[Run(u, true)..]) else Skeleton(u)
  }

  lemma RestOfSpace(u: Word, spaced: bool)
    requires u != [] && IsSpace(u[0])
    ensures Rest(u, spaced) == (if spaced then [] else [SPACE]) + Rest(u[1..], true)
  {
    assert u[Run(u, true)..] == u[1..][Run(u[1..], true)..];
  }

  /** What is left when a token, possibly empty, stands before `rest`, which begins with a space or is empty. */
  lemma TokenEnds(token: Word, rest: Word, mark: bool, spaced: bool)
    requires (forall c :: c in token ==> !IsSpace(c)) && (rest == [] || IsSpace(rest[0]))
    requires if token == [] then spaced == mark else !spaced
    ensures Rest(token + rest, mark) == FoldToken(token) + Rest(rest, spaced)
  {
    if token == [] {
      assert token + rest == rest;
    } else {
      TokenFirst(token, rest);
      assert !IsSpace((token + rest)[0]) by {
        assert (token + rest)[0] == token[0] && token[0] in token;
      }
      RunIs(token + rest, true, 0);
      assert (token + rest)[0..] == token + rest;
    }
  }

  lemma SpaceEnds(goal: Word, written: Word, token: Word, rest: Word, mark: bool, spaced: bool)
    requires (forall c :: c in token ==> !IsSpace(c)) && rest != [] && IsSpace(rest[0])
    requires if token == [] then spaced == mark else !spaced
    requires goal == written + Rest(token + rest, mark)
    ensures goal == (written + FoldToken(token) + if spaced then [] else [SPACE]) + Rest([] + rest[1..], true)
  {
    TokenEnds(token, rest, mark, spaced);
    RestOfSpace(rest, spaced);
    assert [] + rest[1..] == rest[1..];
    Regroup(goal, written, Rest(token + rest, mark), FoldToken(token), Rest(rest, spaced),
            if spaced then [] else [SPACE], Rest(rest[1..], true));
  }

  lemma Regroup(goal: Word, a: Word, bcd: Word, b: Word, cd: Word, c: Word, d: Word)
    requires goal == a + bcd && bcd == b + cd && cd == c + d
    ensures goal == (a + b + c) + d
  {
  }

  lemma ByteJoins(goal: Word, written: Word, token: Word, rest: Word, mark: bool)
    requires rest != [] && goal == written + Rest(token + rest, mark)
    ensures goal == written + Rest((token + [rest[0]]) + rest[1..], mark)
  {
    assert token + rest == (token + [rest[0]]) + rest[1..];
  }

  lemma StartsWhole(text: Word)
    ensures Skeleton(text) == [] + Rest([] + text[0..], false)
  {
    assert [] + text[0..] == text;
  }

  /** Folds the token at the end of the output and closes it with a space, unless one stands there already. */
  method CloseToken(buf: array<byte>, at: nat, n: nat, space: bool, ghost written: Word,
                    ghost token: Word) returns (n': nat)
    requires at == |written| && n == at + |token| && n + (if space then 1 else 0) <= buf.Length
    requires buf[..n] == written + token
    modifies buf
    ensures n' == n + (if space then 1 else 0)
    ensures buf[..n'] == written + FoldToken(token) + if space then [SPACE] else []
  {
    assert buf[..at] == buf[..n][..at] == written;
    assert buf[at..n] == buf[..n][at..] == token;
    FoldTokenBytes(buf, at, n);
    assert buf[..n] == buf[..at] + buf[at..n];
    n' := n;
    if space {
      buf[n] := SPACE;
      n' := n + 1;
      assert buf[..n'] == buf[..n] + [SPACE];
    }
  }

  /** Where the writer stands before `rest`: what is written, the token begun, and whether a collapsed space came
      before it and comes right before `rest`. */
  datatype Mark = Mark(written: Word, token: Word, after: bool, spaced: bool)

  ghost predicate Writes(m: Mark, rest: Word, goal: Word) {
    && (forall c :: c in m.token ==> !IsSpace(c))
    && (if m.token == [] then m.spaced == m.after else !m.spaced)
    && goal == m.written + Rest(m.token + rest, m.after)
  }

  /** The mark after one more byte. */
  ghost function Marked(m: Mark, c: byte): Mark {
    if IsSpace(c) then Mark(m.written + FoldToken(m.token) + (if m.spaced then [] else [SPACE]), [], true, true)
    else Mark(m.written, m.token + [c], m.after, false)
  }

  lemma Advance(m: Mark, rest: Word, goal: Word)
    requires Writes(m, rest, goal) && rest != []
    ensures Writes(Marked(m, rest[0]), rest[1..], goal)
  {
    if IsSpace(rest[0]) {
      SpaceEnds(goal, m.written, m.token, rest, m.after, m.spaced);
    } else {
      ByteJoins(goal, m.written, m.token, rest, m.after);
    }
  }

  lemma Ended(m: Mark, goal: Word)
    requires Writes(m, [], goal)
    ensures goal == m.written + FoldToken(m.token)
  {
    TokenEnds(m.token, [], m.after, m.spaced);
  }

  /** Takes one byte into the output. */
  method Put(buf: array<byte>, at: nat, n: nat, c: byte, spaced: bool, ghost m: Mark)
    returns (at': nat, n': nat, spaced': bool, ghost m': Mark)
    requires at == |m.written| && n == at + |m.token| < buf.Length
    requires buf[..n] == m.written + m.token && spaced == m.spaced
    modifies buf
    ensures n' <= n + 1 <= buf.Length && at' == |m'.written| && n' == at' + |m'.token|
    ensures buf[..n'] == m'.written + m'.token && spaced' == m'.spaced
    ensures m' == Marked(m, c)
  {
    m' := Marked(m, c);
    if IsSpace(c) {
      n' := CloseToken(buf, at, n, !spaced, m.written, m.token);
      at', spaced' := n', true;
      assert m'.written + [] == m'.written;
    } else {
      buf[n] := c;
      at', n', spaced' := at, n + 1, false;
      assert buf[..n'] == buf[..n] + [c] && m.written + m.token + [c] == m.written + (m.token + [c]);
    }
  }

  /** The mark after the first `n` bytes. */
  ghost function MarkAt(text: Word, n: nat): Mark
    requires n <= |text|
  {
    if n == 0 then Mark([], [], false, false) else Marked(MarkAt(text, n - 1), text[n - 1])
  }

  lemma {:induction false} MarksWrite(text: Word, n: nat)
    requires n <= |text|
    ensures Writes(MarkAt(text, n), text[n..], Skeleton(text))
  {
    if n == 0 {
      StartsWhole(text);
    } else {
      MarksWrite(text, n - 1);
      assert text[n - 1..][0] == text[n - 1] && text[n - 1..][1..] == text[n..];
      Advance(MarkAt(text, n - 1), text[n - 1..], Skeleton(text));
    }
  }

  /** With the last token folded, the bytes written are the skeleton. */
  lemma MarksEnd(text: Word)
    ensures var m := MarkAt(text, |text|); Skeleton(text) == m.written + FoldToken(m.token)
  {
    MarksWrite(text, |text|);
    assert text[|text|..] == [];
    Ended(MarkAt(text, |text|), Skeleton(text));
  }

  /** Writes the skeleton of `text` into a buffer at least as long, folding each token where it lies. */
  method NormalizeASCII(buf: array<byte>, text: Word) returns (n: nat)
    requires buf.Length >= |text|
    modifies buf
    ensures n <= |text| && buf[..n] == Skeleton(text)
  {
    n := 0;
    var at: nat, spaced := 0, false;
    ghost var m := MarkAt(text, 0);
    for i := 0 to |text|
      invariant m == MarkAt(text, i) && at == |m.written| && n == at + |m.token| <= i && spaced == m.spaced
      invariant buf[..n] == m.written + m.token
    {
      at, n, spaced, m := Put(buf, at, n, text[i], spaced, m);
    }
    n := CloseToken(buf, at, n, false, m.written, m.token);
    MarksEnd(text);
  }
}
