/** The template language: braces around a name, a payload and a fallback, with conditionals spelled in the payload.
    Rendering streams over the text; lexing lists its tokens; the two agree. Lower-casing is the library's and comes
    in as a parameter; a substitution is a function from tokens to values, or to nothing when it does not know one. */
module Template {
  import opened Options

  datatype Token =
    | Literal(text: string)
    | Var(name: string, payload: Option<string>, fallback: string, hasFallback: bool, raw: string)

  type Lower = string -> string

  type Substitution = Token -> Option<string>

  // ---------- Searching ----------

  /** The first place from `from` on where `c` stands, or the end. */
  function Find(s: string, c: char, from: nat): (i: nat)
    requires from <= |s|
    ensures from <= i <= |s| && (i < |s| ==> s[i] == c)
    decreases |s| - from
  {
    if from == |s| || s[from] == c then from else Find(s, c, from + 1)
  }

  /** `c` does not stand in [from, upto). */
  ghost predicate Absent(s: string, c: char, from: nat, upto: nat)
    requires upto <= |s|
  {
    forall k :: from <= k < upto ==> s[k] != c
  }

  lemma {:induction false} FindIsFirst(s: string, c: char, from: nat)
    requires from <= |s|
    ensures Absent(s, c, from, Find(s, c, from))
    decreases |s| - from
  {
    if from < |s| && s[from] != c {
      FindIsFirst(s, c, from + 1);
    }
  }

  lemma {:induction false} FindIs(s: string, c: char, from: nat, i: nat)
    requires from <= i <= |s| && Absent(s, c, from, i) && (i < |s| ==> s[i] == c)
    ensures Find(s, c, from) == i
    decreases i - from
  {
    if from < i {
      FindIs(s, c, from + 1, i);
    }
  }

  /** The last place where `c` stands. */
  function FindLast(s: string, c: char): (i: Option<nat>)
    ensures i.Some? ==> i.value < |s| && s[i.value] == c
  {
    if s == [] then None
    else if s[|s| - 1] == c then Some(|s| - 1)
    else FindLast(s[..|s| - 1], c)
  }

  lemma {:induction false} FindLastIsLast(s: string, c: char)
    ensures Absent(s, c, if FindLast(s, c).Some? then FindLast(s, c).value + 1 else 0, |s|)
  {
    if s != [] && s[|s| - 1] != c {
      FindLastIsLast(s[..|s| - 1], c);
    }
  }

  /** Text before and after the first `c`, if there is one. */
  function Cut(s: string, c: char): (string, Option<string>) {
    var i := Find(s, c, 0);
    if i == |s| then (s, None) else (s[..i], Some(s[i + 1..]))
  }

  lemma CutKeepsEverything(s: string, c: char)
    ensures var (head, tail) := Cut(s, c);
      c !in head && s == head + if tail.Some? then [c] + tail.value else []
  {
    FindIsFirst(s, c, 0);
    var i := Find(s, c, 0);
    if i < |s| {
      assert s == s[..i] + [c] + s[i + 1..];
    }
  }

  // ---------- Spans ----------

  /** Text before and after the last `c`, if there is one. */
  function CutLast(s: string, c: char): (string, Option<string>) {
    var i := FindLast(s, c);
    if i.None? then (s, None) else (s[..i.value], Some(s[i.value + 1..]))
  }

  lemma CutLastKeepsEverything(s: string, c: char)
    ensures var (head, tail) := CutLast(s, c);
      && s == head + (if tail.Some? then [c] + tail.value else [])
      && (if tail.Some? then c !in tail.value else c !in head)
  {
    FindLastIsLast(s, c);
    var i := FindLast(s, c);
    if i.Some? {
      assert s == s[..i.value] + [c] + s[i.value + 1..];
    }
  }

  /** The token of a span, from its opening brace to its closing one. */
  function ParseSpan(lower: Lower, raw: string): (t: Token)
    requires |raw| >= 2
    ensures t.Var? && t.raw == raw
  {
    var (head, fallback) := CutLast(raw[1..|raw| - 1], '|');
    var (name, payload) := Cut(head, ':');
    Var(lower(name), payload, if fallback.Some? then fallback.value else "", fallback.Some?, raw)
  }

  /** The span a token was parsed from, spelled from its parts and the name as it was written. */
  function Spell(name: string, payload: Option<string>, fallback: string, hasFallback: bool): string {
    "{" + name + (if payload.Some? then ":" + payload.value else "")
      + (if hasFallback then "|" + fallback else "") + "}"
  }

  /** Nothing of a span is lost in its parts: the fallback is what follows the last bar, the name what comes before
      the first colon, and the payload everything between. */
  lemma ParseKeepsEverything(lower: Lower, raw: string) returns (name: string)
    requires |raw| >= 2 && raw[0] == '{' && raw[|raw| - 1] == '}'
    ensures var t := ParseSpan(lower, raw);
      && t.raw == raw == Spell(name, t.payload, t.fallback, t.hasFallback)
      && t.name == lower(name) && ':' !in name && '|' !in t.fallback
      && (!t.hasFallback ==> '|' !in name && (t.payload.Some? ==> '|' !in t.payload.value))
  {
    var body := raw[1..|raw| - 1];
    var (head, fallback) := CutLast(body, '|');
    var (written, payload) := Cut(head, ':');
    name := written;
    assert raw == "{" + body + "}";
    CutLastKeepsEverything(body, '|');
    CutKeepsEverything(head, ':');
    SpellParts(raw, body, head, fallback, name, payload);
    if fallback.None? {
      AbsentFromParts(head, name, payload, '|');
    }
  }

  lemma AbsentFromParts(head: string, name: string, payload: Option<string>, c: char)
    requires head == name + (if payload.Some? then ":" + payload.value else "") && c !in head
    ensures c !in name && (payload.Some? ==> c !in payload.value)
  {
    forall i | 0 <= i < |name| ensures name[i] != c {
      assert head[i] == name[i];
    }
    if payload.Some? {
      forall i | 0 <= i < |payload.value| ensures payload.value[i] != c {
        assert head[|name| + 1 + i] == payload.value[i];
      }
    }
  }

  lemma SpellParts(raw: string, body: string, head: string, fallback: Option<string>, name: string,
                   payload: Option<string>)
    requires raw == "{" + body + "}"
    requires body == head + if fallback.Some? then "|" + fallback.value else ""
    requires head == name + if payload.Some? then ":" + payload.value else ""
    ensures raw == Spell(name, payload, if fallback.Some? then fallback.value else "", fallback.Some?)
  {
    var p := if payload.Some? then ":" + payload.value else "";
    var f := if fallback.Some? then "|" + fallback.value else "";
    assert raw == "{" + name + p + f + "}";
  }

  // ---------- Conditionals ----------

  /** The parts of a text between its colons. */
  function Split(s: string): (parts: seq<string>)
    ensures |parts| >= 1
    decreases |s|
  {
    var i := Find(s, ':', 0);
    if i == |s| then [s] else [s[..i]] + Split(s[i + 1..])
  }

  function Join(parts: seq<string>): string
    requires |parts| >= 1
  {
    if |parts| == 1 then parts[0] else Join(parts[..|parts| - 1]) + ":" + parts[|parts| - 1]
  }

  lemma {:induction false} JoinFromFront(head: string, rest: seq<string>)
    requires |rest| >= 1
    ensures Join([head] + rest) == head + ":" + Join(rest)
    decreases |rest|
  {
    var all, last := [head] + rest, rest[|rest| - 1];
    if |rest| == 1 {
      assert all[..1] == [head];
    } else {
      var init := rest[..|rest| - 1];
      JoinFromFront(head, init);
      assert all[..|all| - 1] == [head] + init;
      assert head + ":" + Join(init) + ":" + last == head + ":" + (Join(init) + ":" + last);
    }
  }

  lemma {:induction false} JoinUndoesSplit(s: string)
    ensures Join(Split(s)) == s && forall p :: p in Split(s) ==> ':' !in p
    decreases |s|
  {
    var i := Find(s, ':', 0);
    FindIsFirst(s, ':', 0);
    if i < |s| {
      var head, rest := s[..i], s[i + 1..];
      JoinUndoesSplit(rest);
      JoinFromFront(head, Split(rest));
      assert s == head + ":" + rest;
    }
  }

  datatype Branches = Branches(key: string, then_: string, else_: string)

  /** A conditional's key and branches; two parts leave the second branch empty, and with more the key keeps the
      colons. */
  function CutParts(parts: seq<string>): Option<Branches>
    requires |parts| >= 1
  {
    var last := |parts| - 1;
    if last < 1 then None
    else if last == 1 then Some(Branches(parts[0], parts[1], ""))
    else Some(Branches(Join(parts[..last - 1]), parts[last - 1], parts[last]))
  }

  function CutCond(payload: string): Option<Branches> {
    CutParts(Split(payload))
  }

  lemma CutPartsKeepsEverything(parts: seq<string>)
    requires |parts| >= 2 && forall p :: p in parts ==> ':' !in p
    ensures ':' in Join(parts)
    ensures var b := CutParts(parts).value;
      && ':' !in b.then_ && ':' !in b.else_
      && (if |parts| == 2 then Join(parts) == b.key + ":" + b.then_ && b.else_ == "" && ':' !in b.key
          else Join(parts) == b.key + ":" + b.then_ + ":" + b.else_)
  {
    var last := |parts| - 1;
    assert parts[0] in parts && parts[last] in parts && parts[last - 1] in parts;
    ColonBetween(Join(parts[..last]), parts[last]);
    if last == 1 {
      TwoParts(parts);
    } else {
      ManyParts(parts);
    }
  }

  lemma TwoParts(parts: seq<string>)
    requires |parts| == 2
    ensures Join(parts) == parts[0] + ":" + parts[1]
  {
    assert parts[..1] == [parts[0]];
  }

  lemma ManyParts(parts: seq<string>)
    requires |parts| > 2
    ensures Join(parts) == Join(parts[..|parts| - 2]) + ":" + parts[|parts| - 2] + ":" + parts[|parts| - 1]
  {
    var init := parts[..|parts| - 1];
    assert init[..|parts| - 2] == parts[..|parts| - 2];
    assert Join(init) == Join(parts[..|parts| - 2]) + ":" + parts[|parts| - 2];
  }

  lemma ColonBetween(a: string, b: string)
    ensures ':' in a + ":" + b
  {
    assert (a + ":" + b)[|a|] == ':';
  }

  /** A payload is a conditional exactly when it has a colon; its branches have none, and the payload is the key and
      the branches put together again. */
  lemma CutCondKeepsEverything(payload: string)
    ensures CutCond(payload).Some? <==> ':' in payload
    ensures CutCond(payload).Some? ==>
      var b := CutCond(payload).value;
      && ':' !in b.then_ && ':' !in b.else_
      && (|| (payload == b.key + ":" + b.then_ && b.else_ == "" && ':' !in b.key)
          || payload == b.key + ":" + b.then_ + ":" + b.else_)
  {
    JoinUndoesSplit(payload);
    var parts := Split(payload);
    if |parts| >= 2 {
      CutPartsKeepsEverything(parts);
    } else {
      assert parts[0] in parts;
    }
  }

  datatype Cond = Cond(ref: Token, want: Option<string>, then_: string, else_: string)

  function RefToken(lower: Lower, key: string): Token {
    var (name, payload) := Cut(key, ':');
    Var(lower(name), payload, "", false, "")
  }

  /** The conditional a token spells, if it is named `if` and its payload has a branch. */
  function CondOf(lower: Lower, t: Token): Option<Cond> {
    if t.Literal? || t.name != "if" || t.payload.None? then None
    else
      match CutCond(t.payload.value)
      case None => None
      case Some(b) =>
        var (name, want) := Cut(b.key, '=');
        Some(Cond(RefToken(lower, name), want, b.then_, b.else_))
  }

  // ---------- Rendering ----------

  function Resolve(t: Token, val: Option<string>): string
    requires t.Var?
  {
    if val.None? then t.raw else if val.value == "" then t.fallback else val.value
  }

  function CondText(t: Token, c: Cond, val: Option<string>): string
    requires t.Var?
  {
    if val.None? then t.raw
    else if (if c.want.Some? then val.value == c.want.value else val.value != "") then c.then_
    else c.else_
  }

  lemma NoColonAfter(s: string, x: string, a: string, k: nat)
    requires s == x + ":" + a && ':' !in a && |x| < k < |s|
    ensures s[k] != ':'
  {
    assert s[k] == a[k - |x| - 1];
  }

  /** What comes before and after the last colon is determined. */
  lemma LastColonIsUnique(x: string, a: string, y: string, b: string)
    requires x + ":" + a == y + ":" + b && ':' !in a && ':' !in b
    ensures x == y && a == b
  {
    var s := x + ":" + a;
    assert s[|x|] == ':' && s[|y|] == ':';
    forall k: nat | k < |s| ensures (k > |x| ==> s[k] != ':') && (k > |y| ==> s[k] != ':') {
      if k > |x| {
        NoColonAfter(s, x, a, k);
      }
      if k > |y| {
        NoColonAfter(s, y, b, k);
      }
    }
    assert s[..|x|] == x && s[|x| + 1..] == a && s[..|y|] == y && s[|y| + 1..] == b;
  }

  /** A payload of a key and two branches has these for its parts; the key may have colons, the branches none. */
  lemma CutsTwoBranches(key: string, yes: string, no: string)
    requires ':' !in yes && ':' !in no
    ensures CutCond(key + ":" + yes + ":" + no) == Some(Branches(key, yes, no))
  {
    var payload := key + ":" + yes + ":" + no;
    ColonBetween(key + ":" + yes, no);
    CutCondKeepsEverything(payload);
    var b := CutCond(payload).value;
    if payload == b.key + ":" + b.then_ && ':' !in b.key {
      LastColonIsUnique(key + ":" + yes, no, b.key, b.then_);
      ColonBetween(key, yes);
      assert false;
    }
    LastColonIsUnique(key + ":" + yes, no, b.key + ":" + b.then_, b.else_);
    LastColonIsUnique(key, yes, b.key, b.then_);
  }

  /** With one branch there is no other text. */
  lemma CutsOneBranch(key: string, yes: string)
    requires ':' !in key && ':' !in yes
    ensures CutCond(key + ":" + yes) == Some(Branches(key, yes, ""))
  {
    var payload := key + ":" + yes;
    ColonBetween(key, yes);
    CutCondKeepsEverything(payload);
    var b := CutCond(payload).value;
    if payload == b.key + ":" + b.then_ + ":" + b.else_ {
      LastColonIsUnique(key, yes, b.key + ":" + b.then_, b.else_);
      ColonBetween(b.key, b.then_);
      assert false;
    }
    LastColonIsUnique(key, yes, b.key, b.then_);
  }

  /** The text of one token under a substitution. */
  function Text(lower: Lower, repl: Substitution, t: Token): string {
    match t
    case Literal(text) => text
    case Var(_, _, _, _, _) =>
      match CondOf(lower, t)
      case None => Resolve(t, repl(t))
      case Some(c) => CondText(t, c, repl(c.ref))
  }

  /** A conditional names a token and perhaps a value: it gives its first branch when the token has that value, or any
      value but the empty one, its second branch otherwise, and stays as it is written when the token is not known. */
  lemma ConditionalChooses(lower: Lower, repl: Substitution, t: Token, name: string, want: Option<string>, yes: string,
                           no: string)
    requires t.Var? && t.name == "if" && '=' !in name && ':' !in yes && ':' !in no
    requires t.payload == Some(name + (if want.Some? then "=" + want.value else "") + ":" + yes + ":" + no)
    ensures var val := repl(RefToken(lower, name));
      Text(lower, repl, t)
        == if val.None? then t.raw
           else if val.value == (if want.Some? then want.value else "") then (if want.Some? then yes else no)
           else (if want.Some? then no else yes)
  {
    var key := name + if want.Some? then "=" + want.value else "";
    CutsTwoBranches(key, yes, no);
    CutIs(name, '=', want);
  }

  /** And one with a single branch gives that or nothing. */
  lemma ConditionalOrNothing(lower: Lower, repl: Substitution, t: Token, name: string, yes: string)
    requires t.Var? && t.name == "if" && '=' !in name && ':' !in name && ':' !in yes
    requires t.payload == Some(name + ":" + yes)
    ensures var val := repl(RefToken(lower, name));
      Text(lower, repl, t) == if val.None? then t.raw else if val.value == "" then "" else yes
  {
    CutsOneBranch(name, yes);
    CutIs(name, '=', None);
    assert name + "" == name;
  }

  /** The token a conditional asks about is named by what comes before the first colon. */
  lemma ReferenceIs(lower: Lower, name: string, payload: Option<string>)
    requires ':' !in name
    ensures RefToken(lower, name + if payload.Some? then ":" + payload.value else "")
         == Var(lower(name), payload, "", false, "")
  {
    CutIs(name, ':', payload);
  }

  lemma CutIs(head: string, c: char, tail: Option<string>)
    requires c !in head
    ensures Cut(head + (if tail.Some? then [c] + tail.value else []), c) == (head, tail)
  {
    var s := head + if tail.Some? then [c] + tail.value else [];
    forall k | 0 <= k < |head| ensures s[k] != c {
      assert s[k] == head[k];
    }
    FindIs(s, c, 0, |head|);
    assert s[..|head|] == head;
    if tail.Some? {
      assert s[|head| + 1..] == tail.value;
    } else {
      assert s == head;
    }
  }

  /** A span with a fallback gives its value, the fallback for an empty one, and itself when it is not known. */
  lemma FallbackStandsIn(lower: Lower, repl: Substitution, name: string, fallback: string)
    requires ':' !in name && '|' !in fallback && lower(name) != "if"
    ensures var raw := "{" + name + "|" + fallback + "}";
      var val := repl(Var(lower(name), None, fallback, true, raw));
      Text(lower, repl, ParseSpan(lower, raw))
        == if val.None? then raw else if val.value == "" then fallback else val.value
  {
    var raw := "{" + name + "|" + fallback + "}";
    assert raw[1..|raw| - 1] == name + "|" + fallback;
    LastIs(name, '|', fallback);
    CutIs(name, ':', None);
    assert name + [] == name;
  }

  lemma LastIs(head: string, c: char, tail: string)
    requires c !in tail
    ensures CutLast(head + [c] + tail, c) == (head, Some(tail))
  {
    var s := head + [c] + tail;
    LastStands(s, c, |head|);
    assert s[..|head|] == head && s[|head| + 1..] == tail;
  }

  lemma {:induction false} LastStands(s: string, c: char, i: nat)
    requires i < |s| && s[i] == c && Absent(s, c, i + 1, |s|)
    ensures FindLast(s, c) == Some(i)
  {
    if i < |s| - 1 {
      LastStands(s[..|s| - 1], c, i);
    }
  }

  /** The texts of the tokens, put together. */
  function Concat(text: Token -> string, tokens: seq<Token>): string {
    if tokens == [] then "" else text(tokens[0]) + Concat(text, tokens[1..])
  }

  lemma {:induction false} ConcatInParts(text: Token -> string, a: seq<Token>, b: seq<Token>)
    ensures Concat(text, a + b) == Concat(text, a) + Concat(text, b)
  {
    if a == [] {
      assert a + b == b;
    } else {
      ConcatInParts(text, a[1..], b);
      assert (a + b)[0] == a[0] && (a + b)[1..] == a[1..] + b;
      Regrouped(text(a[0]), Concat(text, a[1..]), Concat(text, b));
    }
  }

  lemma Regrouped(a: string, b: string, c: string)
    ensures a + (b + c) == (a + b) + c
  {
  }

  function Render(lower: Lower, repl: Substitution, tokens: seq<Token>): string {
    Concat(TextOf(lower, repl), tokens)
  }

  function TextOf(lower: Lower, repl: Substitution): Token -> string {
    (t: Token) => Text(lower, repl, t)
  }

  /** The text a token stands for in the template. */
  function Source(t: Token): string {
    if t.Literal? then t.text else t.raw
  }

  // ---------- Lexing ----------

  function LiteralOf(text: string): seq<Token> {
    if text == "" then [] else [Literal(text)]
  }

  /** From `from` on, the first opening brace and the first closing one after it, if both are there. */
  function FirstSpan(s: string, from: nat): (span: Option<(nat, nat)>)
    requires from <= |s|
    ensures span.Some? ==> from <= span.value.0 < span.value.1 < |s|
  {
    var open := Find(s, '{', from);
    if open == |s| then None
    else
      var close := Find(s, '}', open + 1);
      if close == |s| then None else Some((open, close))
  }

  /** The text in [from, upto). */
  function Between(s: string, from: nat, upto: nat): (r: string)
    requires from <= upto <= |s|
    ensures |r| == upto - from
  {
    seq(upto - from, i requires 0 <= i < upto - from => s[from + i])
  }

  lemma BetweenIsSlice(s: string, from: nat, upto: nat)
    requires from <= upto <= |s|
    ensures Between(s, from, upto) == s[from..upto]
  {
  }

  lemma BetweenInParts(s: string, from: nat, mid: nat, upto: nat)
    requires from <= mid <= upto <= |s|
    ensures Between(s, from, mid) + Between(s, mid, upto) == Between(s, from, upto)
  {
  }

  /** How a span becomes a token that remembers it. */
  type Parser = string -> Token

  ghost predicate Remembers(parse: Parser) {
    forall raw: string {:trigger parse(raw)} :: parse(raw).Var? && parse(raw).raw == raw
  }

  function ParserOf(lower: Lower): Parser {
    (raw: string) => if |raw| >= 2 then ParseSpan(lower, raw) else Var("", None, "", false, raw)
  }

  /** The tokens of a text from `from` on: up to its first span, the span, and the rest. */
  function LexedFrom(parse: Parser, s: string, from: nat): seq<Token>
    requires from <= |s|
    decreases |s| - from
  {
    match FirstSpan(s, from)
    case None => LiteralOf(Between(s, from, |s|))
    case Some((open, close)) =>
      LiteralOf(Between(s, from, open)) + [parse(Between(s, open, close + 1))] + LexedFrom(parse, s, close + 1)
  }

  function Lexed(parse: Parser, s: string): seq<Token> {
    LexedFrom(parse, s, 0)
  }

  lemma Unfold(parse: Parser, s: string, from: nat, open: nat, close: nat)
    requires from <= open < close < |s| && FirstSpan(s, from) == Some((open, close))
    ensures LexedFrom(parse, s, from)
         == LiteralOf(Between(s, from, open)) + [parse(Between(s, open, close + 1))] + LexedFrom(parse, s, close + 1)
  {
  }

  lemma ConcatOfLiteral(text: Token -> string, s: string)
    requires forall t: Token {:trigger text(t)} :: t.Literal? ==> text(t) == t.text
    ensures Concat(text, LiteralOf(s)) == s
  {
    if s != "" {
      var only := [Literal(s)];
      assert Concat(text, only) == text(only[0]) + Concat(text, only[1..]);
    }
  }

  lemma ConcatOfSpan(text: Token -> string, open: string, span: Token, rest: seq<Token>)
    requires forall t: Token {:trigger text(t)} :: t.Literal? ==> text(t) == t.text
    ensures Concat(text, LiteralOf(open) + [span] + rest) == open + text(span) + Concat(text, rest)
  {
    var head := LiteralOf(open);
    ConcatInParts(text, head + [span], rest);
    ConcatInParts(text, head, [span]);
    assert Concat(text, [span]) == text(span);
    ConcatOfLiteral(text, open);
  }

  /** The tokens' own texts, put together, are the template. */
  lemma {:induction false} LexLosesNothing(parse: Parser, s: string, from: nat)
    requires Remembers(parse) && from <= |s|
    ensures Concat(Source, LexedFrom(parse, s, from)) == Between(s, from, |s|)
    decreases |s| - from
  {
    match FirstSpan(s, from)
    case None => ConcatOfLiteral(Source, Between(s, from, |s|));
    case Some((open, close)) =>
      LexLosesNothing(parse, s, close + 1);
      SourceUnfolds(parse, s, from, open, close);
      SpanBetween(s, from, open, close + 1);
      Whole(Concat(Source, LexedFrom(parse, s, from)), Between(s, from, open) + Between(s, open, close + 1),
            Concat(Source, LexedFrom(parse, s, close + 1)), Between(s, close + 1, |s|), Between(s, from, |s|));
  }

  lemma Whole(x: string, head: string, rest: string, tail: string, whole: string)
    requires x == head + rest && rest == tail && head + tail == whole
    ensures x == whole
  {
  }

  lemma SourceUnfolds(parse: Parser, s: string, from: nat, open: nat, close: nat)
    requires Remembers(parse) && from <= open < close < |s| && FirstSpan(s, from) == Some((open, close))
    ensures Concat(Source, LexedFrom(parse, s, from))
         == Between(s, from, open) + Between(s, open, close + 1) + Concat(Source, LexedFrom(parse, s, close + 1))
  {
    var raw := Between(s, open, close + 1);
    Unfold(parse, s, from, open, close);
    ConcatOfSpan(Source, Between(s, from, open), parse(raw), LexedFrom(parse, s, close + 1));
    assert Source(parse(raw)) == raw;
  }

  lemma SpanBetween(s: string, from: nat, open: nat, next: nat)
    requires from <= open <= next <= |s|
    ensures Between(s, from, open) + Between(s, open, next) + Between(s, next, |s|) == Between(s, from, |s|)
  {
    BetweenInParts(s, from, open, next);
    BetweenInParts(s, from, next, |s|);
  }

  lemma {:induction false} SameTexts(f: Token -> string, g: Token -> string, tokens: seq<Token>)
    requires forall t: Token {:trigger f(t)} {:trigger g(t)} :: f(t) == g(t)
    ensures Concat(f, tokens) == Concat(g, tokens)
  {
    if tokens != [] {
      SameTexts(f, g, tokens[1..]);
    }
  }

  /** A substitution that knows no token. */
  ghost predicate KnowsNothing(repl: Substitution) {
    forall t {:trigger repl(t)} :: repl(t).None?
  }

  lemma UnknownText(lower: Lower, repl: Substitution, t: Token)
    requires KnowsNothing(repl)
    ensures Text(lower, repl, t) == Source(t)
  {
  }

  /** Rendering with a substitution that knows nothing is the identity, on unclosed and nested braces too. */
  lemma UnknownIsIdentity(lower: Lower, repl: Substitution, s: string)
    requires KnowsNothing(repl)
    ensures Render(lower, repl, Lexed(ParserOf(lower), s)) == s
  {
    LexLosesNothing(ParserOf(lower), s, 0);
    BetweenIsSlice(s, 0, |s|);
    assert s[0..|s|] == s;
    forall t: Token ensures TextOf(lower, repl)(t) == Source(t) {
      UnknownText(lower, repl, t);
    }
    SameTexts(TextOf(lower, repl), Source, Lexed(ParserOf(lower), s));
  }

  /** A text has a span exactly when some opening brace is followed by a closing one; the first span runs from the
      first opening brace to the first closing one after it. */
  lemma FirstSpanIsFirst(s: string, from: nat)
    requires from <= |s|
    ensures match FirstSpan(s, from)
      case None => forall i, j {:trigger s[i], s[j]} :: from <= i < j < |s| ==> !(s[i] == '{' && s[j] == '}')
      case Some((open, close)) =>
        s[open] == '{' && s[close] == '}' && Absent(s, '{', from, open) && Absent(s, '}', open + 1, close)
  {
    FindIsFirst(s, '{', from);
    var open := Find(s, '{', from);
    if open < |s| {
      FindIsFirst(s, '}', open + 1);
    }
  }

  lemma NoBraceNoSpan(text: string)
    requires '{' !in text
    ensures FirstSpan(text, 0).None?
  {
    FindIs(text, '{', 0, |text|);
  }

  /** A stretch that holds no span holds none on its own either. */
  lemma NoSpanNoSpan(s: string, from: nat)
    requires from <= |s| && FirstSpan(s, from).None?
    ensures FirstSpan(Between(s, from, |s|), 0).None?
  {
    BetweenIsSlice(s, from, |s|);
    FirstSpanIsFirst(s, from);
    var text := s[from..|s|];
    FirstSpanIsFirst(text, 0);
    assert forall i :: 0 <= i < |text| ==> text[i] == s[from + i];
  }

  /** A token of a text: a literal holds no span, and ends the text or is followed by a span without an opening brace
      before it; a span runs from a brace to the first brace that closes one. */
  ghost predicate TokenOk(parse: Parser, ts: seq<Token>, k: nat)
    requires k < |ts|
  {
    match ts[k]
    case Literal(text) => text != "" && FirstSpan(text, 0).None? && (k + 1 < |ts| ==> ts[k + 1].Var? && '{' !in text)
    case Var(_, _, _, _, raw) => IsSpan(raw) && ts[k] == parse(raw)
  }

  ghost predicate IsSpan(raw: string) {
    |raw| >= 2 && raw[0] == '{' && raw[|raw| - 1] == '}' && Absent(raw, '}', 0, |raw| - 1)
  }

  lemma SpanIsSpan(s: string, open: nat, close: nat)
    requires open < close < |s| && s[open] == '{' && s[close] == '}' && Absent(s, '}', open + 1, close)
    ensures IsSpan(Between(s, open, close + 1))
  {
  }

  lemma HeadIsLiteral(s: string, from: nat, open: nat)
    requires from < open <= |s| && Absent(s, '{', from, open)
    ensures Between(s, from, open) != "" && '{' !in Between(s, from, open) && FirstSpan(Between(s, from, open), 0).None?
  {
    NoBraceNoSpan(Between(s, from, open));
  }

  lemma SpanOk(parse: Parser, head: string, raw: string, rest: seq<Token>, k: nat)
    requires Remembers(parse) && IsSpan(raw) && k <= |LiteralOf(head)|
    requires head != "" ==> '{' !in head && FirstSpan(head, 0).None?
    ensures TokenOk(parse, LiteralOf(head) + [parse(raw)] + rest, k)
  {
    var ts := LiteralOf(head) + [parse(raw)] + rest;
    if head != "" {
      assert ts[0] == Literal(head) && ts[1] == parse(raw);
    } else {
      assert ts[0] == parse(raw);
    }
  }

  lemma RestOk(parse: Parser, before: seq<Token>, rest: seq<Token>, j: nat)
    requires j < |rest| && TokenOk(parse, rest, j)
    ensures TokenOk(parse, before + rest, |before| + j)
  {
    assert (before + rest)[|before| + j] == rest[j];
    assert j + 1 < |rest| ==> (before + rest)[|before| + j + 1] == rest[j + 1];
  }

  /** Every span is found. */
  lemma {:induction false} LexFindsEverySpan(parse: Parser, s: string, from: nat, k: nat)
    requires Remembers(parse) && from <= |s| && k < |LexedFrom(parse, s, from)|
    ensures TokenOk(parse, LexedFrom(parse, s, from), k)
    decreases |s| - from
  {
    match FirstSpan(s, from)
    case None => LastTokenOk(parse, s, from, k);
    case Some((open, close)) =>
      var heads := |LiteralOf(Between(s, from, open))| + 1;
      Unfold(parse, s, from, open, close);
      if k < heads {
        FirstTokensOk(parse, s, from, open, close, k);
      } else {
        LexFindsEverySpan(parse, s, close + 1, k - heads);
        LaterTokensOk(parse, s, from, open, close, k - heads);
      }
  }

  lemma LastTokenOk(parse: Parser, s: string, from: nat, k: nat)
    requires from <= |s| && FirstSpan(s, from).None? && k < |LexedFrom(parse, s, from)|
    ensures TokenOk(parse, LexedFrom(parse, s, from), k)
  {
    LastOk(parse, s, from);
  }

  lemma FirstTokensOk(parse: Parser, s: string, from: nat, open: nat, close: nat, k: nat)
    requires Remembers(parse) && from <= open < close < |s| && FirstSpan(s, from) == Some((open, close))
    requires k <= |LiteralOf(Between(s, from, open))| && k < |LexedFrom(parse, s, from)|
    ensures TokenOk(parse, LexedFrom(parse, s, from), k)
  {
    Unfold(parse, s, from, open, close);
    FirstSpanIsFirst(s, from);
    SpanIsSpan(s, open, close);
    if from < open {
      HeadIsLiteral(s, from, open);
    }
    SpanOk(parse, Between(s, from, open), Between(s, open, close + 1), LexedFrom(parse, s, close + 1), k);
  }

  lemma LaterTokensOk(parse: Parser, s: string, from: nat, open: nat, close: nat, j: nat)
    requires from <= open < close < |s| && FirstSpan(s, from) == Some((open, close))
    requires j < |LexedFrom(parse, s, close + 1)| && TokenOk(parse, LexedFrom(parse, s, close + 1), j)
    ensures var k := |LiteralOf(Between(s, from, open))| + 1 + j;
      k < |LexedFrom(parse, s, from)| && TokenOk(parse, LexedFrom(parse, s, from), k)
  {
    Unfold(parse, s, from, open, close);
    RestOk(parse, LiteralOf(Between(s, from, open)) + [parse(Between(s, open, close + 1))],
           LexedFrom(parse, s, close + 1), j);
  }

  lemma LastOk(parse: Parser, s: string, from: nat)
    requires from <= |s| && FirstSpan(s, from).None?
    ensures Between(s, from, |s|) != "" ==> TokenOk(parse, LiteralOf(Between(s, from, |s|)), 0)
  {
    NoSpanNoSpan(s, from);
  }

  // ---------- The loops ----------

  method CloseBrace(s: string, from: nat) returns (j: nat)
    requires from <= |s|
    ensures j == Find(s, '}', from)
  {
    j := from;
    while j < |s|
      invariant from <= j <= |s| && Find(s, '}', from) == Find(s, '}', j)
    {
      if s[j] == '}' {
        return;
      }
      j := j + 1;
    }
  }

  lemma Regroup(goal: seq<Token>, a: seq<Token>, bcd: seq<Token>, b: seq<Token>, c: seq<Token>, d: seq<Token>)
    requires goal == a + bcd && bcd == b + c + d
    ensures goal == (a + b + c) + d
  {
  }

  /** What a loop over the spans has produced, and where it stands. */
  datatype Progress<T> = Progress(out: seq<T>, from: nat)

  /** What the lexing loop ends with. */
  ghost function LexRest(parse: Parser, s: string, p: Progress<Token>): Progress<Token>
    requires p.from <= |s|
    decreases |s| - p.from
  {
    match FirstSpan(s, p.from)
    case None => Progress(p.out + LiteralOf(Between(s, p.from, |s|)), |s|)
    case Some((open, close)) =>
      LexRest(parse, s, Progress(p.out + LiteralOf(Between(s, p.from, open)) + [parse(Between(s, open, close + 1))],
                                 close + 1))
  }

  lemma {:induction false} LexRestIs(parse: Parser, s: string, p: Progress<Token>)
    requires p.from <= |s|
    ensures LexRest(parse, s, p).out == p.out + LexedFrom(parse, s, p.from)
    decreases |s| - p.from
  {
    match FirstSpan(s, p.from)
    case None =>
    case Some((open, close)) =>
      var head, span := LiteralOf(Between(s, p.from, open)), [parse(Between(s, open, close + 1))];
      var rest := LexedFrom(parse, s, close + 1);
      LexRestIs(parse, s, Progress(p.out + head + span, close + 1));
      Unfold(parse, s, p.from, open, close);
      Regroup(p.out + LexedFrom(parse, s, p.from), p.out, LexedFrom(parse, s, p.from), head, span, rest);
  }

  /** Steps over the bytes before the next opening brace. */
  method SkipPlain(s: string, from: nat) returns (i: nat)
    requires from <= |s|
    ensures i == Find(s, '{', from)
  {
    i := from;
    while i < |s| && s[i] != '{'
      invariant from <= i <= |s| && Find(s, '{', from) == Find(s, '{', i)
    {
      i := i + 1;
    }
  }

  /** Lists the literal before the next span and the span; without one it lists nothing. */
  method LexSpan(parse: Parser, s: string, done: seq<Token>, from: nat) returns (out: seq<Token>, next: Option<nat>)
    requires from <= |s|
    ensures match next
      case None => out == done && FirstSpan(s, from).None?
      case Some(n) => from < n <= |s| && LexRest(parse, s, Progress(out, n)) == LexRest(parse, s, Progress(done, from))
  {
    var i := SkipPlain(s, from);
    if i == |s| {
      return done, None;
    }
    var end := CloseBrace(s, i + 1);
    if end == |s| {
      return done, None;
    }
    out, next := done + LiteralOf(Between(s, from, i)) + [parse(Between(s, i, end + 1))], Some(end + 1);
    LexStep(parse, s, Progress(done, from), Progress(out, end + 1), i, end);
  }

  lemma LexStep(parse: Parser, s: string, p: Progress<Token>, q: Progress<Token>, open: nat, close: nat)
    requires p.from <= open < close < |s| && FirstSpan(s, p.from) == Some((open, close))
    requires q == Progress(p.out + LiteralOf(Between(s, p.from, open)) + [parse(Between(s, open, close + 1))],
                           close + 1)
    ensures LexRest(parse, s, p) == LexRest(parse, s, q)
  {
  }

  /** The lexing loop, for any parser of spans. */
  method LexWith(parse: Parser, s: string) returns (out: seq<Token>)
    ensures out == Lexed(parse, s)
  {
    ghost var goal := LexRest(parse, s, Progress([], 0));
    LexRestIs(parse, s, Progress([], 0));
    out := [];
    var from: nat := 0;
    while from < |s|
      invariant from <= |s|
      invariant LexRest(parse, s, Progress(out, from)) == goal
      decreases |s| - from
    {
      var next: Option<nat>;
      out, next := LexSpan(parse, s, out, from);
      if next.None? {
        break;
      }
      from := next.value;
    }
    out := out + LiteralOf(Between(s, from, |s|));
  }

  method Lex(lower: Lower, s: string) returns (out: seq<Token>)
    ensures out == Lexed(ParserOf(lower), s)
  {
    out := LexWith(ParserOf(lower), s);
  }

  /** What the rendering loop ends with. */
  ghost function RenderRest(parse: Parser, text: Token -> string, s: string, p: Progress<char>): Progress<char>
    requires p.from <= |s|
    decreases |s| - p.from
  {
    match FirstSpan(s, p.from)
    case None => Progress(p.out + Between(s, p.from, |s|), |s|)
    case Some((open, close)) =>
      RenderRest(parse, text, s,
                 Progress(p.out + Between(s, p.from, open) + text(parse(Between(s, open, close + 1))), close + 1))
  }

  lemma {:induction false} RenderRestIs(parse: Parser, text: Token -> string, s: string, p: Progress<char>)
    requires forall t: Token {:trigger text(t)} :: t.Literal? ==> text(t) == t.text
    requires p.from <= |s|
    ensures RenderRest(parse, text, s, p).out == p.out + Concat(text, LexedFrom(parse, s, p.from))
    decreases |s| - p.from
  {
    match FirstSpan(s, p.from)
    case None => ConcatOfLiteral(text, Between(s, p.from, |s|));
    case Some((open, close)) =>
      var head, span := Between(s, p.from, open), parse(Between(s, open, close + 1));
      var rest := LexedFrom(parse, s, close + 1);
      RenderRestIs(parse, text, s, Progress(p.out + head + text(span), close + 1));
      Unfold(parse, s, p.from, open, close);
      ConcatOfSpan(text, head, span, rest);
      Compose(RenderRest(parse, text, s, p).out, p.out, head, text(span), Concat(text, rest),
              Concat(text, LexedFrom(parse, s, p.from)));
  }

  lemma Compose(r: string, a: string, b: string, c: string, d: string, bcd: string)
    requires r == (a + b + c) + d && bcd == b + c + d
    ensures r == a + bcd
  {
  }

  /** Copies the bytes before the next opening brace. */
  method CopyPlain(dst: string, s: string, from: nat) returns (out: string, i: nat)
    requires from <= |s|
    ensures i == Find(s, '{', from) && out == dst + Between(s, from, i)
  {
    i := SkipPlain(s, from);
    out := CopyBytes(dst, s, from, i);
  }

  method CopyBytes(dst: string, s: string, from: nat, upto: nat) returns (out: string)
    requires from <= upto <= |s|
    ensures out == dst + Between(s, from, upto)
  {
    out := dst;
    for i := from to upto
      invariant out == dst + Between(s, from, i)
    {
      OneMore(dst, s, from, i);
      out := out + [s[i]];
    }
  }

  lemma OneMore(done: string, s: string, from: nat, i: nat)
    requires from <= i < |s|
    ensures done + Between(s, from, i + 1) == done + Between(s, from, i) + [s[i]]
  {
    BetweenInParts(s, from, i, i + 1);
    assert Between(s, i, i + 1) == [s[i]];
  }

  lemma RenderStep(parse: Parser, text: Token -> string, s: string, p: Progress<char>, q: Progress<char>, open: nat,
                   close: nat)
    requires p.from <= open < close < |s| && FirstSpan(s, p.from) == Some((open, close))
    requires q == Progress(p.out + Between(s, p.from, open) + text(parse(Between(s, open, close + 1))), close + 1)
    ensures RenderRest(parse, text, s, p) == RenderRest(parse, text, s, q)
  {
  }

  lemma RenderEnd(parse: Parser, text: Token -> string, s: string, done: string, from: nat, i: nat)
    requires from <= i <= |s| && FirstSpan(s, from).None?
    ensures RenderRest(parse, text, s, Progress(done, from)).out == done + Between(s, from, i) + Between(s, i, |s|)
  {
    AllTheRest(done, s, from, i);
  }

  /** Copies plain bytes and renders the span after them; without one, what is left is copied and nothing follows. */
  method AppendSpan(parse: Parser, text: Token -> string, dst: string, s: string, from: nat) returns (out: string,
                    next: Option<nat>)
    requires from <= |s|
    ensures match next
      case None => RenderRest(parse, text, s, Progress(dst, from)).out == out
      case Some(n) =>
        && from < n <= |s|
        && RenderRest(parse, text, s, Progress(out, n)) == RenderRest(parse, text, s, Progress(dst, from))
  {
    var i: nat;
    out, i := CopyPlain(dst, s, from);
    if i == |s| {
      return out, None;
    }
    var end := CloseBrace(s, i + 1);
    if end == |s| {
      RenderEnd(parse, text, s, dst, from, i);
      return out + Between(s, i, |s|), None;
    }
    out, next := out + text(parse(Between(s, i, end + 1))), Some(end + 1);
    RenderStep(parse, text, s, Progress(dst, from), Progress(out, end + 1), i, end);
  }

  /** The rendering loop, for any parser of spans and any text of tokens. */
  method AppendWith(parse: Parser, text: Token -> string, dst: string, s: string) returns (out: string)
    requires forall t: Token {:trigger text(t)} :: t.Literal? ==> text(t) == t.text
    ensures out == dst + Concat(text, Lexed(parse, s))
  {
    RenderRestIs(parse, text, s, Progress(dst, 0));
    out := dst;
    var next: Option<nat> := Some(0);
    while next.Some?
      invariant next.Some? ==> next.value <= |s|
      invariant next.Some? ==>
        RenderRest(parse, text, s, Progress(out, next.value)) == RenderRest(parse, text, s, Progress(dst, 0))
      invariant next.None? ==> out == RenderRest(parse, text, s, Progress(dst, 0)).out
      decreases if next.Some? then |s| + 1 - next.value else 0
    {
      out, next := AppendSpan(parse, text, out, s, next.value);
    }
  }

  lemma AllTheRest(done: string, s: string, from: nat, i: nat)
    requires from <= i <= |s|
    ensures done + Between(s, from, |s|) == done + Between(s, from, i) + Between(s, i, |s|)
  {
    BetweenInParts(s, from, i, |s|);
  }

  /** Renders the text as it goes, without listing tokens: the same text as rendering what `Lex` lists. */
  method Append(lower: Lower, dst: string, s: string, repl: Substitution) returns (out: string)
    ensures out == dst + Render(lower, repl, Lexed(ParserOf(lower), s))
  {
    out := AppendWith(ParserOf(lower), TextOf(lower, repl), dst, s);
  }

  lemma EmptyTemplate(lower: Lower, repl: Substitution)
    ensures Render(lower, repl, Lexed(ParserOf(lower), "")) == ""
  {
    assert LiteralOf(Between("", 0, 0)) == [];
  }

  /** Expanding with a substitution that knows nothing returns the template. */
  method Expand(lower: Lower, s: string, repl: Substitution) returns (out: string)
    ensures out == Render(lower, repl, Lexed(ParserOf(lower), s))
    ensures KnowsNothing(repl) ==> out == s
  {
    if KnowsNothing(repl) {
      UnknownIsIdentity(lower, repl, s);
    }
    if s == "" {
      EmptyTemplate(lower, repl);
      return "";
    }
    out := Append(lower, "", s, repl);
  }
}
