/**
 The node filter written into a group: an anchored alternation of quoted runtime names.
 Its meaning is given by parsing the text as a regular expression and matching it.
 */
module ExactFilter {
  import opened Ordering
  import opened Results

  const META: set<char> := {'\\', '.', '+', '*', '?', '(', ')', '|', '[', ']', '{', '}', '^', '$'}

  /** Puts a backslash before every metacharacter. */
  function Quote(name: string): (q: string)
    ensures |q| >= |name|
  {
    if name == "" then ""
    else (if name[0] in META then ['\\', name[0]] else [name[0]]) + Quote(name[1..])
  }

  function JoinQuoted(names: seq<string>): string
    requires names != []
  {
    if |names| == 1 then Quote(names[0]) else Quote(names[0]) + "|" + JoinQuoted(names[1..])
  }

  /** The filter text for a set of names; an empty set raises. */
  function Text(names: set<string>): (r: Result<string>)
    ensures r.Ok? <==> names != {}
  {
    if names == {} then Raised("filter cannot be empty")
    else Ok("^(" + JoinQuoted(Sorted(names)) + ")$")
  }

  // ----- regular expressions: syntax, parser, matching -----

  lemma TextNonempty(names: set<string>)
    requires names != {}
    ensures Text(names).value != ""
  {
    assert Text(names).value[0] == '^';
  }

  datatype Regex = Empty | LineStart | LineEnd | Char(c: char) | Seq(first: Regex, rest: Regex) | Alt(left: Regex, right: Regex)

  /** `Outside` is any text that leaves the fragment: quantifiers, classes, class escapes, unbalanced groups. */
  datatype Parsed = Parsed(re: Regex, rest: string) | Outside

  function ParseAlternation(s: string): (p: Parsed)
    ensures p.Parsed? ==> |p.rest| <= |s|
    decreases |s|, 2
  {
    var left := ParseSequence(s);
    if left.Parsed? && left.rest != "" && left.rest[0] == '|' then
      var right := ParseAlternation(left.rest[1..]);
      if right.Parsed? then Parsed(Alt(left.re, right.re), right.rest) else Outside
    else left
  }

  function ParseSequence(s: string): (p: Parsed)
    ensures p.Parsed? ==> |p.rest| <= |s|
    decreases |s|, 1
  {
    if s == "" || s[0] == '|' || s[0] == ')' then Parsed(Empty, s)
    else
      var atom := ParseAtom(s);
      if atom.Outside? then Outside
      else
        var tail := ParseSequence(atom.rest);
        if tail.Parsed? then Parsed(Seq(atom.re, tail.re), tail.rest) else Outside
  }

  function ParseAtom(s: string): (p: Parsed)
    requires s != ""
    ensures p.Parsed? ==> |p.rest| < |s|
    decreases |s|, 0
  {
    if s[0] == '^' then Parsed(LineStart, s[1..])
    else if s[0] == '$' then Parsed(LineEnd, s[1..])
    else if s[0] == '\\' then
      if |s| > 1 && s[1] in META then Parsed(Char(s[1]), s[2..]) else Outside
    else if s[0] == '(' then
      var inner := ParseAlternation(s[1..]);
      if inner.Parsed? && inner.rest != "" && inner.rest[0] == ')' then Parsed(inner.re, inner.rest[1..]) else Outside
    else if s[0] in META then Outside
    else Parsed(Char(s[0]), s[1..])
  }

  function Parse(pattern: string): Option<Regex> {
    var p := ParseAlternation(pattern);
    if p.Parsed? && p.rest == "" then Some(p.re) else None
  }

  /**
   Where `$` holds. RE2, the parser the filters are written for, accepts it only at the end of the
   text; Python's `re` also accepts it just before a final newline.
   */
  datatype Dialect = Re2 | Python

  predicate Matches(re: Regex, s: string, i: nat, j: nat, dialect: Dialect)
    requires i <= |s|
    decreases re
  {
    match re
    case Empty => i == j
    case LineStart => i == j == 0
    case LineEnd => i == j && (i == |s| || (dialect == Python && i + 1 == |s| && s[i] == '\n'))
    case Char(c) => i < |s| && s[i] == c && j == i + 1
    case Seq(first, rest) => exists k: nat :: k <= |s| && Matches(first, s, i, k, dialect) && Matches(rest, s, k, j, dialect)
    case Alt(left, right) => Matches(left, s, i, j, dialect) || Matches(right, s, i, j, dialect)
  }

  /** `search`: the pattern matches somewhere in the text. */
  predicate SearchIn(dialect: Dialect, pattern: string, s: string) {
    var re := Parse(pattern);
    re.Some? && exists i: nat, j: nat :: i <= |s| && j <= |s| && Matches(re.value, s, i, j, dialect)
  }

  /** `fullmatch`: the pattern matches the whole text. */
  predicate FullMatch(dialect: Dialect, pattern: string, s: string) {
    var re := Parse(pattern);
    re.Some? && Matches(re.value, s, 0, |s|, dialect)
  }

  // ----- the parse of a filter text -----

  ghost function Literal(name: string): Regex {
    if name == "" then Empty else Seq(Char(name[0]), Literal(name[1..]))
  }

  ghost function AnyOf(names: seq<string>): Regex
    requires names != []
  {
    if |names| == 1 then Literal(names[0]) else Alt(Literal(names[0]), AnyOf(names[1..]))
  }

  ghost function Anchored(re: Regex): Regex { Seq(LineStart, Seq(re, Seq(LineEnd, Empty))) }

  lemma {:induction false} ParseQuoted(name: string, rest: string)
    requires rest == "" || rest[0] == '|' || rest[0] == ')'
    ensures ParseSequence(Quote(name) + rest) == Parsed(Literal(name), rest)
  {
    var s := Quote(name) + rest;
    if name == "" {
      assert s == rest;
    } else {
      ParseQuoted(name[1..], rest);
      if name[0] in META {
        assert s[2..] == Quote(name[1..]) + rest;
      } else {
        assert s[1..] == Quote(name[1..]) + rest;
      }
    }
  }

  lemma JoinedCons(names: seq<string>, rest: string)
    requires |names| > 1
    ensures JoinQuoted(names) + rest == Quote(names[0]) + ("|" + (JoinQuoted(names[1..]) + rest))
    ensures AnyOf(names) == Alt(Literal(names[0]), AnyOf(names[1..]))
  {
    ThreeParts(Quote(names[0]), "|", JoinQuoted(names[1..]), rest);
  }

  lemma ThreeParts(a: string, b: string, c: string, d: string)
    ensures a + b + c + d == a + (b + (c + d))
  {
  }

  lemma {:induction false} ParseJoined(names: seq<string>, rest: string)
    requires names != [] && rest != "" && rest[0] == ')'
    ensures ParseAlternation(JoinQuoted(names) + rest) == Parsed(AnyOf(names), rest)
  {
    if |names| == 1 {
      ParseQuoted(names[0], rest);
      LastBranch(Quote(names[0]) + rest, Literal(names[0]), rest);
    } else {
      ParseJoined(names[1..], rest);
      JoinedCons(names, rest);
      FirstOfMore(names[0], JoinQuoted(names[1..]) + rest, AnyOf(names[1..]), rest);
    }
  }

  lemma FirstOfMore(name: string, tail: string, right: Regex, rest: string)
    requires ParseAlternation(tail) == Parsed(right, rest)
    ensures ParseAlternation(Quote(name) + ("|" + tail)) == Parsed(Alt(Literal(name), right), rest)
  {
    ParseQuoted(name, "|" + tail);
    MoreBranches(Quote(name) + ("|" + tail), Literal(name), tail, right, rest);
  }

  lemma LastBranch(s: string, re: Regex, rest: string)
    requires ParseSequence(s) == Parsed(re, rest) && rest != "" && rest[0] == ')'
    ensures ParseAlternation(s) == Parsed(re, rest)
  {
  }

  lemma MoreBranches(s: string, re: Regex, tail: string, right: Regex, rest: string)
    requires ParseSequence(s) == Parsed(re, "|" + tail) && ParseAlternation(tail) == Parsed(right, rest)
    ensures ParseAlternation(s) == Parsed(Alt(re, right), rest)
  {
    assert ("|" + tail)[1..] == tail;
  }

  /** What follows the leading `^`: one group, then the end anchor. */
  lemma ParseGroup(body: string, re: Regex)
    requires ParseAlternation(body + ")$") == Parsed(re, ")$")
    ensures ParseSequence("(" + body + ")$") == Parsed(Seq(re, Seq(LineEnd, Empty)), "")
  {
    var s := "(" + body + ")$";
    assert s[1..] == body + ")$";
    assert ")$"[1..] == "$";
    assert ParseAtom(s) == Parsed(re, "$");
    assert "$"[1..] == "";
    assert ParseSequence("") == Parsed(Empty, "");
    assert ParseAtom("$") == Parsed(LineEnd, "");
    assert ParseSequence("$") == Parsed(Seq(LineEnd, Empty), "");
  }

  lemma ParseText(names: set<string>)
    requires names != {}
    ensures Parse(Text(names).value) == Some(Anchored(AnyOf(Sorted(names))))
  {
    var ns := Sorted(names);
    var body := JoinQuoted(ns);
    var text := Text(names).value;
    assert text == "^(" + body + ")$";
    assert text[1..] == "(" + body + ")$";
    ParseJoined(ns, ")$");
    ParseGroup(body, AnyOf(ns));
    assert ParseAtom(text) == Parsed(LineStart, text[1..]);
    assert ParseSequence(text) == Parsed(Anchored(AnyOf(ns)), "");
  }

  // ----- what it matches -----

  lemma {:induction false} MatchesLiteral(name: string, s: string, i: nat, j: nat, dialect: Dialect)
    requires i <= |s|
    ensures Matches(Literal(name), s, i, j, dialect) <==> i + |name| == j <= |s| && s[i..j] == name
  {
    if name != "" {
      var tail := name[1..];
      if i < |s| {
        MatchesLiteral(tail, s, i + 1, j, dialect);
        if s[i] == name[0] && Matches(Literal(tail), s, i + 1, j, dialect) {
          assert Matches(Char(name[0]), s, i, i + 1, dialect);
          assert s[i..j] == [s[i]] + s[i + 1..j] && name == [name[0]] + tail;
        }
        if i + |name| == j <= |s| && s[i..j] == name {
          assert s[i] == s[i..j][0];
          assert s[i + 1..j] == s[i..j][1..];
          assert Matches(Char(name[0]), s, i, i + 1, dialect);
        }
      }
    }
  }

  lemma {:induction false} MatchesAnyOf(names: seq<string>, s: string, i: nat, j: nat, dialect: Dialect)
    requires names != [] && i <= |s|
    ensures Matches(AnyOf(names), s, i, j, dialect) <==> i <= j <= |s| && s[i..j] in names
  {
    MatchesLiteral(names[0], s, i, j, dialect);
    if |names| > 1 { MatchesAnyOf(names[1..], s, i, j, dialect); }
  }

  lemma MatchesSequence(first: Regex, rest: Regex, s: string, i: nat, j: nat, dialect: Dialect) returns (k: nat)
    requires i <= |s| && Matches(Seq(first, rest), s, i, j, dialect)
    ensures k <= |s| && Matches(first, s, i, k, dialect) && Matches(rest, s, k, j, dialect)
  {
    k :| k <= |s| && Matches(first, s, i, k, dialect) && Matches(rest, s, k, j, dialect);
  }

  /** Where the end anchor holds, spelled out. */
  ghost predicate AtEnd(s: string, j: nat, dialect: Dialect) {
    j == |s| || (dialect == Python && j + 1 == |s| && s[j] == '\n')
  }

  lemma AnchoredFinds(names: seq<string>, s: string, j: nat, dialect: Dialect)
    requires names != [] && j <= |s| && s[..j] in names && AtEnd(s, j, dialect)
    ensures Matches(Anchored(AnyOf(names)), s, 0, j, dialect)
  {
    var re, tail := AnyOf(names), Seq(LineEnd, Empty);
    MatchesAnyOf(names, s, 0, j, dialect);
    assert s[0..j] == s[..j];
    assert Matches(LineEnd, s, j, j, dialect) && Matches(Empty, s, j, j, dialect);
    assert Matches(tail, s, j, j, dialect);
    assert Matches(Seq(re, tail), s, 0, j, dialect);
    assert Matches(LineStart, s, 0, 0, dialect);
  }

  lemma AnchoredOnly(names: seq<string>, s: string, i: nat, j: nat, dialect: Dialect)
    requires names != [] && i <= |s| && Matches(Anchored(AnyOf(names)), s, i, j, dialect)
    ensures i == 0 && j <= |s| && s[..j] in names && AtEnd(s, j, dialect)
  {
    var re, tail := AnyOf(names), Seq(LineEnd, Empty);
    var start := MatchesSequence(LineStart, Seq(re, tail), s, i, j, dialect);
    var k := MatchesSequence(re, tail, s, start, j, dialect);
    var e := MatchesSequence(LineEnd, Empty, s, k, j, dialect);
    MatchesAnyOf(names, s, 0, k, dialect);
    assert s[0..k] == s[..k];
  }

  /** Searching with the filter text accepts exactly the given names, for the dialect it is written for. */
  lemma SearchExact(names: set<string>, s: string)
    requires names != {}
    ensures SearchIn(Re2, Text(names).value, s) <==> s in names
  {
    ParseText(names);
    var ns := Sorted(names);
    assert s[..|s|] == s;
    if s in names { AnchoredFinds(ns, s, |s|, Re2); }
    forall i: nat, j: nat | i <= |s| && Matches(Anchored(AnyOf(ns)), s, i, j, Re2) ensures s in names {
      AnchoredOnly(ns, s, i, j, Re2);
    }
  }

  /** A full match accepts exactly the given names in either dialect. */
  lemma FullMatchExact(names: set<string>, s: string, dialect: Dialect)
    requires names != {}
    ensures FullMatch(dialect, Text(names).value, s) <==> s in names
  {
    ParseText(names);
    var ns := Sorted(names);
    assert s[..|s|] == s;
    if s in names { AnchoredFinds(ns, s, |s|, dialect); }
    if Matches(Anchored(AnyOf(ns)), s, 0, |s|, dialect) { AnchoredOnly(ns, s, 0, |s|, dialect); }
  }

  /** A name of the set, optionally followed by one newline. */
  ghost predicate NameOrNameLine(names: set<string>, s: string) {
    s in names || (s != "" && s[|s| - 1] == '\n' && s[..|s| - 1] in names)
  }

  /** Python's `search`, as the leaf expansion of the runtime graph uses it, also accepts a name followed by one newline. */
  lemma PythonSearch(names: set<string>, s: string)
    requires names != {}
    ensures SearchIn(Python, Text(names).value, s) <==> NameOrNameLine(names, s)
  {
    ParseText(names);
    var ns := Sorted(names);
    assert s[..|s|] == s;
    if s in names {
      AnchoredFinds(ns, s, |s|, Python);
    } else if NameOrNameLine(names, s) {
      AnchoredFinds(ns, s, |s| - 1, Python);
    }
    forall i: nat, j: nat | i <= |s| && Matches(Anchored(AnyOf(ns)), s, i, j, Python)
      ensures NameOrNameLine(names, s)
    {
      AnchoredOnly(ns, s, i, j, Python);
    }
  }

  /** Another node of the payload is called like one of the names, with a newline after it. */
  ghost predicate NameLineIn(names: set<string>, payload: set<string>) {
    exists s :: s in payload && s !in names && s != "" && s[|s| - 1] == '\n' && s[..|s| - 1] in names
  }

  /** Python's `search` selects exactly the names from a payload if and only if no other node is a name and a newline. */
  lemma PythonSearchExactly(names: set<string>, payload: set<string>)
    requires names != {}
    ensures (forall s :: s in payload ==> (SearchIn(Python, Text(names).value, s) <==> s in names)) <==> !NameLineIn(names, payload)
  {
    forall s ensures SearchIn(Python, Text(names).value, s) <==> NameOrNameLine(names, s) { PythonSearch(names, s); }
    if s :| s in payload && s !in names && s != "" && s[|s| - 1] == '\n' && s[..|s| - 1] in names {
      assert SearchIn(Python, Text(names).value, s);
    }
  }

  /** Different sets of names get different texts. */
  lemma TextInjective(a: set<string>, b: set<string>)
    requires a != {} && b != {} && Text(a) == Text(b)
    ensures a == b
  {
    forall s ensures s in a <==> s in b {
      SearchExact(a, s);
      SearchExact(b, s);
    }
  }
}
