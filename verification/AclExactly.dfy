/** How the text of a fragment reads: lines, fields and kinds, put together the other way round. */
module AclExactly {
  import opened Sifting
  import opened AclList

  // ----- lines -----

  /** A line break: the pair of CR and LF, or any other break character by itself. */
  predicate IsEnd(end: string) { end == "\r\n" || (|end| == 1 && IsBreak(end[0])) }

  /** A line, its end, and what follows; a CR is not an end of its own ahead of an LF. */
  ghost predicate StartsWith(text: string, line: string, end: string, rest: string) {
    text == line + end + rest && Unbroken(line) && IsEnd(end) && !(end == "\r" && rest != "" && rest[0] == '\n')
  }

  /** Lines with their ends, the last one with or without. */
  ghost predicate Reads(text: string, lines: seq<string>)
    decreases |lines|
  {
    if lines == [] then text == ""
    else (lines == [text] && text != "" && Unbroken(text)) || exists end, rest :: StartsWith(text, lines[0], end, rest) && Reads(rest, lines[1..])
  }

  lemma {:induction false} LinesExactly(text: string)
    ensures Reads(text, SplitLines(text))
    decreases |text|
  {
    if text != "" {
      var i := FirstBreak(text);
      if i < |text| {
        var skip := if text[i] == '\r' && i + 1 < |text| && text[i + 1] == '\n' then 2 else 1;
        LinesExactly(text[i + skip..]);
        FirstLine(text, i, skip);
        var lines := SplitLines(text);
        assert lines[0] == text[..i] && lines[1..] == SplitLines(text[i + skip..]);
      } else {
        assert Unbroken(text);
      }
    }
  }

  lemma FirstLine(text: string, i: nat, skip: nat)
    requires i < |text| && i == FirstBreak(text) && i + skip <= |text|
    requires skip == if text[i] == '\r' && i + 1 < |text| && text[i + 1] == '\n' then 2 else 1
    ensures StartsWith(text, text[..i], text[i..i + skip], text[i + skip..])
  {
    PrefixUnbroken(text, i);
    EndAt(text, i, skip);
  }

  lemma PrefixUnbroken(text: string, i: nat)
    requires i <= |text| && i <= FirstBreak(text)
    ensures Unbroken(text[..i])
  {
    forall c | c in text[..i] ensures !IsBreak(c) { var j :| 0 <= j < i && text[j] == c; }
  }

  lemma EndAt(text: string, i: nat, skip: nat)
    requires i < |text| && IsBreak(text[i]) && i + skip <= |text|
    requires skip == if text[i] == '\r' && i + 1 < |text| && text[i + 1] == '\n' then 2 else 1
    ensures var end, rest := text[i..i + skip], text[i + skip..];
            text == text[..i] + end + rest && IsEnd(end) && !(end == "\r" && rest != "" && rest[0] == '\n')
  {
    var end, rest := text[i..i + skip], text[i + skip..];
    if skip == 2 {
      assert end == [text[i], text[i + 1]];
    } else {
      assert end == [text[i]];
      if rest != "" { assert rest[0] == text[i + 1]; }
    }
  }

  // ----- padding -----

  ghost predicate Blank(s: string) { forall i :: 0 <= i < |s| ==> IsSpace(s[i]) }

  /** The core with blanks around it, itself without any at its ends. */
  ghost predicate Padded(raw: string, core: string) {
    Trimmed(core) && exists i, j :: 0 <= i <= j <= |raw| && Blank(raw[..i]) && Blank(raw[j..]) && raw[i..j] == core
  }

  lemma {:induction false} LeftExactly(s: string) returns (i: nat)
    ensures i <= |s| && TrimLeft(s) == s[i..] && Blank(s[..i])
  {
    if s != "" && IsSpace(s[0]) {
      var k := LeftExactly(s[1..]);
      i := k + 1;
      assert s[1..][k..] == s[i..];
      forall j | 0 <= j < i ensures IsSpace(s[..i][j]) { if j > 0 { assert s[..i][j] == s[1..][..k][j - 1]; } }
    } else {
      i := 0;
    }
  }

  lemma {:induction false} RightExactly(s: string) returns (j: nat)
    ensures j <= |s| && TrimRight(s) == s[..j] && Blank(s[j..])
  {
    if s != "" && IsSpace(s[|s| - 1]) {
      var n := |s| - 1;
      j := RightExactly(s[..n]);
      assert s[..n][..j] == s[..j];
      forall k | 0 <= k < |s| - j ensures IsSpace(s[j..][k]) { if k < n - j { assert s[j..][k] == s[..n][j..][k]; } }
    } else {
      j := |s|;
    }
  }

  lemma BlankTail(s: string)
    requires Blank(s) && s != ""
    ensures Blank(s[1..])
  {
    var tail := s[1..];
    forall i | 0 <= i < |tail| ensures IsSpace(tail[i]) { assert tail[i] == s[i + 1]; }
  }

  lemma {:induction false} BlankLeft(s: string, i: nat)
    requires i <= |s| && Blank(s[..i])
    ensures TrimLeft(s) == TrimLeft(s[i..])
  {
    if i > 0 {
      assert s[..i][0] == s[0];
      BlankTail(s[..i]);
      assert s[..i][1..] == s[1..][..i - 1];
      BlankLeft(s[1..], i - 1);
      assert s[1..][i - 1..] == s[i..];
    } else {
      assert s[0..] == s;
    }
  }

  lemma {:induction false} BlankRight(s: string, j: nat)
    requires j <= |s| && Blank(s[j..])
    ensures TrimRight(s) == TrimRight(s[..j])
    decreases |s|
  {
    if j < |s| {
      var n := |s| - 1;
      assert s[j..][n - j] == s[n];
      forall k | 0 <= k < n - j ensures IsSpace(s[..n][j..][k]) { assert s[..n][j..][k] == s[j..][k]; }
      BlankRight(s[..n], j);
      assert s[..n][..j] == s[..j];
    } else {
      assert s[..j] == s;
    }
  }

  /** Stripping finds exactly the core. */
  lemma TrimExactly(raw: string, core: string)
    ensures Trim(raw) == core <==> Padded(raw, core)
  {
    TrimMeaning(raw);
    var i := LeftExactly(raw);
    var j := RightExactly(raw[i..]);
    assert raw[i..][..j] == raw[i..i + j] && raw[i..][j..] == raw[i + j..];
    assert Padded(raw, Trim(raw));
    if Padded(raw, core) {
      var a, b :| 0 <= a <= b <= |raw| && Blank(raw[..a]) && Blank(raw[b..]) && raw[a..b] == core;
      TrimsTo(raw, a, b);
    }
  }

  lemma TrimsTo(raw: string, a: nat, b: nat)
    requires a <= b <= |raw| && Blank(raw[..a]) && Blank(raw[b..]) && Trimmed(raw[a..b])
    ensures Trim(raw) == raw[a..b]
  {
    BlankLeft(raw, a);
    var s := raw[a..];
    assert s[..b - a] == raw[a..b] && s[b - a..] == raw[b..];
    if raw[a..b] == "" {
      AllBlank(s);
    } else {
      assert s[0] == raw[a..b][0];
      assert TrimLeft(s) == s;
      BlankRight(s, b - a);
    }
  }

  lemma {:induction false} AllBlank(s: string)
    requires Blank(s)
    ensures TrimLeft(s) == ""
  {
    if s != "" {
      BlankTail(s);
      AllBlank(s[1..]);
    }
  }

  // ----- fields -----

  predicate CommaFree(s: string) { forall i :: 0 <= i < |s| ==> s[i] != ',' }

  /** The line is the comma-separated parts, each a field with blanks around it. */
  ghost predicate FieldsOf(line: string, fields: seq<string>) {
    exists parts: seq<string> :: Separates(parts, line) && |parts| == |fields| && forall i :: 0 <= i < |fields| ==> Padded(parts[i], fields[i])
  }

  ghost predicate Separates(parts: seq<string>, line: string) {
    parts != [] && line == JoinCommas(parts) && forall i :: 0 <= i < |parts| ==> CommaFree(parts[i])
  }

  lemma {:induction false} SplitJoins(s: string)
    ensures Separates(SplitCommas(s), s)
  {
    if s != "" {
      SplitJoins(s[1..]);
      var rest, parts := SplitCommas(s[1..]), SplitCommas(s);
      if s[0] == ',' {
        assert parts[1..] == rest;
      } else {
        assert parts[1..] == rest[1..];
        Pushed(s[0], rest);
      }
    }
  }

  lemma Pushed(c: char, rest: seq<string>)
    requires rest != []
    ensures JoinCommas([[c] + rest[0]] + rest[1..]) == [c] + JoinCommas(rest)
  {
    var parts := [[c] + rest[0]] + rest[1..];
    assert parts[1..] == rest[1..];
    if |rest| > 1 { assert [c] + rest[0] + ("," + JoinCommas(rest[1..])) == [c] + (rest[0] + ("," + JoinCommas(rest[1..]))); }
  }

  lemma {:induction false} JoinSplits(parts: seq<string>)
    requires parts != [] && forall i :: 0 <= i < |parts| ==> CommaFree(parts[i])
    ensures SplitCommas(JoinCommas(parts)) == parts
  {
    if |parts| == 1 {
      SplitNone(parts[0]);
    } else {
      JoinSplits(parts[1..]);
      SplitFirst(parts[0], JoinCommas(parts[1..]));
      assert parts == [parts[0]] + parts[1..];
    }
  }

  lemma {:induction false} SplitNone(s: string)
    requires CommaFree(s)
    ensures SplitCommas(s) == [s]
  {
    if s != "" {
      SplitNone(s[1..]);
      assert s == [s[0]] + s[1..];
    }
  }

  lemma {:induction false} SplitFirst(first: string, rest: string)
    requires CommaFree(first)
    ensures SplitCommas(first + ("," + rest)) == [first] + SplitCommas(rest)
  {
    var s := first + ("," + rest);
    if first == "" {
      assert s[1..] == rest;
    } else {
      assert s[1..] == first[1..] + ("," + rest);
      SplitFirst(first[1..], rest);
      assert first == [first[0]] + first[1..];
    }
  }

  /** Splitting and stripping finds exactly the fields. */
  lemma PartsExactly(line: string, fields: seq<string>)
    ensures Parts(line) == fields <==> FieldsOf(line, fields)
  {
    var raw := SplitCommas(line);
    SplitJoins(line);
    if Parts(line) == fields {
      forall i | 0 <= i < |fields| ensures Padded(raw[i], fields[i]) { TrimExactly(raw[i], fields[i]); }
    }
    if FieldsOf(line, fields) {
      var parts: seq<string> :| Separates(parts, line) && |parts| == |fields| && forall i :: 0 <= i < |fields| ==> Padded(parts[i], fields[i]);
      JoinSplits(parts);
      forall i | 0 <= i < |fields| ensures Trim(parts[i]) == fields[i] { TrimExactly(parts[i], fields[i]); }
    }
  }

  // ----- kinds -----

  predicate IsSupported(kind: string) {
    kind in {"DOMAIN", "DOMAIN-SUFFIX", "DOMAIN-KEYWORD", "DOMAIN-REGEX", "IP-CIDR", "IP-CIDR6", "SRC-IP-CIDR", "DST-PORT", "SRC-PORT",
             "PROCESS-NAME", "PROCESS-PATH", "NETWORK"}
  }

  predicate IsRemark(line: string) { line == "" || line[0] == '#' || line[0] == ';' }

  /** A kind in any case, a value, and any number of no-resolve options. */
  ghost predicate IsShaped(line: string, r: Rule, upper: string -> string) {
    && !IsRemark(line) && r.value != "" && (forall i :: 0 <= i < |r.value| ==> r.value[i] != '\r' && r.value[i] != '\n')
    && (forall i :: 0 <= i < |r.options| ==> r.options[i] == "no-resolve")
    && exists first :: upper(first) == r.kind && FieldsOf(line, [first, r.value] + r.options)
  }

  ghost predicate IsRule(line: string, r: Rule, upper: string -> string) { IsSupported(r.kind) && IsShaped(line, r, upper) }

  ghost predicate IsLegacy(line: string, upper: string -> string) {
    !IsRemark(line) && exists fields :: FieldsOf(line, fields) && |fields| >= 2 && upper(fields[0]) in {"URL-REGEX", "USER-AGENT"}
  }

  lemma SupportedExactly(kind: string)
    ensures kind in SUPPORTED <==> IsSupported(kind)
    ensures kind in LEGACY <==> kind in {"URL-REGEX", "USER-AGENT"}
  {
    assert SUPPORTED[0] == "DOMAIN" && SUPPORTED[1] == "DOMAIN-SUFFIX" && SUPPORTED[2] == "DOMAIN-KEYWORD" && SUPPORTED[3] == "DOMAIN-REGEX";
    assert SUPPORTED[4] == "IP-CIDR" && SUPPORTED[5] == "IP-CIDR6" && SUPPORTED[6] == "SRC-IP-CIDR" && SUPPORTED[7] == "DST-PORT";
    assert SUPPORTED[8] == "SRC-PORT" && SUPPORTED[9] == "PROCESS-NAME" && SUPPORTED[10] == "PROCESS-PATH" && SUPPORTED[11] == "NETWORK";
    assert LEGACY[0] == "URL-REGEX" && LEGACY[1] == "USER-AGENT";
  }

  lemma LegacyIsNotSupported(kind: string)
    ensures kind in LEGACY ==> kind !in SUPPORTED
  {
    SupportedExactly(kind);
    if kind in LEGACY { LegacyHead(kind); }
  }

  lemma LegacyHead(kind: string)
    requires kind in {"URL-REGEX", "USER-AGENT"}
    ensures !IsSupported(kind)
  {
    assert kind[0] == 'U';
  }

  /** How one line is read. */
  lemma ClassifyExactly(raw: string, line: string, upper: string -> string)
    requires Padded(raw, line)
    ensures Classify(raw, upper).Comment? <==> IsRemark(line)
    ensures Classify(raw, upper).Legacy? <==> IsLegacy(line, upper)
    ensures Classify(raw, upper).Legacy? ==> Classify(raw, upper).text == line
    ensures forall r :: Classify(raw, upper) == Accepted(r) <==> IsRule(line, r, upper)
  {
    TrimExactly(raw, line);
    LegacyLine(raw, line, upper);
    forall r ensures Classify(raw, upper) == Accepted(r) <==> IsRule(line, r, upper) {
      SupportedExactly(r.kind);
      LegacyIsNotSupported(r.kind);
      RuleExactly(raw, line, upper, r);
    }
  }

  lemma LegacyLine(raw: string, line: string, upper: string -> string)
    requires Trim(raw) == line
    ensures Classify(raw, upper).Comment? <==> IsRemark(line)
    ensures Classify(raw, upper).Legacy? <==> IsLegacy(line, upper)
    ensures Classify(raw, upper).Legacy? ==> Classify(raw, upper).text == line
  {
    LegacyKinds(raw, line, upper);
    LegacyFields(line, upper);
  }

  lemma LegacyKinds(raw: string, line: string, upper: string -> string)
    requires Trim(raw) == line
    ensures Classify(raw, upper).Comment? <==> IsRemark(line)
    ensures Classify(raw, upper).Legacy? <==> !IsRemark(line) && |Parts(line)| >= 2 && upper(Parts(line)[0]) in LEGACY
    ensures Classify(raw, upper).Legacy? ==> Classify(raw, upper).text == line
  {
  }

  lemma LegacyFields(line: string, upper: string -> string)
    ensures IsLegacy(line, upper) <==> !IsRemark(line) && |Parts(line)| >= 2 && upper(Parts(line)[0]) in LEGACY
  {
    var parts := Parts(line);
    PartsExactly(line, parts);
    if |parts| >= 2 { SupportedExactly(upper(parts[0])); }
    if IsLegacy(line, upper) {
      var fields :| FieldsOf(line, fields) && |fields| >= 2 && upper(fields[0]) in {"URL-REGEX", "USER-AGENT"};
      PartsExactly(line, fields);
    }
  }

  lemma RuleExactly(raw: string, line: string, upper: string -> string, r: Rule)
    requires Trim(raw) == line && (r.kind in LEGACY ==> r.kind !in SUPPORTED)
    ensures Classify(raw, upper) == Accepted(r) <==> r.kind in SUPPORTED && IsShaped(line, r, upper)
  {
    if Classify(raw, upper) == Accepted(r) {
      PartsExactly(line, Parts(line));
      AcceptedParts(raw, line, upper, r, Parts(line));
      PartsShape(line, r, upper, Parts(line));
    }
    if r.kind in SUPPORTED && IsShaped(line, r, upper) {
      var first :| upper(first) == r.kind && FieldsOf(line, [first, r.value] + r.options);
      PartsExactly(line, [first, r.value] + r.options);
      ShapedIsAccepted(raw, line, upper, r, first);
    }
  }

  lemma AcceptedParts(raw: string, line: string, upper: string -> string, r: Rule, parts: seq<string>)
    requires Trim(raw) == line && parts == Parts(line) && Classify(raw, upper) == Accepted(r)
    ensures |parts| >= 2 && r == Rule(upper(parts[0]), parts[1], parts[2..]) && !IsRemark(line) && r.kind in SUPPORTED
    ensures r.value != "" && '\r' !in r.value && '\n' !in r.value && forall o :: o in r.options ==> o == NO_RESOLVE
  {
  }

  lemma PartsShape(line: string, r: Rule, upper: string -> string, parts: seq<string>)
    requires FieldsOf(line, parts) && |parts| >= 2 && r == Rule(upper(parts[0]), parts[1], parts[2..]) && !IsRemark(line)
    requires r.value != "" && '\r' !in r.value && '\n' !in r.value && forall o :: o in r.options ==> o == NO_RESOLVE
    ensures IsShaped(line, r, upper)
  {
    assert parts == [parts[0], r.value] + r.options;
    forall i | 0 <= i < |r.options| ensures r.options[i] == "no-resolve" { assert r.options[i] in r.options; }
    forall i | 0 <= i < |r.value| ensures r.value[i] != '\r' && r.value[i] != '\n' { assert r.value[i] in r.value; }
  }

  lemma ShapedIsAccepted(raw: string, line: string, upper: string -> string, r: Rule, first: string)
    requires Trim(raw) == line && r.kind in SUPPORTED && r.kind !in LEGACY && IsShaped(line, r, upper)
    requires upper(first) == r.kind && Parts(line) == [first, r.value] + r.options
    ensures Classify(raw, upper) == Accepted(r)
  {
    var parts := Parts(line);
    assert parts[0] == first && parts[1] == r.value && parts[2..] == r.options;
    assert '\r' !in r.value && '\n' !in r.value;
    assert forall o :: o in r.options ==> o == NO_RESOLVE;
  }

  // ----- the whole text -----

  function Read(lines: seq<string>, upper: string -> string): seq<Line> { seq(|lines|, i requires 0 <= i < |lines| => Classify(lines[i], upper)) }

  function RuleOf(line: Line): Rule { if line.Accepted? then line.rule else Rule("", "", []) }

  function TextOf(line: Line): string { if line.Legacy? then line.text else "" }

  ghost predicate Lists<T(!new)>(kept: seq<Line>, of: Line -> T, r: seq<T>) { |r| == |kept| && forall i :: 0 <= i < |r| ==> r[i] == of(kept[i]) }

  lemma ReadSnoc(lines: seq<string>, upper: string -> string)
    requires lines != []
    ensures Read(lines, upper) == Read(lines[..|lines| - 1], upper) + [Classify(lines[|lines| - 1], upper)]
  {
  }

  lemma Added(p: Parsed, line: Line)
    requires Add(p, line).Ok?
    ensures Add(p, line).value.rules == p.rules + if line.Accepted? then [line.rule] else []
    ensures Add(p, line).value.legacy == p.legacy + if line.Legacy? then [line.text] else []
  {
  }

  lemma ParseSnoc(lines: seq<string>, upper: string -> string, line: Line)
    requires lines != [] && ParseLines(lines, upper).Ok? && line == Classify(lines[|lines| - 1], upper)
    ensures ParseLines(lines[..|lines| - 1], upper).Ok?
    ensures ParseLines(lines, upper) == Add(ParseLines(lines[..|lines| - 1], upper).value, line)
  {
  }

  lemma ListsSnoc<T(!new)>(kept: seq<Line>, of: Line -> T, r: seq<T>, line: Line)
    requires Lists(kept, of, r)
    ensures Lists(kept + [line], of, r + [of(line)])
  {
  }

  /** The rules of the accepted lines, in order. */
  lemma {:induction false} RulesExactly(lines: seq<string>, upper: string -> string) returns (kept: seq<Line>)
    requires ParseLines(lines, upper).Ok?
    ensures Sifted(Read(lines, upper), (l: Line) => l.Accepted?, kept) && Lists(kept, RuleOf, ParseLines(lines, upper).value.rules)
  {
    if lines == [] {
      kept := [];
      SiftedEmpty((l: Line) => l.Accepted?);
    } else {
      var k := |lines| - 1;
      kept := RulesExactly(lines[..k], upper);
      ReadSnoc(lines, upper);
      SiftedSnoc(Read(lines[..k], upper), Classify(lines[k], upper), (l: Line) => l.Accepted?, kept);
      ParseSnoc(lines, upper, Classify(lines[k], upper));
      Added(ParseLines(lines[..k], upper).value, Classify(lines[k], upper));
      if Classify(lines[k], upper).Accepted? {
        ListsSnoc(kept, RuleOf, ParseLines(lines[..k], upper).value.rules, Classify(lines[k], upper));
        kept := kept + [Classify(lines[k], upper)];
      }
    }
  }

  /** The texts of the legacy lines, in order. */
  lemma {:induction false} LegacyExactly(lines: seq<string>, upper: string -> string) returns (kept: seq<Line>)
    requires ParseLines(lines, upper).Ok?
    ensures Sifted(Read(lines, upper), (l: Line) => l.Legacy?, kept) && Lists(kept, TextOf, ParseLines(lines, upper).value.legacy)
  {
    if lines == [] {
      kept := [];
      SiftedEmpty((l: Line) => l.Legacy?);
    } else {
      var k := |lines| - 1;
      kept := LegacyExactly(lines[..k], upper);
      ReadSnoc(lines, upper);
      SiftedSnoc(Read(lines[..k], upper), Classify(lines[k], upper), (l: Line) => l.Legacy?, kept);
      ParseSnoc(lines, upper, Classify(lines[k], upper));
      Added(ParseLines(lines[..k], upper).value, Classify(lines[k], upper));
      if Classify(lines[k], upper).Legacy? {
        ListsSnoc(kept, TextOf, ParseLines(lines[..k], upper).value.legacy, Classify(lines[k], upper));
        kept := kept + [Classify(lines[k], upper)];
      }
    }
  }

  /** A line that is no remark, no legacy rule and no rule fails the parse. */
  lemma {:induction false} BadFails(lines: seq<string>, upper: string -> string)
    ensures ParseLines(lines, upper).Raised? <==> exists l :: l in Read(lines, upper) && l.Bad?
  {
    if lines != [] {
      var k := |lines| - 1;
      ReadSnoc(lines, upper);
      BadFails(lines[..k], upper);
    }
  }
}
