/** ACL4SSR rule fragments: their lines, the rules on them, and the text they render back to. */
module AclList {
  import opened Results
  import opened Ordering

  /** Where `str.splitlines` ends a line. */
  predicate IsBreak(c: char) {
    var n := c as int;
    10 <= n <= 13 || 28 <= n <= 30 || n == 0x85 || n == 0x2028 || n == 0x2029
  }

  /** What `str.strip` removes. */
  predicate IsSpace(c: char) {
    var n := c as int;
    9 <= n <= 13 || 28 <= n <= 32 || n == 0x85 || n == 0xA0 || n == 0x1680 || 0x2000 <= n <= 0x200A
    || n == 0x2028 || n == 0x2029 || n == 0x202F || n == 0x205F || n == 0x3000
  }

  // ----- lines, trimming, commas -----

  function FirstBreak(s: string): (i: nat)
    ensures i <= |s| && (i < |s| ==> IsBreak(s[i])) && forall j :: 0 <= j < i ==> !IsBreak(s[j])
  {
    if s == "" || IsBreak(s[0]) then 0 else 1 + FirstBreak(s[1..])
  }

  /** Lines without their ends; a carriage return and line feed end one line. */
  function SplitLines(s: string): seq<string> {
    if s == "" then []
    else
      var i := FirstBreak(s);
      if i == |s| then [s]
      else
        var skip := if s[i] == '\r' && i + 1 < |s| && s[i + 1] == '\n' then 2 else 1;
        [s[..i]] + SplitLines(s[i + skip..])
  }

  function TrimLeft(s: string): string { if s != "" && IsSpace(s[0]) then TrimLeft(s[1..]) else s }

  function TrimRight(s: string): string { if s != "" && IsSpace(s[|s| - 1]) then TrimRight(s[..|s| - 1]) else s }

  function Trim(s: string): string { TrimRight(TrimLeft(s)) }

  predicate Trimmed(s: string) { s == "" || (!IsSpace(s[0]) && !IsSpace(s[|s| - 1])) }

  function SplitCommas(s: string): (r: seq<string>)
    ensures |r| >= 1
  {
    if s == "" then [""]
    else
      var rest := SplitCommas(s[1..]);
      if s[0] == ',' then [""] + rest else [[s[0]] + rest[0]] + rest[1..]
  }

  function JoinCommas(parts: seq<string>): string {
    if parts == [] then "" else if |parts| == 1 then parts[0] else parts[0] + ("," + JoinCommas(parts[1..]))
  }

  // ----- rules -----

  const SUPPORTED: seq<string> := ["DOMAIN", "DOMAIN-SUFFIX", "DOMAIN-KEYWORD", "DOMAIN-REGEX", "IP-CIDR", "IP-CIDR6",
                                   "SRC-IP-CIDR", "DST-PORT", "SRC-PORT", "PROCESS-NAME", "PROCESS-PATH", "NETWORK"]
  const LEGACY: seq<string> := ["URL-REGEX", "USER-AGENT"]
  const NO_RESOLVE := "no-resolve"

  datatype Rule = Rule(kind: string, value: string, options: seq<string>)

  function Render(r: Rule): string { JoinCommas([r.kind, r.value] + r.options) }

  datatype Line = Comment | Legacy(text: string) | Accepted(rule: Rule) | Bad(reason: string)

  function Parts(line: string): (r: seq<string>)
    ensures |r| >= 1
  {
    var raw := SplitCommas(line);
    seq(|raw|, i requires 0 <= i < |raw| => Trim(raw[i]))
  }

  /** The single reading of one line. */
  function Classify(raw: string, upper: string -> string): Line {
    var line := Trim(raw);
    if line == "" || line[0] == '#' || line[0] == ';' then Comment
    else
      var parts := Parts(line);
      if |parts| < 2 then Bad("invalid rule")
      else
        var kind := upper(parts[0]);
        if kind in LEGACY then Legacy(line)
        else if kind !in SUPPORTED then Bad("unsupported rule type")
        else if parts[1] == "" || '\r' in parts[1] || '\n' in parts[1] then Bad("invalid value")
        else if exists o :: o in parts[2..] && o != NO_RESOLVE then Bad("unsupported options")
        else Accepted(Rule(kind, parts[1], parts[2..]))
  }

  datatype Parsed = Parsed(rules: seq<Rule>, legacy: seq<string>)

  function Add(p: Parsed, line: Line): Result<Parsed> {
    match line
    case Comment => Ok(p)
    case Legacy(text) => Ok(p.(legacy := p.legacy + [text]))
    case Accepted(rule) => Ok(p.(rules := p.rules + [rule]))
    case Bad(reason) => Raised(reason)
  }

  function ParseLines(lines: seq<string>, upper: string -> string): Result<Parsed> {
    if lines == [] then Ok(Parsed([], []))
    else
      var k := |lines| - 1;
      var init := ParseLines(lines[..k], upper);
      if init.Raised? then init else Add(init.value, Classify(lines[k], upper))
  }

  lemma ParseStep(lines: seq<string>, k: nat, upper: string -> string)
    requires k < |lines| && ParseLines(lines[..k], upper).Ok?
    ensures ParseLines(lines[..k + 1], upper) == Add(ParseLines(lines[..k], upper).value, Classify(lines[k], upper))
  {
    TakeStep(lines, k);
  }

  function Parse(text: string, upper: string -> string): Result<Parsed> {
    var p := ParseLines(SplitLines(text), upper);
    if p.Ok? && p.value.rules == [] then Raised("contains no supported rules") else p
  }

  lemma {:induction false} PrefixRaises(lines: seq<string>, upper: string -> string, n: nat)
    requires n <= |lines| && ParseLines(lines[..n], upper).Raised?
    ensures ParseLines(lines, upper).Raised?
  {
    if n < |lines| {
      assert lines[..|lines| - 1][..n] == lines[..n];
      PrefixRaises(lines[..|lines| - 1], upper, n);
    } else {
      assert lines[..n] == lines;
    }
  }

  method ParseList(text: string, upper: string -> string) returns (r: Result<Parsed>)
    ensures r.Ok? <==> Parse(text, upper).Ok?
    ensures r.Ok? ==> r == Parse(text, upper) && r.value.rules != []
  {
    var lines := SplitLines(text);
    var rules: seq<Rule>, legacy: seq<string> := [], [];
    assert lines[..0] == [];
    for k := 0 to |lines|
      invariant ParseLines(lines[..k], upper) == Ok(Parsed(rules, legacy))
    {
      ParseStep(lines, k, upper);
      var line := Classify(lines[k], upper);
      match line {
        case Comment =>
        case Legacy(text) => legacy := legacy + [text];
        case Accepted(rule) => rules := rules + [rule];
        case Bad(reason) =>
          PrefixRaises(lines, upper, k + 1);
          return Raised(reason);
      }
    }
    assert lines[..|lines|] == lines;
    if rules == [] { return Raised("contains no supported rules"); }
    return Ok(Parsed(rules, legacy));
  }

  // ----- what an accepted text holds -----

  /** The places of the lines of one kind. */
  ghost function Count(lines: seq<string>, upper: string -> string, p: Line -> bool): nat {
    if lines == [] then 0 else Count(lines[..|lines| - 1], upper, p) + if p(Classify(lines[|lines| - 1], upper)) then 1 else 0
  }

  /** Every line of an accepted text is a comment, a legacy rule or a rule, and the last two are counted exactly. */
  lemma {:induction false} LinesAccountedFor(lines: seq<string>, upper: string -> string)
    requires ParseLines(lines, upper).Ok?
    ensures Count(lines, upper, (l: Line) => l.Comment?) + |ParseLines(lines, upper).value.legacy| + |ParseLines(lines, upper).value.rules| == |lines|
    ensures Count(lines, upper, (l: Line) => l.Bad?) == 0
  {
    if lines != [] { LinesAccountedFor(lines[..|lines| - 1], upper); }
  }

  /** What the parser lets through: a known kind, a trimmed one-line value without commas, known options. */
  ghost predicate Sound(r: Rule) {
    && r.kind in SUPPORTED && r.value != "" && Trimmed(r.value) && (forall c :: c in r.value ==> c != ',' && !IsBreak(c))
    && forall o :: o in r.options ==> o == NO_RESOLVE
  }

  ghost predicate Unbroken(s: string) { forall c :: c in s ==> !IsBreak(c) }

  lemma {:induction false} LinesUnbroken(s: string)
    ensures forall line :: line in SplitLines(s) ==> Unbroken(line)
  {
    if s != "" {
      var i := FirstBreak(s);
      if i < |s| {
        var skip := if s[i] == '\r' && i + 1 < |s| && s[i + 1] == '\n' then 2 else 1;
        LinesUnbroken(s[i + skip..]);
      }
    }
  }

  lemma {:induction false} TrimLeftMeaning(s: string)
    ensures forall c :: c in TrimLeft(s) ==> c in s
    ensures TrimLeft(s) == "" || !IsSpace(TrimLeft(s)[0])
  {
    if s != "" && IsSpace(s[0]) { TrimLeftMeaning(s[1..]); }
  }

  lemma {:induction false} TrimRightMeaning(s: string)
    ensures TrimRight(s) <= s
    ensures TrimRight(s) == "" || !IsSpace(TrimRight(s)[|TrimRight(s)| - 1])
  {
    if s != "" && IsSpace(s[|s| - 1]) { TrimRightMeaning(s[..|s| - 1]); }
  }

  lemma TrimMeaning(s: string)
    ensures Trimmed(Trim(s)) && forall c :: c in Trim(s) ==> c in s
  {
    TrimLeftMeaning(s);
    TrimRightMeaning(TrimLeft(s));
  }

  lemma TrimKeeps(s: string)
    requires Trimmed(s)
    ensures Trim(s) == s
  {
  }

  lemma {:induction false} SplitMeaning(s: string)
    ensures forall p, c :: p in SplitCommas(s) && c in p ==> c in s && c != ','
  {
    if s != "" {
      SplitMeaning(s[1..]);
      var rest := SplitCommas(s[1..]);
      assert rest[0] in rest && s == [s[0]] + s[1..];
    }
  }

  lemma PartsMeaning(line: string, p: string)
    requires p in Parts(line)
    ensures Trimmed(p) && forall c :: c in p ==> c in line && c != ','
  {
    var raw := SplitCommas(line);
    SplitMeaning(line);
    var i :| 0 <= i < |raw| && Parts(line)[i] == p;
    TrimMeaning(raw[i]);
    assert raw[i] in raw;
  }

  lemma AcceptedIsSound(raw: string, upper: string -> string)
    requires Unbroken(raw) && Classify(raw, upper).Accepted?
    ensures Sound(Classify(raw, upper).rule)
  {
    var line := Trim(raw);
    TrimMeaning(raw);
    var parts := Parts(line);
    assert parts[1] in parts;
    PartsMeaning(line, parts[1]);
  }

  lemma {:induction false} ParsedIsSound(lines: seq<string>, upper: string -> string)
    requires (forall l :: l in lines ==> Unbroken(l)) && ParseLines(lines, upper).Ok?
    ensures forall r :: r in ParseLines(lines, upper).value.rules ==> Sound(r)
  {
    if lines != [] {
      var k := |lines| - 1;
      assert lines[k] in lines && forall l :: l in lines[..k] ==> l in lines;
      ParsedIsSound(lines[..k], upper);
      if Classify(lines[k], upper).Accepted? { AcceptedIsSound(lines[k], upper); }
    }
  }

  // ----- rendering and reading back -----

  /** Upper-casing leaves the known kinds alone. */
  ghost predicate KeepsKinds(upper: string -> string) { forall k :: k in SUPPORTED ==> upper(k) == k }

  ghost predicate Plain(s: string) { s != "" && forall c :: c in s ==> 'A' <= c <= 'Z' || '0' <= c <= '9' || c == '-' || 'a' <= c <= 'z' }

  lemma PlainFirst()
    ensures Plain("DOMAIN") && Plain("DOMAIN-SUFFIX") && Plain("DOMAIN-KEYWORD") && Plain("DOMAIN-REGEX")
  {
  }

  lemma PlainSecond()
    ensures Plain("IP-CIDR") && Plain("IP-CIDR6") && Plain("SRC-IP-CIDR") && Plain("DST-PORT") && Plain("SRC-PORT")
  {
  }

  lemma PlainThird()
    ensures Plain("PROCESS-NAME") && Plain("PROCESS-PATH") && Plain("NETWORK") && Plain("no-resolve")
  {
  }

  lemma PlainKinds()
    ensures (forall k :: k in SUPPORTED ==> Plain(k)) && Plain(NO_RESOLVE)
  {
    PlainFirst();
    PlainSecond();
    PlainThird();
  }

  lemma KindNotLegacy()
    ensures forall k :: k in SUPPORTED ==> k !in LEGACY
  {
    assert LEGACY[0][0] == 'U' && LEGACY[1][0] == 'U';
  }

  lemma PlainIsSafe(s: string)
    requires Plain(s)
    ensures Trimmed(s) && Unbroken(s) && forall c :: c in s ==> c != ',' && c != '#' && c != ';'
  {
    assert s[0] in s && s[|s| - 1] in s;
  }

  ghost predicate NoComma(s: string) { forall c :: c in s ==> c != ',' }

  lemma NoCommaTail(s: string)
    requires NoComma(s) && s != ""
    ensures s[0] != ',' && NoComma(s[1..])
  {
    assert s[0] in s && forall c :: c in s[1..] ==> c in s;
  }

  lemma {:induction false} SplitOne(s: string)
    requires NoComma(s)
    ensures SplitCommas(s) == [s]
  {
    if s != "" {
      NoCommaTail(s);
      SplitOne(s[1..]);
      assert s == [s[0]] + s[1..];
    }
  }

  lemma {:induction false} SplitAhead(s: string, rest: string)
    requires NoComma(s)
    ensures SplitCommas(s + ("," + rest)) == [s] + SplitCommas(rest)
  {
    if s == "" {
      assert ("" + ("," + rest))[1..] == rest;
    } else {
      var all := s + ("," + rest);
      NoCommaTail(s);
      assert all[0] == s[0] && all[1..] == s[1..] + ("," + rest);
      SplitAhead(s[1..], rest);
      assert s == [s[0]] + s[1..];
    }
  }

  lemma {:induction false} SplitJoined(parts: seq<string>)
    requires parts != [] && forall p :: p in parts ==> NoComma(p)
    ensures SplitCommas(JoinCommas(parts)) == parts
  {
    assert parts[0] in parts;
    if |parts| == 1 {
      SplitOne(parts[0]);
    } else {
      assert forall p :: p in parts[1..] ==> p in parts;
      SplitJoined(parts[1..]);
      SplitAhead(parts[0], JoinCommas(parts[1..]));
      assert parts == [parts[0]] + parts[1..];
    }
  }

  /** Fields as the renderer writes them: no comma, no line end, nothing to trim. */
  ghost predicate Field(s: string) { Trimmed(s) && Unbroken(s) && NoComma(s) }

  function Fields(r: Rule): seq<string> { [r.kind, r.value] + r.options }

  lemma SoundFields(r: Rule)
    requires Sound(r)
    ensures forall p :: p in Fields(r) ==> Field(p)
    ensures r.kind != "" && r.kind[0] != '#' && r.kind[0] != ';' && !IsSpace(r.kind[0])
    ensures Trimmed(Fields(r)[|Fields(r)| - 1]) && Fields(r)[|Fields(r)| - 1] != ""
  {
    PlainKinds();
    PlainIsSafe(r.kind);
    PlainIsSafe(NO_RESOLVE);
    assert r.kind[0] in r.kind;
    forall p | p in Fields(r) ensures Field(p) && p != "" {
      if p in r.options { assert p == NO_RESOLVE; }
    }
    assert Fields(r)[|Fields(r)| - 1] in Fields(r);
  }

  lemma JoinedShape(parts: seq<string>)
    requires parts != [] && (forall p :: p in parts ==> Field(p)) && parts[0] != "" && parts[|parts| - 1] != ""
    ensures Unbroken(JoinCommas(parts)) && JoinCommas(parts) != "" && JoinCommas(parts)[0] == parts[0][0]
    ensures !IsSpace(JoinCommas(parts)[|JoinCommas(parts)| - 1])
  {
    JoinedTail(parts);
  }

  lemma {:induction false} JoinedTail(parts: seq<string>)
    requires parts != [] && (forall p :: p in parts ==> Field(p)) && parts[|parts| - 1] != ""
    ensures Unbroken(JoinCommas(parts)) && JoinCommas(parts) != "" && !IsSpace(JoinCommas(parts)[|JoinCommas(parts)| - 1])
    decreases |parts|
  {
    assert parts[0] in parts;
    if |parts| > 1 {
      var rest := parts[1..];
      assert forall p :: p in rest ==> p in parts;
      assert rest[|rest| - 1] == parts[|parts| - 1];
      JoinedTail(rest);
      var tail := JoinCommas(rest);
      var all := JoinCommas(parts);
      assert all == parts[0] + ("," + tail) && all[|all| - 1] == ("," + tail)[|tail|];
      forall c | c in all ensures !IsBreak(c) { assert c in parts[0] || c == ',' || c in tail; }
    }
  }

  lemma FieldsReadBack(parts: seq<string>)
    requires parts != [] && forall p :: p in parts ==> Field(p)
    ensures Parts(JoinCommas(parts)) == parts
  {
    SplitJoined(parts);
    forall i | 0 <= i < |parts| ensures Trim(parts[i]) == parts[i] {
      assert parts[i] in parts;
      TrimKeeps(parts[i]);
    }
  }

  /** A rendered rule reads back as itself. */
  lemma RuleReadsBack(r: Rule, upper: string -> string)
    requires Sound(r) && KeepsKinds(upper)
    ensures Classify(Render(r), upper) == Accepted(r) && Unbroken(Render(r))
  {
    SoundFields(r);
    JoinedShape(Fields(r));
    TrimKeeps(Render(r));
    FieldsReadBack(Fields(r));
    KindNotLegacy();
    ValueIsClean(r);
    assert Fields(r)[2..] == r.options;
  }

  lemma ValueIsClean(r: Rule)
    requires Sound(r)
    ensures '\r' !in r.value && '\n' !in r.value && !(exists o :: o in r.options && o != NO_RESOLVE)
  {
    assert IsBreak('\r') && IsBreak('\n');
  }

  /** Every rule on a line of its own. */
  function RenderText(rules: seq<Rule>): string {
    if rules == [] then "" else Render(rules[0]) + ("\n" + RenderText(rules[1..]))
  }

  lemma {:induction false} FirstBreakAt(line: string, rest: string)
    requires Unbroken(line)
    ensures FirstBreak(line + ("\n" + rest)) == |line|
  {
    var all := line + ("\n" + rest);
    if line != "" {
      assert line[0] in line && all[1..] == line[1..] + ("\n" + rest);
      assert forall c :: c in line[1..] ==> c in line;
      FirstBreakAt(line[1..], rest);
    }
  }

  lemma SplitLine(line: string, rest: string)
    requires Unbroken(line)
    ensures SplitLines(line + ("\n" + rest)) == [line] + SplitLines(rest)
  {
    var all := line + ("\n" + rest);
    FirstBreakAt(line, rest);
    assert all[..|line|] == line && all[|line|] == '\n' && all[|line| + 1..] == rest;
  }

  function RenderedLines(rules: seq<Rule>): seq<string> { seq(|rules|, i requires 0 <= i < |rules| => Render(rules[i])) }

  lemma {:induction false} TextLines(rules: seq<Rule>, upper: string -> string)
    requires KeepsKinds(upper) && forall r :: r in rules ==> Sound(r)
    ensures SplitLines(RenderText(rules)) == RenderedLines(rules)
  {
    if rules != [] {
      assert rules[0] in rules && forall r :: r in rules[1..] ==> r in rules;
      RuleReadsBack(rules[0], upper);
      TextLines(rules[1..], upper);
      SplitLine(Render(rules[0]), RenderText(rules[1..]));
      assert RenderedLines(rules) == [Render(rules[0])] + RenderedLines(rules[1..]);
    }
  }

  lemma RenderedStep(rules: seq<Rule>)
    requires rules != []
    ensures var k := |rules| - 1;
            RenderedLines(rules)[..k] == RenderedLines(rules[..k]) && RenderedLines(rules)[k] == Render(rules[k]) && rules == rules[..k] + [rules[k]]
  {
  }

  lemma {:induction false} LinesReadBack(rules: seq<Rule>, upper: string -> string)
    requires KeepsKinds(upper) && forall r :: r in rules ==> Sound(r)
    ensures ParseLines(RenderedLines(rules), upper) == Ok(Parsed(rules, []))
  {
    if rules != [] {
      var k := |rules| - 1;
      RenderedStep(rules);
      assert rules[k] in rules && forall r :: r in rules[..k] ==> r in rules;
      LinesReadBack(rules[..k], upper);
      RuleReadsBack(rules[k], upper);
    }
  }

  /** Rendering what was parsed and parsing it again gives the same rules and no legacy lines. */
  lemma RoundTrip(text: string, upper: string -> string)
    requires KeepsKinds(upper) && Parse(text, upper).Ok?
    ensures Parse(RenderText(Parse(text, upper).value.rules), upper) == Ok(Parsed(Parse(text, upper).value.rules, []))
  {
    var rules := Parse(text, upper).value.rules;
    LinesUnbroken(text);
    ParsedIsSound(SplitLines(text), upper);
    TextLines(rules, upper);
    LinesReadBack(rules, upper);
  }

  // ----- the payload -----

  /** The payload of the inline provider: rendered rules, each text once. */
  function Payload(rules: seq<Rule>): seq<string> { Unique(RenderedLines(rules)) }

  /** Dropping repeated payload texts loses no rule: two sound rules with one text are the same rule. */
  lemma RenderInjective(a: Rule, b: Rule, upper: string -> string)
    requires Sound(a) && Sound(b) && KeepsKinds(upper) && Render(a) == Render(b)
    ensures a == b
  {
    RuleReadsBack(a, upper);
    RuleReadsBack(b, upper);
  }

  /** The payload matches exactly the connections some parsed rule matches, whatever a rule matches. */
  lemma PayloadMatchesAlike(text: string, upper: string -> string, meets: Rule -> bool)
    requires KeepsKinds(upper) && Parse(text, upper).Ok?
    ensures (exists line :: line in Payload(Parse(text, upper).value.rules) && Classify(line, upper).Accepted? && meets(Classify(line, upper).rule))
            <==> exists r :: r in Parse(text, upper).value.rules && meets(r)
    ensures NoDuplicates(Payload(Parse(text, upper).value.rules)) && Payload(Parse(text, upper).value.rules) != []
  {
    var rules := Parse(text, upper).value.rules;
    LinesUnbroken(text);
    ParsedIsSound(SplitLines(text), upper);
    forall r | r in rules ensures Render(r) in Payload(rules) && Classify(Render(r), upper) == Accepted(r) {
      var i :| 0 <= i < |rules| && rules[i] == r;
      assert RenderedLines(rules)[i] == Render(r);
      RuleReadsBack(r, upper);
    }
    forall line | line in Payload(rules) ensures exists r :: r in rules && line == Render(r) {
      var i :| 0 <= i < |rules| && RenderedLines(rules)[i] == line;
      assert rules[i] in rules;
    }
    assert rules[0] in rules;
  }
}
