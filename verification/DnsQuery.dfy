/** Building a query and reading it, and a response to it, back. */
module DnsQuery {
  import opened Ordering
  import opened Results
  import opened DnsWire

  predicate IsWireLabel(part: seq<Byte>) { 1 <= |part| <= 63 }

  /** A label behind its length byte. */
  function Counted(part: seq<Byte>): seq<Byte>
    requires IsWireLabel(part)
  {
    var length: Byte := |part|;
    [length] + part
  }

  function EncodeName(labels: seq<seq<Byte>>): seq<Byte>
    requires forall l :: l in labels ==> IsWireLabel(l)
  {
    if labels == [] then [0] else Counted(labels[0]) + EncodeName(labels[1..])
  }

  // ----- host names -----

  /** `hostname.rstrip(".")`. */
  function StripDots(s: string): string
  {
    if s != "" && s[|s| - 1] == '.' then StripDots(s[..|s| - 1]) else s
  }

  /** `s.split(".")`. */
  function SplitDots(s: string): (r: seq<string>)
    ensures |r| >= 1
  {
    if s == "" then [""]
    else
      var rest := SplitDots(s[1..]);
      if s[0] == '.' then [""] + rest else [[s[0]] + rest[0]] + rest[1..]
  }

  function JoinDots(labels: seq<string>): string
    requires |labels| >= 1
  {
    if |labels| == 1 then labels[0] else labels[0] + ("." + JoinDots(labels[1..]))
  }

  lemma JoinCons(first: string, rest: seq<string>)
    requires |rest| >= 1
    ensures JoinDots([first] + rest) == first + ("." + JoinDots(rest))
  {
    assert ([first] + rest)[1..] == rest;
  }

  lemma JoinPush(c: char, labels: seq<string>)
    requires |labels| >= 1
    ensures JoinDots([[c] + labels[0]] + labels[1..]) == [c] + JoinDots(labels)
  {
    var all := [[c] + labels[0]] + labels[1..];
    assert all[1..] == labels[1..];
    if |labels| > 1 { Associate([c], labels[0], "." + JoinDots(labels[1..])); }
  }

  lemma {:induction false} JoinSplit(s: string)
    ensures JoinDots(SplitDots(s)) == s
  {
    if s != "" {
      JoinSplit(s[1..]);
      var rest := SplitDots(s[1..]);
      if s[0] == '.' { JoinCons("", rest); } else { JoinPush(s[0], rest); }
      assert s == [s[0]] + s[1..];
    }
  }

  predicate IsAscii(s: string) { forall c :: c in s ==> c as int < 128 }

  function Ascii(s: string): (r: seq<Byte>)
    requires IsAscii(s)
  {
    seq<Byte>(|s|, i requires 0 <= i < |s| => assert s[i] in s; s[i] as int as Byte)
  }

  lemma AsciiInjective(a: string, b: string)
    requires IsAscii(a) && IsAscii(b) && Ascii(a) == Ascii(b)
    ensures a == b
  {
    assert |a| == |Ascii(a)| && |b| == |Ascii(b)|;
    forall i | 0 <= i < |a| ensures a[i] == b[i] { assert Ascii(a)[i] == Ascii(b)[i]; }
  }

  /** The wire form of one label; `idna` stands for Python's codec, `None` when it raises. */
  function WireLabel(part: string, idna: string -> Option<seq<Byte>>): Option<seq<Byte>> {
    var wire := if IsAscii(part) then Some(Ascii(part)) else idna(part);
    if wire.Some? && IsWireLabel(wire.value) then wire else None
  }

  /** The wire labels, `None` as soon as one is refused. */
  function WireLabels(labels: seq<string>, idna: string -> Option<seq<Byte>>): (r: Option<seq<seq<Byte>>>)
    ensures r.Some? ==> |r.value| == |labels| && forall l :: l in r.value ==> IsWireLabel(l)
  {
    if labels == [] then Some([])
    else
      var k := |labels| - 1;
      var init, last := WireLabels(labels[..k], idna), WireLabel(labels[k], idna);
      if init.None? || last.None? then None else Some(init.value + [last.value])
  }

  function HostLabels(hostname: string, idna: string -> Option<seq<Byte>>): (r: Option<seq<seq<Byte>>>)
    ensures r.Some? ==> r.value != [] && forall l :: l in r.value ==> IsWireLabel(l)
  {
    var labels := SplitDots(StripDots(hostname));
    if hostname == "" || "" in labels then None else WireLabels(labels, idna)
  }

  const QUERY_HEADER: seq<Byte> := [0, 0, 1, 0, 0, 1, 0, 0, 0, 0, 0, 0]

  function Big16(x: int): seq<Byte>
    requires 0 <= x < 65536
  {
    [x / 256, x % 256]
  }

  function QueryOf(labels: seq<seq<Byte>>, qtype: int): seq<Byte>
    requires 0 <= qtype < 65536 && forall l :: l in labels ==> IsWireLabel(l)
  {
    QUERY_HEADER + EncodeName(labels) + (Big16(qtype) + [0, 1])
  }

  /** The question so far: length-prefixed labels without the root byte. */
  function Prefixed(labels: seq<seq<Byte>>): seq<Byte>
    requires forall l :: l in labels ==> IsWireLabel(l)
  {
    if labels == [] then []
    else
      var k := |labels| - 1;
      Prefixed(labels[..k]) + Counted(labels[k])
  }

  lemma {:induction false} PrefixedPrepend(part: seq<Byte>, labels: seq<seq<Byte>>)
    requires IsWireLabel(part) && forall l :: l in labels ==> IsWireLabel(l)
    ensures Prefixed([part] + labels) == Counted(part) + Prefixed(labels)
  {
    if labels == [] {
      assert ([part] + labels)[..0] == [];
    } else {
      var k := |labels| - 1;
      var all := [part] + labels;
      assert all[..k + 1] == [part] + labels[..k] && all[k + 1] == labels[k];
      PrefixedPrepend(part, labels[..k]);
      assert Counted(part) + Prefixed(labels[..k]) + Counted(labels[k]) == Counted(part) + (Prefixed(labels[..k]) + Counted(labels[k]));
    }
  }

  lemma {:induction false} PrefixedEncodes(labels: seq<seq<Byte>>)
    requires forall l :: l in labels ==> IsWireLabel(l)
    ensures Prefixed(labels) + [0] == EncodeName(labels)
  {
    if labels != [] {
      assert labels == [labels[0]] + labels[1..];
      PrefixedPrepend(labels[0], labels[1..]);
      PrefixedEncodes(labels[1..]);
    }
  }

  /** Raises for an empty name, an empty label, one over 63 bytes, one the codec refuses, and a type outside 16 bits. */
  method BuildQuery(hostname: string, qtype: int, idna: string -> Option<seq<Byte>>) returns (r: Result<seq<Byte>>)
    ensures r.Ok? <==> HostLabels(hostname, idna).Some? && 0 <= qtype < 65536
    ensures r.Ok? ==> r.value == QueryOf(HostLabels(hostname, idna).value, qtype)
  {
    var labels := SplitDots(StripDots(hostname));
    if hostname == "" || |labels| == 0 || "" in labels { return Raised("invalid DNS query name"); }
    var question: seq<Byte> := [];
    assert labels[..0] == [];
    for k := 0 to |labels|
      invariant WireLabels(labels[..k], idna).Some? && question == Prefixed(WireLabels(labels[..k], idna).value)
    {
      assert labels[..k + 1][..k] == labels[..k];
      var wire := if IsAscii(labels[k]) then Some(Ascii(labels[k])) else idna(labels[k]);
      if wire.None? || !(1 <= |wire.value| <= 63) {
        RefusedLabel(labels, k, idna);
        return Raised("invalid DNS query name");
      }
      var done := WireLabels(labels[..k], idna).value;
      assert (done + [wire.value])[..|done|] == done;
      question := question + Counted(wire.value);
    }
    assert labels[..|labels|] == labels;
    PrefixedEncodes(WireLabels(labels, idna).value);
    question := question + [0];
    if !(0 <= qtype < 65536) { return Raised("struct.error"); }
    return Ok(QUERY_HEADER + question + (Big16(qtype) + [0, 1]));
  }

  lemma {:induction false} RefusedLabel(labels: seq<string>, k: nat, idna: string -> Option<seq<Byte>>)
    requires k < |labels| && WireLabel(labels[k], idna).None?
    ensures WireLabels(labels, idna).None?
  {
    var n := |labels| - 1;
    if k < n { RefusedLabel(labels[..n], k, idna); }
  }

  // ----- reading a name back -----

  ghost predicate Occurs(p: seq<Byte>, i: nat, s: seq<Byte>) { i + |s| <= |p| && p[i..i + |s|] == s }

  lemma OccursSplit(p: seq<Byte>, i: nat, a: seq<Byte>, b: seq<Byte>)
    requires Occurs(p, i, a + b)
    ensures Occurs(p, i, a) && Occurs(p, i + |a|, b)
  {
    assert p[i..i + |a + b|][..|a|] == p[i..i + |a|];
    assert p[i..i + |a + b|][|a|..] == p[i + |a|..i + |a| + |b|];
  }

  lemma CountedAt(p: seq<Byte>, pos: nat, part: seq<Byte>, rest: seq<Byte>)
    requires IsWireLabel(part) && Occurs(p, pos, Counted(part) + rest)
    ensures pos + 1 + |part| + |rest| <= |p| && p[pos] == |part| && p[pos + 1..pos + 1 + |part|] == part && Occurs(p, pos + 1 + |part|, rest)
  {
    OccursSplit(p, pos, Counted(part), rest);
    var here := p[pos..pos + 1 + |part|];
    assert here == Counted(part);
    assert p[pos] == here[0] && p[pos + 1..pos + 1 + |part|] == here[1..];
  }

  /** One label ahead of a readable name. */
  lemma NameStep(p: seq<Byte>, pos: nat, part: seq<Byte>, rest: Name, jumps: nat)
    requires jumps <= MAX_POINTER_JUMPS && IsWireLabel(part)
    requires pos + 1 + |part| <= |p| && p[pos] == |part| && p[pos + 1..pos + 1 + |part|] == part
    requires NameAt(p, pos + 1 + |part|, jumps) == Some(rest)
    ensures NameAt(p, pos, jumps) == Some(Name([part] + rest.labels, rest.end))
  {
  }

  /** Wherever an encoded name occurs, it decodes to its labels and ends with its encoding. */
  lemma {:induction false} NameReadsBack(p: seq<Byte>, pos: nat, labels: seq<seq<Byte>>, jumps: nat)
    requires jumps <= MAX_POINTER_JUMPS && (forall l :: l in labels ==> IsWireLabel(l)) && Occurs(p, pos, EncodeName(labels))
    ensures NameAt(p, pos, jumps) == Some(Name(labels, pos + |EncodeName(labels)|))
    decreases |labels|
  {
    if labels == [] {
      assert p[pos] == p[pos..pos + 1][0];
    } else {
      var l, rest := labels[0], EncodeName(labels[1..]);
      CountedAt(p, pos, l, rest);
      NameReadsBack(p, pos + 1 + |l|, labels[1..], jumps);
      NameStep(p, pos, l, Name(labels[1..], pos + 1 + |l| + |rest|), jumps);
      assert labels == [l] + labels[1..];
    }
  }

  /** Identifier 0, recursion desired and no other flag, one question, nothing else. */
  predicate AsksOnce(q: seq<Byte>) { |q| > 12 && forall i :: 0 <= i < 12 ==> q[i] == if i == 2 || i == 5 then 1 else 0 }

  /** The name of a built query starts at 12, ends four bytes before the query does, and decodes to the labels; it asks for class IN. */
  lemma QueryReadsBack(labels: seq<seq<Byte>>, qtype: int)
    requires 0 <= qtype < 65536 && forall l :: l in labels ==> IsWireLabel(l)
    ensures NameAt(QueryOf(labels, qtype), 12, 0) == Some(Name(labels, |QueryOf(labels, qtype)| - 4))
    ensures U16(QueryOf(labels, qtype), |QueryOf(labels, qtype)| - 4) == qtype
    ensures var q := QueryOf(labels, qtype); AsksOnce(q) && q[|q| - 2] == 0 && q[|q| - 1] == 1
  {
    var q, name := QueryOf(labels, qtype), EncodeName(labels);
    assert q[..12] == QUERY_HEADER;
    assert q[12..12 + |name|] == name;
    NameReadsBack(q, 12, labels, 0);
    assert q[12 + |name|] == qtype / 256 && q[12 + |name| + 1] == qtype % 256;
  }

  // ----- which host names have a query, and which -----

  predicate AllDots(s: string) { forall i :: 0 <= i < |s| ==> s[i] == '.' }

  predicate DotFree(s: string) { forall i :: 0 <= i < |s| ==> s[i] != '.' }

  /** The wire form of a label: its characters when they are ASCII, else what the codec makes of it, 1 to 63 bytes of it. */
  ghost predicate IsWireOf(text: string, wire: seq<Byte>, idna: string -> Option<seq<Byte>>) {
    && 1 <= |wire| <= 63
    && if forall c :: c in text ==> c as int < 128
       then |wire| == |text| && forall i :: 0 <= i < |wire| ==> wire[i] == text[i] as int
       else idna(text) == Some(wire)
  }

  ghost predicate AreWiresOf(labels: seq<string>, wires: seq<seq<Byte>>, idna: string -> Option<seq<Byte>>) {
    |wires| == |labels| && forall i :: 0 <= i < |labels| ==> IsWireOf(labels[i], wires[i], idna)
  }

  /** Dot-separated labels and any number of trailing dots. */
  ghost predicate Spells(hostname: string, labels: seq<string>, dots: string) {
    && |labels| >= 1 && (forall i :: 0 <= i < |labels| ==> labels[i] != "" && DotFree(labels[i]))
    && AllDots(dots) && hostname == JoinDots(labels) + dots
  }

  lemma {:induction false} StripMeaning(s: string) returns (dots: string)
    ensures s == StripDots(s) + dots && AllDots(dots) && (StripDots(s) != "" ==> StripDots(s)[|StripDots(s)| - 1] != '.')
  {
    if s != "" && s[|s| - 1] == '.' {
      var rest := StripMeaning(s[..|s| - 1]);
      dots := rest + ".";
      assert s == StripDots(s) + rest + ".";
    } else {
      dots := "";
    }
  }

  lemma {:induction false} StripTrailing(s: string, dots: string)
    requires AllDots(dots) && s != "" && s[|s| - 1] != '.'
    ensures StripDots(s + dots) == s
    decreases |dots|
  {
    if dots == "" {
      assert s + dots == s;
    } else {
      var k := |dots| - 1;
      assert (s + dots)[..|s + dots| - 1] == s + dots[..k];
      StripTrailing(s, dots[..k]);
    }
  }

  lemma {:induction false} SplitFree(s: string)
    ensures forall l :: l in SplitDots(s) ==> DotFree(l)
  {
    if s != "" {
      SplitFree(s[1..]);
      var rest := SplitDots(s[1..]);
      assert rest[0] in rest;
    }
  }

  lemma {:induction false} SplitPrefix(first: string, rest: string)
    requires DotFree(first)
    ensures SplitDots(first + ("." + rest)) == [first] + SplitDots(rest)
  {
    var s := first + ("." + rest);
    if first == "" {
      assert s[1..] == rest;
    } else {
      assert s[1..] == first[1..] + ("." + rest);
      SplitPrefix(first[1..], rest);
      assert first == [first[0]] + first[1..];
    }
  }

  lemma {:induction false} SplitWhole(s: string)
    requires DotFree(s)
    ensures SplitDots(s) == [s]
  {
    if s != "" {
      SplitWhole(s[1..]);
      assert s == [s[0]] + s[1..];
    }
  }

  lemma {:induction false} SplitJoin(labels: seq<string>)
    requires |labels| >= 1 && forall i :: 0 <= i < |labels| ==> DotFree(labels[i])
    ensures SplitDots(JoinDots(labels)) == labels
  {
    if |labels| == 1 {
      SplitWhole(labels[0]);
    } else {
      SplitPrefix(labels[0], JoinDots(labels[1..]));
      SplitJoin(labels[1..]);
      assert labels == [labels[0]] + labels[1..];
    }
  }

  lemma {:induction false} JoinEnds(labels: seq<string>)
    requires |labels| >= 1 && forall i :: 0 <= i < |labels| ==> labels[i] != "" && DotFree(labels[i])
    ensures JoinDots(labels) != "" && JoinDots(labels)[|JoinDots(labels)| - 1] != '.'
  {
    if |labels| == 1 {
      assert labels[0][|labels[0]| - 1] != '.';
    } else {
      JoinEnds(labels[1..]);
    }
  }

  lemma WireMeaning(text: string, wire: seq<Byte>, idna: string -> Option<seq<Byte>>)
    ensures WireLabel(text, idna) == Some(wire) <==> IsWireOf(text, wire, idna)
  {
    if IsAscii(text) && |wire| == |text| && forall i :: 0 <= i < |wire| ==> wire[i] == text[i] as int { assert wire == Ascii(text); }
  }

  lemma {:induction false} WiresMeaning(labels: seq<string>, wires: seq<seq<Byte>>, idna: string -> Option<seq<Byte>>)
    ensures WireLabels(labels, idna) == Some(wires) <==> AreWiresOf(labels, wires, idna)
  {
    if labels != [] && wires != [] {
      var k, n := |labels| - 1, |wires| - 1;
      WiresMeaning(labels[..k], wires[..n], idna);
      WireMeaning(labels[k], wires[n], idna);
      assert wires == wires[..n] + [wires[n]];
      if AreWiresOf(labels, wires, idna) { assert AreWiresOf(labels[..k], wires[..n], idna); }
      if WireLabels(labels, idna) == Some(wires) {
        assert WireLabels(labels[..k], idna) == Some(wires[..n]) && WireLabel(labels[k], idna) == Some(wires[n]);
        forall i | 0 <= i < |labels| ensures IsWireOf(labels[i], wires[i], idna) {
          if i < k { assert labels[..k][i] == labels[i] && wires[..n][i] == wires[i]; }
        }
      }
    }
  }

  /** A host name has a query with these labels exactly when it spells labels with these wire forms, trailing dots aside. */
  lemma HostExactly(hostname: string, wires: seq<seq<Byte>>, idna: string -> Option<seq<Byte>>)
    ensures HostLabels(hostname, idna) == Some(wires) <==> exists labels, dots :: Spells(hostname, labels, dots) && AreWiresOf(labels, wires, idna)
  {
    if HostLabels(hostname, idna) == Some(wires) {
      var dots := StripMeaning(hostname);
      var labels := SplitDots(StripDots(hostname));
      JoinSplit(StripDots(hostname));
      SplitFree(StripDots(hostname));
      WiresMeaning(labels, wires, idna);
      assert Spells(hostname, labels, dots) by {
        forall i | 0 <= i < |labels| ensures labels[i] != "" && DotFree(labels[i]) { assert labels[i] in labels; }
      }
    }
    if labels, dots :| Spells(hostname, labels, dots) && AreWiresOf(labels, wires, idna) {
      JoinEnds(labels);
      StripTrailing(JoinDots(labels), dots);
      SplitJoin(labels);
      WiresMeaning(labels, wires, idna);
    }
  }

  /** Distinct part lists, or distinct types, give distinct queries. */
  lemma QueryInjective(a: seq<seq<Byte>>, b: seq<seq<Byte>>, s: int, t: int)
    requires 0 <= s < 65536 && 0 <= t < 65536 && (forall l :: l in a ==> IsWireLabel(l)) && forall l :: l in b ==> IsWireLabel(l)
    requires QueryOf(a, s) == QueryOf(b, t)
    ensures a == b && s == t
  {
    QueryReadsBack(a, s);
    QueryReadsBack(b, t);
  }

  lemma {:induction false} AsciiLabelsInjective(a: seq<string>, b: seq<string>, idna: string -> Option<seq<Byte>>)
    requires (forall l :: l in a ==> IsAscii(l)) && forall l :: l in b ==> IsAscii(l)
    requires WireLabels(a, idna).Some? && WireLabels(a, idna) == WireLabels(b, idna)
    ensures a == b
  {
    if a != [] {
      var k := |a| - 1;
      assert |b| == |a|;
      assert a == a[..k] + [a[k]] && b == b[..k] + [b[k]];
      var x, y := WireLabels(a, idna).value, WireLabels(b, idna).value;
      assert x[..k] == WireLabels(a[..k], idna).value && y[..k] == WireLabels(b[..k], idna).value;
      assert x[k] == Ascii(a[k]) && y[k] == Ascii(b[k]);
      AsciiInjective(a[k], b[k]);
      AsciiLabelsInjective(a[..k], b[..k], idna);
    }
  }

  lemma {:induction false} SplitKeepsAscii(s: string)
    requires IsAscii(s)
    ensures forall l :: l in SplitDots(s) ==> IsAscii(l)
  {
    if s != "" {
      assert forall c :: c in s[1..] ==> c in s;
      SplitKeepsAscii(s[1..]);
      var rest := SplitDots(s[1..]);
      assert rest[0] in rest && s[0] in s;
      assert IsAscii([s[0]] + rest[0]);
    }
  }

  /** Two ASCII host names with the same query are the same name up to trailing dots. */
  lemma HostNameInjective(a: string, b: string, qtype: int, idna: string -> Option<seq<Byte>>)
    requires IsAscii(StripDots(a)) && IsAscii(StripDots(b)) && 0 <= qtype < 65536
    requires HostLabels(a, idna).Some? && HostLabels(b, idna).Some?
    requires QueryOf(HostLabels(a, idna).value, qtype) == QueryOf(HostLabels(b, idna).value, qtype)
    ensures StripDots(a) == StripDots(b)
  {
    QueryInjective(HostLabels(a, idna).value, HostLabels(b, idna).value, qtype, qtype);
    SplitKeepsAscii(StripDots(a));
    SplitKeepsAscii(StripDots(b));
    AsciiLabelsInjective(SplitDots(StripDots(a)), SplitDots(StripDots(b)), idna);
    JoinSplit(StripDots(a));
    JoinSplit(StripDots(b));
  }

  // ----- a response made from the query -----

  /** An answer record; `fixed` is its class and TTL. */
  datatype Answer = Answer(rtype: nat, fixed: seq<Byte>, rdata: seq<Byte>)

  predicate IsAnswer(a: Answer) { a.rtype < 65536 && |a.fixed| == 6 && |a.rdata| < 65536 }

  /** An answer whose name is a pointer to the question's name at offset 12. */
  function EncodeAnswer(a: Answer): seq<Byte>
    requires IsAnswer(a)
  {
    [192, 12] + (Big16(a.rtype) + a.fixed + Big16(|a.rdata|) + a.rdata)
  }

  function EncodeAnswers(answers: seq<Answer>): seq<Byte>
    requires forall a :: a in answers ==> IsAnswer(a)
  {
    if answers == [] then [] else EncodeAnswer(answers[0]) + EncodeAnswers(answers[1..])
  }

  /** Response flag set, RCODE 0, one question, `n` answers; identifier, other flags and the last two counts are free. */
  predicate IsReplyHeader(header: seq<Byte>, n: nat) {
    |header| == 12 && header[2] >= 128 && header[3] % 16 == 0 && U16(header, 4) == 1 && U16(header, 6) == n
  }

  function ReplyTo(query: seq<Byte>, header: seq<Byte>, answers: seq<Answer>): seq<Byte>
    requires |query| >= 12 && forall a :: a in answers ==> IsAnswer(a)
  {
    header + query[12..] + EncodeAnswers(answers)
  }

  lemma PointedRecord(p: seq<Byte>, offset: nat, a: Answer, labels: seq<seq<Byte>>)
    requires (forall l :: l in labels ==> IsWireLabel(l)) && Occurs(p, 12, EncodeName(labels))
    requires IsAnswer(a) && Occurs(p, offset, EncodeAnswer(a))
    ensures RecordAt(p, offset) == Some(Record(a.rtype, a.rdata, offset + |EncodeAnswer(a)|))
  {
    var tail := Big16(a.rtype) + a.fixed + Big16(|a.rdata|) + a.rdata;
    OccursSplit(p, offset, [192, 12], tail);
    assert p[offset] == p[offset..offset + 2][0] && p[offset + 1] == p[offset..offset + 2][1];
    NameReadsBack(p, 12, labels, 1);
    assert NameAt(p, offset, 0) == Some(Name(labels, offset + 2));
    RecordBody(p, offset + 2, a);
  }

  lemma RecordBody(p: seq<Byte>, at: nat, a: Answer)
    requires IsAnswer(a) && Occurs(p, at, Big16(a.rtype) + a.fixed + Big16(|a.rdata|) + a.rdata)
    ensures at + 10 + |a.rdata| <= |p|
    ensures U16(p, at) == a.rtype && U16(p, at + 8) == |a.rdata| && p[at + 10..at + 10 + |a.rdata|] == a.rdata
  {
    var head := Big16(a.rtype) + a.fixed + Big16(|a.rdata|);
    OccursSplit(p, at, head, a.rdata);
    OccursSplit(p, at, Big16(a.rtype) + a.fixed, Big16(|a.rdata|));
    OccursSplit(p, at, Big16(a.rtype), a.fixed);
    assert p[at] == p[at..at + 2][0] && p[at + 1] == p[at..at + 2][1];
    assert p[at + 8] == p[at + 8..at + 10][0] && p[at + 9] == p[at + 8..at + 10][1];
  }

  predicate SomeAnswer(answers: seq<Answer>, qtype: int, public: seq<Byte> -> bool) {
    exists a :: a in answers && a.rtype == qtype && public(a.rdata)
  }

  lemma {:induction false} PointedAnswers(p: seq<Byte>, offset: nat, answers: seq<Answer>, labels: seq<seq<Byte>>, qtype: int, public: seq<Byte> -> bool)
    requires (forall l :: l in labels ==> IsWireLabel(l)) && Occurs(p, 12, EncodeName(labels))
    requires (forall a :: a in answers ==> IsAnswer(a)) && Occurs(p, offset, EncodeAnswers(answers))
    ensures DnsWire.Answers(p, offset, |answers|, qtype, public) == Verdict(answers, qtype, public)
    decreases |answers|
  {
    if answers != [] {
      var a, rest := answers[0], answers[1..];
      assert answers == [a] + rest;
      OccursSplit(p, offset, EncodeAnswer(a), EncodeAnswers(rest));
      PointedRecord(p, offset, a, labels);
      var record := Record(a.rtype, a.rdata, offset + |EncodeAnswer(a)|);
      PointedAnswers(p, record.end, rest, labels, qtype, public);
      AnswersStep(p, offset, |answers|, record, qtype, public);
      VerdictStep(a, rest, qtype, public);
    }
  }

  function Verdict(answers: seq<Answer>, qtype: int, public: seq<Byte> -> bool): Outcome {
    if SomeAnswer(answers, qtype, public) then Answered else NoAnswer
  }

  lemma VerdictStep(a: Answer, rest: seq<Answer>, qtype: int, public: seq<Byte> -> bool)
    ensures Verdict([a] + rest, qtype, public) == if a.rtype == qtype && public(a.rdata) then Answered else Verdict(rest, qtype, public)
  {
    SomeAnswerStep(a, rest, qtype, public);
  }

  lemma AnswersStep(p: seq<Byte>, offset: nat, n: nat, record: Record, qtype: int, public: seq<Byte> -> bool)
    requires n > 0 && RecordAt(p, offset) == Some(record)
    ensures DnsWire.Answers(p, offset, n, qtype, public)
         == if record.rtype == qtype && public(record.rdata) then Answered else DnsWire.Answers(p, record.end, n - 1, qtype, public)
  {
  }

  lemma SomeAnswerStep(a: Answer, rest: seq<Answer>, qtype: int, public: seq<Byte> -> bool)
    ensures SomeAnswer([a] + rest, qtype, public) <==> (a.rtype == qtype && public(a.rdata)) || SomeAnswer(rest, qtype, public)
  {
    assert forall x :: x in [a] + rest <==> x == a || x in rest;
  }

  /** A clean reply to a built query is answered exactly when one of its answers has the type and a public address, whatever the other header fields. */
  lemma ReplyAnsweredExactly(labels: seq<seq<Byte>>, asked: int, header: seq<Byte>, answers: seq<Answer>, qtype: int, public: seq<Byte> -> bool)
    requires 0 <= asked < 65536 && (forall l :: l in labels ==> IsWireLabel(l)) && forall a :: a in answers ==> IsAnswer(a)
    requires IsReplyHeader(header, |answers|)
    ensures Parse(ReplyTo(QueryOf(labels, asked), header, answers), qtype, public) == Verdict(answers, qtype, public)
  {
    var p := ReplyTo(QueryOf(labels, asked), header, answers);
    var name := EncodeName(labels);
    ReplyLayout(labels, asked, header, answers);
    HeaderOf(p, header);
    NameReadsBack(p, 12, labels, 0);
    var start := 12 + |name| + 4;
    assert QuestionEnd(p, 12) == Some(start);
    assert QuestionsEnd(p, 12, 1) == QuestionsEnd(p, start, 0);
    PointedAnswers(p, start, answers, labels, qtype, public);
  }

  lemma ReplyLayout(labels: seq<seq<Byte>>, asked: int, header: seq<Byte>, answers: seq<Answer>)
    requires 0 <= asked < 65536 && (forall l :: l in labels ==> IsWireLabel(l)) && forall a :: a in answers ==> IsAnswer(a)
    requires |header| == 12
    ensures var p := ReplyTo(QueryOf(labels, asked), header, answers);
            && Occurs(p, 0, header) && Occurs(p, 12, EncodeName(labels))
            && Occurs(p, 12 + |EncodeName(labels)| + 4, EncodeAnswers(answers))
  {
    var name, tail, rest := EncodeName(labels), Big16(asked) + [0, 1], EncodeAnswers(answers);
    assert QueryOf(labels, asked) == QUERY_HEADER + (name + tail);
    assert QueryOf(labels, asked)[12..] == name + tail;
    FourParts(header, name, tail, rest);
  }

  lemma FourParts(a: seq<Byte>, b: seq<Byte>, c: seq<Byte>, d: seq<Byte>)
    ensures Occurs(a + (b + c) + d, 0, a) && Occurs(a + (b + c) + d, |a|, b) && Occurs(a + (b + c) + d, |a| + |b| + |c|, d)
  {
    var p := a + (b + c) + d;
    assert p[0..0 + |a|] == a;
    assert p[|a|..|a| + |b|] == b;
    var n := |a| + |b| + |c|;
    assert p[n..n + |d|] == d;
  }

  lemma HeaderOf(p: seq<Byte>, header: seq<Byte>)
    requires |header| == 12 && Occurs(p, 0, header)
    ensures forall i :: 0 <= i < 12 ==> p[i] == header[i]
    ensures U16(p, 4) == U16(header, 4) && U16(p, 6) == U16(header, 6)
  {
    assert forall i :: 0 <= i < 12 ==> p[i] == p[0..0 + |header|][i];
  }
}
