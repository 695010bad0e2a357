/** Bounded reading of DNS messages (RFC 1035 sections 4.1.1 to 4.1.4) as they come back over HTTPS (RFC 8484). */
module DnsWire {
  import opened Results

  type Byte = x: int | 0 <= x < 256

  const MAX_POINTER_JUMPS: nat := 64

  function U16(p: seq<Byte>, i: nat): nat
    requires i + 1 < |p|
  {
    p[i] as int * 256 + p[i + 1] as int
  }

  /** `length & 0xC0` is nonzero for every length byte from 64 up, not only for 0xC0 and above. */
  predicate IsPointer(length: Byte) { length >= 64 }

  /** `((length & 0x3F) << 8) | low`. */
  function Target(length: Byte, low: Byte): nat { (length as int % 64) * 256 + low as int }

  // ----- names -----

  /** A decoded name and the offset just past it in the stream it was read from. */
  datatype Name = Name(labels: seq<seq<Byte>>, end: nat)

  /** The name at `pos`, after `jumps` compression pointers. */
  function NameAt(p: seq<Byte>, pos: nat, jumps: nat): (r: Option<Name>)
    requires jumps <= MAX_POINTER_JUMPS
    ensures r.Some? ==> pos < r.value.end <= |p|
    decreases MAX_POINTER_JUMPS - jumps, |p| - pos
  {
    if pos >= |p| then None
    else if p[pos] == 0 then Some(Name([], pos + 1))
    else if IsPointer(p[pos]) then
      if pos + 1 >= |p| || jumps == MAX_POINTER_JUMPS then None
      else
        var r := NameAt(p, Target(p[pos], p[pos + 1]), jumps + 1);
        if r.None? then None else Some(Name(r.value.labels, pos + 2))
    else
      var next := pos + 1 + p[pos];
      var r := NameAt(p, next, jumps);
      if r.None? then None else Some(Name([p[pos + 1..next]] + r.value.labels, r.value.end))
  }

  /** Terminates on every payload, pointer loops included. */
  method SkipName(p: seq<Byte>, offset: nat) returns (r: Result<nat>)
    ensures r.Ok? <==> NameAt(p, offset, 0).Some?
    ensures r.Ok? ==> r.value == NameAt(p, offset, 0).value.end && offset < r.value <= |p|
  {
    var jumps: nat, pos: nat, end: Option<nat> := 0, offset, None;
    while true
      invariant jumps <= MAX_POINTER_JUMPS && (end.None? <==> jumps == 0)
      invariant NameAt(p, offset, 0).Some? <==> NameAt(p, pos, jumps).Some?
      invariant NameAt(p, offset, 0).Some? ==> NameAt(p, offset, 0).value.end == if end.Some? then end.value else NameAt(p, pos, jumps).value.end
      decreases MAX_POINTER_JUMPS - jumps, |p| - pos
    {
      if pos >= |p| { return Raised("truncated name"); }
      var length := p[pos];
      if length == 0 { return Ok(if end.Some? then end.value else pos + 1); }
      if IsPointer(length) {
        if pos + 1 >= |p| { return Raised("truncated name"); }
        if end.None? { end := Some(pos + 2); }
        if jumps + 1 > MAX_POINTER_JUMPS { return Raised("compression pointer loop"); }
        jumps, pos := jumps + 1, Target(length, p[pos + 1]);
      } else {
        pos := pos + 1 + length;
      }
    }
  }

  // ----- a name as a walk over the payload -----

  /** Where the byte at `pos` leads: past its label, or, with one of its top bits set, to the offset in the 14 bits from there. */
  function Next(p: seq<Byte>, pos: nat): Option<nat> {
    if pos >= |p| || p[pos] == 0 then None
    else if p[pos] < 64 then Some(pos + 1 + p[pos])
    else if pos + 1 < |p| then Some((p[pos] as int * 256 + p[pos + 1] as int) % 16384)
    else None
  }

  /** Offsets visited one after the other until a zero byte. */
  ghost predicate IsWalk(p: seq<Byte>, w: seq<nat>) {
    && w != [] && w[|w| - 1] < |p| && p[w[|w| - 1]] == 0
    && forall i :: 0 <= i < |w| - 1 ==> Next(p, w[i]) == Some(w[i + 1])
  }

  ghost function Pointers(p: seq<Byte>, w: seq<nat>): nat {
    if w == [] then 0 else (if w[0] < |p| && p[w[0]] >= 64 then 1 else 0) + Pointers(p, w[1..])
  }

  lemma NextStep(p: seq<Byte>, pos: nat)
    ensures Next(p, pos) == if pos >= |p| || p[pos] == 0 then None
                            else if !IsPointer(p[pos]) then Some(pos + 1 + p[pos])
                            else if pos + 1 < |p| then Some(Target(p[pos], p[pos + 1]))
                            else None
  {
    if pos + 1 < |p| { Fourteen(p[pos], p[pos + 1]); }
  }

  lemma Fourteen(a: Byte, b: Byte)
    ensures (a as int * 256 + b as int) % 16384 == Target(a, b)
  {
    var q := a as int / 64;
    assert a as int == 64 * q + a as int % 64;
    assert a as int * 256 + b as int == 16384 * q + Target(a, b);
  }

  lemma {:induction false} NameFollowsWalk(p: seq<Byte>, w: seq<nat>, jumps: nat)
    requires IsWalk(p, w) && jumps + Pointers(p, w) <= MAX_POINTER_JUMPS
    ensures NameAt(p, w[0], jumps).Some?
    decreases |w|
  {
    if |w| > 1 {
      assert Next(p, w[0]) == Some(w[1]);
      NextStep(p, w[0]);
      var rest := w[1..];
      forall i | 0 <= i < |rest| - 1 ensures Next(p, rest[i]) == Some(rest[i + 1]) {
        assert Next(p, w[i + 1]) == Some(w[i + 2]);
      }
      NameFollowsWalk(p, w[1..], if IsPointer(p[w[0]]) then jumps + 1 else jumps);
    }
  }

  lemma {:induction false} NameHasWalk(p: seq<Byte>, pos: nat, jumps: nat) returns (w: seq<nat>)
    requires jumps <= MAX_POINTER_JUMPS && NameAt(p, pos, jumps).Some?
    ensures IsWalk(p, w) && w[0] == pos && jumps + Pointers(p, w) <= MAX_POINTER_JUMPS
    decreases MAX_POINTER_JUMPS - jumps, |p| - pos
  {
    if p[pos] == 0 {
      w := [pos];
      assert w[1..] == [];
    } else {
      NextStep(p, pos);
      var next := Next(p, pos).value;
      var rest := NameHasWalk(p, next, if IsPointer(p[pos]) then jumps + 1 else jumps);
      w := [pos] + rest;
      assert w[1..] == rest;
    }
  }

  /** A name is readable exactly when the walk from it reaches a zero byte over at most 64 pointers. */
  lemma NameReadableExactly(p: seq<Byte>, pos: nat)
    ensures NameAt(p, pos, 0).Some? <==> exists w :: IsWalk(p, w) && w[0] == pos && Pointers(p, w) <= 64
  {
    if NameAt(p, pos, 0).Some? {
      var w := NameHasWalk(p, pos, 0);
    }
    forall w | IsWalk(p, w) && w[0] == pos && Pointers(p, w) <= 64 ensures NameAt(p, pos, 0).Some? {
      NameFollowsWalk(p, w, 0);
    }
  }

  // ----- responses -----

  datatype Outcome = Answered | NxDomain | NoAnswer | ServerFailure | Malformed

  datatype Record = Record(rtype: nat, rdata: seq<Byte>, end: nat)

  /** The offset past the question at `offset`. */
  function QuestionEnd(p: seq<Byte>, offset: nat): Option<nat> {
    var name := NameAt(p, offset, 0);
    if name.None? || name.value.end + 4 > |p| then None else Some(name.value.end + 4)
  }

  function QuestionsEnd(p: seq<Byte>, offset: nat, n: nat): Option<nat>
    decreases n
  {
    if n == 0 then Some(offset)
    else
      var end := QuestionEnd(p, offset);
      if end.None? then None else QuestionsEnd(p, end.value, n - 1)
  }

  /** Type, class, TTL, data length and data at `at`. */
  function BodyAt(p: seq<Byte>, at: nat): (r: Option<Record>)
    ensures r.Some? ==> at < r.value.end <= |p|
  {
    if at + 10 > |p| || at + 10 + U16(p, at + 8) > |p| then None
    else
      var end := at + 10 + U16(p, at + 8);
      Some(Record(U16(p, at), p[at + 10..end], end))
  }

  /** The resource record at `offset`. */
  function RecordAt(p: seq<Byte>, offset: nat): Option<Record> {
    var name := NameAt(p, offset, 0);
    if name.None? then None else BodyAt(p, name.value.end)
  }

  /** What the next `n` records come to. */
  function Answers(p: seq<Byte>, offset: nat, n: nat, qtype: int, public: seq<Byte> -> bool): Outcome
    decreases n
  {
    if n == 0 then NoAnswer
    else
      var record := RecordAt(p, offset);
      if record.None? then Malformed
      else if record.value.rtype == qtype && public(record.value.rdata) then Answered
      else Answers(p, record.value.end, n - 1, qtype, public)
  }

  function Parse(p: seq<Byte>, qtype: int, public: seq<Byte> -> bool): Outcome {
    if |p| < 12 || p[2] < 128 then Malformed
    else if p[3] % 16 == 3 then NxDomain
    else if p[3] % 16 != 0 then ServerFailure
    else
      var start := QuestionsEnd(p, 12, U16(p, 4));
      if start.None? then Malformed else Answers(p, start.value, U16(p, 6), qtype, public)
  }

  /** `flags & 0x8000` is the top bit of byte 2, `flags & 0x0F` the low half of byte 3. */
  method ParseResponse(p: seq<Byte>, qtype: int, public: seq<Byte> -> bool) returns (answered: bool, category: Outcome)
    ensures category == Parse(p, qtype, public)
    ensures answered <==> category == Answered
    ensures category == NxDomain <==> |p| >= 12 && p[2] >= 128 && p[3] % 16 == 3
    ensures category == ServerFailure <==> |p| >= 12 && p[2] >= 128 && p[3] % 16 !in {0, 3}
    ensures category == Malformed <==> |p| < 12 || p[2] < 128 || (p[3] % 16 == 0 && Undecodable(p, qtype, public))
  {
    CategoriesExactly(p, qtype, public);
    if |p| < 12 { return false, Malformed; }
    var qdcount, ancount := U16(p, 4), U16(p, 6);
    if p[2] < 128 { return false, Malformed; }
    var rcode := p[3] % 16;
    if rcode == 3 { return false, NxDomain; }
    if rcode != 0 { return false, ServerFailure; }
    var start := ReadQuestions(p, qdcount);
    if start.Raised? { return false, Malformed; }
    category := ReadAnswers(p, start.value, ancount, qtype, public);
    answered := category == Answered;
  }

  method ReadQuestions(p: seq<Byte>, qdcount: nat) returns (r: Result<nat>)
    ensures r.Ok? <==> QuestionsEnd(p, 12, qdcount).Some?
    ensures r.Ok? ==> r.value == QuestionsEnd(p, 12, qdcount).value
  {
    var offset: nat := 12;
    for i := 0 to qdcount
      invariant QuestionsEnd(p, 12, qdcount) == QuestionsEnd(p, offset, qdcount - i)
    {
      var skipped := SkipName(p, offset);
      if skipped.Raised? || skipped.value + 4 > |p| { return Raised("truncated question"); }
      offset := skipped.value + 4;
    }
    return Ok(offset);
  }

  method ReadRecord(p: seq<Byte>, start: nat) returns (r: Option<Record>)
    ensures r == RecordAt(p, start)
  {
    var skipped := SkipName(p, start);
    if skipped.Raised? || skipped.value + 10 > |p| { return None; }
    var offset: nat := skipped.value;
    var rtype, rdlength := U16(p, offset), U16(p, offset + 8);
    offset := offset + 10;
    if offset + rdlength > |p| { return None; }
    return Some(Record(rtype, p[offset..offset + rdlength], offset + rdlength));
  }

  /** Reading on after a record, failing at it, or stopping there. */
  lemma AnswersNext(p: seq<Byte>, offset: nat, n: nat, qtype: int, public: seq<Byte> -> bool)
    requires n > 0
    ensures var record := RecordAt(p, offset);
            Answers(p, offset, n, qtype, public)
            == if record.None? then Malformed
               else if record.value.rtype == qtype && public(record.value.rdata) then Answered
               else Answers(p, record.value.end, n - 1, qtype, public)
  {
  }

  method ReadAnswers(p: seq<Byte>, start: nat, ancount: nat, qtype: int, public: seq<Byte> -> bool) returns (category: Outcome)
    ensures category == Answers(p, start, ancount, qtype, public)
  {
    var offset: nat := start;
    for i := 0 to ancount
      invariant Answers(p, start, ancount, qtype, public) == Answers(p, offset, ancount - i, qtype, public)
    {
      AnswersNext(p, offset, ancount - i, qtype, public);
      var record := ReadRecord(p, offset);
      if record.None? { return Malformed; }
      if record.value.rtype == qtype && public(record.value.rdata) { return Answered; }
      offset := record.value.end;
    }
    return NoAnswer;
  }

  // ----- what "answered" means -----

  /** The `k`-th record of the answer section, if it and everything before it decodes. */
  function NthRecord(p: seq<Byte>, offset: nat, k: nat): Option<Record>
    decreases k
  {
    var record := RecordAt(p, offset);
    if k == 0 || record.None? then record else NthRecord(p, record.value.end, k - 1)
  }

  predicate Qualifies(record: Option<Record>, qtype: int, public: seq<Byte> -> bool) {
    record.Some? && record.value.rtype == qtype && public(record.value.rdata)
  }

  ghost predicate SomeQualifies(p: seq<Byte>, offset: nat, n: nat, qtype: int, public: seq<Byte> -> bool) {
    exists k: nat :: k < n && Qualifies(NthRecord(p, offset, k), qtype, public)
  }

  ghost predicate AllDecode(p: seq<Byte>, offset: nat, n: nat) {
    forall k: nat :: k < n ==> NthRecord(p, offset, k).Some?
  }

  /** The records seen from the first one. */
  lemma RecordsUnfold(p: seq<Byte>, offset: nat, n: nat, qtype: int, public: seq<Byte> -> bool)
    requires n > 0 && RecordAt(p, offset).Some?
    ensures SomeQualifies(p, offset, n, qtype, public)
       <==> Qualifies(RecordAt(p, offset), qtype, public) || SomeQualifies(p, RecordAt(p, offset).value.end, n - 1, qtype, public)
    ensures AllDecode(p, offset, n) <==> AllDecode(p, RecordAt(p, offset).value.end, n - 1)
  {
    var next := RecordAt(p, offset).value.end;
    assert NthRecord(p, offset, 0) == RecordAt(p, offset);
    forall k: nat ensures NthRecord(p, next, k) == NthRecord(p, offset, k + 1) {}
    assert forall k: nat :: k > 0 ==> NthRecord(p, offset, k) == NthRecord(p, next, k - 1);
    if AllDecode(p, offset, n) {
      forall k: nat | k < n - 1 ensures NthRecord(p, next, k).Some? { assert NthRecord(p, offset, k + 1).Some?; }
    }
    if k: nat :| k < n - 1 && Qualifies(NthRecord(p, next, k), qtype, public) {
      assert Qualifies(NthRecord(p, offset, k + 1), qtype, public);
    }
  }

  lemma {:induction false} AnswersMeaning(p: seq<Byte>, offset: nat, n: nat, qtype: int, public: seq<Byte> -> bool)
    ensures Answers(p, offset, n, qtype, public) == Answered <==> SomeQualifies(p, offset, n, qtype, public)
    ensures Answers(p, offset, n, qtype, public) == NoAnswer <==> AllDecode(p, offset, n) && !SomeQualifies(p, offset, n, qtype, public)
    decreases n
  {
    if n > 0 {
      var record := RecordAt(p, offset);
      if record.Some? {
        RecordsUnfold(p, offset, n, qtype, public);
        AnswersMeaning(p, record.value.end, n - 1, qtype, public);
      } else {
        assert forall k: nat :: NthRecord(p, offset, k) == None;
        assert NthRecord(p, offset, 0) == None;
      }
    }
  }

  predicate IsReply(p: seq<Byte>) { |p| >= 12 && p[2] >= 128 && p[3] % 16 == 0 }

  /** Answered: a clean reply some record of which, among the first ANCOUNT, has the type asked for and a public address, all before it decoding. */
  lemma AnsweredExactly(p: seq<Byte>, qtype: int, public: seq<Byte> -> bool)
    ensures Parse(p, qtype, public) == Answered <==>
            && IsReply(p) && QuestionsEnd(p, 12, U16(p, 4)).Some?
            && SomeQualifies(p, QuestionsEnd(p, 12, U16(p, 4)).value, U16(p, 6), qtype, public)
  {
    if IsReply(p) && QuestionsEnd(p, 12, U16(p, 4)).Some? {
      AnswersMeaning(p, QuestionsEnd(p, 12, U16(p, 4)).value, U16(p, 6), qtype, public);
    }
  }

  /** No answer: every section read decodes and no record qualifies. */
  lemma NoAnswerExactly(p: seq<Byte>, qtype: int, public: seq<Byte> -> bool)
    ensures Parse(p, qtype, public) == NoAnswer <==>
            && IsReply(p) && QuestionsEnd(p, 12, U16(p, 4)).Some?
            && AllDecode(p, QuestionsEnd(p, 12, U16(p, 4)).value, U16(p, 6))
            && !SomeQualifies(p, QuestionsEnd(p, 12, U16(p, 4)).value, U16(p, 6), qtype, public)
  {
    if IsReply(p) && QuestionsEnd(p, 12, U16(p, 4)).Some? {
      AnswersMeaning(p, QuestionsEnd(p, 12, U16(p, 4)).value, U16(p, 6), qtype, public);
    }
  }

  /** A question does not decode, or a record among the first ANCOUNT none before which qualifies. */
  ghost predicate Undecodable(p: seq<Byte>, qtype: int, public: seq<Byte> -> bool)
    requires |p| >= 12
  {
    var start := QuestionsEnd(p, 12, U16(p, 4));
    start.None? || exists k: nat :: k < U16(p, 6) && StopsAt(p, start.value, k, qtype, public)
  }

  /** The first `k` records decode without qualifying, and the next one does not decode. */
  ghost predicate StopsAt(p: seq<Byte>, offset: nat, k: nat, qtype: int, public: seq<Byte> -> bool) {
    NthRecord(p, offset, k).None? && forall j: nat :: j < k ==> NthRecord(p, offset, j).Some? && !Qualifies(NthRecord(p, offset, j), qtype, public)
  }

  lemma {:induction false} StopsExactly(p: seq<Byte>, offset: nat, n: nat, qtype: int, public: seq<Byte> -> bool)
    ensures Answers(p, offset, n, qtype, public) == Malformed <==> exists k: nat :: k < n && StopsAt(p, offset, k, qtype, public)
    decreases n
  {
    if n > 0 {
      var record := RecordAt(p, offset);
      assert NthRecord(p, offset, 0) == record;
      if record.None? {
        assert StopsAt(p, offset, 0, qtype, public);
      } else {
        var next := record.value.end;
        StopsExactly(p, next, n - 1, qtype, public);
        assert forall j: nat :: NthRecord(p, offset, j + 1) == NthRecord(p, next, j);
        if k: nat :| k < n && StopsAt(p, offset, k, qtype, public) {
          assert StopsAt(p, next, k - 1, qtype, public) by {
            forall j: nat | j < k - 1 ensures NthRecord(p, next, j).Some? && !Qualifies(NthRecord(p, next, j), qtype, public) {
              assert NthRecord(p, offset, j + 1) == NthRecord(p, next, j);
            }
          }
        }
        if !Qualifies(record, qtype, public) && exists k: nat :: k < n - 1 && StopsAt(p, next, k, qtype, public) {
          var k: nat :| k < n - 1 && StopsAt(p, next, k, qtype, public);
          assert StopsAt(p, offset, k + 1, qtype, public) by {
            forall j: nat | j < k + 1 ensures NthRecord(p, offset, j).Some? && !Qualifies(NthRecord(p, offset, j), qtype, public) {
              if j > 0 { assert NthRecord(p, offset, j) == NthRecord(p, next, j - 1); }
            }
          }
        }
      }
    }
  }

  /** Which header, and which failure to decode, gives which of the three categories without an answer. */
  lemma CategoriesExactly(p: seq<Byte>, qtype: int, public: seq<Byte> -> bool)
    ensures Parse(p, qtype, public) == NxDomain <==> |p| >= 12 && p[2] >= 128 && p[3] % 16 == 3
    ensures Parse(p, qtype, public) == ServerFailure <==> |p| >= 12 && p[2] >= 128 && p[3] % 16 !in {0, 3}
    ensures Parse(p, qtype, public) == Malformed <==> |p| < 12 || p[2] < 128 || (p[3] % 16 == 0 && Undecodable(p, qtype, public))
  {
    if IsReply(p) && QuestionsEnd(p, 12, U16(p, 4)).Some? {
      var start := QuestionsEnd(p, 12, U16(p, 4)).value;
      AnswersMeaning(p, start, U16(p, 6), qtype, public);
      StopsExactly(p, start, U16(p, 6), qtype, public);
      NoOtherVerdict(p, start, U16(p, 6), qtype, public);
    }
  }

  lemma {:induction false} NoOtherVerdict(p: seq<Byte>, offset: nat, n: nat, qtype: int, public: seq<Byte> -> bool)
    ensures Answers(p, offset, n, qtype, public) in {Answered, NoAnswer, Malformed}
    decreases n
  {
    if n > 0 && RecordAt(p, offset).Some? { NoOtherVerdict(p, RecordAt(p, offset).value.end, n - 1, qtype, public); }
  }
}
