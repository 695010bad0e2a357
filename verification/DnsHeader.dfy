/** Whether the authority and additional counts of a response, bytes 8 to 11, can change what it is taken for. */
module DnsHeader {
  import opened Results
  import opened DnsWire

  predicate IsCountByte(i: nat) { 8 <= i < 12 }

  /** The two messages differ at most in NSCOUNT and ARCOUNT. */
  ghost predicate SameButCounts(p: seq<Byte>, q: seq<Byte>) {
    |p| == |q| && forall i :: 0 <= i < |p| && !IsCountByte(i) ==> p[i] == q[i]
  }

  // ----- where names enter the counts -----

  /**
   The first byte of the two counts the name at `pos` leads to; 7 when it takes byte 8 as the second
   byte of a pointer that starts in ANCOUNT; `None` when it stays clear of them.
   */
  function Entry(p: seq<Byte>, pos: nat, jumps: nat): (e: Option<nat>)
    requires jumps <= MAX_POINTER_JUMPS
    ensures e.Some? ==> 7 <= e.value < 12 && e.value < |p|
    decreases MAX_POINTER_JUMPS - jumps, |p| - pos
  {
    if pos >= |p| then None
    else if IsCountByte(pos) then Some(pos)
    else if p[pos] == 0 then None
    else if !IsPointer(p[pos]) then Entry(p, pos + 1 + p[pos], jumps)
    else if pos + 1 >= |p| || jumps == MAX_POINTER_JUMPS then None
    else if pos == 7 then Some(7)
    else Entry(p, Target(p[pos], p[pos + 1]), jumps + 1)
  }

  function QuestionEntry(p: seq<Byte>, offset: nat, n: nat): (e: Option<nat>)
    ensures e.Some? ==> 7 <= e.value < 12 && e.value < |p|
    decreases n
  {
    if n == 0 then None
    else
      var here, end := Entry(p, offset, 0), QuestionEnd(p, offset);
      if here.Some? || end.None? then here else QuestionEntry(p, end.value, n - 1)
  }

  function AnswerEntry(p: seq<Byte>, offset: nat, n: nat, qtype: int, public: seq<Byte> -> bool): (e: Option<nat>)
    ensures e.Some? ==> 7 <= e.value < 12 && e.value < |p|
    decreases n
  {
    if n == 0 then None
    else
      var here, record := Entry(p, offset, 0), RecordAt(p, offset);
      if here.Some? || record.None? || Qualifies(record, qtype, public) then here
      else AnswerEntry(p, record.value.end, n - 1, qtype, public)
  }

  /** The first byte of the counts any name of the response leads to, as far as the response is read. */
  function NameEntry(p: seq<Byte>, qtype: int, public: seq<Byte> -> bool): (e: Option<nat>)
    ensures e.Some? ==> 7 <= e.value < 12 && e.value < |p|
  {
    if !IsReply(p) then None
    else
      var e, start := QuestionEntry(p, 12, U16(p, 4)), QuestionsEnd(p, 12, U16(p, 4));
      if e.Some? || start.None? then e else AnswerEntry(p, start.value, U16(p, 6), qtype, public)
  }

  // ----- names that stay clear of the counts -----

  lemma {:induction false} SameNameEnd(p: seq<Byte>, q: seq<Byte>, pos: nat, jumps: nat)
    requires SameButCounts(p, q) && jumps <= MAX_POINTER_JUMPS && Entry(p, pos, jumps).None?
    ensures NameAt(q, pos, jumps).Some? <==> NameAt(p, pos, jumps).Some?
    ensures NameAt(p, pos, jumps).Some? ==> NameAt(q, pos, jumps).value.end == NameAt(p, pos, jumps).value.end
    decreases MAX_POINTER_JUMPS - jumps, |p| - pos
  {
    if pos < |p| && p[pos] != 0 {
      if !IsPointer(p[pos]) {
        SameNameEnd(p, q, pos + 1 + p[pos], jumps);
      } else if pos + 1 < |p| && jumps < MAX_POINTER_JUMPS {
        SameNameEnd(p, q, Target(p[pos], p[pos + 1]), jumps + 1);
      }
    }
  }

  lemma SameBody(p: seq<Byte>, q: seq<Byte>, at: nat)
    requires SameButCounts(p, q) && at >= 12
    ensures BodyAt(q, at) == BodyAt(p, at)
  {
    if BodyAt(p, at).Some? {
      var end := BodyAt(p, at).value.end;
      assert p[at + 10..end] == q[at + 10..end];
    }
  }

  lemma SameRecord(p: seq<Byte>, q: seq<Byte>, offset: nat)
    requires SameButCounts(p, q) && offset >= 12 && Entry(p, offset, 0).None?
    ensures RecordAt(q, offset) == RecordAt(p, offset)
  {
    SameNameEnd(p, q, offset, 0);
    if NameAt(p, offset, 0).Some? { SameBody(p, q, NameAt(p, offset, 0).value.end); }
  }

  lemma {:induction false} SameQuestions(p: seq<Byte>, q: seq<Byte>, offset: nat, n: nat)
    requires SameButCounts(p, q) && QuestionEntry(p, offset, n).None?
    ensures QuestionsEnd(q, offset, n) == QuestionsEnd(p, offset, n)
    decreases n
  {
    if n > 0 {
      SameNameEnd(p, q, offset, 0);
      if QuestionEnd(p, offset).Some? { SameQuestions(p, q, QuestionEnd(p, offset).value, n - 1); }
    }
  }

  lemma {:induction false} QuestionsAdvance(p: seq<Byte>, offset: nat, n: nat)
    ensures QuestionsEnd(p, offset, n).Some? ==> offset <= QuestionsEnd(p, offset, n).value
    decreases n
  {
    if n > 0 && QuestionEnd(p, offset).Some? { QuestionsAdvance(p, QuestionEnd(p, offset).value, n - 1); }
  }

  lemma {:induction false} SameAnswers(p: seq<Byte>, q: seq<Byte>, offset: nat, n: nat, qtype: int, public: seq<Byte> -> bool)
    requires SameButCounts(p, q) && offset >= 12 && AnswerEntry(p, offset, n, qtype, public).None?
    ensures Answers(q, offset, n, qtype, public) == Answers(p, offset, n, qtype, public)
    decreases n
  {
    if n > 0 {
      SameRecord(p, q, offset);
      var record := RecordAt(p, offset);
      if record.Some? && !Qualifies(record, qtype, public) { SameAnswers(p, q, record.value.end, n - 1, qtype, public); }
    }
  }

  /** NSCOUNT and ARCOUNT do not matter as long as no name of the response leads into them. */
  lemma CountsDoNotMatter(p: seq<Byte>, q: seq<Byte>, qtype: int, public: seq<Byte> -> bool)
    requires SameButCounts(p, q) && NameEntry(p, qtype, public).None?
    ensures Parse(q, qtype, public) == Parse(p, qtype, public)
  {
    if IsReply(p) {
      var qdcount, ancount := U16(p, 4), U16(p, 6);
      assert U16(q, 4) == qdcount && U16(q, 6) == ancount;
      SameQuestions(p, q, 12, qdcount);
      QuestionsAdvance(p, 12, qdcount);
      var start := QuestionsEnd(p, 12, qdcount);
      if start.Some? { SameAnswers(p, q, start.value, ancount, qtype, public); }
    }
  }

  // ----- names that lead into them -----

  /** `q` is `p` except that no name can be read from byte `i` on: a pointer to itself or past the end. */
  ghost predicate Spoilt(p: seq<Byte>, q: seq<Byte>, i: nat) {
    && SameButCounts(p, q) && 7 <= i < 12 && i < |q| && IsPointer(q[i])
    && (i + 1 < |q| ==> Target(q[i], q[i + 1]) == i || Target(q[i], q[i + 1]) >= |q|)
  }

  /**
   Byte 11 has its second byte in the question and byte 7 its first in ANCOUNT: a pointer from either has to be
   able to address itself or the end of the payload.
   */
  predicate Spoilable(p: seq<Byte>, i: nat)
    requires i < |p|
  {
    || 8 <= i < 11 || (i == 11 && (|p| > 12 ==> p[12] == 11 || |p| <= 16128 + p[12] as int))
    || (i == 7 && IsPointer(p[7]) && (p[7] % 64 == 0 || |p| <= Target(p[7], 255)))
  }

  lemma SpoilAt(p: seq<Byte>, i: nat) returns (q: seq<Byte>)
    requires |p| >= 12 && i < |p| && Spoilable(p, i)
    ensures Spoilt(p, q, i)
  {
    var low: Byte := i;
    q := if i == 7 then (if p[7] % 64 == 0 then p[8 := low] else p[8 := 255])
         else if i < 11 then p[i := 192][i + 1 := low]
         else if |p| > 12 && p[12] == 11 then p[11 := 192]
         else p[11 := 255];
  }

  lemma {:induction false} SpoiltLoop(q: seq<Byte>, i: nat, jumps: nat)
    requires i < |q| && IsPointer(q[i]) && (i + 1 < |q| ==> Target(q[i], q[i + 1]) == i || Target(q[i], q[i + 1]) >= |q|)
    requires jumps <= MAX_POINTER_JUMPS
    ensures NameAt(q, i, jumps).None?
    decreases MAX_POINTER_JUMPS - jumps
  {
    if i + 1 < |q| && jumps < MAX_POINTER_JUMPS && Target(q[i], q[i + 1]) == i { SpoiltLoop(q, i, jumps + 1); }
  }

  lemma {:induction false} SpoiltName(p: seq<Byte>, q: seq<Byte>, i: nat, pos: nat, jumps: nat)
    requires Spoilt(p, q, i) && jumps <= MAX_POINTER_JUMPS && Entry(p, pos, jumps) == Some(i)
    ensures NameAt(q, pos, jumps).None?
    decreases MAX_POINTER_JUMPS - jumps, |p| - pos
  {
    if IsCountByte(pos) || pos == i {
      SpoiltLoop(q, i, jumps);
    } else if !IsPointer(p[pos]) {
      SpoiltName(p, q, i, pos + 1 + p[pos], jumps);
    } else {
      SpoiltName(p, q, i, Target(p[pos], p[pos + 1]), jumps + 1);
    }
  }

  lemma {:induction false} SpoiltQuestions(p: seq<Byte>, q: seq<Byte>, i: nat, offset: nat, n: nat)
    requires Spoilt(p, q, i) && QuestionEntry(p, offset, n) == Some(i)
    ensures QuestionsEnd(q, offset, n).None?
    decreases n
  {
    if Entry(p, offset, 0).None? {
      SameNameEnd(p, q, offset, 0);
      SpoiltQuestions(p, q, i, QuestionEnd(p, offset).value, n - 1);
    } else {
      SpoiltName(p, q, i, offset, 0);
    }
  }

  lemma {:induction false} SpoiltAnswers(p: seq<Byte>, q: seq<Byte>, i: nat, offset: nat, n: nat, qtype: int, public: seq<Byte> -> bool)
    requires Spoilt(p, q, i) && offset >= 12 && AnswerEntry(p, offset, n, qtype, public) == Some(i)
    ensures Answers(q, offset, n, qtype, public) == Malformed
    decreases n
  {
    AnswersNext(q, offset, n, qtype, public);
    if Entry(p, offset, 0).None? {
      SameRecord(p, q, offset);
      SpoiltAnswers(p, q, i, RecordAt(p, offset).value.end, n - 1, qtype, public);
    } else {
      SpoiltName(p, q, i, offset, 0);
    }
  }

  lemma SpoiltMessage(p: seq<Byte>, q: seq<Byte>, i: nat, qtype: int, public: seq<Byte> -> bool)
    requires Spoilt(p, q, i) && NameEntry(p, qtype, public) == Some(i)
    ensures Parse(q, qtype, public) == Malformed
  {
    var qdcount := U16(p, 4);
    assert U16(q, 4) == qdcount && U16(q, 6) == U16(p, 6);
    if QuestionEntry(p, 12, qdcount).None? {
      SameQuestions(p, q, 12, qdcount);
      QuestionsAdvance(p, 12, qdcount);
      SpoiltAnswers(p, q, i, QuestionsEnd(p, 12, qdcount).value, U16(p, 6), qtype, public);
    } else {
      SpoiltQuestions(p, q, i, 12, qdcount);
    }
  }

  /** Some other NSCOUNT or ARCOUNT would have changed the verdict. */
  ghost predicate CountsMatter(p: seq<Byte>, qtype: int, public: seq<Byte> -> bool) {
    exists q :: SameButCounts(p, q) && Parse(q, qtype, public) != Parse(p, qtype, public)
  }

  /**
   For a response of any length that is read through, the counts matter exactly when some name leads into
   them. Left to `VerdictByNames` is a name that enters at byte 7 or 11 of a payload longer than every pointer
   from there can reach.
   */
  lemma CountsMatterExactly(p: seq<Byte>, qtype: int, public: seq<Byte> -> bool)
    requires Parse(p, qtype, public) != Malformed
    requires NameEntry(p, qtype, public).Some? ==> Spoilable(p, NameEntry(p, qtype, public).value)
    ensures CountsMatter(p, qtype, public) <==> NameEntry(p, qtype, public).Some?
  {
    var e := NameEntry(p, qtype, public);
    if e.Some? {
      var q := SpoilAt(p, e.value);
      SpoiltMessage(p, q, e.value, qtype, public);
    } else {
      forall q | SameButCounts(p, q) ensures Parse(q, qtype, public) == Parse(p, qtype, public) {
        CountsDoNotMatter(p, q, qtype, public);
      }
    }
  }

  // ----- any counts, name by name -----

  /** The offsets of the names read in the questions. */
  function QuestionNames(p: seq<Byte>, offset: nat, n: nat): set<nat>
    decreases n
  {
    if n == 0 then {}
    else {offset} + if QuestionEnd(p, offset).None? then {} else QuestionNames(p, QuestionEnd(p, offset).value, n - 1)
  }

  /** Those read in the records. */
  function AnswerNames(p: seq<Byte>, offset: nat, n: nat, qtype: int, public: seq<Byte> -> bool): set<nat>
    decreases n
  {
    if n == 0 then {}
    else
      var record := RecordAt(p, offset);
      {offset} + if record.None? || Qualifies(record, qtype, public) then {} else AnswerNames(p, record.value.end, n - 1, qtype, public)
  }

  /** Where the names of a response start, as far as it is read. */
  function NamesRead(p: seq<Byte>, qtype: int, public: seq<Byte> -> bool): set<nat> {
    if !IsReply(p) then {}
    else
      var start := QuestionsEnd(p, 12, U16(p, 4));
      QuestionNames(p, 12, U16(p, 4)) + if start.None? then {} else AnswerNames(p, start.value, U16(p, 6), qtype, public)
  }

  ghost predicate AllReadable(q: seq<Byte>, names: set<nat>) { forall o :: o in names ==> NameAt(q, o, 0).Some? }

  /** Where a name past the header ends does not depend on the counts. */
  lemma {:induction false} EndStays(p: seq<Byte>, q: seq<Byte>, pos: nat, jumps: nat)
    requires SameButCounts(p, q) && pos >= 12 && jumps <= MAX_POINTER_JUMPS && NameAt(p, pos, jumps).Some? && NameAt(q, pos, jumps).Some?
    ensures NameAt(q, pos, jumps).value.end == NameAt(p, pos, jumps).value.end
    decreases |p| - pos
  {
    if p[pos] != 0 && !IsPointer(p[pos]) { EndStays(p, q, pos + 1 + p[pos], jumps); }
  }

  lemma {:induction false} QuestionsStay(p: seq<Byte>, q: seq<Byte>, offset: nat, n: nat)
    requires SameButCounts(p, q) && offset >= 12 && QuestionsEnd(p, offset, n).Some?
    ensures QuestionsEnd(q, offset, n) == if AllReadable(q, QuestionNames(p, offset, n)) then QuestionsEnd(p, offset, n) else None
    decreases n
  {
    if n > 0 && NameAt(q, offset, 0).Some? {
      EndStays(p, q, offset, 0);
      QuestionsStay(p, q, QuestionEnd(p, offset).value, n - 1);
    }
  }

  lemma {:induction false} AnswersStay(p: seq<Byte>, q: seq<Byte>, offset: nat, n: nat, qtype: int, public: seq<Byte> -> bool)
    requires SameButCounts(p, q) && offset >= 12 && Answers(p, offset, n, qtype, public) != Malformed
    ensures Answers(q, offset, n, qtype, public)
            == if AllReadable(q, AnswerNames(p, offset, n, qtype, public)) then Answers(p, offset, n, qtype, public) else Malformed
    decreases n
  {
    if n > 0 && NameAt(q, offset, 0).Some? {
      EndStays(p, q, offset, 0);
      SameBody(p, q, NameAt(p, offset, 0).value.end);
      var record := RecordAt(p, offset);
      if !Qualifies(record, qtype, public) { AnswersStay(p, q, record.value.end, n - 1, qtype, public); }
    }
  }

  /** With other counts a response that is read through keeps its verdict while all its names stay readable, else it is malformed. */
  lemma VerdictByNames(p: seq<Byte>, q: seq<Byte>, qtype: int, public: seq<Byte> -> bool)
    requires SameButCounts(p, q) && Parse(p, qtype, public) != Malformed
    ensures Parse(q, qtype, public) == if AllReadable(q, NamesRead(p, qtype, public)) then Parse(p, qtype, public) else Malformed
  {
    if IsReply(p) {
      assert U16(q, 4) == U16(p, 4) && U16(q, 6) == U16(p, 6);
      QuestionsStay(p, q, 12, U16(p, 4));
      QuestionsAdvance(p, 12, U16(p, 4));
      AnswersStay(p, q, QuestionsEnd(p, 12, U16(p, 4)).value, U16(p, 6), qtype, public);
    }
  }

  /** So they matter exactly when some counts make one of its names unreadable, in payloads of any length. */
  lemma CountsMatterByName(p: seq<Byte>, qtype: int, public: seq<Byte> -> bool)
    requires Parse(p, qtype, public) != Malformed
    ensures CountsMatter(p, qtype, public)
            <==> exists q, o :: SameButCounts(p, q) && o in NamesRead(p, qtype, public) && NameAt(q, o, 0).None?
  {
    forall q | SameButCounts(p, q)
      ensures Parse(q, qtype, public) == if AllReadable(q, NamesRead(p, qtype, public)) then Parse(p, qtype, public) else Malformed
    {
      VerdictByNames(p, q, qtype, public);
    }
  }

  // ----- an instance -----

  /** The address 93.184.216.34, a public one. */
  const ADDRESS: seq<Byte> := [93, 184, 216, 34]

  /** A reply without questions and one A record with that address, whose name is a pointer to offset 8. */
  const POINTING: seq<Byte> := [0, 0, 128, 0, 0, 0, 0, 1, 0, 0, 0, 0, 192, 8, 0, 1, 0, 1, 0, 0, 0, 0, 0, 4, 93, 184, 216, 34]

  /** The same with NSCOUNT 0xC008, a pointer to itself. */
  const LOOPING: seq<Byte> := POINTING[8 := 192][9 := 8]

  /** What matters of the two: a reply with one A record whose name is a pointer to offset 8. */
  ghost predicate PointsAtCounts(p: seq<Byte>) {
    && |p| == 28 && IsReply(p) && U16(p, 4) == 0 && U16(p, 6) == 1
    && p[12] == 192 && p[13] == 8 && U16(p, 14) == 1 && U16(p, 22) == 4 && p[24..28] == ADDRESS
  }

  lemma BothPointAtCounts()
    ensures PointsAtCounts(POINTING) && POINTING[8] == 0
    ensures PointsAtCounts(LOOPING) && LOOPING[8] == 192 && LOOPING[9] == 8
    ensures SameButCounts(POINTING, LOOPING)
  {
    assert POINTING[24..28] == ADDRESS;
    assert LOOPING[24..28] == POINTING[24..28];
  }

  lemma PointingIsRead(p: seq<Byte>, qtype: int, public: seq<Byte> -> bool)
    requires PointsAtCounts(p) && p[8] == 0
    ensures Parse(p, qtype, public) == if qtype == 1 && public(ADDRESS) then Answered else NoAnswer
  {
    assert NameAt(p, 8, 1) == Some(Name([], 9));
    assert Target(p[12], p[13]) == 8;
    assert NameAt(p, 12, 0) == Some(Name([], 14));
    assert RecordAt(p, 12) == Some(Record(1, ADDRESS, 28));
    OneRecord(p, qtype, public);
  }

  lemma LoopingIsMalformed(p: seq<Byte>, qtype: int, public: seq<Byte> -> bool)
    requires PointsAtCounts(p) && p[8] == 192 && p[9] == 8
    ensures Parse(p, qtype, public) == Malformed
  {
    SpoiltLoop(p, 8, 1);
    assert Target(p[12], p[13]) == 8;
    assert NameAt(p, 12, 0).None?;
    OneRecord(p, qtype, public);
  }

  lemma OneRecord(p: seq<Byte>, qtype: int, public: seq<Byte> -> bool)
    requires IsReply(p) && U16(p, 4) == 0 && U16(p, 6) == 1
    ensures Parse(p, qtype, public) == if RecordAt(p, 12).None? then Malformed else if Qualifies(RecordAt(p, 12), qtype, public) then Answered else NoAnswer
  {
    assert QuestionsEnd(p, 12, 0) == Some(12);
    if RecordAt(p, 12).Some? { assert Answers(p, RecordAt(p, 12).value.end, 0, qtype, public) == NoAnswer; }
  }

  /** NSCOUNT alone makes this response malformed; without it an A query counts it as answered when the address is public. */
  lemma AuthorityCountChangesTheVerdict(qtype: int, public: seq<Byte> -> bool)
    ensures SameButCounts(POINTING, LOOPING) && CountsMatter(POINTING, qtype, public)
    ensures Parse(POINTING, qtype, public) == if qtype == 1 && public(ADDRESS) then Answered else NoAnswer
    ensures Parse(LOOPING, qtype, public) == Malformed
  {
    BothPointAtCounts();
    PointingIsRead(POINTING, qtype, public);
    LoopingIsMalformed(LOOPING, qtype, public);
  }
}
