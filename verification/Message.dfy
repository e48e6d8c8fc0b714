// DNS messages as values, and their wire form with the two-octet length that
// TCP puts in front (sections 4.1 and 4.2.2 of RFC 1035).

module Message {
  import opened Bytes

  const HEADER := 14 // sizeof(DnsHeader): the length prefix and six shorts

  const OPT := 41 // the record type of section 6.1.2 of RFC 6891

  /** A name is closed by the root label or by a compression pointer. */
  datatype Ending = Root | Pointer(high: byte, low: byte)

  datatype Name = Name(labels: seq<seq<byte>>, ending: Ending) {
    predicate Valid() {
      && (forall i :: 0 <= i < |labels| ==> 1 <= |labels[i]| <= 63)
      && (ending.Pointer? ==> ending.high >= 0xC0)
    }
  }

  datatype Question = Question(name: Name, qtype: nat, qclass: nat) {
    predicate Valid() { name.Valid() && qtype < LIMIT && qclass < LIMIT }
  }

  /** `fixed` is the class and the TTL, which OPT uses for its own purposes. */
  datatype Record = Record(name: Name, rtype: nat, fixed: seq<byte>, rdata: seq<byte>) {
    predicate Valid() { name.Valid() && rtype < LIMIT && |fixed| == 6 && |rdata| < LIMIT }

    predicate IsOpt() { name == Name([], Root) && rtype == OPT }
  }

  datatype Message = Message(id: nat, flags: nat, questions: seq<Question>,
                             answers: seq<Record>, authorities: seq<Record>, additional: seq<Record>)
  {
    predicate Valid() {
      && id < LIMIT && flags < LIMIT
      && |questions| < LIMIT && |answers| < LIMIT && |authorities| < LIMIT && |additional| < LIMIT
      && (forall i :: 0 <= i < |questions| ==> questions[i].Valid())
      && ValidRecords(answers) && ValidRecords(authorities) && ValidRecords(additional)
      && HEADER - 2 + |EncodeQuestions(questions)| + |EncodeRecords(answers)|
         + |EncodeRecords(authorities)| + |EncodeRecords(additional)| < LIMIT
    }
  }

  predicate ValidRecords(rs: seq<Record>) {
    forall i :: 0 <= i < |rs| ==> rs[i].Valid()
  }

  function EncodeLabels(labels: seq<seq<byte>>): seq<byte>
    requires forall i :: 0 <= i < |labels| ==> 1 <= |labels[i]| <= 63
  {
    if labels == [] then [] else [|labels[0]|] + labels[0] + EncodeLabels(labels[1..])
  }

  function EncodeEnding(e: Ending): seq<byte> {
    match e
    case Root => [0]
    case Pointer(high, low) => [high, low]
  }

  function EncodeName(n: Name): seq<byte>
    requires n.Valid()
  {
    EncodeLabels(n.labels) + EncodeEnding(n.ending)
  }

  function EncodeQuestion(q: Question): seq<byte>
    requires q.Valid()
  {
    EncodeName(q.name) + (Short(q.qtype) + Short(q.qclass))
  }

  function EncodeRecord(r: Record): seq<byte>
    requires r.Valid()
  {
    EncodeName(r.name) + ((Short(r.rtype) + r.fixed) + (Short(|r.rdata|) + r.rdata))
  }

  function EncodeQuestions(qs: seq<Question>): seq<byte>
    requires forall i :: 0 <= i < |qs| ==> qs[i].Valid()
  {
    if qs == [] then [] else EncodeQuestion(qs[0]) + EncodeQuestions(qs[1..])
  }

  function EncodeRecords(rs: seq<Record>): seq<byte>
    requires ValidRecords(rs)
  {
    if rs == [] then [] else EncodeRecord(rs[0]) + EncodeRecords(rs[1..])
  }

  function EncodeCounts(m: Message): (b: seq<byte>)
    requires m.id < LIMIT && m.flags < LIMIT
    requires |m.questions| < LIMIT && |m.answers| < LIMIT && |m.authorities| < LIMIT && |m.additional| < LIMIT
    ensures |b| == HEADER - 2
  {
    Short(m.id) + Short(m.flags) + Short(|m.questions|) + Short(|m.answers|)
    + Short(|m.authorities|) + Short(|m.additional|)
  }

  function InTurn(c: seq<byte>, q: seq<byte>, a: seq<byte>, u: seq<byte>, d: seq<byte>): (b: seq<byte>)
    ensures |b| == |c| + |q| + |a| + |u| + |d|
  {
    c + (q + (a + (u + d)))
  }

  /** Everything after the length prefix: what travels over UDP. */
  function EncodeBody(m: Message): (b: seq<byte>)
    requires m.Valid()
    ensures |b| < LIMIT
  {
    InTurn(EncodeCounts(m), EncodeQuestions(m.questions),
           EncodeRecords(m.answers), EncodeRecords(m.authorities), EncodeRecords(m.additional))
  }

  /** The packet as it travels over TCP. */
  function Encode(m: Message): (p: seq<byte>)
    requires m.Valid()
    ensures |p| >= HEADER
  {
    Short(|EncodeBody(m)|) + EncodeBody(m)
  }

  /** Where each section starts in the packet. */
  function QuestionsAt(m: Message): nat
    requires m.Valid()
  {
    HEADER
  }

  function AnswersAt(m: Message): nat
    requires m.Valid()
  {
    HEADER + |EncodeQuestions(m.questions)|
  }

  function AuthoritiesAt(m: Message): nat
    requires m.Valid()
  {
    AnswersAt(m) + |EncodeRecords(m.answers)|
  }

  function AdditionalAt(m: Message): nat
    requires m.Valid()
  {
    AuthoritiesAt(m) + |EncodeRecords(m.authorities)|
  }

  /** `p` has the header of `m`, and each section of `m` where it is said to start. */
  predicate Laid(p: seq<byte>, m: Message)
    requires m.Valid()
  {
    && |p| >= HEADER && ShortAt(p, 0) == |p| - 2
    && ShortAt(p, 6) == |m.questions| && ShortAt(p, 8) == |m.answers|
    && ShortAt(p, 10) == |m.authorities| && ShortAt(p, 12) == |m.additional|
    && Holds(p, QuestionsAt(m), EncodeQuestions(m.questions))
    && Holds(p, AnswersAt(m), EncodeRecords(m.answers))
    && Holds(p, AuthoritiesAt(m), EncodeRecords(m.authorities))
    && Holds(p, AdditionalAt(m), EncodeRecords(m.additional))
    && AdditionalAt(m) + |EncodeRecords(m.additional)| == |p|
  }

  lemma SectionsHeld(m: Message)
    requires m.Valid()
    ensures Laid(Encode(m), m)
  {
    hide EncodeCounts, EncodeQuestions, EncodeRecords, InTurn, Short, ShortAt;
    var p := Encode(m);
    var b := EncodeBody(m);
    assert Holds(p, 0, Short(|b|));
    HoldsShort(p, 0, |b|);
    assert Holds(p, 2, b);
    BodyHeld(p, m);
    CountsHeld(p, m);
  }

  lemma BodyHeld(p: seq<byte>, m: Message)
    requires m.Valid()
    requires Holds(p, 2, EncodeBody(m))
    ensures Holds(p, 2, EncodeCounts(m))
    ensures Holds(p, QuestionsAt(m), EncodeQuestions(m.questions))
    ensures Holds(p, AnswersAt(m), EncodeRecords(m.answers))
    ensures Holds(p, AuthoritiesAt(m), EncodeRecords(m.authorities))
    ensures Holds(p, AdditionalAt(m), EncodeRecords(m.additional))
  {
    hide EncodeCounts, EncodeQuestions, EncodeRecords, Holds, InTurn;
    var c := EncodeCounts(m);
    var q, a, u, d := EncodeQuestions(m.questions), EncodeRecords(m.answers),
                      EncodeRecords(m.authorities), EncodeRecords(m.additional);
    HoldsInTurn(p, 2, c, q, a, u, d);
  }

  lemma HoldsInTurn(p: seq<byte>, i: nat, c: seq<byte>, q: seq<byte>, a: seq<byte>, u: seq<byte>, d: seq<byte>)
    requires Holds(p, i, InTurn(c, q, a, u, d))
    ensures Holds(p, i, c) && Holds(p, i + |c|, q) && Holds(p, i + |c| + |q|, a)
    ensures Holds(p, i + |c| + |q| + |a|, u) && Holds(p, i + |c| + |q| + |a| + |u|, d)
  {
    HoldsSplit(p, i, c, q + (a + (u + d)));
    HoldsSplit(p, i + |c|, q, a + (u + d));
    HoldsSplit(p, i + |c| + |q|, a, u + d);
    HoldsSplit(p, i + |c| + |q| + |a|, u, d);
  }

  lemma CountsHeld(p: seq<byte>, m: Message)
    requires m.Valid()
    requires Holds(p, 2, EncodeCounts(m))
    ensures ShortAt(p, 6) == |m.questions| && ShortAt(p, 8) == |m.answers|
    ensures ShortAt(p, 10) == |m.authorities| && ShortAt(p, 12) == |m.additional|
  {
    hide Short, ShortAt, Holds, EncodeQuestions, EncodeRecords, ValidRecords;
    var i, f, q, a, u, d := Short(m.id), Short(m.flags), Short(|m.questions|), Short(|m.answers|),
                            Short(|m.authorities|), Short(|m.additional|);
    HoldsSplit(p, 2, i + f + q + a + u, d);
    HoldsSplit(p, 2, i + f + q + a, u);
    HoldsSplit(p, 2, i + f + q, a);
    HoldsSplit(p, 2, i + f, q);
    HoldsShort(p, 6, |m.questions|);
    HoldsShort(p, 8, |m.answers|);
    HoldsShort(p, 10, |m.authorities|);
    HoldsShort(p, 12, |m.additional|);
  }

  lemma Regroup(x: seq<byte>, y: seq<byte>, z: seq<byte>)
    ensures x + (y + z) == (x + y) + z
  {
  }

  /** A section splits where one of its records starts. */
  lemma {:induction false} RecordsSplit(rs: seq<Record>, i: nat)
    requires ValidRecords(rs) && i < |rs|
    ensures ValidRecords(rs[..i]) && ValidRecords(rs[i + 1..])
    ensures EncodeRecords(rs) == EncodeRecords(rs[..i]) + (EncodeRecord(rs[i]) + EncodeRecords(rs[i + 1..]))
  {
    hide EncodeRecord, Record.Valid;
    if i > 0 {
      RecordsSplit(rs[1..], i - 1);
      assert rs[1..][..i - 1] == rs[..i][1..];
      assert rs[1..][i..] == rs[i + 1..];
      Regroup(EncodeRecord(rs[0]), EncodeRecords(rs[1..][..i - 1]), EncodeRecord(rs[i]) + EncodeRecords(rs[i + 1..]));
    }
  }
}
