// Walking a packet section by section: what the skip loops compute, octet by
// octet, on any packet, and where they land on the encoding of a message.

module Walk {
  import opened Bytes
  import opened Message

  /** Forming an iterator beyond the end of the packet is undefined in the source. */
  datatype Walk = At(pos: nat) | PastEnd

  /** Where skipName ends: at most one octet too far, when the packet stops inside a pointer. */
  function SkipName(p: seq<byte>, i: nat): (j: nat)
    requires i <= |p|
    ensures i <= j <= |p| + 1 && (i < |p| ==> i < j)
    decreases |p| - i
  {
    if i == |p| then i
    else if p[i] == 0 then i + 1
    else if p[i] >= 0xC0 then i + 2
    else if |p| - i > p[i] + 1 then SkipName(p, i + p[i] + 1)
    else |p|
  }

  function SkipFixed(p: seq<byte>, i: nat, length: nat): (j: nat)
    requires i <= |p|
    ensures j == if i + length <= |p| then i + length else |p|
  {
    if |p| - i > length then i + length else |p|
  }

  function SkipQuestion(p: seq<byte>, i: nat): (w: Walk)
    requires i <= |p|
    ensures w.At? ==> i <= w.pos <= |p|
  {
    var n := SkipName(p, i);
    if n > |p| then PastEnd else At(SkipFixed(p, n, 4))
  }

  function SkipQuestions(p: seq<byte>, count: nat, i: nat): (w: Walk)
    requires i <= |p|
    ensures w.At? ==> i <= w.pos <= |p|
  {
    if count == 0 || i == |p| then At(i)
    else match SkipQuestion(p, i)
      case PastEnd => PastEnd
      case At(j) => SkipQuestions(p, count - 1, j)
  }

  function SkipRecord(p: seq<byte>, i: nat): (w: Walk)
    requires i <= |p|
    ensures w.At? ==> i <= w.pos <= |p|
  {
    var n := SkipName(p, i);
    if n > |p| then PastEnd
    else
      var f := SkipFixed(p, n, 8);
      At(if |p| - f >= 2 then SkipFixed(p, f + 2, ShortAt(p, f)) else |p|)
  }

  function SkipRecords(p: seq<byte>, count: nat, i: nat): (w: Walk)
    requires i <= |p|
    ensures w.At? ==> i <= w.pos <= |p|
  {
    if count == 0 || i == |p| then At(i)
    else match SkipRecord(p, i)
      case PastEnd => PastEnd
      case At(j) => SkipRecords(p, count - 1, j)
  }

  /** getHeader: the packet has a header and its length prefix is right. */
  predicate HasHeader(p: seq<byte>) {
    |p| >= HEADER && ShortAt(p, 0) == |p| - 2
  }

  /** The two octets in front are those that count the rest, which is twelve octets or more. */
  lemma HeaderCounts(p: seq<byte>)
    ensures HasHeader(p) <==> 14 <= |p| < 2 + LIMIT && p == Short(|p| - 2) + p[2..]
  {
    if 14 <= |p| < 2 + LIMIT {
      var b := Short(|p| - 2);
      if p == b + p[2..] {
        assert p[0] == b[0] && p[1] == b[1];
      }
      if HasHeader(p) {
        assert p[..2] == b;
        assert p == p[..2] + p[2..];
      }
    }
  }

  // ------------------------------------------------ what follows does not matter

  /** `q` has the same octets as `p` up to `j`, and any, or none, from there on. */
  predicate SameUpTo(p: seq<byte>, q: seq<byte>, j: nat) {
    j < |p| && j <= |q| && p[..j] == q[..j]
  }

  lemma {:induction false} NameStays(p: seq<byte>, q: seq<byte>, i: nat)
    requires i <= |p| && SameUpTo(p, q, SkipName(p, i))
    ensures SkipName(q, i) == SkipName(p, i)
    decreases |p| - i
  {
    var j := SkipName(p, i);
    assert i < j && p[i] == p[..j][i] == q[..j][i] == q[i];
    if p[i] != 0 && p[i] < 0xC0 {
      assert j == SkipName(p, i + p[i] + 1);
      NameStays(p, q, i + p[i] + 1);
    }
  }

  lemma QuestionStays(p: seq<byte>, q: seq<byte>, i: nat)
    requires i <= |p| && SkipQuestion(p, i).At? && SameUpTo(p, q, SkipQuestion(p, i).pos)
    ensures i < SkipQuestion(p, i).pos && SkipQuestion(q, i) == SkipQuestion(p, i)
  {
    var n, j := SkipName(p, i), SkipQuestion(p, i).pos;
    assert p[..n] == p[..j][..n] && q[..n] == q[..j][..n];
    NameStays(p, q, i);
  }

  lemma RecordStays(p: seq<byte>, q: seq<byte>, i: nat)
    requires i <= |p| && SkipRecord(p, i).At? && SameUpTo(p, q, SkipRecord(p, i).pos)
    ensures i < SkipRecord(p, i).pos && SkipRecord(q, i) == SkipRecord(p, i)
  {
    var n, j := SkipName(p, i), SkipRecord(p, i).pos;
    assert p[..n] == p[..j][..n] && q[..n] == q[..j][..n];
    NameStays(p, q, i);
    assert p[..j][n + 8..n + 10] == q[..j][n + 8..n + 10];
    assert p[n + 8..n + 10] == p[..j][n + 8..n + 10] && q[n + 8..n + 10] == q[..j][n + 8..n + 10];
  }

  /** On any packet at all: questions that end before its end are skipped alike whatever follows them. */
  lemma {:induction false} QuestionsStay(p: seq<byte>, q: seq<byte>, count: nat, i: nat)
    requires i <= |p| && SkipQuestions(p, count, i).At? && SameUpTo(p, q, SkipQuestions(p, count, i).pos)
    ensures SkipQuestions(q, count, i) == SkipQuestions(p, count, i)
  {
    if count > 0 {
      var k, j := SkipQuestion(p, i).pos, SkipQuestions(p, count, i).pos;
      assert p[..k] == p[..j][..k] && q[..k] == q[..j][..k];
      QuestionStays(p, q, i);
      QuestionsStay(p, q, count - 1, k);
    }
  }

  /** And so are records. */
  lemma {:induction false} RecordsStay(p: seq<byte>, q: seq<byte>, count: nat, i: nat)
    requires i <= |p| && SkipRecords(p, count, i).At? && SameUpTo(p, q, SkipRecords(p, count, i).pos)
    ensures SkipRecords(q, count, i) == SkipRecords(p, count, i)
  {
    if count > 0 {
      var k, j := SkipRecord(p, i).pos, SkipRecords(p, count, i).pos;
      assert p[..k] == p[..j][..k] && q[..k] == q[..j][..k];
      RecordStays(p, q, i);
      RecordsStay(p, q, count - 1, k);
    }
  }

  // ------------------------------------------------ landing on section boundaries

  lemma {:induction false} LabelsLand(p: seq<byte>, i: nat, labels: seq<seq<byte>>)
    requires forall k :: 0 <= k < |labels| ==> 1 <= |labels[k]| <= 63
    requires Holds(p, i, EncodeLabels(labels)) && i + |EncodeLabels(labels)| < |p|
    ensures SkipName(p, i) == SkipName(p, i + |EncodeLabels(labels)|)
    decreases labels
  {
    hide SkipName, Holds;
    if labels != [] {
      var first, rest := [|labels[0]|] + labels[0], EncodeLabels(labels[1..]);
      HoldsSplit(p, i, first, rest);
      LabelSkipped(p, i, labels[0], first);
      LabelsLand(p, i + |first|, labels[1..]);
    }
  }

  lemma LabelSkipped(p: seq<byte>, i: nat, text: seq<byte>, encoded: seq<byte>)
    requires 1 <= |text| <= 63 && encoded == [|text|] + text
    requires Holds(p, i, encoded) && i + |encoded| < |p|
    ensures SkipName(p, i) == SkipName(p, i + |encoded|)
  {
    HoldsAt(p, i, encoded, 0);
  }

  lemma NameLands(p: seq<byte>, i: nat, n: Name)
    requires n.Valid() && Holds(p, i, EncodeName(n))
    ensures SkipName(p, i) == i + |EncodeName(n)|
  {
    var labels, ending := EncodeLabels(n.labels), EncodeEnding(n.ending);
    HoldsSplit(p, i, labels, ending);
    HoldsAt(p, i + |labels|, ending, 0);
    LabelsLand(p, i, n.labels);
  }

  lemma QuestionLands(p: seq<byte>, i: nat, q: Question)
    requires q.Valid() && Holds(p, i, EncodeQuestion(q))
    ensures SkipQuestion(p, i) == At(i + |EncodeQuestion(q)|)
  {
    HoldsSplit(p, i, EncodeName(q.name), Short(q.qtype) + Short(q.qclass));
    NameLands(p, i, q.name);
  }

  /** Where the fields of a record are. */
  lemma RecordHeld(p: seq<byte>, i: nat, r: Record)
    requires r.Valid() && Holds(p, i, EncodeRecord(r))
    ensures var n := i + |EncodeName(r.name)|;
            && Holds(p, i, EncodeName(r.name)) && n + 10 + |r.rdata| <= |p|
            && ShortAt(p, n) == r.rtype && ShortAt(p, n + 8) == |r.rdata|
            && Holds(p, n + 10, r.rdata)
            && |EncodeRecord(r)| == |EncodeName(r.name)| + 10 + |r.rdata|
  {
    var name, front, back := EncodeName(r.name), Short(r.rtype) + r.fixed, Short(|r.rdata|) + r.rdata;
    var n := i + |name|;
    HoldsSplit(p, i, name, front + back);
    HoldsSplit(p, n, front, back);
    HoldsSplit(p, n, Short(r.rtype), r.fixed);
    HoldsSplit(p, n + 8, Short(|r.rdata|), r.rdata);
    HoldsShort(p, n, r.rtype);
    HoldsShort(p, n + 8, |r.rdata|);
  }

  lemma RecordLands(p: seq<byte>, i: nat, r: Record)
    requires r.Valid() && Holds(p, i, EncodeRecord(r))
    ensures SkipRecord(p, i) == At(i + |EncodeRecord(r)|)
  {
    RecordHeld(p, i, r);
    NameLands(p, i, r.name);
  }

  /** Questions are skipped exactly, whatever precedes and follows them. */
  lemma {:induction false} QuestionsLand(p: seq<byte>, i: nat, qs: seq<Question>)
    requires forall k :: 0 <= k < |qs| ==> qs[k].Valid()
    requires Holds(p, i, EncodeQuestions(qs))
    ensures SkipQuestions(p, |qs|, i) == At(i + |EncodeQuestions(qs)|)
    decreases qs
  {
    if qs != [] {
      HoldsSplit(p, i, EncodeQuestion(qs[0]), EncodeQuestions(qs[1..]));
      QuestionLands(p, i, qs[0]);
      QuestionsLand(p, i + |EncodeQuestion(qs[0])|, qs[1..]);
    }
  }

  /** Records are skipped exactly, whatever precedes and follows them. */
  lemma {:induction false} RecordsLand(p: seq<byte>, i: nat, rs: seq<Record>)
    requires ValidRecords(rs) && Holds(p, i, EncodeRecords(rs))
    ensures SkipRecords(p, |rs|, i) == At(i + |EncodeRecords(rs)|)
    decreases rs
  {
    if rs != [] {
      HoldsSplit(p, i, EncodeRecord(rs[0]), EncodeRecords(rs[1..]));
      RecordHeld(p, i, rs[0]);
      RecordLands(p, i, rs[0]);
      RecordsLand(p, i + |EncodeRecord(rs[0])|, rs[1..]);
    }
  }

  lemma FirstSectionsLand(p: seq<byte>, m: Message)
    requires m.Valid() && Laid(p, m)
    ensures SkipQuestions(p, |m.questions|, HEADER) == At(AnswersAt(m))
    ensures SkipRecords(p, |m.answers|, AnswersAt(m)) == At(AuthoritiesAt(m))
  {
    hide EncodeRecords, EncodeQuestions, SkipRecords, SkipQuestions, ShortAt;
    QuestionsLand(p, QuestionsAt(m), m.questions);
    RecordsLand(p, AnswersAt(m), m.answers);
  }

  lemma LastSectionsLand(p: seq<byte>, m: Message)
    requires m.Valid() && Laid(p, m)
    ensures SkipRecords(p, |m.authorities|, AuthoritiesAt(m)) == At(AdditionalAt(m))
    ensures SkipRecords(p, |m.additional|, AdditionalAt(m)) == At(|p|)
  {
    hide EncodeRecords, EncodeQuestions, SkipRecords, SkipQuestions, ShortAt;
    RecordsLand(p, AuthoritiesAt(m), m.authorities);
    RecordsLand(p, AdditionalAt(m), m.additional);
  }

  /** From the header over the first three sections, by the counts in the header. */
  function WalkToAdditional(p: seq<byte>): (w: Walk)
    requires HasHeader(p)
    ensures w.At? ==> HEADER <= w.pos <= |p|
  {
    match SkipQuestions(p, ShortAt(p, 6), HEADER)
    case PastEnd => PastEnd
    case At(a) =>
      match SkipRecords(p, ShortAt(p, 8), a)
      case PastEnd => PastEnd
      case At(u) => SkipRecords(p, ShortAt(p, 10), u)
  }

  /** From the header over all four sections. */
  function WalkAll(p: seq<byte>): (w: Walk)
    requires HasHeader(p)
    ensures w.At? ==> HEADER <= w.pos <= |p|
  {
    match WalkToAdditional(p)
    case PastEnd => PastEnd
    case At(d) => SkipRecords(p, ShortAt(p, 12), d)
  }

  /** The walk visits every section boundary of an encoded message and ends with the packet. */
  lemma MessageLands(m: Message)
    requires m.Valid()
    ensures HasHeader(Encode(m))
    ensures WalkToAdditional(Encode(m)) == At(AdditionalAt(m))
    ensures WalkAll(Encode(m)) == At(|Encode(m)|)
  {
    SectionsHeld(m);
    FirstSectionsLand(Encode(m), m);
    LastSectionsLand(Encode(m), m);
  }

  // ------------------------------------------------ finding the OPT record

  datatype Search = Found(pos: nat) | Missing | Lost

  /**
   * The loop over the additional section. `Lost` is a step beyond the end of
   * the packet. An OPT whose RDATA does not fit is looked at again until the
   * count runs out.
   */
  function FindOpt(p: seq<byte>, count: nat, i: nat): (s: Search)
    requires i <= |p|
    ensures s.Found? ==> i <= s.pos && s.pos + 11 <= |p|
                         && p[s.pos] == 0 && ShortAt(p, s.pos + 1) == OPT
                         && s.pos + 11 + ShortAt(p, s.pos + 9) <= |p|
  {
    if count == 0 || i == |p| then Missing
    else if p[i] != 0 || |p| - i < 11 || ShortAt(p, i + 1) != OPT then
      match SkipRecords(p, 1, i)
      case PastEnd => Lost
      case At(j) => FindOpt(p, count - 1, j)
    else if |p| - i >= ShortAt(p, i + 9) + 11 then Found(i)
    else FindOpt(p, count - 1, i)
  }

  /** One turn of the loop. */
  lemma FindOptNext(p: seq<byte>, count: nat, i: nat)
    requires 0 < count && i < |p|
    ensures FindOpt(p, count, i)
            == if p[i] != 0 || |p| - i < 11 || ShortAt(p, i + 1) != OPT then
                 (if SkipRecords(p, 1, i).At? then FindOpt(p, count - 1, SkipRecords(p, 1, i).pos) else Lost)
               else if |p| - i >= ShortAt(p, i + 9) + 11 then Found(i)
               else FindOpt(p, count - 1, i)
  {
  }

  lemma FindOptEnds(p: seq<byte>, count: nat, i: nat)
    requires i <= |p| && (count == 0 || i == |p|)
    ensures FindOpt(p, count, i) == Missing
  {
  }

  /** What removeEdnsPadding finds in any packet with a header. */
  function Locate(p: seq<byte>): (s: Search)
    requires HasHeader(p)
    ensures s.Found? ==> HEADER <= s.pos && s.pos + 11 <= |p|
                         && p[s.pos] == 0 && ShortAt(p, s.pos + 1) == OPT
                         && s.pos + 11 + ShortAt(p, s.pos + 9) <= |p|
  {
    match WalkToAdditional(p)
    case PastEnd => Lost
    case At(d) => FindOpt(p, ShortAt(p, 12), d)
  }

  /** The number of records before the first OPT record, or of all records. */
  function BeforeOpt(rs: seq<Record>): (i: nat)
    ensures i <= |rs|
    ensures forall k :: 0 <= k < i ==> !rs[k].IsOpt()
    ensures i < |rs| ==> rs[i].IsOpt()
  {
    if rs == [] || rs[0].IsOpt() then 0 else 1 + BeforeOpt(rs[1..])
  }

  /** A record starts with a zero octet and type OPT exactly when it is an OPT record. */
  lemma OptSeen(p: seq<byte>, i: nat, r: Record)
    requires r.Valid() && Holds(p, i, EncodeRecord(r))
    ensures i < |p|
    ensures r.IsOpt() <==> p[i] == 0 && |p| - i >= 11 && ShortAt(p, i + 1) == OPT
    ensures r.IsOpt() ==> ShortAt(p, i + 9) == |r.rdata| && |p| - i >= |r.rdata| + 11
  {
    RecordHeld(p, i, r);
    HoldsAt(p, i, EncodeName(r.name), 0);
    if r.name.labels == [] {
      assert EncodeName(r.name) == EncodeEnding(r.name.ending);
    }
  }

  /** One turn of the search: it stops at an OPT record and passes over any other. */
  lemma FindOptTurn(p: seq<byte>, count: nat, i: nat, r: Record)
    requires r.Valid() && Holds(p, i, EncodeRecord(r)) && count > 0
    ensures FindOpt(p, count, i) == if r.IsOpt() then Found(i) else FindOpt(p, count - 1, i + |EncodeRecord(r)|)
  {
    OptSeen(p, i, r);
    RecordLands(p, i, r);
    assert SkipRecords(p, 1, i) == SkipRecord(p, i);
  }

  /** The search finds the first OPT record of an encoded section, and only that. */
  lemma {:induction false} FindOptLands(p: seq<byte>, i: nat, rs: seq<Record>)
    requires ValidRecords(rs) && Holds(p, i, EncodeRecords(rs))
    ensures var k := BeforeOpt(rs);
            FindOpt(p, |rs|, i) == if k == |rs| then Missing else Found(i + |EncodeRecords(rs[..k])|)
    decreases rs
  {
    hide EncodeRecord, EncodeRecords, FindOpt, Record.Valid, Record.IsOpt;
    FindOptNothing(p, i, rs);
    if rs != [] {
      var k, first := BeforeOpt(rs), EncodeRecord(rs[0]);
      EncodedHead(rs, k);
      HoldsSplit(p, i, first, EncodeRecords(rs[1..]));
      FindOptTurn(p, |rs|, i, rs[0]);
      if !rs[0].IsOpt() {
        FindOptLands(p, i + |first|, rs[1..]);
      }
    }
  }

  lemma FindOptNothing(p: seq<byte>, i: nat, rs: seq<Record>)
    requires i <= |p|
    ensures rs == [] ==> FindOpt(p, |rs|, i) == Missing
  {
  }

  /** The encoding of a section, and of its first records, starts with that of the first. */
  lemma EncodedHead(rs: seq<Record>, k: nat)
    requires ValidRecords(rs) && rs != [] && k <= |rs|
    ensures EncodeRecords(rs) == EncodeRecord(rs[0]) + EncodeRecords(rs[1..])
    ensures |EncodeRecords(rs[..k])| == if k == 0 then 0 else |EncodeRecord(rs[0])| + |EncodeRecords(rs[1..][..k - 1])|
  {
    if k > 0 {
      assert rs[..k][1..] == rs[1..][..k - 1];
    }
  }

  /** Where the first OPT record of a message starts. */
  function OptAt(m: Message): nat
    requires m.Valid()
  {
    AdditionalAt(m) + |EncodeRecords(m.additional[..BeforeOpt(m.additional)])|
  }

  lemma LocateLands(m: Message)
    requires m.Valid()
    ensures HasHeader(Encode(m))
    ensures Locate(Encode(m))
            == if BeforeOpt(m.additional) == |m.additional| then Missing else Found(OptAt(m))
  {
    hide Encode, EncodeRecord, EncodeRecords, EncodeQuestions, SkipRecords, FindOpt, WalkToAdditional;
    SectionsHeld(m);
    MessageLands(m);
    FindOptLands(Encode(m), AdditionalAt(m), m.additional);
  }
}
