// What removeEdnsPadding makes of a whole packet, and what that means for the
// message the packet encodes.

module Rewrite {
  import opened Bytes
  import opened Message
  import opened Walk
  import opened Options
  import opened Splice

  /** The RDATA of the record at `at`. */
  function Area(p: seq<byte>, at: nat): seq<byte>
    requires at + 11 <= |p| && at + 11 + ShortAt(p, at + 9) <= |p|
  {
    p[at + 11..at + 11 + ShortAt(p, at + 9)]
  }

  /** The packets on which the source reads and moves within the packet only. */
  predicate Safe(p: seq<byte>) {
    HasHeader(p) ==>
      match Locate(p)
      case Lost => false
      case Missing => true
      case Found(at) => Tiles(Area(p, at))
  }

  lemma SafeLocates(p: seq<byte>)
    requires Safe(p) && HasHeader(p)
    ensures WalkToAdditional(p).At? && !Locate(p).Lost?
    ensures Locate(p) == FindOpt(p, ShortAt(p, 12), WalkToAdditional(p).pos)
  {
  }

  /** `p` with `s`, which is no longer, as the RDATA of the record at `at`, and both lengths put right. */
  function Patched(p: seq<byte>, at: nat, s: seq<byte>): seq<byte>
    requires 2 <= at && at + 11 <= |p| && at + 11 + ShortAt(p, at + 9) <= |p|
    requires HasHeader(p) && |s| <= ShortAt(p, at + 9)
  {
    var length := ShortAt(p, at + 9);
    Short(ShortAt(p, 0) - (length - |s|)) + (p[2..at + 9] + ((Short(|s|) + s) + p[at + 11 + length..]))
  }

  ghost function Rewritten(p: seq<byte>): seq<byte>
    requires Safe(p)
  {
    if HasHeader(p) && Locate(p).Found? then
      Patched(p, Locate(p).pos, Survivors(Area(p, Locate(p).pos)))
    else p
  }

  lemma NothingIsSafe()
    ensures Safe([])
  {
  }

  lemma NotFoundUntouched(p: seq<byte>)
    requires Safe(p) && !(HasHeader(p) && Locate(p).Found?)
    ensures Rewritten(p) == p
  {
  }

  /** What survives is no longer than the data it comes from. */
  lemma SurvivorsFit(data: seq<byte>)
    requires Tiles(data)
    ensures |Survivors(data)| == |KeptBytes(data)| <= |data| == |Compacted(data)|
  {
    assert |Compacted(data)| == |data|;
  }

  /** `p` with `c` for the `length` octets from `begin`. */
  function Replaced(p: seq<byte>, begin: nat, length: nat, c: seq<byte>): (r: seq<byte>)
    requires begin + length <= |p| && |c| == length
    ensures |r| == |p|
  {
    p[..begin] + c + p[begin + length..]
  }

  /** `p` with `v` at `at`, and `diff` less in the length prefix. */
  function Relengthed(p: seq<byte>, at: nat, v: nat, diff: nat): (r: seq<byte>)
    requires 2 <= at && at + 2 <= |p| && v < LIMIT && diff <= ShortAt(p, 0)
    ensures |r| == |p|
  {
    Short(ShortAt(p, 0) - diff) + p[2..at] + Short(v) + p[at + 2..]
  }

  /** Both lengths set, one after the other. */
  lemma SetTwice(p: seq<byte>, at: nat, v: nat, diff: nat, q: seq<byte>)
    requires 2 <= at && at + 2 <= |p| && v < LIMIT && diff <= ShortAt(p, 0)
    requires q == p[..at] + Short(v) + p[at + 2..]
    ensures ShortAt(q, 0) == ShortAt(p, 0)
    ensures q[..0] + Short(ShortAt(p, 0) - diff) + q[2..] == Relengthed(p, at, v, diff)
  {
    hide Short;
    assert q[2..] == p[2..at] + Short(v) + p[at + 2..];
    var x := Short(ShortAt(p, 0) - diff);
    assert q[..0] + x == x;
    assert x + (p[2..at] + Short(v) + p[at + 2..]) == x + p[2..at] + Short(v) + p[at + 2..];
  }

  /** `p` without the `diff` octets from `from`. */
  function Without(p: seq<byte>, from: nat, diff: nat): seq<byte>
    requires from + diff <= |p|
  {
    p[..from] + p[from + diff..]
  }

  /** Moving the end down and cutting off what is doubled. */
  lemma CutAfterCopy(q: seq<byte>, dest: nat, first: nat)
    requires dest <= first <= |q|
    ensures Moved(q, first, |q|, dest)[..|q| - (first - dest)] == Without(q, dest, first - dest)
  {
  }

  /**
   * Compacting the area, setting both lengths and taking out as many octets as
   * the padding had, from the start of the area, gives the patched packet.
   */
  lemma SpliceIsPatch(p: seq<byte>, at: nat)
    requires HasHeader(p) && Safe(p) && Locate(p) == Found(at)
    ensures var area := Area(p, at);
            area == p[at + 11..at + 11 + ShortAt(p, at + 9)] && Tiles(area)
    ensures var area := Area(p, at);
            var kept := |KeptBytes(area)|;
            && kept <= |area| == |Compacted(area)|
            && var p1 := Replaced(p, at + 11, |area|, Compacted(area));
            && ShortAt(p1, 0) == |p| - 2 && |area| - kept <= |p| - 2
            && var q := Relengthed(p1, at + 9, kept, |area| - kept);
            Rewritten(p) == Without(q, at + 11, |area| - kept)
  {
    hide Tiles, KeptBytes, Compacted, Short, ShortAt, Locate, Patched, Replaced, Relengthed, Without, HasHeader;
    var area := Area(p, at);
    SurvivorsFit(area);
    var kept := |KeptBytes(area)|;
    PatchSteps(p, at, Compacted(area), |area| - kept);
  }

  lemma PatchSteps(p: seq<byte>, at: nat, c: seq<byte>, n: nat)
    requires HasHeader(p) && HEADER <= at && at + 11 <= |p|
    requires |c| == ShortAt(p, at + 9) && at + 11 + |c| <= |p| && n <= |c|
    ensures var p1 := Replaced(p, at + 11, |c|, c);
            && ShortAt(p1, 0) == |p| - 2
            && Without(Relengthed(p1, at + 9, |c| - n, n), at + 11, n) == Patched(p, at, c[n..])
  {
    hide Short;
    Shuffle(p, at, c, p[at + 11 + |c|..], Short(|p| - 2 - n), Short(|c| - n), n);
  }

  lemma Shuffle(p: seq<byte>, at: nat, c: seq<byte>, tail: seq<byte>, total: seq<byte>, kept: seq<byte>, n: nat)
    requires 2 <= at && at + 11 <= |p| && |total| == 2 == |kept| && n <= |c|
    ensures var p1 := p[..at + 11] + c + tail;
            var q := total + p1[2..at + 9] + kept + p1[at + 11..];
            at + 11 + n <= |q|
            && q[..at + 11] + q[at + 11 + n..] == total + (p[2..at + 9] + ((kept + c[n..]) + tail))
  {
    var p1 := p[..at + 11] + c + tail;
    assert p1[2..at + 9] == p[2..at + 9] && p1[at + 11..] == c + tail;
    var q := total + p1[2..at + 9] + kept + p1[at + 11..];
    assert q[..at + 11] == total + p[2..at + 9] + kept;
    assert q[at + 11 + n..] == c[n..] + tail;
  }

  /** What is rewritten still has a right length prefix. */
  lemma RewrittenHasHeader(p: seq<byte>)
    requires Safe(p) && HasHeader(p)
    ensures HasHeader(Rewritten(p))
  {
    hide Tiles, Survivors, KeptBytes, Locate;
    if Locate(p).Found? {
      SurvivorsFit(Area(p, Locate(p).pos));
    }
  }

  /** What goes out over UDP: the rewritten packet without the length prefix. */
  ghost function Datagram(p: seq<byte>): seq<byte>
    requires Safe(p) && HasHeader(p)
  {
    RewrittenHasHeader(p);
    Rewritten(p)[2..]
  }

  // ------------------------------------------------ replacing the RDATA of the OPT record

  predicate HasOpt(m: Message) {
    BeforeOpt(m.additional) < |m.additional|
  }

  function OptData(m: Message): seq<byte>
    requires HasOpt(m)
  {
    m.additional[BeforeOpt(m.additional)].rdata
  }

  /** `m` with `s` in its first OPT record. */
  function WithOptData(m: Message, s: seq<byte>): Message
    requires HasOpt(m)
  {
    var i := BeforeOpt(m.additional);
    m.(additional := m.additional[i := m.additional[i].(rdata := s)])
  }

  /** `m` without the padding in its first OPT record: what is meant to be sent on. */
  ghost function Unpadded(m: Message): Message
    requires HasOpt(m) && Tiles(OptData(m))
  {
    WithOptData(m, KeptBytes(OptData(m)))
  }

  lemma {:induction false} BeforeOptStable(rs: seq<Record>, s: seq<byte>)
    ensures var i := BeforeOpt(rs);
            i < |rs| ==> BeforeOpt(rs[i := rs[i].(rdata := s)]) == i
  {
    if rs != [] && !rs[0].IsOpt() {
      var i := BeforeOpt(rs);
      BeforeOptStable(rs[1..], s);
      if i < |rs| {
        assert rs[i := rs[i].(rdata := s)][1..] == rs[1..][i - 1 := rs[i].(rdata := s)];
      }
    }
  }

  /** The octets between the length prefix and the RDLENGTH of record `i`. */
  function Front(m: Message, i: nat): seq<byte>
    requires m.Valid() && i < |m.additional|
  {
    var r := m.additional[i];
    (EncodeCounts(m) + (EncodeQuestions(m.questions) + (EncodeRecords(m.answers) + EncodeRecords(m.authorities))))
    + ((EncodeRecords(m.additional[..i]) + EncodeName(r.name)) + (Short(r.rtype) + r.fixed))
  }

  /** The octets behind record `i`. */
  function Back(m: Message, i: nat): seq<byte>
    requires m.Valid() && i < |m.additional|
  {
    EncodeRecords(m.additional[i + 1..])
  }

  function Framed(front: seq<byte>, s: seq<byte>, back: seq<byte>): (p: seq<byte>)
    requires |s| < LIMIT && |front| + 2 + |s| + |back| < LIMIT
    ensures |p| == 2 + |front| + 2 + |s| + |back|
  {
    Short(|front| + 2 + |s| + |back|) + (front + ((Short(|s|) + s) + back))
  }

  lemma Regroup(c: seq<byte>, q: seq<byte>, a: seq<byte>, u: seq<byte>, d: seq<byte>,
                n: seq<byte>, t: seq<byte>, v: seq<byte>, b: seq<byte>)
    ensures InTurn(c, q, a, u, d + ((n + (t + v)) + b))
            == ((c + (q + (a + u))) + ((d + n) + t)) + (v + b)
  {
  }

  lemma BodyFramed(m: Message, i: nat)
    requires m.Valid() && i < |m.additional|
    ensures var r := m.additional[i];
            r.Valid() && EncodeBody(m) == Front(m, i) + ((Short(|r.rdata|) + r.rdata) + Back(m, i))
  {
    var r := m.additional[i];
    assert r.Valid();
    RecordsSplit(m.additional, i);
    Regroup(EncodeCounts(m), EncodeQuestions(m.questions), EncodeRecords(m.answers), EncodeRecords(m.authorities),
            EncodeRecords(m.additional[..i]), EncodeName(r.name), Short(r.rtype) + r.fixed,
            Short(|r.rdata|) + r.rdata, Back(m, i));
  }

  /** A packet is its front, the RDATA of one additional record with its length, and its back. */
  lemma EncodeFramed(m: Message, i: nat)
    requires m.Valid() && i < |m.additional|
    ensures |m.additional[i].rdata| < LIMIT
    ensures |Front(m, i)| + 2 + |m.additional[i].rdata| + |Back(m, i)| < LIMIT
    ensures Encode(m) == Framed(Front(m, i), m.additional[i].rdata, Back(m, i))
  {
    hide EncodeBody, Front, Back, Short;
    BodyFramed(m, i);
    var b := EncodeBody(m);
    assert |b| == |Front(m, i)| + 2 + |m.additional[i].rdata| + |Back(m, i)|;
  }

  lemma FramedParts(front: seq<byte>, s: seq<byte>, back: seq<byte>)
    requires |s| < LIMIT && |front| + 2 + |s| + |back| < LIMIT
    ensures var p, n := Framed(front, s, back), |front| + 2;
            && |p| == n + 2 + |s| + |back| && ShortAt(p, 0) == |p| - 2 && ShortAt(p, n) == |s|
            && p[2..n] == front && p[n + 2..n + 2 + |s|] == s && p[n + 2 + |s|..] == back
  {
    var p, n := Framed(front, s, back), |front| + 2;
    var rest := (Short(|s|) + s) + back;
    assert p[2..] == front + rest;
    assert p[n..] == rest;
    assert ShortAt(p, 0) == ShortAt(Short(|front| + 2 + |s| + |back|), 0);
    assert ShortAt(p, n) == ShortAt(Short(|s|), 0) by {
      assert p[n] == rest[0] && p[n + 1] == rest[1];
    }
    assert rest[2..2 + |s|] == s && rest[2 + |s|..] == back;
    assert p[n + 2..n + 2 + |s|] == p[n..][2..2 + |s|];
    assert p[n + 2 + |s|..] == p[n..][2 + |s|..];
  }

  /** A shorter RDATA keeps the message valid, and its front and back. */
  lemma WithOptDataFramed(m: Message, s: seq<byte>)
    requires m.Valid() && HasOpt(m) && |s| <= |OptData(m)|
    ensures var m', i := WithOptData(m, s), BeforeOpt(m.additional);
            && m'.Valid() && HasOpt(m') && BeforeOpt(m'.additional) == i && OptData(m') == s
            && Front(m', i) == Front(m, i) && Back(m', i) == Back(m, i)
  {
    var m', i := WithOptData(m, s), BeforeOpt(m.additional);
    BeforeOptStable(m.additional, s);
    var r, r' := m.additional[i], m'.additional[i];
    assert r'.Valid();
    assert m'.additional[..i] == m.additional[..i] && m'.additional[i + 1..] == m.additional[i + 1..];
    assert ValidRecords(m'.additional);
    RecordsSplit(m.additional, i);
    RecordsSplit(m'.additional, i);
    assert |EncodeRecords(m'.additional)| <= |EncodeRecords(m.additional)|;
  }

  /** The front ends where the RDLENGTH of the OPT record starts. */
  lemma FrontEnds(m: Message)
    requires m.Valid() && HasOpt(m)
    ensures |Front(m, BeforeOpt(m.additional))| == OptAt(m) + 9 - 2
  {
    var r := m.additional[BeforeOpt(m.additional)];
    assert r.Valid();
    assert |EncodeName(r.name)| == 1;
  }

  lemma PatchedFramed(front: seq<byte>, s: seq<byte>, back: seq<byte>, s': seq<byte>)
    requires |s'| <= |s| < LIMIT && |front| + 2 + |s| + |back| < LIMIT && |front| >= 9 + 12
    ensures var p, at := Framed(front, s, back), |front| - 7;
            && HasHeader(p) && at + 11 <= |p| && at + 11 + ShortAt(p, at + 9) <= |p|
            && Area(p, at) == s && ShortAt(p, at + 9) == |s|
            && Patched(p, at, s') == Framed(front, s', back)
  {
    FramedParts(front, s, back);
  }

  // ------------------------------------------------ the main results

  /** The OPT record of `m` is at `at` in `p`, between `front` and `back`. */
  predicate Frames(p: seq<byte>, m: Message, front: seq<byte>, back: seq<byte>)
    requires HasOpt(m)
  {
    && |OptData(m)| < LIMIT && |front| >= 9 + 12 && |front| + 2 + |OptData(m)| + |back| < LIMIT
    && p == Framed(front, OptData(m), back)
    && HasHeader(p) && Locate(p) == Found(|front| - 7)
  }

  lemma EncodeFrames(m: Message)
    requires m.Valid() && HasOpt(m)
    ensures var i := BeforeOpt(m.additional);
            Frames(Encode(m), m, Front(m, i), Back(m, i)) && |Front(m, i)| == OptAt(m) + 7
  {
    LocateLands(m);
    EncodeFramed(m, BeforeOpt(m.additional));
    FrontEnds(m);
  }

  /** The same front and back frame the message with another RDATA. */
  lemma WithFrames(m: Message, s: seq<byte>)
    requires m.Valid() && HasOpt(m) && |s| <= |OptData(m)|
    ensures var m', i := WithOptData(m, s), BeforeOpt(m.additional);
            && m'.Valid() && HasOpt(m') && OptData(m') == s
            && Frames(Encode(m'), m', Front(m, i), Back(m, i))
  {
    WithOptDataFramed(m, s);
    EncodeFrames(WithOptData(m, s));
  }

  /** What the rewriter makes of a framed packet. */
  lemma FramedRewritten(p: seq<byte>, front: seq<byte>, data: seq<byte>, back: seq<byte>)
    requires |front| >= 9 + 12 && |data| < LIMIT && |front| + 2 + |data| + |back| < LIMIT
    requires p == Framed(front, data, back) && HasHeader(p) && Locate(p) == Found(|front| - 7)
    requires Tiles(data)
    ensures Safe(p)
    ensures |Survivors(data)| == |KeptBytes(data)| <= |data|
    ensures Rewritten(p) == Framed(front, Survivors(data), back)
  {
    SurvivorsFit(data);
    PatchedFramed(front, data, back, Survivors(data));
  }

  lemma FramedSame(front: seq<byte>, s: seq<byte>, s': seq<byte>, back: seq<byte>)
    requires |s| == |s'| < LIMIT && |front| + 2 + |s| + |back| < LIMIT
    ensures Framed(front, s, back) == Framed(front, s', back) <==> s == s'
  {
    FramedParts(front, s, back);
    FramedParts(front, s', back);
  }

  /**
   * Framing. For every well-formed message, whatever options its OPT record
   * mixes, the rewritten packet encodes the same message with other OPT data:
   * as long as the options that are not padding, and all the rest verbatim.
   */
  lemma FramingSurvives(m: Message)
    requires m.Valid() && HasOpt(m) && Tiles(OptData(m))
    ensures Safe(Encode(m))
    ensures WithOptData(m, Survivors(OptData(m))).Valid()
    ensures Rewritten(Encode(m)) == Encode(WithOptData(m, Survivors(OptData(m))))
    ensures |Survivors(OptData(m))| == |KeptBytes(OptData(m))| <= |OptData(m)|
    ensures |Rewritten(Encode(m))| == |Encode(m)| - |OptData(m)| + |KeptBytes(OptData(m))|
  {
    hide Encode, Front, Back, Framed, BeforeOpt, Tiles, ParseOptions, Message.Valid, WalkToAdditional, Locate;
    var i := BeforeOpt(m.additional);
    EncodeFrames(m);
    FramedRewritten(Encode(m), Front(m, i), OptData(m), Back(m, i));
    WithFrames(m, Survivors(OptData(m)));
  }

  /** A rewritten packet has a right length prefix, and its four sections end with it. */
  lemma RewrittenWalks(m: Message)
    requires m.Valid() && HasOpt(m) && Tiles(OptData(m))
    ensures Safe(Encode(m)) && HasHeader(Rewritten(Encode(m)))
    ensures WalkAll(Rewritten(Encode(m))) == At(|Rewritten(Encode(m))|)
  {
    FramingSurvives(m);
    MessageLands(WithOptData(m, Survivors(OptData(m))));
  }

  /**
   * Content. The rewritten packet encodes the message without its padding
   * exactly when the OPT data echoes.
   */
  lemma ContentExact(m: Message)
    requires m.Valid() && HasOpt(m) && Tiles(OptData(m))
    ensures Safe(Encode(m)) && Unpadded(m).Valid()
    ensures Rewritten(Encode(m)) == Encode(Unpadded(m)) <==> Echoes(OptData(m))
  {
    hide Encode, Front, Back, Framed, BeforeOpt, Tiles, ParseOptions, Message.Valid, WalkToAdditional, Locate;
    var i, data := BeforeOpt(m.additional), OptData(m);
    EncodeFrames(m);
    FramedRewritten(Encode(m), Front(m, i), OptData(m), Back(m, i));
    WithFrames(m, KeptBytes(data));
    FramedSame(Front(m, i), Survivors(data), KeptBytes(data), Back(m, i));
    SurvivorsExact(data);
  }

  /** With no padding, or nothing else, the rewritten packet is what was meant. */
  lemma PlainMessageRewritten(m: Message)
    requires m.Valid() && HasOpt(m) && Tiles(OptData(m))
    requires NoPadding(ParseOptions(OptData(m))) || OnlyPadding(ParseOptions(OptData(m)))
    ensures Safe(Encode(m)) && Unpadded(m).Valid()
    ensures Rewritten(Encode(m)) == Encode(Unpadded(m))
  {
    PlainAreasSurvive(OptData(m));
    SurvivorsExact(OptData(m));
    ContentExact(m);
  }

  /**
   * When the first padding option is at least as long as everything kept, the
   * message comes out as meant exactly when the OPT data already ends in what
   * is to be kept, whatever other padding there is.
   */
  lemma LongPaddingMessageExact(m: Message, i: nat)
    requires m.Valid() && HasOpt(m) && Tiles(OptData(m))
    requires var os := ParseOptions(OptData(m));
             i < |os| && os[i].IsPadding() && NoPadding(os[..i]) && |KeptBytes(OptData(m))| <= os[i].Size()
    ensures Safe(Encode(m)) && Unpadded(m).Valid() && |KeptBytes(OptData(m))| <= |OptData(m)|
    ensures Rewritten(Encode(m)) == Encode(Unpadded(m))
            <==> Suffix(OptData(m), |KeptBytes(OptData(m))|) == KeptBytes(OptData(m))
  {
    hide Encode, Tiles, ParseOptions, KeptBytes, Echoes;
    EndSurvives(OptData(m), i);
    SurvivorsExact(OptData(m));
    ContentExact(m);
  }

  /**
   * With one option of zero padding, long enough, after some options and before
   * others, exactly the messages whose options before it are all zero come out
   * as meant.
   */
  lemma ZeroPaddedMessageExact(m: Message, before: seq<Option>, pad: Option, after: seq<Option>)
    requires m.Valid() && HasOpt(m) && OptData(m) == EncodeOptions(before + [pad] + after)
    requires NoPadding(before) && pad.IsPadding() && NoPadding(after)
    requires forall i :: 0 <= i < |pad.data| ==> pad.data[i] == 0
    requires |EncodeOptions(before)| + |EncodeOptions(after)| <= |pad.data|
    ensures Tiles(OptData(m)) && Safe(Encode(m)) && Unpadded(m).Valid()
    ensures Rewritten(Encode(m)) == Encode(Unpadded(m))
            <==> forall i :: 0 <= i < |EncodeOptions(before)| ==> EncodeOptions(before)[i] == 0
  {
    ZeroPaddingExact(before, pad, after);
    SurvivorsExact(OptData(m));
    ContentExact(m);
  }

  /** A reply that carries nothing but an OPT record with a cookie and zero padding. */
  function CookieReply(): Message {
    Message(1, 0x8180, [], [], [], [Record(Name([], Root), OPT, [4, 208, 0, 0, 0, 0], CookieArea())])
  }

  /** It does not come out as meant. */
  lemma CookieMessageLost(m: Message)
    requires m == CookieReply()
    ensures m.Valid() && HasOpt(m) && Tiles(OptData(m))
    ensures Safe(Encode(m)) && Unpadded(m).Valid()
    ensures Rewritten(Encode(m)) != Encode(Unpadded(m))
  {
    hide CookieArea, Tiles, Survivors, KeptBytes, Encode, Rewritten;
    CookieAreaSize();
    CookieLost();
    var r := m.additional[0];
    assert EncodeName(r.name) == [0];
    assert EncodeRecords(m.additional) == EncodeRecord(r);
    assert BeforeOpt(m.additional) == 0;
    SurvivorsExact(CookieArea());
    ContentExact(m);
  }

  /** Kept options are all kept again. */
  lemma KeptTwice(data: seq<byte>)
    requires Tiles(data)
    ensures Tiles(KeptBytes(data)) && NoPadding(ParseOptions(KeptBytes(data)))
    ensures Survivors(KeptBytes(data)) == KeptBytes(data)
  {
    ParseEncoded(Kept(ParseOptions(data)));
    KeptHasNoPadding(ParseOptions(data));
    PlainAreasSurvive(KeptBytes(data));
  }

  /** A message whose OPT record has no padding is left as it is. */
  lemma NoPaddingUntouched(m: Message)
    requires m.Valid() && HasOpt(m) && Tiles(OptData(m)) && NoPadding(ParseOptions(OptData(m)))
    ensures Safe(Encode(m)) && Rewritten(Encode(m)) == Encode(m)
  {
    hide Encode, Front, Back, Framed, BeforeOpt, Tiles, ParseOptions, Message.Valid, WalkToAdditional, Locate;
    var i := BeforeOpt(m.additional);
    EncodeFrames(m);
    FramedRewritten(Encode(m), Front(m, i), OptData(m), Back(m, i));
    PlainAreasSurvive(OptData(m));
  }

  lemma UnpaddedHasNoPadding(m: Message)
    requires m.Valid() && HasOpt(m) && Tiles(OptData(m))
    ensures var m' := Unpadded(m);
            m'.Valid() && HasOpt(m') && Tiles(OptData(m')) && NoPadding(ParseOptions(OptData(m')))
  {
    SurvivorsFit(OptData(m));
    WithOptDataFramed(m, KeptBytes(OptData(m)));
    KeptTwice(OptData(m));
  }

  /** Rewriting again changes nothing once the padding came out as intended. */
  lemma RewriteTwice(m: Message)
    requires m.Valid() && HasOpt(m) && Tiles(OptData(m)) && Echoes(OptData(m))
    ensures Safe(Encode(m)) && Safe(Rewritten(Encode(m)))
    ensures Rewritten(Rewritten(Encode(m))) == Rewritten(Encode(m))
  {
    ContentExact(m);
    UnpaddedHasNoPadding(m);
    NoPaddingUntouched(Unpadded(m));
  }

  /** Without an OPT record the packet is left as it is. */
  lemma NoOptUntouched(m: Message)
    requires m.Valid() && !HasOpt(m)
    ensures Safe(Encode(m)) && Rewritten(Encode(m)) == Encode(m)
  {
    LocateLands(m);
  }

  /** The datagram is the whole rewritten packet but for the length prefix, which says how long it is. */
  lemma DatagramFramed(p: seq<byte>)
    requires Safe(p) && HasHeader(p)
    ensures |Datagram(p)| < LIMIT && Rewritten(p) == Short(|Datagram(p)|) + Datagram(p)
  {
    RewrittenHasHeader(p);
    hide Safe, Rewritten;
    var r := Rewritten(p);
    assert Short(|r| - 2)[0] == r[0] && Short(|r| - 2)[1] == r[1];
    assert r == [r[0], r[1]] + r[2..];
  }

  lemma EncodedBody(m: Message)
    requires m.Valid()
    ensures Encode(m)[2..] == EncodeBody(m)
  {
    hide EncodeBody;
  }

  /** The client gets the body of a message without OPT record as it is. */
  lemma PlainDatagram(m: Message)
    requires m.Valid() && !HasOpt(m)
    ensures Safe(Encode(m)) && HasHeader(Encode(m)) && Datagram(Encode(m)) == EncodeBody(m)
  {
    hide Encode, EncodeBody, Safe, Rewritten, HasOpt, Locate;
    LocateLands(m);
    NoOptUntouched(m);
    EncodedBody(m);
  }

  /** And of any other with what the splice leaves in its OPT record. */
  lemma RewrittenDatagram(m: Message)
    requires m.Valid() && HasOpt(m) && Tiles(OptData(m))
    ensures Safe(Encode(m)) && HasHeader(Encode(m)) && WithOptData(m, Survivors(OptData(m))).Valid()
    ensures Datagram(Encode(m)) == EncodeBody(WithOptData(m, Survivors(OptData(m))))
  {
    hide Encode, EncodeBody, Safe, Rewritten, HasOpt, Tiles, Survivors, Locate, BeforeOpt, WithOptData;
    LocateLands(m);
    FramingSurvives(m);
    EncodedBody(WithOptData(m, Survivors(OptData(m))));
  }

  /**
   * From the forwarder's packet to the client's datagram: it is the message
   * without padding, as UDP carries it, exactly when the OPT data echoes.
   */
  lemma DatagramExact(m: Message)
    requires m.Valid() && HasOpt(m) && Tiles(OptData(m))
    ensures Safe(Encode(m)) && HasHeader(Encode(m)) && Unpadded(m).Valid()
    ensures Datagram(Encode(m)) == EncodeBody(Unpadded(m)) <==> Echoes(OptData(m))
  {
    hide Front, Back, BeforeOpt, Tiles, ParseOptions, Echoes, WalkToAdditional, Locate, KeptBytes, Survivors;
    ContentExact(m);
    LocateLands(m);
    FramingSurvives(m);
    var p, q := Rewritten(Encode(m)), Encode(Unpadded(m));
    assert q[2..] == EncodeBody(Unpadded(m));
    WithFramesSize(m);
    if p[2..] == q[2..] {
      assert ShortAt(p, 0) == ShortAt(q, 0);
      SameShort(p, q);
    }
  }

  lemma WithFramesSize(m: Message)
    requires m.Valid() && HasOpt(m) && Tiles(OptData(m))
    ensures Unpadded(m).Valid() && HasHeader(Encode(Unpadded(m)))
    ensures WithOptData(m, Survivors(OptData(m))).Valid()
    ensures HasHeader(Encode(WithOptData(m, Survivors(OptData(m)))))
  {
    SurvivorsFit(OptData(m));
    WithFrames(m, KeptBytes(OptData(m)));
    WithFrames(m, Survivors(OptData(m)));
  }

  lemma SameShort(p: seq<byte>, q: seq<byte>)
    requires |p| >= 2 && |q| >= 2 && ShortAt(p, 0) == ShortAt(q, 0) && p[2..] == q[2..]
    ensures p == q
  {
    assert p == [p[0], p[1]] + p[2..] && q == [q[0], q[1]] + q[2..];
  }

  // ------------------------------------------------ in octets

  /** Between the length prefix and the RDLENGTH. */
  function MiddleOctets(): seq<byte> {
    [18, 52, 129, 128, 0, 0, 0, 0, 0, 0, 0, 1, 0, 0, 41, 4, 208, 0, 0, 0, 0]
  }

  /** A reply with no record but an OPT record that holds padding of two octets and an empty option 3. */
  function PaddedOctets(): seq<byte> {
    [0, 33] + MiddleOctets() + [0, 10] + [0, 12, 0, 2, 7, 7, 0, 3, 0, 0]
  }

  /** The same without the padding, and both lengths less by its six octets. */
  function StrippedOctets(): seq<byte> {
    [0, 27] + MiddleOctets() + [0, 4] + [0, 3, 0, 0]
  }

  function OptReply(data: seq<byte>): Message {
    Message(0x1234, 0x8180, [], [], [], [Record(Name([], Root), OPT, [4, 208, 0, 0, 0, 0], data)])
  }

  lemma ReplyParts(data: seq<byte>, left: seq<byte>)
    requires |data| < 100 && |left| < 100
    ensures var m := OptReply(data);
            m.Valid() && HasOpt(m) && OptData(m) == data && WithOptData(m, left) == OptReply(left)
  {
    var m := OptReply(data);
    var r := m.additional[0];
    assert EncodeName(r.name) == [0];
    assert r.Valid() && EncodeRecords(m.additional) == EncodeRecord(r);
    assert BeforeOpt(m.additional) == 0;
    assert WithOptData(m, left).additional == OptReply(left).additional;
  }

  lemma ReplyOctets(data: seq<byte>)
    requires |data| < 100
    ensures OptReply(data).Valid()
    ensures Encode(OptReply(data)) == [0, 23 + |data|] + MiddleOctets() + [0, |data|] + data
  {
    var m := OptReply(data);
    var r := m.additional[0];
    ReplyParts(data, data);
    hide *;
    CountsOctets(m, data);
    RecordOctets(r, data);
    BodyOctets(m, r);
    JoinedOctets(Encode(m), EncodeBody(m), EncodeCounts(m), EncodeRecord(r), data);
  }

  lemma BodyOctets(m: Message, r: Record)
    requires m.Valid() && m.questions == [] && m.answers == [] && m.authorities == [] && m.additional == [r]
    ensures r.Valid() && EncodeBody(m) == EncodeCounts(m) + EncodeRecord(r)
    ensures Encode(m) == Short(|EncodeBody(m)|) + EncodeBody(m)
  {
    assert r.Valid() by {
      assert m.additional[0].Valid();
    }
    hide EncodeRecord, EncodeCounts, Short;
    assert EncodeRecords([r]) == EncodeRecord(r);
  }

  lemma JoinedOctets(p: seq<byte>, body: seq<byte>, counts: seq<byte>, record: seq<byte>, data: seq<byte>)
    requires |data| < 100 && counts == [18, 52, 129, 128, 0, 0, 0, 0, 0, 0, 0, 1]
    requires record == [0, 0, 41, 4, 208, 0, 0, 0, 0] + [0, |data|] + data
    requires body == counts + record && |body| < LIMIT && p == Short(|body|) + body
    ensures p == [0, 23 + |data|] + MiddleOctets() + [0, |data|] + data
  {
    assert MiddleOctets() == counts + [0, 0, 41, 4, 208, 0, 0, 0, 0];
    assert Short(|body|) == [0, 23 + |data|];
  }

  lemma RecordOctets(r: Record, data: seq<byte>)
    requires r == Record(Name([], Root), OPT, [4, 208, 0, 0, 0, 0], data) && |data| < 100
    ensures r.Valid() && EncodeRecord(r) == [0, 0, 41, 4, 208, 0, 0, 0, 0] + [0, |data|] + data
  {
    assert EncodeName(r.name) == [0];
    assert Short(OPT) == [0, 41] && Short(|data|) == [0, |data|];
  }

  lemma CountsOctets(m: Message, data: seq<byte>)
    requires m == OptReply(data)
    ensures EncodeCounts(m) == [18, 52, 129, 128, 0, 0, 0, 0, 0, 0, 0, 1]
  {
    assert Short(0x1234) == [18, 52] && Short(0x8180) == [129, 128] && Short(0) == [0, 0] && Short(1) == [0, 1];
  }

  lemma OptionOctets()
    ensures EncodeOptions([Opt(PADDING, [7, 7])] + [Opt(3, [])]) == [0, 12, 0, 2, 7, 7, 0, 3, 0, 0]
    ensures EncodeOptions([Opt(3, [])]) == [0, 3, 0, 0]
  {
    var pad: Option, other: Option := Opt(PADDING, [7, 7]), Opt(3, []);
    EncodeSnoc([], other);
    EncodeSnoc([pad], other);
    EncodeSnoc([], pad);
    assert [] + [other] == [other] && [] + [pad] == [pad];
    assert EncodeOption(pad) == [0, 12, 0, 2, 7, 7] && EncodeOption(other) == [0, 3, 0, 0];
  }

  lemma ReplyRewritten(data: seq<byte>, left: seq<byte>)
    requires |data| < 100 && Tiles(data) && Survivors(data) == left && |left| < 100
    ensures OptReply(data).Valid() && OptReply(left).Valid() && Safe(Encode(OptReply(data)))
    ensures HasHeader(Encode(OptReply(data))) && Rewritten(Encode(OptReply(data))) == Encode(OptReply(left))
  {
    hide *;
    ReplyParts(data, left);
    ReplyParts(left, left);
    FramingSurvives(OptReply(data));
    LocateLands(OptReply(data));
  }

  lemma DataRewritten(data: seq<byte>, left: seq<byte>)
    requires data == [0, 12, 0, 2, 7, 7, 0, 3, 0, 0] && left == [0, 3, 0, 0]
    ensures Tiles(data) && Survivors(data) == left
  {
    var pad: Option, other: Option := Opt(PADDING, [7, 7]), Opt(3, []);
    OptionOctets();
    hide Tiles, Survivors, KeptBytes, EncodeOptions;
    LeadingPaddingSurvives([pad], [other]);
  }

  lemma PacketRewritten(data: seq<byte>, left: seq<byte>, p: seq<byte>, q: seq<byte>)
    requires |data| < 100 && |left| < 100 && Tiles(data) && Survivors(data) == left
    requires p == [0, 23 + |data|] + MiddleOctets() + [0, |data|] + data
    requires q == [0, 23 + |left|] + MiddleOctets() + [0, |left|] + left
    ensures Safe(p) && HasHeader(p) && Rewritten(p) == q
  {
    hide *;
    ReplyOctets(data);
    ReplyOctets(left);
    ReplyRewritten(data, left);
  }

  /** One packet, octet by octet: what it becomes, and what the client gets. */
  lemma InOctets(p: seq<byte>)
    requires p == PaddedOctets()
    ensures Safe(p) && HasHeader(p) && Rewritten(p) == StrippedOctets() && Datagram(p) == StrippedOctets()[2..]
  {
    var data: seq<byte>, left: seq<byte> := [0, 12, 0, 2, 7, 7, 0, 3, 0, 0], [0, 3, 0, 0];
    hide *;
    DataRewritten(data, left);
    OctetsParts(data, left);
    PacketRewritten(data, left, p, StrippedOctets());
    DatagramOf(p, StrippedOctets());
  }

  lemma OctetsParts(data: seq<byte>, left: seq<byte>)
    requires data == [0, 12, 0, 2, 7, 7, 0, 3, 0, 0] && left == [0, 3, 0, 0]
    ensures |data| == 10 && PaddedOctets() == [0, 23 + |data|] + MiddleOctets() + [0, |data|] + data
    ensures |left| == 4 && StrippedOctets() == [0, 23 + |left|] + MiddleOctets() + [0, |left|] + left
    ensures |StrippedOctets()| >= 2
  {
    hide MiddleOctets;
  }

  lemma DatagramOf(p: seq<byte>, q: seq<byte>)
    requires Safe(p) && HasHeader(p) && Rewritten(p) == q && |q| >= 2
    ensures Datagram(p) == q[2..]
  {
    hide Safe, HasHeader, Rewritten;
  }
}
