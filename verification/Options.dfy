// The options in the RDATA of an OPT record (section 6.1.2 of RFC 6891), and
// what compacting them in place leaves behind.

module Options {
  import opened Bytes

  const PADDING := 12 // section 3 of RFC 7830

  datatype Opt = Opt(code: nat, data: seq<byte>) {
    predicate Valid() { code < LIMIT && |data| < LIMIT }

    predicate IsPadding() { code == PADDING }

    function Size(): nat { 4 + |data| }
  }

  type Option = o: Opt | o.Valid() witness Opt(0, [])

  function EncodeOption(o: Option): (b: seq<byte>)
    ensures |b| == o.Size()
    ensures ShortAt(b, 0) == o.code && ShortAt(b, 2) == |o.data| && b[4..] == o.data
  {
    Short(o.code) + Short(|o.data|) + o.data
  }

  function EncodeOptions(os: seq<Option>): seq<byte> {
    if os == [] then [] else EncodeOption(os[0]) + EncodeOptions(os[1..])
  }

  /** The options tile the area exactly: what removePaddingOption relies on to stop. */
  predicate Tiles(area: seq<byte>) {
    area == []
    || (|area| >= 4 && 4 + ShortAt(area, 2) <= |area| && Tiles(area[4 + ShortAt(area, 2)..]))
  }

  function ParseOptions(area: seq<byte>): (os: seq<Option>)
    requires Tiles(area)
  {
    if area == [] then []
    else
      var size := 4 + ShortAt(area, 2);
      [Opt(ShortAt(area, 0), area[4..size])] + ParseOptions(area[size..])
  }

  /** The options that are not padding, in order. */
  function Kept(os: seq<Option>): seq<Option> {
    if os == [] then []
    else
      var last := os[|os| - 1];
      Kept(os[..|os| - 1]) + if last.IsPadding() then [] else [last]
  }

  /**
   * The octets that compaction leaves behind the kept options: for each padding
   * option, from the last to the first, as many octets as it took, copied from
   * the end of the original area.
   */
  function Leftover(os: seq<Option>, area: seq<byte>): seq<byte>
    requires forall i :: 0 <= i < |os| ==> os[i].Size() <= |area|
  {
    if os == [] then []
    else
      var last := os[|os| - 1];
      (if last.IsPadding() then Suffix(area, last.Size()) else []) + Leftover(os[..|os| - 1], area)
  }

  // ------------------------------------------------ encoding and parsing

  lemma {:induction false} EncodeAppend(a: seq<Option>, b: seq<Option>)
    ensures EncodeOptions(a + b) == EncodeOptions(a) + EncodeOptions(b)
  {
    if a == [] {
      assert a + b == b;
    } else {
      EncodeAppend(a[1..], b);
      assert (a + b)[1..] == a[1..] + b && (a + b)[0] == a[0];
      var head, rest, last := EncodeOption(a[0]), EncodeOptions(a[1..]), EncodeOptions(b);
      assert head + (rest + last) == (head + rest) + last;
    }
  }

  lemma EncodeSnoc(os: seq<Option>, o: Option)
    ensures EncodeOptions(os + [o]) == EncodeOptions(os) + EncodeOption(o)
  {
    EncodeAppend(os, [o]);
    assert EncodeOptions([o]) == EncodeOption(o) + EncodeOptions([o][1..]);
  }

  /** Encoded options tile their area and parse back to themselves. */
  lemma {:induction false} ParseEncoded(os: seq<Option>)
    ensures Tiles(EncodeOptions(os)) && ParseOptions(EncodeOptions(os)) == os
  {
    if os != [] {
      var head, area := EncodeOption(os[0]), EncodeOptions(os);
      assert area[..|head|] == head && area[|head|..] == EncodeOptions(os[1..]);
      assert ShortAt(area, 0) == ShortAt(head, 0) && ShortAt(area, 2) == ShortAt(head, 2);
      assert area[4..|head|] == head[4..];
      ParseEncoded(os[1..]);
    }
  }

  /** An area that options tile is the encoding of what it parses to. */
  lemma {:induction false} EncodeParsed(area: seq<byte>)
    requires Tiles(area)
    ensures EncodeOptions(ParseOptions(area)) == area
    decreases |area|
  {
    if area != [] {
      var size := 4 + ShortAt(area, 2);
      EncodeParsed(area[size..]);
      var os := ParseOptions(area);
      assert os[1..] == ParseOptions(area[size..]);
      HeadParsed(area);
    }
  }

  lemma HeadParsed(area: seq<byte>)
    requires |area| >= 4 && 4 + ShortAt(area, 2) <= |area|
    ensures var size := 4 + ShortAt(area, 2);
            EncodeOption(Opt(ShortAt(area, 0), area[4..size])) + area[size..] == area
  {
    var size := 4 + ShortAt(area, 2);
    var head := EncodeOption(Opt(ShortAt(area, 0), area[4..size]));
    assert head[..4] == area[..4] && head[4..] == area[4..size];
    assert head == head[..4] + head[4..];
  }

  // ------------------------------------------------ sizes

  lemma {:induction false} SizeWithin(os: seq<Option>, i: nat)
    requires i < |os|
    ensures os[i].Size() <= |EncodeOptions(os)|
  {
    FrontAndRest(os, i);
    EncodeAppend(os[..i], os[i..]);
  }

  lemma SizesWithin(os: seq<Option>)
    ensures forall i :: 0 <= i < |os| ==> os[i].Size() <= |EncodeOptions(os)|
  {
    forall i | 0 <= i < |os| ensures os[i].Size() <= |EncodeOptions(os)| {
      SizeWithin(os, i);
    }
  }

  lemma EncodeLast(os: seq<Option>)
    requires os != []
    ensures EncodeOptions(os) == EncodeOptions(os[..|os| - 1]) + EncodeOption(os[|os| - 1])
  {
    hide EncodeOptions, EncodeOption;
    FrontAndLast(os);
    EncodeSnoc(os[..|os| - 1], os[|os| - 1]);
  }

  lemma EncodeKept(os: seq<Option>)
    requires os != []
    ensures var front, last := os[..|os| - 1], os[|os| - 1];
            EncodeOptions(Kept(os)) == EncodeOptions(Kept(front)) + if last.IsPadding() then [] else EncodeOption(last)
  {
    var front, last := os[..|os| - 1], os[|os| - 1];
    if last.IsPadding() {
      assert Kept(os) == Kept(front);
    } else {
      EncodeSnoc(Kept(front), last);
    }
  }

  /** Kept options and left-over octets fill the area, after any number of options. */
  lemma {:induction false} AreaFilled(os: seq<Option>, area: seq<byte>)
    requires forall i :: 0 <= i < |os| ==> os[i].Size() <= |area|
    ensures |EncodeOptions(Kept(os))| + |Leftover(os, area)| == |EncodeOptions(os)|
  {
    if os != [] {
      var front, last := os[..|os| - 1], os[|os| - 1];
      AreaFilled(front, area);
      EncodeLast(os);
      EncodeKept(os);
    }
  }

  // ------------------------------------------------ the area before and after

  ghost function KeptBytes(area: seq<byte>): seq<byte>
    requires Tiles(area)
  {
    EncodeOptions(Kept(ParseOptions(area)))
  }

  ghost function LeftBytes(area: seq<byte>): seq<byte>
    requires Tiles(area)
  {
    EncodeParsed(area);
    SizesWithin(ParseOptions(area));
    Leftover(ParseOptions(area), area)
  }

  /** The area after removePaddingOption. */
  ghost function Compacted(area: seq<byte>): (c: seq<byte>)
    requires Tiles(area)
    ensures |c| == |area| && |KeptBytes(area)| <= |area|
  {
    EncodeParsed(area);
    SizesWithin(ParseOptions(area));
    AreaFilled(ParseOptions(area), area);
    KeptBytes(area) + LeftBytes(area)
  }

  /**
   * What the splice keeps of the compacted area: it drops as many octets as the
   * padding took, but from the front, where the kept options are.
   */
  ghost function Survivors(area: seq<byte>): (s: seq<byte>)
    requires Tiles(area)
    ensures |s| == |KeptBytes(area)|
  {
    Suffix(Compacted(area), |KeptBytes(area)|)
  }
}
