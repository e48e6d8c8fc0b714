// When the octets that survive the splice are the kept options, and when not.

module Splice {
  import opened Bytes
  import opened Options

  predicate NoPadding(os: seq<Option>) {
    forall i :: 0 <= i < |os| ==> !os[i].IsPadding()
  }

  predicate OnlyPadding(os: seq<Option>) {
    forall i :: 0 <= i < |os| ==> os[i].IsPadding()
  }

  predicate Fit(os: seq<Option>, area: seq<byte>) {
    forall i :: 0 <= i < |os| ==> os[i].Size() <= |area|
  }

  // ------------------------------------------------ the kept and left-over octets, piecewise

  lemma {:induction false} KeptAppend(a: seq<Option>, b: seq<Option>)
    ensures Kept(a + b) == Kept(a) + Kept(b)
  {
    if b == [] {
      assert a + b == a;
    } else {
      var front, last := b[..|b| - 1], b[|b| - 1];
      KeptAppend(a, front);
      assert (a + b)[..|a + b| - 1] == a + front && (a + b)[|a + b| - 1] == last;
      AssociateOptions(Kept(a), Kept(front), if last.IsPadding() then [] else [last]);
    }
  }

  lemma AssociateOptions(x: seq<Option>, y: seq<Option>, z: seq<Option>)
    ensures (x + y) + z == x + (y + z)
  {
  }

  lemma {:induction false} LeftoverAppend(a: seq<Option>, b: seq<Option>, area: seq<byte>)
    requires Fit(a, area) && Fit(b, area)
    ensures Leftover(a + b, area) == Leftover(b, area) + Leftover(a, area)
  {
    if b == [] {
      assert a + b == a;
    } else {
      var front, last := b[..|b| - 1], b[|b| - 1];
      LeftoverAppend(a, front, area);
      assert (a + b)[..|a + b| - 1] == a + front && (a + b)[|a + b| - 1] == last;
      var tail := if last.IsPadding() then Suffix(area, last.Size()) else [];
      Associate(tail, Leftover(front, area), Leftover(a, area));
    }
  }

  lemma Associate(x: seq<byte>, y: seq<byte>, z: seq<byte>)
    ensures (x + y) + z == x + (y + z)
  {
  }

  lemma {:induction false} KeptAll(os: seq<Option>, area: seq<byte>)
    requires NoPadding(os) && Fit(os, area)
    ensures Kept(os) == os && Leftover(os, area) == []
  {
    if os != [] {
      FrontAndLast(os);
      KeptAll(os[..|os| - 1], area);
    }
  }

  lemma {:induction false} KeptNone(os: seq<Option>)
    requires OnlyPadding(os)
    ensures Kept(os) == []
  {
    if os != [] {
      KeptNone(os[..|os| - 1]);
    }
  }

  /** Keeping is idempotent: nothing kept is padding. */
  lemma {:induction false} KeptHasNoPadding(os: seq<Option>)
    ensures NoPadding(Kept(os))
  {
    if os != [] {
      KeptHasNoPadding(os[..|os| - 1]);
    }
  }

  // ------------------------------------------------ the exact condition

  /**
   * Shifting the compacted area by the size of the padding repeats the kept
   * octets. With more padding than kept octets the left-over octets have to end
   * in a copy of them; with less, the kept octets have to repeat with that
   * period and the left-over octets have to be their tail.
   */
  ghost predicate Echoes(area: seq<byte>)
    requires Tiles(area)
  {
    var kept, left := KeptBytes(area), LeftBytes(area);
    assert |kept| + |left| == |Compacted(area)|;
    if |kept| <= |left| then
      Suffix(left, |kept|) == kept
    else
      left == Suffix(kept, |left|) && Suffix(kept, |kept| - |left|) == kept[..|kept| - |left|]
  }

  /** For every option mix: the splice keeps the kept options exactly when the area echoes. */
  lemma SurvivorsExact(area: seq<byte>)
    requires Tiles(area)
    ensures Survivors(area) == KeptBytes(area) <==> Echoes(area)
  {
    var kept, left := KeptBytes(area), LeftBytes(area);
    assert Compacted(area) == kept + left;
    hide Tiles, KeptBytes, LeftBytes, Compacted, Suffix;
    if |kept| <= |left| {
      SuffixOfEnd(kept, left, |kept|);
    } else {
      LongEcho(kept, left);
    }
  }

  lemma LongEcho(kept: seq<byte>, left: seq<byte>)
    requires |left| < |kept|
    ensures Suffix(kept + left, |kept|) == kept
            <==> left == Suffix(kept, |left|) && Suffix(kept, |kept| - |left|) == kept[..|kept| - |left|]
  {
    var k, d := |kept|, |left|;
    assert Suffix(kept + left, k) == kept[d..] + left;
    assert (kept[d..] + left)[..k - d] == kept[d..] && (kept[d..] + left)[k - d..] == left;
    FrontAndRest(kept, k - d);
  }

  /** Without padding nothing moves, and with nothing but padding nothing is left to move. */
  lemma PlainAreasSurvive(area: seq<byte>)
    requires Tiles(area)
    requires NoPadding(ParseOptions(area)) || OnlyPadding(ParseOptions(area))
    ensures Survivors(area) == KeptBytes(area)
    ensures NoPadding(ParseOptions(area)) ==> Survivors(area) == area
    ensures OnlyPadding(ParseOptions(area)) ==> Survivors(area) == []
  {
    var os := ParseOptions(area);
    EncodeParsed(area);
    SizesWithin(os);
    if NoPadding(os) {
      KeptAll(os, area);
    }
    if OnlyPadding(os) {
      KeptNone(os);
    }
  }

  /**
   * When the first padding option is at least as long as everything kept, what
   * survives is the end of the original area, whatever other padding follows.
   */
  lemma EndSurvives(area: seq<byte>, i: nat)
    requires Tiles(area)
    requires var os := ParseOptions(area);
             i < |os| && os[i].IsPadding() && NoPadding(os[..i]) && |KeptBytes(area)| <= os[i].Size()
    ensures |KeptBytes(area)| <= |area|
    ensures Survivors(area) == Suffix(area, |KeptBytes(area)|)
  {
    var os := ParseOptions(area);
    EncodeParsed(area);
    SizesWithin(os);
    LeftoverFrom(os, i, area);
    hide Kept, Leftover, EncodeOptions, Tiles, ParseOptions, Suffix;
    var kept, after, last := KeptBytes(area), Leftover(os[i + 1..], area), Suffix(area, os[i].Size());
    Associate(kept, after, last);
    SuffixOfEnd(kept + after, last, |kept|);
    SuffixOfSuffix(area, os[i].Size(), |kept|);
  }

  /** The first padding option leaves the last of the left-over octets. */
  lemma LeftoverFrom(os: seq<Option>, i: nat, area: seq<byte>)
    requires Fit(os, area) && i < |os| && os[i].IsPadding() && NoPadding(os[..i])
    ensures Fit(os[i + 1..], area)
    ensures Leftover(os, area) == Leftover(os[i + 1..], area) + Suffix(area, os[i].Size())
  {
    var before, pad, after := os[..i], os[i], os[i + 1..];
    assert os == (before + [pad]) + after;
    FitSplit(before + [pad], after, area);
    FitSplit(before, [pad], area);
    LeftoverAppend(before + [pad], after, area);
    LeftoverLast(before, pad, area);
    KeptAll(before, area);
    assert Suffix(area, pad.Size()) + [] == Suffix(area, pad.Size());
  }

  lemma FitSplit(a: seq<Option>, b: seq<Option>, area: seq<byte>)
    requires Fit(a + b, area)
    ensures Fit(a, area) && Fit(b, area)
  {
    assert forall k :: 0 <= k < |a| ==> a[k] == (a + b)[k];
    assert forall k :: 0 <= k < |b| ==> b[k] == (a + b)[|a| + k];
  }

  lemma LeftoverLast(os: seq<Option>, pad: Option, area: seq<byte>)
    requires pad.IsPadding() && Fit(os + [pad], area) && Fit(os, area) && pad.Size() <= |area|
    ensures Leftover(os + [pad], area) == Suffix(area, pad.Size()) + Leftover(os, area)
  {
    assert (os + [pad])[..|os + [pad]| - 1] == os;
  }

  /** Leading padding that long is removed as intended. */
  lemma LeadingPaddingSurvives(pads: seq<Option>, rest: seq<Option>)
    requires pads != [] && OnlyPadding(pads) && NoPadding(rest)
    requires |EncodeOptions(rest)| <= pads[0].Size()
    ensures var area := EncodeOptions(pads + rest);
            Tiles(area) && KeptBytes(area) == EncodeOptions(rest) && Survivors(area) == EncodeOptions(rest)
  {
    var os := pads + rest;
    var area := EncodeOptions(os);
    ParseEncoded(os);
    LeadingPaddingKept(pads, rest);
    assert os[0] == pads[0] && os[..0] == [];
    EndSurvives(area, 0);
    EncodeAppend(pads, rest);
  }

  lemma LeadingPaddingKept(pads: seq<Option>, rest: seq<Option>)
    requires OnlyPadding(pads) && NoPadding(rest)
    ensures Kept(pads + rest) == rest
  {
    KeptAppend(pads, rest);
    KeptNone(pads);
    SizesWithin(rest);
    KeptAll(rest, EncodeOptions(rest));
  }

  /**
   * One padding option, long enough, after some options and before others: they
   * all survive exactly when the padding ends in a copy of those before it.
   */
  lemma OnePaddingExact(before: seq<Option>, pad: Option, after: seq<Option>)
    requires NoPadding(before) && pad.IsPadding() && NoPadding(after)
    requires |EncodeOptions(before)| + |EncodeOptions(after)| <= pad.Size()
    ensures var area := EncodeOptions(before + [pad] + after);
            && Tiles(area)
            && KeptBytes(area) == EncodeOptions(before) + EncodeOptions(after)
            && Survivors(area) == Suffix(EncodeOption(pad), |EncodeOptions(before)|) + EncodeOptions(after)
            && (Survivors(area) == KeptBytes(area)
                <==> Suffix(EncodeOption(pad), |EncodeOptions(before)|) == EncodeOptions(before))
  {
    var os := before + [pad] + after;
    var area := EncodeOptions(os);
    ParseEncoded(os);
    OnePaddingArea(before, pad, after);
    OnePaddingKept(before, pad, after);
    EncodeAppend(before, after);
    assert os[..|before|] == before && os[|before|] == pad;
    EndSurvives(area, |before|);
    hide EncodeOptions, EncodeOption, Tiles, ParseOptions, Survivors, KeptBytes, Suffix;
    var b, p, a := EncodeOptions(before), EncodeOption(pad), EncodeOptions(after);
    EndOfThree(b, p, a);
    SamePrefix(Suffix(p, |b|), b, a);
  }

  lemma OnePaddingArea(before: seq<Option>, pad: Option, after: seq<Option>)
    ensures EncodeOptions(before + [pad] + after)
            == (EncodeOptions(before) + EncodeOption(pad)) + EncodeOptions(after)
  {
    EncodeAppend(before + [pad], after);
    EncodeSnoc(before, pad);
  }

  lemma EndOfThree(b: seq<byte>, p: seq<byte>, a: seq<byte>)
    requires |b| <= |p|
    ensures Suffix((b + p) + a, |b| + |a|) == Suffix(p, |b|) + a
  {
  }

  lemma OnePaddingKept(before: seq<Option>, pad: Option, after: seq<Option>)
    requires NoPadding(before) && pad.IsPadding() && NoPadding(after)
    ensures Kept(before + [pad] + after) == before + after
  {
    hide Kept, EncodeOptions, Leftover;
    KeptAppend(before + [pad], after);
    KeptAppend(before, [pad]);
    KeptNone([pad]);
    SizesWithin(before);
    SizesWithin(after);
    KeptAll(before, EncodeOptions(before));
    KeptAll(after, EncodeOptions(after));
    assert before + [] == before;
  }

  lemma SamePrefix(x: seq<byte>, y: seq<byte>, z: seq<byte>)
    requires |x| == |y|
    ensures x + z == y + z <==> x == y
  {
    assert (x + z)[..|x|] == x && (y + z)[..|y|] == y;
  }

  /**
   * The padding that section 3 of RFC 7830 asks for is zero. Then the options
   * before it survive exactly when every octet of them is zero.
   */
  lemma ZeroPaddingExact(before: seq<Option>, pad: Option, after: seq<Option>)
    requires NoPadding(before) && pad.IsPadding() && NoPadding(after)
    requires forall i :: 0 <= i < |pad.data| ==> pad.data[i] == 0
    requires |EncodeOptions(before)| + |EncodeOptions(after)| <= |pad.data|
    ensures var area := EncodeOptions(before + [pad] + after);
            && Tiles(area)
            && (Survivors(area) == KeptBytes(area)
                <==> forall i :: 0 <= i < |EncodeOptions(before)| ==> EncodeOptions(before)[i] == 0)
  {
    hide EncodeOptions, EncodeOption, Tiles, Survivors, KeptBytes;
    OnePaddingExact(before, pad, after);
    var b, p := EncodeOptions(before), EncodeOption(pad);
    forall i | 0 <= i < |b| ensures Suffix(p, |b|)[i] == 0 {
      assert p[4..][|pad.data| - |b| + i] == pad.data[|pad.data| - |b| + i];
    }
  }

  /** An eight-octet cookie followed by twelve octets of zero padding. */
  function CookieArea(): seq<byte> {
    EncodeOptions([Opt(10, [1, 2, 3, 4, 5, 6, 7, 8])] + [Opt(PADDING, seq(12, _ => 0))] + [])
  }

  /** It comes out as zeros. */
  lemma CookieLost()
    ensures Tiles(CookieArea()) && Survivors(CookieArea()) != KeptBytes(CookieArea())
  {
    var cookie: Option, pad: Option := Opt(10, [1, 2, 3, 4, 5, 6, 7, 8]), Opt(PADDING, seq(12, _ => 0));
    EncodeSnoc([], cookie);
    assert [] + [cookie] == [cookie];
    assert EncodeOptions([cookie]) == EncodeOption(cookie);
    ZeroPaddingExact([cookie], pad, []);
    assert EncodeOption(cookie)[4..][0] == 1;
  }

  lemma CookieAreaSize()
    ensures |CookieArea()| == 28
  {
    var cookie: Option, pad: Option := Opt(10, [1, 2, 3, 4, 5, 6, 7, 8]), Opt(PADDING, seq(12, _ => 0));
    OnePaddingArea([cookie], pad, []);
    EncodeSnoc([], cookie);
    assert [] + [cookie] == [cookie];
  }
}
