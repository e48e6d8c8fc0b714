// The stages of removing padding options in place.

module Compaction {
  import opened Bytes
  import opened Options

  /** The area once `j` options are handled: those kept, those to come, the octets left over. */
  ghost function Stage(os: seq<Option>, j: nat, area: seq<byte>): seq<byte>
    requires j <= |os| && forall i :: 0 <= i < |os| ==> os[i].Size() <= |area|
  {
    (EncodeOptions(Kept(os[..j])) + EncodeOptions(os[j..])) + Leftover(os[..j], area)
  }

  lemma StageFirst(area: seq<byte>)
    requires Tiles(area)
    ensures var os := ParseOptions(area);
            (forall i :: 0 <= i < |os| ==> os[i].Size() <= |area|) && Stage(os, 0, area) == area
  {
    hide Tiles, ParseOptions;
    var os := ParseOptions(area);
    EncodeParsed(area);
    SizesWithin(os);
    assert os[..0] == [] && os[0..] == os;
  }

  lemma StageLast(area: seq<byte>)
    requires Tiles(area)
    ensures var os := ParseOptions(area);
            (forall i :: 0 <= i < |os| ==> os[i].Size() <= |area|) && Stage(os, |os|, area) == Compacted(area)
  {
    hide Tiles, ParseOptions;
    var os := ParseOptions(area);
    EncodeParsed(area);
    SizesWithin(os);
    assert os[..|os|] == os && os[|os|..] == [];
  }

  /** The option at the iterator. */
  lemma StageHead(os: seq<Option>, j: nat)
    requires j < |os|
    ensures EncodeOptions(os[j..]) == EncodeOption(os[j]) + EncodeOptions(os[j + 1..])
  {
    assert os[j..][1..] == os[j + 1..];
  }

  lemma LeftoverNext(os: seq<Option>, j: nat, area: seq<byte>)
    requires j < |os| && forall i :: 0 <= i < |os| ==> os[i].Size() <= |area|
    ensures Leftover(os[..j + 1], area)
            == (if os[j].IsPadding() then Suffix(area, os[j].Size()) else []) + Leftover(os[..j], area)
  {
    assert os[..j + 1][..j] == os[..j];
  }

  lemma KeptNext(os: seq<Option>, j: nat)
    requires j < |os|
    ensures EncodeOptions(Kept(os[..j + 1]))
            == EncodeOptions(Kept(os[..j])) + if os[j].IsPadding() then [] else EncodeOption(os[j])
  {
    EncodeKept(os[..j + 1]);
    assert os[..j + 1][..j] == os[..j];
  }

  lemma MoveOver(k: seq<byte>, o: seq<byte>, r: seq<byte>, l: seq<byte>)
    ensures (k + (o + r)) + l == ((k + o) + r) + ([] + l)
  {
  }

  lemma StageSkip(os: seq<Option>, j: nat, area: seq<byte>)
    requires j < |os| && (forall i :: 0 <= i < |os| ==> os[i].Size() <= |area|) && !os[j].IsPadding()
    ensures EncodeOptions(Kept(os[..j + 1])) == EncodeOptions(Kept(os[..j])) + EncodeOption(os[j])
    ensures Stage(os, j + 1, area) == Stage(os, j, area)
  {
    StageHead(os, j);
    KeptNext(os, j);
    LeftoverNext(os, j, area);
    MoveOver(EncodeOptions(Kept(os[..j])), EncodeOption(os[j]), EncodeOptions(os[j + 1..]), Leftover(os[..j], area));
  }

  /** The octets still to come are the end of the original area. */
  lemma StageEnd(os: seq<Option>, j: nat, area: seq<byte>)
    requires j < |os| && area == EncodeOptions(os) && os[j].Size() <= |area|
    ensures os[j].Size() <= |EncodeOptions(os[j..])|
    ensures Suffix(EncodeOptions(os[j..]), os[j].Size()) == Suffix(area, os[j].Size())
  {
    StageHead(os, j);
    EncodeAppend(os[..j], os[j..]);
    assert os == os[..j] + os[j..];
  }

  /** What copying `r` down over `o`, between `k` and `l`, makes of the area. */
  lemma CopyOver(k: seq<byte>, o: seq<byte>, r: seq<byte>, l: seq<byte>)
    ensures var a := (k + (o + r)) + l;
            a[..|k|] + a[|k| + |o|..|k| + |o| + |r|] + a[|k| + |r|..] == (k + r) + (Suffix(o + r, |o|) + l)
  {
    var a := (k + (o + r)) + l;
    assert a[..|k|] == k;
    assert a[|k| + |o|..|k| + |o| + |r|] == r;
    assert a[|k| + |r|..] == (o + r)[|r|..] + l;
  }

  lemma StageDrop(os: seq<Option>, j: nat, area: seq<byte>)
    requires j < |os| && area == EncodeOptions(os)
    requires forall i :: 0 <= i < |os| ==> os[i].Size() <= |area|
    requires os[j].IsPadding()
    ensures var a, k, r := Stage(os, j, area), |EncodeOptions(Kept(os[..j]))|, |EncodeOptions(os[j + 1..])|;
            && k + os[j].Size() + r <= |a|
            && Stage(os, j + 1, area) == a[..k] + a[k + os[j].Size()..k + os[j].Size() + r] + a[k + r..]
    ensures EncodeOptions(Kept(os[..j + 1])) == EncodeOptions(Kept(os[..j]))
  {
    hide EncodeOptions, EncodeOption, Kept, Leftover;
    StageHead(os, j);
    StageEnd(os, j, area);
    KeptNext(os, j);
    LeftoverNext(os, j, area);
    var k, o := EncodeOptions(Kept(os[..j])), EncodeOption(os[j]);
    var r, l := EncodeOptions(os[j + 1..]), Leftover(os[..j], area);
    assert k + [] == k;
    CopyOver(k, o, r, l);
    assert Stage(os, j, area) == (k + (o + r)) + l;
  }

  /** The same copy, seen in the whole packet. */
  lemma CopyWithin(before: seq<byte>, a: seq<byte>, after: seq<byte>, k: nat, n: nat, r: nat)
    requires k + n + r <= |a|
    ensures var p, b := before + a + after, |before|;
            Moved(p, b + k + n, b + k + n + r, b + k)
            == before + (a[..k] + a[k + n..k + n + r] + a[k + r..]) + after
  {
    var p, b := before + a + after, |before|;
    assert p[..b + k] == before + a[..k];
    assert p[b + k + n..b + k + n + r] == a[k + n..k + n + r];
    assert p[b + k + r..] == a[k + r..] + after;
  }

  /** Where the iterator reads the code and the length of the next option. */
  lemma StageRead(p: seq<byte>, before: seq<byte>, os: seq<Option>, j: nat, area: seq<byte>, after: seq<byte>)
    requires j < |os| && forall i :: 0 <= i < |os| ==> os[i].Size() <= |area|
    requires p == before + Stage(os, j, area) + after
    ensures var it := |before| + |EncodeOptions(Kept(os[..j]))|;
            && it + 4 <= |p|
            && ShortAt(p, it) == os[j].code && ShortAt(p, it + 2) == |os[j].data|
  {
    StageHead(os, j);
    ReadHead(before, EncodeOptions(Kept(os[..j])), EncodeOption(os[j]), EncodeOptions(os[j + 1..]),
             Leftover(os[..j], area), after);
  }

  lemma ReadHead(before: seq<byte>, k: seq<byte>, o: seq<byte>, r: seq<byte>, l: seq<byte>, after: seq<byte>)
    requires |o| >= 4
    ensures var p, it := before + ((k + (o + r)) + l) + after, |before| + |k|;
            ShortAt(p, it) == ShortAt(o, 0) && ShortAt(p, it + 2) == ShortAt(o, 2)
  {
    var p, it := before + ((k + (o + r)) + l) + after, |before| + |k|;
    assert p[it..it + |o|] == o;
    forall i | 0 <= i < 4 ensures p[it + i] == o[i] {
      HoldsAt(p, it, o, i);
    }
  }

  // ------------------------------------------------ the loop, turn by turn

  /** In `p` the loop over the area between `before` and `after` has handled `j` options. */
  ghost predicate Reached(p: seq<byte>, before: seq<byte>, area: seq<byte>, after: seq<byte>, j: nat, it: nat, end: nat)
    requires Tiles(area)
  {
    var os := ParseOptions(area);
    && j <= |os| && (forall i :: 0 <= i < |os| ==> os[i].Size() <= |area|)
    && it == |before| + |EncodeOptions(Kept(os[..j]))|
    && end == it + |EncodeOptions(os[j..])|
    && p == before + Stage(os, j, area) + after
  }

  lemma ReachedFirst(before: seq<byte>, area: seq<byte>, after: seq<byte>)
    requires Tiles(area)
    ensures Reached(before + area + after, before, area, after, 0, |before|, |before| + |area|)
  {
    StageFirst(area);
    EncodeParsed(area);
    assert ParseOptions(area)[..0] == [] && ParseOptions(area)[0..] == ParseOptions(area);
  }

  lemma ReachedHead(p: seq<byte>, before: seq<byte>, area: seq<byte>, after: seq<byte>, j: nat, it: nat, end: nat)
    requires Tiles(area) && Reached(p, before, area, after, j, it, end) && it != end
    ensures var os := ParseOptions(area);
            && j < |os| && it + 4 <= |p| && it + os[j].Size() <= end <= |p|
            && ShortAt(p, it) == os[j].code && ShortAt(p, it + 2) == |os[j].data|
  {
    var os := ParseOptions(area);
    StageHead(os, j);
    StageRead(p, before, os, j, area, after);
  }

  lemma ReachedSkip(p: seq<byte>, before: seq<byte>, area: seq<byte>, after: seq<byte>, j: nat, it: nat, end: nat)
    requires Tiles(area) && Reached(p, before, area, after, j, it, end)
    requires j < |ParseOptions(area)| && !ParseOptions(area)[j].IsPadding()
    ensures Reached(p, before, area, after, j + 1, it + ParseOptions(area)[j].Size(), end)
  {
    var os := ParseOptions(area);
    StageHead(os, j);
    StageSkip(os, j, area);
  }

  lemma ReachedDrop(p: seq<byte>, before: seq<byte>, area: seq<byte>, after: seq<byte>, j: nat, it: nat, end: nat,
                    p': seq<byte>)
    requires Tiles(area) && Reached(p, before, area, after, j, it, end)
    requires j < |ParseOptions(area)| && ParseOptions(area)[j].IsPadding()
    requires it <= it + ParseOptions(area)[j].Size() <= end <= |p|
    requires p' == Moved(p, it + ParseOptions(area)[j].Size(), end, it)
    ensures Reached(p', before, area, after, j + 1, it, end - ParseOptions(area)[j].Size())
  {
    hide Tiles, ParseOptions, EncodeOptions, Kept, Leftover, Stage, EncodeOption, Moved;
    var os := ParseOptions(area);
    EncodeParsed(area);
    StageHead(os, j);
    StageDrop(os, j, area);
    var k, size, r := |EncodeOptions(Kept(os[..j]))|, os[j].Size(), |EncodeOptions(os[j + 1..])|;
    assert end - it - size == r;
    var a := Stage(os, j, area);
    CopyWithin(before, a, after, k, size, r);
  }

  lemma ReachedLast(p: seq<byte>, before: seq<byte>, area: seq<byte>, after: seq<byte>, j: nat, it: nat)
    requires Tiles(area) && Reached(p, before, area, after, j, it, it)
    ensures p == before + Compacted(area) + after
    ensures it - |before| == |KeptBytes(area)|
  {
    var os := ParseOptions(area);
    if j < |os| {
      StageHead(os, j);
    }
    StageLast(area);
    assert os[..j] == os;
  }
}
