// Octets, big-endian 16-bit fields, and "these octets are found at this offset".

module Bytes {

  type byte = x: int | 0 <= x < 256

  const LIMIT := 0x1_0000 // one more than the largest unsigned short

  /** The value that ntohs reads from the two octets at `i`. */
  function ShortAt(p: seq<byte>, i: nat): (v: nat)
    requires i + 2 <= |p|
    ensures v < LIMIT
  {
    256 * (p[i] as int) + p[i + 1] as int
  }

  /** The two octets that htons writes. */
  function Short(v: nat): (b: seq<byte>)
    requires v < LIMIT
    ensures |b| == 2
    ensures ShortAt(b, 0) == v
  {
    [v / 256, v % 256]
  }

  /** `b` is found in `p` at offset `i`. */
  predicate Holds(p: seq<byte>, i: nat, b: seq<byte>) {
    i + |b| <= |p| && p[i..i + |b|] == b
  }

  /** Finding a concatenation is finding its parts one after the other. */
  lemma HoldsSplit(p: seq<byte>, i: nat, a: seq<byte>, b: seq<byte>)
    ensures Holds(p, i, a + b) <==> Holds(p, i, a) && Holds(p, i + |a|, b)
  {
    if i + |a| + |b| <= |p| {
      var s := p[i..i + |a| + |b|];
      assert s[..|a|] == p[i..i + |a|];
      assert s[|a|..] == p[i + |a|..i + |a| + |b|];
      assert s == s[..|a|] + s[|a|..];
    }
  }

  lemma HoldsAt(p: seq<byte>, i: nat, b: seq<byte>, k: nat)
    requires Holds(p, i, b) && k < |b|
    ensures p[i + k] == b[k]
  {
    assert p[i..i + |b|][k] == p[i + k];
  }

  lemma HoldsShort(p: seq<byte>, i: nat, v: nat)
    requires v < LIMIT
    requires Holds(p, i, Short(v))
    ensures ShortAt(p, i) == v
  {
    HoldsAt(p, i, Short(v), 0);
    HoldsAt(p, i, Short(v), 1);
  }

  lemma FrontAndLast<T>(s: seq<T>)
    requires s != []
    ensures s[..|s| - 1] + [s[|s| - 1]] == s
  {
  }

  lemma FrontAndRest<T>(s: seq<T>, i: nat)
    requires i <= |s|
    ensures s[..i] + s[i..] == s
    ensures i < |s| ==> s[..i] + [s[i]] + s[i + 1..] == s
  {
  }

  /** The last `n` octets of `s`. */
  function Suffix(s: seq<byte>, n: nat): (r: seq<byte>)
    requires n <= |s|
    ensures |r| == n
  {
    s[|s| - n..]
  }

  lemma SuffixOfEnd(x: seq<byte>, y: seq<byte>, n: nat)
    requires n <= |y|
    ensures Suffix(x + y, n) == Suffix(y, n)
  {
  }

  lemma SuffixOfSuffix(s: seq<byte>, m: nat, n: nat)
    requires n <= m <= |s|
    ensures Suffix(Suffix(s, m), n) == Suffix(s, n)
  {
  }

  /** `p` after copying the octets from `first` up to `last` down to `dest`. */
  function Moved(p: seq<byte>, first: nat, last: nat, dest: nat): (r: seq<byte>)
    requires dest <= first <= last <= |p|
    ensures |r| == |p|
  {
    p[..dest] + p[first..last] + p[dest + (last - first)..]
  }

  lemma MovedNothing(p: seq<byte>, first: nat, dest: nat)
    requires dest <= first <= |p|
    ensures Moved(p, first, first, dest) == p
  {
  }

  /** One more octet is copied from where nothing was copied to yet. */
  lemma MovedNext(p: seq<byte>, first: nat, last: nat, dest: nat)
    requires dest <= first <= last < |p|
    ensures var q, k := Moved(p, first, last, dest), dest + (last - first);
            Moved(p, first, last + 1, dest) == q[k := q[last]]
  {
    var q, k := Moved(p, first, last, dest), dest + (last - first);
    assert q[last] == p[last];
    assert p[first..last + 1] == p[first..last] + [p[last]];
  }
}
