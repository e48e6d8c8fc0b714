// The packet rewriter of src/dns_packet.cpp: loops over a buffer, options
// compacted in place, lengths patched and the tail moved down.

module DnsPackets {
  import opened Bytes
  import opened Message
  import W = Walk
  import opened Options
  import opened Compaction
  import R = Rewrite

  /** A packet is the first `size` octets of its buffer, as in a vector that only ever shrinks. */
  class DnsPacket {
    var buffer: array<byte>
    var size: nat

    predicate Valid()
      reads this
    {
      size <= buffer.Length
    }

    ghost function Contents(): (p: seq<byte>)
      requires Valid()
      reads this, buffer
      ensures |p| == size
    {
      buffer[..size]
    }

    constructor (packet: seq<byte>)
      ensures Valid() && fresh(buffer) && Contents() == packet
    {
      buffer := new byte[|packet|](i requires 0 <= i < |packet| => packet[i]);
      size := |packet|;
    }

    method GetShort(i: nat) returns (v: nat)
      requires Valid() && i + 2 <= size
      ensures v == ShortAt(Contents(), i)
    {
      v := 256 * (buffer[i] as int) + buffer[i + 1] as int;
    }

    method SetShort(i: nat, v: nat)
      requires Valid() && i + 2 <= size && v < LIMIT
      modifies buffer
      ensures Contents() == old(Contents())[..i] + Short(v) + old(Contents())[i + 2..]
    {
      buffer[i], buffer[i + 1] := v / 256, v % 256;
    }

    /** getHeader, and the valid() the callers see. */
    method HasHeader() returns (valid: bool)
      requires Valid()
      ensures valid == W.HasHeader(Contents())
    {
      if size < HEADER {
        return false;
      }
      var length := GetShort(0);
      return length == size - 2;
    }

    method Length() returns (n: nat)
      requires Valid()
      ensures n == if W.HasHeader(Contents()) then size - 2 else 0
    {
      var valid := HasHeader();
      if !valid {
        return 0;
      }
      n := GetShort(0);
    }

    /** data() and length(): the message as UDP carries it. */
    method Datagram() returns (d: seq<byte>)
      requires Valid() && W.HasHeader(Contents())
      ensures d == Contents()[2..]
    {
      var n := Length();
      d := buffer[2..2 + n];
    }

    method SkipName(start: nat) returns (current: nat)
      requires Valid() && start <= size
      ensures current == W.SkipName(Contents(), start)
    {
      current := start;
      while current != size
        invariant current <= size
        invariant W.SkipName(Contents(), current) == W.SkipName(Contents(), start)
        decreases size - current
      {
        var octet := buffer[current];
        if octet == 0 {
          return current + 1;
        } else if octet >= 0xC0 {
          return current + 2;
        } else if size - current > octet + 1 {
          current := current + octet + 1;
        } else {
          current := size;
        }
      }
    }

    method SkipFixed(start: nat, length: nat) returns (current: nat)
      requires Valid() && start <= size
      ensures current == W.SkipFixed(Contents(), start, length)
    {
      if size - start > length {
        current := start + length;
      } else {
        current := size;
      }
    }

    method SkipQueries(count: nat, start: nat) returns (it: nat)
      requires Valid() && start <= size
      requires W.SkipQuestions(Contents(), count, start).At?
      ensures W.At(it) == W.SkipQuestions(Contents(), count, start)
    {
      hide W.SkipName;
      it := start;
      var left := count;
      while left > 0 && it != size
        invariant it <= size
        invariant W.SkipQuestions(Contents(), left, it) == W.SkipQuestions(Contents(), count, start)
        decreases left
      {
        it := SkipName(it);
        it := SkipFixed(it, 4);
        left := left - 1;
      }
    }

    method SkipResponses(count: nat, start: nat) returns (it: nat)
      requires Valid() && start <= size
      requires W.SkipRecords(Contents(), count, start).At?
      ensures W.At(it) == W.SkipRecords(Contents(), count, start)
    {
      hide W.SkipName, ShortAt;
      it := start;
      var left := count;
      while left > 0 && it != size
        invariant it <= size
        invariant W.SkipRecords(Contents(), left, it) == W.SkipRecords(Contents(), count, start)
        decreases left
      {
        it := SkipName(it);
        it := SkipFixed(it, 8);
        if size - it >= 2 {
          var length := GetShort(it);
          it := it + 2;
          if size - it >= length {
            it := it + length;
          } else {
            it := size;
          }
        } else {
          it := size;
        }
        left := left - 1;
      }
    }

    /** std::copy to an earlier place in the same buffer, front to back. */
    method CopyDown(first: nat, last: nat, dest: nat)
      requires Valid() && dest <= first <= last <= size
      modifies buffer
      ensures Contents() == Moved(old(Contents()), first, last, dest)
    {
      hide Moved;
      ghost var p := Contents();
      var k := 0;
      MovedNothing(p, first, dest);
      while k < last - first
        invariant k <= last - first
        invariant Contents() == Moved(p, first, first + k, dest)
      {
        MovedNext(p, first, first + k, dest);
        ghost var q := Contents();
        buffer[dest + k] := buffer[first + k];
        assert Contents() == q[dest + k := q[first + k]];
        k := k + 1;
      }
    }

    /**
     * Options that are not padding move to the front of the area, in order; the
     * rest of the area is what the copies leave.
     */
    method RemovePaddingOption(begin: nat, length: nat) returns (kept: nat)
      requires Valid() && begin + length <= size
      requires Tiles(Contents()[begin..begin + length])
      modifies buffer
      ensures var p := old(Contents());
              var area := p[begin..begin + length];
              && kept == |KeptBytes(area)|
              && Contents() == R.Replaced(p, begin, length, Compacted(area))
    {
      hide Reached, Tiles, ParseOptions, Compacted, KeptBytes, Moved, ShortAt;
      ghost var before, area := Contents()[..begin], Contents()[begin..begin + length];
      ghost var after := Contents()[begin + length..];
      assert Contents() == before + area + after;
      ReachedFirst(before, area, after);
      ghost var j := 0;
      var it, end := begin, begin + length;
      while it != end
        invariant begin <= it <= end <= begin + length
        invariant Reached(Contents(), before, area, after, j, it, end)
        decreases end - it
      {
        ghost var p := Contents();
        ReachedHead(p, before, area, after, j, it, end);
        var optLength := GetShort(it + 2);
        var fullLength := 4 + optLength;
        var code := GetShort(it);
        if code == PADDING {
          CopyDown(it + fullLength, end, it);
          ReachedDrop(p, before, area, after, j, it, end, Contents());
          end := end - fullLength;
        } else {
          ReachedSkip(p, before, area, after, j, it, end);
          it := it + fullLength;
        }
        j := j + 1;
      }
      ReachedLast(Contents(), before, area, after, j, it);
      return it - begin;
    }

    /** Over the first three sections, by the counts in the header. */
    method SkipToAdditional() returns (it: nat)
      requires Valid() && W.HasHeader(Contents()) && W.WalkToAdditional(Contents()).At?
      ensures W.At(it) == W.WalkToAdditional(Contents())
    {
      hide W.SkipQuestions, W.SkipRecords;
      var queries := GetShort(6);
      it := SkipQueries(queries, HEADER);
      var answers := GetShort(8);
      it := SkipResponses(answers, it);
      var authorities := GetShort(10);
      it := SkipResponses(authorities, it);
    }

    /**
     * Takes the padding out of the first OPT record that fits. The result is
     * true whenever there is such a record, with or without padding in it.
     */
    method RemoveEdnsPadding() returns (success: bool)
      requires Valid() && R.Safe(Contents())
      modifies this, buffer
      ensures Valid() && buffer == old(buffer)
      ensures Contents() == R.Rewritten(old(Contents()))
      ensures success == (W.HasHeader(old(Contents())) && W.Locate(old(Contents())).Found?)
    {
      hide R.Rewritten, R.Safe, W.Locate, W.FindOpt, W.HasHeader, W.WalkToAdditional, W.SkipRecords, ShortAt;
      var valid := HasHeader();
      if !valid {
        R.NotFoundUntouched(Contents());
        return false;
      }
      ghost var p := Contents();
      R.SafeLocates(p);
      var count: nat := GetShort(12);
      var it: nat := SkipToAdditional();
      success := false;
      while count > 0 && it != size && !success
        invariant Valid() && buffer == old(buffer) && count < LIMIT
        invariant !success ==> Contents() == p && it <= size && W.FindOpt(p, count, it) == W.Locate(p)
        invariant success ==> W.Locate(p).Found? && Contents() == R.Rewritten(p)
        decreases count, !success
      {
        W.FindOptNext(p, count, it);
        count := count - 1;
        var first := buffer[it];
        var other := true;
        if first == 0 && size - it >= 11 {
          var rtype := GetShort(it + 1);
          other := rtype != OPT;
        }
        if other {
          it := SkipResponses(1, it);
        } else {
          var length := GetShort(it + 9);
          if size - it >= length + 11 {
            Splice(it, length);
            success := true;
          }
        }
      }
      if !success {
        W.FindOptEnds(p, count, it);
        R.NotFoundUntouched(p);
      }
    }

    /** The body of the search once the OPT record at `it` is found. */
    method Splice(it: nat, length: nat)
      requires Valid() && R.Safe(Contents()) && W.HasHeader(Contents())
      requires W.Locate(Contents()) == W.Found(it) && ShortAt(Contents(), it + 9) == length
      modifies this, buffer
      ensures Valid() && buffer == old(buffer)
      ensures Contents() == R.Rewritten(old(Contents()))
    {
      hide R.Rewritten, R.Replaced, R.Relengthed, R.Without, R.Safe, R.Area,
           Tiles, Compacted, KeptBytes, W.Locate, W.HasHeader, ShortAt;
      R.SpliceIsPatch(Contents(), it);
      var options := it + 11;
      var optionsLength := RemovePaddingOption(options, length);
      var diff := length - optionsLength;
      SetLengths(it + 9, optionsLength, diff);
      CutOut(options, diff);
    }

    /** The new RDLENGTH, and the packet length less what is taken out. */
    method SetLengths(at: nat, optionsLength: nat, diff: nat)
      requires Valid() && 2 <= at && at + 2 <= size && optionsLength < LIMIT
      requires diff <= ShortAt(Contents(), 0)
      modifies buffer
      ensures Contents() == R.Relengthed(old(Contents()), at, optionsLength, diff)
    {
      hide R.Relengthed, Short, ShortAt;
      ghost var p := Contents();
      SetShort(at, optionsLength);
      R.SetTwice(p, at, optionsLength, diff, Contents());
      var prefix := GetShort(0);
      SetShort(0, prefix - diff);
    }

    /** The copy of the tail and the resize. */
    method CutOut(from: nat, diff: nat)
      requires Valid() && from + diff <= size
      modifies this, buffer
      ensures Valid() && buffer == old(buffer)
      ensures Contents() == R.Without(old(Contents()), from, diff)
    {
      ghost var q := Contents();
      CopyDown(from + diff, size, from);
      ghost var r := Contents();
      R.CutAfterCopy(q, from, from + diff);
      size := size - diff;
      assert Contents() == r[..size];
    }
  }
}
