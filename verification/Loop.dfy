// The loop's handler maps, its poll list, and registration objects:
// src/loop.cpp:37-151 and src/i_loop.cpp.

module Loops {
  import opened HandlerMaps
  import O = Registrations

  /** A pollfd; `revents` is what the last poll left. */
  datatype PollFd = PollFd(fd: int, input: bool, output: bool, error: bool, revents: nat)

  datatype Wish = POLLIN | POLLOUT | POLLERR

  function Wishing(f: PollFd, w: Wish): PollFd {
    match w
    case POLLIN => f.(input := true)
    case POLLOUT => f.(output := true)
    case POLLERR => f.(error := true)
  }

  predicate DistinctFds(fds: seq<PollFd>) {
    forall i, j :: 0 <= i < j < |fds| ==> fds[i].fd != fds[j].fd
  }

  ghost predicate Lists(fds: seq<PollFd>, h: int) {
    exists i :: 0 <= i < |fds| && fds[i].fd == h
  }

  /** The loop polls every handle it has a handler for, once, and for just what it has handlers for. */
  ghost predicate Polls(l: Handlers, fds: seq<PollFd>) {
    && DistinctFds(fds)
    && (forall h :: Lists(fds, h) <==> h in l.readFns || h in l.writeFns || h in l.exceptFns)
    && (forall i :: 0 <= i < |fds| ==>
          (fds[i].input <==> fds[i].fd in l.readFns) && (fds[i].output <==> fds[i].fd in l.writeFns) && !fds[i].error)
  }

  class Loop {
    var readFns: map<int, Entry>
    var writeFns: map<int, Entry>
    var exceptFns: map<int, Callback>

    function Value(): Handlers
      reads this
    {
      Handlers(readFns, writeFns, exceptFns)
    }

    constructor ()
      ensures Value() == Handlers(map[], map[], map[])
    {
      readFns, writeFns, exceptFns := map[], map[], map[];
    }

    method RegisterRead(handle: int, callback: Callback, timeout: int) returns (claim: Claim)
      modifies this
      ensures Registered(Value(), claim) == HandlerMaps.RegisterRead(old(Value()), handle, Entry(callback, timeout))
    {
      if handle in readFns {
        return Moved;
      }
      readFns := readFns[handle := Entry(callback, timeout)];
      return Read(handle);
    }

    method RegisterWrite(handle: int, callback: Callback, timeout: int) returns (claim: Claim)
      modifies this
      ensures Registered(Value(), claim) == HandlerMaps.RegisterWrite(old(Value()), handle, Entry(callback, timeout))
    {
      if handle in writeFns {
        return Moved;
      }
      writeFns := writeFns[handle := Entry(callback, timeout)];
      return Write(handle);
    }

    method RegisterException(handle: int, callback: Callback) returns (claim: Claim)
      modifies this
      ensures Registered(Value(), claim) == HandlerMaps.RegisterException(old(Value()), handle, callback)
    {
      if handle in exceptFns {
        return Moved;
      }
      exceptFns := exceptFns[handle := callback];
      return Exception(handle);
    }

    method RemoveRead(handle: int)
      modifies this
      ensures Value() == old(Value()).(readFns := old(readFns) - {handle})
    {
      readFns := readFns - {handle};
    }

    method RemoveWrite(handle: int)
      modifies this
      ensures Value() == old(Value()).(writeFns := old(writeFns) - {handle})
    {
      writeFns := writeFns - {handle};
    }

    method RemoveException(handle: int)
      modifies this
      ensures Value() == old(Value()).(exceptFns := old(exceptFns) - {handle})
    {
      exceptFns := exceptFns - {handle};
    }

    /** The part of a registration's reset that touches the loop. */
    method Remove(claim: Claim)
      modifies this
      ensures Value() == Release(old(Value()), claim)
    {
      match claim
      case Moved =>
      case Read(h) => RemoveRead(h);
      case Write(h) => RemoveWrite(h);
      case Exception(h) => RemoveException(h);
    }

    /** Brings a stale poll list up to date with the three maps. */
    method PopulateFds(stale: seq<PollFd>) returns (fds: seq<PollFd>)
      requires DistinctFds(stale)
      ensures Polls(Value(), fds)
    {
      var cleared := ClearFds(stale);
      var read := AddFds(cleared, readFns.Keys, POLLIN);
      NotedNext(cleared, read, readFns.Keys, POLLIN, {}, {}, {});
      var written := AddFds(read, writeFns.Keys, POLLOUT);
      NotedNext(read, written, writeFns.Keys, POLLOUT, readFns.Keys, {}, {});
      var full := AddFds(written, exceptFns.Keys, POLLERR);
      NotedNext(written, full, exceptFns.Keys, POLLERR, readFns.Keys, writeFns.Keys, {});
      fds := RemoveFds(full);
      WantedPolls(full, Value());
    }
  }

  // ------------------------------------------------ the loops of populateFds

  /** Clears the events of every entry. */
  method ClearFds(stale: seq<PollFd>) returns (fds: seq<PollFd>)
    ensures |fds| == |stale|
    ensures forall i :: 0 <= i < |fds| ==> fds[i] == PollFd(stale[i].fd, false, false, false, stale[i].revents)
  {
    fds := stale;
    var i := 0;
    while i < |fds|
      invariant i <= |fds| == |stale|
      invariant forall k :: 0 <= k < i ==> fds[k] == PollFd(stale[k].fd, false, false, false, stale[k].revents)
      invariant forall k :: i <= k < |fds| ==> fds[k] == stale[k]
    {
      fds := fds[i := fds[i].(input := false, output := false, error := false)];
      i := i + 1;
    }
  }

  /** What adding one event for some handles leaves of an entry. */
  function Marked(f: PollFd, handles: set<int>, w: Wish): PollFd {
    if f.fd in handles then Wishing(f, w) else f
  }

  /** `fds` is `before` with one event added for some handles, in their entries or in entries of their own. */
  ghost predicate Added(before: seq<PollFd>, fds: seq<PollFd>, handles: set<int>, w: Wish) {
    && DistinctFds(fds) && |before| <= |fds|
    && (forall i :: 0 <= i < |before| ==> fds[i] == Marked(before[i], handles, w))
    && (forall i :: |before| <= i < |fds| ==>
          fds[i].fd in handles && fds[i] == Wishing(PollFd(fds[i].fd, false, false, false, 0), w))
    && (forall h :: h in handles ==> Lists(fds, h))
  }

  /** The next handle of a map, whichever it is. */
  method Any(handles: set<int>) returns (h: int)
    requires handles != {}
    ensures h in handles
  {
    assert (forall k :: k !in handles) ==> handles == {};
    h :| h in handles;
  }

  method AddFds(before: seq<PollFd>, handles: set<int>, w: Wish) returns (fds: seq<PollFd>)
    requires DistinctFds(before)
    ensures Added(before, fds, handles, w)
  {
    fds := before;
    var rest := handles;
    assert handles - rest == {};
    while rest != {}
      invariant rest <= handles
      invariant Added(before, fds, handles - rest, w)
      decreases rest
    {
      var h := Any(rest);
      ghost var was := fds;
      fds := AddFd(fds, h, w);
      AddedNext(before, was, fds, handles - rest, h, w);
      rest := rest - {h};
      assert handles - rest == (handles - (rest + {h})) + {h};
    }
    assert handles - rest == handles;
  }

  lemma AddedNext(before: seq<PollFd>, was: seq<PollFd>, fds: seq<PollFd>, done: set<int>, h: int, w: Wish)
    requires Added(before, was, done, w) && h !in done && DistinctFds(fds) && Lists(fds, h)
    requires forall i :: 0 <= i < |was| ==> i < |fds| && fds[i] == Marked(was[i], {h}, w)
    requires if Lists(was, h) then |fds| == |was|
             else |fds| == |was| + 1 && fds[|was|] == Wishing(PollFd(h, false, false, false, 0), w)
    ensures Added(before, fds, done + {h}, w)
  {
    forall k | Lists(was, k) ensures Lists(fds, k) {
      var i :| 0 <= i < |was| && was[i].fd == k;
      assert fds[i].fd == k;
    }
  }

  /** The inner loop: marks the entries of one handle, or appends one. */
  method AddFd(before: seq<PollFd>, h: int, w: Wish) returns (fds: seq<PollFd>)
    requires DistinctFds(before)
    ensures DistinctFds(fds) && Lists(fds, h)
    ensures forall i :: 0 <= i < |before| ==> i < |fds| && fds[i] == Marked(before[i], {h}, w)
    ensures if Lists(before, h) then |fds| == |before|
            else |fds| == |before| + 1 && fds[|before|] == Wishing(PollFd(h, false, false, false, 0), w)
  {
    fds := before;
    var found := false;
    var i := 0;
    while i < |fds|
      invariant i <= |fds| == |before|
      invariant found <==> exists k :: 0 <= k < i && before[k].fd == h
      invariant forall k :: 0 <= k < i ==> fds[k] == Marked(before[k], {h}, w)
      invariant forall k :: i <= k < |fds| ==> fds[k] == before[k]
    {
      if fds[i].fd == h {
        fds := fds[i := Wishing(fds[i], w)];
        found := true;
      }
      i := i + 1;
    }
    if !found {
      fds := fds + [Wishing(PollFd(h, false, false, false, 0), w)];
      assert fds[|before|].fd == h;
    } else {
      var k :| 0 <= k < |before| && before[k].fd == h;
      assert fds[k].fd == h;
    }
  }

  predicate Wanting(f: PollFd) {
    f.input || f.output || f.error
  }

  /** The entries that wish for anything, without the error wish, in order. */
  function Wanted(fds: seq<PollFd>): seq<PollFd> {
    if fds == [] then []
    else
      var last := fds[|fds| - 1];
      Wanted(fds[..|fds| - 1])
      + if Wanting(last) then [last.(error := false)] else []
  }

  method RemoveFds(before: seq<PollFd>) returns (fds: seq<PollFd>)
    ensures fds == Wanted(before)
  {
    hide Wanted;
    fds := before;
    var it := 0;
    ghost var n := 0;
    WantedNothing(before);
    while it != |fds|
      invariant it <= |fds| && n <= |before|
      invariant fds == Wanted(before[..n]) + before[n..] && it == |Wanted(before[..n])|
      decreases |before| - n
    {
      WantedNext(before, n);
      HeadOfRest(Wanted(before[..n]), before[n..], fds[it].(error := false));
      assert before[n..][1..] == before[n + 1..];
      if !fds[it].input && !fds[it].output && !fds[it].error {
        fds := fds[..it] + fds[it + 1..];
      } else {
        fds := fds[it := fds[it].(error := false)];
        it := it + 1;
      }
      n := n + 1;
    }
    assert n == |before| && before[..n] == before;
  }

  /** Erasing, or replacing, the first element behind `w`. */
  lemma HeadOfRest(w: seq<PollFd>, rest: seq<PollFd>, f: PollFd)
    requires rest != []
    ensures var s, n := w + rest, |w|;
            s[n] == rest[0] && s[..n] + s[n + 1..] == w + rest[1..] && s[n := f] == (w + [f]) + rest[1..]
  {
  }

  lemma WantedNothing(fds: seq<PollFd>)
    ensures Wanted(fds[..0]) == []
  {
  }

  lemma WantedNext(fds: seq<PollFd>, n: nat)
    requires n < |fds|
    ensures Wanted(fds[..n + 1])
            == Wanted(fds[..n]) + if Wanting(fds[n]) then [fds[n].(error := false)] else []
  {
    assert fds[..n + 1][..n] == fds[..n];
  }

  // ------------------------------------------------ what the list says at each stage

  /** Every entry wishes for what its handle is noted for, and every noted handle has an entry. */
  ghost predicate Noted(fds: seq<PollFd>, r: set<int>, w: set<int>, e: set<int>) {
    && DistinctFds(fds)
    && (forall i :: 0 <= i < |fds| ==>
          && (fds[i].input <==> fds[i].fd in r) && (fds[i].output <==> fds[i].fd in w)
          && (fds[i].error <==> fds[i].fd in e))
    && (forall h :: h in r || h in w || h in e ==> Lists(fds, h))
  }

  lemma NotedNext(before: seq<PollFd>, fds: seq<PollFd>, handles: set<int>, wish: Wish,
                  r: set<int>, w: set<int>, e: set<int>)
    requires Noted(before, r, w, e) && Added(before, fds, handles, wish)
    requires match wish case POLLIN => r == {} case POLLOUT => w == {} case POLLERR => e == {}
    ensures match wish
            case POLLIN => Noted(fds, handles, w, e)
            case POLLOUT => Noted(fds, r, handles, e)
            case POLLERR => Noted(fds, r, w, handles)
  {
    forall k | Lists(before, k) ensures exists i :: 0 <= i < |before| && fds[i].fd == k {
      var i :| 0 <= i < |before| && before[i].fd == k;
      assert fds[i].fd == k;
    }
    forall i | |before| <= i < |fds| ensures !Lists(before, fds[i].fd) {
    }
  }

  ghost predicate Stems(fds: seq<PollFd>, f: PollFd) {
    exists i :: 0 <= i < |fds| && Wanting(fds[i]) && f == fds[i].(error := false)
  }

  /** Exactly the wanting entries stay, without their error wish. */
  lemma {:induction false} WantedAre(fds: seq<PollFd>)
    ensures forall j :: 0 <= j < |Wanted(fds)| ==> Stems(fds, Wanted(fds)[j])
    ensures forall i :: 0 <= i < |fds| && Wanting(fds[i]) ==> Lists(Wanted(fds), fds[i].fd)
    ensures DistinctFds(fds) ==> DistinctFds(Wanted(fds))
  {
    if fds != [] {
      var front, last := fds[..|fds| - 1], fds[|fds| - 1];
      WantedAre(front);
      var r := Wanted(fds);
      forall f | Stems(front, f) ensures Stems(fds, f) {
        var i :| 0 <= i < |front| && Wanting(front[i]) && f == front[i].(error := false);
        assert Wanting(fds[i]) && f == fds[i].(error := false);
      }
      assert Wanting(last) ==> Stems(fds, last.(error := false));
      forall i | 0 <= i < |fds| && Wanting(fds[i]) ensures Lists(r, fds[i].fd) {
        if i < |front| {
          assert front[i] == fds[i];
          var j :| 0 <= j < |Wanted(front)| && Wanted(front)[j].fd == fds[i].fd;
          assert r[j].fd == fds[i].fd;
        } else {
          assert r[|r| - 1].fd == last.fd;
        }
      }
    }
  }

  lemma WantedPolls(full: seq<PollFd>, l: Handlers)
    requires Noted(full, l.readFns.Keys, l.writeFns.Keys, l.exceptFns.Keys)
    ensures Polls(l, Wanted(full))
  {
    WantedAre(full);
    var r := Wanted(full);
    forall h | h in l.readFns || h in l.writeFns || h in l.exceptFns ensures Lists(r, h) {
      var i :| 0 <= i < |full| && full[i].fd == h;
      assert Wanting(full[i]);
    }
  }

  /** A registration object. Once moved from, the handle it still has means nothing. */
  class Registration {
    var loop: Loop?
    var handle: int
    var kind: Kind

    function Value(): Claim
      reads this
    {
      match kind
      case MovedFrom => Moved
      case ReadKind => Read(handle)
      case WriteKind => Write(handle)
      case ExceptionKind => Exception(handle)
    }

    constructor Empty()
      ensures Value() == Moved
    {
      loop, handle, kind := null, -1, MovedFrom;
    }

    constructor (loop: Loop, handle: int, kind: Kind)
      ensures this.loop == loop && this.handle == handle && this.kind == kind
    {
      this.loop, this.handle, this.kind := loop, handle, kind;
    }

    /** Move construction. */
    constructor Take(other: Registration)
      modifies other
      ensures loop == old(other.loop) && Value() == old(other.Value()) && other.Value() == Moved
      ensures forall o: O.Owners, at, from ::
                at !in o.objects && from in o.objects && o.objects[from] == old(other.Value())
                ==>
                  O.Do(o, O.Take(at, from)) == o.(objects := o.objects[at := Value()][from := other.Value()])
    {
      loop, handle, kind := other.loop, other.handle, other.kind;
      new;
      other.kind := MovedFrom;
    }

    /** Move assignment swaps, even with itself. */
    method Assign(other: Registration)
      modifies this, other
      ensures loop == old(other.loop) && other.loop == old(loop)
      ensures Value() == old(other.Value()) && other.Value() == old(Value())
      ensures forall o: O.Owners, at, from ::
                && at in o.objects && from in o.objects && (at == from <==> this == other)
                && o.objects[at] == old(Value()) && o.objects[from] == old(other.Value())
                ==>
                  O.Do(o, O.Assign(at, from)) == o.(objects := o.objects[at := Value()][from := other.Value()])
    {
      loop, other.loop := other.loop, loop;
      handle, other.handle := other.handle, handle;
      kind, other.kind := other.kind, kind;
    }

    /** Also the destructor. */
    method Reset()
      requires kind != MovedFrom ==> loop != null
      modifies this, if kind == MovedFrom || loop == null then {} else {loop}
      ensures Value() == Moved && loop == old(loop)
      ensures old(kind) != MovedFrom && loop != null ==> loop.Value() == Release(old(loop.Value()), old(Value()))
      ensures forall o: O.Owners, at ::
                && at in o.objects && o.objects[at] == old(Value())
                && (old(kind) != MovedFrom && loop != null ==> o.loop == old(loop.Value()))
                ==>
                  O.Do(o, O.Reset(at)) == O.Owners(if old(kind) == MovedFrom || loop == null then o.loop
                                                   else loop.Value(), o.objects[at := Value()])
    {
      match kind {
        case MovedFrom =>
        case ReadKind => loop.RemoveRead(handle);
        case WriteKind => loop.RemoveWrite(handle);
        case ExceptionKind => loop.RemoveException(handle);
      }
      kind := MovedFrom;
    }
  }

  datatype Kind = MovedFrom | ReadKind | WriteKind | ExceptionKind
}
