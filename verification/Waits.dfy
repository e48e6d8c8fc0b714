// How long the next poll waits (src/loop.cpp:153-199): the sweep computes the
// earliest deadline on its way, with zero both for none and for the smallest.

module Waits {
  import opened HandlerMaps
  import opened Connections
  import opened Systems
  import opened Invariants
  import opened Executions
  import opened Reports
  import opened Sweeps
  import opened Openings

  // ------------------------------------------------ what the sweep of one map computes

  /** The earlier of what was found so far and one more deadline. */
  function Sooner(earliest: int, deadline: int): int {
    if earliest == 0 || deadline < earliest then deadline else earliest
  }

  predicate Endless(fns: map<int, Entry>, z: int) {
    z in fns && fns[z].deadline == 0
  }

  /** A handler with a deadline, on a handle beyond all handlers without one. */
  predicate Past(fns: map<int, Entry>, k: int) {
    k in fns && fns[k].deadline != 0 && forall z :: z in fns && Endless(fns, z) ==> z < k
  }

  function PastDeadlines(fns: map<int, Entry>): set<int> {
    set k | k in fns && Past(fns, k) :: fns[k].deadline
  }

  /** The earliest of their deadlines, or zero. Handlers before one without a deadline are forgotten. */
  function Soonest(fns: map<int, Entry>): int {
    var next := Next(PastDeadlines(fns), None);
    if next.Some? then next.value else 0
  }

  lemma SoonestIs(fns: map<int, Entry>)
    ensures Soonest(fns) == 0 || exists w :: Past(fns, w) && fns[w].deadline == Soonest(fns)
    ensures forall k :: Past(fns, k) ==> Soonest(fns) != 0 && Soonest(fns) <= fns[k].deadline
  {
    forall k | Past(fns, k) ensures Soonest(fns) != 0 && Soonest(fns) <= fns[k].deadline {
      assert fns[k].deadline in PastDeadlines(fns);
    }
  }

  predicate Visited(fns: map<int, Entry>, it: Option<int>, k: int) {
    k in fns && (it.Some? ==> k < it.value)
  }

  /**
   * What `earliest` is while the iterator is at `it`: zero, or a deadline to
   * come; and once no handler without a deadline lies ahead, the earliest
   * deadline visited since the last of those.
   */
  ghost predicate Passing(fns: map<int, Entry>, now: int, it: Option<int>, earliest: int) {
    && 0 <= earliest
    && (earliest == 0 || (now < earliest && exists w :: w in fns && fns[w].deadline == earliest))
    && ((forall z :: Endless(fns, z) ==> Visited(fns, it, z)) ==>
          && (forall k :: Past(fns, k) && Visited(fns, it, k) ==> earliest != 0 && earliest <= fns[k].deadline)
          && (earliest != 0 && (exists z :: Endless(fns, z)) ==>
                exists w :: Past(fns, w) && Visited(fns, it, w) && fns[w].deadline == earliest))
  }

  lemma PassingStarts(fns: map<int, Entry>, now: int, it: Option<int>)
    requires it == Next(fns.Keys, None)
    ensures Passing(fns, now, it, 0)
  {
    assert forall k :: Visited(fns, it, k) ==> k in fns.Keys;
  }

  /** A handler that has not expired is passed. */
  lemma PassingPasses(fns: map<int, Entry>, now: int, it: int, earliest: int, next: Option<int>)
    requires 0 <= now && Passing(fns, now, Some(it), earliest) && it in fns && next == Next(fns.Keys, Some(it))
    requires fns[it].deadline == 0 || now < fns[it].deadline
    ensures Passing(fns, now, next, Sooner(earliest, fns[it].deadline))
  {
    forall k | k in fns ensures Visited(fns, next, k) <==> k <= it {
      assert k in fns.Keys;
    }
    var e := Sooner(earliest, fns[it].deadline);
    if forall z :: Endless(fns, z) ==> Visited(fns, next, z) {
      if fns[it].deadline == 0 {
        assert Endless(fns, it);
      } else {
        assert forall z :: Endless(fns, z) ==> Visited(fns, Some(it), z);
        assert Past(fns, it) && Visited(fns, next, it);
      }
    }
  }

  /** After an exception the sweep starts over, with the handlers that had a deadline to come still there. */
  lemma PassingRestarts(fns: map<int, Entry>, gns: map<int, Entry>, now: int, it: Option<int>, earliest: int,
                        next: Option<int>)
    requires Passing(fns, now, it, earliest) && next == Next(gns.Keys, None)
    requires forall k :: k in fns && now < fns[k].deadline ==> k in gns && gns[k].deadline == fns[k].deadline
    ensures Passing(gns, now, next, earliest)
  {
    forall k ensures !Visited(gns, next, k) {
      assert k in gns ==> k in gns.Keys;
    }
  }

  /** When the sweep ends, that is the earliest deadline beyond all handlers without one. */
  lemma PassingEnds(fns: map<int, Entry>, now: int, earliest: int)
    requires Passing(fns, now, None, earliest)
    ensures earliest == Soonest(fns)
  {
    SoonestIs(fns);
    assert forall k :: k in fns ==> Visited(fns, None, k);
    if earliest != 0 && !(exists z :: Endless(fns, z)) {
      var w :| w in fns && fns[w].deadline == earliest;
      assert Past(fns, w);
    }
  }

  lemma DeadlinesToCome(env: Environment, s: System, now: int, writing: bool, h: int)
    requires Inv(s) && h in Expiring(s.loop, now, writing)
    ensures h in s.loop.exceptFns
    ensures var fns, gns := Swept(s.loop, writing), Swept(Step(env, s, Failed(h)).loop, writing);
            forall k :: k in fns && now < fns[k].deadline ==> k in gns && gns[k].deadline == fns[k].deadline
  {
    ExpiredIsLate(s, now, h);
    hide Inv, Step, Late;
    forall k | k in Swept(s.loop, writing) && now < Swept(s.loop, writing)[k].deadline
      ensures k in Swept(Step(env, s, Failed(h)).loop, writing)
      ensures Swept(Step(env, s, Failed(h)).loop, writing)[k] == Swept(s.loop, writing)[k]
    {
      EntryStays(env, s, h, writing, k);
    }
  }

  // ------------------------------------------------ what timeout returns

  function Milliseconds(now: int, reading: int, writing: int): int {
    var earliest := if reading < writing then reading else writing;
    if earliest == 0 then -1 else if now >= earliest then 0 else (earliest - now) * 1000
  }

  /** The wait that both sweeps leave. */
  ghost function SweptWait(env: Environment, s: System, now: int): int
    requires Inv(s)
  {
    Milliseconds(now, Soonest(AfterReads(env, s, now).loop.readFns), Soonest(SweptBoth(env, s, now).loop.writeFns))
  }

  /** How long the poll after this timeout waits; -1 is without limit. */
  ghost function PollWait(env: Environment, s: System, time: int): int
    requires Inv(s)
  {
    var ticked := Step(env, s, Tick(time));
    SweptWait(env, ticked, ticked.clock)
  }

  // ------------------------------------------------ which connections the wait counts

  /** Beyond all listening sockets. */
  predicate Beyond(s: System, h: int) {
    forall z :: z in s.servers ==> z < h
  }

  /** The sweep of the read handlers counts a connection that reads on a handle beyond all listening sockets. */
  predicate ReadsAt(s: System, i: nat) {
    i < |s.conns| && s.conns[i].read.Read? && Beyond(s, s.conns[i].read.handle)
  }

  /** That of the write handlers counts every one that writes. */
  predicate WritesAt(s: System, i: nat) {
    i < |s.conns| && s.conns[i].write.Write?
  }

  /** The handlers without a deadline are those of the listening sockets. */
  lemma EndlessServe(s: System, z: int)
    requires Inv(s)
    ensures Endless(s.loop.readFns, z) <==> z in s.servers
    ensures !Endless(s.loop.writeFns, z)
  {
    HandlersOwned(s, z);
    forall i | 0 <= i < |s.conns| ensures Agrees(s.loop, i, s.conns[i]) && s.conns[i].deadline > 0 {
    }
  }

  lemma SoonestReads(s: System)
    requires Inv(s)
    ensures 0 <= Soonest(s.loop.readFns)
    ensures Soonest(s.loop.readFns) == 0 <==> forall i: nat :: !ReadsAt(s, i)
    ensures Soonest(s.loop.readFns) != 0 ==>
              exists i: nat :: ReadsAt(s, i) && s.conns[i].deadline == Soonest(s.loop.readFns)
    ensures forall i: nat :: ReadsAt(s, i) ==> Soonest(s.loop.readFns) <= s.conns[i].deadline
  {
    SoonestIs(s.loop.readFns);
    hide Soonest, Inv;
    forall i: nat | ReadsAt(s, i)
      ensures Past(s.loop.readFns, s.conns[i].read.handle) && 0 < s.conns[i].deadline
      ensures s.loop.readFns[s.conns[i].read.handle].deadline == s.conns[i].deadline
    {
      ReadsPast(s, i);
    }
    forall k | Past(s.loop.readFns, k)
      ensures s.loop.readFns[k].callback.Bound? && ReadsAt(s, s.loop.readFns[k].callback.id)
      ensures s.conns[s.loop.readFns[k].callback.id].deadline == s.loop.readFns[k].deadline
      ensures 0 < s.loop.readFns[k].deadline
    {
      PastReads(s, k);
    }
  }

  lemma ReadsPast(s: System, i: nat)
    requires Inv(s) && ReadsAt(s, i)
    ensures var h := s.conns[i].read.handle;
            && Past(s.loop.readFns, h) && s.loop.readFns[h].deadline == s.conns[i].deadline
            && 0 < s.conns[i].deadline && s.loop.readFns[h].callback == Bound(i, ReadAction(s.conns[i].state))
  {
    assert Agrees(s.loop, i, s.conns[i]);
    assert 0 < s.conns[i].deadline;
    forall z {
      EndlessServe(s, z);
    }
  }

  lemma PastReads(s: System, k: int)
    requires Inv(s) && Past(s.loop.readFns, k)
    ensures s.loop.readFns[k].callback.Bound?
    ensures var i := s.loop.readFns[k].callback.id;
            ReadsAt(s, i) && s.conns[i].deadline == s.loop.readFns[k].deadline > 0 && s.conns[i].read.handle == k
  {
    HandlersOwned(s, k);
    EndlessServe(s, k);
    assert s.loop.readFns[k].callback.Bound?;
    var i := s.loop.readFns[k].callback.id;
    assert Agrees(s.loop, i, s.conns[i]);
    assert 0 < s.conns[i].deadline;
    forall z {
      EndlessServe(s, z);
    }
  }

  lemma SoonestWrites(s: System)
    requires Inv(s)
    ensures 0 <= Soonest(s.loop.writeFns)
    ensures Soonest(s.loop.writeFns) == 0 <==> forall i: nat :: !WritesAt(s, i)
    ensures Soonest(s.loop.writeFns) != 0 ==>
              exists i: nat :: WritesAt(s, i) && s.conns[i].deadline == Soonest(s.loop.writeFns)
    ensures forall i: nat :: WritesAt(s, i) ==> Soonest(s.loop.writeFns) <= s.conns[i].deadline
  {
    SoonestIs(s.loop.writeFns);
    hide Soonest, Inv;
    forall i: nat | WritesAt(s, i)
      ensures Past(s.loop.writeFns, s.conns[i].write.handle) && 0 < s.conns[i].deadline
      ensures s.loop.writeFns[s.conns[i].write.handle].deadline == s.conns[i].deadline
    {
      WritesPast(s, i);
    }
    forall k | Past(s.loop.writeFns, k)
      ensures s.loop.writeFns[k].callback.Bound? && WritesAt(s, s.loop.writeFns[k].callback.id)
      ensures s.conns[s.loop.writeFns[k].callback.id].deadline == s.loop.writeFns[k].deadline
      ensures 0 < s.loop.writeFns[k].deadline
    {
      PastWrites(s, k);
    }
  }

  lemma WritesPast(s: System, i: nat)
    requires Inv(s) && WritesAt(s, i)
    ensures var h := s.conns[i].write.handle;
            && Past(s.loop.writeFns, h) && s.loop.writeFns[h].deadline == s.conns[i].deadline
            && 0 < s.conns[i].deadline && s.loop.writeFns[h].callback == Bound(i, WriteAction(s.conns[i].state))
  {
    assert Agrees(s.loop, i, s.conns[i]);
    assert 0 < s.conns[i].deadline;
    forall z {
      EndlessServe(s, z);
    }
  }

  lemma PastWrites(s: System, k: int)
    requires Inv(s) && Past(s.loop.writeFns, k)
    ensures s.loop.writeFns[k].callback.Bound?
    ensures var i := s.loop.writeFns[k].callback.id;
            WritesAt(s, i) && s.conns[i].deadline == s.loop.writeFns[k].deadline > 0 && s.conns[i].write.handle == k
  {
    HandlersOwned(s, k);
    assert s.loop.writeFns[k].callback.Bound?;
    var i := s.loop.writeFns[k].callback.id;
    assert Agrees(s.loop, i, s.conns[i]);
    assert 0 < s.conns[i].deadline;
  }

  // ------------------------------------------------ the same, before the timeout

  /** Connection `i` reads, beyond all listening sockets, when the sweep of the read handlers at `now` is over. */
  ghost predicate Reading(env: Environment, s: System, now: int, i: nat) {
    if i < |s.conns| then i !in Late(s, now) && ReadsAt(s, i)
    else
      && i in Openers(env, s.forwarders != [], Supplied(s), EarlyRaised(s, now))
      && Reads(env(i).connect) && Beyond(s, env(i).socket.value)
  }

  /** Connection `i` writes when both sweeps are over. */
  ghost predicate Writing(env: Environment, s: System, now: int, i: nat) {
    if i < |s.conns| then i !in Late(s, now) && WritesAt(s, i)
    else i in Openers(env, s.forwarders != [], Supplied(s), AllRaised(s, now)) && Writes(env(i).connect)
  }

  /** Connection `i` is in the pool when both sweeps are over. */
  ghost predicate Staying(env: Environment, s: System, now: int, i: nat) {
    if i < |s.conns| then i !in Late(s, now) && !s.conns[i].state.CLOSED?
    else i in Openers(env, s.forwarders != [], Supplied(s), AllRaised(s, now))
  }

  /** Its deadline. */
  function Due(env: Environment, s: System, now: int, i: nat): int {
    if i < |s.conns| then s.conns[i].deadline else ClockAt(env, now, |s.conns|, i + 1) + s.timeout
  }

  /** A connection made in between: what it is like, if it came up. */
  lemma NewWaits(env: Environment, s: System, now: int, handles: seq<int>, t: System, i: nat)
    requires Inv(t) && Reopened(env, s, now, handles, t) && s.clock == now && |s.conns| <= i
    ensures i in Openers(env, s.forwarders != [], Supplied(s), handles) ==> i < |t.conns|
    ensures i < |t.conns| ==> t.conns[i].deadline == Due(env, s, now, i)
    ensures i < |t.conns| ==>
              if i in Openers(env, s.forwarders != [], Supplied(s), handles) then
                && t.conns[i].socket.Some? && t.conns[i].socket == env(i).socket && !t.conns[i].state.CLOSED?
                && t.conns[i].write == (if Writes(env(i).connect) then Write(env(i).socket.value) else Moved)
                && t.conns[i].read == (if Reads(env(i).connect) then Read(env(i).socket.value) else Moved)
              else t.conns[i].state.CLOSED? && t.conns[i].write == Moved && t.conns[i].read == Moved
  {
    hide Inv, FreedAll, Openers, Late, ClockAt, Reads, Writes;
    assert Supplied(t).next == |t.conns|;
    if i < |t.conns| {
      SocketTells(t, i);
    }
  }

  lemma SocketTells(t: System, i: nat)
    requires Inv(t) && i < |t.conns|
    ensures t.conns[i].state.CLOSED? <==> t.conns[i].socket.None?
    ensures t.conns[i].state.CLOSED? ==> t.conns[i].write == Moved && t.conns[i].read == Moved
  {
    assert Agrees(t.loop, i, t.conns[i]);
  }

  lemma OldStays(env: Environment, s: System, now: int, handles: seq<int>, t: System, i: nat)
    requires Reopened(env, s, now, handles, t) && Evolves(s, t) && i < |s.conns|
    ensures i < |t.conns| && t.conns[i].deadline == s.conns[i].deadline
    ensures i !in Late(s, now) ==> t.conns[i] == s.conns[i]
    ensures i in Late(s, now) ==> s.conns[i].deadline <= now
  {
    hide FreedAll, Openers, Started;
  }

  lemma ReadsAfter(env: Environment, s: System, now: int, i: nat)
    requires Inv(s) && s.clock == now
    ensures ReadsAt(AfterReads(env, s, now), i) <==> Reading(env, s, now, i)
    ensures Reading(env, s, now, i) ==>
              && i < |AfterReads(env, s, now).conns|
              && now < AfterReads(env, s, now).conns[i].deadline == Due(env, s, now, i)
  {
    BothCleared(env, s, now);
    hide Inv, Evolves, Expiring, AfterReads, SweptBoth, Supplied, EarlyRaised, AllRaised, Reopened, ReadsAt, Openers,
         FreedAll, Late, Reads, Beyond, Due;
    if i < |s.conns| {
      OldReads(env, s, now, AfterReads(env, s, now), i);
    } else {
      NewReads(env, s, now, AfterReads(env, s, now), i);
    }
  }

  lemma OldReads(env: Environment, s: System, now: int, half: System, i: nat)
    requires Inv(half) && Evolves(s, half) && Reopened(env, s, now, EarlyRaised(s, now), half)
    requires half.servers == s.servers && Expiring(half.loop, now, false) == {} && i < |s.conns|
    ensures ReadsAt(half, i) <==> i !in Late(s, now) && ReadsAt(s, i)
    ensures ReadsAt(half, i) ==> i < |half.conns| && now < half.conns[i].deadline == Due(env, s, now, i)
  {
    hide Inv, Evolves, Expiring, EarlyRaised, Reopened, Late;
    OldStays(env, s, now, EarlyRaised(s, now), half, i);
    ReadsInTime(half, now, i);
  }

  lemma NewReads(env: Environment, s: System, now: int, half: System, i: nat)
    requires Inv(half) && Reopened(env, s, now, EarlyRaised(s, now), half) && s.clock == now
    requires half.servers == s.servers && Expiring(half.loop, now, false) == {} && |s.conns| <= i
    ensures ReadsAt(half, i) <==> Reading(env, s, now, i)
    ensures ReadsAt(half, i) ==> i < |half.conns| && now < half.conns[i].deadline == Due(env, s, now, i)
  {
    hide Inv, Expiring, EarlyRaised, Reopened, Supplied, FreedAll, Openers, Due, Reads, Writes;
    NewWaits(env, s, now, EarlyRaised(s, now), half, i);
    if i < |half.conns| {
      ReadsInTime(half, now, i);
    }
  }

  lemma ReadsInTime(s: System, now: int, i: nat)
    requires Inv(s) && Expiring(s.loop, now, false) == {} && i < |s.conns|
    ensures s.conns[i].read.Read? ==> now < s.conns[i].deadline
  {
    assert Agrees(s.loop, i, s.conns[i]);
    assert 0 < s.conns[i].deadline;
    if s.conns[i].read.Read? {
      assert s.conns[i].read.handle !in Expiring(s.loop, now, false);
    }
  }

  lemma WritesAfterBoth(env: Environment, s: System, now: int, i: nat)
    requires Inv(s) && s.clock == now
    ensures WritesAt(SweptBoth(env, s, now), i) <==> Writing(env, s, now, i)
    ensures Writing(env, s, now, i) ==>
              && i < |SweptBoth(env, s, now).conns|
              && now < SweptBoth(env, s, now).conns[i].deadline == Due(env, s, now, i)
  {
    BothCleared(env, s, now);
    hide Inv, Evolves, Expiring, AfterReads, SweptBoth, Openers, Supplied, EarlyRaised, AllRaised, Reopened, Late;
    var t := SweptBoth(env, s, now);
    if i < |t.conns| {
      WritesInTime(t, now, i);
    }
    if i < |s.conns| {
      OldStays(env, s, now, AllRaised(s, now), t, i);
    } else {
      NewWaits(env, s, now, AllRaised(s, now), t, i);
    }
  }

  lemma WritesInTime(s: System, now: int, i: nat)
    requires Inv(s) && Expiring(s.loop, now, true) == {} && i < |s.conns|
    ensures s.conns[i].write.Write? ==> now < s.conns[i].deadline
  {
    assert Agrees(s.loop, i, s.conns[i]);
    assert 0 < s.conns[i].deadline;
    if s.conns[i].write.Write? {
      assert s.conns[i].write.handle !in Expiring(s.loop, now, true);
    }
  }

  lemma StaysAfterBoth(env: Environment, s: System, now: int, i: nat)
    requires Inv(s) && s.clock == now
    ensures i in SweptBoth(env, s, now).pool <==> Staying(env, s, now, i)
    ensures Staying(env, s, now, i) ==>
              && i < |SweptBoth(env, s, now).conns|
              && now < SweptBoth(env, s, now).conns[i].deadline == Due(env, s, now, i)
  {
    BothCleared(env, s, now);
    hide Inv, Evolves, Expiring, AfterReads, SweptBoth, Openers, Supplied, EarlyRaised, AllRaised, Reopened, Late;
    var t := SweptBoth(env, s, now);
    StaysInTime(t, now, i);
    if i < |s.conns| {
      OldStays(env, s, now, AllRaised(s, now), t, i);
    } else {
      NewWaits(env, s, now, AllRaised(s, now), t, i);
    }
  }

  lemma StaysInTime(t: System, now: int, i: nat)
    requires Inv(t) && Expiring(t.loop, now, false) == {} && Expiring(t.loop, now, true) == {}
    ensures i in t.pool <==> i < |t.conns| && !t.conns[i].state.CLOSED?
    ensures i in t.pool ==> now < t.conns[i].deadline
  {
    NoneLate(t, now);
    hide Expiring, Late;
  }

  // ------------------------------------------------ how long the poll waits

  /** The wait is computed from this connection's deadline. */
  ghost predicate Counted(env: Environment, s: System, now: int, i: nat) {
    Reading(env, s, now, i) || Writing(env, s, now, i)
  }

  /** No connection will be writing, or none reading beyond all listening sockets. */
  ghost predicate Unlimited(env: Environment, s: System, now: int) {
    (forall i: nat :: !Writing(env, s, now, i)) || (forall i: nat :: !Reading(env, s, now, i))
  }

  /** The wait ends with the earliest deadline of those that are counted. */
  ghost predicate EndsWithFirst(env: Environment, s: System, now: int, wait: int) {
    && (exists i: nat :: Counted(env, s, now, i) && wait == (Due(env, s, now, i) - now) * 1000)
    && forall i: nat :: Counted(env, s, now, i) ==> wait <= (Due(env, s, now, i) - now) * 1000
  }

  /**
   * The poll waits without limit exactly when no connection will be writing, or
   * none reading beyond all listening sockets; and otherwise for the earliest
   * deadline of all these, which is still to come.
   */
  lemma WaitsForever(env: Environment, s: System, time: int)
    requires Inv(s)
    ensures var now, wait := Max(s.clock, time), PollWait(env, s, time);
            && (wait == -1 <==> Unlimited(env, s, now))
            && (wait != -1 ==> 0 < wait && EndsWithFirst(env, s, now, wait))
  {
    var now := Max(s.clock, time);
    var ticked := Step(env, s, Tick(time));
    assert ticked == s.(clock := now);
    hide Inv, Step, SweptWait, Unlimited, EndsWithFirst;
    WaitsFrom(env, ticked, now);
    TickedWaits(env, s, ticked, now);
  }

  lemma TickedWaits(env: Environment, s: System, ticked: System, now: int)
    requires ticked == s.(clock := now)
    ensures Unlimited(env, ticked, now) == Unlimited(env, s, now)
    ensures forall wait :: EndsWithFirst(env, ticked, now, wait) == EndsWithFirst(env, s, now, wait)
  {
    hide Reading, Writing, Due;
    forall i: nat
      ensures Reading(env, ticked, now, i) == Reading(env, s, now, i)
      ensures Writing(env, ticked, now, i) == Writing(env, s, now, i)
      ensures Counted(env, ticked, now, i) == Counted(env, s, now, i)
      ensures Due(env, ticked, now, i) == Due(env, s, now, i)
    {
      TickedAlike(env, s, ticked, now, i);
    }
  }

  lemma TickedAlike(env: Environment, s: System, ticked: System, now: int, i: nat)
    requires ticked == s.(clock := now)
    ensures Reading(env, ticked, now, i) == Reading(env, s, now, i)
    ensures Writing(env, ticked, now, i) == Writing(env, s, now, i)
    ensures Staying(env, ticked, now, i) == Staying(env, s, now, i)
    ensures Due(env, ticked, now, i) == Due(env, s, now, i)
  {
    assert Supplied(ticked) == Supplied(s);
    assert EarlyRaised(ticked, now) == EarlyRaised(s, now) && AllRaised(ticked, now) == AllRaised(s, now);
    assert Late(ticked, now) == Late(s, now);
  }

  lemma WaitsFrom(env: Environment, s: System, now: int)
    requires Inv(s) && s.clock == now
    ensures var wait := SweptWait(env, s, now);
            && (wait == -1 <==> Unlimited(env, s, now))
            && (wait != -1 ==> 0 < wait && EndsWithFirst(env, s, now, wait))
  {
    assert 0 <= s.clock;
    hide Inv, AfterReads, SweptBoth, Soonest, Milliseconds, EndsWithFirst, Unlimited, FirstReading, FirstWriting;
    EarliestReading(env, s, now);
    EarliestWriting(env, s, now);
    var half, t := AfterReads(env, s, now), SweptBoth(env, s, now);
    FirstOfBoth(env, s, now, Soonest(half.loop.readFns), Soonest(t.loop.writeFns));
  }

  /** The earliest deadline of those that will be reading, or zero. */
  ghost predicate FirstReading(env: Environment, s: System, now: int, e: int) {
    && (e == 0 <==> forall i: nat :: !Reading(env, s, now, i))
    && (e != 0 ==> now < e && exists i: nat :: Reading(env, s, now, i) && Due(env, s, now, i) == e)
    && forall i: nat :: Reading(env, s, now, i) ==> e <= Due(env, s, now, i)
  }

  /** And of those that will be writing. */
  ghost predicate FirstWriting(env: Environment, s: System, now: int, e: int) {
    && (e == 0 <==> forall i: nat :: !Writing(env, s, now, i))
    && (e != 0 ==> now < e && exists i: nat :: Writing(env, s, now, i) && Due(env, s, now, i) == e)
    && forall i: nat :: Writing(env, s, now, i) ==> e <= Due(env, s, now, i)
  }

  lemma MillisecondsIs(now: int, r: int, w: int)
    requires 0 <= now && (r == 0 || now < r) && (w == 0 || now < w)
    ensures Milliseconds(now, r, w) == if r == 0 || w == 0 then -1 else ((if r < w then r else w) - now) * 1000
  {
  }

  lemma FirstOfBoth(env: Environment, s: System, now: int, r: int, w: int)
    requires 0 <= now && FirstReading(env, s, now, r) && FirstWriting(env, s, now, w)
    ensures var wait := Milliseconds(now, r, w);
            && (wait == -1 <==> Unlimited(env, s, now))
            && (wait != -1 ==> 0 < wait && EndsWithFirst(env, s, now, wait))
  {
    hide Reading, Writing, Due, Milliseconds;
    MillisecondsIs(now, r, w);
    if r != 0 && w != 0 {
      if r < w {
        var i: nat :| Reading(env, s, now, i) && Due(env, s, now, i) == r;
        assert Counted(env, s, now, i);
      } else {
        var i: nat :| Writing(env, s, now, i) && Due(env, s, now, i) == w;
        assert Counted(env, s, now, i);
      }
    }
  }

  lemma EarliestReading(env: Environment, s: System, now: int)
    requires Inv(s) && s.clock == now && 0 <= now
    ensures FirstReading(env, s, now, Soonest(AfterReads(env, s, now).loop.readFns))
  {
    hide Inv, Reading, Due, AfterReads, Soonest, ReadsAt;
    SoonestReads(AfterReads(env, s, now));
    forall i: nat
      ensures ReadsAt(AfterReads(env, s, now), i) <==> Reading(env, s, now, i)
      ensures Reading(env, s, now, i) ==>
                && i < |AfterReads(env, s, now).conns|
                && now < AfterReads(env, s, now).conns[i].deadline == Due(env, s, now, i)
    {
      ReadsAfter(env, s, now, i);
    }
  }

  lemma EarliestWriting(env: Environment, s: System, now: int)
    requires Inv(s) && s.clock == now && 0 <= now
    ensures FirstWriting(env, s, now, Soonest(SweptBoth(env, s, now).loop.writeFns))
  {
    hide Inv, Writing, Due, SweptBoth, Soonest, WritesAt;
    SoonestWrites(SweptBoth(env, s, now));
    forall i: nat
      ensures WritesAt(SweptBoth(env, s, now), i) <==> Writing(env, s, now, i)
      ensures Writing(env, s, now, i) ==>
                && i < |SweptBoth(env, s, now).conns|
                && now < SweptBoth(env, s, now).conns[i].deadline == Due(env, s, now, i)
    {
      WritesAfterBoth(env, s, now, i);
    }
  }

  // ------------------------------------------------ when the wait is right

  /** The poll wakes by the deadline of everything in the pool. */
  ghost predicate Wakes(wait: int, now: int, s: System) {
    forall i :: i in s.pool ==> i < |s.conns| && wait != -1 && now * 1000 + wait <= s.conns[i].deadline * 1000
  }

  /** A deadline that is counted comes no later than that of connection `i`. */
  ghost predicate CountedBy(env: Environment, s: System, now: int, i: nat) {
    exists j: nat :: Counted(env, s, now, j) && Due(env, s, now, j) <= Due(env, s, now, i)
  }

  /** The wait is right exactly when it is limited, and counts a deadline in time for everything in the pool. */
  lemma WakesInTime(env: Environment, s: System, time: int)
    requires Inv(s)
    ensures var now := Max(s.clock, time);
            Wakes(PollWait(env, s, time), now, Run(env, s, Timeouts(s, time)))
            <==> forall i: nat :: Staying(env, s, now, i) ==> !Unlimited(env, s, now) && CountedBy(env, s, now, i)
  {
    hide Inv, PollWait, Unlimited, EndsWithFirst, CountedBy, Staying, Timeouts, Run, Wakes, Remains, Evolves;
    WaitsForever(env, s, time);
    PoolRemains(env, s, time);
    WakesExactly(env, s, Max(s.clock, time), PollWait(env, s, time), Run(env, s, Timeouts(s, time)));
  }

  /** What is in the pool after the timeout, and until when. */
  ghost predicate Remains(env: Environment, s: System, now: int, t: System) {
    forall i: nat ::
      && (i in t.pool <==> Staying(env, s, now, i))
      && (i in t.pool ==> i < |t.conns| && t.conns[i].deadline == Due(env, s, now, i))
  }

  lemma PoolRemains(env: Environment, s: System, time: int)
    requires Inv(s)
    ensures Remains(env, s, Max(s.clock, time), Run(env, s, Timeouts(s, time)))
  {
    var now := Max(s.clock, time);
    var ticked := Step(env, s, Tick(time));
    assert ticked == s.(clock := now);
    hide Inv, Step, SweptBoth, Timeouts, Run, Evolves, Remains;
    TimeoutRun(env, s, time);
    SweptRemains(env, ticked, now);
    TickedRemains(env, s, ticked, now, SweptBoth(env, ticked, now));
  }

  lemma SweptRemains(env: Environment, s: System, now: int)
    requires Inv(s) && s.clock == now
    ensures Remains(env, s, now, SweptBoth(env, s, now))
  {
    hide Inv, SweptBoth, Staying, Due;
    forall i: nat
      ensures i in SweptBoth(env, s, now).pool <==> Staying(env, s, now, i)
      ensures i in SweptBoth(env, s, now).pool ==>
                i < |SweptBoth(env, s, now).conns|
                && SweptBoth(env, s, now).conns[i].deadline == Due(env, s, now, i)
    {
      StaysAfterBoth(env, s, now, i);
    }
  }

  lemma TickedRemains(env: Environment, s: System, ticked: System, now: int, t: System)
    requires ticked == s.(clock := now) && Remains(env, ticked, now, t)
    ensures Remains(env, s, now, t)
  {
    hide Staying, Due;
    forall i: nat
      ensures Staying(env, ticked, now, i) == Staying(env, s, now, i)
      ensures Due(env, ticked, now, i) == Due(env, s, now, i)
    {
      TickedAlike(env, s, ticked, now, i);
    }
  }

  lemma WakesExactly(env: Environment, s: System, now: int, wait: int, t: System)
    requires Remains(env, s, now, t)
    requires wait == -1 <==> Unlimited(env, s, now)
    requires wait != -1 ==> EndsWithFirst(env, s, now, wait)
    ensures Wakes(wait, now, t)
            <==> forall i: nat :: Staying(env, s, now, i) ==> !Unlimited(env, s, now) && CountedBy(env, s, now, i)
  {
    hide Staying, Due, Unlimited, EndsWithFirst, CountedBy;
    if wait != -1 {
      forall i: nat
        ensures now * 1000 + wait <= Due(env, s, now, i) * 1000 <==> CountedBy(env, s, now, i)
      {
        EndsInTime(env, s, now, wait, i);
      }
    }
  }

  lemma EndsInTime(env: Environment, s: System, now: int, wait: int, i: nat)
    requires EndsWithFirst(env, s, now, wait)
    ensures now * 1000 + wait <= Due(env, s, now, i) * 1000 <==> CountedBy(env, s, now, i)
  {
    hide Counted, Due;
    var k: nat :| Counted(env, s, now, k) && wait == (Due(env, s, now, k) - now) * 1000;
    if CountedBy(env, s, now, i) {
      var j: nat :| Counted(env, s, now, j) && Due(env, s, now, j) <= Due(env, s, now, i);
      assert wait <= (Due(env, s, now, j) - now) * 1000;
    }
  }

  /** All connections, also those that come up, have handles beyond all listening sockets. */
  ghost predicate AllBeyond(env: Environment, s: System, now: int) {
    && (forall i :: 0 <= i < |s.conns| && s.conns[i].socket.Some? ==> Beyond(s, s.conns[i].socket.value))
    && forall f :: f in Openers(env, s.forwarders != [], Supplied(s), AllRaised(s, now)) ==>
         Beyond(s, env(f).socket.value)
  }

  /** Then, as when the listening sockets were opened first, the wait is right exactly when it is limited. */
  lemma WakesBeyond(env: Environment, s: System, time: int)
    requires Inv(s) && AllBeyond(env, s, Max(s.clock, time))
    ensures var now := Max(s.clock, time);
            Wakes(PollWait(env, s, time), now, Run(env, s, Timeouts(s, time)))
            <==> (forall i: nat :: !Staying(env, s, now, i)) || !Unlimited(env, s, now)
  {
    var now := Max(s.clock, time);
    hide Inv, PollWait, Timeouts, Run, Wakes, Staying, CountedBy, Unlimited, AllBeyond;
    WakesInTime(env, s, time);
    forall i: nat | Staying(env, s, now, i) && !Unlimited(env, s, now) ensures CountedBy(env, s, now, i) {
      BeyondCounted(env, s, now, i);
    }
  }

  lemma BeyondCounted(env: Environment, s: System, now: int, i: nat)
    requires Inv(s) && s.clock <= now && AllBeyond(env, s, now) && Staying(env, s, now, i) && !Unlimited(env, s, now)
    ensures CountedBy(env, s, now, i)
  {
    var r: nat :| Reading(env, s, now, r);
    if i < |s.conns| {
      assert Agrees(s.loop, i, s.conns[i]);
      hide Supplied, AllRaised, EarlyRaised, Openers, Late, Due;
      assert Counted(env, s, now, i);
    } else if Counted(env, s, now, i) {
      hide Counted, Due;
    } else {
      LateOpenerCounted(env, s, now, i, r);
      assert Counted(env, s, now, r);
    }
  }

  /** A connection that comes up in the second sweep has a deadline no earlier than any counted in the first. */
  lemma LateOpenerCounted(env: Environment, s: System, now: int, i: nat, r: nat)
    requires Inv(s) && s.clock <= now && AllBeyond(env, s, now) && Staying(env, s, now, i) && |s.conns| <= i
    requires !Counted(env, s, now, i) && Reading(env, s, now, r)
    ensures Due(env, s, now, r) <= Due(env, s, now, i)
  {
    if r < |s.conns| {
      hide AllBeyond, Counted, Reading, Staying;
      OldDueFirst(env, s, now, i, r);
    } else {
      hide Inv, AllBeyond, Counted, Reading, Staying;
      OpenersInOrder(env, s, now, i, r);
      ClockGrows(env, now, |s.conns|, r + 1, i + 1);
    }
  }

  lemma OldDueFirst(env: Environment, s: System, now: int, i: nat, r: nat)
    requires Inv(s) && s.clock <= now && r < |s.conns| <= i
    ensures Due(env, s, now, r) <= Due(env, s, now, i)
  {
    assert s.conns[r].deadline <= s.clock + s.timeout;
    hide Inv;
    ClockGrows(env, now, |s.conns|, |s.conns|, i + 1);
  }

  lemma OpenersInOrder(env: Environment, s: System, now: int, i: nat, r: nat)
    requires AllBeyond(env, s, now) && Staying(env, s, now, i) && |s.conns| <= i && |s.conns| <= r
    requires !Counted(env, s, now, i) && Reading(env, s, now, r)
    ensures r <= i
  {
    var able, p := s.forwarders != [], Supplied(s);
    var first := EarlyRaised(s, now);
    var second := AllRaised(s, now)[|first|..];
    assert AllRaised(s, now) == first + second;
    hide Supplied, EarlyRaised, AllRaised, FreedAll, Openers, Beyond, Reads, Writes, Late, WritesAt, ReadsAt;
    OpenersSplit(env, able, p, first, second);
    assert i !in Openers(env, able, p, first);
  }

  lemma {:induction false} ClockGrows(env: Environment, clock: int, n: nat, m: nat, k: nat)
    requires n <= m <= k
    ensures clock <= ClockAt(env, clock, n, m) <= ClockAt(env, clock, n, k)
    decreases k
  {
    if m < k {
      ClockGrows(env, clock, n, m, k - 1);
    } else if n < m {
      ClockGrows(env, clock, n, n, m - 1);
    }
  }

  // ------------------------------------------------ waiting behind a poll without limit

  /**
   * After a timeout a request waits for its turn behind a poll without limit
   * exactly when the connections that come up leave one over, and nothing will
   * be writing, or nothing reading beyond all listening sockets.
   */
  lemma QueuedBehind(env: Environment, s: System, time: int)
    requires Inv(s)
    ensures var now := Max(s.clock, time);
            Run(env, s, Timeouts(s, time)).queue != [] && PollWait(env, s, time) == -1
            <==> FreedAll(env, s.forwarders != [], Supplied(s), AllRaised(s, now)).count > 0 && Unlimited(env, s, now)
  {
    hide Inv, PollWait, Unlimited, EndsWithFirst, Timeouts, Run, AllRaised, FreedAll, Supplied;
    QueueLeft(env, s, time);
    WaitsForever(env, s, time);
  }

  lemma QueueLeft(env: Environment, s: System, time: int)
    requires Inv(s)
    ensures |Run(env, s, Timeouts(s, time)).queue|
            == FreedAll(env, s.forwarders != [], Supplied(s), AllRaised(s, Max(s.clock, time))).count
  {
    var now := Max(s.clock, time);
    var ticked := Step(env, s, Tick(time));
    assert ticked == s.(clock := now);
    assert Supplied(ticked) == Supplied(s) && AllRaised(ticked, now) == AllRaised(s, now);
    hide Inv, Step, SweptBoth, Timeouts, Run, AllRaised, EarlyRaised, Openers, FreedAll, Evolves, Spent, Reopened;
    TimeoutRun(env, s, time);
    BothCleared(env, ticked, now);
    ReopenedCount(env, ticked, now, AllRaised(s, now), SweptBoth(env, ticked, now));
  }

  lemma ReopenedCount(env: Environment, s: System, now: int, handles: seq<int>, t: System)
    requires Reopened(env, s, now, handles, t)
    ensures |t.queue| == FreedAll(env, s.forwarders != [], Supplied(s), handles).count
  {
    hide FreedAll, Openers, Started, Late;
  }

  /** While nothing is late, a timeout only reads the clock. */
  lemma NothingLate(env: Environment, s: System, time: int)
    requires Inv(s) && Late(s, Max(s.clock, time)) == {}
    ensures Run(env, s, Timeouts(s, time)) == s.(clock := Max(s.clock, time))
  {
    var now := Max(s.clock, time);
    var ticked := Step(env, s, Tick(time));
    assert ticked == s.(clock := now);
    NothingRaised(ticked, now);
    hide Inv, Step, Run, Timeouts, Late, Expiring, Sorted, Evolves;
    TimeoutRun(env, s, time);
    RaisedNone(env, ticked);
  }

  /** When none waits or none is late, no connection comes up, and the condition is on those there are. */
  lemma QuietWait(env: Environment, s: System, time: int)
    requires Inv(s) && (s.queue == [] || Late(s, Max(s.clock, time)) == {})
    ensures var late := Late(s, Max(s.clock, time));
            PollWait(env, s, time) == -1
            <==> (forall i: nat :: i !in late ==> !WritesAt(s, i)) || (forall i: nat :: i !in late ==> !ReadsAt(s, i))
  {
    var now := Max(s.clock, time);
    hide Inv, PollWait, Late, EndsWithFirst, Reading, Writing, ReadsAt, WritesAt;
    WaitsForever(env, s, time);
    forall i: nat
      ensures Writing(env, s, now, i) == (i !in Late(s, now) && WritesAt(s, i))
      ensures Reading(env, s, now, i) == (i !in Late(s, now) && ReadsAt(s, i))
    {
      QuietAlike(env, s, now, i);
    }
  }

  lemma QuietAlike(env: Environment, s: System, now: int, i: nat)
    requires Inv(s) && (s.queue == [] || Late(s, now) == {})
    ensures Writing(env, s, now, i) == (i !in Late(s, now) && WritesAt(s, i))
    ensures Reading(env, s, now, i) == (i !in Late(s, now) && ReadsAt(s, i))
  {
    hide Inv, Late, EarlyRaised, AllRaised, FreedAll, Beyond, Openers;
    if s.queue == [] {
      NoneOpens(env, s.forwarders != [], Supplied(s), EarlyRaised(s, now));
      NoneOpens(env, s.forwarders != [], Supplied(s), AllRaised(s, now));
    } else {
      NothingRaised(s, now);
      NoneOpen(env, s.forwarders != [], Supplied(s));
    }
  }

  lemma NoneOpen(env: Environment, able: bool, p: Supply)
    ensures Openers(env, able, p, []) == {}
  {
  }

  lemma NothingRaised(s: System, now: int)
    requires Inv(s) && Late(s, now) == {}
    ensures Expiring(s.loop, now, false) == {} && Expiring(s.loop, now, true) == {}
    ensures EarlyRaised(s, now) == [] && AllRaised(s, now) == []
    ensures Sorted(Expiring(s.loop, now, false)) == [] && Sorted(Expiring(s.loop, now, true)) == []
    ensures Sorted(Expiring(s.loop, now, true) - Expiring(s.loop, now, false)) == []
  {
    forall h ensures h !in Expiring(s.loop, now, false) && h !in Expiring(s.loop, now, true) {
      if h in Expiring(s.loop, now, false) || h in Expiring(s.loop, now, true) {
        ExpiredIsLate(s, now, h);
      }
    }
    assert Expiring(s.loop, now, false) == {} && Expiring(s.loop, now, true) == {};
    assert Sorted({}) == [];
  }

  /**
   * In particular when every connection has sent its request: then all wait for
   * replies, for which no timeout fires by itself.
   */
  lemma RepliesAwaited(env: Environment, s: System, time: int)
    requires Inv(s) && (s.queue == [] || Late(s, Max(s.clock, time)) == {})
    requires forall i :: 0 <= i < |s.conns| ==> s.conns[i].write == Moved
    ensures PollWait(env, s, time) == -1
  {
    hide Inv, PollWait, Late;
    QuietWait(env, s, time);
  }

  lemma NoneOpens(env: Environment, able: bool, p: Supply, handles: seq<int>)
    requires p.count == 0
    ensures Openers(env, able, p, handles) == {}
  {
  }
}
