// What a timeout leaves, from what the state before it and the environment say:
// which connections it closes, which it opens for the requests that wait, and
// how many requests go on waiting.

module Openings {
  import opened Connections
  import opened Systems
  import opened Invariants
  import opened Runs
  import opened Executions
  import opened Reports
  import opened Sweeps

  // ------------------------------------------------ handles freed one after the other

  /** The handles out, the number of the next connection, and of the requests that wait. */
  datatype Supply = Supply(used: set<int>, next: nat, count: nat)

  function Supplied(s: System): Supply {
    Supply(OpenHandles(s), |s.conns|, |s.queue|)
  }

  /** The connection that opens once `h` is free, or the number after all that are tried. */
  function Opener(env: Environment, able: bool, p: Supply, h: int): (f: nat)
    ensures p.next <= f <= p.next + p.count
    ensures f < p.next + p.count ==>
              env(f).socket.Some? && (Reads(env(f).connect) || Writes(env(f).connect))
  {
    if able then FirstOpening(env, p.used - {h}, p.next, p.count) else p.next + p.count
  }

  /** What is left once `h` is free and the requests were tried up to one that opened. */
  function Freed(env: Environment, able: bool, p: Supply, h: int): (q: Supply)
    ensures p.next <= q.next && q.next + q.count == p.next + p.count
  {
    var f := Opener(env, able, p, h);
    if f < p.next + p.count then
      Supply(p.used - {h} + {env(f).socket.value}, f + 1, p.next + p.count - (f + 1))
    else Supply(p.used - {h}, f, 0)
  }

  function FreedAll(env: Environment, able: bool, p: Supply, handles: seq<int>): (q: Supply)
    ensures p.next <= q.next && q.next + q.count == p.next + p.count
  {
    if handles == [] then p
    else Freed(env, able, FreedAll(env, able, p, handles[..|handles| - 1]), handles[|handles| - 1])
  }

  /** The connections that open on the way. */
  function Openers(env: Environment, able: bool, p: Supply, handles: seq<int>): (fs: set<nat>)
    ensures forall f :: f in fs ==>
              && p.next <= f < FreedAll(env, able, p, handles).next
              && env(f).socket.Some? && (Reads(env(f).connect) || Writes(env(f).connect))
  {
    if handles == [] then {}
    else
      var front, last := handles[..|handles| - 1], handles[|handles| - 1];
      var q := FreedAll(env, able, p, front);
      var f := Opener(env, able, q, last);
      Openers(env, able, p, front) + if f < q.next + q.count then {f} else {}
  }

  lemma OpenersNext(env: Environment, able: bool, p: Supply, front: seq<int>, last: int)
    ensures var q := FreedAll(env, able, p, front);
            && FreedAll(env, able, p, front + [last]) == Freed(env, able, q, last)
            && var f := Opener(env, able, q, last);
               Openers(env, able, p, front + [last])
               == Openers(env, able, p, front) + if f < q.next + q.count then {f} else {}
  {
    assert (front + [last])[..|front|] == front;
  }

  lemma {:induction false} OpenersSplit(env: Environment, able: bool, p: Supply, first: seq<int>, second: seq<int>)
    ensures FreedAll(env, able, p, first).next <= FreedAll(env, able, p, first + second).next
    ensures forall f: nat :: f in Openers(env, able, p, first + second) ==>
              f in Openers(env, able, p, first) || FreedAll(env, able, p, first).next <= f
    decreases second
  {
    hide Opener, Freed, FreedAll, Openers;
    if second == [] {
      assert first + second == first;
    } else {
      var front, last := second[..|second| - 1], second[|second| - 1];
      assert first + second == (first + front) + [last];
      OpenersSplit(env, able, p, first, front);
      OpenersNext(env, able, p, first + front, last);
    }
  }

  // ------------------------------------------------ one exception

  /** From `s` to `t`, connection `id` gave up its handle `h`, and another may have come up. */
  ghost predicate Swaps(env: Environment, s: System, id: nat, h: int, t: System) {
    var f := Opener(env, s.forwarders != [], Supplied(s), h);
    && Started(env, s, t)
    && (forall i :: 0 <= i < |s.conns| && i != id ==> t.conns[i] == s.conns[i])
    && Supplied(t) == Freed(env, s.forwarders != [], Supplied(s), h)
    && forall i: nat :: |s.conns| <= i < |t.conns| ==>
         if i == f && f < |s.conns| + |s.queue| then t.conns[i].socket == env(i).socket else t.conns[i].socket.None?
  }

  /** Raising one exception on an expired handle. */
  lemma StepFrees(env: Environment, s: System, now: int, h: int)
    requires Inv(s) && now <= s.clock && (h in Expiring(s.loop, now, false) || h in Expiring(s.loop, now, true))
    ensures h in s.loop.exceptFns && s.loop.exceptFns[h].Bound?
    ensures var t, id := Step(env, s, Failed(h)), s.loop.exceptFns[h].id;
            && id in Late(s, now) && Late(t, now) == Late(s, now) - {id} && now <= t.clock
            && t.servers == s.servers && (t.forwarders == [] <==> s.forwarders == [])
            && Swaps(env, s, id, h, t)
  {
    ExpiredIsLate(s, now, h);
    hide Inv, Late, Expiring, Step, Evolves, Swaps;
    RaiseSheds(env, s, now, h);
    FailedKeeps(env, s, h);
    FailedSwaps(env, s, h);
  }

  lemma FailedSwaps(env: Environment, s: System, h: int)
    requires Inv(s) && h in s.loop.exceptFns && s.loop.exceptFns[h].Bound?
    ensures Swaps(env, s, s.loop.exceptFns[h].id, h, Step(env, s, Failed(h)))
  {
    var id, t := s.loop.exceptFns[h].id, Step(env, s, Failed(h));
    FailedMakes(env, s, h);
    FailedKeeps(env, s, h);
    hide Inv, Started, Step, Evolves, OpenHandles, Made, Swaps;
    MadeSwaps(env, s, t, id, h);
  }

  lemma FailedMakes(env: Environment, s: System, h: int)
    requires Inv(s) && h in s.loop.exceptFns && s.loop.exceptFns[h].Bound?
    ensures var t, id := Step(env, s, Failed(h)), s.loop.exceptFns[h].id;
            && id < |s.conns| <= |t.conns| && s.conns[id].socket == Some(h) && t.conns[id].socket.None?
            && Made(env, s, OpenHandles(s) - {h}, |s.queue|, t) && Started(env, s, t)
            && forall i :: 0 <= i < |s.conns| && i != id ==> t.conns[i] == s.conns[i]
  {
    var id, t := s.loop.exceptFns[h].id, Step(env, s, Failed(h));
    HandlersOwned(s, h);
    AbortEnds(s, h);
    assert Ends(s, Failed(h), h);
    hide Inv, Started, Step, Evolves, OpenHandles, Made, Ends, Ending, WritesAfter;
    StepMakes(env, s, Failed(h), id, h);
    ClosedHasNone(t, id);
    forall i | 0 <= i < |s.conns| && i != id ensures t.conns[i] == s.conns[i] {
      RaiseOthers(env, s, h, i);
    }
  }

  /** The handles of listening sockets, the number of forwarders and the arrivals stay. */
  lemma FailedKeeps(env: Environment, s: System, h: int)
    requires Inv(s) && h in s.loop.exceptFns
    ensures var t := Step(env, s, Failed(h));
            && t.servers == s.servers && (t.forwarders == [] <==> s.forwarders == []) && t.arrivals == s.arrivals
            && |t.conns| + |t.queue| == |s.conns| + |s.queue|
            && s.clock <= t.clock && s.conns[..] == s.conns
  {
    RaiseFinishes(env, s, h);
    var id := s.loop.exceptFns[h].id;
    FinishOthers(env, s, id, Except(s.loop, s.conns[id]));
    var t := Step(env, s, Failed(h));
    ServedInOrder(s);
    ServedInOrder(t);
    assert Evolves(s, t);
  }

  lemma MadeSwaps(env: Environment, s: System, t: System, id: nat, h: int)
    requires Inv(s) && id < |s.conns| && s.conns[id].socket == Some(h) && Started(env, s, t)
    requires t.servers == s.servers && |s.conns| <= |t.conns| && |t.conns| + |t.queue| == |s.conns| + |s.queue|
    requires t.conns[id].socket.None? && forall i :: 0 <= i < |s.conns| && i != id ==> t.conns[i] == s.conns[i]
    requires Made(env, s, OpenHandles(s) - {h}, |s.queue|, t)
    ensures Swaps(env, s, id, h, t)
  {
    hide Inv, Started, OpenHandles, Opening, Freed, Made, Opener, Supplied;
    MadeSupply(env, s, t, id, h);
  }

  /** The handles out after one is freed and given away again, or another. */
  lemma MadeSupply(env: Environment, s: System, t: System, id: nat, h: int)
    requires Inv(s) && id < |s.conns| && s.conns[id].socket == Some(h)
    requires t.servers == s.servers && |s.conns| <= |t.conns| && |t.conns| + |t.queue| == |s.conns| + |s.queue|
    requires t.conns[id].socket.None? && forall i :: 0 <= i < |s.conns| && i != id ==> t.conns[i] == s.conns[i]
    requires Made(env, s, OpenHandles(s) - {h}, |s.queue|, t)
    ensures Supplied(t) == Freed(env, s.forwarders != [], Supplied(s), h)
    ensures var f := Opener(env, s.forwarders != [], Supplied(s), h);
            forall i: nat :: |s.conns| <= i < |t.conns| ==>
              if i == f && f < |s.conns| + |s.queue| then t.conns[i].socket == env(i).socket
              else t.conns[i].socket.None?
  {
    var f := Opener(env, s.forwarders != [], Supplied(s), h);
    assert Apart(s);
    hide Inv, Apart, OpenHandles;
    HandlesMoved(s, t, id, h, f, if f < |s.conns| + |s.queue| then env(f).socket else None);
  }

  /** One handle is given up, and connection `f` may have got one. */
  lemma HandlesMoved(s: System, t: System, id: nat, h: int, f: nat, got: Option<int>)
    requires Apart(s) && id < |s.conns| <= |t.conns| && s.conns[id].socket == Some(h) && t.servers == s.servers
    requires t.conns[id].socket.None? && forall i :: 0 <= i < |s.conns| && i != id ==> t.conns[i] == s.conns[i]
    requires forall i :: |s.conns| <= i < |t.conns| && i != f ==> t.conns[i].socket.None?
    requires |s.conns| <= f && (f < |t.conns| ==> t.conns[f].socket == got) && (got.Some? ==> f < |t.conns|)
    ensures OpenHandles(t) == OpenHandles(s) - {h} + if got.Some? then {got.value} else {}
  {
    forall k ensures InUse(t, k) <==> (InUse(s, k) && k != h) || got == Some(k) {
      if i :| 0 <= i < |s.conns| && s.conns[i].socket == Some(k) && k != h {
        assert t.conns[i].socket == Some(k);
      }
      if got == Some(k) {
        assert t.conns[f].socket == Some(k);
      }
    }
    forall k ensures k in OpenHandles(t) <==> (k in OpenHandles(s) && k != h) || got == Some(k) {
      InUseIsOpen(s, k);
      InUseIsOpen(t, k);
    }
  }

  // ------------------------------------------------ many exceptions

  /** Handles to raise exceptions on: each has an expired handler. */
  ghost predicate Raisable(s: System, now: int, handles: seq<int>) {
    && NoRepeats(handles)
    && forall h :: h in handles ==> h in Expiring(s.loop, now, false) || h in Expiring(s.loop, now, true)
  }

  /** Exceptions were raised on these handles: they expire no more, and nothing new is late. */
  ghost predicate Spent(s: System, now: int, handles: seq<int>, t: System) {
    && now <= t.clock && Late(t, now) <= Late(s, now)
    && (forall w: bool :: Expiring(t.loop, now, w) == Expiring(s.loop, now, w) - Elements(handles))
    && t.servers == s.servers && (t.forwarders == [] <==> s.forwarders == [])
  }

  /** And other connections came up for what waited, while those not late stay. */
  ghost predicate Reopened(env: Environment, s: System, now: int, handles: seq<int>, t: System) {
    && Started(env, s, t)
    && (forall i: nat :: i < |s.conns| && i !in Late(s, now) ==> t.conns[i] == s.conns[i])
    && Supplied(t) == FreedAll(env, s.forwarders != [], Supplied(s), handles)
    && forall i: nat :: |s.conns| <= i < |t.conns| ==>
         if i in Openers(env, s.forwarders != [], Supplied(s), handles) then t.conns[i].socket == env(i).socket
         else t.conns[i].socket.None?
  }

  lemma {:induction false} RaisedClears(env: Environment, s: System, now: int, handles: seq<int>)
    requires Inv(s) && now <= s.clock && Raisable(s, now, handles)
    ensures Spent(s, now, handles, Run(env, s, Raised(handles)))
    ensures Reopened(env, s, now, handles, Run(env, s, Raised(handles)))
    decreases |handles|
  {
    hide Inv, Run, Step, Evolves, Raised, Expiring, Spent, Reopened;
    if handles == [] {
      RaisedNone(env, s);
      NoneCleared(env, s, now);
    } else {
      var front, last := handles[..|handles| - 1], handles[|handles| - 1];
      assert handles == front + [last];
      FrontRaisable(s, now, front, last);
      RaisedClears(env, s, now, front);
      RaisedNext(env, s, front, last);
      SpentNext(env, s, now, front, Run(env, s, Raised(front)), last);
      ReopenedNext(env, s, now, front, Run(env, s, Raised(front)), last);
    }
  }

  lemma RaisedNone(env: Environment, s: System)
    requires Inv(s)
    ensures Run(env, s, Raised([])) == s
  {
    assert Raised([]) == [];
    RunNone(env, s);
  }

  lemma NoneCleared(env: Environment, s: System, now: int)
    requires now <= s.clock
    ensures Spent(s, now, [], s) && Reopened(env, s, now, [], s)
  {
    hide Expiring, Late;
    assert Elements([]) == {};
  }

  lemma FrontRaisable(s: System, now: int, front: seq<int>, last: int)
    requires Raisable(s, now, front + [last])
    ensures Raisable(s, now, front) && last !in front
    ensures last in Expiring(s.loop, now, false) || last in Expiring(s.loop, now, true)
  {
    hide Expiring;
    assert last in front + [last];
    forall i, j | 0 <= i < j < |front| ensures front[i] != front[j] {
      assert (front + [last])[i] != (front + [last])[j];
    }
    forall i | 0 <= i < |front| ensures front[i] != last {
      assert (front + [last])[i] != (front + [last])[|front|];
    }
  }

  lemma SpentNext(env: Environment, s: System, now: int, front: seq<int>, mid: System, last: int)
    requires Inv(mid) && Spent(s, now, front, mid) && last !in front
    requires last in Expiring(s.loop, now, false) || last in Expiring(s.loop, now, true)
    ensures last in Expiring(mid.loop, now, false) || last in Expiring(mid.loop, now, true)
    ensures Spent(s, now, front + [last], Step(env, mid, Failed(last)))
  {
    hide Inv, Step, Evolves, Expiring, Late, Swaps, Elements;
    OneMoreElement(front, last);
    assert Expiring(mid.loop, now, false) == Expiring(s.loop, now, false) - Elements(front);
    assert Expiring(mid.loop, now, true) == Expiring(s.loop, now, true) - Elements(front);
    StepFrees(env, mid, now, last);
    RaiseExpires(env, mid, now, last, false);
    RaiseExpires(env, mid, now, last, true);
  }

  lemma OneMoreElement(front: seq<int>, last: int)
    ensures Elements(front + [last]) == Elements(front) + {last} && (last !in front ==> last !in Elements(front))
  {
  }

  lemma ReopenedNext(env: Environment, s: System, now: int, front: seq<int>, mid: System, last: int)
    requires Inv(s) && Inv(mid) && Spent(s, now, front, mid) && Reopened(env, s, now, front, mid)
    requires last in Expiring(mid.loop, now, false) || last in Expiring(mid.loop, now, true)
    ensures Reopened(env, s, now, front + [last], Step(env, mid, Failed(last)))
  {
    hide Inv, Step, Evolves, Expiring, Swaps, Reopened, Late;
    StepFrees(env, mid, now, last);
    LateBelow(s, now);
    SwapNext(env, s, now, front, mid, last, mid.loop.exceptFns[last].id, Step(env, mid, Failed(last)));
  }

  lemma SwapNext(env: Environment, s: System, now: int, front: seq<int>, mid: System, last: int, id: nat, t: System)
    requires Reopened(env, s, now, front, mid) && Swaps(env, mid, id, last, t)
    requires id in Late(s, now) && id < |s.conns| && (mid.forwarders == [] <==> s.forwarders == [])
    ensures Reopened(env, s, now, front + [last], t)
  {
    hide Started, Late, Supplied, Freed, FreedAll, Openers, Opener;
    OpenersNext(env, s.forwarders != [], Supplied(s), front, last);
    SuppliedParts(mid);
    StartedGrows(env, s, mid);
    StartedGrows(env, mid, t);
    assert forall i :: |s.conns| <= i < |mid.conns| ==> t.conns[i] == mid.conns[i];
    StartedInParts(env, s, mid, t);
  }

  lemma SuppliedParts(s: System)
    ensures Supplied(s).next == |s.conns| && Supplied(s).count == |s.queue|
  {
  }

  lemma StartedGrows(env: Environment, s: System, t: System)
    requires Started(env, s, t)
    ensures |s.conns| <= |t.conns|
  {
  }

  lemma LateBelow(s: System, now: int)
    ensures forall i :: i in Late(s, now) ==> i < |s.conns|
  {
  }

  // ------------------------------------------------ a whole timeout

  /** The state after the sweep of the read handlers. */
  ghost function AfterReads(env: Environment, s: System, now: int): (half: System)
    requires Inv(s)
    ensures Inv(half)
  {
    Run(env, s, Raised(Sorted(Expiring(s.loop, now, false))))
  }

  /** And after that of the write handlers. */
  ghost function SweptBoth(env: Environment, s: System, now: int): (t: System)
    requires Inv(s)
    ensures Inv(t)
  {
    var reading, writing := Expiring(s.loop, now, false), Expiring(s.loop, now, true);
    Run(env, AfterReads(env, s, now), Raised(Sorted(writing - reading)))
  }

  lemma TimeoutRun(env: Environment, s: System, time: int)
    requires Inv(s)
    ensures var ticked := Step(env, s, Tick(time));
            && time <= ticked.clock
            && Run(env, s, Timeouts(s, time)) == SweptBoth(env, ticked, ticked.clock)
  {
    var now := Max(s.clock, time);
    assert Step(env, s, Tick(time)) == s.(clock := now);
    hide Inv, Step, Run, Raised, Evolves, Expiring, Sorted;
    var first := Raised(Sorted(Expiring(s.loop, now, false)));
    var second := Raised(Sorted(Expiring(s.loop, now, true) - Expiring(s.loop, now, false)));
    assert Admissible(Tick(time));
    RunOne(env, s, Tick(time));
    RunInParts(env, s, [Tick(time)], first);
    RunInParts(env, s, [Tick(time)] + first, second);
  }

  /** The handles that the first sweep raises exceptions on, and those of both. */
  ghost function EarlyRaised(s: System, now: int): seq<int> {
    Sorted(Expiring(s.loop, now, false))
  }

  ghost function AllRaised(s: System, now: int): seq<int> {
    EarlyRaised(s, now) + Sorted(Expiring(s.loop, now, true) - Expiring(s.loop, now, false))
  }

  /** Both sweeps, from what the state before them says. */
  lemma BothCleared(env: Environment, s: System, now: int)
    requires Inv(s) && now <= s.clock
    ensures var half, t := AfterReads(env, s, now), SweptBoth(env, s, now);
            && Evolves(s, half) && Evolves(half, t) && Evolves(s, t)
            && Spent(s, now, EarlyRaised(s, now), half) && Reopened(env, s, now, EarlyRaised(s, now), half)
            && Spent(s, now, AllRaised(s, now), t) && Reopened(env, s, now, AllRaised(s, now), t)
            && Expiring(half.loop, now, false) == {}
            && Expiring(t.loop, now, false) == {} && Expiring(t.loop, now, true) == {}
  {
    hide Inv, Run, Evolves, Raised, Expiring, Reopened, Late, Sorted;
    var reading, writing := Expiring(s.loop, now, false), Expiring(s.loop, now, true);
    var half, t := AfterReads(env, s, now), SweptBoth(env, s, now);
    BothRaisable(s, now);
    RaisedClears(env, s, now, EarlyRaised(s, now));
    RaisedInParts(env, s, Sorted(reading), Sorted(writing - reading));
    RaisedClears(env, s, now, AllRaised(s, now));
  }

  lemma BothRaisable(s: System, now: int)
    ensures Raisable(s, now, EarlyRaised(s, now)) && Raisable(s, now, AllRaised(s, now))
    ensures Elements(EarlyRaised(s, now)) == Expiring(s.loop, now, false)
    ensures Elements(AllRaised(s, now)) == Expiring(s.loop, now, false) + Expiring(s.loop, now, true)
  {
    hide Expiring, Sorted;
    var reading, writing := Expiring(s.loop, now, false), Expiring(s.loop, now, true);
    var first, second := Sorted(reading), Sorted(writing - reading);
    forall i, j | 0 <= i < j < |first + second| ensures (first + second)[i] != (first + second)[j] {
      assert i < |first| ==> first[i] in reading;
      assert j >= |first| ==> second[j - |first|] in writing - reading;
    }
  }

  lemma RaisedInParts(env: Environment, s: System, first: seq<int>, second: seq<int>)
    requires Inv(s)
    ensures Run(env, Run(env, s, Raised(first)), Raised(second)) == Run(env, s, Raised(first + second))
  {
    hide Inv, Evolves, Step, Run;
    assert Raised(first + second) == Raised(first) + Raised(second);
    RunInParts(env, s, Raised(first), Raised(second));
  }
}
