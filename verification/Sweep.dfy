// The timeout sweep: raising exceptions on handles whose deadline has passed
// (src/loop.cpp:153-183, 202-211).

module Sweeps {
  import opened HandlerMaps
  import opened Connections
  import opened Systems
  import opened Invariants
  import opened Runs
  import opened Executions

  predicate Overdue(deadline: int, now: int) {
    deadline != 0 && deadline <= now
  }

  predicate Expired(fns: map<int, Entry>, now: int, h: int) {
    h in fns && Overdue(fns[h].deadline, now)
  }

  /** The connections that should have been given up by `now`. */
  function Late(s: System, now: int): set<nat> {
    set i: nat | i < |s.conns| && !s.conns[i].state.CLOSED? && s.conns[i].deadline <= now
  }

  /** An expired handler is one of a late connection, whose exception handler is there to be raised. */
  lemma ExpiredIsLate(s: System, now: int, h: int)
    requires Inv(s) && (Expired(s.loop.readFns, now, h) || Expired(s.loop.writeFns, now, h))
    ensures h in s.loop.exceptFns && s.loop.exceptFns[h].Bound?
    ensures s.loop.exceptFns[h].id in Late(s, now) && s.conns[s.loop.exceptFns[h].id].socket == Some(h)
  {
    forall i | 0 <= i < |s.conns| ensures Agrees(s.loop, i, s.conns[i]) {
    }
  }

  /** A late connection has an expired handler. */
  lemma LateIsExpired(s: System, now: int, i: nat)
    requires Inv(s) && i in Late(s, now)
    ensures s.conns[i].socket.Some?
    ensures var h := s.conns[i].socket.value;
            Expired(s.loop.readFns, now, h) || Expired(s.loop.writeFns, now, h)
  {
    assert Agrees(s.loop, i, s.conns[i]);
  }

  /** A raised exception is that of the connection on the handle, which closes. */
  lemma RaiseFinishes(env: Environment, s: System, h: int)
    requires Inv(s) && h in s.loop.exceptFns
    ensures s.loop.exceptFns[h].Bound?
    ensures var id := s.loop.exceptFns[h].id;
            && id < |s.conns| && s.conns[id].socket == Some(h)
            && var e := Except(s.loop, s.conns[id]);
               && Stepped(s.loop, id, s.conns[id], h, e) && e.conn.state.CLOSED?
               && Step(env, s, Failed(h)) == Finish(env, s, id, e)
  {
    BoundFits(s, h);
    HandlersOwned(s, h);
    var id := s.loop.exceptFns[h].id;
    assert Agrees(s.loop, id, s.conns[id]);
    hide Inv, Evolves, Finish, Except, Stepped, Agrees, Step;
    StepAborts(env, s, id, h);
    ExceptSteps(s.loop, id, s.conns[id]);
  }

  /**
   * Raising the exception of a late connection closes it and makes no other
   * late, whatever requests that sends on, and even if one reuses the handle.
   */
  lemma RaiseSheds(env: Environment, s: System, now: int, h: int)
    requires Inv(s) && now <= s.clock && h in s.loop.exceptFns
    ensures s.loop.exceptFns[h].Bound?
    ensures Late(Step(env, s, Failed(h)), now) == Late(s, now) - {s.loop.exceptFns[h].id}
  {
    RaiseFinishes(env, s, h);
    assert s.timeout >= 1;
    hide Late, Inv, Evolves, Step, Finish, Except, Stepped;
    var id := s.loop.exceptFns[h].id;
    var e := Except(s.loop, s.conns[id]);
    FinishKeepsOthers(env, s, id, e);
    LateWithout(s, Finish(env, s, id, e), id, e, now);
  }

  lemma LateWithout(s: System, t: System, id: nat, e: Effect, now: int)
    requires id < |s.conns| && e.conn.state.CLOSED? && s.conns[id := e.conn] <= t.conns
    requires now <= s.clock && 1 <= s.timeout
    requires forall i :: |s.conns| <= i < |t.conns| ==> s.clock + s.timeout <= t.conns[i].deadline
    ensures Late(t, now) == Late(s, now) - {id}
  {
    forall i: nat | i < |s.conns| ensures t.conns[i] == if i == id then e.conn else s.conns[i] {
      assert s.conns[id := e.conn][i] == t.conns[i];
    }
  }

  /** Only connection `id` changes, and any new ones have the whole timeout before them. */
  lemma FinishKeepsOthers(env: Environment, s: System, id: nat, e: Effect)
    requires Inv(s) && id < |s.conns| && s.conns[id].socket.Some?
    requires Stepped(s.loop, id, s.conns[id], s.conns[id].socket.value, e)
    ensures var t := Finish(env, s, id, e);
            && s.conns[id := e.conn] <= t.conns
            && forall i :: |s.conns| <= i < |t.conns| ==> s.clock + s.timeout <= t.conns[i].deadline
  {
    FinishKeeps(env, s, id, e);
    FinishOthers(env, s, id, e);
  }

  lemma RaiseOthers(env: Environment, s: System, h: int, i: nat)
    requires Inv(s) && h in s.loop.exceptFns && i < |s.conns|
    ensures s.loop.exceptFns[h].Bound?
    ensures var t := Step(env, s, Failed(h));
            i < |t.conns| && (i != s.loop.exceptFns[h].id ==> t.conns[i] == s.conns[i])
  {
    RaiseFinishes(env, s, h);
    hide Inv, Evolves, Step, Finish, Except, Stepped;
    var id := s.loop.exceptFns[h].id;
    var e := Except(s.loop, s.conns[id]);
    FinishKeepsOthers(env, s, id, e);
    assert i != id ==> s.conns[id := e.conn][i] == s.conns[i];
  }

  /** The handles with an expired handler in the map that a sweep goes over. */
  function Expiring(l: Handlers, now: int, writing: bool): set<int> {
    var fns := Swept(l, writing);
    set h | h in fns && Expired(fns, now, h)
  }

  /** The handlers that a sweep goes over. */
  function Swept(l: Handlers, writing: bool): map<int, Entry> {
    if writing then l.writeFns else l.readFns
  }

  /** Raising an exception takes its handle from the expired ones of either map, and neither adds nor takes another. */
  lemma RaiseExpires(env: Environment, s: System, now: int, h: int, writing: bool)
    requires Inv(s) && now <= s.clock && h in s.loop.exceptFns
    ensures Expiring(Step(env, s, Failed(h)).loop, now, writing) == Expiring(s.loop, now, writing) - {h}
  {
    var t := Step(env, s, Failed(h));
    hide *;
    forall k ensures k in Expiring(t.loop, now, writing) <==> k in Expiring(s.loop, now, writing) && k != h {
      RaiseExpiresAt(env, s, now, h, writing, k);
    }
    WithoutIs(Expiring(s.loop, now, writing), Expiring(t.loop, now, writing), h);
  }

  lemma WithoutIs(was: set<int>, left: set<int>, h: int)
    requires forall k :: k in left <==> k in was && k != h
    ensures left == was - {h}
  {
    assert forall k :: k in left <==> k in was - {h};
  }

  lemma RaiseExpiresAt(env: Environment, s: System, now: int, h: int, writing: bool, k: int)
    requires Inv(s) && now <= s.clock && h in s.loop.exceptFns
    ensures k in Expiring(Step(env, s, Failed(h)).loop, now, writing)
            <==> k in Expiring(s.loop, now, writing) && k != h
  {
    var t := Step(env, s, Failed(h));
    hide Step, Inv, Evolves;
    if k in Expiring(t.loop, now, writing) {
      NoneExpires(env, s, now, h, k);
    } else if k in Expiring(s.loop, now, writing) && k != h {
      EntryStays(env, s, h, writing, k);
    }
  }

  lemma NoneExpires(env: Environment, s: System, now: int, h: int, k: int)
    requires Inv(s) && now <= s.clock && h in s.loop.exceptFns
    requires var t := Step(env, s, Failed(h)); Expired(t.loop.readFns, now, k) || Expired(t.loop.writeFns, now, k)
    ensures var t := Step(env, s, Failed(h));
            && (Expired(t.loop.readFns, now, k) ==> Expired(s.loop.readFns, now, k) && k != h)
            && (Expired(t.loop.writeFns, now, k) ==> Expired(s.loop.writeFns, now, k) && k != h)
  {
    var t := Step(env, s, Failed(h));
    BoundFits(s, h);
    var id := s.loop.exceptFns[h].id;
    RaiseSheds(env, s, now, h);
    ExpiredIsLate(t, now, k);
    var i := t.loop.exceptFns[k].id;
    RaiseOthers(env, s, h, i);
    hide Step, Late, Pooled, Replied, Fired, Blamed, Attempted, Sane;
    assert Agrees(s.loop, i, s.conns[i]) && Agrees(t.loop, i, t.conns[i]) && Agrees(s.loop, id, s.conns[id]);
  }

  /** A handler with a deadline stays as it is when an exception is raised on another handle. */
  lemma EntryStays(env: Environment, s: System, h: int, writing: bool, k: int)
    requires Inv(s) && h in s.loop.exceptFns && k != h
    requires k in Swept(s.loop, writing) && Swept(s.loop, writing)[k].deadline != 0
    ensures var t := Step(env, s, Failed(h));
            k in Swept(t.loop, writing) && Swept(t.loop, writing)[k] == Swept(s.loop, writing)[k]
  {
    var t := Step(env, s, Failed(h));
    HandlersOwned(s, k);
    HandlersOwned(s, h);
    assert Swept(s.loop, writing)[k].callback.Bound?;
    var i := Swept(s.loop, writing)[k].callback.id;
    RaiseOthers(env, s, h, i);
    hide Step, Pooled, Replied, Fired, Blamed, Attempted, Sane, Owned, Evolves;
    assert Agrees(s.loop, i, s.conns[i]) && Agrees(t.loop, i, t.conns[i]);
  }

  /** Exceptions raised one after the other. */
  function Raised(handles: seq<int>): (events: seq<Event>)
    ensures AllAdmissible(events)
  {
    seq(|handles|, i requires 0 <= i < |handles| => Failed(handles[i]))
  }

  /** Everything in the pool has its deadline still before it. */
  ghost predicate InTime(s: System, time: int) {
    forall i :: i in s.pool ==> i < |s.conns| && time < s.conns[i].deadline
  }

  lemma InTimeEarlier(s: System, time: int, now: int)
    requires InTime(s, now) && time <= now
    ensures InTime(s, time)
  {
  }

  /** When no handler of the two maps has expired, no connection in the pool is late. */
  lemma NoneLate(s: System, now: int)
    requires Inv(s) && Expiring(s.loop, now, false) == {} && Expiring(s.loop, now, true) == {}
    ensures Late(s, now) == {}
    ensures InTime(s, now)
  {
    forall h ensures !Expired(s.loop.readFns, now, h) && !Expired(s.loop.writeFns, now, h) {
      assert h !in Expiring(s.loop, now, false) && h !in Expiring(s.loop, now, true);
    }
    forall i: nat ensures i !in Late(s, now) {
      if i in Late(s, now) {
        LateIsExpired(s, now, i);
      }
    }
    forall i | i in s.pool ensures now < s.conns[i].deadline {
      assert i !in Late(s, now);
    }
  }

  // ------------------------------------------------ what a whole sweep does

  predicate Ascending(xs: seq<int>) {
    forall i, j :: 0 <= i < j < |xs| ==> xs[i] < xs[j]
  }

  lemma {:induction false} HasLeast(s: set<int>)
    requires s != {}
    ensures exists m :: m in s && forall k :: k in s ==> m <= k
    decreases s
  {
    var x := Member(s);
    if k :| k in s && k < x {
      assert k in s - {x};
      HasLeast(s - {x});
      var m :| m in s - {x} && forall k :: k in s - {x} ==> m <= k;
      assert forall k :: k in s ==> k == x || k in s - {x};
      assert m in s && forall k :: k in s ==> m <= k;
    }
  }

  ghost function Member(s: set<int>): (x: int)
    requires s != {}
    ensures x in s
  {
    assert (forall k :: k !in s) ==> s == {};
    var x :| x in s;
    x
  }

  /** The handles in the order of an ordered map. */
  ghost function Sorted(s: set<int>): (xs: seq<int>)
    ensures Ascending(xs) && forall x :: x in xs <==> x in s
    decreases s
  {
    if s == {} then []
    else
      HasLeast(s);
      var m :| m in s && forall k :: k in s ==> m <= k;
      [m] + Sorted(s - {m})
  }

  lemma {:induction false} AscendingOnce(xs: seq<int>, ys: seq<int>)
    requires Ascending(xs) && Ascending(ys) && forall x :: x in xs <==> x in ys
    ensures xs == ys
    decreases xs
  {
    if xs != [] || ys != [] {
      assert (xs != [] ==> xs[0] in xs) && (ys != [] ==> ys[0] in ys);
      assert xs[0] == ys[0];
      TailAscends(xs);
      TailAscends(ys);
      AscendingOnce(xs[1..], ys[1..]);
    }
  }

  lemma TailAscends(xs: seq<int>)
    requires Ascending(xs) && xs != []
    ensures Ascending(xs[1..]) && forall x :: x in xs[1..] <==> x in xs && x != xs[0]
  {
    assert xs == [xs[0]] + xs[1..];
  }

  /**
   * What the sweep of both maps amounts to: the clock is read, and exceptions
   * are raised on the handles with an expired read handler, in order, and then
   * on those that only have an expired write handler.
   */
  ghost function Timeouts(s: System, time: int): (events: seq<Event>)
    ensures AllAdmissible(events)
  {
    var now := Max(s.clock, time);
    var reading, writing := Expiring(s.loop, now, false), Expiring(s.loop, now, true);
    [Tick(time)] + Raised(Sorted(reading)) + Raised(Sorted(writing - reading))
  }

  // ------------------------------------------------ one sweep, turn by turn

  /** What an ordered map's iterator comes to next: the least key after one, or at all. */
  function Next(keys: set<int>, after: Option<int>): (next: Option<int>)
    ensures next.None? ==> forall k :: k in keys ==> after.Some? && k <= after.value
    ensures next.Some? ==>
      && next.value in keys && (after.Some? ==> after.value < next.value)
      && forall k :: k in keys ==> (after.Some? && k <= after.value) || next.value <= k
  {
    var ahead := set k | k in keys && (after.Some? ==> after.value < k);
    assert forall k :: k in keys ==> (after.Some? && k <= after.value) || k in ahead;
    if ahead == {} then None
    else
      HasLeast(ahead);
      var n :| n in ahead && forall k :: k in ahead ==> n <= k;
      Some(n)
  }

  ghost function Elements(xs: seq<int>): set<int> {
    set x | x in xs
  }

  /**
   * The sweep came from `start` to `s` by raising exceptions in ascending order
   * on handles that were expired. It has passed over no expired handler.
   */
  ghost predicate Sweeping(env: Environment, start: System, s: System, now: int, writing: bool, raised: seq<int>,
                           it: Option<int>)
    requires Inv(start)
  {
    && s == Run(env, start, Raised(raised)) && now <= s.clock
    && Ascending(raised) && Elements(raised) <= Expiring(start.loop, now, writing)
    && Expiring(s.loop, now, false) == Expiring(start.loop, now, false) - Elements(raised)
    && Expiring(s.loop, now, true) == Expiring(start.loop, now, true) - Elements(raised)
    && forall k :: k in Expiring(s.loop, now, writing) ==>
         && it.Some? && it.value <= k
         && forall h :: h in raised ==> h < k
  }

  lemma SweepStarts(env: Environment, s: System, now: int, writing: bool, it: Option<int>)
    requires Inv(s) && now <= s.clock && it == Next(Swept(s.loop, writing).Keys, None)
    ensures Sweeping(env, s, s, now, writing, [], it)
    ensures it.Some? ==> it.value in Swept(s.loop, writing)
  {
    hide Inv, Expired;
    assert Raised([]) == [];
    assert Elements([]) == {};
  }

  lemma SweepingClock(env: Environment, start: System, s: System, now: int, writing: bool, raised: seq<int>,
                      it: Option<int>)
    requires Inv(start) && Sweeping(env, start, s, now, writing, raised, it)
    ensures now <= s.clock && Inv(s)
  {
  }

  lemma SweepPasses(env: Environment, start: System, s: System, now: int, writing: bool, raised: seq<int>, it: int,
                    next: Option<int>)
    requires Inv(start) && Sweeping(env, start, s, now, writing, raised, Some(it))
    requires it !in Expiring(s.loop, now, writing) || it in raised
    requires next == Next(Swept(s.loop, writing).Keys, Some(it))
    ensures Sweeping(env, start, s, now, writing, raised, next)
    ensures next.Some? ==> it < next.value && next.value in Swept(s.loop, writing)
  {
    hide Inv, Expired, Run, Raised, Evolves;
  }

  lemma SweepRaises(env: Environment, start: System, s: System, now: int, writing: bool, raised: seq<int>, h: int,
                    next: Option<int>)
    requires Inv(start) && Inv(s) && next == Next(Swept(Step(env, s, Failed(h)).loop, writing).Keys, None)
    requires Sweeping(env, start, s, now, writing, raised, Some(h)) && h in Expiring(s.loop, now, writing)
    ensures Sweeping(env, start, Step(env, s, Failed(h)), now, writing, raised + [h], next)
    ensures Late(Step(env, s, Failed(h)), now) < Late(s, now)
    ensures next.Some? ==> next.value in Swept(Step(env, s, Failed(h)).loop, writing)
  {
    hide Inv, Run, Step, Raised, Evolves, Expired;
    var t := Step(env, s, Failed(h));
    RaisedNext(env, start, raised, h);
    ExpiringRaised(env, s, now, writing, h);
    assert Elements(raised + [h]) == Elements(raised) + {h};
    assert h in Expiring(start.loop, now, writing) by {
      assert Expiring(s.loop, now, writing) == Expiring(start.loop, now, writing) - Elements(raised);
    }
    forall i | 0 <= i < |raised| ensures raised[i] < h {
      assert raised[i] in raised;
    }
    forall k | k in Expiring(t.loop, now, writing)
      ensures k in Swept(t.loop, writing).Keys && k in Expiring(s.loop, now, writing) && k != h
    {
      assert Expiring(t.loop, now, writing) == Expiring(s.loop, now, writing) - {h};
    }
  }

  lemma ExpiringRaised(env: Environment, s: System, now: int, writing: bool, h: int)
    requires Inv(s) && now <= s.clock && h in Expiring(s.loop, now, writing)
    ensures var t := Step(env, s, Failed(h));
            && s.clock <= t.clock && Late(t, now) < Late(s, now)
            && Expiring(t.loop, now, false) == Expiring(s.loop, now, false) - {h}
            && Expiring(t.loop, now, true) == Expiring(s.loop, now, true) - {h}
  {
    ExpiredIsLate(s, now, h);
    hide Inv, Step, Late, Expiring;
    RaiseSheds(env, s, now, h);
    RaiseExpires(env, s, now, h, false);
    RaiseExpires(env, s, now, h, true);
    assert Evolves(s, Step(env, s, Failed(h)));
  }

  lemma SweepEnds(env: Environment, start: System, s: System, now: int, writing: bool, raised: seq<int>)
    requires Inv(start) && Sweeping(env, start, s, now, writing, raised, None)
    ensures now <= s.clock && s == Run(env, start, Raised(Sorted(Expiring(start.loop, now, writing))))
    ensures raised == Sorted(Expiring(start.loop, now, writing))
    ensures forall w: bool :: Expiring(s.loop, now, w)
                              == Expiring(start.loop, now, w) - Expiring(start.loop, now, writing)
  {
    hide Inv, Run, Raised, Evolves, Expired;
    var all := Expiring(start.loop, now, writing);
    assert Expiring(s.loop, now, writing) == {};
    assert Elements(raised) == all by {
      assert all <= Elements(raised) + Expiring(s.loop, now, writing);
    }
    forall x ensures x in raised <==> x in Sorted(all) {
      assert x in raised <==> x in Elements(raised);
    }
    AscendingOnce(raised, Sorted(all));
  }

  /** Exceptions raised one after the other, and one more. */
  lemma RaisedNext(env: Environment, s: System, raised: seq<int>, h: int)
    requires Inv(s)
    ensures Run(env, s, Raised(raised + [h])) == Step(env, Run(env, s, Raised(raised)), Failed(h))
  {
    hide Inv, Step, Run, Evolves;
    assert Raised(raised + [h]) == Raised(raised) + [Failed(h)];
    assert Admissible(Failed(h));
    RunNext(env, s, Raised(raised), Failed(h));
  }
}
