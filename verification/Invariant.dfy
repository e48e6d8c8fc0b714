// What holds between any two events, and that every member keeps it.

module Invariants {
  import opened HandlerMaps
  import opened ForwarderConfigs
  import opened Connections
  import opened Systems

  // ------------------------------------------------ the loop and the connections

  /** Every connection agrees with the loop. */
  predicate Agreed(s: System) {
    forall i :: 0 <= i < |s.conns| ==> Agrees(s.loop, i, s.conns[i])
  }

  /** Open sockets have handles of their own. */
  predicate Apart(s: System) {
    && (forall i, j :: 0 <= i < |s.conns| && 0 <= j < |s.conns| && i != j && s.conns[i].socket.Some?
                       ==> s.conns[i].socket != s.conns[j].socket)
    && (forall i :: 0 <= i < |s.conns| && s.conns[i].socket.Some? ==> s.conns[i].socket.value !in s.servers)
  }

  predicate OwnedBy(s: System, h: int, cb: Callback) {
    match cb
    case Serve => h in s.servers
    case Bound(id, a) => id < |s.conns| && s.conns[id].socket == Some(h)
  }

  /**
   * Every handler belongs to a listening socket, without a deadline, or to the
   * open connection it is bound to; and every listening socket has its handler.
   */
  predicate Owned(s: System) {
    && (forall h :: h in s.loop.readFns ==> OwnedBy(s, h, s.loop.readFns[h].callback))
    && (forall h :: h in s.loop.readFns && s.loop.readFns[h].callback.Serve? ==> s.loop.readFns[h].deadline == 0)
    && (forall h :: h in s.loop.writeFns ==>
          s.loop.writeFns[h].callback.Bound? && OwnedBy(s, h, s.loop.writeFns[h].callback))
    && (forall h :: h in s.servers ==> h in s.loop.readFns && s.loop.readFns[h].callback.Serve?)
    && (forall h :: h in s.loop.exceptFns ==> s.loop.exceptFns[h].Bound? && OwnedBy(s, h, s.loop.exceptFns[h]))
  }

  predicate Wired(s: System) {
    Agreed(s) && Apart(s) && Owned(s)
  }

  // ------------------------------------------------ the pool and the record of the run

  predicate NoRepeats<T(==)>(xs: seq<T>) {
    forall i, j :: 0 <= i < j < |xs| ==> xs[i] != xs[j]
  }

  /** The pool holds the connections that are not closed, and those in `closing`, once each. */
  ghost predicate Pooled(s: System, closing: set<nat>) {
    && NoRepeats(s.pool)
    && forall id: nat :: id in s.pool <==> id < |s.conns| && (!s.conns[id].state.CLOSED? || id in closing)
  }

  /** Connection i was made for attempt i, joined or failed, and gives up after the timeout. */
  predicate Attempted(s: System) {
    && |s.attempts| == |s.conns|
    && (forall i :: 0 <= i < |s.conns| ==>
          && (s.conns[i].query.Some? ==> s.conns[i].query.value == s.attempts[i])
          && (!s.conns[i].state.CLOSED? ==> s.conns[i].query.Some?)
          && 0 < s.conns[i].deadline <= s.clock + s.timeout)
  }

  predicate Answers(s: System, r: Reply) {
    && r.id < |s.conns| && s.conns[r.id].query.Some?
    && s.conns[r.id].state.Rank() >= SHUTTING_DOWN.Rank()
    && var q := s.conns[r.id].query.value;
       r.socket == q.socket && r.client == q.client && r.server == q.server && r.interface == q.interface
  }

  /** Replies answer the request of their connection, which is then on its way out, and only once. */
  predicate Replied(s: System) {
    && (forall k :: 0 <= k < |s.replies| ==> Answers(s, s.replies[k]))
    && (forall j, k :: 0 <= j < k < |s.replies| ==> s.replies[j].id != s.replies[k].id)
  }

  /** Who called setBad is closed, called it once, and the forwarders are in failure order. */
  predicate Blamed(s: System) {
    && NoRepeats(s.blamed) && |s.failures| == |s.blamed|
    && (forall k :: 0 <= k < |s.blamed| ==>
          && s.blamed[k] < |s.conns| && s.conns[s.blamed[k]].state.CLOSED?
          && s.failures[k] == s.conns[s.blamed[k]].remote)
    && s.forwarders == AfterFailures(s.configured, s.failures)
  }

  /** m_shutdown fired exactly for the connections that joined and closed, but not yet for those in `closing`. */
  ghost predicate Fired(s: System, closing: set<nat>) {
    && NoRepeats(s.fired)
    && forall id: nat :: id in s.fired <==>
         id < |s.conns| && s.conns[id].state.CLOSED? && s.conns[id].query.Some? && id !in closing
  }

  predicate Sane(s: System) {
    && 0 <= s.clock && 1 <= s.timeout && |s.pool| <= s.limit
    && forall k :: 0 <= k < |s.queue| ==> s.queue[k].request != []
  }

  /** Everything but what the queue says, while the m_shutdown of `closing` is still to come. */
  ghost predicate Core(s: System, closing: set<nat>) {
    && Wired(s) && Pooled(s, closing) && Attempted(s) && Replied(s) && Blamed(s) && Fired(s, closing) && Sane(s)
  }

  /** First come, first tried: with `front` in hand, what arrived is what was tried, `front`, and the queue. */
  predicate InOrder(s: System, front: seq<Query>) {
    s.arrivals == s.attempts + front + s.queue
  }

  /** Nothing waits while there is room. */
  predicate Busy(s: System) {
    s.queue != [] ==> |s.pool| == s.limit
  }

  /** What holds between any two events. */
  ghost predicate Inv(s: System) {
    Core(s, {}) && InOrder(s, []) && Busy(s)
  }

  // ------------------------------------------------ what changes only one way

  /** What no event takes back. */
  ghost predicate Evolves(s: System, t: System) {
    && |s.conns| <= |t.conns|
    && (forall i :: 0 <= i < |s.conns| ==>
          && s.conns[i].state.Rank() <= t.conns[i].state.Rank()
          && s.conns[i].deadline == t.conns[i].deadline && s.conns[i].remote == t.conns[i].remote
          && (t.conns[i].socket == s.conns[i].socket || t.conns[i].socket.None?)
          && (s.conns[i].query.Some? ==> t.conns[i].query == s.conns[i].query))
    && (forall i :: |s.conns| <= i < |t.conns| ==> s.clock + s.timeout <= t.conns[i].deadline)
    && s.clock <= t.clock
    && s.arrivals <= t.arrivals && s.attempts <= t.attempts && s.replies <= t.replies
    && s.blamed <= t.blamed && s.fired <= t.fired
    && t.configured == s.configured && t.limit == s.limit && t.timeout == s.timeout
  }

  lemma EvolvesTransitively(s: System, t: System, u: System)
    requires Evolves(s, t) && Evolves(t, u)
    ensures Evolves(s, u)
  {
  }

  // ------------------------------------------------ a member runs on one connection

  lemma WiredAlike(s: System, t: System)
    requires Wired(s) && t.loop == s.loop && t.conns == s.conns && t.servers == s.servers
    ensures Wired(t)
  {
    hide Agrees;
    assert Agreed(t) && Apart(t) && Owned(t);
  }

  lemma SameReplies(s: System, t: System)
    requires Replied(s) && t.conns == s.conns && t.replies == s.replies
    ensures Replied(t)
  {
    forall k | 0 <= k < |t.replies| ensures Answers(t, t.replies[k]) {
      assert Answers(s, s.replies[k]);
    }
  }

  /** The new loop and connection agree, and every other connection still does. */
  lemma SettleWired(s: System, id: nat, e: Effect)
    requires Wired(s) && id < |s.conns| && s.conns[id].socket.Some?
    requires Stepped(s.loop, id, s.conns[id], s.conns[id].socket.value, e)
    ensures Wired(Settle(s, id, e))
  {
    var t, h := Settle(s, id, e), s.conns[id].socket.value;
    forall i | 0 <= i < |t.conns| ensures Agrees(t.loop, i, t.conns[i]) {
      if i != id && s.conns[i].socket.Some? {
        assert s.conns[i].socket.value != h;
        assert Agrees(s.loop, i, s.conns[i]);
      }
    }
    assert Agrees(s.loop, id, s.conns[id]);
    SettleOwned(s, id, e);
  }

  lemma SettleOwned(s: System, id: nat, e: Effect)
    requires Wired(s) && id < |s.conns| && s.conns[id].socket.Some?
    requires Stepped(s.loop, id, s.conns[id], s.conns[id].socket.value, e)
    ensures Owned(Settle(s, id, e))
  {
    var t, h := Settle(s, id, e), s.conns[id].socket.value;
    forall k, cb | OwnedBy(s, k, cb) && k != h ensures OwnedBy(t, k, cb) {
      if cb.Bound? {
        assert cb.id != id;
      }
    }
    forall k | k in t.loop.readFns && k != h ensures k in s.loop.readFns {}
  }

  lemma AfterOneMore(fs: seq<Forwarder>, failures: seq<Address>, remote: Address)
    ensures AfterFailures(fs, failures + [remote]) == Demoted(AfterFailures(fs, failures), remote)
  {
    assert (failures + [remote])[..|failures|] == failures;
  }

  lemma SettleBlamed(s: System, id: nat, e: Effect)
    requires Blamed(s) && id < |s.conns| && !s.conns[id].state.CLOSED?
    requires e.conn.remote == s.conns[id].remote && (e.bad ==> e.conn.state.CLOSED?)
    ensures Blamed(Settle(s, id, e))
  {
    hide AfterFailures, Demoted;
    AfterOneMore(s.configured, s.failures, e.conn.remote);
  }

  lemma SettleReplied(s: System, id: nat, e: Effect)
    requires Replied(s) && id < |s.conns|
    requires s.conns[id].state.Rank() <= e.conn.state.Rank() && e.conn.query == s.conns[id].query
    ensures Replied(Settle(s, id, e))
  {
    var t := Settle(s, id, e);
    forall k | 0 <= k < |t.replies| ensures Answers(t, t.replies[k]) {
      assert Answers(s, s.replies[k]);
    }
  }

  /** What closes is still in the pool until its m_shutdown fires. */
  lemma SettlePooled(s: System, id: nat, e: Effect)
    requires Pooled(s, {}) && Fired(s, {}) && id < |s.conns| && !s.conns[id].state.CLOSED?
    requires e.conn.query == s.conns[id].query && e.conn.query.Some?
    requires e.due <==> e.conn.state.CLOSED?
    ensures var closing := if e.due then {id} else {};
            Pooled(Settle(s, id, e), closing) && Fired(Settle(s, id, e), closing)
  {
  }

  /** A member ran on an open connection: all holds but for the m_shutdown that is due. */
  lemma SettleKeeps(s: System, id: nat, e: Effect)
    requires Core(s, {}) && id < |s.conns| && s.conns[id].socket.Some?
    requires Stepped(s.loop, id, s.conns[id], s.conns[id].socket.value, e)
    ensures Core(Settle(s, id, e), if e.due then {id} else {})
    ensures Evolves(s, Settle(s, id, e))
  {
    StepParts(s, id, e);
    SettleWired(s, id, e);
    SettlePooled(s, id, e);
    SettleReplied(s, id, e);
    SettleBlamed(s, id, e);
    SettleEvolves(s, id, e);
    hide Wired, Pooled, Fired, Replied, Blamed, Stepped, Evolves, Attempted;
  }

  lemma StepParts(s: System, id: nat, e: Effect)
    requires Agreed(s) && Attempted(s) && id < |s.conns| && s.conns[id].socket.Some?
    requires Stepped(s.loop, id, s.conns[id], s.conns[id].socket.value, e)
    ensures !s.conns[id].state.CLOSED? && e.conn.query == s.conns[id].query && e.conn.query.Some?
    ensures s.conns[id].state.Rank() <= e.conn.state.Rank() && e.conn.remote == s.conns[id].remote
    ensures e.conn.deadline == s.conns[id].deadline && (e.conn.socket == s.conns[id].socket || e.conn.socket.None?)
    ensures (e.bad ==> e.conn.state.CLOSED?) && (e.due <==> e.conn.state.CLOSED?)
  {
    assert Agrees(s.loop, id, s.conns[id]);
    hide BoundAt, SameElsewhere, Free;
  }

  lemma SettleEvolves(s: System, id: nat, e: Effect)
    requires Attempted(s) && id < |s.conns| && e.conn.query == s.conns[id].query && e.conn.query.Some?
    requires s.conns[id].state.Rank() <= e.conn.state.Rank() && e.conn.remote == s.conns[id].remote
    requires e.conn.deadline == s.conns[id].deadline && (e.conn.socket == s.conns[id].socket || e.conn.socket.None?)
    ensures Attempted(Settle(s, id, e)) && Evolves(s, Settle(s, id, e))
  {
  }

  // ------------------------------------------------ m_shutdown takes it out of the pool

  lemma ErasedFrom(pool: seq<nat>, id: nat)
    requires NoRepeats(pool)
    ensures NoRepeats(Erased(pool, id))
    ensures forall x :: x in Erased(pool, id) <==> x in pool && x != id
    ensures |Erased(pool, id)| == if id in pool then |pool| - 1 else |pool|
  {
    if IndexOf(pool, id) < |pool| {
      WithoutOne(pool, IndexOf(pool, id));
    }
  }

  lemma WithoutOne(xs: seq<nat>, i: nat)
    requires NoRepeats(xs) && i < |xs|
    ensures var r := xs[..i] + xs[i + 1..];
            NoRepeats(r) && forall x :: x in r <==> x in xs && x != xs[i]
  {
    var r := xs[..i] + xs[i + 1..];
    forall k | 0 <= k < |r| ensures r[k] == xs[if k < i then k else k + 1] {
    }
    forall x | x in xs && x != xs[i] ensures x in r {
      var k :| 0 <= k < |xs| && xs[k] == x;
      assert r[if k < i then k else k - 1] == x;
    }
  }

  lemma ShutdownKeeps(s: System, id: nat)
    requires Core(s, {id}) && id in s.pool && id < |s.conns| && s.conns[id].state.CLOSED? && s.conns[id].query.Some?
    ensures var t := s.(pool := Erased(s.pool, id), fired := s.fired + [id]);
            Core(t, {}) && |t.pool| < t.limit && Evolves(s, t)
  {
    ErasedFrom(s.pool, id);
    var t := s.(pool := Erased(s.pool, id), fired := s.fired + [id]);
    ShutdownFired(s, id);
    SameReplies(s, t);
    WiredAlike(s, t);
    hide Erased, IndexOf, Wired, Replied, Fired;
  }

  lemma ShutdownFired(s: System, id: nat)
    requires Fired(s, {id}) && id < |s.conns| && s.conns[id].state.CLOSED? && s.conns[id].query.Some?
    ensures Fired(s.(pool := Erased(s.pool, id), fired := s.fired + [id]), {})
  {
    hide Erased;
  }
}
