// Requests tried one after the other until one joins the pool or none is left.

module Sending {
  import opened HandlerMaps
  import opened ForwarderConfigs
  import opened Connections
  import opened Systems
  import opened Invariants

  /** A new connection is either open on a handle of its own, or closed and without a trace in the loop. */
  ghost predicate Fits(s: System, l: Handlers, c: Connection) {
    && Agrees(l, |s.conns|, c)
    && if c.socket.Some? then
         !InUse(s, c.socket.value) && SameElsewhere(s.loop, l, c.socket.value)
       else l == s.loop
  }

  lemma UntouchedLoop(l: Handlers, l': Handlers, h: int)
    requires SameElsewhere(l, l', h) && Free(l, h) && Free(l', h)
    ensures l == l'
  {
    UntouchedMap(l.readFns, l'.readFns, h);
    UntouchedMap(l.writeFns, l'.writeFns, h);
    UntouchedMap(l.exceptFns, l'.exceptFns, h);
  }

  lemma UntouchedMap<T>(m: map<int, T>, n: map<int, T>, h: int)
    requires h !in m && h !in n
    requires forall k :: k != h ==> (k in n <==> k in m) && (k in m ==> n[k] == m[k])
    ensures m == n
  {
    forall k | k in m ensures k in n && n[k] == m[k] {
      assert k != h;
    }
    forall k | k in n ensures k in m {
      assert k != h;
    }
  }

  /** A handle that is not in use has no handlers. */
  lemma UnusedIsFree(s: System, h: int)
    requires Owned(s) && !InUse(s, h)
    ensures Free(s.loop, h)
  {
  }

  /** What the constructor leaves. Only a connection it closed itself may have called setBad. */
  lemma BornFits(s: System, now: int, b: Birth)
    requires Wired(s)
    ensures var e := Born(s, now, b);
            && Fits(s, e.loop, e.conn)
            && e.conn.buffer == [] && e.conn.query.None? && e.conn.deadline == now + s.timeout
            && (e.conn.socket.Some? ==> e.conn.state.CONNECTING? || e.conn.state.OPEN?)
            && (e.bad ==> e.conn.state.CLOSED?)
  {
    hide Wired, Fits, Open, InUse;
    var c := Connection(CONNECTING, None, Moved, Moved, Moved, [], now + s.timeout, 0, None);
    if b.tls && s.forwarders != [] {
      var chosen := c.(remote := s.forwarders[0].remote);
      if b.socket.Some? && !InUse(s, b.socket.value) {
        OpenFits(s, chosen, b.socket.value, b.connect);
      } else {
        ClosedFits(s, chosen.(state := CLOSED));
      }
    } else {
      ClosedFits(s, c.(state := CLOSED));
    }
  }

  lemma ClosedFits(s: System, c: Connection)
    requires c.state.CLOSED? && c.socket.None? && c.read == Moved && c.write == Moved && c.exception == Moved
    ensures Fits(s, s.loop, c)
  {
  }

  lemma OpenFits(s: System, c: Connection, h: int, r: Result)
    requires Wired(s) && !InUse(s, h)
    requires c.state.CONNECTING? && c.socket.None? && c.read == Moved && c.write == Moved && c.exception == Moved
    ensures var e := Open(s.loop, |s.conns|, c, h, r);
            && Fits(s, e.loop, e.conn)
            && e.conn.buffer == c.buffer && e.conn.query == c.query && e.conn.deadline == c.deadline
            && (e.conn.socket.Some? ==> e.conn.state.CONNECTING? || e.conn.state.OPEN?)
            && (e.bad ==> e.conn.state.CLOSED?)
  {
    UnusedIsFree(s, h);
    hide Wired, InUse, Open, BoundAt;
    OpenSteps(s.loop, |s.conns|, c, h, r);
    var e := Open(s.loop, |s.conns|, c, h, r);
    if e.conn.state.CLOSED? {
      UntouchedLoop(s.loop, e.loop, h);
    }
  }

  lemma GrowWired(s: System, t: System, c: Connection)
    requires Wired(s) && Fits(s, t.loop, c) && t.conns == s.conns + [c] && t.servers == s.servers
    ensures Wired(t)
  {
    var id := |s.conns|;
    forall i | 0 <= i < |t.conns| ensures Agrees(t.loop, i, t.conns[i]) {
      if i < id {
        assert Agrees(s.loop, i, s.conns[i]);
      }
    }
    forall i | 0 <= i < id && s.conns[i].socket.Some? ensures s.conns[i].socket != c.socket {
    }
    GrowOwned(s, t, c);
  }

  lemma GrowOwned(s: System, t: System, c: Connection)
    requires Wired(s) && Fits(s, t.loop, c) && t.conns == s.conns + [c] && t.servers == s.servers
    ensures Owned(t)
  {
    forall k, cb | OwnedBy(s, k, cb) ensures OwnedBy(t, k, cb) {
      if cb.Bound? {
        assert t.conns[cb.id] == s.conns[cb.id];
      }
    }
  }

  /** `s` with one more connection, which either joins the pool for `q` or is closed. */
  function Grown(s: System, now: int, l: Handlers, c: Connection, q: Query): System {
    s.(loop := l, attempts := s.attempts + [q], conns := s.conns + [c], clock := now,
       pool := if c.state.CLOSED? then s.pool else s.pool + [|s.conns|])
  }

  lemma GrownPool(s: System, now: int, l: Handlers, c: Connection, q: Query)
    requires Pooled(s, {}) && Fired(s, {}) && (c.state.CLOSED? ==> c.query.None?)
    ensures Pooled(Grown(s, now, l, c, q), {}) && Fired(Grown(s, now, l, c, q), {})
  {
    assert |s.conns| !in s.pool;
  }

  lemma GrownReplied(s: System, now: int, l: Handlers, c: Connection, q: Query)
    requires Replied(s)
    ensures Replied(Grown(s, now, l, c, q))
  {
    var t := Grown(s, now, l, c, q);
    forall k | 0 <= k < |t.replies| ensures Answers(t, t.replies[k]) {
      assert Answers(s, s.replies[k]);
    }
  }

  lemma GrownKeeps(s: System, now: int, l: Handlers, c: Connection, q: Query)
    requires Core(s, {}) && s.clock <= now && Fits(s, l, c) && c.deadline == now + s.timeout
    requires if c.state.CLOSED? then c.query.None? else c.query == Some(q) && |s.pool| < s.limit
    ensures Core(Grown(s, now, l, c, q), {}) && Evolves(s, Grown(s, now, l, c, q))
  {
    GrowWired(s, Grown(s, now, l, c, q), c);
    GrownPool(s, now, l, c, q);
    GrownReplied(s, now, l, c, q);
    GrownAttempted(s, now, l, c, q);
    hide Wired, Pooled, Replied, Fired, Fits, Attempted, Evolves;
  }

  lemma GrownAttempted(s: System, now: int, l: Handlers, c: Connection, q: Query)
    requires Attempted(s) && s.clock <= now && 0 <= s.clock && 1 <= s.timeout && c.deadline == now + s.timeout
    requires if c.state.CLOSED? then c.query.None? else c.query == Some(q)
    ensures Attempted(Grown(s, now, l, c, q)) && Evolves(s, Grown(s, now, l, c, q))
  {
  }

  /** The constructor and send: the connection joins the pool exactly when it came out of the constructor open. */
  lemma TryOne(env: Environment, s: System, q: Query)
    requires Core(s, {}) && |s.pool| < s.limit && q.request != []
    ensures var id, made := |s.conns|, Construct(env, s.(attempts := s.attempts + [q]));
            var sent := Send(made.loop, id, made.conns[id], q.request);
            if sent.ok then Core(Join(made, id, sent, q), {}) && Evolves(s, Join(made, id, sent, q))
            else Core(made, {}) && Evolves(s, made) && made.pool == s.pool
  {
    var id := |s.conns|;
    var tried := s.(attempts := s.attempts + [q]);
    var b := env(id);
    var now := Max(s.clock, b.clock);
    var e := Born(tried, now, b);
    TriedWired(s, q);
    hide Core, Evolves, Wired, Fits, Born, Agrees, SameElsewhere, Send;
    BornFits(tried, now, b);
    ConstructGrows(env, s, q);
    FitsParts(tried, e.loop, e.conn);
    SendSteps(e.loop, id, e.conn, q.request);
    var sent := Send(e.loop, id, e.conn, q.request);
    FitsAlike(s, tried, e.loop, e.conn);
    if sent.ok {
      JoinKeeps(s, now, e, sent, q);
    } else {
      FailKeeps(s, now, e, q);
    }
  }

  lemma TriedWired(s: System, q: Query)
    requires Core(s, {})
    ensures Wired(s.(attempts := s.attempts + [q]))
  {
    WiredAlike(s, s.(attempts := s.attempts + [q]));
  }

  lemma FitsParts(s: System, l: Handlers, c: Connection)
    requires Fits(s, l, c)
    ensures Agrees(l, |s.conns|, c) && (c.state.CLOSED? <==> c.socket.None?)
  {
  }

  lemma FitsAlike(s: System, t: System, l: Handlers, c: Connection)
    requires Fits(t, l, c) && t == s.(attempts := t.attempts)
    ensures Fits(s, l, c)
  {
  }

  /** The constructor adds a connection to what is there, and may call setBad. */
  lemma ConstructGrows(env: Environment, s: System, q: Query)
    ensures var tried, b := s.(attempts := s.attempts + [q]), env(|s.conns|);
            var now := Max(s.clock, b.clock);
            var e := Born(tried, now, b);
            && Construct(env, tried)
               == Blame(s.(loop := e.loop, attempts := s.attempts + [q], conns := s.conns + [e.conn], clock := now),
                        |s.conns|, e)
            && Construct(env, tried).conns[|s.conns|] == e.conn && Construct(env, tried).loop == e.loop
            && Construct(env, tried).conns == s.conns + [e.conn]
            && Construct(env, tried).clock == now && Construct(env, tried).timeout == s.timeout
  {
    hide Born;
  }

  lemma JoinKeeps(s: System, now: int, e: Effect, sent: Sent, q: Query)
    requires Core(s, {}) && |s.pool| < s.limit && s.clock <= now
    requires Fits(s, e.loop, e.conn) && e.conn.socket.Some? && e.conn.deadline == now + s.timeout
    requires sent.conn.socket == e.conn.socket && sent.conn.state == e.conn.state && !e.conn.state.CLOSED?
    requires sent.conn.deadline == e.conn.deadline
    requires Agrees(sent.loop, |s.conns|, sent.conn) && SameElsewhere(e.loop, sent.loop, e.conn.socket.value)
    ensures var t := Join(Grown(s, now, e.loop, e.conn, q).(pool := s.pool), |s.conns|, sent, q);
            Core(t, {}) && Evolves(s, t)
  {
    var c := sent.conn.(query := Some(q));
    var t := Join(Grown(s, now, e.loop, e.conn, q).(pool := s.pool), |s.conns|, sent, q);
    assert t.conns == s.conns + [c];
    assert t == Grown(s, now, sent.loop, c, q);
    assert Fits(s, sent.loop, c);
    GrownKeeps(s, now, sent.loop, c, q);
  }

  lemma FailKeeps(s: System, now: int, e: Effect, q: Query)
    requires Core(s, {}) && s.clock <= now
    requires Fits(s, e.loop, e.conn) && e.conn.socket.None? && e.conn.query.None? && e.conn.deadline == now + s.timeout
    ensures var t := Blame(Grown(s, now, e.loop, e.conn, q), |s.conns|, e);
            Core(t, {}) && Evolves(s, t)
  {
    assert e.conn.state.CLOSED?;
    GrownKeeps(s, now, e.loop, e.conn, q);
    BlameKeeps(Grown(s, now, e.loop, e.conn, q), |s.conns|, e);
    EvolvesTransitively(s, Grown(s, now, e.loop, e.conn, q), Blame(Grown(s, now, e.loop, e.conn, q), |s.conns|, e));
  }

  lemma BlameKeeps(s: System, id: nat, e: Effect)
    requires Core(s, {}) && id < |s.conns| && e.conn == s.conns[id] && e.conn.state.CLOSED? && id !in s.blamed
    ensures Core(Blame(s, id, e), {}) && Evolves(s, Blame(s, id, e))
  {
    BlameBlamed(s, id, e);
    OnlyBlamed(s, Blame(s, id, e));
  }

  lemma BlameBlamed(s: System, id: nat, e: Effect)
    requires Blamed(s) && id < |s.conns| && e.conn == s.conns[id] && e.conn.state.CLOSED? && id !in s.blamed
    ensures Blamed(Blame(s, id, e))
  {
    hide AfterFailures, Demoted;
    AfterOneMore(s.configured, s.failures, e.conn.remote);
  }

  lemma OnlyBlamed(s: System, t: System)
    requires Core(s, {}) && t == s.(forwarders := t.forwarders, blamed := t.blamed, failures := t.failures)
    requires Blamed(t) && s.blamed <= t.blamed
    ensures Core(t, {}) && Evolves(s, t)
  {
    hide Replied, Blamed, Wired;
    SameReplies(s, t);
    WiredAlike(s, t);
  }
}
