// What sending makes, exactly: which of the connections made call setBad, which
// forwarder each was for, and which request the one that opens carries.

module Births {
  import opened Bytes
  import opened HandlerMaps
  import opened ForwarderConfigs
  import opened Connections
  import opened Systems
  import opened Reports

  // ------------------------------------------------ who is blamed

  /** A connection made with these answers calls setBad: no socket could be made, or TLS failed at once. */
  predicate Fails(b: Birth, used: set<int>) {
    b.tls && (b.socket.None? || b.socket.value in used || b.connect.Fatal?)
  }

  /** Of connections n to m - 1, those that do, in order. */
  function Failing(env: Environment, used: set<int>, n: nat, m: nat): (ids: seq<nat>)
    requires n <= m
    decreases m - n
  {
    if n == m then [] else (if Fails(env(n), used) then [n] else []) + Failing(env, used, n + 1, m)
  }

  /** Without forwarders none does. */
  function Blaming(env: Environment, fs: seq<Forwarder>, used: set<int>, n: nat, m: nat): seq<nat>
    requires n <= m
  {
    if fs == [] then [] else Failing(env, used, n, m)
  }

  /** The list after `k` failures of whoever is first: each takes the first forwarder to the end. */
  function Turned(fs: seq<Forwarder>, k: nat): (r: seq<Forwarder>)
    ensures |r| == |fs|
    decreases k
  {
    if fs == [] || k == 0 then fs else Turned(fs[1..] + [fs[0]], k - 1)
  }

  /** Their remotes. */
  function FirstRemotes(fs: seq<Forwarder>, k: nat): (r: seq<Address>)
    decreases k
  {
    if fs == [] || k == 0 then [] else [fs[0].remote] + FirstRemotes(fs[1..] + [fs[0]], k - 1)
  }

  /** Whom connection `i` is for, when connections from `n` on are made. */
  function Chosen(env: Environment, fs: seq<Forwarder>, used: set<int>, n: nat, i: nat): Address
    requires n <= i
  {
    if fs == [] || !env(i).tls then 0 else Turned(fs, |Failing(env, used, n, i)|)[0].remote
  }

  /** From `s` to `t`, exactly the connections that fail called setBad, each on the forwarder that was first then. */
  ghost predicate Charged(env: Environment, s: System, used: set<int>, t: System) {
    && |s.conns| <= |t.conns|
    && var bad := Blaming(env, s.forwarders, used, |s.conns|, |t.conns|);
       && t.blamed == s.blamed + bad
       && t.failures == s.failures + FirstRemotes(s.forwarders, |bad|)
       && t.forwarders == Turned(s.forwarders, |bad|)
       && forall i :: |s.conns| <= i < |t.conns| ==>
            t.conns[i].remote == Chosen(env, s.forwarders, used, |s.conns|, i)
  }

  /**
   * The constructor calls setBad exactly when there is TLS and a forwarder, and
   * either no unused handle comes back or the first TLS connect is fatal.
   */
  lemma ConstructBlames(env: Environment, s: System)
    ensures var n, t := |s.conns|, Construct(env, s);
            var bad := s.forwarders != [] && Fails(env(n), OpenHandles(s));
            && t.blamed == s.blamed + (if bad then [n] else [])
            && t.failures == s.failures + (if bad then [s.forwarders[0].remote] else [])
            && t.forwarders == (if bad then s.forwarders[1..] + [s.forwarders[0]] else s.forwarders)
            && t.conns[n].remote == (if env(n).tls && s.forwarders != [] then s.forwarders[0].remote else 0)
  {
    var b := env(|s.conns|);
    if b.socket.Some? {
      InUseIsOpen(s, b.socket.value);
    }
  }

  /** The first of the connections made, and then the others. */
  lemma ChargedNext(env: Environment, s: System, used: set<int>, made: System, t: System)
    requires |made.conns| == |s.conns| + 1 && made.conns <= t.conns
    requires Charged(env, s, used, made) && Charged(env, made, used, t)
    ensures Charged(env, s, used, t)
  {
    var n := |s.conns|;
    forall i: nat | n < i
      ensures Failing(env, used, n, i) == Failing(env, used, n, n + 1) + Failing(env, used, n + 1, i)
    {
    }
    forall i | n <= i < |t.conns| ensures t.conns[i].remote == Chosen(env, s.forwarders, used, n, i) {
      if i > n {
        assert t.conns[i].remote == Chosen(env, made.forwarders, used, n + 1, i);
      } else {
        assert t.conns[i] == made.conns[i];
      }
    }
  }

  lemma OneCharged(env: Environment, s: System, t: System)
    requires t == Construct(env, s)
    ensures Charged(env, s, OpenHandles(s), t)
  {
    ConstructBlames(env, s);
    hide OpenHandles, Fails;
    var n := |s.conns|;
    assert Failing(env, OpenHandles(s), n, n + 1)
        == (if Fails(env(n), OpenHandles(s)) then [n] else []) + Failing(env, OpenHandles(s), n + 1, n + 1);
  }

  lemma JoinedCharged(env: Environment, s: System, used: set<int>, made: System, id: nat, sent: Sent, q: Query)
    requires Charged(env, s, used, made) && id < |made.conns| && sent.conn.remote == made.conns[id].remote
    ensures Charged(env, s, used, Join(made, id, sent, q))
  {
    hide Blaming, Turned, FirstRemotes, Chosen;
  }

  lemma {:induction false} SendRequestCharges(env: Environment, s: System, q: Query)
    ensures Charged(env, s, OpenHandles(s), SendRequest(env, s, q))
    decreases |s.queue|, 1
  {
    hide Construct, Send, Opens, OpenHandles, Charged;
    var n, tried := |s.conns|, s.(attempts := s.attempts + [q]);
    var made := Construct(env, tried);
    TriedOne(env, tried, q.request);
    SameHandles(s, tried);
    OneCharged(env, tried, made);
    ChargedAlike(env, s, tried, OpenHandles(s), made);
    var sent := Send(made.loop, n, made.conns[n], q.request);
    if sent.ok {
      SentAs(made.loop, n, made.conns[n], q.request);
      JoinedCharged(env, s, OpenHandles(s), made, n, sent, q);
    } else {
      SameHandles(s, made);
      DequeueCharges(env, made);
      DequeueMakes(env, made);
      ChargedNext(env, s, OpenHandles(s), made, Dequeue(env, made));
    }
  }

  /** Sending leaves a connection as it is, but for what it waits to write. */
  lemma SentAs(l: Handlers, id: nat, c: Connection, data: seq<byte>)
    ensures var sent := Send(l, id, c, data);
            sent.ok ==> sent.conn == c.(buffer := data, write := sent.conn.write)
  {
  }

  lemma ChargedAlike(env: Environment, s: System, u: System, used: set<int>, t: System)
    requires Charged(env, u, used, t) && u == s.(arrivals := u.arrivals, attempts := u.attempts, queue := u.queue)
    ensures Charged(env, s, used, t)
  {
  }

  lemma {:induction false} DequeueCharges(env: Environment, s: System)
    ensures Charged(env, s, OpenHandles(s), Dequeue(env, s))
    decreases |s.queue|, 0
  {
    hide Charged;
    if s.queue != [] {
      var t := s.(queue := s.queue[1..]);
      SameHandles(s, t);
      SendRequestCharges(env, t, s.queue[0]);
      ChargedAlike(env, s, t, OpenHandles(s), Dequeue(env, s));
    } else {
      NoneCharged(env, s, OpenHandles(s));
    }
  }

  lemma NoneCharged(env: Environment, s: System, used: set<int>)
    ensures Charged(env, s, used, s)
  {
  }

  // ------------------------------------------------ who carries what

  /** The record but for what sending changes. */
  ghost predicate SameRecord(s: System, t: System) {
    && t.servers == s.servers && t.configured == s.configured && t.timeout == s.timeout && t.limit == s.limit
    && t.arrivals == s.arrivals && t.replies == s.replies && t.fired == s.fired
  }

  /**
   * From `s` to `t`, the first requests of `todo` were tried, one for each
   * connection made, and the others wait. The connection that opens is in the
   * pool and carries its request; the others carry nothing.
   */
  ghost predicate Carried(env: Environment, s: System, used: set<int>, todo: seq<Query>, t: System) {
    var n, f := |s.conns|, Opening(env, s, used, |todo|);
    && n <= |t.conns| <= n + |todo| && SameRecord(s, t)
    && t.attempts == s.attempts + todo[..|t.conns| - n] && t.queue == todo[|t.conns| - n..]
    && t.pool == s.pool + (if f < n + |todo| then [f] else [])
    && forall i :: n <= i < |t.conns| ==>
         if i == f then t.conns[i].buffer == todo[i - n].request && t.conns[i].query == Some(todo[i - n])
         else t.conns[i].buffer == [] && t.conns[i].query == None
  }

  /** One attempt. */
  lemma TriedCarries(env: Environment, s: System, q: Query)
    ensures var n, made := |s.conns|, Construct(env, s.(attempts := s.attempts + [q]));
            && SameRecord(s, made) && made.pool == s.pool && made.queue == s.queue
            && made.attempts == s.attempts + [q]
            && made.conns[n].buffer == [] && made.conns[n].query == None
  {
  }

  lemma {:induction false} SendRequestCarries(env: Environment, s: System, q: Query)
    ensures Carried(env, s, OpenHandles(s), [q] + s.queue, SendRequest(env, s, q))
    decreases |s.queue|, 1
  {
    hide Construct, Send, Opens, OpenHandles, SameRecord;
    var n, tried := |s.conns|, s.(attempts := s.attempts + [q]);
    var made := Construct(env, tried);
    TriedOne(env, tried, q.request);
    TriedCarries(env, s, q);
    SameHandles(s, tried);
    SentAs(made.loop, n, made.conns[n], q.request);
    if Send(made.loop, n, made.conns[n], q.request).ok {
      JoinedRecord(s, made, n, Send(made.loop, n, made.conns[n], q.request), q);
    } else {
      SameHandles(s, made);
      DequeueCarries(env, made);
      DequeueMakes(env, made);
      CarriedNext(env, s, OpenHandles(s), q, made, Dequeue(env, made));
    }
  }

  lemma JoinedRecord(s: System, made: System, id: nat, sent: Sent, q: Query)
    requires SameRecord(s, made) && id < |made.conns|
    ensures SameRecord(s, Join(made, id, sent, q))
  {
  }

  /** One attempt that failed, and then the others. */
  lemma CarriedNext(env: Environment, s: System, used: set<int>, q: Query, made: System, t: System)
    requires |made.conns| == |s.conns| + 1 && made.conns <= t.conns && |made.forwarders| == |s.forwarders|
    requires SameRecord(s, made) && made.attempts == s.attempts + [q] && made.pool == s.pool && made.queue == s.queue
    requires made.conns[|s.conns|].buffer == [] && made.conns[|s.conns|].query == None
    requires s.forwarders == [] || !Opens(env(|s.conns|), used)
    requires Carried(env, made, used, s.queue, t)
    ensures Carried(env, s, used, [q] + s.queue, t)
  {
    var n, todo := |s.conns|, [q] + s.queue;
    assert Opening(env, s, used, |todo|) == Opening(env, made, used, |s.queue|);
    assert todo[..|t.conns| - n] == [q] + s.queue[..|t.conns| - n - 1];
    hide Opening, Opens;
    forall i | n <= i < |t.conns|
      ensures if i == Opening(env, s, used, |todo|) then
                t.conns[i].buffer == todo[i - n].request && t.conns[i].query == Some(todo[i - n])
              else t.conns[i].buffer == [] && t.conns[i].query == None
    {
      if i == n {
        assert t.conns[i] == made.conns[i];
      } else {
        assert todo[i - n] == s.queue[i - n - 1];
      }
    }
  }

  lemma {:induction false} DequeueCarries(env: Environment, s: System)
    ensures Carried(env, s, OpenHandles(s), s.queue, Dequeue(env, s))
    decreases |s.queue|, 0
  {
    hide Carried;
    if s.queue != [] {
      var t := s.(queue := s.queue[1..]);
      SameHandles(s, t);
      SendRequestCarries(env, t, s.queue[0]);
      assert [s.queue[0]] + t.queue == s.queue;
      CarriedAlike(env, s, t, OpenHandles(s), s.queue, Dequeue(env, s));
    } else {
      NoneCarried(env, s, OpenHandles(s));
    }
  }

  lemma CarriedAlike(env: Environment, s: System, u: System, used: set<int>, todo: seq<Query>, t: System)
    requires Carried(env, u, used, todo, t) && u == s.(queue := u.queue)
    ensures Carried(env, s, used, todo, t)
  {
  }

  lemma NoneCarried(env: Environment, s: System, used: set<int>)
    requires s.queue == []
    ensures Carried(env, s, used, [], s)
  {
  }
}
