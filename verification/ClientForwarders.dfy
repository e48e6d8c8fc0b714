// The pool and the queue of src/client_forwarders.cpp, with every connection it
// made, against what Systems says each member does to the whole.

module ClientForwarding {
  import opened Bytes
  import opened HandlerMaps
  import opened ForwarderConfigs
  import opened Connections
  import opened Loops
  import opened ForwarderConnections
  import Runs
  import S = Systems
  import D = DnsPackets
  import R = Rewrite
  import W = Walk

  ghost function Values(cs: seq<ForwarderConnection>): (vs: seq<Connection>)
    reads cs
    ensures |vs| == |cs| && forall i :: 0 <= i < |cs| ==> vs[i] == cs[i].Value()
  {
    seq(|cs|, i requires 0 <= i < |cs| reads cs => cs[i].Value())
  }

  /** Each reply went out as the rewritten packet of its forwarder. */
  ghost predicate Relayed(datagrams: seq<seq<byte>>, replies: seq<S.Reply>) {
    && |datagrams| == |replies|
    && forall k :: 0 <= k < |replies| ==>
         var p := replies[k].data;
         R.Safe(p) && W.HasHeader(p) && datagrams[k] == R.Datagram(p)
  }

  lemma BornCreates(s: S.System, now: int, b: S.Birth)
    ensures S.Born(s, now, b)
            == Create(s.loop, |s.conns|, s.forwarders, now + s.timeout, b.tls, S.Handle(s, b), b.connect)
  {
  }

  lemma BlameParts(s: S.System, id: nat, e: Effect)
    ensures S.Blame(s, id, e)
            == s.(forwarders := Failover(s.forwarders, e), blamed := s.blamed + (if e.bad then [id] else []),
                  failures := s.failures + (if e.bad then [e.conn.remote] else []))
  {
  }

  lemma SendRefused(l: Handlers, id: nat, c: Connection, data: seq<byte>)
    ensures !Connections.Send(l, id, c, data).ok ==> Connections.Send(l, id, c, data) == Sent(false, l, c)
  {
  }

  /** What comes of one attempt, by what the connection says to the request. */
  lemma SendRequestParts(env: S.Environment, s: S.System, q: Query)
    ensures var made, id := S.Construct(env, s.(attempts := s.attempts + [q])), |s.conns|;
            var sent := Connections.Send(made.loop, id, made.conns[id], q.request);
            S.SendRequest(env, s, q) == if sent.ok then S.Join(made, id, sent, q) else S.Dequeue(env, made)
  {
    hide S.Construct, S.Dequeue, S.Join;
  }

  lemma JoinParts(made: S.System, s: S.System, id: nat, sent: Sent, q: Query)
    requires id < |made.conns| && s == made.(loop := sent.loop, conns := made.conns[id := sent.conn])
    ensures S.Join(made, id, sent, q)
            == s.(pool := s.pool + [id], conns := s.conns[id := s.conns[id].(query := Some(q))])
  {
  }

  /**
   * `conns` are the connections by number, which is how callbacks know them;
   * `pool` are the numbers of those in m_forwarders. The ghost fields record
   * the run.
   */
  class ClientForwarders {
    const loop: Loop
    const config: ForwarderConfig
    const limit: nat
    const env: S.Environment
    var servers: set<int> // the handles of the listening sockets
    var conns: seq<ForwarderConnection>
    var pool: seq<nat>
    var queue: seq<Query>
    var clock: int
    var datagrams: seq<seq<byte>> // what was sent to clients
    ghost var repr: set<ForwarderConnection> // the connections, as objects
    ghost const configured: seq<Forwarder>
    ghost var arrivals: seq<Query>
    ghost var attempts: seq<Query>
    ghost var replies: seq<S.Reply>
    ghost var blamed: seq<nat>
    ghost var failures: seq<Address>
    ghost var fired: seq<nat>

    ghost predicate Valid()
      reads this
    {
      && (forall i :: 0 <= i < |conns| ==>
            conns[i] in repr && conns[i].id == i && conns[i].loop == loop && conns[i].config == config)
      && Relayed(datagrams, replies)
    }

    ghost function Value(): S.System
      reads this, loop, config, conns
    {
      S.System(loop.Value(), servers, configured, config.forwarders, config.timeout, limit,
               Values(conns), pool, queue, clock, arrivals, attempts, replies, blamed, failures, fired)
    }

    /** `configured` are the forwarders that the configuration is about to get. */
    constructor (loop: Loop, config: ForwarderConfig, limit: nat, env: S.Environment, clock: int,
                 ghost configured: seq<Forwarder>)
      ensures Valid() && this.loop == loop && this.config == config && this.env == env && repr == {} && conns == []
      ensures Value() == S.System(loop.Value(), {}, configured, config.forwarders, config.timeout, limit,
                                  [], [], [], clock, [], [], [], [], [], [])
    {
      this.loop, this.config, this.limit, this.env, this.clock := loop, config, limit, env, clock;
      this.configured, servers := configured, {};
      conns, pool, queue, datagrams, repr := [], [], [], [], {};
      arrivals, attempts, replies, blamed, failures, fired := [], [], [], [], [], [];
    }

    /** Whether a handle is one of an open socket: the kernel's side of Socket::connect. */
    method IsOpen(h: int) returns (open: bool)
      requires Valid()
      ensures open == S.InUse(Value(), h)
    {
      open := h in servers;
      var i := 0;
      while i < |conns| && !open
        invariant i <= |conns|
        invariant open ==> S.InUse(Value(), h)
        invariant !open ==> h !in servers && forall k :: 0 <= k < i ==> conns[k].socket != Some(h)
      {
        if conns[i].socket == Some(h) {
          assert Value().conns[i].socket == Some(h);
          open := true;
        }
        i := i + 1;
      }
    }

    method ConnectSocket(b: S.Birth) returns (handle: Option<int>)
      requires Valid()
      ensures Valid() && Value() == old(Value()) && handle == S.Handle(Value(), b)
    {
      handle := b.socket;
      if handle.Some? {
        var open := IsOpen(handle.value);
        if open {
          handle := None;
        }
      }
    }

    /** Notes who called setBad, and on which forwarder. */
    ghost method Record(id: nat, e: Effect)
      requires Valid()
      modifies this
      ensures Valid() && conns == old(conns) && repr == old(repr)
      ensures Value() == old(Value()).(blamed := old(blamed) + (if e.bad then [id] else []),
                                       failures := old(failures) + (if e.bad then [e.conn.remote] else []))
    {
      hide Values, Relayed;
      if e.bad {
        blamed := blamed + [id];
        failures := failures + [e.conn.remote];
      }
    }

    /** What the constructor notes of itself: the clock it read, and its call of setBad. */
    method Begin(now: int, id: nat, ghost e: Effect)
      requires Valid()
      modifies this
      ensures Valid() && conns == old(conns) && repr == old(repr)
      ensures Value() == old(Value()).(clock := now,
                                       blamed := old(blamed) + (if e.bad then [id] else []),
                                       failures := old(failures) + (if e.bad then [e.conn.remote] else []))
    {
      hide Values, Relayed;
      clock := now;
      Record(id, e);
    }

    /** make_shared<ForwarderConnection> */
    method Construct() returns (connection: ForwarderConnection)
      requires Valid()
      modifies this, loop, config`forwarders
      ensures Valid() && conns == old(conns) + [connection] && repr == old(repr) + {connection} && fresh(connection)
      ensures connection.id == |old(conns)| && connection.loop == loop && connection.config == config
      ensures Value() == S.Construct(env, old(Value()))
    {
      hide Values, Relayed, S.Born, Create, S.InUse, S.Handle, S.Blame, Failover;
      ghost var s := Value();
      var b := env(|conns|);
      var handle := ConnectSocket(b);
      var now := if clock < b.clock then b.clock else clock;
      ghost var e := S.Born(s, now, b);
      BornCreates(s, now, b);
      BlameParts(s.(loop := e.loop, conns := s.conns + [e.conn], clock := now), |s.conns|, e);
      Begin(now, |conns|, e);
      connection := Make(now, handle, b, e);
    }

    method Make(now: int, handle: Option<int>, b: S.Birth, ghost e: Effect) returns (connection: ForwarderConnection)
      requires Valid()
      requires e == Create(loop.Value(), |conns|, config.forwarders, now + config.timeout, b.tls, handle, b.connect)
      modifies this, loop, config`forwarders
      ensures Valid() && conns == old(conns) + [connection] && repr == old(repr) + {connection} && fresh(connection)
      ensures connection.id == |old(conns)| && connection.loop == loop && connection.config == config
      ensures Value() == old(Value()).(loop := e.loop, conns := old(Value()).conns + [e.conn],
                                       forwarders := Failover(old(Value()).forwarders, e))
    {
      hide Values, Relayed, Create, Demoted;
      ghost var vs := Values(conns);
      connection := new ForwarderConnection(|conns|, loop, config, now, b.tls, handle, b.connect, e);
      conns, repr := conns + [connection], repr + {connection};
      assert Values(conns) == vs + [e.conn];
    }

    /** Sets the callbacks, which capture where the reply goes, and saves the connection. */
    method Join(connection: ForwarderConnection, q: Query)
      requires Valid() && |conns| > 0 && connection == conns[|conns| - 1]
      modifies this, connection
      ensures Valid() && conns == old(conns) && repr == old(repr)
      ensures var s, id := old(Value()), |conns| - 1;
              Value() == s.(pool := s.pool + [id], conns := s.conns[id := s.conns[id].(query := Some(q))])
    {
      hide Values, Relayed;
      ghost var vs := Values(conns);
      connection.query := Some(q);
      pool := pool + [|conns| - 1];
      assert Values(conns) == vs[|conns| - 1 := connection.Value()];
    }

    /** A connection made and given the request: the state if it was taken, and if not. */
    method MakeAndSend(q: Query) returns (connection: ForwarderConnection, ok: bool)
      requires Valid()
      modifies this, loop, config`forwarders
      ensures Valid() && conns == old(conns) + [connection] && repr == old(repr) + {connection} && fresh(connection)
      ensures var s := old(Value());
              var made := S.Construct(env, s.(attempts := s.attempts + [q]));
              var sent := Connections.Send(made.loop, |old(conns)|, made.conns[|old(conns)|], q.request);
              && ok == sent.ok
              && (ok ==> Value() == made.(loop := sent.loop, conns := made.conns[|old(conns)| := sent.conn]))
              && (!ok ==> Value() == made)
    {
      hide Values, Relayed, Connections.Send, S.Construct;
      attempts := attempts + [q];
      connection := Construct();
      ghost var made, id := Value(), |conns| - 1;
      SendRefused(made.loop, id, made.conns[id], q.request);
      ok := connection.Send(q.request);
      assert Values(conns) == made.conns[id := connection.Value()];
    }

    method SendRequest(q: Query)
      requires Valid()
      modifies this, loop, config`forwarders
      ensures Valid() && forall c :: c in repr && c !in old(repr) ==> fresh(c)
      ensures Value() == S.SendRequest(env, old(Value()), q)
      decreases |queue|, 1
    {
      hide Values, Relayed, Connections.Send, S.Construct, S.Dequeue, S.SendRequest, S.Join;
      ghost var s, id := Value(), |conns|;
      SendRequestParts(env, s, q);
      ghost var made := S.Construct(env, s.(attempts := s.attempts + [q]));
      ghost var sent := Connections.Send(made.loop, id, made.conns[id], q.request);
      var connection, ok := MakeAndSend(q);
      if ok {
        JoinParts(made, Value(), id, sent, q);
        Join(connection, q);
      } else {
        Dequeue();
      }
    }

    method Dequeue()
      requires Valid()
      modifies this, loop, config`forwarders
      ensures Valid() && forall c :: c in repr && c !in old(repr) ==> fresh(c)
      ensures Value() == S.Dequeue(env, old(Value()))
      decreases |queue|, 0
    {
      hide Values, Relayed, S.SendRequest;
      if queue != [] {
        var front := queue[0];
        queue := queue[1..];
        SendRequest(front);
      }
    }

    method HandleRequest(q: Query)
      requires Valid()
      modifies this, loop, config`forwarders
      ensures Valid() && forall c :: c in repr && c !in old(repr) ==> fresh(c)
      ensures Value() == S.HandleRequest(env, old(Value()), q)
    {
      hide Values, Relayed, S.SendRequest;
      arrivals := arrivals + [q];
      if |pool| < limit {
        SendRequest(q);
      } else {
        queue := queue + [q];
      }
    }

    method HandleShutdown(id: nat)
      requires Valid()
      modifies this, loop, config`forwarders
      ensures Valid() && forall c :: c in repr && c !in old(repr) ==> fresh(c)
      ensures Value() == S.HandleShutdown(env, old(Value()), id)
    {
      hide Values, Relayed, S.Dequeue;
      fired := fired + [id];
      var it := 0;
      while it != |pool|
        invariant it <= S.IndexOf(pool, id) && pool == old(pool)
        invariant Value() == old(Value()).(fired := old(fired) + [id]) && Valid() && repr == old(repr)
        decreases |pool| - it
      {
        if pool[it] == id {
          pool := pool[..it] + pool[it + 1..];
          break;
        }
        it := it + 1;
      }
      Dequeue();
    }

    /** What is sent of a packet, unless it is invalid. */
    static method Stripped(data: seq<byte>) returns (valid: bool, datagram: seq<byte>)
      requires R.Safe(data)
      ensures valid == W.HasHeader(data) && (valid ==> datagram == R.Datagram(data))
    {
      hide R.Safe, W.HasHeader, R.Rewritten;
      var packet := new D.DnsPacket(data);
      valid := packet.HasHeader();
      datagram := [];
      if valid {
        var found := packet.RemoveEdnsPadding();
        R.RewrittenHasHeader(data);
        datagram := packet.Datagram();
      }
    }

    /** Discards an invalid packet, and sends on any other without its padding. */
    method HandleIncoming(id: nat, q: Query, data: seq<byte>)
      requires Valid() && R.Safe(data)
      modifies this`datagrams, this`replies
      ensures Valid() && Value() == S.HandleIncoming(old(Value()), id, q, data)
    {
      hide R.Safe, W.HasHeader, R.Datagram, Values;
      var valid, datagram := Stripped(data);
      if valid {
        datagrams := datagrams + [datagram];
        replies := replies + [S.Reply(id, q.socket, q.client, q.server, q.interface, data)];
      }
    }

    /** m_shutdown, when it is due after a member of connection `id` ran. */
    method Finish(id: nat, due: bool, ghost s: S.System, ghost e: Effect)
      requires Valid() && id < |s.conns| && due == e.due
      requires Value() == s.(loop := e.loop, conns := s.conns[id := e.conn], forwarders := Failover(s.forwarders, e))
      modifies this, loop, config`forwarders
      ensures Valid() && forall c :: c in repr && c !in old(repr) ==> fresh(c)
      ensures Value() == S.Finish(env, s, id, e)
    {
      Record(id, e);
      assert Value() == S.Settle(s, id, e);
      if due {
        HandleShutdown(id);
      }
    }

    /** The callback that sendRequest set for incoming data: reply, then shut down. */
    method OnIncoming(id: nat, data: seq<byte>, goodbye: Result)
      requires Valid() && R.Safe(data) && id < |conns| && conns[id].query.Some?
      requires conns[id].state == CONNECTING || conns[id].state == OPEN ==> conns[id].socket.Some?
      modifies this, loop, config`forwarders, repr
      ensures Valid() && forall c :: c in repr && c !in old(repr) ==> fresh(c)
      ensures var s := old(Value());
              var c := s.conns[id];
              Value() == S.Finish(env, S.HandleIncoming(s, id, c.query.value, data), id,
                                  Shutdown(s.loop, id, c, goodbye))
    {
      hide Values, Relayed, R.Safe, W.HasHeader, S.Finish, Connections.Shutdown, S.HandleIncoming;
      HandleIncoming(id, conns[id].query.value, data);
      ghost var s := Value();
      ghost var e := Shutdown(s.loop, id, s.conns[id], goodbye);
      var due := conns[id].Shutdown(goodbye);
      assert Values(conns) == s.conns[id := e.conn];
      Finish(id, due, s, e);
    }

    /** A member runs, up to its m_shutdown. */
    method Call(id: nat, a: Action, o: S.Outcome) returns (due: bool)
      requires Valid() && S.Ready(Value(), id, a)
      requires !(a.Receive? && o.result.Success? && o.data != [] && conns[id].query.Some?)
      modifies this, loop, config`forwarders, repr
      ensures Valid() && repr == old(repr)
      ensures var s, e := old(Value()), Runs.Effected(old(Value()), id, a, o);
              && due == e.due
              && Value() == s.(loop := e.loop, conns := s.conns[id := e.conn], forwarders := Failover(s.forwarders, e))
    {
      hide Values, Relayed, Connect, Incoming, Outgoing, SayGoodbye, Except, Shutdown, Failover;
      ghost var s, e := Value(), Runs.Effected(Value(), id, a, o);
      match a {
        case Handshake => due := conns[id].Connect(o.result);
        case Receive => due := conns[id].Incoming(o.result);
        case Transmit => due := conns[id].Outgoing(o.result);
        case Goodbye => due := conns[id].SayGoodbye(o.result);
        case Abort => due := conns[id].Except();
      }
      assert Values(conns) == s.conns[id := e.conn];
    }

    /** The members that callbacks are bound to. */
    method Act(id: nat, a: Action, o: S.Outcome)
      requires Valid() && S.Ready(Value(), id, a) && R.Safe(o.data)
      modifies this, loop, config`forwarders, repr
      ensures Valid() && forall c :: c in repr && c !in old(repr) ==> fresh(c)
      ensures Value() == S.Act(env, old(Value()), id, a, o)
    {
      hide Values, Relayed, R.Safe, S.Finish, S.Act, S.HandleIncoming, Failover, Shutdown;
      ghost var s := Value();
      Runs.ActFinishes(env, s, id, a, o);
      if a.Receive? && o.result.Success? && o.data != [] && conns[id].query.Some? {
        OnIncoming(id, o.data, o.goodbye);
      } else {
        var due := Call(id, a, o);
        Finish(id, due, s, Runs.Effected(s, id, a, o));
      }
    }

    /** Calling a callback. */
    method Invoke(cb: Callback, o: S.Outcome)
      requires Valid() && R.Safe(o.data)
      requires cb.Bound? ==> S.Ready(Value(), cb.id, cb.action)
      modifies this, loop, config`forwarders, repr
      ensures Valid() && forall c :: c in repr && c !in old(repr) ==> fresh(c)
      ensures Value() == S.Invoke(env, old(Value()), cb, o)
    {
      match cb
      case Serve =>
        if o.request.Some? {
          HandleRequest(o.request.value);
        }
      case Bound(id, a) => Act(id, a, o);
    }
  }
}
