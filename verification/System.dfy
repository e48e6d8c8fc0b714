// The forwarder as a whole: the loop, the connections, the pool and the queue
// (src/client_forwarders.cpp), and how an event runs through them.

module Systems {
  import opened Bytes
  import opened HandlerMaps
  import opened ForwarderConfigs
  import opened Connections
  import W = Walk

  /** What the environment answers while connection number n is made. */
  datatype Birth = Birth(clock: int, tls: bool, socket: Option<int>, connect: Result)

  type Environment = nat -> Birth

  /** A reply handed to the client's socket: for which request, to whom, and what the forwarder sent. */
  datatype Reply = Reply(id: nat, socket: int, client: Address, server: Address, interface: int, data: seq<byte>)

  /**
   * `conns` are all connections ever made, by number. The rest of the last lines
   * is a record of the run: the requests that arrived and those tried, the
   * replies, who called setBad and on which forwarder, whose m_shutdown fired.
   */
  datatype System = System(
    loop: Handlers, servers: set<int>,
    configured: seq<Forwarder>, forwarders: seq<Forwarder>, timeout: nat, limit: nat,
    conns: seq<Connection>, pool: seq<nat>, queue: seq<Query>, clock: int,
    arrivals: seq<Query>, attempts: seq<Query>, replies: seq<Reply>,
    blamed: seq<nat>, failures: seq<Address>, fired: seq<nat>)

  function Max(a: int, b: int): int {
    if a < b then b else a
  }

  /** The kernel never hands out a handle that is still open. */
  predicate InUse(s: System, h: int) {
    h in s.servers || exists i :: 0 <= i < |s.conns| && s.conns[i].socket == Some(h)
  }

  /** setBad, when a member called it. */
  function Blame(s: System, id: nat, e: Effect): System {
    if e.bad then
      s.(forwarders := Failover(s.forwarders, e), blamed := s.blamed + [id], failures := s.failures + [e.conn.remote])
    else s
  }

  /** The handle Socket::connect comes back with. An answer no kernel gives counts as none. */
  function Handle(s: System, b: Birth): Option<int> {
    if b.socket.Some? && !InUse(s, b.socket.value) then b.socket else None
  }

  /** Connection number |conns| as its constructor leaves it. */
  function Born(s: System, now: int, b: Birth): Effect {
    Create(s.loop, |s.conns|, s.forwarders, now + s.timeout, b.tls, Handle(s, b), b.connect)
  }

  /** The constructor, with the clock it read. */
  function Construct(env: Environment, s: System): (made: System)
    ensures |made.conns| == |s.conns| + 1 && made.queue == s.queue
  {
    var b := env(|s.conns|);
    var now := Max(s.clock, b.clock);
    var e := Born(s, now, b);
    Blame(s.(loop := e.loop, conns := s.conns + [e.conn], clock := now), |s.conns|, e)
  }

  /** The callbacks are set and the connection joins the pool. */
  function Join(s: System, id: nat, sent: Sent, q: Query): System
    requires id < |s.conns|
  {
    s.(loop := sent.loop, conns := s.conns[id := sent.conn.(query := Some(q))], pool := s.pool + [id])
  }

  function SendRequest(env: Environment, s: System, q: Query): System
    decreases |s.queue|, 1
  {
    var made := Construct(env, s.(attempts := s.attempts + [q]));
    var id := |s.conns|;
    var sent := Send(made.loop, id, made.conns[id], q.request);
    if sent.ok then Join(made, id, sent, q) else Dequeue(env, made)
  }

  function Dequeue(env: Environment, s: System): System
    decreases |s.queue|, 0
  {
    if s.queue == [] then s else SendRequest(env, s.(queue := s.queue[1..]), s.queue[0])
  }

  function HandleRequest(env: Environment, s: System, q: Query): System {
    var t := s.(arrivals := s.arrivals + [q]);
    if |s.pool| < s.limit then SendRequest(env, t, q) else t.(queue := s.queue + [q])
  }

  function IndexOf(pool: seq<nat>, id: nat): (i: nat)
    ensures i <= |pool|
    ensures forall k :: 0 <= k < i ==> pool[k] != id
    ensures i < |pool| ==> pool[i] == id
  {
    if pool == [] || pool[0] == id then 0 else 1 + IndexOf(pool[1..], id)
  }

  function Erased(pool: seq<nat>, id: nat): seq<nat> {
    var i := IndexOf(pool, id);
    if i == |pool| then pool else pool[..i] + pool[i + 1..]
  }

  function HandleShutdown(env: Environment, s: System, id: nat): System {
    Dequeue(env, s.(pool := Erased(s.pool, id), fired := s.fired + [id]))
  }

  /** A member ran on connection `id`, up to the call of m_shutdown that is always last. */
  function Settle(s: System, id: nat, e: Effect): System
    requires id < |s.conns|
  {
    Blame(s.(loop := e.loop, conns := s.conns[id := e.conn]), id, e)
  }

  function Finish(env: Environment, s: System, id: nat, e: Effect): System
    requires id < |s.conns|
  {
    if e.due then HandleShutdown(env, Settle(s, id, e), id) else Settle(s, id, e)
  }

  /** handleIncoming: an invalid packet is discarded. */
  function HandleIncoming(s: System, id: nat, q: Query, data: seq<byte>): System {
    if W.HasHeader(data) then
      s.(replies := s.replies + [Reply(id, q.socket, q.client, q.server, q.interface, data)])
    else s
  }

  /** The environment's side of a dispatched event. */
  datatype Outcome = Outcome(result: Result, data: seq<byte>, goodbye: Result, request: Option<Query>)

  /** What a member of a connection needs to be called on it. */
  predicate Ready(s: System, id: nat, a: Action) {
    && id < |s.conns|
    && (a.Handshake? || a.Goodbye? ==> s.conns[id].socket.Some?)
    && (a.Receive? ==> s.conns[id].socket.Some?)
  }

  function Act(env: Environment, s: System, id: nat, a: Action, o: Outcome): System
    requires Ready(s, id, a)
  {
    var c := s.conns[id];
    match a
    case Handshake => Finish(env, s, id, Connect(s.loop, id, c, o.result))
    case Receive =>
      if o.result.Success? && o.data != [] && c.query.Some? then
        Finish(env, HandleIncoming(s, id, c.query.value, o.data), id, Shutdown(s.loop, id, c, o.goodbye))
      else Finish(env, s, id, Incoming(s.loop, c, o.result))
    case Transmit => Finish(env, s, id, Outgoing(s.loop, c, o.result))
    case Goodbye => Finish(env, s, id, SayGoodbye(s.loop, id, c, o.result))
    case Abort => Finish(env, s, id, Except(s.loop, c))
  }

  function Invoke(env: Environment, s: System, cb: Callback, o: Outcome): System
    requires cb.Bound? ==> Ready(s, cb.id, cb.action)
  {
    match cb
    case Serve => if o.request.Some? then HandleRequest(env, s, o.request.value) else s
    case Bound(id, a) => Act(env, s, id, a, o)
  }
}
