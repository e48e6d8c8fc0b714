// One connection to a forwarder: what each member of src/forwarder_connection.cpp
// does to the connection and to the loop.

module Connections {
  import opened Bytes
  import opened HandlerMaps
  import opened ForwarderConfigs

  datatype Option<T> = None | Some(value: T)

  /** What a TLS operation reports; `Hangup` is the source's CLOSED. */
  datatype Result = NeedRead | NeedWrite | Success | Hangup | Fatal

  datatype State = CONNECTING | OPEN | SHUTTING_DOWN | CLOSED {
    function Rank(): nat {
      match this
      case CONNECTING => 0
      case OPEN => 1
      case SHUTTING_DOWN => 2
      case CLOSED => 3
    }
  }

  /** A request, and where its reply goes. */
  datatype Query = Query(socket: int, client: Address, server: Address, interface: int, request: seq<byte>)

  /** `query` is what the two callbacks capture; there is none until they are set. */
  datatype Connection = Connection(state: State, socket: Option<int>, read: Claim, write: Claim, exception: Claim,
                                   buffer: seq<byte>, deadline: int, remote: Address, query: Option<Query>)

  /** A member ran: the loop and connection it leaves, whether it called setBad, and whether m_shutdown is due. */
  datatype Effect = Effect(loop: Handlers, conn: Connection, bad: bool, due: bool)

  /** The forwarders after a member ran: setBad demotes its own. */
  function Failover(fs: seq<Forwarder>, e: Effect): seq<Forwarder> {
    if e.bad then Demoted(fs, e.conn.remote) else fs
  }

  function SetRead(l: Handlers, id: nat, c: Connection, h: int, a: Action): Effect {
    var r := RegisterRead(l, h, Entry(Bound(id, a), c.deadline));
    Effect(Release(r.loop, c.read), c.(read := r.claim), false, false)
  }

  function SetWrite(l: Handlers, id: nat, c: Connection, h: int, a: Action): Effect {
    var r := RegisterWrite(l, h, Entry(Bound(id, a), c.deadline));
    Effect(Release(r.loop, c.write), c.(write := r.claim), false, false)
  }

  function ResetRead(l: Handlers, c: Connection): Effect {
    Effect(Release(l, c.read), c.(read := Moved), false, false)
  }

  function ResetWrite(l: Handlers, c: Connection): Effect {
    Effect(Release(l, c.write), c.(write := Moved), false, false)
  }

  function ResetBoth(l: Handlers, c: Connection): Effect {
    ResetWrite(Release(l, c.read), c.(read := Moved))
  }

  function Close(l: Handlers, c: Connection): Effect {
    if c.socket.None? then Effect(l, c, false, false)
    else
      Effect(Release(Release(Release(l, c.read), c.write), c.exception),
             c.(read := Moved, write := Moved, exception := Moved, state := CLOSED, socket := None),
             false, c.query.Some?)
  }

  function Fail(l: Handlers, c: Connection): Effect {
    Close(l, c).(bad := true)
  }

  /** Wait for one direction only, with the same member. */
  function AwaitRead(l: Handlers, id: nat, c: Connection, a: Action): Effect
    requires c.socket.Some?
  {
    var e := if c.read == Moved then SetRead(l, id, c, c.socket.value, a) else Effect(l, c, false, false);
    ResetWrite(e.loop, e.conn)
  }

  function AwaitWrite(l: Handlers, id: nat, c: Connection, a: Action): Effect
    requires c.socket.Some?
  {
    var e := if c.write == Moved then SetWrite(l, id, c, c.socket.value, a) else Effect(l, c, false, false);
    ResetRead(e.loop, e.conn)
  }

  /** connect */
  function Connect(l: Handlers, id: nat, c: Connection, r: Result): Effect
    requires c.socket.Some?
  {
    match r
    case NeedRead => AwaitRead(l, id, c, Handshake)
    case NeedWrite => AwaitWrite(l, id, c, Handshake)
    case Success =>
      var idle := ResetBoth(l, c);
      var reading := SetRead(idle.loop, id, idle.conn, c.socket.value, Receive);
      var e := if c.buffer != [] then SetWrite(reading.loop, id, reading.conn, c.socket.value, Transmit) else reading;
      e.(conn := e.conn.(state := OPEN))
    case Fatal => Fail(l, c)
    case Hangup => Close(l, c)
  }

  /** The part of the constructor after the socket is connecting. */
  function Open(l: Handlers, id: nat, c: Connection, h: int, r: Result): Effect {
    var x := RegisterException(l, h, Bound(id, Abort));
    Connect(Release(x.loop, c.exception), id, c.(socket := Some(h), exception := x.claim), r)
  }

  /** The constructor, with the handle of the socket that is connecting, if one could be made. */
  function Create(l: Handlers, id: nat, fs: seq<Forwarder>, deadline: int, tls: bool, h: Option<int>, r: Result): Effect
  {
    var c := Connection(CONNECTING, None, Moved, Moved, Moved, [], deadline, 0, None);
    if tls && fs != [] then
      var chosen := c.(remote := fs[0].remote);
      if h.Some? then Open(l, id, chosen, h.value, r) else Effect(l, chosen.(state := CLOSED), true, false)
    else Effect(l, c.(state := CLOSED), false, false)
  }

  /** incoming, when nothing was read */
  function Incoming(l: Handlers, c: Connection, r: Result): Effect {
    match r
    case NeedRead => Effect(l, c, false, false)
    case NeedWrite => Effect(l, c, false, false)
    case Success => Effect(l, c, false, false)
    case Fatal => Fail(l, c)
    case Hangup => Close(l, c)
  }

  /** _shutdown */
  function SayGoodbye(l: Handlers, id: nat, c: Connection, r: Result): Effect
    requires c.socket.Some?
  {
    var d := c.(state := SHUTTING_DOWN);
    match r
    case NeedRead => AwaitRead(l, id, d, Goodbye)
    case NeedWrite => AwaitWrite(l, id, d, Goodbye)
    case _ => Close(l, d)
  }

  /** shutdown */
  function Shutdown(l: Handlers, id: nat, c: Connection, r: Result): Effect
    requires c.state.CONNECTING? || c.state.OPEN? ==> c.socket.Some?
  {
    if c.state.CONNECTING? || c.state.OPEN? then
      var idle := ResetBoth(l, c);
      SayGoodbye(idle.loop, id, idle.conn, r)
    else Effect(l, c, false, false)
  }

  /** outgoing */
  function Outgoing(l: Handlers, c: Connection, r: Result): Effect {
    match r
    case NeedRead => Effect(l, c, false, false)
    case NeedWrite => Effect(l, c, false, false)
    case Success => ResetWrite(l, c.(buffer := []))
    case Fatal => Fail(l, c)
    case Hangup => Close(l, c)
  }

  /** exception */
  function Except(l: Handlers, c: Connection): Effect {
    if c.state.CONNECTING? then Fail(l, c) else Close(l, c)
  }

  datatype Sent = Sent(ok: bool, loop: Handlers, conn: Connection)

  /** send */
  function Send(l: Handlers, id: nat, c: Connection, data: seq<byte>): Sent {
    if c.socket.None? || !(c.state.CONNECTING? || c.state.OPEN?) || c.buffer != [] then Sent(false, l, c)
    else
      var e := if c.state.OPEN? && c.write == Moved then SetWrite(l, id, c, c.socket.value, Transmit)
               else Effect(l, c, false, false);
      Sent(true, e.loop, e.conn.(buffer := data))
  }

  // ------------------------------------------------ agreement with the loop

  /** The registrations a connection holds in each state. */
  predicate Shaped(c: Connection) {
    match c.socket
    case None => c.state.CLOSED? && c.read == Moved && c.write == Moved && c.exception == Moved
    case Some(h) =>
      && c.exception == Exception(h)
      && match c.state
         case CLOSED => false
         case OPEN => c.read == Read(h) && c.write == if c.buffer != [] then Write(h) else Moved
         case _ => (c.read == Read(h) && c.write == Moved) || (c.read == Moved && c.write == Write(h))
  }

  function ReadAction(s: State): Action {
    match s
    case CONNECTING => Handshake
    case OPEN => Receive
    case _ => Goodbye
  }

  function WriteAction(s: State): Action {
    match s
    case CONNECTING => Handshake
    case OPEN => Transmit
    case _ => Goodbye
  }

  /** The loop holds exactly the connection's registrations at its handle, bound to the members its state calls for. */
  predicate BoundAt(l: Handlers, id: nat, c: Connection, h: int) {
    && (h in l.readFns <==> c.read == Read(h))
    && (h in l.readFns ==> l.readFns[h] == Entry(Bound(id, ReadAction(c.state)), c.deadline))
    && (h in l.writeFns <==> c.write == Write(h))
    && (h in l.writeFns ==> l.writeFns[h] == Entry(Bound(id, WriteAction(c.state)), c.deadline))
    && (h in l.exceptFns <==> c.exception == Exception(h))
    && (h in l.exceptFns ==> l.exceptFns[h] == Bound(id, Abort))
  }

  predicate Agrees(l: Handlers, id: nat, c: Connection) {
    Shaped(c) && (c.socket.Some? ==> BoundAt(l, id, c, c.socket.value))
  }

  predicate Free(l: Handlers, h: int) {
    h !in l.readFns && h !in l.writeFns && h !in l.exceptFns
  }

  /** Only handle `h` is touched. */
  ghost predicate SameElsewhere(l: Handlers, l': Handlers, h: int) {
    && (forall k :: k != h ==>
          (k in l'.readFns <==> k in l.readFns) && (k in l.readFns ==> l'.readFns[k] == l.readFns[k]))
    && (forall k :: k != h ==>
          (k in l'.writeFns <==> k in l.writeFns) && (k in l.writeFns ==> l'.writeFns[k] == l.writeFns[k]))
    && (forall k :: k != h ==>
          (k in l'.exceptFns <==> k in l.exceptFns) && (k in l.exceptFns ==> l'.exceptFns[k] == l.exceptFns[k]))
  }

  /**
   * What every member guarantees on a connection that agrees with the loop: it
   * still does, no other handle is touched, its state does not go back, setBad
   * means it closed, and m_shutdown is due exactly when it closed and is set.
   */
  ghost predicate Stepped(l: Handlers, id: nat, c: Connection, h: int, e: Effect) {
    && Agrees(e.loop, id, e.conn)
    && SameElsewhere(l, e.loop, h)
    && (if e.conn.state.CLOSED? then Free(e.loop, h) else e.conn.socket == Some(h))
    && c.state.Rank() <= e.conn.state.Rank()
    && (e.bad ==> e.conn.state.CLOSED?)
    && (e.due <==> e.conn.state.CLOSED? && e.conn.query.Some?)
    && e.conn.deadline == c.deadline && e.conn.remote == c.remote && e.conn.query == c.query
  }

  /** Of reading and writing, the connection waits for what TLS asked for. */
  predicate Awaits(c: Connection, h: int, r: Result) {
    (r.NeedRead? ==> c.read == Read(h) && c.write == Moved) && (r.NeedWrite? ==> c.write == Write(h) && c.read == Moved)
  }

  /** Of its registrations, the connection holds only that for exceptions. */
  predicate IdleAt(l: Handlers, id: nat, c: Connection, h: int) {
    && c.socket == Some(h) && c.read == Moved && c.write == Moved && c.exception == Exception(h)
    && h !in l.readFns && h !in l.writeFns && h in l.exceptFns && l.exceptFns[h] == Bound(id, Abort)
  }

  lemma BothReset(l: Handlers, id: nat, c: Connection)
    requires Agrees(l, id, c) && c.socket.Some?
    ensures var e := ResetBoth(l, c);
            && IdleAt(e.loop, id, e.conn, c.socket.value) && SameElsewhere(l, e.loop, c.socket.value)
            && e.conn == c.(read := Moved, write := Moved)
  {
  }

  /** A step from where `l` and `c` have come to is one from where they came from. */
  lemma SteppedVia(l: Handlers, c: Connection, l': Handlers, c': Connection, id: nat, h: int, e: Effect)
    requires SameElsewhere(l, l', h) && Stepped(l', id, c', h, e)
    requires c' == c.(state := c'.state, socket := c'.socket,
                      read := c'.read, write := c'.write, exception := c'.exception)
    requires c.state.Rank() <= c'.state.Rank()
    ensures Stepped(l, id, c, h, e)
  {
  }

  /** close, whatever else it holds. */
  lemma CloseSteps(l: Handlers, id: nat, c: Connection)
    requires c.socket.Some? && (Agrees(l, id, c) || IdleAt(l, id, c, c.socket.value))
    ensures Stepped(l, id, c, c.socket.value, Close(l, c)) && Stepped(l, id, c, c.socket.value, Fail(l, c))
    ensures Close(l, c).conn.state.CLOSED? && Close(l, c).conn.buffer == c.buffer && !Close(l, c).bad
  {
  }

  /** Waiting to read, with the member that the state calls for. */
  lemma AwaitReadSteps(l: Handlers, id: nat, c: Connection, a: Action)
    requires c.socket.Some? && (Agrees(l, id, c) || IdleAt(l, id, c, c.socket.value))
    requires (c.state.CONNECTING? || c.state.SHUTTING_DOWN?) && a == ReadAction(c.state)
    ensures var e := AwaitRead(l, id, c, a);
            Stepped(l, id, c, c.socket.value, e) && e.conn == c.(read := Read(c.socket.value), write := Moved) && !e.bad
  {
  }

  /** Waiting to write, with the member that the state calls for. */
  lemma AwaitWriteSteps(l: Handlers, id: nat, c: Connection, a: Action)
    requires c.socket.Some? && (Agrees(l, id, c) || IdleAt(l, id, c, c.socket.value))
    requires (c.state.CONNECTING? || c.state.SHUTTING_DOWN?) && a == ReadAction(c.state)
    ensures var e := AwaitWrite(l, id, c, a);
            && Stepped(l, id, c, c.socket.value, e) && !e.bad
            && e.conn == c.(write := Write(c.socket.value), read := Moved)
  {
  }

  /** TLS is done: reading, and writing what waits in the buffer. */
  lemma SuccessSteps(l: Handlers, id: nat, c: Connection, h: int)
    requires IdleAt(l, id, c, h) && c.state.CONNECTING?
    ensures var e := Connect(l, id, c, Success);
            Stepped(l, id, c, h, e) && e.conn.state.OPEN? && e.conn.buffer == c.buffer && !e.bad
  {
  }

  lemma ConnectSteps(l: Handlers, id: nat, c: Connection, r: Result)
    requires Agrees(l, id, c) && c.state.CONNECTING?
    ensures Stepped(l, id, c, c.socket.value, Connect(l, id, c, r))
    ensures Connect(l, id, c, r).conn.buffer == c.buffer
    ensures Connect(l, id, c, r).bad <==> r.Fatal?
    ensures Awaits(Connect(l, id, c, r).conn, c.socket.value, r)
    ensures Connect(l, id, c, r).conn.state
            == match r case Success => OPEN case Fatal => CLOSED case Hangup => CLOSED case _ => CONNECTING
  {
    var h := c.socket.value;
    BothReset(l, id, c);
    ResetFirst(l, id, c);
    hide Stepped, SameElsewhere, Agrees, IdleAt, AwaitRead, AwaitWrite, Close, ResetBoth;
    match r
    case NeedRead => AwaitReadSteps(l, id, c, Handshake);
    case NeedWrite => AwaitWriteSteps(l, id, c, Handshake);
    case Success =>
      var idle := ResetBoth(l, c);
      SuccessSteps(idle.loop, id, idle.conn, h);
      SteppedVia(l, c, idle.loop, idle.conn, id, h, Connect(l, id, c, r));
    case _ => CloseSteps(l, id, c);
  }

  lemma ResetFirst(l: Handlers, id: nat, c: Connection)
    requires c.socket.Some?
    ensures var idle := ResetBoth(l, c);
            idle.conn.socket == c.socket && Connect(idle.loop, id, idle.conn, Success) == Connect(l, id, c, Success)
  {
  }

  lemma OpenSteps(l: Handlers, id: nat, c: Connection, h: int, r: Result)
    requires Free(l, h)
    requires c.state.CONNECTING? && c.socket.None? && c.read == Moved && c.write == Moved && c.exception == Moved
    ensures Stepped(l, id, c, h, Open(l, id, c, h, r))
    ensures Open(l, id, c, h, r).conn.buffer == c.buffer
    ensures Open(l, id, c, h, r).bad <==> r.Fatal?
    ensures Awaits(Open(l, id, c, h, r).conn, h, r)
    ensures Open(l, id, c, h, r).conn.state
            == match r case Success => OPEN case Fatal => CLOSED case Hangup => CLOSED case _ => CONNECTING
  {
    var x := RegisterException(l, h, Bound(id, Abort));
    var idle := c.(socket := Some(h), exception := x.claim);
    assert IdleAt(x.loop, id, idle, h) && SameElsewhere(l, x.loop, h) && Release(x.loop, c.exception) == x.loop;
    hide Stepped, SameElsewhere, Agrees, IdleAt, AwaitRead, AwaitWrite, Close;
    match r {
      case NeedRead => AwaitReadSteps(x.loop, id, idle, Handshake);
      case NeedWrite => AwaitWriteSteps(x.loop, id, idle, Handshake);
      case Success => SuccessSteps(x.loop, id, idle, h);
      case _ => CloseSteps(x.loop, id, idle);
    }
    SteppedVia(l, c, x.loop, idle, id, h, Open(l, id, c, h, r));
  }

  lemma IncomingSteps(l: Handlers, id: nat, c: Connection, r: Result)
    requires Agrees(l, id, c) && c.state.OPEN?
    ensures Stepped(l, id, c, c.socket.value, Incoming(l, c, r))
    ensures Incoming(l, c, r).bad <==> r.Fatal?
    ensures if r.Fatal? || r.Hangup? then Incoming(l, c, r).conn.state.CLOSED?
            else Incoming(l, c, r) == Effect(l, c, false, false)
  {
  }

  lemma GoodbyeSteps(l: Handlers, id: nat, c: Connection, r: Result)
    requires Agrees(l, id, c) && c.state.SHUTTING_DOWN?
    ensures Stepped(l, id, c, c.socket.value, SayGoodbye(l, id, c, r))
    ensures !SayGoodbye(l, id, c, r).bad
    ensures Awaits(SayGoodbye(l, id, c, r).conn, c.socket.value, r)
    ensures SayGoodbye(l, id, c, r).conn.state == if r.NeedRead? || r.NeedWrite? then SHUTTING_DOWN else CLOSED
  {
    assert c.socket.Some?;
    hide Stepped, SameElsewhere, Agrees, AwaitRead, AwaitWrite, Close;
    match r
    case NeedRead => AwaitReadSteps(l, id, c, Goodbye);
    case NeedWrite => AwaitWriteSteps(l, id, c, Goodbye);
    case _ => CloseSteps(l, id, c);
  }

  lemma ShutdownSteps(l: Handlers, id: nat, c: Connection, r: Result)
    requires Agrees(l, id, c) && (c.state.CONNECTING? || c.state.OPEN?)
    ensures Stepped(l, id, c, c.socket.value, Shutdown(l, id, c, r))
    ensures !Shutdown(l, id, c, r).bad
    ensures Awaits(Shutdown(l, id, c, r).conn, c.socket.value, r)
    ensures Shutdown(l, id, c, r).conn.state == if r.NeedRead? || r.NeedWrite? then SHUTTING_DOWN else CLOSED
  {
    var h, idle := c.socket.value, ResetBoth(l, c);
    BothReset(l, id, c);
    var d := idle.conn.(state := SHUTTING_DOWN);
    assert IdleAt(idle.loop, id, d, h);
    hide Stepped, SameElsewhere, Agrees, IdleAt, AwaitRead, AwaitWrite, Close, ResetBoth;
    match r {
      case NeedRead => AwaitReadSteps(idle.loop, id, d, Goodbye);
      case NeedWrite => AwaitWriteSteps(idle.loop, id, d, Goodbye);
      case _ => CloseSteps(idle.loop, id, d);
    }
    SteppedVia(l, c, idle.loop, d, id, h, Shutdown(l, id, c, r));
  }

  lemma OutgoingSteps(l: Handlers, id: nat, c: Connection, r: Result)
    requires Agrees(l, id, c) && c.state.OPEN?
    ensures Stepped(l, id, c, c.socket.value, Outgoing(l, c, r))
    ensures Outgoing(l, c, r).bad <==> r.Fatal?
    ensures Outgoing(l, c, r).conn.state == if r.Fatal? || r.Hangup? then CLOSED else OPEN
    ensures r.Success? ==> Outgoing(l, c, r).conn.buffer == []
    ensures r.NeedRead? || r.NeedWrite? ==> Outgoing(l, c, r) == Effect(l, c, false, false)
  {
  }

  lemma ExceptSteps(l: Handlers, id: nat, c: Connection)
    requires Agrees(l, id, c) && c.socket.Some?
    ensures Stepped(l, id, c, c.socket.value, Except(l, c))
    ensures Except(l, c).conn.state.CLOSED?
    ensures Except(l, c).bad <==> c.state.CONNECTING?
  {
    hide Stepped, SameElsewhere, Agrees, Close;
    CloseSteps(l, id, c);
  }

  /** send succeeds on a fresh connection exactly when it has a socket, and then the request waits in its buffer. */
  lemma SendSteps(l: Handlers, id: nat, c: Connection, data: seq<byte>)
    requires Agrees(l, id, c) && c.buffer == [] && data != [] && !c.state.SHUTTING_DOWN?
    ensures var s := Send(l, id, c, data);
            && (s.ok <==> c.socket.Some?)
            && (s.ok ==> Agrees(s.loop, id, s.conn) && SameElsewhere(l, s.loop, c.socket.value))
            && s.loop == (if s.ok then s.loop else l)
            && s.conn == (if s.ok then c.(buffer := data, write := s.conn.write) else c)
  {
  }
}
