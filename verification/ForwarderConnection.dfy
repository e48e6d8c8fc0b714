// The connection object of src/forwarder_connection.cpp, member by member
// against what Connections says each does.

module ForwarderConnections {
  import opened Bytes
  import opened HandlerMaps
  import opened ForwarderConfigs
  import opened Connections
  import opened Loops

  /**
   * Each member returns whether m_shutdown is due. In the source every path
   * that closes calls it last, so here the caller does, right away.
   */
  class ForwarderConnection {
    const id: nat
    const loop: Loop
    const config: ForwarderConfig
    var deadline: int
    var state: State
    var socket: Option<int>
    var read: Claim
    var write: Claim
    var exception: Claim
    var buffer: seq<byte>
    var remote: Address
    var query: Option<Query>

    ghost function Value(): Connection
      reads this
    {
      Connection(state, socket, read, write, exception, buffer, deadline, remote, query)
    }

    /** The connection, the loop and the forwarders are as `e` says, coming from forwarders `fs`. */
    ghost predicate Shows(e: Effect, fs: seq<Forwarder>)
      reads this, loop, config
    {
      loop.Value() == e.loop && Value() == e.conn && config.forwarders == Failover(fs, e)
    }

    constructor (id: nat, loop: Loop, config: ForwarderConfig, now: int, tls: bool, handle: Option<int>, r: Result,
                 ghost e: Effect)
      requires e == Create(loop.Value(), id, config.forwarders, now + config.timeout, tls, handle, r)
      modifies loop, config`forwarders
      ensures this.id == id && this.loop == loop && this.config == config
      ensures Shows(e, old(config.forwarders))
    {
      this.id, this.loop, this.config := id, loop, config;
      deadline := now + config.timeout;
      state, socket := CONNECTING, None;
      read, write, exception := Moved, Moved, Moved;
      buffer, remote, query := [], 0, None;
      new;
      hide Connections.Open, Demoted;
      if tls && config.forwarders != [] {
        remote := config.forwarders[0].remote;
        if handle.Some? {
          Open(handle.value, r);
        } else {
          config.SetBad(remote);
          state := CLOSED;
        }
      } else {
        state := CLOSED;
      }
    }

    /** The part of the constructor once the socket is connecting. */
    method Open(handle: int, r: Result)
      modifies this, loop, config`forwarders
      ensures Shows(Connections.Open(old(loop.Value()), id, old(Value()), handle, r), old(config.forwarders))
    {
      hide Connections.Connect;
      socket := Some(handle);
      var claim := loop.RegisterException(handle, Bound(id, Abort));
      loop.Remove(exception);
      exception := claim;
      var due := Connect(r);
    }

    method ResetRead()
      modifies this`read, loop
      ensures loop.Value() == Release(old(loop.Value()), old(read)) && read == Moved
    {
      loop.Remove(read);
      read := Moved;
    }

    method ResetWrite()
      modifies this`write, loop
      ensures loop.Value() == Release(old(loop.Value()), old(write)) && write == Moved
    {
      loop.Remove(write);
      write := Moved;
    }

    /** Registers and move-assigns; what was held before is dropped with the temporary. */
    method RegisterRead(action: Action)
      requires socket.Some?
      modifies this`read, loop
      ensures var e := SetRead(old(loop.Value()), id, old(Value()), socket.value, action);
              loop.Value() == e.loop && Value() == e.conn
    {
      var claim := loop.RegisterRead(socket.value, Bound(id, action), deadline);
      loop.Remove(read);
      read := claim;
    }

    method RegisterWrite(action: Action)
      requires socket.Some?
      modifies this`write, loop
      ensures var e := SetWrite(old(loop.Value()), id, old(Value()), socket.value, action);
              loop.Value() == e.loop && Value() == e.conn
    {
      var claim := loop.RegisterWrite(socket.value, Bound(id, action), deadline);
      loop.Remove(write);
      write := claim;
    }

    method Close() returns (due: bool)
      modifies this, loop
      ensures var e := Connections.Close(old(loop.Value()), old(Value()));
              Shows(e, old(config.forwarders)) && due == e.due
    {
      due := false;
      if socket.Some? {
        ResetRead();
        ResetWrite();
        loop.Remove(exception);
        exception := Moved;
        state := CLOSED;
        socket := None;
        due := query.Some?;
      }
    }

    method Fail() returns (due: bool)
      modifies this, loop, config`forwarders
      ensures var e := Connections.Fail(old(loop.Value()), old(Value()));
              Shows(e, old(config.forwarders)) && due == e.due
    {
      config.SetBad(remote);
      due := Close();
    }

    method Connect(r: Result) returns (due: bool)
      requires socket.Some?
      modifies this, loop, config`forwarders
      ensures var e := Connections.Connect(old(loop.Value()), id, old(Value()), r);
              Shows(e, old(config.forwarders)) && due == e.due
    {
      due := false;
      match r {
        case NeedRead =>
          if read == Moved {
            RegisterRead(Handshake);
          }
          ResetWrite();
        case NeedWrite =>
          if write == Moved {
            RegisterWrite(Handshake);
          }
          ResetRead();
        case Success =>
          ResetRead();
          ResetWrite();
          RegisterRead(Receive);
          if buffer != [] {
            RegisterWrite(Transmit);
          }
          state := OPEN;
        case Fatal => due := Fail();
        case Hangup => due := Close();
      }
    }

    /** incoming, when nothing was read for the callback. */
    method Incoming(r: Result) returns (due: bool)
      modifies this, loop, config`forwarders
      ensures var e := Connections.Incoming(old(loop.Value()), old(Value()), r);
              Shows(e, old(config.forwarders)) && due == e.due
    {
      due := false;
      match r {
        case NeedRead =>
        case NeedWrite =>
        case Success =>
        case Fatal => due := Fail();
        case Hangup => due := Close();
      }
    }

    method Shutdown(r: Result) returns (due: bool)
      requires state == CONNECTING || state == OPEN ==> socket.Some?
      modifies this, loop
      ensures var e := Connections.Shutdown(old(loop.Value()), id, old(Value()), r);
              Shows(e, old(config.forwarders)) && due == e.due
    {
      due := false;
      if state == CONNECTING || state == OPEN {
        ResetRead();
        ResetWrite();
        due := SayGoodbye(r);
      }
    }

    /** _shutdown */
    method SayGoodbye(r: Result) returns (due: bool)
      requires socket.Some?
      modifies this, loop
      ensures var e := Connections.SayGoodbye(old(loop.Value()), id, old(Value()), r);
              Shows(e, old(config.forwarders)) && due == e.due
    {
      due := false;
      state := SHUTTING_DOWN;
      match r {
        case NeedRead =>
          if read == Moved {
            RegisterRead(Goodbye);
          }
          ResetWrite();
        case NeedWrite =>
          if write == Moved {
            RegisterWrite(Goodbye);
          }
          ResetRead();
        case Hangup => due := Close();
        case Success => due := Close();
        case Fatal => due := Close();
      }
    }

    method Send(data: seq<byte>) returns (ok: bool)
      modifies this, loop
      ensures Sent(ok, loop.Value(), Value()) == Connections.Send(old(loop.Value()), id, old(Value()), data)
    {
      if socket.None? || (state != CONNECTING && state != OPEN) {
        return false;
      }
      if buffer == [] {
        if state == OPEN && write == Moved {
          RegisterWrite(Transmit);
        }
        buffer := data;
        return true;
      }
      return false;
    }

    method Outgoing(r: Result) returns (due: bool)
      modifies this, loop, config`forwarders
      ensures var e := Connections.Outgoing(old(loop.Value()), old(Value()), r);
              Shows(e, old(config.forwarders)) && due == e.due
    {
      due := false;
      match r {
        case NeedRead =>
        case NeedWrite =>
        case Success =>
          buffer := [];
          ResetWrite();
        case Fatal => due := Fail();
        case Hangup => due := Close();
      }
    }

    method Except() returns (due: bool)
      modifies this, loop, config`forwarders
      ensures var e := Connections.Except(old(loop.Value()), old(Value()));
              Shows(e, old(config.forwarders)) && due == e.due
    {
      if state == CONNECTING {
        config.SetBad(remote);
      }
      due := Close();
    }
  }
}
