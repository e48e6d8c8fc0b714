// The three handler maps of the loop (src/loop.cpp:104-151) and what a
// registration object (src/i_loop.cpp) claims of them.

module HandlerMaps {

  /** The members of a connection that are bound as callbacks. */
  datatype Action =
    | Handshake // connect
    | Receive   // incoming
    | Transmit  // outgoing
    | Goodbye   // _shutdown
    | Abort     // exception

  /** A listening socket, or a member of the connection with this number. */
  datatype Callback = Serve | Bound(id: nat, action: Action)

  /** A deadline of zero is none. */
  datatype Entry = Entry(callback: Callback, deadline: int)

  datatype Handlers = Handlers(readFns: map<int, Entry>, writeFns: map<int, Entry>, exceptFns: map<int, Callback>) {
    predicate Has(c: Claim) {
      match c
      case Moved => false
      case Read(h) => h in readFns
      case Write(h) => h in writeFns
      case Exception(h) => h in exceptFns
    }
  }

  /** What a registration object owns. */
  datatype Claim = Moved | Read(handle: int) | Write(handle: int) | Exception(handle: int)

  datatype Registered = Registered(loop: Handlers, claim: Claim)

  function RegisterRead(l: Handlers, h: int, e: Entry): Registered {
    if h in l.readFns then Registered(l, Moved) else Registered(l.(readFns := l.readFns[h := e]), Read(h))
  }

  function RegisterWrite(l: Handlers, h: int, e: Entry): Registered {
    if h in l.writeFns then Registered(l, Moved) else Registered(l.(writeFns := l.writeFns[h := e]), Write(h))
  }

  function RegisterException(l: Handlers, h: int, cb: Callback): Registered {
    if h in l.exceptFns then Registered(l, Moved) else Registered(l.(exceptFns := l.exceptFns[h := cb]), Exception(h))
  }

  /** Resetting or destroying a registration. */
  function Release(l: Handlers, c: Claim): Handlers {
    match c
    case Moved => l
    case Read(h) => l.(readFns := l.readFns - {h})
    case Write(h) => l.(writeFns := l.writeFns - {h})
    case Exception(h) => l.(exceptFns := l.exceptFns - {h})
  }
}
