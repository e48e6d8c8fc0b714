# DoTe, verified

DoTe forwards DNS requests that arrive over UDP to a resolver over TLS and
hands the replies back. This project models its logic in Dafny and proves what
the parts promise, alone and together. `dafny verify dfyconfig.toml` checks it.

**The packet rewriter** (`Bytes`, `Message`, `Walk`, `Options`, `Splice`,
`Compaction`, `Rewrite`, `DnsPacket`). Messages are values with an encoder
(sections 4.1 and 4.2.2 of RFC 1035, section 6.1.2 of RFC 6891). The skip loops
and the rewriter are a class over a buffer, proved against functions on octet
sequences, and those against the encoder. Compacting leaves the kept options in
front of octets with a closed form: for each padding option, last to first, as
many octets from the end of the original area as it took. The splice at
`src/dns_packet.cpp:168` drops its octets from the front of that area, where the
kept options are, instead of from its end. So framing is right for every option
mix, but the kept options survive only when the area happens to repeat them.
`SurvivorsExact` and `ContentExact` say exactly when; `LongPaddingMessageExact`
and `ZeroPaddedMessageExact` say it for long and for zero-filled padding
(section 3 of RFC 7830), and `CookieMessageLost` is a message whose cookie comes
out as zeros.
`include/dns_packet.h:19` documents the result as "padding found and removed";
the code returns true for every OPT record that fits, and the model follows it.

**The forwarder as one state machine** (`Handlers`, `Connection`, `System`,
`Invariant`, `Sending`, `Runs`, `Executions`, `Births`, `Events`, `Sweep`,
`Openings`, `Turns`). A state is the three handler maps, every connection ever made, the pool, the queue,
the failover list and a record of the run. Members of a connection are functions
on the connection and the maps; events run them, and closing sets off more
sending, as in the source. TLS results, sockets, clock readings and received data
are arbitrary. `Executions.Run` carries the invariant through every run. A
timeout leaves nothing late (`TimeoutClears`), and what it leaves instead is told
from the state before it and the environment's answers (`BothCleared`). When
polls return, each full timeout that passes gives a full limit of waiting
requests their turn (`TriedPerTurn`).

`Events` tells the same machine a second time, without handler maps,
registrations and the recursion between sending and taking from the queue: a
table for the connection that is called back, and for what is sent then, by the
environment's answers, which connections are made, fail, are blamed and open
(`Births`). `StepIs` is the equivalence of both: an event leaves the state that is
told, and no other. `EveryRun` is what comes of it from a start: the requests that
events brought in, in order and written whole, and the packets read as replies.

Three things a reader might expect do not hold.

- *A poll's report reaches the polled connection* (`Reports`). After a poll, a
  handle's read, write and exception handlers are looked up one after another.
  When the first closes the connection, the requests that wait are sent at once,
  and the first connection that can open may get the same handle.
  `ReportReaches` says for every event and every answer of the environment whose
  write and exception handlers the same report then calls; `ReportMisdirected`
  what a failure does to a connection that was never polled, and `MisdirectedRun`
  (`Witness`) is a run in which it happens.
- *The poll wakes up by the earliest deadline* (`Waits`). In the loop that
  computes it, zero is both "none yet" and the smallest deadline, and so it is
  between the two maps. `Sweep` returns the earliest deadline beyond all handlers
  without one. From the state before the timeout, the time it reads and the
  environment's answers, `WaitsForever` says exactly when the poll waits without
  limit and otherwise how long, and `WakesInTime` exactly when that is right.
  `QuietWait` puts it on the connections there are, when none comes up; so no
  limit is set while all wait for replies (`RepliesAwaited`), and `UnlimitedRun`
  is a run after which the pool has a deadline and the poll none.
- *Every request gets its turn* (`Waits`, `Witness`). What runs is given up by a
  timeout, which only happens after a poll. `QueuedBehind` says exactly when a
  request waits behind a poll without limit. `StarvedRun` is such a run: three
  events, and then, unless the forwarder or another client acts, neither the
  timeout nor the turn of the second request ever comes.

**The same in the source's objects** (`Loop`, `ForwarderConnection`,
`ClientForwarders`, `Polling`, `Dote`). Classes with the source's fields and
loops; each method is proved equal to the function that models it. The timeout
sweep with its restarts is a method that raises exactly the handles that were
expired, in order; `run` does exactly what the polls reported and the sweeps
raised. `Program` is main from the construction of the objects to the end of
`run`.

**Smaller machines**: registration objects over runs of registering, moving,
swapping, resetting and destroying (`Registrations`); the failover list
(`ForwarderConfig`); the one-entry certificate cache (`VerifyCache`).

Assumptions about the environment: the clock does not go back and a handle is
not handed out while it is open (answers to the contrary are read as the last
time seen, and as no socket); the timeout is at least 1
(`src/config_parser.cpp:220`); requests are not empty (`src/server.cpp:147-148`);
packets from forwarders are such that reading them stays within the packet
(`Rewrite.Safe`), which every well-formed message is.

## Model

| member | source | states |
|---|---|---|
| `Walk.NameLands` | src/dns_packet.cpp:53-77 | at any offset of any packet an encoded name, of labels and the root or a pointer, is skipped exactly to its end |
| `Walk.QuestionsStay` | src/dns_packet.cpp:202-212 | in any packet, well-formed or not, a skip over questions that ends inside it ends there whatever follows, also nothing |
| `Walk.RecordsStay` | src/dns_packet.cpp:214-241 | the same for a skip over records |
| `Walk.MessageLands` | src/dns_packet.cpp:202-241 | on every well-formed message the walk by the header's counts starts the additional section where it is encoded and ends exactly with the packet |
| `Walk.QuestionsLand` | src/dns_packet.cpp:202-212 | questions are skipped exactly to their end, whatever octets precede and follow them |
| `Walk.RecordsLand` | src/dns_packet.cpp:214-241 | records are skipped exactly to their end, whatever octets precede and follow them |
| `Walk.FindOptLands` | src/dns_packet.cpp:144-158 | the search finds the first OPT record of an encoded section, and nothing when there is none |
| `Walk.LocateLands` | src/dns_packet.cpp:132-158 | on every well-formed message the rewriter finds a valid header and exactly the first OPT record |
| `Options.ParseEncoded` | src/dns_packet.cpp:183-198 | encoded options tile their area and read back as themselves |
| `Options.EncodeParsed` | src/dns_packet.cpp:183-198 | an area that options tile is the encoding of what is read from it |
| `Splice.SurvivorsExact` | src/dns_packet.cpp:168-169 | for every option mix, the octets left by the splice are the kept options if and only if the area echoes |
| `Splice.EndSurvives` | src/dns_packet.cpp:168-169 | with a first padding option as long as everything kept, what is left is the end of the original area |
| `Splice.PlainAreasSurvive` | src/dns_packet.cpp:168-169 | without padding, or with nothing else, what is left is what is kept |
| `Splice.LeadingPaddingSurvives` | src/dns_packet.cpp:168-169 | leading padding, the first at least as long as everything kept, is removed as intended |
| `Splice.OnePaddingExact` | src/dns_packet.cpp:168-169 | one long padding option: all others survive if and only if it ends in a copy of those before it |
| `Splice.ZeroPaddingExact` | src/dns_packet.cpp:168-169 | one long zero-filled padding option: the others survive if and only if all octets before it are zero |
| `Splice.CookieLost` | src/dns_packet.cpp:168-169 | a cookie followed by zero padding does not survive |
| `Rewrite.CookieMessageLost` | src/dns_packet.cpp:132-175 | a message with such an OPT record does not come out as the message without padding |
| `Rewrite.FramingSurvives` | src/dns_packet.cpp:139-171 | for every option mix the result encodes the same message but for the OPT data, whose length is that of the kept options; every other octet is as encoded |
| `Rewrite.RewrittenWalks` | src/dns_packet.cpp:139-171 | the result has a right length prefix and walking its four sections ends exactly at its new end |
| `Rewrite.ContentExact` | src/dns_packet.cpp:132-175 | the result encodes the message without its padding if and only if the OPT data echoes |
| `Rewrite.PlainMessageRewritten` | src/dns_packet.cpp:132-175 | with only padding or no padding in the OPT record, the result encodes the message without its padding |
| `Rewrite.LongPaddingMessageExact` | src/dns_packet.cpp:132-175 | with a first padding option as long as everything kept, that holds if and only if the OPT data ends in what is kept |
| `Rewrite.ZeroPaddedMessageExact` | src/dns_packet.cpp:132-175 | with one long zero-filled padding option, if and only if every octet of the options before it is zero |
| `Rewrite.RewriteTwice` | src/dns_packet.cpp:132-175 | once the padding came out as intended, rewriting again changes nothing |
| `Rewrite.NoOptUntouched` | src/dns_packet.cpp:146-174 | a message without OPT record is left as it is |
| `Rewrite.NoPaddingUntouched` | src/dns_packet.cpp:157-170 | a message whose OPT record has no padding is left as it is |
| `Rewrite.DatagramExact` | src/client_forwarders.cpp:206-217 | what the client gets is the body of the message without padding if and only if the OPT data echoes |
| `Rewrite.PlainDatagram` | src/client_forwarders.cpp:206-217 | of a message without OPT record the client gets the body as it is |
| `Rewrite.RewrittenDatagram` | src/client_forwarders.cpp:206-217 | of any other it gets the body with what the splice leaves in the OPT record |
| `Rewrite.DatagramFramed` | src/dns_packet.cpp:253-262 | of any packet, the datagram is the rewritten packet without exactly the length prefix, which counts it |
| `Rewrite.InOctets` | src/dns_packet.cpp:132-175 | one padded reply in literal octets, the packet it becomes and the datagram |
| `Walk.HeaderCounts` | src/dns_packet.cpp:33-45 | a header is valid if and only if there are fourteen octets or more and the first two are the count of the others, high octet first |
| `DnsPackets.DnsPacket.constructor` | src/dns_packet.cpp:128-130 | the packet is wrapped as it is |
| `DnsPackets.DnsPacket.HasHeader` | src/dns_packet.cpp:33-45 | valid exactly with fourteen octets and a length prefix that counts the rest |
| `DnsPackets.DnsPacket.Length` | src/dns_packet.cpp:258-262 | the length without the prefix, or zero for an invalid packet |
| `DnsPackets.DnsPacket.Datagram` | src/dns_packet.cpp:253-262 | the packet without its length prefix |
| `DnsPackets.DnsPacket.SkipName` | src/dns_packet.cpp:53-77 | the loop ends where the walk over a name ends |
| `DnsPackets.DnsPacket.SkipFixed` | src/dns_packet.cpp:86-100 | steps over that many octets, or to the end |
| `DnsPackets.DnsPacket.SkipQueries` | src/dns_packet.cpp:202-212 | the loop ends where the walk over the questions ends |
| `DnsPackets.DnsPacket.SkipResponses` | src/dns_packet.cpp:214-241 | the loop ends where the walk over the records ends |
| `DnsPackets.DnsPacket.CopyDown` | src/dns_packet.cpp:190-190 | the octets of the range are at the earlier place and every other octet is unchanged |
| `DnsPackets.DnsPacket.RemovePaddingOption` | src/dns_packet.cpp:177-200 | returns the total size of the options that are not padding; they are a prefix of the area, in order, before the left-over octets; nothing outside the area changes |
| `DnsPackets.DnsPacket.SetLengths` | src/dns_packet.cpp:164-167 | the data length and the packet length are set and every other octet is unchanged |
| `DnsPackets.DnsPacket.CutOut` | src/dns_packet.cpp:168-169 | the octets between are gone, all others are kept in order |
| `DnsPackets.DnsPacket.RemoveEdnsPadding` | src/dns_packet.cpp:132-175 | true exactly when a fitting OPT record is found; the packet is then the rewritten one and otherwise unchanged |
| `ForwarderConfigs.ForwarderConfig.SetBad` | src/forwarder_config.cpp:52-63 | the first forwarder with that remote is last and the others keep their order; an absent one changes nothing |
| `ForwarderConfigs.ForwarderConfig.AddForwarder` | src/forwarder_config.cpp:23-40 | the forwarder is last |
| `ForwarderConfigs.ForwarderConfig.Clear` | src/forwarder_config.cpp:17-21 | no forwarder is left |
| `ForwarderConfigs.FailoverOrder` | src/forwarder_config.cpp:52-63 | after any failures the list is a permutation of the configured one, never-failed first as configured, then by how long ago each failed |
| `ForwarderConfigs.OrderIsUnique` | src/forwarder_config.cpp:52-63 | no other arrangement of the configuration has that order |
| `ForwarderConfigs.NextForwarder` | src/forwarder_config.cpp:42-45 | the forwarder offered next is configured, and every other failed after it or is configured after it |
| `VerifyCaches.VerifyCache.Verify` | src/verify_cache.cpp:25-55 | the result, whether the verifier was asked, and the cache afterwards, as the runs below have it |
| `VerifyCaches.VerifyCache.ForwardVerify` | src/verify_cache.cpp:15-23 | the verifier's answer, or zero without a verifier |
| `VerifyCaches.AskedAnswered` | src/verify_cache.cpp:15-23 | a call that reaches the verifier results in its answer, and in 0 without a verifier |
| `VerifyCaches.CacheSound` | src/verify_cache.cpp:25-55 | in any run, a call answered from the cache is accepted, and an earlier call with the same non-empty hash reached the verifier at most the timeout ago and was answered 1, with nothing accepted since |
| `VerifyCaches.CacheExact` | src/verify_cache.cpp:25-55 | on any clock, the verifier is spared if and only if the last hash it answered 1 for is this one, not empty, and the clock never read more than the timeout after that |
| `VerifyCaches.CacheExactInTime` | src/verify_cache.cpp:25-55 | on a clock that does not go back, if and only if that call was at most the timeout ago |
| `VerifyCaches.CacheTransparent` | src/verify_cache.cpp:25-55 | with a verifier whose answer 1 for a hash lasts the timeout, every result is the answer it would give, and 0 without a verifier |
| `VerifyCaches.MinuteOnTheDot` | src/verify_cache.cpp:44-52 | in nanoseconds: a hash accepted with a timeout of 60 is spared for exactly 60,000,000,000 |
| `Registrations.RunMatches` | src/i_loop.cpp:17-53 | over any run of operations the valid registration objects and the entries of the three maps stay matched one to one |
| `Registrations.EveryRunMatches` | src/i_loop.cpp:17-53 | so in every run from an empty loop |
| `Registrations.RegisterOwns` | src/loop.cpp:104-136 | a new object owns the handler it registers, and that is the one in the loop; when the handle has one already nothing changes and nothing is owned |
| `Registrations.TakeOwns` | src/i_loop.cpp:17-23 | a move hands on what is owned and touches no handler |
| `Registrations.AssignOwns` | src/i_loop.cpp:25-31 | an assignment swaps what is owned and touches no handler |
| `Registrations.ReleaseOwns` | src/i_loop.cpp:33-53 | exactly the owned handler goes when an object is reset or destroyed, and nothing is owned then |
| `Registrations.OthersKept` | src/i_loop.cpp:38-53 | an object that an operation does not name keeps its claim and its handler |
| `Loops.Registration.Take` | src/i_loop.cpp:17-23 | the new object owns what the other did, and the other nothing, as in the runs of `Registrations` |
| `Loops.Registration.Assign` | src/i_loop.cpp:25-31 | the two objects have swapped what they own, also when they are the same, as in those runs |
| `Loops.Registration.Reset` | src/i_loop.cpp:33-53 | exactly the owned handler is removed, and nothing is owned, as in those runs |
| `Loops.Loop.RegisterRead` | src/loop.cpp:104-113 | the handler is added and owned, or nothing changes when the handle has one |
| `Loops.Loop.RegisterWrite` | src/loop.cpp:115-124 | the handler is added and owned, or nothing changes when the handle has one |
| `Loops.Loop.RegisterException` | src/loop.cpp:126-136 | the handler is added and owned, or nothing changes when the handle has one |
| `Loops.Loop.Remove` | src/loop.cpp:138-151 | exactly the claimed entry is gone |
| `Loops.Loop.PopulateFds` | src/loop.cpp:37-44 | from any stale list with distinct handles: no duplicates, exactly the handles of the three maps, POLLIN for exactly the read handlers, POLLOUT for exactly the write handlers, no POLLERR |
| `Loops.ClearFds` | src/loop.cpp:69-75 | every entry keeps its handle and what poll reported and wishes for nothing |
| `Loops.AddFds` | src/loop.cpp:46-67 | one event is added to the entries of the handles, and entries for those without |
| `Loops.RemoveFds` | src/loop.cpp:77-91 | the entries that wish for something remain, in order, without POLLERR |
| `Loops.WantedPolls` | src/loop.cpp:37-91 | what remains polls for exactly what the loop has handlers for |
| `Connections.ConnectSteps` | src/forwarder_connection.cpp:89-142 | from an agreeing connection: agreement again, no other handle touched, waiting for what TLS asked, setBad exactly on FATAL, and the next state |
| `Connections.OpenSteps` | src/forwarder_connection.cpp:31-41 | the same for a connection on a new socket |
| `Connections.IncomingSteps` | src/forwarder_connection.cpp:144-169 | the same for incoming, which otherwise changes nothing |
| `Connections.ShutdownSteps` | src/forwarder_connection.cpp:171-179 | the same for shutdown, which never calls setBad |
| `Connections.GoodbyeSteps` | src/forwarder_connection.cpp:181-216 | the same for _shutdown |
| `Connections.OutgoingSteps` | src/forwarder_connection.cpp:242-264 | the same for outgoing, which empties the buffer on success |
| `Connections.ExceptSteps` | src/forwarder_connection.cpp:266-292 | the connection closes, with setBad exactly while connecting |
| `Connections.SendSteps` | src/forwarder_connection.cpp:218-240 | a new connection takes a request exactly when it has a socket, and agrees with the loop afterwards |
| `Sending.BornFits` | src/forwarder_connection.cpp:14-52 | a constructed connection is open on a handle of its own, or closed without a trace in the loop |
| `Sending.TryOne` | src/client_forwarders.cpp:130-158 | one attempt keeps the invariant, whether the connection joins the pool or not |
| `Runs.SendRequestKeeps` | src/client_forwarders.cpp:124-163 | sending, with all the sending that failures set off, ends in the invariant |
| `Runs.DequeueKeeps` | src/client_forwarders.cpp:165-185 | so does taking from the queue |
| `Runs.HandleRequestKeeps` | src/client_forwarders.cpp:103-122 | so does an arriving request |
| `Runs.HandleRequestArrives` | src/client_forwarders.cpp:103-122 | in every state a request is one more arrival, and with a full pool it waits behind the others and nothing else changes |
| `Runs.DeliverKeeps` | src/client_forwarders.cpp:139-150 | so does a reply, after which the connection shuts down |
| `Runs.ActKeeps` | src/forwarder_connection.cpp:89-292 | so does every member bound as a callback |
| `Runs.ActExact` | src/forwarder_connection.cpp:89-292 | a called-back connection calls setBad on exactly the stated occasions, m_shutdown fires exactly when it closed, and exactly a valid packet that was read is replied, to the request's own addresses |
| `Executions.Step` | src/loop.cpp:17-31 | every event keeps the invariant and takes nothing back; `Events.StepIs` says what it does |
| `Executions.Run` | src/loop.cpp:9-35 | in every reachable state the invariant holds, states of connections only went forward, and no record was withdrawn |
| `Executions.RunInParts` | src/loop.cpp:9-35 | a run can be cut anywhere, so this holds between any two points of it |
| `Executions.StepExchanges` | src/loop.cpp:93-102 | the arrivals grow by exactly the request that a listening socket hands over, and the replies by exactly the valid packet that an open connection reads, as it was read, to the addresses of its request; no other event adds to either |
| `Executions.RunExchanges` | src/loop.cpp:9-35 | so over any run, in the order of the events |
| `Executions.StartHolds` | src/dote.cpp:20-36 | the invariant holds at the start, for every configuration |
| `Executions.ServedInOrder` | src/client_forwarders.cpp:103-185 | what arrived is what was tried followed by the queue; the pool is within its limit, and full when anything waits |
| `Executions.FateOfArrival` | src/client_forwarders.cpp:103-198 | every arrival is in exactly one of: the queue, the pool, failed at send, finished |
| `Executions.RepliesAddressed` | src/client_forwarders.cpp:134-150 | a reply goes to the addresses its request came with, and a request has at most one |
| `Executions.LifeOfConnection` | src/forwarder_connection.cpp:276-292 | a connection is in the pool once while not closed, its m_shutdown fires once if it joined and closed, and setBad is called at most once and then it is closed |
| `Executions.AgreementByState` | src/forwarder_connection.cpp:89-292 | what each state has registered, bound to which member, with which deadline |
| `Executions.HandlersAreHeld` | src/loop.cpp:104-151 | the handlers in the loop are exactly those of listening sockets and those a connection holds a registration for |
| `Executions.NextConnectionChoice` | src/forwarder_connection.cpp:24-31 | after any run the next connection goes to the forwarder that failed longest ago, or never |
| `Executions.NothingLeft` | src/loop.cpp:14-15 | when no handler is left, the pool and the queue are empty and every request that came has failed or is done |
| `Births.ConstructBlames` | src/forwarder_connection.cpp:24-51 | the constructor calls setBad, on the first forwarder, if and only if there is TLS and a forwarder and either no unused handle comes back or the first connect is fatal |
| `Births.SendRequestCharges` | src/client_forwarders.cpp:124-163 | of the connections that sending makes, exactly those call setBad, in order, each on the forwarder that is first once the failures before it took theirs to the end |
| `Births.DequeueCharges` | src/client_forwarders.cpp:165-185 | the same for what waits in the queue |
| `Births.SendRequestCarries` | src/client_forwarders.cpp:124-163 | requests are tried in order, one for each connection made, and the others wait; the one that opens is in the pool with its whole request to write, the others carry nothing |
| `Births.DequeueCarries` | src/client_forwarders.cpp:165-185 | the same for what waits in the queue |
| `Events.StepIs` | src/loop.cpp:93-102 | a state is what an event leaves if and only if it keeps the invariant and is as told: by the connection waiting on the handle, what its member does with the answer of TLS, and what sending makes then; so nothing about a step is left open |
| `Events.ConnectionAfter` | src/forwarder_connection.cpp:89-264 | an event calls at most one member of at most one connection, whose next state, waiting, and buffer follow from its state and TLS's answer by a table; every other connection stays as it is |
| `Events.LoopTold` | src/loop.cpp:104-151 | the handlers in the loop are determined by the connections and the listening sockets |
| `Events.RunLoads` | src/forwarder_connection.cpp:218-264 | in every run, a connection that has not sent its request has the whole of it in its buffer |
| `Events.WrittenWhole` | src/forwarder_connection.cpp:242-250 | so what an open connection writes is the request with its number, octet for octet |
| `Events.FirstDeadline` | src/forwarder_connection.cpp:17-17 | from any start the first connection gives up the configured timeout after the clock it read |
| `Events.RetireLetsGo` | src/dote.cpp:92-95 | in every state, exactly the handlers of listening sockets go, and their handles; connections and their handlers stay |
| `Events.EveryRun` | src/loop.cpp:9-35 | for every configuration, environment and run: what listening sockets handed over, all of it and in order, is what was tried followed by what waits, and is written whole; the pool within its limit and full when anything waits; forwarders in failure order; the valid packets read are the replies, at most one each and to the addresses of its own request; and every connection has the configured timeout |
| `Reports.SendRequestMakes` | src/client_forwarders.cpp:124-163 | sending makes one connection for each request at hand up to the first that opens: the first whose TLS object, socket and handshake allow it, with that socket's handle |
| `Reports.DequeueMakes` | src/client_forwarders.cpp:165-185 | the same for what waits in the queue |
| `Reports.SendRequestStarts` | src/client_forwarders.cpp:124-163 | every connection made on the way waits to write or to read as TLS answered its connect, and its deadline is the timeout after the latest clock reading up to its own |
| `Reports.DequeueStarts` | src/client_forwarders.cpp:165-185 | the same for what waits in the queue |
| `Reports.StepMakes` | src/loop.cpp:17-31 | the connection on a handle closes exactly when an event runs one of its handlers and TLS answers in the ways listed; its handle is then free for the connection that sending opens, and otherwise it waits to write exactly on the answers listed |
| `Reports.ReportReaches` | src/loop.cpp:17-31 | after any event, the exception handler found for a handle is the polled connection's if and only if the event did not close it; otherwise it is that of the first connection able to open for what waits, if and only if that one is given the same handle; otherwise there is none. The write handler is that of the same connection, if and only if TLS let the new one write at once or asked it to, or the old one still waits to write |
| `Reports.ReportMisdirected` | src/loop.cpp:17-31 | whenever it is the new connection's, a failure in the same report closes that, and demotes its forwarder if and only if TLS was not done at once |
| `Witnesses.MisdirectedRun` | src/loop.cpp:17-31 | four events from a start with room for one connection, after which a connection was blamed that no poll reported on |
| `Sweeps.RaiseSheds` | src/loop.cpp:202-211 | raising the exception of a connection removes exactly it from the late ones, even if its handle is reused at once |
| `Sweeps.RaiseExpires` | src/loop.cpp:161-171 | of the handles with expired handlers in either map, exactly the raised one is gone |
| `Sweeps.EntryStays` | src/loop.cpp:161-171 | a handler with a deadline on another handle stays as it is |
| `Sweeps.ExpiredIsLate` | src/loop.cpp:161-164 | an expired handler belongs to a late connection, whose exception handler is there to be raised |
| `Sweeps.SweepRaises` | src/loop.cpp:161-171 | a turn of the sweep that raises: what was raised so far stays in ascending order, expired handlers passed over stay none, and the late connections get fewer |
| `Sweeps.SweepEnds` | src/loop.cpp:153-183 | when the iterator reaches the end, what was raised is exactly what was expired at first, in order |
| `Sweeps.NoneLate` | src/loop.cpp:153-183 | without expired handlers no connection in the pool has a deadline in the past |
| `Openings.StepFrees` | src/loop.cpp:202-211 | raising the exception of an expired handle closes its late connection and no other; the first connection able to open for what waits comes up, and the requests tried before it are gone from the queue |
| `Openings.RaisedClears` | src/loop.cpp:161-171 | for any number of them, one after the other: which handles expire no more, which connections came up, which handles are out and how many requests still wait, from the state before and the environment |
| `Openings.BothCleared` | src/loop.cpp:185-189 | the same for both sweeps of a timeout |
| `Turns.TimeoutClears` | src/loop.cpp:153-189 | in every reachable state, after a timeout no connection in the pool has a deadline at or before the time read, whatever requests it sent on and whatever handles they got |
| `Turns.TimeoutTurns` | src/loop.cpp:185-189 | when a poll has returned and the timeout reads a time at least the timeout later, all that ran before is given up |
| `Turns.TurnsTaken` | src/client_forwarders.cpp:165-198 | in between as many requests were tried as the pool may hold, or all there were |
| `Turns.TriedPerTurn` | src/client_forwarders.cpp:165-198 | a bound per turn, for as many turns as polls bring about: after k of them the first k times the limit of those that waited have been tried |
| `Waits.PassingPasses` | src/loop.cpp:173-177 | what one turn makes of the earliest deadline: once no handler without a deadline lies ahead, it is that of those visited since the last such handler |
| `Waits.PassingRestarts` | src/loop.cpp:168-171 | the value kept over a restart does no harm |
| `Waits.PassingEnds` | src/loop.cpp:153-183 | what the sweep returns is the earliest deadline on handles beyond every handler without a deadline, or zero |
| `Waits.WaitsForever` | src/loop.cpp:185-200 | from the state before, the time and the environment: the poll waits without limit if and only if no connection waits to write, of those not late and those that come up in either sweep, or none to read on a handle beyond all listening sockets, of those not late and those that come up in the first; and otherwise it waits until the earliest deadline of all these |
| `Waits.NothingLate` | src/loop.cpp:185-200 | while nothing is late a timeout changes nothing but the time seen |
| `Waits.QuietWait` | src/loop.cpp:185-200 | when no request waits or nothing is late, it waits without limit if and only if no connection that is not late waits to write, or none to read on a handle beyond all listening sockets |
| `Waits.RepliesAwaited` | src/loop.cpp:185-200 | so it waits without limit when every connection has sent its request and none is late, or no request waits, whatever the deadlines |
| `Waits.WakesInTime` | src/loop.cpp:185-200 | the poll wakes by every deadline in the pool if and only if, for each connection not late and each that comes up, the wait is limited and counts a deadline that is no later, as told by the state before, the time and the environment |
| `Waits.WakesBeyond` | src/loop.cpp:185-200 | with listening sockets on smaller handles than all connections, that is so if and only if nothing stays or the wait is limited |
| `Waits.QueuedBehind` | src/loop.cpp:185-200 | after a timeout a request waits behind a poll without limit if and only if the connections that come up leave one over, and none writes or none reads beyond all listening sockets |
| `Witnesses.UnlimitedRun` | src/loop.cpp:185-200 | two events after which a connection with a deadline is in the pool and the poll waits without limit at any time |
| `Witnesses.StarvedRun` | src/loop.cpp:185-200 | three events from a start with room for one connection, after which a request waits, one runs, and at any time before its deadline the timeout changes nothing and the poll has no limit |
| `Polling.ReportedExactly` | src/loop.cpp:19-30 | of one handle exactly what poll reported is handled, reading before writing before failing |
| `Polling.HandledExactly` | src/loop.cpp:17-31 | of a poll, exactly what it reported for the handles in the list |
| `Polling.RanNext` | src/loop.cpp:14-34 | one more round extends the run by exactly what the poll reported for its list, in order, and what the sweep then raised |
| `ForwarderConnections.ForwarderConnection.constructor` | src/forwarder_connection.cpp:14-52 | connection, loop and forwarders as the model's constructor leaves them |
| `ForwarderConnections.ForwarderConnection.Open` | src/forwarder_connection.cpp:31-41 | as the model's part of the constructor once the socket is connecting |
| `ForwarderConnections.ForwarderConnection.Connect` | src/forwarder_connection.cpp:89-142 | as the model's connect |
| `ForwarderConnections.ForwarderConnection.Incoming` | src/forwarder_connection.cpp:144-169 | as the model's incoming |
| `ForwarderConnections.ForwarderConnection.Shutdown` | src/forwarder_connection.cpp:171-179 | as the model's shutdown |
| `ForwarderConnections.ForwarderConnection.SayGoodbye` | src/forwarder_connection.cpp:181-216 | as the model's _shutdown |
| `ForwarderConnections.ForwarderConnection.Send` | src/forwarder_connection.cpp:218-240 | as the model's send |
| `ForwarderConnections.ForwarderConnection.Outgoing` | src/forwarder_connection.cpp:242-264 | as the model's outgoing |
| `ForwarderConnections.ForwarderConnection.Except` | src/forwarder_connection.cpp:266-274 | as the model's exception |
| `ForwarderConnections.ForwarderConnection.Close` | src/forwarder_connection.cpp:276-292 | as the model's close |
| `ClientForwarding.ClientForwarders.Construct` | src/client_forwarders.cpp:130-132 | one more connection, made as the model makes it |
| `ClientForwarding.ClientForwarders.SendRequest` | src/client_forwarders.cpp:124-163 | the whole state is that of the model's sendRequest; the mutual recursion ends with the queue |
| `ClientForwarding.ClientForwarders.Dequeue` | src/client_forwarders.cpp:165-185 | the whole state is that of the model's dequeue |
| `ClientForwarding.ClientForwarders.HandleRequest` | src/client_forwarders.cpp:103-122 | the whole state is that of the model's handleRequest |
| `ClientForwarding.ClientForwarders.HandleShutdown` | src/client_forwarders.cpp:187-198 | the whole state is that of the model's handleShutdown |
| `ClientForwarding.ClientForwarders.Stripped` | src/client_forwarders.cpp:200-217 | valid exactly with a right header, and then the datagram is the rewritten packet without its prefix |
| `ClientForwarding.ClientForwarders.HandleIncoming` | src/client_forwarders.cpp:200-245 | a valid packet is sent on rewritten and without its prefix, any other is discarded |
| `ClientForwarding.ClientForwarders.OnIncoming` | src/client_forwarders.cpp:139-150 | the reply, then the connection's shutdown |
| `ClientForwarding.ClientForwarders.Act` | src/forwarder_connection.cpp:89-292 | a member called back, with all that its m_shutdown sets off |
| `Dotes.Dote.CallRead` | src/loop.cpp:93-102 | the read handler of the handle runs as the model's event, or nothing happens |
| `Dotes.Dote.CallWrite` | src/loop.cpp:93-102 | the write handler of the handle runs as the model's event, or nothing happens |
| `Dotes.Dote.RaiseException` | src/loop.cpp:202-211 | the exception handler of the handle runs, and the result says whether there was one |
| `Dotes.Dote.Turn` | src/loop.cpp:157-181 | one turn of the sweep's loop raises or passes, and in either case gets closer to the end |
| `Dotes.Dote.Sweep` | src/loop.cpp:153-183 | the restarting sweep ends; it raised exactly the handles expired at first, each once and in order, leaves none of them expired and no other changed, and returns the earliest deadline beyond the handlers without one |
| `Dotes.Dote.Timeout` | src/loop.cpp:185-200 | the clock is read and both maps are swept, as exactly those events; no connection in the pool then has a deadline at or before the time; the wait is the one that `Waits` is about |
| `Dotes.Dote.DispatchOne` | src/loop.cpp:19-30 | read, write and exception handlers run in this order, by what poll reported |
| `Dotes.Dote.Dispatch` | src/loop.cpp:17-31 | one pass over the poll list runs exactly what was reported for its entries, in order |
| `Dotes.Dote.Round` | src/loop.cpp:17-33 | the body of the loop: exactly that, then a list that polls for what there are handlers for then, then exactly the events of a timeout, after which nothing in the pool is late |
| `Dotes.Dote.Run` | src/loop.cpp:9-35 | the state after any number of polls is that of the run of exactly what they reported and the sweeps raised, with lists that polled for what there were handlers for; it ends only on a failed poll or an empty list |
| `Dotes.Dote.constructor` | src/dote.cpp:20-45 | loop, configuration and pool are put together in the start state of the model, without listening sockets |
| `Dotes.Dote.SetForwarders` | src/dote.cpp:38-45 | the configuration holds exactly the given forwarders, in order |
| `Dotes.Dote.Listen` | src/dote.cpp:47-81 | true exactly when every socket could be bound; then the state is the model's start on their handles, and otherwise nothing is registered |
| `Dotes.Dote.Shutdown` | src/dote.cpp:92-95 | the handlers of the listening sockets are gone and their handles are free; all else is as before |
| `Dotes.Launch` | src/main.cpp:226-239 | construction and listening reach the model's start state |
| `Dotes.EmptyListDrains` | src/loop.cpp:14-15 | an empty poll list means that no handler is left in any map, although the sweep runs after the list is filled |
| `Dotes.Program` | src/main.cpp:226-255 | for every configuration and environment: main runs the model from its start; what polls brought in by the listening sockets is tried in order, all of it, within the limit, with the configured timeout, and written whole; what forwarders sent is answered to its own addresses with the rewritten packets; and it ends by itself only when every request that came has failed or is done |

## Left out

- `Walk.SkipName`: octets 64 to 191, which no valid name starts a label with, are read as unsigned lengths; the source reads them as plain `char`, whose sign depends on the platform.
- `Rewrite.Rewritten`: says nothing of packets on which the source steps beyond the packet (pointers cut short, options that do not tile their area); the methods require that this does not happen.
- `Dotes.Dote.Timeout`: returns the wait as an integer of any size, where the source narrows it to int (`src/loop.cpp:199`).
- `Loops.AddFds`: takes the handles of a map in any order, where the source takes them in ascending order; what the list says does not depend on it.
- `ForwarderConnections.ForwarderConnection.Close`: returns that m_shutdown is due instead of calling it; every path in the source calls it last, and the callers here call it at once.
- `Loops.Loop.RegisterRead`: hands the claim to the connection as a value, as the source's member of the same type; registration objects and their moves are modelled beside it.
- `Dotes.Dote.Shutdown`: frees the handles at once, although a socket stays open as long as a request that came by it is pending; so the environment is allowed more than the kernel does.
- `Dotes.Dote.Run`: does not use the wait that `Timeout` returns, because when poll returns, and with what, is for the environment to say.
- Callbacks are names (a member and a connection number) instead of function objects; their destruction while they run, and destructors at exit, are not modelled.
- Reloading the configuration during a run: `clear` and `addForwarder` are modelled alone.
- TLS itself, session caching, certificate and host verification: results are arbitrary.
- Configuration parsing, Vyatta support, sockets, signals, logging, PID file, address lookup and control messages: input and output around the logic above.
