# SSF: proved models of its protocol core

SSF builds tunnels: a client reaches a server through a circuit of relays, the two ends
multiplex fibers over one stream, and administrative messages start and stop services on the
other side. This project models the parts of SSF that hold protocol state and proves what
they keep over every input and every run. `dafny verify dfyconfig.toml` checks all of it.

The models follow the code's own form. Each handler that runs under a lock is one atomic
step; a handler that has been called, posted or dispatched and has not run yet is a token, and
tokens may fire in any order relative to all other events. For each stateful component there
is a value-level state machine (`Step`, `Run`), theorems over every sequence of events, and a
class whose methods are written like the source's and are proved to perform exactly those
steps.

| file | component |
|---|---|
| `MessagePack`, `ParameterStack`, `WireFormat` | the wire form of parameter stacks, and its bytes against the published format |
| `CNumerals` | numerals as `strtoul`, `std::stoul` and `std::to_string` treat them |
| `StringFrame` | length-prefixed strings and their 1 MiB limit |
| `Circuit`, `CircuitQuery`, `CircuitSize`, `CircuitRoute` | a relay's decision, the client's query compiler, exact message lengths, and the theorem that joins them |
| `ServiceRegistry`, `ServiceManager`, `AdminProtocol`, `AdminHistory` | the client's mirror of the peer's services, the peer's id allocation, the two-party protocol, and the protocol told from its events |
| `ReadBuffers`, `FiberStream`, `FiberDatagram`, `PacketFraming` | the fiber runtime, from packets on the shared stream to completed reads |
| `CopyScheduler` | the parallel file copy scheduler |
| `Rendezvous`, `TlsAcceptor`, `CircuitAcceptor` | the meeting of connections and accept operations, and the two acceptors built on it |
| `ForwardOptions` | the parser of `-L`, `-R`, `-U` and `-V` values |
| `Reconnection`, `InterfaceMount`, `RelayChain` | the reconnection, mounting and relaying machines |

## Main results

- **Circuit.** The client's query is a nest of serialised stacks. Running it over the wire,
  relay by relay, equals walking the configured route (`CircuitRoute.RunIsWalk`), so the hosts
  dialled are the route in order, and the target accepts with the id `-1` if and only if the
  route is passable and the first message is at most 1 MiB (`CircuitRoute.CircuitVisitsRoute`).
  The length of that message is computed exactly from the lengths of the configured addresses
  and ports (`CircuitSize.TicketLength`).
  For any received bytes at all, the string a relay passes on is strictly shorter.
- **Admin mirror.** Over two FIFO channels, with id reuse and services the peer starts for
  itself, processing the answers in flight would leave the client with exactly the peer's
  services it started and has not stopped, except those whose stop reported an error; what the
  peer runs is told from the run's events alone (`AdminHistory.RunMatchesEvents`,
  `MirrorFromEvents`, `MirrorExact`, `MirrorCompleteIff`).
- **Fibers.** Bytes are conserved from a write to the reads of the peer under any schedule of
  packets, reads, handler runs and cancels (`PacketFraming.WriteReachesReads`); each handler run
  gives the oldest read all the bytes that are next and fit
  (`FiberStream.HandlerRunServes`), and handler runs come to rest.
- **Bytes.** Messages are exactly their MessagePack form, written out in literals
  (`WireFormat.SerializeIsMessagePack`).
- **Copy.** The listing stays partitioned, the scheduler is work conserving and within its
  limit, and the final report fires exactly when all files are reported and is a function of
  the per-file outcomes alone: 204, 203 or 0 when all, some or none of several files failed
  (`CopyScheduler.CopyTheorem`).
- **Acceptors.** No lost wake-up, FIFO matching head to head, and every connection and accept
  of the run accounted for exactly once, in the circuit acceptor at each endpoint and across
  rebinds (`RendezvousTheorem` in both acceptor modules).
- **Parser.** The accepted strings are characterised exactly, for all strings
  (`ForwardOptions.ParserExact`).

## Where the code differs from what one might expect

- A stop request is answered with `EINTR` even when the service's own stop fails. The service
  then keeps running and disappears from the client's table (`FailedStopHidesService`); the
  mirror is complete if and only if no such service is running (`MirrorCompleteIff`).
- The TCP-only build compares stacks of depth three with defaults of depth two, so relays
  never substitute defaults there (`TcpDefaultsNeverApply`); the route theorems are about the
  TLS build.
- A reconnection limit of 2^32 - 1 is no limit, because the counter wraps
  (`LargestLimitIsNoLimit`); the bound holds exactly for the smaller limits (`BoundHoldsIff`).
- After an unmount, a connect chain that is still under way can end a later mount of the same
  name without its callback being posted (`StaleChainEndsNewMount`). A mount is sure to report
  exactly when it ends if and only if no chain of an earlier mount of its name is left
  (`ReportsOnceIff`).
- A second `listen` with a smaller backlog does not shorten the queue
  (`SmallerBacklogKeepsQueue`). The queue stays within the backlog in force throughout a run if
  and only if no `listen` asks for less than is queued when it is called
  (`BacklogHonouredIff`).
- An embedded NUL after the last colon hides the rest of a forward option (`NulHidesTheRest`).
  An accepted string has the documented form if and only if no NUL follows its last colon; a
  NUL anywhere else does no harm (`ParserExact`).
- `clean_pending_accepts` of the TLS acceptor takes its lock in a temporary that is released
  at once, so each round of its loop is a separate step of the model.

## Model

| member | source | states |
|---|---|---|
| `MessagePack.HeaderRoundTrip` | src/network/ssf/layer/parameters.cpp:9-15 | every array, map and str header below 2^32 items reads back as its count, leaving what follows it |
| `MessagePack.StrRoundTrip` | src/network/ssf/layer/parameters.cpp:9-28 | a packed string in front of any input reads back as itself, whatever its bytes |
| `ParameterStack.SortedKeys` | src/network/ssf/layer/parameters.cpp:9-15 | the order in which a layer is written: all keys, each once, ascending |
| `ParameterStack.Unserialize` | src/network/ssf/layer/parameters.cpp:17-28 | on any input, every value read is strictly shorter than the input |
| `ParameterStack.StackRoundTrip` | src/network/ssf/layer/parameters.cpp:9-28 | a written stack followed by anything reads back exactly and leaves exactly what followed |
| `ParameterStack.SerializeRoundTrip` | src/network/ssf/layer/parameters.cpp:9-28 | unserialise undoes serialise for every stack within 32-bit lengths, values that are themselves serialised stacks included |
| `ParameterStack.TruncationIsRejected` | src/network/ssf/layer/parameters.cpp:17-28 | a message cut short anywhere decodes to the empty stack |
| `ParameterStack.SerializeInjective` | src/network/ssf/layer/parameters.cpp:9-15 | two different stacks never share a wire form |
| `WireFormat.HeaderExact` | src/network/ssf/layer/parameters.cpp:9-15 | the header written for a count is the one form MessagePack lists for it, lead bytes and big-endian lengths in literals |
| `WireFormat.HeaderReadExact` | src/network/ssf/layer/parameters.cpp:17-28 | a reader takes exactly the listed header forms, bin forms for strings included, and leaves what follows |
| `WireFormat.SerializeIsMessagePack` | src/network/ssf/layer/parameters.cpp:9-15 | a string is the serialised form of a stack if and only if it is its MessagePack form, byte by byte |
| `WireFormat.MessagePackIsRead` | src/network/ssf/layer/parameters.cpp:17-28 | every message in that form is read back as its stack |
| `WireFormat.FirstOfEqualKeysCounts` | src/network/ssf/layer/parameters.cpp:17-28 | of two pairs with the same key the first is kept |
| `WireFormat.DestinationMessage` | src/network/ssf/layer/data_link/circuit_helpers.cpp:22-33 | the 50 literal bytes of the destination message, written and read |
| `CNumerals.StrtoulOfDecimal` | src/services/user_services/option_parser.cpp:30-31 | reading a printed number in front of a non-digit gives the number and stops right after it |
| `CNumerals.StrtoulExact` | src/services/user_services/option_parser.cpp:30-31 | white space, a sign and digits are read as their place value, its complement to 2^64 for a minus sign, or the largest value when too big, and the end is right after them |
| `CNumerals.StrtoulNothing` | src/services/user_services/option_parser.cpp:30-31 | where no digits follow white space and a sign, nothing is converted |
| `StringFrame.DeliveryExact` | src/network/ssf/network/object_io_helpers.h:38-94 | a sent string arrives whole if and only if it is at most 1 MiB; what arrives otherwise, size wrap-around included |
| `StringFrame.FrameLayout` | src/network/ssf/network/object_io_helpers.h:38-61 | the bytes on the socket: a four-byte size, least significant first, and the string |
| `Circuit.InitConnectionServer` | src/network/ssf/layer/data_link/simple_circuit_policy.h:92-146 | the in-place loop with two iterators computes the substitution of defaults, the resolve test of every stack but a one-layer one, and the decision to accept, relay or refuse |
| `Circuit.SubstituteChangesIff` | src/network/ssf/layer/data_link/simple_circuit_policy.h:119-133 | substitution changes a stack exactly when depths agree and some layer marked default differs from the relay's own |
| `Circuit.DecideSent` | src/network/ssf/layer/data_link/simple_circuit_policy.h:106-146 | what becomes of a message in terms of the stack that was sent: when it is accepted, refused, or relayed, and to whom with what |
| `Circuit.RelayedStringShrinks` | src/network/ssf/layer/data_link/simple_circuit_policy.h:84-146 | for any received bytes, the string relayed is strictly shorter than the one received |
| `Circuit.DefaultsOnArrival` | src/network/ssf/layer/data_link/basic_circuit_acceptor_service.h:475-489 | defaults serialised at bind, unserialised, and serialised again per connection still decode to the server's defaults |
| `Circuit.Handle` | src/network/ssf/layer/data_link/basic_circuit_acceptor_service.h:493-543 | handling any string dials at most as many hosts as the string has bytes, over any network |
| `Circuit.Arrive` | src/network/ssf/layer/data_link/circuit_op.h:45-66 | connecting and sending any string leads to at most as many dials as the string has bytes |
| `CircuitQuery.NodeParameterList.PushBackNode` | src/network/ssf/layer/data_link/circuit_helpers.cpp:73-75 | the back node is a new empty stack at the front of the underlying list |
| `CircuitQuery.NodeParameterList.AddTopLayerToBackNode` | src/network/ssf/layer/data_link/circuit_helpers.cpp:83-85 | the layer goes on top of the back node; all other nodes are unchanged |
| `CircuitQuery.MakeClientFullCircuit` | src/network/ssf/layer/data_link/circuit_helpers.cpp:135-153 | the loop builds the nested wrapping of all nodes around the destination, then relabels the outermost layer |
| `CircuitQuery.WrappedHops` | src/network/ssf/layer/data_link/circuit_helpers.cpp:135-153 | wrapping the reversed node list yields the ticket of the route, defined by recursion along the route |
| `CircuitQuery.PushFirst` | src/core/network_protocol.cpp:73-76 | the first hop's node carries the client's own TLS and proxy layers over its address |
| `CircuitQuery.PushHop` | src/core/network_protocol.cpp:79-83 | every further hop's node carries two default layers over its address |
| `CircuitQuery.QueryFromList` | src/core/network_protocol.cpp:71-91 | the query of a route is its wrapped node list, relabelled, under the client's TLS layer |
| `CircuitQuery.GenerateClientTlsQuery` | src/core/network_protocol.cpp:59-92 | the generated query is the compiled form of the route first hop, then circuit |
| `CircuitQuery.GenerateNetworkQuery` | src/core/client/client_helper.cpp:5-26 | rotating first hop and target gives the query of the route configured hops, then target |
| `CircuitRoute.WalkVisitsRoute` | src/network/ssf/layer/data_link/basic_circuit_acceptor_service.h:508-521 | the reference walk dials a prefix of the route, is accepted iff the route is passable, and then with id "-1" |
| `CircuitRoute.WalkDials` | src/network/ssf/layer/data_link/simple_circuit_policy.h:116-133 | the i-th dial uses the TLS and proxy layers of the node reached just before |
| `CircuitSize.OnePairMore` | src/network/ssf/layer/parameters.cpp:9-15 | a new key adds exactly its two packed strings to a layer, wherever the key order puts it |
| `CircuitSize.HopSize` | src/network/ssf/layer/data_link/circuit_helpers.cpp:10-20 | the exact length of one hop's serialised stack around a given rest |
| `CircuitSize.TicketLength` | src/network/ssf/layer/data_link/circuit_helpers.cpp:135-153 | a route compiles exactly when its parts fit 32-bit lengths, and the length of its nested message is a function of the lengths of addresses and ports |
| `CircuitSize.ShortCompiles` | src/network/ssf/layer/data_link/circuit_helpers.cpp:135-153 | every route whose message is below 2^32 bytes compiles |
| `CircuitRoute.SubstituteHop` | src/network/ssf/layer/data_link/simple_circuit_policy.h:116-133 | at a relay of the TLS build default layers become its own TLS and proxy layers; address, port and remaining route are unchanged |
| `CircuitRoute.DecideTicket` | src/network/ssf/layer/data_link/simple_circuit_policy.h:106-146 | a server relays a ticket to its first hop with the ticket of the rest, and accepts the empty ticket |
| `CircuitRoute.HandleTicket` | src/network/ssf/layer/data_link/basic_circuit_acceptor_service.h:493-543 | a server that receives a ticket within the limit walks its hops |
| `CircuitRoute.ArriveTicket` | src/network/ssf/layer/data_link/simple_circuit_policy.h:59-87 | sending a ticket to a hop continues the walk there |
| `CircuitRoute.OversizedTicketIsRefused` | src/network/ssf/network/object_io_helpers.h:63-94 | a ticket over 1 MiB is refused by the first node that gets it, also when its size field wraps |
| `CircuitRoute.RunIsWalk` | src/network/ssf/layer/data_link/circuit_helpers.cpp:135-153 | compiling a route and running the query over the wire equals walking the route, or stops at the first hop when the message is over 1 MiB |
| `CircuitRoute.CircuitVisitsRoute` | src/network/ssf/layer/data_link/basic_circuit_acceptor_service.h:493-543 | for every hop list, target, client and network: dials are a prefix of the route; acceptance iff the route is passable and the message length, computed from address and port lengths, is within 1 MiB; then the whole route in order, each hop dialled with the previous node's layers, id "-1" at the target |
| `CircuitRoute.OversizedRun` | src/network/ssf/network/object_io_helpers.h:63-94 | a client whose message is over 1 MiB dials the first host at most, and is refused |
| `CircuitRoute.WalkIgnoresLayers` | src/network/ssf/layer/data_link/simple_circuit_policy.h:116-133 | two networks that differ in layers only give walks with the same hosts and outcome |
| `CircuitRoute.RouteIgnoresLayers` | src/network/ssf/layer/data_link/simple_circuit_policy.h:116-133 | over two networks that differ in TLS and proxy layers only, every run visits the same hosts and ends alike, accepted, refused or oversized |
| `CircuitRoute.LaterMessagesFit` | src/network/ssf/network/object_io_helpers.h:63-94 | after one message of any content has passed the limit, the message relayed from it arrives whole |
| `CircuitRoute.TcpDefaultsNeverApply` | src/core/network_protocol.cpp:114-115 | in the TCP-only build the depths differ and nothing is substituted |
| `ServiceRegistry.RemoveExact` | src/core/service_manager/service_manager.h:132-143 | removing an id takes out its entry and no other |
| `ServiceRegistry.ApplyKeepsConsistent` | src/core/service_manager/service_manager.h:82-143 | each call keeps: equal non-zero keys, every live id listed once and only under its type, at most 100 errors per type |
| `ServiceRegistry.RunConsistent` | src/core/service_manager/service_manager.h:82-143 | the tables are consistent after any run of calls |
| `ServiceRegistry.RunStatus` | src/core/service_manager/service_manager.h:82-112 | after any run the table knows exactly the live ids, each with the type it was added with and the last value reported since |
| `ServiceRegistry.CallOnInstances` | src/core/service_manager/service_manager.h:82-143 | how a call changes each instance list, in terms of starts and stops |
| `ServiceRegistry.RunInstances` | src/core/service_manager/service_manager.h:82-143 | after any run each instance list is exactly the live starts of its type in the history, newest first |
| `ServiceRegistry.RunErrors` | src/core/service_manager/service_manager.h:114-130 | after any run each error list is the 100 newest failures of its type |
| `ServiceRegistry.FirstWithIsMostRecent` | src/core/service_manager/service_manager.h:32-58 | the lookup returns the first match of the list, and 0 exactly when there is none |
| `ServiceRegistry.GetIdAfterRun` | src/core/service_manager/service_manager.h:32-44 | after any run get_id returns the most recently added live match of the type, or 0 iff there is none |
| `ServiceManager.ServiceManager.Search` | src/core/service_manager/service_manager.h:32-58 | the search loop finds the number of the first entry with the parameters, or 0 |
| `ServiceManager.ServiceManager.GetId` | src/core/service_manager/service_manager.h:32-44 | looks up the type's instance list and changes the contents of no list |
| `ServiceManager.ServiceManager.FindError` | src/core/service_manager/service_manager.h:46-58 | looks up the type's error list and changes the contents of no list |
| `ServiceManager.ServiceManager.GetStatus` | src/core/service_manager/service_manager.h:60-80 | the id's status if it is live, else the recorded error of the request, else undefined |
| `ServiceManager.ServiceManager.UpdateRemote` | src/core/service_manager/service_manager.h:82-93 | an unknown id is added, a known one updated |
| `ServiceManager.ServiceManager.UpdateKnownRemote` | src/core/service_manager/service_manager.h:95-111 | EINTR deletes the id from all three tables, other codes set its status, unknown ids change nothing |
| `ServiceManager.ServiceManager.AddRemoteService` | src/core/service_manager/service_manager.h:114-130 | a non-zero id is filed as newest instance, zero as newest error with the oldest beyond 100 dropped |
| `ServiceManager.ServiceManager.RemoveIdFromInstances` | src/core/service_manager/service_manager.h:132-143 | the erase loop removes the first entry with the id from that type's list only |
| `ServiceManager.FreeFrom` | src/network/ssf/network/manager.h:113-121 | the smallest free id at or above a start, or 0 exactly when there is none below 2^32 - 1 |
| `ServiceManager.ItemManager.GetAvailableId` | src/network/ssf/network/manager.h:113-121 | the search loop finds the smallest free id |
| `ServiceManager.ItemManager.Start` | src/network/ssf/network/manager.h:68-88 | an item is stored under a fresh smallest id; without a free id or on a start error nothing changes |
| `ServiceManager.ItemManager.Stop` | src/network/ssf/network/manager.h:90-102 | a stopped item leaves the map; an unknown id or a failing stop changes nothing |
| `AdminProtocol.SettledSnoc` | src/services/admin/requests/service_status.h:75-82 | processing one more answer after those in flight is applying it last |
| `AdminProtocol.StartMirrored` | src/services/admin/requests/create_service_request.h:57-122 | the answer to a creation extends the mirror by exactly the new service |
| `AdminProtocol.StopMirrored` | src/services/admin/requests/stop_service_request.h:73-118 | a stop answer removes exactly that id, whether the stop worked, failed or hit nothing |
| `AdminProtocol.FailureMirrored` | src/services/admin/requests/create_service_request.h:108-121 | a failed creation leaves the mirror as it is |
| `AdminProtocol.StepKeepsInv` | src/services/admin/admin.ipp:336-377 | every send, handling, receipt and local start or stop keeps the mirror invariant |
| `AdminProtocol.RunKeepsInv` | src/services/admin/admin.ipp:336-377 | the mirror invariant holds in every run |
| `AdminProtocol.MirrorTheorem` | src/core/factories/service_factory.h:61-106 | in every run the table with the answers in flight applied shows exactly the client's services whose stop has not failed, with type, parameters and status 0 |
| `AdminHistory.StepRunsJobs` | src/network/ssf/network/manager.h:68-102 | every event changes what the peer runs as the jobs told from the events: a start takes the smallest free id, a working stop erases the id |
| `AdminHistory.RunMatchesEvents` | src/services/admin/admin.ipp:336-377 | in every run the peer runs exactly the jobs started and not stopped by a stop that worked, with type, parameters and origin; both channels are FIFO; the table is the result of the answers received |
| `AdminHistory.MirrorFromEvents` | src/core/service_manager/service_manager.h:82-143 | the settled table holds exactly the client's jobs of the run except those of which a stop failed, with their types and parameters |
| `AdminHistory.MirrorExact` | src/core/service_manager/service_manager.h:82-143 | when no stop reports an error, the settled table's ids are exactly the ids started for the client and not stopped, told from the events |
| `AdminHistory.MirrorCompleteIff` | src/services/admin/requests/stop_service_request.h:73-79 | the table shows all running jobs of the client if and only if none of them has had a failing stop |
| `AdminHistory.CreationOutcome` | src/core/factories/service_factory.h:61-82 | a service starts if and only if its type is known, its start reports no error and an id is free; otherwise the cause (10000, 10001, 16 or the start's code) becomes the newest error of its type in the client's table |
| `AdminProtocol.GetIdFindsRunning` | src/core/service_manager/service_manager.h:32-44 | with no answer in flight, get_id finds an id exactly when the peer runs such a service for the client whose stop has not failed, and the id names one |
| `AdminProtocol.FailedStopHidesService` | src/services/admin/requests/stop_service_request.h:73-79 | a stop that fails at the peer leaves the service running and out of the client's table |
| `AdminProtocol.CreationShowsService` | src/services/admin/requests/create_service_request.h:57-122 | a concrete exchange that reaches the state the previous row starts from |
| `ReadBuffers.FillBuffers` | src/common/boost/fiber/detail/io_fiber_read_op.hpp:128-148 | the copied parts are the stream's first min(total, available) bytes, every part but the last filling its buffer, and exactly these are consumed |
| `FiberStream.DrainShape` | src/common/boost/fiber/detail/basic_fiber_impl.hpp:367-412 | a cancel completes every pending read in order, successes first, errors only once the buffer is empty |
| `FiberStream.StepKeepsInv` | src/common/boost/fiber/detail/basic_fiber_impl.hpp:367-412 | arrivals, reads, handler runs and cancels all keep conservation and the scheduled-run invariant |
| `FiberStream.StreamConservation` | src/common/boost/fiber/detail/basic_fiber_impl.hpp:206-217 | in every run delivered bytes then buffered bytes are all bytes received, reads complete in issue order within their room, and a servable read has a run scheduled |
| `FiberStream.ReceivedIsArrivals` | src/common/boost/fiber/detail/basic_fiber_impl.hpp:206-217 | the bytes received are the concatenation of the arrivals of the run |
| `FiberStream.HandlerRunServes` | src/common/boost/fiber/detail/basic_fiber_impl.hpp:367-412 | in every run, a handler run gives the oldest unanswered read the next undelivered bytes, as many as there are and as fit, or completes nothing when there is no such read or byte |
| `FiberStream.ServedIsNotEmpty` | src/common/boost/fiber/detail/io_fiber_read_op.hpp:128-148 | a filled read with room is never empty |
| `FiberStream.CancelServes` | src/common/boost/fiber/detail/basic_fiber_impl.hpp:482-488 | each completion a cancel adds is served in the same way while bytes are left, and an error afterwards |
| `FiberStream.HandlersComeToRest` | src/common/boost/fiber/detail/basic_fiber_impl.hpp:367-412 | after as many handler runs as there are tokens and pending reads, none is scheduled and no read waits beside data |
| `FiberStream.AtRestNothingWaits` | src/common/boost/fiber/detail/basic_fiber_impl.hpp:367-412 | without scheduled runs, no read waits beside data, and waiting reads mean all data was delivered |
| `FiberStream.FiberImpl.ReceiveHandler` | src/common/boost/fiber/detail/basic_fiber_impl.hpp:206-217 | performs the arrival step with the transferred bytes |
| `FiberStream.FiberImpl.AsyncReceive` | src/common/boost/fiber/stream_fiber_service.hpp:246-293 | performs the read step: queue the operation, schedule a run |
| `FiberStream.FiberImpl.QueuesHandler` | src/common/boost/fiber/detail/basic_fiber_impl.hpp:367-412 | performs one handler run: at most one read is filled and another run scheduled |
| `FiberStream.FiberImpl.FillOne` | src/common/boost/fiber/detail/io_fiber_read_op.hpp:128-148 | the scatter copy fills the oldest read with a prefix of the buffer |
| `FiberStream.FiberImpl.CancelOperations` | src/common/boost/fiber/detail/basic_fiber_impl.hpp:482-488 | the error loop performs the drain |
| `FiberDatagram.DrainConserves` | src/common/boost/fiber/detail/basic_fiber_impl.hpp:418-476 | a cancel empties the read queue and keeps the pairing, on the error path too |
| `FiberDatagram.DrainShape` | src/common/boost/fiber/detail/basic_fiber_impl.hpp:418-476 | a cancel completes every pending read in order, paired reads first, errors only once no datagram waits |
| `FiberDatagram.StepKeepsInv` | src/common/boost/fiber/detail/basic_fiber_impl.hpp:418-476 | every event keeps pairing, order and enough scheduled runs |
| `FiberDatagram.ReceivedIsArrivals` | src/common/boost/fiber/detail/basic_fiber_impl.hpp:219-230 | the datagrams received are the arrivals of the run, in order |
| `FiberDatagram.DatagramPairing` | src/common/boost/fiber/detail/basic_fiber_impl.hpp:418-476 | in every run port and datagram queues are equally long, and the k-th filled read holds a prefix of the k-th datagram that arrived, with that datagram's port |
| `FiberDatagram.HandlerRunPairs` | src/common/boost/fiber/detail/basic_fiber_impl.hpp:418-476 | a handler run gives the oldest unanswered read the oldest datagram not yet handed out, or completes nothing |
| `FiberDatagram.HandlersComeToRest` | src/common/boost/fiber/detail/basic_fiber_impl.hpp:418-476 | handler runs come to an end, and then no datagram waits beside a read |
| `FiberDatagram.DatagramFiberImpl.ReceiveHandler` | src/common/boost/fiber/detail/basic_fiber_impl.hpp:219-230 | performs the arrival step, cutting the buffer to the bytes transferred |
| `FiberDatagram.DatagramFiberImpl.QueuesHandler` | src/common/boost/fiber/detail/basic_fiber_impl.hpp:418-476 | performs one handler run |
| `FiberDatagram.DatagramFiberImpl.PairOne` | src/common/boost/fiber/detail/io_fiber_dgr_read_op.hpp:129-134 | the oldest read gets the oldest datagram's head and the oldest port |
| `FiberDatagram.DatagramFiberImpl.CancelOperations` | src/common/boost/fiber/detail/basic_fiber_impl.hpp:482-488 | the error loop performs the drain |
| `PacketFraming.PacketLayout` | src/common/boost/fiber/detail/fiber_header.hpp:46-76 | the bytes of a packet: version 1, local port, remote port, flags, size, all least significant byte first, then the payload |
| `PacketFraming.PacketRoundTrip` | src/common/boost/fiber/detail/fiber_header.hpp:46-76 | a packet in front of anything decodes to its id, flags and payload and leaves the rest |
| `PacketFraming.PartialPacketWaits` | src/common/boost/fiber/detail/fiber_buffer.hpp:164-197 | an incomplete packet is not decoded |
| `PacketFraming.FramingTheorem` | src/common/boost/fiber/detail/fiber_buffer.hpp:164-197 | any prefix of the concatenated wire bytes decodes to exactly the packets complete in it |
| `PacketFraming.FiberBuffer.ReadPacket` | src/common/boost/fiber/detail/fiber_buffer.hpp:164-197 | for any earlier contents of the buffer, its contents are the packet just read: no stale bytes |
| `PacketFraming.FiberBuffer.Resize` | src/common/boost/fiber/detail/fiber_buffer.hpp:87-91 | growing the data vector keeps its bytes |
| `PacketFraming.PartialBuffers` | src/common/boost/fiber/basic_fiber_demux_service.ipp:649-670 | the partial buffer sequence holds exactly the first bytes of the buffers |
| `PacketFraming.AsyncSend` | src/common/boost/fiber/basic_fiber_demux_service.ipp:592-620 | oversized datagrams are refused, other payloads cut to the clamped MTU, and what is sent fits the header's fields |
| `PacketFraming.PushAllCarriesData` | src/common/boost/fiber/basic_fiber_demux_service.ipp:592-620 | the push packets of a composed write carry exactly its data in order |
| `PacketFraming.PushAllFillsPackets` | src/common/boost/fiber/basic_fiber_demux_service.ipp:592-620 | the packets of a composed write are non-empty push packets, full up to min(MTU, 61440) except the last |
| `PacketFraming.DispatchProjects` | src/common/boost/fiber/basic_fiber_demux_service.ipp:294-306 | each bound fiber receives exactly its own push packets, in order |
| `PacketFraming.PacketsReachReads` | src/common/boost/fiber/basic_fiber_demux_service.ipp:294-306 | for any packets on the stream, after framing, dispatch and any schedule of the fiber, bytes read then bytes buffered are the payloads of the fiber's own push packets in order |
| `PacketFraming.PushWritesCarryData` | src/common/boost/fiber/basic_fiber_demux_service.ipp:592-620 | the push packets of several writes carry the data of all of them in order |
| `PacketFraming.WriteReachesReads` | src/common/boost/fiber/detail/basic_fiber_demux_impl.hpp:58 | whatever else is on the stream, bytes read then bytes buffered are the bytes of all the writes on the fiber |
| `CopyScheduler.NotifyKeepsInv` | src/services/copy/file_sender.h:386-426 | a report keeps partition, limit, counts and the once-only final report |
| `CopyScheduler.DrainReportsPending` | src/services/copy/file_sender.h:93-111 | stopping reports each pending file as exactly one error and leaves in-flight files alone |
| `CopyScheduler.StepKeepsInv` | src/services/copy/file_sender.h:152-224 | every event keeps the scheduler's invariants |
| `CopyScheduler.CopyTheorem` | src/services/copy/file_sender.h:152-224 | in every run of distinct names: partition, limit, work conservation, and the finished report present exactly when all files are reported, with the counts and the code (one file's own; 204 all, 203 some, 0 none failed) that the outcomes call for |
| `CopyScheduler.FailuresCount` | src/services/copy/file_sender.h:416-424 | comparing the error count with the file count tells all, some and none failed apart |
| `CopyScheduler.FilesTakenInOrder` | src/services/copy/file_sender.h:152-167 | files are started, or given up by a stop, in the order of the listing |
| `CopyScheduler.ListingIsFirst` | src/services/copy/file_sender.h:135-150 | the files copied are those of the run's first listing |
| `CopyScheduler.RunStartsFirst` | src/services/copy/file_sender.h:152-167 | a scheduled run of a live sender with room starts the first pending file, and otherwise none |
| `CopyScheduler.ReportOutcome` | src/services/copy/file_sender.h:386-414 | a report takes its file out of flight with its outcome, and its place goes to the first pending file unless stopped |
| `CopyScheduler.StopOutcome` | src/services/copy/file_sender.h:84-113 | a stop turns every pending file into exactly one error and leaves files in flight alone |
| `CopyScheduler.ErrorsWithinFiles` | src/services/copy/file_sender.h:386-426 | errors never exceed files, in the counters and in the report |
| `CopyScheduler.ReportIgnoresSchedule` | src/services/copy/file_sender.h:412-426 | runs with equal outcomes report the same whatever their limits and interleavings |
| `CopyScheduler.AtRestIsFinished` | src/services/copy/file_sender.h:152-165 | a scheduler at rest with room for a copy has reported all files and finished |
| `CopyScheduler.WorkDecreases` | src/services/copy/file_sender.h:152-224 | two per pending plus one per in-flight file decreases with each start and report |
| `CopyScheduler.FileSender.RunFileSessions` | src/services/copy/file_sender.h:135-150 | performs the listing step |
| `CopyScheduler.FileSender.RunFileSession` | src/services/copy/file_sender.h:152-224 | starts at most one file and posts another run if files remain |
| `CopyScheduler.FileSender.RunPosted` | src/services/copy/file_sender.h:214-216 | performs one posted run |
| `CopyScheduler.FileSender.NotifyFileCopied` | src/services/copy/file_sender.h:386-426 | performs the report step, with the source's choice of final code |
| `CopyScheduler.FileSender.NotifyCopyFinished` | src/services/copy/file_sender.h:428-450 | adds one final report with the current counters |
| `CopyScheduler.FileSender.BeginStop` | src/services/copy/file_sender.h:84-89 | sets the stop flag only |
| `CopyScheduler.FileSender.DrainPending` | src/services/copy/file_sender.h:94-111 | the loop of Stop performs the drain |
| `ForwardOptions.RFindSpec` | src/services/user_services/option_parser.cpp:22-46 | rfind gives the last colon at or before the position, or npos when there is none |
| `ForwardOptions.ParseForwardOptions` | src/services/user_services/option_parser.cpp:14-65 | the step-by-step scan computes the parse, including the wrap of e - 1 at zero |
| `ForwardOptions.WrapIsRejected` | src/services/user_services/option_parser.cpp:45-61 | where the search wraps around, the option is rejected |
| `ForwardOptions.MeaningIsParsed` | src/services/user_services/option_parser.cpp:14-65 | every string `[A:]P1:H:P2` with colon-free P1, H, P2 and both ports valid is parsed to those parts |
| `ForwardOptions.ParsedHasMeaning` | src/services/user_services/option_parser.cpp:14-65 | every string that parses and has no NUL after its last colon has that form, with exactly those parts |
| `ForwardOptions.ParserExact` | src/services/user_services/option_parser.cpp:14-65 | on every string: it has the form, with the given meaning, if and only if it parses to that meaning and no NUL follows its last colon |
| `ForwardOptions.NulHidesTheRest` | src/services/user_services/option_parser.cpp:28-35 | a family of strings with an embedded NUL that parse although they do not have the form |
| `ForwardOptions.ParseUndoesPrint` | src/services/user_services/option_parser.cpp:14-65 | parsing undoes printing for every endpoint pair with a colon-free host |
| `ForwardOptions.IsPortExact` | src/services/user_services/option_parser.cpp:30-35 | a text is a port if and only if it is white space, a sign and digits whose value (with a minus sign, what is missing to 2^64) is at most 65535 |
| `ForwardOptions.ParsePortExact` | src/services/user_services/option_parser.cpp:93-105 | ParsePort takes exactly the ports, and the empty text for port 0 |
| `ForwardOptions.BagKeepsEndpoints` | src/services/user_services/port_forwarding.h:59-103 | a bag is made iff the line parses, holds the four fields of the parsed endpoints, and the service made from it has these endpoints |
| `ForwardOptions.ServiceUndoesPrint` | src/services/user_services/port_forwarding.h:59-103 | a printed endpoint pair comes unchanged through the parser, the bag and ParsePort |
| `Rendezvous.MeetKeepsOrderly` | src/network/ssf/layer/cryptography/basic_crypto_stream.h:762-783 | letting both heads meet keeps both queues first in, first out and both logs telling of the same matches |
| `Rendezvous.CleanKeepsOrderly` | src/network/ssf/layer/cryptography/basic_crypto_stream.h:750-760 | closing all connections or cancelling all accepts keeps order and matches |
| `Rendezvous.EachInOnePlace` | src/network/ssf/layer/cryptography/basic_crypto_stream.h:713-796 | each connection is taken, queued or dropped and each accept taken or queued, exactly once |
| `TlsAcceptor.StepKeepsOrderly` | src/network/ssf/layer/cryptography/basic_crypto_stream.h:713-796 | every event keeps the rendezvous orderly |
| `TlsAcceptor.HistoryIsEvents` | src/network/ssf/layer/cryptography/basic_crypto_stream.h:713-739 | the record of arrivals and accepts is that of the run's events |
| `TlsAcceptor.RendezvousTheorem` | src/network/ssf/layer/cryptography/basic_crypto_stream.h:713-796 | in every run: min of both queues within the scheduled runs, both sides FIFO with the same matches, each handshaked connection in exactly one of delivered or closed, queued or dropped, the queue within the largest backlog, nothing queued after close |
| `TlsAcceptor.HandshakeOutcome` | src/network/ssf/layer/cryptography/basic_crypto_stream.h:713-739 | a handshaked connection is dropped if and only if the queue then holds at least the backlog of the last listen with no close begun since; otherwise it joins the queue |
| `TlsAcceptor.DroppedExactly` | src/network/ssf/layer/cryptography/basic_crypto_stream.h:723-736 | in every run exactly those connections were dropped |
| `TlsAcceptor.HandlerRunMatches` | src/network/ssf/layer/cryptography/basic_crypto_stream.h:762-783 | a handler run with both sides waiting matches the two heads and schedules another, and otherwise does nothing |
| `TlsAcceptor.HandlersComeToRest` | src/network/ssf/layer/cryptography/basic_crypto_stream.h:741-784 | handler runs come to an end, and then no connection waits beside an accept |
| `TlsAcceptor.CleaningSteps` | src/network/ssf/layer/cryptography/basic_crypto_stream.h:750-760 | cleaning cancels every queued accept, or closes every queued connection, in order |
| `TlsAcceptor.NothingQueuedAfterClose` | src/network/ssf/layer/cryptography/basic_crypto_stream.h:500-518 | once a close has begun and has cleaned the connections, nothing is queued until the next listen, whatever comes in between |
| `TlsAcceptor.BacklogHonouredIff` | src/network/ssf/layer/cryptography/basic_crypto_stream.h:547-565 | the queue stays within the backlog in force at every moment of a run if and only if no listen asks for less than is queued when it is called |
| `TlsAcceptor.QueueWithinBacklog` | src/network/ssf/layer/cryptography/basic_crypto_stream.h:723-736 | with one backlog throughout, the queue never exceeds it and is within the backlog in force at every moment |
| `TlsAcceptor.SmallerBacklogKeepsQueue` | src/network/ssf/layer/cryptography/basic_crypto_stream.h:547-565 | a concrete run in which a later, smaller backlog is exceeded |
| `TlsAcceptor.AtRestNoPairWaits` | src/network/ssf/layer/cryptography/basic_crypto_stream.h:741-784 | with no run scheduled, connections and accepts are not both waiting |
| `TlsAcceptor.ClosedUntilListen` | src/network/ssf/layer/cryptography/basic_crypto_stream.h:500-518 | after a finished close nothing is queued until the next listen, whatever happens |
| `TlsAcceptor.AcceptorContext.ListenOn` | src/network/ssf/layer/cryptography/basic_crypto_stream.h:554-560 | performs the listen step, the backlog cast to 64 unsigned bits |
| `TlsAcceptor.AcceptorContext.CryptoHandshaked` | src/network/ssf/layer/cryptography/basic_crypto_stream.h:713-739 | queues the connection below the backlog, closes it otherwise |
| `TlsAcceptor.AcceptorContext.AsyncAccept` | src/network/ssf/layer/cryptography/basic_crypto_stream.h:617-637 | performs the accept step |
| `TlsAcceptor.AcceptorContext.ConnectionQueueHandler` | src/network/ssf/layer/cryptography/basic_crypto_stream.h:762-783 | matches both queue heads and schedules another run |
| `TlsAcceptor.AcceptorContext.BeginClose` | src/network/ssf/layer/cryptography/basic_crypto_stream.h:505-510 | admits nothing from here on |
| `TlsAcceptor.AcceptorContext.CancelOne` | src/network/ssf/layer/cryptography/basic_crypto_stream.h:791-795 | one round cancels the oldest accept |
| `TlsAcceptor.AcceptorContext.CleanPendingAccepts` | src/network/ssf/layer/cryptography/basic_crypto_stream.h:786-796 | the loop cancels every queued accept in order |
| `TlsAcceptor.AcceptorContext.CleanConnections` | src/network/ssf/layer/cryptography/basic_crypto_stream.h:750-760 | the loop closes every queued connection in order |
| `CircuitAcceptor.DeskMatched` | src/network/ssf/layer/data_link/basic_circuit_acceptor_service.h:676-718 | a handler run lets the heads of both queues meet at each ready endpoint and leaves the others alone |
| `CircuitAcceptor.StepAtPlace` | src/network/ssf/layer/data_link/basic_circuit_acceptor_service.h:634-737 | seen from one endpoint, every step of the service is a step of that endpoint's rendezvous |
| `CircuitAcceptor.StepKeepsFine` | src/network/ssf/layer/data_link/basic_circuit_acceptor_service.h:676-718 | every event keeps each endpoint's wake-up and order invariant |
| `CircuitAcceptor.HistoryIsEvents` | src/network/ssf/layer/data_link/basic_circuit_acceptor_service.h:634-653 | the record of arrivals and accepts at an endpoint is that of the run's events |
| `CircuitAcceptor.RendezvousTheorem` | src/network/ssf/layer/data_link/basic_circuit_acceptor_service.h:634-737 | in every run and at every endpoint, across binds, unbinds and cleanings: min of both queues within the scheduled runs, both sides FIFO with the same matches, each arrival in exactly one of delivered or closed, queued or dropped, each accept served, cancelled or queued |
| `CircuitAcceptor.ArrivalOutcome` | src/network/ssf/layer/data_link/basic_circuit_acceptor_service.h:634-653 | an arrival joins the queue of a place bound at that time, going by the last bind or unbind, and is dropped elsewhere |
| `CircuitAcceptor.HandlerRunMatches` | src/network/ssf/layer/data_link/basic_circuit_acceptor_service.h:676-718 | a handler run matches the two heads at every place where both sides wait, and changes nothing elsewhere |
| `CircuitAcceptor.CleaningSteps` | src/network/ssf/layer/data_link/basic_circuit_acceptor_service.h:720-737 | cleaning cancels every queued accept of a place, unbinding closes every queued connection, in order |
| `CircuitAcceptor.AtRestNoPairWaits` | src/network/ssf/layer/data_link/basic_circuit_acceptor_service.h:676-718 | with no run scheduled, no endpoint has both sides waiting |
| `CircuitAcceptor.MatchOneMore` | src/network/ssf/layer/data_link/basic_circuit_acceptor_service.h:680-717 | matching endpoint after endpoint equals matching all of them at once |
| `CircuitAcceptor.AcceptorService.DoConnectionAccept` | src/network/ssf/layer/data_link/basic_circuit_acceptor_service.h:634-653 | queues the connection at a bound endpoint and schedules a run, otherwise changes nothing |
| `CircuitAcceptor.AcceptorService.AsyncAccept` | src/network/ssf/layer/data_link/basic_circuit_acceptor_service.h:391-410 | queues the accept at its endpoint and schedules a run |
| `CircuitAcceptor.AcceptorService.ConnectionQueueHandler` | src/network/ssf/layer/data_link/basic_circuit_acceptor_service.h:676-718 | the loop over all endpoints performs one simultaneous match at each ready one |
| `CircuitAcceptor.AcceptorService.MatchAtPlace` | src/network/ssf/layer/data_link/basic_circuit_acceptor_service.h:680-716 | the loop body matches both heads at one endpoint, or changes nothing |
| `CircuitAcceptor.AcceptorService.BindPlace` | src/network/ssf/layer/data_link/basic_circuit_acceptor_service.h:262-264 | makes an empty connection queue unless there is one |
| `CircuitAcceptor.AcceptorService.UnbindPlace` | src/network/ssf/layer/data_link/basic_circuit_acceptor_service.h:158-161 | erases the queue, and with it the connections in it |
| `CircuitAcceptor.AcceptorService.CleanPendingAccepts` | src/network/ssf/layer/data_link/basic_circuit_acceptor_service.h:720-737 | the loop cancels every queued accept of the endpoint in order |
| `Reconnection.ReconnectionBound` | src/core/client/client.cpp:120-182 | for max below 2^32 - 1, in every run: counter minus one is the attempts since the last running status, and sessions are at most max times one more than the running statuses |
| `Reconnection.AttemptsExactly` | src/core/client/client.cpp:136-182 | below 2^32 - 1 an attempt is made exactly when the client is live, there is no error and fewer than max were made since the last running status, and sessions are exactly the attempts that can start one |
| `Reconnection.LargestLimitIsNoLimit` | src/core/client/client.cpp:136-151 | at max 2^32 - 1 any number of sessions starts without a running status |
| `Reconnection.BoundHoldsIff` | src/core/client/client.cpp:120-182 | among the limits of its type, the session bound holds in every run exactly for those below 2^32 - 1 |
| `Reconnection.StoppedStartsNothing` | src/core/client/client.cpp:70-80 | once stopped, no event starts a session or changes the counter |
| `Reconnection.Client.RunNextSession` | src/core/client/client.cpp:136-182 | performs an attempt, or posts a stop exactly when none is made |
| `Reconnection.Client.AsyncWaitReconnection` | src/core/client/client.cpp:120-134 | arms a timer, or posts a stop when attempts are used up or reconnection is off |
| `Reconnection.Client.OnSessionStatus` | src/core/client/client.cpp:184-232 | performs the status step; a failing status of a live client leads to exactly one timer or stop |
| `Reconnection.Client.Stop` | src/core/client/client.cpp:70-93 | performs the stop step |
| `InterfaceMount.StepKeepsInv` | src/network/ssf/system/specific_interfaces_collection.h:210-331 | every mount, remount, unmount, connect, timer and accept event keeps equal keys, the up-set within them, every chain's attempt budget and one post per chain |
| `InterfaceMount.MountTheorem` | src/network/ssf/system/specific_interfaces_collection.h:96-155 | in every run: equal keys, up within mounted (the erase branch is dead), at most max(1, ttl) attempts per chain, no chain posts twice |
| `InterfaceMount.MountOutcome` | src/network/ssf/system/specific_interfaces_collection.h:97-112 | a free name is entered with its configuration and gets exactly one chain; a mounted name is left alone |
| `InterfaceMount.RemountOutcome` | src/network/ssf/system/specific_interfaces_collection.h:114-135 | an interface that has been up gets exactly one new chain of its configuration, and no table changes |
| `InterfaceMount.UnmountOutcome` | src/network/ssf/system/specific_interfaces_collection.h:137-155 | unmounting erases the name, or every name, from all three tables and nothing else |
| `InterfaceMount.PostsOfStep` | src/network/ssf/system/specific_interfaces_collection.h:244-331 | a step posts at most one callback, that of the chain it ends, telling how it ended; failures unmount, successes mark up |
| `InterfaceMount.EndsOnlyWhenSpent` | src/network/ssf/system/specific_interfaces_collection.h:244-279 | a connecting chain of a mounted interface ends exactly by success or by an error with all max(1, ttl) attempts made |
| `InterfaceMount.EndOutcome` | src/network/ssf/system/specific_interfaces_collection.h:244-331 | what the end of a chain does: success marks the interface up and is posted; a final failure is posted and unmounts it, unless it has been up |
| `InterfaceMount.RetryMakesOneMore` | src/network/ssf/system/specific_interfaces_collection.h:273-279 | after an error with attempts left the chain makes exactly one more |
| `InterfaceMount.FailureUsesAllAttempts` | src/network/ssf/system/specific_interfaces_collection.h:244-279 | in every run a reported failure of a connecting mount comes after exactly max(1, ttl) attempts |
| `InterfaceMount.StepKeepsTidy` | src/network/ssf/system/specific_interfaces_collection.h:244-331 | without unmounts of a name, its mounts stay under way or have posted |
| `InterfaceMount.MountReportsOnce` | src/network/ssf/system/specific_interfaces_collection.h:244-331 | with nothing left of earlier mounts and no unmount, a mount's chain has posted its callback exactly when it is over |
| `InterfaceMount.LeftoverSilencesMount` | src/network/ssf/system/specific_interfaces_collection.h:244-331 | in any state with a chain left over from an earlier mount, a new mount and at most three further events end it without a callback |
| `InterfaceMount.ReportsOnceIff` | src/network/ssf/system/specific_interfaces_collection.h:244-331 | a mount of an unmounted name reports at its end, for every configuration and every unmount-free continuation, if and only if no chain of an earlier mount of the name is left |
| `InterfaceMount.StaleChainEndsNewMount` | src/network/ssf/system/specific_interfaces_collection.h:244-291 | a concrete run with an unmount in which a second mount ends without a callback |
| `InterfaceMount.InterfacesCollection.InitializeInterface` | src/network/ssf/system/specific_interfaces_collection.h:210-242 | begins a chain for a mounted interface, and nothing for another |
| `InterfaceMount.InterfacesCollection.AsyncMount` | src/network/ssf/system/specific_interfaces_collection.h:97-112 | performs the mount step |
| `InterfaceMount.InterfacesCollection.RemountDownInterfaces` | src/network/ssf/system/specific_interfaces_collection.h:114-135 | the loop is a run of remounts, one for each interface that has been up and is down, and no table changes |
| `InterfaceMount.InterfacesCollection.UmountOne` | src/network/ssf/system/specific_interfaces_collection.h:137-145 | erases the interface from all three tables |
| `InterfaceMount.InterfacesCollection.UmountEach` | src/network/ssf/system/specific_interfaces_collection.h:147-155 | the loop erases every interface from all three tables |
| `InterfaceMount.InterfacesCollection.MountConnectHandler` | src/network/ssf/system/specific_interfaces_collection.h:244-291 | performs the end of a connect: success, retry, or giving up an interface never up |
| `RelayChain.RunKeepsInv` | src/network/ssf/network/socket_link.h:52-74 | in every run each link has written and holds exactly what it has read, in order |
| `RelayChain.ReadThenWrite` | src/network/ssf/network/socket_link.h:60-71 | reading and then writing on a free link puts exactly the bytes read on the next stream |
| `RelayChain.ChainTheorem` | src/network/ssf/network/session_forwarder.h:84-97 | through any number of links, with retries and failures in mid-write, bytes out are a prefix of all bytes sent in |
| `RelayChain.ChainCanFlush` | src/network/ssf/network/session_forwarder.h:84-97 | from any state in which no link has failed, some further reads and writes bring all input out |
| `RelayChain.FlushedChainIsComplete` | src/network/ssf/network/socket_link.h:52-74 | when every link has read all and holds nothing, all input has come out |
| `RelayChain.HalfDuplexLink.OnRead` | src/network/ssf/network/socket_link.h:60-62 | performs the read step through the working buffer |
| `RelayChain.HalfDuplexLink.OnWritten` | src/network/ssf/network/socket_link.h:64-71 | performs the write step; a write of no bytes is repeated |

## Left out

- msgpack-c: its sources are not part of the repository. The model takes from its documented behaviour that a `bin` value converts to a string, that the first of two equal keys is kept, that bytes after the first object are ignored, and that packing an oversized part throws (`None`).
- Strings: a `std::string` is a Dafny string; characters above 255 do not occur in the original, and the theorems hold with or without them. Unsigned long is 64 bits and the host is little-endian.
- Circuit.Handle: what the original leaves to resolvers, certificates, DNS and sockets (whether an endpoint can be dialled and who listens there) is a parameter, `Net`; connection failures in between are dials to a host where nobody listens.
- Routes of the TCP-only build, the functions that turn a configuration into layers, and the validation reply that travels back along the circuit.
- ReadBuffers.FillBuffers: the caller's memory is modelled by the sizes of its buffers and the parts copied into them, not as shared arrays.
- Flow-control acknowledgements of fibers, the accept queue of fibers, SYN, ACK and RST handling, dispatch of datagram packets by half id, and reopening in the close handler.
- PacketFraming.PushAllCarriesData: the loop that repeats sends until all data is accepted belongs to Boost.Asio and is modelled as a function.
- AdminProtocol.MirrorTheorem: malformed requests, command serials, keep-alive messages and the text form of ids in answers are not modelled. Stops through `stop_all` at the end of a session are not events.
- CopyScheduler.CopyTheorem: for listings of distinct names; the failed-listing path, copies from standard input and the file system are not modelled. A session reports once (src/services/copy/copy_session.h:180-195), so a report for a file that is not in flight is no event. A session that fails to start reports nothing and its file stays in flight; completion is then not claimed.
- CircuitAcceptor.RendezvousTheorem: binding and unbinding are single events; the rollback of a failed bind and the blocking `accept` are not modelled. Connections whose queue is erased are closed by the destruction of their sockets.
- TlsAcceptor.RendezvousTheorem: the blocking `accept` and connections whose handshake fails (they are closed and never counted) are not modelled.
- InterfaceMount.MountTheorem: the timeout of accepting mounts and mounts that fail before they are entered in the tables (missing parameters, unresolvable endpoint, name already mounted) have no chain and are not events.
- Reconnection.ReconnectionBound: an attempt is one step; a stop that arrives in the middle of one, after its check, is taken to come after it.
- The listening option parser and the other user services, which repeat the forward option's shape with fewer parts.
- SOCKS sessions, shell sessions, datagram link feeding, the packet states of copy sessions, JSON configuration, command line, logging, and liveness properties.
