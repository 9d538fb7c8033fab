# A verified model of a user-space TCP

The repository is a small TCP in C. A manager process owns one address, keeps a table of sockets keyed by 4-tuple, and
runs each socket's TCP state machine: a ring queue of bytes sent and not yet acknowledged, and a receive window with
holes. Packets are lines of text exchanged through fifos. This project models that system in Dafny 4 and proves what it
is for: reliable, ordered delivery of a byte stream between two sockets, an orderly life of every socket, and a wire
format that its own reader understands.

## How the model is built

- `Common`, `Packets`, `ReceiveWindow`, `SocketModel`: constants, segments, the window and one socket as values, and what
  each packet handler and each periodic check makes of them. These functions are the specification.
- `ArrayQueue`, `SocketObject`, `SocketTable`, `NetworkManager`: the C structs as classes that are updated in place, with
  the source's loops, each method proved to compute the functions above or, for the table, an operation on a finite map.
- `Protocol`, `Invariant`: two connected endpoints and a network that remembers every packet ever sent and may deliver any
  of them at any time, any number of times, or never. A step is a connect, a spawn by a listener, one manager visit to a
  socket, or one delivery. The invariant and its preservation by every step.
- `Handling`, `Timers`, `Tables`: what each packet, each visit and each request does, case by case, said without the
  functions above: which packets count and what is answered, what is sent when, what is granted, and who leaves.
- `Safety`, `Lifetime`, `Removal`, `Closing`, `Progress`, `Truncation`, `Confluence`: the theorems about all runs.
- `Decimal`, `Formatted`, `IpWire`, `Framing`, `TcpWire`, `Delivery`, `Starvation`, `FifoNames`, `CStrings`, `Listening`:
  decimal text, the printf and sscanf conversions (sections 7.21.6.1 and 7.21.6.2 of C11), IP frames and their splitting,
  TCP segments, the protocol's packets on that wire and what their loss does to a run, fifo names, the string loops, and
  listening periods.
- `ManagerModel`, `Coupling`, `Transport`: the layers joined. The manager's methods compute functions on a map from ids to
  socket values; every run of calls on one manager that holds both ends is a run of `Protocol`; segments printed, framed,
  sent through a fifo, split, parsed and dispatched change that map as the segments themselves do.
- `Surroundings`, `ClosedLoop`, `Exchange`: the loop closed. The end fifos on disk decide whether a socket can be made, and
  the manager reads from its packet fifo what it has written there itself, among the frames of others. From these follow
  what the layers above have to assume: no two sockets ever hold one address, and the ends are given each other's
  segments. `Exchange` is a run of that loop in which a text gets across.

The outside world enters as parameters. A write to the reader's fifo takes whatever it has room for, or fails; sends,
notifications and fifo creation may fail; the clock is given to every step; initial sequence numbers are arbitrary in the
range the code draws them from. Bytes are not NUL, as NUL ends both queue iteration and packet text. A user closes a
socket at most once, because the close call removes the fifo it is synchronised on (`network.c:95`). Absent and empty
packet data are one value: the parser never produces an empty string, and no handler distinguishes the two otherwise.
The state machine is that of sections 3.3.2, 3.5 and 3.6 of RFC 9293 as far as the code implements it.

## Where the code falls short of its intent

Each of these is proved, with the exact condition:

- A data packet whose checksum has fewer than ten digits and whose data start with a digit is not read back as sent:
  `%10d` skips padding before it counts columns, so the data's digits are read into the checksum. The receiver drops it,
  unless the digits exceed int, where C leaves the conversion undefined, and the library happens to store the checksum
  (`TcpWire.RoundTrip`, `TcpWire.ArrivesOrDropped`; `TcpWire.DigitLost` and `TcpWire.DigitKept` are one packet of each
  kind). It is never altered.
- A side that has everything acknowledged and then takes from its writer bytes that start with a digit never gets another
  byte through, however often it retransmits, as long as its checksum stays short and its digits within int
  (`Starvation.DigitSticks`, `Starvation.StuckForGood`).
- A listener files a new connection under the manager's own ip instead of the peer's; later packets of the peer reach the
  connection if and only if the two are equal (`Listening.SpawnReachable`). The protocol theorems therefore put both ends
  on one ip.
- The RST a full listener answers with is addressed to an empty ip, whichever lookup found the listener, so it never
  leaves (`NetworkManager.Manager.HandleIncoming`, `NetworkManager.Manager.Receive`).
- Closing a socket that is still connecting changes its table key in place; the table stays a map if and only if no other
  socket holds the bound address (`SocketTable.HashMap.RekeyInPlace`, `NetworkManager.Manager.Close`). What keeps the
  address free is only that the end fifos of its first bind are still on disk, so that a second `mkfifo` fails
  (`fifo_utils.c:264-285`). While nobody else deletes them this holds in every run (`Surroundings.NeverClashes`); after
  somebody has, a second bind and the close of the first socket leave a table that is no map
  (`Surroundings.DeletedFifosClash`, `NetworkManager.BoundTwice`).
- A port is lost when its address is left with an end fifo on disk and no socket: the next bind fails, which ends the
  manager loop (`network_manager.c:506-508` and `1127-1129`). This happens to a bound socket that is left alone for ten
  seconds, as its removal deletes the write end only, unless its user has removed the read end by then
  (`Surroundings.RemovalOrphans`, `Surroundings.IdlePortLost`), and to a connection request that is answered with a reset
  (`Surroundings.RefusalOrphans`). While the loop runs nobody can bind the port again, unless the read end is all that is
  left and is removed by hand (`Surroundings.PortLost`).
- A close skips the send queue: once a side has left the data phase, no accepted byte that no packet carries by then, and
  none behind it, is ever delivered, and at most 128 more bytes reach the peer's reader (`Truncation.CloseCutsStream`).
- The state diagram in `util_types.h` lets LAST_ACK end with an acknowledgement; between two endpoints of this code that
  never happens (`Safety.LastAckLeaves`).
- The limit of a listening period is a signed character; a negative one never runs out (`Listening.QuotaConserved`). The
  library cannot ask for one, as `SocketListen` refuses anything outside 0..100 (`network.c:194`); only another writer to
  the listen fifo can.

## Model

| member | source | states |
|---|---|---|
| Safety.DeliveredIsPrefix | packet_handlers.c:170-210 | In every run, under loss, duplication, reordering, FIN, RST and user close, the bytes handed to each reader are a prefix of the bytes accepted from the peer's writer. |
| Safety.AcknowledgedMeansDelivered | packet_handlers.c:195-202 | While a side is ESTABLISHED every byte that left its send queue has been written to the peer's reader; with both ESTABLISHED, sender base <= receiver base <= initial number + accepted bytes. |
| Safety.QueueIsUnacknowledged | packet_handlers.c:195-202 | While ESTABLISHED the send queue is exactly the unacknowledged end of the accepted stream, and base + queue size = initial number + accepted bytes. |
| Safety.SegmentIsStretch | network_manager/network_manager.c:889-912 | Every data packet ever sent, first time or again, is at most 128 bytes long and equals the accepted stream at its sequence number. |
| Safety.SegmentMeetsReader | network_manager/network_manager.c:889-912 | No data packet ever sent starts past what the peer's reader has been handed: nothing is sent behind a gap. |
| Safety.OverlapsAgree | network_manager/network_manager.c:871-912 | Any two packets of one direction carry the same byte at every position both cover. |
| Safety.HandshakeAgrees | packet_handlers.c:135-165 | On entering ESTABLISHED each side's receive base is the other's initial send number, nothing has flowed yet, and a server enters only after its client, however SYN, SYN+ACK and ACK are lost or repeated. |
| Safety.NeverFinWait2 | packet_handlers.c:224-258 | FIN_WAIT_2, which no timer leaves, is never a resting state. |
| Safety.FinReallyAcknowledged | packet_handlers.c:224-246 | A packet takes FIN_WAIT_1 to TIME_WAIT only if the peer has processed this side's very FIN. |
| Safety.LastAckLeaves | packet_handlers.c:215-222 | LAST_ACK is left only by a reset or the user's own close. |
| Safety.SendNumberBound | network_manager/network_manager.c:1000-1002 | Despite up to three additions of the queue size, a send number stays within initial number + accepted bytes + 2 * 8192. |
| Safety.ArithmeticFits | tcp.c:97-99 | One bound on both initial numbers and both stream lengths keeps every sequence, acknowledgement and checksum sum, and every place in the window, within 32 bits. |
| Invariant.StepOk | network_manager/network_manager.c:1032-1057 | Every step of either endpoint or the network keeps the invariant that ties queues, windows and all packets ever sent to the two byte streams. |
| Safety.OneSideClosesFirst | packet_handlers.c:188-193 | A side in whose life a FIN led to CLOSE_WAIT has a peer that has left the data phase, and to whom the same never happens. |
| Lifetime.StateChangesBounded | packet_handlers.c:26-70 | Over any run, the state changes of a socket plus its remaining life never exceed its life at the start (20 for a new connection). |
| Lifetime.NeverEstablishedAgain | network_manager/network_manager.c:914-1030 | A side that has left the data phase never re-enters ESTABLISHED and never accepts another byte. |
| Lifetime.CloseTerminates | network_manager/network_manager.c:755-787 | After the user's close, whatever the peer and the network do, as many visits that find the socket's timer expired as it still has timers to wait for, at most three, find the socket removed. |
| Lifetime.RankFalls | network_manager/network_manager.c:979-1028 | Every visit that finds the timer of the state expired (and can send the reset) leaves one timer fewer before removal, and nothing adds one. |
| Removal.CloseTakesThreeVisits | network_manager/network_manager.c:979-1028 | By the clock: if it never goes back, three visits that can send the reset, each more than ten seconds after the one before, remove a closed socket, one more if the peer's FIN starts the timer again, however many other visits and packets come between; and a FIN does so at most once. |
| Removal.Farewell | network_manager/network_manager.c:1032-1057 | From every reachable state after a close there is a run that makes exactly as many such visits as the bound asks for and ends with the socket gone. |
| Removal.ThreeVisitsHappen | network_manager/network_manager.c:792-840 | In particular after a client has connected, become ESTABLISHED and closed: three visits, and all conditions of the two theorems hold. |
| Closing.CloseIsAnswered | network_manager/network_manager.c:792-840 | From every reachable state with both sides ESTABLISHED, for either side: its user closes, its FIN takes the other side through CLOSE_WAIT to LAST_ACK, and the FIN+ACK of that side takes it to TIME_WAIT. |
| Closing.ClosesCross | packet_handlers.c:234-237 | From every such state both users may close at once: the FINs cross and both sides go to CLOSING, each expecting what is behind the other's FIN. |
| Closing.BothMeet | packet_handlers.c:135-165 | Such states are reached: from every initial state a run of seven steps makes both sides ESTABLISHED. |
| SocketModel.PacketDescends | packet_handlers.c:10-75 | No packet whatever moves a socket away from CLOSED. |
| Handling.ResetCloses | packet_handlers.c:26-29 | In every state but LISTEN a reset closes the socket, changes nothing else and is not answered. |
| Handling.Deaf | packet_handlers.c:31-33 | A packet from another port than the peer's does nothing, nor does any packet but a reset in CLOSED, CLOSE_WAIT and TIME_WAIT. |
| Handling.OpensExactly | packet_handlers.c:135-165 | A handshake is completed exactly by an acknowledgement of this side's own number, for a client only with a SYN, whose number it then expects to be passed, and only if the user could be told; nothing else changes anything. |
| Handling.AckCounts | packet_handlers.c:195-202 | While ESTABLISHED every acknowledgement counts, with data or without: the base moves to its number, neither back nor past the queue, and the queue loses exactly what the base has moved over. |
| Handling.DataAnswered | packet_handlers.c:204-210 | Data and only data are answered: one bare acknowledgement of the first missing byte from this side's base; if it leaves it restarts the retransmission clock. |
| Handling.OnlyEstablishedDelivers | packet_handlers.c:170-183 | Nothing is handed to the reader except for what an ESTABLISHED end heeds. |
| Handling.FinToEstablished | packet_handlers.c:185-193 | A SYN does nothing to an ESTABLISHED end; a FIN leads to CLOSE_WAIT, the number behind it is expected, and the whole queue counts as sent. |
| Handling.FinWait1Means | packet_handlers.c:224-246 | In FIN_WAIT_1 a FIN with the acknowledgement leads to TIME_WAIT, one without to CLOSING, the acknowledgement alone to FIN_WAIT_2, nothing else anywhere; a FIN is expected no more and starts the timer again. |
| Handling.LastAcknowledgement | packet_handlers.c:215-222 | The acknowledgement of the FIN takes LAST_ACK to CLOSED and CLOSING to TIME_WAIT, whose clock starts; less does nothing. |
| Handling.FinWait2Means | packet_handlers.c:248-257 | FIN_WAIT_2 acknowledges a FIN and goes to TIME_WAIT, and heeds nothing else. |
| Handling.ListenerMeans | packet_handlers.c:88-134 | A listener heeds SYNs alone: with its limit used up it answers with a reset, and otherwise it spawns a connection with the number behind the SYN, one less to give, or stays as it is. |
| Timers.GoneExactly | network_manager/network_manager.c:758-787 | A socket leaves the table at a visit if and only if it was CLOSED, is not being closed, and was made more than ten seconds ago. |
| Timers.HandshakeRepeats | network_manager/network_manager.c:914-950 | SYN and SYN+ACK are repeated every three seconds and not before, one below the base. |
| Timers.DataRepeats | network_manager/network_manager.c:889-912 | Every three seconds and not before, one segment with the first 128 bytes of the queue, or without any, leaves from the base, and restarts the clock. |
| Timers.WriterServed | network_manager/network_manager.c:950-978 | What is taken from the writer is the longest beginning that 128 and the room in the queue allow; it goes to the end of the queue, counts as accepted, and nothing else changes. |
| Timers.OnlyEstablishedAccepts | network_manager/network_manager.c:950-978 | No other state takes a byte from the writer. |
| Timers.CloseSendsFin | network_manager/network_manager.c:792-834 | The user's close counts the queue as sent, starts the timer of the reset and, three seconds after the last send, sends the FIN in the same visit. |
| Timers.CloseUnanswered | network_manager/network_manager.c:823-829 | Closed before it is answered, a socket gives up its destination and sends nothing. |
| Timers.FinRepeats | network_manager/network_manager.c:979-998 | FIN_WAIT_1 repeats its FIN every three seconds for eight seconds; then one reset leaves, or has nobody to go to, and TIME_WAIT follows. |
| Timers.CloseWaitPasses | network_manager/network_manager.c:1000-1002 | The visit after the peer's FIN leads to LAST_ACK with the queue counted as sent. |
| Timers.LastAckRepeats | network_manager/network_manager.c:1014-1023 | LAST_ACK repeats its FIN+ACK every three seconds. |
| Timers.ClosingGivesUp | network_manager/network_manager.c:1003-1013 | CLOSING sends a reset after eight seconds, until one leaves, and goes to TIME_WAIT. |
| Timers.TimeWaitEnds | network_manager/network_manager.c:1024-1028 | TIME_WAIT ends in CLOSED after a second. |
| Timers.LeftAlone | network_manager/network_manager.c:914-1030 | CLOSED, LISTEN and FIN_WAIT_2 send nothing and do not change. |
| Timers.NobodyThere | network_manager/network_manager.c:979-998 | A socket without a destination sends nothing, and goes from FIN_WAIT_1 to TIME_WAIT after eight seconds all the same. |
| Progress.RoundAdvances | network_manager/network_manager.c:889-912 | One loss-free retransmit-then-acknowledge round moves the sender's base by at least min(128, queue size), from any reachable state. |
| Progress.QueueDrains | packet_handlers.c:195-210 | ceil(n/128) loss-free rounds, interleaved with any other steps, acknowledge n queued bytes, all of which have reached the peer's reader. |
| Progress.DataEarnsAck | packet_handlers.c:204-206 | Delivering any data packet ever sent, its sender closed or not, to an ESTABLISHED socket whose reader takes everything earns an acknowledgement that covers it. |
| Truncation.CloseCutsStream | network_manager/network_manager.c:823-834 | Over any run after a side has left the data phase: if no packet carries position n of its stream by then, the peer's reader never gets past n, and in any case it is handed at most 128 bytes more. |
| ReceiveWindow.ReceiveKeepsStream | socket_utils.c:219-245 | Whatever the reader takes, it is handed exactly the next stretch of the stream, and the window stays consistent with the stream. |
| ReceiveWindow.ReceiveAdvances | packet_handlers.c:170-183 | A segment that starts at or before the base moves the base past its end when the reader takes everything. |
| ReceiveWindow.ReceiveExact | socket_utils.c:219-245 | For any window, segment and room: the reader is handed the bytes held from the left end to the first missing one, as far as there is room; the window moves by as many places and keeps all else it held or has received. |
| Confluence.ReceiveConfluence | packet_handlers.c:170-183 | Segments of one stream inside the window give the same output, base, valid flags and valid bytes for every order, duplication, overlap and resegmentation that brings the same bytes. |
| Confluence.ReorderedOrDuplicated | socket_utils.c:219-245 | In particular for two lists of the same segments. |
| SocketObject.Socket.UpdateRecvWindow | socket_utils.c:219-245 | The counting, writing and shifting loops compute the window slide. |
| SocketObject.Socket.ReceiveNewData | packet_handlers.c:170-183 | The filling loop takes exactly the missing bytes that fall in the window, then slides. |
| SocketObject.Socket.DropAcknowledged | packet_handlers.c:195-202 | The dequeuing loop removes exactly the acknowledged bytes. |
| SocketObject.Socket.HandleEstablished | packet_handlers.c:185-210 | The handler computes the specified state, reply and delivered bytes. |
| SocketObject.Socket.HandlePacket | packet_handlers.c:10-75 | The dispatch over states computes the specified outcome for every state but LISTEN. |
| SocketObject.Socket.StatusMessages | network_manager/network_manager.c:914-1030 | Accepting bytes, handshake, FIN and RST sending and the closing timers compute the specified action. |
| SocketObject.Socket.SendWindow | network_manager/network_manager.c:889-912 | Retransmission sends the first bytes of the queue when due. |
| SocketObject.Socket.CloseCommand | network_manager/network_manager.c:823-834 | A close command adds the queue size, enters FIN_WAIT_1, and gives up the destination of a connecting socket. |
| SocketObject.Socket.constructor | socket_utils.c:164-210 | A new socket has an empty queue and an empty window. |
| ArrayQueue.FirstInFirstOut | array_queue.c:41-86 | Over any history of operations, what was accepted is what came out followed by what is waiting, and no more than the capacity waits. |
| ArrayQueue.Queue.Enqueue | array_queue.c:41-64 | Appends at the tail with wraparound unless full. |
| ArrayQueue.Queue.Dequeue | array_queue.c:66-86 | Removes the head with wraparound, or returns NUL when empty. |
| ArrayQueue.Queue.GetNext | array_queue.c:138-148 | Iteration yields the element after the current one, or NUL. |
| ArrayQueue.Queue.Copy | array_queue.c:129-136 | The copy holds the elements before the first NUL, so it is exact if and only if there is none. |
| ArrayQueue.Queue.FirstElements | network_manager/network_manager.c:871-887 | The packet data are the first elements up to the limit or a NUL. |
| SocketTable.MapHolds | Hashmap.h:20-28 | With distinct ids the slots are a map, as many entries as used slots. |
| SocketTable.HashMap.Insert | Hashmap.c:71-100 | Refuses a full table and a present key, otherwise updates the map. |
| SocketTable.HashMap.GetSocket | Hashmap.c:102-123 | Equals lookup in the map; with repeated keys it still finds a socket filed under the key if there is one. |
| SocketTable.HashMap.Remove | Hashmap.c:125-149 | Erases the key from the map, and says whether it was there. |
| SocketTable.HashMap.ForEach | Hashmap.c:182-206 | The iteration yields each live id exactly once. |
| SocketTable.RekeyUnique | network_manager/network_manager.c:826-829 | Changing one slot's key in place keeps the ids distinct if and only if no other slot holds the new key. |
| SocketTable.HashMap.RekeyInPlace | network_manager/network_manager.c:826-829 | The same for the id object shared by a socket and its slot. |
| SocketTable.CompareKeys | Hashmap.c:21-41 | Keys compare equal exactly when all four fields agree. |
| NetworkManager.Manager.HandleIncoming | network_manager/network_manager.c:222-271 | A packet for this ip with both checksums right reaches the socket of its exact 4-tuple or, failing that, the one bound to its destination, and changes no other; one that holds no segment is an error; the reply of a listener goes to an empty ip. |
| NetworkManager.Manager.Receive | network_manager/network_manager.c:249-281 | The same with the reply sent: for a connection and for a listener alike, the new state, the reply, the bytes written and the spawned socket are the specified ones, and the retransmission clock is reset if the reply left. |
| NetworkManager.Manager.HandleListen | packet_handlers.c:88-134 | A SYN spawns a filed connection and uses up one of the limit, or changes nothing. |
| NetworkManager.Manager.Connect | network_manager/network_manager.c:636-746 | Only a closed socket without a destination connects, and only to a free key: then remove, re-key and insert file it under its destination, and the insertion cannot fail; otherwise nothing changes. |
| NetworkManager.Manager.Listen | network_manager/network_manager.c:551-634 | A listen request changes a socket without a destination that does not listen yet, as specified, and no other. |
| NetworkManager.Manager.Bind | network_manager/network_manager.c:453-480 | A bind is granted if and only if the address is free, the table has room and the fifos could be made; then a new socket that shares nothing with the others stands under the address. |
| NetworkManager.Manager.HandleBind | network_manager/network_manager.c:482-529 | A socket stays only if the bind is granted and its user could be told; the manager goes on if and only if the reply could be written and the bind was granted or the port taken. |
| NetworkManager.Manager.Close | network_manager/network_manager.c:792-840 | Closing keeps the table a map if and only if a connecting socket's bound address is still free. |
| NetworkManager.BoundTwice | network_manager/network_manager.c:823-829 | The same on the table itself: it ends with two sockets under the bound address, one connected and closed again, the other freshly bound, and is no map. |
| NetworkManager.Manager.Visit | network_manager/network_manager.c:1032-1057 | A visit is close command, removal, retransmission and status message in this order; it touches this socket alone, unless the close has left two sockets under one key: then the last two checks serve whichever a lookup finds. |
| ManagerModel.Receive | network_manager/network_manager.c:222-282 | Receiving a packet turns the table, as a map of socket values, into the specified map, sends the specified reply and writes the specified bytes. |
| ManagerModel.Visit | network_manager/network_manager.c:1032-1057 | The same for a visit, wherever no close leaves two sockets under one key. |
| ManagerModel.Connect | network_manager/network_manager.c:636-746 | The same for a connect request. |
| ManagerModel.Bind | network_manager/network_manager.c:482-529 | The same for a bind request, and whether the manager goes on. |
| ManagerModel.Listen | network_manager/network_manager.c:551-634 | The same for a listen request. |
| ManagerModel.Play | network_manager/network_manager.c:1108-1142 | Any list of such calls turns the table into the map computed by the list; each call sends what the map says, and the log holds the bytes of each call with the reader they were written to. |
| ManagerModel.HandleInPackets | network_manager/network_manager.c:424-441 | On any bytes of a fifo whose reads do not fail, one epoch reads and handles packets until none is left, one is an error, ten have been handled, or the reader waits for bytes that have not come, and the table, the replies, the bytes written and the bytes unread are those of handling them one by one. |
| ManagerModel.TurnsOfFrames | network_manager/network_manager.c:424-441 | From a fifo of whole frames an epoch handles the packets in order, each once; those behind the tenth or behind an error stay for the next, and the reader never waits. |
| Tables.ListenGrants | network_manager/network_manager.c:551-634 | A listen request is heard under a bare address by a socket that does not listen; it keeps the limit asked for, and listens if and only if accept fifo and reply could be made, or else is CLOSED; nobody else changes. |
| Tables.LimitServed | network_manager/network_manager.c:600-606 | After a granted request and any packets, the listener has spawned min(limit, welcome SYNs) connections, all welcome ones for a negative limit, and has the rest of the limit left. |
| Tables.ConnectGrants | network_manager/network_manager.c:636-746 | A connect request is granted to a CLOSED socket under a bare address for a free key, if and only if; then it stands under that key alone, in SYN_SENT, from the number drawn. |
| Tables.BindGrants | socket_utils.c:114-130 | A bind that is granted adds a CLOSED socket with nothing queued or received, whose ten seconds start now. |
| Tables.AdmittedExactly | network_manager/network_manager.c:222-247 | A packet is admitted if and only if it is for this ip, both checksums are right and it holds a segment; otherwise nothing happens, and it is an error only if the segment is missing. |
| Tables.DispatchMeans | network_manager/network_manager.c:249-276 | A segment concerns the connection of exactly its four, or else the socket under its bare destination; it changes no other socket, adds at most a listener's connection, and removes none; an answer leaves only from the former. |
| Tables.VisitMeans | network_manager/network_manager.c:1032-1057 | A visit takes its socket out of the table if and only if it is CLOSED, not being closed, and more than ten seconds old; it changes no other socket, and no key but a closing connecting socket's. |
| Tables.LeavesOnly | network_manager/network_manager.c:404-413 | No call takes a key out of the table otherwise, but for the two that change it. |
| Tables.BoundStays | network_manager/network_manager.c:758-787 | Over any run of calls a bound socket is there for ten seconds, unless it connects. |
| Tables.NoSegmentIsError | network_manager/network_manager.c:238-239 | A packet for this ip that does not start like a number is an error. |
| Coupling.CallRefines | network_manager/network_manager.c:1108-1142 | Each bind, listen, connect, visit or receive call on a manager that holds both ends is one step of the protocol, or none if it concerns other sockets or a packet that is not admitted, and the table holds both ends as the protocol does. |
| Coupling.VisitIsCall | network_manager/network_manager.c:1032-1057 | Conversely, every visit of the protocol is such a call, if its close does not clash. |
| Coupling.DeliverIsCall | network_manager/network_manager.c:249-271 | So is every delivery, in any run within the arithmetic bound, of a packet that is not lost on the wire: the call on the frame it was sent in. |
| Coupling.CallsRefine | network_manager/network_manager.c:1108-1142 | Every run of such calls is a run of the protocol. |
| Coupling.CallSends | network_manager/network_manager.c:273-276 | What a call sends for an end is what the protocol's network gains, and what it writes to a reader is what the protocol counts as delivered. |
| Coupling.ManagerDeliversPrefix | packet_handlers.c:170-210 | The bytes the log of any run of calls has for the reader of either end's connection are a prefix of what the manager accepted from the other end's writer. |
| Coupling.PlayDelivers | network_manager/network_manager.c:1108-1142 | The same of the manager itself: it makes the calls, reports the packets each sent and the bytes each wrote, and these bytes are for either end's reader a prefix of what it accepted from the other's writer. |
| Transport.SegmentsArrive | network_manager/network_manager.c:119-167 | Segments printed, put into frames, written into one fifo, split, parsed and dispatched in epochs: each is handled in the order of writing and changes the table as its own dispatch does, unless it is lost on the wire. |
| Transport.HandleSegments | network_manager/network_manager.c:424-441 | The same of the manager: one epoch on a fifo of printed segments handles the first ten and leaves the rest. |
| Surroundings.StepSole | network_manager/network_manager.c:820-840 | Whatever user, disk, fifo or other process do, as long as the loop runs and nobody but a user told of a connection deletes a write end: no address is held by two sockets, and its write end is on disk while it is held and until that user removes it. |
| Surroundings.NeverClashes | network_manager/network_manager.c:823-829 | So over every run no close leaves two sockets under one key, and the manager's calls make of the table what the run makes of it. |
| Surroundings.BindLeaves | fifo_utils.c:264-285 | A bind that fails for its fifos leaves neither on disk, not even one that was there before, and ends the loop; one that is granted leaves both. |
| Surroundings.PacketLeaves | packet_handlers.c:88-134 | A packet makes fifos for one connection at most; both are there afterwards if it was spawned or could be announced, and neither if they could not be made or it could not be filed. |
| Surroundings.DeletedFifosClash | network_manager/network_manager.c:823-829 | Bind, connect: a second bind of the port ends the loop; once somebody has deleted the end fifos it is granted, and then closing the first socket brings two under one key. |
| Surroundings.RemovalOrphans | network_manager/network_manager.c:755-787 | When a socket under its bare address is removed, the address is left with no socket and an end fifo on disk if and only if its read end has not been removed before. |
| Surroundings.IdlePortLost | network_manager/network_manager.c:755-787 | Such a run: bind a port, let ten seconds pass, and the next bind of the port ends the manager loop. |
| Surroundings.RefusalOrphans | packet_handlers.c:26-29 | A reset in answer to a connection request leaves its address with no socket and the write end on disk, which no user is told to remove. |
| Surroundings.PortLost | network_manager/network_manager.c:482-529 | Over every run after which the loop is still going, such an address stays so and nobody has bound its port, unless a lone read end is removed. |
| ClosedLoop.FifoBytes | network_manager/network_manager.c:119-167 | The frames of the closed loop are the bytes of the packet fifo: a turn reads what the byte reader makes of them, and what is sent or arrives is appended as printed. |
| ClosedLoop.EventRefines | network_manager/network_manager.c:1108-1142 | With the manager reading what it wrote, every event is one step of the protocol or none: every frame with the ends' ports in the fifo is a segment the protocol's network holds. |
| ClosedLoop.RunRefines | network_manager/network_manager.c:1108-1142 | Every run of events is a run of calls as above and of the protocol. |
| ClosedLoop.Serve | network_manager/network_manager.c:1108-1142 | A manager from its making on, with any fifos on disk: its log and the packets it sent are those of the calls of the run, the calls are a run of the protocol, and what the log has for the reader of either end is a prefix of what was accepted from the other's writer. |
| Exchange.TextArrives | network_manager/network_manager.c:1108-1142 | A run of twelve events from the making of the manager that meets all these conditions: bind, listen, bind, connect, handshake, and then any text of 1 to 128 bytes that does not start with a digit is accepted on one side and handed over, whole, on the other. |
| Protocol.VisitOfSock | network_manager/network_manager.c:1032-1057 | The visits of the protocol model are the visits of the socket. |
| Listening.QuotaConserved | packet_handlers.c:92-130 | Over any run of a listening period, connections spawned + remaining limit = limit granted, and exactly min(limit, welcome SYNs) are spawned. |
| Listening.SpawnReachable | network_manager/network_manager.c:249-271 | A spawned connection is reached by its peer's later packets if and only if the peer has the manager's own ip. |
| Decimal.ValueOfDigits | ip.c:26-57 | str_to_int inverts int_to_str for every number below 10^k. |
| Decimal.DigitsOfValue | ip.c:26-57 | int_to_str inverts str_to_int on digit strings. |
| Decimal.StepsFit | ip.c:26-36 | The steps of str_to_int stay within int if and only if the result is at least 48 below the largest int. |
| Decimal.IntToStr | ip.c:47-57 | The loop writes exactly the last digits of the number into its columns of the buffer. |
| Decimal.StrToInt | ip.c:26-36 | The loop computes the value of the digits. |
| IpWire.ParseUndoesFrame | ip.c:59-99 | Parsing a printed packet gives the packet back. |
| IpWire.FrameUndoesParse | ip.c:59-99 | Printing a parsed text with digits in its number columns and its true length gives the text back. |
| IpWire.FrameParts | ip.c:82-99 | The places of length, addresses, checksum and data in a frame. |
| IpWire.IpToStr | ip.c:82-99 | The buffer code writes exactly the frame and its NUL. |
| IpWire.StrToIp | ip.c:59-80 | The parser computes the specified packet for every C string. |
| Framing.Fifo.ReadEntireMessage | fifo_utils.c:314-352 | However the reads are cut up, the requested bytes are read exactly, or 0 is reported and the fifo has run dry, or -1 and the length was negative or a read failed. |
| Framing.Fifo.ReadIpPacket | network_manager/network_manager.c:82-113 | On any contents, however the reads are cut up, the packet read or the waiting reported and the bytes left are the specified ones; a packet is never made of other bytes, even if reads fail. |
| Framing.FirstFrame | network_manager/network_manager.c:82-113 | From whole frames, the first is read and the others are left. |
| Framing.CutFrame | network_manager/network_manager.c:82-113 | A frame written in part keeps the reader waiting with what there is taken; less than a length column is lost. |
| Framing.BadLength | network_manager/network_manager.c:82-113 | Ten bytes that announce less than themselves or nothing are passed over; ten that announce exactly themselves keep the reader waiting for nothing. |
| Framing.Fifo.DrainPackets | network_manager/network_manager.c:82-113 | Reading until there is no packet returns exactly the packets put there. |
| Framing.SplitsUniquely | network_manager/network_manager.c:82-113 | A byte stream splits into frames in one way only. |
| TcpWire.ParseOfPrint | tcp.c:22-76 | Ports, numbers, flags and data come back; the checksum comes back as what the library stores for its digits and the leading digits of the data that fit its columns. |
| TcpWire.Layout | tcp.c:19-20 | The columns of every field in a segment's text, and the values of the flag bits. |
| Formatted.ScanMeans | tcp.c:22-41 | A conversion passes over white space, heeds a sign, and reads digits up to its width. |
| TcpWire.RoundTrip | tcp.c:19-76 | The packet comes back if and only if the checksum fills its columns or the data do not start with a digit, or the number read exceeds int and the library stores the checksum for it. |
| TcpWire.ArrivesOrDropped | network_manager/network_manager.c:241-247 | A receiver accepts a constructed packet unchanged under that condition and drops it otherwise, whatever the library stores. |
| TcpWire.DigitLost | tcp.c:19-20 | A concrete packet that is lost with every library. |
| TcpWire.DigitKept | tcp.c:19-20 | A concrete packet that draws a digit and still arrives where the low 32 bits are stored. |
| Delivery.WireKeepsOrDrops | network_manager/network_manager.c:119-167 | Every packet of every run within the arithmetic bound is accepted unchanged or dropped, and dropped exactly when its short checksum draws digits out of its data and what is stored for the result is not the checksum. |
| Delivery.PacketSendable | tcp.c:19-20 | As long as the ends' numbers stay within the arithmetic bound, every field of every packet they have sent fits its column, and its checksum is right. |
| Delivery.RetransmissionStuck | network_manager/network_manager.c:889-912 | The data packet of a socket draws digits if and only if a digit is next in its queue and its checksum is short, and is then lost under the same condition. |
| Delivery.EnvelopeWellFormed | ip.c:105-116 | Every segment whose fields fit their columns makes a well-formed frame. |
| Delivery.RunPacketFramed | ip.c:105-116 | Every packet of every run within the arithmetic bound makes a well-formed frame. |
| Starvation.StuckForGood | network_manager/network_manager.c:889-912 | Over any run on this wire: once the byte the reader waits for is a digit, next in the queue, on no packet that can survive, nothing more is delivered and the base does not move while the checksum stays short and its digits within int. |
| Starvation.DigitSticks | network_manager/network_manager.c:889-912 | That is what follows when a side with everything acknowledged takes bytes that start with a digit. |
| FifoNames.NamesInjective | fifo_utils.c:93-142 | Equal fifo names mean equal role and equal socket. |
| CStrings.StrCmp | Functions.c:30-53 | Zero exactly for equal C strings, otherwise the order of the first difference, as signed bytes. |
| CStrings.StrLen | Functions.c:54-58 | The number of characters before the first NUL. |
| CStrings.StrCpy | Functions.c:15-29 | Leaves the first 16 characters of the source, terminated, in an address buffer. |

## Left out

- Opening, making, unlinking and closing fifos, errno and blocking: only their results enter, as parameters.
- End of file in the middle of a frame, on which the reading loop would spin: the modelled fifo's other end stays open.
- The 11th byte cleared behind the length buffer, memory allocation, NULL arguments, destroy functions and `terminate_manager`.
- `SocketRecv` and the in-band byte that tells a partner the connection is closed: delivered means written by `update_recv_window`.
- Reuse of a 4-tuple by a later incarnation: the protocol runs have one; sequence numbers do not wrap, the explicit bound of `Safety.ArithmeticFits` says when they need not.
- Orderly close of the passive side: `handle_packet_fin_wait_1` never answers, so the code does not provide it.
- `main.c`, the sample mains, and the functions that are mocks.
- Conversions of numbers that do not fit int, which C leaves undefined: taken to read the same characters and to store some int, any function of the number (`wild`); not any behaviour whatever.
- Framing.Fifo.ReadIpPacket: where the original waits for bytes, possibly for ever (a length column of 10, or of more than has been written), it returns and says so; what comes later is not read into the same frame.
- ManagerModel.HandleInPackets: not when a read fails.
- ManagerModel.Visit: not where the close leaves two sockets under one key, as there is no map then; `NetworkManager.Manager.Visit` covers that case.
- Coupling.CallsRefine: runs start from a manager that knows neither end, segments for the two ends are the ends' own, and a second connection of the same two ports is excluded, as the protocol runs have one incarnation.
- ClosedLoop.EventRefines: derives that segments for a connected end are its peer's; still assumed are one incarnation of the two ports, that only the peer's segments reach an end closed before it was answered (it stands under its bare address), that other processes write whole frames with an ip that is not the manager's, that the two ends stay within the arithmetic bound, and that the numbers in other sockets' segments fit their columns.
- Surroundings.StepSole: nobody asks for a connection to an address that reads as none (an ip that starts with `e` and port 0).
- End fifos are values on a disk: their opening, and the synchronisation of close commands on them, is not modelled, so a close may come at any visit.
- The termination request of the manager loop, and an epoch that stops at an error: turns of the closed loop may follow each other in any number.
- Plain `char` is taken as signed: the flag byte of a segment enters its checksum sum with its sign, and strings are compared so.
- Address buffers inside a socket id are strings in `SocketObject.SocketID`; `CStrings` treats the buffers and their loops.
- Clocks are read once for each visit and each delivery; the C code reads them again for each test.
- Timers.WriterServed: bytes are taken from the writer up to 128 at a visit, as the loop is written; the C loop closes its descriptor after the first, so takes at most one; the model covers this as a writer that offers one byte at a time.
