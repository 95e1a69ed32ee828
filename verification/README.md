# easy-net in Dafny

A model of the hard parts of the easy-net TCP/IP stack, with proofs about every run of it.

- **TCP** (`SeqNum`, `TcpModel`, `TcpSafety`, `TcpClose`, `TcpTheorems`, `TcpSent`, `TcpTaken`, `TcpExits`,
  `TcpFuture`, `TcpExchange`, `TcpCalls`, `TcpRuns`, `TcpSock`, `TcpBuf`). Two endpoints,
  each a connection record with the histories of what its application wrote and read, exchange
  segments over a channel that loses, reorders and duplicates. Worlds start in CLOSED or LISTEN,
  so the handshake and simultaneous open are part of every run. `TcpModel` says what each handler
  does to the record; `TcpSock` does it in place, on fields and two ring buffers, and is proved
  against it; `TcpBuf` is the ring buffer. Sequence numbers wrap at 2^32, and SYN and FIN take a slot.
- **Packet buffer** (`Pages`, `PacketBuffer`). Packets as lists of 128-byte pages with offset and
  size, a cursor, reference counts and one pool. Every operation is proved against the flat bytes
  and keeps the pool whole.
- **Checksum** (`Checksum`). The summing and folding loops, chaining over pages, round trips.
- **IPv4** (`Fragments`, `FragmentIds`, `Routing`). Cutting, reassembly in any arrival order, packet
  ids over a sequence of calls, longest match.
- **Threads** (`FixedQueue`, `MsgHandler`). The bounded queue, the guarded pool and the message
  handler as atomic steps of any number of threads.
- **Timers** (`TimerList`). The delta list against a map from timer to remaining time.
- **ARP cache** (`ArpCache`, `ArpMap`). Recency order, ageing, waiting packets, against a map.
- **List** (`LinkedList`). The doubly linked list, links and all.

`dafny verify dfyconfig.toml` verifies the project.

## What the proofs show about the code

- The macros `TCP_SEQ_LE` and `TCP_SEQ_LT` (include/stack/transport/tcp.h:254-255) subtract two
  int32_t values. They are read as the sign of the wrapped difference, as line 73 of the
  repository's own README.md describes; `MacroReadingsAgree` gives the exact inputs on which the
  two readings agree. Each side writes fewer than 2^31 - 2 bytes.
- SYN_RECVD does not look whether the acknowledgement covers our SYN, and a FIN there enters
  CLOSE_WAIT without `fin_in` (src/stack/transport/tcp_state.c:407-424), as `CloseWaitWithoutFin`
  shows. In CLOSE_WAIT `tcp_recv` then reports the end of the stream; `EndedInEveryRun` shows that it
  is the end, and that the peer's FIN stays unacknowledged. `FinInExactly` says when `fin_in` is set.
- A send event in IDLE arms the retransmission timer even when nothing is outstanding, and the
  connection is then given up after 31000 ms without a segment (`SilentPeer`).
- The SENDING timeout doubles the RTO without the cap (src/stack/transport/tcp_out.c:445), and
  any acceptable segment while a FIN is out puts a retransmitting sender back into SENDING, so the
  RTO has no bound (`RtoUnbounded`); with the 22nd such round it leaves the range of its int
  (`LeavesInt`). `AboveMaximum` says which expiry exceeds the maximum.
- LAST_ACK raises no send event (src/stack/transport/tcp_state.c:213-222), so when data is out at
  close the FIN is only ever sent by the retransmission timer, which does not count it in nxt
  (src/stack/transport/tcp_out.c:372-422). The peer's acknowledgement is then one of the future and is
  refused: `FinAckTaken` gives the condition, `FinAckRefused` the run, and `StuckStays` shows that the
  connection only ends by its retransmission limit, by a reset or by destroy.
- A segment that was accepted before is dropped without an answer
  (src/stack/transport/tcp_in.c:143-146), so an acknowledgement that is lost is not repeated
  (`OldSegmentsDropped`); TIME_WAIT answers only what passes the same test (`TimeWaitAcks`).
- `packet_add_header` with cont = 0 does not undo the growth of the first page when the pages run
  out (src/common/packet_buffer.c:262-273); `AddHeader` states by how much the packet has grown.
- `packet_join` leaves the total size of a source with further references as it was, so that
  source is no longer sound unless it was empty (`Join`); pages are conserved nevertheless.
- `tcp_buf_write_rcv` moves the write index past the cells skipped by an offset but does not
  count them, so only offset 0 keeps the ring in order (`WriteRcv`); its one caller uses 0.
- Structural edits leave the cursor stale until `packet_reset_pos`, so cursor operations ask for a
  cursor in order and edits do not promise one.
- `udp_out` sums over a checksum field it has not cleared (src/stack/transport/udp.c:288-295);
  `StaleFieldAccepted` says exactly when the receiver still accepts the result.
- `arp_resolve` compares with <=, so a waiting entry takes 11 packets for ARP_MAX_PKT_WAIT = 10,
  and packets that waited go out newest first, because they are put in front (`NewestFirst`).
- `arp_resolve` queues the packet on a new entry and then returns the error of a failed request
  (src/stack/network/arp.c:463-470), on which TCP releases the packet
  (src/stack/transport/tcp_out.c:52-56): it is held and released. `ConservedExactly` shows that this is the only way a packet is counted twice.
- When a fragment cannot be allocated or sent, `ip_frag_out` returns before it advances the
  packet id (src/stack/network/ipv4.c:557-607), so the next packet goes out under the key of
  fragments already sent (`FragOut`). The receiver may then hand up a payload that nobody sent
  (`MixedPayload`); `TrueExactly` says when it hands up the packet.
- A timer that has expired is called even if a callback called before it removes it
  (`CheckTmoWith`, `RemovalTooLate`).
- More than 16 fragments never reassemble (`TooManyFragments`), and the arrival of sixteen other
  packets loses what has arrived of one (`SurvivesExactly`, `EntryLost`).
- The answer of the routing table depends on the order of insertion exactly when best matches tie
  (`OrderMattersExactly`), which contiguous masks rule out (`NoTie`, `OrderIrrelevant`).

## Model

| member | source | states |
|---|---|---|
| `TcpTheorems.EndToEnd` | src/stack/transport/tcp_out.c:160-422 | in every world of every run over a channel that loses, reorders and duplicates, in both directions: bytes read, then bytes read plus receive buffer, are prefixes of the bytes the other side wrote, and `fin_in` is set only when they are all of them and that side has closed |
| `TcpTheorems.BufferKeepsUnacked` | src/stack/transport/tcp_out.c:225-256 | the send buffer is exactly the unacknowledged suffix of the written bytes; a byte leaves it only after the peer accepted it; after close `fin_out` is cleared only once the peer accepted every byte and the FIN |
| `TcpTheorems.SenderWindow` | src/stack/transport/tcp_out.c:118-256 | una = iss + 1 + acknowledged bytes + acknowledged FIN modulo 2^32; 0 <= nxt - una <= buffered bytes plus one FIN sent on an empty buffer; the data to transmit lies inside the buffer |
| `TcpTheorems.WindowInEveryRun` | src/stack/transport/tcp_out.c:118-256 | the sender window holds at both ends in every world of every run |
| `TcpTheorems.SegmentsInFlight` | src/stack/transport/tcp_out.c:160-208 | every segment ever sent by either end carries the written bytes of its sequence numbers, and a FIN stands right behind the last byte of a closed sender and carries no data |
| `TcpTheorems.ReceiveAccounting` | src/stack/transport/tcp_in.c:161-211 | rcv.nxt = irs + 1 + accepted bytes + `fin_in`; right window edge = irs + 1 + bytes read + buffer size + `fin_in` |
| `TcpTheorems.RunGrows` | src/stack/transport/tcp_in.c:180-211 | along a run the histories of both ends only grow and iss, irs and `fin_in` never change back |
| `TcpTheorems.RightEdgeNeverShrinks` | include/stack/transport/tcp.h:215-218 | the right edge that either end advertises never moves left over any run |
| `TcpTheorems.FinAckedDelivers` | src/stack/transport/tcp_out.c:241-254 | once `fin_out` is cleared after close, una = iss + 2 + written bytes, and the peer has accepted every byte and the FIN |
| `TcpTheorems.CloseSafety` | src/stack/transport/tcp_state.c:231-351 | in every world: FIN_WAIT_2 and TIME_WAIT mean everything written and our FIN are acknowledged and accepted by the peer; FIN_WAIT_1, CLOSING and LAST_ACK keep `fin_out`; CLOSING and TIME_WAIT have `fin_in` and hold all the peer wrote; CLOSE_WAIT and LAST_ACK mean that the peer has closed and all it wrote is accepted; ESTABLISHED, FIN_WAIT_1 and FIN_WAIT_2 have no `fin_in` |
| `TcpClose.FinGoesLast` | src/stack/transport/tcp_out.c:160-208 | in every run a FIN that was ever sent says that its sender has closed, that its SYN and every byte it wrote are acknowledged, and that its buffer is empty |
| `TcpClose.EndedInEveryRun` | src/stack/transport/tcp_state.c:135-195 | in every run an end in CLOSE_WAIT or LAST_ACK has accepted every byte of a peer that has closed, so end of stream is never reported early; while `fin_in` is missing the peer's FIN is not acknowledged |
| `TcpClose.FinInExactly` | src/stack/transport/tcp_state.c:391-428 | over the events since CLOSE_WAIT was entered: `fin_in` is set exactly if that was from ESTABLISHED and missing exactly if it was from SYN_RECVD |
| `TcpClose.ApplyEnters` | src/stack/transport/tcp_state.c:135-195 | the only ways into CLOSE_WAIT and LAST_ACK |
| `TcpRuns.CloseWaitWithoutFin` | src/stack/transport/tcp_state.c:407-424 | a run in which a FIN reaches SYN_RECVD and CLOSE_WAIT is entered without `fin_in` |
| `TcpTheorems.LastAckSafety` | src/stack/transport/tcp_state.c:200-222 | at either end LAST_ACK reaches CLOSED through a segment without RST or SYN only when every byte and our FIN are acknowledged |
| `TcpTheorems.AcceptanceTest` | src/stack/transport/tcp_in.c:42-75 | `tcp_seq_acceptable` decides exactly the table of RFC 793 section 3.3 on unwrapped numbers, for every window and segment inside half of the number space, wherever the numbers wrap |
| `TcpTheorems.RetransmitSends` | src/stack/transport/tcp_out.c:372-422 | a retransmission sends one segment exactly when a SYN, data or a FIN is outstanding, and leaves that so |
| `TcpTheorems.RexmitEnds` | src/stack/transport/tcp_out.c:430-475 | in REXMIT the retries left are a termination measure: exactly so many retransmissions follow, the time is the doubling, capped back-off, and then the connection is closed |
| `TcpTheorems.SendingEnds` | src/stack/transport/tcp_out.c:430-475 | from SENDING, exactly as many retransmissions as configured follow before the connection is closed; the first doubling is not capped |
| `TcpTheorems.SilentPeer` | include/common/easy_net_config.h:96-98 | from IDLE, a send event and then silence: closed after exactly 31000 ms of timer time with exactly five retransmissions if anything is outstanding and none otherwise |
| `TcpTheorems.SilentPeerInEveryRun` | src/stack/transport/tcp_out.c:430-508 | the same for an idle end, either of the two, in any world of any run |
| `TcpTheorems.TcbOkInEveryRun` | src/stack/transport/tcp_out.c:480-508 | in every run an idle sender has no timer and the initial RTO, a running timer equals the RTO, and the send buffer is within its capacity |
| `TcpTheorems.NxtOkInEveryRun` | src/stack/transport/tcp_out.c:118-132 | what the in-place methods demand of nxt holds at both ends of every run, so they do to the record what the model does |
| `TcpRuns.RtoUnbounded` | src/stack/transport/tcp_out.c:430-475 | for every bound some run, from the handshake on, reaches a retransmission timeout above it |
| `TcpRuns.Rounds` | src/stack/transport/tcp_out.c:514-578 | after a close, a timeout and a duplicate of an old acknowledgement take the sender through REXMIT back to SENDING with the timeout doubled, any number of times |
| `TcpRuns.LeavesInt` | include/stack/transport/tcp.h:197-197 | the 22nd doubling of the initial timeout leaves the range of a 32-bit int, the 21st does not |
| `TcpRuns.AboveMaximum` | src/stack/transport/tcp_out.c:430-475 | an expiry arms a timer above TCP_RTO_MAX exactly in SENDING with more than half of it and a retransmission that is not refused |
| `TcpSent.BytesGoOut` | src/stack/transport/tcp_out.c:160-208 | in every run whose sends all reach IP, every written byte below nxt lies, at its own sequence number, in the data of some segment that its end sent |
| `TcpSent.RetransmitIs` | src/stack/transport/tcp_out.c:372-422 | a retransmission that reaches IP is one segment at una with the first unacknowledged bytes, as many as fit the segment size, and a FIN exactly on an empty buffer |
| `TcpSent.SendEventIs` | src/stack/transport/tcp_out.c:514-590 | a send event with nothing outstanding sends the next bytes of the stream at nxt, as many as fit the segment size, or the FIN, moves nxt over exactly these and arms the timer |
| `TcpTaken.TakesInEveryRun` | src/stack/transport/tcp_in.c:161-211 | in every run, a segment without RST or SYN at the next slot that reaches ESTABLISHED, FIN_WAIT_1 or FIN_WAIT_2 with an acknowledgement not of the future adds exactly its data, as far as the window goes, to the accepted bytes |
| `TcpTaken.SegmentsTellAll` | src/stack/transport/tcp_out.c:262-288 | in every run, every segment an event sends acknowledges exactly the SYN, the bytes and the FIN accepted by then, and advertises exactly the free part of the receive buffer |
| `TcpTaken.AcceptedIsAcked` | src/stack/transport/tcp_in.c:180-211 | in every run, a delivery that accepts bytes or a FIN sends, in the same step, an acknowledgement of all of them with the window that is left |
| `TcpExits.AnswersInEveryRun` | src/stack/transport/tcp_state.c:135-351 | in every run, what an acceptable segment does in each state from SYN_RECVD on: a RST closes, a SYN closes and is reset, and otherwise FIN_WAIT_1, FIN_WAIT_2, CLOSING and LAST_ACK are left for exactly the states told by whether every byte and our FIN are acknowledged and whether the peer's FIN is in, TIME_WAIT always with the 2MSL timer; LAST_ACK alone goes to CLOSED; an unacceptable segment does nothing |
| `TcpExits.SynSentOpens` | src/stack/transport/tcp_state.c:74-130 | what every segment does in SYN_SENT, and the segment size agreed |
| `TcpFuture.NothingBeyondNxt` | src/stack/transport/tcp_out.c:160-208 | in every run no end has sent, and no peer has accepted, a byte beyond nxt |
| `TcpFuture.AcksBelow` | src/stack/transport/tcp_out.c:225-238 | in every run no acknowledgement ever sent is of the future for its receiver, except one of a FIN that nxt does not count |
| `TcpFuture.AlwaysTaken` | src/stack/transport/tcp_in.c:161-211 | in every run, data at the next slot is taken in ESTABLISHED and FIN_WAIT_2 whatever acknowledgement comes with it |
| `TcpFuture.FinAckTaken` | src/stack/transport/tcp_out.c:225-238 | the acknowledgement of the FIN is taken if and only if nxt counts the FIN |
| `TcpFuture.StuckStays` | src/stack/transport/tcp_state.c:200-225 | in every run, an end in LAST_ACK with an empty buffer whose nxt does not count the FIN stays so until a RST or SYN, its retransmission limit or destroy: no acknowledgement closes it |
| `TcpRuns.FinAckRefused` | src/stack/transport/tcp_out.c:372-422 | a run into that state: data is out at close, the FIN goes out by the timer only, the peer takes it and is in TIME_WAIT, and its acknowledgement is refused |
| `TcpExchange.LosslessExchange` | src/stack/transport/tcp_in.c:138-211 | in every run, a write at an end at rest, the delivery of its segment and the delivery of the answer leave the peer with exactly those bytes more, una = nxt, and both ends at rest |
| `TcpCalls.CallsInEveryRun` | src/stack/transport/tcp.c:474-688 | in every run: a write takes exactly as many bytes as keep the unacknowledged ones within the send buffer, a read gives exactly the oldest accepted bytes not yet read, and close and destroy leave each state for exactly its successor |
| `TcpCalls.TidyInEveryRun` | src/stack/transport/tcp_state.c:445-450 | in every run the 2MSL timer runs exactly in TIME_WAIT, no retransmission timer runs there, in CLOSED or in LISTEN, and no segment carries more than TCP_MSS bytes |
| `TcpCalls.HalfOpenCloses` | src/stack/transport/tcp_out.c:70-113 | in every run, a segment that reaches an end without the connection is answered by a reset that closes the end which sent it, from SYN_SENT on, as long as that end has accepted nothing more |
| `TcpCalls.OldSegmentsDropped` | src/stack/transport/tcp_in.c:143-146 | in every run a segment whose slots were all accepted before changes nothing and is answered by nothing, so a lost acknowledgement is not repeated |
| `TcpCalls.TimeWaitAcks` | src/stack/transport/tcp_state.c:329-351 | in every run TIME_WAIT acknowledges every segment without RST or SYN that passes the acceptance test |
| `TcpCalls.AckSendsNext` | src/stack/transport/tcp_out.c:514-578 | in every run, in ESTABLISHED, CLOSE_WAIT and FIN_WAIT_1 the acknowledgement of all that was sent sends the bytes that follow, up to TCP_MSS, or the FIN once there are none |
| `TcpCalls.RexmitEvent` | src/stack/transport/tcp_out.c:554-572 | a send event in REXMIT with data outstanding sends the first unacknowledged bytes again |
| `TcpSafety.RunInv` | src/stack/transport/tcp_out.c:160-592 | the invariant tying both ends and both channels holds in every world of every run, from connect or listen on |
| `TcpSafety.NextKeepsInv` | src/stack/transport/tcp_state.c:74-450 | every event at either end (connect, send, receive, close, any segment ever sent, retransmission timeout, MSL timeout, destroy; with every way a send can fail) keeps the invariant |
| `TcpSafety.OutEventWindow` | src/stack/transport/tcp_out.c:514-590 | a send event in any of IDLE, SENDING and REXMIT keeps the sender window |
| `TcpSafety.RetransmitWindow` | src/stack/transport/tcp_out.c:372-422 | retransmission keeps the sender window |
| `TcpSafety.TransmitWindow` | src/stack/transport/tcp_out.c:160-208 | transmission keeps the sender window |
| `TcpSafety.AckWindow` | src/stack/transport/tcp_out.c:225-256 | an acknowledgement moves una to exactly the acknowledged slot or nowhere, keeps the window, and ends the SYN |
| `TcpSafety.DataStep` | src/stack/transport/tcp_in.c:161-211 | arriving data extends the accepted bytes only by bytes the peer wrote next, and a FIN is taken only behind all of them |
| `TcpSafety.SynSentOk` | src/stack/transport/tcp_state.c:74-130 | every segment in SYN_SENT, simultaneous open included, keeps the invariant |
| `TcpSafety.ListenOk` | src/stack/transport/tcp_state.c:359-388 | a listening socket that answers a SYN starts a connection satisfying the invariant |
| `TcpSafety.InboundOk` | src/stack/transport/tcp_in.c:138-153 | every segment in every state keeps the invariant |
| `TcpSafety.ConnectOk` | src/stack/transport/tcp.c:364-420 | connect starts a connection satisfying the invariant |
| `TcpSafety.SendOk` | src/stack/transport/tcp.c:510-550 | tcp_send appends exactly the bytes it takes to the written bytes and keeps the invariant |
| `TcpSafety.RecvOk` | src/stack/transport/tcp.c:552-586 | tcp_recv moves bytes from the receive buffer to the application and keeps the invariant |
| `TcpSafety.CloseOk` | src/stack/transport/tcp.c:474-504 | close keeps the invariant from every state |
| `TcpSafety.TimeoutOk` | src/stack/transport/tcp_out.c:430-475 | a retransmission timeout keeps the invariant |
| `TcpModel.AckInSlots` | src/stack/transport/tcp_out.c:225-256 | `tcp_ack_process` on unwrapped slots: old acknowledgements change nothing, those beyond nxt are refused, others remove exactly the acknowledged bytes, and clear `fin_out` exactly when they reach behind the buffer |
| `SeqNum.DiffIsSlotDifference` | include/stack/transport/tcp.h:254-255 | inside half of the number space the comparison macros order numbers as their streams do, across the wrap |
| `SeqNum.MacroReadingsAgree` | include/stack/transport/tcp.h:254-255 | the plain subtraction of two int32_t values agrees with the wrapped difference exactly when it does not overflow, and orders the numbers the other way otherwise |
| `SeqNum.SlotPlus` | include/stack/transport/tcp.h:254-255 | advancing a number advances its place in the stream, below the wrap |
| `TcpSock.Sock.Transmit` | src/stack/transport/tcp_out.c:160-208 | the in-place transmit changes nxt only, reads the data out of the send ring, and does what the model's function says |
| `TcpSock.Sock.Retransmit` | src/stack/transport/tcp_out.c:372-422 | the same for retransmit, from the front of the send ring, with the failure it reports |
| `TcpSock.Sock.SetOState` | src/stack/transport/tcp_out.c:480-508 | ostate, rto and timer exactly as the model says |
| `TcpSock.Sock.OutEvent` | src/stack/transport/tcp_out.c:514-590 | the three ostate handlers against the model |
| `TcpSock.Sock.SendingTmo` | src/stack/transport/tcp_out.c:430-450 | the SENDING branch of the timeout against the model |
| `TcpSock.Sock.RexmitTmo` | src/stack/transport/tcp_out.c:450-475 | the REXMIT branch of the timeout against the model |
| `TcpSock.Sock.TimerTmo` | src/stack/transport/tcp_out.c:430-475 | the timeout against the model |
| `TcpSock.Sock.AckProcess` | src/stack/transport/tcp_out.c:225-256 | acknowledgement processing in place against the model: exactly the acknowledged bytes leave the send ring |
| `TcpSock.Sock.SendFin` | src/stack/transport/tcp_out.c:292-298 | marks the FIN and raises a send event, as the model does |
| `TcpSock.Sock.SendSyn` | src/stack/transport/tcp_out.c:213-220 | marks the SYN and raises a send event, as the model does |
| `TcpSock.Sock.SeqAcceptable` | src/stack/transport/tcp_in.c:42-75 | the acceptance test on the record's fields |
| `TcpSock.Sock.CopyData` | src/stack/transport/tcp_in.c:161-178 | appends to the receive ring exactly the part of the segment that continues the received bytes and fits |
| `TcpSock.Sock.DataIn` | src/stack/transport/tcp_in.c:180-211 | rcv.nxt, `fin_in`, the receive buffer and the acknowledgement against the model |
| `TcpSock.Sock.EstablishedIn` | src/stack/transport/tcp_state.c:135-167 | ESTABLISHED handler against the model |
| `TcpSock.Sock.CloseWaitIn` | src/stack/transport/tcp_state.c:173-195 | CLOSE_WAIT handler against the model |
| `TcpSock.Sock.LastAckIn` | src/stack/transport/tcp_state.c:200-225 | LAST_ACK handler against the model |
| `TcpSock.Sock.FinWait1In` | src/stack/transport/tcp_state.c:231-270 | FIN_WAIT_1 handler against the model |
| `TcpSock.Sock.FinWait2In` | src/stack/transport/tcp_state.c:275-298 | FIN_WAIT_2 handler against the model |
| `TcpSock.Sock.ClosingIn` | src/stack/transport/tcp_state.c:302-324 | CLOSING handler against the model |
| `TcpSock.Sock.TimeWaitIn` | src/stack/transport/tcp_state.c:329-351 | TIME_WAIT handler against the model |
| `TcpSock.Sock.SynRecvdIn` | src/stack/transport/tcp_state.c:391-428 | SYN_RECVD handler against the model |
| `TcpSock.Sock.SynSentIn` | src/stack/transport/tcp_state.c:74-130 | SYN_SENT handler against the model |
| `TcpSock.Sock.In` | src/stack/transport/tcp_in.c:125-153 | dispatch of a segment in every state, against the model: a closed record answers with a reset, a listening one may start a child and stays as it is, the others take the segment themselves |
| `TcpSock.Sock.OpenIn` | src/stack/transport/tcp_in.c:138-153 | the acceptance test, RST and SYN, and the handler of each state from SYN_RECVD on, against the model |
| `TcpSock.Sock.ListenIn` | src/stack/transport/tcp_state.c:359-388 | LISTEN handler against the model, with the child as a new connection of its own rings |
| `TcpSock.Sock.CreateChild` | src/stack/transport/tcp.c:654-678 | the child of a SYN, with its SYN and acknowledgement sent, against the model |
| `TcpSock.Sock.Connect` | src/stack/transport/tcp.c:364-420 | connect in place, with both rings cleared, against the model |
| `TcpSock.Sock.Send` | src/stack/transport/tcp.c:510-550 | writes as many bytes as fit to the send ring, in order, and raises a send event, against the model |
| `TcpSock.Sock.Recv` | src/stack/transport/tcp.c:552-586 | hands out the oldest bytes of the receive ring and keeps the rest, against the model |
| `TcpSock.Sock.Close` | src/stack/transport/tcp.c:474-504 | close in every state against the model |
| `TcpSock.Sock.Abort` | src/stack/transport/tcp.c:453-460 | stops the timers and closes, against the model |
| `TcpSock.AckKeepsNxt` | src/stack/transport/tcp_out.c:225-256 | an acknowledgement keeps nxt within one buffer and one FIN of una |
| `TcpBuf.Ring.WriteSend` | src/stack/transport/tcp_buf.c:12-22 | appends the bytes to the ring's contents, across the wrap |
| `TcpBuf.Ring.ReadSend` | src/stack/transport/tcp_buf.c:28-56 | returns exactly the slice of the contents and changes nothing |
| `TcpBuf.Ring.Remove` | src/stack/transport/tcp_buf.c:61-75 | drops exactly the oldest bytes |
| `TcpBuf.Ring.WriteRcv` | src/stack/transport/tcp_buf.c:77-101 | appends as much as fits at offset 0, in at most two runs; for any other offset the ring is out of order afterwards, so it stays in order exactly for offset 0 |
| `TcpBuf.Ring.ReadRcv` | src/stack/transport/tcp_buf.c:104-116 | old contents = bytes returned + new contents |
| `TcpBuf.TurnAppend` | src/stack/transport/tcp_buf.c:12-22 | writing into the free cells behind the head extends the contents and disturbs no byte of them |
| `PacketBuffer.PagesPartition` | src/common/packet_buffer.c:16-88 | what conservation means: no page in two packets, twice in one, or both free and used, and every page of the pool is somewhere |
| `PacketBuffer.BuildPool` | src/common/memory_pool.c:8-23 | the pool built by the loop holds every page exactly once |
| `PacketBuffer.Buffers.constructor` | src/common/packet_buffer.c:186-197 | builds the pool; all 512 pages and all packets are free, and the pool is whole |
| `PacketBuffer.Buffers.Alloc` | src/common/packet_buffer.c:199-227 | succeeds exactly when a packet is left and the pages suffice; a failure gives back what it took; the pool stays whole |
| `PacketBuffer.Buffers.IncRef` | src/common/packet_buffer.c:124-128 | one more reference and nothing else |
| `PacketBuffer.Buffers.Free` | src/common/packet_buffer.c:387-394 | pages return to the pool only with the last reference; the pool stays whole |
| `PacketBuffer.PageAllocList` | src/common/packet_buffer.c:43-88 | pages covering exactly the size, each non-empty and within 128 bytes, or, exactly when the pool is too small, a pool with the same pages |
| `PacketBuffer.InsertPageList` | src/common/packet_buffer.c:90-113 | page list put in front or behind, total size kept in step |
| `PacketBuffer.Buffers.AddHeader` | src/common/packet_buffer.c:234-279 | all old bytes stay as a suffix; a continuous header lies in one page; the error cases exactly; a failed continuous call changes nothing; a failed loose one has grown by the reserve of the first page |
| `PacketBuffer.Buffers.RemoveHeader` | src/common/packet_buffer.c:285-309 | drops exactly a prefix; whole pages return to the pool |
| `PacketBuffer.Buffers.Resize` | src/common/packet_buffer.c:315-382 | growing keeps all bytes as a prefix, shrinking keeps a prefix, and it fails exactly when the pages do not suffice, changing nothing |
| `PacketBuffer.Buffers.Join` | src/common/packet_buffer.c:396-408 | concatenation; the source loses its pages and one reference but keeps its total size, so it is sound afterwards exactly if it has further references and was empty; no other packet changes |
| `PacketBuffer.Buffers.SetCont` | src/common/packet_buffer.c:413-464 | changes no byte and puts the first `size` bytes into one page; the error cases exactly |
| `PacketBuffer.Gather` | src/common/packet_buffer.c:413-464 | the gathering loop: the first page holds `size` bytes, the flat bytes are the same, emptied pages go back |
| `PacketBuffer.Buffers.ResetPos` | src/common/packet_buffer.c:116-122 | puts the cursor at position 0 of the pages, whatever it was |
| `PacketBuffer.Buffers.Seek` | src/common/packet_buffer.c:500-530 | lands on the offset from any position and page layout, or refuses and stays |
| `PacketBuffer.Buffers.Write` | src/common/packet_buffer.c:540-565 | replaces exactly [pos, pos + n) of the flat bytes and moves the cursor; the error cases exactly |
| `PacketBuffer.Buffers.Read` | src/common/packet_buffer.c:567-590 | returns exactly that slice, changes no byte, moves the cursor |
| `PacketBuffer.Buffers.WriteAndReadBack` | test/packet_test.c:28-32 | write, seek back, read returns the bytes written, and no other byte changed |
| `PacketBuffer.Buffers.Copy` | src/common/packet_buffer.c:593-615 | between two differently paged packets, equals a slice copy |
| `PacketBuffer.Buffers.Fill` | src/common/packet_buffer.c:617-637 | replaces exactly the slice by the value |
| `PacketBuffer.Buffers.Checksum16` | src/common/packet_buffer.c:639-662 | the chained sums over pages of any sizes, odd ones included, equal one sum over the flat bytes |
| `PacketBuffer.Buffers.ChecksumPeso` | src/common/utils.c:59-73 | the checksum of pseudo-header and packet taken together, for every page layout |
| `PacketBuffer.Buffers.StampChecksum` | src/stack/transport/tcp_out.c:49-50 | clear the field, sum, store: for every page layout the sum over pseudo-header and packet is then zero, and no other byte has changed |
| `PacketBuffer.Buffers.StampAndCheck` | src/stack/transport/tcp_in.c:97-103 | a packet stamped by the sender passes the receiver's sum, however its bytes lie in pages |
| `Pages.UnderCursor` | src/common/packet_buffer.c:469-481 | what lies under the cursor is the flat bytes from the position on |
| `Pages.OverwriteAt` | src/common/packet_buffer.c:540-565 | overwriting under the cursor overwrites exactly that part of the flat bytes |
| `Pages.AdvanceCursor` | src/common/packet_buffer.c:483-497 | moving forward keeps cursor page, offset and position in agreement |
| `Checksum.Checksum16` | src/common/utils.c:31-55 | the loop over 16-bit words, with its odd-offset case, equals the byte-wise sum, without 32-bit overflow and with a terminating fold |
| `Checksum.RawBound` | src/common/utils.c:31-55 | bound on the unfolded sum |
| `Checksum.FoldClosed` | src/common/utils.c:49-52 | folding is reduction modulo 65535 that keeps zero apart |
| `Checksum.FoldAbsorb` | src/common/utils.c:49-52 | folding a partial sum first makes no difference |
| `Checksum.NetworkOrder` | src/common/utils.c:31-55 | byte order independence (RFC 1071): the little-endian sum is the byte swap of the sum in network order |
| `Checksum.StoredChecksumVerifies` | src/stack/network/ipv4.c:654-665 | a checksum stored into a zeroed even-aligned field makes the receiver's complemented sum zero, for every content, length and pre-sum |
| `Checksum.PseudoIsPrefix` | src/common/utils.c:59-73 | chaining the pseudo-header sum equals summing pseudo-header and segment as one message |
| `Checksum.PseudoSums` | src/common/utils.c:59-73 | the pseudo-header sums up as section 3.1 of RFC 793 lays it out: the words of both addresses, the protocol in the low half of a word and the length, in network order |
| `Checksum.PseudoChecksumVerifies` | src/stack/transport/tcp_out.c:49-50 | with the pseudo-header in the sum an intact TCP segment verifies |
| `Checksum.StaleFieldVerifies` | src/stack/transport/udp.c:288-295 | with a field that is not zeroed first the sum is zero exactly when it held zero, or all ones beside anything non-zero |
| `Checksum.StaleFieldAccepted` | src/stack/transport/udp.c:366-372 | the receiver, which does not look at the sum when the field is zero, accepts such a message exactly in those cases and when the sum over all of it, stale value included, folds to all ones |
| `Checksum.StaleFieldCases` | src/stack/transport/udp.c:288-295 | a message that is rejected, and one that is accepted only because a zero was stored |
| `Fragments.FragOut` | src/stack/network/ipv4.c:540-610 | the fragments cut the payload: consecutive non-empty pieces at offsets in units of 8 with the more flag on all but the last, all but the last of one unit, each within the MTU; their number is known from length and MTU; when an allocation or a send fails, exactly the first ones have gone out; the id advances exactly when all have |
| `Fragments.FitsSixteen` | src/stack/network/ipv4.c:546-557 | sixteen fragments suffice exactly up to a length computed from the MTU |
| `Fragments.InsertBuf` | src/stack/network/ipv4.c:174-204 | the insertion loop: duplicates refused, otherwise put in order of offset |
| `Fragments.AllArrived` | src/stack/network/ipv4.c:206-222 | the completeness loop against its definition |
| `Fragments.Join` | src/stack/network/ipv4.c:225-264 | the payloads in list order |
| `Fragments.FragTable.Find` | src/stack/network/ipv4.c:138-172 | the entry of the key stands first; a full table loses its oldest |
| `Fragments.FragTable.Arrive` | src/stack/network/ipv4.c:459-490 | one arrival in place, against the function the theorems are about |
| `Fragments.InsertPick` | src/stack/network/ipv4.c:174-204 | inserting a fragment into the sorted list of those present gives the sorted list with it, or is refused exactly for a duplicate |
| `Fragments.ArrivedPick` | src/stack/network/ipv4.c:206-222 | the completeness loop answers yes exactly when no fragment is missing |
| `Fragments.OtherArrival` | src/stack/network/ipv4.c:138-172 | a fragment of another packet pushes an entry out exactly when fifteen keys are ahead of it and this key is not among them; otherwise the entry is unchanged, and the other key is ahead of it unless its own entry was given up |
| `Fragments.EntryLost` | src/stack/network/ipv4.c:138-148 | a full table, the entry last in it, and a new key: what had arrived is lost |
| `Fragments.SurvivesExactly` | src/stack/network/ipv4.c:138-172 | while the entries of the others stay, an entry is lost exactly when sixteen different other keys have come since its last fragment |
| `Fragments.Arrival` | src/stack/network/ipv4.c:459-490 | one arrival of any run: what is present, what is ahead of it, and whether the payload comes out |
| `Fragments.Reassembles` | src/stack/network/ipv4.c:459-490 | in every run of arrivals, with duplicates, with fragments of the same shape from other packets under the same key, and with any number of other keys between, a payload comes out at exactly the arrivals that fill the last place missing since one came out or was pushed out, and it is what came first at each place |
| `Fragments.FirstsComeOut` | src/stack/network/ipv4.c:174-264 | under a key that packets of one shape share, a payload first comes out exactly when the last place is filled, and it is what came first at each |
| `Fragments.TruePayload` | src/stack/network/ipv4.c:174-264 | it is the packet exactly when each of its places was filled first by its own fragment |
| `Fragments.FragmentThenReassemble` | src/stack/network/ipv4.c:174-264 | cut then reassemble is the identity for every arrival order in which fewer than sixteen other keys come between two fragments of the packet, and it completes exactly when the last missing fragment arrives |
| `Fragments.TooManyFragments` | src/stack/network/ipv4.c:174-204 | a packet cut into more than 16 fragments never comes out, whatever else arrives, also when others of its shape share the key |
| `FragmentIds.SendCalls` | src/stack/network/ipv4.c:540-610 | a sequence of calls on one packet id sends, under each id, the pieces of every call made with it, and leaves the id advanced by the number of successes; a packet sent whole counts as a call with nothing to cut |
| `FragmentIds.WhatComesOut` | src/stack/network/ipv4.c:557-607 | over any sequence of calls, a call brings out what failed calls left under its id followed by the rest of its own payload, with its last fragment and not before, or nothing if they filled as many places as it has |
| `FragmentIds.TrueExactly` | src/stack/network/ipv4.c:557-607 | what comes out is the packet sent if and only if the bytes that failed calls sent before under its id are a beginning of the packet and do not fill all its places |
| `FragmentIds.MixedPayload` | src/stack/network/ipv4.c:557-607 | the failing input: k fragments of one packet, a failure, and another packet; the beginning of the first comes out with the end of the second |
| `FragmentIds.NobodySentIt` | src/stack/network/ipv4.c:557-607 | an instance of it at the smallest MTU, whose outcome is neither packet |
| `FragmentIds.ManyCalls` | src/stack/network/ipv4.c:557-607 | what the receiver holds under the current id after any sequence of calls, and that it holds nothing under later ones |
| `Routing.OneCnt` | src/stack/network/ipaddr.c:123-134 | counts the one bits |
| `Routing.AndBits` | src/stack/network/ipaddr.c:96-100 | every bit of the masked address is set exactly when it is set in both |
| `Routing.OnesCounts` | src/stack/network/ipaddr.c:123-134 | the count is the number of places whose bit is set |
| `Routing.AndMask` | src/stack/network/ipaddr.c:96-100 | masking with a prefix mask of n bits keeps the first n bits of the address, told by division |
| `Routing.MatchesPrefix` | src/stack/network/ipv4.c:332-348 | a prefix route matches exactly the addresses that share its first n bits |
| `Routing.LongestPrefix` | src/stack/network/ipv4.c:332-348 | with prefix masks the search answers nothing exactly when no route shares its prefix with the address, and otherwise one that does and whose prefix is longest |
| `Routing.RouteTable.Add` | src/stack/network/ipv4.c:300-314 | appends the route with its bit count; a full table takes no more |
| `Routing.RouteTable.Find` | src/stack/network/ipv4.c:332-348 | nothing exactly when no entry matches; otherwise the first of the matches with most mask bits |
| `Routing.BestMatchUnique` | src/stack/network/ipaddr.c:96-100 | for contiguous masks two best matches have equal mask and net |
| `Routing.OrderIrrelevant` | src/stack/network/ipv4.c:332-348 | for contiguous masks tables with the same routes in any order answer with the same net and mask |
| `Routing.SomeMatchEitherWay` | src/stack/network/ipv4.c:332-348 | whether anything is found does not depend on the order |
| `Routing.FoundIsBest` | src/stack/network/ipv4.c:332-348 | the answer is nothing exactly when nothing matches, and otherwise a match with most mask bits |
| `Routing.OrderMattersExactly` | src/stack/network/ipv4.c:332-348 | two orders of the same routes answer an address with different net or mask exactly when two of its matches with most mask bits differ in net or mask |
| `Routing.NoTie` | src/stack/network/ipv4.c:332-348 | with contiguous masks that never happens |
| `Routing.OrderMattersOtherwise` | src/stack/network/ipv4.c:300-348 | two routes with masks of one bit, added in one order and in the other: the same address gets different networks |
| `FixedQueue.NextKeepsInv` | src/common/fixed_queue.c:41-87 | every step of every thread keeps the semaphore balance and the ring |
| `FixedQueue.RunInv` | src/common/fixed_queue.c:41-87 | both hold in every state of every interleaving |
| `FixedQueue.QueueSafety` | src/common/fixed_queue.c:41-87 | for any number of threads: both semaphore equations hold, no slot is overwritten or read empty, and what is taken is the oldest message not yet taken, so messages come out in the order they were put |
| `FixedQueue.CallOutcome` | src/common/fixed_queue.c:41-78 | a call with a negative timeout comes back at once exactly when every slot, or none, holds a message not yet taken; every other call goes on to its semaphore with its message |
| `FixedQueue.Slots.Put` | src/common/fixed_queue.c:53-59 | the locked section of send: the array holds the messages put, now with this one last, and not yet taken; it is the step DoPut of the queue machine on these fields |
| `FixedQueue.Slots.Take` | src/common/fixed_queue.c:78-84 | the locked section of receive: the oldest message not yet taken, and the array holds the rest; it is the step DoTake |
| `MsgHandler.QueueRefined` | src/stack/msg_handler.c:131-163 | every step of the handler is a step of the queue or leaves it alone |
| `MsgHandler.HRunInv` | src/stack/msg_handler.c:32-68 | pool, queue and thread roles stay in balance in every interleaving |
| `MsgHandler.HolderFindsRoom` | src/stack/msg_handler.c:178-193 | in every reachable state a thread holding a block neither finds the queue full nor blocks in send, and an allocation past its semaphore gets a block |
| `MsgHandler.HandledInOrder` | src/stack/msg_handler.c:131-163 | messages are handled in the order they were queued |
| `MsgHandler.SendStarts` | src/stack/msg_handler.c:178-193 | in every reachable state a thread that holds a block and starts a send, with any timeout, is then in the queue with that block |
| `MsgHandler.EndsWithPut` | src/common/fixed_queue.c:41-63 | from there it comes to rest only through a step of its own that makes the block the last message put |
| `MsgHandler.HandledWasTaken` | src/stack/msg_handler.c:131-163 | a thread processes a block only after a step of its own that appended it to the messages taken |
| `MsgHandler.CallsProceed` | src/common/memory_pool.c:32-48 | an allocation comes back empty-handed exactly when it must not wait and no block is free, and past its semaphore gets a block that was free; a receive that must not wait comes back exactly when nothing is queued |
| `MsgHandler.NoDeadlock` | src/stack/msg_handler.c:131-193 | in every reachable state, while a thread waits for a block and another is in a receive, some thread can take a step that is neither a new call nor a timeout |
| `MsgHandler.PoolInOrder` | src/common/memory_pool.c:32-65 | blocks leave the pool in the order in which they came into it |
| `MsgHandler.PlacesConserved` | src/common/memory_pool.c:32-65 | every block is always in exactly as many places (pool, queue, a thread's hands) as at the start |
| `MsgHandler.NoBlockTwice` | src/common/memory_pool.c:32-65 | a block in a thread's hands is neither free nor queued nor in other hands |
| `TimerList.InsertMeans` | src/common/timer.c:34-68 | insertion adds one deadline and leaves every other unchanged |
| `TimerList.RemoveMeans` | src/common/timer.c:96-116 | removal drops one deadline and leaves every other unchanged |
| `TimerList.ExpireFired` | src/common/timer.c:119-145 | a check takes off exactly the timers with remaining time at most d |
| `TimerList.ExpireRest` | src/common/timer.c:119-145 | it lowers all others by d |
| `TimerList.FiredInOrder` | src/common/timer.c:119-145 | they fire in deadline order |
| `TimerList.CheckMeans` | src/common/timer.c:119-159 | a check on the list is the check on the map: expired timers go, reload timers start again at their period, the rest come d closer |
| `TimerList.RemovalTooLate` | src/common/timer.c:119-159 | whatever the callbacks called before its own do, an expired reload timer runs again after the check, unless one called later removes it |
| `TimerList.FirstIsNext` | src/common/timer.c:162-169 | the first timer of the list is the next one due |
| `TimerList.RunMeans` | src/common/timer.c:34-159 | the delta list refines the map over every run of additions, removals and checks |
| `TimerList.Inserted` | src/common/timer.c:34-68 | the insertion walk against its definition |
| `TimerList.Timers.Add` | src/common/timer.c:71-85 | adds one deadline to the running timers |
| `TimerList.Timers.Del` | src/common/timer.c:96-116 | removes one deadline, or nothing if it was not running |
| `TimerList.Timers.CheckTmo` | src/common/timer.c:119-159 | the two loops of the check, against the map and the order of firing |
| `TimerList.Timers.CheckTmoWith` | src/common/timer.c:119-159 | the check with callbacks that add and remove timers: all expired timers are called in deadline order whatever the callbacks do, and the running timers are those of the map after the same calls |
| `TimerList.Timers.Callback` | src/common/timer.c:71-116 | the additions and removals of one callback against the map |
| `TimerList.Timers.FirstTmo` | src/common/timer.c:162-169 | the least remaining time, or 0 with no timer |
| `ArpCache.ApplyOk` | src/stack/network/arp.c:94-269 | every operation keeps one entry per address, listed plus free = 50, no packet on resolved entries and at most 11 on waiting ones |
| `ArpCache.EveryRun` | src/stack/network/arp.c:94-472 | after any run all of that, list order is order of last use, and packets held, handed on and released are those taken in plus those of failed requests |
| `ArpCache.ConservedExactly` | src/stack/network/arp.c:463-470 | over a run every packet is held, handed on or released exactly once if and only if no request for a new address failed in it |
| `ArpCache.HeldAndReleased` | src/stack/network/arp.c:463-470 | the run in which it does not hold: one resolve whose request fails leaves its packet on the entry and released |
| `ArpCache.ApplyIsMapStep` | src/stack/network/arp.c:130-202 | the cache answers lookups as a map does: an operation changes its own address, a scan ages every answer, an eviction forgets one, and nothing else changes |
| `ArpCache.ApplyRecent` | src/stack/network/arp.c:130-142 | every operation leaves the list in order of last use |
| `ArpCache.ApplyConserves` | src/stack/network/arp.c:82-160 | packets held + sent + released = packets held before + packet given + the packet of a failed request |
| `ArpCache.EvictsLeastRecent` | src/stack/network/arp.c:94-118 | an eviction in any run takes the entry whose last use lies furthest back, and no other |
| `ArpCache.AgeLowersLife` | src/stack/network/arp.c:218-269 | a scan takes exactly one from an entry's life and frees it exactly at the last |
| `ArpCache.LifeInRun` | src/stack/network/arp.c:218-269 | life goes down by the number of scans, whatever lookups, queued packets and other addresses come between |
| `ArpCache.FreedExactly` | src/stack/network/arp.c:218-269 | the scan that takes the last of it frees the entry and no earlier one does |
| `ArpCache.ResolvedSends` | src/stack/network/arp.c:429-441 | in any run, a packet for an address taught less than 1200 scans ago and not evicted or taught again since goes out at once, exactly that packet and nothing else |
| `ArpCache.WaitingLastsNine` | src/stack/network/arp.c:429-472 | in any run a waiting entry left alone survives eight scans and goes with the ninth |
| `ArpCache.LearnedLasts1209` | src/stack/network/arp.c:175-202 | in any run a learned entry left alone survives 1208 scans and goes with the next |
| `ArpMap.RunIsMap` | src/stack/network/arp.c:94-472 | after any run the cache holds the entries of a plain map that forgets its least recently used address when full, with the same history of uses |
| `ArpMap.PendingInRun` | src/stack/network/arp.c:447-451 | while an entry waits, each packet for it is put in front of those already there |
| `ArpMap.NewestFirst` | src/stack/network/arp.c:145-160 | the answer to a request sends the packets that waited in reverse order of arrival |
| `ArpCache.ArpTable.CacheFind` | src/stack/network/arp.c:130-142 | the search loop with its move to the front, against the model |
| `ArpCache.ArpTable.CacheAlloc` | src/stack/network/arp.c:94-118 | a free entry, or by force the last of the list with its packets released |
| `ArpCache.ArpTable.CacheInsert` | src/stack/network/arp.c:175-202 | what an ARP packet teaches, against the model |
| `ArpCache.ArpTable.ArpResolve` | src/stack/network/arp.c:429-472 | send, queue or start waiting, with the error of a failed request, against the model |
| `ArpCache.ArpTable.TmoEntry` | src/stack/network/arp.c:222-262 | the scan's treatment of one entry |
| `ArpCache.ArpTable.CacheTmo` | src/stack/network/arp.c:218-269 | the scan loop that frees on the way, against the model |
| `LinkedList.List.InsertFirst` | src/common/list.c:48-60 | the links spell out [node] + old nodes in both directions, first, last and count in step |
| `LinkedList.List.InsertLast` | src/common/list.c:83-93 | old nodes + [node] |
| `LinkedList.List.InsertAfter` | src/common/list.c:95-110 | the node right behind `pre`; on an empty list the only node |
| `LinkedList.List.Remove` | src/common/list.c:62-81 | exactly this node goes, and its own links are cleared |
| `LinkedList.List.RemoveFirst` | src/common/list.c:19-25 | the first node, or null exactly when empty |
| `LinkedList.List.RemoveLast` | src/common/list.c:27-33 | the last node, or null exactly when empty |
| `LinkedList.List.ForEach` | include/common/list.h:86-89 | following next from first visits every node once, in order, and ends |
| `LinkedList.LinksWith` | src/common/list.c:95-110 | links rewritten around a new node spell out the sequence with it |
| `LinkedList.LinksWithout` | src/common/list.c:62-81 | links rewritten around a node spell out the sequence without it |

## Left out

- TCP liveness and eventual delivery: the code does not guarantee them. `OldSegmentsDropped` and `StuckStays` say why; `AckSendsNext` and `LosslessExchange` say what it does without losses.
- TCP keepalive, backlog and accept, `tcp_find`, ports, and options other than the segment size: branches that touch no sequence number or buffer.
- More than one incarnation of a connection per side: old segments of an earlier connection are not in the channel.
- Streams of 2^31 - 2 bytes and more on one side: the comparison macros no longer order such numbers.
- ListenIn: the backlog and a failed allocation of the child are not modelled.
- WriteRcv: takes the source bytes as a sequence instead of a packet with a cursor.
- RtoUnbounded: the RTO is a number without bound in the model; what the shift does to an int beyond the 21st round is not modelled.
- AcceptanceTest: window and segment lie within half of the number space, which the bound on streams gives; beyond it the comparison has no meaning.
- Pages are values with identities: aliasing of a page in C is not captured, while `PagesPartition` shows that no two lists ever share a page.
- The C layout, bit-fields and byte order of headers: records with bounded fields; checksums are stated on bytes.
- Timeouts of fragments: `frag_add` sets the time to 0 (src/stack/network/ipv4.c:166), so an entry dies at the next scan; reassembly is stated between two scans.
- FragOut: the MTU is at least 28 and the payload at most 65535 bytes; below 28 the code's loop makes no progress, above 65535 the length field does not hold.
- FragmentThenReassemble: at most 16 fragments, which `FitsSixteen` decides beforehand and `TooManyFragments` shows to be needed; and fewer than sixteen other keys between two fragments, which `Reassembles` does not ask.
- WhatComesOut: fragments arrive in the order sent, all calls go out at one MTU with at most 16 fragments each, and fewer than 65536 calls are made, so that no id comes round again. For any order, `Reassembles` and `TruePayload` say what comes out when the packets under a key have one shape.
- SurvivesExactly: one condition on the others, that their entries stay, is about the run; `OtherArrival` and `Reassembles` are exact without it.
- Semaphores are ideal counting semaphores and a lock makes its section one step; a wait that times out takes no token. Waits for a message block are without a time limit, which is what both callers ask for.
- CheckMeans: callbacks leave the timers alone; `CheckTmoWith` has callbacks that do not. The bookkeeping of elapsed time in the worker thread is not modelled.
- RunMeans: a timer is added only while it is not running; the code would link it into the list twice.
- LifeInRun: other operations on the entry's own ARP traffic and its eviction are excluded, since they restart or end its life.
- ARP packets on the wire, `arp_clear`, and failures of the link layer for a resolved address: a packet handed to the link layer counts as sent.
- OrderIrrelevant: states net and mask; next hop and interface of duplicate routes still depend on the order.
- Add: `rt_remove` is not modelled; it does not return its entry to the pool.
- UDP, ICMP and raw sockets, the socket API, the platform layer, logging and the demo programs: mostly field copies around the parts modelled here.
