# WIZnet socket driver: a verified model

The repository is the WIZnet ioLibrary for the W5x00/W6x00 Ethernet chips with an echo server and
test programs.  A host shares a small register file and ring memories with a chip that keeps
moving on its own.  This project models the driver as methods over a chip that may do anything its
documentation allows between two register accesses, and proves what the driver promises its
callers, for every such behaviour.

`dafny verify dfyconfig.toml` checks everything.

## How the model is built

**The chip** (`Ring`, `SocketRings`, `Chip`).  A socket of the chip is a value: registers, two
ring memories with their 16-bit pointers, and the history of the byte streams.  `Action` lists
what the chip does on its own: transmit the next byte, take an acknowledgement, raise SENDOK,
store received bytes or a whole datagram, time out, change its status, establish a connection
(which starts both rings again at arbitrary pointers), and finish the command in `Sn_CR`.  `Inv`
is what holds of a socket at every instant; `RunGrew` says what any number of actions can change.

**The driver** (`Session`, `SocketApi`).  `SocketApi.Driver` holds the static variables of
`socket.c`, eight sockets, and a `script` of arbitrary batches of chip actions.  `Tick` runs the
next batch, and there is one before each access of a call to the registers and memories of a
socket: before every status, size and interrupt read, every write of a command, a mode, a port, a
destination or an interrupt, and before each of the three accesses of a block copy (reading the
pointer, moving the bytes, writing the pointer).  Only reads of what nobody but the host changes
(Sn_MR, the buffer sizes, the configured addresses) have none of their own; what the chip does
around them belongs to the next batch.  Nothing is assumed about the script, so every contract
holds for every such interleaving.  A polling loop whose condition has not come true when the
script ends returns `Running`, and nothing else does; this stands for a run that is observed only
so far, and contracts say what holds then, too, and what the call is waiting for.  `Valid` is the
state between two calls and the constructor establishes it.  Ghost `log[sn]` records the bytes the
callers handed over and got back; `Linked` ties it to the registers.  `latched` says whether
`Sn_TX_WR` shows the pointer of the last SEND or the one written last, which the documentation
leaves open and which decides whether a non-blocking `send` can be repeated.  Every contract says
two things of the other sockets: `Isolated` that the driver keeps what it has about them, and
`Apart` that of each only the chip's own doing has changed, so that its mode, its transmit buffer
and its pointers are what they were unless a connection has been established meanwhile.

**The clients** (`Echo`, `Receiver`).  The TCP echo server over `Driver`, for one poll and for any
number of polls, and a client that makes any calls of `recvfrom` and `sendto` on a datagram socket
and puts the packets together.

**The other cores.**  `DoubleRead` (the two ways of reading a growing register in halves),
`SharedMemory` and `W5100` (allocation and ring copies in one shared memory), `SpiFrames` (wire
frames), `W5300` (word FIFOs and packed size registers), `Config`, `Decimal` and `Mac` (printing
and parsing the settings), `PhyScenario` (the PHY test sequencer), `Batcher` (register batching),
`PeekScan` (the pattern search of `peeksockmsg`), `Bits` (bitwise operations of C).

## Main results

- *Streams.*  `send` hands the chip exactly the prefix of its argument it reports, behind
  everything accepted before; the bytes on the wire are always a prefix of that, and no byte that
  is not acknowledged is overwritten, across ring and pointer wraps.  `recv` returns the next
  bytes that arrived.  An error is reported, BUSY answered or a wait gone on with only for the
  reason the code has for it, read at an instant of the call.  For blocking sockets all this is
  unconditional.  A non-blocking `send` that gives up waiting for SENDOK has already stored its
  bytes: for every number of bytes and whatever the chip does meanwhile, a repetition delivers
  them once exactly when it finds the pointer of the last SEND (`RetryAfterBusy`).  With the
  pointer written last it delivers them twice if there is room for two copies, and otherwise
  stages more than is free and overwrites the oldest byte that is not acknowledged
  (`RetryVisible`).
- *Datagrams.*  Any sequence of `recvfrom` calls with any lengths, whatever `sendto` calls stand
  between them, returns fragments whose concatenation is each packet's payload, packet after
  packet, with that packet's address and port; on an open socket a call brings a part unless it
  finds nothing (`Collect`).  The read pointer is on a header exactly when `sock_remained_size` is
  0 (`ReaderIsAligned`).  This fails exactly when a pointer the protocol needs is missing:
  `recvfrom` then returns with the header half read, although with no command pending
  (`RecvFrom`).
- *Bookkeeping.*  Every call leaves the other seven sockets' bits, sizes, logs, buffers and
  pointers alone; SEND and SENDOK balance; no command is written while another is pending, and
  none is pending at a return, the keep-alive timeout excepted.
- *Echo.*  After every successful poll what the chip was handed equals what was received since the
  connection; after an error it is a prefix of it.  Over any number of polls this holds of the
  blocking server on every chip, and of the non-blocking one with a latched write pointer.  A poll
  of a connected socket echoes what is pending, up to a buffer of 2048 bytes, and n polls n
  buffers or all but fewer than 256 bytes of what was pending (`Serve`, `ServeBlocking`).  The one
  successful poll that need not be so finds socket 0 closed while no loopback mode is set.
- *Allocation.*  Whatever sizes `wizchip_init` accepts, wrapping sums included, the regions of a
  memory are disjoint, and inside it if and only if the granted sizes add up to at most 8 KB; the
  eight regions of both memories are disjoint if and only if the transmit sizes do, and a send
  then leaves all receive regions alone.  A granted size is the largest power of two up to the
  entry, divided by 16 from 16 KB on, because a field has two bits and the next write clears the
  third.  The sizes that add up to at most 8 are exactly those accepted without a wrap.
- *Round trips.*  Printed settings read back as themselves, and of a refused line exactly the
  fields ahead of the faulty one are taken over; packed words unpack to the same bytes; burst
  frames leave the memory as single writes do.
- *Coverage.*  The PHY scenario reports the end only after all 16 combinations were confirmed,
  each under its own register values.

## Where the code departs from its intent

- `SF_IO_NONBLOCK >> 3` is applied to the constant: a socket is non-blocking if and only if bit 0
  of the flag is set (`NonBlockFlag`).
- `connect` tests `IPV6_En`, which is never defined, so the first four bytes of an IPv6 address
  are checked as if they were an IPv4 one.
- PACK_FIRST stays set for every fragment of a packet (`FlagsTellProgress`), although the header
  file says that it marks the first data of the packet.
- `peeksockmsg` starts its pattern again behind a mismatching byte without looking at that byte.
  It finds the leftmost occurrence in every text if and only if all pattern bytes are the same
  (`CompleteIffConstant`), and in a given text whenever the first pattern byte does not recur
  within a pattern length.
- The RX loop of `wizchip_init` tests the TX entry, so it does not return when an RX entry is 0
  and its TX entry is not, and grants 1 KB where the TX entry is 0.  An entry of 0 gets 1 KB, so
  8, 0, 0, 0 is accepted and does not fit.  The `int8_t` sum can wrap: 200, 8, 8, 8 is accepted
  and does not fit, 1, 127, 1, 1 is accepted and does.
- A size of sixteen bits is read byte by byte, and the value 0 the loop starts from confirms a
  first reading of 0: a register that goes from 255 to 256 between the two bytes is read as 0
  (`ZeroCanBeWrong`).  A result is wrong exactly when the register goes from between 0 and 256 to
  a multiple of 256 within the first reading (`ReadRepeated`, `ReadConfirmed`).  A non-blocking
  call can then answer BUSY with 255 bytes pending or free; the contracts allow that only when the
  size passed 256 during the call.  The W5300 starts from 1, which is harmless for the buffer
  sizes it can be given (`NeverCrosses`).
- The keep-alive timeout can leave a command in `Sn_CR` (`KeepAliveCanStay`), and does exactly
  when the packet has not been asked for yet (`SendKeepAlive`).
- `sendto` returns TIMEOUT without waiting for a SENDOK that may follow, and the next call can
  take it for its own.  A call is sure to see its own if and only if it finds all earlier SENDs
  confirmed and no SENDOK up (`OwnSendOk`), which holds from `socket` on until a call times out
  (`SendTo`, `RecvFrom`).
- The echo server for the chips with IPv6 passes 1 as flag and so runs non-blocking; in CLOSE_WAIT
  it receives one chunk of at most 2048 bytes and then disconnects, which, if nothing new arrives,
  loses bytes exactly when more than 2048 were pending (`EchoLast`).
- `is_ipaddr` accepts texts with one dot and with four.
- Behind the comma of a field one character is dropped without being looked at, so a field that
  follows without a blank loses its first character (`CutDropsNext`, `WithoutBlank`).
- A line of settings that is refused has already changed the fields ahead of the faulty one
  (`RefusedLine`), for example the local address when the port behind it is over 65535; it changes
  nothing exactly when its first field is refused (`NothingTaken`).
- The reading pass of the register tests never reads the registers behind the last batch of more
  than 14 bytes.  Nothing is left out exactly when the short registers fall into such groups
  (`NothingLeft`); of the common registers of the W6300 three are (`CommonNeverRead`).  Of the
  read-only registers of a socket, which are short and have eleven bytes together, none is read
  (`SocketNeverRead`).
- The echo server for the chips with IPv6 compares the socket number with 0 when no loopback mode
  is set, and so takes a socket 0 that it has not opened for a success (`LoopbackTcps`).
- From 2^15 bytes on a W5200 frame declares fewer bytes than it carries (`LongBurstIsCut`).
- `CHECK_SOCKNUM` lets 8 through, where the eight sockets have no entry.  `socket`, `close`,
  `listen`, `connect`, `disconnect` and the keep-alive option answer SOCKNUM above 8 here as they
  do in C, and leave out only 8; `send`, `recv`, `sendto`, `recvfrom` and `peeksockmsg`, whose
  check is commented out or missing, require a number below 8.

## Model

| member | source | states |
|---|---|---|
| `Ring.RingWriteCells` | io6Library/Ethernet/W5100/w5100.c:302-331 | Storing at any pointer puts byte i into ring cell p + i and leaves every other cell as it was. |
| `Ring.ReadBack` | io6Library/Ethernet/W5100/w5100.c:302-374 | Reading a span back returns what was stored there, for every pointer. |
| `Ring.CellWrap` | io6Library/Ethernet/W6300/w6300.h:1349-1350 | A pointer that has lost its carry at 2^16 still selects the same ring cells. |
| `SocketRings.FsrValue` | io6Library/Ethernet/W6300/w6300.h:1306-1316 | The free size computed from the pointers is the buffer size less the bytes handed over and not acknowledged. |
| `SocketRings.TransmitKeepsInv` | io6Library/Ethernet/W6300/w6300.h:1323-1333 | Transmitting a byte keeps the wire a prefix of what was handed over. |
| `SocketRings.AcknowledgeKeepsInv` | io6Library/Ethernet/W6300/w6300.h:1313-1314 | An acknowledgement frees only bytes that have been transmitted. |
| `SocketRings.StoreKeepsInv` | io6Library/Ethernet/W6300/w6300.h:1309-1311 | Storing no more than the free size overwrites no byte that is not acknowledged. |
| `SocketRings.StoreStages` | io6Library/Ethernet/W6300/w6300.c:179-188 | What `wiz_send_data` stores at the write pointer is what the next SEND will take over. |
| `SocketRings.CommitKeepsInv` | io6Library/Ethernet/W6300/w6300.h:2613-2641 | SEND appends the stored bytes to the stream, each in the cell its position selects. |
| `SocketRings.StoredIsWaiting` | io6Library/Ethernet/socket.c:480-491 | Bytes stored at the write pointer wait there for SEND while the chip goes on. |
| `SocketRings.RetryLatched` | io6Library/Ethernet/socket.c:480-500 | A repetition that finds the latched pointer stores the same bytes in the same place, for every number of bytes that fits. |
| `SocketRings.RetryVisible` | io6Library/Ethernet/socket.c:480-500 | A repetition that finds the pointer written last hands the bytes over twice if both copies fit; otherwise more is staged than is free, the oldest unacknowledged byte is overwritten, and the ring stays sound if and only if every overwritten byte equals the new one. |
| `SocketRings.RetryAfterBusy` | io6Library/Ethernet/socket.c:480-500 | After BUSY behind the store, whatever the free size and whatever the chip has done meanwhile, a repeated `send` delivers its bytes exactly once if and only if it finds the pointer of the last SEND or there are none. |
| `SocketRings.RsrValue` | io6Library/Ethernet/W6300/w6300.h:1369-1377 | The received size computed from the pointers is the number of bytes that arrived and are not released. |
| `SocketRings.ReceiveKeepsInv` | io6Library/Ethernet/W6300/w6300.h:1399-1405 | Arriving data lands behind the pending bytes and overwrites none of them. |
| `SocketRings.PendingBytes` | io6Library/Ethernet/W6300/w6300.c:191-201 | Reading from the read pointer on yields the next bytes of the stream. |
| `SocketRings.ReleaseKeepsInv` | io6Library/Ethernet/W6300/w6300.h:2682-2692 | RECV frees exactly the bytes the host has read. |
| `Chip.StepKeepsInv` | io6Library/Ethernet/W6300/w6300.h:1305-1411 | No action of the chip, in any state, breaks the ring and framing invariant of a socket. |
| `Chip.RunGrew` | io6Library/Ethernet/W6300/w6300.h:1305-1411 | Whatever a run of chip actions does, free space and received bytes only grow, and a pending command is finished at most once. |
| `Chip.CommandStays` | io6Library/Ethernet/socket.c:306-308 | A command that may be written to `Sn_CR` may still be written after the chip has gone on. |
| `Chip.SettledDrift` | io6Library/Ethernet/socket.c:664-677 | The chip alone leaves it as it is that all SENDs, or all but the last one, have been confirmed and seen. |
| `Chip.SendOutcome` | io6Library/Ethernet/W6300/w6300.h:2613-2641 | When `Sn_CR` has cleared after SEND, exactly the stored bytes have been taken over. |
| `Chip.RecvOutcome` | io6Library/Ethernet/W6300/w6300.h:2682-2692 | When `Sn_CR` has cleared after RECV, exactly the bytes read have been released. |
| `Chip.OpenOutcome` | io6Library/Ethernet/W6300/w6300.h:1327-1329 | After OPEN both rings are empty and the account of SENDs starts at 0. |
| `Chip.FinishStatusIs` | io6Library/Ethernet/socket.c:341-453 | LISTEN, CONNECT, DISCON and SEND_KEEP change the status only, and never to a connected one. |
| `Session.LinkedDrift` | io6Library/Ethernet/socket.c:455-564 | Nothing the chip does on its own breaks the tie between a socket and the streams of its callers. |
| `Session.StoredInParts` | io6Library/Ethernet/W6300/w6300.c:179-188 | With the chip running before and between the copy and the write of the pointer, `wiz_send_data` comes to the same as one store. |
| `Session.ConfirmedLinked` | io6Library/Ethernet/socket.c:481-494 | Clearing SENDOK makes the account of SEND and SENDOK even. |
| `Session.CarriedLinked` | io6Library/Ethernet/socket.c:495-500 | SEND carried out extends what was accepted by the stored bytes and leaves one SEND unconfirmed. |
| `Session.ReleasedLinked` | io6Library/Ethernet/socket.c:559-562 | RECV carried out extends what was delivered by the bytes read. |
| `Session.CloseOutcome` | io6Library/Ethernet/socket.c:322-338 | CLOSE ends the account of SENDs and leaves both streams as they are. |
| `Session.HeaderBytes` | io6Library/Ethernet/socket.c:725-729 | The two bytes of packet information give back the length field and the information bits. |
| `Session.FrameParts` | io6Library/Ethernet/socket.c:725-813 | The address, the port and the payload stand behind the packet information in that order. |
| `Session.FrameBytes` | io6Library/Ethernet/socket.c:725-820 | Any part of the current frame that is asked for is pending and is that part of the frame. |
| `Session.ReadingOn` | io6Library/Ethernet/socket.c:818-829 | After a part of the payload the reader is aligned again, and the packet is done when nothing remains. |
| `Session.NotAligned` | io6Library/Ethernet/socket.c:740-741 | A header that is read only in part leaves the reader out of step with the packets. |
| `Session.CarriedDatagram` | io6Library/Ethernet/socket.c:646-662 | A datagram SEND emits one datagram with the stored bytes to the destination registers. |
| `Session.OwnSendOk` | io6Library/Ethernet/socket.c:664-677 | Behind the next SEND every SENDOK that can come up is that of this SEND if and only if all earlier SENDs had been confirmed and no SENDOK was up. |
| `PeekScan.ScanIsSound` | io6Library/Ethernet/socket.c:1043-1052 | A result of the search is a place where the pattern occurs. |
| `PeekScan.SpacedIsLeftmost` | io6Library/Ethernet/socket.c:1043-1052 | The result is the leftmost occurrence, and -1 means none, when the first pattern byte does not recur within a pattern length. |
| `PeekScan.VariedPatternIsMissed` | io6Library/Ethernet/socket.c:1043-1052 | A pattern with two different bytes is missed behind one extra copy of its first byte. |
| `PeekScan.CompleteIffConstant` | io6Library/Ethernet/socket.c:1043-1052 | The search finds the leftmost occurrence in every text if and only if all pattern bytes are the same. |
| `Bits.BitsAreIndependent` | io6Library/Ethernet/socket.c:310-312 | Setting or clearing the bit of one socket leaves the bits of the others alone. |
| `Bits.BitsOfMask` | io6Library/Ethernet/socket.c:310-312 | The bit operations on masks are the bitwise ones with `1 << sn`. |
| `Bits.MaskIsRemainder` | io6Library/Ethernet/W5100/w5100.c:311 | Masking a pointer with size - 1 is the remainder by a power-of-two size. |
| `Bits.FieldAfterWrite` | io6Library/Ethernet/W5100/w5100.h:1617-1652 | A two-bit size field reads back the lower two of the bits written to it, and every field the bits do not reach keeps its value. |
| `Bits.FieldBelow` | io6Library/Ethernet/W5100/w5100.h:1617-1652 | Cutting a register to eight bits leaves the fields inside them. |
| `SocketApi.NonBlockFlag` | io6Library/Ethernet/socket.c:311 | The flag SF_IO_NONBLOCK takes effect if and only if bit 0 of the flag agrees with it. |
| `SocketApi.RunKeepsGood` | io6Library/Ethernet/socket.c:306-316 | While the driver works on one socket the chip runs all of them and keeps each tied to its history. |
| `SocketApi.RunApart` | io6Library/Ethernet/socket.c:306-316 | While the driver works on one socket the chip finishes no command of another, so the buffers, pointers and modes of the others are those the chip itself has made. |
| `SocketApi.ApartMeans` | io6Library/Ethernet/socket.c:295-338 | A call on one socket leaves the mode, the transmit buffer, the pointers and the received bytes of every other connected or open socket as they were. |
| `SocketApi.EntryUpdates` | io6Library/Ethernet/socket.c:310-314 | Updates at one socket's bit and entries are no change for any other socket. |
| `SocketApi.OthersKept` | io6Library/Ethernet/socket.c:295-338 | Work on one socket leaves every other socket as it is between calls. |
| `SocketApi.NextPort` | io6Library/Ethernet/socket.c:300-304 | The wrap at 0xFFF0 makes the automatic port 0xC000 + (k mod 0x3FF0) after k choices. |
| `SocketApi.PortsDistinct` | io6Library/Ethernet/socket.c:300-304 | Any 16368 consecutive automatic ports are pairwise distinct and lie in [0xC000, 0xFFEF]. |
| `SocketApi.CommittedIsAccepted` | io6Library/Ethernet/socket.c:455-564 | Between calls the chip was handed exactly what was accepted, the wire is a prefix of it, what was delivered followed by what is pending is what arrived, and `Sn_CR` is 0. |
| `SocketApi.OneSendInFlight` | io6Library/Ethernet/socket.c:481-498 | SEND commands less SENDOKs used up are 1 when the `sock_is_sending` bit is set and 0 otherwise. |
| `SocketApi.ReaderIsAligned` | io6Library/Ethernet/socket.c:697-830 | Between calls the datagrams recorded as returned, which `RecvFrom` ties to its results, are the first packets that arrived; the read pointer is on a header if and only if `sock_remained_size` is 0. |
| `SocketApi.FlagsTellProgress` | io6Library/Ethernet/socket.c:805-827 | Over the fragments of a packet PACK_COMPLETED says that nothing remains and PACK_REMAINED that it came in pieces; PACK_FIRST stays set. |
| `SocketApi.StepsStayInBlock` | io6Library/Ethernet/W6300/w6300.c:99-101 | Stepping a buffer address wraps the offset at 2^16 and never changes the block bits. |
| `SocketApi.PeekedByte` | io6Library/Ethernet/socket.c:1041-1051 | Byte i of the peek loop is pending byte i, across the wrap of the pointer. |
| `SocketApi.StillToRead` | io6Library/Ethernet/W6300/w6300.c:191-201 | The bytes `wiz_recv_data` is about to copy stay in place while the chip goes on. |
| `SocketApi.Driver.constructor` | io6Library/Ethernet/socket.c:61-69 | The static variables as they start out, over a chip that has been reset with every socket closed, are a state between calls. |
| `SocketApi.Driver.Tick` | io6Library/Ethernet/socket.c:306-308 | Before a register access the chip may run all sockets; what held of them still holds, and no command of another socket is finished. |
| `SocketApi.Driver.ReadTxFsr` | io6Library/Ethernet/W6300/w6300.c:155-165 | A nonzero free size was the true one at an instant inside the call; any result is at most the free size on return and at least the one at the start, except for a 0 when the size passed 256 meanwhile; the loop ends. |
| `SocketApi.Driver.ReadRxRsr` | io6Library/Ethernet/W6300/w6300.c:167-177 | Likewise for the received size. |
| `SocketApi.Driver.Perform` | io6Library/Ethernet/socket.c:306-308 | The chip goes on, a command is written only when `Sn_CR` is 0, and the call waits until it is 0 again. |
| `SocketApi.Driver.EndClose` | io6Library/Ethernet/socket.c:328-337 | Clears the interrupts and resets all that the driver keeps about the socket; SENDOK stays down and the status stays CLOSED, although the chip goes on. |
| `SocketApi.Driver.Close` | io6Library/Ethernet/socket.c:322-338 | Resets the bits and sizes of the socket, ends its account of SENDs with SENDOK down, and leaves the other sockets and both streams alone. |
| `SocketApi.Driver.AwaitFree` | io6Library/Ethernet/socket.c:468-479 | `send` goes on only when its bytes are free on a connected socket; it answers BUSY on a non-blocking socket, and waits on a blocking one, only with no room at the start or when the free size passed 256 while it was read; it closes the socket if and only if the status read was CLOSED. |
| `SocketApi.Driver.AwaitSendOk` | io6Library/Ethernet/socket.c:481-492 | Passes only with SENDOK up; otherwise SENDOK was not up at the start, and the socket is given up only when its status was read as one that cannot send, and closed if and only if that was CLOSED or TIMEOUT was up. |
| `SocketApi.Driver.AwaitConfirmed` | io6Library/Ethernet/socket.c:481-492 | The same with the bytes of the call stored: they wait behind the write pointer all the time. |
| `SocketApi.Driver.ConfirmSent` | io6Library/Ethernet/socket.c:493 | Clearing SENDOK uses it up in the account and changes nothing else. |
| `SocketApi.Driver.GiveUp` | io6Library/Ethernet/socket.c:472-476 | On a status that is not connected the call closes the socket if it is told to, changes nothing otherwise, and reports SOCKSTATUS; nothing is handed over. |
| `SocketApi.Driver.SendStored` | io6Library/Ethernet/socket.c:480-500 | With its bytes stored, the call hands over all of them or none; BUSY only while the SEND before is unconfirmed on a connected socket, SOCKSTATUS only after a status that cannot send was read. |
| `SocketApi.Driver.SendData` | io6Library/Ethernet/socket.c:480-500 | From the store on, the call hands over all bytes or none; a BUSY that breaks the state between calls leaves exactly these bytes waiting behind the pointer. |
| `SocketApi.Driver.WizSendData` | io6Library/Ethernet/W6300/w6300.c:179-188 | The pointer is read, the bytes are copied and the pointer is moved, and the chip goes on between these accesses; it all comes to one store of the bytes at the write pointer. |
| `SocketApi.Driver.IssueSend` | io6Library/Ethernet/socket.c:493-500 | SEND hands over exactly the stored bytes behind what was accepted before. |
| `SocketApi.Driver.MarkSent` | io6Library/Ethernet/socket.c:496-500 | Behind a finished SEND exactly the staged bytes are entered as accepted and the bit in `sock_is_sending` is set. |
| `SocketApi.Driver.Send` | io6Library/Ethernet/socket.c:455-501 | A result n >= 0 hands over exactly the first n bytes and forgets nothing that arrived; errors and BUSY hand over nothing; SOCKSTATUS only after a status that cannot send was read, and the socket is closed only if that was CLOSED or TIMEOUT was up; BUSY, or waiting, only with no room at the start, a size that passed 256 or the SEND before unconfirmed; the state between calls is kept except for BUSY on a chip whose write pointer is not latched, and then exactly the bytes of the call wait. |
| `SocketApi.Driver.WizRecvData` | io6Library/Ethernet/W6300/w6300.c:191-201 | The pointer is read, the bytes are copied and the pointer is moved, and the chip goes on between these accesses; the bytes are the next n of the stream. |
| `SocketApi.Driver.Take` | io6Library/Ethernet/socket.c:559-561 | The bytes read are the next n of the stream, and RECV releases exactly those. |
| `SocketApi.Driver.AwaitData` | io6Library/Ethernet/socket.c:546-557 | `recv` goes on only with bytes pending on a connected socket, and knows of at least those pending at the start; BUSY and waiting as for `send`; it closes the socket if and only if the status read was CLOSED. |
| `SocketApi.Driver.Deliver` | io6Library/Ethernet/socket.c:559-562 | The bytes taken extend what was delivered. |
| `SocketApi.Driver.Recv` | io6Library/Ethernet/socket.c:532-563 | Returns the next bytes that arrived, in order and without gaps: all that is asked for or at least all that was pending; nothing that arrived is forgotten; BUSY, or waiting, only with nothing pending at the start or when the received size passed 256 during the call; SOCKSTATUS only after a status that cannot receive was read, with the socket closed if and only if that was CLOSED. |
| `SocketApi.IsZeroAddress` | io6Library/Ethernet/socket.c:129-134 | The 16-bit sum of an address is 0 if and only if all its bytes are. |
| `SocketApi.Driver.CheckArguments` | io6Library/Ethernet/socket.c:203-294 | The arguments are accepted if and only if the protocol is known, its addresses are set and the flag is allowed; otherwise the error says which. |
| `SocketApi.Driver.ChoosePort` | io6Library/Ethernet/socket.c:300-304 | The port asked for, or the next automatic one. |
| `SocketApi.Driver.AwaitOpen` | io6Library/Ethernet/socket.c:316 | The socket opened is empty and without history. |
| `SocketApi.Driver.ResetSocket` | io6Library/Ethernet/socket.c:310-314 | All that the driver keeps about the socket is reset, so nothing of an old packet reaches it. |
| `SocketApi.Driver.Prepare` | io6Library/Ethernet/socket.c:296-305 | The mode and the port are written to a closed socket, which stays closed meanwhile. |
| `SocketApi.Driver.Reopen` | io6Library/Ethernet/socket.c:296-318 | Opens the closed socket in the mode and with the port asked for. |
| `SocketApi.Driver.Socket` | io6Library/Ethernet/socket.c:197-319 | Returns the socket number if and only if the arguments are acceptable, with an empty socket, empty histories and no SEND unconfirmed; a refusal changes nothing. |
| `SocketApi.Driver.Listen` | io6Library/Ethernet/socket.c:341-353 | OK means that the socket listens; SOCKINIT if and only if it was not in INIT; SOCKCLOSED that after LISTEN another status was read and the socket has been closed; neither stream changes. |
| `SocketApi.Driver.Disconnect` | io6Library/Ethernet/socket.c:431-452 | A closed socket is left alone; otherwise DISCON is carried out, and a non-blocking call answers BUSY, a blocking one OK once the socket is closed or TIMEOUT after that bit was read and the socket closed; neither stream changes and nothing that arrived is forgotten. |
| `SocketApi.Driver.AwaitEstablished` | io6Library/Ethernet/socket.c:416-428 | OK means that the connection stands, TIMEOUT that the bit was read and cleared, SOCKCLOSED that the socket is closed; none of these holds while it waits. |
| `SocketApi.Driver.KeepAlive` | io6Library/Ethernet/socket.c:915-923 | The command is waited for until it is done or TIMEOUT has been read; it is left in `Sn_CR` exactly when it has not been carried out yet. |
| `SocketApi.Driver.ConnectTo` | io6Library/Ethernet/socket.c:369-429 | Each refusal is given exactly when its test fails, in the order of the code (`ConnectError`), SOCKINIT only outside INIT, and the first three before a register is written; otherwise a non-blocking call answers BUSY and a blocking one OK, TIMEOUT or SOCKCLOSED with their meanings; OK means a connection that was asked for with the given address and port. |
| `SocketApi.Driver.SendKeepAlive` | io6Library/Ethernet/socket.c:910-924 | OK means that one keep-alive packet was asked for; only the TIMEOUT return may leave a command in `Sn_CR`, and it does if and only if none was asked for yet. |
| `SocketApi.Driver.TakeFrame` | io6Library/Ethernet/socket.c:725-727 | Returns the next n bytes of the frame being read and moves on inside it. |
| `SocketApi.Driver.AwaitPacket` | io6Library/Ethernet/socket.c:712-722 | `recvfrom` goes on only with a packet pending on an open socket, and reports BUSY only with none pending at the start or when the received size passed 256 while it was read. |
| `SocketApi.Driver.ReadInfo` | io6Library/Ethernet/socket.c:725-729 | Reads the length and information of the next packet. |
| `SocketApi.Driver.ReadIp` | io6Library/Ethernet/socket.c:740-756 | Reads the packet's address, four or sixteen bytes; without a pointer for it the reader is out of step. |
| `SocketApi.Driver.ReadAddress` | io6Library/Ethernet/socket.c:723-802 | Reads the packet's length, information and address; a MACRAW length over 1514 closes the socket. |
| `SocketApi.Driver.ReadPort` | io6Library/Ethernet/socket.c:806-814 | Reads the packet's port where the protocol has one; without a pointer for it the reader is out of step. |
| `SocketApi.Driver.ReadHeader` | io6Library/Ethernet/socket.c:723-815 | Reads exactly the header of the next packet, whole or with a reason why not; with a needed pointer missing the read pointer is left inside the header, with no command pending and nothing else changed. |
| `SocketApi.Driver.ReadPayload` | io6Library/Ethernet/socket.c:818-829 | Returns the next part of the payload, as long as the buffer allows, updates remainder and flags, and records exactly what was returned. |
| `SocketApi.Driver.BeginPacket` | io6Library/Ethernet/socket.c:710-816 | Starts the next packet, or returns BUSY, SOCKCLOSED on a closed socket, ARG, or PACKLEN for a frame that is too long, with nothing returned; packets that arrived are kept, and after ARG no command is pending. |
| `SocketApi.Driver.RecvFrom` | io6Library/Ethernet/socket.c:697-830 | Every fragment continues the payload of the next packet, carries its address and port, and is recorded as returned; a finished call on an open socket with a packet pending and the needed pointers given returns one, unless the received size passed 256; SOCKCLOSED only on a closed socket, PACKLEN only for a MACRAW frame over 1514 bytes; alignment is lost exactly when a needed pointer is missing, with `Sn_CR` clear all the same; the account of SENDOKs is left alone. |
| `SocketApi.Driver.AwaitRoom` | io6Library/Ethernet/socket.c:639-645 | `sendto` goes on only with its bytes free on an open socket, and is refused, busy or waiting as `send` is. |
| `SocketApi.Driver.IssueDatagram` | io6Library/Ethernet/socket.c:646-662 | Hands over exactly one datagram. |
| `SocketApi.Driver.AwaitSent` | io6Library/Ethernet/socket.c:664-677 | Ends with OK when SENDOK was seen, else with TIMEOUT when that was, and that bit is cleared; with one SEND out, OK means that it has been confirmed. |
| `SocketApi.Driver.SetEnds` | io6Library/Ethernet/socket.c:598-616 | Writes exactly the destination registers that are given. |
| `SocketApi.Driver.SetDestination` | io6Library/Ethernet/socket.c:590-617 | Refuses address lengths, modes and ports that do not go together and otherwise writes the destination. |
| `SocketApi.Driver.SendTo` | io6Library/Ethernet/socket.c:578-682 | A call that sends hands over exactly one datagram with the first n bytes to the given destination; any other call hands over nothing, and answers SOCKCLOSED only on a closed socket; no call disturbs the mode, the packets or a packet being read; if all earlier SENDs had been confirmed, the SENDOK a successful call sees is its own, and all are confirmed again. |
| `SocketApi.Driver.PendingSize` | io6Library/Ethernet/socket.c:987-989 | The size read is at most what is pending, exact if nothing arrives meanwhile, and at least what was pending at the start, except for a 0 when it passed 256. |
| `SocketApi.Driver.PeekPointer` | io6Library/Ethernet/socket.c:1041 | The read pointer stays where the pending bytes begin while the chip goes on. |
| `SocketApi.Driver.Peek` | io6Library/Ethernet/socket.c:1034-1055 | A result is an occurrence in the pending bytes, and the leftmost one when the first pattern byte does not recur within a pattern length or all pattern bytes are the same; they stay pending; -1 comes after a search of all that was pending at the start, or of all that is pending if nothing arrives, except when the size passed 256 while it was read. |
| `Receiver.FetchOnce` | io6Library/Ethernet/socket.c:697-830 | One `recvfrom` extends what has come of the current packet by its next part, or starts the next packet, and completes it exactly when nothing remains; it brings no part only on a closed socket, or on a non-blocking one with nothing pending or a size that passed 256. |
| `Receiver.ReplyOnce` | io6Library/Ethernet/socket.c:578-682 | One `sendto` leaves the packet that is being read as it is. |
| `Receiver.Collect` | io6Library/Ethernet/socket.c:697-830 | Over any number of `recvfrom` calls with any lengths, with `sendto` calls between them, the completed receptions are the packets that come next, one for one, each with its address, its port and its whole payload, and what has come of the packet after them is all but what remains; while the socket is open each `recvfrom` brings exactly one part, but for those of a non-blocking socket that find nothing. |
| `Echo.SendBack` | io6Library/Application/loopback/loopback.c:356-369 | The inner loop sends back exactly what was received, never more, or closes the socket on an error. |
| `Echo.RecvAll` | io6Library/Application/loopback/loopback.c:321-325 | A `recv` of no more than is pending returns exactly as many bytes as it is asked for. |
| `Echo.EchoChunk` | io6Library/Application/loopback/loopback.c:321-396 | After one chunk what was sent back equals what was received, or is a prefix of it on a closed socket; if nothing new arrives, the chunk is all that was pending, up to 2048 bytes, and no less otherwise unless the received size passed 256 while it was read. |
| `Echo.EchoLast` | io6Library/Application/loopback/loopback.c:398-484 | In CLOSE_WAIT one chunk is sent back and the connection is ended, after which nothing can be received; if nothing new arrives, all that arrived has been sent back if and only if at most 2048 bytes were pending. |
| `Echo.EchoEstablished` | io6Library/Application/loopback/loopback.c:282-396 | CON is cleared and one chunk is echoed; an error means that a status that is not connected was read. |
| `Echo.LoopbackTcps` | io6Library/Application/loopback/loopback.c:257-531 | After every poll that does not report an error what the chip was handed equals what was received since the connection, for a latched write pointer or a blocking socket, except for a closed socket 0 while no loopback mode is set; a connected socket echoes all that is pending, up to 2048 bytes, unless the size passed 256, and exactly that if nothing new arrives; CLOSE_WAIT likewise, and ends the connection; behind INIT the socket listens; a closed one is opened in its mode, non-blocking, if and only if the addresses are set. |
| `Echo.LoopbackTcpsBlocking` | io6Library/Application/loopback/loopback.c:28-101 | The same for the other chips, for blocking sockets whether or not the write pointer is latched; in CLOSE_WAIT the connection is ended and nothing more is received. |
| `Echo.Serve` | io6Library/Application/loopback/loopback.c:257-531 | Over any number of polls of the non-blocking server, with a latched write pointer, what was handed over is a prefix of what was received, and the whole of it unless the socket is closed; n polls of a connected socket have echoed at least n buffers of what was pending at the start or all of it but fewer than 256 bytes, and exactly n buffers or all of it if nothing new arrives. |
| `Echo.ServeBlocking` | io6Library/Application/loopback/loopback.c:28-101 | The same over any number of polls of the blocking server, without any assumption about the write pointer. |
| `DoubleRead.EqualReadings` | io6Library/Ethernet/W6300/w6300.c:155-177 | Two equal readings of a growing register are the value it had when the first was complete. |
| `DoubleRead.FirstReading` | io6Library/Ethernet/W6300/w6300.c:155-177 | A first reading equal to the value the code starts from is wrong exactly when the register goes from below the base to or past it at that remainder. |
| `DoubleRead.ReadConfirmed` | io6Library/Ethernet/W5100/w5100.c:228-259 | The result is a value the register had if and only if it does not go from between 0 and 256 to a multiple of 256 within the first reading, which gives 0; it is never more than the value on return, and needs at most 4 * (growth + 1) accesses. |
| `DoubleRead.ReadRepeated` | io6Library/Ethernet/W6300/w6300.c:155-177 | The repeated reading likewise, for any start value below the base: the result was held if and only if the first reading does not go from another value below the base to or past it at that remainder. |
| `DoubleRead.ZeroCanBeWrong` | io6Library/Ethernet/W6300/w6300.c:155-165 | A register that grows from 255 to 256 is read as 0. |
| `DoubleRead.NeverCrosses` | io6Library/Ethernet/W5300/w5300.c:161-173 | A register of at most 65536 never meets the start value 1 of the W5300 wrongly. |
| `DoubleRead.FirstReadingCanBeWrong` | io6Library/Ethernet/W5300/w5300.c:161-173 | A register that grows from 65535 to 65537, which takes a buffer larger than the W5300 is given, would be read as 1. |
| `SharedMemory.RegionsAreDisjoint` | io6Library/Ethernet/W5100/w5100.c:264-289 | The regions of two sockets never overlap, and all lie in the memory if and only if the sizes add up to no more than it has. |
| `SharedMemory.MemoriesApart` | io6Library/Ethernet/W5100/w5100.h:57-58 | The memories lie from 0x4000 and from 0x6000 on and end at 0x8000; the eight regions of both are pairwise disjoint if and only if the transmit sizes fit. |
| `SharedMemory.AcceptedIsSum` | io6Library/Ethernet/wizchip_conf.c:698-709 | The sizes that add up to at most 8 are exactly those that are accepted without wrap of the `int8_t` sum. |
| `SharedMemory.AllocationIsSafe` | io6Library/Ethernet/wizchip_conf.c:677-759 | Whatever sizes were asked for, the regions are disjoint, and they are inside the memory if and only if the granted sizes add up to at most 8 KB, as they do for sizes that add up to at most 8 with no 0 among them. |
| `SharedMemory.ExponentInField` | io6Library/Ethernet/W5100/w5100.h:1617-1652 | The two-bit field keeps the exponent modulo 4, so 16 KB and more count as that power of two divided by 16. |
| `SharedMemory.ZeroEntriesOverflow` | io6Library/Ethernet/wizchip_conf.c:711-720 | Sizes 8, 0, 0, 0 are accepted, grant 11 KB and put three regions outside the memory. |
| `SharedMemory.WrappedSumIsAccepted` | io6Library/Ethernet/wizchip_conf.c:698-709 | Sizes 200, 8, 8, 8, which add up to 224, are accepted because the sum wraps, and grant 32 KB. |
| `SharedMemory.WrappedSumCanFit` | io6Library/Ethernet/wizchip_conf.c:698-720 | Sizes 1, 127, 1, 1, which add up to 130, are accepted because the sum wraps, and grant 7 KB. |
| `SharedMemory.SplitWrite` | io6Library/Ethernet/W5100/w5100.c:314-326 | The two straight copies are one ring write. |
| `SharedMemory.SplitRead` | io6Library/Ethernet/W5100/w5100.c:357-369 | The two straight reads are one ring read. |
| `SharedMemory.RegionWritten` | io6Library/Ethernet/W5100/w5100.c:302-331 | After the copies the region holds the ring write and nothing outside it has changed. |
| `SharedMemory.ReceiveUntouched` | io6Library/Ethernet/W5100/w5100.c:302-331 | A change inside a transmit region that fits leaves all receive regions alone. |
| `W5100.FramesStorePatch` | io6Library/Ethernet/W5100/w5100.c:121-140 | The frames sent for a buffer make the chip store exactly that buffer. |
| `W5100.HoldsOneMore` | io6Library/Ethernet/W5100/w5100.h:1617-1652 | Writing the exponent of one socket leaves the sizes of the sockets before it, and undoes what the exponent before it spilled. |
| `W5100.Chip.Exponent` | io6Library/Ethernet/wizchip_conf.c:714-715 | The loop finds the exponent of the largest power of two up to the size; for a size of 0 whose other entry is not 0 no shift count ends it. |
| `W5100.Chip.WizchipInit` | io6Library/Ethernet/wizchip_conf.c:677-759 | Refuses, hangs or writes the granted sizes of both memories, an RX entry whose TX entry is 0 counting as 0; each memory is divided into disjoint regions inside it if and only if its granted sizes add up to at most 8 KB, and all eight regions are disjoint if and only if the transmit ones do. |
| `W5100.Chip.TxBase` | io6Library/Ethernet/W5100/w5100.c:278-289 | The base is 0x4000 and the sizes of the sockets before. |
| `W5100.Chip.RxBase` | io6Library/Ethernet/W5100/w5100.c:264-276 | The base is 0x6000 and the receive sizes of the sockets before. |
| `W5100.Chip.Execute` | io6Library/Ethernet/W5100/w5100.c:121-140 | The chip does with the frames it is sent what they say, one after the other. |
| `W5100.Chip.WriteBuf` | io6Library/Ethernet/W5100/w5100.c:121-140 | The frames go out over the bus, and the chip then holds the buffer at consecutive addresses and everything else as before. |
| `W5100.Chip.CopyIn` | io6Library/Ethernet/W5100/w5100.c:312-326 | The copy goes straight on to the end of the region and then from its start. |
| `W5100.Chip.WizSendData` | io6Library/Ethernet/W5100/w5100.c:302-331 | The socket's region becomes a ring write at the pointer, no other region changes, the receive regions included if the region fits, and the pointer moves on in sixteen bits. |
| `W5100.Chip.WizRecvData` | io6Library/Ethernet/W5100/w5100.c:344-374 | Returns the ring read of the socket's region at the pointer. |
| `SpiFrames.BurstIsSingles` | io6Library/Ethernet/W5200/w5200.c:118-130 | A burst frame leaves the memory as one write per byte does, on the W5200 for fewer than 2^15 bytes. |
| `SpiFrames.LongBurstIsCut` | io6Library/Ethernet/W5200/w5200.c:127-128 | From 2^15 bytes on a W5200 frame stores 2^15 bytes fewer than it carries. |
| `SpiFrames.StoredCells` | io6Library/Ethernet/W5100S/w5100s.c:168-217 | Byte i stands i cells behind the address and every other cell keeps its value. |
| `SpiFrames.Spi.WizchipWrite` | io6Library/Ethernet/W5100S/w5100s.c:47-85 | One frame for one byte, the same with and without the burst callback. |
| `SpiFrames.Spi.WriteBufW5100` | io6Library/Ethernet/W5100/w5100.c:121-140 | The frames are those of single writes at consecutive addresses. |
| `SpiFrames.Spi.WriteBufW5100S` | io6Library/Ethernet/W5100S/w5100s.c:168-217 | The bytes on the bus are the same with and without the burst callback. |
| `SpiFrames.Spi.WriteBufW5200` | io6Library/Ethernet/W5200/w5200.c:118-130 | One frame with the length in fifteen bits ahead of the data. |
| `W5300.UnpackPack` | io6Library/Ethernet/W5300/w5300.c:190-216 | Unpacking the words sent gives back the bytes for every length; an odd length leaves the pad byte. |
| `W5300.Chip.SetTmsr` | io6Library/Ethernet/W5300/w5300.c:129-143 | The size reads back as written and every other socket keeps its size. |
| `W5300.Chip.SetRmsr` | io6Library/Ethernet/W5300/w5300.c:145-159 | Likewise for the receive sizes. |
| `W5300.GetRxRsr` | io6Library/Ethernet/W5300/w5300.c:175-187 | For every buffer size that is allowed the received size is a true value, and one more when a byte of the last word has been kept back; for any register it is the last reading, which equals the one before it or, for the first, 1. |
| `W5300.Chip.WizSendData` | io6Library/Ethernet/W5300/w5300.c:190-197 | The FIFO gets the bytes two to a word. |
| `W5300.Chip.WizRecvData` | io6Library/Ethernet/W5300/w5300.c:199-216 | Returns the bytes of the next words and keeps the second byte of the last one. |
| `Decimal.ValueOfDigits` | TestProgram/config_data.c:631-653 | A printed number stands for itself. |
| `Decimal.AtoiOfDigits` | TestProgram/config_data.c:244-250 | `atoi` reads back what `%d` printed. |
| `Decimal.AtoiOfText` | TestProgram/config_data.c:248 | White space and one sign are stepped over, and the number ends at the first character that is not a digit. |
| `Config.IsIpaddr` | TestProgram/util.c:67-113 | Accepts a text if and only if it has 7 to 15 characters, at most four dots and runs of up to three digits worth at most 255, and returns their values. |
| `Config.DottedIsIp` | TestProgram/util.c:67-113 | A printed address is accepted and reads back as itself. |
| `Config.AcceptsOneDot` | TestProgram/util.c:67-113 | A text with a single dot is accepted, and the last two bytes stay 0. |
| `Config.AcceptsFourDots` | TestProgram/util.c:67-113 | A text with four dots is accepted. |
| `Config.CutPrinted` | TestProgram/config_data.c:244-247 | Cutting at a comma and stepping over a space leads from one printed field to the next. |
| `Config.PrintedLineReads` | TestProgram/config_data.c:217-374 | Every printed line is accepted and read back as the settings it shows. |
| `Config.RefusedLine` | TestProgram/config_data.c:217-374 | A line is accepted if and only if all seven fields are; of a refused one the fields ahead of the faulty one are in the settings as they were read, and the others are as they were. |
| `Config.NothingTaken` | TestProgram/config_data.c:231-236 | A line leaves all settings alone, whatever they are, if and only if its first field is refused. |
| `Config.WrongPortKeepsAddress` | TestProgram/config_data.c:231-257 | A line with a proper address and a port over 65535 is refused, and the address is in the settings. |
| `Config.CutIs` | TestProgram/config_data.c:231-247 | What is cut from any text: the token behind leading commas, and the text two characters and its length behind the start. |
| `Config.CutDropsNext` | TestProgram/config_data.c:246-247 | The character behind a comma is dropped, whatever it is. |
| `Config.WithoutBlank` | TestProgram/config_data.c:231-248 | In a line without blanks the address is read and the port behind it loses its first digit. |
| `Config.Device.GetNetworkConfig` | TestProgram/config_data.c:625-654 | Prints the chip's addresses with the ports and the remote address of the configuration. |
| `Config.Device.SetNetworkConfig` | TestProgram/config_data.c:217-374 | The result and the settings are those of the line read field by field; every printed line is read back and then holds in the chip, too; a refused line leaves the chip alone. |
| `Mac.IsMacaddr` | TestProgram/util.c:37-65 | Accepts exactly six pairs of hexadecimal digits with the separators of `set_mac` and returns their values. |
| `Mac.HexDigits` | TestProgram/util.c:132-164 | A digit is accepted in either case and has the same value in both; the separators are the end of the text, a dash, a dot and a colon. |
| `Mac.PrintedMacReads` | TestProgram/config_data.c:599-609 | A printed hardware address is accepted and reads back as itself. |
| `Mac.Device.SetMac` | TestProgram/config_data.c:153-174 | Any printed address is put into the chip; a refused text changes nothing. |
| `PhyScenario.Scenario.Call` | W6300_QSPI_Test/Core/Src/testCode.c:346-510 | Whatever answers, resets and links there were, the end is reported only when all 16 combinations were confirmed since sequence 0, each with the link up and the PHY set accordingly; sequences 0 and 1 start the first combination and set Auto-MDIX. |
| `PhyScenario.Scenario.SetMode` | W6300_QSPI_Test/Core/Src/testCode.c:389-417 | The mode is written; a reset that completes leads on with the direct cable and the answer taken back, one that does not leaves sequence 2. |
| `PhyScenario.Scenario.CheckLink` | W6300_QSPI_Test/Core/Src/testCode.c:418-455 | A link that comes up leads on; one that does not leads back to sequence 2; a no ends the test; without an answer nothing changes. |
| `PhyScenario.Scenario.Loopback` | W6300_QSPI_Test/Core/Src/testCode.c:456-505 | A confirmation counts for the settings the link was checked with and goes on to the next combination; a no ends the test; without an answer nothing changes. |
| `PhyScenario.Scenario.AllYes` | W6300_QSPI_Test/Core/Src/testCode.c:346-510 | With every answer yes, every reset complete and every link up the test finishes after exactly 43 calls. |
| `PhyScenario.CompleteIsSixteen` | W6300_QSPI_Test/Core/Src/testCode.c:364 | A complete test holds sixteen different trials: both Auto-MDIX settings and both cables with the control register values 0x3100, 0x2100, 0x2000 and 0x0100. |
| `PhyScenario.CoveredOneMore` | W6300_QSPI_Test/Core/Src/testCode.c:462-492 | Confirming the current combination covers one more in their order. |
| `Batcher.EachOnce` | TestProgram/W6300_TestProcess.c:845-888 | Batched and long registers are exactly those of the pass, each once and in table order. |
| `Batcher.Pass` | TestProgram/W6300_TestProcess.c:813-888 | Batches hold fewer than 16 indices; with the long registers they cover the writing pass exactly; the reading pass leaves out exactly what remains behind the last batch of more than 14 bytes. |
| `Batcher.NothingLeft` | TestProgram/W6300_TestProcess.c:813-845 | Nothing is left out if and only if the short registers fall into groups each of which its last register brings to more than 14 bytes. |
| `Batcher.CommonNeverRead` | TestProgram/W6300_TestProcess.c:21-23 | Of the common registers of the W6300 the reading pass never reads numbers 49, 51 and 52. |
| `Batcher.SocketNeverRead` | TestProgram/W6300_TestProcess.c:27-29 | Of the registers of a socket the reading pass picks seven short ones of eleven bytes in all and reads none of them. |
| `Batcher.TableWritten` | TestProgram/W6300_TestProcess.c:21-29 | The short and long registers the writing pass goes through, for the common registers and those of a socket. |
| `PhyScenario.Scenario.Advance` | W6300_QSPI_Test/Core/Src/testCode.c:462-493 | The index of the combination goes up by one, with the sequence that sets what has to be set anew; the end comes only behind the last and resets everything. |
| `SocketApi.Driver.StartPacket` | io6Library/Ethernet/socket.c:723-805 | The packet information read starts a packet with its whole payload remaining and PACK_FIRST set. |
| `SocketApi.Driver.FsrOnce` | io6Library/Ethernet/W6300/w6300.c:161-162 | One reading takes its upper byte at one instant and its lower byte at a later one. |
| `SocketApi.Driver.PeekLoop` | io6Library/Ethernet/socket.c:1041-1053 | The loop computes the search of the bytes it has looked at, however the pending bytes grow meanwhile. |
| `Session.SendsBalance` | io6Library/Ethernet/socket.c:481-498 | SENDOK is up exactly when the SEND under way has been confirmed. |
| `SharedMemory.OthersUntouched` | io6Library/Ethernet/W5100/w5100.c:302-331 | A change inside one region leaves the regions of the other sockets alone. |
| `W5100.Chip.Masked` | io6Library/Ethernet/W5100/w5100.c:311 | The masked pointer is the offset in the region. |
| `W5100.Chip.ReadBuf` | io6Library/Ethernet/W5100/w5100.c:175-218 | Reads consecutive addresses. |
| `Echo.SendRest` | io6Library/Application/loopback/loopback.c:362-368 | One `send` of the rest extends what was sent back and never overshoots. |
| `Echo.OpenServer` | io6Library/Application/loopback/loopback.c:497-522 | A server socket is opened if and only if the addresses it needs are set, with the mode and port asked for and empty streams. |
| `Session.StatusEffect` | io6Library/Ethernet/socket.c:341-453 | CONNECT goes to the destination registers and leaves INIT, DISCON ends the connection, SEND_KEEP asks for one packet. |
| `Session.KeepAliveCanStay` | io6Library/Ethernet/socket.c:915-923 | From every idle state the TIMEOUT bit can rise with SEND_KEEP still in `Sn_CR`. |
| `SocketApi.Driver.SetTarget` | io6Library/Ethernet/socket.c:392-411 | Writes the destination of the connection and picks the command that looks at it, or refuses the mode. |
| `SocketApi.Driver.StartConnect` | io6Library/Ethernet/socket.c:389-412 | The destination is written and the command is given that looks at it; when it is done the socket has left INIT towards that destination or is closed. |
| `SocketApi.ModeIsByte` | io6Library/Ethernet/socket.c:296 | Joining the upper flag bits to the protocol leaves its low four bits alone. |
| `SocketApi.ModeBits` | io6Library/Ethernet/socket.c:296 | The mode register has the bits of the protocol, joined by bits 4 to 7 of the flag and no others. |
| `SocketApi.ModeMasks` | io6Library/Ethernet/socket.c:108-127 | The two low bits of the mode register tell streams and ports, its four low bits the protocol. |

## Left out

- The single bytes of a transfer: the block of one `WIZCHIP_WRITE_BUF` or `WIZCHIP_READ_BUF` moves
  in one step, and so do the two bytes of a pointer, a port or an address register.  The registers
  the chip changes, the free and the received size, are read byte by byte.
- Chip details the model fixes: CLOSE takes effect as one step, a connection is established only
  from LISTEN, SYNSENT or SYNRECV, a datagram socket closes only by command, and a datagram
  arrives as a whole.
- A SEND that is still in `Sn_CR` when the connection ends takes its bytes over all the same, and
  a datagram whose destination does not answer ARP counts as sent; what the chip drops then is not
  part of the model.
- The `datasize_t` of register readings is taken as unsigned; buffer sizes up to 16 KB fit.
- Liveness of the chip (a free buffer, a confirmed SEND, an open socket): the loops terminate with
  the script, and `Running` stands for what has not happened yet.
- `SocketApi.Driver.Socket`, `ConnectTo`, `SendTo`, `RecvFrom`: only the branches compiled for the
  chips with IPv6; the multicast and ARP flags written to the second mode register have no effect
  in the model.
- `SocketApi.Driver.RecvFrom`: requires a datagram socket.  On a stream socket, which the check
  that is commented out would refuse, the code reads two bytes off the stream, issues RECV and
  answers SOCKMODE.
- `Echo.LoopbackTcps`, `Echo.Serve`: state nothing for a non-blocking socket on a chip whose write
  pointer is not latched; what a repeated `send` does there is `SocketRings.RetryVisible`.
- `Echo.LoopbackTcpsBlocking`: opens its socket through the model of `socket` for the IPv6 chips.
- `W5100.Chip.WizchipInit`: asks for the TX sizes whenever the RX sizes are given, because the
  code reads them then; the software reset ahead of it is not part of the model.
- `Config.IsIpaddr`: returns the fifth value of a text with four dots, which the code writes
  behind the four bytes of its caller; the callers modelled here use the first four.
- `Config.Device.SetNetworkConfig`: `atoi` is modelled for numbers an `int` can hold, over exactly
  the characters of the token.
- `Mac.IsMacaddr`: requires a text without a NUL, as a C string is.
- `ctlsocket`, the remaining socket options, and the thin register accessors.
- `W5200` and `W5100S` ring copies: the same split copy as on the W5100, with other base
  addresses.
- `loopback_tcpc`, `loopback_udps` and the `iperf` functions; the first PHY scenario.
- HAL, OCTOSPI, clock, GPIO and UART code, help texts, logos and debug printing.
- `wizchip_getnetmode`, PHY configuration getters and setters, ARP, PING and SLAAC wrappers.
