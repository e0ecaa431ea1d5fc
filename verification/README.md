# A verified model of SedNL

SedNL is an event-driven network library: programs exchange named events that carry a typed
packet, a listener thread reads them from its connections, and consumer threads run callbacks
for them. This project models the two parts of it that everything rests on, and proves what the
library's documentation promises of them, or exactly when the code keeps the promise.

**The byte path.** `Wire.dfy` says what a list of typed values looks like as bytes; decoding is
proved to be its exact inverse. `SocketHelp.dfy` writes and reads integers on hosts of either byte
order. `Packets.dfy` holds the writers and the validator of a packet, `Readers.dfy` the typed
reader, `Printing.dfy` the printer: three walkers that are all proved against the one format.
`Layout.dfy` fixes the bytes themselves, in plain numbers, `ReadingLayout.dfy` what each variable
makes of them, `WriteErrors.dfy` what is refused and what is left behind then, and
`PrintedForm.dfy` what can be read from a printed packet.
`Framing.dfy` puts an event behind its length and cuts it out again, `RingBuffer.dfy` is the
circular buffer of a connection, `Placement.dfy` says which of its cells are read where they were
written, `Reassembly.dfy` is the loop that reads a connection, `AsWritten.dfy` says for which
streams of frames that loop, as it stands in the code, reads what was sent, `Refusals.dfy` when the
buffer refuses a chunk, and `Sending.dfy` is the loop that writes a connection, from many threads.

**The threads.** `Delivery.dfy` is a machine of one listener, any number of consumers and the
queues between them, which takes one atomic step of one thread at a time; its theorems hold in
every state of every run, and `DeliveryLimits.dfy` gives their exact conditions. `Progress.dfy`
shows that no run is stuck: joins come to their end, and what is kept can be delivered.
`Accounts.dfy` counts notifications, wakeups and disconnections, `PassOrder.dfy` says in which order
a consumer goes through its queues, and `Records.dfy` what the records in a state mean for the run
that led to it. `Routing.dfy` builds
the links that decide who is woken up for what, and `Wiring.dfy` shows that they are what the machine
assumes. `Ownership.dfy` is the machine of accepted connections, their descriptors, and the two sides
that retire them; `OwnershipProgress.dfy` shows that they can always be retired. `Attachment.dfy` attaches connections to listeners. `EndToEnd.dfy` joins both
parts: from the threads that send to the callbacks on the other side. Loops and objects that the
library runs in one thread are methods and classes; what several threads interleave is a step
relation.

## Where the code and its documentation differ

The model follows the code. Where a promise fails, a lemma names an input, and another says when
it holds.

- The documentation says that messages cannot be lost (doc/mainpage.hpp:109). Events of more than
  3584 bytes on the wire can be, even if the buffer is read round its end: a chunk of the stream is
  then refused, and the refusal is ignored. As the code stands no length is safe
  (`Refusals.ConnectionBound`, `AsWritten.NoBoundIsSafe`). Events for a queue that is full are
  reported lost: none ever is if and only if the queues have no maximum
  (`DeliveryLimits.NeverLosesIffUnbounded`).
- `put` goes round the end of the circular buffer, `pick_event` does not: it rounds its index once,
  and then counts up. The class has a constant, `wraps`: false is the code as it stands, where an
  index behind the array finds whatever the memory holds, and true is the code with an index that
  goes round. As it stands, a complete frame is picked as it was put, whatever that memory holds,
  if and only if its cells are in place (`Placement.AsWrittenIffInPlace`). A stream of frames comes
  out as it was sent, however it is cut into chunks and whatever that memory holds, if and only if
  each frame fits at the cell that its first byte comes to: it ends inside the array, or its length
  takes the last two cells (`AsWritten.StreamReassemblesIffFit`). Two frames of 3584 bytes do not
  (`AsWritten.TwoLongFramesAreLost`).
- A frame with an invalid packet is reported as dropped. It is not removed, and no event comes out
  of that connection any more (`Reassembly.RejectedBlocks`).
- A queue is full when it is longer than the maximum, so that it grows to the maximum and one more.
  The queue of disconnections grows beyond any bound, if threads of the program disconnect: each of
  them looks first, and then pushes (`DeliveryLimits.NeverLongerIff`).
- `send` keeps the answer of the system in an unsigned number, where the error -1 is positive: the
  count goes back by one, and a byte is sent twice (`Sending.RepeatedByte`), or, at the first byte,
  one that lies in front of the frame (`Sending.ForeignByte`). A send that ends well has written its
  frame if and only if there was no error (`Sending.SentIffWithoutErrors`).
- `tell_disconnected` does not notify (`DeliveryLimits.SilentDisconnectSleeps`): no wakeup is lost if
  and only if the program leaves it to the listener to disconnect
  (`DeliveryLimits.AlertedIffNoTells`). And it does not look among the accepted connections if there
  are external ones: the descriptor stays in the map, and the assertion of the next `accept` that
  gets it fails. Without external connections it never does
  (`Ownership.AssertionHoldsIffNoExternal`); but then the loop at the end of the listener erases the
  entry that it stands on (`Ownership.DisconnectAll`).
- Joining the listener first is said to process all received events. That holds for the consumers
  that are running when the listener comes to join them (`Delivery.ShutdownDrains`), and for any
  links not for others, nor for the disconnections that a thread of the program tells during the
  joins (`DeliveryLimits.DrainsIff`).
- The printer says CORRUPTED of a bad packet, unless it reads behind its end. It does that exactly if
  the packet ends inside a value or a header (`Printing.OverrunIffCut`), and no sequence of writes
  leaves such a packet (`Printing.WrittenIsPrinted`).
- A name that is only bound to empty slots is taken from the consumer of all other events, and given
  to no one (`Routing.NotifiedDrainsIffNotHidden`, `Delivery.HiddenIsNeverDelivered`).
- The exceptions of the reader are named after the type that was found, not the one that was
  expected. Reading an object at the end of a packet throws; reading anything else is ignored.

## Model

| member | source | states |
|---|---|---|
| SocketHelp.IsBigEndian | src/SEDNL/SocketHelp.hpp:195-201 | the test tells the byte order of the host from where a one is stored |
| SocketHelp.BytesSwap | src/SEDNL/SocketHelp.hpp:203-209 | the two halves of a word change places |
| SocketHelp.Push16 | src/SEDNL/SocketHelp.hpp:149-156 | appends a number most significant byte first, on hosts of either byte order |
| SocketHelp.Push32 | src/SEDNL/SocketHelp.hpp:170-179 | the same for 32 bits |
| SocketHelp.Push64 | src/SEDNL/SocketHelp.hpp:211-218 | the same for 64 bits, although the two halves are pushed as they lie in memory |
| SocketHelp.Front16 | src/SEDNL/SocketHelp.hpp:158-168 | returns the number whose network order is at the index, on either host: the inverse of the push |
| SocketHelp.Front32 | src/SEDNL/SocketHelp.hpp:181-193 | the same for 32 bits |
| SocketHelp.Front64 | src/SEDNL/SocketHelp.hpp:220-233 | the same for 64 bits |
| Bytes.FromBigEndianInverts | src/SEDNL/SocketHelp.hpp:149-233 | a number read from its network order is the number |
| Bytes.BigEndianInverts | src/SEDNL/SocketHelp.hpp:149-233 | and bytes written from what they say are the bytes |
| Layout.NetworkOrder | src/SEDNL/SocketHelp.hpp:149-179 | network order of one, two and four bytes: each byte, most significant first |
| Layout.NetworkOrder64 | src/SEDNL/SocketHelp.hpp:203-218 | and of eight, as two blocks of four |
| Layout.TwosComplement | src/SEDNL/Packet.cpp:183-245 | the pattern of a signed number is the number modulo its range |
| Layout.Ranges | include/SEDNL/Types.hpp:37-54 | the numbers that each of the ten types holds, from the least to the greatest |
| Layout.ScalarTags | include/SEDNL/Packet.hpp:47-70 | the first byte of a scalar of each type |
| Layout.ScalarLayout | src/SEDNL/Packet.cpp:183-260 | and the one, two, four or eight bytes behind it: the number modulo its range, most significant byte first |
| Layout.StringLayout | src/SEDNL/Packet.cpp:262-276 | a string is 0x20, its bytes, and a NUL |
| Layout.ArrayLayout | src/SEDNL/Packet.cpp:278-359 | an array is 0x80 more than the tag of one element, a 16-bit number, and its elements without tags; there are at most 65535 |
| Layout.ObjectLayout | src/SEDNL/Packet.cpp:846-854 | an object is 0x40, the number of its fields, at most 255, and the fields |
| Wire.NumberInvertsPattern | src/SEDNL/Packet.cpp:374-390 | the reinterpretation of a pattern as a signed number gives the number that was written, negative ones too |
| Wire.ParseItemSound | src/SEDNL/Packet.cpp:33-150 | whatever is read as an item is a value, and its encoding is the bytes it was read from |
| Wire.ParseItemComplete | src/SEDNL/Packet.cpp:33-150 | wherever the encoding of a value stands, that value is read, to its last byte |
| Wire.IsEncodingIffParses | src/SEDNL/Packet.cpp:152-167 | bytes are the encoding of some list of values if and only if they can be read to the end |
| Wire.EncodingIsUnique | src/SEDNL/Packet.cpp:152-167 | and that list is unique |
| Wire.TruncatedTailRejected | src/SEDNL/Packet.cpp:152-167 | a good packet followed by the beginning of an item is not a good packet |
| Packets.Packet.ValidString | src/SEDNL/Packet.cpp:69-77 | steps over a string exactly when it ends inside the packet; from past the end it moves on by one |
| Packets.Packet.ValidArray | src/SEDNL/Packet.cpp:99-145 | steps over an array exactly when its elements are inside the packet; past the end there is none |
| Packets.Packet.ValidObject | src/SEDNL/Packet.cpp:79-97 | steps over an object exactly when all its fields are inside, although fields past the end are examined |
| Packets.Packet.ValidNextItem | src/SEDNL/Packet.cpp:33-150 | always advances; ends inside the packet exactly on items of the format; the index keeps within 32 bits for packets that fit in a frame |
| Packets.Packet.IsValid | src/SEDNL/Packet.cpp:152-167 | true exactly for the encodings of lists of values, whatever the memory behind the packet holds |
| Packets.Packet.WriteScalar | src/SEDNL/Packet.cpp:173-260 | appends the encoding of a scalar |
| Packets.Packet.WriteString | src/SEDNL/Packet.cpp:262-276 | appends the encoding of a string, cut at its first NUL |
| Packets.Packet.WriteArray | src/SEDNL/Packet.cpp:278-359 | appends the encoding of an array, or throws and appends nothing if it is longer than 65535 |
| Packets.Packet.WriteObjectHeader | src/SEDNL/Packet.cpp:846-854 | appends tag and count for 1 to 255 fields, and else throws, or fails its assertion, and appends nothing |
| Packets.Packet.WriteToPacket | include/SEDNL/Packet.ipp:66-73 | writes values one after the other up to the first that cannot be written |
| Packets.Packet.WriteAsObject | include/SEDNL/Packet.ipp:104-111 | writes a header and its fields, with the first error among them |
| Packets.Packet.Write | src/SEDNL/Packet.cpp:173-359 | writes a value of any nesting; says which bytes are left behind when that fails on the way |
| Packets.WriteEncodes | include/SEDNL/Packet.ipp:104-111 | a write that succeeds leaves the encoding of the value, with its strings cut at the first NUL |
| Packets.FailedWriteTruncates | include/SEDNL/Packet.ipp:104-111 | a write that fails leaves nothing, or the beginning of an item without its end |
| Packets.FailedWriteIsRejected | include/SEDNL/Packet.ipp:104-111 | and a packet that was good before is then rejected by the validator |
| WriteErrors.FirstErrorIsReported | src/SEDNL/Packet.cpp:846-854 | of all parts of a value, in the order of writing: the error is that of the first array of more than 65535 elements, or object of none or more than 255 fields, and there is none without such a part |
| WriteErrors.WritesParts | include/SEDNL/Packet.ipp:66-111 | a write leaves behind exactly the parts in front of that one, or all of them |
| Readers.PacketReader.ReadScalar | src/SEDNL/Packet.cpp:374-390 | at the end nothing happens; on another type it throws and stays; else it returns the number and moves over the item |
| Readers.PacketReader.ReadChar | src/SEDNL/Packet.cpp:461-477 | the same, for items of both signs |
| Readers.PacketReader.ReadString | src/SEDNL/Packet.cpp:539-560 | the same for strings |
| Readers.PacketReader.ReadArray | src/SEDNL/Packet.cpp:562-583 | the same for arrays |
| Readers.PacketReader.ReadCharArray | src/SEDNL/Packet.cpp:586-608 | the same for arrays of chars, written with either sign |
| Readers.PacketReader.ReadObjectHeader | src/SEDNL/Packet.cpp:830-844 | which of the three errors is thrown, in terms of the value that stands there; moves only if none is |
| Readers.PacketReader.ReadAsObject | include/SEDNL/Packet.ipp:113-124 | reads all fields, or throws the first error at any depth and leaves the reader where it was |
| Readers.PacketReader.ReadFrom | include/SEDNL/Packet.ipp:75-82 | reads variables in order up to the first error |
| Readers.PacketReader.Read | src/SEDNL/Packet.cpp:461-658 | reading any shape gives what the value at the index gives for it |
| Readers.ReadingFields | include/SEDNL/Packet.ipp:113-124 | fields are paired with variables one for one, and a complete reading ends where the object ends |
| Readers.AllIsReadable | src/SEDNL/Packet.cpp:370-390 | any number of variables can be read from a good packet, wherever the reader stands on an item |
| Readers.ReadingStaysOnItems | src/SEDNL/Packet.cpp:374-390 | in a good packet the reader goes from an item to the next, or stays |
| Readers.WriteReadRoundTrip | include/SEDNL/Packet.ipp:104-124 | writing a value of any nesting and reading it back with its own shape returns it, and ends on its last byte, whatever stands before and after |
| Readers.NothingIsReadAtEnd | src/SEDNL/Packet.cpp:374-377 | at the end of a packet nothing is read, the reader stays, and only a variable of object type throws |
| Readers.ExceptionsAreNamed | src/SEDNL/Packet.cpp:392-455 | the tags that have an exception of their own |
| Readers.CharsAreSigned | src/SEDNL/Packet.cpp:461-477 | a byte from 128 on is a negative char |
| ReadingLayout.PlainIsRead | src/SEDNL/Packet.cpp:374-390 | a variable receives an item if and only if it is of just its type; else the exception names the tag that stands there, and the reader stays |
| ReadingLayout.CharIsRead | src/SEDNL/Packet.cpp:461-477 | a char is read behind the tags 0x01 and 0x05 only, and is the byte there in two's complement |
| ReadingLayout.CharsAreRead | src/SEDNL/Packet.cpp:586-608 | a list of chars is read behind 0x81 and 0x85 only: as many bytes as the two in front of them say, each in two's complement |
| ReadingLayout.ObjectIsRead | src/SEDNL/Packet.cpp:830-844 | which error an object gives, by its two first bytes; without one, its fields are what follows |
| ReadingLayout.ReadingInTurns | include/SEDNL/Packet.ipp:75-82 | variables read in two turns get what they get in one, and keep it when a later one fails |
| ReadingLayout.NothingMoreIsRead | src/SEDNL/Packet.cpp:830-837 | variables behind the end are left alone, up to the first of object type, which is an error |
| Printing.OutputOne | src/SEDNL/Packet.cpp:670-753 | shows what stands at the reader and moves over it, in any packet that is not cut; answers false at an unknown tag, and where the packet ends too early |
| Printing.OutputFields | src/SEDNL/Packet.cpp:708-724 | shows the fields of an object in order, goes on numbering, and stops at the first bad one |
| Printing.Print | src/SEDNL/Packet.cpp:755-768 | prints any packet that is not cut to its end, or up to what is no item and then CORRUPTED |
| Printing.OverrunIffCut | src/SEDNL/Packet.cpp:670-753 | the printer reads behind the end of a packet if and only if that ends inside a value or the header of an object |
| Printing.WrittenIsPrinted | src/SEDNL/Packet.cpp:755-768 | it never does for what any sequence of writes leaves behind, failed ones included, and reports that corrupted if and only if it is not the encoding of any list of values |
| Printing.GoodIsPrinted | src/SEDNL/Packet.cpp:755-768 | a good packet is shown value by value, once and in order, and never reported corrupted |
| Printing.CorruptedIffNotGood | src/SEDNL/Packet.cpp:755-768 | a packet that is not cut is reported corrupted if and only if it is not the encoding of any list of values |
| Printing.RenderNumbers | src/SEDNL/Packet.cpp:670-753 | a value and everything in it is numbered one by one, an object before its fields |
| PrintedForm.PrintedIsChained | src/SEDNL/Packet.cpp:670-768 | in what is printed of any packet: behind a label stands the value of just that tag, or the fields of an object, or, if no item begins with the tag, the report; behind each value and object a comma |
| PrintedForm.PrintedIsNumbered | src/SEDNL/Packet.cpp:670-768 | the labels run from one on, one by one, also in a packet that is reported corrupted |
| PrintedForm.PrintedTellsValues | src/SEDNL/Packet.cpp:755-768 | the values of a good packet, with their nesting, can be read back from what is printed |
| Framing.GetHeader | src/SEDNL/Event.cpp:29-41 | the header in front of the packet makes the frame, with the length cut to 16 bits |
| Framing.Pack | src/SEDNL/Event.cpp:43-51 | returns the frame |
| Framing.PackedIsPicked | src/SEDNL/RingBuf.cpp:55-140 | a frame is cut out of a stream whole, whatever follows it |
| Framing.PrefixIsIncomplete | src/SEDNL/RingBuf.cpp:59-77 | nothing is cut out of the beginning of a frame |
| Framing.PickedIsPacked | src/SEDNL/RingBuf.cpp:55-140 | what is cut out is a good event and its frame, but for announced lengths that were raised to three |
| Framing.FramesIffSendable | src/SEDNL/Event.cpp:29-51 | framing and cutting out returns the event if and only if its name is NUL-free, its packet good, and its frame at most 65535 bytes |
| Framing.RejectedIffBadPacket | src/SEDNL/RingBuf.cpp:123-131 | a complete frame is rejected exactly when what follows its name is not a packet |
| Layout.FrameLayout | src/SEDNL/Event.cpp:29-51 | the bytes of a frame: two of the length modulo 65536, the name, a NUL, the packet |
| Layout.ExtractLayout | src/SEDNL/RingBuf.cpp:55-140 | which of the four outcomes any two bytes or more give, by the announced length, the first NUL behind it, and the packet behind that |
| Layout.DrainLayout | src/SEDNL/EventListener.cpp:467-489 | and what a turn of picking makes of them: a frame without a NUL is skipped and ends the turn, a bad packet stays and ends it |
| RingBuffer.RingBuf.Length | include/SEDNL/RingBuf.ipp:37-43 | the number of bytes that were put and not picked |
| RingBuffer.RingBuf.Reset | include/SEDNL/RingBuf.ipp:31-35 | forgets them |
| RingBuffer.RingBuf.Put | src/SEDNL/RingBuf.cpp:38-53 | appends all bytes, or none and returns false, exactly if they do not fit |
| RingBuffer.RingBuf.FrontLength | src/SEDNL/RingBuf.cpp:64-73 | the announced length, raised to three |
| RingBuffer.RingBuf.ReadName | src/SEDNL/RingBuf.cpp:79-90 | the bytes up to the first NUL of the frame, or all of them |
| RingBuffer.RingBuf.ReadPacket | src/SEDNL/RingBuf.cpp:101-113 | the bytes behind the NUL |
| RingBuffer.RingBuf.PickEvent | src/SEDNL/RingBuf.cpp:55-144 | returns exactly what can be cut out of the bytes as it sees them; removes the frame if it is picked, or has no NUL, and changes nothing otherwise |
| Placement.WrappedViewIsContents | src/SEDNL/RingBuf.cpp:26-27 | with an index that goes round, it sees the bytes that were put |
| Placement.AsWrittenIffInPlace | src/SEDNL/RingBuf.cpp:55-134 | as the code stands, a complete frame is picked or dropped as it was put, whatever lies behind the array, if and only if its cells are read in place |
| Placement.UnwrappedIsInPlace | src/SEDNL/RingBuf.cpp:55-134 | they are while the buffered bytes have not gone round |
| Placement.SplitLengthIsMissed | src/SEDNL/RingBuf.cpp:66-67 | an example in four cells: the smallest frame is missed when its length is cut in two by the end of the array |
| Placement.MisfitIsSpoiled | src/SEDNL/RingBuf.cpp:64-113 | for a frame that does not fit where it begins, some memory behind the array keeps it from ever being picked, whatever follows it |
| Reassembly.DrainBuffer | src/SEDNL/EventListener.cpp:467-489 | the inner loop gives the events, and leaves the buffer, of picking from what is seen as long as something is found; for both readings of the index |
| Reassembly.ReadChunk | src/SEDNL/EventListener.cpp:464-489 | a chunk is put, or lost if it does not fit, and then the buffer is drained; for both readings |
| Reassembly.ReadConnection | src/SEDNL/EventListener.cpp:416-491 | the outer loop gives the events, and leaves the buffer, of receiving the chunks one by one; for both readings |
| Reassembly.WrappedReceives | src/SEDNL/EventListener.cpp:416-491 | with an index that goes round, that is what receiving gives on the bytes that are buffered |
| Reassembly.RejectedBlocks | src/SEDNL/RingBuf.cpp:123-131 | behind a frame that is seen to have a bad packet no event is picked any more, whatever is received; for both readings |
| AsWritten.StreamReassemblesIffFit | src/SEDNL/EventListener.cpp:423-490 | as the code stands: for any way to cut a stream of frames into chunks, exactly its events come out, whatever the buffer and the memory behind it hold, if and only if every frame fits at the cell it comes to |
| AsWritten.StreamIsRead | src/SEDNL/EventListener.cpp:423-490 | with an index that goes round, and in the code if all frames fit: however the beginning of a stream is cut into chunks, none is refused, exactly the complete frames come out, in order, and the beginning of the next one is kept |
| AsWritten.MisfitIsLost | src/SEDNL/RingBuf.cpp:26-27 | for a stream with a frame that does not fit, there is one memory with which it never comes out whole, in any chunks |
| AsWritten.ShortStreamFits | src/SEDNL/RingBuf.cpp:26-27 | all frames fit while the stream has not come to the end of the array |
| AsWritten.TwoLongFramesAreLost | src/SEDNL/RingBuf.cpp:79-111 | two frames of 3584 bytes are read without a refusal by an index that goes round, and never both by the code, for some memory |
| AsWritten.NoBoundIsSafe | src/SEDNL/RingBuf.cpp:55-134 | in the buffer of a connection, no bound on the length of frames keeps the code from losing events: 1366 of the smallest ones are enough |
| Refusals.ConnectionBound | include/SEDNL/Connection.ipp:29-34 | in the buffer of a connection no chunk is refused, for streams of frames up to a bound, if and only if that is at most 3584 bytes, with an index that goes round; and for the code, if and only if there are no such frames |
| Refusals.WrappedBound | src/SEDNL/EventListener.cpp:464-465 | with an index that goes round, and any buffer, if and only if the bound is at most capacity - 512 + 1 |
| Refusals.SmallFramesAreRefused | src/SEDNL/EventListener.cpp:464-465 | a stream of the smallest frames that the code refuses a chunk of |
| Sending.Socket.Send | src/SEDNL/Connection.cpp:82-115 | the bytes that reach the system, and how the loop ends, for any answers of the system |
| Sending.SentIffWithoutErrors | src/SEDNL/Connection.cpp:91-104 | a send that ends well has written its frame if and only if no call answered with an error |
| Sending.RepeatedByte | src/SEDNL/Connection.cpp:92-95 | an error in the middle of the smallest frame sends a byte of it twice |
| Sending.ForeignByte | src/SEDNL/Connection.cpp:92-95 | an error at its first byte sends one that lies in front of it |
| Sending.ErrorsAddBytes | src/SEDNL/Connection.cpp:91-95 | a send that ends well has written one byte more for each error |
| Sending.Endings | src/SEDNL/Connection.cpp:91-104 | a send is given up only if some answer took nothing, and waits for the system only if none did and not all bytes are taken |
| Sending.SendIsOnTheLine | src/SEDNL/Connection.cpp:82-115 | what a thread does to the line while it holds the lock is what the loop does, for the same answers: the same bytes, and the lock is held on, or given back, as the loop ends |
| Sending.FramesNeverInterleave | src/SEDNL/Connection.cpp:86-95 | for any interleaving of threads and any answers, the bytes written are the finished frames and a prefix of the one that is being written, if and only if no send was given up or got an error in the middle of its frame, or wrote after an error at its first byte |
| Sending.GivenUpTears | src/SEDNL/Connection.cpp:96-104 | a send that is given up leaves a piece of its frame in front of the next one, which is then sent whole |
| Sending.SentIsReceived | doc/mainpage.hpp:108-110 | of a line that is not torn, the receiver picks exactly the events sent by all threads, in the order of their sends, once; its index goes round, or all frames fit |
| Sending.SentIsReceivedIffFit | doc/mainpage.hpp:108-110 | as the code stands, all that was sent comes out, whatever the memory behind the buffer holds, if and only if all frames fit |
| Attachment.Listener.Attach | src/SEDNL/EventListener.cpp:67-80 | adds an element to the list of the one listener it then points to, or says why not; ownership is kept among all listeners |
| Attachment.Listener.Detach | src/SEDNL/EventListener.cpp:82-95 | takes it out; the wrong-parent error is never reached |
| Attachment.OwnedApart | src/SEDNL/EventListener.cpp:67-95 | no element is in two lists |
| Routing.Consumer.CleanSlots | src/SEDNL/EventConsumer.cpp:73-84 | removes the empty slots, and only those |
| Routing.Consumer.Run | src/SEDNL/EventConsumer.cpp:214-225 | starts once, without the empty slots, and keeps what is filled |
| Routing.Listener.AddConsumer | src/SEDNL/EventListener.cpp:663-672 | registers a consumer once |
| Routing.Listener.LinkSlot | src/SEDNL/EventListener.cpp:125-141 | links a filled slot unless it is taken, and then clears all links; an empty named slot gets an empty entry |
| Routing.Listener.LinkNamedSlots | src/SEDNL/EventListener.cpp:174-175 | links all named slots of a consumer, or clears all links |
| Routing.Listener.LinkConsumer | src/SEDNL/EventListener.cpp:166-176 | links all slots of a consumer, if and only if none of them is taken |
| Routing.Listener.RunInit | src/SEDNL/EventListener.cpp:143-181 | succeeds if and only if no two consumers fill the same slot; then each filled slot is linked to its consumer and nothing else is, and else all links are cleared |
| Routing.Listener.Run | src/SEDNL/EventListener.cpp:624-637 | runs once, and keeps the links clear while it does not run |
| Routing.CollideIff | src/SEDNL/EventListener.cpp:125-141 | two consumers collide if and only if both set a function for disconnections, for server disconnections, for all other events, or for the same name |
| Routing.LinksIff | src/SEDNL/EventListener.cpp:166-176 | each of the links leads to a consumer if and only if that one is registered and set a function in just that slot |
| Routing.DrainsOnlyIfNotified | src/SEDNL/EventListener.cpp:483-487 | the consumer that takes the events with a name is the one that is notified for them |
| Routing.NotifiedDrainsIffNotHidden | src/SEDNL/EventConsumer.cpp:165-182 | and the one that is notified takes them if and only if the name is not hidden, before and after the consumers have removed their empty slots |
| Routing.HidesEmptySlots | src/SEDNL/EventListener.cpp:174-175 | the names hidden when the listener starts are those that are bound, and to empty slots only |
| Routing.StartingKeepsRoutes | src/SEDNL/EventConsumer.cpp:73-90 | a consumer that starts and loses its empty slots changes neither who takes an event nor who is notified |
| Wiring.StartedIsWellFormed | src/SEDNL/EventListener.cpp:163-176 | the links of a listener that has started give a machine in which no two consumers share a named queue |
| Wiring.EveryListenerIsDescribed | src/SEDNL/EventListener.cpp:163-176 | every listener whose links are in place has such a machine, over just the names of its slots and links |
| Wiring.TakesIffDrains | src/SEDNL/EventConsumer.cpp:165-182 | and in which a consumer takes from a queue exactly if it drains it, with empty slots or without |
| Wiring.IsNotifiedIffLinked | src/SEDNL/EventListener.cpp:483-487 | and is woken up for a queue exactly if it is linked to it, for events and for disconnections |
| Wiring.LessIff | include/SEDNL/EventListener.hpp:220 | the order of the map of queues: a beginning of a name comes before it, else the first letter that differs decides |
| Wiring.NumbersIff | include/SEDNL/EventListener.hpp:220 | names are numbered in that order |
| Delivery.NoLostWakeup | src/SEDNL/EventListener.cpp:468-489 | in every state, if an event waits for a consumer, that one is woken up, or about to be notified, or will still come to that queue in its pass; only a disconnection may wait that was told since the last notification for it |
| DeliveryLimits.AlertedIffNoTells | src/SEDNL/EventListener.cpp:511-546 | in all runs, before the listener ends, none waits at all without that, if and only if no thread of the program disconnects a connection |
| Delivery.SleepersHaveNothingToDo | src/SEDNL/EventConsumer.cpp:194-207 | a consumer that sleeps, while no notification is due, has delivered everything that was kept for it |
| Delivery.ConservationAndOrder | include/SEDNL/ThreadHelp.ipp:91-144 | picked events are delivered, in one hand, waiting or lost; the delivered ones of each connection are a prefix of those kept; a queue of events never exceeds the maximum and one more |
| DeliveryLimits.NeverLongerIff | src/SEDNL/EventListener.cpp:222-245 | in all runs a queue keeps to a bound if and only if there is a maximum, the bound is more than that, and, for the disconnections, no thread of the program tells one |
| Delivery.LogIsPicks | src/SEDNL/EventListener.cpp:468-489 | what was kept or lost, in that order, is what the listener picked for the queue |
| Accounts.NoticesAreKept | src/SEDNL/EventListener.cpp:468-489 | there is one notification for each event that was kept, and none for a lost one; only the last may still be due |
| Accounts.NoticesArePicks | src/SEDNL/EventListener.cpp:278-286 | there is one for each disconnection that the listener found, lost ones too |
| Accounts.WakeupsAreNoticed | src/SEDNL/EventConsumer.cpp:196-205 | a consumer never wakes up more often than it was notified |
| Accounts.SleepsOnlyWhileRunning | src/SEDNL/EventConsumer.cpp:194-202 | no consumer goes to sleep once it is to end |
| Accounts.SleepEnds | src/SEDNL/EventConsumer.cpp:196-207 | a sleep ends with a pass that uses up the wakeup if one is due, and else with the test of m_running |
| Accounts.DisconnectionsAreAccounted | src/SEDNL/EventListener.cpp:230-245 | each disconnection, from any side, was kept, reported lost, or is about to be pushed, once |
| PassOrder.PassIsInOrder | src/SEDNL/EventConsumer.cpp:165-187 | in one pass, the queues of the slots come first, then those of other names in the order of the names, and the disconnections last |
| Records.RecordsIff | src/SEDNL/EventListener.cpp:614-616 | which consumers count as skipped or joined by the program, and when a disconnection counts as late, in terms of what the run did |
| Records.SilentIff | src/SEDNL/EventListener.cpp:511-546 | a disconnection counts as silent if and only if one was told since the last notification for them |
| Records.QueuesArePicked | src/SEDNL/EventListener.cpp:468-476 | the consumer of all other events finds the queue of a name as soon as an event with it was looked up |
| DeliveryLimits.NeverLosesIffUnbounded | src/SEDNL/EventListener.cpp:222-228 | in all runs no event of a name is lost, if and only if there is no maximum |
| Delivery.ShutdownDrains | src/SEDNL/EventListener.cpp:610-616 | once the listener is joined, every consumer that was running when it came to join it has delivered each event that was kept for it once and in order, and its queues are empty; the disconnections too, but for those that a thread told during the joins |
| Progress.AwaitedEnds | src/SEDNL/EventConsumer.cpp:189-212 | from any state in which the listener waits for a consumer, whatever is queued and in hands, the steps of that consumer alone lead to its end, and the join can return |
| Progress.JoinListenerEnds | src/SEDNL/EventListener.cpp:610-648 | any run in which the join of the listener was called for can go on to its end |
| Progress.JoinIsCalledFor | src/SEDNL/EventListener.cpp:639-648 | the listener leaves its loop only after that |
| Progress.ConsumerCanEnd | src/SEDNL/EventConsumer.cpp:214-236 | from any state, a consumer can be started, if it was not, and joined by the program; then it comes to its end by its own steps |
| Progress.DeliveryIsReached | src/SEDNL/EventConsumer.cpp:189-207 | from any state, all that was kept for a consumer that runs can be delivered: at most the notification that is due, and its own steps, do it; for disconnections, if none was told since the last notification |
| DeliveryLimits.SkippedIsNotDrained | src/SEDNL/EventConsumer.cpp:227-236 | with any links and any queue, a consumer that was not running then may leave events behind |
| DeliveryLimits.LateTellIsNotDrained | src/SEDNL/EventListener.cpp:511-546 | with any links, a disconnection that is told during the joins may be left behind |
| DeliveryLimits.DrainsIff | src/SEDNL/EventListener.cpp:610-616 | in all runs the queues that are taken from are drained, if and only if consumers that were skipped are left out, and, if someone takes the disconnections, no thread tells one during the joins |
| Delivery.HiddenIsNeverDelivered | src/SEDNL/EventConsumer.cpp:170-182 | events with a hidden name are never delivered |
| DeliveryLimits.SilentDisconnectSleeps | src/SEDNL/EventListener.cpp:511-546 | with any links, a disconnection that a thread of the program tells wakes nobody up |
| Ownership.AcceptedAreOwned | src/SEDNL/EventListener.cpp:247-287 | without external connections, in every state: the map leads to open descriptors and their owners; no descriptor is closed twice; each accepted connection is mapped, or its one event is due or was pushed |
| Ownership.OpenIffOwned | src/SEDNL/Connection.cpp:72-80 | a descriptor is open exactly as long as a connection owns it, or the rest of the program does: none leaks |
| Ownership.LockIsExclusive | src/SEDNL/Connection.cpp:40-70 | while a thread holds the lock of a connection, no other one closes it |
| OwnershipProgress.CanBeRetired | src/SEDNL/Connection.cpp:40-56 | from any state, any accepted connection can be disconnected: it is closed, its one event is pushed, and the listener goes on |
| OwnershipProgress.PeerIsRetired | src/SEDNL/EventListener.cpp:247-287 | and retired when its peer goes away, also if a thread is just about to disconnect it |
| Ownership.AssertionHoldsIffNoExternal | src/SEDNL/EventListener.cpp:361-366 | the assertion that an accepted descriptor is not in the map holds in all runs if and only if there are no external connections |
| Ownership.StaleDescriptor | src/SEDNL/EventListener.cpp:512-546 | with one, a disconnect leaves the descriptor in the map, and the next accept that gets it fails |
| Ownership.ExternalTellsNobody | src/SEDNL/EventListener.cpp:512-546 | with external connections, only the listener tells the end of accepted connections, and only it takes them from the map |
| Ownership.DisconnectAll | src/SEDNL/EventListener.cpp:610-612 | the loop that disconnects all connections at the end goes on from an entry that it has erased, if and only if there is one and there are no external connections; what is left then are the entries of the others |
| EndToEnd.DeliveredAsReceived | src/SEDNL/EventListener.cpp:467-489 | in every state, the callback of a name has got, from each connection, a prefix of the events with that name that came out of its buffer, if none was reported lost |
| EndToEnd.SentIsDelivered | doc/mainpage.hpp:108-110 | and once the listener is joined, each event that any thread sent on the connection with that name, once, and in the order of the sends |

## Left out

- Sockets, address resolution, `TCPClient`, `TCPServer`: foreign calls. What they answer is a parameter: `recv` gives chunks of 1 to 512 bytes, `send` takes some bytes, none, or fails, and the system never hands out an open descriptor.
- The three pollers, and `run_imp`'s dispatch on their events: the steps of the machines may come in any order instead.
- The end of a connection in `read_connection` (an error, or zero bytes): it is the retirement that `Ownership` models.
- The order of the threads inside one atomic map or queue operation: access to `m_events` and to the map of connections is not synchronised in the library, and is taken as atomic here. `SafeQueue`'s push, pop and size are one step of `Delivery` each, not a class.
- What erasing the entry does that `run_imp` stands on at shutdown: `Delivery` lets the listener tell any number of disconnections there, `Ownership.DisconnectAll` stops.
- Closing and disconnecting servers, and the queue of server disconnections.
- Running a consumer again after it was joined, and adding names to a consumer that runs.
- The lifetime of connection objects: they live as long as a thread works on them.
- Exhausted memory and mutexes that fail.
- The `Connection` user data, `Slot`, serializer hooks, versions, exception texts and `type_to_string`: wrappers, or user code. The printer's tokens stand for its text, and a value that it shows for its digits.
- The meaning of float and double: a float is its bit pattern.
- Calls with more than 65535 arguments, whose number does not fit the type that counts them.
- Packets of more than 1.8 megabytes: whether the validator's 32-bit index wraps round is settled for packets that fit in a frame, the ones it is called for.
- Readers.PacketReader.Read: takes for granted that the bytes at the index are an item, as the comments of the reader do; on corrupted packets it reads behind the end.
- Printing.Print: says nothing of packets that are cut, behind the end of which the printer reads.
- Printing.OutputOne: the same, for what stands behind the reader.
- Printing.OutputFields: the same.
- Printing.CorruptedIffNotGood: the same.
- The memory in front of and behind an array is arbitrary, but does not change while a stream is read.
- A send with so many errors that its count, going down, comes round all 64 bits; and platforms whose `unsigned long` is narrower than a pointer, where an error at the first byte reads elsewhere than in front of the array.
- What a consumer does that is started after the listener has ended, when the links are cleared.
- EndToEnd.SentIsDelivered: takes that the queues are not bounded, or that no event of the name was reported lost; what a queue that is full loses is counted in `Delivery.ConservationAndOrder`.
