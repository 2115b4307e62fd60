# Verification of the embedded libraries

This project models the stateful parts of a set of embedded libraries and proves what they are for: a small file system that
survives power loss, a ring buffer between two threads, a command scheduler, the receiving and sending halves of an HTTP
server, a frame message format, MD5 and a JSON walker. Code that changes state is a class or a loop here too, proved equal to a
specification on values; whole runs are state machines over those specifications. `dafny verify dfyconfig.toml` checks
everything.

- **Slot file system** (`Crc32`, `Slot*`). Each slot has two metadata blocks with a revision of 8 bits and a CRC, and a data
  area written in pages of 2048 bytes. `SlotSpec` states every call on values, `SlotFS` has the classes, `SlotCrash` says what
  power loss leaves of a device, `SlotCommit` to `SlotCreate` prove single calls atomic, and `SlotSystem` to `SlotReadBack`,
  with `SlotBoot` for sfs_init, prove invariants, reader stability, recovery and round trips over all runs of calls and power losses.
- **Ring buffer** (`RingBytes`, `SequentialBuffer`, `SequentialBufferThreads`). The class against a sequence of bytes, and the two
  threads step by step, with the free count read outside the lock and the copies one byte at a time in any order.
- **Command queue** (`CommandQueueSpec`, `CommandQueue`, `CommandQueueRuns`, `CommandQueueDue`). Contexts that circulate between two
  bounded queues; a log with one ticket for every accepted command, and the order in which tickets pass the queue.
- **HTTP receiving** (`HttpBodySpec`, `HttpFraming`, `HttpAccepts`, `HttpParser`, `HttpRequest`, `HttpResults`, `UrlSplit`,
  `UrlReference`, `UrlCompose`, `PercentDecoding`). The body states byte by byte, the bulk loop against them, the framing of
  section 4.1 of RFC 7230, taken and nothing else; the URL splitter against a splitting without states; decoding in place.
- **HTTP sending** (`ResponsePump`). Packets, would-block results and the dangling packet.
- **Frame messages** (`FrameMessage`), **MD5** (`Md5Block`, `HashStream`, `Md5`, `Md5Suite`), **JSON** (`JsonGrammar`, `JsonEvents`,
  `JsonWalk`). Grammar as values over places in the text, and the callbacks of a value; the recursive descent against both.

## What is assumed

- The block device takes and gives bytes inside it and fails only for requests outside. Power loss in a single-block write leaves
  the old block, the new one, or one whose CRC does not fit; in a page write it leaves each sector of 512 bytes old or new.
- Structures are laid out little-endian with 64-bit integers, without gaps between the fields that are stored.
- Theorems over runs of the file system ask that a slot is a multiple of the page size (`SlotLayout.PagesStayInSlot`), that
  no call names the slot `slot_count` itself (`SlotRoundTrip.CreateAtSlotCount`), that a read handle is not written through
  (`SlotRoundTrip.WriteThroughReader`), and that a slot has fewer than 255 handles (`SlotRoundTrip.WriteOpenGranted`).
- The queues of the command queue are bounded first-in first-out queues; the clock counts milliseconds and is read modulo 2^32.
- HTTP is parsed in strict mode with callbacks that return 0.

## Where the code falls short of its description

- A file whose revision has wrapped to 0 cannot be opened (`SlotRoundTrip.ReopenVisible`); a power loss while creating a file over
  one whose second metadata block is invalid loses the slot (`SlotCreate.CreateSurvives`).
- A power loss behind the first write of formatting leaves a device that passes for formatted (`SlotBoot.FormatLossIff`).
- A delay that wraps the 32-bit clock runs at once (`CommandQueueRuns.EarlyIff`).
- A chunk size line may contain bytes from 128 up, which are read as zero digits (`HttpFraming.SizeIsNumeralIff`,
  `HttpFraming.HighByteIsDigit`).
- URL offsets and lengths of 65536 and more are cut to 16 bits (`UrlSplit.CutIff`, `UrlSplit.LongPathIsCut`).
- A response whose last packet would block is sent but never counted as complete (`ResponsePump.NeverCompletesLate`).
- A JSON value under a key that is empty or ends in a dot is not called back (`JsonEvents.KeyHides`).
- Slot number slot_count can be opened for writing, over the data of slot 0 (`SlotRoundTrip.CreateAtSlotCount`).
- A message to which a type was added twice claims a size that is too large (`FrameMessage.SizeRightIff`).

## Model

| member | source | states |
|---|---|---|
| `Crc32.ComputeCrc` | lib_util/util_crc32.cpp:51-61 | the loop returns the reflected CRC-32 defined bit by bit: eight shift-and-xor steps for every byte, both ends inverted |
| `Crc32.TableIsByteStep` | lib_util/util_crc32.cpp:4-49 | every one of the 256 table entries is eight bit steps of its index |
| `Crc32.TableStep` | lib_util/util_crc32.cpp:58 | one table lookup and shift is eight bit steps of the register with the byte xored in |
| `Crc32.RegisterInjective` | lib_util/util_crc32.cpp:57-59 | different registers stay different over any bytes |
| `Crc32.FourBytesInjective` | lib_util/util_crc32.cpp:57-59 | over any four bytes the register tells every two byte strings apart |
| `Crc32.BurstDetected` | lib_util/util_crc32.cpp:51-61 | two texts that differ only within four consecutive bytes have different CRCs |
| `Crc32.ResidueIff` | lib_util/util_crc32.cpp:51-61 | data with four more bytes has the checksum 0x2144DF1C, the residue of CRC-32, if and only if they are the data's own checksum, stored as a word |
| `Crc32.CheckValue` | lib_util/util_crc32.cpp:51-61 | the checksum of the digits 1 to 9 is 0xCBF43926, the check value of CRC-32 |
| `Crc32.WordRoundTrip` | lib_slotfs/slotfs.cpp:32 | storing a 32-bit word as four bytes and loading it gives it back |
| `SlotMeta.BurstFailsCheck` | lib_slotfs/slotfs.cpp:39-45 | a valid metadata block altered only within four consecutive data bytes never passes the check |
| `SlotMeta.EncodedBlockChecks` | lib_slotfs/slotfs.cpp:28-45 | a block with its CRC appended passes the check and keeps its payload |
| `SlotMeta.MetaRoundTrip` | lib_slotfs/slotfs.cpp:72-108 | what is written as a metadata block is read back field by field |
| `SlotMeta.FlushAlternates` | lib_slotfs/slotfs.cpp:146-166 | with the two revisions equal or one apart modulo 256, the block written last is the most recent, the other one is overwritten, and that stays so |
| `SlotMeta.FlushesAlternate` | lib_slotfs/slotfs.cpp:337-351 | after any number of flushes since creation: revision (1 + n) modulo 256, the newest block is block n modulo 2, it holds the last size, the other one the size before |
| `SlotLayout.RegionInside` | lib_slotfs/slotfs.cpp:113-123 | every region lies between the start and the end address |
| `SlotLayout.RegionsDisjoint` | lib_slotfs/slotfs.cpp:81-123 | config block, metadata blocks and slot data areas are pairwise disjoint |
| `SlotLayout.PagesStayInSlot` | lib_slotfs/slotfs.cpp:19 | page writes stay inside their slot for every cursor if and only if the slot size is a multiple of the page size |
| `SlotLayout.MetaBlocksEndAtSlotCount` | lib_slotfs/slotfs.cpp:198 | the metadata blocks of a slot lie before the data areas if and only if slot < slot_count; the bound in sfs_file_open admits one slot more, whose first metadata block is the first data block |
| `SlotLayout.WriteInRegion` | lib_slotfs/slotfs.cpp:81 | a write inside one region changes that region at that place and no byte of any other |
| `SlotCommit.TornPageKeepsFile` | lib_slotfs/slotfs.cpp:299-308 | a torn page write that repeats the committed bytes of the page leaves the committed file as it was |
| `SlotCommit.PageWriteAtomic` | lib_slotfs/slotfs.cpp:299-311 | whatever of a page write happens, the slot shows the same committed version and no other slot changes |
| `SlotCommit.TornMetaCases` | lib_slotfs/slotfs.cpp:146-166 | with the overwritten block old, new or invalid, the A/B choice is the last committed metadata or the one in flight |
| `SlotCommit.MetaWriteAtomic` | lib_slotfs/slotfs.cpp:337-351 | whatever of a metadata write happens, the slot shows the old version or the new one |
| `SlotCrash.SafeExtends` | lib_slotfs/slotfs.cpp:278-352 | when every write of a run is atomic for its slot, power loss in write k + 1 shows the version that the first k writes, or the first k + 1, committed |
| `SlotWriter.ChunkAppends` | lib_slotfs/slotfs.cpp:294-315 | one turn of the write loop appends its chunk, flushes once when it fills the page, and keeps the run safe at every interruption |
| `SlotWriter.WriteLoopAppends` | lib_slotfs/slotfs.cpp:278-318 | all of the data is appended, with one flush for each page it fills, or nothing is written when it does not fit |
| `SlotWriter.FlushCommits` | lib_slotfs/slotfs.cpp:320-352 | a flush commits every byte written so far as the next revision |
| `SlotReader.ReadLoopReads` | lib_slotfs/slotfs.cpp:366-396 | a read returns the file from the cursor on, min(requested, size - cursor) bytes, and reports the end exactly when fewer came |
| `SlotReader.SeekReads` | lib_slotfs/slotfs.cpp:253-265 | a seek moves the cursor inside the file and nothing else, or is refused |
| `SlotCreate.CreateCommits` | lib_slotfs/slotfs.cpp:220-233 | creating a file commits an empty one in its slot and changes no other slot |
| `SlotCreate.CreateCrash` | lib_slotfs/slotfs.cpp:227-232 | the pairs of metadata blocks an interrupted creation leaves, by the number of its two writes that were done, with no data byte and no other slot changed |
| `SlotCreate.CreateSurvives` | lib_slotfs/slotfs.cpp:227-232 | an interrupted creation always leaves a readable slot if and only if the second metadata block was valid before |
| `SlotCreate.FormatFormats` | lib_slotfs/slotfs.cpp:128-144 | formatting stores the config and an empty pair for every slot |
| `SlotCreate.InitKeeps` | lib_slotfs/slotfs.cpp:50-66 | a device that holds this config is not formatted again |
| `SlotCreate.ConfigRoundTrip` | lib_slotfs/slotfs.cpp:61 | the stored config reads back equal |
| `SlotTheorems.WriteAppends` | lib_slotfs/slotfs.cpp:278-318 | in any reachable system a write through a writing handle appends to its stream all or nothing; an interruption in any of its device writes leaves the version before that write or the one after it |
| `SlotTheorems.FlushStep` | lib_slotfs/slotfs.cpp:320-352 | after a flush the committed size is the size of the stream |
| `SlotTheorems.CloseWriterStep` | lib_slotfs/slotfs.cpp:398-415 | closing commits the stream, gives the slot back and moves to the next revision |
| `SlotTheorems.CloseReaderStep` | lib_slotfs/slotfs.cpp:398-415 | closing a reader only gives the handle back |
| `SlotTheorems.ReadStep` | lib_slotfs/slotfs.cpp:358-396 | a read returns the matching bytes of the stream its handle was opened on |
| `SlotTheorems.SeekStep` | lib_slotfs/slotfs.cpp:253-265 | a seek succeeds exactly inside the file |
| `SlotTheorems.OpenReadStep` | lib_slotfs/slotfs.cpp:204-218 | opening for reading succeeds exactly when the newest metadata has a nonzero revision, with the committed prefix of the stream |
| `SlotTheorems.OpenWriteStep` | lib_slotfs/slotfs.cpp:220-246 | opening for writing succeeds exactly when the slot has no handle |
| `SlotRuns.StepKeepsInv` | lib_slotfs/slotfs.cpp:192-415 | every allowed call keeps the invariant: lock counters count handles, one writer per slot, every handle and slot shows a prefix of its stream |
| `SlotRuns.RunKeepsInv` | lib_slotfs/slotfs.cpp:192-415 | so does every run of calls |
| `SlotRuns.RefusedChangesNothing` | lib_slotfs/slotfs.cpp:192-415 | a refused call changes nothing and answers with the error of its branch |
| `SlotRuns.ReaderStability` | lib_slotfs/slotfs.cpp:192-415 | while a read handle stays open, its metadata and the bytes below its file size never change, whatever else is called |
| `SlotRuns.CrashRecovers` | lib_slotfs/slotfs.cpp:192-415 | power loss after k of a call's device writes, or inside the next one: the written slot shows the version that those k committed or the one that the interrupted write would have, a prefix of its stream no shorter than before the call; a slot in which a file is created over one with a valid second block shows the old file, what that block holds, or the new empty file; every other slot shows what it showed |
| `SlotRuns.RestartKeepsInv` | lib_slotfs/slotfs.cpp:50-66 | after power loss sfs_init keeps the device and the system is a valid one without handles |
| `SlotRuns.HistoryKeepsInv` | lib_slotfs/slotfs.cpp:192-415 | the invariant holds over every history of calls and power losses |
| `SlotBoot.InitBrings` | lib_slotfs/slotfs.cpp:50-66 | sfs_init on any device large enough leaves the configuration it was given; it changes the device if and only if another one was stored, and then no slot holds a file |
| `SlotBoot.InitFailsIff` | lib_slotfs/slotfs.cpp:50-66 | on a device of any size it fails if and only if the block of the configuration lies outside, and then changes nothing |
| `SlotBoot.BootedIff` | lib_slotfs/slotfs.cpp:50-66 | what comes up is a valid system if and only if another configuration was stored, and then it is an empty one, or every slot was readable |
| `SlotBoot.RestartIsBoot` | lib_slotfs/slotfs.cpp:50-66 | coming up after a power loss is coming up with the same configuration stored |
| `SlotBoot.FormatLossIff` | lib_slotfs/slotfs.cpp:128-144 | format writes the configuration first: when power is lost behind that write, sfs_init takes the device for formatted, and what comes up is a valid system if and only if every slot happened to be readable before |
| `SlotRoundTrip.WriterRun` | lib_slotfs/slotfs.cpp:278-352 | any sequence of writes and flushes that fits is allowed and appends exactly the written bytes; its revision is counted |
| `SlotRoundTrip.WriteThenClose` | lib_slotfs/slotfs.cpp:192-415 | create, any writes and flushes, close: the committed file is what was written, at revision (2 + flushes + size / 2048) modulo 256 |
| `SlotRoundTrip.BootedRoundTrip` | lib_slotfs/slotfs.cpp:50-415 | the same after sfs_init on any device: one that held another configuration, or the same one with readable slots |
| `SlotRoundTrip.SmallestDevice` | lib_slotfs/slotfs.cpp:113-123 | there is such a device: one slot of one page on seven blocks |
| `SlotRoundTrip.ReopenVisible` | lib_slotfs/slotfs.cpp:215-217 | the closed file opens for reading if and only if its revision is not 0 |
| `SlotReadBack.ReaderAnswers` | lib_slotfs/slotfs.cpp:192-396 | one call, on any handle: a read handle's answer is that of its file and cursor, and a call on another handle moves neither |
| `SlotReadBack.RunAnswers` | lib_slotfs/slotfs.cpp:192-415 | over any run of calls on any handles, writers of the same slot included, everything a read handle answers is what one unchanging file and a cursor in it would |
| `SlotReadBack.ReadBack` | lib_slotfs/slotfs.cpp:192-396 | so for a closed file with a nonzero revision that is opened for reading, whatever seeks and reads follow |
| `SlotReadBack.WrittenReadsBack` | lib_slotfs/slotfs.cpp:50-415 | sfs_init on any such device, create, any writes and flushes, close, open again: that succeeds if and only if (2 + flushes + size / 2048) modulo 256 is not 0, and then every answer is of what was written |
| `SlotRoundTrip.CreateAtSlotCount` | lib_slotfs/slotfs.cpp:198-233 | opening slot number slot_count for writing succeeds and puts two metadata blocks over the first bytes of slot 0 |
| `SlotRoundTrip.WriteOpenGranted` | lib_slotfs/slotfs.cpp:220 | the signed 8-bit lock counter grants a second writer if and only if the number of handles is a multiple of 256 |
| `SlotRoundTrip.WriteThroughReader` | lib_slotfs/slotfs.cpp:280-282 | the write call does not look at the mode: a page written through a read handle replaces the start of the file on the device |
| `SlotFS.BlockPage.Put` | lib_slotfs/slotfs.cpp:296-297 | the chunk goes in at the offset, which advances; the rest of the page stays |
| `SlotFS.SlotFS.Write` | lib_slotfs/slotfs.cpp:278-318 | the loop over the page and the device is the write function of the specification, state and result |
| `SlotFS.SlotFS.Flush` | lib_slotfs/slotfs.cpp:320-352 | likewise for flush |
| `SlotFS.SlotFS.Read` | lib_slotfs/slotfs.cpp:358-396 | likewise for the read loop |
| `SlotFS.SlotFS.OpenFile` | lib_slotfs/slotfs.cpp:192-247 | likewise for open, the slot number slot_count included as long as it has a lock counter |
| `SlotFS.SlotFS.CloseFile` | lib_slotfs/slotfs.cpp:398-415 | likewise for close |
| `SlotFS.SlotFS.Seek` | lib_slotfs/slotfs.cpp:253-265 | likewise for seek |
| `SlotFS.SlotFS.Format` | lib_slotfs/slotfs.cpp:128-144 | likewise for the loop of format |
| `SlotFS.SlotFS.Init` | lib_slotfs/slotfs.cpp:50-66 | likewise for init |
| `SlotTheorems.ExistsIffOpens` | lib_slotfs/slotfs.cpp:173-218 | sfs_file_exists is true of a slot within the bound if and only if opening it for reading succeeds |
| `RingBytes.RingAppended` | lib_util/sequential_buffer.h:121-150 | bytes laid down behind the live ones, around the end of the array if need be, extend the contents by exactly those bytes |
| `SequentialBuffer.Buffer.Write` | lib_util/sequential_buffer.h:110-155 | a write appends all of its bytes to the contents and returns 0, or changes nothing and returns -1, exactly by whether they fit |
| `SequentialBuffer.Buffer.CopyIn` | lib_util/sequential_buffer.h:121-150 | the branches and copies lay the bytes down in the ring from the write pointer on |
| `SequentialBuffer.Buffer.RequestRead` | lib_util/sequential_buffer.h:183-212 | hands out the longest prefix of the contents that lies in one piece, and none only when there are none |
| `SequentialBuffer.Buffer.CommitRead` | lib_util/sequential_buffer.h:158-170 | drops exactly the committed bytes from the front of the contents |
| `SequentialBufferThreads.StepKeepsInv` | lib_util/sequential_buffer.h:109-212 | every step of either thread keeps the queue, the room a write tested for and the stretch a read handed out |
| `SequentialBufferThreads.ThreadsSeeFifo` | lib_util/sequential_buffer.h:109-212 | under every schedule, delivered bytes and ring contents together are the finished writes, whole and in order, and what the reader has seen comes next in them |
| `SequentialBufferThreads.HandedOutStable` | lib_util/sequential_buffer.h:173-212 | what request_read handed out is not overwritten before commit_read, whatever the writer does |
| `SequentialBufferThreads.TestStaysValid` | lib_util/sequential_buffer.h:112-116 | a write that passed the test without the lock still fits when it holds the lock, up to its end |
| `SequentialBufferThreads.AvailableIsStretch` | lib_util/sequential_buffer.h:184-207 | the branches compute the longest stretch of live bytes in one piece, and it is positive exactly when bytes are live |
| `CommandQueueSpec.RoomToPut` | lib_util/command_queue.h:171-258 | while a context is free, or its function runs, neither queue is full, so no put fails |
| `CommandQueueSpec.AsyncKeepsInv` | lib_util/command_queue.h:156-179 | execute_async succeeds if and only if a context is free; the function goes into one of those, last in the command queue, and every used context stays in exactly one place |
| `CommandQueueSpec.DelayedKeepsInv` | lib_util/command_queue.h:185-229 | the same for delayed and interval commands and the delayed queue, with the deadline, the id and the interval in the context |
| `CommandQueueSpec.DueMovedKeepsInv` | lib_util/command_queue.h:261-294 | the delayed queue's turn changes no context and keeps the multiset over both queues |
| `CommandQueueSpec.PoppedKeepsInv` | lib_util/command_queue.h:234-242 | the first command is run, or if it was cancelled its context is free; every used context stays in exactly one place |
| `CommandQueueSpec.FinishedKeepsInv` | lib_util/command_queue.h:243-257 | after the call the context of an interval command is last in the delayed queue with its next deadline and nothing else changed, and any other is free and in no place |
| `CommandQueue.Queue.ExecuteAsync` | lib_util/command_queue.h:156-179 | the fields and the queue are those of the specification; the return code says whether a context was free |
| `CommandQueue.Queue.ExecuteDelayed` | lib_util/command_queue.h:185-229 | likewise for the delayed and interval forms |
| `CommandQueue.Queue.EnqueueDelayedCommands` | lib_util/command_queue.h:261-294 | the pop and put loop ends, and moves the first due command over; with none due it turns the queue by one |
| `CommandQueue.Queue.Begin` | lib_util/command_queue.h:232-242 | process up to the call |
| `CommandQueue.Queue.End` | lib_util/command_queue.h:243-257 | process after the call |
| `CommandQueue.Queue.Cancel` | lib_util/command_queue.h:128-137 | marks the first context in use under the id and nothing else |
| `CommandQueueRuns.StepKeepsGood` | lib_util/command_queue.h:128-294 | every enqueue, cancel, turn, pop and end keeps the log in step with the contexts and queues |
| `CommandQueueRuns.RunKeepsGood` | lib_util/command_queue.h:128-294 | so does every run, functions that enqueue more included |
| `CommandQueueRuns.NothingLost` | lib_util/command_queue.h:139-258 | in every run from an idle queue of any size, an accepted command waits or runs in exactly one place with its own function, or has run, or was dropped for having been cancelled; a one-shot command runs once |
| `CommandQueueRuns.ContextsAreDistinct` | lib_util/command_queue.h:139-149 | in every run two pending commands never share a context |
| `CommandQueueRuns.NeverEarly` | lib_util/command_queue.h:261-294 | in every run what is called is an accepted command's own function, not before its deadline if the deadline fits the clock |
| `CommandQueueRuns.EarlyIff` | lib_util/command_queue.h:194-270 | a delay is kept in full if and only if clock reading plus delay fit in 32 bits |
| `CommandQueueRuns.CancelDooms` | lib_util/command_queue.h:128-137 | cancel dooms the command of the first context in use under the id, unless its function is just being called |
| `CommandQueueRuns.CancelledNeverRuns` | lib_util/command_queue.h:128-242 | after any run, a queued command that is cancelled never starts, in any run that follows |
| `CommandQueueRuns.PostedThenCancelled` | lib_util/command_queue.h:128-229 | after any run, post a delayed or interval command under an id that no other command in use has, cancel the id: it never starts, in any run that follows |
| `CommandQueueRuns.PostedThenSpared` | lib_util/command_queue.h:128-258 | after any run, a command that is accepted and that no later cancel finds is never dropped, in any run that follows: it waits, runs, or has run |
| `CommandQueueRuns.FirstInFirstOut` | lib_util/command_queue.h:156-294 | in every run commands come out of the command queue in the order in which they came in, by execute_async or from the delayed queue, and those still in it wait in that order |
| `CommandQueueRuns.NoOvertaking` | lib_util/command_queue.h:231-258 | a pop starts the command that came into the command queue first of all that wait, or drops it for having been cancelled, and starts no other |
| `CommandQueueDue.FirstDueMoves` | lib_util/command_queue.h:261-294 | one turn moves the first due command of the delayed queue to the end of the command queue, and none if none is due |
| `CommandQueueDue.DueComesOver` | lib_util/command_queue.h:261-294 | a due command with j others before it in the delayed queue is in the command queue after at most j + 1 turns |
| `HttpBodySpec.StepKeepsOk` | lib_http/http_parser.c:1857-2073 | the assertions in the body states hold at every byte: the counters, and that chunks come only in a chunked message |
| `HttpBodySpec.AnySplit` | lib_http/http_parser.c:702-2073 | however the bytes are cut into non-empty calls, the session ends the same |
| `HttpBodySpec.RunSplit` | lib_http/http_parser.c:702-2073 | bytes parsed in one call are bytes parsed in two |
| `HttpFraming.ChunkedBody` | lib_http/http_parser.c:1955-2073 | for all chunks, numerals in the digits the parser takes, extensions and cuttings: on_body sees the chunks' data, on_message_complete comes once, with the last byte, and any proper prefix completes nothing |
| `HttpFraming.LengthBody` | lib_http/http_parser.c:1903-1953 | exactly Content-Length bytes reach on_body, and the message completes with the last of them |
| `HttpFraming.EofBody` | lib_http/http_parser.c:1940-1944 | a response without a length takes everything up to the end of the connection, and completes there |
| `HttpFraming.NoBody` | lib_http/http_parser.c:1857-1900 | a message that is not chunked and has Content-Length 0, a request or a 1xx, 204 or 304 response without one, and one whose body is skipped complete with the line feed behind their header fields, once and with no body; the next state is the start of a message unless the connection closes |
| `HttpFraming.UpgradeLeaves` | lib_http/http_parser.c:1865-1872 | a message that changes the protocol completes there too, and the parser leaves |
| `HttpFraming.EveryMessage` | lib_http/http_parser.c:1857-1900 | every message is one of these: without a body, chunked, with a length, up to the end of the connection, or an upgrade |
| `HttpAccepts.CompletesIff` | lib_http/http_parser.c:1955-2073 | from its first size line on, a chunked message is complete with the last of some bytes, and not before, if and only if they are chunks, a last chunk and an empty trailer |
| `HttpAccepts.EndsEarly` | lib_http/http_parser.c:654-673 | a connection that ends inside a message is an error, unless the message goes up to the end of the connection |
| `HttpAccepts.DeadTakes` | lib_http/http_parser.c:708-716 | behind a message that closes the connection exactly line ends are taken, and nothing is called back |
| `HttpFraming.DigitsIff` | lib_http/http_parser.c:1971-2006 | from inside a size line: any bytes before its end are taken if and only if each is a hexadecimal digit or from 128 up, the number stays below 2^64 - 16 and the line within the header limit |
| `HttpFraming.SizeLineIff` | lib_http/http_parser.c:1955-2006 | the same for a whole size line, with the number it is taken for |
| `HttpFraming.SizeIsNumeralIff` | lib_http/http_parser.c:1955-2006 | a size line that is taken is a hexadecimal numeral if and only if it has no byte from 128 up |
| `HttpFraming.HighByteIsDigit` | lib_http/http_parser.c:1971 | one that is not: the bytes 53 and 128 are taken for the size 80 |
| `HttpParser.Parser.FramingByte` | lib_http/http_parser.c:1807-2073 | the switch over the framing states does what the byte-wise specification says |
| `HttpParser.Parser.Execute` | lib_http/http_parser.c:635-2103 | the bulk form, which skips over bodies and reports them in stretches, parses, reports and answers what the bytes one by one come to; only a stretch of chunk data before a wrong byte is not reported |
| `HttpRequest.ChunkedRequest` | lib_http/http_request.cpp:185-200 | a chunked request read in any pieces is incomplete until its last byte and then complete with exactly the chunks' data |
| `HttpRequest.LengthRequest` | lib_http/http_request.cpp:185-200 | the same for a request with a Content-Length |
| `HttpRequest.NoBodyRequest` | lib_http/http_request.cpp:185-200 | and for one without a body, which is complete with the end of its header fields |
| `HttpRequest.ClosedEarly` | lib_http/http_request.cpp:185-200 | a connection that ends before the request is complete makes it an error |
| `HttpRequest.RefusedIsError` | lib_http/http_request.cpp:185-200 | so does a byte that the parser refuses |
| `UrlSplit.ParseUrl` | lib_http/http_parser.c:2363-2464 | for every URL: the two passes and the port check accept it or not, and the fields are those they find (what that is says `UrlReference.ParsedIsSplit`), cut to 16 bits each; CONNECT has host and port only |
| `UrlReference.ParsedIsSplit` | lib_http/http_parser.c:483-629 | for every URL: what the two passes and the port check find and what they refuse is exactly what splitting at the first byte that ends each part finds and refuses, with no state machine |
| `UrlReference.SecondPassIsSplit` | lib_http/http_parser.c:2276-2355 | the same for an authority: user info up to the first at sign, a name up to the first colon or an address and a zone in brackets, a port of digits |
| `UrlReference.CharacterClasses` | lib_http/http_parser.c:416-432 | the characters that user info, hosts, addresses and zones may have |
| `UrlCompose.WholeUrl` | lib_http/http_parser.c:2363-2464 | schema :// userinfo @ host : port path ? query # fragment below 65536 bytes, of any parts of permitted characters and with a path that is empty or begins with a slash, comes apart into exactly those, and is refused if and only if the number of the port does not fit 16 bits |
| `UrlCompose.ConnectTarget` | lib_http/http_parser.c:2363-2464 | host : port is the target of CONNECT, with the same bound; without a port, or with a user info, it is refused |
| `UrlCompose.PathAlone` | lib_http/http_parser.c:2363-2464 | path ? query # fragment alone, with a path that begins with a slash or an asterisk, comes apart into exactly those |
| `UrlCompose.EveryPlace` | lib_http/http_parser.c:2363-2464 | in every URL that is taken a path has no question mark and no number sign, a query no number sign, and below 65536 bytes what is in no field is a delimiter |
| `UrlSplit.FittingIsAccepted` | lib_http/http_parser.c:2363-2464 | any URL that is taken and whose authority and port have offsets and lengths that fit 16 bits comes apart into non-empty stretches in the order of a URL, with its delimiters between them, and the port is the decimal value of its digits, at most 65535 |
| `UrlSplit.CutIff` | lib_http/http_parser.h:284-287 | the fields stored are those found if and only if all their offsets and lengths are below 65536 |
| `UrlSplit.LongPathIsCut` | lib_http/http_parser.c:2420-2430 | one that is not: the path of a slash and 65536 letters is stored with the length 1 |
| `UrlSplit.FirstPassFinds` | lib_http/http_parser.c:2376-2430 | what the first pass finds are stretches in the order of a URL |
| `UrlSplit.ParseHost` | lib_http/http_parser.c:2276-2355 | the loop and its switch do what the second pass of the specification does, cut to 16 bits |
| `UrlSplit.SecondPassFinds` | lib_http/http_parser.c:2276-2355 | the authority comes apart into user info before an at sign, a host, and a port of digits behind a colon at its end |
| `UrlSplit.HostStep` | lib_http/http_parser.c:2194-2340 | every character of the second pass keeps what has been found |
| `UrlSplit.UrlStep` | lib_http/http_parser.c:483-629 | every character of the first pass keeps what has been found |
| `UrlSplit.StrToUlReads` | lib_http/http_parser.c:2450-2457 | the number read from the port's first digit on is the value of exactly the port's digits |
| `PercentDecoding.DecodeInPlace` | lib_http/http_request.cpp:202-221 | called in place, the two cursors never read a byte already overwritten nor past the terminator, and leave the decoded string |
| `PercentDecoding.DecodeInvertsEncode` | lib_http/http_request.cpp:202-221 | every way of writing every byte string decodes to it: bytes as they are or escaped, digits of either case, and percent signs that begin no escape |
| `PercentDecoding.EveryStringIsWritten` | lib_http/http_request.cpp:202-221 | and every string is one of those |
| `PercentDecoding.UnchangedIff` | lib_http/http_request.cpp:210 | a string stays as it is if and only if no escape begins in it |
| `ResponsePump.OffersNext` | lib_http/http_server.cpp:100-171 | with nothing left dangling a turn offers the next bytes of the stream that fit, once; they are taken if and only if the socket answers that they were sent, dangle whole when it would block, and are an error otherwise |
| `ResponsePump.Dangles` | lib_http/http_server.cpp:88-100 | while a packet dangles nothing else is offered, and only the socket taking it ends that |
| `ResponsePump.DanglesOn` | lib_http/http_server.cpp:88-225 | through any turns in which the socket does not take it, it dangles unchanged |
| `ResponsePump.TurnConserves` | lib_http/http_server.cpp:88-171 | one turn of the server's loop loses and repeats nothing of what the socket takes |
| `ResponsePump.RunConserves` | lib_http/http_server.cpp:214-225 | over any turns the packets that the socket answered to have sent, and the one that dangles, are the committed prefix of header and payload, and a completed response was sent whole |
| `ResponsePump.ResponseArrives` | lib_http/http_server.cpp:88-225 | so for every response from its start, whatever the socket answers |
| `ResponsePump.CompletesIff` | lib_http/http_server.cpp:101-171 | a turn completes the response if and only if it commits the last byte of a non-empty payload and the socket takes that packet at once |
| `ResponsePump.NeverCompletesLate` | lib_http/http_server.cpp:159-163 | with everything committed, or an empty payload, no later turn completes |
| `ResponsePump.Response.GetReadPtr` | lib_http/http_response.cpp:46-65 | hands out a prefix of what is not committed, and nothing only at the end |
| `ResponsePump.Response.CommitRead` | lib_http/http_response.cpp:67-74 | advances the cursor over header and payload; complete exactly with the payload's last byte |
| `ResponsePump.Connection.FillPacket` | lib_http/http_server.cpp:126-140 | the packet is the next bytes of the stream, as many as fit, whatever pieces they come in |
| `ResponsePump.Connection.TakeTurn` | lib_http/http_server.cpp:214-225 | a turn makes the offers of the specification to the socket, and conserves the bytes it takes |
| `FrameMessage.Exchange` | lib_message/message_frame.h:153-257 | any values added in any order, finished, and read by every type: each answers with the value last added, bit for bit, or that there is none, and the counted size is enough when no type repeats |
| `FrameMessage.ReadBack` | lib_message/message_frame.h:153-176 | the reader finds every added value bit for bit, and answers that there is none for every other type |
| `FrameMessage.ReadBackSized` | lib_message/message_frame.h:153-176 | it does so from the message's own size on |
| `FrameMessage.GetData` | lib_message/message_frame.h:153-176 | the reader's loop is the search of the specification |
| `FrameMessage.SizeRightIff` | lib_message/message_frame.h:213 | the counted size is the message's size if and only if no type was added twice, and otherwise larger |
| `FrameMessage.LayoutWith` | lib_message/message_frame.h:212 | adding a value changes its own place and no other |
| `FrameMessage.WithBitHas` | lib_message/message_frame.h:211 | setting a feature bit sets that bit and no other |
| `FrameMessage.CompactKeeps` | lib_message/message_frame.h:231-234 | a type that was added stays in the compaction |
| `FrameMessage.CompactDrops` | lib_message/message_frame.h:235-238 | a type that was not is closed up by what follows it |
| `FrameMessage.SizesFit` | lib_message/message_frame.h:89-143 | where the offset templates put each of the nine types |
| `FrameMessage.Builder.Add` | lib_message/message_frame.h:206-215 | a value goes to its place, before finish only |
| `FrameMessage.Builder.Compact` | lib_message/message_frame.h:225-239 | for every list of sizes the memmove loop leaves the added values one behind the other |
| `FrameMessage.Builder.Finish` | lib_message/message_frame.h:217-246 | the buffer is a message of what was added; finishing again changes nothing |
| `FrameMessage.Builder.GetSize` | lib_message/message_frame.h:254-257 | what the counted size says, and when it is right |
| `Md5Block.FunctionF` | lib_util/md5.c:11 | the optimized F is F of RFC 1321 |
| `Md5Block.FunctionG` | lib_util/md5.c:12 | the optimized G is G of RFC 1321 |
| `Md5Block.TableMatches` | lib_util/md5.c:81-148 | the unrolled steps take words and shifts in the pattern of section 3.4 of RFC 1321 |
| `Md5Block.BlockMatches` | lib_util/md5.c:60-162 | the unrolled block function is the sixty-four operations of section 3.4 of RFC 1321 and its additions |
| `HashStream.Body` | lib_util/md5.c:60-165 | the block loop folds the block function over its data |
| `HashStream.CountsMore` | lib_util/md5.c:183-186 | the two counters are the byte count modulo 2^29 and its quotient modulo 2^32, after any piece |
| `HashStream.CountBytes` | lib_util/md5.c:237-239 | the eight bytes are the bit count modulo 2^64 |
| `HashStream.Context.Update` | lib_util/md5.c:178-210 | after any piece the registers and the buffer stand for the message so far |
| `HashStream.Context.Final` | lib_util/md5.c:218-250 | the result is the block function folded over the message padded by sections 3.1 and 3.2 of RFC 1321, in one last block or two |
| `Md5.DigestOf` | lib_util/md5.c:167-250 | for every cutting of a message into updates the digest is that of the padded message |
| `Md5Suite.DigestOfAbc` | lib_util/md5.c:60-249 | the digest of "abc" is 900150983cd24fb0d6963f7d28e17f72, as section A.5 of RFC 1321 says |
| `JsonWalk.Walk` | lib_util/json_frozen.c:784-797 | the walk succeeds if and only if the text begins with a value, spaces before it aside; it takes exactly that value, and its callbacks are the traversal of it, nested and with every token what its kind says |
| `JsonWalk.Frozen.ParseValue` | lib_util/json_frozen.c:328-368 | the next value, if there is one, is taken whole, its traversal called back and the path restored; if there is none the parse fails |
| `JsonWalk.Frozen.ParseObject` | lib_util/json_frozen.c:402-416 | the same for an object |
| `JsonWalk.Frozen.ParseArray` | lib_util/json_frozen.c:284-309 | the same for an array |
| `JsonWalk.Frozen.ParsePair` | lib_util/json_frozen.c:384-399 | the same for a key, a colon and a value |
| `JsonWalk.Frozen.ParseKey` | lib_util/json_frozen.c:371-381 | a key is an identifier or a string, called back only where the path does not end in a dot |
| `JsonWalk.Frozen.ParseString` | lib_util/json_frozen.c:232-254 | succeeds if and only if a quote, characters with valid escapes, and a quote come next, and reports what lies between the quotes |
| `JsonWalk.Frozen.ParseNumber` | lib_util/json_frozen.c:257-281 | takes the longest number there is |
| `JsonWalk.Frozen.AppendToPath` | lib_util/json_frozen.c:113-121 | the path keeps within 256 bytes with its terminator; what does not fit is cut off |
| `JsonGrammar.Unambiguous` | lib_util/json_frozen.c:205-416 | a text holds at most one value from a place on, commas or not |
| `JsonGrammar.NumberIs` | lib_util/json_frozen.c:257-281 | a number's token is a sign, digits, a fraction and an exponent |
| `JsonEvents.TraversalGood` | lib_util/json_frozen.c:97-416 | the traversal of a value is nested, every token is what its kind says, and all lies within the value |
| `JsonEvents.OwnFirstIff` | lib_util/json_frozen.c:97-111 | a value makes a callback of its own, before those inside it, if and only if its path does not end in a dot |
| `JsonEvents.KeyHides` | lib_util/json_frozen.c:97-416 | a value under a key, while the path fits its buffer, is called back if and only if the key is not empty and does not end in a dot |
| `JsonEvents.ElementNamed` | lib_util/json_frozen.c:291-297 | element i of an array is called back under the path with the decimal numeral of i in brackets, behind the elements before it |
| `JsonEvents.OneNumeral` | lib_util/json_frozen.c:293 | a number has one decimal numeral without leading zeros |
| `JsonEvents.StartHasEnd` | lib_util/json_frozen.c:284-309 | in a nested run every start has an end behind it with the same path and brackets, and a nested run between them |
| `JsonEvents.MatchedWrapped` | lib_util/json_frozen.c:402-416 | a nested run between a start and its end is nested |

## Left out

- sfs_file_allocate: it moves the cursor and clears the page, which breaks the page offset unless the size is a multiple of the page.
- sfs_deinit and the size accessor; retries after a device error: the device fails only for requests outside it.
- Power loss inside sfs_format, but for the one behind its first write (`SlotBoot.FormatLossIff`).
- Concurrent calls into one SlotFS: a run is a sequence of calls.
- Heap identity of contexts: `CommandQueue.Queue` keeps the contexts as records in a sequence field, and one field for the context whose function is being called.
- Several threads inside `find_available_func_context` at once: selection and counting are not one step in the code; here each enqueue is.
- The wait flag of execute_async, and the status a waiting thread looks at.
- Data races below whole words in the ring buffer: the free count is read and written as one word; `clear` beside a running reader or writer; the watermark event.
- Request line, header names and values, trailers, header size counting across pieces, and callbacks that return an error: the parser's states here begin at the end of the header fields and end where the next message begins.
- HttpRequest's query parameters, and read_from once the parser has left the body states.
- decode_uri_escape_sequences with two different strings, which nobody calls.
- TLS, sockets, packet contents below their bytes, timers and I2C: what the socket answers is a parameter of the turn.
- The text of the HTTP header: it is any string, empty when the status code is unknown.
- Payloads that change while they are sent; a payload hands out a fixed string in windows.
- Liveness of the response loop: only the exact condition of completing is proved.
- JsonWalk.Walk: which of the two error codes a failing walk returns, and the callbacks it has made before it fails, are not stated.
- The names passed to JSON callbacks, `json_escape`, `json_unescape`, printf and scanf forms.
- The wiping of the MD5 context is stated for its registers and counters by the code of `HashStream.Context.Final`, not by its contract.
- PacketSyncClosest, IP address parsing, discovery, battery, LED and sensor code, and the floating-point time conversion.
