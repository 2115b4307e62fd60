/** From writes to reads: what is written, flushed and closed reads back, and where the source's own checks stop short. */
module SlotRoundTrip {
  import opened Bytes
  import opened SlotMeta
  import opened SlotLayout
  import opened SlotSpec
  import opened SlotCrash
  import opened SlotWriter
  import opened SlotReader
  import opened SlotCreate
  import opened SlotSystem
  import opened SlotSteps
  import opened SlotTheorems
  import opened SlotRuns
  import opened SlotBoot

  /** What the writer of one file does between opening and closing it. */
  datatype WriterCall = Chunk(data: seq<byte>) | FlushNow

  function OpOf(h: nat, call: WriterCall): Op {
    if call.Chunk? then DoWrite(h, call.data) else DoFlush(h)
  }

  function Ops(h: nat, calls: seq<WriterCall>): seq<Op> {
    if calls == [] then [] else [OpOf(h, calls[0])] + Ops(h, calls[1..])
  }

  function Written(calls: seq<WriterCall>): seq<byte> {
    if calls == [] then [] else (if calls[0].Chunk? then calls[0].data else []) + Written(calls[1..])
  }

  function Flushes(calls: seq<WriterCall>): nat {
    if calls == [] then 0 else (if calls[0].FlushNow? then 1 else 0) + Flushes(calls[1..])
  }

  /** Handle h writes slot `slot`; its stream and revision are these. */
  ghost predicate WriterAt(c: Config, sys: System, h: nat, slot: nat, stream: seq<byte>, revision: nat) {
    && Inv(c, sys) && h in sys.files && sys.files[h].mode.WriteCreate? && sys.files[h].slot == slot
    && sys.files[h].md.revision == revision && HandlesOn(sys.files, slot) == {h}
    && slot < |sys.streams| && sys.streams[slot] == stream
  }

  lemma ChunkRun(c: Config, sys: System, h: nat, slot: nat, stream: seq<byte>, revision: nat, data: seq<byte>)
    requires WriterAt(c, sys, h, slot, stream, revision) && Fits(c) && |stream| + |data| <= SlotSize(c)
    ensures Allowed(c, sys, DoWrite(h, data))
    ensures WriterAt(c, Step(c, sys, DoWrite(h, data)).0, h, slot, stream + data,
                     (revision + PagesFilled(|stream + data|) - PagesFilled(|stream|)) % 256)
  {
    hide Inv, Step, Tracked, SlotSize, PagesFilled, HandlesOn;
    WriteAppends(c, sys, h, data);
    var sys1 := Step(c, sys, DoWrite(h, data)).0;
    HandlesReplaced(sys.files, h, sys1.files[h], slot);
  }

  lemma FlushRun(c: Config, sys: System, h: nat, slot: nat, stream: seq<byte>, revision: nat)
    requires WriterAt(c, sys, h, slot, stream, revision)
    ensures Allowed(c, sys, DoFlush(h))
    ensures WriterAt(c, Step(c, sys, DoFlush(h)).0, h, slot, stream, (revision + 1) % 256)
  {
    hide Inv, Step, Tracked, CommittedSize, HandlesOn;
    FlushStep(c, sys, h);
    var sys1 := Step(c, sys, DoFlush(h)).0;
    HandlesReplaced(sys.files, h, sys1.files[h], slot);
  }

  lemma SumMod(a: nat, x: nat, b: nat)
    ensures ((a + x) % 256 + b) % 256 == (a + x + b) % 256
  {}

  /** Any sequence of writes and flushes appends exactly the chunks and counts the flushes. */
  lemma {:induction false} WriterRun(c: Config, sys: System, h: nat, slot: nat, stream: seq<byte>, revision: nat, calls: seq<WriterCall>)
    requires WriterAt(c, sys, h, slot, stream, revision % 256) && Fits(c) && |stream| + |Written(calls)| <= SlotSize(c)
    ensures Legal(c, sys, Ops(h, calls))
    ensures WriterAt(c, Run(c, sys, Ops(h, calls)), h, slot, stream + Written(calls),
                     (revision + Flushes(calls) + PagesFilled(|stream + Written(calls)|) - PagesFilled(|stream|)) % 256)
    decreases |calls|
  {
    hide *;
    WriterAtInv(c, sys, h, slot, stream, revision % 256);
    if calls == [] {
      NoCalls(c, sys, h, calls);
      assert stream + Written(calls) == stream;
    } else {
      var rest := calls[1..];
      WriterCallsUnfold(h, calls);
      var op := OpOf(h, calls[0]);
      var data := if calls[0].Chunk? then calls[0].data else [];
      var more := stream + data;
      assert more + Written(rest) == stream + Written(calls);
      PagesGrow(|stream|, |data|);
      PagesGrow(|more|, |Written(rest)|);
      var pages := PagesFilled(|more|) - PagesFilled(|stream|);
      var revision1 := revision + pages + if calls[0].FlushNow? then 1 else 0;
      if calls[0].Chunk? {
        ChunkRun(c, sys, h, slot, stream, revision % 256, data);
        SumMod(0, revision, pages);
      } else {
        FlushRun(c, sys, h, slot, stream, revision % 256);
        SumMod(0, revision, 1);
        assert more == stream;
      }
      WriterRun(c, Step(c, sys, op).0, h, slot, more, revision1, rest);
      LegalStep(c, sys, op, Ops(h, rest));
    }
  }

  lemma NoCalls(c: Config, sys: System, h: nat, calls: seq<WriterCall>)
    requires Inv(c, sys) && calls == []
    ensures Ops(h, calls) == [] && Written(calls) == [] && Flushes(calls) == 0
    ensures Legal(c, sys, Ops(h, calls)) && Run(c, sys, Ops(h, calls)) == sys
  {
    hide Inv;
  }

  lemma WriterAtInv(c: Config, sys: System, h: nat, slot: nat, stream: seq<byte>, revision: nat)
    requires WriterAt(c, sys, h, slot, stream, revision)
    ensures Inv(c, sys) && h in sys.files && sys.files[h].mode.WriteCreate? && sys.files[h].slot == slot < |sys.streams|
    ensures sys.streams[slot] == stream && sys.files[h].md.revision == revision && HandlesOn(sys.files, slot) == {h}
  {
    hide Inv, HandlesOn;
  }

  lemma WriterCallsUnfold(h: nat, calls: seq<WriterCall>)
    requires calls != []
    ensures Ops(h, calls) == [OpOf(h, calls[0])] + Ops(h, calls[1..])
    ensures Written(calls) == (if calls[0].Chunk? then calls[0].data else []) + Written(calls[1..])
    ensures Flushes(calls) == (if calls[0].FlushNow? then 1 else 0) + Flushes(calls[1..])
    ensures calls[0].Chunk? ==> OpOf(h, calls[0]) == DoWrite(h, calls[0].data)
    ensures calls[0].FlushNow? ==> OpOf(h, calls[0]) == DoFlush(h)
  {}

  /** A closed slot that shows all of `file`. */
  ghost predicate ClosedAt(c: Config, sys: System, h: nat, slot: nat, file: seq<byte>, revision: nat) {
    && Inv(c, sys) && h !in sys.files && HandlesOn(sys.files, slot) == {}
    && slot < |sys.streams| && slot < c.slotCount && OnDevice(c, sys.device.bytes)
    && sys.streams[slot] == file
    && View(c, sys.device.bytes, slot).Some?
    && View(c, sys.device.bytes, slot).value.content == file
    && View(c, sys.device.bytes, slot).value.md.revision == revision
    && View(c, sys.device.bytes, slot).value.md.fileSize == |file|
  }

  lemma CloseRun(c: Config, sys: System, h: nat, slot: nat, stream: seq<byte>, revision: nat)
    requires WriterAt(c, sys, h, slot, stream, revision)
    ensures Allowed(c, sys, DoClose(h))
    ensures ClosedAt(c, Step(c, sys, DoClose(h)).0, h, slot, stream, (revision + 1) % 256)
  {
    hide *;
    WriterAtInv(c, sys, h, slot, stream, revision);
    AllowedClose(c, sys, h);
    CloseWriterStep(c, sys, h);
    RevisionIs(revision);
    var sys1 := Step(c, sys, DoClose(h)).0;
    InvParts(c, sys1);
    SlotIn(c, sys1.device.bytes, sys1.streams, slot);
    SlotOkShows(c, sys1.device.bytes, slot, stream);
    var md :| CurrentIs(c, sys1.device.bytes, slot, md) && md.revision == NextRevision(sys.files[h].md.revision);
    HandleGone(sys.files, h, slot);
    ClosedFrom(c, sys1, h, slot, stream, md);
  }

  lemma HandleGone(files: map<nat, File>, h: nat, slot: nat)
    requires HandlesOn(files, slot) == {h}
    ensures HandlesOn(files - {h}, slot) == {}
  {
    forall k ensures k !in HandlesOn(files - {h}, slot) {
      assert k in HandlesOn(files - {h}, slot) ==> k in HandlesOn(files, slot);
    }
  }

  lemma AllowedClose(c: Config, sys: System, h: nat)
    ensures Allowed(c, sys, DoClose(h))
  {}

  lemma ClosedFrom(c: Config, sys: System, h: nat, slot: nat, file: seq<byte>, md: MetaData)
    requires Inv(c, sys) && h !in sys.files && HandlesOn(sys.files, slot) == {} && slot < |sys.streams| && CurrentIs(c, sys.device.bytes, slot, md)
    requires slot < c.slotCount && OnDevice(c, sys.device.bytes) && sys.streams[slot] == file
    requires PairOf(c, sys.device.bytes, slot).Current().Some?
    requires var v := View(c, sys.device.bytes, slot);
             && v.Some? && PairOf(c, sys.device.bytes, slot).Current() == Some(v.value.md)
             && v.value.md.fileSize == |v.value.content| == |file| && v.value.content <= file
    ensures ClosedAt(c, sys, h, slot, file, md.revision)
  {
    hide Inv, View, PairOf, Pair.Current, HandlesOn;
  }

  lemma FreeSlotAllows(c: Config, sys: System, h: nat, slot: nat, mode: Mode)
    requires HandlesOn(sys.files, slot) == {} && slot < c.slotCount
    ensures Allowed(c, sys, DoOpen(h, slot, mode))
  {}

  lemma CreatedWriter(c: Config, sys: System, sys1: System, h: nat, slot: nat)
    requires Fits(c) && h !in sys.files && slot < |sys.streams| && HandlesOn(sys.files, slot) == {} && Inv(c, sys1)
    requires sys1.streams == sys.streams[slot := []]
    requires sys1.files == sys.files[h := Opened(slot, CreatedMeta(c, slot), WriteCreate)]
    ensures WriterAt(c, sys1, h, slot, [], 1)
  {
    hide Inv;
    assert HandlesOn(sys1.files, slot) == HandlesOn(sys.files, slot) + {h};
  }

  lemma {:induction false} RunConcat(c: Config, sys: System, ops: seq<Op>, last: Op)
    requires Legal(c, sys, ops) && Inv(c, Run(c, sys, ops)) && Allowed(c, Run(c, sys, ops), last)
    ensures Legal(c, sys, ops + [last])
    ensures Run(c, sys, ops + [last]) == Step(c, Run(c, sys, ops), last).0
    decreases |ops|
  {
    if ops == [] {
      hide Inv, Step, Allowed;
      assert [] + [last] == [last] + [];
      StepKeepsInv(c, sys, last);
      LegalStep(c, sys, last, []);
    } else {
      hide Inv, Step, Allowed;
      var sys1 := Step(c, sys, ops[0]).0;
      RunConcat(c, sys1, ops[1..], last);
      assert ops + [last] == [ops[0]] + (ops[1..] + [last]);
      LegalStep(c, sys, ops[0], ops[1..] + [last]);
    }
  }

  lemma ClosedParts(c: Config, sys: System, h: nat, slot: nat, file: seq<byte>, revision: nat)
    requires ClosedAt(c, sys, h, slot, file, revision)
    ensures Inv(c, sys) && h !in sys.files && HandlesOn(sys.files, slot) == {} && slot < |sys.streams| && slot < c.slotCount
    ensures OnDevice(c, sys.device.bytes) && sys.streams[slot] == file
    ensures var v := View(c, sys.device.bytes, slot);
            v.Some? && v.value.content == file && v.value.md.revision == revision && v.value.md.fileSize == |file|
  {
    hide Inv, HandlesOn, View;
  }

  /** The run `ops` is legal and leaves slot `slot` closed, showing `file`. */
  ghost predicate RunsToClosed(c: Config, sys: System, ops: seq<Op>, h: nat, slot: nat, file: seq<byte>, revision: nat) {
    Legal(c, sys, ops) && ClosedAt(c, Run(c, sys, ops), h, slot, file, revision)
  }

  lemma RunsToClosedFrom(c: Config, sys: System, ops: seq<Op>, h: nat, slot: nat, file: seq<byte>, revision: nat)
    requires Legal(c, sys, ops) && ClosedAt(c, Run(c, sys, ops), h, slot, file, revision)
    ensures RunsToClosed(c, sys, ops, h, slot, file, revision)
  {
    hide Legal, ClosedAt;
  }

  lemma PagesIs(size: nat)
    ensures PagesFilled(size) == size / PAGE_SIZE && PagesFilled(0) == 0
  {}

  function CreateWriteClose(h: nat, slot: nat, calls: seq<WriterCall>): seq<Op> {
    [DoOpen(h, slot, WriteCreate)] + (Ops(h, calls) + [DoClose(h)])
  }

  /** The 8-bit revision counts 2 for creating and closing, one a flush, one a filled page. */
  function RevisionOf(calls: seq<WriterCall>): nat { (2 + Flushes(calls) + |Written(calls)| / PAGE_SIZE) % 256 }

  lemma WritesAre(h: nat, slot: nat, calls: seq<WriterCall>)
    ensures CreateWriteClose(h, slot, calls) == [DoOpen(h, slot, WriteCreate)] + (Ops(h, calls) + [DoClose(h)])
    ensures RevisionOf(calls) == (2 + Flushes(calls) + PagesFilled(|Written(calls)|)) % 256
  {
    hide Ops, Flushes, Written;
  }

  /** A file written in any chunks, with any flushes between, and closed is all there. */
  lemma WriteThenClose(c: Config, sys: System, h: nat, slot: nat, calls: seq<WriterCall>)
    requires Inv(c, sys) && h !in sys.files && slot < |sys.streams| && HandlesOn(sys.files, slot) == {}
    requires Fits(c) && |Written(calls)| <= SlotSize(c)
    ensures RunsToClosed(c, sys, CreateWriteClose(h, slot, calls), h, slot, Written(calls), RevisionOf(calls))
  {
    hide *;
    var w := Written(calls);
    WritesAre(h, slot, calls);
    PagesIs(|w|);
    InvParts(c, sys);
    FreeSlotAllows(c, sys, h, slot, WriteCreate);
    OpenWriteStep(c, sys, h, slot);
    var s1 := Step(c, sys, DoOpen(h, slot, WriteCreate)).0;
    CreatedWriter(c, sys, s1, h, slot);
    assert [] + w == w;
    SumMod(0, 0, 1);
    WriterRun(c, s1, h, slot, [], 1, calls);
    var s2 := Run(c, s1, Ops(h, calls));
    var revision := (1 + Flushes(calls) + PagesFilled(|w|)) % 256;
    WriterAtInv(c, s2, h, slot, w, revision);
    CloseRun(c, s2, h, slot, w, revision);
    SumMod(0, 1 + Flushes(calls) + PagesFilled(|w|), 1);
    RunConcat(c, s1, Ops(h, calls), DoClose(h));
    LegalStep(c, sys, DoOpen(h, slot, WriteCreate), Ops(h, calls) + [DoClose(h)]);
    RunsToClosedFrom(c, sys, CreateWriteClose(h, slot, calls), h, slot, w, (revision + 1) % 256);
  }

  /** On any device: bring it up, create a file, write it in any chunks with any flushes, close it. The device may have held
      anything under another configuration; under this one its slots must be readable. */
  lemma BootedRoundTrip(c: Config, d: Device, h: nat, slot: nat, calls: seq<WriterCall>)
    requires OnDevice(c, d.bytes) && Paged(c) && slot < c.slotCount && |Written(calls)| <= SlotSize(c)
    requires ConfigOn(c, d.bytes) == c ==> Mountable(c, d.bytes)
    ensures RunsToClosed(c, Booted(c, d), CreateWriteClose(h, slot, calls), h, slot, Written(calls), RevisionOf(calls))
  {
    hide RunsToClosed, Inv, Booted, Written, CreateWriteClose, RevisionOf, SlotSize, Paged, ConfigOn, Mountable;
    BootedIff(c, d);
    var sys := Booted(c, d);
    assert HandlesOn(sys.files, slot) == {};
    WriteThenClose(c, sys, h, slot, calls);
  }

  /** The smallest such device: seven blocks, one slot, one page, and nothing on it. */
  lemma SmallestDevice() returns (c: Config, d: Device)
    ensures OnDevice(c, d.bytes) && ConfigOn(c, d.bytes) != c
    ensures OnDevice(c, d.bytes) && Paged(c) && c.slotCount == 1 && SlotSize(c) == PAGE_SIZE && |d.bytes| == 7 * BLOCK_SIZE
  {
    c, d := Config(1, 0, 3584), Device(Zeros(3584), []);
    assert Quotient(Quotient(2048, 1), BLOCK_SIZE) == 4;
    RegionInside(c, ConfigBlock);
    var block := Content(c, d.bytes, ConfigBlock);
    assert block[..8] == Zeros(8);
    ZeroIsZero(8);
  }

  lemma {:induction false} ZeroIsZero(k: nat)
    ensures FromLE(Zeros(k)) == 0
  {
    if k > 0 {
      assert Zeros(k)[1..] == Zeros(k - 1);
      ZeroIsZero(k - 1);
    }
  }

  /** A closed file can be opened for reading exactly when its revision has not come round to zero. */
  lemma ReopenVisible(c: Config, sys: System, h: nat, slot: nat, file: seq<byte>, revision: nat)
    requires ClosedAt(c, sys, h, slot, file, revision)
    ensures Inv(c, sys) && Allowed(c, sys, DoOpen(h, slot, Mode.Read))
    ensures Step(c, sys, DoOpen(h, slot, Mode.Read)).1.rc.Success? <==> revision != 0
  {
    hide *;
    ClosedParts(c, sys, h, slot, file, revision);
    FreeSlotAllows(c, sys, h, slot, Mode.Read);
    OpenReadStep(c, sys, h, slot);
  }

  lemma ReadReturnsIs(sys: System, sys': System, h: nat, size: nat, r: Response)
    requires ReadReturns(sys, sys', h, size, r)
    ensures h in sys.files && sys.files[h].slot < |sys.streams|
    ensures var f := sys.files[h];
            && f.cursor <= f.md.fileSize <= |sys.streams[f.slot]|
            && var n := if size <= f.md.fileSize - f.cursor then size else f.md.fileSize - f.cursor;
               && r.data == sys.streams[f.slot][f.cursor..f.cursor + n]
               && r.rc == (if size <= f.md.fileSize - f.cursor then Success else SuccessEof)
  {
    hide Moved;
  }

  // ---- where the source relies on its callers ----

  /** With any number of handles open, opening for writing is granted exactly when their number is a multiple
      of 256: the 8-bit counter excludes a second user of the slot only below that. */
  lemma WriteOpenGranted(c: Config, d: Device, locks: seq<int>, files: map<nat, File>, slot: nat)
    requires OnDevice(c, d.bytes) && slot < c.slotCount && LocksOk(locks, files)
    ensures Open(c, d, locks, slot, WriteCreate, CLOSED).rc.Success? <==> |HandlesOn(files, slot)| % 256 == 0
  {
    hide *;
    CreateCommits(c, d, slot);
    Int8Counts(|HandlesOn(files, slot)|);
    SlotsBelowMax(c, d.bytes);
    LockIs(locks, files, slot);
    OpenForWriting(c, d, locks, slot);
  }

  lemma SlotsBelowMax(c: Config, bytes: seq<byte>)
    requires OnDevice(c, bytes)
    ensures Fits(c) && c.slotCount <= MAX_SLOTS
  {}

  lemma OpenForWriting(c: Config, d: Device, locks: seq<int>, slot: nat)
    requires Fits(c) && slot < c.slotCount && |locks| == MAX_SLOTS
    requires WriteMeta(c, d, slot, CreatedMeta(c, slot), 0).1
    requires WriteMeta(c, WriteMeta(c, d, slot, CreatedMeta(c, slot), 0).0, slot, CreatedMeta(c, slot), 1).1
    ensures Open(c, d, locks, slot, WriteCreate, CLOSED).rc.Success? <==> locks[slot] == 0
  {
    hide WriteMeta;
  }

  /** `sfs_file_open` lets slot number `slotCount` through: creating a file there succeeds, and writes its two metadata blocks over
      the first bytes of slot 0. */
  lemma CreateAtSlotCount(c: Config, d: Device, locks: seq<int>)
    requires OnDevice(c, d.bytes) && PAGE_SIZE <= SlotSize(c)
    requires |locks| == MAX_SLOTS && c.slotCount < MAX_SLOTS && locks[c.slotCount] == 0
    ensures var r := Open(c, d, locks, c.slotCount, WriteCreate, CLOSED);
            var block := Encode(CreatedMeta(c, c.slotCount));
            && r.rc.Success? && |r.device.bytes| == |d.bytes|
            && Content(c, r.device.bytes, DataArea(0))[..2 * BLOCK_SIZE] == block + block
  {
    hide Encode, Content, SlotSize;
    var block := Encode(CreatedMeta(c, c.slotCount));
    WriteWithinRegion(c, d.bytes, DataArea(0), 0, block);
    var d1 := WriteMeta(c, d, c.slotCount, CreatedMeta(c, c.slotCount), 0).0;
    WriteWithinRegion(c, d1.bytes, DataArea(0), BLOCK_SIZE, block);
  }

  /** `sfs_file_write` does not look at the mode: a page written through a read handle replaces the start of
      the file on the device. */
  lemma WriteThroughReader(c: Config, sys: System, h: nat, data: seq<byte>)
    requires Inv(c, sys) && h in sys.files && sys.files[h].mode.Read? && |data| == PAGE_SIZE
    requires sys.files[h].cursor == 0 && sys.files[h].page.Some? && sys.files[h].page.value.offset == 0
    requires sys.files[h].slot < c.slotCount && OnDevice(c, sys.device.bytes) && PAGE_SIZE <= SlotSize(c) && Sound(sys.files[h])
    ensures var slot := sys.files[h].slot;
            var r := Write(c, sys.device, sys.files[h], data);
            && r.rc.Success? && |r.device.bytes| == |sys.device.bytes|
            && Content(c, r.device.bytes, DataArea(slot))[..PAGE_SIZE] == data
  {
    hide *;
    ReaderFacts(c, sys, h);
    var f := sys.files[h];
    var file := sys.streams[f.slot][..f.md.fileSize];
    ReadingFacts(c, f, file);
    RoomInSane(c, f, file);
    PageAddressIs(c, f, 0);
    PageStartBound(0);
    FullPageThroughReader(c, sys.device, f, data);
    PageOnDevice(c, sys.device, f.slot, data);
  }

  lemma PageOnDevice(c: Config, d: Device, slot: nat, data: seq<byte>)
    requires OnDevice(c, d.bytes) && slot < c.slotCount && |data| == PAGE_SIZE <= SlotSize(c)
    ensures var (d1, ok) := WriteDevice(d, DataAddress(c, slot), data);
            ok && |d1.bytes| == |d.bytes| && Content(c, d1.bytes, DataArea(slot))[..PAGE_SIZE] == data
  {
    hide SlotSize, Content;
    WriteWithinRegion(c, d.bytes, DataArea(slot), 0, data);
  }

  lemma FullPageThroughReader(c: Config, d: Device, f: File, data: seq<byte>)
    requires Sound(f) && f.page.Some? && f.mode.Read? && f.page.value.offset == 0 && |data| == PAGE_SIZE
    requires PAGE_SIZE <= f.md.maxAddress - f.md.startAddress - f.cursor
    ensures var (d1, ok) := WriteDevice(d, PageAddress(f), data);
            ok ==> Write(c, d, f, data).device == d1 && Write(c, d, f, data).rc.Success?
  {
    hide WriteDevice, PageAddress;
    var page := f.page.value;
    assert data[..PAGE_SIZE] == data && data[PAGE_SIZE..] == [];
    assert Splice(page.data, 0, data) == data;
    WriteLoopTurn(c, d, f, data, 0);
    var r := WriteChunk(c, d, f, data);
    if r.rc.Success? { WriteLoopTurn(c, r.device, r.file, [], PAGE_SIZE); }
  }

  lemma RoomInSane(c: Config, f: File, file: seq<byte>)
    requires Reading(c, f, file)
    ensures f.md.maxAddress - f.md.startAddress == SlotSize(c)
  {
    hide SlotSize, DataAddress;
  }
}
