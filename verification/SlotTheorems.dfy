/** The main results about SlotFS: what each call does to the reference streams, over every run; reader
    stability; recovery after power loss at any point; the round trip from writes to reads. */
module SlotTheorems {
  import opened Bytes
  import opened SlotMeta
  import opened SlotLayout
  import opened SlotSpec
  import opened SlotCrash
  import opened SlotCommit
  import opened SlotWriter
  import opened SlotReader
  import opened SlotCreate
  import opened SlotSystem
  import opened SlotSteps

  // ---- the calls, one by one, against the reference streams ----

  /** The device since the call began: only slot `slot` changed, every crash image shows a prefix of `stream`. */
  ghost predicate Tracked(c: Config, sys: System, sys': System, slot: nat, stream: seq<byte>) {
    && OnDevice(c, sys.device.bytes) && slot < c.slotCount
    && Track(c, sys.device, sys'.device, slot, CommittedSize(c, sys.device.bytes, slot), stream)
  }

  lemma WriterIsActive(c: Config, sys: System, h: nat)
    requires Inv(c, sys) && h in sys.files && sys.files[h].mode.WriteCreate?
    ensures var f := sys.files[h];
            && f.slot < |sys.streams| == c.slotCount && OnDevice(c, sys.device.bytes)
            && CommittedSize(c, sys.device.bytes, f.slot) == f.md.fileSize
            && Active(c, sys.device, sys.device, f, f.md.fileSize, sys.streams[f.slot])
  {
    hide *;
    var f := sys.files[h];
    InvParts(c, sys);
    HandleIn(c, sys.device.bytes, sys.files, sys.streams, h);
    var stream := sys.streams[f.slot];
    WritingFacts(c, sys.device.bytes, f, stream);
    CommittedIsSlotOk(c, sys.device.bytes, f.slot, f.md, stream);
    OthersSameReflexive(c, sys.device.bytes, f.slot);
    CommittedIsGood(c, sys.device.bytes, sys.device.bytes, f.slot, f.md, f.md.fileSize, stream);
    SafeStart(c, sys.device, f.slot, f.md.fileSize, stream);
    TrackFrom(c, sys.device, sys.device, f.slot, f.md.fileSize, stream);
    ActiveFrom(c, sys.device, sys.device, f, f.md.fileSize, stream);
  }

  lemma TrackFrom(c: Config, d0: Device, d: Device, slot: nat, low: nat, stream: seq<byte>)
    requires OnDevice(c, d0.bytes) && slot < c.slotCount && OthersSame(c, d0.bytes, d.bytes, slot) && Safe(c, d0, d, slot, low, stream)
    ensures Track(c, d0, d, slot, low, stream)
  {
    hide OthersSame, Safe;
  }

  lemma TrackParts(c: Config, d0: Device, d: Device, slot: nat, low: nat, stream: seq<byte>)
    requires Track(c, d0, d, slot, low, stream)
    ensures OnDevice(c, d0.bytes) && slot < c.slotCount && OthersSame(c, d0.bytes, d.bytes, slot) && Safe(c, d0, d, slot, low, stream)
  {
    hide OthersSame, Safe;
  }

  /** Write: all of the data is appended to the stream, or nothing happens when it does not fit. */
  lemma WriteAppends(c: Config, sys: System, h: nat, data: seq<byte>)
    requires Inv(c, sys) && h in sys.files && sys.files[h].mode.WriteCreate? && Allowed(c, sys, DoWrite(h, data))
    ensures var slot := sys.files[h].slot;
            var (sys', r) := Step(c, sys, DoWrite(h, data));
            && slot < |sys.streams|
            && if |sys.streams[slot]| + |data| <= SlotSize(c) then
                 && r.rc.Success?
                 && sys'.streams == sys.streams[slot := sys.streams[slot] + data]
                 && Inv(c, sys') && Tracked(c, sys, sys', slot, sys'.streams[slot])
                 && WriterMoved(sys, sys', h, PagesFilled(|sys'.streams[slot]|) - PagesFilled(|sys.streams[slot]|))
               else r.rc.ErrorWrite? && sys' == sys
  {
    hide *;
    WriterIsActive(c, sys, h);
    var f, d := sys.files[h], sys.device;
    var stream := sys.streams[f.slot];
    ActiveFacts(c, d, d, f, f.md.fileSize, stream);
    StepWrite(c, sys, h, data);
    WriteLoopAppends(c, d, d, f, f.md.fileSize, stream, data, 0);
    var r := WriteLoop(c, d, f, data, 0);
    if |stream| + |data| <= SlotSize(c) {
      ActiveParts(c, d, r.device, r.file, f.md.fileSize, stream + data);
      TrackParts(c, d, r.device, f.slot, f.md.fileSize, stream + data);
      ActiveFacts(c, d, r.device, r.file, f.md.fileSize, stream + data);
      WriterStep(c, sys, h, r.device, r.file, stream + data);
      TrackedFrom(c, sys, Step(c, sys, DoWrite(h, data)).0, f.slot, stream + data);
      WriterMovedFrom(sys, Step(c, sys, DoWrite(h, data)).0, h, r.file, PagesFilled(|stream + data|) - PagesFilled(|stream|));
    } else {
      assert sys.files[h := f] == sys.files;
    }
  }

  /** Writer h is still open on its slot, `flushes` revisions further; no other handle changed. */
  ghost predicate WriterMoved(sys: System, sys': System, h: nat, flushes: int) {
    && h in sys.files && h in sys'.files && sys'.files == sys.files[h := sys'.files[h]]
    && sys'.files[h].mode.WriteCreate? && sys'.files[h].slot == sys.files[h].slot
    && sys'.files[h].md.revision == (sys.files[h].md.revision + flushes) % 256
  }

  lemma WriterMovedFrom(sys: System, sys': System, h: nat, f: File, flushes: int)
    requires h in sys.files && sys'.files == sys.files[h := f] && f.mode.WriteCreate? && f.slot == sys.files[h].slot
    requires f.md.revision == (sys.files[h].md.revision + flushes) % 256
    ensures WriterMoved(sys, sys', h, flushes)
  {}

  lemma TrackedFrom(c: Config, sys: System, sys': System, slot: nat, stream: seq<byte>)
    requires OnDevice(c, sys.device.bytes) && slot < c.slotCount
    requires Track(c, sys.device, sys'.device, slot, CommittedSize(c, sys.device.bytes, slot), stream)
    ensures Tracked(c, sys, sys', slot, stream)
  {
    hide Track, CommittedSize;
  }

  lemma StepWrite(c: Config, sys: System, h: nat, data: seq<byte>)
    requires Inv(c, sys) && Allowed(c, sys, DoWrite(h, data)) && h in sys.files
    requires Sound(sys.files[h]) && sys.files[h].page.Some? && sys.files[h].slot < |sys.streams|
    ensures var f := sys.files[h];
            var r := WriteLoop(c, sys.device, f, data, 0);
            var streams := if r.rc.Success? then sys.streams[f.slot := sys.streams[f.slot] + data] else sys.streams;
            Step(c, sys, DoWrite(h, data)) == (System(r.device, sys.locks, sys.files[h := r.file], streams), Response(r.rc, []))
  {
    hide Inv, WriteLoop, Allowed;
  }

  ghost predicate CurrentIs(c: Config, bytes: seq<byte>, slot: nat, md: MetaData) {
    OnDevice(c, bytes) && slot < c.slotCount && PairOf(c, bytes, slot).Current() == Some(md)
  }

  lemma CommittedIsCurrent(c: Config, bytes: seq<byte>, slot: nat, md: MetaData, stream: seq<byte>)
    requires Committed(c, bytes, slot, md, stream)
    ensures CurrentIs(c, bytes, slot, md)
  {
    hide PairOf, Content;
  }

  lemma FlushOfWriter(c: Config, sys: System, h: nat)
    requires Inv(c, sys) && h in sys.files && sys.files[h].mode.WriteCreate?
    ensures var f := sys.files[h];
            var r := Flush(c, sys.device, f);
            && f.slot < |sys.streams| && r.rc.Success? && r.file == f.(md := r.file.md)
            && r.file.md.revision == NextRevision(f.md.revision)
            && CurrentIs(c, r.device.bytes, f.slot, r.file.md)
            && CommittedSize(c, r.device.bytes, f.slot) == |sys.streams[f.slot]|
            && var sys1 := System(r.device, sys.locks, sys.files[h := r.file], sys.streams);
               Inv(c, sys1) && Tracked(c, sys, sys1, f.slot, sys.streams[f.slot])
  {
    hide *;
    WriterIsActive(c, sys, h);
    var f, d := sys.files[h], sys.device;
    var stream := sys.streams[f.slot];
    ActiveFacts(c, d, d, f, f.md.fileSize, stream);
    FlushCommits(c, d, d, f, f.md.fileSize, stream);
    var r := Flush(c, d, f);
    NextMetaSize(f.md, |stream|);
    ActiveParts(c, d, r.device, r.file, f.md.fileSize, stream);
    TrackParts(c, d, r.device, f.slot, f.md.fileSize, stream);
    WritingFacts(c, r.device.bytes, r.file, stream);
    CommittedIsSlotOk(c, r.device.bytes, f.slot, r.file.md, stream);
    CommittedIsCurrent(c, r.device.bytes, f.slot, r.file.md, stream);
    WriterStep(c, sys, h, r.device, r.file, stream);
    assert sys.streams[f.slot := stream] == sys.streams;
    TrackedFrom(c, sys, System(r.device, sys.locks, sys.files[h := r.file], sys.streams), f.slot, stream);
  }

  /** Flush: everything written so far is committed. */
  lemma FlushStep(c: Config, sys: System, h: nat)
    requires Inv(c, sys) && h in sys.files && sys.files[h].mode.WriteCreate? && Allowed(c, sys, DoFlush(h))
    ensures var slot := sys.files[h].slot;
            var (sys', r) := Step(c, sys, DoFlush(h));
            && slot < |sys.streams| && r.rc.Success? && sys'.streams == sys.streams
            && CommittedSize(c, sys'.device.bytes, slot) == |sys.streams[slot]|
            && Inv(c, sys') && Tracked(c, sys, sys', slot, sys.streams[slot])
            && WriterMoved(sys, sys', h, 1)
  {
    hide *;
    FlushOfWriter(c, sys, h);
    StepFlush(c, sys, h);
    RevisionIs(sys.files[h].md.revision);
    WriterMovedFrom(sys, Step(c, sys, DoFlush(h)).0, h, Flush(c, sys.device, sys.files[h]).file, 1);
  }

  lemma StepFlush(c: Config, sys: System, h: nat)
    requires Inv(c, sys) && Allowed(c, sys, DoFlush(h)) && h in sys.files
    ensures var r := Flush(c, sys.device, sys.files[h]);
            Step(c, sys, DoFlush(h)) == (System(r.device, sys.locks, sys.files[h := r.file], sys.streams), Response(r.rc, []))
  {
    hide Inv, Flush;
  }

  /** Closing a writer commits everything and frees the handle. */
  lemma CloseWriterStep(c: Config, sys: System, h: nat)
    requires Inv(c, sys) && h in sys.files && sys.files[h].mode.WriteCreate? && Allowed(c, sys, DoClose(h))
    ensures var slot := sys.files[h].slot;
            var (sys', r) := Step(c, sys, DoClose(h));
            && slot < |sys.streams| && r.rc.Success? && sys'.streams == sys.streams && sys'.files == sys.files - {h}
            && CommittedSize(c, sys'.device.bytes, slot) == |sys.streams[slot]|
            && (exists md :: CurrentIs(c, sys'.device.bytes, slot, md) && md.revision == NextRevision(sys.files[h].md.revision))
            && Inv(c, sys') && Tracked(c, sys, sys', slot, sys.streams[slot])
  {
    hide *;
    FlushOfWriter(c, sys, h);
    var f := sys.files[h];
    var r := Flush(c, sys.device, f);
    var sys1 := System(r.device, sys.locks, sys.files[h := r.file], sys.streams);
    InvParts(c, sys1);
    WriterIsActive(c, sys, h);
    ActiveFacts(c, sys.device, sys.device, f, f.md.fileSize, sys.streams[f.slot]);
    StepCloseWriter(c, sys, h);
    RemoveHandle(c, sys1, h);
    assert sys1.files - {h} == sys.files - {h};
    TrackedSameDevice(c, sys, sys1, Step(c, sys, DoClose(h)).0, f.slot, sys.streams[f.slot]);
  }

  lemma StepCloseWriter(c: Config, sys: System, h: nat)
    requires Inv(c, sys) && Allowed(c, sys, DoClose(h)) && h in sys.files && sys.files[h].mode.WriteCreate?
    requires sys.files[h].page.Some? && sys.files[h].slot < |sys.locks| && Flush(c, sys.device, sys.files[h]).rc.Success?
    ensures var slot := sys.files[h].slot;
            Step(c, sys, DoClose(h)) == (System(Flush(c, sys.device, sys.files[h]).device, sys.locks[slot := Int8Dec(sys.locks[slot])],
                                                sys.files - {h}, sys.streams), Response(Success, []))
  {
    hide Inv, Flush, Int8Dec;
  }

  lemma TrackedSameDevice(c: Config, sys: System, sys1: System, sys2: System, slot: nat, stream: seq<byte>)
    requires Tracked(c, sys, sys1, slot, stream) && sys1.device == sys2.device
    ensures Tracked(c, sys, sys2, slot, stream)
  {
    hide Track, CommittedSize;
  }

  lemma CloseReaderStep(c: Config, sys: System, h: nat)
    requires Inv(c, sys) && h in sys.files && sys.files[h].mode.Read? && Allowed(c, sys, DoClose(h))
    ensures var (sys', r) := Step(c, sys, DoClose(h));
            && r.rc.Success? && sys'.device == sys.device && sys'.streams == sys.streams && sys'.files == sys.files - {h}
            && Inv(c, sys')
  {
    hide *;
    InvParts(c, sys);
    ReaderFacts(c, sys, h);
    var f := sys.files[h];
    ReadingFacts(c, f, sys.streams[f.slot][..f.md.fileSize]);
    StepCloseReader(c, sys, h);
    RemoveHandle(c, sys, h);
  }

  lemma StepCloseReader(c: Config, sys: System, h: nat)
    requires Inv(c, sys) && Allowed(c, sys, DoClose(h)) && h in sys.files && sys.files[h].mode.Read?
    requires sys.files[h].page.Some? && sys.files[h].slot < |sys.locks|
    ensures var slot := sys.files[h].slot;
            Step(c, sys, DoClose(h)) == (sys.(locks := sys.locks[slot := Int8Dec(sys.locks[slot])], files := sys.files - {h}), Response(Success, []))
  {
    hide Inv, Int8Dec;
  }

  lemma ReaderFacts(c: Config, sys: System, h: nat)
    requires Inv(c, sys) && h in sys.files && sys.files[h].mode.Read?
    ensures var f := sys.files[h];
            && f.slot < |sys.streams| == c.slotCount && f.md.fileSize <= |sys.streams[f.slot]| && Paged(c)
            && var file := sys.streams[f.slot][..f.md.fileSize];
               && Reading(c, f, file)
               && FileOnDevice(c, sys.device.bytes, f.slot, file)
  {
    hide *;
    InvParts(c, sys);
    var f := sys.files[h];
    HandleIn(c, sys.device.bytes, sys.files, sys.streams, h);
    SlotIn(c, sys.device.bytes, sys.streams, f.slot);
    CommittedFile(c, sys.device.bytes, f.slot, sys.streams[f.slot], f.md.fileSize);
  }

  lemma SlotIn(c: Config, bytes: seq<byte>, streams: seq<seq<byte>>, slot: nat)
    requires SlotsOk(c, bytes, streams) && slot < |streams|
    ensures SlotOk(c, bytes, slot, streams[slot])
  {
    hide SlotOk;
  }

  lemma CommittedFile(c: Config, bytes: seq<byte>, slot: nat, stream: seq<byte>, size: nat)
    requires SlotOk(c, bytes, slot, stream) && size <= CommittedSize(c, bytes, slot) && size <= |stream|
    ensures FileOnDevice(c, bytes, slot, stream[..size])
    ensures CommittedSize(c, bytes, slot) <= |stream|
  {
    hide PairOf, Content;
    var n := CommittedSize(c, bytes, slot);
    var data := Content(c, bytes, DataArea(slot));
    assert data[..size] == data[..n][..size] == stream[..n][..size] == stream[..size];
  }

  /** Handle h moved to `cursor`; nothing else but its page buffer changed. */
  ghost predicate Moved(sys: System, sys': System, h: nat, cursor: nat) {
    && h in sys.files && h in sys'.files
    && sys'.files[h] == sys.files[h].(cursor := cursor, page := sys'.files[h].page)
    && sys' == sys.(files := sys.files[h := sys'.files[h]])
  }

  /** What a read of `size` bytes promises: the bytes of the slot's stream from the cursor on, as many as
      were asked for and are covered by the handle, and the end reported exactly when fewer are. */
  ghost predicate ReadReturns(sys: System, sys': System, h: nat, size: nat, r: Response) {
    && h in sys.files
    && var f := sys.files[h];
       && f.slot < |sys.streams| && f.cursor <= f.md.fileSize <= |sys.streams[f.slot]|
       && var n := Min(size, f.md.fileSize - f.cursor);
          && n >= 0 && r.data == sys.streams[f.slot][f.cursor..f.cursor + n]
          && r.rc == (if size <= f.md.fileSize - f.cursor then Success else SuccessEof)
          && Moved(sys, sys', h, f.cursor + n)
  }

  lemma ReadStep(c: Config, sys: System, h: nat, size: nat)
    requires Inv(c, sys) && h in sys.files && sys.files[h].mode.Read? && Allowed(c, sys, DoRead(h, size))
    ensures var (sys', r) := Step(c, sys, DoRead(h, size));
            Inv(c, sys') && ReadReturns(sys, sys', h, size, r)
  {
    hide *;
    ReaderFacts(c, sys, h);
    var f := sys.files[h];
    var stream := sys.streams[f.slot];
    var file := stream[..f.md.fileSize];
    ReadingFacts(c, f, file);
    ReadLoopReads(c, sys.device, f, file, size, []);
    StepRead(c, sys, h, size);
    var r := ReadLoop(sys.device, f, size, []);
    InvParts(c, sys);
    HandleIn(c, sys.device.bytes, sys.files, sys.streams, h);
    ReaderOk(c, sys.device.bytes, f, r.file, sys.streams);
    ReaderStep(c, sys, h, r.file);
    ReadReturnsFrom(sys, h, size, r);
  }

  lemma ReadReturnsFrom(sys: System, h: nat, size: nat, r: ReadResult)
    requires h in sys.files
    requires var f := sys.files[h];
             f.slot < |sys.streams| && f.cursor <= f.md.fileSize <= |sys.streams[f.slot]|
    requires var f := sys.files[h];
             var file := sys.streams[f.slot][..f.md.fileSize];
             var n := if size <= |file| - f.cursor then size else |file| - f.cursor;
             && r.data == [] + file[f.cursor..f.cursor + n]
             && r.rc == (if size <= |file| - f.cursor then Success else SuccessEof)
             && r.file == f.(cursor := f.cursor + n, page := r.file.page)
    ensures ReadReturns(sys, sys.(files := sys.files[h := r.file]), h, size, Response(r.rc, r.data))
  {
    var f := sys.files[h];
    var n := Min(size, f.md.fileSize - f.cursor);
    assert sys.streams[f.slot][..f.md.fileSize][f.cursor..f.cursor + n] == sys.streams[f.slot][f.cursor..f.cursor + n];
  }

  lemma StepRead(c: Config, sys: System, h: nat, size: nat)
    requires Inv(c, sys) && Allowed(c, sys, DoRead(h, size)) && h in sys.files
    requires Sound(sys.files[h]) && sys.files[h].page.Some? && sys.files[h].mode.Read?
    ensures var r := ReadLoop(sys.device, sys.files[h], size, []);
            Step(c, sys, DoRead(h, size)) == (sys.(files := sys.files[h := r.file]), Response(r.rc, r.data))
  {
    hide Inv, ReadLoop;
  }

  lemma ReaderOk(c: Config, bytes: seq<byte>, f: File, g: File, streams: seq<seq<byte>>)
    requires HandleOk(c, bytes, f, streams) && f.mode.Read? && g == f.(cursor := g.cursor, page := g.page)
    requires f.slot < |streams| && f.md.fileSize <= |streams[f.slot]|
    requires Reading(c, g, streams[f.slot][..f.md.fileSize])
    ensures HandleOk(c, bytes, g, streams)
  {
    hide Reading, CommittedSize;
  }

  /** Seek: any position inside the file, no other. */
  lemma SeekStep(c: Config, sys: System, h: nat, position: nat)
    requires Inv(c, sys) && h in sys.files && sys.files[h].mode.Read? && Allowed(c, sys, DoSeek(h, position))
    ensures var (sys', r) := Step(c, sys, DoSeek(h, position));
            && Inv(c, sys')
            && if position < sys.files[h].md.fileSize then r.rc.Success? && Moved(sys, sys', h, position)
               else r.rc.ErrorAssert? && sys' == sys
  {
    hide *;
    ReaderFacts(c, sys, h);
    var f := sys.files[h];
    var file := sys.streams[f.slot][..f.md.fileSize];
    SeekReads(c, f, file, position);
    InvParts(c, sys);
    HandleIn(c, sys.device.bytes, sys.files, sys.streams, h);
    SeekKeeps(f, position);
    StepSeek(c, sys, h, position);
    ReaderOk(c, sys.device.bytes, f, Seek(f, position).0, sys.streams);
    ReaderStep(c, sys, h, Seek(f, position).0);
    if position < f.md.fileSize {
      MovedFrom(sys, h, Seek(f, position).0, position);
    } else {
      assert sys.files[h := f] == sys.files;
    }
  }

  lemma SeekKeeps(f: File, position: nat)
    ensures var g := Seek(f, position).0;
            g == f.(cursor := g.cursor, page := g.page)
  {}

  lemma MovedFrom(sys: System, h: nat, f: File, cursor: nat)
    requires h in sys.files && f == sys.files[h].(cursor := cursor, page := f.page)
    ensures Moved(sys, sys.(files := sys.files[h := f]), h, cursor)
  {}

  lemma StepSeek(c: Config, sys: System, h: nat, position: nat)
    requires Inv(c, sys) && Allowed(c, sys, DoSeek(h, position)) && h in sys.files
    ensures var (f, rc) := Seek(sys.files[h], position);
            Step(c, sys, DoSeek(h, position)) == (sys.(files := sys.files[h := f]), Response(rc, []))
  {
    hide Inv, Seek;
  }

  // ---- opening ----

  /** For every slot that sfs_file_open does not refuse out of hand, sfs_file_exists answers what opening for reading would. */
  lemma ExistsIffOpens(c: Config, d: Device, locks: seq<int>, slot: nat)
    requires Fits(c) && |locks| == MAX_SLOTS && (slot == c.slotCount ==> slot < MAX_SLOTS)
    ensures Open(c, d, locks, slot, Mode.Read, CLOSED).rc.Success? <==> slot <= c.slotCount && Exists(c, d, slot)
  {
    hide ReadPair, Pair.Current;
  }

  /** Open for reading: the committed file, unless its revision has wrapped to zero or there is none. */
  lemma OpenReadStep(c: Config, sys: System, h: nat, slot: nat)
    requires Inv(c, sys) && h !in sys.files && slot < |sys.streams| && Allowed(c, sys, DoOpen(h, slot, Mode.Read))
    ensures var (sys', r) := Step(c, sys, DoOpen(h, slot, Mode.Read));
            && OnDevice(c, sys.device.bytes) && slot < c.slotCount
            && var v := View(c, sys.device.bytes, slot);
               && v.Some? && v.value.content <= sys.streams[slot]
               && sys'.device == sys.device && sys'.streams == sys.streams && Inv(c, sys')
               && if v.value.md.revision != 0
                  then r.rc.Success? && sys'.files == sys.files[h := Opened(slot, v.value.md, Mode.Read)]
                  else r.rc.ErrorFileNotFound? && sys' == sys
  {
    hide *;
    InvParts(c, sys);
    SlotIn(c, sys.device.bytes, sys.streams, slot);
    SlotOkShows(c, sys.device.bytes, slot, sys.streams[slot]);
    ReadPairIsPairOf(c, sys.device, slot);
    StepOpenRead(c, sys, h, slot);
    var md := View(c, sys.device.bytes, slot).value.md;
    var f := Opened(slot, md, Mode.Read);
    OpenedReads(c, slot, md, sys.streams[slot][..md.fileSize]);
    if md.revision != 0 {
      OpenedOk(c, sys.device.bytes, slot, md, sys.streams);
      AddReader(c, sys, h, f);
    }
  }

  lemma SlotOkShows(c: Config, bytes: seq<byte>, slot: nat, stream: seq<byte>)
    requires SlotOk(c, bytes, slot, stream)
    ensures OnDevice(c, bytes) && slot < c.slotCount && PairOf(c, bytes, slot).Current().Some?
    ensures var v := View(c, bytes, slot);
            && v.Some? && PairOf(c, bytes, slot).Current() == Some(v.value.md)
            && Sane(c, slot, v.value.md) && v.value.md.fileSize == |v.value.content| == CommittedSize(c, bytes, slot) <= |stream|
            && v.value.content == stream[..v.value.md.fileSize] && v.value.content <= stream
  {
    hide PairOf, Content;
  }

  lemma StepOpenRead(c: Config, sys: System, h: nat, slot: nat)
    requires Inv(c, sys) && Allowed(c, sys, DoOpen(h, slot, Mode.Read)) && h !in sys.files && slot < c.slotCount
    requires |sys.locks| == MAX_SLOTS && slot < MAX_SLOTS && ReadPair(c, sys.device, slot).Current().Some?
    ensures var md := ReadPair(c, sys.device, slot).Current().value;
            var f := Opened(slot, md, Mode.Read);
            && f.slot == slot && f.mode.Read?
            && Step(c, sys, DoOpen(h, slot, Mode.Read))
            == if md.revision == 0 then (sys, Response(ErrorFileNotFound, []))
               else (System(sys.device, sys.locks[slot := Int8Inc(sys.locks[slot])], sys.files[h := f], sys.streams), Response(Success, []))
  {
    hide Inv, ReadPair, Allowed, Pair.Current;
  }

  lemma OpenedOk(c: Config, bytes: seq<byte>, slot: nat, md: MetaData, streams: seq<seq<byte>>)
    requires slot < |streams| && md.fileSize == CommittedSize(c, bytes, slot) && md.fileSize <= |streams[slot]|
    requires Reading(c, Opened(slot, md, Mode.Read), streams[slot][..md.fileSize])
    ensures HandleOk(c, bytes, Opened(slot, md, Mode.Read), streams)
  {
    hide Reading, CommittedSize;
  }

  /** Open for writing: granted exactly when the slot has no open handle; the slot then holds an empty file of revision 1. */
  lemma OpenWriteStep(c: Config, sys: System, h: nat, slot: nat)
    requires Inv(c, sys) && h !in sys.files && slot < |sys.streams| && Allowed(c, sys, DoOpen(h, slot, WriteCreate))
    ensures var (sys', r) := Step(c, sys, DoOpen(h, slot, WriteCreate));
            && Fits(c) && Inv(c, sys')
            && if HandlesOn(sys.files, slot) == {} then
                 && r.rc.Success? && sys'.streams == sys.streams[slot := []]
                 && sys'.device == Created(c, sys.device, slot)
                 && sys'.files == sys.files[h := Opened(slot, CreatedMeta(c, slot), WriteCreate)]
               else r.rc.ErrorAssert? && sys' == sys
  {
    hide *;
    InvParts(c, sys);
    AllowedOpen(c, sys, h, slot, WriteCreate);
    LockMeansFree(c, sys, slot);
    CreateCommits(c, sys.device, slot);
    StepOpenWrite(c, sys, h, slot);
    if sys.locks[slot] == 0 {
      UnlockedIsFree(sys, slot);
      CreatedIsWriting(c, sys.device, slot);
      CreateStep(c, sys, h, Created(c, sys.device, slot), Opened(slot, CreatedMeta(c, slot), WriteCreate));
    }
  }

  lemma AllowedOpen(c: Config, sys: System, h: nat, slot: nat, mode: Mode)
    requires Allowed(c, sys, DoOpen(h, slot, mode))
    ensures |HandlesOn(sys.files, slot)| < 256 && slot != c.slotCount
  {
    hide HandlesOn;
  }

  lemma LockMeansFree(c: Config, sys: System, slot: nat)
    requires Inv(c, sys) && slot < MAX_SLOTS && |HandlesOn(sys.files, slot)| < 256
    ensures |sys.locks| == MAX_SLOTS && (sys.locks[slot] == 0 <==> HandlesOn(sys.files, slot) == {})
  {
    hide *;
    InvParts(c, sys);
    LockIs(sys.locks, sys.files, slot);
    Int8Counts(|HandlesOn(sys.files, slot)|);
  }

  lemma LockIs(locks: seq<int>, files: map<nat, File>, slot: nat)
    requires LocksOk(locks, files) && slot < MAX_SLOTS
    ensures |locks| == MAX_SLOTS && locks[slot] == Int8Of(|HandlesOn(files, slot)|)
  {
    hide Int8Of, HandlesOn;
  }

  lemma StepOpenWrite(c: Config, sys: System, h: nat, slot: nat)
    requires Inv(c, sys) && Allowed(c, sys, DoOpen(h, slot, WriteCreate)) && h !in sys.files && slot < c.slotCount
    requires Fits(c) && |sys.locks| == MAX_SLOTS && slot < MAX_SLOTS && |sys.streams| == c.slotCount
    requires WriteMeta(c, sys.device, slot, CreatedMeta(c, slot), 0).1
    requires WriteMeta(c, WriteMeta(c, sys.device, slot, CreatedMeta(c, slot), 0).0, slot, CreatedMeta(c, slot), 1).1
    ensures var f := Opened(slot, CreatedMeta(c, slot), WriteCreate);
            && f.slot == slot && f.mode.WriteCreate?
            && Step(c, sys, DoOpen(h, slot, WriteCreate))
            == if sys.locks[slot] != 0 then (sys, Response(ErrorAssert, []))
               else (System(Created(c, sys.device, slot), sys.locks[slot := Int8Inc(sys.locks[slot])], sys.files[h := f],
                            sys.streams[slot := []]), Response(Success, []))
  {
    hide Inv, WriteMeta, Allowed;
  }
}
