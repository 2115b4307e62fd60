/** A file open for writing: what its handle keeps true, and what write, flush and close do to the file and
    to every device image power loss can leave. */
module SlotWriter {
  import opened Bytes
  import opened SlotMeta
  import opened SlotLayout
  import opened SlotSpec
  import opened SlotCrash
  import opened SlotCommit

  /** Slots hold whole pages; then page writes stay inside their slot (SlotLayout.PagesStayInSlot). */
  predicate Paged(c: Config)
    requires Fits(c)
  {
    SlotSize(c) % PAGE_SIZE == 0
  }

  /** `stream` is everything written through handle `f` since the file was created. */
  ghost predicate Writing(c: Config, bytes: seq<byte>, f: File, stream: seq<byte>)
  {
    && OnDevice(c, bytes)
    && f.page.Some? && f.mode.WriteCreate? && f.slot < c.slotCount
    && f.cursor == |stream| <= SlotSize(c)
    && Committed(c, bytes, f.slot, f.md, stream)
    && Buffered(f.page.value, stream)
    && var base := PageStart(|stream|);
       Content(c, bytes, DataArea(f.slot))[..base] == stream[..base]
  }

  /** The page holds the end of the stream, from the last page boundary on. */
  ghost predicate Buffered(page: Page, stream: seq<byte>) {
    var base := PageStart(|stream|);
    && |page.data| == PAGE_SIZE
    && page.offset == |stream| - base
    && page.data[..page.offset] == stream[base..]
  }

  lemma BufferedGrows(page: Page, stream: seq<byte>, chunk: seq<byte>)
    requires Buffered(page, stream) && page.offset + |chunk| < PAGE_SIZE
    ensures Buffered(Page(Splice(page.data, page.offset, chunk), page.offset + |chunk|), stream + chunk)
    ensures PageStart(|stream + chunk|) == PageStart(|stream|)
    ensures (stream + chunk)[..PageStart(|stream|)] == stream[..PageStart(|stream|)]
  {
    var longer, base := stream + chunk, PageStart(|stream|);
    var filled := Splice(page.data, page.offset, chunk);
    assert PageStart(|longer|) == base;
    assert filled[..page.offset + |chunk|] == page.data[..page.offset] + chunk;
    assert longer[base..] == stream[base..] + chunk;
    assert longer[..base] == stream[..base];
  }

  /** The device since `d0`, with nothing but this slot changed and every crash image good. */
  ghost predicate Track(c: Config, d0: Device, d: Device, slot: nat, low: nat, stream: seq<byte>)
  {
    && OnDevice(c, d0.bytes) && slot < c.slotCount
    && OthersSame(c, d0.bytes, d.bytes, slot)
    && Safe(c, d0, d, slot, low, stream)
  }

  lemma WritingFacts(c: Config, bytes: seq<byte>, f: File, stream: seq<byte>)
    requires Writing(c, bytes, f, stream)
    ensures Sound(f) && f.page.Some? && f.mode.WriteCreate? && f.slot < c.slotCount
    ensures f.cursor == |stream| <= SlotSize(c) && f.md.maxAddress - f.md.startAddress == SlotSize(c)
    ensures |f.page.value.data| == PAGE_SIZE && f.page.value.offset < PAGE_SIZE
    ensures f.md.fileSize <= |stream| && f.md.startAddress == DataAddress(c, f.slot) && f.md.revision < 256
    ensures OnDevice(c, bytes) && Fits(c)
    ensures Committed(c, bytes, f.slot, f.md, stream) && Buffered(f.page.value, stream)
    ensures Content(c, bytes, DataArea(f.slot))[..PageStart(|stream|)] == stream[..PageStart(|stream|)]
  {
    hide Content, PairOf;
  }

  lemma PageRoom(c: Config, base: nat)
    requires Fits(c) && Paged(c) && base < SlotSize(c) && base % PAGE_SIZE == 0
    ensures base + PAGE_SIZE <= SlotSize(c)
  {
    hide SlotSize;
    assert base / PAGE_SIZE < SlotSize(c) / PAGE_SIZE;
  }

  lemma CommittedLonger(c: Config, bytes: seq<byte>, slot: nat, md: MetaData, stream: seq<byte>, longer: seq<byte>)
    requires OnDevice(c, bytes) && slot < c.slotCount && Committed(c, bytes, slot, md, stream) && stream <= longer
    ensures Committed(c, bytes, slot, md, longer)
  {
    hide Content, PairOf;
    assert longer[..md.fileSize] == stream[..md.fileSize];
  }

  lemma WritePage(c: Config, d0: Device, d: Device, slot: nat, md: MetaData, low: nat, stream: seq<byte>, base: nat, page: seq<byte>, valid: nat)
    requires OnDevice(c, d0.bytes) && slot < c.slotCount && Track(c, d0, d, slot, low, stream) && low <= md.fileSize
    requires Committed(c, d.bytes, slot, md, stream)
    requires PageFits(c, d.bytes, slot, stream, base, page, valid) && md.fileSize <= base + valid
    ensures var (d1, ok) := WriteDevice(d, DataAddress(c, slot) + base, page);
            && ok
            && Track(c, d0, d1, slot, low, stream)
            && Committed(c, d1.bytes, slot, md, stream)
            && Content(c, d1.bytes, DataArea(slot))[..base + valid] == stream[..base + valid]
  {
    hide Committed, PageFits, TornAtomic, Safe, OthersSame, Content;
    assert OnDevice(c, d.bytes) by { OthersSameLength(c, d0.bytes, d.bytes, slot); }
    PageWriteCommits(c, d.bytes, slot, md, stream, base, page, valid);
    PageWriteAtomic(c, d.bytes, slot, md, stream, base, page, valid);
    var d1 := WriteDevice(d, DataAddress(c, slot) + base, page).0;
    OthersSameTransitive(c, d0.bytes, d.bytes, d1.bytes, slot);
    CommittedIsGood(c, d0.bytes, d.bytes, slot, md, low, stream);
    CommittedIsGood(c, d0.bytes, d1.bytes, slot, md, low, stream);
    SafeExtends(c, d0, d, DataAddress(c, slot) + base, page, slot, low, stream);
  }

  lemma OthersSameLength(c: Config, b0: seq<byte>, b1: seq<byte>, slot: nat)
    requires OnDevice(c, b0) && OthersSame(c, b0, b1, slot)
    ensures |b1| == |b0|
  {}

  lemma CommitSizeIsMetaWrite(c: Config, d: Device, f: File)
    requires OnDevice(c, d.bytes) && f.slot < c.slotCount && PairOf(c, d.bytes, f.slot).Newest().Some?
    ensures CommitSize(c, d, f)
         == FileResult(WriteDevice(d, MetaAddress(c, f.slot, OlderIndex(c, d.bytes, f.slot)), Encode(NextMeta(f.md, f.cursor))).0,
                       f.(md := NextMeta(f.md, f.cursor)), Success)
  {
    hide Decode, Encode, WriteDevice, Pair.Newest;
    ReadPairIsPairOf(c, d, f.slot);
  }

  lemma WriteMetaBlock(c: Config, d0: Device, d: Device, slot: nat, md: MetaData, size: nat, low: nat, stream: seq<byte>)
    requires OnDevice(c, d0.bytes) && slot < c.slotCount && Track(c, d0, d, slot, low, stream) && low <= md.fileSize
    requires |d.bytes| == |d0.bytes|
    requires Committed(c, d.bytes, slot, md, stream)
    requires Committable(c, d.bytes, slot, md, stream, size)
    ensures var (d1, ok) := WriteDevice(d, MetaAddress(c, slot, OlderIndex(c, d.bytes, slot)), Encode(NextMeta(md, size)));
            && ok
            && Track(c, d0, d1, slot, low, stream)
            && Committed(c, d1.bytes, slot, NextMeta(md, size), stream)
            && Content(c, d1.bytes, DataArea(slot)) == Content(c, d.bytes, DataArea(slot))
  {
    var next := NextMeta(md, size);
    assert md.fileSize <= size;
    hide Committed, Committable, TornAtomic, Safe, OthersSame, Content, Encode, OlderIndex, NextMeta;
    var at := MetaAddress(c, slot, OlderIndex(c, d.bytes, slot));
    MetaWriteCommits(c, d.bytes, slot, md, stream, size);
    MetaWriteAtomic(c, d.bytes, slot, md, stream, size);
    var d1 := WriteDevice(d, at, Encode(next)).0;
    OthersSameTransitive(c, d0.bytes, d.bytes, d1.bytes, slot);
    CommittedIsGood(c, d0.bytes, d.bytes, slot, md, low, stream);
    NextMetaSize(md, size);
    CommittedIsGood(c, d0.bytes, d1.bytes, slot, next, low, stream);
    SafeExtends(c, d0, d, at, Encode(next), slot, low, stream);
  }

  lemma NextMetaSize(md: MetaData, size: nat)
    ensures NextMeta(md, size).fileSize == size && NextMeta(md, size).revision == NextRevision(md.revision)
  {}

  lemma CommitSizeCommits(c: Config, d0: Device, d: Device, f: File, low: nat, stream: seq<byte>)
    requires OnDevice(c, d0.bytes) && f.slot < c.slotCount && Track(c, d0, d, f.slot, low, stream) && low <= f.md.fileSize
    requires |d.bytes| == |d0.bytes|
    requires Committed(c, d.bytes, f.slot, f.md, stream)
    requires Committable(c, d.bytes, f.slot, f.md, stream, f.cursor)
    ensures var r := CommitSize(c, d, f);
            && r.rc.Success?
            && r.file == f.(md := NextMeta(f.md, f.cursor))
            && Track(c, d0, r.device, f.slot, low, stream)
            && Committed(c, r.device.bytes, f.slot, r.file.md, stream)
            && Content(c, r.device.bytes, DataArea(f.slot)) == Content(c, d.bytes, DataArea(f.slot))
  {
    assert PairOf(c, d.bytes, f.slot).Newest().Some?;
    hide Committed, Committable, Track, Content, Encode, OlderIndex, Pair.Newest, CommitSize;
    CommitSizeIsMetaWrite(c, d, f);
    WriteMetaBlock(c, d0, d, f.slot, f.md, f.cursor, low, stream);
  }

  /** Handle `f` has written `stream`; since `d0` every crash image shows at least `low` bytes of it. */
  ghost predicate Active(c: Config, d0: Device, d: Device, f: File, low: nat, stream: seq<byte>) {
    && OnDevice(c, d0.bytes) && Paged(c) && |d.bytes| == |d0.bytes|
    && Writing(c, d.bytes, f, stream) && low <= f.md.fileSize
    && Track(c, d0, d, f.slot, low, stream)
  }

  lemma ActiveFacts(c: Config, d0: Device, d: Device, f: File, low: nat, stream: seq<byte>)
    requires Active(c, d0, d, f, low, stream)
    ensures Fits(c) && Sound(f) && f.page.Some? && f.mode.WriteCreate? && f.slot < c.slotCount
    ensures f.cursor == |stream| <= SlotSize(c) && f.md.maxAddress - f.md.startAddress == SlotSize(c)
    ensures |f.page.value.data| == PAGE_SIZE && f.page.value.offset < PAGE_SIZE
    ensures f.md.fileSize <= |stream| && f.md.revision < 256
  {
    hide Writing, Track;
    WritingFacts(c, d.bytes, f, stream);
  }

  /** What an active handle stands for, and back. */
  lemma ActiveParts(c: Config, d0: Device, d: Device, f: File, low: nat, stream: seq<byte>)
    requires Active(c, d0, d, f, low, stream)
    ensures OnDevice(c, d0.bytes) && OnDevice(c, d.bytes) && Paged(c) && |d.bytes| == |d0.bytes| && f.slot < c.slotCount
    ensures Writing(c, d.bytes, f, stream) && low <= f.md.fileSize && Track(c, d0, d, f.slot, low, stream)
    ensures f.page.Some? && f.page.value.offset == |stream| - PageStart(|stream|)
  {
    hide Committed, Track, Content;
  }

  lemma ActiveFrom(c: Config, d0: Device, d: Device, f: File, low: nat, stream: seq<byte>)
    requires OnDevice(c, d0.bytes) && Paged(c) && |d.bytes| == |d0.bytes| && f.slot < c.slotCount
    requires Writing(c, d.bytes, f, stream) && low <= f.md.fileSize && Track(c, d0, d, f.slot, low, stream)
    ensures Active(c, d0, d, f, low, stream)
  {
    hide Writing, Track;
  }

  lemma BufferedBytes(page: Page, stream: seq<byte>)
    requires Buffered(page, stream)
    ensures var base := PageStart(|stream|);
            && base + page.offset == |stream| && page.offset < PAGE_SIZE == |page.data|
            && page.data[..page.offset] == stream[base..base + page.offset]
  {
    hide PageStart;
    assert stream[PageStart(|stream|)..] == stream[PageStart(|stream|)..|stream|];
  }

  lemma PartialPageFits(c: Config, bytes: seq<byte>, f: File, stream: seq<byte>)
    requires Writing(c, bytes, f, stream) && Paged(c)
    ensures var base := PageStart(|stream|);
            && PageAddress(f) == DataAddress(c, f.slot) + base
            && base + f.page.value.offset == |stream|
            && (f.page.value.offset > 0 ==> PageFits(c, bytes, f.slot, stream, base, f.page.value.data, f.page.value.offset))
            && (f.page.value.offset == 0 ==> Content(c, bytes, DataArea(f.slot))[..|stream|] == stream[..|stream|])
  {
    hide *;
    WritingFacts(c, bytes, f, stream);
    BufferedBytes(f.page.value, stream);
    PageAddressIs(c, f, |stream|);
    if f.page.value.offset > 0 {
      PageStartAligned(|stream|);
      PageRoom(c, PageStart(|stream|));
      PageFitsFrom(c, bytes, f.slot, stream, PageStart(|stream|), f.page.value.data, f.page.value.offset);
    }
  }

  lemma PageAddressIs(c: Config, f: File, cursor: nat)
    requires Fits(c) && f.cursor == cursor && f.md.startAddress == DataAddress(c, f.slot)
    ensures PageAddress(f) == DataAddress(c, f.slot) + PageStart(cursor)
  {}

  lemma PageFitsFrom(c: Config, bytes: seq<byte>, slot: nat, stream: seq<byte>, base: nat, page: seq<byte>, valid: nat)
    requires OnDevice(c, bytes) && slot < c.slotCount && |page| == PAGE_SIZE && valid <= PAGE_SIZE
    requires base + PAGE_SIZE <= SlotSize(c) && base + valid <= |stream|
    requires Content(c, bytes, DataArea(slot))[..base] == stream[..base]
    requires page[..valid] == stream[base..base + valid]
    ensures PageFits(c, bytes, slot, stream, base, page, valid)
  {
    hide Content;
  }

  /** All of the stream is on the device, the newest metadata still covers what it covered. */
  ghost predicate Stored(c: Config, d0: Device, d: Device, slot: nat, md: MetaData, low: nat, stream: seq<byte>) {
    && OnDevice(c, d0.bytes) && |d.bytes| == |d0.bytes| && slot < c.slotCount
    && low <= md.fileSize
    && Track(c, d0, d, slot, low, stream)
    && Committed(c, d.bytes, slot, md, stream)
    && |stream| <= SlotSize(c)
    && Content(c, d.bytes, DataArea(slot))[..|stream|] == stream
  }

  function FlushedPage(d: Device, f: File): (Device, bool) {
    if f.page.Some? && f.page.value.offset > 0 then WriteDevice(d, PageAddress(f), f.page.value.data) else (d, true)
  }

  lemma FlushedPageIs(d: Device, f: File)
    requires f.page.Some?
    ensures FlushedPage(d, f) == if f.page.value.offset > 0 then WriteDevice(d, PageAddress(f), f.page.value.data) else (d, true)
  {}

  lemma StoredFrom(c: Config, d0: Device, d: Device, slot: nat, md: MetaData, low: nat, stream: seq<byte>)
    requires OnDevice(c, d0.bytes) && |d.bytes| == |d0.bytes| && slot < c.slotCount && low <= md.fileSize
    requires Track(c, d0, d, slot, low, stream) && Committed(c, d.bytes, slot, md, stream)
    requires |stream| <= SlotSize(c) && Content(c, d.bytes, DataArea(slot))[..|stream|] == stream
    ensures Stored(c, d0, d, slot, md, low, stream)
  {
    hide Track, Committed, Content;
  }

  /** The first half of a flush: the partial page goes to the device. */
  lemma FlushPage(c: Config, d0: Device, d: Device, f: File, low: nat, stream: seq<byte>)
    requires Active(c, d0, d, f, low, stream)
    ensures FlushedPage(d, f).1
    ensures Stored(c, d0, FlushedPage(d, f).0, f.slot, f.md, low, stream)
  {
    hide *;
    ActiveParts(c, d0, d, f, low, stream);
    WritingFacts(c, d.bytes, f, stream);
    PartialPageFits(c, d.bytes, f, stream);
    FlushedPageIs(d, f);
    assert stream[..|stream|] == stream;
    if f.page.value.offset > 0 {
      WritePage(c, d0, d, f.slot, f.md, low, stream, PageStart(|stream|), f.page.value.data, f.page.value.offset);
    }
    StoredFrom(c, d0, FlushedPage(d, f).0, f.slot, f.md, low, stream);
  }

  /** Committing the size when the whole stream is on the device. */
  lemma CommitStored(c: Config, d0: Device, d: Device, f: File, low: nat, stream: seq<byte>)
    requires Stored(c, d0, d, f.slot, f.md, low, stream) && f.md.fileSize <= f.cursor <= |stream|
    ensures var r := CommitSize(c, d, f);
            && r.rc.Success?
            && r.file == f.(md := NextMeta(f.md, f.cursor))
            && Stored(c, d0, r.device, f.slot, r.file.md, low, stream)
  {
    hide Track, Committed, Content, SlotSize;
    var data := Content(c, d.bytes, DataArea(f.slot));
    assert data[..f.cursor] == data[..|stream|][..f.cursor] == stream[..f.cursor];
    assert Committable(c, d.bytes, f.slot, f.md, stream, f.cursor);
    hide Committable, CommitSize;
    CommitSizeCommits(c, d0, d, f, low, stream);
    NextMetaSize(f.md, f.cursor);
  }

  lemma WritingFromStored(c: Config, d0: Device, d: Device, f: File, low: nat, stream: seq<byte>)
    requires Stored(c, d0, d, f.slot, f.md, low, stream)
    requires f.page.Some? && f.mode.WriteCreate? && f.cursor == |stream| && Buffered(f.page.value, stream)
    ensures OnDevice(c, d.bytes) && Writing(c, d.bytes, f, stream) && Track(c, d0, d, f.slot, low, stream)
  {
    hide Track, Committed, Content, SlotSize, Buffered;
    var data, base := Content(c, d.bytes, DataArea(f.slot)), PageStart(|stream|);
    assert data[..base] == data[..|stream|][..base];
  }

  lemma FlushIsPageThenSize(c: Config, d: Device, f: File)
    requires f.page.Some? && f.mode.WriteCreate? && FlushedPage(d, f).1
    ensures Flush(c, d, f) == CommitSize(c, FlushedPage(d, f).0, f)
  {
    hide CommitSize;
  }

  lemma FullPageBytes(page: Page, stream: seq<byte>, chunk: seq<byte>)
    requires Buffered(page, stream) && page.offset + |chunk| == PAGE_SIZE
    ensures var longer, base := stream + chunk, PageStart(|stream|);
            && |longer| == base + PAGE_SIZE
            && longer[..base] == stream[..base]
            && Splice(page.data, page.offset, chunk)[..PAGE_SIZE] == longer[base..base + PAGE_SIZE]
  {
    var longer, base := stream + chunk, PageStart(|stream|);
    assert Splice(page.data, page.offset, chunk)[..PAGE_SIZE] == page.data[..page.offset] + chunk;
    assert longer[base..base + PAGE_SIZE] == stream[base..] + chunk;
    assert longer[..base] == stream[..base];
  }

  lemma FullPageFits(c: Config, bytes: seq<byte>, f: File, stream: seq<byte>, chunk: seq<byte>)
    requires Writing(c, bytes, f, stream) && Paged(c)
    requires |stream| + |chunk| <= SlotSize(c) && |f.page.value.data| == PAGE_SIZE && f.page.value.offset + |chunk| == PAGE_SIZE
    ensures PageFits(c, bytes, f.slot, stream + chunk, PageStart(|stream|),
                     Splice(f.page.value.data, f.page.value.offset, chunk), PAGE_SIZE)
    ensures PageAddress(f) == DataAddress(c, f.slot) + PageStart(|stream|)
    ensures |stream + chunk| == PageStart(|stream|) + PAGE_SIZE
  {
    WritingFacts(c, bytes, f, stream);
    hide Writing, Content, Committed, SlotSize, DataAddress, Splice, Buffered, PageStart;
    FullPageBytes(f.page.value, stream, chunk);
    PageStartAligned(|stream|);
    PageRoom(c, PageStart(|stream|));
  }

  /** The full-page turn of the write loop: the page goes out ... */
  lemma FullPageOut(c: Config, d0: Device, d: Device, f: File, low: nat, stream: seq<byte>, chunk: seq<byte>)
    requires Active(c, d0, d, f, low, stream) && |stream| + |chunk| <= SlotSize(c)
    requires |f.page.value.data| == PAGE_SIZE && f.page.value.offset + |chunk| == PAGE_SIZE
    ensures var (d1, ok) := WriteDevice(d, PageAddress(f), Splice(f.page.value.data, f.page.value.offset, chunk));
            ok && Stored(c, d0, d1, f.slot, f.md, low, stream + chunk)
  {
    hide *;
    ActiveParts(c, d0, d, f, low, stream);
    WritingFacts(c, d.bytes, f, stream);
    FullPageFits(c, d.bytes, f, stream, chunk);
    var longer := stream + chunk;
    var filled := Splice(f.page.value.data, f.page.value.offset, chunk);
    CommittedLonger(c, d.bytes, f.slot, f.md, stream, longer);
    TrackLonger(c, d0, d, f.slot, low, stream, longer);
    assert longer[..|longer|] == longer;
    WritePage(c, d0, d, f.slot, f.md, low, longer, PageStart(|stream|), filled, PAGE_SIZE);
    StoredFrom(c, d0, WriteDevice(d, PageAddress(f), filled).0, f.slot, f.md, low, longer);
  }

  lemma TrackLonger(c: Config, d0: Device, d: Device, slot: nat, low: nat, stream: seq<byte>, longer: seq<byte>)
    requires OnDevice(c, d0.bytes) && slot < c.slotCount && Track(c, d0, d, slot, low, stream) && stream <= longer
    ensures Track(c, d0, d, slot, low, longer)
  {
    hide OthersSame, Safe;
    SafeLonger(c, d0, d, slot, low, stream, longer);
  }

  function FilledPage(f: File, chunk: seq<byte>): Page
    requires f.page.Some? && f.page.value.offset + |chunk| <= |f.page.value.data|
  {
    Page(Splice(f.page.value.data, f.page.value.offset, chunk), f.page.value.offset + |chunk|)
  }

  lemma NothingBuffered(page: Page, stream: seq<byte>)
    requires |page.data| == PAGE_SIZE && page.offset == 0 && |stream| % PAGE_SIZE == 0
    ensures Buffered(page, stream)
  {
    assert PageStart(|stream|) == |stream|;
    assert stream[|stream|..] == [] == page.data[..0];
  }

  /** The turn of the write loop that only fills the page. */
  lemma PartialPage(c: Config, d0: Device, d: Device, f: File, low: nat, stream: seq<byte>, chunk: seq<byte>)
    requires OnDevice(c, d0.bytes) && |d.bytes| == |d0.bytes|
    requires Writing(c, d.bytes, f, stream) && Track(c, d0, d, f.slot, low, stream)
    requires f.page.value.offset + |chunk| < PAGE_SIZE && |stream| + |chunk| <= SlotSize(c)
    ensures Writing(c, d.bytes, f.(page := Some(FilledPage(f, chunk)), cursor := f.cursor + |chunk|), stream + chunk)
    ensures Track(c, d0, d, f.slot, low, stream + chunk)
  {
    hide Content, Committed, Track, Buffered, Splice, PageStart, SlotSize;
    assert Buffered(f.page.value, stream);
    assert |f.page.value.data| == PAGE_SIZE by { WritingFacts(c, d.bytes, f, stream); }
    BufferedGrows(f.page.value, stream, chunk);
    CommittedLonger(c, d.bytes, f.slot, f.md, stream, stream + chunk);
    TrackLonger(c, d0, d, f.slot, low, stream, stream + chunk);
  }

  lemma PartialChunk(c: Config, d0: Device, d: Device, f: File, low: nat, stream: seq<byte>, chunk: seq<byte>)
    requires Active(c, d0, d, f, low, stream) && |stream| + |chunk| <= SlotSize(c)
    requires f.page.Some? && Sound(f) && f.page.value.offset + |chunk| < PAGE_SIZE
    ensures Active(c, d0, d, f.(page := Some(FilledPage(f, chunk)), cursor := f.cursor + |chunk|), low, stream + chunk)
  {
    hide Writing, Track;
    PartialPage(c, d0, d, f, low, stream, chunk);
  }

  lemma FilledFull(f: File, chunk: seq<byte>)
    requires f.page.Some? && |f.page.value.data| == PAGE_SIZE && f.page.value.offset + |chunk| == PAGE_SIZE
    ensures FilledPage(f, chunk) == Page(Splice(f.page.value.data, f.page.value.offset, chunk), PAGE_SIZE)
    ensures |FilledPage(f, chunk).data| == PAGE_SIZE
  {}

  lemma FullChunk(c: Config, d0: Device, d: Device, f: File, low: nat, stream: seq<byte>, chunk: seq<byte>)
    requires Active(c, d0, d, f, low, stream) && |stream| + |chunk| <= SlotSize(c)
    requires f.page.Some? && Sound(f) && f.page.value.offset + |chunk| == PAGE_SIZE
    ensures var filled := FilledPage(f, chunk);
            var (d1, ok) := WriteDevice(d, PageAddress(f), filled.data);
            var r := Flush(c, d1, f.(page := Some(filled.(offset := 0))));
            && ok && r.file.slot == f.slot && f.md.fileSize <= r.file.md.fileSize
            && r.file.md.revision == NextRevision(f.md.revision)
            && Active(c, d0, r.device, r.file.(cursor := f.cursor + |chunk|), low, stream + chunk)
  {
    hide *;
    ActiveParts(c, d0, d, f, low, stream);
    ActiveFacts(c, d0, d, f, low, stream);
    FullPageOut(c, d0, d, f, low, stream, chunk);
    FilledFull(f, chunk);
    var filled := FilledPage(f, chunk);
    var d1 := WriteDevice(d, PageAddress(f), filled.data).0;
    var cleared := f.(page := Some(filled.(offset := 0)));
    FlushOfEmptyPage(c, d1, cleared);
    CommitStored(c, d0, d1, cleared, low, stream + chunk);
    NextMetaSize(f.md, |stream|);
    var r := CommitSize(c, d1, cleared);
    PageStartAligned(|stream|);
    assert |stream + chunk| == PageStart(|stream|) + PAGE_SIZE;
    NothingBuffered(cleared.page.value, stream + chunk);
    WritingFromStored(c, d0, r.device, r.file.(cursor := f.cursor + |chunk|), low, stream + chunk);
    ActiveFrom(c, d0, r.device, r.file.(cursor := f.cursor + |chunk|), low, stream + chunk);
  }

  lemma FlushOfEmptyPage(c: Config, d: Device, f: File)
    requires f.page.Some? && f.mode.WriteCreate? && f.page.value.offset == 0
    ensures Flush(c, d, f) == CommitSize(c, d, f)
  {
    hide CommitSize;
  }

  lemma ChunkAppends(c: Config, d0: Device, d: Device, f: File, low: nat, stream: seq<byte>, chunk: seq<byte>)
    requires Active(c, d0, d, f, low, stream) && |stream| + |chunk| <= SlotSize(c)
    requires f.page.Some? && Sound(f) && f.page.value.offset + |chunk| <= PAGE_SIZE
    requires f.md.startAddress + f.cursor + |chunk| <= f.md.maxAddress
    ensures var r := WriteChunk(c, d, f, chunk);
            && r.rc.Success? && r.file.slot == f.slot && f.md.fileSize <= r.file.md.fileSize
            && r.file.md.revision == (f.md.revision + PagesFilled(|stream + chunk|) - PagesFilled(|stream|)) % 256
            && Active(c, d0, r.device, r.file, low, stream + chunk)
  {
    hide *;
    ActiveFacts(c, d0, d, f, low, stream);
    ChunkTurn(c, d, f, chunk);
    ActiveParts(c, d0, d, f, low, stream);
    PagesOfChunk(|stream|, |chunk|);
    RevisionIs(f.md.revision);
    if f.page.value.offset + |chunk| < PAGE_SIZE {
      PartialChunk(c, d0, d, f, low, stream, chunk);
    } else {
      FullChunk(c, d0, d, f, low, stream, chunk);
    }
  }

  /** How many pages a file of this size has filled; each was followed by a flush. */
  function PagesFilled(size: nat): nat { size / PAGE_SIZE }

  lemma PagesOfChunk(size: nat, n: nat)
    requires size - PageStart(size) + n <= PAGE_SIZE
    ensures PagesFilled(size + n) - PagesFilled(size) == if size - PageStart(size) + n == PAGE_SIZE then 1 else 0
  {}

  lemma RevisionIs(revision: nat)
    ensures NextRevision(revision) == (revision + 1) % 256
  {}

  lemma RevisionsAdd(revision: nat, a: nat, b: nat)
    ensures ((revision + a) % 256 + b) % 256 == (revision + a + b) % 256
  {}

  lemma PagesGrow(size: nat, more: nat)
    ensures PagesFilled(size) <= PagesFilled(size + more)
  {}

  lemma ChunkTurn(c: Config, d: Device, f: File, chunk: seq<byte>)
    requires f.page.Some? && Sound(f) && f.page.value.offset + |chunk| <= PAGE_SIZE
    requires f.md.startAddress + f.cursor + |chunk| <= f.md.maxAddress
    ensures |f.page.value.data| == PAGE_SIZE
    ensures f.page.value.offset + |chunk| < PAGE_SIZE ==>
              WriteChunk(c, d, f, chunk) == FileResult(d, f.(page := Some(FilledPage(f, chunk)), cursor := f.cursor + |chunk|), Success)
    ensures f.page.value.offset + |chunk| == PAGE_SIZE ==>
              var (d1, ok) := WriteDevice(d, PageAddress(f), FilledPage(f, chunk).data);
              var r := Flush(c, d1, f.(page := Some(FilledPage(f, chunk).(offset := 0))));
              ok ==> WriteChunk(c, d, f, chunk) == FileResult(r.device, r.file.(cursor := f.cursor + |chunk|), Success)
  {
    hide Flush, Splice, WriteDevice, PageAddress;
  }

  /** The three ways a turn of the write loop can go. */
  lemma WriteLoopTurn(c: Config, d: Device, f: File, data: seq<byte>, written: nat)
    requires f.page.Some? && Sound(f) && f.page.value.offset < PAGE_SIZE
    ensures data == [] ==> WriteLoop(c, d, f, data, written) == WriteResult(d, f, Success, written)
    ensures data != [] && |data| > f.md.maxAddress - f.md.startAddress - f.cursor ==>
              WriteLoop(c, d, f, data, written) == WriteResult(d, f, ErrorWrite, written)
    ensures data != [] && |data| <= f.md.maxAddress - f.md.startAddress - f.cursor ==>
              var n := Min(|data|, PAGE_SIZE - f.page.value.offset);
              && 0 < n <= |data| && f.page.value.offset + n <= PAGE_SIZE
              && var r := WriteChunk(c, d, f, data[..n]);
                 r.rc.Success? ==> WriteLoop(c, d, f, data, written) == WriteLoop(c, r.device, r.file, data[n..], written + n)
  {
    hide WriteChunk;
  }

  /** All of the data is appended to the stream, with one flush for every page that it fills. */
  ghost predicate Appended(c: Config, d0: Device, f: File, low: nat, stream: seq<byte>, data: seq<byte>, d': Device, f': File) {
    && f'.slot == f.slot && f.md.fileSize <= f'.md.fileSize
    && f'.md.revision == (f.md.revision + PagesFilled(|stream + data|) - PagesFilled(|stream|)) % 256
    && Active(c, d0, d', f', low, stream + data)
  }

  lemma AppendedNothing(c: Config, d0: Device, d: Device, f: File, low: nat, stream: seq<byte>)
    requires Active(c, d0, d, f, low, stream) && f.md.revision < 256
    ensures Appended(c, d0, f, low, stream, [], d, f)
  {
    hide Active;
    assert stream + [] == stream;
  }

  lemma AppendedThen(c: Config, d0: Device, f: File, low: nat, stream: seq<byte>, a: seq<byte>, d1: Device, f1: File,
                     b: seq<byte>, d2: Device, f2: File)
    requires Appended(c, d0, f, low, stream, a, d1, f1) && Appended(c, d0, f1, low, stream + a, b, d2, f2)
    ensures Appended(c, d0, f, low, stream, a + b, d2, f2)
  {
    hide Active;
    assert (stream + a) + b == stream + (a + b);
    PagesGrow(|stream|, |a|);
    PagesGrow(|stream| + |a|, |b|);
    RevisionsAdd(f.md.revision, PagesFilled(|stream| + |a|) - PagesFilled(|stream|),
                 PagesFilled(|stream| + |a| + |b|) - PagesFilled(|stream| + |a|));
  }

  lemma ChunkIsAppended(c: Config, d0: Device, d: Device, f: File, low: nat, stream: seq<byte>, chunk: seq<byte>)
    requires Active(c, d0, d, f, low, stream) && |stream| + |chunk| <= SlotSize(c)
    requires f.page.Some? && Sound(f) && f.page.value.offset + |chunk| <= PAGE_SIZE
    requires f.md.startAddress + f.cursor + |chunk| <= f.md.maxAddress
    ensures var r := WriteChunk(c, d, f, chunk);
            r.rc.Success? && Appended(c, d0, f, low, stream, chunk, r.device, r.file)
  {
    hide Active, WriteChunk, Sound;
    ChunkAppends(c, d0, d, f, low, stream, chunk);
  }

  /** `sfs_file_write` takes all of the data or none of it. */
  lemma {:induction false} WriteLoopIs(c: Config, d0: Device, d: Device, f: File, low: nat, stream: seq<byte>, data: seq<byte>, written: nat)
    requires Active(c, d0, d, f, low, stream) && f.page.Some? && Sound(f)
    ensures var r := WriteLoop(c, d, f, data, written);
            if |stream| + |data| <= SlotSize(c) then
              r.rc.Success? && r.written == written + |data| && Appended(c, d0, f, low, stream, data, r.device, r.file)
            else r == WriteResult(d, f, ErrorWrite, written)
    decreases |data|
  {
    hide *;
    ActiveFacts(c, d0, d, f, low, stream);
    WriteLoopTurn(c, d, f, data, written);
    if data == [] {
      AppendedNothing(c, d0, d, f, low, stream);
    } else if |stream| + |data| <= SlotSize(c) {
      var n := Min(|data|, PAGE_SIZE - f.page.value.offset);
      assert data[..n] + data[n..] == data;
      ChunkIsAppended(c, d0, d, f, low, stream, data[..n]);
      var r := WriteChunk(c, d, f, data[..n]);
      AppendedActive(c, d0, f, low, stream, data[..n], r.device, r.file);
      ActiveFacts(c, d0, r.device, r.file, low, stream + data[..n]);
      WriteLoopIs(c, d0, r.device, r.file, low, stream + data[..n], data[n..], written + n);
      var last := WriteLoop(c, d, f, data, written);
      AppendedThen(c, d0, f, low, stream, data[..n], r.device, r.file, data[n..], last.device, last.file);
    }
  }

  lemma AppendedActive(c: Config, d0: Device, f: File, low: nat, stream: seq<byte>, data: seq<byte>, d': Device, f': File)
    requires Appended(c, d0, f, low, stream, data, d', f')
    ensures Active(c, d0, d', f', low, stream + data)
  {}

  lemma WriteLoopAppends(c: Config, d0: Device, d: Device, f: File, low: nat, stream: seq<byte>, data: seq<byte>, written: nat)
    requires Active(c, d0, d, f, low, stream) && f.page.Some? && Sound(f)
    ensures var r := WriteLoop(c, d, f, data, written);
            if |stream| + |data| <= SlotSize(c) then
              && r.rc.Success? && r.written == written + |data|
              && r.file.slot == f.slot && f.md.fileSize <= r.file.md.fileSize
              && r.file.md.revision == (f.md.revision + PagesFilled(|stream + data|) - PagesFilled(|stream|)) % 256
              && Active(c, d0, r.device, r.file, low, stream + data)
            else r == WriteResult(d, f, ErrorWrite, written)
  {
    hide Active, WriteLoop, Sound, PagesFilled;
    WriteLoopIs(c, d0, d, f, low, stream, data, written);
  }

  /** Flushing commits everything written so far. */
  lemma FlushCommits(c: Config, d0: Device, d: Device, f: File, low: nat, stream: seq<byte>)
    requires Active(c, d0, d, f, low, stream)
    ensures var r := Flush(c, d, f);
            && r.rc.Success?
            && r.file == f.(md := NextMeta(f.md, |stream|))
            && Active(c, d0, r.device, r.file, low, stream)
  {
    hide *;
    ActiveParts(c, d0, d, f, low, stream);
    WritingFacts(c, d.bytes, f, stream);
    FlushPage(c, d0, d, f, low, stream);
    FlushIsPageThenSize(c, d, f);
    var d1 := FlushedPage(d, f).0;
    CommitStored(c, d0, d1, f, low, stream);
    NextMetaSize(f.md, |stream|);
    var r := CommitSize(c, d1, f);
    WritingFromStored(c, d0, r.device, r.file, low, stream);
    ActiveFrom(c, d0, r.device, r.file, low, stream);
  }
}
