/** A file open for reading, and the creation of a file. */
module SlotReader {
  import opened Bytes
  import opened SlotMeta
  import opened SlotLayout
  import opened SlotSpec
  import opened SlotCrash
  import opened SlotWriter

  /** The page starting at file position `base` holds the bytes of the file there. */
  ghost predicate PageMatches(data: seq<byte>, base: nat, file: seq<byte>) {
    && |data| == PAGE_SIZE
    && forall i :: base <= i < base + PAGE_SIZE && i < |file| ==> data[i - base] == file[i]
  }

  /** A page used in part holds the bytes of the file around the cursor. */
  ghost predicate PageCurrent(page: Page, cursor: nat, file: seq<byte>) {
    && |page.data| == PAGE_SIZE && page.offset <= PAGE_SIZE
    && (0 < page.offset < PAGE_SIZE ==>
         && page.offset == cursor - PageStart(cursor)
         && PageMatches(page.data, PageStart(cursor), file))
  }

  /** `file` is what the handle covers: the file as it was committed when it was opened. */
  ghost predicate Reading(c: Config, f: File, file: seq<byte>) {
    && Fits(c) && f.page.Some? && f.mode.Read? && f.slot < c.slotCount
    && Sane(c, f.slot, f.md) && f.md.fileSize == |file|
    && f.cursor <= |file|
    && PageCurrent(f.page.value, f.cursor, file)
  }

  lemma ReadingFacts(c: Config, f: File, file: seq<byte>)
    requires Reading(c, f, file)
    ensures Fits(c) && Sound(f) && f.page.Some? && f.mode.Read? && f.slot < c.slotCount
    ensures f.md.fileSize == |file| <= SlotSize(c) && f.cursor <= |file|
    ensures f.md.startAddress == DataAddress(c, f.slot)
    ensures PageCurrent(f.page.value, f.cursor, file) && f.page.value.offset <= PAGE_SIZE == |f.page.value.data|
  {
    hide SlotSize, DataAddress;
  }

  /** The file lies in the slot's data area. */
  ghost predicate FileOnDevice(c: Config, bytes: seq<byte>, slot: nat, file: seq<byte>) {
    && OnDevice(c, bytes) && slot < c.slotCount && |file| <= SlotSize(c)
    && Content(c, bytes, DataArea(slot))[..|file|] == file
  }

  lemma PageBytes(c: Config, bytes: seq<byte>, slot: nat, file: seq<byte>, base: nat, at: nat)
    requires FileOnDevice(c, bytes, slot, file) && base + PAGE_SIZE <= SlotSize(c) && at == DataAddress(c, slot) + base
    ensures at + PAGE_SIZE <= |bytes|
    ensures PageMatches(bytes[at..at + PAGE_SIZE], base, file)
  {
    RegionInside(c, DataArea(slot));
    hide SlotSize, DataAddress;
    var data := Content(c, bytes, DataArea(slot));
    forall i | base <= i < base + PAGE_SIZE && i < |file| ensures bytes[at..at + PAGE_SIZE][i - base] == file[i] {
      assert data[..|file|][i] == data[i];
    }
  }

  /** The page the read loop works from holds the file around the cursor. */
  lemma LoadPageLoads(c: Config, d: Device, f: File, file: seq<byte>)
    requires Reading(c, f, file) && Paged(c) && FileOnDevice(c, d.bytes, f.slot, file) && f.cursor < |file| && Sound(f)
    ensures var page := LoadPage(d, f);
            && page.Some? && page.value.offset == f.cursor - PageStart(f.cursor)
            && PageMatches(page.value.data, PageStart(f.cursor), file)
  {
    hide *;
    ReadingFacts(c, f, file);
    PageAddressIs(c, f, f.cursor);
    PageStartAligned(f.cursor);
    PageStartBound(f.cursor);
    PageRoom(c, PageStart(f.cursor));
    PageBytes(c, d.bytes, f.slot, file, PageStart(f.cursor), PageAddress(f));
    LoadPageIs(d, f, file);
  }

  lemma LoadPageIs(d: Device, f: File, file: seq<byte>)
    requires Sound(f) && f.page.Some? && PageCurrent(f.page.value, f.cursor, file)
    requires PageAddress(f) + PAGE_SIZE <= |d.bytes|
    requires PageMatches(d.bytes[PageAddress(f)..PageAddress(f) + PAGE_SIZE], PageStart(f.cursor), file)
    ensures var page := LoadPage(d, f);
            && page.Some? && page.value.offset == f.cursor - PageStart(f.cursor)
            && PageMatches(page.value.data, PageStart(f.cursor), file)
  {
    hide PageMatches, PageStart, PageAddress;
  }

  lemma PageStartBound(cursor: nat)
    ensures PageStart(cursor) <= cursor < PageStart(cursor) + PAGE_SIZE
  {}

  lemma PageStartWithin(cursor: nat, next: nat)
    requires cursor <= next < PageStart(cursor) + PAGE_SIZE
    ensures PageStart(next) == PageStart(cursor)
  {}

  lemma ReadChunk(page: Page, cursor: nat, file: seq<byte>, n: nat)
    requires |page.data| == PAGE_SIZE && page.offset == cursor - PageStart(cursor)
    requires PageMatches(page.data, PageStart(cursor), file)
    requires page.offset + n <= PAGE_SIZE && cursor + n <= |file|
    ensures page.data[page.offset..page.offset + n] == file[cursor..cursor + n]
    ensures PageCurrent(page.(offset := page.offset + n), cursor + n, file)
  {
    hide PageStart;
    if page.offset + n < PAGE_SIZE {
      PageStartWithin(cursor, cursor + n);
    }
  }

  lemma ReadingMoves(c: Config, f: File, file: seq<byte>, cursor: nat, page: Page)
    requires Reading(c, f, file) && cursor <= |file| && PageCurrent(page, cursor, file)
    ensures Reading(c, f.(cursor := cursor, page := Some(page)), file)
  {
    hide SlotSize, DataAddress, PageStart, PageCurrent;
  }

  /** Reading returns the file's bytes from the cursor on, as many as were asked for and are there. */
  lemma {:induction false} ReadLoopReads(c: Config, d: Device, f: File, file: seq<byte>, size: nat, done: seq<byte>)
    requires Reading(c, f, file) && Paged(c) && FileOnDevice(c, d.bytes, f.slot, file)
    requires f.page.Some? && Sound(f) && f.cursor <= |file|
    ensures var r := ReadLoop(d, f, size, done);
            var n := if size <= |file| - f.cursor then size else |file| - f.cursor;
            && r.data == done + file[f.cursor..f.cursor + n]
            && r.rc == (if size <= |file| - f.cursor then Success else SuccessEof)
            && r.file == f.(cursor := f.cursor + n, page := r.file.page)
            && Reading(c, r.file, file)
    decreases size
  {
    hide *;
    ReadingFacts(c, f, file);
    ReadLoopEnds(d, f, size, done);
    if size == 0 || f.cursor == |file| {
      assert done + file[f.cursor..f.cursor] == done;
    } else {
      LoadPageLoads(c, d, f, file);
      PageStartBound(f.cursor);
      ReadLoopTurn(d, f, size, done);
      var page := LoadPage(d, f).value;
      var n := Min(PAGE_SIZE - page.offset, Min(size, |file| - f.cursor));
      var next := page.(offset := page.offset + n);
      var f1 := f.(cursor := f.cursor + n, page := Some(next));
      ReadChunk(page, f.cursor, file, n);
      ReadingMoves(c, f, file, f.cursor + n, next);
      var done1 := done + page.data[page.offset..page.offset + n];
      ReadLoopReads(c, d, f1, file, size - n, done1);
      var m := if size - n <= |file| - f1.cursor then size - n else |file| - f1.cursor;
      assert done1 + file[f1.cursor..f1.cursor + m] == done + file[f.cursor..f.cursor + n + m];
    }
  }

  lemma ReadLoopEnds(d: Device, f: File, size: nat, done: seq<byte>)
    requires Sound(f) && f.page.Some?
    ensures size == 0 ==> ReadLoop(d, f, size, done) == ReadResult(f, Success, done)
    ensures size > 0 && f.cursor >= f.md.fileSize ==> ReadLoop(d, f, size, done) == ReadResult(f, SuccessEof, done)
  {
    hide LoadPage;
  }

  lemma ReadLoopTurn(d: Device, f: File, size: nat, done: seq<byte>)
    requires Sound(f) && f.page.Some? && size > 0 && f.cursor < f.md.fileSize && LoadPage(d, f).Some?
    ensures var page := LoadPage(d, f).value;
            var n := Min(PAGE_SIZE - page.offset, Min(size, f.md.fileSize - f.cursor));
            var f1 := f.(cursor := f.cursor + n, page := Some(page.(offset := page.offset + n)));
            && 0 < n <= size && f.cursor + n <= f.md.fileSize && page.offset + n <= PAGE_SIZE && Sound(f1)
            && ReadLoop(d, f, size, done) == ReadLoop(d, f1, size - n, done + page.data[page.offset..page.offset + n])
  {
    hide LoadPage;
  }

  // ---- opening and seeking ----

  lemma OpenedReads(c: Config, slot: nat, md: MetaData, file: seq<byte>)
    requires Fits(c) && slot < c.slotCount && Sane(c, slot, md) && md.fileSize == |file|
    ensures Reading(c, Opened(slot, md, Mode.Read), file)
  {
    hide SlotSize, DataAddress, PageStart;
  }

  lemma SeekReads(c: Config, f: File, file: seq<byte>, position: nat)
    requires Reading(c, f, file)
    ensures var (f1, rc) := Seek(f, position);
            if position < |file| then rc.Success? && f1.cursor == position && f1.md == f.md && f1.slot == f.slot && Reading(c, f1, file)
            else rc.ErrorAssert? && f1 == f
  {
    hide SlotSize, DataAddress, PageStart;
  }
}
