/** What each `sfs_*` function does to the device, the lock counters and the file handle, as functions on
    values. The classes of SlotFS.dfy are proved equal to these; the theorems are about them. */
module SlotSpec {
  import opened Bytes
  import opened SlotMeta
  import opened SlotLayout

  datatype ReturnCode =
    | Success
    | SuccessEof
    | ErrorRead
    | ErrorWrite
    | ErrorCorruptData
    | ErrorAssert
    | ErrorFileNotFound

  datatype Mode = WriteCreate | Read | Unknown

  /** `log` records every write the device has taken, oldest first. */
  datatype DeviceWrite = DeviceWrite(address: nat, data: seq<byte>)
  datatype Device = Device(bytes: seq<byte>, log: seq<DeviceWrite>)

  /** `BlockPage`. */
  datatype Page = Page(data: seq<byte>, offset: nat)

  /** `SlotFS::File`; it is open when it has a page. */
  datatype File = File(slot: nat, md: MetaData, mode: Mode, cursor: nat, page: Option<Page>)

  const NO_META: MetaData := MetaData(0, 0, 0, 0)
  const CLOSED: File := File(0, NO_META, WriteCreate, 0, None)

  /** What the asserts and unsigned subtractions of the source rely on. */
  predicate Sound(f: File) {
    f.page.Some? ==>
      && |f.page.value.data| == PAGE_SIZE && f.page.value.offset <= PAGE_SIZE
      && f.md.startAddress + f.cursor <= f.md.maxAddress
      && f.md.startAddress + f.md.fileSize <= f.md.maxAddress
  }

  // ---- device ----

  function DeviceRead(d: Device, address: nat, size: nat): (data: Option<seq<byte>>)
    ensures data.Some? ==> |data.value| == size
  {
    if address + size <= |d.bytes| then Some(d.bytes[address..address + size]) else None
  }

  function WriteDevice(d: Device, address: nat, data: seq<byte>): (r: (Device, bool))
    ensures |r.0.bytes| == |d.bytes|
  {
    if address + |data| <= |d.bytes|
    then (Device(Splice(d.bytes, address, data), d.log + [DeviceWrite(address, data)]), true)
    else (d, false)
  }

  function ReadMeta(c: Config, d: Device, slot: nat, idx: nat): Option<MetaData> {
    var block := DeviceRead(d, MetaAddress(c, slot, idx), BLOCK_SIZE);
    if block.Some? then Decode(block.value) else None
  }

  function ReadPair(c: Config, d: Device, slot: nat): Pair {
    Pair(ReadMeta(c, d, slot, 0), ReadMeta(c, d, slot, 1))
  }

  function WriteMeta(c: Config, d: Device, slot: nat, md: MetaData, idx: nat): (r: (Device, bool))
    ensures |r.0.bytes| == |d.bytes|
  {
    WriteDevice(d, MetaAddress(c, slot, idx), Encode(md))
  }

  function PageAddress(f: File): nat { f.md.startAddress + PageStart(f.cursor) }

  // ---- init, format ----

  function ConfigBytes(c: Config): (block: seq<byte>)
    ensures |block| == BLOCK_SIZE
  {
    ToLE(c.slotCount, 8) + ToLE(c.startAddress, 8) + ToLE(c.endAddress, 8) + Zeros(488)
  }

  function StoredConfig(block: seq<byte>): Config
    requires |block| == BLOCK_SIZE
  {
    Config(FromLE(block[..8]), FromLE(block[8..16]), FromLE(block[16..24]))
  }

  function FormatSlots(c: Config, d: Device, slot: nat): (r: Device)
    requires Fits(c) && slot <= c.slotCount
    ensures |r.bytes| == |d.bytes|
    decreases c.slotCount - slot
  {
    if slot == c.slotCount then d else
      var d0 := WriteMeta(c, d, slot, InitMetaData(c, slot), 0).0;
      var d1 := WriteMeta(c, d0, slot, InitMetaData(c, slot), 1).0;
      FormatSlots(c, d1, slot + 1)
  }

  function Format(c: Config, d: Device): (Device, ReturnCode)
    requires Fits(c)
  {
    var (d1, ok) := WriteDevice(d, c.startAddress, ConfigBytes(c));
    if !ok then (d1, ErrorWrite) else (FormatSlots(c, d1, 0), Success)
  }

  /** `sfs_init`: an existing file system with the same configuration is kept, anything else formatted. */
  function Init(c: Config, d: Device): (Device, ReturnCode)
    requires Fits(c)
  {
    var block := DeviceRead(d, c.startAddress, BLOCK_SIZE);
    if block.None? then (d, ErrorRead)
    else if StoredConfig(block.value) != c then Format(c, d)
    else (d, Success)
  }

  // ---- open, close, seek ----

  /** `int8_t` addition of one and subtraction of one. */
  function Int8Inc(x: int): int { if x == 127 then -128 else x + 1 }
  function Int8Dec(x: int): int { if x == -128 then 127 else x - 1 }

  function Exists(c: Config, d: Device, slot: nat): bool {
    var current := ReadPair(c, d, slot).Current();
    current.Some? && current.value.revision != 0
  }

  datatype OpenResult = OpenResult(device: Device, locks: seq<int>, file: File, rc: ReturnCode)

  function Opened(slot: nat, md: MetaData, mode: Mode): File {
    File(slot, md, mode, 0, Some(Page(Zeros(PAGE_SIZE), 0)))
  }

  /** `sfs_file_open`. Slot number `slotCount` passes the bound, and with all slots in use its counter is outside the array. */
  function Open(c: Config, d: Device, locks: seq<int>, slot: nat, mode: Mode, f: File): (r: OpenResult)
    requires Fits(c) && |locks| == MAX_SLOTS && (slot == c.slotCount ==> slot < MAX_SLOTS)
    ensures |r.locks| == MAX_SLOTS && |r.device.bytes| == |d.bytes|
  {
    if f.page.Some? then OpenResult(d, locks, f, ErrorAssert)
    else if slot > c.slotCount then OpenResult(d, locks, f, ErrorFileNotFound)
    else if mode.Read? then
      var current := ReadPair(c, d, slot).Current();
      if current.None? then OpenResult(d, locks, CLOSED, ErrorCorruptData)
      else if current.value.revision == 0 then OpenResult(d, locks, CLOSED.(md := current.value), ErrorFileNotFound)
      else OpenResult(d, locks[slot := Int8Inc(locks[slot])], Opened(slot, current.value, mode), Success)
    else if mode.WriteCreate? && locks[slot] == 0 then
      var md := InitMetaData(c, slot).(revision := 1);
      var (d0, ok0) := WriteMeta(c, d, slot, md, 0);
      if !ok0 then OpenResult(d0, locks, CLOSED.(md := md), ErrorWrite) else
      var (d1, ok1) := WriteMeta(c, d0, slot, md, 1);
      if !ok1 then OpenResult(d1, locks, CLOSED.(md := md), ErrorWrite) else
      OpenResult(d1, locks[slot := Int8Inc(locks[slot])], Opened(slot, md, mode), Success)
    else OpenResult(d, locks, CLOSED, ErrorAssert)
  }

  function Seek(f: File, position: nat): (File, ReturnCode) {
    if f.page.None? || f.mode.WriteCreate? then (f, ErrorAssert)
    else if position >= f.md.fileSize then (f, ErrorAssert)
    else (f.(cursor := position, page := Some(f.page.value.(offset := 0))), Success)
  }

  // ---- write, flush ----

  datatype FileResult = FileResult(device: Device, file: File, rc: ReturnCode)

  /** The second half of a flush: the cursor becomes the file size in the older metadata block. */
  function CommitSize(c: Config, d: Device, f: File): (r: FileResult)
    ensures |r.device.bytes| == |d.bytes|
    ensures r.file == f.(md := f.md.(fileSize := f.cursor, revision := NextRevision(f.md.revision)))
  {
    var next := f.md.(fileSize := f.cursor, revision := NextRevision(f.md.revision));
    var newest := ReadPair(c, d, f.slot).Newest();
    if newest.None? then FileResult(d, f.(md := next), ErrorCorruptData)
    else FileResult(WriteMeta(c, d, f.slot, next, (newest.value + 1) % 2).0, f.(md := next), Success)
  }

  /** `sfs_file_flush`. */
  function Flush(c: Config, d: Device, f: File): (r: FileResult)
    ensures |r.device.bytes| == |d.bytes|
    ensures r.file == f.(md := r.file.md) && r.file.md.startAddress == f.md.startAddress && r.file.md.maxAddress == f.md.maxAddress
    ensures Sound(f) ==> Sound(r.file)
  {
    if f.page.None? || !f.mode.WriteCreate? then FileResult(d, f, ErrorAssert) else
    var (d1, ok) := if f.page.value.offset > 0 then WriteDevice(d, PageAddress(f), f.page.value.data) else (d, true);
    if !ok then FileResult(d1, f, ErrorWrite) else
    CommitSize(c, d1, f)
  }

  datatype WriteResult = WriteResult(device: Device, file: File, rc: ReturnCode, written: nat)

  /** One turn of the loop of `sfs_file_write`: `chunk` goes into the page; a full page goes out and is
      followed by a flush, before the cursor moves. The result of that flush is ignored. */
  function WriteChunk(c: Config, d: Device, f: File, chunk: seq<byte>): (r: FileResult)
    requires Sound(f) && f.page.Some? && f.page.value.offset + |chunk| <= PAGE_SIZE
    requires f.md.startAddress + f.cursor + |chunk| <= f.md.maxAddress
    ensures |r.device.bytes| == |d.bytes| && r.file.page.Some?
    ensures r.rc.Success? ==> Sound(r.file) && r.file.page.value.offset == (f.page.value.offset + |chunk|) % PAGE_SIZE
  {
    var page := f.page.value;
    var filled := Page(Splice(page.data, page.offset, chunk), page.offset + |chunk|);
    if filled.offset < PAGE_SIZE then
      FileResult(d, f.(page := Some(filled), cursor := f.cursor + |chunk|), Success)
    else
      var (d1, ok) := WriteDevice(d, PageAddress(f), filled.data);
      if !ok then FileResult(d1, f.(page := Some(filled)), ErrorWrite) else
      var flushed := Flush(c, d1, f.(page := Some(filled.(offset := 0))));
      FileResult(flushed.device, flushed.file.(cursor := f.cursor + |chunk|), Success)
  }

  /** The loop of `sfs_file_write`, from the point where `written` bytes are done and `data` is left. */
  function WriteLoop(c: Config, d: Device, f: File, data: seq<byte>, written: nat): (r: WriteResult)
    requires Sound(f) && f.page.Some?
    ensures |r.device.bytes| == |d.bytes| && r.file.page.Some?
    ensures r.rc.Success? ==> Sound(r.file)
    decreases |data|, f.page.value.offset
  {
    if data == [] then WriteResult(d, f, Success, written)
    else if |data| > f.md.maxAddress - f.md.startAddress - f.cursor then WriteResult(d, f, ErrorWrite, written)
    else
      var n := Min(|data|, PAGE_SIZE - f.page.value.offset);
      var r := WriteChunk(c, d, f, data[..n]);
      if !r.rc.Success? then WriteResult(r.device, r.file, r.rc, written)
      else WriteLoop(c, r.device, r.file, data[n..], written + n)
  }

  function Write(c: Config, d: Device, f: File, data: seq<byte>): (r: WriteResult)
    requires Sound(f)
  {
    if f.page.None? then WriteResult(d, f, ErrorAssert, 0) else WriteLoop(c, d, f, data, 0)
  }

  // ---- read ----

  datatype ReadResult = ReadResult(file: File, rc: ReturnCode, data: seq<byte>)

  /** The page as the read loop finds it: reloaded from the device when it is empty or used up. */
  function LoadPage(d: Device, f: File): (page: Option<Page>)
    requires Sound(f) && f.page.Some?
    ensures page.Some? ==> |page.value.data| == PAGE_SIZE && page.value.offset < PAGE_SIZE
  {
    var page := f.page.value;
    if page.offset == PAGE_SIZE || page.offset == 0 then
      var data := DeviceRead(d, PageAddress(f), PAGE_SIZE);
      if data.None? then None else Some(Page(data.value, f.cursor - PageStart(f.cursor)))
    else f.page
  }

  function ReadLoop(d: Device, f: File, size: nat, done: seq<byte>): (r: ReadResult)
    requires Sound(f) && f.page.Some?
    decreases size
  {
    if size == 0 then ReadResult(f, Success, done)
    else if f.cursor >= f.md.fileSize then ReadResult(f, SuccessEof, done)
    else
      var loaded := LoadPage(d, f);
      if loaded.None? then ReadResult(f, ErrorRead, done) else
      var page := loaded.value;
      var n := Min(PAGE_SIZE - page.offset, Min(size, f.md.fileSize - f.cursor));
      ReadLoop(d, f.(cursor := f.cursor + n, page := Some(page.(offset := page.offset + n))), size - n,
               done + page.data[page.offset..page.offset + n])
  }

  function ReadFile(d: Device, f: File, size: nat): (r: ReadResult)
    requires Sound(f)
  {
    if f.page.None? || !f.mode.Read? then ReadResult(f, ErrorAssert, []) else ReadLoop(d, f, size, [])
  }

  // ---- close ----

  datatype CloseResult = CloseResult(device: Device, locks: seq<int>, file: File, rc: ReturnCode)

  function Close(c: Config, d: Device, locks: seq<int>, f: File): (r: CloseResult)
    requires f.page.Some? ==> f.slot < |locks|
    ensures |r.locks| == |locks| && |r.device.bytes| == |d.bytes|
  {
    if f.page.None? then CloseResult(d, locks, f, ErrorAssert) else
    var flushed := if f.mode.WriteCreate? then Flush(c, d, f) else FileResult(d, f, Success);
    if !flushed.rc.Success? then CloseResult(flushed.device, locks, flushed.file, flushed.rc)
    else CloseResult(flushed.device, locks[f.slot := Int8Dec(locks[f.slot])], CLOSED, Success)
  }
}
