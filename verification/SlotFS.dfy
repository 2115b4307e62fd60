/** The file system as the source has it: mutable structs over a block device. Every method is proved equal to
    its function in SlotSpec.dfy, about which SlotTheorems, SlotRuns and SlotRoundTrip state what it means. */
module SlotFS {
  import opened Bytes
  import opened SlotMeta
  import opened SlotLayout
  import S = SlotSpec

  /** A byte-array device: a request outside it fails and changes nothing. `log` records the writes it took. */
  class BlockDevice {
    var bytes: seq<byte>
    ghost var log: seq<S.DeviceWrite>

    ghost function State(): S.Device
      reads this
    {
      S.Device(bytes, log)
    }

    method Write(address: nat, data: seq<byte>) returns (rc: int)
      modifies this
      ensures (State(), rc == 0) == S.WriteDevice(old(State()), address, data)
    {
      if address + |data| <= |bytes| {
        bytes := Splice(bytes, address, data);
        log := log + [S.DeviceWrite(address, data)];
        rc := 0;
      } else {
        rc := -1;
      }
    }

    method Read(address: nat, size: nat) returns (rc: int, data: seq<byte>)
      ensures (if rc == 0 then Some(data) else None) == S.DeviceRead(State(), address, size)
    {
      if address + size <= |bytes| {
        rc, data := 0, bytes[address..address + size];
      } else {
        rc, data := -1, [];
      }
    }
  }

  class BlockPage {
    const data: array<byte>
    var offset: nat

    ghost function State(): S.Page
      reads this, data
    {
      S.Page(data[..], offset)
    }

    constructor (size: nat)
      ensures State() == S.Page(Zeros(size), 0) && fresh(data)
    {
      data := new byte[size](_ => 0);
      offset := 0;
      new;
      assert data[..] == Zeros(size);
    }

    method Clear()
      modifies this
      ensures State() == old(State()).(offset := 0)
    {
      offset := 0;
    }

    /** `memcpy(data + offset, chunk, |chunk|); offset += |chunk|`. */
    method Put(chunk: seq<byte>)
      requires offset + |chunk| <= data.Length
      modifies this, data
      ensures State() == S.Page(Splice(old(data[..]), old(offset), chunk), old(offset) + |chunk|)
    {
      CopyInto(data, offset, chunk);
      offset := offset + |chunk|;
    }

    /** Fill the page with what was read from the device and point into it. */
    method Load(content: seq<byte>, at: nat)
      requires |content| == data.Length
      modifies this, data
      ensures State() == S.Page(content, at)
    {
      CopyInto(data, 0, content);
      assert data[..] == content;
      offset := at;
    }
  }

  class File {
    var slot: nat
    var md: MetaData
    var mode: S.Mode
    var cursor: nat
    var blockPage: BlockPage?

    ghost function Repr(): set<object>
      reads this
    {
      {this} + if blockPage == null then {} else {blockPage, blockPage.data}
    }

    ghost function State(): S.File
      reads this, Repr()
    {
      S.File(slot, md, mode, cursor, if blockPage == null then None else Some(blockPage.State()))
    }

    constructor ()
      ensures State() == S.CLOSED.(mode := S.Unknown) && fresh(Repr())
    {
      slot, md, mode, cursor, blockPage := 0, S.NO_META, S.Unknown, 0, null;
    }

    /** `memset(file, 0, sizeof(File))`. */
    method Zero()
      modifies this
      ensures State() == S.CLOSED
    {
      slot, md, mode, cursor, blockPage := 0, S.NO_META, S.WriteCreate, 0, null;
    }
  }

  class SlotFS {
    const device: BlockDevice
    const config: Config
    const lockCounters: array<int>

    ghost predicate Valid() {
      Fits(config) && lockCounters.Length == MAX_SLOTS
    }

    constructor (device: BlockDevice, config: Config)
      requires Fits(config)
      ensures Valid() && this.device == device && this.config == config
      ensures fresh(lockCounters) && lockCounters[..] == seq(MAX_SLOTS, _ => 0)
    {
      this.device, this.config := device, config;
      lockCounters := new int[MAX_SLOTS](_ => 0);
      new;
      assert lockCounters[..] == seq(MAX_SLOTS, _ => 0);
    }

    // ---- metadata ----

    method WriteMetaDataBlock(slot: nat, md: MetaData, idx: nat) returns (ok: bool)
      modifies device
      ensures (device.State(), ok) == S.WriteMeta(config, old(device.State()), slot, md, idx)
    {
      hide Encode;
      var rc := device.Write(MetaAddress(config, slot, idx), Encode(md));
      ok := rc == 0;
    }

    method ReadMetaDataBlock(slot: nat, idx: nat) returns (md: Option<MetaData>)
      ensures md == S.ReadMeta(config, device.State(), slot, idx)
    {
      hide Decode;
      var rc, block := device.Read(MetaAddress(config, slot, idx), BLOCK_SIZE);
      md := if rc == 0 then Decode(block) else None;
    }

    method ReadPair(slot: nat) returns (p: Pair)
      ensures p == S.ReadPair(config, device.State(), slot)
    {
      hide S.ReadMeta;
      var a := ReadMetaDataBlock(slot, 0);
      var b := ReadMetaDataBlock(slot, 1);
      p := Pair(a, b);
    }

    // ---- init, format ----

    method Format() returns (rc: S.ReturnCode)
      requires Valid()
      modifies device
      ensures (device.State(), rc) == S.Format(config, old(device.State()))
    {
      hide S.ConfigBytes, S.WriteMeta, S.WriteDevice, InitMetaData;
      var r := device.Write(config.startAddress, S.ConfigBytes(config));
      if r != 0 { return S.ErrorWrite; }
      ghost var start := device.State();
      var s := 0;
      while s < config.slotCount
        invariant s <= config.slotCount
        invariant S.FormatSlots(config, device.State(), s) == S.FormatSlots(config, start, 0)
      {
        var md := InitMetaData(config, s);
        var _ := WriteMetaDataBlock(s, md, 0);
        var _ := WriteMetaDataBlock(s, md, 1);
        s := s + 1;
      }
      rc := S.Success;
    }

    method Init() returns (rc: S.ReturnCode)
      requires Valid()
      modifies device, lockCounters
      ensures (device.State(), rc) == S.Init(config, old(device.State()))
      ensures lockCounters[..] == seq(MAX_SLOTS, _ => 0)
    {
      hide S.StoredConfig, S.Format;
      forall k | 0 <= k < MAX_SLOTS {
        lockCounters[k] := 0;
      }
      assert lockCounters[..] == seq(MAX_SLOTS, _ => 0);
      var r, block := device.Read(config.startAddress, BLOCK_SIZE);
      if r != 0 { return S.ErrorRead; }
      if S.StoredConfig(block) != config {
        rc := Format();
      } else {
        rc := S.Success;
      }
    }

    // ---- open, close, seek ----

    method FileExists(slot: nat) returns (exists_: bool)
      ensures exists_ == S.Exists(config, device.State(), slot)
    {
      hide S.ReadPair, Pair.Current;
      var p := ReadPair(slot);
      var current := p.Current();
      exists_ := current.Some? && current.value.revision != 0;
    }

    method OpenFile(slot: nat, mode: S.Mode, file: File) returns (rc: S.ReturnCode)
      requires Valid() && (slot == config.slotCount ==> slot < MAX_SLOTS)
      modifies device, lockCounters, file
      ensures S.OpenResult(device.State(), lockCounters[..], file.State(), rc)
           == S.Open(config, old(device.State()), old(lockCounters[..]), slot, mode, old(file.State()))
      ensures file.blockPage == old(file.blockPage) || file.blockPage == null || fresh(file.Repr() - {file})
    {
      hide S.ReadPair, Pair.Current, S.WriteMeta, InitMetaData;
      if file.blockPage != null { return S.ErrorAssert; }
      if slot > config.slotCount { return S.ErrorFileNotFound; }
      file.Zero();
      if mode == S.Read {
        var p := ReadPair(slot);
        var current := p.Current();
        if current.None? { return S.ErrorCorruptData; }
        file.md := current.value;
        if file.md.revision == 0 { return S.ErrorFileNotFound; }
      } else if mode == S.WriteCreate && lockCounters[slot] == 0 {
        file.md := InitMetaData(config, slot).(revision := 1);
        var ok := WriteMetaDataBlock(slot, file.md, 0);
        if !ok { return S.ErrorWrite; }
        ok := WriteMetaDataBlock(slot, file.md, 1);
        if !ok { return S.ErrorWrite; }
      } else {
        return S.ErrorAssert;
      }
      file.slot, file.mode, file.cursor := slot, mode, 0;
      file.blockPage := new BlockPage(PAGE_SIZE);
      lockCounters[slot] := S.Int8Inc(lockCounters[slot]);
      rc := S.Success;
    }

    method Seek(file: File, position: nat) returns (rc: S.ReturnCode)
      modifies file.Repr()
      ensures (file.State(), rc) == S.Seek(old(file.State()), position)
      ensures file.blockPage == old(file.blockPage)
    {
      if file.blockPage == null || file.mode == S.WriteCreate { return S.ErrorAssert; }
      if position >= file.md.fileSize { return S.ErrorAssert; }
      file.cursor := position;
      file.blockPage.Clear();
      rc := S.Success;
    }

    method CloseFile(file: File) returns (rc: S.ReturnCode)
      requires Valid() && (file.blockPage != null ==> file.slot < MAX_SLOTS)
      modifies device, lockCounters, file.Repr()
      ensures S.CloseResult(device.State(), lockCounters[..], file.State(), rc)
           == S.Close(config, old(device.State()), old(lockCounters[..]), old(file.State()))
    {
      hide S.Flush;
      if file.blockPage == null { return S.ErrorAssert; }
      if file.mode == S.WriteCreate {
        var r := Flush(file);
        if r != S.Success { return r; }
      }
      lockCounters[file.slot] := S.Int8Dec(lockCounters[file.slot]);
      file.Zero();
      rc := S.Success;
    }

    // ---- write, flush ----

    method Flush(file: File) returns (rc: S.ReturnCode)
      modifies device, file
      ensures S.FileResult(device.State(), file.State(), rc) == S.Flush(config, old(device.State()), old(file.State()))
      ensures file.blockPage == old(file.blockPage)
    {
      hide S.ReadPair, S.WriteMeta, S.WriteDevice, MostRecent;
      if file.blockPage == null || file.mode != S.WriteCreate { return S.ErrorAssert; }
      if file.blockPage.offset > 0 {
        var r := device.Write(file.md.startAddress + PageStart(file.cursor), file.blockPage.data[..]);
        if r != 0 { return S.ErrorWrite; }
      }
      file.md := file.md.(fileSize := file.cursor, revision := NextRevision(file.md.revision));
      var p := ReadPair(file.slot);
      var newest := p.Newest();
      if newest.None? { return S.ErrorCorruptData; }
      var _ := WriteMetaDataBlock(file.slot, file.md, (newest.value + 1) % 2);
      rc := S.Success;
    }

    /** One turn of the write loop. */
    method WriteChunk(file: File, chunk: seq<byte>) returns (rc: S.ReturnCode)
      requires S.Sound(file.State()) && file.blockPage != null && file.blockPage.offset + |chunk| <= PAGE_SIZE
      requires file.md.startAddress + file.cursor + |chunk| <= file.md.maxAddress
      modifies device, file.Repr()
      ensures S.FileResult(device.State(), file.State(), rc) == S.WriteChunk(config, old(device.State()), old(file.State()), chunk)
      ensures file.blockPage == old(file.blockPage)
    {
      hide S.Flush, S.WriteDevice, PageStart;
      file.blockPage.Put(chunk);
      if file.blockPage.offset == PAGE_SIZE {
        var r := device.Write(file.md.startAddress + PageStart(file.cursor), file.blockPage.data[..]);
        if r != 0 { return S.ErrorWrite; }
        file.blockPage.Clear();
        var _ := Flush(file);
      }
      file.cursor := file.cursor + |chunk|;
      rc := S.Success;
    }

    method Write(file: File, data: seq<byte>) returns (rc: S.ReturnCode, written: nat)
      requires S.Sound(file.State())
      modifies device, file.Repr()
      ensures S.WriteResult(device.State(), file.State(), rc, written) == S.Write(config, old(device.State()), old(file.State()), data)
      ensures file.blockPage == old(file.blockPage)
    {
      hide S.WriteChunk;
      if file.blockPage == null { return S.ErrorAssert, 0; }
      written := 0;
      var cur := 0;
      while cur < |data|
        invariant cur <= |data| && file.blockPage == old(file.blockPage) && file.blockPage != null
        invariant S.Sound(file.State())
        invariant S.WriteLoop(config, device.State(), file.State(), data[cur..], written)
               == S.WriteLoop(config, old(device.State()), old(file.State()), data, 0)
        decreases |data| - cur, file.blockPage.offset
      {
        if |data| - cur > file.md.maxAddress - file.md.startAddress - file.cursor {
          return S.ErrorWrite, written;
        }
        var n := Min(|data| - cur, PAGE_SIZE - file.blockPage.offset);
        assert data[cur..][..n] == data[cur..cur + n] && data[cur..][n..] == data[cur + n..];
        var r := WriteChunk(file, data[cur..cur + n]);
        if r != S.Success { return r, written; }
        cur, written := cur + n, written + n;
      }
      rc := S.Success;
    }

    // ---- read ----

    method LoadPage(file: File) returns (ok: bool)
      requires S.Sound(file.State()) && file.blockPage != null
      modifies file.Repr()
      ensures file.blockPage == old(file.blockPage)
      ensures var page := S.LoadPage(device.State(), old(file.State()));
              ok == page.Some? && file.State() == if ok then old(file.State()).(page := page) else old(file.State())
    {
      if file.blockPage.offset == PAGE_SIZE || file.blockPage.offset == 0 {
        var r, content := device.Read(file.md.startAddress + PageStart(file.cursor), PAGE_SIZE);
        if r != 0 { return false; }
        file.blockPage.Load(content, file.cursor - PageStart(file.cursor));
      }
      ok := true;
    }

    method Read(file: File, size: nat) returns (rc: S.ReturnCode, data: seq<byte>)
      requires S.Sound(file.State())
      modifies file.Repr()
      ensures S.ReadResult(file.State(), rc, data) == S.ReadFile(device.State(), old(file.State()), size)
      ensures file.blockPage == old(file.blockPage)
    {
      hide S.LoadPage;
      data := [];
      if file.blockPage == null || file.mode != S.Read { return S.ErrorAssert, data; }
      var left: nat := size;
      while left > 0
        invariant file.blockPage == old(file.blockPage) && file.blockPage != null
        invariant S.Sound(file.State())
        invariant S.ReadLoop(device.State(), file.State(), left, data) == S.ReadLoop(device.State(), old(file.State()), size, [])
      {
        if file.cursor >= file.md.fileSize { return S.SuccessEof, data; }
        var ok := LoadPage(file);
        if !ok { return S.ErrorRead, data; }
        assert file.blockPage.offset < PAGE_SIZE;
        var page := file.blockPage;
        var n := Min(PAGE_SIZE - page.offset, Min(left, file.md.fileSize - file.cursor));
        data := data + page.data[page.offset..page.offset + n];
        file.cursor := file.cursor + n;
        page.offset := page.offset + n;
        left := left - n;
      }
      rc := S.Success;
    }
  }
}
