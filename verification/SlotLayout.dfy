/** Where the configuration block, the metadata blocks and the slots lie on the device. */
module SlotLayout {
  import opened Bytes
  import opened SlotMeta

  const MAX_SLOTS: nat := 128
  const PAGE_SIZE: nat := 2048

  datatype Config = Config(slotCount: nat, startAddress: nat, endAddress: nat)

  /** The configuration block and all metadata blocks fit; the rest, possibly nothing, is data. */
  predicate Fits(c: Config) {
    && 1 <= c.slotCount <= MAX_SLOTS
    && c.startAddress + BLOCK_SIZE * (1 + c.slotCount * 2) <= c.endAddress < TWO_TO_THE_64
  }

  /** Integer division, with what it promises. */
  function Quotient(x: nat, d: nat): (q: nat)
    requires d > 0
    ensures q * d <= x < q * d + d
  {
    x / d
  }

  function SlotSize(c: Config): nat
    requires Fits(c)
  {
    var dataSize := (c.endAddress - c.startAddress) - BLOCK_SIZE * (1 + c.slotCount * 2);
    Quotient(Quotient(dataSize, c.slotCount), BLOCK_SIZE) * BLOCK_SIZE
  }

  function DataAddress(c: Config, slot: nat): nat
    requires Fits(c)
  {
    c.startAddress + BLOCK_SIZE * (1 + c.slotCount * 2) + SlotSize(c) * slot
  }

  function MetaAddress(c: Config, slot: nat, idx: nat): nat {
    c.startAddress + BLOCK_SIZE * (slot * 2 + 1 + idx)
  }

  /** `init_meta_data_block`. */
  function InitMetaData(c: Config, slot: nat): MetaData
    requires Fits(c)
  {
    MetaData(DataAddress(c, slot), DataAddress(c, slot) + SlotSize(c), 0, 0)
  }

  // ---- regions ----

  datatype Region = ConfigBlock | MetaBlock(slot: nat, idx: nat) | DataArea(slot: nat)

  predicate InLayout(c: Config, r: Region) {
    match r
    case ConfigBlock => true
    case MetaBlock(slot, idx) => slot < c.slotCount && idx < 2
    case DataArea(slot) => slot < c.slotCount
  }

  function Start(c: Config, r: Region): nat
    requires Fits(c)
  {
    match r
    case ConfigBlock => c.startAddress
    case MetaBlock(slot, idx) => MetaAddress(c, slot, idx)
    case DataArea(slot) => DataAddress(c, slot)
  }

  function Size(c: Config, r: Region): nat
    requires Fits(c)
  {
    if r.DataArea? then SlotSize(c) else BLOCK_SIZE
  }

  lemma MulMonotone(x: nat, a: nat, b: nat)
    requires a <= b
    ensures x * a <= x * b
  {}

  /** The slots fill the data part of the device up to less than one block a slot. */
  lemma SlotsFit(c: Config)
    requires Fits(c)
    ensures DataAddress(c, c.slotCount) <= c.endAddress
    ensures SlotSize(c) % BLOCK_SIZE == 0
  {
    hide Quotient;
    var dataSize := (c.endAddress - c.startAddress) - BLOCK_SIZE * (1 + c.slotCount * 2);
    var share := Quotient(dataSize, c.slotCount);
    assert SlotSize(c) == Quotient(share, BLOCK_SIZE) * BLOCK_SIZE;
    MulMonotone(c.slotCount, SlotSize(c), share);
  }

  lemma DataBefore(c: Config, s: nat, t: nat)
    requires Fits(c) && s < t
    ensures DataAddress(c, s) + SlotSize(c) <= DataAddress(c, t)
  {
    MulMonotone(SlotSize(c), s + 1, t);
  }

  /** Every region of the layout lies inside the configured part of the device. */
  lemma RegionInside(c: Config, r: Region)
    requires Fits(c) && InLayout(c, r)
    ensures c.startAddress <= Start(c, r) && Start(c, r) + Size(c, r) <= c.endAddress
  {
    if r.DataArea? {
      DataBefore(c, r.slot, c.slotCount);
      SlotsFit(c);
    }
  }

  predicate Disjoint(c: Config, r: Region, q: Region)
    requires Fits(c)
  {
    Start(c, r) + Size(c, r) <= Start(c, q) || Start(c, q) + Size(c, q) <= Start(c, r)
  }

  /** No two regions of the layout share a byte. */
  lemma RegionsDisjoint(c: Config, r: Region, q: Region)
    requires Fits(c) && InLayout(c, r) && InLayout(c, q) && r != q
    ensures Disjoint(c, r, q)
  {
    if r.DataArea? && q.DataArea? {
      if r.slot < q.slot { DataBefore(c, r.slot, q.slot); } else { DataBefore(c, q.slot, r.slot); }
    } else if r.DataArea? {
      MulMonotone(SlotSize(c), 0, r.slot);
    } else if q.DataArea? {
      MulMonotone(SlotSize(c), 0, q.slot);
    }
  }

  /** A metadata block of slot number s avoids the first slot's data exactly when s is below the slot
      count: the bound `slot > slot_count` of `sfs_file_open` lets one slot too many through. */
  lemma MetaBlocksEndAtSlotCount(c: Config, s: nat, idx: nat)
    requires Fits(c) && idx < 2 && SlotSize(c) > 0 && s <= c.slotCount
    ensures MetaAddress(c, s, idx) + BLOCK_SIZE <= DataAddress(c, 0) <==> s < c.slotCount
    ensures s == c.slotCount && idx == 0 ==> MetaAddress(c, s, idx) == DataAddress(c, 0)
  {}

  // ---- pages ----

  /** The page that holds file position `cursor` of a slot. */
  function PageStart(cursor: nat): (p: nat)
    ensures p <= cursor < p + PAGE_SIZE
  {
    (cursor / PAGE_SIZE) * PAGE_SIZE
  }

  lemma PageStartAligned(cursor: nat)
    ensures PageStart(cursor) % PAGE_SIZE == 0
    ensures (PageStart(cursor) + PAGE_SIZE) % PAGE_SIZE == 0
  {}

  /** Whole-page writes stay inside their slot for every file position exactly when the slot size is a
      multiple of the page size. */
  lemma PagesStayInSlot(c: Config)
    requires Fits(c)
    ensures (forall cursor :: 0 <= cursor < SlotSize(c) ==> PageStart(cursor) + PAGE_SIZE <= SlotSize(c))
       <==> SlotSize(c) % PAGE_SIZE == 0
  {
    var size := SlotSize(c);
    if size % PAGE_SIZE == 0 {
      forall cursor | 0 <= cursor < size ensures PageStart(cursor) + PAGE_SIZE <= size {
        assert cursor / PAGE_SIZE < size / PAGE_SIZE;
      }
    } else {
      var last := size - 1;
      assert PageStart(last) + PAGE_SIZE > size;
    }
  }

  // ---- contents ----

  predicate OnDevice(c: Config, bytes: seq<byte>) {
    Fits(c) && c.endAddress <= |bytes|
  }

  function Content(c: Config, bytes: seq<byte>, r: Region): (content: seq<byte>)
    requires OnDevice(c, bytes) && InLayout(c, r)
    ensures |content| == Size(c, r)
  {
    RegionInside(c, r);
    bytes[Start(c, r)..Start(c, r) + Size(c, r)]
  }

  lemma WriteWithinRegion(c: Config, bytes: seq<byte>, r: Region, at: nat, data: seq<byte>)
    requires OnDevice(c, bytes) && InLayout(c, r) && at + |data| <= Size(c, r)
    ensures Start(c, r) + at + |data| <= |bytes|
    ensures Content(c, Splice(bytes, Start(c, r) + at, data), r) == Splice(Content(c, bytes, r), at, data)
  {
    RegionInside(c, r);
    hide Start, Size;
    var from, size := Start(c, r), Size(c, r);
    assert Splice(bytes, from + at, data)[from..from + size] == Splice(bytes[from..from + size], at, data);
  }

  /** A write inside one region changes that region only. */
  lemma WriteInRegion(c: Config, bytes: seq<byte>, r: Region, at: nat, data: seq<byte>, q: Region)
    requires OnDevice(c, bytes) && InLayout(c, r) && InLayout(c, q) && at + |data| <= Size(c, r)
    ensures Start(c, r) + at + |data| <= |bytes|
    ensures Content(c, Splice(bytes, Start(c, r) + at, data), q)
         == if q == r then Splice(Content(c, bytes, r), at, data) else Content(c, bytes, q)
  {
    WriteWithinRegion(c, bytes, r, at, data);
    if q != r {
      OtherRegionsAgree(c, bytes, Splice(bytes, Start(c, r) + at, data), r, q);
    }
  }

  /** Devices that agree outside one region agree on every other region. */
  lemma OtherRegionsAgree(c: Config, bytes: seq<byte>, image: seq<byte>, r: Region, q: Region)
    requires OnDevice(c, bytes) && |image| == |bytes| && InLayout(c, r) && InLayout(c, q) && q != r
    requires forall i :: 0 <= i < |bytes| && !(Start(c, r) <= i < Start(c, r) + Size(c, r)) ==> image[i] == bytes[i]
    ensures Content(c, image, q) == Content(c, bytes, q)
  {
    RegionInside(c, r);
    RegionInside(c, q);
    RegionsDisjoint(c, r, q);
  }
}
