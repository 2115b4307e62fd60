/** Formatting the device and creating a file: the metadata writes that do not follow the A/B alternation. */
module SlotCreate {
  import opened Bytes
  import opened SlotMeta
  import opened SlotLayout
  import opened SlotSpec
  import opened SlotCrash
  import opened SlotCommit
  import opened SlotWriter

  lemma InitIsSane(c: Config, slot: nat, revision: nat)
    requires Fits(c) && slot < c.slotCount && revision < 256
    ensures Sane(c, slot, InitMetaData(c, slot).(revision := revision))
  {}

  /** `d1` is `d` with one metadata block of the slot replaced by `md`, and nothing else changed. */
  ghost predicate Replaced(c: Config, d: Device, d1: Device, slot: nat, i: nat, md: MetaData) {
    && OnDevice(c, d.bytes) && slot < c.slotCount && |d1.bytes| == |d.bytes|
    && OthersSame(c, d.bytes, d1.bytes, slot)
    && Content(c, d1.bytes, DataArea(slot)) == Content(c, d.bytes, DataArea(slot))
    && PairOf(c, d1.bytes, slot) == PairOf(c, d.bytes, slot).Set(i, Some(md))
    && d1.log == d.log + [DeviceWrite(MetaAddress(c, slot, i), Encode(md))]
    && d1.bytes == Apply(d.bytes, DeviceWrite(MetaAddress(c, slot, i), Encode(md)))
  }

  lemma WriteMetaReplaces(c: Config, d: Device, slot: nat, md: MetaData, i: nat)
    requires OnDevice(c, d.bytes) && slot < c.slotCount && i < 2 && Sane(c, slot, md)
    ensures WriteMeta(c, d, slot, md, i).1
    ensures Replaced(c, d, WriteMeta(c, d, slot, md, i).0, slot, i, md)
    ensures |WriteMeta(c, d, slot, md, i).0.bytes| == |d.bytes|
  {
    hide Decode, Encode;
    var r := MetaBlock(slot, i);
    RegionInside(c, r);
    var d1 := WriteMeta(c, d, slot, md, i).0;
    OnlyRegionChanged(c, d.bytes, d1.bytes, r);
    WriteWithinRegion(c, d.bytes, r, 0, Encode(md));
    assert Content(c, d1.bytes, r) == Encode(md);
    SaneIsStorable(c, slot, md);
    MetaRoundTrip(md);
    MetaBlockReplaced(c, d.bytes, d1.bytes, slot, i);
  }

  /** Both blocks of a slot replaced, one after the other. */
  lemma BothReplaced(c: Config, d: Device, d0: Device, d1: Device, slot: nat, md: MetaData)
    requires Replaced(c, d, d0, slot, 0, md) && Replaced(c, d0, d1, slot, 1, md)
    ensures OnDevice(c, d1.bytes) && |d1.bytes| == |d.bytes| && OthersSame(c, d.bytes, d1.bytes, slot)
    ensures PairOf(c, d1.bytes, slot) == Pair(Some(md), Some(md))
    ensures d1.log == d.log + [DeviceWrite(MetaAddress(c, slot, 0), Encode(md)), DeviceWrite(MetaAddress(c, slot, 1), Encode(md))]
  {
    hide Encode, PairOf, Content, OthersSame, MetaAddress, Apply;
    OthersSameTransitive(c, d.bytes, d0.bytes, d1.bytes, slot);
  }

  /** A metadata write cut short leaves that block old, new or invalid. */
  lemma TornMeta(c: Config, bytes: seq<byte>, slot: nat, md: MetaData, i: nat, image: seq<byte>)
    requires OnDevice(c, bytes) && slot < c.slotCount && i < 2 && Sane(c, slot, md)
    requires Torn(bytes, DeviceWrite(MetaAddress(c, slot, i), Encode(md)), image)
    ensures OthersSame(c, bytes, image, slot)
    ensures Content(c, image, DataArea(slot)) == Content(c, bytes, DataArea(slot))
    ensures var p := PairOf(c, bytes, slot);
            var q := PairOf(c, image, slot);
            q == p || q == p.Set(i, None) || q == p.Set(i, Some(md))
  {
    hide Encode, Decode, TornData;
    var r := MetaBlock(slot, i);
    RegionInside(c, r);
    OnlyRegionChanged(c, bytes, image, r);
    MetaBlockReplaced(c, bytes, image, slot, i);
    SaneIsStorable(c, slot, md);
    MetaRoundTrip(md);
    TornBlockDecodes(Content(c, bytes, r), Encode(md), Content(c, image, r));
  }

  // ---- creating a file ----

  function CreatedMeta(c: Config, slot: nat): MetaData
    requires Fits(c)
  {
    InitMetaData(c, slot).(revision := 1)
  }

  function Created(c: Config, d: Device, slot: nat): Device
    requires Fits(c)
  {
    WriteMeta(c, WriteMeta(c, d, slot, CreatedMeta(c, slot), 0).0, slot, CreatedMeta(c, slot), 1).0
  }

  function CreateWrites(c: Config, slot: nat): seq<DeviceWrite>
    requires Fits(c)
  {
    [CreateWrite(c, slot, 0), CreateWrite(c, slot, 1)]
  }

  lemma FreshIsCommitted(c: Config, bytes: seq<byte>, slot: nat, md: MetaData)
    requires OnDevice(c, bytes) && slot < c.slotCount && Sane(c, slot, md) && md.fileSize == 0
    requires PairOf(c, bytes, slot) == Pair(Some(md), Some(md))
    ensures Committed(c, bytes, slot, md, [])
  {
    hide PairOf, Content;
    assert Content(c, bytes, DataArea(slot))[..0] == [];
  }

  /** Opening for writing an unlocked slot commits an empty file of revision 1. */
  lemma CreateCommits(c: Config, d: Device, slot: nat)
    requires OnDevice(c, d.bytes) && slot < c.slotCount
    ensures WriteMeta(c, d, slot, CreatedMeta(c, slot), 0).1
    ensures WriteMeta(c, WriteMeta(c, d, slot, CreatedMeta(c, slot), 0).0, slot, CreatedMeta(c, slot), 1).1
    ensures var d1 := Created(c, d, slot);
            && OthersSame(c, d.bytes, d1.bytes, slot) && |d1.bytes| == |d.bytes|
            && Committed(c, d1.bytes, slot, CreatedMeta(c, slot), [])
            && d1.log == d.log + CreateWrites(c, slot)
  {
    InitIsSane(c, slot, 1);
    hide WriteMeta, Replaced, Committed, OthersSame, PairOf, Encode, DataAddress, SlotSize, MetaAddress;
    var md := CreatedMeta(c, slot);
    WriteMetaReplaces(c, d, slot, md, 0);
    var d0 := WriteMeta(c, d, slot, md, 0).0;
    WriteMetaReplaces(c, d0, slot, md, 1);
    var d1 := WriteMeta(c, d0, slot, md, 1).0;
    BothReplaced(c, d, d0, d1, slot, md);
    FreshIsCommitted(c, d1.bytes, slot, md);
  }

  lemma CreatedIsWriting(c: Config, d: Device, slot: nat)
    requires OnDevice(c, d.bytes) && slot < c.slotCount
    ensures Writing(c, Created(c, d, slot).bytes, Opened(slot, CreatedMeta(c, slot), WriteCreate), [])
  {
    CreateCommits(c, d, slot);
    hide Created, Committed, Content, CreateWrites, WriteMeta, OthersSame, SlotSize, DataAddress;
    NothingBuffered(Page(Zeros(PAGE_SIZE), 0), []);
    assert PageStart(0) == 0;
    hide Buffered;
    assert Content(c, Created(c, d, slot).bytes, DataArea(slot))[..0] == [];
  }

  /** What the two metadata blocks can be when power is lost after k of the two writes of a creation. */
  predicate CreateLeft(p: Pair, new_: Option<MetaData>, k: nat, q: Pair) {
    || (k == 0 && (q == p || q == Pair(None, p.b) || q == Pair(new_, p.b)))
    || (k == 1 && (q == Pair(new_, p.b) || q == Pair(new_, None) || q == Pair(new_, new_)))
    || (k == 2 && q == Pair(new_, new_))
  }

  /** Power loss while a file is created: the first metadata block is old, lost or new until it is written, and then the
      second; the old data is untouched. */
  lemma CreateCrash(c: Config, d: Device, slot: nat, k: nat, image: seq<byte>)
    requires OnDevice(c, d.bytes) && slot < c.slotCount
    requires CrashAt(d.bytes, CreateWrites(c, slot), k, image)
    ensures |image| == |d.bytes| && OthersSame(c, d.bytes, image, slot)
    ensures Content(c, image, DataArea(slot)) == Content(c, d.bytes, DataArea(slot))
    ensures CreateLeft(PairOf(c, d.bytes, slot), Some(CreatedMeta(c, slot)), k, PairOf(c, image, slot))
  {
    hide Encode, WriteMeta, PairOf, Content, OthersSame, Torn, Apply, CrashAt, CreateLeft, CreateWrite, CreateWrites, CreatedMeta, Replay;
    var d0 := WriteMeta(c, d, slot, CreatedMeta(c, slot), 0).0;
    CreateWritten(c, d, slot);
    CreatePoints(c, d, slot, k, image);
    CrashAtLength(d.bytes, CreateWrites(c, slot), k, image);
    if k == 0 {
      CreateStage(c, d.bytes, slot, 0, image);
      CreateLeftFirst(PairOf(c, d.bytes, slot), CreatedMeta(c, slot), PairOf(c, image, slot));
    } else {
      CreateStage(c, d0.bytes, slot, 1, image);
      OthersSameTransitive(c, d.bytes, d0.bytes, image, slot);
      CreateLeftSecond(PairOf(c, d.bytes, slot), CreatedMeta(c, slot), k, PairOf(c, d0.bytes, slot), PairOf(c, image, slot));
    }
  }

  /** The write of one metadata block of a new file. */
  function CreateWrite(c: Config, slot: nat, i: nat): DeviceWrite
    requires Fits(c)
  {
    DeviceWrite(MetaAddress(c, slot, i), Encode(CreatedMeta(c, slot)))
  }

  /** The device with the first block of the new file written. */
  lemma CreateWritten(c: Config, d: Device, slot: nat)
    requires OnDevice(c, d.bytes) && slot < c.slotCount
    ensures var d0 := WriteMeta(c, d, slot, CreatedMeta(c, slot), 0).0;
            && OnDevice(c, d0.bytes) && OthersSame(c, d.bytes, d0.bytes, slot) && |d0.bytes| == |d.bytes|
            && Content(c, d0.bytes, DataArea(slot)) == Content(c, d.bytes, DataArea(slot))
            && PairOf(c, d0.bytes, slot) == Pair(Some(CreatedMeta(c, slot)), PairOf(c, d.bytes, slot).b)
            && d0.bytes == Apply(d.bytes, CreateWrite(c, slot, 0))
  {
    InitIsSane(c, slot, 1);
    hide Encode, WriteMeta, PairOf, Content, OthersSame, MetaAddress, Apply;
    WriteMetaReplaces(c, d, slot, CreatedMeta(c, slot), 0);
  }

  /** The images power loss can leave, stage by stage; after both writes the second block is new as well. */
  lemma CreatePoints(c: Config, d: Device, slot: nat, k: nat, image: seq<byte>)
    requires OnDevice(c, d.bytes) && slot < c.slotCount
    requires CrashAt(d.bytes, CreateWrites(c, slot), k, image)
    ensures var d0 := WriteMeta(c, d, slot, CreatedMeta(c, slot), 0).0;
            || (k == 0 && (image == d.bytes || Torn(d.bytes, CreateWrite(c, slot, 0), image)))
            || (k == 1 && (image == d0.bytes || Torn(d0.bytes, CreateWrite(c, slot, 1), image)))
            || (k == 2 && image == Apply(d0.bytes, CreateWrite(c, slot, 1)))
  {
    CreateWritten(c, d, slot);
    hide Encode, WriteMeta, PairOf, Content, OthersSame, Torn, MetaAddress, Apply, CrashAt;
    CrashOfTwo(d.bytes, CreateWrite(c, slot, 0), CreateWrite(c, slot, 1), k, image);
  }

  /** One block of the new file before, inside and after its write. */
  lemma CreateStage(c: Config, bytes: seq<byte>, slot: nat, i: nat, image: seq<byte>)
    requires OnDevice(c, bytes) && slot < c.slotCount && i < 2 && |image| == |bytes|
    requires image == bytes || Torn(bytes, CreateWrite(c, slot, i), image) || image == Apply(bytes, CreateWrite(c, slot, i))
    ensures OthersSame(c, bytes, image, slot)
    ensures Content(c, image, DataArea(slot)) == Content(c, bytes, DataArea(slot))
    ensures var p, q, new_ := PairOf(c, bytes, slot), PairOf(c, image, slot), Some(CreatedMeta(c, slot));
            && (q == p || q == p.Set(i, None) || q == p.Set(i, new_))
            && (image == Apply(bytes, CreateWrite(c, slot, i)) ==> q == p.Set(i, new_))
  {
    InitIsSane(c, slot, 1);
    hide Encode, WriteMeta, PairOf, Content, OthersSame, Torn, MetaAddress, Apply;
    WriteMetaReplaces(c, Device(bytes, []), slot, CreatedMeta(c, slot), i);
    if image == Apply(bytes, CreateWrite(c, slot, i)) {
    } else if image == bytes {
      OthersSameReflexive(c, image, slot);
    } else {
      TornMeta(c, bytes, slot, CreatedMeta(c, slot), i, image);
    }
  }

  lemma CreateLeftFirst(p: Pair, md: MetaData, q: Pair)
    requires q == p || q == p.Set(0, None) || q == p.Set(0, Some(md))
    ensures CreateLeft(p, Some(md), 0, q)
  {}

  lemma CreateLeftSecond(p: Pair, md: MetaData, k: nat, p0: Pair, q: Pair)
    requires p0 == Pair(Some(md), p.b) && 1 <= k <= 2
    requires q == p0 || q == p0.Set(1, None) || q == p0.Set(1, Some(md))
    requires k == 2 ==> q == p0.Set(1, Some(md))
    ensures CreateLeft(p, Some(md), k, q)
  {}

  lemma OthersSameReflexive(c: Config, bytes: seq<byte>, slot: nat)
    requires OnDevice(c, bytes)
    ensures OthersSame(c, bytes, bytes, slot)
  {}

  lemma CrashOfTwo(bytes: seq<byte>, w0: DeviceWrite, w1: DeviceWrite, k: nat, image: seq<byte>)
    ensures CrashAt(bytes, [w0, w1], k, image)
       <==> || (k == 0 && (image == bytes || Torn(bytes, w0, image)))
            || (k == 1 && (image == Apply(bytes, w0) || Torn(Apply(bytes, w0), w1, image)))
            || (k == 2 && image == Apply(Apply(bytes, w0), w1))
  {
    hide Torn, Apply;
    var log := [w0, w1];
    assert log[..0] == [] && log[..1] == [w0] && log[..2] == log;
    assert Replay(bytes, log[..1]) == Apply(bytes, w0) by { assert [w0][..0] == []; }
    assert Replay(bytes, log) == Apply(Apply(bytes, w0), w1);
  }

  /** A slot that shows a file still shows one after every crash during creation exactly when its second
      metadata block is valid: the first block is the one written first. */
  lemma CreateSurvives(c: Config, d: Device, slot: nat)
    requires OnDevice(c, d.bytes) && slot < c.slotCount
    requires PairSane(c, slot, PairOf(c, d.bytes, slot)) && View(c, d.bytes, slot).Some?
    ensures (forall image :: CrashImage(d.bytes, CreateWrites(c, slot), image) ==> |image| == |d.bytes| && View(c, image, slot).Some?)
       <==> PairOf(c, d.bytes, slot).b.Some?
  {
    hide Encode, PairOf, Content, OthersSame, Torn, MostRecent, CrashAt, CreateWrites;
    InitIsSane(c, slot, 1);
    var p := PairOf(c, d.bytes, slot);
    if p.b.Some? {
      forall image | CrashImage(d.bytes, CreateWrites(c, slot), image)
        ensures |image| == |d.bytes| && View(c, image, slot).Some?
      {
        var k: nat :| CrashAt(d.bytes, CreateWrites(c, slot), k, image);
        CreateCrash(c, d, slot, k, image);
      }
    } else {
      var image := FirstBlockLost(c, d, slot);
      assert View(c, image, slot).None?;
    }
  }

  lemma FirstBlockLost(c: Config, d: Device, slot: nat) returns (image: seq<byte>)
    requires OnDevice(c, d.bytes) && slot < c.slotCount && PairOf(c, d.bytes, slot).b.None?
    ensures CrashImage(d.bytes, CreateWrites(c, slot), image) && |image| == |d.bytes|
    ensures PairOf(c, image, slot) == Pair(None, None)
  {
    var garbage := Garbage(CreatedMeta(c, slot));
    hide Encode, Decode, CheckBlockCrc, CreatedMeta, Torn, CrashImage, PairOf, CreateWrites, Splice, MetaAddress;
    GarbageLoses(c, d.bytes, slot, garbage);
    image := Splice(d.bytes, MetaAddress(c, slot, 0), garbage);
    GarbageIsLeft(c, d.bytes, slot, garbage);
  }

  lemma GarbageLoses(c: Config, bytes: seq<byte>, slot: nat, garbage: seq<byte>)
    requires OnDevice(c, bytes) && slot < c.slotCount && |garbage| == BLOCK_SIZE && Decode(garbage) == None
    ensures MetaAddress(c, slot, 0) + BLOCK_SIZE <= |bytes|
    ensures PairOf(c, Splice(bytes, MetaAddress(c, slot, 0), garbage), slot) == PairOf(c, bytes, slot).Set(0, None)
  {
    var r := MetaBlock(slot, 0);
    RegionInside(c, r);
    hide Decode;
    var image := Splice(bytes, Start(c, r), garbage);
    OnlyRegionChanged(c, bytes, image, r);
    WriteWithinRegion(c, bytes, r, 0, garbage);
    assert Content(c, image, r) == garbage;
    hide Content, Splice;
    MetaBlockReplaced(c, bytes, image, slot, 0);
  }

  lemma GarbageIsLeft(c: Config, bytes: seq<byte>, slot: nat, garbage: seq<byte>)
    requires OnDevice(c, bytes) && slot < c.slotCount && |garbage| == BLOCK_SIZE && !CheckBlockCrc(garbage)
    requires MetaAddress(c, slot, 0) + BLOCK_SIZE <= |bytes|
    ensures CrashImage(bytes, CreateWrites(c, slot), Splice(bytes, MetaAddress(c, slot, 0), garbage))
  {
    hide Encode, CheckBlockCrc, CreatedMeta, Torn, CrashAt, MetaAddress, Splice;
    var image := Splice(bytes, MetaAddress(c, slot, 0), garbage);
    TornToGarbage(bytes, MetaAddress(c, slot, 0), Encode(CreatedMeta(c, slot)), garbage);
    CrashOfTwo(bytes, CreateWrite(c, slot, 0), CreateWrite(c, slot, 1), 0, image);
    assert CrashAt(bytes, CreateWrites(c, slot), 0, image);
  }

  lemma TornToGarbage(bytes: seq<byte>, at: nat, block: seq<byte>, garbage: seq<byte>)
    requires |block| == |garbage| == BLOCK_SIZE && at + BLOCK_SIZE <= |bytes| && !CheckBlockCrc(garbage)
    ensures Torn(bytes, DeviceWrite(at, block), Splice(bytes, at, garbage))
  {
    hide CheckBlockCrc;
    assert Splice(bytes, at, garbage)[at..at + BLOCK_SIZE] == garbage;
  }

  /** A block with a wrong checksum: one data byte of a good one changed. */
  lemma Garbage(md: MetaData) returns (garbage: seq<byte>)
    ensures |garbage| == BLOCK_SIZE && !CheckBlockCrc(garbage) && Decode(garbage) == None
  {
    var block := Encode(md);
    hide Crc32.Crc, Crc32.LoadWord, Crc32.StoreWord, Encode, CheckBlockCrc, Struct;
    EncodeChecks(md);
    garbage := block[0 := if block[0] == 0 then 1 else 0];
    assert garbage[0] != block[0];
    assert garbage[4..] == block[4..] && garbage[..0] == block[..0];
    BurstFailsCheck(block, garbage, 0);
  }

  lemma EncodeChecks(md: MetaData)
    ensures CheckBlockCrc(Encode(md))
  {
    hide CheckBlockCrc;
    EncodedBlockChecks(Payload(md));
  }

  // ---- formatting ----

  /** A slot as format leaves it: two equal blocks of revision 0, which means "no file". */
  ghost predicate Formatted(c: Config, bytes: seq<byte>, slot: nat) {
    && OnDevice(c, bytes) && slot < c.slotCount
    && PairOf(c, bytes, slot) == Pair(Some(InitMetaData(c, slot)), Some(InitMetaData(c, slot)))
  }

  lemma FormattedFrame(c: Config, bytes: seq<byte>, image: seq<byte>, slot: nat, other: nat)
    requires OnDevice(c, bytes) && OthersSame(c, bytes, image, slot) && other != slot && Formatted(c, bytes, other)
    ensures Formatted(c, image, other)
  {
    hide Decode, Content;
  }

  ghost predicate FormattedBelow(c: Config, bytes: seq<byte>, slot: nat) {
    forall s :: 0 <= s < slot ==> Formatted(c, bytes, s)
  }

  function FormatSlot(c: Config, d: Device, slot: nat): Device
    requires Fits(c)
  {
    WriteMeta(c, WriteMeta(c, d, slot, InitMetaData(c, slot), 0).0, slot, InitMetaData(c, slot), 1).0
  }

  lemma FormatSlotWrites(c: Config, d: Device, slot: nat)
    requires OnDevice(c, d.bytes) && slot < c.slotCount
    ensures var d1 := FormatSlot(c, d, slot);
            && OnDevice(c, d1.bytes) && |d1.bytes| == |d.bytes| && OthersSame(c, d.bytes, d1.bytes, slot)
            && Formatted(c, d1.bytes, slot)
  {
    InitIsSane(c, slot, 0);
    hide Decode, Encode, Content, OthersSame, PairOf, WriteMeta, Replaced, InitMetaData;
    var md := InitMetaData(c, slot);
    WriteMetaReplaces(c, d, slot, md, 0);
    var d0 := WriteMeta(c, d, slot, md, 0).0;
    WriteMetaReplaces(c, d0, slot, md, 1);
    var d1 := WriteMeta(c, d0, slot, md, 1).0;
    BothReplaced(c, d, d0, d1, slot, md);
  }

  lemma FormatSlotFormats(c: Config, d: Device, slot: nat)
    requires OnDevice(c, d.bytes) && slot < c.slotCount && FormattedBelow(c, d.bytes, slot)
    ensures var d1 := FormatSlot(c, d, slot);
            && OnDevice(c, d1.bytes) && |d1.bytes| == |d.bytes|
            && FormattedBelow(c, d1.bytes, slot + 1)
            && Content(c, d1.bytes, ConfigBlock) == Content(c, d.bytes, ConfigBlock)
  {
    hide Content, OthersSame, Formatted, FormatSlot;
    FormatSlotWrites(c, d, slot);
    var d1 := FormatSlot(c, d, slot);
    ConfigSame(c, d.bytes, d1.bytes, slot);
    forall s | 0 <= s < slot ensures Formatted(c, d1.bytes, s) {
      FormattedFrame(c, d.bytes, d1.bytes, slot, s);
    }
  }

  lemma {:induction false} FormatSlotsFormats(c: Config, d: Device, slot: nat)
    requires OnDevice(c, d.bytes) && slot <= c.slotCount && FormattedBelow(c, d.bytes, slot)
    ensures var r := FormatSlots(c, d, slot);
            && FormattedBelow(c, r.bytes, c.slotCount)
            && Content(c, r.bytes, ConfigBlock) == Content(c, d.bytes, ConfigBlock)
    decreases c.slotCount - slot
  {
    hide Content, FormattedBelow, WriteMeta, InitMetaData, Formatted;
    if slot < c.slotCount {
      FormatSlotFormats(c, d, slot);
      FormatSlotsFormats(c, FormatSlot(c, d, slot), slot + 1);
    }
  }

  lemma ConfigSame(c: Config, bytes: seq<byte>, image: seq<byte>, slot: nat)
    requires OnDevice(c, bytes) && OthersSame(c, bytes, image, slot)
    ensures Content(c, image, ConfigBlock) == Content(c, bytes, ConfigBlock)
  {
    hide Content;
  }

  lemma ConfigRoundTrip(c: Config)
    requires Fits(c)
    ensures StoredConfig(ConfigBytes(c)) == c
  {
    FieldLimits();
    LittleEndianRoundTrip(c.slotCount, 8);
    LittleEndianRoundTrip(c.startAddress, 8);
    LittleEndianRoundTrip(c.endAddress, 8);
    ConfigSlices(ToLE(c.slotCount, 8), ToLE(c.startAddress, 8), ToLE(c.endAddress, 8), Zeros(488));
  }

  lemma ConfigSlices(a: seq<byte>, b: seq<byte>, c: seq<byte>, pad: seq<byte>)
    requires |a| == |b| == |c| == 8
    ensures var s := a + b + c + pad;
            s[..8] == a && s[8..16] == b && s[16..24] == c
  {}

  /** Format stores the configuration and leaves every slot without a file. */
  lemma FormatFormats(c: Config, d: Device)
    requires OnDevice(c, d.bytes)
    ensures var (d1, rc) := Format(c, d);
            && rc.Success? && |d1.bytes| == |d.bytes| && OnDevice(c, d1.bytes)
            && FormattedBelow(c, d1.bytes, c.slotCount)
            && StoredConfig(Content(c, d1.bytes, ConfigBlock)) == c
  {
    hide FormatSlots, StoredConfig, ConfigBytes, Formatted;
    RegionInside(c, ConfigBlock);
    var d0 := WriteDevice(d, c.startAddress, ConfigBytes(c)).0;
    WriteWithinRegion(c, d.bytes, ConfigBlock, 0, ConfigBytes(c));
    assert Content(c, d0.bytes, ConfigBlock) == ConfigBytes(c);
    hide Content;
    ConfigRoundTrip(c);
    assert FormattedBelow(c, d0.bytes, 0);
    FormatSlotsFormats(c, d0, 0);
    assert Format(c, d) == (FormatSlots(c, d0, 0), Success);
  }

  /** `sfs_init` keeps a file system that has the same configuration. */
  lemma InitKeeps(c: Config, d: Device)
    requires OnDevice(c, d.bytes) && StoredConfig(Content(c, d.bytes, ConfigBlock)) == c
    ensures Init(c, d) == (d, Success)
  {
    RegionInside(c, ConfigBlock);
    hide StoredConfig;
  }
}
