/** What sfs_init makes of a device: every device comes up, and what comes up is a file system exactly when it was one or is
    formatted. */
module SlotBoot {
  import opened Bytes
  import opened SlotMeta
  import opened SlotLayout
  import opened SlotSpec
  import opened SlotCrash
  import opened SlotCommit
  import opened SlotWriter
  import opened SlotCreate
  import opened SlotSystem
  import opened SlotSteps
  import opened SlotTheorems
  import opened SlotRuns

  ghost function ConfigOn(c: Config, bytes: seq<byte>): Config
    requires OnDevice(c, bytes)
  {
    StoredConfig(Content(c, bytes, ConfigBlock))
  }

  /** A slot that holds no file: two equal blocks for its own data area, of size 0 and revision 0. */
  ghost predicate Blank(c: Config, bytes: seq<byte>, slot: nat) {
    && OnDevice(c, bytes) && slot < c.slotCount
    && var md := MetaData(DataAddress(c, slot), DataAddress(c, slot) + SlotSize(c), 0, 0);
       PairOf(c, bytes, slot) == Pair(Some(md), Some(md))
  }

  /** sfs_init always leaves the configuration it was given. It changes the device if and only if another one was stored, and
      then no slot holds a file. */
  lemma InitBrings(c: Config, d: Device)
    requires OnDevice(c, d.bytes)
    ensures var (d1, rc) := Init(c, d);
            && rc.Success? && |d1.bytes| == |d.bytes| && OnDevice(c, d1.bytes) && ConfigOn(c, d1.bytes) == c
            && (d1 == d <==> ConfigOn(c, d.bytes) == c) && (d1.bytes == d.bytes <==> ConfigOn(c, d.bytes) == c)
            && (ConfigOn(c, d.bytes) != c ==> forall s :: 0 <= s < c.slotCount ==> Blank(c, d1.bytes, s))
  {
    if ConfigOn(c, d.bytes) == c {
      InitKeeps(c, d);
    } else {
      InitFormats(c, d);
      FormatFormats(c, d);
      var d1 := Format(c, d).0;
      hide Format, Init, StoredConfig, Content, PairOf;
      forall s | 0 <= s < c.slotCount ensures Blank(c, d1.bytes, s) { assert Formatted(c, d1.bytes, s); }
    }
  }

  lemma InitFormats(c: Config, d: Device)
    requires OnDevice(c, d.bytes) && ConfigOn(c, d.bytes) != c
    ensures Init(c, d) == Format(c, d)
  {
    RegionInside(c, ConfigBlock);
    hide StoredConfig, Format;
  }

  /** On a device of any size sfs_init fails if and only if the block of the configuration lies outside it, and then changes
      nothing. */
  lemma InitFailsIff(c: Config, d: Device)
    requires Fits(c)
    ensures Init(c, d).1.Success? || Init(c, d) == (d, ErrorRead)
    ensures Init(c, d).1.Success? <==> c.startAddress + BLOCK_SIZE <= |d.bytes|
  {
    hide StoredConfig, FormatSlots;
  }

  /** The file system after sfs_init: no handle open, each stream what its slot shows. */
  ghost function Booted(c: Config, d: Device): System
    requires Fits(c)
  {
    Restarted(c, Init(c, d).0.bytes).(device := Init(c, d).0)
  }

  /** Every slot has valid metadata, and whatever it has describes the slot. */
  ghost predicate Mountable(c: Config, bytes: seq<byte>) {
    OnDevice(c, bytes) && forall s :: 0 <= s < c.slotCount ==> Readable(c, bytes, s)
  }

  ghost predicate Readable(c: Config, bytes: seq<byte>, s: nat) {
    OnDevice(c, bytes) && s < c.slotCount && PairSane(c, s, PairOf(c, bytes, s)) && View(c, bytes, s).Some?
  }

  lemma BlankIsReadable(c: Config, bytes: seq<byte>, s: nat)
    requires Blank(c, bytes, s)
    ensures Readable(c, bytes, s) && Shown(c, bytes, s) == []
  {
    hide PairOf, Content, SlotSize, DataAddress;
    assert Content(c, bytes, DataArea(s))[..0] == [];
  }

  /** What comes up satisfies the invariant of every run if and only if another configuration was stored, or every slot was
      readable; in the first case no slot holds anything. */
  lemma BootedIff(c: Config, d: Device)
    requires OnDevice(c, d.bytes) && Paged(c)
    ensures Inv(c, Booted(c, d)) <==> ConfigOn(c, d.bytes) != c || Mountable(c, d.bytes)
    ensures ConfigOn(c, d.bytes) != c ==> Booted(c, d).streams == seq(c.slotCount, _ => [])
    ensures Booted(c, d).files == map[] && |Booted(c, d).streams| == c.slotCount
  {
    InitBrings(c, d);
    hide Init, ConfigOn, Blank, Inv, Mountable, Shown;
    var d1, sys := Init(c, d).0, Booted(c, d);
    if ConfigOn(c, d.bytes) != c {
      forall s | 0 <= s < c.slotCount ensures Readable(c, d1.bytes, s) && Shown(c, d1.bytes, s) == [] { BlankIsReadable(c, d1.bytes, s); }
      MountableFrom(c, d1.bytes);
      assert sys.streams == seq(c.slotCount, _ => []);
    }
    if Mountable(c, d1.bytes) { MountedInv(c, d1); }
    if Inv(c, sys) { InvIsMountable(c, sys); }
  }

  lemma MountableFrom(c: Config, bytes: seq<byte>)
    requires OnDevice(c, bytes) && forall s :: 0 <= s < c.slotCount ==> Readable(c, bytes, s)
    ensures Mountable(c, bytes)
  {}

  lemma MountedInv(c: Config, d: Device)
    requires Mountable(c, d.bytes) && Paged(c) && ConfigOn(c, d.bytes) == c
    ensures Inv(c, Restarted(c, d.bytes).(device := d))
  {
    var streams := Restarted(c, d.bytes).streams;
    assert ConfigOk(c, d.bytes);
    hide Inv, View, PairOf, SlotOk, CommittedSize, Content, ConfigOk, PairSane, Shown;
    forall s | 0 <= s < |streams| ensures SlotOk(c, d.bytes, s, streams[s]) && CommittedSize(c, d.bytes, s) == |streams[s]| {
      assert Readable(c, d.bytes, s);
      ShownIsSlotOk(c, d.bytes, s);
    }
    QuietInv(c, d.bytes, d.log, streams);
  }

  lemma InvIsMountable(c: Config, sys: System)
    requires Inv(c, sys)
    ensures Mountable(c, sys.device.bytes)
  {
    InvParts(c, sys);
    hide Inv, SlotOk, Readable;
    forall s | 0 <= s < c.slotCount ensures Readable(c, sys.device.bytes, s) {
      SlotIn(c, sys.device.bytes, sys.streams, s);
      SlotOkReadable(c, sys.device.bytes, s, sys.streams[s]);
    }
  }

  lemma SlotOkReadable(c: Config, bytes: seq<byte>, s: nat, stream: seq<byte>)
    requires SlotOk(c, bytes, s, stream)
    ensures Readable(c, bytes, s)
  {
    hide PairOf, Content, DataAddress, SlotSize;
  }

  /** Coming up after a power loss is coming up. */
  lemma RestartIsBoot(c: Config, image: seq<byte>)
    requires OnDevice(c, image) && ConfigOn(c, image) == c
    ensures Booted(c, Device(image, [])) == Restarted(c, image)
  {
    InitBrings(c, Device(image, []));
    hide ConfigOn, Init, Restarted;
    assert Restarted(c, image).device == Device(image, []) by { RestartedDevice(c, image); }
  }

  lemma RestartedDevice(c: Config, image: seq<byte>)
    ensures Restarted(c, image).device == Device(image, [])
  {}

  // ---- power loss while formatting ----

  lemma {:induction false} FormatSlotsLog(c: Config, d: Device, slot: nat)
    requires Fits(c) && slot <= c.slotCount
    ensures d.log <= FormatSlots(c, d, slot).log
    decreases c.slotCount - slot
  {
    hide Encode, InitMetaData;
    if slot < c.slotCount {
      FormatSlotsLog(c, FormatSlot(c, d, slot), slot + 1);
      assert d.log <= FormatSlot(c, d, slot).log;
    }
  }

  /** The first write of format is that of the configuration. */
  lemma FirstIsConfig(c: Config, d: Device)
    requires OnDevice(c, d.bytes)
    ensures var log := NewWrites(d, Format(c, d).0);
            |log| > 0 && log[0] == DeviceWrite(c.startAddress, ConfigBytes(c))
    ensures c.startAddress + BLOCK_SIZE <= |d.bytes|
  {
    RegionInside(c, ConfigBlock);
    hide ConfigBytes, FormatSlots;
    FormatSlotsLog(c, WriteDevice(d, c.startAddress, ConfigBytes(c)).0, 0);
  }

  lemma MetaUntouched(c: Config, bytes: seq<byte>, image: seq<byte>)
    requires OnDevice(c, bytes) && |image| == |bytes|
    requires forall q :: InLayout(c, q) && q != ConfigBlock ==> Content(c, image, q) == Content(c, bytes, q)
    ensures Mountable(c, image) <==> Mountable(c, bytes)
  {
    hide Content, Decode, Sane;
    forall s | 0 <= s < c.slotCount ensures Readable(c, image, s) <==> Readable(c, bytes, s) {
      assert PairOf(c, image, s) == PairOf(c, bytes, s);
    }
  }

  /** Format writes the configuration first. When power is lost behind that write, sfs_init takes the device for formatted and
      leaves it: what comes up is a file system if and only if every slot happened to be readable before. */
  lemma FormatLossIff(c: Config, d: Device)
    requires OnDevice(c, d.bytes) && Paged(c) && ConfigOn(c, d.bytes) != c
    ensures c.startAddress + BLOCK_SIZE <= |d.bytes|
    ensures var image := Splice(d.bytes, c.startAddress, ConfigBytes(c));
            && CrashAt(d.bytes, NewWrites(d, Init(c, d).0), 1, image)
            && Init(c, Device(image, [])) == (Device(image, []), Success)
            && (Inv(c, Booted(c, Device(image, []))) <==> Mountable(c, d.bytes))
  {
    InitFormats(c, d);
    FirstIsConfig(c, d);
    var image, log := Splice(d.bytes, c.startAddress, ConfigBytes(c)), NewWrites(d, Format(c, d).0);
    hide Format, Init, Mountable, Inv, Paged, Booted;
    ConfigOnly(c, d.bytes);
    assert log[..1][..0] == [] && Replay(d.bytes, log[..1]) == Apply(d.bytes, log[0]);
    InitKeeps(c, Device(image, []));
    BootedIff(c, Device(image, []));
    MetaUntouched(c, d.bytes, image);
  }

  lemma ConfigOnly(c: Config, bytes: seq<byte>)
    requires OnDevice(c, bytes) && c.startAddress + BLOCK_SIZE <= |bytes|
    ensures var image := Splice(bytes, c.startAddress, ConfigBytes(c));
            && OnDevice(c, image) && ConfigOn(c, image) == c
            && forall q :: InLayout(c, q) && q != ConfigBlock ==> Content(c, image, q) == Content(c, bytes, q)
  {
    var image := Splice(bytes, c.startAddress, ConfigBytes(c));
    RegionInside(c, ConfigBlock);
    WriteWithinRegion(c, bytes, ConfigBlock, 0, ConfigBytes(c));
    assert Content(c, image, ConfigBlock) == ConfigBytes(c);
    ConfigRoundTrip(c);
    hide Content, ConfigBytes, StoredConfig;
    OnlyRegionChanged(c, bytes, image, ConfigBlock);
  }
}
