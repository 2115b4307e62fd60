/** Power loss: which device images a run of writes can leave behind, and what a slot shows in them. */
module SlotCrash {
  import opened Bytes
  import opened SlotMeta
  import opened SlotLayout
  import opened SlotSpec

  function Sector(s: seq<byte>, j: nat): seq<byte>
    requires (j + 1) * BLOCK_SIZE <= |s|
  {
    s[j * BLOCK_SIZE..j * BLOCK_SIZE + BLOCK_SIZE]
  }

  /** What an interrupted write may leave: a write of one block ends old, new or with a wrong checksum; of a
      longer write every 512-byte sector ends old or new. */
  ghost predicate TornData(old_: seq<byte>, new_: seq<byte>, mid: seq<byte>)
    requires |old_| == |new_| == |mid|
  {
    if |new_| == BLOCK_SIZE then mid == old_ || mid == new_ || !CheckBlockCrc(mid)
    else forall j: nat :: (j + 1) * BLOCK_SIZE <= |new_| ==> Sector(mid, j) == Sector(old_, j) || Sector(mid, j) == Sector(new_, j)
  }

  ghost predicate Torn(bytes: seq<byte>, w: DeviceWrite, image: seq<byte>) {
    var end := w.address + |w.data|;
    && end <= |bytes| == |image|
    && (forall i :: 0 <= i < |bytes| && !(w.address <= i < end) ==> image[i] == bytes[i])
    && TornData(bytes[w.address..end], w.data, image[w.address..end])
  }

  function Apply(bytes: seq<byte>, w: DeviceWrite): (r: seq<byte>)
    ensures |r| == |bytes|
  {
    if w.address + |w.data| <= |bytes| then Splice(bytes, w.address, w.data) else bytes
  }

  function Replay(bytes: seq<byte>, log: seq<DeviceWrite>): (r: seq<byte>)
    ensures |r| == |bytes|
  {
    if log == [] then bytes else Apply(Replay(bytes, log[..|log| - 1]), log[|log| - 1])
  }

  /** The device after power was lost when the first k of these writes were done: between two of them, or inside the next. */
  ghost predicate CrashAt(bytes: seq<byte>, log: seq<DeviceWrite>, k: nat, image: seq<byte>) {
    && k <= |log|
    && (image == Replay(bytes, log[..k]) || (k < |log| && Torn(Replay(bytes, log[..k]), log[k], image)))
  }

  /** The same, at any point. */
  ghost predicate CrashImage(bytes: seq<byte>, log: seq<DeviceWrite>, image: seq<byte>) {
    exists k: nat :: CrashAt(bytes, log, k, image)
  }

  /** The writes a device has taken since it was `d0`. */
  ghost predicate Follows(d0: Device, d: Device) {
    && d0.log <= d.log
    && d.bytes == Replay(d0.bytes, NewWrites(d0, d))
  }

  function NewWrites(d0: Device, d: Device): seq<DeviceWrite> {
    if |d0.log| <= |d.log| then d.log[|d0.log|..] else []
  }

  lemma NewWritesExtend(d0: Device, d: Device, address: nat, data: seq<byte>)
    requires Follows(d0, d) && address + |data| <= |d.bytes|
    ensures var d1 := WriteDevice(d, address, data).0;
            && Follows(d0, d1)
            && NewWrites(d0, d1) == NewWrites(d0, d) + [DeviceWrite(address, data)]
  {
    var d1 := WriteDevice(d, address, data).0;
    var log := NewWrites(d0, d);
    assert NewWrites(d0, d1) == log + [DeviceWrite(address, data)];
    assert (log + [DeviceWrite(address, data)])[..|log|] == log;
  }

  // ---- what a slot shows ----

  function PairOf(c: Config, bytes: seq<byte>, slot: nat): Pair
    requires OnDevice(c, bytes) && slot < c.slotCount
  {
    Pair(Decode(Content(c, bytes, MetaBlock(slot, 0))), Decode(Content(c, bytes, MetaBlock(slot, 1))))
  }

  lemma ReadPairIsPairOf(c: Config, d: Device, slot: nat)
    requires OnDevice(c, d.bytes) && slot < c.slotCount
    ensures ReadPair(c, d, slot) == PairOf(c, d.bytes, slot)
  {
    hide Decode;
    RegionInside(c, MetaBlock(slot, 0));
    RegionInside(c, MetaBlock(slot, 1));
  }

  predicate Sane(c: Config, slot: nat, md: MetaData)
    requires Fits(c)
  {
    && md.startAddress == DataAddress(c, slot)
    && md.maxAddress == DataAddress(c, slot) + SlotSize(c)
    && md.fileSize <= SlotSize(c)
    && md.revision < 256
  }

  /** Whatever metadata a slot has that passes its check describes that slot. */
  predicate PairSane(c: Config, slot: nat, p: Pair)
    requires Fits(c)
  {
    && (p.a.Some? ==> Sane(c, slot, p.a.value))
    && (p.b.Some? ==> Sane(c, slot, p.b.value))
  }

  datatype Version = Version(md: MetaData, content: seq<byte>)

  function VersionOf(c: Config, bytes: seq<byte>, slot: nat, md: Option<MetaData>): Option<Version>
    requires OnDevice(c, bytes) && slot < c.slotCount
  {
    if md.Some? && Sane(c, slot, md.value)
    then Some(Version(md.value, Content(c, bytes, DataArea(slot))[..md.value.fileSize]))
    else None
  }

  /** The file a reader would find in a slot: the newest valid metadata and the bytes it covers. */
  function View(c: Config, bytes: seq<byte>, slot: nat): Option<Version>
    requires OnDevice(c, bytes) && slot < c.slotCount
  {
    VersionOf(c, bytes, slot, PairOf(c, bytes, slot).Current())
  }

  predicate OfSlot(r: Region, slot: nat) { !r.ConfigBlock? && r.slot == slot }

  ghost predicate OthersSame(c: Config, bytes: seq<byte>, image: seq<byte>, slot: nat)
  {
    && OnDevice(c, bytes)
    && |image| == |bytes|
    && forall q {:trigger Content(c, image, q)} :: InLayout(c, q) && !OfSlot(q, slot) ==> Content(c, image, q) == Content(c, bytes, q)
  }

  /** A write that, cut short anywhere, leaves the slot as it was before or as it is after, and touches nothing else. */
  ghost predicate TornAtomic(c: Config, bytes: seq<byte>, w: DeviceWrite, slot: nat)
  {
    && OnDevice(c, bytes) && slot < c.slotCount
    && (forall image :: Torn(bytes, w, image) ==>
      && OthersSame(c, bytes, image, slot)
      && PairSane(c, slot, PairOf(c, image, slot))
      && (View(c, image, slot) == View(c, bytes, slot) || View(c, image, slot) == View(c, Apply(bytes, w), slot)))
  }

  /** The slot shows a prefix of `stream` of at least `low` bytes, and no other slot has changed. */
  ghost predicate Good(c: Config, bytes0: seq<byte>, image: seq<byte>, slot: nat, low: nat, stream: seq<byte>)
  {
    && OnDevice(c, bytes0) && slot < c.slotCount
    && OthersSame(c, bytes0, image, slot)
    && PairSane(c, slot, PairOf(c, image, slot))
    && var v := View(c, image, slot);
       v.Some? && low <= |v.value.content| && v.value.content <= stream
  }

  /** With power lost in the write after the first k: the slot shows what those k writes left it showing, or what the
    * interrupted write would have. */
  ghost predicate ShowsAround(c: Config, bytes0: seq<byte>, log: seq<DeviceWrite>, k: nat, image: seq<byte>, slot: nat)
  {
    && OnDevice(c, bytes0) && slot < c.slotCount
    && |image| == |bytes0| && k <= |log|
    && (|| View(c, image, slot) == View(c, Replay(bytes0, log[..k]), slot)
        || (k < |log| && View(c, image, slot) == View(c, Replay(bytes0, log[..k + 1]), slot)))
  }

  /** Every image a crash can leave between `d0` and `d` is good, and shows the slot as it was before or after the write that
    * the crash fell into. */
  ghost predicate Safe(c: Config, d0: Device, d: Device, slot: nat, low: nat, stream: seq<byte>)
  {
    && OnDevice(c, d0.bytes) && slot < c.slotCount
    && Follows(d0, d)
    && forall k: nat, image :: CrashAt(d0.bytes, NewWrites(d0, d), k, image) ==>
         && Good(c, d0.bytes, image, slot, low, stream)
         && ShowsAround(c, d0.bytes, NewWrites(d0, d), k, image, slot)
  }

  lemma SafeStart(c: Config, d: Device, slot: nat, low: nat, stream: seq<byte>)
    requires OnDevice(c, d.bytes) && slot < c.slotCount
    requires Good(c, d.bytes, d.bytes, slot, low, stream)
    ensures Safe(c, d, d, slot, low, stream)
  {
    hide View, Good;
    assert NewWrites(d, d) == [];
  }

  lemma GoodThrough(c: Config, bytes0: seq<byte>, bytes: seq<byte>, image: seq<byte>, shown: seq<byte>, slot: nat, low: nat, stream: seq<byte>)
    requires OnDevice(c, bytes0) && slot < c.slotCount
    requires Good(c, bytes0, bytes, slot, low, stream) && Good(c, bytes0, shown, slot, low, stream)
    requires OthersSame(c, bytes, image, slot) && View(c, image, slot) == View(c, shown, slot)
    requires PairSane(c, slot, PairOf(c, image, slot))
    ensures Good(c, bytes0, image, slot, low, stream)
  {
    hide View, Content, PairOf, PairSane;
  }

  /** What one more write adds to the images a crash can leave. */
  lemma CrashAtOneMore(bytes: seq<byte>, log: seq<DeviceWrite>, w: DeviceWrite, k: nat, image: seq<byte>)
    ensures k < |log| ==> (CrashAt(bytes, log + [w], k, image) <==> CrashAt(bytes, log, k, image))
    ensures k == |log| ==> (CrashAt(bytes, log + [w], k, image) <==> image == Replay(bytes, log) || Torn(Replay(bytes, log), w, image))
    ensures k == |log| ==> (CrashAt(bytes, log, k, image) <==> image == Replay(bytes, log))
    ensures k == |log| + 1 ==> (CrashAt(bytes, log + [w], k, image) <==> image == Apply(Replay(bytes, log), w))
    ensures Replay(bytes, log + [w]) == Apply(Replay(bytes, log), w)
  {
    hide Torn, Apply;
    var more := log + [w];
    assert more[..|log|] == log && log[..|log|] == log && more[..|more|] == more;
    if k < |log| { assert more[..k] == log[..k]; }
  }

  lemma PrefixKept(log: seq<DeviceWrite>, w: DeviceWrite, k: nat)
    requires k <= |log|
    ensures (log + [w])[..k] == log[..k] && (log + [w])[..|log| + 1] == log + [w] && log[..|log|] == log
  {}

  lemma AroundIs(c: Config, bytes0: seq<byte>, log: seq<DeviceWrite>, k: nat, image: seq<byte>, slot: nat)
    requires OnDevice(c, bytes0) && |image| == |bytes0| && slot < c.slotCount && k <= |log|
    ensures OnDevice(c, image) && forall j :: 0 <= j <= |log| ==> OnDevice(c, Replay(bytes0, log[..j]))
    ensures ShowsAround(c, bytes0, log, k, image, slot) <==>
            || View(c, image, slot) == View(c, Replay(bytes0, log[..k]), slot)
            || (k < |log| && View(c, image, slot) == View(c, Replay(bytes0, log[..k + 1]), slot))
  {
    hide View, Replay;
  }

  lemma AroundExtends(c: Config, bytes0: seq<byte>, log: seq<DeviceWrite>, w: DeviceWrite, k: nat, image: seq<byte>, slot: nat)
    requires OnDevice(c, bytes0) && |image| == |bytes0| && slot < c.slotCount
    requires
      || (k < |log| && ShowsAround(c, bytes0, log, k, image, slot))
      || (k == |log| && View(c, image, slot) == View(c, Replay(bytes0, log), slot))
      || ((k == |log| || k == |log| + 1) && View(c, image, slot) == View(c, Replay(bytes0, log + [w]), slot))
    ensures ShowsAround(c, bytes0, log + [w], k, image, slot)
  {
    hide *;
    AroundIs(c, bytes0, log + [w], k, image, slot);
    if k < |log| {
      AroundIs(c, bytes0, log, k, image, slot);
      PrefixKept(log, w, k);
      PrefixKept(log, w, k + 1);
    } else {
      PrefixKept(log, w, |log|);
    }
  }

  lemma CrashAtLength(bytes: seq<byte>, log: seq<DeviceWrite>, k: nat, image: seq<byte>)
    requires CrashAt(bytes, log, k, image)
    ensures |image| == |bytes|
  {
    hide Replay;
  }

  lemma TornImageGood(c: Config, bytes0: seq<byte>, bytes: seq<byte>, w: DeviceWrite, image: seq<byte>, slot: nat, low: nat, stream: seq<byte>)
    requires OnDevice(c, bytes0) && |bytes| == |bytes0| == |image| && slot < c.slotCount
    requires TornAtomic(c, bytes, w, slot) && Torn(bytes, w, image)
    requires Good(c, bytes0, bytes, slot, low, stream) && Good(c, bytes0, Apply(bytes, w), slot, low, stream)
    ensures Good(c, bytes0, image, slot, low, stream)
    ensures View(c, image, slot) == View(c, bytes, slot) || View(c, image, slot) == View(c, Apply(bytes, w), slot)
  {
    hide View, Good, Torn, OthersSame, Apply, PairOf, PairSane;
    assert OthersSame(c, bytes, image, slot);
    if View(c, image, slot) == View(c, bytes, slot) {
      GoodThrough(c, bytes0, bytes, image, bytes, slot, low, stream);
    } else {
      GoodThrough(c, bytes0, bytes, image, Apply(bytes, w), slot, low, stream);
    }
  }

  /** One more atomic write keeps a run of writes safe. */
  lemma SafeExtends(c: Config, d0: Device, d: Device, address: nat, data: seq<byte>, slot: nat, low: nat, stream: seq<byte>)
    requires OnDevice(c, d0.bytes) && slot < c.slotCount && Safe(c, d0, d, slot, low, stream)
    requires address + |data| <= |d.bytes|
    requires TornAtomic(c, d.bytes, DeviceWrite(address, data), slot)
    requires Good(c, d0.bytes, d.bytes, slot, low, stream)
    requires Good(c, d0.bytes, WriteDevice(d, address, data).0.bytes, slot, low, stream)
    ensures Safe(c, d0, WriteDevice(d, address, data).0, slot, low, stream)
  {
    hide View, Good, Torn, OthersSame, TornAtomic, ShowsAround, CrashAt;
    var w := DeviceWrite(address, data);
    var d1 := WriteDevice(d, address, data).0;
    NewWritesExtend(d0, d, address, data);
    var log := NewWrites(d0, d);
    forall k: nat, image | CrashAt(d0.bytes, log + [w], k, image)
      ensures Good(c, d0.bytes, image, slot, low, stream)
      ensures ShowsAround(c, d0.bytes, log + [w], k, image, slot)
    {
      CrashAtWithin(d0.bytes, log + [w], k, image);
      CrashAtLength(d0.bytes, log + [w], k, image);
      CrashAtOneMore(d0.bytes, log, w, k, image);
      if k < |log| {
        assert Good(c, d0.bytes, image, slot, low, stream);
      } else if k == |log| && image != d.bytes {
        TornImageGood(c, d0.bytes, d.bytes, w, image, slot, low, stream);
      }
      AroundExtends(c, d0.bytes, log, w, k, image, slot);
    }
  }

  lemma CrashAtWithin(bytes: seq<byte>, log: seq<DeviceWrite>, k: nat, image: seq<byte>)
    requires CrashAt(bytes, log, k, image)
    ensures k <= |log|
  {}

  lemma SafeLonger(c: Config, d0: Device, d: Device, slot: nat, low: nat, stream: seq<byte>, longer: seq<byte>)
    requires OnDevice(c, d0.bytes) && slot < c.slotCount && Safe(c, d0, d, slot, low, stream) && stream <= longer
    ensures Safe(c, d0, d, slot, low, longer)
  {
    hide View, ShowsAround, CrashAt;
    forall k: nat, image | CrashAt(d0.bytes, NewWrites(d0, d), k, image)
      ensures Good(c, d0.bytes, image, slot, low, longer)
      ensures ShowsAround(c, d0.bytes, NewWrites(d0, d), k, image, slot)
    {
      assert Good(c, d0.bytes, image, slot, low, stream);
    }
  }
}
