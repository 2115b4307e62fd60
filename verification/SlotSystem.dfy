/** The whole file system: any number of handles on any number of slots, driven by any sequence of calls.
    `streams` is the reference model: what has been written to each slot since it was created. */
module SlotSystem {
  import opened Bytes
  import opened SlotMeta
  import opened SlotLayout
  import opened SlotSpec
  import opened SlotCrash
  import opened SlotCommit
  import opened SlotWriter
  import opened SlotReader

  datatype System = System(device: Device, locks: seq<int>, files: map<nat, File>, streams: seq<seq<byte>>)

  datatype Op =
    | DoOpen(handle: nat, slot: nat, mode: Mode)
    | DoWrite(handle: nat, data: seq<byte>)
    | DoFlush(handle: nat)
    | DoSeek(handle: nat, position: nat)
    | DoRead(handle: nat, size: nat)
    | DoClose(handle: nat)

  datatype Response = Response(rc: ReturnCode, data: seq<byte>)

  function FileOf(files: map<nat, File>, h: nat): File {
    if h in files then files[h] else CLOSED
  }

  // ---- invariant ----

  ghost predicate SlotOk(c: Config, bytes: seq<byte>, slot: nat, stream: seq<byte>) {
    && OnDevice(c, bytes) && slot < c.slotCount
    && PairSane(c, slot, PairOf(c, bytes, slot))
    && var current := PairOf(c, bytes, slot).Current();
       && current.Some? && current.value.fileSize <= |stream|
       && FileOnDevice(c, bytes, slot, stream[..current.value.fileSize])
  }

  function CommittedSize(c: Config, bytes: seq<byte>, slot: nat): nat {
    if OnDevice(c, bytes) && slot < c.slotCount && PairOf(c, bytes, slot).Current().Some?
    then PairOf(c, bytes, slot).Current().value.fileSize
    else 0
  }

  /** A writer has written the slot's stream; a reader covers a committed prefix of it. */
  ghost predicate HandleOk(c: Config, bytes: seq<byte>, f: File, streams: seq<seq<byte>>) {
    && f.slot < |streams|
    && match f.mode
       case WriteCreate => Writing(c, bytes, f, streams[f.slot])
       case Read =>
         && f.md.fileSize <= CommittedSize(c, bytes, f.slot) && f.md.fileSize <= |streams[f.slot]|
         && Reading(c, f, streams[f.slot][..f.md.fileSize])
       case Unknown => false
  }

  ghost predicate SlotsOk(c: Config, bytes: seq<byte>, streams: seq<seq<byte>>) {
    && |streams| == c.slotCount
    && forall s :: 0 <= s < |streams| ==> SlotOk(c, bytes, s, streams[s])
  }

  ghost predicate HandlesOk(c: Config, bytes: seq<byte>, files: map<nat, File>, streams: seq<seq<byte>>) {
    forall h :: h in files ==> HandleOk(c, bytes, files[h], streams)
  }

  ghost predicate OneWriter(files: map<nat, File>) {
    forall h, k ::
      (h in files && k in files && files[h].mode.WriteCreate? && files[k].mode.WriteCreate? && files[h].slot == files[k].slot)
      ==> h == k
  }

  function HandlesOn(files: map<nat, File>, slot: nat): set<nat> {
    set h | h in files && files[h].slot == slot
  }

  /** The value of an `int8_t` that was incremented n times from zero. */
  function Int8Of(n: nat): int { (n + 128) % 256 - 128 }

  ghost predicate LocksOk(locks: seq<int>, files: map<nat, File>) {
    && |locks| == MAX_SLOTS
    && forall s :: 0 <= s < MAX_SLOTS ==> locks[s] == Int8Of(|HandlesOn(files, s)|)
  }

  ghost predicate HasWriter(files: map<nat, File>, slot: nat) {
    exists h :: h in files && files[h].mode.WriteCreate? && files[h].slot == slot
  }

  /** Without a writer everything written is committed. */
  ghost predicate Settled(c: Config, bytes: seq<byte>, files: map<nat, File>, streams: seq<seq<byte>>) {
    forall s :: 0 <= s < |streams| && !HasWriter(files, s) ==> CommittedSize(c, bytes, s) == |streams[s]|
  }

  ghost predicate ConfigOk(c: Config, bytes: seq<byte>) {
    OnDevice(c, bytes) && StoredConfig(Content(c, bytes, ConfigBlock)) == c
  }

  ghost predicate Inv(c: Config, sys: System) {
    && ConfigOk(c, sys.device.bytes) && Paged(c)
    && SlotsOk(c, sys.device.bytes, sys.streams)
    && HandlesOk(c, sys.device.bytes, sys.files, sys.streams)
    && OneWriter(sys.files)
    && LocksOk(sys.locks, sys.files)
    && Settled(c, sys.device.bytes, sys.files, sys.streams)
  }

  // ---- steps ----

  /** What the source leaves to its callers: no slot number equal to the slot count, no writing through a
      handle opened for reading, and never 256 handles on one slot. */
  predicate Allowed(c: Config, sys: System, op: Op) {
    match op
    case DoOpen(h, slot, mode) => slot != c.slotCount && |HandlesOn(sys.files, slot)| < 255
    case DoWrite(h, data) => h in sys.files ==> sys.files[h].mode.WriteCreate?
    case _ => true
  }

  lemma HandleSound(c: Config, sys: System, h: nat)
    requires Inv(c, sys)
    ensures Fits(c) && |sys.locks| == MAX_SLOTS && |sys.streams| == c.slotCount
    ensures Sound(FileOf(sys.files, h)) && FileOf(sys.files, h).slot < c.slotCount
    ensures h in sys.files <==> FileOf(sys.files, h).page.Some?
  {
    hide Writing, Reading, SlotOk, Settled, HandlesOn, Content;
    if h in sys.files {
      var f := sys.files[h];
      assert HandleOk(c, sys.device.bytes, f, sys.streams);
      if f.mode.WriteCreate? { WritingFacts(c, sys.device.bytes, f, sys.streams[f.slot]); }
      else { ReadingFacts(c, f, sys.streams[f.slot][..f.md.fileSize]); }
    }
  }

  /** One call. A handle number names a `File` struct of the caller; numbers not in `files` are closed. */
  ghost function Step(c: Config, sys: System, op: Op): (System, Response)
    requires Inv(c, sys) && Allowed(c, sys, op)
  {
    HandleSound(c, sys, op.handle);
    var f := FileOf(sys.files, op.handle);
    match op
    case DoOpen(h, slot, mode) =>
      var r := Open(c, sys.device, sys.locks, slot, mode, f);
      if !r.rc.Success? then (sys.(device := r.device, locks := r.locks), Response(r.rc, []))
      else (System(r.device, r.locks, sys.files[h := r.file],
                   if mode.WriteCreate? && slot < |sys.streams| then sys.streams[slot := []] else sys.streams), Response(r.rc, []))
    case DoWrite(h, data) =>
      var r := Write(c, sys.device, f, data);
      if h !in sys.files then (sys, Response(r.rc, []))
      else (sys.(device := r.device, files := sys.files[h := r.file],
                 streams := if r.rc.Success? then sys.streams[f.slot := sys.streams[f.slot] + data] else sys.streams), Response(r.rc, []))
    case DoFlush(h) =>
      var r := Flush(c, sys.device, f);
      if h !in sys.files then (sys, Response(r.rc, []))
      else (sys.(device := r.device, files := sys.files[h := r.file]), Response(r.rc, []))
    case DoSeek(h, position) =>
      var (f1, rc) := Seek(f, position);
      if h !in sys.files then (sys, Response(rc, [])) else (sys.(files := sys.files[h := f1]), Response(rc, []))
    case DoRead(h, size) =>
      var r := ReadFile(sys.device, f, size);
      if h !in sys.files then (sys, Response(r.rc, [])) else (sys.(files := sys.files[h := r.file]), Response(r.rc, r.data))
    case DoClose(h) =>
      var r := Close(c, sys.device, sys.locks, f);
      if h !in sys.files then (sys, Response(r.rc, []))
      else if !r.rc.Success? then (sys.(device := r.device, files := sys.files[h := r.file]), Response(r.rc, []))
      else (sys.(device := r.device, locks := r.locks, files := sys.files - {h}), Response(r.rc, []))
  }

  // ---- counting handles ----

  lemma Int8Counts(n: nat)
    ensures Int8Inc(Int8Of(n)) == Int8Of(n + 1) && Int8Dec(Int8Of(n + 1)) == Int8Of(n)
    ensures Int8Of(n) == 0 <==> n % 256 == 0
  {}

  lemma HandlesAdded(files: map<nat, File>, h: nat, f: File, slot: nat)
    requires h !in files
    ensures |HandlesOn(files[h := f], slot)| == |HandlesOn(files, slot)| + if f.slot == slot then 1 else 0
  {
    if f.slot == slot {
      assert HandlesOn(files[h := f], slot) == HandlesOn(files, slot) + {h};
    } else {
      assert HandlesOn(files[h := f], slot) == HandlesOn(files, slot);
    }
  }

  lemma HandlesReplaced(files: map<nat, File>, h: nat, f: File, slot: nat)
    requires h in files && files[h].slot == f.slot
    ensures HandlesOn(files[h := f], slot) == HandlesOn(files, slot)
  {}

  lemma HandlesRemoved(files: map<nat, File>, h: nat, slot: nat)
    requires h in files
    ensures |HandlesOn(files, slot)| == |HandlesOn(files - {h}, slot)| + if files[h].slot == slot then 1 else 0
  {
    if files[h].slot == slot {
      assert HandlesOn(files, slot) == HandlesOn(files - {h}, slot) + {h};
    } else {
      assert HandlesOn(files, slot) == HandlesOn(files - {h}, slot);
    }
  }

  lemma LocksAfterAdd(locks: seq<int>, files: map<nat, File>, h: nat, f: File)
    requires LocksOk(locks, files) && h !in files && f.slot < MAX_SLOTS
    ensures LocksOk(locks[f.slot := Int8Inc(locks[f.slot])], files[h := f])
  {
    var locks1 := locks[f.slot := Int8Inc(locks[f.slot])];
    forall s | 0 <= s < MAX_SLOTS ensures locks1[s] == Int8Of(|HandlesOn(files[h := f], s)|) {
      HandlesAdded(files, h, f, s);
      Int8Counts(|HandlesOn(files, s)|);
    }
  }

  lemma LocksAfterRemove(locks: seq<int>, files: map<nat, File>, h: nat)
    requires LocksOk(locks, files) && h in files && files[h].slot < MAX_SLOTS
    ensures LocksOk(locks[files[h].slot := Int8Dec(locks[files[h].slot])], files - {h})
  {
    var slot := files[h].slot;
    var locks1 := locks[slot := Int8Dec(locks[slot])];
    forall s | 0 <= s < MAX_SLOTS ensures locks1[s] == Int8Of(|HandlesOn(files - {h}, s)|) {
      HandlesRemoved(files, h, s);
      Int8Counts(|HandlesOn(files - {h}, s)|);
    }
  }

  lemma LocksAfterReplace(locks: seq<int>, files: map<nat, File>, h: nat, f: File)
    requires LocksOk(locks, files) && h in files && files[h].slot == f.slot
    ensures LocksOk(locks, files[h := f])
  {
    forall s | 0 <= s < MAX_SLOTS ensures locks[s] == Int8Of(|HandlesOn(files[h := f], s)|) {
      HandlesReplaced(files, h, f, s);
    }
  }

  // ---- what a change of one slot leaves alone ----

  lemma OtherSlotSame(c: Config, bytes: seq<byte>, image: seq<byte>, slot: nat, other: nat)
    requires OnDevice(c, bytes) && OthersSame(c, bytes, image, slot) && other != slot && other < c.slotCount
    ensures OnDevice(c, image)
    ensures PairOf(c, image, other) == PairOf(c, bytes, other)
    ensures Content(c, image, DataArea(other)) == Content(c, bytes, DataArea(other))
    ensures CommittedSize(c, image, other) == CommittedSize(c, bytes, other)
    ensures View(c, image, other) == View(c, bytes, other)
  {
    hide Decode, Content, Pair.Current;
  }

  lemma OtherSlotOk(c: Config, bytes: seq<byte>, image: seq<byte>, slot: nat, other: nat, stream: seq<byte>)
    requires OnDevice(c, bytes) && OthersSame(c, bytes, image, slot) && other != slot && SlotOk(c, bytes, other, stream)
    ensures SlotOk(c, image, other, stream)
  {
    OtherSlotSame(c, bytes, image, slot, other);
    hide PairOf, Content, OthersSame, Pair.Current;
  }

  lemma OtherHandleOk(c: Config, bytes: seq<byte>, image: seq<byte>, slot: nat, f: File, streams: seq<seq<byte>>, stream: seq<byte>)
    requires OnDevice(c, bytes) && OthersSame(c, bytes, image, slot) && slot < |streams| == c.slotCount
    requires f.slot != slot && HandleOk(c, bytes, f, streams)
    ensures HandleOk(c, image, f, streams[slot := stream])
  {
    OtherSlotSame(c, bytes, image, slot, f.slot);
    hide PairOf, Content, OthersSame, CommittedSize, Reading, Buffered;
  }

  lemma CommittedIsSlotOk(c: Config, bytes: seq<byte>, slot: nat, md: MetaData, stream: seq<byte>)
    requires Committed(c, bytes, slot, md, stream)
    ensures SlotOk(c, bytes, slot, stream) && CommittedSize(c, bytes, slot) == md.fileSize
  {
    hide PairOf, Content;
  }

  /** A reader keeps what it covers while its slot's stream grows. */
  lemma ReaderKept(c: Config, bytes: seq<byte>, image: seq<byte>, f: File, streams: seq<seq<byte>>, stream: seq<byte>)
    requires f.slot < |streams| && f.mode.Read? && HandleOk(c, bytes, f, streams)
    requires streams[f.slot] <= stream && CommittedSize(c, bytes, f.slot) <= CommittedSize(c, image, f.slot)
    ensures HandleOk(c, image, f, streams[f.slot := stream])
  {
    hide CommittedSize, Reading;
    assert stream[..f.md.fileSize] == streams[f.slot][..f.md.fileSize];
  }
}
