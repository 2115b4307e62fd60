/** Every call keeps the file system's invariant. */
module SlotSteps {
  import opened Bytes
  import opened SlotLayout
  import opened SlotSpec
  import opened SlotCrash
  import opened SlotWriter
  import opened SlotReader
  import opened SlotCreate
  import opened SlotSystem

  lemma InvFrom(c: Config, sys: System)
    requires ConfigOk(c, sys.device.bytes) && Paged(c)
    requires SlotsOk(c, sys.device.bytes, sys.streams)
    requires HandlesOk(c, sys.device.bytes, sys.files, sys.streams)
    requires OneWriter(sys.files) && LocksOk(sys.locks, sys.files)
    requires Settled(c, sys.device.bytes, sys.files, sys.streams)
    ensures Inv(c, sys)
  {}

  lemma InvParts(c: Config, sys: System)
    requires Inv(c, sys)
    ensures ConfigOk(c, sys.device.bytes) && OnDevice(c, sys.device.bytes) && Fits(c) && Paged(c)
    ensures SlotsOk(c, sys.device.bytes, sys.streams) && |sys.streams| == c.slotCount <= MAX_SLOTS
    ensures HandlesOk(c, sys.device.bytes, sys.files, sys.streams)
    ensures OneWriter(sys.files) && LocksOk(sys.locks, sys.files) && |sys.locks| == MAX_SLOTS
    ensures Settled(c, sys.device.bytes, sys.files, sys.streams)
  {
    hide SlotOk, HandlesOn, HandleOk, CommittedSize, Content;
  }

  lemma ConfigKept(c: Config, bytes: seq<byte>, image: seq<byte>, slot: nat)
    requires ConfigOk(c, bytes) && OthersSame(c, bytes, image, slot)
    ensures ConfigOk(c, image)
  {
    ConfigSame(c, bytes, image, slot);
    hide Content, StoredConfig;
  }

  // ---- one slot changes ----

  lemma SlotsOkAfter(c: Config, bytes: seq<byte>, image: seq<byte>, streams: seq<seq<byte>>, slot: nat, stream: seq<byte>)
    requires OnDevice(c, bytes) && SlotsOk(c, bytes, streams) && slot < |streams|
    requires OthersSame(c, bytes, image, slot) && SlotOk(c, image, slot, stream)
    ensures SlotsOk(c, image, streams[slot := stream])
  {
    hide SlotOk, OthersSame;
    var streams1 := streams[slot := stream];
    forall s | 0 <= s < |streams1| ensures SlotOk(c, image, s, streams1[s]) {
      if s != slot { OtherSlotOk(c, bytes, image, slot, s, streams[s]); }
    }
  }

  lemma SettledAfter(c: Config, bytes: seq<byte>, image: seq<byte>, files: map<nat, File>, streams: seq<seq<byte>>, slot: nat, stream: seq<byte>)
    requires OnDevice(c, bytes) && |streams| == c.slotCount && slot < |streams| && Settled(c, bytes, files, streams)
    requires OthersSame(c, bytes, image, slot)
    requires HasWriter(files, slot) || CommittedSize(c, image, slot) == |stream|
    ensures Settled(c, image, files, streams[slot := stream])
  {
    hide CommittedSize, OthersSame, HasWriter;
    var streams1 := streams[slot := stream];
    forall s | 0 <= s < |streams1| && !HasWriter(files, s) ensures CommittedSize(c, image, s) == |streams1[s]| {
      if s != slot { OtherSlotSame(c, bytes, image, slot, s); }
    }
  }

  /** Handles on other slots, and readers of this slot, are unaffected by a writer of the slot. */
  lemma HandlesOkAfter(c: Config, bytes: seq<byte>, image: seq<byte>, files: map<nat, File>, streams: seq<seq<byte>>, h: nat, f: File, stream: seq<byte>)
    requires OnDevice(c, bytes) && |streams| == c.slotCount && HandlesOk(c, bytes, files, streams) && OneWriter(files)
    requires h in files && files[h].mode.WriteCreate? && files[h].slot == f.slot < |streams|
    requires OthersSame(c, bytes, image, f.slot) && f.mode.WriteCreate? && Writing(c, image, f, stream)
    requires streams[f.slot] <= stream && CommittedSize(c, bytes, f.slot) <= CommittedSize(c, image, f.slot)
    ensures HandlesOk(c, image, files[h := f], streams[f.slot := stream])
  {
    hide Writing, Reading, CommittedSize, OthersSame;
    var files1 := files[h := f];
    forall k | k in files1 ensures HandleOk(c, image, files1[k], streams[f.slot := stream]) {
      if k != h {
        var g := files[k];
        assert HandleOk(c, bytes, g, streams);
        if g.slot != f.slot {
          OtherHandleOk(c, bytes, image, f.slot, g, streams, stream);
        } else {
          ReaderKept(c, bytes, image, g, streams, stream);
        }
      }
    }
  }

  lemma WriterReplaced(files: map<nat, File>, h: nat, f: File)
    requires OneWriter(files) && h in files && files[h].mode == f.mode && files[h].slot == f.slot
    ensures OneWriter(files[h := f])
    ensures forall s :: HasWriter(files[h := f], s) <==> HasWriter(files, s)
  {
    forall s ensures HasWriter(files[h := f], s) <==> HasWriter(files, s) {
      if HasWriter(files, s) {
        var k :| k in files && files[k].mode.WriteCreate? && files[k].slot == s;
        assert k in files[h := f] && files[h := f][k].mode.WriteCreate? && files[h := f][k].slot == s;
      }
      if HasWriter(files[h := f], s) {
        var k :| k in files[h := f] && files[h := f][k].mode.WriteCreate? && files[h := f][k].slot == s;
        assert k in files && files[k].mode.WriteCreate? && files[k].slot == s;
      }
    }
  }

  /** A writer's progress: its slot's stream grows, its committed size does not shrink. */
  lemma WriterStep(c: Config, sys: System, h: nat, d: Device, f: File, stream: seq<byte>)
    requires Inv(c, sys) && h in sys.files && sys.files[h].mode.WriteCreate? && f.mode.WriteCreate?
    requires sys.files[h].slot == f.slot < |sys.streams|
    requires OthersSame(c, sys.device.bytes, d.bytes, f.slot) && Writing(c, d.bytes, f, stream)
    requires sys.streams[f.slot] <= stream && sys.files[h].md.fileSize <= f.md.fileSize
    ensures Inv(c, System(d, sys.locks, sys.files[h := f], sys.streams[f.slot := stream]))
  {
    hide *;
    InvParts(c, sys);
    var bytes := sys.device.bytes;
    HandleIn(c, bytes, sys.files, sys.streams, h);
    WritingFacts(c, bytes, sys.files[h], sys.streams[f.slot]);
    CommittedIsSlotOk(c, bytes, f.slot, sys.files[h].md, sys.streams[f.slot]);
    WritingFacts(c, d.bytes, f, stream);
    CommittedIsSlotOk(c, d.bytes, f.slot, f.md, stream);
    SlotsOkAfter(c, bytes, d.bytes, sys.streams, f.slot, stream);
    HandlesOkAfter(c, bytes, d.bytes, sys.files, sys.streams, h, f, stream);
    WriterReplaced(sys.files, h, f);
    LocksAfterReplace(sys.locks, sys.files, h, f);
    HasWriterFrom(sys.files, h);
    SettledAfter(c, bytes, d.bytes, sys.files, sys.streams, f.slot, stream);
    SettledSameWriters(c, d.bytes, sys.files, sys.files[h := f], sys.streams[f.slot := stream]);
    ConfigKept(c, bytes, d.bytes, f.slot);
    InvFrom(c, System(d, sys.locks, sys.files[h := f], sys.streams[f.slot := stream]));
  }

  lemma HandleIn(c: Config, bytes: seq<byte>, files: map<nat, File>, streams: seq<seq<byte>>, h: nat)
    requires HandlesOk(c, bytes, files, streams) && h in files
    ensures HandleOk(c, bytes, files[h], streams) && files[h].slot < |streams|
    ensures files[h].mode.WriteCreate? || files[h].mode.Read?
    ensures files[h].mode.WriteCreate? ==> Writing(c, bytes, files[h], streams[files[h].slot])
    ensures files[h].mode.Read? ==>
              && files[h].md.fileSize <= CommittedSize(c, bytes, files[h].slot) && files[h].md.fileSize <= |streams[files[h].slot]|
              && Reading(c, files[h], streams[files[h].slot][..files[h].md.fileSize])
  {
    hide Writing, Reading, CommittedSize;
  }

  lemma HasWriterFrom(files: map<nat, File>, h: nat)
    requires h in files && files[h].mode.WriteCreate?
    ensures HasWriter(files, files[h].slot)
  {}

  lemma SettledSameWriters(c: Config, bytes: seq<byte>, files: map<nat, File>, files': map<nat, File>, streams: seq<seq<byte>>)
    requires Settled(c, bytes, files, streams)
    requires forall s :: HasWriter(files', s) <==> HasWriter(files, s)
    ensures Settled(c, bytes, files', streams)
  {
    hide HasWriter, CommittedSize;
  }

  // ---- readers ----

  lemma AddReader(c: Config, sys: System, h: nat, f: File)
    requires Inv(c, sys) && h !in sys.files && f.mode.Read? && HandleOk(c, sys.device.bytes, f, sys.streams) && f.slot < MAX_SLOTS
    requires |sys.locks| == MAX_SLOTS
    ensures Inv(c, System(sys.device, sys.locks[f.slot := Int8Inc(sys.locks[f.slot])], sys.files[h := f], sys.streams))
  {
    hide *;
    InvParts(c, sys);
    var files := sys.files[h := f];
    LocksAfterAdd(sys.locks, sys.files, h, f);
    ReaderAdded(c, sys.device.bytes, sys.files, sys.streams, h, f);
    SettledSameWriters(c, sys.device.bytes, sys.files, files, sys.streams);
    InvFrom(c, System(sys.device, sys.locks[f.slot := Int8Inc(sys.locks[f.slot])], files, sys.streams));
  }

  lemma ReaderAdded(c: Config, bytes: seq<byte>, files: map<nat, File>, streams: seq<seq<byte>>, h: nat, f: File)
    requires h !in files && f.mode.Read? && HandleOk(c, bytes, f, streams)
    requires HandlesOk(c, bytes, files, streams) && OneWriter(files)
    ensures HandlesOk(c, bytes, files[h := f], streams) && OneWriter(files[h := f])
    ensures forall s :: HasWriter(files[h := f], s) <==> HasWriter(files, s)
  {
    hide HandleOk;
    forall s ensures HasWriter(files[h := f], s) <==> HasWriter(files, s) {
      if HasWriter(files, s) {
        var k :| k in files && files[k].mode.WriteCreate? && files[k].slot == s;
        assert k in files[h := f] && files[h := f][k].mode.WriteCreate? && files[h := f][k].slot == s;
      }
    }
  }

  /** A reader that moves its cursor or reloads its page. */
  lemma ReaderStep(c: Config, sys: System, h: nat, f: File)
    requires Inv(c, sys) && h in sys.files && sys.files[h].mode.Read? && f.mode.Read? && sys.files[h].slot == f.slot
    requires HandleOk(c, sys.device.bytes, f, sys.streams)
    ensures Inv(c, sys.(files := sys.files[h := f]))
  {
    hide *;
    InvParts(c, sys);
    HandleReplaced(c, sys.device.bytes, sys.files, sys.streams, h, f);
    WriterReplaced(sys.files, h, f);
    LocksAfterReplace(sys.locks, sys.files, h, f);
    SettledSameWriters(c, sys.device.bytes, sys.files, sys.files[h := f], sys.streams);
    InvFrom(c, sys.(files := sys.files[h := f]));
  }

  lemma HandleReplaced(c: Config, bytes: seq<byte>, files: map<nat, File>, streams: seq<seq<byte>>, h: nat, f: File)
    requires HandlesOk(c, bytes, files, streams) && h in files && HandleOk(c, bytes, f, streams)
    ensures HandlesOk(c, bytes, files[h := f], streams)
  {
    hide HandleOk;
  }

  // ---- closing ----

  lemma RemoveHandle(c: Config, sys: System, h: nat)
    requires Inv(c, sys) && h in sys.files && sys.files[h].slot < |sys.streams| <= MAX_SLOTS == |sys.locks|
    requires sys.files[h].mode.WriteCreate? ==>
               CommittedSize(c, sys.device.bytes, sys.files[h].slot) == |sys.streams[sys.files[h].slot]|
    ensures var slot := sys.files[h].slot;
            Inv(c, sys.(locks := sys.locks[slot := Int8Dec(sys.locks[slot])], files := sys.files - {h}))
  {
    hide *;
    InvParts(c, sys);
    var slot := sys.files[h].slot;
    LocksAfterRemove(sys.locks, sys.files, h);
    HandleRemoved(c, sys.device.bytes, sys.files, sys.streams, h);
    InvFrom(c, sys.(locks := sys.locks[slot := Int8Dec(sys.locks[slot])], files := sys.files - {h}));
  }

  lemma HandleRemoved(c: Config, bytes: seq<byte>, files: map<nat, File>, streams: seq<seq<byte>>, h: nat)
    requires HandlesOk(c, bytes, files, streams) && OneWriter(files) && Settled(c, bytes, files, streams)
    requires h in files && files[h].slot < |streams|
    requires files[h].mode.WriteCreate? ==> CommittedSize(c, bytes, files[h].slot) == |streams[files[h].slot]|
    ensures HandlesOk(c, bytes, files - {h}, streams) && OneWriter(files - {h})
    ensures Settled(c, bytes, files - {h}, streams)
  {
    hide HandleOk, CommittedSize;
    forall s | 0 <= s < |streams| && !HasWriter(files - {h}, s) ensures CommittedSize(c, bytes, s) == |streams[s]| {
      if HasWriter(files, s) && !(files[h].mode.WriteCreate? && files[h].slot == s) {
        OtherWriterStays(files, h, s);
      }
    }
  }

  lemma OtherWriterStays(files: map<nat, File>, h: nat, slot: nat)
    requires h in files && HasWriter(files, slot) && !(files[h].mode.WriteCreate? && files[h].slot == slot)
    ensures HasWriter(files - {h}, slot)
  {
    var k :| k in files && files[k].mode.WriteCreate? && files[k].slot == slot;
    assert k in files - {h} && (files - {h})[k].mode.WriteCreate? && (files - {h})[k].slot == slot;
  }

  // ---- creating ----

  /** A slot whose lock counter is zero has no handle at all, given fewer than 256 of them. */
  lemma UnlockedIsFree(sys: System, slot: nat)
    requires LocksOk(sys.locks, sys.files) && slot < MAX_SLOTS && sys.locks[slot] == 0 && |HandlesOn(sys.files, slot)| < 256
    ensures forall h :: h in sys.files ==> sys.files[h].slot != slot
  {
    Int8Counts(|HandlesOn(sys.files, slot)|);
    assert HandlesOn(sys.files, slot) == {};
    forall h | h in sys.files ensures sys.files[h].slot != slot {
      assert h in HandlesOn(sys.files, slot) <==> sys.files[h].slot == slot;
    }
  }

  lemma CreateStep(c: Config, sys: System, h: nat, d: Device, f: File)
    requires Inv(c, sys) && h !in sys.files && f.mode.WriteCreate? && f.slot < |sys.streams| <= MAX_SLOTS == |sys.locks|
    requires forall k :: k in sys.files ==> sys.files[k].slot != f.slot
    requires OthersSame(c, sys.device.bytes, d.bytes, f.slot) && Writing(c, d.bytes, f, [])
    ensures Inv(c, System(d, sys.locks[f.slot := Int8Inc(sys.locks[f.slot])], sys.files[h := f], sys.streams[f.slot := []]))
  {
    hide *;
    InvParts(c, sys);
    var bytes := sys.device.bytes;
    var files, streams := sys.files[h := f], sys.streams[f.slot := []];
    WritingFacts(c, d.bytes, f, []);
    CommittedIsSlotOk(c, d.bytes, f.slot, f.md, []);
    SlotsOkAfter(c, bytes, d.bytes, sys.streams, f.slot, []);
    LocksAfterAdd(sys.locks, sys.files, h, f);
    WriterAdded(c, bytes, d.bytes, sys.files, sys.streams, h, f);
    SettledAfter(c, bytes, d.bytes, sys.files, sys.streams, f.slot, []);
    SettledMoreWriters(c, d.bytes, sys.files, files, streams);
    ConfigKept(c, bytes, d.bytes, f.slot);
    InvFrom(c, System(d, sys.locks[f.slot := Int8Inc(sys.locks[f.slot])], files, streams));
  }

  lemma WriterAdded(c: Config, bytes: seq<byte>, image: seq<byte>, files: map<nat, File>, streams: seq<seq<byte>>, h: nat, f: File)
    requires h !in files && f.mode.WriteCreate? && f.slot < |streams| == c.slotCount && OnDevice(c, bytes)
    requires HandlesOk(c, bytes, files, streams) && OneWriter(files)
    requires forall k :: k in files ==> files[k].slot != f.slot
    requires OthersSame(c, bytes, image, f.slot) && Writing(c, image, f, [])
    ensures HandlesOk(c, image, files[h := f], streams[f.slot := []]) && OneWriter(files[h := f])
    ensures forall s :: HasWriter(files, s) ==> HasWriter(files[h := f], s)
  {
    hide Writing, Reading, CommittedSize, OthersSame;
    var files1 := files[h := f];
    forall k | k in files1 ensures HandleOk(c, image, files1[k], streams[f.slot := []]) {
      if k != h {
        assert HandleOk(c, bytes, files[k], streams);
        OtherHandleOk(c, bytes, image, f.slot, files[k], streams, []);
      }
    }
    forall s | HasWriter(files, s) ensures HasWriter(files[h := f], s) {
      var k :| k in files && files[k].mode.WriteCreate? && files[k].slot == s;
      assert k in files[h := f] && files[h := f][k].mode.WriteCreate? && files[h := f][k].slot == s;
    }
  }

  lemma SettledMoreWriters(c: Config, bytes: seq<byte>, files: map<nat, File>, files': map<nat, File>, streams: seq<seq<byte>>)
    requires Settled(c, bytes, files, streams)
    requires forall s :: HasWriter(files, s) ==> HasWriter(files', s)
    ensures Settled(c, bytes, files', streams)
  {
    hide HasWriter, CommittedSize;
  }
}
