/** Whole runs of SlotFS: the invariant over every sequence of calls and power losses, reader stability,
    recovery, and the round trip from writes to reads. */
module SlotRuns {
  import opened Bytes
  import opened SlotMeta
  import opened SlotLayout
  import opened SlotSpec
  import opened SlotCrash
  import opened SlotCommit
  import opened SlotWriter
  import opened SlotReader
  import opened SlotCreate
  import opened SlotSystem
  import opened SlotSteps
  import opened SlotTheorems

  // ---- calls that change nothing ----

  /** The calls the source refuses, whatever else is going on: wrong mode, closed or already open handle, bad slot. */
  predicate Refused(c: Config, sys: System, op: Op) {
    var f := FileOf(sys.files, op.handle);
    match op
    case DoOpen(h, slot, mode) => h in sys.files || slot > c.slotCount || mode.Unknown?
    case DoWrite(h, _) => h !in sys.files
    case DoFlush(h) => h !in sys.files || !f.mode.WriteCreate?
    case DoSeek(h, _) => h !in sys.files || f.mode.WriteCreate?
    case DoRead(h, _) => h !in sys.files || !f.mode.Read?
    case DoClose(h) => h !in sys.files
  }

  lemma RefusedOpen(c: Config, sys: System, h: nat, slot: nat, mode: Mode)
    requires Inv(c, sys) && Allowed(c, sys, DoOpen(h, slot, mode))
    requires h in sys.files || slot > c.slotCount || mode.Unknown?
    ensures var (sys', r) := Step(c, sys, DoOpen(h, slot, mode));
            sys' == sys && r == Response(if h !in sys.files && slot > c.slotCount then ErrorFileNotFound else ErrorAssert, [])
  {
    HandleSound(c, sys, h);
    AllowedSlot(c, sys, DoOpen(h, slot, mode));
    hide Inv, Allowed, ReadPair, WriteMeta, HandlesOn, InitMetaData, Opened, Int8Inc, Sound;
  }

  lemma RefusedClosed(c: Config, sys: System, op: Op)
    requires Inv(c, sys) && Allowed(c, sys, op) && !op.DoOpen? && op.handle !in sys.files
    ensures Step(c, sys, op) == (sys, Response(ErrorAssert, []))
  {
    hide Inv, Allowed, WriteLoop, ReadLoop, CommitSize, WriteDevice, PageAddress, Int8Dec, HandlesOn;
    assert FileOf(sys.files, op.handle) == CLOSED;
  }

  lemma ModeRefuses(c: Config, d: Device, f: File, position: nat, size: nat)
    requires Sound(f)
    ensures !f.mode.WriteCreate? ==> Flush(c, d, f) == FileResult(d, f, ErrorAssert)
    ensures f.mode.WriteCreate? ==> Seek(f, position) == (f, ErrorAssert) && ReadFile(d, f, size) == ReadResult(f, ErrorAssert, [])
  {
    hide CommitSize, ReadLoop, WriteDevice;
  }

  lemma StepReadAny(c: Config, sys: System, h: nat, size: nat)
    requires Inv(c, sys) && Allowed(c, sys, DoRead(h, size)) && h in sys.files && Sound(sys.files[h])
    ensures var r := ReadFile(sys.device, sys.files[h], size);
            Step(c, sys, DoRead(h, size)) == (sys.(files := sys.files[h := r.file]), Response(r.rc, r.data))
  {
    hide Inv, ReadFile, Sound;
  }

  lemma SoundIn(c: Config, sys: System, h: nat)
    requires Inv(c, sys) && h in sys.files
    ensures Sound(sys.files[h])
  {
    HandleSound(c, sys, h);
    hide Inv, Sound;
  }

  lemma RefusedMode(c: Config, sys: System, op: Op)
    requires Inv(c, sys) && Allowed(c, sys, op) && op.handle in sys.files
    requires (op.DoFlush? && sys.files[op.handle].mode.Read?) || ((op.DoSeek? || op.DoRead?) && sys.files[op.handle].mode.WriteCreate?)
    ensures Step(c, sys, op) == (sys, Response(ErrorAssert, []))
  {
    hide *;
    var h := op.handle;
    var f := sys.files[h];
    SoundIn(c, sys, h);
    assert sys.files[h := f] == sys.files;
    match op
    case DoFlush(_) => StepFlush(c, sys, h); ModeRefuses(c, sys.device, f, 0, 0);
    case DoSeek(_, position) => StepSeek(c, sys, h, position); ModeRefuses(c, sys.device, f, position, 0);
    case DoRead(_, size) => StepReadAny(c, sys, h, size); ModeRefuses(c, sys.device, f, 0, size);
    case _ =>
  }

  lemma RefusedOther(c: Config, sys: System, op: Op)
    requires Inv(c, sys) && Allowed(c, sys, op) && !op.DoOpen? && Refused(c, sys, op)
    ensures Step(c, sys, op) == (sys, Response(ErrorAssert, []))
  {
    if op.handle !in sys.files {
      hide Inv, Allowed, Step;
      RefusedClosed(c, sys, op);
    } else {
      HandleMode(c, sys, op.handle);
      hide Inv, Allowed, Step;
      RefusedMode(c, sys, op);
    }
  }

  lemma RefusedChangesNothing(c: Config, sys: System, op: Op)
    requires Inv(c, sys) && Allowed(c, sys, op) && Refused(c, sys, op)
    ensures var (sys', r) := Step(c, sys, op);
            sys' == sys && r == Response(if op.DoOpen? && op.handle !in sys.files && op.slot > c.slotCount
                                         then ErrorFileNotFound else ErrorAssert, [])
  {
    hide Inv, Allowed, Step;
    if op.DoOpen? { RefusedOpen(c, sys, op.handle, op.slot, op.mode); } else { RefusedOther(c, sys, op); }
  }

  lemma HandleMode(c: Config, sys: System, h: nat)
    requires Inv(c, sys) && h in sys.files
    ensures sys.files[h].mode.WriteCreate? || sys.files[h].mode.Read?
    ensures sys.files[h].slot < |sys.streams| == c.slotCount
  {
    hide *;
    InvParts(c, sys);
    HandleIn(c, sys.device.bytes, sys.files, sys.streams, h);
  }

  // ---- invariant ----

  /** Every call keeps the invariant. */
  lemma StepKeepsInv(c: Config, sys: System, op: Op)
    requires Inv(c, sys) && Allowed(c, sys, op)
    ensures Inv(c, Step(c, sys, op).0)
  {
    hide *;
    InvParts(c, sys);
    if Refused(c, sys, op) {
      RefusedChangesNothing(c, sys, op);
    } else {
      NotRefused(c, sys, op);
      AllowedSlot(c, sys, op);
      var h := op.handle;
      if h in sys.files { HandleMode(c, sys, h); }
      match op
      case DoOpen(_, slot, mode) =>
        if mode.Read? { OpenReadStep(c, sys, h, slot); } else { OpenWriteStep(c, sys, h, slot); }
      case DoWrite(_, data) => WriteAppends(c, sys, h, data);
      case DoFlush(_) => FlushStep(c, sys, h);
      case DoSeek(_, position) => SeekStep(c, sys, h, position);
      case DoRead(_, size) => ReadStep(c, sys, h, size);
      case DoClose(_) => if sys.files[h].mode.Read? { CloseReaderStep(c, sys, h); } else { CloseWriterStep(c, sys, h); }
    }
  }

  ghost predicate Legal(c: Config, sys: System, ops: seq<Op>)
    decreases |ops|
  {
    && Inv(c, sys)
    && (ops != [] ==> Allowed(c, sys, ops[0]) && Legal(c, Step(c, sys, ops[0]).0, ops[1..]))
  }

  ghost function Run(c: Config, sys: System, ops: seq<Op>): System
    requires Legal(c, sys, ops)
    decreases |ops|
  {
    if ops == [] then sys else Run(c, Step(c, sys, ops[0]).0, ops[1..])
  }

  /** A run is legal when each call meets its callers' obligations; the invariant never has to be asked for. */
  lemma LegalStep(c: Config, sys: System, op: Op, rest: seq<Op>)
    requires Inv(c, sys) && Allowed(c, sys, op)
    ensures Inv(c, Step(c, sys, op).0)
    ensures Legal(c, Step(c, sys, op).0, rest) ==> Legal(c, sys, [op] + rest) && Run(c, sys, [op] + rest) == Run(c, Step(c, sys, op).0, rest)
  {
    StepKeepsInv(c, sys, op);
    hide Inv, Step, Allowed;
    assert ([op] + rest)[1..] == rest;
  }

  /** The invariant holds after every legal run. */
  lemma {:induction false} RunKeepsInv(c: Config, sys: System, ops: seq<Op>)
    requires Legal(c, sys, ops)
    ensures Inv(c, Run(c, sys, ops))
    decreases |ops|
  {
    hide Inv, Step, Allowed;
    if ops != [] { RunKeepsInv(c, Step(c, sys, ops[0]).0, ops[1..]); }
  }

  // ---- reader stability ----

  /** The bytes a read handle covers, as they are on the device. */
  ghost function Covered(c: Config, sys: System, h: nat): seq<byte>
    requires Inv(c, sys) && h in sys.files && sys.files[h].mode.Read?
  {
    ReaderFacts(c, sys, h);
    Content(c, sys.device.bytes, DataArea(sys.files[h].slot))[..sys.files[h].md.fileSize]
  }

  lemma CoveredIsStream(c: Config, sys: System, h: nat)
    requires Inv(c, sys) && h in sys.files && sys.files[h].mode.Read?
    ensures var f := sys.files[h];
            && f.slot < |sys.streams| && f.md.fileSize <= |sys.streams[f.slot]|
            && Covered(c, sys, h) == sys.streams[f.slot][..f.md.fileSize]
  {
    ReaderFacts(c, sys, h);
    hide Inv, Reading, Content;
  }

  /** What a step does to handle h (not closed by it) and to the stream of its slot. */
  ghost predicate HandleStays(sys: System, sys': System, h: nat) {
    && h in sys.files && h in sys'.files
    && sys'.files[h].slot == sys.files[h].slot && sys'.files[h].mode == sys.files[h].mode
    && (sys.files[h].mode.Read? ==> sys'.files[h].md == sys.files[h].md)
    && sys.files[h].slot < |sys.streams| == |sys'.streams|
    && sys.streams[sys.files[h].slot] <= sys'.streams[sys.files[h].slot]
  }

  lemma StaysFrom(sys: System, sys': System, h: nat)
    requires h in sys.files && h in sys'.files && sys.files[h].slot < |sys.streams| == |sys'.streams|
    requires sys'.files[h].slot == sys.files[h].slot && sys'.files[h].mode == sys.files[h].mode
    requires sys.files[h].mode.Read? ==> sys'.files[h].md == sys.files[h].md
    requires sys.streams[sys.files[h].slot] <= sys'.streams[sys.files[h].slot]
    ensures HandleStays(sys, sys', h)
  {}

  lemma WriterStays(sys: System, sys': System, h: nat, k: nat, flushes: int, data: seq<byte>)
    requires h in sys.files && WriterMoved(sys, sys', k, flushes) && sys.files[k].mode.WriteCreate?
    requires sys.files[h].slot < |sys.streams| && sys.files[k].slot < |sys.streams|
    requires sys'.streams == sys.streams[sys.files[k].slot := sys.streams[sys.files[k].slot] + data]
    ensures HandleStays(sys, sys', h)
  {}

  lemma MoverStays(sys: System, sys': System, h: nat, k: nat, cursor: nat)
    requires h in sys.files && sys.files[h].slot < |sys.streams| && Moved(sys, sys', k, cursor)
    ensures HandleStays(sys, sys', h)
  {}

  lemma ReadMoves(sys: System, sys': System, h: nat, size: nat, r: Response) returns (cursor: nat)
    requires ReadReturns(sys, sys', h, size, r)
    ensures Moved(sys, sys', h, cursor)
  {
    cursor := sys.files[h].cursor + Min(size, sys.files[h].md.fileSize - sys.files[h].cursor);
  }

  lemma NotRefused(c: Config, sys: System, op: Op)
    requires !Refused(c, sys, op) && Fits(c)
    ensures !op.DoOpen? ==> op.handle in sys.files
    ensures op.DoOpen? ==> op.handle !in sys.files && op.slot <= c.slotCount && (op.mode.Read? || op.mode.WriteCreate?)
    ensures op.DoFlush? ==> sys.files[op.handle].mode.WriteCreate?
    ensures op.DoRead? ==> sys.files[op.handle].mode.Read?
    ensures op.DoSeek? ==> !sys.files[op.handle].mode.WriteCreate?
  {}

  lemma AllowedSlot(c: Config, sys: System, op: Op)
    requires Allowed(c, sys, op)
    ensures op.DoOpen? ==> op.slot != c.slotCount
    ensures op.DoWrite? && op.handle in sys.files ==> sys.files[op.handle].mode.WriteCreate?
  {
    hide HandlesOn;
  }

  lemma StepKeepsHandle(c: Config, sys: System, op: Op, h: nat)
    requires Inv(c, sys) && Allowed(c, sys, op) && h in sys.files && op != DoClose(h)
    ensures HandleStays(sys, Step(c, sys, op).0, h)
  {
    hide *;
    InvParts(c, sys);
    HandleMode(c, sys, h);
    var k := op.handle;
    var sys', r := Step(c, sys, op).0, Step(c, sys, op).1;
    if Refused(c, sys, op) {
      RefusedChangesNothing(c, sys, op);
      StaysFrom(sys, sys', h);
    } else {
      NotRefused(c, sys, op);
      AllowedSlot(c, sys, op);
      if k in sys.files { HandleMode(c, sys, k); }
      match op
      case DoOpen(_, slot, mode) =>
        if mode.Read? {
          OpenReadStep(c, sys, k, slot);
        } else {
          OpenWriteStep(c, sys, k, slot);
          SlotOfHandleBusy(sys.files, h);
        }
        StaysFrom(sys, sys', h);
      case DoWrite(_, data) =>
        WriteAppends(c, sys, k, data);
        if r.rc.Success? {
          WriterStays(sys, sys', h, k, PagesFilled(|sys'.streams[sys.files[k].slot]|) - PagesFilled(|sys.streams[sys.files[k].slot]|), data);
        } else {
          StaysFrom(sys, sys', h);
        }
      case DoFlush(_) =>
        FlushStep(c, sys, k);
        var slot := sys.files[k].slot;
        assert sys.streams[slot] + [] == sys.streams[slot] && sys.streams[slot := sys.streams[slot]] == sys.streams;
        WriterStays(sys, sys', h, k, 1, []);
      case DoSeek(_, position) =>
        SeekStep(c, sys, k, position);
        if position < sys.files[k].md.fileSize { MoverStays(sys, sys', h, k, position); } else { StaysFrom(sys, sys', h); }
      case DoRead(_, size) =>
        ReadStep(c, sys, k, size);
        var cursor := ReadMoves(sys, sys', k, size, r);
        MoverStays(sys, sys', h, k, cursor);
      case DoClose(_) =>
        if sys.files[k].mode.Read? { CloseReaderStep(c, sys, k); } else { CloseWriterStep(c, sys, k); }
        StaysFrom(sys, sys', h);
    }
  }

  lemma SlotOfHandleBusy(files: map<nat, File>, h: nat)
    requires h in files
    ensures HandlesOn(files, files[h].slot) != {}
  {
    assert h in HandlesOn(files, files[h].slot);
  }

  lemma StayingReaderCovers(c: Config, sys: System, sys': System, h: nat)
    requires Inv(c, sys) && Inv(c, sys') && HandleStays(sys, sys', h) && sys.files[h].mode.Read?
    ensures Covered(c, sys', h) == Covered(c, sys, h)
  {
    CoveredIsStream(c, sys, h);
    CoveredIsStream(c, sys', h);
    hide Inv, Covered;
    var f := sys.files[h];
    assert sys'.streams[f.slot][..f.md.fileSize] == sys.streams[f.slot][..f.md.fileSize];
  }

  lemma StaysTransitive(s0: System, s1: System, s2: System, h: nat)
    requires HandleStays(s0, s1, h) && HandleStays(s1, s2, h)
    ensures HandleStays(s0, s2, h)
  {}

  lemma {:induction false} RunKeepsHandle(c: Config, sys: System, ops: seq<Op>, h: nat)
    requires Legal(c, sys, ops) && h in sys.files && DoClose(h) !in ops
    ensures HandleStays(sys, Run(c, sys, ops), h)
    decreases |ops|
  {
    if ops == [] {
      HandleMode(c, sys, h);
    } else {
      hide Inv, Step, Allowed, HandleStays;
      StepKeepsHandle(c, sys, ops[0], h);
      var s1 := Step(c, sys, ops[0]).0;
      assert h in s1.files by { StaysOpen(sys, s1, h); }
      RunKeepsHandle(c, s1, ops[1..], h);
      StaysTransitive(sys, s1, Run(c, sys, ops), h);
    }
  }

  lemma StaysOpen(s0: System, s1: System, h: nat)
    requires HandleStays(s0, s1, h)
    ensures h in s1.files && s1.files[h].mode == s0.files[h].mode && h in s0.files
  {}

  /** While a read handle is open, no run of calls on any handles changes a byte it covers. */
  lemma ReaderStability(c: Config, sys: System, ops: seq<Op>, h: nat)
    requires Legal(c, sys, ops) && h in sys.files && sys.files[h].mode.Read? && DoClose(h) !in ops
    ensures var sys' := Run(c, sys, ops);
            && Inv(c, sys) && Inv(c, sys') && h in sys'.files && sys'.files[h].mode.Read?
            && sys'.files[h].md == sys.files[h].md
            && Covered(c, sys', h) == Covered(c, sys, h)
  {
    RunKeepsInv(c, sys, ops);
    RunKeepsHandle(c, sys, ops, h);
    assert Inv(c, sys);
    hide Inv, Covered, Legal, Run;
    StayingReaderCovers(c, sys, Run(c, sys, ops), h);
  }

  // ---- power loss ----

  /** The slot whose bytes a call may write. */
  function WrittenSlot(sys: System, op: Op): Option<nat> {
    if op.DoOpen? then (if op.mode.WriteCreate? && op.handle !in sys.files then Some(op.slot) else None)
    else if (op.DoWrite? || op.DoFlush? || op.DoClose?) && op.handle in sys.files && sys.files[op.handle].mode.WriteCreate?
    then Some(sys.files[op.handle].slot) else None
  }

  /** Creating a file is safe against power loss when the slot's second metadata block is valid (SlotCreate.CreateSurvives). */
  predicate Survivable(c: Config, sys: System, op: Op) {
    op.DoOpen? && op.mode.WriteCreate? && op.slot < c.slotCount && OnDevice(c, sys.device.bytes)
    ==> PairOf(c, sys.device.bytes, op.slot).b.Some?
  }

  /** What slot s shows after power was lost during a call that turns `sys` into `sys'`, when k of the call's writes were done. */
  ghost predicate Recovered(c: Config, sys: System, sys': System, op: Op, k: nat, image: seq<byte>, s: nat) {
    && OnDevice(c, sys.device.bytes) && |image| == |sys.device.bytes| && s < c.slotCount && s < |sys'.streams|
    && ConfigOk(c, image) && PairSane(c, s, PairOf(c, image, s))
    && var before, shown := View(c, sys.device.bytes, s), View(c, image, s);
       && before.Some? && shown.Some?
       && if WrittenSlot(sys, op) != Some(s) then shown == before
          else if op.DoOpen? then
            // the file before, or the version stored in the second block, or from its first write on the new empty file
            || (k == 0 && shown == before)
            || (k <= 1 && shown == VersionOf(c, sys.device.bytes, s, PairOf(c, sys.device.bytes, s).b))
            || shown == Some(Version(CreatedMeta(c, s), []))
          else
            // the version that the k writes committed, or the one that the interrupted write would have: a prefix of the
            // stream that keeps everything committed before the call
            && shown.value.content <= sys'.streams[s]
            && |before.value.content| <= |shown.value.content|
            && ShowsAround(c, sys.device.bytes, NewWrites(sys.device, sys'.device), k, image, s)
  }

  lemma UnwrittenRecovers(c: Config, sys: System, sys': System, op: Op, k: nat, image: seq<byte>, slot: nat, s: nat)
    requires Inv(c, sys) && s < |sys.streams| == |sys'.streams| && WrittenSlot(sys, op) != Some(s)
    requires image == sys.device.bytes || (OthersSame(c, sys.device.bytes, image, slot) && slot != s)
    ensures Recovered(c, sys, sys', op, k, image, s)
  {
    InvParts(c, sys);
    hide Inv, Content, OthersSame, Committed, Pair.Current;
    SlotIn(c, sys.device.bytes, sys.streams, s);
    SlotOkShows(c, sys.device.bytes, s, sys.streams[s]);
    if image != sys.device.bytes {
      OtherSlotSame(c, sys.device.bytes, image, slot, s);
      ConfigKept(c, sys.device.bytes, image, slot);
    }
    assert PairSane(c, s, PairOf(c, sys.device.bytes, s));
  }

  lemma UnchangedRecovers(c: Config, sys: System, sys': System, op: Op, s: nat)
    requires Inv(c, sys) && s < |sys.streams| == |sys'.streams| && sys.streams[s] <= sys'.streams[s]
    requires sys'.device == sys.device
    ensures Recovered(c, sys, sys', op, 0, sys.device.bytes, s)
  {
    InvParts(c, sys);
    hide Inv, Content, OthersSame, Committed, Pair.Current, Decode;
    SlotIn(c, sys.device.bytes, sys.streams, s);
    SlotOkShows(c, sys.device.bytes, s, sys.streams[s]);
    var log := NewWrites(sys.device, sys'.device);
    assert log == [] && Replay(sys.device.bytes, log[..0]) == sys.device.bytes;
    assert ShowsAround(c, sys.device.bytes, log, 0, sys.device.bytes, s);
  }

  /** A call by a writer: its device writes are safe, so every image recovers. */
  lemma TrackedRecovers(c: Config, sys: System, sys': System, op: Op, k: nat, image: seq<byte>, slot: nat, s: nat)
    requires Inv(c, sys) && s < |sys.streams| == |sys'.streams| && slot < |sys.streams|
    requires WrittenSlot(sys, op) == Some(slot) && !op.DoOpen?
    requires Tracked(c, sys, sys', slot, sys'.streams[slot])
    requires CrashAt(sys.device.bytes, NewWrites(sys.device, sys'.device), k, image)
    ensures Recovered(c, sys, sys', op, k, image, s)
  {
    InvParts(c, sys);
    hide Inv, Content, CrashAt, NewWrites, Replay, OthersSame, ShowsAround, Pair.Current, Decode, CommittedSize;
    var low := CommittedSize(c, sys.device.bytes, slot);
    assert Good(c, sys.device.bytes, image, slot, low, sys'.streams[slot]);
    assert ShowsAround(c, sys.device.bytes, NewWrites(sys.device, sys'.device), k, image, slot);
    hide Tracked, Safe, View, PairOf;
    SlotIn(c, sys.device.bytes, sys.streams, s);
    SlotOkShows(c, sys.device.bytes, s, sys.streams[s]);
    ConfigKept(c, sys.device.bytes, image, slot);
    if s != slot { UnwrittenRecovers(c, sys, sys', op, k, image, slot, s); } else { OthersSameLength(c, sys.device.bytes, image, slot); }
  }

  /** Creating a file: the second metadata block being valid, every image shows a file. */
  lemma CreateRecovers(c: Config, sys: System, sys': System, op: Op, k: nat, image: seq<byte>, s: nat)
    requires Inv(c, sys) && s < |sys.streams| == |sys'.streams|
    requires op.DoOpen? && op.slot < c.slotCount && WrittenSlot(sys, op) == Some(op.slot) && Survivable(c, sys, op) && op.mode.WriteCreate?
    requires OnDevice(c, sys.device.bytes) && CrashAt(sys.device.bytes, CreateWrites(c, op.slot), k, image)
    ensures Recovered(c, sys, sys', op, k, image, s)
  {
    InvParts(c, sys);
    var bytes := sys.device.bytes;
    hide Inv, Content, CrashAt, CreateWrites, OthersSame, Decode;
    SlotIn(c, bytes, sys.streams, s);
    SlotOkShows(c, bytes, s, sys.streams[s]);
    CreateCrash(c, sys.device, op.slot, k, image);
    ConfigKept(c, bytes, image, op.slot);
    if s != op.slot {
      UnwrittenRecovers(c, sys, sys', op, k, image, op.slot, s);
    } else {
      InitIsSane(c, s, 1);
      CreateCases(c, bytes, k, image, s);
    }
  }

  lemma CreateCases(c: Config, bytes: seq<byte>, k: nat, image: seq<byte>, s: nat)
    requires OnDevice(c, bytes) && |image| == |bytes| && s < c.slotCount
    requires PairSane(c, s, PairOf(c, bytes, s)) && PairOf(c, bytes, s).b.Some? && View(c, bytes, s).Some?
    requires Sane(c, s, CreatedMeta(c, s))
    requires Content(c, image, DataArea(s)) == Content(c, bytes, DataArea(s))
    requires CreateLeft(PairOf(c, bytes, s), Some(CreatedMeta(c, s)), k, PairOf(c, image, s))
    ensures PairSane(c, s, PairOf(c, image, s)) && View(c, image, s).Some?
    ensures || (k == 0 && View(c, image, s) == View(c, bytes, s))
            || (k <= 1 && View(c, image, s) == VersionOf(c, bytes, s, PairOf(c, bytes, s).b))
            || View(c, image, s) == Some(Version(CreatedMeta(c, s), []))
  {
    hide PairOf, Content, Sane;
    assert Content(c, bytes, DataArea(s))[..0] == [];
  }

  /** Power loss at any point of any call leaves every slot readable: the slots the call does not write show
      what they showed; the written slot shows a version committed before or in flight (Recovered). */
  lemma CrashRecovers(c: Config, sys: System, op: Op, k: nat, image: seq<byte>, s: nat)
    requires Inv(c, sys) && Allowed(c, sys, op) && Survivable(c, sys, op) && s < |sys.streams|
    requires CrashAt(sys.device.bytes, NewWrites(sys.device, Step(c, sys, op).0.device), k, image)
    ensures Recovered(c, sys, Step(c, sys, op).0, op, k, image, s)
  {
    hide *;
    InvParts(c, sys);
    var sys', h := Step(c, sys, op).0, op.handle;
    if sys'.device == sys.device { NoWritesNoChange(sys, sys', k, image); }
    if Refused(c, sys, op) {
      RefusedChangesNothing(c, sys, op);
      UnchangedRecovers(c, sys, sys', op, s);
    } else {
      NotRefused(c, sys, op);
      AllowedSlot(c, sys, op);
      if h in sys.files { HandleMode(c, sys, h); }
      WrittenSlotIs(sys, op);
      match op
      case DoOpen(_, slot, mode) =>
        if mode.Read? {
          OpenReadStep(c, sys, h, slot);
          UnchangedRecovers(c, sys, sys', op, s);
        } else {
          OpenWriteStep(c, sys, h, slot);
          if HandlesOn(sys.files, slot) == {} {
            CreatedWrites(c, sys, sys', slot);
            CreateRecovers(c, sys, sys', op, k, image, s);
          } else {
            UnchangedRecovers(c, sys, sys', op, s);
          }
        }
      case DoWrite(_, data) =>
        WriteAppends(c, sys, h, data);
        if sys' == sys { UnchangedRecovers(c, sys, sys', op, s); }
        else { TrackedRecovers(c, sys, sys', op, k, image, sys.files[h].slot, s); }
      case DoFlush(_) =>
        FlushStep(c, sys, h);
        TrackedRecovers(c, sys, sys', op, k, image, sys.files[h].slot, s);
      case DoSeek(_, position) =>
        SeekStep(c, sys, h, position);
        if position < sys.files[h].md.fileSize { MovedSame(sys, sys', h, position); }
        NoWritesNoChange(sys, sys', k, image);
        UnchangedRecovers(c, sys, sys', op, s);
      case DoRead(_, size) =>
        ReadStep(c, sys, h, size);
        var cursor := ReadMoves(sys, sys', h, size, Step(c, sys, op).1);
        MovedSame(sys, sys', h, cursor);
        NoWritesNoChange(sys, sys', k, image);
        UnchangedRecovers(c, sys, sys', op, s);
      case DoClose(_) =>
        if sys.files[h].mode.Read? {
          CloseReaderStep(c, sys, h);
          UnchangedRecovers(c, sys, sys', op, s);
        } else {
          CloseWriterStep(c, sys, h);
          TrackedRecovers(c, sys, sys', op, k, image, sys.files[h].slot, s);
        }
    }
  }

  lemma MovedSame(sys: System, sys': System, h: nat, cursor: nat)
    requires Moved(sys, sys', h, cursor)
    ensures sys'.device == sys.device && sys'.streams == sys.streams
  {}

  lemma NoWritesNoChange(sys: System, sys': System, k: nat, image: seq<byte>)
    requires sys'.device == sys.device && CrashAt(sys.device.bytes, NewWrites(sys.device, sys'.device), k, image)
    ensures image == sys.device.bytes && k == 0
  {
    hide Torn;
  }

  lemma WrittenSlotIs(sys: System, op: Op)
    ensures op.DoOpen? && op.mode.WriteCreate? && op.handle !in sys.files ==> WrittenSlot(sys, op) == Some(op.slot)
    ensures (op.DoWrite? || op.DoFlush? || op.DoClose?) && op.handle in sys.files && sys.files[op.handle].mode.WriteCreate?
            ==> WrittenSlot(sys, op) == Some(sys.files[op.handle].slot)
  {}

  lemma CreatedWrites(c: Config, sys: System, sys': System, slot: nat)
    requires OnDevice(c, sys.device.bytes) && slot < c.slotCount && sys'.device == Created(c, sys.device, slot)
    ensures NewWrites(sys.device, sys'.device) == CreateWrites(c, slot)
  {
    CreateCommits(c, sys.device, slot);
    hide Created, CreateWrites, Committed, OthersSame, WriteMeta;
  }

  // ---- runs with power losses ----

  /** A call, or a call cut short after some of its device writes, with what that leaves of the device. */
  datatype Event = Call(op: Op) | Loss(op: Op, done: nat, image: seq<byte>)

  ghost function Shown(c: Config, image: seq<byte>, s: nat): seq<byte> {
    if OnDevice(c, image) && s < c.slotCount && View(c, image, s).Some? then View(c, image, s).value.content else []
  }

  /** The file system after power returns: the device as it was left, no handle open, each stream what its slot shows. */
  ghost function Restarted(c: Config, image: seq<byte>): System {
    System(Device(image, []), seq(MAX_SLOTS, _ => 0), map[], seq(c.slotCount, s requires 0 <= s => Shown(c, image, s)))
  }

  lemma ShownIsSlotOk(c: Config, image: seq<byte>, s: nat)
    requires OnDevice(c, image) && s < c.slotCount && PairSane(c, s, PairOf(c, image, s)) && View(c, image, s).Some?
    ensures SlotOk(c, image, s, Shown(c, image, s)) && CommittedSize(c, image, s) == |Shown(c, image, s)|
  {
    hide PairOf, Content;
    var v := View(c, image, s).value;
    assert v.content[..|v.content|] == v.content;
  }

  lemma QuietInv(c: Config, bytes: seq<byte>, log: seq<DeviceWrite>, streams: seq<seq<byte>>)
    requires ConfigOk(c, bytes) && OnDevice(c, bytes) && Paged(c) && |streams| == c.slotCount
    requires forall s :: 0 <= s < |streams| ==> SlotOk(c, bytes, s, streams[s]) && CommittedSize(c, bytes, s) == |streams[s]|
    ensures Inv(c, System(Device(bytes, log), seq(MAX_SLOTS, _ => 0), map[], streams))
  {
    hide SlotOk, CommittedSize, ConfigOk;
    forall s | 0 <= s < MAX_SLOTS ensures |HandlesOn(map[], s)| == 0 { assert HandlesOn(map[], s) == {}; }
  }

  /** After a power loss `sfs_init` keeps the file system and everything starts again from the invariant. */
  lemma RestartKeepsInv(c: Config, sys: System, op: Op, k: nat, image: seq<byte>)
    requires Inv(c, sys) && Allowed(c, sys, op) && Survivable(c, sys, op)
    requires CrashAt(sys.device.bytes, NewWrites(sys.device, Step(c, sys, op).0.device), k, image)
    ensures Fits(c) && Init(c, Device(image, [])) == (Device(image, []), Success)
    ensures Inv(c, Restarted(c, image))
  {
    InvParts(c, sys);
    var sys' := Step(c, sys, op).0;
    hide Inv, Step, CrashAt, NewWrites, Allowed, Survivable, View, PairOf, SlotOk, CommittedSize, ShowsAround, Content, Init;
    var streams := Restarted(c, image).streams;
    forall s | 0 <= s < |streams| ensures SlotOk(c, image, s, streams[s]) && CommittedSize(c, image, s) == |streams[s]| {
      CrashRecovers(c, sys, op, k, image, s);
      ShownIsSlotOk(c, image, s);
    }
    CrashRecovers(c, sys, op, k, image, 0);
    InitKeeps(c, Device(image, []));
    QuietInv(c, image, [], streams);
  }

  ghost predicate LegalEvent(c: Config, sys: System, e: Event)
    requires Inv(c, sys)
  {
    && Allowed(c, sys, e.op)
    && (e.Loss? ==> Survivable(c, sys, e.op)
                    && CrashAt(sys.device.bytes, NewWrites(sys.device, Step(c, sys, e.op).0.device), e.done, e.image))
  }

  ghost function After(c: Config, sys: System, e: Event): System
    requires Inv(c, sys) && LegalEvent(c, sys, e)
  {
    if e.Call? then Step(c, sys, e.op).0 else Restarted(c, e.image)
  }

  /** A history of calls, some of them cut short by power losses. */
  ghost predicate LegalHistory(c: Config, sys: System, events: seq<Event>)
    requires Inv(c, sys)
    decreases |events|
  {
    events == [] || (
      && LegalEvent(c, sys, events[0])
      && (AfterKeepsInv(c, sys, events[0]); LegalHistory(c, After(c, sys, events[0]), events[1..])))
  }

  lemma AfterKeepsInv(c: Config, sys: System, e: Event)
    requires Inv(c, sys) && LegalEvent(c, sys, e)
    ensures Inv(c, After(c, sys, e))
  {
    hide Inv, Step, Allowed, Survivable, Restarted, CrashAt;
    if e.Call? { StepKeepsInv(c, sys, e.op); } else { RestartKeepsInv(c, sys, e.op, e.done, e.image); }
  }

  ghost function History(c: Config, sys: System, events: seq<Event>): System
    requires Inv(c, sys) && LegalHistory(c, sys, events)
    decreases |events|
  {
    if events == [] then sys
    else AfterKeepsInv(c, sys, events[0]); History(c, After(c, sys, events[0]), events[1..])
  }

  /** The file system is intact after every history of calls and power losses. */
  lemma {:induction false} HistoryKeepsInv(c: Config, sys: System, events: seq<Event>)
    requires Inv(c, sys) && LegalHistory(c, sys, events)
    ensures Inv(c, History(c, sys, events))
    decreases |events|
  {
    hide Inv, LegalEvent, After;
    if events != [] {
      AfterKeepsInv(c, sys, events[0]);
      HistoryKeepsInv(c, After(c, sys, events[0]), events[1..]);
    }
  }
}
