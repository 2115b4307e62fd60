/** What a read handle answers over any run of calls on any handles: a file that does not change, and a cursor in it. */
module SlotReadBack {
  import opened Bytes
  import opened SlotMeta
  import opened SlotLayout
  import opened SlotSpec
  import opened SlotCrash
  import opened SlotWriter
  import opened SlotSystem
  import opened SlotTheorems
  import opened SlotRuns
  import opened SlotBoot
  import opened SlotRoundTrip

  /** A read handle as its user sees it: what a call does to the cursor, and what it returns. */
  function Answer(file: seq<byte>, cursor: nat, op: Op): (r: (nat, Response))
    requires cursor <= |file|
    ensures r.0 <= |file|
  {
    match op
    case DoSeek(_, position) =>
      if position < |file| then (position, Response(Success, [])) else (cursor, Response(ErrorAssert, []))
    case DoRead(_, size) =>
      if size <= |file| - cursor then (cursor + size, Response(Success, file[cursor..cursor + size]))
      else (|file|, Response(SuccessEof, file[cursor..]))
    case _ => (cursor, Response(ErrorAssert, []))
  }

  function Answers(file: seq<byte>, cursor: nat, ops: seq<Op>, h: nat): seq<Response>
    requires cursor <= |file|
    decreases |ops|
  {
    if ops == [] then []
    else if ops[0].handle != h then Answers(file, cursor, ops[1..], h)
    else
      var (next, r) := Answer(file, cursor, ops[0]);
      [r] + Answers(file, next, ops[1..], h)
  }

  /** What a run's calls on handle h return. */
  ghost function Responses(c: Config, sys: System, ops: seq<Op>, h: nat): seq<Response>
    requires Legal(c, sys, ops)
    decreases |ops|
  {
    if ops == [] then []
    else
      var (sys', r) := Step(c, sys, ops[0]);
      (if ops[0].handle == h then [r] else []) + Responses(c, sys', ops[1..], h)
  }

  /** Handle h reads this file and stands there in it. */
  ghost predicate ReaderAt(sys: System, h: nat, file: seq<byte>, cursor: nat) {
    && h in sys.files && sys.files[h].mode.Read? && sys.files[h].md.fileSize == |file| && sys.files[h].cursor == cursor <= |file|
    && sys.files[h].slot < |sys.streams| && file <= sys.streams[sys.files[h].slot]
  }

  /** A call does not touch the handles it is not made on. */
  lemma OtherHandleSame(c: Config, sys: System, op: Op, h: nat)
    requires Inv(c, sys) && Allowed(c, sys, op) && h in sys.files && op.handle != h
    ensures var sys' := Step(c, sys, op).0; h in sys'.files && sys'.files[h] == sys.files[h]
  {
    hide Inv, Allowed, Open, Write, Flush, Seek, ReadFile, Close, FileOf;
  }

  lemma ReaderStays(sys: System, sys': System, h: nat, file: seq<byte>, cursor: nat, cursor': nat)
    requires ReaderAt(sys, h, file, cursor) && HandleStays(sys, sys', h) && sys'.files[h].cursor == cursor' <= |file|
    ensures ReaderAt(sys', h, file, cursor')
  {}

  /** One call, on any handle. */
  lemma ReaderAnswers(c: Config, sys: System, op: Op, h: nat, file: seq<byte>, cursor: nat)
    requires Inv(c, sys) && Allowed(c, sys, op) && ReaderAt(sys, h, file, cursor) && op != DoClose(h)
    ensures var (sys', r) := Step(c, sys, op);
            if op.handle == h then r == Answer(file, cursor, op).1 && ReaderAt(sys', h, file, Answer(file, cursor, op).0)
            else ReaderAt(sys', h, file, cursor)
  {
    hide Inv, Allowed, Step, HandleStays;
    var sys', r := Step(c, sys, op).0, Step(c, sys, op).1;
    StepKeepsHandle(c, sys, op, h);
    StaysOpen(sys, sys', h);
    if op.handle != h {
      OtherHandleSame(c, sys, op, h);
      ReaderStays(sys, sys', h, file, cursor, cursor);
    } else if op.DoSeek? {
      SeekStep(c, sys, h, op.position);
      SeekMovesTo(c, sys, h, op.position);
      ReaderStays(sys, sys', h, file, cursor, Answer(file, cursor, op).0);
    } else if op.DoRead? {
      ReadStep(c, sys, h, op.size);
      ReadReturnsIs(sys, sys', h, op.size, r);
      ReadMovesTo(sys, sys', h, op.size, r);
      PrefixSlice(file, sys.streams[sys.files[h].slot], cursor, Answer(file, cursor, op).0);
      ReaderStays(sys, sys', h, file, cursor, Answer(file, cursor, op).0);
    } else {
      ReaderRefuses(c, sys, op);
      RefusedChangesNothing(c, sys, op);
    }
  }

  lemma ReaderRefuses(c: Config, sys: System, op: Op)
    requires op.handle in sys.files && sys.files[op.handle].mode.Read? && Allowed(c, sys, op)
    requires op.DoOpen? || op.DoWrite? || op.DoFlush?
    ensures Refused(c, sys, op)
  {
    hide HandlesOn;
  }

  lemma SeekMovesTo(c: Config, sys: System, h: nat, position: nat)
    requires Inv(c, sys) && Allowed(c, sys, DoSeek(h, position)) && h in sys.files
    ensures Step(c, sys, DoSeek(h, position)).1.data == []
    ensures forall sys' :: Moved(sys, sys', h, position) ==> sys'.files[h].cursor == position
  {
    hide Inv, Allowed, Step;
    StepSeek(c, sys, h, position);
  }

  lemma ReadMovesTo(sys: System, sys': System, h: nat, size: nat, r: Response)
    requires ReadReturns(sys, sys', h, size, r)
    ensures h in sys.files && h in sys'.files
    ensures var f := sys.files[h]; sys'.files[h].cursor == f.cursor + Min(size, f.md.fileSize - f.cursor)
  {}

  lemma PrefixSlice(a: seq<byte>, b: seq<byte>, from: nat, to: nat)
    requires a <= b && from <= to <= |a|
    ensures b[from..to] == a[from..to] && (to == |a| ==> a[from..to] == a[from..])
  {}

  /** Any run: whatever other handles do, what the reader's calls return is what its file and its cursor say. */
  lemma {:induction false} RunAnswers(c: Config, sys: System, ops: seq<Op>, h: nat, file: seq<byte>, cursor: nat)
    requires Legal(c, sys, ops) && ReaderAt(sys, h, file, cursor) && DoClose(h) !in ops
    ensures Responses(c, sys, ops, h) == Answers(file, cursor, ops, h)
    decreases |ops|
  {
    hide Inv, Step, Allowed, ReaderAt, Answer;
    ReaderHere(sys, h, file, cursor);
    if ops != [] {
      ReaderAnswers(c, sys, ops[0], h, file, cursor);
      var next := if ops[0].handle == h then Answer(file, cursor, ops[0]).0 else cursor;
      RunAnswers(c, Step(c, sys, ops[0]).0, ops[1..], h, file, next);
    }
  }

  lemma ReaderHere(sys: System, h: nat, file: seq<byte>, cursor: nat)
    requires ReaderAt(sys, h, file, cursor)
    ensures cursor <= |file|
  {}

  /** A closed file whose revision is not zero, opened for reading: every answer, in every run that follows, is of that file. */
  lemma ReadBack(c: Config, sys: System, h: nat, slot: nat, file: seq<byte>, revision: nat, ops: seq<Op>)
    requires ClosedAt(c, sys, h, slot, file, revision) && revision != 0 && DoClose(h) !in ops
    requires Legal(c, sys, [DoOpen(h, slot, Mode.Read)] + ops)
    ensures Responses(c, sys, [DoOpen(h, slot, Mode.Read)] + ops, h) == [Response(Success, [])] + Answers(file, 0, ops, h)
  {
    hide *;
    var open := DoOpen(h, slot, Mode.Read);
    ResponsesStep(c, sys, open, ops);
    ClosedParts(c, sys, h, slot, file, revision);
    OpenReadStep(c, sys, h, slot);
    OpenReadIs(c, sys, h, slot);
    OpenedReader(sys, Step(c, sys, open).0, h, slot, View(c, sys.device.bytes, slot).value.md, file);
    RunAnswers(c, Step(c, sys, open).0, ops, h, file, 0);
  }

  lemma ResponsesStep(c: Config, sys: System, op: Op, rest: seq<Op>)
    requires Legal(c, sys, [op] + rest)
    ensures Inv(c, sys) && Allowed(c, sys, op) && Legal(c, Step(c, sys, op).0, rest)
    ensures Responses(c, sys, [op] + rest, op.handle) == [Step(c, sys, op).1] + Responses(c, Step(c, sys, op).0, rest, op.handle)
  {
    hide Inv, Step, Allowed;
    assert ([op] + rest)[1..] == rest;
  }

  lemma OpenedReader(sys: System, sys': System, h: nat, slot: nat, md: MetaData, file: seq<byte>)
    requires sys'.files == sys.files[h := Opened(slot, md, Mode.Read)] && md.fileSize == |file|
    requires slot < |sys'.streams| && sys'.streams[slot] == file
    ensures ReaderAt(sys', h, file, 0)
  {}

  lemma OpenReadIs(c: Config, sys: System, h: nat, slot: nat)
    requires Inv(c, sys) && Allowed(c, sys, DoOpen(h, slot, Mode.Read))
    ensures Step(c, sys, DoOpen(h, slot, Mode.Read)).1.data == []
  {
    hide Inv, Allowed, Open, FileOf;
  }

  /** sfs_init on any device, whatever it held under another configuration; create a file, write it in any chunks with any
    * flushes, close it, and open it again for reading: that succeeds if and only if its 8-bit revision has not come round to
    * zero, and then every answer, whatever is done meanwhile with other handles, is of what was written. */
  lemma WrittenReadsBack(c: Config, d: Device, h: nat, slot: nat, calls: seq<WriterCall>, ops: seq<Op>)
    requires OnDevice(c, d.bytes) && Paged(c) && slot < c.slotCount && |Written(calls)| <= SlotSize(c) && DoClose(h) !in ops
    requires ConfigOn(c, d.bytes) == c ==> Mountable(c, d.bytes)
    ensures var writes := CreateWriteClose(h, slot, calls);
            var open := DoOpen(h, slot, Mode.Read);
            && Legal(c, Booted(c, d), writes)
            && var sys := Run(c, Booted(c, d), writes);
               && Inv(c, sys) && Allowed(c, sys, open)
               && (Step(c, sys, open).1.rc.Success? <==> RevisionOf(calls) != 0)
               && (Step(c, sys, open).1.rc.Success? && Legal(c, sys, [open] + ops) ==>
                     Responses(c, sys, [open] + ops, h) == [Response(Success, [])] + Answers(Written(calls), 0, ops, h))
  {
    var writes, revision := CreateWriteClose(h, slot, calls), RevisionOf(calls);
    assert Fits(c);
    hide *;
    BootedRoundTrip(c, d, h, slot, calls);
    RunsToClosedIs(c, Booted(c, d), writes, h, slot, Written(calls), revision);
    ReopenedAnswers(c, Run(c, Booted(c, d), writes), h, slot, Written(calls), revision, ops);
  }

  lemma ReopenedAnswers(c: Config, sys: System, h: nat, slot: nat, file: seq<byte>, revision: nat, ops: seq<Op>)
    requires ClosedAt(c, sys, h, slot, file, revision) && DoClose(h) !in ops
    ensures var open := DoOpen(h, slot, Mode.Read);
            && Inv(c, sys) && Allowed(c, sys, open)
            && (Step(c, sys, open).1.rc.Success? <==> revision != 0)
            && (Step(c, sys, open).1.rc.Success? && Legal(c, sys, [open] + ops) ==>
                  Responses(c, sys, [open] + ops, h) == [Response(Success, [])] + Answers(file, 0, ops, h))
  {
    hide *;
    ReopenVisible(c, sys, h, slot, file, revision);
    if revision != 0 && Legal(c, sys, [DoOpen(h, slot, Mode.Read)] + ops) { ReadBack(c, sys, h, slot, file, revision, ops); }
  }

  lemma RunsToClosedIs(c: Config, sys: System, ops: seq<Op>, h: nat, slot: nat, file: seq<byte>, revision: nat)
    requires RunsToClosed(c, sys, ops, h, slot, file, revision)
    ensures Legal(c, sys, ops) && ClosedAt(c, Run(c, sys, ops), h, slot, file, revision)
  {
    hide Legal, ClosedAt;
  }
}
