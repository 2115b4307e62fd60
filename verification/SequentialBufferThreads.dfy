/** The same buffer under two threads: one writes, one reads, and `write` tests the free count before it takes the lock.
  *
  * Every step a thread takes that the other can see is an action. Only the free count is read without the lock, so a
  * locked section changes it in one action; the bytes that `write` copies go in one at a time and in any order, and the
  * reader looks at the bytes it was handed, one at a time, without the lock. */
module SequentialBufferThreads {
  import opened Bytes
  import opened RingBytes

  /** Where the writing thread is: outside, past the unlocked test, or holding the lock with some bytes copied. */
  datatype Producer = Outside | Tested(src: seq<byte>) | Copying(src: seq<byte>, copied: set<nat>)

  /** Where the reading thread is: outside, past a timeout that saw data, or looking at the bytes it was handed. */
  datatype Consumer = Away | TimedOut | Reading(start: nat, available: nat, seen: seq<byte>)

  /** The buffer, the two threads, and the history: bytes accepted by writes that returned 0, bytes committed by reads. */
  datatype State = State(
    mem: seq<byte>, readPtr: nat, writePtr: nat, free: nat,
    producer: Producer, consumer: Consumer,
    accepted: seq<byte>, delivered: seq<byte>)

  datatype Action =
    | Offer(src: seq<byte>)   // write: the unlocked test
    | Lock                    // write: the lock is taken
    | CopyByte(j: nat)        // write: one byte of the memcpy
    | Publish                 // write: pointer and free count move, the lock goes
    | TimeOut                 // request_read: the wait ran out, the unlocked size is read
    | Request                 // request_read: the locked section
    | Look                    // the reader reads the next byte it was handed
    | Commit(n: nat)          // commit_read

  function Start(size: nat): (s: State)
    ensures Inv(s)
  {
    State(Zeros(size), 0, 0, size, Outside, Away, [], [])
  }

  function Live(s: State): int { |s.mem| - s.free }

  /** What request_read computes as the available size. */
  function Available(s: State): int {
    if s.readPtr < s.writePtr then s.writePtr - s.readPtr
    else if Live(s) > 0 then |s.mem| - s.readPtr
    else 0
  }

  /** The pointers and the free count describe one stretch of the ring, in step with the histories. */
  ghost predicate Pointers(s: State) {
    && s.free <= |s.mem|
    && (|s.mem| == 0 ==> s.readPtr == 0 && s.writePtr == 0)
    && (|s.mem| > 0 ==> s.readPtr < |s.mem| && s.writePtr == Pos(s.readPtr, Live(s), |s.mem|))
    && |s.accepted| == |s.delivered| + Live(s)
  }

  /** The ring holds the accepted bytes not yet delivered, in order; what was delivered is what was accepted first. */
  ghost predicate Fifo(s: State) {
    && Pointers(s)
    && s.accepted == s.delivered + Ring(s.mem, s.readPtr, Live(s))
  }

  /** A write past its test still fits, and the bytes it has copied are where it put them. */
  ghost predicate ProducerOk(s: State) {
    match s.producer
    case Outside => true
    case Tested(src) => 0 < |src| <= s.free
    case Copying(src, copied) =>
      && 0 < |src| <= s.free
      && (forall j <- copied :: j < |src| && s.writePtr <= |s.mem|
                                && Pos(s.writePtr, j, |s.mem|) < |s.mem| && s.mem[Pos(s.writePtr, j, |s.mem|)] == src[j])
  }

  /** The stretch handed out is still the oldest undelivered bytes, and so are the bytes seen of it. */
  ghost predicate ConsumerOk(s: State) {
    match s.consumer
    case Away => true
    case TimedOut => 0 < Live(s)
    case Reading(start, available, seen) =>
      && start == s.readPtr && start + available <= |s.mem| && available <= Live(s)
      && |s.delivered| + available <= |s.accepted|
      && s.mem[start..start + available] == s.accepted[|s.delivered|..|s.delivered| + available]
      && |seen| <= available && seen == s.accepted[|s.delivered|..|s.delivered| + |seen|]
  }

  ghost predicate Inv(s: State) {
    Fifo(s) && ProducerOk(s) && ConsumerOk(s)
  }

  /** Whether the thread the action belongs to can take it now: the locked sections exclude each other. A reader commits at
    * most what it was handed. */
  ghost predicate Enabled(s: State, a: Action) {
    match a
    case Offer(_) => s.producer.Outside?
    case Lock => s.producer.Tested?
    case CopyByte(j) => s.producer.Copying? && j < |s.producer.src|
    case Publish => s.producer.Copying? && forall j: nat | j < |s.producer.src| :: j in s.producer.copied
    case TimeOut => s.consumer.Away?
    case Request => !s.consumer.Reading? && !s.producer.Copying?
    case Look => s.consumer.Reading? && |s.consumer.seen| < s.consumer.available
    case Commit(n) => s.consumer.Reading? && !s.producer.Copying? && n <= s.consumer.available
  }

  function Offered(s: State, src: seq<byte>): State {
    if src == [] || s.free < |src| then s else s.(producer := Tested(src))
  }

  ghost function ByteCopied(s: State, j: nat): State
    requires Inv(s) && Enabled(s, CopyByte(j))
  {
    s.(mem := s.mem[Pos(s.writePtr, j, |s.mem|) := s.producer.src[j]],
       producer := Copying(s.producer.src, s.producer.copied + {j}))
  }

  ghost function Published(s: State): State
    requires Inv(s) && Enabled(s, Publish)
  {
    s.(writePtr := Pos(s.writePtr, |s.producer.src|, |s.mem|), free := s.free - |s.producer.src|,
       producer := Outside, accepted := s.accepted + s.producer.src)
  }

  function Requested(s: State): State {
    s.(consumer := if Available(s) > 0 then Reading(s.readPtr, Available(s), []) else Away)
  }

  ghost function Looked(s: State): State
    requires Inv(s) && Enabled(s, Look)
  {
    s.(consumer := s.consumer.(seen := s.consumer.seen + [s.mem[s.consumer.start + |s.consumer.seen|]]))
  }

  ghost function Committed(s: State, n: nat): State
    requires Inv(s) && Enabled(s, Commit(n))
  {
    s.(readPtr := if s.readPtr + n == |s.mem| then 0 else s.readPtr + n, free := s.free + n,
       consumer := Away, delivered := s.delivered + s.mem[s.readPtr..s.readPtr + n])
  }

  ghost function Step(s: State, a: Action): State
    requires Inv(s) && Enabled(s, a)
  {
    match a
    case Offer(src) => Offered(s, src)
    case Lock => s.(producer := Copying(s.producer.src, {}))
    case CopyByte(j) => ByteCopied(s, j)
    case Publish => Published(s)
    case TimeOut => if Live(s) == 0 then s else s.(consumer := TimedOut)
    case Request => Requested(s)
    case Look => Looked(s)
    case Commit(n) => Committed(s, n)
  }

  /** Bytes of the ring that lie in one piece are its first bytes. */
  lemma RingStretch(mem: seq<byte>, from: nat, n: nat, m: nat)
    requires from + m <= |mem| && m <= n <= |mem|
    ensures mem[from..from + m] == Ring(mem, from, n)[..m]
  {}

  lemma PrefixOfFifo(accepted: seq<byte>, delivered: seq<byte>, live: seq<byte>, m: nat)
    requires accepted == delivered + live && m <= |live|
    ensures accepted[|delivered|..|delivered| + m] == live[..m]
  {}

  /** Where a copied byte goes is free, and no other copied byte goes there. */
  lemma ByteCopiedKeepsProducer(s: State, j: nat)
    requires Inv(s) && Enabled(s, CopyByte(j))
    ensures ProducerOk(ByteCopied(s, j))
  {
    hide ConsumerOk, Ring;
    var cap, s' := |s.mem|, ByteCopied(s, j);
    forall i | i in s'.producer.copied
      ensures i < |s.producer.src| && Pos(s.writePtr, i, cap) < cap && s'.mem[Pos(s.writePtr, i, cap)] == s.producer.src[i]
    {
      if i != j { PosInjective(s.writePtr, i, j, cap); }
    }
  }

  lemma ByteCopiedKeepsFifo(s: State, j: nat)
    requires Inv(s) && Enabled(s, CopyByte(j))
    ensures Fifo(ByteCopied(s, j)) && |ByteCopied(s, j).mem| == |s.mem|
    ensures Ring(ByteCopied(s, j).mem, s.readPtr, Live(s)) == Ring(s.mem, s.readPtr, Live(s))
  {
    hide ConsumerOk, Ring;
    PosAdd(s.readPtr, Live(s), j, |s.mem|);
    WriteOutside(s.mem, s.readPtr, Live(s), Live(s) + j, s.producer.src[j]);
  }

  /** The reader's stretch stays what it is when the bytes of the ring stay the oldest ones. */
  lemma ConsumerKept(s: State, s': State)
    requires Inv(s) && Fifo(s')
    requires s'.consumer == s.consumer && |s'.mem| == |s.mem| && s'.readPtr == s.readPtr && s'.delivered == s.delivered
    requires s.accepted <= s'.accepted && Live(s) <= Live(s')
    ensures ConsumerOk(s')
  {
    hide ProducerOk, Ring;
    if s.consumer.Reading? {
      RingStretch(s'.mem, s'.readPtr, Live(s'), s.consumer.available);
      PrefixOfFifo(s'.accepted, s'.delivered, Ring(s'.mem, s'.readPtr, Live(s')), s.consumer.available);
    }
  }

  lemma ByteCopiedKeepsInv(s: State, j: nat)
    requires Inv(s) && Enabled(s, CopyByte(j))
    ensures Inv(ByteCopied(s, j))
  {
    hide Fifo, ProducerOk, ConsumerOk;
    ByteCopiedKeepsProducer(s, j);
    ByteCopiedKeepsFifo(s, j);
    ConsumerKept(s, ByteCopied(s, j));
  }

  lemma RingExtended(mem: seq<byte>, from: nat, live: nat, src: seq<byte>)
    requires from < |mem| && live + |src| <= |mem| && src != []
    requires forall j :: 0 <= j < |src| ==> Pos(Pos(from, live, |mem|), j, |mem|) < |mem|
                                            && mem[Pos(Pos(from, live, |mem|), j, |mem|)] == src[j]
    ensures Ring(mem, from, live + |src|) == Ring(mem, from, live) + src
  {
    var after := Ring(mem, from, live + |src|);
    forall i | live <= i < live + |src| ensures after[i] == src[i - live] {
      PosAdd(from, live, i - live, |mem|);
    }
  }

  /** Once every byte is copied, moving the pointer appends all of the write to the ring. */
  lemma PublishedKeepsFifo(s: State)
    requires Inv(s) && Enabled(s, Publish)
    ensures Fifo(Published(s))
  {
    hide ConsumerOk, Ring;
    var src := s.producer.src;
    assert forall j :: 0 <= j < |src| ==> j in s.producer.copied;
    RingExtended(s.mem, s.readPtr, Live(s), src);
    PosAdd(s.readPtr, Live(s), |src| - 1, |s.mem|);
    assert (s.delivered + Ring(s.mem, s.readPtr, Live(s))) + src == s.delivered + (Ring(s.mem, s.readPtr, Live(s)) + src);
  }

  lemma PublishedKeepsInv(s: State)
    requires Inv(s) && Enabled(s, Publish)
    ensures Inv(Published(s))
  {
    hide Fifo, ConsumerOk;
    PublishedKeepsFifo(s);
    ConsumerKept(s, Published(s));
  }

  /** The branches of request_read find the longest stretch of live bytes in one piece; there is one when any byte is live. */
  lemma AvailableIsStretch(s: State)
    requires Pointers(s)
    ensures Available(s) == Min(Live(s), |s.mem| - s.readPtr)
    ensures Available(s) > 0 <==> Live(s) > 0
  {}

  lemma RequestedKeepsInv(s: State)
    requires Inv(s) && Enabled(s, Request)
    ensures Inv(Requested(s))
  {
    hide ProducerOk, Ring;
    assert ProducerOk(Requested(s)) by { ProducerKept(s, Requested(s)); }
    AvailableIsStretch(s);
    if Available(s) > 0 {
      RingStretch(s.mem, s.readPtr, Live(s), Available(s));
      PrefixOfFifo(s.accepted, s.delivered, Ring(s.mem, s.readPtr, Live(s)), Available(s));
    }
  }

  /** Room that a write found can only grow before it takes the lock. */
  lemma ProducerKept(s: State, s': State)
    requires ProducerOk(s) && s'.producer == s.producer && s'.mem == s.mem && s'.writePtr == s.writePtr && s.free <= s'.free
    ensures ProducerOk(s')
  {}

  lemma LookedKeepsInv(s: State)
    requires Inv(s) && Enabled(s, Look)
    ensures Inv(Looked(s))
  {
    hide ProducerOk, Ring;
    ProducerKept(s, Looked(s));
    var Reading(start, available, seen) := s.consumer;
    var piece := s.mem[start..start + available];
    assert seen + [piece[|seen|]] == piece[..|seen| + 1];
  }

  /** A commit takes the oldest live bytes, however few of those handed out. */
  lemma CommittedKeepsFifo(s: State, n: nat)
    requires Inv(s) && Enabled(s, Commit(n))
    ensures Fifo(Committed(s, n))
  {
    hide Ring, ProducerOk;
    var ring, s' := Ring(s.mem, s.readPtr, Live(s)), Committed(s, n);
    RingStretch(s.mem, s.readPtr, Live(s), n);
    CommittedPointers(s, n);
    RingDropped(s.mem, s.readPtr, Live(s), n, s'.readPtr);
    assert s.delivered + ring == (s.delivered + ring[..n]) + ring[n..];
  }

  lemma CommittedPointers(s: State, n: nat)
    requires Inv(s) && Enabled(s, Commit(n))
    ensures Pointers(Committed(s, n))
  {
    hide Ring, ProducerOk;
  }

  lemma RingDropped(mem: seq<byte>, from: nat, live: nat, n: nat, next: nat)
    requires n <= live <= |mem| && from + n <= |mem|
    requires next == if from + n == |mem| then 0 else from + n
    ensures Ring(mem, next, live - n) == Ring(mem, from, live)[n..]
  {}

  lemma CommittedKeepsInv(s: State, n: nat)
    requires Inv(s) && Enabled(s, Commit(n))
    ensures Inv(Committed(s, n))
  {
    hide Ring, Fifo;
    CommittedKeepsFifo(s, n);
    ProducerKept(s, Committed(s, n));
  }

  lemma StepKeepsInv(s: State, a: Action)
    requires Inv(s) && Enabled(s, a)
    ensures Inv(Step(s, a))
  {
    hide Fifo, ProducerOk, ConsumerOk;
    match a
    case Offer(src) => OfferedKeepsInv(s, src);
    case Lock => LockKeepsInv(s);
    case CopyByte(j) => ByteCopiedKeepsInv(s, j);
    case Publish => PublishedKeepsInv(s);
    case TimeOut => TimeOutKeepsInv(s);
    case Request => RequestedKeepsInv(s);
    case Look => LookedKeepsInv(s);
    case Commit(n) => CommittedKeepsInv(s, n);
  }

  lemma OfferedKeepsInv(s: State, src: seq<byte>)
    requires Inv(s) && Enabled(s, Offer(src))
    ensures Inv(Offered(s, src))
  {
    hide Ring;
  }

  lemma LockKeepsInv(s: State)
    requires Inv(s) && Enabled(s, Lock)
    ensures Inv(Step(s, Lock))
  {
    hide Ring;
  }

  lemma TimeOutKeepsInv(s: State)
    requires Inv(s) && Enabled(s, TimeOut)
    ensures Inv(Step(s, TimeOut))
  {
    hide Ring;
  }

  /** Every schedule of the two threads, each thread taking only the steps its code allows. */
  ghost predicate Allowed(s: State, actions: seq<Action>)
    requires Inv(s)
    decreases |actions|
  {
    actions != [] ==>
      Enabled(s, actions[0]) && (StepKeepsInv(s, actions[0]); Allowed(Step(s, actions[0]), actions[1..]))
  }

  ghost function Run(s: State, actions: seq<Action>): State
    requires Inv(s) && Allowed(s, actions)
    decreases |actions|
  {
    if actions == [] then s else (StepKeepsInv(s, actions[0]); Run(Step(s, actions[0]), actions[1..]))
  }

  /** Every write that a schedule brings to its end, in the order of the ends. */
  ghost function Writes(s: State, actions: seq<Action>): seq<byte>
    requires Inv(s) && Allowed(s, actions)
    decreases |actions|
  {
    if actions == [] then []
    else (if actions[0].Publish? then s.producer.src else [])
         + (StepKeepsInv(s, actions[0]); Writes(Step(s, actions[0]), actions[1..]))
  }

  lemma {:induction false} RunKeepsInv(s: State, actions: seq<Action>)
    requires Inv(s) && Allowed(s, actions)
    ensures Inv(Run(s, actions))
    ensures Run(s, actions).accepted == s.accepted + Writes(s, actions)
    ensures s.delivered <= Run(s, actions).delivered
    decreases |actions|
  {
    hide Inv;
    if actions != [] {
      StepKeepsInv(s, actions[0]);
      RunKeepsInv(Step(s, actions[0]), actions[1..]);
    }
  }

  /** The queue a state stands for: delivered bytes, then the live ones, of which the reader has seen the first. */
  ghost predicate IsQueueOf(s: State, written: seq<byte>) {
    && Pointers(s)
    && s.delivered + Ring(s.mem, s.readPtr, Live(s)) == written
    && (s.consumer.Reading? ==> s.delivered + s.consumer.seen <= written)
  }

  lemma InvIsQueue(s: State)
    requires Inv(s)
    ensures IsQueueOf(s, s.accepted)
  {
    hide Ring, ProducerOk;
  }

  /** Under every schedule the buffer is a queue: what was delivered and what is still in the ring are together exactly the
    * writes that ended, whole and in order; and what the reader has seen comes next in them, byte for byte. */
  lemma ThreadsSeeFifo(size: nat, actions: seq<Action>)
    requires Allowed(Start(size), actions)
    ensures IsQueueOf(Run(Start(size), actions), Writes(Start(size), actions))
  {
    hide Run, Allowed, Writes, Inv, IsQueueOf;
    RunKeepsInv(Start(size), actions);
    InvIsQueue(Run(Start(size), actions));
    assert [] + Writes(Start(size), actions) == Writes(Start(size), actions);
  }

  /** Between request_read and commit_read the two threads keep the stretch, its start and the bytes delivered. */
  lemma {:induction false} HandedOutKept(s: State, actions: seq<Action>)
    requires Inv(s) && Allowed(s, actions) && s.consumer.Reading?
    requires forall a <- actions :: !a.Commit?
    ensures var t := Run(s, actions);
            && Inv(t) && t.consumer.Reading? && t.consumer.start == s.consumer.start
            && t.consumer.available == s.consumer.available && t.delivered == s.delivered && s.accepted <= t.accepted
    decreases |actions|
  {
    hide Inv;
    if actions != [] {
      StepKeepsInv(s, actions[0]);
      HandedOutKept(Step(s, actions[0]), actions[1..]);
    }
  }

  /** What request_read handed out is not overwritten before commit_read, whatever the writer does meanwhile. */
  lemma HandedOutStable(s: State, actions: seq<Action>)
    requires Inv(s) && Allowed(s, actions) && s.consumer.Reading?
    requires forall a <- actions :: !a.Commit?
    ensures var t, start, end := Run(s, actions), s.consumer.start, s.consumer.start + s.consumer.available;
            end <= |s.mem| && end <= |t.mem| && t.mem[start..end] == s.mem[start..end]
  {
    hide Run, Allowed, Fifo, ProducerOk;
    HandedOutKept(s, actions);
  }

  /** A write that passed the test without the lock still fits when it holds the lock, up to its end. */
  lemma {:induction false} TestStaysValid(s: State, actions: seq<Action>)
    requires Inv(s) && Allowed(s, actions) && !s.producer.Outside?
    requires forall a <- actions :: !a.Publish?
    ensures var t := Run(s, actions);
            Inv(t) && !t.producer.Outside? && t.producer.src == s.producer.src && 0 < |t.producer.src| <= t.free
    decreases |actions|
  {
    hide Fifo, ConsumerOk;
    if actions != [] {
      StepKeepsInv(s, actions[0]);
      TestStaysValid(Step(s, actions[0]), actions[1..]);
    }
  }
}
