/** The metadata blocks of a slot: their bytes, their checksum and the A/B choice between the two. */
module SlotMeta {
  import opened Bytes
  import Crc32

  const BLOCK_SIZE: nat := 512
  const TWO_TO_THE_64: nat := 0x1_0000_0000_0000_0000

  datatype MetaData = MetaData(startAddress: nat, maxAddress: nat, fileSize: nat, revision: nat)

  /** The values the C struct can hold: three 64-bit addresses and an 8-bit revision. */
  predicate Storable(md: MetaData) {
    && md.startAddress < TWO_TO_THE_64 && md.maxAddress < TWO_TO_THE_64 && md.fileSize < TWO_TO_THE_64
    && md.revision < 256
  }

  // ---- bytes of a block ----

  /** The struct at the start of a zeroed block, before the checksum is added. */
  function Payload(md: MetaData): (p: seq<byte>)
    ensures |p| == BLOCK_SIZE - 4
  {
    ToLE(md.startAddress, 8) + ToLE(md.maxAddress, 8) + ToLE(md.fileSize, 8) + ToLE(md.revision, 1) + Zeros(483)
  }

  function AddBlockCrc(payload: seq<byte>): (block: seq<byte>)
    requires |payload| == BLOCK_SIZE - 4
    ensures |block| == BLOCK_SIZE
  {
    payload + Crc32.StoreWord(Crc32.Crc(payload))
  }

  predicate CheckBlockCrc(block: seq<byte>)
    requires |block| == BLOCK_SIZE
  {
    Crc32.LoadWord(block[BLOCK_SIZE - 4..]) == Crc32.Crc(block[..BLOCK_SIZE - 4])
  }

  function Encode(md: MetaData): (block: seq<byte>)
    ensures |block| == BLOCK_SIZE
  {
    AddBlockCrc(Payload(md))
  }

  lemma FieldLimits()
    ensures Pow256(1) == 256 && Pow256(8) == TWO_TO_THE_64
  {
    assert Pow256(1) == 256;
    assert Pow256(2) == 0x1_0000;
    assert Pow256(3) == 0x100_0000;
    assert Pow256(4) == 0x1_0000_0000;
    assert Pow256(5) == 0x100_0000_0000;
    assert Pow256(6) == 0x1_0000_0000_0000;
    assert Pow256(7) == 0x100_0000_0000_0000;
  }

  function Struct(block: seq<byte>): (md: MetaData)
    requires |block| == BLOCK_SIZE
    ensures Storable(md)
  {
    FieldLimits();
    MetaData(FromLE(block[..8]), FromLE(block[8..16]), FromLE(block[16..24]), FromLE(block[24..25]))
  }

  /** What reading a block yields: nothing when the checksum is wrong. */
  function Decode(block: seq<byte>): Option<MetaData>
    requires |block| == BLOCK_SIZE
  {
    if CheckBlockCrc(block) then Some(Struct(block)) else None
  }

  lemma EncodedBlockChecks(payload: seq<byte>)
    requires |payload| == BLOCK_SIZE - 4
    ensures CheckBlockCrc(AddBlockCrc(payload)) && AddBlockCrc(payload)[..BLOCK_SIZE - 4] == payload
  {
    hide Crc32.Crc, Crc32.StoreWord, Crc32.LoadWord;
    Crc32.WordRoundTrip(Crc32.Crc(payload));
    var block := AddBlockCrc(payload);
    assert block[..BLOCK_SIZE - 4] == payload;
    assert block[BLOCK_SIZE - 4..] == Crc32.StoreWord(Crc32.Crc(payload));
  }

  lemma FieldSlices(a: seq<byte>, b: seq<byte>, c: seq<byte>, d: seq<byte>, pad: seq<byte>, crc: seq<byte>)
    requires |a| == |b| == |c| == 8 && |d| == 1
    ensures var s := a + b + c + d + pad + crc;
            s[..8] == a && s[8..16] == b && s[16..24] == c && s[24..25] == d
  {}

  /** A metadata block reads back as it was written. */
  lemma MetaRoundTrip(md: MetaData)
    requires Storable(md)
    ensures Decode(Encode(md)) == Some(md)
  {
    hide Crc32.Crc, Crc32.StoreWord, Crc32.LoadWord, CheckBlockCrc;
    EncodedBlockChecks(Payload(md));
    FieldSlices(ToLE(md.startAddress, 8), ToLE(md.maxAddress, 8), ToLE(md.fileSize, 8), ToLE(md.revision, 1),
                Zeros(483), Crc32.StoreWord(Crc32.Crc(Payload(md))));
    FieldLimits();
    LittleEndianRoundTrip(md.startAddress, 8);
    LittleEndianRoundTrip(md.maxAddress, 8);
    LittleEndianRoundTrip(md.fileSize, 8);
    LittleEndianRoundTrip(md.revision, 1);
  }

  /** Damage confined to four consecutive data bytes of a block never passes the check. */
  lemma BurstFailsCheck(block: seq<byte>, damaged: seq<byte>, at: nat)
    requires |block| == |damaged| == BLOCK_SIZE && at + 4 <= BLOCK_SIZE - 4
    requires CheckBlockCrc(block) && block != damaged
    requires block[..at] == damaged[..at] && block[at + 4..] == damaged[at + 4..]
    ensures Decode(damaged) == None
  {
    hide Crc32.Crc, Crc32.LoadWord;
    var p, q := block[..BLOCK_SIZE - 4], damaged[..BLOCK_SIZE - 4];
    assert block[BLOCK_SIZE - 4..] == block[at + 4..][BLOCK_SIZE - 8 - at..];
    assert damaged[BLOCK_SIZE - 4..] == damaged[at + 4..][BLOCK_SIZE - 8 - at..];
    assert p[..at] == block[..at] && q[..at] == damaged[..at];
    assert p[at + 4..] == block[at + 4..][..BLOCK_SIZE - 8 - at];
    assert q[at + 4..] == damaged[at + 4..][..BLOCK_SIZE - 8 - at];
    assert block == p + block[BLOCK_SIZE - 4..];
    assert damaged == q + damaged[BLOCK_SIZE - 4..];
    Crc32.BurstDetected(p, q, at);
  }

  // ---- the A/B choice ----

  /** `most_recent_meta_data_block`: which of the two blocks counts, if either does. */
  function MostRecent(a: Option<MetaData>, b: Option<MetaData>): (idx: Option<nat>)
    ensures idx.Some? ==> idx.value < 2
    ensures idx.None? <==> a.None? && b.None?
  {
    if a.Some? && b.Some? then
      var distance := a.value.revision - b.value.revision;
      if distance > 1 || distance < -1
      then Some(if a.value.revision < b.value.revision then 0 else 1)
      else Some(if a.value.revision < b.value.revision then 1 else 0)
    else if a.None? && b.None? then None
    else Some(if a.Some? then 0 else 1)
  }

  function NextRevision(revision: nat): nat { (revision + 1) % 256 }

  /** The two blocks of a slot as a value. */
  datatype Pair = Pair(a: Option<MetaData>, b: Option<MetaData>) {
    function At(i: nat): Option<MetaData> { if i == 0 then a else b }

    function Set(i: nat, md: Option<MetaData>): Pair { if i == 0 then this.(a := md) else this.(b := md) }

    function Newest(): (idx: Option<nat>)
      ensures idx.Some? ==> idx.value < 2 && At(idx.value).Some?
    {
      MostRecent(a, b)
    }

    function Current(): Option<MetaData> {
      if Newest().Some? then At(Newest().value) else None
    }
  }

  /** The pair a writer whose last metadata is `md` keeps: `md` is the newest, the other is one flush older. */
  predicate Alternating(p: Pair, md: MetaData) {
    && p.a.Some? && p.b.Some?
    && p.Current() == Some(md)
    && (p.At(1 - p.Newest().value) == Some(md) || NextRevision(p.At(1 - p.Newest().value).value.revision) == md.revision)
  }

  /** Writing the next revision over the older block makes it the newest, across the wrap from 255 to 0. */
  lemma FlushAlternates(p: Pair, md: MetaData, next: MetaData)
    requires Alternating(p, md) && md.revision < 256
    requires next.revision == NextRevision(md.revision)
    ensures var i := (p.Newest().value + 1) % 2;
            var q := p.Set(i, Some(next));
            Alternating(q, next) && q.Newest() == Some(i) && q.At(1 - i) == Some(md)
  {}

  /** The pair and the handle's metadata after a file is created and flushed once per size. */
  function AfterFlushes(created: MetaData, sizes: seq<nat>): (r: (Pair, MetaData)) {
    if sizes == [] then (Pair(Some(created), Some(created)), created) else
      var (p, md) := AfterFlushes(created, sizes[..|sizes| - 1]);
      var next := md.(fileSize := sizes[|sizes| - 1], revision := NextRevision(md.revision));
      (if p.Newest().None? then p else p.Set((p.Newest().value + 1) % 2, Some(next)), next)
  }

  lemma RevisionStep(n: nat)
    ensures NextRevision((1 + n) % 256) == (2 + n) % 256
    ensures (n % 2 + 1) % 2 == (n + 1) % 2
  {}

  lemma {:induction false} HandleAfterFlushes(created: MetaData, sizes: seq<nat>)
    requires created.revision == 1
    ensures AfterFlushes(created, sizes).1.revision == (1 + |sizes|) % 256
  {
    if sizes != [] {
      hide NextRevision, MostRecent;
      HandleAfterFlushes(created, sizes[..|sizes| - 1]);
      RevisionStep(|sizes| - 1);
    }
  }

  /** For every number of flushes the pair holds the last two versions and the choice finds the last. */
  lemma {:induction false} FlushesAlternate(created: MetaData, sizes: seq<nat>)
    requires created.revision == 1
    ensures var (p, md) := AfterFlushes(created, sizes);
            && Alternating(p, md)
            && p.Newest() == Some(|sizes| % 2)
            && md.revision == (1 + |sizes|) % 256
            && md.fileSize == (if sizes == [] then created.fileSize else sizes[|sizes| - 1])
            && (sizes != [] ==> p.At(1 - |sizes| % 2) == Some(AfterFlushes(created, sizes[..|sizes| - 1]).1))
  {
    HandleAfterFlushes(created, sizes);
    if sizes != [] {
      hide Alternating, MostRecent, NextRevision;
      var before := sizes[..|sizes| - 1];
      HandleAfterFlushes(created, before);
      FlushesAlternate(created, before);
      var (p, md) := AfterFlushes(created, before);
      RevisionStep(|before|);
      FlushAlternates(p, md, md.(fileSize := sizes[|sizes| - 1], revision := NextRevision(md.revision)));
    }
  }
}
