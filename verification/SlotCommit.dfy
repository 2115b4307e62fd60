/** The two kinds of write a slot takes after it was created: a data page and a metadata block. Each keeps the
    slot's committed version, each is atomic under power loss. */
module SlotCommit {
  import opened Bytes
  import opened SlotMeta
  import opened SlotLayout
  import opened SlotSpec
  import opened SlotCrash

  /** `md` is the slot's newest metadata and its file is a prefix of `stream`. */
  ghost predicate Committed(c: Config, bytes: seq<byte>, slot: nat, md: MetaData, stream: seq<byte>)
  {
    && OnDevice(c, bytes) && slot < c.slotCount
    && Sane(c, slot, md)
    && Alternating(PairOf(c, bytes, slot), md) && PairSane(c, slot, PairOf(c, bytes, slot))
    && md.fileSize <= |stream|
    && Content(c, bytes, DataArea(slot))[..md.fileSize] == stream[..md.fileSize]
  }

  lemma SaneIsStorable(c: Config, slot: nat, md: MetaData)
    requires Fits(c) && slot < c.slotCount && Sane(c, slot, md)
    ensures Storable(md)
  {
    RegionInside(c, DataArea(slot));
  }

  lemma CommittedView(c: Config, bytes: seq<byte>, slot: nat, md: MetaData, stream: seq<byte>)
    requires OnDevice(c, bytes) && slot < c.slotCount && Committed(c, bytes, slot, md, stream)
    ensures View(c, bytes, slot) == Some(Version(md, stream[..md.fileSize]))
  {
    hide Decode, Content;
  }

  lemma CommittedSane(c: Config, bytes: seq<byte>, slot: nat, md: MetaData, stream: seq<byte>)
    requires Committed(c, bytes, slot, md, stream)
    ensures Fits(c) && PairSane(c, slot, PairOf(c, bytes, slot))
  {
    hide Content, PairOf, PairSane;
  }

  lemma OthersSameTransitive(c: Config, b0: seq<byte>, b1: seq<byte>, b2: seq<byte>, slot: nat)
    requires OnDevice(c, b0) && OthersSame(c, b0, b1, slot) && OthersSame(c, b1, b2, slot)
    ensures OthersSame(c, b0, b2, slot)
  {
    hide Content;
  }

  /** A committed slot whose stream is at least as long as before is a good crash image. */
  lemma CommittedIsGood(c: Config, bytes0: seq<byte>, bytes: seq<byte>, slot: nat, md: MetaData, low: nat, stream: seq<byte>)
    requires OnDevice(c, bytes0) && slot < c.slotCount && OthersSame(c, bytes0, bytes, slot)
    requires Committed(c, bytes, slot, md, stream) && low <= md.fileSize
    ensures Good(c, bytes0, bytes, slot, low, stream)
  {
    CommittedView(c, bytes, slot, md, stream);
    assert |stream[..md.fileSize]| == md.fileSize && stream[..md.fileSize] <= stream;
    CommittedSane(c, bytes, slot, md, stream);
    hide View, Content, OthersSame, Committed, PairOf, PairSane;
  }

  /** An image that differs from `bytes` only in region r leaves everything else of the layout alone. */
  lemma OnlyRegionChanged(c: Config, bytes: seq<byte>, image: seq<byte>, r: Region)
    requires OnDevice(c, bytes) && |image| == |bytes| && InLayout(c, r)
    requires forall i :: 0 <= i < |bytes| && !(Start(c, r) <= i < Start(c, r) + Size(c, r)) ==> image[i] == bytes[i]
    ensures forall q :: InLayout(c, q) && q != r ==> Content(c, image, q) == Content(c, bytes, q)
  {
    forall q | InLayout(c, q) && q != r ensures Content(c, image, q) == Content(c, bytes, q) {
      OtherRegionsAgree(c, bytes, image, r, q);
    }
  }

  // ---- data pages ----

  lemma TornAgrees(old_: seq<byte>, new_: seq<byte>, mid: seq<byte>, k: nat)
    requires |old_| == |new_| == |mid| == PAGE_SIZE && TornData(old_, new_, mid)
    requires k < PAGE_SIZE && old_[k] == new_[k]
    ensures mid[k] == old_[k]
  {
    var j := k / BLOCK_SIZE;
    assert (j + 1) * BLOCK_SIZE <= |new_|;
    var i := k - j * BLOCK_SIZE;
    assert Sector(mid, j)[i] == mid[k] && Sector(old_, j)[i] == old_[k] && Sector(new_, j)[i] == new_[k];
  }

  /** What a write of one page inside the data area does to the file it holds. */
  ghost predicate PageFits(c: Config, bytes: seq<byte>, slot: nat, stream: seq<byte>, base: nat, page: seq<byte>, valid: nat)
  {
    && OnDevice(c, bytes) && slot < c.slotCount
    && |page| == PAGE_SIZE && valid <= PAGE_SIZE
    && base + PAGE_SIZE <= SlotSize(c)
    && base + valid <= |stream|
    && Content(c, bytes, DataArea(slot))[..base] == stream[..base]
    && page[..valid] == stream[base..base + valid]
  }

  lemma TornPageBytes(data: seq<byte>, torn: seq<byte>, stream: seq<byte>, base: nat, page: seq<byte>, valid: nat, size: nat)
    requires |page| == PAGE_SIZE && base + PAGE_SIZE <= |data| == |torn| && valid <= PAGE_SIZE
    requires size <= base + valid <= |stream|
    requires data[..size] == stream[..size] && page[..valid] == stream[base..base + valid]
    requires forall i :: 0 <= i < |data| && !(base <= i < base + PAGE_SIZE) ==> torn[i] == data[i]
    requires TornData(data[base..base + PAGE_SIZE], page, torn[base..base + PAGE_SIZE])
    ensures torn[..size] == stream[..size]
  {
    hide TornData;
    forall i | 0 <= i < size ensures torn[i] == stream[i] {
      assert data[..size][i] == stream[..size][i];
      if base <= i {
        assert page[..valid][i - base] == stream[base..base + valid][i - base];
        TornAgrees(data[base..base + PAGE_SIZE], page, torn[base..base + PAGE_SIZE], i - base);
      }
    }
  }

  lemma TornPageKeepsFile(c: Config, bytes: seq<byte>, slot: nat, md: MetaData, stream: seq<byte>, base: nat, page: seq<byte>, valid: nat, image: seq<byte>)
    requires OnDevice(c, bytes) && slot < c.slotCount && Committed(c, bytes, slot, md, stream)
    requires PageFits(c, bytes, slot, stream, base, page, valid) && md.fileSize <= base + valid
    requires Torn(bytes, DeviceWrite(DataAddress(c, slot) + base, page), image)
    ensures OthersSame(c, bytes, image, slot)
    ensures Committed(c, image, slot, md, stream)
  {
    hide Decode, TornData, Alternating, MostRecent;
    var r := DataArea(slot);
    RegionInside(c, r);
    OnlyRegionChanged(c, bytes, image, r);
    var at := DataAddress(c, slot) + base;
    var data, torn := Content(c, bytes, r), Content(c, image, r);
    assert data[base..base + PAGE_SIZE] == bytes[at..at + PAGE_SIZE];
    assert torn[base..base + PAGE_SIZE] == image[at..at + PAGE_SIZE];
    TornPageBytes(data, torn, stream, base, page, valid, md.fileSize);
  }

  lemma PageWriteCommits(c: Config, bytes: seq<byte>, slot: nat, md: MetaData, stream: seq<byte>, base: nat, page: seq<byte>, valid: nat)
    requires OnDevice(c, bytes) && slot < c.slotCount && Committed(c, bytes, slot, md, stream)
    requires PageFits(c, bytes, slot, stream, base, page, valid) && md.fileSize <= base + valid
    ensures DataAddress(c, slot) + base + PAGE_SIZE <= |bytes|
    ensures var after := Splice(bytes, DataAddress(c, slot) + base, page);
            && OthersSame(c, bytes, after, slot)
            && Committed(c, after, slot, md, stream)
            && Content(c, after, DataArea(slot))[..base + valid] == stream[..base + valid]
  {
    hide Decode, Splice;
    var r := DataArea(slot);
    RegionInside(c, r);
    var after := Splice(bytes, DataAddress(c, slot) + base, page);
    OnlyRegionChanged(c, bytes, after, r);
    WriteWithinRegion(c, bytes, r, base, page);
    var content := Content(c, after, r);
    forall i | 0 <= i < base + valid ensures content[i] == stream[i] {
      if base <= i {
        assert page[..valid][i - base] == stream[base..base + valid][i - base];
      } else {
        assert Content(c, bytes, r)[..base][i] == stream[..base][i];
      }
    }
    assert content[..base + valid] == stream[..base + valid];
    assert content[..md.fileSize] == content[..base + valid][..md.fileSize];
  }

  /** Rewriting a page that holds committed bytes never shows anything but the committed version. */
  lemma PageWriteAtomic(c: Config, bytes: seq<byte>, slot: nat, md: MetaData, stream: seq<byte>, base: nat, page: seq<byte>, valid: nat)
    requires OnDevice(c, bytes) && slot < c.slotCount && Committed(c, bytes, slot, md, stream)
    requires PageFits(c, bytes, slot, stream, base, page, valid) && md.fileSize <= base + valid
    ensures TornAtomic(c, bytes, DeviceWrite(DataAddress(c, slot) + base, page), slot)
  {
    hide View, Committed, PageFits, TornData, Content, OthersSame, PairOf, PairSane;
    var w := DeviceWrite(DataAddress(c, slot) + base, page);
    forall image | Torn(bytes, w, image)
      ensures OthersSame(c, bytes, image, slot) && View(c, image, slot) == View(c, bytes, slot)
      ensures PairSane(c, slot, PairOf(c, image, slot))
    {
      TornPageKeepsFile(c, bytes, slot, md, stream, base, page, valid, image);
      CommittedView(c, bytes, slot, md, stream);
      CommittedView(c, image, slot, md, stream);
      CommittedSane(c, image, slot, md, stream);
    }
  }

  // ---- metadata blocks ----

  function OlderIndex(c: Config, bytes: seq<byte>, slot: nat): nat
    requires OnDevice(c, bytes) && slot < c.slotCount
  {
    var newest := PairOf(c, bytes, slot).Newest();
    if newest.Some? then (newest.value + 1) % 2 else 0
  }

  function NextMeta(md: MetaData, size: nat): MetaData {
    md.(fileSize := size, revision := NextRevision(md.revision))
  }

  /** What can be committed next: a size whose bytes are on the device. */
  ghost predicate Committable(c: Config, bytes: seq<byte>, slot: nat, md: MetaData, stream: seq<byte>, size: nat)
  {
    && OnDevice(c, bytes) && slot < c.slotCount
    && md.fileSize <= size <= |stream| && size <= SlotSize(c)
    && Content(c, bytes, DataArea(slot))[..size] == stream[..size]
  }

  lemma MetaBlockReplaced(c: Config, bytes: seq<byte>, image: seq<byte>, slot: nat, i: nat)
    requires OnDevice(c, bytes) && slot < c.slotCount && i < 2 && |image| == |bytes|
    requires forall q :: InLayout(c, q) && q != MetaBlock(slot, i) ==> Content(c, image, q) == Content(c, bytes, q)
    ensures PairOf(c, image, slot) == PairOf(c, bytes, slot).Set(i, Decode(Content(c, image, MetaBlock(slot, i))))
    ensures OthersSame(c, bytes, image, slot)
    ensures Content(c, image, DataArea(slot)) == Content(c, bytes, DataArea(slot))
  {
    hide Decode, Content;
    assert MetaBlock(slot, 1 - i) != MetaBlock(slot, i);
  }

  lemma MetaWriteCommits(c: Config, bytes: seq<byte>, slot: nat, md: MetaData, stream: seq<byte>, size: nat)
    requires OnDevice(c, bytes) && slot < c.slotCount && Committed(c, bytes, slot, md, stream)
    requires Committable(c, bytes, slot, md, stream, size)
    ensures var i := OlderIndex(c, bytes, slot);
            && MetaAddress(c, slot, i) + BLOCK_SIZE <= |bytes|
            && var after := Splice(bytes, MetaAddress(c, slot, i), Encode(NextMeta(md, size)));
               && OthersSame(c, bytes, after, slot)
               && Committed(c, after, slot, NextMeta(md, size), stream)
               && Content(c, after, DataArea(slot)) == Content(c, bytes, DataArea(slot))
  {
    hide Decode, Encode, Splice, MostRecent;
    var i := OlderIndex(c, bytes, slot);
    var r := MetaBlock(slot, i);
    var next := NextMeta(md, size);
    RegionInside(c, r);
    var after := Splice(bytes, MetaAddress(c, slot, i), Encode(next));
    OnlyRegionChanged(c, bytes, after, r);
    WriteWithinRegion(c, bytes, r, 0, Encode(next));
    assert Content(c, after, r) == Encode(next);
    SaneIsStorable(c, slot, next);
    MetaRoundTrip(next);
    MetaBlockReplaced(c, bytes, after, slot, i);
    FlushAlternates(PairOf(c, bytes, slot), md, next);
  }

  lemma TornMetaPair(c: Config, bytes: seq<byte>, slot: nat, md: MetaData, next: MetaData, image: seq<byte>)
    requires OnDevice(c, bytes) && slot < c.slotCount && Alternating(PairOf(c, bytes, slot), md)
    requires PairSane(c, slot, PairOf(c, bytes, slot))
    requires Sane(c, slot, md) && Sane(c, slot, next) && next.revision == NextRevision(md.revision)
    requires Torn(bytes, DeviceWrite(MetaAddress(c, slot, OlderIndex(c, bytes, slot)), Encode(next)), image)
    ensures OthersSame(c, bytes, image, slot)
    ensures Content(c, image, DataArea(slot)) == Content(c, bytes, DataArea(slot))
    ensures PairOf(c, image, slot).Current() == Some(md) || PairOf(c, image, slot).Current() == Some(next)
    ensures PairSane(c, slot, PairOf(c, image, slot))
  {
    hide Encode, Decode, TornData;
    var i := OlderIndex(c, bytes, slot);
    var r := MetaBlock(slot, i);
    RegionInside(c, r);
    OnlyRegionChanged(c, bytes, image, r);
    MetaBlockReplaced(c, bytes, image, slot, i);
    SaneIsStorable(c, slot, next);
    MetaRoundTrip(next);
    TornBlockDecodes(Content(c, bytes, r), Encode(next), Content(c, image, r));
    TornMetaCases(PairOf(c, bytes, slot), i, md, next, Decode(Content(c, image, r)));
  }

  lemma TornMetaOldOrNew(c: Config, bytes: seq<byte>, slot: nat, md: MetaData, stream: seq<byte>, size: nat, image: seq<byte>)
    requires OnDevice(c, bytes) && slot < c.slotCount && Committed(c, bytes, slot, md, stream)
    requires Committable(c, bytes, slot, md, stream, size)
    requires Torn(bytes, DeviceWrite(MetaAddress(c, slot, OlderIndex(c, bytes, slot)), Encode(NextMeta(md, size))), image)
    ensures OthersSame(c, bytes, image, slot)
    ensures View(c, image, slot) == Some(Version(md, stream[..md.fileSize]))
         || View(c, image, slot) == Some(Version(NextMeta(md, size), stream[..size]))
    ensures PairSane(c, slot, PairOf(c, image, slot))
  {
    hide Encode, PairOf, TornData, Alternating, Content, OlderIndex, OthersSame, PairSane;
    TornMetaPair(c, bytes, slot, md, NextMeta(md, size), image);
  }

  lemma TornBlockDecodes(old_: seq<byte>, new_: seq<byte>, mid: seq<byte>)
    requires |old_| == |new_| == |mid| == BLOCK_SIZE && TornData(old_, new_, mid)
    ensures Decode(mid) == None || Decode(mid) == Decode(old_) || Decode(mid) == Decode(new_)
  {
    hide CheckBlockCrc;
  }

  /** An invalid, old or new older block: the choice falls on the last version or the one in flight. */
  lemma TornMetaCases(p: Pair, i: nat, md: MetaData, next: MetaData, torn: Option<MetaData>)
    requires Alternating(p, md) && md.revision < 256 && i == (p.Newest().value + 1) % 2
    requires next.revision == NextRevision(md.revision)
    requires torn == None || torn == p.At(i) || torn == Some(next)
    ensures p.Set(i, torn).Current() == Some(md) || p.Set(i, torn).Current() == Some(next)
  {}

  lemma MetaWriteAtomic(c: Config, bytes: seq<byte>, slot: nat, md: MetaData, stream: seq<byte>, size: nat)
    requires OnDevice(c, bytes) && slot < c.slotCount && Committed(c, bytes, slot, md, stream)
    requires Committable(c, bytes, slot, md, stream, size)
    ensures TornAtomic(c, bytes, DeviceWrite(MetaAddress(c, slot, OlderIndex(c, bytes, slot)), Encode(NextMeta(md, size))), slot)
  {
    hide View, Committed, Committable, TornData, Content, OthersSame, OlderIndex, Encode, PairOf, PairSane;
    var w := DeviceWrite(MetaAddress(c, slot, OlderIndex(c, bytes, slot)), Encode(NextMeta(md, size)));
    MetaWriteCommits(c, bytes, slot, md, stream, size);
    CommittedView(c, bytes, slot, md, stream);
    CommittedView(c, Apply(bytes, w), slot, NextMeta(md, size), stream);
    forall image | Torn(bytes, w, image)
      ensures OthersSame(c, bytes, image, slot)
      ensures View(c, image, slot) == View(c, bytes, slot) || View(c, image, slot) == View(c, Apply(bytes, w), slot)
      ensures PairSane(c, slot, PairOf(c, image, slot))
    {
      TornMetaOldOrNew(c, bytes, slot, md, stream, size, image);
    }
  }
}
