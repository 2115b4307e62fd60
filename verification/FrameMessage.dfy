/** Frame messages (lib_message/message_frame.h): typed values laid out at fixed places, squeezed together by `finish`, and
  * found again by a reader that knows only the feature mask. */
module FrameMessage {
  import opened Bytes

  const HEADER: nat := 4
  const BUFFER: nat := 512

  /** The sizes of the nine data types, in the order of their feature bits. */
  const SIZES: seq<nat> := [8, 8, 24, 24, 12, 8, 12, 16, 4]

  /** Sizes whose layout fits the buffer and whose bits fit the mask. */
  predicate Fits(sizes: seq<nat>) {
    |sizes| <= 16 && (forall i :: 0 <= i < |sizes| ==> sizes[i] > 0) && Offset(sizes, |sizes|) <= BUFFER
  }

  /** FrameMessageOffset: where a type's value goes before `finish`. */
  function Offset(sizes: seq<nat>, i: nat): (o: nat)
    requires i <= |sizes|
    ensures o >= HEADER
  {
    if i == 0 then HEADER else sizes[i - 1] + Offset(sizes, i - 1)
  }

  /** Bit i of a mask, and the mask with bit i set. */
  predicate HasBit(mask: nat, i: nat) { if i == 0 then mask % 2 == 1 else HasBit(mask / 2, i - 1) }

  function WithBit(mask: nat, i: nat): nat {
    if i == 0 then (if mask % 2 == 1 then mask else mask + 1) else mask % 2 + 2 * WithBit(mask / 2, i - 1)
  }

  lemma {:induction false} WithBitHas(mask: nat, i: nat, j: nat)
    ensures HasBit(WithBit(mask, i), j) <==> i == j || HasBit(mask, j)
  {
    if i > 0 {
      assert WithBit(mask, i) / 2 == WithBit(mask / 2, i - 1);
      if j > 0 { WithBitHas(mask / 2, i - 1, j - 1); }
    } else if j > 0 {
      assert WithBit(mask, 0) / 2 == mask / 2;
    }
  }

  function Pow2(n: nat): (p: nat)
    ensures p > 0
  {
    if n == 0 then 1 else 2 * Pow2(n - 1)
  }

  lemma {:induction false} WithBitBound(mask: nat, i: nat, n: nat)
    requires mask < Pow2(n) && i < n
    ensures WithBit(mask, i) < Pow2(n)
  {
    var half := Pow2(n - 1);
    assert Pow2(n) == 2 * half;
    hide Pow2;
    if i > 0 {
      assert mask / 2 < half;
      WithBitBound(mask / 2, i - 1, n - 1);
    }
  }

  type Slots = seq<Option<seq<byte>>>

  predicate Typed(sizes: seq<nat>, slots: Slots) {
    |slots| == |sizes| && forall i :: 0 <= i < |sizes| && slots[i].Some? ==> |slots[i].value| == sizes[i]
  }

  function Cell(slot: Option<seq<byte>>, size: nat): seq<byte> { if slot.Some? then slot.value else Zeros(size) }

  /** The buffer from type i on before `finish`: every type at its place, zeros where none was added. */
  function Layout(sizes: seq<nat>, slots: Slots, i: nat): (r: seq<byte>)
    requires Typed(sizes, slots) && i <= |sizes|
    ensures |r| == Offset(sizes, |sizes|) - Offset(sizes, i)
    decreases |sizes| - i
  {
    if i == |sizes| then [] else Cell(slots[i], sizes[i]) + Layout(sizes, slots, i + 1)
  }

  /** The message from type i on after `finish`: only what was added, nothing between. */
  function Packed(slots: Slots, i: nat): seq<byte>
    requires i <= |slots|
    decreases |slots| - i
  {
    if i == |slots| then [] else (if slots[i].Some? then slots[i].value else []) + Packed(slots, i + 1)
  }

  lemma PlaceInside(sizes: seq<nat>, i: nat, k: nat)
    requires i <= k < |sizes|
    ensures Offset(sizes, i) <= Offset(sizes, k) && Offset(sizes, k) + sizes[k] <= Offset(sizes, |sizes|)
    ensures i < k ==> Offset(sizes, i + 1) == Offset(sizes, i) + sizes[i] <= Offset(sizes, k)
  {
    OffsetGrows(sizes, i, k);
    OffsetGrows(sizes, k + 1, |sizes|);
    if i < k { OffsetGrows(sizes, i + 1, k); }
  }

  lemma SpliceBehind(a: seq<byte>, b: seq<byte>, at: nat, data: seq<byte>)
    requires |a| <= at && at + |data| <= |a| + |b|
    ensures Splice(a + b, at, data) == a + Splice(b, at - |a|, data)
  {}

  lemma SpliceFront(a: seq<byte>, b: seq<byte>, data: seq<byte>)
    requires |a| == |data|
    ensures Splice(a + b, 0, data) == data + b
  {}

  lemma CellOfValue(data: seq<byte>, size: nat)
    ensures Cell(Some(data), size) == data
  {}

  lemma TypedWith(sizes: seq<nat>, slots: Slots, k: nat, data: seq<byte>)
    requires Typed(sizes, slots) && k < |sizes| && |data| == sizes[k]
    ensures Typed(sizes, slots[k := Some(data)]) && |slots| == |sizes|
    ensures forall i :: 0 <= i < |slots| ==> |Cell(slots[i], sizes[i])| == sizes[i]
    ensures forall i :: 0 <= i < |slots| && i != k ==> slots[k := Some(data)][i] == slots[i]
  {}

  /** Adding a value changes its own place and no other. */
  lemma {:induction false} LayoutWith(sizes: seq<nat>, slots: Slots, i: nat, k: nat, data: seq<byte>)
    requires Typed(sizes, slots) && i <= k < |sizes| && |data| == sizes[k]
    ensures Offset(sizes, i) <= Offset(sizes, k) && Offset(sizes, k) + sizes[k] <= Offset(sizes, |sizes|)
    ensures Typed(sizes, slots[k := Some(data)])
    ensures Layout(sizes, slots[k := Some(data)], i) ==
            Splice(Layout(sizes, slots, i), Offset(sizes, k) - Offset(sizes, i), data)
    decreases k - i
  {
    hide *;
    PlaceInside(sizes, i, k);
    TypedWith(sizes, slots, k, data);
    var after := slots[k := Some(data)];
    LayoutUnfold(sizes, slots, i);
    LayoutUnfold(sizes, after, i);
    if i < k {
      LayoutWith(sizes, slots, i + 1, k, data);
      SpliceBehind(Cell(slots[i], sizes[i]), Layout(sizes, slots, i + 1), Offset(sizes, k) - Offset(sizes, i), data);
    } else {
      LayoutBeyond(sizes, slots, k + 1, k, data);
      CellOfValue(data, sizes[k]);
      SpliceFront(Cell(slots[k], sizes[k]), Layout(sizes, slots, k + 1), data);
    }
  }

  lemma LayoutUnfold(sizes: seq<nat>, slots: Slots, i: nat)
    requires Typed(sizes, slots) && i < |sizes|
    ensures Layout(sizes, slots, i) == Cell(slots[i], sizes[i]) + Layout(sizes, slots, i + 1)
  {}

  lemma {:induction false} LayoutBeyond(sizes: seq<nat>, slots: Slots, i: nat, k: nat, data: seq<byte>)
    requires Typed(sizes, slots) && k < i <= |sizes| && |data| == sizes[k]
    ensures Typed(sizes, slots[k := Some(data)])
    ensures Layout(sizes, slots[k := Some(data)], i) == Layout(sizes, slots, i)
    ensures Offset(sizes, k) + sizes[k] <= Offset(sizes, |sizes|)
    decreases |sizes| - i
  {
    if i < |sizes| { LayoutBeyond(sizes, slots, i + 1, k, data); }
    OffsetGrows(sizes, k + 1, |sizes|);
  }

  lemma {:induction false} OffsetGrows(sizes: seq<nat>, i: nat, k: nat)
    requires i <= k <= |sizes|
    ensures Offset(sizes, i) <= Offset(sizes, k)
    decreases k
  {
    if i < k { OffsetGrows(sizes, i, k - 1); }
  }

  /** What the reader answers: the value, that there is none, or a read past the given bytes. */
  datatype Answer = Found(data: seq<byte>) | Missing | Overrun

  /** get_frame_message_data from type i on, with the cursor at ptr. */
  function Search(sizes: seq<nat>, msg: seq<byte>, mask: nat, kind: nat, i: nat, ptr: nat): Answer
    requires i <= |sizes|
    decreases |sizes| - i
  {
    if i == |sizes| || ptr >= |msg| then Missing
    else if !HasBit(mask, i) then Search(sizes, msg, mask, kind, i + 1, ptr)
    else if i != kind then Search(sizes, msg, mask, kind, i + 1, ptr + sizes[i])
    else if ptr + sizes[i] <= |msg| then Found(msg[ptr..ptr + sizes[i]])
    else Overrun
  }

  function Read(sizes: seq<nat>, msg: seq<byte>, kind: nat): Answer {
    if |msg| < HEADER then Overrun else Search(sizes, msg, FromLE(msg[2..4]), kind, 0, HEADER)
  }

  /** The reader's loop. */
  method GetData(sizes: seq<nat>, msg: seq<byte>, kind: nat) returns (a: Answer)
    ensures a == Read(sizes, msg, kind)
  {
    if |msg| < HEADER { return Overrun; }
    var mask := FromLE(msg[2..4]);
    var ptr: nat, i: nat := HEADER, 0;
    while i < |sizes|
      invariant i <= |sizes|
      invariant Read(sizes, msg, kind) == Search(sizes, msg, mask, kind, i, ptr)
    {
      if ptr >= |msg| { return Missing; }
      if HasBit(mask, i) {
        if i == kind {
          return if ptr + sizes[i] <= |msg| then Found(msg[ptr..ptr + sizes[i]]) else Overrun;
        }
        ptr := ptr + sizes[i];
      }
      i := i + 1;
    }
    return Missing;
  }

  /** A finished message that holds the slots: their bits in its mask, their values packed behind its header. */
  ghost predicate IsMessage(sizes: seq<nat>, slots: Slots, msg: seq<byte>) {
    && Typed(sizes, slots) && HEADER + |Packed(slots, 0)| <= |msg|
    && (forall i :: 0 <= i < |sizes| ==> (HasBit(FromLE(msg[2..4]), i) <==> slots[i].Some?))
    && msg[HEADER..HEADER + |Packed(slots, 0)|] == Packed(slots, 0)
  }

  lemma {:induction false} SearchPacked(sizes: seq<nat>, slots: Slots, msg: seq<byte>, mask: nat, kind: nat, i: nat, ptr: nat)
    requires Typed(sizes, slots) && i <= |sizes| && kind < |sizes|
    requires forall j :: 0 <= j < |sizes| ==> sizes[j] > 0 && (HasBit(mask, j) <==> slots[j].Some?)
    requires ptr + |Packed(slots, i)| <= |msg| && msg[ptr..ptr + |Packed(slots, i)|] == Packed(slots, i)
    ensures Search(sizes, msg, mask, kind, i, ptr) ==
            if i <= kind && slots[kind].Some? then Found(slots[kind].value) else Missing
    decreases |sizes| - i
  {
    hide HasBit;
    if i < |sizes| {
      var rest := Packed(slots, i + 1);
      if slots[i].Some? {
        assert Packed(slots, i) == slots[i].value + rest;
        CompactSlices(msg, ptr, slots[i].value, rest);
        SearchPacked(sizes, slots, msg, mask, kind, i + 1, ptr + sizes[i]);
      } else {
        assert Packed(slots, i) == rest;
        SearchPacked(sizes, slots, msg, mask, kind, i + 1, ptr);
      }
      if ptr == |msg| { NothingPacked(sizes, slots, i, kind); }
    }
  }

  /** Where nothing is packed, nothing is present. */
  lemma {:induction false} NothingPacked(sizes: seq<nat>, slots: Slots, i: nat, kind: nat)
    requires Typed(sizes, slots) && i <= |sizes| && kind < |sizes| && Packed(slots, i) == []
    requires forall j :: 0 <= j < |sizes| ==> sizes[j] > 0
    ensures i <= kind ==> slots[kind] == None
    decreases |sizes| - i
  {
    if i < kind { NothingPacked(sizes, slots, i + 1, kind); }
  }

  /** The reader finds every value bit for bit, and answers that there is none for every type that was not added. */
  lemma ReadBack(sizes: seq<nat>, slots: Slots, msg: seq<byte>, kind: nat)
    requires IsMessage(sizes, slots, msg) && kind < |sizes| && forall j :: 0 <= j < |sizes| ==> sizes[j] > 0
    ensures Read(sizes, msg, kind) == if slots[kind].Some? then Found(slots[kind].value) else Missing
  {
    SearchPacked(sizes, slots, msg, FromLE(msg[2..4]), kind, 0, HEADER);
  }

  /** It does so from as many bytes as the message has, or more. */
  lemma ReadBackSized(sizes: seq<nat>, slots: Slots, bytes: seq<byte>, n: nat, kind: nat)
    requires IsMessage(sizes, slots, bytes) && kind < |sizes| && forall j :: 0 <= j < |sizes| ==> sizes[j] > 0
    requires HEADER + |Packed(slots, 0)| <= n <= |bytes|
    ensures Read(sizes, bytes[..n], kind) == if slots[kind].Some? then Found(slots[kind].value) else Missing
  {
    assert bytes[..n][2..4] == bytes[2..4];
    assert bytes[..n][HEADER..HEADER + |Packed(slots, 0)|] == bytes[HEADER..HEADER + |Packed(slots, 0)|];
    ReadBack(sizes, slots, bytes[..n], kind);
  }

  /** The nine types fit, and where the templates put each of them. */
  lemma SizesFit()
    ensures Fits(SIZES)
    ensures Offset(SIZES, 1) == 12 && Offset(SIZES, 2) == 20 && Offset(SIZES, 3) == 44 && Offset(SIZES, 4) == 68
    ensures Offset(SIZES, 5) == 80 && Offset(SIZES, 6) == 88 && Offset(SIZES, 7) == 100 && Offset(SIZES, 8) == 116
    ensures Offset(SIZES, 9) == 120
  {
    assert Offset(SIZES, 0) == 4;
    assert Offset(SIZES, 1) == 12;
    assert Offset(SIZES, 2) == 20;
    assert Offset(SIZES, 3) == 44;
    assert Offset(SIZES, 4) == 68;
    assert Offset(SIZES, 5) == 80;
    assert Offset(SIZES, 6) == 88;
    assert Offset(SIZES, 7) == 100;
    assert Offset(SIZES, 8) == 116;
  }

  ghost function SumOf(sizes: seq<nat>, kinds: seq<nat>): nat
    requires forall k :: 0 <= k < |kinds| ==> kinds[k] < |sizes|
  {
    if kinds == [] then 0 else sizes[kinds[|kinds| - 1]] + SumOf(sizes, kinds[..|kinds| - 1])
  }

  ghost predicate NoneTwice(kinds: seq<nat>) { forall j, k :: 0 <= j < k < |kinds| ==> kinds[j] != kinds[k] }

  lemma {:induction false} PackedWithout(slots: Slots, k: nat, i: nat)
    requires k < |slots| && slots[k].Some? && i <= |slots|
    ensures |Packed(slots, i)| == |Packed(slots[k := None], i)| + if i <= k then |slots[k].value| else 0
    decreases |slots| - i
  {
    if i < |slots| { PackedWithout(slots, k, i + 1); }
  }

  lemma {:induction false} PackedNothing(slots: Slots, i: nat)
    requires i <= |slots| && forall j :: 0 <= j < |slots| ==> slots[j] == None
    ensures Packed(slots, i) == []
    decreases |slots| - i
  {
    if i < |slots| { PackedNothing(slots, i + 1); }
  }

  /** Counting a size for every add gives the message's true size exactly when no type was added twice, and else too much. */
  lemma {:induction false} SizeRightIff(sizes: seq<nat>, slots: Slots, kinds: seq<nat>)
    requires Typed(sizes, slots) && (forall j :: 0 <= j < |sizes| ==> sizes[j] > 0)
    requires forall k :: 0 <= k < |kinds| ==> kinds[k] < |sizes|
    requires forall j :: 0 <= j < |slots| ==> (slots[j].Some? <==> j in kinds)
    ensures SumOf(sizes, kinds) >= |Packed(slots, 0)|
    ensures SumOf(sizes, kinds) == |Packed(slots, 0)| <==> NoneTwice(kinds)
    decreases |kinds|
  {
    if kinds == [] {
      PackedNothing(slots, 0);
    } else {
      var n := |kinds| - 1;
      var rest, k := kinds[..n], kinds[n];
      assert kinds == rest + [k];
      if k in rest {
        SizeRightIff(sizes, slots, rest);
      } else {
        PackedWithout(slots, k, 0);
        SizeRightIff(sizes, slots[k := None], rest);
        assert NoneTwice(kinds) <==> NoneTwice(rest);
      }
    }
  }

  lemma SliceOfSplice(s: seq<byte>, at: nat, data: seq<byte>, from: nat, to: nat)
    requires from <= at && at + |data| <= to <= |s|
    ensures Splice(s, at, data)[from..to] == Splice(s[from..to], at - from, data)
  {}

  /** The mask has the bits of the slots that are filled. */
  ghost predicate Masked(sizes: seq<nat>, slots: Slots, mask: nat) {
    && mask < Pow2(16) && |slots| == |sizes|
    && forall i :: 0 <= i < |sizes| ==> (HasBit(mask, i) <==> slots[i].Some?)
  }

  /** The slots that are filled are those of the types added, and the size counts every add. */
  ghost predicate Counted(sizes: seq<nat>, slots: Slots, kinds: seq<nat>, size: nat) {
    && |slots| == |sizes| && (forall k :: 0 <= k < |kinds| ==> kinds[k] < |sizes|)
    && (forall i :: 0 <= i < |slots| ==> (slots[i].Some? <==> i in kinds))
    && size == HEADER + SumOf(sizes, kinds)
  }

  lemma MaskedWith(sizes: seq<nat>, slots: Slots, mask: nat, kind: nat, data: seq<byte>)
    requires Masked(sizes, slots, mask) && kind < |sizes| <= 16
    ensures Masked(sizes, slots[kind := Some(data)], WithBit(mask, kind))
  {
    WithBitBound(mask, kind, 16);
    forall j | 0 <= j < |sizes| ensures HasBit(WithBit(mask, kind), j) <==> kind == j || HasBit(mask, j) {
      WithBitHas(mask, kind, j);
    }
  }

  lemma CountedWith(sizes: seq<nat>, slots: Slots, kinds: seq<nat>, size: nat, kind: nat, data: seq<byte>)
    requires Counted(sizes, slots, kinds, size) && kind < |sizes|
    ensures Counted(sizes, slots[kind := Some(data)], kinds + [kind], size + sizes[kind])
  {
    assert (kinds + [kind])[..|kinds|] == kinds;
  }

  /** The state of a builder: the buffer as it is laid out, or once it is finished the message. */
  ghost predicate Holds(sizes: seq<nat>, slots: Slots, kinds: seq<nat>, mask: nat, size: nat, finished: bool, bytes: seq<byte>) {
    && Fits(sizes) && |bytes| == BUFFER && Typed(sizes, slots) && Masked(sizes, slots, mask) && Counted(sizes, slots, kinds, size)
    && (if finished then IsMessage(sizes, slots, bytes) && FromLE(bytes[..2]) == size % 0x1_0000
        else bytes[HEADER..Offset(sizes, |sizes|)] == Layout(sizes, slots, 0))
  }

  lemma AddedHolds(sizes: seq<nat>, slots: Slots, kinds: seq<nat>, mask: nat, size: nat, bytes: seq<byte>,
                   kind: nat, data: seq<byte>)
    requires Holds(sizes, slots, kinds, mask, size, false, bytes) && kind < |sizes| && |data| == sizes[kind]
    ensures |slots| == |sizes| && Offset(sizes, kind) + |data| <= |bytes|
    ensures Holds(sizes, slots[kind := Some(data)], kinds + [kind], WithBit(mask, kind), size + |data|, false,
                  Splice(bytes, Offset(sizes, kind), data))
  {
    hide *;
    HoldsParts(sizes, slots, kinds, mask, size, bytes);
    LayoutWith(sizes, slots, 0, kind, data);
    MaskedWith(sizes, slots, mask, kind, data);
    CountedWith(sizes, slots, kinds, size, kind, data);
    SliceOfSplice(bytes, Offset(sizes, kind), data, HEADER, Offset(sizes, |sizes|));
    HoldsFrom(sizes, slots[kind := Some(data)], kinds + [kind], WithBit(mask, kind), size + |data|,
              Splice(bytes, Offset(sizes, kind), data));
  }

  lemma HoldsParts(sizes: seq<nat>, slots: Slots, kinds: seq<nat>, mask: nat, size: nat, bytes: seq<byte>)
    requires Holds(sizes, slots, kinds, mask, size, false, bytes)
    ensures Fits(sizes) && |bytes| == BUFFER == 512 && Typed(sizes, slots) && |slots| == |sizes| <= 16
    ensures Masked(sizes, slots, mask) && Counted(sizes, slots, kinds, size)
    ensures HEADER == Offset(sizes, 0) == 4 <= Offset(sizes, |sizes|) <= |bytes|
    ensures bytes[HEADER..Offset(sizes, |sizes|)] == Layout(sizes, slots, 0)
  {}

  lemma HoldsFrom(sizes: seq<nat>, slots: Slots, kinds: seq<nat>, mask: nat, size: nat, bytes: seq<byte>)
    requires Fits(sizes) && |bytes| == BUFFER && Typed(sizes, slots) && Masked(sizes, slots, mask)
    requires Counted(sizes, slots, kinds, size) && Offset(sizes, |sizes|) <= |bytes|
    requires bytes[HEADER..Offset(sizes, |sizes|)] == Layout(sizes, slots, 0)
    ensures Holds(sizes, slots, kinds, mask, size, false, bytes)
  {}

  /** The first i types are compacted up to `src`; the rest still lie there as they were laid out. */
  ghost predicate Compacting(sizes: seq<nat>, slots: Slots, bytes: seq<byte>, src: nat, i: nat) {
    && Typed(sizes, slots) && i <= |sizes| && HEADER <= src
    && src + |Layout(sizes, slots, i)| <= |bytes|
    && bytes[src..src + |Layout(sizes, slots, i)|] == Layout(sizes, slots, i)
    && bytes[HEADER..src] + Packed(slots, i) == Packed(slots, 0)
  }

  /** `memmove(bytes + dst, bytes + from, |bytes| - from)`. */
  function MovedDown(bytes: seq<byte>, dst: nat, from: nat): seq<byte>
    requires dst <= from <= |bytes|
  {
    Splice(bytes, dst, bytes[from..])
  }

  lemma CompactSlices(bytes: seq<byte>, src: nat, cell: seq<byte>, rest: seq<byte>)
    requires src + |cell + rest| <= |bytes| && bytes[src..src + |cell + rest|] == cell + rest
    ensures bytes[src..src + |cell|] == cell && bytes[src + |cell|..src + |cell| + |rest|] == rest
  {
    var piece := bytes[src..src + |cell + rest|];
    assert piece[..|cell|] == cell && piece[|cell|..] == rest;
  }

  lemma CompactKept(bytes: seq<byte>, src: nat, cell: seq<byte>, packed: seq<byte>, whole: seq<byte>)
    requires HEADER <= src && src + |cell| <= |bytes| && bytes[src..src + |cell|] == cell
    requires bytes[HEADER..src] + (cell + packed) == whole
    ensures bytes[HEADER..src + |cell|] + packed == whole
  {
    assert bytes[HEADER..src + |cell|] == bytes[HEADER..src] + cell;
    assert bytes[HEADER..src] + (cell + packed) == (bytes[HEADER..src] + cell) + packed;
  }

  lemma CompactMoved(bytes: seq<byte>, src: nat, size: nat, rest: seq<byte>)
    requires HEADER <= src && src + size + |rest| <= |bytes| && bytes[src + size..src + size + |rest|] == rest
    ensures MovedDown(bytes, src, src + size)[HEADER..src] == bytes[HEADER..src]
    ensures MovedDown(bytes, src, src + size)[src..src + |rest|] == rest
    ensures |MovedDown(bytes, src, src + size)| == |bytes|
  {
    var moved := MovedDown(bytes, src, src + size);
    forall k | 0 <= k < |rest| ensures moved[src + k] == rest[k] {
      assert bytes[src + size..][k] == bytes[src + size..src + size + |rest|][k];
    }
  }

  /** What a type's turn finds. */
  lemma CompactParts(sizes: seq<nat>, slots: Slots, bytes: seq<byte>, src: nat, i: nat)
    requires Compacting(sizes, slots, bytes, src, i) && i < |sizes|
    ensures Typed(sizes, slots) && |slots| == |sizes| && HEADER <= src
    ensures var cell, rest := Cell(slots[i], sizes[i]), Layout(sizes, slots, i + 1);
            && |cell| == sizes[i] && src + |cell + rest| <= |bytes| && bytes[src..src + |cell + rest|] == cell + rest
            && bytes[HEADER..src] + ((if slots[i].Some? then cell else []) + Packed(slots, i + 1)) == Packed(slots, 0)
  {
    LayoutUnfold(sizes, slots, i);
    hide Layout;
  }

  lemma CompactFrom(sizes: seq<nat>, slots: Slots, bytes: seq<byte>, src: nat, i: nat)
    requires Typed(sizes, slots) && i <= |sizes| == |slots| && HEADER <= src && src + |Layout(sizes, slots, i)| <= |bytes|
    requires bytes[src..src + |Layout(sizes, slots, i)|] == Layout(sizes, slots, i)
    requires bytes[HEADER..src] + Packed(slots, i) == Packed(slots, 0)
    ensures Compacting(sizes, slots, bytes, src, i)
  {}

  /** A type that was added stays. */
  lemma CompactKeeps(sizes: seq<nat>, slots: Slots, bytes: seq<byte>, src: nat, i: nat)
    requires Compacting(sizes, slots, bytes, src, i) && i < |sizes| <= |slots| && slots[i].Some?
    ensures Compacting(sizes, slots, bytes, src + sizes[i], i + 1)
  {
    hide *;
    CompactParts(sizes, slots, bytes, src, i);
    var cell, rest := Cell(slots[i], sizes[i]), Layout(sizes, slots, i + 1);
    CompactSlices(bytes, src, cell, rest);
    CompactKept(bytes, src, cell, Packed(slots, i + 1), Packed(slots, 0));
    CompactFrom(sizes, slots, bytes, src + sizes[i], i + 1);
  }

  /** A type that was not added is closed up by what follows it. */
  lemma CompactDrops(sizes: seq<nat>, slots: Slots, bytes: seq<byte>, src: nat, i: nat)
    requires Compacting(sizes, slots, bytes, src, i) && i < |sizes| <= |slots| && slots[i].None?
    ensures src + sizes[i] <= |bytes|
    ensures Compacting(sizes, slots, MovedDown(bytes, src, src + sizes[i]), src, i + 1)
  {
    hide *;
    CompactParts(sizes, slots, bytes, src, i);
    var cell, rest := Cell(slots[i], sizes[i]), Layout(sizes, slots, i + 1);
    CompactSlices(bytes, src, cell, rest);
    CompactMoved(bytes, src, sizes[i], rest);
    assert [] + Packed(slots, i + 1) == Packed(slots, i + 1);
    CompactFrom(sizes, slots, MovedDown(bytes, src, src + sizes[i]), src, i + 1);
  }

  lemma MaskTells(sizes: seq<nat>, slots: Slots, mask: nat, i: nat)
    requires Masked(sizes, slots, mask) && i < |sizes|
    ensures |slots| == |sizes| && (HasBit(mask, i) <==> slots[i].Some?)
  {}

  lemma CompactBegins(sizes: seq<nat>, slots: Slots, kinds: seq<nat>, mask: nat, size: nat, bytes: seq<byte>)
    requires Holds(sizes, slots, kinds, mask, size, false, bytes)
    ensures Compacting(sizes, slots, bytes, HEADER, 0)
  {
    assert bytes[HEADER..HEADER] + Packed(slots, 0) == Packed(slots, 0);
  }

  lemma Pow2Of16()
    ensures Pow2(16) == 0x1_0000 == Pow256(2)
  {
    assert Pow2(4) == 16 && Pow2(8) == 256 && Pow2(12) == 4096;
    assert Pow256(2) == 256 * Pow256(1) == 256 * 256 * Pow256(0);
  }

  /** The message's header: its size, cut to 16 bits, and its mask. */
  function HeaderOf(size: nat, mask: nat): (h: seq<byte>)
    ensures |h| == HEADER
  {
    ToLE(size % 0x1_0000, 2) + ToLE(mask, 2)
  }

  lemma FinishHolds(sizes: seq<nat>, slots: Slots, kinds: seq<nat>, mask: nat, size: nat, bytes: seq<byte>, src: nat)
    requires Fits(sizes) && |bytes| == BUFFER && Masked(sizes, slots, mask) && Counted(sizes, slots, kinds, size)
    requires Compacting(sizes, slots, bytes, src, |sizes|)
    ensures Holds(sizes, slots, kinds, mask, size, true, Splice(bytes, 0, HeaderOf(size, mask)))
  {
    var after := Splice(bytes, 0, HeaderOf(size, mask));
    Pow2Of16();
    LittleEndianRoundTrip(mask, 2);
    LittleEndianRoundTrip(size % 0x1_0000, 2);
    hide Pow2, Pow256, ToLE, FromLE, HasBit, Counted, Fits, Splice;
    assert after[..2] == ToLE(size % 0x1_0000, 2) && after[2..4] == ToLE(mask, 2);
    assert bytes[HEADER..src] + [] == bytes[HEADER..src];
    assert after[HEADER..src] == bytes[HEADER..src];
  }

  class Builder {
    const sizes: seq<nat>
    const buffer: array<byte>
    var mask: nat
    var size: nat
    var finished: bool
    // What was added, and the types of all adds in their order.
    ghost var slots: Slots
    ghost var kinds: seq<nat>

    ghost predicate Valid()
      reads this, buffer
    {
      Holds(sizes, slots, kinds, mask, size, finished, buffer[..])
    }

    /** `clear` is the same on an old buffer. */
    constructor (sizes: seq<nat>)
      requires Fits(sizes)
      ensures Valid() && this.sizes == sizes && !finished && kinds == [] && fresh(buffer)
    {
      this.sizes := sizes;
      buffer := new byte[BUFFER](_ => 0);
      mask, size, finished := 0, HEADER, false;
      slots := seq(|sizes|, _ => None);
      kinds := [];
      new;
      NoBits(|sizes|);
      ZeroLayout(sizes, slots, 0);
    }

    method Add(kind: nat, data: seq<byte>) returns (rc: int)
      requires Valid() && kind < |sizes| && |data| == sizes[kind]
      modifies this, buffer
      ensures Valid() && finished == old(finished)
      ensures rc == (if finished then -1 else 0)
      ensures slots == if finished then old(slots) else old(slots)[kind := Some(data)]
      ensures kinds == if finished then old(kinds) else old(kinds) + [kind]
    {
      if finished { return -1; }
      AddedHolds(sizes, slots, kinds, mask, size, buffer[..], kind, data);
      hide Holds;
      mask := WithBit(mask, kind);
      CopyInto(buffer, Offset(sizes, kind), data);
      size := size + |data|;
      slots := slots[kind := Some(data)];
      kinds := kinds + [kind];
      rc := 0;
    }

    method MoveDown(dst: nat, from: nat)
      requires dst <= from <= buffer.Length
      modifies buffer
      ensures buffer[..] == MovedDown(old(buffer[..]), dst, from)
    {
      CopyInto(buffer, dst, buffer[from..]);
    }

    /** The loop of `finish`: whatever the sizes, the values end up one behind the other. */
    method Compact(ghost filled: Slots) returns (ghost src: nat)
      requires Compacting(sizes, filled, buffer[..], HEADER, 0) && Masked(sizes, filled, mask)
      modifies buffer
      ensures Compacting(sizes, filled, buffer[..], src, |sizes|)
    {
      hide *;
      var ptr: nat, i: nat := HEADER, 0;
      while i < |sizes|
        invariant i <= |sizes| && Compacting(sizes, filled, buffer[..], ptr, i)
      {
        MaskTells(sizes, filled, mask, i);
        if HasBit(mask, i) {
          CompactKeeps(sizes, filled, buffer[..], ptr, i);
          ptr := ptr + sizes[i];
        } else {
          CompactDrops(sizes, filled, buffer[..], ptr, i);
          MoveDown(ptr, ptr + sizes[i]);
        }
        i := i + 1;
      }
      src := ptr;
    }

    /** Finishing twice is finishing once. */
    method Finish()
      requires Valid()
      modifies this`finished, buffer
      ensures Valid() && finished
      ensures old(finished) ==> buffer[..] == old(buffer[..])
    {
      if finished { return; }
      CompactBegins(sizes, slots, kinds, mask, size, buffer[..]);
      ghost var src := Compact(slots);
      FinishHolds(sizes, slots, kinds, mask, size, buffer[..], src);
      finished := true;
      CopyInto(buffer, 0, HeaderOf(size, mask));
    }

    /** get_size: right when no type was added twice, and only then. */
    method GetSize() returns (n: nat)
      requires Valid() && finished
      ensures n == HEADER + SumOf(sizes, kinds)
      ensures n == HEADER + |Packed(slots, 0)| <==> NoneTwice(kinds)
    {
      SizeRightIff(sizes, slots, kinds);
      n := size;
    }
  }

  lemma {:induction false} NoBit(i: nat)
    ensures !HasBit(0, i)
  {
    if i > 0 { NoBit(i - 1); }
  }

  lemma NoBits(n: nat)
    ensures forall i: nat :: i < n ==> !HasBit(0, i)
    ensures 0 < Pow2(16)
  {
    forall i: nat | i < n ensures !HasBit(0, i) { NoBit(i); }
  }

  lemma {:induction false} ZeroLayout(sizes: seq<nat>, slots: Slots, i: nat)
    requires Typed(sizes, slots) && i <= |sizes| && forall j :: 0 <= j < |slots| ==> slots[j] == None
    ensures Layout(sizes, slots, i) == Zeros(|Layout(sizes, slots, i)|)
    decreases |sizes| - i
  {
    if i < |sizes| { ZeroLayout(sizes, slots, i + 1); }
  }

  // ---- a whole message ----

  datatype Added = Added(kind: nat, data: seq<byte>)

  /** The value added last under a type, if any was. */
  function LastOf(adds: seq<Added>, kind: nat): Option<seq<byte>> {
    if adds == [] then None
    else if adds[|adds| - 1].kind == kind then Some(adds[|adds| - 1].data)
    else LastOf(adds[..|adds| - 1], kind)
  }

  function KindsOf(adds: seq<Added>): (kinds: seq<nat>)
    ensures |kinds| == |adds|
  {
    seq(|adds|, i requires 0 <= i < |adds| => adds[i].kind)
  }

  /** What a reader should hear of a type. */
  function Told(value: Option<seq<byte>>): Answer { if value.Some? then Found(value.value) else Missing }

  /** What a builder holds after these adds. */
  ghost predicate HasAdded(slots: Slots, kinds: seq<nat>, adds: seq<Added>) {
    (forall k :: 0 <= k < |slots| ==> slots[k] == LastOf(adds, k)) && kinds == KindsOf(adds)
  }

  method AddAll(sizes: seq<nat>, adds: seq<Added>) returns (b: Builder)
    requires Fits(sizes) && forall i :: 0 <= i < |adds| ==> adds[i].kind < |sizes| && |adds[i].data| == sizes[adds[i].kind]
    ensures fresh(b) && fresh(b.buffer) && b.Valid() && b.sizes == sizes && !b.finished && HasAdded(b.slots, b.kinds, adds)
  {
    b := new Builder(sizes);
    hide Holds, HasAdded;
    NothingAdded(sizes, b.slots, b.kinds, b.mask, b.size, b.buffer[..]);
    var i := 0;
    while i < |adds|
      invariant i <= |adds| && fresh(b) && fresh(b.buffer) && b.Valid() && b.sizes == sizes && !b.finished
      invariant HasAdded(b.slots, b.kinds, adds[..i])
    {
      OneMoreAdded(sizes, b.slots, b.kinds, b.mask, b.size, b.buffer[..], adds, i);
      var rc := b.Add(adds[i].kind, adds[i].data);
      i := i + 1;
    }
    assert adds[..i] == adds;
  }

  method AskAll(sizes: seq<nat>, bytes: seq<byte>) returns (answers: seq<Answer>)
    ensures |answers| == |sizes| && forall k :: 0 <= k < |sizes| ==> answers[k] == Read(sizes, bytes, k)
  {
    hide Read;
    answers := [];
    while |answers| < |sizes|
      invariant |answers| <= |sizes| && forall k :: 0 <= k < |answers| ==> answers[k] == Read(sizes, bytes, k)
    {
      var a := GetData(sizes, bytes, |answers|);
      answers := answers + [a];
    }
  }

  /** Add any values in any order, finish, and ask the bytes for every type: each answers with the value last added, bit for bit,
    * or that there is none. When no type was added twice, the counted size is enough of the bytes for that. */
  method Exchange(sizes: seq<nat>, adds: seq<Added>) returns (n: nat, bytes: seq<byte>, answers: seq<Answer>)
    requires Fits(sizes) && forall i :: 0 <= i < |adds| ==> adds[i].kind < |sizes| && |adds[i].data| == sizes[adds[i].kind]
    ensures |answers| == |sizes| && forall k :: 0 <= k < |sizes| ==> answers[k] == Told(LastOf(adds, k)) == Read(sizes, bytes, k)
    ensures NoneTwice(KindsOf(adds)) ==>
              n <= |bytes| && forall k :: 0 <= k < |sizes| ==> Read(sizes, bytes[..n], k) == Told(LastOf(adds, k))
  {
    var b := AddAll(sizes, adds);
    hide Holds, Read, LastOf, KindsOf, NoneTwice;
    b.Finish();
    n := b.GetSize();
    bytes := b.buffer[..];
    Answers(sizes, b.slots, b.kinds, b.mask, b.size, bytes, n);
    answers := AskAll(sizes, bytes);
  }

  lemma NothingAdded(sizes: seq<nat>, slots: Slots, kinds: seq<nat>, mask: nat, size: nat, bytes: seq<byte>)
    requires Holds(sizes, slots, kinds, mask, size, false, bytes) && kinds == []
    ensures HasAdded(slots, kinds, [])
  {}

  lemma OneMoreAdded(sizes: seq<nat>, slots: Slots, kinds: seq<nat>, mask: nat, size: nat, bytes: seq<byte>,
                     adds: seq<Added>, i: nat)
    requires Holds(sizes, slots, kinds, mask, size, false, bytes) && i < |adds| && adds[i].kind < |sizes|
    requires HasAdded(slots, kinds, adds[..i])
    ensures |slots| == |sizes| && HasAdded(slots[adds[i].kind := Some(adds[i].data)], kinds + [adds[i].kind], adds[..i + 1])
  {
    HoldsParts(sizes, slots, kinds, mask, size, bytes);
    hide Holds;
    assert adds[..i + 1][..i] == adds[..i];
  }

  lemma Answers(sizes: seq<nat>, slots: Slots, kinds: seq<nat>, mask: nat, size: nat, bytes: seq<byte>, n: nat)
    requires Holds(sizes, slots, kinds, mask, size, true, bytes)
    requires NoneTwice(kinds) ==> n == HEADER + |Packed(slots, 0)|
    ensures |slots| == |sizes| && forall k :: 0 <= k < |sizes| ==> Read(sizes, bytes, k) == Told(slots[k])
    ensures NoneTwice(kinds) ==> n <= |bytes| && forall k :: 0 <= k < |sizes| ==> Read(sizes, bytes[..n], k) == Told(slots[k])
  {
    forall k | 0 <= k < |sizes|
      ensures Read(sizes, bytes, k) == Told(slots[k])
      ensures NoneTwice(kinds) ==> n <= |bytes| && Read(sizes, bytes[..n], k) == Told(slots[k])
    {
      ReadBack(sizes, slots, bytes, k);
      if NoneTwice(kinds) { ReadBackSized(sizes, slots, bytes, n, k); }
    }
  }
}
