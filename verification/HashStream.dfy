/** The streaming half of lib_util/md5.c, for any registers and any block function: however a message is cut into updates, what
  * comes out at the end is the block function folded over the padded message. */
module HashStream {
  import opened Bytes

  const LO: nat := 0x2000_0000
  const WORD: nat := 0x1_0000_0000

  /** A block function, the registers it starts from, and registers wiped. */
  datatype Hash<!R> = Hash(f: (R, seq<byte>) -> R, init: R, zero: R)

  /** The block function folded over the whole blocks of a message. */
  function Blocks<R>(h: Hash<R>, r: R, m: seq<byte>): R
    decreases |m|
  {
    if |m| < 64 then r else Blocks(h, h.f(r, m[..64]), m[64..])
  }

  /** Sections 3.1 and 3.2 of RFC 1321: a one bit, zeros up to 8 bytes short of a block, and the bit count modulo 2^64. */
  function Padded(m: seq<byte>): seq<byte> {
    m + [0x80] + Zeros((119 - |m| % 64) % 64) + ToLE((8 * |m|) % (WORD * WORD), 8)
  }

  /** The registers have taken in all of a message but a tail shorter than a block. */
  ghost predicate Streamed<R>(h: Hash<R>, msg: seq<byte>, r: R, tail: seq<byte>) {
    && |tail| < 64 && |tail| <= |msg| && (|msg| - |tail|) % 64 == 0
    && msg[|msg| - |tail|..] == tail
    && r == Blocks(h, h.init, msg[..|msg| - |tail|])
  }

  lemma {:induction false} BlocksSplit<R>(h: Hash<R>, r: R, a: seq<byte>, b: seq<byte>)
    requires |a| % 64 == 0
    ensures Blocks(h, r, a + b) == Blocks(h, Blocks(h, r, a), b)
    decreases |a|
  {
    if a == [] {
      assert a + b == b;
    } else {
      assert (a + b)[..64] == a[..64] && (a + b)[64..] == a[64..] + b;
      BlocksSplit(h, h.f(r, a[..64]), a[64..], b);
    }
  }

  lemma StreamedMore<R>(h: Hash<R>, msg: seq<byte>, r: R, tail: seq<byte>, data: seq<byte>)
    requires Streamed(h, msg, r, tail) && |tail| + |data| < 64
    ensures Streamed(h, msg + data, r, tail + data)
  {
    hide Blocks;
    assert (msg + data)[..|msg| - |tail|] == msg[..|msg| - |tail|];
    assert (msg + data)[|msg| - |tail|..] == msg[|msg| - |tail|..] + data;
  }

  lemma StreamedParts<R>(h: Hash<R>, msg: seq<byte>, r: R, tail: seq<byte>)
    requires Streamed(h, msg, r, tail)
    ensures |tail| < 64 && |tail| <= |msg| && (|msg| - |tail|) % 64 == 0
    ensures msg == msg[..|msg| - |tail|] + tail && r == Blocks(h, h.init, msg[..|msg| - |tail|])
  {
    hide Blocks;
  }

  lemma StreamedFrom<R>(h: Hash<R>, msg: seq<byte>)
    requires |msg| % 64 == 0
    ensures Streamed(h, msg, Blocks(h, h.init, msg), [])
  {
    hide Blocks;
    assert msg[..|msg|] == msg && msg[|msg|..] == [];
  }

  lemma StreamedBlocks<R>(h: Hash<R>, msg: seq<byte>, r: R, tail: seq<byte>, data: seq<byte>)
    requires Streamed(h, msg, r, tail) && (|tail| + |data|) % 64 == 0
    ensures Streamed(h, msg + data, Blocks(h, r, tail + data), [])
  {
    hide *;
    StreamedParts(h, msg, r, tail);
    var head := msg[..|msg| - |tail|];
    assert msg + data == head + (tail + data);
    BlocksSplit(h, h.init, head, tail + data);
    StreamedFrom(h, msg + data);
  }

  /** The two counters: the bytes modulo 2^29, and how often that has gone round, modulo 2^32. */
  ghost predicate Counts(lo: nat, hi: nat, n: nat) {
    lo == n % LO && hi == (n / LO) % WORD
  }

  lemma CountsMore(lo: nat, hi: nat, n: nat, size: nat)
    requires Counts(lo, hi, n)
    ensures var lo' := (lo + size) % LO;
            Counts(lo', ((if lo' < lo then (hi + 1) % WORD else hi) + size / LO) % WORD, n + size)
  {
    var q, s, r := n / LO, size / LO, size % LO;
    var carry := if lo + r < LO then 0 else 1;
    Divided(lo + size, s + carry, lo + r - carry * LO);
    Divided(n + size, q + s + carry, lo + r - carry * LO);
    ModOfSum(q, carry, s);
  }

  lemma Divided(n: nat, q: nat, r: nat)
    requires r < LO && n == q * LO + r
    ensures n / LO == q && n % LO == r
  {}

  lemma ModOfSum(q: nat, carry: nat, s: nat)
    requires carry <= 1
    ensures ((if carry == 1 then (q % WORD + 1) % WORD else q % WORD) + s) % WORD == (q + s + carry) % WORD
  {}

  lemma BlocksStep<R>(h: Hash<R>, r: R, m: seq<byte>)
    ensures |m| >= 64 ==> Blocks(h, r, m) == Blocks(h, h.f(r, m[..64]), m[64..])
    ensures |m| < 64 ==> Blocks(h, r, m) == r
  {}

  /** `body`: one or more whole blocks. */
  method Body<R>(h: Hash<R>, r: R, data: seq<byte>) returns (out: R)
    requires data != [] && |data| % 64 == 0
    ensures out == Blocks(h, r, data)
  {
    hide Blocks;
    out := r;
    var ptr: nat := 0;
    while ptr < |data|
      invariant ptr <= |data| && ptr % 64 == 0
      invariant Blocks(h, r, data) == Blocks(h, out, data[ptr..])
    {
      BlocksStep(h, out, data[ptr..]);
      assert data[ptr..][..64] == data[ptr..ptr + 64] && data[ptr..][64..] == data[ptr + 64..];
      out := h.f(out, data[ptr..ptr + 64]);
      ptr := ptr + 64;
    }
    BlocksStep(h, out, data[ptr..]);
  }

  /** The padding after a tail: what completes its block, or its block and one more. */
  function Padding(tail: nat, n: nat): (p: seq<byte>)
    requires tail < 64
    ensures (tail + |p|) % 64 == 0
  {
    [0x80] + Zeros((119 - tail) % 64) + ToLE((8 * n) % (WORD * WORD), 8)
  }

  lemma StreamedWhole<R>(h: Hash<R>, msg: seq<byte>, r: R)
    requires Streamed(h, msg, r, [])
    ensures r == Blocks(h, h.init, msg)
  {
    hide Blocks;
    assert msg[..|msg|] == msg;
  }

  lemma TailLength<R>(h: Hash<R>, msg: seq<byte>, r: R, tail: seq<byte>)
    requires Streamed(h, msg, r, tail)
    ensures |msg| % 64 == |tail| < 64
  {
    hide Blocks;
  }

  lemma PaddedIs(msg: seq<byte>, tail: nat)
    requires |msg| % 64 == tail
    ensures Padded(msg) == msg + Padding(tail, |msg|)
  {
    hide ToLE;
  }

  lemma PaddedEnds<R>(h: Hash<R>, msg: seq<byte>, r: R, tail: seq<byte>)
    requires Streamed(h, msg, r, tail)
    ensures |tail| < 64 && Blocks(h, h.init, Padded(msg)) == Blocks(h, r, tail + Padding(|tail|, |msg|))
  {
    hide *;
    TailLength(h, msg, r, tail);
    PaddedIs(msg, |tail|);
    StreamedBlocks(h, msg, r, tail, Padding(|tail|, |msg|));
    StreamedWhole(h, Padded(msg), Blocks(h, r, tail + Padding(|tail|, |msg|)));
  }

  /** The bit count in its two words. */
  lemma CountBytes(lo: nat, hi: nat, n: nat)
    requires Counts(lo, hi, n)
    ensures ToLE((8 * lo) % WORD, 4) + ToLE(hi, 4) == ToLE((8 * n) % (WORD * WORD), 8)
  {
    hide ToLE;
    BitsOf(lo, hi, n);
    LongWord(8 * lo, hi);
  }

  lemma BitsOf(lo: nat, hi: nat, n: nat)
    requires Counts(lo, hi, n)
    ensures 8 * lo < WORD && (8 * lo) % WORD == 8 * lo && (8 * n) % (WORD * WORD) == hi * WORD + 8 * lo
  {
    var q := n / LO;
    assert 8 * n == q * WORD + 8 * lo;
    BitCount(q, 8 * lo);
  }

  lemma BitCount(q: nat, low: nat)
    requires low < WORD
    ensures (q * WORD + low) % (WORD * WORD) == (q % WORD) * WORD + low
  {
    var k, h := q / WORD, q % WORD;
    assert q * WORD + low == k * (WORD * WORD) + (h * WORD + low);
    Remainder(q * WORD + low, k, h * WORD + low);
  }

  lemma Remainder(n: nat, k: nat, r: nat)
    requires r < WORD * WORD && n == k * (WORD * WORD) + r
    ensures n % (WORD * WORD) == r
  {}

  lemma LongWord(low: nat, high: nat)
    requires low < WORD
    ensures ToLE(low, 4) + ToLE(high, 4) == ToLE(high * WORD + low, 8)
  {
    LowBytes(low, high, 4);
  }

  lemma {:induction false} LowBytes(low: nat, high: nat, k: nat)
    requires low < Pow256(k)
    ensures ToLE(low, k) + ToLE(high, 4) == ToLE(high * Pow256(k) + low, k + 4)
  {
    if k == 0 {
      assert [] + ToLE(high, 4) == ToLE(high, 4);
    } else {
      var p := Pow256(k - 1);
      var m := high * Pow256(k) + low;
      assert m == 256 * (high * p + low / 256) + low % 256;
      LowBytes(low / 256, high, k - 1);
      assert m % 256 == low % 256 && m / 256 == high * p + low / 256;
      assert [(low % 256) as byte] + ToLE(low / 256, k - 1) + ToLE(high, 4)
          == [(low % 256) as byte] + (ToLE(low / 256, k - 1) + ToLE(high, 4));
    }
  }

  class Context<R> {
    const h: Hash<R>
    var chain: R
    var lo: nat
    var hi: nat
    const buffer: array<byte>
    // All the bytes of the updates so far.
    ghost var msg: seq<byte>

    ghost predicate Valid()
      reads this, buffer
    {
      && buffer.Length == 64 && Counts(lo, hi, |msg|) && Streamed(h, msg, chain, buffer[..lo % 64])
    }

    constructor (h: Hash<R>)
      ensures Valid() && this.h == h && msg == [] && fresh(buffer)
    {
      this.h := h;
      chain, lo, hi, msg := h.init, 0, 0, [];
      buffer := new byte[64];
      new;
      EmptyStream(h);
      assert buffer[..0] == [];
    }

    /** The counters, which carry from one into the other. */
    method Count(size: nat, ghost n: nat)
      requires Counts(lo, hi, n)
      modifies this`lo, this`hi
      ensures Counts(lo, hi, n + size)
    {
      CountsMore(lo, hi, n, size);
      hide Counts;
      var savedLo := lo;
      lo := (savedLo + size) % LO;
      if lo < savedLo { hi := (hi + 1) % WORD; }
      hi := (hi + size / LO) % WORD;
    }

    /** What is left when the buffer is empty: whole blocks at once, and the rest into the buffer. */
    method Absorb(data: seq<byte>, ghost before: seq<byte>)
      requires buffer.Length == 64 && Streamed(h, before, chain, [])
      modifies this`chain, buffer
      ensures Streamed(h, before + data, chain, buffer[..|data| % 64])
    {
      hide *;
      Absorbed(h, before, chain, data);
      var whole := |data| - |data| % 64;
      if |data| >= 64 { chain := Body(h, chain, data[..whole]); }
      CopyInto(buffer, 0, data[whole..]);
      assert buffer[..|data| % 64] == data[whole..];
    }

    /** A piece that does not fill the buffer. */
    method Keep(data: seq<byte>, used: nat, ghost before: seq<byte>)
      requires buffer.Length == 64 && used + |data| < 64 && Streamed(h, before, chain, buffer[..used])
      modifies buffer
      ensures Streamed(h, before + data, chain, buffer[..used + |data|])
    {
      StreamedMore(h, before, chain, buffer[..used], data);
      hide *;
      ghost var tail := buffer[..used];
      CopyInto(buffer, used, data);
      assert buffer[..used + |data|] == tail + data;
    }

    /** A piece that fills it exactly. */
    method Complete(data: seq<byte>, used: nat, ghost before: seq<byte>)
      requires buffer.Length == 64 && used + |data| == 64 && Streamed(h, before, chain, buffer[..used])
      modifies this`chain, buffer
      ensures Streamed(h, before + data, chain, [])
    {
      StreamedBlocks(h, before, chain, buffer[..used], data);
      hide *;
      ghost var tail := buffer[..used];
      CopyInto(buffer, used, data);
      assert buffer[..] == tail + data;
      chain := Body(h, chain, buffer[..]);
    }

    /** More of the message, in a piece of any size. */
    method Update(data: seq<byte>)
      requires Valid()
      modifies this, buffer
      ensures Valid() && msg == old(msg) + data
    {
      hide Blocks, Streamed, Counts;
      var used := lo % 64;
      ghost var before := msg;
      UsedIs(lo, hi, |before|);
      Count(|data|, |before|);
      UsedIs(lo, hi, |before| + |data|);
      Remaining(|before|, |data|);
      msg := msg + data;
      if used == 0 {
        assert buffer[..0] == [];
        Absorb(data, before);
      } else {
        var available := 64 - used;
        if |data| < available {
          Keep(data, used, before);
        } else {
          Complete(data[..available], used, before);
          Absorb(data[available..], before + data[..available]);
          assert (before + data[..available]) + data[available..] == msg;
        }
      }
    }

    /** The one bit goes in behind the tail; when the bit count has no room after it, this block is done with zeros. */
    method CloseTail(used: nat) returns (next: nat, ghost first: seq<byte>)
      requires buffer.Length == 64 && used < 64
      modifies this`chain, buffer
      ensures next <= 56 && |first| % 64 == 0 && chain == Blocks(h, old(chain), first)
      ensures first + buffer[..next] ==
              old(buffer[..used]) + [0x80] + Zeros(if used < 56 then 0 else 63 - used)
      ensures next == if used < 56 then used + 1 else 0
    {
      BlocksStep(h, chain, []);
      hide *;
      ghost var tail := buffer[..used];
      CopyInto(buffer, used, [0x80]);
      next, first := used + 1, [];
      assert buffer[..next] == tail + [0x80];
      if 64 - next < 8 {
        CopyInto(buffer, next, Zeros(64 - next));
        first := buffer[..];
        assert first == tail + [0x80] + Zeros(64 - next);
        chain := Body(h, chain, buffer[..]);
        next := 0;
      }
    }

    /** Zeros and the bit count complete the last block. */
    method CloseBlock(used: nat, ghost n: nat)
      requires buffer.Length == 64 && used <= 56 && Counts(lo, hi, n)
      modifies this`chain, buffer
      ensures chain == Blocks(h, old(chain), old(buffer[..used]) + Zeros(56 - used) + ToLE((8 * n) % (WORD * WORD), 8))
    {
      CountBytes(lo, hi, n);
      var bits := (8 * lo) % WORD;
      hide *;
      ghost var b0 := buffer[..];
      CopyInto(buffer, used, Zeros(64 - used - 8));
      CopyInto(buffer, 56, ToLE(bits, 4));
      CopyInto(buffer, 60, ToLE(hi, 4));
      LastBlock(b0, used, ToLE(bits, 4), ToLE(hi, 4));
      chain := Body(h, chain, buffer[..]);
    }

    /** The padding goes in behind the tail, in one block or in two. */
    method Final() returns (result: R)
      requires Valid()
      modifies this, buffer
      ensures result == Blocks(h, h.init, Padded(old(msg)))
    {
      ghost var r0, tail, n := chain, buffer[..lo % 64], |msg|;
      PaddedEnds(h, msg, chain, tail);
      hide *;
      var next;
      ghost var first;
      next, first := CloseTail(lo % 64);
      ghost var rest := buffer[..next];
      CloseBlock(next, n);
      PaddingIs(tail, next, first, rest, n);
      BlocksSplit(h, r0, first, rest + Zeros(56 - next) + ToLE((8 * n) % (WORD * WORD), 8));
      result := chain;
      chain, lo, hi := h.zero, 0, 0;
      CopyInto(buffer, 0, Zeros(64));
    }
  }

  lemma LastBlock(b: seq<byte>, used: nat, low: seq<byte>, high: seq<byte>)
    requires |b| == 64 && used <= 56 && |low| == |high| == 4
    ensures Splice(Splice(Splice(b, used, Zeros(56 - used)), 56, low), 60, high) == b[..used] + Zeros(56 - used) + (low + high)
  {}

  /** How many bytes are in the buffer after a piece. */
  lemma Remaining(n: nat, size: nat)
    ensures (n + size) % 64 == if n % 64 + size < 64 then n % 64 + size else (size - (64 - n % 64)) % 64
  {}

  /** The block or blocks that were closed are the tail and its padding. */
  lemma PaddingIs(tail: seq<byte>, next: nat, first: seq<byte>, rest: seq<byte>, n: nat)
    requires |tail| < 64 && next == (if |tail| < 56 then |tail| + 1 else 0)
    requires first + rest == tail + [0x80] + Zeros(if |tail| < 56 then 0 else 63 - |tail|)
    ensures first + (rest + Zeros(56 - next) + ToLE((8 * n) % (WORD * WORD), 8)) == tail + Padding(|tail|, n)
  {
    hide ToLE;
    var count := ToLE((8 * n) % (WORD * WORD), 8);
    assert first + (rest + Zeros(56 - next) + count) == (first + rest) + Zeros(56 - next) + count;
    assert Zeros(if |tail| < 56 then 0 else 63 - |tail|) + Zeros(56 - next) == Zeros((119 - |tail|) % 64);
  }

  lemma Absorbed<R>(h: Hash<R>, before: seq<byte>, r: R, data: seq<byte>)
    requires Streamed(h, before, r, [])
    ensures var whole := |data| - |data| % 64;
            Streamed(h, before + data, if |data| >= 64 then Blocks(h, r, data[..whole]) else r, data[whole..])
  {
    hide *;
    var n := |data| - |data| % 64;
    var whole, rest := data[..n], data[n..];
    assert [] + rest == rest && data == whole + rest && (before + whole) + rest == before + data;
    if |data| >= 64 {
      assert [] + whole == whole;
      StreamedBlocks(h, before, r, [], whole);
      StreamedMore(h, before + whole, Blocks(h, r, whole), [], rest);
    } else {
      assert before + whole == before;
      StreamedMore(h, before, r, [], rest);
    }
  }

  /** The tail's length is what the low counter says it is. */
  lemma UsedIs(lo: nat, hi: nat, n: nat)
    requires Counts(lo, hi, n)
    ensures lo % 64 == n % 64 && lo < LO
  {}

  lemma EmptyStream<R>(h: Hash<R>)
    ensures Streamed(h, [], h.init, []) && Counts(0, 0, 0)
  {}
}
