/** Bytes in a ring: positions, the bytes between a read and a write pointer, and what writing outside them keeps. */
module RingBytes {
  import opened Bytes

  /** The position i bytes after `from` in a ring of `cap` bytes. */
  function Pos(from: nat, i: nat, cap: nat): nat {
    if from + i < cap then from + i else from + i - cap
  }

  /** The n bytes of the ring from `from` on. */
  function Ring(mem: seq<byte>, from: nat, n: nat): (r: seq<byte>)
    requires from <= |mem| && n <= |mem|
    ensures |r| == n
    ensures forall i :: 0 <= i < n ==> r[i] == mem[Pos(from, i, |mem|)]
  {
    seq(n, i requires 0 <= i < n => mem[Pos(from, i, |mem|)])
  }

  /** Different offsets within one turn are different positions. */
  lemma PosInjective(from: nat, i: nat, j: nat, cap: nat)
    requires from < cap && i < cap && j < cap && i != j
    ensures Pos(from, i, cap) != Pos(from, j, cap)
    ensures Pos(from, i, cap) < cap
  {}

  lemma PosAdd(from: nat, i: nat, j: nat, cap: nat)
    requires from < cap && i + j < cap
    ensures Pos(Pos(from, i, cap), j, cap) == Pos(from, i + j, cap)
  {}

  /** Writing a byte in the free part leaves the live bytes alone. */
  lemma WriteOutside(mem: seq<byte>, from: nat, n: nat, k: nat, b: byte)
    requires from < |mem| && n <= k < |mem|
    ensures Ring(mem[Pos(from, k, |mem|) := b], from, n) == Ring(mem, from, n)
  {
    forall i | 0 <= i < n ensures Pos(from, i, |mem|) != Pos(from, k, |mem|) {
      PosInjective(from, i, k, |mem|);
    }
  }

  /** How many bytes after `at` the position p lies: the inverse of Pos. */
  function Offset(at: nat, p: nat, cap: nat): (i: nat)
    requires at <= cap && p < cap
    ensures i < cap && Pos(at, i, cap) == p
  {
    if at <= p then p - at else p + cap - at
  }

  /** The ring with the bytes of src laid down from `at` on, around the end if need be. */
  function RingPut(mem: seq<byte>, at: nat, src: seq<byte>): (after: seq<byte>)
    requires at <= |mem|
    ensures |after| == |mem|
  {
    seq(|mem|, p requires 0 <= p < |mem| =>
      if Offset(at, p, |mem|) < |src| then src[Offset(at, p, |mem|)] else mem[p])
  }

  /** Bytes laid down right after the live ones extend the ring by exactly those bytes. */
  lemma RingAppended(mem: seq<byte>, from: nat, live: nat, src: seq<byte>)
    requires from < |mem| && live + |src| <= |mem|
    ensures Pos(from, live, |mem|) <= |mem|
    ensures Ring(RingPut(mem, Pos(from, live, |mem|), src), from, live + |src|) == Ring(mem, from, live) + src
  {
    var cap := |mem|;
    var r := Ring(RingPut(mem, Pos(from, live, cap), src), from, live + |src|);
    forall i | 0 <= i < live + |src| ensures r[i] == (Ring(mem, from, live) + src)[i] {
      if live <= i {
        PosAdd(from, live, i - live, cap);
      } else if src != [] {
        PosInjective(from, i, live, cap);
      }
    }
  }

  lemma RingSplit(mem: seq<byte>, from: nat, n: nat, m: nat)
    requires from < |mem| && n + m <= |mem| && n < |mem|
    ensures Ring(mem, from, n + m) == Ring(mem, from, n) + Ring(mem, Pos(from, n, |mem|), m)
  {
    forall i | n <= i < n + m ensures Pos(from, i, |mem|) == Pos(Pos(from, n, |mem|), i - n, |mem|) {
      PosAdd(from, n, i - n, |mem|);
    }
  }

  /** A stretch that does not wrap is a slice. */
  lemma RingSlice(mem: seq<byte>, from: nat, n: nat)
    requires from + n <= |mem|
    ensures Ring(mem, from, n) == mem[from..from + n]
  {}

  lemma RingPrefix(mem: seq<byte>, from: nat, n: nat, m: nat)
    requires from <= |mem| && m <= n <= |mem|
    ensures Ring(mem, from, n)[..m] == Ring(mem, from, m)
  {}
}
