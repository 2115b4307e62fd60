/** Bytes, byte sequences and the fixed-width little-endian integers the libraries store in them. */
module Bytes {

  newtype byte = x: int | 0 <= x < 256

  datatype Option<+T> = None | Some(value: T)

  function Min(a: int, b: int): int { if a < b then a else b }

  /** `memcpy(s + at, data, |data|)` on a sequence. */
  function Splice<T>(s: seq<T>, at: nat, data: seq<T>): (r: seq<T>)
    requires at + |data| <= |s|
    ensures |r| == |s|
    ensures forall i :: 0 <= i < |s| ==> r[i] == if at <= i < at + |data| then data[i - at] else s[i]
  {
    s[..at] + data + s[at + |data|..]
  }

  function Zeros(n: nat): (s: seq<byte>)
    ensures |s| == n
  {
    seq(n, _ => 0)
  }

  function Pow256(k: nat): (p: nat)
    ensures p > 0
  {
    if k == 0 then 1 else 256 * Pow256(k - 1)
  }

  function ToLE(n: nat, k: nat): (s: seq<byte>)
    ensures |s| == k
  {
    if k == 0 then [] else [(n % 256) as byte] + ToLE(n / 256, k - 1)
  }

  function FromLE(s: seq<byte>): (n: nat)
    ensures n < Pow256(|s|)
  {
    if s == [] then 0 else s[0] as nat + 256 * FromLE(s[1..])
  }

  lemma {:induction false} LittleEndianRoundTrip(n: nat, k: nat)
    requires n < Pow256(k)
    ensures FromLE(ToLE(n, k)) == n
  {
    if k != 0 {
      LittleEndianRoundTrip(n / 256, k - 1);
      assert ToLE(n, k)[1..] == ToLE(n / 256, k - 1);
    }
  }

  lemma {:induction false} LittleEndianInjective(a: seq<byte>, b: seq<byte>)
    requires |a| == |b| && FromLE(a) == FromLE(b)
    ensures a == b
  {
    if a != [] {
      LittleEndianInjective(a[1..], b[1..]);
      assert a == [a[0]] + a[1..] && b == [b[0]] + b[1..];
    }
  }

  predicate IsDigit(b: byte) { 48 <= b <= 57 }

  predicate IsAlpha(b: byte) { 97 <= b <= 122 || 65 <= b <= 90 }

  predicate IsHexDigit(b: byte) { IsDigit(b) || 97 <= b <= 102 || 65 <= b <= 70 }

  function Flatten(pieces: seq<seq<byte>>): seq<byte> {
    if pieces == [] then [] else pieces[0] + Flatten(pieces[1..])
  }

  lemma {:induction false} FlattenOneMore(pieces: seq<seq<byte>>, data: seq<byte>)
    ensures Flatten(pieces + [data]) == Flatten(pieces) + data
    decreases |pieces|
  {
    var all := pieces + [data];
    if pieces == [] {
      assert all == [data] && all[1..] == [];
    } else {
      assert all[0] == pieces[0] && all[1..] == pieces[1..] + [data];
      FlattenOneMore(pieces[1..], data);
    }
  }

  /** `memcpy(a + at, data, |data|)`. */
  method CopyInto(a: array<byte>, at: nat, data: seq<byte>)
    requires at + |data| <= a.Length
    modifies a
    ensures a[..] == Splice(old(a[..]), at, data)
  {
    forall k | 0 <= k < |data| { a[at + k] := data[k]; }
  }
}
