/** The MD5 block function of lib_util/md5.c, and that it is the one of section 3.4 of RFC 1321. */
module Md5Block {
  import opened Bytes

  /** The four registers. */
  datatype Chain = Chain(a: bv32, b: bv32, c: bv32, d: bv32)

  const INIT := Chain(0x67452301, 0xefcdab89, 0x98badcfe, 0x10325476)

  /** Which word of the block a step takes, its constant and its shift. */
  datatype Op = Op(word: nat, constant: bv32, shift: nat)

  /** The sixty-four steps as they are written out, with their words, constants and shifts. */
  function OpAt(i: nat): Op {
    match i
    case 0 => Op(0, 0xd76aa478, 7)
    case 1 => Op(1, 0xe8c7b756, 12)
    case 2 => Op(2, 0x242070db, 17)
    case 3 => Op(3, 0xc1bdceee, 22)
    case 4 => Op(4, 0xf57c0faf, 7)
    case 5 => Op(5, 0x4787c62a, 12)
    case 6 => Op(6, 0xa8304613, 17)
    case 7 => Op(7, 0xfd469501, 22)
    case 8 => Op(8, 0x698098d8, 7)
    case 9 => Op(9, 0x8b44f7af, 12)
    case 10 => Op(10, 0xffff5bb1, 17)
    case 11 => Op(11, 0x895cd7be, 22)
    case 12 => Op(12, 0x6b901122, 7)
    case 13 => Op(13, 0xfd987193, 12)
    case 14 => Op(14, 0xa679438e, 17)
    case 15 => Op(15, 0x49b40821, 22)
    case 16 => Op(1, 0xf61e2562, 5)
    case 17 => Op(6, 0xc040b340, 9)
    case 18 => Op(11, 0x265e5a51, 14)
    case 19 => Op(0, 0xe9b6c7aa, 20)
    case 20 => Op(5, 0xd62f105d, 5)
    case 21 => Op(10, 0x02441453, 9)
    case 22 => Op(15, 0xd8a1e681, 14)
    case 23 => Op(4, 0xe7d3fbc8, 20)
    case 24 => Op(9, 0x21e1cde6, 5)
    case 25 => Op(14, 0xc33707d6, 9)
    case 26 => Op(3, 0xf4d50d87, 14)
    case 27 => Op(8, 0x455a14ed, 20)
    case 28 => Op(13, 0xa9e3e905, 5)
    case 29 => Op(2, 0xfcefa3f8, 9)
    case 30 => Op(7, 0x676f02d9, 14)
    case 31 => Op(12, 0x8d2a4c8a, 20)
    case 32 => Op(5, 0xfffa3942, 4)
    case 33 => Op(8, 0x8771f681, 11)
    case 34 => Op(11, 0x6d9d6122, 16)
    case 35 => Op(14, 0xfde5380c, 23)
    case 36 => Op(1, 0xa4beea44, 4)
    case 37 => Op(4, 0x4bdecfa9, 11)
    case 38 => Op(7, 0xf6bb4b60, 16)
    case 39 => Op(10, 0xbebfbc70, 23)
    case 40 => Op(13, 0x289b7ec6, 4)
    case 41 => Op(0, 0xeaa127fa, 11)
    case 42 => Op(3, 0xd4ef3085, 16)
    case 43 => Op(6, 0x04881d05, 23)
    case 44 => Op(9, 0xd9d4d039, 4)
    case 45 => Op(12, 0xe6db99e5, 11)
    case 46 => Op(15, 0x1fa27cf8, 16)
    case 47 => Op(2, 0xc4ac5665, 23)
    case 48 => Op(0, 0xf4292244, 6)
    case 49 => Op(7, 0x432aff97, 10)
    case 50 => Op(14, 0xab9423a7, 15)
    case 51 => Op(5, 0xfc93a039, 21)
    case 52 => Op(12, 0x655b59c3, 6)
    case 53 => Op(3, 0x8f0ccc92, 10)
    case 54 => Op(10, 0xffeff47d, 15)
    case 55 => Op(1, 0x85845dd1, 21)
    case 56 => Op(8, 0x6fa87e4f, 6)
    case 57 => Op(15, 0xfe2ce6e0, 10)
    case 58 => Op(6, 0xa3014314, 15)
    case 59 => Op(13, 0x4e0811a1, 21)
    case 60 => Op(4, 0xf7537e82, 6)
    case 61 => Op(11, 0xbd3af235, 10)
    case 62 => Op(2, 0x2ad7d2bb, 15)
    case 63 => Op(9, 0xeb86d391, 21)
    case _ => Op(0, 0, 0)
  }

  /** The optimized functions of the four rounds. */
  function F(x: bv32, y: bv32, z: bv32): bv32 { z ^ (x & (y ^ z)) }
  function G(x: bv32, y: bv32, z: bv32): bv32 { y ^ (z & (x ^ y)) }
  function H(x: bv32, y: bv32, z: bv32): bv32 { (x ^ y) ^ z }
  function H2(x: bv32, y: bv32, z: bv32): bv32 { x ^ (y ^ z) }
  function I(x: bv32, y: bv32, z: bv32): bv32 { y ^ (x | !z) }

  function Rotated(w: bv32, s: nat): bv32
    requires s <= 32
  {
    (w << s) | (w >> (32 - s))
  }

  function Plus(x: bv32, y: bv32): bv32 { x + y }

  function SourceSum(f: bv32, a: bv32, x: bv32, t: bv32): bv32 { a + (f + x + t) }

  /** What STEP leaves in its first register. */
  function Stepped(f: bv32, a: bv32, b: bv32, x: bv32, op: Op): bv32 {
    Plus(Rotated(SourceSum(f, a, x, op.constant), Min(op.shift, 32)), b)
  }

  /** SET: four bytes, the least significant first. */
  function Word(block: seq<byte>, n: nat): bv32 {
    if 4 * n + 4 <= |block| then
      (block[4 * n] as bv32) | ((block[4 * n + 1] as bv32) << 8) | ((block[4 * n + 2] as bv32) << 16)
      | ((block[4 * n + 3] as bv32) << 24)
    else 0
  }

  function RoundFunction(round: nat, even: bool, x: bv32, y: bv32, z: bv32): bv32 {
    if round == 0 then F(x, y, z)
    else if round == 1 then G(x, y, z)
    else if round == 2 then (if even then H(x, y, z) else H2(x, y, z))
    else I(x, y, z)
  }

  /** Four steps, which change a, d, c and b in turn, each from the others as they then are. */
  function Quad(block: seq<byte>, k: nat, r: Chain): Chain
    requires k < 16
  {
    var o0, o1, o2, o3 := OpAt(4 * k), OpAt(4 * k + 1), OpAt(4 * k + 2), OpAt(4 * k + 3);
    var n := k / 4;
    var a := Stepped(RoundFunction(n, true, r.b, r.c, r.d), r.a, r.b, Word(block, o0.word), o0);
    var d := Stepped(RoundFunction(n, false, a, r.b, r.c), r.d, a, Word(block, o1.word), o1);
    var c := Stepped(RoundFunction(n, true, d, a, r.b), r.c, d, Word(block, o2.word), o2);
    var b := Stepped(RoundFunction(n, false, c, d, a), r.b, c, Word(block, o3.word), o3);
    Chain(a, b, c, d)
  }

  function Quads(block: seq<byte>, k: nat, r: Chain): Chain
    requires k <= 16
  {
    if k == 0 then r else Quad(block, k - 1, Quads(block, k - 1, r))
  }

  function Added(r: Chain, s: Chain): Chain { Chain(r.a + s.a, r.b + s.b, r.c + s.c, r.d + s.d) }

  /** One block: sixty-four steps, and the saved registers added. */
  function Block(r: Chain, block: seq<byte>): Chain { Added(Quads(block, 16, r), r) }

  /** The functions as section 3.4 of RFC 1321 defines them. */
  function RfcFunction(i: nat, x: bv32, y: bv32, z: bv32): bv32 {
    if i < 16 then (x & y) | (!x & z)
    else if i < 32 then (x & z) | (y & !z)
    else if i < 48 then x ^ y ^ z
    else y ^ (x | !z)
  }

  /** Which word step i takes, and how far it shifts, by the pattern of its round. */
  function RfcWord(i: nat): nat {
    if i < 16 then i else if i < 32 then (5 * i + 1) % 16 else if i < 48 then (3 * i + 5) % 16 else (7 * i) % 16
  }

  function RfcShift(i: nat): nat {
    var s := if i < 16 then [7, 12, 17, 22] else if i < 32 then [5, 9, 14, 20] else if i < 48 then [4, 11, 16, 23] else [6, 10, 15, 21];
    s[i % 4]
  }

  function RfcSum(f: bv32, a: bv32, x: bv32, t: bv32): bv32 { ((a + f) + x) + t }

  /** b + ((a + f + X[k] + T[i]) <<< s), the one new word of an operation of RFC 1321. */
  function RfcOp(f: bv32, a: bv32, b: bv32, x: bv32, t: bv32, s: nat): bv32 {
    Plus(b, Rotated(RfcSum(f, a, x, t), Min(s, 32)))
  }

  /** One operation, and the registers renamed for the next. */
  function RfcStep(block: seq<byte>, i: nat, r: Chain): Chain {
    var w := RfcOp(RfcFunction(i, r.b, r.c, r.d), r.a, r.b, Word(block, RfcWord(i)), OpAt(i).constant, RfcShift(i));
    Chain(r.d, w, r.b, r.c)
  }

  function RfcSteps(block: seq<byte>, i: nat, r: Chain): Chain
    requires i <= 64
  {
    if i == 0 then r else RfcStep(block, i - 1, RfcSteps(block, i - 1, r))
  }

  lemma FunctionF(x: bv32, y: bv32, z: bv32)
    ensures F(x, y, z) == (x & y) | (!x & z)
  {}

  lemma FunctionG(x: bv32, y: bv32, z: bv32)
    ensures G(x, y, z) == (x & z) | (y & !z)
  {}

  lemma FunctionH(x: bv32, y: bv32, z: bv32)
    ensures H(x, y, z) == x ^ y ^ z == H2(x, y, z)
  {}

  /** The optimized functions are the defined ones. */
  lemma FunctionsMatch(i: nat, even: bool, x: bv32, y: bv32, z: bv32)
    requires i < 64
    ensures RoundFunction(i / 16, even, x, y, z) == RfcFunction(i, x, y, z)
  {
    FunctionF(x, y, z);
    FunctionG(x, y, z);
    FunctionH(x, y, z);
    hide F, G, H, H2;
  }

  lemma SumsMatch(f: bv32, a: bv32, x: bv32, t: bv32)
    ensures SourceSum(f, a, x, t) == RfcSum(f, a, x, t)
  {}

  lemma PlusCommutes(x: bv32, y: bv32)
    ensures Plus(x, y) == Plus(y, x)
  {}

  lemma OpsMatch(f: bv32, a: bv32, b: bv32, x: bv32, op: Op)
    ensures Stepped(f, a, b, x, op) == RfcOp(f, a, b, x, op.constant, op.shift)
  {
    hide Rotated, SourceSum, RfcSum, Plus;
    SumsMatch(f, a, x, op.constant);
    PlusCommutes(Rotated(SourceSum(f, a, x, op.constant), Min(op.shift, 32)), b);
  }

  /** The unrolled code takes its words and shifts in the pattern the RFC gives. */
  lemma TableMatches(i: nat)
    requires i < 64
    ensures OpAt(i).word == RfcWord(i) && OpAt(i).shift == RfcShift(i)
  {
    match i
    case 0 => case 1 => case 2 => case 3 => case 4 => case 5 => case 6 => case 7 =>
    case 8 => case 9 => case 10 => case 11 => case 12 => case 13 => case 14 => case 15 =>
    case 16 => case 17 => case 18 => case 19 => case 20 => case 21 => case 22 => case 23 =>
    case 24 => case 25 => case 26 => case 27 => case 28 => case 29 => case 30 => case 31 =>
    case 32 => case 33 => case 34 => case 35 => case 36 => case 37 => case 38 => case 39 =>
    case 40 => case 41 => case 42 => case 43 => case 44 => case 45 => case 46 => case 47 =>
    case 48 => case 49 => case 50 => case 51 => case 52 => case 53 => case 54 => case 55 =>
    case 56 => case 57 => case 58 => case 59 => case 60 => case 61 => case 62 => case 63 =>
    case _ =>
  }

  /** One STEP is one operation of the RFC. */
  lemma StepMatches(block: seq<byte>, i: nat, even: bool, r: Chain)
    requires i < 64
    ensures Stepped(RoundFunction(i / 16, even, r.b, r.c, r.d), r.a, r.b, Word(block, OpAt(i).word), OpAt(i))
            == RfcStep(block, i, r).b
  {
    hide F, G, H, H2, I, Stepped, RfcOp, Word, RfcFunction, RoundFunction, RfcWord, RfcShift, OpAt;
    TableMatches(i);
    FunctionsMatch(i, even, r.b, r.c, r.d);
    OpsMatch(RfcFunction(i, r.b, r.c, r.d), r.a, r.b, Word(block, OpAt(i).word), OpAt(i));
  }

  lemma RfcNames(block: seq<byte>, i: nat, r: Chain)
    ensures RfcStep(block, i, r) == Chain(r.d, RfcStep(block, i, r).b, r.b, r.c)
  {}

  /** Four of them bring the registers back to their names. */
  lemma QuadMatches(block: seq<byte>, k: nat, r: Chain)
    requires k < 16
    ensures Quad(block, k, r) ==
            RfcStep(block, 4 * k + 3, RfcStep(block, 4 * k + 2, RfcStep(block, 4 * k + 1, RfcStep(block, 4 * k, r))))
  {
    hide Stepped, RoundFunction, Word, OpAt, RfcStep;
    var r1 := RfcStep(block, 4 * k, r);
    var r2 := RfcStep(block, 4 * k + 1, r1);
    var r3 := RfcStep(block, 4 * k + 2, r2);
    assert k / 4 == (4 * k) / 16 == (4 * k + 1) / 16 == (4 * k + 2) / 16 == (4 * k + 3) / 16;
    RfcNames(block, 4 * k, r);
    RfcNames(block, 4 * k + 1, r1);
    RfcNames(block, 4 * k + 2, r2);
    RfcNames(block, 4 * k + 3, r3);
    StepMatches(block, 4 * k, true, r);
    StepMatches(block, 4 * k + 1, false, r1);
    StepMatches(block, 4 * k + 2, true, r2);
    StepMatches(block, 4 * k + 3, false, r3);
  }

  lemma {:induction false} QuadsMatch(block: seq<byte>, k: nat, r: Chain)
    requires k <= 16
    ensures Quads(block, k, r) == RfcSteps(block, 4 * k, r)
  {
    hide Quad, RfcStep;
    if k > 0 {
      QuadsMatch(block, k - 1, r);
      QuadMatches(block, k - 1, RfcSteps(block, 4 * k - 4, r));
      RfcFour(block, 4 * k - 4, r);
    }
  }

  lemma RfcFour(block: seq<byte>, i: nat, r: Chain)
    requires i + 4 <= 64
    ensures RfcSteps(block, i + 4, r) ==
            RfcStep(block, i + 3, RfcStep(block, i + 2, RfcStep(block, i + 1, RfcStep(block, i, RfcSteps(block, i, r)))))
  {
    hide RfcStep;
    assert RfcSteps(block, i + 2, r) == RfcStep(block, i + 1, RfcSteps(block, i + 1, r));
    assert RfcSteps(block, i + 3, r) == RfcStep(block, i + 2, RfcSteps(block, i + 2, r));
  }

  /** The block function is the sixty-four operations of the RFC and its final additions. */
  lemma BlockMatches(r: Chain, block: seq<byte>)
    ensures Block(r, block) == Added(RfcSteps(block, 64, r), r)
  {
    hide Quads, RfcSteps;
    QuadsMatch(block, 16, r);
  }
}
