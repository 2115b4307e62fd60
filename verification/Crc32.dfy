/** CRC-32 as lib_util/util_crc32.cpp computes it, against its bitwise definition. */
module Crc32 {
  import opened Bytes

  /** The reflected generator polynomial of CRC-32. */
  const POLYNOMIAL: bv32 := 0xEDB8_8320

  function Xor(a: bv32, b: bv32): bv32 { a ^ b }

  /** A byte, zero-extended. */
  function Extend(b: byte): bv32 { (b as bv8) as bv32 }

  function LowByte(c: bv32): byte { ((c & 0xFF) as bv8) as byte }

  /** A 32-bit word as the four bytes a little-endian store leaves in memory. */
  function StoreWord(c: bv32): (b: seq<byte>)
    ensures |b| == 4
  {
    [LowByte(c), LowByte(c >> 8), LowByte(c >> 16), LowByte(c >> 24)]
  }

  function LoadWord(b: seq<byte>): bv32
    requires |b| == 4
  {
    Extend(b[0]) | (Extend(b[1]) << 8) | (Extend(b[2]) << 16) | (Extend(b[3]) << 24)
  }

  /** One shift-and-xor step of the bitwise definition. */
  function BitStep(c: bv32): bv32 {
    if c & 1 == 1 then Xor(c >> 1, POLYNOMIAL) else c >> 1
  }

  function BitSteps(c: bv32, n: nat): bv32
    decreases n
  {
    if n == 0 then c else BitSteps(BitStep(c), n - 1)
  }

  function ByteStep(c: bv32): bv32 { BitSteps(c, 8) }

  /** The register after `data`: each byte is xor-ed in and shifted out bit by bit. */
  function Register(crc: bv32, data: seq<byte>): bv32
    decreases |data|
  {
    if data == [] then crc else Register(ByteStep(Xor(crc, Extend(data[0]))), data[1..])
  }

  function Crc(data: seq<byte>): bv32 {
    Xor(Register(0xFFFF_FFFF, data), 0xFFFF_FFFF)
  }

  // ---- linearity ----

  lemma BitwiseShift(a: bv32, b: bv32)
    ensures (a ^ b) >> 1 == (a >> 1) ^ (b >> 1)
  {}

  lemma XorShift(a: bv32, b: bv32)
    ensures Xor(a, b) >> 1 == Xor(a >> 1, b >> 1)
  {
    calc {
      Xor(a, b) >> 1;
      (a ^ b) >> 1;
      { BitwiseShift(a, b); }
      (a >> 1) ^ (b >> 1);
      Xor(a >> 1, b >> 1);
    }
  }

  lemma XorParity(a: bv32, b: bv32)
    ensures Xor(a, b) & 1 == Xor(a & 1, b & 1)
  {}

  lemma XorAssociates(a: bv32, b: bv32, c: bv32)
    ensures Xor(Xor(a, b), c) == Xor(a, Xor(b, c))
  {}

  lemma XorCommutes(a: bv32, b: bv32)
    ensures Xor(a, b) == Xor(b, a)
  {}

  lemma XorSelf(a: bv32)
    ensures Xor(a, a) == 0
  {}

  lemma XorZero(a: bv32)
    ensures Xor(0, a) == a
    ensures Xor(a, 0) == a
  {}

  lemma XorGroup(a: bv32, b: bv32, p: bv32)
    ensures Xor(Xor(a, p), Xor(b, p)) == Xor(a, b)
    ensures Xor(Xor(a, p), b) == Xor(Xor(a, b), p)
    ensures Xor(a, Xor(b, p)) == Xor(Xor(a, b), p)
  {
    hide Xor;
    XorAssociates(a, b, p); XorAssociates(a, p, b); XorCommutes(b, p);
    XorAssociates(a, p, Xor(b, p)); XorCommutes(p, Xor(b, p));
    XorAssociates(b, p, p); XorSelf(p); XorZero(b);
  }

  lemma LowBit(a: bv32)
    ensures a & 1 == 0 || a & 1 == 1
    ensures Xor(0, 0) == 0 && Xor(0, 1) == 1 && Xor(1, 0) == 1 && Xor(1, 1) == 0
  {}

  lemma BitStepLinear(a: bv32, b: bv32)
    ensures BitStep(Xor(a, b)) == Xor(BitStep(a), BitStep(b))
  {
    hide Xor;
    LowBit(a);
    LowBit(b);
    XorShift(a, b);
    XorParity(a, b);
    XorGroup(a >> 1, b >> 1, POLYNOMIAL);
  }

  lemma {:induction false} BitStepsLinear(a: bv32, b: bv32, n: nat)
    ensures BitSteps(Xor(a, b), n) == Xor(BitSteps(a, n), BitSteps(b, n))
    decreases n
  {
    hide Xor, BitStep;
    if n != 0 {
      BitStepLinear(a, b);
      BitStepsLinear(BitStep(a), BitStep(b), n - 1);
    }
  }

  lemma ByteStepLinear(a: bv32, b: bv32)
    ensures ByteStep(Xor(a, b)) == Xor(ByteStep(a), ByteStep(b))
  {
    hide Xor, BitSteps;
    BitStepsLinear(a, b, 8);
  }

  lemma ByteStepIs(c: bv32, d: bv32)
    requires d == BitStep(BitStep(BitStep(BitStep(BitStep(BitStep(BitStep(BitStep(c))))))))
    ensures ByteStep(c) == d
  {
    hide BitStep;
    assert BitSteps(c, 8) == BitSteps(BitStep(BitStep(BitStep(BitStep(c)))), 4);
  }

  // ---- the table ----

  function Row0(k: bv32): bv32 {
    if k == 0 then 0x00000000 else if k == 1 then 0x77073096 else if k == 2 then 0xee0e612c else if k == 3 then 0x990951ba else
    if k == 4 then 0x076dc419 else if k == 5 then 0x706af48f else if k == 6 then 0xe963a535 else if k == 7 then 0x9e6495a3 else
    if k == 8 then 0x0edb8832 else if k == 9 then 0x79dcb8a4 else if k == 10 then 0xe0d5e91e else if k == 11 then 0x97d2d988 else
    if k == 12 then 0x09b64c2b else if k == 13 then 0x7eb17cbd else if k == 14 then 0xe7b82d07 else 0x90bf1d91
  }

  function Row1(k: bv32): bv32 {
    if k == 0 then 0x1db71064 else if k == 1 then 0x6ab020f2 else if k == 2 then 0xf3b97148 else if k == 3 then 0x84be41de else
    if k == 4 then 0x1adad47d else if k == 5 then 0x6ddde4eb else if k == 6 then 0xf4d4b551 else if k == 7 then 0x83d385c7 else
    if k == 8 then 0x136c9856 else if k == 9 then 0x646ba8c0 else if k == 10 then 0xfd62f97a else if k == 11 then 0x8a65c9ec else
    if k == 12 then 0x14015c4f else if k == 13 then 0x63066cd9 else if k == 14 then 0xfa0f3d63 else 0x8d080df5
  }

  function Row2(k: bv32): bv32 {
    if k == 0 then 0x3b6e20c8 else if k == 1 then 0x4c69105e else if k == 2 then 0xd56041e4 else if k == 3 then 0xa2677172 else
    if k == 4 then 0x3c03e4d1 else if k == 5 then 0x4b04d447 else if k == 6 then 0xd20d85fd else if k == 7 then 0xa50ab56b else
    if k == 8 then 0x35b5a8fa else if k == 9 then 0x42b2986c else if k == 10 then 0xdbbbc9d6 else if k == 11 then 0xacbcf940 else
    if k == 12 then 0x32d86ce3 else if k == 13 then 0x45df5c75 else if k == 14 then 0xdcd60dcf else 0xabd13d59
  }

  function Row3(k: bv32): bv32 {
    if k == 0 then 0x26d930ac else if k == 1 then 0x51de003a else if k == 2 then 0xc8d75180 else if k == 3 then 0xbfd06116 else
    if k == 4 then 0x21b4f4b5 else if k == 5 then 0x56b3c423 else if k == 6 then 0xcfba9599 else if k == 7 then 0xb8bda50f else
    if k == 8 then 0x2802b89e else if k == 9 then 0x5f058808 else if k == 10 then 0xc60cd9b2 else if k == 11 then 0xb10be924 else
    if k == 12 then 0x2f6f7c87 else if k == 13 then 0x58684c11 else if k == 14 then 0xc1611dab else 0xb6662d3d
  }

  function Row4(k: bv32): bv32 {
    if k == 0 then 0x76dc4190 else if k == 1 then 0x01db7106 else if k == 2 then 0x98d220bc else if k == 3 then 0xefd5102a else
    if k == 4 then 0x71b18589 else if k == 5 then 0x06b6b51f else if k == 6 then 0x9fbfe4a5 else if k == 7 then 0xe8b8d433 else
    if k == 8 then 0x7807c9a2 else if k == 9 then 0x0f00f934 else if k == 10 then 0x9609a88e else if k == 11 then 0xe10e9818 else
    if k == 12 then 0x7f6a0dbb else if k == 13 then 0x086d3d2d else if k == 14 then 0x91646c97 else 0xe6635c01
  }

  function Row5(k: bv32): bv32 {
    if k == 0 then 0x6b6b51f4 else if k == 1 then 0x1c6c6162 else if k == 2 then 0x856530d8 else if k == 3 then 0xf262004e else
    if k == 4 then 0x6c0695ed else if k == 5 then 0x1b01a57b else if k == 6 then 0x8208f4c1 else if k == 7 then 0xf50fc457 else
    if k == 8 then 0x65b0d9c6 else if k == 9 then 0x12b7e950 else if k == 10 then 0x8bbeb8ea else if k == 11 then 0xfcb9887c else
    if k == 12 then 0x62dd1ddf else if k == 13 then 0x15da2d49 else if k == 14 then 0x8cd37cf3 else 0xfbd44c65
  }

  function Row6(k: bv32): bv32 {
    if k == 0 then 0x4db26158 else if k == 1 then 0x3ab551ce else if k == 2 then 0xa3bc0074 else if k == 3 then 0xd4bb30e2 else
    if k == 4 then 0x4adfa541 else if k == 5 then 0x3dd895d7 else if k == 6 then 0xa4d1c46d else if k == 7 then 0xd3d6f4fb else
    if k == 8 then 0x4369e96a else if k == 9 then 0x346ed9fc else if k == 10 then 0xad678846 else if k == 11 then 0xda60b8d0 else
    if k == 12 then 0x44042d73 else if k == 13 then 0x33031de5 else if k == 14 then 0xaa0a4c5f else 0xdd0d7cc9
  }

  function Row7(k: bv32): bv32 {
    if k == 0 then 0x5005713c else if k == 1 then 0x270241aa else if k == 2 then 0xbe0b1010 else if k == 3 then 0xc90c2086 else
    if k == 4 then 0x5768b525 else if k == 5 then 0x206f85b3 else if k == 6 then 0xb966d409 else if k == 7 then 0xce61e49f else
    if k == 8 then 0x5edef90e else if k == 9 then 0x29d9c998 else if k == 10 then 0xb0d09822 else if k == 11 then 0xc7d7a8b4 else
    if k == 12 then 0x59b33d17 else if k == 13 then 0x2eb40d81 else if k == 14 then 0xb7bd5c3b else 0xc0ba6cad
  }

  function Row8(k: bv32): bv32 {
    if k == 0 then 0xedb88320 else if k == 1 then 0x9abfb3b6 else if k == 2 then 0x03b6e20c else if k == 3 then 0x74b1d29a else
    if k == 4 then 0xead54739 else if k == 5 then 0x9dd277af else if k == 6 then 0x04db2615 else if k == 7 then 0x73dc1683 else
    if k == 8 then 0xe3630b12 else if k == 9 then 0x94643b84 else if k == 10 then 0x0d6d6a3e else if k == 11 then 0x7a6a5aa8 else
    if k == 12 then 0xe40ecf0b else if k == 13 then 0x9309ff9d else if k == 14 then 0x0a00ae27 else 0x7d079eb1
  }

  function Row9(k: bv32): bv32 {
    if k == 0 then 0xf00f9344 else if k == 1 then 0x8708a3d2 else if k == 2 then 0x1e01f268 else if k == 3 then 0x6906c2fe else
    if k == 4 then 0xf762575d else if k == 5 then 0x806567cb else if k == 6 then 0x196c3671 else if k == 7 then 0x6e6b06e7 else
    if k == 8 then 0xfed41b76 else if k == 9 then 0x89d32be0 else if k == 10 then 0x10da7a5a else if k == 11 then 0x67dd4acc else
    if k == 12 then 0xf9b9df6f else if k == 13 then 0x8ebeeff9 else if k == 14 then 0x17b7be43 else 0x60b08ed5
  }

  function RowA(k: bv32): bv32 {
    if k == 0 then 0xd6d6a3e8 else if k == 1 then 0xa1d1937e else if k == 2 then 0x38d8c2c4 else if k == 3 then 0x4fdff252 else
    if k == 4 then 0xd1bb67f1 else if k == 5 then 0xa6bc5767 else if k == 6 then 0x3fb506dd else if k == 7 then 0x48b2364b else
    if k == 8 then 0xd80d2bda else if k == 9 then 0xaf0a1b4c else if k == 10 then 0x36034af6 else if k == 11 then 0x41047a60 else
    if k == 12 then 0xdf60efc3 else if k == 13 then 0xa867df55 else if k == 14 then 0x316e8eef else 0x4669be79
  }

  function RowB(k: bv32): bv32 {
    if k == 0 then 0xcb61b38c else if k == 1 then 0xbc66831a else if k == 2 then 0x256fd2a0 else if k == 3 then 0x5268e236 else
    if k == 4 then 0xcc0c7795 else if k == 5 then 0xbb0b4703 else if k == 6 then 0x220216b9 else if k == 7 then 0x5505262f else
    if k == 8 then 0xc5ba3bbe else if k == 9 then 0xb2bd0b28 else if k == 10 then 0x2bb45a92 else if k == 11 then 0x5cb36a04 else
    if k == 12 then 0xc2d7ffa7 else if k == 13 then 0xb5d0cf31 else if k == 14 then 0x2cd99e8b else 0x5bdeae1d
  }

  function RowC(k: bv32): bv32 {
    if k == 0 then 0x9b64c2b0 else if k == 1 then 0xec63f226 else if k == 2 then 0x756aa39c else if k == 3 then 0x026d930a else
    if k == 4 then 0x9c0906a9 else if k == 5 then 0xeb0e363f else if k == 6 then 0x72076785 else if k == 7 then 0x05005713 else
    if k == 8 then 0x95bf4a82 else if k == 9 then 0xe2b87a14 else if k == 10 then 0x7bb12bae else if k == 11 then 0x0cb61b38 else
    if k == 12 then 0x92d28e9b else if k == 13 then 0xe5d5be0d else if k == 14 then 0x7cdcefb7 else 0x0bdbdf21
  }

  function RowD(k: bv32): bv32 {
    if k == 0 then 0x86d3d2d4 else if k == 1 then 0xf1d4e242 else if k == 2 then 0x68ddb3f8 else if k == 3 then 0x1fda836e else
    if k == 4 then 0x81be16cd else if k == 5 then 0xf6b9265b else if k == 6 then 0x6fb077e1 else if k == 7 then 0x18b74777 else
    if k == 8 then 0x88085ae6 else if k == 9 then 0xff0f6a70 else if k == 10 then 0x66063bca else if k == 11 then 0x11010b5c else
    if k == 12 then 0x8f659eff else if k == 13 then 0xf862ae69 else if k == 14 then 0x616bffd3 else 0x166ccf45
  }

  function RowE(k: bv32): bv32 {
    if k == 0 then 0xa00ae278 else if k == 1 then 0xd70dd2ee else if k == 2 then 0x4e048354 else if k == 3 then 0x3903b3c2 else
    if k == 4 then 0xa7672661 else if k == 5 then 0xd06016f7 else if k == 6 then 0x4969474d else if k == 7 then 0x3e6e77db else
    if k == 8 then 0xaed16a4a else if k == 9 then 0xd9d65adc else if k == 10 then 0x40df0b66 else if k == 11 then 0x37d83bf0 else
    if k == 12 then 0xa9bcae53 else if k == 13 then 0xdebb9ec5 else if k == 14 then 0x47b2cf7f else 0x30b5ffe9
  }

  function RowF(k: bv32): bv32 {
    if k == 0 then 0xbdbdf21c else if k == 1 then 0xcabac28a else if k == 2 then 0x53b39330 else if k == 3 then 0x24b4a3a6 else
    if k == 4 then 0xbad03605 else if k == 5 then 0xcdd70693 else if k == 6 then 0x54de5729 else if k == 7 then 0x23d967bf else
    if k == 8 then 0xb3667a2e else if k == 9 then 0xc4614ab8 else if k == 10 then 0x5d681b02 else if k == 11 then 0x2a6f2b94 else
    if k == 12 then 0xb40bbe37 else if k == 13 then 0xc30c8ea1 else if k == 14 then 0x5a05df1b else 0x2d02ef8d
  }


  /** The 256-entry table: sixteen rows of sixteen entries. */
  function Table(i: bv32): bv32 { Entry(i >> 4, i & 15) }

  function Entry(row: bv32, k: bv32): bv32 {
    if row < 8 then LowEntry(row, k) else HighEntry(row, k)
  }

  function LowEntry(row: bv32, k: bv32): bv32 {
    if row == 0 then Row0(k) else if row == 1 then Row1(k) else if row == 2 then Row2(k) else if row == 3 then Row3(k) else
    if row == 4 then Row4(k) else if row == 5 then Row5(k) else if row == 6 then Row6(k) else Row7(k)
  }

  function HighEntry(row: bv32, k: bv32): bv32 {
    if row == 8 then Row8(k) else if row == 9 then Row9(k) else if row == 10 then RowA(k) else if row == 11 then RowB(k) else
    if row == 12 then RowC(k) else if row == 13 then RowD(k) else if row == 14 then RowE(k) else RowF(k)
  }

  lemma FirstRowBasis()
    ensures ByteStep(1) == Row0(1) && ByteStep(2) == Row0(2) && ByteStep(4) == Row0(4) && ByteStep(8) == Row0(8)
  {
    ByteStepIs(1, Row0(1));
    ByteStepIs(2, Row0(2));
    ByteStepIs(4, Row0(4));
    ByteStepIs(8, Row0(8));
  }

  /** The low nibbles: the first row of the table. */
  lemma FirstRow(k: bv32)
    requires k < 16
    ensures ByteStep(k) == Row0(k)
  {
    hide ByteStep;
    FirstRowBasis();
    ByteStepIs(0, 0);
    ByteStepLinear(1, 2); ByteStepLinear(1, 4); ByteStepLinear(2, 4);
    ByteStepLinear(1, 6); ByteStepLinear(1, 8); ByteStepLinear(2, 8);
    ByteStepLinear(1, 10); ByteStepLinear(4, 8); ByteStepLinear(1, 12);
    ByteStepLinear(2, 12); ByteStepLinear(1, 14);
  }

  lemma FirstColumnBasis()
    ensures ByteStep(0x10) == Row1(0) && ByteStep(0x20) == Row2(0) && ByteStep(0x40) == Row4(0) && ByteStep(0x80) == Row8(0)
  {
    ByteStepIs(0x10, Row1(0));
    ByteStepIs(0x20, Row2(0));
    ByteStepIs(0x40, Row4(0));
    ByteStepIs(0x80, Row8(0));
  }

  /** The high nibbles: the first entry of every row. */
  lemma FirstColumn()
    ensures ByteStep(0x10) == Row1(0) && ByteStep(0x20) == Row2(0) && ByteStep(0x30) == Row3(0)
    ensures ByteStep(0x40) == Row4(0) && ByteStep(0x50) == Row5(0) && ByteStep(0x60) == Row6(0)
    ensures ByteStep(0x70) == Row7(0) && ByteStep(0x80) == Row8(0) && ByteStep(0x90) == Row9(0)
    ensures ByteStep(0xA0) == RowA(0) && ByteStep(0xB0) == RowB(0) && ByteStep(0xC0) == RowC(0)
    ensures ByteStep(0xD0) == RowD(0) && ByteStep(0xE0) == RowE(0) && ByteStep(0xF0) == RowF(0)
  {
    hide ByteStep;
    FirstColumnBasis();
    ByteStepLinear(0x10, 0x20); ByteStepLinear(0x10, 0x40); ByteStepLinear(0x20, 0x40);
    ByteStepLinear(0x10, 0x60); ByteStepLinear(0x10, 0x80); ByteStepLinear(0x20, 0x80);
    ByteStepLinear(0x10, 0xA0); ByteStepLinear(0x40, 0x80); ByteStepLinear(0x10, 0xC0);
    ByteStepLinear(0x20, 0xC0); ByteStepLinear(0x10, 0xE0);
  }

  lemma RowXor1(k: bv32) requires k < 16 ensures Row1(k) == Xor(Row1(0), Row0(k)) {}
  lemma RowXor2(k: bv32) requires k < 16 ensures Row2(k) == Xor(Row2(0), Row0(k)) {}
  lemma RowXor3(k: bv32) requires k < 16 ensures Row3(k) == Xor(Row3(0), Row0(k)) {}
  lemma RowXor4(k: bv32) requires k < 16 ensures Row4(k) == Xor(Row4(0), Row0(k)) {}
  lemma RowXor5(k: bv32) requires k < 16 ensures Row5(k) == Xor(Row5(0), Row0(k)) {}
  lemma RowXor6(k: bv32) requires k < 16 ensures Row6(k) == Xor(Row6(0), Row0(k)) {}
  lemma RowXor7(k: bv32) requires k < 16 ensures Row7(k) == Xor(Row7(0), Row0(k)) {}
  lemma RowXor8(k: bv32) requires k < 16 ensures Row8(k) == Xor(Row8(0), Row0(k)) {}
  lemma RowXor9(k: bv32) requires k < 16 ensures Row9(k) == Xor(Row9(0), Row0(k)) {}
  lemma RowXorA(k: bv32) requires k < 16 ensures RowA(k) == Xor(RowA(0), Row0(k)) {}
  lemma RowXorB(k: bv32) requires k < 16 ensures RowB(k) == Xor(RowB(0), Row0(k)) {}
  lemma RowXorC(k: bv32) requires k < 16 ensures RowC(k) == Xor(RowC(0), Row0(k)) {}
  lemma RowXorD(k: bv32) requires k < 16 ensures RowD(k) == Xor(RowD(0), Row0(k)) {}
  lemma RowXorE(k: bv32) requires k < 16 ensures RowE(k) == Xor(RowE(0), Row0(k)) {}
  lemma RowXorF(k: bv32) requires k < 16 ensures RowF(k) == Xor(RowF(0), Row0(k)) {}

  lemma SplitIndex(i: bv32)
    requires i < 256
    ensures i >> 4 < 16 && i & 15 < 16 && i == Xor((i >> 4) << 4, i & 15)
  {}

  lemma LowEntryXor(row: bv32, k: bv32)
    requires 0 <= row < 8 && k < 16
    ensures LowEntry(row, k) == Xor(LowEntry(row, 0), Row0(k))
  {
    hide Xor, Row0, Row1, Row2, Row3, Row4, Row5, Row6, Row7, Row8, Row9, RowA, RowB, RowC, RowD, RowE, RowF;
    XorZero(Row0(k));
    RowZero();
    RowXor1(k); RowXor2(k); RowXor3(k); RowXor4(k);
    RowXor5(k); RowXor6(k); RowXor7(k);
  }

  lemma HighEntryXor(row: bv32, k: bv32)
    requires 8 <= row < 16 && k < 16
    ensures HighEntry(row, k) == Xor(HighEntry(row, 0), Row0(k))
  {
    hide Xor, Row0, Row1, Row2, Row3, Row4, Row5, Row6, Row7, Row8, Row9, RowA, RowB, RowC, RowD, RowE, RowF;
    RowXor8(k); RowXor9(k); RowXorA(k); RowXorB(k);
    RowXorC(k); RowXorD(k); RowXorE(k); RowXorF(k);
  }

  /** Table entries are linear in the two nibbles of their index. */
  lemma EntryXor(row: bv32, k: bv32)
    requires row < 16 && k < 16
    ensures Entry(row, k) == Xor(Entry(row, 0), Row0(k))
  {
    hide Xor, LowEntry, HighEntry, Row0;
    if row < 8 { LowEntryXor(row, k); } else { HighEntryXor(row, k); }
  }

  lemma RowZero()
    ensures Row0(0) == 0 && ByteStep(0) == 0
  {
    ByteStepIs(0, 0);
  }

  lemma Column(row: bv32)
    requires row < 16
    ensures ByteStep(row << 4) == Entry(row, 0)
  {
    hide ByteStep, Row0, Row1, Row2, Row3, Row4, Row5, Row6, Row7, Row8, Row9, RowA, RowB, RowC, RowD, RowE, RowF;
    FirstColumn();
    RowZero();
    NibbleShift(row);
  }

  lemma NibbleShift(row: bv32)
    requires row < 16
    ensures (row == 0 && row << 4 == 0x00) || (row == 1 && row << 4 == 0x10) || (row == 2 && row << 4 == 0x20) || (row == 3 && row << 4 == 0x30)
         || (row == 4 && row << 4 == 0x40) || (row == 5 && row << 4 == 0x50) || (row == 6 && row << 4 == 0x60) || (row == 7 && row << 4 == 0x70)
         || (row == 8 && row << 4 == 0x80) || (row == 9 && row << 4 == 0x90) || (row == 10 && row << 4 == 0xA0) || (row == 11 && row << 4 == 0xB0)
         || (row == 12 && row << 4 == 0xC0) || (row == 13 && row << 4 == 0xD0) || (row == 14 && row << 4 == 0xE0) || (row == 15 && row << 4 == 0xF0)
  {}

  /** Every table entry is eight shift-and-xor steps of its index. */
  lemma TableIsByteStep(i: bv32)
    requires i < 256
    ensures Table(i) == ByteStep(i)
  {
    hide ByteStep, Xor, Entry;
    SplitIndex(i);
    EntryXor(i >> 4, i & 15);
    Column(i >> 4);
    FirstRow(i & 15);
    ByteStepLinear((i >> 4) << 4, i & 15);
  }

  // ---- the loop ----

  lemma SplitRegister(crc: bv32, e: bv32)
    requires e < 256
    ensures Xor(crc, e) & 0xFF < 256
    ensures Xor(crc, e) == Xor((crc >> 8) << 8, Xor(crc, e) & 0xFF)
    ensures crc >> 8 < 0x100_0000
  {}

  lemma ShiftedStep(hi: bv32)
    requires hi < 0x100_0000
    ensures ByteStep(hi << 8) == hi
  {
    ByteStepIs(hi << 8, hi);
  }

  /** One turn of the source's loop: a table lookup and a shift are eight bit steps. */
  function TableStep(crc: bv32, b: byte): (r: bv32)
    ensures r == ByteStep(Xor(crc, Extend(b)))
  {
    hide ByteStep, Xor, Table;
    SplitRegister(crc, Extend(b));
    var i := Xor(crc, Extend(b)) & 0xFF;
    ShiftedStep(crc >> 8);
    TableIsByteStep(i);
    ByteStepLinear((crc >> 8) << 8, i);
    XorCommutes(Table(i), crc >> 8);
    Xor(Table(i), crc >> 8)
  }

  /** The table-driven loop computes the bitwise definition. */
  method ComputeCrc(data: seq<byte>) returns (crc: bv32)
    ensures crc == Crc(data)
  {
    hide ByteStep, Xor, TableStep;
    crc := 0xFFFF_FFFF;
    var p := 0;
    while p < |data|
      invariant p <= |data|
      invariant Register(crc, data[p..]) == Register(0xFFFF_FFFF, data)
    {
      assert data[p..][1..] == data[p + 1..];
      crc := TableStep(crc, data[p]);
      p := p + 1;
    }
    crc := Xor(crc, 0xFFFF_FFFF);
  }

  // ---- words in memory ----

  lemma ByteOfBits(x: bv8)
    ensures (x as byte) as bv8 == x
  {}

  lemma LowByteBits(c: bv32)
    ensures Extend(LowByte(c)) == c & 0xFF
  {
    ByteOfBits((c & 0xFF) as bv8);
  }

  lemma Reassemble(c: bv32)
    ensures (c & 0xFF) | (((c >> 8) & 0xFF) << 8) | (((c >> 16) & 0xFF) << 16) | (((c >> 24) & 0xFF) << 24) == c
  {}

  lemma WordRoundTrip(c: bv32)
    ensures LoadWord(StoreWord(c)) == c
  {
    hide LowByte, Extend;
    LowByteBits(c);
    LowByteBits(c >> 8);
    LowByteBits(c >> 16);
    LowByteBits(c >> 24);
    Reassemble(c);
  }

  // ---- what the checksum detects ----

  lemma BitStepInjective(a: bv32, b: bv32)
    requires BitStep(a) == BitStep(b)
    ensures a == b
  {}

  lemma {:induction false} BitStepsInjective(a: bv32, b: bv32, n: nat)
    requires BitSteps(a, n) == BitSteps(b, n)
    ensures a == b
    decreases n
  {
    hide BitStep;
    if n != 0 {
      BitStepsInjective(BitStep(a), BitStep(b), n - 1);
      BitStepInjective(a, b);
    }
  }

  lemma ByteStepInjective(a: bv32, b: bv32)
    requires ByteStep(a) == ByteStep(b)
    ensures a == b
  {
    hide BitSteps;
    BitStepsInjective(a, b, 8);
  }

  lemma XorInjective(a: bv32, b: bv32, e: bv32)
    requires Xor(a, e) == Xor(b, e)
    ensures a == b
  {}

  /** Equal data keeps different registers different. */
  lemma {:induction false} RegisterInjective(c: bv32, d: bv32, data: seq<byte>)
    requires Register(c, data) == Register(d, data)
    ensures c == d
    decreases |data|
  {
    hide ByteStep, Xor;
    if data != [] {
      var e := Extend(data[0]);
      RegisterInjective(ByteStep(Xor(c, e)), ByteStep(Xor(d, e)), data[1..]);
      ByteStepInjective(Xor(c, e), Xor(d, e));
      XorInjective(c, d, e);
    }
  }

  lemma {:induction false} RegisterConcat(c: bv32, a: seq<byte>, b: seq<byte>)
    ensures Register(c, a + b) == Register(Register(c, a), b)
    decreases |a|
  {
    hide ByteStep, Xor;
    if a == [] {
      assert a + b == b;
    } else {
      assert (a + b)[1..] == a[1..] + b;
      RegisterConcat(ByteStep(Xor(c, Extend(a[0]))), a[1..], b);
    }
  }

  /** Data xor-ed into the register after a byte step could have been xor-ed in before it, a byte higher. */
  lemma AbsorbLater(w: bv32, e: bv32)
    requires e < 0x100_0000
    ensures Xor(ByteStep(w), e) == ByteStep(Xor(w, e << 8))
  {
    hide ByteStep, Xor;
    ByteStepLinear(w, e << 8);
    ShiftedStep(e);
  }

  lemma ShiftFacts(e: bv32)
    requires e < 256
    ensures e << 8 < 0x100_0000 && e << 16 < 0x100_0000
    ensures (e << 8) << 8 == e << 16 && (e << 16) << 8 == e << 24
  {}

  function Word(c: bv32, b: seq<byte>): bv32
    requires |b| == 4
  {
    Xor(Xor(Xor(Xor(c, Extend(b[0])), Extend(b[1]) << 8), Extend(b[2]) << 16), Extend(b[3]) << 24)
  }

  lemma AbsorbOne(w: bv32, e: bv32)
    requires e < 256
    ensures Xor(ByteStep(w), e) == ByteStep(Xor(w, e << 8))
  {
    hide ByteStep, Xor;
    ShiftFacts(e);
    AbsorbLater(w, e);
  }

  lemma AbsorbTwo(w: bv32, e: bv32)
    requires e < 256
    ensures Xor(ByteStep(ByteStep(w)), e) == ByteStep(ByteStep(Xor(w, e << 16)))
  {
    hide ByteStep, Xor;
    ShiftFacts(e);
    AbsorbLater(ByteStep(w), e);
    AbsorbLater(w, e << 8);
  }

  lemma AbsorbThree(w: bv32, e: bv32)
    requires e < 256
    ensures Xor(ByteStep(ByteStep(ByteStep(w))), e) == ByteStep(ByteStep(ByteStep(Xor(w, e << 24))))
  {
    hide ByteStep, Xor;
    ShiftFacts(e);
    AbsorbTwo(ByteStep(w), e);
    AbsorbLater(w, e << 16);
  }

  lemma FourSteps(w: bv32, e1: bv32, e2: bv32, e3: bv32)
    requires e1 < 256 && e2 < 256 && e3 < 256
    ensures ByteStep(Xor(ByteStep(Xor(ByteStep(Xor(ByteStep(w), e1)), e2)), e3))
         == ByteStep(ByteStep(ByteStep(ByteStep(Xor(Xor(Xor(w, e1 << 8), e2 << 16), e3 << 24)))))
  {
    hide ByteStep, Xor;
    AbsorbOne(w, e1);
    AbsorbTwo(Xor(w, e1 << 8), e2);
    AbsorbThree(Xor(Xor(w, e1 << 8), e2 << 16), e3);
  }

  lemma RegisterOfFour(c: bv32, b: seq<byte>)
    requires |b| == 4
    ensures Register(c, b) == ByteStep(Xor(ByteStep(Xor(ByteStep(Xor(ByteStep(Xor(c, Extend(b[0]))), Extend(b[1]))), Extend(b[2]))), Extend(b[3])))
  {
    hide ByteStep, Xor, Extend;
    var r1 := ByteStep(Xor(c, Extend(b[0])));
    var r2 := ByteStep(Xor(r1, Extend(b[1])));
    assert Register(c, b) == Register(r1, b[1..]);
    assert Register(r1, b[1..]) == Register(r2, b[2..]) by { assert b[1..][1..] == b[2..]; }
    var r3 := ByteStep(Xor(r2, Extend(b[2])));
    assert Register(r2, b[2..]) == Register(r3, b[3..]) by { assert b[2..][1..] == b[3..]; }
    assert Register(r3, b[3..]) == ByteStep(Xor(r3, Extend(b[3])));
  }

  /** Four bytes are shifted in as one little-endian word. */
  lemma FourBytes(c: bv32, b: seq<byte>)
    requires |b| == 4
    ensures Register(c, b) == ByteStep(ByteStep(ByteStep(ByteStep(Word(c, b)))))
  {
    hide ByteStep, Xor;
    RegisterOfFour(c, b);
    ExtendSmall(b[1]); ExtendSmall(b[2]); ExtendSmall(b[3]);
    FourSteps(Xor(c, Extend(b[0])), Extend(b[1]), Extend(b[2]), Extend(b[3]));
  }

  lemma ExtendSmall(b: byte)
    ensures Extend(b) < 256
  {}

  lemma ByteRoundTrip(n: nat)
    requires n < 256
    ensures (n as bv8) as nat == n
  {
    var h, l := n / 16, n % 16;
    if h == 0 { assert n == l; }
  }

  lemma ExtendInjective(a: byte, b: byte)
    requires Extend(a) == Extend(b)
    ensures a == b
  {
    ByteRoundTrip(a as nat);
    ByteRoundTrip(b as nat);
  }

  lemma WordsDiffer(c: bv32, e0: bv32, e1: bv32, e2: bv32, e3: bv32, f0: bv32, f1: bv32, f2: bv32, f3: bv32)
    requires e0 < 256 && e1 < 256 && e2 < 256 && e3 < 256 && f0 < 256 && f1 < 256 && f2 < 256 && f3 < 256
    requires Xor(Xor(Xor(Xor(c, e0), e1 << 8), e2 << 16), e3 << 24) == Xor(Xor(Xor(Xor(c, f0), f1 << 8), f2 << 16), f3 << 24)
    ensures e0 == f0 && e1 == f1 && e2 == f2 && e3 == f3
  {}

  /** The register after four bytes determines them. */
  lemma FourBytesInjective(c: bv32, a: seq<byte>, b: seq<byte>)
    requires |a| == |b| == 4 && Register(c, a) == Register(c, b)
    ensures a == b
  {
    hide ByteStep, Xor, Extend;
    FourBytes(c, a);
    FourBytes(c, b);
    ByteStepInjective(ByteStep(ByteStep(ByteStep(Word(c, a)))), ByteStep(ByteStep(ByteStep(Word(c, b)))));
    ByteStepInjective(ByteStep(ByteStep(Word(c, a))), ByteStep(ByteStep(Word(c, b))));
    ByteStepInjective(ByteStep(Word(c, a)), ByteStep(Word(c, b)));
    ByteStepInjective(Word(c, a), Word(c, b));
    forall k | 0 <= k < 4 ensures Extend(a[k]) < 256 && Extend(b[k]) < 256 { ExtendSmall(a[k]); ExtendSmall(b[k]); }
    WordsDiffer(c, Extend(a[0]), Extend(a[1]), Extend(a[2]), Extend(a[3]), Extend(b[0]), Extend(b[1]), Extend(b[2]), Extend(b[3]));
    ExtendInjective(a[0], b[0]); ExtendInjective(a[1], b[1]); ExtendInjective(a[2], b[2]); ExtendInjective(a[3], b[3]);
  }

  /** Data that differs only within four consecutive bytes has a different checksum. */
  lemma BurstDetected(a: seq<byte>, b: seq<byte>, at: nat)
    requires |a| == |b| && at + 4 <= |a| && a != b
    requires a[..at] == b[..at] && a[at + 4..] == b[at + 4..]
    ensures Crc(a) != Crc(b)
  {
    hide ByteStep, Xor, Extend;
    var u, v := a[at..at + 4], b[at..at + 4];
    assert a == a[..at] + (u + a[at + 4..]) && b == a[..at] + (v + a[at + 4..]);
    if Crc(a) == Crc(b) {
      var c := Register(0xFFFF_FFFF, a[..at]);
      XorInjective(Register(0xFFFF_FFFF, a), Register(0xFFFF_FFFF, b), 0xFFFF_FFFF);
      RegisterConcat(0xFFFF_FFFF, a[..at], u + a[at + 4..]);
      RegisterConcat(0xFFFF_FFFF, a[..at], v + a[at + 4..]);
      RegisterConcat(c, u, a[at + 4..]);
      RegisterConcat(c, v, a[at + 4..]);
      RegisterInjective(Register(c, u), Register(c, v), a[at + 4..]);
      FourBytesInjective(c, u, v);
    }
  }

  // ---- the register's start and its inversion, by what is known of CRC-32 ----

  lemma WordOfStored(c: bv32, w: bv32)
    ensures Word(c, StoreWord(w)) == Xor(c, w)
  {
    LowByteBits(w);
    LowByteBits(w >> 8);
    LowByteBits(w >> 16);
    LowByteBits(w >> 24);
    hide LowByte, Extend;
    XorWord(c, w);
  }

  lemma XorWord(c: bv32, w: bv32)
    ensures Xor(Xor(Xor(Xor(c, w & 0xFF), ((w >> 8) & 0xFF) << 8), ((w >> 16) & 0xFF) << 16), ((w >> 24) & 0xFF) << 24) == Xor(c, w)
  {
    Partition(w);
    hide Xor;
    XorFour(c, w & 0xFF, ((w >> 8) & 0xFF) << 8, ((w >> 16) & 0xFF) << 16, ((w >> 24) & 0xFF) << 24);
  }

  lemma Partition(w: bv32)
    ensures Xor(Xor(Xor(w & 0xFF, ((w >> 8) & 0xFF) << 8), ((w >> 16) & 0xFF) << 16), ((w >> 24) & 0xFF) << 24) == w
  {}

  lemma XorFour(c: bv32, p: bv32, q: bv32, r: bv32, s: bv32)
    ensures Xor(Xor(Xor(Xor(c, p), q), r), s) == Xor(c, Xor(Xor(Xor(p, q), r), s))
  {
    hide Xor;
    XorAssociates(c, p, q);
    XorAssociates(c, Xor(p, q), r);
    XorAssociates(c, Xor(Xor(p, q), r), s);
  }

  lemma OnesShifted()
    ensures ByteStep(ByteStep(ByteStep(ByteStep(0xFFFF_FFFF)))) == 0xDEBB_20E3
  {
    assert ByteStep(0xFFFF_FFFF) == 0x2DFD_1072;
    assert ByteStep(0x2DFD_1072) == 0xBE26_ED00;
    assert ByteStep(0xBE26_ED00) == 0x00BE_26ED;
    assert ByteStep(0x00BE_26ED) == 0xDEBB_20E3;
  }

  /** Data followed by four bytes has the checksum 0x2144DF1C, the residue of CRC-32, if and only if they are the data's own checksum. */
  lemma ResidueIff(data: seq<byte>, b: seq<byte>)
    requires |b| == 4
    ensures Crc(data + b) == 0x2144_DF1C <==> b == StoreWord(Crc(data))
  {
    var c, own := Register(0xFFFF_FFFF, data), StoreWord(Crc(data));
    RegisterConcat(0xFFFF_FFFF, data, b);
    hide Register, ByteStep, StoreWord, Word;
    FourBytes(c, own);
    WordOfStored(c, Crc(data));
    XorBack(c);
    OnesShifted();
    if Crc(data + b) == 0x2144_DF1C {
      XorInjective(Register(c, b), Register(c, own), 0xFFFF_FFFF);
      FourBytesInjective(c, b, own);
    }
  }

  lemma XorBack(c: bv32)
    ensures Xor(c, Xor(c, 0xFFFF_FFFF)) == 0xFFFF_FFFF
  {}

  const DIGITS: seq<byte> := [49, 50, 51, 52, 53, 54, 55, 56, 57]

  lemma DigitStep(c: bv32, k: nat)
    requires k < 9
    ensures Register(c, DIGITS[k..]) == Register(ByteStep(Xor(c, Extend(DIGITS[k]))), DIGITS[k + 1..])
  {
    hide ByteStep, Xor, Extend;
    assert DIGITS[k..][1..] == DIGITS[k + 1..] && DIGITS[k..][0] == DIGITS[k];
  }

  lemma FirstDigits()
    ensures ByteStep(Xor(0xFFFF_FFFF, Extend(DIGITS[0]))) == 0x7C23_1048
    ensures ByteStep(Xor(0x7C23_1048, Extend(DIGITS[1]))) == 0xB0AC_BB32
    ensures ByteStep(Xor(0xB0AC_BB32, Extend(DIGITS[2]))) == 0x77B7_9C2D
  {}

  lemma MiddleDigits()
    ensures ByteStep(Xor(0x77B7_9C2D, Extend(DIGITS[3]))) == 0x641C_1F5C
    ensures ByteStep(Xor(0x641C_1F5C, Extend(DIGITS[4]))) == 0x340A_C5E3
    ensures ByteStep(Xor(0x340A_C5E3, Extend(DIGITS[5]))) == 0xF68D_2C9E
  {}

  lemma LastDigits()
    ensures ByteStep(Xor(0xF68D_2C9E, Extend(DIGITS[6]))) == 0xAFFC_9660
    ensures ByteStep(Xor(0xAFFC_9660, Extend(DIGITS[7]))) == 0x651F_2550
    ensures ByteStep(Xor(0x651F_2550, Extend(DIGITS[8]))) == 0x340B_C6D9
  {}

  /** The check value that catalogues of checksums give for CRC-32: that of the digits 1 to 9 in ASCII. */
  lemma CheckValue()
    ensures Crc(DIGITS) == 0xCBF4_3926
  {
    FirstDigits();
    MiddleDigits();
    LastDigits();
    assert DIGITS[0..] == DIGITS && DIGITS[9..] == [];
    hide ByteStep, Extend;
    DigitStep(0xFFFF_FFFF, 0);
    DigitStep(0x7C23_1048, 1);
    DigitStep(0xB0AC_BB32, 2);
    DigitStep(0x77B7_9C2D, 3);
    DigitStep(0x641C_1F5C, 4);
    DigitStep(0x340A_C5E3, 5);
    DigitStep(0xF68D_2C9E, 6);
    DigitStep(0xAFFC_9660, 7);
    DigitStep(0x651F_2550, 8);
  }
}
