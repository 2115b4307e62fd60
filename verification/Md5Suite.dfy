/** A digest of the test suite in section A.5 of RFC 1321, computed from the specification: it settles the constants, the registers'
  * start and the order of bytes, which the code and its specification share. */
module Md5Suite {
  import opened Bytes
  import opened Md5Block
  import opened HashStream
  import opened Md5

  /** "abc", padded. */
  const ABC: seq<byte> := [97, 98, 99, 0x80] + Zeros(52) + [24, 0, 0, 0, 0, 0, 0, 0]

  lemma WordsOfAbc(i: nat)
    requires i < 16
    ensures Word(ABC, i) == if i == 0 then 0x80636261 else if i == 14 then 24 else 0
  {
    forall k | 4 <= k < 64 && k != 56 ensures ABC[k] == 0 {}
  }

  /** A step whose sum and result are known. */
  lemma StepIs(i: nat, n: nat, even: bool, a: bv32, b: bv32, y: bv32, z: bv32, op: Op, sum: bv32, w: bv32)
    requires i < 64 && OpAt(i) == op && op.shift <= 32 && op.word < 16
    requires SourceSum(RoundFunction(n, even, b, y, z), a, if op.word == 0 then 0x80636261 else if op.word == 14 then 24 else 0,
                       op.constant) == sum
    requires Plus(Rotated(sum, op.shift), b) == w
    ensures Stepped(RoundFunction(n, even, b, y, z), a, b, Word(ABC, OpAt(i).word), OpAt(i)) == w
  {
    WordsOfAbc(op.word);
    hide Word, OpAt, RoundFunction, SourceSum, Rotated, Plus;
  }

  lemma Quad0()
    ensures Quad(ABC, 0, Chain(0x67452301, 0xefcdab89, 0x98badcfe, 0x10325476))
         == Chain(0xd6d117b4, 0x7ad956f2, 0x2f6fbd72, 0x344a8432)
  {
    StepIs(0, 0, true, 0x67452301, 0xefcdab89, 0x98badcfe, 0x10325476, Op(0, 0xd76aa478, 7), 0x57ce06d8, 0xd6d117b4);
    StepIs(1, 0, false, 0x10325476, 0xd6d117b4, 0xefcdab89, 0x98badcfe, Op(1, 0xe8c7b756, 12), 0xc7e5d796, 0x344a8432);
    StepIs(2, 0, true, 0x98badcfe, 0x344a8432, 0xd6d117b4, 0xefcdab89, Op(2, 0x242070db, 17), 0x9ca07d92, 0x2f6fbd72);
    StepIs(3, 0, false, 0xefcdab89, 0x2f6fbd72, 0x344a8432, 0xd6d117b4, Op(3, 0xc1bdceee, 22), 0xa666012d, 0x7ad956f2);
    hide Word, OpAt, RoundFunction, Stepped;
  }

  lemma Quad1()
    ensures Quad(ABC, 1, Chain(0xd6d117b4, 0x7ad956f2, 0x2f6fbd72, 0x344a8432))
         == Chain(0xc73741ef, 0x928d99f6, 0x207dc67b, 0x8bac3051)
  {
    StepIs(4, 0, true, 0xd6d117b4, 0x7ad956f2, 0x2f6fbd72, 0x344a8432, Op(4, 0xf57c0faf, 7), 0xfa98bbd5, 0xc73741ef);
    StepIs(5, 0, false, 0x344a8432, 0xc73741ef, 0x7ad956f2, 0x2f6fbd72, Op(5, 0x4787c62a, 12), 0xe62c474e, 0x8bac3051);
    StepIs(6, 0, true, 0x2f6fbd72, 0x8bac3051, 0xc73741ef, 0x7ad956f2, Op(6, 0xa8304613, 17), 0xcb154a68, 0x207dc67b);
    StepIs(7, 0, false, 0x7ad956f2, 0x207dc67b, 0x8bac3051, 0xc73741ef, Op(7, 0xfd469501, 22), 0x3f4dedc8, 0x928d99f6);
    hide Word, OpAt, RoundFunction, Stepped;
  }

  lemma Quad2()
    ensures Quad(ABC, 2, Chain(0xc73741ef, 0x928d99f6, 0x207dc67b, 0x8bac3051))
         == Chain(0x854b3712, 0x5ed49596, 0x3020401c, 0x74e2f284)
  {
    StepIs(8, 0, true, 0xc73741ef, 0x928d99f6, 0x207dc67b, 0x8bac3051, Op(8, 0x698098d8, 7), 0x39e57b3a, 0x854b3712);
    StepIs(9, 0, false, 0x8bac3051, 0x854b3712, 0x928d99f6, 0x207dc67b, Op(9, 0x8b44f7af, 12), 0xb72ef97b, 0x74e2f284);
    StepIs(10, 0, true, 0x207dc67b, 0x74e2f284, 0x854b3712, 0x928d99f6, Op(10, 0xffff5bb1, 17), 0xa6cc5d9e, 0x3020401c);
    StepIs(11, 0, false, 0x928d99f6, 0x3020401c, 0x74e2f284, 0x854b3712, Op(11, 0x895cd7be, 22), 0xd155e8ba, 0x5ed49596);
    hide Word, OpAt, RoundFunction, Stepped;
  }

  lemma Quad3()
    ensures Quad(ABC, 3, Chain(0x854b3712, 0x5ed49596, 0x3020401c, 0x74e2f284))
         == Chain(0xdda9b9a6, 0x72aff2e0, 0xe396856b, 0xa1051895)
  {
    StepIs(12, 0, true, 0x854b3712, 0x5ed49596, 0x3020401c, 0x74e2f284, Op(12, 0x6b901122, 7), 0x20fdaa48, 0xdda9b9a6);
    StepIs(13, 0, false, 0x74e2f284, 0xdda9b9a6, 0x5ed49596, 0x3020401c, Op(13, 0xfd987193, 12), 0xeefc35b5, 0xa1051895);
    StepIs(14, 0, true, 0x3020401c, 0xa1051895, 0xdda9b9a6, 0x5ed49596, Op(14, 0xa679438e, 17), 0xb66b2148, 0xe396856b);
    StepIs(15, 0, false, 0x5ed49596, 0xe396856b, 0xa1051895, 0xdda9b9a6, Op(15, 0x49b40821, 22), 0x65b5d63c, 0x72aff2e0);
    hide Word, OpAt, RoundFunction, Stepped;
  }

  lemma Quad4()
    ensures Quad(ABC, 4, Chain(0xdda9b9a6, 0x72aff2e0, 0xe396856b, 0xa1051895))
         == Chain(0x3e9e9126, 0xb5b204e4, 0xe25e1652, 0x4a1d804e)
  {
    StepIs(16, 1, true, 0xdda9b9a6, 0x72aff2e0, 0xe396856b, 0xa1051895, Op(1, 0xf61e2562, 5), 0x365f74f2, 0x3e9e9126);
    StepIs(17, 1, false, 0xa1051895, 0x3e9e9126, 0x72aff2e0, 0xe396856b, Op(6, 0xc040b340, 9), 0x9405bf77, 0x4a1d804e);
    StepIs(18, 1, true, 0xe396856b, 0x4a1d804e, 0x3e9e9126, 0x72aff2e0, Op(11, 0x265e5a51, 14), 0x58126102, 0xe25e1652);
    StepIs(19, 1, false, 0x72aff2e0, 0xe25e1652, 0x4a1d804e, 0x3e9e9126, Op(0, 0xe9b6c7aa, 20), 0x3ee92d35, 0xb5b204e4);
    hide Word, OpAt, RoundFunction, Stepped;
  }

  lemma Quad5()
    ensures Quad(ABC, 5, Chain(0x3e9e9126, 0xb5b204e4, 0xe25e1652, 0x4a1d804e))
         == Chain(0x59a8ffda, 0x47092c07, 0xabfc7920, 0x6d002f1e)
  {
    StepIs(20, 1, true, 0x3e9e9126, 0xb5b204e4, 0xe25e1652, 0x4a1d804e, Op(5, 0xd62f105d, 5), 0xb51fb7d7, 0x59a8ffda);
    StepIs(21, 1, false, 0x4a1d804e, 0x59a8ffda, 0xb5b204e4, 0xe25e1652, Op(10, 0x02441453, 9), 0xa209ab97, 0x6d002f1e);
    StepIs(22, 1, true, 0xe25e1652, 0x6d002f1e, 0x59a8ffda, 0xb5b204e4, Op(15, 0xd8a1e681, 14), 0x2808fbf1, 0xabfc7920);
    StepIs(23, 1, false, 0xb5b204e4, 0xabfc7920, 0x6d002f1e, 0x59a8ffda, Op(4, 0xe7d3fbc8, 20), 0xcb2e79b0, 0x47092c07);
    hide Word, OpAt, RoundFunction, Stepped;
  }

  lemma Quad6()
    ensures Quad(ABC, 6, Chain(0x59a8ffda, 0x47092c07, 0xabfc7920, 0x6d002f1e))
         == Chain(0xb7f268cf, 0x786acb8f, 0xfe1623b1, 0x09388eff)
  {
    StepIs(24, 1, true, 0x59a8ffda, 0x47092c07, 0xabfc7920, 0x6d002f1e, Op(9, 0x21e1cde6, 5), 0x438749e6, 0xb7f268cf);
    StepIs(25, 1, false, 0x6d002f1e, 0xb7f268cf, 0x47092c07, 0xabfc7920, Op(14, 0xc33707d6, 9), 0x1828a313, 0x09388eff);
    StepIs(26, 1, true, 0xabfc7920, 0x09388eff, 0xb7f268cf, 0x47092c07, Op(3, 0xf4d50d87, 14), 0x52cbd376, 0xfe1623b1);
    StepIs(27, 1, false, 0x47092c07, 0xfe1623b1, 0x09388eff, 0xb7f268cf, Op(8, 0x455a14ed, 20), 0x4a7de7a5, 0x786acb8f);
    hide Word, OpAt, RoundFunction, Stepped;
  }

  lemma Quad7()
    ensures Quad(ABC, 7, Chain(0xb7f268cf, 0x786acb8f, 0xfe1623b1, 0x09388eff))
         == Chain(0x790a77fb, 0x726342d3, 0xa62884aa, 0x9f47e4f8)
  {
    StepIs(28, 1, true, 0xb7f268cf, 0x786acb8f, 0xfe1623b1, 0x09388eff, Op(13, 0xa9e3e905, 5), 0x6004fd63, 0x790a77fb);
    StepIs(29, 1, false, 0x09388eff, 0x790a77fb, 0x786acb8f, 0xfe1623b1, Op(2, 0xfcefa3f8, 9), 0x7e931eb6, 0x9f47e4f8);
    StepIs(30, 1, true, 0xfe1623b1, 0x9f47e4f8, 0x790a77fb, 0x786acb8f, Op(7, 0x676f02d9, 14), 0x7ec81b82, 0xa62884aa);
    StepIs(31, 1, false, 0x786acb8f, 0xa62884aa, 0x9f47e4f8, 0x790a77fb, Op(12, 0x8d2a4c8a, 20), 0xabe29cc3, 0x726342d3);
    hide Word, OpAt, RoundFunction, Stepped;
  }

  lemma Quad8()
    ensures Quad(ABC, 8, Chain(0x790a77fb, 0x726342d3, 0xa62884aa, 0x9f47e4f8))
         == Chain(0xb3707ebf, 0x3b0875c7, 0x8d212ff5, 0x60127b2e)
  {
    StepIs(32, 2, true, 0x790a77fb, 0x726342d3, 0xa62884aa, 0x9f47e4f8, Op(5, 0xfffa3942, 4), 0xc410d3be, 0xb3707ebf);
    StepIs(33, 2, false, 0x9f47e4f8, 0xb3707ebf, 0x726342d3, 0xa62884aa, Op(8, 0x8771f681, 11), 0x8df5943f, 0x60127b2e);
    StepIs(34, 2, true, 0xa62884aa, 0x60127b2e, 0xb3707ebf, 0x726342d3, Op(11, 0x6d9d6122, 16), 0xb4c72d0e, 0x8d212ff5);
    StepIs(35, 2, false, 0x726342d3, 0x8d212ff5, 0x60127b2e, 0xb3707ebf, Op(14, 0xfde5380c, 23), 0xce8ba55b, 0x3b0875c7);
    hide Word, OpAt, RoundFunction, Stepped;
  }

  lemma Quad9()
    ensures Quad(ABC, 9, Chain(0xb3707ebf, 0x3b0875c7, 0x8d212ff5, 0x60127b2e))
         == Chain(0x21b117b9, 0x5a2f5ea5, 0x3575227e, 0x6e7429d5)
  {
    StepIs(36, 2, true, 0xb3707ebf, 0x3b0875c7, 0x8d212ff5, 0x60127b2e, Op(1, 0xa4beea44, 4), 0x2e6a8a1f, 0x21b117b9);
    StepIs(37, 2, false, 0x60127b2e, 0x21b117b9, 0x3b0875c7, 0x8d212ff5, Op(4, 0x4bdecfa9, 11), 0x43899862, 0x6e7429d5);
    StepIs(38, 2, true, 0x8d212ff5, 0x6e7429d5, 0x21b117b9, 0x3b0875c7, Op(7, 0xf6bb4b60, 16), 0xf8a9c700, 0x3575227e);
    StepIs(39, 2, false, 0x3b0875c7, 0x3575227e, 0x6e7429d5, 0x21b117b9, Op(10, 0xbebfbc70, 23), 0x74784e49, 0x5a2f5ea5);
    hide Word, OpAt, RoundFunction, Stepped;
  }

  lemma Quad10()
    ensures Quad(ABC, 10, Chain(0x21b117b9, 0x5a2f5ea5, 0x3575227e, 0x6e7429d5))
         == Chain(0x11de1779, 0x4c6124f4, 0x31c465ca, 0xfadcaa38)
  {
    StepIs(40, 2, true, 0x21b117b9, 0x5a2f5ea5, 0x3575227e, 0x6e7429d5, Op(13, 0x289b7ec6, 4), 0x4b7aeb8d, 0x11de1779);
    StepIs(41, 2, false, 0x6e7429d5, 0x11de1779, 0x5a2f5ea5, 0x3575227e, Op(0, 0xeaa127fa, 11), 0x57fd1fd2, 0xfadcaa38);
    StepIs(42, 2, true, 0x3575227e, 0xfadcaa38, 0x11de1779, 0x5a2f5ea5, Op(3, 0xd4ef3085, 16), 0xbb9236e7, 0x31c465ca);
    StepIs(43, 2, false, 0x5a2f5ea5, 0x31c465ca, 0xfadcaa38, 0x11de1779, Op(6, 0x04881d05, 23), 0x397e5435, 0x4c6124f4);
    hide Word, OpAt, RoundFunction, Stepped;
  }

  lemma Quad11()
    ensures Quad(ABC, 11, Chain(0x11de1779, 0x4c6124f4, 0x31c465ca, 0xfadcaa38))
         == Chain(0x7f2e507b, 0x7beb9700, 0x8fae6399, 0x99d9679d)
  {
    StepIs(44, 2, true, 0x11de1779, 0x4c6124f4, 0x31c465ca, 0xfadcaa38, Op(9, 0xd9d4d039, 4), 0x732cd2b8, 0x7f2e507b);
    StepIs(45, 2, false, 0xfadcaa38, 0x7f2e507b, 0x4c6124f4, 0x31c465ca, Op(12, 0xe6db99e5, 11), 0xe4435562, 0x99d9679d);
    StepIs(46, 2, true, 0x31c465ca, 0x99d9679d, 0x7f2e507b, 0x4c6124f4, Op(15, 0x1fa27cf8, 16), 0xfbfcf5d4, 0x8fae6399);
    StepIs(47, 2, false, 0x4c6124f4, 0x8fae6399, 0x99d9679d, 0x7f2e507b, Op(2, 0xc4ac5665, 23), 0x7a66cfd8, 0x7beb9700);
    hide Word, OpAt, RoundFunction, Stepped;
  }

  lemma Quad12()
    ensures Quad(ABC, 12, Chain(0x7f2e507b, 0x7beb9700, 0x8fae6399, 0x99d9679d))
         == Chain(0x7b201df8, 0x8bf025c4, 0xb298cefd, 0xf4e8e96e)
  {
    StepIs(48, 3, true, 0x7f2e507b, 0x7beb9700, 0x8fae6399, 0x99d9679d, Op(0, 0xf4292244, 6), 0xe3fcd21b, 0x7b201df8);
    StepIs(49, 3, false, 0x99d9679d, 0x7b201df8, 0x7beb9700, 0x8fae6399, Op(7, 0x432aff97, 10), 0xdd9e7232, 0xf4e8e96e);
    StepIs(50, 3, true, 0x8fae6399, 0xf4e8e96e, 0x7b201df8, 0x7beb9700, Op(14, 0xab9423a7, 15), 0xcb1f7b5f, 0xb298cefd);
    StepIs(51, 3, false, 0x7beb9700, 0xb298cefd, 0xf4e8e96e, 0x7b201df8, Op(5, 0xfc93a039, 21), 0xbab63eca, 0x8bf025c4);
    hide Word, OpAt, RoundFunction, Stepped;
  }

  lemma Quad13()
    ensures Quad(ABC, 13, Chain(0x7b201df8, 0x8bf025c4, 0xb298cefd, 0xf4e8e96e))
         == Chain(0x06cc5e8a, 0x3bfa2c27, 0x7d632dd0, 0x5b0d97aa)
  {
    StepIs(52, 3, true, 0x7b201df8, 0x8bf025c4, 0xb298cefd, 0xf4e8e96e, Op(12, 0x655b59c3, 6), 0x19eb70e3, 0x06cc5e8a);
    StepIs(53, 3, false, 0xf4e8e96e, 0x06cc5e8a, 0x8bf025c4, 0xb298cefd, Op(3, 0x8f0ccc92, 10), 0x4815104e, 0x5b0d97aa);
    StepIs(54, 3, true, 0xb298cefd, 0x5b0d97aa, 0x06cc5e8a, 0x8bf025c4, Op(10, 0xffeff47d, 15), 0x2c4c44ab, 0x7d632dd0);
    StepIs(55, 3, false, 0x8bf025c4, 0x7d632dd0, 0x5b0d97aa, 0x06cc5e8a, Op(1, 0x85845dd1, 21), 0xb7f2bdf4, 0x3bfa2c27);
    hide Word, OpAt, RoundFunction, Stepped;
  }

  lemma Quad14()
    ensures Quad(ABC, 14, Chain(0x06cc5e8a, 0x3bfa2c27, 0x7d632dd0, 0x5b0d97aa))
         == Chain(0x7f81cc35, 0x7327d604, 0x4f9dbe3f, 0x094454ab)
  {
    StepIs(56, 3, true, 0x06cc5e8a, 0x3bfa2c27, 0x7d632dd0, 0x5b0d97aa, Op(8, 0x6fa87e4f, 6), 0x390e1e80, 0x7f81cc35);
    StepIs(57, 3, false, 0x5b0d97aa, 0x7f81cc35, 0x3bfa2c27, 0x7d632dd0, Op(15, 0xfe2ce6e0, 10), 0x1da270a2, 0x094454ab);
    StepIs(58, 3, true, 0x7d632dd0, 0x094454ab, 0x7f81cc35, 0x3bfa2c27, Op(6, 0xa3014314, 15), 0xd3288cb2, 0x4f9dbe3f);
    StepIs(59, 3, false, 0x3bfa2c27, 0x4f9dbe3f, 0x094454ab, 0x7f81cc35, Op(13, 0x4e0811a1, 21), 0x50be291c, 0x7327d604);
    hide Word, OpAt, RoundFunction, Stepped;
  }

  lemma Quad15()
    ensures Quad(ABC, 15, Chain(0x7f81cc35, 0x7327d604, 0x4f9dbe3f, 0x094454ab))
         == Chain(0x310ade8f, 0xc08226b3, 0xe484b9d8, 0x624d8cb2)
  {
    StepIs(60, 3, true, 0x7f81cc35, 0x7327d604, 0x4f9dbe3f, 0x094454ab, Op(4, 0xf7537e82, 6), 0x2ef78c22, 0x310ade8f);
    StepIs(61, 3, false, 0x094454ab, 0x310ade8f, 0x7327d604, 0x4f9dbe3f, Op(11, 0xbd3af235, 10), 0x88cc50ab, 0x624d8cb2);
    StepIs(62, 3, true, 0x4f9dbe3f, 0x624d8cb2, 0x310ade8f, 0x7327d604, Op(2, 0x2ad7d2bb, 15), 0x5a4d046e, 0xe484b9d8);
    StepIs(63, 3, false, 0x7327d604, 0xe484b9d8, 0x624d8cb2, 0x310ade8f, Op(9, 0xeb86d391, 21), 0xeb66dedf, 0xc08226b3);
    hide Word, OpAt, RoundFunction, Stepped;
  }

  lemma QuadsMore(k: nat, r: Chain)
    requires k < 16
    ensures Quads(ABC, k + 1, r) == Quad(ABC, k, Quads(ABC, k, r))
  {
    hide Quad;
  }

  lemma QuadsOfAbc()
    ensures Quads(ABC, 16, INIT) == Chain(0x310ade8f, 0xc08226b3, 0xe484b9d8, 0x624d8cb2)
  {
    hide Quad, Quads;
    QuadsNone(INIT);
    QuadsMore(0, INIT);
    Quad0();
    QuadsMore(1, INIT);
    Quad1();
    QuadsMore(2, INIT);
    Quad2();
    QuadsMore(3, INIT);
    Quad3();
    QuadsMore(4, INIT);
    Quad4();
    QuadsMore(5, INIT);
    Quad5();
    QuadsMore(6, INIT);
    Quad6();
    QuadsMore(7, INIT);
    Quad7();
    QuadsMore(8, INIT);
    Quad8();
    QuadsMore(9, INIT);
    Quad9();
    QuadsMore(10, INIT);
    Quad10();
    QuadsMore(11, INIT);
    Quad11();
    QuadsMore(12, INIT);
    Quad12();
    QuadsMore(13, INIT);
    Quad13();
    QuadsMore(14, INIT);
    Quad14();
    QuadsMore(15, INIT);
    Quad15();
  }

  lemma QuadsNone(r: Chain)
    ensures Quads(ABC, 0, r) == r
  {}

  lemma PaddedAbc()
    ensures Padded([97, 98, 99]) == ABC
  {
    var m: seq<byte> := [97, 98, 99];
    Lengths();
    EightBytes();
    hide ToLE, Zeros;
    assert Padded(m) == m + [0x80] + Zeros(52) + ToLE(24, 8);
  }

  lemma Lengths()
    ensures (119 - 3 % 64) % 64 == 52 && (8 * 3) % (WORD * WORD) == 24
  {}

  lemma EightBytes()
    ensures ToLE(24, 8) == [24, 0, 0, 0, 0, 0, 0, 0]
  {
    assert ToLE(24, 4) == [24, 0, 0, 0];
    assert ToLE(0, 4) == [0, 0, 0, 0];
  }

  lemma AbcOnly()
    ensures Blocks(MD5, INIT, ABC) == Block(INIT, ABC)
  {
    assert ABC[..64] == ABC && ABC[64..] == [];
    hide Block;
  }

  /** MD5 ("abc") = 900150983cd24fb0d6963f7d28e17f72. */
  lemma DigestOfAbc()
    ensures Digest(Blocks(MD5, INIT, Padded([97, 98, 99]))) == [0x90, 0x01, 0x50, 0x98, 0x3c, 0xd2, 0x4f, 0xb0, 0xd6, 0x96, 0x3f, 0x7d, 0x28, 0xe1, 0x7f, 0x72]
  {
    hide *;
    PaddedAbc();
    AbcOnly();
    BlockOfAbc();
    DigestOfRegisters();
  }

  lemma BlockOfAbc()
    ensures Block(INIT, ABC) == Chain(0x98500190, 0xb04fd23c, 0x7d3f96d6, 0x727fe128)
  {
    QuadsOfAbc();
    hide Quads;
  }

  lemma DigestOfRegisters()
    ensures Digest(Chain(0x98500190, 0xb04fd23c, 0x7d3f96d6, 0x727fe128)) == [0x90, 0x01, 0x50, 0x98, 0x3c, 0xd2, 0x4f, 0xb0, 0xd6, 0x96, 0x3f, 0x7d, 0x28, 0xe1, 0x7f, 0x72]
  {
    LittleEndian();
    hide ToLE;
  }

  lemma LittleEndian()
    ensures ToLE(2555380112, 4) == [0x90, 0x01, 0x50, 0x98]
    ensures ToLE(2958021180, 4) == [0x3c, 0xd2, 0x4f, 0xb0]
    ensures ToLE(2101319382, 4) == [0xd6, 0x96, 0x3f, 0x7d]
    ensures ToLE(1920983336, 4) == [0x28, 0xe1, 0x7f, 0x72]
  {}
}
