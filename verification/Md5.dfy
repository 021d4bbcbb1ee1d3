/** Streaming MD5, proved to give the digest of sections 3.1 to 3.5 of RFC 1321 for every way of feeding the message. */
module Md5 {
  type Byte = bv8

  // ---------------------------------------------------------------- the reference: RFC 1321

  datatype Registers = Registers(a: bv32, b: bv32, c: bv32, d: bv32)

  const INITIAL := Registers(0x67452301, 0xefcdab89, 0x98badcfe, 0x10325476)

  // The auxiliary functions of section 3.4.
  function AuxF(x: bv32, y: bv32, z: bv32): bv32 { (x & y) | (!x & z) }

  function AuxG(x: bv32, y: bv32, z: bv32): bv32 { (x & z) | (y & !z) }

  function AuxH(x: bv32, y: bv32, z: bv32): bv32 { x ^ y ^ z }

  function AuxI(x: bv32, y: bv32, z: bv32): bv32 { y ^ (x | !z) }

  function Aux(i: nat, x: bv32, y: bv32, z: bv32): bv32 {
    if i < 16 then AuxF(x, y, z) else if i < 32 then AuxG(x, y, z) else if i < 48 then AuxH(x, y, z) else AuxI(x, y, z)
  }

  /** The word of the block that operation i uses. */
  function WordIndex(i: nat): (k: nat)
    ensures k < 16
  {
    if i < 16 then i else if i < 32 then (5 * i + 1) % 16 else if i < 48 then (3 * i + 5) % 16 else (7 * i) % 16
  }

  /** The rotation of operation i. */
  function Shift(i: nat): (s: nat)
    ensures 4 <= s <= 23
  {
    var j := i % 4;
    if i < 16 then (if j == 0 then 7 else if j == 1 then 12 else if j == 2 then 17 else 22)
    else if i < 32 then (if j == 0 then 5 else if j == 1 then 9 else if j == 2 then 14 else 20)
    else if i < 48 then (if j == 0 then 4 else if j == 1 then 11 else if j == 2 then 16 else 23)
    else (if j == 0 then 6 else if j == 1 then 10 else if j == 2 then 15 else 21)
  }

  function Sine1(i: nat): bv32 {
    match i
    case 0 => 0xd76aa478 case 1 => 0xe8c7b756 case 2 => 0x242070db case 3 => 0xc1bdceee
    case 4 => 0xf57c0faf case 5 => 0x4787c62a case 6 => 0xa8304613 case 7 => 0xfd469501
    case 8 => 0x698098d8 case 9 => 0x8b44f7af case 10 => 0xffff5bb1 case 11 => 0x895cd7be
    case 12 => 0x6b901122 case 13 => 0xfd987193 case 14 => 0xa679438e case 15 => 0x49b40821
    case _ => 0
  }

  function Sine2(i: nat): bv32 {
    match i
    case 16 => 0xf61e2562 case 17 => 0xc040b340 case 18 => 0x265e5a51 case 19 => 0xe9b6c7aa
    case 20 => 0xd62f105d case 21 => 0x02441453 case 22 => 0xd8a1e681 case 23 => 0xe7d3fbc8
    case 24 => 0x21e1cde6 case 25 => 0xc33707d6 case 26 => 0xf4d50d87 case 27 => 0x455a14ed
    case 28 => 0xa9e3e905 case 29 => 0xfcefa3f8 case 30 => 0x676f02d9 case 31 => 0x8d2a4c8a
    case _ => 0
  }

  function Sine3(i: nat): bv32 {
    match i
    case 32 => 0xfffa3942 case 33 => 0x8771f681 case 34 => 0x6d9d6122 case 35 => 0xfde5380c
    case 36 => 0xa4beea44 case 37 => 0x4bdecfa9 case 38 => 0xf6bb4b60 case 39 => 0xbebfbc70
    case 40 => 0x289b7ec6 case 41 => 0xeaa127fa case 42 => 0xd4ef3085 case 43 => 0x04881d05
    case 44 => 0xd9d4d039 case 45 => 0xe6db99e5 case 46 => 0x1fa27cf8 case 47 => 0xc4ac5665
    case _ => 0
  }

  function Sine4(i: nat): bv32 {
    match i
    case 48 => 0xf4292244 case 49 => 0x432aff97 case 50 => 0xab9423a7 case 51 => 0xfc93a039
    case 52 => 0x655b59c3 case 53 => 0x8f0ccc92 case 54 => 0xffeff47d case 55 => 0x85845dd1
    case 56 => 0x6fa87e4f case 57 => 0xfe2ce6e0 case 58 => 0xa3014314 case 59 => 0x4e0811a1
    case 60 => 0xf7537e82 case 61 => 0xbd3af235 case 62 => 0x2ad7d2bb case 63 => 0xeb86d391
    case _ => 0
  }

  /** The integer part of 4294967296 times abs(sin(i + 1)). */
  function Sine(i: nat): bv32 {
    if i < 16 then Sine1(i) else if i < 32 then Sine2(i) else if i < 48 then Sine3(i) else Sine4(i)
  }

  function RotateLeft(x: bv32, s: nat): bv32
    requires s <= 32
  {
    x.RotateLeft(s)
  }

  function Add(u: bv32, v: bv32): bv32 {
    u + v
  }

  function Sum(a: bv32, f: bv32, x: bv32, t: bv32): bv32 {
    a + f + x + t
  }

  function Mixed(a: bv32, b: bv32, f: bv32, x: bv32, t: bv32, s: nat): bv32
    requires s <= 32
  {
    Add(b, RotateLeft(Sum(a, f, x, t), s))
  }

  /** Operation i, with the registers renamed for the next one. */
  function Operation(r: Registers, x: seq<bv32>, i: nat): Registers
    requires |x| == 16
  {
    Registers(r.d, Mixed(r.a, r.b, Aux(i, r.b, r.c, r.d), x[WordIndex(i)], Sine(i), Shift(i)), r.b, r.c)
  }

  function Operations(r: Registers, x: seq<bv32>, i: nat): Registers
    requires |x| == 16
    decreases 64 - i
  {
    if i >= 64 then r else Operations(Operation(r, x, i), x, i + 1)
  }

  /** A word from four bytes, low-order byte first. */
  function Word(b0: Byte, b1: Byte, b2: Byte, b3: Byte): bv32 {
    (b0 as bv32) | ((b1 as bv32) << 8) | ((b2 as bv32) << 16) | ((b3 as bv32) << 24)
  }

  function Words(block: seq<Byte>): (x: seq<bv32>)
    requires |block| == 64
    ensures |x| == 16
  {
    seq(16, n requires 0 <= n < 16 => Word(block[4 * n], block[4 * n + 1], block[4 * n + 2], block[4 * n + 3]))
  }

  function Plus(r: Registers, s: Registers): Registers {
    Registers(Add(r.a, s.a), Add(r.b, s.b), Add(r.c, s.c), Add(r.d, s.d))
  }

  function Compress(r: Registers, block: seq<Byte>): Registers
    requires |block| == 64
  {
    Plus(Operations(r, Words(block), 0), r)
  }

  /** All whole blocks of the data in turn. */
  function Chain(r: Registers, data: seq<Byte>): Registers
    decreases |data|
  {
    if |data| < 64 then r else Chain(Compress(r, data[..64]), data[64..])
  }

  /** The four bytes of a word, low-order first. */
  function Bytes(w: bv32): (r: seq<Byte>)
    ensures |r| == 4
  {
    [(w & 0xff) as Byte, ((w >> 8) & 0xff) as Byte, ((w >> 16) & 0xff) as Byte, ((w >> 24) & 0xff) as Byte]
  }

  function WordBytes(w: nat): (r: seq<Byte>)
    requires w < 0x1_0000_0000
    ensures |r| == 4
  {
    Bytes(w as bv32)
  }

  function Zeros(n: nat): (r: seq<Byte>)
    ensures |r| == n
  {
    seq(n, _ => 0)
  }

  /** The number of bits modulo 2^64, as two words, low-order word first. */
  function LengthBytes(bytes: nat): (r: seq<Byte>)
    ensures |r| == 8
  {
    var bits := bytes * 8 % 0x1_0000_0000_0000_0000;
    WordBytes(bits % 0x1_0000_0000) + WordBytes(bits / 0x1_0000_0000)
  }

  function Padded(m: seq<Byte>): seq<Byte> {
    m + [0x80] + Zeros((55 - |m|) % 64) + LengthBytes(|m|)
  }

  function Digest(m: seq<Byte>): seq<Byte> {
    var r := Chain(INITIAL, Padded(m));
    Bytes(r.a) + Bytes(r.b) + Bytes(r.c) + Bytes(r.d)
  }

  // ---------------------------------------------------------------- the rewritten step

  function F(x: bv32, y: bv32, z: bv32): bv32 { z ^ (x & (y ^ z)) }

  function G(x: bv32, y: bv32, z: bv32): bv32 { y ^ (z & (x ^ y)) }

  function H(x: bv32, y: bv32, z: bv32): bv32 { (x ^ y) ^ z }

  function H2(x: bv32, y: bv32, z: bv32): bv32 { x ^ (y ^ z) }

  function I(x: bv32, y: bv32, z: bv32): bv32 { y ^ (x | !z) }

  lemma FIdentity(x: bv32, y: bv32, z: bv32)
    ensures z ^ (x & (y ^ z)) == (x & y) | (!x & z)
  {}

  lemma GIdentity(x: bv32, y: bv32, z: bv32)
    ensures y ^ (z & (x ^ y)) == (x & z) | (y & !z)
  {}

  lemma FAgrees(x: bv32, y: bv32, z: bv32)
    ensures F(x, y, z) == AuxF(x, y, z)
  {
    FIdentity(x, y, z);
  }

  lemma GAgrees(x: bv32, y: bv32, z: bv32)
    ensures G(x, y, z) == AuxG(x, y, z)
  {
    GIdentity(x, y, z);
  }

  lemma HAgrees(x: bv32, y: bv32, z: bv32)
    ensures H(x, y, z) == AuxH(x, y, z) == H2(x, y, z)
  {}

  /** The rotation that the step writes out, for each amount in use. */
  function Rotated(x: bv32, s: nat): bv32 {
    match s
    case 4 => (x << 4) | ((x & 0xffff_ffff) >> 28)
    case 5 => (x << 5) | ((x & 0xffff_ffff) >> 27)
    case 6 => (x << 6) | ((x & 0xffff_ffff) >> 26)
    case 7 => (x << 7) | ((x & 0xffff_ffff) >> 25)
    case 9 => (x << 9) | ((x & 0xffff_ffff) >> 23)
    case 10 => (x << 10) | ((x & 0xffff_ffff) >> 22)
    case 11 => (x << 11) | ((x & 0xffff_ffff) >> 21)
    case 12 => (x << 12) | ((x & 0xffff_ffff) >> 20)
    case 14 => (x << 14) | ((x & 0xffff_ffff) >> 18)
    case 15 => (x << 15) | ((x & 0xffff_ffff) >> 17)
    case 16 => (x << 16) | ((x & 0xffff_ffff) >> 16)
    case 17 => (x << 17) | ((x & 0xffff_ffff) >> 15)
    case 20 => (x << 20) | ((x & 0xffff_ffff) >> 12)
    case 21 => (x << 21) | ((x & 0xffff_ffff) >> 11)
    case 22 => (x << 22) | ((x & 0xffff_ffff) >> 10)
    case 23 => (x << 23) | ((x & 0xffff_ffff) >> 9)
    case _ => x
  }

  predicate InUse(s: nat) {
    s in {4, 5, 6, 7, 9, 10, 11, 12, 14, 15, 16, 17, 20, 21, 22, 23}
  }

  lemma ShiftInUse(i: nat)
    ensures InUse(Shift(i))
  {}

  lemma RotationsAgree(x: bv32, s: nat)
    requires InUse(s)
    ensures Rotated(x, s) == RotateLeft(x, s)
  {
    match s
    case 4 => assert x.RotateLeft(4) == (x << 4) | ((x & 0xffff_ffff) >> 28);
    case 5 => assert x.RotateLeft(5) == (x << 5) | ((x & 0xffff_ffff) >> 27);
    case 6 => assert x.RotateLeft(6) == (x << 6) | ((x & 0xffff_ffff) >> 26);
    case 7 => assert x.RotateLeft(7) == (x << 7) | ((x & 0xffff_ffff) >> 25);
    case 9 => assert x.RotateLeft(9) == (x << 9) | ((x & 0xffff_ffff) >> 23);
    case 10 => assert x.RotateLeft(10) == (x << 10) | ((x & 0xffff_ffff) >> 22);
    case 11 => assert x.RotateLeft(11) == (x << 11) | ((x & 0xffff_ffff) >> 21);
    case 12 => assert x.RotateLeft(12) == (x << 12) | ((x & 0xffff_ffff) >> 20);
    case 14 => assert x.RotateLeft(14) == (x << 14) | ((x & 0xffff_ffff) >> 18);
    case 15 => assert x.RotateLeft(15) == (x << 15) | ((x & 0xffff_ffff) >> 17);
    case 16 => assert x.RotateLeft(16) == (x << 16) | ((x & 0xffff_ffff) >> 16);
    case 17 => assert x.RotateLeft(17) == (x << 17) | ((x & 0xffff_ffff) >> 15);
    case 20 => assert x.RotateLeft(20) == (x << 20) | ((x & 0xffff_ffff) >> 12);
    case 21 => assert x.RotateLeft(21) == (x << 21) | ((x & 0xffff_ffff) >> 11);
    case 22 => assert x.RotateLeft(22) == (x << 22) | ((x & 0xffff_ffff) >> 10);
    case 23 => assert x.RotateLeft(23) == (x << 23) | ((x & 0xffff_ffff) >> 9);
  }

  function StepSum(f: bv32, a: bv32, x: bv32, t: bv32): bv32 {
    a + (f + x + t)
  }

  /** One step: register a becomes the rotated sum plus b, where f is the value of the step's function. */
  function Step(f: bv32, a: bv32, b: bv32, x: bv32, t: bv32, s: nat): bv32 {
    Add(Rotated(StepSum(f, a, x, t), s), b)
  }

  /** Operation i takes word k, constant t and rotation s. */
  predicate IsOperation(i: nat, k: nat, t: bv32, s: nat) {
    i < 64 && k == WordIndex(i) && t == Sine(i) && s == Shift(i)
  }

  lemma SumsAgree(f: bv32, a: bv32, x: bv32, t: bv32)
    ensures StepSum(f, a, x, t) == Sum(a, f, x, t)
  {}

  lemma Commute(u: bv32, v: bv32)
    ensures Add(u, v) == Add(v, u)
  {}

  lemma StepValue(f: bv32, a: bv32, b: bv32, x: bv32, t: bv32, s: nat)
    requires InUse(s) && s <= 32
    ensures Step(f, a, b, x, t, s) == Mixed(a, b, f, x, t, s)
  {
    hide Rotated, RotateLeft, InUse, Add, Sum, StepSum;
    SumsAgree(f, a, x, t);
    RotationsAgree(Sum(a, f, x, t), s);
    Commute(b, RotateLeft(Sum(a, f, x, t), s));
  }

  lemma Advance(r: Registers, x: seq<bv32>, i: nat)
    requires i < 64 && |x| == 16
    ensures Operations(r, x, i) == Operations(Operation(r, x, i), x, i + 1)
  {
    hide Operation;
  }

  /** A step with the value of the right auxiliary function is the operation of the reference. */
  lemma StepIsOperation(r: Registers, x: seq<bv32>, i: nat, f: bv32, k: nat, w: bv32, t: bv32, s: nat)
    requires |x| == 16 && IsOperation(i, k, t, s) && w == x[k] && f == Aux(i, r.b, r.c, r.d)
    ensures Operations(r, x, i) == Operations(Registers(r.d, Step(f, r.a, r.b, w, t, s), r.b, r.c), x, i + 1)
  {
    hide Aux, WordIndex, Sine, Shift, Rotated, RotateLeft, Operations, Step, InUse, Mixed;
    ShiftInUse(i);
    assert s <= 32;
    StepValue(f, r.a, r.b, w, t, s);
    Advance(r, x, i);
  }

  method StepF(a: bv32, b: bv32, c: bv32, d: bv32, w: bv32, t: bv32, s: nat, ghost x: seq<bv32>, ghost i: nat,
               ghost k: nat) returns (r: bv32)
    requires |x| == 16 && IsOperation(i, k, t, s) && w == x[k] && i < 16
    ensures Operations(Registers(a, b, c, d), x, i) == Operations(Registers(d, r, b, c), x, i + 1)
  {
    hide Operations, Step, WordIndex, Sine, Shift, F, AuxF;
    r := Step(F(b, c, d), a, b, w, t, s);
    FAgrees(b, c, d);
    StepIsOperation(Registers(a, b, c, d), x, i, F(b, c, d), k, w, t, s);
  }

  method StepG(a: bv32, b: bv32, c: bv32, d: bv32, w: bv32, t: bv32, s: nat, ghost x: seq<bv32>, ghost i: nat,
               ghost k: nat) returns (r: bv32)
    requires |x| == 16 && IsOperation(i, k, t, s) && w == x[k] && 16 <= i < 32
    ensures Operations(Registers(a, b, c, d), x, i) == Operations(Registers(d, r, b, c), x, i + 1)
  {
    hide Operations, Step, WordIndex, Sine, Shift, G, AuxG;
    r := Step(G(b, c, d), a, b, w, t, s);
    GAgrees(b, c, d);
    StepIsOperation(Registers(a, b, c, d), x, i, G(b, c, d), k, w, t, s);
  }

  method StepH(a: bv32, b: bv32, c: bv32, d: bv32, w: bv32, t: bv32, s: nat, ghost x: seq<bv32>, ghost i: nat,
               ghost k: nat) returns (r: bv32)
    requires |x| == 16 && IsOperation(i, k, t, s) && w == x[k] && 32 <= i < 48
    ensures Operations(Registers(a, b, c, d), x, i) == Operations(Registers(d, r, b, c), x, i + 1)
  {
    hide Operations, Step, WordIndex, Sine, Shift, H, AuxH;
    r := Step(H(b, c, d), a, b, w, t, s);
    HAgrees(b, c, d);
    StepIsOperation(Registers(a, b, c, d), x, i, H(b, c, d), k, w, t, s);
  }

  method StepH2(a: bv32, b: bv32, c: bv32, d: bv32, w: bv32, t: bv32, s: nat, ghost x: seq<bv32>, ghost i: nat,
                ghost k: nat) returns (r: bv32)
    requires |x| == 16 && IsOperation(i, k, t, s) && w == x[k] && 32 <= i < 48
    ensures Operations(Registers(a, b, c, d), x, i) == Operations(Registers(d, r, b, c), x, i + 1)
  {
    hide Operations, Step, WordIndex, Sine, Shift, H2, AuxH;
    r := Step(H2(b, c, d), a, b, w, t, s);
    HAgrees(b, c, d);
    StepIsOperation(Registers(a, b, c, d), x, i, H2(b, c, d), k, w, t, s);
  }

  method StepI(a: bv32, b: bv32, c: bv32, d: bv32, w: bv32, t: bv32, s: nat, ghost x: seq<bv32>, ghost i: nat,
               ghost k: nat) returns (r: bv32)
    requires |x| == 16 && IsOperation(i, k, t, s) && w == x[k] && 48 <= i < 64
    ensures Operations(Registers(a, b, c, d), x, i) == Operations(Registers(d, r, b, c), x, i + 1)
  {
    hide Operations, Step;
    r := Step(I(b, c, d), a, b, w, t, s);
    StepIsOperation(Registers(a, b, c, d), x, i, I(b, c, d), k, w, t, s);
  }

  lemma Sines1()
    ensures Sine(0) == 0xd76aa478 && Sine(1) == 0xe8c7b756 && Sine(2) == 0x242070db && Sine(3) == 0xc1bdceee
    ensures Sine(4) == 0xf57c0faf && Sine(5) == 0x4787c62a && Sine(6) == 0xa8304613 && Sine(7) == 0xfd469501
    ensures Sine(8) == 0x698098d8 && Sine(9) == 0x8b44f7af && Sine(10) == 0xffff5bb1 && Sine(11) == 0x895cd7be
    ensures Sine(12) == 0x6b901122 && Sine(13) == 0xfd987193 && Sine(14) == 0xa679438e && Sine(15) == 0x49b40821
  {}

  lemma Schedule1()
    ensures IsOperation(0, 0, 0xd76aa478, 7) && IsOperation(1, 1, 0xe8c7b756, 12)
    ensures IsOperation(2, 2, 0x242070db, 17) && IsOperation(3, 3, 0xc1bdceee, 22)
    ensures IsOperation(4, 4, 0xf57c0faf, 7) && IsOperation(5, 5, 0x4787c62a, 12)
    ensures IsOperation(6, 6, 0xa8304613, 17) && IsOperation(7, 7, 0xfd469501, 22)
    ensures IsOperation(8, 8, 0x698098d8, 7) && IsOperation(9, 9, 0x8b44f7af, 12)
    ensures IsOperation(10, 10, 0xffff5bb1, 17) && IsOperation(11, 11, 0x895cd7be, 22)
    ensures IsOperation(12, 12, 0x6b901122, 7) && IsOperation(13, 13, 0xfd987193, 12)
    ensures IsOperation(14, 14, 0xa679438e, 17) && IsOperation(15, 15, 0x49b40821, 22)
  {
    hide Sine;
    Sines1();
  }

  lemma Sines2()
    ensures Sine(16) == 0xf61e2562 && Sine(17) == 0xc040b340 && Sine(18) == 0x265e5a51 && Sine(19) == 0xe9b6c7aa
    ensures Sine(20) == 0xd62f105d && Sine(21) == 0x02441453 && Sine(22) == 0xd8a1e681 && Sine(23) == 0xe7d3fbc8
    ensures Sine(24) == 0x21e1cde6 && Sine(25) == 0xc33707d6 && Sine(26) == 0xf4d50d87 && Sine(27) == 0x455a14ed
    ensures Sine(28) == 0xa9e3e905 && Sine(29) == 0xfcefa3f8 && Sine(30) == 0x676f02d9 && Sine(31) == 0x8d2a4c8a
  {}

  lemma Schedule2()
    ensures IsOperation(16, 1, 0xf61e2562, 5) && IsOperation(17, 6, 0xc040b340, 9)
    ensures IsOperation(18, 11, 0x265e5a51, 14) && IsOperation(19, 0, 0xe9b6c7aa, 20)
    ensures IsOperation(20, 5, 0xd62f105d, 5) && IsOperation(21, 10, 0x02441453, 9)
    ensures IsOperation(22, 15, 0xd8a1e681, 14) && IsOperation(23, 4, 0xe7d3fbc8, 20)
    ensures IsOperation(24, 9, 0x21e1cde6, 5) && IsOperation(25, 14, 0xc33707d6, 9)
    ensures IsOperation(26, 3, 0xf4d50d87, 14) && IsOperation(27, 8, 0x455a14ed, 20)
    ensures IsOperation(28, 13, 0xa9e3e905, 5) && IsOperation(29, 2, 0xfcefa3f8, 9)
    ensures IsOperation(30, 7, 0x676f02d9, 14) && IsOperation(31, 12, 0x8d2a4c8a, 20)
  {
    hide Sine;
    Sines2();
  }

  lemma Sines3()
    ensures Sine(32) == 0xfffa3942 && Sine(33) == 0x8771f681 && Sine(34) == 0x6d9d6122 && Sine(35) == 0xfde5380c
    ensures Sine(36) == 0xa4beea44 && Sine(37) == 0x4bdecfa9 && Sine(38) == 0xf6bb4b60 && Sine(39) == 0xbebfbc70
    ensures Sine(40) == 0x289b7ec6 && Sine(41) == 0xeaa127fa && Sine(42) == 0xd4ef3085 && Sine(43) == 0x04881d05
    ensures Sine(44) == 0xd9d4d039 && Sine(45) == 0xe6db99e5 && Sine(46) == 0x1fa27cf8 && Sine(47) == 0xc4ac5665
  {}

  lemma Schedule3()
    ensures IsOperation(32, 5, 0xfffa3942, 4) && IsOperation(33, 8, 0x8771f681, 11)
    ensures IsOperation(34, 11, 0x6d9d6122, 16) && IsOperation(35, 14, 0xfde5380c, 23)
    ensures IsOperation(36, 1, 0xa4beea44, 4) && IsOperation(37, 4, 0x4bdecfa9, 11)
    ensures IsOperation(38, 7, 0xf6bb4b60, 16) && IsOperation(39, 10, 0xbebfbc70, 23)
    ensures IsOperation(40, 13, 0x289b7ec6, 4) && IsOperation(41, 0, 0xeaa127fa, 11)
    ensures IsOperation(42, 3, 0xd4ef3085, 16) && IsOperation(43, 6, 0x04881d05, 23)
    ensures IsOperation(44, 9, 0xd9d4d039, 4) && IsOperation(45, 12, 0xe6db99e5, 11)
    ensures IsOperation(46, 15, 0x1fa27cf8, 16) && IsOperation(47, 2, 0xc4ac5665, 23)
  {
    hide Sine;
    Sines3();
  }

  lemma Sines4()
    ensures Sine(48) == 0xf4292244 && Sine(49) == 0x432aff97 && Sine(50) == 0xab9423a7 && Sine(51) == 0xfc93a039
    ensures Sine(52) == 0x655b59c3 && Sine(53) == 0x8f0ccc92 && Sine(54) == 0xffeff47d && Sine(55) == 0x85845dd1
    ensures Sine(56) == 0x6fa87e4f && Sine(57) == 0xfe2ce6e0 && Sine(58) == 0xa3014314 && Sine(59) == 0x4e0811a1
    ensures Sine(60) == 0xf7537e82 && Sine(61) == 0xbd3af235 && Sine(62) == 0x2ad7d2bb && Sine(63) == 0xeb86d391
  {}

  lemma Schedule4()
    ensures IsOperation(48, 0, 0xf4292244, 6) && IsOperation(49, 7, 0x432aff97, 10)
    ensures IsOperation(50, 14, 0xab9423a7, 15) && IsOperation(51, 5, 0xfc93a039, 21)
    ensures IsOperation(52, 12, 0x655b59c3, 6) && IsOperation(53, 3, 0x8f0ccc92, 10)
    ensures IsOperation(54, 10, 0xffeff47d, 15) && IsOperation(55, 1, 0x85845dd1, 21)
    ensures IsOperation(56, 8, 0x6fa87e4f, 6) && IsOperation(57, 15, 0xfe2ce6e0, 10)
    ensures IsOperation(58, 6, 0xa3014314, 15) && IsOperation(59, 13, 0x4e0811a1, 21)
    ensures IsOperation(60, 4, 0xf7537e82, 6) && IsOperation(61, 11, 0xbd3af235, 10)
    ensures IsOperation(62, 2, 0x2ad7d2bb, 15) && IsOperation(63, 9, 0xeb86d391, 21)
  {
    hide Sine;
    Sines4();
  }

  // ---------------------------------------------------------------- whole blocks and what is left over

  function Tail(m: seq<Byte>): (t: seq<Byte>)
    ensures |t| == |m| % 64
  {
    m[|m| - |m| % 64..]
  }

  lemma {:induction false} ChainAppend(r: Registers, m: seq<Byte>, k: nat)
    requires k <= |m| && k % 64 == 0
    ensures Chain(r, m) == Chain(Chain(r, m[..k]), m[k..])
    decreases |m|
  {
    hide Compress;
    if k == 0 {
      assert m[0..] == m;
    } else {
      ChainAppend(Compress(r, m[..64]), m[64..], k - 64);
      assert m[..k][..64] == m[..64] && m[..k][64..] == m[64..][..k - 64] && m[64..][k - 64..] == m[k..];
    }
  }

  lemma OneBlock(r: Registers, block: seq<Byte>)
    requires |block| == 64
    ensures Chain(r, block) == Compress(r, block)
  {
    hide Compress;
    assert block[..64] == block && block[64..] == [];
  }

  lemma TailOfRest(m: seq<Byte>, k: nat)
    requires k <= |m| && k % 64 == 0
    ensures Tail(m[k..]) == Tail(m)
  {}

  lemma NoBlockLeft(r: Registers, data: seq<Byte>)
    requires |data| < 64
    ensures Chain(r, data) == r
  {}

  /** Taking in more data is processing the left-over bytes and the data together. */
  lemma Absorb(r: Registers, m: seq<Byte>, data: seq<Byte>)
    ensures Chain(r, m + data) == Chain(Chain(r, m), Tail(m) + data)
    ensures Tail(m + data) == Tail(Tail(m) + data)
  {
    hide Chain;
    var k := |m| - |m| % 64;
    assert (m + data)[..k] == m[..k] && (m + data)[k..] == Tail(m) + data;
    ChainAppend(r, m + data, k);
    ChainAppend(r, m, k);
    NoBlockLeft(Chain(r, m[..k]), Tail(m));
    TailOfRest(m + data, k);
  }

  function Padding(m: seq<Byte>): seq<Byte> {
    [0x80] + Zeros((55 - |m|) % 64) + LengthBytes(|m|)
  }

  lemma TwoPads(t: seq<Byte>, a: seq<Byte>, b: seq<Byte>, l: seq<Byte>)
    ensures t + (a + b) + l == t + a + (b + l)
  {}

  lemma ZerosNeeded(n: nat)
    ensures n % 64 < 56 ==> (55 - n) % 64 == 55 - n % 64
    ensures n % 64 >= 56 ==> Zeros((55 - n) % 64) == Zeros(63 - n % 64) + Zeros(56)
  {}

  /** The padding goes into the block that the message leaves unfinished, and into one more when it does not fit. */
  lemma PaddingFits(r: Registers, m: seq<Byte>)
    ensures Chain(r, Padded(m)) == Chain(Chain(r, m), Tail(m) + Padding(m))
    ensures |Tail(m)| < 56 ==> Tail(m) + Padding(m) == Tail(m) + [0x80] + Zeros(55 - |Tail(m)|) + LengthBytes(|m|)
    ensures |Tail(m)| >= 56 ==>
              Tail(m) + Padding(m) == Tail(m) + [0x80] + Zeros(63 - |Tail(m)|) + (Zeros(56) + LengthBytes(|m|))
  {
    hide Chain, Tail, LengthBytes, Zeros;
    assert Padded(m) == m + Padding(m);
    Absorb(r, m, Padding(m));
    ZerosNeeded(|m|);
    if |Tail(m)| >= 56 {
      TwoPads(Tail(m) + [0x80], Zeros(63 - |Tail(m)|), Zeros(56), LengthBytes(|m|));
    }
  }

  lemma TwoBlocks(r: Registers, u: seq<Byte>, v: seq<Byte>)
    requires |u| == 64
    ensures Chain(r, u + v) == Chain(Chain(r, u), v)
  {
    hide Chain;
    ChainAppend(r, u + v, 64);
    assert (u + v)[..64] == u && (u + v)[64..] == v;
  }

  // ---------------------------------------------------------------- the byte counter

  /** hi * 2^29 + lo is the number of bytes modulo 2^61. */
  predicate Counted(lo: nat, hi: nat, n: nat) {
    lo < 0x2000_0000 && hi < 0x1_0000_0000 && hi * 0x2000_0000 + lo == n % 0x2000_0000_0000_0000
  }

  lemma CountedUsed(lo: nat, hi: nat, n: nat)
    requires Counted(lo, hi, n)
    ensures lo % 64 == n % 64
  {}

  lemma ModUnique(x: nat, q: nat, d: nat, r: nat)
    requires r < d && x == q * d + r
    ensures x % d == r && x / d == q
  {
    var k := x / d - q;
    assert k * d == r - x % d;
    assert k >= 1 ==> k * d >= d;
    assert k <= -1 ==> k * d + d <= 0;
  }

  /** Adding twice and reducing each time is adding once and reducing. */
  lemma ReduceOnce(x: nat, y: nat)
    ensures (x % 0x1_0000_0000 + y) % 0x1_0000_0000 == (x + y) % 0x1_0000_0000
  {
    var q, r := (x % 0x1_0000_0000 + y) / 0x1_0000_0000, (x % 0x1_0000_0000 + y) % 0x1_0000_0000;
    ModUnique(x + y, x / 0x1_0000_0000 + q, 0x1_0000_0000, r);
  }

  lemma LowPart(x: nat)
    ensures x % 0x1_0000_0000 % 0x2000_0000 == x % 0x2000_0000
  {
    var y := x % 0x1_0000_0000;
    ModUnique(x, 8 * (x / 0x1_0000_0000) + y / 0x2000_0000, 0x2000_0000, y % 0x2000_0000);
  }

  lemma CarryShows(lo: nat, size: nat)
    requires lo < 0x2000_0000
    ensures var lo' := (lo + size) % 0x2000_0000;
            lo + size == ((if lo' < lo then 1 else 0) + size / 0x2000_0000) * 0x2000_0000 + lo'
  {
    var s0, s1 := size % 0x2000_0000, size / 0x2000_0000;
    if lo + s0 < 0x2000_0000 {
      ModUnique(lo + size, s1, 0x2000_0000, lo + s0);
    } else {
      ModUnique(lo + size, s1 + 1, 0x2000_0000, lo + s0 - 0x2000_0000);
    }
  }

  lemma Assemble(n: nat, q: nat, h: nat, size: nat, lo': nat, hi: nat, lo: nat, carry: nat)
    requires n == q * 0x2000_0000_0000_0000 + hi * 0x2000_0000 + lo
    requires lo + size == (h - hi) * 0x2000_0000 + lo' && lo' < 0x2000_0000
    ensures Counted(lo', h % 0x1_0000_0000, n + size)
  {
    var c, hi' := h / 0x1_0000_0000, h % 0x1_0000_0000;
    assert h == c * 0x1_0000_0000 + hi';
    assert n + size == (q + c) * 0x2000_0000_0000_0000 + (hi' * 0x2000_0000 + lo');
    ModUnique(n + size, q + c, 0x2000_0000_0000_0000, hi' * 0x2000_0000 + lo');
  }

  /** The counter after more bytes: the carry shows in the low part being smaller than before. */
  lemma CounterAdds(lo: nat, hi: nat, n: nat, size: nat, lo': nat, hi': nat)
    requires Counted(lo, hi, n) && size < 0x1_0000_0000
    requires lo' == (lo + size) % 0x1_0000_0000 % 0x2000_0000
    requires hi' == ((if lo' < lo then (hi + 1) % 0x1_0000_0000 else hi) + size / 0x2000_0000) % 0x1_0000_0000
    ensures Counted(lo', hi', n + size)
  {
    LowPart(lo + size);
    var s1, carry := size / 0x2000_0000, if lo' < lo then 1 else 0;
    CarryShows(lo, size);
    ReduceOnce(hi + carry, s1);
    var h := hi + carry + s1;
    Assemble(n, n / 0x2000_0000_0000_0000, h, size, lo', hi, lo, carry);
  }

  /** Shifted by three, the two counter words are the length in bits. */
  lemma CounterBits(lo: nat, hi: nat, n: nat)
    requires Counted(lo, hi, n)
    ensures lo * 8 < 0x1_0000_0000
    ensures LengthBytes(n) == WordBytes(lo * 8) + WordBytes(hi)
  {
    hide WordBytes;
    ModUnique(n * 8, n / 0x2000_0000_0000_0000, 0x1_0000_0000_0000_0000, hi * 0x1_0000_0000 + lo * 8);
    ModUnique(hi * 0x1_0000_0000 + lo * 8, hi, 0x1_0000_0000, lo * 8);
  }

  // ---------------------------------------------------------------- the streaming context

  lemma ShortTail(u: seq<Byte>)
    requires |u| < 64
    ensures Tail(u) == u
  {}

  lemma BlockDone(r: Registers, s: Registers, ptr: seq<Byte>)
    requires |ptr| >= 64 && Operations(r, Words(ptr[..64]), 0) == Operations(s, Words(ptr[..64]), 64)
    ensures Chain(r, ptr) == Chain(Plus(s, r), ptr[64..])
  {
    hide Words, Add;
  }

  class Context {
    var lo: nat
    var hi: nat
    var a: bv32
    var b: bv32
    var c: bv32
    var d: bv32

    const buffer: array<Byte>
    const block: array<bv32>

    constructor ()
      ensures buffer.Length == 64 && block.Length == 16 && fresh(buffer) && fresh(block)
    {
      buffer, block := new Byte[64], new bv32[16];
    }

    ghost predicate Shaped() {
      buffer.Length == 64 && block.Length == 16
    }

    /** The context has taken in exactly the message m. */
    ghost predicate Fed(m: seq<Byte>)
      reads this, buffer
    {
      && Shaped()
      && Counted(lo, hi, |m|)
      && Registers(a, b, c, d) == Chain(INITIAL, m)
      && buffer[..|m| % 64] == Tail(m)
    }

    /** The first n words of the block are those of the 64 bytes being processed. */
    ghost predicate Loaded(x: seq<bv32>, n: nat)
      reads block
    {
      n <= 16 == block.Length == |x| && forall k :: 0 <= k < n ==> block[k] == x[k]
    }

    lemma NothingLoaded(x: seq<bv32>)
      requires |x| == 16 == block.Length
      ensures Loaded(x, 0)
    {}

    /** SET: the next word, read low-order byte first. */
    method SetWord(n: nat, ptr: seq<Byte>) returns (w: bv32)
      requires n < 16 && |ptr| >= 64 && Loaded(Words(ptr[..64]), n)
      modifies block
      ensures Loaded(Words(ptr[..64]), n + 1) && w == Words(ptr[..64])[n]
    {
      block[n] := Word(ptr[n * 4], ptr[n * 4 + 1], ptr[n * 4 + 2], ptr[n * 4 + 3]);
      w := block[n];
    }

    function GetWord(n: nat, ghost x: seq<bv32>): (w: bv32)
      requires n < 16 && Loaded(x, 16)
      reads block
      ensures w == x[n]
    {
      block[n]
    }

    method Round1(a0: bv32, b0: bv32, c0: bv32, d0: bv32, ptr: seq<Byte>) returns (a: bv32, b: bv32, c: bv32, d: bv32)
      requires |ptr| >= 64 && block.Length == 16
      modifies block
      ensures Loaded(Words(ptr[..64]), 16)
      ensures Operations(Registers(a0, b0, c0, d0), Words(ptr[..64]), 0)
              == Operations(Registers(a, b, c, d), Words(ptr[..64]), 16)
    {
      hide Operations, IsOperation, Words, Word, Loaded;
      Schedule1();
      NothingLoaded(Words(ptr[..64]));
      ghost var x := Words(ptr[..64]);
      a, b, c, d := a0, b0, c0, d0;
      var w: bv32;
      w := SetWord(0, ptr);
      a := StepF(a, b, c, d, w, 0xd76aa478, 7, x, 0, 0);
      w := SetWord(1, ptr);
      d := StepF(d, a, b, c, w, 0xe8c7b756, 12, x, 1, 1);
      w := SetWord(2, ptr);
      c := StepF(c, d, a, b, w, 0x242070db, 17, x, 2, 2);
      w := SetWord(3, ptr);
      b := StepF(b, c, d, a, w, 0xc1bdceee, 22, x, 3, 3);
      w := SetWord(4, ptr);
      a := StepF(a, b, c, d, w, 0xf57c0faf, 7, x, 4, 4);
      w := SetWord(5, ptr);
      d := StepF(d, a, b, c, w, 0x4787c62a, 12, x, 5, 5);
      w := SetWord(6, ptr);
      c := StepF(c, d, a, b, w, 0xa8304613, 17, x, 6, 6);
      w := SetWord(7, ptr);
      b := StepF(b, c, d, a, w, 0xfd469501, 22, x, 7, 7);
      w := SetWord(8, ptr);
      a := StepF(a, b, c, d, w, 0x698098d8, 7, x, 8, 8);
      w := SetWord(9, ptr);
      d := StepF(d, a, b, c, w, 0x8b44f7af, 12, x, 9, 9);
      w := SetWord(10, ptr);
      c := StepF(c, d, a, b, w, 0xffff5bb1, 17, x, 10, 10);
      w := SetWord(11, ptr);
      b := StepF(b, c, d, a, w, 0x895cd7be, 22, x, 11, 11);
      w := SetWord(12, ptr);
      a := StepF(a, b, c, d, w, 0x6b901122, 7, x, 12, 12);
      w := SetWord(13, ptr);
      d := StepF(d, a, b, c, w, 0xfd987193, 12, x, 13, 13);
      w := SetWord(14, ptr);
      c := StepF(c, d, a, b, w, 0xa679438e, 17, x, 14, 14);
      w := SetWord(15, ptr);
      b := StepF(b, c, d, a, w, 0x49b40821, 22, x, 15, 15);
    }

    method Round2(a0: bv32, b0: bv32, c0: bv32, d0: bv32, ghost x: seq<bv32>)
      returns (a: bv32, b: bv32, c: bv32, d: bv32)
      requires Loaded(x, 16)
      ensures Operations(Registers(a0, b0, c0, d0), x, 16) == Operations(Registers(a, b, c, d), x, 32)
    {
      hide Operations, IsOperation;
      Schedule2();
      a, b, c, d := a0, b0, c0, d0;
      a := StepG(a, b, c, d, GetWord(1, x), 0xf61e2562, 5, x, 16, 1);
      d := StepG(d, a, b, c, GetWord(6, x), 0xc040b340, 9, x, 17, 6);
      c := StepG(c, d, a, b, GetWord(11, x), 0x265e5a51, 14, x, 18, 11);
      b := StepG(b, c, d, a, GetWord(0, x), 0xe9b6c7aa, 20, x, 19, 0);
      a := StepG(a, b, c, d, GetWord(5, x), 0xd62f105d, 5, x, 20, 5);
      d := StepG(d, a, b, c, GetWord(10, x), 0x02441453, 9, x, 21, 10);
      c := StepG(c, d, a, b, GetWord(15, x), 0xd8a1e681, 14, x, 22, 15);
      b := StepG(b, c, d, a, GetWord(4, x), 0xe7d3fbc8, 20, x, 23, 4);
      a := StepG(a, b, c, d, GetWord(9, x), 0x21e1cde6, 5, x, 24, 9);
      d := StepG(d, a, b, c, GetWord(14, x), 0xc33707d6, 9, x, 25, 14);
      c := StepG(c, d, a, b, GetWord(3, x), 0xf4d50d87, 14, x, 26, 3);
      b := StepG(b, c, d, a, GetWord(8, x), 0x455a14ed, 20, x, 27, 8);
      a := StepG(a, b, c, d, GetWord(13, x), 0xa9e3e905, 5, x, 28, 13);
      d := StepG(d, a, b, c, GetWord(2, x), 0xfcefa3f8, 9, x, 29, 2);
      c := StepG(c, d, a, b, GetWord(7, x), 0x676f02d9, 14, x, 30, 7);
      b := StepG(b, c, d, a, GetWord(12, x), 0x8d2a4c8a, 20, x, 31, 12);
    }

    method Round3(a0: bv32, b0: bv32, c0: bv32, d0: bv32, ghost x: seq<bv32>)
      returns (a: bv32, b: bv32, c: bv32, d: bv32)
      requires Loaded(x, 16)
      ensures Operations(Registers(a0, b0, c0, d0), x, 32) == Operations(Registers(a, b, c, d), x, 48)
    {
      hide Operations, IsOperation;
      Schedule3();
      a, b, c, d := a0, b0, c0, d0;
      a := StepH(a, b, c, d, GetWord(5, x), 0xfffa3942, 4, x, 32, 5);
      d := StepH2(d, a, b, c, GetWord(8, x), 0x8771f681, 11, x, 33, 8);
      c := StepH(c, d, a, b, GetWord(11, x), 0x6d9d6122, 16, x, 34, 11);
      b := StepH2(b, c, d, a, GetWord(14, x), 0xfde5380c, 23, x, 35, 14);
      a := StepH(a, b, c, d, GetWord(1, x), 0xa4beea44, 4, x, 36, 1);
      d := StepH2(d, a, b, c, GetWord(4, x), 0x4bdecfa9, 11, x, 37, 4);
      c := StepH(c, d, a, b, GetWord(7, x), 0xf6bb4b60, 16, x, 38, 7);
      b := StepH2(b, c, d, a, GetWord(10, x), 0xbebfbc70, 23, x, 39, 10);
      a := StepH(a, b, c, d, GetWord(13, x), 0x289b7ec6, 4, x, 40, 13);
      d := StepH2(d, a, b, c, GetWord(0, x), 0xeaa127fa, 11, x, 41, 0);
      c := StepH(c, d, a, b, GetWord(3, x), 0xd4ef3085, 16, x, 42, 3);
      b := StepH2(b, c, d, a, GetWord(6, x), 0x04881d05, 23, x, 43, 6);
      a := StepH(a, b, c, d, GetWord(9, x), 0xd9d4d039, 4, x, 44, 9);
      d := StepH2(d, a, b, c, GetWord(12, x), 0xe6db99e5, 11, x, 45, 12);
      c := StepH(c, d, a, b, GetWord(15, x), 0x1fa27cf8, 16, x, 46, 15);
      b := StepH2(b, c, d, a, GetWord(2, x), 0xc4ac5665, 23, x, 47, 2);
    }

    method Round4(a0: bv32, b0: bv32, c0: bv32, d0: bv32, ghost x: seq<bv32>)
      returns (a: bv32, b: bv32, c: bv32, d: bv32)
      requires Loaded(x, 16)
      ensures Operations(Registers(a0, b0, c0, d0), x, 48) == Operations(Registers(a, b, c, d), x, 64)
    {
      hide Operations, IsOperation;
      Schedule4();
      a, b, c, d := a0, b0, c0, d0;
      a := StepI(a, b, c, d, GetWord(0, x), 0xf4292244, 6, x, 48, 0);
      d := StepI(d, a, b, c, GetWord(7, x), 0x432aff97, 10, x, 49, 7);
      c := StepI(c, d, a, b, GetWord(14, x), 0xab9423a7, 15, x, 50, 14);
      b := StepI(b, c, d, a, GetWord(5, x), 0xfc93a039, 21, x, 51, 5);
      a := StepI(a, b, c, d, GetWord(12, x), 0x655b59c3, 6, x, 52, 12);
      d := StepI(d, a, b, c, GetWord(3, x), 0x8f0ccc92, 10, x, 53, 3);
      c := StepI(c, d, a, b, GetWord(10, x), 0xffeff47d, 15, x, 54, 10);
      b := StepI(b, c, d, a, GetWord(1, x), 0x85845dd1, 21, x, 55, 1);
      a := StepI(a, b, c, d, GetWord(8, x), 0x6fa87e4f, 6, x, 56, 8);
      d := StepI(d, a, b, c, GetWord(15, x), 0xfe2ce6e0, 10, x, 57, 15);
      c := StepI(c, d, a, b, GetWord(6, x), 0xa3014314, 15, x, 58, 6);
      b := StepI(b, c, d, a, GetWord(13, x), 0x4e0811a1, 21, x, 59, 13);
      a := StepI(a, b, c, d, GetWord(4, x), 0xf7537e82, 6, x, 60, 4);
      d := StepI(d, a, b, c, GetWord(11, x), 0xbd3af235, 10, x, 61, 11);
      c := StepI(c, d, a, b, GetWord(2, x), 0x2ad7d2bb, 15, x, 62, 2);
      b := StepI(b, c, d, a, GetWord(9, x), 0xeb86d391, 21, x, 63, 9);
    }

    /** Processes one or more whole blocks. */
    method Body(data: seq<Byte>)
      requires |data| > 0 && |data| % 64 == 0 && block.Length == 16
      modifies this`a, this`b, this`c, this`d, block
      ensures Registers(a, b, c, d) == Chain(old(Registers(a, b, c, d)), data)
    {
      hide Operations, Words, Chain, Add, Loaded;
      var ptr, size := data, |data|;
      var a, b, c, d := this.a, this.b, this.c, this.d;
      while true
        invariant size == |ptr| > 0 && size % 64 == 0
        invariant Chain(old(Registers(this.a, this.b, this.c, this.d)), data) == Chain(Registers(a, b, c, d), ptr)
        decreases size
      {
        var savedA, savedB, savedC, savedD := a, b, c, d;
        ghost var x := Words(ptr[..64]);
        a, b, c, d := Round1(a, b, c, d, ptr);
        a, b, c, d := Round2(a, b, c, d, x);
        a, b, c, d := Round3(a, b, c, d, x);
        a, b, c, d := Round4(a, b, c, d, x);
        BlockDone(Registers(savedA, savedB, savedC, savedD), Registers(a, b, c, d), ptr);
        a, b, c, d := Add(a, savedA), Add(b, savedB), Add(c, savedC), Add(d, savedD);
        ptr := ptr[64..];
        size := size - 64;
        if size == 0 { break; }
      }
      NoBlockLeft(Registers(a, b, c, d), ptr);
      this.a, this.b, this.c, this.d := a, b, c, d;
    }

    method Init()
      requires Shaped()
      modifies this`lo, this`hi, this`a, this`b, this`c, this`d
      ensures Fed([])
    {
      hide Chain;
      a, b, c, d := 0x67452301, 0xefcdab89, 0x98badcfe, 0x10325476;
      lo, hi := 0, 0;
      NoBlockLeft(INITIAL, []);
    }

    /** memcpy into the buffer. */
    method CopyIn(at: nat, data: seq<Byte>)
      requires Shaped() && at + |data| <= 64
      modifies buffer
      ensures buffer[..] == old(buffer[..])[..at] + data + old(buffer[..])[at + |data|..]
    {
      ghost var was := buffer[..];
      var i := 0;
      while i < |data|
        invariant 0 <= i <= |data|
        invariant buffer[..] == was[..at] + data[..i] + was[at + i..]
      {
        buffer[at + i] := data[i];
        i := i + 1;
      }
    }

    /** Adds to the byte counter, whose low part keeps 29 bits. */
    method Count(size: nat, ghost n: nat)
      requires Counted(lo, hi, n) && size < 0x1_0000_0000
      modifies this`lo, this`hi
      ensures Counted(lo, hi, n + size)
    {
      var savedLo := lo;
      lo := (savedLo + size) % 0x1_0000_0000 % 0x2000_0000;
      if lo < savedLo { hi := (hi + 1) % 0x1_0000_0000; }
      hi := (hi + size / 0x2000_0000) % 0x1_0000_0000;
      CounterAdds(savedLo, old(hi), n, size, lo, hi);
    }

    /** The whole blocks of the data, then the rest into the empty buffer. */
    method Blocks(data: seq<Byte>, size: nat)
      requires Shaped() && size == |data|
      modifies this`a, this`b, this`c, this`d, buffer, block
      ensures Registers(a, b, c, d) == Chain(old(Registers(a, b, c, d)), data)
      ensures buffer[..|Tail(data)|] == Tail(data)
    {
      hide Chain, Tail;
      ghost var r, k := Registers(a, b, c, d), size - size % 64;
      var rest, size := data, size;
      if size >= 64 {
        Body(rest[..size - size % 64]);
        rest := rest[size - size % 64..];
        size := size % 64;
      }
      assert rest == data[k..];
      ChainAppend(r, data, k);
      NoBlockLeft(r, data[..0]);
      TailOfRest(data, k);
      NoBlockLeft(Registers(a, b, c, d), rest);
      ShortTail(rest);
      CopyIn(0, rest);
      assert buffer[..|rest|] == rest;
    }

    /** Completes and processes the block in the buffer, then the whole blocks of the data, and keeps the rest. */
    method Fill(used: nat, data: seq<Byte>, ghost tail: seq<Byte>)
      requires Shaped() && used == |tail| < 64 && buffer[..used] == tail
      modifies this`a, this`b, this`c, this`d, buffer, block
      ensures Registers(a, b, c, d) == Chain(old(Registers(a, b, c, d)), tail + data)
      ensures buffer[..|Tail(tail + data)|] == Tail(tail + data)
    {
      hide Chain, Tail;
      var size, rest := |data|, data;
      ghost var r, u := Registers(a, b, c, d), tail + data;
      if used != 0 {
        var available := 64 - used;
        if size < available {
          CopyIn(used, data);
          NoBlockLeft(r, u);
          ShortTail(u);
          assert buffer[..|u|] == u;
          return;
        }
        CopyIn(used, data[..available]);
        rest := data[available..];
        size := size - available;
        assert buffer[..] == u[..64] && rest == u[64..];
        Body(buffer[..]);
        ChainAppend(r, u, 64);
        TailOfRest(u, 64);
      } else {
        assert u == data;
      }
      Blocks(rest, size);
    }

    method Update(data: seq<Byte>, ghost m: seq<Byte>)
      requires Fed(m) && |data| < 0x1_0000_0000
      modifies this`lo, this`hi, this`a, this`b, this`c, this`d, buffer, block
      ensures Fed(m + data)
    {
      hide Chain, Counted, Tail;
      var savedLo := lo;
      CountedUsed(lo, hi, |m|);
      Count(|data|, |m|);
      Absorb(INITIAL, m, data);
      Fill(savedLo % 64, data, Tail(m));
    }

    /** memset of part of the buffer. */
    method ZeroOut(at: nat, n: nat)
      requires Shaped() && at + n <= 64
      modifies buffer
      ensures buffer[..] == old(buffer[..])[..at] + Zeros(n) + old(buffer[..])[at + n..]
    {
      ghost var was := buffer[..];
      var i := 0;
      while i < n
        invariant 0 <= i <= n
        invariant buffer[..] == was[..at] + Zeros(i) + was[at + i..]
      {
        buffer[at + i] := 0;
        i := i + 1;
      }
    }

    method Close(used: nat, ghost t: seq<Byte>, ghost length: seq<Byte>)
      requires Shaped() && used == |t| <= 56 && buffer[..used] == t
      requires lo * 8 < 0x1_0000_0000 && hi < 0x1_0000_0000 && length == WordBytes(lo * 8) + WordBytes(hi)
      modifies this, buffer, block
      ensures Registers(a, b, c, d) == Chain(old(Registers(a, b, c, d)), t + Zeros(56 - used) + length)
    {
      hide Chain, WordBytes, Zeros;
      ZeroOut(used, 64 - used - 8);
      lo := lo * 8;
      CopyIn(56, WordBytes(lo));
      CopyIn(60, WordBytes(hi));
      assert buffer[..] == t + Zeros(56 - used) + length;
      Body(buffer[..]);
    }

    /** The padding and the length, from the first free place of the buffer on. */
    method Finish(n: nat, ghost t: seq<Byte>, ghost length: seq<Byte>)
      requires Shaped() && n == |t| < 64 && buffer[..n] == t
      requires lo * 8 < 0x1_0000_0000 && hi < 0x1_0000_0000 && length == WordBytes(lo * 8) + WordBytes(hi)
      modifies this, buffer, block
      ensures Registers(a, b, c, d)
           == Chain(old(Registers(a, b, c, d)),
                    if n < 56 then t + [0x80] + Zeros(55 - n) + length
                      else t + [0x80] + Zeros(63 - n) + (Zeros(56) + length))
    {
      hide Chain, WordBytes, Zeros;
      ghost var r := Registers(a, b, c, d);
      var used := n;
      buffer[used] := 0x80;
      used := used + 1;
      assert buffer[..used] == t + [0x80];
      var available := 64 - used;
      if available < 8 {
        ZeroOut(used, available);
        assert buffer[..] == t + [0x80] + Zeros(63 - n);
        TwoBlocks(r, buffer[..], Zeros(56) + length);
        Body(buffer[..]);
        used := 0;
        available := 64;
      }
      assert [] + Zeros(56) == Zeros(56);
      Close(used, if n < 56 then t + [0x80] else [], length);
    }

    method Final(ghost m: seq<Byte>) returns (result: seq<Byte>)
      requires Fed(m)
      modifies this, buffer, block
      ensures result == Digest(m)
      ensures lo == hi == 0 && a == b == c == d == 0 && buffer[..] == Zeros(64)
    {
      hide Chain, Tail, WordBytes, Bytes, Zeros, Padding;
      CountedUsed(lo, hi, |m|);
      CounterBits(lo, hi, |m|);
      PaddingFits(INITIAL, m);
      Finish(lo % 64, Tail(m), LengthBytes(|m|));
      result := Bytes(a) + Bytes(b) + Bytes(c) + Bytes(d);
      a, b, c, d := 0, 0, 0, 0;
      lo, hi := 0, 0;
      ZeroOut(0, 64);
    }
  }

  function Joined(chunks: seq<seq<Byte>>): seq<Byte> {
    if chunks == [] then [] else Joined(chunks[..|chunks| - 1]) + chunks[|chunks| - 1]
  }

  lemma NothingJoined(chunks: seq<seq<Byte>>)
    ensures Joined(chunks[..0]) == []
  {}

  lemma JoinedNext(chunks: seq<seq<Byte>>, i: nat)
    requires i < |chunks|
    ensures Joined(chunks[..i + 1]) == Joined(chunks[..i]) + chunks[i]
  {
    assert chunks[..i + 1][..i] == chunks[..i];
  }

  /** However the message is cut into chunks, the streamed result is the digest of the whole. */
  method Md5Sum(chunks: seq<seq<Byte>>) returns (result: seq<Byte>)
    requires forall k :: 0 <= k < |chunks| ==> |chunks[k]| < 0x1_0000_0000
    ensures result == Digest(Joined(chunks))
  {
    hide Digest, Joined, Chain, Counted, Tail;
    var ctx := new Context();
    ctx.Init();
    NothingJoined(chunks);
    var i := 0;
    while i < |chunks|
      invariant 0 <= i <= |chunks| && fresh(ctx) && fresh(ctx.buffer) && fresh(ctx.block)
      invariant ctx.Fed(Joined(chunks[..i]))
    {
      ctx.Update(chunks[i], Joined(chunks[..i]));
      JoinedNext(chunks, i);
      i := i + 1;
    }
    assert chunks[..i] == chunks;
    result := ctx.Final(Joined(chunks));
  }
}
