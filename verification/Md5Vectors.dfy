/** The reference of module Md5 at test vectors of RFC 1321, appendix A.5, sixteen operations at a time. */
module Md5Vectors {
  import opened Md5

  /** Operation i on the registers a, b, c, d, where u is the sum that is rotated and e the new value. */
  lemma Turn(a: bv32, b: bv32, c: bv32, d: bv32, x: seq<bv32>, i: nat, k: nat, w: bv32, t: bv32, s: nat, u: bv32,
             e: bv32)
    requires |x| == 16 && IsOperation(i, k, t, s) && x[k] == w
    requires u == Sum(a, Aux(i, b, c, d), w, t) && e == Add(b, Rotated(u, s))
    ensures Operations(Registers(a, b, c, d), x, i) == Operations(Registers(d, e, b, c), x, i + 1)
  {
    hide Aux, WordIndex, Sine, Shift, Rotated, RotateLeft, Operations, InUse, Add, Sum;
    ShiftInUse(i);
    RotationsAgree(u, s);
    Advance(Registers(a, b, c, d), x, i);
  }

  lemma Whole(x: bv32)
    ensures x & 0xffff_ffff == x
  {}

  // An operation with each of the rotations.

  lemma Turn4(a: bv32, b: bv32, c: bv32, d: bv32, x: seq<bv32>, i: nat, k: nat, w: bv32, t: bv32, u: bv32, e: bv32)
    requires |x| == 16 && IsOperation(i, k, t, 4) && x[k] == w
    requires u == Sum(a, Aux(i, b, c, d), w, t) && e == Add(b, (u << 4) | (u >> 28))
    ensures Operations(Registers(a, b, c, d), x, i) == Operations(Registers(d, e, b, c), x, i + 1)
  {
    hide Operations, IsOperation, Aux, Add, Sum;
    Whole(u);
    Turn(a, b, c, d, x, i, k, w, t, 4, u, e);
  }

  lemma Turn5(a: bv32, b: bv32, c: bv32, d: bv32, x: seq<bv32>, i: nat, k: nat, w: bv32, t: bv32, u: bv32, e: bv32)
    requires |x| == 16 && IsOperation(i, k, t, 5) && x[k] == w
    requires u == Sum(a, Aux(i, b, c, d), w, t) && e == Add(b, (u << 5) | (u >> 27))
    ensures Operations(Registers(a, b, c, d), x, i) == Operations(Registers(d, e, b, c), x, i + 1)
  {
    hide Operations, IsOperation, Aux, Add, Sum;
    Whole(u);
    Turn(a, b, c, d, x, i, k, w, t, 5, u, e);
  }

  lemma Turn6(a: bv32, b: bv32, c: bv32, d: bv32, x: seq<bv32>, i: nat, k: nat, w: bv32, t: bv32, u: bv32, e: bv32)
    requires |x| == 16 && IsOperation(i, k, t, 6) && x[k] == w
    requires u == Sum(a, Aux(i, b, c, d), w, t) && e == Add(b, (u << 6) | (u >> 26))
    ensures Operations(Registers(a, b, c, d), x, i) == Operations(Registers(d, e, b, c), x, i + 1)
  {
    hide Operations, IsOperation, Aux, Add, Sum;
    Whole(u);
    Turn(a, b, c, d, x, i, k, w, t, 6, u, e);
  }

  lemma Turn7(a: bv32, b: bv32, c: bv32, d: bv32, x: seq<bv32>, i: nat, k: nat, w: bv32, t: bv32, u: bv32, e: bv32)
    requires |x| == 16 && IsOperation(i, k, t, 7) && x[k] == w
    requires u == Sum(a, Aux(i, b, c, d), w, t) && e == Add(b, (u << 7) | (u >> 25))
    ensures Operations(Registers(a, b, c, d), x, i) == Operations(Registers(d, e, b, c), x, i + 1)
  {
    hide Operations, IsOperation, Aux, Add, Sum;
    Whole(u);
    Turn(a, b, c, d, x, i, k, w, t, 7, u, e);
  }

  lemma Turn9(a: bv32, b: bv32, c: bv32, d: bv32, x: seq<bv32>, i: nat, k: nat, w: bv32, t: bv32, u: bv32, e: bv32)
    requires |x| == 16 && IsOperation(i, k, t, 9) && x[k] == w
    requires u == Sum(a, Aux(i, b, c, d), w, t) && e == Add(b, (u << 9) | (u >> 23))
    ensures Operations(Registers(a, b, c, d), x, i) == Operations(Registers(d, e, b, c), x, i + 1)
  {
    hide Operations, IsOperation, Aux, Add, Sum;
    Whole(u);
    Turn(a, b, c, d, x, i, k, w, t, 9, u, e);
  }

  lemma Turn10(a: bv32, b: bv32, c: bv32, d: bv32, x: seq<bv32>, i: nat, k: nat, w: bv32, t: bv32, u: bv32, e: bv32)
    requires |x| == 16 && IsOperation(i, k, t, 10) && x[k] == w
    requires u == Sum(a, Aux(i, b, c, d), w, t) && e == Add(b, (u << 10) | (u >> 22))
    ensures Operations(Registers(a, b, c, d), x, i) == Operations(Registers(d, e, b, c), x, i + 1)
  {
    hide Operations, IsOperation, Aux, Add, Sum;
    Whole(u);
    Turn(a, b, c, d, x, i, k, w, t, 10, u, e);
  }

  lemma Turn11(a: bv32, b: bv32, c: bv32, d: bv32, x: seq<bv32>, i: nat, k: nat, w: bv32, t: bv32, u: bv32, e: bv32)
    requires |x| == 16 && IsOperation(i, k, t, 11) && x[k] == w
    requires u == Sum(a, Aux(i, b, c, d), w, t) && e == Add(b, (u << 11) | (u >> 21))
    ensures Operations(Registers(a, b, c, d), x, i) == Operations(Registers(d, e, b, c), x, i + 1)
  {
    hide Operations, IsOperation, Aux, Add, Sum;
    Whole(u);
    Turn(a, b, c, d, x, i, k, w, t, 11, u, e);
  }

  lemma Turn12(a: bv32, b: bv32, c: bv32, d: bv32, x: seq<bv32>, i: nat, k: nat, w: bv32, t: bv32, u: bv32, e: bv32)
    requires |x| == 16 && IsOperation(i, k, t, 12) && x[k] == w
    requires u == Sum(a, Aux(i, b, c, d), w, t) && e == Add(b, (u << 12) | (u >> 20))
    ensures Operations(Registers(a, b, c, d), x, i) == Operations(Registers(d, e, b, c), x, i + 1)
  {
    hide Operations, IsOperation, Aux, Add, Sum;
    Whole(u);
    Turn(a, b, c, d, x, i, k, w, t, 12, u, e);
  }

  lemma Turn14(a: bv32, b: bv32, c: bv32, d: bv32, x: seq<bv32>, i: nat, k: nat, w: bv32, t: bv32, u: bv32, e: bv32)
    requires |x| == 16 && IsOperation(i, k, t, 14) && x[k] == w
    requires u == Sum(a, Aux(i, b, c, d), w, t) && e == Add(b, (u << 14) | (u >> 18))
    ensures Operations(Registers(a, b, c, d), x, i) == Operations(Registers(d, e, b, c), x, i + 1)
  {
    hide Operations, IsOperation, Aux, Add, Sum;
    Whole(u);
    Turn(a, b, c, d, x, i, k, w, t, 14, u, e);
  }

  lemma Turn15(a: bv32, b: bv32, c: bv32, d: bv32, x: seq<bv32>, i: nat, k: nat, w: bv32, t: bv32, u: bv32, e: bv32)
    requires |x| == 16 && IsOperation(i, k, t, 15) && x[k] == w
    requires u == Sum(a, Aux(i, b, c, d), w, t) && e == Add(b, (u << 15) | (u >> 17))
    ensures Operations(Registers(a, b, c, d), x, i) == Operations(Registers(d, e, b, c), x, i + 1)
  {
    hide Operations, IsOperation, Aux, Add, Sum;
    Whole(u);
    Turn(a, b, c, d, x, i, k, w, t, 15, u, e);
  }

  lemma Turn16(a: bv32, b: bv32, c: bv32, d: bv32, x: seq<bv32>, i: nat, k: nat, w: bv32, t: bv32, u: bv32, e: bv32)
    requires |x| == 16 && IsOperation(i, k, t, 16) && x[k] == w
    requires u == Sum(a, Aux(i, b, c, d), w, t) && e == Add(b, (u << 16) | (u >> 16))
    ensures Operations(Registers(a, b, c, d), x, i) == Operations(Registers(d, e, b, c), x, i + 1)
  {
    hide Operations, IsOperation, Aux, Add, Sum;
    Whole(u);
    Turn(a, b, c, d, x, i, k, w, t, 16, u, e);
  }

  lemma Turn17(a: bv32, b: bv32, c: bv32, d: bv32, x: seq<bv32>, i: nat, k: nat, w: bv32, t: bv32, u: bv32, e: bv32)
    requires |x| == 16 && IsOperation(i, k, t, 17) && x[k] == w
    requires u == Sum(a, Aux(i, b, c, d), w, t) && e == Add(b, (u << 17) | (u >> 15))
    ensures Operations(Registers(a, b, c, d), x, i) == Operations(Registers(d, e, b, c), x, i + 1)
  {
    hide Operations, IsOperation, Aux, Add, Sum;
    Whole(u);
    Turn(a, b, c, d, x, i, k, w, t, 17, u, e);
  }

  lemma Turn20(a: bv32, b: bv32, c: bv32, d: bv32, x: seq<bv32>, i: nat, k: nat, w: bv32, t: bv32, u: bv32, e: bv32)
    requires |x| == 16 && IsOperation(i, k, t, 20) && x[k] == w
    requires u == Sum(a, Aux(i, b, c, d), w, t) && e == Add(b, (u << 20) | (u >> 12))
    ensures Operations(Registers(a, b, c, d), x, i) == Operations(Registers(d, e, b, c), x, i + 1)
  {
    hide Operations, IsOperation, Aux, Add, Sum;
    Whole(u);
    Turn(a, b, c, d, x, i, k, w, t, 20, u, e);
  }

  lemma Turn21(a: bv32, b: bv32, c: bv32, d: bv32, x: seq<bv32>, i: nat, k: nat, w: bv32, t: bv32, u: bv32, e: bv32)
    requires |x| == 16 && IsOperation(i, k, t, 21) && x[k] == w
    requires u == Sum(a, Aux(i, b, c, d), w, t) && e == Add(b, (u << 21) | (u >> 11))
    ensures Operations(Registers(a, b, c, d), x, i) == Operations(Registers(d, e, b, c), x, i + 1)
  {
    hide Operations, IsOperation, Aux, Add, Sum;
    Whole(u);
    Turn(a, b, c, d, x, i, k, w, t, 21, u, e);
  }

  lemma Turn22(a: bv32, b: bv32, c: bv32, d: bv32, x: seq<bv32>, i: nat, k: nat, w: bv32, t: bv32, u: bv32, e: bv32)
    requires |x| == 16 && IsOperation(i, k, t, 22) && x[k] == w
    requires u == Sum(a, Aux(i, b, c, d), w, t) && e == Add(b, (u << 22) | (u >> 10))
    ensures Operations(Registers(a, b, c, d), x, i) == Operations(Registers(d, e, b, c), x, i + 1)
  {
    hide Operations, IsOperation, Aux, Add, Sum;
    Whole(u);
    Turn(a, b, c, d, x, i, k, w, t, 22, u, e);
  }

  lemma Turn23(a: bv32, b: bv32, c: bv32, d: bv32, x: seq<bv32>, i: nat, k: nat, w: bv32, t: bv32, u: bv32, e: bv32)
    requires |x| == 16 && IsOperation(i, k, t, 23) && x[k] == w
    requires u == Sum(a, Aux(i, b, c, d), w, t) && e == Add(b, (u << 23) | (u >> 9))
    ensures Operations(Registers(a, b, c, d), x, i) == Operations(Registers(d, e, b, c), x, i + 1)
  {
    hide Operations, IsOperation, Aux, Add, Sum;
    Whole(u);
    Turn(a, b, c, d, x, i, k, w, t, 23, u, e);
  }

  /** The words of the one padded block of the empty message. */
  predicate IsEmpty(x: seq<bv32>) {
    |x| == 16 && x[0] == 0x80 && (forall k :: 1 <= k < 16 ==> x[k] == 0)
  }

  lemma EmptyRound1(x: seq<bv32>)
    requires IsEmpty(x)
    ensures Operations(Registers(0x67452301, 0xefcdab89, 0x98badcfe, 0x10325476), x, 0)
         == Operations(Registers(0xf56c7cf1, 0xd6819c6a, 0x5aa53f75, 0x374943a7), x, 16)
  {
    hide Operations, WordIndex, Sine, Shift, InUse, IsOperation;
    Schedule1();
    Turn7(0x67452301, 0xefcdab89, 0x98badcfe, 0x10325476, x, 0, 0, 0x00000080, 0xd76aa478, 0xd76aa4f7, 0xa5202774);
    Turn12(0x10325476, 0xa5202774, 0xefcdab89, 0x98badcfe, x, 1, 1, 0, 0xe8c7b756, 0xb6950756, 0xf59592dd);
    Turn17(0x98badcfe, 0xf59592dd, 0xa5202774, 0xefcdab89, x, 2, 2, 0, 0x242070db, 0x6c23792d, 0xe7f06b23);
    Turn22(0xefcdab89, 0xe7f06b23, 0xf59592dd, 0xa5202774, x, 3, 3, 0, 0xc1bdceee, 0x971b80cc, 0x1b163203);
    Turn7(0xa5202774, 0x1b163203, 0xe7f06b23, 0xf59592dd, x, 4, 4, 0, 0xf57c0faf, 0x822dda02, 0x32033344);
    Turn12(0xf59592dd, 0x32033344, 0x1b163203, 0xe7f06b23, x, 5, 5, 0, 0x4787c62a, 0x150fd32a, 0x2f35d494);
    Turn17(0xe7f06b23, 0x2f35d494, 0x32033344, 0x1b163203, x, 6, 6, 0, 0xa8304613, 0xc223e33d, 0xf5b158db);
    Turn22(0x1b163203, 0xf5b158db, 0x2f35d494, 0x32033344, x, 7, 7, 0, 0xfd469501, 0x3f903a98, 0x9bc13ce9);
    Turn7(0x32033344, 0x9bc13ce9, 0xf5b158db, 0x2f35d494, x, 8, 8, 0, 0x698098d8, 0x5139a4f9, 0x3893b991);
    Turn12(0x2f35d494, 0x3893b991, 0x9bc13ce9, 0xf5b158db, x, 9, 9, 0, 0x8b44f7af, 0x981c450e, 0xfce4a312);
    Turn17(0xf5b158db, 0xfce4a312, 0x3893b991, 0x9bc13ce9, x, 10, 10, 0, 0xffff5bb1, 0x31327285, 0xe1ef0576);
    Turn22(0x9bc13ce9, 0xe1ef0576, 0xfce4a312, 0x3893b991, x, 11, 11, 0, 0x895cd7be, 0x1e12ce3a, 0x70768a29);
    Turn7(0x3893b991, 0x70768a29, 0xe1ef0576, 0xfce4a312, x, 12, 12, 0, 0x6b901122, 0x9109ebe5, 0xf56c7cf1);
    Turn12(0xfce4a312, 0xf56c7cf1, 0x70768a29, 0xe1ef0576, x, 13, 13, 0, 0xfd987193, 0x6b641dcc, 0x374943a7);
    Turn17(0xe1ef0576, 0x374943a7, 0xf56c7cf1, 0x70768a29, x, 14, 14, 0, 0xa679438e, 0xfde711ad, 0x5aa53f75);
    Turn22(0x70768a29, 0x5aa53f75, 0x374943a7, 0xf56c7cf1, x, 15, 15, 0, 0x49b40821, 0x7173d5ef, 0xd6819c6a);
  }

  lemma EmptyRound2(x: seq<bv32>)
    requires IsEmpty(x)
    ensures Operations(Registers(0xf56c7cf1, 0xd6819c6a, 0x5aa53f75, 0x374943a7), x, 16)
         == Operations(Registers(0x13707036, 0xa2205f1f, 0x1c31c384, 0xae7813db), x, 32)
  {
    hide Operations, WordIndex, Sine, Shift, InUse, IsOperation;
    Schedule2();
    Turn5(0xf56c7cf1, 0xd6819c6a, 0x5aa53f75, 0x374943a7, x, 16, 1, 0, 0xf61e2562, 0x4a2fdec5, 0x1c7d7513);
    Turn9(0x374943a7, 0x1c7d7513, 0xd6819c6a, 0x5aa53f75, x, 17, 6, 0, 0xc040b340, 0x93afac02, 0x7bd57a3a);
    Turn14(0x5aa53f75, 0x7bd57a3a, 0x1c7d7513, 0xd6819c6a, x, 18, 11, 0, 0x265e5a51, 0xdc011301, 0xc095f13a);
    Turn20(0xd6819c6a, 0xc095f13a, 0x7bd57a3a, 0x1c7d7513, x, 19, 0, 0x00000080, 0xe9b6c7aa, 0x23cddfce, 0xbd782e17);
    Turn5(0x1c7d7513, 0xbd782e17, 0xc095f13a, 0x7bd57a3a, x, 20, 5, 0, 0xd62f105d, 0xabfd3082, 0x3d1e3e6c);
    Turn9(0x7bd57a3a, 0x3d1e3e6c, 0xbd782e17, 0xc095f13a, x, 21, 10, 0, 0x02441453, 0xbb95ccba, 0x68b7b3e3);
    Turn14(0xc095f13a, 0x68b7b3e3, 0x3d1e3e6c, 0xbd782e17, x, 22, 15, 0, 0xd8a1e681, 0xc16e0a26, 0xeb41643e);
    Turn20(0xbd782e17, 0xeb41643e, 0x68b7b3e3, 0x3d1e3e6c, x, 23, 4, 0, 0xe7d3fbc8, 0x0eedcf8e, 0xe422531a);
    Turn5(0x3d1e3e6c, 0xe422531a, 0xeb41643e, 0x68b7b3e3, x, 24, 9, 0, 0x21e1cde6, 0x42626370, 0x306ec122);
    Turn9(0x68b7b3e3, 0x306ec122, 0xe422531a, 0xeb41643e, x, 25, 14, 0, 0xc33707d6, 0x50510edb, 0xd28c77c2);
    Turn14(0xeb41643e, 0xd28c77c2, 0x306ec122, 0xe422531a, x, 26, 3, 0, 0xf4d50d87, 0xb06344e7, 0xa3c663da);
    Turn20(0xe422531a, 0xa3c663da, 0xd28c77c2, 0x306ec122, x, 27, 8, 0, 0x455a14ed, 0x0c42dfc9, 0xa0572807);
    Turn5(0x306ec122, 0xa0572807, 0xa3c663da, 0xd28c77c2, x, 28, 13, 0, 0xa9e3e905, 0x7b98ca41, 0x13707036);
    Turn9(0xd28c77c2, 0x13707036, 0xa0572807, 0xa3c663da, x, 29, 2, 0, 0xfcefa3f8, 0xd2cd83d1, 0xae7813db);
    Turn14(0xa3c663da, 0xae7813db, 0x13707036, 0xa0572807, x, 30, 7, 0, 0x676f02d9, 0xbea5b6e6, 0x1c31c384);
    Turn20(0xa0572807, 0x1c31c384, 0xae7813db, 0x13707036, x, 31, 12, 0, 0x8d2a4c8a, 0xe9b9b85e, 0xa2205f1f);
  }

  lemma EmptyRound3(x: seq<bv32>)
    requires IsEmpty(x)
    ensures Operations(Registers(0x13707036, 0xa2205f1f, 0x1c31c384, 0xae7813db), x, 32)
         == Operations(Registers(0x3f55edfd, 0xca7d2dbd, 0x68d84ea2, 0x22a31f54), x, 48)
  {
    hide Operations, WordIndex, Sine, Shift, InUse, IsOperation;
    Schedule3();
    Turn4(0x13707036, 0xa2205f1f, 0x1c31c384, 0xae7813db, x, 32, 5, 0, 0xfffa3942, 0x23d438b8, 0xdf63eaa1);
    Turn11(0xae7813db, 0xdf63eaa1, 0xa2205f1f, 0x1c31c384, x, 33, 8, 0, 0x8771f681, 0x975c8096, 0xc3689f5b);
    Turn16(0x1c31c384, 0xc3689f5b, 0xdf63eaa1, 0xa2205f1f, x, 34, 11, 0, 0x6d9d6122, 0x47fa4f8b, 0x12f3e755);
    Turn23(0xa2205f1f, 0x12f3e755, 0xc3689f5b, 0xdf63eaa1, x, 35, 14, 0, 0xfde5380c, 0xaefe29da, 0x004b6669);
    Turn4(0xdf63eaa1, 0x004b6669, 0x12f3e755, 0xc3689f5b, x, 36, 1, 0, 0xa4beea44, 0x55f2f34c, 0x5f7a9b2e);
    Turn11(0xc3689f5b, 0x5f7a9b2e, 0x004b6669, 0x12f3e755, x, 37, 4, 0, 0x4bdecfa9, 0x5d098916, 0xabc34e16);
    Turn16(0x12f3e755, 0xabc34e16, 0x5f7a9b2e, 0x004b6669, x, 38, 7, 0, 0xf6bb4b60, 0xfea1e606, 0x91ca4cb7);
    Turn23(0x004b6669, 0x91ca4cb7, 0xabc34e16, 0x5f7a9b2e, x, 39, 10, 0, 0xbebfbc70, 0x247ebc68, 0xc5dc8c15);
    Turn4(0x5f7a9b2e, 0xc5dc8c15, 0x91ca4cb7, 0xabc34e16, x, 40, 13, 0, 0x289b7ec6, 0x87eba8a8, 0x4497169d);
    Turn11(0xabc34e16, 0x4497169d, 0xc5dc8c15, 0x91ca4cb7, x, 41, 0, 0x00000080, 0xeaa127fa, 0xa6e64ccf, 0x76fd93d4);
    Turn16(0x91ca4cb7, 0x76fd93d4, 0x4497169d, 0xc5dc8c15, x, 42, 3, 0, 0xd4ef3085, 0x5e6f8698, 0xfd95f243);
    Turn23(0xc5dc8c15, 0xfd95f243, 0x76fd93d4, 0x4497169d, x, 43, 6, 0, 0x04881d05, 0x9a642024, 0x0fe32453);
    Turn4(0x4497169d, 0x0fe32453, 0xfd95f243, 0x76fd93d4, x, 44, 9, 0, 0xd9d4d039, 0xa2f72c9a, 0x3f55edfd);
    Turn11(0x76fd93d4, 0x3f55edfd, 0x0fe32453, 0xfd95f243, x, 45, 12, 0, 0xe6db99e5, 0x2afc69a6, 0x22a31f54);
    Turn16(0xfd95f243, 0x22a31f54, 0x3f55edfd, 0x0fe32453, x, 46, 15, 0, 0x1fa27cf8, 0x2f4e4635, 0x68d84ea2);
    Turn23(0x0fe32453, 0x68d84ea2, 0x22a31f54, 0x3f55edfd, x, 47, 2, 0, 0xc4ac5665, 0x49be36c3, 0xca7d2dbd);
  }

  lemma EmptyRound4(x: seq<bv32>)
    requires IsEmpty(x)
    ensures Operations(Registers(0x3f55edfd, 0xca7d2dbd, 0x68d84ea2, 0x22a31f54), x, 48)
         == Operations(Registers(0x7246fad3, 0x14e45506, 0xff4ea3eb, 0x6e10a476), x, 64)
  {
    hide Operations, WordIndex, Sine, Shift, InUse, IsOperation;
    Schedule4();
    Turn6(0x3f55edfd, 0xca7d2dbd, 0x68d84ea2, 0x22a31f54, x, 48, 0, 0x00000080, 0xf4292244, 0xeb24b3de, 0x93aa2577);
    Turn10(0x22a31f54, 0x93aa2577, 0xca7d2dbd, 0x68d84ea2, x, 49, 7, 0, 0x432aff97, 0xc3a0b7ad, 0x1688dc85);
    Turn15(0x68d84ea2, 0x1688dc85, 0x93aa2577, 0xca7d2dbd, x, 50, 14, 0, 0xab9423a7, 0xb88d6df9, 0xcd85b8cb);
    Turn21(0xca7d2dbd, 0xcd85b8cb, 0x1688dc85, 0x93aa2577, x, 51, 5, 0, 0xfc93a039, 0xc26df444, 0x561e0689);
    Turn6(0x93aa2577, 0x561e0689, 0xcd85b8cb, 0x1688dc85, x, 52, 12, 0, 0x655b59c3, 0x2c001e6a, 0x5625a114);
    Turn10(0x1688dc85, 0x5625a114, 0x561e0689, 0xcd85b8cb, x, 53, 3, 0, 0x8f0ccc92, 0xc5f78ad4, 0x3450f42b);
    Turn15(0xcd85b8cb, 0x3450f42b, 0x5625a114, 0x561e0689, x, 54, 10, 0, 0xffeff47d, 0xb94a09b3, 0x392ad0d0);
    Turn21(0x561e0689, 0x392ad0d0, 0x3450f42b, 0x5625a114, x, 55, 1, 0, 0x85845dd1, 0x694c8f2a, 0x1e77fa61);
    Turn6(0x5625a114, 0x1e77fa61, 0x392ad0d0, 0x3450f42b, x, 56, 8, 0, 0x6fa87e4f, 0xaca34a88, 0x474a9c8c);
    Turn10(0x3450f42b, 0x474a9c8c, 0x1e77fa61, 0x392ad0d0, x, 57, 15, 0, 0xfe2ce6e0, 0x0c2620d9, 0xdfce00bc);
    Turn15(0x392ad0d0, 0xdfce00bc, 0x474a9c8c, 0x1e77fa61, x, 58, 6, 0, 0xa3014314, 0x94b0ad16, 0x36594b14);
    Turn21(0x1e77fa61, 0x36594b14, 0xdfce00bc, 0x474a9c8c, x, 59, 13, 0, 0x4e0811a1, 0xcdb377cd, 0x30130182);
    Turn6(0x474a9c8c, 0x30130182, 0x36594b14, 0xdfce00bc, x, 60, 4, 0, 0xf7537e82, 0x4508cfe5, 0x7246fad3);
    Turn10(0xdfce00bc, 0x7246fad3, 0x30130182, 0x36594b14, x, 61, 11, 0, 0xbd3af235, 0x68fef26a, 0x6e10a476);
    Turn15(0x36594b14, 0x6e10a476, 0x7246fad3, 0x30130182, x, 62, 2, 0, 0x2ad7d2bb, 0xfeeb227b, 0xff4ea3eb);
    Turn21(0x30130182, 0xff4ea3eb, 0x6e10a476, 0x7246fad3, x, 63, 9, 0, 0xeb86d391, 0xad88d8ac, 0x14e45506);
  }

  /** The words of the one padded block of "abc". */
  predicate IsAbc(x: seq<bv32>) {
    |x| == 16 && x[0] == 0x80636261 && x[14] == 24 && (forall k :: 1 <= k < 16 && k != 14 ==> x[k] == 0)
  }

  lemma AbcRound1(x: seq<bv32>)
    requires IsAbc(x)
    ensures Operations(Registers(0x67452301, 0xefcdab89, 0x98badcfe, 0x10325476), x, 0)
         == Operations(Registers(0xdda9b9a6, 0x72aff2e0, 0xe396856b, 0xa1051895), x, 16)
  {
    hide Operations, WordIndex, Sine, Shift, InUse, IsOperation;
    Schedule1();
    Turn7(0x67452301, 0xefcdab89, 0x98badcfe, 0x10325476, x, 0, 0, 0x80636261, 0xd76aa478, 0x57ce06d8, 0xd6d117b4);
    Turn12(0x10325476, 0xd6d117b4, 0xefcdab89, 0x98badcfe, x, 1, 1, 0, 0xe8c7b756, 0xc7e5d796, 0x344a8432);
    Turn17(0x98badcfe, 0x344a8432, 0xd6d117b4, 0xefcdab89, x, 2, 2, 0, 0x242070db, 0x9ca07d92, 0x2f6fbd72);
    Turn22(0xefcdab89, 0x2f6fbd72, 0x344a8432, 0xd6d117b4, x, 3, 3, 0, 0xc1bdceee, 0xa666012d, 0x7ad956f2);
    Turn7(0xd6d117b4, 0x7ad956f2, 0x2f6fbd72, 0x344a8432, x, 4, 4, 0, 0xf57c0faf, 0xfa98bbd5, 0xc73741ef);
    Turn12(0x344a8432, 0xc73741ef, 0x7ad956f2, 0x2f6fbd72, x, 5, 5, 0, 0x4787c62a, 0xe62c474e, 0x8bac3051);
    Turn17(0x2f6fbd72, 0x8bac3051, 0xc73741ef, 0x7ad956f2, x, 6, 6, 0, 0xa8304613, 0xcb154a68, 0x207dc67b);
    Turn22(0x7ad956f2, 0x207dc67b, 0x8bac3051, 0xc73741ef, x, 7, 7, 0, 0xfd469501, 0x3f4dedc8, 0x928d99f6);
    Turn7(0xc73741ef, 0x928d99f6, 0x207dc67b, 0x8bac3051, x, 8, 8, 0, 0x698098d8, 0x39e57b3a, 0x854b3712);
    Turn12(0x8bac3051, 0x854b3712, 0x928d99f6, 0x207dc67b, x, 9, 9, 0, 0x8b44f7af, 0xb72ef97b, 0x74e2f284);
    Turn17(0x207dc67b, 0x74e2f284, 0x854b3712, 0x928d99f6, x, 10, 10, 0, 0xffff5bb1, 0xa6cc5d9e, 0x3020401c);
    Turn22(0x928d99f6, 0x3020401c, 0x74e2f284, 0x854b3712, x, 11, 11, 0, 0x895cd7be, 0xd155e8ba, 0x5ed49596);
    Turn7(0x854b3712, 0x5ed49596, 0x3020401c, 0x74e2f284, x, 12, 12, 0, 0x6b901122, 0x20fdaa48, 0xdda9b9a6);
    Turn12(0x74e2f284, 0xdda9b9a6, 0x5ed49596, 0x3020401c, x, 13, 13, 0, 0xfd987193, 0xeefc35b5, 0xa1051895);
    Turn17(0x3020401c, 0xa1051895, 0xdda9b9a6, 0x5ed49596, x, 14, 14, 24, 0xa679438e, 0xb66b2148, 0xe396856b);
    Turn22(0x5ed49596, 0xe396856b, 0xa1051895, 0xdda9b9a6, x, 15, 15, 0, 0x49b40821, 0x65b5d63c, 0x72aff2e0);
  }

  lemma AbcRound2(x: seq<bv32>)
    requires IsAbc(x)
    ensures Operations(Registers(0xdda9b9a6, 0x72aff2e0, 0xe396856b, 0xa1051895), x, 16)
         == Operations(Registers(0x790a77fb, 0x726342d3, 0xa62884aa, 0x9f47e4f8), x, 32)
  {
    hide Operations, WordIndex, Sine, Shift, InUse, IsOperation;
    Schedule2();
    Turn5(0xdda9b9a6, 0x72aff2e0, 0xe396856b, 0xa1051895, x, 16, 1, 0, 0xf61e2562, 0x365f74f2, 0x3e9e9126);
    Turn9(0xa1051895, 0x3e9e9126, 0x72aff2e0, 0xe396856b, x, 17, 6, 0, 0xc040b340, 0x9405bf77, 0x4a1d804e);
    Turn14(0xe396856b, 0x4a1d804e, 0x3e9e9126, 0x72aff2e0, x, 18, 11, 0, 0x265e5a51, 0x58126102, 0xe25e1652);
    Turn20(0x72aff2e0, 0xe25e1652, 0x4a1d804e, 0x3e9e9126, x, 19, 0, 0x80636261, 0xe9b6c7aa, 0x3ee92d35, 0xb5b204e4);
    Turn5(0x3e9e9126, 0xb5b204e4, 0xe25e1652, 0x4a1d804e, x, 20, 5, 0, 0xd62f105d, 0xb51fb7d7, 0x59a8ffda);
    Turn9(0x4a1d804e, 0x59a8ffda, 0xb5b204e4, 0xe25e1652, x, 21, 10, 0, 0x02441453, 0xa209ab97, 0x6d002f1e);
    Turn14(0xe25e1652, 0x6d002f1e, 0x59a8ffda, 0xb5b204e4, x, 22, 15, 0, 0xd8a1e681, 0x2808fbf1, 0xabfc7920);
    Turn20(0xb5b204e4, 0xabfc7920, 0x6d002f1e, 0x59a8ffda, x, 23, 4, 0, 0xe7d3fbc8, 0xcb2e79b0, 0x47092c07);
    Turn5(0x59a8ffda, 0x47092c07, 0xabfc7920, 0x6d002f1e, x, 24, 9, 0, 0x21e1cde6, 0x438749e6, 0xb7f268cf);
    Turn9(0x6d002f1e, 0xb7f268cf, 0x47092c07, 0xabfc7920, x, 25, 14, 24, 0xc33707d6, 0x1828a313, 0x09388eff);
    Turn14(0xabfc7920, 0x09388eff, 0xb7f268cf, 0x47092c07, x, 26, 3, 0, 0xf4d50d87, 0x52cbd376, 0xfe1623b1);
    Turn20(0x47092c07, 0xfe1623b1, 0x09388eff, 0xb7f268cf, x, 27, 8, 0, 0x455a14ed, 0x4a7de7a5, 0x786acb8f);
    Turn5(0xb7f268cf, 0x786acb8f, 0xfe1623b1, 0x09388eff, x, 28, 13, 0, 0xa9e3e905, 0x6004fd63, 0x790a77fb);
    Turn9(0x09388eff, 0x790a77fb, 0x786acb8f, 0xfe1623b1, x, 29, 2, 0, 0xfcefa3f8, 0x7e931eb6, 0x9f47e4f8);
    Turn14(0xfe1623b1, 0x9f47e4f8, 0x790a77fb, 0x786acb8f, x, 30, 7, 0, 0x676f02d9, 0x7ec81b82, 0xa62884aa);
    Turn20(0x786acb8f, 0xa62884aa, 0x9f47e4f8, 0x790a77fb, x, 31, 12, 0, 0x8d2a4c8a, 0xabe29cc3, 0x726342d3);
  }

  lemma AbcRound3(x: seq<bv32>)
    requires IsAbc(x)
    ensures Operations(Registers(0x790a77fb, 0x726342d3, 0xa62884aa, 0x9f47e4f8), x, 32)
         == Operations(Registers(0x7f2e507b, 0x7beb9700, 0x8fae6399, 0x99d9679d), x, 48)
  {
    hide Operations, WordIndex, Sine, Shift, InUse, IsOperation;
    Schedule3();
    Turn4(0x790a77fb, 0x726342d3, 0xa62884aa, 0x9f47e4f8, x, 32, 5, 0, 0xfffa3942, 0xc410d3be, 0xb3707ebf);
    Turn11(0x9f47e4f8, 0xb3707ebf, 0x726342d3, 0xa62884aa, x, 33, 8, 0, 0x8771f681, 0x8df5943f, 0x60127b2e);
    Turn16(0xa62884aa, 0x60127b2e, 0xb3707ebf, 0x726342d3, x, 34, 11, 0, 0x6d9d6122, 0xb4c72d0e, 0x8d212ff5);
    Turn23(0x726342d3, 0x8d212ff5, 0x60127b2e, 0xb3707ebf, x, 35, 14, 24, 0xfde5380c, 0xce8ba55b, 0x3b0875c7);
    Turn4(0xb3707ebf, 0x3b0875c7, 0x8d212ff5, 0x60127b2e, x, 36, 1, 0, 0xa4beea44, 0x2e6a8a1f, 0x21b117b9);
    Turn11(0x60127b2e, 0x21b117b9, 0x3b0875c7, 0x8d212ff5, x, 37, 4, 0, 0x4bdecfa9, 0x43899862, 0x6e7429d5);
    Turn16(0x8d212ff5, 0x6e7429d5, 0x21b117b9, 0x3b0875c7, x, 38, 7, 0, 0xf6bb4b60, 0xf8a9c700, 0x3575227e);
    Turn23(0x3b0875c7, 0x3575227e, 0x6e7429d5, 0x21b117b9, x, 39, 10, 0, 0xbebfbc70, 0x74784e49, 0x5a2f5ea5);
    Turn4(0x21b117b9, 0x5a2f5ea5, 0x3575227e, 0x6e7429d5, x, 40, 13, 0, 0x289b7ec6, 0x4b7aeb8d, 0x11de1779);
    Turn11(0x6e7429d5, 0x11de1779, 0x5a2f5ea5, 0x3575227e, x, 41, 0, 0x80636261, 0xeaa127fa, 0x57fd1fd2, 0xfadcaa38);
    Turn16(0x3575227e, 0xfadcaa38, 0x11de1779, 0x5a2f5ea5, x, 42, 3, 0, 0xd4ef3085, 0xbb9236e7, 0x31c465ca);
    Turn23(0x5a2f5ea5, 0x31c465ca, 0xfadcaa38, 0x11de1779, x, 43, 6, 0, 0x04881d05, 0x397e5435, 0x4c6124f4);
    Turn4(0x11de1779, 0x4c6124f4, 0x31c465ca, 0xfadcaa38, x, 44, 9, 0, 0xd9d4d039, 0x732cd2b8, 0x7f2e507b);
    Turn11(0xfadcaa38, 0x7f2e507b, 0x4c6124f4, 0x31c465ca, x, 45, 12, 0, 0xe6db99e5, 0xe4435562, 0x99d9679d);
    Turn16(0x31c465ca, 0x99d9679d, 0x7f2e507b, 0x4c6124f4, x, 46, 15, 0, 0x1fa27cf8, 0xfbfcf5d4, 0x8fae6399);
    Turn23(0x4c6124f4, 0x8fae6399, 0x99d9679d, 0x7f2e507b, x, 47, 2, 0, 0xc4ac5665, 0x7a66cfd8, 0x7beb9700);
  }

  lemma AbcRound4(x: seq<bv32>)
    requires IsAbc(x)
    ensures Operations(Registers(0x7f2e507b, 0x7beb9700, 0x8fae6399, 0x99d9679d), x, 48)
         == Operations(Registers(0x310ade8f, 0xc08226b3, 0xe484b9d8, 0x624d8cb2), x, 64)
  {
    hide Operations, WordIndex, Sine, Shift, InUse, IsOperation;
    Schedule4();
    Turn6(0x7f2e507b, 0x7beb9700, 0x8fae6399, 0x99d9679d, x, 48, 0, 0x80636261, 0xf4292244, 0xe3fcd21b, 0x7b201df8);
    Turn10(0x99d9679d, 0x7b201df8, 0x7beb9700, 0x8fae6399, x, 49, 7, 0, 0x432aff97, 0xdd9e7232, 0xf4e8e96e);
    Turn15(0x8fae6399, 0xf4e8e96e, 0x7b201df8, 0x7beb9700, x, 50, 14, 24, 0xab9423a7, 0xcb1f7b5f, 0xb298cefd);
    Turn21(0x7beb9700, 0xb298cefd, 0xf4e8e96e, 0x7b201df8, x, 51, 5, 0, 0xfc93a039, 0xbab63eca, 0x8bf025c4);
    Turn6(0x7b201df8, 0x8bf025c4, 0xb298cefd, 0xf4e8e96e, x, 52, 12, 0, 0x655b59c3, 0x19eb70e3, 0x06cc5e8a);
    Turn10(0xf4e8e96e, 0x06cc5e8a, 0x8bf025c4, 0xb298cefd, x, 53, 3, 0, 0x8f0ccc92, 0x4815104e, 0x5b0d97aa);
    Turn15(0xb298cefd, 0x5b0d97aa, 0x06cc5e8a, 0x8bf025c4, x, 54, 10, 0, 0xffeff47d, 0x2c4c44ab, 0x7d632dd0);
    Turn21(0x8bf025c4, 0x7d632dd0, 0x5b0d97aa, 0x06cc5e8a, x, 55, 1, 0, 0x85845dd1, 0xb7f2bdf4, 0x3bfa2c27);
    Turn6(0x06cc5e8a, 0x3bfa2c27, 0x7d632dd0, 0x5b0d97aa, x, 56, 8, 0, 0x6fa87e4f, 0x390e1e80, 0x7f81cc35);
    Turn10(0x5b0d97aa, 0x7f81cc35, 0x3bfa2c27, 0x7d632dd0, x, 57, 15, 0, 0xfe2ce6e0, 0x1da270a2, 0x094454ab);
    Turn15(0x7d632dd0, 0x094454ab, 0x7f81cc35, 0x3bfa2c27, x, 58, 6, 0, 0xa3014314, 0xd3288cb2, 0x4f9dbe3f);
    Turn21(0x3bfa2c27, 0x4f9dbe3f, 0x094454ab, 0x7f81cc35, x, 59, 13, 0, 0x4e0811a1, 0x50be291c, 0x7327d604);
    Turn6(0x7f81cc35, 0x7327d604, 0x4f9dbe3f, 0x094454ab, x, 60, 4, 0, 0xf7537e82, 0x2ef78c22, 0x310ade8f);
    Turn10(0x094454ab, 0x310ade8f, 0x7327d604, 0x4f9dbe3f, x, 61, 11, 0, 0xbd3af235, 0x88cc50ab, 0x624d8cb2);
    Turn15(0x4f9dbe3f, 0x624d8cb2, 0x310ade8f, 0x7327d604, x, 62, 2, 0, 0x2ad7d2bb, 0x5a4d046e, 0xe484b9d8);
    Turn21(0x7327d604, 0xe484b9d8, 0x624d8cb2, 0x310ade8f, x, 63, 9, 0, 0xeb86d391, 0xeb66dedf, 0xc08226b3);
  }

  lemma FourBytes(b0: Byte, b1: Byte, b2: Byte, b3: Byte, w: bv32)
    requires Bytes(w) == [b0, b1, b2, b3]
    ensures Word(b0, b1, b2, b3) == w
  {
    assert w == (w & 0xff) | (((w >> 8) & 0xff) << 8) | (((w >> 16) & 0xff) << 16) | (((w >> 24) & 0xff) << 24);
  }

  /** A block whose bytes are those of the words. */
  lemma WordsAre(block: seq<Byte>, x: seq<bv32>)
    requires |block| == 64 && |x| == 16
    requires forall n :: 0 <= n < 16 ==>
               Bytes(x[n]) == [block[4 * n], block[4 * n + 1], block[4 * n + 2], block[4 * n + 3]]
    ensures Words(block) == x
  {
    hide Word, Bytes;
    forall n | 0 <= n < 16 ensures Words(block)[n] == x[n] {
      FourBytes(block[4 * n], block[4 * n + 1], block[4 * n + 2], block[4 * n + 3], x[n]);
    }
  }

  lemma WordOfLength(n: nat, w: bv32)
    requires n < 0x1_0000_0000 && n as bv32 == w
    ensures WordBytes(n) == Bytes(w)
  {
    hide Bytes;
  }

  lemma AllDone(r: Registers, x: seq<bv32>)
    requires |x| == 16
    ensures Operations(r, x, 64) == r
  {}

  lemma EmptyCompressed(block: seq<Byte>)
    requires |block| == 64 && IsEmpty(Words(block))
    ensures Compress(Registers(0x67452301, 0xefcdab89, 0x98badcfe, 0x10325476), block)
         == Registers(0xd98c1dd4, 0x04b2008f, 0x980980e9, 0x7e42f8ec)
  {
    hide Operations, Words;
    var x := Words(block);
    EmptyRound1(x);
    EmptyRound2(x);
    EmptyRound3(x);
    EmptyRound4(x);
    AllDone(Registers(0x7246fad3, 0x14e45506, 0xff4ea3eb, 0x6e10a476), x);
  }

  lemma EmptyBytes()
    ensures Bytes(0) == [0, 0, 0, 0]
    ensures Bytes(0x80) == [0x80, 0x00, 0x00, 0x00]
  {}

  lemma EmptyLength()
    ensures LengthBytes(0) == [0, 0, 0, 0, 0, 0, 0, 0]
  {
    hide Bytes, WordBytes;
    WordOfLength(0, 0);
    WordOfLength(0, 0);
    EmptyBytes();
  }

  lemma EmptyBlock(p: seq<Byte>)
    requires p == Padded([])
    ensures |p| == 64 && IsEmpty(Words(p[..64]))
  {
    hide Words, Bytes, WordBytes, LengthBytes;
    EmptyBytes();
    EmptyLength();
    assert p == [0x80] + Zeros(55) + [0, 0, 0, 0, 0, 0, 0, 0];
    WordsAre(p[..64], [0x80, 0, 0, 0, 0, 0, 0, 0, 0, 0, 0, 0, 0, 0, 0, 0]);
  }

  /** The digest of nothing: d41d8cd98f00b204e9800998ecf8427e. */
  lemma EmptyDigest()
    ensures Digest([])
         == [0xd4, 0x1d, 0x8c, 0xd9, 0x8f, 0x00, 0xb2, 0x04,
             0xe9, 0x80, 0x09, 0x98, 0xec, 0xf8, 0x42, 0x7e]
  {
    hide Compress, Padded, Words;
    var p := Padded([]);
    EmptyBlock(p);
    EmptyCompressed(p[..64]);
  }

  lemma AbcCompressed(block: seq<Byte>)
    requires |block| == 64 && IsAbc(Words(block))
    ensures Compress(Registers(0x67452301, 0xefcdab89, 0x98badcfe, 0x10325476), block)
         == Registers(0x98500190, 0xb04fd23c, 0x7d3f96d6, 0x727fe128)
  {
    hide Operations, Words;
    var x := Words(block);
    AbcRound1(x);
    AbcRound2(x);
    AbcRound3(x);
    AbcRound4(x);
    AllDone(Registers(0x310ade8f, 0xc08226b3, 0xe484b9d8, 0x624d8cb2), x);
  }

  lemma AbcBytes()
    ensures Bytes(0) == [0, 0, 0, 0]
    ensures Bytes(24) == [0x18, 0x00, 0x00, 0x00]
    ensures Bytes(0x80636261) == [0x61, 0x62, 0x63, 0x80]
  {}

  lemma AbcLength()
    ensures LengthBytes(3) == [24, 0, 0, 0, 0, 0, 0, 0]
  {
    hide Bytes, WordBytes;
    WordOfLength(24, 24);
    WordOfLength(0, 0);
    AbcBytes();
  }

  lemma AbcBlock(p: seq<Byte>)
    requires p == Padded([0x61, 0x62, 0x63])
    ensures |p| == 64 && IsAbc(Words(p[..64]))
  {
    hide Words, Bytes, WordBytes, LengthBytes;
    AbcBytes();
    AbcLength();
    assert p == [0x61, 0x62, 0x63] + [0x80] + Zeros(52) + [24, 0, 0, 0, 0, 0, 0, 0];
    WordsAre(p[..64], [0x80636261, 0, 0, 0, 0, 0, 0, 0, 0, 0, 0, 0, 0, 0, 24, 0]);
  }

  /** The digest of "abc": 900150983cd24fb0d6963f7d28e17f72. */
  lemma AbcDigest()
    ensures Digest([0x61, 0x62, 0x63])
         == [0x90, 0x01, 0x50, 0x98, 0x3c, 0xd2, 0x4f, 0xb0,
             0xd6, 0x96, 0x3f, 0x7d, 0x28, 0xe1, 0x7f, 0x72]
  {
    hide Compress, Padded, Words;
    var p := Padded([0x61, 0x62, 0x63]);
    AbcBlock(p);
    AbcCompressed(p[..64]);
  }
}
