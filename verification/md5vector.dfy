// The digest of the empty message, followed through the algorithm of md5.dfy (RFC 1321, appendix A.5).

module Md5Vector {
  import opened Words
  import opened Md5

  // ------------------------------------------------------------- a known answer

  /** The one block of the empty message, as words: the padding bit alone. */
  function EmptyWords(): (x: seq<bv32>)
    ensures |x| == 16 && x[0] == 0x80 && forall k :: 1 <= k < 16 ==> x[k] == 0
  {
    [0x80] + seq(15, k => 0)
  }

  /** Step i on that block: its auxiliary function gives mix, and then one register becomes v. */
  lemma Follow(i: nat, a: bv32, b: bv32, c: bv32, d: bv32, mix: bv32, x: bv32, s: nat, t: bv32, v: bv32)
    requires i < 64 && Steps(i, START, EmptyWords()) == Regs(a, b, c, d) && Mix(i, b, c, d) == mix
    requires x == (if Index(i) == 0 then 0x80 else 0) && Amount(i) == s && Sine(i) == t
    requires Turn(a, mix, b, x, s, t) == v
    ensures Steps(i + 1, START, EmptyWords()) == Regs(d, v, b, c)
  {
    hide Turn, Mix, Sine, Amount, Index;
  }

  lemma Empty1()
    requires Steps(0, START, EmptyWords()) == Regs(0x67452301, 0xefcdab89, 0x98badcfe, 0x10325476)
    ensures Steps(4, START, EmptyWords()) == Regs(0xa5202774, 0x1b163203, 0xe7f06b23, 0xf59592dd)
  {
    hide Steps;
    Follow(0, 0x67452301, 0xefcdab89, 0x98badcfe, 0x10325476, 0x98badcfe, 0x00000080, 7, 0xd76aa478, 0xa5202774);
    Follow(1, 0x10325476, 0xa5202774, 0xefcdab89, 0x98badcfe, 0xbd9afb8a, 0, 12, 0xe8c7b756, 0xf59592dd);
    Follow(2, 0x98badcfe, 0xf59592dd, 0xa5202774, 0xefcdab89, 0xaf482b54, 0, 17, 0x242070db, 0xe7f06b23);
    Follow(3, 0xefcdab89, 0xe7f06b23, 0xf59592dd, 0xa5202774, 0xe5900655, 0, 22, 0xc1bdceee, 0x1b163203);
  }

  lemma Empty2()
    requires Steps(4, START, EmptyWords()) == Regs(0xa5202774, 0x1b163203, 0xe7f06b23, 0xf59592dd)
    ensures Steps(8, START, EmptyWords()) == Regs(0x32033344, 0x9bc13ce9, 0xf5b158db, 0x2f35d494)
  {
    hide Steps;
    Follow(4, 0xa5202774, 0x1b163203, 0xe7f06b23, 0xf59592dd, 0xe791a2df, 0, 7, 0xf57c0faf, 0x32033344);
    Follow(5, 0xf59592dd, 0x32033344, 0x1b163203, 0xe7f06b23, 0xd7f27a23, 0, 12, 0x4787c62a, 0x2f35d494);
    Follow(6, 0xe7f06b23, 0x2f35d494, 0x32033344, 0x1b163203, 0x32033207, 0, 17, 0xa8304613, 0xf5b158db);
    Follow(7, 0x1b163203, 0xf5b158db, 0x2f35d494, 0x32033344, 0x27337394, 0, 22, 0xfd469501, 0x9bc13ce9);
  }

  lemma Empty3()
    requires Steps(8, START, EmptyWords()) == Regs(0x32033344, 0x9bc13ce9, 0xf5b158db, 0x2f35d494)
    ensures Steps(12, START, EmptyWords()) == Regs(0x3893b991, 0x70768a29, 0xe1ef0576, 0xfce4a312)
  {
    hide Steps;
    Follow(8, 0x32033344, 0x9bc13ce9, 0xf5b158db, 0x2f35d494, 0xb5b5d8dd, 0, 7, 0x698098d8, 0x3893b991);
    Follow(9, 0x2f35d494, 0x3893b991, 0x9bc13ce9, 0xf5b158db, 0xdda178cb, 0, 12, 0x8b44f7af, 0xfce4a312);
    Follow(10, 0xf5b158db, 0xfce4a312, 0x3893b991, 0x9bc13ce9, 0x3b81bdf9, 0, 17, 0xffff5bb1, 0xe1ef0576);
    Follow(11, 0x9bc13ce9, 0xe1ef0576, 0xfce4a312, 0x3893b991, 0xf8f4b993, 0, 22, 0x895cd7be, 0x70768a29);
  }

  lemma Empty4()
    requires Steps(12, START, EmptyWords()) == Regs(0x3893b991, 0x70768a29, 0xe1ef0576, 0xfce4a312)
    ensures Steps(16, START, EmptyWords()) == Regs(0xf56c7cf1, 0xd6819c6a, 0x5aa53f75, 0x374943a7)
  {
    hide Steps;
    Follow(12, 0x3893b991, 0x70768a29, 0xe1ef0576, 0xfce4a312, 0xece62132, 0, 7, 0x6b901122, 0xf56c7cf1);
    Follow(13, 0xfce4a312, 0xf56c7cf1, 0x70768a29, 0xe1ef0576, 0x70e70927, 0, 12, 0xfd987193, 0x374943a7);
    Follow(14, 0xe1ef0576, 0x374943a7, 0xf56c7cf1, 0x70768a29, 0x757ec8a9, 0, 17, 0xa679438e, 0x5aa53f75);
    Follow(15, 0x70768a29, 0x5aa53f75, 0x374943a7, 0xf56c7cf1, 0xb74943a5, 0, 22, 0x49b40821, 0xd6819c6a);
  }

  lemma Empty5()
    requires Steps(16, START, EmptyWords()) == Regs(0xf56c7cf1, 0xd6819c6a, 0x5aa53f75, 0x374943a7)
    ensures Steps(20, START, EmptyWords()) == Regs(0x1c7d7513, 0xbd782e17, 0xc095f13a, 0x7bd57a3a)
  {
    hide Steps;
    Follow(16, 0xf56c7cf1, 0xd6819c6a, 0x5aa53f75, 0x374943a7, 0x5ea53c72, 0, 5, 0xf61e2562, 0x1c7d7513);
    Follow(17, 0x374943a7, 0x1c7d7513, 0xd6819c6a, 0x5aa53f75, 0x9c25b51b, 0, 9, 0xc040b340, 0x7bd57a3a);
    Follow(18, 0x5aa53f75, 0x7bd57a3a, 0x1c7d7513, 0xd6819c6a, 0x5afd793b, 0, 14, 0x265e5a51, 0xc095f13a);
    Follow(19, 0xd6819c6a, 0xc095f13a, 0x7bd57a3a, 0x1c7d7513, 0x63957b3a, 0x00000080, 20, 0xe9b6c7aa, 0xbd782e17);
  }

  lemma Empty6()
    requires Steps(20, START, EmptyWords()) == Regs(0x1c7d7513, 0xbd782e17, 0xc095f13a, 0x7bd57a3a)
    ensures Steps(24, START, EmptyWords()) == Regs(0x3d1e3e6c, 0xe422531a, 0xeb41643e, 0x68b7b3e3)
  {
    hide Steps;
    Follow(20, 0x1c7d7513, 0xbd782e17, 0xc095f13a, 0x7bd57a3a, 0xb950ab12, 0, 5, 0xd62f105d, 0x3d1e3e6c);
    Follow(21, 0x7bd57a3a, 0x3d1e3e6c, 0xbd782e17, 0xc095f13a, 0x3d7c3e2d, 0, 9, 0x02441453, 0x68b7b3e3);
    Follow(22, 0xc095f13a, 0x68b7b3e3, 0x3d1e3e6c, 0xbd782e17, 0x2836326b, 0, 14, 0xd8a1e681, 0xeb41643e);
    Follow(23, 0xbd782e17, 0xeb41643e, 0x68b7b3e3, 0x3d1e3e6c, 0x69a1a5af, 0, 20, 0xe7d3fbc8, 0xe422531a);
  }

  lemma Empty7()
    requires Steps(24, START, EmptyWords()) == Regs(0x3d1e3e6c, 0xe422531a, 0xeb41643e, 0x68b7b3e3)
    ensures Steps(28, START, EmptyWords()) == Regs(0x306ec122, 0xa0572807, 0xa3c663da, 0xd28c77c2)
  {
    hide Steps;
    Follow(24, 0x3d1e3e6c, 0xe422531a, 0xeb41643e, 0x68b7b3e3, 0xe362571e, 0, 5, 0x21e1cde6, 0x306ec122);
    Follow(25, 0x68b7b3e3, 0x306ec122, 0xe422531a, 0xeb41643e, 0x24625322, 0, 9, 0xc33707d6, 0xd28c77c2);
    Follow(26, 0xeb41643e, 0xd28c77c2, 0x306ec122, 0xe422531a, 0xd04cd322, 0, 14, 0xf4d50d87, 0xa3c663da);
    Follow(27, 0xe422531a, 0xa3c663da, 0xd28c77c2, 0x306ec122, 0xe2c677c2, 0, 20, 0x455a14ed, 0xa0572807);
  }

  lemma Empty8()
    requires Steps(28, START, EmptyWords()) == Regs(0x306ec122, 0xa0572807, 0xa3c663da, 0xd28c77c2)
    ensures Steps(32, START, EmptyWords()) == Regs(0x13707036, 0xa2205f1f, 0x1c31c384, 0xae7813db)
  {
    hide Steps;
    Follow(28, 0x306ec122, 0xa0572807, 0xa3c663da, 0xd28c77c2, 0xa146201a, 0, 5, 0xa9e3e905, 0x13707036);
    Follow(29, 0xd28c77c2, 0x13707036, 0xa0572807, 0xa3c663da, 0x03516817, 0, 9, 0xfcefa3f8, 0xae7813db);
    Follow(30, 0xa3c663da, 0xae7813db, 0x13707036, 0xa0572807, 0xb3705033, 0, 14, 0x676f02d9, 0x1c31c384);
    Follow(31, 0xa0572807, 0x1c31c384, 0xae7813db, 0x13707036, 0xbc3843cd, 0, 20, 0x8d2a4c8a, 0xa2205f1f);
  }

  lemma Empty9()
    requires Steps(32, START, EmptyWords()) == Regs(0x13707036, 0xa2205f1f, 0x1c31c384, 0xae7813db)
    ensures Steps(36, START, EmptyWords()) == Regs(0xdf63eaa1, 0x004b6669, 0x12f3e755, 0xc3689f5b)
  {
    hide Steps;
    Follow(32, 0x13707036, 0xa2205f1f, 0x1c31c384, 0xae7813db, 0x10698f40, 0, 4, 0xfffa3942, 0xdf63eaa1);
    Follow(33, 0xae7813db, 0xdf63eaa1, 0xa2205f1f, 0x1c31c384, 0x6172763a, 0, 11, 0x8771f681, 0xc3689f5b);
    Follow(34, 0x1c31c384, 0xc3689f5b, 0xdf63eaa1, 0xa2205f1f, 0xbe2b2ae5, 0, 16, 0x6d9d6122, 0x12f3e755);
    Follow(35, 0xa2205f1f, 0x12f3e755, 0xc3689f5b, 0xdf63eaa1, 0x0ef892af, 0, 23, 0xfde5380c, 0x004b6669);
  }

  lemma Empty10()
    requires Steps(36, START, EmptyWords()) == Regs(0xdf63eaa1, 0x004b6669, 0x12f3e755, 0xc3689f5b)
    ensures Steps(40, START, EmptyWords()) == Regs(0x5f7a9b2e, 0xc5dc8c15, 0x91ca4cb7, 0xabc34e16)
  {
    hide Steps;
    Follow(36, 0xdf63eaa1, 0x004b6669, 0x12f3e755, 0xc3689f5b, 0xd1d01e67, 0, 4, 0xa4beea44, 0x5f7a9b2e);
    Follow(37, 0xc3689f5b, 0x5f7a9b2e, 0x004b6669, 0x12f3e755, 0x4dc21a12, 0, 11, 0x4bdecfa9, 0xabc34e16);
    Follow(38, 0x12f3e755, 0xabc34e16, 0x5f7a9b2e, 0x004b6669, 0xf4f2b351, 0, 16, 0xf6bb4b60, 0x91ca4cb7);
    Follow(39, 0x004b6669, 0x91ca4cb7, 0xabc34e16, 0x5f7a9b2e, 0x6573998f, 0, 23, 0xbebfbc70, 0xc5dc8c15);
  }

  lemma Empty11()
    requires Steps(40, START, EmptyWords()) == Regs(0x5f7a9b2e, 0xc5dc8c15, 0x91ca4cb7, 0xabc34e16)
    ensures Steps(44, START, EmptyWords()) == Regs(0x4497169d, 0x0fe32453, 0xfd95f243, 0x76fd93d4)
  {
    hide Steps;
    Follow(40, 0x5f7a9b2e, 0xc5dc8c15, 0x91ca4cb7, 0xabc34e16, 0xffd58eb4, 0, 4, 0x289b7ec6, 0x4497169d);
    Follow(41, 0xabc34e16, 0x4497169d, 0xc5dc8c15, 0x91ca4cb7, 0x1081d63f, 0x00000080, 11, 0xeaa127fa, 0x76fd93d4);
    Follow(42, 0x91ca4cb7, 0x76fd93d4, 0x4497169d, 0xc5dc8c15, 0xf7b6095c, 0, 16, 0xd4ef3085, 0xfd95f243);
    Follow(43, 0xc5dc8c15, 0xfd95f243, 0x76fd93d4, 0x4497169d, 0xcfff770a, 0, 23, 0x04881d05, 0x0fe32453);
  }

  lemma Empty12()
    requires Steps(44, START, EmptyWords()) == Regs(0x4497169d, 0x0fe32453, 0xfd95f243, 0x76fd93d4)
    ensures Steps(48, START, EmptyWords()) == Regs(0x3f55edfd, 0xca7d2dbd, 0x68d84ea2, 0x22a31f54)
  {
    hide Steps;
    Follow(44, 0x4497169d, 0x0fe32453, 0xfd95f243, 0x76fd93d4, 0x848b45c4, 0, 4, 0xd9d4d039, 0x3f55edfd);
    Follow(45, 0x76fd93d4, 0x3f55edfd, 0x0fe32453, 0xfd95f243, 0xcd233bed, 0, 11, 0xe6db99e5, 0x22a31f54);
    Follow(46, 0xfd95f243, 0x22a31f54, 0x3f55edfd, 0x0fe32453, 0x1215d6fa, 0, 16, 0x1fa27cf8, 0x68d84ea2);
    Follow(47, 0x0fe32453, 0x68d84ea2, 0x22a31f54, 0x3f55edfd, 0x752ebc0b, 0, 23, 0xc4ac5665, 0xca7d2dbd);
  }

  lemma Empty13()
    requires Steps(48, START, EmptyWords()) == Regs(0x3f55edfd, 0xca7d2dbd, 0x68d84ea2, 0x22a31f54)
    ensures Steps(52, START, EmptyWords()) == Regs(0x93aa2577, 0x561e0689, 0xcd85b8cb, 0x1688dc85)
  {
    hide Steps;
    Follow(48, 0x3f55edfd, 0xca7d2dbd, 0x68d84ea2, 0x22a31f54, 0xb7a5a31d, 0x00000080, 6, 0xf4292244, 0x93aa2577);
    Follow(49, 0x22a31f54, 0x93aa2577, 0xca7d2dbd, 0x68d84ea2, 0x5dd298c2, 0, 10, 0x432aff97, 0x1688dc85);
    Follow(50, 0x68d84ea2, 0x1688dc85, 0x93aa2577, 0xca7d2dbd, 0xa420fbb0, 0, 15, 0xab9423a7, 0xcd85b8cb);
    Follow(51, 0xca7d2dbd, 0xcd85b8cb, 0x1688dc85, 0x93aa2577, 0xfb5d264e, 0, 21, 0xfc93a039, 0x561e0689);
  }

  lemma Empty14()
    requires Steps(52, START, EmptyWords()) == Regs(0x93aa2577, 0x561e0689, 0xcd85b8cb, 0x1688dc85)
    ensures Steps(56, START, EmptyWords()) == Regs(0x5625a114, 0x1e77fa61, 0x392ad0d0, 0x3450f42b)
  {
    hide Steps;
    Follow(52, 0x93aa2577, 0x561e0689, 0xcd85b8cb, 0x1688dc85, 0x32fa9f30, 0, 6, 0x655b59c3, 0x5625a114);
    Follow(53, 0x1688dc85, 0x5625a114, 0x561e0689, 0xcd85b8cb, 0x2061e1bd, 0, 10, 0x8f0ccc92, 0x3450f42b);
    Follow(54, 0xcd85b8cb, 0x3450f42b, 0x5625a114, 0x561e0689, 0xebd45c6b, 0, 15, 0xffeff47d, 0x392ad0d0);
    Follow(55, 0x561e0689, 0x392ad0d0, 0x3450f42b, 0x5625a114, 0x8daa2ad0, 0, 21, 0x85845dd1, 0x1e77fa61);
  }

  lemma Empty15()
    requires Steps(56, START, EmptyWords()) == Regs(0x5625a114, 0x1e77fa61, 0x392ad0d0, 0x3450f42b)
    ensures Steps(60, START, EmptyWords()) == Regs(0x474a9c8c, 0x30130182, 0x36594b14, 0xdfce00bc)
  {
    hide Steps;
    Follow(56, 0x5625a114, 0x1e77fa61, 0x392ad0d0, 0x3450f42b, 0xe6d52b25, 0, 6, 0x6fa87e4f, 0x474a9c8c);
    Follow(57, 0x3450f42b, 0x474a9c8c, 0x1e77fa61, 0x392ad0d0, 0xd9a845ce, 0, 10, 0xfe2ce6e0, 0xdfce00bc);
    Follow(58, 0x392ad0d0, 0xdfce00bc, 0x474a9c8c, 0x1e77fa61, 0xb8849932, 0, 15, 0xa3014314, 0x36594b14);
    Follow(59, 0x1e77fa61, 0x36594b14, 0xdfce00bc, 0x474a9c8c, 0x61336bcb, 0, 21, 0x4e0811a1, 0x30130182);
  }

  lemma Empty16()
    requires Steps(60, START, EmptyWords()) == Regs(0x474a9c8c, 0x30130182, 0x36594b14, 0xdfce00bc)
    ensures Steps(64, START, EmptyWords()) == Regs(0x7246fad3, 0x14e45506, 0xff4ea3eb, 0x6e10a476)
  {
    hide Steps;
    Follow(60, 0x474a9c8c, 0x30130182, 0x36594b14, 0xdfce00bc, 0x066ab4d7, 0, 6, 0xf7537e82, 0x7246fad3);
    Follow(61, 0xdfce00bc, 0x7246fad3, 0x30130182, 0x36594b14, 0xcbf5ff79, 0, 10, 0xbd3af235, 0x6e10a476);
    Follow(62, 0x36594b14, 0x6e10a476, 0x7246fad3, 0x30130182, 0x9dba04ac, 0, 15, 0x2ad7d2bb, 0xff4ea3eb);
    Follow(63, 0x30130182, 0xff4ea3eb, 0x6e10a476, 0x7246fad3, 0x91ef0399, 0, 21, 0xeb86d391, 0x14e45506);
  }

  lemma EmptyPadded()
    ensures Padded([]) == [0x80] + Zeros(63)
  {
    hide Zeros;
    assert LE64(BitLength(0)) == Zeros(8) by {
      ZeroBytes(8);
    }
    assert Padded([]) == [] + ([0x80] + Zeros(55)) + Zeros(8);
  }

  lemma {:induction false} ZeroBytes(n: nat)
    ensures LE(n, 0) == Zeros(n)
  {
    if n > 0 {
      ZeroBytes(n - 1);
    }
  }

  lemma EmptyBlock()
    ensures WordsOf([0x80] + Zeros(63)) == EmptyWords()
  {
    hide Word;
    var b: seq<byte> := [0x80] + Zeros(63);
    assert b[0..4] == [0x80, 0, 0, 0];
    FourBytes(0x80);
    FourBytes(0);
    forall k | 1 <= k < 16
      ensures WordsOf(b)[k] == 0
    {
      assert b[4 * k..4 * k + 4] == [0, 0, 0, 0];
    }
  }

  lemma FourBytes(x: byte)
    ensures Word([x, 0, 0, 0]) == x as bv32
  {
    var s := [x, 0, 0, 0];
    assert s[1..] == [0, 0, 0] && s[1..][1..] == [0, 0] && s[1..][1..][1..] == [0];
    assert UnLE([0]) == 0;
    assert UnLE([0, 0]) == 0;
    assert UnLE([0, 0, 0]) == 0;
    assert UnLE(s) == x;
  }

  lemma EmptySteps()
    ensures Steps(64, START, EmptyWords()) == Regs(0x7246fad3, 0x14e45506, 0xff4ea3eb, 0x6e10a476)
  {
    hide Steps;
    NoSteps(START, EmptyWords());
    Empty1();
    Empty2();
    Empty3();
    Empty4();
    Empty5();
    Empty6();
    Empty7();
    Empty8();
    Empty9();
    Empty10();
    Empty11();
    Empty12();
    Empty13();
    Empty14();
    Empty15();
    Empty16();
  }

  lemma FourOut(x: uint32, b0: byte, b1: byte, b2: byte, b3: byte)
    requires x == b0 + 0x100 * b1 + 0x1_0000 * b2 + 0x100_0000 * b3
    ensures LE32(x) == [b0, b1, b2, b3]
  {
    var s: seq<byte> := [b0, b1, b2, b3];
    assert s[1..] == [b1, b2, b3] && s[1..][1..] == [b2, b3] && s[1..][1..][1..] == [b3];
    assert UnLE([b3]) == b3;
    assert UnLE([b2, b3]) == b2 + 0x100 * b3;
    assert UnLE([b1, b2, b3]) == b1 + 0x100 * b2 + 0x1_0000 * b3;
    assert UnLE(s) == x;
    LEOfUnLE(s);
  }

  lemma EmptyOutput()
    ensures Output(Plus(START, Regs(0x7246fad3, 0x14e45506, 0xff4ea3eb, 0x6e10a476)))
         == [0xd4, 0x1d, 0x8c, 0xd9, 0x8f, 0x00, 0xb2, 0x04, 0xe9, 0x80, 0x09, 0x98, 0xec, 0xf8, 0x42, 0x7e]
  {
    hide LE32;
    var r := Plus(START, Regs(0x7246fad3, 0x14e45506, 0xff4ea3eb, 0x6e10a476));
    assert r == Regs(0xd98c1dd4, 0x04b2008f, 0x980980e9, 0x7e42f8ec);
    FourOut(0xd98c1dd4, 0xd4, 0x1d, 0x8c, 0xd9);
    FourOut(0x04b2008f, 0x8f, 0x00, 0xb2, 0x04);
    FourOut(0x980980e9, 0xe9, 0x80, 0x09, 0x98);
    FourOut(0x7e42f8ec, 0xec, 0xf8, 0x42, 0x7e);
  }

  /** The digest of the empty message is d41d8cd98f00b204e9800998ecf8427e. */
  lemma EmptyDigest()
    ensures Digest([])
         == [0xd4, 0x1d, 0x8c, 0xd9, 0x8f, 0x00, 0xb2, 0x04, 0xe9, 0x80, 0x09, 0x98, 0xec, 0xf8, 0x42, 0x7e]
  {
    hide Output, Zeros, Steps, Plus, WordsOf, EmptyWords, Padded;
    EmptyPadded();
    EmptyBlock();
    EmptySteps();
    EmptyOutput();
    var b := [0x80] + Zeros(63);
    assert b[..0] == [] && b[0..] == b;
  }
}
