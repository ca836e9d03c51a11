// MD5 (daemon/md5.c) and the digest of a file (daemon/da_protocol.c:790-807), against RFC 1321.

module Md5 {
  import opened Words

  type Block = b: seq<byte> | |b| == 64 witness seq(64, i => 0)

  datatype Regs = Regs(a: bv32, b: bv32, c: bv32, d: bv32)

  // ------------------------------------------------- RFC 1321, section 3.4

  function F(x: bv32, y: bv32, z: bv32): bv32 {
    (x & y) | (!x & z)
  }

  function G(x: bv32, y: bv32, z: bv32): bv32 {
    (x & z) | (y & !z)
  }

  function H(x: bv32, y: bv32, z: bv32): bv32 {
    x ^ y ^ z
  }

  function I(x: bv32, y: bv32, z: bv32): bv32 {
    y ^ (x | !z)
  }

  /** F takes the bits of y where x has a one and those of z elsewhere. */
  lemma FSelects(x: bv32, y: bv32, z: bv32)
    ensures F(x, y, z) & x == y & x && F(x, y, z) & !x == z & !x
  {
  }

  /** G takes the bits of x where z has a one and those of y elsewhere. */
  lemma GSelects(x: bv32, y: bv32, z: bv32)
    ensures G(x, y, z) & z == x & z && G(x, y, z) & !z == y & !z
  {
  }

  /** H is the parity of three bits. */
  lemma HIsParity(x: bv32, y: bv32, z: bv32)
    ensures H(x, y, z) == H(y, x, z) == H(x, z, y) && H(x, y, y) == x
  {
  }

  /** I complements y where x has a one or z has none. */
  lemma IComplements(x: bv32, y: bv32, z: bv32)
    ensures I(x, y, z) & z == (y ^ x) & z && I(x, y, z) & !z == !y & !z
  {
  }

  /** The table T: the integer parts of 2^32 times abs(sin(i + 1)). */
  function Sine(i: nat): bv32
    requires i < 64
  {
    if i < 16 then (
      match i
      case 0 => 0xd76aa478 case 1 => 0xe8c7b756 case 2 => 0x242070db case 3 => 0xc1bdceee
      case 4 => 0xf57c0faf case 5 => 0x4787c62a case 6 => 0xa8304613 case 7 => 0xfd469501
      case 8 => 0x698098d8 case 9 => 0x8b44f7af case 10 => 0xffff5bb1 case 11 => 0x895cd7be
      case 12 => 0x6b901122 case 13 => 0xfd987193 case 14 => 0xa679438e case _ => 0x49b40821
    ) else if i < 32 then (
      match i
      case 16 => 0xf61e2562 case 17 => 0xc040b340 case 18 => 0x265e5a51 case 19 => 0xe9b6c7aa
      case 20 => 0xd62f105d case 21 => 0x02441453 case 22 => 0xd8a1e681 case 23 => 0xe7d3fbc8
      case 24 => 0x21e1cde6 case 25 => 0xc33707d6 case 26 => 0xf4d50d87 case 27 => 0x455a14ed
      case 28 => 0xa9e3e905 case 29 => 0xfcefa3f8 case 30 => 0x676f02d9 case _ => 0x8d2a4c8a
    ) else if i < 48 then (
      match i
      case 32 => 0xfffa3942 case 33 => 0x8771f681 case 34 => 0x6d9d6122 case 35 => 0xfde5380c
      case 36 => 0xa4beea44 case 37 => 0x4bdecfa9 case 38 => 0xf6bb4b60 case 39 => 0xbebfbc70
      case 40 => 0x289b7ec6 case 41 => 0xeaa127fa case 42 => 0xd4ef3085 case 43 => 0x04881d05
      case 44 => 0xd9d4d039 case 45 => 0xe6db99e5 case 46 => 0x1fa27cf8 case _ => 0xc4ac5665
    ) else (
      match i
      case 48 => 0xf4292244 case 49 => 0x432aff97 case 50 => 0xab9423a7 case 51 => 0xfc93a039
      case 52 => 0x655b59c3 case 53 => 0x8f0ccc92 case 54 => 0xffeff47d case 55 => 0x85845dd1
      case 56 => 0x6fa87e4f case 57 => 0xfe2ce6e0 case 58 => 0xa3014314 case 59 => 0x4e0811a1
      case 60 => 0xf7537e82 case 61 => 0xbd3af235 case 62 => 0x2ad7d2bb case _ => 0xeb86d391
    )
  }

  /** RFC 1321, section 2: addition of words, modulo 2^32. */
  function Add(x: bv32, y: bv32): bv32 {
    x + y
  }

  /** Nothing added, and one more added. */
  lemma AddZero(x: bv32)
    ensures Add(x, 0) == x
  {
  }

  lemma AddOne(x: bv32, y: bv32)
    ensures Add(x, y + 1) == Add(x, y) + 1
  {
    assert x + (y + 1) == (x + y) + 1;
  }

  /** The auxiliary function of step i. */
  function Mix(i: nat, x: bv32, y: bv32, z: bv32): bv32 {
    if i < 16 then F(x, y, z) else if i < 32 then G(x, y, z) else if i < 48 then H(x, y, z) else I(x, y, z)
  }

  /** The word of the block that step i uses. */
  function Index(i: nat): (k: nat)
    ensures k < 16
  {
    if i < 16 then i else if i < 32 then (5 * i + 1) % 16 else if i < 48 then (3 * i + 5) % 16 else (7 * i) % 16
  }

  /** The number of bits step i rotates by. */
  function Amount(i: nat): (s: nat)
    requires i < 64
    ensures 0 < s < 32
  {
    match (i / 16, i % 4)
    case (0, 0) => 7 case (0, 1) => 12 case (0, 2) => 17 case (0, _) => 22
    case (1, 0) => 5 case (1, 1) => 9 case (1, 2) => 14 case (1, _) => 20
    case (2, 0) => 4 case (2, 1) => 11 case (2, 2) => 16 case (2, _) => 23
    case (_, 0) => 6 case (_, 1) => 10 case (_, 2) => 15 case (_, _) => 21
  }

  function Rotated(x: bv32, s: nat): bv32
    requires s < 32
  {
    x.RotateLeft(s)
  }

  /** b + ((a + mix + x + t) <<< s). */
  function Turn(a: bv32, mix: bv32, b: bv32, x: bv32, s: nat, t: bv32): bv32
    requires s < 32
  {
    Add(Rotated(Add(Add(Add(a, mix), x), t), s), b)
  }

  /** One step, the registers renamed so that the next one is the same again. */
  function Step(i: nat, r: Regs, x: seq<bv32>): Regs
    requires i < 64 && |x| == 16
  {
    Regs(r.d, Turn(r.a, Mix(i, r.b, r.c, r.d), r.b, x[Index(i)], Amount(i), Sine(i)), r.b, r.c)
  }

  function Steps(n: nat, r: Regs, x: seq<bv32>): Regs
    requires n <= 64 && |x| == 16
  {
    if n == 0 then r else Step(n - 1, Steps(n - 1, r, x), x)
  }

  /** Four bytes, low-order byte first. */
  function Word(b: seq<byte>): bv32
    requires |b| == 4
  {
    UnLE32(b) as bv32
  }

  function WordsOf(b: Block): (x: seq<bv32>)
    ensures |x| == 16
    ensures forall k {:trigger x[k]} :: 0 <= k < 16 ==> x[k] == Word(b[4 * k..4 * k + 4])
  {
    seq(16, k requires 0 <= k < 16 => Word(b[4 * k..4 * k + 4]))
  }

  function Plus(r: Regs, s: Regs): Regs {
    Regs(Add(r.a, s.a), Add(r.b, s.b), Add(r.c, s.c), Add(r.d, s.d))
  }

  function Compress(r: Regs, b: Block): Regs {
    Plus(r, Steps(64, r, WordsOf(b)))
  }

  // ----------------------------------------- RFC 1321, sections 3.1-3.3, 3.5

  const START := Regs(0x67452301, 0xefcdab89, 0x98badcfe, 0x10325476)

  /** All whole blocks of m. */
  function Fold(m: seq<byte>): Regs
    requires |m| % 64 == 0
  {
    if m == [] then START else Compress(Fold(m[..|m| - 64]), m[|m| - 64..])
  }

  function Zeros(n: nat): (z: seq<byte>)
    ensures |z| == n
    ensures forall i :: 0 <= i < n ==> z[i] == 0
  {
    seq(n, i => 0)
  }

  /** A one bit, as few zero bits as bring the length to 448 modulo 512. */
  function Padding(len: nat): (p: seq<byte>)
    ensures 1 <= |p| <= 64 && (len + |p|) % 64 == 56
  {
    [0x80] + Zeros((55 - len) % 64)
  }

  function BitLength(len: nat): uint64 {
    8 * len % 0x1_0000_0000_0000_0000
  }

  function Padded(m: seq<byte>): (p: seq<byte>)
    ensures |p| % 64 == 0
  {
    LastBlock(|m| + |Padding(|m|)|);
    m + Padding(|m|) + LE64(BitLength(|m|))
  }

  lemma LastBlock(n: nat)
    requires n % 64 == 56
    ensures (n + 8) % 64 == 0
  {
  }

  function Output(r: Regs): (d: seq<byte>)
    ensures |d| == 16
  {
    LE32(r.a as uint32) + LE32(r.b as uint32) + LE32(r.c as uint32) + LE32(r.d as uint32)
  }

  /** The digest of a message. */
  function Digest(m: seq<byte>): (d: seq<byte>)
    ensures |d| == 16
  {
    Output(Fold(Padded(m)))
  }

  // ------------------------------------------------------------ md5_process

  const T_MASK: bv32 := 0xffff_ffff
  const T1: bv32 := T_MASK ^ 0x28955b87
  const T2: bv32 := T_MASK ^ 0x173848a9
  const T3: bv32 := 0x242070db
  const T4: bv32 := T_MASK ^ 0x3e423111
  const T5: bv32 := T_MASK ^ 0x0a83f050
  const T6: bv32 := 0x4787c62a
  const T7: bv32 := T_MASK ^ 0x57cfb9ec
  const T8: bv32 := T_MASK ^ 0x02b96afe
  const T9: bv32 := 0x698098d8
  const T10: bv32 := T_MASK ^ 0x74bb0850
  const T11: bv32 := T_MASK ^ 0x0000a44e
  const T12: bv32 := T_MASK ^ 0x76a32841
  const T13: bv32 := 0x6b901122
  const T14: bv32 := T_MASK ^ 0x02678e6c
  const T15: bv32 := T_MASK ^ 0x5986bc71
  const T16: bv32 := 0x49b40821
  const T17: bv32 := T_MASK ^ 0x09e1da9d
  const T18: bv32 := T_MASK ^ 0x3fbf4cbf
  const T19: bv32 := 0x265e5a51
  const T20: bv32 := T_MASK ^ 0x16493855
  const T21: bv32 := T_MASK ^ 0x29d0efa2
  const T22: bv32 := 0x02441453
  const T23: bv32 := T_MASK ^ 0x275e197e
  const T24: bv32 := T_MASK ^ 0x182c0437
  const T25: bv32 := 0x21e1cde6
  const T26: bv32 := T_MASK ^ 0x3cc8f829
  const T27: bv32 := T_MASK ^ 0x0b2af278
  const T28: bv32 := 0x455a14ed
  const T29: bv32 := T_MASK ^ 0x561c16fa
  const T30: bv32 := T_MASK ^ 0x03105c07
  const T31: bv32 := 0x676f02d9
  const T32: bv32 := T_MASK ^ 0x72d5b375
  const T33: bv32 := T_MASK ^ 0x0005c6bd
  const T34: bv32 := T_MASK ^ 0x788e097e
  const T35: bv32 := 0x6d9d6122
  const T36: bv32 := T_MASK ^ 0x021ac7f3
  const T37: bv32 := T_MASK ^ 0x5b4115bb
  const T38: bv32 := 0x4bdecfa9
  const T39: bv32 := T_MASK ^ 0x0944b49f
  const T40: bv32 := T_MASK ^ 0x4140438f
  const T41: bv32 := 0x289b7ec6
  const T42: bv32 := T_MASK ^ 0x155ed805
  const T43: bv32 := T_MASK ^ 0x2b10cf7a
  const T44: bv32 := 0x04881d05
  const T45: bv32 := T_MASK ^ 0x262b2fc6
  const T46: bv32 := T_MASK ^ 0x1924661a
  const T47: bv32 := 0x1fa27cf8
  const T48: bv32 := T_MASK ^ 0x3b53a99a
  const T49: bv32 := T_MASK ^ 0x0bd6ddbb
  const T50: bv32 := 0x432aff97
  const T51: bv32 := T_MASK ^ 0x546bdc58
  const T52: bv32 := T_MASK ^ 0x036c5fc6
  const T53: bv32 := 0x655b59c3
  const T54: bv32 := T_MASK ^ 0x70f3336d
  const T55: bv32 := T_MASK ^ 0x00100b82
  const T56: bv32 := T_MASK ^ 0x7a7ba22e
  const T57: bv32 := 0x6fa87e4f
  const T58: bv32 := T_MASK ^ 0x01d3191f
  const T59: bv32 := T_MASK ^ 0x5cfebceb
  const T60: bv32 := 0x4e0811a1
  const T61: bv32 := T_MASK ^ 0x08ac817d
  const T62: bv32 := T_MASK ^ 0x42c50dca
  const T63: bv32 := 0x2ad7d2bb
  const T64: bv32 := T_MASK ^ 0x14792c6e

  function RotateLeft(x: bv32, n: nat): bv32
    requires 0 < n < 32
  {
    (x << n) | (x >> (32 - n))
  }

  /** The macro SET, given the value of its round's auxiliary function. */
  function Set(a: bv32, mix: bv32, b: bv32, x: bv32, s: nat, t: bv32): bv32
    requires 0 < s < 32
  {
    Add(RotateLeft(Add(Add(Add(a, mix), x), t), s), b)
  }

  lemma RotateIsRotated(x: bv32, i: nat)
    requires i < 64
    ensures RotateLeft(x, Amount(i)) == Rotated(x, Amount(i))
  {
    hide RotateLeft, Rotated;
    RotateByFew(x);
    RotateByMany(x);
  }

  lemma RotateByFew(x: bv32)
    ensures RotateLeft(x, 4) == Rotated(x, 4) && RotateLeft(x, 5) == Rotated(x, 5)
    ensures RotateLeft(x, 6) == Rotated(x, 6) && RotateLeft(x, 7) == Rotated(x, 7)
    ensures RotateLeft(x, 9) == Rotated(x, 9) && RotateLeft(x, 10) == Rotated(x, 10)
    ensures RotateLeft(x, 11) == Rotated(x, 11) && RotateLeft(x, 12) == Rotated(x, 12)
  {
  }

  lemma RotateByMany(x: bv32)
    ensures RotateLeft(x, 14) == Rotated(x, 14) && RotateLeft(x, 15) == Rotated(x, 15)
    ensures RotateLeft(x, 16) == Rotated(x, 16) && RotateLeft(x, 17) == Rotated(x, 17)
    ensures RotateLeft(x, 20) == Rotated(x, 20) && RotateLeft(x, 21) == Rotated(x, 21)
    ensures RotateLeft(x, 22) == Rotated(x, 22) && RotateLeft(x, 23) == Rotated(x, 23)
  {
  }

  lemma SetIsTurn(a: bv32, mix: bv32, b: bv32, x: bv32, i: nat, t: bv32)
    requires i < 64
    ensures Set(a, mix, b, x, Amount(i), t) == Turn(a, mix, b, x, Amount(i), t)
  {
    hide RotateLeft, Rotated, Amount, Add;
    RotateIsRotated(Add(Add(Add(a, mix), x), t), i);
  }

  /** After four steps in place the registers are back in order. */
  lemma Quarter(i: nat, start: Regs, x: seq<bv32>, s: Regs, t: Regs) returns (now: Regs)
    requires i + 4 <= 64 && |x| == 16 && s == Steps(i, start, x)
    requires t.a == Set(s.a, Mix(i, s.b, s.c, s.d), s.b, x[Index(i)], Amount(i), Sine(i))
    requires t.d == Set(s.d, Mix(i + 1, t.a, s.b, s.c), t.a, x[Index(i + 1)], Amount(i + 1), Sine(i + 1))
    requires t.c == Set(s.c, Mix(i + 2, t.d, t.a, s.b), t.d, x[Index(i + 2)], Amount(i + 2), Sine(i + 2))
    requires t.b == Set(s.b, Mix(i + 3, t.c, t.d, t.a), t.c, x[Index(i + 3)], Amount(i + 3), Sine(i + 3))
    ensures now == t == Steps(i + 4, start, x)
  {
    hide Mix, Sine, Amount, Index, Set, Turn;
    SetIsTurn(s.a, Mix(i, s.b, s.c, s.d), s.b, x[Index(i)], i, Sine(i));
    SetIsTurn(s.d, Mix(i + 1, t.a, s.b, s.c), t.a, x[Index(i + 1)], i + 1, Sine(i + 1));
    SetIsTurn(s.c, Mix(i + 2, t.d, t.a, s.b), t.d, x[Index(i + 2)], i + 2, Sine(i + 2));
    SetIsTurn(s.b, Mix(i + 3, t.c, t.d, t.a), t.c, x[Index(i + 3)], i + 3, Sine(i + 3));
    assert Steps(i + 1, start, x) == Regs(s.d, t.a, s.b, s.c);
    assert Steps(i + 2, start, x) == Regs(s.c, t.d, t.a, s.b);
    assert Steps(i + 3, start, x) == Regs(s.b, t.c, t.d, t.a);
    now := t;
  }

  /** What RFC 1321 gives for step i. */
  predicate Row(i: nat, k: nat, s: nat, t: bv32)
    requires i < 64
  {
    Index(i) == k && Amount(i) == s && Sine(i) == t
  }

  lemma Rows1()
    ensures Row(0, 0, 7, T1) && Row(1, 1, 12, T2) && Row(2, 2, 17, T3) && Row(3, 3, 22, T4)
    ensures Row(4, 4, 7, T5) && Row(5, 5, 12, T6) && Row(6, 6, 17, T7) && Row(7, 7, 22, T8)
    ensures Row(8, 8, 7, T9) && Row(9, 9, 12, T10) && Row(10, 10, 17, T11) && Row(11, 11, 22, T12)
    ensures Row(12, 12, 7, T13) && Row(13, 13, 12, T14) && Row(14, 14, 17, T15) && Row(15, 15, 22, T16)
  {
  }

  lemma Rows2()
    ensures Row(16, 1, 5, T17) && Row(17, 6, 9, T18) && Row(18, 11, 14, T19) && Row(19, 0, 20, T20)
    ensures Row(20, 5, 5, T21) && Row(21, 10, 9, T22) && Row(22, 15, 14, T23) && Row(23, 4, 20, T24)
    ensures Row(24, 9, 5, T25) && Row(25, 14, 9, T26) && Row(26, 3, 14, T27) && Row(27, 8, 20, T28)
    ensures Row(28, 13, 5, T29) && Row(29, 2, 9, T30) && Row(30, 7, 14, T31) && Row(31, 12, 20, T32)
  {
  }

  lemma Rows3()
    ensures Row(32, 5, 4, T33) && Row(33, 8, 11, T34) && Row(34, 11, 16, T35) && Row(35, 14, 23, T36)
    ensures Row(36, 1, 4, T37) && Row(37, 4, 11, T38) && Row(38, 7, 16, T39) && Row(39, 10, 23, T40)
    ensures Row(40, 13, 4, T41) && Row(41, 0, 11, T42) && Row(42, 3, 16, T43) && Row(43, 6, 23, T44)
    ensures Row(44, 9, 4, T45) && Row(45, 12, 11, T46) && Row(46, 15, 16, T47) && Row(47, 2, 23, T48)
  {
  }

  lemma Rows4()
    ensures Row(48, 0, 6, T49) && Row(49, 7, 10, T50) && Row(50, 14, 15, T51) && Row(51, 5, 21, T52)
    ensures Row(52, 12, 6, T53) && Row(53, 3, 10, T54) && Row(54, 10, 15, T55) && Row(55, 1, 21, T56)
    ensures Row(56, 8, 6, T57) && Row(57, 15, 10, T58) && Row(58, 6, 15, T59) && Row(59, 13, 21, T60)
    ensures Row(60, 4, 6, T61) && Row(61, 11, 10, T62) && Row(62, 2, 15, T63) && Row(63, 9, 21, T64)
  {
  }

  method Round1(r: Regs, x: seq<bv32>, ghost start: Regs) returns (r': Regs)
    requires |x| == 16 && r == Steps(0, start, x)
    ensures r' == Steps(16, start, x)
  {
    hide F, Set, Steps, Index, Amount, Sine;
    Rows1();
    var a, b, c, d := r.a, r.b, r.c, r.d;
    ghost var s := r;
    a := Set(a, F(b, c, d), b, x[0], 7, T1);
    d := Set(d, F(a, b, c), a, x[1], 12, T2);
    c := Set(c, F(d, a, b), d, x[2], 17, T3);
    b := Set(b, F(c, d, a), c, x[3], 22, T4);
    s := Quarter(0, start, x, s, Regs(a, b, c, d));
    a := Set(a, F(b, c, d), b, x[4], 7, T5);
    d := Set(d, F(a, b, c), a, x[5], 12, T6);
    c := Set(c, F(d, a, b), d, x[6], 17, T7);
    b := Set(b, F(c, d, a), c, x[7], 22, T8);
    s := Quarter(4, start, x, s, Regs(a, b, c, d));
    a := Set(a, F(b, c, d), b, x[8], 7, T9);
    d := Set(d, F(a, b, c), a, x[9], 12, T10);
    c := Set(c, F(d, a, b), d, x[10], 17, T11);
    b := Set(b, F(c, d, a), c, x[11], 22, T12);
    s := Quarter(8, start, x, s, Regs(a, b, c, d));
    a := Set(a, F(b, c, d), b, x[12], 7, T13);
    d := Set(d, F(a, b, c), a, x[13], 12, T14);
    c := Set(c, F(d, a, b), d, x[14], 17, T15);
    b := Set(b, F(c, d, a), c, x[15], 22, T16);
    s := Quarter(12, start, x, s, Regs(a, b, c, d));
    r' := Regs(a, b, c, d);
  }

  method Round2(r: Regs, x: seq<bv32>, ghost start: Regs) returns (r': Regs)
    requires |x| == 16 && r == Steps(16, start, x)
    ensures r' == Steps(32, start, x)
  {
    hide G, Set, Steps, Index, Amount, Sine;
    Rows2();
    var a, b, c, d := r.a, r.b, r.c, r.d;
    ghost var s := r;
    a := Set(a, G(b, c, d), b, x[1], 5, T17);
    d := Set(d, G(a, b, c), a, x[6], 9, T18);
    c := Set(c, G(d, a, b), d, x[11], 14, T19);
    b := Set(b, G(c, d, a), c, x[0], 20, T20);
    s := Quarter(16, start, x, s, Regs(a, b, c, d));
    a := Set(a, G(b, c, d), b, x[5], 5, T21);
    d := Set(d, G(a, b, c), a, x[10], 9, T22);
    c := Set(c, G(d, a, b), d, x[15], 14, T23);
    b := Set(b, G(c, d, a), c, x[4], 20, T24);
    s := Quarter(20, start, x, s, Regs(a, b, c, d));
    a := Set(a, G(b, c, d), b, x[9], 5, T25);
    d := Set(d, G(a, b, c), a, x[14], 9, T26);
    c := Set(c, G(d, a, b), d, x[3], 14, T27);
    b := Set(b, G(c, d, a), c, x[8], 20, T28);
    s := Quarter(24, start, x, s, Regs(a, b, c, d));
    a := Set(a, G(b, c, d), b, x[13], 5, T29);
    d := Set(d, G(a, b, c), a, x[2], 9, T30);
    c := Set(c, G(d, a, b), d, x[7], 14, T31);
    b := Set(b, G(c, d, a), c, x[12], 20, T32);
    s := Quarter(28, start, x, s, Regs(a, b, c, d));
    r' := Regs(a, b, c, d);
  }

  method Round3(r: Regs, x: seq<bv32>, ghost start: Regs) returns (r': Regs)
    requires |x| == 16 && r == Steps(32, start, x)
    ensures r' == Steps(48, start, x)
  {
    hide H, Set, Steps, Index, Amount, Sine;
    Rows3();
    var a, b, c, d := r.a, r.b, r.c, r.d;
    ghost var s := r;
    a := Set(a, H(b, c, d), b, x[5], 4, T33);
    d := Set(d, H(a, b, c), a, x[8], 11, T34);
    c := Set(c, H(d, a, b), d, x[11], 16, T35);
    b := Set(b, H(c, d, a), c, x[14], 23, T36);
    s := Quarter(32, start, x, s, Regs(a, b, c, d));
    a := Set(a, H(b, c, d), b, x[1], 4, T37);
    d := Set(d, H(a, b, c), a, x[4], 11, T38);
    c := Set(c, H(d, a, b), d, x[7], 16, T39);
    b := Set(b, H(c, d, a), c, x[10], 23, T40);
    s := Quarter(36, start, x, s, Regs(a, b, c, d));
    a := Set(a, H(b, c, d), b, x[13], 4, T41);
    d := Set(d, H(a, b, c), a, x[0], 11, T42);
    c := Set(c, H(d, a, b), d, x[3], 16, T43);
    b := Set(b, H(c, d, a), c, x[6], 23, T44);
    s := Quarter(40, start, x, s, Regs(a, b, c, d));
    a := Set(a, H(b, c, d), b, x[9], 4, T45);
    d := Set(d, H(a, b, c), a, x[12], 11, T46);
    c := Set(c, H(d, a, b), d, x[15], 16, T47);
    b := Set(b, H(c, d, a), c, x[2], 23, T48);
    s := Quarter(44, start, x, s, Regs(a, b, c, d));
    r' := Regs(a, b, c, d);
  }

  method Round4(r: Regs, x: seq<bv32>, ghost start: Regs) returns (r': Regs)
    requires |x| == 16 && r == Steps(48, start, x)
    ensures r' == Steps(64, start, x)
  {
    hide I, Set, Steps, Index, Amount, Sine;
    Rows4();
    var a, b, c, d := r.a, r.b, r.c, r.d;
    ghost var s := r;
    a := Set(a, I(b, c, d), b, x[0], 6, T49);
    d := Set(d, I(a, b, c), a, x[7], 10, T50);
    c := Set(c, I(d, a, b), d, x[14], 15, T51);
    b := Set(b, I(c, d, a), c, x[5], 21, T52);
    s := Quarter(48, start, x, s, Regs(a, b, c, d));
    a := Set(a, I(b, c, d), b, x[12], 6, T53);
    d := Set(d, I(a, b, c), a, x[3], 10, T54);
    c := Set(c, I(d, a, b), d, x[10], 15, T55);
    b := Set(b, I(c, d, a), c, x[1], 21, T56);
    s := Quarter(52, start, x, s, Regs(a, b, c, d));
    a := Set(a, I(b, c, d), b, x[8], 6, T57);
    d := Set(d, I(a, b, c), a, x[15], 10, T58);
    c := Set(c, I(d, a, b), d, x[6], 15, T59);
    b := Set(b, I(c, d, a), c, x[13], 21, T60);
    s := Quarter(56, start, x, s, Regs(a, b, c, d));
    a := Set(a, I(b, c, d), b, x[4], 6, T61);
    d := Set(d, I(a, b, c), a, x[11], 10, T62);
    c := Set(c, I(d, a, b), d, x[2], 15, T63);
    b := Set(b, I(c, d, a), c, x[9], 21, T64);
    s := Quarter(60, start, x, s, Regs(a, b, c, d));
    r' := Regs(a, b, c, d);
  }

  /** xp[0] + (xp[1] << 8) + (xp[2] << 16) + (xp[3] << 24), in 32 bits. */
  function ShiftedSum(x0: int, x1: int, x2: int, x3: int): bv32 {
    U32(x0 + x1 * 0x100 + x2 * 0x1_0000 + x3 * 0x100_0000) as bv32
  }

  /** The shifts of the big-endian path amount to reading low-order byte first. */
  lemma SumIsWord(b: seq<byte>)
    requires |b| == 4
    ensures ShiftedSum(b[0], b[1], b[2], b[3]) == Word(b)
  {
    assert b[1..][1..] == b[2..] && b[2..][1..] == b[3..] && b[3..][1..] == [];
    assert UnLE(b[3..]) == b[3];
    assert UnLE(b[2..]) == b[2] + 256 * UnLE(b[3..]);
    assert UnLE(b[1..]) == b[1] + 256 * UnLE(b[2..]);
  }

  lemma WordInBlock(data: array<byte>, p: nat, k: nat)
    requires p + 64 <= data.Length && k + 4 <= 64
    ensures data[p + k..p + k + 4] == data[p..p + 64][k..k + 4]
  {
    var b := data[p..p + 64];
    var l, r := data[p + k..p + k + 4], b[k..k + 4];
    forall j | 0 <= j < 4
      ensures l[j] == r[j]
    {
      assert r[j] == b[k + j];
    }
  }

  /** How the words of a block are read: in place or after copying on a little-endian machine,
      by summing shifted bytes on a big-endian one. */
  method Load(data: array<byte>, p: nat, bigEndian: bool, aligned: bool) returns (x: seq<bv32>)
    requires p + 64 <= data.Length
    ensures x == WordsOf(data[p..p + 64])
  {
    hide Word, ShiftedSum;
    ghost var block := data[p..p + 64];
    var src, at := data, p;
    if !bigEndian && !aligned {
      src := Copy(data, p);
      at := 0;
      assert src[at..at + 64] == src[..];
    }
    x := [];
    for i := 0 to 16
      invariant src[at..at + 64] == block
      invariant |x| == i
      invariant forall k {:trigger x[k]} :: 0 <= k < i ==> x[k] == Word(block[4 * k..4 * k + 4])
    {
      WordInBlock(src, at, 4 * i);
      var w := src[at + 4 * i..at + 4 * i + 4];
      assert w == block[4 * i..4 * i + 4];
      SumIsWord(w);
      x := x + [if bigEndian then ShiftedSum(w[0], w[1], w[2], w[3]) else Word(w)];
    }
  }

  method Copy(data: array<byte>, p: nat) returns (xbuf: array<byte>)
    requires p + 64 <= data.Length
    ensures fresh(xbuf) && xbuf[..] == data[p..p + 64]
  {
    xbuf := new byte[64];
    forall i | 0 <= i < 64 {
      xbuf[i] := data[p + i];
    }
  }

  /** md5_process: the unrolled steps are the compression function of RFC 1321 on every block and
      state, however the block was read. */
  method Process(abcd: Regs, data: array<byte>, p: nat, bigEndian: bool, aligned: bool) returns (r: Regs)
    requires p + 64 <= data.Length
    ensures r == Compress(abcd, data[p..p + 64])
  {
    hide WordsOf, Steps;
    var x := Load(data, p, bigEndian, aligned);
    NoSteps(abcd, x);
    r := Round1(abcd, x, abcd);
    r := Round2(r, x, abcd);
    r := Round3(r, x, abcd);
    r := Round4(r, x, abcd);
    r := Regs(Add(abcd.a, r.a), Add(abcd.b, r.b), Add(abcd.c, r.c), Add(abcd.d, r.d));
  }

  lemma NoSteps(r: Regs, x: seq<bv32>)
    requires |x| == 16
    ensures Steps(0, r, x) == r
  {
  }

  // --------------------------------------------- md5_append and md5_finish

  /** The part of n that whole blocks cover. */
  function Whole(n: nat): (w: nat)
    ensures w % 64 == 0 && w <= n < w + 64
  {
    n - n % 64
  }

  lemma WholeIs(n: nat, w: nat)
    requires w % 64 == 0 && w <= n < w + 64
    ensures Whole(n) == w
  {
  }

  lemma FoldNext(m: seq<byte>, b: seq<byte>)
    requires |m| % 64 == 0 && |b| == 64
    ensures Fold(m + b) == Compress(Fold(m), b)
  {
    hide Compress;
    assert (m + b)[..|m|] == m && (m + b)[|m|..] == b;
  }

  /** Adding n bytes to a count of bits in two 32-bit words, low word first, with a carry. */
  lemma CountCarries(count0: uint32, count1: uint32, len: nat, n: nat)
    requires count1 * WORD32 + count0 == BitLength(len) && n < 0x8000_0000
    ensures var nbits := U32(n * 8);
      var low := U32(count0 + nbits);
      var high := U32(count1 + n / 0x2000_0000);
      (if low < nbits then U32(high + 1) else high) * WORD32 + low == BitLength(len + n)
  {
    var q, nbits := n / 0x2000_0000, U32(n * 8);
    assert n * 8 == q * WORD32 + nbits;
    var low := U32(count0 + nbits);
    var c := if low < nbits then 1 else 0;
    assert low == count0 + nbits - c * WORD32;
    var high := U32(count1 + q + c);
    U32Inner(count1 + q, c);
    var d := (count1 + q + c) / WORD32;
    assert high == count1 + q + c - d * WORD32;
    assert high * WORD32 + low == count1 * WORD32 + count0 + 8 * n - d * 0x1_0000_0000_0000_0000;
    SameBits(len, n, high * WORD32 + low, d);
  }

  lemma SameBits(len: nat, n: nat, x: uint64, d: int)
    requires x == BitLength(len) + 8 * n - d * 0x1_0000_0000_0000_0000
    ensures x == BitLength(len + n)
  {
    var e, f := 8 * len / 0x1_0000_0000_0000_0000, 8 * (len + n) / 0x1_0000_0000_0000_0000;
    assert x - BitLength(len + n) == (f - e - d) * 0x1_0000_0000_0000_0000;
  }

  lemma CountGivesOffset(count0: uint32, count1: uint32, len: nat)
    requires count1 * WORD32 + count0 == BitLength(len)
    ensures count0 / 8 % 64 == len - Whole(len)
  {
    var k := count1 + 8 * len / 0x1_0000_0000_0000_0000 * WORD32;
    assert count0 == 8 * len - k * WORD32;
    assert count0 / 8 == len - k * 0x2000_0000;
    SameModulo(count0 / 8, len, -k * 0x80_0000);
  }

  class Md5State {
    var count0: uint32
    var count1: uint32
    var abcd: Regs
    const buf: array<byte>
    /** What has been appended so far. */
    ghost var msg: seq<byte>

    /** The counter holds the bits of msg modulo 2^64, abcd the fold over its whole blocks, and buf
        begins with the bytes behind them. */
    ghost predicate Valid()
      reads this, buf
    {
      && buf.Length == 64
      && count1 * WORD32 + count0 == BitLength(|msg|)
      && abcd == Fold(msg[..Whole(|msg|)])
      && buf[..|msg| - Whole(|msg|)] == msg[Whole(|msg|)..]
    }

    constructor ()
      ensures Valid() && fresh(buf) && msg == []
    {
      count0, count1, msg := 0, 0, [];
      abcd := Regs(0x67452301, T_MASK ^ 0x10325476, T_MASK ^ 0x67452301, 0x10325476);
      buf := new byte[64];
    }

    method Count(nbytes: nat)
      requires count1 * WORD32 + count0 == BitLength(|msg|) && nbytes < 0x8000_0000
      modifies `count0, `count1
      ensures count1 * WORD32 + count0 == BitLength(|msg| + nbytes)
    {
      hide U32, BitLength;
      CountCarries(count0, count1, |msg|, nbytes);
      var nbits := U32(nbytes * 8);
      count1 := U32(count1 + nbytes / 0x2000_0000);
      count0 := U32(count0 + nbits);
      if count0 < nbits {
        count1 := U32(count1 + 1);
      }
    }

    /** The number of bytes in buf. */
    method Offset() returns (offset: nat)
      requires count1 * WORD32 + count0 == BitLength(|msg|)
      ensures offset == |msg| - Whole(|msg|)
    {
      CountGivesOffset(count0, count1, |msg|);
      offset := count0 / 8 % 64;
    }

    /** memcpy into buf. */
    method Fill(offset: nat, data: array<byte>, p: nat, n: nat)
      requires buf.Length == 64 && offset + n <= 64 && p + n <= data.Length && data != buf
      modifies buf
      ensures buf[..offset + n] == old(buf[..offset]) + data[p..p + n]
    {
      forall i | 0 <= i < n {
        buf[offset + i] := data[p + i];
      }
    }

    /** All whole blocks of data from p on; done has been folded already. */
    method Blocks(data: array<byte>, p0: nat, nbytes: nat, bigEndian: bool, ghost done: seq<byte>) returns (p: nat)
      requires p0 <= nbytes <= data.Length && |done| % 64 == 0 && abcd == Fold(done)
      modifies `abcd
      ensures p0 <= p <= nbytes < p + 64 && |done + data[p0..p]| % 64 == 0 && abcd == Fold(done + data[p0..p])
    {
      hide Fold, Compress;
      p := p0;
      var left := nbytes - p;
      assert done + data[p0..p0] == done;
      while left >= 64
        invariant p0 <= p <= nbytes && left == nbytes - p
        invariant |done + data[p0..p]| % 64 == 0 && abcd == Fold(done + data[p0..p])
      {
        FoldNext(done + data[p0..p], data[p..p + 64]);
        assert done + data[p0..p + 64] == done + data[p0..p] + data[p..p + 64];
        var aligned := *;
        abcd := Process(abcd, data, p, bigEndian, aligned);
        p, left := p + 64, left - 64;
      }
    }

    /** d did not complete a block. */
    ghost method Pile(d: seq<byte>)
      requires buf.Length == 64 && count1 * WORD32 + count0 == BitLength(|msg| + |d|)
      requires |msg| - Whole(|msg|) + |d| < 64 && abcd == Fold(msg[..Whole(|msg|)])
      requires buf[..|msg| - Whole(|msg|) + |d|] == msg[Whole(|msg|)..] + d
      modifies `msg
      ensures Valid() && msg == old(msg) + d
    {
      hide Fold, Whole, BitLength;
      PartialBlock(msg, d);
      msg := msg + d;
    }

    method Append(data: array<byte>, nbytes: int, bigEndian: bool)
      requires Valid() && data != buf && nbytes <= data.Length && nbytes + 63 < 0x8000_0000
      modifies this, buf
      ensures Valid()
      ensures nbytes <= 0 ==> msg == old(msg)
      ensures nbytes > 0 ==> msg == old(msg) + data[..nbytes]
    {
      hide Fold, Whole, BitLength;
      var offset := Offset();
      if nbytes <= 0 {
        return;
      }
      Count(nbytes);
      if offset != 0 {
        var copy := if offset + nbytes > 64 then 64 - offset else nbytes;
        Fill(offset, data, 0, copy);
        if offset + copy < 64 {
          assert copy == nbytes && data[0..copy] == data[..nbytes];
          Pile(data[..nbytes]);
          return;
        }
        FirstBlock(data, copy, bigEndian);
        Rest(data, copy, nbytes, bigEndian);
      } else {
        assert msg[..Whole(|msg|)] == msg + data[..0];
        Rest(data, 0, nbytes, bigEndian);
      }
    }

    /** buf has been filled up. */
    method FirstBlock(data: array<byte>, copy: nat, bigEndian: bool)
      requires buf.Length == 64 && copy <= data.Length && abcd == Fold(msg[..Whole(|msg|)])
      requires buf[..] == msg[Whole(|msg|)..] + data[..copy]
      modifies `abcd
      ensures |msg + data[..copy]| % 64 == 0 && abcd == Fold(msg + data[..copy])
    {
      hide Fold, Compress, Whole;
      ghost var m := msg[..Whole(|msg|)];
      assert m + buf[..] == msg + data[..copy] && buf[0..64] == buf[..];
      FoldNext(m, buf[..]);
      abcd := Process(abcd, buf, 0, bigEndian, true);
    }

    /** Whole blocks straight from data, the remaining bytes into buf. */
    method Rest(data: array<byte>, p0: nat, nbytes: nat, bigEndian: bool)
      requires buf.Length == 64 && data != buf && p0 <= nbytes <= data.Length
      requires count1 * WORD32 + count0 == BitLength(|msg| + nbytes)
      requires |msg + data[..p0]| % 64 == 0 && abcd == Fold(msg + data[..p0])
      modifies `msg, `abcd, buf
      ensures Valid() && msg == old(msg) + data[..nbytes]
    {
      hide Fold, Whole, BitLength;
      var p := Blocks(data, p0, nbytes, bigEndian, msg + data[..p0]);
      if p < nbytes {
        Fill(0, data, p, nbytes - p);
      }
      ghost var done := msg + data[..p];
      assert msg + data[..p0] + data[p0..p] == done;
      msg := msg + data[..nbytes];
      assert done + data[p..nbytes] == msg;
      WholeIs(|msg|, |done|);
    }

    /** Padding to eight bytes before a whole block. */
    method Pad(bigEndian: bool)
      requires Valid()
      modifies this, buf
      ensures Valid() && msg == old(msg) + Padding(|old(msg)|)
    {
      hide Fold, Whole, BitLength, Zeros;
      PadLength(count0, count1, |msg|);
      var pad := new byte[64](i => if i == 0 then 0x80 else 0);
      var n: int := U32(55 - count0 / 8) % 64 + 1;
      assert pad[..n] == Padding(|msg|);
      Append(pad, n, bigEndian);
    }

    /** md5_finish: the digest of everything appended, however it was cut up. */
    method Finish(bigEndian: bool) returns (digest: array<byte>)
      requires Valid()
      modifies this, buf
      ensures fresh(digest) && digest[..] == Digest(old(msg))
    {
      hide Fold, Whole, BitLength, ByteOf, Padding, LE64;
      ghost var m := msg;
      var length := Length();
      Pad(bigEndian);
      Append(length, 8, bigEndian);
      assert length[..8] == length[..];
      assert msg == Padded(m);
      WholeIs(|msg|, |msg|);
      assert msg[..|msg|] == msg;
      digest := Write([abcd.a as uint32, abcd.b as uint32, abcd.c as uint32, abcd.d as uint32]);
    }

    /** The length before padding, low-order byte first. */
    method Length() returns (data: array<byte>)
      requires count1 * WORD32 + count0 == BitLength(|msg|)
      ensures fresh(data) && data[..] == LE64(BitLength(|msg|))
    {
      hide ByteOf, BitLength;
      data := new byte[8];
      for i := 0 to 8
        invariant forall k :: 0 <= k < i ==> data[k] == ByteOf(if k < 4 then count0 else count1, k % 4)
      {
        data[i] := ByteOf(if i / 4 == 0 then count0 else count1, i % 4);
      }
      TwoWords(count0, count1);
      BytesOf(count0);
      BytesOf(count1);
    }
  }

  /** A word shifted right by j bytes, truncated to a byte. */
  function ByteOf(x: uint32, j: nat): byte {
    x / Pow256(j) % 256
  }

  lemma BytesOf(x: uint32)
    ensures LE32(x) == [ByteOf(x, 0), ByteOf(x, 1), ByteOf(x, 2), ByteOf(x, 3)]
  {
    assert Pow256(1) == 256 && Pow256(2) == 0x1_0000 && Pow256(3) == 0x100_0000;
    assert LE(4, x) == [x % 256] + LE(3, x / 256);
    assert LE(3, x / 256) == [x / 256 % 256] + LE(2, x / 0x1_0000);
    assert LE(2, x / 0x1_0000) == [x / 0x1_0000 % 256, x / 0x100_0000 % 256];
  }

  lemma {:induction false} LESplit(n: nat, m: nat, lo: nat, hi: nat)
    requires lo < Pow256(n)
    ensures LE(n + m, hi * Pow256(n) + lo) == LE(n, lo) + LE(m, hi)
  {
    if n > 0 {
      var p, y := Pow256(n - 1), hi * Pow256(n - 1);
      assert hi * Pow256(n) == 256 * y by {
        assert Pow256(n) == 256 * p && hi * (256 * p) == 256 * (hi * p);
      }
      LowByte(y, lo);
      LESplit(n - 1, m, lo / 256, hi);
    }
  }

  lemma LowByte(y: nat, lo: nat)
    ensures (256 * y + lo) % 256 == lo % 256 && (256 * y + lo) / 256 == y + lo / 256
  {
  }

  lemma TwoWords(lo: uint32, hi: uint32)
    requires hi * WORD32 + lo < 0x1_0000_0000_0000_0000
    ensures LE64(hi * WORD32 + lo) == LE32(lo) + LE32(hi)
  {
    WordSizes();
    LESplit(4, 4, lo, hi);
  }

  lemma PadLength(count0: uint32, count1: uint32, len: nat)
    requires count1 * WORD32 + count0 == BitLength(len)
    ensures U32(55 - count0 / 8) % 64 == (55 - len) % 64
  {
    CountGivesOffset(count0, count1, len);
    var c := count0 / 8;
    SameModulo(U32(55 - c), 55 - c, if c <= 55 then 0 else 0x400_0000);
    SameModulo(55 - c, 55 - len, Whole(len) / 64 - c / 64);
  }

  lemma SameModulo(x: int, y: int, k: int)
    requires x == y + 64 * k
    ensures x % 64 == y % 64
  {
  }

  /** The digest: low-order byte of the first word first, high-order byte of the last word last. */
  method Write(w: seq<uint32>) returns (digest: array<byte>)
    requires |w| == 4
    ensures fresh(digest) && digest[..] == LE32(w[0]) + LE32(w[1]) + LE32(w[2]) + LE32(w[3])
  {
    hide ByteOf, LE32;
    digest := new byte[16];
    for i := 0 to 16
      invariant forall k :: 0 <= k < i ==> digest[k] == ByteOf(w[k / 4], k % 4)
    {
      digest[i] := ByteOf(w[i / 4], i % 4);
    }
    BytesOf(w[0]);
    BytesOf(w[1]);
    BytesOf(w[2]);
    BytesOf(w[3]);
  }

  /** As long as no block is completed the bytes only pile up. */
  lemma PartialBlock(m: seq<byte>, d: seq<byte>)
    requires |m| - Whole(|m|) + |d| < 64
    ensures Whole(|m + d|) == Whole(|m|) && (m + d)[..Whole(|m|)] == m[..Whole(|m|)]
    ensures (m + d)[Whole(|m|)..] == m[Whole(|m|)..] + d
  {
    WholeIs(|m + d|, Whole(|m|));
  }

  // ------------------------------------------------------- get_file_md5sum

  /** The digest of what could be read of a file, whatever amounts the reads returned: all of it
      unless the file did not open or a read failed. */
  method FileDigest(content: seq<byte>, isOpen: bool, bigEndian: bool)
    returns (digest: array<byte>, got: nat, failed: bool)
    ensures got <= |content| && fresh(digest) && digest[..] == Digest(content[..got])
    ensures !isOpen ==> got == 0
    ensures isOpen && !failed ==> got == |content|
  {
    hide Digest, Md5State.Valid;
    var buffer := new byte[1024];
    var state := new Md5State();
    got, failed := 0, false;
    if isOpen {
      var size: int := ReadSome(content, got, buffer);
      while size > 0
        invariant state.Valid() && fresh(state) && fresh(state.buf) && state.buf != buffer
        invariant got <= |content| && state.msg == content[..got]
        invariant size <= 1024 && size <= |content| - got && (size == 0 ==> got == |content|)
        invariant size > 0 ==> buffer[..size] == content[got..got + size]
        decreases |content| - got, size
      {
        state.Append(buffer, size, bigEndian);
        assert content[..got] + content[got..got + size] == content[..got + size];
        got := got + size;
        size := ReadSome(content, got, buffer);
      }
      failed := size < 0;
    }
    digest := state.Finish(bigEndian);
  }

  /** read: some of the bytes at the file position, 0 only at the end, negative on an error. */
  method ReadSome(content: seq<byte>, pos: nat, buffer: array<byte>) returns (size: int)
    requires pos <= |content| && buffer.Length == 1024
    modifies buffer
    ensures size <= 1024 && size <= |content| - pos && (size == 0 ==> pos == |content|)
    ensures size > 0 ==> buffer[..size] == content[pos..pos + size]
  {
    size :| -1 <= size <= 1024 && size <= |content| - pos && (size == 0 ==> pos == |content|);
    if size > 0 {
      forall i | 0 <= i < size {
        buffer[i] := content[pos + i];
      }
    }
  }
}
