// Fixed-width unsigned words, C strings, and their little-endian byte images.

module Words {

  const WORD32: int := 0x1_0000_0000

  type byte = x: int | 0 <= x < 256
  type uint32 = x: int | 0 <= x < 0x1_0000_0000
  type uint64 = x: int | 0 <= x < 0x1_0000_0000_0000_0000

  /** A string as the program stores it: the bytes before the terminating NUL. */
  type CString = s: seq<byte> | 0 !in s

  /** The value a 32-bit unsigned register holds after computing x. */
  function U32(x: int): uint32 {
    x % 0x1_0000_0000
  }

  function Pow256(n: nat): (r: nat)
    ensures r > 0
  {
    if n == 0 then 1 else 256 * Pow256(n - 1)
  }

  /** The n low-order bytes of x, least significant first. */
  function LE(n: nat, x: nat): (s: seq<byte>)
    ensures |s| == n
  {
    if n == 0 then [] else [x % 256] + LE(n - 1, x / 256)
  }

  function UnLE(s: seq<byte>): (x: nat)
    ensures x < Pow256(|s|)
  {
    if s == [] then 0 else s[0] + 256 * UnLE(s[1..])
  }

  lemma {:induction false} UnLEOfLE(n: nat, x: nat)
    requires x < Pow256(n)
    ensures UnLE(LE(n, x)) == x
  {
    if n > 0 {
      UnLEOfLE(n - 1, x / 256);
      assert LE(n, x)[1..] == LE(n - 1, x / 256);
    }
  }

  lemma {:induction false} LEOfUnLE(s: seq<byte>)
    ensures LE(|s|, UnLE(s)) == s
  {
    if s != [] {
      LEOfUnLE(s[1..]);
      assert UnLE(s) / 256 == UnLE(s[1..]);
      assert s == [s[0]] + s[1..];
    }
  }

  function LE32(x: uint32): (s: seq<byte>)
    ensures |s| == 4
  {
    LE(4, x)
  }

  function LE64(x: uint64): (s: seq<byte>)
    ensures |s| == 8
  {
    LE(8, x)
  }

  function UnLE32(s: seq<byte>): uint32
    requires |s| == 4
  {
    WordSizes();
    UnLE(s)
  }

  function UnLE64(s: seq<byte>): uint64
    requires |s| == 8
  {
    WordSizes();
    UnLE(s)
  }

  lemma WordSizes()
    ensures Pow256(4) == WORD32
    ensures Pow256(8) == 0x1_0000_0000_0000_0000
  {
    assert Pow256(2) == 0x1_0000;
    assert Pow256(3) == 0x100_0000;
    assert Pow256(5) == 256 * Pow256(4);
    assert Pow256(6) == 256 * Pow256(5);
    assert Pow256(7) == 256 * Pow256(6);
  }

  lemma UnLE32OfLE32(x: uint32)
    ensures UnLE32(LE32(x)) == x
  {
    WordSizes();
    UnLEOfLE(4, x);
  }

  lemma UnLE64OfLE64(x: uint64)
    ensures UnLE64(LE64(x)) == x
  {
    WordSizes();
    UnLEOfLE(8, x);
  }

  // ---------------------------------------------------------------- wrap-around

  lemma U32Small(x: uint32)
    ensures U32(x) == x
  {
  }

  lemma U32Same(x: int, y: int, k: int)
    requires x == y + k * WORD32
    ensures U32(x) == U32(y)
  {
    var d := U32(x) - U32(y);
    assert d == x - y - (x / WORD32) * WORD32 + (y / WORD32) * WORD32;
    assert d == (k - x / WORD32 + y / WORD32) * WORD32;
    assert -WORD32 < d < WORD32;
  }

  /** Truncating an intermediate value changes nothing. */
  lemma U32Inner(x: int, y: int)
    ensures U32(U32(x) + y) == U32(x + y)
  {
    U32Same(U32(x) + y, x + y, -(x / WORD32));
  }

  /** The same for 64 bits. */
  function U64(x: int): uint64 {
    x % 0x1_0000_0000_0000_0000
  }

  lemma U64Same(x: int, y: int, k: int)
    requires x == y + k * 0x1_0000_0000_0000_0000
    ensures U64(x) == U64(y)
  {
    var w := 0x1_0000_0000_0000_0000;
    var d := U64(x) - U64(y);
    assert d == x - y - (x / w) * w + (y / w) * w;
    assert d == (k - x / w + y / w) * w;
    assert -w < d < w;
  }

  lemma U64Sum(x: int, y: int)
    ensures U64(U64(x) + U64(y)) == U64(x + y)
  {
    U64Same(U64(x) + U64(y), x + y, -(x / 0x1_0000_0000_0000_0000) - y / 0x1_0000_0000_0000_0000);
  }

  /** n times x, as a function the prover need not multiply out. */
  function Times(n: nat, x: nat): nat {
    n * x
  }

  lemma TimesNext(n: nat, x: nat)
    ensures Times(n + 1, x) == Times(n, x) + x && Times(0, x) == 0
  {
  }

  lemma {:induction false} TimesGrows(n: nat, m: nat, x: nat)
    requires n <= m
    ensures Times(n, x) <= Times(m, x)
    decreases m - n
  {
    hide Times;
    if n < m {
      TimesNext(n, x);
      TimesGrows(n + 1, m, x);
    }
  }

  // ------------------------------------------------------------------ sequences

  /** The images of all elements, one after the other. */
  function ConcatMap<T>(f: T -> seq<byte>, xs: seq<T>): seq<byte> {
    if xs == [] then [] else ConcatMap(f, xs[..|xs| - 1]) + f(xs[|xs| - 1])
  }

  lemma {:induction false} ConcatMapConcat<T>(f: T -> seq<byte>, a: seq<T>, b: seq<T>)
    ensures ConcatMap(f, a + b) == ConcatMap(f, a) + ConcatMap(f, b)
  {
    if b == [] {
      assert a + b == a;
    } else {
      var n := |b| - 1;
      var last := f(b[n]);
      ConcatMapConcat(f, a, b[..n]);
      assert (a + b)[..|a| + n] == a + b[..n];
      assert (a + b)[|a| + n] == b[n];
      assert ConcatMap(f, a) + ConcatMap(f, b[..n]) + last == ConcatMap(f, a) + (ConcatMap(f, b[..n]) + last);
    }
  }

  lemma ConcatMapOne<T>(f: T -> seq<byte>, x: T)
    ensures ConcatMap(f, [x]) == f(x)
  {
    assert [x][..0] == [];
  }

  ghost predicate Distinct<T>(s: seq<T>) {
    forall i, j :: 0 <= i < j < |s| ==> s[i] != s[j]
  }

  /** s with its k-th element taken out. */
  function Without<T>(s: seq<T>, k: nat): (r: seq<T>)
    requires k < |s|
    ensures |r| == |s| - 1
    ensures forall i {:trigger r[i]} :: 0 <= i < |r| ==> r[i] == if i < k then s[i] else s[i + 1]
    ensures forall x {:trigger x in r} :: x in r ==> x in s
  {
    s[..k] + s[k + 1..]
  }

  lemma DistinctWithout<T>(s: seq<T>, k: nat)
    requires k < |s| && Distinct(s)
    ensures Distinct(Without(s, k)) && s[k] !in Without(s, k)
  {
    var r := Without(s, k);
    forall i, j | 0 <= i < j < |r|
      ensures r[i] != r[j]
    {
      var i', j' := if i < k then i else i + 1, if j < k then j else j + 1;
      assert r[i] == s[i'] && r[j] == s[j'];
    }
    forall i | 0 <= i < |r|
      ensures r[i] != s[k]
    {
      assert r[i] == if i < k then s[i] else s[i + 1];
    }
  }

  lemma Assoc<T>(a: seq<T>, b: seq<T>, c: seq<T>)
    ensures (a + b) + c == a + (b + c)
  {
  }

  lemma Shift<T>(a: seq<T>, x: T, b: seq<T>)
    ensures a + ([x] + b) == (a + [x]) + b
  {
  }

  lemma HeadAndTail<T>(s: seq<T>)
    requires s != []
    ensures s == [s[0]] + s[1..]
  {
  }

  lemma WithoutMiddle<T>(a: seq<T>, x: T, b: seq<T>)
    ensures Without(a + ([x] + b), |a|) == a + b
  {
  }

  lemma ReplaceMiddle<T>(a: seq<T>, x: T, b: seq<T>, y: T)
    ensures (a + ([x] + b))[|a| := y] == (a + [y]) + b
  {
  }

  lemma WithoutCons<T>(x: T, s: seq<T>, k: nat)
    requires k < |s|
    ensures Without([x] + s, k + 1) == [x] + Without(s, k)
  {
    hide Without;
  }

  /** Moving part x of a over to b leaves the union no larger. */
  lemma UnionMove<T>(a: set<T>, b: set<T>, x: set<T>, a': set<T>, b': set<T>)
    requires x <= a && a' <= a && b' <= b + x
    ensures a' + b' <= a + b
  {
  }

  function Reverse<T>(s: seq<T>): (r: seq<T>)
    ensures |r| == |s|
    ensures forall i :: 0 <= i < |s| ==> r[i] == s[|s| - 1 - i]
  {
    if s == [] then [] else Reverse(s[1..]) + [s[0]]
  }

  lemma ReverseReverse<T>(s: seq<T>)
    ensures Reverse(Reverse(s)) == s
  {
  }

  lemma ReverseSnoc<T>(s: seq<T>, x: T)
    ensures Reverse(s + [x]) == [x] + Reverse(s)
  {
  }
}
