// Packing and parsing undo each other up to the order of insertion
// (daemon/da_inst.c:428-486, daemon/da_protocol_inst.c:60-292).

module RoundTrip {
  import opened Words
  import opened Records
  import opened Wire

  // --------------------------------------------- reading back what was written

  lemma GetInt32Written(x: uint32, rest: seq<byte>)
    ensures GetInt32(LE32(x) + rest) == Done(x, rest)
  {
    UnLE32OfLE32(x);
    assert (LE32(x) + rest)[..4] == LE32(x) && (LE32(x) + rest)[4..] == rest;
  }

  lemma GetInt64Written(x: uint64, rest: seq<byte>)
    ensures GetInt64(LE64(x) + rest) == Done(x, rest)
  {
    UnLE64OfLE64(x);
    assert (LE64(x) + rest)[..8] == LE64(x) && (LE64(x) + rest)[8..] == rest;
  }

  lemma GetStringWritten(s: CString, rest: seq<byte>)
    ensures GetString(StrBytes(s) + rest) == Done(s, rest)
  {
    var b := StrBytes(s) + rest;
    var n := Nul(b);
    assert b[|s|] == 0;
    assert forall i :: 0 <= i < |s| ==> b[i] == s[i] && s[i] in s;
    assert n == |s|;
    assert b[..n] == s && b[n + 1..] == rest;
  }

  lemma GetFuncWritten(f: Func, rest: seq<byte>)
    requires FuncOk(f) && |FuncBytes(f)| + |rest| < WORD32
    ensures GetFunc(FuncBytes(f) + rest) == Done(f, rest)
  {
    hide GetInt64, GetString;
    var b1 := StrBytes(f.args) + ([f.ret] + rest);
    assert FuncBytes(f) + rest == LE64(f.addr) + b1;
    GetInt64Written(f.addr, b1);
    GetStringWritten(f.args, [f.ret] + rest);
    assert ([f.ret] + rest)[1..] == rest;
  }

  lemma {:induction false} GetFuncsWritten(fs: seq<Func>, rest: seq<byte>)
    requires (forall f :: f in fs ==> FuncOk(f)) && |FuncsBytes(fs)| + |rest| < WORD32
    ensures GetFuncs(|fs|, FuncsBytes(fs) + rest) == Done(fs, rest)
  {
    if fs == [] {
      assert FuncsBytes(fs) + rest == rest;
    } else {
      hide GetFunc, FuncBytes, FuncOk;
      var f, more := fs[0], fs[1..];
      HeadAndTail(fs);
      ConcatMapConcat(FuncBytes, [f], more);
      ConcatMapOne(FuncBytes, f);
      Assoc(FuncBytes(f), FuncsBytes(more), rest);
      GetFuncWritten(f, FuncsBytes(more) + rest);
      GetFuncsWritten(more, rest);
    }
  }

  lemma GetHeadWritten(env: Env, h: Head, rest: seq<byte>)
    requires HeadOk(env, h) && |HeadBytes(h)| + |rest| < WORD32
    ensures GetHead(env, h.App?, HeadBytes(h) + rest) == Done(h, rest)
  {
    hide GetInt32, GetString, StrBytes;
    match h
    case Lib(path) => GetStringWritten(path, rest);
    case App(kind, id, path) =>
      var b1, b2 := StrBytes(id) + (StrBytes(path) + rest), StrBytes(path) + rest;
      Assoc(LE32(kind) + StrBytes(id), StrBytes(path), rest);
      Assoc(LE32(kind), StrBytes(id), b2);
      GetInt32Written(kind, b1);
      GetStringWritten(id, b2);
      GetStringWritten(path, rest);
  }

  // --------------------------------------------------------- stored records

  /** A record as the parser leaves it: contents it accepts, and caches that fit them. */
  predicate Stored(env: Env, isApp: bool, d: Data) {
    && d.head.App? == isApp && HeadOk(env, d.head)
    && (forall f :: f in d.probes ==> FuncOk(f)) && |d.probes| <= MAX_FUNCS
    && Exact(d) && d.hash == PathHash(env.machine, d.head.path)
  }

  predicate AllStored(env: Env, isApp: bool, ds: seq<Data>) {
    |ds| <= MAX_LIBS && forall d :: d in ds ==> Stored(env, isApp, d)
  }

  function Flip(d: Data): Data {
    d.(probes := Reverse(d.probes))
  }

  /** Every record with its probes in the opposite order. */
  function FlipAll(ds: seq<Data>): (r: seq<Data>)
    ensures |r| == |ds|
    ensures forall i {:trigger r[i]} :: 0 <= i < |ds| ==> r[i] == Flip(ds[i])
  {
    if ds == [] then [] else [Flip(ds[0])] + FlipAll(ds[1..])
  }

  lemma {:induction false} SumOfReverse(fs: seq<Func>)
    ensures SumSizes(Reverse(fs)) == SumSizes(fs)
  {
    if fs != [] {
      SumOfReverse(fs[1..]);
      HeadAndTail(fs);
      ConcatMapConcat(FuncBytes, [fs[0]], fs[1..]);
      ConcatMapConcat(FuncBytes, Reverse(fs[1..]), [fs[0]]);
    }
  }

  lemma ReverseMembers<T>(s: seq<T>)
    ensures forall x :: x in Reverse(s) <==> x in s
  {
    forall x | x in s
      ensures x in Reverse(s)
    {
      var i :| 0 <= i < |s| && s[i] == x;
      assert Reverse(s)[|s| - 1 - i] == x;
    }
  }

  lemma FlipStored(env: Env, isApp: bool, d: Data)
    requires Stored(env, isApp, d)
    ensures Stored(env, isApp, Flip(d)) && Flip(Flip(d)) == d && TrueSize(Flip(d)) == TrueSize(d)
  {
    hide SumSizes, Reverse, HeadOk, HeadBytes, FuncOk, U32, PathHash;
    SumOfReverse(d.probes);
    ReverseMembers(d.probes);
    ReverseReverse(d.probes);
  }

  lemma GetDataWritten(env: Env, isApp: bool, d: Data, rest: seq<byte>)
    requires Stored(env, isApp, d) && TrueSize(d) + |rest| < WORD32
    ensures GetData(env, isApp, DataBytes(d) + rest) == Done(Flip(d), rest)
  {
    hide GetHead, GetInt32, GetFuncs, HeadBytes, FuncsBytes, LE32, PathHash, Reverse, HeadOk, FuncOk, ConcatMap;
    var b1, b2 := LE32(d.funcNum) + (FuncsBytes(d.probes) + rest), FuncsBytes(d.probes) + rest;
    assert DataBytes(d) + rest == HeadBytes(d.head) + b1;
    GetHeadWritten(env, d.head, b1);
    GetInt32Written(d.funcNum, b2);
    GetFuncsWritten(d.probes, rest);
    U32Small(|d.probes|);
  }

  lemma {:induction false} GetDatasWritten(env: Env, isApp: bool, ds: seq<Data>, rest: seq<byte>)
    requires (forall d :: d in ds ==> Stored(env, isApp, d)) && |DatasBytes(ds)| + |rest| < WORD32
    ensures GetDatas(env, isApp, |ds|, DatasBytes(ds) + rest) == Items(true, FlipAll(ds), rest)
  {
    if ds == [] {
      assert DatasBytes(ds) + rest == rest;
    } else {
      hide GetData, DataBytes, Stored, Flip;
      var d, more := ds[0], ds[1..];
      HeadAndTail(ds);
      ConcatMapConcat(DataBytes, [d], more);
      ConcatMapOne(DataBytes, d);
      Assoc(DataBytes(d), DatasBytes(more), rest);
      GetDataWritten(env, isApp, d, DatasBytes(more) + rest);
      GetDatasWritten(env, isApp, more, rest);
    }
  }

  /** Reparsing what was packed consumes exactly the packed bytes; each record comes back with its
      probes reversed, and insertion at the head will reverse the records too. */
  lemma ParseOfPack(env: Env, isApp: bool, ds: seq<Data>, rest: seq<byte>)
    requires AllStored(env, isApp, ds) && |ListBytes(ds)| + |rest| < WORD32
    ensures GetList(env, isApp, ListBytes(ds) + rest) == Items(true, FlipAll(ds), rest)
  {
    hide GetInt32, GetDatas, Stored, DatasBytes;
    var b := DatasBytes(ds) + rest;
    U32Small(|ds|);
    Assoc(LE32(U32(|ds|)), DatasBytes(ds), rest);
    GetInt32Written(|ds|, b);
    GetDatasWritten(env, isApp, ds, rest);
  }

  /** The list that reparsing a packed list builds from nothing. */
  function Reparsed(env: Env, isApp: bool, ds: seq<Data>): seq<Data>
    requires |ListBytes(ds)| < WORD32
  {
    Reverse(GetList(env, isApp, ListBytes(ds)).items)
  }

  lemma {:induction false} FlipAllReverse(ds: seq<Data>)
    ensures FlipAll(Reverse(ds)) == Reverse(FlipAll(ds))
  {
    hide FlipAll, Reverse, Flip;
  }

  lemma {:induction false} BytesOfFlipped(ds: seq<Data>)
    ensures |DatasBytes(FlipAll(ds))| == |DatasBytes(ds)|
  {
    if ds != [] {
      BytesOfFlipped(ds[1..]);
      HeadAndTail(ds);
      ConcatMapConcat(DataBytes, [ds[0]], ds[1..]);
      ConcatMapConcat(DataBytes, [Flip(ds[0])], FlipAll(ds[1..]));
      ConcatMapOne(DataBytes, ds[0]);
      ConcatMapOne(DataBytes, Flip(ds[0]));
      SumOfReverse(ds[0].probes);
    }
  }

  lemma {:induction false} BytesOfReversed(ds: seq<Data>)
    ensures |DatasBytes(Reverse(ds))| == |DatasBytes(ds)|
  {
    if ds != [] {
      BytesOfReversed(ds[1..]);
      HeadAndTail(ds);
      ConcatMapConcat(DataBytes, [ds[0]], ds[1..]);
      ConcatMapConcat(DataBytes, Reverse(ds[1..]), [ds[0]]);
    }
  }

  lemma FlipAllStored(env: Env, isApp: bool, ds: seq<Data>)
    requires AllStored(env, isApp, ds)
    ensures AllStored(env, isApp, FlipAll(ds)) && FlipAll(FlipAll(ds)) == ds
  {
    hide Stored, Flip;
    forall i | 0 <= i < |ds|
      ensures Stored(env, isApp, FlipAll(ds)[i]) && Flip(Flip(ds[i])) == ds[i]
    {
      assert ds[i] in ds;
      FlipStored(env, isApp, ds[i]);
    }
  }

  /** One pack and parse reverses a list at both levels and a second one restores it. */
  lemma PackParseTwice(env: Env, isApp: bool, ds: seq<Data>)
    requires AllStored(env, isApp, ds) && |ListBytes(ds)| < WORD32
    ensures Reparsed(env, isApp, ds) == Reverse(FlipAll(ds))
    ensures |ListBytes(Reparsed(env, isApp, ds))| == |ListBytes(ds)|
    ensures AllStored(env, isApp, Reparsed(env, isApp, ds))
    ensures Reparsed(env, isApp, Reparsed(env, isApp, ds)) == ds
  {
    hide Stored, FlipAll, Flip, Reverse, DatasBytes, GetList;
    var once := Reverse(FlipAll(ds));
    assert ListBytes(ds) + [] == ListBytes(ds);
    ParseOfPack(env, isApp, ds, []);
    FlipAllStored(env, isApp, ds);
    ReverseMembers(FlipAll(ds));
    BytesOfFlipped(ds);
    BytesOfReversed(FlipAll(ds));
    assert ListBytes(once) + [] == ListBytes(once);
    ParseOfPack(env, isApp, once, []);
    FlipAllReverse(FlipAll(ds));
    ReverseReverse(ds);
  }

  // ------------------------------------------- every accepted message is packed data

  lemma GetInt32Reads(b: seq<byte>)
    requires GetInt32(b).Done?
    ensures b == LE32(GetInt32(b).value) + GetInt32(b).rest
  {
    LEOfUnLE(b[..4]);
    assert b == b[..4] + b[4..];
  }

  lemma GetInt64Reads(b: seq<byte>)
    requires GetInt64(b).Done?
    ensures b == LE64(GetInt64(b).value) + GetInt64(b).rest
  {
    LEOfUnLE(b[..8]);
    assert b == b[..8] + b[8..];
  }

  lemma GetStringReads(b: seq<byte>)
    requires GetString(b).Done?
    ensures b == StrBytes(GetString(b).value) + GetString(b).rest
  {
    var n := Nul(b);
    assert b == (b[..n] + [b[n]]) + b[n + 1..];
  }

  lemma GetFuncReads(b: Message)
    requires GetFunc(b).Done?
    ensures var f := GetFunc(b).value; FuncOk(f) && b == FuncBytes(f) + GetFunc(b).rest
  {
    hide GetInt64, GetString;
    var f := GetFunc(b).value;
    var b1 := GetInt64(b).rest;
    var b2 := GetString(b1).rest;
    GetInt64Reads(b);
    GetStringReads(b1);
    HeadAndTail(b2);
    assert LE64(f.addr) + (StrBytes(f.args) + ([f.ret] + b2[1..])) == FuncBytes(f) + b2[1..];
  }

  lemma {:induction false} GetFuncsReads(n: nat, b: Message)
    requires GetFuncs(n, b).Done?
    ensures var r := GetFuncs(n, b);
      (forall f :: f in r.value ==> FuncOk(f)) && b == FuncsBytes(r.value) + r.rest
  {
    if n == 0 {
      assert b == [] + b;
    } else {
      hide GetFunc, FuncBytes, FuncOk;
      var f, b1 := GetFunc(b).value, GetFunc(b).rest;
      GetFuncReads(b);
      GetFuncsReads(n - 1, b1);
      var more := GetFuncs(n - 1, b1);
      ConcatMapConcat(FuncBytes, [f], more.value);
      ConcatMapOne(FuncBytes, f);
      Assoc(FuncBytes(f), FuncsBytes(more.value), more.rest);
    }
  }

  lemma GetHeadReads(env: Env, isApp: bool, b: Message)
    requires GetHead(env, isApp, b).Done?
    ensures var r := GetHead(env, isApp, b); HeadOk(env, r.value) && b == HeadBytes(r.value) + r.rest
  {
    hide GetInt32, GetString, StrBytes;
    if isApp {
      var b1 := GetInt32(b).rest;
      var b2 := GetString(b1).rest;
      GetInt32Reads(b);
      GetStringReads(b1);
      GetStringReads(b2);
      var h := GetHead(env, isApp, b).value;
      Assoc(LE32(h.kind), StrBytes(h.id), b2);
      Assoc(LE32(h.kind) + StrBytes(h.id), StrBytes(h.path), GetString(b2).rest);
    } else {
      GetStringReads(b);
    }
  }

  lemma GetDataReads(env: Env, isApp: bool, b: Message)
    ensures var r := GetData(env, isApp, b);
      r.Done? ==> Stored(env, isApp, r.value) && b == DataBytes(Flip(r.value)) + r.rest
  {
    hide GetHead, GetInt32, GetFuncs, HeadBytes, HeadOk, FuncsBytes, FuncOk, U32, PathHash, Reverse;
    if GetData(env, isApp, b).Done? {
      var b1 := GetHead(env, isApp, b).rest;
      var b2 := GetInt32(b1).rest;
      var n, fs := GetInt32(b1).value, GetFuncList(b1).value;
      GetHeadReads(env, isApp, b);
      GetInt32Reads(b1);
      GetFuncsReads(n, b2);
      U32Small(n);
      ReverseMembers(fs);
      ReverseReverse(fs);
      SumOfReverse(fs);
      var h, rest := GetHead(env, isApp, b).value, GetFuncList(b1).rest;
      assert HeadBytes(h) + (LE32(n) + (FuncsBytes(fs) + rest)) == (HeadBytes(h) + LE32(n) + FuncsBytes(fs)) + rest;
    }
  }

  lemma {:induction false} GetDatasReads(env: Env, isApp: bool, n: nat, b: Message)
    ensures var r := GetDatas(env, isApp, n, b);
      && (forall d :: d in r.items ==> Stored(env, isApp, d))
      && (r.ok ==> b == DatasBytes(FlipAll(r.items)) + r.rest)
  {
    hide GetData, DataBytes, Stored, FlipAll, ConcatMap;
    NoDatas(b);
    if n > 0 && GetData(env, isApp, b).Done? {
      var d, b1 := GetData(env, isApp, b).value, GetData(env, isApp, b).rest;
      GetDataReads(env, isApp, b);
      GetDatasReads(env, isApp, n - 1, b1);
      var more := GetDatas(env, isApp, n - 1, b1);
      FlippedBytes(d, more.items, more.rest);
      assert GetDatas(env, isApp, n, b) == Items(more.ok, [d] + more.items, more.rest);
    }
  }

  lemma NoDatas(b: seq<byte>)
    ensures FlipAll([]) == [] && b == DatasBytes([]) + b
  {
  }

  lemma FlippedBytes(d: Data, ds: seq<Data>, rest: seq<byte>)
    ensures DatasBytes(FlipAll([d] + ds)) + rest == DataBytes(Flip(d)) + (DatasBytes(FlipAll(ds)) + rest)
  {
    hide DataBytes, Flip;
    assert ([d] + ds)[1..] == ds;
    ConcatMapConcat(DataBytes, [Flip(d)], FlipAll(ds));
    ConcatMapOne(DataBytes, Flip(d));
    Assoc(DataBytes(Flip(d)), DatasBytes(FlipAll(ds)), rest);
  }

  /** Every accepted message is the packed form of the records stored from it: nothing is skipped and
      nothing read twice. The records have right caches, those before a malformed one too. */
  lemma AcceptedIsPacked(env: Env, isApp: bool, b: Message)
    ensures var r := GetList(env, isApp, b);
      && AllStored(env, isApp, r.items)
      && (r.ok ==> b == ListBytes(FlipAll(r.items)) + r.rest)
  {
    hide GetInt32, GetDatas, Stored, DatasBytes, FlipAll;
    if GetInt32(b).Done? && GetInt32(b).value <= MAX_LIBS {
      var n, b1 := GetInt32(b).value, GetInt32(b).rest;
      var r := GetDatas(env, isApp, n, b1);
      GetInt32Reads(b);
      GetDatasReads(env, isApp, n, b1);
      U32Small(n);
      Assoc(LE32(n), DatasBytes(FlipAll(r.items)), r.rest);
    }
  }
}
