// Messages and runs on which the handlers of the instrumentation do not do what they are for
// (daemon/da_inst.c:164-167, 500-547, 720-731). Every record is one the parser stores.

module InstCases {
  import opened Words
  import opened Records
  import opened Resolve
  import opened ResolveFacts
  import opened Wire
  import opened RoundTrip
  import opened Pack
  import opened InstSpec
  import opened InstFacts

  /** A lib as the parser stores it. */
  function LibOf(m: Machine, path: CString, fs: seq<Func>): Data {
    Data(Lib(path), PathHash(m, path), U32(|path| + 5 + SumSizes(fs)), U32(|fs|), fs)
  }

  /** A message with just that lib. */
  function OneLib(m: Machine, path: CString, fs: seq<Func>): seq<byte> {
    ListBytes([LibOf(m, path, fs)])
  }

  lemma LibStored(env: Env, path: CString, fs: seq<Func>)
    requires env.fileExists(path) && |fs| <= MAX_FUNCS && forall f :: f in fs ==> FuncOk(f)
    ensures Stored(env, false, LibOf(env.machine, path, fs))
    ensures |DataBytes(LibOf(env.machine, path, fs))| == |path| + 5 + SumSizes(fs)
    ensures |OneLib(env.machine, path, fs)| == |path| + 9 + SumSizes(fs)
    ensures OneLib(env.machine, path, fs) == ListBytes([LibOf(env.machine, path, fs)])
  {
    hide FuncOk, PathHash, FuncsBytes, DatasBytes, U32;
    LibSize(env.machine, path, fs);
  }

  lemma LibSize(m: Machine, path: CString, fs: seq<Func>)
    ensures |DataBytes(LibOf(m, path, fs))| == TrueSize(LibOf(m, path, fs)) == |path| + 5 + SumSizes(fs)
    ensures |ListBytes([LibOf(m, path, fs)])| == |path| + 9 + SumSizes(fs)
  {
    hide PathHash, U32, FuncsBytes, DatasBytes;
    var d := LibOf(m, path, fs);
    ListLength([d]);
    OneData(d);
  }

  lemma OneData(d: Data)
    ensures DatasBytes([d]) == DataBytes(d)
  {
    ConcatMapOne(DataBytes, d);
  }

  lemma OneLibSent(env: Env, path: CString, fs: seq<Func>)
    requires env.fileExists(path) && |fs| <= MAX_FUNCS && forall f :: f in fs ==> FuncOk(f)
    requires |path| + 9 + SumSizes(fs) < WORD32
    ensures |OneLib(env.machine, path, fs)| < WORD32
    ensures GetList(env, false, OneLib(env.machine, path, fs)).ok
    ensures Sent(env, false, OneLib(env.machine, path, fs)) == [LibOf(env.machine, path, Reverse(fs))]
  {
    hide FuncOk, PathHash, FuncBytes, GetList, Stored, FuncsBytes, ListBytes, DataBytes, U32;
    var d := LibOf(env.machine, path, fs);
    LibStored(env, path, fs);
    SumOfReverse(fs);
    ParseOfPack(env, false, [d], []);
    assert ListBytes([d]) + [] == ListBytes([d]);
    assert Reverse([Flip(d)]) == [Flip(d)];
  }

  const NOTHING: Insts := Insts([], [], [])

  /** Three probes of functions without arguments and results. */
  function Probe(addr: uint64): Func {
    FuncPlane(addr, [], 118)
  }

  lemma AddNoLeft(env: Env, libs: seq<Data>, b: Message)
    requires Accepted(env, Add(b))
    ensures Step(env, Insts(libs, [], []), Add(b)) == Insts(Sent(env, false, b) + libs, [], [])
    ensures DriverLibs(env, Insts(libs, [], []), Add(b)) == []
  {
    hide Sent, GetList;
  }

  lemma RemoveOne(env: Env, a: Data, b: Message)
    requires Accepted(env, Remove(b)) && |Sent(env, false, b)| == 1
    requires Same(a, Sent(env, false, b)[0]) && Sent(env, false, b)[0].probes == []
    ensures Step(env, Insts([a, a], [], []), Remove(b)).libs == [a]
  {
    hide Sent, GetList, Same;
    var d := Sent(env, false, b)[0];
    assert Sent(env, false, b) + [] == [d] && [d][1..] == [];
    assert Find([a, a], d) == 0 && Without([a, a], 0) == [a];
    var r := Removal([a, a], [], []);
    assert RmLib(r, d).cur == [a];
    assert RmLibs(r, [d]) == RmLib(r, d);
  }

  /** A lib with one probe is added twice and then removed as a whole: the driver is not told of it, then
      its probe counts twice, and after the removal it is still installed. */
  lemma AddedTwice(env: Env, path: CString)
    requires env.fileExists(path) && |path| < 0x1000
    ensures var key := Key(path, 1, []);
      var b, w := OneLib(env.machine, path, [Probe(1)]), OneLib(env.machine, path, []);
      && |b| < WORD32 && |w| < WORD32 && Accepted(env, Add(b)) && Accepted(env, Remove(w))
      && New([], Sent(env, false, b), key) == 1 && ListCount(DriverLibs(env, NOTHING, Add(b)), key) == 0
      && ListCount(Steps(env, NOTHING, [Add(b), Add(b)]).libs, key) == 2
      && ListCount(Steps(env, NOTHING, [Add(b), Add(b), Remove(w)]).libs, key) == 1
  {
    hide GetList, PathHash, FuncBytes, Sent, Step, DriverLibs, FuncsBytes, U32;
    var key := Key(path, 1, []);
    var b, w := OneLib(env.machine, path, [Probe(1)]), OneLib(env.machine, path, []);
    var a := LibOf(env.machine, path, [Probe(1)]);
    OneProbe(1);
    OneLibSent(env, path, [Probe(1)]);
    OneLibSent(env, path, []);
    ThreeSteps(env, NOTHING, Add(b), Add(b), Remove(w));
    AddNoLeft(env, [], b);
    AddNoLeft(env, [a], b);
    assert [a] + [] == [a] && [a] + [a] == [a, a];
    RemoveOne(env, a, w);
    CountsOf(a, key);
    assert !Installed([], key);
  }

  lemma TwoProbes()
    ensures SumSizes([Probe(2), Probe(1)]) == SumSizes([Probe(1), Probe(2)]) == 20
    ensures Reverse([Probe(2), Probe(1)]) == [Probe(1), Probe(2)]
  {
    OneProbe(1);
    OneProbe(2);
    assert [Probe(2), Probe(1)] == [Probe(2)] + [Probe(1)];
    ConcatMapConcat(FuncBytes, [Probe(2)], [Probe(1)]);
    assert [Probe(1), Probe(2)] == [Probe(1)] + [Probe(2)];
    ConcatMapConcat(FuncBytes, [Probe(1)], [Probe(2)]);
  }

  lemma CountsOf(a: Data, key: Key)
    requires a.head.path == key.path && a.probes == [FuncPlane(key.addr, key.args, 118)]
    ensures ListCount([a], key) == 1 && ListCount([a, a], key) == 2 && ListCount([], key) == 0
  {
    assert [a, a][1..] == [a] && [a][1..] == [];
    assert a.probes[1..] == [] && Count(a.probes, key) == 1;
  }

  lemma OneProbe(addr: uint64)
    ensures SumSizes([Probe(addr)]) == 10 && SumSizes([]) == 0 && Reverse([Probe(addr)]) == [Probe(addr)]
    ensures FuncOk(Probe(addr))
  {
    ConcatMapOne(FuncBytes, Probe(addr));
  }

  lemma ThreeSteps(env: Env, s: Insts, a: Command, b: Command, c: Command)
    ensures Steps(env, s, [a]) == Step(env, s, a)
    ensures Steps(env, s, [a, b]) == Step(env, Step(env, s, a), b)
    ensures Steps(env, s, [a, b, c]) == Step(env, Step(env, Step(env, s, a), b), c)
  {
    hide Step;
    assert [a][..0] == [] && [a, b][..1] == [a] && [a, b, c][..2] == [a, b];
  }

  // -------------------------------------------------- a merge of two probes

  /** A message that ends before the second of two libs. */
  function CutShort(m: Machine, path: CString, fs: seq<Func>): seq<byte> {
    LE32(2) + DataBytes(LibOf(m, path, fs))
  }

  lemma CutShortSent(env: Env, path: CString, fs: seq<Func>)
    requires env.fileExists(path) && |fs| <= MAX_FUNCS && forall f :: f in fs ==> FuncOk(f)
    requires |path| + 9 + SumSizes(fs) < WORD32
    ensures |CutShort(env.machine, path, fs)| < WORD32
    ensures !GetList(env, false, CutShort(env.machine, path, fs)).ok
    ensures Sent(env, false, CutShort(env.machine, path, fs)) == [LibOf(env.machine, path, Reverse(fs))]
  {
    hide FuncOk, PathHash, FuncBytes, Stored, FuncsBytes, GetInt32, GetData, DataBytes;
    var d := LibOf(env.machine, path, fs);
    LibStored(env, path, fs);
    SumOfReverse(fs);
    GetInt32Written(2, DataBytes(d));
    GetDataWritten(env, false, d, []);
    assert DataBytes(d) + [] == DataBytes(d);
    NothingToRead(env);
    assert GetDatas(env, false, 2, DataBytes(d)).items == [Flip(d)] + [];
  }

  lemma NothingToRead(env: Env)
    ensures GetData(env, false, []).Fail?
  {
  }

  /** A message without libs. */
  function NoLibs(): Message {
    LE32(0)
  }

  lemma NoLibsSent(env: Env)
    ensures GetList(env, false, NoLibs()).ok && Sent(env, false, NoLibs()) == []
  {
    hide GetInt32;
    GetInt32Written(0, []);
    assert LE32(0) + [] == LE32(0);
  }

  /** Two probes merged into a record of another one leave a cached size that is too small. */
  lemma MergeOfTwo(m: Machine, path: CString)
    ensures var t, d := LibOf(m, path, [Probe(3)]), LibOf(m, path, [Probe(1), Probe(2)]);
      && Exact(t) && Exact(d) && ResolveAdd([t], [d]) == [d] && MoveSafe([t], [d])
      && !SingleMerges([t], [d]) && !AllExact(Move([t], [d]))
  {
    hide PathHash, U32, FuncBytes;
    var t, d := LibOf(m, path, [Probe(3)]), LibOf(m, path, [Probe(1), Probe(2)]);
    LibExact(m, path, t.probes);
    LibExact(m, path, d.probes);
    OneProbe(2);
    U32Small(10);
    assert d.probes[1..] == [Probe(2)] && [d][1..] == [];
    MergeExactWhen(t, d);
    NoneKnown(d);
    assert Find([t], d) == 0 && MoveLib([t], d) == [Merge(t, d)] && Move([Merge(t, d)], []) == [Merge(t, d)];
    assert Merge(t, d) in Move([t], [d]);
  }

  lemma LibExact(m: Machine, path: CString, fs: seq<Func>)
    ensures Exact(LibOf(m, path, fs))
  {
  }

  lemma NoneKnown(d: Data)
    requires d.probes == [Probe(1), Probe(2)] && d.size < WORD32 && d.funcNum == U32(|d.probes|)
    ensures KeepNew([Probe(3)], d.probes) == d.probes && WithProbes(d, d.probes) == d
  {
    hide FuncBytes, ConcatMap;
    assert d.probes[1..] == [Probe(2)] && [Probe(3)][1..] == [];
    assert FindFunc([Probe(3)], Probe(1)) == 1 && FindFunc([Probe(3)], Probe(2)) == 1;
    assert KeepNew([Probe(3)], [Probe(2)]) == [Probe(2)];
    U32Small(d.size);
  }

  lemma AddLeft(env: Env, s: Insts, b: Message)
    requires Accepted(env, Add(b)) && Sent(env, false, b) == [] && s.apps == []
    ensures DriverLibs(env, s, Add(b)) == ResolveAdd(s.libs, s.left)
    ensures Step(env, s, Add(b)) == Insts(Move(s.libs, ResolveAdd(s.libs, s.left)), [], [])
    ensures Safe(env, s, Add(b)) <==> MoveSafe(s.libs, ResolveAdd(s.libs, s.left))
    ensures Single(env, s, Add(b)) <==> SingleMerges(s.libs, ResolveAdd(s.libs, s.left))
  {
    hide Sent, GetList, ResolveAdd, Move, MoveSafe, SingleMerges;
    assert [] + s.libs == s.libs;
  }

  lemma RemoveFails(env: Env, libs: seq<Data>, b: Message)
    requires !GetList(env, false, b).ok
    ensures Step(env, Insts(libs, [], []), Remove(b)) == Insts(libs, [], Sent(env, false, b))
  {
    hide Sent, GetList;
    assert Sent(env, false, b) + [] == Sent(env, false, b);
  }

  /** Its sizes are those a move can leave. */
  lemma MergeOfTwoSane(m: Machine, path: CString)
    requires |path| < 0x1000
    ensures var t, d := LibOf(m, path, [Probe(3)]), LibOf(m, path, [Probe(1), Probe(2)]);
      && (forall l :: l in Move([t], [d]) ==> Sane(l)) && |ListBytes(Move([t], [d]))| < WORD32
  {
    hide PathHash, U32, FuncBytes, Sane, Exact, Merge, FuncsBytes, TrueSize, DatasBytes;
    var t, d := LibOf(m, path, [Probe(3)]), LibOf(m, path, [Probe(1), Probe(2)]);
    OneProbe(3);
    TwoProbes();
    LibExact(m, path, t.probes);
    LibExact(m, path, d.probes);
    LibSize(m, path, t.probes);
    LibSize(m, path, d.probes);
    ExactIsComplete(t);
    MergeMisses(t, d);
    assert [d][1..] == [];
    assert Find([t], d) == 0 && MoveLib([t], d) == [Merge(t, d)] && Move([Merge(t, d)], []) == [Merge(t, d)];
    ListLength([Merge(t, d)]);
    OneData(Merge(t, d));
  }

  lemma StartOverruns(env: Env, libs: seq<Data>, b: Message)
    requires StartOk(env, b) && (forall l :: l in libs ==> Sane(l)) && |ListBytes(libs)| < WORD32
    requires !AllExact(libs)
    ensures !Safe(env, Insts(libs, [], []), Start(b))
  {
    hide Sent, GetList, ListBytes, StartOk, Sane, Exact, Packable;
    OverrunWhen(libs, Sent(env, true, b) + []);
  }

  /** A lib is installed with one probe, a removal of two others fails behind them, and an addition of
      nothing then moves them in: the cached size of the lib is too small, and the next start writes behind
      the buffer for the packed libs. */
  lemma TwoProbeMerge(env: Env, path: CString)
    requires env.fileExists(path) && |path| < 0x1000
    ensures var b1, b2 := OneLib(env.machine, path, [Probe(3)]), CutShort(env.machine, path, [Probe(2), Probe(1)]);
      && |b1| < WORD32 && |b2| < WORD32
      && var s, c := Steps(env, NOTHING, [Add(b1), Remove(b2)]), Add(NoLibs());
      && AllRight(s) && Safe(env, s, c) && !Single(env, s, c)
      && !AllRight(Steps(env, NOTHING, [Add(b1), Remove(b2), c]))
      && |AppsMsg(env.machine, 1)| < WORD32 && StartOk(env, AppsMsg(env.machine, 1))
      && !Safe(env, Steps(env, NOTHING, [Add(b1), Remove(b2), c]), Start(AppsMsg(env.machine, 1)))
  {
    hide *;
    var m, fs := env.machine, [Probe(2), Probe(1)];
    TwoProbes();
    OneProbe(1);
    OneProbe(2);
    OneProbe(3);
    LimitsAre();
    OneLibSent(env, path, [Probe(3)]);
    CutShortSent(env, path, fs);
    NoLibsSent(env);
    var b1: Message, b2: Message := OneLib(m, path, [Probe(3)]), CutShort(m, path, fs);
    var t, d := LibOf(m, path, [Probe(3)]), LibOf(m, path, [Probe(1), Probe(2)]);
    ThreeSteps(env, NOTHING, Add(b1), Remove(b2), Add(NoLibs()));
    Opening(env, Add(b1));
    AddNoLeft(env, [], b1);
    assert [t] + [] == [t];
    RemoveFails(env, [t], b2);
    assert Steps(env, NOTHING, [Add(b1), Remove(b2)]) == Insts([t], [], [d]);
    Opening(env, Add(NoLibs()));
    AddLeft(env, Insts([t], [], [d]), NoLibs());
    MergeOfTwo(m, path);
    MergeOfTwoSane(m, path);
    AppsSent(env, 1);
    StartOverruns(env, Move([t], [d]), AppsMsg(m, 1));
    RightMeans(Insts([t], [], [d]));
  }

  lemma LimitsAre()
    ensures WORD32 == 0x1_0000_0000 && MAX_FUNCS == 100000 && MAX_LIBS == 1000 && NOTHING == Insts([], [], [])
  {
  }

  lemma Opening(env: Env, c: Command)
    ensures c.Add? ==> (Accepted(env, c) <==> GetList(env, false, c.body).ok)
  {
    hide GetList;
  }

  lemma RightMeans(s: Insts)
    ensures s.apps == [] && |s.libs| == 1 && |s.left| == 1 && Exact(s.libs[0]) && Exact(s.left[0]) ==> AllRight(s)
    ensures forall t: Insts :: !AllExact(t.libs) ==> !AllRight(t)
  {
    hide Exact;
  }

  // ------------------------------------------------------ a size that wraps

  /** A probe with n arguments. */
  function LongProbe(n: nat): Func
    requires n + 10 < WORD32
  {
    var args := seq(n, i requires 0 <= i < n => 100);
    FuncPlane(1, args, 118)
  }

  lemma LongProbeIs(n: nat)
    requires n + 10 < WORD32
    ensures FuncOk(LongProbe(n)) && SumSizes([LongProbe(n)]) == n + 10 && Reverse([LongProbe(n)]) == [LongProbe(n)]
  {
    ConcatMapOne(FuncBytes, LongProbe(n));
  }

  /** n web applications without probes. */
  function Apps(m: Machine, n: nat): seq<Data> {
    seq(n, i requires 0 <= i < n => Data(App(APP_WEB, [], []), PathHash(m, []), 10, 0, []))
  }

  lemma {:induction false} AppsBytes(m: Machine, n: nat)
    ensures |DatasBytes(Apps(m, n))| == 10 * n
  {
    hide PathHash;
    if n > 0 {
      AppsBytes(m, n - 1);
      assert Apps(m, n)[..n - 1] == Apps(m, n - 1);
    }
  }

  lemma AppsStored(env: Env, n: nat)
    requires n <= MAX_LIBS
    ensures AllStored(env, true, Apps(env.machine, n))
    ensures FlipAll(Apps(env.machine, n)) == Apps(env.machine, n) == Reverse(Apps(env.machine, n))
  {
    hide PathHash;
  }

  /** n apps, and no replay. */
  function AppsMsg(m: Machine, n: nat): seq<byte> {
    ListBytes(Apps(m, n)) + LE32(0)
  }

  lemma AppsSent(env: Env, n: nat)
    requires n <= MAX_LIBS
    ensures |AppsMsg(env.machine, n)| == 10 * n + 8
    ensures StartOk(env, AppsMsg(env.machine, n)) && |Sent(env, true, AppsMsg(env.machine, n))| == n
  {
    hide GetList, ListBytes, Stored, GetInt32;
    var ds := Apps(env.machine, n);
    AppsBytes(env.machine, n);
    ListLength(ds);
    AppsStored(env, n);
    ParseOfPack(env, true, ds, LE32(0));
    GetInt32Written(0, []);
    assert LE32(0) + [] == LE32(0) && |ds| == n;
  }

  /** An addition of 5 MiB and a start of 1000 apps, both small enough to be received, plan a driver
      message of more than 4 GiB, and the daemon writes behind the buffer it allocates for it. */
  lemma BigMessage(env: Env, path: CString)
    requires env.fileExists(path) && |path| < 0x1000
    ensures var b1, b2 := OneLib(env.machine, path, [LongProbe(0x50_0000)]), AppsMsg(env.machine, 1000);
      && |b1| < 0xA0_0000 && |b2| < 0xA0_0000
      && Accepted(env, Add(b1)) && Safe(env, NOTHING, Add(b1))
      && Accepted(env, Start(b2)) && !Safe(env, Steps(env, NOTHING, [Add(b1)]), Start(b2))
  {
    hide *;
    var m := env.machine;
    LimitsAre();
    LongProbeIs(0x50_0000);
    OneLibSent(env, path, [LongProbe(0x50_0000)]);
    LibStored(env, path, [LongProbe(0x50_0000)]);
    AppsSent(env, 1000);
    var b1: Message, b2: Message := OneLib(m, path, [LongProbe(0x50_0000)]), AppsMsg(m, 1000);
    var libs := [LibOf(m, path, [LongProbe(0x50_0000)])];
    Opening(env, Add(b1));
    AddNoLeft(env, [], b1);
    assert libs + [] == libs;
    ThreeSteps(env, NOTHING, Add(b1), Add(b1), Add(b1));
    StartWraps(env, libs, b2);
    AddIsSafe(env, b1);
  }

  lemma AddIsSafe(env: Env, b: Message)
    ensures Safe(env, NOTHING, Add(b))
  {
  }

  lemma StartWraps(env: Env, libs: seq<Data>, b: Message)
    requires StartOk(env, b) && |Sent(env, true, b)| == 1000 && |ListBytes(libs)| >= 0x50_0000
    ensures Accepted(env, Start(b)) && !Safe(env, Insts(libs, [], []), Start(b))
  {
    hide Sent, GetList, ListBytes, StartOk;
    assert Sent(env, true, b) + [] == Sent(env, true, b);
  }
}
