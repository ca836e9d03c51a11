// What the driver finds in a generated message (daemon/da_inst.c:500-547): a reader of the layout
// alone, without the limits and checks of the daemon's own parsers.

module Driver {
  import opened Words
  import opened Records
  import opened Wire
  import opened RoundTrip
  import opened Pack

  /** A lib or an app as read: its head and its probes in the order of the message. */
  datatype Unit = Unit(head: Head, probes: seq<FuncPlane>)

  /** One app with the libs that go with it, and a whole message. */
  datatype Entry = Entry(app: Unit, libs: seq<Unit>)
  datatype Order = Order(id: uint32, entries: seq<Entry>)

  function ReadProbe(b: seq<byte>): Parsed<FuncPlane> {
    var (addr, b1) :- GetInt64(b);
    var (args, b2) :- GetString(b1);
    var (ret, b3) :- GetByte(b2);
    Done(FuncPlane(addr, args, ret), b3)
  }

  function ReadProbes(n: nat, b: seq<byte>): Parsed<seq<FuncPlane>> {
    if n == 0 then Done([], b)
    else
      var (f, b1) :- ReadProbe(b);
      var (fs, b2) :- ReadProbes(n - 1, b1);
      Done([f] + fs, b2)
  }

  function ReadHead(isApp: bool, b: seq<byte>): Parsed<Head> {
    if isApp then
      var (kind, b1) :- GetInt32(b);
      var (id, b2) :- GetString(b1);
      var (path, b3) :- GetString(b2);
      Done(App(kind, id, path), b3)
    else
      var (path, b1) :- GetString(b);
      Done(Lib(path), b1)
  }

  function ReadUnit(isApp: bool, b: seq<byte>): Parsed<Unit> {
    var (head, b1) :- ReadHead(isApp, b);
    var (n, b2) :- GetInt32(b1);
    var (probes, b3) :- ReadProbes(n, b2);
    Done(Unit(head, probes), b3)
  }

  function ReadUnits(isApp: bool, n: nat, b: seq<byte>): Parsed<seq<Unit>> {
    if n == 0 then Done([], b)
    else
      var (u, b1) :- ReadUnit(isApp, b);
      var (us, b2) :- ReadUnits(isApp, n - 1, b1);
      Done([u] + us, b2)
  }

  function ReadLibs(b: seq<byte>): Parsed<seq<Unit>> {
    var (n, b1) :- GetInt32(b);
    ReadUnits(false, n, b1)
  }

  function ReadEntries(n: nat, b: seq<byte>): Parsed<seq<Entry>> {
    if n == 0 then Done([], b)
    else
      var (app, b1) :- ReadUnit(true, b);
      var (libs, b2) :- ReadLibs(b1);
      var (more, b3) :- ReadEntries(n - 1, b2);
      Done([Entry(app, libs)] + more, b3)
  }

  /** Message id, payload size, number of apps, entries; the size has to be that of all that follows. */
  function ReadMsg(b: seq<byte>): Parsed<Order> {
    var (id, b1) :- GetInt32(b);
    var (size, b2) :- GetInt32(b1);
    if size != |b2| then Fail else
    var (n, b3) :- GetInt32(b2);
    var (entries, b4) :- ReadEntries(n, b3);
    Done(Order(id, entries), b4)
  }

  // --------------------------------------------- reading back what was written

  /** A record without its caches. */
  function Plain(d: Data): Unit {
    Unit(d.head, d.probes)
  }

  function PlainAll(ds: seq<Data>): (us: seq<Unit>)
    ensures |us| == |ds|
    ensures forall i {:trigger us[i]} :: 0 <= i < |ds| ==> us[i] == Plain(ds[i])
  {
    if ds == [] then [] else [Plain(ds[0])] + PlainAll(ds[1..])
  }

  function EntriesOf(libs: seq<Data>, apps: seq<Data>): (es: seq<Entry>)
    ensures |es| == |apps|
    ensures forall i {:trigger es[i]} :: 0 <= i < |apps| ==> es[i] == Entry(Plain(apps[i]), PlainAll(libs))
  {
    if apps == [] then [] else [Entry(Plain(apps[0]), PlainAll(libs))] + EntriesOf(libs, apps[1..])
  }

  /** All records are of one kind and say how many probes they have. */
  predicate Countable(isApp: bool, ds: seq<Data>) {
    forall d :: d in ds ==> d.head.App? == isApp && d.funcNum == |d.probes|
  }

  lemma ReadProbeWritten(f: Func, rest: seq<byte>)
    ensures ReadProbe(FuncBytes(f) + rest) == Done(f, rest)
  {
    hide GetInt64, GetString;
    var b1 := StrBytes(f.args) + ([f.ret] + rest);
    assert FuncBytes(f) + rest == LE64(f.addr) + b1;
    GetInt64Written(f.addr, b1);
    GetStringWritten(f.args, [f.ret] + rest);
    assert ([f.ret] + rest)[1..] == rest;
  }

  lemma {:induction false} ReadProbesWritten(fs: seq<Func>, rest: seq<byte>)
    ensures ReadProbes(|fs|, FuncsBytes(fs) + rest) == Done(fs, rest)
  {
    if fs == [] {
      assert FuncsBytes(fs) + rest == rest;
    } else {
      hide ReadProbe, FuncBytes;
      var f, more := fs[0], fs[1..];
      HeadAndTail(fs);
      ConcatMapConcat(FuncBytes, [f], more);
      ConcatMapOne(FuncBytes, f);
      Assoc(FuncBytes(f), FuncsBytes(more), rest);
      ReadProbeWritten(f, FuncsBytes(more) + rest);
      ReadProbesWritten(more, rest);
    }
  }

  lemma ReadHeadWritten(h: Head, rest: seq<byte>)
    ensures ReadHead(h.App?, HeadBytes(h) + rest) == Done(h, rest)
  {
    hide GetInt32, GetString, StrBytes;
    match h
    case Lib(path) => GetStringWritten(path, rest);
    case App(kind, id, path) =>
      var b1, b2 := StrBytes(id) + (StrBytes(path) + rest), StrBytes(path) + rest;
      Assoc(LE32(kind) + StrBytes(id), StrBytes(path), rest);
      Assoc(LE32(kind), StrBytes(id), b2);
      GetInt32Written(kind, b1);
      GetStringWritten(id, b2);
      GetStringWritten(path, rest);
  }

  lemma ReadUnitWritten(d: Data, rest: seq<byte>)
    requires d.funcNum == |d.probes|
    ensures ReadUnit(d.head.App?, DataBytes(d) + rest) == Done(Plain(d), rest)
  {
    hide ReadHead, GetInt32, ReadProbes, HeadBytes, FuncsBytes, LE32, ConcatMap;
    var b1, b2 := LE32(d.funcNum) + (FuncsBytes(d.probes) + rest), FuncsBytes(d.probes) + rest;
    assert DataBytes(d) + rest == HeadBytes(d.head) + b1;
    ReadHeadWritten(d.head, b1);
    GetInt32Written(d.funcNum, b2);
    ReadProbesWritten(d.probes, rest);
  }

  lemma {:induction false} ReadUnitsWritten(isApp: bool, ds: seq<Data>, rest: seq<byte>)
    requires Countable(isApp, ds)
    ensures ReadUnits(isApp, |ds|, DatasBytes(ds) + rest) == Done(PlainAll(ds), rest)
  {
    if ds == [] {
      assert DatasBytes(ds) + rest == rest;
    } else {
      hide ReadUnit, DataBytes;
      var d, more := ds[0], ds[1..];
      HeadAndTail(ds);
      ConcatMapConcat(DataBytes, [d], more);
      ConcatMapOne(DataBytes, d);
      Assoc(DataBytes(d), DatasBytes(more), rest);
      ReadUnitWritten(d, DatasBytes(more) + rest);
      ReadUnitsWritten(isApp, more, rest);
    }
  }

  lemma ReadLibsWritten(ds: seq<Data>, rest: seq<byte>)
    requires Countable(false, ds) && |ListBytes(ds)| < WORD32
    ensures ReadLibs(ListBytes(ds) + rest) == Done(PlainAll(ds), rest)
  {
    hide GetInt32, ReadUnits, DatasBytes, LE32, U32;
    CountFits(ds);
    Assoc(LE32(|ds|), DatasBytes(ds), rest);
    GetInt32Written(|ds|, DatasBytes(ds) + rest);
    ReadUnitsWritten(false, ds, rest);
  }

  lemma {:induction false} EntriesCons(l: seq<byte>, apps: seq<Data>)
    requires apps != []
    ensures EntriesBytes(l, apps) == EntryBytes(l, apps[0]) + EntriesBytes(l, apps[1..])
  {
    hide EntryBytes;
    var n := |apps| - 1;
    if n == 0 {
      assert apps[..0] == [] && apps[1..] == [];
      assert [] + EntryBytes(l, apps[0]) == EntryBytes(l, apps[0]) + [];
    } else {
      EntriesCons(l, apps[..n]);
      assert apps[..n][1..] == apps[1..][..n - 1];
      Assoc(EntryBytes(l, apps[0]), EntriesBytes(l, apps[..n][1..]), EntryBytes(l, apps[n]));
    }
  }

  lemma {:induction false} ReadEntriesWritten(libs: seq<Data>, apps: seq<Data>)
    requires Countable(false, libs) && Countable(true, apps) && |ListBytes(libs)| < WORD32
    ensures ReadEntries(|apps|, EntriesBytes(ListBytes(libs), apps)) == Done(EntriesOf(libs, apps), [])
  {
    hide *;
    var l := ListBytes(libs);
    if apps == [] {
      EntriesNone(l, []);
      NoEntries(libs);
    } else {
      var a, rest := apps[0], EntriesBytes(l, apps[1..]);
      EntriesCons(l, apps);
      EntryIs(l, a, rest);
      CountableFirst(true, apps);
      ReadUnitWritten(a, l + rest);
      ReadLibsWritten(libs, rest);
      ReadEntriesWritten(libs, apps[1..]);
      ReadOneMore(libs, apps, EntriesBytes(l, apps), l + rest, rest);
    }
  }

  lemma EntryIs(l: seq<byte>, app: Data, rest: seq<byte>)
    ensures EntryBytes(l, app) + rest == DataBytes(app) + (l + rest)
  {
    hide DataBytes;
    Assoc(DataBytes(app), l, rest);
  }

  lemma CountableFirst(isApp: bool, ds: seq<Data>)
    requires Countable(isApp, ds) && ds != []
    ensures ds[0].head.App? == isApp && ds[0].funcNum == |ds[0].probes| && Countable(isApp, ds[1..])
  {
  }

  /** One app, all libs, and then the rest. */
  lemma ReadOneMore(libs: seq<Data>, apps: seq<Data>, b: seq<byte>, b1: seq<byte>, b2: seq<byte>)
    requires apps != [] && ReadUnit(true, b) == Done(Plain(apps[0]), b1) && ReadLibs(b1) == Done(PlainAll(libs), b2)
    requires ReadEntries(|apps[1..]|, b2) == Done(EntriesOf(libs, apps[1..]), [])
    ensures ReadEntries(|apps|, b) == Done(EntriesOf(libs, apps), [])
  {
    hide ReadUnit, ReadLibs, Plain, PlainAll;
  }

  /** Right caches below 4 GiB are right as numbers. */
  lemma ExactIsCountable(isApp: bool, ds: seq<Data>)
    requires AllExact(ds) && |DatasBytes(ds)| < WORD32 && forall d :: d in ds ==> d.head.App? == isApp
    ensures Countable(isApp, ds)
  {
    hide DatasBytes, ListBytes, TrueSize, FuncsBytes;
    forall d | d in ds
      ensures d.funcNum == |d.probes|
    {
      var k :| 0 <= k < |ds| && ds[k] == d;
      SliceOfList(ds, k);
      ListLength(ds);
      FewProbes(d);
    }
  }

  lemma FewProbes(d: Data)
    ensures |d.probes| <= TrueSize(d)
  {
    AtLeastTenEach(d.probes);
  }

  lemma {:induction false} AtLeastTenEach(fs: seq<Func>)
    ensures SumSizes(fs) >= 10 * |fs|
  {
    if fs != [] {
      AtLeastTenEach(fs[..|fs| - 1]);
    }
  }

  lemma FewBytes(libs: seq<Data>, apps: seq<Data>)
    requires PayloadSize(libs, apps) < WORD32
    ensures |DatasBytes(apps)| < WORD32 && U32(|apps|) == |apps|
    ensures apps != [] ==> |ListBytes(libs)| < WORD32 && |DatasBytes(libs)| < WORD32
  {
    hide U32, DatasBytes, Times, ListBytes;
    CountFits(apps);
    ListLength(apps);
    ListLength(libs);
    TimesNext(0, |ListBytes(libs)|);
    if apps != [] {
      TimesGrows(1, |apps|, |ListBytes(libs)|);
    }
  }

  /** The message decodes to its id and, for each app in list order, to that app and the whole list of
      libs, with a correct payload size, the right number of apps and nothing behind. */
  lemma GeneratedMsgDecodes(id: uint32, libs: seq<Data>, apps: seq<Data>)
    requires AllExact(libs) && AllExact(apps) && PayloadSize(libs, apps) < WORD32
    requires (forall l :: l in libs ==> l.head.Lib?) && forall a :: a in apps ==> a.head.App?
    ensures ReadMsg(MsgBytes(id, libs, apps)) == Done(Order(id, EntriesOf(libs, apps)), [])
  {
    hide GetInt32, ReadEntries, EntriesBytes, PayloadWith, LE32, U32, DatasBytes, Exact, ListBytes;
    var size, body := PayloadSize(libs, apps), EntriesBytes(ListBytes(libs), apps);
    MsgLength(id, libs, apps);
    FewBytes(libs, apps);
    U32Small(size);
    assert MsgBytes(id, libs, apps) == LE32(id) + (LE32(size) + (LE32(|apps|) + body));
    GetInt32Written(id, LE32(size) + (LE32(|apps|) + body));
    GetInt32Written(size, LE32(|apps|) + body);
    GetInt32Written(|apps|, body);
    if apps == [] {
      EntriesNone(ListBytes(libs), []);
      NoEntries(libs);
    } else {
      ExactIsCountable(false, libs);
      ExactIsCountable(true, apps);
      ReadEntriesWritten(libs, apps);
    }
  }

  lemma NoEntries(libs: seq<Data>)
    ensures ReadEntries(0, []) == Done(EntriesOf(libs, []), [])
  {
  }

  // --------------------------------------------------------- sizes that wrap

  /** The buffer has eight bytes and as many as the 32-bit payload size says. It is as long as the
      message exactly when the payload stays below 4 GiB; else it is shorter. */
  lemma MsgFits(id: uint32, libs: seq<Data>, apps: seq<Data>)
    ensures U32(PayloadSize(libs, apps)) + 8 == |MsgBytes(id, libs, apps)| <==> PayloadSize(libs, apps) < WORD32
    ensures U32(PayloadSize(libs, apps)) + 8 <= |MsgBytes(id, libs, apps)|
  {
    hide PayloadSize, MsgBytes;
    MsgLength(id, libs, apps);
  }
}
