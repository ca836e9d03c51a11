// Packing lists into the messages for the driver (daemon/da_inst.c:426-547). Buffers are sized in 32 bits
// from cached sizes; fits tells whether what is written stays inside.

module Pack {
  import opened Words
  import opened Records
  import opened Lists
  import opened Collide

  /** memcpy to an offset; the caller has to show that the bytes fit. */
  method PutBytes(buf: array<byte>, to: nat, bytes: seq<byte>) returns (next: nat)
    requires to + |bytes| <= buf.Length
    modifies buf
    ensures next == to + |bytes| && buf[..next] == old(buf[..to]) + bytes
  {
    forall i | 0 <= i < |bytes| {
      buf[to + i] := bytes[i];
    }
    next := to + |bytes|;
  }

  /** pack_data_to_array: head, number of probes, probes; fits tells whether all writes stay inside. */
  method PackData(data: DataNode, buf: array<byte>, to: nat) returns (next: nat, fits: bool)
    requires data.ValidProbes() && to <= buf.Length
    modifies buf
    ensures fits <==> to + TrueSize(data.View()) <= buf.Length
    ensures fits ==> next == to + TrueSize(data.View())
    ensures fits ==> buf[..next] == old(buf[..to]) + DataBytes(data.View())
  {
    hide FuncsBytes;
    ghost var v, done: seq<byte> := data.View(), buf[..to];
    if to + |HeadBytes(data.head)| + 4 > buf.Length {
      return to, false;
    }
    next := PutBytes(buf, to, HeadBytes(data.head));
    next := PutBytes(buf, next, LE32(data.funcNum));
    next, fits := PackProbes(data, buf, next);
    Assoc(done, HeadBytes(v.head), LE32(v.funcNum));
    Assoc(done, HeadBytes(v.head) + LE32(v.funcNum), FuncsBytes(v.probes));
  }

  method PackProbes(data: DataNode, buf: array<byte>, to: nat) returns (next: nat, fits: bool)
    requires data.ValidProbes() && to <= buf.Length
    modifies buf
    ensures fits <==> to + SumSizes(data.View().probes) <= buf.Length
    ensures fits ==> next == to + SumSizes(data.View().probes)
    ensures fits ==> buf[..next] == old(buf[..to]) + FuncsBytes(data.View().probes)
  {
    hide DataNode.ValidProbes, FuncBytes, ConcatMap, Funcs;
    ghost var fs, done: seq<byte>, k := data.View().probes, buf[..to], 0;
    FirstProbe(data);
    PiecesStart(fs, done);
    var p := data.list;
    next := to;
    while p != null
      invariant data.ValidProbes() && k <= |fs| && p == ProbeAt(data.probes, k)
      invariant next == to + |FuncsBytes(fs[..k])| && next <= buf.Length
      invariant buf[..next] == done + FuncsBytes(fs[..k])
      decreases |fs| - k
    {
      PiecesStep(FuncBytes, fs, k);
      assert fs[k] == p.func;
      Assoc(done, FuncsBytes(fs[..k]), FuncBytes(p.func));
      if next + p.size > buf.Length {
        return next, false;
      }
      next := PutBytes(buf, next, FuncBytes(p.func));
      NextProbe(data, k);
      p, k := p.next, k + 1;
    }
    assert fs[..k] == fs;
    fits := true;
  }

  lemma PiecesStart(fs: seq<Func>, done: seq<byte>)
    ensures FuncsBytes(fs[..0]) == [] && done == done + FuncsBytes(fs[..0])
  {
  }

  /** The image of a prefix grows by the image of the next element and stays within the whole. */
  lemma PiecesStep<T>(f: T -> seq<byte>, xs: seq<T>, k: nat)
    requires k < |xs|
    ensures ConcatMap(f, xs[..k + 1]) == ConcatMap(f, xs[..k]) + f(xs[k])
    ensures |ConcatMap(f, xs[..k + 1])| <= |ConcatMap(f, xs)|
  {
    assert xs[..k + 1][..k] == xs[..k];
    assert xs == xs[..k + 1] + xs[k + 1..];
    ConcatMapConcat(f, xs[..k + 1], xs[k + 1..]);
  }

  /** First pass: the cached sizes and the number of records, both in 32 bits. */
  method MeasureList(list: DataList) returns (size: uint32, cnt: uint32)
    requires list.Valid()
    ensures size == U32(SumCachedSizes(list.View()) + 4) && cnt == U32(|list.View()|)
  {
    hide DataList.Valid, U32, Views;
    ghost var vs, k := list.View(), 0;
    size, cnt := 0, 0;
    U32Small(0);
    FirstNode(list);
    var p := list.head;
    while p != null
      invariant k <= |vs| == |list.nodes| && p == DataAt(list.nodes, k)
      invariant size == U32(SumCachedSizes(vs[..k])) && cnt == U32(k)
      decreases |vs| - k
    {
      assert vs[..k + 1][..k] == vs[..k] && vs[k] == p.View();
      U32Inner(SumCachedSizes(vs[..k]), p.size);
      U32Inner(k, 1);
      size, cnt := U32(size + p.size), U32(cnt + 1);
      NextNode(list, k);
      p, k := p.next, k + 1;
    }
    assert vs[..k] == vs;
    U32Inner(SumCachedSizes(vs), 4);
    size := U32(size + 4);
  }

  /** Second pass: the records, in list order. */
  method PackDatas(list: DataList, buf: array<byte>, to: nat) returns (next: nat, fits: bool)
    requires list.Valid() && to <= buf.Length
    modifies buf
    ensures fits <==> to + |DatasBytes(list.View())| <= buf.Length
    ensures fits ==> next == to + |DatasBytes(list.View())|
    ensures fits ==> buf[..next] == old(buf[..to]) + DatasBytes(list.View())
  {
    hide DataList.Valid, DataNode.ValidProbes, Views, DataBytes, ConcatMap;
    ghost var vs, head: seq<byte>, k := list.View(), buf[..to], 0;
    assert vs[..0] == [];
    NoPieces(DataBytes, head);
    FirstNode(list);
    var p := list.head;
    next := to;
    while p != null
      invariant list.Valid() && list.View() == vs && k <= |vs| == |list.nodes| && p == DataAt(list.nodes, k)
      invariant next == to + |DatasBytes(vs[..k])| && next <= buf.Length
      invariant buf[..next] == head + DatasBytes(vs[..k])
      decreases |vs| - k
    {
      MemberAt(list, k);
      assert vs[k] == p.View();
      PiecesStep(DataBytes, vs, k);
      Assoc(head, DatasBytes(vs[..k]), DataBytes(vs[k]));
      next, fits := PackData(p, buf, next);
      if !fits {
        return;
      }
      NextNode(list, k);
      p, k := p.next, k + 1;
    }
    assert vs[..k] == vs;
    fits := true;
  }

  /** pack_data_list_to_array: the buffer is as large as the cached sizes say in 32 bits. fits tells
      whether the packed list went into it; a size that wraps to nothing packs nothing. */
  method PackDataList(list: DataList) returns (res: array<byte>, len: uint32, count: uint32, fits: bool)
    requires list.Valid()
    ensures fresh(res) && res.Length == len == U32(SumCachedSizes(list.View()) + 4)
    ensures count == U32(|list.View()|)
    ensures fits <==> |ListBytes(list.View())| <= len
    ensures fits ==> res[..|ListBytes(list.View())|] == ListBytes(list.View())
  {
    hide DataList.Valid, U32, Views, DatasBytes, SumCachedSizes, LE32;
    ListLength(list.View());
    len, count := MeasureList(list);
    res := new byte[len];
    if len < 4 {
      return res, len, count, false;
    }
    var to := PutBytes(res, 0, LE32(count));
    assert res[..to] == LE32(count);
    to, fits := PackDatas(list, res, to);
  }

  /** With right caches. */
  method PackExact(list: DataList) returns (res: array<byte>, len: uint32, count: uint32, fits: bool)
    requires list.Valid() && AllExact(list.View())
    ensures fresh(res) && (fits <==> |ListBytes(list.View())| < WORD32)
    ensures fits ==> res[..] == ListBytes(list.View()) && len == |ListBytes(list.View())| && count == |list.View()|
  {
    hide *;
    BufferFits(list.View());
    res, len, count, fits := PackDataList(list);
    if fits {
      CountFits(list.View());
      assert res[..len] == res[..];
    }
  }

  lemma NoPieces<T>(f: T -> seq<byte>, head: seq<byte>)
    ensures ConcatMap(f, []) == [] && head == head + ConcatMap(f, [])
  {
  }

  lemma {:induction false} CachedIsTrue(ds: seq<Data>)
    requires AllExact(ds)
    ensures U32(SumCachedSizes(ds)) == U32(|DatasBytes(ds)|)
    ensures U32(SumCachedSizes(ds) + 4) == U32(|ListBytes(ds)|)
  {
    hide U32, DataBytes;
    if ds != [] {
      var n := |ds| - 1;
      CachedIsTrue(ds[..n]);
      var d := ds[n];
      assert d in ds;
      U32Inner(SumCachedSizes(ds[..n]), d.size);
      U32Inner(|DatasBytes(ds[..n])|, U32(|DataBytes(d)|));
      U32Inner(|DataBytes(d)|, |DatasBytes(ds[..n])|);
    }
    U32Inner(SumCachedSizes(ds), 4);
    U32Inner(|DatasBytes(ds)|, 4);
  }

  /** With exact caches the buffer is as large as what is written exactly when that is below 4 GiB;
      else it is smaller. */
  lemma BufferFits(ds: seq<Data>)
    requires AllExact(ds)
    ensures U32(SumCachedSizes(ds) + 4) == |ListBytes(ds)| <==> |ListBytes(ds)| < WORD32
    ensures U32(SumCachedSizes(ds) + 4) <= |ListBytes(ds)|
  {
    CachedIsTrue(ds);
  }

  // ------------------------------------------------------------ driver message

  /** What the message holds for one app: its record and the packed libs. */
  function EntryBytes(l: seq<byte>, app: Data): seq<byte> {
    DataBytes(app) + l
  }

  function EntriesBytes(l: seq<byte>, apps: seq<Data>): seq<byte> {
    if apps == [] then []
    else EntriesBytes(l, apps[..|apps| - 1]) + EntryBytes(l, apps[|apps| - 1])
  }

  /** The payload size of the message's second field. */
  function PayloadWith(l: seq<byte>, apps: seq<Data>): nat {
    Times(|apps|, |l|) + |ListBytes(apps)|
  }

  /** Message id, payload size, number of apps, entries. */
  function MsgWith(id: uint32, l: seq<byte>, apps: seq<Data>): seq<byte> {
    LE32(id) + LE32(U32(PayloadWith(l, apps))) + LE32(U32(|apps|)) + EntriesBytes(l, apps)
  }

  /** The same for the packed form of libs. */
  function PayloadSize(libs: seq<Data>, apps: seq<Data>): nat {
    PayloadWith(ListBytes(libs), apps)
  }

  function MsgBytes(id: uint32, libs: seq<Data>, apps: seq<Data>): seq<byte> {
    MsgWith(id, ListBytes(libs), apps)
  }

  lemma {:induction false} EntriesLength(l: seq<byte>, apps: seq<Data>)
    ensures |EntriesBytes(l, apps)| == Times(|apps|, |l|) + |DatasBytes(apps)|
  {
    hide DataBytes, Times;
    TimesNext(0, |l|);
    if apps != [] {
      var n := |apps| - 1;
      EntriesLength(l, apps[..n]);
      TimesNext(n, |l|);
    }
  }

  /** The header's size field counts everything behind the eight header bytes. */
  lemma MsgLength(id: uint32, libs: seq<Data>, apps: seq<Data>)
    ensures |MsgBytes(id, libs, apps)| == 8 + PayloadSize(libs, apps)
  {
    hide DataBytes, ListBytes, EntriesBytes, Times;
    EntriesLength(ListBytes(libs), apps);
    ListLength(apps);
  }

  lemma ListLength(ds: seq<Data>)
    ensures |ListBytes(ds)| == 4 + |DatasBytes(ds)|
  {
    hide DatasBytes;
  }

  lemma EntriesStep(l: seq<byte>, apps: seq<Data>, k: nat)
    requires k < |apps|
    ensures EntriesBytes(l, apps[..k + 1]) == EntriesBytes(l, apps[..k]) + DataBytes(apps[k]) + l
    ensures |EntriesBytes(l, apps[..k + 1])| <= |EntriesBytes(l, apps)|
  {
    hide DataBytes, EntriesBytes, Times, ConcatMap;
    EntriesSnoc(l, apps, k);
    Assoc(EntriesBytes(l, apps[..k]), DataBytes(apps[k]), l);
    EntriesLength(l, apps[..k + 1]);
    EntriesLength(l, apps);
    PiecesUpTo(DataBytes, apps, k + 1);
    TimesGrows(k + 1, |apps|, |l|);
  }

  lemma EntriesSnoc(l: seq<byte>, apps: seq<Data>, k: nat)
    requires k < |apps|
    ensures EntriesBytes(l, apps[..k + 1]) == EntriesBytes(l, apps[..k]) + EntryBytes(l, apps[k])
  {
    assert apps[..k + 1][..k] == apps[..k];
  }

  lemma PiecesUpTo<T>(f: T -> seq<byte>, xs: seq<T>, k: nat)
    requires k <= |xs|
    ensures |ConcatMap(f, xs[..k])| <= |ConcatMap(f, xs)|
  {
    assert xs == xs[..k] + xs[k..];
    ConcatMapConcat(f, xs[..k], xs[k..]);
  }

  /** The k-th record's bytes, found in the packed list at the sum of the sizes before it. */
  lemma SliceOfList(ds: seq<Data>, k: nat)
    requires k < |ds|
    ensures var from := 4 + |DatasBytes(ds[..k])|;
      && from + TrueSize(ds[k]) <= |ListBytes(ds)|
      && ListBytes(ds)[from..from + TrueSize(ds[k])] == DataBytes(ds[k])
      && from + TrueSize(ds[k]) == 4 + |DatasBytes(ds[..k + 1])|
  {
    hide DataBytes, ConcatMap;
    PiecesStep(DataBytes, ds, k);
    var a, b := DatasBytes(ds[..k + 1]), DatasBytes(ds[k + 1..]);
    assert ds == ds[..k + 1] + ds[k + 1..];
    ConcatMapConcat(DataBytes, ds[..k + 1], ds[k + 1..]);
    SliceMiddle(LE32(U32(|ds|)), DatasBytes(ds[..k]), DataBytes(ds[k]), b);
  }

  lemma SliceMiddle(h: seq<byte>, a: seq<byte>, x: seq<byte>, b: seq<byte>)
    ensures |h| + |a| + |x| <= |h + ((a + x) + b)|
    ensures (h + ((a + x) + b))[|h| + |a|..|h| + |a| + |x|] == x
  {
  }

  /** The buffer size that the cached sizes give, in 32 bits. */
  function Planned(ds: seq<Data>): uint32 {
    U32(SumCachedSizes(ds) + 4)
  }

  /** The packed libs go into the buffer planned for them, and the message size does not wrap. */
  predicate Packable(libs: seq<Data>, apps: seq<Data>) {
    |ListBytes(libs)| <= Planned(libs) && Times(|apps|, Planned(libs)) + |ListBytes(apps)| < WORD32
  }

  /** b is a message for these libs and apps: their packed forms, and what malloc left in the buffer behind
      the libs if it was planned too large. */
  ghost predicate IsMsg(b: seq<byte>, id: uint32, libs: seq<Data>, apps: seq<Data>) {
    exists l :: |l| == Planned(libs) && ListBytes(libs) <= l && b == MsgWith(id, l, apps)
  }

  /** With right caches nothing is left behind the libs, and only sizes that wrap do not go in. */
  lemma ExactMsg(id: uint32, libs: seq<Data>, apps: seq<Data>)
    requires AllExact(libs)
    ensures Packable(libs, apps) <==> |ListBytes(libs)| < WORD32 && PayloadSize(libs, apps) < WORD32
    ensures Packable(libs, apps) ==> forall b :: IsMsg(b, id, libs, apps) ==> b == MsgBytes(id, libs, apps)
  {
    hide ListBytes, MsgWith, SumCachedSizes, Times;
    BufferFits(libs);
    if Packable(libs, apps) {
      forall b | IsMsg(b, id, libs, apps)
        ensures b == MsgBytes(id, libs, apps)
      {
        var l :| |l| == Planned(libs) && ListBytes(libs) <= l && b == MsgWith(id, l, apps);
        assert l == ListBytes(libs);
      }
    }
  }

  /** Two pieces, one behind the other. */
  method PutTwo(buf: array<byte>, to: nat, a: seq<byte>, b: seq<byte>) returns (next: nat, fits: bool)
    requires to <= buf.Length
    modifies buf
    ensures fits <==> to + |a| + |b| <= buf.Length
    ensures fits ==> next == to + |a| + |b| && buf[..next] == old(buf[..to]) + a + b
  {
    if to + |a| + |b| > buf.Length {
      return to, false;
    }
    next := PutBytes(buf, to, a);
    next := PutBytes(buf, next, b);
    fits := true;
  }

  /** One turn of the loop below: the app's slice of the packed apps, then all packed libs. */
  method PackEntry(packedLibs: array<byte>, packedApps: array<byte>, size: uint32, appP: nat,
                   msg: array<byte>, to: nat, ghost apps: seq<Data>, ghost head: seq<byte>, ghost k: nat)
    returns (next: nat, fits: bool)
    requires packedLibs != msg && packedApps != msg && packedApps[..] == ListBytes(apps)
    requires k < |apps| && size == TrueSize(apps[k]) && appP == 4 + |DatasBytes(apps[..k])|
    requires to == |head| + |EntriesBytes(packedLibs[..], apps[..k])| && to <= msg.Length
    requires msg[..to] == head + EntriesBytes(packedLibs[..], apps[..k])
    modifies msg
    ensures fits <==> |head| + |EntriesBytes(packedLibs[..], apps[..k + 1])| <= msg.Length
    ensures fits ==> next == |head| + |EntriesBytes(packedLibs[..], apps[..k + 1])|
    ensures fits ==> msg[..next] == head + EntriesBytes(packedLibs[..], apps[..k + 1])
    ensures appP + size == 4 + |DatasBytes(apps[..k + 1])|
  {
    hide *;
    ghost var l := packedLibs[..];
    SliceOfList(apps, k);
    EntriesStep(l, apps, k);
    Assoc(head, EntriesBytes(l, apps[..k]), DataBytes(apps[k]));
    Assoc(head, EntriesBytes(l, apps[..k]) + DataBytes(apps[k]), l);
    assert packedApps[appP..appP + size] == packedApps[..][appP..appP + size];
    next, fits := PutTwo(msg, to, packedApps[appP..appP + size], packedLibs[..]);
    assert packedLibs[..] == l;
  }

  /** One entry for each app, in list order, behind the header. */
  method PackEntries(appList: DataList, packedLibs: array<byte>, packedApps: array<byte>,
                     count: uint32, msg: array<byte>, to: nat)
    returns (next: nat, fits: bool)
    requires appList.Valid() && AllExact(appList.View()) && |ListBytes(appList.View())| < WORD32
    requires packedLibs != msg && packedApps != msg && packedApps[..] == ListBytes(appList.View())
    requires count == |appList.View()| && to <= msg.Length
    modifies msg
    ensures fits <==> to + |EntriesBytes(packedLibs[..], appList.View())| <= msg.Length
    ensures fits ==> next == to + |EntriesBytes(packedLibs[..], appList.View())|
    ensures fits ==> msg[..next] == old(msg[..to]) + EntriesBytes(packedLibs[..], appList.View())
  {
    hide DataList.Valid, DataNode.View, Views, DataBytes, ListBytes, EntriesBytes, Exact, ConcatMap;
    ghost var l: seq<byte>, apps, head: seq<byte> := packedLibs[..], appList.View(), msg[..to];
    EntriesNone(l, head);
    NoPieces(DataBytes, head);
    FirstNode(appList);
    var appP: nat, i, app := 4, 0, appList.head;
    next := to;
    assert apps[..0] == [];
    while i < count
      invariant 0 <= i <= count && app == DataAt(appList.nodes, i) && appP == 4 + |DatasBytes(apps[..i])|
      invariant packedLibs[..] == l && packedApps[..] == ListBytes(apps)
      invariant next == to + |EntriesBytes(l, apps[..i])| && next <= msg.Length
      invariant msg[..next] == head + EntriesBytes(l, apps[..i])
    {
      AppSize(appList, i);
      EntriesStep(l, apps, i);
      var size := app.size;
      next, fits := PackEntry(packedLibs, packedApps, size, appP, msg, next, apps, head, i);
      if !fits {
        return;
      }
      appP := appP + size;
      NextNode(appList, i);
      app, i := app.next, i + 1;
    }
    assert apps[..count] == apps;
    fits := true;
  }

  /** Below 4 GiB the cached size of an app is its size. */
  lemma AppSize(list: DataList, k: nat)
    requires list.Valid() && AllExact(list.View()) && |ListBytes(list.View())| < WORD32 && k < |list.nodes|
    ensures list.nodes[k].size == TrueSize(list.View()[k])
  {
    hide DataList.Valid, DataBytes, ConcatMap, U32, TrueSize, ListBytes;
    ghost var ds := list.View();
    assert ds[k] == list.nodes[k].View() && ds[k] in ds;
    SliceOfList(ds, k);
    U32Small(TrueSize(ds[k]));
  }

  /** The message buffer, its header and its entries. */
  method FillMsg(appList: DataList, packedLibs: array<byte>, packedApps: array<byte>, size: uint32, count: uint32)
    returns (msg: array<byte>, fits: bool)
    requires appList.Valid() && AllExact(appList.View()) && |ListBytes(appList.View())| < WORD32
    requires packedApps[..] == ListBytes(appList.View())
    requires size == U32(PayloadWith(packedLibs[..], appList.View())) && count == |appList.View()|
    ensures fresh(msg) && (fits <==> PayloadWith(packedLibs[..], appList.View()) < WORD32)
    ensures fits ==> msg[..] == MsgWith(0, packedLibs[..], appList.View())
  {
    hide *;
    ghost var l := packedLibs[..];
    PlanMeans(l, appList.View());
    msg := new byte[size + 8];
    if msg.Length < 12 {
      return msg, false;
    }
    var to := WriteHeader(msg, size, count);
    to, fits := PackEntries(appList, packedLibs, packedApps, count, msg, to);
    assert packedLibs[..] == l;
    assert fits ==> msg[..to] == msg[..];
  }

  /** generate_msg: the buffers are sized in 32 bits from the cached sizes, and fits tells whether all
      writes stay inside. */
  method GenerateMsg(libList: DataList, appList: DataList) returns (msg: array<byte>, fits: bool)
    requires libList.Valid() && appList.Valid() && AllExact(appList.View())
    ensures fresh(msg) && (fits <==> Packable(libList.View(), appList.View()))
    ensures fits ==> IsMsg(msg[..], 0, libList.View(), appList.View())
  {
    hide *;
    ghost var libs, apps := libList.View(), appList.View();
    msg := new byte[0];
    PackableMeans(libs, apps);
    var packedLibs, libsSize, libsCount, libsOk := PackDataList(libList);
    if !libsOk {
      return msg, false;
    }
    var packedApps, appsSize, appsCount, appsOk := PackExact(appList);
    if !appsOk {
      return msg, false;
    }
    ghost var l := packedLibs[..];
    assert ListBytes(libs) == l[..|ListBytes(libs)|];
    PlanMeans(l, apps);
    var size := ComputeSize(appsCount, libsSize, appsSize);
    msg, fits := FillMsg(appList, packedLibs, packedApps, size, appsCount);
    if fits {
      ItIsMsg(msg[..], 0, libs, apps, l);
    }
  }

  lemma PackableMeans(libs: seq<Data>, apps: seq<Data>)
    ensures Packable(libs, apps) <==>
      |ListBytes(libs)| <= Planned(libs) && Times(|apps|, Planned(libs)) + |ListBytes(apps)| < WORD32
    ensures Planned(libs) == U32(SumCachedSizes(libs) + 4) && |ListBytes(apps)| >= 4
  {
    hide ListBytes, SumCachedSizes, Times;
    ListLength(apps);
  }

  lemma ItIsMsg(b: seq<byte>, id: uint32, libs: seq<Data>, apps: seq<Data>, l: seq<byte>)
    requires |l| == Planned(libs) && ListBytes(libs) <= l && b == MsgWith(id, l, apps)
    ensures IsMsg(b, id, libs, apps)
  {
  }

  /** The planned size against what is written. */
  lemma PlanMeans(l: seq<byte>, apps: seq<Data>)
    ensures PayloadWith(l, apps) == 4 + |EntriesBytes(l, apps)| >= |ListBytes(apps)|
    ensures PayloadWith(l, apps) == Times(|apps|, |l|) + |ListBytes(apps)|
    ensures U32(PayloadWith(l, apps)) == PayloadWith(l, apps) <==> PayloadWith(l, apps) < WORD32
    ensures U32(PayloadWith(l, apps)) <= PayloadWith(l, apps)
    ensures MsgWith(0, l, apps)
         == LE32(0) + LE32(U32(PayloadWith(l, apps))) + LE32(U32(|apps|)) + EntriesBytes(l, apps)
    ensures |ListBytes(apps)| < WORD32 ==> U32(|apps|) == |apps|
  {
    hide DatasBytes, EntriesBytes, Times, ListBytes, LE32;
    ListLength(apps);
    EntriesLength(l, apps);
    if |ListBytes(apps)| < WORD32 {
      CountFits(apps);
    }
  }

  /** The payload size, computed in 32 bits. */
  method ComputeSize(appsCount: uint32, libsSize: uint32, appsSize: uint32) returns (size: uint32)
    ensures size == U32(Times(appsCount, libsSize) + appsSize)
  {
    U32Inner(Times(appsCount, libsSize), appsSize);
    size := U32(U32(appsCount * libsSize) + appsSize);
  }

  method WriteHeader(msg: array<byte>, size: uint32, count: uint32) returns (to: nat)
    requires msg.Length >= 12
    modifies msg
    ensures to == 12 && msg[..to] == LE32(0) + LE32(size) + LE32(count)
  {
    forall i | 0 <= i < msg.Length - 8 {
      msg[i] := 42;
    }
    to := PutBytes(msg, 0, LE32(0));
    to := PutBytes(msg, to, LE32(size));
    to := PutBytes(msg, to, LE32(count));
  }

  lemma EntriesNone(l: seq<byte>, head: seq<byte>)
    ensures EntriesBytes(l, []) == [] && head + EntriesBytes(l, []) == head
  {
  }

  lemma CountFits(ds: seq<Data>)
    requires |ListBytes(ds)| < WORD32
    ensures U32(|ds|) == |ds|
  {
    AtLeastOneEach(ds);
  }

  lemma {:induction false} AtLeastOneEach(ds: seq<Data>)
    ensures |DatasBytes(ds)| >= |ds|
  {
    if ds != [] {
      AtLeastOneEach(ds[..|ds| - 1]);
    }
  }
}
