// The message that tells targets the paths of all instrumented files (daemon/da_inst.c:569-632).

module Messages {
  import opened Words
  import opened Records
  import opened Wire
  import opened RoundTrip
  import opened Lists
  import opened Collide
  import opened Pack

  const MSG_MAPS_INST_LIST: uint32 := 109

  /** What resolving a path gives. */
  datatype Resolution = Unresolved | Resolved(path: CString)

  /** The paths that go into the message for a list of records, in list order. */
  function Paths(ds: seq<Data>, resolve: CString -> Resolution): seq<CString> {
    if ds == [] then []
    else
      var more := Paths(ds[..|ds| - 1], resolve);
      match resolve(ds[|ds| - 1].head.path)
      case Unresolved => more
      case Resolved(path) => more + [path]
  }

  function StringsBytes(paths: seq<CString>): seq<byte> {
    ConcatMap(StrBytes, paths)
  }

  /** Type, length including these eight bytes, number of strings, strings. */
  function MapsBytes(paths: seq<CString>): seq<byte> {
    LE32(MSG_MAPS_INST_LIST) + LE32(U32(12 + |StringsBytes(paths)|)) + LE32(U32(|paths|)) + StringsBytes(paths)
  }

  lemma PathsStep(ds: seq<Data>, resolve: CString -> Resolution, k: nat)
    requires k < |ds|
    ensures resolve(ds[k].head.path) == Unresolved ==> Paths(ds[..k + 1], resolve) == Paths(ds[..k], resolve)
    ensures resolve(ds[k].head.path).Resolved? ==>
      && Paths(ds[..k + 1], resolve) == Paths(ds[..k], resolve) + [resolve(ds[k].head.path).path]
      && StringsBytes(Paths(ds[..k + 1], resolve))
           == StringsBytes(Paths(ds[..k], resolve)) + StrBytes(resolve(ds[k].head.path).path)
  {
    assert ds[..k + 1][..k] == ds[..k];
    if resolve(ds[k].head.path).Resolved? {
      var path := resolve(ds[k].head.path).path;
      ConcatMapConcat(StrBytes, Paths(ds[..k], resolve), [path]);
      ConcatMapOne(StrBytes, path);
    }
  }

  lemma {:induction false} PathsGrow(ds: seq<Data>, resolve: CString -> Resolution, k: nat)
    requires k <= |ds|
    ensures |StringsBytes(Paths(ds[..k], resolve))| <= |StringsBytes(Paths(ds, resolve))|
    decreases |ds| - k
  {
    if k < |ds| {
      PathsStep(ds, resolve, k);
      PathsGrow(ds, resolve, k + 1);
    } else {
      assert ds[..k] == ds;
    }
  }

  /** First pass over one list: bytes and number of its strings, in 32 bits. */
  method MeasurePaths(list: DataList, resolve: CString -> Resolution) returns (len: uint32, cnt: uint32)
    requires list.Valid()
    ensures len == U32(|StringsBytes(Paths(list.View(), resolve))|)
    ensures cnt == U32(|Paths(list.View(), resolve)|)
  {
    hide DataList.Valid, U32, Views, Paths, StringsBytes;
    ghost var ds, k := list.View(), 0;
    len, cnt := 0, 0;
    NoPaths(resolve);
    FirstNode(list);
    var p := list.head;
    while p != null
      invariant k <= |ds| == |list.nodes| && p == DataAt(list.nodes, k)
      invariant len == U32(|StringsBytes(Paths(ds[..k], resolve))|) && cnt == U32(|Paths(ds[..k], resolve)|)
      decreases |ds| - k
    {
      assert ds[k] == p.View();
      PathsStep(ds, resolve, k);
      var r := resolve(p.head.path);
      if r.Resolved? {
        U32Inner(|StringsBytes(Paths(ds[..k], resolve))|, |r.path| + 1);
        U32Inner(|Paths(ds[..k], resolve)|, 1);
        len, cnt := U32(len + |r.path| + 1), U32(cnt + 1);
      }
      NextNode(list, k);
      p, k := p.next, k + 1;
    }
    assert ds[..k] == ds;
  }

  lemma NoPaths(resolve: CString -> Resolution)
    ensures forall ds: seq<Data> :: Paths(ds[..0], resolve) == [] && StringsBytes(Paths(ds[..0], resolve)) == []
    ensures U32(0) == 0
  {
  }

  /** Second pass over one list; fits tells whether all writes stay inside. */
  method PackPaths(list: DataList, resolve: CString -> Resolution, buf: array<byte>, to: nat)
    returns (next: nat, fits: bool)
    requires list.Valid() && to <= buf.Length
    modifies buf
    ensures fits <==> to + |StringsBytes(Paths(list.View(), resolve))| <= buf.Length
    ensures fits ==> next == to + |StringsBytes(Paths(list.View(), resolve))|
    ensures fits ==> buf[..next] == old(buf[..to]) + StringsBytes(Paths(list.View(), resolve))
  {
    hide DataList.Valid, Views, Paths, StringsBytes, StrBytes;
    ghost var ds, done: seq<byte>, k := list.View(), buf[..to], 0;
    NoPaths(resolve);
    assert done + [] == done;
    FirstNode(list);
    var p := list.head;
    next := to;
    while p != null
      invariant list.Valid() && list.View() == ds && k <= |ds| == |list.nodes| && p == DataAt(list.nodes, k)
      invariant next == to + |StringsBytes(Paths(ds[..k], resolve))| && next <= buf.Length
      invariant buf[..next] == done + StringsBytes(Paths(ds[..k], resolve))
      decreases |ds| - k
    {
      assert ds[k] == p.View();
      PathsStep(ds, resolve, k);
      PathsGrow(ds, resolve, k + 1);
      var r := resolve(p.head.path);
      if r.Resolved? {
        Assoc(done, StringsBytes(Paths(ds[..k], resolve)), StrBytes(r.path));
        if next + |r.path| + 1 > buf.Length {
          return next, false;
        }
        next := PutBytes(buf, next, StrBytes(r.path));
      }
      NextNode(list, k);
      p, k := p.next, k + 1;
    }
    assert ds[..k] == ds;
    fits := true;
  }

  /** The paths of all libs as they are, then those of the apps that resolve. */
  function AllPaths(libs: seq<Data>, apps: seq<Data>, realpath: CString -> Resolution): seq<CString> {
    Paths(libs, AsIs) + Paths(apps, realpath)
  }

  function AsIs(path: CString): Resolution {
    Resolved(path)
  }

  lemma {:induction false} LibPaths(libs: seq<Data>)
    ensures |Paths(libs, AsIs)| == |libs|
    ensures forall i :: 0 <= i < |libs| ==> Paths(libs, AsIs)[i] == libs[i].head.path
  {
    if libs != [] {
      LibPaths(libs[..|libs| - 1]);
    }
  }

  /** The path of a record that resolves stands behind those of the ones before it. */
  lemma {:induction false} PathAt(ds: seq<Data>, resolve: CString -> Resolution, k: nat)
    requires k < |ds| && resolve(ds[k].head.path).Resolved?
    ensures |Paths(ds[..k], resolve)| < |Paths(ds, resolve)|
    ensures Paths(ds, resolve)[|Paths(ds[..k], resolve)|] == resolve(ds[k].head.path).path
  {
    var n := |ds| - 1;
    if k < n {
      PathAt(ds[..n], resolve, k);
      assert ds[..n][..k] == ds[..k];
    }
  }

  /** The i-th path is that of some record. */
  ghost predicate IsFrom(ds: seq<Data>, resolve: CString -> Resolution, i: nat) {
    exists k :: 0 <= k < |ds| && resolve(ds[k].head.path).Resolved? && |Paths(ds[..k], resolve)| == i
  }

  lemma {:induction false} PathFrom(ds: seq<Data>, resolve: CString -> Resolution, i: nat)
    requires i < |Paths(ds, resolve)|
    ensures IsFrom(ds, resolve, i)
  {
    var n := |ds| - 1;
    if i < |Paths(ds[..n], resolve)| {
      PathFrom(ds[..n], resolve, i);
      var k :| 0 <= k < n && resolve(ds[..n][k].head.path).Resolved? && |Paths(ds[..n][..k], resolve)| == i;
      assert ds[..n][..k] == ds[..k];
    }
  }

  /** The strings are: the path of every lib as it is, in list order, then for every app whose path resolves
      what it resolves to, in list order, and nothing else. */
  lemma AllPathsNamed(libs: seq<Data>, apps: seq<Data>, realpath: CString -> Resolution)
    ensures var all, n := AllPaths(libs, apps, realpath), |libs|;
      && n <= |all| && (forall i :: 0 <= i < n ==> all[i] == libs[i].head.path)
      && (forall k :: 0 <= k < |apps| && realpath(apps[k].head.path).Resolved? ==>
            var i := n + |Paths(apps[..k], realpath)|;
            i < |all| && all[i] == realpath(apps[k].head.path).path)
      && forall i :: 0 <= i < |all| - n ==> IsFrom(apps, realpath, i)
  {
    hide Paths;
    LibPaths(libs);
    var n := |libs|;
    forall k | 0 <= k < |apps| && realpath(apps[k].head.path).Resolved?
      ensures |Paths(apps[..k], realpath)| < |Paths(apps, realpath)|
      ensures Paths(apps, realpath)[|Paths(apps[..k], realpath)|] == realpath(apps[k].head.path).path
    {
      PathAt(apps, realpath, k);
    }
    forall i | 0 <= i < |Paths(apps, realpath)|
      ensures IsFrom(apps, realpath, i)
    {
      PathFrom(apps, realpath, i);
    }
  }

  /** First pass: the length of the message and the number of its strings, in 32 bits. */
  method MeasureMaps(libList: DataList, appList: DataList, realpath: CString -> Resolution)
    returns (totalLen: uint32, count: uint32)
    requires libList.Valid() && appList.Valid()
    ensures totalLen == U32(12 + |StringsBytes(AllPaths(libList.View(), appList.View(), realpath))|)
    ensures count == U32(|AllPaths(libList.View(), appList.View(), realpath)|)
  {
    hide DataList.Valid, U32, Views, Paths, StringsBytes;
    ghost var libPaths, appPaths := Paths(libList.View(), AsIs), Paths(appList.View(), realpath);
    StringsConcat(libPaths, appPaths);
    var len, cnt := MeasurePaths(libList, AsIs);
    var len', cnt' := MeasurePaths(appList, realpath);
    SumsInWords(12, |StringsBytes(libPaths)|, |StringsBytes(appPaths)|);
    SumsInWords(0, |libPaths|, |appPaths|);
    var libsLen: int, libsCnt: int := len, cnt;
    totalLen, count := U32(U32(12 + libsLen) + len'), U32(U32(0 + libsCnt) + cnt');
  }

  /** Type, length and number of strings. */
  method PutMapsHeader(buf: array<byte>, totalLen: uint32, count: uint32) returns (next: nat)
    requires 12 <= buf.Length
    modifies buf
    ensures next == 12 && buf[..next] == LE32(MSG_MAPS_INST_LIST) + LE32(totalLen) + LE32(count)
  {
    hide LE32;
    next := PutBytes(buf, 0, LE32(MSG_MAPS_INST_LIST));
    assert buf[..next] == LE32(MSG_MAPS_INST_LIST);
    next := PutBytes(buf, next, LE32(totalLen));
    next := PutBytes(buf, next, LE32(count));
  }

  /** Second pass: first the libs, then the apps. */
  method PackAllPaths(libList: DataList, appList: DataList, realpath: CString -> Resolution,
                      buf: array<byte>, to: nat)
    returns (next: nat, fits: bool)
    requires libList.Valid() && appList.Valid() && to <= buf.Length
    modifies buf
    ensures fits <==> to + |StringsBytes(AllPaths(libList.View(), appList.View(), realpath))| <= buf.Length
    ensures fits ==> next == to + |StringsBytes(AllPaths(libList.View(), appList.View(), realpath))|
    ensures fits ==>
      buf[..next] == old(buf[..to]) + StringsBytes(AllPaths(libList.View(), appList.View(), realpath))
  {
    hide DataList.Valid, Views, Paths, StringsBytes;
    ghost var libPaths, appPaths := Paths(libList.View(), AsIs), Paths(appList.View(), realpath);
    ghost var head: seq<byte> := buf[..to];
    StringsConcat(libPaths, appPaths);
    Assoc(head, StringsBytes(libPaths), StringsBytes(appPaths));
    next, fits := PackPaths(libList, AsIs, buf, to);
    if fits {
      next, fits := PackPaths(appList, realpath, buf, next);
    }
  }

  /** generate_maps_inst_msg: both passes see the same strings, so the buffer is filled exactly unless
      its length wraps. */
  method GenerateMapsMsg(libList: DataList, appList: DataList, realpath: CString -> Resolution)
    returns (msg: array<byte>, fits: bool)
    requires libList.Valid() && appList.Valid()
    ensures fresh(msg)
    ensures fits <==> 12 + |StringsBytes(AllPaths(libList.View(), appList.View(), realpath))| < WORD32
    ensures fits ==> msg[..] == MapsBytes(AllPaths(libList.View(), appList.View(), realpath))
  {
    hide *;
    MapsPlan(AllPaths(libList.View(), appList.View(), realpath));
    var totalLen, count := MeasureMaps(libList, appList, realpath);
    msg := new byte[totalLen];
    if totalLen < 12 {
      return msg, false;
    }
    var to := PutMapsHeader(msg, totalLen, count);
    to, fits := PackAllPaths(libList, appList, realpath, msg, to);
    assert fits ==> msg[..to] == msg[..];
  }

  /** The planned length against what is written. */
  lemma MapsPlan(paths: seq<CString>)
    ensures var len := 12 + |StringsBytes(paths)|;
      && U32(len) <= len && (U32(len) == len <==> len < WORD32)
      && MapsBytes(paths)
           == LE32(MSG_MAPS_INST_LIST) + LE32(U32(len)) + LE32(U32(|paths|)) + StringsBytes(paths)
  {
    hide StringsBytes, LE32;
  }

  lemma StringsConcat(a: seq<CString>, b: seq<CString>)
    ensures StringsBytes(a + b) == StringsBytes(a) + StringsBytes(b)
  {
    ConcatMapConcat(StrBytes, a, b);
  }

  lemma {:induction false} CountInWord(paths: seq<CString>)
    ensures |StringsBytes(paths)| >= |paths|
  {
    if paths != [] {
      CountInWord(paths[..|paths| - 1]);
    }
  }

  lemma SumsInWords(k: nat, x: nat, y: nat)
    ensures U32(U32(k + U32(x)) + U32(y)) == U32(k + x + y)
  {
    hide U32;
    U32Inner(x, k);
    U32Inner(k + x, U32(y));
    U32Inner(y, k + x);
  }

  /** n strings, one after the other. */
  function GetStrings(n: nat, b: seq<byte>): Parsed<seq<CString>> {
    if n == 0 then Done([], b)
    else
      var (s, b1) :- GetString(b);
      var (more, b2) :- GetStrings(n - 1, b1);
      Done([s] + more, b2)
  }

  lemma {:induction false} GetStringsWritten(paths: seq<CString>)
    ensures GetStrings(|paths|, StringsBytes(paths)) == Done(paths, [])
  {
    if paths != [] {
      hide GetString, StrBytes;
      HeadAndTail(paths);
      ConcatMapConcat(StrBytes, [paths[0]], paths[1..]);
      ConcatMapOne(StrBytes, paths[0]);
      GetStringWritten(paths[0], StringsBytes(paths[1..]));
      GetStringsWritten(paths[1..]);
    }
  }

  /** A reader finds the type, the whole length, the number of strings and just those strings. */
  lemma MapsMsgDecodes(paths: seq<CString>)
    requires |MapsBytes(paths)| < WORD32
    ensures var b := MapsBytes(paths);
      && GetInt32(b).Done? && GetInt32(b).value == MSG_MAPS_INST_LIST
      && GetInt32(GetInt32(b).rest).Done? && GetInt32(GetInt32(b).rest).value == |b|
      && GetInt32(GetInt32(GetInt32(b).rest).rest) == Done(|paths|, StringsBytes(paths))
      && GetStrings(|paths|, StringsBytes(paths)) == Done(paths, [])
  {
    hide GetInt32, LE32, StringsBytes;
    var body, size := StringsBytes(paths), 12 + |StringsBytes(paths)|;
    CountInWord(paths);
    U32Small(size);
    U32Small(|paths|);
    assert MapsBytes(paths) == LE32(MSG_MAPS_INST_LIST) + (LE32(size) + (LE32(|paths|) + body));
    GetInt32Written(MSG_MAPS_INST_LIST, LE32(size) + (LE32(|paths|) + body));
    GetInt32Written(size, LE32(|paths|) + body);
    GetInt32Written(|paths|, body);
    GetStringsWritten(paths);
  }
}
