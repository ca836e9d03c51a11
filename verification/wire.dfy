// How messages with libs, apps and probes are read (daemon/da_protocol.c:205-301,
// daemon/da_protocol_inst.c, daemon/da_protocol_check.c), as functions on the bytes left to read.

module Wire {
  import opened Words
  import opened Records

  /** The file system and the C library as the checks see them. */
  datatype Env = Env(machine: Machine, fileExists: CString -> bool, isPidNumber: CString -> bool)

  datatype Parsed<+T> = Fail | Done(value: T, rest: seq<byte>) {
    predicate IsFailure() {
      Fail?
    }
    function PropagateFailure<U>(): Parsed<U>
      requires Fail?
    {
      Fail
    }
    function Extract(): (T, seq<byte>)
      requires Done?
    {
      (value, rest)
    }
  }

  /** A message no longer than its 32-bit length field can say. */
  type Message = b: seq<byte> | |b| < 0x1_0000_0000

  // --------------------------------------------------------------- primitives

  function GetByte(b: seq<byte>): (r: Parsed<byte>)
    ensures r.Done? ==> |r.rest| < |b|
  {
    if |b| < 1 then Fail else Done(b[0], b[1..])
  }

  function GetInt32(b: seq<byte>): (r: Parsed<uint32>)
    ensures r.Done? ==> |r.rest| < |b|
  {
    if |b| < 4 then Fail else Done(UnLE32(b[..4]), b[4..])
  }

  function GetInt64(b: seq<byte>): (r: Parsed<uint64>)
    ensures r.Done? ==> |r.rest| + 8 == |b|
  {
    if |b| < 8 then Fail else Done(UnLE64(b[..8]), b[8..])
  }

  /** The position of the first NUL, or the length if there is none. */
  function Nul(b: seq<byte>): (n: nat)
    ensures n <= |b|
    ensures n < |b| ==> b[n] == 0
    ensures forall i :: 0 <= i < n ==> b[i] != 0
  {
    if b == [] || b[0] == 0 then 0 else 1 + Nul(b[1..])
  }

  function GetString(b: seq<byte>): (r: Parsed<CString>)
    ensures r.Done? ==> |r.rest| + |r.value| + 1 == |b|
  {
    var n := Nul(b);
    if n == |b| then Fail else Done(b[..n], b[n + 1..])
  }

  // ------------------------------------------------------------------- checks

  const MAX_FUNCS: nat := 100000
  const MAX_LIBS: nat := 1000

  const APP_TIZEN: uint32 := 1
  const APP_RUNNING: uint32 := 2
  const APP_COMMON: uint32 := 3
  const APP_WEB: uint32 := 4

  /** One of the letters b c d x p f w. */
  predicate IsArg(c: byte) {
    c == 98 || c == 99 || c == 100 || c == 120 || c == 112 || c == 102 || c == 119
  }

  /** v, n, an argument letter, or the NUL at the end of the list of letters searched. */
  predicate IsRet(c: byte) {
    c == 118 || c == 110 || IsArg(c) || c == 0
  }

  lemma Letters(c: byte)
    ensures IsArg(c) <==> c as char in "bcdxpfw"
    ensures IsRet(c) <==> c == 0 || c as char in "vnbcdxpfw"
  {
    var c' := c as char;
    assert c' in "bcdxpfw" <==> c' == 'b' || c' == 'c' || c' == 'd' || c' == 'x' || c' == 'p' || c' == 'f' || c' == 'w';
    assert c' in "vnbcdxpfw" <==> c' == 'v' || c' == 'n' || c' in "bcdxpfw";
  }

  predicate ArgsOk(args: CString) {
    forall c :: c in args ==> IsArg(c)
  }

  predicate KindOk(kind: uint32) {
    APP_TIZEN <= kind <= APP_WEB
  }

  predicate IdOk(env: Env, kind: uint32, id: CString) {
    && KindOk(kind)
    && (kind == APP_RUNNING ==> id == [] || env.isPidNumber(id))
    && (kind == APP_COMMON ==> id == [])
  }

  predicate PathOk(env: Env, kind: uint32, id: CString, path: CString) {
    kind == APP_WEB || (kind == APP_RUNNING && id == []) || env.fileExists(path)
  }

  predicate HeadOk(env: Env, h: Head) {
    match h
    case Lib(path) => env.fileExists(path)
    case App(kind, id, path) => IdOk(env, kind, id) && PathOk(env, kind, id, path)
  }

  /** Libs have to exist. So do apps, with any id for a Tizen app, with a number for one that runs and with none for
      a common one; but of a web app, and of one that runs and has no id, the path is not looked at. */
  lemma HeadsAccepted(env: Env, h: Head)
    ensures HeadOk(env, h) <==>
      || (h.Lib? && env.fileExists(h.path))
      || (h.App? && env.fileExists(h.path)
          && (h.kind == 1 || (h.kind == 2 && env.isPidNumber(h.id)) || (h.kind == 3 && h.id == [])))
      || (h.App? && (h.kind == 4 || (h.kind == 2 && h.id == [])))
  {
  }

  predicate FuncOk(f: FuncPlane) {
    ArgsOk(f.args) && IsRet(f.ret)
  }

  // ------------------------------------------------------------------ records

  function GetFunc(b: Message): (r: Parsed<Func>)
    ensures r.Done? ==> |r.rest| < |b|
  {
    var (addr, b1) :- GetInt64(b);
    var (args, b2) :- GetString(b1);
    if !ArgsOk(args) then Fail else
    var (ret, b3) :- GetByte(b2);
    if !IsRet(ret) then Fail else
    Done(FuncPlane(addr, args, ret), b3)
  }

  /** n probes in the order of the message. */
  function GetFuncs(n: nat, b: Message): (r: Parsed<seq<Func>>)
    ensures r.Done? ==> |r.value| == n && |r.rest| <= |b|
  {
    if n == 0 then Done([], b)
    else
      var (f, b1) :- GetFunc(b);
      var (fs, b2) :- GetFuncs(n - 1, b1);
      Done([f] + fs, b2)
  }

  function GetFuncList(b: Message): (r: Parsed<seq<Func>>)
    ensures r.Done? ==> |r.rest| < |b| && |r.value| <= MAX_FUNCS
  {
    var (n, b1) :- GetInt32(b);
    if n > MAX_FUNCS then Fail else GetFuncs(n, b1)
  }

  function GetHead(env: Env, isApp: bool, b: Message): (r: Parsed<Head>)
    ensures r.Done? ==> |r.rest| < |b| && r.value.App? == isApp
  {
    if isApp then
      var (kind, b1) :- GetInt32(b);
      if !KindOk(kind) then Fail else
      var (id, b2) :- GetString(b1);
      if !IdOk(env, kind, id) then Fail else
      var (path, b3) :- GetString(b2);
      if !PathOk(env, kind, id, path) then Fail else
      Done(App(kind, id, path), b3)
    else
      var (path, b1) :- GetString(b);
      if !env.fileExists(path) then Fail else Done(Lib(path), b1)
  }

  /** The record a freshly parsed head and its probes are stored as: probes are inserted at the
      head of the list, so the last one read comes first. */
  function Record(m: Machine, h: Head, fs: seq<Func>): Data {
    Data(h, PathHash(m, h.path), U32(|HeadBytes(h)| + 4 + SumSizes(fs)), U32(|fs|), Reverse(fs))
  }

  function GetData(env: Env, isApp: bool, b: Message): (r: Parsed<Data>)
    ensures r.Done? ==> |r.rest| < |b|
  {
    var (h, b1) :- GetHead(env, isApp, b);
    var (fs, b2) :- GetFuncList(b1);
    Done(Record(env.machine, h, fs), b2)
  }

  /** Records are stored one by one, so the ones before a malformed one stay. */
  datatype Items = Items(ok: bool, items: seq<Data>, rest: seq<byte>)

  function GetDatas(env: Env, isApp: bool, n: nat, b: Message): (r: Items)
    ensures |r.items| <= n && (r.ok ==> |r.items| == n && |r.rest| <= |b|)
  {
    if n == 0 then Items(true, [], b)
    else
      match GetData(env, isApp, b)
      case Fail => Items(false, [], b)
      case Done(d, b1) =>
        var more := GetDatas(env, isApp, n - 1, b1);
        Items(more.ok, [d] + more.items, more.rest)
  }

  function GetList(env: Env, isApp: bool, b: Message): (r: Items)
    ensures r.ok ==> |r.rest| < |b| && |r.items| <= MAX_LIBS
  {
    match GetInt32(b)
    case Fail => Items(false, [], b)
    case Done(n, b1) => if n > MAX_LIBS then Items(false, [], b1) else GetDatas(env, isApp, n, b1)
  }
}
