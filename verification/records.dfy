// Values held by the instrumentation lists and the byte layout they travel in
// (daemon/da_protocol.h, daemon/da_inst.h).

module Records {
  import opened Words

  /** us_func_inst_plane_t: an address, the argument letters and the return letter behind them. */
  datatype FuncPlane = FuncPlane(addr: uint64, args: CString, ret: byte)

  /** Every probe arrives in a message with a 32-bit length, so its size fits 32 bits. */
  type Func = f: FuncPlane | FuncSize(f) < WORD32 witness FuncPlane(0, [], 0)

  /** us_lib_inst_t or app_info_t. */
  datatype Head =
    | Lib(path: CString)
    | App(kind: uint32, id: CString, path: CString)

  /** data_list_t: what lib_list_t and app_list_t share. size, funcNum and hash are caches. */
  datatype Data = Data(head: Head, hash: uint32, size: uint32, funcNum: uint32, probes: seq<Func>)

  // Whether plain char is signed depends on the machine the daemon is built for.
  datatype Machine = Machine(charIsSigned: bool)

  // -------------------------------------------------------------- byte images

  function StrBytes(s: CString): (r: seq<byte>)
    ensures |r| == |s| + 1
  {
    s + [0]
  }

  function FuncBytes(f: Func): (r: seq<byte>)
    ensures |r| == FuncSize(f)
  {
    LE64(f.addr) + StrBytes(f.args) + [f.ret]
  }

  /** The size cached in a probe: address, arguments, their NUL, return letter. */
  function FuncSize(f: FuncPlane): nat {
    8 + |f.args| + 1 + 1
  }

  function HeadBytes(h: Head): seq<byte> {
    match h
    case Lib(path) => StrBytes(path)
    case App(kind, id, path) => LE32(kind) + StrBytes(id) + StrBytes(path)
  }

  function FuncsBytes(fs: seq<Func>): seq<byte> {
    ConcatMap(FuncBytes, fs)
  }

  function SumSizes(fs: seq<Func>): nat {
    |FuncsBytes(fs)|
  }

  function DataBytes(d: Data): (r: seq<byte>)
    ensures |r| == |HeadBytes(d.head)| + 4 + SumSizes(d.probes)
  {
    HeadBytes(d.head) + LE32(d.funcNum) + FuncsBytes(d.probes)
  }

  function DatasBytes(ds: seq<Data>): seq<byte> {
    ConcatMap(DataBytes, ds)
  }

  function ListBytes(ds: seq<Data>): seq<byte> {
    LE32(U32(|ds|)) + DatasBytes(ds)
  }

  // -------------------------------------------------------------- bookkeeping

  /** The size a record really packs to. */
  function TrueSize(d: Data): (r: nat)
    ensures r == |DataBytes(d)|
  {
    |HeadBytes(d.head)| + 4 + SumSizes(d.probes)
  }

  function SumCachedSizes(ds: seq<Data>): nat {
    if ds == [] then 0 else SumCachedSizes(ds[..|ds| - 1]) + ds[|ds| - 1].size
  }

  /** The caches agree with the contents, as 32-bit values. */
  predicate Exact(d: Data) {
    d.size == U32(TrueSize(d)) && d.funcNum == U32(|d.probes|)
  }

  predicate AllExact(ds: seq<Data>) {
    forall d :: d in ds ==> Exact(d)
  }

  /** Same record with another probe list, the caches moved by the difference. */
  function WithProbes(d: Data, fs: seq<Func>): Data {
    d.(probes := fs,
       size := U32(d.size - SumSizes(d.probes) + SumSizes(fs)),
       funcNum := U32(d.funcNum - |d.probes| + |fs|))
  }

  lemma WithProbesTwice(d: Data, fs: seq<Func>, gs: seq<Func>)
    ensures WithProbes(WithProbes(d, fs), gs) == WithProbes(d, gs)
  {
    U32Inner(d.size - SumSizes(d.probes) + SumSizes(fs), SumSizes(gs) - SumSizes(fs));
    U32Inner(d.funcNum - |d.probes| + |fs|, |gs| - |fs|);
  }

  /** now is before with other probes and the caches moved accordingly. */
  predicate Adjusted(before: Data, now: Data) {
    now == WithProbes(before, now.probes)
  }

  lemma AdjustedMeans(before: Data, now: Data)
    requires Adjusted(before, now)
    ensures now == WithProbes(before, now.probes)
  {
  }

  lemma AdjustedSame(d: Data)
    ensures Adjusted(d, d)
  {
  }

  lemma AdjustedTwice(a: Data, b: Data, c: Data)
    requires Adjusted(a, b) && Adjusted(b, c)
    ensures Adjusted(a, c)
  {
    WithProbesTwice(a, b.probes, c.probes);
  }

  /** Adjusting by differences keeps caches that were exact exact. */
  lemma WithProbesKeepsExact(d: Data, fs: seq<Func>)
    requires Exact(d)
    ensures Exact(WithProbes(d, fs))
  {
    U32Inner(TrueSize(d), SumSizes(fs) - SumSizes(d.probes));
    U32Inner(|d.probes|, |fs| - |d.probes|);
  }

  // ------------------------------------------------------------------- hashing

  function CharValue(m: Machine, b: byte): int {
    if m.charIsSigned && b >= 128 then b - 256 else b
  }

  /** The number of eight signed or unsigned bits the byte stands for. */
  lemma CharIs(m: Machine, b: byte)
    ensures if m.charIsSigned then -128 <= CharValue(m, b) < 128 else 0 <= CharValue(m, b) < 256
    ensures CharValue(m, b) % 256 == b
  {
  }

  /** The hash cached in a record: twice the hash so far plus the next char, in 32 bits. */
  function PathHash(m: Machine, path: seq<byte>): uint32 {
    if path == [] then 0
    else U32(U32(PathHash(m, path[..|path| - 1]) * 2) + CharValue(m, path[|path| - 1]))
  }

  /** Every cached hash is the hash of the record's path. */
  predicate AllHashed(m: Machine, ds: seq<Data>) {
    forall d :: d in ds ==> d.hash == PathHash(m, d.head.path)
  }
}
