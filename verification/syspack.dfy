// pack_system_info: the serializer that walks the process lists (daemon/sys_stat.c:2242-2371).

module SysPack {
  import opened Words
  import opened ProcSpec
  import opened Procs
  import opened Sampling
  import opened SysInfo
  import Wire
  import opened Pack

  function LoadOf(m: Mark): Load {
    Load(U32(m.pid), m.data.cpuLoad)
  }

  function LoadsOf(v: seq<Mark>): (ls: seq<Load>)
    ensures |ls| == |v|
    ensures forall i {:trigger ls[i]} :: 0 <= i < |v| ==> ls[i] == LoadOf(v[i])
  {
    if v == [] then [] else LoadsOf(v[..|v| - 1]) + [LoadOf(v[|v| - 1])]
  }

  /** What is sent about one instrumented process; alloc tells its total allocation. */
  ghost function InstOf(n: ProcNode, withThreads: bool, alloc: int -> uint64): Inst
    reads n`data, n`found, n.threads`nodes
    reads (set t | t in n.threads.nodes)`data, (set t | t in n.threads.nodes)`found
  {
    Inst(LoadOf(n.View()), n.data.virMem, n.data.resMem, n.data.shMem, n.data.pss, alloc(n.pid),
         if withThreads then LoadsOf(n.threads.View()) else [])
  }

  ghost function InstsOf(ns: seq<ProcNode>, withThreads: bool, alloc: int -> uint64): (ps: seq<Inst>)
    reads (set n | n in ns)`data, (set n | n in ns)`found
    reads (set n | n in ns :: n.threads)`nodes
    reads (set n, t | n in ns && t in n.threads.nodes :: t)`data
    reads (set n, t | n in ns && t in n.threads.nodes :: t)`found
    ensures |ps| == |ns|
    ensures forall i {:trigger ps[i]} :: 0 <= i < |ns| ==> ps[i] == InstOf(ns[i], withThreads, alloc)
  {
    if ns == [] then []
    else InstsOf(ns[..|ns| - 1], withThreads, alloc) + [InstOf(ns[|ns| - 1], withThreads, alloc)]
  }

  /** The counts a sample fills in are the lengths of what is packed. */
  lemma {:induction false} ThreadsAgree(ns: seq<ProcNode>, alloc: int -> uint64)
    ensures SysInfo.TotalThreads(InstsOf(ns, true, alloc)) == Sampling.TotalThreads(ns)
    ensures SysInfo.TotalThreads(InstsOf(ns, false, alloc)) == 0
  {
    if ns != [] {
      ThreadsAgree(ns[..|ns| - 1], alloc);
      assert InstsOf(ns, true, alloc)[..|ns| - 1] == InstsOf(ns[..|ns| - 1], true, alloc);
      assert InstsOf(ns, false, alloc)[..|ns| - 1] == InstsOf(ns[..|ns| - 1], false, alloc);
    }
  }

  /** Writing over bytes packed before. */
  method Patch(buf: array<byte>, at: nat, bytes: seq<byte>)
    requires at + |bytes| <= buf.Length
    modifies buf
    ensures buf[..] == old(buf[..at]) + bytes + old(buf[at + |bytes|..])
  {
    forall i | 0 <= i < |bytes| {
      buf[at + i] := bytes[i];
    }
  }

  method PackLoad(l: Load, buf: array<byte>, to: nat) returns (next: nat)
    requires to + 8 <= buf.Length
    modifies buf
    ensures next == to + 8 && buf[..next] == old(buf[..to]) + LoadBytes(l)
  {
    hide LE32;
    next := PutBytes(buf, to, LE32(l.pid));
    next := PutBytes(buf, next, LE32(l.load));
  }

  lemma LoadsStep(ls: seq<Load>, k: nat)
    requires k < |ls|
    ensures LoadsBytes(ls[..k + 1]) == LoadsBytes(ls[..k]) + LoadBytes(ls[k])
    ensures |LoadsBytes(ls[..k])| == 8 * k && |LoadsBytes(ls)| == 8 * |ls|
  {
    assert ls[..k + 1][..k] == ls[..k];
    LoadsLength(ls[..k]);
    LoadsLength(ls);
  }

  lemma NoLoads(ls: seq<Load>, done: seq<byte>)
    ensures LoadsBytes(ls[..0]) == [] && done == done + LoadsBytes(ls[..0])
  {
  }

  /** The loop over the threads of a process, counting them. */
  method PackThreads(list: ProcList, buf: array<byte>, to: nat) returns (next: nat, count: uint32)
    requires list.Valid() && to + 8 * |list.nodes| <= buf.Length
    modifies buf
    ensures next == to + 8 * |list.nodes| && count == U32(|list.nodes|)
    ensures buf[..next] == old(buf[..to]) + LoadsBytes(LoadsOf(list.View()))
  {
    hide Marks, ProcList.Valid, LoadsOf, LoadBytes, ConcatMap, U32;
    ghost var ls, done: seq<byte>, k := LoadsOf(list.View()), buf[..to], 0;
    First(list);
    NoLoads(ls, done);
    U32Small(0);
    next, count := to, 0;
    var t := list.head;
    while t != null
      invariant list.Valid() && k <= |ls| == |list.nodes| && ls == LoadsOf(list.View()) && t == At(list.nodes, k)
      invariant next == to + 8 * k && count == U32(k)
      invariant buf[..next] == done + LoadsBytes(ls[..k])
      decreases |ls| - k
    {
      LoadsStep(ls, k);
      assert ls[k] == LoadOf(t.View());
      Assoc(done, LoadsBytes(ls[..k]), LoadBytes(ls[k]));
      U32Inner(k, 1);
      count := U32(count + 1);
      next := PackLoad(Load(U32(t.pid), t.data.cpuLoad), buf, next);
      Next(list, k);
      t, k := t.next, k + 1;
    }
    assert ls[..k] == ls;
  }

  method PackInstHead(n: ProcNode, total: uint64, buf: array<byte>, to: nat) returns (next: nat)
    requires to + 48 <= buf.Length
    modifies buf
    ensures next == to + 48
    ensures buf[..next] == old(buf[..to]) + InstHeadBytes(Inst(LoadOf(n.View()), n.data.virMem, n.data.resMem,
                                                               n.data.shMem, n.data.pss, total, []))
  {
    hide LE32, LE64;
    ghost var done := buf[..to];
    next := PackLoad(Load(U32(n.pid), n.data.cpuLoad), buf, to);
    next := PutBytes(buf, next, LE64(n.data.virMem));
    next := PutBytes(buf, next, LE64(n.data.resMem));
    next := PutBytes(buf, next, LE64(n.data.shMem));
    next := PutBytes(buf, next, LE64(n.data.pss));
    next := PutBytes(buf, next, LE64(total));
  }

  /** The number of threads is packed as 0 first and corrected once the threads have been counted. */
  method PackCountedThreads(list: ProcList, buf: array<byte>, to: nat) returns (next: nat)
    requires list.Valid() && to + 4 + 8 * |list.nodes| <= buf.Length
    modifies buf
    ensures next == to + 4 + 8 * |list.nodes|
    ensures buf[..next] == old(buf[..to]) + LE32(U32(|list.nodes|)) + LoadsBytes(LoadsOf(list.View()))
  {
    hide *;
    ghost var done, ls: seq<byte> := buf[..to], LoadsBytes(LoadsOf(list.View()));
    next := PutBytes(buf, to, LE32(0));
    var count;
    next, count := PackThreads(list, buf, next);
    ghost var now := buf[..];
    assert now[..next] == done + LE32(0) + ls;
    Patch(buf, to, LE32(count));
    Patched(now, done, LE32(0), LE32(count), ls);
    assert buf[..next] == buf[..][..next];
  }

  lemma Patched(b: seq<byte>, done: seq<byte>, dummy: seq<byte>, count: seq<byte>, more: seq<byte>)
    requires done + dummy + more <= b && |dummy| == |count|
    ensures var patched := b[..|done|] + count + b[|done| + |count|..];
      patched[..|done + dummy + more|] == done + count + more
  {
    assert b[..|done|] == done && b[|done| + |count|..][..|more|] == more;
  }

  method PackInst(n: ProcNode, withThreads: bool, alloc: int -> uint64, buf: array<byte>, to: nat)
    returns (next: nat)
    requires n.threads.Valid() && to + |InstBytes(InstOf(n, withThreads, alloc))| <= buf.Length
    modifies buf
    ensures next == to + |InstBytes(InstOf(n, withThreads, alloc))|
    ensures buf[..next] == old(buf[..to]) + InstBytes(InstOf(n, withThreads, alloc))
  {
    hide ProcList.Valid, Marks, LE32, LE64, LoadsOf, ConcatMap, U32, LoadBytes, InstHeadBytes;
    ghost var p := InstOf(n, withThreads, alloc);
    ghost var done := buf[..to];
    LoadsLength(p.threads);
    SameHead(p);
    next := PackInstHead(n, alloc(n.pid), buf, to);
    if withThreads {
      next := PackCountedThreads(n.threads, buf, next);
    } else {
      U32Small(0);
      NoLoads(p.threads, done);
      next := PutBytes(buf, next, LE32(0));
    }
    assert buf[..next] == done + InstBytes(p);
  }

  /** The fixed part does not depend on the threads. */
  lemma SameHead(p: Inst)
    ensures InstHeadBytes(p) == InstHeadBytes(p.(threads := []))
  {
  }

  lemma TidyThreads(list: ProcList, k: nat)
    requires Tidy(list) && k < |list.nodes|
    ensures list.Valid() && list.nodes[k].threads.Valid()
  {
    assert list.nodes[k] in list.nodes;
    assert ThreadsTidy(list.nodes[k]);
  }

  /** The loop over instrumented processes is bounded by the count, not by the end of the list. */
  method PackInsts(list: ProcList, count: uint32, withThreads: bool, alloc: int -> uint64,
                   buf: array<byte>, to: nat) returns (next: nat)
    requires Tidy(list) && count == |list.nodes|
    requires to + |InstsBytes(InstsOf(list.nodes, withThreads, alloc))| <= buf.Length
    modifies buf
    ensures next == to + |InstsBytes(InstsOf(list.nodes, withThreads, alloc))|
    ensures buf[..next] == old(buf[..to]) + InstsBytes(InstsOf(list.nodes, withThreads, alloc))
  {
    hide Tidy, InstsOf, InstOf, InstBytes, ConcatMap, ProcList.Valid;
    ghost var ps, done: seq<byte> := InstsOf(list.nodes, withThreads, alloc), buf[..to];
    TidyMeans(list);
    First(list);
    NoPieces(InstBytes, done);
    assert ps[..0] == [];
    next := to;
    var proc := list.head;
    for i: nat := 0 to count
      invariant Tidy(list) && ps == InstsOf(list.nodes, withThreads, alloc) && proc == At(list.nodes, i)
      invariant next == to + |InstsBytes(ps[..i])| && next <= buf.Length
      invariant buf[..next] == done + InstsBytes(ps[..i])
    {
      TidyThreads(list, i);
      PiecesStep(InstBytes, ps, i);
      assert ps[i] == InstOf(proc, withThreads, alloc);
      Assoc(done, InstsBytes(ps[..i]), InstBytes(ps[i]));
      next := PackInst(proc, withThreads, alloc, buf, next);
      TidyMeans(list);
      Next(list, i);
      proc := proc.next;
    }
    assert ps[..count] == ps;
  }

  method PackOthers(list: ProcList, count: uint32, buf: array<byte>, to: nat) returns (next: nat)
    requires list.Valid() && count == |list.nodes| && to + 8 * |list.nodes| <= buf.Length
    modifies buf
    ensures next == to + 8 * |list.nodes|
    ensures buf[..next] == old(buf[..to]) + LoadsBytes(LoadsOf(list.View()))
  {
    hide Marks, ProcList.Valid, LoadsOf, LoadBytes, ConcatMap, U32;
    ghost var ls, done: seq<byte> := LoadsOf(list.View()), buf[..to];
    First(list);
    NoLoads(ls, done);
    next := to;
    var proc := list.head;
    for i: nat := 0 to count
      invariant list.Valid() && ls == LoadsOf(list.View()) && proc == At(list.nodes, i)
      invariant next == to + 8 * i && buf[..next] == done + LoadsBytes(ls[..i])
    {
      LoadsStep(ls, i);
      assert ls[i] == LoadOf(proc.View());
      Assoc(done, LoadsBytes(ls[..i]), LoadBytes(ls[i]));
      next := PackLoad(Load(U32(proc.pid), proc.data.cpuLoad), buf, next);
      Next(list, i);
      proc := proc.next;
    }
    assert ls[..count] == ls;
  }

  method PackWords(ws: seq<uint32>, buf: array<byte>, to: nat) returns (next: nat)
    requires to + 4 * |ws| <= buf.Length
    modifies buf
    ensures next == to + 4 * |ws| && buf[..next] == old(buf[..to]) + WordsBytes(ws)
  {
    hide LE32, ConcatMap;
    ghost var done := buf[..to];
    NoPieces(LE32, done);
    assert ws[..0] == [];
    next := to;
    for i := 0 to |ws|
      invariant next == to + 4 * i && buf[..next] == done + WordsBytes(ws[..i])
    {
      PiecesStep(LE32, ws, i);
      Assoc(done, WordsBytes(ws[..i]), LE32(ws[i]));
      next := PutBytes(buf, next, LE32(ws[i]));
    }
    assert ws[..|ws|] == ws;
  }

  // ------------------------------------------------------------------ message

  /** A float array of struct system_info_t, as the bits of its elements. */
  datatype Floats = NullFloats | Floats(bits: seq<uint32>)

  /** The words packed after the processes, in this order; three energy values per kind. */
  datatype Fields = Fields(drive: uint32, diskReads: uint32, diskBytesRead: uint32, diskWrites: uint32,
                           diskBytesWritten: uint32, netSent: uint32, netReceived: uint32,
                           wifi: uint32, bt: uint32, gps: uint32, brightness: uint32, camera: uint32,
                           sound: uint32, audio: uint32, vibration: uint32, voltage: uint32, rssi: uint32,
                           video: uint32, call: uint32, dnet: uint32,
                           energy: uint32, perDevice: seq<uint32>, appPerDevice: seq<uint32>)

  function FieldWords(f: Fields): seq<uint32> {
    [f.drive, f.diskReads, f.diskBytesRead, f.diskWrites, f.diskBytesWritten, f.netSent, f.netReceived,
     f.wifi, f.bt, f.gps, f.brightness, f.camera, f.sound, f.audio, f.vibration, f.voltage, f.rssi,
     f.video, f.call, f.dnet, f.energy] + f.perDevice + f.appPerDevice
  }

  /** The word a reader finds at each place. */
  lemma FieldsAt(f: Fields)
    requires |f.perDevice| == |f.appPerDevice| == 3
    ensures var ws := FieldWords(f);
      && |ws| == FIELDS
      && ws[0] == f.drive && ws[1] == f.diskReads && ws[2] == f.diskBytesRead && ws[3] == f.diskWrites
      && ws[4] == f.diskBytesWritten && ws[5] == f.netSent
  {
  }

  lemma FieldsBetween(f: Fields)
    requires |f.perDevice| == |f.appPerDevice| == 3
    ensures var ws := FieldWords(f);
      && |ws| == FIELDS
      && ws[6] == f.netReceived && ws[7] == f.wifi
      && ws[8] == f.bt && ws[9] == f.gps && ws[10] == f.brightness && ws[11] == f.camera && ws[12] == f.sound
  {
  }

  lemma FieldsBehind(f: Fields)
    requires |f.perDevice| == |f.appPerDevice| == 3
    ensures var ws := FieldWords(f);
      && |ws| == FIELDS
      && ws[13] == f.audio && ws[14] == f.vibration && ws[15] == f.voltage && ws[16] == f.rssi && ws[17] == f.video
      && ws[18] == f.call && ws[19] == f.dnet && ws[20] == f.energy
      && forall i :: 0 <= i < 3 ==> ws[21 + i] == f.perDevice[i] && ws[24 + i] == f.appPerDevice[i]
  {
  }

  /** struct system_info_t as far as it is packed. */
  datatype Info = Info(cpuFrequency: Floats, cpuLoad: Floats, memory: uint64, instCount: uint32,
                       otherCount: uint32, threadCount: uint32, fields: Fields)

  predicate Fits(info: Info, cpus: nat) {
    && (info.cpuFrequency.Floats? ==> |info.cpuFrequency.bits| == cpus)
    && (info.cpuLoad.Floats? ==> |info.cpuLoad.bits| == cpus)
    && |info.fields.perDevice| == |info.fields.appPerDevice| == 3
  }

  function ZeroWords(n: nat): (z: seq<uint32>)
    ensures |z| == n && forall i :: 0 <= i < n ==> z[i] == 0
  {
    seq(n, i => 0)
  }

  function FloatWords(f: Floats, cpus: nat): seq<uint32> {
    match f case NullFloats => ZeroWords(cpus) case Floats(bits) => bits
  }

  function CpuWords(features: uint64, info: Info, cpus: nat): seq<uint32> {
    if IsSet(features, FL_SYSTEM_CPU) then FloatWords(info.cpuFrequency, cpus) + FloatWords(info.cpuLoad, cpus)
    else ZeroWords(2 * cpus)
  }

  ghost function PayloadOf(features: uint64, info: Info, cpus: nat, inst: ProcList, other: ProcList,
                           alloc: int -> uint64): Payload
    reads inst, (set n | n in inst.nodes), (set n | n in inst.nodes :: n.threads)
    reads (set n, t | n in inst.nodes && t in n.threads.nodes :: t), other, (set n | n in other.nodes)
  {
    Payload(CpuWords(features, info, cpus), info.memory,
            if IsSet(features, FL_SYSTEM_PROCESS)
            then InstsOf(inst.nodes, IsSet(features, FL_SYSTEM_THREAD_LOAD), alloc) else [],
            if IsSet(features, FL_SYSTEM_PROCESSES_LOAD) then LoadsOf(other.View()) else [],
            FieldWords(info.fields))
  }

  /** msg_data_payload_length, in 32 bits. */
  method MsgDataPayloadLength(abi: Abi, cpus: nat, features: uint64, info: Info) returns (len: uint32)
    ensures len == U32(PlannedLength(abi, cpus, features, info.instCount, info.otherCount, info.threadCount))
  {
    hide U32, IsSet;
    var sum := FixedSize(abi) + 8 * cpus;
    len := U32(sum);
    if IsSet(features, FL_SYSTEM_THREAD_LOAD) {
      U32Inner(sum, info.threadCount * 8);
      len := U32(len + info.threadCount * 8);
      sum := sum + info.threadCount * 8;
    }
    if IsSet(features, FL_SYSTEM_PROCESS) {
      var size := info.instCount * InstSize(abi);
      U32Inner(sum, size);
      len := U32(len + size);
      sum := sum + size;
    }
    if IsSet(features, FL_SYSTEM_PROCESSES_LOAD) {
      U32Inner(sum, info.otherCount * 8);
      len := U32(len + info.otherCount * 8);
    }
  }

  method PackFloats(f: Floats, cpus: nat, buf: array<byte>, to: nat) returns (next: nat)
    requires (f.Floats? ==> |f.bits| == cpus) && to + 4 * cpus <= buf.Length
    modifies buf
    ensures next == to + 4 * cpus && buf[..next] == old(buf[..to]) + WordsBytes(FloatWords(f, cpus))
  {
    hide LE32, ConcatMap;
    ghost var ws, done: seq<byte> := FloatWords(f, cpus), buf[..to];
    NoPieces(LE32, done);
    assert ws[..0] == [];
    next := to;
    for i := 0 to cpus
      invariant next == to + 4 * i && buf[..next] == done + WordsBytes(ws[..i])
    {
      PiecesStep(LE32, ws, i);
      Assoc(done, WordsBytes(ws[..i]), LE32(ws[i]));
      if f.Floats? {
        next := PutBytes(buf, next, LE32(f.bits[i]));
      } else {
        next := PutBytes(buf, next, LE32(0));
      }
    }
    assert ws[..cpus] == ws;
  }

  /** Frequencies, then loads; or zeros for both, CPU by CPU. */
  method PackCpu(features: uint64, info: Info, cpus: nat, buf: array<byte>, to: nat) returns (next: nat)
    requires Fits(info, cpus) && to + 8 * cpus <= buf.Length
    modifies buf
    ensures next == to + 8 * cpus
    ensures buf[..next] == old(buf[..to]) + WordsBytes(CpuWords(features, info, cpus))
  {
    hide LE32, ConcatMap, IsSet;
    ghost var done := buf[..to];
    if IsSet(features, FL_SYSTEM_CPU) {
      ConcatMapConcat(LE32, FloatWords(info.cpuFrequency, cpus), FloatWords(info.cpuLoad, cpus));
      next := PackFloats(info.cpuFrequency, cpus, buf, to);
      next := PackFloats(info.cpuLoad, cpus, buf, next);
      Assoc(done, WordsBytes(FloatWords(info.cpuFrequency, cpus)), WordsBytes(FloatWords(info.cpuLoad, cpus)));
    } else {
      next := PackZeros(cpus, buf, to);
    }
  }

  method PackZeros(cpus: nat, buf: array<byte>, to: nat) returns (next: nat)
    requires to + 8 * cpus <= buf.Length
    modifies buf
    ensures next == to + 8 * cpus && buf[..next] == old(buf[..to]) + WordsBytes(ZeroWords(2 * cpus))
  {
    hide LE32, ConcatMap;
    ghost var ws, done: seq<byte> := ZeroWords(2 * cpus), buf[..to];
    NoPieces(LE32, done);
    assert ws[..0] == [];
    next := to;
    for i := 0 to cpus
      invariant next == to + 8 * i && buf[..next] == done + WordsBytes(ws[..2 * i])
    {
      PiecesStep(LE32, ws, 2 * i);
      PiecesStep(LE32, ws, 2 * i + 1);
      next := PutBytes(buf, next, LE32(0));
      next := PutBytes(buf, next, LE32(0));
      Assoc(done, WordsBytes(ws[..2 * i]), LE32(0));
      Assoc(done, WordsBytes(ws[..2 * i + 1]), LE32(0));
    }
    assert ws[..2 * cpus] == ws;
  }

  /** What the counts promise about the lists when the features ask for them. */
  ghost predicate Counted(features: uint64, info: Info, inst: ProcList, other: ProcList)
    reads inst, (set n | n in inst.nodes :: n.threads), other
  {
    && (IsSet(features, FL_SYSTEM_PROCESS) ==> info.instCount == |inst.nodes|)
    && (IsSet(features, FL_SYSTEM_PROCESS) && IsSet(features, FL_SYSTEM_THREAD_LOAD) ==>
          info.threadCount == Sampling.TotalThreads(inst.nodes))
    && (IsSet(features, FL_SYSTEM_PROCESSES_LOAD) ==> info.otherCount == |other.nodes|)
  }

  /** However many processes, threads and CPUs there are and whatever is asked for, what is packed
      is shorter than the length computed beforehand by more than the 256 spare bytes. */
  lemma PlannedIsEnough(abi: Abi, features: uint64, info: Info, cpus: nat, inst: ProcList, other: ProcList,
                        alloc: int -> uint64)
    requires Fits(info, cpus) && Counted(features, info, inst, other)
    ensures |PayloadBytes(PayloadOf(features, info, cpus, inst, other, alloc))|
         < PlannedLength(abi, cpus, features, info.instCount, info.otherCount, info.threadCount)
  {
    hide *;
    var p := Parts(features, info, cpus, inst, other, alloc);
    PayloadLength(p);
    Amounts(features, info, cpus, inst, other, alloc, p);
    Enough(abi, cpus, features, info.instCount, info.otherCount, info.threadCount,
           |p.insts|, SysInfo.TotalThreads(p.insts), |p.others|);
  }

  lemma Amounts(features: uint64, info: Info, cpus: nat, inst: ProcList, other: ProcList,
                alloc: int -> uint64, p: Payload)
    requires p == PayloadOf(features, info, cpus, inst, other, alloc)
    requires Counted(features, info, inst, other)
    ensures |p.insts| == if IsSet(features, FL_SYSTEM_PROCESS) then info.instCount as int else 0
    ensures SysInfo.TotalThreads(p.insts)
         <= if IsSet(features, FL_SYSTEM_THREAD_LOAD) then info.threadCount as int else 0
    ensures |p.others| == if IsSet(features, FL_SYSTEM_PROCESSES_LOAD) then info.otherCount as int else 0
  {
    hide IsSet, InstsOf, LoadsOf, CpuWords, FieldWords;
    ThreadsAgree(inst.nodes, alloc);
    NoInsts();
  }

  lemma Enough(abi: Abi, cpus: nat, features: uint64, insts: nat, others: nat, threads: nat,
               i: nat, t: nat, o: nat)
    requires i == if IsSet(features, FL_SYSTEM_PROCESS) then insts else 0
    requires t <= if IsSet(features, FL_SYSTEM_THREAD_LOAD) then threads else 0
    requires o == if IsSet(features, FL_SYSTEM_PROCESSES_LOAD) then others else 0
    ensures 8 * cpus + 16 + 52 * i + 8 * t + 8 * o + 4 * FIELDS
         < PlannedLength(abi, cpus, features, insts, others, threads)
  {
    hide IsSet;
  }

  lemma NoInsts()
    ensures SysInfo.TotalThreads([]) == 0
  {
  }

  method PackInstSection(features: uint64, info: Info, inst: ProcList, alloc: int -> uint64, buf: array<byte>,
                         to: nat, ghost ps: seq<Inst>) returns (next: nat)
    requires Tidy(inst) && to + 4 + |InstsBytes(ps)| <= buf.Length && |ps| == U32(|ps|)
    requires IsSet(features, FL_SYSTEM_PROCESS) ==>
      && info.instCount == |inst.nodes|
      && ps == InstsOf(inst.nodes, IsSet(features, FL_SYSTEM_THREAD_LOAD), alloc)
    requires !IsSet(features, FL_SYSTEM_PROCESS) ==> ps == []
    modifies buf
    ensures next == to + 4 + |InstsBytes(ps)|
    ensures buf[..next] == old(buf[..to]) + LE32(U32(|ps|)) + InstsBytes(ps)
  {
    hide Tidy, IsSet, InstsOf, ConcatMap, LE32, U32;
    if IsSet(features, FL_SYSTEM_PROCESS) {
      next := PutBytes(buf, to, LE32(info.instCount));
      next := PackInsts(inst, info.instCount, IsSet(features, FL_SYSTEM_THREAD_LOAD), alloc, buf, next);
    } else {
      next := PutBytes(buf, to, LE32(0));
      NoPieces(InstBytes, buf[..next]);
    }
  }

  method PackOtherSection(features: uint64, info: Info, other: ProcList, buf: array<byte>,
                          to: nat, ghost ls: seq<Load>) returns (next: nat)
    requires other.Valid() && to + 4 + 8 * |ls| <= buf.Length && |ls| == U32(|ls|)
    requires IsSet(features, FL_SYSTEM_PROCESSES_LOAD) ==>
      info.otherCount == |other.nodes| && ls == LoadsOf(other.View())
    requires !IsSet(features, FL_SYSTEM_PROCESSES_LOAD) ==> ls == []
    modifies buf
    ensures next == to + 4 + 8 * |ls|
    ensures buf[..next] == old(buf[..to]) + LE32(U32(|ls|)) + LoadsBytes(ls)
  {
    hide ProcList.Valid, Marks, IsSet, LoadsOf, ConcatMap, LE32, U32;
    if IsSet(features, FL_SYSTEM_PROCESSES_LOAD) {
      next := PutBytes(buf, to, LE32(info.otherCount));
      next := PackOthers(other, info.otherCount, buf, next);
    } else {
      next := PutBytes(buf, to, LE32(0));
      NoPieces(LoadBytes, buf[..next]);
    }
  }

  /** pack_system_info: nothing is written behind the end, the walk stays on the lists, and the
      message begins with the payload; what follows it is whatever malloc left there. */
  method PackSystemInfo(abi: Abi, features: uint64, info: Info, cpus: nat, inst: ProcList, other: ProcList,
                        alloc: int -> uint64) returns (payload: array<byte>, ghost used: nat)
    requires Tidy(inst) && other.Valid() && Fits(info, cpus) && Counted(features, info, inst, other)
    requires PlannedLength(abi, cpus, features, info.instCount, info.otherCount, info.threadCount) + 0x100
           < 0x8000_0000
    ensures fresh(payload)
    ensures payload.Length
         == PlannedLength(abi, cpus, features, info.instCount, info.otherCount, info.threadCount) + 0x100
    ensures used <= payload.Length
    ensures payload[..used] == PayloadBytes(PayloadOf(features, info, cpus, inst, other, alloc))
  {
    hide *;
    ghost var p := Parts(features, info, cpus, inst, other, alloc);
    PlannedIsEnough(abi, features, info, cpus, inst, other, alloc);
    PartLengths(p, cpus);
    var len: int := MsgDataPayloadLength(abi, cpus, features, info);
    U32Small(PlannedLength(abi, cpus, features, info.instCount, info.otherCount, info.threadCount));
    payload := new byte[len + 0x100];
    used := PackPayload(features, info, cpus, inst, other, alloc, payload, p);
  }

  /** The packing itself, into a buffer that is large enough. */
  method PackPayload(features: uint64, info: Info, cpus: nat, inst: ProcList, other: ProcList,
                     alloc: int -> uint64, payload: array<byte>, ghost p: Payload) returns (next: nat)
    requires Tidy(inst) && other.Valid() && Fits(info, cpus) && Counted(features, info, inst, other)
    requires p == PayloadOf(features, info, cpus, inst, other, alloc)
    requires 8 * cpus + 16 + |InstsBytes(p.insts)| + 8 * |p.others| + 4 * FIELDS <= payload.Length < 0x8000_0000
    modifies payload
    ensures next <= payload.Length && payload[..next] == PayloadBytes(p)
  {
    hide *;
    SectionLengths(features, info, cpus, inst, other, alloc, p);
    assert payload[..0] == [];
    next := PackCpu(features, info, cpus, payload, 0);
    next := PutBytes(payload, next, LE64(info.memory));
    next := PackInstSection(features, info, inst, alloc, payload, next, p.insts);
    next := PackOtherSection(features, info, other, payload, next, p.others);
    next := PackWords(FieldWords(info.fields), payload, next);
    PayloadInOrder(p, payload[..next]);
  }

  lemma SectionLengths(features: uint64, info: Info, cpus: nat, inst: ProcList, other: ProcList,
                       alloc: int -> uint64, p: Payload)
    requires Fits(info, cpus) && Counted(features, info, inst, other)
    requires p == PayloadOf(features, info, cpus, inst, other, alloc)
    requires |InstsBytes(p.insts)| + 8 * |p.others| < 0x8000_0000
    ensures |p.insts| == U32(|p.insts|) && |p.others| == U32(|p.others|)
    ensures p.cpu == CpuWords(features, info, cpus) && p.memory == info.memory
    ensures p.fields == FieldWords(info.fields) && |p.fields| == FIELDS == 27
    ensures IsSet(features, FL_SYSTEM_PROCESS) ==>
      && info.instCount == |inst.nodes|
      && p.insts == InstsOf(inst.nodes, IsSet(features, FL_SYSTEM_THREAD_LOAD), alloc)
    ensures !IsSet(features, FL_SYSTEM_PROCESS) ==> p.insts == []
    ensures IsSet(features, FL_SYSTEM_PROCESSES_LOAD) ==>
      info.otherCount == |other.nodes| && p.others == LoadsOf(other.View())
    ensures !IsSet(features, FL_SYSTEM_PROCESSES_LOAD) ==> p.others == []
  {
    hide IsSet, InstsOf, LoadsOf;
    InstsLength(p.insts);
  }

  lemma PayloadInOrder(p: Payload, b: seq<byte>)
    requires b == [] + WordsBytes(p.cpu) + LE64(p.memory) + LE32(U32(|p.insts|)) + InstsBytes(p.insts)
               + LE32(U32(|p.others|)) + LoadsBytes(p.others) + WordsBytes(p.fields)
    ensures b == PayloadBytes(p)
  {
    hide ConcatMap, LE32, LE64, U32;
  }

  lemma Parts(features: uint64, info: Info, cpus: nat, inst: ProcList, other: ProcList, alloc: int -> uint64)
    returns (p: Payload)
    requires Fits(info, cpus)
    ensures p == PayloadOf(features, info, cpus, inst, other, alloc)
    ensures |p.cpu| == 2 * cpus && |p.fields| == FIELDS
  {
    p := PayloadOf(features, info, cpus, inst, other, alloc);
  }

  lemma PartLengths(p: Payload, cpus: nat)
    requires |p.cpu| == 2 * cpus && |p.fields| == FIELDS
    ensures |PayloadBytes(p)| == 8 * cpus + 16 + |InstsBytes(p.insts)| + 8 * |p.others| + 4 * FIELDS
  {
    hide ConcatMap;
    PayloadLength(p);
    InstsLength(p.insts);
  }

  /** A reader of a packed message gets back the CPU values, the processes with their threads and
      the remaining words, and nothing else. */
  lemma PackedDecodes(features: uint64, info: Info, cpus: nat, inst: ProcList, other: ProcList,
                      alloc: int -> uint64, b: seq<byte>)
    requires Fits(info, cpus) && |b| < WORD32
    requires PayloadBytes(PayloadOf(features, info, cpus, inst, other, alloc)) <= b
    ensures var p := PayloadOf(features, info, cpus, inst, other, alloc);
      GetPayload(cpus, b) == Wire.Done(p, b[|PayloadBytes(p)|..])
  {
    hide *;
    var p := Parts(features, info, cpus, inst, other, alloc);
    var n := |PayloadBytes(p)|;
    assert b == b[..n] + b[n..] && b[..n] == PayloadBytes(p);
    PayloadDecodes(p, cpus, b[n..]);
  }

  /** The counts a successful sample filled in are those the serializer relies on. */
  lemma SampleCounts(features: uint64, info: Info, stat: SysStat)
    requires info.instCount == U32(|stat.inst.nodes|) && info.otherCount == U32(|stat.other.nodes|)
    requires info.threadCount == U32(Sampling.TotalThreads(stat.inst.nodes))
    ensures Counted(features, info, stat.inst, stat.other) <==>
      && (IsSet(features, FL_SYSTEM_PROCESS) ==> |stat.inst.nodes| < WORD32)
      && (IsSet(features, FL_SYSTEM_PROCESS) && IsSet(features, FL_SYSTEM_THREAD_LOAD) ==>
            Sampling.TotalThreads(stat.inst.nodes) < WORD32)
      && (IsSet(features, FL_SYSTEM_PROCESSES_LOAD) ==> |stat.other.nodes| < WORD32)
  {
  }
}