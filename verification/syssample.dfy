// A whole sample of the sampling thread: get_system_info and pack_system_info together
// (daemon/threads.c:257-292, daemon/sys_stat.c:1881-2066, 2241-2371).

module SysSample {
  import opened Words
  import opened ProcSpec
  import opened Procs
  import opened Sampling
  import opened Ticks
  import opened SysInfo
  import opened SysPack

  /** Whether the configuration asks for anything that needs the process lists. */
  predicate Wanted(features: uint64) {
    IsSet(features, FL_SYSTEM_CPU) || IsSet(features, FL_SYSTEM_PROCESS) || IsSet(features, FL_SYSTEM_PROCESSES_LOAD)
    || IsSet(features, FL_SYSTEM_THREAD_LOAD) || IsSet(features, FL_SYSTEM_MEMORY)
  }

  /** None of five neighbouring bits is set. */
  lemma WantedWhen(features: uint64)
    ensures Wanted(features) <==> features / 0x10_0000_0000 % 32 != 0
  {
    var q := features / 0x10_0000_0000;
    assert features / 0x20_0000_0000 == q / 2 && features / 0x40_0000_0000 == q / 4;
    assert features / 0x80_0000_0000 == q / 8 && features / 0x100_0000_0000 == q / 16;
    FiveBits(q);
  }

  lemma Remainder(q: nat, n: nat, r: nat)
    requires q == 32 * n + r && r < 32
    ensures q % 32 == r
  {
  }

  lemma FiveBits(q: nat)
    ensures q % 32 == q % 2 + 2 * (q / 2 % 2) + 4 * (q / 4 % 2) + 8 * (q / 8 % 2) + 16 * (q / 16 % 2)
  {
    var q1, q2 := q / 2, q / 2 / 2;
    var q3, q4 := q2 / 2, q2 / 2 / 2;
    assert q / 4 == q2 && q / 8 == q3 && q / 16 == q4;
    assert q == 2 * q1 + q % 2 && q1 == 2 * q2 + q1 % 2 && q2 == 2 * q3 + q2 % 2 && q3 == 2 * q4 + q3 % 2;
    Remainder(q, q4 / 2, q % 2 + 2 * (q1 % 2) + 4 * (q2 % 2) + 8 * (q3 % 2) + 16 * (q4 % 2));
  }

  // ----------------------------------------------- how long the lists can be

  ghost function PidSet(v: seq<Mark>): set<int> {
    set i | 0 <= i < |v| :: v[i].pid
  }

  lemma {:induction false} UniqueSize(v: seq<Mark>)
    requires Unique(v)
    ensures |PidSet(v)| == |v|
  {
    if v != [] {
      var n := |v| - 1;
      UniqueSize(v[..n]);
      assert PidSet(v) == PidSet(v[..n]) + {v[n].pid};
      assert v[n].pid !in PidSet(v[..n]);
    }
  }

  lemma {:induction false} SetOfSeq(ids: seq<int>)
    ensures |set q | q in ids| <= |ids|
  {
    if ids != [] {
      var n := |ids| - 1;
      SetOfSeq(ids[..n]);
      assert (set q | q in ids) == (set q | q in ids[..n]) + {ids[n]};
    }
  }

  /** A list without duplicates is no longer than the pids it is taken from. */
  lemma UniqueWithin(v: seq<Mark>, ids: seq<int>)
    requires Unique(v) && forall q :: Has(v, q) ==> q in ids
    ensures |v| <= |ids|
  {
    hide Unique;
    UniqueSize(v);
    SetOfSeq(ids);
    forall q | q in PidSet(v)
      ensures q in ids
    {
      assert Has(v, q);
    }
    var all := set q | q in ids;
    assert all == PidSet(v) + (all - PidSet(v));
  }

  lemma {:induction false} LiveIsNamed(pids: seq<int>, seen: seq<Seen>, q: int)
    requires |pids| == |seen| && Live(pids, seen, q)
    ensures q in pids
  {
    var n := |pids| - 1;
    if !(q != 0 && pids[n] == q) {
      LiveIsNamed(pids[..n], seen[..n], q);
    }
  }

  lemma LiveWithin(v: seq<Mark>, pids: seq<int>, seen: seq<Seen>)
    requires |pids| == |seen| && Unique(v) && forall q :: Has(v, q) ==> Live(pids, seen, q)
    ensures |v| <= |pids|
  {
    hide Unique, Has, Live;
    forall q | Has(v, q)
      ensures q in pids
    {
      LiveIsNamed(pids, seen, q);
    }
    UniqueWithin(v, pids);
  }

  /** The most tasks a task directory shows. */
  function MostTasks(ts: seq<Tasks>): (m: nat)
    ensures forall t :: t in ts && t.TaskDir? ==> |t.tids| <= m
  {
    if ts == [] then 0
    else
      var m, t := MostTasks(ts[1..]), ts[0];
      if t.TaskDir? && |t.tids| > m then |t.tids| else m
  }

  lemma {:induction false} ThreadsWithin(ns: seq<ProcNode>, m: nat)
    requires forall n :: n in ns ==> |n.threads.nodes| <= m
    ensures Sampling.TotalThreads(ns) <= Times(|ns|, m)
  {
    if ns != [] {
      TimesNext(|ns| - 1, m);
      ThreadsWithin(ns[..|ns| - 1], m);
    }
  }

  /** What a sample leaves is no longer than what it was shown. */
  lemma CountsWithin(stat: SysStat, e: Env)
    requires stat.Valid() && Consistent(e)
    requires Holds(stat.inst, e.pids, e.smaps) && Holds(stat.other, e.others, e.otherStat)
    requires ThreadsScanned(stat.inst, e.pids, e.tasks)
    ensures |stat.inst.nodes| <= |e.pids| && |stat.other.nodes| <= |e.others|
    ensures Sampling.TotalThreads(stat.inst.nodes) <= Times(|stat.inst.nodes|, MostTasks(e.tasks))
  {
    hide Unique, Has, Live, NoneFound, ProcList.Valid, Marks;
    LiveWithin(stat.inst.View(), e.pids, e.smaps);
    LiveWithin(stat.other.View(), e.others, e.otherStat);
    forall n | n in stat.inst.nodes
      ensures |n.threads.nodes| <= MostTasks(e.tasks)
    {
      ThreadCount(stat.inst, n, e);
    }
    ThreadsWithin(stat.inst.nodes, MostTasks(e.tasks));
  }

  lemma ThreadCount(list: ProcList, n: ProcNode, e: Env)
    requires Tidy(list) && Consistent(e) && n in list.nodes && Holds(list, e.pids, e.smaps)
    requires ThreadsScanned(list, e.pids, e.tasks)
    ensures |n.threads.nodes| <= MostTasks(e.tasks)
  {
    hide Unique, Live, NoneFound, ProcList.Valid, Marks;
    ListedHas(list, n);
    LiveIsNamed(e.pids, e.smaps, n.pid);
    var t := e.tasks[LastScan(e.pids, n.pid)];
    LiveWithin(n.threads.View(), t.tids, t.seen);
  }

  // ------------------------------------------------------------- one sample

  /** The longest message a sample can plan. */
  function LongestPlan(abi: Abi, cpus: nat, features: uint64, e: Env): nat {
    PlannedLength(abi, cpus, features, |e.pids|, |e.others|, Times(|e.pids|, MostTasks(e.tasks)))
  }

  /** The counts of a sample are right, and what is planned for them is no longer than that. */
  lemma SampleFits(stat: SysStat, e: Env, features: uint64, info: Info, cpus: nat, abi: Abi)
    requires stat.Valid() && Consistent(e) && e.wanted == Wanted(features)
    requires LongestPlan(abi, cpus, features, e) + 0x100 < 0x8000_0000
    requires e.wanted ==>
      && Holds(stat.inst, e.pids, e.smaps) && Holds(stat.other, e.others, e.otherStat)
      && ThreadsScanned(stat.inst, e.pids, e.tasks)
      && info.instCount == U32(|stat.inst.nodes|) && info.otherCount == U32(|stat.other.nodes|)
      && info.threadCount == U32(Sampling.TotalThreads(stat.inst.nodes))
    requires !e.wanted ==> info.instCount == info.otherCount == info.threadCount == 0
    ensures Tidy(stat.inst) && stat.other.Valid() && SysPack.Counted(features, info, stat.inst, stat.other)
    ensures PlannedLength(abi, cpus, features, info.instCount, info.otherCount, info.threadCount) + 0x100
          < 0x8000_0000
  {
    hide Unique, Has, Live, NoneFound, ProcList.Valid, Marks, IsSet, ThreadsAre, Times;
    var m := MostTasks(e.tasks);
    if e.wanted {
      CountsWithin(stat, e);
      TimesGrows(|stat.inst.nodes|, |e.pids|, m);
      SampleCounts(features, info, stat);
      NoMore(|stat.inst.nodes|, |e.pids|);
      NoMore(|stat.other.nodes|, |e.others|);
      NoMore(Sampling.TotalThreads(stat.inst.nodes), Times(|e.pids|, m));
    }
  }

  lemma NoMore(x: nat, y: nat)
    requires x <= y
    ensures U32(x) <= y && (y < WORD32 ==> U32(x) == x)
  {
  }

  /** get_system_info, then pack_system_info: what is sent is the payload of the lists as the sample left
      them, packed with its own counts. */
  method SampleAndPack(stat: SysStat, e: Env, features: uint64, base: Info, sysMem: uint64, cpus: nat, abi: Abi,
                       alloc: int -> uint64)
    returns (payload: array?<byte>, ghost used: nat)
    requires stat.Valid() && Consistent(e) && e.wanted == Wanted(features) && Fits(base, cpus)
    requires LongestPlan(abi, cpus, features, e) + 0x100 < 0x8000_0000
    modifies Own(stat)
    ensures stat.Valid() && (payload != null <==> (e.wanted ==> Succeeds(e)))
    ensures payload != null ==> fresh(payload) && used <= payload.Length
    ensures payload != null ==>
      payload[..used] == PayloadBytes(PayloadOf(features, WithMemory(features, base, sysMem), cpus,
                                                stat.inst, stat.other, alloc))
    ensures payload != null && e.wanted ==>
      && Holds(stat.inst, e.pids, e.smaps) && Holds(stat.other, e.others, e.otherStat)
      && ThreadsScanned(stat.inst, e.pids, e.tasks)
    ensures SameData(Visited(old(stat.inst.View()), InstVisit(e)), stat.inst.View())
    ensures stat.other.View() == Visited(old(stat.other.View()), OtherVisit(e))
  {
    hide SysStat.Valid, ThreadsAre, Has, Live, Unique, SameData, Visited, OtherVisit, InstVisit, InstLooks, Passed,
      ThreadsLeft, Succeeds, Sampling.TotalThreads, ProcList.View;
    var ok, instCount, otherCount, threadCount := stat.Sample(e);
    payload, used := null, 0;
    if ok {
      var info := WithMemory(features, base, sysMem).(instCount := instCount, otherCount := otherCount,
                                                      threadCount := threadCount);
      payload, used := PackSample(stat, e, features, info, cpus, abi, alloc);
    }
  }

  /** The memory in use is filled in only if it is asked for. */
  function WithMemory(features: uint64, info: Info, sysMem: uint64): Info {
    info.(memory := if IsSet(features, FL_SYSTEM_MEMORY) then sysMem else 0)
  }

  method PackSample(stat: SysStat, e: Env, features: uint64, info: Info, cpus: nat, abi: Abi, alloc: int -> uint64)
    returns (payload: array<byte>, ghost used: nat)
    requires stat.Valid() && Consistent(e) && e.wanted == Wanted(features) && Fits(info, cpus)
    requires LongestPlan(abi, cpus, features, e) + 0x100 < 0x8000_0000
    requires e.wanted ==>
      && Holds(stat.inst, e.pids, e.smaps) && Holds(stat.other, e.others, e.otherStat)
      && ThreadsScanned(stat.inst, e.pids, e.tasks)
      && info.instCount == U32(|stat.inst.nodes|) && info.otherCount == U32(|stat.other.nodes|)
      && info.threadCount == U32(Sampling.TotalThreads(stat.inst.nodes))
    requires !e.wanted ==> info.instCount == info.otherCount == info.threadCount == 0
    ensures fresh(payload) && used <= payload.Length
    ensures payload[..used] == PayloadBytes(PayloadOf(features, info, cpus, stat.inst, stat.other, alloc))
  {
    hide *;
    SampleFits(stat, e, features, info, cpus, abi);
    payload, used := PackSystemInfo(abi, features, info, cpus, stat.inst, stat.other, alloc);
  }

  /** Its reader finds each accessible instrumented process once, if they are asked for. */
  lemma ReaderSees(stat: SysStat, e: Env, features: uint64, info: Info, cpus: nat, alloc: int -> uint64, b: seq<byte>)
    requires stat.Valid() && Consistent(e) && Holds(stat.inst, e.pids, e.smaps)
    requires Fits(info, cpus) && |b| < WORD32 && IsSet(features, FL_SYSTEM_PROCESS)
    requires forall q :: q in e.pids ==> 0 <= q < WORD32
    requires PayloadBytes(PayloadOf(features, info, cpus, stat.inst, stat.other, alloc)) <= b
    ensures GetPayload(cpus, b).Done?
    ensures var ps := GetPayload(cpus, b).value.insts;
      && (forall i, j :: 0 <= i < j < |ps| ==> ps[i].id.pid != ps[j].id.pid)
      && (forall i :: 0 <= i < |ps| ==> Live(e.pids, e.smaps, ps[i].id.pid))
      && (forall q :: Live(e.pids, e.smaps, q) ==> exists i :: 0 <= i < |ps| && ps[i].id.pid == q)
  {
    hide PayloadBytes, GetPayload, IsSet, Live;
    PackedDecodes(features, info, cpus, stat.inst, stat.other, alloc, b);
    var v, ps := stat.inst.View(), GetPayload(cpus, b).value.insts;
    forall i | 0 <= i < |v|
      ensures ps[i].id.pid == v[i].pid && Live(e.pids, e.smaps, v[i].pid)
    {
      assert Has(v, v[i].pid);
      LiveIsNamed(e.pids, e.smaps, v[i].pid);
    }
  }

  /** The pids of these loads are those accessible, each once. */
  ghost predicate Lists(ls: seq<Load>, pids: seq<int>, seen: seq<Seen>)
    requires |pids| == |seen|
  {
    && (forall i, j :: 0 <= i < j < |ls| ==> ls[i].pid != ls[j].pid)
    && (forall i :: 0 <= i < |ls| ==> Live(pids, seen, ls[i].pid))
    && (forall q :: Live(pids, seen, q) ==> exists i :: 0 <= i < |ls| && ls[i].pid == q)
  }

  lemma LoadsList(v: seq<Mark>, pids: seq<int>, seen: seq<Seen>)
    requires |pids| == |seen| && Unique(v) && (forall q :: Has(v, q) <==> Live(pids, seen, q))
    requires forall q :: q in pids ==> 0 <= q < WORD32
    ensures Lists(LoadsOf(v), pids, seen)
  {
    hide Live, LoadsOf;
    var ls := LoadsOf(v);
    forall i | 0 <= i < |v|
      ensures ls[i].pid == v[i].pid && Live(pids, seen, v[i].pid)
    {
      assert Has(v, v[i].pid);
      LiveIsNamed(pids, seen, v[i].pid);
    }
  }

  /** It finds each other process that is accessible once, if they are asked for. */
  lemma ReaderSeesOthers(stat: SysStat, e: Env, features: uint64, info: Info, cpus: nat, alloc: int -> uint64,
                         b: seq<byte>)
    requires stat.Valid() && Consistent(e) && Holds(stat.other, e.others, e.otherStat)
    requires Fits(info, cpus) && |b| < WORD32 && IsSet(features, FL_SYSTEM_PROCESSES_LOAD)
    requires forall q :: q in e.others ==> 0 <= q < WORD32
    requires PayloadBytes(PayloadOf(features, info, cpus, stat.inst, stat.other, alloc)) <= b
    ensures GetPayload(cpus, b).Done?
    ensures Lists(GetPayload(cpus, b).value.others, e.others, e.otherStat)
  {
    hide PayloadBytes, GetPayload, IsSet, Live, Lists, LoadsOf, InstsOf, Has, Unique;
    PackedDecodes(features, info, cpus, stat.inst, stat.other, alloc, b);
    OthersUnique(stat);
    LoadsList(stat.other.View(), e.others, e.otherStat);
  }

  lemma OthersUnique(stat: SysStat)
    requires stat.Valid()
    ensures Unique(stat.other.View())
  {
  }

  /** With thread loads asked for, it finds with every process each of its accessible threads once. */
  lemma ReaderSeesThreads(stat: SysStat, e: Env, features: uint64, info: Info, cpus: nat, alloc: int -> uint64,
                          b: seq<byte>)
    requires stat.Valid() && Consistent(e) && Holds(stat.inst, e.pids, e.smaps)
    requires ThreadsScanned(stat.inst, e.pids, e.tasks)
    requires Fits(info, cpus) && |b| < WORD32
    requires IsSet(features, FL_SYSTEM_PROCESS) && IsSet(features, FL_SYSTEM_THREAD_LOAD)
    requires forall q :: q in e.pids ==> 0 <= q < WORD32
    requires forall t, q :: t in e.tasks && t.TaskDir? && q in t.tids ==> 0 <= q < WORD32
    requires PayloadBytes(PayloadOf(features, info, cpus, stat.inst, stat.other, alloc)) <= b
    ensures GetPayload(cpus, b).Done?
    ensures forall p :: p in GetPayload(cpus, b).value.insts ==>
      var k := LastScan(e.pids, p.id.pid);
      k < |e.tasks| && Possible(e.tasks[k]) && e.tasks[k].TaskDir? && Lists(p.threads, e.tasks[k].tids, e.tasks[k].seen)
  {
    hide PayloadBytes, GetPayload, IsSet, Live, Lists, Has, LoadsOf, InstsOf, Holds, Unique, SysStat.Valid;
    PackedDecodes(features, info, cpus, stat.inst, stat.other, alloc, b);
    var ps, ns := GetPayload(cpus, b).value.insts, stat.inst.nodes;
    forall i | 0 <= i < |ps|
      ensures var k := LastScan(e.pids, ps[i].id.pid);
        && k < |e.tasks| && Possible(e.tasks[k]) && e.tasks[k].TaskDir?
        && Lists(ps[i].threads, e.tasks[k].tids, e.tasks[k].seen)
    {
      ListedThreads(stat, e, ns[i]);
    }
  }

  lemma ListedThreads(stat: SysStat, e: Env, n: ProcNode)
    requires stat.Valid() && Consistent(e) && Holds(stat.inst, e.pids, e.smaps) && n in stat.inst.nodes
    requires ThreadsScanned(stat.inst, e.pids, e.tasks) && forall q :: q in e.pids ==> 0 <= q < WORD32
    requires forall t, q :: t in e.tasks && t.TaskDir? && q in t.tids ==> 0 <= q < WORD32
    ensures var k := LastScan(e.pids, n.pid);
      && U32(n.pid) == n.pid && k < |e.tasks| && Possible(e.tasks[k]) && e.tasks[k].TaskDir?
      && Lists(LoadsOf(n.threads.View()), e.tasks[k].tids, e.tasks[k].seen)
  {
    hide Live, Lists, LoadsOf, NoneFound, ProcList.Valid, Marks;
    ListedHas(stat.inst, n);
    LiveIsNamed(e.pids, e.smaps, n.pid);
    var t := e.tasks[LastScan(e.pids, n.pid)];
    LoadsList(n.threads.View(), t.tids, t.seen);
  }

  /** It finds the memory in use if that is asked for, frequencies and then loads of the CPUs if those are, with
      zeros for what could not be read, and the remaining values. */
  lemma ReaderSeesSystem(stat: SysStat, features: uint64, base: Info, sysMem: uint64, cpus: nat, alloc: int -> uint64,
                         b: seq<byte>)
    requires Fits(base, cpus) && |b| < WORD32
    requires PayloadBytes(PayloadOf(features, WithMemory(features, base, sysMem), cpus, stat.inst, stat.other, alloc))
          <= b
    ensures GetPayload(cpus, b).Done?
    ensures var p := GetPayload(cpus, b).value;
      && p.memory == (if IsSet(features, FL_SYSTEM_MEMORY) then sysMem else 0)
      && |p.cpu| == 2 * cpus && p.fields == FieldWords(base.fields)
      && forall i :: 0 <= i < cpus ==>
           var asked := IsSet(features, FL_SYSTEM_CPU);
           && p.cpu[i] == (if asked && base.cpuFrequency.Floats? then base.cpuFrequency.bits[i] else 0)
           && p.cpu[cpus + i] == (if asked && base.cpuLoad.Floats? then base.cpuLoad.bits[i] else 0)
  {
    hide PayloadBytes, GetPayload, IsSet, InstsOf, LoadsOf, FieldWords;
    PackedDecodes(features, WithMemory(features, base, sysMem), cpus, stat.inst, stat.other, alloc, b);
  }

  /** What is sent about a process that a sample names at j: the sizes its stat file showed, those its smaps
      file showed, its allocations, and the load of the ticks that count. */
  predicate Measured(p: Inst, q: int, e: Env, j: nat, was: seq<Mark>, alloc: int -> uint64)
    requires Consistent(e) && ReadAt(InstVisit(e), q, j) && j < |e.pids|
  {
    && e.stat[j].Read? && p.virMem == e.stat[j].data.virMem && p.resMem == e.stat[j].data.resMem
    && e.smaps[j].Read? && p.shMem == e.smaps[j].data.shMem && p.pss == e.smaps[j].data.pss
    && p.alloc == alloc(q)
    && (Seek(was, q) < |was| || e.stat[j].ret >= 0 ==> p.id.load == e.load(Ticks.Counted(was, InstVisit(e), q, j)))
  }

  /** What the list holds of such a process. */
  lemma ListedData(v: seq<Mark>, e: Env, q: int, j: nat, was: seq<Mark>)
    requires Consistent(e) && e.wanted && Succeeds(e) && Unique(was) && ReadAt(InstVisit(e), q, j)
    requires SameData(Visited(was, InstVisit(e)), v)
    ensures Seek(v, q) < |v| && j < |e.pids| && e.stat[j].Read? && e.smaps[j].Read?
    ensures var d := DataOf(v, q);
      && d.virMem == e.stat[j].data.virMem && d.resMem == e.stat[j].data.resMem
      && d.shMem == e.smaps[j].data.shMem && d.pss == e.smaps[j].data.pss
      && (Seek(was, q) < |was| || e.stat[j].ret >= 0 ==> d.cpuLoad == e.load(Ticks.Counted(was, InstVisit(e), q, j)))
  {
    hide Unique, Has, Passed, Visited, Seek, Ticks.Counted;
    var s := InstVisit(e);
    VisitMemory(was, s, q, j);
    if Seek(was, q) < |was| || e.stat[j].ret >= 0 {
      VisitTicks(was, s, q, j);
    }
    SameDataOf(Visited(was, s), v, q);
  }

  lemma ListedRecord(stat: SysStat, e: Env, i: nat, j: nat, was: seq<Mark>, withThreads: bool, alloc: int -> uint64)
    requires stat.Valid() && Consistent(e) && e.wanted && Succeeds(e) && Unique(was) && i < |stat.inst.nodes|
    requires SameData(Visited(was, InstVisit(e)), stat.inst.View()) && ReadAt(InstVisit(e), stat.inst.nodes[i].pid, j)
    ensures j < |e.pids|
    ensures Measured(InstsOf(stat.inst.nodes, withThreads, alloc)[i], stat.inst.nodes[i].pid, e, j, was, alloc)
  {
    hide Has, Visited, Seek, Ticks.Counted, SameData, LoadsOf, Succeeds, ProcList.Valid, ThreadsTidy;
    var v, q := stat.inst.View(), stat.inst.nodes[i].pid;
    ListedData(v, e, q, j, was);
    SeekIs(v, i, q);
  }

  /** So the record a reader finds for a process that the sample names once and can read has those values. */
  lemma ReaderSeesData(stat: SysStat, e: Env, features: uint64, info: Info, cpus: nat, alloc: int -> uint64,
                       b: seq<byte>, was: seq<Mark>)
    requires stat.Valid() && Consistent(e) && e.wanted && Succeeds(e) && Unique(was)
    requires SameData(Visited(was, InstVisit(e)), stat.inst.View()) && Holds(stat.inst, e.pids, e.smaps)
    requires Fits(info, cpus) && |b| < WORD32 && IsSet(features, FL_SYSTEM_PROCESS)
    requires forall q :: q in e.pids ==> 0 <= q < WORD32
    requires PayloadBytes(PayloadOf(features, info, cpus, stat.inst, stat.other, alloc)) <= b
    ensures GetPayload(cpus, b).Done?
    ensures var ps := GetPayload(cpus, b).value.insts;
      forall i, j :: 0 <= i < |ps| && 0 <= j < |e.pids| && ReadAt(InstVisit(e), ps[i].id.pid, j) ==>
        Measured(ps[i], ps[i].id.pid, e, j, was, alloc)
  {
    hide PayloadBytes, GetPayload, IsSet, Live, ReadAt, Measured, Visited, SameData, Succeeds, SysStat.Valid, Unique;
    PackedDecodes(features, info, cpus, stat.inst, stat.other, alloc, b);
    var ps := GetPayload(cpus, b).value.insts;
    forall i, j | 0 <= i < |ps| && 0 <= j < |e.pids| && ReadAt(InstVisit(e), ps[i].id.pid, j)
      ensures Measured(ps[i], ps[i].id.pid, e, j, was, alloc)
    {
      ListedHas(stat.inst, stat.inst.nodes[i]);
      LiveIsNamed(e.pids, e.smaps, stat.inst.nodes[i].pid);
      ListedRecord(stat, e, i, j, was, IsSet(features, FL_SYSTEM_THREAD_LOAD), alloc);
    }
  }
}
