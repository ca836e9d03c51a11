// The order in which one sample of daemon/sys_stat.c:1907-2003 updates the process lists.

module Sampling {
  import opened Words
  import opened ProcSpec
  import opened Procs

  /** Every thread list is in order; between scans no thread node carries a mark. */
  ghost predicate ThreadsTidy(n: ProcNode)
    reads n.threads, (set t | t in n.threads.nodes)
  {
    n.threads.host == n && n.threads.Valid() && Unique(n.threads.View()) && NoneFound(n.threads.View())
  }

  ghost predicate NoThreads(n: ProcNode)
    reads n.threads, (set t | t in n.threads.nodes)
  {
    n.threads.host == n && n.threads.Valid() && n.threads.nodes == []
  }

  ghost predicate Tidy(list: ProcList)
    reads list, (set n | n in list.nodes)
    reads (set n | n in list.nodes :: n.threads), (set n, t | n in list.nodes && t in n.threads.nodes :: t)
  {
    && list.host == null && list.Valid() && Unique(list.View())
    && forall n :: n in list.nodes ==> ThreadsTidy(n)
  }

  /** A parse function writes into the k-th node. */
  method Store(list: ProcList, n: ProcNode, data: ProcData, ghost k: nat)
    requires list.Valid() && k < |list.nodes| && list.nodes[k] == n
    modifies n`data
    ensures list.Valid() && list.View() == old(list.View())[k := Mark(n.pid, n.found, data)]
  {
    hide Marks, ProcList.Valid;
    NodesDiffer(list);
    n.data := data;
    assert list.View() == old(list.View())[k := Mark(n.pid, n.found, data)];
  }

  /** One pid of a scan, in either kind of list; a new node starts with whatever malloc left. */
  method Look(list: ProcList, pid: int, seen: Seen, kind: Kind, isNew: bool) returns (ret: int, isNew': bool)
    requires list.Valid()
    modifies list`head, list`nodes, (set n | n in list.nodes)
    ensures list.Valid() && list.View() == Looked(old(list.View()), pid, seen, kind, isNew)
    ensures ret == Result(pid, seen) && isNew' == (isNew || Newly(old(list.View()), pid, seen))
    ensures forall n :: n in list.nodes ==>
      || n in old(list.nodes)
      || (fresh(n) && fresh(n.threads) && NoThreads(n))
  {
    hide Marks, ProcList.Valid, ProcList.View, Seek, Deleted;
    if pid == 0 {
      return 1, isNew;
    }
    match seen
    case Gone(errno) =>
      ViewIs(list);
      list.Del(pid);
      ViewIs(list);
      ret, isNew' := errno, isNew;
    case Read(r, data) =>
      isNew' := Refresh(list, pid, seen, kind, isNew);
      ret := r;
  }

  /** A pid that can be accessed. */
  method Refresh(list: ProcList, pid: int, seen: Seen, kind: Kind, isNew: bool) returns (isNew': bool)
    requires list.Valid() && pid != 0 && seen.Read?
    modifies list`head, list`nodes, (set n | n in list.nodes)
    ensures list.Valid() && list.View() == Looked(old(list.View()), pid, seen, kind, isNew)
    ensures isNew' == (isNew || Newly(old(list.View()), pid, seen))
    ensures forall n :: n in list.nodes ==>
      || n in old(list.nodes)
      || (fresh(n) && fresh(n.threads) && NoThreads(n))
  {
    hide Marks, ProcList.Valid, Seek, Started, Refreshed, Looked, Newly, Touched;
    ghost var v := list.View();
    LookedAt(v, pid, seen, kind, isNew);
    var n := list.Find(pid);
    isNew' := isNew;
    if n == null {
      n := list.Add(pid, seen.data);
      assert list.View() == [Mark(pid, true, seen.data)] + v;
      isNew' := true;
      Store(list, n, Started(seen.data, kind, true, seen.ret), 0);
    } else {
      assert list.View()[Seek(v, pid)] == n.View();
      Store(list, n, Started(Refreshed(n.data, kind, seen.data), kind, isNew && kind.Stat?, seen.ret), Seek(v, pid));
    }
  }

  lemma ViewIs(list: ProcList)
    ensures list.View() == Marks(list.nodes)
  {
  }

  lemma LookedAt(v: seq<Mark>, pid: int, seen: Seen, kind: Kind, isNew: bool)
    requires pid != 0 && seen.Read?
    ensures var w, k, t := Looked(v, pid, seen, kind, isNew), Seek(v, pid), Touched(v, pid);
      && (Newly(v, pid, seen) <==> k == |v|) && k <= |v| == |t|
      && (k == |v| ==> t == v && w == [Mark(pid, true, Started(seen.data, kind, true, seen.ret))] + v)
      && (k < |v| ==> t[k].data == v[k].data && t[k].pid == pid && t[k].found)
      && (k < |v| ==> w == t[k := Mark(pid, true,
                        Started(Refreshed(v[k].data, kind, seen.data), kind, isNew && kind.Stat?, seen.ret))])
  {
    hide Started, Refreshed;
  }

  /** What the loop leaves in ret after this pid. */
  function Result(pid: int, seen: Seen): int {
    if pid == 0 then 1
    else
      match seen
      case Gone(errno) => errno
      case Read(ret, _) => ret
  }

  function Results(pids: seq<int>, seen: seq<Seen>): int
    requires |pids| == |seen|
  {
    if pids == [] then 0 else Result(pids[|pids| - 1], seen[|pids| - 1])
  }

  /** The loop over the ids, the sweep and the clearing. */
  method Scan(list: ProcList, pids: seq<int>, seen: seq<Seen>, kind: Kind) returns (ret: int)
    requires list.Valid() && |pids| == |seen|
    modifies list`head, list`nodes, (set n | n in list.nodes)
    ensures list.Valid() && list.View() == Pass(old(list.View()), pids, seen, kind)
    ensures ret == Results(pids, seen)
    ensures forall n :: n in list.nodes ==>
      || n in old(list.nodes)
      || (fresh(n) && fresh(n.threads) && NoThreads(n))
  {
    hide Marks, ProcList.Valid, Looked, Newly, Swept, Cleared, Result;
    ghost var v := list.View();
    var isNew := false;
    ret := 0;
    for i := 0 to |pids|
      invariant list.Valid() && Progress(list.View(), isNew) == Scanning(v, pids[..i], seen[..i], kind)
      invariant ret == Results(pids[..i], seen[..i])
      invariant forall n :: n in list.nodes ==>
        || n in old(list.nodes)
        || (fresh(n) && fresh(n.threads) && NoThreads(n))
    {
      assert pids[..i + 1][..i] == pids[..i] && seen[..i + 1][..i] == seen[..i];
      ret, isNew := Look(list, pids[i], seen[i], kind, isNew);
    }
    assert pids[..|pids|] == pids && seen[..|pids|] == seen;
    list.DelNotFound();
    list.ResetFound();
  }

  /** No thread list shares a node with the list of processes. */
  lemma ThreadsApart(list: ProcList)
    requires Tidy(list)
    ensures forall n :: n in list.nodes ==> n.threads != list
    ensures forall n, t :: n in list.nodes && t in n.threads.nodes ==> t !in list.nodes
  {
  }

  lemma NoMarks()
    ensures Unique([]) && NoneFound([])
  {
  }

  method UpdateProcessData(list: ProcList, pids: seq<int>, seen: seq<Seen>, kind: Kind) returns (ret: int)
    requires Tidy(list) && |pids| == |seen|
    modifies list`head, list`nodes, (set n | n in list.nodes)
    ensures Tidy(list) && list.View() == Pass(old(list.View()), pids, seen, kind)
    ensures ret == Results(pids, seen)
    ensures forall n :: n in list.nodes ==>
      || (n in old(list.nodes) && n.threads.nodes == old(n.threads.nodes)
          && n.threads.View() == old(n.threads.View()))
      || (fresh(n) && fresh(n.threads) && n.threads.nodes == [])
  {
    hide Marks, Pass, Unique, NoneFound;
    PassHas(list.View(), pids, seen, kind, 0);
    ThreadsApart(list);
    NoMarks();
    ret := Scan(list, pids, seen, kind);
  }

  // ----------------------------------------------------------------- threads

  /** What /proc/<pid>/task shows; task ids start with a digit other than 0. */
  datatype Tasks = NoTaskDir | TaskDir(tids: seq<int>, seen: seq<Seen>)

  predicate Possible(tasks: Tasks) {
    tasks.TaskDir? ==> |tasks.tids| == |tasks.seen| && forall i :: 0 <= i < |tasks.tids| ==> tasks.tids[i] != 0
  }

  /** The task directory could be opened and the last task named in it did not fail to be read. */
  predicate TasksRead(tasks: Tasks) {
    Possible(tasks) && tasks.TaskDir? && Results(tasks.tids, tasks.seen) >= 0
  }

  /** The thread list holds exactly the tasks that were accessible. */
  ghost predicate ThreadsAre(n: ProcNode, tasks: Tasks)
    reads n.threads, (set t | t in n.threads.nodes)
  {
    Possible(tasks) && tasks.TaskDir? && forall t :: Has(n.threads.View(), t) <==> Live(tasks.tids, tasks.seen, t)
  }

  lemma ThreadListsApart(list: ProcList)
    requires Tidy(list)
    ensures forall n, m :: n in list.nodes && m in list.nodes && n != m ==> n.threads != m.threads
    ensures forall n, m, t :: n in list.nodes && m in list.nodes && n != m && t in n.threads.nodes ==>
      t !in m.threads.nodes
  {
  }

  lemma PassExact(v: seq<Mark>, ids: seq<int>, seen: seq<Seen>, kind: Kind)
    requires Unique(v) && NoneFound(v) && |ids| == |seen|
    ensures var w := Pass(v, ids, seen, kind);
      && Unique(w) && NoneFound(w) && forall q :: Has(w, q) <==> Live(ids, seen, q)
  {
    hide Pass, Live, Unique, Has;
    PassHas(v, ids, seen, kind, 0);
    forall q
      ensures Has(Pass(v, ids, seen, kind), q) <==> Live(ids, seen, q)
    {
      PassHas(v, ids, seen, kind, q);
    }
  }

  /** find_node on the list of processes leaves the thread lists alone. */
  method FindProcess(inst: ProcList, pid: int) returns (n: ProcNode?)
    requires Tidy(inst)
    modifies (set n | n in inst.nodes)`found
    ensures Tidy(inst) && inst.View() == Touched(old(inst.View()), pid)
    ensures n != null ==> n in inst.nodes && n.pid == pid
    ensures n != null <==> Has(old(inst.View()), pid)
    ensures n == At(inst.nodes, Seek(old(inst.View()), pid)) && ThreadViews(inst.nodes) == old(ThreadViews(inst.nodes))
    ensures forall m, t :: m in inst.nodes && old(ThreadsAre(m, t)) ==> ThreadsAre(m, t)
  {
    hide Marks, Unique, NoneFound, Has, Live, Seek;
    ThreadsApart(inst);
    TouchedHas(inst.View(), pid, 0);
    ghost var v := inst.View();
    SoughtHas(v, pid);
    n := inst.Find(pid);
    if n != null {
      Sought(v, pid);
      assert v[Seek(v, pid)].pid == n.pid;
    }
  }

  lemma Sought(v: seq<Mark>, pid: int)
    ensures Seek(v, pid) < |v| ==> v[Seek(v, pid)].pid == pid
  {
  }

  lemma SoughtHas(v: seq<Mark>, pid: int)
    ensures Seek(v, pid) < |v| <==> Has(v, pid)
  {
  }

  method ScanThreads(inst: ProcList, n: ProcNode, tasks: Tasks, ghost k: nat) returns (ret: int)
    requires Tidy(inst) && k < |inst.nodes| && inst.nodes[k] == n && Possible(tasks) && tasks.TaskDir?
    modifies n.threads, (set t | t in n.threads.nodes)
    ensures Tidy(inst) && inst.nodes == old(inst.nodes) && inst.View() == old(inst.View())
    ensures forall n, t :: n in inst.nodes && t in n.threads.nodes ==> t in old(n.threads.nodes) || fresh(t)
    ensures ThreadsAre(n, tasks) && ret == Results(tasks.tids, tasks.seen)
    ensures ThreadViews(inst.nodes)
         == old(ThreadViews(inst.nodes))[k := Pass(old(n.threads.View()), tasks.tids, tasks.seen, Task)]
    ensures forall m, t :: m in inst.nodes && m != n && old(ThreadsAre(m, t)) ==> ThreadsAre(m, t)
  {
    hide Marks, Pass, Unique, NoneFound, Has, Live, Results, ThreadViews, NoThreads, Linked;
    assert n in inst.nodes;
    NodesDiffer(inst);
    ThreadsApart(inst);
    ThreadListsApart(inst);
    PassExact(n.threads.View(), tasks.tids, tasks.seen, Task);
    ret := Scan(n.threads, tasks.tids, tasks.seen, Task);
  }

  /** What a look at the tasks of a process makes of the thread lists of all. */
  ghost function TasksSeen(vs: seq<seq<Mark>>, v: seq<Mark>, pid: int, tasks: Tasks): seq<seq<Mark>>
    requires |vs| == |v| && Possible(tasks)
  {
    var k := Seek(v, pid);
    if tasks.TaskDir? && k < |v| then vs[k := Pass(vs[k], tasks.tids, tasks.seen, Task)] else vs
  }

  /** On success the process is listed and its thread list is exact. */
  method UpdateThreadData(inst: ProcList, pid: int, tasks: Tasks) returns (ret: int, ghost node: ProcNode?)
    requires Tidy(inst) && Possible(tasks)
    modifies (set n | n in inst.nodes)`found, (set n | n in inst.nodes :: n.threads)
    modifies (set n, t | n in inst.nodes && t in n.threads.nodes :: t)
    ensures Tidy(inst) && inst.nodes == old(inst.nodes)
    ensures forall n, t :: n in inst.nodes && t in n.threads.nodes ==> t in old(n.threads.nodes) || fresh(t)
    ensures inst.View() == old(inst.View()) || inst.View() == Touched(old(inst.View()), pid)
    ensures ret >= 0 ==> node != null && node in inst.nodes && node.pid == pid && ThreadsAre(node, tasks)
    ensures ThreadViews(inst.nodes) == TasksSeen(old(ThreadViews(inst.nodes)), old(inst.View()), pid, tasks)
    ensures ret >= 0 <==> TasksRead(tasks) && Has(old(inst.View()), pid)
    ensures forall n, t :: n in inst.nodes && n != node && old(ThreadsAre(n, t)) ==> ThreadsAre(n, t)
  {
    hide Tidy, ThreadsAre, Marks, Touched, Has, Results, ThreadViews, Pass, Seek;
    ghost var k := Seek(inst.View(), pid);
    SoughtHas(inst.View(), pid);
    node := null;
    if tasks.NoTaskDir? {
      return -1, null;
    }
    var n := FindProcess(inst, pid);
    if n == null {
      return -1, null;
    }
    node := n;
    ret := ScanThreads(inst, n, tasks, k);
  }

  // ------------------------------------------------------------------- fills

  /** The same nodes in the same order, with data of their own. */
  ghost predicate SamePids(v: seq<Mark>, w: seq<Mark>) {
    |v| == |w| && forall i :: 0 <= i < |v| ==> v[i].pid == w[i].pid && v[i].found == w[i].found
  }

  lemma SamePidsHas(v: seq<Mark>, w: seq<Mark>)
    requires SamePids(v, w)
    ensures Unique(v) ==> Unique(w)
    ensures NoneFound(v) ==> NoneFound(w)
    ensures forall q :: Has(v, q) <==> Has(w, q)
  {
    forall q
      ensures Has(v, q) <==> Has(w, q)
    {
      assert forall i :: 0 <= i < |v| ==> (v[i].pid == q <==> w[i].pid == q);
    }
  }

  /** fill_system_processes_info: a new load for every node, from the ticks used since the last one, and
      their number. */
  method FillLoads(list: ProcList, load: uint64 -> uint32) returns (count: uint32)
    requires list.Valid()
    modifies (set n | n in list.nodes)`data
    ensures list.Valid() && list.View() == Filled(old(list.View()), load)
    ensures count == U32(|list.nodes|)
  {
    hide Marks, ProcList.Valid, U32, Filled, FilledTo, Used;
    ghost var k, v := 0, list.View();
    FilledEnds(v, load);
    First(list);
    NodesDiffer(list);
    U32Small(0);
    count := 0;
    var proc := list.head;
    while proc != null
      invariant list.Valid() && k <= |list.nodes| && proc == At(list.nodes, k) && count == U32(k)
      invariant list.View() == FilledTo(v, k, load)
      decreases |list.nodes| - k
    {
      FilledNext(v, k, load);
      Store(list, proc, proc.data.(cpuLoad := load(Used(proc.data)), saved := proc.data.ticks), k);
      U32Inner(k, 1);
      count := U32(count + 1);
      Next(list, k);
      proc, k := proc.next, k + 1;
    }
  }

  ghost function TotalThreads(ns: seq<ProcNode>): nat
    reads (set n | n in ns :: n.threads)
  {
    if ns == [] then 0 else TotalThreads(ns[..|ns| - 1]) + |ns[|ns| - 1].threads.nodes|
  }

  /** The thread lists of all processes. */
  ghost function ThreadViews(ns: seq<ProcNode>): (vs: seq<seq<Mark>>)
    reads (set n | n in ns :: n.threads)`nodes
    reads (set n, t | n in ns && t in n.threads.nodes :: t)`found
    reads (set n, t | n in ns && t in n.threads.nodes :: t)`data
    ensures |vs| == |ns| && forall i {:trigger vs[i]} :: 0 <= i < |ns| ==> vs[i] == ns[i].threads.View()
  {
    if ns == [] then [] else ThreadViews(ns[..|ns| - 1]) + [ns[|ns| - 1].threads.View()]
  }

  /** The first k thread lists with new loads. */
  ghost function FilledLists(vs: seq<seq<Mark>>, k: nat, load: uint64 -> uint32): (ws: seq<seq<Mark>>)
    requires k <= |vs|
    ensures |ws| == |vs|
    ensures forall i {:trigger ws[i]} :: 0 <= i < |vs| ==> ws[i] == if i < k then Filled(vs[i], load) else vs[i]
  {
    seq(|vs|, i requires 0 <= i < |vs| => if i < k then Filled(vs[i], load) else vs[i])
  }

  lemma FilledListsNext(vs: seq<seq<Mark>>, k: nat, load: uint64 -> uint32)
    requires k < |vs|
    ensures FilledLists(vs, k + 1, load) == FilledLists(vs, k, load)[k := Filled(FilledLists(vs, k, load)[k], load)]
  {
    hide Filled;
  }

  /** One turn of the loop below. */
  method FillThreadLoads(inst: ProcList, n: ProcNode, load: uint64 -> uint32, ghost k: nat) returns (count: uint32)
    requires Tidy(inst) && k < |inst.nodes| && inst.nodes[k] == n
    modifies (set t | t in n.threads.nodes)`data
    ensures Tidy(inst) && inst.View() == old(inst.View()) && count == U32(|n.threads.nodes|)
    ensures forall m, t :: m in inst.nodes && old(ThreadsAre(m, t)) ==> ThreadsAre(m, t)
    ensures ThreadViews(inst.nodes) == old(ThreadViews(inst.nodes))[k := Filled(old(n.threads.View()), load)]
  {
    hide Marks, Unique, NoneFound, Has, Live, U32, SamePids, Filled, ThreadViews;
    assert n in inst.nodes;
    NodesDiffer(inst);
    ThreadsApart(inst);
    ThreadListsApart(inst);
    ghost var v := n.threads.View();
    count := FillLoads(n.threads, load);
    FilledPids(v, load);
    SamePidsHas(v, n.threads.View());
  }

  lemma NoneFilled(vs: seq<seq<Mark>>, load: uint64 -> uint32)
    ensures FilledLists(vs, 0, load) == vs
  {
    hide Filled;
  }

  lemma FilledPids(v: seq<Mark>, load: uint64 -> uint32)
    ensures SamePids(v, Filled(v, load))
  {
    hide Filled;
  }

  /** One turn of the loop below, with the count. */
  method FillTurn(inst: ProcList, n: ProcNode, load: uint64 -> uint32, before: uint32, ghost k: nat)
    returns (count: uint32)
    requires Tidy(inst) && k < |inst.nodes| && inst.nodes[k] == n && before == U32(TotalThreads(inst.nodes[..k]))
    modifies (set t | t in n.threads.nodes)`data
    ensures Tidy(inst) && inst.View() == old(inst.View()) && count == U32(TotalThreads(inst.nodes[..k + 1]))
    ensures forall m, t :: m in inst.nodes && old(ThreadsAre(m, t)) ==> ThreadsAre(m, t)
    ensures ThreadViews(inst.nodes) == old(ThreadViews(inst.nodes))[k := Filled(old(n.threads.View()), load)]
  {
    hide *;
    CountedThreads(inst.nodes, k);
    ghost var total := TotalThreads(inst.nodes[..k + 1]);
    var c := FillThreadLoads(inst, n, load, k);
    count := U32(before + c);
    assert TotalThreads(inst.nodes[..k + 1]) == total;
  }

  /** fill_system_threads_info: all thread nodes of all processes, counted together. */
  method FillThreads(inst: ProcList, load: uint64 -> uint32) returns (count: uint32)
    requires Tidy(inst)
    modifies (set n, t | n in inst.nodes && t in n.threads.nodes :: t)`data
    ensures Tidy(inst) && inst.View() == old(inst.View()) && count == U32(TotalThreads(inst.nodes))
    ensures forall m, t :: m in inst.nodes && old(ThreadsAre(m, t)) ==> ThreadsAre(m, t)
    ensures ThreadViews(inst.nodes) == FilledLists(old(ThreadViews(inst.nodes)), |inst.nodes|, load)
  {
    hide *;
    ghost var k, vs := 0, ThreadViews(inst.nodes);
    NoneFilled(vs, load);
    TidyMeans(inst);
    First(inst);
    NoThreadsYet(inst.nodes);
    count := 0;
    var proc := inst.head;
    while proc != null
      invariant Tidy(inst) && k <= |inst.nodes| && proc == At(inst.nodes, k)
      invariant inst.View() == old(inst.View()) && count == U32(TotalThreads(inst.nodes[..k]))
      invariant forall m, t :: m in inst.nodes && old(ThreadsAre(m, t)) ==> ThreadsAre(m, t)
      invariant ThreadViews(inst.nodes) == FilledLists(vs, k, load)
      decreases |inst.nodes| - k
    {
      NextInOrder(inst, k);
      FilledListsNext(vs, k, load);
      count := FillTurn(inst, proc, load, count, k);
      TidyMeans(inst);
      Next(inst, k);
      proc, k := proc.next, k + 1;
    }
    NextInOrder(inst, k);
    assert inst.nodes[..k] == inst.nodes;
  }

  /** The same, process by process. */
  method FillEach(inst: ProcList, load: uint64 -> uint32) returns (count: uint32)
    requires Tidy(inst)
    modifies (set n, t | n in inst.nodes && t in n.threads.nodes :: t)`data
    ensures Tidy(inst) && inst.View() == old(inst.View()) && count == U32(TotalThreads(inst.nodes))
    ensures forall m, t :: m in inst.nodes && old(ThreadsAre(m, t)) ==> ThreadsAre(m, t)
    ensures forall n :: n in inst.nodes ==> n.threads.View() == Filled(old(n.threads.View()), load)
  {
    hide Tidy, ThreadsAre, Marks, U32, Filled, TotalThreads, ThreadViews, FilledLists, ProcList.View;
    ghost var ns, vs := inst.nodes, ThreadViews(inst.nodes);
    count := FillThreads(inst, load);
    forall n | n in inst.nodes
      ensures n.threads.View() == Filled(old(n.threads.View()), load)
    {
      var i :| 0 <= i < |ns| && ns[i] == n;
      assert ThreadViews(inst.nodes)[i] == Filled(vs[i], load);
    }
  }

  lemma NextInOrder(list: ProcList, k: nat)
    requires k <= |list.nodes|
    ensures At(list.nodes, k) != null ==> k < |list.nodes| && At(list.nodes, k) == list.nodes[k]
    ensures At(list.nodes, k) == null ==> k == |list.nodes|
  {
  }

  lemma NoThreadsYet(ns: seq<ProcNode>)
    ensures U32(TotalThreads(ns[..0])) == 0
  {
  }

  lemma CountedThreads(ns: seq<ProcNode>, k: nat)
    requires k < |ns|
    ensures U32(U32(TotalThreads(ns[..k])) + U32(|ns[k].threads.nodes|)) == U32(TotalThreads(ns[..k + 1]))
    ensures ns[..|ns|] == ns
  {
    hide U32;
    assert ns[..k + 1][..k] == ns[..k];
    U32Inner(TotalThreads(ns[..k]), U32(|ns[k].threads.nodes|));
    U32Inner(|ns[k].threads.nodes|, TotalThreads(ns[..k]));
  }

  lemma TidyMeans(list: ProcList)
    requires Tidy(list)
    ensures list.Valid() && Unique(list.View()) && list.host == null
  {
  }

  // ------------------------------------------------------------------ sample

  /** The last time pid was scanned, or the number of pids. */
  function LastScan(pids: seq<int>, pid: int): (k: nat)
    ensures k <= |pids| && (k < |pids| ==> pids[k] == pid)
    ensures k == |pids| <==> pid !in pids
  {
    if pids == [] then 0
    else
      var n := |pids| - 1;
      if pids[n] == pid then n
      else
        var k := LastScan(pids[..n], pid);
        if k == n then n + 1 else k
  }

  /** The thread list of every process is what its last scan found. */
  ghost predicate ThreadsScanned(inst: ProcList, pids: seq<int>, tasks: seq<Tasks>)
    requires |pids| <= |tasks|
    reads inst, (set n | n in inst.nodes)
    reads (set n | n in inst.nodes :: n.threads), (set n, t | n in inst.nodes && t in n.threads.nodes :: t)
  {
    forall n :: n in inst.nodes && LastScan(pids, n.pid) < |pids| ==> ThreadsAre(n, tasks[LastScan(pids, n.pid)])
  }

  lemma LastScanNext(pids: seq<int>, k: nat, pid: int)
    requires k < |pids|
    ensures pids[k] == pid ==> LastScan(pids[..k + 1], pid) == k
    ensures pids[k] != pid && pid in pids[..k] ==> LastScan(pids[..k + 1], pid) == LastScan(pids[..k], pid)
    ensures pids[k] != pid && pid !in pids[..k] ==> LastScan(pids[..k + 1], pid) == k + 1
  {
    assert pids[..k + 1][..k] == pids[..k];
  }

  /** The pids of one instrumented-process scan and what the threads of each look like. */
  method ScanAllThreads(inst: ProcList, pids: seq<int>, tasks: seq<Tasks>) returns (ok: bool)
    requires Tidy(inst) && |pids| == |tasks| && forall t :: t in tasks ==> Possible(t)
    modifies (set n | n in inst.nodes)`found, (set n | n in inst.nodes :: n.threads)
    modifies (set n, t | n in inst.nodes && t in n.threads.nodes :: t)
    ensures Tidy(inst) && inst.nodes == old(inst.nodes)
    ensures forall n, t :: n in inst.nodes && t in n.threads.nodes ==> t in old(n.threads.nodes) || fresh(t)
    ensures forall q :: Has(inst.View(), q) <==> Has(old(inst.View()), q)
    ensures SameData(old(inst.View()), inst.View())
    ensures ThreadViews(inst.nodes) == ListsScanned(old(ThreadViews(inst.nodes)), old(inst.View()), pids, tasks)
    ensures ok ==> ThreadsScanned(inst, pids, tasks) && forall q :: q in pids ==> Has(inst.View(), q)
    ensures ok <==> AllScanned(old(inst.View()), pids, tasks)
  {
    hide *;
    ok := true;
    ghost var v, vs := inst.View(), ThreadViews(inst.nodes);
    NoneScanned(inst, tasks);
    TouchedData(v, 0);
    assert pids[..0] == [] && tasks[..0] == [];
    NoListsScanned(vs, v);
    AsManyMarks(inst);
    for i := 0 to |pids|
      invariant AllScanned(v, pids[..i], tasks[..i])
      invariant |vs| == |v| && ThreadViews(inst.nodes) == ListsScanned(vs, v, pids[..i], tasks[..i])
      invariant Tidy(inst) && inst.nodes == old(inst.nodes)
      invariant forall n, t :: n in inst.nodes && t in n.threads.nodes ==> t in old(n.threads.nodes) || fresh(t)
      invariant forall q :: Has(inst.View(), q) <==> Has(old(inst.View()), q)
      invariant ThreadsScanned(inst, pids[..i], tasks) && SameData(v, inst.View())
    {
      ghost var u := inst.View();
      var ret := ScanNextThreads(inst, pids, tasks, i);
      SameDataTwice(v, u, inst.View());
      ListsScannedNext(vs, v, u, pids, tasks, i);
      if ret < 0 {
        return false;
      }
    }
    assert pids[..|pids|] == pids && tasks[..|tasks|] == tasks;
    AllScannedHas(v, pids, tasks);
  }

  /** Every process was listed and its tasks were read. */
  ghost predicate AllScanned(v: seq<Mark>, pids: seq<int>, tasks: seq<Tasks>)
    requires |pids| == |tasks|
  {
    forall i :: 0 <= i < |pids| ==> TasksRead(tasks[i]) && Has(v, pids[i])
  }

  /** The thread lists after the looks at all processes, which end with the first one that fails. */
  ghost function ListsScanned(vs: seq<seq<Mark>>, v: seq<Mark>, pids: seq<int>, tasks: seq<Tasks>)
    : (ws: seq<seq<Mark>>)
    requires |vs| == |v| && |pids| == |tasks| && forall t :: t in tasks ==> Possible(t)
    ensures |ws| == |vs|
  {
    if pids == [] then vs
    else
      var n := |pids| - 1;
      var us := ListsScanned(vs, v, pids[..n], tasks[..n]);
      if AllScanned(v, pids[..n], tasks[..n]) then TasksSeen(us, v, pids[n], tasks[n]) else us
  }

  lemma NoListsScanned(vs: seq<seq<Mark>>, v: seq<Mark>)
    ensures AllScanned(v, [], []) && (|vs| == |v| ==> ListsScanned(vs, v, [], []) == vs)
  {
  }

  lemma AllScannedHas(v: seq<Mark>, pids: seq<int>, tasks: seq<Tasks>)
    requires |pids| == |tasks| && AllScanned(v, pids, tasks)
    ensures forall q :: q in pids ==> Has(v, q)
  {
    hide Has, TasksRead;
  }

  lemma AsManyMarks(list: ProcList)
    ensures |list.View()| == |list.nodes|
  {
    hide Marks;
  }

  lemma AllScannedNext(v: seq<Mark>, pids: seq<int>, tasks: seq<Tasks>, i: nat)
    requires i < |pids| == |tasks| && AllScanned(v, pids[..i], tasks[..i])
    ensures AllScanned(v, pids[..i + 1], tasks[..i + 1]) <==> TasksRead(tasks[i]) && Has(v, pids[i])
  {
    hide Has, TasksRead;
    assert forall k :: 0 <= k < i ==> pids[..i][k] == pids[..i + 1][k] && tasks[..i][k] == tasks[..i + 1][k];
  }

  lemma ListsScannedUpTo(vs: seq<seq<Mark>>, v: seq<Mark>, pids: seq<int>, tasks: seq<Tasks>, i: nat)
    requires |vs| == |v| && i < |pids| == |tasks| && forall t :: t in tasks ==> Possible(t)
    requires AllScanned(v, pids[..i], tasks[..i])
    ensures ListsScanned(vs, v, pids[..i + 1], tasks[..i + 1])
         == TasksSeen(ListsScanned(vs, v, pids[..i], tasks[..i]), v, pids[i], tasks[i])
  {
    hide TasksSeen, AllScanned;
    assert pids[..i + 1][..i] == pids[..i] && tasks[..i + 1][..i] == tasks[..i];
  }

  lemma TasksSeenSame(vs: seq<seq<Mark>>, v: seq<Mark>, u: seq<Mark>, pid: int, tasks: Tasks)
    requires |vs| == |v| && SameData(v, u) && Possible(tasks)
    ensures |u| == |v| && TasksSeen(vs, u, pid, tasks) == TasksSeen(vs, v, pid, tasks)
  {
    hide Pass, Seek;
    SameDataSeek(v, u, pid);
  }

  /** One more look, by a list with other marks; after a failed one nothing more is looked at. */
  lemma ListsScannedNext(vs: seq<seq<Mark>>, v: seq<Mark>, u: seq<Mark>, pids: seq<int>, tasks: seq<Tasks>, i: nat)
    requires |vs| == |v| && i < |pids| == |tasks| && SameData(v, u) && forall t :: t in tasks ==> Possible(t)
    requires AllScanned(v, pids[..i], tasks[..i])
    ensures TasksSeen(ListsScanned(vs, v, pids[..i], tasks[..i]), u, pids[i], tasks[i])
         == ListsScanned(vs, v, pids[..i + 1], tasks[..i + 1])
    ensures Has(u, pids[i]) <==> Has(v, pids[i])
    ensures AllScanned(v, pids[..i + 1], tasks[..i + 1]) <==> TasksRead(tasks[i]) && Has(v, pids[i])
    ensures !AllScanned(v, pids[..i + 1], tasks[..i + 1]) ==>
      !AllScanned(v, pids, tasks)
      && ListsScanned(vs, v, pids, tasks) == ListsScanned(vs, v, pids[..i + 1], tasks[..i + 1])
  {
    hide *;
    ListsScannedUpTo(vs, v, pids, tasks, i);
    TasksSeenSame(ListsScanned(vs, v, pids[..i], tasks[..i]), v, u, pids[i], tasks[i]);
    SameDataSeek(v, u, pids[i]);
    AllScannedNext(v, pids, tasks, i);
    if !AllScanned(v, pids[..i + 1], tasks[..i + 1]) {
      NothingMore(vs, v, pids, tasks, i + 1);
    }
  }

  lemma {:induction false} NothingMore(vs: seq<seq<Mark>>, v: seq<Mark>, pids: seq<int>, tasks: seq<Tasks>, i: nat)
    requires |vs| == |v| && i <= |pids| == |tasks| && forall t :: t in tasks ==> Possible(t)
    requires !AllScanned(v, pids[..i], tasks[..i])
    ensures !AllScanned(v, pids, tasks)
    ensures ListsScanned(vs, v, pids, tasks) == ListsScanned(vs, v, pids[..i], tasks[..i])
  {
    hide TasksRead, Has, TasksSeen;
    var n := |pids|;
    var k :| 0 <= k < i && !(TasksRead(tasks[..i][k]) && Has(v, pids[..i][k]));
    assert tasks[k] == tasks[..i][k] && pids[k] == pids[..i][k];
    if i == n {
      assert pids[..i] == pids && tasks[..i] == tasks;
    } else {
      assert pids[..n - 1][..i] == pids[..i] && tasks[..n - 1][..i] == tasks[..i];
      NothingMore(vs, v, pids[..n - 1], tasks[..n - 1], i);
    }
  }

  /** The same for the threads of one process. */
  ghost function TasksOf(w: seq<Mark>, q: int, v: seq<Mark>, pids: seq<int>, tasks: seq<Tasks>): seq<Mark>
    requires |pids| == |tasks| && forall t :: t in tasks ==> Possible(t)
  {
    if pids == [] then w
    else
      var n := |pids| - 1;
      var u := TasksOf(w, q, v, pids[..n], tasks[..n]);
      assert Possible(tasks[n]);
      if pids[n] == q && tasks[n].TaskDir? && AllScanned(v, pids[..n], tasks[..n])
      then Pass(u, tasks[n].tids, tasks[n].seen, Task) else u
  }

  lemma {:induction false} ListsScannedAt(vs: seq<seq<Mark>>, v: seq<Mark>, pids: seq<int>, tasks: seq<Tasks>, k: nat)
    requires Unique(v) && k < |vs| == |v| && |pids| == |tasks| && forall t :: t in tasks ==> Possible(t)
    ensures ListsScanned(vs, v, pids, tasks)[k] == TasksOf(vs[k], v[k].pid, v, pids, tasks)
  {
    hide TasksRead, Has, Pass, AllScanned;
    if pids != [] {
      ListsScannedAt(vs, v, pids[..|pids| - 1], tasks[..|pids| - 1], k);
    }
  }

  lemma NoneScanned(inst: ProcList, tasks: seq<Tasks>)
    ensures ThreadsScanned(inst, [], tasks)
  {
  }

  method ScanNextThreads(inst: ProcList, pids: seq<int>, tasks: seq<Tasks>, i: nat) returns (ret: int)
    requires Tidy(inst) && i < |pids| == |tasks| && forall t :: t in tasks ==> Possible(t)
    requires ThreadsScanned(inst, pids[..i], tasks)
    modifies (set n | n in inst.nodes)`found, (set n | n in inst.nodes :: n.threads)
    modifies (set n, t | n in inst.nodes && t in n.threads.nodes :: t)
    ensures Tidy(inst) && inst.nodes == old(inst.nodes)
    ensures forall n, t :: n in inst.nodes && t in n.threads.nodes ==> t in old(n.threads.nodes) || fresh(t)
    ensures forall q :: Has(inst.View(), q) <==> Has(old(inst.View()), q)
    ensures SameData(old(inst.View()), inst.View())
    ensures ThreadViews(inst.nodes) == TasksSeen(old(ThreadViews(inst.nodes)), old(inst.View()), pids[i], tasks[i])
    ensures ret >= 0 ==> ThreadsScanned(inst, pids[..i + 1], tasks)
    ensures ret >= 0 <==> TasksRead(tasks[i]) && Has(old(inst.View()), pids[i])
  {
    hide Tidy, ThreadsAre, Marks, Touched, Has, TasksRead, SameData, TasksSeen, ThreadViews;
    TidyMeans(inst);
    TouchedData(inst.View(), pids[i]);
    forall q
      ensures Has(Touched(inst.View(), pids[i]), q) <==> Has(inst.View(), q)
    {
      TouchedHas(inst.View(), pids[i], q);
    }
    ghost var node;
    ret, node := UpdateThreadData(inst, pids[i], tasks[i]);
    if ret >= 0 {
      TidyMeans(inst);
      forall n | n in inst.nodes && LastScan(pids[..i + 1], n.pid) < i + 1
        ensures ThreadsAre(n, tasks[LastScan(pids[..i + 1], n.pid)])
      {
        LastScanNext(pids, i, n.pid);
        if n.pid == pids[i] {
          OneNode(inst, n, node);
        }
      }
    }
  }

  /** A pid belongs to one node. */
  lemma OneNode(list: ProcList, n: ProcNode, m: ProcNode)
    requires Unique(list.View()) && n in list.nodes && m in list.nodes && n.pid == m.pid
    ensures n == m
  {
    var i :| 0 <= i < |list.nodes| && list.nodes[i] == n;
    var j :| 0 <= j < |list.nodes| && list.nodes[j] == m;
    assert list.View()[i].pid == n.pid && list.View()[j].pid == m.pid;
  }

  lemma ListedHas(list: ProcList, n: ProcNode)
    requires n in list.nodes
    ensures Has(list.View(), n.pid)
  {
    var i :| 0 <= i < |list.nodes| && list.nodes[i] == n;
    assert list.View()[i].pid == n.pid;
  }

  /** What one sample meets: whether the configuration asks for any of this data, the load it computes from
      a number of ticks, the pids of both kinds of processes and what every look at them gives, and whether
      the steps in between fail. */
  datatype Env = Env(wanted: bool, load: uint64 -> uint32, pids: seq<int>, stat: seq<Seen>, smaps: seq<Seen>,
                     tasks: seq<Tasks>, others: seq<int>, otherStat: seq<Seen>, cpuFails: bool, lateFails: bool)

  predicate Consistent(e: Env) {
    && |e.pids| == |e.stat| == |e.smaps| == |e.tasks| && |e.others| == |e.otherStat|
    && forall t :: t in e.tasks ==> Possible(t)
  }

  /** Two lists of processes have nothing in common, nor do their thread lists. */
  lemma ListsApart(a: ProcList, b: ProcList)
    requires Tidy(a) && Tidy(b) && a != b
    ensures forall n :: n in b.nodes ==> n !in a.nodes && n.threads != a
    ensures forall n, t :: n in b.nodes && t in n.threads.nodes ==> t !in a.nodes
    ensures forall n, m :: n in b.nodes && m in a.nodes ==> n.threads != m.threads && m !in n.threads.nodes
    ensures forall n, m, t :: n in b.nodes && m in a.nodes && t in n.threads.nodes ==> t !in m.threads.nodes
  {
  }

  /** The passes over the lists do not fail: that depends on the last pid of each only. */
  predicate ListsRead(e: Env)
    requires Consistent(e)
  {
    Reaches(e) && Results(e.pids, e.smaps) >= 0
  }

  /** Exactly then a sample comes to its end: no named pid may be dead in the second pass. */
  predicate Succeeds(e: Env)
    requires Consistent(e)
  {
    && ListsRead(e) && !e.lateFails
    && forall i :: 0 <= i < |e.pids| ==> TasksRead(e.tasks[i]) && Live(e.pids, e.smaps, e.pids[i])
  }

  /** inst holds the instrumented pids that were accessible when their memory was read. */
  ghost predicate Holds(list: ProcList, pids: seq<int>, seen: seq<Seen>)
    requires |pids| == |seen|
    reads list, (set n | n in list.nodes)
  {
    forall q :: Has(list.View(), q) <==> Live(pids, seen, q)
  }

  /** The first passes do not fail, so that the memory of the instrumented processes is read. */
  predicate Reaches(e: Env)
    requires Consistent(e)
  {
    Results(e.pids, e.stat) >= 0 && Results(e.others, e.otherStat) >= 0 && !e.cpuFails
  }

  /** The passes of a sample over the instrumented processes, and over the others. */
  function InstLooks(e: Env): (s: Visit)
    requires Consistent(e)
    ensures Fitting(s) && s.Visit?
  {
    Visit(e.pids, e.stat, Stat, if Reaches(e) then Second(e.smaps) else NoSecond, false, e.load)
  }

  function OtherLooks(e: Env): (s: Visit)
    requires Consistent(e)
    ensures Fitting(s)
  {
    if Results(e.pids, e.stat) < 0 then Skipped else Visit(e.others, e.otherStat, Stat, NoSecond, false, e.load)
  }

  /** All that a sample does to them. */
  function InstVisit(e: Env): (s: Visit)
    requires Consistent(e)
    ensures Fitting(s)
  {
    if e.wanted then Ended(InstLooks(e), Succeeds(e)) else Skipped
  }

  function OtherVisit(e: Env): (s: Visit)
    requires Consistent(e)
    ensures Fitting(s)
  {
    if e.wanted then Ended(OtherLooks(e), Succeeds(e)) else Skipped
  }

  /** What it reads of the threads of process q, if w were there; v is what the passes leave of the processes. */
  ghost function ThreadsRead(w: seq<Mark>, q: int, e: Env, v: seq<Mark>): seq<Mark>
    requires Consistent(e)
  {
    if ListsRead(e) then TasksOf(w, q, v, e.pids, e.tasks) else w
  }

  /** What it leaves of them. */
  ghost function ThreadsLeft(w: seq<Mark>, q: int, e: Env, v: seq<Mark>): seq<Mark>
    requires Consistent(e)
  {
    if !e.wanted then w
    else if Succeeds(e) then Filled(ThreadsRead(w, q, e, v), e.load)
    else ThreadsRead(w, q, e, v)
  }

  class SysStat {
    const inst: ProcList
    const other: ProcList

    ghost predicate Valid()
      reads inst, (set n | n in inst.nodes)
      reads (set n | n in inst.nodes :: n.threads), (set n, t | n in inst.nodes && t in n.threads.nodes :: t)
      reads other, (set n | n in other.nodes)
      reads (set n | n in other.nodes :: n.threads), (set n, t | n in other.nodes && t in n.threads.nodes :: t)
    {
      Tidy(inst) && Tidy(other) && inst != other && NoneFound(other.View())
    }

    constructor ()
      ensures Valid() && fresh(inst) && fresh(other)
    {
      inst := new ProcList();
      other := new ProcList();
      new;
      NoMarks();
    }

    /** The first pass over both process lists, and the CPU data. */
    method FirstPasses(e: Env) returns (ok: bool)
      requires Valid() && Consistent(e)
      modifies inst, (set n | n in inst.nodes), other, (set n | n in other.nodes)
      ensures Valid() && (ok <==> Reaches(e))
      ensures forall n :: n in inst.nodes ==>
        || (n in old(inst.nodes) && n.threads.nodes == old(n.threads.nodes)
            && n.threads.View() == old(n.threads.View()))
        || (fresh(n) && fresh(n.threads) && n.threads.nodes == [])
      ensures forall n :: n in other.nodes ==> n in old(other.nodes) || fresh(n)
      ensures inst.View() == Pass(old(inst.View()), e.pids, e.stat, Stat)
      ensures other.View() == Visited(old(other.View()), OtherLooks(e))
    {
      hide Tidy, Marks, Pass, Unique, NoneFound, Results, Has, Live, NoThreads;
      TidyMeans(other);
      PassExact(other.View(), e.others, e.otherStat, Stat);
      ListsApart(inst, other);
      var ret := UpdateProcessData(inst, e.pids, e.stat, Stat);
      if ret < 0 {
        return false;
      }
      ListsApart(inst, other);
      ListsApart(other, inst);
      ret := UpdateProcessData(other, e.others, e.otherStat, Stat);
      ListsApart(inst, other);
      ListsApart(other, inst);
      ok := ret >= 0 && !e.cpuFails;
    }

    /** The three passes over the process lists. */
    method UpdateLists(e: Env) returns (ok: bool)
      requires Valid() && Consistent(e)
      modifies inst, (set n | n in inst.nodes), other, (set n | n in other.nodes)
      ensures Valid() && (ok <==> ListsRead(e))
      ensures forall n :: n in inst.nodes ==>
        || (n in old(inst.nodes) && n.threads.nodes == old(n.threads.nodes)
            && n.threads.View() == old(n.threads.View()))
        || (fresh(n) && fresh(n.threads) && n.threads.nodes == [])
      ensures forall n :: n in other.nodes ==> n in old(other.nodes) || fresh(n)
      ensures ok ==> Holds(inst, e.pids, e.smaps) && Holds(other, e.others, e.otherStat)
      ensures inst.View() == Passed(old(inst.View()), InstLooks(e))
      ensures other.View() == Visited(old(other.View()), OtherLooks(e))
    {
      hide Tidy, Marks, Pass, Unique, NoneFound, Results, Has, Live, NoThreads;
      TidyMeans(inst);
      TidyMeans(other);
      Exactly(inst.View(), other.View(), e);
      ok := FirstPasses(e);
      if !ok {
        return;
      }
      ListsApart(inst, other);
      ListsApart(other, inst);
      var ret := UpdateProcessData(inst, e.pids, e.smaps, Smaps);
      ok := ret >= 0;
    }

    method FillProcesses(load: uint64 -> uint32) returns (instCount: uint32, otherCount: uint32)
      requires Valid()
      modifies (set n | n in inst.nodes)`data, (set n | n in other.nodes)`data
      ensures Valid()
      ensures inst.View() == Filled(old(inst.View()), load) && other.View() == Filled(old(other.View()), load)
      ensures forall m, t :: m in inst.nodes && old(ThreadsAre(m, t)) ==> ThreadsAre(m, t)
      ensures forall n :: n in inst.nodes ==> n.threads.View() == old(n.threads.View())
      ensures instCount == U32(|inst.nodes|) && otherCount == U32(|other.nodes|)
    {
      hide Tidy, ThreadsAre, Marks, Unique, NoneFound, U32, Filled;
      ListsApart(inst, other);
      ListsApart(other, inst);
      instCount := FillTidy(inst, load);
      otherCount := FillTidy(other, load);
    }

    method FillTasks(load: uint64 -> uint32) returns (threadCount: uint32)
      requires Valid()
      modifies (set n, t | n in inst.nodes && t in n.threads.nodes :: t)`data
      ensures Valid() && inst.View() == old(inst.View()) && other.View() == old(other.View())
      ensures forall m, t :: m in inst.nodes && old(ThreadsAre(m, t)) ==> ThreadsAre(m, t)
      ensures forall n :: n in inst.nodes ==> n.threads.View() == Filled(old(n.threads.View()), load)
      ensures threadCount == U32(TotalThreads(inst.nodes))
    {
      hide Tidy, ThreadsAre, Marks, Unique, NoneFound, U32, Filled, TotalThreads;
      ListsApart(inst, other);
      ListsApart(other, inst);
      threadCount := FillEach(inst, load);
    }

    /** The three fill steps: new loads everywhere, nodes counted. */
    method Fill(load: uint64 -> uint32) returns (instCount: uint32, otherCount: uint32, threadCount: uint32)
      requires Valid()
      modifies (set n | n in inst.nodes)`data, (set n | n in other.nodes)`data
      modifies (set n, t | n in inst.nodes && t in n.threads.nodes :: t)`data
      ensures Valid() && inst.nodes == old(inst.nodes) && other.nodes == old(other.nodes)
      ensures inst.View() == Filled(old(inst.View()), load) && other.View() == Filled(old(other.View()), load)
      ensures forall m, t :: m in inst.nodes && old(ThreadsAre(m, t)) ==> ThreadsAre(m, t)
      ensures forall n :: n in inst.nodes ==> n.threads.View() == Filled(old(n.threads.View()), load)
      ensures instCount == U32(|inst.nodes|) && otherCount == U32(|other.nodes|)
      ensures threadCount == U32(TotalThreads(inst.nodes))
    {
      hide Valid, ThreadsAre, Marks, U32, Filled, TotalThreads;
      instCount, otherCount := FillProcesses(load);
      threadCount := FillTasks(load);
    }

    method AllThreads(e: Env) returns (ok: bool)
      requires Valid() && Consistent(e)
      modifies (set n | n in inst.nodes)`found, (set n | n in inst.nodes :: n.threads)
      modifies (set n, t | n in inst.nodes && t in n.threads.nodes :: t)
      ensures Valid() && inst.nodes == old(inst.nodes) && other.nodes == old(other.nodes)
      ensures other.View() == old(other.View())
      ensures forall n, t :: n in inst.nodes && t in n.threads.nodes ==> t in old(n.threads.nodes) || fresh(t)
      ensures forall q :: Has(inst.View(), q) <==> Has(old(inst.View()), q)
      ensures SameData(old(inst.View()), inst.View())
      ensures forall n :: n in inst.nodes ==>
        n.threads.View() == TasksOf(old(n.threads.View()), n.pid, old(inst.View()), e.pids, e.tasks)
      ensures ok ==> ThreadsScanned(inst, e.pids, e.tasks) && forall q :: q in e.pids ==> Has(inst.View(), q)
      ensures ok <==> AllScanned(old(inst.View()), e.pids, e.tasks)
    {
      hide Tidy, ThreadsAre, Marks, Unique, NoneFound, Has, SameData, ThreadViews, ListsScanned, AllScanned, TasksOf;
      ghost var v, ns, vs := inst.View(), inst.nodes, ThreadViews(inst.nodes);
      InstUnique(this);
      ListsApart(inst, other);
      ListsApart(other, inst);
      ok := ScanAllThreads(inst, e.pids, e.tasks);
      forall n | n in inst.nodes
        ensures n.threads.View() == TasksOf(old(n.threads.View()), n.pid, v, e.pids, e.tasks)
      {
        var i :| 0 <= i < |ns| && ns[i] == n;
        ListsScannedAt(vs, v, e.pids, e.tasks, i);
        assert ThreadViews(inst.nodes)[i] == n.threads.View();
      }
    }

    /** All that a sample reads: the passes over the processes and the looks at their tasks. */
    method ReadAll(e: Env) returns (ok: bool)
      requires Valid() && Consistent(e)
      modifies inst, (set n | n in inst.nodes), other, (set n | n in other.nodes)
      modifies (set n | n in inst.nodes :: n.threads), (set n, t | n in inst.nodes && t in n.threads.nodes :: t)
      ensures Valid() && (ok && !e.lateFails <==> Succeeds(e))
      ensures ok ==> Holds(inst, e.pids, e.smaps) && forall q :: q in e.pids ==> Has(inst.View(), q)
      ensures ok ==> Holds(other, e.others, e.otherStat) && ThreadsScanned(inst, e.pids, e.tasks)
      ensures SameData(Passed(old(inst.View()), InstLooks(e)), inst.View())
      ensures other.View() == Visited(old(other.View()), OtherLooks(e))
      ensures forall n :: n in inst.nodes ==>
        n.threads.View() == ThreadsRead(if n in old(inst.nodes) then old(n.threads.View()) else [], n.pid, e,
                                        Passed(old(inst.View()), InstLooks(e)))
      ensures forall n :: n in other.nodes ==> n in old(other.nodes) || fresh(n)
      ensures forall n :: n in inst.nodes ==> n in old(inst.nodes) || (fresh(n) && fresh(n.threads))
      ensures forall n, t :: n in inst.nodes && t in n.threads.nodes ==>
        fresh(t) || (n in old(inst.nodes) && t in old(n.threads.nodes))
    {
      hide Valid, ThreadsAre, Marks, Unique, NoneFound, SameData, Has, Live, TasksRead, ListsRead, TasksOf,
        Pass, Passed, InstLooks, OtherLooks, AllScanned;
      ok := UpdateLists(e);
      TouchedData(inst.View(), 0);
      if ok {
        SucceedsWhen(inst.View(), e);
        ok := AllThreads(e);
      }
    }

    /** One sample. Once the values are filled in, the lists hold exactly the processes that were
        accessible, each with the threads its task directory showed, and the counts are right. */
    method Sample(e: Env) returns (ok: bool, instCount: uint32, otherCount: uint32, threadCount: uint32)
      requires Valid() && Consistent(e)
      modifies inst, (set n | n in inst.nodes), other, (set n | n in other.nodes)
      modifies (set n | n in inst.nodes :: n.threads), (set n, t | n in inst.nodes && t in n.threads.nodes :: t)
      ensures Valid()
      ensures ok && e.wanted ==> Holds(inst, e.pids, e.smaps) && forall q :: q in e.pids ==> Has(inst.View(), q)
      ensures ok && e.wanted ==> Holds(other, e.others, e.otherStat) && ThreadsScanned(inst, e.pids, e.tasks)
      ensures ok && e.wanted ==> instCount == U32(|inst.nodes|) && otherCount == U32(|other.nodes|)
      ensures ok && e.wanted ==> threadCount == U32(TotalThreads(inst.nodes))
      ensures SameData(Visited(old(inst.View()), InstVisit(e)), inst.View())
      ensures other.View() == Visited(old(other.View()), OtherVisit(e))
      ensures forall n :: n in inst.nodes ==>
        n.threads.View() == ThreadsLeft(if n in old(inst.nodes) then old(n.threads.View()) else [], n.pid, e,
                                        Passed(old(inst.View()), InstLooks(e)))
      ensures e.wanted ==> (ok <==> Succeeds(e))
      ensures !e.wanted ==> ok && instCount == otherCount == threadCount == 0
      ensures forall n :: n in other.nodes ==> n in old(other.nodes) || fresh(n)
      ensures forall n :: n in inst.nodes ==> n in old(inst.nodes) || (fresh(n) && fresh(n.threads))
      ensures forall n, t :: n in inst.nodes && t in n.threads.nodes ==>
        fresh(t) || (n in old(inst.nodes) && t in old(n.threads.nodes))
    {
      hide Valid, ThreadsAre, Marks, Unique, NoneFound, U32, SamePids, SameData, Has, Live, Succeeds, ThreadsRead,
        Passed, Visited, Filled, InstLooks, OtherLooks, InstVisit, OtherVisit;
      instCount, otherCount, threadCount := 0, 0, 0;
      Visits(inst.View(), other.View(), e);
      if !e.wanted {
        return true, 0, 0, 0;
      }
      ok := ReadAll(e);
      if !ok || e.lateFails {
        ok := false;
        return;
      }
      ghost var u, w := inst.View(), other.View();
      instCount, otherCount, threadCount := Fill(e.load);
      FilledPids(u, e.load);
      FilledPids(w, e.load);
      SameDataFilled(Passed(old(inst.View()), InstLooks(e)), u, e.load);
      SamePidsHas(u, inst.View());
      SamePidsHas(w, other.View());
    }
  }

  lemma SucceedsWhen(v: seq<Mark>, e: Env)
    requires Consistent(e) && ListsRead(e) && forall q :: Has(v, q) <==> Live(e.pids, e.smaps, q)
    ensures Succeeds(e) <==> !e.lateFails && AllScanned(v, e.pids, e.tasks)
  {
    hide Has, Live, TasksRead;
  }

  /** What a sample does to the lists, by how far it comes. */
  lemma Visits(v: seq<Mark>, w: seq<Mark>, e: Env)
    requires Consistent(e)
    ensures !e.wanted ==> Visited(v, InstVisit(e)) == v && Visited(w, OtherVisit(e)) == w
    ensures e.wanted ==>
      && Visited(v, InstVisit(e)) == (var u := Passed(v, InstLooks(e)); if Succeeds(e) then Filled(u, e.load) else u)
      && Visited(w, OtherVisit(e)) == (var u := Visited(w, OtherLooks(e)); if Succeeds(e) then Filled(u, e.load) else u)
    ensures forall u :: SameData(u, u)
  {
    hide Filled, Pass, Live, TasksRead;
  }

  /** Every node and list that samples may change. */
  ghost function Own(stat: SysStat): set<object>
    reads stat.inst, stat.other, (set n | n in stat.inst.nodes :: n.threads)
  {
    var lists: set<object> := {stat.inst, stat.other};
    var nodes: set<object> := set n | n in stat.inst.nodes + stat.other.nodes;
    var threadLists: set<object> := set n | n in stat.inst.nodes :: n.threads;
    var threads: set<object> := set n, t | n in stat.inst.nodes && t in n.threads.nodes :: t;
    lists + nodes + threadLists + threads
  }

  /** Over any run of samples, failed ones among them: what every sample leaves of both lists, kept in shots
      behind what it found, is what its passes make of it and, if it comes to its end, the fill step; then
      the list of instrumented processes holds exactly what was accessible. */
  method Run(stat: SysStat, envs: seq<Env>)
    returns (oks: seq<bool>, ghost shots: seq<seq<Mark>>, ghost otherShots: seq<seq<Mark>>)
    requires stat.Valid() && forall e :: e in envs ==> Consistent(e)
    modifies Own(stat)
    ensures stat.Valid() && |oks| == |envs| && |shots| == |otherShots| == |envs| + 1
    ensures shots[0] == old(stat.inst.View()) && otherShots[0] == old(stat.other.View())
    ensures forall i {:trigger oks[i]} :: 0 <= i < |envs| ==>
      Follows(oks[i], shots[i], shots[i + 1], otherShots[i], otherShots[i + 1], envs[i])
  {
    hide SysStat.Valid, Own, Follows, Consistent;
    oks, shots, otherShots := [], [stat.inst.View()], [stat.other.View()];
    for i := 0 to |envs|
      invariant stat.Valid() && |oks| == i && |shots| == |otherShots| == i + 1
      invariant shots[i] == stat.inst.View() && shots[0] == old(stat.inst.View())
      invariant otherShots[i] == stat.other.View() && otherShots[0] == old(stat.other.View())
      invariant forall o :: o in Own(stat) ==> o in old(Own(stat)) || fresh(o)
      invariant forall k {:trigger oks[k]} :: 0 <= k < i ==>
        Follows(oks[k], shots[k], shots[k + 1], otherShots[k], otherShots[k + 1], envs[k])
    {
      var ok := SampleOwn(stat, envs[i]);
      oks, shots, otherShots := oks + [ok], shots + [stat.inst.View()], otherShots + [stat.other.View()];
    }
  }

  method SampleOwn(stat: SysStat, e: Env) returns (ok: bool)
    requires stat.Valid() && Consistent(e)
    modifies Own(stat)
    ensures stat.Valid() && forall o :: o in Own(stat) ==> o in old(Own(stat)) || fresh(o)
    ensures Follows(ok, old(stat.inst.View()), stat.inst.View(), old(stat.other.View()), stat.other.View(), e)
  {
    hide SysStat.Valid, Unique, Has, Live, Consistent, SameData, Visited, OtherVisit, InstVisit, InstLooks, Passed,
      ThreadsLeft, ThreadsAre, Succeeds, TotalThreads, ProcList.View;
    var instCount, otherCount, threadCount;
    ok, instCount, otherCount, threadCount := stat.Sample(e);
    InstUnique(stat);
  }

  /** What a sample leaves, whether or not it comes to its end. */
  ghost predicate Follows(ok: bool, before: seq<Mark>, now: seq<Mark>, otherBefore: seq<Mark>, otherNow: seq<Mark>,
                          e: Env)
  {
    && Consistent(e) && (ok <==> e.wanted ==> Succeeds(e))
    && SameData(Visited(before, InstVisit(e)), now) && otherNow == Visited(otherBefore, OtherVisit(e))
    && (ok && e.wanted ==> Shows(now, e))
  }

  /** The pids of v are, each once, those accessible in the second pass. */
  ghost predicate Shows(v: seq<Mark>, e: Env) {
    Consistent(e) && Unique(v) && forall q :: Has(v, q) <==> Live(e.pids, e.smaps, q)
  }

  lemma InstUnique(stat: SysStat)
    requires stat.Valid()
    ensures Unique(stat.inst.View())
  {
  }

  /** fill_system_processes_info keeps a tidy list tidy. */
  method FillTidy(list: ProcList, load: uint64 -> uint32) returns (count: uint32)
    requires Tidy(list)
    modifies (set n | n in list.nodes)`data
    ensures Tidy(list) && list.View() == Filled(old(list.View()), load) && count == U32(|list.nodes|)
    ensures NoneFound(old(list.View())) ==> NoneFound(list.View())
    ensures forall n :: n in list.nodes ==> n.threads.View() == old(n.threads.View())
    ensures forall m, t :: m in list.nodes && old(ThreadsAre(m, t)) ==> ThreadsAre(m, t)
  {
    hide Marks, Unique, NoneFound, Has, Live, U32, SamePids;
    ThreadsApart(list);
    ghost var v := list.View();
    count := FillLoads(list, load);
    FilledPids(v, load);
    SamePidsHas(v, list.View());
  }

  /** What the passes of one sample make of what the lists held. */
  lemma Exactly(v: seq<Mark>, w: seq<Mark>, e: Env)
    requires Unique(v) && Unique(w) && NoneFound(w) && Consistent(e)
    ensures var v' := Pass(Pass(v, e.pids, e.stat, Stat), e.pids, e.smaps, Smaps);
      forall q :: Has(v', q) <==> Live(e.pids, e.smaps, q)
    ensures var w' := Pass(w, e.others, e.otherStat, Stat);
      NoneFound(w') && forall q :: Has(w', q) <==> Live(e.others, e.otherStat, q)
  {
    hide Pass, Unique, NoneFound, Has, Live;
    forall q
      ensures Has(Pass(Pass(v, e.pids, e.stat, Stat), e.pids, e.smaps, Smaps), q) <==> Live(e.pids, e.smaps, q)
    {
      TwoPassesExact(v, e.pids, e.stat, e.smaps, q);
    }
    PassExact(w, e.others, e.otherStat, Stat);
  }
}