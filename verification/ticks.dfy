// What becomes of the ticks a process or thread uses: which of them samples count into a load, and which
// they lose (daemon/sys_stat.c:691-750, 1139-1215, 1365-1431), on values.

module Ticks {
  import opened Words
  import opened ProcSpec
  import opened Sampling

  /** The data of a listed pid. */
  function DataOf(v: seq<Mark>, q: int): ProcData
    requires Seek(v, q) < |v|
  {
    v[Seek(v, q)].data
  }

  lemma Listed(v: seq<Mark>, q: int)
    ensures Seek(v, q) < |v| <==> Has(v, q)
  {
  }

  lemma SeekIs(v: seq<Mark>, k: nat, q: int)
    requires Unique(v) && k < |v| && v[k].pid == q
    ensures Seek(v, q) == k && Has(v, q)
  {
  }

  // ------------------------------------------------------------- one scan

  /** What one look makes of the data of its pid. */
  function LookedData(v: seq<Mark>, pid: int, seen: Seen, kind: Kind, isNew: bool): ProcData
    requires seen.Read?
  {
    if Seek(v, pid) < |v| then Started(Refreshed(DataOf(v, pid), kind, seen.data), kind, isNew && kind.Stat?, seen.ret)
    else Started(seen.data, kind, true, seen.ret)
  }

  lemma LookKeeps(v: seq<Mark>, pid: int, seen: Seen, kind: Kind, isNew: bool, q: int)
    requires Unique(v)
    ensures var w := Looked(v, pid, seen, kind, isNew);
      && Unique(w)
      && (q != pid || pid == 0 ==>
            (Has(w, q) <==> Has(v, q)) && (Seek(v, q) < |v| ==> Seek(w, q) < |w| && DataOf(w, q) == DataOf(v, q)))
      && (q == pid && pid != 0 && seen.Read? ==>
            Seek(w, q) < |w| && DataOf(w, q) == LookedData(v, pid, seen, kind, isNew))
  {
    hide Without, Started, Refreshed, Unique, Has;
    var w, k := Looked(v, pid, seen, kind, isNew), Seek(v, pid);
    LookedHas(v, pid, seen, kind, isNew, q);
    Listed(v, q);
    Listed(w, q);
    if pid != 0 && q == pid && seen.Read? {
      SeekIs(w, if k < |v| then k else 0, q);
    }
    if q != pid && Seek(v, q) < |v| {
      var i := Seek(v, q);
      var i' := if seen.Read? then (if k < |v| || pid == 0 then i else i + 1)
                else if k < |v| && pid != 0 && k < i then i - 1 else i;
      WithoutAt(v, k, i);
      assert w[i'] == v[i];
      SeekIs(w, i', q);
    }
  }

  lemma WithoutAt(v: seq<Mark>, k: nat, i: nat)
    requires i < |v| && i != k
    ensures k < |v| ==> Without(v, k)[if k < i then i - 1 else i] == v[i]
  {
  }

  /** A pid that a scan does not name is there as before, with its data. */
  lemma {:induction false} ScanKeeps(v: seq<Mark>, pids: seq<int>, seen: seq<Seen>, kind: Kind, q: int)
    requires Unique(v) && |pids| == |seen| && (q == 0 || q !in pids)
    ensures var w := Scanned(v, pids, seen, kind);
      && Unique(w) && (Has(w, q) <==> Has(v, q))
      && (Seek(v, q) < |v| ==> Seek(w, q) < |w| && DataOf(w, q) == DataOf(v, q))
  {
    hide Unique, Has, Looked, Seek;
    if pids != [] {
      var n := |pids| - 1;
      var p := Scanning(v, pids[..n], seen[..n], kind);
      ScanKeeps(v, pids[..n], seen[..n], kind, q);
      Listed(v, q);
      Listed(p.list, q);
      LookKeeps(p.list, pids[n], seen[n], kind, p.isNew, q);
    }
  }

  /** The scan names q at j and nowhere else. */
  predicate OnlyAt(pids: seq<int>, j: nat, q: int) {
    j < |pids| && pids[j] == q && forall i :: 0 <= i < |pids| && i != j ==> pids[i] != q
  }

  /** Whether a new process was met before the j-th. */
  predicate NewBefore(v: seq<Mark>, pids: seq<int>, seen: seq<Seen>, kind: Kind, j: nat)
    requires j <= |pids| == |seen|
  {
    Scanning(v, pids[..j], seen[..j], kind).isNew
  }

  /** That is, one that could be read and was not listed when it came to its turn. */
  lemma {:induction false} NewBeforeWhen(v: seq<Mark>, pids: seq<int>, seen: seq<Seen>, kind: Kind, j: nat)
    requires j <= |pids| == |seen|
    ensures NewBefore(v, pids, seen, kind, j) <==>
      exists i :: 0 <= i < j && pids[i] != 0 && seen[i].Read? && !Has(Scanned(v, pids[..i], seen[..i], kind), pids[i])
  {
    hide Looked, Has;
    if j > 0 {
      NewBeforeWhen(v, pids, seen, kind, j - 1);
      assert pids[..j][..j - 1] == pids[..j - 1] && seen[..j][..j - 1] == seen[..j - 1];
      Listed(Scanned(v, pids[..j - 1], seen[..j - 1], kind), pids[j - 1]);
    }
  }

  /** The data a scan leaves for a pid it names once. */
  lemma {:induction false} ScanData(v: seq<Mark>, pids: seq<int>, seen: seq<Seen>, kind: Kind, q: int, j: nat)
    requires Unique(v) && |pids| == |seen| && OnlyAt(pids, j, q) && q != 0 && seen[j].Read?
    ensures var w := Scanned(v, pids, seen, kind);
      && Unique(w) && Seek(w, q) < |w|
      && DataOf(w, q) == LookedData(v, q, seen[j], kind, Scanning(v, pids[..j], seen[..j], kind).isNew)
  {
    hide Unique, Has, Looked, Seek, Started, Refreshed;
    var n := |pids| - 1;
    var p := Scanning(v, pids[..n], seen[..n], kind);
    if j == n {
      ScanKeeps(v, pids[..n], seen[..n], kind, q);
      Listed(v, q);
      Listed(p.list, q);
    } else {
      assert pids[..n][..j] == pids[..j] && seen[..n][..j] == seen[..j];
      ScanData(v, pids[..n], seen[..n], kind, q, j);
    }
    LookKeeps(p.list, pids[n], seen[n], kind, p.isNew, q);
  }

  lemma SweepKeeps(v: seq<Mark>, k: nat)
    requires Unique(v) && k < |v| && v[k].found
    ensures Unique(Swept(v)) && Seek(Swept(v), v[k].pid) < |Swept(v)| && DataOf(Swept(v), v[k].pid) == v[k].data
  {
    SweptAt(v, k);
    var i :| 0 <= i < |Swept(v)| && Swept(v)[i] == v[k];
    SweptHas(v, 0);
    SeekIs(Swept(v), i, v[k].pid);
  }

  lemma {:induction false} SweptAt(v: seq<Mark>, k: nat)
    requires k < |v| && v[k].found
    ensures exists i :: 0 <= i < |Swept(v)| && Swept(v)[i] == v[k]
  {
    var n := |v| - 1;
    if k == n {
      assert Swept(v)[|Swept(v)| - 1] == v[k];
    } else {
      SweptAt(v[..n], k);
      var i :| 0 <= i < |Swept(v[..n])| && Swept(v[..n])[i] == v[k];
      assert Swept(v)[i] == v[k];
    }
  }

  lemma SameDataOf(v: seq<Mark>, w: seq<Mark>, q: int)
    requires SameData(v, w) && Unique(v)
    ensures Unique(w) && (Has(w, q) <==> Has(v, q))
    ensures Seek(v, q) < |v| ==> Seek(w, q) == Seek(v, q) && DataOf(w, q) == DataOf(v, q)
  {
    assert forall i :: 0 <= i < |v| ==> v[i].pid == w[i].pid;
    if Seek(v, q) < |v| {
      SeekIs(w, Seek(v, q), q);
    }
  }

  /** What a pass leaves for a pid it names once and can read. */
  lemma PassData(v: seq<Mark>, pids: seq<int>, seen: seq<Seen>, kind: Kind, q: int, j: nat)
    requires Unique(v) && |pids| == |seen| && OnlyAt(pids, j, q) && q != 0 && seen[j].Read?
    ensures var w := Pass(v, pids, seen, kind);
      && Unique(w) && Seek(w, q) < |w|
      && DataOf(w, q) == LookedData(v, q, seen[j], kind, Scanning(v, pids[..j], seen[..j], kind).isNew)
  {
    hide Unique, Has, Scanning, Swept, Cleared, Seek, LookedData, SameData;
    var w := Scanned(v, pids, seen, kind);
    ScanData(v, pids, seen, kind, q, j);
    ScannedHas(v, pids, seen, kind, q);
    LiveWhen(pids, seen, q, j);
    MarkedAt(w, q);
    SweepKeeps(w, Seek(w, q));
    ClearedData(Swept(w));
    SameDataOf(Swept(w), Cleared(Swept(w)), q);
  }

  lemma ClearedData(v: seq<Mark>)
    ensures SameData(v, Cleared(v))
  {
    hide Cleared;
  }

  lemma MarkedAt(v: seq<Mark>, q: int)
    requires Unique(v) && Marked(v, q)
    ensures Seek(v, q) < |v| && v[Seek(v, q)].found && v[Seek(v, q)].pid == q
  {
    var i :| 0 <= i < |v| && v[i].pid == q && v[i].found;
    SeekIs(v, i, q);
  }

  lemma {:induction false} LiveWhen(pids: seq<int>, seen: seq<Seen>, q: int, j: nat)
    requires |pids| == |seen| && OnlyAt(pids, j, q) && q != 0
    ensures Live(pids, seen, q) <==> seen[j].Read?
  {
    var n := |pids| - 1;
    if j < n {
      LiveWhen(pids[..n], seen[..n], q, j);
    }
  }

  // ------------------------------------------------------------ one sample

  /** If a sample looks at the list at all, it names q once, at j, and can access it in every pass. */
  predicate ReadAt(s: Visit, q: int, j: nat) {
    && Fitting(s)
    && (s.Visit? ==>
          && OnlyAt(s.ids, j, q) && q != 0 && s.seen[j].Read?
          && (s.second.Second? ==> s.second.seen[j].Read?))
  }

  /** The ticks of q are saved without being counted, because a new process came before it. */
  predicate Restarts(v: seq<Mark>, s: Visit, q: int, j: nat)
    requires ReadAt(s, q, j)
  {
    s.Visit? && s.kind.Stat? && s.seen[j].ret >= 0 && NewBefore(v, s.ids, s.seen, s.kind, j)
  }

  /** The ticks used since they were last saved, if q was listed. */
  function Elapsed(v: seq<Mark>, s: Visit, q: int, j: nat): uint64
    requires ReadAt(s, q, j) && s.Visit?
  {
    if Seek(v, q) < |v| then U64(s.seen[j].data.ticks - DataOf(v, q).saved) else 0
  }

  /** Those that go into a load: a sample that fails computes none. */
  function Counted(v: seq<Mark>, s: Visit, q: int, j: nat): uint64
    requires ReadAt(s, q, j)
  {
    if s.Visit? && s.filled && !Restarts(v, s, q, j) then Elapsed(v, s, q, j) else 0
  }

  /** Those that never will, whether or not the sample fails. */
  function Lost(v: seq<Mark>, s: Visit, q: int, j: nat): uint64
    requires ReadAt(s, q, j)
  {
    if Restarts(v, s, q, j) then Elapsed(v, s, q, j) else 0
  }

  /** The load of a process or thread is that of the ticks it used since they were last saved, or of none if
      a new process was met before it in this sample. They are saved when a load is computed, when a new
      process was met before, and for a new node; after a failed sample without that they are still due. */
  lemma VisitTicks(v: seq<Mark>, s: Visit, q: int, j: nat)
    requires Unique(v) && ReadAt(s, q, j) && s.Visit? && (Seek(v, q) < |v| || s.seen[j].ret >= 0)
    ensures var w, now := Visited(v, s), s.seen[j].data.ticks;
      && Unique(w) && Seek(w, q) < |w| && DataOf(w, q).ticks == now
      && (s.filled ==> DataOf(w, q).cpuLoad == s.load(Counted(v, s, q, j)))
      && DataOf(w, q).saved
           == if s.filled || Restarts(v, s, q, j) || Seek(v, q) == |v| then now else DataOf(v, q).saved
  {
    hide Unique, Has, Pass, Seek, Filled, Scanning;
    var u, t := Pass(v, s.ids, s.seen, s.kind), Passed(v, s);
    PassData(v, s.ids, s.seen, s.kind, q, j);
    if s.second.Second? {
      PassData(u, s.ids, s.second.seen, Smaps, q, j);
    }
    SeekEnds(v, q);
    StartedWhen(v, s, q, j);
    FilledData(t, q, s.load);
    if s.filled {
      UsedIs(v, s, q, j, DataOf(t, q));
    }
  }

  /** The memory of a process read in a sample: the sizes in its stat file, and those in its smaps file if
      the sample comes to read it; else these are as before, or as malloc left them in a new node. */
  lemma VisitMemory(v: seq<Mark>, s: Visit, q: int, j: nat)
    requires Unique(v) && ReadAt(s, q, j) && s.Visit?
    ensures var w, read := Visited(v, s), s.seen[j].data;
      && Unique(w) && Seek(w, q) < |w|
      && DataOf(w, q).virMem == read.virMem && DataOf(w, q).resMem == read.resMem
      && (s.second.Second? ==>
            && DataOf(w, q).shMem == s.second.seen[j].data.shMem
            && DataOf(w, q).pss == s.second.seen[j].data.pss)
      && (s.second.NoSecond? ==>
            var was := if Seek(v, q) < |v| then DataOf(v, q) else read;
            DataOf(w, q).shMem == was.shMem && DataOf(w, q).pss == was.pss)
  {
    hide Unique, Has, Pass, Seek, Filled, Scanning, LookedData;
    var u, t := Pass(v, s.ids, s.seen, s.kind), Passed(v, s);
    PassData(v, s.ids, s.seen, s.kind, q, j);
    LookedMemory(v, q, s.seen[j], s.kind, NewBefore(v, s.ids, s.seen, s.kind, j));
    if s.second.Second? {
      PassData(u, s.ids, s.second.seen, Smaps, q, j);
      LookedMemory(u, q, s.second.seen[j], Smaps, NewBefore(u, s.ids, s.second.seen, Smaps, j));
    }
    FilledData(t, q, s.load);
  }

  /** What one look does to the memory values. */
  lemma LookedMemory(v: seq<Mark>, q: int, seen: Seen, kind: Kind, isNew: bool)
    requires seen.Read?
    ensures var d := LookedData(v, q, seen, kind, isNew);
      && (!kind.Smaps? || Seek(v, q) == |v| ==> d.virMem == seen.data.virMem && d.resMem == seen.data.resMem)
      && (kind.Smaps? || Seek(v, q) == |v| ==> d.shMem == seen.data.shMem && d.pss == seen.data.pss)
      && (kind.Smaps? && Seek(v, q) < |v| ==> d.virMem == DataOf(v, q).virMem && d.resMem == DataOf(v, q).resMem)
      && (!kind.Smaps? && Seek(v, q) < |v| ==> d.shMem == DataOf(v, q).shMem && d.pss == DataOf(v, q).pss)
  {
    hide Seek;
    SeekEnds(v, q);
  }

  lemma SeekEnds(v: seq<Mark>, q: int)
    ensures Seek(v, q) <= |v|
  {
  }

  lemma FilledData(v: seq<Mark>, q: int, load: uint64 -> uint32)
    requires Unique(v) && Seek(v, q) < |v|
    ensures var w := Filled(v, load);
      && Unique(w) && Seek(w, q) < |w|
      && DataOf(w, q) == DataOf(v, q).(cpuLoad := load(Used(DataOf(v, q))), saved := DataOf(v, q).ticks)
  {
    hide Filled, Used;
    var w := Filled(v, load);
    assert forall i :: 0 <= i < |v| ==> w[i].pid == v[i].pid;
    SeekIs(w, Seek(v, q), q);
  }

  /** What the first pass leaves in the node. */
  lemma StartedWhen(v: seq<Mark>, s: Visit, q: int, j: nat)
    requires ReadAt(s, q, j) && s.Visit? && (Seek(v, q) < |v| || s.seen[j].ret >= 0)
    ensures var d := LookedData(v, q, s.seen[j], s.kind, NewBefore(v, s.ids, s.seen, s.kind, j));
      && d.ticks == s.seen[j].data.ticks
      && d.saved == if Restarts(v, s, q, j) || Seek(v, q) == |v| then d.ticks else DataOf(v, q).saved
  {
    hide NewBefore, Seek;
    SeekEnds(v, q);
  }

  lemma UsedIs(v: seq<Mark>, s: Visit, q: int, j: nat, d: ProcData)
    requires ReadAt(s, q, j) && s.Visit? && s.filled && d.ticks == s.seen[j].data.ticks
    requires d.saved == if Restarts(v, s, q, j) || Seek(v, q) == |v| then d.ticks else DataOf(v, q).saved
    ensures Used(d) == Counted(v, s, q, j)
  {
    hide Restarts, Seek;
    SeekEnds(v, q);
  }

  // --------------------------------------------------------- over many samples

  /** A list before and after samples, failed ones among them, that read q if they look at it. */
  ghost predicate Samples(vs: seq<seq<Mark>>, ss: seq<Visit>, js: seq<nat>, q: int) {
    && |vs| == |ss| + 1 && |js| == |ss| && Unique(vs[0])
    && forall i :: 0 <= i < |ss| ==> ReadAt(ss[i], q, js[i]) && SameData(Visited(vs[i], ss[i]), vs[i + 1])
  }

  ghost function SumCounted(vs: seq<seq<Mark>>, ss: seq<Visit>, js: seq<nat>, q: int, n: nat): nat
    requires Samples(vs, ss, js, q) && n <= |ss|
  {
    if n == 0 then 0 else SumCounted(vs, ss, js, q, n - 1) + Counted(vs[n - 1], ss[n - 1], q, js[n - 1])
  }

  ghost function SumLost(vs: seq<seq<Mark>>, ss: seq<Visit>, js: seq<nat>, q: int, n: nat): nat
    requires Samples(vs, ss, js, q) && n <= |ss|
  {
    if n == 0 then 0 else SumLost(vs, ss, js, q, n - 1) + Lost(vs[n - 1], ss[n - 1], q, js[n - 1])
  }

  /** Over any samples, failed ones among them, the ticks that went into loads and those that were lost are
      together those used up to when they were last saved, in 64 bits; so all of them are counted exactly if
      those lost add up to none. */
  lemma {:induction false} TicksConserved(vs: seq<seq<Mark>>, ss: seq<Visit>, js: seq<nat>, q: int, n: nat)
    requires Samples(vs, ss, js, q) && n <= |ss| && Seek(vs[0], q) < |vs[0]|
    ensures Unique(vs[n]) && Seek(vs[n], q) < |vs[n]|
    ensures var used := U64(DataOf(vs[n], q).saved - DataOf(vs[0], q).saved);
      && U64(SumCounted(vs, ss, js, q, n) + SumLost(vs, ss, js, q, n)) == used
      && (U64(SumCounted(vs, ss, js, q, n)) == used <==> U64(SumLost(vs, ss, js, q, n)) == 0)
    ensures n > 0 && ss[n - 1].Visit? && (ss[n - 1].filled || Restarts(vs[n - 1], ss[n - 1], q, js[n - 1])) ==>
      DataOf(vs[n], q).saved == ss[n - 1].seen[js[n - 1]].data.ticks
  {
    hide Unique, Seek, Visited, SameData, U64, Restarts;
    if n == 0 {
      U64Zero();
    } else {
      TicksConserved(vs, ss, js, q, n - 1);
      var v, s, j := vs[n - 1], ss[n - 1], js[n - 1];
      var before := SumCounted(vs, ss, js, q, n - 1) + SumLost(vs, ss, js, q, n - 1);
      SampleConserves(v, s, j, q, vs[n]);
      var s0: int, s1: int, s2: int := DataOf(vs[0], q).saved, DataOf(v, q).saved, DataOf(vs[n], q).saved;
      U64Inner(before, U64(s2 - s1));
      U64Sum(s1 - s0, s2 - s1);
    }
    U64Shift(SumCounted(vs, ss, js, q, n), SumLost(vs, ss, js, q, n));
  }

  /** One of them. */
  lemma SampleConserves(v: seq<Mark>, s: Visit, j: nat, q: int, now: seq<Mark>)
    requires Unique(v) && Seek(v, q) < |v| && ReadAt(s, q, j) && SameData(Visited(v, s), now)
    ensures Unique(now) && Seek(now, q) < |now|
    ensures Counted(v, s, q, j) + Lost(v, s, q, j) == U64(DataOf(now, q).saved - DataOf(v, q).saved)
    ensures s.Visit? && (s.filled || Restarts(v, s, q, j)) ==> DataOf(now, q).saved == s.seen[j].data.ticks
  {
    hide Unique, Seek, Passed, SameData, U64, Filled;
    U64Zero();
    if s.Visit? {
      VisitTicks(v, s, q, j);
    }
    SameDataOf(Visited(v, s), now, q);
  }

  /** What a run of samples leaves of the instrumented processes, and of the others, is of that kind. */
  lemma SamplesOfRun(oks: seq<bool>, shots: seq<seq<Mark>>, otherShots: seq<seq<Mark>>, es: seq<Env>,
                     js: seq<nat>, q: int)
    requires |oks| == |es| == |js| && |shots| == |otherShots| == |es| + 1 && Unique(shots[0]) && Unique(otherShots[0])
    requires forall i {:trigger oks[i]} :: 0 <= i < |es| ==>
      Follows(oks[i], shots[i], shots[i + 1], otherShots[i], otherShots[i + 1], es[i])
    ensures forall i :: 0 <= i < |es| ==> Consistent(es[i])
    ensures (forall i :: 0 <= i < |es| ==> ReadAt(InstVisit(es[i]), q, js[i])) ==>
      Samples(shots, seq(|es|, i requires 0 <= i < |es| => InstVisit(es[i])), js, q)
    ensures (forall i :: 0 <= i < |es| ==> ReadAt(OtherVisit(es[i]), q, js[i])) ==>
      Samples(otherShots, seq(|es|, i requires 0 <= i < |es| => OtherVisit(es[i])), js, q)
  {
    hide Visited, Unique, ReadAt, InstVisit, OtherVisit, Shows, Succeeds, Consistent;
    forall i | 0 <= i < |es|
      ensures Consistent(es[i]) && SameData(Visited(shots[i], InstVisit(es[i])), shots[i + 1])
      ensures SameData(Visited(otherShots[i], OtherVisit(es[i])), otherShots[i + 1])
    {
      assert Follows(oks[i], shots[i], shots[i + 1], otherShots[i], otherShots[i + 1], es[i]);
    }
  }

  // ---------------------------------------------------------------- threads

  /** What a sample does to the threads of the process it names at j. */
  function TaskVisit(e: Env, j: nat): (s: Visit)
    requires Consistent(e) && j < |e.pids| && e.tasks[j].TaskDir?
    ensures Fitting(s) && s.Visit?
  {
    assert Possible(e.tasks[j]);
    Visit(e.tasks[j].tids, e.tasks[j].seen, Task, NoSecond, Succeeds(e), e.load)
  }

  /** So all of the above holds of threads too, if their process is named once and its turn comes. */
  lemma ThreadsVisited(w: seq<Mark>, q: int, e: Env, v: seq<Mark>, j: nat)
    requires Consistent(e) && e.wanted && ListsRead(e) && OnlyAt(e.pids, j, q) && e.tasks[j].TaskDir?
    requires AllScanned(v, e.pids[..j], e.tasks[..j])
    ensures ThreadsLeft(w, q, e, v) == Visited(w, TaskVisit(e, j))
  {
    hide Pass, Filled, AllScanned, Succeeds, Reaches;
    TasksOnce(w, q, v, e.pids, e.tasks, j);
  }

  lemma {:induction false} TasksOnce(w: seq<Mark>, q: int, v: seq<Mark>, pids: seq<int>, tasks: seq<Tasks>, j: nat)
    requires |pids| == |tasks| && (forall t :: t in tasks ==> Possible(t)) && OnlyAt(pids, j, q) && tasks[j].TaskDir?
    requires AllScanned(v, pids[..j], tasks[..j])
    ensures Possible(tasks[j]) && TasksOf(w, q, v, pids, tasks) == Pass(w, tasks[j].tids, tasks[j].seen, Task)
  {
    hide Pass, AllScanned, TasksRead;
    var n := |pids| - 1;
    assert tasks[j] in tasks;
    if j == n {
      TasksNone(w, q, v, pids[..n], tasks[..n]);
    } else {
      assert pids[..n][..j] == pids[..j] && tasks[..n][..j] == tasks[..j];
      TasksOnce(w, q, v, pids[..n], tasks[..n], j);
    }
  }

  lemma {:induction false} TasksNone(w: seq<Mark>, q: int, v: seq<Mark>, pids: seq<int>, tasks: seq<Tasks>)
    requires |pids| == |tasks| && (forall t :: t in tasks ==> Possible(t)) && q !in pids
    ensures TasksOf(w, q, v, pids, tasks) == w
  {
    hide Pass, AllScanned, TasksRead;
    if pids != [] {
      TasksNone(w, q, v, pids[..|pids| - 1], tasks[..|pids| - 1]);
    }
  }

  /** And of threads none is ever lost: the flag is kept for each of them alone. */
  lemma {:induction false} ThreadsLoseNone(vs: seq<seq<Mark>>, ss: seq<Visit>, js: seq<nat>, q: int, n: nat)
    requires Samples(vs, ss, js, q) && n <= |ss| && forall s :: s in ss && s.Visit? ==> s.kind.Task?
    ensures SumLost(vs, ss, js, q, n) == 0
  {
    hide Unique, Visited, SameData, NewBefore;
    if n > 0 {
      ThreadsLoseNone(vs, ss, js, q, n - 1);
    }
  }

  lemma U64Zero()
    ensures U64(0) == 0
  {
  }

  lemma U64Inner(x: int, y: int)
    ensures U64(U64(x) + y) == U64(x + y)
  {
    U64Same(U64(x) + y, x + y, -(x / 0x1_0000_0000_0000_0000));
  }

  lemma U64Shift(x: nat, y: nat)
    ensures U64(x) == U64(x + y) <==> U64(y) == 0
  {
    var w := 0x1_0000_0000_0000_0000;
    if U64(y) == 0 {
      U64Same(x + y, x, y / w);
    } else if U64(x) == U64(x + y) {
      U64Same(y, 0, (x + y) / w - x / w);
    }
  }
}
