// What the process lists of daemon/sys_stat.c hold, as values, and what two scans leave in them.

module ProcSpec {
  import opened Words

  /** The part of proc_t that is sent, every field as wide as it is packed, the ticks used so far, which
      are utime + stime, and those saved when the last load was computed. The load is a bit pattern. */
  datatype ProcData = ProcData(cpuLoad: uint32, virMem: uint64, resMem: uint64, shMem: uint64, pss: uint64,
                               ticks: uint64, saved: uint64)

  /** procNode. */
  datatype Mark = Mark(pid: int, found: bool, data: ProcData)

  /** What looking at a pid gives: it cannot be accessed, or reading one of its files returned ret. data
      has the fields that were read, and in the others what malloc leaves in a new node. */
  datatype Seen = Gone(errno: int) | Read(ret: int, data: ProcData)

  /** The file that is read: stat or smaps of a process, or stat of a thread. */
  datatype Kind = Stat | Smaps | Task

  /** Reading into a node that was there. */
  function Refreshed(d: ProcData, kind: Kind, data: ProcData): ProcData {
    if kind.Smaps? then d.(shMem := data.shMem, pss := data.pss)
    else d.(virMem := data.virMem, resMem := data.resMem, ticks := data.ticks)
  }

  /** The ticks of a node taken for new are saved, unless reading failed. */
  function Started(d: ProcData, kind: Kind, isNew: bool, ret: int): ProcData {
    if !kind.Smaps? && isNew && ret >= 0 then d.(saved := d.ticks) else d
  }

  /** The first node with this pid, or the length. */
  function Seek(v: seq<Mark>, pid: int): (k: nat)
    ensures k <= |v|
    ensures k < |v| ==> v[k].pid == pid
    ensures forall i :: 0 <= i < k ==> v[i].pid != pid
  {
    if v == [] || v[0].pid == pid then 0 else 1 + Seek(v[1..], pid)
  }

  function Touched(v: seq<Mark>, pid: int): seq<Mark> {
    var k := Seek(v, pid);
    if k < |v| then v[k := v[k].(found := true)] else v
  }

  function Deleted(v: seq<Mark>, pid: int): seq<Mark> {
    var k := Seek(v, pid);
    if k < |v| then Without(v, k) else v
  }

  /** Nodes without the found mark dropped. */
  function Swept(v: seq<Mark>): seq<Mark> {
    if v == [] then []
    else
      var m := v[|v| - 1];
      Swept(v[..|v| - 1]) + if m.found then [m] else []
  }

  function Cleared(v: seq<Mark>): (r: seq<Mark>)
    ensures |r| == |v|
    ensures forall i {:trigger r[i]} :: 0 <= i < |v| ==> r[i] == v[i].(found := false)
  {
    if v == [] then [] else Cleared(v[..|v| - 1]) + [v[|v| - 1].(found := false)]
  }

  /** A new node is made for the pid. */
  predicate Newly(v: seq<Mark>, pid: int, seen: Seen) {
    pid != 0 && seen.Read? && Seek(v, pid) == |v|
  }

  /** One pid of a scan; isNew is the flag as it was before. It is never reset in a scan of processes, so
      that all that follow a new process are taken for new. */
  function Looked(v: seq<Mark>, pid: int, seen: Seen, kind: Kind, isNew: bool): seq<Mark> {
    if pid == 0 then v
    else
      match seen
      case Gone(_) => Deleted(v, pid)
      case Read(ret, data) =>
        var k := Seek(v, pid);
        if k < |v| then
          v[k := Mark(pid, true, Started(Refreshed(v[k].data, kind, data), kind, isNew && kind.Stat?, ret))]
        else
          [Mark(pid, true, Started(data, kind, true, ret))] + v
  }

  /** How far a scan has come: the list, and whether a new process has been met. */
  datatype Progress = Progress(list: seq<Mark>, isNew: bool)

  function Scanning(v: seq<Mark>, pids: seq<int>, seen: seq<Seen>, kind: Kind): Progress
    requires |pids| == |seen|
  {
    if pids == [] then Progress(v, false)
    else
      var n := |pids| - 1;
      var p := Scanning(v, pids[..n], seen[..n], kind);
      Progress(Looked(p.list, pids[n], seen[n], kind, p.isNew), p.isNew || Newly(p.list, pids[n], seen[n]))
  }

  function Scanned(v: seq<Mark>, pids: seq<int>, seen: seq<Seen>, kind: Kind): seq<Mark>
    requires |pids| == |seen|
  {
    Scanning(v, pids, seen, kind).list
  }

  /** update_process_data: scan, sweep, clear. */
  function Pass(v: seq<Mark>, pids: seq<int>, seen: seq<Seen>, kind: Kind): seq<Mark>
    requires |pids| == |seen|
  {
    Cleared(Swept(Scanned(v, pids, seen, kind)))
  }

  // ------------------------------------------------------------------- loads

  /** Ticks used since they were saved, as 64-bit counters tell it. */
  function Used(d: ProcData): uint64 {
    U64(d.ticks - d.saved)
  }

  /** What the fill step makes of every node; load stands for the float arithmetic on used ticks. */
  function Filled(v: seq<Mark>, load: uint64 -> uint32): (w: seq<Mark>)
    ensures |w| == |v|
    ensures forall i {:trigger w[i]} :: 0 <= i < |v| ==>
      w[i] == v[i].(data := v[i].data.(cpuLoad := load(Used(v[i].data)), saved := v[i].data.ticks))
  {
    if v == [] then []
    else
      var m := v[|v| - 1];
      Filled(v[..|v| - 1], load) + [m.(data := m.data.(cpuLoad := load(Used(m.data)), saved := m.data.ticks))]
  }

  /** A second look at the same pids, for their smaps. */
  datatype Second = NoSecond | Second(seen: seq<Seen>)

  /** What one sample does to a list: nothing, or one or two passes, and then, if it comes to its end, the
      fill step. */
  datatype Visit =
    | Skipped
    | Visit(ids: seq<int>, seen: seq<Seen>, kind: Kind, second: Second, filled: bool, load: uint64 -> uint32)

  predicate Fitting(s: Visit) {
    s.Visit? ==> !s.kind.Smaps? && |s.ids| == |s.seen| && (s.second.Second? ==> |s.second.seen| == |s.ids|)
  }

  /** The same, with the fill step or without. */
  function Ended(s: Visit, filled: bool): (r: Visit)
    ensures Fitting(s) ==> Fitting(r)
  {
    if s.Visit? then s.(filled := filled) else s
  }

  /** The list after the passes. */
  function Passed(v: seq<Mark>, s: Visit): seq<Mark>
    requires Fitting(s) && s.Visit?
  {
    var u := Pass(v, s.ids, s.seen, s.kind);
    match s.second
    case NoSecond => u
    case Second(seen) => Pass(u, s.ids, seen, Smaps)
  }

  function Visited(v: seq<Mark>, s: Visit): seq<Mark>
    requires Fitting(s)
  {
    if s.Skipped? then v else if s.filled then Filled(Passed(v, s), s.load) else Passed(v, s)
  }

  /** The first k nodes with new loads. */
  function FilledTo(v: seq<Mark>, k: nat, load: uint64 -> uint32): seq<Mark>
    requires k <= |v|
  {
    Filled(v[..k], load) + v[k..]
  }

  lemma FilledNext(v: seq<Mark>, k: nat, load: uint64 -> uint32)
    requires k < |v|
    ensures |FilledTo(v, k, load)| == |v| && FilledTo(v, k, load)[k] == v[k]
    ensures var d := v[k].data;
      FilledTo(v, k + 1, load)
        == FilledTo(v, k, load)[k := v[k].(data := d.(cpuLoad := load(Used(d)), saved := d.ticks))]
  {
    hide Used;
    assert v[..k + 1][..k] == v[..k];
  }

  lemma FilledEnds(v: seq<Mark>, load: uint64 -> uint32)
    ensures FilledTo(v, 0, load) == v && FilledTo(v, |v|, load) == Filled(v, load)
  {
    hide Used;
    assert v[..|v|] == v;
  }

  /** The same nodes with the same data; marks may differ. */
  ghost predicate SameData(v: seq<Mark>, w: seq<Mark>) {
    |v| == |w| && forall i :: 0 <= i < |v| ==> v[i].pid == w[i].pid && v[i].data == w[i].data
  }

  lemma SameDataFilled(v: seq<Mark>, w: seq<Mark>, load: uint64 -> uint32)
    requires SameData(v, w)
    ensures SameData(Filled(v, load), Filled(w, load))
  {
    hide Filled, Used;
  }

  lemma SameDataTwice(u: seq<Mark>, v: seq<Mark>, w: seq<Mark>)
    requires SameData(u, v) && SameData(v, w)
    ensures SameData(u, w)
  {
  }

  lemma {:induction false} SameDataSeek(v: seq<Mark>, w: seq<Mark>, pid: int)
    requires SameData(v, w)
    ensures Seek(v, pid) == Seek(w, pid) && (Has(v, pid) <==> Has(w, pid))
  {
    if v != [] {
      SameDataSeek(v[1..], w[1..], pid);
    }
    assert forall i :: 0 <= i < |v| ==> v[i].pid == w[i].pid;
  }

  lemma TouchedData(v: seq<Mark>, pid: int)
    ensures SameData(v, v) && SameData(v, Touched(v, pid))
  {
  }

  // ------------------------------------------------------------------- facts

  ghost predicate Unique(v: seq<Mark>) {
    forall i, j :: 0 <= i < j < |v| ==> v[i].pid != v[j].pid
  }

  ghost predicate Has(v: seq<Mark>, pid: int) {
    exists i :: 0 <= i < |v| && v[i].pid == pid
  }

  ghost predicate Marked(v: seq<Mark>, pid: int) {
    exists i :: 0 <= i < |v| && v[i].pid == pid && v[i].found
  }

  ghost predicate NoneFound(v: seq<Mark>) {
    forall i :: 0 <= i < |v| ==> !v[i].found
  }

  /** The scan named the pid and could access it the last time it did. */
  predicate Live(pids: seq<int>, seen: seq<Seen>, pid: int)
    requires |pids| == |seen|
  {
    if pids == [] then false
    else
      var n := |pids| - 1;
      if pid != 0 && pids[n] == pid then seen[n].Read? else Live(pids[..n], seen[..n], pid)
  }

  lemma DeletedHas(v: seq<Mark>, k: nat, q: int)
    requires Unique(v) && k < |v|
    ensures var w := Without(v, k);
      && Unique(w) && !Has(w, v[k].pid) && !Marked(w, v[k].pid)
      && (q != v[k].pid ==> (Has(w, q) <==> Has(v, q)) && (Marked(w, q) <==> Marked(v, q)))
  {
    var w := Without(v, k);
    assert forall i :: 0 <= i < k ==> w[i] == v[i];
    assert forall i :: k < i < |v| ==> w[i - 1] == v[i];
  }

  lemma AddedHas(v: seq<Mark>, m: Mark, q: int)
    requires Unique(v) && !Has(v, m.pid) && m.found
    ensures var w := [m] + v;
      && Unique(w) && Has(w, m.pid) && Marked(w, m.pid)
      && (q != m.pid ==> (Has(w, q) <==> Has(v, q)) && (Marked(w, q) <==> Marked(v, q)))
  {
    var w := [m] + v;
    assert w[0] == m;
    assert forall i :: 0 <= i < |v| ==> w[i + 1] == v[i];
  }

  lemma RenewedHas(v: seq<Mark>, k: nat, m: Mark, q: int)
    requires Unique(v) && k < |v| && v[k].pid == m.pid && m.found
    ensures var w := v[k := m];
      && Unique(w) && Has(w, m.pid) && Marked(w, m.pid)
      && (q != m.pid ==> (Has(w, q) <==> Has(v, q)) && (Marked(w, q) <==> Marked(v, q)))
  {
    var w := v[k := m];
    assert w[k] == m;
    assert forall i :: 0 <= i < |v| && i != k ==> w[i] == v[i];
  }

  /** One look settles its pid and leaves the others as they were. */
  lemma LookedHas(v: seq<Mark>, pid: int, seen: Seen, kind: Kind, isNew: bool, q: int)
    requires Unique(v)
    ensures var w := Looked(v, pid, seen, kind, isNew);
      && Unique(w)
      && (pid == 0 || pid != q ==> (Has(w, q) <==> Has(v, q)) && (Marked(w, q) <==> Marked(v, q)))
      && (pid != 0 && pid == q ==> (Has(w, q) <==> seen.Read?) && (Marked(w, q) <==> seen.Read?))
  {
    hide Without;
    var k := Seek(v, pid);
    if pid != 0 {
      if seen.Gone? && k < |v| {
        DeletedHas(v, k, q);
      } else if seen.Read? && k < |v| {
        RenewedHas(v, k, Looked(v, pid, seen, kind, isNew)[k], q);
      } else if seen.Read? {
        AddedHas(v, Looked(v, pid, seen, kind, isNew)[0], q);
      }
    }
  }

  /** After a scan a pid the scan named is there, and marked, iff it was accessible last time; one
      it did not name is as before. */
  lemma {:induction false} ScannedHas(v: seq<Mark>, pids: seq<int>, seen: seq<Seen>, kind: Kind, q: int)
    requires Unique(v) && |pids| == |seen|
    ensures var w := Scanned(v, pids, seen, kind);
      && Unique(w)
      && (q != 0 && q in pids ==>
            (Has(w, q) <==> Live(pids, seen, q)) && (Marked(w, q) <==> Live(pids, seen, q)))
      && (q == 0 || q !in pids ==>
            !Live(pids, seen, q) && (Has(w, q) <==> Has(v, q)) && (Marked(w, q) <==> Marked(v, q)))
  {
    if pids != [] {
      hide Has, Marked, Unique, Looked;
      var n := |pids| - 1;
      var p := Scanning(v, pids[..n], seen[..n], kind);
      ScannedHas(v, pids[..n], seen[..n], kind, q);
      LookedHas(p.list, pids[n], seen[n], kind, p.isNew, q);
      assert q in pids <==> q in pids[..n] || q == pids[n];
    }
  }

  lemma SnocHas(v: seq<Mark>, m: Mark, q: int)
    ensures Has(v + [m], q) <==> Has(v, q) || m.pid == q
    ensures Marked(v + [m], q) <==> Marked(v, q) || (m.pid == q && m.found)
    ensures Unique(v + [m]) <==> Unique(v) && !Has(v, m.pid)
  {
    var w := v + [m];
    assert w[|v|] == m;
    assert forall i :: 0 <= i < |v| ==> w[i] == v[i];
  }

  lemma {:induction false} SweptHas(v: seq<Mark>, q: int)
    requires Unique(v)
    ensures Unique(Swept(v)) && (Has(Swept(v), q) <==> Marked(v, q)) && (Marked(v, q) ==> Has(v, q))
  {
    if v != [] {
      hide Unique, Has, Marked;
      var n := |v| - 1;
      assert v == v[..n] + [v[n]];
      SnocHas(v[..n], v[n], q);
      SweptHas(v[..n], q);
      SweptHas(v[..n], v[n].pid);
      SnocHas(Swept(v[..n]), v[n], q);
      assert Swept(v[..n]) + [] == Swept(v[..n]);
    } else {
      assert Swept(v) == [];
    }
  }

  lemma ClearedHas(v: seq<Mark>, q: int)
    ensures Unique(v) ==> Unique(Cleared(v))
    ensures Has(Cleared(v), q) <==> Has(v, q)
    ensures NoneFound(Cleared(v))
  {
    hide Cleared;
    var w := Cleared(v);
    assert forall i :: 0 <= i < |v| ==> w[i].pid == v[i].pid;
  }

  /** What one pass leaves: the pids found alive, and nodes it did not name that carried a mark. */
  lemma PassHas(v: seq<Mark>, pids: seq<int>, seen: seq<Seen>, kind: Kind, q: int)
    requires Unique(v) && |pids| == |seen|
    ensures var w := Pass(v, pids, seen, kind);
      && Unique(w) && NoneFound(w)
      && (Has(w, q) <==> Live(pids, seen, q) || ((q == 0 || q !in pids) && Marked(v, q)))
  {
    hide Unique, Has, Marked, Scanned, Swept, Cleared, Live;
    ScannedHas(v, pids, seen, kind, q);
    SweptHas(Scanned(v, pids, seen, kind), q);
    ClearedHas(Swept(Scanned(v, pids, seen, kind)), q);
  }

  /** One pass can keep a dead node: the mark a lookup left behind protects it. */
  lemma StaleMarkSurvivesOnePass(data: ProcData, kind: Kind)
    ensures Has(Pass([Mark(5, true, data)], [], [], kind), 5) && !Live([], [], 5)
  {
    assert Swept([Mark(5, true, data)]) == [Mark(5, true, data)];
    assert Pass([Mark(5, true, data)], [], [], kind)[0].pid == 5;
  }

  /** Two passes over the same pids leave exactly those alive at the second, whatever was there. */
  lemma TwoPassesExact(v: seq<Mark>, pids: seq<int>, seen: seq<Seen>, again: seq<Seen>, q: int)
    requires Unique(v) && |pids| == |seen| == |again|
    ensures var w := Pass(Pass(v, pids, seen, Stat), pids, again, Smaps);
      && Unique(w) && NoneFound(w) && (Has(w, q) <==> Live(pids, again, q))
  {
    hide Pass, Live, Unique, Has;
    PassHas(v, pids, seen, Stat, q);
    PassHas(Pass(v, pids, seen, Stat), pids, again, Smaps, q);
  }

  /** Later lookups change marks only. */
  lemma TouchedHas(v: seq<Mark>, pid: int, q: int)
    requires Unique(v)
    ensures Unique(Touched(v, pid)) && (Has(Touched(v, pid), q) <==> Has(v, q))
  {
    var w := Touched(v, pid);
    assert |w| == |v| && forall i :: 0 <= i < |v| ==> w[i].pid == v[i].pid;
  }
}
