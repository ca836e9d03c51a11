// Moving one list of records into another, merging records with the same path
// (daemon/da_inst.c:162-179, 283-302).

module MoveLists {
  import opened Words
  import opened Records
  import opened Resolve
  import opened Lists
  import opened Collide
  import opened RemovalLists

  /** The last probe of a record. */
  method LastProbe(from: DataNode) returns (last: ProbeNode)
    requires from.ValidProbes() && from.list != null
    ensures |from.probes| > 0 && last == from.probes[|from.probes| - 1]
  {
    var p := from.list;
    last := from.list;
    ghost var k := 0;
    while p != null
      invariant k <= |from.probes| && p == ProbeAt(from.probes, k)
      invariant last == from.probes[if k == 0 then 0 else k - 1]
      decreases |from.probes| - k
    {
      last := p;
      p := p.next;
      k := k + 1;
    }
  }

  lemma ChainJoined(a: seq<ProbeNode>, b: seq<ProbeNode>)
    requires a != [] && b != [] && Distinct(a) && Distinct(b)
    requires forall p :: p in a ==> p !in b
    requires forall i {:trigger a[i].next} :: 0 <= i < |a| ==> a[i].next == if i + 1 < |a| then a[i + 1] else b[0]
    requires forall i {:trigger a[i].prev} :: 0 <= i < |a| ==> a[i].prev == ProbeAt(a, i - 1)
    requires forall i {:trigger b[i].next} :: 0 <= i < |b| ==> b[i].next == ProbeAt(b, i + 1)
    requires forall i {:trigger b[i].prev} :: 0 <= i < |b| ==> b[i].prev == if i == 0 then a[|a| - 1] else b[i - 1]
    ensures ProbeChain(a[0], a + b)
  {
    var c := a + b;
    forall i, j | 0 <= i < j < |c|
      ensures c[i] != c[j]
    {
      if i < |a| <= j {
        assert a[i] in a && b[j - |a|] in b;
      }
    }
    forall i | 0 <= i < |c|
      ensures c[i].next == ProbeAt(c, i + 1) && c[i].prev == ProbeAt(c, i - 1)
    {
      if i < |a| {
        assert c[i] == a[i];
      } else {
        assert c[i] == b[i - |a|];
      }
    }
  }

  /** Links the probes of from in front of those of to. */
  method JoinProbes(to: DataNode, from: DataNode)
    requires to != from && to.ValidProbes() && from.ValidProbes()
    requires to.list != null && from.list != null
    modifies to`list, to`probes, from`probes, from.Own()`next, from.Own()`owner, to.Own()`prev
    ensures to.ValidProbes() && to.probes == old(from.probes) + old(to.probes)
  {
    ghost var a, b := from.probes, to.probes;
    Apart(to, from);
    var last := LastProbe(from);
    last.next := to.list;
    to.list.prev := last;
    to.list := from.list;
    assert forall q :: q in a ==> q in from.Own();
    assert forall q :: q in b ==> q in to.Own();
    forall q | q in a {
      q.owner := to;
    }
    to.probes := a + b;
    from.probes := [];
    ChainJoined(a, b);
  }

  /** Puts the probes of from in front of those of to; only the first one's size is added. */
  method AppendProbesHash(to: DataNode, from: DataNode)
    requires to != from && to.ValidProbes() && from.ValidProbes()
    requires to.list != null && from.list != null
    modifies to`list, to`size, to`funcNum, to`probes, from`probes
    modifies from.Own()`next, from.Own()`owner, to.Own()`prev
    ensures to.ValidProbes() && to.Own() == old(to.Own()) + old(from.Own())
    ensures old(from.View()).probes != []
    ensures to.View() == Merge(old(to.View()), old(from.View()))
  {
    hide DataNode.ValidProbes;
    FirstProbe(from);
    ghost var a, b := from.probes, to.probes;
    FuncsConcat(a, b);
    var p := from.list;
    to.size := U32(to.size + p.size);
    to.funcNum := U32(to.funcNum + from.funcNum);
    JoinProbes(to, from);
  }

  lemma FuncsConcat(a: seq<ProbeNode>, b: seq<ProbeNode>)
    ensures Funcs(a + b) == Funcs(a) + Funcs(b)
  {
    hide Funcs;
  }

  /** AppendProbesHash on the k-th record of a list, seen from two lists. */
  method MergeInList(to: DataList, sch: DataNode, ghost k: nat, p: DataNode, ghost other: DataList)
    requires to.Valid() && k < |to.nodes| && sch == to.nodes[k]
    requires p.ValidProbes() && p.owner == null && other != to && other.Valid()
    requires sch.list != null && p.list != null
    modifies sch`list, sch`size, sch`funcNum, sch`probes, p`probes
    modifies p.Own()`next, p.Own()`owner, sch.Own()`prev
    ensures to.Valid() && other.Valid() && other.View() == old(other.View())
    ensures old(p.View()).probes != []
    ensures to.View() == old(to.View())[k := Merge(old(sch.View()), old(p.View()))]
    ensures to.AllProbes() <= old(to.AllProbes()) + old(p.Own())
    ensures other.AllProbes() == old(other.AllProbes())
  {
    hide DataNode.ValidProbes, DataNode.View, DataList.AllProbes, Merge, Views, Chain;
    ghost var vs := to.View();
    MemberAt(to, k);
    Owners(to);
    Owners(other);
    OwnWithinAll(to);
    assert p !in to.nodes && p !in other.nodes && sch !in other.nodes;
    forall n | n in to.nodes + other.nodes && n != sch
      ensures n.Own() !! sch.Own() && n.Own() !! p.Own() && n.ValidProbes()
    {
      Apart(n, sch);
      Apart(n, p);
    }
    AppendProbesHash(sch, p);
    assert forall n :: n in to.nodes + other.nodes ==> n.ValidProbes();
    ViewsOne(to.nodes, k, vs, sch.View());
    AllWithin(to, old(to.AllProbes()) + old(p.Own()));
  }

  lemma MoveStep(to: seq<Data>, from: seq<Data>)
    requires from != []
    ensures Move(to, from) == Move(MoveLib(to, from[0]), from[1..])
    ensures var k, d := Find(to, from[0]), from[0];
      && (MoveSafe(to, from)
          <==> (k < |to| ==> to[k].probes != [] && d.probes != []) && MoveSafe(MoveLib(to, d), from[1..]))
      && (k < |to| && d.probes != [] ==> MoveLib(to, d) == to[k := Merge(to[k], d)])
      && (k == |to| ==> MoveLib(to, d) == [d] + to)
  {
  }

  /** One turn of the loop below. It is not ok if the merge dereferences a missing first probe. */
  method MoveTurn(to: DataList, from: DataList, p: DataNode) returns (next: DataNode?, ok: bool)
    requires to != from && to.Valid() && from.Valid() && from.nodes != [] && p == from.nodes[0]
    modifies to, to.Own(), to.AllProbes(), from, from.Own(), from.AllProbes()
    ensures ok <==> var k := Find(old(to.View()), old(from.View())[0]);
      k < |old(to.View())| ==> old(to.View())[k].probes != [] && old(from.View())[0].probes != []
    ensures ok ==> to.Valid() && from.Valid()
    ensures ok ==> to.Own() + from.Own() <= old(to.Own() + from.Own())
    ensures ok ==> to.AllProbes() + from.AllProbes() <= old(to.AllProbes() + from.AllProbes())
    ensures ok ==> to.View() == MoveLib(old(to.View()), old(from.View())[0])
    ensures ok ==> from.View() == old(from.View())[1..]
    ensures ok ==> next == DataAt(from.nodes, 0)
  {
    hide DataNode.ValidProbes, DataNode.Own, DataList.Valid, DataList.AllProbes, Views, Chain, Without, Merge,
      MoveLib, Move, MoveSafe, Find, Same, DataNode.View;
    ghost var ts, fs, v := to.View(), from.View(), p.View();
    assert fs[0] == v;
    MoveStep(ts, fs);
    MemberAt(from, 0);
    HeadHasNoPrev(from, 0);
    OwnWithinAll(from);
    var sch, k := FindData(to, p);
    next := UnlinkInList(from, p, from, 0, to);
    WithoutFirst(fs);
    ok := true;
    if sch == null {
      AppendInList(to, p, from);
    } else {
      MemberAt(to, k);
      FirstProbe(sch);
      FirstProbe(p);
      ViewProbes(sch);
      ViewProbes(p);
      if sch.list == null || p.list == null {
        return next, false;
      }
      MergeInList(to, sch, k, p, from);
    }
  }

  lemma WithoutFirst<T>(s: seq<T>)
    requires s != []
    ensures Without(s, 0) == s[1..]
  {
  }

  /** data_list_move_with_hash. It is not ok, and the daemon ends there, exactly when a merge meets a
      record without probes. */
  method MoveList(to: DataList, from: DataList) returns (ok: bool)
    requires to != from && to.Valid() && from.Valid()
    modifies to, to.Own(), to.AllProbes(), from, from.Own(), from.AllProbes()
    ensures ok <==> MoveSafe(old(to.View()), old(from.View()))
    ensures ok ==> to.Valid() && from.Valid() && from.head == null
    ensures ok ==> to.View() == Move(old(to.View()), old(from.View())) && from.View() == []
    ensures ok ==> to.Own() <= old(to.Own() + from.Own())
    ensures ok ==> to.AllProbes() <= old(to.AllProbes() + from.AllProbes())
  {
    hide DataNode.ValidProbes, DataList.Valid, DataList.AllProbes, Views, Chain, MoveLib, Move, MoveSafe, Find;
    ghost var goal, safe := Move(to.View(), from.View()), MoveSafe(to.View(), from.View());
    FirstNode(from);
    var p := from.head;
    ok := true;
    while p != null
      invariant to.Valid() && from.Valid()
      invariant to.Own() + from.Own() <= old(to.Own() + from.Own())
      invariant to.AllProbes() + from.AllProbes() <= old(to.AllProbes() + from.AllProbes())
      invariant Move(to.View(), from.View()) == goal && MoveSafe(to.View(), from.View()) == safe
      invariant p == DataAt(from.nodes, 0) && ok
      decreases |from.View()|
    {
      assert |from.View()| == |from.nodes|;
      MoveStep(to.View(), from.View());
      p, ok := MoveTurn(to, from, p);
      if !ok {
        return;
      }
    }
    assert |from.View()| == |from.nodes|;
    FirstNode(from);
    MoveNothing(to.View());
  }

  lemma MoveNothing(to: seq<Data>)
    ensures Move(to, []) == to && MoveSafe(to, [])
  {
  }
}
