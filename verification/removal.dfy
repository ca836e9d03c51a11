// resolve_collisions_for_rm_msg on the linked lists (daemon/da_inst.c:362-424).

module RemovalLists {
  import opened Words
  import opened Records
  import opened Resolve
  import opened Lists
  import opened Collide

  /** One turn of the probe loop: pr, the k-th probe of p, takes its match out of sch or leaves p. */
  method TakeTurn(sch: DataNode, p: DataNode, pr: ProbeNode, ghost k: nat)
    returns (next: ProbeNode?, ghost j: nat)
    requires sch != p && sch.ValidProbes() && p.ValidProbes() && k < |p.probes| && pr == p.probes[k]
    modifies sch`list, sch`size, sch`funcNum, sch`probes, sch.Own()`next, sch.Own()`prev
    modifies p`list, p`size, p`funcNum, p`probes, p.Own()`next, p.Own()`prev
    ensures sch.ValidProbes() && p.ValidProbes()
    ensures sch.Own() <= old(sch.Own()) && p.Own() <= old(p.Own())
    ensures j == FindFunc(old(sch.View()).probes, pr.func)
    ensures j < |old(sch.View()).probes| ==>
      && sch.View().probes == Without(old(sch.View()).probes, j) && Adjusted(old(sch.View()), sch.View())
      && p.View() == old(p.View()) && next == ProbeAt(p.probes, k + 1)
    ensures j == |old(sch.View()).probes| ==>
      && p.View().probes == Without(old(p.View()).probes, k) && Adjusted(old(p.View()), p.View())
      && sch.View() == old(sch.View()) && next == ProbeAt(p.probes, k)
  {
    hide SumSizes, WithProbes, Adjusted, Without, FindFunc, DataNode.ValidProbes;
    var tmp;
    ghost var ss, ps := sch.probes, p.probes;
    tmp, j := FindProbe(sch, pr);
    if tmp != null {
      FuncsWithout(ss, j);
      var _ := ProbeListRm(sch, tmp, j, p);
      NextProbe(p, k);
      next := pr.next;
    } else {
      FuncsWithout(ps, k);
      next := ProbeListRm(p, pr, k, sch);
    }
  }

  /** The loop of TakeProbes after some turns: have is left in sch, fs in p; kept stays, todo is to do. */
  ghost predicate Taking(goal: Taken, have: seq<Func>, fs: seq<Func>, kept: seq<Func>, todo: seq<Func>) {
    var t := Take(have, todo);
    fs == kept + todo && goal.rest == t.rest && goal.taken == kept + t.taken
  }

  lemma TakeStart(have: seq<Func>, fs: seq<Func>)
    ensures Taking(Take(have, fs), have, fs, [], fs)
  {
  }

  lemma TakeLength(goal: Taken, have: seq<Func>, fs: seq<Func>, kept: seq<Func>, todo: seq<Func>)
    requires Taking(goal, have, fs, kept, todo)
    ensures |fs| == |kept| + |todo|
  {
  }

  lemma TakeStep(goal: Taken, have: seq<Func>, fs: seq<Func>, kept: seq<Func>, todo: seq<Func>)
    requires Taking(goal, have, fs, kept, todo) && todo != []
    ensures fs[|kept|] == todo[0]
    ensures FindFunc(have, todo[0]) < |have| ==>
      Taking(goal, Without(have, FindFunc(have, todo[0])), fs, kept + [todo[0]], todo[1..])
    ensures FindFunc(have, todo[0]) == |have| ==> Taking(goal, have, Without(fs, |kept|), kept, todo[1..])
  {
    hide FindFunc, Without;
    var j := FindFunc(have, todo[0]);
    HeadAndTail(todo);
    Shift(kept, todo[0], todo[1..]);
    if j < |have| {
      Shift(kept, todo[0], Take(Without(have, j), todo[1..]).taken);
    } else {
      WithoutMiddle(kept, todo[0], todo[1..]);
    }
  }

  lemma TakeDone(goal: Taken, have: seq<Func>, fs: seq<Func>, kept: seq<Func>, todo: seq<Func>)
    requires Taking(goal, have, fs, kept, todo) && todo == []
    ensures goal.rest == have && goal.taken == fs
  {
  }

  /** Moves out of sch every probe p asks for, and out of p every probe sch did not have. */
  method TakeProbes(sch: DataNode, p: DataNode)
    requires sch != p && sch.ValidProbes() && p.ValidProbes()
    modifies sch`list, sch`size, sch`funcNum, sch`probes, sch.Own()`next, sch.Own()`prev
    modifies p`list, p`size, p`funcNum, p`probes, p.Own()`next, p.Own()`prev
    ensures sch.ValidProbes() && p.ValidProbes()
    ensures sch.Own() <= old(sch.Own()) && p.Own() <= old(p.Own())
    ensures sch.View() == WithProbes(old(sch.View()), Take(old(sch.View()).probes, old(p.View()).probes).rest)
    ensures p.View() == WithProbes(old(p.View()), Take(old(sch.View()).probes, old(p.View()).probes).taken)
  {
    hide Take, Taking, Adjusted, WithProbes, Without, FindFunc, Funcs, DataNode.ValidProbes, DataNode.View;
    ghost var sBefore, pBefore := sch.View(), p.View();
    ghost var kept: seq<Func>, todo, j, goal := [], pBefore.probes, 0, Take(sBefore.probes, pBefore.probes);
    TakeStart(sBefore.probes, todo);
    AdjustedSame(sBefore);
    AdjustedSame(pBefore);
    FirstProbe(p);
    var pr := p.list;
    while pr != null
      invariant sch.ValidProbes() && p.ValidProbes()
      invariant sch.Own() <= old(sch.Own()) && p.Own() <= old(p.Own())
      invariant Taking(goal, sch.View().probes, p.View().probes, kept, todo)
      invariant pr == ProbeAt(p.probes, |kept|)
      invariant Adjusted(sBefore, sch.View()) && Adjusted(pBefore, p.View())
      decreases |todo|
    {
      ghost var sWas, pWas := sch.View(), p.View();
      ViewProbes(p);
      TakeLength(goal, sWas.probes, pWas.probes, kept, todo);
      TakeStep(goal, sWas.probes, pWas.probes, kept, todo);
      pr, j := TakeTurn(sch, p, pr, |kept|);
      if j < |sWas.probes| {
        AdjustedTwice(sBefore, sWas, sch.View());
        kept := kept + [todo[0]];
      } else {
        AdjustedTwice(pBefore, pWas, p.View());
      }
      todo := todo[1..];
    }
    ViewProbes(p);
    TakeLength(goal, sch.View().probes, p.View().probes, kept, todo);
    TakeDone(goal, sch.View().probes, p.View().probes, kept, todo);
    AdjustedMeans(sBefore, sch.View());
    AdjustedMeans(pBefore, p.View());
  }

  /** TakeProbes on a record of each list leaves both lists well formed. */
  method TakeKeepsLists(cur: DataList, sch: DataNode, newList: DataList, p: DataNode)
    requires cur != newList && cur.Valid() && newList.Valid() && sch in cur.nodes && p in newList.nodes
    modifies sch`list, sch`size, sch`funcNum, sch`probes, sch.Own()`next, sch.Own()`prev
    modifies p`list, p`size, p`funcNum, p`probes, p.Own()`next, p.Own()`prev
    ensures cur.Valid() && newList.Valid()
    ensures sch.Own() <= old(sch.Own()) && p.Own() <= old(p.Own())
    ensures sch.View() == WithProbes(old(sch.View()), Take(old(sch.View()).probes, old(p.View()).probes).rest)
    ensures p.View() == WithProbes(old(p.View()), Take(old(sch.View()).probes, old(p.View()).probes).taken)
  {
    hide DataNode.ValidProbes, DataList.AllProbes, Take, WithProbes, Views, Chain;
    Owners(cur);
    Owners(newList);
    forall n | n in cur.nodes + newList.nodes && n != sch && n != p
      ensures n.Own() !! sch.Own() && n.Own() !! p.Own() && n.ValidProbes()
    {
      Apart(n, sch);
      Apart(n, p);
    }
    TakeProbes(sch, p);
    assert forall n :: n in cur.nodes + newList.nodes ==> n.ValidProbes();
  }

  /** TakeProbes on a record of each list, seen from the lists. */
  method TakeInLists(cur: DataList, sch: DataNode, ghost c: nat, newList: DataList, p: DataNode, ghost k: nat)
    requires cur != newList && cur.Valid() && newList.Valid()
    requires c < |cur.nodes| && sch == cur.nodes[c] && k < |newList.nodes| && p == newList.nodes[k]
    modifies sch`list, sch`size, sch`funcNum, sch`probes, sch.Own()`next, sch.Own()`prev
    modifies p`list, p`size, p`funcNum, p`probes, p.Own()`next, p.Own()`prev
    ensures cur.Valid() && newList.Valid()
    ensures cur.AllProbes() <= old(cur.AllProbes()) && newList.AllProbes() <= old(newList.AllProbes())
    ensures cur.View()
         == old(cur.View())[c := WithProbes(old(sch.View()), Take(old(sch.View()).probes, old(p.View()).probes).rest)]
    ensures newList.View()
         == old(newList.View())[k := WithProbes(old(p.View()),
                                                Take(old(sch.View()).probes, old(p.View()).probes).taken)]
  {
    hide DataNode.ValidProbes, DataNode.Own, DataList.Valid, DataList.AllProbes, Take, WithProbes, Views, Chain;
    ghost var cs, vs := cur.View(), newList.View();
    MemberAt(cur, c);
    MemberAt(newList, k);
    Owners(cur);
    Owners(newList);
    OwnWithinAll(cur);
    OwnWithinAll(newList);
    TakeKeepsLists(cur, sch, newList, p);
    ViewsOne(cur.nodes, c, cs, sch.View());
    ViewsOne(newList.nodes, k, vs, p.View());
    AllWithin(cur, old(cur.AllProbes()));
    AllWithin(newList, old(newList.AllProbes()));
  }

  /** DataListAppend seen from two lists. */
  method AppendInList(to: DataList, from: DataNode, ghost other: DataList)
    requires to.Valid() && from.ValidProbes()
    requires from.owner == null && from.next == null && from.prev == null
    requires other != to && other.Valid()
    modifies to, from`next, from`owner, to.Own()`prev
    ensures to.Valid() && to.nodes == [from] + old(to.nodes)
    ensures to.View() == [from.View()] + old(to.View())
    ensures from.View() == old(from.View())
    ensures to.AllProbes() <= from.Own() + old(to.AllProbes())
    ensures other.Valid() && other.View() == old(other.View())
  {
    hide DataNode.ValidProbes, DataNode.Own, DataList.AllProbes, Views, Chain, Distinct;
    OwnWithinAll(to);
    DataListAppend(to, from);
    ViewsCons(from, old(to.nodes));
    AllWithin(to, from.Own() + old(to.AllProbes()));
  }

  /** Unlinks the c-th record of cur and puts it in front of newList. */
  method MoveToFront(cur: DataList, sch: DataNode, ghost c: nat, newList: DataList)
    requires cur != newList && cur.Valid() && newList.Valid() && c < |cur.nodes| && sch == cur.nodes[c]
    modifies cur, cur.Own()`next, cur.Own()`prev, sch`owner, newList, newList.Own()`prev
    ensures cur.Valid() && newList.Valid()
    ensures cur.View() == Without(old(cur.View()), c)
    ensures newList.nodes == [sch] + old(newList.nodes)
    ensures newList.View() == [old(sch.View())] + old(newList.View())
    ensures cur.Own() <= old(cur.Own()) && cur.AllProbes() <= old(cur.AllProbes())
    ensures newList.AllProbes() <= sch.Own() + old(newList.AllProbes()) && sch.Own() == old(sch.Own())
  {
    hide DataNode.ValidProbes, DataNode.Own, DataList.Valid, DataList.AllProbes, Views, Chain, Without;
    HeadHasNoPrev(cur, c);
    var _ := UnlinkInList(cur, sch, cur, c, newList);
    AppendInList(newList, sch, cur);
  }

  /** The branch for a request without probes: the whole record sch goes over to newList, the request p
      is dropped. As in the source, the head variable handed to the last removal is the one of cur. */
  method MoveWhole(cur: DataList, sch: DataNode, ghost c: nat, newList: DataList, p: DataNode, ghost k: nat)
    returns (next: DataNode?)
    requires cur != newList && cur.Valid() && newList.Valid()
    requires c < |cur.nodes| && sch == cur.nodes[c] && k < |newList.nodes| && p == newList.nodes[k]
    modifies cur, cur.Own()`next, cur.Own()`prev, cur.Own()`owner
    modifies newList, newList.Own()`next, newList.Own()`prev, newList.Own()`owner
    ensures cur.Valid() && newList.Valid()
    ensures cur.View() == Without(old(cur.View()), c)
    ensures newList.View() == [old(sch.View())] + Without(old(newList.View()), k)
    ensures next == DataAt(newList.nodes, k + 1)
    ensures cur.Own() <= old(cur.Own()) && cur.AllProbes() <= old(cur.AllProbes())
    ensures newList.Own() <= old(newList.Own()) + {sch}
    ensures newList.AllProbes() <= old(sch.Own()) + old(newList.AllProbes())
  {
    hide DataNode.ValidProbes, DataNode.Own, DataList.Valid, DataList.AllProbes, Views, Chain, Without;
    MoveToFront(cur, sch, c, newList);
    HeadHasNoPrev(newList, k + 1);
    WithoutCons(sch.View(), old(newList.View()), k);
    next := UnlinkInList(cur, p, newList, k + 1, cur);
  }

  lemma HeadHasNoPrev(list: DataList, k: nat)
    requires list.Valid() && k < |list.nodes|
    ensures (list.nodes[k].prev == null) == (k == 0)
  {
  }

  /** The branch for a request with probes: they are taken out of sch, which goes if nothing is left. */
  method MergeRequest(cur: DataList, sch: DataNode, ghost c: nat, newList: DataList, p: DataNode, ghost k: nat)
    returns (next: DataNode?, ghost t: Taken)
    requires cur != newList && cur.Valid() && newList.Valid()
    requires c < |cur.nodes| && sch == cur.nodes[c] && k < |newList.nodes| && p == newList.nodes[k]
    modifies cur, cur.Own(), sch.Own(), p, p.Own()
    ensures cur.Valid() && newList.Valid()
    ensures cur.Own() <= old(cur.Own()) && cur.AllProbes() <= old(cur.AllProbes())
    ensures newList.nodes == old(newList.nodes) && newList.AllProbes() <= old(newList.AllProbes())
    ensures t == Take(old(sch.View()).probes, old(p.View()).probes)
    ensures t.rest == [] ==> cur.View() == Without(old(cur.View()), c)
    ensures t.rest != [] ==> cur.View() == old(cur.View())[c := WithProbes(old(sch.View()), t.rest)]
    ensures newList.View() == old(newList.View())[k := WithProbes(old(p.View()), t.taken)]
    ensures next == DataAt(newList.nodes, k + 1)
  {
    hide DataNode.ValidProbes, DataList.Valid, DataList.AllProbes, Views, Chain, Without, Take, U32, SumSizes;
    t := Take(sch.View().probes, p.View().probes);
    assert cur.View()[c] == sch.View() && newList.View()[k] == p.View();
    TakeInLists(cur, sch, c, newList, p, k);
    assert cur.View()[c] == sch.View();
    MemberAt(cur, c);
    FirstProbe(sch);
    assert (sch.list == null) == (sch.View().probes == []);
    if sch.list == null {
      HeadHasNoPrev(cur, c);
      var _ := UnlinkInList(cur, sch, cur, c, newList);
    }
    NextNode(newList, k);
    next := p.next;
  }

  /** The new list while it is walked: whole records moved in front, requests kept, requests to do. */
  function Walk(r: Removal, todo: seq<Data>): seq<Data> {
    r.moved + r.kept + todo
  }

  lemma WalkAt(r: Removal, todo: seq<Data>)
    requires todo != []
    ensures Walk(r, todo)[|r.moved| + |r.kept|] == todo[0]
  {
  }

  lemma WalkDrop(r: Removal, todo: seq<Data>)
    requires todo != []
    ensures Without(Walk(r, todo), |r.moved| + |r.kept|) == Walk(r, todo[1..])
  {
  }

  lemma WalkMove(r: Removal, todo: seq<Data>, d: Data, cur: seq<Data>)
    requires todo != []
    ensures [d] + Without(Walk(r, todo), |r.moved| + |r.kept|)
         == Walk(Removal(cur, [d] + r.moved, r.kept), todo[1..])
  {
  }

  lemma WalkKeep(r: Removal, todo: seq<Data>, d: Data, cur: seq<Data>)
    requires todo != []
    ensures Walk(r, todo)[|r.moved| + |r.kept| := d] == Walk(Removal(cur, r.moved, r.kept + [d]), todo[1..])
  {
  }

  lemma RmLibNone(r: Removal, d: Data)
    requires Find(r.cur, d) == |r.cur|
    ensures RmLib(r, d) == r
  {
  }

  lemma RmLibWhole(r: Removal, d: Data, k: nat, cur: seq<Data>)
    requires k == Find(r.cur, d) < |r.cur| && d.probes == [] && cur == Without(r.cur, k)
    ensures RmLib(r, d) == Removal(cur, [r.cur[k]] + r.moved, r.kept)
  {
  }

  lemma RmLibMerge(r: Removal, d: Data, k: nat, t: Taken, cur: seq<Data>)
    requires k == Find(r.cur, d) < |r.cur| && d.probes != [] && t == Take(r.cur[k].probes, d.probes)
    requires t.rest == [] ==> cur == Without(r.cur, k)
    requires t.rest != [] ==> cur == r.cur[k := WithProbes(r.cur[k], t.rest)]
    ensures RmLib(r, d) == Removal(cur, r.moved, r.kept + [WithProbes(d, t.taken)])
  {
  }

  /** A request for a record that is not there. */
  method RmAbsent(cur: DataList, newList: DataList, p: DataNode, ghost r: Removal, ghost todo: seq<Data>)
    returns (next: DataNode?)
    requires cur != newList && cur.Valid() && newList.Valid() && todo != []
    requires cur.View() == r.cur && newList.View() == Walk(r, todo)
    requires p == DataAt(newList.nodes, |r.moved| + |r.kept|)
    requires Find(r.cur, todo[0]) == |r.cur|
    modifies newList, newList.Own()
    ensures cur.Valid() && newList.Valid()
    ensures cur.Own() + newList.Own() <= old(cur.Own() + newList.Own())
    ensures cur.AllProbes() + newList.AllProbes() <= old(cur.AllProbes() + newList.AllProbes())
    ensures cur.View() == RmLib(r, todo[0]).cur && newList.View() == Walk(RmLib(r, todo[0]), todo[1..])
    ensures next == DataAt(newList.nodes, |RmLib(r, todo[0]).moved| + |RmLib(r, todo[0]).kept|)
  {
    hide DataNode.ValidProbes, DataNode.Own, DataList.Valid, DataList.AllProbes, Views, Chain, Without, Take,
      WithProbes, RmLib, Walk, Find, Same;
    ghost var k := |r.moved| + |r.kept|;
    WalkLength(r, todo);
    RmLibNone(r, todo[0]);
    WalkDrop(r, todo);
    HeadHasNoPrev(newList, k);
    next := UnlinkInList(newList, p, newList, k, cur);
  }

  /** A request without probes. */
  method RmWhole(cur: DataList, sch: DataNode, newList: DataList, p: DataNode, ghost r: Removal, ghost todo: seq<Data>)
    returns (next: DataNode?)
    requires cur != newList && cur.Valid() && newList.Valid() && todo != []
    requires cur.View() == r.cur && newList.View() == Walk(r, todo)
    requires p == DataAt(newList.nodes, |r.moved| + |r.kept|)
    requires todo[0].probes == [] && Find(r.cur, todo[0]) < |r.cur|
    requires sch == DataAt(cur.nodes, Find(r.cur, todo[0]))
    modifies cur, cur.Own(), newList, newList.Own()
    ensures cur.Valid() && newList.Valid()
    ensures cur.Own() + newList.Own() <= old(cur.Own() + newList.Own())
    ensures cur.AllProbes() + newList.AllProbes() <= old(cur.AllProbes() + newList.AllProbes())
    ensures cur.View() == RmLib(r, todo[0]).cur && newList.View() == Walk(RmLib(r, todo[0]), todo[1..])
    ensures next == DataAt(newList.nodes, |RmLib(r, todo[0]).moved| + |RmLib(r, todo[0]).kept|)
  {
    hide DataNode.ValidProbes, DataNode.Own, DataList.Valid, DataList.AllProbes, Views, Chain, Without, Take,
      WithProbes, RmLib, Walk, Find, Same, DataList.Own;
    ghost var k, c := |r.moved| + |r.kept|, Find(r.cur, todo[0]);
    WalkLength(r, todo);
    MemberAt(cur, c);
    ghost var ns, ms, ps, qs, own := cur.Own(), newList.Own(), cur.AllProbes(), newList.AllProbes(), sch.Own();
    RmLibWhole(r, todo[0], c, Without(r.cur, c));
    WalkMove(r, todo, r.cur[c], Without(r.cur, c));
    next := MoveWhole(cur, sch, c, newList, p, k);
    UnionMove(ns, ms, {sch}, cur.Own(), newList.Own());
    UnionMove(ps, qs, own, cur.AllProbes(), newList.AllProbes());
  }

  /** A request with probes. */
  method RmSome(cur: DataList, sch: DataNode, newList: DataList, p: DataNode, ghost r: Removal, ghost todo: seq<Data>)
    returns (next: DataNode?)
    requires cur != newList && cur.Valid() && newList.Valid() && todo != []
    requires cur.View() == r.cur && newList.View() == Walk(r, todo)
    requires p == DataAt(newList.nodes, |r.moved| + |r.kept|)
    requires todo[0].probes != [] && Find(r.cur, todo[0]) < |r.cur|
    requires sch == DataAt(cur.nodes, Find(r.cur, todo[0]))
    modifies cur, cur.Own(), cur.AllProbes(), newList, newList.Own(), newList.AllProbes()
    ensures cur.Valid() && newList.Valid()
    ensures cur.Own() + newList.Own() <= old(cur.Own() + newList.Own())
    ensures cur.AllProbes() + newList.AllProbes() <= old(cur.AllProbes() + newList.AllProbes())
    ensures cur.View() == RmLib(r, todo[0]).cur && newList.View() == Walk(RmLib(r, todo[0]), todo[1..])
    ensures next == DataAt(newList.nodes, |RmLib(r, todo[0]).moved| + |RmLib(r, todo[0]).kept|)
  {
    hide DataNode.ValidProbes, DataNode.Own, DataList.Valid, DataList.AllProbes, Views, Chain, Without, Take,
      WithProbes, RmLib, Walk, Find, Same;
    ghost var k, c, t := |r.moved| + |r.kept|, Find(r.cur, todo[0]), Taken([], []);
    WalkLength(r, todo);
    WalkAt(r, todo);
    MemberAt(newList, k);
    OwnWithinAll(cur);
    OwnWithinAll(newList);
    next, t := MergeRequest(cur, sch, c, newList, p, k);
    RmLibMerge(r, todo[0], c, t, cur.View());
    WalkKeep(r, todo, WithProbes(todo[0], t.taken), cur.View());
  }

  /** One turn of the loop below on the next request p. */
  method RmTurn(cur: DataList, newList: DataList, p: DataNode, ghost r: Removal, ghost todo: seq<Data>)
    returns (next: DataNode?)
    requires cur != newList && cur.Valid() && newList.Valid() && todo != []
    requires cur.View() == r.cur && newList.View() == Walk(r, todo)
    requires p == DataAt(newList.nodes, |r.moved| + |r.kept|)
    modifies cur, cur.Own(), cur.AllProbes(), newList, newList.Own(), newList.AllProbes()
    ensures cur.Valid() && newList.Valid()
    ensures cur.Own() + newList.Own() <= old(cur.Own() + newList.Own())
    ensures cur.AllProbes() + newList.AllProbes() <= old(cur.AllProbes() + newList.AllProbes())
    ensures cur.View() == RmLib(r, todo[0]).cur && newList.View() == Walk(RmLib(r, todo[0]), todo[1..])
    ensures next == DataAt(newList.nodes, |RmLib(r, todo[0]).moved| + |RmLib(r, todo[0]).kept|)
  {
    hide DataNode.ValidProbes, DataNode.Own, DataList.Valid, DataList.AllProbes, Views, Chain, Without, Take,
      WithProbes, RmLib, Walk, Find, Same;
    WalkLength(r, todo);
    WalkAt(r, todo);
    MemberAt(newList, |r.moved| + |r.kept|);
    FirstProbe(p);
    assert (p.list == null) == (todo[0].probes == []);
    var sch, c := FindData(cur, p);
    if sch == null {
      next := RmAbsent(cur, newList, p, r, todo);
    } else if p.list == null {
      next := RmWhole(cur, sch, newList, p, r, todo);
    } else {
      next := RmSome(cur, sch, newList, p, r, todo);
    }
  }

  /** resolve_collisions_for_rm_msg. */
  method ResolveRmList(cur: DataList, newList: DataList)
    requires cur != newList && cur.Valid() && newList.Valid()
    modifies cur, cur.Own(), cur.AllProbes(), newList, newList.Own(), newList.AllProbes()
    ensures cur.Valid() && newList.Valid()
    ensures var r := ResolveRm(old(cur.View()), old(newList.View()));
      cur.View() == r.cur && newList.View() == r.moved + r.kept
    ensures cur.Own() <= old(cur.Own() + newList.Own())
    ensures cur.AllProbes() <= old(cur.AllProbes() + newList.AllProbes())
  {
    hide DataList.Valid, DataList.AllProbes, DataList.Own, Views, RmLib, RmLibs, Walk;
    ghost var r, todo := Removal(cur.View(), [], []), newList.View();
    ghost var goal := ResolveRm(r.cur, todo);
    WalkStart(r.cur, todo);
    FirstNode(newList);
    var p := newList.head;
    while p != null
      invariant cur.Valid() && newList.Valid()
      invariant cur.Own() + newList.Own() <= old(cur.Own() + newList.Own())
      invariant cur.AllProbes() + newList.AllProbes() <= old(cur.AllProbes() + newList.AllProbes())
      invariant cur.View() == r.cur && newList.View() == Walk(r, todo)
      invariant RmLibs(r, todo) == goal
      invariant p == DataAt(newList.nodes, |r.moved| + |r.kept|)
      decreases |todo|
    {
      WalkLength(r, todo);
      RmLibsStep(r, todo);
      p := RmTurn(cur, newList, p, r, todo);
      r, todo := RmLib(r, todo[0]), todo[1..];
    }
    WalkLength(r, todo);
    WalkDone(r, todo);
  }

  lemma RmLibsStep(r: Removal, todo: seq<Data>)
    requires todo != []
    ensures RmLibs(r, todo) == RmLibs(RmLib(r, todo[0]), todo[1..])
  {
  }

  lemma WalkStart(cur: seq<Data>, todo: seq<Data>)
    ensures Walk(Removal(cur, [], []), todo) == todo
    ensures ResolveRm(cur, todo) == RmLibs(Removal(cur, [], []), todo)
  {
  }

  lemma WalkLength(r: Removal, todo: seq<Data>)
    ensures |Walk(r, todo)| == |r.moved| + |r.kept| + |todo|
  {
  }

  lemma WalkDone(r: Removal, todo: seq<Data>)
    requires todo == []
    ensures RmLibs(r, todo) == r && Walk(r, todo) == r.moved + r.kept
  {
  }
}
