// resolve_collisions_for_add_msg on the linked lists (daemon/da_inst.c:314-360), and what changing one
// record means for the lists around it.

module Collide {
  import opened Words
  import opened Records
  import opened Resolve
  import opened Lists

  lemma FuncsWithout(ps: seq<ProbeNode>, k: nat)
    requires k < |ps|
    ensures Funcs(Without(ps, k)) == Without(Funcs(ps), k)
  {
  }

  /** A filtering loop on fs after some turns: kept stays, todo is still to do, goal will be left. */
  ghost predicate Keeping(known: seq<Func>, goal: seq<Func>, fs: seq<Func>, kept: seq<Func>, todo: seq<Func>) {
    fs == kept + todo && kept + KeepNew(known, todo) == goal
  }

  lemma KeepStart(known: seq<Func>, fs: seq<Func>)
    ensures Keeping(known, KeepNew(known, fs), fs, [], fs)
  {
  }

  lemma KeepLength(known: seq<Func>, goal: seq<Func>, fs: seq<Func>, kept: seq<Func>, todo: seq<Func>)
    requires Keeping(known, goal, fs, kept, todo)
    ensures |fs| == |kept| + |todo|
  {
  }

  lemma KeepTurn(known: seq<Func>, goal: seq<Func>, fs: seq<Func>, kept: seq<Func>, todo: seq<Func>)
    requires Keeping(known, goal, fs, kept, todo) && todo != []
    ensures fs[|kept|] == todo[0]
    ensures Has(known, todo[0]) ==> Keeping(known, goal, Without(fs, |kept|), kept, todo[1..])
    ensures !Has(known, todo[0]) ==> Keeping(known, goal, fs, kept + [todo[0]], todo[1..])
  {
    var rest := KeepNew(known, todo[1..]);
    if Has(known, todo[0]) {
      assert Without(fs, |kept|) == kept + todo[1..];
      assert [] + rest == rest;
    } else {
      assert fs == (kept + [todo[0]]) + todo[1..];
      assert kept + ([todo[0]] + rest) == (kept + [todo[0]]) + rest;
    }
  }

  lemma KeepDone(known: seq<Func>, goal: seq<Func>, fs: seq<Func>, kept: seq<Func>, todo: seq<Func>)
    requires Keeping(known, goal, fs, kept, todo) && todo == []
    ensures fs == goal
  {
  }

  /** One turn of the loop below: p's k-th probe goes if sch has it. */
  method DropIfKnown(sch: DataNode, p: DataNode, pr: ProbeNode, ghost k: nat)
    returns (next: ProbeNode?, ghost dropped: bool)
    requires sch != p && sch.ValidProbes() && p.ValidProbes() && k < |p.probes| && pr == p.probes[k]
    modifies p`list, p`size, p`funcNum, p`probes, p.Own()`next, p.Own()`prev
    ensures p.ValidProbes()
    ensures dropped == Has(Funcs(old(sch.probes)), pr.func)
    ensures dropped ==> p.probes == Without(old(p.probes), k)
    ensures !dropped ==> p.probes == old(p.probes)
    ensures Adjusted(old(p.View()), p.View())
    ensures next == ProbeAt(p.probes, if dropped then k else k + 1)
    ensures sch.ValidProbes()
  {
    hide SumSizes, WithProbes, Adjusted, Without, FindFunc;
    var found, j := FindProbe(sch, pr);
    dropped := found != null;
    if found != null {
      next := ProbeListRm(p, pr, k, sch);
    } else {
      NextProbe(p, k);
      AdjustedSame(p.View());
      next := pr.next;
    }
  }

  /** Removes from p every probe that sch has. */
  method DropKnownProbes(sch: DataNode, p: DataNode)
    requires sch != p && sch.ValidProbes() && p.ValidProbes()
    modifies p`list, p`size, p`funcNum, p`probes, p.Own()`next, p.Own()`prev
    ensures p.ValidProbes() && p.Own() <= old(p.Own())
    ensures p.View() == WithProbes(old(p.View()), KeepNew(Funcs(sch.probes), Funcs(old(p.probes))))
    ensures sch.ValidProbes()
  {
    hide SumSizes, Keeping, KeepNew, WithProbes, Adjusted, Without, FindFunc, DataNode.ValidProbes;
    ghost var known, kept: seq<Func>, todo := Funcs(sch.probes), [], Funcs(p.probes);
    ghost var before, goal, dropped := p.View(), KeepNew(known, todo), false;
    KeepStart(known, todo);
    AdjustedSame(before);
    FirstProbe(p);
    var pr := p.list;
    while pr != null
      invariant sch.ValidProbes() && p.ValidProbes() && p.Own() <= old(p.Own())
      invariant Keeping(known, goal, Funcs(p.probes), kept, todo)
      invariant pr == ProbeAt(p.probes, |kept|)
      invariant Adjusted(before, p.View())
      decreases |todo|
    {
      ghost var ps, was := p.probes, p.View();
      KeepLength(known, goal, Funcs(ps), kept, todo);
      KeepTurn(known, goal, Funcs(ps), kept, todo);
      pr, dropped := DropIfKnown(sch, p, pr, |kept|);
      if dropped {
        FuncsWithout(ps, |kept|);
      } else {
        kept := kept + [todo[0]];
      }
      AdjustedTwice(before, was, p.View());
      todo := todo[1..];
    }
    KeepLength(known, goal, Funcs(p.probes), kept, todo);
    KeepDone(known, goal, Funcs(p.probes), kept, todo);
    AdjustedMeans(before, p.View());
  }

  lemma ViewsOne(ns: seq<DataNode>, k: nat, vs: seq<Data>, d: Data)
    requires k < |ns| == |vs| && ns[k].View() == d
    requires forall i :: 0 <= i < |ns| && i != k ==> ns[i].View() == vs[i]
    ensures Views(ns) == vs[k := d]
  {
  }

  lemma ViewsWithout(ns: seq<DataNode>, k: nat)
    requires k < |ns|
    ensures Views(Without(ns, k)) == Without(Views(ns), k)
  {
    hide Views, Without;
  }

  lemma Member(list: DataList, n: DataNode)
    requires list.Valid() && n in list.nodes
    ensures n.owner == list && n.ValidProbes()
  {
  }

  lemma MemberAt(list: DataList, k: nat)
    requires list.Valid() && k < |list.nodes|
    ensures list.nodes[k] in list.nodes && list.nodes[k].owner == list && list.nodes[k].ValidProbes()
    ensures forall i :: 0 <= i < |list.nodes| && i != k ==> list.nodes[i] != list.nodes[k]
    ensures {list.nodes[k]} <= list.Own() && list.nodes[k].Own() <= list.AllProbes()
  {
  }

  lemma Owners(l: DataList)
    requires l.Valid()
    ensures forall n, q :: n in l.nodes && q in n.probes ==> q.owner == n
    ensures forall n :: n in l.nodes ==> n.owner == l && n.ValidProbes()
  {
  }

  lemma Apart(n: DataNode, m: DataNode)
    requires n != m && n.ValidProbes() && m.ValidProbes()
    ensures n.Own() !! m.Own()
  {
  }

  lemma OwnWithinAll(l: DataList)
    ensures forall n :: n in l.nodes ==> n.Own() <= l.AllProbes()
  {
  }

  lemma AllWithin(l: DataList, all: set<ProbeNode>)
    requires forall n :: n in l.nodes ==> n.Own() <= all
    ensures l.AllProbes() <= all
  {
    forall n, q | n in l.nodes && q in n.probes
      ensures q in all
    {
      assert q in n.Own();
    }
  }

  /** DropKnownProbes on the k-th record of a list, seen from the lists. */
  method DropInList(cur: DataList, sch: DataNode, newList: DataList, p: DataNode, ghost k: nat)
    requires cur != newList && cur.Valid() && newList.Valid() && sch in cur.nodes
    requires k < |newList.nodes| && p == newList.nodes[k]
    modifies p`list, p`size, p`funcNum, p`probes, p.Own()`next, p.Own()`prev
    ensures cur.Valid() && newList.Valid() && newList.AllProbes() <= old(newList.AllProbes())
    ensures cur.View() == old(cur.View())
    ensures newList.View()
         == old(newList.View())[k := WithProbes(old(p.View()), KeepNew(old(sch.View()).probes, old(p.View()).probes))]
  {
    hide DataNode.ValidProbes, DataList.AllProbes, KeepNew, WithProbes, Views, Chain;
    ghost var vs := newList.View();
    Member(cur, sch);
    MemberAt(newList, k);
    assert p !in cur.nodes;
    Owners(cur);
    Owners(newList);
    OwnWithinAll(newList);
    DropKnownProbes(sch, p);
    assert cur.Valid();
    AllWithin(newList, old(newList.AllProbes()));
    ViewsOne(newList.nodes, k, vs, p.View());
  }

  /** DataListUnlink seen from two lists: only owner changes, and element leaves it whole. */
  method UnlinkInList(list: DataList, element: DataNode, ghost owner: DataList, ghost k: nat, ghost other: DataList)
    returns (next: DataNode?)
    requires owner.Valid() && k < |owner.nodes| && owner.nodes[k] == element
    requires element.prev == null ==> list == owner
    requires other != owner && other.Valid()
    modifies list`head, owner`nodes, element`owner, owner.Own()`next, owner.Own()`prev
    ensures owner.Valid() && owner.nodes == Without(old(owner.nodes), k)
    ensures owner.View() == Without(old(owner.View()), k)
    ensures next == DataAt(owner.nodes, k)
    ensures element.next == null && element.prev == null && element.owner == null
    ensures element.ValidProbes() && element.View() == old(element.View())
    ensures other.Valid() && other.View() == old(other.View())
    ensures owner.Own() <= old(owner.Own()) && owner.AllProbes() <= old(owner.AllProbes())
  {
    hide DataNode.ValidProbes, Without, Distinct, Views, Chain, DataAt;
    ghost var ns := owner.nodes;
    assert element in ns;
    assert forall n :: n in other.nodes ==> n !in ns;
    next := DataListUnlink(list, element, owner, k);
    ViewsWithout(ns, k);
  }

  lemma AddLibCases(cur: seq<Data>, d: Data)
    ensures var k := Find(cur, d);
      && (k == |cur| ==> AddLib(cur, d) == [d])
      && (k < |cur| ==>
        var e := WithProbes(d, KeepNew(cur[k].probes, d.probes));
        && (e.probes == [] ==> AddLib(cur, d) == [])
        && (e.probes != [] ==> AddLib(cur, d) == [e]))
  {
  }

  /** One turn of the loop below: p, the k-th new record, loses what cur has, and goes if left empty. */
  method ResolveAddLib(cur: DataList, newList: DataList, p: DataNode, ghost k: nat)
    returns (next: DataNode?, ghost gone: bool)
    requires cur != newList && cur.Valid() && newList.Valid()
    requires k < |newList.nodes| && p == newList.nodes[k]
    modifies newList`head, newList`nodes, newList.nodes, p.Own()
    ensures cur.Valid() && newList.Valid() && cur.View() == old(cur.View())
    ensures newList.Own() <= old(newList.Own()) && newList.AllProbes() <= old(newList.AllProbes())
    ensures gone <==> AddLib(cur.View(), old(p.View())) == []
    ensures gone ==> newList.nodes == Without(old(newList.nodes), k)
    ensures gone ==> newList.View() == Without(old(newList.View()), k)
    ensures !gone ==> newList.nodes == old(newList.nodes)
    ensures !gone ==> newList.View() == old(newList.View())[k := AddLib(cur.View(), old(p.View()))[0]]
    ensures next == DataAt(newList.nodes, if gone then k else k + 1)
  {
    hide DataNode.ValidProbes, DataList.Valid, DataList.AllProbes, Views, AddLib, KeepNew, WithProbes, Without,
      Find, Same, Chain;
    assert p in newList.nodes;
    gone := false;
    AddLibCases(cur.View(), p.View());
    var sch, j := FindData(cur, p);
    if sch != null {
      DropInList(cur, sch, newList, p, k);
      assert newList.View()[k] == p.View();
      Member(newList, p);
      FirstProbe(p);
      assert (p.list == null) == (p.View().probes == []);
      if p.list == null {
        gone := true;
        next := UnlinkInList(newList, p, newList, k, cur);
        return;
      }
    }
    NextNode(newList, k);
    next := p.next;
  }

  lemma NextNode(list: DataList, k: nat)
    requires list.Valid() && k < |list.nodes|
    ensures list.nodes[k].next == DataAt(list.nodes, k + 1)
  {
  }

  /** The loop over the new records vs after some turns: done stays, todo is to do, goal will be left. */
  ghost predicate Adding(cur: seq<Data>, goal: seq<Data>, vs: seq<Data>, done: seq<Data>, todo: seq<Data>) {
    vs == done + todo && done + ResolveAdd(cur, todo) == goal
  }

  lemma AddStart(cur: seq<Data>, vs: seq<Data>)
    ensures Adding(cur, ResolveAdd(cur, vs), vs, [], vs)
  {
  }

  lemma AddLength(cur: seq<Data>, goal: seq<Data>, vs: seq<Data>, done: seq<Data>, todo: seq<Data>)
    requires Adding(cur, goal, vs, done, todo)
    ensures |vs| == |done| + |todo|
  {
  }

  lemma AddTurn(cur: seq<Data>, goal: seq<Data>, vs: seq<Data>, done: seq<Data>, todo: seq<Data>)
    requires Adding(cur, goal, vs, done, todo) && todo != []
    ensures vs[|done|] == todo[0]
    ensures AddLib(cur, todo[0]) == [] ==> Adding(cur, goal, Without(vs, |done|), done, todo[1..])
    ensures AddLib(cur, todo[0]) != [] ==>
      var d := AddLib(cur, todo[0])[0];
      Adding(cur, goal, vs[|done| := d], done + [d], todo[1..])
  {
    hide AddLib, Without;
    var rest := ResolveAdd(cur, todo[1..]);
    HeadAndTail(todo);
    WithoutMiddle(done, todo[0], todo[1..]);
    if AddLib(cur, todo[0]) != [] {
      AddOne(cur, todo[0]);
      var d := AddLib(cur, todo[0])[0];
      Shift(done, d, rest);
      ReplaceMiddle(done, todo[0], todo[1..], d);
    } else {
      assert [] + rest == rest;
    }
  }

  lemma AddOne(cur: seq<Data>, d: Data)
    requires AddLib(cur, d) != []
    ensures AddLib(cur, d) == [AddLib(cur, d)[0]]
  {
  }

  lemma AddDone(cur: seq<Data>, goal: seq<Data>, vs: seq<Data>, done: seq<Data>, todo: seq<Data>)
    requires Adding(cur, goal, vs, done, todo) && todo == []
    ensures vs == goal
  {
  }

  /** resolve_collisions_for_add_msg over two separate lists. */
  method ResolveAddList(cur: DataList, newList: DataList)
    requires cur != newList && cur.Valid() && newList.Valid()
    modifies newList`head, newList`nodes, newList.Own(), newList.AllProbes()
    ensures cur.Valid() && newList.Valid()
    ensures cur.View() == old(cur.View())
    ensures newList.View() == ResolveAdd(old(cur.View()), old(newList.View()))
    ensures newList.Own() <= old(newList.Own()) && newList.AllProbes() <= old(newList.AllProbes())
  {
    hide DataList.Valid, Adding, AddLib, ResolveAdd, Without, Views;
    ghost var cv, done: seq<Data>, todo := cur.View(), [], newList.View();
    ghost var goal, gone := ResolveAdd(cv, todo), false;
    AddStart(cv, todo);
    FirstNode(newList);
    var p := newList.head;
    while p != null
      invariant cur.Valid() && newList.Valid() && cur.View() == cv
      invariant newList.Own() <= old(newList.Own()) && newList.AllProbes() <= old(newList.AllProbes())
      invariant Adding(cv, goal, newList.View(), done, todo)
      invariant p == DataAt(newList.nodes, |done|)
      decreases |todo|
    {
      ghost var vs, d := newList.View(), p.View();
      AddLength(cv, goal, vs, done, todo);
      AddTurn(cv, goal, vs, done, todo);
      assert d == vs[|done|];
      p, gone := ResolveAddLib(cur, newList, p, |done|);
      if !gone {
        done := done + [AddLib(cv, d)[0]];
      }
      todo := todo[1..];
    }
    AddLength(cv, goal, newList.View(), done, todo);
    AddDone(cv, goal, newList.View(), done, todo);
  }

  lemma FirstNode(list: DataList)
    requires list.Valid()
    ensures list.head == DataAt(list.nodes, 0)
  {
  }
}
