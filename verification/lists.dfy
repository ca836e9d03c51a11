// The intrusive doubly linked lists of daemon/da_inst.c: records linked into a list, and
// probes linked into each record. The ghost sequences hold the order of the links; the
// ghost owners keep lists of different owners apart.

module Lists {
  import opened Words
  import opened Records
  import opened Resolve

  class ProbeNode {
    var next: ProbeNode?
    var prev: ProbeNode?
    const func: Func
    const size: uint32 := FuncSize(func)
    ghost var owner: DataNode?

    constructor (func: Func)
      ensures this.func == func
      ensures next == null && prev == null && owner == null
    {
      this.func := func;
      next, prev, owner := null, null, null;
    }
  }

  /** The i-th node, or null outside the list. */
  ghost function ProbeAt(ps: seq<ProbeNode>, i: int): ProbeNode? {
    if 0 <= i < |ps| then ps[i] else null
  }

  ghost predicate ProbeChain(head: ProbeNode?, ps: seq<ProbeNode>)
    reads (set p | p in ps)`next, (set p | p in ps)`prev
  {
    && head == ProbeAt(ps, 0)
    && Distinct(ps)
    && (forall i {:trigger ps[i].next} :: 0 <= i < |ps| ==> ps[i].next == ProbeAt(ps, i + 1))
    && (forall i {:trigger ps[i].prev} :: 0 <= i < |ps| ==> ps[i].prev == ProbeAt(ps, i - 1))
  }

  function Funcs(ps: seq<ProbeNode>): (fs: seq<Func>)
    ensures |fs| == |ps|
    ensures forall i {:trigger fs[i]} :: 0 <= i < |ps| ==> fs[i] == ps[i].func
  {
    if ps == [] then [] else [ps[0].func] + Funcs(ps[1..])
  }

  class DataNode {
    var next: DataNode?
    var prev: DataNode?
    var hash: uint32
    var size: uint32
    var funcNum: uint32
    const head: Head
    var list: ProbeNode?
    ghost var probes: seq<ProbeNode>
    ghost var owner: DataList?

    /** The allocator leaves func_num unset, so its first value is arbitrary. */
    constructor (head: Head, garbage: uint32)
      ensures this.head == head && hash == 0 && size == 0 && funcNum == garbage
      ensures next == null && prev == null && owner == null
      ensures list == null && probes == []
    {
      this.head, hash, size, funcNum := head, 0, 0, garbage;
      next, prev, owner := null, null, null;
      list, probes := null, [];
    }

    ghost function Own(): set<ProbeNode>
      reads `probes
    {
      set p | p in probes
    }

    ghost predicate ValidProbes()
      reads `list, `probes
      reads (set p | p in probes)`next, (set p | p in probes)`prev, (set p | p in probes)`owner
    {
      && ProbeChain(list, probes)
      && (forall p :: p in probes ==> p.owner == this)
    }

    ghost function View(): Data
      reads `hash, `size, `funcNum, `probes
    {
      Data(head, hash, size, funcNum, Funcs(probes))
    }
  }

  ghost function DataAt(ns: seq<DataNode>, i: int): DataNode? {
    if 0 <= i < |ns| then ns[i] else null
  }

  lemma ViewProbes(n: DataNode)
    ensures |n.View().probes| == |n.probes|
    ensures forall k {:trigger n.probes[k]} :: 0 <= k < |n.probes| ==> n.View().probes[k] == n.probes[k].func
  {
  }

  lemma FirstProbe(n: DataNode)
    requires n.ValidProbes()
    ensures n.list == ProbeAt(n.probes, 0)
  {
  }

  lemma NextProbe(n: DataNode, k: nat)
    requires n.ValidProbes() && k < |n.probes|
    ensures n.probes[k].next == ProbeAt(n.probes, k + 1)
  {
  }

  ghost predicate Chain(head: DataNode?, ns: seq<DataNode>)
    reads (set n | n in ns)`next, (set n | n in ns)`prev
  {
    && head == DataAt(ns, 0)
    && Distinct(ns)
    && (forall i {:trigger ns[i].next} :: 0 <= i < |ns| ==> ns[i].next == DataAt(ns, i + 1))
    && (forall i {:trigger ns[i].prev} :: 0 <= i < |ns| ==> ns[i].prev == DataAt(ns, i - 1))
  }

  ghost function Views(ns: seq<DataNode>): (vs: seq<Data>)
    reads ns`hash, ns`size, ns`funcNum, ns`probes
    ensures |vs| == |ns|
    ensures forall i {:trigger vs[i]} :: 0 <= i < |ns| ==> vs[i] == ns[i].View()
  {
    if ns == [] then [] else Views(ns[..|ns| - 1]) + [ns[|ns| - 1].View()]
  }

  lemma ViewsCons(n: DataNode, ns: seq<DataNode>)
    ensures Views([n] + ns) == [n.View()] + Views(ns)
  {
    hide Views;
  }

  /** A variable holding the head of a list of records. */
  class DataList {
    var head: DataNode?
    ghost var nodes: seq<DataNode>

    constructor ()
      ensures head == null && nodes == []
    {
      head, nodes := null, [];
    }

    ghost function Own(): set<DataNode>
      reads `nodes
    {
      set n | n in nodes
    }

    ghost function AllProbes(): set<ProbeNode>
      reads `nodes, (set n | n in nodes)`probes
    {
      set n, p | n in nodes && p in n.probes :: p
    }

    ghost predicate Shape()
      reads this
      reads (set n | n in nodes)`next, (set n | n in nodes)`prev, (set n | n in nodes)`owner
    {
      Chain(head, nodes) && forall n :: n in nodes ==> n.owner == this
    }

    ghost predicate Valid()
      reads this, (set n | n in nodes)`list, (set n | n in nodes)`probes
      reads (set n | n in nodes)`next, (set n | n in nodes)`prev, (set n | n in nodes)`owner
      reads (set n, p | n in nodes && p in n.probes :: p)`next
      reads (set n, p | n in nodes && p in n.probes :: p)`prev
      reads (set n, p | n in nodes && p in n.probes :: p)`owner
    {
      Shape() && forall n :: n in nodes ==> n.ValidProbes()
    }

    ghost function View(): seq<Data>
      reads `nodes, nodes`hash, nodes`size, nodes`funcNum, nodes`probes
    {
      Views(nodes)
    }
  }

  // ------------------------------------------------------------------ records

  /** Insertion is at the head. */
  method DataListAppend(to: DataList, from: DataNode)
    requires to.Shape() && from.owner == null && from.next == null && from.prev == null
    modifies to, from`next, from`owner, to.Own()`prev
    ensures to.Shape() && to.nodes == [from] + old(to.nodes)
  {
    if to.head == null {
      to.head := from;
    } else {
      var p := to.head;
      to.head := from;
      from.next := p;
      p.prev := from;
    }
    to.nodes := [from] + to.nodes;
    from.owner := to;
  }

  /** Links the neighbours of element, the k-th of owner, to each other. The head variable passed is
      written only when element has no predecessor, so a wrong one does no harm otherwise. */
  method DataListLinkPast(list: DataList, element: DataNode, ghost owner: DataList, ghost k: nat)
    returns (next: DataNode?)
    requires owner.Shape() && k < |owner.nodes| && owner.nodes[k] == element
    requires element.prev == null ==> list == owner
    modifies list`head, owner.Own()`next, owner.Own()`prev
    ensures NodesSkip(owner.nodes, k)
    ensures list.head == if k == 0 then DataAt(owner.nodes, 1) else old(list.head)
    ensures next == DataAt(owner.nodes, k + 1)
  {
    var prev := element.prev;
    next := element.next;
    if prev != null {
      prev.next := next;
    } else {
      list.head := next;
    }
    if next != null {
      next.prev := prev;
    }
  }

  /** Takes element, the k-th of owner, out of its list. */
  method DataListUnlink(list: DataList, element: DataNode, ghost owner: DataList, ghost k: nat)
    returns (next: DataNode?)
    requires owner.Shape() && k < |owner.nodes| && owner.nodes[k] == element
    requires element.prev == null ==> list == owner
    modifies list`head, owner`nodes, element`owner, owner.Own()`next, owner.Own()`prev
    ensures owner.Shape() && owner.nodes == Without(old(owner.nodes), k)
    ensures list != owner ==> list.head == old(list.head)
    ensures element.next == null && element.prev == null && element.owner == null
    ensures next == DataAt(owner.nodes, k)
  {
    next := DataListLinkPast(list, element, owner, k);
    element.prev := null;
    element.next := null;
    ghost var ns := owner.nodes;
    owner.nodes := Without(ns, k);
    element.owner := null;
    NodesRelinked(ns, k);
  }

  /** Every record but the k-th links past the k-th. */
  ghost predicate NodesSkip(ns: seq<DataNode>, k: nat)
    reads ns
  {
    && (forall j {:trigger ns[j].next} :: 0 <= j < |ns| && j != k ==>
      ns[j].next == DataAt(ns, if j + 1 == k then k + 1 else j + 1))
    && (forall j {:trigger ns[j].prev} :: 0 <= j < |ns| && j != k ==>
      ns[j].prev == DataAt(ns, if j - 1 == k then k - 1 else j - 1))
  }

  lemma NodesRelinked(ns: seq<DataNode>, k: nat)
    requires k < |ns| && Distinct(ns) && NodesSkip(ns, k)
    ensures Chain(DataAt(ns, if k == 0 then 1 else 0), Without(ns, k))
    ensures ns[k] !in Without(ns, k)
  {
    var ms := Without(ns, k);
    DistinctWithout(ns, k);
    forall i | 0 <= i < |ms|
      ensures ms[i].next == DataAt(ms, i + 1) && ms[i].prev == DataAt(ms, i - 1)
    {
      var j := if i < k then i else i + 1;
      assert ms[i] == ns[j];
    }
  }

  /** First record with the hash and the path of what. */
  method FindData(whereList: DataList, what: DataNode) returns (r: DataNode?, ghost k: nat)
    requires whereList.Valid()
    ensures k == Find(whereList.View(), what.View())
    ensures r == DataAt(whereList.nodes, Find(whereList.View(), what.View()))
    ensures r != null ==> r in whereList.nodes && whereList.View()[k] == r.View()
  {
    r, k := whereList.head, 0;
    ghost var vs := whereList.View();
    while r != null
      invariant k <= |vs| == |whereList.nodes|
      invariant r == DataAt(whereList.nodes, k)
      invariant forall j :: 0 <= j < k ==> !Same(vs[j], what.View())
      decreases |vs| - k
    {
      assert vs[k] == r.View();
      if r.hash == what.hash {
        if r.head.path == what.head.path {
          return;
        }
      }
      r, k := r.next, k + 1;
    }
  }

  // ------------------------------------------------------------------- probes

  method FindProbe(record: DataNode, probe: ProbeNode) returns (p: ProbeNode?, ghost k: nat)
    requires record.ValidProbes()
    ensures k == FindFunc(Funcs(record.probes), probe.func)
    ensures p == ProbeAt(record.probes, FindFunc(Funcs(record.probes), probe.func))
  {
    p, k := record.list, 0;
    ghost var fs := Funcs(record.probes);
    while p != null
      invariant k <= |fs|
      invariant p == ProbeAt(record.probes, k)
      invariant forall j :: 0 <= j < k ==> !SameProbe(fs[j], probe.func)
      decreases |fs| - k
    {
      assert fs[k] == p.func;
      if p.size == probe.size {
        if p.func.addr == probe.func.addr {
          if p.func.args == probe.func.args {
            break;
          }
        }
      }
      p, k := p.next, k + 1;
    }
  }

  /** Links the neighbours of element, the k-th probe of list, to each other. */
  method ProbeLinkPast(list: DataNode, element: ProbeNode, ghost k: nat) returns (next: ProbeNode?)
    requires list.ValidProbes() && k < |list.probes| && list.probes[k] == element
    modifies list`list, list.Own()`next, list.Own()`prev
    ensures ProbesSkip(list.probes, k)
    ensures list.list == ProbeAt(list.probes, if k == 0 then 1 else 0)
    ensures next == ProbeAt(list.probes, k + 1)
  {
    var prev := element.prev;
    next := element.next;
    if prev != null {
      prev.next := next;
    } else {
      list.list := next;
    }
    if next != null {
      next.prev := prev;
    }
  }

  method ProbeUnlink(list: DataNode, element: ProbeNode, ghost k: nat, ghost other: DataNode)
    returns (next: ProbeNode?)
    requires other != list && other.ValidProbes()
    requires list.ValidProbes() && k < |list.probes| && list.probes[k] == element
    modifies list`list, list`probes, list.Own()`next, list.Own()`prev
    ensures list.ValidProbes() && list.probes == Without(old(list.probes), k)
    ensures next == ProbeAt(list.probes, k)
    ensures other.ValidProbes()
  {
    hide Without, Distinct;
    next := ProbeLinkPast(list, element, k);
    ghost var ps := list.probes;
    list.probes := Without(ps, k);
    ProbesRelinked(ps, k);
  }

  /** Every probe but the k-th links past the k-th. */
  ghost predicate ProbesSkip(ps: seq<ProbeNode>, k: nat)
    reads ps
  {
    && (forall j {:trigger ps[j].next} :: 0 <= j < |ps| && j != k ==>
      ps[j].next == ProbeAt(ps, if j + 1 == k then k + 1 else j + 1))
    && (forall j {:trigger ps[j].prev} :: 0 <= j < |ps| && j != k ==>
      ps[j].prev == ProbeAt(ps, if j - 1 == k then k - 1 else j - 1))
  }

  lemma ProbesRelinked(ps: seq<ProbeNode>, k: nat)
    requires k < |ps| && Distinct(ps) && ProbesSkip(ps, k)
    ensures ProbeChain(ProbeAt(ps, if k == 0 then 1 else 0), Without(ps, k))
  {
    var qs := Without(ps, k);
    DistinctWithout(ps, k);
    forall i | 0 <= i < |qs|
      ensures qs[i].next == ProbeAt(qs, i + 1) && qs[i].prev == ProbeAt(qs, i - 1)
    {
      var j := if i < k then i else i + 1;
      assert qs[i] == ps[j];
    }
  }

  /** Takes the k-th probe out of a record, and its size and number out of the caches. */
  method ProbeListRm(list: DataNode, element: ProbeNode, ghost k: nat, ghost other: DataNode)
    returns (next: ProbeNode?)
    requires other != list && other.ValidProbes()
    requires list.ValidProbes() && k < |list.probes| && list.probes[k] == element
    modifies list`list, list`size, list`funcNum, list`probes, list.Own()`next, list.Own()`prev
    ensures list.ValidProbes() && list.probes == Without(old(list.probes), k)
    ensures Adjusted(old(list.View()), list.View())
    ensures next == ProbeAt(list.probes, k)
    ensures other.ValidProbes()
  {
    hide DataNode.ValidProbes, SumSizes, Without;
    ghost var before := Funcs(list.probes);
    next := ProbeUnlink(list, element, k, other);
    list.size := U32(list.size - element.size);
    list.funcNum := U32(list.funcNum - 1);
    assert Funcs(list.probes) == Without(before, k);
    SizesWithout(before, k);
  }

  lemma SizesWithout(fs: seq<Func>, k: nat)
    requires k < |fs|
    ensures SumSizes(Without(fs, k)) == SumSizes(fs) - FuncSize(fs[k])
  {
    var a, b := fs[..k], fs[k + 1..];
    assert fs == a + ([fs[k]] + b);
    ConcatMapConcat(FuncBytes, a, [fs[k]] + b);
    ConcatMapConcat(FuncBytes, [fs[k]], b);
    ConcatMapConcat(FuncBytes, a, b);
    ConcatMapOne(FuncBytes, fs[k]);
  }
}
