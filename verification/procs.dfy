// The process lists of daemon/sys_stat.c:387-496, 691-750, 1139-1215: singly linked, new nodes at
// the head, every process node with a list of thread nodes of the same kind.

module Procs {
  import opened Words
  import opened ProcSpec

  class ProcNode {
    const pid: int
    var found: bool
    var data: ProcData
    var next: ProcNode?
    const threads: ProcList
    ghost var owner: ProcList?

    /** add_node before linking; malloc leaves arbitrary data. */
    constructor (pid: int, data: ProcData)
      ensures this.pid == pid && found && this.data == data && next == null && owner == null
      ensures fresh(threads) && threads.host == this && threads.head == null && threads.nodes == []
    {
      this.pid, found, this.data, next, owner := pid, true, data, null, null;
      threads := new ProcList();
      new;
      threads.host := this;
    }

    ghost function View(): Mark
      reads `found, `data
    {
      Mark(pid, found, data)
    }
  }

  ghost function At(ns: seq<ProcNode>, i: int): ProcNode? {
    if 0 <= i < |ns| then ns[i] else null
  }

  ghost predicate Linked(head: ProcNode?, ns: seq<ProcNode>)
    reads (set n | n in ns)`next
  {
    && head == At(ns, 0)
    && Distinct(ns)
    && (forall i {:trigger ns[i].next} :: 0 <= i < |ns| ==> ns[i].next == At(ns, i + 1))
  }

  ghost function Marks(ns: seq<ProcNode>): (v: seq<Mark>)
    reads (set n | n in ns)`found, (set n | n in ns)`data
    ensures |v| == |ns|
    ensures forall i {:trigger v[i]} :: 0 <= i < |ns| ==> v[i] == ns[i].View()
  {
    if ns == [] then [] else Marks(ns[..|ns| - 1]) + [ns[|ns| - 1].View()]
  }

  /** A variable holding the head of a list. */
  class ProcList {
    var head: ProcNode?
    ghost var nodes: seq<ProcNode>
    /** The process whose threads these are, if any. */
    ghost var host: ProcNode?

    constructor ()
      ensures head == null && nodes == [] && host == null
    {
      head, nodes, host := null, [], null;
    }

    ghost predicate Valid()
      reads `head, `nodes, (set n | n in nodes)`next, (set n | n in nodes)`owner
    {
      Linked(head, nodes) && forall n :: n in nodes ==> n.owner == this
    }

    ghost function View(): seq<Mark>
      reads `nodes, (set n | n in nodes)`found, (set n | n in nodes)`data
    {
      Marks(nodes)
    }

    method Find(pid: int) returns (t: ProcNode?)
      requires Valid()
      modifies (set n | n in nodes)`found
      ensures Valid() && View() == Touched(old(View()), pid)
      ensures t == At(nodes, Seek(old(View()), pid))
    {
      hide Marks, Valid, Seek;
      ghost var k := 0;
      First(this);
      t := head;
      while t != null
        invariant k <= |nodes| && t == At(nodes, k) && k <= Seek(View(), pid)
        invariant Valid() && View() == old(View())
        decreases |nodes| - k
      {
        assert View()[k] == t.View();
        SeekAt(View(), pid, k);
        if t.pid == pid {
          NodesDiffer(this);
          t.found := true;
          break;
        }
        Next(this, k);
        t, k := t.next, k + 1;
      }
      assert View() == Touched(old(View()), pid);
    }

    method Add(pid: int, data: ProcData) returns (n: ProcNode)
      requires Valid()
      modifies `head, `nodes
      ensures Valid() && nodes == [n] + old(nodes) && fresh(n) && n.View() == Mark(pid, true, data)
      ensures fresh(n.threads) && n.threads.host == n && n.threads.Valid() && n.threads.nodes == []
    {
      n := new ProcNode(pid, data);
      n.next := head;
      head := n;
      nodes := [n] + nodes;
      n.owner := this;
    }

    /** The links around the k-th node, whose predecessor is prev, go past it. */
    method Unlink(prev: ProcNode?, t: ProcNode, ghost k: nat)
      requires Valid() && k < |nodes| && t == nodes[k] && prev == At(nodes, k - 1)
      modifies `head, `nodes, (set n | n in nodes)`next, t`owner
      ensures Valid() && nodes == Without(old(nodes), k)
      ensures t.next == At(nodes, k)
    {
      if prev != null {
        prev.next := t.next;
      } else {
        head := head.next;
      }
      ghost var ns := nodes;
      nodes := Without(ns, k);
      t.owner := null;
      DistinctWithout(ns, k);
    }

    method Del(pid: int)
      requires Valid()
      modifies `head, `nodes, (set n | n in nodes)`next, (set n | n in nodes)`owner
      ensures Valid() && Marks(nodes) == Deleted(old(View()), pid)
      ensures forall n :: n in nodes ==> n in old(nodes)
    {
      hide Marks, Valid, Seek;
      ghost var k := 0;
      First(this);
      var t, prev := head, null;
      while t != null
        invariant k <= |nodes| && t == At(nodes, k) && prev == At(nodes, k - 1) && k <= Seek(View(), pid)
        invariant Valid() && nodes == old(nodes) && View() == old(View())
        decreases |nodes| - k
      {
        assert View()[k] == t.View();
        SeekAt(View(), pid, k);
        if t.pid == pid {
          Unlink(prev, t, k);
          break;
        }
        Next(this, k);
        prev, t, k := t, t.next, k + 1;
      }
      assert Marks(nodes) == Deleted(old(View()), pid);
    }

    /** Takes the k-th node out and goes on behind it. */
    method UnlinkAndGoOn(prev: ProcNode?, t: ProcNode, ghost k: nat) returns (next: ProcNode?)
      requires Valid() && k < |nodes| && t == nodes[k] && prev == At(nodes, k - 1)
      modifies `head, `nodes, (set n | n in nodes)`next, t`owner
      ensures Valid() && nodes == Without(old(nodes), k) && Marks(nodes) == Without(old(Marks(nodes)), k)
      ensures next == At(nodes, k) && prev == At(nodes, k - 1)
    {
      hide Marks, Valid;
      Unlink(prev, t, k);
      next := if prev != null then prev.next else head;
      First(this);
      if k > 0 {
        Next(this, k - 1);
      }
      assert Marks(nodes) == Without(old(Marks(nodes)), k);
    }

    method DelNotFound()
      requires Valid()
      modifies `head, `nodes, (set n | n in nodes)`next, (set n | n in nodes)`owner
      ensures Valid() && Marks(nodes) == Swept(old(View()))
      ensures forall n :: n in nodes ==> n in old(nodes)
    {
      hide Marks, Valid, Swept, Without;
      ghost var v, k, i := View(), 0, 0;
      First(this);
      SweptNone(v);
      var t, prev := head, null;
      while t != null
        invariant Valid() && k <= |nodes| && t == At(nodes, k) && prev == At(nodes, k - 1)
        invariant forall n :: n in nodes ==> n in old(nodes)
        invariant i <= |v| && |nodes| - k == |v| - i && Marks(nodes) == Swept(v[..i]) + v[i..] && k == |Swept(v[..i])|
        decreases |v| - i
      {
        assert Marks(nodes)[k] == t.View() == v[i];
        SweptNext(v, i);
        if !t.found {
          t := UnlinkAndGoOn(prev, t, k);
        } else {
          Next(this, k);
          prev, t, k := t, t.next, k + 1;
        }
        i := i + 1;
      }
      assert v[..i] == v;
    }

    method ResetFound()
      requires Valid()
      modifies (set n | n in nodes)`found
      ensures Valid() && View() == Cleared(old(View()))
    {
      hide Marks, Valid, Cleared;
      ghost var k := 0;
      First(this);
      NodesDiffer(this);
      var t := head;
      while t != null
        invariant Valid() && k <= |nodes| && t == At(nodes, k)
        invariant forall i {:trigger nodes[i]} :: 0 <= i < |nodes| ==>
          nodes[i].View() == if i < k then old(nodes[i].View()).(found := false) else old(nodes[i].View())
        decreases |nodes| - k
      {
        t.found := false;
        Next(this, k);
        t, k := t.next, k + 1;
      }
      assert View() == Cleared(old(View()));
    }
  }

  lemma SweptNone(v: seq<Mark>)
    ensures Swept(v[..0]) == [] && v == [] + v[0..]
  {
  }

  /** Moving on by one node, which stays or goes. */
  lemma SweptNext(v: seq<Mark>, i: nat)
    requires i < |v|
    ensures v[i].found ==> Swept(v[..i + 1]) == Swept(v[..i]) + [v[i]]
    ensures v[i].found ==> Swept(v[..i + 1]) + v[i + 1..] == Swept(v[..i]) + v[i..]
    ensures !v[i].found ==> Swept(v[..i + 1]) == Swept(v[..i])
    ensures !v[i].found ==> Swept(v[..i]) + v[i + 1..] == Without(Swept(v[..i]) + v[i..], |Swept(v[..i])|)
  {
    assert v[..i + 1][..i] == v[..i];
    assert v[i..] == [v[i]] + v[i + 1..];
    WithoutMiddle(Swept(v[..i]), v[i], v[i + 1..]);
  }

  lemma First(list: ProcList)
    requires list.Valid()
    ensures list.head == At(list.nodes, 0)
  {
  }

  lemma Next(list: ProcList, k: nat)
    requires list.Valid() && k < |list.nodes|
    ensures list.nodes[k].next == At(list.nodes, k + 1)
  {
  }

  lemma NodesDiffer(list: ProcList)
    requires list.Valid()
    ensures Distinct(list.nodes)
  {
  }

  lemma SeekAt(v: seq<Mark>, pid: int, k: nat)
    requires k < |v| && k <= Seek(v, pid)
    ensures v[k].pid == pid <==> Seek(v, pid) == k
  {
  }
}
