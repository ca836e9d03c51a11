// Parsing libs and apps straight into the linked lists (daemon/da_protocol_inst.c,
// daemon/da_inst.c:181-202).

module Parse {
  import opened Words
  import opened Records
  import opened Wire
  import opened MsgBufs
  import opened Lists

  /** calc_lib_hash and calc_app_hash. */
  method CalcHash(m: Machine, path: CString) returns (hash: uint32)
    ensures hash == PathHash(m, path)
  {
    hash := 0;
    for i := 0 to |path|
      invariant hash == PathHash(m, path[..i])
    {
      assert path[..i + 1][..i] == path[..i];
      hash := U32(hash * 2);
      hash := U32(hash + CharValue(m, path[i]));
    }
    assert path[..|path|] == path;
  }

  method CheckArgs(args: CString) returns (ok: bool)
    ensures ok == ArgsOk(args)
  {
    for i := 0 to |args|
      invariant forall j :: 0 <= j < i ==> IsArg(args[j])
    {
      if !IsArg(args[i]) {
        return false;
      }
    }
    return true;
  }

  /** Inserts a probe at the head. The count added is that of the whole chain hanging off the new
      probe, so it runs ahead of the true count. */
  method ProbeListAppend(to: DataNode, from: ProbeNode)
    requires to.ValidProbes() && from.owner == null && from.next == null && from.prev == null
    modifies to`list, to`size, to`funcNum, to`probes, from`next, from`owner, to.Own()`prev
    ensures to.ValidProbes() && to.probes == [from] + old(to.probes)
    ensures to.size == U32(old(to.size) + FuncSize(from.func))
    ensures to.funcNum == U32(old(to.funcNum) + |to.probes|)
  {
    LinkProbe(to, from);
    to.size := U32(to.size + from.size);
    var num := CountChain(to);
    U32Inner(|to.probes|, to.funcNum);
    to.funcNum := U32(to.funcNum + num);
  }

  method CountChain(to: DataNode) returns (num: int)
    requires to.ValidProbes()
    ensures num == U32(|to.probes|)
  {
    num := 0;
    var p := to.list;
    ghost var k := 0;
    while p != null
      invariant num == U32(k) && k <= |to.probes| && p == ProbeAt(to.probes, k)
      decreases |to.probes| - k
    {
      U32Inner(k, 1);
      num, p, k := U32(num + 1), p.next, k + 1;
    }
  }

  method LinkProbe(to: DataNode, from: ProbeNode)
    requires to.ValidProbes() && from.owner == null && from.next == null && from.prev == null
    modifies to`list, to`probes, from`next, from`owner, to.Own()`prev
    ensures to.ValidProbes() && to.probes == [from] + old(to.probes)
  {
    if to.list == null {
      to.list := from;
    } else {
      var p := to.list;
      to.list := from;
      from.next := p;
      p.prev := from;
    }
    from.owner := to;
    to.probes := [from] + to.probes;
  }

  method ParseUsInstFunc(msg: MsgBuf) returns (dest: ProbeNode?)
    requires msg.Valid()
    modifies msg
    ensures msg.Valid() && (dest != null <==> GetFunc(old(msg.Left())).Done?)
    ensures dest != null ==>
      && GetFunc(old(msg.Left())) == Done(dest.func, msg.Left())
      && fresh(dest) && dest.owner == null && dest.next == null && dest.prev == null
  {
    dest := null;
    var parCount := Strlen(msg.mem, msg.cur + 8);
    var size := 8 + parCount + 1 + 1;
    ghost var was := msg.cur;
    var ok, addr := msg.ParseInt64();
    if !ok {
      return;
    }
    var args;
    ok, args := msg.ParseString();
    if !ok {
      return;
    }
    var argsOk := CheckArgs(args);
    if !argsOk {
      return;
    }
    // The buffer of size bytes is filled exactly.
    assert |args| == parCount by {
      assert msg.mem[was + 8 + |args|] == 0;
    }
    var ret;
    ok, ret := msg.ParseInt8();
    if !ok || !IsRet(ret) {
      return;
    }
    var func := FuncPlane(addr, args, ret);
    assert size == FuncSize(func);
    dest := new ProbeNode(func);
  }

  /** The probes of a record, read into dest, which has none yet. */
  method ParseFuncInstList(msg: MsgBuf, dest: DataNode) returns (ok: bool)
    requires msg.Valid() && dest.ValidProbes() && dest.probes == [] && dest.size == 0
    modifies msg, dest`list, dest`size, dest`funcNum, dest`probes
    ensures msg.Valid() && dest.ValidProbes() && ok == GetFuncList(old(msg.Left())).Done?
    ensures ok ==>
      var r := GetFuncList(old(msg.Left()));
      && msg.Left() == r.rest && Funcs(dest.probes) == Reverse(r.value)
      && dest.size == U32(SumSizes(r.value)) && dest.funcNum == U32(|r.value|)
    ensures forall p :: p in dest.probes ==> fresh(p)
  {
    hide GetFunc, GetFuncs, SumSizes, GetInt32, Prefixed, U32, Funcs, DataNode.ValidProbes;
    ghost var start := msg.Left();
    var num;
    ok, num := msg.ParseInt32();
    if !ok || num > MAX_FUNCS {
      return false;
    }
    ghost var body, fs: seq<Func> := msg.Left(), [];
    var i := 0;
    SumOfNone();
    U32Small(0);
    U32Small(num);
    PrefixedNothing(GetFuncs(num, body));
    while i < num
      invariant 0 <= i <= num && msg.Valid() && dest.ValidProbes()
      invariant |fs| == i && Funcs(dest.probes) == Reverse(fs) && dest.size == U32(SumSizes(fs))
      invariant GetFuncs(num, body) == Prefixed(fs, GetFuncs(num - i, msg.Left()))
      invariant forall p :: p in dest.probes ==> fresh(p)
    {
      ghost var left := msg.Left();
      var probe := ParseUsInstFunc(msg);
      GetFuncsStep(fs, num - i, left);
      if probe == null {
        return false;
      }
      SumOfSnoc(fs, probe.func);
      U32Inner(SumSizes(fs), FuncSize(probe.func));
      ReverseSnoc(fs, probe.func);
      ghost var ps := dest.probes;
      ProbeListAppend(dest, probe);
      FuncsCons(probe, ps);
      fs := fs + [probe.func];
      i := i + 1;
    }
    PrefixedDone(fs, msg.Left());
    dest.funcNum := num;
    ok := true;
  }

  /** A parse result with fs read before it. */
  ghost function Prefixed(fs: seq<Func>, r: Parsed<seq<Func>>): Parsed<seq<Func>> {
    match r
    case Fail => Fail
    case Done(more, rest) => Done(fs + more, rest)
  }

  lemma PrefixedNothing(r: Parsed<seq<Func>>)
    ensures Prefixed([], r) == r
  {
    if r.Done? {
      assert [] + r.value == r.value;
    }
  }

  lemma PrefixedDone(fs: seq<Func>, b: Message)
    ensures Prefixed(fs, GetFuncs(0, b)) == Done(fs, b)
  {
    assert fs + [] == fs;
  }

  lemma GetFuncsStep(fs: seq<Func>, n: nat, b: Message)
    requires n > 0
    ensures GetFunc(b).Fail? ==> Prefixed(fs, GetFuncs(n, b)) == Fail
    ensures GetFunc(b).Done? ==>
      Prefixed(fs, GetFuncs(n, b)) == Prefixed(fs + [GetFunc(b).value], GetFuncs(n - 1, GetFunc(b).rest))
  {
    if GetFunc(b).Done? && GetFuncs(n - 1, GetFunc(b).rest).Done? {
      Shift(fs, GetFunc(b).value, GetFuncs(n - 1, GetFunc(b).rest).value);
    }
  }

  lemma SumOfNone()
    ensures SumSizes([]) == 0
  {
  }

  lemma SumOfSnoc(fs: seq<Func>, f: Func)
    ensures SumSizes(fs + [f]) == SumSizes(fs) + FuncSize(f)
  {
    ConcatMapConcat(FuncBytes, fs, [f]);
    ConcatMapOne(FuncBytes, f);
  }

  lemma FuncsCons(p: ProbeNode, ps: seq<ProbeNode>)
    ensures Funcs([p] + ps) == [p.func] + Funcs(ps)
  {
    hide Funcs;
  }

  method ParseHead(msg: MsgBuf, env: Env, isApp: bool) returns (ok: bool, head: Head)
    requires msg.Valid()
    modifies msg
    ensures msg.Valid() && ok == GetHead(env, isApp, old(msg.Left())).Done?
    ensures ok ==> GetHead(env, isApp, old(msg.Left())) == Done(head, msg.Left())
    ensures ok && isApp ==> msg.cur - old(msg.cur) == |HeadBytes(head)|
  {
    var kind: uint32, id: CString, path: CString := 0, [], [];
    ok, head := false, Lib([]);
    if isApp {
      ok, kind := msg.ParseInt32();
      if !ok || !KindOk(kind) {
        return false, head;
      }
      ok, id := msg.ParseString();
      if !ok || !IdOk(env, kind, id) {
        return false, head;
      }
      ok, path := msg.ParseString();
      if !ok || !PathOk(env, kind, id, path) {
        return false, head;
      }
      head := App(kind, id, path);
    } else {
      ok, path := msg.ParseString();
      if !ok || !env.fileExists(path) {
        return false, head;
      }
      head := Lib(path);
    }
  }

  /** parse_inst_lib and parse_inst_app: the size starts from the probes' sizes, the head and the count
      are added last; for an app the head's size is how far the cursor went. */
  method ParseInstData(msg: MsgBuf, env: Env, isApp: bool) returns (dest: DataNode?)
    requires msg.Valid()
    modifies msg
    ensures msg.Valid() && (dest != null <==> GetData(env, isApp, old(msg.Left())).Done?)
    ensures dest != null ==>
      && GetData(env, isApp, old(msg.Left())) == Done(dest.View(), msg.Left())
      && fresh(dest) && dest.ValidProbes() && dest.owner == null && dest.next == null && dest.prev == null
      && forall p :: p in dest.probes ==> fresh(p)
  {
    hide GetHead, GetFuncList, SumSizes, Funcs, DataNode.ValidProbes, Reverse, PathHash, U32;
    dest := null;
    var start := msg.cur;
    var ok, head := ParseHead(msg, env, isApp);
    if !ok {
      return;
    }
    var headSize := if isApp then msg.cur - start else |head.path| + 1;
    var garbage: uint32 := *;
    var node := new DataNode(head, garbage);
    EmptyIsValid(node);
    ghost var b := msg.Left();
    ok := ParseFuncInstList(msg, node);
    if !ok {
      return;
    }
    ghost var fs := GetFuncList(b).value;
    U32Inner(SumSizes(fs), headSize + 4);
    node.size := U32(node.size + headSize + 4);
    node.hash := CalcHash(env.machine, head.path);
    dest := node;
  }

  lemma EmptyIsValid(n: DataNode)
    requires n.list == null && n.probes == []
    ensures n.ValidProbes()
  {
  }

  /** data_list_append of a record of its own to a well-formed list. */
  method PushRecord(to: DataList, from: DataNode)
    requires to.Valid() && from.ValidProbes()
    requires from.owner == null && from.next == null && from.prev == null
    modifies to, from`next, from`owner, to.Own()`prev
    ensures to.Valid() && to.nodes == [from] + old(to.nodes)
    ensures to.View() == [from.View()] + old(to.View())
    ensures to.AllProbes() <= from.Own() + old(to.AllProbes())
  {
    hide DataNode.ValidProbes, Views, Chain, Distinct;
    DataListAppend(to, from);
    ViewsCons(from, old(to.nodes));
  }

  /** items read before the ones still to come. */
  ghost function PrefixedItems(ds: seq<Data>, r: Items): Items {
    Items(r.ok, ds + r.items, r.rest)
  }

  lemma GetDatasStep(env: Env, isApp: bool, ds: seq<Data>, n: nat, b: Message)
    requires n > 0
    ensures GetData(env, isApp, b).Fail? ==>
      PrefixedItems(ds, GetDatas(env, isApp, n, b)) == Items(false, ds, b)
    ensures GetData(env, isApp, b).Done? ==>
      PrefixedItems(ds, GetDatas(env, isApp, n, b))
        == PrefixedItems(ds + [GetData(env, isApp, b).value], GetDatas(env, isApp, n - 1, GetData(env, isApp, b).rest))
  {
    hide GetData;
    match GetData(env, isApp, b)
    case Fail => assert ds + [] == ds;
    case Done(d, b1) => Shift(ds, d, GetDatas(env, isApp, n - 1, b1).items);
  }

  lemma GetDatasEnds(env: Env, isApp: bool, ds: seq<Data>, r: Items, b: Message)
    ensures PrefixedItems([], r) == r
    ensures PrefixedItems(ds, GetDatas(env, isApp, 0, b)) == Items(true, ds, b)
  {
    assert [] + r.items == r.items && ds + [] == ds;
  }

  lemma ReversePush(ds: seq<Data>, d: Data, before: seq<Data>)
    ensures Reverse(ds + [d]) + before == [d] + (Reverse(ds) + before)
  {
    ReverseSnoc(ds, d);
  }

  /** One turn of the loop below: a record is read and pushed in front. */
  method ParseNext(msg: MsgBuf, env: Env, isApp: bool, list: DataList) returns (ok: bool)
    requires msg.Valid() && list.Valid()
    modifies msg, list, list.Own()`prev
    ensures msg.Valid() && list.Valid() && ok == GetData(env, isApp, old(msg.Left())).Done?
    ensures ok ==>
      && msg.Left() == GetData(env, isApp, old(msg.Left())).rest
      && list.View() == [GetData(env, isApp, old(msg.Left())).value] + old(list.View())
    ensures !ok ==> list.View() == old(list.View())
    ensures forall n :: n in list.Own() ==> n in old(list.Own()) || fresh(n)
    ensures forall q :: q in list.AllProbes() ==> q in old(list.AllProbes()) || fresh(q)
  {
    hide GetData, DataList.Valid, DataList.AllProbes, DataNode.ValidProbes, DataNode.View, Views;
    var data := ParseInstData(msg, env, isApp);
    ok := data != null;
    if ok {
      PushRecord(list, data);
    }
  }

  /** parse_lib_inst_list, and the list part of parse_app_inst_list: each record is pushed in front as
      soon as it is read, and stays if a later one is malformed. */
  method ParseInstList(msg: MsgBuf, env: Env, isApp: bool, list: DataList) returns (ok: bool, num: uint32)
    requires msg.Valid() && list.Valid()
    modifies msg, list, list.Own()`prev
    ensures msg.Valid() && list.Valid()
    ensures ok == GetList(env, isApp, old(msg.Left())).ok
    ensures list.View() == Reverse(GetList(env, isApp, old(msg.Left())).items) + old(list.View())
    ensures ok ==> msg.Left() == GetList(env, isApp, old(msg.Left())).rest
                   && num == |GetList(env, isApp, old(msg.Left())).items|
    ensures forall n :: n in list.Own() ==> n in old(list.Own()) || fresh(n)
    ensures forall q :: q in list.AllProbes() ==> q in old(list.AllProbes()) || fresh(q)
  {
    hide GetData, GetDatas, PrefixedItems, DataList.Valid, DataList.Own, DataList.AllProbes, Views, Reverse;
    ghost var before, ds: seq<Data> := list.View(), [];
    assert [] + before == before;
    ok, num := msg.ParseInt32();
    if !ok || num > MAX_LIBS {
      return false, num;
    }
    ghost var body := msg.Left();
    ghost var goal := GetDatas(env, isApp, num, body);
    GetDatasEnds(env, isApp, [], goal, body);
    var i := 0;
    while i < num
      invariant 0 <= i <= num && msg.Valid() && list.Valid()
      invariant |ds| == i && list.View() == Reverse(ds) + before
      invariant goal == PrefixedItems(ds, GetDatas(env, isApp, num - i, msg.Left()))
      invariant forall n :: n in list.Own() ==> n in old(list.Own()) || fresh(n)
      invariant forall q :: q in list.AllProbes() ==> q in old(list.AllProbes()) || fresh(q)
    {
      ghost var next := GetData(env, isApp, msg.Left());
      GetDatasStep(env, isApp, ds, num - i, msg.Left());
      ok := ParseNext(msg, env, isApp, list);
      if !ok {
        return false, num;
      }
      ReversePush(ds, next.value, before);
      ds := ds + [next.value];
      i := i + 1;
    }
    GetDatasEnds(env, isApp, ds, goal, msg.Left());
    ok := true;
  }
}
