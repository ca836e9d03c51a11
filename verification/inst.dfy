// The handlers that change the instrumentation (daemon/da_inst.c:671-811): parse, resolve, pack for
// the driver, apply. Sending and the maps message for targets come after them. A fault is a write
// behind a buffer, a planned size that wraps to nothing, or a null pointer that is dereferenced; nothing
// is said about what follows.

module Inst {
  import opened Words
  import opened Records
  import opened Resolve
  import opened ResolveFacts
  import opened Lists
  import opened Collide
  import opened Wire
  import opened MsgBufs
  import opened Parse
  import opened Pack
  import opened ReplayMsgs
  import opened InstSpec
  import InstFacts
  import RemovalLists
  import MoveLists

  /** All nodes of two lists. */
  ghost function Footprint(a: DataList, b: DataList): set<object>
    reads a`nodes, b`nodes, a.nodes`probes, b.nodes`probes
  {
    a.Own() + a.AllProbes() + b.Own() + b.AllProbes()
  }

  lemma FootprintMeans(a: DataList, b: DataList)
    ensures a.Own() <= Footprint(a, b) && a.AllProbes() <= Footprint(a, b)
    ensures b.Own() <= Footprint(a, b) && b.AllProbes() <= Footprint(a, b)
    ensures forall o :: o in Footprint(a, b) ==>
      o in a.Own() || o in a.AllProbes() || o in b.Own() || o in b.AllProbes()
    ensures a.nodes == [] ==> a.Own() == {} && a.AllProbes() == {}
    ensures b.nodes == [] ==> b.Own() == {} && b.AllProbes() == {}
  {
  }

  /** Two lists have neither records nor probes in common. */
  lemma ListsApart(a: DataList, b: DataList)
    requires a != b && a.Valid() && b.Valid()
    ensures a.Own() !! b.Own() && a.AllProbes() !! b.AllProbes()
  {
    hide DataNode.ValidProbes, Chain;
    Owners(a);
    Owners(b);
    forall q | q in a.AllProbes()
      ensures q !in b.AllProbes()
    {
      var n :| n in a.nodes && q in n.probes;
      assert q.owner == n && n.owner == a;
    }
  }

  /** generate_msg, then the id. */
  method PackForDriver(id: uint32, libs: DataList, apps: DataList) returns (msg: array<byte>, fits: bool)
    requires libs.Valid() && apps.Valid() && AllExact(apps.View())
    ensures fresh(msg) && (fits <==> Packable(libs.View(), apps.View()))
    ensures fits ==> IsMsg(msg[..], id, libs.View(), apps.View())
  {
    hide DataList.Valid, Views, LE32, EntriesBytes, PayloadWith, ListBytes, Packable, Planned;
    ghost var libData, appData := libs.View(), apps.View();
    msg, fits := GenerateMsg(libs, apps);
    if !fits {
      return;
    }
    ghost var l :| |l| == Planned(libData) && ListBytes(libData) <= l && msg[..] == MsgWith(0, l, appData);
    ghost var rest := LE32(U32(PayloadWith(l, appData))) + LE32(U32(|appData|)) + EntriesBytes(l, appData);
    assert msg[..] == LE32(0) + rest;
    var bytes := LE32(id);
    forall i | 0 <= i < 4 {
      msg[i] := bytes[i];
    }
    assert msg[..] == LE32(id) + rest;
    ItIsMsg(msg[..], id, libData, appData, l);
  }

  /** The driver is sent a change of libs if there are apps. */
  method TellDriver(newLibs: DataList, apps: DataList) returns (reply: array?<byte>, fault: bool)
    requires newLibs.Valid() && apps.Valid() && AllExact(apps.View())
    ensures fault <==> apps.View() != [] && !Packable(newLibs.View(), apps.View())
    ensures !fault ==> (reply == null <==> apps.View() == [])
    ensures !fault && reply != null ==>
      fresh(reply) && IsMsg(reply[..], NMSG_SWAP_INST_ADD, newLibs.View(), apps.View())
  {
    hide *;
    reply, fault := null, false;
    NullIsEmpty(apps);
    if apps.head != null {
      var fits;
      reply, fits := PackForDriver(NMSG_SWAP_INST_ADD, newLibs, apps);
      fault := !fits;
    }
  }

  /** free_data_list on a list variable. */
  method FreeList(list: DataList)
    modifies list
    ensures list.Valid() && list.View() == [] && list.nodes == []
  {
    list.head, list.nodes := null, [];
  }

  /** resolve_collisions_for_rm_msg leaves a third list alone. */
  method ResolveRmBeside(cur: DataList, newList: DataList, apps: DataList)
    requires cur != newList && cur != apps && newList != apps
    requires cur.Valid() && newList.Valid() && apps.Valid()
    modifies cur, cur.Own(), cur.AllProbes(), newList, newList.Own(), newList.AllProbes()
    ensures cur.Valid() && newList.Valid() && apps.Valid() && apps.View() == old(apps.View())
    ensures var r := ResolveRm(old(cur.View()), old(newList.View()));
      cur.View() == r.cur && newList.View() == r.moved + r.kept
    ensures cur.Own() <= old(cur.Own() + newList.Own())
    ensures cur.AllProbes() <= old(cur.AllProbes() + newList.AllProbes())
    ensures apps.AllProbes() == old(apps.AllProbes())
  {
    hide DataList.Valid, Views, ResolveRm;
    ListsApart(apps, cur);
    ListsApart(apps, newList);
    RemovalLists.ResolveRmList(cur, newList);
  }

  /** The part of the removal behind the parsing. */
  method ApplyRemoval(libs: DataList, apps: DataList, newLibs: DataList) returns (reply: array?<byte>, fault: bool)
    requires libs != apps && libs != newLibs && apps != newLibs
    requires libs.Valid() && apps.Valid() && newLibs.Valid()
    requires AllExact(apps.View())
    modifies libs, libs.Own(), libs.AllProbes(), newLibs, newLibs.Own(), newLibs.AllProbes()
    ensures var r := ResolveRm(old(libs.View()), old(newLibs.View()));
      && (fault <==> apps.View() != [] && !Packable(r.moved + r.kept, apps.View()))
      && (!fault ==> libs.View() == r.cur && newLibs.View() == [] && (reply == null <==> apps.View() == []))
      && (!fault && reply != null ==>
        fresh(reply) && IsMsg(reply[..], NMSG_SWAP_INST_ADD, r.moved + r.kept, apps.View()))
    ensures apps.View() == old(apps.View()) && apps.AllProbes() == old(apps.AllProbes())
    ensures !fault ==> libs.Valid() && apps.Valid() && newLibs.Valid() && newLibs.nodes == []
    ensures !fault ==> libs.Own() <= old(libs.Own() + newLibs.Own())
    ensures !fault ==> libs.AllProbes() <= old(libs.AllProbes() + newLibs.AllProbes())
  {
    hide *;
    ResolveRmBeside(libs, newLibs, apps);
    reply, fault := TellDriver(newLibs, apps);
    if !fault {
      ListsApart(libs, newLibs);
      FreeList(newLibs);
    }
  }

  /** msg_swap_inst_remove: what is sent to the driver and what stays installed are the two halves of
      the resolution. Records of a message that could not be parsed stay in newLibs. */
  method MsgSwapInstRemove(msg: MsgBuf, env: Env, libs: DataList, apps: DataList, newLibs: DataList)
    returns (res: int, reply: array?<byte>, fault: bool)
    requires msg.Valid() && libs.Valid() && apps.Valid() && newLibs.Valid()
    requires libs != apps && libs != newLibs && apps != newLibs
    requires AllExact(apps.View())
    modifies msg, libs, libs.Own(), libs.AllProbes(), newLibs, newLibs.Own(), newLibs.AllProbes()
    ensures var left := Sent(env, false, old(msg.Left())) + old(newLibs.View());
      var r := ResolveRm(old(libs.View()), left);
      var ok := GetList(env, false, old(msg.Left())).ok;
      && (fault <==> ok && apps.View() != [] && !Packable(r.moved + r.kept, apps.View()))
      && (!fault ==> (res == 0 <==> ok))
      && (!fault && !ok ==> libs.View() == old(libs.View()) && newLibs.View() == left && reply == null)
      && (!fault && ok ==> libs.View() == r.cur && newLibs.View() == [])
      && (!fault && ok ==> (reply == null <==> apps.View() == []))
      && (!fault && reply != null ==>
        fresh(reply) && IsMsg(reply[..], NMSG_SWAP_INST_ADD, r.moved + r.kept, apps.View()))
    ensures apps.View() == old(apps.View()) && apps.AllProbes() == old(apps.AllProbes())
    ensures !fault ==> libs.Valid() && apps.Valid() && newLibs.Valid()
    ensures !fault ==> forall o :: o in Footprint(libs, newLibs) ==> o in old(Footprint(libs, newLibs)) || fresh(o)
  {
    hide *;
    res, reply, fault := 0, null, false;
    FootprintMeans(libs, newLibs);
    ListsApart(libs, newLibs);
    ListsApart(apps, newLibs);
    var ok, num := ParseBeside(msg, env, false, newLibs, libs, apps);
    if !ok {
      FootprintMeans(libs, newLibs);
      return 1, null, false;
    }
    reply, fault := ApplyRemoval(libs, apps, newLibs);
    FootprintMeans(libs, newLibs);
  }

  /** resolve_collisions_for_add_msg does not touch the nodes of the current list. */
  method ResolveAddInPlace(cur: DataList, newList: DataList)
    requires cur != newList && cur.Valid() && newList.Valid()
    modifies newList`head, newList`nodes, newList.Own(), newList.AllProbes()
    ensures cur.Valid() && newList.Valid() && cur.View() == old(cur.View())
    ensures newList.View() == ResolveAdd(old(cur.View()), old(newList.View()))
    ensures newList.Own() <= old(newList.Own()) && newList.AllProbes() <= old(newList.AllProbes())
    ensures cur.Own() == old(cur.Own()) && cur.AllProbes() == old(cur.AllProbes())
  {
    hide DataList.Valid, DataList.AllProbes, Views;
    ListsApart(cur, newList);
    ResolveAddList(cur, newList);
  }

  method ResolveAddBeside(cur: DataList, newList: DataList, apps: DataList)
    requires cur != newList && cur != apps && newList != apps
    requires cur.Valid() && newList.Valid() && apps.Valid()
    modifies newList`head, newList`nodes, newList.Own(), newList.AllProbes()
    ensures cur.Valid() && newList.Valid() && apps.Valid()
    ensures apps.View() == old(apps.View()) && cur.View() == old(cur.View())
    ensures newList.View() == ResolveAdd(old(cur.View()), old(newList.View()))
    ensures newList.Own() <= old(newList.Own()) && newList.AllProbes() <= old(newList.AllProbes())
    ensures cur.Own() == old(cur.Own()) && cur.AllProbes() == old(cur.AllProbes())
    ensures apps.AllProbes() == old(apps.AllProbes())
  {
    hide DataList.Valid, Views, ResolveAdd;
    ListsApart(apps, newList);
    ResolveAddInPlace(cur, newList);
  }

  method MoveBeside(to: DataList, from: DataList, apps: DataList) returns (ok: bool)
    requires to != from && to != apps && from != apps
    requires to.Valid() && from.Valid() && apps.Valid()
    modifies to, to.Own(), to.AllProbes(), from, from.Own(), from.AllProbes()
    ensures ok <==> MoveSafe(old(to.View()), old(from.View()))
    ensures apps.View() == old(apps.View()) && apps.AllProbes() == old(apps.AllProbes())
    ensures ok ==> to.Valid() && from.Valid() && apps.Valid() && from.nodes == []
    ensures ok ==> to.View() == Move(old(to.View()), old(from.View())) && from.View() == []
    ensures ok ==> to.Own() <= old(to.Own() + from.Own())
    ensures ok ==> to.AllProbes() <= old(to.AllProbes() + from.AllProbes())
  {
    hide DataList.Valid, Views;
    ListsApart(apps, to);
    ListsApart(apps, from);
    ok := MoveLists.MoveList(to, from);
    if ok {
      assert |from.View()| == |from.nodes|;
    }
  }

  /** msg_swap_inst_add as it is coded: the message is parsed into the installed list, and what is
      resolved, sent and moved is what an earlier removal that could not be parsed left in newLibs. */
  method MsgSwapInstAdd(msg: MsgBuf, env: Env, libs: DataList, apps: DataList, newLibs: DataList)
    returns (res: int, reply: array?<byte>, fault: bool)
    requires msg.Valid() && libs.Valid() && apps.Valid() && newLibs.Valid()
    requires libs != apps && libs != newLibs && apps != newLibs
    requires AllExact(apps.View())
    modifies msg, libs, libs.Own(), libs.AllProbes(), newLibs, newLibs.Own(), newLibs.AllProbes()
    ensures var cur := Sent(env, false, old(msg.Left())) + old(libs.View());
      var more := ResolveAdd(cur, old(newLibs.View()));
      var ok := GetList(env, false, old(msg.Left())).ok;
      && (fault <==> ok && ((apps.View() != [] && !Packable(more, apps.View())) || !MoveSafe(cur, more)))
      && (!fault ==> (res == 0 <==> ok))
      && (!fault && !ok ==> libs.View() == cur && newLibs.View() == old(newLibs.View()) && reply == null)
      && (!fault && ok ==> libs.View() == Move(cur, more) && newLibs.View() == [])
      && (!fault && ok ==> (reply == null <==> apps.View() == []))
      && (!fault && reply != null ==>
        fresh(reply) && IsMsg(reply[..], NMSG_SWAP_INST_ADD, more, apps.View()))
    ensures apps.View() == old(apps.View()) && apps.AllProbes() == old(apps.AllProbes())
    ensures !fault ==> libs.Valid() && apps.Valid() && newLibs.Valid()
    ensures !fault ==> forall o :: o in Footprint(libs, newLibs) ==> o in old(Footprint(libs, newLibs)) || fresh(o)
  {
    hide *;
    res, reply, fault := 0, null, false;
    FootprintMeans(libs, newLibs);
    ListsApart(libs, newLibs);
    ListsApart(apps, libs);
    ListsApart(apps, newLibs);
    var ok, num := ParseBeside(msg, env, false, libs, newLibs, apps);
    if !ok {
      FootprintMeans(libs, newLibs);
      return 1, null, false;
    }
    ResolveAddBeside(libs, newLibs, apps);
    reply, fault := TellDriver(newLibs, apps);
    if fault {
      return;
    }
    ok := MoveBeside(libs, newLibs, apps);
    if !ok {
      return 1, null, true;
    }
    FootprintMeans(libs, newLibs);
  }

  /** msg_start: the apps of the message come in front of those that are there, and the driver gets all
      apps with all libs. */
  method MsgStart(msg: MsgBuf, env: Env, libs: DataList, apps: DataList, replay: ReplaySeq)
    returns (res: int, reply: array?<byte>, fault: bool)
    requires msg.Valid() && libs.Valid() && apps.Valid() && libs != apps
    requires AllExact(apps.View())
    modifies msg, apps, apps.Own()`prev, replay
    ensures libs.Valid() && apps.Valid() && libs.View() == old(libs.View())
    ensures apps.View() == Sent(env, true, old(msg.Left())) + old(apps.View())
    ensures fault <==> StartOk(env, old(msg.Left())) && !Packable(libs.View(), apps.View())
    ensures !fault ==> (res == 0 <==> StartOk(env, old(msg.Left()))) && (res == 0 <==> reply != null)
    ensures !fault && reply != null ==>
      fresh(reply) && IsMsg(reply[..], NMSG_START, libs.View(), apps.View())
    ensures StartOk(env, old(msg.Left())) ==> Stored(SentReplay(env, old(msg.Left())), old(replay.Now()), replay.Now())
    ensures forall n :: n in apps.Own() ==> n in old(apps.Own()) || fresh(n)
    ensures forall q :: q in apps.AllProbes() ==> q in old(apps.AllProbes()) || fresh(q)
  {
    hide *;
    InstFacts.SentExact(env, true, msg.Left(), apps.View());
    StartMeans(env, msg.Left());
    var ok, num := ParseBeside(msg, env, true, apps, libs, libs);
    if ok {
      ok := ParseReplaySeq(msg, replay);
    }
    if !ok {
      return 1, null, false;
    }
    var fits;
    reply, fits := PackForDriver(NMSG_START, libs, apps);
    res, fault := 0, !fits;
  }

  lemma StartMeans(env: Env, b: Message)
    ensures StartOk(env, b) <==> GetList(env, true, b).ok && GetReplay(GetList(env, true, b).rest).Done?
    ensures StartOk(env, b) ==> SentReplay(env, b) == GetReplay(GetList(env, true, b).rest).value
  {
  }

  /** Parsing a list leaves two other lists alone. */
  method ParseBeside(msg: MsgBuf, env: Env, isApp: bool, list: DataList, other: DataList, third: DataList)
    returns (ok: bool, num: uint32)
    requires msg.Valid() && list.Valid() && other.Valid() && third.Valid() && list != other && list != third
    modifies msg, list, list.Own()`prev
    ensures msg.Valid() && list.Valid() && other.Valid() && third.Valid()
    ensures other.View() == old(other.View()) && third.View() == old(third.View())
    ensures ok == GetList(env, isApp, old(msg.Left())).ok
    ensures ok ==> msg.Left() == GetList(env, isApp, old(msg.Left())).rest
    ensures list.View() == Sent(env, isApp, old(msg.Left())) + old(list.View())
    ensures forall n :: n in list.Own() ==> n in old(list.Own()) || fresh(n)
    ensures forall q :: q in list.AllProbes() ==> q in old(list.AllProbes()) || fresh(q)
    ensures other.AllProbes() == old(other.AllProbes()) && third.AllProbes() == old(third.AllProbes())
  {
    hide DataList.Valid, Views, GetList, Reverse;
    ListsApart(list, other);
    ListsApart(list, third);
    ok, num := ParseInstList(msg, env, isApp, list);
  }

  lemma NullIsEmpty(list: DataList)
    requires list.Valid()
    ensures list.head == null <==> list.View() == []
  {
  }
}
