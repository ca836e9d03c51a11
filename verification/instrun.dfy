// Runs of messages through the handlers of inst.dfy, on the heap.

module InstRun {
  import opened Words
  import opened Records
  import opened Resolve
  import opened Lists
  import opened Wire
  import opened MsgBufs
  import opened Pack
  import opened ReplayMsgs
  import opened InstSpec
  import opened Inst
  import opened InstFacts

  method EmptyList() returns (list: DataList)
    ensures fresh(list) && list.Valid() && list.nodes == [] && list.View() == []
  {
    list := new DataList();
  }

  /** prof_session.user_space_inst and new_lib_inst_list. */
  class UserSpace {
    const libs: DataList
    const apps: DataList
    const newLibs: DataList
    const replay: ReplaySeq

    constructor ()
      ensures Valid() && State() == Insts([], [], []) && fresh(Parts())
    {
      hide *;
      var list := EmptyList();
      libs := list;
      list := EmptyList();
      apps := list;
      list := EmptyList();
      newLibs := list;
      replay := new ReplaySeq();
      new;
      Blank();
    }

    lemma Others(env: Env, c: Command, before: Sequence)
      requires !c.Start?
      ensures Replays(env, c, before, before)
    {
    }

    lemma Blank()
      requires libs.Valid() && apps.Valid() && newLibs.Valid() && libs != apps && libs != newLibs && apps != newLibs
      requires libs.nodes == [] && apps.nodes == [] && newLibs.nodes == []
      requires libs.View() == [] && apps.View() == [] && newLibs.View() == []
      ensures Valid() && State() == Insts([], [], []) && Parts() == {libs, apps, newLibs, replay}
    {
      hide DataList.Valid, DataList.View;
      FootprintMeans(libs, newLibs);
      FootprintMeans(apps, apps);
    }

    /** The lists with all their nodes. */
    ghost function Parts(): set<object>
      reads libs`nodes, apps`nodes, newLibs`nodes, libs.nodes`probes, apps.nodes`probes, newLibs.nodes`probes
    {
      {libs, apps, newLibs, replay} + Footprint(libs, newLibs) + apps.Own() + apps.AllProbes()
    }

    ghost predicate Valid()
      reads Parts()
    {
      libs.Valid() && apps.Valid() && newLibs.Valid() && libs != apps && libs != newLibs && apps != newLibs
    }

    ghost function State(): Insts
      reads Parts()
    {
      Insts(libs.View(), apps.View(), newLibs.View())
    }

    method HandleStart(env: Env, msg: MsgBuf) returns (reply: array?<byte>, fault: bool)
      requires Valid() && AllExact(State().apps) && msg.Valid() && msg !in Parts()
      modifies msg, Parts()
      ensures var c := Start(old(msg.Left()));
        && (fault <==> !Safe(env, old(State()), c))
        && (!fault ==> State() == Step(env, old(State()), c))
        && (!fault ==> (reply != null <==> Told(env, old(State()), c)))
        && (!fault && reply != null ==> fresh(reply) && Answers(env, old(State()), c, reply[..]))
        && Replays(env, c, old(replay.Now()), replay.Now())
      ensures !fault ==> Valid() && forall o :: o in Parts() ==> o in old(Parts()) || fresh(o)
    {
      hide DataList.Valid, Views, Sent, GetList, ResolveAdd, ResolveRm, Move, MoveSafe, Packable, IsMsg, Exact,
        StartOk, DataNode.View, Stored, SentReplay;
      var res;
      ListsApart(apps, newLibs);
      res, reply, fault := MsgStart(msg, env, libs, apps, replay);
    }

    method HandleAdd(env: Env, msg: MsgBuf) returns (reply: array?<byte>, fault: bool)
      requires Valid() && AllExact(State().apps) && msg.Valid() && msg !in Parts()
      modifies msg, Parts()
      ensures var c := Add(old(msg.Left()));
        && (fault <==> !Safe(env, old(State()), c))
        && (!fault ==> State() == Step(env, old(State()), c))
        && (!fault ==> (reply != null <==> Told(env, old(State()), c)))
        && (!fault && reply != null ==> fresh(reply) && Answers(env, old(State()), c, reply[..]))
      ensures replay.Now() == old(replay.Now())
      ensures !fault ==> Valid() && forall o :: o in Parts() ==> o in old(Parts()) || fresh(o)
    {
      hide DataList.Valid, Views, Sent, GetList, ResolveAdd, ResolveRm, Move, MoveSafe, Packable, IsMsg, Exact,
        StartOk, DataNode.View;
      var res;
      res, reply, fault := MsgSwapInstAdd(msg, env, libs, apps, newLibs);
    }

    method HandleRemove(env: Env, msg: MsgBuf) returns (reply: array?<byte>, fault: bool)
      requires Valid() && AllExact(State().apps) && msg.Valid() && msg !in Parts()
      modifies msg, Parts()
      ensures var c := Remove(old(msg.Left()));
        && (fault <==> !Safe(env, old(State()), c))
        && (!fault ==> State() == Step(env, old(State()), c))
        && (!fault ==> (reply != null <==> Told(env, old(State()), c)))
        && (!fault && reply != null ==> fresh(reply) && Answers(env, old(State()), c, reply[..]))
      ensures replay.Now() == old(replay.Now())
      ensures !fault ==> Valid() && forall o :: o in Parts() ==> o in old(Parts()) || fresh(o)
    {
      hide DataList.Valid, Views, Sent, GetList, ResolveAdd, ResolveRm, Move, MoveSafe, Packable, IsMsg, Exact,
        StartOk, DataNode.View;
      var res;
      res, reply, fault := MsgSwapInstRemove(msg, env, libs, apps, newLibs);
    }

    /** reset_app_inst. */
    method HandleStop(env: Env)
      requires Valid()
      modifies Parts()
      ensures Valid() && State() == Step(env, old(State()), Stop) && Parts() <= old(Parts())
      ensures State() == Insts(old(libs.View()), [], old(newLibs.View()))
      ensures Safe(env, old(State()), Stop) && !Told(env, old(State()), Stop)
      ensures replay.Now() == old(replay.Now())
    {
      hide DataList.Valid, DataList.View;
      FreeList(apps);
      FootprintMeans(apps, apps);
    }

    /** The handler for a message. */
    method Dispatch(env: Env, c: Command, msg: MsgBuf) returns (reply: array?<byte>, fault: bool)
      requires Valid() && AllExact(State().apps) && !c.Stop?
      requires msg.Valid() && msg !in Parts() && msg.Left() == c.body
      modifies msg, Parts()
      ensures fault <==> !Safe(env, old(State()), c)
      ensures !fault ==> State() == Step(env, old(State()), c)
      ensures !fault ==> (reply != null <==> Told(env, old(State()), c))
      ensures !fault && reply != null ==> fresh(reply) && Answers(env, old(State()), c, reply[..])
      ensures Replays(env, c, old(replay.Now()), replay.Now())
      ensures !fault ==> Valid() && forall o :: o in Parts() ==> o in old(Parts()) || fresh(o)
    {
      hide *;
      if !c.Start? {
        Others(env, c, replay.Now());
      }
      match c
      case Start(b) =>
        reply, fault := HandleStart(env, msg);
      case Add(b) =>
        reply, fault := HandleAdd(env, msg);
      case Remove(b) =>
        reply, fault := HandleRemove(env, msg);
    }

    /** A received message; the memory behind it ends in a NUL. */
    method Receive(body: Message, tail: seq<byte>) returns (msg: MsgBuf)
      requires Valid() && |tail| >= 9 && tail[|tail| - 1] == 0
      ensures fresh(msg) && msg.Valid() && msg.Left() == body
      ensures Valid() && State() == old(State()) && Parts() == old(Parts()) && msg !in Parts()
    {
      hide DataList.Valid, DataList.View;
      msg := new MsgBuf(body + tail, |body|);
    }

    /** A message is received, with memory behind it that ends in a NUL, and handled. */
    method Handle(env: Env, c: Command, tail: seq<byte>) returns (reply: array?<byte>, fault: bool)
      requires Valid() && AllExact(State().apps) && |tail| >= 9 && tail[|tail| - 1] == 0
      modifies Parts()
      ensures fault <==> !Safe(env, old(State()), c)
      ensures !fault ==> State() == Step(env, old(State()), c)
      ensures !fault ==> (reply != null <==> Told(env, old(State()), c))
      ensures !fault && reply != null ==> fresh(reply) && Answers(env, old(State()), c, reply[..])
      ensures Replays(env, c, old(replay.Now()), replay.Now())
      ensures c.Stop? ==> State() == Insts(old(libs.View()), [], old(newLibs.View()))
      ensures !fault ==> Valid() && forall o :: o in Parts() ==> o in old(Parts()) || fresh(o)
    {
      hide *;
      if c.Stop? {
        Others(env, c, replay.Now());
        HandleStop(env);
        return null, false;
      }
      var msg := Receive(c.body, tail);
      reply, fault := Dispatch(env, c, msg);
    }
  }

  /** Any sequence of messages, up to the first one that cannot be handled safely: the lists and what the
      driver is sent are those of the specification. As long as no addition merges a leftover record with
      more than one probe, the driver reads the apps in all of it, each with the libs of that message. */
  method Run(u: UserSpace, env: Env, cs: seq<Command>, tail: seq<byte>) returns (done: nat, sent: seq<seq<byte>>)
    requires u.Valid() && AllExact(u.State().apps) && |tail| >= 9 && tail[|tail| - 1] == 0
    modifies u.Parts()
    ensures done <= |cs| && (done < |cs| ==> !Safe(env, Steps(env, old(u.State()), cs[..done]), cs[done]))
    ensures forall k :: 0 <= k < done ==> Safe(env, Steps(env, old(u.State()), cs[..k]), cs[k])
    ensures done == |cs| ==> u.Valid() && u.State() == Steps(env, old(u.State()), cs)
    ensures AnswersAll(env, old(u.State()), cs[..done], sent)
    ensures Sound(env.machine, old(u.State())) && AllRight(old(u.State())) && SingleRun(env, old(u.State()), cs[..done])
      ==> DecodesAll(env, old(u.State()), cs[..done], sent)
  {
    hide *;
    ghost var s := u.State();
    done, sent := 0, [];
    StartOfRun(env, s, cs);
    while done < |cs|
      invariant done <= |cs| && u.Valid() && AllExact(u.State().apps)
      invariant u.State() == Steps(env, s, cs[..done]) && AnswersAll(env, s, cs[..done], sent)
      invariant forall k :: 0 <= k < done ==> Safe(env, Steps(env, s, cs[..k]), cs[k])
      invariant forall o :: o in u.Parts() ==> o in old(u.Parts()) || fresh(o)
    {
      StepsNext(env, s, cs, done);
      AnswersNext(env, s, cs, done, sent);
      StepApps(env, u.State(), cs[done]);
      var reply, fault := u.Handle(env, cs[done], tail);
      if fault {
        break;
      }
      if reply != null {
        sent := sent + [reply[..]];
      }
      done := done + 1;
    }
    if Sound(env.machine, s) && AllRight(s) && SingleRun(env, s, cs[..done]) {
      SafePart(env, s, cs, done);
      RunDecodes(env, s, cs[..done], sent);
    }
    assert done == |cs| ==> cs[..done] == cs;
  }

  lemma SafePart(env: Env, s: Insts, cs: seq<Command>, n: nat)
    requires n <= |cs| && forall k :: 0 <= k < n ==> Safe(env, Steps(env, s, cs[..k]), cs[k])
    ensures forall k :: 0 <= k < n ==> Safe(env, Steps(env, s, cs[..n][..k]), cs[..n][k])
  {
    hide Safe, Steps;
    assert forall k :: 0 <= k < n ==> cs[..n][..k] == cs[..k];
  }

  lemma StartOfRun(env: Env, s: Insts, cs: seq<Command>)
    ensures Steps(env, s, cs[..0]) == s && AnswersAll(env, s, cs[..0], [])
  {
  }
}
