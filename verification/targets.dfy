// Target slots, the receiver thread of each target and the events it signals to the main loop
// (daemon/target.c, daemon/thread.c, daemon/threads.c:84-236, daemon/daemon.c:562-744). The threads
// are interleaved step by step; a step is one message of a receiver or one callback of the main loop.

module Targets {
  import opened Words
  import opened Records
  import opened Lists
  import Collide

  const MAX_TARGET_COUNT: nat := 8
  const UNKNOWN_PID: int := -1

  const EVENT_STOP: nat := 1
  const EVENT_PID: nat := 2
  const EVENT_ERROR: nat := 4

  /** eventfd is called with its arguments swapped: its counter starts at the value of EFD_CLOEXEC. */
  const EFD_CLOEXEC: nat := 0x8_0000

  predicate HasBit(u: nat, bit: nat)
    requires bit > 0
  {
    u / bit % 2 == 1
  }

  // ------------------------------------------------------------------- events

  /** What a read returns after k PID events and possibly a STOP event. */
  function EventSum(unread: bool, pids: nat, stop: bool): nat {
    (if unread then EFD_CLOEXEC else 0) + pids * EVENT_PID + if stop then EVENT_STOP else 0
  }

  /** The low three bits of a read are the set of events written since the last read. */
  predicate Faithful(u: nat, pids: nat, stop: bool) {
    && (HasBit(u, EVENT_STOP) <==> stop)
    && (HasBit(u, EVENT_PID) <==> pids > 0)
    && !HasBit(u, EVENT_ERROR)
  }

  /** The counter adds instead of or-ing, so this holds for no PID event, for one, and for five and
      so on, but not for two, three or four. */
  lemma FaithfulWhen(unread: bool, pids: nat, stop: bool)
    ensures Faithful(EventSum(unread, pids, stop), pids, stop) <==> pids == 0 || pids % 4 == 1
  {
    var u, s, q, r := EventSum(unread, pids, stop), if stop then 1 else 0, pids / 4, pids % 4;
    var m := (if unread then 0x1_0000 else 0) + q;
    assert u == 8 * m + (2 * r + s);
    LowBits(m, 2 * r + s);
    assert r == 0 || r == 1 || r == 2 || r == 3;
  }

  lemma LowBits(m: nat, w: nat)
    requires w < 8
    ensures (8 * m + w) / 1 % 2 == w % 2
    ensures (8 * m + w) / 2 % 2 == w / 2 % 2
    ensures (8 * m + w) / 4 % 2 == w / 4 % 2
  {
    assert (8 * m + w) / 2 == 4 * m + w / 2;
    assert (8 * m + w) / 4 == 2 * m + w / 4;
  }

  // ------------------------------------------------------------------- target

  datatype AppType = Unknown | Tizen | Common | OtherApp

  /** The function a receiver thread runs: not started, running, or returned. */
  datatype Recv = Idle | Running | Ended

  /** A message from the target process as the receiver sees it. */
  datatype Message = Disconnect | Pid(parsed: bool, pid: int) | Terminate | Other

  /** Why a slot is in use: a connected target, or a failed first connection that was not cleaned up. */
  datatype Phase = Free | Live | Kept

  /** The PID handler succeeds if the process runs one of the apps and no replay has been started yet. */
  predicate PidOk(apps: seq<Data>, isApp: CString -> bool, replaying: bool) {
    !replaying && exists d :: d in apps && isApp(d.head.path)
  }

  /** The walk over the apps, then start_replay; isApp compares a path with what the process runs. */
  method PidHandler(apps: DataList, isApp: CString -> bool, replaying: bool) returns (ok: bool)
    requires apps.Valid()
    ensures ok == PidOk(apps.View(), isApp, replaying)
  {
    hide DataList.Valid, Views;
    ghost var ds, k := apps.View(), 0;
    Collide.FirstNode(apps);
    var app := apps.head;
    while app != null
      invariant k <= |ds| == |apps.nodes| && app == DataAt(apps.nodes, k)
      invariant forall i :: 0 <= i < k ==> !isApp(ds[i].head.path)
      decreases |ds| - k
    {
      assert ds[k] == app.View();
      if isApp(app.head.path) {
        return !replaying;
      }
      Collide.NextNode(apps, k);
      app, k := app.next, k + 1;
    }
    ok := false;
  }

  /** What happened to a target since it connected. */
  datatype Log = Log(
    unread: bool,       // the eventfd has not been read
    pidsSince: nat,     // PID events written since the last read
    stopSince: bool,    // whether STOP was written since the last read
    pids: nat,          // PID events written
    stopped: bool,      // whether STOP was written
    oddPid: bool,       // whether the process reported the pid that stands for an unknown one
    joins: nat,         // how often the receiver was joined
    stops: nat)         // how often the stop handler ran

  /** The receiver gives up; a pid message counts only while no pid is known. */
  predicate Ends(pid: int, msg: Message) {
    msg == Disconnect || msg == Terminate || (msg.Pid? && !msg.parsed && pid == UNKNOWN_PID)
  }

  predicate Reports(pid: int, msg: Message) {
    msg.Pid? && msg.parsed && pid == UNKNOWN_PID
  }

  /** What a read returned, and what had been written since the last one. */
  datatype Reading = Reading(u: nat, pids: nat, stop: bool, odd: bool) {
    /** It shows the events written exactly when there was no PID event or their number is 1 modulo 4, and
        so always unless the process reported the odd pid. */
    predicate Right() {
      && (Faithful(u, pids, stop) <==> pids == 0 || pids % 4 == 1)
      && (!odd ==> Faithful(u, pids, stop))
    }
  }

  function ReadingOf(u: nat, log: Log): Reading {
    Reading(u, log.pidsSince, log.stopSince, log.oddPid)
  }

  /** All there is to a target. */
  datatype Slot = Slot(appType: AppType, pid: int, initialLog: bool, hasEvent: bool, counter: nat, watched: bool,
                       runFlag: bool, recv: Recv, phase: Phase, log: Log)

  /** What one message does: a receiver that gives up writes STOP and returns, the first pid is kept and
      signalled, and nothing else changes anything. */
  predicate Heard(s: Slot, msg: Message, t: Slot) {
    && (Ends(s.pid, msg) ==>
          t == s.(recv := Ended, counter := s.counter + EVENT_STOP,
                  log := s.log.(stopSince := true, stopped := true)))
    && (Reports(s.pid, msg) ==>
          t == s.(pid := msg.pid, counter := s.counter + EVENT_PID,
                  log := s.log.(pidsSince := s.log.pidsSince + 1, pids := s.log.pids + 1,
                                oddPid := s.log.oddPid || msg.pid == UNKNOWN_PID)))
    && (!Ends(s.pid, msg) && !Reports(s.pid, msg) ==> t == s)
  }

  /** What a join does: a receiver that was started has given up by its end, and only it has gone on. */
  predicate Joined(s: Slot, t: Slot) {
    && (!s.runFlag ==> t == s)
    && (s.runFlag && s.recv != Running ==> t == s.(runFlag := false, log := s.log.(joins := s.log.joins + 1)))
    && (s.runFlag && s.recv == Running ==>
          && t == s.(runFlag := false, recv := Ended, pid := t.pid, counter := t.counter, log := t.log)
          && t.log.stopSince && t.log.joins == s.log.joins + 1 && t.log.stops == s.log.stops)
  }

  /** What a read takes: the whole counter, if there is anything in it. */
  function Emptied(s: Slot): Slot {
    if s.counter == 0 then s
    else s.(counter := 0, log := s.log.(unread := false, pidsSince := 0, stopSince := false))
  }

  /** The counter as it is read makes the stop handler run; ok tells whether the PID handler succeeds. */
  predicate Stops(counter: nat, ok: bool) {
    (HasBit(counter, EVENT_STOP) || HasBit(counter, EVENT_ERROR)) && (HasBit(counter, EVENT_PID) ==> ok)
  }

  /** The slot is free, and nothing of the connection goes on. */
  predicate Released(t: Slot) {
    && t.phase == Free && !t.watched && !t.hasEvent && !t.initialLog && !t.runFlag && t.recv != Running
    && t.log.stops == 1
  }

  /** What the events of a target do to it: it is released, or after a PID event given a type and told to go
      on if the handler has found its app; else nothing. */
  predicate Handled(s: Slot, u: nat, ok: bool, appType: AppType, t: Slot) {
    var withPid := HasBit(u, EVENT_PID);
    var kind := if withPid then appType else s.appType;
    && (Stops(u, ok) ==> Released(t) && t.appType == kind)
    && (!Stops(u, ok) ==> t == s.(appType := kind, initialLog := s.initialLog || (withPid && ok)))
  }

  /** A target that has just connected. */
  function Newcomer(created: bool): Slot {
    Slot(Unknown, UNKNOWN_PID, false, true, EFD_CLOEXEC, true, created, if created then Running else Idle, Live,
         Log(true, 0, false, 0, false, false, 0, 0))
  }

  /** A new target, a slot given back, or one kept. */
  predicate Connected(ret: int, works: bool, created: bool, t: Slot) {
    && (works <==> ret == 0) && (ret == 0 || ret == 1 || ret == -1)
    && (ret == 0 ==> t == Newcomer(created))
    && (ret == 1 ==> t.phase == Free)
    && (ret == -1 ==> t.phase == Kept)
  }

  class Target {
    var appType: AppType
    var pid: int
    var initialLog: bool
    /** The eventfd, its counter, and whether the main loop watches it. */
    var hasEvent: bool
    var counter: nat
    var watched: bool
    /** struct thread. */
    var runFlag: bool
    var recv: Recv

    ghost var phase: Phase
    ghost var log: Log

    constructor ()
      ensures Ok() && phase == Free
    {
      appType, pid, initialLog := Unknown, UNKNOWN_PID, false;
      hasEvent, counter, watched, runFlag, recv := false, 0, false, false, Idle;
      phase, log := Free, Log(false, 0, false, 0, false, false, 0, 0);
    }

    ghost function Shot(): (s: Slot)
      reads this
    {
      Slot(appType, pid, initialLog, hasEvent, counter, watched, runFlag, recv, phase, log)
    }

    /** As target_ctor leaves it. */
    ghost predicate Fresh()
      reads this
    {
      && pid == UNKNOWN_PID && !hasEvent && !watched && !runFlag && recv == Idle && log.pids == 0
      && !log.stopped && !log.oddPid && log.joins == 0 && log.stops == 0
    }

    /** The main loop watches the eventfd and the receiver is started. */
    method Watch(created: bool)
      requires Ok() && phase == Kept && hasEvent && !runFlag && recv == Idle && New()
      requires appType == Unknown && !initialLog
      modifies `phase, `watched, `runFlag, `recv
      ensures Ok() && Shot() == Newcomer(created)
    {
      hide EventSum;
      phase, watched := Live, true;
      var started := Start(created);
    }

    /** The closing part of target_dtor. */
    method Close()
      requires Ok() && !runFlag && recv != Running && !watched
      modifies `hasEvent, `initialLog, `phase
      ensures Ok() && phase == Free && !watched && !hasEvent && !initialLog
    {
      hide EventSum;
      phase, hasEvent, initialLog := Free, false, false;
    }

    /** The stop handler up to the join: no further event of this connection will be looked at. */
    method EndWatch()
      requires Ok() && watched
      modifies this
      ensures Ok() && !watched && !runFlag && recv != Running && phase == old(phase) == Live && log.stops == 1
      ensures appType == old(appType)
    {
      hide EventSum;
      watched := false;
      log := log.(stops := log.stops + 1);
      Wait();
    }

    method Finish()
      requires Ok() && watched
      modifies this
      ensures Ok() && phase == Free && old(phase) == Live && log.stops == 1 && !runFlag && recv != Running && !watched
      ensures appType == old(appType) && !hasEvent && !initialLog
    {
      hide Ok;
      EndWatch();
      Close();
    }

    method SetType(appType: AppType, ok: bool)
      requires Ok()
      modifies `appType, `initialLog
      ensures Ok() && Shot() == old(Shot()).(appType := appType, initialLog := ok || old(initialLog))
    {
      hide EventSum;
      this.appType, initialLog := appType, ok || initialLog;
    }

    /** read(event_fd) takes the whole counter; it fails while nothing has been written. */
    method ReadEvent() returns (u: nat)
      requires Ok() && hasEvent
      modifies `counter, `log
      ensures Ok() && u == old(counter)
      ensures u > 0 ==>
        Shot() == old(Shot()).(counter := 0, log := old(log).(unread := false, pidsSince := 0, stopSince := false))
      ensures u == 0 ==> Shot() == old(Shot())
      ensures Faithful(u, old(log.pidsSince), old(log.stopSince))
         <==> old(log.pidsSince) == 0 || old(log.pidsSince) % 4 == 1
      ensures !old(log.oddPid) ==> Faithful(u, old(log.pidsSince), old(log.stopSince))
    {
      hide Faithful;
      FaithfulWhen(log.unread, log.pidsSince, log.stopSince);
      u := counter;
      if u > 0 {
        counter := 0;
        log := log.(unread := false, pidsSince := 0, stopSince := false);
      }
    }

    /** A new eventfd. */
    method OpenEvent()
      requires Ok() && Fresh()
      modifies `hasEvent, `counter, `log
      ensures Ok() && hasEvent && !runFlag && recv == Idle && New()
      ensures appType == old(appType) && initialLog == old(initialLog)
    {
      hasEvent, counter := true, EFD_CLOEXEC;
      log := Log(true, 0, false, 0, false, false, 0, 0);
    }

    /** Connected, and nothing has been written or read yet. */
    ghost predicate New()
      reads this
    {
      && pid == UNKNOWN_PID && counter == EFD_CLOEXEC
      && log == Log(true, 0, false, 0, false, false, 0, 0)
      && (recv == Running <==> runFlag)
    }

    /** The assignments of target_ctor; nothing has happened on the new connection. */
    method Reset()
      modifies this
      ensures Ok() && Fresh() && phase == Kept && appType == Unknown && !initialLog
    {
      hide EventSum;
      phase := Kept;
      appType, pid, initialLog := Unknown, UNKNOWN_PID, false;
      hasEvent, counter, watched, runFlag, recv := false, 0, false, false, Idle;
      log := Log(true, 0, false, 0, false, false, 0, 0);
    }

    ghost predicate Ok()
      reads this
    {
      && Events() && Thread()
      && (watched ==> phase == Live && hasEvent && log.stops == 0)
      && log.stops <= 1
    }

    /** The counter is the sum of what was written since the last read; each event was written at most
        once, STOP last, unless the process reported the odd pid. */
    ghost predicate Events()
      reads this
    {
      && (hasEvent ==> counter == EventSum(log.unread, log.pidsSince, log.stopSince))
      && log.pidsSince <= log.pids && (log.stopSince ==> log.stopped) && (log.stopped ==> recv == Ended)
      && (!log.oddPid ==> log.pids == if pid == UNKNOWN_PID then 0 else 1)
      && (recv == Running ==> hasEvent)
    }

    /** A receiver that runs will be joined, one that was joined does not run; it is joined once. */
    ghost predicate Thread()
      reads this
    {
      && (recv == Running ==> runFlag)
      && log.joins == (if recv == Ended && !runFlag then 1 else 0)
      && (runFlag ==> recv != Idle && phase == Live)
    }

    /** write(event_fd): the counter adds. */
    method WriteStop()
      requires recv == Running && !log.stopSince && counter == EventSum(log.unread, log.pidsSince, log.stopSince)
      modifies `counter, `log
      ensures log == old(log).(stopSince := true, stopped := true)
      ensures counter == EventSum(log.unread, log.pidsSince, log.stopSince)
    {
      counter := counter + EVENT_STOP;
      log := log.(stopSince := true, stopped := true);
    }

    method WritePid()
      requires recv == Running && counter == EventSum(log.unread, log.pidsSince, log.stopSince)
      modifies `counter, `log
      ensures log == old(log).(pidsSince := old(log.pidsSince) + 1, pids := old(log.pids) + 1)
      ensures counter == EventSum(log.unread, log.pidsSince, log.stopSince)
    {
      counter := counter + EVENT_PID;
      log := log.(pidsSince := log.pidsSince + 1, pids := log.pids + 1);
    }

    /** STOP is written and the receiver returns. */
    method GiveUp()
      requires Ok() && recv == Running
      modifies `counter, `recv, `log
      ensures Ok() && Shot() == old(Shot()).(recv := Ended, counter := old(counter) + EVENT_STOP,
                                             log := old(log).(stopSince := true, stopped := true))
    {
      WriteStop();
      recv := Ended;
    }

    /** The first pid is kept and signalled. */
    method NotePid(newPid: int)
      requires Ok() && recv == Running && pid == UNKNOWN_PID
      modifies `pid, `counter, `log
      ensures Ok() && Shot() == old(Shot()).(pid := newPid, counter := old(counter) + EVENT_PID,
                                             log := old(log).(pidsSince := old(log).pidsSince + 1,
                                                              pids := old(log).pids + 1,
                                                              oddPid := old(log).oddPid || newPid == UNKNOWN_PID))
    {
      pid := newPid;
      log := log.(oddPid := log.oddPid || newPid == UNKNOWN_PID);
      WritePid();
    }

    /** One round of the receiver's loop. */
    method Receive(msg: Message)
      requires Ok() && recv == Running
      modifies `pid, `counter, `recv, `log
      ensures Ok() && Heard(old(Shot()), msg, Shot())
      ensures msg == Disconnect || msg == Terminate ==> recv == Ended && log.stopSince
      ensures msg.Pid? && !msg.parsed && old(pid) == UNKNOWN_PID ==> recv == Ended && log.stopSince
    {
      hide Ok;
      match msg
      case Disconnect =>
        GiveUp();
      case Pid(parsed, newPid) =>
        if pid == UNKNOWN_PID {
          if !parsed {
            GiveUp();
          } else {
            NotePid(newPid);
          }
        }
      case Terminate =>
        GiveUp();
      case Other =>
    }

    /** thread_start: makeRecvThread takes only a negative result for a failure, and there is none. */
    method Start(created: bool) returns (ret: int)
      requires Ok() && hasEvent && !runFlag && recv == Idle && phase == Live
      modifies `runFlag, `recv
      ensures Ok() && ret >= 0 && runFlag == created && recv == if created then Running else Idle
    {
      if !created {
        return 11;
      }
      runFlag, recv := true, Running;
      ret := 0;
    }

    /** thread_wait: a join lasts until the receiver has returned, and it goes on receiving until then. */
    method Wait()
      requires Ok()
      modifies this
      ensures Ok() && !runFlag && recv != Running
      ensures Joined(old(Shot()), Shot())
    {
      hide Heard, Waiting, Ok;
      Started();
      if runFlag {
        NotYet(Shot());
        var rounds: nat := *;
        while rounds > 0 && recv == Running
          invariant Ok() && Waiting(old(Shot()), Shot())
        {
          var msg: Message := *;
          ghost var before := Shot();
          Receive(msg);
          StillWaiting(old(Shot()), before, msg, Shot());
          rounds := rounds - 1;
        }
        if recv == Running {
          ghost var before := Shot();
          Receive(Disconnect);
          StillWaiting(old(Shot()), before, Disconnect, Shot());
        }
        WaitEnds(old(Shot()), Shot());
        Join();
      }
    }

    method Join()
      requires Ok() && runFlag && recv != Running
      modifies `runFlag, `log
      ensures Ok() && Shot() == old(Shot()).(runFlag := false, log := old(log).(joins := old(log).joins + 1))
    {
      hide EventSum;
      runFlag := false;
      log := log.(joins := log.joins + 1);
    }

    lemma Started()
      requires Ok()
      ensures runFlag ==> recv != Idle
      ensures !runFlag ==> recv != Running
    {
      hide EventSum;
    }
  }

  /** A receiver that is waited for may go on until it has given up. */
  predicate Waiting(s: Slot, t: Slot) {
    && t == s.(pid := t.pid, counter := t.counter, recv := t.recv, log := t.log)
    && t.log.stops == s.log.stops && t.log.joins == s.log.joins
    && (s.recv != Running ==> t == s) && t.recv != Idle && (s.recv == Running && t.recv == Ended ==> t.log.stopSince)
  }

  lemma NotYet(s: Slot)
    requires s.recv != Idle
    ensures Waiting(s, s)
  {
  }

  lemma StillWaiting(s: Slot, t: Slot, msg: Message, u: Slot)
    requires Waiting(s, t) && t.recv == Running && Heard(t, msg, u)
    ensures Waiting(s, u)
  {
  }

  lemma WaitEnds(s: Slot, t: Slot)
    requires s.runFlag && Waiting(s, t) && t.recv != Running
    ensures Joined(s, t.(runFlag := false, log := t.log.(joins := t.log.joins + 1)))
    ensures t.runFlag && t.phase == s.phase && t.watched == s.watched && t.appType == s.appType
    ensures t.log.stops == s.log.stops
  {
  }

  /** A process that reports its pid as -1 writes two PID events; read together they look like an ERROR
      event and no PID event. */
  method TwoPidsLookLikeError(t: Target) returns (u: nat)
    requires t.Ok() && t.recv == Running && t.pid == UNKNOWN_PID && t.log.pidsSince == 0 && !t.log.stopSince
    modifies t
    ensures HasBit(u, EVENT_ERROR) && !HasBit(u, EVENT_PID) && t.recv == Running
    ensures t.log.pids == old(t.log.pids) + 2 && t.log.oddPid
  {
    hide Target.Thread;
    t.Receive(Pid(true, UNKNOWN_PID));
    t.Receive(Pid(true, UNKNOWN_PID));
    assert t.counter == EventSum(t.log.unread, 2, false);
    u := t.ReadEvent();
  }

  // -------------------------------------------------------------------- table

  ghost function Phases(ts: seq<Target>): (ps: seq<Phase>)
    reads (set t | t in ts)`phase
    ensures |ps| == |ts|
    ensures forall i {:trigger ps[i]} :: 0 <= i < |ts| ==> ps[i] == ts[i].phase
  {
    if ts == [] then [] else Phases(ts[..|ts| - 1]) + [ts[|ts| - 1].phase]
  }

  function CountOf(ps: seq<Phase>, p: Phase): (n: nat)
    ensures n <= |ps|
  {
    if ps == [] then 0 else CountOf(ps[..|ps| - 1], p) + if ps[|ps| - 1] == p then 1 else 0
  }

  lemma {:induction false} CountUpdate(ps: seq<Phase>, k: nat, p: Phase, q: Phase)
    requires k < |ps|
    ensures CountOf(ps[k := p], q) == CountOf(ps, q) - (if ps[k] == q then 1 else 0) + (if p == q then 1 else 0)
  {
    var n := |ps| - 1;
    if k < n {
      CountUpdate(ps[..n], k, p, q);
      assert ps[k := p][..n] == ps[..n][k := p];
    } else {
      assert ps[k := p][..n] == ps[..n];
    }
  }

  lemma {:induction false} CountNone(ps: seq<Phase>, p: Phase)
    requires forall i :: 0 <= i < |ps| ==> ps[i] != p
    ensures CountOf(ps, p) == 0
  {
    if ps != [] {
      CountNone(ps[..|ps| - 1], p);
    }
  }

  ghost function Shots(ts: seq<Target>): (ss: seq<Slot>)
    reads (set t | t in ts)
    ensures |ss| == |ts|
    ensures forall i {:trigger ss[i]} :: 0 <= i < |ts| ==> ss[i] == ts[i].Shot()
  {
    if ts == [] then [] else Shots(ts[..|ts| - 1]) + [ts[|ts| - 1].Shot()]
  }

  /** Every slot has been waited for. */
  predicate AllJoined(ss: seq<Slot>, ts: seq<Slot>) {
    |ss| == |ts| && forall i :: 0 <= i < |ss| ==> Joined(ss[i], ts[i])
  }

  lemma FirstFreeIs(ss: seq<Slot>, k: nat)
    requires k <= |ss| && (k < |ss| ==> ss[k].phase == Free) && forall i :: 0 <= i < k ==> ss[i].phase != Free
    ensures FirstFree(ss) == k
  {
  }

  lemma NothingJoined(ss: seq<Slot>, ts: seq<Slot>)
    requires AllJoined(ss, ts) && forall i :: 0 <= i < |ss| ==> !ss[i].runFlag
    ensures ss == ts
  {
  }

  lemma {:induction false} CountedOnce(ps: seq<Phase>, k: nat, p: Phase)
    requires k < |ps| && ps[k] == p
    ensures CountOf(ps, p) > 0
  {
    if k < |ps| - 1 {
      CountedOnce(ps[..|ps| - 1], k, p);
    }
  }

  method FreeTargets() returns (ts: seq<Target>)
    ensures |ts| == MAX_TARGET_COUNT && forall k, m :: 0 <= k < m < |ts| ==> ts[k] != ts[m]
    ensures forall k {:trigger ts[k]} :: 0 <= k < |ts| ==> fresh(ts[k]) && ts[k].Ok() && ts[k].phase == Free
  {
    hide Target.Ok;
    ts := [];
    for i := 0 to MAX_TARGET_COUNT
      invariant |ts| == i && forall k, m :: 0 <= k < m < i ==> ts[k] != ts[m]
      invariant forall k {:trigger ts[k]} :: 0 <= k < i ==> fresh(ts[k]) && ts[k].Ok() && ts[k].phase == Free
    {
      var t := new Target();
      ts := ts + [t];
    }
  }

  class TargetTable {
    const target: seq<Target>
    const use: array<bool>
    var cnt: int

    ghost predicate Shape() {
      && |target| == use.Length == MAX_TARGET_COUNT
      && (forall i, j :: 0 <= i < j < |target| ==> target[i] != target[j])
    }

    ghost predicate Slots()
      reads this, use, target
    {
      && Shape()
      && (forall i {:trigger target[i]} :: 0 <= i < |target| ==>
            target[i].Ok() && (use[i] <==> target[i].phase != Free) && (target[i].phase == Live ==> target[i].watched))
    }

    /** A slot is in use iff it holds a live target or is kept, live targets are watched, and the
        counter is the number of live targets. */
    ghost predicate Valid()
      reads this, use, target
    {
      Slots() && cnt == CountOf(Phases(target), Live)
    }

    constructor ()
      ensures Valid() && cnt == 0
    {
      hide Target.Ok, CountOf, Phases;
      var ts := FreeTargets();
      target := ts;
      use := new bool[MAX_TARGET_COUNT](i => false);
      cnt := 0;
      CountNone(Phases(ts), Live);
    }

    lemma SlotsSound()
      requires Valid()
      ensures AllSound(State().slots)
    {
      hide CountOf, EventSum, Phases;
    }

    ghost function State(): Table
      reads this, target
    {
      Table(Shots(target), cnt)
    }

    method FindFree() returns (k: nat)
      requires Valid()
      ensures k == FirstFree(Shots(target)) && k <= MAX_TARGET_COUNT && (k < MAX_TARGET_COUNT ==> !use[k])
    {
      hide Target.Ok, CountOf, Phases, FirstFree;
      k := 0;
      while k < MAX_TARGET_COUNT && use[k]
        invariant k <= MAX_TARGET_COUNT && forall i :: 0 <= i < k ==> use[i]
      {
        k := k + 1;
      }
      assert forall i :: 0 <= i < k ==> Shots(target)[i].phase != Free;
      assert k < MAX_TARGET_COUNT ==> Shots(target)[k].phase == Free;
      FirstFreeIs(Shots(target), k);
    }

    /** target_malloc and target_ctor on slot k, which is kept until the connection is complete. */
    method Ctor(t: Target, k: nat)
      requires Valid() && k < MAX_TARGET_COUNT && !use[k] && t == target[k]
      modifies use, t
      ensures Valid() && use[..] == old(use[..])[k := true] && t.phase == Kept && t.Fresh()
      ensures t.appType == Unknown && !t.initialLog
    {
      hide Target.Ok, CountOf;
      CountUpdate(Phases(target), k, Kept, Live);
      use[k] := true;
      t.Reset();
      assert Phases(target) == old(Phases(target))[k := Kept];
    }

    /** target_dtor: closes and frees; by then the receiver has been joined, if there was one. */
    method Dtor(t: Target, k: nat)
      requires Slots() && k < MAX_TARGET_COUNT && t == target[k] && t.phase != Free
      requires !t.runFlag && t.recv != Running && !t.watched
      modifies use, t`hasEvent, t`initialLog, t`phase
      ensures Slots() && use[..] == old(use[..])[k := false] && t.phase == Free && !t.hasEvent && !t.initialLog
      ensures CountOf(Phases(target), Live)
           == CountOf(old(Phases(target)), Live) - if old(t.phase) == Live then 1 else 0
    {
      hide CountOf, Target.Ok;
      CountUpdate(Phases(target), k, Free, Live);
      t.Close();
      use[k] := false;
      assert Phases(target) == old(Phases(target))[k := Free];
    }

    /** targetServerHandler: 0 for a new target, 1 when the connection is refused, -1 when a first
        connection fails, which keeps its slot for ever. Failure to create the receiver goes unnoticed. */
    method Connect(accepted: bool, eventOk: bool, handlerOk: bool, created: bool) returns (ret: int, ghost k: nat)
      requires Valid()
      modifies this`cnt, use, target
      ensures Valid() && k == FirstFree(old(Shots(target))) <= MAX_TARGET_COUNT
      ensures k == MAX_TARGET_COUNT ==> ret == 1 && use[..] == old(use[..]) && cnt == old(cnt)
      ensures k < MAX_TARGET_COUNT ==>
        !old(use[k]) && Connected(ret, accepted && eventOk && handlerOk, created, target[k].Shot())
      ensures cnt == old(cnt) + if ret == 0 then 1 else 0
      ensures ret == -1 ==> old(cnt) == 0
      ensures k < MAX_TARGET_COUNT && ret == 1 ==> old(cnt) != 0
      ensures ret == 1 ==> use[..] == old(use[..])
      ensures k == MAX_TARGET_COUNT ==> Shots(target) == old(Shots(target))
      ensures k < MAX_TARGET_COUNT ==> Shots(target) == old(Shots(target))[k := target[k].Shot()]
    {
      hide Slots, CountOf, Connected, Phases, Shots;
      var slot := FindFree();
      k := slot;
      Differ();
      if slot == MAX_TARGET_COUNT {
        return 1, k;
      }
      ret := ConnectSlot(target[slot], slot, accepted, eventOk, handlerOk, created);
    }

    lemma Differ()
      requires Valid()
      ensures |target| == use.Length == MAX_TARGET_COUNT
      ensures forall i, j :: 0 <= i < |target| && 0 <= j < |target| && i != j ==> target[i] != target[j]
    {
    }

    method ConnectSlot(t: Target, k: nat, accepted: bool, eventOk: bool, handlerOk: bool, created: bool)
      returns (ret: int)
      requires Valid() && k < MAX_TARGET_COUNT && !use[k] && t == target[k]
      modifies this`cnt, use, t
      ensures Valid() && Connected(ret, accepted && eventOk && handlerOk, created, t.Shot())
      ensures Shots(target) == old(Shots(target))[k := t.Shot()]
      ensures cnt == old(cnt) + if ret == 0 then 1 else 0
      ensures ret == -1 <==> !(accepted && eventOk && handlerOk) && old(cnt) == 0
      ensures ret == 1 ==> old(cnt) != 0
      ensures use[..] == old(use[..])[k := ret != 1]
    {
      hide Slots, CountOf, Phases, Newcomer;
      Differ();
      Ctor(t, k);
      ret := Complete(t, k, accepted, eventOk, handlerOk, created);
      assert Shots(target) == old(Shots(target))[k := t.Shot()];
    }

    method Complete(t: Target, k: nat, accepted: bool, eventOk: bool, handlerOk: bool, created: bool)
      returns (ret: int)
      requires Valid() && k < MAX_TARGET_COUNT && use[k] && t == target[k] && t.phase == Kept && t.Fresh()
      requires t.appType == Unknown && !t.initialLog
      modifies this`cnt, use, t
      ensures Valid() && Connected(ret, accepted && eventOk && handlerOk, created, t.Shot())
      ensures cnt == old(cnt) + if ret == 0 then 1 else 0
      ensures ret == -1 <==> !(accepted && eventOk && handlerOk) && old(cnt) == 0
      ensures ret == 1 ==> old(cnt) != 0
      ensures use[..] == old(use[..])[k := ret != 1]
    {
      hide Target.Ok, CountOf, Phases, Newcomer;
      if accepted && eventOk {
        t.OpenEvent();
        if handlerOk {
          Attach(t, k, created);
          return 0;
        }
      }
      if cnt == 0 {
        return -1;
      }
      Dtor(t, k);
      ret := 1;
    }

    /** The main loop watches the eventfd, the receiver is started, the target is counted. */
    method Attach(t: Target, k: nat, created: bool)
      requires Valid() && k < MAX_TARGET_COUNT && t == target[k] && t.phase == Kept
      requires t.hasEvent && !t.runFlag && t.recv == Idle && t.New() && t.appType == Unknown && !t.initialLog
      modifies this`cnt, t`phase, t`watched, t`runFlag, t`recv
      ensures Valid() && cnt == old(cnt) + 1 && t.Shot() == Newcomer(created)
      ensures use[..] == old(use[..])
    {
      hide CountOf, Target.Ok;
      CountUpdate(Phases(target), k, Live, Live);
      t.Watch(created);
      assert Phases(target) == old(Phases(target))[k := Live];
      cnt := cnt + 1;
    }

    /** target_wait_all. */
    method WaitAll()
      requires Valid()
      modifies target
      ensures Valid() && Phases(target) == old(Phases(target))
      ensures forall i :: 0 <= i < |target| ==> !target[i].runFlag && target[i].recv != Running
      ensures AllJoined(old(Shots(target)), Shots(target))
    {
      hide Target.Ok, CountOf, Phases, Shots, Joined;
      ghost var ss := Shots(target);
      var i := 0;
      while i < MAX_TARGET_COUNT
        invariant i <= MAX_TARGET_COUNT && Valid() && Phases(target) == old(Phases(target))
        invariant forall k :: i <= k < |target| ==> Shots(target)[k] == ss[k]
        invariant forall k :: 0 <= k < i ==> Joined(ss[k], Shots(target)[k])
        invariant forall k :: 0 <= k < i ==> !target[k].runFlag && target[k].recv != Running
      {
        WaitSlot(target[i], i);
        i := i + 1;
      }
    }

    method WaitSlot(t: Target, i: nat)
      requires Valid() && i < |target| && t == target[i]
      modifies t
      ensures Valid() && Phases(target) == old(Phases(target)) && !t.runFlag && t.recv != Running
      ensures Joined(old(t.Shot()), t.Shot()) && Shots(target) == old(Shots(target))[i := t.Shot()]
    {
      hide CountOf, EventSum;
      if use[i] {
        t.Wait();
      }
      assert Phases(target) == old(Phases(target));
      assert Shots(target) == old(Shots(target))[i := t.Shot()];
    }

    /** Stop watching, wait for the receiver, free the slot, count one target less. */
    method Release(t: Target, k: nat)
      requires Valid() && k < |target| && t == target[k] && t.watched
      modifies this`cnt, use, t
      ensures Valid() && cnt == old(cnt) - 1
      ensures Released(t.Shot()) && t.appType == old(t.appType)
      ensures Shots(target) == old(Shots(target))[k := t.Shot()]
    {
      hide CountOf, Slots, Phases, Released;
      Differ();
      ReleaseSlot(t, k);
      assert Shots(target) == old(Shots(target))[k := t.Shot()];
    }

    method ReleaseSlot(t: Target, k: nat)
      requires Valid() && k < |target| && t == target[k] && t.watched
      modifies this`cnt, use, t
      ensures Valid() && cnt == old(cnt) - 1 && Released(t.Shot()) && t.appType == old(t.appType)
    {
      hide CountOf, Target.Ok;
      CountUpdate(Phases(target), k, Free, Live);
      t.Finish();
      use[k] := false;
      assert Phases(target) == old(Phases(target))[k := Free];
      cnt := cnt - 1;
    }

    /** target_event_stop_handler: runs once per connection; the slot is freed after the join. */
    method StopHandler(t: Target, k: nat) returns (ret: int)
      requires Valid() && k < |target| && t == target[k] && t.watched
      modifies this`cnt, use, target
      ensures Valid() && cnt == old(cnt) - 1
      ensures Released(t.Shot()) && t.appType == old(t.appType) && (ret == 0 || ret == -11)
      ensures Shots(target) == old(Shots(target))[k := t.Shot()]
      ensures ret == -11 <==> cnt == 0 && (old(t.appType) == Tizen || old(t.appType) == Common)
    {
      hide CountOf, Target.Ok, Slots, Phases, Shots, Joined, Released;
      var appType := t.appType;
      Release(t, k);
      ret := 0;
      if cnt == 0 && (appType == Tizen || appType == Common) {
        var running: bool := *;
        if running {
          NobodyRuns();
          ghost var ss := Shots(target);
          assert ss[k] == t.Shot();
          WaitAll();
          NothingJoined(ss, Shots(target));
          assert Shots(target)[k] == t.Shot();
        }
        ret := -11;
      }
    }

    /** With no target counted no receiver is left to wait for. */
    lemma NobodyRuns()
      requires Valid() && cnt == 0
      ensures forall i :: 0 <= i < |target| ==> !Shots(target)[i].runFlag
    {
      hide CountOf, EventSum;
      forall i | 0 <= i < |target|
        ensures target[i].phase != Live
      {
        if target[i].phase == Live {
          assert Phases(target)[i] == Live;
          CountedOnce(Phases(target), i, Live);
        }
      }
    }

    /** target_event_cb: the counter is read and its bits are handled. */
    method EventCb(t: Target, k: nat, apps: DataList, isApp: CString -> bool, replaying: bool, appType: AppType)
      returns (u: nat, err: int, ran: bool)
      requires Valid() && k < |target| && t == target[k] && t.watched && apps.Valid()
      modifies this`cnt, use, target
      ensures Valid() && u == old(t.counter)
      ensures ReadingOf(u, old(t.log)).Right()
      ensures ran <==> Stops(u, PidOk(apps.View(), isApp, replaying))
      ensures Handled(Emptied(old(t.Shot())), u, PidOk(apps.View(), isApp, replaying), appType, t.Shot())
      ensures Shots(target) == old(Shots(target))[k := t.Shot()] && cnt == old(cnt) - if ran then 1 else 0
      ensures ran ==> (err == -11 <==> cnt == 0 && (t.appType == Tizen || t.appType == Common))
      ensures ran ==> err == 0 || err == -11
      ensures !ran ==> err == (if HasBit(u, EVENT_PID) && !PidOk(apps.View(), isApp, replaying) then -1 else 0)
    {
      hide Target.Ok, CountOf, HasBit, Slots, DataList.Valid, DataList.View, PidOk, Reading.Right, ReadingOf, Phases,
        Shots, Emptied, Handled, Stops;
      u := ReadSlot(t, k);
      err, ran := HandleEvent(t, k, u, apps, isApp, replaying, appType);
    }

    /** target_event_handler: a failing PID handler returns before the STOP bit is examined; ran tells
        whether the stop handler was called. */
    method HandleEvent(t: Target, k: nat, u: nat, apps: DataList, isApp: CString -> bool, replaying: bool,
                       appType: AppType)
      returns (err: int, ran: bool)
      requires Valid() && k < |target| && t == target[k] && t.watched && apps.Valid()
      modifies this`cnt, use, target
      ensures Valid() && (ran <==> Stops(u, PidOk(apps.View(), isApp, replaying)))
      ensures Handled(old(t.Shot()), u, PidOk(apps.View(), isApp, replaying), appType, t.Shot())
      ensures Shots(target) == old(Shots(target))[k := t.Shot()] && cnt == old(cnt) - if ran then 1 else 0
      ensures ran ==> (err == -11 <==> cnt == 0 && (t.appType == Tizen || t.appType == Common))
      ensures ran ==> err == 0 || err == -11
      ensures !ran ==> err == (if HasBit(u, EVENT_PID) && !PidOk(apps.View(), isApp, replaying) then -1 else 0)
    {
      hide Target.Ok, CountOf, HasBit, Slots, DataList.Valid, DataList.View, PidOk, Phases, Shots, Released;
      err, ran := 0, false;
      if HasBit(u, EVENT_PID) {
        var pidOk := HandlePid(t, k, apps, isApp, replaying, appType);
        if !pidOk {
          return -1, false;
        }
      }
      if HasBit(u, EVENT_STOP) || HasBit(u, EVENT_ERROR) {
        err := StopHandler(t, k);
        ran := true;
      }
    }

    /** target_event_pid_handler: the type is set in any case, the target may go on if its app is found and
        a replay can be started. */
    method HandlePid(t: Target, k: nat, apps: DataList, isApp: CString -> bool, replaying: bool, appType: AppType)
      returns (ok: bool)
      requires Valid() && k < |target| && t == target[k] && t.watched && apps.Valid()
      modifies t`appType, t`initialLog
      ensures Valid() && ok == PidOk(apps.View(), isApp, replaying)
      ensures t.Shot() == old(t.Shot()).(appType := appType, initialLog := ok || old(t.initialLog))
      ensures Shots(target) == old(Shots(target))[k := t.Shot()]
    {
      hide Target.Ok, CountOf, Slots, DataList.Valid, DataList.View, PidOk, Phases, Shots;
      ok := PidHandler(apps, isApp, replaying);
      TypeSlot(t, k, appType, ok);
    }

    method ReadSlot(t: Target, k: nat) returns (u: nat)
      requires Valid() && k < |target| && t == target[k] && t.watched
      modifies t`counter, t`log
      ensures Valid() && u == old(t.counter) && t.log.stops == 0 && Phases(target) == old(Phases(target))
      ensures ReadingOf(u, old(t.log)).Right()
      ensures t.Shot() == Emptied(old(t.Shot())) && Shots(target) == old(Shots(target))[k := t.Shot()]
    {
      hide CountOf, Faithful, EventSum;
      u := t.ReadEvent();
      assert Phases(target) == old(Phases(target));
      assert Shots(target) == old(Shots(target))[k := t.Shot()];
    }

    /** What the PID handler leaves in the target. */
    method TypeSlot(t: Target, k: nat, appType: AppType, ok: bool)
      requires Valid() && k < |target| && t == target[k] && t.watched
      modifies t`appType, t`initialLog
      ensures Valid() && Phases(target) == old(Phases(target)) && t.log.stops == 0
      ensures t.Shot() == old(t.Shot()).(appType := appType, initialLog := ok || old(t.initialLog))
      ensures Shots(target) == old(Shots(target))[k := t.Shot()]
    {
      hide CountOf, EventSum;
      t.SetType(appType, ok);
      assert Phases(target) == old(Phases(target));
      assert Shots(target) == old(Shots(target))[k := t.Shot()];
    }

    /** One message arrives at the receiver of slot k. */
    method ReceiveSlot(t: Target, k: nat, msg: Message)
      requires Valid() && k < |target| && t == target[k] && t.recv == Running
      modifies t`pid, t`counter, t`recv, t`log
      ensures Valid() && Phases(target) == old(Phases(target))
      ensures Heard(old(t.Shot()), msg, t.Shot()) && Shots(target) == old(Shots(target))[k := t.Shot()]
    {
      hide CountOf, EventSum;
      t.Receive(msg);
      assert Phases(target) == old(Phases(target));
      assert Shots(target) == old(Shots(target))[k := t.Shot()];
    }

    /** Used slots are those of counted targets and those kept by failed first connections; no slot
        that is free has a receiver that could still touch it. */
    lemma Accounting()
      requires Valid()
      ensures 0 <= cnt <= MAX_TARGET_COUNT
      ensures UsedCount(use[..]) == cnt + CountOf(Phases(target), Kept)
      ensures forall i :: 0 <= i < |target| && !use[i] ==> target[i].recv != Running && !target[i].runFlag
      ensures forall i :: 0 <= i < |target| ==> target[i].log.joins <= 1 && target[i].log.stops <= 1
    {
      UsedSplits(use[..], Phases(target));
    }
  }

  /** A step of the main loop or of a receiver; one that is not possible is skipped. */
  datatype Move =
    | Connecting(accepted: bool, eventOk: bool, handlerOk: bool, created: bool)
    | Receiving(slot: nat, msg: Message)
    | Event(slot: nat, isApp: CString -> bool, replaying: bool, appType: AppType)
    | WaitForAll

  /** All targets, and how many are counted. */
  datatype Table = Table(slots: seq<Slot>, cnt: int)

  /** Where the next target goes, or the length. */
  function FirstFree(ss: seq<Slot>): (k: nat)
    ensures k <= |ss| && (k < |ss| ==> ss[k].phase == Free) && forall i :: 0 <= i < k ==> ss[i].phase != Free
  {
    if ss == [] || ss[0].phase == Free then 0 else 1 + FirstFree(ss[1..])
  }

  /** A message for a receiver that runs, and a look at events that are watched. */
  predicate Happens(s: Table, move: Move) {
    && (move.Receiving? ==> move.slot < |s.slots| && s.slots[move.slot].recv == Running)
    && (move.Event? ==> move.slot < |s.slots| && s.slots[move.slot].watched)
  }

  /** The stop handler runs in this step. */
  predicate Ran(ds: seq<Data>, s: Table, move: Move) {
    move.Event? && Happens(s, move) && Stops(s.slots[move.slot].counter, PidOk(ds, move.isApp, move.replaying))
  }

  predicate Added(s: Table, move: Move) {
    move.Connecting? && move.accepted && move.eventOk && move.handlerOk && FirstFree(s.slots) < |s.slots|
  }

  /** What a step does to the slot it is about, and that no other slot notices. */
  predicate Moved(ds: seq<Data>, s: Table, move: Move, t: Table) {
    && |t.slots| == |s.slots|
    && t.cnt == s.cnt + (if Added(s, move) then 1 else 0) - (if Ran(ds, s, move) then 1 else 0)
    && (!Happens(s, move) ==> t == s)
    && match move
       case Connecting(accepted, eventOk, handlerOk, created) =>
         var k := FirstFree(s.slots);
         && (k == |s.slots| ==> t == s)
         && (k < |s.slots| ==>
               && t.slots == s.slots[k := t.slots[k]]
               && (Added(s, move) ==> t.slots[k] == Newcomer(created))
               && (!Added(s, move) ==> t.slots[k].phase == if s.cnt == 0 then Kept else Free))
       case Receiving(k, msg) =>
         Happens(s, move) ==> t.slots == s.slots[k := t.slots[k]] && Heard(s.slots[k], msg, t.slots[k])
       case Event(k, isApp, replaying, appType) =>
         Happens(s, move) ==>
           && t.slots == s.slots[k := t.slots[k]]
           && Handled(Emptied(s.slots[k]), s.slots[k].counter, PidOk(ds, isApp, replaying), appType, t.slots[k])
       case WaitForAll => AllJoined(s.slots, t.slots)
  }

  /** What the invariant says of a slot. */
  predicate Sound(s: Slot) {
    && (s.phase == Live <==> s.watched) && (s.watched ==> s.hasEvent && s.log.stops == 0)
    && (s.hasEvent ==> s.counter == EventSum(s.log.unread, s.log.pidsSince, s.log.stopSince))
    && (s.recv == Running ==> s.watched && s.runFlag) && (s.log.stopped ==> s.recv == Ended)
    && (s.log.stopSince ==> s.log.stopped) && s.log.pidsSince <= s.log.pids
    && (!s.log.oddPid ==> s.log.pids == if s.pid == UNKNOWN_PID then 0 else 1)
  }

  predicate AllSound(ss: seq<Slot>) {
    forall i :: 0 <= i < |ss| ==> Sound(ss[i])
  }

  /** The tables before and after every step. */
  ghost predicate Trace(ds: seq<Data>, states: seq<Table>, moves: seq<Move>) {
    && |states| == |moves| + 1 && (forall i :: 0 <= i < |states| ==> AllSound(states[i].slots))
    && forall i {:trigger moves[i]} :: 0 <= i < |moves| ==> Moved(ds, states[i], moves[i], states[i + 1])
  }

  ghost function HandledIn(ds: seq<Data>, states: seq<Table>, moves: seq<Move>, n: nat): nat
    requires n <= |moves| < |states|
  {
    if n == 0 then 0 else HandledIn(ds, states, moves, n - 1) + if Ran(ds, states[n - 1], moves[n - 1]) then 1 else 0
  }

  ghost function AddedIn(states: seq<Table>, moves: seq<Move>, n: nat): nat
    requires n <= |moves| < |states|
  {
    if n == 0 then 0 else AddedIn(states, moves, n - 1) + if Added(states[n - 1], moves[n - 1]) then 1 else 0
  }

  // ----------------------------------------------------- what follows for runs

  /** In this step the receiver of slot k is told to give up: its target disconnects or ends, or reports a first
      pid that cannot be parsed, or it is waited for. */
  predicate GivesUp(s: Table, move: Move, k: nat) {
    && k < |s.slots| && s.slots[k].recv == Running
    && match move
       case Receiving(slot, msg) =>
         slot == k && (msg == Disconnect || msg == Terminate
                       || (msg.Pid? && !msg.parsed && s.slots[k].pid == UNKNOWN_PID))
       case WaitForAll => true
       case _ => false
  }

  predicate Watched(s: Table, k: nat) {
    k < |s.slots| && s.slots[k].watched
  }

  /** While a target stays connected its receiver ends by that and by nothing else. */
  lemma RecvNext(ds: seq<Data>, s: Table, move: Move, t: Table, k: nat)
    requires Moved(ds, s, move, t) && AllSound(s.slots) && AllSound(t.slots) && Watched(s, k) && Watched(t, k)
    ensures t.slots[k].recv == if GivesUp(s, move, k) then Ended else s.slots[k].recv
    ensures GivesUp(s, move, k) ==> t.slots[k].log.stopSince
  {
    hide HasBit, PidOk, Newcomer, EventSum;
    if move.Connecting? {
      assert k != FirstFree(s.slots);
    }
    assert Sound(s.slots[k]) && Sound(t.slots[k]);
    if move.WaitForAll? {
      assert Joined(s.slots[k], t.slots[k]);
    }
  }

  /** It stays connected as long as the stop handler does not run for it. */
  lemma WatchedNext(ds: seq<Data>, s: Table, move: Move, t: Table, k: nat)
    requires Moved(ds, s, move, t) && AllSound(s.slots) && Watched(s, k)
    ensures Watched(t, k) <==> !(Ran(ds, s, move) && move.slot == k)
  {
    hide HasBit, PidOk, Newcomer, EventSum;
    assert Sound(s.slots[k]);
    if move.WaitForAll? {
      assert Joined(s.slots[k], t.slots[k]);
    }
  }

  /** A connected target has an ended receiver exactly if it has been told to give up since it connected. */
  lemma {:induction false} EndedWhen(ds: seq<Data>, states: seq<Table>, moves: seq<Move>, k: nat, i: nat, n: nat)
    requires Trace(ds, states, moves) && i <= n <= |moves|
    requires Watched(states[i], k) && states[i].slots[k] == Newcomer(true)
    requires forall j :: i <= j < n ==> !(Ran(ds, states[j], moves[j]) && moves[j].slot == k)
    ensures Watched(states[n], k) && states[n].slots[k].recv != Idle
    ensures states[n].slots[k].recv == Ended <==> exists j :: i <= j < n && GivesUp(states[j], moves[j], k)
  {
    hide Moved, Ran, GivesUp, AllSound;
    if n > i {
      EndedWhen(ds, states, moves, k, i, n - 1);
      assert Moved(ds, states[n - 1], moves[n - 1], states[n - 1 + 1]);
      WatchedNext(ds, states[n - 1], moves[n - 1], states[n], k);
      RecvNext(ds, states[n - 1], moves[n - 1], states[n], k);
    }
  }

  /** The STOP bit of an eventfd that is watched. */
  lemma StopBit(s: Slot)
    requires Sound(s) && s.watched
    ensures HasBit(s.counter, EVENT_STOP) <==> s.log.stopSince
  {
    LowBits(0, 0);
  }

  /** A STOP that has been written stays in the counter until the main loop looks. */
  lemma StopStays(ds: seq<Data>, s: Table, move: Move, t: Table, k: nat)
    requires Moved(ds, s, move, t) && AllSound(s.slots) && AllSound(t.slots) && Watched(s, k)
    requires s.slots[k].log.stopSince && !(move.Event? && move.slot == k)
    ensures Watched(t, k) && t.slots[k].log.stopSince && t.slots[k].recv == Ended
  {
    hide HasBit, PidOk, Newcomer, EventSum;
    assert Sound(s.slots[k]) && Sound(t.slots[k]);
    if move.WaitForAll? {
      assert Joined(s.slots[k], t.slots[k]);
    }
  }

  /** Until it is looked at, a target that was told to give up has ended and its STOP bit is set. */
  lemma {:induction false} GivenUp(ds: seq<Data>, states: seq<Table>, moves: seq<Move>, k: nat, i: nat, n: nat)
    requires Trace(ds, states, moves) && i < n <= |moves| && Watched(states[i], k) && GivesUp(states[i], moves[i], k)
    requires forall j :: i < j < n ==> !(moves[j].Event? && moves[j].slot == k)
    ensures Watched(states[n], k) && states[n].slots[k].recv == Ended && states[n].slots[k].log.stopSince
    ensures HasBit(states[n].slots[k].counter, EVENT_STOP)
  {
    hide Moved, HasBit, Sound;
    assert Moved(ds, states[n - 1], moves[n - 1], states[n - 1 + 1]);
    if n > i + 1 {
      GivenUp(ds, states, moves, k, i, n - 1);
      StopStays(ds, states[n - 1], moves[n - 1], states[n], k);
    } else {
      WatchedNext(ds, states[i], moves[i], states[n], k);
      RecvNext(ds, states[i], moves[i], states[n], k);
    }
    StopBit(states[n].slots[k]);
  }

  /** When it is looked at, the stop handler runs unless there was a PID event too and its handler fails; then
      nothing is left in the counter. */
  lemma EventAfterGivingUp(ds: seq<Data>, states: seq<Table>, moves: seq<Move>, k: nat, i: nat, n: nat)
    requires Trace(ds, states, moves) && i < n < |moves| && Watched(states[i], k) && GivesUp(states[i], moves[i], k)
    requires forall j :: i < j < n ==> !(moves[j].Event? && moves[j].slot == k)
    requires moves[n].Event? && moves[n].slot == k
    ensures Watched(states[n], k)
    ensures var pidOk := HasBit(states[n].slots[k].counter, EVENT_PID) ==>
              PidOk(ds, moves[n].isApp, moves[n].replaying);
      && HandledIn(ds, states, moves, n + 1) == HandledIn(ds, states, moves, n) + (if pidOk then 1 else 0)
      && (pidOk ==>
            && k < |states[n + 1].slots| && Released(states[n + 1].slots[k])
            && states[n + 1].cnt == states[n].cnt - 1)
      && (!pidOk ==> Deaf(states[n + 1], k) && states[n + 1].cnt == states[n].cnt)
  {
    hide HasBit, PidOk, EventSum;
    GivenUp(ds, states, moves, k, i, n);
    assert Moved(ds, states[n], moves[n], states[n + 1]);
    var s := states[n].slots[k];
    assert Sound(s);
    if s.counter == 0 {
      NoBit();
    }
  }

  lemma NoBit()
    ensures !HasBit(0, EVENT_STOP)
  {
  }

  /** Connected, with an ended receiver and nothing to be read. */
  predicate Deaf(s: Table, k: nat) {
    Watched(s, k) && s.slots[k].recv == Ended && s.slots[k].counter == 0
  }

  /** The STOP of such a target is lost: it is never released, and stays counted. */
  lemma {:induction false} StopLost(ds: seq<Data>, states: seq<Table>, moves: seq<Move>, k: nat, i: nat, n: nat)
    requires Trace(ds, states, moves) && i <= n <= |moves| && Deaf(states[i], k)
    ensures Deaf(states[n], k)
    ensures n < |moves| ==> !(Ran(ds, states[n], moves[n]) && moves[n].slot == k)
  {
    hide Moved, AllSound, Ran;
    if n > i {
      StopLost(ds, states, moves, k, i, n - 1);
      TraceAt(ds, states, moves, n - 1);
      DeafNext(ds, states[n - 1], moves[n - 1], states[n], k);
    }
    if n < |moves| {
      DeafIsLeft(ds, states[n], moves[n], k);
    }
  }

  lemma TraceAt(ds: seq<Data>, states: seq<Table>, moves: seq<Move>, i: nat)
    requires Trace(ds, states, moves) && i < |moves|
    ensures Moved(ds, states[i], moves[i], states[i + 1]) && AllSound(states[i].slots) && AllSound(states[i + 1].slots)
  {
    hide Moved, AllSound;
  }

  lemma DeafIsLeft(ds: seq<Data>, s: Table, move: Move, k: nat)
    requires Deaf(s, k)
    ensures !(Ran(ds, s, move) && move.slot == k)
  {
    hide PidOk;
  }

  lemma DeafNext(ds: seq<Data>, s: Table, move: Move, t: Table, k: nat)
    requires Moved(ds, s, move, t) && AllSound(s.slots) && AllSound(t.slots) && Deaf(s, k)
    ensures Deaf(t, k)
  {
    hide PidOk, Newcomer, EventSum, Ran;
    DeafIsLeft(ds, s, move, k);
    assert Sound(s.slots[k]) && Sound(t.slots[k]);
    if move.WaitForAll? {
      assert Joined(s.slots[k], t.slots[k]);
    }
  }

  /** Unless its process reported the pid -1, the stop handler runs only for a target whose receiver has ended. */
  lemma RanWhenEnded(ds: seq<Data>, s: Table, move: Move)
    requires AllSound(s.slots) && Ran(ds, s, move) && !s.slots[move.slot].log.oddPid
    ensures s.slots[move.slot].recv == Ended && s.slots[move.slot].log.stopSince
  {
    hide PidOk, HasBit;
    var t := s.slots[move.slot];
    assert Sound(t);
    FaithfulWhen(t.log.unread, t.log.pidsSince, t.log.stopSince);
  }

  /** Every interleaving: every step does what it should to its slot and to no other, the connections and stop
      handlers counted are those that happened, and every read of an eventfd shows the events written since
      the one before unless the process reported the pid -1. */
  method Run(table: TargetTable, apps: DataList, moves: seq<Move>)
    returns (connected: nat, handled: nat, ghost readings: seq<Reading>, ghost states: seq<Table>)
    requires table.Valid() && apps.Valid()
    modifies table`cnt, table.use, table.target
    ensures table.Valid() && Trace(apps.View(), states, moves)
    ensures states[0] == old(table.State()) && states[|moves|] == table.State()
    ensures connected == AddedIn(states, moves, |moves|) && handled == HandledIn(apps.View(), states, moves, |moves|)
    ensures table.cnt == old(table.cnt) + connected - handled
    ensures forall r :: r in readings ==> r.Right()
    ensures handled <= |readings|
  {
    hide *;
    ghost var ds := apps.View();
    connected, handled, readings, states := 0, 0, [], [table.State()];
    NoMoves(ds, table, moves);
    for i := 0 to |moves|
      invariant table.Valid() && apps.Valid() && apps.View() == ds && table.cnt == old(table.cnt) + connected - handled
      invariant handled <= |readings| && forall r :: r in readings ==> r.Right()
      invariant |states| == i + 1 && states[0] == old(table.State()) && states[i] == table.State()
      invariant Trace(ds, states, moves[..i])
      invariant connected == AddedIn(states, moves[..i], i) && handled == HandledIn(ds, states, moves[..i], i)
    {
      var c, h, more := Step(table, apps, moves[i]);
      connected, handled, readings := connected + c, handled + h, readings + more;
      table.SlotsSound();
      TraceNext(ds, states, moves, i, table.State());
      states := states + [table.State()];
    }
    assert moves[..|moves|] == moves;
  }

  lemma NoMoves(ds: seq<Data>, table: TargetTable, moves: seq<Move>)
    requires table.Valid()
    ensures Trace(ds, [table.State()], moves[..0])
    ensures AddedIn([table.State()], moves[..0], 0) == HandledIn(ds, [table.State()], moves[..0], 0) == 0
  {
    table.SlotsSound();
  }

  lemma TraceNext(ds: seq<Data>, states: seq<Table>, moves: seq<Move>, i: nat, t: Table)
    requires i < |moves| && Trace(ds, states, moves[..i])
    requires Moved(ds, states[i], moves[i], t) && AllSound(t.slots)
    ensures Trace(ds, states + [t], moves[..i + 1])
    ensures AddedIn(states + [t], moves[..i + 1], i + 1)
         == AddedIn(states, moves[..i], i) + if Added(states[i], moves[i]) then 1 else 0
    ensures HandledIn(ds, states + [t], moves[..i + 1], i + 1)
         == HandledIn(ds, states, moves[..i], i) + if Ran(ds, states[i], moves[i]) then 1 else 0
  {
    hide Moved, Added, Ran, AllSound;
    SameCounts(ds, states, states + [t], moves[..i], moves[..i + 1], i);
  }

  lemma {:induction false} SameCounts(ds: seq<Data>, ss: seq<Table>, ts: seq<Table>, ms: seq<Move>, ns: seq<Move>,
                                      n: nat)
    requires n <= |ms| < |ss| && n <= |ns| < |ts|
    requires forall i :: 0 <= i < n ==> ss[i] == ts[i] && ms[i] == ns[i]
    ensures AddedIn(ss, ms, n) == AddedIn(ts, ns, n) && HandledIn(ds, ss, ms, n) == HandledIn(ds, ts, ns, n)
  {
    hide Added, Ran;
    if n > 0 {
      SameCounts(ds, ss, ts, ms, ns, n - 1);
    }
  }

  method Step(table: TargetTable, apps: DataList, move: Move)
    returns (connected: nat, handled: nat, ghost readings: seq<Reading>)
    requires table.Valid() && apps.Valid()
    modifies table`cnt, table.use, table.target
    ensures table.Valid() && apps.Valid() && apps.View() == old(apps.View())
    ensures Moved(apps.View(), old(table.State()), move, table.State())
    ensures connected == (if Added(old(table.State()), move) then 1 else 0)
    ensures handled == if Ran(apps.View(), old(table.State()), move) then 1 else 0
    ensures table.cnt == old(table.cnt) + connected - handled && handled <= |readings| <= 1
    ensures readings != [] <==> move.Event? && Happens(old(table.State()), move)
    ensures readings != [] ==>
      var t := table.target[move.slot];
      readings[0] == ReadingOf(old(t.counter), old(t.log)) && readings[0].Right()
  {
    hide Target.Ok, TargetTable.Slots, CountOf, Phases, Shots, Reading.Right, DataList.Valid, DataList.View, Views,
      Heard, Handled, Emptied, Stops, PidOk, AllJoined, FirstFree, Newcomer;
    connected, handled, readings := 0, 0, [];
    table.Differ();
    match move
    case Connecting(accepted, eventOk, handlerOk, created) =>
      var ret, slot := table.Connect(accepted, eventOk, handlerOk, created);
      connected := if ret == 0 then 1 else 0;
    case Receiving(k, msg) =>
      if k < |table.target| && table.target[k].recv == Running {
        table.ReceiveSlot(table.target[k], k, msg);
      }
    case Event(k, isApp, replaying, appType) =>
      if k < |table.target| && table.target[k].watched {
        var u, err, ran := table.EventCb(table.target[k], k, apps, isApp, replaying, appType);
        handled := if ran then 1 else 0;
        readings := [ReadingOf(u, old(table.target[k].log))];
      }
    case WaitForAll =>
      table.WaitAll();
  }

  function UsedCount(used: seq<bool>): nat {
    if used == [] then 0 else UsedCount(used[..|used| - 1]) + if used[|used| - 1] then 1 else 0
  }

  lemma {:induction false} UsedSplits(used: seq<bool>, ps: seq<Phase>)
    requires |used| == |ps| && forall i :: 0 <= i < |ps| ==> (used[i] <==> ps[i] != Free)
    ensures UsedCount(used) == CountOf(ps, Live) + CountOf(ps, Kept)
  {
    if ps != [] {
      UsedSplits(used[..|ps| - 1], ps[..|ps| - 1]);
    }
  }
}