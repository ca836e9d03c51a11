// The profiling session: configuration, sampling, replay and transfer threads, input handlers and the
// running flag (daemon/da_protocol.c, daemon/daemon.c, daemon/threads.c, daemon/transfer_thread.c,
// daemon/input_events.c, daemon/da_protocol_check.c). Whatever an external call returns is a parameter.

module Session {
  import opened Words

  // ------------------------------------------------------------ configuration

  const FL_RESERVED: bv64 := 0x3 | 0xFF0_0000 | 0xC_0000_0000 | 0xE000_0000_0000
  const FL_ALL_FEATURES: bv64 := 0x3FFF_FFFF_FFFF & !FL_RESERVED
  const FL_RECORDING: bv64 := 0x200

  /** struct conf_t. */
  datatype Conf = Conf(features0: bv64, features1: bv64, tracePeriod: uint32, dataPeriod: uint32)

  predicate CheckFeatures(features0: bv64, features1: bv64) {
    features0 & !FL_ALL_FEATURES == 0 && features1 & !(0 as bv64) == 0
  }

  /** check_conf. */
  predicate CheckConf(c: Conf) {
    && CheckFeatures(c.features0, c.features1)
    && 100 <= c.tracePeriod <= 1000
    && 1 <= c.dataPeriod <= 100
  }

  predicate Recording(c: Conf) {
    c.features0 & FL_RECORDING != 0
  }

  /** A checked configuration asks for features that exist, and for a trace every 0.1 to 1 seconds. */
  lemma CheckedConf(c: Conf)
    ensures CheckConf(c) <==>
      && c.features0 & 0xffff_e00c_0ff0_0003 == 0 && c.features1 == 0
      && 100 <= c.tracePeriod <= 1000 && 1 <= c.dataPeriod <= 100
  {
  }

  // ------------------------------------------------------------- input events

  datatype Status = Stopped | Running

  /** What became of asking the main loop to watch a device. */
  datatype Handler = Absent | Refused | Registered

  /** The key and touch devices, by their file descriptors, and their handlers. */
  datatype Input = Input(status: Status, keyDev: seq<int>, touchDev: seq<int>, keys: seq<Handler>,
                         touches: seq<Handler>)

  /** No handler is registered. */
  predicate Silent(i: Input) {
    && i.status == Stopped
    && (forall h :: h in i.keys ==> h == Absent) && (forall h :: h in i.touches ==> h == Absent)
  }

  /** Every device that has a file, and no other, was asked for; accepted are those the main loop took. */
  predicate Asked(dev: seq<int>, accepted: set<int>, handlers: seq<Handler>) {
    && |handlers| == |dev|
    && forall i :: 0 <= i < |dev| ==>
         handlers[i] == if dev[i] <= 0 then Absent else if dev[i] in accepted then Registered else Refused
  }

  predicate SameDevices(i: Input, j: Input) {
    j.keyDev == i.keyDev && j.touchDev == i.touchDev && |j.keys| == |i.keys| && |j.touches| == |i.touches|
  }

  /** Events are listened to: as before, or, if they were not, from the devices the main loop takes. */
  predicate Listens(i: Input, accepted: set<int>, j: Input) {
    && j.status == Running && SameDevices(i, j) && (i.status == Running ==> j == i)
    && (i.status == Stopped ==> Asked(i.keyDev, accepted, j.keys) && Asked(i.touchDev, accepted, j.touches))
  }

  predicate FallsSilent(i: Input, j: Input) {
    SameDevices(i, j) && Silent(j)
  }

  /** The event handlers of the key and touch devices; a device without a file has none. */
  class InputEvents {
    var status: Status
    const keyDev: seq<int>
    const touchDev: seq<int>
    const keyHandlers: array<Handler>
    const touchHandlers: array<Handler>

    ghost predicate Valid()
      reads this, keyHandlers, touchHandlers
    {
      && keyHandlers.Length == |keyDev| && touchHandlers.Length == |touchDev| && keyHandlers != touchHandlers
      && (forall i :: 0 <= i < |keyDev| && keyDev[i] <= 0 ==> keyHandlers[i] == Absent)
      && (forall i :: 0 <= i < |touchDev| && touchDev[i] <= 0 ==> touchHandlers[i] == Absent)
      && (status == Stopped ==> Silent(Now()))
    }

    ghost function Now(): Input
      reads this, keyHandlers, touchHandlers
    {
      Input(status, keyDev, touchDev, keyHandlers[..], touchHandlers[..])
    }

    constructor (keyDev: seq<int>, touchDev: seq<int>)
      ensures Valid() && Silent(Now()) && this.keyDev == keyDev && this.touchDev == touchDev
      ensures fresh(keyHandlers) && fresh(touchHandlers)
    {
      this.keyDev, this.touchDev, status := keyDev, touchDev, Stopped;
      keyHandlers := new Handler[|keyDev|](i => Absent);
      touchHandlers := new Handler[|touchDev|](i => Absent);
    }

    /** ecore_main_fd_handler_add for every device with a file. */
    method Register(dev: seq<int>, handlers: array<Handler>, accepted: set<int>)
      requires handlers.Length == |dev|
      requires forall i :: 0 <= i < |dev| && dev[i] <= 0 ==> handlers[i] == Absent
      modifies handlers
      ensures Asked(dev, accepted, handlers[..])
    {
      for i := 0 to |dev|
        invariant forall k :: 0 <= k < |dev| && dev[k] <= 0 ==> handlers[k] == Absent
        invariant forall k :: 0 <= k < i && dev[k] > 0 ==>
          handlers[k] == if dev[k] in accepted then Registered else Refused
      {
        if dev[i] > 0 {
          handlers[i] := if dev[i] in accepted then Registered else Refused;
        }
      }
    }

    method Unregister(dev: seq<int>, handlers: array<Handler>)
      requires handlers.Length == |dev|
      requires forall i :: 0 <= i < |dev| && dev[i] <= 0 ==> handlers[i] == Absent
      modifies handlers
      ensures forall i :: 0 <= i < |dev| ==> handlers[i] == Absent
    {
      for i := 0 to |dev|
        invariant forall k :: 0 <= k < |dev| && (k < i || dev[k] <= 0) ==> handlers[k] == Absent
      {
        if dev[i] > 0 {
          handlers[i] := Absent;
        }
      }
    }

    lemma StoppedIsSilent()
      requires Valid()
      ensures status == Stopped ==> Silent(Now())
    {
    }

    method Add(accepted: set<int>)
      requires Valid()
      modifies `status, keyHandlers, touchHandlers
      ensures Valid() && Listens(old(Now()), accepted, Now())
    {
      if status == Running {
        return;
      }
      Register(keyDev, keyHandlers, accepted);
      Register(touchDev, touchHandlers, accepted);
      status := Running;
    }

    method Del()
      requires Valid()
      modifies `status, keyHandlers, touchHandlers
      ensures Valid() && FallsSilent(old(Now()), Now())
    {
      if status == Stopped {
        return;
      }
      Unregister(keyDev, keyHandlers);
      Unregister(touchDev, touchHandlers);
      status := Stopped;
    }
  }

  // ------------------------------------------------------------------ session

  datatype ErrorCode = ErrNo | ErrUnknown | ErrCannotStart | ErrAlreadyRunning | ErrWrongFormat

  const NO_THREAD: int := -1

  /** The interval timer that wakes the sampling thread. */
  datatype Timer = Off | Every(sec: nat, usec: nat) {
    function Micros(): nat {
      match this case Off => 0 case Every(sec, usec) => sec * 1000000 + usec
    }
  }

  /** What samplingStart asks for; the product is taken in 32 bits. */
  function SampleTimer(period: uint32): Timer {
    var millis: int := period;
    Every(millis / 1000, U32(millis * 1000) % 1000000)
  }

  /** A checked period, in milliseconds, is the period that is set. */
  lemma CheckedPeriod(period: uint32)
    requires 100 <= period <= 1000
    ensures SampleTimer(period).Micros() == 1000 * (period as int)
  {
    var millis: int := period;
    U32Small(millis * 1000);
    assert millis * 1000 == millis / 1000 * 1000000 + millis * 1000 % 1000000;
  }

  /** What became of pthread_create; when it fails the handle is unspecified. */
  datatype Created = Made(handle: Handle) | NotMade(garbage: int)

  type Handle = h: int | h != NO_THREAD witness 0

  /** The handle kept for a thread, and whether a thread is there. */
  datatype Thread = Thread(handle: int, live: bool)

  const NONE := Thread(NO_THREAD, false)

  predicate Comes(c: Created, t: Thread) {
    && (c.Made? ==> t == Thread(c.handle, true))
    && (c.NotMade? ==> t == Thread(c.garbage, false))
  }

  /** What the calls of stop_all_no_lock return: whether the driver is told, and whether reads of the trace
      buffer stop blocking. */
  datatype StopCalls = StopCalls(told: bool, unblocked: bool)

  /** The same for start_transfer, which stops an older transfer first. */
  datatype TransferCalls = TransferCalls(unblocked: bool, blocks: bool, thread: Created)

  datatype Parsing = Parsed | Malformed | NoReply

  /** The same for a start message: whether it is parsed, the old processes are killed, the driver is told, the
      apps are launched, and what becomes of threads and handlers. */
  datatype StartCalls = StartCalls(parsing: Parsing, killed: bool, transfer: TransferCalls, told: bool,
                                   sampling: Created, accepted: set<int>, launched: bool, stop: StopCalls)

  /** The same for a configuration: handlers, the sampling thread, and whether the driver is told. */
  datatype ConfigCalls = ConfigCalls(accepted: set<int>, sampling: Created, told: bool)

  /** The state of the daemon. */
  datatype State = State(conf: Conf, running: bool, apps: seq<int>, sampling: Thread, replay: Thread,
                         transfer: Thread, dataSocket: int, blocking: bool, timer: Timer, input: Input)

  /** Holds between any two messages, whatever external calls did. */
  predicate Sane(s: State) {
    && (s.running ==> CheckConf(s.conf)) && (!s.running ==> s.sampling == NONE)
    && (s.sampling.live ==> s.sampling.handle != NO_THREAD && s.timer.Micros() == 1000 * (s.conf.tracePeriod as int))
    && (s.replay.live ==> s.replay.handle != NO_THREAD)
    && (s.transfer.live ==> s.transfer.handle != NO_THREAD && s.blocking)
    && (s.input.status == Running ==> Recording(s.conf)) && (s.input.status == Stopped ==> Silent(s.input))
  }

  /** No thread and no handler of a session is left. */
  predicate Quiet(s: State) {
    s.sampling == NONE && s.replay == NONE && s.transfer == NONE && Silent(s.input)
  }

  // ------------------------------------------------------ what the parts do

  predicate SamplingStops(s: State, t: State) {
    t == s.(sampling := NONE, timer := if s.sampling.handle == NO_THREAD then s.timer else Off)
  }

  /** The transfer is started anew if there is a socket to transfer to. */
  predicate TransferIs(s: State, calls: TransferCalls, t: State) {
    && (s.dataSocket == -1 ==> t.transfer == s.transfer && t.blocking == s.blocking)
    && (s.dataSocket != -1 && calls.blocks ==> Comes(calls.thread, t.transfer) && t.blocking)
    && (s.dataSocket != -1 && !calls.blocks ==>
          t.transfer.handle == NO_THREAD && !t.transfer.live
          && t.blocking == (s.blocking && (s.transfer.handle == NO_THREAD || !calls.unblocked)))
  }

  /** With a refused ioctl the session goes on, without samples, replay and input events; without one nothing of
      it is left. A session that does not run is left as it is. */
  predicate Stops(s: State, calls: StopCalls, err: ErrorCode, t: State) {
    if !s.running then err == ErrNo && t == s
    else
      && t == s.(running := !calls.told, apps := if calls.told then [] else s.apps, sampling := NONE, replay := NONE,
                 transfer := t.transfer, blocking := t.blocking, input := t.input,
                 timer := if s.sampling.handle == NO_THREAD then s.timer else Off)
      && err == (if calls.told then ErrNo else ErrUnknown) && FallsSilent(s.input, t.input)
      && (calls.told ==> t.transfer == NONE
                         && t.blocking == (s.blocking && (s.transfer.handle == NO_THREAD || !calls.unblocked)))
      && (!calls.told ==> t.transfer == s.transfer && t.blocking == s.blocking)
  }

  /** A start message is looked at. */
  predicate Taken(s: State) {
    !s.running && CheckConf(s.conf)
  }

  /** It is parsed, names apps or finds some, and their processes could be killed. */
  predicate Prepared(s: State, parsed: seq<int>, calls: StartCalls) {
    Taken(s) && calls.parsing.Parsed? && parsed + s.apps != [] && calls.killed
  }

  /** The driver is told. */
  predicate Tells(s: State, parsed: seq<int>, calls: StartCalls) {
    Prepared(s, parsed, calls) && (s.dataSocket == -1 || calls.transfer.blocks)
  }

  /** The session is made to run; it may have to be stopped again at once. */
  predicate SetsOff(s: State, parsed: seq<int>, calls: StartCalls) {
    Tells(s, parsed, calls) && calls.told
  }

  /** The answer to it. */
  predicate StartAnswer(s: State, parsed: seq<int>, calls: StartCalls, err: ErrorCode) {
    && (err == ErrNo <==> SetsOff(s, parsed, calls) && calls.launched)
    && (err == ErrAlreadyRunning <==> s.running)
    && (err == ErrWrongFormat <==> Taken(s) && calls.parsing.Malformed?)
    && err != ErrUnknown
  }

  /** Sampling is on with the period of the configuration. */
  predicate SamplingIs(c: Created, t: State) {
    Comes(c, t.sampling) && t.timer.Micros() == 1000 * (t.conf.tracePeriod as int)
  }

  /** A session is made to run, and stopped again if its apps cannot be launched; then it goes on running if the
      driver cannot be told of that. */
  predicate Launches(s: State, calls: StartCalls, t: State) {
    && t.conf == s.conf && t.dataSocket == s.dataSocket && SameDevices(s.input, t.input)
    && t.running == (calls.launched || !calls.stop.told)
    && t.apps == (if t.running then s.apps else [])
    && (t.running ==> t.transfer == s.transfer && t.blocking == s.blocking)
    && (calls.launched ==>
          && SamplingIs(calls.sampling, t) && t.replay == s.replay
          && if Recording(s.conf) then Listens(s.input, calls.accepted, t.input) else t.input == s.input)
    && (!calls.launched ==>
          && t.sampling == NONE && t.replay == NONE && Silent(t.input)
          && (calls.sampling.Made? ==> t.timer == Off) && (calls.stop.told ==> t.transfer == NONE))
  }

  /** What a start message leaves. */
  ghost predicate Starts(s: State, parsed: seq<int>, calls: StartCalls, t: State) {
    && (!Taken(s) ==> t == s)
    && (Taken(s) && !Prepared(s, parsed, calls) ==> t == s.(apps := parsed + s.apps))
    && (Prepared(s, parsed, calls) && !SetsOff(s, parsed, calls) ==>
          t == s.(apps := parsed + s.apps, transfer := t.transfer, blocking := t.blocking)
          && TransferIs(s, calls.transfer, t))
    && (SetsOff(s, parsed, calls) ==>
          exists u: State :: u == s.(apps := parsed + s.apps, transfer := u.transfer, blocking := u.blocking)
                   && TransferIs(s, calls.transfer, u) && Launches(u, calls, t))
  }

  /** What a configuration leaves. */
  predicate Configures(s: State, wanted: Conf, calls: ConfigCalls, t: State) {
    && (!CheckConf(wanted) ==> t == s)
    && (CheckConf(wanted) ==>
          && t == s.(conf := wanted, sampling := t.sampling, timer := t.timer, input := t.input)
          && (s.running ==> SamplingIs(calls.sampling, t))
          && (!s.running ==> t.sampling == NONE && t.timer == s.timer)
          && if !Recording(wanted) then FallsSilent(s.input, t.input)
             else if Recording(s.conf) then t.input == s.input else Listens(s.input, calls.accepted, t.input))
  }

  // ------------------------------------------------------------- the daemon

  class Manager {
    // prof_session
    var conf: Conf
    var running: bool
    var apps: seq<int>
    // manager; whether a thread is there is what the system knows
    var sampling: Thread
    var replay: Thread
    var transfer: Thread
    var dataSocket: int
    /** Whether reads of the trace buffer block. */
    var blocking: bool
    /** The interval timer of the process. */
    var timer: Timer
    const input: InputEvents

    ghost function Now(): State
      reads this, input, input.keyHandlers, input.touchHandlers
    {
      State(conf, running, apps, sampling, replay, transfer, dataSocket, blocking, timer, input.Now())
    }

    ghost predicate Valid()
      reads this, input, input.keyHandlers, input.touchHandlers
    {
      input.Valid() && Sane(Now())
    }

    constructor (keyDev: seq<int>, touchDev: seq<int>)
      ensures Valid() && Quiet(Now()) && !running && apps == []
      ensures fresh(input) && fresh(input.keyHandlers) && fresh(input.touchHandlers)
    {
      conf, blocking := Conf(0, 0, 0, 0), false;
      running, apps := false, [];
      sampling, replay, transfer, dataSocket, timer := NONE, NONE, NONE, -1, Off;
      input := new InputEvents(keyDev, touchDev);
    }

    /** pthread_create: its callers take only a negative result for a failure, and there is none. */
    method CreateThread(c: Created) returns (t: Thread)
      ensures Comes(c, t)
    {
      match c
      case Made(handle) => t := Thread(handle, true);
      case NotMade(garbage) => t := Thread(garbage, false);
    }

    method SamplingStart(c: Created) returns (ret: int)
      requires 100 <= conf.tracePeriod <= 1000 || !running
      modifies `sampling, `timer
      ensures ret == if old(sampling.handle) == NO_THREAD && running then 0 else 1
      ensures ret == 0 ==> SamplingIs(c, Now())
      ensures ret == 1 ==> sampling == old(sampling) && timer == old(timer)
    {
      if sampling.handle != NO_THREAD {
        return 1;
      }
      if !running {
        return 1;
      }
      sampling := CreateThread(c);
      CheckedPeriod(conf.tracePeriod);
      timer := SampleTimer(conf.tracePeriod);
      ret := 0;
    }

    /** The thread is signalled and joined. */
    method SamplingStop()
      requires sampling.live ==> sampling.handle != NO_THREAD
      modifies `sampling, `timer
      ensures SamplingStops(old(Now()), Now())
    {
      if sampling.handle != NO_THREAD {
        timer := Off;
        sampling := NONE;
      }
    }

    method StartReplay(c: Created) returns (ret: int)
      modifies `replay
      ensures ret == if old(replay.handle) == NO_THREAD then 0 else 1
      ensures ret == 0 ==> Comes(c, replay)
      ensures ret != 0 ==> replay == old(replay)
    {
      if replay.handle != NO_THREAD {
        return 1;
      }
      replay := CreateThread(c);
      ret := 0;
    }

    /** The thread is cancelled and joined. */
    method StopReplay()
      requires replay.live ==> replay.handle != NO_THREAD
      modifies `replay
      ensures replay == NONE
    {
      if replay.handle != NO_THREAD {
        replay := NONE;
      }
    }

    /** The replay thread comes to its end by itself. */
    method ExitReplayThread()
      modifies `replay
      ensures replay == NONE
    {
      replay := NONE;
    }

    method StartTransfer(calls: TransferCalls) returns (ret: int)
      requires transfer.live ==> transfer.handle != NO_THREAD
      modifies `transfer, `blocking
      ensures ret == if dataSocket == -1 || calls.blocks then 0 else -1
      ensures TransferIs(old(Now()), calls, Now())
    {
      if dataSocket == -1 {
        return 0;
      }
      if transfer.handle != NO_THREAD {
        StopTransfer(calls.unblocked);
      }
      if !calls.blocks {
        return -1;
      }
      blocking := true;
      transfer := CreateThread(calls.thread);
      ret := 0;
    }

    /** The thread is woken up and joined. */
    method StopTransfer(unblocked: bool)
      requires transfer.live ==> transfer.handle != NO_THREAD
      modifies `transfer, `blocking
      ensures transfer == NONE
      ensures blocking == (old(blocking) && (old(transfer.handle) == NO_THREAD || !unblocked))
    {
      if transfer.handle != NO_THREAD {
        if unblocked {
          blocking := false;
        }
        transfer := NONE;
      }
    }

    /** Handlers are removed only when the configuration says recording. */
    method StopProfiling()
      requires Valid()
      modifies `sampling, `timer, input`status, input.keyHandlers, input.touchHandlers
      ensures input.Valid() && FallsSilent(old(input.Now()), input.Now())
      ensures SamplingStops(old(Now()).(input := input.Now()), Now())
    {
      if Recording(conf) {
        input.Del();
      }
      SamplingStop();
    }

    /** start_profiling, in a session that has just been made to run. */
    method StartProfiling(calls: StartCalls) returns (res: int)
      requires input.Valid() && running && CheckConf(conf) && sampling == NONE
      requires input.status == Running ==> Recording(conf)
      modifies `sampling, `timer, input`status, input.keyHandlers, input.touchHandlers
      ensures input.Valid() && res == if apps != [] && calls.launched then 0 else -1
      ensures apps == [] ==> Now() == old(Now())
      ensures res == 0 ==> SamplingIs(calls.sampling, Now())
      ensures res == 0 ==>
        if Recording(conf) then Listens(old(input.Now()), calls.accepted, input.Now())
        else input.Now() == old(input.Now())
      ensures res == -1 && apps != [] ==> sampling == NONE && FallsSilent(old(input.Now()), input.Now())
      ensures res == -1 && apps != [] && calls.sampling.Made? ==> timer == Off
    {
      hide InputEvents.Valid, CheckFeatures, Recording, Asked;
      if apps == [] {
        return -1;
      }
      input.StoppedIsSilent();
      var ret := SamplingStart(calls.sampling);
      if Recording(conf) {
        input.Add(calls.accepted);
      }
      if !calls.launched {
        if Recording(conf) {
          input.Del();
        }
        SamplingStop();
        return -1;
      }
      res := 0;
    }

    /** What changes about recording between the stored and the new configuration. */
    method ReconfigureRecording(wanted: Conf, accepted: set<int>)
      requires Valid()
      modifies `conf, input`status, input.keyHandlers, input.touchHandlers
      ensures input.Valid() && Recording(conf) == Recording(wanted)
      ensures conf == old(conf).(features0 := conf.features0)
      ensures !Recording(wanted) ==> FallsSilent(old(input.Now()), input.Now())
      ensures Recording(wanted) && !old(Recording(conf)) ==> Listens(old(input.Now()), accepted, input.Now())
      ensures Recording(wanted) && old(Recording(conf)) ==> input.Now() == old(input.Now())
    {
      hide InputEvents.Valid, Asked;
      var oldFeatures, newFeatures := conf.features0, wanted.features0;
      var toEnable := (newFeatures ^ oldFeatures) & newFeatures;
      var toDisable := (newFeatures ^ oldFeatures) & oldFeatures;
      RecordingChanges(oldFeatures, newFeatures);
      if toDisable & FL_RECORDING != 0 {
        input.Del();
        conf := conf.(features0 := conf.features0 & !FL_RECORDING);
      }
      if toEnable & FL_RECORDING != 0 {
        input.Add(accepted);
        conf := conf.(features0 := conf.features0 | FL_RECORDING);
      }
    }

    /** reconfigure, with a configuration the parser has checked. */
    method Reconfigure(wanted: Conf, calls: ConfigCalls) returns (ret: int)
      requires Valid() && CheckConf(wanted)
      modifies `conf, `sampling, `timer, input`status, input.keyHandlers, input.touchHandlers
      ensures Valid() && ret == 0 && Configures(old(Now()), wanted, calls, Now())
    {
      hide InputEvents.Valid, Asked, Recording;
      ReconfigureRecording(wanted, calls.accepted);
      SamplingStop();
      conf := wanted;
      var started := SamplingStart(calls.sampling);
      ret := 0;
    }

    /** parse_conf refuses a configuration that does not pass the checks; whether the driver is told of it makes no
        difference to what is stored. */
    method ProcessMsgConfig(wanted: Conf, calls: ConfigCalls) returns (err: ErrorCode)
      requires Valid()
      modifies `conf, `sampling, `timer, input`status, input.keyHandlers, input.touchHandlers
      ensures Valid() && Configures(old(Now()), wanted, calls, Now())
      ensures err == if !CheckConf(wanted) then ErrWrongFormat else if calls.told then ErrNo else ErrUnknown
    {
      hide InputEvents.Valid, Asked, Recording, CheckConf;
      if !CheckConf(wanted) {
        return ErrWrongFormat;
      }
      var ret := Reconfigure(wanted, calls);
      err := if calls.told then ErrNo else ErrUnknown;
    }

    /** stop_all_no_lock. */
    method StopAllNoLock(calls: StopCalls) returns (err: ErrorCode)
      requires Valid()
      modifies `running, `apps, `sampling, `timer, `replay, `transfer, `blocking
      modifies input`status, input.keyHandlers, input.touchHandlers
      ensures Valid() && Stops(old(Now()), calls, err, Now())
    {
      hide InputEvents.Valid, Asked, Recording, CheckConf;
      err := ErrNo;
      if running {
        StopProfiling();
        StopReplay();
        if !calls.told {
          return ErrUnknown;
        }
        apps := [];
        StopTransfer(calls.unblocked);
        running := false;
      }
    }

    /** After a stop that succeeded a second one changes nothing. */
    method StopTwice(calls: StopCalls, calls': StopCalls) returns (first: ErrorCode, second: ErrorCode)
      requires Valid()
      modifies `running, `apps, `sampling, `timer, `replay, `transfer, `blocking
      modifies input`status, input.keyHandlers, input.touchHandlers
      ensures Valid() && (first == ErrNo ==> second == ErrNo && Stops(old(Now()), calls, first, Now()))
    {
      hide InputEvents.Valid, Asked, Recording, CheckConf;
      first := StopAllNoLock(calls);
      second := StopAllNoLock(calls');
    }

    /** process_msg_start. Parsing appends to the apps that are there, even if it fails in the end. */
    method ProcessMsgStart(parsed: seq<int>, calls: StartCalls) returns (err: ErrorCode)
      requires Valid()
      modifies `running, `apps, `sampling, `timer, `replay, `transfer, `blocking
      modifies input`status, input.keyHandlers, input.touchHandlers
      ensures Valid() && StartAnswer(old(Now()), parsed, calls, err) && Starts(old(Now()), parsed, calls, Now())
    {
      hide InputEvents.Valid, InputEvents.Now, Silent, Asked, Recording, CheckConf, Launches;
      err := ErrCannotStart;
      if running {
        return ErrAlreadyRunning;
      }
      if !CheckConf(conf) {
        return;
      }
      apps := parsed + apps;
      if calls.parsing != Parsed {
        return if calls.parsing == Malformed then ErrWrongFormat else ErrCannotStart;
      }
      if apps == [] || !calls.killed {
        return;
      }
      var ret := StartTransfer(calls.transfer);
      if ret != 0 {
        return;
      }
      if !calls.told {
        return;
      }
      err := Launch(calls);
    }

    /** The part of it behind the message to the driver. */
    method Launch(calls: StartCalls) returns (err: ErrorCode)
      requires Valid() && Taken(Now()) && apps != []
      modifies `running, `apps, `sampling, `timer, `replay, `transfer, `blocking
      modifies input`status, input.keyHandlers, input.touchHandlers
      ensures Valid() && err == if calls.launched then ErrNo else ErrCannotStart
      ensures Launches(old(Now()), calls, Now())
    {
      hide InputEvents.Valid, Asked, Recording, CheckFeatures;
      running := true;
      err := ErrNo;
      var ret := StartProfiling(calls);
      if ret < 0 {
        var stopped := StopAllNoLock(calls.stop);
        err := ErrCannotStart;
      }
    }
  }

  // ------------------------------------------------------------------- runs

  /** What can happen to the session; found tells whether the process of a PID event runs an app. */
  datatype Move =
    | StartMsg(parsed: seq<int>, start: StartCalls)
    | StopMsg(stop: StopCalls)
    | ConfigMsg(conf: Conf, config: ConfigCalls)
    | PidEvent(found: bool, thread: Created)
    | ReplayEnds
    | DataSocket(fd: int)

  predicate StartsReplay(s: State, move: Move) {
    move.PidEvent? && s.apps != [] && move.found && s.replay.handle == NO_THREAD
  }

  /** What a move does, and how a message fares; the host is told of that except for a stop, which is acknowledged
      beforehand. */
  ghost predicate Moved(s: State, move: Move, err: ErrorCode, t: State) {
    match move
    case StartMsg(parsed, calls) => StartAnswer(s, parsed, calls, err) && Starts(s, parsed, calls, t)
    case StopMsg(calls) => Stops(s, calls, err, t)
    case ConfigMsg(conf, calls) =>
      && Configures(s, conf, calls, t)
      && err == if !CheckConf(conf) then ErrWrongFormat else if calls.told then ErrNo else ErrUnknown
    case PidEvent(found, thread) =>
      && err == ErrNo && t == s.(replay := t.replay)
      && if StartsReplay(s, move) then Comes(thread, t.replay) else t == s
    case ReplayEnds => err == ErrNo && t == if s.replay.live then s.(replay := NONE) else s
    case DataSocket(fd) => err == ErrNo && t == s.(dataSocket := fd)
  }

  /** The states before and after every move, and the answers. */
  ghost predicate Trace(states: seq<State>, moves: seq<Move>, errs: seq<ErrorCode>) {
    && |states| == |moves| + 1 && |errs| == |moves| && (forall i :: 0 <= i < |states| ==> Sane(states[i]))
    && forall i {:trigger moves[i]} :: 0 <= i < |moves| ==> Moved(states[i], moves[i], errs[i], states[i + 1])
  }

  /** Any sequence of messages and events, with external calls failing anywhere. */
  method Run(m: Manager, moves: seq<Move>) returns (errs: seq<ErrorCode>, ghost states: seq<State>)
    requires m.Valid()
    modifies m, m.input, m.input.keyHandlers, m.input.touchHandlers
    ensures m.Valid() && Trace(states, moves, errs)
    ensures states[0] == old(m.Now()) && states[|moves|] == m.Now()
  {
    hide InputEvents.Valid, Sane, Moved;
    errs, states := [], [m.Now()];
    for i := 0 to |moves|
      invariant m.Valid() && |states| == i + 1 && states[0] == old(m.Now()) && states[i] == m.Now()
      invariant Trace(states, moves[..i], errs)
    {
      var err := Step(m, moves[i]);
      TraceNext(states, moves, errs, i, err, m.Now());
      errs, states := errs + [err], states + [m.Now()];
    }
    assert moves[..|moves|] == moves;
  }

  lemma TraceNext(states: seq<State>, moves: seq<Move>, errs: seq<ErrorCode>, i: nat, err: ErrorCode, t: State)
    requires i < |moves| && Trace(states, moves[..i], errs) && Moved(states[i], moves[i], err, t) && Sane(t)
    ensures Trace(states + [t], moves[..i + 1], errs + [err])
  {
    hide Moved, Sane;
  }

  method Step(m: Manager, move: Move) returns (err: ErrorCode)
    requires m.Valid()
    modifies m, m.input, m.input.keyHandlers, m.input.touchHandlers
    ensures m.Valid() && Moved(old(m.Now()), move, err, m.Now())
  {
    hide InputEvents.Valid, Silent, Asked, Recording, CheckConf, Starts, StartAnswer, Stops, Configures;
    err := ErrNo;
    match move
    case StartMsg(parsed, calls) =>
      err := m.ProcessMsgStart(parsed, calls);
    case StopMsg(calls) =>
      err := m.StopAllNoLock(calls);
    case ConfigMsg(conf, calls) =>
      err := m.ProcessMsgConfig(conf, calls);
    case PidEvent(found, thread) =>
      if m.apps != [] && found {
        var ret := m.StartReplay(thread);
      }
    case ReplayEnds =>
      if m.replay.live {
        m.ExitReplayThread();
      }
    case DataSocket(fd) =>
      m.dataSocket := fd;
  }

  // ----------------------------------------------------- what follows for runs

  lemma TraceAt(states: seq<State>, moves: seq<Move>, errs: seq<ErrorCode>, i: nat)
    requires Trace(states, moves, errs) && i < |moves|
    ensures Sane(states[i]) && Sane(states[i + 1]) && Moved(states[i], moves[i], errs[i], states[i + 1])
  {
    hide Moved, Sane;
  }

  /** A start message succeeds exactly then, and then this is what runs. */
  lemma StartSucceeds(s: State, parsed: seq<int>, calls: StartCalls, err: ErrorCode, t: State)
    requires Sane(s) && Moved(s, StartMsg(parsed, calls), err, t)
    ensures err == ErrNo <==>
      && !s.running && CheckConf(s.conf) && calls.parsing.Parsed? && parsed + s.apps != [] && calls.killed
      && (s.dataSocket == -1 || calls.transfer.blocks) && calls.told && calls.launched
    ensures err == ErrNo ==>
      && t.running && t.conf == s.conf && t.apps == parsed + s.apps && t.replay == s.replay
      && Comes(calls.sampling, t.sampling) && t.timer.Micros() == 1000 * (s.conf.tracePeriod as int)
      && (s.dataSocket != -1 ==> Comes(calls.transfer.thread, t.transfer) && t.blocking)
      && (s.dataSocket == -1 ==> t.transfer == s.transfer && t.blocking == s.blocking)
      && (Recording(s.conf) ==> Listens(s.input, calls.accepted, t.input))
      && (!Recording(s.conf) ==> Silent(t.input))
    ensures err != ErrNo ==>
      (t.running <==> s.running || (SetsOff(s, parsed, calls) && !calls.launched && !calls.stop.told))
  {
    hide Listens, Recording, Comes, CheckConf;
  }

  /** A stop of a running session leaves nothing of it if the driver can be told; else it goes on, with its apps,
      but without samples, replay and input events. */
  lemma StopMeans(s: State, calls: StopCalls, err: ErrorCode, t: State)
    requires Moved(s, StopMsg(calls), err, t)
    ensures s.running && calls.told ==> err == ErrNo && Quiet(t) && !t.running && t.apps == []
    ensures s.running && !calls.told ==>
      && err == ErrUnknown && t.running && t.apps == s.apps && t.transfer == s.transfer
      && t.sampling == NONE && t.replay == NONE && Silent(t.input)
    ensures !s.running ==> err == ErrNo && t == s
    ensures t.conf == s.conf && t.dataSocket == s.dataSocket
  {
    hide Silent;
  }

  /** In all states of a run: a running session has a configuration of known features, and its sampling thread,
      if there is one, is woken every 0.1 to 1 seconds; one that does not run has no sampling thread. The reads
      of a transfer thread block. */
  lemma RunningIsChecked(states: seq<State>, moves: seq<Move>, errs: seq<ErrorCode>, n: nat)
    requires Trace(states, moves, errs) && n <= |moves|
    ensures var s := states[n];
      && (s.running ==> s.conf.features0 & 0xffff_e00c_0ff0_0003 == 0 && s.conf.features1 == 0)
      && (s.sampling.live ==> s.running && 100_000 <= s.timer.Micros() <= 1_000_000)
      && (s.sampling.live ==> s.timer.Micros() == 1000 * (s.conf.tracePeriod as int))
      && (!s.running ==> s.sampling == NONE) && (s.transfer.live ==> s.blocking)
  {
    hide Moved, CheckConf, Silent;
    assert Sane(states[n]);
    CheckedConf(states[n].conf);
  }

  // ------------------------------------------------ configuration, run state

  /** A configuration is taken over unless it is answered as malformed, even if the driver cannot be told. */
  predicate Accepts(move: Move, err: ErrorCode) {
    move.ConfigMsg? && err != ErrWrongFormat
  }

  lemma ConfNext(s: State, move: Move, err: ErrorCode, t: State)
    requires Moved(s, move, err, t)
    ensures t.conf == if Accepts(move, err) then move.conf else s.conf
    ensures move.ConfigMsg? ==> (Accepts(move, err) <==> CheckConf(move.conf))
  {
    hide CheckConf, Silent, Listens, Comes, TransferIs;
  }

  predicate NoneAccepted(moves: seq<Move>, errs: seq<ErrorCode>, i: nat, n: nat)
    requires n <= |moves| == |errs|
  {
    forall j :: i <= j < n ==> !Accepts(moves[j], errs[j])
  }

  /** The configuration is the last one taken over, or the one at the beginning. */
  lemma {:induction false} LastConf(states: seq<State>, moves: seq<Move>, errs: seq<ErrorCode>, n: nat)
    requires Trace(states, moves, errs) && n <= |moves|
    ensures forall i :: 0 <= i < n && Accepts(moves[i], errs[i]) && NoneAccepted(moves, errs, i + 1, n) ==>
      states[n].conf == moves[i].conf
    ensures NoneAccepted(moves, errs, 0, n) ==> states[n].conf == states[0].conf
  {
    hide Moved, Sane, Accepts;
    if n > 0 {
      LastConf(states, moves, errs, n - 1);
      TraceAt(states, moves, errs, n - 1);
      ConfNext(states[n - 1], moves[n - 1], errs[n - 1], states[n]);
    }
  }

  /** The data socket is the last one opened, or closed. */
  lemma {:induction false} LastSocket(states: seq<State>, moves: seq<Move>, errs: seq<ErrorCode>, n: nat)
    requires Trace(states, moves, errs) && n <= |moves|
    ensures forall i :: 0 <= i < n && moves[i].DataSocket? && (forall j :: i < j < n ==> !moves[j].DataSocket?) ==>
      states[n].dataSocket == moves[i].fd
    ensures (forall j :: 0 <= j < n ==> !moves[j].DataSocket?) ==> states[n].dataSocket == states[0].dataSocket
  {
    hide Moved, Sane;
    if n > 0 {
      LastSocket(states, moves, errs, n - 1);
      TraceAt(states, moves, errs, n - 1);
      SocketNext(states[n - 1], moves[n - 1], errs[n - 1], states[n]);
    }
  }

  lemma SocketNext(s: State, move: Move, err: ErrorCode, t: State)
    requires Moved(s, move, err, t)
    ensures t.dataSocket == if move.DataSocket? then move.fd else s.dataSocket
  {
    hide CheckConf, Silent, Listens, Comes, TransferIs, SamplingIs;
  }

  /** A start message that leaves the session running, and a stop that ends it. */
  predicate Begins(s: State, move: Move) {
    move.StartMsg? && SetsOff(s, move.parsed, move.start) && (move.start.launched || !move.start.stop.told)
  }

  predicate Ends(move: Move) {
    move.StopMsg? && move.stop.told
  }

  lemma RunningNext(s: State, move: Move, err: ErrorCode, t: State)
    requires Moved(s, move, err, t)
    ensures t.running <==> Begins(s, move) || (s.running && !Ends(move))
  {
    hide CheckConf, Silent, Listens, Comes, TransferIs, SamplingIs;
  }

  /** The session runs exactly if it did at the beginning or was begun since, and has not been ended since. */
  lemma {:induction false} RunningWhen(states: seq<State>, moves: seq<Move>, errs: seq<ErrorCode>, n: nat)
    requires Trace(states, moves, errs) && n <= |moves|
    ensures states[n].running <==>
      || (exists j :: 0 <= j < n && Begins(states[j], moves[j]) && forall k :: j < k < n ==> !Ends(moves[k]))
      || (states[0].running && forall k :: 0 <= k < n ==> !Ends(moves[k]))
  {
    hide Moved, Sane, Begins, Ends;
    if n > 0 {
      RunningWhen(states, moves, errs, n - 1);
      TraceAt(states, moves, errs, n - 1);
      RunningNext(states[n - 1], moves[n - 1], errs[n - 1], states[n]);
    }
  }

  // ----------------------------------------------------------------- threads

  /** A stop or a failed launch that takes effect, and whether the driver learns of it. */
  predicate StopsAll(s: State, move: Move) {
    || (move.StopMsg? && s.running)
    || (move.StartMsg? && SetsOff(s, move.parsed, move.start) && !move.start.launched)
  }

  predicate StopsTold(s: State, move: Move) {
    StopsAll(s, move) && if move.StopMsg? then move.stop.told else move.start.stop.told
  }

  /** A start message that has come so far stops an older transfer, and brings a new one if reads can block and
      the thread can be made, unless the session is stopped at once. */
  predicate Transfers(s: State, move: Move) {
    move.StartMsg? && Prepared(s, move.parsed, move.start) && s.dataSocket != -1
  }

  predicate TransferCut(s: State, move: Move) {
    Transfers(s, move) || StopsTold(s, move)
  }

  predicate TransferOn(s: State, move: Move) {
    && Transfers(s, move) && !StopsTold(s, move)
    && move.start.transfer.blocks && move.start.transfer.thread.Made?
  }

  lemma TransferNext(s: State, move: Move, err: ErrorCode, t: State)
    requires Moved(s, move, err, t)
    ensures t.transfer.live <==> TransferOn(s, move) || (s.transfer.live && !TransferCut(s, move))
  {
    hide CheckConf, Silent, Listens, SamplingIs;
  }

  /** A transfer thread is there exactly if a start message made one, or there was one, and no start message since
      came as far as that and no stop the driver was told of took place. */
  lemma {:induction false} TransferWhen(states: seq<State>, moves: seq<Move>, errs: seq<ErrorCode>, n: nat)
    requires Trace(states, moves, errs) && n <= |moves|
    ensures states[n].transfer.live <==>
      || (exists j :: 0 <= j < n && TransferOn(states[j], moves[j])
                      && forall k :: j < k < n ==> !TransferCut(states[k], moves[k]))
      || (states[0].transfer.live && forall k :: 0 <= k < n ==> !TransferCut(states[k], moves[k]))
  {
    hide Moved, Sane, TransferOn, TransferCut;
    if n > 0 {
      TransferWhen(states, moves, errs, n - 1);
      TraceAt(states, moves, errs, n - 1);
      TransferNext(states[n - 1], moves[n - 1], errs[n - 1], states[n]);
    }
  }

  /** A PID event of an app while no replay is owned, and what ends a replay. */
  predicate ReplayOn(s: State, move: Move) {
    StartsReplay(s, move) && move.thread.Made?
  }

  predicate ReplayCut(s: State, move: Move) {
    move.ReplayEnds? || StopsAll(s, move)
  }

  lemma ReplayNext(s: State, move: Move, err: ErrorCode, t: State)
    requires Sane(s) && Moved(s, move, err, t)
    ensures t.replay.live <==> ReplayOn(s, move) || (s.replay.live && !ReplayCut(s, move))
    ensures s.replay.handle != NO_THREAD && !s.replay.live && !StopsAll(s, move) ==> t.replay == s.replay
  {
    hide CheckConf, Silent, Listens, TransferIs, SamplingIs;
  }

  lemma {:induction false} ReplayWhen(states: seq<State>, moves: seq<Move>, errs: seq<ErrorCode>, n: nat)
    requires Trace(states, moves, errs) && n <= |moves|
    ensures states[n].replay.live <==>
      || (exists j :: 0 <= j < n && ReplayOn(states[j], moves[j])
                      && forall k :: j < k < n ==> !ReplayCut(states[k], moves[k]))
      || (states[0].replay.live && forall k :: 0 <= k < n ==> !ReplayCut(states[k], moves[k]))
  {
    hide Moved, Sane, ReplayOn, ReplayCut;
    if n > 0 {
      ReplayWhen(states, moves, errs, n - 1);
      TraceAt(states, moves, errs, n - 1);
      ReplayNext(states[n - 1], moves[n - 1], errs[n - 1], states[n]);
    }
  }

  /** A replay thread that could not be made may leave a handle, and then no replay starts until a running session
      is stopped. */
  lemma {:induction false} ReplayBlocked(states: seq<State>, moves: seq<Move>, errs: seq<ErrorCode>, i: nat, n: nat)
    requires Trace(states, moves, errs) && i <= n <= |moves|
    requires states[i].replay.handle != NO_THREAD && !states[i].replay.live
    requires forall k :: i <= k < n ==> !StopsAll(states[k], moves[k])
    ensures states[n].replay == states[i].replay && (n < |moves| ==> !StartsReplay(states[n], moves[n]))
  {
    hide Moved, StopsAll;
    if n > i {
      ReplayBlocked(states, moves, errs, i, n - 1);
      TraceAt(states, moves, errs, n - 1);
      ReplayNext(states[n - 1], moves[n - 1], errs[n - 1], states[n]);
    }
  }

  /** The sampling thread is made anew by a start message and by every configuration while the session runs. */
  predicate Resamples(s: State, move: Move) {
    || (move.StartMsg? && SetsOff(s, move.parsed, move.start))
    || (move.ConfigMsg? && CheckConf(move.conf) && s.running)
  }

  predicate SamplingOn(s: State, move: Move) {
    && Resamples(s, move) && !StopsAll(s, move)
    && if move.StartMsg? then move.start.sampling.Made? else move.config.sampling.Made?
  }

  predicate SamplingCut(s: State, move: Move) {
    Resamples(s, move) || StopsAll(s, move)
  }

  lemma SamplingNext(s: State, move: Move, err: ErrorCode, t: State)
    requires Sane(s) && Moved(s, move, err, t)
    ensures t.sampling.live <==> SamplingOn(s, move) || (s.sampling.live && !SamplingCut(s, move))
  {
    hide CheckConf, Silent, Listens, TransferIs;
  }

  lemma {:induction false} SamplingWhen(states: seq<State>, moves: seq<Move>, errs: seq<ErrorCode>, n: nat)
    requires Trace(states, moves, errs) && n <= |moves|
    ensures states[n].sampling.live <==>
      || (exists j :: 0 <= j < n && SamplingOn(states[j], moves[j])
                      && forall k :: j < k < n ==> !SamplingCut(states[k], moves[k]))
      || (states[0].sampling.live && forall k :: 0 <= k < n ==> !SamplingCut(states[k], moves[k]))
  {
    hide Moved, Sane, SamplingOn, SamplingCut;
    if n > 0 {
      SamplingWhen(states, moves, errs, n - 1);
      TraceAt(states, moves, errs, n - 1);
      SamplingNext(states[n - 1], moves[n - 1], errs[n - 1], states[n]);
    }
  }

  // ------------------------------------------------------- apps and handlers

  /** The apps of the start messages that were looked at, those of the last one first. */
  ghost function SentApps(states: seq<State>, moves: seq<Move>, i: nat, n: nat): seq<int>
    requires i <= n <= |moves| < |states|
  {
    if n == i then []
    else
      var s, move := states[n - 1], moves[n - 1];
      (if move.StartMsg? && Taken(s) then move.parsed else []) + SentApps(states, moves, i, n - 1)
  }

  lemma AppsNext(s: State, move: Move, err: ErrorCode, t: State)
    requires Moved(s, move, err, t)
    ensures t.apps
         == if StopsTold(s, move) then [] else (if move.StartMsg? && Taken(s) then move.parsed else []) + s.apps
  {
    hide CheckConf, Silent, Listens, TransferIs, SamplingIs;
  }

  /** The apps are those sent since the last stop the driver was told of, failed starts among them. */
  lemma {:induction false} AppsSince(states: seq<State>, moves: seq<Move>, errs: seq<ErrorCode>, i: nat, n: nat)
    requires Trace(states, moves, errs) && i <= n <= |moves|
    requires forall k :: i <= k < n ==> !StopsTold(states[k], moves[k])
    ensures states[n].apps == SentApps(states, moves, i, n) + states[i].apps
  {
    hide Moved, Sane, StopsTold, Taken;
    if n > i {
      AppsSince(states, moves, errs, i, n - 1);
      TraceAt(states, moves, errs, n - 1);
      AppsNext(states[n - 1], moves[n - 1], errs[n - 1], states[n]);
    }
  }

  lemma InputNext(s: State, move: Move, err: ErrorCode, t: State)
    requires Sane(s) && Sane(t) && Moved(s, move, err, t) && !(move.StartMsg? && SetsOff(s, move.parsed, move.start))
    ensures StopsAll(s, move) ==> Silent(t.input) && t.conf == s.conf
    ensures !StopsAll(s, move) ==>
      (t.input.status == Running <==> Recording(t.conf) && (s.input.status == Running || !Recording(s.conf)))
  {
    hide CheckConf, TransferIs, Asked, Recording;
  }

  /** Input is listened to in a session that has been stopped exactly if a configuration that came later turned
      recording on. */
  lemma {:induction false} InputAfterStop(states: seq<State>, moves: seq<Move>, errs: seq<ErrorCode>, i: nat, n: nat)
    requires Trace(states, moves, errs) && i < n <= |moves| && StopsAll(states[i], moves[i])
    requires forall k :: i < k < n ==> !StopsAll(states[k], moves[k]) && !Begins(states[k], moves[k])
    ensures states[n].input.status == Running <==>
      Recording(states[n].conf) && exists j :: i < j < n && !Recording(states[j].conf)
  {
    hide Moved, Sane, StopsAll, Begins, Recording, Silent;
    TraceAt(states, moves, errs, n - 1);
    if n > i + 1 {
      NeitherSetsOff(states[n - 1], moves[n - 1]);
      InputAfterStop(states, moves, errs, i, n - 1);
      InputNext(states[n - 1], moves[n - 1], errs[n - 1], states[n]);
    } else {
      Silenced(states[i], moves[i], errs[i], states[n]);
    }
  }

  lemma NeitherSetsOff(s: State, move: Move)
    requires !StopsAll(s, move) && !Begins(s, move)
    ensures !(move.StartMsg? && SetsOff(s, move.parsed, move.start))
  {
  }

  lemma Silenced(s: State, move: Move, err: ErrorCode, t: State)
    requires Moved(s, move, err, t) && StopsAll(s, move)
    ensures t.input.status == Stopped
  {
    hide CheckConf, TransferIs, Asked, SamplingIs;
  }

  /** After a stop the driver was told of, and until a start message comes, nothing of the session is back. */
  lemma {:induction false} StaysOff(states: seq<State>, moves: seq<Move>, errs: seq<ErrorCode>, i: nat, n: nat)
    requires Trace(states, moves, errs) && i < n <= |moves| && StopsTold(states[i], moves[i])
    requires forall k :: i < k < n ==> !moves[k].StartMsg?
    ensures var s := states[n];
      !s.running && s.apps == [] && s.sampling == NONE && s.replay == NONE && s.transfer == NONE
    ensures moves[i].StopMsg? && states[i].sampling.live ==> states[n].timer == Off
  {
    hide Moved, Sane, StopsTold;
    TraceAt(states, moves, errs, n - 1);
    if n > i + 1 {
      StaysOff(states, moves, errs, i, n - 1);
      OffNext(states[n - 1], moves[n - 1], errs[n - 1], states[n]);
    } else {
      ToldIsOff(states[i], moves[i], errs[i], states[n]);
      TimerIsOff(states[i], moves[i], errs[i], states[n]);
    }
  }

  lemma TimerIsOff(s: State, move: Move, err: ErrorCode, t: State)
    requires Sane(s) && Moved(s, move, err, t)
    ensures move.StopMsg? && s.sampling.live ==> t.timer == Off
  {
    hide CheckConf, Silent;
  }

  lemma OffNext(s: State, move: Move, err: ErrorCode, t: State)
    requires Sane(s) && Moved(s, move, err, t) && !move.StartMsg? && !s.running && s.apps == []
    requires s.replay == NONE && s.transfer == NONE
    ensures !t.running && t.apps == [] && t.sampling == NONE && t.replay == NONE && t.transfer == NONE
    ensures t.timer == s.timer
  {
    hide CheckConf, Asked, Silent, SamplingIs;
  }

  lemma ToldIsOff(s: State, move: Move, err: ErrorCode, t: State)
    requires Moved(s, move, err, t) && StopsTold(s, move)
    ensures !t.running && t.apps == [] && t.sampling == NONE && t.replay == NONE && t.transfer == NONE
  {
    hide CheckConf, Asked, TransferIs, SamplingIs;
  }

  /** One of the moves from i on made a transfer thread, and no start message since has come as far as that. */
  ghost predicate TransferLeft(states: seq<State>, moves: seq<Move>, i: nat, n: nat)
    requires n <= |moves| < |states|
  {
    exists j :: i <= j < n && TransferOn(states[j], moves[j])
                && forall k :: j < k < n ==> !Transfers(states[k], moves[k])
  }

  lemma TransferLeftNext(states: seq<State>, moves: seq<Move>, i: nat, n: nat)
    requires i < n <= |moves| < |states|
    ensures var s, move := states[n - 1], moves[n - 1];
      TransferLeft(states, moves, i, n) <==>
        TransferOn(s, move) || (TransferLeft(states, moves, i, n - 1) && !Transfers(s, move))
  {
    hide TransferOn, Transfers;
  }

  /** Start messages that do not get to launch the apps leave it off, but one the driver refuses leaves a transfer
      thread. */
  lemma {:induction false} RefusedStarts(states: seq<State>, moves: seq<Move>, errs: seq<ErrorCode>, i: nat, n: nat)
    requires Trace(states, moves, errs) && i < n <= |moves| && StopsTold(states[i], moves[i])
    requires forall k :: i < k < n && moves[k].StartMsg? ==> !SetsOff(states[k], moves[k].parsed, moves[k].start)
    ensures !states[n].running && states[n].sampling == NONE
    ensures states[n].transfer.live <==> TransferLeft(states, moves, i + 1, n)
  {
    hide Moved, Sane, StopsTold, TransferOn, Transfers, SetsOff;
    TraceAt(states, moves, errs, n - 1);
    if n > i + 1 {
      RefusedStarts(states, moves, errs, i, n - 1);
      TransferLeftNext(states, moves, i + 1, n);
      RefusedNext(states[n - 1], moves[n - 1], errs[n - 1], states[n]);
    } else {
      ToldIsOff(states[i], moves[i], errs[i], states[n]);
    }
  }

  lemma RefusedNext(s: State, move: Move, err: ErrorCode, t: State)
    requires Sane(s) && Sane(t) && Moved(s, move, err, t) && !s.running
    requires move.StartMsg? ==> !SetsOff(s, move.parsed, move.start)
    ensures !t.running && t.sampling == NONE
    ensures t.transfer.live <==> TransferOn(s, move) || (s.transfer.live && !Transfers(s, move))
  {
    hide CheckConf, Asked, Silent, SamplingIs, Sane;
    TransferNext(s, move, err, t);
    RunningNext(s, move, err, t);
    SaneOff(t);
  }

  lemma SaneOff(t: State)
    requires Sane(t) && !t.running
    ensures t.sampling == NONE
  {
  }

  /** Such a message: a start the driver refuses, with a data socket open. */
  method TransferWithoutSession(keyDev: seq<int>, touchDev: seq<int>)
    returns (err: ErrorCode, running: bool, transfers: bool)
    ensures err == ErrCannotStart && !running && transfers
  {
    hide InputEvents.Valid, Silent, Asked;
    var m := new Manager(keyDev, touchDev);
    var transfer := TransferCalls(true, true, Made(1));
    var calls := StartCalls(Parsed, true, transfer, false, Made(2), {}, true, StopCalls(true, true));
    CheckedConf(Conf(0, 0, 100, 1));
    err := m.ProcessMsgConfig(Conf(0, 0, 100, 1), ConfigCalls({}, Made(3), true));
    m.dataSocket := 4;
    err := m.ProcessMsgStart([5], calls);
    running, transfers := m.running, m.transfer.live;
  }

  /** What the difference of two feature words says about one bit. */
  lemma RecordingChanges(o: bv64, n: bv64)
    ensures ((n ^ o) & n) & FL_RECORDING != 0 <==> n & FL_RECORDING != 0 && o & FL_RECORDING == 0
    ensures ((n ^ o) & o) & FL_RECORDING != 0 <==> n & FL_RECORDING == 0 && o & FL_RECORDING != 0
    ensures (o & !FL_RECORDING) & FL_RECORDING == 0 && (o | FL_RECORDING) & FL_RECORDING != 0
  {
  }
}
