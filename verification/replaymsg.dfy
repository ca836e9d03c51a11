// The replay events behind the apps of a start message (daemon/da_protocol.c:338-455).

module ReplayMsgs {
  import opened Words
  import opened Wire
  import opened MsgBufs
  import opened Replay

  /** What an event takes in a message: six words. */
  const EVENT_BYTES: nat := 24

  /** What a disabled sequence leaves out and an enabled one has. */
  datatype Sequence = Off | On(enabled: uint32, start: TimeVal, events: seq<ReplayEvent>)

  /** The value a signed 32-bit field holds. */
  function Signed(x: uint32): int {
    if x < 0x8000_0000 then x else x - 0x1_0000_0000
  }

  /** It is the one number of 32 signed bits that a field of x can stand for. */
  lemma SignedIs(x: uint32)
    ensures -0x8000_0000 <= Signed(x) < 0x8000_0000 && U32(Signed(x)) == x
    ensures forall v: int :: -0x8000_0000 <= v < 0x8000_0000 && U32(v) == x ==> v == Signed(x)
  {
  }

  /** What a sequence that has been read makes of the stored one: a disabled one keeps times and events. */
  predicate Stored(read: Sequence, before: Sequence, now: Sequence) {
    match read
    case Off => before.On? && now == On(0, before.start, before.events)
    case On(_, _, _) => now == read
  }

  /** Seconds and nanoseconds are sent, microseconds are kept. */
  function GetTimeVal(b: seq<byte>): Parsed<TimeVal> {
    var (sec, b1) :- GetInt32(b);
    var (nsec, b2) :- GetInt32(b1);
    Done(TimeVal(Signed(sec), nsec / 1000), b2)
  }

  /** Type and code are cut to 16 bits. */
  function GetEvent(b: seq<byte>): Parsed<ReplayEvent> {
    var (time, b1) :- GetTimeVal(b);
    var (id, b2) :- GetInt32(b1);
    var (kind, b3) :- GetInt32(b2);
    var (code, b4) :- GetInt32(b3);
    var (value, b5) :- GetInt32(b4);
    Done(ReplayEvent(id, time, kind % 0x1_0000, code % 0x1_0000, Signed(value)), b5)
  }

  function GetEvents(n: nat, b: seq<byte>): Parsed<seq<ReplayEvent>> {
    if n == 0 then Done([], b)
    else
      var (e, b1) :- GetEvent(b);
      var (es, b2) :- GetEvents(n - 1, b1);
      Done([e] + es, b2)
  }

  function GetReplay(b: seq<byte>): Parsed<Sequence> {
    var (enabled, b1) :- GetInt32(b);
    if enabled == 0 then Done(Off, b1) else
    var (start, b2) :- GetTimeVal(b1);
    var (n, b3) :- GetInt32(b2);
    var (events, b4) :- GetEvents(n, b3);
    Done(On(enabled, start, events), b4)
  }

  // ------------------------------------------------------ where things are

  /** The word at byte i. */
  function WordAt(b: seq<byte>, i: nat): uint32
    requires i + 4 <= |b|
  {
    UnLE32(b[i..i + 4])
  }

  function TimeAt(b: seq<byte>, i: nat): TimeVal
    requires i + 8 <= |b|
  {
    TimeVal(Signed(WordAt(b, i)), WordAt(b, i + 4) / 1000)
  }

  function EventAt(b: seq<byte>, i: nat): ReplayEvent
    requires i + EVENT_BYTES <= |b|
  {
    ReplayEvent(WordAt(b, i + 8), TimeAt(b, i), WordAt(b, i + 12) % 0x1_0000, WordAt(b, i + 16) % 0x1_0000,
                Signed(WordAt(b, i + 20)))
  }

  lemma WordBehind(b: seq<byte>, i: nat, j: nat)
    requires i + j + 4 <= |b|
    ensures WordAt(b[i..], j) == WordAt(b, i + j)
  {
    assert b[i..][j..j + 4] == b[i + j..i + j + 4];
  }

  lemma GetInt32At(b: seq<byte>, i: nat)
    requires i <= |b|
    ensures GetInt32(b[i..]) == if |b| < i + 4 then Fail else Done(WordAt(b, i), b[i + 4..])
  {
    if i + 4 <= |b| {
      WordBehind(b, i, 0);
      assert b[i..][4..] == b[i + 4..];
    }
  }

  lemma GetTimeValAt(b: seq<byte>, i: nat)
    requires i <= |b|
    ensures GetTimeVal(b[i..]) == if |b| < i + 8 then Fail else Done(TimeAt(b, i), b[i + 8..])
  {
    hide GetInt32, WordAt;
    GetInt32At(b, i);
    if i + 4 <= |b| {
      GetInt32At(b, i + 4);
    }
  }

  lemma GetEventAt(b: seq<byte>, i: nat)
    requires i <= |b|
    ensures GetEvent(b[i..]) == if |b| < i + EVENT_BYTES then Fail else Done(EventAt(b, i), b[i + EVENT_BYTES..])
  {
    hide GetInt32, GetTimeVal, TimeAt, WordAt;
    GetTimeValAt(b, i);
    if i + 8 <= |b| {
      GetInt32At(b, i + 8);
    }
    if i + 12 <= |b| {
      GetInt32At(b, i + 12);
    }
    if i + 16 <= |b| {
      GetInt32At(b, i + 16);
    }
    if i + 20 <= |b| {
      GetInt32At(b, i + 20);
    }
  }

  /** n events, one every 24 bytes from byte i on. */
  function EventsAt(b: seq<byte>, i: nat, n: nat): (es: seq<ReplayEvent>)
    requires i + EVENT_BYTES * n <= |b|
    ensures |es| == n && forall k {:trigger es[k]} :: 0 <= k < n ==> es[k] == EventAt(b, i + EVENT_BYTES * k)
  {
    seq(n, k requires 0 <= k < n => EventAt(b, i + EVENT_BYTES * k))
  }

  lemma {:induction false} GetEventsAt(n: nat, b: seq<byte>, i: nat)
    requires i <= |b|
    ensures GetEvents(n, b[i..])
         == if |b| < i + EVENT_BYTES * n then Fail else Done(EventsAt(b, i, n), b[i + EVENT_BYTES * n..])
    decreases n
  {
    hide GetEvent, EventAt;
    if n > 0 {
      GetEventAt(b, i);
      if i + EVENT_BYTES <= |b| {
        GetEventsAt(n - 1, b, i + EVENT_BYTES);
        if i + EVENT_BYTES * n <= |b| {
          assert EventsAt(b, i, n) == [EventAt(b, i)] + EventsAt(b, i + EVENT_BYTES, n - 1);
        }
      }
    }
  }

  /** Where an enabled sequence has its number of events. */
  function EventNum(b: seq<byte>): uint32
    requires |b| >= 16
  {
    WordAt(b, 12)
  }

  /** A sequence is accepted exactly when it is disabled or as long as its number of events says, and
      what is read are the words at their places. */
  lemma ReplayReads(b: seq<byte>)
    ensures GetReplay(b).Done?
       <==> |b| >= 4 && (WordAt(b, 0) != 0 ==> |b| >= 16 && |b| >= 16 + EVENT_BYTES * EventNum(b))
    ensures GetReplay(b).Done? && WordAt(b, 0) == 0 ==> GetReplay(b) == Done(Off, b[4..])
    ensures GetReplay(b).Done? && WordAt(b, 0) != 0 ==>
      GetReplay(b) == Done(On(WordAt(b, 0), TimeAt(b, 4), EventsAt(b, 16, EventNum(b))),
                           b[16 + EVENT_BYTES * EventNum(b)..])
  {
    hide GetInt32, GetTimeVal, GetEvents, WordAt, TimeAt, EventsAt;
    assert b[0..] == b;
    GetInt32At(b, 0);
    if |b| >= 4 {
      GetTimeValAt(b, 4);
    }
    if |b| >= 12 {
      GetInt32At(b, 12);
    }
    if |b| >= 16 {
      GetEventsAt(EventNum(b), b, 16);
    }
  }

  // ---------------------------------------------------------------- parsing

  /** struct replay_event_seq_t; the number of events is that of the buffer. */
  class ReplaySeq {
    var enabled: uint32
    var tv: TimeVal
    var events: seq<ReplayEvent>

    constructor ()
      ensures enabled == 0 && events == []
    {
      enabled, tv, events := 0, TimeVal(0, 0), [];
    }

    ghost function Now(): Sequence
      reads this
    {
      On(enabled, tv, events)
    }
  }

  method ParseTimeVal(msg: MsgBuf) returns (ok: bool, tv: TimeVal)
    requires msg.Valid()
    modifies msg
    ensures msg.Valid() && ok == GetTimeVal(old(msg.Left())).Done?
    ensures ok ==> GetTimeVal(old(msg.Left())) == Done(tv, msg.Left())
  {
    hide GetInt32;
    tv := TimeVal(0, 0);
    var sec, nsec;
    ok, sec := msg.ParseInt32();
    if ok {
      ok, nsec := msg.ParseInt32();
      if ok {
        tv := TimeVal(Signed(sec), nsec / 1000);
      }
    }
  }

  method ParseReplayEvent(msg: MsgBuf) returns (ok: bool, event: ReplayEvent)
    requires msg.Valid()
    modifies msg
    ensures msg.Valid() && ok == GetEvent(old(msg.Left())).Done?
    ensures ok ==> GetEvent(old(msg.Left())) == Done(event, msg.Left())
  {
    hide GetInt32, GetTimeVal;
    var id: uint32, kind: uint32, code: uint32, value: uint32 := 0, 0, 0, 0;
    var time;
    event := ReplayEvent(0, TimeVal(0, 0), 0, 0, 0);
    ok, time := ParseTimeVal(msg);
    if !ok {
      return;
    }
    ok, id := msg.ParseInt32();
    if !ok {
      return;
    }
    ok, kind := msg.ParseInt32();
    if !ok {
      return;
    }
    ok, code := msg.ParseInt32();
    if !ok {
      return;
    }
    ok, value := msg.ParseInt32();
    event := ReplayEvent(id, time, kind % 0x1_0000, code % 0x1_0000, Signed(value));
  }

  lemma GetEventsStep(n: nat, body: seq<byte>, i: nat)
    requires i < n && EVENT_BYTES * i <= |body|
    ensures EVENT_BYTES * (i + 1) <= |body| <==> GetEvent(body[EVENT_BYTES * i..]).Done?
    ensures EVENT_BYTES * (i + 1) <= |body| ==>
      && GetEvent(body[EVENT_BYTES * i..]).rest == body[EVENT_BYTES * (i + 1)..]
      && EventsAt(body, 0, i) + [GetEvent(body[EVENT_BYTES * i..]).value] == EventsAt(body, 0, i + 1)
    ensures EVENT_BYTES * (i + 1) > |body| ==> GetEvents(n, body).Fail?
  {
    hide GetEvent, GetEvents, EventAt;
    GetEventAt(body, EVENT_BYTES * i);
    assert body[0..] == body;
    GetEventsAt(n, body, 0);
  }

  lemma GetEventsDone(n: nat, body: seq<byte>)
    requires EVENT_BYTES * n <= |body|
    ensures GetEvents(n, body) == Done(EventsAt(body, 0, n), body[EVENT_BYTES * n..])
  {
    hide GetEvents, EventsAt;
    assert body[0..] == body;
    GetEventsAt(n, body, 0);
  }

  /** The loop over the events; a malformed one leaves the sequence without events. */
  method ParseReplayEvents(msg: MsgBuf, n: uint32) returns (ok: bool, events: seq<ReplayEvent>)
    requires msg.Valid()
    modifies msg
    ensures msg.Valid() && ok == GetEvents(n, old(msg.Left())).Done?
    ensures ok ==> GetEvents(n, old(msg.Left())) == Done(events, msg.Left())
    ensures !ok ==> events == []
  {
    hide GetEvents, GetEvent, EventsAt;
    ghost var body := msg.Left();
    events := [];
    var i := 0;
    assert body[0..] == body && EventsAt(body, 0, 0) == [];
    while i < n
      invariant 0 <= i <= n && msg.Valid() && EVENT_BYTES * i <= |body|
      invariant msg.Left() == body[EVENT_BYTES * i..] && events == EventsAt(body, 0, i)
    {
      var event;
      GetEventsStep(n, body, i);
      ok, event := ParseReplayEvent(msg);
      if !ok {
        return false, [];
      }
      events, i := events + [event], i + 1;
    }
    GetEventsDone(n, body);
    ok := true;
  }

  /** parse_replay_event_seq: a disabled sequence keeps the events it had. */
  method ParseReplaySeq(msg: MsgBuf, res: ReplaySeq) returns (ok: bool)
    requires msg.Valid()
    modifies msg, res
    ensures msg.Valid() && ok == GetReplay(old(msg.Left())).Done?
    ensures ok ==> GetReplay(old(msg.Left())).rest == msg.Left()
    ensures ok ==> Stored(GetReplay(old(msg.Left())).value, old(res.Now()), res.Now())
  {
    hide GetInt32, GetTimeVal, GetEvents;
    var enabled, n, events, tv;
    ok, enabled := msg.ParseInt32();
    if !ok {
      return;
    }
    res.enabled := enabled;
    if enabled == 0 {
      return;
    }
    ok, tv := ParseTimeVal(msg);
    if !ok {
      return;
    }
    res.tv := tv;
    ok, n := msg.ParseInt32();
    if ok {
      ok, events := ParseReplayEvents(msg, n);
      res.events := events;
    }
  }
}
