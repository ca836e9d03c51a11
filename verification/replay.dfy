// The timing of the event replay thread (daemon/threads.c:361-410).

module Replay {
  import opened Words

  /** struct timeval. */
  datatype TimeVal = TimeVal(sec: int, usec: int)

  /** struct replay_event_t: the device and the input event for it. */
  datatype ReplayEvent = ReplayEvent(id: uint32, time: TimeVal, kind: int, code: int, value: int)

  datatype Action = Sleep(us: uint32) | Inject(event: ReplayEvent)

  /** time_diff_us: the difference in microseconds as a 32-bit unsigned number. */
  function TimeDiff(a: TimeVal, b: TimeVal): uint32 {
    U32((a.sec - b.sec) * 1000000 + (a.usec - b.usec))
  }

  function Micros(t: TimeVal): int {
    t.sec * 1000000 + t.usec
  }

  /** It leads from the earlier to the later time in 32 bits, and is their distance if that has 32 bits. */
  lemma TimeDiffReaches(a: TimeVal, b: TimeVal)
    ensures U32(Micros(b) + TimeDiff(a, b)) == U32(Micros(a))
    ensures Micros(b) + TimeDiff(a, b) == Micros(a) <==> 0 <= Micros(a) - Micros(b) < WORD32
  {
    var d: int := Micros(a) - Micros(b);
    U32Inner(d, Micros(b));
  }

  /** The recorded offset of event i, 0 before the first event. */
  function Offset(events: seq<ReplayEvent>, start: TimeVal, i: int): uint32
    requires -1 <= i < |events|
  {
    if i == -1 then 0 else TimeDiff(events[i].time, start)
  }

  /** Microseconds the thread has asked to sleep. */
  function Slept(trace: seq<Action>): nat {
    if trace == [] then 0
    else Slept(trace[..|trace| - 1]) + match trace[|trace| - 1] case Sleep(us) => us case Inject(_) => 0
  }

  ghost predicate Ascending(events: seq<ReplayEvent>, start: TimeVal) {
    forall i :: 0 <= i < |events| ==> Offset(events, start, i - 1) <= Offset(events, start, i)
  }

  lemma SleptNext(trace: seq<Action>, a: Action)
    ensures Slept(trace + [a]) == Slept(trace) + match a case Sleep(us) => us case Inject(_) => 0
  {
    assert (trace + [a])[..|trace|] == trace;
  }

  lemma AscendingNext(events: seq<ReplayEvent>, start: TimeVal, i: nat)
    requires i < |events|
    ensures Ascending(events[..i + 1], start)
       <==> Ascending(events[..i], start) && Offset(events, start, i - 1) <= Offset(events, start, i)
  {
    var less, more := events[..i], events[..i + 1];
    assert forall k :: -1 <= k < i ==> Offset(less, start, k) == Offset(more, start, k) == Offset(events, start, k);
    assert Offset(more, start, i) == Offset(events, start, i);
  }

  /** The sleep before event i: how far its offset lies behind the one before, nothing if it does not. */
  function Pause(events: seq<ReplayEvent>, start: TimeVal, i: nat): uint32
    requires i < |events|
  {
    var before, now := Offset(events, start, i - 1), Offset(events, start, i);
    if now >= before then now - before else 0
  }

  /** Event i follows its pause, and the sleeps up to there reach its recorded offset. */
  predicate InTime(trace: seq<Action>, events: seq<ReplayEvent>, start: TimeVal, i: nat)
    requires i < |events|
  {
    && 2 * i + 1 < |trace| && trace[2 * i] == Sleep(Pause(events, start, i)) && trace[2 * i + 1] == Inject(events[i])
    && Slept(trace[..2 * i + 1]) >= TimeDiff(events[i].time, start)
  }

  lemma InTimeStays(trace: seq<Action>, more: seq<Action>, events: seq<ReplayEvent>, start: TimeVal, i: nat)
    requires i < |events| && InTime(trace, events, start, i) && trace <= more
    ensures InTime(more, events, start, i)
  {
    hide Slept;
    assert more[..2 * i + 1] == trace[..2 * i + 1];
  }

  /** Every event is injected once, in order and never before its recorded offset; the sleeps add
      up to the last offset exactly when the offsets never go back. */
  method ReplayThread(events: seq<ReplayEvent>, start: TimeVal) returns (trace: seq<Action>)
    ensures |trace| == 2 * |events| && forall i :: 0 <= i < |events| ==> InTime(trace, events, start, i)
    ensures Slept(trace) == Offset(events, start, |events| - 1) <==> Ascending(events, start)
  {
    hide Slept, TimeDiff, Ascending, InTime;
    var prevOffset: uint32 := 0;
    trace := [];
    NothingYet(start);
    assert events[..0] == [];
    for i := 0 to |events|
      invariant |trace| == 2 * i && prevOffset == Offset(events, start, i - 1)
      invariant forall k :: 0 <= k < i ==> InTime(trace, events, start, k)
      invariant Slept(trace) >= prevOffset
      invariant Slept(trace) == prevOffset <==> Ascending(events[..i], start)
    {
      var offset := TimeDiff(events[i].time, start);
      var ms: uint32 := if offset >= prevOffset then offset - prevOffset else 0;
      AscendingNext(events, start, i);
      Paced(trace, ms, events, start, i);
      trace := trace + [Sleep(ms)] + [Inject(events[i])];
      prevOffset := offset;
    }
    assert events[..|events|] == events;
  }

  /** A sleep that reaches the offset, then the event. */
  lemma Paced(trace: seq<Action>, ms: uint32, events: seq<ReplayEvent>, start: TimeVal, i: nat)
    requires i < |events| && |trace| == 2 * i && Slept(trace) + ms >= TimeDiff(events[i].time, start)
    requires ms == Pause(events, start, i)
    ensures var more := trace + [Sleep(ms)] + [Inject(events[i])];
      && Slept(more) == Slept(trace) + ms && InTime(more, events, start, i)
      && forall k :: 0 <= k < i && InTime(trace, events, start, k) ==> InTime(more, events, start, k)
  {
    var more := trace + [Sleep(ms)] + [Inject(events[i])];
    SleptNext(trace, Sleep(ms));
    SleptNext(trace + [Sleep(ms)], Inject(events[i]));
    assert more[..2 * i + 1] == trace + [Sleep(ms)];
    forall k | 0 <= k < i && InTime(trace, events, start, k)
      ensures InTime(more, events, start, k)
    {
      InTimeStays(trace, more, events, start, k);
    }
  }

  lemma NothingYet(start: TimeVal)
    ensures Slept([]) == 0 && Ascending([], start)
  {
  }
}
