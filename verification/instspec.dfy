// What the messages that change the instrumentation do (daemon/da_inst.c:671-811,
// daemon/da_protocol.c:498-503), on values.

module InstSpec {
  import opened Words
  import opened Records
  import opened Resolve
  import opened Wire
  import opened Pack
  import opened ReplayMsgs

  const NMSG_START: uint32 := 0x0002
  const NMSG_SWAP_INST_ADD: uint32 := 0x0008

  /** The installed libs, the apps, and the list of new libs, which should be empty between messages. */
  datatype Insts = Insts(libs: seq<Data>, apps: seq<Data>, left: seq<Data>)

  /** A message to one of the three handlers, or a stop, which frees the apps but not the libs. */
  datatype Command = Start(body: Message) | Add(body: Message) | Remove(body: Message) | Stop

  /** The records a message adds in front of a list; those before a malformed one are added too. */
  function Sent(env: Env, isApp: bool, b: Message): seq<Data> {
    Reverse(GetList(env, isApp, b).items)
  }

  predicate StartOk(env: Env, b: Message) {
    GetList(env, true, b).ok && GetReplay(GetList(env, true, b).rest).Done?
  }

  /** The replay sequence behind the apps. */
  function SentReplay(env: Env, b: Message): Sequence
    requires StartOk(env, b)
  {
    GetReplay(GetList(env, true, b).rest).value
  }

  predicate Accepted(env: Env, c: Command) {
    match c
    case Start(b) => StartOk(env, b)
    case Add(b) => GetList(env, false, b).ok
    case Remove(b) => GetList(env, false, b).ok
    case Stop => true
  }

  /** What a message does to the stored replay sequence: an accepted start stores its own, no other message
      touches it. */
  predicate Replays(env: Env, c: Command, before: Sequence, now: Sequence) {
    && (c.Start? && Accepted(env, c) ==> Stored(SentReplay(env, c.body), before, now))
    && (!c.Start? ==> now == before)
  }

  /** What the handlers leave. An addition is parsed into the installed list, and what is resolved and
      moved is what an earlier removal that could not be parsed left. */
  function Step(env: Env, s: Insts, c: Command): Insts {
    match c
    case Start(b) => s.(apps := Sent(env, true, b) + s.apps)
    case Add(b) =>
      var cur := Sent(env, false, b) + s.libs;
      if Accepted(env, c) then Insts(Move(cur, ResolveAdd(cur, s.left)), s.apps, []) else s.(libs := cur)
    case Remove(b) =>
      var left := Sent(env, false, b) + s.left;
      if Accepted(env, c) then Insts(ResolveRm(s.libs, left).cur, s.apps, []) else s.(left := left)
    case Stop => s.(apps := [])
  }

  /** The libs the driver is sent. */
  function DriverLibs(env: Env, s: Insts, c: Command): seq<Data> {
    match c
    case Start(b) => s.libs
    case Add(b) => ResolveAdd(Sent(env, false, b) + s.libs, s.left)
    case Remove(b) =>
      var r := ResolveRm(s.libs, Sent(env, false, b) + s.left);
      r.moved + r.kept
    case Stop => []
  }

  /** Whether the driver is sent a message with apps and libs, and which. */
  predicate Told(env: Env, s: Insts, c: Command) {
    !c.Stop? && Accepted(env, c) && (c.Start? || s.apps != [])
  }

  function MsgId(c: Command): uint32 {
    if c.Start? then NMSG_START else NMSG_SWAP_INST_ADD
  }

  ghost predicate Answers(env: Env, s: Insts, c: Command, b: seq<byte>) {
    IsMsg(b, MsgId(c), DriverLibs(env, s, c), Step(env, s, c).apps)
  }

  /** What is packed goes into what is planned, and no merge meets a record without probes; else the daemon
      writes behind a buffer, packs nothing at all, or dereferences a null pointer. */
  predicate Safe(env: Env, s: Insts, c: Command) {
    && (Told(env, s, c) ==> Packable(DriverLibs(env, s, c), Step(env, s, c).apps))
    && (c.Add? && Accepted(env, c) ==> MoveSafe(Sent(env, false, c.body) + s.libs, DriverLibs(env, s, c)))
  }

  /** The caches agree with the contents everywhere. */
  predicate AllRight(s: Insts) {
    AllExact(s.libs) && AllExact(s.apps) && AllExact(s.left)
  }

  /** The state after a sequence of messages. */
  function Steps(env: Env, s: Insts, cs: seq<Command>): Insts {
    if cs == [] then s else Step(env, Steps(env, s, cs[..|cs| - 1]), cs[|cs| - 1])
  }

  lemma StepsNext(env: Env, s: Insts, cs: seq<Command>, k: nat)
    requires k < |cs|
    ensures Steps(env, s, cs[..k + 1]) == Step(env, Steps(env, s, cs[..k]), cs[k])
    ensures Steps(env, s, cs[..0]) == s
  {
    assert cs[..k + 1][..k] == cs[..k];
  }

  /** The messages of which the driver is told, by their positions. */
  function ToldAt(env: Env, s: Insts, cs: seq<Command>): (ks: seq<nat>)
    ensures forall i {:trigger ks[i]} :: 0 <= i < |ks| ==> ks[i] < |cs|
  {
    if cs == [] then []
    else
      var n := |cs| - 1;
      ToldAt(env, s, cs[..n]) + if Told(env, Steps(env, s, cs[..n]), cs[n]) then [n] else []
  }

  /** What the driver was sent answers those messages, one for one. */
  ghost predicate AnswersAll(env: Env, s: Insts, cs: seq<Command>, sent: seq<seq<byte>>) {
    var ks := ToldAt(env, s, cs);
    && |sent| == |ks|
    && forall i {:trigger sent[i]} :: 0 <= i < |sent| ==> Answers(env, Steps(env, s, cs[..ks[i]]), cs[ks[i]], sent[i])
  }

  lemma AnswersNext(env: Env, s: Insts, cs: seq<Command>, k: nat, sent: seq<seq<byte>>)
    requires k < |cs| && AnswersAll(env, s, cs[..k], sent)
    ensures !Told(env, Steps(env, s, cs[..k]), cs[k]) ==> AnswersAll(env, s, cs[..k + 1], sent)
    ensures Told(env, Steps(env, s, cs[..k]), cs[k]) ==>
      forall b {:trigger sent + [b]} :: Answers(env, Steps(env, s, cs[..k]), cs[k], b) ==>
        AnswersAll(env, s, cs[..k + 1], sent + [b])
  {
    hide Told, Answers, Steps;
    var less, more := cs[..k], cs[..k + 1];
    assert more[..k] == less;
    var ks := ToldAt(env, s, less);
    assert forall i {:trigger ks[i]} :: 0 <= i < |ks| ==> more[..ks[i]] == less[..ks[i]];
  }
}
