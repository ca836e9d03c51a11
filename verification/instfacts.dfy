// What runs of messages that change the instrumentation achieve, and when (daemon/da_inst.c:671-811).

module InstFacts {
  import opened Words
  import opened Records
  import opened Resolve
  import opened ResolveFacts
  import opened Wire
  import opened RoundTrip
  import opened Pack
  import opened InstSpec
  import Driver

  // ----------------------------------------------------------- what is left over

  /** A removal that turns out malformed behind at least one record. */
  predicate Leaves(env: Env, c: Command) {
    c.Remove? && !Accepted(env, c) && Sent(env, false, c.body) != []
  }

  predicate Clears(env: Env, c: Command) {
    (c.Add? || c.Remove?) && Accepted(env, c)
  }

  lemma LeftNext(env: Env, s: Insts, c: Command)
    ensures Step(env, s, c).left != [] <==> Leaves(env, c) || (s.left != [] && !Clears(env, c))
  {
  }

  /** The list of new libs is empty between messages unless a removal failed and nothing that was
      accepted has cleared it since. */
  lemma {:induction false} LeftWhen(env: Env, s: Insts, cs: seq<Command>)
    requires s.left == []
    ensures Steps(env, s, cs).left != []
       <==> exists k :: 0 <= k < |cs| && Leaves(env, cs[k]) && forall j :: k < j < |cs| ==> !Clears(env, cs[j])
  {
    hide Step, Leaves, Clears;
    if cs != [] {
      var n := |cs| - 1;
      LeftWhen(env, s, cs[..n]);
      LeftNext(env, Steps(env, s, cs[..n]), cs[n]);
      ClearsOrLeaves(env, cs[n]);
    }
  }

  lemma ClearsOrLeaves(env: Env, c: Command)
    ensures !(Leaves(env, c) && Clears(env, c))
  {
  }

  // ------------------------------------------------------- what a stop ends

  /** The position behind the last stop, 0 if there is none. */
  function LastStop(cs: seq<Command>): (n: nat)
    ensures n <= |cs| && (n > 0 ==> cs[n - 1].Stop?) && forall k :: n <= k < |cs| ==> !cs[k].Stop?
  {
    if cs == [] || cs[|cs| - 1].Stop? then |cs| else LastStop(cs[..|cs| - 1])
  }

  /** The app records of the start messages, those of the last message first. */
  function SentApps(env: Env, cs: seq<Command>): seq<Data> {
    if cs == [] then []
    else
      var n := |cs| - 1;
      (if cs[n].Start? then Sent(env, true, cs[n].body) else []) + SentApps(env, cs[..n])
  }

  /** The apps are those sent since the last stop; those there at the beginning are kept only if there
      was none. */
  lemma {:induction false} AppsSinceStop(env: Env, s: Insts, cs: seq<Command>)
    ensures var n := LastStop(cs);
      Steps(env, s, cs).apps == SentApps(env, cs[n..]) + if n == 0 then s.apps else []
  {
    hide Sent, Step;
    if cs != [] {
      var n, m := LastStop(cs), |cs| - 1;
      WhoseApps(env, Steps(env, s, cs[..m]), cs[m]);
      if !cs[m].Stop? {
        AppsSinceStop(env, s, cs[..m]);
        assert cs[..m][n..] == cs[n..][..m - n];
      }
    }
  }

  lemma WhoseApps(env: Env, s: Insts, c: Command)
    ensures Step(env, s, c).apps
         == if c.Stop? then [] else (if c.Start? then Sent(env, true, c.body) else []) + s.apps
  {
    hide Sent, ResolveAdd, ResolveRm, Move;
  }

  /** The messages that are about libs. */
  function AboutLibs(cs: seq<Command>): seq<Command> {
    if cs == [] then []
    else
      var n := |cs| - 1;
      AboutLibs(cs[..n]) + if cs[n].Add? || cs[n].Remove? then [cs[n]] else []
  }

  /** Starts and stops do not touch the libs, whatever is between them. */
  lemma {:induction false} LibsWithoutStops(env: Env, s: Insts, cs: seq<Command>)
    ensures var t := Steps(env, s, AboutLibs(cs));
      Steps(env, s, cs).libs == t.libs && Steps(env, s, cs).left == t.left
  {
    hide Step;
    if cs != [] {
      var n, less := |cs| - 1, AboutLibs(cs[..|cs| - 1]);
      LibsWithoutStops(env, s, cs[..n]);
      WhoseLibs(env, Steps(env, s, cs[..n]), Steps(env, s, less), cs[n]);
      if cs[n].Add? || cs[n].Remove? {
        assert (less + [cs[n]])[..|less|] == less;
        assert AboutLibs(cs) == less + [cs[n]];
      } else {
        assert AboutLibs(cs) == less;
      }
    }
  }

  lemma WhoseLibs(env: Env, s: Insts, t: Insts, c: Command)
    requires s.libs == t.libs && s.left == t.left
    ensures c.Start? || c.Stop? ==> Step(env, s, c).libs == t.libs && Step(env, s, c).left == t.left
    ensures c.Add? || c.Remove? ==>
      Step(env, s, c).libs == Step(env, t, c).libs && Step(env, s, c).left == Step(env, t, c).left
  {
    hide Sent, ResolveAdd, ResolveRm, Move;
  }

  /** The first start after a stop tells the driver of the apps of its own message only, each with the libs
      that were installed before the stop. */
  lemma StartAfterStop(env: Env, s: Insts, b: Message, reply: seq<byte>)
    requires Sound(env.machine, s) && AllRight(s) && StartOk(env, b)
    requires Safe(env, Step(env, s, Stop), Start(b)) && Answers(env, Step(env, s, Stop), Start(b), reply)
    ensures Driver.ReadMsg(reply)
         == Done(Driver.Order(NMSG_START, Driver.EntriesOf(s.libs, Sent(env, true, b))), [])
  {
    hide Driver.ReadMsg, Driver.EntriesOf, Safe, Answers, Exact, AllProper, Sent, StartOk;
    var t := Step(env, s, Stop);
    NoneProper(env.machine);
    DriverMsgDecodes(env, t, Start(b), reply);
    assert Sent(env, true, b) + [] == Sent(env, true, b);
  }

  /** A change of libs tells the driver nothing as long as no app has been sent since the stop. */
  lemma QuietAfterStop(env: Env, s: Insts, cs: seq<Command>, c: Command)
    requires c.Add? || c.Remove?
    ensures LastStop(cs) > 0 ==>
      (Told(env, Steps(env, s, cs), c) <==> Accepted(env, c) && SentApps(env, cs[LastStop(cs)..]) != [])
  {
    hide Step, Steps, Accepted, SentApps;
    AppsSinceStop(env, s, cs);
  }

  // --------------------------------------------------------- kinds and hashes

  predicate Proper(m: Machine, isApp: bool, d: Data) {
    d.head.App? == isApp && d.hash == PathHash(m, d.head.path)
  }

  predicate AllProper(m: Machine, isApp: bool, ds: seq<Data>) {
    forall d :: d in ds ==> Proper(m, isApp, d)
  }

  /** Libs are libs, apps are apps, and every cached hash is that of the path. */
  predicate Sound(m: Machine, s: Insts) {
    AllProper(m, false, s.libs) && AllProper(m, true, s.apps) && AllProper(m, false, s.left)
  }

  lemma SentProper(env: Env, isApp: bool, b: Message)
    ensures AllProper(env.machine, isApp, Sent(env, isApp, b))
  {
    hide PathHash, HeadOk, Exact, FuncOk;
    AcceptedIsPacked(env, isApp, b);
    ReverseMembers(GetList(env, isApp, b).items);
  }

  lemma AddLibProper(m: Machine, cur: seq<Data>, d: Data)
    requires Proper(m, false, d)
    ensures AllProper(m, false, AddLib(cur, d))
  {
    hide PathHash, U32, KeepNew, Find;
  }

  lemma {:induction false} AddProper(m: Machine, cur: seq<Data>, ds: seq<Data>)
    requires AllProper(m, false, ds)
    ensures AllProper(m, false, ResolveAdd(cur, ds))
  {
    hide Proper, AddLib;
    if ds != [] {
      AddLibProper(m, cur, ds[0]);
      AddProper(m, cur, ds[1..]);
    }
  }

  lemma {:induction false} MoveProper(m: Machine, to: seq<Data>, from: seq<Data>)
    requires AllProper(m, false, to) && AllProper(m, false, from)
    ensures AllProper(m, false, Move(to, from))
    decreases |from|
  {
    hide PathHash, U32;
    if from != [] {
      var k := Find(to, from[0]);
      assert k < |to| ==> to[k] in to;
      MoveProper(m, MoveLib(to, from[0]), from[1..]);
    }
  }

  predicate ProperRemoval(m: Machine, r: Removal) {
    AllProper(m, false, r.cur) && AllProper(m, false, r.moved) && AllProper(m, false, r.kept)
  }

  lemma RmLibProper(m: Machine, r: Removal, d: Data)
    requires ProperRemoval(m, r) && Proper(m, false, d)
    ensures ProperRemoval(m, RmLib(r, d))
  {
    hide PathHash, U32, Take, Find;
    var k := Find(r.cur, d);
    assert k < |r.cur| ==> r.cur[k] in r.cur;
  }

  lemma {:induction false} RmProper(m: Machine, r: Removal, ds: seq<Data>)
    requires ProperRemoval(m, r) && AllProper(m, false, ds)
    ensures ProperRemoval(m, RmLibs(r, ds))
    decreases |ds|
  {
    hide ProperRemoval, Proper, RmLib;
    if ds != [] {
      RmLibProper(m, r, ds[0]);
      RmProper(m, RmLib(r, ds[0]), ds[1..]);
    }
  }

  lemma ProperConcat(m: Machine, isApp: bool, a: seq<Data>, b: seq<Data>)
    requires AllProper(m, isApp, a) && AllProper(m, isApp, b)
    ensures AllProper(m, isApp, a + b)
  {
    hide Proper;
  }

  /** Every message keeps that, and what the driver is sent are libs and apps. */
  lemma StepSound(env: Env, s: Insts, c: Command)
    requires Sound(env.machine, s)
    ensures Sound(env.machine, Step(env, s, c)) && AllProper(env.machine, false, DriverLibs(env, s, c))
  {
    hide AllProper, ResolveAdd, Move, GetList, Sent;
    var m := env.machine;
    NoneProper(m);
    if !c.Stop? {
      SentProper(env, c.Start?, c.body);
    }
    match c
    case Start(b) =>
      ProperConcat(m, true, Sent(env, true, b), s.apps);
    case Add(b) =>
      var cur := Sent(env, false, b) + s.libs;
      ProperConcat(m, false, Sent(env, false, b), s.libs);
      AddProper(m, cur, s.left);
      MoveProper(m, cur, ResolveAdd(cur, s.left));
    case Remove(b) =>
      var left := Sent(env, false, b) + s.left;
      ProperConcat(m, false, Sent(env, false, b), s.left);
      RmProper(m, Removal(s.libs, [], []), left);
      ProperConcat(m, false, ResolveRm(s.libs, left).moved, ResolveRm(s.libs, left).kept);
    case Stop =>
  }

  lemma NoneProper(m: Machine)
    ensures AllProper(m, false, []) && AllProper(m, true, [])
  {
  }

  /** The driver reads all apps in list order, each with all libs of the message, and nothing else. */
  ghost predicate Decodes(env: Env, s: Insts, c: Command, b: seq<byte>) {
    Driver.ReadMsg(b)
      == Done(Driver.Order(MsgId(c), Driver.EntriesOf(DriverLibs(env, s, c), Step(env, s, c).apps)), [])
  }

  /** Whatever message it answers, what the driver is sent reads so if the caches are right. */
  lemma DriverMsgDecodes(env: Env, s: Insts, c: Command, b: seq<byte>)
    requires Sound(env.machine, s) && AllRight(s) && Told(env, s, c) && Safe(env, s, c) && Answers(env, s, c, b)
    ensures Decodes(env, s, c, b)
  {
    hide Driver.ReadMsg, IsMsg, MsgBytes, PayloadSize, Packable, GetList, ResolveAdd, ResolveRm, Exact, Move, Sent;
    StepSound(env, s, c);
    StepRight(env, s, c);
    var libs, apps := DriverLibs(env, s, c), Step(env, s, c).apps;
    assert forall l :: l in libs ==> Proper(env.machine, false, l);
    assert forall a :: a in apps ==> Proper(env.machine, true, a);
    ExactMsg(MsgId(c), libs, apps);
    Driver.GeneratedMsgDecodes(MsgId(c), libs, apps);
  }

  lemma {:induction false} RunSound(env: Env, s: Insts, cs: seq<Command>)
    requires Sound(env.machine, s)
    ensures Sound(env.machine, Steps(env, s, cs))
  {
    hide Sound, Step;
    if cs != [] {
      var n := |cs| - 1;
      RunSound(env, s, cs[..n]);
      StepSound(env, Steps(env, s, cs[..n]), cs[n]);
    }
  }

  // ------------------------------------------------------------------ caches

  lemma SentExact(env: Env, isApp: bool, b: Message, ds: seq<Data>)
    requires AllExact(ds)
    ensures AllExact(Sent(env, isApp, b) + ds)
  {
    hide Exact;
    AcceptedIsPacked(env, isApp, b);
    ReverseMembers(GetList(env, isApp, b).items);
  }

  /** Everything but the move of an addition keeps the caches right. */
  lemma StepRight(env: Env, s: Insts, c: Command)
    requires AllRight(s)
    ensures AllExact(DriverLibs(env, s, c)) && AllExact(Step(env, s, c).apps)
    ensures !(c.Add? && Accepted(env, c)) ==> AllRight(Step(env, s, c))
    ensures c.Add? ==> AllExact(Sent(env, false, c.body) + s.libs)
  {
    hide Exact, ResolveAdd, ResolveRm, Move, GetList, Sent;
    match c
    case Start(b) => SentExact(env, true, b, s.apps);
    case Add(b) =>
      SentExact(env, false, b, s.libs);
      AddKeepsExact(Sent(env, false, b) + s.libs, s.left);
    case Remove(b) =>
      SentExact(env, false, b, s.left);
      RmKeepsExact(s.libs, Sent(env, false, b) + s.left);
    case Stop =>
  }

  /** No leftover record that is merged brings more than one probe. */
  predicate Single(env: Env, s: Insts, c: Command) {
    c.Add? && Accepted(env, c) ==> SingleMerges(Sent(env, false, c.body) + s.libs, DriverLibs(env, s, c))
  }

  /** Single merges keep them right, whatever the sizes. */
  lemma SingleKeepsRight(env: Env, s: Insts, c: Command)
    requires AllRight(s) && Single(env, s, c)
    ensures AllRight(Step(env, s, c))
  {
    hide Exact, ResolveAdd, ResolveRm, Move, SingleMerges, GetList, Sent;
    StepRight(env, s, c);
    if c.Add? && Accepted(env, c) {
      SingleKeepsExact(Sent(env, false, c.body) + s.libs, DriverLibs(env, s, c));
    }
  }

  /** The caches of the apps are always right. */
  lemma StepApps(env: Env, s: Insts, c: Command)
    requires AllExact(s.apps)
    ensures AllExact(Step(env, s, c).apps)
  {
    hide Exact, ResolveAdd, ResolveRm, Move, GetList, Sent;
    if c.Start? {
      SentExact(env, true, c.body, s.apps);
    }
  }

  ghost predicate SingleRun(env: Env, s: Insts, cs: seq<Command>) {
    forall k :: 0 <= k < |cs| ==> Single(env, Steps(env, s, cs[..k]), cs[k])
  }

  ghost predicate DecodesAll(env: Env, s: Insts, cs: seq<Command>, sent: seq<seq<byte>>) {
    var ks := ToldAt(env, s, cs);
    && |sent| == |ks|
    && forall i {:trigger sent[i]} :: 0 <= i < |sent| ==> Decodes(env, Steps(env, s, cs[..ks[i]]), cs[ks[i]], sent[i])
  }

  lemma {:induction false} SingleRunRight(env: Env, s: Insts, cs: seq<Command>, n: nat)
    requires AllRight(s) && SingleRun(env, s, cs) && n <= |cs|
    ensures AllRight(Steps(env, s, cs[..n]))
  {
    hide Step, Single, AllRight, Steps;
    if n == 0 {
      assert cs[..0] == [];
      NoSteps(env, s);
    } else {
      SingleRunRight(env, s, cs, n - 1);
      StepsNext(env, s, cs, n - 1);
      SingleKeepsRight(env, Steps(env, s, cs[..n - 1]), cs[n - 1]);
    }
  }

  lemma {:induction false} ToldWhen(env: Env, s: Insts, cs: seq<Command>)
    ensures forall k: nat :: k in ToldAt(env, s, cs) <==> k < |cs| && Told(env, Steps(env, s, cs[..k]), cs[k])
  {
    hide Told, Steps;
    if cs != [] {
      var n := |cs| - 1;
      ToldWhen(env, s, cs[..n]);
      assert forall k: nat :: k <= n ==> cs[..n][..k] == cs[..k];
    }
  }

  /** All that is sent in a run of safe messages with single merges reads as it should. */
  lemma RunDecodes(env: Env, s: Insts, cs: seq<Command>, sent: seq<seq<byte>>)
    requires Sound(env.machine, s) && AllRight(s) && SingleRun(env, s, cs) && AnswersAll(env, s, cs, sent)
    requires forall k :: 0 <= k < |cs| ==> Safe(env, Steps(env, s, cs[..k]), cs[k])
    ensures DecodesAll(env, s, cs, sent)
  {
    hide Sound, AllRight, Safe, Told, Answers, Decodes, Steps, ToldAt, SingleRun;
    var ks := ToldAt(env, s, cs);
    ToldWhen(env, s, cs);
    forall i {:trigger sent[i]} | 0 <= i < |sent|
      ensures Decodes(env, Steps(env, s, cs[..ks[i]]), cs[ks[i]], sent[i])
    {
      var k := ks[i];
      assert k in ks;
      RunSound(env, s, cs[..k]);
      SingleRunRight(env, s, cs, k);
      DriverMsgDecodes(env, Steps(env, s, cs[..k]), cs[k], sent[i]);
    }
  }

  /** The libs fit the 32-bit memory they are packed into. */
  predicate Fits(env: Env, s: Insts, c: Command) {
    c.Add? && Accepted(env, c) ==>
      |DatasBytes(Sent(env, false, c.body) + s.libs)| + |DatasBytes(DriverLibs(env, s, c))| < WORD32
  }

  lemma ExactIsSane(ds: seq<Data>)
    requires AllExact(ds) && |DatasBytes(ds)| < WORD32
    ensures forall d :: d in ds ==> Sane(d)
  {
    hide Exact, Sane, TrueSize, ConcatMap;
    forall d | d in ds
      ensures Sane(d)
    {
      var k :| 0 <= k < |ds| && ds[k] == d;
      DatasMember(ds, k);
      ExactIsComplete(d);
    }
  }

  /** One message keeps all caches right exactly if its merges are single. */
  lemma StepRightWhen(env: Env, s: Insts, c: Command)
    requires AllRight(s) && Safe(env, s, c) && Fits(env, s, c)
    ensures AllRight(Step(env, s, c)) <==> Single(env, s, c)
  {
    hide Exact, ResolveAdd, ResolveRm, Move, MoveSafe, SingleMerges, GetList, Sent, Packable, ConcatMap;
    StepRight(env, s, c);
    if c.Add? && Accepted(env, c) {
      var cur, more := Sent(env, false, c.body) + s.libs, DriverLibs(env, s, c);
      ExactIsSane(cur);
      MoveExactWhen(cur, more);
    }
  }

  /** Through a run of messages all caches stay right exactly if no addition merges a leftover record
      with more than one probe into an installed one. */
  lemma RunRightWhen(env: Env, s: Insts, cs: seq<Command>)
    requires AllRight(s)
    requires forall k :: 0 <= k < |cs| && AllRight(Steps(env, s, cs[..k])) ==>
      Safe(env, Steps(env, s, cs[..k]), cs[k]) && Fits(env, Steps(env, s, cs[..k]), cs[k])
    ensures (forall k :: 0 <= k <= |cs| ==> AllRight(Steps(env, s, cs[..k])))
       <==> forall k :: 0 <= k < |cs| ==> Single(env, Steps(env, s, cs[..k]), cs[k])
  {
    hide *;
    RightUpTo(env, s, cs, |cs|);
  }

  lemma {:induction false} RightUpTo(env: Env, s: Insts, cs: seq<Command>, n: nat)
    requires n <= |cs| && AllRight(s)
    requires forall k :: 0 <= k < |cs| && AllRight(Steps(env, s, cs[..k])) ==>
      Safe(env, Steps(env, s, cs[..k]), cs[k]) && Fits(env, Steps(env, s, cs[..k]), cs[k])
    ensures (forall k :: 0 <= k <= n ==> AllRight(Steps(env, s, cs[..k])))
       <==> forall k :: 0 <= k < n ==> Single(env, Steps(env, s, cs[..k]), cs[k])
  {
    hide Step, Safe, Fits, Single, AllRight, Steps;
    if n == 0 {
      assert cs[..0] == [];
      NoSteps(env, s);
    } else {
      RightUpTo(env, s, cs, n - 1);
      StepsNext(env, s, cs, n - 1);
      if AllRight(Steps(env, s, cs[..n - 1])) {
        StepRightWhen(env, Steps(env, s, cs[..n - 1]), cs[n - 1]);
      }
    }
  }

  lemma NoSteps(env: Env, s: Insts)
    ensures Steps(env, s, []) == s
  {
  }

  /** Records as moves leave them never plan too much, and plan enough only if all caches are right. */
  lemma {:induction false} PlannedWhen(ds: seq<Data>)
    requires (forall d :: d in ds ==> Sane(d)) && |ListBytes(ds)| < WORD32
    ensures SumCachedSizes(ds) + 4 <= |ListBytes(ds)|
    ensures SumCachedSizes(ds) + 4 == |ListBytes(ds)| <==> AllExact(ds)
  {
    hide Sane, Exact, DataBytes, ListBytes;
    ListLength(ds);
    if ds != [] {
      var n := |ds| - 1;
      ListLength(ds[..n]);
      PlannedWhen(ds[..n]);
      assert ds[n] in ds;
      CachedWhen(ds[n]);
      assert ds == ds[..n] + [ds[n]];
    }
  }

  lemma CachedWhen(d: Data)
    requires Sane(d)
    ensures d.size <= |DataBytes(d)| && (d.size == |DataBytes(d)| <==> Exact(d))
  {
    hide DataBytes, FuncsBytes;
  }

  /** So a wrong cached size among the libs overruns the buffer they are packed into. */
  lemma OverrunWhen(libs: seq<Data>, apps: seq<Data>)
    requires (forall d :: d in libs ==> Sane(d)) && |ListBytes(libs)| < WORD32
    ensures |ListBytes(libs)| <= Planned(libs) <==> AllExact(libs)
    ensures Packable(libs, apps) <==> AllExact(libs) && PayloadSize(libs, apps) < WORD32
  {
    hide Sane, Exact, DataBytes, ListBytes, SumCachedSizes, Times;
    PlannedWhen(libs);
    U32Small(SumCachedSizes(libs) + 4);
  }

  // ------------------------------------------------------------ what an addition does

  /** How often key is sent and not yet installed: what an addition should bring. */
  function New(cur: seq<Data>, sent: seq<Data>, key: Key): nat {
    if Installed(cur, key) then 0 else ListCount(sent, key)
  }

  lemma {:induction false} CountedIsThere(ds: seq<Data>, key: Key)
    ensures ListCount(ds, key) > 0 ==>
      exists i :: 0 <= i < |ds| && ds[i].head.path == key.path && Count(ds[i].probes, key) > 0
    ensures Installed(ds, key) ==> ListCount(ds, key) > 0
  {
    if ds != [] {
      CountedIsThere(ds[1..], key);
      if ds[0].head.path == key.path {
        assert Installed(ds, key) ==> Count(ds[0].probes, key) > 0;
      } else if Installed(ds, key) {
        InstalledBehind(ds, key);
      }
      if ListCount(ds, key) > 0 && ListCount(ds[1..], key) > 0 {
        var i :| 0 <= i < |ds[1..]| && ds[1..][i].head.path == key.path && Count(ds[1..][i].probes, key) > 0;
        assert ds[i + 1] == ds[1..][i];
      }
    }
  }

  lemma InstalledBehind(ds: seq<Data>, key: Key)
    requires ds != [] && ds[0].head.path != key.path
    ensures Installed(ds, key) <==> Installed(ds[1..], key)
  {
    if Installed(ds, key) {
      var i :| 0 <= i < |ds| && ds[i].head.path == key.path && Count(ds[i].probes, key) > 0
               && forall j :: 0 <= j < i ==> ds[j].head.path != key.path;
      assert ds[1..][i - 1] == ds[i];
    }
    if Installed(ds[1..], key) {
      var i :| 0 <= i < |ds[1..]| && ds[1..][i].head.path == key.path && Count(ds[1..][i].probes, key) > 0
               && forall j :: 0 <= j < i ==> ds[1..][j].head.path != key.path;
      assert ds[i + 1] == ds[1..][i];
      assert forall j :: 0 < j < i + 1 ==> ds[j] == ds[1..][j - 1];
    }
  }

  /** A lookup in joined lists ends in the first one if that has the path. */
  lemma {:induction false} InstalledInJoined(a: seq<Data>, b: seq<Data>, key: Key)
    ensures Installed(a + b, key)
       <==> if (forall d :: d in a ==> d.head.path != key.path) then Installed(b, key) else Installed(a, key)
  {
    hide Installed;
    if a == [] {
      assert a + b == b;
    } else {
      assert (a + b)[1..] == a[1..] + b;
      if a[0].head.path == key.path {
        InstalledFirst(a, key);
        InstalledFirst(a + b, key);
      } else {
        InstalledInJoined(a[1..], b, key);
        InstalledBehind(a, key);
        InstalledBehind(a + b, key);
        HeadAndTail(a);
      }
    }
  }

  lemma InstalledFirst(ds: seq<Data>, key: Key)
    requires ds != [] && ds[0].head.path == key.path
    ensures Installed(ds, key) <==> Count(ds[0].probes, key) > 0
  {
  }

  lemma DistinctIsInstalled(ds: seq<Data>, key: Key)
    requires DistinctPaths(ds) && ListCount(ds, key) > 0
    ensures Installed(ds, key)
  {
    hide DistinctPaths;
    CountedIsThere(ds, key);
    var i :| 0 <= i < |ds| && ds[i].head.path == key.path && Count(ds[i].probes, key) > 0;
    EarlierDiffer(ds, i);
  }

  lemma EarlierDiffer(ds: seq<Data>, i: nat)
    requires DistinctPaths(ds) && i < |ds|
    ensures forall j :: 0 <= j < i ==> ds[j].head.path != ds[i].head.path
  {
  }

  /** What is sent to the driver for an addition and what it does to the installed libs. */
  lemma AddCounts(env: Env, s: Insts, b: Message, key: Key)
    requires Sound(env.machine, s) && Accepted(env, Add(b))
    ensures var sent := Sent(env, false, b); var more := DriverLibs(env, s, Add(b));
      && ListCount(more, key) == (if Installed(sent + s.libs, key) then 0 else ListCount(s.left, key))
      && ListCount(Step(env, s, Add(b)).libs, key)
           == ListCount(sent, key) + ListCount(s.libs, key) + ListCount(more, key)
  {
    hide PathHash, ResolveAdd, Move, GetList, Sent, ListCount, Installed;
    var sent, m := Sent(env, false, b), env.machine;
    SentProper(env, false, b);
    AddExactly(m, sent + s.libs, s.left, key);
    MoveConserves(sent + s.libs, DriverLibs(env, s, Add(b)), key);
    ListCountConcat(sent, s.libs, key);
  }

  /** The driver learns of the new probes of an addition exactly when, for a key that is installed, nothing
      left over is new, and for another, it is sent as often as what is left over and new has it. */
  lemma AddTellsWhen(env: Env, s: Insts, b: Message, key: Key)
    requires Sound(env.machine, s) && Accepted(env, Add(b))
    ensures var sent := Sent(env, false, b);
      ListCount(DriverLibs(env, s, Add(b)), key) == New(s.libs, sent, key) <==>
        if Installed(s.libs, key) then ListCount(s.left, key) > 0 ==> Installed(sent + s.libs, key)
        else ListCount(sent, key) == if Installed(sent + s.libs, key) then 0 else ListCount(s.left, key)
  {
    hide DriverLibs, Sent, Sound, Accepted, Installed, DistinctPaths;
    AddCounts(env, s, b, key);
  }

  /** For a message that names a path once, or with nothing left over, that is when nothing that is sent is
      new and nothing left over is either. */
  lemma AddTellsNothingNew(env: Env, s: Insts, b: Message, key: Key)
    requires Sound(env.machine, s) && Accepted(env, Add(b))
    requires s.left == [] || DistinctPaths(Sent(env, false, b))
    ensures var sent := Sent(env, false, b);
      ListCount(DriverLibs(env, s, Add(b)), key) == New(s.libs, sent, key) <==>
        && (ListCount(sent, key) > 0 ==> Installed(s.libs, key))
        && (ListCount(s.left, key) > 0 ==> Installed(sent + s.libs, key))
  {
    hide DriverLibs, Sent, Sound, Accepted, Installed, DistinctPaths;
    var sent := Sent(env, false, b);
    AddTellsWhen(env, s, b, key);
    InstalledInJoined(sent, s.libs, key);
    CountedIsThere(sent, key);
    if s.left != [] && ListCount(sent, key) > 0 {
      DistinctIsInstalled(sent, key);
    }
  }

  /** The installed probes grow by exactly the new ones when all that is sent is new and nothing left
      over is. */
  lemma AddInstallsWhen(env: Env, s: Insts, b: Message, key: Key)
    requires Sound(env.machine, s) && Accepted(env, Add(b))
    ensures var sent := Sent(env, false, b);
      ListCount(Step(env, s, Add(b)).libs, key) == ListCount(s.libs, key) + New(s.libs, sent, key) <==>
        && (ListCount(sent, key) > 0 ==> !Installed(s.libs, key))
        && (ListCount(s.left, key) > 0 ==> Installed(sent + s.libs, key))
  {
    hide DriverLibs, Step, Sent, Sound, Accepted, Installed;
    AddCounts(env, s, b, key);
  }

  /** What an addition is for: the driver learns of the new probes, and they come to the installed ones. */
  predicate Serves(env: Env, s: Insts, b: Message, key: Key) {
    var added := New(s.libs, Sent(env, false, b), key);
    && ListCount(DriverLibs(env, s, Add(b)), key) == added
    && ListCount(Step(env, s, Add(b)).libs, key) == ListCount(s.libs, key) + added
  }

  /** With nothing left over, an addition does so only if it names no probe at all. */
  lemma AddServesWhen(env: Env, s: Insts, b: Message)
    requires Sound(env.machine, s) && Accepted(env, Add(b)) && s.left == []
    ensures (forall key :: Serves(env, s, b, key)) <==> forall d :: d in Sent(env, false, b) ==> d.probes == []
  {
    hide DriverLibs, Step, Sent, Sound, Accepted, Installed, New;
    var sent := Sent(env, false, b);
    forall key
      ensures Serves(env, s, b, key) <==> ListCount(sent, key) == 0
    {
      AddTellsNothingNew(env, s, b, key);
      AddInstallsWhen(env, s, b, key);
    }
    if forall d :: d in sent ==> d.probes == [] {
      forall key
        ensures Serves(env, s, b, key)
      {
        NoProbes(sent, key);
      }
    } else {
      var k :| 0 <= k < |sent| && sent[k].probes != [];
      var f := sent[k].probes[0];
      ProbeCounts(sent, k, Key(sent[k].head.path, f.addr, f.args));
      assert !Serves(env, s, b, Key(sent[k].head.path, f.addr, f.args));
    }
  }

  lemma {:induction false} NoProbes(ds: seq<Data>, key: Key)
    requires forall d :: d in ds ==> d.probes == []
    ensures ListCount(ds, key) == 0
  {
    if ds != [] {
      NoProbes(ds[1..], key);
    }
  }

  lemma ProbeCounts(ds: seq<Data>, k: nat, key: Key)
    requires k < |ds| && ds[k].probes != [] && ds[k].head.path == key.path && Is(ds[k].probes[0], key)
    ensures ListCount(ds, key) > 0
  {
    ListCountWithout(ds, k, key);
  }

  // ---------------------------------------------------------- distinct paths

  predicate NoCommonPath(a: seq<Data>, b: seq<Data>) {
    forall d, e :: d in a && e in b ==> d.head.path != e.head.path
  }

  lemma DistinctJoined(a: seq<Data>, b: seq<Data>)
    ensures DistinctPaths(a + b) <==> DistinctPaths(a) && DistinctPaths(b) && NoCommonPath(a, b)
  {
    var c := a + b;
    if DistinctPaths(c) {
      forall d, e | d in a && e in b
        ensures d.head.path != e.head.path
      {
        var i :| 0 <= i < |a| && a[i] == d;
        var j :| 0 <= j < |b| && b[j] == e;
        assert c[i] == d && c[|a| + j] == e;
      }
      assert forall i :: 0 <= i < |b| ==> b[i] == c[|a| + i];
      assert forall i :: 0 <= i < |a| ==> a[i] == c[i];
    }
  }

  lemma {:induction false} MoveKeepsOldPaths(to: seq<Data>, from: seq<Data>)
    requires DistinctPaths(Move(to, from))
    ensures DistinctPaths(to)
    decreases |from|
  {
    hide DistinctPaths;
    if from != [] {
      MoveKeepsOldPaths(MoveLib(to, from[0]), from[1..]);
      MoveLibKeepsOldPaths(to, from[0]);
    }
  }

  lemma MoveLibKeepsOldPaths(to: seq<Data>, d: Data)
    requires DistinctPaths(MoveLib(to, d))
    ensures DistinctPaths(to)
  {
    hide U32;
    var k, now := Find(to, d), MoveLib(to, d);
    if k < |to| && d.probes != [] {
      assert forall i :: 0 <= i < |to| ==> now[i].head == to[i].head;
    } else {
      assert forall i :: 0 <= i < |to| ==> now[i + 1] == to[i];
    }
  }

  lemma {:induction false} RmKeepsPaths(m: Machine, r: Removal, ds: seq<Data>)
    requires DistinctPaths(r.cur) && AllHashed(m, r.cur)
    ensures DistinctPaths(RmLibs(r, ds).cur)
    decreases |ds|
  {
    hide DistinctPaths, RmLib;
    if ds != [] {
      RmLibPaths(m, r, ds[0]);
      RmKeepsPaths(m, RmLib(r, ds[0]), ds[1..]);
    }
  }

  lemma SoundIsHashed(m: Machine, isApp: bool, ds: seq<Data>)
    requires AllProper(m, isApp, ds)
    ensures AllHashed(m, ds)
  {
    hide PathHash;
    assert forall d :: d in ds ==> Proper(m, isApp, d);
  }

  /** The installed libs go on having distinct paths exactly as long as no addition, accepted or not,
      names a path twice or one that is installed. */
  lemma PathsDistinctWhen(env: Env, s: Insts, c: Command)
    requires Sound(env.machine, s) && Safe(env, s, c) && DistinctPaths(s.libs)
    ensures DistinctPaths(Step(env, s, c).libs)
       <==> (c.Add? ==> DistinctPaths(Sent(env, false, c.body)) && NoCommonPath(Sent(env, false, c.body), s.libs))
  {
    hide DistinctPaths, NoCommonPath, AllProper, AllHashed, Sent, GetList, Packable, ResolveAdd, Move, MoveSafe, RmLibs;
    var m := env.machine;
    SoundIsHashed(m, false, s.libs);
    match c
    case Start(b) =>
    case Add(b) =>
      var sent, cur, more := Sent(env, false, b), Sent(env, false, b) + s.libs, DriverLibs(env, s, c);
      DistinctJoined(sent, s.libs);
      if Accepted(env, c) {
        SentProper(env, false, b);
        ProperConcat(m, false, sent, s.libs);
        StepSound(env, s, c);
        SoundIsHashed(m, false, cur);
        SoundIsHashed(m, false, more);
        if DistinctPaths(cur) {
          MoveKeepsPathsDistinct(m, cur, more);
        }
        if DistinctPaths(Move(cur, more)) {
          MoveKeepsOldPaths(cur, more);
        }
      }
    case Remove(b) =>
      RmKeepsPaths(m, Removal(s.libs, [], []), Sent(env, false, b) + s.left);
    case Stop =>
  }

  /** As long as they have, a removal takes exactly what it names, with what was left over, and the driver
      is told of just that. */
  lemma RemoveTakes(env: Env, s: Insts, b: Message, key: Key)
    requires Sound(env.machine, s) && Accepted(env, Remove(b))
    requires DistinctPaths(s.libs) && DistinctPaths(Sent(env, false, b) + s.left)
    ensures var asked, now := Sent(env, false, b) + s.left, Step(env, s, Remove(b));
      && (forall i :: 0 <= i < |asked| && asked[i].head.path == key.path ==>
            ListCount(now.libs, key) == Left(ListCount(s.libs, key), asked[i], key))
      && ((forall d :: d in asked ==> d.head.path != key.path) ==> ListCount(now.libs, key) == ListCount(s.libs, key))
      && ListCount(DriverLibs(env, s, Remove(b)), key) + ListCount(now.libs, key) == ListCount(s.libs, key)
  {
    hide DistinctPaths, AllProper, AllHashed, Sent, GetList, ListCount, ResolveRm;
    var m, asked := env.machine, Sent(env, false, b) + s.left;
    SoundIsHashed(m, false, s.libs);
    SentProper(env, false, b);
    ProperConcat(m, false, Sent(env, false, b), s.left);
    SoundIsHashed(m, false, asked);
    RmExactly(m, s.libs, asked, key);
    RmConserves(s.libs, asked, key);
  }
}
