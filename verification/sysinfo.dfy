// The payload of a system info message, its length computed beforehand and what a reader makes of
// it (daemon/sys_stat.c:2217-2371), as values.

module SysInfo {
  import opened Words
  import opened Wire
  import opened RoundTrip

  const FL_SYSTEM_CPU: uint64 := 0x10_0000_0000
  const FL_SYSTEM_MEMORY: uint64 := 0x20_0000_0000
  const FL_SYSTEM_PROCESS: uint64 := 0x40_0000_0000
  const FL_SYSTEM_THREAD_LOAD: uint64 := 0x80_0000_0000
  const FL_SYSTEM_PROCESSES_LOAD: uint64 := 0x100_0000_0000

  /** Whether a feature, a power of two, is set. */
  predicate IsSet(features: uint64, f: uint64)
    requires f > 0
  {
    features / f % 2 == 1
  }

  /** Among the bits of a word: what is below the bit is less than it, what is above is a multiple of twice it. */
  lemma IsSetWhen(features: uint64, f: uint64, above: nat, below: nat)
    requires below < f
    ensures features == above * (2 * f) + f + below ==> IsSet(features, f)
    ensures features == above * (2 * f) + below ==> !IsSet(features, f)
  {
    var q: int := if features == above * (2 * f) + f + below then 2 * above + 1 else 2 * above;
    assert (2 * above + 1) * f == above * (2 * f) + f;
    if features == q * f + below {
      Quotient(features, f, q, below);
    }
  }

  lemma Quotient(x: nat, f: nat, q: nat, r: nat)
    requires x == q * f + r && r < f
    ensures x / f == q
  {
    var d, e := x / f, x % f;
    assert x == f * d + e;
    OneQuotient(f, d, e, q, r);
  }

  lemma OneQuotient(f: nat, d: nat, e: nat, q: nat, r: nat)
    requires f * d + e == q * f + r && e < f && r < f
    ensures d == q
  {
    if d < q {
      Larger(f, d, q);
    } else if d > q {
      Larger(f, q, d);
    }
  }

  lemma Larger(f: nat, a: nat, b: nat)
    requires a < b
    ensures f * b >= f * a + f
  {
    var c := b - a - 1;
    assert f * b == f * a + f + f * c;
  }

  /** A pid and its load. */
  datatype Load = Load(pid: uint32, load: uint32)

  datatype Inst = Inst(id: Load, virMem: uint64, resMem: uint64, shMem: uint64, pss: uint64, alloc: uint64,
                       threads: seq<Load>)

  /** 27 words follow the processes: drive and disk, network, device states, energy. */
  const FIELDS: nat := 27

  datatype Payload = Payload(cpu: seq<uint32>, memory: uint64, insts: seq<Inst>, others: seq<Load>,
                             fields: seq<uint32>)

  // --------------------------------------------------------------- bytes

  function LoadBytes(l: Load): (b: seq<byte>)
    ensures |b| == 8
  {
    LE32(l.pid) + LE32(l.load)
  }

  function LoadsBytes(ls: seq<Load>): seq<byte> {
    ConcatMap(LoadBytes, ls)
  }

  function InstHeadBytes(p: Inst): (b: seq<byte>)
    ensures |b| == 48
  {
    LoadBytes(p.id) + LE64(p.virMem) + LE64(p.resMem) + LE64(p.shMem) + LE64(p.pss) + LE64(p.alloc)
  }

  function InstBytes(p: Inst): seq<byte> {
    InstHeadBytes(p) + LE32(U32(|p.threads|)) + LoadsBytes(p.threads)
  }

  function InstsBytes(ps: seq<Inst>): seq<byte> {
    ConcatMap(InstBytes, ps)
  }

  function WordsBytes(ws: seq<uint32>): seq<byte> {
    ConcatMap(LE32, ws)
  }

  function PayloadBytes(p: Payload): seq<byte> {
    WordsBytes(p.cpu) + LE64(p.memory)
    + LE32(U32(|p.insts|)) + InstsBytes(p.insts)
    + LE32(U32(|p.others|)) + LoadsBytes(p.others)
    + WordsBytes(p.fields)
  }

  // --------------------------------------------------------------- length

  /** How the C compiler lays out struct system_info_t and struct inst_process_info_t: 64-bit
      members are aligned to 8 bytes, or to 4 as on 32-bit x86. */
  datatype Abi = Align8 | Align4

  /** sizeof(struct system_info_t) less its two pointers. */
  function FixedSize(abi: Abi): nat {
    match abi case Align8 => 144 case Align4 => 136
  }

  /** sizeof(struct inst_process_info_t). */
  function InstSize(abi: Abi): nat {
    match abi case Align8 => 56 case Align4 => 52
  }

  /** The next multiple of 4 or 8. */
  function Up(x: nat, a: nat): nat {
    if a == 8 then x + (8 - x % 8) % 8 else x + (4 - x % 4) % 4
  }

  /** Where the last of these members ends; each is aligned to its size, but none to more than most. */
  function EndOf(members: seq<nat>, most: nat): nat {
    if members == [] then 0
    else
      var n := |members| - 1;
      Up(EndOf(members[..n], most), if members[n] < most then members[n] else most) + members[n]
  }

  lemma EndOfNext(members: seq<nat>, w: nat, most: nat)
    ensures EndOf(members + [w], most) == Up(EndOf(members, most), if w < most then w else most) + w
  {
    hide Up;
    assert (members + [w])[..|members|] == members;
  }

  function Same(n: nat, w: nat): (ws: seq<nat>)
    ensures |ws| == n && forall i :: 0 <= i < n ==> ws[i] == w
  {
    seq(n, i => w)
  }

  predicate Multiple(x: nat, w: nat) {
    if w == 8 then x % 8 == 0 else x % 4 == 0
  }

  lemma UpStays(x: nat, w: nat, most: nat)
    requires (w == 4 || w == 8) && (most == 4 || most == 8) && Multiple(x, w)
    ensures Up(x, if w < most then w else most) == x && Multiple(x + w, w)
  {
  }

  lemma {:induction false} EndOfSame(members: seq<nat>, n: nat, w: nat, most: nat)
    requires (w == 4 || w == 8) && (most == 4 || most == 8) && Multiple(EndOf(members, most), w)
    ensures EndOf(members + Same(n, w), most) == EndOf(members, most) + w * n
    ensures Multiple(EndOf(members + Same(n, w), most), w)
  {
    hide EndOf, Up;
    if n == 0 {
      assert members + Same(0, w) == members;
    } else {
      EndOfSame(members, n - 1, w, most);
      EndOfNext(members + Same(n - 1, w), w, most);
      UpStays(EndOf(members + Same(n - 1, w), most), w, most);
      assert w * n == w * (n - 1) + w;
      assert members + Same(n - 1, w) + [w] == members + Same(n, w);
    }
  }

  /** The members of struct system_info_t are two pointers, a word, 64 bits and 31 words, those of struct
      inst_process_info_t two words, five times 64 bits and a word. Laid out in order, and as a whole aligned like
      their 64-bit members, they have these sizes, whatever the size of a pointer. */
  lemma Sizes(abi: Abi, pointer: nat)
    requires pointer == 4 || (pointer == 8 && abi.Align8?)
    ensures var most := match abi case Align8 => 8 case Align4 => 4;
      && Up(EndOf([pointer, pointer, 4, 8] + Same(31, 4), most), most) == FixedSize(abi) + 2 * pointer
      && Up(EndOf([4, 4] + Same(5, 8) + [4], most), most) == InstSize(abi)
  {
    hide EndOf;
    var most := match abi case Align8 => 8 case Align4 => 4;
    HeadEnds(pointer, most);
    InstEnds(most);
    EndOfSame([pointer, pointer, 4, 8], 31, 4, most);
  }

  lemma HeadEnds(p: nat, most: nat)
    requires (p == 4 && (most == 4 || most == 8)) || p == most == 8
    ensures EndOf([p, p, 4, 8], most) == if p == 8 then 32 else if most == 8 then 24 else 20
  {
    hide EndOf, Up;
    PointersEnd(p, most);
    EndOfNext([p, p], 4, most);
    EndOfNext([p, p, 4], 8, most);
    assert [p, p] + [4] == [p, p, 4] && [p, p, 4] + [8] == [p, p, 4, 8];
    UpIs(2 * p);
    UpIs(2 * p + 4);
  }

  lemma UpIs(x: nat)
    ensures x % 4 == 0 ==> Up(x, 4) == x
    ensures x % 8 == 0 ==> Up(x, 8) == x
    ensures x % 8 == 4 ==> Up(x, 8) == x + 4
  {
  }

  lemma PointersEnd(p: nat, most: nat)
    requires (p == 4 && (most == 4 || most == 8)) || p == most == 8
    ensures EndOf([p, p], most) == 2 * p
  {
    hide EndOf, Up;
    NoMembers(most);
    EndOfNext([], p, most);
    EndOfNext([p], p, most);
    assert [] + [p] == [p] && [p] + [p] == [p, p];
    UpIs(0);
    UpIs(p);
  }

  lemma NoMembers(most: nat)
    ensures EndOf([], most) == 0
  {
  }

  lemma InstEnds(most: nat)
    requires most == 4 || most == 8
    ensures EndOf([4, 4] + Same(5, 8) + [4], most) == 52
  {
    hide EndOf;
    NoMembers(most);
    EndOfNext([], 4, most);
    EndOfNext([4], 4, most);
    assert [] + [4] == [4] && [4] + [4] == [4, 4];
    assert EndOf([4, 4], most) == 8;
    EndOfSame([4, 4], 5, 8, most);
    EndOfNext([4, 4] + Same(5, 8), 4, most);
  }

  function TotalThreads(ps: seq<Inst>): nat {
    if ps == [] then 0 else TotalThreads(ps[..|ps| - 1]) + |ps[|ps| - 1].threads|
  }

  /** msg_data_payload_length without wrap-around, for these counts. */
  function PlannedLength(abi: Abi, cpus: nat, features: uint64, insts: nat, others: nat, threads: nat): nat {
    FixedSize(abi) + 8 * cpus
    + (if IsSet(features, FL_SYSTEM_THREAD_LOAD) then 8 * threads else 0)
    + (if IsSet(features, FL_SYSTEM_PROCESS) then InstSize(abi) * insts else 0)
    + (if IsSet(features, FL_SYSTEM_PROCESSES_LOAD) then 8 * others else 0)
  }

  lemma {:induction false} LoadsLength(ls: seq<Load>)
    ensures |LoadsBytes(ls)| == 8 * |ls|
  {
    if ls != [] {
      LoadsLength(ls[..|ls| - 1]);
    }
  }

  lemma {:induction false} WordsLength(ws: seq<uint32>)
    ensures |WordsBytes(ws)| == 4 * |ws|
  {
    if ws != [] {
      WordsLength(ws[..|ws| - 1]);
    }
  }

  lemma {:induction false} InstsLength(ps: seq<Inst>)
    ensures |InstsBytes(ps)| == 52 * |ps| + 8 * TotalThreads(ps)
  {
    if ps != [] {
      InstsLength(ps[..|ps| - 1]);
      LoadsLength(ps[|ps| - 1].threads);
    }
  }

  lemma PayloadLength(p: Payload)
    ensures |PayloadBytes(p)|
         == 4 * |p.cpu| + 16 + 52 * |p.insts| + 8 * TotalThreads(p.insts) + 8 * |p.others| + 4 * |p.fields|
  {
    WordsLength(p.cpu);
    InstsLength(p.insts);
    LoadsLength(p.others);
    WordsLength(p.fields);
  }

  // --------------------------------------------------------------- reading

  function GetLoad(b: Message): (r: Parsed<Load>)
    ensures r.Done? ==> |r.rest| < |b|
  {
    var (pid, b1) :- GetInt32(b);
    var (load, b2) :- GetInt32(b1);
    Done(Load(pid, load), b2)
  }

  function GetLoads(n: nat, b: Message): (r: Parsed<seq<Load>>)
    ensures r.Done? ==> |r.rest| <= |b|
  {
    if n == 0 then Done([], b)
    else
      var (l, b1) :- GetLoad(b);
      var (more, b2) :- GetLoads(n - 1, b1);
      Done([l] + more, b2)
  }

  function GetInst(b: Message): (r: Parsed<Inst>)
    ensures r.Done? ==> |r.rest| <= |b|
  {
    var (id, b1) :- GetLoad(b);
    var (vir, b2) :- GetInt64(b1);
    var (res, b3) :- GetInt64(b2);
    var (sh, b4) :- GetInt64(b3);
    var (pss, b5) :- GetInt64(b4);
    var (alloc, b6) :- GetInt64(b5);
    var (n, b7) :- GetInt32(b6);
    var (threads, b8) :- GetLoads(n, b7);
    Done(Inst(id, vir, res, sh, pss, alloc, threads), b8)
  }

  function GetInsts(n: nat, b: Message): (r: Parsed<seq<Inst>>)
    ensures r.Done? ==> |r.rest| <= |b|
  {
    if n == 0 then Done([], b)
    else
      var (p, b1) :- GetInst(b);
      var (more, b2) :- GetInsts(n - 1, b1);
      Done([p] + more, b2)
  }

  function GetWords(n: nat, b: Message): (r: Parsed<seq<uint32>>)
    ensures r.Done? ==> |r.rest| <= |b|
  {
    if n == 0 then Done([], b)
    else
      var (w, b1) :- GetInt32(b);
      var (more, b2) :- GetWords(n - 1, b1);
      Done([w] + more, b2)
  }

  /** A reader knows the number of CPUs; unused bytes are left over. */
  function GetPayload(cpus: nat, b: Message): Parsed<Payload> {
    var (cpu, b1) :- GetWords(2 * cpus, b);
    var (memory, b2) :- GetInt64(b1);
    var (n, b3) :- GetInt32(b2);
    var (insts, b4) :- GetInsts(n, b3);
    var (m, b5) :- GetInt32(b4);
    var (others, b6) :- GetLoads(m, b5);
    var (fields, b7) :- GetWords(FIELDS, b6);
    Done(Payload(cpu, memory, insts, others, fields), b7)
  }

  // --------------------------------------------------------------- round trip

  lemma GetLoadWritten(l: Load, rest: seq<byte>)
    requires 8 + |rest| < WORD32
    ensures GetLoad(LoadBytes(l) + rest) == Done(l, rest)
  {
    hide GetInt32, LE32;
    Assoc(LE32(l.pid), LE32(l.load), rest);
    GetInt32Written(l.pid, LE32(l.load) + rest);
    GetInt32Written(l.load, rest);
  }

  lemma {:induction false} GetLoadsWritten(ls: seq<Load>, rest: seq<byte>)
    requires |LoadsBytes(ls)| + |rest| < WORD32
    ensures GetLoads(|ls|, LoadsBytes(ls) + rest) == Done(ls, rest)
  {
    if ls == [] {
      assert LoadsBytes(ls) + rest == rest;
    } else {
      hide GetLoad, LoadBytes;
      HeadAndTail(ls);
      ConcatMapConcat(LoadBytes, [ls[0]], ls[1..]);
      ConcatMapOne(LoadBytes, ls[0]);
      Assoc(LoadBytes(ls[0]), LoadsBytes(ls[1..]), rest);
      GetLoadWritten(ls[0], LoadsBytes(ls[1..]) + rest);
      GetLoadsWritten(ls[1..], rest);
    }
  }

  lemma {:induction false} GetWordsWritten(ws: seq<uint32>, rest: seq<byte>)
    requires |WordsBytes(ws)| + |rest| < WORD32
    ensures GetWords(|ws|, WordsBytes(ws) + rest) == Done(ws, rest)
  {
    if ws == [] {
      assert WordsBytes(ws) + rest == rest;
    } else {
      hide GetInt32, LE32;
      HeadAndTail(ws);
      ConcatMapConcat(LE32, [ws[0]], ws[1..]);
      ConcatMapOne(LE32, ws[0]);
      Assoc(LE32(ws[0]), WordsBytes(ws[1..]), rest);
      GetInt32Written(ws[0], WordsBytes(ws[1..]) + rest);
      GetWordsWritten(ws[1..], rest);
    }
  }

  lemma GetInstWritten(p: Inst, rest: seq<byte>)
    requires |InstBytes(p)| + |rest| < WORD32
    ensures GetInst(InstBytes(p) + rest) == Done(p, rest)
  {
    hide GetLoad, GetInt32, GetInt64, GetLoads, LE32, LE64, LoadBytes, ConcatMap;
    LoadsLength(p.threads);
    U32Small(|p.threads|);
    var b7 := LoadsBytes(p.threads) + rest;
    var b6 := LE32(|p.threads|) + b7;
    var b5 := LE64(p.alloc) + b6;
    var b4 := LE64(p.pss) + b5;
    var b3 := LE64(p.shMem) + b4;
    var b2 := LE64(p.resMem) + b3;
    var b1 := LE64(p.virMem) + b2;
    assert InstBytes(p) + rest == LoadBytes(p.id) + b1;
    GetLoadWritten(p.id, b1);
    GetInt64Written(p.virMem, b2);
    GetInt64Written(p.resMem, b3);
    GetInt64Written(p.shMem, b4);
    GetInt64Written(p.pss, b5);
    GetInt64Written(p.alloc, b6);
    GetInt32Written(|p.threads|, b7);
    GetLoadsWritten(p.threads, rest);
  }

  lemma {:induction false} GetInstsWritten(ps: seq<Inst>, rest: seq<byte>)
    requires |InstsBytes(ps)| + |rest| < WORD32
    ensures GetInsts(|ps|, InstsBytes(ps) + rest) == Done(ps, rest)
  {
    if ps == [] {
      assert InstsBytes(ps) + rest == rest;
    } else {
      hide GetInst, InstBytes;
      HeadAndTail(ps);
      ConcatMapConcat(InstBytes, [ps[0]], ps[1..]);
      ConcatMapOne(InstBytes, ps[0]);
      Assoc(InstBytes(ps[0]), InstsBytes(ps[1..]), rest);
      GetInstWritten(ps[0], InstsBytes(ps[1..]) + rest);
      GetInstsWritten(ps[1..], rest);
    }
  }

  /** The payload decodes to what was packed, whatever bytes follow it. */
  lemma PayloadDecodes(p: Payload, cpus: nat, rest: seq<byte>)
    requires |p.cpu| == 2 * cpus && |p.fields| == FIELDS && |PayloadBytes(p)| + |rest| < WORD32
    ensures GetPayload(cpus, PayloadBytes(p) + rest) == Done(p, rest)
  {
    hide GetInt32, GetInt64, GetLoads, GetInsts, GetWords, LE32, LE64, ConcatMap;
    InstsLength(p.insts);
    LoadsLength(p.others);
    U32Small(|p.insts|);
    U32Small(|p.others|);
    var b6 := WordsBytes(p.fields) + rest;
    var b5 := LoadsBytes(p.others) + b6;
    var b4 := LE32(|p.others|) + b5;
    var b3 := InstsBytes(p.insts) + b4;
    var b2 := LE32(|p.insts|) + b3;
    var b1 := LE64(p.memory) + b2;
    assert PayloadBytes(p) + rest == WordsBytes(p.cpu) + b1;
    GetWordsWritten(p.cpu, b1);
    GetInt64Written(p.memory, b2);
    GetInt32Written(|p.insts|, b3);
    GetInstsWritten(p.insts, b4);
    GetInt32Written(|p.others|, b5);
    GetLoadsWritten(p.others, b6);
    GetWordsWritten(p.fields, rest);
  }
}
