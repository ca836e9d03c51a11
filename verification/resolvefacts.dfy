// What collision resolution and the move guarantee about the probes a list holds. Lists are
// compared as multisets: by the number of times each key occurs.

module ResolveFacts {
  import opened Words
  import opened Records
  import opened Resolve

  /** What identifies an installed probe. */
  datatype Key = Key(path: CString, addr: uint64, args: CString)

  predicate Is(f: Func, key: Key) {
    f.addr == key.addr && f.args == key.args
  }

  /** How often key occurs among the probes of one record. */
  function Count(fs: seq<Func>, key: Key): nat {
    if fs == [] then 0 else (if Is(fs[0], key) then 1 else 0) + Count(fs[1..], key)
  }

  function DataCount(d: Data, key: Key): nat {
    if d.head.path == key.path then Count(d.probes, key) else 0
  }

  /** How often key occurs in a list of records. */
  function ListCount(ds: seq<Data>, key: Key): nat {
    if ds == [] then 0 else DataCount(ds[0], key) + ListCount(ds[1..], key)
  }

  // -------------------------------------------------------- sums over pieces

  lemma {:induction false} CountConcat(a: seq<Func>, b: seq<Func>, key: Key)
    ensures Count(a + b, key) == Count(a, key) + Count(b, key)
  {
    if a == [] {
      assert a + b == b;
    } else {
      CountConcat(a[1..], b, key);
      assert (a + b)[1..] == a[1..] + b;
    }
  }

  lemma {:induction false} ListCountConcat(a: seq<Data>, b: seq<Data>, key: Key)
    ensures ListCount(a + b, key) == ListCount(a, key) + ListCount(b, key)
  {
    if a == [] {
      assert a + b == b;
    } else {
      ListCountConcat(a[1..], b, key);
      assert (a + b)[1..] == a[1..] + b;
    }
  }

  lemma {:induction false} CountWithout(fs: seq<Func>, k: nat, key: Key)
    requires k < |fs|
    ensures Count(fs, key) == Count(Without(fs, k), key) + (if Is(fs[k], key) then 1 else 0)
  {
    if k == 0 {
      assert Without(fs, 0) == fs[1..];
    } else {
      CountWithout(fs[1..], k - 1, key);
      assert Without(fs, k)[1..] == Without(fs[1..], k - 1);
    }
  }

  lemma {:induction false} ListCountWithout(ds: seq<Data>, k: nat, key: Key)
    requires k < |ds|
    ensures ListCount(ds, key) == ListCount(Without(ds, k), key) + DataCount(ds[k], key)
  {
    if k == 0 {
      assert Without(ds, 0) == ds[1..];
    } else {
      ListCountWithout(ds[1..], k - 1, key);
      assert Without(ds, k)[1..] == Without(ds[1..], k - 1);
    }
  }

  lemma {:induction false} ListCountUpdate(ds: seq<Data>, k: nat, d: Data, key: Key)
    requires k < |ds|
    ensures ListCount(ds[k := d], key) + DataCount(ds[k], key) == ListCount(ds, key) + DataCount(d, key)
  {
    if k == 0 {
      assert ds[k := d][1..] == ds[1..];
    } else {
      ListCountUpdate(ds[1..], k - 1, d, key);
      assert ds[k := d][1..] == ds[1..][k - 1 := d];
    }
  }

  lemma {:induction false} HasIsCount(fs: seq<Func>, g: Func, key: Key)
    requires Is(g, key)
    ensures Has(fs, g) <==> Count(fs, key) > 0
  {
    if fs != [] && !SameProbe(fs[0], g) {
      HasIsCount(fs[1..], g, key);
    }
  }

  // ------------------------------------------------------------------ removal

  /** Taking gs out of fs leaves the multiset difference, and takes the intersection. */
  lemma {:induction false} TakeSplits(fs: seq<Func>, gs: seq<Func>, key: Key)
    ensures var t, have, want := Take(fs, gs), Count(fs, key), Count(gs, key);
      && Count(t.rest, key) == (if have > want then have - want else 0)
      && Count(t.taken, key) == (if have > want then want else have)
    decreases |gs|
  {
    if gs != [] {
      var k := FindFunc(fs, gs[0]);
      if k == |fs| {
        TakeSplits(fs, gs[1..], key);
        if Is(gs[0], key) {
          HasIsCount(fs, gs[0], key);
        }
      } else {
        TakeSplits(Without(fs, k), gs[1..], key);
        CountWithout(fs, k, key);
        var t := Take(Without(fs, k), gs[1..]);
        assert ([gs[0]] + t.taken)[1..] == t.taken;
      }
    }
  }

  function RemovalCount(r: Removal, key: Key): nat {
    ListCount(r.cur, key) + ListCount(r.moved, key) + ListCount(r.kept, key)
  }

  lemma RmLibConserves(r: Removal, d: Data, key: Key)
    ensures RemovalCount(RmLib(r, d), key) == RemovalCount(r, key)
  {
    hide Take, Without, SumSizes, U32, Find;
    var k := Find(r.cur, d);
    if k < |r.cur| {
      var c := r.cur[k];
      ListCountWithout(r.cur, k, key);
      if d.probes == [] {
        ListCountConcat([c], r.moved, key);
      } else {
        var t := Take(c.probes, d.probes);
        TakeSplits(c.probes, d.probes, key);
        ListCountConcat(r.kept, [WithProbes(d, t.taken)], key);
        ListCountUpdate(r.cur, k, WithProbes(c, t.rest), key);
      }
    }
  }

  lemma {:induction false} RmLibsConserves(r: Removal, ds: seq<Data>, key: Key)
    ensures RemovalCount(RmLibs(r, ds), key) == RemovalCount(r, key)
    decreases |ds|
  {
    if ds != [] {
      RmLibConserves(r, ds[0], key);
      RmLibsConserves(RmLib(r, ds[0]), ds[1..], key);
    }
  }

  /** No probe is lost or made up: what leaves the current list is what the removal message keeps. */
  lemma RmConserves(cur: seq<Data>, ds: seq<Data>, key: Key)
    ensures var r := ResolveRm(cur, ds);
      ListCount(r.cur, key) + ListCount(r.moved + r.kept, key) == ListCount(cur, key)
  {
    var r := ResolveRm(cur, ds);
    RmLibsConserves(Removal(cur, [], []), ds, key);
    ListCountConcat(r.moved, r.kept, key);
  }

  predicate DistinctPaths(ds: seq<Data>) {
    forall i, j :: 0 <= i < j < |ds| ==> ds[i].head.path != ds[j].head.path
  }

  lemma {:induction false} NoPathNoCount(ds: seq<Data>, key: Key)
    requires forall d :: d in ds ==> d.head.path != key.path
    ensures ListCount(ds, key) == 0
  {
    if ds != [] {
      NoPathNoCount(ds[1..], key);
    }
  }

  /** With distinct paths the one record with the key's path holds all its occurrences. */
  lemma CountAt(ds: seq<Data>, k: nat, key: Key)
    requires DistinctPaths(ds) && k < |ds| && ds[k].head.path == key.path
    ensures ListCount(ds, key) == Count(ds[k].probes, key)
  {
    ListCountWithout(ds, k, key);
    NoPathNoCount(Without(ds, k), key);
  }

  /** What removal leaves of the requested key: nothing if the whole record was asked for, else the
      occurrences beyond those asked for. */
  function Left(have: nat, d: Data, key: Key): nat {
    var want := Count(d.probes, key);
    if d.probes == [] || have <= want then 0 else have - want
  }

  lemma RmLibPaths(m: Machine, r: Removal, d: Data)
    requires DistinctPaths(r.cur) && AllHashed(m, r.cur)
    ensures DistinctPaths(RmLib(r, d).cur) && AllHashed(m, RmLib(r, d).cur)
  {
    hide Take, SumSizes, U32, PathHash, Without;
    var k := Find(r.cur, d);
    if k < |r.cur| {
      assert forall c :: c in Without(r.cur, k) ==> c in r.cur;
      assert forall i {:trigger Without(r.cur, k)[i]} :: 0 <= i < |r.cur| - 1 ==>
        Without(r.cur, k)[i].head == r.cur[if i < k then i else i + 1].head;
      assert r.cur[k] in r.cur;
    }
  }

  /** One request removes exactly what it names. */
  lemma RmLibExactly(m: Machine, r: Removal, d: Data, key: Key)
    requires DistinctPaths(r.cur) && AllHashed(m, r.cur) && d.hash == PathHash(m, d.head.path)
    ensures ListCount(RmLib(r, d).cur, key)
         == if d.head.path == key.path then Left(ListCount(r.cur, key), d, key) else ListCount(r.cur, key)
  {
    hide Take, Without, SumSizes, U32, Find, PathHash, DistinctPaths;
    FindIsByPath(m, r.cur, d);
    var k := Find(r.cur, d);
    if k == |r.cur| {
      if d.head.path == key.path {
        NoPathNoCount(r.cur, key);
      }
    } else {
      var c := r.cur[k];
      ListCountWithout(r.cur, k, key);
      if d.head.path == key.path {
        CountAt(r.cur, k, key);
      }
      if d.probes != [] {
        var t := Take(c.probes, d.probes);
        TakeSplits(c.probes, d.probes, key);
        ListCountUpdate(r.cur, k, WithProbes(c, t.rest), key);
      }
    }
  }

  lemma {:induction false} RmLibsElsewhere(m: Machine, r: Removal, ds: seq<Data>, key: Key)
    requires DistinctPaths(r.cur) && AllHashed(m, r.cur) && AllHashed(m, ds)
    requires forall d :: d in ds ==> d.head.path != key.path
    ensures ListCount(RmLibs(r, ds).cur, key) == ListCount(r.cur, key)
    decreases |ds|
  {
    hide RmLib, DistinctPaths;
    if ds != [] {
      RmLibExactly(m, r, ds[0], key);
      RmLibPaths(m, r, ds[0]);
      RmLibsElsewhere(m, RmLib(r, ds[0]), ds[1..], key);
    }
  }

  lemma {:induction false} RmLibsExactly(m: Machine, r: Removal, ds: seq<Data>, i: nat, key: Key)
    requires DistinctPaths(r.cur) && AllHashed(m, r.cur) && AllHashed(m, ds)
    requires DistinctPaths(ds) && i < |ds| && ds[i].head.path == key.path
    ensures ListCount(RmLibs(r, ds).cur, key) == Left(ListCount(r.cur, key), ds[i], key)
    decreases |ds|
  {
    hide RmLib;
    RmLibExactly(m, r, ds[0], key);
    RmLibPaths(m, r, ds[0]);
    if i == 0 {
      RmLibsElsewhere(m, RmLib(r, ds[0]), ds[1..], key);
    } else {
      assert ds[0].head.path != ds[i].head.path;
      RmLibsExactly(m, RmLib(r, ds[0]), ds[1..], i - 1, key);
    }
  }

  /** A removal message takes out exactly what it names: of a record asked for without probes
      everything, of other records the listed probes, and nothing of records it does not mention. */
  lemma RmExactly(m: Machine, cur: seq<Data>, ds: seq<Data>, key: Key)
    requires DistinctPaths(cur) && AllHashed(m, cur) && DistinctPaths(ds) && AllHashed(m, ds)
    ensures forall i :: 0 <= i < |ds| && ds[i].head.path == key.path ==>
      ListCount(ResolveRm(cur, ds).cur, key) == Left(ListCount(cur, key), ds[i], key)
    ensures (forall d :: d in ds ==> d.head.path != key.path) ==>
      ListCount(ResolveRm(cur, ds).cur, key) == ListCount(cur, key)
  {
    hide RmLibs, DistinctPaths;
    var r := Removal(cur, [], []);
    forall i | 0 <= i < |ds| && ds[i].head.path == key.path
      ensures ListCount(ResolveRm(cur, ds).cur, key) == Left(ListCount(cur, key), ds[i], key)
    {
      RmLibsExactly(m, r, ds, i, key);
    }
    if forall d :: d in ds ==> d.head.path != key.path {
      RmLibsElsewhere(m, r, ds, key);
    }
  }

  // ----------------------------------------------------------------- addition

  function Raise(ix: seq<nat>): (up: seq<nat>)
    ensures |up| == |ix|
    ensures forall i {:trigger up[i]} :: 0 <= i < |ix| ==> up[i] == ix[i] + 1
  {
    seq(|ix|, i requires 0 <= i < |ix| => ix[i] + 1)
  }

  lemma RaiseMembers(ix: seq<nat>, j: nat)
    ensures j in Raise(ix) <==> j > 0 && j - 1 in ix
  {
    hide Raise;
    if j > 0 && j - 1 in ix {
      var i :| 0 <= i < |ix| && ix[i] == j - 1;
      assert Raise(ix)[i] == j;
    }
  }

  /** ix lists, in order, the positions of the probes of fs that known does not have. */
  ghost predicate Survivors(known: seq<Func>, fs: seq<Func>, ix: seq<nat>) {
    && (forall i, j :: 0 <= i < j < |ix| ==> ix[i] < ix[j])
    && (forall j: nat :: j in ix <==> j < |fs| && !Has(known, fs[j]))
  }

  lemma SurvivorsCons(known: seq<Func>, fs: seq<Func>, ix: seq<nat>)
    requires fs != [] && Survivors(known, fs[1..], ix)
    ensures Has(known, fs[0]) ==> Survivors(known, fs, Raise(ix))
    ensures !Has(known, fs[0]) ==> Survivors(known, fs, [0] + Raise(ix))
  {
    hide Raise, Has;
    forall j: nat
      ensures j in Raise(ix) <==> 0 < j < |fs| && !Has(known, fs[j])
    {
      RaiseMembers(ix, j);
      if 0 < j < |fs| {
        assert fs[1..][j - 1] == fs[j];
      }
    }
  }

  /** kept is what fs holds at the positions ix. */
  ghost predicate Picks(fs: seq<Func>, ix: seq<nat>, kept: seq<Func>) {
    |ix| == |kept| && forall i :: 0 <= i < |ix| ==> ix[i] < |fs| && kept[i] == fs[ix[i]]
  }

  lemma PicksCons(fs: seq<Func>, ix: seq<nat>, kept: seq<Func>)
    requires fs != [] && Picks(fs[1..], ix, kept)
    ensures Picks(fs, Raise(ix), kept) && Picks(fs, [0] + Raise(ix), [fs[0]] + kept)
  {
    hide Raise;
  }

  lemma KeepNewCons(known: seq<Func>, fs: seq<Func>)
    requires fs != []
    ensures Has(known, fs[0]) ==> KeepNew(known, fs) == KeepNew(known, fs[1..])
    ensures !Has(known, fs[0]) ==> KeepNew(known, fs) == [fs[0]] + KeepNew(known, fs[1..])
  {
    assert [] + KeepNew(known, fs[1..]) == KeepNew(known, fs[1..]);
  }

  /** Filtering keeps exactly the probes known does not have, each in its place in the order. */
  lemma {:induction false} KeepNewFilter(known: seq<Func>, fs: seq<Func>) returns (ix: seq<nat>)
    ensures Survivors(known, fs, ix) && Picks(fs, ix, KeepNew(known, fs))
  {
    if fs == [] {
      ix := [];
    } else {
      hide Has, Survivors, Raise, Picks, KeepNew;
      var rest := KeepNewFilter(known, fs[1..]);
      SurvivorsCons(known, fs, rest);
      PicksCons(fs, rest, KeepNew(known, fs[1..]));
      KeepNewCons(known, fs);
      if Has(known, fs[0]) {
        ix := Raise(rest);
      } else {
        ix := [0] + Raise(rest);
      }
    }
  }

  lemma {:induction false} KeepNewCount(known: seq<Func>, fs: seq<Func>, key: Key)
    ensures Count(KeepNew(known, fs), key) == if Count(known, key) > 0 then 0 else Count(fs, key)
  {
    if fs != [] {
      KeepNewCount(known, fs[1..], key);
      var rest := KeepNew(known, fs[1..]);
      assert ([fs[0]] + rest)[1..] == rest && [] + rest == rest;
      if Is(fs[0], key) {
        HasIsCount(known, fs[0], key);
      }
    }
  }

  /** key is installed in the first record of cur with its path. */
  predicate Installed(cur: seq<Data>, key: Key) {
    exists i :: 0 <= i < |cur| && cur[i].head.path == key.path && Count(cur[i].probes, key) > 0
                && forall j :: 0 <= j < i ==> cur[j].head.path != key.path
  }

  lemma AddLibExactly(m: Machine, cur: seq<Data>, d: Data, key: Key)
    requires AllHashed(m, cur) && d.hash == PathHash(m, d.head.path)
    ensures ListCount(AddLib(cur, d), key) == if Installed(cur, key) then 0 else DataCount(d, key)
  {
    FindIsByPath(m, cur, d);
    var k := Find(cur, d);
    if k < |cur| {
      KeepNewCount(cur[k].probes, d.probes, key);
      if d.head.path == key.path && Installed(cur, key) {
        var i :| 0 <= i < |cur| && cur[i].head.path == key.path && Count(cur[i].probes, key) > 0
                 && forall j :: 0 <= j < i ==> cur[j].head.path != key.path;
        assert i == k;
      }
    } else if d.head.path == key.path {
      assert forall c :: c in cur ==> c.head.path != key.path;
    }
  }

  /** Of every added probe just those not installed yet remain, each as often as it was sent. */
  lemma {:induction false} AddExactly(m: Machine, cur: seq<Data>, ds: seq<Data>, key: Key)
    requires AllHashed(m, cur) && AllHashed(m, ds)
    ensures ListCount(ResolveAdd(cur, ds), key) == if Installed(cur, key) then 0 else ListCount(ds, key)
  {
    hide AddLib, Installed;
    if ds != [] {
      AddExactly(m, cur, ds[1..], key);
      AddLibExactly(m, cur, ds[0], key);
      ListCountConcat(AddLib(cur, ds[0]), ResolveAdd(cur, ds[1..]), key);
    }
  }

  /** No record that is also in the current list stays behind empty. */
  lemma {:induction false} AddLeavesNoEmpty(cur: seq<Data>, ds: seq<Data>)
    ensures forall d :: d in ResolveAdd(cur, ds) && Find(cur, d) < |cur| ==> d.probes != []
  {
    if ds != [] {
      AddLeavesNoEmpty(cur, ds[1..]);
      var k := Find(cur, ds[0]);
      if k < |cur| {
        var d := WithProbes(ds[0], KeepNew(cur[k].probes, ds[0].probes));
        assert d.probes == [] ==> AddLib(cur, ds[0]) == [];
      }
    }
  }

  // --------------------------------------------------------------------- move

  lemma MoveLibConserves(to: seq<Data>, d: Data, key: Key)
    ensures ListCount(MoveLib(to, d), key) == ListCount(to, key) + DataCount(d, key)
  {
    hide U32, Find;
    var k := Find(to, d);
    if k < |to| && d.probes != [] {
      CountConcat(d.probes, to[k].probes, key);
      ListCountUpdate(to, k, Merge(to[k], d), key);
    } else {
      ListCountConcat([d], to, key);
    }
  }

  /** Moving keeps every probe of both lists. */
  lemma {:induction false} MoveConserves(to: seq<Data>, from: seq<Data>, key: Key)
    ensures ListCount(Move(to, from), key) == ListCount(to, key) + ListCount(from, key)
    decreases |from|
  {
    if from != [] {
      MoveLibConserves(to, from[0], key);
      MoveConserves(MoveLib(to, from[0]), from[1..], key);
    }
  }

  lemma MoveLibPaths(m: Machine, to: seq<Data>, d: Data)
    requires AllHashed(m, to) && d.hash == PathHash(m, d.head.path) && DistinctPaths(to)
    requires Find(to, d) < |to| ==> d.probes != []
    ensures AllHashed(m, MoveLib(to, d)) && DistinctPaths(MoveLib(to, d))
  {
    hide PathHash, U32;
    FindIsByPath(m, to, d);
    var k := Find(to, d);
    if k < |to| {
      assert to[k] in to;
    }
  }

  /** Distinct paths stay distinct, even if the moved list names a path twice. */
  lemma {:induction false} MoveKeepsPathsDistinct(m: Machine, to: seq<Data>, from: seq<Data>)
    requires AllHashed(m, to) && AllHashed(m, from) && DistinctPaths(to) && MoveSafe(to, from)
    ensures AllHashed(m, Move(to, from)) && DistinctPaths(Move(to, from))
    decreases |from|
  {
    hide MoveLib, DistinctPaths;
    if from != [] {
      MoveLibPaths(m, to, from[0]);
      MoveKeepsPathsDistinct(m, MoveLib(to, from[0]), from[1..]);
    }
  }

  /** An addition, resolved and then moved in: what was installed stays, and of the sent probes
      exactly those come in that were not installed. */
  lemma AddThenMove(m: Machine, cur: seq<Data>, ds: seq<Data>, key: Key)
    requires AllHashed(m, cur) && AllHashed(m, ds)
    ensures ListCount(Move(cur, ResolveAdd(cur, ds)), key)
         == ListCount(cur, key) + if Installed(cur, key) then 0 else ListCount(ds, key)
  {
    AddExactly(m, cur, ds, key);
    MoveConserves(cur, ResolveAdd(cur, ds), key);
  }

  // -------------------------------------------------------------- bookkeeping

  lemma AddLibKeepsExact(cur: seq<Data>, d: Data)
    requires Exact(d)
    ensures AllExact(AddLib(cur, d))
  {
    var k := Find(cur, d);
    if k < |cur| {
      WithProbesKeepsExact(d, KeepNew(cur[k].probes, d.probes));
    }
  }

  /** Sizes and counts stay exact through the resolution of an addition. */
  lemma {:induction false} AddKeepsExact(cur: seq<Data>, ds: seq<Data>)
    requires AllExact(ds)
    ensures AllExact(ResolveAdd(cur, ds))
  {
    hide AddLib, Exact;
    if ds != [] {
      AddLibKeepsExact(cur, ds[0]);
      AddKeepsExact(cur, ds[1..]);
    }
  }

  predicate RemovalExact(r: Removal) {
    AllExact(r.cur) && AllExact(r.moved) && AllExact(r.kept)
  }

  lemma RmLibKeepsExact(r: Removal, d: Data)
    requires RemovalExact(r) && Exact(d)
    ensures RemovalExact(RmLib(r, d))
  {
    hide Exact, WithProbes, Find, Take;
    var k := Find(r.cur, d);
    if k < |r.cur| {
      assert r.cur[k] in r.cur;
      var t := Take(r.cur[k].probes, d.probes);
      WithProbesKeepsExact(r.cur[k], t.rest);
      WithProbesKeepsExact(d, t.taken);
    }
  }

  lemma {:induction false} RmLibsKeepExact(r: Removal, ds: seq<Data>)
    requires RemovalExact(r) && AllExact(ds)
    ensures RemovalExact(RmLibs(r, ds))
    decreases |ds|
  {
    hide Exact, RemovalExact, RmLib;
    if ds != [] {
      RmLibKeepsExact(r, ds[0]);
      RmLibsKeepExact(RmLib(r, ds[0]), ds[1..]);
    }
  }

  /** Sizes and counts stay exact through a removal, in what stays and in what goes. */
  lemma RmKeepsExact(cur: seq<Data>, ds: seq<Data>)
    requires AllExact(cur) && AllExact(ds)
    ensures var r := ResolveRm(cur, ds); AllExact(r.cur) && AllExact(r.moved + r.kept)
  {
    RmLibsKeepExact(Removal(cur, [], []), ds);
  }

  /** A merge counts the size of the first moved probe only, so the cached size stays right
      exactly when the others add up to nothing in 32 bits. */
  lemma MergeExactWhen(t: Data, d: Data)
    requires Exact(t) && Exact(d) && d.probes != []
    ensures Exact(Merge(t, d)) <==> U32(SumSizes(d.probes[1..])) == 0
  {
    hide FuncBytes, FuncSize, TrueSize, SumSizes, U32, Merge;
    MergeParts(t, d);
    U32Inner(TrueSize(t), FuncSize(d.probes[0]));
    U32Shift(TrueSize(t) + FuncSize(d.probes[0]), SumSizes(d.probes[1..]));
  }

  lemma SumOfHeadAndTail(fs: seq<Func>)
    requires fs != []
    ensures SumSizes(fs) == FuncSize(fs[0]) + SumSizes(fs[1..])
  {
    HeadAndTail(fs);
    ConcatMapConcat(FuncBytes, [fs[0]], fs[1..]);
    ConcatMapOne(FuncBytes, fs[0]);
  }

  lemma U32Shift(x: int, d: nat)
    ensures U32(x) == U32(x + d) <==> U32(d) == 0
  {
    if U32(d) == 0 {
      U32Same(x + d, x, d / WORD32);
    } else if U32(x) == U32(x + d) {
      U32Same(d, 0, (x + d) / WORD32 - x / WORD32);
    }
  }

  /** A move where every record that is merged brings one probe. */
  predicate SingleMerges(to: seq<Data>, from: seq<Data>)
    decreases |from|
  {
    from != [] ==>
      && (Find(to, from[0]) < |to| && from[0].probes != [] ==> |from[0].probes| == 1)
      && SingleMerges(MoveLib(to, from[0]), from[1..])
  }

  /** By how much the cached size of a record falls short. */
  function Missing(d: Data): uint32 {
    U32(TrueSize(d) - d.size)
  }

  /** A record as moves leave it: nothing but the size can be wrong, and only by probes it has. */
  predicate Sane(d: Data) {
    d.funcNum == U32(|d.probes|) && Missing(d) <= SumSizes(d.probes) && TrueSize(d) < WORD32
  }

  lemma ExactIsComplete(d: Data)
    requires TrueSize(d) < WORD32
    ensures Exact(d) ==> Sane(d)
    ensures Sane(d) ==> (Exact(d) <==> Missing(d) == 0)
  {
  }

  lemma MergeMisses(t: Data, d: Data)
    requires Sane(t) && Exact(d) && d.probes != [] && TrueSize(t) + TrueSize(d) < WORD32
    ensures TrueSize(Merge(t, d)) <= TrueSize(t) + TrueSize(d) && Sane(Merge(t, d))
    ensures Missing(Merge(t, d)) == Missing(t) + SumSizes(d.probes[1..])
    ensures Exact(Merge(t, d)) <==> Exact(t) && |d.probes| == 1
  {
    hide FuncBytes, FuncSize, TrueSize, SumSizes, U32, Exact, Sane, Missing, Merge;
    var m, first, rest := Merge(t, d), FuncSize(d.probes[0]), SumSizes(d.probes[1..]);
    SaneMeans(t);
    SizeOfParts(d);
    MergeParts(t, d);
    Borrowed(TrueSize(t), t.size, first, rest);
    U32Small(Missing(t) + rest);
    SaneIs(m);
    SaneIs(t);
    ExactIsComplete(t);
    ExactIsComplete(m);
    SomeBytes(d.probes[1..]);
  }

  /** Adding first to the cached size when first + rest are added leaves rest missing. */
  lemma Borrowed(size: nat, cached: uint32, first: nat, rest: nat)
    ensures U32(size + first + rest - U32(cached + first)) == U32(U32(size - cached) + rest)
  {
    var borrow := (cached + first) / WORD32;
    U32Same(size + first + rest - U32(cached + first), size - cached + rest, borrow);
    U32Inner(size - cached, rest);
  }

  lemma MergeParts(t: Data, d: Data)
    requires d.probes != [] && t.funcNum == U32(|t.probes|) && d.funcNum == U32(|d.probes|)
    ensures var m := Merge(t, d);
      && m.size == U32(t.size + FuncSize(d.probes[0])) && m.funcNum == U32(|m.probes|)
      && TrueSize(m) == TrueSize(t) + FuncSize(d.probes[0]) + SumSizes(d.probes[1..])
      && SumSizes(m.probes) == SumSizes(t.probes) + FuncSize(d.probes[0]) + SumSizes(d.probes[1..])
  {
    hide FuncBytes, FuncSize;
    SumOfHeadAndTail(d.probes);
    ConcatMapConcat(FuncBytes, d.probes, t.probes);
    U32Inner(|d.probes|, |t.probes|);
    U32Inner(|t.probes|, U32(|d.probes|));
  }

  lemma SaneMeans(t: Data)
    requires Sane(t)
    ensures t.funcNum == U32(|t.probes|) && Missing(t) <= SumSizes(t.probes) <= TrueSize(t)
    ensures Missing(t) == U32(TrueSize(t) - t.size)
  {
  }

  lemma SaneIs(t: Data)
    ensures Missing(t) == U32(TrueSize(t) - t.size)
    ensures t.funcNum == U32(|t.probes|) && Missing(t) <= SumSizes(t.probes) && TrueSize(t) < WORD32 ==> Sane(t)
  {
  }

  lemma SizeOfParts(d: Data)
    requires Exact(d) && d.probes != []
    ensures d.funcNum == U32(|d.probes|)
    ensures FuncSize(d.probes[0]) + SumSizes(d.probes[1..]) == SumSizes(d.probes) <= TrueSize(d)
    ensures |d.probes| == 1 <==> d.probes[1..] == []
  {
    hide FuncBytes, FuncSize;
    SumOfHeadAndTail(d.probes);
  }

  lemma SomeBytes(fs: seq<Func>)
    ensures SumSizes(fs) == 0 <==> fs == []
  {
    if fs != [] {
      SumOfHeadAndTail(fs);
    }
  }

  lemma {:induction false} DatasUpdate(ds: seq<Data>, k: nat, d: Data)
    requires k < |ds|
    ensures |DatasBytes(ds[k := d])| == |DatasBytes(ds)| - TrueSize(ds[k]) + TrueSize(d)
  {
    hide DataBytes, TrueSize;
    var n := |ds| - 1;
    if k < n {
      DatasUpdate(ds[..n], k, d);
      assert ds[k := d][..n] == ds[..n][k := d];
    } else {
      assert ds[k := d][..n] == ds[..n];
    }
  }

  lemma DatasMember(ds: seq<Data>, k: nat)
    requires k < |ds|
    ensures TrueSize(ds[k]) <= |DatasBytes(ds)|
  {
    var d := Data(Lib([]), 0, 0, 0, []);
    DatasUpdate(ds, k, d);
  }

  lemma MoveLibExact(to: seq<Data>, d: Data)
    requires (forall t :: t in to ==> Sane(t)) && Exact(d) && |DatasBytes(to)| + TrueSize(d) < WORD32
    requires Find(to, d) < |to| ==> d.probes != []
    ensures (forall t :: t in MoveLib(to, d) ==> Sane(t))
    ensures |DatasBytes(MoveLib(to, d))| <= |DatasBytes(to)| + TrueSize(d)
    ensures AllExact(MoveLib(to, d)) <==> AllExact(to) && (Find(to, d) < |to| ==> |d.probes| == 1)
  {
    hide Sane, Exact, ConcatMap, Find, TrueSize;
    var k, now := Find(to, d), MoveLib(to, d);
    FindBound(to, d);
    if k < |to| {
      DatasMember(to, k);
      MergeMisses(to[k], d);
      DatasUpdate(to, k, Merge(to[k], d));
      assert now[k] == Merge(to[k], d) && forall i :: 0 <= i < |to| && i != k ==> now[i] == to[i];
    } else {
      ExactIsComplete(d);
      ConcatMapConcat(DataBytes, [d], to);
      ConcatMapOne(DataBytes, d);
      assert now[0] == d && forall i :: 0 <= i < |to| ==> now[i + 1] == to[i];
    }
  }

  lemma FindBound(ds: seq<Data>, d: Data)
    ensures Find(ds, d) <= |ds|
  {
  }

  /** A move keeps all cached sizes right exactly when every record merged into another one brings a
      single probe; the sizes then still are what generate_msg allocates for. */
  lemma {:induction false} MoveExactWhen(to: seq<Data>, from: seq<Data>)
    requires (forall t :: t in to ==> Sane(t)) && AllExact(from) && MoveSafe(to, from)
    requires |DatasBytes(to)| + |DatasBytes(from)| < WORD32
    ensures AllExact(Move(to, from)) <==> AllExact(to) && SingleMerges(to, from)
    decreases |from|
  {
    hide Sane, Exact, ConcatMap, MoveLib, TrueSize;
    if from != [] {
      var d := from[0];
      assert d in from;
      assert d.probes != [] || Find(to, d) == |to| by {
        FindBound(to, d);
      }
      HeadAndTail(from);
      ConcatMapConcat(DataBytes, [d], from[1..]);
      ConcatMapOne(DataBytes, d);
      MoveLibExact(to, d);
      MoveExactWhen(MoveLib(to, d), from[1..]);
    }
  }

  /** Without any bound on sizes, single merges keep all cached sizes right. */
  lemma {:induction false} SingleKeepsExact(to: seq<Data>, from: seq<Data>)
    requires AllExact(to) && AllExact(from) && SingleMerges(to, from)
    ensures AllExact(Move(to, from))
    decreases |from|
  {
    hide Exact, MoveLib;
    if from != [] {
      SingleMergeExact(to, from[0]);
      SingleKeepsExact(MoveLib(to, from[0]), from[1..]);
    }
  }

  lemma SingleMergeExact(to: seq<Data>, d: Data)
    requires AllExact(to) && Exact(d) && (Find(to, d) < |to| && d.probes != [] ==> |d.probes| == 1)
    ensures AllExact(MoveLib(to, d))
  {
    hide Exact, Merge;
    var k := Find(to, d);
    if k < |to| && d.probes != [] {
      assert to[k] in to && d.probes[1..] == [];
      NoneIsNothing();
      MergeExactWhen(to[k], d);
    }
  }

  lemma NoneIsNothing()
    ensures U32(SumSizes([])) == 0
  {
  }

  /** Lists without empty records are safe to move. */
  lemma {:induction false} NonEmptyIsSafe(to: seq<Data>, from: seq<Data>)
    requires forall d :: d in to + from ==> d.probes != []
    ensures MoveSafe(to, from)
    decreases |from|
  {
    if from != [] {
      hide Find;
      FindBound(to, from[0]);
      var now := MoveLib(to, from[0]);
      assert from[0] in to + from;
      forall d | d in now + from[1..]
        ensures d.probes != []
      {
        if d in from[1..] {
          assert d in to + from;
        } else if d in to {
          assert d in to + from;
        }
      }
      NonEmptyIsSafe(now, from[1..]);
    }
  }

  /** Sending every path once, the sender can tell beforehand: no installed lib may get two probes. */
  lemma {:induction false} SingleMergesWhen(m: Machine, to: seq<Data>, from: seq<Data>)
    requires AllHashed(m, to) && AllHashed(m, from) && DistinctPaths(from)
    ensures SingleMerges(to, from)
       <==> forall i :: 0 <= i < |from| && |from[i].probes| > 1 ==> Find(to, from[i]) == |to|
    decreases |from|
  {
    if from != [] {
      hide PathHash, MoveLib;
      var now, rest := MoveLib(to, from[0]), from[1..];
      FindBound(to, from[0]);
      forall i | 0 <= i < |rest|
        ensures Find(now, rest[i]) == |now| <==> Find(to, rest[i]) == |to|
      {
        assert rest[i] == from[i + 1];
        SameElsewhere(m, to, from[0], rest[i]);
      }
      MoveLibHashed(m, to, from[0]);
      SingleMergesWhen(m, now, rest);
      assert forall i :: 0 < i < |from| ==> from[i] == rest[i - 1];
    }
  }

  lemma MoveLibHashed(m: Machine, to: seq<Data>, d: Data)
    requires AllHashed(m, to) && d.hash == PathHash(m, d.head.path)
    ensures AllHashed(m, MoveLib(to, d))
  {
    hide PathHash, U32, Find;
    FindBound(to, d);
    var k := Find(to, d);
    if k < |to| {
      assert to[k] in to;
    }
  }

  /** Moving one record in does not change whether another path is there. */
  lemma SameElsewhere(m: Machine, to: seq<Data>, d: Data, e: Data)
    requires AllHashed(m, to) && d.hash == PathHash(m, d.head.path) && e.hash == PathHash(m, e.head.path)
    requires d.head.path != e.head.path
    ensures Find(MoveLib(to, d), e) == |MoveLib(to, d)| <==> Find(to, e) == |to|
  {
    hide PathHash, U32;
    var k, now := Find(to, d), MoveLib(to, d);
    MoveLibHashed(m, to, d);
    FindIsByPath(m, to, d);
    FindIsByPath(m, to, e);
    FindIsByPath(m, now, e);
    if k < |to| && d.probes != [] {
      assert forall i :: 0 <= i < |to| ==> now[i].head == to[i].head;
    } else {
      assert now[0] == d && forall i :: 0 <= i < |to| ==> now[i + 1] == to[i];
    }
  }
}
