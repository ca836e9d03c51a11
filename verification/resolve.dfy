// What collision resolution and the move into the current list compute, on values
// (daemon/da_inst.c:162-179, 257-424).

module Resolve {
  import opened Words
  import opened Records

  // ---------------------------------------------------------------- searching

  /** The test of the lookup: cached hashes first, then the paths. */
  predicate Same(c: Data, d: Data) {
    c.hash == d.hash && c.head.path == d.head.path
  }

  /** Position of the first record matching d, or |ds|. */
  function Find(ds: seq<Data>, d: Data): (i: nat)
    ensures i <= |ds|
    ensures i < |ds| ==> Same(ds[i], d)
    ensures forall j :: 0 <= j < i ==> !Same(ds[j], d)
  {
    if ds == [] || Same(ds[0], d) then 0 else 1 + Find(ds[1..], d)
  }

  /** Probes are the same when size, address and arguments agree; the return letter is ignored. */
  predicate SameProbe(f: Func, g: Func) {
    FuncSize(f) == FuncSize(g) && f.addr == g.addr && f.args == g.args
  }

  function FindFunc(fs: seq<Func>, g: Func): (i: nat)
    ensures i <= |fs|
    ensures i < |fs| ==> SameProbe(fs[i], g)
    ensures forall j :: 0 <= j < i ==> !SameProbe(fs[j], g)
  {
    if fs == [] || SameProbe(fs[0], g) then 0 else 1 + FindFunc(fs[1..], g)
  }

  predicate Has(fs: seq<Func>, g: Func) {
    FindFunc(fs, g) < |fs|
  }

  /** The search with cached hashes finds what a search by path alone would find. */
  lemma FindIsByPath(m: Machine, ds: seq<Data>, d: Data)
    requires AllHashed(m, ds) && d.hash == PathHash(m, d.head.path)
    ensures forall j :: 0 <= j < Find(ds, d) ==> ds[j].head.path != d.head.path
    ensures Find(ds, d) == |ds| <==> forall c :: c in ds ==> c.head.path != d.head.path
  {
    forall j | 0 <= j < Find(ds, d)
      ensures ds[j].head.path != d.head.path
    {
      assert ds[j] in ds && !Same(ds[j], d);
    }
  }

  // ----------------------------------------------------------- add resolution

  /** fs without the probes already in known. */
  function KeepNew(known: seq<Func>, fs: seq<Func>): seq<Func> {
    if fs == [] then []
    else (if Has(known, fs[0]) then [] else [fs[0]]) + KeepNew(known, fs[1..])
  }

  /** What becomes of one new record: nothing, or the record with fewer probes. */
  function AddLib(cur: seq<Data>, d: Data): seq<Data> {
    var k := Find(cur, d);
    if k == |cur| then [d]
    else
      var fs := KeepNew(cur[k].probes, d.probes);
      if fs == [] then [] else [WithProbes(d, fs)]
  }

  function ResolveAdd(cur: seq<Data>, ds: seq<Data>): seq<Data> {
    if ds == [] then [] else AddLib(cur, ds[0]) + ResolveAdd(cur, ds[1..])
  }

  // -------------------------------------------------------- remove resolution

  datatype Taken = Taken(rest: seq<Func>, taken: seq<Func>)

  /** Each probe of gs takes its first match out of fs; those without a match are dropped. */
  function Take(fs: seq<Func>, gs: seq<Func>): Taken
    decreases |gs|
  {
    if gs == [] then Taken(fs, [])
    else
      var k := FindFunc(fs, gs[0]);
      if k == |fs| then Take(fs, gs[1..])
      else
        var t := Take(Without(fs, k), gs[1..]);
        Taken(t.rest, [gs[0]] + t.taken)
  }

  /** cur as it is now, whole records moved over, requested records kept so far. */
  datatype Removal = Removal(cur: seq<Data>, moved: seq<Data>, kept: seq<Data>)

  function RmLib(r: Removal, d: Data): Removal {
    var k := Find(r.cur, d);
    if k == |r.cur| then r
    else if d.probes == [] then
      Removal(Without(r.cur, k), [r.cur[k]] + r.moved, r.kept)
    else
      var t := Take(r.cur[k].probes, d.probes);
      var cur' := if t.rest == [] then Without(r.cur, k)
                  else r.cur[k := WithProbes(r.cur[k], t.rest)];
      Removal(cur', r.moved, r.kept + [WithProbes(d, t.taken)])
  }

  /** The requests handled one after the other. */
  function RmLibs(r: Removal, ds: seq<Data>): Removal
    decreases |ds|
  {
    if ds == [] then r else RmLibs(RmLib(r, ds[0]), ds[1..])
  }

  function ResolveRm(cur: seq<Data>, ds: seq<Data>): Removal {
    RmLibs(Removal(cur, [], []), ds)
  }

  // --------------------------------------------------------------------- move

  /** The merge: only the first probe's size is added to the cached size. */
  function Merge(t: Data, d: Data): Data
    requires d.probes != []
  {
    t.(probes := d.probes + t.probes,
       size := U32(t.size + FuncSize(d.probes[0])),
       funcNum := U32(t.funcNum + d.funcNum))
  }

  /** Both sides of every merge have probes; the merge dereferences their first ones. */
  predicate MoveSafe(to: seq<Data>, from: seq<Data>)
    decreases |from|
  {
    from != [] ==>
      var k := Find(to, from[0]);
      && (k < |to| ==> to[k].probes != [] && from[0].probes != [])
      && MoveSafe(MoveLib(to, from[0]), from[1..])
  }

  function MoveLib(to: seq<Data>, d: Data): seq<Data> {
    var k := Find(to, d);
    if k < |to| && d.probes != [] then to[k := Merge(to[k], d)] else [d] + to
  }

  function Move(to: seq<Data>, from: seq<Data>): seq<Data>
    decreases |from|
  {
    if from == [] then to else Move(MoveLib(to, from[0]), from[1..])
  }
}
