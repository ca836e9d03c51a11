// In which order collision resolution and the move leave records and probes, and that what they leave of a
// record are probes it had, return letters included (daemon/da_inst.c:162-179, 284-424).

module ResolveOrder {
  import opened Words
  import opened Records
  import opened Resolve
  import opened ResolveFacts

  /** a is b with some elements left out. */
  predicate Within<T(==)>(a: seq<T>, b: seq<T>)
    decreases |b|
  {
    a == [] || (b != [] && ((a[0] == b[0] && Within(a[1..], b[1..])) || Within(a, b[1..])))
  }

  lemma {:induction false} WithinSelf<T>(a: seq<T>)
    ensures Within(a, a)
  {
    if a != [] {
      WithinSelf(a[1..]);
    }
  }

  lemma WithinCons<T>(a: seq<T>, b: seq<T>, x: T)
    requires Within(a, b)
    ensures Within(a, [x] + b) && Within([x] + a, [x] + b)
  {
    assert ([x] + b)[1..] == b && ([x] + a)[1..] == a;
  }

  lemma {:induction false} WithinMore<T>(a: seq<T>, b: seq<T>, c: seq<T>)
    requires Within(a, c)
    ensures Within(a, b + c)
  {
    if b == [] {
      assert b + c == c;
    } else {
      WithinMore(a, b[1..], c);
      WithinCons(a, b[1..] + c, b[0]);
      assert [b[0]] + (b[1..] + c) == b + c;
    }
  }

  lemma {:induction false} WithinJoin<T>(a: seq<T>, b: seq<T>, c: seq<T>, d: seq<T>)
    requires Within(a, b) && Within(c, d)
    ensures Within(a + c, b + d)
    decreases |b|
  {
    if a == [] {
      assert a + c == c;
      WithinMore(c, b, d);
    } else if a[0] == b[0] && Within(a[1..], b[1..]) {
      WithinJoin(a[1..], b[1..], c, d);
      WithinCons(a[1..] + c, b[1..] + d, b[0]);
      assert [b[0]] + (a[1..] + c) == a + c && [b[0]] + (b[1..] + d) == b + d;
    } else {
      WithinJoin(a, b[1..], c, d);
      WithinCons(a + c, b[1..] + d, b[0]);
      assert [b[0]] + (b[1..] + d) == b + d;
    }
  }

  lemma {:induction false} WithinTwice<T>(a: seq<T>, b: seq<T>, c: seq<T>)
    requires Within(a, b) && Within(b, c)
    ensures Within(a, c)
    decreases |c|
  {
    if a != [] {
      if b[0] == c[0] && Within(b[1..], c[1..]) {
        if a[0] == b[0] && Within(a[1..], b[1..]) {
          WithinTwice(a[1..], b[1..], c[1..]);
        } else {
          WithinTwice(a, b[1..], c[1..]);
        }
      } else {
        WithinTwice(a, b, c[1..]);
      }
    }
  }

  lemma {:induction false} WithinWithout<T>(b: seq<T>, k: nat)
    requires k < |b|
    ensures Within(Without(b, k), b)
  {
    hide Within;
    var c := b[1..];
    assert b == [b[0]] + c;
    if k == 0 {
      WithinSelf(c);
      WithinCons(c, c, b[0]);
      assert Without(b, k) == c;
    } else {
      WithinWithout(c, k - 1);
      WithinCons(Without(c, k - 1), c, b[0]);
      assert Without(b, k) == [b[0]] + Without(c, k - 1);
    }
  }

  function PathsOf(ds: seq<Data>): (ps: seq<CString>)
    ensures |ps| == |ds| && forall i {:trigger ps[i]} :: 0 <= i < |ds| ==> ps[i] == ds[i].head.path
  {
    seq(|ds|, i requires 0 <= i < |ds| => ds[i].head.path)
  }

  /** The same record with some probes left out. */
  predicate Shrunk(d: Data, e: Data) {
    d.head == e.head && d.hash == e.hash && Within(d.probes, e.probes)
  }

  ghost predicate AllShrunk(ds: seq<Data>, es: seq<Data>) {
    forall d :: d in ds ==> exists e :: e in es && Shrunk(d, e)
  }

  lemma AllShrunkSelf(ds: seq<Data>)
    ensures AllShrunk(ds, ds)
  {
    forall d | d in ds
      ensures Shrunk(d, d)
    {
      WithinSelf(d.probes);
    }
  }

  lemma AllShrunkTwice(a: seq<Data>, b: seq<Data>, c: seq<Data>)
    requires AllShrunk(a, b) && AllShrunk(b, c)
    ensures AllShrunk(a, c)
  {
    forall x | x in a
      ensures exists z :: z in c && Shrunk(x, z)
    {
      var y :| y in b && Shrunk(x, y);
      var z :| z in c && Shrunk(y, z);
      WithinTwice(x.probes, y.probes, z.probes);
    }
  }

  // ---------------------------------------------------------------- addition

  lemma {:induction false} KeepNewOrder(known: seq<Func>, fs: seq<Func>)
    ensures Within(KeepNew(known, fs), fs)
  {
    hide Has;
    if fs != [] {
      KeepNewOrder(known, fs[1..]);
      WithinCons(KeepNew(known, fs[1..]), fs[1..], fs[0]);
      assert [fs[0]] + fs[1..] == fs;
      assert [] + KeepNew(known, fs[1..]) == KeepNew(known, fs[1..]);
    }
  }

  lemma AddLibOrder(cur: seq<Data>, d: Data)
    ensures Within(PathsOf(AddLib(cur, d)), [d.head.path])
    ensures forall e :: e in AddLib(cur, d) ==> Shrunk(e, d)
  {
    hide KeepNew, Find, U32;
    var k := Find(cur, d);
    if k < |cur| {
      KeepNewOrder(cur[k].probes, d.probes);
    }
    WithinSelf(d.probes);
    WithinSelf([d.head.path]);
    assert PathsOf(AddLib(cur, d)) == if AddLib(cur, d) == [] then [] else [d.head.path];
  }

  /** What remains of an addition are the sent records in order, each with some of its probes in order. */
  lemma {:induction false} AddOrder(cur: seq<Data>, ds: seq<Data>)
    ensures Within(PathsOf(ResolveAdd(cur, ds)), PathsOf(ds)) && AllShrunk(ResolveAdd(cur, ds), ds)
  {
    hide AddLib, Shrunk, Within;
    if ds == [] {
      WithinSelf<CString>([]);
      assert PathsOf(ResolveAdd(cur, ds)) == [] == PathsOf(ds);
    } else {
      AddOrder(cur, ds[1..]);
      AddLibOrder(cur, ds[0]);
      WithinJoin(PathsOf(AddLib(cur, ds[0])), [ds[0].head.path],
                 PathsOf(ResolveAdd(cur, ds[1..])), PathsOf(ds[1..]));
      assert PathsOf(ResolveAdd(cur, ds)) == PathsOf(AddLib(cur, ds[0])) + PathsOf(ResolveAdd(cur, ds[1..]));
      assert PathsOf(ds) == [ds[0].head.path] + PathsOf(ds[1..]);
    }
  }

  // ----------------------------------------------------------------- removal

  /** What is left and what is taken keep their order; what is taken are the requested probes. */
  lemma {:induction false} TakeOrder(fs: seq<Func>, gs: seq<Func>)
    ensures Within(Take(fs, gs).rest, fs) && Within(Take(fs, gs).taken, gs)
    decreases |gs|
  {
    hide Within;
    if gs == [] {
      WithinSelf(fs);
      WithinSelf(gs);
    } else {
      var k := FindFunc(fs, gs[0]);
      assert [gs[0]] + gs[1..] == gs;
      if k == |fs| {
        TakeOrder(fs, gs[1..]);
        WithinCons(Take(fs, gs[1..]).taken, gs[1..], gs[0]);
      } else {
        TakeOrder(Without(fs, k), gs[1..]);
        WithinWithout(fs, k);
        WithinTwice(Take(fs, gs).rest, Without(fs, k), fs);
        WithinCons(Take(Without(fs, k), gs[1..]).taken, gs[1..], gs[0]);
      }
    }
  }

  lemma RmLibOrder(r: Removal, d: Data)
    ensures var t := RmLib(r, d);
      && Within(PathsOf(t.cur), PathsOf(r.cur)) && AllShrunk(t.cur, r.cur)
      && (t.moved == r.moved
          || (t.moved != [] && t.moved[1..] == r.moved && t.moved[0] in r.cur && t.moved[0].head.path == d.head.path))
      && (t.kept == r.kept
          || (t.kept != [] && t.kept[..|t.kept| - 1] == r.kept && Shrunk(t.kept[|t.kept| - 1], d)))
  {
    hide Within, U32, Take, Shrunk, AllShrunk;
    var t, k := RmLib(r, d), Find(r.cur, d);
    if k == |r.cur| {
      WithinSelf(PathsOf(r.cur));
      AllShrunkSelf(r.cur);
    } else {
      WithinWithout(PathsOf(r.cur), k);
      assert PathsOf(Without(r.cur, k)) == Without(PathsOf(r.cur), k);
      AllShrunkWithout(r.cur, k);
      if d.probes != [] {
        var part := Take(r.cur[k].probes, d.probes);
        TakeOrder(r.cur[k].probes, d.probes);
        ShrunkIs(d, part.taken);
        ShrunkIs(r.cur[k], part.rest);
        AllShrunkUpdate(r.cur, k, WithProbes(r.cur[k], part.rest));
        assert PathsOf(r.cur[k := WithProbes(r.cur[k], part.rest)]) == PathsOf(r.cur);
        WithinSelf(PathsOf(r.cur));
      }
    }
  }

  lemma ShrunkIs(d: Data, fs: seq<Func>)
    requires Within(fs, d.probes)
    ensures Shrunk(WithProbes(d, fs), d) && WithProbes(d, fs).head == d.head
  {
  }

  lemma AllShrunkWithout(ds: seq<Data>, k: nat)
    requires k < |ds|
    ensures AllShrunk(Without(ds, k), ds)
  {
    hide Shrunk;
    AllShrunkSelf(ds);
  }

  lemma WithinIs(d: Data)
    ensures Shrunk(d, d)
  {
    WithinSelf(d.probes);
  }

  lemma AllShrunkUpdate(ds: seq<Data>, k: nat, d: Data)
    requires k < |ds| && Shrunk(d, ds[k])
    ensures AllShrunk(ds[k := d], ds)
  {
    hide Shrunk;
    AllShrunkSelf(ds);
    var now := ds[k := d];
    forall e | e in now
      ensures exists c :: c in ds && Shrunk(e, c)
    {
      if e == d {
        assert ds[k] in ds && Shrunk(e, ds[k]);
      } else {
        assert e in ds && Shrunk(e, e) by {
          WithinIs(e);
        }
      }
    }
  }

  /** What stays installed keeps its order, as do the requests that are met; whole records that move over end in
      the reverse order of their requests. */
  lemma {:induction false} RmLibsOrder(r: Removal, ds: seq<Data>)
    ensures var t := RmLibs(r, ds);
      && Within(PathsOf(t.cur), PathsOf(r.cur)) && AllShrunk(t.cur, r.cur)
      && |t.moved| >= |r.moved| && t.moved[|t.moved| - |r.moved|..] == r.moved
      && Within(PathsOf(t.moved[..|t.moved| - |r.moved|]), Reverse(PathsOf(ds)))
      && AllShrunk(t.moved[..|t.moved| - |r.moved|], r.cur)
      && |t.kept| >= |r.kept| && t.kept[..|r.kept|] == r.kept
      && Within(PathsOf(t.kept[|r.kept|..]), PathsOf(ds)) && AllShrunk(t.kept[|r.kept|..], ds)
    decreases |ds|
  {
    hide Within, RmLib, Shrunk, AllShrunk, Reverse;
    if ds == [] {
      WithinSelf(PathsOf(r.cur));
      AllShrunkSelf(r.cur);
      Nothing(r.cur, ds);
      assert r.moved[..0] == [] && r.kept[|r.kept|..] == [];
    } else {
      var u, t := RmLib(r, ds[0]), RmLibs(r, ds);
      RmLibOrder(r, ds[0]);
      RmLibsOrder(u, ds[1..]);
      WithinTwice(PathsOf(t.cur), PathsOf(u.cur), PathsOf(r.cur));
      AllShrunkTwice(t.cur, u.cur, r.cur);
      MovedOrder(r, u, t, ds);
      KeptOrder(r, u, t, ds);
    }
  }

  lemma Nothing(cur: seq<Data>, ds: seq<Data>)
    requires ds == []
    ensures PathsOf(ds) == [] && Within(PathsOf([]), Reverse(PathsOf(ds))) && Within(PathsOf([]), PathsOf(ds))
    ensures AllShrunk([], cur) && AllShrunk([], ds)
  {
  }

  lemma MovedOrder(r: Removal, u: Removal, t: Removal, ds: seq<Data>)
    requires ds != [] && AllShrunk(u.cur, r.cur)
    requires u.moved == r.moved
      || (u.moved != [] && u.moved[1..] == r.moved && u.moved[0] in r.cur && u.moved[0].head.path == ds[0].head.path)
    requires |t.moved| >= |u.moved| && t.moved[|t.moved| - |u.moved|..] == u.moved
    requires Within(PathsOf(t.moved[..|t.moved| - |u.moved|]), Reverse(PathsOf(ds[1..])))
    requires AllShrunk(t.moved[..|t.moved| - |u.moved|], u.cur)
    ensures |t.moved| >= |r.moved| && t.moved[|t.moved| - |r.moved|..] == r.moved
    ensures Within(PathsOf(t.moved[..|t.moved| - |r.moved|]), Reverse(PathsOf(ds)))
    ensures AllShrunk(t.moved[..|t.moved| - |r.moved|], r.cur)
  {
    hide Within, Shrunk, AllShrunk;
    var x := t.moved[..|t.moved| - |u.moved|];
    assert PathsOf(ds)[1..] == PathsOf(ds[1..]);
    assert Reverse(PathsOf(ds)) == Reverse(PathsOf(ds[1..])) + [ds[0].head.path];
    AllShrunkTwice(x, u.cur, r.cur);
    if u.moved == r.moved {
      NoneWithin([ds[0].head.path]);
      WithinJoin(PathsOf(x), Reverse(PathsOf(ds[1..])), [], [ds[0].head.path]);
      assert PathsOf(x) + [] == PathsOf(x);
    } else {
      var y := t.moved[..|t.moved| - |r.moved|];
      assert t.moved[|x|] == u.moved[0] && t.moved[|x| + 1..] == u.moved[1..];
      assert y == x + [u.moved[0]];
      WithinSelf([ds[0].head.path]);
      WithinJoin(PathsOf(x), Reverse(PathsOf(ds[1..])), [ds[0].head.path], [ds[0].head.path]);
      assert PathsOf(y) == PathsOf(x) + [ds[0].head.path];
      OneMore(x, u.moved[0], r.cur);
    }
  }

  lemma NoneWithin<T>(b: seq<T>)
    ensures Within([], b)
  {
  }

  lemma OneMore(x: seq<Data>, d: Data, cur: seq<Data>)
    requires AllShrunk(x, cur) && d in cur
    ensures AllShrunk(x + [d], cur)
  {
    WithinSelf(d.probes);
  }

  lemma KeptOrder(r: Removal, u: Removal, t: Removal, ds: seq<Data>)
    requires ds != []
    requires u.kept == r.kept
      || (u.kept != [] && u.kept[..|u.kept| - 1] == r.kept && Shrunk(u.kept[|u.kept| - 1], ds[0]))
    requires |t.kept| >= |u.kept| && t.kept[..|u.kept|] == u.kept
    requires Within(PathsOf(t.kept[|u.kept|..]), PathsOf(ds[1..])) && AllShrunk(t.kept[|u.kept|..], ds[1..])
    ensures |t.kept| >= |r.kept| && t.kept[..|r.kept|] == r.kept
    ensures Within(PathsOf(t.kept[|r.kept|..]), PathsOf(ds)) && AllShrunk(t.kept[|r.kept|..], ds)
  {
    hide Within;
    var x := t.kept[|u.kept|..];
    assert PathsOf(ds) == [ds[0].head.path] + PathsOf(ds[1..]);
    WithinCons(PathsOf(x), PathsOf(ds[1..]), ds[0].head.path);
    if u.kept != r.kept {
      var d := u.kept[|u.kept| - 1];
      var y := t.kept[|r.kept|..];
      assert t.kept[..|r.kept|] == u.kept[..|r.kept|];
      assert y[0] == t.kept[..|u.kept|][|r.kept|] == d && y == [d] + x;
      assert PathsOf(y) == [ds[0].head.path] + PathsOf(x);
    }
  }

  /** The same from the beginning: what is sent to the driver are probes of the request, or whole records as they
      were installed. */
  lemma RmOrder(cur: seq<Data>, ds: seq<Data>)
    ensures var r := ResolveRm(cur, ds);
      && Within(PathsOf(r.cur), PathsOf(cur)) && AllShrunk(r.cur, cur)
      && Within(PathsOf(r.moved), Reverse(PathsOf(ds))) && AllShrunk(r.moved, cur)
      && Within(PathsOf(r.kept), PathsOf(ds)) && AllShrunk(r.kept, ds)
  {
    hide Within, RmLibs, AllShrunk, Reverse;
    RmLibsOrder(Removal(cur, [], []), ds);
    var r := ResolveRm(cur, ds);
    assert r.moved[..|r.moved|] == r.moved && r.kept[0..] == r.kept;
  }

  // -------------------------------------------------------------------- move

  /** Records that are not merged come in front, the last one first; the others stay in their places. */
  lemma {:induction false} MoveOrder(to: seq<Data>, from: seq<Data>)
    ensures var now := Move(to, from);
      && |now| >= |to| && PathsOf(now)[|now| - |to|..] == PathsOf(to)
      && Within(PathsOf(now)[..|now| - |to|], Reverse(PathsOf(from)))
    decreases |from|
  {
    hide Within, MoveLib, Reverse;
    if from == [] {
      NoneWithin(Reverse(PathsOf(from)));
      assert PathsOf(to)[..0] == [];
    } else {
      var u, now := MoveLib(to, from[0]), Move(to, from);
      MoveLibOrder(to, from[0]);
      MoveOrder(u, from[1..]);
      ReversePaths(from);
      FrontGrows(PathsOf(to), PathsOf(u), PathsOf(now), from[0].head.path, Reverse(PathsOf(from[1..])));
    }
  }

  lemma FrontGrows(a: seq<CString>, b: seq<CString>, c: seq<CString>, p: CString, r: seq<CString>)
    requires b == a || b == [p] + a
    requires |c| >= |b| && c[|c| - |b|..] == b && Within(c[..|c| - |b|], r)
    ensures |c| >= |a| && c[|c| - |a|..] == a && Within(c[..|c| - |a|], r + [p])
  {
    hide Within;
    var x := c[..|c| - |b|];
    assert c == x + b;
    if b == a {
      NoneWithin([p]);
      WithinJoin(x, r, [], [p]);
      assert x + [] == x;
    } else {
      WithinSelf([p]);
      WithinJoin(x, r, [p], [p]);
      assert c == x + [p] + a;
      assert c[..|c| - |a|] == x + [p];
    }
  }

  lemma ReversePaths(ds: seq<Data>)
    requires ds != []
    ensures Reverse(PathsOf(ds)) == Reverse(PathsOf(ds[1..])) + [ds[0].head.path]
  {
    assert PathsOf(ds)[1..] == PathsOf(ds[1..]);
  }

  lemma MoveLibOrder(to: seq<Data>, d: Data)
    ensures var now := MoveLib(to, d);
      PathsOf(now) == PathsOf(to) || PathsOf(now) == [d.head.path] + PathsOf(to)
  {
    hide U32, Find;
    var k := Find(to, d);
    if k < |to| && d.probes != [] {
      assert PathsOf(MoveLib(to, d)) == PathsOf(to);
    } else {
      assert PathsOf(MoveLib(to, d)) == [d.head.path] + PathsOf(to);
    }
  }

  /** The probes of the first record with a path. */
  function ProbesOf(ds: seq<Data>, path: CString): seq<Func> {
    if ds == [] then [] else if ds[0].head.path == path then ds[0].probes else ProbesOf(ds[1..], path)
  }

  lemma {:induction false} ProbesAt(ds: seq<Data>, k: nat, path: CString)
    requires k <= |ds| && (forall j :: 0 <= j < k ==> ds[j].head.path != path)
    requires k < |ds| ==> ds[k].head.path == path
    ensures ProbesOf(ds, path) == if k < |ds| then ds[k].probes else []
  {
    if k > 0 {
      ProbesAt(ds[1..], k - 1, path);
    }
  }

  lemma {:induction false} ProbesElsewhere(ds: seq<Data>, k: nat, d: Data, path: CString)
    requires k < |ds| && ds[k].head.path != path && d.head.path != path
    ensures ProbesOf(ds[k := d], path) == ProbesOf(ds, path)
  {
    if k > 0 {
      ProbesElsewhere(ds[1..], k - 1, d, path);
      assert ds[k := d][1..] == ds[1..][k - 1 := d];
    } else {
      assert ds[k := d][1..] == ds[1..];
    }
  }

  lemma MoveLibProbes(m: Machine, to: seq<Data>, d: Data, path: CString)
    requires AllHashed(m, to) && d.hash == PathHash(m, d.head.path) && (Find(to, d) < |to| ==> d.probes != [])
    ensures ProbesOf(MoveLib(to, d), path)
         == if d.head.path == path then d.probes + ProbesOf(to, path) else ProbesOf(to, path)
  {
    hide PathHash, U32, ProbesOf;
    var k, now := Find(to, d), MoveLib(to, d);
    FindIsByPath(m, to, d);
    if k < |to| {
      if d.head.path == path {
        ProbesAt(to, k, path);
        ProbesAt(now, k, path);
      } else {
        ProbesElsewhere(to, k, now[k], path);
      }
    } else {
      HeadProbes(d, to, path);
      if d.head.path == path {
        ProbesAt(to, |to|, path);
        assert d.probes + [] == d.probes;
      }
    }
  }

  lemma HeadProbes(d: Data, ds: seq<Data>, path: CString)
    ensures ProbesOf([d] + ds, path) == if d.head.path == path then d.probes else ProbesOf(ds, path)
  {
    assert ([d] + ds)[1..] == ds;
  }

  /** The probes moved to a path come in front of those installed there, both in their order. */
  lemma {:induction false} MoveProbes(m: Machine, to: seq<Data>, from: seq<Data>, path: CString)
    requires AllHashed(m, to) && AllHashed(m, from) && MoveSafe(to, from) && DistinctPaths(from)
    ensures ProbesOf(Move(to, from), path) == ProbesOf(from, path) + ProbesOf(to, path)
    decreases |from|
  {
    hide PathHash, MoveLib, ProbesOf;
    if from == [] {
      NoProbesOf(path);
      assert [] + ProbesOf(to, path) == ProbesOf(to, path);
    } else {
      var d, u := from[0], MoveLib(to, from[0]);
      assert d in from;
      MoveLibHashed(m, to, d);
      MoveLibProbes(m, to, d, path);
      MoveProbes(m, u, from[1..], path);
      HeadProbes(d, from[1..], path);
      assert [d] + from[1..] == from;
      if d.head.path == path {
        ProbesAt(from[1..], |from| - 1, path);
      }
    }
  }

  lemma NoProbesOf(path: CString)
    ensures ProbesOf([], path) == []
  {
  }
}
