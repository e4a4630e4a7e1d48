/**
 * The algebra of merging coverage: what the grouping and the order of shards can change,
 * and what they cannot.
 */
module LcovAlgebra {
  import opened Prelude
  import opened TextFields
  import opened Lcov
  import P = LcovPrint

  // ------------------------------------------------------------------- grouping

  /**
   * First-seen lines depend on grouping in exactly one case: an unnumbered record, then
   * one whose line is not a number, then a positive line.
   */
  lemma FirstSeenGroups(x: Num, y: Num, z: Num)
    ensures MergeLine(MergeLine(x, y), z) == MergeLine(x, MergeLine(y, z))
       <==> !(x == Some(0) && y == None && z.Some? && z.value > 0)
  {
  }

  predicate Shields(a: Fn, b: Fn, c: Fn) {
    a.line == Some(0) && b.line == None && c.line.Some? && c.line.value > 0
  }

  ghost predicate FnsGroup(a: map<string, Fn>, b: map<string, Fn>, c: map<string, Fn>) {
    forall n :: n in a && n in b && n in c ==>
      !Shields(a[n], b[n], c[n])
  }

  ghost predicate Groups(a: Records, b: Records, c: Records) {
    forall sf :: sf in a && sf in b && sf in c ==> FnsGroup(a[sf].functions, b[sf].functions, c[sf].functions)
  }

  lemma HitsGroup<K>(a: map<K, nat>, b: map<K, nat>, c: map<K, nat>)
    ensures MergeHits(MergeHits(a, b), c) == MergeHits(a, MergeHits(b, c))
  {
    var l, r := MergeHits(MergeHits(a, b), c), MergeHits(a, MergeHits(b, c));
    assert l.Keys == r.Keys;
    forall k | k in l ensures l[k] == r[k] {
    }
  }

  lemma FnGroupsAt(a: map<string, Fn>, b: map<string, Fn>, c: map<string, Fn>, n: string)
    requires n in a.Keys + b.Keys + c.Keys
    ensures MergeFns(MergeFns(a, b), c)[n] == MergeFns(a, MergeFns(b, c))[n]
       <==> !(n in a && n in b && n in c && Shields(a[n], b[n], c[n]))
  {
    if n in a && n in b && n in c {
      FirstSeenGroups(a[n].line, b[n].line, c[n].line);
      hide MergeLine;
    }
  }

  lemma FnsGroupIff(a: map<string, Fn>, b: map<string, Fn>, c: map<string, Fn>)
    ensures MergeFns(MergeFns(a, b), c) == MergeFns(a, MergeFns(b, c)) <==> FnsGroup(a, b, c)
  {
    var l, r := MergeFns(MergeFns(a, b), c), MergeFns(a, MergeFns(b, c));
    assert l.Keys == a.Keys + b.Keys + c.Keys && r.Keys == l.Keys;
    forall n | n in l
      ensures l[n] == r[n] <==> !(n in a && n in b && n in c && Shields(a[n], b[n], c[n]))
    {
      FnGroupsAt(a, b, c, n);
    }
    hide MergeFns, Shields;
  }

  lemma RecordGroupsIff(a: Record, b: Record, c: Record)
    ensures MergeRecord(MergeRecord(a, b), c) == MergeRecord(a, MergeRecord(b, c))
       <==> FnsGroup(a.functions, b.functions, c.functions)
  {
    HitsGroup(a.lineHits, b.lineHits, c.lineHits);
    HitsGroup(a.branches, b.branches, c.branches);
    FnsGroupIff(a.functions, b.functions, c.functions);
    hide MergeHits, MergeFns, FnsGroup;
  }

  /** Merging shards is associative, except exactly where a non-numeric line shields an unnumbered one. */
  lemma MergeGroupsAt(a: Records, b: Records, c: Records, sf: string)
    requires sf in a || sf in b || sf in c
    ensures Merge(Merge(a, b), c)[sf] == Merge(a, Merge(b, c))[sf]
       <==> (sf in a && sf in b && sf in c ==> FnsGroup(a[sf].functions, b[sf].functions, c[sf].functions))
  {
    if sf in a && sf in b && sf in c {
      RecordGroupsIff(a[sf], b[sf], c[sf]);
    }
    hide MergeRecord, FnsGroup;
  }

  lemma MergeKeys(a: Records, b: Records)
    ensures Merge(a, b).Keys == a.Keys + b.Keys
  {
    hide MergeRecord;
  }

  lemma MergeGroupsIff(a: Records, b: Records, c: Records)
    ensures Merge(Merge(a, b), c) == Merge(a, Merge(b, c)) <==> Groups(a, b, c)
  {
    hide MergeRecord, FnsGroup, Merge;
    MergeKeys(a, b);
    MergeKeys(b, c);
    MergeKeys(Merge(a, b), c);
    MergeKeys(a, Merge(b, c));
    var l, r := Merge(Merge(a, b), c), Merge(a, Merge(b, c));
    assert l.Keys == r.Keys == a.Keys + b.Keys + c.Keys;
    forall sf | sf in l
      ensures l[sf] == r[sf]
        <==> (sf in a && sf in b && sf in c ==> FnsGroup(a[sf].functions, b[sf].functions, c[sf].functions))
    {
      MergeGroupsAt(a, b, c, sf);
    }
  }

  // ---------------------------------------------------------------------- order

  /** A record without the two fields that are "first seen": its test name and its function lines. */
  function Counts(rec: Record): Record {
    rec.(testName := None, functions := map n | n in rec.functions :: Fn(Some(0), rec.functions[n].hits))
  }

  function CountsOf(records: Records): Records {
    map sf | sf in records :: Counts(records[sf])
  }

  lemma FnCountsMerge(a: Record, b: Record)
    ensures Counts(MergeRecord(a, b)).functions == MergeFns(Counts(a).functions, Counts(b).functions)
  {
  }

  lemma RecordCountsMerge(a: Record, b: Record)
    ensures Counts(MergeRecord(a, b)) == MergeRecord(Counts(a), Counts(b))
  {
    FnCountsMerge(a, b);
    hide MergeHits, MergeFns;
  }

  lemma CountsMerge(a: Records, b: Records)
    ensures CountsOf(Merge(a, b)) == Merge(CountsOf(a), CountsOf(b))
  {
    forall sf | sf in a && sf in b
      ensures Counts(MergeRecord(a[sf], b[sf])) == MergeRecord(Counts(a[sf]), Counts(b[sf]))
    {
      RecordCountsMerge(a[sf], b[sf]);
    }
    hide Counts, MergeRecord;
  }

  lemma HitsSwap<K>(a: map<K, nat>, b: map<K, nat>)
    ensures MergeHits(a, b) == MergeHits(b, a)
  {
  }

  lemma FnsSwap(a: map<string, Fn>, b: map<string, Fn>)
    requires (forall n :: n in a ==> a[n].line == Some(0)) && (forall n :: n in b ==> b[n].line == Some(0))
    ensures MergeFns(a, b) == MergeFns(b, a)
  {
  }

  lemma RecordCountsSwap(a: Record, b: Record)
    ensures MergeRecord(Counts(a), Counts(b)) == MergeRecord(Counts(b), Counts(a))
  {
    HitsSwap(a.lineHits, b.lineHits);
    HitsSwap(a.branches, b.branches);
    FnsSwap(Counts(a).functions, Counts(b).functions);
    hide MergeHits, MergeFns;
  }

  lemma CountsSwap(a: Records, b: Records)
    ensures Merge(CountsOf(a), CountsOf(b)) == Merge(CountsOf(b), CountsOf(a))
  {
    forall sf | sf in a && sf in b
      ensures MergeRecord(Counts(a[sf]), Counts(b[sf])) == MergeRecord(Counts(b[sf]), Counts(a[sf]))
    {
      RecordCountsSwap(a[sf], b[sf]);
    }
    hide Counts, MergeRecord;
  }

  lemma CountsGroup(a: Records, b: Records, c: Records)
    ensures Merge(Merge(CountsOf(a), CountsOf(b)), CountsOf(c)) == Merge(CountsOf(a), Merge(CountsOf(b), CountsOf(c)))
  {
    MergeGroupsIff(CountsOf(a), CountsOf(b), CountsOf(c));
    assert Groups(CountsOf(a), CountsOf(b), CountsOf(c));
    hide Merge, CountsOf, Groups;
  }

  /** The k-th shard can be folded last. */
  lemma {:induction false} FoldLast(shards: seq<Records>, k: nat)
    requires k < |shards|
    ensures CountsOf(MergeAll(shards)) == Merge(CountsOf(MergeAll(shards[..k] + shards[k + 1..])), CountsOf(shards[k]))
    decreases |shards|
  {
    var last := |shards| - 1;
    var front, rest := shards[..last], shards[..k] + shards[k + 1..];
    CountsMerge(MergeAll(front), shards[last]);
    if k == last {
      assert rest == front;
    } else {
      var less := front[..k] + front[k + 1..];
      assert rest[..|rest| - 1] == less && rest[|rest| - 1] == shards[last];
      FoldLast(front, k);
      CountsMerge(MergeAll(less), shards[last]);
      var x, y, z := MergeAll(less), shards[k], shards[last];
      CountsGroup(x, y, z);
      CountsSwap(y, z);
      CountsGroup(x, z, y);
    }
    hide CountsOf, Merge;
  }

  lemma RemoveFrom<T>(p: seq<T>, k: nat, front: seq<T>, x: T)
    requires k < |p| && p[k] == x && multiset(p) == multiset(front + [x])
    ensures multiset(p[..k] + p[k + 1..]) == multiset(front)
  {
    assert p == p[..k] + [x] + p[k + 1..];
    var rest := p[..k] + p[k + 1..];
    assert multiset(rest) == multiset(p) - multiset{x} by {
      assert multiset(p) == multiset(p[..k]) + multiset{x} + multiset(p[k + 1..]);
      assert multiset(rest) == multiset(p[..k]) + multiset(p[k + 1..]);
    }
    assert multiset(front) == multiset(front + [x]) - multiset{x};
  }

  /** No hit count depends on the order of the shards. */
  lemma {:induction false} CountsIgnoreOrder(p: seq<Records>, q: seq<Records>)
    requires multiset(p) == multiset(q)
    ensures CountsOf(MergeAll(p)) == CountsOf(MergeAll(q))
    decreases |q|
  {
    if q == [] {
      assert |p| == |multiset(p)| == 0;
    } else {
      var last := |q| - 1;
      var front, x := q[..last], q[last];
      assert q == front + [x];
      assert x in multiset(p);
      var k :| 0 <= k < |p| && p[k] == x;
      RemoveFrom(p, k, front, x);
      FoldLast(p, k);
      CountsIgnoreOrder(p[..k] + p[k + 1..], front);
      CountsMerge(MergeAll(front), x);
    }
    hide CountsOf, Merge;
  }

  // The two first-seen fields, and when the order shows in them.

  /** Two lines of one function that come out the same whichever is seen first. */
  predicate Swaps(x: Num, y: Num) {
    x == y || (x == Some(0) && y.Some?) || (y == Some(0) && x.Some?)
  }

  ghost predicate FnsSwapFree(a: map<string, Fn>, b: map<string, Fn>) {
    forall n :: n in a && n in b ==> Swaps(a[n].line, b[n].line)
  }

  lemma FnSwapAt(a: map<string, Fn>, b: map<string, Fn>, n: string)
    requires n in a.Keys + b.Keys
    ensures MergeFns(a, b)[n] == MergeFns(b, a)[n] <==> (n in a && n in b ==> Swaps(a[n].line, b[n].line))
  {
  }

  lemma FnsSwapIff(a: map<string, Fn>, b: map<string, Fn>)
    ensures MergeFns(a, b) == MergeFns(b, a) <==> FnsSwapFree(a, b)
  {
    var l, r := MergeFns(a, b), MergeFns(b, a);
    assert l.Keys == a.Keys + b.Keys && r.Keys == l.Keys;
    forall n | n in l ensures l[n] == r[n] <==> (n in a && n in b ==> Swaps(a[n].line, b[n].line)) {
      FnSwapAt(a, b, n);
    }
    hide MergeFns, Swaps;
  }

  ghost predicate SwapFree(a: Record, b: Record) {
    a.testName == b.testName && FnsSwapFree(a.functions, b.functions)
  }

  lemma RecordSwapIff(a: Record, b: Record)
    ensures MergeRecord(a, b) == MergeRecord(b, a) <==> SwapFree(a, b)
  {
    HitsSwap(a.lineHits, b.lineHits);
    HitsSwap(a.branches, b.branches);
    FnsSwapIff(a.functions, b.functions);
    hide MergeHits, MergeFns, FnsSwapFree;
  }

  /**
   * Two shards merge alike in either order if and only if the files they share have the
   * same test name, and the functions of those files have lines that are equal or, both
   * being numbers, at least one unknown (0).
   */
  lemma MergeSwapsIff(a: Records, b: Records)
    ensures Merge(a, b) == Merge(b, a) <==> forall sf :: sf in a && sf in b ==> SwapFree(a[sf], b[sf])
  {
    var l, r := Merge(a, b), Merge(b, a);
    assert l.Keys == r.Keys;
    forall sf | sf in l ensures l[sf] == r[sf] <==> (sf in a && sf in b ==> SwapFree(a[sf], b[sf])) {
      if sf in a && sf in b { RecordSwapIff(a[sf], b[sf]); }
      hide MergeRecord, SwapFree;
    }
    hide MergeRecord, SwapFree, Merge;
  }

  /** Two shards that place one function on different lines: the first one wins. */
  lemma LinesDependOnOrder()
    ensures exists a: Records, b: Records :: Merge(a, b) != Merge(b, a)
  {
    var fa, fb := map["g" := Fn(Some(3), 1)], map["g" := Fn(Some(7), 1)];
    var a, b := map["f" := EMPTY.(functions := fa)], map["f" := EMPTY.(functions := fb)];
    assert !Swaps(fa["g"].line, fb["g"].line);
    assert !SwapFree(a["f"], b["f"]);
    MergeSwapsIff(a, b);
  }

  // --------------------------------------------------------------------- totals

  function HitLines(rec: Record): set<Num> {
    set l | l in rec.lineHits && rec.lineHits[l] > 0
  }

  lemma HitLinesMerge(d: Record, s: Record)
    ensures HitLines(MergeRecord(d, s)) == HitLines(d) + HitLines(s)
  {
    hide MergeFns, Max;
  }

  /** Merging loses no line and no hit, and finds no line that neither side had. */
  lemma LinesOnlyGrow(d: Record, s: Record)
    ensures var m := MergeRecord(d, s);
            && m.lineHits.Keys == d.lineHits.Keys + s.lineHits.Keys
            && HitLines(m) == HitLines(d) + HitLines(s)
            && |d.lineHits.Keys| <= |m.lineHits.Keys| && |HitLines(d)| <= |HitLines(m)|
  {
    var m := MergeRecord(d, s);
    assert m.lineHits.Keys == d.lineHits.Keys + s.lineHits.Keys;
    HitLinesMerge(d, s);
    hide HitLines, MergeRecord;
    SubsetSize(HitLines(d), HitLines(m));
    SubsetSize(d.lineHits.Keys, m.lineHits.Keys);
  }

  /**
   * The functions-found total of a file shrinks in exactly one way: one shard only had
   * totals, the other a function table shorter than those totals.
   */
  lemma FunctionsFoundGrowIff(d: Record, s: Record)
    ensures P.FoundOf(MergeRecord(d, s)) >= P.FoundOf(d) && P.FoundOf(MergeRecord(d, s)) >= P.FoundOf(s)
       <==> !(d.functions == map[] && 0 < |s.functions| < d.fnf) && !(s.functions == map[] && 0 < |d.functions| < s.fnf)
  {
    var m := MergeFns(d.functions, s.functions);
    assert m.Keys == d.functions.Keys + s.functions.Keys;
    SubsetSize(d.functions.Keys, m.Keys);
    SubsetSize(s.functions.Keys, m.Keys);
    assert |m| == |m.Keys| && |d.functions| == |d.functions.Keys| && |s.functions| == |s.functions.Keys|;
    if d.functions == map[] { assert m.Keys == s.functions.Keys; }
    if s.functions == map[] { assert m.Keys == d.functions.Keys; }
    hide MergeHits, MergeFns;
  }
}
