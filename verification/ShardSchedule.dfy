/**
 * Splitting a package's test files over CI shards: the greedy
 * longest-processing-time schedule behind `--shard INDEX/TOTAL`.
 */
module ShardSchedule {
  import opened Prelude

  datatype Shard = Shard(index: nat, total: nat)
  datatype Entry<F> = Entry(file: F, weight: nat)
  datatype Bucket<F> = Bucket(files: seq<F>, weight: nat)

  /** A file whose size cannot be read counts as one byte. */
  function WeightOf<F>(file: F, size: F -> Option<nat>): nat {
    match size(file)
    case Some(bytes) => bytes
    case None => 1
  }

  function Weigh<F>(files: seq<F>, size: F -> Option<nat>): seq<Entry<F>> {
    seq(|files|, i requires 0 <= i < |files| => Entry(files[i], WeightOf(files[i], size)))
  }

  /** Heavier files first, equal weights by name. */
  function HeaviestFirst<F>(less: (F, F) -> bool): (Entry<F>, Entry<F>) -> bool {
    (x: Entry<F>, y: Entry<F>) => x.weight > y.weight || (x.weight == y.weight && less(x.file, y.file))
  }

  /** The bucket the reduction keeps: it moves on only for a strictly lighter one. */
  function Lightest<F>(buckets: seq<Bucket<F>>): (k: nat)
    requires buckets != []
    ensures k < |buckets|
    ensures forall b :: 0 <= b < |buckets| ==> buckets[k].weight <= buckets[b].weight
    ensures forall b :: 0 <= b < k ==> buckets[k].weight < buckets[b].weight
  {
    var n := |buckets|;
    if n == 1 then 0
    else
      var k := Lightest(buckets[..n - 1]);
      if buckets[n - 1].weight < buckets[k].weight then n - 1 else k
  }

  function Put<F>(buckets: seq<Bucket<F>>, k: nat, e: Entry<F>): seq<Bucket<F>>
    requires k < |buckets|
  {
    buckets[k := Bucket(buckets[k].files + [e.file], buckets[k].weight + e.weight)]
  }

  /** Every entry in turn goes to the lightest bucket. */
  function Pack<F>(entries: seq<Entry<F>>, m: nat): (buckets: seq<Bucket<F>>)
    requires m > 0
    ensures |buckets| == m
  {
    if entries == [] then seq(m, _ => Bucket([], 0))
    else
      var before := Pack(entries[..|entries| - 1], m);
      Put(before, Lightest(before), entries[|entries| - 1])
  }

  /** The buckets every shard computes for itself. */
  function Shards<F>(files: seq<F>, m: nat, size: F -> Option<nat>, less: (F, F) -> bool): (buckets: seq<Bucket<F>>)
    requires m > 0
    ensures |buckets| == m
  {
    Pack(Sort(Weigh(files, size), HeaviestFirst(less)), m)
  }

  method LightestBucket<F>(buckets: array<Bucket<F>>) returns (k: nat)
    requires buckets.Length > 0
    ensures k < buckets.Length && k == Lightest(buckets[..])
  {
    k := 0;
    var i := 1;
    while i < buckets.Length
      invariant 1 <= i <= buckets.Length
      invariant k < i && k == Lightest(buckets[..i])
    {
      assert buckets[..i + 1][..i] == buckets[..i];
      if buckets[i].weight < buckets[k].weight {
        k := i;
      }
      i := i + 1;
    }
    assert buckets[..] == buckets[..buckets.Length];
  }

  /** One turn of the scheduling loop. */
  method PutLightest<F>(buckets: array<Bucket<F>>, e: Entry<F>)
    requires buckets.Length > 0
    modifies buckets
    ensures buckets[..] == Put(old(buckets[..]), Lightest(old(buckets[..])), e)
  {
    var k := LightestBucket(buckets);
    var bucket := buckets[k];
    buckets[k] := Bucket(bucket.files + [e.file], bucket.weight + e.weight);
  }

  lemma PackNext<F>(entries: seq<Entry<F>>, i: nat, m: nat)
    requires m > 0 && i < |entries|
    ensures Pack(entries[..i + 1], m) ==
            var before := Pack(entries[..i], m); Put(before, Lightest(before), entries[i])
  {
    assert entries[..i + 1][..i] == entries[..i];
  }

  method FillBuckets<F>(buckets: array<Bucket<F>>, weighted: seq<Entry<F>>)
    requires buckets.Length > 0 && buckets[..] == Pack<F>([], buckets.Length)
    modifies buckets
    ensures buckets[..] == Pack(weighted, buckets.Length)
  {
    for i := 0 to |weighted|
      invariant buckets[..] == Pack(weighted[..i], buckets.Length)
    {
      PackNext(weighted, i, buckets.Length);
      PutLightest(buckets, weighted[i]);
    }
    assert weighted[..|weighted|] == weighted;
  }

  /**
   * The files this shard runs. Without `--shard` the discovered list is used as
   * it stands; otherwise the shard's bucket is returned in code-unit order.
   */
  method SelectShard<F>(files: seq<F>, shard: Option<Shard>, size: F -> Option<nat>,
                        less: (F, F) -> bool, unitLess: (F, F) -> bool)
    returns (selected: seq<F>)
    requires shard.Some? ==> 1 <= shard.value.index <= shard.value.total
    ensures shard.None? ==> selected == files
    ensures shard.Some? ==>
      selected == Sort(Shards(files, shard.value.total, size, less)[shard.value.index - 1].files, unitLess)
  {
    if shard.None? {
      return files;
    }
    var m := shard.value.total;
    var buckets := new Bucket<F>[m](_ => Bucket([], 0));
    assert buckets[..] == Pack<F>([], m);
    FillBuckets(buckets, Sort(Weigh(files, size), HeaviestFirst(less)));
    assert buckets[..][shard.value.index - 1] == buckets[shard.value.index - 1];
    selected := Sort(buckets[shard.value.index - 1].files, unitLess);
  }

  // ---------------------------------------------------------------- loads

  ghost function Sum(v: seq<nat>): nat {
    if v == [] then 0 else Sum(v[..|v| - 1]) + v[|v| - 1]
  }

  /** What machine `b` carries when item j of `v` sits on machine `a[j]`. */
  ghost function Load(a: seq<nat>, v: seq<nat>, b: nat): nat
    requires |a| == |v|
  {
    if a == [] then 0
    else Load(a[..|a| - 1], v[..|v| - 1], b) + if a[|a| - 1] == b then v[|v| - 1] else 0
  }

  ghost function LoadSum(a: seq<nat>, v: seq<nat>, m: nat): nat
    requires |a| == |v|
  {
    if m == 0 then 0 else LoadSum(a, v, m - 1) + Load(a, v, m - 1)
  }

  lemma {:induction false} LoadSumStep(a: seq<nat>, v: seq<nat>, m: nat)
    requires |a| == |v| && a != []
    ensures LoadSum(a, v, m) ==
            LoadSum(a[..|a| - 1], v[..|v| - 1], m) + if a[|a| - 1] < m then v[|v| - 1] else 0
  {
    if m > 0 {
      LoadSumStep(a, v, m - 1);
    }
  }

  /** Counting item by item or machine by machine gives the same total. */
  lemma {:induction false} LoadsAddUp(a: seq<nat>, v: seq<nat>, m: nat)
    requires |a| == |v| && forall j :: 0 <= j < |a| ==> a[j] < m
    ensures LoadSum(a, v, m) == Sum(v)
  {
    if a == [] {
      LoadSumEmpty(m);
    } else {
      LoadSumStep(a, v, m);
      LoadsAddUp(a[..|a| - 1], v[..|v| - 1], m);
    }
  }

  lemma {:induction false} LoadSumEmpty(m: nat)
    ensures LoadSum([], [], m) == 0
  {
    if m > 0 { LoadSumEmpty(m - 1); }
  }

  lemma {:induction false} LoadSumAtLeast(a: seq<nat>, v: seq<nat>, m: nat, lo: nat)
    requires |a| == |v| && forall b :: 0 <= b < m ==> Load(a, v, b) >= lo
    ensures LoadSum(a, v, m) >= m * lo
  {
    hide Load;
    if m > 0 {
      LoadSumAtLeast(a, v, m - 1, lo);
      assert m * lo == (m - 1) * lo + lo;
    }
  }

  lemma {:induction false} LoadSumAtMost(a: seq<nat>, v: seq<nat>, m: nat, hi: nat)
    requires |a| == |v| && forall b :: 0 <= b < m ==> Load(a, v, b) <= hi
    ensures LoadSum(a, v, m) <= m * hi
  {
    hide Load;
    if m > 0 {
      LoadSumAtMost(a, v, m - 1, hi);
      assert m * hi == (m - 1) * hi + hi;
    }
  }

  lemma {:induction false} ItemWithinLoad(a: seq<nat>, v: seq<nat>, j: nat)
    requires |a| == |v| && j < |a|
    ensures v[j] <= Load(a, v, a[j])
  {
    if j < |a| - 1 { ItemWithinLoad(a[..|a| - 1], v[..|v| - 1], j); }
  }

  /** `a` puts the items of `v` on `m` machines without loading any beyond `t`. */
  ghost predicate Fits(a: seq<nat>, v: seq<nat>, m: nat, t: nat) {
    && |a| == |v|
    && (forall j :: 0 <= j < |a| ==> a[j] < m)
    && (forall b :: 0 <= b < m ==> Load(a, v, b) <= t)
  }

  lemma PrefixFits(a: seq<nat>, v: seq<nat>, m: nat, t: nat)
    requires Fits(a, v, m, t) && a != []
    ensures Fits(a[..|a| - 1], v[..|a| - 1], m, t)
  {
    var init, items := a[..|a| - 1], v[..|a| - 1];
    forall b | 0 <= b < m ensures Load(init, items, b) <= t {
      assert Load(init, items, b) <= Load(a, v, b);
    }
  }

  // ------------------------------------------------- the schedule as homes

  function Weights<F>(entries: seq<Entry<F>>): seq<nat> {
    seq(|entries|, i requires 0 <= i < |entries| => entries[i].weight)
  }

  lemma LoadSnoc(a: seq<nat>, v: seq<nat>, x: nat, y: nat, b: nat)
    requires |a| == |v|
    ensures Load(a + [x], v + [y], b) == Load(a, v, b) + if x == b then y else 0
  {
    assert (a + [x])[..|a|] == a && (v + [y])[..|a|] == v;
  }

  /** The bucket each entry ends up in. */
  function Homes<F>(entries: seq<Entry<F>>, m: nat): (homes: seq<nat>)
    requires m > 0
    ensures |homes| == |entries| && forall j :: 0 <= j < |homes| ==> homes[j] < m
  {
    if entries == [] then []
    else
      var init := entries[..|entries| - 1];
      Homes(init, m) + [Lightest(Pack(init, m))]
  }

  lemma WeightsLast<F>(entries: seq<Entry<F>>)
    requires entries != []
    ensures var init := entries[..|entries| - 1];
      |Weights(init)| == |init| && Weights(entries) == Weights(init) + [entries[|init|].weight]
  {
  }

  lemma PackLast<F>(entries: seq<Entry<F>>, m: nat, b: nat)
    requires b < m && entries != []
    ensures var init, last := entries[..|entries| - 1], entries[|entries| - 1];
      var home := Lightest(Pack(init, m));
      && Pack(entries, m)[b].weight == Pack(init, m)[b].weight + (if b == home then last.weight else 0)
      && Homes(entries, m) == Homes(init, m) + [home]
  {
  }

  lemma {:induction false} PackLoads<F>(entries: seq<Entry<F>>, m: nat, b: nat)
    requires b < m
    ensures Pack(entries, m)[b].weight == Load(Homes(entries, m), Weights(entries), b)
  {
    if entries != [] {
      var init, last := entries[..|entries| - 1], entries[|entries| - 1];
      PackLoads(init, m, b);
      PackLast(entries, m, b);
      WeightsLast(entries);
      hide *;
      LoadSnoc(Homes(init, m), Weights(init), Lightest(Pack(init, m)), last.weight, b);
    }
  }

  // ------------------------------------------------------ the 4/3 bound

  ghost predicate Descending(v: seq<nat>) {
    forall i, j :: 0 <= i < j < |v| ==> v[i] >= v[j]
  }

  /** An item counts double when it is too big to share a machine of capacity `cap`. */
  ghost function Credits(v: seq<nat>, cap: int): seq<nat> {
    seq(|v|, i requires 0 <= i < |v| => if v[i] > cap then 2 else 1)
  }

  lemma CreditsOfPrefix(v: seq<nat>, cap: int)
    requires v != []
    ensures Credits(v, cap)[..|v| - 1] == Credits(v[..|v| - 1], cap)
  {
  }

  /**
   * A machine holding at most `t`, every item weighing at least `w > t/3`, takes
   * at most two credits: one item too big to share, or two that may.
   */
  lemma {:induction false} RivalCredits(a: seq<nat>, v: seq<nat>, b: nat, w: nat, t: nat)
    requires |a| == |v| && Load(a, v, b) <= t
    requires 3 * w > t && forall j :: 0 <= j < |v| ==> v[j] >= w
    ensures var c := Load(a, Credits(v, t - w), b);
            c <= 2 && (c >= 1 ==> Load(a, v, b) >= w) && (c == 2 ==> Load(a, v, b) > t - w)
  {
    if a != [] {
      CreditsOfPrefix(v, t - w);
      RivalCredits(a[..|a| - 1], v[..|v| - 1], b, w, t);
    }
  }

  /** A machine loaded beyond `cap` has at least two credits. */
  lemma {:induction false} GreedyCredits(a: seq<nat>, v: seq<nat>, b: nat, cap: nat)
    requires |a| == |v|
    ensures var c := Load(a, Credits(v, cap), b);
            (c == 0 ==> Load(a, v, b) == 0) && (c == 1 ==> Load(a, v, b) <= cap)
  {
    if a != [] {
      CreditsOfPrefix(v, cap);
      GreedyCredits(a[..|a| - 1], v[..|v| - 1], b, cap);
    }
  }

  lemma SumOfCredits(v: seq<nat>, cap: int)
    requires v != []
    ensures Sum(Credits(v, cap)) >= Sum(Credits(v[..|v| - 1], cap)) + 1
  {
    CreditsOfPrefix(v, cap);
  }

  /** A rival that keeps within `t` has at most two credits a machine. */
  lemma RivalSpends(rival: seq<nat>, v: seq<nat>, m: nat, w: nat, t: nat)
    requires Fits(rival, v, m, t)
    requires 3 * w > t && forall j :: 0 <= j < |v| ==> v[j] >= w
    ensures Sum(Credits(v, t - w)) <= 2 * m
  {
    var credits := Credits(v, t - w);
    forall b | 0 <= b < m ensures Load(rival, credits, b) <= 2 {
      RivalCredits(rival, v, b, w, t);
    }
    LoadSumAtMost(rival, credits, m, 2);
    LoadsAddUp(rival, credits, m);
  }

  /** Machines all loaded beyond `cap` hold at least two credits each. */
  lemma GreedySpends(greedy: seq<nat>, v: seq<nat>, m: nat, cap: nat)
    requires |greedy| == |v| && forall j :: 0 <= j < |greedy| ==> greedy[j] < m
    requires forall b :: 0 <= b < m ==> Load(greedy, v, b) > cap
    ensures Sum(Credits(v, cap)) >= 2 * m
  {
    var credits := Credits(v, cap);
    forall b | 0 <= b < m ensures Load(greedy, credits, b) >= 2 {
      GreedyCredits(greedy, v, b, cap);
    }
    LoadSumAtLeast(greedy, credits, m, 2);
    LoadsAddUp(greedy, credits, m);
  }

  /**
   * The least item, heavier than a third of `t`, still fits on the greedy's
   * least loaded machine: otherwise the greedy would already have spent every
   * one of the `2m` credits the rival has room for.
   */
  lemma LastBigItemFits(greedy: seq<nat>, rival: seq<nat>, v: seq<nat>, m: nat, least: nat, t: nat)
    requires m > 0 && Fits(rival, v, m, t) && |v| == |greedy| + 1 && Descending(v)
    requires forall j :: 0 <= j < |greedy| ==> greedy[j] < m
    requires forall b :: 0 <= b < m ==> Load(greedy, v[..|greedy|], b) >= least
    requires 3 * v[|greedy|] > t
    ensures least + v[|greedy|] <= t
  {
    var n, w := |greedy|, v[|greedy|];
    ItemWithinLoad(rival, v, n);
    if least + w > t {
      RivalSpends(rival, v, m, w, t);
      GreedySpends(greedy, v[..n], m, t - w);
      SumOfCredits(v, t - w);
      assert false;
    }
  }

  /** Graham's step: the item just placed on the least loaded machine. */
  lemma LastItemBound(greedy: seq<nat>, rival: seq<nat>, v: seq<nat>, m: nat, least: nat, t: nat)
    requires m > 0 && Fits(rival, v, m, t) && |v| == |greedy| + 1 && Descending(v)
    requires forall j :: 0 <= j < |greedy| ==> greedy[j] < m
    requires forall b :: 0 <= b < m ==> Load(greedy, v[..|greedy|], b) >= least
    ensures 3 * m * (least + v[|greedy|]) <= (4 * m - 1) * t
  {
    var w := v[|greedy|];
    if 3 * w > t {
      LastBigItemFits(greedy, rival, v, m, least, t);
      ScaledBound(m, least + w, t);
    } else {
      LoadSumAtMost(rival, v, m, t);
      LoadsAddUp(rival, v, m);
      LoadSumAtLeast(greedy, v[..|greedy|], m, least);
      LoadsAddUp(greedy, v[..|greedy|], m);
      assert m * least + w <= m * t;
      SmallItemArithmetic(m, least, w, t);
    }
  }

  lemma ScaledBound(m: nat, x: nat, t: nat)
    requires m > 0 && x <= t
    ensures 3 * m * x <= (4 * m - 1) * t
  {
    assert m * x <= m * t;
    assert t <= m * t;
    assert 3 * m * x == 3 * (m * x);
    assert (4 * m - 1) * t == 4 * (m * t) - t;
  }

  /** With a = m*least, b = m*w and c = m*t the bound is linear. */
  lemma SmallItemArithmetic(m: nat, least: nat, w: nat, t: nat)
    requires m > 0 && m * least + w <= m * t && 3 * w <= t
    ensures 3 * m * (least + w) <= (4 * m - 1) * t
  {
    var a, b, c := m * least, m * w, m * t;
    Spread(m, w, t);
    assert 3 * b - 3 * w <= c - t;
    assert 3 * a + 3 * b <= 4 * c - t;
    Collect(m, least, w, t);
  }

  lemma Spread(m: nat, w: nat, t: nat)
    requires m > 0 && 3 * w <= t
    ensures 3 * (m * w) - 3 * w <= m * t - t
  {
    Scale(m - 1, 3 * w, t);
    assert (m - 1) * (3 * w) == 3 * (m * w) - 3 * w;
    assert (m - 1) * t == m * t - t;
  }

  lemma Collect(m: nat, least: nat, w: nat, t: nat)
    ensures 3 * m * (least + w) == 3 * (m * least) + 3 * (m * w)
    ensures (4 * m - 1) * t == 4 * (m * t) - t
  {
  }

  lemma WeightsOfPrefix<F>(entries: seq<Entry<F>>)
    requires entries != []
    ensures Weights(entries)[..|entries| - 1] == Weights(entries[..|entries| - 1])
  {
  }

  /** Every load is at least that of the lightest bucket. */
  lemma LoadsFromLightest<F>(entries: seq<Entry<F>>, m: nat, least: nat)
    requires m > 0 && least == Pack(entries, m)[Lightest(Pack(entries, m))].weight
    ensures |Homes(entries, m)| == |entries| && forall j :: 0 <= j < |entries| ==> Homes(entries, m)[j] < m
    ensures forall c :: 0 <= c < m ==> Load(Homes(entries, m), Weights(entries), c) >= least
  {
    assert |Weights(entries)| == |entries|;
    hide Homes, Load, Weights;
    forall c | 0 <= c < m ensures Load(Homes(entries, m), Weights(entries), c) >= least {
      PackLoads(entries, m, c);
    }
    hide Pack, Lightest;
  }

  /** The same bound, the item's weight and the weights before it given apart. */
  lemma LastWeightBound(greedy: seq<nat>, rival: seq<nat>, before: seq<nat>, w: nat, m: nat, least: nat, t: nat)
    requires m > 0 && Fits(rival, before + [w], m, t) && |before| == |greedy| && Descending(before + [w])
    requires forall j :: 0 <= j < |greedy| ==> greedy[j] < m
    requires forall b :: 0 <= b < m ==> Load(greedy, before, b) >= least
    ensures 3 * m * (least + w) <= (4 * m - 1) * t
  {
    hide *;
    assert (before + [w])[..|greedy|] == before;
    LastItemBound(greedy, rival, before + [w], m, least, t);
  }

  lemma LastEntryWithinGraham<F>(entries: seq<Entry<F>>, m: nat, rival: seq<nat>, t: nat)
    requires m > 0 && entries != [] && Descending(Weights(entries)) && Fits(rival, Weights(entries), m, t)
    ensures var before := Pack(entries[..|entries| - 1], m);
            3 * m * (before[Lightest(before)].weight + entries[|entries| - 1].weight) <= (4 * m - 1) * t
  {
    hide *;
    var init := entries[..|entries| - 1];
    var least := Pack(init, m)[Lightest(Pack(init, m))].weight;
    WeightsLast(entries);
    LoadsFromLightest(init, m, least);
    LastWeightBound(Homes(init, m), rival, Weights(init), entries[|init|].weight, m, least, t);
  }

  lemma PackElsewhere<F>(entries: seq<Entry<F>>, m: nat, b: nat)
    requires b < m && entries != [] && b != Lightest(Pack(entries[..|entries| - 1], m))
    ensures Pack(entries, m)[b] == Pack(entries[..|entries| - 1], m)[b]
  {
  }

  lemma PackPlaces<F>(entries: seq<Entry<F>>, m: nat)
    requires m > 0 && entries != []
    ensures var before := Pack(entries[..|entries| - 1], m);
            Pack(entries, m)[Lightest(before)].weight
            == before[Lightest(before)].weight + entries[|entries| - 1].weight
  {
  }

  lemma NothingPacked<F>(m: nat, b: nat)
    requires b < m
    ensures Pack<F>([], m)[b].weight == 0
  {
  }

  lemma EarlierFit<F>(entries: seq<Entry<F>>, m: nat, rival: seq<nat>, t: nat)
    requires entries != [] && Descending(Weights(entries)) && Fits(rival, Weights(entries), m, t)
    ensures |rival| == |entries|
    ensures var n := |entries| - 1; Descending(Weights(entries[..n])) && Fits(rival[..n], Weights(entries[..n]), m, t)
  {
    WeightsOfPrefix(entries);
    assert |rival| == |Weights(entries)| == |entries|;
    PrefixFits(rival, Weights(entries), m, t);
  }

  /** The schedule of heaviest-first entries against any rival assignment of the same entries. */
  lemma {:induction false} PackWithinGraham<F>(entries: seq<Entry<F>>, m: nat, rival: seq<nat>, t: nat, b: nat)
    requires b < m && Descending(Weights(entries)) && Fits(rival, Weights(entries), m, t)
    ensures 3 * m * Pack(entries, m)[b].weight <= (4 * m - 1) * t
  {
    hide *;
    if entries == [] {
      NothingPacked<F>(m, b);
      ScaledBound(m, 0, t);
    } else if b == Lightest(Pack(entries[..|entries| - 1], m)) {
      PackPlaces(entries, m);
      LastEntryWithinGraham(entries, m, rival, t);
    } else {
      var n := |entries| - 1;
      PackElsewhere(entries, m, b);
      EarlierFit(entries, m, rival, t);
      PackWithinGraham(entries[..n], m, rival[..n], t, b);
    }
  }

  // ------------------------------------- the same files in another order

  function Without<T>(s: seq<T>, i: nat): seq<T>
    requires i < |s|
  {
    s[..i] + s[i + 1..]
  }

  lemma WithoutSnoc<T>(s: seq<T>, i: nat)
    requires i < |s| - 1
    ensures Without(s, i) == Without(s[..|s| - 1], i) + [s[|s| - 1]]
  {
  }

  lemma {:induction false} LoadWithout(a: seq<nat>, v: seq<nat>, i: nat, b: nat)
    requires |a| == |v| && i < |a|
    ensures Load(a, v, b) == Load(Without(a, i), Without(v, i), b) + if a[i] == b then v[i] else 0
  {
    var n := |a| - 1;
    var a', v' := a[..n], v[..n];
    assert a == a' + [a[n]] && v == v' + [v[n]];
    LoadSnoc(a', v', a[n], v[n], b);
    hide Load;
    if i == n {
      assert Without(a, i) == a' && Without(v, i) == v';
    } else {
      LoadWithout(a', v', i, b);
      WithoutSnoc(a, i);
      WithoutSnoc(v, i);
      LoadSnoc(Without(a', i), Without(v', i), a[n], v[n], b);
    }
  }

  lemma MultisetWithout<T>(s: seq<T>, i: nat)
    requires i < |s|
    ensures multiset(Without(s, i)) == multiset(s) - multiset{s[i]}
  {
    assert s == s[..i] + [s[i]] + s[i + 1..];
  }

  /** The last entry of one arrangement stands somewhere in the other; without it they still match. */
  lemma FindLast<T>(from: seq<T>, to: seq<T>) returns (i: nat)
    requires multiset(from) == multiset(to) && to != []
    ensures i < |from| && from[i] == to[|to| - 1]
    ensures multiset(Without(from, i)) == multiset(to[..|to| - 1])
  {
    var n := |to| - 1;
    assert to[n] in multiset(from);
    i :| 0 <= i < |from| && from[i] == to[n];
    MultisetWithout(from, i);
    MultisetWithout(to, n);
    assert Without(to, n) == to[..n];
  }

  lemma CarryOne<F>(from: seq<Entry<F>>, to: seq<Entry<F>>, i: nat, a: seq<nat>, rest: seq<nat>, b: nat)
    requires |a| == |from| && i < |from| && to != [] && |rest| == |to| - 1 && from[i] == to[|to| - 1]
    requires Load(rest, Weights(to[..|to| - 1]), b) == Load(Without(a, i), Weights(Without(from, i)), b)
    ensures Load(rest + [a[i]], Weights(to), b) == Load(a, Weights(from), b)
  {
    hide Load;
    var n := |to| - 1;
    LoadWithout(a, Weights(from), i, b);
    assert Without(Weights(from), i) == Weights(Without(from, i));
    assert Weights(to) == Weights(to[..n]) + [to[n].weight];
    LoadSnoc(rest, Weights(to[..n]), a[i], to[n].weight, b);
  }

  /** An assignment of one arrangement of the entries carries over to any other. */
  lemma {:induction false} CarryOver<F>(from: seq<Entry<F>>, to: seq<Entry<F>>, a: seq<nat>, m: nat)
    returns (moved: seq<nat>)
    requires multiset(from) == multiset(to) && |a| == |from| && forall j :: 0 <= j < |a| ==> a[j] < m
    ensures |moved| == |to| && forall j :: 0 <= j < |moved| ==> moved[j] < m
    ensures forall b :: Load(moved, Weights(to), b) == Load(a, Weights(from), b)
    decreases |to|
  {
    assert |multiset(from)| == |from| && |multiset(to)| == |to|;
    if to == [] {
      moved := [];
    } else {
      hide Load, Weights;
      var n := |to| - 1;
      var i := FindLast(from, to);
      var rest := CarryOver(Without(from, i), to[..n], Without(a, i), m);
      moved := rest + [a[i]];
      forall b ensures Load(moved, Weights(to), b) == Load(a, Weights(from), b) {
        CarryOne(from, to, i, a, rest, b);
      }
    }
  }

  lemma HeaviestFirstTotal<F(!new)>(less: (F, F) -> bool)
    requires StrictTotal(less)
    ensures StrictTotal(HeaviestFirst(less))
  {
    var lt := HeaviestFirst(less);
    forall x ensures !lt(x, x) {
      assert !less(x.file, x.file);
    }
    forall x, y | x != y ensures lt(x, y) || lt(y, x) {
      assert x.file != y.file || x.weight != y.weight;
    }
    forall x, y, z | lt(x, y) && lt(y, z) ensures lt(x, z) {
    }
  }

  lemma SortedDescends<F(!new)>(entries: seq<Entry<F>>, less: (F, F) -> bool)
    requires SortedBy(entries, HeaviestFirst(less))
    ensures Descending(Weights(entries))
  {
    forall i, j | 0 <= i < j < |entries| ensures Weights(entries)[i] >= Weights(entries)[j] {
      assert !HeaviestFirst(less)(entries[j], entries[i]);
    }
  }

  // ------------------------------------------------------------ in bytes

  /** What each file holds: its size in bytes, or one byte if that cannot be read. */
  ghost predicate Holds<F>(files: seq<F>, size: F -> Option<nat>, bytes: F -> nat) {
    forall f :: f in files ==> size(f) == Some(bytes(f)) || (size(f) == None && bytes(f) == 1)
  }

  ghost function BytesOf<F>(files: seq<F>, bytes: F -> nat): (v: seq<nat>)
    ensures |v| == |files|
  {
    seq(|files|, i requires 0 <= i < |files| => bytes(files[i]))
  }

  ghost function TotalBytes<F>(files: seq<F>, bytes: F -> nat): nat {
    Sum(BytesOf(files, bytes))
  }

  lemma WeightsAreBytes<F>(files: seq<F>, size: F -> Option<nat>, bytes: F -> nat)
    requires Holds(files, size, bytes)
    ensures Weights(Weigh(files, size)) == BytesOf(files, bytes)
    ensures forall e :: e in Weigh(files, size) ==> e.weight == bytes(e.file)
  {
    forall i | 0 <= i < |files| ensures WeightOf(files[i], size) == bytes(files[i]) {
      assert files[i] in files;
    }
  }

  /**
   * Graham's bound for the shards: if some assignment of the same files to `m` shards
   * keeps the bytes of every shard within `t`, the files of no shard of ours hold more
   * than (4/3 - 1/(3m)) t bytes.
   */
  lemma ShardsWithinGraham<F(!new)>(files: seq<F>, m: nat, size: F -> Option<nat>, bytes: F -> nat,
                                    less: (F, F) -> bool, rival: seq<nat>, t: nat, b: nat)
    requires b < m && StrictTotal(less) && Holds(files, size, bytes) && Fits(rival, BytesOf(files, bytes), m, t)
    ensures 3 * m * TotalBytes(Shards(files, m, size, less)[b].files, bytes) <= (4 * m - 1) * t
  {
    hide *;
    WeightsAreBytes(files, size, bytes);
    WeightsWithinGraham(files, m, size, less, rival, t, b);
    ShardsPartition(files, m, size, bytes, less);
  }

  lemma WeightsWithinGraham<F(!new)>(files: seq<F>, m: nat, size: F -> Option<nat>, less: (F, F) -> bool,
                                     rival: seq<nat>, t: nat, b: nat)
    requires b < m && StrictTotal(less) && Fits(rival, Weights(Weigh(files, size)), m, t)
    ensures 3 * m * Shards(files, m, size, less)[b].weight <= (4 * m - 1) * t
  {
    var entries := Sort(Weigh(files, size), HeaviestFirst(less));
    HeaviestFirstTotal(less);
    SortSorts(Weigh(files, size), HeaviestFirst(less));
    SortedDescends(entries, less);
    var moved := CarryOver(Weigh(files, size), entries, rival, m);
    PackWithinGraham(entries, m, moved, t, b);
  }

  lemma {:induction false} WeighCounts<F>(files: seq<F>, size: F -> Option<nat>, e: Entry<F>)
    ensures multiset(Weigh(files, size))[e] ==
            if e.weight == WeightOf(e.file, size) then multiset(files)[e.file] else 0
  {
    if files != [] {
      var n := |files| - 1;
      WeighCounts(files[..n], size, e);
      assert files == files[..n] + [files[n]];
      assert Weigh(files, size) == Weigh(files[..n], size) + [Entry(files[n], WeightOf(files[n], size))];
    }
  }

  /** Every runner computes the same shards, in whatever order it discovered the files. */
  lemma ShardsAgree<F(!new)>(files: seq<F>, others: seq<F>, m: nat, size: F -> Option<nat>, less: (F, F) -> bool)
    requires m > 0 && StrictTotal(less) && multiset(files) == multiset(others)
    ensures Shards(files, m, size, less) == Shards(others, m, size, less)
  {
    forall e ensures multiset(Weigh(files, size))[e] == multiset(Weigh(others, size))[e] {
      WeighCounts(files, size, e);
      WeighCounts(others, size, e);
    }
    HeaviestFirstTotal(less);
    SortAgrees(Weigh(files, size), Weigh(others, size), HeaviestFirst(less));
  }

  // ------------------------------------------------ partition and balance

  function AllFiles<F>(buckets: seq<Bucket<F>>): seq<F> {
    if buckets == [] then [] else AllFiles(buckets[..|buckets| - 1]) + buckets[|buckets| - 1].files
  }

  lemma AllFilesLast<F>(buckets: seq<Bucket<F>>)
    requires buckets != []
    ensures multiset(AllFiles(buckets)) ==
            multiset(AllFiles(buckets[..|buckets| - 1])) + multiset(buckets[|buckets| - 1].files)
  {
  }

  lemma {:induction false} PutAddsOne<F>(buckets: seq<Bucket<F>>, k: nat, e: Entry<F>)
    requires k < |buckets|
    ensures multiset(AllFiles(Put(buckets, k, e))) == multiset(AllFiles(buckets)) + multiset{e.file}
  {
    hide AllFiles;
    var n := |buckets| - 1;
    var after := Put(buckets, k, e);
    AllFilesLast(buckets);
    AllFilesLast(after);
    if k == n {
      assert after[..n] == buckets[..n];
      assert multiset(after[n].files) == multiset(buckets[n].files) + multiset{e.file};
    } else {
      PutAddsOne(buckets[..n], k, e);
      assert after[..n] == Put(buckets[..n], k, e);
    }
  }

  lemma {:induction false} NoFiles<F>(m: nat)
    ensures AllFiles<F>(seq(m, _ => Bucket([], 0))) == []
  {
    if m > 0 {
      NoFiles<F>(m - 1);
      assert seq<Bucket<F>>(m, _ => Bucket([], 0))[..m - 1] == seq<Bucket<F>>(m - 1, _ => Bucket([], 0));
    }
  }

  function Names<F>(entries: seq<Entry<F>>): seq<F> {
    seq(|entries|, i requires 0 <= i < |entries| => entries[i].file)
  }

  lemma {:induction false} PackKeepsFiles<F>(entries: seq<Entry<F>>, m: nat)
    requires m > 0
    ensures multiset(AllFiles(Pack(entries, m))) == multiset(Names(entries))
  {
    if entries == [] {
      NoFiles<F>(m);
    } else {
      var n := |entries| - 1;
      var before := Pack(entries[..n], m);
      assert Pack(entries, m) == Put(before, Lightest(before), entries[n]);
      assert Names(entries) == Names(entries[..n]) + [entries[n].file];
      hide Pack, Put, AllFiles, Names;
      PackKeepsFiles(entries[..n], m);
      PutAddsOne(before, Lightest(before), entries[n]);
    }
  }

  lemma TotalSnoc<F>(files: seq<F>, f: F, bytes: F -> nat)
    ensures TotalBytes(files + [f], bytes) == TotalBytes(files, bytes) + bytes(f)
  {
    assert BytesOf(files + [f], bytes) == BytesOf(files, bytes) + [bytes(f)];
  }

  lemma {:induction false} PackHoldsBytes<F>(entries: seq<Entry<F>>, m: nat, bytes: F -> nat, b: nat)
    requires b < m && forall e :: e in entries ==> e.weight == bytes(e.file)
    ensures Pack(entries, m)[b].weight == TotalBytes(Pack(entries, m)[b].files, bytes)
  {
    if entries != [] {
      var n := |entries| - 1;
      var before := Pack(entries[..n], m);
      var after := Pack(entries, m);
      assert after == Put(before, Lightest(before), entries[n]);
      assert entries[n] in entries;
      hide Pack, TotalBytes, Lightest;
      PackHoldsBytes(entries[..n], m, bytes, b);
      TotalSnoc(before[b].files, entries[n].file, bytes);
    }
  }

  lemma {:induction false} NamesCount<F>(entries: seq<Entry<F>>, others: seq<Entry<F>>)
    requires multiset(entries) == multiset(others)
    ensures multiset(Names(entries)) == multiset(Names(others))
    decreases |entries|
  {
    assert |multiset(entries)| == |entries| && |multiset(others)| == |others|;
    if entries != [] {
      var n := |entries| - 1;
      assert entries[n] in multiset(others);
      var i :| 0 <= i < |others| && others[i] == entries[n];
      MultisetWithout(others, i);
      MultisetWithout(entries, n);
      assert Without(entries, n) == entries[..n];
      NamesCount(entries[..n], Without(others, i));
      assert Names(entries) == Names(entries[..n]) + [entries[n].file];
      assert Names(Without(others, i)) == Without(Names(others), i);
      MultisetWithout(Names(others), i);
    }
  }

  /**
   * The shards hold every discovered file exactly as often as it was discovered, and the
   * weight of each is the bytes of its files.
   */
  lemma ShardsPartition<F(!new)>(files: seq<F>, m: nat, size: F -> Option<nat>, bytes: F -> nat, less: (F, F) -> bool)
    requires m > 0 && Holds(files, size, bytes)
    ensures var shards := Shards(files, m, size, less);
            && multiset(AllFiles(shards)) == multiset(files)
            && forall b :: 0 <= b < m ==> shards[b].weight == TotalBytes(shards[b].files, bytes)
  {
    var weighed := Weigh(files, size);
    var entries := Sort(weighed, HeaviestFirst(less));
    WeightsAreBytes(files, size, bytes);
    forall e | e in entries ensures e.weight == bytes(e.file) {
      assert e in multiset(weighed);
    }
    hide TotalBytes, Holds, WeightOf, Pack, AllFiles;
    PackKeepsFiles(entries, m);
    forall b | 0 <= b < m
      ensures Pack(entries, m)[b].weight == TotalBytes(Pack(entries, m)[b].files, bytes)
    {
      PackHoldsBytes(entries, m, bytes, b);
    }
    NamesCount(entries, weighed);
    assert Names(weighed) == files;
  }

  lemma {:induction false} PackBalanced<F>(entries: seq<Entry<F>>, m: nat, largest: nat, b: nat, c: nat)
    requires b < m && c < m && forall e :: e in entries ==> e.weight <= largest
    ensures Pack(entries, m)[b].weight <= Pack(entries, m)[c].weight + largest
  {
    if entries != [] {
      PackBalanced(entries[..|entries| - 1], m, largest, b, c);
    }
  }

  lemma {:induction false} LoadSumSpread(a: seq<nat>, v: seq<nat>, m: nat, b: nat, x: nat, spread: nat)
    requires |a| == |v| && Load(a, v, b) == x
    requires forall c :: 0 <= c < m ==> x <= Load(a, v, c) + spread
    ensures b < m ==> m * x <= LoadSum(a, v, m) + (m - 1) * spread
    ensures b >= m ==> m * x <= LoadSum(a, v, m) + m * spread
  {
    if m > 0 {
      LoadSumSpread(a, v, m - 1, b, x, spread);
      assert m * x == (m - 1) * x + x;
      assert m * spread == (m - 1) * spread + spread;
      if m > 1 {
        assert (m - 1) * spread == (m - 2) * spread + spread;
      }
    }
  }

  /**
   * No two shards differ by more bytes than the largest file holds, and no shard exceeds
   * its fair share by more than (m-1)/m of that.
   */
  lemma ShardsBalanced<F(!new)>(files: seq<F>, m: nat, size: F -> Option<nat>, bytes: F -> nat, less: (F, F) -> bool,
                                largest: nat, b: nat, c: nat)
    requires b < m && c < m && Holds(files, size, bytes) && forall f :: f in files ==> bytes(f) <= largest
    ensures var shards := Shards(files, m, size, less);
      && TotalBytes(shards[b].files, bytes) <= TotalBytes(shards[c].files, bytes) + largest
      && m * TotalBytes(shards[b].files, bytes) <= TotalBytes(files, bytes) + (m - 1) * largest
  {
    var weighed := Weigh(files, size);
    var entries := Sort(weighed, HeaviestFirst(less));
    WeightsAreBytes(files, size, bytes);
    forall e | e in entries ensures e.weight <= largest {
      assert e in multiset(weighed);
      var i :| 0 <= i < |weighed| && weighed[i] == e;
      assert files[i] in files;
    }
    ShardsPartition(files, m, size, bytes, less);
    assert TotalBytes(files, bytes) == Sum(Weights(weighed));
    hide TotalBytes, Holds, Weights, Homes, Load, Pack, Sum;
    forall d | 0 <= d < m
      ensures Load(Homes(entries, m), Weights(entries), d) == Pack(entries, m)[d].weight
      ensures Pack(entries, m)[b].weight <= Pack(entries, m)[d].weight + largest
    {
      PackLoads(entries, m, d);
      PackBalanced(entries, m, largest, b, d);
    }
    LoadSumSpread(Homes(entries, m), Weights(entries), m, b, Pack(entries, m)[b].weight, largest);
    assert |Homes(entries, m)| == |Weights(entries)|;
    LoadsAddUp(Homes(entries, m), Weights(entries), m);
    SumOfWeights(entries, weighed);
  }

  /** Putting everything on machine 0 turns a sum into a load, which any order keeps. */
  lemma SumOfWeights<F>(entries: seq<Entry<F>>, others: seq<Entry<F>>)
    requires multiset(entries) == multiset(others)
    ensures Sum(Weights(entries)) == Sum(Weights(others))
  {
    var a := seq(|entries|, _ => 0);
    var moved := CarryOver(entries, others, a, 1);
    LoadsAddUp(a, Weights(entries), 1);
    LoadsAddUp(moved, Weights(others), 1);
    assert LoadSum(a, Weights(entries), 1) == LoadSum(a, Weights(entries), 0) + Load(a, Weights(entries), 0);
    assert LoadSum(moved, Weights(others), 1) == LoadSum(moved, Weights(others), 0) + Load(moved, Weights(others), 0);
  }
}
