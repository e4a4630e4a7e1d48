/**
 * The report on a file the merger printed: its files, lines, functions and branches are
 * those of the tables it was printed from.
 */
module LcovTotals {
  import opened Prelude
  import opened Strings
  import opened TextFields
  import opened Lcov
  import opened P = LcovPrint
  import opened M = LcovScrubMerge
  import opened LcovStrip
  import opened R = LcovReport

  // --------------------------------------------------------------- the found and the hit

  function HitKeys<K>(hits: map<K, nat>): set<K> {
    set k | k in hits && hits[k] > 0
  }

  function Called(fns: map<string, Fn>): set<string> {
    set n | n in fns && fns[n].hits > 0
  }

  /** What one table amounts to; without a function table the shards' own totals stand. */
  function StatsOf(rec: Record): Stats {
    Stats(1, |rec.lineHits|, |HitKeys(rec.lineHits)|,
          if rec.functions == map[] then rec.fnf else |rec.functions|,
          if rec.functions == map[] then rec.fnh else |Called(rec.functions)|,
          |rec.branches|, |HitKeys(rec.branches)|)
  }

  function Plus(a: Stats, b: Stats): Stats {
    Stats(a.files + b.files, a.lines + b.lines, a.linesHit + b.linesHit, a.fns + b.fns, a.fnsHit + b.fnsHit,
          a.branches + b.branches, a.branchesHit + b.branchesHit)
  }

  function StatsOfAll(records: Lcov.Records, files: seq<string>): Stats
    requires forall sf :: sf in files ==> sf in records
  {
    if files == [] then NO_STATS else Plus(StatsOf(records[files[0]]), StatsOfAll(records, files[1..]))
  }

  lemma SetStep<K>(order: seq<K>, hit: set<K>, all: set<K>)
    requires order != [] && Distinct(order)
    requires all == set k | k in order && k in hit
    ensures var rest := set k | k in order[1..] && k in hit;
      |all| == (if order[0] in hit then 1 else 0) + |rest| && Distinct(order[1..])
  {
    var rest := set k | k in order[1..] && k in hit;
    assert order[0] !in order[1..];
    assert all == if order[0] in hit then {order[0]} + rest else rest;
  }

  lemma {:induction false} EntriesHit<K(!new)>(hits: map<K, nat>, order: seq<K>)
    requires (forall k :: k in order ==> k in hits) && Distinct(order)
    ensures HitEntries(hits, order) == |set k | k in order && k in HitKeys(hits)|
    decreases |order|
  {
    if order != [] {
      SetStep(order, HitKeys(hits), set k | k in order && k in HitKeys(hits));
      EntriesHit(hits, order[1..]);
    }
  }

  lemma {:induction false} FnsHit(fns: map<string, Fn>, names: seq<string>)
    requires (forall n :: n in names ==> n in fns) && Distinct(names)
    ensures HitFns(fns, names) == |set n | n in names && n in Called(fns)|
    decreases |names|
  {
    if names != [] {
      SetStep(names, Called(fns), set n | n in names && n in Called(fns));
      FnsHit(fns, names[1..]);
    }
  }

  lemma AllHit<K(!new)>(hits: map<K, nat>, order: seq<K>)
    requires Enumerates(order, hits.Keys)
    ensures HitEntries(hits, order) == |HitKeys(hits)|
  {
    assert Distinct(order);
    EntriesHit(hits, order);
    assert HitKeys(hits) == set k | k in order && k in HitKeys(hits);
  }

  lemma AllCalled(fns: map<string, Fn>, names: seq<string>)
    requires Enumerates(names, fns.Keys)
    ensures HitFns(fns, names) == |Called(fns)|
  {
    assert Distinct(names);
    FnsHit(fns, names);
    assert Called(fns) == set n | n in names && n in Called(fns);
  }

  // -------------------------------------------------------------- a printed record

  predicate HeadTag(t: string) {
    t == "TN" || t == "SF" || t == "FN" || t == "FNDA"
  }

  predicate HeadRows(fs: seq<Field>) {
    forall i :: 0 <= i < |fs| ==> HeadTag(fs[i].tag)
  }

  lemma HeadRow(f: Field, head: string)
    requires HeadTag(f.tag) && FnTotal(head)
    ensures !Answers(Text(f), head)
  {
    assert "FNF:"[..3] == "FNF" && "FNH:"[..3] == "FNH";
    TagShape(f.tag);
    hide Text;
    if StartsWith(Text(f), head) { M.HeadTag(f, head); }
  }

  lemma {:induction false} HeadSilent(fs: seq<Field>, head: string)
    requires HeadRows(fs) && FnTotal(head)
    ensures Silent(Lines(fs), head)
    decreases |fs|
  {
    hide HeadTag, Text, FnTotal, Answers;
    if fs != [] {
      HeadRow(fs[0], head);
      HeadSilent(fs[1..], head);
    }
  }

  /** Everything printed before the function totals, and everything behind. */
  function Upper(sf: string, rec: Record, o: Order): seq<Field>
    requires Within(rec, o)
  {
    [Field("TN", Title(rec)), Field("SF", sf)]
    + (FnFields(rec.functions, o.names) + FndaFields(rec.functions, o.names))
  }

  function Lower(rec: Record, o: Order): seq<Field>
    requires Within(rec, o)
  {
    BrdaFields(rec.branches, o.keys) + (BranchTotals(rec, o)
    + (DaFields(rec.lineHits, o.lns) + LineTotals(rec, o)))
  }

  lemma TaggedHead(fs: seq<Field>, tag: string)
    requires Tagged(fs, {tag}) && HeadTag(tag)
    ensures HeadRows(fs)
  {
    hide HeadTag;
  }

  lemma HeadConcat(a: seq<Field>, b: seq<Field>)
    requires HeadRows(a) && HeadRows(b)
    ensures HeadRows(a + b)
  {
    hide HeadTag;
  }

  lemma UpperIs(sf: string, rec: Record, o: Order)
    requires Within(rec, o)
    ensures (forall n :: n in o.names ==> n in rec.functions) && HeadTag("FN") && HeadTag("FNDA")
    ensures HeadRows([Field("TN", Title(rec)), Field("SF", sf)])
    ensures Upper(sf, rec, o) == [Field("TN", Title(rec)), Field("SF", sf)]
      + (FnFields(rec.functions, o.names) + FndaFields(rec.functions, o.names))
  {
    hide FnFields, FndaFields, Title;
  }

  lemma UpperHead(sf: string, rec: Record, o: Order)
    requires Within(rec, o)
    ensures HeadRows(Upper(sf, rec, o))
  {
    hide *;
    UpperIs(sf, rec, o);
    var a, b := FnFields(rec.functions, o.names), FndaFields(rec.functions, o.names);
    FnsTagged(rec.functions, o.names);
    TaggedHead(a, "FN");
    TaggedHead(b, "FNDA");
    HeadConcat(a, b);
    HeadConcat([Field("TN", Title(rec)), Field("SF", sf)], a + b);
  }

  lemma Regroup<T>(h: seq<T>, a: seq<T>, b: seq<T>, c: seq<T>, rest: seq<T>)
    ensures h + (a + (b + (c + rest))) == (h + (a + b)) + (c + rest)
  {
  }

  lemma RecordParts(sf: string, rec: Record, o: Order)
    requires Within(rec, o)
    ensures [Field("TN", Title(rec)), Field("SF", sf)] + Body(rec, o)
      == Upper(sf, rec, o) + (P.Totals(rec, o) + Lower(rec, o))
  {
    var head := [Field("TN", Title(rec)), Field("SF", sf)];
    var a, b := FnFields(rec.functions, o.names), FndaFields(rec.functions, o.names);
    var c, d := P.Totals(rec, o), BrdaFields(rec.branches, o.keys);
    var e, f, g := BranchTotals(rec, o), DaFields(rec.lineHits, o.lns), LineTotals(rec, o);
    hide FnFields, FndaFields, P.Totals, BrdaFields, BranchTotals, DaFields, LineTotals, Title;
    Regroup(head, a, b, c, d + (e + (f + g)));
  }

  lemma TotalTexts(rec: Record, o: Order)
    requires Within(rec, o)
    ensures P.Totals(rec, o) == [Field("FNF", Dec(FoundOf(rec))), Field("FNH", Dec(HitOf(rec, o.names)))]
    ensures Text(Field("FNF", Dec(FoundOf(rec)))) == "FNF:" + Dec(FoundOf(rec))
    ensures Text(Field("FNH", Dec(HitOf(rec, o.names)))) == "FNH:" + Dec(HitOf(rec, o.names))
    ensures FnTotal("FNF:") && FnTotal("FNH:")
  {
    hide Dec, FoundOf, HitOf;
    assert "FNF" + ":" == "FNF:" && "FNH" + ":" == "FNH:";
  }

  lemma Behind(a: seq<string>, b: seq<string>, c: seq<string>)
    ensures (a + b) + c == a + (b + c)
  {
  }

  lemma GrabTwo(a: seq<Field>, fnf: string, fnh: string, m: nat, n: nat, rest: seq<string>)
    requires HeadRows(a) && fnf == "FNF:" + Dec(m) && fnh == "FNH:" + Dec(n)
    ensures var r := Lines(a) + ([fnf] + ([fnh] + rest)); Grab(r, "FNF:") == m && Grab(r, "FNH:") == n
  {
    assert FnTotal("FNF:") && FnTotal("FNH:") && "FNF:"[2] != "FNH:"[2];
    HeadStarts("FNF:", Dec(m));
    OtherHead(fnf, "FNF:", "FNH:", 2);
    hide *;
    HeadSilent(a, "FNF:");
    HeadSilent(a, "FNH:");
    DecAnswers("FNF:", m);
    DecAnswers("FNH:", n);
    GrabBehind(Lines(a), [fnf] + ([fnh] + rest), "FNF:");
    GrabBehind(Lines(a), [fnf] + ([fnh] + rest), "FNH:");
    GrabStep(fnf, [fnh] + rest, "FNF:");
    GrabStep(fnf, [fnh] + rest, "FNH:");
    GrabStep(fnh, rest, "FNH:");
  }

  /** The functions a printed record states. */
  lemma FunctionTotals(sf: string, rec: Record, o: Order)
    requires Within(rec, o)
    ensures Grab(RecordLines(sf, rec, o), "FNF:") == FoundOf(rec)
    ensures Grab(RecordLines(sf, rec, o), "FNH:") == HitOf(rec, o.names)
  {
    TotalTexts(rec, o);
    hide *;
    var a, c, d := Upper(sf, rec, o), P.Totals(rec, o), Lower(rec, o);
    RecordIs(sf, rec, o);
    RecordParts(sf, rec, o);
    LinesConcat(a, c + d);
    LinesConcat(c, d);
    Behind(Lines(a), Lines(c) + Lines(d), [END]);
    Behind(Lines(c), Lines(d), [END]);
    UpperHead(sf, rec, o);
    Rebracket(Lines(a), c[0], c[1], Lines(d) + [END]);
    GrabTwo(a, Text(c[0]), Text(c[1]), FoundOf(rec), HitOf(rec, o.names), Lines(d) + [END]);
  }

  lemma CoversGives(rec: Record, o: Order)
    requires Within(rec, o) && Covers(rec, o)
    ensures Enumerates(o.names, rec.functions.Keys) && Enumerates(o.keys, rec.branches.Keys)
      && Enumerates(o.lns, rec.lineHits.Keys)
    ensures (forall n :: n in o.names ==> n in rec.functions) && (forall k :: k in o.keys ==> k in rec.branches)
      && (forall l :: l in o.lns ==> l in rec.lineHits)
    ensures FoundOf(rec) == if rec.functions == map[] then rec.fnf else |rec.functions|
    ensures HitOf(rec, o.names) == if rec.functions == map[] then rec.fnh else HitFns(rec.functions, o.names)
  {
    hide Enumerates, HitFns;
    assert |rec.functions| > 0 <==> rec.functions != map[];
  }

  /** A printed record is counted as its tables. */
  lemma RecordCounted(t: Stats, sf: string, rec: Record, o: Order)
    requires Within(rec, o) && Covers(rec, o)
    ensures Counted(t, RecordLines(sf, rec, o)) == Plus(t, StatsOf(rec))
  {
    hide Within, Covers, RecordLines, Grab, HitFns, HitEntries, HitKeys, Called, FoundOf, HitOf, Enumerates;
    CoversGives(rec, o);
    PrintedTotals(sf, rec, o);
    FunctionTotals(sf, rec, o);
    AllHit(rec.lineHits, o.lns);
    AllHit(rec.branches, o.keys);
    AllCalled(rec.functions, o.names);
  }

  // ---------------------------------------------------------------- a printed file

  lemma FirstCounted(t: Stats, piece: seq<string>, rest: seq<seq<string>>)
    requires Mentions(piece, "SF:")
    ensures CountedAll(t, [piece] + rest) == CountedAll(Counted(t, piece + [END]), rest)
  {
    hide Mentions, Counted;
    assert ([piece] + rest)[1..] == rest;
  }

  lemma NothingCounted(t: Stats)
    ensures CountedAll(t, Pieces([])) == t
  {
    var pieces := Pieces([]);
    assert pieces == [[]] && pieces[1..] == [];
  }

  lemma PlusGroups(a: Stats, b: Stats, c: Stats)
    ensures Plus(Plus(a, b), c) == Plus(a, Plus(b, c)) && Plus(a, NO_STATS) == a && Plus(NO_STATS, a) == a
  {
  }

  lemma {:induction false} FilesCounted(t: Stats, records: Lcov.Records, files: seq<string>,
      orders: map<string, Order>, norm: string -> string)
    requires CoversAll(records, files, orders) && Printable(records, norm)
    ensures CountedAll(t, Pieces(FileLines(records, files, orders))) == Plus(t, StatsOfAll(records, files))
    decreases |files|
  {
    if files == [] {
      NothingCounted(t);
    } else {
      var sf, rest := files[0], files[1..];
      assert sf in files && forall f :: f in rest ==> f in files;
      var rec, o := records[sf], orders[sf];
      assert FileLines(records, files, orders) == RecordLines(sf, rec, o) + FileLines(records, rest, orders)
             && CoversAll(records, rest, orders) && Within(rec, o) && Covers(rec, o) && Prints(rec) && Clean(sf)
        by { hide RecordLines, Prints, Covers, Within, Clean; }
      assert StatsOfAll(records, files) == Plus(StatsOf(rec), StatsOfAll(records, rest)) by { hide StatsOf, Plus; }
      hide *;
      var r := R.RawOf(sf, rec, o);
      var lines := Lines(LcovStrip.Fields(r));
      RawFits(sf, rec, o);
      FirstPiece(r, FileLines(records, rest, orders));
      R.Behind(lines, FileLines(records, rest, orders));
      SourceFound(r);
      FirstCounted(t, lines, Pieces(FileLines(records, rest, orders)));
      RecordCounted(t, sf, rec, o);
      FilesCounted(Plus(t, StatsOf(rec)), records, rest, orders, norm);
      PlusGroups(t, StatsOf(rec), StatsOfAll(records, rest));
    }
  }

  /** The report on a printed file counts each source once, and the entries and hit entries of its tables. */
  lemma PrintedReportCounts(records: Lcov.Records, files: seq<string>, orders: map<string, Order>,
      norm: string -> string)
    requires CoversAll(records, files, orders) && Printable(records, norm)
    ensures CountedAll(NO_STATS, Pieces(FileLines(records, files, orders))) == StatsOfAll(records, files)
  {
    assert forall sf :: sf in files ==> sf in records;
    hide *;
    FilesCounted(NO_STATS, records, files, orders, norm);
    PlusGroups(StatsOfAll(records, files), NO_STATS, NO_STATS);
  }
}
