/**
 * Where every number of the merged coverage comes from: a hit count is the sum of all rows
 * that state it, over every record and every shard file.
 */
module LcovSums {
  import opened Prelude
  import opened Strings
  import opened TextFields
  import opened Lcov
  import opened P = LcovPrint
  import opened T = LcovStrip

  // ------------------------------------------------------------------- one record

  datatype Place = OnLine(line: Num) | InFunction(name: string) | AtBranch(key: string)

  /** A row of a record: hits at a place, or a row that states none. */
  datatype Row = Hits(place: Place, times: nat) | NoHits(field: Field)

  function HitsAt(rec: Record, p: Place): nat {
    match p
    case OnLine(l) => HitsOf(rec.lineHits, l)
    case InFunction(name) => if name in rec.functions then rec.functions[name].hits else 0
    case AtBranch(key) => HitsOf(rec.branches, key)
  }

  function FieldOf(r: Row): Field {
    match r
    case Hits(OnLine(l), n) => Field("DA", Show(l) + "," + Dec(n))
    case Hits(InFunction(name), n) => Field("FNDA", Dec(n) + "," + name)
    case Hits(AtBranch(key), n) => Field("BRDA", key + "," + Taken(n))
    case NoHits(f) => f
  }

  /** The row can be printed, and is what it says it is. */
  ghost predicate Proper(r: Row) {
    match r
    case Hits(OnLine(_), _) => true
    case Hits(InFunction(name), _) => Clean(name)
    case Hits(AtBranch(key), _) => ThreeParts(key) && Lacks(key, '\n')
    case NoHits(f) => f.tag in ["TN", "FN", "FNF", "FNH", "BRF", "BRH", "LF", "LH"] && Clean(f.rest)
  }

  /** What a row states of a place. */
  function Stated(r: Row, p: Place): nat {
    if r.Hits? && r.place == p then r.times else 0
  }

  function RowsOf(rows: seq<Row>): seq<Field> {
    if rows == [] then [] else [FieldOf(rows[0])] + RowsOf(rows[1..])
  }

  function StatedBy(rows: seq<Row>, p: Place): nat {
    if rows == [] then 0 else Stated(rows[0], p) + StatedBy(rows[1..], p)
  }

  ghost predicate AllProper(rows: seq<Row>) {
    forall i :: 0 <= i < |rows| ==> Proper(rows[i])
  }

  lemma OtherKinds(f: Field)
    requires Proper(NoHits(f))
    ensures KindOf(f.tag) !in {Line, FunctionHits, Branch}
  {
  }

  lemma OtherAdds(rec: Record, f: Field, p: Place)
    requires KindOf(f.tag) !in {Line, FunctionHits, Branch}
    ensures HitsAt(Absorb(rec, f), p) == HitsAt(rec, p)
  {
    hide KindOf, Count, UpTo, After, ToNum;
  }

  lemma RowAdds(rec: Record, r: Row, p: Place)
    requires Proper(r)
    ensures HitsAt(Absorb(rec, FieldOf(r)), p) == HitsAt(rec, p) + Stated(r, p)
  {
    match r {
      case Hits(OnLine(l), n) =>
        DaRow(rec, l, n);
        hide Absorb, Show, Dec;
      case Hits(InFunction(name), n) =>
        FndaRow(rec, n, name);
        hide Absorb, Dec;
      case Hits(AtBranch(key), n) =>
        BrdaRow(rec, key, n);
        hide Absorb, ThreeParts, Taken;
      case NoHits(f) =>
        OtherKinds(f);
        OtherAdds(rec, f, p);
        hide Absorb;
    }
  }

  lemma RowsStep(rows: seq<Row>)
    requires rows != [] && AllProper(rows)
    ensures RowsOf(rows) == [FieldOf(rows[0])] + RowsOf(rows[1..]) && Proper(rows[0]) && AllProper(rows[1..])
    ensures forall p :: StatedBy(rows, p) == Stated(rows[0], p) + StatedBy(rows[1..], p)
  {
    hide FieldOf, Proper, Stated;
  }

  /** Reading rows adds up what they state, repeated ones included. */
  lemma {:induction false} RowsAddUp(rec: Record, rows: seq<Row>, p: Place)
    requires AllProper(rows)
    ensures HitsAt(AbsorbAll(rec, RowsOf(rows)), p) == HitsAt(rec, p) + StatedBy(rows, p)
    decreases |rows|
  {
    if rows != [] {
      hide *;
      RowsStep(rows);
      RowAdds(rec, rows[0], p);
      AbsorbOne(rec, FieldOf(rows[0]), RowsOf(rows[1..]));
      RowsAddUp(Absorb(rec, FieldOf(rows[0])), rows[1..], p);
    }
  }

  // --------------------------------------------------------------------- one file

  /** A record of a file: the path of its `SF:` row, and its other rows. */
  datatype Part = Part(sf: string, rows: seq<Row>)

  function RawOf(part: Part): Raw {
    Raw([], part.sf, RowsOf(part.rows))
  }

  function RawsOf(parts: seq<Part>): seq<Raw> {
    if parts == [] then [] else [RawOf(parts[0])] + RawsOf(parts[1..])
  }

  ghost predicate Parts(parts: seq<Part>) {
    forall i :: 0 <= i < |parts| ==> Clean(parts[i].sf) && AllProper(parts[i].rows)
  }

  function HitsIn(records: Lcov.Records, sf: string, p: Place): nat {
    if sf in records then HitsAt(records[sf], p) else 0
  }

  /** What the records of a file state of a place in the source named `sf`. */
  function StatedIn(parts: seq<Part>, norm: string -> string, sf: string, p: Place): nat {
    if parts == [] then 0
    else (if norm(parts[0].sf) == sf then StatedBy(parts[0].rows, p) else 0) + StatedIn(parts[1..], norm, sf, p)
  }

  lemma RowReads(r: Row)
    requires Proper(r)
    ensures Readable([FieldOf(r)])
  {
    match r {
      case Hits(OnLine(l), n) =>
        ShowLacks(l, '\n');
        DecClean(n);
        CleanRow(Show(l), ",", Dec(n));
        hide Clean, Show, Dec, Lacks;
      case Hits(InFunction(name), n) =>
        RowReadable("FNDA", n, name);
        hide Clean, Dec;
      case Hits(AtBranch(key), n) =>
        DecClean(n);
        CleanRow(key, ",", Taken(n));
        hide Clean, Taken, ThreeParts, Lacks;
      case NoHits(f) =>
        hide Clean;
    }
  }

  lemma {:induction false} RowsReadable(rows: seq<Row>)
    requires AllProper(rows)
    ensures Readable(RowsOf(rows))
    decreases |rows|
  {
    if rows != [] {
      hide *;
      RowsStep(rows);
      RowReads(rows[0]);
      RowsReadable(rows[1..]);
      ReadableConcat([FieldOf(rows[0])], RowsOf(rows[1..]));
    } else {
      assert Readable([]);
    }
  }

  lemma PartsStep(parts: seq<Part>)
    requires parts != [] && Parts(parts)
    ensures FileOf(RawsOf(parts)) == (Lines(T.Fields(RawOf(parts[0]))) + [END]) + FileOf(RawsOf(parts[1..]))
    ensures Clean(parts[0].sf) && AllProper(parts[0].rows) && Parts(parts[1..])
  {
    hide *;
    PartsHead(parts);
    RawsStep(parts);
    FileStep(RawsOf(parts));
  }

  lemma PartsHead(parts: seq<Part>)
    requires parts != [] && Parts(parts)
    ensures Clean(parts[0].sf) && AllProper(parts[0].rows) && Parts(parts[1..])
  {
  }

  lemma RawsStep(parts: seq<Part>)
    requires parts != []
    ensures var r := RawsOf(parts); r != [] && r[0] == RawOf(parts[0]) && r[1..] == RawsOf(parts[1..])
  {
  }

  lemma PartFields(part: Part)
    ensures T.Fields(RawOf(part)) == [] + ([Field("SF", part.sf)] + RowsOf(part.rows)) && Readable([])
  {
    hide RowsOf;
  }

  /** What a record leaves in the table, if its path names `k`. */
  lemma UpdateAdds(records: Lcov.Records, k: string, rec: Record, sf: string, p: Place)
    ensures HitsIn(records[k := rec], sf, p) == if sf == k then HitsAt(rec, p) else HitsIn(records, sf, p)
    ensures HitsAt(Opened(records, k), p) == HitsIn(records, k, p)
  {
    assert HitsAt(EMPTY, p) == 0;
    hide HitsAt;
  }

  lemma {:induction false} PartsRead(records: Lcov.Records, parts: seq<Part>, norm: string -> string, sf: string,
      p: Place)
    requires Parts(parts)
    ensures var end := ReadLines(State(records, None), FileOf(RawsOf(parts)), norm);
      HitsIn(end.records, sf, p) == HitsIn(records, sf, p) + StatedIn(parts, norm, sf, p)
    decreases |parts|
  {
    if parts != [] {
      StatedStep(parts, norm, sf, p);
      hide *;
      var part, k := parts[0], norm(parts[0].sf);
      PartsStep(parts);
      PartFields(part);
      RowsReadable(part.rows);
      var st, rec := State(records, None), AbsorbAll(Opened(records, k), RowsOf(part.rows));
      RawReads(records, [], part.sf, RowsOf(part.rows), norm);
      ReadConcat(st, Lines(T.Fields(RawOf(part))) + [END], FileOf(RawsOf(parts[1..])), norm);
      RowsAddUp(Opened(records, k), part.rows, p);
      UpdateAdds(records, k, rec, sf, p);
      PartsRead(records[k := rec], parts[1..], norm, sf, p);
    }
  }

  lemma StatedStep(parts: seq<Part>, norm: string -> string, sf: string, p: Place)
    requires parts != []
    ensures StatedIn(parts, norm, sf, p)
      == (if norm(parts[0].sf) == sf then StatedBy(parts[0].rows, p) else 0) + StatedIn(parts[1..], norm, sf, p)
  {
    hide StatedBy;
  }

  lemma {:induction false} PartsUnbroken(parts: seq<Part>)
    requires Parts(parts)
    ensures Unbroken(FileOf(RawsOf(parts)))
    decreases |parts|
  {
    if parts == [] {
    } else {
      hide *;
      PartsStep(parts);
      PartFields(parts[0]);
      RowsReadable(parts[0].rows);
      PartsUnbroken(parts[1..]);
      RowsUnbroken([], parts[0].sf, RowsOf(parts[0].rows));
      UnbrokenConcat(Lines(T.Fields(RawOf(parts[0]))) + [END], FileOf(RawsOf(parts[1..])));
    }
  }

  /** A parsed file holds at every place what its rows state of it, over all records of that source. */
  lemma FileAddsUp(parts: seq<Part>, norm: string -> string, sf: string, p: Place)
    requires Parts(parts)
    ensures HitsIn(Parse(FileText(FileOf(RawsOf(parts))), norm), sf, p) == StatedIn(parts, norm, sf, p)
  {
    assert START == State(map[], None) && HitsIn(map[], sf, p) == 0;
    hide *;
    PartsUnbroken(parts);
    JoinedReads(FileOf(RawsOf(parts)), norm);
    PartsRead(map[], parts, norm, sf, p);
  }

  // -------------------------------------------------------------------- all shards

  /** Each shard is the text of its records. */
  ghost predicate Written(shards: seq<Shard>, files: seq<seq<Part>>) {
    |shards| == |files| && forall i :: 0 <= i < |files| ==>
      Parts(files[i]) && shards[i].text == FileText(FileOf(RawsOf(files[i])))
  }

  function StatedInAll(shards: seq<Shard>, files: seq<seq<Part>>, sf: string, p: Place): nat
    requires |shards| == |files|
  {
    if shards == [] then 0
    else
      var n := |shards| - 1;
      StatedInAll(shards[..n], files[..n], sf, p) + StatedIn(files[n], shards[n].norm, sf, p)
  }

  lemma MergeAdds(a: Record, b: Record, p: Place)
    ensures HitsAt(MergeRecord(a, b), p) == HitsAt(a, p) + HitsAt(b, p)
  {
    hide Max, MergeLine;
  }

  lemma PartAdds(a: Lcov.Records, b: Lcov.Records, sf: string, p: Place)
    ensures HitsIn(Merge(a, b), sf, p) == HitsIn(a, sf, p) + HitsIn(b, sf, p)
  {
    if sf in a && sf in b { MergeAdds(a[sf], b[sf], p); }
    hide MergeRecord, HitsAt;
  }

  lemma ShardsStep(shards: seq<Shard>)
    requires shards != []
    ensures var n := |shards| - 1;
      MergeAll(ParseEach(shards)) == Merge(MergeAll(ParseEach(shards[..n])), Parse(shards[n].text, shards[n].norm))
  {
    hide Parse, Merge;
    var n := |shards| - 1;
    assert ParseEach(shards)[..n] == ParseEach(shards[..n]);
  }

  /**
   * Nothing is lost or counted twice: after the merge of any shards, the hits of a line, a
   * function or a branch are the sum of what all rows of all shards state of it.
   */
  lemma {:induction false} ShardsAddUp(shards: seq<Shard>, files: seq<seq<Part>>, sf: string, p: Place)
    requires Written(shards, files)
    ensures HitsIn(MergeAll(ParseEach(shards)), sf, p) == StatedInAll(shards, files, sf, p)
    decreases |shards|
  {
    if shards != [] {
      var n := |shards| - 1;
      assert Written(shards[..n], files[..n]) && Written(shards, files) && Parts(files[n]);
      assert shards[n].text == FileText(FileOf(RawsOf(files[n])));
      hide Written, FileText, FileOf, RawsOf, HitsIn, StatedIn, MergeAll, Parse, ParseEach, Merge, Parts;
      ShardsStep(shards);
      ShardsAddUp(shards[..n], files[..n], sf, p);
      FileAddsUp(files[n], shards[n].norm, sf, p);
      PartAdds(MergeAll(ParseEach(shards[..n])), Parse(shards[n].text, shards[n].norm), sf, p);
    }
  }

  /** The test name of a merged source is that of the first shard that has the source. */
  lemma {:induction false} FirstNameStays(shards: seq<Lcov.Records>, k: nat, sf: string)
    requires k < |shards| && sf in shards[k] && forall i :: 0 <= i < k ==> sf !in shards[i]
    ensures sf in MergeAll(shards) && MergeAll(shards)[sf].testName == shards[k][sf].testName
    decreases |shards|
  {
    var n := |shards| - 1;
    hide MergeHits, MergeFns, Max;
    if k < n {
      FirstNameStays(shards[..n], k, sf);
    } else {
      NotThere(shards[..n], sf);
    }
  }

  lemma {:induction false} NotThere(shards: seq<Lcov.Records>, sf: string)
    requires forall i :: 0 <= i < |shards| ==> sf !in shards[i]
    ensures sf !in MergeAll(shards)
    decreases |shards|
  {
    hide MergeRecord;
    if shards != [] { NotThere(shards[..|shards| - 1], sf); }
  }

  /** A branch never taken is printed with a dash, any other with its count. */
  lemma NeverTaken(n: nat)
    ensures Taken(n) == "-" <==> n == 0
    ensures n > 0 ==> AllDigits(Taken(n)) && Value(Taken(n)) == n
  {
    DecReads(n);
    var dash := "-";
    assert !IsDigit(dash[0]);
  }

  lemma NumberedRow(n: nat, name: string, k: nat, other: string)
    ensures Field("FN", Dec(n) + "," + name) == Field("FN", Dec(k) + "," + other) <==> n == k && name == other
  {
    DecLacks(n, ',');
    DecLacks(k, ',');
    FieldReads(Dec(n), ',', name);
    FieldReads(Dec(k), ',', other);
    DecReads(n);
    DecReads(k);
  }

  /** A function has a row with its line exactly if that line is known and positive. */
  lemma {:induction false} LinePrintedIff(fns: map<string, Fn>, names: seq<string>, name: string, k: nat)
    requires forall n :: n in names ==> n in fns
    ensures Field("FN", Dec(k) + "," + name) in FnFields(fns, names)
       <==> name in names && k > 0 && fns[name].line == Some(k)
    decreases |names|
  {
    hide Dec;
    if names != [] {
      LinePrintedIff(fns, names[1..], name, k);
      var info := fns[names[0]];
      if HasLine(info) { NumberedRow(info.line.value, names[0], k, name); }
    }
  }
}
