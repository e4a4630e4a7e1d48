/**
 * The coverage pipeline end to end: parse every shard, merge, print, and read the print.
 */
module LcovPipeline {
  import opened Prelude
  import opened Strings
  import opened TextFields
  import opened Lcov
  import opened LcovPrint

  // -------------------------------------------------- parsed records are printable

  lemma {:induction false} UpToKeeps(s: string, sep: char)
    ensures Lacks(UpTo(s, sep), sep)
    ensures Lacks(s, '\n') ==> Lacks(UpTo(s, sep), '\n')
  {
    if s != "" && s[0] != sep {
      UpToKeeps(s[1..], sep);
    }
  }

  lemma {:induction false} AfterClean(s: string, sep: char)
    requires Clean(s)
    ensures Clean(After(s, sep))
  {
    if s != "" {
      assert Clean(s[1..]);
      if s[0] != sep { AfterClean(s[1..], sep); }
    }
  }

  lemma {:induction false} TrimEndClean(s: string)
    requires Lacks(s, '\n')
    ensures Clean(TrimEnd(s))
  {
    if s != "" && IsSpace(s[|s| - 1]) {
      TrimEndClean(s[..|s| - 1]);
    }
  }

  lemma {:induction false} TrimStartLacks(s: string)
    requires Lacks(s, '\n')
    ensures Lacks(TrimStart(s), '\n')
  {
    if s != "" && IsSpace(s[0]) {
      TrimStartLacks(s[1..]);
    }
  }

  lemma {:induction false} SplitUnbroken(s: string)
    ensures forall l :: l in SplitLines(s) ==> Lacks(l, '\n')
    decreases |s|
  {
    if s != "" {
      SplitUnbroken(s[1..]);
      var rest := SplitLines(s[1..]);
      assert rest[0] in rest && forall l :: l in rest[1..] ==> l in rest;
      assert s[0] != '\n' ==> Lacks([s[0]] + rest[0], '\n');
      hide Lacks;
    }
  }

  lemma BranchKeys(rest: string)
    requires Lacks(rest, '\n') && BranchOf(rest).Some?
    ensures ThreeParts(BranchOf(rest).value.0) && Lacks(BranchOf(rest).value.0, '\n')
  {
    var a, r1 := UpTo(rest, ','), After(rest, ',');
    var b, r2 := UpTo(r1, ','), After(r1, ',');
    var c := UpTo(r2, ',');
    AfterLacks(rest);
    AfterLacks(r1);
    UpToKeeps(rest, ',');
    UpToKeeps(r1, ',');
    UpToKeeps(r2, ',');
    assert BranchOf(rest).value.0 == a + "," + b + "," + c;
    hide UpTo, After, BranchOf;
  }

  lemma {:induction false} AfterLacks(s: string)
    requires Lacks(s, '\n')
    ensures Lacks(After(s, ','), '\n')
  {
    if s != "" && s[0] != ',' { AfterLacks(s[1..]); }
  }

  /** A field adds at most one function name, one branch key or a test name. */
  lemma AbsorbAddsNames(rec: Record, f: Field)
    ensures var r := Absorb(rec, f);
            && (r.testName == rec.testName || r.testName == Some(f.rest))
            && r.functions.Keys <= rec.functions.Keys + {After(f.rest, ',')}
  {
    hide After, UpTo, BranchOf, Count, ToNum;
  }

  lemma AbsorbAddsBranch(rec: Record, f: Field, k: string)
    ensures k in Absorb(rec, f).branches ==>
      k in rec.branches || (BranchOf(f.rest).Some? && k == BranchOf(f.rest).value.0)
  {
    hide After, UpTo, BranchOf, Count, ToNum;
  }

  lemma AbsorbPrints(rec: Record, f: Field)
    requires Prints(rec) && Clean(f.rest)
    ensures Prints(Absorb(rec, f))
  {
    var r := Absorb(rec, f);
    AbsorbAddsNames(rec, f);
    AfterClean(f.rest, ',');
    forall k | k in r.branches ensures ThreeParts(k) && Lacks(k, '\n') {
      AbsorbAddsBranch(rec, f, k);
      if k !in rec.branches { BranchKeys(f.rest); }
    }
    hide Absorb, After, BranchOf, Clean, ThreeParts, Lacks;
    forall n | n in r.functions ensures Clean(n) {
      assert n in rec.functions || n == After(f.rest, ',');
    }
  }

  /** A normalisation that leaves `again` nothing to do. */
  ghost predicate Settles(norm: string -> string, again: string -> string) {
    forall s {:trigger norm(s)} :: Clean(s) ==> Clean(norm(s)) && again(norm(s)) == norm(s)
  }

  lemma TakePrints(st: State, f: Field, norm: string -> string, again: string -> string)
    requires Printable(st.records, again) && Settles(norm, again) && Clean(f.rest)
    ensures Printable(Take(st, f, norm).records, again)
  {
    hide Clean, Absorb, Prints;
    if st.cur.Some? && st.cur.value in st.records {
      AbsorbPrints(st.records[st.cur.value], f);
    }
    assert Prints(EMPTY) by { EmptyPrints(); }
  }

  lemma EmptyPrints()
    ensures Prints(EMPTY)
  {
  }

  lemma ReadLinePrints(st: State, raw: string, norm: string -> string, again: string -> string)
    requires Printable(st.records, again) && Settles(norm, again) && Lacks(raw, '\n')
    ensures Printable(ReadLine(st, raw, norm).records, again)
  {
    TrimStartLacks(raw);
    TrimEndClean(TrimStart(raw));
    var line := Trim(raw);
    AfterClean(line, ':');
    hide Trim, UpTo, After, Clean, Lacks, Printable, Settles, Take;
    TakePrints(st, Field(UpTo(line, ':'), After(line, ':')), norm, again);
  }

  lemma {:induction false} ReadLinesPrint(st: State, lines: seq<string>, norm: string -> string,
      again: string -> string)
    requires Printable(st.records, again) && Settles(norm, again) && forall l :: l in lines ==> Lacks(l, '\n')
    ensures Printable(ReadLines(st, lines, norm).records, again)
    decreases |lines|
  {
    hide ReadLine, Printable, Settles, Lacks;
    if lines != [] {
      assert lines[0] in lines && forall l :: l in lines[1..] ==> l in lines;
      ReadLinePrints(st, lines[0], norm, again);
      ReadLinesPrint(ReadLine(st, lines[0], norm), lines[1..], norm, again);
    }
  }

  /** Whatever the file holds, its parse has trimmed names and three-part branch keys. */
  lemma ParsedPrints(text: string, norm: string -> string, again: string -> string)
    requires Settles(norm, again)
    ensures Printable(Parse(text, norm), again)
  {
    SplitUnbroken(text);
    ReadLinesPrint(START, SplitLines(text), norm, again);
  }

  lemma MergedRecordPrints(d: Record, s: Record)
    requires Prints(d) && Prints(s)
    ensures Prints(MergeRecord(d, s))
  {
    hide Clean, ThreeParts, Lacks, MergeLine;
  }

  lemma MergedAt(a: Records, b: Records, sf: string)
    requires sf in Merge(a, b) && (sf in a ==> Prints(a[sf])) && (sf in b ==> Prints(b[sf]))
    ensures (sf in a || sf in b) && Prints(Merge(a, b)[sf])
  {
    if sf in a && sf in b { MergedRecordPrints(a[sf], b[sf]); }
    hide Prints, MergeRecord;
  }

  lemma MergedPrints(a: Records, b: Records, norm: string -> string)
    requires Printable(a, norm) && Printable(b, norm)
    ensures Printable(Merge(a, b), norm)
  {
    hide Clean, Prints, Merge;
    forall sf | sf in Merge(a, b) ensures (sf in a || sf in b) && Prints(Merge(a, b)[sf]) {
      MergedAt(a, b, sf);
    }
  }

  lemma {:induction false} ShardsPrint(shards: seq<Shard>, again: string -> string)
    requires forall i :: 0 <= i < |shards| ==> Settles(shards[i].norm, again)
    ensures Printable(MergeAll(ParseEach(shards)), again)
    decreases |shards|
  {
    hide Settles, Printable, Parse, Merge;
    if shards == [] {
      assert Printable(map[], again) by { NonePrints(again); }
    } else {
      var last := |shards| - 1;
      ShardsPrint(shards[..last], again);
      ParsedPrints(shards[last].text, shards[last].norm, again);
      MergedPrints(MergeAll(ParseEach(shards[..last])), Parse(shards[last].text, shards[last].norm), again);
      assert ParseEach(shards)[..last] == ParseEach(shards[..last]);
    }
  }

  lemma NonePrints(again: string -> string)
    ensures Printable(map[], again)
  {
  }

  lemma ReadBackTables(records: Records, files: seq<string>, orders: map<string, Order>)
    requires CoversAll(records, files, orders) && Enumerates(files, records.Keys)
    ensures SameTables(records, ReadBackAll(records, files, orders))
  {
    hide Covers, Within, HitOf, FoundOf, LineOf;
  }

  /** Nothing is lost but the test name, and a line that was never known reads as 0. */
  ghost predicate SameTables(merged: Records, back: Records) {
    back.Keys == merged.Keys && forall sf :: sf in merged ==>
      && back[sf].lineHits == merged[sf].lineHits
      && back[sf].branches == merged[sf].branches
      && back[sf].functions.Keys == merged[sf].functions.Keys
      && (forall n :: n in merged[sf].functions ==>
            && back[sf].functions[n].hits == merged[sf].functions[n].hits
            && back[sf].functions[n].line == LineOf(merged[sf].functions[n]))
      && back[sf].testName == None
  }

  /**
   * End to end: for any shard files at all, reading the printed merge gives back the
   * merged line, function and branch tables, in whatever order they were printed.
   */
  lemma PipelineReadsBack(shards: seq<Shard>, files: seq<string>, orders: map<string, Order>, again: string -> string)
    requires forall i :: 0 <= i < |shards| ==> Settles(shards[i].norm, again)
    requires Enumerates(files, MergeAll(ParseEach(shards)).Keys)
      && CoversAll(MergeAll(ParseEach(shards)), files, orders)
    ensures var merged := MergeAll(ParseEach(shards));
            SameTables(merged, Parse(FileText(FileLines(merged, files, orders)), again))
  {
    var merged := MergeAll(ParseEach(shards));
    ShardsPrint(shards, again);
    PrintReadsBack(merged, files, orders, again);
    hide *;
    ReadBackTables(merged, files, orders);
  }

  // ------------------------------------------------------------------ the printer

  /** The row of one function, if it has a line. */
  function FnRow(info: Fn, name: string): seq<string> {
    if HasLine(info) then [Text(Field("FN", Dec(info.line.value) + "," + name))] else []
  }

  /** The rows for the functions from the i-th on, and what the i-th turn pushes. */
  lemma FnRowsFrom(fns: map<string, Fn>, names: seq<string>, i: nat)
    requires i < |names| && forall n :: n in names ==> n in fns
    ensures (forall n :: n in names[i..] ==> n in fns) && (forall n :: n in names[i + 1..] ==> n in fns)
    ensures Lines(FnFields(fns, names[i..])) == FnRow(fns[names[i]], names[i]) + Lines(FnFields(fns, names[i + 1..]))
  {
    assert names[i..][0] == names[i] && names[i..][1..] == names[i + 1..];
    var tail := FnFields(fns, names[i + 1..]);
    if HasLine(fns[names[i]]) {
      LinesConcat([Field("FN", Dec(fns[names[i]].line.value) + "," + names[i])], tail);
    } else {
      assert FnFields(fns, names[i..]) == tail;
    }
    hide Dec;
  }

  lemma Pushed<T>(out: seq<T>, row: seq<T>, tail: seq<T>)
    ensures out + (row + tail) == (out + row) + tail
  {
  }

  lemma NoFnRows(fns: map<string, Fn>)
    ensures Lines(FnFields(fns, [])) == []
  {
  }

  /** The first function loop: `FN:` rows. */
  method PrintFns(fns: map<string, Fn>, names: seq<string>) returns (out: seq<string>)
    requires forall n :: n in names ==> n in fns
    ensures out == Lines(FnFields(fns, names))
  {
    NoFnRows(fns);
    assert names[|names|..] == [] && names[0..] == names;
    hide Lines, FnFields, FnRow, Text, Dec, HasLine;
    out := [];
    for i := 0 to |names|
      invariant forall n :: n in names[i..] ==> n in fns
      invariant out + Lines(FnFields(fns, names[i..])) == Lines(FnFields(fns, names))
    {
      FnRowsFrom(fns, names, i);
      Pushed(out, FnRow(fns[names[i]], names[i]), Lines(FnFields(fns, names[i + 1..])));
      out := PushFn(out, fns[names[i]], names[i]);
    }
    assert out + [] == out;
  }

  method PushFn(rows: seq<string>, info: Fn, name: string) returns (out: seq<string>)
    ensures out == rows + FnRow(info, name)
  {
    out := rows;
    if HasLine(info) {
      out := out + [Text(Field("FN", Dec(info.line.value) + "," + name))];
    }
  }

  /** The second function loop: `FNDA:` rows, with the hit count kept beside them. */
  method PrintFndas(fns: map<string, Fn>, names: seq<string>) returns (out: seq<string>, hit: nat)
    requires forall n :: n in names ==> n in fns
    ensures out == Lines(FndaFields(fns, names)) && hit == HitFns(fns, names)
  {
    out, hit := [], 0;
    for i := 0 to |names|
      invariant out + Lines(FndaFields(fns, names[i..])) == Lines(FndaFields(fns, names))
      invariant hit + HitFns(fns, names[i..]) == HitFns(fns, names)
    {
      assert names[i..][0] == names[i] && names[i..][1..] == names[i + 1..];
      var f := Field("FNDA", Dec(fns[names[i]].hits) + "," + names[i]);
      ghost var tail := FndaFields(fns, names[i + 1..]);
      assert FndaFields(fns, names[i..]) == [f] + tail;
      assert Lines([f] + tail) == [Text(f)] + Lines(tail) by { LinesConcat([f], tail); }
      out := out + [Text(f)];
      if fns[names[i]].hits > 0 { hit := hit + 1; }
    }
  }

  method PrintBranches(branches: map<string, nat>, keys: seq<string>) returns (out: seq<string>, hit: nat)
    requires forall k :: k in keys ==> k in branches
    ensures out == Lines(BrdaFields(branches, keys)) && hit == HitEntries(branches, keys)
  {
    out, hit := [], 0;
    for i := 0 to |keys|
      invariant out + Lines(BrdaFields(branches, keys[i..])) == Lines(BrdaFields(branches, keys))
      invariant hit + HitEntries(branches, keys[i..]) == HitEntries(branches, keys)
    {
      assert keys[i..][0] == keys[i] && keys[i..][1..] == keys[i + 1..];
      var f := Field("BRDA", keys[i] + "," + Taken(branches[keys[i]]));
      ghost var tail := BrdaFields(branches, keys[i + 1..]);
      assert BrdaFields(branches, keys[i..]) == [f] + tail;
      assert Lines([f] + tail) == [Text(f)] + Lines(tail) by { LinesConcat([f], tail); }
      out := out + [Text(f)];
      if branches[keys[i]] > 0 { hit := hit + 1; }
    }
  }

  method PrintLines(lineHits: map<Num, nat>, lns: seq<Num>) returns (out: seq<string>, hit: nat)
    requires forall l :: l in lns ==> l in lineHits
    ensures out == Lines(DaFields(lineHits, lns)) && hit == HitEntries(lineHits, lns)
  {
    out, hit := [], 0;
    for i := 0 to |lns|
      invariant out + Lines(DaFields(lineHits, lns[i..])) == Lines(DaFields(lineHits, lns))
      invariant hit + HitEntries(lineHits, lns[i..]) == HitEntries(lineHits, lns)
    {
      assert lns[i..][0] == lns[i] && lns[i..][1..] == lns[i + 1..];
      var f := Field("DA", Show(lns[i]) + "," + Dec(lineHits[lns[i]]));
      ghost var tail := DaFields(lineHits, lns[i + 1..]);
      assert DaFields(lineHits, lns[i..]) == [f] + tail;
      assert Lines([f] + tail) == [Text(f)] + Lines(tail) by { LinesConcat([f], tail); }
      out := out + [Text(f)];
      if lineHits[lns[i]] > 0 { hit := hit + 1; }
    }
  }

  lemma RecordShape(sf: string, rec: Record, o: Order)
    requires Within(rec, o)
    ensures RecordLines(sf, rec, o)
         == Lines([Field("TN", Title(rec)), Field("SF", sf)]) + ((Lines(FnFields(rec.functions, o.names))
            + Lines(FndaFields(rec.functions, o.names))) + Lines(Totals(rec, o))
              + Lines(BrdaFields(rec.branches, o.keys))
            + Lines(BranchTotals(rec, o)) + Lines(DaFields(rec.lineHits, o.lns)) + Lines(LineTotals(rec, o)))
              + ["end_of_record"]
  {
    hide FnFields, FndaFields, BrdaFields, DaFields, Totals, BranchTotals, LineTotals, Lines, Title;
    var a, b, c := FnFields(rec.functions, o.names), FndaFields(rec.functions, o.names),
      BrdaFields(rec.branches, o.keys);
    var t5 := DaFields(rec.lineHits, o.lns) + LineTotals(rec, o);
    LinesConcat(DaFields(rec.lineHits, o.lns), LineTotals(rec, o));
    var t4 := BranchTotals(rec, o) + t5;
    LinesConcat(BranchTotals(rec, o), t5);
    LinesConcat(c, t4);
    LinesConcat(Totals(rec, o), c + t4);
    LinesConcat(b, Totals(rec, o) + (c + t4));
    LinesConcat(a, b + (Totals(rec, o) + (c + t4)));
    LinesConcat([Field("TN", Title(rec)), Field("SF", sf)], Body(rec, o));
  }

  /** `emitLcov` for one record: rows are pushed and hits counted in the same loops. */
  method PrintRecord(sf: string, rec: Record, o: Order) returns (out: seq<string>)
    requires Within(rec, o)
    ensures out == RecordLines(sf, rec, o)
  {
    hide FnFields, FndaFields, BrdaFields, DaFields, Lines, Text, HitFns, HitEntries, Title, RecordLines, Dec;
    var fns := PrintFns(rec.functions, o.names);
    var fndas, fnHit := PrintFndas(rec.functions, o.names);
    var found := |rec.functions|;
    if found == 0 { found, fnHit := rec.fnf, rec.fnh; }
    var branches, branchesHit := PrintBranches(rec.branches, o.keys);
    var lines, linesHit := PrintLines(rec.lineHits, o.lns);
    TwoTexts(Field("TN", Title(rec)), Field("SF", sf));
    TwoTexts(Totals(rec, o)[0], Totals(rec, o)[1]);
    TwoTexts(BranchTotals(rec, o)[0], BranchTotals(rec, o)[1]);
    TwoTexts(LineTotals(rec, o)[0], LineTotals(rec, o)[1]);
    RecordShape(sf, rec, o);
    out := [Text(Field("TN", Title(rec))), Text(Field("SF", sf))];
    out := out + ((fns + fndas) + [Text(Field("FNF", Dec(found))), Text(Field("FNH", Dec(fnHit)))]
      + branches + [Text(Field("BRF", Dec(|rec.branches|))), Text(Field("BRH", Dec(branchesHit)))]
      + lines + [Text(Field("LF", Dec(|rec.lineHits|))), Text(Field("LH", Dec(linesHit)))]);
    out := out + ["end_of_record"];
  }

  lemma NextFile(records: Records, files: seq<string>, orders: map<string, Order>, i: nat)
    requires i < |files| && CoversAll(records, files[i..], orders)
    ensures CoversAll(records, files[i + 1..], orders)
    ensures files[i] in records && files[i] in orders
    ensures var rec, o := records[files[i]], orders[files[i]];
      && Within(rec, o) && Covers(rec, o)
      && FileLines(records, files[i..], orders)
        == RecordLines(files[i], rec, o) + FileLines(records, files[i + 1..], orders)
  {
    hide RecordLines, Covers, Within;
    assert files[i..] == [files[i]] + files[i + 1..];
    assert files[i..][0] == files[i] && files[i..][1..] == files[i + 1..];
  }

  lemma NoFiles(records: Records, files: seq<string>, orders: map<string, Order>)
    requires CoversAll(records, files[|files|..], orders)
    ensures FileLines(records, files[|files|..], orders) == []
  {
  }

  /** `emitLcov` */
  method EmitLcov(records: Records, files: seq<string>, orders: map<string, Order>) returns (text: string)
    requires CoversAll(records, files, orders)
    ensures text == FileText(FileLines(records, files, orders))
  {
    hide RecordLines, FileText, Covers, Within, CoversAll, FileLines;
    var out: seq<string> := [];
    assert files[0..] == files;
    for i := 0 to |files|
      invariant CoversAll(records, files[i..], orders)
      invariant out + FileLines(records, files[i..], orders) == FileLines(records, files, orders)
    {
      NextFile(records, files, orders, i);
      var lines := PrintRecord(files[i], records[files[i]], orders[files[i]]);
      out := out + lines;
    }
    NoFiles(records, files, orders);
    assert out + [] == out;
    text := FileText(out);
  }
}
