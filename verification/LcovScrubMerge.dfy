/**
 * The scrub used at two levels of the pipeline: scrubbing what was merged is merging what
 * was scrubbed, and scrubbing a printed file is scrubbing the tables it prints.
 */
module LcovScrubMerge {
  import opened Prelude
  import opened Strings
  import opened TextFields
  import opened Lcov
  import opened P = LcovPrint
  import A = LcovAlgebra
  import S = LcovScrub

  // ------------------------------------------------------------------ the tables

  function ScrubLines(lineHits: map<Num, nat>, nonExec: set<nat>): map<Num, nat> {
    map l | l in lineHits && !(S.In(l, nonExec) && lineHits[l] == 0) :: lineHits[l]
  }

  function ScrubBranches(branches: map<string, nat>, nonExec: set<nat>): map<string, nat> {
    map k | k in branches && !S.In(S.LeadingInt(UpTo(k, ',')), nonExec) :: branches[k]
  }

  function ScrubRecord(rec: Record, nonExec: set<nat>): Record {
    rec.(lineHits := ScrubLines(rec.lineHits, nonExec), branches := ScrubBranches(rec.branches, nonExec))
  }

  function ScrubAll(records: Records, nonExec: string -> set<nat>): Records {
    map sf | sf in records :: ScrubRecord(records[sf], nonExec(sf))
  }

  lemma LinesCommute(d: map<Num, nat>, s: map<Num, nat>, nonExec: set<nat>)
    ensures ScrubLines(MergeHits(d, s), nonExec) == MergeHits(ScrubLines(d, nonExec), ScrubLines(s, nonExec))
  {
    hide S.In;
  }

  lemma BranchesCommute(d: map<string, nat>, s: map<string, nat>, nonExec: set<nat>)
    ensures ScrubBranches(MergeHits(d, s), nonExec) == MergeHits(ScrubBranches(d, nonExec), ScrubBranches(s, nonExec))
  {
    hide S.In, S.LeadingInt, UpTo;
  }

  lemma RecordsCommute(d: Record, s: Record, nonExec: set<nat>)
    ensures ScrubRecord(MergeRecord(d, s), nonExec) == MergeRecord(ScrubRecord(d, nonExec), ScrubRecord(s, nonExec))
  {
    LinesCommute(d.lineHits, s.lineHits, nonExec);
    BranchesCommute(d.branches, s.branches, nonExec);
    hide ScrubLines, ScrubBranches, MergeHits, MergeFns;
  }

  lemma ScrubMergeAt(a: Records, b: Records, nonExec: string -> set<nat>, sf: string)
    requires sf in a || sf in b
    ensures ScrubAll(Merge(a, b), nonExec)[sf] == Merge(ScrubAll(a, nonExec), ScrubAll(b, nonExec))[sf]
  {
    if sf in a && sf in b {
      RecordsCommute(a[sf], b[sf], nonExec(sf));
    }
    hide ScrubRecord, MergeRecord;
  }

  lemma ScrubMergeKeys(a: Records, b: Records, nonExec: string -> set<nat>)
    ensures ScrubAll(Merge(a, b), nonExec).Keys == a.Keys + b.Keys
    ensures Merge(ScrubAll(a, nonExec), ScrubAll(b, nonExec)).Keys == a.Keys + b.Keys
  {
    hide ScrubRecord, MergeRecord;
  }

  lemma ScrubMerge(a: Records, b: Records, nonExec: string -> set<nat>)
    ensures ScrubAll(Merge(a, b), nonExec) == Merge(ScrubAll(a, nonExec), ScrubAll(b, nonExec))
  {
    var l, r := ScrubAll(Merge(a, b), nonExec), Merge(ScrubAll(a, nonExec), ScrubAll(b, nonExec));
    hide *;
    ScrubMergeKeys(a, b, nonExec);
    forall sf | sf in l ensures l[sf] == r[sf] {
      ScrubMergeAt(a, b, nonExec, sf);
    }
  }

  /** No hit line and no count goes, and no line appears. */
  lemma ScrubKeepsHits(rec: Record, nonExec: set<nat>)
    ensures var r := ScrubRecord(rec, nonExec);
      && A.HitLines(r) == A.HitLines(rec)
      && r.lineHits.Keys <= rec.lineHits.Keys
      && (forall l :: l in rec.lineHits ==> HitsOf(r.lineHits, l) == rec.lineHits[l])
  {
    hide S.In;
  }

  function ScrubEach(shards: seq<Records>, nonExec: string -> set<nat>): (r: seq<Records>)
    ensures |r| == |shards|
  {
    if shards == [] then []
    else ScrubEach(shards[..|shards| - 1], nonExec) + [ScrubAll(shards[|shards| - 1], nonExec)]
  }

  /** Scrubbing commutes with merging, over any list of shards. */
  lemma {:induction false} ScrubCommutes(shards: seq<Records>, nonExec: string -> set<nat>)
    ensures ScrubAll(MergeAll(shards), nonExec) == MergeAll(ScrubEach(shards, nonExec))
    decreases |shards|
  {
    hide ScrubRecord, Merge;
    if shards == [] {
    } else {
      var front, last := shards[..|shards| - 1], shards[|shards| - 1];
      ScrubCommutes(front, nonExec);
      ScrubMerge(MergeAll(front), last, nonExec);
      assert ScrubEach(shards, nonExec)[..|front|] == ScrubEach(front, nonExec);
      hide ScrubAll;
    }
  }

  // ---------------------------------------------------------------- from the rows

  /** Numbers the two readers of a row read alike: `Number` and `parseInt` agree. */
  predicate Alike(s: string) {
    ToNum(s) == S.LeadingInt(s)
  }

  predicate Agreed(f: Field) {
    f.tag == "DA" ==> Alike(UpTo(f.rest, ',')) && Alike(UpTo(After(f.rest, ','), ','))
  }

  lemma RowOfDa(rest: string)
    ensures S.RowOf(Text(Field("DA", rest)))
         == S.Row.Da(S.LeadingInt(UpTo(rest, ',')), S.OrZero(S.LeadingInt(UpTo(After(rest, ','), ','))))
  {
    var line := Text(Field("DA", rest));
    assert line[..3] == "DA:" && line[3..] == rest;
    hide S.LeadingInt, UpTo, After, S.OrZero;
  }

  lemma RowOfBrda(rest: string)
    ensures S.RowOf(Text(Field("BRDA", rest))).Brda?
    ensures S.RowOf(Text(Field("BRDA", rest))).line == S.LeadingInt(UpTo(rest, ','))
  {
    var line := Text(Field("BRDA", rest));
    assert line[..5] == "BRDA:" && line[5..] == rest;
    assert line[0] == 'B';
    hide S.LeadingInt, UpTo, After, S.OrZero, S.Fourth;
  }

  lemma HeadTag(f: Field, head: string)
    requires Lacks(f.tag, ':') && StartsWith(Text(f), head)
    requires |head| > 0 && Lacks(head[..|head| - 1], ':') && head[|head| - 1] == ':'
    ensures f.tag == head[..|head| - 1]
  {
    var line, t := Text(f), head[..|head| - 1];
    FieldReads(f.tag, ':', f.rest);
    FieldReads(t, ':', line[|head|..]);
    assert f.tag + [':'] + f.rest == line;
    assert t + [':'] == head && head + line[|head|..] == line;
  }

  lemma RowOfOther(f: Field)
    requires IsTag(f.tag) && f.tag != "DA" && f.tag != "BRDA"
    ensures S.RowOf(Text(f)).Total? || S.RowOf(Text(f)).Plain?
    ensures S.RowOf(Text(f)).Total? ==> f.tag == "LF" || f.tag == "LH" || f.tag == "BRF" || f.tag == "BRH"
  {
    TagShape(f.tag);
    var heads := ["DA:", "BRDA:", "LF:", "LH:", "BRF:", "BRH:"];
    assert heads[0][..2] == "DA" && heads[1][..4] == "BRDA" && heads[2][..2] == "LF" && heads[3][..2] == "LH";
    assert heads[4][..3] == "BRF" && heads[5][..3] == "BRH";
    hide Text, IsTag, S.LeadingInt, UpTo, After, S.OrZero, S.Fourth;
    forall i | 0 <= i < 6 && StartsWith(Text(f), heads[i]) ensures f.tag == heads[i][..|heads[i]| - 1] {
      HeadTag(f, heads[i]);
    }
    hide StartsWith;
  }

  // ------------------------------------------------------------ rows and tables

  lemma DaCommutes(lineHits: map<Num, nat>, l: Num, n: nat, nonExec: set<nat>)
    ensures ScrubLines(Add(lineHits, l, n), nonExec)
         == if S.In(l, nonExec) && n == 0 then ScrubLines(lineHits, nonExec)
           else Add(ScrubLines(lineHits, nonExec), l, n)
  {
    hide S.In;
  }

  lemma {:induction false} FirstOfFirst(a: string, b: string)
    requires Lacks(a, ',')
    ensures UpTo(a + "," + b, ',') == a
  {
    FieldReads(a, ',', b);
    assert a + [','] + b == a + "," + b;
  }

  lemma {:induction false} UpToLacks(s: string)
    ensures Lacks(UpTo(s, ','), ',')
  {
    if s != "" && s[0] != ',' { UpToLacks(s[1..]); }
  }

  /** A branch keeps its line as the first part of its key. */
  lemma KeyLine(rest: string)
    requires BranchOf(rest).Some?
    ensures UpTo(BranchOf(rest).value.0, ',') == UpTo(rest, ',')
  {
    var a := UpTo(rest, ',');
    var r1 := After(rest, ',');
    var b, c := UpTo(r1, ','), UpTo(After(r1, ','), ',');
    assert BranchOf(rest).value.0 == a + "," + (b + "," + c);
    UpToLacks(rest);
    hide UpTo, After, BranchOf, Lacks;
    FirstOfFirst(a, b + "," + c);
  }

  lemma BrdaCommutes(branches: map<string, nat>, k: string, n: nat, nonExec: set<nat>)
    ensures ScrubBranches(Add(branches, k, n), nonExec)
         == if S.In(S.LeadingInt(UpTo(k, ',')), nonExec) then ScrubBranches(branches, nonExec)
            else Add(ScrubBranches(branches, nonExec), k, n)
  {
    hide S.In, S.LeadingInt, UpTo;
  }

  lemma AlikeCount(s: string)
    requires Alike(s)
    ensures Count(s) == S.OrZero(S.LeadingInt(s))
  {
    hide S.LeadingInt, ToNum;
  }

  /** Scrubbing the table after a row is the row, if it is kept, on the scrubbed table. */
  predicate Commutes(rec: Record, f: Field, nonExec: set<nat>) {
    ScrubRecord(Absorb(rec, f), nonExec)
    == if S.Keep(Text(f), nonExec) then Absorb(ScrubRecord(rec, nonExec), f) else ScrubRecord(rec, nonExec)
  }

  lemma RowCommutes(rec: Record, f: Field, nonExec: set<nat>)
    requires IsTag(f.tag) && Agreed(f)
    ensures Commutes(rec, f, nonExec)
  {
    if f.tag == "DA" {
      DaRowCommutes(rec, f.rest, nonExec);
    } else if f.tag == "BRDA" {
      BrdaRowCommutes(rec, f.rest, nonExec);
    } else {
      OtherRowCommutes(rec, f, nonExec);
    }
  }

  lemma DaRowCommutes(rec: Record, rest: string, nonExec: set<nat>)
    requires Agreed(Field("DA", rest))
    ensures Commutes(rec, Field("DA", rest), nonExec)
  {
    var l, h := UpTo(rest, ','), UpTo(After(rest, ','), ',');
    AlikeCount(h);
    RowOfDa(rest);
    hide S.RowOf, UpTo, After, S.LeadingInt, S.OrZero, Count, ToNum, Add, ScrubLines, ScrubBranches, Text, S.In;
    DaCommutes(rec.lineHits, ToNum(l), Count(h), nonExec);
  }

  lemma BrdaRowCommutes(rec: Record, rest: string, nonExec: set<nat>)
    ensures Commutes(rec, Field("BRDA", rest), nonExec)
  {
    RowOfBrda(rest);
    assert KindOf("BRDA") == Branch;
    if BranchOf(rest).Some? { KeyLine(rest); }
    hide KindOf, BranchOf, S.RowOf, UpTo, After, S.LeadingInt, S.OrZero, Count, ToNum, Add, ScrubLines, ScrubBranches,
      Text, S.In;
    if BranchOf(rest).Some? {
      BrdaCommutes(rec.branches, BranchOf(rest).value.0, BranchOf(rest).value.1, nonExec);
    }
  }

  lemma TotalCommutes(rec: Record, f: Field, nonExec: set<nat>)
    requires S.RowOf(Text(f)).Total? && Absorb(rec, f) == rec
      && Absorb(ScrubRecord(rec, nonExec), f) == ScrubRecord(rec, nonExec)
    ensures Commutes(rec, f, nonExec)
  {
    hide Absorb, S.RowOf, Text, ScrubRecord;
  }

  lemma PlainCommutes(rec: Record, f: Field, nonExec: set<nat>)
    requires S.RowOf(Text(f)).Plain? && f.tag != "DA" && f.tag != "BRDA"
    ensures Commutes(rec, f, nonExec)
  {
    assert KindOf(f.tag) != Line && KindOf(f.tag) != Branch;
    assert S.Keep(Text(f), nonExec) by { hide Text, S.RowOf; }
    hide KindOf, S.RowOf, S.Keep, Text, UpTo, After, Count, ToNum, ScrubLines, ScrubBranches, BranchOf, SeeFn, HitFn,
      Add;
  }

  lemma OtherRowCommutes(rec: Record, f: Field, nonExec: set<nat>)
    requires IsTag(f.tag) && f.tag != "DA" && f.tag != "BRDA"
    ensures Commutes(rec, f, nonExec)
  {
    hide *;
    RowOfOther(f);
    if S.RowOf(Text(f)).Total? {
      IgnoredRow(rec, f);
      IgnoredRow(ScrubRecord(rec, nonExec), f);
      TotalCommutes(rec, f, nonExec);
    } else {
      PlainCommutes(rec, f, nonExec);
    }
  }

  function KeptFields(fs: seq<Field>, nonExec: set<nat>): seq<Field> {
    if fs == [] then []
    else (if S.Keep(Text(fs[0]), nonExec) then [fs[0]] else []) + KeptFields(fs[1..], nonExec)
  }

  lemma {:induction false} KeptLines(fs: seq<Field>, nonExec: set<nat>)
    ensures S.Kept(Lines(fs), nonExec) == Lines(KeptFields(fs, nonExec))
    decreases |fs|
  {
    hide S.Keep, Text;
    if fs != [] {
      KeptLines(fs[1..], nonExec);
      assert Lines(fs) == [Text(fs[0])] + Lines(fs[1..]) && Lines(fs)[1..] == Lines(fs[1..]);
      if S.Keep(Text(fs[0]), nonExec) {
        LinesConcat([fs[0]], KeptFields(fs[1..], nonExec));
      } else {
        assert KeptFields(fs, nonExec) == KeptFields(fs[1..], nonExec);
      }
    }
  }

  lemma {:induction false} KeptSubset(fs: seq<Field>, nonExec: set<nat>)
    requires Readable(fs)
    ensures Readable(KeptFields(fs, nonExec))
    decreases |fs|
  {
    hide S.Keep, Text, Clean, IsTag;
    if fs != [] {
      KeptSubset(fs[1..], nonExec);
    }
  }

  /** Dropping rows and then reading them is reading them and then dropping table entries. */
  lemma {:induction false} RowsCommute(rec: Record, fs: seq<Field>, nonExec: set<nat>)
    requires forall i :: 0 <= i < |fs| ==> IsTag(fs[i].tag) && Agreed(fs[i])
    ensures AbsorbAll(ScrubRecord(rec, nonExec), KeptFields(fs, nonExec)) == ScrubRecord(AbsorbAll(rec, fs), nonExec)
    decreases |fs|
  {
    hide S.Keep, Text, Absorb, ScrubRecord, IsTag, Agreed;
    if fs != [] {
      RowCommutes(rec, fs[0], nonExec);
      RowsCommute(Absorb(rec, fs[0]), fs[1..], nonExec);
      if S.Keep(Text(fs[0]), nonExec) {
        AbsorbOne(ScrubRecord(rec, nonExec), fs[0], KeptFields(fs[1..], nonExec));
      } else {
        assert KeptFields(fs, nonExec) == KeptFields(fs[1..], nonExec);
      }
    }
  }

  // ------------------------------------------------------- the printed file, scrubbed

  predicate AllAgreed(fs: seq<Field>) {
    forall i :: 0 <= i < |fs| ==> Agreed(fs[i])
  }

  lemma {:induction false} DigitsAll(s: string)
    requires AllDigits(s)
    ensures Digits(s) == s
  {
    if s != "" { DigitsAll(s[1..]); }
  }

  lemma DecAlike(n: nat)
    ensures Alike(Dec(n))
  {
    DecReads(n);
    DigitsAll(Dec(n));
  }

  lemma ShowAlike(n: Num)
    ensures Alike(Show(n))
  {
    ShowReads(n);
    if n.Some? {
      DecAlike(n.value);
    } else {
      var s := "NaN";
      assert !IsDigit(s[0]);
    }
  }

  lemma DaAgreed(l: Num, n: nat)
    ensures Agreed(Field("DA", Show(l) + "," + Dec(n)))
  {
    ShowAlike(l);
    DecAlike(n);
    ShowLacks(l, ',');
    DecLacks(n, ',');
    hide Show, Dec, Alike, Lacks;
    FirstOfFirst(Show(l), Dec(n));
    FieldReads(Show(l), ',', Dec(n));
    LastField(Dec(n), ',');
    assert Show(l) + [','] + Dec(n) == Show(l) + "," + Dec(n);
  }

  lemma {:induction false} DasAgreed(lineHits: map<Num, nat>, lns: seq<Num>)
    requires forall l :: l in lns ==> l in lineHits
    ensures AllAgreed(DaFields(lineHits, lns))
    decreases |lns|
  {
    if lns != [] {
      DaAgreed(lns[0], lineHits[lns[0]]);
      hide Agreed, Show, Dec;
      DasAgreed(lineHits, lns[1..]);
    }
  }

  predicate NoDa(fs: seq<Field>) {
    forall i :: 0 <= i < |fs| ==> fs[i].tag != "DA"
  }

  lemma {:induction false} FnsNoDa(fns: map<string, Fn>, names: seq<string>)
    requires forall n :: n in names ==> n in fns
    ensures NoDa(FnFields(fns, names)) && NoDa(FndaFields(fns, names))
    decreases |names|
  {
    if names != [] {
      FnsNoDa(fns, names[1..]);
      var info := fns[names[0]];
      assert FndaFields(fns, names) == [Field("FNDA", Dec(info.hits) + "," + names[0])] + FndaFields(fns, names[1..]);
      var row := if HasLine(info) then [Field("FN", Dec(info.line.value) + "," + names[0])] else [];
      assert FnFields(fns, names) == row + FnFields(fns, names[1..]);
      hide FnFields, FndaFields, Dec, HasLine;
    }
  }

  lemma {:induction false} BrdasNoDa(branches: map<string, nat>, keys: seq<string>)
    requires forall k :: k in keys ==> k in branches
    ensures NoDa(BrdaFields(branches, keys))
    decreases |keys|
  {
    hide Taken;
    if keys != [] { BrdasNoDa(branches, keys[1..]); }
  }

  lemma AgreedConcat(a: seq<Field>, b: seq<Field>)
    requires (NoDa(a) || AllAgreed(a)) && AllAgreed(b)
    ensures AllAgreed(a + b)
  {
    hide Alike, UpTo, After;
  }

  lemma BodyAgreed(rec: Record, o: Order)
    requires Within(rec, o)
    ensures AllAgreed(Body(rec, o))
  {
    FnsNoDa(rec.functions, o.names);
    BrdasNoDa(rec.branches, o.keys);
    DasAgreed(rec.lineHits, o.lns);
    assert NoDa(P.Totals(rec, o)) && NoDa(BranchTotals(rec, o)) && NoDa(LineTotals(rec, o)) && AllAgreed([]);
    hide NoDa, AllAgreed, FnFields, FndaFields, BrdaFields, DaFields, P.Totals, BranchTotals, LineTotals;
    AgreedConcat(LineTotals(rec, o), []);
    assert LineTotals(rec, o) + [] == LineTotals(rec, o);
    var t5 := DaFields(rec.lineHits, o.lns) + LineTotals(rec, o);
    AgreedConcat(DaFields(rec.lineHits, o.lns), LineTotals(rec, o));
    var t4 := BranchTotals(rec, o) + t5;
    AgreedConcat(BranchTotals(rec, o), t5);
    var t3 := BrdaFields(rec.branches, o.keys) + t4;
    AgreedConcat(BrdaFields(rec.branches, o.keys), t4);
    var t2 := P.Totals(rec, o) + t3;
    AgreedConcat(P.Totals(rec, o), t3);
    var t1 := FndaFields(rec.functions, o.names) + t2;
    AgreedConcat(FndaFields(rec.functions, o.names), t2);
    AgreedConcat(FnFields(rec.functions, o.names), t1);
  }

  function TotalFields(t: S.Tally): seq<Field> {
    [Field("LF", Dec(t.lf)), Field("LH", Dec(t.lh)), Field("BRF", Dec(t.brf)), Field("BRH", Dec(t.brh))]
  }

  lemma TotalFieldsRead(rec: Record, t: S.Tally)
    ensures Lines(TotalFields(t)) == S.Totals(t)
    ensures Readable(TotalFields(t))
    ensures AbsorbAll(rec, TotalFields(t)) == rec
  {
    var a, b, c, d := Field("LF", Dec(t.lf)), Field("LH", Dec(t.lh)), Field("BRF", Dec(t.brf)),
      Field("BRH", Dec(t.brh));
    TotalsReadable(t.lf, t.lh, "LF", "LH");
    TotalsReadable(t.brf, t.brh, "BRF", "BRH");
    IgnoredRows(rec, a, b);
    IgnoredRows(rec, c, d);
    AbsorbConcat(rec, [a, b], [c, d]);
    ReadableConcat([a, b], [c, d]);
    TwoTexts(a, b);
    TwoTexts(c, d);
    LinesConcat([a, b], [c, d]);
    assert "LF" + ":" == "LF:" && "LH" + ":" == "LH:" && "BRF" + ":" == "BRF:" && "BRH" + ":" == "BRH:";
    assert [a, b] + [c, d] == TotalFields(t);
    hide Dec, AbsorbAll, Lines, Readable;
  }

  lemma {:induction false} EndIsLast(fs: seq<Field>)
    requires forall i :: 0 <= i < |fs| ==> Lacks(fs[i].tag, ':')
    ensures S.EndAt(Lines(fs) + ["end_of_record"]) == |Lines(fs)|
    decreases |fs|
  {
    if fs != [] {
      LineIsNotEnd(fs[0]);
      hide Text, Lacks;
      EndIsLast(fs[1..]);
      assert (Lines(fs) + ["end_of_record"])[1..] == Lines(fs[1..]) + ["end_of_record"];
    }
  }

  lemma EndKept(nonExec: set<nat>)
    ensures S.Kept(["end_of_record"], nonExec) == ["end_of_record"]
  {
    var word := "end_of_record";
    assert word[0] == 'e';
    assert !StartsWith(word, "DA:") && !StartsWith(word, "BRDA:");
    var one := [word];
    assert one[1..] == [];
  }

  predicate Shaped(out: seq<string>, head: seq<Field>, kept: seq<Field>, t: S.Tally) {
    out == Lines(head) + Lines(kept + TotalFields(t)) + ["end_of_record"]
  }

  /** What the scrub leaves of a printed record: the kept rows, the new totals, the end. */
  lemma RewriteShape(head: seq<Field>, body: seq<Field>, nonExec: set<nat>)
    requires nonExec != {}
    requires KeptFields(head, nonExec) == head
    requires forall i :: 0 <= i < |head| ==> Lacks(head[i].tag, ':')
    requires Readable(body)
    ensures exists t :: Shaped(S.Rewrite(Lines(head + body) + ["end_of_record"], nonExec), head,
      KeptFields(body, nonExec), t)
  {
    hide S.Keep, Readable, Lacks, Text, Lines, S.Kept, KeptFields, TotalFields, S.Totals, S.TallyOf;
    var kept := KeptFields(body, nonExec);
    RowsKept(head, body, nonExec);
    KeptSubset(body, nonExec);
    TagsLack(kept);
    EndIsLast(head + kept);
    LinesConcat(head, kept);
    var rows := Lines(head) + Lines(kept) + ["end_of_record"];
    var t := S.TallyOf(rows);
    TotalFieldsRead(EMPTY, t);
    LinesConcat(kept, TotalFields(t));
    assert rows[..|Lines(head) + Lines(kept)|] == Lines(head) + Lines(kept);
    assert rows[|Lines(head) + Lines(kept)|..] == ["end_of_record"];
    assert (Lines(head) + Lines(kept)) + S.Totals(t) == Lines(head) + Lines(kept + TotalFields(t));
    assert Shaped(S.Rewrite(Lines(head + body) + ["end_of_record"], nonExec), head, kept, t);
  }

  lemma RowsKept(head: seq<Field>, body: seq<Field>, nonExec: set<nat>)
    requires KeptFields(head, nonExec) == head
    ensures S.Kept(Lines(head + body) + ["end_of_record"], nonExec)
         == Lines(head) + Lines(KeptFields(body, nonExec)) + ["end_of_record"]
  {
    hide S.Keep, Text, Lines, S.Kept, KeptFields;
    LinesConcat(head, body);
    S.KeptConcat(Lines(head + body), ["end_of_record"], nonExec);
    S.KeptConcat(Lines(head), Lines(body), nonExec);
    KeptLines(head, nonExec);
    KeptLines(body, nonExec);
    EndKept(nonExec);
  }

  lemma TagsLack(fs: seq<Field>)
    requires Readable(fs)
    ensures forall i :: 0 <= i < |fs| ==> Lacks(fs[i].tag, ':')
  {
    forall i | 0 <= i < |fs| ensures Lacks(fs[i].tag, ':') {
      TagShape(fs[i].tag);
    }
    hide IsTag, Clean;
  }

  lemma HeadKept(title: string, sf: string, nonExec: set<nat>)
    ensures KeptFields([Field("TN", title), Field("SF", sf)], nonExec) == [Field("TN", title), Field("SF", sf)]
    ensures Lacks("TN", ':') && Lacks("SF", ':')
  {
    var a, b := Field("TN", title), Field("SF", sf);
    RowOfOther(a);
    RowOfOther(b);
    TagShape("TN");
    TagShape("SF");
    hide S.RowOf, IsTag, Text;
    assert [a, b][1..] == [b] && [b][1..] == [];
    assert KeptFields([b], nonExec) == [b];
  }

  /**
   * Scrubbing a printed record and reading it back gives the scrubbed tables of what
   * reading the printed record itself gives.
   */
  lemma ScrubbedReads(records: Records, sf: string, rec: Record, o: Order, nonExec: set<nat>, norm: string -> string)
    requires Within(rec, o) && Covers(rec, o) && Prints(rec)
    requires Clean(sf) && norm(sf) == sf && sf !in records
    ensures ReadLines(State(records, None), S.Rewrite(RecordLines(sf, rec, o), nonExec), norm)
         == State(records[sf := ScrubRecord(ReadBack(rec, o), nonExec)], None)
  {
    if nonExec == {} {
      RecordReads(records, sf, rec, o, norm);
      NothingScrubbed(ReadBack(rec, o));
    } else {
      BodyFacts(sf, rec, o, nonExec);
      var body := Body(rec, o);
      var t :| Shaped(S.Rewrite(RecordLines(sf, rec, o), nonExec), [Field("TN", Title(rec)), Field("SF", sf)],
        KeptFields(body, nonExec), t);
      assert S.Rewrite(RecordLines(sf, rec, o), nonExec)
          == Lines([Field("TN", Title(rec)), Field("SF", sf)]) + Lines(KeptFields(body, nonExec) + TotalFields(t))
            + ["end_of_record"];
      hide *;
      BodyScrubbed(body, ReadBack(rec, o), t, nonExec);
      RowsRead(records, sf, Title(rec), KeptFields(body, nonExec) + TotalFields(t), norm);
    }
  }

  lemma RecordShaped(title: string, sf: string, body: seq<Field>, nonExec: set<nat>)
    requires Readable(body) && nonExec != {}
    ensures var head := [Field("TN", title), Field("SF", sf)];
      exists t :: Shaped(S.Rewrite(Lines(head + body) + ["end_of_record"], nonExec), head, KeptFields(body, nonExec), t)
  {
    hide *;
    var head := [Field("TN", title), Field("SF", sf)];
    HeadKept(title, sf, nonExec);
    RewriteShape(head, body, nonExec);
  }

  lemma BodyFacts(sf: string, rec: Record, o: Order, nonExec: set<nat>)
    requires Within(rec, o) && Covers(rec, o) && Prints(rec) && nonExec != {}
    ensures Readable(Body(rec, o)) && AllAgreed(Body(rec, o)) && Clean(Title(rec))
    ensures AbsorbAll(EMPTY, Body(rec, o)) == ReadBack(rec, o)
    ensures exists t :: Shaped(S.Rewrite(RecordLines(sf, rec, o), nonExec), [Field("TN", Title(rec)), Field("SF", sf)],
      KeptFields(Body(rec, o), nonExec), t)
  {
    assert Clean(Title(rec));
    assert RecordLines(sf, rec, o)
      == Lines([Field("TN", Title(rec)), Field("SF", sf)] + Body(rec, o)) + ["end_of_record"];
    hide *;
    BodyReadable(rec, o);
    BodyAgreed(rec, o);
    BodyAbsorbs(rec, o);
    RecordShaped(Title(rec), sf, Body(rec, o), nonExec);
  }

  lemma NothingScrubbed(rec: Record)
    ensures ScrubRecord(rec, {}) == rec
  {
    assert ScrubLines(rec.lineHits, {}) == rec.lineHits && ScrubBranches(rec.branches, {}) == rec.branches;
  }

  lemma BodyScrubbed(body: seq<Field>, back: Record, t: S.Tally, nonExec: set<nat>)
    requires Readable(body) && AllAgreed(body)
    requires AbsorbAll(EMPTY, body) == back
    ensures Readable(KeptFields(body, nonExec) + TotalFields(t))
    ensures AbsorbAll(EMPTY, KeptFields(body, nonExec) + TotalFields(t)) == ScrubRecord(back, nonExec)
  {
    assert forall i :: 0 <= i < |body| ==> IsTag(body[i].tag) && Agreed(body[i]);
    hide Readable, KeptFields, AbsorbAll, TotalFields, Agreed, AllAgreed, IsTag;
    RowsCommute(EMPTY, body, nonExec);
    assert ScrubRecord(EMPTY, nonExec) == EMPTY;
    KeptSubset(body, nonExec);
    TotalFieldsRead(ScrubRecord(back, nonExec), t);
    ReadableConcat(KeptFields(body, nonExec), TotalFields(t));
    AbsorbConcat(EMPTY, KeptFields(body, nonExec), TotalFields(t));
  }

  lemma RowsRead(records: Records, sf: string, title: string, rows: seq<Field>, norm: string -> string)
    requires Readable(rows) && Clean(title) && Clean(sf) && norm(sf) == sf && sf !in records
    ensures ReadLines(State(records, None), Lines([Field("TN", title), Field("SF", sf)]) + Lines(rows)
      + ["end_of_record"], norm)
         == State(records[sf := AbsorbAll(EMPTY, rows)], None)
  {
    hide *;
    var head := [Field("TN", title), Field("SF", sf)];
    HeadReads(records, sf, title, norm);
    FieldsAbsorb(records, sf, EMPTY, rows, norm);
    TailReads(records[sf := AbsorbAll(EMPTY, rows)], sf, norm);
    ReadConcat(State(records, None), Lines(head) + Lines(rows), ["end_of_record"], norm);
    ReadConcat(State(records, None), Lines(head), Lines(rows), norm);
  }
}
