/**
 * Concatenated coverage files: parsing them together counts what merging their parses counts.
 */
module LcovConcat {
  import opened Prelude
  import opened Strings
  import opened TextFields
  import opened Lcov
  import opened LcovAlgebra
  import P = LcovPrint

  function HitsIn(fns: map<string, Fn>): map<string, nat> {
    map n | n in fns :: fns[n].hits
  }

  /** Equal counts, said table by table. */
  predicate SameCounts(r: Record, s: Record) {
    && r.lineHits == s.lineHits && r.branches == s.branches && r.fnf == s.fnf && r.fnh == s.fnh
    && HitsIn(r.functions) == HitsIn(s.functions)
  }

  lemma CountsSame(r: Record, s: Record)
    ensures Counts(r) == Counts(s) <==> SameCounts(r, s)
  {
    var a, b := Counts(r).functions, Counts(s).functions;
    assert a.Keys == HitsIn(r.functions).Keys && b.Keys == HitsIn(s.functions).Keys;
    assert forall n :: n in a ==> a[n].hits == HitsIn(r.functions)[n];
    assert forall n :: n in b ==> b[n].hits == HitsIn(s.functions)[n];
    if a == b {
      assert HitsIn(r.functions) == HitsIn(s.functions);
    }
    if HitsIn(r.functions) == HitsIn(s.functions) {
      assert a == b;
    }
  }

  lemma HitSame(a: map<string, Fn>, b: map<string, Fn>, name: string, line: Num, n: nat)
    requires HitsIn(a) == HitsIn(b)
    ensures HitsIn(SeeFn(a, name, line)) == HitsIn(SeeFn(b, name, line))
    ensures HitsIn(HitFn(a, name, n)) == HitsIn(HitFn(b, name, n))
  {
    assert a.Keys == HitsIn(a).Keys && b.Keys == HitsIn(b).Keys;
    assert forall m :: m in a ==> a[m].hits == HitsIn(a)[m];
    assert forall m :: m in b ==> b[m].hits == HitsIn(b)[m];
  }

  /** A field, table by table. */
  lemma AbsorbHits(rec: Record, f: Field)
    ensures var k, b, r := KindOf(f.tag), BranchOf(f.rest), Absorb(rec, f);
            && r.lineHits == (
              if k == Line then Add(rec.lineHits, ToNum(UpTo(f.rest, ',')), Count(UpTo(After(f.rest, ','), ',')))
              else rec.lineHits)
            && r.branches == (if k == Branch && b.Some? then Add(rec.branches, b.value.0, b.value.1) else rec.branches)
  {
    hide KindOf, After, UpTo, BranchOf, Count, ToNum, SeeFn, HitFn, Add;
  }

  lemma AbsorbTotals(rec: Record, f: Field)
    ensures var k, r := KindOf(f.tag), Absorb(rec, f);
            && r.fnf == (if k == FnFound then Max(rec.fnf, Count(f.rest)) else rec.fnf)
            && r.fnh == (if k == FnHit then Max(rec.fnh, Count(f.rest)) else rec.fnh)
  {
    hide KindOf, After, UpTo, BranchOf, Count, ToNum, SeeFn, HitFn, Add, Max;
  }

  lemma AbsorbFns(rec: Record, f: Field)
    ensures var k, r := KindOf(f.tag), Absorb(rec, f);
            r.functions == (if k == Function then SeeFn(rec.functions, After(f.rest, ','), ToNum(UpTo(f.rest, ',')))
                            else if k == FunctionHits then
                              HitFn(rec.functions, After(f.rest, ','), Count(UpTo(f.rest, ',')))
                            else rec.functions)
  {
    hide KindOf, After, UpTo, BranchOf, Count, ToNum, SeeFn, HitFn, Add, Max;
  }

  /** What a field does to the counts is decided by the counts. */
  lemma AbsorbCounts(r: Record, s: Record, f: Field)
    requires SameCounts(r, s)
    ensures SameCounts(Absorb(r, f), Absorb(s, f))
  {
    hide KindOf, Absorb, After, UpTo, BranchOf, Count, ToNum, HitsIn, SeeFn, HitFn, Add;
    AbsorbHits(r, f);
    AbsorbHits(s, f);
    AbsorbTotals(r, f);
    AbsorbTotals(s, f);
    AbsorbFns(r, f);
    AbsorbFns(s, f);
    HitSame(r.functions, s.functions, After(f.rest, ','), ToNum(UpTo(f.rest, ',')), Count(UpTo(f.rest, ',')));
  }

  lemma SeeAfterMerge(d: map<string, Fn>, s: map<string, Fn>, name: string, line: Num)
    ensures HitsIn(SeeFn(MergeFns(d, s), name, line)) == HitsIn(MergeFns(d, SeeFn(s, name, line)))
  {
    hide MergeLine;
  }

  lemma HitAfterMerge(d: map<string, Fn>, s: map<string, Fn>, name: string, n: nat)
    ensures HitsIn(HitFn(MergeFns(d, s), name, n)) == HitsIn(MergeFns(d, HitFn(s, name, n)))
  {
    hide MergeLine;
  }

  lemma AddAfterMerge<K>(d: map<K, nat>, s: map<K, nat>, k: K, n: nat)
    ensures Add(MergeHits(d, s), k, n) == MergeHits(d, Add(s, k, n))
  {
  }

  /** Absorbing after a merge counts as merging after the field was absorbed. */
  lemma AbsorbAfterMerge(d: Record, s: Record, f: Field)
    ensures SameCounts(Absorb(MergeRecord(d, s), f), MergeRecord(d, Absorb(s, f)))
  {
    hide KindOf, Absorb, After, UpTo, BranchOf, Count, ToNum, HitsIn, SeeFn, HitFn, MergeHits, MergeFns, Add;
    AbsorbHits(MergeRecord(d, s), f);
    AbsorbHits(s, f);
    AbsorbTotals(MergeRecord(d, s), f);
    AbsorbTotals(s, f);
    AbsorbFns(MergeRecord(d, s), f);
    AbsorbFns(s, f);
    var name := After(f.rest, ',');
    SeeAfterMerge(d.functions, s.functions, name, ToNum(UpTo(f.rest, ',')));
    HitAfterMerge(d.functions, s.functions, name, Count(UpTo(f.rest, ',')));
    AddAfterMerge(d.lineHits, s.lineHits, ToNum(UpTo(f.rest, ',')), Count(UpTo(name, ',')));
    if BranchOf(f.rest).Some? {
      AddAfterMerge(d.branches, s.branches, BranchOf(f.rest).value.0, BranchOf(f.rest).value.1);
    }
  }

  lemma MergeWithEmpty(d: Record)
    ensures SameCounts(MergeRecord(d, EMPTY), d)
  {
    assert MergeHits(d.lineHits, map[]) == d.lineHits && MergeHits(d.branches, map[]) == d.branches;
    assert MergeFns(d.functions, map[]) == d.functions;
  }

  /** The parse of the second file on top of the first, beside its parse from nothing. */
  ghost predicate Beside(first: Records, st: State, pt: State) {
    && st.cur == pt.cur
    && (pt.cur.Some? ==> pt.cur.value in pt.records)
    && Tables(first, st.records, pt.records)
  }

  ghost predicate Tables(first: Records, all: Records, part: Records) {
    all.Keys == first.Keys + part.Keys && forall sf :: sf in all ==> Agrees(first, part, sf, all[sf])
  }

  /** The record of `sf` in the merge of the two parses, up to the first-seen fields. */
  ghost predicate Agrees(first: Records, part: Records, sf: string, rec: Record)
    requires sf in first || sf in part
  {
    SameCounts(rec,
      if sf !in part then first[sf] else if sf !in first then part[sf] else MergeRecord(first[sf], part[sf]))
  }

  lemma AbsorbAgrees(first: Records, part: Records, sf: string, rec: Record, f: Field)
    requires sf in part && Agrees(first, part, sf, rec)
    ensures Agrees(first, part[sf := Absorb(part[sf], f)], sf, Absorb(rec, f))
  {
    if sf in first {
      AbsorbAfterMerge(first[sf], part[sf], f);
      AbsorbCounts(rec, MergeRecord(first[sf], part[sf]), f);
    } else {
      AbsorbCounts(rec, part[sf], f);
    }
    hide Absorb, MergeRecord, HitsIn;
  }

  lemma AgreesElsewhere(first: Records, part: Records, g: string, rec: Record, sf: string, prec: Record)
    requires g != sf && (g in first || g in part) && Agrees(first, part, g, rec)
    ensures Agrees(first, part[sf := prec], g, rec)
  {
    hide SameCounts, MergeRecord;
  }

  /** One record changed on both sides, and the two still agree there. */
  lemma TablesSet(first: Records, all: Records, part: Records, sf: string, rec: Record, prec: Record)
    requires Tables(first, all, part) && Agrees(first, part[sf := prec], sf, rec)
    ensures Tables(first, all[sf := rec], part[sf := prec])
  {
    hide Agrees;
    forall g | g in all && g != sf ensures Agrees(first, part[sf := prec], g, all[g]) {
      AgreesElsewhere(first, part, g, all[g], sf, prec);
    }
  }

  lemma AbsorbBeside(first: Records, st: State, pt: State, f: Field)
    requires Beside(first, st, pt) && pt.cur.Some?
    ensures var sf := pt.cur.value;
            Beside(first, st.(records := st.records[sf := Absorb(st.records[sf], f)]),
                          pt.(records := pt.records[sf := Absorb(pt.records[sf], f)]))
  {
    hide Agrees, Absorb;
    var sf := pt.cur.value;
    AbsorbAgrees(first, pt.records, sf, st.records[sf], f);
    TablesSet(first, st.records, pt.records, sf, Absorb(st.records[sf], f), Absorb(pt.records[sf], f));
  }

  lemma EmptyAgrees(first: Records, part: Records, sf: string)
    requires sf !in part
    ensures sf in first ==> (forall rec :: Agrees(first, part, sf, rec) ==> Agrees(first, part[sf := EMPTY], sf, rec))
    ensures sf !in first ==> Agrees(first, part[sf := EMPTY], sf, EMPTY)
  {
    hide HitsIn, MergeRecord;
    if sf in first { MergeWithEmpty(first[sf]); }
  }

  lemma OpenTables(first: Records, all: Records, part: Records, sf: string)
    requires Tables(first, all, part)
    ensures Tables(first, if sf in all then all else all[sf := EMPTY], if sf in part then part else part[sf := EMPTY])
  {
    hide Agrees;
    if sf !in part {
      EmptyAgrees(first, part, sf);
      if sf in first {
        TablesSet(first, all, part, sf, all[sf], EMPTY);
        assert all[sf := all[sf]] == all;
      } else {
        TablesSet(first, all, part, sf, EMPTY, EMPTY);
      }
    }
  }

  lemma OpenBeside(first: Records, st: State, pt: State, sf: string)
    requires Tables(first, st.records, pt.records)
    ensures Beside(first, State(if sf in st.records then st.records else st.records[sf := EMPTY], Some(sf)),
                          State(if sf in pt.records then pt.records else pt.records[sf := EMPTY], Some(sf)))
  {
    hide Tables;
    OpenTables(first, st.records, pt.records, sf);
  }

  lemma LineBeside(first: Records, st: State, pt: State, raw: string, norm: string -> string)
    requires Beside(first, st, pt)
    ensures Beside(first, ReadLine(st, raw, norm), ReadLine(pt, raw, norm))
  {
    hide After, UpTo, Absorb, Trim, Tables;
    var line := Trim(raw);
    var f := Field(UpTo(line, ':'), After(line, ':'));
    assert pt.cur.Some? ==> pt.cur.value in st.records by { CurOpen(first, st, pt); }
    if pt.cur.Some? { AbsorbBeside(first, st, pt, f); }
    OpenBeside(first, st, pt, norm(f.rest));
  }

  lemma CurOpen(first: Records, st: State, pt: State)
    requires Beside(first, st, pt)
    ensures pt.cur.Some? ==> pt.cur.value in st.records
  {
    hide Agrees;
  }

  lemma {:induction false} LinesBeside(first: Records, st: State, pt: State, lines: seq<string>, norm: string -> string)
    requires Beside(first, st, pt)
    ensures Beside(first, ReadLines(st, lines, norm), ReadLines(pt, lines, norm))
    decreases |lines|
  {
    hide ReadLine, Beside;
    if lines != [] {
      LineBeside(first, st, pt, lines[0], norm);
      LinesBeside(first, ReadLine(st, lines[0], norm), ReadLine(pt, lines[0], norm), lines[1..], norm);
    }
  }

  lemma {:induction false} SplitConcat(a: string, b: string)
    ensures SplitLines(a + "\n" + b) == SplitLines(a) + SplitLines(b)
    decreases |a|
  {
    var s := a + "\n" + b;
    if a == "" {
      assert s[1..] == b;
    } else {
      assert s[1..] == a[1..] + "\n" + b;
      SplitConcat(a[1..], b);
    }
  }

  lemma TablesCount(first: Records, all: Records, part: Records)
    requires Tables(first, all, part)
    ensures CountsOf(all) == CountsOf(Merge(first, part))
  {
    forall sf | sf in all ensures Counts(all[sf]) == Counts(Merge(first, part)[sf]) {
      assert Agrees(first, part, sf, all[sf]);
      CountsSame(all[sf], Merge(first, part)[sf]);
      hide SameCounts, Counts, MergeRecord;
    }
    hide Counts, MergeRecord, Agrees;
  }

  // ------------------------------------------------------- what leads a file in

  /** A line that opens or closes a record. */
  predicate Marks(raw: string) {
    var line := Trim(raw);
    line == "end_of_record" || (!Lacks(line, ':') && UpTo(line, ':') == "SF")
  }

  predicate NoMarks(lines: seq<string>) {
    forall i :: 0 <= i < |lines| ==> !Marks(lines[i])
  }

  /** The lines before the first that opens or closes a record. */
  function LeadIn(lines: seq<string>): (lead: seq<string>)
    ensures |lead| <= |lines| && lines[..|lead|] == lead && NoMarks(lead)
    ensures |lead| < |lines| ==> Marks(lines[|lead|])
  {
    if lines == [] || Marks(lines[0]) then [] else [lines[0]] + LeadIn(lines[1..])
  }

  /** A line that is no mark keeps the open record open, and is lost on a closed parse. */
  lemma NoMarkReads(st: State, raw: string, norm: string -> string)
    requires !Marks(raw)
    ensures ReadLine(st, raw, norm).cur == st.cur
    ensures st.cur.None? ==> ReadLine(st, raw, norm) == st
  {
    hide Trim, Lacks, UpTo, After, Absorb;
  }

  lemma {:induction false} LeadInReads(st: State, lead: seq<string>, norm: string -> string)
    requires NoMarks(lead)
    ensures ReadLines(st, lead, norm).cur == st.cur
    ensures st.cur.None? ==> ReadLines(st, lead, norm) == st
    decreases |lead|
  {
    hide ReadLine, Marks;
    if lead != [] {
      NoMarkReads(st, lead[0], norm);
      LeadInReads(ReadLine(st, lead[0], norm), lead[1..], norm);
    }
  }

  /** From the first mark on the two readings run together, whatever was open before. */
  lemma MarkBeside(first: Records, st: State, raw: string, norm: string -> string)
    requires Tables(first, st.records, map[]) && Marks(raw)
    ensures Beside(first, ReadLine(st, raw, norm), ReadLine(START, raw, norm))
  {
    hide Trim, Lacks, UpTo, After, Absorb, Tables;
    OpenBeside(first, st, START, norm(After(Trim(raw), ':')));
    var word := "end_of_record";
    assert word != "";
  }

  lemma RestCounts(first: Records, st: State, rest: seq<string>, norm: string -> string)
    requires Tables(first, st.records, map[]) && (rest == [] || Marks(rest[0]))
    ensures CountsOf(ReadLines(st, rest, norm).records) == CountsOf(Merge(first, ReadLines(START, rest, norm).records))
  {
    hide ReadLine, Tables, CountsOf, Merge, Marks, Beside;
    if rest == [] {
      TablesCount(first, st.records, map[]);
    } else {
      MarkBeside(first, st, rest[0], norm);
      LinesBeside(first, ReadLine(st, rest[0], norm), ReadLine(START, rest[0], norm), rest[1..], norm);
      BesideCounts(first, ReadLines(st, rest, norm), ReadLines(START, rest, norm));
    }
  }

  lemma BesideCounts(first: Records, st: State, pt: State)
    requires Beside(first, st, pt)
    ensures CountsOf(st.records) == CountsOf(Merge(first, pt.records))
  {
    hide Tables, CountsOf, Merge;
    TablesCount(first, st.records, pt.records);
  }

  lemma MergeNothing(a: Records)
    ensures Merge(a, map[]) == a
  {
  }

  // ---------------------------------------------------------- rows that add nothing

  /** A row that adds nothing to a record: no entry, no hit, no total above the stated one. */
  predicate AddsNothing(rec: Record, f: Field) {
    var first, rest := UpTo(f.rest, ','), After(f.rest, ',');
    match KindOf(f.tag)
    case Line => ToNum(first) in rec.lineHits && Count(UpTo(rest, ',')) == 0
    case Branch => (match BranchOf(f.rest) case None => true case Some(b) => b.0 in rec.branches && b.1 == 0)
    case Function => rest in rec.functions
    case FunctionHits => rest in rec.functions && Count(first) == 0
    case FnFound => Count(f.rest) <= rec.fnf
    case FnHit => Count(f.rest) <= rec.fnh
    case TestName => true
    case Other => true
  }

  /** A line of a lead-in as a row: the field that the open record absorbs, if there is one. */
  function RowOf(raw: string): Option<Field> {
    var line := Trim(raw);
    if line == "" || Lacks(line, ':') then None else Some(Field(UpTo(line, ':'), After(line, ':')))
  }

  predicate Harmless(rec: Record, raw: string) {
    RowOf(raw).Some? ==> AddsNothing(rec, RowOf(raw).value)
  }

  predicate AllHarmless(rec: Record, lead: seq<string>) {
    forall i :: 0 <= i < |lead| ==> Harmless(rec, lead[i])
  }

  lemma HitAdds<K>(hits: map<K, nat>, k: K, n: nat)
    ensures Add(hits, k, n) == hits <==> k in hits && n == 0
  {
    assert k in Add(hits, k, n);
    if k in hits && n == 0 { assert Add(hits, k, n) == hits; }
    if Add(hits, k, n) == hits { assert k in hits && Add(hits, k, n)[k] == hits[k]; }
  }

  lemma SeeAdds(fns: map<string, Fn>, name: string, line: Num)
    ensures HitsIn(SeeFn(fns, name, line)) == HitsIn(fns) <==> name in fns
  {
    assert name in HitsIn(SeeFn(fns, name, line)) && (name in HitsIn(fns) <==> name in fns);
  }

  lemma HitFnAdds(fns: map<string, Fn>, name: string, n: nat)
    ensures HitsIn(HitFn(fns, name, n)) == HitsIn(fns) <==> name in fns && n == 0
  {
    var a, b := HitsIn(HitFn(fns, name, n)), HitsIn(fns);
    assert name in a && (name in b <==> name in fns) && a.Keys == b.Keys + {name};
    if name in fns {
      assert a[name] == b[name] + n;
      assert forall m :: m in b && m != name ==> a[m] == b[m];
    }
  }

  /** A row leaves the counts as they are exactly if it adds nothing. */
  lemma AbsorbKeepsIff(rec: Record, f: Field)
    ensures SameCounts(Absorb(rec, f), rec) <==> AddsNothing(rec, f)
  {
    AbsorbHits(rec, f);
    AbsorbTotals(rec, f);
    AbsorbFns(rec, f);
    var first, rest := UpTo(f.rest, ','), After(f.rest, ',');
    HitAdds(rec.lineHits, ToNum(first), Count(UpTo(rest, ',')));
    if BranchOf(f.rest).Some? { HitAdds(rec.branches, BranchOf(f.rest).value.0, BranchOf(f.rest).value.1); }
    SeeAdds(rec.functions, rest, ToNum(first));
    HitFnAdds(rec.functions, rest, Count(first));
    hide KindOf, Absorb, After, UpTo, BranchOf, Count, ToNum, HitsIn, SeeFn, HitFn, Add;
  }

  lemma AddsNothingSame(r: Record, s: Record, f: Field)
    requires SameCounts(r, s)
    ensures AddsNothing(r, f) <==> AddsNothing(s, f)
  {
    assert r.functions.Keys == HitsIn(r.functions).Keys && s.functions.Keys == HitsIn(s.functions).Keys;
    hide KindOf, After, UpTo, BranchOf, Count, ToNum, HitsIn;
  }

  // -------------------------------------------------------------- counts only grow

  predicate FewerHits<K>(a: map<K, nat>, b: map<K, nat>) {
    forall k :: k in a ==> k in b && a[k] <= b[k]
  }

  /** No count of `r` is above that of `s`. */
  predicate Below(r: Record, s: Record) {
    && FewerHits(r.lineHits, s.lineHits) && FewerHits(r.branches, s.branches)
    && FewerHits(HitsIn(r.functions), HitsIn(s.functions)) && r.fnf <= s.fnf && r.fnh <= s.fnh
  }

  lemma FnsGrow(fns: map<string, Fn>, name: string, line: Num, n: nat)
    ensures FewerHits(HitsIn(fns), HitsIn(SeeFn(fns, name, line)))
    ensures FewerHits(HitsIn(fns), HitsIn(HitFn(fns, name, n)))
    ensures FewerHits(HitsIn(fns), HitsIn(fns))
  {
  }

  lemma HitsGrow<K>(hits: map<K, nat>, k: K, n: nat)
    ensures FewerHits(hits, Add(hits, k, n)) && FewerHits(hits, hits)
  {
  }

  lemma AbsorbGrows(rec: Record, f: Field)
    ensures Below(rec, Absorb(rec, f))
  {
    AbsorbHits(rec, f);
    AbsorbTotals(rec, f);
    AbsorbFns(rec, f);
    var first, rest := UpTo(f.rest, ','), After(f.rest, ',');
    HitsGrow(rec.lineHits, ToNum(first), Count(UpTo(rest, ',')));
    if BranchOf(f.rest).Some? { HitsGrow(rec.branches, BranchOf(f.rest).value.0, BranchOf(f.rest).value.1); }
    HitsGrow(rec.branches, "", 0);
    FnsGrow(rec.functions, rest, ToNum(first), Count(first));
    hide KindOf, Absorb, After, UpTo, BranchOf, Count, ToNum, HitsIn, SeeFn, HitFn, Add, FewerHits;
  }

  lemma HitsBetween<K>(a: map<K, nat>, b: map<K, nat>, c: map<K, nat>)
    requires FewerHits(a, b) && FewerHits(b, c)
    ensures FewerHits(a, c) && (a == c ==> a == b)
  {
    if a == c {
      assert a.Keys == b.Keys;
      assert forall k :: k in a ==> a[k] == b[k];
    }
  }

  lemma Between(r: Record, s: Record, t: Record)
    requires Below(r, s) && Below(s, t)
    ensures Below(r, t) && (SameCounts(t, r) ==> SameCounts(s, r))
  {
    HitsBetween(r.lineHits, s.lineHits, t.lineHits);
    HitsBetween(r.branches, s.branches, t.branches);
    HitsBetween(HitsIn(r.functions), HitsIn(s.functions), HitsIn(t.functions));
    hide FewerHits, HitsIn;
  }

  // ---------------------------------------------------------------- a whole lead-in

  function Led(rec: Record, raw: string): Record {
    match RowOf(raw) case None => rec case Some(f) => Absorb(rec, f)
  }

  function LedBy(rec: Record, lead: seq<string>): Record
    decreases |lead|
  {
    if lead == [] then rec else LedBy(Led(rec, lead[0]), lead[1..])
  }

  lemma BelowItself(rec: Record)
    ensures Below(rec, rec) && SameCounts(rec, rec)
  {
  }

  lemma LedIff(rec: Record, raw: string)
    ensures Below(rec, Led(rec, raw)) && (SameCounts(Led(rec, raw), rec) <==> Harmless(rec, raw))
  {
    BelowItself(rec);
    if RowOf(raw).Some? {
      AbsorbGrows(rec, RowOf(raw).value);
      AbsorbKeepsIff(rec, RowOf(raw).value);
    }
    hide RowOf, Absorb, AddsNothing, Below, SameCounts;
  }

  lemma HarmlessSame(r: Record, s: Record, lead: seq<string>)
    requires SameCounts(r, s)
    ensures AllHarmless(r, lead) <==> AllHarmless(s, lead)
  {
    hide RowOf, AddsNothing, SameCounts;
    forall i | 0 <= i < |lead| ensures Harmless(r, lead[i]) <==> Harmless(s, lead[i]) {
      if RowOf(lead[i]).Some? { AddsNothingSame(r, s, RowOf(lead[i]).value); }
    }
    hide Harmless;
  }

  lemma SameTrans(r: Record, s: Record, t: Record)
    requires SameCounts(r, s)
    ensures SameCounts(s, r) && (SameCounts(t, r) <==> SameCounts(t, s)) && (SameCounts(r, t) <==> SameCounts(s, t))
  {
    hide HitsIn;
  }

  lemma AllHarmlessStep(rec: Record, lead: seq<string>)
    requires lead != []
    ensures AllHarmless(rec, lead) <==> Harmless(rec, lead[0]) && AllHarmless(rec, lead[1..])
  {
    hide Harmless;
    assert lead == [lead[0]] + lead[1..];
  }

  /** A lead-in leaves the counts of a record as they are exactly if none of its rows adds anything. */
  lemma {:induction false} LeadInKeepsIff(rec: Record, lead: seq<string>)
    ensures Below(rec, LedBy(rec, lead))
    ensures SameCounts(LedBy(rec, lead), rec) <==> AllHarmless(rec, lead)
    decreases |lead|
  {
    BelowItself(rec);
    if lead != [] {
      hide Led, Harmless, AllHarmless, Below, SameCounts;
      var next, rest := Led(rec, lead[0]), lead[1..];
      LedIff(rec, lead[0]);
      AllHarmlessStep(rec, lead);
      LeadInKeepsIff(next, rest);
      Between(rec, next, LedBy(next, rest));
      if SameCounts(next, rec) {
        HarmlessSame(next, rec, rest);
        SameTrans(next, rec, LedBy(next, rest));
      }
    }
  }

  /** Reading a lead-in is absorbing its rows into the open record. */
  lemma LedReads(st: State, raw: string, norm: string -> string)
    requires !Marks(raw) && st.cur.Some? && st.cur.value in st.records
    ensures var k := st.cur.value;
      ReadLine(st, raw, norm) == State(st.records[k := Led(st.records[k], raw)], st.cur)
  {
    var k := st.cur.value;
    assert st.records[k := st.records[k]] == st.records;
    hide Trim, Lacks, UpTo, After, Absorb;
  }

  lemma {:induction false} LeadInLed(st: State, lead: seq<string>, norm: string -> string)
    requires NoMarks(lead) && st.cur.Some? && st.cur.value in st.records
    ensures var k := st.cur.value;
      ReadLines(st, lead, norm) == State(st.records[k := LedBy(st.records[k], lead)], st.cur)
    decreases |lead|
  {
    hide ReadLine, Marks, Led;
    var k := st.cur.value;
    if lead == [] {
      assert st.records[k := st.records[k]] == st.records;
    } else {
      var next := Led(st.records[k], lead[0]);
      LedReads(st, lead[0], norm);
      LeadInLed(State(st.records[k := next], st.cur), lead[1..], norm);
      assert st.records[k := next][k := LedBy(next, lead[1..])] == st.records[k := LedBy(next, lead[1..])];
    }
  }

  lemma {:induction false} LedBySame(r: Record, s: Record, lead: seq<string>)
    requires SameCounts(r, s)
    ensures SameCounts(LedBy(r, lead), LedBy(s, lead))
    decreases |lead|
  {
    hide SameCounts, RowOf, Absorb;
    if lead != [] {
      if RowOf(lead[0]).Some? { AbsorbCounts(r, s, RowOf(lead[0]).value); }
      LedBySame(Led(r, lead[0]), Led(s, lead[0]), lead[1..]);
    }
  }

  lemma MergeFlips(d: Record, s: Record)
    ensures SameCounts(MergeRecord(d, s), MergeRecord(s, d))
  {
    hide *;
    RecordCountsMerge(d, s);
    RecordCountsMerge(s, d);
    RecordCountsSwap(d, s);
    CountsSame(MergeRecord(d, s), MergeRecord(s, d));
  }

  lemma LedBeforeMerge(d: Record, s: Record, raw: string)
    ensures SameCounts(MergeRecord(Led(d, raw), s), Led(MergeRecord(d, s), raw))
  {
    BelowItself(MergeRecord(d, s));
    hide SameCounts, RowOf, Absorb, MergeRecord, Below;
    if RowOf(raw).Some? {
      var f := RowOf(raw).value;
      MergeFlips(Absorb(d, f), s);
      AbsorbAfterMerge(s, d, f);
      MergeFlips(s, d);
      AbsorbCounts(MergeRecord(s, d), MergeRecord(d, s), f);
      Chain(MergeRecord(Absorb(d, f), s), MergeRecord(s, Absorb(d, f)), Absorb(MergeRecord(s, d), f),
        Absorb(MergeRecord(d, s), f));
    }
  }

  lemma Chain(a: Record, b: Record, c: Record, d: Record)
    requires SameCounts(a, b) && (SameCounts(b, c) || SameCounts(c, b)) && SameCounts(c, d)
    ensures SameCounts(a, d)
  {
    hide HitsIn;
  }

  /** A lead-in absorbed before a merge counts as absorbed after it. */
  lemma {:induction false} LedByBeforeMerge(d: Record, s: Record, lead: seq<string>)
    ensures SameCounts(MergeRecord(LedBy(d, lead), s), LedBy(MergeRecord(d, s), lead))
    decreases |lead|
  {
    hide SameCounts, Led, MergeRecord, Below;
    if lead == [] {
      BelowItself(MergeRecord(d, s));
    } else {
      var next, rest := Led(d, lead[0]), lead[1..];
      LedByBeforeMerge(next, s, rest);
      LedBeforeMerge(d, s, lead[0]);
      LedBySame(MergeRecord(next, s), Led(MergeRecord(d, s), lead[0]), rest);
      SameTrans(MergeRecord(LedBy(next, rest), s), LedBy(MergeRecord(next, s), rest),
        LedBy(Led(MergeRecord(d, s), lead[0]), rest));
    }
  }

  /** One record changed under a merge shows in the counts exactly if its merged counts change. */
  lemma ShowsAt(a: Records, k: string, rec: Record, b: Records)
    requires k in a
    ensures CountsOf(Merge(a[k := rec], b)) == CountsOf(Merge(a, b))
       <==> Counts(Merge(a[k := rec], b)[k]) == Counts(Merge(a, b)[k])
  {
    hide Counts, MergeRecord;
    var l, r := Merge(a[k := rec], b), Merge(a, b);
    assert l.Keys == r.Keys;
    assert forall sf :: sf in l && sf != k ==> l[sf] == r[sf];
    assert CountsOf(l)[k] == Counts(l[k]) && CountsOf(r)[k] == Counts(r[k]);
    if Counts(l[k]) == Counts(r[k]) {
      forall sf | sf in CountsOf(l) ensures CountsOf(l)[sf] == CountsOf(r)[sf] {
      }
    }
  }

  /** A lead-in absorbed by one record of the first file shows exactly if it adds to the merged record. */
  lemma LeadInShowsIff(a: Records, k: string, lead: seq<string>, b: Records)
    requires k in a
    ensures CountsOf(Merge(a[k := LedBy(a[k], lead)], b)) == CountsOf(Merge(a, b))
      <==> AllHarmless(Merge(a, b)[k], lead)
  {
    var rec := LedBy(a[k], lead);
    var l, r := Merge(a[k := rec], b)[k], Merge(a, b)[k];
    assert l == (if k in b then MergeRecord(rec, b[k]) else rec)
      && r == (if k in b then MergeRecord(a[k], b[k]) else a[k])
      by { hide MergeRecord, LedBy; }
    hide *;
    ShowsAt(a, k, rec, b);
    CountsSame(l, r);
    LeadInKeepsIff(r, lead);
    if k in b {
      LedByBeforeMerge(a[k], b[k], lead);
      SameTrans(l, LedBy(r, lead), r);
    }
  }

  // ------------------------------------------------------------------ two files

  lemma TablesSelf(first: Records)
    ensures Tables(first, first, map[])
  {
    forall sf | sf in first ensures Agrees(first, map[], sf, first[sf]) {
    }
    hide Agrees;
  }

  lemma {:induction false} CurStaysOpen(st: State, lines: seq<string>, norm: string -> string)
    requires st.cur.Some? ==> st.cur.value in st.records
    ensures var end := ReadLines(st, lines, norm); end.cur.Some? ==> end.cur.value in end.records
    decreases |lines|
  {
    if lines != [] {
      assert var next := ReadLine(st, lines[0], norm); next.cur.Some? ==> next.cur.value in next.records
        by { hide Trim, Lacks, UpTo, After, Absorb; }
      hide ReadLine;
      CurStaysOpen(ReadLine(st, lines[0], norm), lines[1..], norm);
    }
  }

  /**
   * Lines read on top of a first file, a lead-in and what follows it: they count what
   * merging the two readings counts, if and only if the first file is closed or no row of
   * the lead-in adds anything to the merged record that was left open.
   */
  lemma OnTopIff(first: State, lead: seq<string>, rest: seq<string>, norm: string -> string)
    requires first.cur.Some? ==> first.cur.value in first.records
    requires NoMarks(lead) && (rest == [] || Marks(rest[0]))
    ensures var merged := Merge(first.records, ReadLines(START, lead + rest, norm).records);
      && (first.cur.Some? ==> first.cur.value in merged)
      && (CountsOf(ReadLines(first, lead + rest, norm).records) == CountsOf(merged)
          <==> (first.cur.Some? ==> AllHarmless(merged[first.cur.value], lead)))
  {
    hide ReadLines, CountsOf, Merge, Marks, Tables, NoMarks, AllHarmless, LedBy;
    var mid := ReadLines(first, lead, norm);
    LeadInReads(START, lead, norm);
    P.ReadConcat(first, lead, rest, norm);
    P.ReadConcat(START, lead, rest, norm);
    TablesSelf(mid.records);
    RestCounts(mid.records, mid, rest, norm);
    if first.cur.None? {
      LeadInReads(first, lead, norm);
    } else {
      var part := ReadLines(START, rest, norm).records;
      MergeKeys(first.records, part);
      LeadInLed(first, lead, norm);
      LeadInShowsIff(first.records, first.cur.value, lead, part);
    }
  }

  /**
   * Two files set end to end count exactly what merging their parses counts, if and only if
   * the first one ends closed, or no row before the second one's first `SF:` or
   * `end_of_record` adds anything to the merged record of the file left open.
   */
  lemma ConcatCounts(a: string, b: string, norm: string -> string)
    ensures var open, lead := ReadLines(START, SplitLines(a), norm).cur, LeadIn(SplitLines(b));
      var merged := Merge(Parse(a, norm), Parse(b, norm));
      && (open.Some? ==> open.value in merged)
      && (CountsOf(Parse(a + "\n" + b, norm)) == CountsOf(merged)
        <==> (open.Some? ==> AllHarmless(merged[open.value], lead)))
  {
    hide *;
    var first, lines := ReadLines(START, SplitLines(a), norm), SplitLines(b);
    var lead := LeadIn(lines);
    NothingOpen();
    CurStaysOpen(START, SplitLines(a), norm);
    ParsesLines(a, norm);
    ParsesLines(b, norm);
    ParsesLines(a + "\n" + b, norm);
    SplitConcat(a, b);
    P.ReadConcat(START, SplitLines(a), lines, norm);
    assert lines == lead + lines[|lead|..];
    OnTopIff(first, lead, lines[|lead|..], norm);
  }

  lemma NothingOpen()
    ensures START.cur == None
  {
  }

  lemma ParsesLines(text: string, norm: string -> string)
    ensures Parse(text, norm) == ReadLines(START, SplitLines(text), norm).records
  {
  }

  lemma FnsMergeGrow(d: map<string, Fn>, s: map<string, Fn>)
    ensures FewerHits(HitsIn(d), HitsIn(MergeFns(d, s)))
  {
    hide MergeLine;
  }

  lemma MergeGrows(d: Record, s: Record)
    ensures Below(d, MergeRecord(d, s))
  {
    FnsMergeGrow(d.functions, s.functions);
    hide HitsIn, MergeFns;
  }

  lemma HarmlessAbove(r: Record, s: Record, lead: seq<string>)
    requires Below(r, s) && AllHarmless(r, lead)
    ensures AllHarmless(s, lead)
  {
    assert forall n :: n in r.functions ==> n in HitsIn(r.functions);
    assert forall n :: n in HitsIn(s.functions) ==> n in s.functions;
    hide RowOf, KindOf, After, UpTo, BranchOf, Count, ToNum, HitsIn;
    forall i | 0 <= i < |lead| ensures Harmless(s, lead[i]) {
      assert Harmless(r, lead[i]);
    }
  }

  /**
   * Whatever follows a lead-in: every file beginning with it counts right behind a first
   * file, if and only if that is closed or no row of the lead-in adds anything to the record
   * it left open.
   */
  lemma ConcatCountsIff(first: State, lead: seq<string>, norm: string -> string)
    requires NoMarks(lead) && (first.cur.Some? ==> first.cur.value in first.records)
    ensures (forall rest {:trigger lead + rest} :: rest == [] || Marks(rest[0]) ==>
               CountsOf(ReadLines(first, lead + rest, norm).records)
               == CountsOf(Merge(first.records, ReadLines(START, lead + rest, norm).records)))
       <==> (first.cur.Some? ==> AllHarmless(first.records[first.cur.value], lead))
  {
    hide ReadLines, CountsOf, Marks, NoMarks, AllHarmless, MergeRecord, Below;
    if first.cur.Some? && !AllHarmless(first.records[first.cur.value], lead) {
      OnTopIff(first, lead, [], norm);
      LeadInReads(START, lead, norm);
      assert lead + [] == lead;
      MergeNothing(first.records);
    } else {
      forall rest | rest == [] || Marks(rest[0])
        ensures CountsOf(ReadLines(first, lead + rest, norm).records)
             == CountsOf(Merge(first.records, ReadLines(START, lead + rest, norm).records))
      {
        OnTopIff(first, lead, rest, norm);
        if first.cur.Some? {
          var k, part := first.cur.value, ReadLines(START, lead + rest, norm).records;
          if k in part {
            MergeGrows(first.records[k], part[k]);
            HarmlessAbove(first.records[k], Merge(first.records, part)[k], lead);
          }
        }
      }
    }
  }

  lemma {:induction false} OneLine(line: string)
    requires Lacks(line, '\n')
    ensures SplitLines(line) == [line]
  {
    if line != "" {
      OneLine(line[1..]);
      assert line == [line[0]] + line[1..];
    }
  }

  lemma OpeningReads(norm: string -> string)
    ensures SplitLines("SF:x") == ["SF:x"]
    ensures ReadLines(START, ["SF:x"], norm) == State(map[norm("x") := EMPTY], Some(norm("x")))
  {
    var a, f, name := "SF:x", Field("SF", "x"), "x";
    assert Lacks(a, '\n') && a == P.Text(f);
    OneLine(a);
    assert P.Clean(name);
    P.LineReads(START, f, norm);
    P.ReadOne(START, a, norm);
    hide ReadLine, ReadLines;
  }

  lemma RowReads(st: State, norm: string -> string)
    ensures SplitLines("DA:1,1") == ["DA:1,1"]
    ensures ReadLines(st, ["DA:1,1"], norm) == Take(st, Field("DA", "1,1"), norm)
  {
    var b, f, row := "DA:1,1", Field("DA", "1,1"), "1,1";
    assert Lacks(b, '\n') && b == P.Text(f);
    OneLine(b);
    assert P.Clean(row);
    P.LineReads(st, f, norm);
    P.ReadOne(st, b, norm);
  }

  lemma RowHits(rec: Record)
    ensures Absorb(rec, Field("DA", "1,1")) == rec.(lineHits := Add(rec.lineHits, Some(1), 1))
  {
    var row, one := "1,1", "1";
    assert Show(Some(1)) == one && Dec(1) == one && row == one + "," + one;
    hide Absorb;
    P.DaRow(rec, Some(1), 1);
  }

  /** A truncated first file and a second that begins with a row: the row counts for the first. */
  lemma TruncatedFileCounts(norm: string -> string)
    ensures var a, b := "SF:x", "DA:1,1";
      CountsOf(Parse(a + "\n" + b, norm)) != CountsOf(Merge(Parse(a, norm), Parse(b, norm)))
  {
    var a, b, x := "SF:x", "DA:1,1", norm("x");
    var first := State(map[x := EMPTY], Some(x));
    SplitConcat(a, b);
    OpeningReads(norm);
    RowReads(first, norm);
    RowReads(START, norm);
    RowHits(EMPTY);
    P.ReadConcat(START, [a], [b], norm);
    hide SplitLines, ReadLines, Absorb;
    var all := Parse(a + "\n" + b, norm);
    assert all == map[x := EMPTY.(lineHits := map[Some(1) := 1])];
    assert Parse(a, norm) == map[x := EMPTY] && Parse(b, norm) == map[];
    MergeNothing(Parse(a, norm));
    assert CountsOf(all)[x].lineHits == map[Some(1) := 1];
    assert CountsOf(Parse(a, norm))[x].lineHits == map[];
  }
}
