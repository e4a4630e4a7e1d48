/**
 * Printing merged coverage back as lcov, and reading that print: whatever the shards
 * held, parsing the printed file gives back every line, function and branch table.
 */
module LcovPrint {
  import opened Prelude
  import opened Strings
  import opened TextFields
  import opened Lcov

  function Text(f: Field): string {
    f.tag + ":" + f.rest
  }

  function Lines(fs: seq<Field>): seq<string> {
    if fs == [] then [] else [Text(fs[0])] + Lines(fs[1..])
  }

  // ------------------------------------------------------------------ printing

  predicate HasLine(info: Fn) {
    info.line.Some? && info.line.value > 0
  }

  function FnFields(fns: map<string, Fn>, names: seq<string>): seq<Field>
    requires forall n :: n in names ==> n in fns
  {
    if names == [] then []
    else
      (if HasLine(fns[names[0]]) then [Field("FN", Dec(fns[names[0]].line.value) + "," + names[0])] else [])
      + FnFields(fns, names[1..])
  }

  function FndaFields(fns: map<string, Fn>, names: seq<string>): seq<Field>
    requires forall n :: n in names ==> n in fns
  {
    if names == [] then []
    else [Field("FNDA", Dec(fns[names[0]].hits) + "," + names[0])] + FndaFields(fns, names[1..])
  }

  function Taken(hits: nat): string {
    if hits == 0 then "-" else Dec(hits)
  }

  /** A branch key always has three parts (see `LcovPipeline.ParsedPrints`), so the parts are printed as the key. */
  function BrdaFields(branches: map<string, nat>, keys: seq<string>): seq<Field>
    requires forall k :: k in keys ==> k in branches
  {
    if keys == [] then []
    else [Field("BRDA", keys[0] + "," + Taken(branches[keys[0]]))] + BrdaFields(branches, keys[1..])
  }

  function DaFields(lineHits: map<Num, nat>, lns: seq<Num>): seq<Field>
    requires forall l :: l in lns ==> l in lineHits
  {
    if lns == [] then []
    else [Field("DA", Show(lns[0]) + "," + Dec(lineHits[lns[0]]))] + DaFields(lineHits, lns[1..])
  }

  function HitFns(fns: map<string, Fn>, names: seq<string>): nat
    requires forall n :: n in names ==> n in fns
  {
    if names == [] then 0 else (if fns[names[0]].hits > 0 then 1 else 0) + HitFns(fns, names[1..])
  }

  function HitEntries<K>(hits: map<K, nat>, order: seq<K>): nat
    requires forall k :: k in order ==> k in hits
  {
    if order == [] then 0 else (if hits[order[0]] > 0 then 1 else 0) + HitEntries(hits, order[1..])
  }

  /** The orders a record's tables are printed in. */
  datatype Order = Order(names: seq<string>, keys: seq<string>, lns: seq<Num>)

  ghost predicate Enumerates<K(!new)>(order: seq<K>, keys: set<K>) {
    (forall k :: k in order <==> k in keys) && forall i, j :: 0 <= i < j < |order| ==> order[i] != order[j]
  }

  ghost predicate Covers(rec: Record, o: Order) {
    && Enumerates(o.names, rec.functions.Keys)
    && Enumerates(o.keys, rec.branches.Keys)
    && Enumerates(o.lns, rec.lineHits.Keys)
  }

  predicate Within(rec: Record, o: Order) {
    && (forall n :: n in o.names ==> n in rec.functions)
    && (forall k :: k in o.keys ==> k in rec.branches)
    && (forall l :: l in o.lns ==> l in rec.lineHits)
  }

  /** The functions found and hit, from the table or from the shard's own totals. */
  function FoundOf(rec: Record): nat {
    if |rec.functions| > 0 then |rec.functions| else rec.fnf
  }

  function HitOf(rec: Record, names: seq<string>): nat
    requires forall n :: n in names ==> n in rec.functions
  {
    if |rec.functions| > 0 then HitFns(rec.functions, names) else rec.fnh
  }

  function Totals(rec: Record, o: Order): seq<Field>
    requires Within(rec, o)
  {
    [Field("FNF", Dec(FoundOf(rec))), Field("FNH", Dec(HitOf(rec, o.names)))]
  }

  function BranchTotals(rec: Record, o: Order): seq<Field>
    requires Within(rec, o)
  {
    [Field("BRF", Dec(|rec.branches|)), Field("BRH", Dec(HitEntries(rec.branches, o.keys)))]
  }

  function LineTotals(rec: Record, o: Order): seq<Field>
    requires Within(rec, o)
  {
    [Field("LF", Dec(|rec.lineHits|)), Field("LH", Dec(HitEntries(rec.lineHits, o.lns)))]
  }

  /** Everything printed between `SF:` and `end_of_record`. */
  function Body(rec: Record, o: Order): seq<Field>
    requires Within(rec, o)
  {
    FnFields(rec.functions, o.names) + (FndaFields(rec.functions, o.names) + (Totals(rec, o)
    + (BrdaFields(rec.branches, o.keys) + (BranchTotals(rec, o)
    + (DaFields(rec.lineHits, o.lns) + LineTotals(rec, o))))))
  }

  function Title(rec: Record): string {
    match rec.testName case Some(t) => t case None => ""
  }

  function RecordLines(sf: string, rec: Record, o: Order): seq<string>
    requires Within(rec, o)
  {
    Lines([Field("TN", Title(rec)), Field("SF", sf)] + Body(rec, o)) + ["end_of_record"]
  }

  ghost predicate CoversAll(records: Records, files: seq<string>, orders: map<string, Order>) {
    forall sf :: sf in files ==>
      sf in records && sf in orders && Within(records[sf], orders[sf]) && Covers(records[sf], orders[sf])
  }

  function FileLines(records: Records, files: seq<string>, orders: map<string, Order>): seq<string>
    requires CoversAll(records, files, orders)
  {
    if files == [] then []
    else RecordLines(files[0], records[files[0]], orders[files[0]]) + FileLines(records, files[1..], orders)
  }

  // ------------------------------------------------------------ reading a line

  /** Text that survives being the end of a line. */
  predicate Clean(s: string) {
    Lacks(s, '\n') && (s != "" ==> !IsSpace(s[|s| - 1]))
  }

  /** The tags the printer uses. */
  predicate IsTag(t: string) {
    t in ["TN", "SF", "FN", "FNDA", "FNF", "FNH", "BRDA", "BRF", "BRH", "DA", "LF", "LH"]
  }

  lemma TagShape(t: string)
    requires IsTag(t)
    ensures t != "" && !IsSpace(t[0]) && Lacks(t, ':') && Lacks(t, '\n')
  {
  }

  lemma TrimKeeps(s: string)
    requires s != "" && !IsSpace(s[0]) && !IsSpace(s[|s| - 1])
    ensures Trim(s) == s
  {
  }

  lemma LineIsNotEnd(f: Field)
    requires Lacks(f.tag, ':')
    ensures Text(f) != "end_of_record" && !Lacks(Text(f), ':') && Text(f) != ""
  {
    var s, word := Text(f), "end_of_record";
    assert s[|f.tag|] == ':';
    forall i | 0 <= i < |word| ensures word[i] != ':' {
    }
  }

  /** A printed line is read as the field it was printed from. */
  lemma LineReads(st: State, f: Field, norm: string -> string)
    requires IsTag(f.tag) && Clean(f.rest)
    ensures ReadLine(st, Text(f), norm) == Take(st, f, norm)
  {
    hide IsTag, Take, Trim, UpTo, After;
    TagShape(f.tag);
    LineIsNotEnd(f);
    var s := Text(f);
    assert s[0] == f.tag[0];
    assert s[|s| - 1] == if f.rest == "" then ':' else f.rest[|f.rest| - 1];
    TrimKeeps(s);
    FieldReads(f.tag, ':', f.rest);
    assert f.tag + [':'] + f.rest == s;
    assert Field(f.tag, f.rest) == f;
  }

  lemma EndReads(st: State, norm: string -> string)
    ensures ReadLine(st, "end_of_record", norm) == st.(cur := None)
  {
    var word := "end_of_record";
    assert word[0] == 'e' && word[|word| - 1] == 'd';
    TrimKeeps(word);
  }

  lemma {:induction false} ReadConcat(st: State, a: seq<string>, b: seq<string>, norm: string -> string)
    ensures ReadLines(st, a + b, norm) == ReadLines(ReadLines(st, a, norm), b, norm)
    decreases |a|
  {
    hide ReadLine;
    if a == [] {
      assert a + b == b;
    } else {
      assert (a + b)[1..] == a[1..] + b;
      ReadConcat(ReadLine(st, a[0], norm), a[1..], b, norm);
    }
  }

  function AbsorbAll(rec: Record, fs: seq<Field>): Record
    decreases |fs|
  {
    if fs == [] then rec else AbsorbAll(Absorb(rec, fs[0]), fs[1..])
  }

  lemma AbsorbOne(rec: Record, f: Field, rest: seq<Field>)
    ensures AbsorbAll(rec, [f] + rest) == AbsorbAll(Absorb(rec, f), rest)
  {
    hide Absorb;
    assert ([f] + rest)[1..] == rest;
  }

  lemma AbsorbTwo(rec: Record, f: Field, g: Field)
    ensures AbsorbAll(rec, [f, g]) == Absorb(Absorb(rec, f), g)
  {
    hide Absorb;
    assert [f, g] == [f] + [g];
    AbsorbOne(rec, f, [g]);
    assert [g] == [g] + [];
    AbsorbOne(Absorb(rec, f), g, []);
  }

  lemma {:induction false} AbsorbConcat(rec: Record, a: seq<Field>, b: seq<Field>)
    ensures AbsorbAll(rec, a + b) == AbsorbAll(AbsorbAll(rec, a), b)
    decreases |a|
  {
    hide Absorb;
    if a == [] {
      assert a + b == b;
    } else {
      assert (a + b)[1..] == a[1..] + b;
      AbsorbConcat(Absorb(rec, a[0]), a[1..], b);
    }
  }

  predicate Readable(fs: seq<Field>) {
    forall i :: 0 <= i < |fs| ==> IsTag(fs[i].tag) && fs[i].tag != "SF" && Clean(fs[i].rest)
  }

  /** Printed fields are absorbed one by one into the open record. */
  lemma {:induction false} FieldsAbsorb(records: Records, sf: string, rec: Record, fs: seq<Field>,
      norm: string -> string)
    requires Readable(fs)
    ensures ReadLines(State(records[sf := rec], Some(sf)), Lines(fs), norm)
         == State(records[sf := AbsorbAll(rec, fs)], Some(sf))
    decreases |fs|
  {
    hide ReadLine, Absorb, IsTag, Clean;
    if fs != [] {
      var st := State(records[sf := rec], Some(sf));
      LineReads(st, fs[0], norm);
      var next := Absorb(rec, fs[0]);
      assert records[sf := rec][sf := next] == records[sf := next];
      FieldsAbsorb(records, sf, next, fs[1..], norm);
      assert Lines(fs)[1..] == Lines(fs[1..]);
    }
  }

  // --------------------------------------------------------- reading the tables

  /** What one printed row does to the open record. */
  lemma FnRow(rec: Record, n: nat, name: string)
    ensures Absorb(rec, Field("FN", Dec(n) + "," + name))
         == if name in rec.functions then rec else rec.(functions := rec.functions[name := Fn(Some(n), 0)])
  {
    DecLacks(n, ',');
    FieldReads(Dec(n), ',', name);
    DecReads(n);
  }

  lemma FndaRow(rec: Record, n: nat, name: string)
    ensures Absorb(rec, Field("FNDA", Dec(n) + "," + name))
         == rec.(functions := rec.functions[name :=
              if name in rec.functions then rec.functions[name].(hits := rec.functions[name].hits + n)
              else Fn(Some(0), n)])
  {
    DecLacks(n, ',');
    FieldReads(Dec(n), ',', name);
    DecReads(n);
  }

  lemma DaRow(rec: Record, l: Num, n: nat)
    ensures Absorb(rec, Field("DA", Show(l) + "," + Dec(n))) == rec.(lineHits := Add(rec.lineHits, l, n))
  {
    ShowLacks(l, ',');
    ShowReads(l);
    FieldReads(Show(l), ',', Dec(n));
    DecLacks(n, ',');
    LastField(Dec(n), ',');
    DecReads(n);
  }

  lemma TotalRows(rec: Record, found: nat, hit: nat)
    ensures AbsorbAll(rec, [Field("FNF", Dec(found)), Field("FNH", Dec(hit))])
         == rec.(fnf := Max(rec.fnf, found), fnh := Max(rec.fnh, hit))
  {
    DecReads(found);
    DecReads(hit);
    AbsorbTwo(rec, Field("FNF", Dec(found)), Field("FNH", Dec(hit)));
    var tag := "FNH";
    assert tag[2] == 'H';
    hide AbsorbAll;
  }

  lemma IgnoredRow(rec: Record, f: Field)
    requires f.tag in ["BRF", "BRH", "LF", "LH"]
    ensures Absorb(rec, f) == rec
  {
    assert f.tag[0] == 'B' || f.tag[0] == 'L';
  }

  lemma IgnoredRows(rec: Record, f: Field, g: Field)
    requires f.tag in ["BRF", "BRH", "LF", "LH"] && g.tag in ["BRF", "BRH", "LF", "LH"]
    ensures AbsorbAll(rec, [f, g]) == rec
  {
    hide Absorb;
    AbsorbTwo(rec, f, g);
    IgnoredRow(rec, f);
    IgnoredRow(rec, g);
  }

  predicate Distinct<T(==)>(s: seq<T>) {
    forall i, j :: 0 <= i < j < |s| ==> s[i] != s[j]
  }

  function LineOf(info: Fn): Num {
    if HasLine(info) then info.line else Some(0)
  }

  /** What the `FN` rows put in the table, then what the `FNDA` rows leave there. */
  function Lined(fns: map<string, Fn>, names: seq<string>): map<string, Fn>
    requires forall n :: n in names ==> n in fns
  {
    map n | n in names && HasLine(fns[n]) :: Fn(fns[n].line, 0)
  }

  function Settled(fns: map<string, Fn>, names: seq<string>): map<string, Fn>
    requires forall n :: n in names ==> n in fns
  {
    map n | n in names :: Fn(LineOf(fns[n]), fns[n].hits)
  }

  function Picked<K>(hits: map<K, nat>, keys: seq<K>): map<K, nat>
    requires forall k :: k in keys ==> k in hits
  {
    map k | k in keys :: hits[k]
  }

  lemma LinedStep(base: map<string, Fn>, fns: map<string, Fn>, names: seq<string>)
    requires Distinct(names) && names != []
    requires forall n :: n in names ==> n in fns
    ensures names[0] !in names[1..] && forall n :: n in names[1..] ==> n in names
    ensures (if HasLine(fns[names[0]]) then base[names[0] := Fn(fns[names[0]].line, 0)] else base)
      + Lined(fns, names[1..])
         == base + Lined(fns, names)
  {
    hide HasLine;
    assert forall n :: n in names ==> n == names[0] || n in names[1..];
  }

  lemma SettledStep(base: map<string, Fn>, fns: map<string, Fn>, names: seq<string>)
    requires Distinct(names) && names != []
    requires forall n :: n in names ==> n in fns
    ensures names[0] !in names[1..] && forall n :: n in names[1..] ==> n in names
    ensures base[names[0] := Fn(LineOf(fns[names[0]]), fns[names[0]].hits)] + Settled(fns, names[1..])
         == base + Settled(fns, names)
  {
    hide LineOf;
    assert forall n :: n in names ==> n == names[0] || n in names[1..];
  }

  lemma PickedStep<K>(base: map<K, nat>, hits: map<K, nat>, keys: seq<K>)
    requires Distinct(keys) && keys != []
    requires forall k :: k in keys ==> k in hits
    ensures keys[0] !in keys[1..] && forall k :: k in keys[1..] ==> k in keys
    ensures base[keys[0] := hits[keys[0]]] + Picked(hits, keys[1..]) == base + Picked(hits, keys)
  {
    assert forall k :: k in keys ==> k == keys[0] || k in keys[1..];
  }

  lemma {:induction false} FnsAbsorb(rec: Record, fns: map<string, Fn>, names: seq<string>)
    requires Distinct(names)
    requires forall n :: n in names ==> n in fns && n !in rec.functions
    ensures AbsorbAll(rec, FnFields(fns, names)) == rec.(functions := rec.functions + Lined(fns, names))
    decreases |names|
  {
    if names == [] {
      assert rec.functions + Lined(fns, names) == rec.functions;
    } else {
      LinedStep(rec.functions, fns, names);
      var n0, info, tail := names[0], fns[names[0]], FnFields(fns, names[1..]);
      if HasLine(info) {
        var f := Field("FN", Dec(info.line.value) + "," + n0);
        assert FnFields(fns, names) == [f] + tail;
        FnRow(rec, info.line.value, n0);
        AbsorbOne(rec, f, tail);
        hide *;
        FnsAbsorb(rec.(functions := rec.functions[n0 := Fn(info.line, 0)]), fns, names[1..]);
      } else {
        assert FnFields(fns, names) == tail;
        hide *;
        FnsAbsorb(rec, fns, names[1..]);
      }
    }
  }

  ghost predicate Waiting(rec: Record, fns: map<string, Fn>, names: seq<string>)
    requires forall n :: n in names ==> n in fns
  {
    forall n :: n in names ==>
      if HasLine(fns[n]) then n in rec.functions && rec.functions[n] == Fn(fns[n].line, 0) else n !in rec.functions
  }

  lemma {:induction false} FndaAbsorb(rec: Record, fns: map<string, Fn>, names: seq<string>)
    requires Distinct(names)
    requires forall n :: n in names ==> n in fns
    requires Waiting(rec, fns, names)
    ensures AbsorbAll(rec, FndaFields(fns, names)) == rec.(functions := rec.functions + Settled(fns, names))
    decreases |names|
  {
    if names == [] {
      assert rec.functions + Settled(fns, names) == rec.functions;
    } else {
      SettledStep(rec.functions, fns, names);
      var n0, info, tail := names[0], fns[names[0]], FndaFields(fns, names[1..]);
      var f := Field("FNDA", Dec(info.hits) + "," + n0);
      assert FndaFields(fns, names) == [f] + tail;
      var next := rec.(functions := rec.functions[n0 := Fn(LineOf(info), info.hits)]);
      FndaRow(rec, info.hits, n0);
      assert Absorb(rec, f) == next by { hide Absorb; }
      AbsorbOne(rec, f, tail);
      assert Waiting(next, fns, names[1..]);
      hide *;
      FndaAbsorb(next, fns, names[1..]);
    }
  }

  lemma {:induction false} DasAbsorb(rec: Record, lineHits: map<Num, nat>, lns: seq<Num>)
    requires Distinct(lns)
    requires forall l :: l in lns ==> l in lineHits && l !in rec.lineHits
    ensures AbsorbAll(rec, DaFields(lineHits, lns)) == rec.(lineHits := rec.lineHits + Picked(lineHits, lns))
    decreases |lns|
  {
    if lns == [] {
      assert rec.lineHits + Picked(lineHits, lns) == rec.lineHits;
    } else {
      PickedStep(rec.lineHits, lineHits, lns);
      var l0, tail := lns[0], DaFields(lineHits, lns[1..]);
      var f := Field("DA", Show(l0) + "," + Dec(lineHits[l0]));
      assert DaFields(lineHits, lns) == [f] + tail;
      DaRow(rec, l0, lineHits[l0]);
      AbsorbOne(rec, f, tail);
      assert Add(rec.lineHits, l0, lineHits[l0]) == rec.lineHits[l0 := lineHits[l0]];
      hide *;
      DasAbsorb(rec.(lineHits := rec.lineHits[l0 := lineHits[l0]]), lineHits, lns[1..]);
    }
  }

  /** A branch key: line, block and branch, none of them holding a comma. */
  ghost predicate ThreeParts(key: string) {
    exists a, b, c :: Lacks(a, ',') && Lacks(b, ',') && Lacks(c, ',') && key == a + "," + b + "," + c
  }

  lemma FieldsOf(a: string, rest: string)
    requires Lacks(a, ',')
    ensures Fields(a + "," + rest) == 1 + Fields(rest)
    ensures Fields(a) == 1
  {
    var s := a + "," + rest;
    if a == "" {
      assert s[1..] == rest;
    } else {
      assert s[1..] == a[1..] + "," + rest;
      FieldsOf(a[1..], rest);
    }
  }

  lemma BranchReads(a: string, b: string, c: string, d: string)
    requires Lacks(a, ',') && Lacks(b, ',') && Lacks(c, ',') && Lacks(d, ',')
    ensures BranchOf(a + "," + b + "," + c + "," + d)
         == Some((a + "," + b + "," + c, if d == "-" then 0 else Count(d)))
  {
    hide Count, Lacks;
    var r2 := c + "," + d;
    var r1 := b + "," + r2;
    var s := a + "," + r1;
    assert a + "," + b + "," + c + "," + d == s;
    FieldsOf(a, r1);
    FieldsOf(b, r2);
    FieldsOf(c, d);
    FieldsOf(d, "");
    FieldReads(a, ',', r1);
    FieldReads(b, ',', r2);
    FieldReads(c, ',', d);
    LastField(d, ',');
    assert a + [','] + r1 == s && b + [','] + r2 == r1 && c + [','] + d == r2;
  }

  lemma {:induction false} FieldsCount(parts: seq<string>)
    requires AllLack(parts, ',')
    ensures Fields(JoinBy(parts, ',')) == |parts|
  {
    AllLackRest(parts, ',');
    if |parts| == 1 {
      FieldsOf(parts[0], "");
    } else {
      FieldsCount(parts[1..]);
      FieldsOf(parts[0], JoinBy(parts[1..], ','));
      assert parts[0] + [','] + JoinBy(parts[1..], ',') == parts[0] + "," + JoinBy(parts[1..], ',');
    }
  }

  /** A branch row is read exactly if it has at least four parts: three for the key and the count, the rest ignored. */
  lemma BranchIff(parts: seq<string>)
    requires AllLack(parts, ',')
    ensures BranchOf(JoinBy(parts, ',')).Some? <==> |parts| >= 4
    ensures |parts| >= 4 ==>
      BranchOf(JoinBy(parts, ','))
      == Some((parts[0] + "," + parts[1] + "," + parts[2], if parts[3] == "-" then 0 else Count(parts[3])))
  {
    FieldsCount(parts);
    if |parts| >= 4 {
      PartReads(parts, 0);
      PartReads(parts, 1);
      PartReads(parts, 2);
      PartReads(parts, 3);
    }
    hide Count, Lacks, JoinBy, Fields, AllLack, UpTo, After;
  }

  /** Part `i` and what stands behind it. */
  lemma PartReads(parts: seq<string>, i: nat)
    requires AllLack(parts, ',') && i < |parts|
    ensures UpTo(JoinBy(parts[i..], ','), ',') == parts[i]
    ensures i + 1 < |parts| ==> After(JoinBy(parts[i..], ','), ',') == JoinBy(parts[i + 1..], ',')
    ensures parts[0..] == parts
  {
    var rest := parts[i..];
    assert rest[0] == parts[i] && rest[1..] == parts[i + 1..] && parts[i] in parts;
    if |rest| == 1 {
      LastField(parts[i], ',');
    } else {
      FieldReads(parts[i], ',', JoinBy(parts[i + 1..], ','));
    }
  }

  /** What follows the count of a line row, such as a checksum, is ignored. */
  lemma ChecksumIgnored(rec: Record, line: string, count: string, more: string)
    requires Lacks(line, ',') && Lacks(count, ',')
    ensures Absorb(rec, Field("DA", line + "," + (count + "," + more)))
         == Absorb(rec, Field("DA", line + "," + count))
         == rec.(lineHits := Add(rec.lineHits, ToNum(line), Count(count)))
  {
    FieldReads(line, ',', count + "," + more);
    FieldReads(line, ',', count);
    FieldReads(count, ',', more);
    LastField(count, ',');
    assert line + [','] + (count + "," + more) == line + "," + (count + "," + more);
    assert line + [','] + count == line + "," + count && count + [','] + more == count + "," + more;
    hide UpTo, After, ToNum, Count, Add;
  }

  lemma {:induction false} TrimStartBlank(p: string, s: string)
    requires Blank(p)
    ensures TrimStart(p + s) == TrimStart(s)
  {
    if p == "" {
      assert p + s == s;
    } else {
      assert (p + s)[1..] == p[1..] + s && IsSpace(p[0]);
      assert Blank(p[1..]);
      TrimStartBlank(p[1..], s);
    }
  }

  lemma {:induction false} TrimEndBlank(s: string, q: string)
    requires Blank(q)
    ensures TrimEnd(s + q) == TrimEnd(s)
    decreases |q|
  {
    if q == "" {
      assert s + q == s;
    } else {
      var n := |q| - 1;
      assert (s + q)[..|s + q| - 1] == s + q[..n] && (s + q)[|s + q| - 1] == q[n] && IsSpace(q[n]);
      TrimEndBlank(s, q[..n]);
    }
  }

  /** Blanks around a line, a carriage return among them, do not change how it is read. */
  lemma SpacesIgnored(st: State, p: string, line: string, q: string, norm: string -> string)
    requires Blank(p) && Blank(q) && line != "" && !IsSpace(line[0]) && !IsSpace(line[|line| - 1])
    ensures ReadLine(st, p + line + q, norm) == ReadLine(st, line, norm)
  {
    assert p + line + q == p + (line + q);
    TrimStartBlank(p, line + q);
    TrimEndBlank(line, q);
    assert TrimStart(line + q) == line + q && Trim(line) == line && TrimEnd(line) == line;
    assert Trim(p + line + q) == line;
    hide Trim, Take, UpTo, After, Lacks;
  }

  lemma TakenReads(hits: nat)
    ensures Lacks(Taken(hits), ',')
    ensures (if Taken(hits) == "-" then 0 else Count(Taken(hits))) == hits
  {
    DecReads(hits);
    DecLacks(hits, ',');
  }

  lemma BrdaRow(rec: Record, key: string, hits: nat)
    requires ThreeParts(key)
    ensures Absorb(rec, Field("BRDA", key + "," + Taken(hits))) == rec.(branches := Add(rec.branches, key, hits))
  {
    var a, b, c :| Lacks(a, ',') && Lacks(b, ',') && Lacks(c, ',') && key == a + "," + b + "," + c;
    assert KindOf("BRDA") == Branch;
    hide KindOf, BranchOf, Taken, Lacks, Count, Add;
    TakenReads(hits);
    BranchReads(a, b, c, Taken(hits));
  }

  lemma {:induction false} BrdasAbsorb(rec: Record, branches: map<string, nat>, keys: seq<string>)
    requires Distinct(keys)
    requires forall k :: k in keys ==> k in branches && k !in rec.branches && ThreeParts(k)
    ensures AbsorbAll(rec, BrdaFields(branches, keys)) == rec.(branches := rec.branches + Picked(branches, keys))
    decreases |keys|
  {
    if keys == [] {
      assert rec.branches + Picked(branches, keys) == rec.branches;
    } else {
      PickedStep(rec.branches, branches, keys);
      var k0, tail := keys[0], BrdaFields(branches, keys[1..]);
      var f := Field("BRDA", k0 + "," + Taken(branches[k0]));
      assert BrdaFields(branches, keys) == [f] + tail;
      BrdaRow(rec, k0, branches[k0]);
      AbsorbOne(rec, f, tail);
      assert Add(rec.branches, k0, branches[k0]) == rec.branches[k0 := branches[k0]];
      hide *;
      BrdasAbsorb(rec.(branches := rec.branches[k0 := branches[k0]]), branches, keys[1..]);
    }
  }

  // -------------------------------------------------------- reading a whole file

  /** What a parsed or merged record is always made of (see `LcovPipeline.ShardsPrint`). */
  ghost predicate Prints(rec: Record) {
    && (rec.testName.Some? ==> Clean(rec.testName.value))
    && (forall n :: n in rec.functions ==> Clean(n))
    && (forall k :: k in rec.branches ==> ThreeParts(k) && Lacks(k, '\n'))
  }

  /** A record as it is read back: no test name, unnumbered functions on line 0, the printed totals. */
  function ReadBack(rec: Record, o: Order): Record
    requires Within(rec, o)
  {
    Record(None, rec.lineHits, map n | n in rec.functions :: Fn(LineOf(rec.functions[n]), rec.functions[n].hits),
           rec.branches, FoundOf(rec), HitOf(rec, o.names))
  }

  lemma CleanRow(s: string, sep: string, t: string)
    requires Lacks(s, '\n') && Lacks(sep, '\n') && Clean(t)
    requires sep != "" && !IsSpace(sep[|sep| - 1])
    ensures Clean(s + sep + t)
  {
    var r := s + sep + t;
    assert r[|r| - 1] == if t == "" then sep[|sep| - 1] else t[|t| - 1];
  }

  lemma DecClean(n: nat)
    ensures Clean(Dec(n)) && Clean(Taken(n))
  {
    DecReads(n);
    DecLacks(n, '\n');
  }

  lemma RowReadable(tag: string, n: nat, name: string)
    requires tag in ["FN", "FNDA"] && Clean(name)
    ensures Readable([Field(tag, Dec(n) + "," + name)])
  {
    DecClean(n);
    CleanRow(Dec(n), ",", name);
    hide Clean, Dec;
  }

  lemma ReadableConcat(a: seq<Field>, b: seq<Field>)
    requires Readable(a) && Readable(b)
    ensures Readable(a + b)
  {
    hide IsTag, Clean;
  }

  lemma {:induction false} FnsReadable(fns: map<string, Fn>, names: seq<string>)
    requires forall n :: n in names ==> n in fns && Clean(n)
    ensures Readable(FnFields(fns, names))
    decreases |names|
  {
    if names == [] {
    } else {
      FnsReadable(fns, names[1..]);
      if HasLine(fns[names[0]]) {
        RowReadable("FN", fns[names[0]].line.value, names[0]);
        ReadableConcat([Field("FN", Dec(fns[names[0]].line.value) + "," + names[0])], FnFields(fns, names[1..]));
      }
      hide Clean, Dec, Readable;
    }
  }

  lemma {:induction false} FndasReadable(fns: map<string, Fn>, names: seq<string>)
    requires forall n :: n in names ==> n in fns && Clean(n)
    ensures Readable(FndaFields(fns, names))
    decreases |names|
  {
    if names == [] {
    } else {
      FndasReadable(fns, names[1..]);
      RowReadable("FNDA", fns[names[0]].hits, names[0]);
      hide Clean, Dec, Readable;
      ReadableConcat([Field("FNDA", Dec(fns[names[0]].hits) + "," + names[0])], FndaFields(fns, names[1..]));
    }
  }

  lemma {:induction false} DasReadable(lineHits: map<Num, nat>, lns: seq<Num>)
    requires forall l :: l in lns ==> l in lineHits
    ensures Readable(DaFields(lineHits, lns))
    decreases |lns|
  {
    if lns != [] {
      ShowLacks(lns[0], '\n');
      DecClean(lineHits[lns[0]]);
      CleanRow(Show(lns[0]), ",", Dec(lineHits[lns[0]]));
      hide Clean, Dec, Show;
      DasReadable(lineHits, lns[1..]);
    }
  }

  lemma {:induction false} BrdasReadable(branches: map<string, nat>, keys: seq<string>)
    requires forall k :: k in keys ==> k in branches && Lacks(k, '\n')
    ensures Readable(BrdaFields(branches, keys))
    decreases |keys|
  {
    if keys != [] {
      DecClean(branches[keys[0]]);
      CleanRow(keys[0], ",", Taken(branches[keys[0]]));
      hide Clean, Taken;
      BrdasReadable(branches, keys[1..]);
    }
  }

  lemma TotalsReadable(a: nat, b: nat, s: string, t: string)
    requires IsTag(s) && s != "SF" && IsTag(t) && t != "SF"
    ensures Readable([Field(s, Dec(a)), Field(t, Dec(b))])
  {
    DecClean(a);
    DecClean(b);
  }

  lemma BodyReadable(rec: Record, o: Order)
    requires Within(rec, o) && Prints(rec)
    ensures Readable(Body(rec, o))
  {
    FnsReadable(rec.functions, o.names);
    FndasReadable(rec.functions, o.names);
    TotalsReadable(FoundOf(rec), HitOf(rec, o.names), "FNF", "FNH");
    BrdasReadable(rec.branches, o.keys);
    TotalsReadable(|rec.branches|, HitEntries(rec.branches, o.keys), "BRF", "BRH");
    DasReadable(rec.lineHits, o.lns);
    TotalsReadable(|rec.lineHits|, HitEntries(rec.lineHits, o.lns), "LF", "LH");
    hide Readable, FnFields, FndaFields, BrdaFields, DaFields, HitEntries, HitOf, FoundOf, Dec, Prints;
    var t5 := DaFields(rec.lineHits, o.lns) + LineTotals(rec, o);
    ReadableConcat(DaFields(rec.lineHits, o.lns), LineTotals(rec, o));
    var t4 := BranchTotals(rec, o) + t5;
    ReadableConcat(BranchTotals(rec, o), t5);
    var t3 := BrdaFields(rec.branches, o.keys) + t4;
    ReadableConcat(BrdaFields(rec.branches, o.keys), t4);
    var t2 := Totals(rec, o) + t3;
    ReadableConcat(Totals(rec, o), t3);
    var t1 := FndaFields(rec.functions, o.names) + t2;
    ReadableConcat(FndaFields(rec.functions, o.names), t2);
    ReadableConcat(FnFields(rec.functions, o.names), t1);
  }

  lemma PickedAll<K(!new)>(hits: map<K, nat>, order: seq<K>)
    requires Enumerates(order, hits.Keys)
    ensures Distinct(order) && Picked(hits, order) == hits
  {
  }

  lemma Once(files: seq<string>, keys: set<string>)
    requires Enumerates(files, keys)
    ensures Distinct(files)
  {
  }

  lemma SettledAll(rec: Record, o: Order)
    requires Enumerates(o.names, rec.functions.Keys) && Within(rec, o)
    ensures Lined(rec.functions, o.names) + Settled(rec.functions, o.names) == ReadBack(rec, o).functions
  {
    hide HasLine, LineOf, FoundOf, HitOf;
  }

  lemma LinedWaits(fns: map<string, Fn>, names: seq<string>)
    requires forall n :: n in names ==> n in fns
    ensures Waiting(EMPTY.(functions := Lined(fns, names)), fns, names)
    ensures EMPTY.functions + Lined(fns, names) == Lined(fns, names)
  {
    hide HasLine;
  }

  /** The two function tables leave every function with its line and its hits. */
  lemma FunctionsAbsorb(rec: Record, o: Order)
    requires Enumerates(o.names, rec.functions.Keys) && Within(rec, o)
    ensures AbsorbAll(EMPTY, FnFields(rec.functions, o.names) + FndaFields(rec.functions, o.names))
         == EMPTY.(functions := ReadBack(rec, o).functions)
  {
    var fns := rec.functions;
    Once(o.names, fns.Keys);
    SettledAll(rec, o);
    LinedWaits(fns, o.names);
    hide Lined, Settled, ReadBack, Waiting, AbsorbAll, FnFields, FndaFields, HasLine, LineOf, Enumerates, Distinct;
    FnsAbsorb(EMPTY, fns, o.names);
    FndaAbsorb(EMPTY.(functions := Lined(fns, o.names)), fns, o.names);
    AbsorbConcat(EMPTY, FnFields(fns, o.names), FndaFields(fns, o.names));
  }

  lemma BranchesAbsorb(rec: Record, r: Record, o: Order)
    requires Enumerates(o.keys, rec.branches.Keys) && Within(rec, o) && Prints(rec)
    requires r.branches == map[]
    ensures AbsorbAll(r, BrdaFields(rec.branches, o.keys)) == r.(branches := rec.branches)
  {
    PickedAll(rec.branches, o.keys);
    assert map[] + rec.branches == rec.branches;
    BrdasAbsorb(r, rec.branches, o.keys);
    hide *;
  }

  lemma LinesAbsorb(rec: Record, r: Record, o: Order)
    requires Enumerates(o.lns, rec.lineHits.Keys) && Within(rec, o)
    requires r.lineHits == map[]
    ensures AbsorbAll(r, DaFields(rec.lineHits, o.lns)) == r.(lineHits := rec.lineHits)
  {
    PickedAll(rec.lineHits, o.lns);
    assert map[] + rec.lineHits == rec.lineHits;
    DasAbsorb(r, rec.lineHits, o.lns);
    hide *;
  }

  lemma BodyAbsorbs(rec: Record, o: Order)
    requires Within(rec, o) && Covers(rec, o) && Prints(rec)
    ensures AbsorbAll(EMPTY, Body(rec, o)) == ReadBack(rec, o)
  {
    var r1 := EMPTY.(functions := ReadBack(rec, o).functions);
    var r2 := r1.(fnf := FoundOf(rec), fnh := HitOf(rec, o.names));
    var r3 := r2.(branches := rec.branches);
    var r4 := r3.(lineHits := rec.lineHits);
    assert r4 == ReadBack(rec, o);
    FunctionsAbsorb(rec, o);
    BranchesAbsorb(rec, r2, o);
    LinesAbsorb(rec, r3, o);
    hide Covers, Within, Prints, AbsorbAll, FnFields, FndaFields, BrdaFields, DaFields, FoundOf, HitOf, ReadBack,
      HitEntries, Body, Dec;
    TotalRows(r1, FoundOf(rec), HitOf(rec, o.names));
    IgnoredRows(r3, BranchTotals(rec, o)[0], BranchTotals(rec, o)[1]);
    IgnoredRows(r4, LineTotals(rec, o)[0], LineTotals(rec, o)[1]);
    BodyJoins(rec, o, r1, r2, r3, r4);
  }

  lemma BodyJoins(rec: Record, o: Order, r1: Record, r2: Record, r3: Record, r4: Record)
    requires Within(rec, o)
    requires AbsorbAll(EMPTY, FnFields(rec.functions, o.names) + FndaFields(rec.functions, o.names)) == r1
    requires AbsorbAll(r1, Totals(rec, o)) == r2
    requires AbsorbAll(r2, BrdaFields(rec.branches, o.keys)) == r3
    requires AbsorbAll(r3, BranchTotals(rec, o)) == r3
    requires AbsorbAll(r3, DaFields(rec.lineHits, o.lns)) == r4
    requires AbsorbAll(r4, LineTotals(rec, o)) == r4
    ensures AbsorbAll(EMPTY, Body(rec, o)) == r4
  {
    hide AbsorbAll, FnFields, FndaFields, BrdaFields, DaFields, Totals, BranchTotals, LineTotals, Absorb;
    var t5 := DaFields(rec.lineHits, o.lns) + LineTotals(rec, o);
    AbsorbConcat(r3, DaFields(rec.lineHits, o.lns), LineTotals(rec, o));
    var t4 := BranchTotals(rec, o) + t5;
    AbsorbConcat(r3, BranchTotals(rec, o), t5);
    var t3 := BrdaFields(rec.branches, o.keys) + t4;
    AbsorbConcat(r2, BrdaFields(rec.branches, o.keys), t4);
    var t2 := Totals(rec, o) + t3;
    AbsorbConcat(r1, Totals(rec, o), t3);
    var head := FnFields(rec.functions, o.names) + FndaFields(rec.functions, o.names);
    AbsorbConcat(EMPTY, head, t2);
    assert Body(rec, o) == head + t2;
  }

  lemma LinesConcat(a: seq<Field>, b: seq<Field>)
    ensures Lines(a + b) == Lines(a) + Lines(b)
    decreases |a|
  {
    if a == [] {
      assert a + b == b;
    } else {
      assert (a + b)[1..] == a[1..] + b;
      LinesConcat(a[1..], b);
    }
  }

  lemma TwoTexts(f: Field, g: Field)
    ensures Lines([f, g]) == [Text(f), Text(g)]
  {
    assert [f, g] == [f] + [g];
    LinesConcat([f], [g]);
  }

  lemma ReadOne(st: State, l: string, norm: string -> string)
    ensures ReadLines(st, [l], norm) == ReadLine(st, l, norm)
  {
    hide ReadLine;
    assert [l][1..] == [];
  }

  /** The two opening lines: the test name is read before any file is open, so it is lost. */
  lemma HeadReads(records: Records, sf: string, title: string, norm: string -> string)
    requires Clean(title) && Clean(sf) && norm(sf) == sf && sf !in records
    ensures ReadLines(State(records, None), Lines([Field("TN", title), Field("SF", sf)]), norm)
         == State(records[sf := EMPTY], Some(sf))
  {
    var start := State(records, None);
    var tn, s := Field("TN", title), Field("SF", sf);
    LineReads(start, tn, norm);
    LineReads(start, s, norm);
    assert Take(start, tn, norm) == start;
    assert Take(start, s, norm) == State(records[sf := EMPTY], Some(sf));
    hide ReadLine, Take, Clean, Text;
    ReadOne(start, Text(tn), norm);
    ReadOne(start, Text(s), norm);
    ReadConcat(start, [Text(tn)], [Text(s)], norm);
    LinesConcat([tn], [s]);
    assert [tn] + [s] == [tn, s];
    assert Lines([tn]) == [Text(tn)] && Lines([s]) == [Text(s)];
    hide ReadLines;
  }

  lemma TailReads(records: Records, sf: string, norm: string -> string)
    ensures ReadLines(State(records, Some(sf)), ["end_of_record"], norm) == State(records, None)
  {
    EndReads(State(records, Some(sf)), norm);
    hide ReadLine;
    var closing := ["end_of_record"];
    assert closing[1..] == [];
  }

  /** One printed record adds itself to a closed parse. */
  lemma RecordReads(records: Records, sf: string, rec: Record, o: Order, norm: string -> string)
    requires Within(rec, o) && Covers(rec, o) && Prints(rec)
    requires Clean(sf) && norm(sf) == sf && sf !in records
    ensures ReadLines(State(records, None), RecordLines(sf, rec, o), norm)
         == State(records[sf := ReadBack(rec, o)], None)
  {
    var body, head, last := Body(rec, o), [Field("TN", Title(rec)), Field("SF", sf)], ["end_of_record"];
    assert Clean(Title(rec));
    assert RecordLines(sf, rec, o) == Lines(head + body) + last;
    BodyReadable(rec, o);
    BodyAbsorbs(rec, o);
    hide Body, ReadBack, ReadLine, Take, Covers, Within, Prints, AbsorbAll, Readable, Title, Clean, Lines, RecordLines,
      ReadLines;
    HeadReads(records, sf, Title(rec), norm);
    FieldsAbsorb(records, sf, EMPTY, body, norm);
    TailReads(records[sf := ReadBack(rec, o)], sf, norm);
    LinesConcat(head, body);
    ReadConcat(State(records, None), Lines(head) + Lines(body), last, norm);
    ReadConcat(State(records, None), Lines(head), Lines(body), norm);
  }

  /** The whole output: the record lines joined, and a newline. */
  function FileText(lines: seq<string>): string {
    if lines == [] then "\n" else JoinLines(lines)
  }

  ghost predicate Printable(records: Records, norm: string -> string) {
    forall sf :: sf in records ==> Clean(sf) && norm(sf) == sf && Prints(records[sf])
  }

  function ReadBackAll(records: Records, files: seq<string>, orders: map<string, Order>): Records
    requires CoversAll(records, files, orders)
  {
    map sf | sf in files :: ReadBack(records[sf], orders[sf])
  }

  lemma ReadBackStep(records: Records, files: seq<string>, orders: map<string, Order>, acc: Records)
    requires files != [] && Distinct(files)
    requires CoversAll(records, files, orders)
    ensures files[0] !in files[1..] && (forall f :: f in files[1..] ==> f in files)
    ensures CoversAll(records, files[1..], orders) && Distinct(files[1..])
    ensures var sf := files[0];
      sf in files && sf in records && sf in orders && Within(records[sf], orders[sf]) && Covers(records[sf], orders[sf])
    ensures acc[files[0] := ReadBack(records[files[0]], orders[files[0]])] + ReadBackAll(records, files[1..], orders)
         == acc + ReadBackAll(records, files, orders)
  {
    hide ReadBack, Within, Covers;
    assert forall f :: f in files ==> f == files[0] || f in files[1..];
  }

  lemma {:induction false} FilesRead(records: Records, files: seq<string>, orders: map<string, Order>,
      norm: string -> string, acc: Records)
    requires CoversAll(records, files, orders) && Printable(records, norm)
    requires Distinct(files) && forall sf :: sf in files ==> sf !in acc
    ensures ReadLines(State(acc, None), FileLines(records, files, orders), norm)
         == State(acc + ReadBackAll(records, files, orders), None)
    decreases |files|
  {
    if files == [] {
      assert acc + ReadBackAll(records, files, orders) == acc;
    } else {
      hide ReadBackAll, ReadBack, RecordLines, Covers, CoversAll, Distinct, Within, Prints, Clean, ReadLines;
      var sf, rest := files[0], files[1..];
      ReadBackStep(records, files, orders, acc);
      assert Clean(sf) && norm(sf) == sf && Prints(records[sf]);
      assert FileLines(records, files, orders)
        == RecordLines(sf, records[sf], orders[sf]) + FileLines(records, rest, orders);
      hide *;
      RecordReads(acc, sf, records[sf], orders[sf], norm);
      FilesRead(records, rest, orders, norm, acc[sf := ReadBack(records[sf], orders[sf])]);
      ReadConcat(State(acc, None), RecordLines(sf, records[sf], orders[sf]), FileLines(records, rest, orders), norm);
    }
  }

  lemma {:induction false} LinesUnbroken(fs: seq<Field>)
    requires forall i :: 0 <= i < |fs| ==> IsTag(fs[i].tag) && Clean(fs[i].rest)
    ensures forall l :: l in Lines(fs) ==> Lacks(l, '\n')
    decreases |fs|
  {
    if fs != [] {
      TagShape(fs[0].tag);
      assert Lacks(Text(fs[0]), '\n');
      hide IsTag, Clean, Text, Lacks;
      LinesUnbroken(fs[1..]);
    }
  }

  lemma RecordUnbroken(sf: string, rec: Record, o: Order)
    requires Within(rec, o) && Prints(rec) && Clean(sf)
    ensures forall l :: l in RecordLines(sf, rec, o) ==> Lacks(l, '\n')
  {
    BodyReadable(rec, o);
    var fs := [Field("TN", Title(rec)), Field("SF", sf)] + Body(rec, o);
    assert Lacks("end_of_record", '\n') by {
      var word := "end_of_record";
      assert forall i :: 0 <= i < |word| ==> word[i] != '\n';
    }
    assert Clean(Title(rec));
    hide Body, Clean, Lines, Lacks, Prints, Within;
    LinesUnbroken(fs);
  }

  lemma {:induction false} FilesUnbroken(records: Records, files: seq<string>, orders: map<string, Order>,
      norm: string -> string)
    requires CoversAll(records, files, orders) && Printable(records, norm)
    ensures forall l :: l in FileLines(records, files, orders) ==> Lacks(l, '\n')
    decreases |files|
  {
    if files != [] {
      var sf := files[0];
      assert sf in files && forall f :: f in files[1..] ==> f in files;
      RecordUnbroken(sf, records[sf], orders[sf]);
      hide RecordLines, Lacks, Covers, Within, Prints, Clean;
      FilesUnbroken(records, files[1..], orders, norm);
    }
  }

  lemma BlankIgnored(st: State, norm: string -> string)
    ensures ReadLines(st, [""], norm) == st
  {
    assert [""][1..] == [];
  }

  /** Reading the joined lines is reading the lines. */
  lemma JoinedReads(lines: seq<string>, norm: string -> string)
    requires forall l :: l in lines ==> Lacks(l, '\n')
    ensures Parse(FileText(lines), norm) == ReadLines(START, lines, norm).records
  {
    hide ReadLine;
    var text := if lines == [] then [""] else lines;
    assert FileText(lines) == JoinLines(text);
    LinesReadBack(text);
    BlankIgnored(START, norm);
    BlankIgnored(ReadLines(START, lines, norm), norm);
    ReadConcat(START, text, [""], norm);
  }

  lemma NothingBefore(back: Records)
    ensures map[] + back == back
  {
  }

  /** Parse undoes print, for any records the printer can meet and any printing order. */
  lemma PrintReadsBack(records: Records, files: seq<string>, orders: map<string, Order>, norm: string -> string)
    requires CoversAll(records, files, orders) && Printable(records, norm) && Enumerates(files, records.Keys)
    ensures Parse(FileText(FileLines(records, files, orders)), norm) == ReadBackAll(records, files, orders)
  {
    assert START == State(map[], None);
    hide *;
    Once(files, records.Keys);
    NothingBefore(ReadBackAll(records, files, orders));
    FilesUnbroken(records, files, orders, norm);
    FilesRead(records, files, orders, norm, map[]);
    JoinedReads(FileLines(records, files, orders), norm);
  }
}
