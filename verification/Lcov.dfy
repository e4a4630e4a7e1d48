/**
 * Merging lcov coverage: the record parser, the printer and the shard merge.
 */
module Lcov {
  import opened Prelude
  import opened Strings
  import opened TextFields

  datatype Fn = Fn(line: Num, hits: nat)

  datatype Record = Record(
    testName: Option<string>,
    lineHits: map<Num, nat>,
    functions: map<string, Fn>,
    branches: map<string, nat>,
    fnf: nat,
    fnh: nat)

  const EMPTY := Record(None, map[], map[], map[], 0, 0)

  type Records = map<string, Record>

  /** An input file, and the path normalisation of the directory it was made in. */
  datatype Shard = Shard(text: string, norm: string -> string)

  function Max(x: nat, y: nat): nat {
    if x < y then y else x
  }

  function HitsOf<K>(hits: map<K, nat>, k: K): nat {
    if k in hits then hits[k] else 0
  }

  /** `hits.set(k, (hits.get(k) ?? 0) + n)` */
  function Add<K>(hits: map<K, nat>, k: K, n: nat): map<K, nat> {
    hits[k := HitsOf(hits, k) + n]
  }

  // ------------------------------------------------------------------ parsing

  /** The records so far, and the key of the open one. */
  datatype State = State(records: Records, cur: Option<string>)

  const START := State(map[], None)

  /** A record line, cut at its first colon. */
  datatype Field = Field(tag: string, rest: string)

  datatype Kind = TestName | FnFound | FnHit | Line | Function | FunctionHits | Branch | Other

  function KindOf(tag: string): Kind {
    if tag == "TN" then TestName
    else if tag == "FNF" then FnFound
    else if tag == "FNH" then FnHit
    else if tag == "DA" then Line
    else if tag == "FN" then Function
    else if tag == "FNDA" then FunctionHits
    else if tag == "BRDA" then Branch
    else Other
  }

  /** `FN`: the first line seen for a name stays. */
  function SeeFn(fns: map<string, Fn>, name: string, line: Num): map<string, Fn> {
    if name in fns then fns else fns[name := Fn(line, 0)]
  }

  /** `FNDA`: hits add up; a name not seen before gets line 0. */
  function HitFn(fns: map<string, Fn>, name: string, hits: nat): map<string, Fn> {
    fns[name := if name in fns then fns[name].(hits := fns[name].hits + hits) else Fn(Some(0), hits)]
  }

  /** What one field does to the open record. */
  function Absorb(rec: Record, f: Field): Record {
    match KindOf(f.tag)
    case TestName => rec.(testName := Some(f.rest))
    case FnFound => rec.(fnf := Max(rec.fnf, Count(f.rest)))
    case FnHit => rec.(fnh := Max(rec.fnh, Count(f.rest)))
    case Line => rec.(lineHits := Add(rec.lineHits, ToNum(UpTo(f.rest, ',')), Count(UpTo(After(f.rest, ','), ','))))
    case Function => rec.(functions := SeeFn(rec.functions, After(f.rest, ','), ToNum(UpTo(f.rest, ','))))
    case FunctionHits => rec.(functions := HitFn(rec.functions, After(f.rest, ','), Count(UpTo(f.rest, ','))))
    case Branch =>
      (match BranchOf(f.rest)
       case None => rec
       case Some(b) => rec.(branches := Add(rec.branches, b.0, b.1)))
    case Other => rec
  }

  /** `line,block,branch,taken`; anything shorter is ignored. */
  function BranchOf(rest: string): Option<(string, nat)> {
    var a, r1 := UpTo(rest, ','), After(rest, ',');
    var b, r2 := UpTo(r1, ','), After(r1, ',');
    var c, r3 := UpTo(r2, ','), After(r2, ',');
    if Fields(rest) < 4 then None
    else Some((a + "," + b + "," + c, if UpTo(r3, ',') == "-" then 0 else Count(UpTo(r3, ','))))
  }

  /** The number of comma-separated parts. */
  function Fields(s: string): nat {
    if s == "" then 1 else Fields(s[1..]) + if s[0] == ',' then 1 else 0
  }

  /** One line of the file. `norm` is the path normalisation of the shard. */
  function ReadLine(st: State, raw: string, norm: string -> string): State {
    var line := Trim(raw);
    if line == "" then st
    else if line == "end_of_record" then st.(cur := None)
    else if Lacks(line, ':') then st
    else Take(st, Field(UpTo(line, ':'), After(line, ':')), norm)
  }

  function Take(st: State, f: Field, norm: string -> string): State {
    if f.tag == "SF" then
      var sf := norm(f.rest);
      State(if sf in st.records then st.records else st.records[sf := EMPTY], Some(sf))
    else if st.cur.None? || st.cur.value !in st.records then st
    else st.(records := st.records[st.cur.value := Absorb(st.records[st.cur.value], f)])
  }

  function ReadLines(st: State, lines: seq<string>, norm: string -> string): State
    decreases |lines|
  {
    if lines == [] then st else ReadLines(ReadLine(st, lines[0], norm), lines[1..], norm)
  }

  function Parse(text: string, norm: string -> string): Records {
    ReadLines(START, SplitLines(text), norm).records
  }

  /** `parseLcov` */
  method ParseLcov(text: string, norm: string -> string) returns (out: Records)
    ensures out == Parse(text, norm)
  {
    hide ReadLine, SplitLines;
    var lines := SplitLines(text);
    var st := START;
    for i := 0 to |lines|
      invariant ReadLines(st, lines[i..], norm) == ReadLines(START, lines, norm)
    {
      assert lines[i..][1..] == lines[i + 1..];
      st := ReadLine(st, lines[i], norm);
    }
    out := st.records;
  }

  // ------------------------------------------------------------------- merging

  function MergeHits<K>(dest: map<K, nat>, src: map<K, nat>): map<K, nat> {
    map k | k in dest.Keys + src.Keys :: HitsOf(dest, k) + HitsOf(src, k)
  }

  /** First seen: only a line recorded as 0 is replaced, and only by a positive one. */
  function MergeLine(dest: Num, src: Num): Num {
    if dest == Some(0) && src.Some? && src.value > 0 then src else dest
  }

  function MergeFns(dest: map<string, Fn>, src: map<string, Fn>): map<string, Fn> {
    map n | n in dest.Keys + src.Keys ::
      if n !in src then dest[n]
      else if n !in dest then src[n]
      else Fn(MergeLine(dest[n].line, src[n].line), dest[n].hits + src[n].hits)
  }

  function MergeRecord(dest: Record, src: Record): Record {
    Record(dest.testName,
           MergeHits(dest.lineHits, src.lineHits),
           MergeFns(dest.functions, src.functions),
           MergeHits(dest.branches, src.branches),
           Max(dest.fnf, src.fnf),
           Max(dest.fnh, src.fnh))
  }

  function Merge(dest: Records, part: Records): Records {
    map sf | sf in dest.Keys + part.Keys ::
      if sf !in part then dest[sf] else if sf !in dest then part[sf] else MergeRecord(dest[sf], part[sf])
  }

  function MergeAll(shards: seq<Records>): Records {
    if shards == [] then map[] else Merge(MergeAll(shards[..|shards| - 1]), shards[|shards| - 1])
  }

  lemma AddStep<K>(dest: map<K, nat>, src: map<K, nat>, left: set<K>, k: K)
    requires k in left && k in src
    ensures Add(MergeHits(dest, src - left), k, src[k]) == MergeHits(dest, src - (left - {k}))
  {
    var l, r := Add(MergeHits(dest, src - left), k, src[k]), MergeHits(dest, src - (left - {k}));
    assert l.Keys == r.Keys;
    forall x | x in l ensures l[x] == r[x] {
    }
  }

  lemma NothingLeft<K, V>(m: map<K, V>)
    ensures m - {} == m && m - m.Keys == map[]
  {
  }

  /** The inner loop over one hit table, in whatever order the map yields its entries. */
  method AddHits<K(==)>(dest: map<K, nat>, src: map<K, nat>) returns (merged: map<K, nat>)
    ensures merged == MergeHits(dest, src)
  {
    NothingLeft(src);
    merged := dest;
    assert merged == MergeHits(dest, map[]);
    hide *;
    var left := src.Keys;
    while left != {}
      invariant left <= src.Keys
      invariant merged == MergeHits(dest, src - left)
    {
      var k :| k in left;
      AddStep(dest, src, left, k);
      merged := Add(merged, k, src[k]);
      left := left - {k};
    }
  }

  method AddFns(dest: map<string, Fn>, src: map<string, Fn>) returns (merged: map<string, Fn>)
    ensures merged == MergeFns(dest, src)
  {
    merged := dest;
    var left := src.Keys;
    while left != {}
      invariant left <= src.Keys
      invariant merged == MergeFns(dest, map n | n in src && n !in left :: src[n])
    {
      var n :| n in left;
      var info := src[n];
      if n in merged {
        var existing := merged[n];
        existing := existing.(hits := existing.hits + info.hits);
        if info.line.Some? && info.line.value > 0 && existing.line == Some(0) {
          existing := existing.(line := info.line);
        }
        merged := merged[n := existing];
      } else {
        merged := merged[n := info];
      }
      left := left - {n};
    }
    assert src == map n | n in src && n !in left :: src[n];
  }

  lemma MergeStep(dest: Records, part: Records, left: set<string>, sf: string)
    requires sf in left && sf in part
    ensures var merged := Merge(dest, part - left);
      && (sf in merged <==> sf in dest) && (sf in dest ==> merged[sf] == dest[sf])
      && Merge(dest, part - (left - {sf}))
        == merged[sf := if sf in dest then MergeRecord(dest[sf], part[sf]) else part[sf]]
  {
    hide MergeRecord;
    var merged := Merge(dest, part - left);
    var l, r := Merge(dest, part - (left - {sf})),
      merged[sf := if sf in dest then MergeRecord(dest[sf], part[sf]) else part[sf]];
    assert l.Keys == r.Keys;
    forall x | x in l ensures l[x] == r[x] {
    }
  }

  /** One shard folded into the merged records. */
  method MergePart(dest: Records, part: Records) returns (merged: Records)
    ensures merged == Merge(dest, part)
  {
    NothingLeft(part);
    merged := dest;
    assert merged == Merge(dest, map[]);
    hide Merge, MergeHits, MergeFns, Max;
    var left := part.Keys;
    while left != {}
      invariant left <= part.Keys
      invariant merged == Merge(dest, part - left)
    {
      var sf :| sf in left;
      MergeStep(dest, part, left, sf);
      var rec := part[sf];
      if sf in merged {
        var into := merged[sf];
        var lineHits := AddHits(into.lineHits, rec.lineHits);
        var functions := AddFns(into.functions, rec.functions);
        var branches := AddHits(into.branches, rec.branches);
        var fnf, fnh := Max(into.fnf, rec.fnf), Max(into.fnh, rec.fnh);
        merged := merged[sf := Record(into.testName, lineHits, functions, branches, fnf, fnh)];
      } else {
        merged := merged[sf := rec];
      }
      left := left - {sf};
    }
  }

  function ParseEach(shards: seq<Shard>): (parts: seq<Records>)
    ensures |parts| == |shards|
  {
    if shards == [] then []
    else ParseEach(shards[..|shards| - 1]) + [Parse(shards[|shards| - 1].text, shards[|shards| - 1].norm)]
  }

  /** The loop over the input files. */
  method MergeShards(shards: seq<Shard>) returns (merged: Records)
    ensures merged == MergeAll(ParseEach(shards))
  {
    hide Parse, Merge;
    merged := map[];
    assert shards[..0] == [];
    for i := 0 to |shards|
      invariant merged == MergeAll(ParseEach(shards[..i]))
    {
      assert shards[..i + 1][..i] == shards[..i];
      var part := ParseLcov(shards[i].text, shards[i].norm);
      merged := MergePart(merged, part);
      assert ParseEach(shards[..i + 1])[..i] == ParseEach(shards[..i]);
    }
    assert shards[..|shards|] == shards;
  }
}
