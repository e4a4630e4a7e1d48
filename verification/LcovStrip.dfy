/**
 * Scrubbing a whole coverage file: cutting it into records, rewriting each, and adding
 * up the totals reported before and after.
 */
module LcovStrip {
  import opened Prelude
  import opened Strings
  import opened TextFields
  import opened Lcov
  import opened P = LcovPrint
  import opened M = LcovScrubMerge
  import S = LcovScrub

  const END := "end_of_record"

  // -------------------------------------------------------------- the whole file

  /** `includes` */
  predicate Includes(s: string, word: string) {
    StartsWith(s, word) || (s != "" && Includes(s[1..], word))
  }

  predicate Mentions(lines: seq<string>, word: string) {
    exists i :: 0 <= i < |lines| && Includes(lines[i], word)
  }

  predicate AllBlank(lines: seq<string>) {
    forall i :: 0 <= i < |lines| ==> Blank(lines[i])
  }

  /** The path of the first `SF:` row that has one. */
  function SourceOf(block: seq<string>): Option<string> {
    if block == [] then None
    else if StartsWith(block[0], "SF:") && |block[0]| > 3 then Some(Trim(block[0][3..]))
    else SourceOf(block[1..])
  }

  /** `rewriteBlock`, `nonExec` standing for the classified source; an unreadable one has nothing to scrub. */
  function Rewritten(block: seq<string>, nonExec: string -> set<nat>): seq<string> {
    match SourceOf(block)
    case None => block
    case Some(path) => S.Rewrite(block, nonExec(path))
  }

  /** One piece of the file: a record is closed and rewritten, other text is kept unless it is blank. */
  function Stripped(piece: seq<string>, nonExec: string -> set<nat>): seq<string> {
    if Mentions(piece, "SF:") then Rewritten(piece + [END], nonExec)
    else if AllBlank(piece) then [] else piece
  }

  function StripPieces(pieces: seq<seq<string>>, nonExec: string -> set<nat>): seq<string> {
    if pieces == [] then [] else Stripped(pieces[0], nonExec) + StripPieces(pieces[1..], nonExec)
  }

  /** The file cut at every `end_of_record`, line by line. */
  function Pieces(lines: seq<string>): seq<seq<string>>
    decreases |lines|
  {
    var at := S.EndAt(lines);
    if at == |lines| then [lines] else [lines[..at]] + Pieces(lines[at + 1..])
  }

  function Strip(lines: seq<string>, nonExec: string -> set<nat>): seq<string> {
    StripPieces(Pieces(lines), nonExec)
  }

  // ------------------------------------------------------- the reported totals

  /** The number on the first row that begins with `head`. */
  function Grab(block: seq<string>, head: string): nat {
    if block == [] then 0
    else if StartsWith(block[0], head) && Digits(block[0][|head|..]) != "" then Value(Digits(block[0][|head|..]))
    else Grab(block[1..], head)
  }

  datatype Stats = Stats(files: nat, lines: nat, linesHit: nat, fns: nat, fnsHit: nat, branches: nat, branchesHit: nat)

  const NO_STATS := Stats(0, 0, 0, 0, 0, 0, 0)

  /** `recordStats` */
  function Counted(t: Stats, block: seq<string>): Stats {
    Stats(t.files + 1, t.lines + Grab(block, "LF:"), t.linesHit + Grab(block, "LH:"),
          t.fns + Grab(block, "FNF:"), t.fnsHit + Grab(block, "FNH:"),
          t.branches + Grab(block, "BRF:"), t.branchesHit + Grab(block, "BRH:"))
  }

  function CountedAll(t: Stats, pieces: seq<seq<string>>): Stats
    decreases |pieces|
  {
    if pieces == [] then t
    else CountedAll(if Mentions(pieces[0], "SF:") then Counted(t, pieces[0] + [END]) else t, pieces[1..])
  }

  function CountedAfter(t: Stats, pieces: seq<seq<string>>, nonExec: string -> set<nat>): Stats
    decreases |pieces|
  {
    if pieces == [] then t
    else
      CountedAfter(if Mentions(pieces[0], "SF:") then Counted(t, Rewritten(pieces[0] + [END], nonExec)) else t,
                   pieces[1..], nonExec)
  }

  /** `split(/end_of_record\n?/)`, line by line. */
  method Cut(lines: seq<string>) returns (pieces: seq<seq<string>>)
    ensures pieces == Pieces(lines)
  {
    hide S.EndAt;
    pieces := [];
    var rest := lines;
    var at := S.FirstEnd(rest);
    while at < |rest|
      invariant at == S.EndAt(rest) && pieces + Pieces(rest) == Pieces(lines)
      decreases |rest|
    {
      pieces := pieces + [rest[..at]];
      rest := rest[at + 1..];
      at := S.FirstEnd(rest);
    }
    pieces := pieces + [rest];
  }

  lemma Untouched<T>(s: seq<T>)
    ensures s[0..] == s && s[|s|..] == []
  {
  }

  lemma NoPieces(nonExec: string -> set<nat>)
    ensures StripPieces([], nonExec) == []
    ensures forall t :: CountedAll(t, []) == t && CountedAfter(t, [], nonExec) == t
  {
  }

  /** What one piece adds to the output and to either total. */
  lemma PieceTurn(piece: seq<string>, rest: seq<seq<string>>, before: Stats, after: Stats, nonExec: string -> set<nat>)
    ensures StripPieces([piece] + rest, nonExec)
         == (if Mentions(piece, "SF:") then Rewritten(piece + [END], nonExec)
             else if AllBlank(piece) then [] else piece)
            + StripPieces(rest, nonExec)
    ensures CountedAll(before, [piece] + rest)
         == CountedAll(if Mentions(piece, "SF:") then Counted(before, piece + [END]) else before, rest)
    ensures CountedAfter(after, [piece] + rest, nonExec)
         == CountedAfter(
           if Mentions(piece, "SF:") then Counted(after, Rewritten(piece + [END], nonExec)) else after,
           rest, nonExec)
  {
    hide Mentions, Rewritten, AllBlank, Counted;
    assert ([piece] + rest)[0] == piece && ([piece] + rest)[1..] == rest;
  }

  /** `stripCommentLines`: one pass over the pieces. */
  method StripCommentLines(lines: seq<string>, nonExec: string -> set<nat>)
    returns (out: seq<string>, before: Stats, after: Stats)
    ensures out == Strip(lines, nonExec)
    ensures before == CountedAll(NO_STATS, Pieces(lines))
    ensures after == CountedAfter(NO_STATS, Pieces(lines), nonExec)
  {
    hide Pieces, Rewritten, Counted, Mentions, AllBlank, Stripped, StripPieces, CountedAll, CountedAfter;
    var pieces := Cut(lines);
    out, before, after := [], NO_STATS, NO_STATS;
    Untouched(pieces);
    NoPieces(nonExec);
    for i := 0 to |pieces|
      invariant out + StripPieces(pieces[i..], nonExec) == StripPieces(pieces, nonExec)
      invariant CountedAll(before, pieces[i..]) == CountedAll(NO_STATS, pieces)
      invariant CountedAfter(after, pieces[i..], nonExec) == CountedAfter(NO_STATS, pieces, nonExec)
    {
      var piece := pieces[i];
      assert pieces[i..] == [piece] + pieces[i + 1..];
      PieceTurn(piece, pieces[i + 1..], before, after, nonExec);
      if Mentions(piece, "SF:") {
        var block := piece + [END];
        before := Counted(before, block);
        var rewritten := Rewritten(block, nonExec);
        after := Counted(after, rewritten);
        out := out + rewritten;
      } else if !AllBlank(piece) {
        out := out + piece;
      } else {
        assert out + [] == out;
      }
    }
  }

  /** `includes` finds the word wherever it stands. */
  lemma {:induction false} IncludesIff(s: string, word: string)
    ensures Includes(s, word) <==> exists k :: 0 <= k <= |s| && StartsWith(s[k..], word)
    decreases |s|
  {
    hide StartsWith;
    assert s[0..] == s;
    if s != "" {
      var t := s[1..];
      IncludesIff(t, word);
      assert forall k :: 0 <= k <= |t| ==> t[k..] == s[k + 1..];
      if k :| 0 <= k <= |s| && StartsWith(s[k..], word) {
        assert k == 0 || StartsWith(t[k - 1..], word);
      }
    }
  }

  lemma {:induction false} FirstEndAt(piece: seq<string>, rest: seq<string>)
    requires END !in piece
    ensures S.EndAt(piece + ([END] + rest)) == |piece| && S.EndAt(piece) == |piece|
    decreases |piece|
  {
    if piece != [] {
      FirstEndAt(piece[1..], rest);
      assert (piece + ([END] + rest))[1..] == piece[1..] + ([END] + rest);
    }
  }

  /**
   * The text up to an `end_of_record`: with a path row it is a record, rewritten and closed again; any
   * other text stays, without that line, unless it is blank. What follows is stripped by itself.
   */
  lemma StripsUpToEnd(piece: seq<string>, rest: seq<string>, source: string -> set<nat>)
    requires END !in piece
    ensures var tail := Strip(rest, source);
      Strip(piece + ([END] + rest), source)
      == if Mentions(piece, "SF:") then Rewritten(piece + [END], source) + tail
         else if AllBlank(piece) then tail else piece + tail
  {
    hide S.EndAt, Mentions, Rewritten, AllBlank;
    FirstEndAt(piece, rest);
    var all := piece + ([END] + rest);
    assert all[..|piece|] == piece && all[|piece| + 1..] == rest;
    assert ([piece] + Pieces(rest))[1..] == Pieces(rest);
    assert [] + Strip(rest, source) == Strip(rest, source);
  }

  /** Text behind the last `end_of_record`; a record there is closed too. */
  lemma StripsToTheEnd(piece: seq<string>, source: string -> set<nat>)
    requires END !in piece
    ensures Strip(piece, source)
      == if Mentions(piece, "SF:") then Rewritten(piece + [END], source)
         else if AllBlank(piece) then [] else piece
  {
    hide S.EndAt, Mentions, Rewritten, AllBlank;
    FirstEndAt(piece, []);
    var pieces := [piece];
    assert Pieces(piece) == pieces && pieces[1..] == [];
    assert StripPieces(pieces, source) == Stripped(piece, source) + [];
  }

  // ------------------------------------------------------- reading what is left

  /** A record of a raw file: rows before its `SF:` row, its path, its rows. */
  datatype Raw = Raw(lead: seq<Field>, sf: string, rows: seq<Field>)

  function Fields(r: Raw): seq<Field> {
    r.lead + ([Field("SF", r.sf)] + r.rows)
  }

  function FileOf(raws: seq<Raw>): seq<string> {
    if raws == [] then [] else Lines(Fields(raws[0])) + ([END] + FileOf(raws[1..]))
  }

  /** Known rows without a second path, whose numbers the two scripts read alike. */
  predicate Fit(r: Raw) {
    Readable(r.lead) && Readable(r.rows) && Clean(r.sf) && AllAgreed(r.rows)
  }

  predicate AllFit(raws: seq<Raw>) {
    forall i :: 0 <= i < |raws| ==> Fit(raws[i])
  }

  /** The lines to scrub of the source that a path row names. */
  function SourceLines(sf: string, source: string -> set<nat>): set<nat> {
    if sf == "" then {} else source(Trim(sf))
  }

  /** Both scripts find the same source behind every path row. */
  predicate SameSources(raws: seq<Raw>, norm: string -> string, source: string -> set<nat>,
      nonExec: string -> set<nat>)
  {
    forall i :: 0 <= i < |raws| ==> SourceLines(raws[i].sf, source) == nonExec(norm(raws[i].sf))
  }

  function Opened(records: Lcov.Records, sf: string): Record {
    if sf in records then records[sf] else EMPTY
  }

  /** Rows before a path change nothing in a closed state. */
  lemma {:induction false} LeadReads(records: Lcov.Records, fs: seq<Field>, norm: string -> string)
    requires Readable(fs)
    ensures ReadLines(State(records, None), Lines(fs), norm) == State(records, None)
    decreases |fs|
  {
    hide ReadLine, Absorb, IsTag, Clean;
    if fs != [] {
      LineReads(State(records, None), fs[0], norm);
      assert Take(State(records, None), fs[0], norm) == State(records, None);
      LeadReads(records, fs[1..], norm);
      assert Lines(fs)[1..] == Lines(fs[1..]);
    }
  }

  lemma PathReads(records: Lcov.Records, sf: string, norm: string -> string)
    requires Clean(sf)
    ensures ReadLines(State(records, None), Lines([Field("SF", sf)]), norm)
         == State(records[norm(sf) := Opened(records, norm(sf))], Some(norm(sf)))
  {
    var f := Field("SF", sf);
    LineReads(State(records, None), f, norm);
    assert Lines([f]) == [Text(f)];
    hide ReadLine, Clean, Text;
    ReadOne(State(records, None), Text(f), norm);
    assert norm(sf) in records ==> records[norm(sf) := records[norm(sf)]] == records;
  }

  /** A closed record adds its rows to the entry of its path. */
  lemma RawReads(records: Lcov.Records, lead: seq<Field>, sf: string, rows: seq<Field>, norm: string -> string)
    requires Readable(lead) && Clean(sf) && Readable(rows)
    ensures var k := norm(sf);
      ReadLines(State(records, None), Lines(lead + ([Field("SF", sf)] + rows)) + [END], norm)
      == State(records[k := AbsorbAll(Opened(records, k), rows)], None)
  {
    assert END == "end_of_record";
    hide *;
    var k, st := norm(sf), State(records, None);
    var path := [Field("SF", sf)];
    LinesConcat(lead, path + rows);
    LinesConcat(path, rows);
    LeadReads(records, lead, norm);
    PathReads(records, sf, norm);
    FieldsAbsorb(records, k, Opened(records, k), rows, norm);
    TailReads(records[k := AbsorbAll(Opened(records, k), rows)], k, norm);
    ReadConcat(st, Lines(lead + (path + rows)), [END], norm);
    ReadConcat(st, Lines(lead), Lines(path) + Lines(rows), norm);
    ReadConcat(st, Lines(path), Lines(rows), norm);
  }

  lemma ScrubbedUpdate(records: Lcov.Records, k: string, rec: Record, nonExec: string -> set<nat>)
    ensures ScrubAll(records[k := rec], nonExec) == ScrubAll(records, nonExec)[k := ScrubRecord(rec, nonExec(k))]
    ensures Opened(ScrubAll(records, nonExec), k) == ScrubRecord(Opened(records, k), nonExec(k))
  {
    assert ScrubRecord(EMPTY, nonExec(k)) == EMPTY;
    hide ScrubRecord;
    var l, r := ScrubAll(records[k := rec], nonExec), ScrubAll(records, nonExec)[k := ScrubRecord(rec, nonExec(k))];
    assert l.Keys == r.Keys;
    forall x | x in l ensures l[x] == r[x] {
    }
  }

  /** The rows of a record behind each other, as lines. */
  lemma FieldsLines(lead: seq<Field>, sf: string, rows: seq<Field>)
    ensures Lines(lead + ([Field("SF", sf)] + rows)) == Lines(lead) + (Lines([Field("SF", sf)]) + Lines(rows))
  {
    hide *;
    LinesConcat(lead, [Field("SF", sf)] + rows);
    LinesConcat([Field("SF", sf)], rows);
  }

  lemma PathKept(sf: string, nonExec: set<nat>)
    ensures S.Kept(Lines([Field("SF", sf)]), nonExec) == Lines([Field("SF", sf)]) && Lacks("SF", ':')
  {
    var f := Field("SF", sf);
    RowOfOther(f);
    TagShape("SF");
    hide S.RowOf, IsTag, Text;
    assert Lines([f]) == [Text(f)] && [Text(f)][1..] == [];
  }

  lemma KeptRows(r: Raw, nonExec: set<nat>)
    ensures S.Kept(Lines(Fields(r)) + [END], nonExec)
         == Lines(KeptFields(r.lead, nonExec) + ([Field("SF", r.sf)] + KeptFields(r.rows, nonExec))) + [END]
  {
    assert Fields(r) == r.lead + ([Field("SF", r.sf)] + r.rows) && END == "end_of_record";
    hide *;
    var path := [Field("SF", r.sf)];
    FieldsLines(r.lead, r.sf, r.rows);
    FieldsLines(KeptFields(r.lead, nonExec), r.sf, KeptFields(r.rows, nonExec));
    S.KeptConcat(Lines(Fields(r)), [END], nonExec);
    S.KeptConcat(Lines(r.lead), Lines(path) + Lines(r.rows), nonExec);
    S.KeptConcat(Lines(path), Lines(r.rows), nonExec);
    PathKept(r.sf, nonExec);
    KeptLines(r.lead, nonExec);
    KeptLines(r.rows, nonExec);
    EndKept(nonExec);
  }

  lemma AllTagsLack(lead: seq<Field>, sf: string, rows: seq<Field>)
    requires Readable(lead) && Readable(rows)
    ensures var fs := lead + ([Field("SF", sf)] + rows); forall i :: 0 <= i < |fs| ==> Lacks(fs[i].tag, ':')
  {
    TagsLack(lead);
    TagsLack(rows);
    TagShape("SF");
    hide Lacks, Readable;
  }

  /** What the scrub leaves of a record: the kept rows, the path, the kept rows, the new totals. */
  lemma RawShape(r: Raw, nonExec: set<nat>) returns (t: S.Tally)
    requires Fit(r) && nonExec != {}
    ensures t == S.TallyOf(S.Kept(Lines(Fields(r)) + [END], nonExec))
    ensures S.Rewrite(Lines(Fields(r)) + [END], nonExec)
         == Lines(KeptFields(r.lead, nonExec) + ([Field("SF", r.sf)] + (KeptFields(r.rows, nonExec) + TotalFields(t))))
           + [END]
  {
    var lead, path, rows := KeptFields(r.lead, nonExec), [Field("SF", r.sf)], KeptFields(r.rows, nonExec);
    var kept := Lines(lead + (path + rows));
    t := S.TallyOf(S.Kept(Lines(Fields(r)) + [END], nonExec));
    hide Readable, S.TallyOf, Lines, KeptFields, TotalFields, S.Totals, Fields, S.Kept, AllAgreed;
    KeptRows(r, nonExec);
    KeptSubset(r.lead, nonExec);
    KeptSubset(r.rows, nonExec);
    AllTagsLack(lead, r.sf, rows);
    EndIsLast(lead + (path + rows));
    Inserted(Lines(Fields(r)) + [END], kept, nonExec);
    hide *;
    TotalFieldsRead(EMPTY, t);
    FieldsLines(lead, r.sf, rows);
    FieldsLines(lead, r.sf, rows + TotalFields(t));
    LinesConcat(rows, TotalFields(t));
    assert kept + S.Totals(t) == Lines(lead) + (Lines(path) + (Lines(rows) + S.Totals(t)));
  }

  lemma Inserted(block: seq<string>, kept: seq<string>, nonExec: set<nat>)
    requires nonExec != {} && S.Kept(block, nonExec) == kept + [END] && S.EndAt(kept + [END]) == |kept|
    ensures S.Rewrite(block, nonExec) == kept + S.Totals(S.TallyOf(kept + [END])) + [END]
  {
    hide S.Kept, S.EndAt, S.Totals, S.TallyOf;
    assert (kept + [END])[..|kept|] == kept && (kept + [END])[|kept|..] == [END];
  }

  /** The rows left and the new totals, absorbed, are the scrubbed tables of all the rows. */
  lemma LeftRows(rec: Record, rows: seq<Field>, t: S.Tally, nonExec: set<nat>)
    requires Readable(rows) && AllAgreed(rows)
    ensures Readable(KeptFields(rows, nonExec) + TotalFields(t))
    ensures AbsorbAll(ScrubRecord(rec, nonExec), KeptFields(rows, nonExec) + TotalFields(t))
      == ScrubRecord(AbsorbAll(rec, rows), nonExec)
  {
    assert forall i :: 0 <= i < |rows| ==> IsTag(rows[i].tag) && Agreed(rows[i]);
    hide *;
    RowsCommute(rec, rows, nonExec);
    KeptSubset(rows, nonExec);
    TotalFieldsRead(ScrubRecord(AbsorbAll(rec, rows), nonExec), t);
    ReadableConcat(KeptFields(rows, nonExec), TotalFields(t));
    AbsorbConcat(ScrubRecord(rec, nonExec), KeptFields(rows, nonExec), TotalFields(t));
  }

  lemma FitParts(r: Raw)
    requires Fit(r)
    ensures Readable(r.lead) && Readable(r.rows) && Clean(r.sf) && AllAgreed(r.rows)
    ensures Fields(r) == r.lead + ([Field("SF", r.sf)] + r.rows)
  {
    hide Readable, AllAgreed;
  }

  /** A scrubbed record read into scrubbed tables. */
  lemma RewrittenReads(records: Lcov.Records, r: Raw, lines: set<nat>, nonExec: string -> set<nat>,
      norm: string -> string)
    requires Fit(r) && lines == nonExec(norm(r.sf))
    ensures var k := norm(r.sf);
      ReadLines(State(ScrubAll(records, nonExec), None), S.Rewrite(Lines(Fields(r)) + [END], lines), norm)
      == State(ScrubAll(records[k := AbsorbAll(Opened(records, k), r.rows)], nonExec), None)
  {
    hide *;
    FitParts(r);
    var k := norm(r.sf);
    var rec := Opened(records, k);
    ScrubbedUpdate(records, k, AbsorbAll(rec, r.rows), nonExec);
    ScrubbedUpdate(records, k, rec, nonExec);
    if lines == {} {
      NothingScrubbed(rec);
      NothingScrubbed(AbsorbAll(rec, r.rows));
      NothingRewritten(Lines(Fields(r)) + [END]);
      RawReads(ScrubAll(records, nonExec), r.lead, r.sf, r.rows, norm);
    } else {
      var t := RawShape(r, lines);
      KeptSubset(r.lead, lines);
      LeftRows(rec, r.rows, t, lines);
      RawReads(ScrubAll(records, nonExec), KeptFields(r.lead, lines), r.sf,
        KeptFields(r.rows, lines) + TotalFields(t), norm);
    }
  }

  lemma NothingRewritten(block: seq<string>)
    ensures S.Rewrite(block, {}) == block
  {
  }

  // ------------------------------------------------------------- record by record

  lemma EndStep(line: string, rest: seq<string>)
    requires line != END
    ensures S.EndAt([line] + rest) == 1 + S.EndAt(rest)
  {
    assert ([line] + rest)[1..] == rest;
  }

  lemma {:induction false} EndHere(fs: seq<Field>, rest: seq<string>)
    requires forall i :: 0 <= i < |fs| ==> Lacks(fs[i].tag, ':')
    ensures S.EndAt(Lines(fs) + ([END] + rest)) == |Lines(fs)|
    decreases |fs|
  {
    if fs != [] {
      LineIsNotEnd(fs[0]);
      assert Lines(fs) == [Text(fs[0])] + Lines(fs[1..]) && Text(fs[0]) != END;
      hide Text, Lacks, Lines, StartsWith;
      EndHere(fs[1..], rest);
      assert Lines(fs) + ([END] + rest) == [Text(fs[0])] + (Lines(fs[1..]) + ([END] + rest));
      EndStep(Text(fs[0]), Lines(fs[1..]) + ([END] + rest));
    }
  }

  lemma CutAtEnd(piece: seq<string>, rest: seq<string>)
    requires S.EndAt(piece + ([END] + rest)) == |piece|
    ensures Pieces(piece + ([END] + rest)) == [piece] + Pieces(rest)
  {
    hide S.EndAt;
    var all := piece + ([END] + rest);
    assert all[..|piece|] == piece && all[|piece| + 1..] == rest;
  }

  lemma FirstPiece(r: Raw, rest: seq<string>)
    requires Fit(r)
    ensures Pieces(Lines(Fields(r)) + ([END] + rest)) == [Lines(Fields(r))] + Pieces(rest)
  {
    hide *;
    FitParts(r);
    AllTagsLack(r.lead, r.sf, r.rows);
    EndHere(Fields(r), rest);
    CutAtEnd(Lines(Fields(r)), rest);
  }

  lemma NoPathRow(f: Field)
    requires IsTag(f.tag) && f.tag != "SF"
    ensures !StartsWith(Text(f), "SF:")
  {
    TagShape(f.tag);
    var head := "SF:";
    assert head[..2] == "SF";
    hide IsTag, Text, StartsWith;
    if StartsWith(Text(f), head) { HeadTag(f, head); }
  }

  lemma NoRows()
    ensures Lines([]) == []
  {
  }

  lemma FirstRow(fs: seq<Field>)
    requires Readable(fs) && fs != []
    ensures IsTag(fs[0].tag) && fs[0].tag != "SF" && Readable(fs[1..]) && Lines(fs) == [Text(fs[0])] + Lines(fs[1..])
  {
    hide IsTag, Text, Clean;
  }

  lemma SourceStep(line: string, rest: seq<string>)
    requires !StartsWith(line, "SF:")
    ensures SourceOf([line] + rest) == SourceOf(rest)
  {
    assert ([line] + rest)[1..] == rest;
  }

  lemma {:induction false} SourceBehind(fs: seq<Field>, rest: seq<string>)
    requires Readable(fs)
    ensures SourceOf(Lines(fs) + rest) == SourceOf(rest)
    decreases |fs|
  {
    hide *;
    if fs == [] {
      NoRows();
      assert fs == [] && [] + rest == rest;
    } else {
      FirstRow(fs);
      NoPathRow(fs[0]);
      SourceBehind(fs[1..], rest);
      SourceStep(Text(fs[0]), Lines(fs[1..]) + rest);
      assert Lines(fs) + rest == [Text(fs[0])] + (Lines(fs[1..]) + rest);
    }
  }

  lemma PathRow(sf: string, rest: seq<string>)
    requires SourceOf(rest) == None
    ensures SourceOf(Lines([Field("SF", sf)]) + rest) == if sf == "" then None else Some(Trim(sf))
    ensures Includes(Lines([Field("SF", sf)])[0], "SF:")
  {
    var f := Field("SF", sf);
    assert Lines([f]) == [Text(f)] && Text(f)[..3] == "SF:" && Text(f)[3..] == sf;
    assert ([Text(f)] + rest)[1..] == rest;
    hide Trim;
  }

  lemma NoSourceInEnd()
    ensures SourceOf([END]) == None
  {
    assert END[0] == 'e' && [END][1..] == [];
  }

  lemma SourceFound(r: Raw)
    requires Fit(r)
    ensures SourceOf(Lines(Fields(r)) + [END]) == if r.sf == "" then None else Some(Trim(r.sf))
    ensures Mentions(Lines(Fields(r)), "SF:")
  {
    FitParts(r);
    hide Fit, Lines, Readable, AllAgreed, Fields, SourceOf, Includes, Trim;
    NoSourceInEnd();
    var path := Lines([Field("SF", r.sf)]);
    SourceBehind(r.rows, [END]);
    PathRow(r.sf, Lines(r.rows) + [END]);
    SourceBehind(r.lead, path + (Lines(r.rows) + [END]));
    FieldsLines(r.lead, r.sf, r.rows);
    assert Lines(Fields(r)) + [END] == Lines(r.lead) + (path + (Lines(r.rows) + [END]));
    PathLine(r.sf);
    assert Lines(Fields(r))[|Lines(r.lead)|] == path[0];
  }

  lemma PathLine(sf: string)
    ensures |Lines([Field("SF", sf)])| == 1
  {
  }

  /** The first record of a file is rewritten with its own source, and the rest is stripped. */
  lemma StripFirst(r: Raw, rest: seq<string>, source: string -> set<nat>)
    requires Fit(r)
    ensures Strip(Lines(Fields(r)) + ([END] + rest), source)
         == S.Rewrite(Lines(Fields(r)) + [END], SourceLines(r.sf, source)) + Strip(rest, source)
  {
    FirstPiece(r, rest);
    SourceFound(r);
    hide Fit, Fields, Lines, SourceOf, Mentions, Pieces, Trim, AllBlank, S.Rewrite;
    NothingRewritten(Lines(Fields(r)) + [END]);
    var pieces := [Lines(Fields(r))] + Pieces(rest);
    assert pieces[1..] == Pieces(rest);
  }

  /** Whatever was read before, reading the stripped rest gives the scrubbed tables. */
  lemma {:induction false} StripReads(records: Lcov.Records, raws: seq<Raw>, norm: string -> string,
                                      source: string -> set<nat>, nonExec: string -> set<nat>)
    requires AllFit(raws) && SameSources(raws, norm, source, nonExec)
    ensures ReadLines(State(records, None), FileOf(raws), norm).cur == None
    ensures ReadLines(State(ScrubAll(records, nonExec), None), Strip(FileOf(raws), source), norm)
         == State(ScrubAll(ReadLines(State(records, None), FileOf(raws), norm).records, nonExec), None)
    decreases |raws|
  {
    hide Fit, Strip, S.Rewrite, ScrubAll, ReadLine, Lines, Fields;
    if raws == [] {
      NothingStripped(source);
    } else {
      var r, k := raws[0], norm(raws[0].sf);
      var next := records[k := AbsorbAll(Opened(records, k), r.rows)];
      assert Fit(r) && SourceLines(r.sf, source) == nonExec(k);
      assert AllFit(raws[1..]) && SameSources(raws[1..], norm, source, nonExec);
      hide *;
      FileStep(raws);
      FitParts(r);
      StripReads(next, raws[1..], norm, source, nonExec);
      StripFirst(r, FileOf(raws[1..]), source);
      RawReads(records, r.lead, r.sf, r.rows, norm);
      RewrittenReads(records, r, nonExec(k), nonExec, norm);
      ReadConcat(State(records, None), Lines(Fields(r)) + [END], FileOf(raws[1..]), norm);
      ReadConcat(State(ScrubAll(records, nonExec), None), S.Rewrite(Lines(Fields(r)) + [END], nonExec(k)),
        Strip(FileOf(raws[1..]), source), norm);
    }
  }

  lemma FileStep(raws: seq<Raw>)
    requires raws != []
    ensures FileOf(raws) == Lines(Fields(raws[0])) + ([END] + FileOf(raws[1..]))
    ensures FileOf(raws) == (Lines(Fields(raws[0])) + [END]) + FileOf(raws[1..])
  {
    hide Lines, Fields;
  }

  lemma NothingStripped(source: string -> set<nat>)
    ensures Strip([], source) == []
  {
    assert Pieces([]) == [[]];
    assert StripPieces([[]], source) == [] + [];
  }

  // --------------------------------------------------------------- as one text

  predicate Unbroken(lines: seq<string>) {
    forall l :: l in lines ==> Lacks(l, '\n')
  }

  lemma EndUnbroken()
    ensures Unbroken([END])
  {
    var word := END;
    assert forall i :: 0 <= i < |word| ==> word[i] != '\n';
  }

  lemma UnbrokenConcat(a: seq<string>, b: seq<string>)
    requires Unbroken(a) && Unbroken(b)
    ensures Unbroken(a + b)
  {
    hide Lacks;
  }

  lemma RowsUnbroken(lead: seq<Field>, sf: string, rows: seq<Field>)
    requires Readable(lead) && Readable(rows) && Clean(sf)
    ensures Unbroken(Lines(lead + ([Field("SF", sf)] + rows)) + [END])
  {
    var fs := lead + ([Field("SF", sf)] + rows);
    hide Clean, Lacks;
    assert forall i :: 0 <= i < |fs| ==> IsTag(fs[i].tag) && Clean(fs[i].rest);
    hide IsTag;
    LinesUnbroken(fs);
    EndUnbroken();
    UnbrokenConcat(Lines(fs), [END]);
  }

  lemma RewrittenUnbroken(r: Raw, nonExec: set<nat>)
    requires Fit(r)
    ensures Unbroken(S.Rewrite(Lines(Fields(r)) + [END], nonExec))
  {
    hide *;
    FitParts(r);
    if nonExec == {} {
      NothingRewritten(Lines(Fields(r)) + [END]);
      RowsUnbroken(r.lead, r.sf, r.rows);
    } else {
      var t := RawShape(r, nonExec);
      KeptSubset(r.lead, nonExec);
      LeftRows(EMPTY, r.rows, t, nonExec);
      RowsUnbroken(KeptFields(r.lead, nonExec), r.sf, KeptFields(r.rows, nonExec) + TotalFields(t));
    }
  }

  lemma {:induction false} FileUnbroken(raws: seq<Raw>, source: string -> set<nat>)
    requires AllFit(raws)
    ensures Unbroken(FileOf(raws)) && Unbroken(Strip(FileOf(raws), source))
    decreases |raws|
  {
    if raws == [] {
      NothingStripped(source);
    } else {
      var r := raws[0];
      assert Fit(r) && AllFit(raws[1..]);
      hide *;
      FitParts(r);
      FileStep(raws);
      FileUnbroken(raws[1..], source);
      RowsUnbroken(r.lead, r.sf, r.rows);
      UnbrokenConcat(Lines(Fields(r)) + [END], FileOf(raws[1..]));
      StripFirst(r, FileOf(raws[1..]), source);
      RewrittenUnbroken(r, SourceLines(r.sf, source));
      UnbrokenConcat(S.Rewrite(Lines(Fields(r)) + [END], SourceLines(r.sf, source)), Strip(FileOf(raws[1..]), source));
    }
  }

  /**
   * Scrubbing a shard file and parsing what is left gives the scrubbed tables of the
   * parse, with `ScrubCommutes` also for any list of shards that are then merged.
   */
  lemma StrippedFileParses(raws: seq<Raw>, norm: string -> string, source: string -> set<nat>,
      nonExec: string -> set<nat>)
    requires AllFit(raws) && SameSources(raws, norm, source, nonExec)
    ensures Parse(FileText(Strip(FileOf(raws), source)), norm) == ScrubAll(Parse(FileText(FileOf(raws)), norm), nonExec)
  {
    assert START == State(map[], None) && ScrubAll(map[], nonExec) == map[];
    FileUnbroken(raws, source);
    hide *;
    StripReads(map[], raws, norm, source, nonExec);
    JoinedReads(FileOf(raws), norm);
    JoinedReads(Strip(FileOf(raws), source), norm);
  }
}
