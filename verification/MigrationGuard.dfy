/**
 * The migration guard as a whole: row writes found in statements and in DO
 * bodies, ids derived from row content, the exemption ledger, and what a clean
 * result says about the migration history.
 */
module MigrationGuard {
  import opened Prelude
  import opened Strings
  import opened SqlLexer
  import opened SqlStatements
  import opened SqlSplit
  import opened SqlExtract
  import opened SqlCte

  datatype Source = Source(name: string, sql: string)
  datatype Exemption = Exemption(migration: string, table: string, repairedBy: string)

  datatype DmlKind = Insert | Update | Delete | Truncate
  datatype Dml = Dml(table: string, kind: DmlKind)
  datatype DmlWrite = DmlWrite(table: string, kind: DmlKind, line: nat)
  datatype IdWrite = IdWrite(table: string, expression: string, derived: bool, line: nat)

  datatype Finding = RowWrite(kind: DmlKind) | DerivedId(expression: string)
  datatype Violation = Violation(file: string, line: nat, table: string, what: Finding)

  /**
   * The regular expressions, as the functions they compute: statement head, a statement without
   * leading block keywords, row write, derived expression, publication.
   */
  datatype Patterns = Patterns(
    headOf: string -> Head,
    unblocked: string -> string,
    dmlOf: string -> Option<Dml>,
    derived: string -> bool,
    published: string -> bool)

  const DML_GUARD_EPOCH := "20261105120000"

  /** The 1-based line of an offset. */
  function LineOf(sql: string, offset: nat): (line: nat)
    ensures line >= 1
  {
    if offset == 0 || sql == "" then 1
    else (if sql[0] == '\n' then 1 else 0) + LineOf(sql[1..], offset - 1)
  }

  /** Where the newlines before an offset stand. */
  ghost function Newlines(sql: string, offset: nat): set<nat> {
    set i: nat | i < offset && i < |sql| && sql[i] == '\n'
  }

  ghost function Moved(s: set<nat>): set<nat> {
    set i | i in s :: i + 1
  }

  lemma InMoved(s: set<nat>, y: nat)
    ensures y in Moved(s) <==> y > 0 && y - 1 in s
  {
  }

  lemma {:induction false} MovedSize(s: set<nat>)
    ensures |Moved(s)| == |s|
    decreases |s|
  {
    if s == {} {
      assert Moved(s) == {};
    } else {
      var x :| x in s;
      MovedSize(s - {x});
      hide Moved;
      forall y: nat ensures y in Moved(s) <==> y in Moved(s - {x}) + {x + 1} {
        InMoved(s, y);
        InMoved(s - {x}, y);
      }
      InMoved(s - {x}, x + 1);
      assert Moved(s) == Moved(s - {x}) + {x + 1};
    }
  }

  /** The line of an offset is one more than the newlines before it. */
  lemma {:induction false} LineCountsNewlines(sql: string, offset: nat)
    ensures LineOf(sql, offset) == 1 + |Newlines(sql, offset)|
  {
    hide Newlines, Moved;
    if offset == 0 || sql == "" {
      NoNewlines(sql, offset);
    } else {
      LineCountsNewlines(sql[1..], offset - 1);
      MovedSize(Newlines(sql[1..], offset - 1));
      NewlinesStep(sql, offset);
      FirstApart(Newlines(sql[1..], offset - 1));
    }
  }

  lemma NoNewlines(sql: string, offset: nat)
    requires offset == 0 || sql == ""
    ensures Newlines(sql, offset) == {}
  {
  }

  lemma NewlineAt(sql: string, offset: nat, i: nat)
    requires offset > 0 && sql != ""
    ensures i in Newlines(sql, offset)
       <==> (i == 0 && sql[0] == '\n') || (i > 0 && i - 1 in Newlines(sql[1..], offset - 1))
  {
  }

  lemma NewlinesStep(sql: string, offset: nat)
    requires offset > 0 && sql != ""
    ensures Newlines(sql, offset)
         == Moved(Newlines(sql[1..], offset - 1)) + if sql[0] == '\n' then {0} else {}
  {
    hide Newlines, Moved;
    var moved := Moved(Newlines(sql[1..], offset - 1));
    forall i: nat
      ensures i in Newlines(sql, offset) <==> i in moved + if sql[0] == '\n' then {0} else {}
    {
      NewlineAt(sql, offset, i);
      InMoved(Newlines(sql[1..], offset - 1), i);
    }
  }

  lemma FirstApart(s: set<nat>)
    ensures |Moved(s) + {0}| == |Moved(s)| + 1 && Moved(s) + {} == Moved(s)
  {
    InMoved(s, 0);
  }

  // ------------------------------------------------------------ row writes

  /** The tag behind a leading DO. */
  function DoTag(text: string): (tag: Option<string>)
    ensures tag.Some? ==> |tag.value| >= 2
  {
    var t := TrimStart(text);
    if !HasPrefix(t, "do") || |t| < 3 || !IsSpace(t[2]) then None
    else
      var r := TrimStart(t[2..]);
      if TagLen(r) > 0 then Some(r[..TagLen(r)]) else None
  }

  /** What stands between the first tag and the next one. */
  function Between(text: string, tag: string): (body: Option<string>)
    ensures body.Some? ==> |body.value| + 2 * |tag| <= |text|
  {
    match Find(text, tag)
    case None => None
    case Some(at) =>
      var rest := text[at + |tag|..];
      match Find(rest, tag)
      case None => None
      case Some(end) => Some(rest[..end])
  }

  /** The body of a `DO $tag$ ... $tag$` block: strictly shorter than the statement. */
  function DollarBody(text: string): (body: Option<string>)
    ensures body.Some? ==> |body.value| < |text|
  {
    match DoTag(text)
    case None => None
    case Some(tag) => Between(text, tag)
  }

  lemma {:induction false} TrimShrinks(s: string)
    ensures |TrimEnd(s)| <= |s|
    decreases |s|
  {
    if s != "" && IsSpace(s[|s| - 1]) { TrimShrinks(s[..|s| - 1]); }
  }

  lemma SpanOfFits(part: string, offset: nat, sp: Span)
    requires sp in SpanOf(part, offset)
    ensures |sp.text| <= |part|
  {
  }

  /** No span is longer than the text it was cut from. */
  lemma {:induction false} SpansFit(s: string, offset: nat, sp: Span)
    requires sp in SpansFrom(s, offset)
    ensures |sp.text| <= |s|
    decreases |s|
  {
    hide SpansFrom, SpanOf, TopSemi;
    if TopSemi(s, 0).None? {
      SpansLast(s, offset);
      SpanOfFits(s, offset, sp);
    } else {
      var k := TopSemi(s, 0).value;
      SpansStep(s, offset, k);
      if sp in SpanOf(s[..k], offset) {
        SpanOfFits(s[..k], offset, sp);
      } else {
        SpansFit(s[k + 1..], offset + k + 1, sp);
      }
    }
  }

  lemma StatementFits(sql: string, sp: Span)
    requires sp in Spans(Mask(sql))
    ensures |Trim(sp.text)| <= |sql|
  {
    hide Mask, SpansFrom;
    SpansFit(Mask(sql), 0, sp);
    TrimShrinks(TrimStart(sp.text));
  }

  /** The body of the DO block a statement is, if it is one with both tags. */
  function InnerBody(sql: string, sp: Span): (body: Option<string>)
    requires sp in Spans(Mask(sql))
    ensures body == DollarBody(Trim(sp.text))
    ensures body.Some? ==> |body.value| < |sql|
  {
    StatementFits(sql, sp);
    DollarBody(Trim(sp.text))
  }

  /** `dmlOf(stripBlockKeywords(raw))` */
  function DmlIn(p: Patterns, raw: string): Option<Dml> {
    p.dmlOf(WithoutCtes(Trim(p.unblocked(raw))))
  }

  /** Every row write of a migration, those inside DO blocks included. */
  function RowWrites(p: Patterns, sql: string, baseLine: nat): seq<DmlWrite>
    decreases |sql|, 1, 0
  {
    RowWritesIn(p, sql, baseLine, Spans(Mask(sql)))
  }

  function RowWritesIn(p: Patterns, sql: string, baseLine: nat, spans: seq<Span>): seq<DmlWrite>
    requires forall sp :: sp in spans ==> sp in Spans(Mask(sql))
    decreases |sql|, 0, |spans|
  {
    if spans == [] then []
    else
      var sp := spans[|spans| - 1];
      RowWritesIn(p, sql, baseLine, spans[..|spans| - 1]) + RowWritesOf(p, sql, baseLine, sp)
  }

  function RowWritesOf(p: Patterns, sql: string, baseLine: nat, sp: Span): seq<DmlWrite>
    requires sp in Spans(Mask(sql))
    decreases |sql|, 0, 0
  {
    var raw, line := Trim(sp.text), baseLine + LineOf(sql, sp.start) - 1;
    if IsKeyword(raw, "do") then
      match InnerBody(sql, sp)
      case None => []
      case Some(body) => if body == "" then [] else RowWrites(p, body, line)
    else
      match DmlIn(p, raw)
      case None => []
      case Some(dml) => [DmlWrite(dml.table, dml.kind, line)]
  }

  /** A statement of a migration, by its place: the statement it is in, and so on into DO bodies. */
  datatype Place = Place(text: string, line: nat)

  ghost function At(sql: string, baseLine: nat, path: seq<nat>): Option<Place>
    decreases |path|
  {
    var spans := Spans(Mask(sql));
    if path == [] || path[0] >= |spans| then None
    else
      var sp := spans[path[0]];
      var raw, line := Trim(sp.text), baseLine + LineOf(sql, sp.start) - 1;
      if |path| == 1 then Some(Place(raw, line))
      else if IsKeyword(raw, "do") && DollarBody(raw).Some? then At(DollarBody(raw).value, line, path[1..])
      else None
  }

  /** A row write stands at a place: a statement, not a DO block itself, that writes rows. */
  ghost predicate StandsAt(p: Patterns, sql: string, baseLine: nat, path: seq<nat>, w: DmlWrite) {
    var place := At(sql, baseLine, path);
    && place.Some? && !IsKeyword(place.value.text, "do")
    && p.dmlOf(WithoutCtes(Trim(p.unblocked(place.value.text)))) == Some(Dml(w.table, w.kind))
    && w.line == place.value.line
  }

  lemma StandsHere(p: Patterns, sql: string, baseLine: nat, k: nat, w: DmlWrite)
    requires k < |Spans(Mask(sql))| && !IsKeyword(Trim(Spans(Mask(sql))[k].text), "do")
    ensures StandsAt(p, sql, baseLine, [k], w) <==> w in RowWritesOf(p, sql, baseLine, Spans(Mask(sql))[k])
    ensures forall path :: |path| > 1 && path[0] == k ==> !StandsAt(p, sql, baseLine, path, w)
  {
    hide Mask, Spans, Trim, LineOf, DollarBody, WithoutCtes;
  }

  lemma StandsInside(p: Patterns, sql: string, baseLine: nat, path: seq<nat>, w: DmlWrite)
    requires path != [] && path[0] < |Spans(Mask(sql))|
    requires IsKeyword(Trim(Spans(Mask(sql))[path[0]].text), "do")
    ensures var sp := Spans(Mask(sql))[path[0]];
      StandsAt(p, sql, baseLine, path, w)
      <==> |path| > 1 && InnerBody(sql, sp).Some?
           && StandsAt(p, InnerBody(sql, sp).value, baseLine + LineOf(sql, sp.start) - 1, path[1..], w)
  {
    hide Mask, Spans, Trim, LineOf, DollarBody, WithoutCtes;
  }

  lemma {:induction false} InRowWrites(p: Patterns, sql: string, baseLine: nat, spans: seq<Span>, w: DmlWrite)
    requires forall sp :: sp in spans ==> sp in Spans(Mask(sql))
    ensures w in RowWritesIn(p, sql, baseLine, spans)
      <==> exists k :: 0 <= k < |spans| && w in RowWritesOf(p, sql, baseLine, spans[k])
    decreases |spans|
  {
    hide Mask, Spans, RowWritesOf;
    if spans != [] {
      var n := |spans| - 1;
      InRowWrites(p, sql, baseLine, spans[..n], w);
      assert forall k :: 0 <= k < n ==> spans[..n][k] == spans[k];
    }
  }

  /** The scan finds a row write exactly if it stands at some place of the migration, at whatever depth of DO bodies. */
  lemma {:induction false} RowWritesStand(p: Patterns, sql: string, baseLine: nat, w: DmlWrite)
    ensures w in RowWrites(p, sql, baseLine) <==> exists path :: StandsAt(p, sql, baseLine, path, w)
    decreases |sql|
  {
    hide Mask, Spans, Trim, LineOf, DollarBody, WithoutCtes, StandsAt;
    var spans := Spans(Mask(sql));
    forall k | 0 <= k < |spans|
      ensures w in RowWritesOf(p, sql, baseLine, spans[k])
        <==> exists path :: path != [] && path[0] == k && StandsAt(p, sql, baseLine, path, w)
    {
      WriteAt(p, sql, baseLine, k, w);
    }
    InRowWrites(p, sql, baseLine, spans, w);
    assert RowWrites(p, sql, baseLine) == RowWritesIn(p, sql, baseLine, spans);
    hide RowWrites, RowWritesOf, RowWritesIn;
    if w in RowWrites(p, sql, baseLine) {
      var k :| 0 <= k < |spans| && w in RowWritesOf(p, sql, baseLine, spans[k]);
      var path :| path != [] && path[0] == k && StandsAt(p, sql, baseLine, path, w);
    }
    if path :| StandsAt(p, sql, baseLine, path, w) {
      StandsSomewhere(p, sql, baseLine, path, w);
      assert w in RowWritesOf(p, sql, baseLine, spans[path[0]]);
    }
  }

  lemma StandsSomewhere(p: Patterns, sql: string, baseLine: nat, path: seq<nat>, w: DmlWrite)
    requires StandsAt(p, sql, baseLine, path, w)
    ensures path != [] && path[0] < |Spans(Mask(sql))|
  {
    hide Mask, Spans;
  }

  /** What a DO block writes is what its body writes; an empty body writes nothing. */
  lemma InBlock(p: Patterns, sql: string, baseLine: nat, sp: Span, w: DmlWrite)
    requires sp in Spans(Mask(sql)) && IsKeyword(Trim(sp.text), "do") && InnerBody(sql, sp).Some?
    ensures var body, line := InnerBody(sql, sp).value, baseLine + LineOf(sql, sp.start) - 1;
      w in RowWritesOf(p, sql, baseLine, sp) <==> w in RowWrites(p, body, line)
  {
    hide *;
    BlockWrites(p, sql, baseLine, sp);
    NothingWritten(p, baseLine + LineOf(sql, sp.start) - 1);
  }

  lemma BlockWrites(p: Patterns, sql: string, baseLine: nat, sp: Span)
    requires sp in Spans(Mask(sql)) && IsKeyword(Trim(sp.text), "do") && InnerBody(sql, sp).Some?
    ensures var body, line := InnerBody(sql, sp).value, baseLine + LineOf(sql, sp.start) - 1;
      RowWritesOf(p, sql, baseLine, sp) == if body == "" then [] else RowWrites(p, body, line)
  {
    hide Mask, Spans, Trim, LineOf, DollarBody, WithoutCtes, RowWrites, IsKeyword, InnerBody;
  }

  lemma NothingWritten(p: Patterns, baseLine: nat)
    ensures RowWrites(p, "", baseLine) == []
  {
    var s := "";
    assert Mask(s) == s && Spans(s) == [];
    hide Mask, Spans;
  }

  lemma {:induction false} WriteAt(p: Patterns, sql: string, baseLine: nat, k: nat, w: DmlWrite)
    requires k < |Spans(Mask(sql))|
    ensures w in RowWritesOf(p, sql, baseLine, Spans(Mask(sql))[k])
       <==> exists path :: path != [] && path[0] == k && StandsAt(p, sql, baseLine, path, w)
    decreases |sql|, 0
  {
    hide Mask, Spans, Trim, LineOf, DollarBody, WithoutCtes, StandsAt;
    var sp := Spans(Mask(sql))[k];
    if !IsKeyword(Trim(sp.text), "do") {
      StandsHere(p, sql, baseLine, k, w);
      assert [k][0] == k;
      forall path | path != [] && path[0] == k && StandsAt(p, sql, baseLine, path, w) ensures path == [k] {
      }
    } else {
      forall path | path != [] && path[0] == k
        ensures StandsAt(p, sql, baseLine, path, w)
           <==> |path| > 1 && InnerBody(sql, sp).Some?
                && StandsAt(p, InnerBody(sql, sp).value, baseLine + LineOf(sql, sp.start) - 1, path[1..], w)
      {
        StandsInside(p, sql, baseLine, path, w);
      }
      if InnerBody(sql, sp).Some? {
        var body, line := InnerBody(sql, sp).value, baseLine + LineOf(sql, sp.start) - 1;
        RowWritesStand(p, body, line, w);
        InBlock(p, sql, baseLine, sp, w);
        if path :| StandsAt(p, body, line, path, w) {
          StandsSomewhere(p, body, line, path, w);
          assert ([k] + path)[1..] == path && ([k] + path)[0] == k;
          assert StandsAt(p, sql, baseLine, [k] + path, w);
        }
        if path :| path != [] && path[0] == k && StandsAt(p, sql, baseLine, path, w) {
          assert StandsAt(p, body, line, path[1..], w);
        }
      }
    }
  }

  /** `collectDml`: the loop over the statements, recursing into DO bodies. */
  method CollectDml(p: Patterns, sql: string, baseLine: nat) returns (writes: seq<DmlWrite>)
    ensures writes == RowWrites(p, sql, baseLine)
    decreases |sql|, 1, 0
  {
    hide Mask, Spans, RowWritesOf;
    var spans := StatementSpans(sql);
    writes := [];
    for i := 0 to |spans|
      invariant writes == RowWritesIn(p, sql, baseLine, spans[..i])
    {
      assert spans[..i + 1][..i] == spans[..i];
      var found := CollectFrom(p, sql, baseLine, spans[i]);
      writes := writes + found;
    }
    assert spans[..|spans|] == spans;
  }

  method CollectFrom(p: Patterns, sql: string, baseLine: nat, sp: Span) returns (found: seq<DmlWrite>)
    requires sp in Spans(Mask(sql))
    ensures found == RowWritesOf(p, sql, baseLine, sp)
    decreases |sql|, 0, 0
  {
    hide Mask, Spans, RowWrites, DollarBody, Trim, WithoutCtes;
    var raw, line := Trim(sp.text), baseLine + LineOf(sql, sp.start) - 1;
    found := [];
    if IsKeyword(raw, "do") {
      var body := InnerBody(sql, sp);
      if body.Some? && body.value != "" {
        found := CollectDml(p, body.value, line);
      }
    } else {
      var own := StripWithClause(Trim(p.unblocked(raw)));
      var dml := p.dmlOf(own);
      if dml.Some? {
        found := [DmlWrite(dml.value.table, dml.value.kind, line)];
      }
    }
  }

  // ------------------------------------------------------------ id writes

  function IdWriteOf(p: Patterns, sql: string, sp: Span): seq<IdWrite> {
    match WrittenId(p.headOf(Trim(sp.text)))
    case None => []
    case Some(w) =>
      if p.published(w.table) then [IdWrite(w.table, w.expression, p.derived(w.expression), LineOf(sql, sp.start))]
        else []
  }

  function IdWritesIn(p: Patterns, sql: string, spans: seq<Span>): seq<IdWrite> {
    if spans == [] then []
    else IdWritesIn(p, sql, spans[..|spans| - 1]) + IdWriteOf(p, sql, spans[|spans| - 1])
  }

  /** `writtenIds`: every write to a published table's id, derived or not. */
  function IdWrites(p: Patterns, source: Source): seq<IdWrite> {
    IdWritesIn(p, source.sql, Spans(Mask(source.sql)))
  }

  /** An id write stands in a statement: what that assigns to `id` of a published table, on its line. */
  ghost predicate Assigns(p: Patterns, sql: string, sp: Span, w: IdWrite) {
    && WrittenId(p.headOf(Trim(sp.text))) == Some(Written(w.table, w.expression))
    && p.published(w.table) && w.derived == p.derived(w.expression) && w.line == LineOf(sql, sp.start)
  }

  lemma AssignsIs(p: Patterns, sql: string, sp: Span, w: IdWrite)
    ensures w in IdWriteOf(p, sql, sp) <==> Assigns(p, sql, sp, w)
  {
    hide WrittenId, Trim, LineOf;
  }

  lemma {:induction false} InIdWrites(p: Patterns, sql: string, spans: seq<Span>, w: IdWrite)
    ensures w in IdWritesIn(p, sql, spans) <==> exists k :: 0 <= k < |spans| && Assigns(p, sql, spans[k], w)
    decreases |spans|
  {
    hide Assigns, IdWriteOf;
    if spans != [] {
      var n := |spans| - 1;
      InIdWrites(p, sql, spans[..n], w);
      AssignsIs(p, sql, spans[n], w);
      assert forall k :: 0 <= k < n ==> spans[..n][k] == spans[k];
    }
  }

  /** The id writes found are exactly those some statement of the migration assigns. */
  lemma IdWritesStand(p: Patterns, source: Source, w: IdWrite)
    ensures var spans := Spans(Mask(source.sql));
      w in IdWrites(p, source) <==> exists k :: 0 <= k < |spans| && Assigns(p, source.sql, spans[k], w)
  {
    hide *;
    IdWritesAre(p, source);
    InIdWrites(p, source.sql, Spans(Mask(source.sql)), w);
  }

  lemma IdWritesAre(p: Patterns, source: Source)
    ensures IdWrites(p, source) == IdWritesIn(p, source.sql, Spans(Mask(source.sql)))
  {
    hide Mask, Spans, IdWritesIn;
  }

  method WrittenIds(p: Patterns, source: Source) returns (writes: seq<IdWrite>)
    ensures writes == IdWrites(p, source)
  {
    hide Mask, Spans, WrittenId, Trim;
    var spans := StatementSpans(source.sql);
    writes := [];
    for i := 0 to |spans|
      invariant writes == IdWritesIn(p, source.sql, spans[..i])
    {
      assert spans[..i + 1][..i] == spans[..i];
      var head := p.headOf(Trim(spans[i].text));
      var written := ExtractWrittenId(head);
      if written.Some? && p.published(written.value.table) {
        var w := written.value;
        var line := LineOf(source.sql, spans[i].start);
        writes := writes + [IdWrite(w.table, w.expression, p.derived(w.expression), line)];
      }
    }
    assert spans[..|spans|] == spans;
  }

  // ------------------------------------------------------------- the check

  function Key(migration: string, table: string): string {
    migration + "::" + table
  }

  function ExemptKeys(entries: seq<Exemption>): set<string> {
    set e | e in entries :: Key(e.migration, e.table)
  }

  /** The published row writes of a migration the rule applies to. */
  function Guarded(p: Patterns, source: Source): seq<DmlWrite> {
    if AtMost(DML_GUARD_EPOCH, source.name) then PublishedOnly(p, RowWrites(p, source.sql, 1)) else []
  }

  function PublishedOnly(p: Patterns, writes: seq<DmlWrite>): (r: seq<DmlWrite>)
    ensures forall w :: w in r <==> w in writes && p.published(w.table)
  {
    if writes == [] then []
    else
      var n := |writes| - 1;
      assert writes == writes[..n] + [writes[n]];
      PublishedOnly(p, writes[..n]) + if p.published(writes[n].table) then [writes[n]] else []
  }

  function Lines(writes: seq<DmlWrite>): set<nat> {
    set w | w in writes :: w.line
  }

  /** A derived id the ledger does not excuse and no row write on the same line already reports. */
  predicate Reported(source: Source, exempt: set<string>, dmlLines: set<nat>, w: IdWrite) {
    w.derived && Key(source.name, w.table) !in exempt && w.line !in dmlLines
  }

  function FileOf(source: Source): string {
    source.name + "/migration.sql"
  }

  function RowViolation(source: Source, w: DmlWrite): Violation {
    Violation(FileOf(source), w.line, w.table, RowWrite(w.kind))
  }

  function IdViolation(source: Source, w: IdWrite): Violation {
    Violation(FileOf(source), w.line, w.table, DerivedId(w.expression))
  }

  /** A row write the rule forbids: from the epoch on, into a published table. */
  ghost predicate Forbidden(p: Patterns, source: Source, w: DmlWrite) {
    AtMost("20261105120000", source.name) && w in RowWrites(p, source.sql, 1) && p.published(w.table)
  }

  /**
   * What a source raises: its forbidden row writes, and the derived ids it writes that the
   * ledger does not excuse and that stand on no line of a forbidden row write; each with the
   * file, line and table it was found at.
   */
  ghost predicate Raises(p: Patterns, exempt: set<string>, source: Source, v: Violation) {
    && v.file == source.name + "/migration.sql"
    && match v.what
       case RowWrite(kind) => Forbidden(p, source, DmlWrite(v.table, kind, v.line))
       case DerivedId(expression) =>
         && IdWrite(v.table, expression, true, v.line) in IdWrites(p, source)
         && source.name + "::" + v.table !in exempt
         && forall d :: Forbidden(p, source, d) ==> d.line != v.line
  }

  /** The same, as the report is built. */
  ghost predicate Built(p: Patterns, exempt: set<string>, source: Source, v: Violation) {
    || (exists w :: w in Guarded(p, source) && v == RowViolation(source, w))
    || (exists w :: w in IdWrites(p, source)
          && Reported(source, exempt, Lines(Guarded(p, source)), w) && v == IdViolation(source, w))
  }

  lemma GuardedIs(p: Patterns, source: Source, w: DmlWrite)
    ensures w in Guarded(p, source) <==> Forbidden(p, source, w)
  {
    hide RowWrites, AtMost;
  }

  lemma LineIsFree(p: Patterns, source: Source, line: nat)
    ensures line !in Lines(Guarded(p, source)) <==> forall d :: Forbidden(p, source, d) ==> d.line != line
  {
    forall w ensures w in Guarded(p, source) <==> Forbidden(p, source, w) {
      GuardedIs(p, source, w);
    }
    hide Guarded, Forbidden;
  }

  lemma RaisesIsBuilt(p: Patterns, exempt: set<string>, source: Source, v: Violation)
    ensures Raises(p, exempt, source, v) <==> Built(p, exempt, source, v)
  {
    LineIsFree(p, source, v.line);
    match v.what {
      case RowWrite(kind) =>
        var w := DmlWrite(v.table, kind, v.line);
        GuardedIs(p, source, w);
        hide Guarded, Forbidden, Lines;
        assert v.file == source.name + "/migration.sql" <==> v == RowViolation(source, w);
      case DerivedId(expression) =>
        var w := IdWrite(v.table, expression, true, v.line);
        hide Guarded, Forbidden, Lines, IdWrites;
        assert v.file == source.name + "/migration.sql" <==> v == IdViolation(source, w);
    }
  }

  function RowReports(p: Patterns, source: Source, writes: seq<DmlWrite>): seq<Violation> {
    if writes == [] then []
    else
      var w := writes[|writes| - 1];
      RowReports(p, source, writes[..|writes| - 1]) + if p.published(w.table) then [RowViolation(source, w)] else []
  }

  function IdReports(source: Source, exempt: set<string>, dmlLines: set<nat>, ids: seq<IdWrite>): seq<Violation> {
    if ids == [] then []
    else
      var w := ids[|ids| - 1];
      IdReports(source, exempt, dmlLines, ids[..|ids| - 1])
      + if Reported(source, exempt, dmlLines, w) then [IdViolation(source, w)] else []
  }

  /** One migration's report: its row writes in order, then its derived ids in order. */
  function ReportOf(p: Patterns, exempt: set<string>, source: Source): seq<Violation> {
    RowReports(p, source, if AtMost(DML_GUARD_EPOCH, source.name) then RowWrites(p, source.sql, 1) else [])
    + IdReports(source, exempt, Lines(Guarded(p, source)), IdWrites(p, source))
  }

  function FullReport(p: Patterns, exempt: set<string>, sources: seq<Source>): seq<Violation> {
    if sources == [] then []
    else FullReport(p, exempt, sources[..|sources| - 1]) + ReportOf(p, exempt, sources[|sources| - 1])
  }

  lemma {:induction false} RowsReported(p: Patterns, source: Source, writes: seq<DmlWrite>, v: Violation)
    ensures v in RowReports(p, source, writes)
      <==> exists w :: w in PublishedOnly(p, writes) && v == RowViolation(source, w)
    decreases |writes|
  {
    hide RowViolation;
    if writes != [] { RowsReported(p, source, writes[..|writes| - 1], v); }
  }

  lemma {:induction false} IdsReported(source: Source, exempt: set<string>, dmlLines: set<nat>, ids: seq<IdWrite>,
      v: Violation)
    ensures v in IdReports(source, exempt, dmlLines, ids)
       <==> exists w :: w in ids && Reported(source, exempt, dmlLines, w) && v == IdViolation(source, w)
    decreases |ids|
  {
    hide IdViolation, Reported;
    if ids != [] {
      var n := |ids| - 1;
      IdsReported(source, exempt, dmlLines, ids[..n], v);
      assert ids == ids[..n] + [ids[n]];
    }
  }

  lemma SourceReported(p: Patterns, exempt: set<string>, source: Source, v: Violation)
    ensures v in ReportOf(p, exempt, source) <==> Raises(p, exempt, source, v)
  {
    var writes := if AtMost(DML_GUARD_EPOCH, source.name) then RowWrites(p, source.sql, 1) else [];
    NothingPublished(p);
    RowsReported(p, source, writes, v);
    IdsReported(source, exempt, Lines(Guarded(p, source)), IdWrites(p, source), v);
    assert PublishedOnly(p, writes) == Guarded(p, source);
    RaisesIsBuilt(p, exempt, source, v);
    hide RowReports, IdReports, RowWrites, IdWrites, PublishedOnly, Guarded, Lines, Reported, RowViolation, IdViolation,
      Raises;
  }

  /** The report holds exactly the violations some source raises. */
  lemma {:induction false} ReportIsExact(p: Patterns, exempt: set<string>, sources: seq<Source>, v: Violation)
    ensures v in FullReport(p, exempt, sources) <==> exists s :: s in sources && Raises(p, exempt, s, v)
    decreases |sources|
  {
    hide ReportOf, Raises;
    if sources != [] {
      var n := |sources| - 1;
      ReportIsExact(p, exempt, sources[..n], v);
      SourceReported(p, exempt, sources[n], v);
      assert sources == sources[..n] + [sources[n]];
    }
  }

  /**
   * `checkMigrationSources`: each migration's report, in order; a violation is in it exactly if
   * some source raises it.
   */
  method CheckMigrationSources(p: Patterns, sources: seq<Source>, entries: seq<Exemption>)
    returns (violations: seq<Violation>)
    ensures violations == FullReport(p, ExemptKeys(entries), sources)
    ensures forall v :: v in violations <==> exists s :: s in sources && Raises(p, ExemptKeys(entries), s, v)
  {
    hide Raises, ExemptKeys, ReportOf;
    violations := [];
    for i := 0 to |sources|
      invariant violations == FullReport(p, ExemptKeys(entries), sources[..i])
    {
      assert sources[..i + 1][..i] == sources[..i];
      var found := CheckSource(p, sources[i], ExemptKeys(entries));
      violations := violations + found;
    }
    assert sources[..|sources|] == sources;
    forall v ensures v in violations <==> exists s :: s in sources && Raises(p, ExemptKeys(entries), s, v) {
      ReportIsExact(p, ExemptKeys(entries), sources, v);
    }
  }

  lemma NothingPublished(p: Patterns)
    ensures PublishedOnly(p, []) == []
  {
  }

  method CheckSource(p: Patterns, source: Source, exempt: set<string>) returns (found: seq<Violation>)
    ensures found == ReportOf(p, exempt, source)
  {
    hide RowWrites, IdWrites, PublishedOnly, Lines, Reported, RowViolation, IdViolation, RowReports, IdReports;
    var writes := [];
    if AtMost(DML_GUARD_EPOCH, source.name) {
      writes := CollectDml(p, source.sql, 1);
    }
    NothingPublished(p);
    assert Guarded(p, source) == PublishedOnly(p, writes);
    var dmlLines;
    found, dmlLines := ReportRows(p, source, writes);
    var ids := WrittenIds(p, source);
    var more := ReportIds(source, exempt, dmlLines, ids);
    found := found + more;
  }

  method ReportRows(p: Patterns, source: Source, writes: seq<DmlWrite>)
    returns (found: seq<Violation>, dmlLines: set<nat>)
    ensures dmlLines == Lines(PublishedOnly(p, writes))
    ensures found == RowReports(p, source, writes)
  {
    hide RowViolation;
    found, dmlLines := [], {};
    for i := 0 to |writes|
      invariant dmlLines == Lines(PublishedOnly(p, writes[..i]))
      invariant found == RowReports(p, source, writes[..i])
    {
      assert writes[..i + 1][..i] == writes[..i];
      if p.published(writes[i].table) {
        dmlLines := dmlLines + {writes[i].line};
        found := found + [RowViolation(source, writes[i])];
      }
    }
    assert writes[..|writes|] == writes;
  }

  method ReportIds(source: Source, exempt: set<string>, dmlLines: set<nat>, ids: seq<IdWrite>)
    returns (found: seq<Violation>)
    ensures found == IdReports(source, exempt, dmlLines, ids)
  {
    hide IdViolation, Reported;
    found := [];
    for i := 0 to |ids|
      invariant found == IdReports(source, exempt, dmlLines, ids[..i])
    {
      assert ids[..i + 1][..i] == ids[..i];
      if Reported(source, exempt, dmlLines, ids[i]) {
        found := found + [IdViolation(source, ids[i])];
      }
    }
    assert ids[..|ids|] == ids;
  }

  // -------------------------------------------------- the exemption ledger

  /** `new Map(sources.map(s => [s.name, s])).get(name)` */
  function Lookup(sources: seq<Source>, name: string): (r: Option<Source>)
    ensures r.Some? ==> r.value in sources && r.value.name == name
    ensures r.None? ==> forall s :: s in sources ==> s.name != name
  {
    if sources == [] then None
    else if sources[|sources| - 1].name == name then Some(sources[|sources| - 1])
    else Lookup(sources[..|sources| - 1], name)
  }

  datatype Reason = NotThere | NoRepair | NotAfter | NeverRewrites | NoLongerOffends
  datatype Problem = Problem(entry: Exemption, reason: Reason)

  predicate Rewrites(p: Patterns, source: Source, table: string) {
    exists w :: w in IdWrites(p, source) && w.table == table && !w.derived
  }

  predicate Offends(p: Patterns, source: Source, table: string) {
    exists w :: w in IdWrites(p, source) && w.table == table && w.derived
  }

  /** What `checkLegacyExemptions` says about one entry; missing files end the entry's checks. */
  function ProblemsOf(p: Patterns, sources: seq<Source>, e: Exemption): seq<Problem> {
    var exempted, repair := Lookup(sources, e.migration), Lookup(sources, e.repairedBy);
    if exempted.None? then [Problem(e, NotThere)]
    else if repair.None? then [Problem(e, NoRepair)]
    else
      (if AtMost(e.repairedBy, e.migration) then [Problem(e, NotAfter)] else [])
      + (if Rewrites(p, repair.value, e.table) then [] else [Problem(e, NeverRewrites)])
      + (if Offends(p, exempted.value, e.table) then [] else [Problem(e, NoLongerOffends)])
  }

  method CheckLegacyExemptions(p: Patterns, sources: seq<Source>, entries: seq<Exemption>)
    returns (problems: seq<Problem>)
    ensures problems == AllProblems(p, sources, entries)
  {
    problems := [];
    for i := 0 to |entries|
      invariant problems == AllProblems(p, sources, entries[..i])
    {
      assert entries[..i + 1][..i] == entries[..i];
      var found := CheckEntry(p, sources, entries[i]);
      problems := problems + found;
    }
    assert entries[..|entries|] == entries;
  }

  function AllProblems(p: Patterns, sources: seq<Source>, entries: seq<Exemption>): seq<Problem> {
    if entries == [] then []
    else AllProblems(p, sources, entries[..|entries| - 1]) + ProblemsOf(p, sources, entries[|entries| - 1])
  }

  method CheckEntry(p: Patterns, sources: seq<Source>, e: Exemption) returns (found: seq<Problem>)
    ensures found == ProblemsOf(p, sources, e)
  {
    hide IdWrites, Lookup;
    var exempted, repair := Lookup(sources, e.migration), Lookup(sources, e.repairedBy);
    if exempted.None? {
      return [Problem(e, NotThere)];
    }
    if repair.None? {
      return [Problem(e, NoRepair)];
    }
    found := [];
    if AtMost(e.repairedBy, e.migration) {
      found := found + [Problem(e, NotAfter)];
    }
    var repairs := WrittenIds(p, repair.value);
    if !(exists w :: w in repairs && w.table == e.table && !w.derived) {
      found := found + [Problem(e, NeverRewrites)];
    }
    var offending := WrittenIds(p, exempted.value);
    if !(exists w :: w in offending && w.table == e.table && w.derived) {
      found := found + [Problem(e, NoLongerOffends)];
    }
  }

  ghost predicate Named(sources: seq<Source>, name: string) {
    exists s :: s in sources && s.name == name
  }

  /** When an entry is said to have which problem. */
  ghost predicate HasProblem(p: Patterns, sources: seq<Source>, e: Exemption, reason: Reason) {
    var both := Named(sources, e.migration) && Named(sources, e.repairedBy);
    match reason
    case NotThere => !Named(sources, e.migration)
    case NoRepair => Named(sources, e.migration) && !Named(sources, e.repairedBy)
    case NotAfter => both && !Less(e.migration, e.repairedBy)
    case NeverRewrites =>
      both && forall w :: w in IdWrites(p, Lookup(sources, e.repairedBy).value) && w.table == e.table ==> w.derived
    case NoLongerOffends =>
      both && forall w :: w in IdWrites(p, Lookup(sources, e.migration).value) && w.table == e.table ==> !w.derived
  }

  lemma LookupIs(sources: seq<Source>, name: string)
    ensures Lookup(sources, name).Some? <==> Named(sources, name)
  {
  }

  /** Each problem of an entry is reported for its own reason, and for that only. */
  lemma ReasonIff(p: Patterns, sources: seq<Source>, e: Exemption, reason: Reason)
    ensures Problem(e, reason) in ProblemsOf(p, sources, e) <==> HasProblem(p, sources, e, reason)
  {
    LookupIs(sources, e.migration);
    LookupIs(sources, e.repairedBy);
    hide Lookup, Named, IdWrites, Less;
  }

  /** An entry that excuses a real offender and is repaired strictly later by a real repair. */
  ghost predicate Honest(p: Patterns, sources: seq<Source>, e: Exemption) {
    && Lookup(sources, e.migration).Some? && Lookup(sources, e.repairedBy).Some?
    && !AtMost(e.repairedBy, e.migration)
    && (exists w :: w in IdWrites(p, Lookup(sources, e.repairedBy).value) && w.table == e.table && !w.derived)
    && (exists w :: w in IdWrites(p, Lookup(sources, e.migration).value) && w.table == e.table && w.derived)
  }

  lemma {:induction false} NoProblemsIffHonest(p: Patterns, sources: seq<Source>, entries: seq<Exemption>)
    ensures AllProblems(p, sources, entries) == [] <==> forall e :: e in entries ==> Honest(p, sources, e)
  {
    hide Lookup, IdWrites;
    if entries != [] {
      var n := |entries| - 1;
      NoProblemsIffHonest(p, sources, entries[..n]);
      assert entries == entries[..n] + [entries[n]];
      assert ProblemsOf(p, sources, entries[n]) == [] <==> Honest(p, sources, entries[n]);
    }
  }

  // ---------------------------------------------------------- the theorem

  /** Table names are words, so `migration::table` names its pair. */
  lemma KeyNamesPair(m1: string, t1: string, m2: string, t2: string)
    requires Key(m1, t1) == Key(m2, t2)
    requires IsIdent(t1) && IsIdent(t2)
    ensures m1 == m2 && t1 == t2
  {
    var s := Key(m1, t1);
    var n := |s|;
    assert s[n - |t1| - 1] == ':' && s[n - |t2| - 1] == ':';
    assert |t1| == |t2|;
    assert t1 == s[n - |t1|..] == t2;
    assert m1 == s[..n - |t1| - 2] == m2;
  }

  /** The scan and the ledger only name tables that are words. */
  ghost predicate WordTables(p: Patterns, sources: seq<Source>, entries: seq<Exemption>) {
    && (forall e :: e in entries ==> IsIdent(e.table))
    && (forall s, w :: s in sources && w in IdWrites(p, s) ==> IsIdent(w.table))
  }

  /**
   * A migration the guard may let through: nothing derived but what an entry excuses, and no
   * published row write from the epoch on.
   */
  ghost predicate Acceptable(p: Patterns, entries: seq<Exemption>, s: Source) {
    && (forall w :: w in IdWrites(p, s) && w.derived ==>
          exists e :: e in entries && e.migration == s.name && e.table == w.table)
    && (AtMost(DML_GUARD_EPOCH, s.name) ==> forall w :: w in RowWrites(p, s.sql, 1) ==> !p.published(w.table))
  }

  lemma ExemptIsListed(s: Source, w: IdWrite, entries: seq<Exemption>)
    requires IsIdent(w.table) && forall e :: e in entries ==> IsIdent(e.table)
    ensures Key(s.name, w.table) in ExemptKeys(entries) <==>
            exists e :: e in entries && e.migration == s.name && e.table == w.table
  {
    hide Key;
    if Key(s.name, w.table) in ExemptKeys(entries) {
      var e :| e in entries && Key(e.migration, e.table) == Key(s.name, w.table);
      KeyNamesPair(e.migration, e.table, s.name, w.table);
    }
  }

  lemma RowRaises(p: Patterns, exempt: set<string>, s: Source, d: DmlWrite)
    requires Forbidden(p, s, d)
    ensures Raises(p, exempt, s, Violation(s.name + "/migration.sql", d.line, d.table, RowWrite(d.kind)))
  {
    hide Forbidden;
    assert DmlWrite(d.table, d.kind, d.line) == d;
  }

  lemma IdRaises(p: Patterns, exempt: set<string>, s: Source, w: IdWrite)
    requires w in IdWrites(p, s) && w.derived && s.name + "::" + w.table !in exempt
    requires forall d :: Forbidden(p, s, d) ==> d.line != w.line
    ensures Raises(p, exempt, s, Violation(s.name + "/migration.sql", w.line, w.table, DerivedId(w.expression)))
  {
    hide Forbidden, IdWrites;
    assert IdWrite(w.table, w.expression, true, w.line) == w;
  }

  lemma KeyIs(migration: string, table: string)
    ensures Key(migration, table) == migration + "::" + table
  {
  }

  /** A derived id the ledger does not excuse always has a violation on its own line, if only that of a row write. */
  lemma SuppressionIsReported(p: Patterns, entries: seq<Exemption>, s: Source, w: IdWrite)
    requires w in IdWrites(p, s) && w.derived && Key(s.name, w.table) !in ExemptKeys(entries)
    ensures exists v :: Raises(p, ExemptKeys(entries), s, v) && v.file == s.name + "/migration.sql" && v.line == w.line
  {
    hide *;
    KeyIs(s.name, w.table);
    if d :| Forbidden(p, s, d) && d.line == w.line {
      RowRaises(p, ExemptKeys(entries), s, d);
    } else {
      IdRaises(p, ExemptKeys(entries), s, w);
    }
  }

  /** A source raises nothing exactly when it is acceptable: the same-line suppression never hides the only report. */
  lemma SilentIffAcceptable(p: Patterns, entries: seq<Exemption>, s: Source)
    requires forall e :: e in entries ==> IsIdent(e.table)
    requires forall w :: w in IdWrites(p, s) ==> IsIdent(w.table)
    ensures (forall v :: !Raises(p, ExemptKeys(entries), s, v)) <==> Acceptable(p, entries, s)
  {
    if Acceptable(p, entries, s) {
      forall v ensures !Raises(p, ExemptKeys(entries), s, v) {
        AcceptableIsSilent(p, entries, s, v);
      }
    } else {
      UnacceptableRaises(p, entries, s);
    }
  }

  lemma AcceptableIsSilent(p: Patterns, entries: seq<Exemption>, s: Source, v: Violation)
    requires Acceptable(p, entries, s)
    ensures !Raises(p, ExemptKeys(entries), s, v)
  {
    hide RowWrites, IdWrites, AtMost;
    forall w | w in IdWrites(p, s) && w.derived ensures s.name + "::" + w.table in ExemptKeys(entries) {
      var e :| e in entries && e.migration == s.name && e.table == w.table;
      assert Key(e.migration, e.table) == s.name + "::" + w.table;
    }
  }

  lemma UnacceptableRaises(p: Patterns, entries: seq<Exemption>, s: Source)
    requires forall e :: e in entries ==> IsIdent(e.table)
    requires forall w :: w in IdWrites(p, s) ==> IsIdent(w.table)
    requires !Acceptable(p, entries, s)
    ensures exists v :: Raises(p, ExemptKeys(entries), s, v)
  {
    hide RowWrites, IdWrites, AtMost, ExemptKeys, Key, Raises;
    if forall w :: w in IdWrites(p, s) && w.derived ==>
      exists e :: e in entries && e.migration == s.name && e.table == w.table
    {
      var d :| d in RowWrites(p, s.sql, 1) && p.published(d.table);
      RowRaises(p, ExemptKeys(entries), s, d);
    } else {
      var w :| w in IdWrites(p, s) && w.derived
               && !exists e :: e in entries && e.migration == s.name && e.table == w.table;
      ExemptIsListed(s, w, entries);
      SuppressionIsReported(p, entries, s, w);
    }
  }

  /**
   * Guard soundness: when neither check reports anything, every derived id write
   * found in a published table belongs to an exempt pair whose ids a strictly
   * later migration of the tree rewrites with non-derived values, and no row write the
   * scan finds from the epoch on, bare or in a DO body, is into a published table. A
   * write inside a definition of a WITH clause is not found (`SqlCte.InnerWritesUnseen`).
   */
  lemma GuardSound(p: Patterns, sources: seq<Source>, entries: seq<Exemption>, s: Source, w: IdWrite, d: DmlWrite)
    requires WordTables(p, sources, entries) && s in sources
    requires forall t, v :: t in sources ==> !Raises(p, ExemptKeys(entries), t, v)
    requires AllProblems(p, sources, entries) == []
    ensures w in IdWrites(p, s) && w.derived ==>
      exists r :: r in sources && !AtMost(r.name, s.name)
        && exists x :: x in IdWrites(p, r) && x.table == w.table && !x.derived
    ensures d in RowWrites(p, s.sql, 1) && AtMost(DML_GUARD_EPOCH, s.name) ==> !p.published(d.table)
  {
    hide RowWrites, IdWrites, AllProblems, Raises, ExemptKeys, AtMost;
    SilentIffAcceptable(p, entries, s);
    NoProblemsIffHonest(p, sources, entries);
    if w in IdWrites(p, s) && w.derived {
      var e :| e in entries && e.migration == s.name && e.table == w.table;
      assert Honest(p, sources, e);
      var r := Lookup(sources, e.repairedBy).value;
      assert r in sources && r.name == e.repairedBy;
    }
  }
}
