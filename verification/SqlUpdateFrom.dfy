/**
 * `UPDATE … SET … FROM …`: the scanner ends the SET list at WHERE and RETURNING only,
 * so the list of tables stays with the last assignment.
 */
module SqlUpdateFrom {
  import opened Prelude
  import opened Strings
  import opened SqlLexer
  import opened SqlSplit
  import opened SqlExtract
  import opened SqlLists
  import opened SqlExtractExact

  function PrintUpdateFrom(table: string, columns: seq<string>, exprs: seq<string>, from: string, clause: string): Head
    requires |columns| == |exprs| > 0
  {
    var tail := if clause == "" then "" else " WHERE " + clause;
    UpdateHead(table, JoinCommas(Spaced(Assignments(columns, exprs))) + (" FROM " + from + tail))
  }

  /** The expressions with the list of tables behind the last one. */
  function WithTables(exprs: seq<string>, from: string): (r: seq<string>)
    requires exprs != []
    ensures |r| == |exprs|
  {
    var n := |exprs| - 1;
    exprs[n := exprs[n] + (" FROM " + from)]
  }

  // ------------------------------------------------- the last expression grown

  lemma AnyPrev(s: string, prev: char, other: char)
    ensures FirstHit(s, prev, TOP, StartsClause()) == FirstHit(s, other, TOP, StartsClause())
  {
  }

  lemma FromIsNoClause(from: string, prev: char)
    ensures !StartsClause()(" FROM " + from, prev, TOP)
  {
    var q, r := " FROM " + from, "FROM " + from;
    assert q[1..] == r && r[0] == 'F';
    assert TrimStart(q) == r;
    var w, x := "where", "returning";
    assert Lower(r[0]) == 'f' && w[0] == 'w' && x[0] == 'r';
    assert !IsKeyword(r, w) && !IsKeyword(r, x);
    assert !StartsClause()(q, prev, TOP);
  }

  /** No clause begins before the tables do. */
  lemma PastFrom(from: string, prev: char)
    ensures FirstHit(" FROM " + from, prev, TOP, StartsClause())
      == Shift(FirstHit(" " + from, '=', TOP, StartsClause()), 5)
  {
    var q, p, r := " FROM " + from, "FROM", " " + from;
    assert q[1..] == p + r && q[0] == ' ';
    FromIsNoClause(from, prev);
    HitStep(q, prev, TOP, StartsClause());
    NoClauseIn(p, r);
    PlainStrayFree(p);
    AnyPrev(r, 'M', '=');
    hide FirstHit, StartsClause, TrimStart, Local;
    HitConcat(p, r, ' ', TOP, StartsClause());
    assert LastChar(p, ' ') == 'M';
    ShiftShift(FirstHit(r, '=', TOP, StartsClause()), 4, 1);
  }

  lemma NoClauseAlone(e: string)
    ensures NoClause([e]) <==> FirstHit(" " + e, '=', TOP, StartsClause()).None?
  {
    hide FirstHit, StartsClause;
    assert [e][0] == e;
  }

  lemma SpacedEnd(e: string)
    requires WellFormed(e)
    ensures var p := " " + e; p[|p| - 1] == e[|e| - 1] && !IsSpace(p[|p| - 1]) && Run(p, TOP) == TOP
  {
    SpaceSelf(e);
  }

  lemma GrownHasNoClause(e: string, from: string)
    requires WellFormed(e) && NoClause([e]) && NoClause([from])
    ensures FirstHit(" " + (e + (" FROM " + from)), '=', TOP, StartsClause()).None?
  {
    hide *;
    var p, q := " " + e, " FROM " + from;
    NoClauseAlone(e);
    NoClauseAlone(from);
    SpacedEnd(e);
    assert q[0] == ' ';
    assert !IsWordChar(' ') by { SpaceEndsWord(); }
    ClauseIsLocal(p, q);
    HitConcat(p, q, '=', TOP, StartsClause());
    PastFrom(from, LastChar(p, '='));
    NoneOn(5);
    NoneOn(|p|);
    assert p + q == " " + (e + q);
  }

  lemma NoneOn(n: nat)
    ensures Shift(None, n) == None
  {
  }

  lemma SpaceEndsWord()
    ensures !IsWordChar(' ')
  {
  }

  lemma GrownWellFormed(e: string, from: string)
    requires WellFormed(e) && WellFormed(from)
    ensures WellFormed(e + (" FROM " + from))
  {
    var word := " FROM ";
    PlainSelf(word);
    PlainStrayFree(word);
    SelfConcat(word, from);
    SelfConcat(e, word + from);
    StrayFreeConcat(word, from, TOP);
    StrayFreeConcat(e, word + from, TOP);
    var r := e + (word + from);
    assert r[0] == e[0] && r[|r| - 1] == from[|from| - 1];
  }

  lemma Grown(exprs: seq<string>, from: string)
    requires exprs != [] && (forall i :: 0 <= i < |exprs| ==> WellFormed(exprs[i])) && NoClause(exprs)
    requires WellFormed(from) && NoClause([from])
    ensures forall i :: 0 <= i < |exprs| ==> WellFormed(WithTables(exprs, from)[i])
    ensures NoClause(WithTables(exprs, from))
  {
    hide WellFormed, FirstHit, StartsClause;
    var e := exprs[|exprs| - 1];
    GrownWellFormed(e, from);
    assert NoClause([e]);
    GrownHasNoClause(e, from);
  }

  lemma GrownAssignments(columns: seq<string>, exprs: seq<string>, from: string)
    requires |columns| == |exprs| > 0
    ensures var items, n := Assignments(columns, exprs), |exprs| - 1;
      Assignments(columns, WithTables(exprs, from)) == items[n := items[n] + (" FROM " + from)]
  {
    var n, more := |exprs| - 1, " FROM " + from;
    assert InQuotes(columns[n]) + " = " + (exprs[n] + more) == InQuotes(columns[n]) + " = " + exprs[n] + more;
    hide InQuotes;
  }

  lemma SpacedGrown(items: seq<string>, more: string)
    requires items != []
    ensures var n := |items| - 1; Spaced(items[n := items[n] + more]) == Spaced(items)[n := Spaced(items)[n] + more]
  {
    var n := |items| - 1;
    assert " " + (items[n] + more) == " " + items[n] + more;
  }

  /** To the scanner the tables are the end of the last assigned expression. */
  lemma ReadsAsGrown(table: string, columns: seq<string>, exprs: seq<string>, from: string, clause: string)
    requires |columns| == |exprs| > 0
    ensures PrintUpdateFrom(table, columns, exprs, from, clause)
         == Print(UpdateSet(table, columns, WithTables(exprs, from), clause))
  {
    var items, n, more := Assignments(columns, exprs), |exprs| - 1, " FROM " + from;
    var grown := Assignments(columns, WithTables(exprs, from));
    GrownAssignments(columns, exprs, from);
    SpacedGrown(items, more);
    JoinMore(Spaced(items), more);
    var tail := if clause == "" then "" else " WHERE " + clause;
    hide JoinCommas, Spaced, Assignments;
    assert JoinCommas(Spaced(items)) + (more + tail) == JoinCommas(Spaced(items)) + more + tail;
  }

  // ------------------------------------------------------------- the theorem

  lemma FromScans(table: string, columns: seq<string>, exprs: seq<string>, from: string, clause: string)
    returns (q: string)
    requires |columns| == |exprs| > 0
    ensures Separates(q) && WrittenId(PrintUpdateFrom(table, columns, exprs, from, clause))
      == FirstId(table, SplitTopLevel(Before(JoinCommas(Spaced(Assignments(columns, exprs))) + q, StartsClause())))
  {
    hide FirstId, SplitTopLevel, Before, JoinCommas, Spaced, Assignments;
    q := " FROM " + from + if clause == "" then "" else " WHERE " + clause;
    assert q[0] == ' ';
  }

  lemma CutIsBefore(text: string, cut: string)
    requires CutAt(text, cut, StartsClause())
    ensures Before(text, StartsClause()) == cut
  {
    hide FirstHit, StartsClause;
  }

  /** A clause word loose in an expression: the list is cut there, whatever follows it. */
  lemma CutFromSet(table: string, columns: seq<string>, exprs: seq<string>, from: string, clause: string)
    requires |columns| == |exprs| > 0 && forall i :: 0 <= i < |columns| ==> IsIdent(columns[i]) && WellFormed(exprs[i])
    requires !Quiet(Assignments(columns, exprs), StartsClause())
    ensures YieldsIff(WrittenId(PrintUpdateFrom(table, columns, exprs, from, clause)), table, columns, exprs)
  {
    var items := Assignments(columns, exprs);
    assert items != [];
    hide *;
    var q := FromScans(table, columns, exprs, from, clause);
    ClauseItems(columns, exprs);
    ListCut(items, q, StartsClause());
    CutIsBefore(JoinCommas(Spaced(items)) + q, JoinCommas(Spaced(CutList(items, StartsClause()))));
    CutSet(table, columns, exprs);
  }

  lemma QuietIffNoClause(columns: seq<string>, exprs: seq<string>)
    requires |columns| == |exprs| && forall i :: 0 <= i < |columns| ==> IsIdent(columns[i])
    ensures Quiet(Assignments(columns, exprs), StartsClause()) <==> NoClause(exprs)
  {
    QuietAssignments(columns, exprs, |exprs|);
    hide FirstHit, NoClause, IsIdent;
    assert exprs[..|exprs|] == exprs && Assignments(columns, exprs)[..|exprs|] == Assignments(columns, exprs);
  }

  /** Without a loose clause word the last expression comes back with the tables behind it. */
  lemma TablesComeAlong(table: string, columns: seq<string>, exprs: seq<string>, from: string, clause: string)
    requires |columns| == |exprs| > 0 && forall i :: 0 <= i < |columns| ==> IsIdent(columns[i]) && WellFormed(exprs[i])
    requires WellFormed(from) && NoClause([from]) && NoClause(exprs)
    ensures WrittenId(PrintUpdateFrom(table, columns, exprs, from, clause)) == match FirstIdColumn(columns)
      case None => None
      case Some(k) => Some(Written(table, WithTables(exprs, from)[k]))
  {
    hide FirstHit, StartsClause, WellFormed, WrittenId, PrintUpdateFrom, Print, FirstIdColumn, IsIdent;
    Grown(exprs, from);
    ReadsAsGrown(table, columns, exprs, from, clause);
    UpdateReadBack(table, columns, WithTables(exprs, from), clause);
  }

  lemma OnlyLastGrows(exprs: seq<string>, from: string, k: nat)
    requires k < |exprs|
    ensures WithTables(exprs, from)[k] == exprs[k] <==> k < |exprs| - 1
    ensures k == |exprs| - 1 ==> WithTables(exprs, from)[k] == exprs[k] + (" FROM " + from)
  {
    assert |exprs[k] + (" FROM " + from)| > |exprs[k]|;
  }

  lemma NoClauseBefore(exprs: seq<string>, k: nat)
    requires k < |exprs|
    ensures NoClause(exprs) ==> NoClause(exprs[..k + 1])
    ensures k == |exprs| - 1 ==> exprs[..k + 1] == exprs
  {
    hide FirstHit, StartsClause;
  }

  /**
   * From an UPDATE with a FROM the scanner reads the expression assigned to `id` if and
   * only if it is not the last one assigned and no WHERE or RETURNING stands loose before
   * its end. Assigned last, it comes back with the list of tables behind it.
   */
  lemma UpdateFromExact(table: string, columns: seq<string>, exprs: seq<string>, from: string, clause: string)
    requires Printable(UpdateSet(table, columns, exprs, clause)) && WellFormed(from) && NoClause([from])
    ensures WrittenId(PrintUpdateFrom(table, columns, exprs, from, clause))
         == AssignedId(UpdateSet(table, columns, exprs, clause))
      <==> match FirstIdColumn(columns)
           case None => true
           case Some(k) => k < |columns| - 1 && NoClause(exprs[..k + 1])
    ensures FirstIdColumn(columns) == Some(|columns| - 1) && NoClause(exprs) ==>
      WrittenId(PrintUpdateFrom(table, columns, exprs, from, clause))
      == Some(Written(table, exprs[|exprs| - 1] + (" FROM " + from)))
  {
    hide FirstHit, StartsClause, WellFormed, WrittenId, PrintUpdateFrom, FirstIdColumn, IsIdent, Quiet, Assignments,
      NoClause, WithTables;
    QuietIffNoClause(columns, exprs);
    if FirstIdColumn(columns).Some? {
      OnlyLastGrows(exprs, from, FirstIdColumn(columns).value);
      NoClauseBefore(exprs, FirstIdColumn(columns).value);
    }
    if NoClause(exprs) {
      TablesComeAlong(table, columns, exprs, from, clause);
    } else {
      CutFromSet(table, columns, exprs, from, clause);
    }
  }

  /** `/^[A-Za-z_]\w*$/`: the test by which a bare column copied into `id` is told from a value. */
  predicate LoneWord(e: string) {
    IsIdent(e) && !('0' <= e[0] <= '9')
  }

  /** A bare column copied last into `id` is not a bare column to the scanner if tables follow. */
  lemma CopiedColumnHidden(table: string, columns: seq<string>, exprs: seq<string>, from: string, clause: string)
    requires Printable(UpdateSet(table, columns, exprs, clause)) && WellFormed(from) && NoClause([from])
    requires FirstIdColumn(columns) == Some(|columns| - 1) && LoneWord(exprs[|exprs| - 1]) && NoClause(exprs)
    ensures var written := WrittenId(PrintUpdateFrom(table, columns, exprs, from, clause));
      written.Some? && !LoneWord(written.value.expression)
  {
    hide FirstHit, StartsClause, WellFormed, WrittenId, PrintUpdateFrom, FirstIdColumn, NoClause;
    UpdateFromExact(table, columns, exprs, from, clause);
    var e := exprs[|exprs| - 1];
    var read := e + (" FROM " + from);
    SpaceEndsWord();
    assert read[|e|] == ' ';
  }
}
