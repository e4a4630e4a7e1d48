/**
 * The expression a migration statement writes into `id`. The two statement heads
 * are taken as matched by their regular expressions; everything after them is
 * scanned character by character.
 */
module SqlExtract {
  import opened Prelude
  import opened Strings
  import opened SqlLexer
  import opened SqlSplit

  /** What INSERT_RE or UPDATE_RE captured, and the text behind it. */
  datatype Head =
    | InsertHead(table: string, columns: string, rest: string)
    | UpdateHead(table: string, setBody: string)
    | OtherHead

  datatype Written = Written(table: string, expression: string)

  function LowerAll(s: string): (r: string)
    ensures |r| == |s|
  {
    seq(|s|, i requires 0 <= i < |s| => Lower(s[i]))
  }

  function Unquote(s: string): string {
    if s == "" then "" else (if s[0] == '"' then "" else [s[0]]) + Unquote(s[1..])
  }

  /** `c.trim().replace(/"/g, '').toLowerCase()` */
  function ColumnName(c: string): string {
    LowerAll(Unquote(Trim(c)))
  }

  /** `columns.indexOf('id')` */
  function IdIndex(columns: seq<string>): (k: Option<nat>)
    ensures k.Some? ==> k.value < |columns| && ColumnName(columns[k.value]) == "id"
    ensures k.Some? ==> forall i :: 0 <= i < k.value ==> ColumnName(columns[i]) != "id"
    ensures k.None? ==> forall i :: 0 <= i < |columns| ==> ColumnName(columns[i]) != "id"
  {
    if columns == [] then None
    else if ColumnName(columns[0]) == "id" then Some(0)
    else Shift(IdIndex(columns[1..]), 1)
  }

  predicate HasPrefix(s: string, word: string) {
    |word| <= |s| && forall k :: 0 <= k < |word| ==> Lower(s[k]) == word[k]
  }

  /** `values[idIndex]`: a missing or empty part is no expression. */
  function Pick(table: string, parts: seq<string>, k: nat): Option<Written> {
    if k < |parts| && parts[k] != "" then Some(Written(table, Trim(parts[k]))) else None
  }

  /** /^\s*"?id"?\s*=\s*([\s\S]+)$/i, trimmed */
  function MatchId(assignment: string): Option<string> {
    var a := TrimStart(assignment);
    var b := if a != "" && a[0] == '"' then a[1..] else a;
    if !HasPrefix(b, "id") then None
    else
      var c := b[2..];
      var d := TrimStart(if c != "" && c[0] == '"' then c[1..] else c);
      if |d| > 1 && d[0] == '=' then Some(Trim(d[1..])) else None
  }

  function FirstId(table: string, assignments: seq<string>): Option<Written> {
    if assignments == [] then None
    else match MatchId(assignments[0])
      case Some(expression) => Some(Written(table, expression))
      case None => FirstId(table, assignments[1..])
  }

  function FromValues(table: string, rest: string, k: nat): Option<Written> {
    match Find(rest, "(")
    case None => None
    case Some(open) =>
      match Balanced(rest, open)
      case None => None
      case Some(tuple) => Pick(table, SplitTopLevel(tuple), k)
  }

  function WrittenId(head: Head): Option<Written> {
    match head
    case OtherHead => None
    case UpdateHead(table, setBody) => FirstId(table, SplitTopLevel(Before(setBody, StartsClause())))
    case InsertHead(table, columns, behind) =>
      match IdIndex(SplitTopLevel(columns))
      case None => None
      case Some(k) =>
        var rest := Trim(behind);
        if HasPrefix(rest, "values") then FromValues(table, rest, k)
        else if HasPrefix(rest, "select") && |rest| > 6 && IsSpace(rest[6]) then
          Pick(table, SplitTopLevel(SelectList(rest)), k)
        else None
  }

  /** Behind the columns only VALUES, or SELECT before whitespace, is read; nothing comes of other text. */
  lemma OtherwiseNothing(table: string, columns: string, behind: string)
    requires !HasPrefix(Trim(behind), "values")
    requires var rest := Trim(behind); HasPrefix(rest, "select") ==> |rest| == 6 || !IsSpace(rest[6])
    ensures WrittenId(InsertHead(table, columns, behind)) == None
  {
    hide SplitTopLevel, SelectList, Trim;
  }

  /** `extractWrittenId`, over the scanning loops. */
  method ExtractWrittenId(head: Head) returns (written: Option<Written>)
    ensures written == WrittenId(head)
  {
    hide Pick, IdIndex, SplitTopLevel, Balanced, MatchId, Trim, Find, SelectList;
    match head {
      case OtherHead => return None;
      case InsertHead(table, columnText, behind) =>
        var columns := SplitAtCommas(columnText);
        var k := IdIndex(columns);
        if k.None? {
          return None;
        }
        var rest := Trim(behind);
        if HasPrefix(rest, "values") {
          written := ExtractFromValues(table, rest, k.value);
        } else if HasPrefix(rest, "select") && |rest| > 6 && IsSpace(rest[6]) {
          var list := SelectListOf(rest);
          var parts := SplitAtCommas(list);
          written := Pick(table, parts, k.value);
        } else {
          written := None;
        }
      case UpdateHead(table, setBody) =>
        var list := StripTrailingClauses(setBody);
        var assignments := SplitAtCommas(list);
        written := ExtractFromSet(table, assignments);
    }
  }

  method ExtractFromValues(table: string, rest: string, k: nat) returns (written: Option<Written>)
    ensures written == FromValues(table, rest, k)
  {
    hide Pick, SplitTopLevel, Balanced;
    var open := Find(rest, "(");
    if open.None? {
      return None;
    }
    assert rest[open.value..open.value + 1] == "(";
    assert rest[open.value] == rest[open.value..open.value + 1][0];
    var tuple := ExtractBalanced(rest, open.value);
    if tuple.None? {
      return None;
    }
    var parts := SplitAtCommas(tuple.value);
    written := Pick(table, parts, k);
  }

  method ExtractFromSet(table: string, assignments: seq<string>) returns (written: Option<Written>)
    ensures written == FirstId(table, assignments)
  {
    hide MatchId;
    for i := 0 to |assignments|
      invariant FirstId(table, assignments) == FirstId(table, assignments[i..])
    {
      assert assignments[i..][1..] == assignments[i + 1..];
      var m := MatchId(assignments[i]);
      if m.Some? {
        return Some(Written(table, m.value));
      }
    }
    written := None;
  }

  // -------------------------------------------------- printed statements

  /** A single-row write of the forms the migrations use. */
  datatype Write =
    | InsertValues(table: string, columns: seq<string>, exprs: seq<string>, tail: string)
    | InsertSelect(table: string, columns: seq<string>, exprs: seq<string>, from: string)
    | UpdateSet(table: string, columns: seq<string>, exprs: seq<string>, clause: string)

  predicate IsIdent(c: string) {
    c != "" && forall i :: 0 <= i < |c| ==> IsWordChar(c[i])
  }

  function InQuotes(c: string): string {
    "\"" + c + "\""
  }

  /** `a, b, c` as the parts between its commas. */
  function Spaced(items: seq<string>): (r: seq<string>)
    ensures |r| == |items|
  {
    seq(|items|, i requires 0 <= i < |items| => if i == 0 then items[0] else " " + items[i])
  }

  function Assignments(columns: seq<string>, exprs: seq<string>): (r: seq<string>)
    requires |columns| == |exprs|
    ensures |r| == |columns|
  {
    seq(|columns|, i requires 0 <= i < |columns| => InQuotes(columns[i]) + " = " + exprs[i])
  }

  function ColumnText(columns: seq<string>): string
    requires columns != []
  {
    JoinCommas(Spaced(seq(|columns|, i requires 0 <= i < |columns| => InQuotes(columns[i]))))
  }

  function Print(w: Write): Head
    requires |w.columns| == |w.exprs| > 0
  {
    match w
    case InsertValues(table, columns, exprs, tail) =>
      InsertHead(table, ColumnText(columns), " VALUES (" + JoinCommas(Spaced(exprs)) + ")" + tail)
    case InsertSelect(table, columns, exprs, from) =>
      InsertHead(table, ColumnText(columns), " SELECT " + JoinCommas(Spaced(exprs)) + " FROM " + from)
    case UpdateSet(table, columns, exprs, clause) =>
      var tail := if clause == "" then "" else " WHERE " + clause;
      UpdateHead(table, JoinCommas(Spaced(Assignments(columns, exprs))) + tail)
  }

  /** The expression the statement assigns to `id`, read off the syntax tree. */
  function AssignedId(w: Write): Option<Written>
    requires |w.columns| == |w.exprs|
  {
    match FirstIdColumn(w.columns)
    case None => None
    case Some(k) => Some(Written(w.table, w.exprs[k]))
  }

  function FirstIdColumn(columns: seq<string>): (k: Option<nat>)
    ensures k.Some? ==> k.value < |columns|
  {
    if columns == [] then None
    else if LowerAll(columns[0]) == "id" then Some(0)
    else Shift(FirstIdColumn(columns[1..]), 1)
  }
}
