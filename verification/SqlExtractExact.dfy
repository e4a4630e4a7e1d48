/**
 * Extraction is exact: printed from a syntax tree and scanned back, a statement
 * yields the very expression it assigns to `id`, unless a word the scanner cuts at
 * stands before its end.
 */
module SqlExtractExact {
  import opened Prelude
  import opened Strings
  import opened SqlLexer
  import opened SqlSplit
  import opened SqlExtract
  import opened SqlLists

  // ----------------------------------------------------------------- columns

  lemma {:induction false} UnquoteIdent(c: string, tail: string)
    requires forall i :: 0 <= i < |c| ==> c[i] != '"'
    ensures Unquote(c + tail) == c + Unquote(tail)
  {
    if c == "" {
      assert c + tail == tail;
    } else {
      assert (c + tail)[1..] == c[1..] + tail;
      UnquoteIdent(c[1..], tail);
      assert c == [c[0]] + c[1..];
    }
  }

  lemma UnquoteOnlyQuote()
    ensures Unquote("\"") == ""
  {
    var q := "\"";
    assert q[1..] == "";
  }

  lemma QuotedColumn(c: string)
    requires IsIdent(c)
    ensures WellFormed(InQuotes(c)) && Unquote(InQuotes(c)) == c
  {
    QuotedSelf(c);
    var q := InQuotes(c);
    assert q[1..] == c + "\"";
    UnquoteIdent(c, "\"");
    UnquoteOnlyQuote();
    QuotedStrayFree(c);
  }

  lemma {:induction false} InsideStrayFree(c: string)
    requires forall i :: 0 <= i < |c| ==> c[i] != '"'
    ensures StrayFree(c, Lex(Double, 0)) && Run(c, Lex(Double, 0)) == Lex(Double, 0)
  {
    if c != "" {
      InsideStrayFree(c[1..]);
    }
  }

  lemma QuotedStrayFree(c: string)
    requires IsIdent(c)
    ensures StrayFree(InQuotes(c), TOP)
  {
    InsideStrayFree(c);
    var q := "\"";
    assert q[1..] == "";
    assert StrayFree(q, Lex(Double, 0));
    StrayFreeConcat(c, "\"", Lex(Double, 0));
    assert InQuotes(c)[1..] == c + "\"";
  }

  lemma {:induction false} SameIdIndex(parts: seq<string>, columns: seq<string>)
    requires |parts| == |columns|
    requires forall i :: 0 <= i < |parts| ==> ColumnName(parts[i]) == LowerAll(columns[i])
    ensures IdIndex(parts) == FirstIdColumn(columns)
  {
    if parts != [] {
      SameIdIndex(parts[1..], columns[1..]);
    }
  }

  lemma ColumnsReadBack(columns: seq<string>)
    requires columns != [] && forall i :: 0 <= i < |columns| ==> IsIdent(columns[i])
    ensures IdIndex(SplitTopLevel(ColumnText(columns))) == FirstIdColumn(columns)
  {
    var quoted := seq(|columns|, i requires 0 <= i < |columns| => InQuotes(columns[i]));
    forall i | 0 <= i < |columns| ensures WellFormed(quoted[i]) && Unquote(quoted[i]) == columns[i] {
      QuotedColumn(columns[i]);
    }
    SpacedSplits(quoted);
    SpacedParts(quoted);
    hide SplitTopLevel, WellFormed, Trim, Unquote, Spaced, SelfContained, StrayFree;
    forall i | 0 <= i < |columns| ensures ColumnName(Spaced(quoted)[i]) == LowerAll(columns[i]) {
    }
    SameIdIndex(Spaced(quoted), columns);
  }

  // ------------------------------------------------------------------ VALUES

  lemma TrimmedValues(body: string, tail: string) returns (rest: string, cut: nat)
    ensures cut <= |tail| && rest == "VALUES (" + body + ")" + tail[..cut]
    ensures Trim(" VALUES (" + body + ")" + tail) == rest
  {
    var p := "VALUES (" + body + ")";
    assert p[0] == 'V';
    cut := TrimEndKeeps(p, tail);
    rest := p + tail[..cut];
    var s := " VALUES (" + body + ")" + tail;
    assert s[1..] == p + tail;
    assert TrimStart(s) == p + tail;
  }

  lemma ValuesWord(rest: string)
    requires |rest| > 7 && rest[..8] == "VALUES ("
    ensures rest[7] == '(' && forall i :: 0 <= i < 7 ==> rest[i] != '('
    ensures HasPrefix(rest, "values")
  {
    var word := "VALUES (";
    forall i | 0 <= i < 8 ensures rest[i] == word[i] {
      assert rest[..8][i] == rest[i];
    }
    assert word[0] != '(' && word[1] != '(' && word[2] != '(' && word[3] != '(' && word[4] != '(' && word[5] != '(';
    var lower := "values";
    assert Lower(word[0]) == lower[0] && Lower(word[1]) == lower[1] && Lower(word[2]) == lower[2];
    assert Lower(word[3]) == lower[3] && Lower(word[4]) == lower[4] && Lower(word[5]) == lower[5];
  }

  lemma OpenParenAt(rest: string)
    requires |rest| > 7 && rest[..8] == "VALUES ("
    ensures Find(rest, "(") == Some(7) && HasPrefix(rest, "values")
  {
    hide Find, HasPrefix;
    ValuesWord(rest);
    assert rest[7..8] == "(";
    FindFirst(rest, "(", 7);
    var k := Find(rest, "(").value;
    assert rest[k..k + 1][0] == rest[k];
  }

  /** The tuple of a printed VALUES. */
  lemma ValuesTuple(table: string, rest: string, body: string, more: string, k: nat)
    requires rest == "VALUES (" + body + ")" + more && StrayFree(body, TOP) && Run(body, TOP) == TOP
    ensures HasPrefix(rest, "values") && FromValues(table, rest, k) == Pick(table, SplitTopLevel(body), k)
  {
    hide SplitTopLevel, StrayFree, Run, Balanced, Find, HasPrefix, Pick;
    assert rest[..8] == "VALUES (";
    OpenParenAt(rest);
    assert rest == "VALUES " + "(" + body + ")" + more;
    BalancedBody("VALUES ", body, more);
  }

  lemma PickItem(table: string, exprs: seq<string>, k: nat)
    requires k < |exprs| && WellFormed(exprs[k])
    ensures Pick(table, Spaced(exprs), k) == Some(Written(table, exprs[k]))
  {
    TrimTidy(exprs[k]);
    hide Trim;
  }

  lemma ValuesReadBack(table: string, exprs: seq<string>, tail: string, k: nat)
    requires k < |exprs| && forall i :: 0 <= i < |exprs| ==> WellFormed(exprs[i])
    ensures var rest := Trim(" VALUES (" + JoinCommas(Spaced(exprs)) + ")" + tail);
            HasPrefix(rest, "values") && FromValues(table, rest, k) == Some(Written(table, exprs[k]))
  {
    hide *;
    var body := JoinCommas(Spaced(exprs));
    SpacedSplits(exprs);
    PickItem(table, exprs, k);
    var rest, cut := TrimmedValues(body, tail);
    ValuesTuple(table, rest, body, tail[..cut], k);
  }

  // ------------------------------------------------------------------ SELECT

  /** What follows a text does not change the keywords in it, unless it continues a word. */
  lemma KeywordLocal(x: string, q: string, word: string)
    requires q == "" || !IsWordChar(q[0])
    requires forall k :: 0 <= k < |word| ==> 'a' <= word[k] <= 'z'
    ensures IsKeyword(x + q, word) == IsKeyword(x, word)
  {
    if |word| > |x| && q != "" && |word| <= |x + q| {
      assert (x + q)[|x|] == q[0] && 'a' <= word[|x|] <= 'z';
    }
    forall k | 0 <= k < |x| ensures (x + q)[k] == x[k] {
    }
  }

  lemma FromIsLocal(p: string, q: string)
    requires q == "" || !IsWordChar(q[0])
    ensures Local(p, q, StartsFrom())
  {
    forall k, c, st | 0 <= k < |p| ensures StartsFrom()(p[k..] + q, c, st) == StartsFrom()(p[k..], c, st) {
      KeywordLocal(p[k..], q, "from");
    }
  }

  /** A FROM at the top level ends the projection behind whitespace or a closing parenthesis, and there only. */
  lemma FromBehindIff(rest: string, prev: char)
    ensures FirstHit("FROM " + rest, prev, TOP, StartsFrom()) == Some(0) <==> IsSpace(prev) || prev == ')'
  {
    var s, lower := "FROM " + rest, "from";
    assert Lower(s[0]) == lower[0] && Lower(s[1]) == lower[1] && Lower(s[2]) == lower[2] && Lower(s[3]) == lower[3];
    assert IsKeyword(s, "from");
    if IsSpace(prev) || prev == ')' {
      HitHere(s, prev, TOP, StartsFrom());
    } else {
      HitStep(s, prev, TOP, StartsFrom());
    }
  }

  lemma SpaceFrom(q: string, prev: char)
    requires |q| >= 5 && q[..5] == " FROM" && (|q| > 5 ==> q[5] == ' ')
    ensures FirstHit(q, prev, TOP, StartsFrom()) == Some(1)
  {
    var word, lower, r := " FROM", "from", q[1..];
    forall i | 0 <= i < 5 ensures q[i] == word[i] {
      assert q[..5][i] == q[i];
    }
    assert Lower(r[0]) == lower[0] && Lower(r[1]) == lower[1] && Lower(r[2]) == lower[2] && Lower(r[3]) == lower[3];
    assert IsKeyword(r, "from") && IsSpace(q[0]);
    assert !IsKeyword(q, "from") by {
      assert Lower(q[0]) != lower[0];
    }
    assert StartsFrom()(r, q[0], TOP);
    HitHere(r, q[0], TOP, StartsFrom());
    HitStep(q, prev, TOP, StartsFrom());
  }

  lemma {:induction false} JoinMore(parts: seq<string>, more: string)
    requires parts != []
    ensures JoinCommas(parts) + more == JoinCommas(parts[|parts| - 1 := parts[|parts| - 1] + more])
  {
    if |parts| > 1 {
      var rest := parts[1..];
      var grown := rest[|rest| - 1 := rest[|rest| - 1] + more];
      JoinMore(rest, more);
      JoinFirst(parts[0], rest);
      JoinFirst(parts[0], grown);
      hide JoinCommas;
      assert parts == [parts[0]] + rest;
      assert parts[|parts| - 1 := parts[|parts| - 1] + more] == [parts[0]] + grown;
    }
  }

  /** The parts of a printed projection: the expressions, the last with its trailing space. */
  ghost function Projected(exprs: seq<string>): seq<string>
    requires exprs != []
  {
    var parts, n := Spaced(exprs), |exprs| - 1;
    parts[n := parts[n] + " "]
  }

  lemma ProjectedParts(exprs: seq<string>)
    requires exprs != [] && forall i :: 0 <= i < |exprs| ==> WellFormed(exprs[i])
    ensures forall p :: p in Projected(exprs) ==> SelfContained(p)
    ensures !Blank(Projected(exprs)[|exprs| - 1])
  {
    SpacedParts(exprs);
    var parts, n := Spaced(exprs), |exprs| - 1;
    assert parts[n] in parts;
    SpaceSelf(parts[n]);
    NotBlankMore(parts[n], " ");
    forall p | p in Projected(exprs) ensures SelfContained(p) {
      if p != parts[n] + " " {
        assert p in parts;
      }
    }
  }

  lemma ProjectedTrims(exprs: seq<string>, k: nat)
    requires k < |exprs| && WellFormed(exprs[k])
    ensures Projected(exprs)[k] != "" && Trim(Projected(exprs)[k]) == exprs[k]
  {
    TrimTidy(exprs[k]);
  }

  /** The printed projection splits back, and part `k` is expression `k`. */
  lemma ProjectionSplits(exprs: seq<string>, table: string, k: nat)
    requires k < |exprs| && forall i :: 0 <= i < |exprs| ==> WellFormed(exprs[i])
    ensures Pick(table, SplitTopLevel(JoinCommas(Spaced(exprs)) + " "), k) == Some(Written(table, exprs[k]))
  {
    hide SplitTopLevel, JoinCommas, SelfContained, StrayFree, Trim;
    ProjectedParts(exprs);
    ProjectedTrims(exprs, k);
    JoinMore(Spaced(exprs), " ");
    SplitOfJoined(Projected(exprs));
  }

  lemma NotBlankMore(p: string, more: string)
    requires !Blank(p)
    ensures !Blank(p + more)
  {
    var i :| 0 <= i < |p| && !IsSpace(p[i]);
    assert !IsSpace((p + more)[i]);
  }

  lemma TrimmedSelect(body: string, from: string) returns (rest: string, behind: string)
    requires body != ""
    ensures rest == "SELECT " + body + behind && Trim(" SELECT " + body + " FROM " + from) == rest
    ensures |behind| >= 5 && behind[..5] == " FROM" && (|behind| > 5 ==> behind[5] == ' ')
  {
    var p, tail := "SELECT " + body + " FROM", " " + from;
    assert p[|p| - 1] == 'M' && p[0] == 'S';
    var cut := TrimEndKeeps(p, tail);
    behind := " FROM" + tail[..cut];
    rest := "SELECT " + body + behind;
    assert rest == p + tail[..cut];
    var s := " SELECT " + body + " FROM " + from;
    assert s[1..] == p + tail;
    assert TrimStart(s) == p + tail;
  }

  lemma SelectWord(rest: string)
    requires |rest| > 6 && rest[..7] == "SELECT "
    ensures !HasPrefix(rest, "values") && HasPrefix(rest, "select") && rest[6] == ' '
  {
    var word, lower, other := "SELECT ", "select", "values";
    forall i | 0 <= i < 7 ensures rest[i] == word[i] {
      assert rest[..7][i] == rest[i];
    }
    assert Lower(rest[0]) == lower[0] && Lower(rest[1]) == lower[1] && Lower(rest[2]) == lower[2];
    assert Lower(rest[3]) == lower[3] && Lower(rest[4]) == lower[4] && Lower(rest[5]) == lower[5];
    assert Lower(rest[0]) != other[0];
  }

  lemma SelectHead(text: string)
    ensures FirstHit("SELECT " + text, ' ', TOP, StartsFrom()) == Shift(FirstHit(text, ' ', TOP, StartsFrom()), 7)
  {
    var p := "SELECT ";
    forall k | 0 <= k < 7 ensures Lower(p[k]) != 'f' {
    }
    NoWordFrom(p, text);
    PlainSelf(p);
    HitConcat(p, text, ' ', TOP, StartsFrom());
    hide FirstHit;
    assert Run(p, TOP) == TOP;
  }

  lemma NotFrom(s: string)
    requires s != "" && Lower(s[0]) != 'f'
    ensures !IsKeyword(s, "from")
  {
    var word := "from";
    assert word[0] == 'f';
  }

  lemma {:induction false} NoWordFrom(p: string, q: string)
    requires forall k :: 0 <= k < |p| ==> Lower(p[k]) != 'f'
    ensures Local(p, q, StartsFrom())
    ensures forall prev, st :: FirstHit(p, prev, st, StartsFrom()).None?
  {
    forall k, c, st | 0 <= k < |p| ensures !StartsFrom()(p[k..] + q, c, st) && !StartsFrom()(p[k..], c, st) {
      NotFrom(p[k..] + q);
      NotFrom(p[k..]);
    }
    forall prev, st ensures FirstHit(p, prev, st, StartsFrom()).None? {
      if p != "" {
        assert p[0..] == p && !StartsFrom()(p[0..], prev, st);
        NoWordFrom(p[1..], q);
      }
    }
  }

  lemma FromItem(e: string)
    requires WellFormed(e)
    ensures ItemOf(StartsFrom(), e)
  {
    hide WellFormed;
    forall q | q == "" || q[0] == ',' || q[0] == ' ' ensures Local(e, q, StartsFrom()) {
      FromIsLocal(e, q);
    }
    forall q, c ensures !StartsFrom()(", " + e + q, c, TOP) && !StartsFrom()(" " + e + q, c, TOP) {
      NotFrom(", " + e + q);
      NotFrom(" " + e + q);
    }
  }

  lemma FromItems(exprs: seq<string>)
    requires forall i :: 0 <= i < |exprs| ==> WellFormed(exprs[i])
    ensures ItemsOf(StartsFrom(), exprs) && AtTop(StartsFrom())
  {
    forall i | 0 <= i < |exprs| ensures ItemOf(StartsFrom(), exprs[i]) {
      FromItem(exprs[i]);
    }
    hide ItemOf, WellFormed;
  }

  /** `replace(/^SELECT\s+/i, '')` on a projection of the printed form. */
  lemma DropSelectWord(list: string)
    requires list == "" || !IsSpace(list[0])
    ensures AfterSelect("SELECT " + list) == list
  {
    var word, lower := "SELECT ", "select";
    var s := word + list;
    forall i | 0 <= i < 7 ensures s[i] == word[i] {
    }
    assert Lower(s[0]) == lower[0] && Lower(s[1]) == lower[1] && Lower(s[2]) == lower[2];
    assert Lower(s[3]) == lower[3] && Lower(s[4]) == lower[4] && Lower(s[5]) == lower[5];
    assert s[6..] == " " + list;
    assert (" " + list)[1..] == list && TrimStart(list) == list;
    assert forall k :: 0 <= k < 6 ==> Lower(s[k]) == "select"[k];
  }

  /** The list the scanner reads off a printed projection. */
  lemma QuietProjection(exprs: seq<string>, behind: string)
    requires exprs != [] && (forall i :: 0 <= i < |exprs| ==> WellFormed(exprs[i])) && Quiet(exprs, StartsFrom())
    requires |behind| >= 5 && behind[..5] == " FROM" && (|behind| > 5 ==> behind[5] == ' ')
    ensures SelectList("SELECT " + (JoinCommas(Spaced(exprs)) + behind)) == JoinCommas(Spaced(exprs)) + " "
  {
    var body := JoinCommas(Spaced(exprs));
    hide *;
    FromItems(exprs);
    FirstOfList(exprs);
    assert behind[..5][0] == behind[0];
    assert Separates(behind) by { SpaceSeparates(behind); }
    QuietList(exprs, behind, StartsFrom());
    SpaceFrom(behind, LastChar(body, ' '));
    assert Shift(Some(1), |body|) == Some(|body| + 1) by { OneOn(|body|); }
    CutIs(body + behind, body + " ");
    CutText(body + behind, body + " ");
  }

  lemma OneOn(n: nat)
    ensures Shift(Some(1), n) == Some(n + 1)
  {
  }

  lemma CutIs(text: string, list: string)
    requires FirstHit(text, ' ', TOP, StartsFrom()) == Some(|list|) && |list| <= |text| && text[..|list|] == list
    ensures CutAt(text, list, StartsFrom())
  {
  }

  lemma CutProjection(exprs: seq<string>, behind: string)
    requires exprs != [] && (forall i :: 0 <= i < |exprs| ==> WellFormed(exprs[i])) && !Quiet(exprs, StartsFrom())
    requires behind != "" && behind[0] == ' '
    ensures SelectList("SELECT " + (JoinCommas(Spaced(exprs)) + behind))
      == JoinCommas(Spaced(CutList(exprs, StartsFrom())))
  {
    var text, list := JoinCommas(Spaced(exprs)) + behind, JoinCommas(Spaced(CutList(exprs, StartsFrom())));
    FirstOfList(exprs);
    assert text[0] == JoinCommas(Spaced(exprs))[0] && !IsSpace(text[0]);
    hide *;
    FromItems(exprs);
    assert Separates(behind) by { SpaceSeparates(behind); }
    ListCut(exprs, behind, StartsFrom());
    CutText(text, list);
  }

  lemma SpaceSeparates(q: string)
    requires q != "" && q[0] == ' '
    ensures Separates(q)
  {
  }

  /** The projection read off a text the scanner cuts. */
  lemma CutText(text: string, list: string)
    requires text != "" && !IsSpace(text[0]) && CutAt(text, list, StartsFrom())
    ensures SelectList("SELECT " + text) == list
  {
    hide FirstHit, StartsFrom, IsSpace, AfterSelect;
    SelectHead(text);
    var h := FirstHit(text, ' ', TOP, StartsFrom()).value;
    assert ("SELECT " + text)[..h + 7] == "SELECT " + list;
    assert list != "" ==> list[0] == text[0];
    DropSelectWord(list);
  }

  /** From a printed SELECT the expression is read whole exactly if no FROM stands loose before its end. */
  lemma SelectReadBack(table: string, exprs: seq<string>, from: string, k: nat)
    requires k < |exprs| && forall i :: 0 <= i < |exprs| ==> WellFormed(exprs[i])
    ensures var rest := Trim(" SELECT " + JoinCommas(Spaced(exprs)) + " FROM " + from);
      && !HasPrefix(rest, "values") && HasPrefix(rest, "select") && |rest| > 6 && IsSpace(rest[6])
      && (Pick(table, SplitTopLevel(SelectList(rest)), k) == Some(Written(table, exprs[k]))
          <==> Quiet(exprs[..k + 1], StartsFrom()))
      && (!Quiet(exprs[..k], StartsFrom()) ==> Pick(table, SplitTopLevel(SelectList(rest)), k) == None)
  {
    var body := JoinCommas(Spaced(exprs));
    hide *;
    FirstOfList(exprs);
    var rest, behind := TrimmedSelect(body, from);
    assert rest[..7] == "SELECT ";
    SelectWord(rest);
    assert IsSpace(' ') by { SpaceIsSpace(); }
    assert rest == "SELECT " + (body + behind);
    ListReadBack(table, exprs, behind, k);
  }

  lemma SpaceIsSpace()
    ensures IsSpace(' ')
  {
  }

  lemma ListReadBack(table: string, exprs: seq<string>, behind: string, k: nat)
    requires k < |exprs| && forall i :: 0 <= i < |exprs| ==> WellFormed(exprs[i])
    requires |behind| >= 5 && behind[..5] == " FROM" && (|behind| > 5 ==> behind[5] == ' ')
    ensures var list := SelectList("SELECT " + (JoinCommas(Spaced(exprs)) + behind));
      && (Pick(table, SplitTopLevel(list), k) == Some(Written(table, exprs[k]))
          <==> Quiet(exprs[..k + 1], StartsFrom()))
      && (!Quiet(exprs[..k], StartsFrom()) ==> Pick(table, SplitTopLevel(list), k) == None)
  {
    assert behind[..5][0] == behind[0];
    if Quiet(exprs, StartsFrom()) {
      assert forall i :: 0 <= i <= k ==> exprs[..k + 1][i] == exprs[i];
      assert Quiet(exprs[..k + 1], StartsFrom()) && Quiet(exprs[..k], StartsFrom());
      hide *;
      QuietProjection(exprs, behind);
      ProjectionSplits(exprs, table, k);
    } else {
      hide *;
      FromItems(exprs);
      CutProjection(exprs, behind);
      CutPick(table, exprs, StartsFrom(), k);
    }
  }

  lemma FirstOfList(items: seq<string>)
    requires items != [] && WellFormed(items[0])
    ensures var body := JoinCommas(Spaced(items)); body != "" && body[0] == items[0][0] && !IsSpace(body[0])
  {
    assert Spaced(items)[0] == items[0];
  }

  // ------------------------------------------------------------------ UPDATE

  lemma {:induction false} TrimStartLocal(x: string, q: string)
    requires !Blank(x)
    ensures TrimStart(x + q) == TrimStart(x) + q
  {
    assert x != "";
    if IsSpace(x[0]) {
      assert (x + q)[1..] == x[1..] + q;
      assert !Blank(x[1..]) by {
        var i :| 0 <= i < |x| && !IsSpace(x[i]);
        assert x[1..][i - 1] == x[i];
      }
      TrimStartLocal(x[1..], q);
    }
  }

  lemma ClauseIsLocal(p: string, q: string)
    requires p != "" && !IsSpace(p[|p| - 1]) && (q == "" || !IsWordChar(q[0]))
    ensures Local(p, q, StartsClause())
  {
    forall k, c, st | 0 <= k < |p| ensures StartsClause()(p[k..] + q, c, st) == StartsClause()(p[k..], c, st) {
      var x := p[k..];
      assert !IsSpace(x[|x| - 1]);
      TrimStartLocal(x, q);
      KeywordLocal(TrimStart(x), q, "where");
      KeywordLocal(TrimStart(x), q, "returning");
    }
  }

  lemma SpaceWhere(clause: string, prev: char)
    ensures FirstHit(" WHERE " + clause, prev, TOP, StartsClause()) == Some(0)
  {
    var q, r, word, lower := " WHERE " + clause, "WHERE " + clause, "WHERE ", "where";
    assert q[1..] == r && TrimStart(q) == r;
    forall i | 0 <= i < 6 ensures r[i] == word[i] {
    }
    assert Lower(r[0]) == lower[0] && Lower(r[1]) == lower[1] && Lower(r[2]) == lower[2];
    assert Lower(r[3]) == lower[3] && Lower(r[4]) == lower[4];
    assert IsKeyword(r, "where");
    assert StartsClause()(q, prev, TOP);
    HitHere(q, prev, TOP, StartsClause());
  }

  lemma SpaceReturning(more: string, prev: char)
    ensures FirstHit(" RETURNING " + more, prev, TOP, StartsClause()) == Some(0)
  {
    var q, r, word := " RETURNING " + more, "RETURNING " + more, "RETURNING ";
    assert q[1..] == r && TrimStart(q) == r;
    ReturningWord(r, more);
    assert StartsClause()(q, prev, TOP);
    hide FirstHit, StartsClause;
    HitHere(q, prev, TOP, StartsClause());
  }

  lemma ReturningWord(r: string, more: string)
    requires r == "RETURNING " + more
    ensures IsKeyword(r, "returning")
  {
    var word, lower := "RETURNING ", "returning";
    forall i | 0 <= i < 10 ensures r[i] == word[i] {
    }
    assert Lower(r[0]) == lower[0] && Lower(r[1]) == lower[1] && Lower(r[2]) == lower[2] && Lower(r[3]) == lower[3];
    assert Lower(r[4]) == lower[4] && Lower(r[5]) == lower[5] && Lower(r[6]) == lower[6] && Lower(r[7]) == lower[7];
    assert Lower(r[8]) == lower[8];
  }

  /** A RETURNING behind a SET list without a loose clause word ends it just as a WHERE does. */
  lemma ReturningEnds(columns: seq<string>, exprs: seq<string>, more: string)
    requires |columns| == |exprs| > 0 && forall i :: 0 <= i < |columns| ==> IsIdent(columns[i]) && WellFormed(exprs[i])
    requires Quiet(Assignments(columns, exprs), StartsClause())
    ensures var body := JoinCommas(Spaced(Assignments(columns, exprs)));
      Before(body + (" RETURNING " + more), StartsClause()) == body
  {
    var items, q := Assignments(columns, exprs), " RETURNING " + more;
    assert items != [] && q[0] == ' ';
    var body := JoinCommas(Spaced(items));
    hide *;
    ClauseItems(columns, exprs);
    SpaceSeparates(q);
    QuietList(items, q, StartsClause());
    SpaceReturning(more, LastChar(body, ' '));
    PassedTo(body, q);
  }

  lemma PassedTo(body: string, q: string)
    requires Passes(body, q, StartsClause()) && FirstHit(q, LastChar(body, ' '), TOP, StartsClause()) == Some(0)
    ensures Before(body + q, StartsClause()) == body
  {
    hide FirstHit, StartsClause;
    assert (body + q)[..|body|] == body;
  }

  function Assign(c: string, e: string): string {
    InQuotes(c) + " = " + e
  }

  lemma AssignWellFormed(c: string, e: string)
    requires IsIdent(c) && WellFormed(e)
    ensures WellFormed(Assign(c, e))
  {
    QuotedColumn(c);
    PlainSelf(" = ");
    var eq := " = ";
    assert eq == " " + "= ";
    SelfConcat(InQuotes(c), eq);
    SelfConcat(InQuotes(c) + eq, e);
    PlainStrayFree(eq);
    StrayFreeConcat(InQuotes(c), eq, TOP);
    RunConcat(InQuotes(c), eq, TOP);
    StrayFreeConcat(InQuotes(c) + eq, e, TOP);
    assert Assign(c, e)[0] == '"' && Assign(c, e)[|Assign(c, e)| - 1] == e[|e| - 1];
  }

  /** The pattern behind the opening quote: `id`, the closing quote, `=`. */
  lemma MatchesId(c: string, e: string)
    requires IsIdent(c) && WellFormed(e) && LowerAll(c) == "id"
    ensures MatchId(Assign(c, e)) == Some(e)
  {
    var a := Assign(c, e);
    var b, lower := c + "\" = " + e, "id";
    assert a[0] == '"' && a[1..] == b;
    assert |c| == |LowerAll(c)| == 2;
    assert Lower(b[0]) == LowerAll(c)[0] && Lower(b[1]) == LowerAll(c)[1];
    assert HasPrefix(b, "id");
    var tail := "\" = " + e;
    assert b[2..] == tail && tail[0] == '"' && tail[1..] == " = " + e;
    TrimEquals(e);
  }

  lemma TrimEquals(e: string)
    requires WellFormed(e)
    ensures TrimStart(" = " + e) == "= " + e && Trim(("= " + e)[1..]) == e
  {
    var d := "= " + e;
    assert (" = " + e)[1..] == d;
    assert d[1..] == " " + e;
    TrimTidy(e);
  }

  lemma MatchesNothingElse(c: string, e: string)
    requires IsIdent(c) && LowerAll(c) != "id"
    ensures MatchId(Assign(c, e)) == None
  {
    var a := Assign(c, e);
    var b, lower := c + "\" = " + e, "id";
    assert a[0] == '"' && a[1..] == b;
    assert |c| == 1 ==> b[1] == '"';
    assert |c| == 2 && Lower(c[0]) == 'i' && Lower(c[1]) == 'd' ==> LowerAll(c) == lower;
    if HasPrefix(b, "id") {
      assert Lower(b[0]) == lower[0] && Lower(b[1]) == lower[1];
      assert |c| > 2;
      assert b[2..][0] == c[2] && IsWordChar(c[2]);
      assert TrimStart(b[2..]) == b[2..];
    }
  }

  lemma MatchSpaced(a: string)
    requires a != "" && !IsSpace(a[0])
    ensures MatchId(" " + a) == MatchId(a)
  {
    assert (" " + a)[1..] == a;
    assert TrimStart(" " + a) == a == TrimStart(a);
  }

  lemma {:induction false} FirstIdIs(table: string, parts: seq<string>, columns: seq<string>, exprs: seq<string>)
    requires |parts| == |columns| == |exprs|
    requires forall i :: 0 <= i < |parts| ==>
      MatchId(parts[i]) == if LowerAll(columns[i]) == "id" then Some(exprs[i]) else None
    ensures FirstId(table, parts) ==
            match FirstIdColumn(columns) case None => None case Some(k) => Some(Written(table, exprs[k]))
  {
    if parts != [] {
      FirstIdIs(table, parts[1..], columns[1..], exprs[1..]);
    }
  }

  lemma AssignmentsMatch(columns: seq<string>, exprs: seq<string>, i: nat)
    requires i < |columns| == |exprs| && IsIdent(columns[i]) && WellFormed(exprs[i])
    ensures MatchId(Spaced(Assignments(columns, exprs))[i])
      == if LowerAll(columns[i]) == "id" then Some(exprs[i]) else None
  {
    var c, e := columns[i], exprs[i];
    assert Assignments(columns, exprs)[i] == Assign(c, e);
    assert Assign(c, e)[0] == '"';
    MatchSpaced(Assign(c, e));
    if LowerAll(c) == "id" {
      MatchesId(c, e);
    } else {
      MatchesNothingElse(c, e);
    }
  }

  lemma NotClause(s: string, c: char, st: Lex)
    requires s == "" || !IsSpace(s[0]) || (|s| > 1 && s[0] == ' ' && (s[1] == '=' || s[1] == '"'))
    ensures !StartsClause()(s, c, st)
  {
    if s != "" && IsSpace(s[0]) {
      assert TrimStart(s) == s[1..];
      var w, r := "where", "returning";
      assert Lower(s[1]) != w[0] && Lower(s[1]) != r[0];
    }
  }

  lemma {:induction false} NoClauseIn(p: string, q: string)
    requires forall k :: 0 <= k < |p| && IsSpace(p[k]) ==> p[k] == ' ' && k + 1 < |p| && p[k + 1] == '='
    ensures Local(p, q, StartsClause())
    ensures forall prev, st :: FirstHit(p, prev, st, StartsClause()).None?
    decreases |p|
  {
    forall k, c, st | 0 <= k < |p| ensures !StartsClause()(p[k..] + q, c, st) && !StartsClause()(p[k..], c, st) {
      NotClause(p[k..] + q, c, st);
      NotClause(p[k..], c, st);
    }
    hide StartsClause;
    forall prev, st ensures FirstHit(p, prev, st, StartsClause()).None? {
      if p != "" {
        assert p[0..] == p && !StartsClause()(p[0..], prev, st);
        NoClauseIn(p[1..], q);
      }
    }
  }

  /** The hits of a printed assignment are those of its expression behind the space. */
  lemma AssignHits(c: string, e: string)
    requires IsIdent(c)
    ensures FirstHit(Assign(c, e), ' ', TOP, StartsClause())
      == Shift(FirstHit(" " + e, '=', TOP, StartsClause()), |c| + 4)
  {
    var p, q := InQuotes(c) + " =", " " + e;
    assert Assign(c, e) == p + q && |p| == |c| + 4 && LastChar(p, ' ') == '=';
    assert forall k :: 0 <= k < |c| ==> p[k + 1] == c[k] && IsWordChar(c[k]);
    forall k | 0 <= k < |p| && IsSpace(p[k]) ensures p[k] == ' ' && k + 1 < |p| && p[k + 1] == '=' {
      assert k == 0 || k > |c| || IsWordChar(p[k - 1 + 1]);
    }
    NoClauseIn(p, q);
    QuotedSelf(c);
    PlainSelf(" =");
    RunConcat(InQuotes(c), " =", TOP);
    hide FirstHit, Local, StartsClause, InQuotes, Assign;
    HitConcat(p, q, ' ', TOP, StartsClause());
  }

  lemma ClauseItem(c: string, e: string)
    requires IsIdent(c) && WellFormed(e)
    ensures ItemOf(StartsClause(), Assign(c, e))
  {
    var a := Assign(c, e);
    AssignWellFormed(c, e);
    assert a != "" && a[0] == '"' && !IsSpace(a[|a| - 1]);
    hide Assign, WellFormed, StartsClause;
    forall q | q == "" || q[0] == ',' || q[0] == ' ' ensures Local(a, q, StartsClause()) {
      ClauseIsLocal(a, q);
    }
    forall q, d ensures !StartsClause()(", " + a + q, d, TOP) && !StartsClause()(" " + a + q, d, TOP) {
      NotClause(", " + a + q, d, TOP);
      NotClause(" " + a + q, d, TOP);
    }
  }

  lemma ClauseItems(columns: seq<string>, exprs: seq<string>)
    requires |columns| == |exprs| && forall i :: 0 <= i < |columns| ==> IsIdent(columns[i]) && WellFormed(exprs[i])
    ensures ItemsOf(StartsClause(), Assignments(columns, exprs)) && AtTop(StartsClause())
  {
    forall i | 0 <= i < |columns| ensures ItemOf(StartsClause(), Assignments(columns, exprs)[i]) {
      ClauseItem(columns[i], exprs[i]);
      assert Assignments(columns, exprs)[i] == Assign(columns[i], exprs[i]);
    }
    hide ItemOf, WellFormed, Assign;
  }

  /** The text the scanner takes for the SET list. */
  lemma SetList(items: seq<string>, clause: string)
    requires items != [] && ItemsOf(StartsClause(), items)
    ensures var text := JoinCommas(Spaced(items)) + if clause == "" then "" else " WHERE " + clause;
      Before(text, StartsClause())
      == JoinCommas(Spaced(if Quiet(items, StartsClause()) then items else CutList(items, StartsClause())))
  {
    var body, q := JoinCommas(Spaced(items)), if clause == "" then "" else " WHERE " + clause;
    hide Spaced, JoinCommas, ItemsOf, Quiet, CutList;
    if Quiet(items, StartsClause()) {
      QuietList(items, q, StartsClause());
      if clause == "" {
        assert body + q == body && FirstHit(q, LastChar(body, ' '), TOP, StartsClause()).None?;
      } else {
        SpaceWhere(clause, LastChar(body, ' '));
        assert (body + q)[..|body|] == body;
      }
    } else {
      ListCut(items, q, StartsClause());
    }
  }

  lemma MatchesNoId(c: string, rest: string)
    requires IsIdent(c) && LowerAll(c) != "id"
    ensures MatchId(InQuotes(c) + rest) == None
  {
    var a, b, lower := InQuotes(c) + rest, c + "\"" + rest, "id";
    assert a[0] == '"' && a[1..] == b;
    assert |c| == 1 ==> b[1] == '"';
    assert |c| == 2 && Lower(c[0]) == 'i' && Lower(c[1]) == 'd' ==> LowerAll(c) == lower;
    if HasPrefix(b, "id") {
      assert Lower(b[0]) == lower[0] && Lower(b[1]) == lower[1];
      assert |c| > 2;
      assert b[2..][0] == c[2] && IsWordChar(c[2]);
      assert TrimStart(b[2..]) == b[2..];
    }
  }

  lemma MatchAfterId(c: string, behind: string)
    requires IsIdent(c) && LowerAll(c) == "id" && (behind == "" || IsSpace(behind[0]))
    ensures MatchId(InQuotes(c) + (" =" + behind)) == if behind == "" then None else Some(Trim(behind))
  {
    var rest := " =" + behind;
    IdHead(c, rest);
    SetsTo(behind);
    hide TrimStart, HasPrefix, Trim;
  }

  lemma IdHead(c: string, rest: string)
    requires IsIdent(c) && LowerAll(c) == "id"
    ensures var a := InQuotes(c) + rest; var b := a[1..];
      && a != "" && TrimStart(a) == a && a[0] == '"' && HasPrefix(b, "id")
      && |b| > 2 && b[2..] != "" && b[2..][0] == '"' && b[2..][1..] == rest
  {
    var b := c + "\"" + rest;
    assert InQuotes(c) + rest == "\"" + b;
    assert (InQuotes(c) + rest)[1..] == b && |c| == |LowerAll(c)| == 2;
    assert Lower(b[0]) == LowerAll(c)[0] && Lower(b[1]) == LowerAll(c)[1];
    assert b[2..] == "\"" + rest && b[2..][1..] == rest;
  }

  lemma SetsTo(behind: string)
    ensures TrimStart(" =" + behind) == "=" + behind && ("=" + behind)[1..] == behind
  {
    assert (" =" + behind)[1..] == "=" + behind;
  }

  /** A cut assignment never yields the whole expression. */
  lemma CutMatches(c: string, e: string, h: nat)
    requires IsIdent(c) && WellFormed(e) && h <= |e|
    ensures MatchId(InQuotes(c) + (" =" + (" " + e)[..h])) != Some(e)
    ensures LowerAll(c) != "id" ==> MatchId(InQuotes(c) + (" =" + (" " + e)[..h])) == None
  {
    var behind := (" " + e)[..h];
    hide MatchId, WellFormed, Trim, LowerAll, IsIdent;
    if LowerAll(c) != "id" {
      MatchesNoId(c, " =" + behind);
    } else {
      MatchAfterId(c, behind);
      if h > 0 {
        TrimShorter(e[..h - 1]);
        assert behind == " " + e[..h - 1];
      }
    }
  }

  /** The parts are the assignments of the first columns, the last one cut. */
  predicate CutParts(parts: seq<string>, columns: seq<string>, exprs: seq<string>) {
    var n := |parts| - 1;
    && 0 <= n < |columns| == |exprs|
    && (forall i :: 0 <= i < n ==>
          MatchId(parts[i]) == if LowerAll(columns[i]) == "id" then Some(exprs[i]) else None)
    && MatchId(parts[n]) != Some(exprs[n]) && (LowerAll(columns[n]) != "id" ==> MatchId(parts[n]) == None)
  }

  lemma {:induction false} FirstIdSeen(table: string, parts: seq<string>, columns: seq<string>, exprs: seq<string>)
    requires CutParts(parts, columns, exprs)
    ensures match FirstIdColumn(columns)
      case None => FirstId(table, parts) == None
      case Some(k) => FirstId(table, parts) == Some(Written(table, exprs[k])) <==> k < |parts| - 1
  {
    hide MatchId;
    if |parts| == 1 {
      assert parts[1..] == [];
    } else {
      FirstIdSeen(table, parts[1..], columns[1..], exprs[1..]);
    }
  }

  predicate NoClause(exprs: seq<string>) {
    forall i :: 0 <= i < |exprs| ==> FirstHit(" " + exprs[i], '=', TOP, StartsClause()).None?
  }

  lemma QuietAssignments(columns: seq<string>, exprs: seq<string>, n: nat)
    requires |columns| == |exprs| && n <= |exprs| && forall i :: 0 <= i < |columns| ==> IsIdent(columns[i])
    ensures Quiet(Assignments(columns, exprs)[..n], StartsClause()) <==> NoClause(exprs[..n])
  {
    hide FirstHit;
    forall i | 0 <= i < n
      ensures FirstHit(Assignments(columns, exprs)[..n][i], ' ', TOP, StartsClause()).None?
         <==> FirstHit(" " + exprs[..n][i], '=', TOP, StartsClause()).None?
    {
      AssignHits(columns[i], exprs[i]);
      assert Assignments(columns, exprs)[i] == Assign(columns[i], exprs[i]);
    }
  }

  /** What is left of an assignment cut inside, in first place or behind a separator. */
  lemma CutAssign(c: string, e: string, cut: string)
    requires IsIdent(c) && WellFormed(e) && FirstHit(Assign(c, e), ' ', TOP, StartsClause()).Some?
    requires cut == Assign(c, e)[..FirstHit(Assign(c, e), ' ', TOP, StartsClause()).value]
    ensures MatchId(cut) != Some(e) && (LowerAll(c) != "id" ==> MatchId(cut) == None)
    ensures MatchId(" " + cut) == MatchId(cut) && !Blank(cut) && !Blank(" " + cut)
  {
    AssignHits(c, e);
    var h := FirstHit(" " + e, '=', TOP, StartsClause()).value;
    assert Assign(c, e) == InQuotes(c) + (" =" + (" " + e));
    assert cut == InQuotes(c) + (" =" + (" " + e)[..h]) && cut[0] == '"';
    hide FirstHit, MatchId, LowerAll, WellFormed, Assign, StartsClause;
    CutMatches(c, e, h);
    MatchSpaced(cut);
    assert !IsSpace(cut[0]) && (" " + cut)[1] == cut[0];
  }

  lemma CutSetParts(columns: seq<string>, exprs: seq<string>, n: nat, cut: seq<string>)
    requires |columns| == |exprs| && forall i :: 0 <= i < |columns| ==> IsIdent(columns[i]) && WellFormed(exprs[i])
    requires n < |columns| && |cut| == n + 1 && cut[..n] == Assignments(columns, exprs)[..n]
    requires FirstHit(Assignments(columns, exprs)[n], ' ', TOP, StartsClause()).Some?
    requires var item := Assignments(columns, exprs)[n];
      cut[n] == item[..FirstHit(item, ' ', TOP, StartsClause()).value]
    ensures CutParts(Spaced(cut), columns, exprs) && !Blank(Spaced(cut)[n])
  {
    AssignedAt(columns, exprs, n);
    hide *;
    CutAssign(columns[n], exprs[n], cut[n]);
    SpacedAt(cut, n);
    forall i | 0 <= i < n
      ensures MatchId(Spaced(cut)[i]) == if LowerAll(columns[i]) == "id" then Some(exprs[i]) else None
    {
      SpacedSame(cut, Assignments(columns, exprs), n, i);
      AssignmentsMatch(columns, exprs, i);
    }
    CutPartsHold(Spaced(cut), columns, exprs);
  }

  lemma AssignedAt(columns: seq<string>, exprs: seq<string>, n: nat)
    requires |columns| == |exprs| && n < |columns|
    ensures |Assignments(columns, exprs)| == |columns| && Assignments(columns, exprs)[n] == Assign(columns[n], exprs[n])
  {
  }

  lemma SpacedAt(parts: seq<string>, n: nat)
    requires n < |parts|
    ensures |Spaced(parts)| == |parts| && (Spaced(parts)[n] == parts[n] || Spaced(parts)[n] == " " + parts[n])
  {
  }

  lemma SpacedSame(cut: seq<string>, items: seq<string>, n: nat, i: nat)
    requires i < n < |cut| <= |items| && cut[..n] == items[..n]
    ensures |Spaced(cut)| == |cut| && |Spaced(items)| == |items| && Spaced(cut)[i] == Spaced(items)[i]
  {
    assert cut[i] == cut[..n][i] == items[..n][i];
  }

  lemma CutPartsHold(parts: seq<string>, columns: seq<string>, exprs: seq<string>)
    requires var n := |parts| - 1;
      && 0 <= n < |columns| == |exprs|
      && (forall i :: 0 <= i < n ==>
            MatchId(parts[i]) == if LowerAll(columns[i]) == "id" then Some(exprs[i]) else None)
      && MatchId(parts[n]) != Some(exprs[n]) && (LowerAll(columns[n]) != "id" ==> MatchId(parts[n]) == None)
    ensures CutParts(parts, columns, exprs)
  {
    hide MatchId, LowerAll;
  }

  /** What a cut SET list yields for `id`. */
  lemma CutSet(table: string, columns: seq<string>, exprs: seq<string>)
    requires |columns| == |exprs| && forall i :: 0 <= i < |columns| ==> IsIdent(columns[i]) && WellFormed(exprs[i])
    requires !Quiet(Assignments(columns, exprs), StartsClause())
    ensures var cut := CutList(Assignments(columns, exprs), StartsClause());
      YieldsIff(FirstId(table, SplitTopLevel(JoinCommas(Spaced(cut)))), table, columns, exprs)
  {
    var items, hit := Assignments(columns, exprs), StartsClause();
    hide *;
    ClauseItems(columns, exprs);
    CutItems(items, hit);
    CutSplits(items, hit);
    CutYields(table, columns, exprs, CutList(items, hit), SplitTopLevel(JoinCommas(Spaced(CutList(items, hit)))));
  }

  /** Nothing if `id` is not set, and its expression exactly if no clause word stands loose before its end. */
  predicate YieldsIff(seen: Option<Written>, table: string, columns: seq<string>, exprs: seq<string>)
    requires |columns| == |exprs|
  {
    match FirstIdColumn(columns)
    case None => seen == None
    case Some(k) => seen == Some(Written(table, exprs[k])) <==> NoClause(exprs[..k + 1])
  }

  lemma CutYields(table: string, columns: seq<string>, exprs: seq<string>, cut: seq<string>, parts: seq<string>)
    requires |columns| == |exprs| && forall i :: 0 <= i < |columns| ==> IsIdent(columns[i]) && WellFormed(exprs[i])
    requires cut != [] && CutsOff(cut, Assignments(columns, exprs), StartsClause())
    requires parts == SansBlank(Spaced(cut))
    ensures YieldsIff(FirstId(table, parts), table, columns, exprs)
  {
    hide *;
    var items, hit := Assignments(columns, exprs), StartsClause();
    var n := |cut| - 1;
    CutsOffGives(cut, items, hit);
    CutSetParts(columns, exprs, n, cut);
    Unblanked(Spaced(cut));
    FirstIdSeen(table, parts, columns, exprs);
    Yields(FirstId(table, parts), table, columns, exprs, n);
  }

  lemma Unblanked(parts: seq<string>)
    requires parts != [] && !Blank(parts[|parts| - 1])
    ensures SansBlank(parts) == parts
  {
  }

  /** The column before the cut is the one whose assignments up to it are free of clause words. */
  lemma Yields(seen: Option<Written>, table: string, columns: seq<string>, exprs: seq<string>, n: nat)
    requires |columns| == |exprs| && forall i :: 0 <= i < |columns| ==> IsIdent(columns[i])
    requires var items, hit := Assignments(columns, exprs), StartsClause();
      n < |items| && Quiet(items[..n], hit) && FirstHit(items[n], ' ', TOP, hit).Some?
    requires match FirstIdColumn(columns)
      case None => seen == None
      case Some(k) => seen == Some(Written(table, exprs[k])) <==> k < n
    ensures YieldsIff(seen, table, columns, exprs)
  {
    hide Quiet, FirstHit, StartsClause, NoClause, IsIdent, Assignments, FirstIdColumn;
    if FirstIdColumn(columns).Some? {
      var k := FirstIdColumn(columns).value;
      CutBeyond(Assignments(columns, exprs), StartsClause(), n, k);
      QuietAssignments(columns, exprs, k + 1);
    }
  }

  lemma QuietSet(table: string, columns: seq<string>, exprs: seq<string>)
    requires |columns| == |exprs| > 0 && forall i :: 0 <= i < |columns| ==> IsIdent(columns[i]) && WellFormed(exprs[i])
    ensures FirstId(table, SplitTopLevel(JoinCommas(Spaced(Assignments(columns, exprs)))))
         == match FirstIdColumn(columns) case None => None case Some(k) => Some(Written(table, exprs[k]))
  {
    var items := Assignments(columns, exprs);
    forall i | 0 <= i < |items| ensures WellFormed(items[i]) {
      AssignWellFormed(columns[i], exprs[i]);
      assert items[i] == Assign(columns[i], exprs[i]);
    }
    hide WellFormed, SplitTopLevel, JoinCommas, MatchId, LowerAll;
    SpacedSplits(items);
    forall i | 0 <= i < |items|
      ensures MatchId(Spaced(items)[i]) == if LowerAll(columns[i]) == "id" then Some(exprs[i]) else None
    {
      AssignmentsMatch(columns, exprs, i);
    }
    FirstIdIs(table, Spaced(items), columns, exprs);
  }

  /** From a printed UPDATE the expression is read whole exactly if no clause word stands loose before its end. */
  lemma UpdateReadBack(table: string, columns: seq<string>, exprs: seq<string>, clause: string)
    requires |columns| == |exprs| > 0 && forall i :: 0 <= i < |columns| ==> IsIdent(columns[i]) && WellFormed(exprs[i])
    ensures YieldsIff(WrittenId(Print(UpdateSet(table, columns, exprs, clause))), table, columns, exprs)
  {
    var items := Assignments(columns, exprs);
    UpdateScans(table, columns, exprs, clause);
    hide *;
    ClauseItems(columns, exprs);
    SetList(items, clause);
    if Quiet(items, StartsClause()) {
      QuietSet(table, columns, exprs);
      QuietYields(table, columns, exprs);
    } else {
      CutSet(table, columns, exprs);
    }
  }

  lemma UpdateScans(table: string, columns: seq<string>, exprs: seq<string>, clause: string)
    requires |columns| == |exprs| > 0
    ensures WrittenId(Print(UpdateSet(table, columns, exprs, clause))) == FirstId(table, SplitTopLevel(
      Before(JoinCommas(Spaced(Assignments(columns, exprs))) + (if clause == "" then "" else " WHERE " + clause),
        StartsClause())))
  {
    hide FirstId, SplitTopLevel, Before, JoinCommas, Spaced, Assignments;
  }

  lemma QuietYields(table: string, columns: seq<string>, exprs: seq<string>)
    requires |columns| == |exprs| && (forall i :: 0 <= i < |columns| ==> IsIdent(columns[i]))
    requires Quiet(Assignments(columns, exprs), StartsClause())
    ensures var seen := match FirstIdColumn(columns) case None => None case Some(k) => Some(Written(table, exprs[k]));
      YieldsIff(seen, table, columns, exprs)
  {
    hide Quiet, IsIdent, NoClause, FirstIdColumn, FirstHit, Assignments, StartsClause;
    if FirstIdColumn(columns).Some? {
      NoClauseUpTo(columns, exprs, FirstIdColumn(columns).value);
    }
  }

  lemma NoClauseUpTo(columns: seq<string>, exprs: seq<string>, k: nat)
    requires |columns| == |exprs| && k < |exprs| && forall i :: 0 <= i < |columns| ==> IsIdent(columns[i])
    requires Quiet(Assignments(columns, exprs), StartsClause())
    ensures NoClause(exprs[..k + 1])
  {
    hide FirstHit, NoClause;
    var items := Assignments(columns, exprs);
    assert forall i :: 0 <= i <= k ==> items[..k + 1][i] == items[i];
    QuietAssignments(columns, exprs, k + 1);
  }

  // ------------------------------------------------------------ the theorem

  /** A printable write: identifiers and well-formed expressions. */
  ghost predicate Printable(w: Write) {
    && |w.columns| == |w.exprs| > 0
    && (forall i :: 0 <= i < |w.columns| ==> IsIdent(w.columns[i]) && WellFormed(w.exprs[i]))
  }

  /** No expression up to `id`'s holds a word the scanner would cut at, outside its own parentheses and quotes. */
  predicate ReadWhole(w: Write)
    requires |w.columns| == |w.exprs|
  {
    match FirstIdColumn(w.columns)
    case None => true
    case Some(k) =>
      match w
      case InsertValues(_, _, _, _) => true
      case InsertSelect(_, _, exprs, _) => Quiet(exprs[..k + 1], StartsFrom())
      case UpdateSet(_, _, exprs, _) => NoClause(exprs[..k + 1])
  }

  /**
   * The scanner reads back exactly the expression the statement assigns to `id`, or
   * nothing when it assigns none, if and only if no FROM (for SET, no WHERE or RETURNING)
   * begins at the top level of an expression before the end of that one.
   */
  lemma ExtractionExact(w: Write)
    requires Printable(w)
    ensures WrittenId(Print(w)) == AssignedId(w) <==> ReadWhole(w)
  {
    hide SplitTopLevel, IdIndex, Pick, SelectList, Trim, FirstHit, FirstId, WellFormed, IsIdent, ColumnText, Quiet,
      NoClause;
    if w.UpdateSet? {
      UpdateReadBack(w.table, w.columns, w.exprs, w.clause);
    } else {
      ColumnsReadBack(w.columns);
      var k := FirstIdColumn(w.columns);
      if k.Some? {
        if w.InsertValues? {
          ValuesReadBack(w.table, w.exprs, w.tail, k.value);
        } else {
          SelectReadBack(w.table, w.exprs, w.from, k.value);
        }
      }
    }
  }

  /** A FROM loose in an expression before the one for `id` hides the id write altogether. */
  lemma EarlierFromHidesId(w: Write)
    requires Printable(w) && w.InsertSelect? && FirstIdColumn(w.columns).Some?
    requires !Quiet(w.exprs[..FirstIdColumn(w.columns).value], StartsFrom())
    ensures WrittenId(Print(w)) == None
  {
    hide SplitTopLevel, IdIndex, Pick, SelectList, Trim, FirstHit, WellFormed, IsIdent, ColumnText, Quiet;
    ColumnsReadBack(w.columns);
    SelectReadBack(w.table, w.exprs, w.from, FirstIdColumn(w.columns).value);
  }

  /** `INSERT INTO table ("flag", "id") SELECT a IS DISTINCT FROM b, md5(c) FROM source` */
  function Misread(table: string, source: string): Write {
    InsertSelect(table, ["flag", "id"], ["a IS DISTINCT FROM b", "md5(c)"], source)
  }

  lemma PlainWell(e: string)
    requires (forall i :: 0 <= i < |e| ==> IsPlain(e[i])) && e != "" && !IsSpace(e[0]) && !IsSpace(e[|e| - 1])
    ensures WellFormed(e)
  {
    hide Run, Pieces, StrayFree;
    PlainSelf(e);
    PlainStrayFree(e);
  }

  /** A FROM behind text that has no `f` and stays at the top level. */
  lemma FromBehind(p: string, q: string)
    requires p != "" && IsSpace(p[|p| - 1]) && forall k :: 0 <= k < |p| ==> IsPlain(p[k]) && Lower(p[k]) != 'f'
    requires IsKeyword(q, "from")
    ensures FirstHit(p + q, ' ', TOP, StartsFrom()).Some?
  {
    PlainStrayFree(p);
    NoWordFrom(p, q);
    hide FirstHit, Pieces, Local, Run, StrayFree, IsPlain;
    assert q != "";
    HitConcat(p, q, ' ', TOP, StartsFrom());
    HitHere(q, LastChar(p, ' '), TOP, StartsFrom());
  }

  lemma FromWord()
    ensures IsKeyword("FROM b", "from")
  {
    var q, word := "FROM b", "from";
    assert Lower(q[0]) == word[0] && Lower(q[1]) == word[1] && Lower(q[2]) == word[2] && Lower(q[3]) == word[3];
  }

  lemma DistinctFromCut()
    ensures WellFormed("a IS DISTINCT FROM b")
    ensures FirstHit("a IS DISTINCT FROM b", ' ', TOP, StartsFrom()).Some?
  {
    var p, q, e := "a IS DISTINCT ", "FROM b", "a IS DISTINCT FROM b";
    assert e == p + q;
    assert forall k :: 0 <= k < |p| ==> IsPlain(p[k]) && Lower(p[k]) != 'f';
    assert forall k :: 0 <= k < |q| ==> IsPlain(q[k]);
    assert IsSpace(p[13]) && !IsSpace(e[0]) && !IsSpace(e[19]);
    hide *;
    FromWord();
    FromBehind(p, q);
    PlainWell(p + q);
  }

  lemma ArgIsSelf()
    ensures SelfContained("(c)")
  {
    var inner := Lex(NoQuote, 1);
    assert "(c)" == ['('] + "c)" && "c)" == ['c'] + ")" && ")" == [')'] + "";
    PiecesCons(')', "", inner);
    PiecesCons('c', ")", inner);
    PiecesCons('(', "c)", TOP);
    assert Pieces("", TOP) == [""] && Pieces(")", inner) == [")"] && Pieces("c)", inner) == ["c)"];
  }

  lemma ArgStrayFree()
    ensures StrayFree("(c)", TOP)
  {
    var arg, inner := "(c)", Lex(NoQuote, 1);
    assert arg[1..] == "c)" && arg[1..][1..] == ")" && arg[1..][1..][1..] == "";
    assert StrayFree(")", inner) && StrayFree("c)", inner);
  }

  lemma Md5Call()
    ensures WellFormed("md5(c)")
  {
    var name, arg := "md5", "(c)";
    assert "md5(c)" == name + arg;
    PlainSelf(name);
    PlainStrayFree(name);
    ArgIsSelf();
    ArgStrayFree();
    hide SelfContained, StrayFree;
    SelfConcat(name, arg);
    StrayFreeConcat(name, arg, TOP);
  }

  /** The derived id of that statement is not seen at all, for any table and any source. */
  lemma DistinctFromHidesId(table: string, source: string)
    ensures var w := Misread(table, source);
      Printable(w) && AssignedId(w) == Some(Written(table, "md5(c)")) && WrittenId(Print(w)) == None
  {
    hide *;
    MisreadPrints(table, source);
    EarlierFromHidesId(Misread(table, source));
  }

  lemma MisreadPrints(table: string, source: string)
    ensures var w := Misread(table, source);
      && Printable(w) && w.InsertSelect? && AssignedId(w) == Some(Written(table, "md5(c)"))
      && FirstIdColumn(w.columns) == Some(1) && |w.exprs| == 2 && !Quiet(w.exprs[..1], StartsFrom())
  {
    DistinctFromCut();
    Md5Call();
    IdIsSecond();
    hide WellFormed, FirstHit, FirstIdColumn, IsIdent;
    var w := Misread(table, source);
    assert w.exprs[..1][0] == w.exprs[0];
  }

  lemma IdIsSecond()
    ensures FirstIdColumn(["flag", "id"]) == Some(1) && IsIdent("flag") && IsIdent("id")
  {
    var columns, flag, id := ["flag", "id"], "flag", "id";
    assert LowerAll(flag) != "id" by { assert |LowerAll(flag)| == 4; }
    assert LowerAll(id) == id;
    assert columns[1..] == [id];
    assert FirstIdColumn([id]) == Some(0);
  }
}
