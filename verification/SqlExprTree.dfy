/**
 * Expressions printed from a tree of characters, quoted texts and parenthesised groups:
 * the scanners over quotes, parentheses and commas take each for one whole.
 */
module SqlExprTree {
  import opened Prelude
  import opened Strings
  import opened SqlSplit
  import opened SqlLists
  import opened SqlTree

  /** Characters, quotes and groups; a comma stands inside a group only. */
  predicate IsExprPiece(p: Piece, top: bool)
    decreases p
  {
    match p
    case Char(c) => c !in "'\"()" && (c == ',' ==> !top)
    case Quote(quote, text) => (quote == '\'' || quote == '"') && quote !in text
    case Group(inner) => IsExpr(inner, false)
    case _ => false
  }

  predicate IsExpr(ps: seq<Piece>, top: bool)
    decreases ps
  {
    ps == [] || (IsExprPiece(ps[0], top) && IsExpr(ps[1..], top))
  }

  function Outside(depth: nat): Lex {
    Lex(NoQuote, depth)
  }

  /** One piece to the splitter, that leaves the scan where it was and closes nothing opened before. */
  ghost predicate Whole(s: string, depth: nat) {
    Run(s, Outside(depth)) == Outside(depth) && Pieces(s, Outside(depth)) == [s] && StrayFree(s, Outside(depth))
  }

  lemma WholeConcat(a: string, b: string, depth: nat)
    requires Whole(a, depth) && Whole(b, depth)
    ensures Whole(a + b, depth)
  {
    hide Run, Pieces, StrayFree;
    RunConcat(a, b, Outside(depth));
    PiecesConcat(a, b, Outside(depth));
    StrayFreeConcat(a, b, Outside(depth));
  }

  lemma NothingWhole(depth: nat)
    ensures Whole("", depth)
  {
  }

  lemma CharWhole(c: char, depth: nat)
    requires c !in "'\"()" && (c == ',' ==> depth > 0)
    ensures Whole([c], depth)
  {
    PiecesCons(c, "", Outside(depth));
    assert [c] + "" == [c] && [c][1..] == "";
    assert Step(Outside(depth), c) == Outside(depth);
  }

  lemma {:induction false} InsideWhole(text: string, quote: char, st: Lex)
    requires (quote == '\'' && st.quote == Single) || (quote == '"' && st.quote == Double)
    requires quote !in text
    ensures Run(text, st) == st && Pieces(text, st) == [text] && StrayFree(text, st)
  {
    if text != "" {
      assert text[0] in text && text == [text[0]] + text[1..];
      InsideWhole(text[1..], quote, st);
      PiecesCons(text[0], text[1..], st);
    }
  }

  lemma CloseWhole(quote: char, st: Lex, depth: nat)
    requires (quote == '\'' && st == Lex(Single, depth)) || (quote == '"' && st == Lex(Double, depth))
    ensures Step(Outside(depth), quote) == st
    ensures Run([quote], st) == Outside(depth) && Pieces([quote], st) == [[quote]] && StrayFree([quote], st)
  {
    PiecesCons(quote, "", st);
    assert [quote] + "" == [quote] && [quote][1..] == "";
  }

  lemma ConsWhole(c: char, s: string, st: Lex)
    requires c != ',' && c != ')' && Pieces(s, Step(st, c)) == [s] && StrayFree(s, Step(st, c))
    ensures Pieces([c] + s, st) == [[c] + s] && StrayFree([c] + s, st)
    ensures Run([c] + s, st) == Run(s, Step(st, c))
  {
    PiecesCons(c, s, st);
    assert ([c] + s)[1..] == s;
  }

  lemma QuoteWhole(quote: char, text: string, depth: nat)
    requires (quote == '\'' || quote == '"') && quote !in text
    ensures Whole([quote] + (text + [quote]), depth)
  {
    hide Run, Pieces, StrayFree, Step;
    var st := Lex(if quote == '"' then Double else Single, depth);
    InsideWhole(text, quote, st);
    CloseWhole(quote, st, depth);
    RunConcat(text, [quote], st);
    PiecesConcat(text, [quote], st);
    StrayFreeConcat(text, [quote], st);
    ConsWhole(quote, text + [quote], Outside(depth));
  }

  lemma Closing(depth: nat)
    ensures Step(Outside(depth), '(') == Outside(depth + 1)
    ensures Run(")", Outside(depth + 1)) == Outside(depth) && Pieces(")", Outside(depth + 1)) == [")"]
    ensures StrayFree(")", Outside(depth + 1))
  {
    PiecesCons(')', "", Outside(depth + 1));
    assert [')'] + "" == ")" && ")"[1..] == "";
  }

  lemma GroupWhole(inner: string, depth: nat)
    requires Whole(inner, depth + 1)
    ensures Whole("(" + (inner + ")"), depth)
  {
    hide Run, Pieces, StrayFree, Step;
    Closing(depth);
    RunConcat(inner, ")", Outside(depth + 1));
    PiecesConcat(inner, ")", Outside(depth + 1));
    StrayFreeConcat(inner, ")", Outside(depth + 1));
    ConsWhole('(', inner + ")", Outside(depth));
    assert ['('] + (inner + ")") == "(" + (inner + ")");
  }

  lemma {:induction false} PieceWhole(p: Piece, depth: nat)
    requires IsExprPiece(p, depth == 0)
    ensures Whole(PrintOne(p), depth)
    decreases p
  {
    hide Whole;
    match p {
      case Char(c) => CharWhole(c, depth);
      case Quote(quote, text) => QuoteWhole(quote, text, depth);
      case Group(inner) =>
        TreeWhole(inner, depth + 1);
        GroupWhole(Print(inner), depth);
    }
  }

  lemma {:induction false} TreeWhole(ps: seq<Piece>, depth: nat)
    requires IsExpr(ps, depth == 0)
    ensures Whole(Print(ps), depth)
    decreases ps
  {
    hide Whole, IsExprPiece, PrintOne;
    if ps == [] {
      NothingWhole(depth);
    } else {
      PieceWhole(ps[0], depth);
      TreeWhole(ps[1..], depth);
      WholeConcat(PrintOne(ps[0]), Print(ps[1..]), depth);
    }
  }

  /** Every expression of the tree that neither begins nor ends with a space is well formed. */
  lemma TreeIsWell(ps: seq<Piece>)
    requires IsExpr(ps, true)
    requires var e := Print(ps); e != "" && !IsSpace(e[0]) && !IsSpace(e[|e| - 1])
    ensures WellFormed(Print(ps))
  {
    TreeWhole(ps, 0);
    hide Run, Pieces, StrayFree, Print;
    assert Outside(0) == TOP;
  }

  /** A list of expressions is split at the commas between them and at no other. */
  lemma TreesSplit(items: seq<seq<Piece>>)
    requires items != [] && (forall i :: 0 <= i < |items| ==> IsExpr(items[i], true))
    requires !Blank(Print(items[|items| - 1]))
    ensures SplitTopLevel(JoinCommas(Printed(items))) == Printed(items)
  {
    forall p | p in Printed(items) ensures SelfContained(p) {
      var i :| 0 <= i < |items| && Print(items[i]) == p;
      TreeWhole(items[i], 0);
      assert Outside(0) == TOP;
    }
    hide SelfContained, Print, SplitTopLevel, JoinCommas, Blank;
    SplitOfJoined(Printed(items));
  }
}
