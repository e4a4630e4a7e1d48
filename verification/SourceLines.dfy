/**
 * Which lines of a source file hold code: the index-jumping line scanner against one
 * pass over the whole text that takes the comments out.
 */
module SourceLines {
  import opened Strings
  import opened TextFields

  // ------------------------------------------------------- the whole text at once

  datatype Mode = Code | InLine | InBlock | InQuote(quote: char)

  /**
   * The text without its comments. The newlines stay: one ends a line comment and a
   * quoted stretch, but not a block comment.
   */
  function Shown(s: string, mode: Mode): string
    decreases |s|
  {
    if s == "" then ""
    else if s[0] == '\n' then "\n" + Shown(s[1..], if mode == InBlock then InBlock else Code)
    else
      match mode
      case InLine => Shown(s[1..], InLine)
      case InBlock => if "*/" <= s then Shown(s[2..], Code) else Shown(s[1..], InBlock)
      case InQuote(q) =>
        if s[0] == '\\' && |s| > 1 && s[1] != '\n' then s[..2] + Shown(s[2..], mode)
        else [s[0]] + Shown(s[1..], if s[0] == q then Code else mode)
      case Code =>
        if "//" <= s then Shown(s[2..], InLine)
        else if "/*" <= s then Shown(s[2..], InBlock)
        else [s[0]] + Shown(s[1..], if s[0] in "'\"`" then InQuote(s[0]) else Code)
  }

  // ---------------------------------------------------------------- line by line

  predicate Opens(s: string, pair: string) {
    |s| >= 2 && |pair| == 2 && s[0] == pair[0] && s[1] == pair[1]
  }

  predicate IsQuote(c: char) {
    c == '"' || c == '\'' || c == '`'
  }

  /** The length of the rest of a quoted stretch; it ends with its quote or with the line. */
  function QuotedLen(s: string, quote: char): (n: nat)
    ensures n <= |s|
  {
    if s == "" then 0
    else if s[0] == '\\' then if |s| == 1 then 1 else 2 + QuotedLen(s[2..], quote)
    else if s[0] == quote then 1
    else 1 + QuotedLen(s[1..], quote)
  }

  /** The text outside comments, and whether a block comment is open after the line. */
  function Visible(s: string, inBlock: bool): (string, bool)
    decreases |s|
  {
    if s == "" then ("", inBlock)
    else if inBlock then (if Opens(s, "*/") then Visible(s[2..], false) else Visible(s[1..], true))
    else if Opens(s, "//") then ("", false)
    else if Opens(s, "/*") then Visible(s[2..], true)
    else
      var n := if IsQuote(s[0]) then 1 + QuotedLen(s[1..], s[0]) else 1;
      var rest := Visible(s[n..], false);
      (s[..n] + rest.0, rest.1)
  }

  predicate HasCode(s: string) {
    exists i :: 0 <= i < |s| && !IsSpace(s[i])
  }

  /** The lines without their comments, a block comment carried from each to the next. */
  function VisibleLines(lines: seq<string>, open: bool): (shown: seq<string>)
    ensures |shown| == |lines|
  {
    if lines == [] then []
    else
      var first := Visible(lines[0], open);
      [first.0] + VisibleLines(lines[1..], first.1)
  }

  function ModeOf(open: bool): Mode {
    if open then InBlock else Code
  }

  /** The end of a line, or of the text. */
  predicate Ends(x: string) {
    x == "" || x[0] == '\n'
  }

  lemma EndsAnyMode(x: string, quote: char)
    requires Ends(x)
    ensures Shown(x, InQuote(quote)) == Shown(x, Code) && Shown(x, InLine) == Shown(x, Code)
  {
  }

  lemma QuoteStep(s: string, quote: char)
    requires s != "" && s[0] != '\n'
    ensures Shown(s, InQuote(quote)) ==
      if s[0] == '\\' && |s| > 1 && s[1] != '\n' then s[..2] + Shown(s[2..], InQuote(quote))
      else [s[0]] + Shown(s[1..], if s[0] == quote then Code else InQuote(quote))
  {
  }

  lemma LenStep(s: string, quote: char)
    ensures QuotedLen(s, quote) ==
      if s == "" then 0
      else if s[0] == '\\' then if |s| == 1 then 1 else 2 + QuotedLen(s[2..], quote)
      else if s[0] == quote then 1
      else 1 + QuotedLen(s[1..], quote)
  {
  }

  lemma LacksRest(s: string, n: nat)
    requires Lacks(s, '\n') && n < |s|
    ensures s[n] != '\n' && Lacks(s[n + 1..], '\n')
  {
  }

  /** The scan of a quoted stretch of a line, and that of the whole text. */
  ghost predicate QuotedAlike(s: string, quote: char, x: string) {
    Shown(s + x, InQuote(quote)) == s[..QuotedLen(s, quote)] + Shown(s[QuotedLen(s, quote)..] + x, Code)
  }

  lemma QuotedIs(s: string, quote: char, x: string)
    ensures QuotedAlike(s, quote, x) <==>
      Shown(s + x, InQuote(quote)) == s[..QuotedLen(s, quote)] + Shown(s[QuotedLen(s, quote)..] + x, Code)
  {
  }

  lemma Skipped(s: string, k: nat, n: nat, x: string)
    requires k <= n <= |s|
    ensures (s + x)[..k] == s[..k] && (s + x)[k..] == s[k..] + x
    ensures s[..n] == s[..k] + s[k..][..n - k] && s[n..] == s[k..][n - k..]
    ensures k == 1 ==> s[..k] == [s[0]]
  {
  }

  lemma Regroup(a: string, b: string, c: string)
    ensures a + (b + c) == (a + b) + c
  {
  }

  /** What `k` characters add in front of a stretch that is scanned alike. */
  lemma QuotedBehind(s: string, k: nat, quote: char, x: string)
    requires k <= |s| && QuotedAlike(s[k..], quote, x)
    requires QuotedLen(s, quote) == k + QuotedLen(s[k..], quote)
    requires Shown(s + x, InQuote(quote)) == s[..k] + Shown(s[k..] + x, InQuote(quote))
    ensures QuotedAlike(s, quote, x)
  {
    hide *;
    var n := QuotedLen(s[k..], quote);
    Skipped(s, k, k + n, x);
    QuotedIs(s[k..], quote, x);
    QuotedIs(s, quote, x);
    Regroup(s[..k], s[k..][..n], Shown(s[k..][n..] + x, Code));
  }

  lemma QuotedEscape(s: string, quote: char, x: string)
    requires |s| > 1 && s[0] == '\\' && s[1] != '\n' && QuotedAlike(s[2..], quote, x)
    ensures QuotedAlike(s, quote, x)
  {
    hide *;
    LenStep(s, quote);
    assert (s + x)[0] == s[0] && (s + x)[1] == s[1];
    QuoteStep(s + x, quote);
    Skipped(s, 2, 2, x);
    QuotedBehind(s, 2, quote, x);
  }

  lemma QuotedNext(s: string, quote: char, x: string)
    requires s != "" && s[0] != '\\' && s[0] != quote && s[0] != '\n' && QuotedAlike(s[1..], quote, x)
    ensures QuotedAlike(s, quote, x)
  {
    hide *;
    LenStep(s, quote);
    assert (s + x)[0] == s[0];
    QuoteStep(s + x, quote);
    Skipped(s, 1, 1, x);
    QuotedBehind(s, 1, quote, x);
  }

  lemma QuotedEnds(s: string, quote: char, x: string)
    requires Ends(x) && quote != '\\' && quote != '\n'
    requires s == "" || s[0] == quote || s == "\\"
    ensures QuotedAlike(s, quote, x)
  {
    EndsAnyMode(x, quote);
    LenStep(s, quote);
    if s == "" {
      assert s + x == x && s[0..] + x == x;
    } else {
      assert |s + x| > |s| ==> (s + x)[|s|] == '\n';
      QuoteStep(s + x, quote);
      hide Shown, QuotedLen;
      Skipped(s, 1, 1, x);
      assert |s| == 1 ==> s[1..] + x == x;
    }
  }

  lemma {:induction false} QuotedShown(s: string, quote: char, x: string)
    requires Lacks(s, '\n') && Ends(x) && quote != '\\' && quote != '\n'
    ensures QuotedAlike(s, quote, x)
    decreases |s|
  {
    hide *;
    if s == "" || s[0] == quote || s == "\\" {
      QuotedEnds(s, quote, x);
    } else {
      LacksRest(s, 0);
      if s[0] == '\\' {
        LacksRest(s, 1);
        QuotedShown(s[2..], quote, x);
        QuotedEscape(s, quote, x);
      } else {
        QuotedShown(s[1..], quote, x);
        QuotedNext(s, quote, x);
      }
    }
  }

  lemma {:induction false} LineCommentShown(s: string, x: string)
    requires Lacks(s, '\n') && Ends(x)
    ensures Shown(s + x, InLine) == Shown(x, Code)
    decreases |s|
  {
    if s == "" {
      EndsAnyMode(x, 'q');
      assert s + x == x;
    } else {
      LineCommentShown(s[1..], x);
      assert (s + x)[1..] == s[1..] + x;
    }
  }

  lemma OpensHere(s: string, x: string)
    requires s != "" && Ends(x)
    ensures "//" <= s + x <==> Opens(s, "//")
    ensures "/*" <= s + x <==> Opens(s, "/*")
    ensures "*/" <= s + x <==> Opens(s, "*/")
  {
    assert |s + x| > 1 ==> (s + x)[..2] == [(s + x)[0], (s + x)[1]];
  }

  lemma BlockStep(s: string)
    requires s != "" && s[0] != '\n'
    ensures "*/" <= s ==> Shown(s, InBlock) == Shown(s[2..], Code)
    ensures !("*/" <= s) ==> Shown(s, InBlock) == Shown(s[1..], InBlock)
    ensures "//" <= s ==> Shown(s, Code) == Shown(s[2..], InLine)
    ensures "/*" <= s ==> Shown(s, Code) == Shown(s[2..], InBlock)
  {
  }

  lemma VisibleStep(s: string)
    requires s != ""
    ensures Visible(s, true) == if Opens(s, "*/") then Visible(s[2..], false) else Visible(s[1..], true)
    ensures Opens(s, "//") ==> Visible(s, false) == ("", false)
    ensures !Opens(s, "//") && Opens(s, "/*") ==> Visible(s, false) == Visible(s[2..], true)
    ensures StretchLen(s) <= |s|
    ensures var rest := Visible(s[StretchLen(s)..], false);
      !Opens(s, "//") && !Opens(s, "/*") ==> Visible(s, false) == (s[..StretchLen(s)] + rest.0, rest.1)
  {
  }

  lemma LacksFrom(s: string, n: nat)
    requires Lacks(s, '\n') && n <= |s|
    ensures Lacks(s[n..], '\n')
  {
  }

  lemma Modes()
    ensures ModeOf(true) == InBlock && ModeOf(false) == Code
  {
  }

  /** Within a line the pass over the whole text sees what the scan of that line sees. */
  ghost predicate LineAlike(s: string, open: bool, x: string) {
    Shown(s + x, ModeOf(open)) == Visible(s, open).0 + Shown(x, ModeOf(Visible(s, open).1))
  }

  lemma LineIs(s: string, open: bool, x: string)
    ensures LineAlike(s, open, x)
       <==> Shown(s + x, ModeOf(open)) == Visible(s, open).0 + Shown(x, ModeOf(Visible(s, open).1))
  {
  }

  /** What the first `k` characters add, `head` being what is left of them. */
  lemma LineBehind(s: string, k: nat, head: string, open: bool, still: bool, x: string)
    requires k <= |s| && LineAlike(s[k..], still, x)
    requires Shown(s + x, ModeOf(open)) == head + Shown(s[k..] + x, ModeOf(still))
    requires Visible(s, open) == (head + Visible(s[k..], still).0, Visible(s[k..], still).1)
    ensures LineAlike(s, open, x)
  {
    hide *;
    LineIs(s[k..], still, x);
    LineIs(s, open, x);
    Regroup(head, Visible(s[k..], still).0, Shown(x, ModeOf(Visible(s[k..], still).1)));
  }

  lemma LineEnds(x: string, open: bool)
    ensures LineAlike("", open, x)
  {
    assert "" + x == x;
  }

  lemma {:induction false} LineShown(s: string, open: bool, x: string)
    requires Lacks(s, '\n') && Ends(x)
    ensures LineAlike(s, open, x)
    decreases |s|
  {
    hide *;
    if s == "" {
      LineEnds(x, open);
    } else if open {
      BlockShown(s, x);
    } else if Opens(s, "//") {
      SlashesShown(s, x);
    } else if Opens(s, "/*") {
      OpeningShown(s, x);
    } else {
      CodeShown(s, x);
      VisibleStep(s);
      Modes();
      var n := StretchLen(s);
      LacksFrom(s, n);
      LineShown(s[n..], false, x);
      LineBehind(s, n, s[..n], false, false, x);
    }
  }

  lemma {:induction false} BlockShown(s: string, x: string)
    requires s != "" && Lacks(s, '\n') && Ends(x)
    ensures LineAlike(s, true, x)
    decreases |s|, 0
  {
    OpensLong(s);
    hide *;
    var n := if Opens(s, "*/") then 2 else 1;
    LacksFrom(s, n);
    LineShown(s[n..], !Opens(s, "*/"), x);
    OpensHere(s, x);
    VisibleStep(s);
    LacksRest(s, 0);
    assert (s + x)[0] == s[0];
    BlockStep(s + x);
    Skipped(s, n, n, x);
    Modes();
    NothingBefore(Shown(s[n..] + x, ModeOf(!Opens(s, "*/"))), Visible(s[n..], !Opens(s, "*/")));
    LineBehind(s, n, "", true, !Opens(s, "*/"), x);
  }

  lemma {:induction false} OpeningShown(s: string, x: string)
    requires s != "" && Lacks(s, '\n') && Ends(x) && Opens(s, "/*") && !Opens(s, "//")
    ensures LineAlike(s, false, x)
    decreases |s|, 0
  {
    OpensLong(s);
    hide *;
    LacksFrom(s, 2);
    LineShown(s[2..], true, x);
    OpensHere(s, x);
    VisibleStep(s);
    LacksRest(s, 0);
    assert (s + x)[0] == s[0];
    BlockStep(s + x);
    Skipped(s, 2, 2, x);
    Modes();
    NothingBefore(Shown(s[2..] + x, InBlock), Visible(s[2..], true));
    LineBehind(s, 2, "", false, true, x);
  }

  lemma SlashesShown(s: string, x: string)
    requires s != "" && Lacks(s, '\n') && Ends(x) && Opens(s, "//")
    ensures LineAlike(s, false, x)
  {
    OpensLong(s);
    hide *;
    OpensHere(s, x);
    VisibleStep(s);
    LacksRest(s, 0);
    assert (s + x)[0] == s[0];
    BlockStep(s + x);
    Skipped(s, 2, 2, x);
    LacksFrom(s, 2);
    LineCommentShown(s[2..], x);
    Modes();
    LineIs(s, false, x);
    assert "" + Shown(x, Code) == Shown(x, Code);
  }

  lemma NothingBefore(a: string, v: (string, bool))
    ensures "" + a == a && v == ("" + v.0, v.1)
  {
    assert "" + v.0 == v.0;
  }

  lemma OpensLong(s: string)
    ensures Opens(s, "*/") || Opens(s, "//") || Opens(s, "/*") ==> |s| >= 2
  {
  }

  lemma CodeStep(s: string)
    requires s != "" && s[0] != '\n' && !("//" <= s) && !("/*" <= s)
    ensures Shown(s, Code) == [s[0]] + Shown(s[1..], if IsQuote(s[0]) then InQuote(s[0]) else Code)
    ensures IsQuote(s[0]) ==> s[0] != '\\'
  {
  }

  lemma StretchIs(s: string)
    requires s != ""
    ensures StretchLen(s) == if IsQuote(s[0]) then 1 + QuotedLen(s[1..], s[0]) else 1
    ensures 0 < StretchLen(s) <= |s|
  {
  }

  lemma CodeShown(s: string, x: string)
    requires s != "" && Lacks(s, '\n') && Ends(x) && !Opens(s, "//") && !Opens(s, "/*")
    ensures 0 < StretchLen(s) <= |s| && Shown(s + x, Code) == s[..StretchLen(s)] + Shown(s[StretchLen(s)..] + x, Code)
  {
    hide *;
    OpensHere(s, x);
    LacksRest(s, 0);
    StretchIs(s);
    assert (s + x)[0] == s[0];
    CodeStep(s + x);
    Skipped(s, 1, 1, x);
    LacksFrom(s, 1);
    if IsQuote(s[0]) {
      StretchShown(s, x);
      assert StretchLen(s) == 1 + QuotedLen(s[1..], s[0]);
    } else {
      assert StretchLen(s) == 1;
    }
  }

  lemma StretchShown(s: string, x: string)
    requires s != "" && Lacks(s[1..], '\n') && Ends(x) && s[0] != '\\' && s[0] != '\n'
    ensures var n := 1 + QuotedLen(s[1..], s[0]);
      [s[0]] + Shown(s[1..] + x, InQuote(s[0])) == s[..n] + Shown(s[n..] + x, Code)
  {
    hide *;
    var t, n := s[1..], QuotedLen(s[1..], s[0]);
    QuotedShown(t, s[0], x);
    QuotedIs(t, s[0], x);
    Skipped(s, 1, 1 + n, x);
    Regroup([s[0]], t[..n], Shown(t[n..] + x, Code));
  }

  lemma {:induction false} VisibleLacks(s: string, open: bool)
    requires Lacks(s, '\n')
    ensures Lacks(Visible(s, open).0, '\n')
    decreases |s|
  {
    if s != "" {
      if open {
        VisibleLacks(if Opens(s, "*/") then s[2..] else s[1..], !Opens(s, "*/"));
      } else if Opens(s, "/*") {
        VisibleLacks(s[2..], true);
      } else if !Opens(s, "//") {
        VisibleLacks(s[StretchLen(s)..], false);
      }
    }
  }

  lemma {:induction false} OnlyLine(line: string)
    requires Lacks(line, '\n')
    ensures SplitLines(line) == [line]
  {
    if line != "" {
      OnlyLine(line[1..]);
      assert line == [line[0]] + line[1..];
    }
  }

  /** A text is its only line, or its first line, a newline and the rest. */
  lemma {:induction false} FirstLine(text: string) returns (line: string, rest: string, more: bool)
    ensures Lacks(line, '\n')
    ensures more ==> text == line + "\n" + rest && SplitLines(text) == [line] + SplitLines(rest)
    ensures !more ==> text == line && SplitLines(text) == [line]
  {
    if text == "" {
      line, rest, more := "", "", false;
    } else if text[0] == '\n' {
      line, rest, more := "", text[1..], true;
    } else {
      line, rest, more := FirstLine(text[1..]);
      line := [text[0]] + line;
      assert text == [text[0]] + text[1..];
    }
  }

  lemma NewlineShown(rest: string, open: bool)
    ensures Shown("\n" + rest, ModeOf(open)) == "\n" + Shown(rest, ModeOf(open)) && Shown("", ModeOf(open)) == ""
  {
    assert ("\n" + rest)[1..] == rest;
  }

  lemma VisibleFirst(line: string, rest: seq<string>, open: bool)
    ensures VisibleLines([line] + rest, open) == [Visible(line, open).0] + VisibleLines(rest, Visible(line, open).1)
    ensures VisibleLines([line], open) == [Visible(line, open).0]
  {
    hide Visible;
    assert ([line] + rest)[1..] == rest && [line][1..] == [];
  }

  /** Line by line or in one pass over the whole text, the same is left of it. */
  lemma {:induction false} OneScan(text: string, open: bool)
    ensures SplitLines(Shown(text, ModeOf(open))) == VisibleLines(SplitLines(text), open)
    decreases |text|
  {
    hide *;
    var line, rest, more := FirstLine(text);
    VisibleLacks(line, open);
    var shown, still := Visible(line, open).0, Visible(line, open).1;
    EndsHere(rest);
    if more {
      LineShown(line, open, "\n" + rest);
      LineIs(line, open, "\n" + rest);
      NewlineShown(rest, still);
      assert line + ("\n" + rest) == text;
      OneScan(rest, still);
      assert shown + ("\n" + Shown(rest, ModeOf(still))) == shown + "\n" + Shown(rest, ModeOf(still));
      SplitFirst(shown, Shown(rest, ModeOf(still)));
      VisibleFirst(line, SplitLines(rest), open);
    } else {
      LineShown(line, open, "");
      LineIs(line, open, "");
      NewlineShown("", still);
      assert line + "" == text && shown + "" == shown;
      OnlyLine(shown);
      VisibleFirst(line, [], open);
    }
  }

  lemma EndsHere(rest: string)
    ensures Ends("") && Ends("\n" + rest)
  {
  }

  lemma HasCodeConcat(a: string, b: string)
    ensures HasCode(a + b) <==> HasCode(a) || HasCode(b)
  {
    if HasCode(a) {
      var i :| 0 <= i < |a| && !IsSpace(a[i]);
      assert (a + b)[i] == a[i];
    }
    if HasCode(b) {
      var i :| 0 <= i < |b| && !IsSpace(b[i]);
      assert (a + b)[|a| + i] == b[i];
    }
    if HasCode(a + b) {
      var i :| 0 <= i < |a + b| && !IsSpace((a + b)[i]);
      assert (a + b)[i] == if i < |a| then a[i] else b[i - |a|];
    }
  }

  /** The end of the block comment open at `from`, or the end of the line. */
  method SkipBlock(s: string, from: nat) returns (j: nat, closed: bool)
    requires from < |s|
    ensures from < j <= |s|
    ensures Visible(s[from..], true) == Visible(s[j..], !closed)
  {
    j := from;
    closed := false;
    while j < |s| && !(j + 1 < |s| && s[j] == '*' && s[j + 1] == '/')
      invariant from <= j <= |s|
      invariant Visible(s[from..], true) == Visible(s[j..], true)
    {
      assert s[j..][1..] == s[j + 1..];
      j := j + 1;
    }
    if j < |s| {
      assert s[j..][2..] == s[j + 2..];
      j, closed := j + 2, true;
    }
  }

  /** The index after the quoted stretch whose quote stands at `from`. */
  method SkipQuoted(s: string, from: nat) returns (j: nat)
    requires from < |s|
    ensures j == from + 1 + QuotedLen(s[from + 1..], s[from])
  {
    var quote := s[from];
    j := from + 1;
    while j < |s|
      invariant from < j
      invariant j <= |s| ==> j + QuotedLen(s[j..], quote) == from + 1 + QuotedLen(s[from + 1..], quote)
      invariant j > |s| ==> |s| == from + 1 + QuotedLen(s[from + 1..], quote)
      decreases |s| - j
    {
      if s[j] == '\\' {
        if j + 1 < |s| { assert s[j..][2..] == s[j + 2..]; }
        j := j + 2;
      } else if s[j] == quote {
        j := j + 1;
        return;
      } else {
        assert s[j..][1..] == s[j + 1..];
        j := j + 1;
      }
    }
    if j > |s| { j := |s|; }
  }

  function StretchLen(s: string): nat
    requires s != ""
  {
    if IsQuote(s[0]) then 1 + QuotedLen(s[1..], s[0]) else 1
  }

  /** What one turn of the scan sees outside a comment. */
  lemma VisibleAt(s: string, j: nat)
    requires j < |s|
    ensures Opens(s[j..], "//") ==> Visible(s[j..], false) == ("", false)
    ensures Opens(s[j..], "/*") ==> Visible(s[j..], false) == Visible(s[j + 2..], true)
    ensures j + StretchLen(s[j..]) <= |s|
    ensures !Opens(s[j..], "//") && !Opens(s[j..], "/*") ==>
      var n := StretchLen(s[j..]);
      && Visible(s[j..], false).1 == Visible(s[j + n..], false).1
      && (HasCode(Visible(s[j..], false).0) <==> !IsSpace(s[j]) || HasCode(Visible(s[j + n..], false).0))
  {
    var rest := s[j..];
    assert |rest| >= 2 ==> rest[2..] == s[j + 2..];
    var n := StretchLen(rest);
    assert rest[n..] == s[j + n..];
    if !Opens(rest, "//") && !Opens(rest, "/*") {
      assert Visible(rest, false).0 == rest[..n] + Visible(s[j + n..], false).0;
      assert HasCode(rest[..n]) <==> !IsSpace(s[j]) by { StretchCode(rest); }
      hide Visible, HasCode;
      HasCodeConcat(rest[..n], Visible(s[j + n..], false).0);
    }
  }

  lemma StretchCode(s: string)
    requires s != ""
    ensures StretchLen(s) <= |s|
    ensures HasCode(s[..StretchLen(s)]) <==> !IsSpace(s[0])
  {
    assert s[..StretchLen(s)][0] == s[0];
  }

  /** One turn of the scan outside a comment: the new index, and whether code, a block or a line comment was met. */
  method ScanTurn(s: string, at: nat) returns (j: nat, code: bool, open: bool, lineEnds: bool)
    requires at < |s|
    ensures lineEnds ==> Visible(s[at..], false) == ("", false) && !code && !open
    ensures !lineEnds ==>
      && at < j <= |s|
      && Visible(s[at..], false).1 == Visible(s[j..], open).1
      && (HasCode(Visible(s[at..], false).0) <==> code || HasCode(Visible(s[j..], open).0))
  {
    VisibleAt(s, at);
    assert s[at..][1..] == s[at + 1..];
    hide Visible, HasCode, QuotedLen;
    j, code, open, lineEnds := at, false, false, false;
    if j + 1 < |s| && s[j] == '/' && s[j + 1] == '/' {
      lineEnds := true;
    } else if j + 1 < |s| && s[j] == '/' && s[j + 1] == '*' {
      open := true;
      j := j + 2;
    } else if IsQuote(s[j]) {
      code := true;
      j := SkipQuoted(s, j);
    } else {
      if !IsSpace(s[j]) { code := true; }
      j := j + 1;
    }
  }

  /** One line of `classifySource`. */
  method ScanLine(s: string, inBlock: bool) returns (hasExec: bool, open: bool)
    ensures hasExec == HasCode(Visible(s, inBlock).0) && open == Visible(s, inBlock).1
  {
    hasExec, open := false, inBlock;
    var j := 0;
    assert s[0..] == s && s[|s|..] == "";
    assert !HasCode("") && Visible("", false) == ("", false) && Visible("", true) == ("", true);
    hide Visible, HasCode;
    while j < |s|
      invariant j <= |s|
      invariant Visible(s[j..], open).1 == Visible(s, inBlock).1
      invariant HasCode(Visible(s, inBlock).0) <==> hasExec || HasCode(Visible(s[j..], open).0)
      decreases |s| - j
    {
      if open {
        var closed;
        j, closed := SkipBlock(s, j);
        open := !closed;
      } else {
        var code, lineEnds;
        j, code, open, lineEnds := ScanTurn(s, j);
        hasExec := hasExec || code;
        if lineEnds { return; }
      }
    }
  }

  lemma VisibleNext(lines: seq<string>, i: nat, open: bool, shown: seq<string>)
    requires i < |lines| == |shown| && VisibleLines(lines[i..], open) == shown[i..]
    ensures var first := Visible(lines[i], open);
      shown[i] == first.0 && VisibleLines(lines[i + 1..], first.1) == shown[i + 1..]
  {
    hide Visible;
    assert lines[i..][0] == lines[i] && lines[i..][1..] == lines[i + 1..];
    assert shown[i] == shown[i..][0] && shown[i + 1..] == shown[i..][1..];
  }

  lemma CodeIs(s: string)
    ensures HasCode(s) <==> exists k :: 0 <= k < |s| && !IsSpace(s[k])
  {
  }

  /**
   * `classifySource`: a line is executable exactly if something but blanks is left of it
   * when the comments are taken out of the whole text.
   */
  method ClassifySource(src: string) returns (out: seq<bool>)
    ensures var shown := SplitLines(Shown(src, Code));
      && |out| == |shown| == |SplitLines(src)|
      && forall i :: 0 <= i < |out| ==> (out[i] <==> exists k :: 0 <= k < |shown[i]| && !IsSpace(shown[i][k]))
  {
    hide *;
    var lines := SplitLines(src);
    ghost var shown := VisibleLines(lines, false);
    OneScan(src, false);
    Modes();
    out := [];
    var inBlock := false;
    assert lines[0..] == lines && shown[0..] == shown;
    for i := 0 to |lines|
      invariant |out| == i && VisibleLines(lines[i..], inBlock) == shown[i..]
      invariant forall k :: 0 <= k < i ==> out[k] == HasCode(shown[k])
    {
      VisibleNext(lines, i, inBlock, shown);
      var hasExec, open := ScanLine(lines[i], inBlock);
      out, inBlock := out + [hasExec], open;
    }
    forall i | 0 <= i < |out| ensures out[i] <==> exists k :: 0 <= k < |shown[i]| && !IsSpace(shown[i][k]) {
      CodeIs(shown[i]);
    }
  }

  /** What is left of a block comment: its newlines. */
  function Breaks(body: string): string {
    if body == "" then "" else (if body[0] == '\n' then "\n" else "") + Breaks(body[1..])
  }

  /** `body` followed by the closing mark is closed by that mark and not earlier. */
  ghost predicate ClosedAtEnd(body: string) {
    forall i :: 0 <= i < |body| ==> !("*/" <= (body + "*/")[i..])
  }

  lemma NotYetClosed(body: string, rest: string)
    requires ClosedAtEnd(body) && body != ""
    ensures var s := body + "*/" + rest;
      !("*/" <= s) && s[0] == body[0] && s[1..] == body[1..] + "*/" + rest && ClosedAtEnd(body[1..])
  {
    var all, s := body + "*/", body + "*/" + rest;
    assert !("*/" <= all[0..]) && all[0..] == all;
    assert s[..2] == all[..2];
    forall i | 0 <= i < |body[1..]| ensures !("*/" <= (body[1..] + "*/")[i..]) {
      assert (body[1..] + "*/")[i..] == all[i + 1..];
    }
  }

  lemma InsideStep(s: string)
    requires s != "" && !("*/" <= s)
    ensures Shown(s, InBlock) == (if s[0] == '\n' then "\n" else "") + Shown(s[1..], InBlock)
  {
  }

  lemma {:induction false} InsideHidden(body: string, rest: string)
    requires ClosedAtEnd(body)
    ensures Shown(body + "*/" + rest, InBlock) == Breaks(body) + Shown(rest, Code)
    decreases |body|
  {
    var s := body + "*/" + rest;
    if body == "" {
      assert s[..2] == "*/" && s[2..] == rest;
    } else {
      hide ClosedAtEnd, Shown;
      NotYetClosed(body, rest);
      InsideStep(s);
      InsideHidden(body[1..], rest);
    }
  }

  /** A block comment is taken out whole, over however many lines, but for its newlines. */
  lemma BlockCommentHidden(body: string, rest: string)
    requires ClosedAtEnd(body)
    ensures Shown("/*" + body + "*/" + rest, Code) == Breaks(body) + Shown(rest, Code)
  {
    var s := "/*" + body + "*/" + rest;
    assert s[2..] == body + "*/" + rest && s[..2] == "/*" && s[1] == '*';
    InsideHidden(body, rest);
  }
}
