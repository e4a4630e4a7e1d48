/**
 * Migrations printed from a tree of characters, quoted texts, dollar bodies, comments
 * and parenthesised groups, and what masking and cutting make of the printed text.
 */
module SqlTree {
  import opened Prelude
  import opened Strings
  import opened SqlLexer
  import opened SqlStatements

  datatype Piece =
    | Char(c: char)
    | Quote(quote: char, text: string)
    | Body(word: string, body: string)
    | Dashes(text: string)
    | Slashes(text: string)
    | Group(inner: seq<Piece>)

  function Tag(word: string): string {
    "$" + word + "$"
  }

  function PrintOne(p: Piece): string
    decreases p
  {
    match p
    case Char(c) => [c]
    case Quote(quote, text) => [quote] + (text + [quote])
    case Body(word, body) => Tag(word) + (body + Tag(word))
    case Dashes(text) => "--" + text
    case Slashes(text) => "/*" + (text + "*/")
    case Group(inner) => "(" + (Print(inner) + ")")
  }

  function Print(ps: seq<Piece>): string
    decreases ps
  {
    if ps == [] then "" else PrintOne(ps[0]) + Print(ps[1..])
  }

  /** Every character but the newlines blanked. */
  function Blanks(s: string): (r: string)
    ensures |r| == |s|
  {
    if s == "" then "" else (if s[0] == '\n' then "\n" else " ") + Blanks(s[1..])
  }

  /** The print with the comments blanked. */
  function ShowOne(p: Piece): string
    decreases p
  {
    match p
    case Dashes(_) => Blanks(PrintOne(p))
    case Slashes(_) => Blanks(PrintOne(p))
    case Group(inner) => "(" + (Show(inner) + ")")
    case _ => PrintOne(p)
  }

  function Show(ps: seq<Piece>): string
    decreases ps
  {
    if ps == [] then "" else ShowOne(ps[0]) + Show(ps[1..])
  }

  predicate Letter(c: char) {
    'A' <= c <= 'Z' || 'a' <= c <= 'z' || c == '_'
  }

  /** `mark` closes `body` at its end and nowhere before. */
  ghost predicate ClosesAt(body: string, mark: string) {
    forall i :: 0 <= i < |body| ==> !(mark <= (body + mark)[i..])
  }

  /** Letters and a dollar sign. */
  ghost predicate OpensTag(s: string) {
    exists k :: 0 <= k < |s| && s[k] == '$' && forall i :: 0 <= i < k ==> Letter(s[i])
  }

  predicate Begins(s: string, c: char) {
    s != "" && s[0] == c
  }

  /**
   * A piece that reads as itself before `after`: no character that opens something else,
   * no text that closes early, and at the top level no semicolon.
   */
  ghost predicate SoundOne(p: Piece, after: string, top: bool)
    decreases p
  {
    match p
    case Char(c) =>
      && c !in "'\"()" && (c == ';' ==> !top)
      && !(c == '-' && Begins(after, '-')) && !(c == '/' && Begins(after, '*')) && !(c == '$' && OpensTag(after))
    case Quote(quote, text) => (quote == '\'' || quote == '"') && quote !in text
    case Body(word, body) => (forall i :: 0 <= i < |word| ==> Letter(word[i])) && ClosesAt(body, Tag(word))
    case Dashes(text) => '\n' !in text && (after == "" || Begins(after, '\n'))
    case Slashes(text) => ClosesAt(text, "*/")
    case Group(inner) => Sound(inner, ")" + after, false)
  }

  ghost predicate Sound(ps: seq<Piece>, next: string, top: bool)
    decreases ps
  {
    ps == [] || (SoundOne(ps[0], Print(ps[1..]) + next, top) && Sound(ps[1..], next, top))
  }

  // ------------------------------------------------------------------ closing

  lemma NotBefore(body: string, mark: string, after: string, k: nat)
    requires ClosesAt(body, mark) && k < |body|
    ensures (body + (mark + after))[k..k + |mark|] != mark
  {
    assert !(mark <= (body + mark)[k..]);
    assert (body + mark)[k..][..|mark|] == (body + (mark + after))[k..k + |mark|];
  }

  /** A text closed at its end is found closed there, whatever follows. */
  lemma FindsClose(body: string, mark: string, after: string)
    requires ClosesAt(body, mark)
    ensures Find(body + (mark + after), mark) == Some(|body|)
  {
    var s := body + (mark + after);
    assert s[|body|..|body| + |mark|] == mark;
    FindFirst(s, mark, |body|);
    hide ClosesAt, Find;
    var k := Find(s, mark).value;
    if k != |body| {
      NotBefore(body, mark, after, k);
      assert false;
    }
  }

  lemma TagIs(word: string, after: string)
    requires forall i :: 0 <= i < |word| ==> Letter(word[i])
    ensures var s := Tag(word) + after; TagLen(s) == |word| + 2 && s[..TagLen(s)] == Tag(word) && s[0] == '$'
    ensures (Tag(word) + after)[|word| + 2..] == after
  {
    var s := Tag(word) + after;
    forall i | 1 <= i < |word| + 1 ensures IsTagChar(s[i]) {
      assert s[i] == word[i - 1];
    }
    TagLenIs(s, |word| + 2);
  }

  lemma NoTag(after: string)
    ensures TagLen("$" + after) > 0 ==> OpensTag(after)
  {
    var s := "$" + after;
    if TagLen(s) > 0 {
      TagShape(s);
      var k := TagLen(s) - 2;
      assert after[k] == s[k + 1] == '$';
      forall i | 0 <= i < k ensures Letter(after[i]) {
        assert after[i] == s[i + 1];
      }
    }
  }

  // ------------------------------------------------------------------ masking

  lemma {:induction false} LineCommentLen(text: string, after: string)
    requires '\n' !in text && (after == "" || Begins(after, '\n'))
    ensures LineLen(text + after) == |text|
  {
    if text == "" {
      assert text + after == after;
    } else {
      assert (text + after)[1..] == text[1..] + after;
      LineCommentLen(text[1..], after);
    }
  }

  lemma {:induction false} BlanksAt(s: string)
    ensures forall i :: 0 <= i < |s| ==> Blanks(s)[i] == if s[i] == '\n' then '\n' else ' '
  {
    if s != "" {
      BlanksAt(s[1..]);
    }
  }

  lemma BlanksAre(s: string)
    ensures BlankBlock(s) == Blanks(s)
    ensures '\n' !in s ==> BlankLine(s) == Blanks(s)
  {
    BlanksAt(s);
  }

  lemma MaskDashes(text: string, after: string)
    requires '\n' !in text && (after == "" || Begins(after, '\n'))
    ensures Mask("--" + text + after) == Blanks("--" + text) + Mask(after)
  {
    var head := "--" + text;
    var s := head + after;
    assert OpensLine(s) && '\n' !in head;
    LineCommentLen(head, after);
    assert s[..|head|] == head && s[|head|..] == after;
    assert FirstToken(s) == LineComment(head);
    BlanksAre(head);
  }

  lemma MaskSlashes(text: string, after: string)
    requires ClosesAt(text, "*/")
    ensures Mask("/*" + (text + "*/") + after) == Blanks("/*" + (text + "*/")) + Mask(after)
  {
    var head := "/*" + (text + "*/");
    var s := head + after;
    assert s[2..] == text + ("*/" + after);
    FindsClose(text, "*/", after);
    assert OpensBlock(s) && !OpensLine(s) && BlockLen(s) == |head|;
    assert s[..|head|] == head && s[|head|..] == after;
    assert FirstToken(s) == BlockComment(head);
    BlanksAre(head);
  }

  lemma BodyToken(word: string, body: string, after: string)
    requires (forall i :: 0 <= i < |word| ==> Letter(word[i])) && ClosesAt(body, Tag(word))
    ensures var tag := Tag(word); var s := tag + (body + (tag + after));
      && TagLen(s) == |tag| && s[..|tag|] == tag && Find(s[|tag|..], tag) == Some(|body|)
      && s[0] == '$'
  {
    var tag := Tag(word);
    hide Find, TagLen, ClosesAt;
    TagIs(word, body + (tag + after));
    FindsClose(body, tag, after);
  }

  lemma DollarToken(s: string)
    requires TagLen(s) > 0
    ensures FirstToken(s) == Quoted(s[..DollarLen(s)])
  {
    hide TagLen, DollarLen;
  }

  lemma VerbatimToken(s: string, k: nat)
    requires 0 < k <= |s| && FirstToken(s) == Quoted(s[..k])
    ensures Mask(s) == s[..k] + Mask(s[k..])
  {
    hide FirstToken;
  }

  lemma DollarIs(s: string, t: nat, end: nat)
    requires TagLen(s) == t > 0 && Find(s[t..], s[..t]) == Some(end)
    ensures DollarLen(s) == t + end + t
  {
    hide TagLen, Find;
  }

  lemma BodyFirst(s: string, t: nat, end: nat)
    requires TagLen(s) == t > 0 && Find(s[t..], s[..t]) == Some(end)
    ensures t + end + t <= |s| && Mask(s) == s[..t + end + t] + Mask(s[t + end + t..])
  {
    hide *;
    DollarIs(s, t, end);
    DollarToken(s);
    VerbatimToken(s, t + end + t);
  }

  lemma MaskBody(word: string, body: string, after: string)
    requires (forall i :: 0 <= i < |word| ==> Letter(word[i])) && ClosesAt(body, Tag(word))
    ensures Mask(Tag(word) + (body + Tag(word)) + after) == Tag(word) + (body + Tag(word)) + Mask(after)
  {
    hide *;
    var tag := Tag(word);
    var s := tag + (body + (tag + after));
    TagLong(word);
    BodyToken(word, body, after);
    BodyFirst(s, |tag|, |body|);
    assert s == tag + (body + tag) + after;
    assert s[..|tag| + |body| + |tag|] == tag + (body + tag) && s[|tag| + |body| + |tag|..] == after;
  }

  lemma TagLong(word: string)
    ensures |Tag(word)| > 0
  {
  }

  lemma MaskChar(c: char, after: string)
    requires c != '\'' && c != '"' && !(c == '-' && Begins(after, '-')) && !(c == '/' && Begins(after, '*'))
    requires !(c == '$' && OpensTag(after))
    ensures Mask([c] + after) == [c] + Mask(after)
  {
    var s := [c] + after;
    assert s[1..] == after && s[..1] == [c];
    if c == '$' {
      NoTag(after);
      assert s == "$" + after;
    }
    assert FirstToken(s) == Token.Plain([c]);
  }

  /** Inside a quote: verbatim to the closing one, then masked. */
  function MaskIn(s: string, quote: char): string {
    s[..CloseLen(s, quote)] + Mask(s[CloseLen(s, quote)..])
  }

  lemma MaskQuoteOpens(quote: char, s: string)
    requires quote == '\'' || quote == '"'
    ensures Mask([quote] + s) == [quote] + MaskIn(s, quote)
  {
    hide *;
    var t, k := [quote] + s, 1 + CloseLen(s, quote);
    CloseStep(quote, 'x', s);
    QuoteToken(quote, s);
    Behind([quote], s, k - 1);
    VerbatimToken(t, k);
    MaskInIs(s, quote);
    assert [quote] + s[..k - 1] + Mask(s[k - 1..]) == [quote] + (s[..k - 1] + Mask(s[k - 1..]));
  }

  lemma MaskInIs(s: string, quote: char)
    ensures MaskIn(s, quote) == s[..CloseLen(s, quote)] + Mask(s[CloseLen(s, quote)..])
  {
  }

  lemma QuoteToken(quote: char, s: string)
    requires quote == '\'' || quote == '"'
    ensures FirstToken([quote] + s) == Quoted(([quote] + s)[..1 + CloseLen(s, quote)])
  {
    hide CloseLen;
    assert ([quote] + s)[1..] == s;
  }

  lemma CloseStep(quote: char, c: char, s: string)
    ensures CloseLen([c] + s, quote) ==
      if c != quote then 1 + CloseLen(s, quote) else if Begins(s, quote) then 2 + CloseLen(s[1..], quote) else 1
    ensures CloseLen(s, quote) <= |s|
  {
    var t := [c] + s;
    assert t[1..] == s && (s != "" ==> t[2..] == s[1..] && t[1] == s[0]);
  }

  lemma Behind(head: string, s: string, k: nat)
    requires k <= |s|
    ensures (head + s)[..|head| + k] == head + s[..k] && (head + s)[|head| + k..] == s[k..]
  {
  }

  /** A quote character ends the quoted text, even where another one opens the next at once. */
  lemma MaskQuoteCloses(quote: char, s: string)
    requires quote == '\'' || quote == '"'
    ensures MaskIn([quote] + s, quote) == [quote] + Mask(s)
  {
    hide Mask, CloseLen;
    CloseStep(quote, quote, s);
    if Begins(s, quote) {
      var rest := s[1..];
      assert s == [quote] + rest && [quote] + s == [quote, quote] + rest;
      MaskQuoteOpens(quote, rest);
      CloseStep(quote, 'x', rest);
      Behind([quote, quote], rest, CloseLen(rest, quote));
      assert [quote, quote] + rest[..CloseLen(rest, quote)] == [quote] + ([quote] + rest[..CloseLen(rest, quote)]);
    } else {
      Behind([quote], s, 0);
    }
  }

  lemma MaskInNext(quote: char, c: char, s: string)
    requires c != quote
    ensures MaskIn([c] + s, quote) == [c] + MaskIn(s, quote)
  {
    hide Mask, CloseLen;
    CloseStep(quote, c, s);
    Behind([c], s, CloseLen(s, quote));
  }

  lemma {:induction false} MaskInside(quote: char, text: string, s: string)
    requires quote !in text
    ensures MaskIn(text + s, quote) == text + MaskIn(s, quote)
  {
    hide *;
    if text == "" {
      assert text + s == s && text + MaskIn(s, quote) == MaskIn(s, quote);
    } else {
      assert text[0] in text && text == [text[0]] + text[1..];
      MaskInside(quote, text[1..], s);
      assert text + s == [text[0]] + (text[1..] + s);
      MaskInNext(quote, text[0], text[1..] + s);
      assert [text[0]] + (text[1..] + MaskIn(s, quote)) == text + MaskIn(s, quote);
    }
  }

  lemma MaskQuote(quote: char, text: string, after: string)
    requires (quote == '\'' || quote == '"') && quote !in text
    ensures Mask([quote] + (text + [quote]) + after) == [quote] + (text + [quote]) + Mask(after)
  {
    hide *;
    assert [quote] + (text + [quote]) + after == [quote] + (text + ([quote] + after));
    MaskQuoteOpens(quote, text + ([quote] + after));
    MaskInside(quote, text, [quote] + after);
    MaskQuoteCloses(quote, after);
  }

  lemma {:induction false} MaskOne(p: Piece, after: string, top: bool)
    requires SoundOne(p, after, top)
    ensures Mask(PrintOne(p) + after) == ShowOne(p) + Mask(after)
    decreases p
  {
    hide Mask, Blanks, ClosesAt, OpensTag, Print, Show, Sound, Tag;
    match p {
      case Char(c) => MaskChar(c, after);
      case Quote(quote, text) => MaskQuote(quote, text, after);
      case Body(word, body) => MaskBody(word, body, after);
      case Dashes(text) => MaskDashes(text, after);
      case Slashes(text) => MaskSlashes(text, after);
      case Group(inner) =>
        var close := ")" + after;
        assert "(" + (Print(inner) + ")") + after == ['('] + (Print(inner) + close);
        MaskChar('(', Print(inner) + close);
        MaskAll(inner, close, false);
        MaskChar(')', after);
    }
  }

  /** Masking blanks the comments of the tree and nothing else. */
  lemma {:induction false} MaskAll(ps: seq<Piece>, next: string, top: bool)
    requires Sound(ps, next, top)
    ensures Mask(Print(ps) + next) == Show(ps) + Mask(next)
    decreases ps
  {
    hide Mask, SoundOne, PrintOne, ShowOne;
    if ps == [] {
      assert Print(ps) + next == next && Show(ps) + Mask(next) == Mask(next);
    } else {
      var after := Print(ps[1..]) + next;
      MaskOne(ps[0], after, top);
      MaskAll(ps[1..], next, top);
      assert Print(ps) + next == PrintOne(ps[0]) + after;
      assert ShowOne(ps[0]) + (Show(ps[1..]) + Mask(next)) == Show(ps) + Mask(next);
    }
  }

  // ------------------------------------------------------------------ cutting

  lemma FadedConcat(a: string, b: string, x: string, y: string)
    requires Faded(a, b) && Faded(x, y)
    ensures Faded(a + x, b + y)
  {
  }

  lemma FadedSame(s: string)
    ensures Faded(s, s)
  {
  }

  lemma {:induction false} OneFades(p: Piece)
    ensures Faded(PrintOne(p), ShowOne(p))
    decreases p
  {
    hide Faded;
    match p {
      case Dashes(_) => BlanksFade(PrintOne(p));
      case Slashes(_) => BlanksFade(PrintOne(p));
      case Group(inner) =>
        AllFade(inner);
        FadedSame("(");
        FadedSame(")");
        FadedConcat(Print(inner), Show(inner), ")", ")");
        FadedConcat("(", "(", Print(inner) + ")", Show(inner) + ")");
      case _ => FadedSame(PrintOne(p));
    }
  }

  lemma BlanksFade(s: string)
    ensures Faded(s, Blanks(s))
  {
    BlanksAt(s);
  }

  /** Blanked comments fade the print and change nothing else. */
  lemma {:induction false} AllFade(ps: seq<Piece>)
    ensures Faded(Print(ps), Show(ps))
    decreases ps
  {
    hide Faded, PrintOne, ShowOne;
    if ps == [] {
      FadedSame("");
    } else {
      OneFades(ps[0]);
      AllFade(ps[1..]);
      FadedConcat(PrintOne(ps[0]), ShowOne(ps[0]), Print(ps[1..]), Show(ps[1..]));
    }
  }

  /** Over text `s`, whatever stands behind it, the scan for the next cut goes on at the same depth. */
  ghost predicate Over(s: string, rest: string, depth: nat) {
    TopSemi(s + rest, depth) == Shift(TopSemi(rest, depth), |s|)
  }

  lemma OverNothing(rest: string, depth: nat)
    ensures Over("", rest, depth)
  {
    hide TopSemi;
    assert "" + rest == rest;
  }

  lemma OverBoth(a: string, b: string, rest: string, depth: nat)
    requires Over(a, b + rest, depth) && Over(b, rest, depth)
    ensures Over(a + b, rest, depth)
  {
    hide TopSemi;
    assert a + (b + rest) == a + b + rest;
    ShiftShift(TopSemi(rest, depth), |b|, |a|);
  }

  lemma StepOver(c: char, rest: string, depth: nat)
    requires c != '\'' && c != '"' && TagLen([c] + rest) == 0 && !(c == ';' && depth == 0)
    ensures TopSemi([c] + rest, depth) == Shift(TopSemi(rest, Nest(c, depth)), 1)
  {
    hide TopSemi, TagLen;
    TopSemiStep([c] + rest, depth);
    assert ([c] + rest)[1..] == rest;
  }

  lemma NoTagOn(c: char, rest: string)
    requires c != '$'
    ensures TagLen([c] + rest) == 0
  {
  }

  lemma CharOver(c: char, after: string, rest: string, top: bool, depth: nat)
    requires SoundOne(Char(c), after, top) && (top <==> depth == 0) && Faded(after, rest)
    ensures Over([c], rest, depth)
  {
    if c == '$' {
      NoTag(after);
      assert [c] + rest == "$" + rest && Faded("$" + after, "$" + rest);
      if TagLen("$" + rest) > 0 { TagOfFaded("$" + after, "$" + rest); }
    } else {
      NoTagOn(c, rest);
    }
    hide TopSemi, TagLen, OpensTag;
    StepOver(c, rest, depth);
  }

  lemma SpaceOver(c: char, rest: string, depth: nat)
    requires c == ' ' || c == '\n'
    ensures Over([c], rest, depth)
  {
    NoTagOn(c, rest);
    hide TopSemi, TagLen;
    StepOver(c, rest, depth);
  }

  lemma {:induction false} BlanksOver(s: string, rest: string, depth: nat)
    ensures Over(Blanks(s), rest, depth)
  {
    hide Over;
    if s == "" {
      OverNothing(rest, depth);
    } else {
      var c := if s[0] == '\n' then '\n' else ' ';
      BlanksOver(s[1..], rest, depth);
      SpaceOver(c, Blanks(s[1..]) + rest, depth);
      OverBoth([c], Blanks(s[1..]), rest, depth);
      assert Blanks(s) == [c] + Blanks(s[1..]);
    }
  }

  /** The cut seen from inside a quote. */
  function SemiIn(s: string, quote: char, depth: nat): Option<nat> {
    Shift(TopSemi(s[CloseLen(s, quote)..], depth), CloseLen(s, quote))
  }

  lemma SemiQuoteOpens(quote: char, s: string, depth: nat)
    requires quote == '\'' || quote == '"'
    ensures TopSemi([quote] + s, depth) == Shift(SemiIn(s, quote, depth), 1)
  {
    var t := [quote] + s;
    assert t[1..] == s && Nest(quote, depth) == depth;
    hide TopSemi, CloseLen, Nest;
    TopSemiStep(t, depth);
    CloseStep(quote, 'x', s);
    Behind([quote], s, CloseLen(s, quote));
    ShiftShift(TopSemi(s[CloseLen(s, quote)..], depth), CloseLen(s, quote), 1);
  }

  lemma SemiQuoteCloses(quote: char, s: string, depth: nat)
    requires quote == '\'' || quote == '"'
    ensures SemiIn([quote] + s, quote, depth) == Shift(TopSemi(s, depth), 1)
  {
    hide TopSemi, CloseLen;
    CloseStep(quote, quote, s);
    if Begins(s, quote) {
      var rest := s[1..];
      assert s == [quote] + rest && [quote] + s == [quote, quote] + rest;
      SemiQuoteOpens(quote, rest, depth);
      CloseStep(quote, 'x', rest);
      var k := CloseLen(rest, quote);
      Behind([quote, quote], rest, k);
      ShiftShift(TopSemi(rest[k..], depth), k, 1);
      ShiftShift(TopSemi(rest[k..], depth), k + 1, 1);
    } else {
      Behind([quote], s, 0);
    }
  }

  lemma SemiInNext(quote: char, c: char, s: string, depth: nat)
    requires c != quote
    ensures SemiIn([c] + s, quote, depth) == Shift(SemiIn(s, quote, depth), 1)
  {
    hide TopSemi, CloseLen;
    CloseStep(quote, c, s);
    Behind([c], s, CloseLen(s, quote));
    ShiftShift(TopSemi(s[CloseLen(s, quote)..], depth), CloseLen(s, quote), 1);
  }

  lemma {:induction false} SemiInside(quote: char, text: string, s: string, depth: nat)
    requires quote !in text
    ensures SemiIn(text + s, quote, depth) == Shift(SemiIn(s, quote, depth), |text|)
  {
    hide SemiIn;
    if text == "" {
      assert text + s == s;
    } else {
      assert text[0] in text && text == [text[0]] + text[1..];
      SemiInside(quote, text[1..], s, depth);
      assert text + s == [text[0]] + (text[1..] + s);
      SemiInNext(quote, text[0], text[1..] + s, depth);
      ShiftShift(SemiIn(s, quote, depth), |text| - 1, 1);
    }
  }

  lemma QuoteOver(quote: char, text: string, rest: string, depth: nat)
    requires (quote == '\'' || quote == '"') && quote !in text
    ensures Over([quote] + (text + [quote]), rest, depth)
  {
    hide TopSemi, SemiIn;
    assert [quote] + (text + [quote]) + rest == [quote] + (text + ([quote] + rest));
    SemiQuoteOpens(quote, text + ([quote] + rest), depth);
    SemiInside(quote, text, [quote] + rest, depth);
    SemiQuoteCloses(quote, rest, depth);
    ShiftShift(TopSemi(rest, depth), 1, |text|);
    ShiftShift(TopSemi(rest, depth), 1 + |text|, 1);
  }

  lemma BodyEndIs(s: string, t: nat, end: nat)
    requires TagLen(s) == t > 0 && Find(s[t..], s[..t]) == Some(end)
    ensures PieceLen(s) == t + end + t
  {
    hide TagLen, Find;
  }

  lemma BodyOver(word: string, body: string, rest: string, depth: nat)
    requires (forall i :: 0 <= i < |word| ==> Letter(word[i])) && ClosesAt(body, Tag(word))
    ensures Over(Tag(word) + (body + Tag(word)), rest, depth)
  {
    var tag := Tag(word);
    assert Nest('$', depth) == depth;
    hide TopSemi, TagLen, Find, ClosesAt, Tag, PieceLen, Nest;
    TagLong(word);
    BodyToken(word, body, rest);
    var s := tag + (body + (tag + rest));
    BodyEndIs(s, |tag|, |body|);
    TopSemiStep(s, depth);
    assert s == tag + (body + tag) + rest && s[|tag| + |body| + |tag|..] == rest;
  }

  lemma GroupText(inner: string, rest: string)
    ensures "(" + (inner + ")") + rest == ['('] + (inner + (")" + rest)) && ")" + rest == [')'] + rest
  {
  }

  lemma Nesting(depth: nat)
    ensures Nest('(', depth) == depth + 1 && Nest(')', depth + 1) == depth
  {
  }

  lemma OverIs(s: string, rest: string, depth: nat)
    ensures Over(s, rest, depth) <==> TopSemi(s + rest, depth) == Shift(TopSemi(rest, depth), |s|)
  {
    hide TopSemi;
  }

  lemma GroupOver(inner: string, rest: string, depth: nat)
    requires Over(inner, ")" + rest, depth + 1)
    ensures Over("(" + (inner + ")"), rest, depth)
  {
    hide *;
    var close := ")" + rest;
    GroupText(inner, rest);
    Nesting(depth);
    NoTagOn('(', inner + close);
    NoTagOn(')', rest);
    StepOver('(', inner + close, depth);
    StepOver(')', rest, depth + 1);
    OverIs(inner, close, depth + 1);
    OverIs("(" + (inner + ")"), rest, depth);
    ShiftShift(TopSemi(rest, depth), 1, |inner|);
    ShiftShift(TopSemi(rest, depth), 1 + |inner|, 1);
  }

  lemma {:induction false} OneOver(p: Piece, after: string, rest: string, top: bool, depth: nat)
    requires SoundOne(p, after, top) && (top <==> depth == 0) && Faded(after, rest)
    ensures Over(ShowOne(p), rest, depth)
    decreases p
  {
    hide Over, Faded, Blanks, ClosesAt, OpensTag, Print, Show, Sound, Tag;
    match p {
      case Char(c) => CharOver(c, after, rest, top, depth);
      case Quote(quote, text) => QuoteOver(quote, text, rest, depth);
      case Body(word, body) => BodyOver(word, body, rest, depth);
      case Dashes(_) => BlanksOver(PrintOne(p), rest, depth);
      case Slashes(_) => BlanksOver(PrintOne(p), rest, depth);
      case Group(inner) =>
        FadedSame(")");
        FadedConcat(")", ")", after, rest);
        AllOver(inner, ")" + after, ")" + rest, false, depth + 1);
        GroupOver(Show(inner), rest, depth);
    }
  }

  /** No cut falls inside a statement of the tree. */
  lemma {:induction false} AllOver(ps: seq<Piece>, next: string, rest: string, top: bool, depth: nat)
    requires Sound(ps, next, top) && (top <==> depth == 0) && Faded(next, rest)
    ensures Over(Show(ps), rest, depth)
    decreases ps
  {
    hide Over, SoundOne, PrintOne, ShowOne, Faded;
    if ps == [] {
      OverNothing(rest, depth);
    } else {
      AllFade(ps[1..]);
      FadedConcat(Print(ps[1..]), Show(ps[1..]), next, rest);
      OneOver(ps[0], Print(ps[1..]) + next, Show(ps[1..]) + rest, top, depth);
      AllOver(ps[1..], next, rest, top, depth);
      OverBoth(ShowOne(ps[0]), Show(ps[1..]), rest, depth);
    }
  }

  // --------------------------------------------------------------- migrations

  function Printed(stmts: seq<seq<Piece>>): (texts: seq<string>)
    ensures |texts| == |stmts|
  {
    seq(|stmts|, i requires 0 <= i < |stmts| => Print(stmts[i]))
  }

  function Shown(stmts: seq<seq<Piece>>): (texts: seq<string>)
    ensures |texts| == |stmts|
  {
    seq(|stmts|, i requires 0 <= i < |stmts| => Show(stmts[i]))
  }

  /** The statements, each behind the one before and its semicolon. */
  function Migration(stmts: seq<seq<Piece>>): string
    requires stmts != []
  {
    JoinSemi(Printed(stmts))
  }

  function Following(stmts: seq<seq<Piece>>): string
    requires stmts != []
  {
    if |stmts| == 1 then "" else ";" + Migration(stmts[1..])
  }

  ghost predicate AllSound(stmts: seq<seq<Piece>>) {
    stmts == [] || (Sound(stmts[0], Following(stmts), true) && AllSound(stmts[1..]))
  }

  /** The spans of parts at their offsets, a semicolon between any two. */
  function SpansOf(parts: seq<string>, offset: nat): seq<Span> {
    if parts == [] then [] else SpanOf(parts[0], offset) + SpansOf(parts[1..], offset + |parts[0]| + 1)
  }

  lemma FirstPrinted(stmts: seq<seq<Piece>>)
    requires stmts != []
    ensures Migration(stmts) == Print(stmts[0]) + Following(stmts)
    ensures |stmts| > 1 ==> JoinSemi(Shown(stmts)) == Show(stmts[0]) + (";" + JoinSemi(Shown(stmts[1..])))
    ensures |stmts| == 1 ==> JoinSemi(Shown(stmts)) == Show(stmts[0])
    ensures Shown(stmts) == [Show(stmts[0])] + Shown(stmts[1..])
  {
    hide Print, Show;
    assert Printed(stmts)[1..] == Printed(stmts[1..]) && Shown(stmts)[1..] == Shown(stmts[1..]);
  }

  /** Masking a migration blanks the comments of its statements and nothing else. */
  lemma {:induction false} MaskReadsBack(stmts: seq<seq<Piece>>)
    requires stmts != [] && AllSound(stmts)
    ensures Mask(Migration(stmts)) == JoinSemi(Shown(stmts))
    decreases |stmts|
  {
    hide Mask, Print, Show, Sound, Migration, Shown, JoinSemi, Following;
    FirstPrinted(stmts);
    MaskAll(stmts[0], Following(stmts), true);
    FollowingIs(stmts);
    if |stmts| > 1 {
      MaskReadsBack(stmts[1..]);
      MaskChar(';', Migration(stmts[1..]));
    } else {
      MaskNothing();
    }
  }

  lemma FollowingIs(stmts: seq<seq<Piece>>)
    requires stmts != []
    ensures Following(stmts) == if |stmts| == 1 then "" else [';'] + Migration(stmts[1..])
  {
    hide Migration;
  }

  lemma MaskNothing()
    ensures Mask("") == ""
  {
  }

  lemma JoinedFades(stmts: seq<seq<Piece>>)
    requires stmts != []
    ensures Faded(Migration(stmts), JoinSemi(Shown(stmts)))
    decreases |stmts|
  {
    hide Print, Show, Faded, Migration, Shown, JoinSemi, Following;
    FirstPrinted(stmts);
    FollowingIs(stmts);
    AllFade(stmts[0]);
    if |stmts| > 1 {
      JoinedFades(stmts[1..]);
      FadedSame(";");
      FadedConcat(";", ";", Migration(stmts[1..]), JoinSemi(Shown(stmts[1..])));
      FadedConcat(Print(stmts[0]), Show(stmts[0]), ";" + Migration(stmts[1..]), ";" + JoinSemi(Shown(stmts[1..])));
    } else {
      assert Print(stmts[0]) + "" == Print(stmts[0]);
    }
  }

  /** Where the first cut of a printed migration falls. */
  lemma FirstCut(stmts: seq<seq<Piece>>)
    requires stmts != [] && AllSound(stmts)
    ensures TopSemi(JoinSemi(Shown(stmts)), 0) == if |stmts| == 1 then None else Some(|Show(stmts[0])|)
  {
    hide Print, Show, Sound, Migration, Shown, JoinSemi, Following, Faded, TopSemi;
    FirstPrinted(stmts);
    FollowingIs(stmts);
    if |stmts| == 1 {
      FadedSame("");
      AllOver(stmts[0], "", "", true, 0);
      NoSemiInNothing("", 0);
      assert Show(stmts[0]) + "" == Show(stmts[0]);
    } else {
      var next, rest := ";" + Migration(stmts[1..]), ";" + JoinSemi(Shown(stmts[1..]));
      JoinedFades(stmts[1..]);
      FadedSame(";");
      FadedConcat(";", ";", Migration(stmts[1..]), JoinSemi(Shown(stmts[1..])));
      AllOver(stmts[0], next, rest, true, 0);
      CutHere(rest);
    }
  }

  /** The masked migration cut at its semicolons is the list of its statements again. */
  lemma {:induction false} StatementsReadBack(stmts: seq<seq<Piece>>)
    requires stmts != [] && AllSound(stmts)
    ensures Statements(Mask(Migration(stmts))) == Shown(stmts)
    decreases |stmts|
  {
    hide Mask, Print, Show, Sound, Migration, Shown, JoinSemi, Following, TopSemi;
    MaskReadsBack(stmts);
    FirstCut(stmts);
    FirstPrinted(stmts);
    if |stmts| > 1 {
      MaskReadsBack(stmts[1..]);
      StatementsReadBack(stmts[1..]);
      var s, k := JoinSemi(Shown(stmts)), |Show(stmts[0])|;
      assert s[..k] == Show(stmts[0]) && s[k + 1..] == JoinSemi(Shown(stmts[1..]));
    } else {
      assert Shown(stmts[1..]) == [];
    }
  }

  /** And the spans found are its statements that are not blank, at their offsets. */
  lemma {:induction false} SpansReadBack(stmts: seq<seq<Piece>>, offset: nat)
    requires stmts != [] && AllSound(stmts)
    ensures SpansFrom(Mask(Migration(stmts)), offset) == SpansOf(Shown(stmts), offset)
    decreases |stmts|
  {
    hide Mask, Print, Show, Sound, Migration, Shown, JoinSemi, Following, TopSemi, SpanOf, SpansFrom;
    MaskReadsBack(stmts);
    FirstCut(stmts);
    FirstPrinted(stmts);
    var s, k := JoinSemi(Shown(stmts)), |Show(stmts[0])|;
    if |stmts| > 1 {
      MaskReadsBack(stmts[1..]);
      SpansReadBack(stmts[1..], offset + k + 1);
      assert s[..k] == Show(stmts[0]) && s[k + 1..] == JoinSemi(Shown(stmts[1..]));
      SpansStep(s, offset, k);
      assert Shown(stmts)[1..] == Shown(stmts[1..]);
    } else {
      SpansLast(s, offset);
      assert Shown(stmts)[1..] == [];
    }
  }

  // ----------------------------------------------------------- texts left open

  /** `mark` does not occur. */
  ghost predicate Absent(s: string, mark: string) {
    forall i :: 0 <= i < |s| ==> !(mark <= s[i..])
  }

  lemma {:induction false} FindsNothing(s: string, mark: string)
    requires Absent(s, mark) && mark != ""
    ensures Find(s, mark) == None
  {
    if s != "" {
      assert !(mark <= s[0..]) && s[0..] == s;
      assert mark <= s <==> StartsWith(s, mark);
      forall i | 0 <= i < |s[1..]| ensures !(mark <= s[1..][i..]) {
        assert s[1..][i..] == s[i + 1..];
      }
      FindsNothing(s[1..], mark);
    }
  }

  lemma {:induction false} NeverCloses(s: string, quote: char)
    requires quote !in s
    ensures CloseLen(s, quote) == |s|
  {
    if s != "" {
      assert s[0] in s;
      NeverCloses(s[1..], quote);
    }
  }

  /** A block comment left open is blanked to the end of the text. */
  lemma OpenComment(text: string)
    requires Absent(text, "*/")
    ensures Mask("/*" + text) == Blanks("/*" + text)
  {
    var s := "/*" + text;
    assert s[2..] == text;
    FindsNothing(text, "*/");
    assert OpensBlock(s) && !OpensLine(s) && BlockLen(s) == |s|;
    assert FirstToken(s) == BlockComment(s) && s[|s|..] == "";
    BlanksAre(s);
  }

  /** A quote left open keeps the rest of the text as it is, and no cut falls into it. */
  lemma OpenQuote(quote: char, text: string, depth: nat)
    requires (quote == '\'' || quote == '"') && quote !in text
    ensures Mask([quote] + text) == [quote] + text && TopSemi([quote] + text, depth) == None
  {
    hide Mask, TopSemi, CloseLen;
    NeverCloses(text, quote);
    MaskQuoteOpens(quote, text);
    SemiQuoteOpens(quote, text, depth);
    MaskNothing();
    NoSemiInNothing("", depth);
    assert text[..|text|] == text && text[|text|..] == "" && text + "" == text;
  }

  /** A dollar body left open: the masking passes its tag and goes on behind it, the cutting ends. */
  lemma OpenBody(word: string, text: string, depth: nat)
    requires (forall i :: 0 <= i < |word| ==> Letter(word[i])) && Absent(text, Tag(word))
    ensures Mask(Tag(word) + text) == Tag(word) + Mask(text) && TopSemi(Tag(word) + text, depth) == None
  {
    TagLong(word);
    hide *;
    var s, t := Tag(word) + text, |Tag(word)|;
    TagIs(word, text);
    assert s[t..] == text && s[..t] == Tag(word);
    FindsNothing(text, Tag(word));
    OpenBodyLen(s);
    DollarToken(s);
    VerbatimToken(s, t);
    OpenBodyCut(s, depth);
  }

  lemma OpenBodyLen(s: string)
    requires TagLen(s) > 0 && Find(s[TagLen(s)..], s[..TagLen(s)]) == None
    ensures DollarLen(s) == TagLen(s) && PieceLen(s) == |s| && s[0] == '$'
  {
    hide TagLen, Find;
  }

  lemma OpenBodyCut(s: string, depth: nat)
    requires TagLen(s) > 0 && Find(s[TagLen(s)..], s[..TagLen(s)]) == None
    ensures TopSemi(s, depth) == None
  {
    assert Nest('$', depth) == depth;
    OpenBodyLen(s);
    hide TagLen, Find, PieceLen, TopSemi;
    TopSemiStep(s, depth);
    NoSemiInNothing(s[|s|..], depth);
  }
}
