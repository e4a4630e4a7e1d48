/**
 * The quote-and-parenthesis scanners of the migration guard: splitting a list at
 * its top-level commas and finding the end of a parenthesised body, a projection
 * or a SET list.
 */
module SqlSplit {
  import opened Prelude
  import opened Strings
  import opened SqlLexer

  datatype Quote = NoQuote | Single | Double
  datatype Lex = Lex(quote: Quote, depth: nat)

  const TOP := Lex(NoQuote, 0)

  /** One character, without lookahead: a doubled quote closes and opens again. */
  function Step(st: Lex, c: char): Lex {
    match st.quote
    case Single => if c == '\'' then st.(quote := NoQuote) else st
    case Double => if c == '"' then st.(quote := NoQuote) else st
    case NoQuote =>
      if c == '\'' then st.(quote := Single)
      else if c == '"' then st.(quote := Double)
      else if c == '(' then st.(depth := st.depth + 1)
      else if c == ')' then st.(depth := if st.depth > 0 then st.depth - 1 else 0)
      else st
  }

  function Run(s: string, st: Lex): Lex {
    if s == "" then st else Run(s[1..], Step(st, s[0]))
  }

  lemma {:induction false} RunConcat(a: string, b: string, st: Lex)
    ensures Run(a + b, st) == Run(b, Run(a, st))
  {
    if a == "" {
      assert a + b == b;
    } else {
      assert (a + b)[1..] == a[1..] + b;
      RunConcat(a[1..], b, Step(st, a[0]));
    }
  }

  // ------------------------------------------------------ top-level commas

  /** The text cut at every comma outside quotes and parentheses. */
  function Pieces(s: string, st: Lex): (parts: seq<string>)
    ensures parts != []
  {
    if s == "" then [""]
    else
      var rest := Pieces(s[1..], Step(st, s[0]));
      if s[0] == ',' && st == TOP then [""] + rest else [[s[0]] + rest[0]] + rest[1..]
  }

  /** `splitTopLevel`: the pieces, less a blank last one. */
  function SplitTopLevel(s: string): seq<string> {
    var parts := Pieces(s, TOP);
    if Blank(parts[|parts| - 1]) then parts[..|parts| - 1] else parts
  }

  function Glue(head: string, parts: seq<string>): seq<string>
    requires parts != []
  {
    [head + parts[0]] + parts[1..]
  }

  lemma GlueMore(head: string, c: char, parts: seq<string>)
    requires parts != []
    ensures Glue(head, [[c] + parts[0]] + parts[1..]) == Glue(head + [c], parts)
  {
    assert head + ([c] + parts[0]) == (head + [c]) + parts[0];
  }

  lemma GlueNothing(parts: seq<string>)
    requires parts != []
    ensures Glue("", parts) == parts
  {
    assert "" + parts[0] == parts[0];
  }

  lemma PiecesStep(s: string, st: Lex, head: string)
    requires s != ""
    ensures s[0] == ',' && st == TOP ==> Glue(head, Pieces(s, st)) == [head] + Pieces(s[1..], Step(st, s[0]))
    ensures !(s[0] == ',' && st == TOP) ==>
      Glue(head, Pieces(s, st)) == Glue(head + [s[0]], Pieces(s[1..], Step(st, s[0])))
  {
    var rest := Pieces(s[1..], Step(st, s[0]));
    if s[0] == ',' && st == TOP {
      assert head + "" == head;
    } else {
      GlueMore(head, s[0], rest);
    }
  }

  /** The scanner's three variables as one state. */
  function LexOf(depth: nat, inSingle: bool, inDouble: bool): Lex {
    Lex(if inSingle then Single else if inDouble then Double else NoQuote, depth)
  }

  lemma RunOne(c: char, st: Lex)
    ensures Run([c], st) == Step(st, c)
  {
    assert [c][1..] == "";
  }

  /** One turn of a scanning loop: the character, or both of a doubled single quote. */
  method Advance(s: string, i: nat, depth: nat, inSingle: bool, inDouble: bool)
    returns (j: nat, depth': nat, inSingle': bool, inDouble': bool)
    requires i < |s| && !(inSingle && inDouble)
    ensures !(inSingle' && inDouble')
    ensures j == i + 1 || (j == i + 2 && j <= |s| && inSingle && s[i] == '\'' && s[i + 1] == '\'')
    ensures LexOf(depth', inSingle', inDouble') == Run(s[i..j], LexOf(depth, inSingle, inDouble))
  {
    j, depth', inSingle', inDouble' := i + 1, depth, inSingle, inDouble;
    var ch := s[i];
    assert s[i..i + 1] == [ch];
    RunOne(ch, LexOf(depth, inSingle, inDouble));
    if inSingle {
      if ch == '\'' {
        if i + 1 < |s| && s[i + 1] == '\'' {
          j := i + 2;
          assert s[i..j] == [ch] + [ch];
          RunConcat([ch], [ch], LexOf(depth, inSingle, inDouble));
          RunOne(ch, LexOf(depth, false, false));
        } else {
          inSingle' := false;
        }
      }
    } else if inDouble {
      if ch == '"' { inDouble' := false; }
    } else if ch == '\'' {
      inSingle' := true;
    } else if ch == '"' {
      inDouble' := true;
    } else if ch == '(' {
      depth' := depth + 1;
    } else if ch == ')' {
      depth' := if depth > 0 then depth - 1 else 0;
    }
  }

  /** Both characters of a doubled quote join the current part. */
  lemma PiecesDoubled(s: string, st: Lex, head: string)
    requires |s| > 1 && s[0] == '\'' && s[1] == '\''
    ensures Glue(head, Pieces(s, st)) == Glue(head + s[..2], Pieces(s[2..], Step(Step(st, '\''), '\'')))
  {
    hide Pieces, Glue, Step;
    PiecesStep(s, st, head);
    PiecesStep(s[1..], Step(st, s[0]), head + [s[0]]);
    assert s[1..][1..] == s[2..] && (head + [s[0]]) + [s[1]] == head + s[..2];
  }

  /** The splitting loop. */
  method SplitAtCommas(s: string) returns (parts: seq<string>)
    ensures parts == SplitTopLevel(s)
  {
    var depth: nat, inSingle, inDouble := 0, false, false;
    var current, i: nat := "", 0;
    parts := [];
    assert s[0..] == s && "" + Pieces(s, TOP)[0] == Pieces(s, TOP)[0];
    while i < |s|
      invariant i <= |s| && !(inSingle && inDouble)
      invariant parts + Glue(current, Pieces(s[i..], LexOf(depth, inSingle, inDouble))) == Pieces(s, TOP)
    {
      parts, current, i, depth, inSingle, inDouble := SplitTurn(s, parts, current, i, depth, inSingle, inDouble);
    }
    assert current + "" == current;
    assert Pieces(s, TOP) == parts + [current];
    if !IsBlank(current) {
      parts := parts + [current];
    }
  }

  method SplitTurn(s: string, parts: seq<string>, current: string, i: nat, depth: nat, inSingle: bool, inDouble: bool)
    returns (parts': seq<string>, current': string, j: nat, depth': nat, inSingle': bool, inDouble': bool)
    requires i < |s| && !(inSingle && inDouble)
    ensures i < j <= |s| && !(inSingle' && inDouble')
    ensures parts' + Glue(current', Pieces(s[j..], LexOf(depth', inSingle', inDouble')))
         == parts + Glue(current, Pieces(s[i..], LexOf(depth, inSingle, inDouble)))
  {
    hide Pieces, Glue;
    var st := LexOf(depth, inSingle, inDouble);
    SuffixStep(s, i);
    j, depth', inSingle', inDouble' := Advance(s, i, depth, inSingle, inDouble);
    assert s[i..][..j - i] == s[i..j] && s[i..][j - i..] == s[j..];
    if s[i] == ',' && !inSingle && !inDouble && depth' == 0 {
      parts', current' := parts + [current], "";
      RunOne(s[i], st);
      assert s[i..j] == [s[i]];
      PiecesStep(s[i..], st, current);
      GlueNothing(Pieces(s[j..], TOP));
      assert parts' + Pieces(s[j..], TOP) == parts + ([current] + Pieces(s[j..], TOP));
    } else {
      parts', current' := parts, current + s[i..j];
      if j == i + 1 {
        RunOne(s[i], st);
        assert s[i..j] == [s[i]];
        PiecesStep(s[i..], st, current);
      } else {
        PiecesDoubled(s[i..], st, current);
        assert s[i..j] == [s[i]] + [s[i + 1]] && s[i..][..2] == s[i..j];
        RunConcat([s[i]], [s[i + 1]], st);
        RunOne(s[i], st);
        RunOne(s[i + 1], Step(st, s[i]));
      }
    }
  }

  predicate IsBlank(s: string)
    ensures IsBlank(s) == Blank(s)
  {
    s == "" || (IsSpace(s[0]) && IsBlank(s[1..]))
  }

  // ------------------------------------------------ where a stretch ends

  /** The first position at which `hit` holds of the rest, the character before it and the state. */
  function FirstHit(s: string, prev: char, st: Lex, hit: (string, char, Lex) -> bool): (k: Option<nat>)
    ensures k.Some? ==> k.value < |s|
  {
    if s == "" then None
    else if hit(s, prev, st) then Some(0)
    else match FirstHit(s[1..], s[0], Step(st, s[0]), hit)
      case None => None
      case Some(k) => Some(k + 1)
  }

  /** A hit never falls inside a single-quoted body or on a single quote. */
  ghost predicate Unquoted(hit: (string, char, Lex) -> bool) {
    forall s, prev, st :: hit(s, prev, st) ==> s != "" && st.quote == NoQuote && s[0] != '\''
  }

  lemma HitTurn(s: string, i: nat, j: nat, st: Lex, next: Lex, hit: (string, char, Lex) -> bool, prev: char)
    requires i < j <= |s| && Unquoted(hit) && !hit(s[i..], prev, st)
    requires j == i + 1 || (j == i + 2 && st.quote == Single && s[i] == '\'' && s[i + 1] == '\'')
    requires next == Run(s[i..j], st)
    ensures FirstHit(s[i..], prev, st, hit) == Shift(FirstHit(s[j..], s[j - 1], next, hit), j - i)
  {
    hide FirstHit, Unquoted;
    SuffixStep(s, i);
    RunOne(s[i], st);
    HitStep(s[i..], prev, st, hit);
    if j == i + 1 {
      assert s[i..j] == [s[i]];
    } else {
      SuffixStep(s, i + 1);
      assert s[i..j] == [s[i]] + [s[i + 1]];
      RunConcat([s[i]], [s[i + 1]], st);
      RunOne(s[i + 1], Step(st, s[i]));
      NoHitOnQuote(s[i + 1..], s[i], Step(st, s[i]), hit);
      HitStep(s[i + 1..], s[i], Step(st, s[i]), hit);
    }
  }

  lemma HitStep(s: string, prev: char, st: Lex, hit: (string, char, Lex) -> bool)
    requires s != "" && !hit(s, prev, st)
    ensures FirstHit(s, prev, st, hit) == Shift(FirstHit(s[1..], s[0], Step(st, s[0]), hit), 1)
  {
  }

  lemma NoHitOnQuote(s: string, prev: char, st: Lex, hit: (string, char, Lex) -> bool)
    requires Unquoted(hit) && s != "" && s[0] == '\''
    ensures !hit(s, prev, st)
  {
  }

  function Lower(c: char): char {
    if 'A' <= c <= 'Z' then c - 'A' + 'a' else c
  }

  predicate IsWordChar(c: char) {
    'A' <= c <= 'Z' || 'a' <= c <= 'z' || '0' <= c <= '9' || c == '_'
  }

  /** /^word\b/i for a lower-case word. */
  predicate IsKeyword(s: string, word: string) {
    && |word| <= |s|
    && (forall k :: 0 <= k < |word| ==> Lower(s[k]) == word[k])
    && (|word| < |s| ==> !IsWordChar(s[|word|]))
  }

  /** The parenthesis that closes the body the scan is in. */
  function Closes(): (string, char, Lex) -> bool {
    (s: string, prev: char, st: Lex) => s != "" && st.quote == NoQuote && s[0] == ')' && st.depth <= 1
  }

  /** A top-level FROM behind whitespace or a closing parenthesis. */
  function StartsFrom(): (string, char, Lex) -> bool {
    (s: string, prev: char, st: Lex) => st == TOP && IsKeyword(s, "from") && (IsSpace(prev) || prev == ')')
  }

  /** Top-level whitespace before WHERE or RETURNING. */
  function StartsClause(): (string, char, Lex) -> bool {
    (s: string, prev: char, st: Lex) =>
      st == TOP && s != "" && IsSpace(s[0])
        && (IsKeyword(TrimStart(s), "where") || IsKeyword(TrimStart(s), "returning"))
  }

  lemma KeywordStarts(s: string, word: string)
    requires IsKeyword(s, word) && word != "" && 'a' <= word[0] <= 'z'
    ensures s != "" && IsWordChar(s[0])
  {
    assert Lower(s[0]) == word[0];
  }

  lemma HitsAreUnquoted()
    ensures Unquoted(Closes()) && Unquoted(StartsFrom()) && Unquoted(StartsClause())
  {
    forall s: string, prev, st | StartsFrom()(s, prev, st) ensures s != "" && st.quote == NoQuote && s[0] != '\'' {
      assert IsKeyword(s, "from");
      KeywordStarts(s, "from");
    }
    forall s: string, prev, st | StartsClause()(s, prev, st) ensures s != "" && st.quote == NoQuote && s[0] != '\'' {
      assert st == TOP && IsSpace(s[0]);
    }
  }

  /** `extractBalanced`: the parenthesised body starting at `open`. */
  function Balanced(s: string, open: nat): Option<string>
    requires open < |s|
  {
    match FirstHit(s[open + 1..], '(', Lex(NoQuote, 1), Closes())
    case None => None
    case Some(k) => Some(s[open + 1..open + 1 + k])
  }

  method ExtractBalanced(s: string, open: nat) returns (body: Option<string>)
    requires open < |s| && s[open] == '('
    ensures body == Balanced(s, open)
  {
    HitsAreUnquoted();
    hide FirstHit, Unquoted;
    var depth: nat, inSingle, inDouble := 1, false, false;
    var i: nat := open + 1;
    while i < |s|
      invariant open < i <= |s| && !(inSingle && inDouble)
      invariant FirstHit(s[open + 1..], '(', Lex(NoQuote, 1), Closes())
             == Shift(FirstHit(s[i..], s[i - 1], LexOf(depth, inSingle, inDouble), Closes()), i - open - 1)
    {
      if !inSingle && !inDouble && s[i] == ')' && depth <= 1 {
        HitHere(s[i..], s[i - 1], LexOf(depth, inSingle, inDouble), Closes());
        return Some(s[open + 1..i]);
      }
      ghost var st := LexOf(depth, inSingle, inDouble);
      var j;
      j, depth, inSingle, inDouble := Advance(s, i, depth, inSingle, inDouble);
      HitTurn(s, i, j, st, LexOf(depth, inSingle, inDouble), Closes(), s[i - 1]);
      i := j;
    }
    NoHitAtEnd(s[i..], s[i - 1], LexOf(depth, inSingle, inDouble), Closes());
    body := None;
  }

  lemma HitHere(s: string, prev: char, st: Lex, hit: (string, char, Lex) -> bool)
    requires s != "" && hit(s, prev, st)
    ensures FirstHit(s, prev, st, hit) == Some(0)
  {
  }

  lemma NoHitAtEnd(s: string, prev: char, st: Lex, hit: (string, char, Lex) -> bool)
    requires s == ""
    ensures FirstHit(s, prev, st, hit) == None
  {
  }

  /** Everything before the first hit, or all of it. */
  function Before(s: string, hit: (string, char, Lex) -> bool): string {
    match FirstHit(s, ' ', TOP, hit)
    case None => s
    case Some(k) => s[..k]
  }

  /** `stripTrailingClauses` */
  method StripTrailingClauses(setBody: string) returns (r: string)
    ensures r == Before(setBody, StartsClause())
  {
    HitsAreUnquoted();
    hide FirstHit, Unquoted, StartsClause;
    var depth: nat, inSingle, inDouble := 0, false, false;
    var i: nat, prev := 0, ' ';
    assert setBody[0..] == setBody;
    while i < |setBody|
      invariant i <= |setBody| && !(inSingle && inDouble)
      invariant FirstHit(setBody, ' ', TOP, StartsClause())
             == Shift(FirstHit(setBody[i..], prev, LexOf(depth, inSingle, inDouble), StartsClause()), i)
    {
      if StartsClause()(setBody[i..], prev, LexOf(depth, inSingle, inDouble)) {
        HitHere(setBody[i..], prev, LexOf(depth, inSingle, inDouble), StartsClause());
        return setBody[..i];
      }
      ghost var st := LexOf(depth, inSingle, inDouble);
      var j;
      j, depth, inSingle, inDouble := Advance(setBody, i, depth, inSingle, inDouble);
      HitTurn(setBody, i, j, st, LexOf(depth, inSingle, inDouble), StartsClause(), prev);
      i, prev := j, setBody[j - 1];
    }
    NoHitAtEnd(setBody[i..], prev, LexOf(depth, inSingle, inDouble), StartsClause());
    r := setBody;
  }

  /** `selectListOf`: the projection before the top-level FROM, without the SELECT. */
  function SelectList(rest: string): string {
    AfterSelect(Before(rest, StartsFrom()))
  }

  /** `replace(/^SELECT\s+/i, '')` */
  function AfterSelect(s: string): string {
    if |s| > 6 && (forall k :: 0 <= k < 6 ==> Lower(s[k]) == "select"[k]) && IsSpace(s[6]) then TrimStart(s[6..]) else s
  }

  method SelectListOf(rest: string) returns (r: string)
    ensures r == SelectList(rest)
  {
    HitsAreUnquoted();
    hide FirstHit, Unquoted, StartsFrom, AfterSelect;
    var depth: nat, inSingle, inDouble := 0, false, false;
    var i: nat, prev := 0, ' ';
    assert rest[0..] == rest;
    while i < |rest|
      invariant i <= |rest| && !(inSingle && inDouble)
      invariant FirstHit(rest, ' ', TOP, StartsFrom())
             == Shift(FirstHit(rest[i..], prev, LexOf(depth, inSingle, inDouble), StartsFrom()), i)
    {
      if StartsFrom()(rest[i..], prev, LexOf(depth, inSingle, inDouble)) {
        HitHere(rest[i..], prev, LexOf(depth, inSingle, inDouble), StartsFrom());
        return AfterSelect(rest[..i]);
      }
      ghost var st := LexOf(depth, inSingle, inDouble);
      var j;
      j, depth, inSingle, inDouble := Advance(rest, i, depth, inSingle, inDouble);
      HitTurn(rest, i, j, st, LexOf(depth, inSingle, inDouble), StartsFrom(), prev);
      i, prev := j, rest[j - 1];
    }
    NoHitAtEnd(rest[i..], prev, LexOf(depth, inSingle, inDouble), StartsFrom());
    r := AfterSelect(rest);
  }

  // ------------------------------------------------------ splitting is exact

  function JoinCommas(parts: seq<string>): string
    requires parts != []
  {
    if |parts| == 1 then parts[0] else parts[0] + "," + JoinCommas(parts[1..])
  }

  lemma JoinFirst(part: string, rest: seq<string>)
    requires rest != []
    ensures JoinCommas([part] + rest) == part + "," + JoinCommas(rest)
  {
    assert ([part] + rest)[1..] == rest;
  }

  lemma JoinGlue(c: char, parts: seq<string>)
    requires parts != []
    ensures JoinCommas([[c] + parts[0]] + parts[1..]) == [c] + JoinCommas(parts)
  {
    if |parts| > 1 {
      JoinFirst([c] + parts[0], parts[1..]);
      JoinFirst(parts[0], parts[1..]);
      assert parts == [parts[0]] + parts[1..];
    }
  }

  /** Rejoined with commas, the pieces are the text. */
  lemma {:induction false} PiecesRejoin(s: string, st: Lex)
    ensures JoinCommas(Pieces(s, st)) == s
  {
    if s != "" {
      var rest := Pieces(s[1..], Step(st, s[0]));
      var all := Pieces(s, st);
      assert all == if s[0] == ',' && st == TOP then [""] + rest else [[s[0]] + rest[0]] + rest[1..];
      PiecesRejoin(s[1..], Step(st, s[0]));
      hide Pieces, JoinCommas;
      assert s == [s[0]] + s[1..];
      if s[0] == ',' && st == TOP {
        JoinFirst("", rest);
        assert "" + "," + JoinCommas(rest) == s;
      } else {
        JoinGlue(s[0], rest);
      }
    }
  }

  /** `splitTopLevel` loses nothing but a blank last part and the comma before it. */
  lemma SplitRejoins(s: string)
    ensures var parts := SplitTopLevel(s);
            if parts == [] then Blank(s)
            else JoinCommas(parts) == s || exists tail :: Blank(tail) && JoinCommas(parts) + "," + tail == s
  {
    var all := Pieces(s, TOP);
    PiecesRejoin(s, TOP);
    hide Pieces, JoinCommas;
    var tail := all[|all| - 1];
    if Blank(tail) {
      if |all| == 1 {
        JoinOne(tail);
        assert all == [tail];
      } else {
        assert all == all[..|all| - 1] + [tail];
        JoinLast(all[..|all| - 1], tail);
      }
    }
  }

  lemma JoinOne(part: string)
    ensures JoinCommas([part]) == part
  {
  }

  lemma {:induction false} JoinLast(parts: seq<string>, last: string)
    requires parts != []
    ensures JoinCommas(parts + [last]) == JoinCommas(parts) + "," + last
  {
    if |parts| == 1 {
      assert parts + [last] == [parts[0]] + [last];
      JoinFirst(parts[0], [last]);
    } else {
      var rest := parts[1..];
      assert parts == [parts[0]] + rest && parts + [last] == [parts[0]] + (rest + [last]);
      JoinFirst(parts[0], rest);
      JoinFirst(parts[0], rest + [last]);
      JoinLast(rest, last);
      hide JoinCommas;
      assert parts[0] + "," + (JoinCommas(rest) + "," + last) == (parts[0] + "," + JoinCommas(rest)) + "," + last;
    }
  }

  /** Quotes and parentheses closed again, and no comma outside them. */
  ghost predicate SelfContained(p: string) {
    Run(p, TOP) == TOP && Pieces(p, TOP) == [p]
  }

  function Init(parts: seq<string>): seq<string>
    requires parts != []
  {
    parts[..|parts| - 1]
  }

  function Last(parts: seq<string>): string
    requires parts != []
  {
    parts[|parts| - 1]
  }

  lemma GlueAcross(c: char, rest: seq<string>, tail: seq<string>)
    requires rest != [] && tail != []
    ensures var all := [[c] + rest[0]] + rest[1..];
            Init(all) + Glue(Last(all), tail)
            == var joined := Init(rest) + Glue(Last(rest), tail); [[c] + joined[0]] + joined[1..]
  {
    var all := [[c] + rest[0]] + rest[1..];
    var joined := Init(rest) + Glue(Last(rest), tail);
    if |rest| == 1 {
      assert joined == [rest[0] + tail[0]] + tail[1..];
      assert ([c] + rest[0]) + tail[0] == [c] + (rest[0] + tail[0]);
    } else {
      assert joined[0] == rest[0] && all[0] == [c] + rest[0];
    }
  }

  lemma GlueAcrossComma(rest: seq<string>, tail: seq<string>)
    requires rest != [] && tail != []
    ensures Init([""] + rest) + Glue(Last([""] + rest), tail) == [""] + (Init(rest) + Glue(Last(rest), tail))
  {
    assert Init([""] + rest) == [""] + Init(rest) && Last([""] + rest) == Last(rest);
  }

  lemma PiecesCons(c: char, s: string, st: Lex)
    ensures var rest := Pieces(s, Step(st, c));
            Pieces([c] + s, st) == if c == ',' && st == TOP then [""] + rest else [[c] + rest[0]] + rest[1..]
    ensures Run([c] + s, st) == Run(s, Step(st, c))
  {
    assert ([c] + s)[1..] == s;
  }

  /** Splitting a concatenation: the last piece of the first half runs on into the second. */
  lemma {:induction false} PiecesConcat(a: string, b: string, st: Lex)
    ensures Pieces(a + b, st) == Init(Pieces(a, st)) + Glue(Last(Pieces(a, st)), Pieces(b, Run(a, st)))
  {
    if a == "" {
      assert a + b == b;
      GlueNothing(Pieces(b, st));
    } else {
      hide Pieces, Run, Step, Glue, Init, Last;
      var c, a', next := a[0], a[1..], Step(st, a[0]);
      assert a == [c] + a' && a + b == [c] + (a' + b);
      PiecesConcat(a', b, next);
      PiecesCons(c, a', st);
      PiecesCons(c, a' + b, st);
      var rest, tail := Pieces(a', next), Pieces(b, Run(a', next));
      if c == ',' && st == TOP {
        GlueAcrossComma(rest, tail);
      } else {
        GlueAcross(c, rest, tail);
      }
    }
  }

  /** Any list of self-contained parts comes back unchanged. */
  lemma {:induction false} PiecesOfJoined(parts: seq<string>)
    requires parts != [] && forall p :: p in parts ==> SelfContained(p)
    ensures Pieces(JoinCommas(parts), TOP) == parts && Run(JoinCommas(parts), TOP) == TOP
  {
    var first := parts[0];
    assert SelfContained(first);
    if |parts| == 1 {
      assert parts == [first];
    } else {
      var rest := parts[1..];
      forall p | p in rest ensures SelfContained(p) {
        assert p in parts;
      }
      PiecesOfJoined(rest);
      var tail := "," + JoinCommas(rest);
      CommaThen(JoinCommas(rest));
      PiecesConcat(first, tail, TOP);
      RunConcat(first, tail, TOP);
      assert first + "," + JoinCommas(rest) == first + tail;
      hide Pieces, Run;
      assert first + "" == first && parts == [first] + rest;
    }
  }

  lemma CommaThen(s: string)
    ensures Pieces("," + s, TOP) == [""] + Pieces(s, TOP) && Run("," + s, TOP) == Run(s, TOP)
  {
    assert ("," + s)[1..] == s;
  }

  /** What is printed as a list is read as that list, if its last part is not blank. */
  lemma SplitOfJoined(parts: seq<string>)
    requires parts != [] && forall p :: p in parts ==> SelfContained(p)
    requires !Blank(parts[|parts| - 1])
    ensures SplitTopLevel(JoinCommas(parts)) == parts
  {
    PiecesOfJoined(parts);
  }
}
