/**
 * Statements that hide their row write behind a WITH clause: the scan for the first
 * top-level DML keyword, and when it finds the statement's own.
 */
module SqlCte {
  import opened Prelude
  import opened Strings
  import opened SqlLexer
  import opened SqlSplit
  import opened SqlExtract
  import opened SqlLists

  /** /^first\s+second\b/i */
  predicate TwoWords(s: string, first: string, second: string) {
    HasPrefix(s, first) && |s| > |first| && IsSpace(s[|first|]) && IsKeyword(TrimStart(s[|first|..]), second)
  }

  /** /^(INSERT\s+INTO|UPDATE|DELETE\s+FROM|TRUNCATE)\b/i */
  predicate StartsRowWrite(s: string) {
    TwoWords(s, "insert", "into") || IsKeyword(s, "update") || TwoWords(s, "delete", "from") || IsKeyword(s, "truncate")
  }

  /** The four row writes, each before whatever it writes to. */
  lemma RowWriteWords(rest: string)
    ensures StartsRowWrite("INSERT INTO " + rest) && StartsRowWrite("UPDATE " + rest)
    ensures StartsRowWrite("DELETE FROM " + rest) && StartsRowWrite("TRUNCATE " + rest)
  {
    InsertStarts(rest);
    DeleteStarts(rest);
    UpdateStarts(rest);
    hide StartsRowWrite;
  }

  lemma InsertStarts(rest: string)
    ensures StartsRowWrite("INSERT INTO " + rest)
  {
    WordStarts("INTO", " " + rest, "into");
    PairStarts("INSERT", "INTO", rest, "insert", "into");
    hide IsKeyword, TwoWords;
    assert "INSERT" + (" " + ("INTO" + (" " + rest))) == "INSERT INTO " + rest;
  }

  lemma DeleteStarts(rest: string)
    ensures StartsRowWrite("DELETE FROM " + rest)
  {
    WordStarts("FROM", " " + rest, "from");
    PairStarts("DELETE", "FROM", rest, "delete", "from");
    hide IsKeyword, TwoWords;
    assert "DELETE" + (" " + ("FROM" + (" " + rest))) == "DELETE FROM " + rest;
  }

  lemma UpdateStarts(rest: string)
    ensures StartsRowWrite("UPDATE " + rest) && StartsRowWrite("TRUNCATE " + rest)
  {
    WordStarts("UPDATE", " " + rest, "update");
    WordStarts("TRUNCATE", " " + rest, "truncate");
    hide IsKeyword, TwoWords;
    assert "UPDATE" + (" " + rest) == "UPDATE " + rest && "TRUNCATE" + (" " + rest) == "TRUNCATE " + rest;
  }

  lemma WordStarts(upper: string, rest: string, word: string)
    requires |upper| == |word| && forall i :: 0 <= i < |word| ==> Lower(upper[i]) == word[i]
    requires rest != "" && rest[0] == ' '
    ensures IsKeyword(upper + rest, word) && HasPrefix(upper + rest, word)
  {
  }

  lemma PairStarts(first: string, second: string, rest: string, one: string, two: string)
    requires |first| == |one| && forall i :: 0 <= i < |one| ==> Lower(first[i]) == one[i]
    requires IsKeyword(second + (" " + rest), two) && second != "" && !IsSpace(second[0])
    ensures TwoWords(first + (" " + (second + (" " + rest))), one, two)
  {
    var tail := second + (" " + rest);
    WordStarts(first, " " + tail, one);
    var s := first + (" " + tail);
    assert s[|one|..] == " " + tail && (" " + tail)[1..] == tail && s[|one|] == ' ';
    hide IsKeyword, HasPrefix;
    assert tail[0] == second[0] && TrimStart(" " + tail) == tail;
  }

  /** A DML keyword at the top level that is not the end of a longer word. */
  function StartsDml(): (string, char, Lex) -> bool {
    (s: string, prev: char, st: Lex) => st == TOP && StartsRowWrite(s) && !IsWordChar(prev)
  }

  /** `stripWithClause`: from the first top-level DML keyword on, or all of it. */
  function WithoutCtes(text: string): string {
    if !IsKeyword(text, "with") then text
    else match FirstHit(text, ' ', TOP, StartsDml())
      case None => text
      case Some(h) => text[h..]
  }

  lemma WriteIsWord(s: string)
    requires StartsRowWrite(s)
    ensures s != "" && IsWordChar(s[0])
  {
    if HasPrefix(s, "insert") { assert Lower(s[0]) == "insert"[0]; }
    if HasPrefix(s, "delete") { assert Lower(s[0]) == "delete"[0]; }
    if IsKeyword(s, "update") { KeywordStarts(s, "update"); }
    if IsKeyword(s, "truncate") { KeywordStarts(s, "truncate"); }
  }

  lemma DmlIsUnquoted()
    ensures Unquoted(StartsDml())
  {
    forall s: string, prev, st | StartsDml()(s, prev, st) ensures s != "" && st.quote == NoQuote && s[0] != '\'' {
      WriteIsWord(s);
    }
  }

  lemma WithoutIs(text: string)
    ensures !IsKeyword(text, "with") ==> WithoutCtes(text) == text
    ensures IsKeyword(text, "with") ==>
      WithoutCtes(text) == match FirstHit(text, ' ', TOP, StartsDml()) case None => text case Some(h) => text[h..]
  {
    hide FirstHit, IsKeyword;
  }

  method StripWithClause(text: string) returns (r: string)
    ensures r == WithoutCtes(text)
  {
    WithoutIs(text);
    if !IsKeyword(text, "with") { return text; }
    var h := FirstDml(text);
    r := if h.None? then text else text[h.value..];
  }

  /** The scanning loop. */
  method FirstDml(text: string) returns (h: Option<nat>)
    ensures h == FirstHit(text, ' ', TOP, StartsDml())
  {
    DmlIsUnquoted();
    hide FirstHit, Unquoted, StartsDml, StartsRowWrite;
    var depth: nat, inSingle, inDouble := 0, false, false;
    var i: nat, prev := 0, ' ';
    assert text[0..] == text;
    while i < |text|
      invariant i <= |text| && !(inSingle && inDouble)
      invariant FirstHit(text, ' ', TOP, StartsDml())
             == Shift(FirstHit(text[i..], prev, LexOf(depth, inSingle, inDouble), StartsDml()), i)
    {
      if StartsDml()(text[i..], prev, LexOf(depth, inSingle, inDouble)) {
        HitHere(text[i..], prev, LexOf(depth, inSingle, inDouble), StartsDml());
        return Some(i);
      }
      ghost var st := LexOf(depth, inSingle, inDouble);
      var j;
      j, depth, inSingle, inDouble := Advance(text, i, depth, inSingle, inDouble);
      HitTurn(text, i, j, st, LexOf(depth, inSingle, inDouble), StartsDml(), prev);
      i, prev := j, text[j - 1];
    }
    NoHitAtEnd(text[i..], prev, LexOf(depth, inSingle, inDouble), StartsDml());
    h := None;
  }

  // --------------------------------------------------------- a written WITH clause

  datatype Hint = NoHint | Materialized | NotMaterialized

  /** `name (columns) AS MATERIALIZED (body)` */
  datatype Cte = Cte(name: string, quoted: bool, columns: Option<string>, hint: Hint, body: string)

  function NameText(c: Cte): string {
    if c.quoted then InQuotes(c.name) else c.name
  }

  function ListText(c: Cte): string {
    match c.columns
    case None => ""
    case Some(list) => " (" + (list + ")")
  }

  function HintText(h: Hint): string {
    match h
    case NoHint => ""
    case Materialized => "MATERIALIZED "
    case NotMaterialized => "NOT MATERIALIZED "
  }

  /** The definition behind its column list, and what follows it. */
  function AsText(c: Cte, x: string): string {
    " AS " + (HintText(c.hint) + ("(" + (c.body + (")" + x))))
  }

  function CteText(c: Cte): string {
    NameText(c) + (ListText(c) + AsText(c, ""))
  }

  function CtesText(ctes: seq<Cte>): string {
    if ctes == [] then "" else CteText(ctes[0]) + (if |ctes| == 1 then "" else ", " + CtesText(ctes[1..]))
  }

  function WithText(recursive: bool, ctes: seq<Cte>, dml: string): string {
    "WITH " + ((if recursive then "RECURSIVE " else "") + (CtesText(ctes) + (" " + dml)))
  }

  predicate Enclosed(s: string) {
    StrayFree(s, TOP) && Run(s, TOP) == TOP
  }

  /** A definition whose parentheses and quotes close in themselves. */
  predicate Closed(c: Cte) {
    && (if c.quoted then forall i :: 0 <= i < |c.name| ==> c.name[i] != '"' else IsIdent(c.name))
    && (c.columns.Some? ==> Enclosed(c.columns.value))
    && Enclosed(c.body)
  }

  /** A name the scan takes for a DML keyword. */
  predicate ReadsAsDml(c: Cte) {
    !c.quoted && (LowerAll(c.name) == "update" || LowerAll(c.name) == "truncate")
  }

  // ------------------------------------------------------------------ word by word

  /** Inside a word nothing starts. */
  lemma {:induction false} WordSkips(w: string, prev: char, x: string)
    requires (forall i :: 0 <= i < |w| ==> IsWordChar(w[i])) && IsWordChar(prev)
    ensures FirstHit(w + x, prev, TOP, StartsDml()) == Shift(FirstHit(x, LastChar(w, prev), TOP, StartsDml()), |w|)
    decreases |w|
  {
    if w == "" {
      assert w + x == x;
    } else {
      WordSkips(w[1..], w[0], x);
      assert (w + x)[0] == w[0] && (w + x)[1..] == w[1..] + x;
      WordStep(w[0]);
      hide FirstHit, StartsRowWrite, IsWordChar;
      HitStep(w + x, prev, TOP, StartsDml());
      ShiftShift(FirstHit(x, LastChar(w, prev), TOP, StartsDml()), |w| - 1, 1);
      assert LastChar(w[1..], w[0]) == LastChar(w, prev);
    }
  }

  lemma WordStep(c: char)
    requires IsWordChar(c) || c == ' ' || c == ','
    ensures Step(TOP, c) == TOP
  {
  }

  lemma LastOf(w: string)
    requires w != ""
    ensures LastChar(w[1..], w[0]) == w[|w| - 1]
  {
  }

  /** A word that starts no DML is passed. */
  lemma PlainWord(w: string, prev: char, x: string)
    requires IsIdent(w) && !StartsRowWrite(w + x)
    ensures FirstHit(w + x, prev, TOP, StartsDml()) == Shift(FirstHit(x, w[|w| - 1], TOP, StartsDml()), |w|)
  {
    assert w != "" && forall i :: 0 <= i < |w| ==> IsWordChar(w[i]);
    assert !StartsDml()(w + x, prev, TOP) by { hide StartsRowWrite; }
    WordStep(w[0]);
    hide *;
    WordSkips(w[1..], w[0], x);
    assert (w + x)[0] == w[0] && (w + x)[1..] == w[1..] + x;
    HitStep(w + x, prev, TOP, StartsDml());
    LastOf(w);
    ShiftShift(FirstHit(x, LastChar(w[1..], w[0]), TOP, StartsDml()), |w| - 1, 1);
  }

  /** So is a character outside words. */
  lemma PlainChar(c: char, prev: char, st: Lex, x: string)
    requires !IsWordChar(c) || st != TOP
    ensures FirstHit([c] + x, prev, st, StartsDml()) == Shift(FirstHit(x, c, Step(st, c), StartsDml()), 1)
  {
    var s := [c] + x;
    assert s[0] == c && s[1..] == x;
    assert !StartsDml()(s, prev, st) by {
      if StartsRowWrite(s) { WriteIsWord(s); }
    }
    hide FirstHit, StartsRowWrite;
    HitStep(s, prev, st, StartsDml());
  }

  lemma NothingRun(prev: char, st: Lex, x: string)
    ensures "" + x == x && LastChar("", prev) == prev && Run("", st) == st
    ensures Shift(FirstHit(x, prev, Deeper(st), StartsDml()), 0) == FirstHit(x, prev, Deeper(st), StartsDml())
  {
    hide FirstHit;
  }

  lemma BodyStep(p: string, prev: char, st: Lex)
    requires p != "" && StrayFree(p, st)
    ensures StrayFree(p[1..], Step(st, p[0])) && Run(p, st) == Run(p[1..], Step(st, p[0]))
    ensures Step(Deeper(st), p[0]) == Deeper(Step(st, p[0])) && Deeper(st) != TOP
    ensures LastChar(p[1..], p[0]) == LastChar(p, prev)
  {
  }

  /** Nothing starts inside parentheses. */
  lemma {:induction false} BodySkips(p: string, prev: char, st: Lex, x: string)
    requires StrayFree(p, st)
    ensures FirstHit(p + x, prev, Deeper(st), StartsDml())
         == Shift(FirstHit(x, LastChar(p, prev), Deeper(Run(p, st)), StartsDml()), |p|)
    decreases |p|
  {
    hide *;
    if p == "" {
      NothingRun(prev, st, x);
    } else {
      BodyStep(p, prev, st);
      BodySkips(p[1..], p[0], Step(st, p[0]), x);
      assert p + x == [p[0]] + (p[1..] + x);
      PlainChar(p[0], prev, Deeper(st), p[1..] + x);
      ShiftShift(FirstHit(x, LastChar(p, prev), Deeper(Run(p, st)), StartsDml()), |p| - 1, 1);
    }
  }

  // ----------------------------------------------------------- clause by clause

  lemma WordLetter(s: string, word: string)
    requires word != "" && s != ""
    ensures HasPrefix(s, word) || IsKeyword(s, word) ==> Lower(s[0]) == word[0]
  {
  }

  /** Only words on i, u, d or t start a row write. */
  lemma FirstLetter(s: string, c: char)
    requires s != "" && Lower(s[0]) == c && c != 'i' && c != 'u' && c != 'd' && c != 't'
    ensures !StartsRowWrite(s)
  {
    assert "insert"[0] == 'i' && "update"[0] == 'u' && "delete"[0] == 'd' && "truncate"[0] == 't';
    WordLetter(s, "insert");
    WordLetter(s, "delete");
    WordLetter(s, "update");
    WordLetter(s, "truncate");
    hide HasPrefix, IsKeyword, TrimStart;
  }

  lemma WholeWord(name: string, rest: string, word: string)
    requires IsIdent(name) && rest != "" && !IsWordChar(rest[0]) && word != ""
    requires forall i :: 0 <= i < |word| ==> IsWordChar(word[i]) && Lower(word[i]) == word[i]
    ensures IsKeyword(name + rest, word) <==> LowerAll(name) == word
    ensures HasPrefix(name + rest, word) && (|word| < |name + rest| ==> IsSpace((name + rest)[|word|])) ==>
      |name| == |word|
  {
    var s := name + rest;
    assert forall k :: 0 <= k < |name| ==> s[k] == name[k];
    assert s[|name|] == rest[0];
    assert |word| < |name| ==> IsWordChar(s[|word|]);
    assert |word| > |name| ==> Lower(s[|name|]) != word[|name|] by {
      assert !IsWordChar(Lower(rest[0]));
    }
    assert LowerAll(name) == word <==> |name| == |word| && forall k :: 0 <= k < |word| ==> Lower(s[k]) == word[k];
  }

  /** A bare name starts a row write exactly if it is UPDATE or TRUNCATE. */
  lemma NameReads(c: Cte, rest: string)
    requires IsIdent(c.name) && !c.quoted && |rest| > 1 && rest[0] == ' ' && (rest[1] == 'A' || rest[1] == '(')
    ensures StartsRowWrite(c.name + rest) <==> ReadsAsDml(c)
  {
    WholeWord(c.name, rest, "update");
    WholeWord(c.name, rest, "truncate");
    WholeWord(c.name, rest, "insert");
    WholeWord(c.name, rest, "delete");
    var s := c.name + rest;
    assert s[|c.name|..] == rest && TrimStart(rest) == rest[1..] && rest[1..][0] == rest[1];
    WordLetter(rest[1..], "into");
    WordLetter(rest[1..], "from");
    hide IsKeyword, HasPrefix, TrimStart;
  }

  lemma CteIs(c: Cte, x: string)
    ensures CteText(c) + x == NameText(c) + (ListText(c) + AsText(c, x))
    ensures |CteText(c)| == |NameText(c)| + (|ListText(c)| + 6 + |HintText(c.hint)| + |c.body|)
    ensures var rest := ListText(c) + AsText(c, x); |rest| > 1 && rest[0] == ' ' && (rest[1] == 'A' || rest[1] == '(')
  {
    hide HintText;
    assert ListText(c) + AsText(c, x) == ListText(c) + AsText(c, "") + x;
  }

  /** A closed definition under another name is passed. */
  lemma CteSkips(c: Cte, prev: char, x: string)
    requires Closed(c) && !ReadsAsDml(c)
    ensures FirstHit(CteText(c) + x, prev, TOP, StartsDml()) == Shift(FirstHit(x, ')', TOP, StartsDml()), |CteText(c)|)
  {
    var rest := ListText(c) + AsText(c, x);
    hide *;
    CteIs(c, x);
    var last := NameSkips(c, prev, rest);
    BehindSkips(c, last, x);
    ShiftShift(FirstHit(x, ')', TOP, StartsDml()), |ListText(c)| + 6 + |HintText(c.hint)| + |c.body|, |NameText(c)|);
  }

  lemma NameSkips(c: Cte, prev: char, rest: string) returns (last: char)
    requires Closed(c) && !ReadsAsDml(c) && |rest| > 1 && rest[0] == ' ' && (rest[1] == 'A' || rest[1] == '(')
    ensures FirstHit(NameText(c) + rest, prev, TOP, StartsDml())
         == Shift(FirstHit(rest, last, TOP, StartsDml()), |NameText(c)|)
  {
    hide FirstHit, StartsDml, StartsRowWrite, ReadsAsDml, Enclosed, IsWordChar;
    if c.quoted {
      QuotedSkips(c.name, prev, rest);
      last := '"';
    } else {
      NameReads(c, rest);
      PlainWord(c.name, prev, rest);
      last := c.name[|c.name| - 1];
    }
  }

  lemma QuoteSteps(c: char)
    ensures Step(TOP, '"') == Lex(Double, 0) && Step(Lex(Double, 0), '"') == TOP && Lex(Double, 0) != TOP
    ensures c != '"' ==> Step(Lex(Double, 0), c) == Lex(Double, 0)
    ensures !IsWordChar('"')
  {
  }

  /** Nothing starts inside quotes. */
  lemma {:induction false} InsideSkips(name: string, prev: char, x: string)
    requires forall i :: 0 <= i < |name| ==> name[i] != '"'
    ensures FirstHit(name + ("\"" + x), prev, Lex(Double, 0), StartsDml())
         == Shift(FirstHit(x, '"', TOP, StartsDml()), |name| + 1)
    decreases |name|
  {
    hide *;
    if name == "" {
      QuoteSteps('"');
      assert name + ("\"" + x) == ['"'] + x;
      PlainChar('"', prev, Lex(Double, 0), x);
    } else {
      QuoteSteps(name[0]);
      InsideSkips(name[1..], name[0], x);
      assert name + ("\"" + x) == [name[0]] + (name[1..] + ("\"" + x));
      PlainChar(name[0], prev, Lex(Double, 0), name[1..] + ("\"" + x));
      ShiftShift(FirstHit(x, '"', TOP, StartsDml()), |name|, 1);
    }
  }

  lemma QuotedSkips(name: string, prev: char, x: string)
    requires forall i :: 0 <= i < |name| ==> name[i] != '"'
    ensures FirstHit(InQuotes(name) + x, prev, TOP, StartsDml())
         == Shift(FirstHit(x, '"', TOP, StartsDml()), |InQuotes(name)|)
  {
    assert InQuotes(name) + x == ['"'] + (name + ("\"" + x)) && |InQuotes(name)| == |name| + 2;
    hide *;
    QuoteSteps('"');
    PlainChar('"', prev, TOP, name + ("\"" + x));
    InsideSkips(name, '"', x);
    ShiftShift(FirstHit(x, '"', TOP, StartsDml()), |name| + 1, 1);
  }

  lemma SpaceSkips(prev: char, x: string)
    ensures FirstHit(" " + x, prev, TOP, StartsDml()) == Shift(FirstHit(x, ' ', TOP, StartsDml()), 1)
  {
    assert " " + x == [' '] + x && !IsWordChar(' ');
    WordStep(' ');
    hide *;
    PlainChar(' ', prev, TOP, x);
  }

  lemma ParenSkips(x: string)
    ensures FirstHit("(" + x, ' ', TOP, StartsDml()) == Shift(FirstHit(x, '(', Deeper(TOP), StartsDml()), 1)
  {
    assert "(" + x == ['('] + x && !IsWordChar('(');
    ParenSteps();
    hide *;
    PlainChar('(', ' ', TOP, x);
  }

  /** Behind the name: the columns, AS, the hint, the parentheses and what they hold. */
  lemma BehindSkips(c: Cte, prev: char, x: string)
    requires Closed(c)
    ensures FirstHit(ListText(c) + AsText(c, x), prev, TOP, StartsDml())
         == Shift(FirstHit(x, ')', TOP, StartsDml()), |ListText(c)| + 6 + |HintText(c.hint)| + |c.body|)
  {
    hide FirstHit, StartsDml, AsText, IsIdent, Enclosed, HintText;
    match c.columns {
      case None =>
        assert ListText(c) + AsText(c, x) == AsText(c, x);
        AsSkips(c, prev, x);
      case Some(list) =>
        AsSkips(c, ')', x);
        ListSkips(list, prev, AsText(c, x));
        assert ListText(c) + AsText(c, x) == " (" + (list + (")" + AsText(c, x)));
        ShiftShift(FirstHit(x, ')', TOP, StartsDml()), 6 + |HintText(c.hint)| + |c.body|, |list| + 3);
    }
  }

  lemma ListSkips(list: string, prev: char, x: string)
    requires Enclosed(list)
    ensures FirstHit(" (" + (list + (")" + x)), prev, TOP, StartsDml())
         == Shift(FirstHit(x, ')', TOP, StartsDml()), |list| + 3)
  {
    var y := list + (")" + x);
    assert " (" + y == " " + ("(" + y);
    hide *;
    SpaceSkips(prev, "(" + y);
    ParenSkips(y);
    BodyCloses(list, x);
    TwoShifts(FirstHit(x, ')', TOP, StartsDml()), |list| + 1);
  }

  lemma TwoShifts(k: Option<nat>, n: nat)
    ensures Shift(Shift(Shift(k, n), 1), 1) == Shift(k, n + 2)
  {
  }

  lemma AsIs(c: Cte, x: string)
    ensures AsText(c, x) == " " + ("AS" + (" " + (HintText(c.hint) + ("(" + (c.body + (")" + x))))))
    ensures Closed(c) ==> Enclosed(c.body)
  {
    hide HintText, Enclosed, IsIdent;
  }

  lemma AsSkips(c: Cte, prev: char, x: string)
    requires Closed(c)
    ensures FirstHit(AsText(c, x), prev, TOP, StartsDml())
         == Shift(FirstHit(x, ')', TOP, StartsDml()), 6 + |HintText(c.hint)| + |c.body|)
  {
    var y := "(" + (c.body + (")" + x));
    hide *;
    AsIs(c, x);
    OpeningWords();
    SpaceSkips(prev, "AS" + (" " + (HintText(c.hint) + y)));
    OpeningWord("AS", ' ', HintText(c.hint) + y);
    HintSkips(c.hint, y);
    ParenSkips(c.body + (")" + x));
    BodyCloses(c.body, x);
    FiveShifts(FirstHit(x, ')', TOP, StartsDml()), |c.body| + 1, |HintText(c.hint)|);
  }

  lemma FiveShifts(k: Option<nat>, n: nat, h: nat)
    ensures Shift(Shift(Shift(Shift(Shift(k, n), 1), h), 3), 1) == Shift(k, n + h + 5)
  {
  }

  lemma HintSkips(h: Hint, y: string)
    ensures FirstHit(HintText(h) + y, ' ', TOP, StartsDml()) == Shift(FirstHit(y, ' ', TOP, StartsDml()), |HintText(h)|)
  {
    hide FirstHit, StartsDml, IsOpening;
    OpeningWords();
    match h {
      case NoHint => assert HintText(h) + y == y;
      case Materialized =>
        assert HintText(h) + y == "MATERIALIZED" + (" " + y);
        OpeningWord("MATERIALIZED", ' ', y);
      case NotMaterialized =>
        assert HintText(h) + y == "NOT" + (" " + ("MATERIALIZED" + (" " + y)));
        OpeningWord("NOT", ' ', "MATERIALIZED" + (" " + y));
        OpeningWord("MATERIALIZED", ' ', y);
        ShiftShift(FirstHit(y, ' ', TOP, StartsDml()), 13, 4);
    }
  }

  lemma ParenSteps()
    ensures Step(TOP, ' ') == TOP && Step(TOP, '(') == Deeper(TOP) && Step(Deeper(TOP), ')') == TOP
      && Deeper(TOP) != TOP
  {
  }

  lemma BodyCloses(body: string, x: string)
    requires Enclosed(body)
    ensures FirstHit(body + (")" + x), '(', Deeper(TOP), StartsDml())
      == Shift(FirstHit(x, ')', TOP, StartsDml()), |body| + 1)
  {
    assert ")" + x == [')'] + x && StrayFree(body, TOP) && Run(body, TOP) == TOP;
    hide *;
    ParenSteps();
    BodySkips(body, '(', TOP, ")" + x);
    PlainChar(')', LastChar(body, '('), Deeper(TOP), x);
    ShiftShift(FirstHit(x, ')', TOP, StartsDml()), 1, |body|);
  }

  /** A definition under the name of a DML keyword is where the scan stops. */
  lemma CteStops(c: Cte, prev: char, x: string)
    requires Closed(c) && ReadsAsDml(c) && !IsWordChar(prev)
    ensures FirstHit(CteText(c) + x, prev, TOP, StartsDml()) == Some(0)
  {
    CteIs(c, x);
    NameReads(c, ListText(c) + AsText(c, x));
    assert NameText(c) == c.name;
    assert CteText(c) + x != "";
    hide FirstHit, StartsRowWrite, CteText;
    HitHere(CteText(c) + x, prev, TOP, StartsDml());
  }

  ghost predicate AllClosed(ctes: seq<Cte>) {
    forall c :: c in ctes ==> Closed(c)
  }

  predicate NoneReads(ctes: seq<Cte>) {
    forall c :: c in ctes ==> !ReadsAsDml(c)
  }

  /** Where the scan of the definitions ends: behind them all, or inside at a name it takes for DML. */
  lemma {:induction false} CtesScanned(ctes: seq<Cte>, prev: char, x: string)
    requires ctes != [] && AllClosed(ctes) && !IsWordChar(prev)
    ensures NoneReads(ctes) ==>
      FirstHit(CtesText(ctes) + x, prev, TOP, StartsDml())
        == Shift(FirstHit(x, ')', TOP, StartsDml()), |CtesText(ctes)|)
    ensures !NoneReads(ctes) ==>
      var h := FirstHit(CtesText(ctes) + x, prev, TOP, StartsDml()); h.Some? && h.value < |CtesText(ctes)|
    decreases |ctes|
  {
    hide *;
    ReadsSplit(ctes);
    TextSplit(ctes, x);
    var c, rest := ctes[0], ctes[1..];
    var tail := if |ctes| == 1 then x else ", " + (CtesText(rest) + x);
    SpaceIsNoWord();
    if ReadsAsDml(c) {
      CteStops(c, prev, tail);
    } else {
      CteSkips(c, prev, tail);
      if |ctes| > 1 {
        var more := CtesText(rest) + x;
        CtesScanned(rest, ' ', x);
        CommaSkips(more);
        ShiftedInside(FirstHit(x, ')', TOP, StartsDml()), FirstHit(more, ' ', TOP, StartsDml()), |CtesText(rest)|,
          |CteText(c)|);
      } else {
        OneOf(rest);
      }
    }
  }

  lemma OneOf(rest: seq<Cte>)
    requires rest == []
    ensures NoneReads(rest)
  {
  }

  lemma ShiftedInside(end: Option<nat>, k: Option<nat>, n: nat, m: nat)
    ensures k == Shift(end, n) ==> Shift(Shift(k, 2), m) == Shift(end, m + 2 + n)
    ensures k.Some? && k.value < n ==> Shift(Shift(k, 2), m).Some? && Shift(Shift(k, 2), m).value < m + 2 + n
  {
  }

  lemma CommaSkips(x: string)
    ensures FirstHit(", " + x, ')', TOP, StartsDml()) == Shift(FirstHit(x, ' ', TOP, StartsDml()), 2)
  {
    assert ", " + x == [','] + ([' '] + x) && !IsWordChar(',') && !IsWordChar(' ');
    WordStep(',');
    WordStep(' ');
    hide *;
    PlainChar(',', ')', TOP, [' '] + x);
    PlainChar(' ', ',', TOP, x);
    ShiftShift(FirstHit(x, ' ', TOP, StartsDml()), 1, 1);
  }

  lemma ReadsSplit(ctes: seq<Cte>)
    requires ctes != [] && AllClosed(ctes)
    ensures Closed(ctes[0]) && AllClosed(ctes[1..])
      && (NoneReads(ctes) <==> !ReadsAsDml(ctes[0]) && NoneReads(ctes[1..]))
  {
    hide Closed, ReadsAsDml;
    assert ctes == [ctes[0]] + ctes[1..];
  }

  lemma TextSplit(ctes: seq<Cte>, x: string)
    requires ctes != []
    ensures CtesText(ctes) + x == CteText(ctes[0]) + if |ctes| == 1 then x else ", " + (CtesText(ctes[1..]) + x)
    ensures |CteText(ctes[0])| > 0
    ensures |CtesText(ctes)| == |CteText(ctes[0])| + if |ctes| == 1 then 0 else 2 + |CtesText(ctes[1..])|
  {
    hide *;
    CteLong(ctes[0]);
    TextStep(ctes);
    Bracketed(CteText(ctes[0]), ", ", CtesText(ctes[1..]), x);
  }

  lemma TextStep(ctes: seq<Cte>)
    requires ctes != []
    ensures CtesText(ctes) == if |ctes| == 1 then CteText(ctes[0]) else CteText(ctes[0]) + (", " + CtesText(ctes[1..]))
  {
    hide CteText;
    assert CteText(ctes[0]) + "" == CteText(ctes[0]);
  }

  lemma Bracketed(a: string, b: string, c: string, d: string)
    ensures (a + (b + c)) + d == a + (b + (c + d))
  {
  }

  lemma SpaceIsNoWord()
    ensures !IsWordChar(' ')
  {
  }

  lemma CteLong(c: Cte)
    ensures |CteText(c)| > 0
  {
  }

  predicate IsOpening(w: string) {
    w == "WITH" || w == "RECURSIVE" || w == "AS" || w == "NOT" || w == "MATERIALIZED"
  }

  lemma OpeningIs(w: string, x: string)
    requires IsOpening(w)
    ensures w != "" && IsIdent(w) && !StartsRowWrite(w + x)
  {
    OpeningLetter(w);
    assert (w + x)[0] == w[0];
    hide *;
    FirstLetter(w + x, Lower(w[0]));
  }

  lemma OpeningLetter(w: string)
    requires IsOpening(w)
    ensures w != "" && IsIdent(w)
    ensures var c := Lower(w[0]); c != 'i' && c != 'u' && c != 'd' && c != 't'
  {
  }

  lemma OpeningWords()
    ensures IsOpening("WITH") && IsOpening("RECURSIVE") && IsOpening("AS") && IsOpening("NOT")
      && IsOpening("MATERIALIZED")
  {
  }

  lemma OpeningWord(w: string, prev: char, x: string)
    requires IsOpening(w)
    ensures FirstHit(w + (" " + x), prev, TOP, StartsDml()) == Shift(FirstHit(x, ' ', TOP, StartsDml()), |w| + 1)
  {
    hide *;
    OpeningIs(w, " " + x);
    PlainWord(w, prev, " " + x);
    SpaceSkips(w[|w| - 1], x);
    ShiftShift(FirstHit(x, ' ', TOP, StartsDml()), 1, |w|);
  }

  /**
   * Behind any WITH clause of closed definitions the statement's own row write is found,
   * exactly if no definition bears the bare name UPDATE or TRUNCATE.
   */
  lemma CtesSkippedIff(recursive: bool, ctes: seq<Cte>, dml: string)
    requires ctes != [] && AllClosed(ctes) && StartsRowWrite(dml)
    ensures WithoutCtes(WithText(recursive, ctes, dml)) == dml <==> NoneReads(ctes)
  {
    hide *;
    var all := CtesText(ctes) + (" " + dml);
    WithReads(recursive, ctes, dml);
    OwnWrite(dml);
    SpaceIsNoWord();
    CtesScanned(ctes, ' ', " " + dml);
    SpaceSkips(')', dml);
    Shifts(|CtesText(ctes)|);
    Conclude(WithText(recursive, ctes, dml), dml, recursive, FirstHit(all, ' ', TOP, StartsDml()), |CtesText(ctes)|);
  }

  lemma Shifts(n: nat)
    ensures Shift(Shift(Some(0), 1), n) == Some(n + 1)
  {
  }

  /** The scan reaches the definitions. */
  lemma WithReads(recursive: bool, ctes: seq<Cte>, dml: string)
    ensures var text, all := WithText(recursive, ctes, dml), CtesText(ctes) + (" " + dml);
      && IsKeyword(text, "with") && |text| == (if recursive then 15 else 5) + |CtesText(ctes)| + 1 + |dml|
      && text[|text| - |dml|..] == dml
      && FirstHit(text, ' ', TOP, StartsDml())
        == Shift(FirstHit(all, ' ', TOP, StartsDml()), if recursive then 15 else 5)
  {
    var all := CtesText(ctes) + (" " + dml);
    var behind := if recursive then "RECURSIVE" + (" " + all) else all;
    WithIs(recursive, ctes, dml);
    hide *;
    OpeningWords();
    WithIsWord(behind);
    OpeningWord("WITH", ' ', behind);
    if recursive {
      OpeningWord("RECURSIVE", ' ', all);
      ShiftShift(FirstHit(all, ' ', TOP, StartsDml()), 10, 5);
    }
  }

  lemma WithIs(recursive: bool, ctes: seq<Cte>, dml: string)
    ensures var all := CtesText(ctes) + (" " + dml);
      WithText(recursive, ctes, dml) == "WITH" + (" " + if recursive then "RECURSIVE" + (" " + all) else all)
  {
    hide CtesText;
    var all := CtesText(ctes) + (" " + dml);
    assert "WITH " + all == "WITH" + (" " + all);
    assert "WITH " + ("RECURSIVE " + all) == "WITH" + (" " + ("RECURSIVE" + (" " + all)));
    assert "WITH " + ("" + all) == "WITH " + all;
  }

  /** `name AS (body)` */
  function Plain(name: string, body: string): Cte {
    Cte(name, false, None, NoHint, body)
  }

  lemma UpdateIsName()
    ensures IsIdent("update") && LowerAll("update") == "update"
  {
  }

  lemma UpdateReads(c: Cte)
    requires c == Plain("update", "SELECT 1")
    ensures Closed(c) && ReadsAsDml(c)
  {
    UpdateIsName();
    PlainStrayFree(c.body);
    hide IsIdent, LowerAll, StrayFree, Run;
  }

  /** `WITH update AS (SELECT 1) ...`: whatever row is written behind it, something else is read. */
  lemma NamedUpdateHides(dml: string)
    requires StartsRowWrite(dml)
    ensures WithoutCtes(WithText(false, [Plain("update", "SELECT 1")], dml)) != dml
  {
    hide Closed, ReadsAsDml, WithText, WithoutCtes, StartsRowWrite;
    var c := Plain("update", "SELECT 1");
    UpdateReads(c);
    assert c in [c];
    CtesSkippedIff(false, [c], dml);
  }

  /** A row write inside a definition stays inside: behind a main text without one, nothing is cut. */
  lemma InnerWritesUnseen(recursive: bool, ctes: seq<Cte>, query: string)
    requires ctes != [] && AllClosed(ctes) && NoneReads(ctes) && FirstHit(query, ' ', TOP, StartsDml()) == None
    ensures WithoutCtes(WithText(recursive, ctes, query)) == WithText(recursive, ctes, query)
  {
    hide *;
    WithReads(recursive, ctes, query);
    SpaceIsNoWord();
    CtesScanned(ctes, ' ', " " + query);
    SpaceSkips(')', query);
    NothingShifted(|CtesText(ctes)|, if recursive then 15 else 5);
    WithoutIs(WithText(recursive, ctes, query));
  }

  lemma NothingShifted(m: nat, n: nat)
    ensures Shift(Shift(Shift(None, 1), m), n) == None
  {
  }

  lemma SelectOneHasNoWrite()
    ensures FirstHit("SELECT 1", ' ', TOP, StartsDml()) == None
  {
    var select, one, s := "SELECT", "1", "SELECT 1";
    assert s == select + (" " + one) && one == one + "";
    assert IsIdent(select) && IsIdent(one) && select[0] == 'S' && Lower('S') == 's' && one[0] == '1'
      && Lower('1') == '1';
    FirstLetter(s, 's');
    FirstLetter(one, '1');
    NoHitAtEnd("", '1', TOP, StartsDml());
    hide *;
    PlainWord(select, ' ', " " + one);
    SpaceSkips(select[|select| - 1], one);
    PlainWord(one, ' ', "");
    NothingShifted(1, |select|);
  }

  lemma DIsName()
    ensures IsIdent("d") && LowerAll("d") != "update" && LowerAll("d") != "truncate"
  {
    assert |LowerAll("d")| == 1;
    hide LowerAll;
  }

  lemma DeletingEnclosed()
    ensures Enclosed("DELETE FROM users RETURNING id")
  {
    var p, q := "DELETE FROM users", " RETURNING id";
    assert forall i :: 0 <= i < |p| ==> IsPlain(p[i]);
    assert forall i :: 0 <= i < |q| ==> IsPlain(q[i]);
    assert "DELETE FROM users RETURNING id" == p + q;
    hide StrayFree, Run, IsPlain;
    PlainStrayFree(p + q);
  }

  lemma DeletingReads(c: Cte)
    requires c == Plain("d", "DELETE FROM users RETURNING id")
    ensures Closed(c) && !ReadsAsDml(c)
  {
    DIsName();
    DeletingEnclosed();
    hide Enclosed, IsIdent, LowerAll;
  }

  /** `WITH d AS (DELETE FROM users RETURNING id) SELECT 1` comes through whole, its DELETE unseen. */
  lemma DeleteInCteUnseen()
    ensures var text := WithText(false, [Plain("d", "DELETE FROM users RETURNING id")], "SELECT 1");
      WithoutCtes(text) == text
  {
    hide Closed, ReadsAsDml, WithText, WithoutCtes, FirstHit;
    var c := Plain("d", "DELETE FROM users RETURNING id");
    DeletingReads(c);
    SelectOneHasNoWrite();
    assert AllClosed([c]) && NoneReads([c]);
    InnerWritesUnseen(false, [c], "SELECT 1");
  }

  lemma WithIsWord(x: string)
    ensures IsKeyword("WITH" + (" " + x), "with")
  {
    var s := "WITH" + (" " + x);
    assert s[0] == 'W' && s[1] == 'I' && s[2] == 'T' && s[3] == 'H' && s[4] == ' ';
  }

  lemma OwnWrite(dml: string)
    requires StartsRowWrite(dml)
    ensures FirstHit(dml, ' ', TOP, StartsDml()) == Some(0)
  {
    SpaceIsNoWord();
    WriteIsWord(dml);
    hide StartsRowWrite, FirstHit, IsWordChar;
    assert StartsDml()(dml, ' ', TOP);
    HitHere(dml, ' ', TOP, StartsDml());
  }

  lemma Conclude(text: string, dml: string, recursive: bool, k: Option<nat>, n: nat)
    requires IsKeyword(text, "with") && k.Some?
    requires FirstHit(text, ' ', TOP, StartsDml()) == Shift(k, if recursive then 15 else 5)
    requires |text| == (if recursive then 15 else 5) + n + 1 + |dml| && text[|text| - |dml|..] == dml
      && k.value <= n + 1
    ensures WithoutCtes(text) == dml <==> k.value == n + 1
  {
    WithoutIs(text);
    hide WithoutCtes, FirstHit, StartsDml, IsKeyword;
  }
}
