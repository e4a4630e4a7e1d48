/**
 * Cutting a masked migration into statements at the semicolons outside quotes,
 * dollar-quoted bodies and parentheses.
 */
module SqlStatements {
  import opened Prelude
  import opened Strings
  import opened SqlLexer

  datatype Span = Span(start: nat, text: string)

  // ------------------------------------------------- the reference splitter

  /** A dollar-quoted body; without a closing tag it runs to the end. */
  function BodyEnd(s: string): (k: nat)
    requires TagLen(s) > 0
    ensures TagLen(s) <= k <= |s|
  {
    var t := TagLen(s);
    match Find(s[t..], s[..t])
    case None => |s|
    case Some(end) => t + end + t
  }

  /** The quoted body or the single character `s` starts with. */
  function PieceLen(s: string): (k: nat)
    requires s != ""
    ensures 0 < k <= |s|
  {
    if IsQuote(s[0]) then 1 + CloseLen(s[1..], s[0])
    else if TagLen(s) > 0 then BodyEnd(s)
    else 1
  }

  function Nest(c: char, depth: nat): nat {
    if c == '(' then depth + 1 else if c == ')' && depth > 0 then depth - 1 else depth
  }

  /** The first semicolon outside quotes, bodies and parentheses. */
  function TopSemi(s: string, depth: nat): (k: Option<nat>)
    ensures k.Some? ==> k.value < |s| && s[k.value] == ';'
    decreases |s|
  {
    if s == "" then None
    else if s[0] == ';' && depth == 0 then Some(0)
    else
      var k := PieceLen(s);
      Shift(TopSemi(s[k..], Nest(s[0], depth)), k)
  }

  /** The text cut at its top-level semicolons. */
  function Statements(s: string): (parts: seq<string>)
    ensures parts != []
  {
    match TopSemi(s, 0)
    case None => [s]
    case Some(k) => [s[..k]] + Statements(s[k + 1..])
  }

  function Lead(s: string): (k: nat)
    ensures k <= |s| && Blank(s[..k])
    ensures k < |s| ==> !IsSpace(s[k])
  {
    if s == "" || !IsSpace(s[0]) then 0 else 1 + Lead(s[1..])
  }

  /** A part without its leading whitespace; nothing when it is blank. */
  function SpanOf(part: string, offset: nat): seq<Span> {
    if Lead(part) == |part| then [] else [Span(offset + Lead(part), part[Lead(part)..])]
  }

  function SpansFrom(s: string, offset: nat): seq<Span> {
    match TopSemi(s, 0)
    case None => SpanOf(s, offset)
    case Some(k) => SpanOf(s[..k], offset) + SpansFrom(s[k + 1..], offset + k + 1)
  }

  function Spans(masked: string): seq<Span> {
    SpansFrom(masked, 0)
  }

  // --------------------------------------------------- the loop of the source

  /** Where the next cut is, seen from inside the loop. */
  ghost function Resume(s: string, inSingle: bool, inDouble: bool, tag: Option<string>, depth: nat): Option<nat> {
    if tag.Some? then
      match Find(s, tag.value)
      case None => None
      case Some(e) => Shift(TopSemi(s[e + |tag.value|..], depth), e + |tag.value|)
    else if inSingle then Shift(TopSemi(s[CloseLen(s, '\'')..], depth), CloseLen(s, '\''))
    else if inDouble then Shift(TopSemi(s[CloseLen(s, '"')..], depth), CloseLen(s, '"'))
    else TopSemi(s, depth)
  }

  lemma ResumeInDollar(s: string, tag: string, depth: nat)
    requires s != "" && tag != ""
    ensures StartsWith(s, tag) ==>
      Resume(s, false, false, Some(tag), depth) == Shift(Resume(s[|tag|..], false, false, None, depth), |tag|)
    ensures !StartsWith(s, tag) ==>
      Resume(s, false, false, Some(tag), depth) == Shift(Resume(s[1..], false, false, Some(tag), depth), 1)
  {
    hide TopSemi;
    if !StartsWith(s, tag) && Find(s[1..], tag).Some? {
      var e := Find(s[1..], tag).value;
      assert s[1..][e + |tag|..] == s[e + 1 + |tag|..];
    }
  }

  lemma ResumeInSingle(s: string, depth: nat)
    requires s != ""
    ensures Resume(s, true, false, None, depth) ==
            if s[0] != '\'' then Shift(Resume(s[1..], true, false, None, depth), 1)
            else if |s| > 1 && s[1] == '\'' then Shift(Resume(s[2..], true, false, None, depth), 2)
            else Shift(Resume(s[1..], false, false, None, depth), 1)
  {
    hide TopSemi;
    var c := CloseLen(s, '\'');
    if s[0] != '\'' {
      assert s[1..][c - 1..] == s[c..];
    } else if |s| > 1 && s[1] == '\'' {
      assert s[2..][c - 2..] == s[c..];
    }
  }

  lemma CloseNext(s: string, quote: char)
    requires s != ""
    ensures CloseLen(s, quote) <= |s|
    ensures CloseLen(s, quote) == if s[0] != quote then 1 + CloseLen(s[1..], quote)
                                  else if |s| > 1 && s[1] == quote then 2 + CloseLen(s[2..], quote)
                                  else 1
  {
  }

  lemma InDouble(s: string, depth: nat)
    ensures Resume(s, false, true, None, depth) == Shift(TopSemi(s[CloseLen(s, '"')..], depth), CloseLen(s, '"'))
    ensures Resume(s, false, false, None, depth) == TopSemi(s, depth)
  {
  }

  lemma QuotePiece(s: string, depth: nat)
    requires s != "" && IsQuote(s[0])
    ensures PieceLen(s) == 1 + CloseLen(s[1..], s[0]) && Nest(s[0], depth) == depth && s[0] != ';'
  {
  }

  lemma DropTwice(s: string, a: nat, b: nat)
    requires a + b <= |s|
    ensures s[a..][b..] == s[a + b..]
  {
  }

  /** The loop closes at every double quote; a doubled one just opens again. */
  lemma ResumeInDouble(s: string, depth: nat)
    requires s != ""
    ensures Resume(s, false, true, None, depth) ==
            if s[0] != '"' then Shift(Resume(s[1..], false, true, None, depth), 1)
            else Shift(Resume(s[1..], false, false, None, depth), 1)
  {
    hide *;
    CloseNext(s, '"');
    InDouble(s, depth);
    InDouble(s[1..], depth);
    var c := CloseLen(s, '"');
    if s[0] != '"' {
      DropTwice(s, 1, c - 1);
      ShiftShift(TopSemi(s[c..], depth), c - 1, 1);
    } else if |s| > 1 && s[1] == '"' {
      DoubledInDouble(s, depth);
    }
  }

  lemma DoubledInDouble(s: string, depth: nat)
    requires |s| > 1 && s[0] == '"' && s[1] == '"'
    ensures Shift(TopSemi(s[CloseLen(s, '"')..], depth), CloseLen(s, '"')) == Shift(TopSemi(s[1..], depth), 1)
  {
    assert IsQuote('"');
    hide *;
    CloseNext(s, '"');
    var t, c := s[1..], CloseLen(s, '"');
    DropTwice(s, 1, 1);
    DropTwice(s, 1, c - 1);
    QuotePiece(t, depth);
    TopSemiStep(t, depth);
    ShiftShift(TopSemi(s[c..], depth), c - 1, 1);
  }

  lemma TopSemiStep(s: string, depth: nat)
    requires s != "" && !(s[0] == ';' && depth == 0)
    ensures TopSemi(s, depth) == Shift(TopSemi(s[PieceLen(s)..], Nest(s[0], depth)), PieceLen(s))
  {
  }

  lemma ResumeAtQuote(s: string, depth: nat)
    requires s != "" && IsQuote(s[0])
    ensures TopSemi(s, depth) == Shift(Resume(s[1..], s[0] == '\'', s[0] == '"', None, depth), 1)
  {
    hide TopSemi, CloseLen;
    TopSemiStep(s, depth);
    assert s[1..][PieceLen(s) - 1..] == s[PieceLen(s)..];
  }

  lemma DollarPiece(s: string)
    requires TagLen(s) > 0
    ensures PieceLen(s) == BodyEnd(s) && s[0] == '$'
  {
  }

  lemma DollarRest(s: string, t: nat, end: nat)
    requires t + end + t <= |s|
    ensures s[t..][end + t..] == s[t + end + t..]
  {
  }

  lemma ResumeAtDollar(s: string, depth: nat)
    requires TagLen(s) > 0
    ensures TopSemi(s, depth) == Shift(Resume(s[TagLen(s)..], false, false, Some(s[..TagLen(s)]), depth), TagLen(s))
  {
    hide TopSemi, TagLen, PieceLen, Find;
    var t, k := TagLen(s), PieceLen(s);
    DollarPiece(s);
    TopSemiStep(s, depth);
    match Find(s[t..], s[..t]) {
      case None => NoSemiInNothing(s[k..], depth);
      case Some(end) => DollarRest(s, t, end);
    }
  }

  lemma NoSemiInNothing(s: string, depth: nat)
    requires s == ""
    ensures TopSemi(s, depth) == None
  {
  }

  lemma ResumeElsewhere(s: string, depth: nat)
    requires s != "" && !(s[0] == ';' && depth == 0) && !IsQuote(s[0]) && TagLen(s) == 0
    ensures TopSemi(s, depth) == Shift(Resume(s[1..], false, false, None, Nest(s[0], depth)), 1)
  {
    TopSemiStep(s, depth);
  }

  /** The scanner's variables. */
  datatype Scan = Scan(depth: nat, inSingle: bool, inDouble: bool, dollarTag: Option<string>)

  const OUTSIDE := Scan(0, false, false, None)

  ghost predicate OneMode(st: Scan) {
    && !(st.inSingle && st.inDouble)
    && (st.dollarTag.Some? ==> !st.inSingle && !st.inDouble && st.dollarTag.value != "")
  }

  ghost function NextCut(s: string, st: Scan): Option<nat> {
    Resume(s, st.inSingle, st.inDouble, st.dollarTag, st.depth)
  }

  /** One turn of the scanning loop: some characters consumed, or a cut at this semicolon. */
  method Turn(m: string, i: nat, st: Scan) returns (j: nat, next: Scan, cut: bool)
    requires i < |m| && OneMode(st)
    ensures i < j <= |m| && OneMode(next)
    ensures !cut ==> NextCut(m[i..], st) == Shift(NextCut(m[j..], next), j - i)
    ensures cut ==> m[i] == ';' && NextCut(m[i..], st) == Some(0) && j == i + 1 && next == OUTSIDE
  {
    hide TopSemi, Resume, CloseLen, Find, PieceLen;
    SuffixStep(m, i);
    cut, j, next := false, i + 1, st;
    var ch := m[i];
    if st.dollarTag.Some? {
      ResumeInDollar(m[i..], st.dollarTag.value, st.depth);
      if StartsWith(m[i..], st.dollarTag.value) {
        j := i + |st.dollarTag.value|;
        next := st.(dollarTag := None);
        assert m[i..][|st.dollarTag.value|..] == m[j..];
      }
    } else if st.inSingle {
      ResumeInSingle(m[i..], st.depth);
      if ch == '\'' {
        if i + 1 < |m| && m[i + 1] == '\'' {
          j := i + 2;
        } else {
          next := st.(inSingle := false);
        }
      }
    } else if st.inDouble {
      ResumeInDouble(m[i..], st.depth);
      if ch == '"' {
        next := st.(inDouble := false);
      }
    } else {
      j, next, cut := TurnOutside(m, i, st);
    }
  }

  lemma NoMode(s: string, depth: nat)
    ensures Resume(s, false, false, None, depth) == TopSemi(s, depth)
  {
  }

  lemma CutHere(s: string)
    requires s != "" && s[0] == ';'
    ensures TopSemi(s, 0) == Some(0)
  {
  }

  method TurnOutside(m: string, i: nat, st: Scan) returns (j: nat, next: Scan, cut: bool)
    requires i < |m| && !st.inSingle && !st.inDouble && st.dollarTag == None
    ensures i < j <= |m| && OneMode(next)
    ensures !cut ==> NextCut(m[i..], st) == Shift(NextCut(m[j..], next), j - i)
    ensures cut ==> m[i] == ';' && NextCut(m[i..], st) == Some(0) && j == i + 1 && next == OUTSIDE
  {
    hide TopSemi, Resume, PieceLen, TagLen;
    SuffixStep(m, i);
    NoMode(m[i..], st.depth);
    cut, j, next := false, i + 1, st;
    var ch := m[i];
    var tag := TagLen(m[i..]);
    if ch == '\'' || ch == '"' {
      ResumeAtQuote(m[i..], st.depth);
      next := if ch == '\'' then st.(inSingle := true) else st.(inDouble := true);
    } else if tag > 0 {
      ResumeAtDollar(m[i..], st.depth);
      j := i + tag;
      assert m[i..][tag..] == m[j..] && m[i..][..tag] == m[i..j];
      next := st.(dollarTag := Some(m[i..j]));
    } else if ch == ';' && st.depth == 0 {
      CutHere(m[i..]);
      cut, next := true, OUTSIDE;
    } else {
      ResumeElsewhere(m[i..], st.depth);
      if ch == '(' {
        next := st.(depth := st.depth + 1);
      } else if ch == ')' {
        next := st.(depth := if st.depth > 0 then st.depth - 1 else 0);
      }
    }
  }

  lemma LeadStep(m: string, from: nat, to: nat)
    requires from < to <= |m|
    ensures IsSpace(m[from]) ==> SpanOf(m[from..to], from) == SpanOf(m[from + 1..to], from + 1)
    ensures !IsSpace(m[from]) ==> SpanOf(m[from..to], from) == [Span(from, m[from..to])]
  {
    var part := m[from..to];
    assert part[1..] == m[from + 1..to];
    if IsSpace(m[from]) {
      assert Lead(part) == 1 + Lead(part[1..]);
      assert part[Lead(part)..] == part[1..][Lead(part[1..])..];
    } else {
      assert Lead(part) == 0 && part[0..] == part;
    }
  }

  /** Record the part between two cuts, unless it is blank. */
  method Push(m: string, spans: seq<Span>, from: nat, to: nat) returns (r: seq<Span>)
    requires from <= to <= |m|
    ensures r == spans + SpanOf(m[from..to], from)
  {
    var begin := from;
    while begin < to && IsSpace(m[begin])
      invariant from <= begin <= to
      invariant SpanOf(m[from..to], from) == SpanOf(m[begin..to], begin)
    {
      LeadStep(m, begin, to);
      begin := begin + 1;
    }
    if begin < to {
      LeadStep(m, begin, to);
      r := spans + [Span(begin, m[begin..to])];
    } else {
      assert m[begin..to] == "";
      r := spans;
    }
  }

  /** Nothing of the text after `start` has been recorded yet, and the scan is `i - start` characters into it. */
  ghost predicate Scanning(m: string, spans: seq<Span>, start: nat, i: nat, st: Scan) {
    && start <= i <= |m| && OneMode(st)
    && TopSemi(m[start..], 0) == Shift(NextCut(m[i..], st), i - start)
    && spans + SpansFrom(m[start..], start) == Spans(m)
  }

  lemma SpansStep(s: string, offset: nat, k: nat)
    requires TopSemi(s, 0) == Some(k)
    ensures SpansFrom(s, offset) == SpanOf(s[..k], offset) + SpansFrom(s[k + 1..], offset + k + 1)
  {
    hide SpanOf, TopSemi;
  }

  lemma SpansLast(s: string, offset: nat)
    requires TopSemi(s, 0) == None
    ensures SpansFrom(s, offset) == SpanOf(s, offset)
  {
  }

  lemma AtCut(m: string, spans: seq<Span>, start: nat, i: nat, st: Scan)
    requires Scanning(m, spans, start, i, st) && i < |m| && NextCut(m[i..], st) == Some(0)
    ensures Scanning(m, spans + SpanOf(m[start..i], start), i + 1, i + 1, OUTSIDE)
  {
    hide Resume, TopSemi, SpansFrom, SpanOf;
    assert m[start..][..i - start] == m[start..i] && m[start..][i - start + 1..] == m[i + 1..];
    NoMode(m[i + 1..], 0);
    SpansStep(m[start..], start, i - start);
    assert spans + (SpanOf(m[start..i], start) + SpansFrom(m[i + 1..], i + 1))
        == (spans + SpanOf(m[start..i], start)) + SpansFrom(m[i + 1..], i + 1);
  }

  lemma AtEnd(m: string, spans: seq<Span>, start: nat, st: Scan)
    requires Scanning(m, spans, start, |m|, st)
    ensures spans + SpanOf(m[start..], start) == Spans(m)
  {
    assert m[|m|..] == "";
    SpansLast(m[start..], start);
  }

  lemma AtStart(m: string)
    ensures Scanning(m, [], 0, 0, OUTSIDE)
  {
    hide TopSemi, SpansFrom;
    assert m[0..] == m;
    NoMode(m, 0);
  }

  /** `statementSpans`: mask the comments, then cut at the top-level semicolons. */
  method StatementSpans(sql: string) returns (spans: seq<Span>)
    ensures spans == Spans(Mask(sql))
  {
    hide Scanning, NextCut, Spans, Mask;
    var m := MaskComments(sql);
    var st := OUTSIDE;
    var start: nat, i: nat := 0, 0;
    spans := [];
    AtStart(m);
    while i < |m|
      invariant start <= i <= |m| && OneMode(st) && Scanning(m, spans, start, i, st)
    {
      spans, start, i, st := ScanTurn(m, spans, start, i, st);
    }
    AtEnd(m, spans, start, st);
    spans := Push(m, spans, start, |m|);
    assert m[start..|m|] == m[start..];
  }

  method ScanTurn(m: string, spans: seq<Span>, start: nat, i: nat, st: Scan)
    returns (spans': seq<Span>, start': nat, i': nat, st': Scan)
    requires i < |m| && Scanning(m, spans, start, i, st)
    ensures i < i' && Scanning(m, spans', start', i', st')
    ensures start' <= i' <= |m| && OneMode(st')
  {
    hide TopSemi, Resume, SpansFrom, SpanOf, Spans, NextCut;
    var cut;
    i', st', cut := Turn(m, i, st);
    spans', start' := spans, start;
    if cut {
      AtCut(m, spans, start, i, st);
      spans' := Push(m, spans, start, i);
      start' := i + 1;
    } else {
      ShiftShift(NextCut(m[i'..], st'), i' - i, i - start);
    }
  }

  // -------------------------------------------------- what the cuts respect

  /** Position `k` starts a piece, outside quotes and bodies, with every parenthesis closed. */
  predicate TopLevelAt(s: string, depth: nat, k: nat)
    ensures TopLevelAt(s, depth, k) ==> k < |s|
    decreases |s|
  {
    && k < |s|
    && if k == 0 then depth == 0
       else PieceLen(s) <= k && TopLevelAt(s[PieceLen(s)..], Nest(s[0], depth), k - PieceLen(s))
  }

  lemma DeeperIsTopLevel(s: string, depth: nat, k: nat)
    requires s != "" && 0 < PieceLen(s) <= |s| && TopLevelAt(s[PieceLen(s)..], Nest(s[0], depth), k)
    ensures TopLevelAt(s, depth, k + PieceLen(s))
  {
    hide PieceLen, Nest;
  }

  lemma TopLevelDeeper(s: string, depth: nat, j: nat)
    requires TopLevelAt(s, depth, j) && s[j] == ';' && !(s[0] == ';' && depth == 0)
    ensures 0 < PieceLen(s) <= j && TopLevelAt(s[PieceLen(s)..], Nest(s[0], depth), j - PieceLen(s))
  {
    hide Nest;
  }

  lemma {:induction false} CutIsTopLevel(s: string, depth: nat)
    requires TopSemi(s, depth).Some?
    ensures TopLevelAt(s, depth, TopSemi(s, depth).value)
    decreases |s|
  {
    if s[0] == ';' && depth == 0 {
      hide PieceLen;
    } else {
      TopSemiStep(s, depth);
      var k, d := PieceLen(s), Nest(s[0], depth);
      assert 0 < k <= |s|;
      hide PieceLen, TopSemi, Nest, TopLevelAt;
      CutIsTopLevel(s[k..], d);
      DeeperIsTopLevel(s, depth, TopSemi(s[k..], d).value);
    }
  }

  lemma CutAtOnce(s: string)
    requires s != "" && s[0] == ';'
    ensures TopSemi(s, 0) == Some(0)
  {
  }

  lemma {:induction false} NoEarlierCut(s: string, depth: nat, j: nat)
    requires TopLevelAt(s, depth, j) && s[j] == ';'
    ensures TopSemi(s, depth).Some? && TopSemi(s, depth).value <= j
    decreases |s|
  {
    hide *;
    if s[0] == ';' && depth == 0 {
      CutAtOnce(s);
    } else {
      TopSemiStep(s, depth);
      TopLevelDeeper(s, depth, j);
      var k, d := PieceLen(s), Nest(s[0], depth);
      DropAt(s, k, j - k);
      NoEarlierCut(s[k..], d, j - k);
      ShiftedBy(TopSemi(s[k..], d), k, j);
    }
  }

  lemma DropAt(s: string, k: nat, x: nat)
    requires k + x < |s|
    ensures s[k..][x] == s[k + x]
  {
  }

  lemma ShiftedBy(x: Option<nat>, k: nat, j: nat)
    requires k <= j && x.Some? && x.value <= j - k
    ensures Shift(x, k).Some? && Shift(x, k).value <= j
  {
  }

  /** The scanner cuts at the first top-level semicolon, and only there. */
  lemma CutsAtFirstTopLevel(s: string, depth: nat)
    ensures TopSemi(s, depth).Some? ==> TopLevelAt(s, depth, TopSemi(s, depth).value)
    ensures forall j: nat :: TopLevelAt(s, depth, j) && s[j] == ';' ==>
      TopSemi(s, depth).Some? && TopSemi(s, depth).value <= j
  {
    hide TopSemi, TopLevelAt;
    if TopSemi(s, depth).Some? {
      CutIsTopLevel(s, depth);
    }
    forall j: nat | TopLevelAt(s, depth, j) && s[j] == ';'
      ensures TopSemi(s, depth).Some? && TopSemi(s, depth).value <= j
    {
      NoEarlierCut(s, depth, j);
    }
  }

  function JoinSemi(parts: seq<string>): string
    requires parts != []
  {
    if |parts| == 1 then parts[0] else parts[0] + ";" + JoinSemi(parts[1..])
  }

  lemma JoinCons(part: string, parts: seq<string>)
    requires parts != []
    ensures JoinSemi([part] + parts) == part + ";" + JoinSemi(parts)
  {
    assert ([part] + parts)[1..] == parts;
  }

  /** Nothing is lost: the parts, rejoined, are the text. */
  lemma {:induction false} StatementsRejoin(s: string)
    ensures JoinSemi(Statements(s)) == s
    decreases |s|
  {
    hide TopSemi;
    if TopSemi(s, 0).Some? {
      var k := TopSemi(s, 0).value;
      var rest := Statements(s[k + 1..]);
      assert Statements(s) == [s[..k]] + rest;
      hide Statements;
      StatementsRejoin(s[k + 1..]);
      JoinCons(s[..k], rest);
      assert s == s[..k] + ";" + s[k + 1..];
    }
  }

  ghost predicate Covers(spans: seq<Span>, x: nat) {
    exists i :: 0 <= i < |spans| && spans[i].start <= x < spans[i].start + |spans[i].text|
  }

  /** A span is a stretch of the text that starts and ends inside it and begins with no whitespace. */
  predicate IsStretch(s: string, offset: nat, sp: Span) {
    && offset <= sp.start && sp.start + |sp.text| <= offset + |s|
    && sp.text == s[sp.start - offset..sp.start - offset + |sp.text|]
    && sp.text != "" && !IsSpace(sp.text[0])
  }

  lemma PartCovered(part: string, offset: nat, x: nat)
    requires offset <= x < offset + |part|
    ensures Covers(SpanOf(part, offset), x) || IsSpace(part[x - offset])
  {
    var lead := Lead(part);
    if x - offset < lead {
      assert IsSpace(part[..lead][x - offset]);
    } else {
      assert SpanOf(part, offset)[0].start <= x;
    }
  }

  lemma PartIsStretch(part: string, offset: nat, sp: Span)
    requires sp in SpanOf(part, offset)
    ensures IsStretch(part, offset, sp)
  {
    var lead := Lead(part);
    assert lead < |part| && sp == Span(offset + lead, part[lead..]);
    hide *;
    StretchFrom(part, offset, lead);
  }

  lemma StretchFrom(part: string, offset: nat, lead: nat)
    requires lead < |part| && !IsSpace(part[lead])
    ensures IsStretch(part, offset, Span(offset + lead, part[lead..]))
  {
    hide IsSpace;
    assert part[lead..] == part[lead..|part|] && part[lead..][0] == part[lead];
  }

  /** Character `x` is inside a span, or it is whitespace or a semicolon. */
  ghost predicate Accounted(spans: seq<Span>, c: char, x: nat) {
    Covers(spans, x) || IsSpace(c) || c == ';'
  }

  lemma AccountedEither(a: seq<Span>, b: seq<Span>, c: char, x: nat)
    requires Accounted(a, c, x) || Accounted(b, c, x)
    ensures Accounted(a + b, c, x)
  {
    CoversEither(a, b, x);
  }

  /** Outside the spans there is only whitespace and the semicolons the text was cut at. */
  lemma {:induction false} SpansLeaveOnlyBlanks(s: string, offset: nat, x: nat)
    requires offset <= x < offset + |s|
    ensures Accounted(SpansFrom(s, offset), s[x - offset], x)
    decreases |s|
  {
    if TopSemi(s, 0).None? {
      SpansLast(s, offset);
      PartCovered(s, offset, x);
    } else {
      var k := TopSemi(s, 0).value;
      SpansStep(s, offset, k);
      hide TopSemi, SpansFrom, SpanOf;
      var head, tail, c := SpanOf(s[..k], offset), SpansFrom(s[k + 1..], offset + k + 1), s[x - offset];
      assert Accounted(head, c, x) || Accounted(tail, c, x) by {
        if x < offset + k {
          PartCovered(s[..k], offset, x);
          assert s[..k][x - offset] == c;
        } else if x > offset + k {
          SpansLeaveOnlyBlanks(s[k + 1..], offset + k + 1, x);
          assert s[k + 1..][x - offset - k - 1] == c;
        }
      }
      AccountedEither(head, tail, c, x);
    }
  }

  lemma CoversEither(a: seq<Span>, b: seq<Span>, x: nat)
    ensures Covers(a, x) || Covers(b, x) ==> Covers(a + b, x)
  {
    if i :| 0 <= i < |a| && a[i].start <= x < a[i].start + |a[i].text| {
      assert (a + b)[i] == a[i];
    }
    if i :| 0 <= i < |b| && b[i].start <= x < b[i].start + |b[i].text| {
      assert (a + b)[|a| + i] == b[i];
    }
  }
}
