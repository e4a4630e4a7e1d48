/**
 * DO blocks printed into a migration: the guard reads their bodies, and finds the row
 * writes in them.
 */
module DoBlocks {
  import opened Prelude
  import opened Strings
  import opened SqlLexer
  import opened SqlStatements
  import opened SqlSplit
  import opened SqlLists
  import opened SqlTree
  import opened MigrationGuard
  import SqlExtract

  /** DO in any case. */
  predicate SaysDo(s: string) {
    s == "DO" || s == "do" || s == "Do" || s == "dO"
  }

  predicate Word(w: string) {
    forall i :: 0 <= i < |w| ==> Letter(w[i])
  }

  function DoText(say: string, gap: string, word: string, body: string, tail: string): string {
    say + (gap + (Tag(word) + (body + (Tag(word) + tail))))
  }

  // ------------------------------------------------------------ the body of a block

  lemma {:induction false} TrimStartOver(lead: string, rest: string)
    requires Blank(lead) && rest != "" && !IsSpace(rest[0])
    ensures TrimStart(lead + rest) == rest
  {
    if lead == "" {
      assert lead + rest == rest;
    } else {
      assert (lead + rest)[1..] == lead[1..] + rest && IsSpace(lead[0]);
      assert Blank(lead[1..]);
      TrimStartOver(lead[1..], rest);
    }
  }

  lemma SaysLower(say: string, rest: string)
    requires SaysDo(say) && rest != "" && IsSpace(rest[0])
    ensures |say| == 2 && !IsSpace(say[0]) && say[0] != '$' && say[1] != '$'
    ensures var s := say + rest; SqlExtract.HasPrefix(s, "do") && |s| >= 3 && s[2] == rest[0] && s[2..] == rest
  {
    var s, lower := say + rest, "do";
    assert Lower(s[0]) == lower[0] && Lower(s[1]) == lower[1];
  }

  lemma TagOfBlock(lead: string, say: string, gap: string, word: string, body: string, tail: string)
    requires Blank(lead) && SaysDo(say) && gap != "" && Blank(gap) && Word(word)
    ensures DoTag(lead + DoText(say, gap, word, body, tail)) == Some(Tag(word))
  {
    var rest := body + (Tag(word) + tail);
    var tagged := Tag(word) + rest;
    TagIs(word, rest);
    hide TagLen, Tag, TrimStart;
    SaysLower(say, gap + tagged);
    TrimStartOver(lead, say + (gap + tagged));
    TrimStartOver(gap, tagged);
  }

  /** What has no dollar sign cannot begin a tag. */
  lemma NoTagWithin(head: string, tag: string, rest: string, k: nat)
    requires '$' !in head && Begins(tag, '$') && k + |tag| <= |head + rest|
    ensures k < |head| ==> (head + rest)[k..k + |tag|] != tag
  {
    if k < |head| {
      assert (head + rest)[k..k + |tag|][0] == head[k];
    }
  }

  lemma FindsFirst(head: string, tag: string, rest: string)
    requires '$' !in head && Begins(tag, '$')
    ensures Find(head + (tag + rest), tag) == Some(|head|)
  {
    var s := head + (tag + rest);
    assert s[|head|..|head| + |tag|] == tag;
    FindFirst(s, tag, |head|);
    hide Find;
    NoTagWithin(head, tag, tag + rest, Find(s, tag).value);
  }

  /** What stands between the tags comes back if the tag does not occur earlier, and only then. */
  lemma ClosesIff(body: string, mark: string, after: string)
    ensures Find(body + (mark + after), mark) == Some(|body|) <==> ClosesAt(body, mark)
  {
    var s := body + (mark + after);
    if ClosesAt(body, mark) {
      FindsClose(body, mark, after);
    } else {
      var i :| 0 <= i < |body| && mark <= (body + mark)[i..];
      assert s[i..i + |mark|] == (body + mark)[i..][..|mark|] == mark;
      FindFirst(s, mark, i);
    }
  }

  lemma TagComesBack(body: string, tag: string, after: string)
    ensures Find(body + (tag + after), tag).Some?
  {
    var s := body + (tag + after);
    assert s[|body|..|body| + |tag|] == tag;
    FindFirst(s, tag, |body|);
  }

  lemma BlankHasNoDollar(s: string)
    requires Blank(s)
    ensures '$' !in s
  {
    assert !IsSpace('$');
  }

  lemma BetweenTags(head: string, tag: string, rest: string, end: nat)
    requires Find(head + (tag + rest), tag) == Some(|head|) && Find(rest, tag) == Some(end)
    ensures end <= |rest| && Between(head + (tag + rest), tag) == Some(rest[..end])
  {
    hide Find;
    assert (head + (tag + rest))[|head| + |tag|..] == rest;
  }

  /**
   * The body of a printed DO block is what stands between its tags, exactly if the tag does
   * not occur before its end.
   */
  lemma BodyReadsBack(lead: string, say: string, gap: string, word: string, body: string, tail: string)
    requires Blank(lead) && SaysDo(say) && gap != "" && Blank(gap) && Word(word)
    ensures DollarBody(lead + DoText(say, gap, word, body, tail)) == Some(body) <==> ClosesAt(body, Tag(word))
  {
    hide *;
    var head, tag := lead + (say + gap), Tag(word);
    var rest := body + (tag + tail);
    var text := head + (tag + rest);
    TagBegins(word);
    TagOfBlock(lead, say, gap, word, body, tail);
    BlockText(lead, say, gap, word, body, tail);
    NoDollarIn(lead, say, gap);
    FindsFirst(head, tag, rest);
    TagComesBack(body, tag, tail);
    ClosesIff(body, tag, tail);
    var end := Find(rest, tag).value;
    BetweenTags(head, tag, rest, end);
    assert DollarBody(text) == Some(rest[..end]) by { BodyIsBetween(text, tag); }
    assert |rest[..end]| == end && rest[..|body|] == body;
  }

  lemma BodyIsBetween(text: string, tag: string)
    requires DoTag(text) == Some(tag)
    ensures DollarBody(text) == Between(text, tag)
  {
    hide DoTag, Between;
  }

  lemma TagBegins(word: string)
    ensures Begins(Tag(word), '$')
  {
  }

  lemma BlockText(lead: string, say: string, gap: string, word: string, body: string, tail: string)
    ensures var tag := Tag(word);
      lead + DoText(say, gap, word, body, tail) == lead + (say + gap) + (tag + (body + (tag + tail)))
  {
    hide Tag;
  }

  lemma NoDollarIn(lead: string, say: string, gap: string)
    requires Blank(lead) && SaysDo(say) && Blank(gap)
    ensures '$' !in lead + (say + gap)
  {
    BlankHasNoDollar(lead);
    BlankHasNoDollar(gap);
    assert '$' !in say;
  }

  // ------------------------------------------------------- a block in a migration

  function Chars(s: string): (ps: seq<Piece>)
    ensures |ps| == |s|
  {
    if s == "" then [] else [Char(s[0])] + Chars(s[1..])
  }

  function Block(lead: string, say: string, gap: string, word: string, body: string, tail: seq<Piece>): seq<Piece> {
    Chars(lead + (say + gap)) + ([Piece.Body(word, body)] + tail)
  }

  lemma {:induction false} ShowConcat(a: seq<Piece>, b: seq<Piece>)
    ensures Show(a + b) == Show(a) + Show(b)
  {
    hide ShowOne;
    if a == [] {
      assert a + b == b;
    } else {
      assert (a + b)[1..] == a[1..] + b;
      ShowConcat(a[1..], b);
    }
  }

  lemma {:induction false} ShowChars(s: string)
    ensures Show(Chars(s)) == s
  {
    if s != "" {
      ShowChars(s[1..]);
      assert Chars(s)[1..] == Chars(s[1..]) && s == [s[0]] + s[1..];
    }
  }

  lemma ShowBody(word: string, body: string)
    ensures Show([Piece.Body(word, body)]) == Tag(word) + (body + Tag(word))
  {
    hide Tag;
    var p := Piece.Body(word, body);
    assert [p][1..] == [] && ShowOne(p) == Tag(word) + (body + Tag(word));
  }

  lemma BlockIs(lead: string, say: string, gap: string, word: string, body: string, tail: seq<Piece>)
    ensures Block(lead, say, gap, word, body, tail) == Chars(lead + (say + gap)) + ([Piece.Body(word, body)] + tail)
  {
  }

  lemma DoTextIs(lead: string, say: string, gap: string, word: string, body: string, tail: string)
    ensures lead + DoText(say, gap, word, body, tail) == lead + (say + gap) + (Tag(word) + (body + Tag(word)) + tail)
    ensures DoText(say, gap, word, body, tail) == say + (gap + (Tag(word) + (body + Tag(word)))) + tail
  {
    hide Tag;
  }

  lemma ShowBlock(lead: string, say: string, gap: string, word: string, body: string, tail: seq<Piece>)
    ensures Show(Block(lead, say, gap, word, body, tail)) == lead + DoText(say, gap, word, body, Show(tail))
  {
    hide *;
    var head, p := lead + (say + gap), Piece.Body(word, body);
    ShowBody(word, body);
    BlockIs(lead, say, gap, word, body, tail);
    DoTextIs(lead, say, gap, word, body, Show(tail));
    ShowConcat(Chars(head), [p] + tail);
    ShowConcat([p], tail);
    ShowChars(head);
  }

  /** Where statement `k` begins. */
  function Offset(stmts: seq<seq<Piece>>, k: nat): nat
    requires k < |stmts|
  {
    if k == 0 then 0 else |Print(stmts[0])| + 1 + Offset(stmts[1..], k - 1)
  }

  lemma SameLength(ps: seq<Piece>)
    ensures |Show(ps)| == |Print(ps)|
  {
    AllFade(ps);
    hide Show, Print;
  }

  lemma OffsetStep(stmts: seq<seq<Piece>>, k: nat)
    requires k < |stmts|
    ensures Offset(stmts, k) == if k == 0 then 0 else |Show(stmts[0])| + 1 + Offset(stmts[1..], k - 1)
  {
    SameLength(stmts[0]);
    hide Show, Print;
  }

  lemma SpansOfStep(stmts: seq<seq<Piece>>, offset: nat)
    requires stmts != []
    ensures SpansOf(Shown(stmts), offset)
         == SpanOf(Show(stmts[0]), offset) + SpansOf(Shown(stmts[1..]), offset + |Show(stmts[0])| + 1)
  {
    hide Show, SpanOf;
    assert Shown(stmts)[1..] == Shown(stmts[1..]);
  }

  lemma {:induction false} SpansHold(stmts: seq<seq<Piece>>, k: nat, offset: nat, sp: Span)
    requires k < |stmts| && sp in SpanOf(Show(stmts[k]), offset + Offset(stmts, k))
    ensures sp in SpansOf(Shown(stmts), offset)
  {
    hide *;
    OffsetStep(stmts, k);
    SpansOfStep(stmts, offset);
    if k > 0 {
      SpansHold(stmts[1..], k - 1, offset + |Show(stmts[0])| + 1, sp);
    }
  }

  lemma {:induction false} LeadIs(lead: string, rest: string)
    requires Blank(lead) && rest != "" && !IsSpace(rest[0])
    ensures Lead(lead + rest) == |lead|
  {
    if lead == "" {
      assert lead + rest == rest;
    } else {
      assert (lead + rest)[1..] == lead[1..] + rest && IsSpace(lead[0]);
      LeadIs(lead[1..], rest);
    }
  }

  lemma LeadOfBlock(lead: string, rest: string, offset: nat)
    requires Blank(lead) && rest != "" && !IsSpace(rest[0])
    ensures SpanOf(lead + rest, offset) == [Span(offset + |lead|, rest)]
  {
    LeadIs(lead, rest);
    hide Lead;
    assert (lead + rest)[|lead|..] == rest;
  }

  lemma BlockEnds(say: string, gap: string, word: string, body: string)
    ensures var p := say + (gap + (Tag(word) + (body + Tag(word)))); p != "" && !IsSpace(p[|p| - 1])
  {
    var p := say + (gap + (Tag(word) + (body + Tag(word))));
    assert p[|p| - 1] == '$';
  }

  lemma TrimsAtEnd(s: string)
    requires s != "" && !IsSpace(s[0])
    ensures Trim(s) == TrimEnd(s)
  {
    hide TrimEnd;
  }

  lemma TrimmedBlock(say: string, gap: string, word: string, body: string, tail: string) returns (kept: string)
    requires SaysDo(say) && gap != "" && IsSpace(gap[0])
    ensures Trim(DoText(say, gap, word, body, tail)) == DoText(say, gap, word, body, kept)
    ensures IsKeyword(DoText(say, gap, word, body, kept), "do")
  {
    hide *;
    var p := say + (gap + (Tag(word) + (body + Tag(word))));
    BlockEnds(say, gap, word, body);
    BlockStarts(say, gap, word, body, tail);
    TrimsAtEnd(DoText(say, gap, word, body, tail));
    DoTextIs("", say, gap, word, body, tail);
    var cut := TrimEndKeeps(p, tail);
    kept := tail[..cut];
    DoTextIs("", say, gap, word, body, kept);
    var rest := Tag(word) + (body + Tag(word));
    assert p + kept == say + (gap + (rest + kept));
    SaysKeyword(say, gap + (rest + kept));
  }

  lemma SaysKeyword(say: string, rest: string)
    requires SaysDo(say) && rest != "" && IsSpace(rest[0])
    ensures IsKeyword(say + rest, "do")
  {
    SaysLower(say, rest);
    assert !IsWordChar(rest[0]);
  }

  /** The scan takes the span of a printed block for its body. */
  lemma SpanOfBlock(p: Patterns, sql: string, baseLine: nat, sp: Span, say: string, gap: string, word: string,
      body: string, tail: string, w: DmlWrite)
    requires sp in Spans(Mask(sql)) && sp.text == DoText(say, gap, word, body, tail)
    requires SaysDo(say) && gap != "" && Blank(gap) && Word(word) && ClosesAt(body, Tag(word))
    ensures w in RowWritesOf(p, sql, baseLine, sp)
       <==> w in RowWrites(p, body, baseLine + LineOf(sql, sp.start) - 1)
  {
    assert IsSpace(gap[0]);
    hide *;
    var kept := TrimmedBlock(say, gap, word, body, tail);
    NothingLeads();
    BodyReadsBack("", say, gap, word, body, kept);
    assert "" + DoText(say, gap, word, body, kept) == DoText(say, gap, word, body, kept);
    assert InnerBody(sql, sp) == Some(body);
    InBlock(p, sql, baseLine, sp, w);
  }

  lemma NothingLeads()
    ensures Blank("")
  {
  }

  /**
   * In a migration printed from sound statements, whatever they are, each row write in the
   * body of a DO block among them is found, on its own line of the migration.
   */
  lemma BlockWritesFound(p: Patterns, stmts: seq<seq<Piece>>, k: nat, lead: string, say: string, gap: string,
      word: string, body: string, tail: seq<Piece>, baseLine: nat, w: DmlWrite)
    requires k < |stmts| && AllSound(stmts) && stmts[k] == Block(lead, say, gap, word, body, tail)
    requires Blank(lead) && SaysDo(say) && gap != "" && Blank(gap) && Word(word) && ClosesAt(body, Tag(word))
    ensures var sql := Migration(stmts);
      var line := baseLine + |Newlines(sql, Offset(stmts, k) + |lead|)|;
      w in RowWrites(p, body, line) ==> w in RowWrites(p, sql, baseLine)
  {
    hide *;
    var sql, at := Migration(stmts), Offset(stmts, k) + |lead|;
    var text := DoText(say, gap, word, body, Show(tail));
    var sp := Span(at, text);
    ShowBlock(lead, say, gap, word, body, tail);
    BlockStarts(say, gap, word, body, Show(tail));
    LeadOfBlock(lead, text, Offset(stmts, k));
    SpansHold(stmts, k, 0, sp);
    SpansReadBack(stmts, 0);
    SpansAre(Mask(sql));
    SpanOfBlock(p, sql, baseLine, sp, say, gap, word, body, Show(tail), w);
    LineCountsNewlines(sql, at);
    if w in RowWrites(p, body, baseLine + |Newlines(sql, at)|) {
      FromSpan(p, sql, baseLine, sp, w);
    }
  }

  lemma BlockStarts(say: string, gap: string, word: string, body: string, tail: string)
    requires SaysDo(say)
    ensures var text := DoText(say, gap, word, body, tail); text != "" && !IsSpace(text[0])
  {
  }

  lemma SpansAre(masked: string)
    ensures Spans(masked) == SpansFrom(masked, 0)
  {
  }

  lemma FromSpan(p: Patterns, sql: string, baseLine: nat, sp: Span, w: DmlWrite)
    requires sp in Spans(Mask(sql)) && w in RowWritesOf(p, sql, baseLine, sp)
    ensures w in RowWrites(p, sql, baseLine)
  {
    hide Mask, Spans, RowWritesOf, RowWritesIn;
    var spans := Spans(Mask(sql));
    var k :| 0 <= k < |spans| && spans[k] == sp;
    InRowWrites(p, sql, baseLine, spans, w);
  }
}
