/**
 * The migration guard's hand-written SQL lexer: blanking comments in place and
 * cutting a migration into statements.
 */
module SqlLexer {
  import opened Prelude
  import opened Strings

  /** `indexOf`: where `p` first occurs, or None. */
  function Find(s: string, p: string): (k: Option<nat>)
    ensures k.Some? ==> k.value + |p| <= |s| && s[k.value..k.value + |p|] == p
  {
    if StartsWith(s, p) then Some(0)
    else if s == "" then None
    else match Find(s[1..], p)
      case None => None
      case Some(k) =>
        assert s[k + 1..k + 1 + |p|] == s[1..][k..k + |p|];
        Some(k + 1)
  }

  // ---------------------------------------------------------- token lengths

  /** Characters up to, but not including, the newline. */
  function LineLen(s: string): (k: nat)
    ensures k <= |s|
  {
    if s == "" || s[0] == '\n' then 0 else 1 + LineLen(s[1..])
  }

  predicate OpensLine(s: string) {
    |s| > 1 && s[0] == '-' && s[1] == '-'
  }

  predicate OpensBlock(s: string) {
    |s| > 1 && s[0] == '/' && s[1] == '*'
  }

  /** The whole block comment `s` starts with; an open one runs to the end. */
  function BlockLen(s: string): (k: nat)
    requires OpensBlock(s)
    ensures 2 <= k <= |s|
  {
    match Find(s[2..], "*/")
    case None => |s|
    case Some(k) => k + 4
  }

  /** Characters through the closing quote, a doubled quote being content. */
  function CloseLen(s: string, quote: char): (k: nat)
    ensures k <= |s|
  {
    if s == "" then 0
    else if s[0] == quote then (if |s| > 1 && s[1] == quote then 2 + CloseLen(s[2..], quote) else 1)
    else 1 + CloseLen(s[1..], quote)
  }

  predicate IsQuote(c: char) {
    c == '\'' || c == '"'
  }

  predicate IsTagChar(c: char) {
    'A' <= c <= 'Z' || 'a' <= c <= 'z' || c == '_'
  }

  function TagRun(s: string): (k: nat)
    ensures k <= |s|
    ensures forall i :: 0 <= i < k ==> IsTagChar(s[i])
    ensures k < |s| ==> !IsTagChar(s[k])
  {
    if s == "" || !IsTagChar(s[0]) then 0 else 1 + TagRun(s[1..])
  }

  /** The length of the dollar tag `s` starts with, 0 if it starts with none. */
  function TagLen(s: string): (k: nat)
    ensures k <= |s| && (k > 0 ==> k >= 2 && s[0] == '$')
  {
    if s == "" || s[0] != '$' then 0
    else
      var run := TagRun(s[1..]);
      if run + 1 < |s| && s[run + 1] == '$' then run + 2 else 0
  }

  /** A dollar-quoted body with both tags; without a closing tag, the tag alone. */
  function DollarLen(s: string): (k: nat)
    requires TagLen(s) > 0
    ensures TagLen(s) <= k <= |s|
  {
    var t := TagLen(s);
    match Find(s[t..], s[..t])
    case None => t
    case Some(end) => t + end + t
  }

  // ------------------------------------------------------- comment blanking

  datatype Token =
    | LineComment(text: string)
    | BlockComment(text: string)
    | Quoted(text: string)
    | Plain(text: string)

  /** The token `s` starts with. */
  function FirstToken(s: string): (t: Token)
    requires s != ""
    ensures 0 < |t.text| <= |s| && t.text == s[..|t.text|]
  {
    if OpensLine(s) then LineComment(s[..LineLen(s)])
    else if OpensBlock(s) then BlockComment(s[..BlockLen(s)])
    else if IsQuote(s[0]) then Quoted(s[..1 + CloseLen(s[1..], s[0])])
    else if TagLen(s) > 0 then Quoted(s[..DollarLen(s)])
    else Plain(s[..1])
  }

  /** The reference lexer: comments, quoted bodies and single characters. */
  function Tokens(s: string): seq<Token> {
    if s == "" then [] else
      var t := FirstToken(s);
      [t] + Tokens(s[|t.text|..])
  }

  function BlankLine(s: string): (r: string)
    ensures |r| == |s|
  {
    seq(|s|, _ => ' ')
  }

  function BlankBlock(s: string): (r: string)
    ensures |r| == |s|
  {
    seq(|s|, i requires 0 <= i < |s| => if s[i] == '\n' then '\n' else ' ')
  }

  function MaskToken(t: Token): (r: string)
    ensures |r| == |t.text|
  {
    match t
    case LineComment(s) => BlankLine(s)
    case BlockComment(s) => BlankBlock(s)
    case Quoted(s) => s
    case Plain(s) => s
  }

  /** The masked text: comment tokens blanked, every other token verbatim. */
  function Mask(s: string): (r: string)
    ensures |r| == |s|
  {
    if s == "" then "" else
      var t := FirstToken(s);
      MaskToken(t) + Mask(s[|t.text|..])
  }

  lemma {:induction false} LineLenNoNewline(s: string)
    ensures forall i :: 0 <= i < LineLen(s) ==> s[i] != '\n'
    ensures LineLen(s) < |s| ==> s[LineLen(s)] == '\n'
  {
    if s != "" && s[0] != '\n' { LineLenNoNewline(s[1..]); }
  }

  /** Masking keeps every newline, and changes a character only by blanking it inside a comment. */
  lemma {:induction false} MaskOnlyBlanks(s: string)
    ensures forall i :: 0 <= i < |s| ==> (s[i] == '\n' <==> Mask(s)[i] == '\n')
    ensures forall i :: 0 <= i < |s| ==> Mask(s)[i] == s[i] || Mask(s)[i] == ' '
  {
    if s != "" {
      var t := FirstToken(s);
      var k := |t.text|;
      MaskOnlyBlanks(s[k..]);
      LineLenNoNewline(s);
      forall i | 0 <= i < |s|
        ensures s[i] == '\n' <==> Mask(s)[i] == '\n'
        ensures Mask(s)[i] == s[i] || Mask(s)[i] == ' '
      {
        if i < k {
          assert Mask(s)[i] == MaskToken(t)[i] && s[i] == t.text[i];
        } else {
          assert Mask(s)[i] == Mask(s[k..])[i - k] && s[i] == s[k..][i - k];
        }
      }
    }
  }

  // ----------------------------------------------------------- idempotence

  /** `Find` answers the first occurrence, and None only when there is none. */
  lemma {:induction false} FindFirst(s: string, p: string, j: nat)
    requires j + |p| <= |s| && s[j..j + |p|] == p
    ensures Find(s, p).Some? && Find(s, p).value <= j
  {
    if !StartsWith(s, p) {
      assert j > 0;
      assert s[1..][j - 1..j - 1 + |p|] == s[j..j + |p|];
      FindFirst(s[1..], p, j - 1);
    }
  }

  lemma {:induction false} TagLenIs(s: string, k: nat)
    requires 2 <= k <= |s| && s[0] == '$' && s[k - 1] == '$' && forall i :: 1 <= i < k - 1 ==> IsTagChar(s[i])
    ensures TagLen(s) == k
  {
    var run := TagRun(s[1..]);
    assert s[1..][k - 2] == '$';
    assert run < |s[1..]| ==> s[1..][run] == s[run + 1];
  }

  lemma TagShape(s: string)
    requires TagLen(s) > 0
    ensures s[TagLen(s) - 1] == '$' && forall i :: 1 <= i < TagLen(s) - 1 ==> IsTagChar(s[i])
  {
    var run := TagRun(s[1..]);
    forall i | 1 <= i < TagLen(s) - 1 ensures IsTagChar(s[i]) {
      assert s[i] == s[1..][i - 1];
    }
  }

  /** `r` is `s` with some characters blanked. */
  ghost predicate Faded(s: string, r: string) {
    |r| == |s| && forall i :: 0 <= i < |s| ==> r[i] == s[i] || r[i] == ' '
  }

  lemma TagOfFaded(s: string, r: string)
    requires Faded(s, r) && TagLen(r) > 0
    ensures TagLen(s) == TagLen(r) && s[..TagLen(r)] == r[..TagLen(r)]
  {
    TagShape(r);
    forall i | 0 <= i < TagLen(r) ensures s[i] == r[i] {
    }
    TagLenIs(s, TagLen(r));
  }

  lemma FindInFaded(s: string, r: string, p: string)
    requires Faded(s, r) && Find(s, p).None? && forall i :: 0 <= i < |p| ==> p[i] != ' '
    ensures Find(r, p).None?
  {
    if Find(r, p).Some? {
      var j := Find(r, p).value;
      forall i | 0 <= i < |p| ensures s[j + i] == p[i] {
        assert r[j..j + |p|][i] == r[j + i];
      }
      assert s[j..j + |p|] == p;
      FindFirst(s, p, j);
      assert false;
    }
  }

  /** A quoted body ends at the same place in a text that only fades behind it. */
  lemma {:induction false} CloseLenKept(s: string, quote: char, m: string)
    requires IsQuote(quote) && |m| == |s| && forall i :: 0 <= i < CloseLen(s, quote) ==> m[i] == s[i]
    requires CloseLen(s, quote) < |s| ==> m[CloseLen(s, quote)] == s[CloseLen(s, quote)] || m[CloseLen(s, quote)] == ' '
    ensures CloseLen(m, quote) == CloseLen(s, quote)
  {
    if s != "" {
      if s[0] == quote {
        if |s| > 1 && s[1] == quote {
          CloseLenKept(s[2..], quote, m[2..]);
        }
      } else {
        CloseLenKept(s[1..], quote, m[1..]);
      }
    }
  }

  lemma BlankCons(c: char, m: string)
    requires c == ' ' || c == '\n'
    ensures Mask([c] + m) == [c] + Mask(m)
  {
    assert FirstToken([c] + m) == Plain(([c] + m)[..1]);
    assert ([c] + m)[1..] == m && ([c] + m)[..1] == [c];
  }

  lemma HeadAndTail(p: string, r: string)
    requires p != ""
    ensures p + r == [p[0]] + (p[1..] + r)
  {
  }

  lemma {:induction false} BlankPrefix(p: string, r: string)
    requires forall i :: 0 <= i < |p| ==> p[i] == ' ' || p[i] == '\n'
    ensures Mask(p + r) == p + Mask(r)
  {
    if p == "" {
      assert p + r == r && p + Mask(r) == Mask(r);
    } else {
      calc {
        Mask(p + r);
        { HeadAndTail(p, r); }
        Mask([p[0]] + (p[1..] + r));
        { BlankCons(p[0], p[1..] + r); }
        [p[0]] + Mask(p[1..] + r);
        { BlankPrefix(p[1..], r); }
        [p[0]] + (p[1..] + Mask(r));
        { HeadAndTail(p, Mask(r)); }
        p + Mask(r);
      }
    }
  }

  /** A quoted or plain first token is read the same when only what follows it fades. */
  lemma FirstTokenKept(s: string, r: string)
    requires s != "" && Faded(s[|FirstToken(s).text|..], r)
    requires FirstToken(s).Quoted? || FirstToken(s).Plain?
    ensures FirstToken(FirstToken(s).text + r) == FirstToken(s)
  {
    var t := FirstToken(s);
    var k := |t.text|;
    var m := t.text + r;
    forall i | 0 <= i < |m| ensures m[i] == s[i] || m[i] == ' ' {
      if i >= k {
        assert m[i] == r[i - k] && s[k..][i - k] == s[i];
      }
    }
    assert m[..k] == t.text && m[0] == s[0];
    assert !OpensLine(m) && !OpensBlock(m);
    if IsQuote(s[0]) {
      QuoteKept(s, r);
    } else if TagLen(s) > 0 {
      DollarKept(s, r);
    } else if TagLen(m) > 0 {
      TagOfFaded(s, m);
    }
  }

  lemma QuoteKept(s: string, r: string)
    requires s != "" && IsQuote(s[0])
    requires Faded(s[1 + CloseLen(s[1..], s[0])..], r)
    ensures var k := 1 + CloseLen(s[1..], s[0]);
            1 + CloseLen((s[..k] + r)[1..], s[0]) == k
  {
    var k := 1 + CloseLen(s[1..], s[0]);
    var m := s[..k] + r;
    forall i | 0 <= i < k - 1 ensures m[1..][i] == s[1..][i] {
    }
    if k < |s| {
      assert m[1..][k - 1] == r[0] && s[1..][k - 1] == s[k..][0];
    }
    CloseLenKept(s[1..], s[0], m[1..]);
  }

  lemma SliceKept(s: string, n: nat, r: string, from: nat, to: nat)
    requires from <= to <= n <= |s|
    ensures (s[..n] + r)[from..to] == s[from..to]
  {
  }

  /** A first occurrence stays first whatever follows it. */
  lemma FindKept(s: string, p: string, r: string)
    requires Find(s, p).Some?
    ensures var k := Find(s, p).value + |p|;
            k <= |s| && Find(s[..k] + r, p) == Find(s, p)
  {
    hide *;
    var e := Find(s, p).value;
    var m := s[..e + |p|] + r;
    SliceKept(s, e + |p|, r, e, e + |p|);
    FindFirst(m, p, e);
    var f := Find(m, p).value;
    SliceKept(s, e + |p|, r, f, f + |p|);
    FindFirst(s, p, f);
  }

  lemma TagKept(s: string, m: string)
    requires TagLen(s) > 0 && |m| >= TagLen(s) && m[..TagLen(s)] == s[..TagLen(s)]
    ensures TagLen(m) == TagLen(s)
    ensures forall i :: 0 <= i < TagLen(s) ==> s[i] != ' '
  {
    TagShape(s);
    forall i | 0 <= i < TagLen(s) ensures m[i] == s[i] {
      assert m[..TagLen(s)][i] == s[..TagLen(s)][i];
    }
    TagLenIs(m, TagLen(s));
  }

  lemma DollarKept(s: string, r: string)
    requires TagLen(s) > 0 && Faded(s[DollarLen(s)..], r)
    ensures var m := s[..DollarLen(s)] + r;
            TagLen(m) == TagLen(s) && DollarLen(m) == DollarLen(s)
  {
    hide TagLen, Find;
    var t, k := TagLen(s), DollarLen(s);
    var m, tag := s[..k] + r, s[..t];
    assert m[..t] == tag;
    TagKept(s, m);
    match Find(s[t..], tag) {
      case None =>
        assert m[t..] == r;
        FindInFaded(s[t..], r, tag);
      case Some(end) =>
        assert m[t..] == s[t..][..end + t] + r;
        FindKept(s[t..], tag, r);
    }
  }

  /** Masking twice is masking once: no blanked text can be read as a comment again. */
  lemma {:induction false} MaskIdempotent(s: string)
    ensures Mask(Mask(s)) == Mask(s)
  {
    if s != "" {
      var t := FirstToken(s);
      var k := |t.text|;
      var rest := s[k..];
      MaskIdempotent(rest);
      MaskOnlyBlanks(rest);
      match t {
        case LineComment(_) => BlankPrefix(MaskToken(t), Mask(rest));
        case BlockComment(_) => BlankPrefix(MaskToken(t), Mask(rest));
        case _ =>
          FirstTokenKept(s, Mask(rest));
          assert (t.text + Mask(rest))[k..] == Mask(rest);
      }
    }
  }

  /** The tokens are the text, cut up. */
  function Joined(tokens: seq<Token>): string {
    if tokens == [] then "" else tokens[0].text + Joined(tokens[1..])
  }

  function MaskedTokens(tokens: seq<Token>): string {
    if tokens == [] then "" else MaskToken(tokens[0]) + MaskedTokens(tokens[1..])
  }

  /** Masking is blanking the comment tokens of the reference lexer, and those tokens are the text itself. */
  lemma {:induction false} MaskIsTokenwise(s: string)
    ensures Joined(Tokens(s)) == s && MaskedTokens(Tokens(s)) == Mask(s)
  {
    hide FirstToken, MaskToken;
    if s != "" {
      var t := FirstToken(s);
      MaskIsTokenwise(s[|t.text|..]);
      assert Tokens(s)[1..] == Tokens(s[|t.text|..]);
    }
  }

  // --------------------------------------------------- the loop of the source

  lemma SuffixStep<T>(s: seq<T>, i: nat)
    requires i < |s|
    ensures s[i..] != [] && s[i..][0] == s[i] && s[i..][1..] == s[i + 1..]
    ensures i + 1 < |s| ==> s[i..][1] == s[i + 1] && s[i..][2..] == s[i + 2..]
  {
  }

  method BlankToNewline(sql: string, out: array<char>, start: nat) returns (i: nat)
    requires out.Length == |sql| && start < |sql|
    modifies out
    ensures i == start + LineLen(sql[start..]) && i <= |sql|
    ensures forall x :: 0 <= x < |sql| ==> out[x] == if start <= x < i then ' ' else old(out[x])
  {
    i := start;
    while i < |sql| && sql[i] != '\n'
      invariant start <= i <= |sql|
      invariant start + LineLen(sql[start..]) == i + LineLen(sql[i..])
      invariant forall x :: 0 <= x < |sql| ==> out[x] == if start <= x < i then ' ' else old(out[x])
    {
      SuffixStep(sql, i);
      out[i] := ' ';
      i := i + 1;
    }
  }

  /** What is left of a block comment after its opener. */
  function BodyLen(s: string): (k: nat)
    ensures k <= |s|
  {
    match Find(s, "*/")
    case None => |s|
    case Some(k) => k + 2
  }

  lemma BodyStep(s: string)
    ensures BodyLen(s) == if s == "" then 0
                          else if |s| > 1 && s[0] == '*' && s[1] == '/' then 2
                          else 1 + BodyLen(s[1..])
  {
    if |s| > 1 {
      assert s[..2] == [s[0], s[1]];
    }
  }

  method BlankBody(sql: string, out: array<char>, start: nat) returns (i: nat)
    requires out.Length == |sql| && start <= |sql|
    modifies out
    ensures start <= i <= |sql| && i == start + BodyLen(sql[start..])
    ensures forall x :: 0 <= x < |sql| ==> out[x] == if start <= x < i && sql[x] != '\n' then ' ' else old(out[x])
  {
    hide BodyLen;
    i := start;
    while i < |sql| && !(sql[i] == '*' && i + 1 < |sql| && sql[i + 1] == '/')
      invariant start <= i <= |sql|
      invariant start + BodyLen(sql[start..]) == i + BodyLen(sql[i..])
      invariant forall x :: 0 <= x < |sql| ==> out[x] == if start <= x < i && sql[x] != '\n' then ' ' else old(out[x])
    {
      SuffixStep(sql, i);
      BodyStep(sql[i..]);
      if sql[i] != '\n' {
        out[i] := ' ';
      }
      i := i + 1;
    }
    BodyStep(sql[i..]);
    if i < |sql| {
      SuffixStep(sql, i);
      out[i] := ' ';
      out[i + 1] := ' ';
      i := i + 2;
    }
  }

  method BlankBlockComment(sql: string, out: array<char>, start: nat) returns (i: nat)
    requires out.Length == |sql| && start < |sql| && OpensBlock(sql[start..])
    modifies out
    ensures start < i <= |sql| && i == start + BlockLen(sql[start..])
    ensures forall x :: 0 <= x < |sql| ==> out[x] == if start <= x < i && sql[x] != '\n' then ' ' else old(out[x])
  {
    SuffixStep(sql, start);
    out[start] := ' ';
    out[start + 1] := ' ';
    i := BlankBody(sql, out, start + 2);
  }

  method SkipQuoted(sql: string, start: nat) returns (i: nat)
    requires start < |sql|
    ensures i == start + 1 + CloseLen(sql[start + 1..], sql[start]) && i <= |sql|
  {
    var quote := sql[start];
    i := start + 1;
    while i < |sql|
      invariant start + 1 <= i <= |sql|
      invariant start + 1 + CloseLen(sql[start + 1..], quote) == i + CloseLen(sql[i..], quote)
    {
      SuffixStep(sql, i);
      if sql[i] == quote {
        if i + 1 < |sql| && sql[i + 1] == quote {
          i := i + 2;
          continue;
        }
        i := i + 1;
        return;
      }
      i := i + 1;
    }
  }

  lemma MaskAdvance(sql: string, m: string, i: nat)
    requires i < |sql| && m == Mask(sql) && m[i..] == Mask(sql[i..])
    ensures var t := FirstToken(sql[i..]);
            var j := i + |t.text|;
            && i < j <= |sql| && m[j..] == Mask(sql[j..])
            && forall x :: i <= x < j ==> m[x] == MaskToken(t)[x - i]
  {
    var t := FirstToken(sql[i..]);
    var j := i + |t.text|;
    assert sql[i..][|t.text|..] == sql[j..];
    assert m[i..] == MaskToken(t) + Mask(sql[j..]);
    assert m[j..] == m[i..][j - i..];
    forall x | i <= x < j ensures m[x] == MaskToken(t)[x - i] {
      assert m[x] == m[i..][x - i];
    }
  }

  /** The first token and its masked text, case by case. */
  lemma FirstTokenCases(s: string)
    requires s != ""
    ensures var t := FirstToken(s); var k := |t.text|;
      if OpensLine(s) then k == LineLen(s) && forall x :: 0 <= x < k ==> MaskToken(t)[x] == ' '
      else if OpensBlock(s) then
        k == BlockLen(s) && forall x :: 0 <= x < k ==> MaskToken(t)[x] == if s[x] == '\n' then '\n' else ' '
      else
        && k == (if IsQuote(s[0]) then 1 + CloseLen(s[1..], s[0]) else if TagLen(s) > 0 then DollarLen(s) else 1)
        && forall x :: 0 <= x < k ==> MaskToken(t)[x] == s[x]
  {
    hide LineLen, BlockLen, TagLen, DollarLen, CloseLen;
  }

  /** One turn of the loop: the token at `i` is blanked or skipped. */
  method WriteToken(sql: string, out: array<char>, i: nat) returns (j: nat)
    requires out.Length == |sql| && i < |sql| && forall x :: i <= x < |sql| ==> out[x] == sql[x]
    modifies out
    ensures j == i + |FirstToken(sql[i..]).text| <= |sql|
    ensures forall x :: i <= x < j ==> out[x] == MaskToken(FirstToken(sql[i..]))[x - i]
    ensures forall x :: 0 <= x < |sql| && !(i <= x < j) ==> out[x] == old(out[x])
  {
    SuffixStep(sql, i);
    FirstTokenCases(sql[i..]);
    hide FirstToken, MaskToken, LineLen, BlockLen, TagLen, DollarLen, CloseLen;
    if sql[i] == '-' && i + 1 < |sql| && sql[i + 1] == '-' {
      j := BlankToNewline(sql, out, i);
    } else if sql[i] == '/' && i + 1 < |sql| && sql[i + 1] == '*' {
      j := BlankBlockComment(sql, out, i);
    } else if IsQuote(sql[i]) {
      j := SkipQuoted(sql, i);
    } else {
      j := SkipPlain(sql, i);
    }
  }

  /** A dollar-quoted body, or a single character. */
  method SkipPlain(sql: string, i: nat) returns (j: nat)
    requires i < |sql|
    ensures var s := sql[i..];
            j == i + if TagLen(s) > 0 then DollarLen(s) else 1
  {
    var tag := TagLen(sql[i..]);
    if tag > 0 {
      assert sql[i..][tag..] == sql[i + tag..] && sql[i..][..tag] == sql[i..i + tag];
      var end := Find(sql[i + tag..], sql[i..i + tag]);
      j := if end.None? then i + tag else i + tag + end.value + tag;
    } else {
      j := i + 1;
    }
  }

  /** The text before `i` is masked, the rest is untouched. */
  ghost predicate MaskedTo(sql: string, m: string, now: seq<char>, i: nat) {
    && |now| == |m| == |sql| && i <= |sql|
    && m[i..] == Mask(sql[i..])
    && now[..i] == m[..i] && now[i..] == sql[i..]
  }

  method MaskTurn(sql: string, out: array<char>, ghost m: string, i: nat) returns (j: nat)
    requires i < |sql| && m == Mask(sql) && MaskedTo(sql, m, out[..], i)
    modifies out
    ensures i < j <= |sql| && MaskedTo(sql, m, out[..], j)
  {
    hide Mask;
    MaskAdvance(sql, m, i);
    forall x | i <= x < |sql| ensures out[x] == sql[x] {
      assert out[..][i..][x - i] == sql[i..][x - i];
    }
    j := WriteToken(sql, out, i);
  }

  /** Comments are blanked in a copy of the text, character by character. */
  method MaskComments(sql: string) returns (masked: string)
    ensures masked == Mask(sql)
  {
    var out := new char[|sql|](k requires 0 <= k < |sql| => sql[k]);
    hide Mask, MaskedTo;
    ghost var m := Mask(sql);
    MaskingStarts(sql, out[..]);
    var i := 0;
    while i < |sql|
      invariant i <= |sql| && MaskedTo(sql, m, out[..], i)
    {
      i := MaskTurn(sql, out, m, i);
    }
    masked := out[..];
    MaskingEnds(sql, m, masked);
  }

  lemma MaskingStarts(sql: string, now: seq<char>)
    requires now == sql
    ensures MaskedTo(sql, Mask(sql), now, 0)
  {
    assert sql[0..] == sql && Mask(sql)[0..] == Mask(sql);
  }

  lemma MaskingEnds(sql: string, m: string, now: seq<char>)
    requires MaskedTo(sql, m, now, |sql|)
    ensures now == m
  {
    assert now[..|sql|] == now && m[..|sql|] == m;
  }
}
