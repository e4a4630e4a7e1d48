/**
 * Printed lists under the scanners: where the first hit in a list falls, and what
 * parts a list cut there still has.
 */
module SqlLists {
  import opened Prelude
  import opened Strings
  import opened SqlLexer
  import opened SqlSplit
  import opened SqlExtract

  // ----------------------------------------------------- self-contained text

  lemma SelfConcat(a: string, b: string)
    requires SelfContained(a) && SelfContained(b)
    ensures SelfContained(a + b)
  {
    PiecesConcat(a, b, TOP);
    RunConcat(a, b, TOP);
  }

  /** No quote, no parenthesis, no comma. */
  predicate IsPlain(c: char) {
    c != '\'' && c != '"' && c != '(' && c != ')' && c != ','
  }

  lemma {:induction false} PlainSelf(p: string)
    requires forall i :: 0 <= i < |p| ==> IsPlain(p[i])
    ensures SelfContained(p)
  {
    if p != "" {
      PlainSelf(p[1..]);
      PiecesCons(p[0], p[1..], TOP);
      assert p == [p[0]] + p[1..] && Step(TOP, p[0]) == TOP;
    }
  }

  lemma {:induction false} InsideQuotes(c: string)
    requires forall i :: 0 <= i < |c| ==> c[i] != '"'
    ensures Run(c, Lex(Double, 0)) == Lex(Double, 0) && Pieces(c, Lex(Double, 0)) == [c]
  {
    if c != "" {
      InsideQuotes(c[1..]);
      PiecesCons(c[0], c[1..], Lex(Double, 0));
      assert c == [c[0]] + c[1..];
    }
  }

  lemma QuotedSelf(c: string)
    requires IsIdent(c)
    ensures SelfContained(InQuotes(c))
  {
    InsideQuotes(c);
    var open := Lex(Double, 0);
    RunConcat(c, "\"", open);
    PiecesConcat(c, "\"", open);
    PiecesCons('"', "", open);
    assert "\"" == ['"'] + "";
    var tail := c + "\"";
    assert Run(tail, open) == TOP;
    assert Pieces("\"", open) == ["\""];
    assert Pieces(tail, open) == [tail];
    PiecesCons('"', tail, TOP);
    assert InQuotes(c) == ['"'] + tail;
  }

  /** No parenthesis closes more than was opened. */
  predicate StrayFree(s: string, st: Lex) {
    s == "" || (!(st.quote == NoQuote && s[0] == ')' && st.depth == 0) && StrayFree(s[1..], Step(st, s[0])))
  }

  lemma {:induction false} StrayFreeConcat(a: string, b: string, st: Lex)
    requires StrayFree(a, st) && StrayFree(b, Run(a, st))
    ensures StrayFree(a + b, st)
  {
    if a == "" {
      assert a + b == b;
    } else {
      assert (a + b)[1..] == a[1..] + b;
      StrayFreeConcat(a[1..], b, Step(st, a[0]));
    }
  }

  lemma {:induction false} PlainStrayFree(p: string)
    requires forall i :: 0 <= i < |p| ==> IsPlain(p[i])
    ensures StrayFree(p, TOP) && Run(p, TOP) == TOP
  {
    if p != "" { PlainStrayFree(p[1..]); }
  }

  function Deeper(st: Lex): Lex {
    st.(depth := st.depth + 1)
  }

  /** Inside one more pair of parentheses the same text runs the same, and never closes the outer pair. */
  lemma {:induction false} RunDeeper(s: string, prev: char, st: Lex)
    requires StrayFree(s, st)
    ensures Run(s, Deeper(st)) == Deeper(Run(s, st))
    ensures FirstHit(s, prev, Deeper(st), Closes()) == None
  {
    if s != "" {
      RunDeeper(s[1..], s[0], Step(st, s[0]));
      assert Step(Deeper(st), s[0]) == Deeper(Step(st, s[0]));
    }
  }

  // ------------------------------------------------------------ hits, in parts

  /** Whether `hit` holds inside `p` does not depend on what follows `p`. */
  ghost predicate Local(p: string, q: string, hit: (string, char, Lex) -> bool) {
    forall k, c, st :: 0 <= k < |p| ==> hit(p[k..] + q, c, st) == hit(p[k..], c, st)
  }

  function LastChar(p: string, prev: char): char {
    if p == "" then prev else p[|p| - 1]
  }

  lemma LocalTail(p: string, q: string, hit: (string, char, Lex) -> bool)
    requires p != "" && Local(p, q, hit)
    ensures Local(p[1..], q, hit)
    ensures forall c, st :: hit(p + q, c, st) == hit(p, c, st)
  {
    forall k, c, st | 0 <= k < |p[1..]| ensures hit(p[1..][k..] + q, c, st) == hit(p[1..][k..], c, st) {
      assert p[1..][k..] == p[k + 1..];
    }
    assert p[0..] == p;
  }

  lemma {:induction false} HitConcat(p: string, q: string, prev: char, st: Lex, hit: (string, char, Lex) -> bool)
    requires Local(p, q, hit) && FirstHit(p, prev, st, hit) == None
    ensures FirstHit(p + q, prev, st, hit) == Shift(FirstHit(q, LastChar(p, prev), Run(p, st), hit), |p|)
  {
    if p == "" {
      assert p + q == q;
    } else {
      LocalTail(p, q, hit);
      assert (p + q)[1..] == p[1..] + q && (p + q)[0] == p[0];
      HitConcat(p[1..], q, p[0], Step(st, p[0]), hit);
      assert !hit(p, prev, st);
      HitStep(p + q, prev, st, hit);
      assert LastChar(p[1..], p[0]) == LastChar(p, prev);
    }
  }

  /** The body of a parenthesised list is found whatever follows the closing parenthesis. */
  lemma BalancedBody(before: string, body: string, tail: string)
    requires StrayFree(body, TOP) && Run(body, TOP) == TOP
    ensures Balanced(before + "(" + body + ")" + tail, |before|) == Some(body)
  {
    var s, q := before + "(" + body + ")" + tail, ")" + tail;
    var inner := Lex(NoQuote, 1);
    assert Deeper(TOP) == inner;
    RunDeeper(body, '(', TOP);
    assert s[|before| + 1..] == body + q;
    ClosesIsLocal(body, q);
    HitConcat(body, q, '(', inner, Closes());
    HitHere(q, LastChar(body, '('), inner, Closes());
    assert s[|before| + 1..|before| + 1 + |body|] == body;
  }

  lemma ClosesIsLocal(p: string, q: string)
    ensures Local(p, q, Closes())
  {
    forall k, c, st | 0 <= k < |p| ensures Closes()(p[k..] + q, c, st) == Closes()(p[k..], c, st) {
      assert (p[k..] + q)[0] == p[k..][0];
    }
  }

  // ----------------------------------------------------------------- trimming

  lemma TrimTidy(e: string)
    requires e != "" && !IsSpace(e[0]) && !IsSpace(e[|e| - 1])
    ensures Trim(e) == e && Trim(" " + e) == e && Trim(e + " ") == e && Trim(" " + e + " ") == e
  {
    assert TrimStart(" " + e) == e by { assert (" " + e)[1..] == e; }
    assert TrimEnd(e + " ") == e by { assert (e + " ")[..|e|] == e; }
    assert TrimStart(" " + e + " ") == e + " " by { assert (" " + e + " ")[1..] == e + " "; }
    assert TrimStart(e + " ") == e + " ";
  }

  lemma {:induction false} TrimEndKeeps(p: string, tail: string) returns (cut: nat)
    requires p != "" && !IsSpace(p[|p| - 1])
    ensures cut <= |tail| && TrimEnd(p + tail) == p + tail[..cut]
  {
    if tail == "" || !IsSpace(tail[|tail| - 1]) {
      cut := |tail|;
      assert tail[..cut] == tail;
      assert tail == "" ==> p + tail == p;
    } else {
      var n := |tail| - 1;
      cut := TrimEndKeeps(p, tail[..n]);
      assert (p + tail)[..|p + tail| - 1] == p + tail[..n];
      assert tail[..n][..cut] == tail[..cut];
    }
  }

  // -------------------------------------------------------------- list parts

  /** An expression: quotes and parentheses in order, no top-level comma, no space around it. */
  ghost predicate WellFormed(e: string) {
    SelfContained(e) && StrayFree(e, TOP) && e != "" && !IsSpace(e[0]) && !IsSpace(e[|e| - 1])
  }

  lemma SpaceSelf(e: string)
    requires SelfContained(e)
    ensures SelfContained(" " + e) && SelfContained(e + " ")
  {
    PlainSelf(" ");
    SelfConcat(" ", e);
    SelfConcat(e, " ");
  }

  lemma SpacedParts(items: seq<string>)
    requires forall i :: 0 <= i < |items| ==> WellFormed(items[i])
    ensures forall p :: p in Spaced(items) ==> SelfContained(p) && StrayFree(p, TOP) && !Blank(p)
    ensures forall i :: 0 <= i < |items| ==> Trim(Spaced(items)[i]) == items[i] && Spaced(items)[i] != ""
  {
    forall i | 0 <= i < |items|
      ensures var p := Spaced(items)[i];
              SelfContained(p) && StrayFree(p, TOP) && !Blank(p) && Trim(p) == items[i] && p != ""
    {
      var e := items[i];
      assert WellFormed(e);
      SpaceSelf(e);
      TrimTidy(e);
      assert (" " + e)[1..] == e && (" " + e)[1] == e[0];
      assert StrayFree(" " + e, TOP);
    }
  }

  lemma {:induction false} JoinStrayFree(parts: seq<string>)
    requires parts != [] && forall p :: p in parts ==> SelfContained(p) && StrayFree(p, TOP)
    ensures StrayFree(JoinCommas(parts), TOP)
  {
    assert parts[0] in parts;
    if |parts| > 1 {
      var rest := parts[1..];
      forall p | p in rest ensures SelfContained(p) && StrayFree(p, TOP) {
        assert p in parts;
      }
      JoinStrayFree(rest);
      var tail := "," + JoinCommas(rest);
      assert tail[1..] == JoinCommas(rest);
      assert StrayFree(tail, TOP);
      StrayFreeConcat(parts[0], tail, TOP);
      assert parts[0] + "," + JoinCommas(rest) == parts[0] + tail;
    }
  }

  /** A printed list splits back into its items, and runs back to the top level. */
  lemma SpacedSplits(items: seq<string>)
    requires items != [] && forall i :: 0 <= i < |items| ==> WellFormed(items[i])
    ensures SplitTopLevel(JoinCommas(Spaced(items))) == Spaced(items)
    ensures Run(JoinCommas(Spaced(items)), TOP) == TOP && StrayFree(JoinCommas(Spaced(items)), TOP)
  {
    SpacedParts(items);
    var parts := Spaced(items);
    assert parts[|parts| - 1] in parts;
    SplitOfJoined(parts);
    PiecesOfJoined(parts);
    JoinStrayFree(parts);
  }

  // ------------------------------------------------------- the first hit in a list

  /** The first hit in `p` is the first hit of any longer text. */
  lemma {:induction false} HitKept(p: string, q: string, prev: char, st: Lex, hit: (string, char, Lex) -> bool)
    requires Local(p, q, hit) && FirstHit(p, prev, st, hit).Some?
    ensures FirstHit(p + q, prev, st, hit) == FirstHit(p, prev, st, hit)
  {
    LocalTail(p, q, hit);
    assert (p + q)[1..] == p[1..] + q && (p + q)[0] == p[0];
    if hit(p, prev, st) {
      HitHere(p + q, prev, st, hit);
    } else {
      HitKept(p[1..], q, p[0], Step(st, p[0]), hit);
      HitStep(p + q, prev, st, hit);
    }
  }

  /** A hit stands at the state it saw. */
  lemma {:induction false} HitAt(s: string, prev: char, st: Lex, hit: (string, char, Lex) -> bool)
    requires FirstHit(s, prev, st, hit).Some?
    ensures var h := FirstHit(s, prev, st, hit).value;
      hit(s[h..], LastChar(s[..h], prev), Run(s[..h], st))
  {
    if hit(s, prev, st) {
      assert s[0..] == s && s[..0] == "";
    } else {
      HitAt(s[1..], s[0], Step(st, s[0]), hit);
      var h := FirstHit(s[1..], s[0], Step(st, s[0]), hit).value;
      assert s[..h + 1] == [s[0]] + s[1..][..h] && s[1..][h..] == s[h + 1..];
      PiecesCons(s[0], s[1..][..h], st);
    }
  }

  /** What a list hangs between its items: never a hit itself, and no item's hits depend on it. */
  ghost predicate ItemOf(hit: (string, char, Lex) -> bool, item: string) {
    && WellFormed(item)
    && (forall q :: q == "" || q[0] == ',' || q[0] == ' ' ==> Local(item, q, hit))
    && (forall q, c :: !hit(", " + item + q, c, TOP) && !hit(" " + item + q, c, TOP))
  }

  ghost predicate ItemsOf(hit: (string, char, Lex) -> bool, items: seq<string>) {
    forall i :: 0 <= i < |items| ==> ItemOf(hit, items[i])
  }

  predicate Quiet(items: seq<string>, hit: (string, char, Lex) -> bool) {
    forall i :: 0 <= i < |items| ==> FirstHit(items[i], ' ', TOP, hit).None?
  }

  lemma SpacedHead(items: seq<string>)
    requires |items| > 1
    ensures |Spaced(items)| == |items| && |Spaced(items[1..])| == |items| - 1
    ensures var rest, more := Spaced(items)[1..], Spaced(items[1..])[1..];
      Spaced(items) == [items[0]] + rest && rest == [" " + items[1]] + more && Spaced(items[1..]) == [items[1]] + more
  {
    var s, t := Spaced(items), Spaced(items[1..]);
    assert s[0] == items[0] && s[1] == " " + items[1] && t[0] == items[1];
    assert forall i :: 1 <= i < |t| ==> t[i] == s[i + 1];
    hide Spaced;
    assert s == [s[0]] + s[1..] && t == [t[0]] + t[1..] && s[1..] == [s[1]] + s[1..][1..] && s[1..][1..] == t[1..];
  }

  /** The list as its first item and the rest. */
  lemma SpacedRest(items: seq<string>)
    requires |items| > 1
    ensures JoinCommas(Spaced(items)) == items[0] + (", " + JoinCommas(Spaced(items[1..])))
  {
    hide *;
    SpacedHead(items);
    var rest, more := Spaced(items)[1..], Spaced(items[1..])[1..];
    JoinFirst(items[0], rest);
    JoinPrefixed(" ", items[1], more);
    assert items[0] + "," + (" " + JoinCommas(Spaced(items[1..])))
      == items[0] + (", " + JoinCommas(Spaced(items[1..])));
  }

  lemma JoinPrefixed(p: string, first: string, rest: seq<string>)
    ensures JoinCommas([p + first] + rest) == p + JoinCommas([first] + rest)
  {
    if rest != [] {
      JoinFirst(p + first, rest);
      JoinFirst(first, rest);
      hide JoinCommas;
    } else {
      assert [p + first] + rest == [p + first] && [first] + rest == [first];
    }
  }

  lemma ItemGives(hit: (string, char, Lex) -> bool, item: string, q: string, c: char)
    requires ItemOf(hit, item)
    ensures item != "" && Run(item, TOP) == TOP
    ensures q == "" || q[0] == ',' || q[0] == ' ' ==> Local(item, q, hit)
    ensures !hit(", " + item + q, c, TOP) && !hit(" " + item + q, c, TOP)
  {
    hide Local;
  }

  lemma TopSkips()
    ensures Step(TOP, ',') == TOP && Step(TOP, ' ') == TOP
  {
  }

  /** No hit on the separator before an item. */
  lemma PastSeparator(next: string, tail: string, prev: char, hit: (string, char, Lex) -> bool)
    requires ItemOf(hit, next)
    ensures FirstHit(", " + (next + tail), prev, TOP, hit) == Shift(FirstHit(next + tail, ' ', TOP, hit), 2)
  {
    TopSkips();
    hide *;
    ItemGives(hit, next, tail, prev);
    ItemGives(hit, next, tail, ',');
    var x := next + tail;
    var q, r := ", " + x, " " + x;
    assert q[1..] == r && r[1..] == x && q[0] == ',' && r[0] == ' ';
    assert q == ", " + next + tail && r == " " + next + tail;
    HitStep(q, prev, TOP, hit);
    HitStep(r, ',', TOP, hit);
    ShiftShift(FirstHit(x, ' ', TOP, hit), 1, 1);
  }

  /** Behind a quiet item and the separator, the scan stands at the next item. */
  lemma PastItem(item: string, next: string, tail: string, hit: (string, char, Lex) -> bool)
    requires ItemOf(hit, item) && ItemOf(hit, next) && FirstHit(item, ' ', TOP, hit).None?
    ensures FirstHit(item + (", " + (next + tail)), ' ', TOP, hit)
         == Shift(FirstHit(next + tail, ' ', TOP, hit), |item| + 2)
  {
    hide FirstHit, ItemOf, Local, Run;
    var q := ", " + (next + tail);
    ItemGives(hit, item, q, ' ');
    HitConcat(item, q, ' ', TOP, hit);
    PastSeparator(next, tail, LastChar(item, ' '), hit);
  }

  lemma QuietFirst(items: seq<string>, hit: (string, char, Lex) -> bool)
    requires items != []
    ensures Quiet(items, hit) <==> FirstHit(items[0], ' ', TOP, hit).None? && Quiet(items[1..], hit)
    ensures ItemsOf(hit, items) <==> ItemOf(hit, items[0]) && ItemsOf(hit, items[1..])
  {
    hide FirstHit, ItemOf;
    assert items == [items[0]] + items[1..];
  }

  ghost predicate Separates(q: string) {
    q == "" || q[0] == ',' || q[0] == ' '
  }

  /** What the list holds behind its first item. */
  lemma ListTail(items: seq<string>) returns (tail: string)
    requires items != []
    ensures JoinCommas(Spaced(items)) == items[0] + tail && Separates(tail)
    ensures items[0] != "" ==> JoinCommas(Spaced(items)) != ""
  {
    if |items| == 1 {
      tail := "";
      assert items[0] + "" == items[0];
    } else {
      SpacedRest(items);
      tail := ", " + JoinCommas(Spaced(items[1..]));
    }
  }

  lemma SpacedOne(x: string)
    ensures JoinCommas(Spaced([x])) == x
  {
  }

  /** The scan has passed `body` and stands at `q`. */
  ghost predicate Passes(body: string, q: string, hit: (string, char, Lex) -> bool) {
    body != "" && FirstHit(body + q, ' ', TOP, hit) == Shift(FirstHit(q, LastChar(body, ' '), TOP, hit), |body|)
  }

  lemma PassesItem(item: string, q: string, hit: (string, char, Lex) -> bool)
    requires ItemOf(hit, item) && FirstHit(item, ' ', TOP, hit).None? && Separates(q)
    ensures Passes(item, q, hit)
  {
    hide FirstHit, ItemOf, Run, Local;
    ItemGives(hit, item, q, ' ');
    HitConcat(item, q, ' ', TOP, hit);
  }

  lemma PassesBehind(item: string, more: string, q: string, hit: (string, char, Lex) -> bool)
    requires Passes(more, q, hit)
    requires FirstHit(item + (", " + (more + q)), ' ', TOP, hit) == Shift(FirstHit(more + q, ' ', TOP, hit), |item| + 2)
    ensures Passes(item + (", " + more), q, hit)
  {
    var body := item + (", " + more);
    assert body + q == item + (", " + (more + q)) && body[|body| - 1] == more[|more| - 1];
    ShiftShift(FirstHit(q, LastChar(more, ' '), TOP, hit), |more|, |item| + 2);
    hide FirstHit;
  }

  /** A list without a hit passes the scan on to what follows it. */
  lemma {:induction false} QuietList(items: seq<string>, q: string, hit: (string, char, Lex) -> bool)
    requires items != [] && ItemsOf(hit, items) && Quiet(items, hit) && Separates(q)
    ensures Passes(JoinCommas(Spaced(items)), q, hit)
    decreases |items|
  {
    hide *;
    QuietFirst(items, hit);
    if |items| == 1 {
      SpacedOne(items[0]);
      assert items == [items[0]];
      PassesItem(items[0], q, hit);
    } else {
      var rest := items[1..];
      var more := JoinCommas(Spaced(rest));
      var tail := ListTail(rest);
      assert rest[0] + (tail + q) == more + q;
      QuietList(rest, q, hit);
      QuietFirst(rest, hit);
      SpacedRest(items);
      PastItem(items[0], rest[0], tail + q, hit);
      PassesBehind(items[0], more, q, hit);
    }
  }

  /** The list up to its first hit. */
  function CutList(items: seq<string>, hit: (string, char, Lex) -> bool): (r: seq<string>)
    ensures |r| <= |items| && (items != [] ==> r != [])
  {
    if items == [] then []
    else match FirstHit(items[0], ' ', TOP, hit)
      case Some(h) => [items[0][..h]]
      case None => [items[0]] + CutList(items[1..], hit)
  }

  ghost predicate CutAt(text: string, cut: string, hit: (string, char, Lex) -> bool) {
    FirstHit(text, ' ', TOP, hit).Some? && text[..FirstHit(text, ' ', TOP, hit).value] == cut
  }

  lemma CutBehind(first: string, more: string, cut: string, hit: (string, char, Lex) -> bool)
    requires CutAt(more, cut, hit)
    requires FirstHit(first + (", " + more), ' ', TOP, hit) == Shift(FirstHit(more, ' ', TOP, hit), |first| + 2)
    ensures CutAt(first + (", " + more), first + (", " + cut), hit)
  {
    hide FirstHit;
    var h := FirstHit(more, ' ', TOP, hit).value;
    assert (first + (", " + more))[..|first| + 2 + h] == first + (", " + more[..h]);
  }

  lemma CutInFirst(first: string, tail: string, hit: (string, char, Lex) -> bool)
    requires ItemOf(hit, first) && Separates(tail) && FirstHit(first, ' ', TOP, hit).Some?
    ensures CutAt(first + tail, first[..FirstHit(first, ' ', TOP, hit).value], hit)
  {
    ItemGives(hit, first, tail, ' ');
    hide FirstHit, ItemOf, Local;
    HitKept(first, tail, ' ', TOP, hit);
  }

  lemma CutSpaced(first: string, cut: seq<string>)
    requires cut != []
    ensures JoinCommas(Spaced([first] + cut)) == first + (", " + JoinCommas(Spaced(cut)))
  {
    assert ([first] + cut)[1..] == cut;
    SpacedRest([first] + cut);
  }

  lemma SeparatesOn(tail: string, q: string)
    requires Separates(tail) && Separates(q)
    ensures Separates(tail + q)
  {
    assert tail == "" ==> tail + q == q;
  }

  lemma CutListHead(items: seq<string>, hit: (string, char, Lex) -> bool)
    requires items != [] && FirstHit(items[0], ' ', TOP, hit).Some?
    ensures CutList(items, hit) == [items[0][..FirstHit(items[0], ' ', TOP, hit).value]]
  {
    hide FirstHit;
  }

  lemma CutHead(items: seq<string>, q: string, hit: (string, char, Lex) -> bool)
    requires items != [] && ItemOf(hit, items[0]) && Separates(q) && FirstHit(items[0], ' ', TOP, hit).Some?
    ensures CutAt(JoinCommas(Spaced(items)) + q, JoinCommas(Spaced(CutList(items, hit))), hit)
  {
    hide *;
    var first := items[0];
    var tail := ListTail(items);
    CutListHead(items, hit);
    SpacedOne(CutList(items, hit)[0]);
    SeparatesOn(tail, q);
    CutInFirst(first, tail + q, hit);
    assert JoinCommas(Spaced(items)) + q == first + (tail + q);
  }

  lemma CutListLater(items: seq<string>, hit: (string, char, Lex) -> bool)
    requires items != [] && FirstHit(items[0], ' ', TOP, hit).None?
    ensures CutList(items, hit) == [items[0]] + CutList(items[1..], hit)
  {
    hide FirstHit;
  }

  lemma CutLater(items: seq<string>, q: string, hit: (string, char, Lex) -> bool)
    requires |items| > 1 && ItemOf(hit, items[0]) && ItemOf(hit, items[1])
    requires FirstHit(items[0], ' ', TOP, hit).None?
    requires CutAt(JoinCommas(Spaced(items[1..])) + q, JoinCommas(Spaced(CutList(items[1..], hit))), hit)
    ensures CutAt(JoinCommas(Spaced(items)) + q, JoinCommas(Spaced(CutList(items, hit))), hit)
  {
    hide *;
    var first, rest := items[0], items[1..];
    var tail := ListTail(rest);
    var more := JoinCommas(Spaced(rest)) + q;
    PastItem(first, rest[0], tail + q, hit);
    SpacedRest(items);
    CutListLater(items, hit);
    CutSpaced(first, CutList(rest, hit));
    assert more == rest[0] + (tail + q) && JoinCommas(Spaced(items)) + q == first + (", " + more);
    CutBehind(first, more, JoinCommas(Spaced(CutList(rest, hit))), hit);
  }

  /** A list with a hit is read up to the first one, whatever follows. */
  lemma {:induction false} ListCut(items: seq<string>, q: string, hit: (string, char, Lex) -> bool)
    requires items != [] && ItemsOf(hit, items) && !Quiet(items, hit) && Separates(q)
    ensures CutAt(JoinCommas(Spaced(items)) + q, JoinCommas(Spaced(CutList(items, hit))), hit)
    decreases |items|
  {
    assert |items| == 1 ==> Quiet(items[1..], hit);
    hide *;
    QuietFirst(items, hit);
    if FirstHit(items[0], ' ', TOP, hit).Some? {
      CutHead(items, q, hit);
    } else {
      ListCut(items[1..], q, hit);
      QuietFirst(items[1..], hit);
      CutLater(items, q, hit);
    }
  }

  // ------------------------------------------------------ the parts of a cut list

  /** The beginning of a self-contained text that ends at the top level is self-contained. */
  lemma SelfPrefix(p: string, n: nat)
    requires SelfContained(p) && n <= |p| && Run(p[..n], TOP) == TOP
    ensures SelfContained(p[..n])
  {
    assert p == p[..n] + p[n..];
    PiecesConcat(p[..n], p[n..], TOP);
    PiecesRejoin(p[..n], TOP);
    hide Pieces, Run;
    assert |Pieces(p[..n], TOP)| == 1;
  }

  /** A hit that can only stand at the top level. */
  ghost predicate AtTop(hit: (string, char, Lex) -> bool) {
    forall s, c, st :: hit(s, c, st) ==> st == TOP
  }

  lemma CutSelf(item: string, hit: (string, char, Lex) -> bool)
    requires WellFormed(item) && AtTop(hit) && FirstHit(item, ' ', TOP, hit).Some?
    ensures SelfContained(item[..FirstHit(item, ' ', TOP, hit).value])
  {
    HitAt(item, ' ', TOP, hit);
    var h := FirstHit(item, ' ', TOP, hit).value;
    hide FirstHit, Run, Pieces;
    SelfPrefix(item, h);
  }

  /** Whole items without a hit, then the beginning of the one with the hit. */
  ghost predicate CutsOff(cut: seq<string>, items: seq<string>, hit: (string, char, Lex) -> bool) {
    var n := |cut| - 1;
    && 0 <= n < |items| && cut[..n] == items[..n] && Quiet(items[..n], hit)
    && FirstHit(items[n], ' ', TOP, hit).Some?
    && cut[n] == items[n][..FirstHit(items[n], ' ', TOP, hit).value] && SelfContained(cut[n])
  }

  lemma CutsOffHead(items: seq<string>, hit: (string, char, Lex) -> bool)
    requires items != [] && ItemOf(hit, items[0]) && AtTop(hit) && FirstHit(items[0], ' ', TOP, hit).Some?
    ensures CutsOff(CutList(items, hit), items, hit)
  {
    assert Quiet(items[..0], hit);
    hide FirstHit, ItemOf, CutList, SelfContained, WellFormed;
    ItemIsWell(items[0], hit);
    CutSelf(items[0], hit);
    CutListHead(items, hit);
  }

  lemma CutsOffLater(cut: seq<string>, items: seq<string>, hit: (string, char, Lex) -> bool)
    requires items != [] && FirstHit(items[0], ' ', TOP, hit).None? && CutsOff(cut, items[1..], hit)
    ensures CutsOff([items[0]] + cut, items, hit)
  {
    hide FirstHit, SelfContained, Quiet, ItemsOf;
    var n := |cut| - 1;
    assert items[..n + 1] == [items[0]] + items[1..][..n] && ([items[0]] + cut)[..n + 1] == [items[0]] + cut[..n];
    QuietFirst(items[..n + 1], hit);
    assert items[..n + 1][1..] == items[1..][..n];
    assert items[n + 1] == items[1..][n];
  }

  /** The cut list, item by item. */
  lemma {:induction false} CutItems(items: seq<string>, hit: (string, char, Lex) -> bool)
    requires ItemsOf(hit, items) && !Quiet(items, hit) && AtTop(hit)
    ensures CutsOff(CutList(items, hit), items, hit)
    decreases |items|
  {
    assert Quiet([], hit);
    hide *;
    QuietFirst(items, hit);
    if FirstHit(items[0], ' ', TOP, hit).Some? {
      CutsOffHead(items, hit);
    } else {
      CutItems(items[1..], hit);
      CutListLater(items, hit);
      CutsOffLater(CutList(items[1..], hit), items, hit);
    }
  }

  lemma CutsOffGives(cut: seq<string>, items: seq<string>, hit: (string, char, Lex) -> bool)
    requires CutsOff(cut, items, hit)
    ensures var n := |cut| - 1;
      && 0 <= n < |items| && cut[..n] == items[..n] && Quiet(items[..n], hit)
      && FirstHit(items[n], ' ', TOP, hit).Some?
      && cut[n] == items[n][..FirstHit(items[n], ' ', TOP, hit).value]
  {
    hide SelfContained, Quiet, FirstHit;
  }

  lemma ItemIsWell(item: string, hit: (string, char, Lex) -> bool)
    requires ItemOf(hit, item)
    ensures WellFormed(item)
  {
  }

  /** A hit-free beginning of the list reaches at least to item `k` exactly if the cut is behind it. */
  lemma CutBeyond(items: seq<string>, hit: (string, char, Lex) -> bool, n: nat, k: nat)
    requires n < |items| && k < |items| && Quiet(items[..n], hit) && FirstHit(items[n], ' ', TOP, hit).Some?
    ensures Quiet(items[..k + 1], hit) <==> k < n
  {
    hide FirstHit;
    if k < n {
      assert forall i :: 0 <= i <= k ==> items[..k + 1][i] == items[..n][i];
    } else {
      assert items[..k + 1][n] == items[n];
    }
  }

  /** A list of self-contained parts splits back, but for a blank last one. */
  lemma SplitJoined(parts: seq<string>)
    requires parts != [] && forall p :: p in parts ==> SelfContained(p)
    ensures SplitTopLevel(JoinCommas(parts)) == if Blank(parts[|parts| - 1]) then parts[..|parts| - 1] else parts
  {
    hide SelfContained, Pieces, JoinCommas, Run, Blank;
    PiecesOfJoined(parts);
  }

  lemma SpacedSelf(cut: seq<string>)
    requires forall i :: 0 <= i < |cut| ==> SelfContained(cut[i])
    ensures forall p :: p in Spaced(cut) ==> SelfContained(p)
  {
    forall i | 0 <= i < |cut| ensures SelfContained(Spaced(cut)[i]) {
      SpaceSelf(cut[i]);
    }
    hide SelfContained;
  }

  lemma TrimShorter(x: string)
    ensures |Trim(x)| <= |x| && |Trim(" " + x)| <= |x|
  {
    assert (" " + x)[1..] == x;
  }

  lemma CutIsSelf(items: seq<string>, hit: (string, char, Lex) -> bool)
    requires ItemsOf(hit, items) && !Quiet(items, hit) && AtTop(hit)
    ensures forall i :: 0 <= i < |CutList(items, hit)| ==> SelfContained(CutList(items, hit)[i])
  {
    CutItems(items, hit);
    var cut := CutList(items, hit);
    var n := |cut| - 1;
    hide SelfContained, ItemOf, Quiet, CutList, FirstHit, AtTop;
    forall i | 0 <= i < |cut| ensures SelfContained(cut[i]) {
      if i < n {
        assert cut[i] == cut[..n][i] == items[..n][i] && ItemOf(hit, items[i]);
        ItemIsWell(items[i], hit);
        WellIsSelf(items[i]);
      }
    }
  }

  lemma WellIsSelf(e: string)
    requires WellFormed(e)
    ensures SelfContained(e)
  {
  }

  /** The parts of a list whose last one is not read if it is blank. */
  function SansBlank(parts: seq<string>): seq<string>
    requires parts != []
  {
    if Blank(parts[|parts| - 1]) then parts[..|parts| - 1] else parts
  }

  lemma SansBlankIs(parts: seq<string>)
    requires parts != []
    ensures SansBlank(parts) == parts || SansBlank(parts) == parts[..|parts| - 1]
  {
  }

  lemma CutSplits(items: seq<string>, hit: (string, char, Lex) -> bool)
    requires items != [] && ItemsOf(hit, items) && !Quiet(items, hit) && AtTop(hit)
    ensures var parts := Spaced(CutList(items, hit));
      parts != [] && SplitTopLevel(JoinCommas(parts)) == SansBlank(parts)
  {
    hide SelfContained, ItemsOf, Quiet, FirstHit, Blank, JoinCommas, SplitTopLevel, AtTop;
    CutIsSelf(items, hit);
    SpacedSelf(CutList(items, hit));
    SplitJoined(Spaced(CutList(items, hit)));
  }

  /** Part `k` of a list whose last part is the beginning of item `n`. */
  lemma PickOfCut(table: string, items: seq<string>, cut: seq<string>, parts: seq<string>, k: nat)
    requires k < |items| && 0 < |cut| <= |items| && cut[..|cut| - 1] == items[..|cut| - 1]
    requires |cut[|cut| - 1]| < |items[|cut| - 1]| && WellFormed(items[k])
    requires parts == Spaced(cut) || parts == Spaced(cut)[..|cut| - 1]
    ensures Pick(table, parts, k) == Some(Written(table, items[k])) <==> k < |cut| - 1
    ensures k > |cut| - 1 ==> Pick(table, parts, k) == None
  {
    var n := |cut| - 1;
    TrimShorter(cut[n]);
    TrimTidy(items[k]);
    hide WellFormed, Trim;
    assert k <= n ==> Spaced(cut)[k] == cut[k] || Spaced(cut)[k] == " " + cut[k];
    hide Spaced;
    if k < n {
      assert cut[k] == cut[..n][k] == items[..n][k];
    }
  }

  lemma NothingQuiet(items: seq<string>, hit: (string, char, Lex) -> bool)
    ensures Quiet(items[..0], hit)
  {
  }

  lemma WellAt(items: seq<string>, hit: (string, char, Lex) -> bool, k: nat)
    requires ItemsOf(hit, items) && k < |items|
    ensures WellFormed(items[k])
  {
    hide WellFormed;
    assert ItemOf(hit, items[k]);
  }

  lemma CutBefore(items: seq<string>, hit: (string, char, Lex) -> bool, n: nat, k: nat)
    requires n < |items| && k < |items| && Quiet(items[..n], hit) && FirstHit(items[n], ' ', TOP, hit).Some?
    ensures Quiet(items[..k + 1], hit) <==> k < n
    ensures !Quiet(items[..k], hit) ==> k > n
  {
    hide FirstHit, Quiet;
    CutBeyond(items, hit, n, k);
    if k > 0 { CutBeyond(items, hit, n, k - 1); } else { NothingQuiet(items, hit); }
  }

  /** From a cut list part `k` is picked whole exactly if no hit stands before its end. */
  lemma CutPick(table: string, items: seq<string>, hit: (string, char, Lex) -> bool, k: nat)
    requires ItemsOf(hit, items) && !Quiet(items, hit) && AtTop(hit) && k < |items|
    ensures Pick(table, SplitTopLevel(JoinCommas(Spaced(CutList(items, hit)))), k) == Some(Written(table, items[k]))
       <==> Quiet(items[..k + 1], hit)
    ensures !Quiet(items[..k], hit) ==> Pick(table, SplitTopLevel(JoinCommas(Spaced(CutList(items, hit)))), k) == None
  {
    hide *;
    CutItems(items, hit);
    CutSplits(items, hit);
    WellAt(items, hit, k);
    var cut := CutList(items, hit);
    SansBlankIs(Spaced(cut));
    CutsOffGives(cut, items, hit);
    CutBefore(items, hit, |cut| - 1, k);
    CutShorter(items[|cut| - 1], hit);
    PickOfCut(table, items, cut, SplitTopLevel(JoinCommas(Spaced(cut))), k);
  }

  lemma CutShorter(item: string, hit: (string, char, Lex) -> bool)
    requires FirstHit(item, ' ', TOP, hit).Some?
    ensures |item[..FirstHit(item, ' ', TOP, hit).value]| < |item|
  {
  }
}
