/**
 * Scrubbing comment lines out of coverage: which source lines can be missed at all, the
 * rewriting of one record, and its place beside parsing and merging.
 */
module LcovScrub {
  import opened Prelude
  import opened Strings
  import opened TextFields
  import opened Lcov
  import opened P = LcovPrint
  import opened LcovAlgebra

  // ------------------------------------------------------------------ the rows

  /** `parseInt(s, 10)`: the leading digits; None stands for NaN. */
  function LeadingInt(s: string): Num {
    if Digits(s) == "" then None else Some(Value(Digits(s)))
  }

  datatype Row = Da(line: Num, hits: nat) | Brda(line: Num, hit: bool) | Total | Plain

  function OrZero(n: Num): nat {
    match n case Some(k) => k case None => 0
  }

  /** The part after the third comma, up to the next. */
  function Fourth(s: string): string {
    UpTo(After(After(After(s, ','), ','), ','), ',')
  }

  function RowOf(line: string): Row {
    if StartsWith(line, "DA:") then
      Da(LeadingInt(UpTo(line[3..], ',')), OrZero(LeadingInt(UpTo(After(line[3..], ','), ','))))
    else if StartsWith(line, "BRDA:") then
      Brda(LeadingInt(UpTo(line[5..], ',')), OrZero(LeadingInt(Fourth(line[5..]))) > 0)
    else if StartsWith(line, "LF:") || StartsWith(line, "LH:") then Total
    else if StartsWith(line, "BRF:") || StartsWith(line, "BRH:") then Total
    else Plain
  }

  predicate In(n: Num, lines: set<nat>) {
    n.Some? && n.value in lines
  }

  /** A missed comment line, every branch of a comment line and the old totals go. */
  predicate Keep(line: string, nonExec: set<nat>) {
    match RowOf(line)
    case Da(l, hits) => !(In(l, nonExec) && hits == 0)
    case Brda(l, _) => !In(l, nonExec)
    case Total => false
    case Plain => true
  }

  function Kept(lines: seq<string>, nonExec: set<nat>): seq<string> {
    if lines == [] then []
    else (if Keep(lines[0], nonExec) then [lines[0]] else []) + Kept(lines[1..], nonExec)
  }

  datatype Tally = Tally(lf: nat, lh: nat, brf: nat, brh: nat)

  function Seen(t: Tally, line: string): Tally {
    match RowOf(line)
    case Da(_, hits) => t.(lf := t.lf + 1, lh := t.lh + if hits > 0 then 1 else 0)
    case Brda(_, hit) => t.(brf := t.brf + 1, brh := t.brh + if hit then 1 else 0)
    case Total => t
    case Plain => t
  }

  function TallyOf(lines: seq<string>): Tally {
    if lines == [] then Tally(0, 0, 0, 0) else Seen(TallyOf(lines[..|lines| - 1]), lines[|lines| - 1])
  }

  function Totals(t: Tally): seq<string> {
    ["LF:" + Dec(t.lf), "LH:" + Dec(t.lh), "BRF:" + Dec(t.brf), "BRH:" + Dec(t.brh)]
  }

  /** The first `end_of_record`, or the end. */
  function EndAt(lines: seq<string>): (at: nat)
    ensures at <= |lines|
  {
    if lines == [] || lines[0] == "end_of_record" then 0 else 1 + EndAt(lines[1..])
  }

  function Rewrite(block: seq<string>, nonExec: set<nat>): seq<string> {
    if nonExec == {} then block
    else
      var kept := Kept(block, nonExec);
      kept[..EndAt(kept)] + Totals(TallyOf(kept)) + kept[EndAt(kept)..]
  }

  lemma KeptCons(l: string, rest: seq<string>, nonExec: set<nat>)
    ensures Kept([l] + rest, nonExec) == (if Keep(l, nonExec) then [l] else []) + Kept(rest, nonExec)
  {
    hide Keep;
    assert ([l] + rest)[1..] == rest;
  }

  lemma {:induction false} KeptSnoc(a: seq<string>, l: string, nonExec: set<nat>)
    ensures Kept(a + [l], nonExec) == Kept(a, nonExec) + if Keep(l, nonExec) then [l] else []
  {
    hide Keep;
    if a == [] {
      assert a + [l] == [l] && [l][1..] == [];
    } else {
      assert a + [l] == [a[0]] + (a[1..] + [l]);
      KeptSnoc(a[1..], l, nonExec);
      KeptCons(a[0], a[1..] + [l], nonExec);
      KeptCons(a[0], a[1..], nonExec);
      assert a == [a[0]] + a[1..];
      hide Kept;
    }
  }

  lemma {:induction false} KeptConcat(a: seq<string>, b: seq<string>, nonExec: set<nat>)
    ensures Kept(a + b, nonExec) == Kept(a, nonExec) + Kept(b, nonExec)
  {
    hide Keep;
    if a == [] {
      assert a + b == b;
    } else {
      assert (a + b)[0] == a[0] && (a + b)[1..] == a[1..] + b;
      KeptConcat(a[1..], b, nonExec);
      var head := if Keep(a[0], nonExec) then [a[0]] else [];
      assert Kept(a + b, nonExec) == head + Kept(a[1..] + b, nonExec);
      assert Kept(a, nonExec) == head + Kept(a[1..], nonExec);
      hide Kept;
    }
  }

  lemma {:induction false} KeptAll(lines: seq<string>, nonExec: set<nat>)
    ensures Kept(Kept(lines, nonExec), nonExec) == Kept(lines, nonExec)
  {
    hide Keep;
    if lines != [] {
      KeptAll(lines[1..], nonExec);
      var tail := Kept(lines[1..], nonExec);
      if Keep(lines[0], nonExec) {
        assert ([lines[0]] + tail)[1..] == tail;
      } else {
        assert Kept(lines, nonExec) == tail;
      }
    }
  }

  lemma TallyConcat(a: seq<string>, l: string)
    ensures TallyOf(a + [l]) == Seen(TallyOf(a), l)
  {
    assert (a + [l])[..|a|] == a;
  }

  lemma TurnOf(block: seq<string>, i: nat, nonExec: set<nat>)
    requires i < |block|
    ensures Kept(block[..i + 1], nonExec)
      == Kept(block[..i], nonExec) + if Keep(block[i], nonExec) then [block[i]] else []
    ensures TallyOf(Kept(block[..i], nonExec) + [block[i]]) == Seen(TallyOf(Kept(block[..i], nonExec)), block[i])
    ensures TallyOf(block[..i + 1]).lf == TallyOf(block[..i]).lf + if RowOf(block[i]).Da? then 1 else 0
  {
    hide Keep, RowOf;
    TallyConcat(block[..i], block[i]);
    assert block[..i + 1] == block[..i] + [block[i]];
    KeptSnoc(block[..i], block[i], nonExec);
    TallyConcat(Kept(block[..i], nonExec), block[i]);
  }

  /** `rewriteBlock`: one pass over the lines, filtering and counting. */
  method RewriteBlock(block: seq<string>, nonExec: set<nat>) returns (out: seq<string>, scrubbed: nat)
    ensures out == Rewrite(block, nonExec)
    ensures nonExec == {} ==> scrubbed == 0
    ensures nonExec != {} ==> scrubbed + TallyOf(Kept(block, nonExec)).lf == TallyOf(block).lf
  {
    scrubbed := 0;
    if nonExec == {} { return block, 0; }
    var kept: seq<string> := [];
    var t := Tally(0, 0, 0, 0);
    assert kept == Kept(block[..0], nonExec) && t == TallyOf(kept) && t == TallyOf(block[..0]);
    assert block[..|block|] == block;
    hide RowOf, Kept, TallyOf, EndAt, Totals;
    for i := 0 to |block|
      invariant kept == Kept(block[..i], nonExec)
      invariant t == TallyOf(kept)
      invariant scrubbed + t.lf == TallyOf(block[..i]).lf
    {
      var line := block[i];
      TurnOf(block, i, nonExec);
      var pushed;
      t, pushed := CountRow(t, line, nonExec);
      if pushed {
        kept := kept + [line];
      } else {
        assert kept + [] == kept;
        if RowOf(line).Da? { scrubbed := scrubbed + 1; }
      }
    }
    var at := FirstEnd(kept);
    out := kept[..at] + Totals(t) + kept[at..];
  }

  /** The counters' turn for one line, and whether the line is pushed. */
  method CountRow(was: Tally, line: string, nonExec: set<nat>) returns (t: Tally, pushed: bool)
    ensures pushed == Keep(line, nonExec)
    ensures t == if pushed then Seen(was, line) else was
    ensures t.lf == was.lf + if pushed && RowOf(line).Da? then 1 else 0
  {
    hide RowOf;
    t, pushed := was, false;
    match RowOf(line)
    case Da(l, hits) =>
      if !(In(l, nonExec) && hits == 0) {
        t := t.(lf := t.lf + 1);
        if hits > 0 { t := t.(lh := t.lh + 1); }
        pushed := true;
      }
    case Brda(l, hit) =>
      if !In(l, nonExec) {
        t := t.(brf := t.brf + 1);
        if hit { t := t.(brh := t.brh + 1); }
        pushed := true;
      }
    case Total =>
    case Plain =>
      pushed := true;
  }

  /** `findIndex` */
  method FirstEnd(lines: seq<string>) returns (at: nat)
    ensures at == EndAt(lines)
  {
    at := 0;
    while at < |lines| && lines[at] != "end_of_record"
      invariant at <= |lines| && at + EndAt(lines[at..]) == EndAt(lines)
    {
      assert lines[at..][1..] == lines[at + 1..];
      at := at + 1;
    }
  }

  // ------------------------------------------------------------------ idempotent

  lemma {:induction false} AllDropped(rows: seq<string>, nonExec: set<nat>)
    requires forall l :: l in rows ==> RowOf(l) == Total
    ensures Kept(rows, nonExec) == []
  {
    hide RowOf;
    if rows != [] {
      assert rows[0] in rows && forall l :: l in rows[1..] ==> l in rows;
      AllDropped(rows[1..], nonExec);
    }
  }

  lemma TotalsDropped(t: Tally, nonExec: set<nat>)
    ensures Kept(Totals(t), nonExec) == []
  {
    hide RowOf, Dec, Kept;
    var a, b, c, d := "LF:" + Dec(t.lf), "LH:" + Dec(t.lh), "BRF:" + Dec(t.brf), "BRH:" + Dec(t.brh);
    assert RowOf(a) == Row.Total by { TotalRow("LF:", t.lf); }
    assert RowOf(b) == Row.Total by { TotalRow("LH:", t.lh); }
    assert RowOf(c) == Row.Total by { TotalRow("BRF:", t.brf); }
    assert RowOf(d) == Row.Total by { TotalRow("BRH:", t.brh); }
    assert Totals(t) == [a, b, c, d];
    hide *;
    FourDropped(a, b, c, d, nonExec);
  }

  lemma FourDropped(a: string, b: string, c: string, d: string, nonExec: set<nat>)
    requires RowOf(a) == Total && RowOf(b) == Total && RowOf(c) == Total && RowOf(d) == Total
    ensures Kept([a, b, c, d], nonExec) == []
  {
    hide RowOf;
    var rows := [a, b, c, d];
    assert forall l :: l in rows ==> l == a || l == b || l == c || l == d;
    AllDropped(rows, nonExec);
  }

  lemma TotalRow(head: string, n: nat)
    requires head in ["LF:", "LH:", "BRF:", "BRH:"]
    ensures RowOf(head + Dec(n)) == Total
  {
    var line := head + Dec(n);
    assert line[..|head|] == head;
    assert line[0] == head[0] && line[1] == head[1] && line[2] == head[2];
    assert !StartsWith(line, "DA:") by { assert "DA:"[0] == 'D'; }
    assert !StartsWith(line, "BRDA:") by { assert "BRDA:"[2] == 'D'; }
  }

  /** Of a rewritten block, the pass keeps what it kept before. */
  lemma KeptOfRewritten(block: seq<string>, at: nat, t: Tally, nonExec: set<nat>)
    requires at <= |Kept(block, nonExec)|
    ensures var kept := Kept(block, nonExec);
      Kept(kept[..at] + Totals(t) + kept[at..], nonExec) == kept
  {
    hide Kept, Totals;
    var kept := Kept(block, nonExec);
    KeptConcat(kept[..at] + Totals(t), kept[at..], nonExec);
    KeptConcat(kept[..at], Totals(t), nonExec);
    TotalsDropped(t, nonExec);
    KeptConcat(kept[..at], kept[at..], nonExec);
    KeptAll(block, nonExec);
    assert kept[..at] + kept[at..] == kept;
  }

  /** Scrubbing a scrubbed block changes nothing. */
  lemma RewriteIdempotent(block: seq<string>, nonExec: set<nat>)
    ensures Rewrite(Rewrite(block, nonExec), nonExec) == Rewrite(block, nonExec)
  {
    hide Kept, TallyOf, Totals, EndAt;
    if nonExec != {} {
      var kept := Kept(block, nonExec);
      KeptOfRewritten(block, EndAt(kept), TallyOf(kept), nonExec);
    }
  }

  // ---------------------------------------------------------------- never loses

  predicate HasHits(row: Row) {
    (row.Da? && row.hits > 0) || (row.Brda? && row.hit)
  }

  /** A row with hits goes exactly if it is a branch, taken or not, of a line to scrub. */
  lemma {:induction false} HitRowsKept(block: seq<string>, nonExec: set<nat>, l: string)
    requires l in block && HasHits(RowOf(l))
    ensures l !in Kept(block, nonExec) <==> RowOf(l).Brda? && In(RowOf(l).line, nonExec)
    decreases |block|
  {
    hide RowOf;
    if block[0] != l {
      HitRowsKept(block[1..], nonExec, l);
    } else if l in block[1..] {
      HitRowsKept(block[1..], nonExec, l);
    } else {
      KeptIn(block[1..], nonExec, l);
    }
  }

  lemma {:induction false} KeptIn(block: seq<string>, nonExec: set<nat>, l: string)
    ensures l in Kept(block, nonExec) ==> l in block
    decreases |block|
  {
    hide Keep;
    if block != [] { KeptIn(block[1..], nonExec, l); }
  }

  predicate Thinned(a: Tally, b: Tally) {
    a.lh == b.lh && a.lf <= b.lf && a.lh <= a.lf && a.brf <= b.brf && a.brh <= b.brh
  }

  lemma SeenThins(a: Tally, b: Tally, l: string, nonExec: set<nat>)
    requires Thinned(a, b)
    ensures Thinned(if Keep(l, nonExec) then Seen(a, l) else a, Seen(b, l))
  {
    hide RowOf;
  }

  lemma {:induction false} LinesTallied(block: seq<string>, nonExec: set<nat>)
    ensures Thinned(TallyOf(Kept(block, nonExec)), TallyOf(block))
    decreases |block|
  {
    if block == [] {
    } else {
      var front, l := block[..|block| - 1], block[|block| - 1];
      hide Keep, Seen, Thinned;
      LinesTallied(front, nonExec);
      assert block == front + [l];
      KeptSnoc(front, l, nonExec);
      TallyConcat(Kept(front, nonExec), l);
      SeenThins(TallyOf(Kept(front, nonExec)), TallyOf(front), l, nonExec);
      assert Kept(front, nonExec) + [] == Kept(front, nonExec);
      hide Kept;
    }
  }

  /** The lines hit stay, the lines found cannot grow, and so the hit ratio cannot fall. */
  lemma RatioNeverFalls(block: seq<string>, nonExec: set<nat>)
    ensures var b, a := TallyOf(block), TallyOf(Kept(block, nonExec));
            a.lh == b.lh && a.lf <= b.lf && b.lh * a.lf <= a.lh * b.lf
  {
    LinesTallied(block, nonExec);
    hide TallyOf, Kept;
    var b, a := TallyOf(block), TallyOf(Kept(block, nonExec));
    Scale(b.lh, a.lf, b.lf);
  }
}
