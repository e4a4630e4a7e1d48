/**
 * The totals reported before and after a scrub: what the rewritten records say of
 * themselves, against what they said before.
 */
module LcovReport {
  import opened Prelude
  import opened Strings
  import opened TextFields
  import opened Lcov
  import opened P = LcovPrint
  import opened M = LcovScrubMerge
  import opened LcovStrip
  import S = LcovScrub

  // --------------------------------------------------------------- finding a row

  /** The row is a number under that head. */
  predicate Answers(line: string, head: string) {
    StartsWith(line, head) && Digits(line[|head|..]) != ""
  }

  predicate Silent(lines: seq<string>, head: string) {
    forall i :: 0 <= i < |lines| ==> !Answers(lines[i], head)
  }

  lemma GrabStep(line: string, rest: seq<string>, head: string)
    ensures Grab([line] + rest, head) == if Answers(line, head) then Value(Digits(line[|head|..])) else Grab(rest, head)
  {
    assert ([line] + rest)[0] == line && ([line] + rest)[1..] == rest;
  }

  lemma {:induction false} GrabBehind(a: seq<string>, b: seq<string>, head: string)
    requires Silent(a, head)
    ensures Grab(a + b, head) == Grab(b, head)
    decreases |a|
  {
    if a == [] {
      assert a + b == b;
    } else {
      hide Answers, Grab;
      assert Silent(a[1..], head) && !Answers(a[0], head);
      GrabBehind(a[1..], b, head);
      GrabStep(a[0], a[1..] + b, head);
      assert a + b == [a[0]] + (a[1..] + b);
    }
  }

  /** Silent rows put in between change nothing. */
  lemma {:induction false} GrabAround(a: seq<string>, silent: seq<string>, b: seq<string>, head: string)
    requires Silent(silent, head)
    ensures Grab(a + silent + b, head) == Grab(a + b, head)
    decreases |a|
  {
    hide Answers, Grab, Silent;
    if a == [] {
      GrabBehind(silent, b, head);
      assert a + silent + b == silent + b && a + b == b;
    } else {
      GrabAround(a[1..], silent, b, head);
      GrabStep(a[0], a[1..] + silent + b, head);
      GrabStep(a[0], a[1..] + b, head);
      assert a + silent + b == [a[0]] + (a[1..] + silent + b) && a + b == [a[0]] + (a[1..] + b);
    }
  }

  // ----------------------------------------------------------- a rewritten record

  lemma DecAnswers(head: string, n: nat)
    ensures Answers(head + Dec(n), head) && Value(Digits((head + Dec(n))[|head|..])) == n
  {
    DecReads(n);
    DigitsAll(Dec(n));
    assert (head + Dec(n))[..|head|] == head && (head + Dec(n))[|head|..] == Dec(n);
    hide Dec, Digits, Value;
  }

  lemma HeadChar(line: string, head: string, k: nat)
    requires k < |head|
    ensures StartsWith(line, head) ==> k < |line| && line[k] == head[k]
  {
    if StartsWith(line, head) { assert line[..|head|][k] == line[k]; }
  }

  /** A line under one head is not under a head that differs in a place both have. */
  lemma OtherHead(line: string, head: string, other: string, k: nat)
    requires StartsWith(line, head) && k < |head| && k < |other| && head[k] != other[k]
    ensures !Answers(line, other)
  {
    HeadChar(line, head, k);
    HeadChar(line, other, k);
  }

  /** Of the four new totals, each answers to its own head. */
  lemma TotalsAnswer(t: S.Tally, rest: seq<string>)
    ensures Grab(S.Totals(t) + rest, "LF:") == t.lf && Grab(S.Totals(t) + rest, "LH:") == t.lh
    ensures Grab(S.Totals(t) + rest, "BRF:") == t.brf && Grab(S.Totals(t) + rest, "BRH:") == t.brh
  {
    var lf, lh, brf, brh := "LF:" + Dec(t.lf), "LH:" + Dec(t.lh), "BRF:" + Dec(t.brf), "BRH:" + Dec(t.brh);
    assert S.Totals(t) + rest == [lf] + ([lh] + ([brf] + ([brh] + rest)));
    DecAnswers("LF:", t.lf);
    DecAnswers("LH:", t.lh);
    DecAnswers("BRF:", t.brf);
    DecAnswers("BRH:", t.brh);
    OtherHead(lf, "LF:", "LH:", 1);
    OtherHead(lf, "LF:", "BRF:", 0);
    OtherHead(lf, "LF:", "BRH:", 0);
    OtherHead(lh, "LH:", "BRF:", 0);
    OtherHead(lh, "LH:", "BRH:", 0);
    OtherHead(brf, "BRF:", "BRH:", 2);
    hide *;
    FourRows(lf, lh, brf, brh, rest, "LF:");
    FourRows(lf, lh, brf, brh, rest, "LH:");
    FourRows(lf, lh, brf, brh, rest, "BRF:");
    FourRows(lf, lh, brf, brh, rest, "BRH:");
  }

  lemma FourRows(a: string, b: string, c: string, d: string, rest: seq<string>, head: string)
    ensures Grab([a] + ([b] + ([c] + ([d] + rest))), head)
         == if Answers(a, head) then Value(Digits(a[|head|..]))
            else if Answers(b, head) then Value(Digits(b[|head|..]))
            else if Answers(c, head) then Value(Digits(c[|head|..]))
            else if Answers(d, head) then Value(Digits(d[|head|..]))
            else Grab(rest, head)
  {
    hide Answers, Grab;
    GrabStep(a, [b] + ([c] + ([d] + rest)), head);
    GrabStep(b, [c] + ([d] + rest), head);
    GrabStep(c, [d] + rest, head);
    GrabStep(d, rest, head);
  }

  predicate OldTotal(head: string) {
    head == "LF:" || head == "LH:" || head == "BRF:" || head == "BRH:"
  }

  lemma TotalsGo(line: string, nonExec: set<nat>, head: string)
    requires OldTotal(head) && S.Keep(line, nonExec)
    ensures !Answers(line, head)
  {
    HeadChar(line, head, 0);
    HeadChar(line, head, 2);
    HeadChar(line, "DA:", 0);
    HeadChar(line, "BRDA:", 2);
    hide S.LeadingInt, UpTo, After, S.Fourth, S.OrZero;
  }

  lemma {:induction false} KeptSilent(block: seq<string>, nonExec: set<nat>, head: string)
    requires OldTotal(head)
    ensures Silent(S.Kept(block, nonExec), head)
    decreases |block|
  {
    hide OldTotal, S.Keep, Answers;
    if block != [] {
      KeptSilent(block[1..], nonExec, head);
      if S.Keep(block[0], nonExec) { TotalsGo(block[0], nonExec, head); }
    }
  }

  /** A rewritten record says of its lines and branches exactly what is counted on its rows. */
  lemma NewTotals(block: seq<string>, nonExec: set<nat>)
    requires nonExec != {}
    ensures var r, t := S.Rewrite(block, nonExec), S.TallyOf(S.Kept(block, nonExec));
      Grab(r, "LF:") == t.lf && Grab(r, "LH:") == t.lh && Grab(r, "BRF:") == t.brf && Grab(r, "BRH:") == t.brh
  {
    hide *;
    var kept := S.Kept(block, nonExec);
    var t, at := S.TallyOf(kept), S.EndAt(kept);
    RewriteIs(block, nonExec);
    OldTotals();
    TotalsAnswer(t, kept[at..]);
    Leading(block, nonExec, at, "LF:", S.Totals(t) + kept[at..]);
    Leading(block, nonExec, at, "LH:", S.Totals(t) + kept[at..]);
    Leading(block, nonExec, at, "BRF:", S.Totals(t) + kept[at..]);
    Leading(block, nonExec, at, "BRH:", S.Totals(t) + kept[at..]);
  }

  lemma RewriteIs(block: seq<string>, nonExec: set<nat>)
    requires nonExec != {}
    ensures var kept := S.Kept(block, nonExec); var at := S.EndAt(kept);
      at <= |kept| && S.Rewrite(block, nonExec) == kept[..at] + (S.Totals(S.TallyOf(kept)) + kept[at..])
  {
    hide S.Kept, S.TallyOf, S.EndAt, S.Totals;
  }

  lemma OldTotals()
    ensures OldTotal("LF:") && OldTotal("LH:") && OldTotal("BRF:") && OldTotal("BRH:")
  {
  }

  lemma Leading(block: seq<string>, nonExec: set<nat>, at: nat, head: string, rest: seq<string>)
    requires OldTotal(head) && at <= |S.Kept(block, nonExec)|
    ensures Grab(S.Kept(block, nonExec)[..at] + rest, head) == Grab(rest, head)
  {
    KeptSilent(block, nonExec, head);
    hide S.Kept, Answers, OldTotal;
    var kept := S.Kept(block, nonExec);
    assert Silent(kept[..at], head);
    GrabBehind(kept[..at], rest, head);
  }

  // ------------------------------------------------------------- the other totals

  predicate FnTotal(head: string) {
    head == "FNF:" || head == "FNH:"
  }

  lemma FnTotalsStay(line: string, nonExec: set<nat>, head: string)
    requires FnTotal(head) && !S.Keep(line, nonExec)
    ensures !Answers(line, head)
  {
    HeadChar(line, head, 0);
    HeadChar(line, "DA:", 0);
    HeadChar(line, "BRDA:", 0);
    HeadChar(line, "LF:", 0);
    HeadChar(line, "LH:", 0);
    HeadChar(line, "BRF:", 0);
    HeadChar(line, "BRH:", 0);
    hide S.LeadingInt, UpTo, After, S.Fourth, S.OrZero;
  }

  lemma {:induction false} GrabKept(block: seq<string>, nonExec: set<nat>, head: string)
    requires FnTotal(head)
    ensures Grab(S.Kept(block, nonExec), head) == Grab(block, head)
    decreases |block|
  {
    hide FnTotal, S.Keep, Answers, Grab;
    if block != [] {
      var line, rest := block[0], block[1..];
      GrabKept(rest, nonExec, head);
      GrabStep(line, rest, head);
      assert block == [line] + rest;
      if S.Keep(line, nonExec) {
        GrabStep(line, S.Kept(rest, nonExec), head);
      } else {
        FnTotalsStay(line, nonExec, head);
        assert [] + S.Kept(rest, nonExec) == S.Kept(rest, nonExec);
      }
    }
  }

  lemma TotalsSilent(t: S.Tally, head: string)
    requires FnTotal(head)
    ensures Silent(S.Totals(t), head)
  {
    var rows := S.Totals(t);
    forall i | 0 <= i < |rows| ensures !Answers(rows[i], head) {
      assert rows[i][0] == 'L' || rows[i][0] == 'B';
      HeadChar(rows[i], head, 0);
    }
  }

  /** The scrub does not touch the functions found and hit. */
  lemma SameFunctions(block: seq<string>, nonExec: set<nat>, head: string)
    requires FnTotal(head)
    ensures Grab(S.Rewrite(block, nonExec), head) == Grab(block, head)
  {
    if nonExec != {} {
      var kept := S.Kept(block, nonExec);
      var t, at := S.TallyOf(kept), S.EndAt(kept);
      hide S.Kept, S.TallyOf, S.EndAt, S.Totals, FnTotal, Grab, Silent;
      GrabKept(block, nonExec, head);
      TotalsSilent(t, head);
      GrabAround(kept[..at], S.Totals(t), kept[at..], head);
      assert kept[..at] + kept[at..] == kept;
    }
  }

  // ------------------------------------------------------------------ whole files

  /** The totals a record states are those its rows add up to. */
  predicate Honest(block: seq<string>) {
    var t := S.TallyOf(block);
    Grab(block, "LF:") == t.lf && Grab(block, "LH:") == t.lh && Grab(block, "BRF:") == t.brf
      && Grab(block, "BRH:") == t.brh
  }

  predicate AllHonest(pieces: seq<seq<string>>) {
    forall i :: 0 <= i < |pieces| && Mentions(pieces[i], "SF:") ==> Honest(pieces[i] + [END])
  }

  /** Nothing hit is lost from the report, nothing found is gained, and the functions stay. */
  predicate NoWorse(b: Stats, a: Stats) {
    && a.files == b.files && a.fns == b.fns && a.fnsHit == b.fnsHit
    && a.linesHit == b.linesHit && a.lines <= b.lines
    && a.branches <= b.branches && a.branchesHit <= b.branchesHit
  }

  lemma RecordNoWorse(b: Stats, a: Stats, block: seq<string>, nonExec: set<nat>)
    requires NoWorse(b, a) && Honest(block)
    ensures NoWorse(Counted(b, block), Counted(a, S.Rewrite(block, nonExec)))
  {
    if nonExec == {} {
      NothingRewritten(block);
    } else {
      NewTotals(block, nonExec);
      S.LinesTallied(block, nonExec);
    }
    SameFunctions(block, nonExec, "FNF:");
    SameFunctions(block, nonExec, "FNH:");
    hide S.Rewrite, S.TallyOf, S.Kept, Grab;
  }

  lemma {:induction false} PiecesNoWorse(b: Stats, a: Stats, pieces: seq<seq<string>>, source: string -> set<nat>)
    requires NoWorse(b, a) && AllHonest(pieces)
    ensures NoWorse(CountedAll(b, pieces), CountedAfter(a, pieces, source))
    decreases |pieces|
  {
    if pieces != [] {
      var block := pieces[0] + [END];
      assert Mentions(pieces[0], "SF:") ==> Honest(block);
      assert AllHonest(pieces[1..]);
      hide S.Rewrite, Honest, NoWorse, Counted, Mentions, AllHonest, SourceOf;
      if Mentions(pieces[0], "SF:") {
        match SourceOf(block) {
          case None =>
            RecordNoWorse(b, a, block, {});
            NothingRewritten(block);
          case Some(path) =>
            RecordNoWorse(b, a, block, source(path));
        }
        PiecesNoWorse(Counted(b, block), Counted(a, Rewritten(block, source)), pieces[1..], source);
      } else {
        PiecesNoWorse(b, a, pieces[1..], source);
      }
    }
  }

  /** The report of a file whose records count themselves right: the hit ratio of lines cannot fall. */
  lemma ReportNeverFalls(lines: seq<string>, source: string -> set<nat>)
    requires AllHonest(Pieces(lines))
    ensures var b, a := CountedAll(NO_STATS, Pieces(lines)), CountedAfter(NO_STATS, Pieces(lines), source);
      NoWorse(b, a) && b.linesHit * a.lines <= a.linesHit * b.lines
  {
    PiecesNoWorse(NO_STATS, NO_STATS, Pieces(lines), source);
    hide CountedAll, CountedAfter, Pieces;
    var b, a := CountedAll(NO_STATS, Pieces(lines)), CountedAfter(NO_STATS, Pieces(lines), source);
    Scale(b.linesHit, a.lines, b.lines);
  }

  // ------------------------------------------------------- a record that misstates

  /** The row is about that line of the source. */
  predicate Uses(row: string, n: nat) {
    match S.RowOf(row)
    case Da(l, _) => l == Some(n)
    case Brda(l, _) => l == Some(n)
    case Total => false
    case Plain => false
  }

  function LineOfRow(row: string): nat {
    match S.RowOf(row)
    case Da(l, _) => S.OrZero(l)
    case Brda(l, _) => S.OrZero(l)
    case Total => 0
    case Plain => 0
  }

  function LastLine(block: seq<string>): nat {
    if block == [] then 0 else Max(LineOfRow(block[0]), LastLine(block[1..]))
  }

  lemma {:induction false} NoneUses(block: seq<string>, n: nat)
    requires n > LastLine(block)
    ensures forall i :: 0 <= i < |block| ==> !Uses(block[i], n)
    decreases |block|
  {
    if block != [] {
      assert !Uses(block[0], n) by { hide S.RowOf; }
      hide Uses, LineOfRow;
      NoneUses(block[1..], n);
    }
  }

  lemma UnusedRow(t: S.Tally, row: string, n: nat)
    requires !Uses(row, n)
    ensures S.Keep(row, {n}) || S.Seen(t, row) == t
  {
    hide S.RowOf;
  }

  /** Scrubbing a line no row is about drops nothing that is counted. */
  lemma {:induction false} NothingCountedGoes(block: seq<string>, n: nat)
    requires forall i :: 0 <= i < |block| ==> !Uses(block[i], n)
    ensures S.TallyOf(S.Kept(block, {n})) == S.TallyOf(block)
    decreases |block|
  {
    hide *;
    if block == [] {
      NothingKept(n);
    } else {
      var front, l := block[..|block| - 1], block[|block| - 1];
      NothingCountedGoes(front, n);
      UnusedRow(S.TallyOf(front), l, n);
      S.KeptSnoc(front, l, {n});
      S.TallyConcat(front, l);
      S.TallyConcat(S.Kept(front, {n}), l);
      assert block == front + [l] && S.Kept(front, {n}) + [] == S.Kept(front, {n});
    }
  }

  lemma NothingKept(n: nat)
    ensures S.Kept([], {n}) == []
  {
  }

  /** The hit ratio of lines that a record states, before and after its rewriting. */
  ghost predicate RatioFalls(block: seq<string>, nonExec: set<nat>) {
    var r := S.Rewrite(block, nonExec);
    Grab(r, "LH:") * Grab(block, "LF:") < Grab(block, "LH:") * Grab(r, "LF:")
  }

  /** The ratio a record states is no better than the one its rows add up to. */
  predicate Modest(block: seq<string>) {
    Grab(block, "LH:") * S.TallyOf(block).lf <= S.TallyOf(block).lh * Grab(block, "LF:")
  }

  lemma ModestHolds(block: seq<string>, nonExec: set<nat>)
    requires Modest(block)
    ensures !RatioFalls(block, nonExec)
  {
    if nonExec == {} {
      NothingRewritten(block);
    } else {
      NewTotals(block, nonExec);
      S.LinesTallied(block, nonExec);
      var kept, all := S.TallyOf(S.Kept(block, nonExec)), S.TallyOf(block);
      assert kept.lh == all.lh && kept.lf <= all.lf;
      hide *;
      Scale(Grab(block, "LH:"), kept.lf, all.lf);
    }
  }

  lemma BoastfulFalls(block: seq<string>, n: nat)
    requires !Modest(block) && n > LastLine(block)
    ensures RatioFalls(block, {n})
  {
    NewTotals(block, {n});
    NoneUses(block, n);
    NothingCountedGoes(block, n);
    hide S.TallyOf, S.Kept, S.Rewrite, Grab, LastLine;
  }

  /**
   * A record's reported ratio never falls, whatever its source, exactly if the stated one is not
   * above the counted one.
   */
  lemma RatioKeptIff(block: seq<string>)
    ensures (forall nonExec :: !RatioFalls(block, nonExec)) <==> Modest(block)
  {
    hide *;
    if Modest(block) {
      forall nonExec ensures !RatioFalls(block, nonExec) {
        ModestHolds(block, nonExec);
      }
    } else {
      BoastfulFalls(block, LastLine(block) + 1);
    }
  }

  // ----------------------------------------------------------- what is printed

  function Plus(t: S.Tally, u: S.Tally): S.Tally {
    S.Tally(t.lf + u.lf, t.lh + u.lh, t.brf + u.brf, t.brh + u.brh)
  }

  lemma {:induction false} TallySum(a: seq<string>, b: seq<string>)
    ensures S.TallyOf(a + b) == Plus(S.TallyOf(a), S.TallyOf(b))
    decreases |b|
  {
    hide *;
    if b == [] {
      NoTally(a);
      assert b == [] && a + [] == a;
    } else {
      var front, l := b[..|b| - 1], b[|b| - 1];
      TallySum(a, front);
      S.TallyConcat(a + front, l);
      S.TallyConcat(front, l);
      SeenPlus(S.TallyOf(a), S.TallyOf(front), l);
      assert a + b == (a + front) + [l] && b == front + [l];
    }
  }

  lemma NoTally(a: seq<string>)
    ensures Plus(S.TallyOf(a), S.TallyOf([])) == S.TallyOf(a)
  {
  }

  lemma SeenPlus(t: S.Tally, u: S.Tally, l: string)
    ensures S.Seen(Plus(t, u), l) == Plus(t, S.Seen(u, l))
  {
    hide S.RowOf;
  }

  lemma OneRow(line: string)
    ensures S.TallyOf([line]) == S.Seen(S.Tally(0, 0, 0, 0), line)
  {
    hide S.Seen;
    assert [line][..0] == [];
  }

  lemma RowsTally(f: Field, rest: seq<Field>)
    ensures S.TallyOf(Lines([f] + rest)) == Plus(S.Seen(S.Tally(0, 0, 0, 0), Text(f)), S.TallyOf(Lines(rest)))
  {
    assert ([f] + rest)[1..] == rest;
    assert Lines([f] + rest) == [Text(f)] + Lines(rest) by { hide Text; }
    OneRow(Text(f));
    TallySum([Text(f)], Lines(rest));
    hide S.TallyOf, S.Seen, Lines, Text;
  }

  lemma DaCounts(l: Num, n: nat)
    ensures S.Seen(S.Tally(0, 0, 0, 0), Text(Field("DA", Show(l) + "," + Dec(n))))
      == S.Tally(1, if n > 0 then 1 else 0, 0, 0)
  {
    var rest := Show(l) + "," + Dec(n);
    RowOfDa(rest);
    ShowLacks(l, ',');
    DecLacks(n, ',');
    DecReads(n);
    DigitsAll(Dec(n));
    hide Show, Dec, Lacks, S.RowOf, Text;
    FieldReads(Show(l), ',', Dec(n));
    LastField(Dec(n), ',');
    assert Show(l) + [','] + Dec(n) == rest;
    assert S.LeadingInt(Dec(n)) == Some(n);
    hide S.LeadingInt, UpTo, After;
  }

  lemma FourthReads(a: string, b: string, c: string, d: string)
    requires Lacks(a, ',') && Lacks(b, ',') && Lacks(c, ',') && Lacks(d, ',')
    ensures S.Fourth(a + "," + b + "," + c + "," + d) == d
  {
    hide Lacks;
    var r2 := c + "," + d;
    var r1 := b + "," + r2;
    assert a + "," + b + "," + c + "," + d == a + [','] + r1 && b + [','] + r2 == r1 && c + [','] + d == r2;
    FieldReads(a, ',', r1);
    FieldReads(b, ',', r2);
    FieldReads(c, ',', d);
    LastField(d, ',');
  }

  lemma BrdaCounts(key: string, n: nat)
    requires ThreeParts(key)
    ensures S.Seen(S.Tally(0, 0, 0, 0), Text(Field("BRDA", key + "," + Taken(n))))
      == S.Tally(0, 0, 1, if n > 0 then 1 else 0)
  {
    var a, b, c :| Lacks(a, ',') && Lacks(b, ',') && Lacks(c, ',') && key == a + "," + b + "," + c;
    var rest := key + "," + Taken(n);
    BrdaHit(rest);
    TakenReads(n);
    TakenInt(n);
    hide *;
    FourthReads(a, b, c, Taken(n));
    assert rest == a + "," + b + "," + c + "," + Taken(n);
    BrdaSeen(Text(Field("BRDA", rest)), n > 0);
  }

  lemma BrdaHit(rest: string)
    ensures S.RowOf(Text(Field("BRDA", rest))).Brda?
    ensures S.RowOf(Text(Field("BRDA", rest))).hit == (S.OrZero(S.LeadingInt(S.Fourth(rest))) > 0)
  {
    var line := Text(Field("BRDA", rest));
    assert line[..5] == "BRDA:" && line[5..] == rest;
    assert line[0] == 'B';
    hide S.LeadingInt, UpTo, After, S.OrZero, S.Fourth;
  }

  lemma BrdaSeen(line: string, hit: bool)
    requires S.RowOf(line).Brda? && S.RowOf(line).hit == hit
    ensures S.Seen(S.Tally(0, 0, 0, 0), line) == S.Tally(0, 0, 1, if hit then 1 else 0)
  {
    hide S.RowOf;
  }

  lemma TakenInt(n: nat)
    ensures S.OrZero(S.LeadingInt(Taken(n))) == n
  {
    DecReads(n);
    DigitsAll(Dec(n));
    var dash := "-";
    assert !IsDigit(dash[0]);
  }

  lemma DasStep(lineHits: map<Num, nat>, lns: seq<Num>)
    requires lns != [] && forall l :: l in lns ==> l in lineHits
    ensures lns[0] in lineHits && forall l :: l in lns[1..] ==> l in lineHits
    ensures DaFields(lineHits, lns)
      == [Field("DA", Show(lns[0]) + "," + Dec(lineHits[lns[0]]))] + DaFields(lineHits, lns[1..])
    ensures HitEntries(lineHits, lns) == (if lineHits[lns[0]] > 0 then 1 else 0) + HitEntries(lineHits, lns[1..])
  {
    hide Show, Dec;
  }

  lemma NothingCounted(lineHits: map<Num, nat>, branches: map<string, nat>)
    ensures DaFields(lineHits, []) == [] && HitEntries(lineHits, []) == 0
    ensures BrdaFields(branches, []) == [] && HitEntries(branches, []) == 0
    ensures S.TallyOf(Lines([])) == S.Tally(0, 0, 0, 0)
  {
  }

  lemma {:induction false} DasCount(lineHits: map<Num, nat>, lns: seq<Num>)
    requires forall l :: l in lns ==> l in lineHits
    ensures S.TallyOf(Lines(DaFields(lineHits, lns))) == S.Tally(|lns|, HitEntries(lineHits, lns), 0, 0)
    decreases |lns|
  {
    hide S.TallyOf, Lines, DaFields, HitEntries, Show, Dec, S.Seen, Text;
    if lns == [] {
      NothingCounted(lineHits, map[]);
    } else {
      DasStep(lineHits, lns);
      DaCounts(lns[0], lineHits[lns[0]]);
      RowsTally(Field("DA", Show(lns[0]) + "," + Dec(lineHits[lns[0]])), DaFields(lineHits, lns[1..]));
      DasCount(lineHits, lns[1..]);
    }
  }

  lemma BrdasStep(branches: map<string, nat>, keys: seq<string>)
    requires keys != [] && forall k :: k in keys ==> k in branches && ThreeParts(k)
    ensures keys[0] in branches && ThreeParts(keys[0]) && forall k :: k in keys[1..] ==> k in branches && ThreeParts(k)
    ensures BrdaFields(branches, keys)
      == [Field("BRDA", keys[0] + "," + Taken(branches[keys[0]]))] + BrdaFields(branches, keys[1..])
    ensures HitEntries(branches, keys) == (if branches[keys[0]] > 0 then 1 else 0) + HitEntries(branches, keys[1..])
  {
    hide Taken, ThreeParts;
  }

  lemma {:induction false} BrdasCount(branches: map<string, nat>, keys: seq<string>)
    requires forall k :: k in keys ==> k in branches && ThreeParts(k)
    ensures S.TallyOf(Lines(BrdaFields(branches, keys))) == S.Tally(0, 0, |keys|, HitEntries(branches, keys))
    decreases |keys|
  {
    hide S.TallyOf, Lines, BrdaFields, HitEntries, Taken, S.Seen, Text, ThreeParts;
    if keys == [] {
      NothingCounted(map[], branches);
    } else {
      BrdasStep(branches, keys);
      BrdaCounts(keys[0], branches[keys[0]]);
      RowsTally(Field("BRDA", keys[0] + "," + Taken(branches[keys[0]])), BrdaFields(branches, keys[1..]));
      BrdasCount(branches, keys[1..]);
    }
  }

  predicate Tagged(fs: seq<Field>, tags: set<string>) {
    forall i :: 0 <= i < |fs| ==> fs[i].tag in tags
  }

  /** The tag of a row that counts no line and no branch. */
  predicate OtherTag(t: string) {
    IsTag(t) && t != "DA" && t != "BRDA"
  }

  lemma OtherCounts(f: Field)
    requires OtherTag(f.tag)
    ensures S.Seen(S.Tally(0, 0, 0, 0), Text(f)) == S.Tally(0, 0, 0, 0)
  {
    RowOfOther(f);
    hide S.RowOf, IsTag, Text;
  }

  predicate OtherTags(tags: set<string>) {
    forall t :: t in tags ==> OtherTag(t)
  }

  lemma HeadTags()
    ensures OtherTag("TN") && OtherTag("SF") && OtherTag("FN") && OtherTag("FNDA")
  {
  }

  lemma TotalTags()
    ensures OtherTag("FNF") && OtherTag("FNH") && OtherTag("BRF") && OtherTag("BRH") && OtherTag("LF") && OtherTag("LH")
  {
  }

  lemma OtherTagsAre()
    ensures OtherTags({"TN", "SF"}) && OtherTags({"FN"}) && OtherTags({"FNDA"})
    ensures OtherTags({"FNF", "FNH"}) && OtherTags({"BRF", "BRH"}) && OtherTags({"LF", "LH"})
  {
    HeadTags();
    TotalTags();
    hide OtherTag;
  }

  lemma {:induction false} OthersCount(fs: seq<Field>, tags: set<string>)
    requires Tagged(fs, tags) && OtherTags(tags)
    ensures S.TallyOf(Lines(fs)) == S.Tally(0, 0, 0, 0)
    decreases |fs|
  {
    if fs == [] {
      NoRows();
    } else {
      assert fs[0].tag in tags && Tagged(fs[1..], tags) && fs == [fs[0]] + fs[1..];
      hide IsTag;
      OtherCounts(fs[0]);
      RowsTally(fs[0], fs[1..]);
      hide Text, Lines, S.TallyOf, S.Seen, Tagged;
      OthersCount(fs[1..], tags);
    }
  }

  // ---------------------------------------------------------- a printed record

  lemma {:induction false} FnsTagged(fns: map<string, Fn>, names: seq<string>)
    requires forall n :: n in names ==> n in fns
    ensures Tagged(FnFields(fns, names), {"FN"}) && Tagged(FndaFields(fns, names), {"FNDA"})
    decreases |names|
  {
    if names != [] {
      FnsTagged(fns, names[1..]);
      var info := fns[names[0]];
      assert FndaFields(fns, names) == [Field("FNDA", Dec(info.hits) + "," + names[0])] + FndaFields(fns, names[1..]);
      var row := if HasLine(info) then [Field("FN", Dec(info.line.value) + "," + names[0])] else [];
      assert FnFields(fns, names) == row + FnFields(fns, names[1..]);
      hide FnFields, FndaFields, Dec, HasLine;
    }
  }

  lemma {:induction false} DasTagged(lineHits: map<Num, nat>, lns: seq<Num>)
    requires forall l :: l in lns ==> l in lineHits
    ensures Tagged(DaFields(lineHits, lns), {"DA"})
    decreases |lns|
  {
    hide Show, Dec;
    if lns != [] { DasTagged(lineHits, lns[1..]); }
  }

  lemma {:induction false} BrdasTagged(branches: map<string, nat>, keys: seq<string>)
    requires forall k :: k in keys ==> k in branches
    ensures Tagged(BrdaFields(branches, keys), {"BRDA"})
    decreases |keys|
  {
    hide Taken;
    if keys != [] { BrdasTagged(branches, keys[1..]); }
  }

  predicate QuietTag(t: string) {
    IsTag(t) && t != "LF" && t != "LH" && t != "BRF" && t != "BRH"
  }

  /** No row states a total of lines or branches. */
  predicate QuietRows(fs: seq<Field>) {
    forall i :: 0 <= i < |fs| ==> QuietTag(fs[i].tag)
  }

  lemma QuietTags()
    ensures QuietTag("TN") && QuietTag("SF") && QuietTag("FN") && QuietTag("FNDA") && QuietTag("FNF") && QuietTag("FNH")
    ensures QuietTag("BRDA") && QuietTag("DA")
  {
  }

  lemma TaggedQuiet(fs: seq<Field>, tag: string)
    requires Tagged(fs, {tag}) && QuietTag(tag)
    ensures QuietRows(fs)
  {
    hide QuietTag;
  }

  lemma QuietConcat(a: seq<Field>, b: seq<Field>)
    requires QuietRows(a) && QuietRows(b)
    ensures QuietRows(a + b)
  {
    hide QuietTag;
  }

  lemma QuietRow(f: Field, head: string)
    requires QuietTag(f.tag) && OldTotal(head)
    ensures !Answers(Text(f), head)
  {
    TagShape(f.tag);
    HeadLacks(head);
    hide Text, Lacks, StartsWith, IsTag;
    if StartsWith(Text(f), head) { HeadTag(f, head); }
  }

  lemma HeadLacks(head: string)
    requires OldTotal(head)
    ensures |head| >= 3 && head[|head| - 1] == ':' && Lacks(head[..|head| - 1], ':')
    ensures var t := head[..|head| - 1]; t == "LF" || t == "LH" || t == "BRF" || t == "BRH"
  {
    assert "LF:"[..2] == "LF" && "LH:"[..2] == "LH" && "BRF:"[..3] == "BRF" && "BRH:"[..3] == "BRH";
  }

  lemma {:induction false} QuietSilent(fs: seq<Field>, head: string)
    requires QuietRows(fs) && OldTotal(head)
    ensures Silent(Lines(fs), head)
    decreases |fs|
  {
    hide QuietTag, Text, OldTotal, Answers;
    if fs != [] {
      QuietRow(fs[0], head);
      QuietSilent(fs[1..], head);
    }
  }

  lemma {:induction false} EnumSize<K(!new)>(order: seq<K>, keys: set<K>)
    requires Enumerates(order, keys)
    ensures |order| == |keys|
    decreases |order|
  {
    if order == [] {
      assert keys == {};
    } else {
      var n := |order| - 1;
      var last := order[n];
      assert order == order[..n] + [last];
      EnumSize(order[..n], keys - {last});
    }
  }

  /** Everything printed before the branch totals. */
  function Early(sf: string, rec: Record, o: Order): seq<Field>
    requires Within(rec, o)
  {
    [Field("TN", Title(rec)), Field("SF", sf)]
    + (FnFields(rec.functions, o.names)
      + (FndaFields(rec.functions, o.names) + (P.Totals(rec, o) + BrdaFields(rec.branches, o.keys))))
  }

  lemma EarlyIs(sf: string, rec: Record, o: Order)
    requires Within(rec, o)
    ensures var c := P.Totals(rec, o);
      |c| == 2 && c == [c[0], c[1]] && c[0].tag == "FNF" && c[1].tag == "FNH"
    ensures Early(sf, rec, o)
         == [Field("TN", Title(rec)), Field("SF", sf)]
            + (FnFields(rec.functions, o.names)
              + (FndaFields(rec.functions, o.names) + (P.Totals(rec, o) + BrdaFields(rec.branches, o.keys))))
  {
    hide FnFields, FndaFields, BrdaFields, Title, Dec;
  }

  lemma TwoQuiet(f: Field, g: Field)
    requires QuietTag(f.tag) && QuietTag(g.tag)
    ensures QuietRows([f, g])
  {
    hide QuietTag;
  }

  lemma EarlyQuiet(sf: string, rec: Record, o: Order)
    requires Within(rec, o)
    ensures QuietRows(Early(sf, rec, o))
  {
    var a, b := FnFields(rec.functions, o.names), FndaFields(rec.functions, o.names);
    var c, d := P.Totals(rec, o), BrdaFields(rec.branches, o.keys);
    EarlyIs(sf, rec, o);
    hide *;
    QuietTags();
    FnsTagged(rec.functions, o.names);
    BrdasTagged(rec.branches, o.keys);
    TaggedQuiet(a, "FN");
    TaggedQuiet(b, "FNDA");
    TaggedQuiet(d, "BRDA");
    TwoQuiet(c[0], c[1]);
    TwoQuiet(Field("TN", Title(rec)), Field("SF", sf));
    QuietConcat(c, d);
    QuietConcat(b, c + d);
    QuietConcat(a, b + (c + d));
    QuietConcat([Field("TN", Title(rec)), Field("SF", sf)], a + (b + (c + d)));
  }

  lemma TwoTagged(f: Field, g: Field)
    ensures Tagged([f, g], {f.tag, g.tag})
  {
  }

  lemma Regroup<T>(a: seq<T>, b: seq<T>, c: seq<T>, d: seq<T>, rest: seq<T>)
    ensures a + (b + (c + (d + rest))) == (a + (b + (c + d))) + rest
  {
  }

  lemma LayoutFields(sf: string, rec: Record, o: Order)
    requires Within(rec, o)
    ensures [Field("TN", Title(rec)), Field("SF", sf)] + Body(rec, o)
         == Early(sf, rec, o) + (BranchTotals(rec, o) + (DaFields(rec.lineHits, o.lns) + LineTotals(rec, o)))
  {
    var head := [Field("TN", Title(rec)), Field("SF", sf)];
    var a, b := FnFields(rec.functions, o.names), FndaFields(rec.functions, o.names);
    var c, d := P.Totals(rec, o), BrdaFields(rec.branches, o.keys);
    var rest := BranchTotals(rec, o) + (DaFields(rec.lineHits, o.lns) + LineTotals(rec, o));
    hide FnFields, FndaFields, P.Totals, BrdaFields, BranchTotals, DaFields, LineTotals, Title;
    Regroup(a, b, c, d, rest);
    assert head + ((a + (b + (c + d))) + rest) == (head + (a + (b + (c + d)))) + rest;
  }

  /** A printed record: the early rows, the branch totals, the lines, their totals, the end. */
  lemma Layout(sf: string, rec: Record, o: Order)
    requires Within(rec, o)
    ensures RecordLines(sf, rec, o)
         == Lines(Early(sf, rec, o)) + (Lines(BranchTotals(rec, o))
           + (Lines(DaFields(rec.lineHits, o.lns)) + (Lines(LineTotals(rec, o)) + [END])))
  {
    var e, f, g := BranchTotals(rec, o), DaFields(rec.lineHits, o.lns), LineTotals(rec, o);
    RecordIs(sf, rec, o);
    hide *;
    LayoutFields(sf, rec, o);
    LinesConcat(Early(sf, rec, o), e + (f + g));
    LinesConcat(e, f + g);
    LinesConcat(f, g);
    Regroup(Lines(Early(sf, rec, o)), Lines(e), Lines(f), Lines(g), [END]);
  }

  lemma RecordIs(sf: string, rec: Record, o: Order)
    requires Within(rec, o)
    ensures RecordLines(sf, rec, o) == Lines([Field("TN", Title(rec)), Field("SF", sf)] + Body(rec, o)) + [END]
  {
    hide Lines, Body, Title;
  }

  lemma EarlyCount(sf: string, rec: Record, o: Order)
    requires Within(rec, o) && Prints(rec)
    ensures S.TallyOf(Lines(Early(sf, rec, o))) == S.Tally(0, 0, |o.keys|, HitEntries(rec.branches, o.keys))
  {
    var head := [Field("TN", Title(rec)), Field("SF", sf)];
    var a, b := FnFields(rec.functions, o.names), FndaFields(rec.functions, o.names);
    var c, d := P.Totals(rec, o), BrdaFields(rec.branches, o.keys);
    assert Early(sf, rec, o) == head + (a + (b + (c + d)));
    assert c == [Field("FNF", c[0].rest), Field("FNH", c[1].rest)];
    FnsTagged(rec.functions, o.names);
    TwoTagged(head[0], head[1]);
    TwoTagged(c[0], c[1]);
    assert forall k :: k in o.keys ==> k in rec.branches && ThreeParts(k);
    hide *;
    OtherTagsAre();
    OthersCount(head, {"TN", "SF"});
    OthersCount(a, {"FN"});
    OthersCount(b, {"FNDA"});
    OthersCount(c, {"FNF", "FNH"});
    BrdasCount(rec.branches, o.keys);
    SumTally(head, a + (b + (c + d)));
    SumTally(a, b + (c + d));
    SumTally(b, c + d);
    SumTally(c, d);
    PlusNothing(S.TallyOf(Lines(d)));
  }

  lemma SumTally(a: seq<Field>, b: seq<Field>)
    ensures S.TallyOf(Lines(a + b)) == Plus(S.TallyOf(Lines(a)), S.TallyOf(Lines(b)))
  {
    hide *;
    LinesConcat(a, b);
    TallySum(Lines(a), Lines(b));
  }

  lemma PlusNothing(t: S.Tally)
    ensures Plus(S.Tally(0, 0, 0, 0), t) == t && Plus(t, S.Tally(0, 0, 0, 0)) == t
  {
  }

  lemma WithinGives(rec: Record, o: Order)
    requires Within(rec, o)
    ensures (forall k :: k in o.keys ==> k in rec.branches) && (forall l :: l in o.lns ==> l in rec.lineHits)
  {
  }

  lemma LateTagged(rec: Record, o: Order)
    requires Within(rec, o)
    ensures Tagged(BranchTotals(rec, o), {"BRF", "BRH"}) && Tagged(LineTotals(rec, o), {"LF", "LH"})
  {
    var e, g := BranchTotals(rec, o), LineTotals(rec, o);
    hide Dec, Tagged;
    TwoTagged(e[0], e[1]);
    TwoTagged(g[0], g[1]);
  }

  lemma SumLines(a: seq<Field>, rest: seq<string>)
    ensures S.TallyOf(Lines(a) + rest) == Plus(S.TallyOf(Lines(a)), S.TallyOf(rest))
  {
    hide *;
    TallySum(Lines(a), rest);
  }

  lemma LateTally(rec: Record, o: Order)
    requires Within(rec, o)
    ensures S.TallyOf(Lines(BranchTotals(rec, o))
      + (Lines(DaFields(rec.lineHits, o.lns)) + (Lines(LineTotals(rec, o)) + [END])))
         == S.Tally(|o.lns|, HitEntries(rec.lineHits, o.lns), 0, 0)
  {
    hide *;
    WithinGives(rec, o);
    var e, f, g := BranchTotals(rec, o), DaFields(rec.lineHits, o.lns), LineTotals(rec, o);
    LateTagged(rec, o);
    EndCounts();
    OtherTagsAre();
    OthersCount(e, {"BRF", "BRH"});
    DasCount(rec.lineHits, o.lns);
    OthersCount(g, {"LF", "LH"});
    LateSum(e, f, g);
  }

  lemma LateSum(e: seq<Field>, f: seq<Field>, g: seq<Field>)
    requires S.TallyOf(Lines(e)) == S.Tally(0, 0, 0, 0) && S.TallyOf(Lines(g)) == S.Tally(0, 0, 0, 0)
    requires S.TallyOf([END]) == S.Tally(0, 0, 0, 0)
    ensures S.TallyOf(Lines(e) + (Lines(f) + (Lines(g) + [END]))) == S.TallyOf(Lines(f))
  {
    hide *;
    SumLines(e, Lines(f) + (Lines(g) + [END]));
    SumLines(f, Lines(g) + [END]);
    SumLines(g, [END]);
    PlusNothing(S.Tally(0, 0, 0, 0));
    PlusNothing(S.TallyOf(Lines(f)));
  }

  /** What the rows of a printed record add up to. */
  lemma PrintedTally(sf: string, rec: Record, o: Order)
    requires Within(rec, o) && Prints(rec)
    ensures S.TallyOf(RecordLines(sf, rec, o))
         == S.Tally(|o.lns|, HitEntries(rec.lineHits, o.lns), |o.keys|, HitEntries(rec.branches, o.keys))
  {
    hide *;
    WithinGives(rec, o);
    Layout(sf, rec, o);
    EarlyCount(sf, rec, o);
    LateTally(rec, o);
    SumLines(Early(sf, rec, o),
      Lines(BranchTotals(rec, o)) + (Lines(DaFields(rec.lineHits, o.lns)) + (Lines(LineTotals(rec, o)) + [END])));
    Halves(|o.lns|, HitEntries(rec.lineHits, o.lns), |o.keys|, HitEntries(rec.branches, o.keys));
  }

  lemma EndCounts()
    ensures S.TallyOf([END]) == S.Tally(0, 0, 0, 0)
  {
    var word := END;
    OneRow(word);
    assert word[0] == 'e';
    HeadChar(word, "DA:", 0);
    HeadChar(word, "BRDA:", 0);
    HeadChar(word, "LF:", 0);
    HeadChar(word, "LH:", 0);
    HeadChar(word, "BRF:", 0);
    HeadChar(word, "BRH:", 0);
    hide StartsWith, S.LeadingInt, UpTo, After, S.Fourth, S.OrZero, S.TallyOf;
  }

  lemma Halves(a: nat, b: nat, c: nat, d: nat)
    ensures Plus(S.Tally(0, 0, c, d), S.Tally(a, b, 0, 0)) == S.Tally(a, b, c, d)
  {
  }

  lemma HeadStarts(head: string, rest: string)
    ensures StartsWith(head + rest, head)
  {
    assert (head + rest)[..|head|] == head;
  }

  lemma Rebracket(x: seq<string>, f: Field, g: Field, rest: seq<string>)
    ensures x + (Lines([f, g]) + rest) == x + ([Text(f)] + ([Text(g)] + rest))
  {
    TwoTexts(f, g);
    hide *;
    assert [Text(f), Text(g)] + rest == [Text(f)] + ([Text(g)] + rest);
  }

  /** A total right behind rows that state none. */
  lemma GrabFirst(a: seq<Field>, head: string, line: string, m: nat, rest: seq<string>)
    requires QuietRows(a) && OldTotal(head) && line == head + Dec(m)
    ensures Grab(Lines(a) + ([line] + rest), head) == m
  {
    hide *;
    QuietSilent(a, head);
    DecAnswers(head, m);
    GrabBehind(Lines(a), [line] + rest, head);
    GrabStep(line, rest, head);
  }

  /** A total one row further on. */
  lemma GrabSecond(a: seq<Field>, head: string, first: string, line: string, n: nat, rest: seq<string>)
    requires QuietRows(a) && OldTotal(head) && !Answers(first, head) && line == head + Dec(n)
    ensures Grab(Lines(a) + ([first] + ([line] + rest)), head) == n
  {
    hide *;
    QuietSilent(a, head);
    DecAnswers(head, n);
    GrabBehind(Lines(a), [first] + ([line] + rest), head);
    GrabStep(first, [line] + rest, head);
    GrabStep(line, rest, head);
  }

  /** Two totals behind rows that state none. */
  lemma PrintedTwo(a: seq<Field>, fHead: string, gHead: string, f: Field, g: Field, m: nat, n: nat, rest: seq<string>)
    requires QuietRows(a) && OldTotal(fHead) && OldTotal(gHead) && |fHead| == |gHead|
      && fHead[|fHead| - 2] != gHead[|fHead| - 2]
    requires Text(f) == fHead + Dec(m) && Text(g) == gHead + Dec(n)
    ensures var r := Lines(a) + (Lines([f, g]) + rest); Grab(r, fHead) == m && Grab(r, gHead) == n
  {
    hide *;
    HeadLacks(fHead);
    HeadStarts(fHead, Dec(m));
    OtherHead(Text(f), fHead, gHead, |fHead| - 2);
    Rebracket(Lines(a), f, g, rest);
    GrabFirst(a, fHead, Text(f), m, [Text(g)] + rest);
    GrabSecond(a, gHead, Text(f), Text(g), n, rest);
  }

  /** The line totals are looked for behind the branch totals. */
  lemma BehindTwo(a: seq<Field>, brf: Field, brh: Field, m: nat, n: nat, rest: seq<string>)
    requires QuietRows(a) && Text(brf) == "BRF:" + Dec(m) && Text(brh) == "BRH:" + Dec(n)
    ensures var r := Lines(a) + (Lines([brf, brh]) + rest);
      Grab(r, "LF:") == Grab(rest, "LF:") && Grab(r, "LH:") == Grab(rest, "LH:")
  {
    BehindOne(a, brf, brh, rest, "LF:");
    BehindOne(a, brf, brh, rest, "LH:");
  }

  lemma BehindOne(a: seq<Field>, f: Field, g: Field, rest: seq<string>, head: string)
    requires QuietRows(a) && OldTotal(head) && Text(f) != "" && Text(f)[0] != head[0] && Text(g) != ""
      && Text(g)[0] != head[0]
    ensures Grab(Lines(a) + (Lines([f, g]) + rest), head) == Grab(rest, head)
  {
    hide *;
    HeadLacks(head);
    NoAnswer(Text(f), head);
    NoAnswer(Text(g), head);
    Rebracket(Lines(a), f, g, rest);
    QuietSilent(a, head);
    var x, y := Text(f), Text(g);
    GrabBehind(Lines(a), [x] + ([y] + rest), head);
    GrabStep(x, [y] + rest, head);
    GrabStep(y, rest, head);
  }

  lemma NoAnswer(line: string, head: string)
    requires line != "" && head != "" && line[0] != head[0]
    ensures !Answers(line, head)
  {
    HeadChar(line, head, 0);
    hide StartsWith;
  }

  lemma LateRows(rec: Record, o: Order)
    requires Within(rec, o)
    ensures BranchTotals(rec, o)
      == [Field("BRF", Dec(|rec.branches|)), Field("BRH", Dec(HitEntries(rec.branches, o.keys)))]
    ensures LineTotals(rec, o) == [Field("LF", Dec(|rec.lineHits|)), Field("LH", Dec(HitEntries(rec.lineHits, o.lns)))]
  {
    hide Dec, HitEntries;
  }

  lemma TotalTexts(brf: nat, brh: nat, lf: nat, lh: nat)
    ensures Text(Field("BRF", Dec(brf))) == "BRF:" + Dec(brf) && Text(Field("BRH", Dec(brh))) == "BRH:" + Dec(brh)
    ensures Text(Field("LF", Dec(lf))) == "LF:" + Dec(lf) && Text(Field("LH", Dec(lh))) == "LH:" + Dec(lh)
    ensures OldTotal("LF:") && OldTotal("LH:") && OldTotal("BRF:") && OldTotal("BRH:")
  {
    hide Dec;
    assert "BRF" + ":" == "BRF:" && "BRH" + ":" == "BRH:" && "LF" + ":" == "LF:" && "LH" + ":" == "LH:";
  }

  lemma DasQuiet(rec: Record, o: Order)
    requires Within(rec, o)
    ensures QuietRows(DaFields(rec.lineHits, o.lns))
  {
    hide *;
    WithinGives(rec, o);
    QuietTags();
    DasTagged(rec.lineHits, o.lns);
    TaggedQuiet(DaFields(rec.lineHits, o.lns), "DA");
  }

  /** The totals a printed record states. */
  lemma PrintedTotals(sf: string, rec: Record, o: Order)
    requires Within(rec, o)
    ensures var r := RecordLines(sf, rec, o);
      && Grab(r, "BRF:") == |rec.branches| && Grab(r, "BRH:") == HitEntries(rec.branches, o.keys)
      && Grab(r, "LF:") == |rec.lineHits| && Grab(r, "LH:") == HitEntries(rec.lineHits, o.lns)
  {
    hide *;
    WithinGives(rec, o);
    LateRows(rec, o);
    Layout(sf, rec, o);
    EarlyQuiet(sf, rec, o);
    DasQuiet(rec, o);
    TotalsOfLayout(Early(sf, rec, o), DaFields(rec.lineHits, o.lns), |rec.branches|, HitEntries(rec.branches, o.keys),
                   |rec.lineHits|, HitEntries(rec.lineHits, o.lns));
  }

  lemma TotalsOfLayout(a: seq<Field>, f: seq<Field>, brf: nat, brh: nat, lf: nat, lh: nat)
    requires QuietRows(a) && QuietRows(f)
    ensures var r := Lines(a) + (Lines([Field("BRF", Dec(brf)), Field("BRH", Dec(brh))])
                     + (Lines(f) + (Lines([Field("LF", Dec(lf)), Field("LH", Dec(lh))]) + [END])));
      && Grab(r, "BRF:") == brf && Grab(r, "BRH:") == brh && Grab(r, "LF:") == lf && Grab(r, "LH:") == lh
  {
    TotalTexts(brf, brh, lf, lh);
    hide *;
    var late := Lines(f) + (Lines([Field("LF", Dec(lf)), Field("LH", Dec(lh))]) + [END]);
    PrintedTwo(a, "BRF:", "BRH:", Field("BRF", Dec(brf)), Field("BRH", Dec(brh)), brf, brh, late);
    BehindTwo(a, Field("BRF", Dec(brf)), Field("BRH", Dec(brh)), brf, brh, late);
    PrintedTwo(f, "LF:", "LH:", Field("LF", Dec(lf)), Field("LH", Dec(lh)), lf, lh, [END]);
  }

  /** A printed record counts itself right. */
  lemma PrintedHonest(sf: string, rec: Record, o: Order)
    requires Within(rec, o) && Covers(rec, o) && Prints(rec)
    ensures Honest(RecordLines(sf, rec, o))
  {
    EnumSize(o.lns, rec.lineHits.Keys);
    EnumSize(o.keys, rec.branches.Keys);
    PrintedTally(sf, rec, o);
    PrintedTotals(sf, rec, o);
    hide RecordLines, Grab, S.TallyOf, Covers, Prints;
  }

  // ------------------------------------------------------------ a printed file

  function RawOf(sf: string, rec: Record, o: Order): Raw
    requires Within(rec, o)
  {
    Raw([Field("TN", Title(rec))], sf, Body(rec, o))
  }

  lemma RawFits(sf: string, rec: Record, o: Order)
    requires Within(rec, o) && Prints(rec) && Clean(sf)
    ensures Fit(RawOf(sf, rec, o)) && Lines(LcovStrip.Fields(RawOf(sf, rec, o))) + [END] == RecordLines(sf, rec, o)
  {
    var r := RawOf(sf, rec, o);
    BodyReadable(rec, o);
    BodyAgreed(rec, o);
    RecordIs(sf, rec, o);
    assert Readable(r.lead);
    hide Body, Lines, RecordLines, Readable, AllAgreed, Prints, Clean, Within;
    assert LcovStrip.Fields(r) == [Field("TN", Title(rec)), Field("SF", sf)] + Body(rec, o);
  }

  lemma {:induction false} PiecesHonest(records: Lcov.Records, files: seq<string>, orders: map<string, Order>,
      norm: string -> string)
    requires CoversAll(records, files, orders) && Printable(records, norm)
    ensures AllHonest(Pieces(FileLines(records, files, orders)))
    decreases |files|
  {
    if files == [] {
      NothingCut();
    } else {
      var sf, rest := files[0], files[1..];
      assert sf in files && forall f :: f in rest ==> f in files;
      var rec, o := records[sf], orders[sf];
      assert FileLines(records, files, orders) == RecordLines(sf, rec, o) + FileLines(records, rest, orders)
             && CoversAll(records, rest, orders) && Within(rec, o) && Covers(rec, o) && Prints(rec) && Clean(sf)
        by { hide RecordLines, Prints, Covers, Within, Clean; }
      hide *;
      PiecesHonest(records, rest, orders, norm);
      RawFits(sf, rec, o);
      PrintedHonest(sf, rec, o);
      FirstPiece(RawOf(sf, rec, o), FileLines(records, rest, orders));
      FirstHonest(Lines(LcovStrip.Fields(RawOf(sf, rec, o))), Pieces(FileLines(records, rest, orders)));
      Behind(Lines(LcovStrip.Fields(RawOf(sf, rec, o))), FileLines(records, rest, orders));
    }
  }

  lemma Behind(x: seq<string>, rest: seq<string>)
    ensures (x + [END]) + rest == x + ([END] + rest)
  {
  }

  lemma FirstHonest(piece: seq<string>, rest: seq<seq<string>>)
    requires Honest(piece + [END]) && AllHonest(rest)
    ensures AllHonest([piece] + rest)
  {
    hide Honest, Mentions;
  }

  lemma NothingCut()
    ensures AllHonest(Pieces([]))
  {
    assert Pieces([]) == [[]];
  }

  /** The report on a file the merger printed never worsens, whatever the sources say. */
  lemma PrintedReportNeverFalls(records: Lcov.Records, files: seq<string>, orders: map<string, Order>,
                                norm: string -> string, source: string -> set<nat>)
    requires CoversAll(records, files, orders) && Printable(records, norm)
    ensures var pieces := Pieces(FileLines(records, files, orders));
      var b, a := CountedAll(NO_STATS, pieces), CountedAfter(NO_STATS, pieces, source);
      NoWorse(b, a) && b.linesHit * a.lines <= a.linesHit * b.lines
  {
    hide *;
    PiecesHonest(records, files, orders, norm);
    ReportNeverFalls(FileLines(records, files, orders), source);
  }

  lemma MisstatedRows()
    ensures Show(Some(1)) == "1" && Dec(0) == "0" && Dec(1) == "1"
    ensures "LF:" + Dec(1) == "LF:1" && "LH:" + Dec(1) == "LH:1"
  {
  }

  lemma MisstatedTally(sf: Field, da: Field, lf: Field, lh: Field)
    requires sf.tag == "SF" && lf.tag == "LF" && lh.tag == "LH" && da == Field("DA", Show(Some(1)) + "," + Dec(0))
    ensures S.TallyOf(Lines([sf, da]) + (Lines([lf, lh]) + [END])) == S.Tally(1, 0, 0, 0)
  {
    hide *;
    HeadTags();
    TotalTags();
    OtherCounts(sf);
    DaCounts(Some(1), 0);
    OtherCounts(lf);
    OtherCounts(lh);
    EndCounts();
    assert [sf, da] == [sf] + ([da] + []) && [lf, lh] == [lf] + ([lh] + []);
    NothingCounted(map[], map[]);
    RowsTally(sf, [da] + []);
    RowsTally(da, []);
    RowsTally(lf, [lh] + []);
    RowsTally(lh, []);
    SumLines([sf, da], Lines([lf, lh]) + [END]);
    SumLines([lf, lh], [END]);
    PlusNothing(S.Tally(0, 0, 0, 0));
    PlusNothing(S.Tally(1, 0, 0, 0));
  }

  lemma MisstatedGrabs(a: seq<Field>, lf: Field, lh: Field)
    requires QuietRows(a) && Text(lf) == "LF:" + Dec(1) && Text(lh) == "LH:" + Dec(1)
    ensures var block := Lines(a) + (Lines([lf, lh]) + [END]); Grab(block, "LF:") == 1 && Grab(block, "LH:") == 1
  {
    LineHeads();
    hide *;
    PrintedTwo(a, "LF:", "LH:", lf, lh, 1, 1, [END]);
  }

  lemma LineHeads()
    ensures OldTotal("LF:") && OldTotal("LH:") && "LF:"[1] != "LH:"[1]
  {
  }

  lemma MisstatedLines(sf: Field, da: Field, lf: Field, lh: Field)
    requires sf == Field("SF", "x") && da == Field("DA", "1,0") && lf == Field("LF", "1") && lh == Field("LH", "1")
    ensures Lines([sf, da]) + (Lines([lf, lh]) + [END]) == ["SF:x", "DA:1,0", "LF:1", "LH:1", END]
    ensures Text(lf) == "LF:1" && Text(lh) == "LH:1"
  {
    assert Text(sf) == "SF:x" && Text(da) == "DA:1,0" && Text(lf) == "LF:1" && Text(lh) == "LH:1";
    hide Text;
    TwoTexts(sf, da);
    TwoTexts(lf, lh);
  }

  /** A record that states a hit it has no row for: its reported ratio falls, whatever unused line is scrubbed. */
  lemma MisstatedFalls()
    ensures var block := ["SF:x", "DA:1,0", "LF:1", "LH:1", END];
      !Modest(block) && forall n: nat :: n > LastLine(block) ==> RatioFalls(block, {n})
  {
    var sf, da, lf, lh := Field("SF", "x"), Field("DA", "1,0"), Field("LF", "1"), Field("LH", "1");
    MisstatedRows();
    assert "1" + "," + "0" == "1,0";
    MisstatedLines(sf, da, lf, lh);
    var block := ["SF:x", "DA:1,0", "LF:1", "LH:1", END];
    hide S.TallyOf, Grab, Show, Dec, Lines, Text, RatioFalls, LastLine;
    MisstatedTally(sf, da, lf, lh);
    QuietTags();
    TwoQuiet(sf, da);
    MisstatedGrabs([sf, da], lf, lh);
    forall n: nat | n > LastLine(block) ensures RatioFalls(block, {n}) {
      BoastfulFalls(block, n);
    }
  }
}
