/**
 * One line of CSV: the index-jumping parser against a recursive reading, and its inverse,
 * the printer of section 2 of RFC 4180.
 */
module CsvLine {

  // ------------------------------------------------------------------- reading

  /** The cells of the rest of a line, given the cell begun and whether a quote is open. */
  function Cells(s: string, buf: string, inQuotes: bool): (cells: seq<string>)
    ensures cells != []
    decreases |s|
  {
    if s == "" then [buf]
    else if inQuotes then
      if s[0] == '"' then
        if |s| > 1 && s[1] == '"' then Cells(s[2..], buf + ['"'], true) else Cells(s[1..], buf, false)
      else Cells(s[1..], buf + [s[0]], true)
    else if s[0] == '"' then Cells(s[1..], buf, true)
    else if s[0] == ',' then [buf] + Cells(s[1..], "", false)
    else Cells(s[1..], buf + [s[0]], false)
  }

  /** `parseCsvLine`: the loop may step over a second quote. */
  method ParseCsvLine(line: string) returns (cells: seq<string>)
    ensures cells == Cells(line, "", false)
  {
    cells := [];
    var buf, inQuotes := "", false;
    var i := 0;
    assert line[0..] == line;
    while i < |line|
      invariant 0 <= i <= |line|
      invariant cells + Cells(line[i..], buf, inQuotes) == Cells(line, "", false)
    {
      var ch := line[i];
      assert line[i..][0] == ch && line[i..][1..] == line[i + 1..];
      if i + 1 < |line| { assert line[i..][1] == line[i + 1] && line[i..][2..] == line[i + 2..]; }
      if inQuotes {
        if ch == '"' && i + 1 < |line| && line[i + 1] == '"' {
          buf := buf + ['"'];
          i := i + 1;
        } else if ch == '"' {
          inQuotes := false;
        } else {
          buf := buf + [ch];
        }
      } else {
        if ch == '"' {
          inQuotes := true;
        } else if ch == ',' {
          cells := cells + [buf];
          buf := "";
        } else {
          buf := buf + [ch];
        }
      }
      i := i + 1;
    }
    cells := cells + [buf];
  }

  // ------------------------------------------------------------------ printing

  predicate NeedsQuotes(cell: string) {
    '"' in cell || ',' in cell
  }

  function Doubled(cell: string): string {
    if cell == "" then "" else (if cell[0] == '"' then "\"\"" else [cell[0]]) + Doubled(cell[1..])
  }

  /** A cell may be enclosed in quotes, and must be if it holds a quote or a comma; quotes inside are doubled. */
  function Printed(cell: string, quoted: bool): string {
    if quoted || NeedsQuotes(cell) then "\"" + Doubled(cell) + "\"" else cell
  }

  /** A record line; `quoted` says which cells are enclosed although they need not be. */
  function Line(cells: seq<string>, quoted: nat -> bool): string
    requires cells != []
  {
    if |cells| == 1 then Printed(cells[0], quoted(0))
    else Printed(cells[0], quoted(0)) + "," + Line(cells[1..], (i: nat) => quoted(i + 1))
  }

  // ---------------------------------------------------------------- round trip

  lemma {:induction false} PlainReads(cell: string, rest: string, buf: string)
    requires '"' !in cell && ',' !in cell
    ensures Cells(cell + rest, buf, false) == Cells(rest, buf + cell, false)
    decreases |cell|
  {
    var s := cell + rest;
    if cell == "" {
      assert s == rest && buf + cell == buf;
    } else {
      assert s[1..] == cell[1..] + rest && s[0] == cell[0];
      PlainReads(cell[1..], rest, buf + [cell[0]]);
      assert buf + [cell[0]] + cell[1..] == buf + cell;
    }
  }

  /** Inside quotes the doubled cell is read, up to a quote that no second one follows. */
  lemma {:induction false} DoubledReads(cell: string, rest: string, buf: string)
    requires rest == "" || rest[0] != '"'
    ensures Cells(Doubled(cell) + "\"" + rest, buf, true) == Cells(rest, buf + cell, false)
    decreases |cell|
  {
    var s := Doubled(cell) + "\"" + rest;
    if cell == "" {
      assert s[0] == '"' && s[1..] == rest && buf + cell == buf;
    } else {
      var tail := Doubled(cell[1..]) + "\"" + rest;
      DoubledReads(cell[1..], rest, buf + [cell[0]]);
      assert buf + [cell[0]] + cell[1..] == buf + cell;
      if cell[0] == '"' {
        assert s == "\"\"" + tail;
        assert s[2..] == tail;
      } else {
        assert s == [cell[0]] + tail;
        assert s[1..] == tail;
      }
    }
  }

  lemma PrintedReads(cell: string, quoted: bool, rest: string)
    requires rest == "" || rest[0] == ','
    ensures Cells(Printed(cell, quoted) + rest, "", false) == Cells(rest, cell, false)
  {
    assert "" + cell == cell;
    if quoted || NeedsQuotes(cell) {
      var s := Printed(cell, quoted) + rest;
      assert s[0] == '"' && s[1..] == Doubled(cell) + "\"" + rest;
      DoubledReads(cell, rest, "");
    } else {
      PlainReads(cell, rest, "");
    }
  }

  /** Parsing a printed line gives back its cells, whichever cells were enclosed without need. */
  lemma {:induction false} LineReadsBack(cells: seq<string>, quoted: nat -> bool)
    requires cells != []
    ensures Cells(Line(cells, quoted), "", false) == cells
    decreases |cells|
  {
    hide Printed;
    var first := Printed(cells[0], quoted(0));
    if |cells| == 1 {
      assert first + "" == first;
      PrintedReads(cells[0], quoted(0), "");
    } else {
      var after := Line(cells[1..], (i: nat) => quoted(i + 1));
      assert Line(cells, quoted) == first + ("," + after);
      PrintedReads(cells[0], quoted(0), "," + after);
      assert ("," + after)[1..] == after;
      LineReadsBack(cells[1..], (i: nat) => quoted(i + 1));
    }
  }

  // ------------------------------------------------------- quotes inside a cell

  /** A stretch of a cell, enclosed in quotes or not; a cell may mix both. */
  datatype Stretch = Bare(text: string) | Enclosed(text: string)

  function StretchText(s: Stretch): string {
    match s
    case Bare(text) => text
    case Enclosed(text) => "\"" + Doubled(text) + "\""
  }

  function CellText(cell: seq<Stretch>): string {
    if cell == [] then "" else StretchText(cell[0]) + CellText(cell[1..])
  }

  function CellValue(cell: seq<Stretch>): string {
    if cell == [] then "" else cell[0].text + CellValue(cell[1..])
  }

  /** Bare stretches hold no quote and no comma; two enclosed ones with nothing between would be one. */
  predicate Mixed(cell: seq<Stretch>) {
    && (forall i :: 0 <= i < |cell| && cell[i].Bare? ==>
          cell[i].text != "" && '"' !in cell[i].text && ',' !in cell[i].text)
    && (forall i :: 0 <= i < |cell| - 1 && cell[i].Enclosed? ==> cell[i + 1].Bare?)
  }

  function MixedLine(cells: seq<seq<Stretch>>): string
    requires cells != []
  {
    if |cells| == 1 then CellText(cells[0]) else CellText(cells[0]) + ("," + MixedLine(cells[1..]))
  }

  lemma MixedRest(cell: seq<Stretch>)
    requires Mixed(cell) && cell != []
    ensures Mixed(cell[1..])
    ensures cell[0].Bare? ==> '"' !in cell[0].text && ',' !in cell[0].text
    ensures cell[0].Enclosed? && |cell| > 1 ==> CellText(cell[1..]) != "" && CellText(cell[1..])[0] != '"'
  {
    if cell[0].Enclosed? && |cell| > 1 {
      var next := cell[1];
      assert next.Bare? && next.text[0] in next.text;
      assert cell[1..][0] == next;
    }
  }

  /** Behind each stretch the scan stands at the next one, outside quotes, its text added to the cell. */
  lemma {:induction false} CellReads(cell: seq<Stretch>, rest: string, buf: string)
    requires Mixed(cell) && (rest == "" || rest[0] != '"')
    ensures Cells(CellText(cell) + rest, buf, false) == Cells(rest, buf + CellValue(cell), false)
    decreases |cell|
  {
    hide Cells, Mixed, Doubled;
    if cell == [] {
      assert CellText(cell) + rest == rest && buf + CellValue(cell) == buf;
    } else {
      MixedRest(cell);
      var first, tail := cell[0], CellText(cell[1..]) + rest;
      assert CellText(cell) + rest == StretchText(first) + tail;
      assert buf + CellValue(cell) == buf + first.text + CellValue(cell[1..]);
      StretchReads(first, tail, buf);
      CellReads(cell[1..], rest, buf + first.text);
    }
  }

  lemma StretchReads(s: Stretch, tail: string, buf: string)
    requires s.Bare? ==> '"' !in s.text && ',' !in s.text
    requires s.Enclosed? ==> tail == "" || tail[0] != '"'
    ensures Cells(StretchText(s) + tail, buf, false) == Cells(tail, buf + s.text, false)
  {
    match s {
      case Bare(text) => PlainReads(text, tail, buf);
      case Enclosed(text) =>
        var t := StretchText(s) + tail;
        assert t[0] == '"' && t[1..] == Doubled(text) + "\"" + tail;
        DoubledReads(text, tail, buf);
    }
  }

  /** Any line whose quotes all close reads as the texts of its stretches, wherever in a cell they stand. */
  lemma {:induction false} MixedLineReads(cells: seq<seq<Stretch>>)
    requires cells != [] && forall i :: 0 <= i < |cells| ==> Mixed(cells[i])
    ensures Cells(MixedLine(cells), "", false) == seq(|cells|, i requires 0 <= i < |cells| => CellValue(cells[i]))
    decreases |cells|
  {
    hide Mixed, CellText, CellValue;
    assert "" + CellValue(cells[0]) == CellValue(cells[0]);
    if |cells| == 1 {
      CellReads(cells[0], "", "");
      assert CellText(cells[0]) + "" == CellText(cells[0]);
    } else {
      var after := MixedLine(cells[1..]);
      CellReads(cells[0], "," + after, "");
      assert ("," + after)[1..] == after;
      MixedLineReads(cells[1..]);
    }
  }

  /** A quote left open takes the rest of the line into its cell. */
  lemma {:induction false} OpenQuoteReads(text: string, buf: string)
    ensures Cells(Doubled(text), buf, true) == [buf + text]
    decreases |text|
  {
    if text == "" {
      assert buf + text == buf;
    } else {
      var tail := Doubled(text[1..]);
      OpenQuoteReads(text[1..], buf + [text[0]]);
      assert buf + [text[0]] + text[1..] == buf + text;
      if text[0] == '"' {
        assert Doubled(text) == "\"\"" + tail && Doubled(text)[2..] == tail;
      } else {
        assert Doubled(text) == [text[0]] + tail && Doubled(text)[1..] == tail;
      }
    }
  }

  // ---------------------------------------------------------------- cell count

  /** Whether a quote is open after the text: a quote opens or closes, wherever it stands. */
  function OpenAfter(s: string): bool {
    if s == "" then false else if s[|s| - 1] == '"' then !OpenAfter(s[..|s| - 1]) else OpenAfter(s[..|s| - 1])
  }

  /** The commas with an even number of quotes before them. */
  function OutsideCommas(line: string): set<nat> {
    set i | 0 <= i < |line| && line[i] == ',' && !OpenAfter(line[..i])
  }

  function CommasFrom(line: string, i: nat): set<nat> {
    set j | j in OutsideCommas(line) && j >= i
  }

  lemma CommasStep(line: string, i: nat)
    requires i < |line|
    ensures |CommasFrom(line, i)| == |CommasFrom(line, i + 1)|
      + if line[i] == ',' && !OpenAfter(line[..i]) then 1 else 0
  {
    hide OpenAfter;
    assert CommasFrom(line, i)
        == CommasFrom(line, i + 1) + if line[i] == ',' && !OpenAfter(line[..i]) then {i} else {};
  }

  /** The count from position `i` on, whatever cell has been begun there. */
  lemma {:induction false} CountFrom(line: string, i: nat, buf: string)
    requires i <= |line|
    ensures |Cells(line[i..], buf, OpenAfter(line[..i]))| == 1 + |CommasFrom(line, i)|
    decreases |line| - i
  {
    if i == |line| {
      assert CommasFrom(line, i) == {};
    } else {
      var open, rest := OpenAfter(line[..i]), line[i..];
      NextOpen(line, i);
      CommasStep(line, i);
      assert rest[1..] == line[i + 1..];
      hide OpenAfter, CommasFrom;
      if open && line[i] == '"' && i + 1 < |line| && line[i + 1] == '"' {
        NextOpen(line, i + 1);
        CommasStep(line, i + 1);
        assert rest[2..] == line[i + 2..];
        CountFrom(line, i + 2, buf + ['"']);
      } else if line[i] == '"' {
        CountFrom(line, i + 1, buf);
      } else if line[i] == ',' && !open {
        CountFrom(line, i + 1, "");
      } else {
        CountFrom(line, i + 1, buf + [line[i]]);
      }
    }
  }

  lemma NextOpen(line: string, i: nat)
    requires i < |line|
    ensures OpenAfter(line[..i + 1]) == if line[i] == '"' then !OpenAfter(line[..i]) else OpenAfter(line[..i])
  {
    assert line[..i + 1][..i] == line[..i];
  }

  /** On any line the cells are one more than the commas outside quotes. */
  lemma CellCount(line: string)
    ensures |Cells(line, "", false)| == 1 + |OutsideCommas(line)|
  {
    assert line[0..] == line && line[..0] == "";
    assert OutsideCommas(line) == CommasFrom(line, 0);
    CountFrom(line, 0, "");
  }
}
