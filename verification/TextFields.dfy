/**
 * Text read and written as decimal numbers, separated fields and lines.
 */
module TextFields {
  import opened Prelude

  /** A JavaScript number used as a count or a line; None stands for NaN. */
  type Num = Option<nat>

  function Digit(d: nat): char
    requires d < 10
  {
    '0' + d as char
  }

  function Dec(n: nat): (s: string)
    ensures s != ""
  {
    if n < 10 then [Digit(n)] else Dec(n / 10) + [Digit(n % 10)]
  }

  predicate IsDigit(c: char) {
    '0' <= c <= '9'
  }

  predicate AllDigits(s: string) {
    forall i :: 0 <= i < |s| ==> IsDigit(s[i])
  }

  function Value(s: string): nat
    requires AllDigits(s)
  {
    if s == "" then 0 else 10 * Value(s[..|s| - 1]) + (s[|s| - 1] - '0') as nat
  }

  /** The digits a text begins with. */
  function Digits(s: string): (d: string)
    ensures AllDigits(d) && |d| <= |s|
  {
    if s == "" || !IsDigit(s[0]) then "" else [s[0]] + Digits(s[1..])
  }

  /** `Number(s)` on decimal digits; the empty string is 0, anything else is NaN. */
  function ToNum(s: string): Num {
    if AllDigits(s) then Some(Value(s)) else None
  }

  /** `Number(s) || 0` */
  function Count(s: string): nat {
    match ToNum(s) case Some(n) => n case None => 0
  }

  /** NaN comes of any text with a character that is no digit, and the empty text counts as 0. */
  lemma NumberIff(s: string)
    ensures ToNum(s) == None <==> exists i :: 0 <= i < |s| && !IsDigit(s[i])
    ensures ToNum("") == Some(0) && (Count(s) > 0 ==> s != "" && AllDigits(s) && Count(s) == Value(s))
  {
  }

  /** A number as printed into the file. */
  function Show(n: Num): string {
    match n case Some(k) => Dec(k) case None => "NaN"
  }

  lemma {:induction false} DecReads(n: nat)
    ensures AllDigits(Dec(n)) && Value(Dec(n)) == n
  {
    if n < 10 {
      assert Dec(n)[..0] == "";
    } else {
      DecReads(n / 10);
      var s := Dec(n);
      assert s[..|s| - 1] == Dec(n / 10);
    }
  }

  lemma ShowReads(n: Num)
    ensures ToNum(Show(n)) == n
  {
    match n {
      case Some(k) => DecReads(k);
      case None =>
        var s := "NaN";
        assert !IsDigit(s[0]);
    }
  }

  // ------------------------------------------------------------------ fields

  /** The text before the first separator, or all of it. */
  function UpTo(s: string, sep: char): (r: string)
    ensures |r| <= |s|
  {
    if s == "" || s[0] == sep then "" else [s[0]] + UpTo(s[1..], sep)
  }

  /** The text after the first separator; nothing if there is none. */
  function After(s: string, sep: char): (r: string)
    ensures |r| <= |s| && (s != "" ==> |r| < |s|)
  {
    if s == "" then "" else if s[0] == sep then s[1..] else After(s[1..], sep)
  }

  predicate Lacks(s: string, c: char) {
    forall i :: 0 <= i < |s| ==> s[i] != c
  }

  lemma {:induction false} FieldReads(a: string, sep: char, b: string)
    requires Lacks(a, sep)
    ensures UpTo(a + [sep] + b, sep) == a && After(a + [sep] + b, sep) == b
  {
    var s := a + [sep] + b;
    if a == "" {
      assert s[1..] == b;
    } else {
      assert s[1..] == a[1..] + [sep] + b;
      FieldReads(a[1..], sep, b);
      assert a == [a[0]] + a[1..];
    }
  }

  lemma {:induction false} LastField(a: string, sep: char)
    requires Lacks(a, sep)
    ensures UpTo(a, sep) == a && After(a, sep) == ""
  {
    if a != "" {
      LastField(a[1..], sep);
      assert a == [a[0]] + a[1..];
    }
  }

  // ------------------------------------------------------------ separated parts

  /** `parts.join(sep)` */
  function JoinBy(parts: seq<string>, sep: char): string
    requires parts != []
  {
    if |parts| == 1 then parts[0] else parts[0] + [sep] + JoinBy(parts[1..], sep)
  }

  ghost predicate AllLack(parts: seq<string>, sep: char) {
    parts != [] && forall p :: p in parts ==> Lacks(p, sep)
  }

  lemma AllLackRest(parts: seq<string>, sep: char)
    requires AllLack(parts, sep)
    ensures Lacks(parts[0], sep) && (|parts| > 1 ==> AllLack(parts[1..], sep))
  {
    assert parts[0] in parts && forall p :: p in parts[1..] ==> p in parts;
  }

  lemma {:induction false} JoinHasSep(parts: seq<string>, sep: char)
    requires AllLack(parts, sep)
    ensures Lacks(JoinBy(parts, sep), sep) <==> |parts| == 1
  {
    AllLackRest(parts, sep);
    if |parts| > 1 {
      assert JoinBy(parts, sep)[|parts[0]|] == sep;
    }
  }

  /** Different lists of parts join to different texts. */
  lemma {:induction false} JoinInjective(a: seq<string>, b: seq<string>, sep: char)
    requires AllLack(a, sep) && AllLack(b, sep) && JoinBy(a, sep) == JoinBy(b, sep)
    ensures a == b
    decreases |a|
  {
    JoinHasSep(a, sep);
    JoinHasSep(b, sep);
    AllLackRest(a, sep);
    AllLackRest(b, sep);
    if |a| == 1 {
      assert a == [a[0]] && b == [b[0]];
    } else {
      FieldReads(a[0], sep, JoinBy(a[1..], sep));
      FieldReads(b[0], sep, JoinBy(b[1..], sep));
      JoinInjective(a[1..], b[1..], sep);
      assert a == [a[0]] + a[1..] && b == [b[0]] + b[1..];
    }
  }

  lemma {:induction false} DecLacks(n: nat, c: char)
    requires !IsDigit(c)
    ensures Lacks(Dec(n), c)
  {
    DecReads(n);
  }

  lemma ShowLacks(n: Num, c: char)
    requires !IsDigit(c) && c != 'N' && c != 'a'
    ensures Lacks(Show(n), c)
  {
    if n.Some? { DecLacks(n.value, c); }
  }

  // ------------------------------------------------------------------- lines

  /** `split(/\r?\n/)`; the trailing `\r` is left to the trim every line gets. */
  function SplitLines(s: string): (lines: seq<string>)
    ensures lines != []
    decreases |s|
  {
    if s == "" then [""]
    else
      var rest := SplitLines(s[1..]);
      if s[0] == '\n' then [""] + rest else [[s[0]] + rest[0]] + rest[1..]
  }

  /** `lines.join('\n') + '\n'` */
  function JoinLines(lines: seq<string>): string {
    if lines == [] then "" else lines[0] + "\n" + JoinLines(lines[1..])
  }

  lemma {:induction false} SplitFirst(line: string, rest: string)
    requires Lacks(line, '\n')
    ensures SplitLines(line + "\n" + rest) == [line] + SplitLines(rest)
  {
    var s := line + "\n" + rest;
    if line == "" {
      assert s[1..] == rest;
    } else {
      assert s[1..] == line[1..] + "\n" + rest;
      SplitFirst(line[1..], rest);
      assert line == [line[0]] + line[1..];
    }
  }

  lemma {:induction false} LinesReadBack(lines: seq<string>)
    requires forall l :: l in lines ==> Lacks(l, '\n')
    ensures SplitLines(JoinLines(lines)) == lines + [""]
  {
    if lines != [] {
      assert lines[0] in lines;
      forall l | l in lines[1..] ensures Lacks(l, '\n') {
        assert l in lines;
      }
      LinesReadBack(lines[1..]);
      SplitFirst(lines[0], JoinLines(lines[1..]));
      assert lines == [lines[0]] + lines[1..];
    }
  }
}
