/**
 * Beta versions of the desktop app: resolved from the tags and the commit time, they only
 * go up in the precedence of section 11 of SemVer 2.0.0.
 */
module BetaVersion {
  import opened Prelude
  import opened Strings
  import opened TextFields

  // ------------------------------------------------------------------ precedence

  datatype Version = Version(major: nat, minor: nat, patch: nat, pre: seq<string>)

  predicate Number(s: string) {
    s != "" && AllDigits(s)
  }

  /** Numeric identifiers compare as numbers and come before the others. */
  predicate IdLess(x: string, y: string) {
    if Number(x) && Number(y) then Value(x) < Value(y)
    else if Number(x) || Number(y) then Number(x)
    else Less(x, y)
  }

  /** Field by field; with a common beginning the shorter list comes first. */
  predicate PreLess(xs: seq<string>, ys: seq<string>) {
    if ys == [] then false
    else if xs == [] then true
    else IdLess(xs[0], ys[0]) || (xs[0] == ys[0] && PreLess(xs[1..], ys[1..]))
  }

  predicate CoreLess(a: Version, b: Version) {
    || a.major < b.major
    || (a.major == b.major && a.minor < b.minor)
    || (a.major == b.major && a.minor == b.minor && a.patch < b.patch)
  }

  predicate SameCore(a: Version, b: Version) {
    a.major == b.major && a.minor == b.minor && a.patch == b.patch
  }

  /** A pre-release comes before its release. */
  predicate Precedes(a: Version, b: Version) {
    CoreLess(a, b) || (SameCore(a, b) && a.pre != [] && (b.pre == [] || PreLess(a.pre, b.pre)))
  }

  function Pre(ids: seq<string>): Version {
    Version(1, 0, 0, ids)
  }

  lemma Numerals()
    ensures Number("1") && Number("2") && Number("11") && Value("1") == 1 && Value("2") == 2 && Value("11") == 11
    ensures !Number("alpha") && !Number("beta") && !Number("rc")
  {
    DecReads(1);
    DecReads(2);
    DecReads(11);
    assert Dec(1) == "1" && Dec(2) == "2" && Dec(11) == "11";
    var a, b, r := "alpha", "beta", "rc";
    assert !IsDigit(a[0]) && !IsDigit(b[0]) && !IsDigit(r[0]);
  }

  /** The order of the example in section 11 of SemVer 2.0.0. */
  lemma StandardExample()
    ensures Precedes(Pre(["alpha"]), Pre(["alpha", "1"])) && Precedes(Pre(["alpha", "1"]), Pre(["alpha", "beta"]))
    ensures Precedes(Pre(["alpha", "beta"]), Pre(["beta"])) && Precedes(Pre(["beta"]), Pre(["beta", "2"]))
    ensures Precedes(Pre(["beta", "2"]), Pre(["beta", "11"])) && Precedes(Pre(["beta", "11"]), Pre(["rc", "1"]))
    ensures Precedes(Pre(["rc", "1"]), Pre([]))
  {
    Numerals();
    hide Number, Value;
    var one, two, eleven, ab, word := ["1"], ["2"], ["11"], ["beta"], ["alpha"];
    assert ["alpha", "1"][1..] == one && ["alpha", "beta"][1..] == ab && word[1..] == [];
    assert ["beta", "2"][1..] == two && ["beta", "11"][1..] == eleven && ab[1..] == [];
    assert PreLess(one, ab) && PreLess(two, eleven) && PreLess([], one) && PreLess([], two);
    assert Less("alpha", "beta") && Less("beta", "rc");
  }

  function Ids(s: string): seq<string>
    decreases |s|
  {
    if Lacks(s, '.') then [s] else [UpTo(s, '.')] + Ids(After(s, '.'))
  }

  /** `MAJOR.MINOR.PATCH` or `MAJOR.MINOR.PATCH-PRE`; anything that is no number reads as 0. */
  function Read(s: string): Version {
    var core := UpTo(s, '-');
    var rest := After(core, '.');
    Version(Count(UpTo(core, '.')), Count(UpTo(rest, '.')), Count(After(rest, '.')),
            if Lacks(s, '-') then [] else Ids(After(s, '-')))
  }

  // -------------------------------------------------------------------- the tags

  /** `v`, and three numbers with dots between. */
  predicate IsStableTag(tag: string) {
    && tag != "" && tag[0] == 'v'
    && var rest := After(tag[1..], '.');
       Number(UpTo(tag[1..], '.')) && Number(UpTo(rest, '.')) && Number(After(rest, '.'))
  }

  /** The version a stable tag names. */
  function Named(tag: string): Version
    requires IsStableTag(tag)
  {
    var rest := After(tag[1..], '.');
    Version(Value(UpTo(tag[1..], '.')), Value(UpTo(rest, '.')), Value(After(rest, '.')), [])
  }

  predicate Better(tag: string, best: Option<string>)
    requires IsStableTag(tag) && (best.Some? ==> IsStableTag(best.value))
  {
    best.None? || CoreLess(Named(best.value), Named(tag))
  }

  /** The first of the highest stable tags. */
  function Pick(tags: seq<string>): (best: Option<string>)
    ensures best.Some? ==> IsStableTag(best.value) && best.value in tags
    ensures forall t :: t in tags && IsStableTag(t) ==> best.Some? && !CoreLess(Named(best.value), Named(t))
  {
    if tags == [] then None
    else
      var best, tag := Pick(tags[..|tags| - 1]), tags[|tags| - 1];
      assert forall t :: t in tags ==> t in tags[..|tags| - 1] || t == tag;
      if IsStableTag(tag) && Better(tag, best) then Some(tag) else best
  }

  /** `compareStableTags`: the loop over the three numbers. */
  method CompareStableTags(a: string, b: string) returns (c: int)
    requires IsStableTag(a) && IsStableTag(b)
    ensures c > 0 <==> CoreLess(Named(b), Named(a))
    ensures c == 0 <==> SameCore(Named(a), Named(b))
  {
    var pa := [Named(a).major, Named(a).minor, Named(a).patch];
    var pb := [Named(b).major, Named(b).minor, Named(b).patch];
    hide IsStableTag, Named;
    for i := 0 to 3
      invariant forall j :: 0 <= j < i ==> pa[j] == pb[j]
    {
      if pa[i] != pb[i] {
        assert pa[0] == pb[0] || i == 0;
        assert pa[1] == pb[1] || i <= 1;
        return pa[i] as int - pb[i] as int;
      }
    }
    assert pa[0] == pb[0] && pa[1] == pb[1] && pa[2] == pb[2];
    c := 0;
  }

  /** `pickLatestStableTag` */
  method PickLatestStableTag(tags: seq<string>) returns (best: Option<string>)
    ensures best == Pick(tags)
  {
    hide IsStableTag, Named, CoreLess;
    best := None;
    for i := 0 to |tags|
      invariant best == Pick(tags[..i])
    {
      assert tags[..i + 1][..i] == tags[..i];
      if IsStableTag(tags[i]) {
        if best.None? {
          best := Some(tags[i]);
        } else {
          var c := CompareStableTags(tags[i], best.value);
          if c > 0 { best := Some(tags[i]); }
        }
      }
    }
    assert tags[..|tags|] == tags;
  }

  // ------------------------------------------------------------------- the stamp

  /** The UTC fields of a date. */
  datatype Utc = Utc(year: nat, month: nat, day: nat, hour: nat, minute: nat, second: nat)

  predicate InRange(d: Utc) {
    1000 <= d.year <= 9999 && 1 <= d.month <= 12 && 1 <= d.day <= 31 && d.hour < 24 && d.minute < 60 && d.second < 60
  }

  predicate SameDay(a: Utc, b: Utc) {
    a.year == b.year && a.month == b.month && a.day == b.day
  }

  predicate DayBefore(a: Utc, b: Utc) {
    a.year < b.year || (a.year == b.year && (a.month < b.month || (a.month == b.month && a.day < b.day)))
  }

  predicate TimeBefore(a: Utc, b: Utc) {
    a.hour < b.hour || (a.hour == b.hour && (a.minute < b.minute || (a.minute == b.minute && a.second < b.second)))
  }

  /** Earlier by at least a second. */
  predicate Before(a: Utc, b: Utc) {
    DayBefore(a, b) || (SameDay(a, b) && TimeBefore(a, b))
  }

  /** `padStart(2, '0')` */
  function Pad2(n: nat): string {
    if |Dec(n)| < 2 then "0" + Dec(n) else Dec(n)
  }

  function DatePart(d: Utc): string {
    Dec(d.year) + Pad2(d.month) + Pad2(d.day)
  }

  function TimePart(d: Utc): string {
    Pad2(d.hour) + Pad2(d.minute) + Pad2(d.second)
  }

  /** `formatBetaTimestamp` */
  function Stamp(d: Utc): string {
    DatePart(d) + "t" + TimePart(d)
  }

  function NextPatch(v: Version): string {
    Dec(v.major) + "." + Dec(v.minor) + "." + Dec(v.patch + 1)
  }

  function Base(tags: seq<string>): string {
    match Pick(tags) case Some(tag) => NextPatch(Named(tag)) case None => "0.0.1"
  }

  /** `resolveBetaVersion` */
  function ResolveBeta(tags: seq<string>, d: Utc): string {
    Base(tags) + "-beta." + Stamp(d)
  }

  // --------------------------------------------------------- fixed-width decimals

  lemma {:induction false} LessConcat(a: string, b: string, c: string, d: string)
    requires |a| == |b|
    ensures Less(a + c, b + d) <==> Less(a, b) || (a == b && Less(c, d))
  {
    if a == "" {
      assert a + c == c && b + d == d;
    } else {
      assert (a + c)[1..] == a[1..] + c && (b + d)[1..] == b[1..] + d;
      LessConcat(a[1..], b[1..], c, d);
      assert a == [a[0]] + a[1..] && b == [b[0]] + b[1..];
    }
  }

  /** Among digit strings of one length, ASCII order is the order of the numbers. */
  lemma {:induction false} DigitsLess(x: string, y: string)
    requires AllDigits(x) && AllDigits(y) && |x| == |y|
    ensures Less(x, y) <==> Value(x) < Value(y)
    ensures x == y <==> Value(x) == Value(y)
    decreases |x|
  {
    if x != "" {
      var n := |x| - 1;
      DigitsLess(x[..n], y[..n]);
      assert x == x[..n] + [x[n]] && y == y[..n] + [y[n]];
      LessConcat(x[..n], y[..n], [x[n]], [y[n]]);
      assert Less([x[n]], [y[n]]) <==> x[n] < y[n];
    }
  }

  lemma {:induction false} DecLength(n: nat)
    ensures n < 10 <==> |Dec(n)| == 1
    ensures n < 100 ==> |Dec(n)| <= 2
    ensures 1000 <= n <= 9999 ==> |Dec(n)| == 4
  {
    if n >= 10 {
      assert |Dec(n / 10)| >= 1;
      if n >= 1000 { assert Dec(n / 10 / 10) == Dec(n / 100); }
    }
  }

  lemma Pad2Is(n: nat)
    requires n < 100
    ensures |Pad2(n)| == 2 && AllDigits(Pad2(n)) && Value(Pad2(n)) == n
  {
    DecLength(n);
    DecReads(n);
    if n < 10 {
      var s := "0" + Dec(n);
      assert s[..1] == "0" && s[1] == Digit(n);
      assert Value("0") == 0;
      assert Value(s) == n;
    }
  }

  lemma Pad2Less(a: nat, b: nat)
    requires a < 100 && b < 100
    ensures |Pad2(a)| == |Pad2(b)| == 2
    ensures Less(Pad2(a), Pad2(b)) <==> a < b
    ensures Pad2(a) == Pad2(b) <==> a == b
  {
    Pad2Is(a);
    Pad2Is(b);
    hide Pad2;
    DigitsLess(Pad2(a), Pad2(b));
  }

  lemma YearLess(a: nat, b: nat)
    requires 1000 <= a <= 9999 && 1000 <= b <= 9999
    ensures |Dec(a)| == |Dec(b)| == 4
    ensures Less(Dec(a), Dec(b)) <==> a < b
    ensures Dec(a) == Dec(b) <==> a == b
  {
    DecLength(a);
    DecLength(b);
    DecReads(a);
    DecReads(b);
    hide Dec;
    DigitsLess(Dec(a), Dec(b));
  }

  lemma SameLength(a: string, b: string, c: string, d: string)
    requires |a| == |b|
    ensures a + c == b + d <==> a == b && c == d
  {
    if a + c == b + d {
      assert a == (a + c)[..|a|] == b;
      assert c == (a + c)[|a|..] == d;
    }
  }

  lemma DatePartLess(a: Utc, b: Utc)
    requires InRange(a) && InRange(b)
    ensures |DatePart(a)| == |DatePart(b)| == 8
    ensures Less(DatePart(a), DatePart(b)) <==> DayBefore(a, b)
    ensures DatePart(a) == DatePart(b) <==> SameDay(a, b)
  {
    YearLess(a.year, b.year);
    Pad2Less(a.month, b.month);
    Pad2Less(a.day, b.day);
    hide Dec, Pad2, Less;
    var m, n := Pad2(a.month) + Pad2(a.day), Pad2(b.month) + Pad2(b.day);
    assert DatePart(a) == Dec(a.year) + m && DatePart(b) == Dec(b.year) + n;
    LessConcat(Pad2(a.month), Pad2(b.month), Pad2(a.day), Pad2(b.day));
    SameLength(Pad2(a.month), Pad2(b.month), Pad2(a.day), Pad2(b.day));
    LessConcat(Dec(a.year), Dec(b.year), m, n);
    SameLength(Dec(a.year), Dec(b.year), m, n);
  }

  lemma TimePartLess(a: Utc, b: Utc)
    requires InRange(a) && InRange(b)
    ensures |TimePart(a)| == |TimePart(b)| == 6
    ensures Less(TimePart(a), TimePart(b)) <==> TimeBefore(a, b)
  {
    Pad2Less(a.hour, b.hour);
    Pad2Less(a.minute, b.minute);
    Pad2Less(a.second, b.second);
    hide Pad2, Less;
    var m, n := Pad2(a.minute) + Pad2(a.second), Pad2(b.minute) + Pad2(b.second);
    assert TimePart(a) == Pad2(a.hour) + m && TimePart(b) == Pad2(b.hour) + n;
    LessConcat(Pad2(a.minute), Pad2(b.minute), Pad2(a.second), Pad2(b.second));
    LessConcat(Pad2(a.hour), Pad2(b.hour), m, n);
  }

  /** String order of stamps is time order. */
  lemma StampOrder(a: Utc, b: Utc)
    requires InRange(a) && InRange(b)
    ensures Less(Stamp(a), Stamp(b)) <==> Before(a, b)
  {
    DatePartLess(a, b);
    TimePartLess(a, b);
    assert !Less("t", "t");
    hide DatePart, TimePart, Less;
    var m, n := "t" + TimePart(a), "t" + TimePart(b);
    assert Stamp(a) == DatePart(a) + m && Stamp(b) == DatePart(b) + n;
    LessConcat("t", "t", TimePart(a), TimePart(b));
    LessConcat(DatePart(a), DatePart(b), m, n);
  }

  /** The published all-digit stamps: same parts, no `t`. */
  function Legacy(d: Utc): string {
    DatePart(d) + TimePart(d)
  }

  /** Read lexically, a new stamp comes after a legacy one exactly if it is not of an earlier day. */
  lemma LegacyOrder(a: Utc, b: Utc)
    requires InRange(a) && InRange(b)
    ensures Less(Legacy(a), Stamp(b)) <==> !DayBefore(b, a)
  {
    DatePartLess(a, b);
    DatePartLess(b, a);
    TimePartLess(a, b);
    Pad2Is(a.hour);
    assert TimePart(a)[0] == Pad2(a.hour)[0] && IsDigit(TimePart(a)[0]);
    assert ("t" + TimePart(b))[0] == 't';
    assert Less(TimePart(a), "t" + TimePart(b));
    hide DatePart, TimePart, Less;
    assert Stamp(b) == DatePart(b) + ("t" + TimePart(b));
    LessConcat(DatePart(a), DatePart(b), TimePart(a), "t" + TimePart(b));
  }

  // ----------------------------------------------------------------- digit runs

  const INT32_MAX: nat := 0x7fff_ffff

  /** The maximal digit runs of a text. */
  function Runs(s: string): seq<string>
    decreases |s|
  {
    if s == "" then []
    else if Digits(s) == "" then Runs(s[1..])
    else [Digits(s)] + Runs(s[|Digits(s)|..])
  }

  lemma {:induction false} DigitsOf(d: string, rest: string)
    requires AllDigits(d) && (rest == "" || !IsDigit(rest[0]))
    ensures Digits(d + rest) == d
  {
    if d == "" {
      assert d + rest == rest;
    } else {
      assert (d + rest)[1..] == d[1..] + rest;
      DigitsOf(d[1..], rest);
      assert d == [d[0]] + d[1..];
    }
  }

  lemma RunsOfStamp(d: string, t: string)
    requires Number(d) && Number(t)
    ensures Runs(d + "t" + t) == [d, t]
  {
    var s, rest := d + "t" + t, "t" + t;
    assert s == d + rest && s[|d|..] == rest && rest[1..] == t;
    DigitsOf(d, rest);
    DigitsOf(t, "");
    assert t + "" == t && t[|t|..] == "";
    assert Digits(rest) == "";
    assert Runs(t) == [t];
  }

  lemma ValueTwo(a: string, b: string)
    requires AllDigits(a) && AllDigits(b) && |b| == 2
    ensures AllDigits(a + b) && Value(a + b) == 100 * Value(a) + Value(b)
  {
    var s := a + b;
    assert s[..|s| - 1] == a + [b[0]] && (a + [b[0]])[..|a|] == a;
    assert Value(a + [b[0]]) == 10 * Value(a) + (b[0] - '0') as nat;
    assert b[..1] == [b[0]] && [b[0]][..0] == "";
    assert Value([b[0]]) == (b[0] - '0') as nat;
  }

  /** The two digit runs of a stamp are its date and its time; both fit the 32-bit parser they are later read with. */
  lemma RunsFitInt32(d: Utc)
    requires InRange(d)
    ensures var runs := Runs(Stamp(d));
      && |runs| == 2
      && (forall r :: r in runs ==> Number(r) && Value(r) <= INT32_MAX)
      && Number(runs[0]) && Value(runs[0]) == d.year * 10000 + d.month * 100 + d.day
      && Number(runs[1]) && Value(runs[1]) == d.hour * 10000 + d.minute * 100 + d.second
  {
    DecReads(d.year);
    Pad2Is(d.month);
    Pad2Is(d.day);
    Pad2Is(d.hour);
    Pad2Is(d.minute);
    Pad2Is(d.second);
    hide Dec, Pad2, Value, AllDigits, Runs;
    ValueTwo(Dec(d.year), Pad2(d.month));
    ValueTwo(Dec(d.year) + Pad2(d.month), Pad2(d.day));
    ValueTwo(Pad2(d.hour), Pad2(d.minute));
    ValueTwo(Pad2(d.hour) + Pad2(d.minute), Pad2(d.second));
    assert Value(DatePart(d)) <= 99991231 && Value(TimePart(d)) <= 235959;
    RunsOfStamp(DatePart(d), TimePart(d));
  }

  // --------------------------------------------------------------- reading it back

  function BaseVersion(tags: seq<string>): Version {
    match Pick(tags)
    case Some(tag) => Named(tag).(patch := Named(tag).patch + 1)
    case None => Version(0, 0, 1, [])
  }

  function Core(v: Version): string {
    Dec(v.major) + "." + Dec(v.minor) + "." + Dec(v.patch)
  }

  lemma BaseIsCore(tags: seq<string>)
    ensures Base(tags) == Core(BaseVersion(tags))
  {
    if Pick(tags).None? {
      var v := Version(0, 0, 1, []);
      assert Dec(0) == "0" && Dec(1) == "1";
      assert Core(v) == "0" + "." + "0" + "." + "1";
      assert "0" + "." + "0" + "." + "1" == "0.0.1";
    }
    hide Pick, Named, IsStableTag, Dec;
  }

  lemma CoreReads(v: Version)
    ensures Lacks(Core(v), '-')
    ensures var core := Core(v); var rest := After(core, '.');
      Count(UpTo(core, '.')) == v.major && Count(UpTo(rest, '.')) == v.minor && Count(After(rest, '.')) == v.patch
  {
    DecReads(v.major);
    DecReads(v.minor);
    DecReads(v.patch);
    DecLacks(v.major, '.');
    DecLacks(v.minor, '.');
    DecLacks(v.major, '-');
    DecLacks(v.minor, '-');
    DecLacks(v.patch, '-');
    var core, rest := Core(v), Dec(v.minor) + "." + Dec(v.patch);
    assert core == Dec(v.major) + ['.'] + rest;
    FieldReads(Dec(v.major), '.', rest);
    FieldReads(Dec(v.minor), '.', Dec(v.patch));
    assert rest == Dec(v.minor) + ['.'] + Dec(v.patch);
    hide Dec, UpTo, After;
  }

  lemma StampLacksDot(d: Utc)
    requires InRange(d)
    ensures Lacks(Stamp(d), '.') && !Number(Stamp(d))
  {
    DecLacks(d.year, '.');
    DecLacks(d.month, '.');
    DecLacks(d.day, '.');
    DecLacks(d.hour, '.');
    DecLacks(d.minute, '.');
    DecLacks(d.second, '.');
    DatePartLess(d, d);
    assert Lacks(DatePart(d), '.') && Lacks(TimePart(d), '.');
    hide DatePart, TimePart;
    assert Stamp(d)[8] == 't';
  }

  /** A version with a pre-release part reads as its parts. */
  lemma PreReads(v: Version, id: string, d: string)
    requires Lacks(id, '.') && Lacks(d, '.')
    ensures Read(Core(v) + "-" + (id + "." + d)) == Version(v.major, v.minor, v.patch, [id, d])
  {
    CoreReads(v);
    var s, pre := Core(v) + "-" + (id + "." + d), id + "." + d;
    assert s == Core(v) + ['-'] + pre && s[|Core(v)|] == '-';
    FieldReads(Core(v), '-', pre);
    FieldReads(id, '.', d);
    assert pre == id + ['.'] + d && pre[|id|] == '.';
    assert Ids(pre) == [id] + Ids(d);
    hide Core, UpTo, After, Count;
  }

  lemma BetaReads(tags: seq<string>, d: Utc)
    requires InRange(d)
    ensures Read(ResolveBeta(tags, d)) == BaseVersion(tags).(pre := ["beta", Stamp(d)])
  {
    BaseIsCore(tags);
    StampLacksDot(d);
    var v := BaseVersion(tags);
    var id := "beta";
    assert Lacks(id, '.');
    assert ResolveBeta(tags, d) == Core(v) + "-" + (id + "." + Stamp(d)) by {
      assert "-beta." == "-" + (id + ".");
      hide Core, Stamp;
    }
    hide Core, Stamp, Read, Base, BaseVersion, Lacks;
    PreReads(v, id, Stamp(d));
  }

  // ---------------------------------------------------------------- the ordering

  ghost predicate Within(p: seq<string>, q: seq<string>) {
    forall t :: t in p ==> t in q
  }

  /** More tags never lower the base. */
  lemma BaseGrows(p: seq<string>, q: seq<string>)
    requires Within(p, q)
    ensures !CoreLess(BaseVersion(q), BaseVersion(p))
  {
    hide Named, IsStableTag;
    if Pick(p).Some? {
      var t := Pick(p).value;
      assert t in q;
    }
  }

  lemma PreOrder(a: Utc, b: Utc)
    requires InRange(a) && InRange(b)
    ensures PreLess(["beta", Stamp(a)], ["beta", Stamp(b)]) <==> Before(a, b)
  {
    StampOrder(a, b);
    StampLacksDot(a);
    StampLacksDot(b);
    hide Stamp;
    var x, y := ["beta", Stamp(a)], ["beta", Stamp(b)];
    var id := "beta";
    assert !IsDigit(id[0]);
    assert !Number(id) && !Less(id, id) by { NotBelowItself(id); }
    assert x[1..] == [Stamp(a)] && y[1..] == [Stamp(b)];
    assert x[1..][1..] == [] && y[1..][1..] == [];
    assert PreLess(x[1..][1..], y[1..][1..]) == false;
    assert PreLess(x[1..], y[1..]) <==> IdLess(Stamp(a), Stamp(b));
    assert PreLess(x, y) <==> IdLess(id, id) || PreLess(x[1..], y[1..]);
    hide Less, Number, PreLess;
  }

  lemma {:induction false} NotBelowItself(s: string)
    ensures !Less(s, s)
  {
    if s != "" { NotBelowItself(s[1..]); }
  }

  /** With more tags and a later commit the beta version strictly goes up. */
  lemma BetaGoesUp(p: seq<string>, q: seq<string>, a: Utc, b: Utc)
    requires Within(p, q) && InRange(a) && InRange(b) && Before(a, b)
    ensures Precedes(Read(ResolveBeta(p, a)), Read(ResolveBeta(q, b)))
  {
    BetaReads(p, a);
    BetaReads(q, b);
    BaseGrows(p, q);
    PreOrder(a, b);
    hide ResolveBeta, Read, BaseVersion, PreLess, Stamp, Before, InRange, Within;
  }

  /** For one set of tags, the order of two betas is exactly the order of their commits. */
  lemma BetaOrderIff(tags: seq<string>, a: Utc, b: Utc)
    requires InRange(a) && InRange(b)
    ensures Precedes(Read(ResolveBeta(tags, a)), Read(ResolveBeta(tags, b))) <==> Before(a, b)
  {
    BetaReads(tags, a);
    BetaReads(tags, b);
    PreOrder(a, b);
    hide ResolveBeta, Read, BaseVersion, PreLess, Stamp, Before, InRange;
  }

  /** The beta lies above the latest stable version and below its next patch. */
  lemma BetaBetween(tags: seq<string>, d: Utc)
    requires InRange(d) && Pick(tags).Some?
    ensures var stable := Named(Pick(tags).value);
      && Precedes(stable, Read(ResolveBeta(tags, d)))
      && Precedes(Read(ResolveBeta(tags, d)), stable.(patch := stable.patch + 1))
  {
    BetaReads(tags, d);
    hide ResolveBeta, Read, Stamp, Named, Pick;
  }

  /** The version does not depend on the order, or on repetitions, of the tags. */
  lemma OrderIrrelevant(p: seq<string>, q: seq<string>, d: Utc)
    requires Within(p, q) && Within(q, p)
    ensures ResolveBeta(p, d) == ResolveBeta(q, d)
  {
    BaseGrows(p, q);
    BaseGrows(q, p);
    NoPre(p);
    NoPre(q);
    BaseIsCore(p);
    BaseIsCore(q);
    hide Base, BaseVersion, Stamp, Core, Within;
  }

  lemma NoPre(tags: seq<string>)
    ensures BaseVersion(tags).pre == []
  {
    hide Pick;
  }

  // ------------------------------------------------------------- the two channels

  datatype Channel = Stable | Beta

  datatype Resolved = Resolved(version: string, channel: Channel) | VersionRequired

  /** `resolveVersion`; an unset or empty field of the dispatch is None. */
  function Resolve(dispatch: bool, ref: Option<string>, version: Option<string>, channel: Option<string>,
                   tags: seq<string>, d: Utc): Resolved {
    if dispatch && channel == Some("beta") then
      Resolved.Resolved(match version case Some(v) => v case None => ResolveBeta(tags, d), Beta)
    else if ref.Some? && |ref.value| >= 11 && ref.value[..11] == "refs/tags/v" then
      Resolved.Resolved(ref.value[11..], Stable)
    else if dispatch then
      (match version case Some(v) => Resolved.Resolved(v, Stable) case None => VersionRequired)
    else Resolved.Resolved("0.0.0-dev", Stable)
  }

  lemma CoreFields(v: Version, more: string)
    ensures var core := Core(v) + more; var rest := After(core, '.');
      && UpTo(core, '.') == Dec(v.major) && UpTo(rest, '.') == Dec(v.minor) && After(rest, '.') == Dec(v.patch) + more
  {
    DecLacks(v.major, '.');
    DecLacks(v.minor, '.');
    var core, rest := Core(v) + more, Dec(v.minor) + "." + (Dec(v.patch) + more);
    assert core == Dec(v.major) + ['.'] + rest && rest == Dec(v.minor) + ['.'] + (Dec(v.patch) + more);
    hide Core, UpTo, After, Dec, Lacks;
    FieldReads(Dec(v.major), '.', rest);
    FieldReads(Dec(v.minor), '.', Dec(v.patch) + more);
  }

  lemma DecIsNumber(n: nat)
    ensures Number(Dec(n)) && Value(Dec(n)) == n
  {
    DecReads(n);
    assert Dec(n) != "";
  }

  /** `v1.2.3` is a stable tag and names its numbers; with more behind or another letter in front, it is none. */
  lemma TagReads(v: Version, pre: string, c: char)
    ensures IsStableTag("v" + Core(v)) && Named("v" + Core(v)) == v.(pre := [])
    ensures !IsStableTag("v" + Core(v) + "-" + pre)
    ensures c != 'v' ==> !IsStableTag([c] + Core(v))
  {
    BeginsWithV([c] + Core(v));
    hide *;
    CoreFields(v, "");
    CoreFields(v, "-" + pre);
    TagIs(v, "");
    TagIs(v, "-" + pre);
    assert "v" + Core(v) + "" == "v" + Core(v) && Dec(v.patch) + "" == Dec(v.patch);
    assert "v" + Core(v) + ("-" + pre) == "v" + Core(v) + "-" + pre;
    DecIsNumber(v.major);
    DecIsNumber(v.minor);
    DecIsNumber(v.patch);
    DashIsNoNumber(Dec(v.patch), pre);
  }

  lemma BeginsWithV(tag: string)
    ensures IsStableTag(tag) ==> tag[0] == 'v'
  {
  }

  lemma DashIsNoNumber(s: string, pre: string)
    ensures !Number(s + ("-" + pre))
  {
    assert (s + ("-" + pre))[|s|] == '-';
  }

  /** Whether a tag of three dotted fields is stable, and what it then names. */
  lemma TagIs(v: Version, more: string)
    requires var core := Core(v) + more; var rest := After(core, '.');
      && UpTo(core, '.') == Dec(v.major) && UpTo(rest, '.') == Dec(v.minor) && After(rest, '.') == Dec(v.patch) + more
    ensures var tag := "v" + Core(v) + more;
      && (IsStableTag(tag) <==> Number(Dec(v.major)) && Number(Dec(v.minor)) && Number(Dec(v.patch) + more))
      && (IsStableTag(tag) ==>
            Named(tag) == Version(Value(Dec(v.major)), Value(Dec(v.minor)), Value(Dec(v.patch) + more), []))
  {
    var tag := "v" + Core(v) + more;
    assert tag[1..] == Core(v) + more && tag[0] == 'v';
    hide Core, UpTo, After, Dec, Number, Value;
  }

  /** The channel is beta exactly for a beta dispatch, and a version lacks exactly for a bare dispatch off the tags. */
  lemma ChannelIff(dispatch: bool, ref: Option<string>, version: Option<string>, channel: Option<string>,
                   tags: seq<string>, d: Utc)
    ensures var r := Resolve(dispatch, ref, version, channel, tags, d);
      var beta, tagged := dispatch && channel == Some("beta"), ref.Some? && "refs/tags/v" <= ref.value;
      && (r.VersionRequired? <==> dispatch && !beta && !tagged && version.None?)
      && (r.Resolved? ==> (r.channel == Beta <==> beta))
      && (dispatch && version.Some? && (beta || !tagged) ==> r.version == version.value)
      && (!dispatch && !tagged ==> r.version == "0.0.0-dev")
  {
    var p := "refs/tags/v";
    assert |p| == 11;
  }

  /** Off the beta channel, a stable tag releases exactly the version it names. */
  lemma StableTagReleases(v: Version, dispatch: bool, version: Option<string>, channel: Option<string>,
                          tags: seq<string>, d: Utc)
    requires v.pre == [] && !(dispatch && channel == Some("beta"))
    ensures var r := Resolve(dispatch, Some("refs/tags/" + ("v" + Core(v))), version, channel, tags, d);
      r.Resolved? && r.channel == Stable && Read(r.version) == v
  {
    var ref := "refs/tags/" + ("v" + Core(v));
    assert |"refs/tags/v"| == 11;
    assert ref[..11] == "refs/tags/v" && ref[11..] == Core(v);
    CoreReads(v);
    LastField(Core(v), '-');
    hide Core, UpTo, After, Count;
  }

  /** A beta dispatched on a stable tag is never another stable build, and it outranks that tag. */
  lemma CompanionIsBeta(tag: string, tags: seq<string>, d: Utc)
    requires IsStableTag(tag) && tag in tags && InRange(d)
    ensures var r := Resolve(true, Some("refs/tags/" + tag), None, Some("beta"), tags, d);
      r.Resolved? && r.channel == Beta && Precedes(Named(tag), Read(r.version))
  {
    BetaReads(tags, d);
    assert Pick(tags).Some? && !CoreLess(Named(Pick(tags).value), Named(tag));
    hide ResolveBeta, Read, Stamp, Named, Pick;
  }
}
