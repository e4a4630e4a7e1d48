/**
 * Replaying signups: the running tables of the scorer against plain counts over all
 * pairs of rows, and what the two views of a signup have to do with each other.
 */
module SignupReplay {
  import opened Prelude
  import opened TextFields

  /** A row of the export; `canonical` is its canonical email. */
  datatype Row = Row(canonical: string, createdAt: int, ip: string)

  datatype Features = Features(collisions: int, links: nat, bursts: nat)

  datatype Scored = Scored(signup: Features, final: Features)

  /** Up to the n-th colon. */
  function Groups(ip: string, n: nat): string {
    if ip == "" then ""
    else if ip[0] == ':' then if n <= 1 then "" else ":" + Groups(ip[1..], n - 1)
    else [ip[0]] + Groups(ip[1..], n)
  }

  /** An IPv6 address by its first four groups, anything else as it is. */
  function IpKey(ip: string): string {
    if ':' !in ip then ip else Groups(ip, 4)
  }

  function FirstFour(groups: seq<string>): seq<string> {
    if |groups| > 4 then groups[..4] else groups
  }

  lemma {:induction false} GroupPassed(g: string, rest: string, n: nat)
    requires Lacks(g, ':')
    ensures Groups(g + rest, n) == g + Groups(rest, n)
  {
    if g == "" {
      assert g + rest == rest;
    } else {
      assert (g + rest)[1..] == g[1..] + rest;
      GroupPassed(g[1..], rest, n);
      assert g == [g[0]] + g[1..];
    }
  }

  lemma {:induction false} GroupsTaken(groups: seq<string>, n: nat)
    requires AllLack(groups, ':') && n > 0
    ensures Groups(JoinBy(groups, ':'), n) == JoinBy(if |groups| > n then groups[..n] else groups, ':')
    decreases |groups|
  {
    var g := groups[0];
    AllLackRest(groups, ':');
    if |groups| == 1 {
      GroupPassed(g, "", n);
      assert g + "" == g;
    } else {
      var rest := groups[1..];
      var tail := [':'] + JoinBy(rest, ':');
      assert JoinBy(groups, ':') == g + tail && tail[1..] == JoinBy(rest, ':');
      GroupPassed(g, tail, n);
      if n == 1 {
        assert groups[..1] == [g] && Groups(tail, 1) == "";
      } else {
        GroupsTaken(rest, n - 1);
        assert Groups(tail, n) == ":" + Groups(JoinBy(rest, ':'), n - 1);
        assert |groups| > n ==> groups[..n][1..] == rest[..n - 1];
        hide Groups;
      }
    }
  }

  lemma KeyIsFirstFour(groups: seq<string>)
    requires AllLack(groups, ':')
    ensures IpKey(JoinBy(groups, ':')) == JoinBy(FirstFour(groups), ':') && AllLack(FirstFour(groups), ':')
  {
    JoinHasSep(groups, ':');
    GroupsTaken(groups, 4);
    assert |groups| > 4 ==> forall g :: g in groups[..4] ==> g in groups;
  }

  /** Two addresses share a key exactly if their first four groups agree; an IPv4 address is one group. */
  lemma ShareKeyIff(a: seq<string>, b: seq<string>)
    requires AllLack(a, ':') && AllLack(b, ':')
    ensures IpKey(JoinBy(a, ':')) == IpKey(JoinBy(b, ':')) <==> FirstFour(a) == FirstFour(b)
  {
    KeyIsFirstFour(a);
    KeyIsFirstFour(b);
    hide IpKey, JoinBy, AllLack, FirstFour;
    if IpKey(JoinBy(a, ':')) == IpKey(JoinBy(b, ':')) {
      JoinInjective(FirstFour(a), FirstFour(b), ':');
    }
  }

  function Abs(x: int): nat {
    if x < 0 then -x else x
  }

  // -------------------------------------------------------------- plain counts

  predicate SameIp(rows: seq<Row>, i: nat, j: nat)
    requires i < |rows| && j < |rows|
  {
    IpKey(rows[i].ip) != "" && IpKey(rows[i].ip) == IpKey(rows[j].ip)
  }

  /** Earlier accounts of the same address, at most `w` before. */
  function Priors(rows: seq<Row>, i: nat, w: int): set<nat>
    requires i < |rows|
  {
    set j | 0 <= j < i && SameIp(rows, i, j) && rows[i].createdAt - rows[j].createdAt <= w
  }

  /** Accounts of the same address on both sides, but none created at the same instant. */
  function Others(rows: seq<Row>, i: nat, w: int): set<nat>
    requires i < |rows|
  {
    set j | 0 <= j < |rows| && SameIp(rows, i, j) && rows[j].createdAt != rows[i].createdAt
            && Abs(rows[i].createdAt - rows[j].createdAt) <= w
  }

  function SameMail(rows: seq<Row>, n: nat, canonical: string): set<nat>
    requires n <= |rows|
  {
    set j | 0 <= j < n && rows[j].canonical == canonical
  }

  /** What the live path would have seen: earlier rows only. */
  function AtSignup(rows: seq<Row>, i: nat, window: int, burst: int): Features
    requires i < |rows|
  {
    Features(|SameMail(rows, i, rows[i].canonical)|, |Priors(rows, i, window)|, |Priors(rows, i, burst)|)
  }

  /** What the re-score sees: all rows. */
  function AtEnd(rows: seq<Row>, i: nat, window: int, burst: int): Features
    requires i < |rows|
  {
    Features(|SameMail(rows, |rows|, rows[i].canonical)| - 1, |Others(rows, i, window)|, |Others(rows, i, burst)|)
  }

  function Views(rows: seq<Row>, i: nat, window: int, burst: int): Scored
    requires i < |rows|
  {
    Scored(AtSignup(rows, i, window, burst), AtEnd(rows, i, window, burst))
  }

  predicate Sorted(rows: seq<Row>) {
    forall i, j :: 0 <= i < j < |rows| ==> rows[i].createdAt <= rows[j].createdAt
  }

  // ---------------------------------------------------------- the running tables

  /** The creation times of an address, in row order. */
  function Times(rows: seq<Row>, key: string): seq<int> {
    if rows == [] then []
    else Times(rows[..|rows| - 1], key)
         + if IpKey(rows[|rows| - 1].ip) == key then [rows[|rows| - 1].createdAt] else []
  }

  function CountIf(ts: seq<int>, p: int -> bool): nat {
    if ts == [] then 0 else CountIf(ts[..|ts| - 1], p) + if p(ts[|ts| - 1]) then 1 else 0
  }

  function Timed(rows: seq<Row>, key: string, p: int -> bool): set<nat> {
    set j | 0 <= j < |rows| && IpKey(rows[j].ip) == key && p(rows[j].createdAt)
  }

  /** Filtering an address's list counts the rows themselves. */
  lemma {:induction false} ListCountsRows(rows: seq<Row>, key: string, p: int -> bool)
    ensures CountIf(Times(rows, key), p) == |Timed(rows, key, p)|
    decreases |rows|
  {
    hide IpKey;
    if rows == [] {
    } else {
      var n := |rows| - 1;
      var front, last := rows[..n], rows[n];
      ListCountsRows(front, key, p);
      var hit := IpKey(last.ip) == key && p(last.createdAt);
      assert Timed(rows, key, p) == Timed(front, key, p) + if hit then {n} else {};
      if IpKey(last.ip) == key {
        var ts := Times(rows, key);
        assert ts[..|ts| - 1] == Times(front, key);
      } else {
        assert Times(rows, key) == Times(front, key);
      }
    }
  }

  /** The filter of an array of times. */
  method CountWhere(ts: seq<int>, p: int -> bool) returns (n: nat)
    ensures n == CountIf(ts, p)
  {
    n := 0;
    for i := 0 to |ts|
      invariant n == CountIf(ts[..i], p)
    {
      assert ts[..i + 1][..i] == ts[..i];
      if p(ts[i]) { n := n + 1; }
    }
    assert ts[..|ts|] == ts;
  }

  /** The table of times by address after the first `n` rows. */
  ghost predicate TimesTable(table: map<string, seq<int>>, rows: seq<Row>) {
    forall key :: key != "" ==> Times(rows, key) == if key in table then table[key] else []
  }

  ghost predicate MailTable(table: map<string, nat>, rows: seq<Row>) {
    forall c :: |SameMail(rows, |rows|, c)| == if c in table then table[c] else 0
  }

  lemma TimesSnoc(rows: seq<Row>, row: Row, key: string)
    ensures Times(rows + [row], key) == Times(rows, key) + if IpKey(row.ip) == key then [row.createdAt] else []
  {
    assert (rows + [row])[..|rows|] == rows;
  }

  lemma TimesAdd(table: map<string, seq<int>>, rows: seq<Row>, row: Row)
    requires TimesTable(table, rows)
    ensures var key := IpKey(row.ip);
      TimesTable(
        if key == "" then table else table[key := (if key in table then table[key] else []) + [row.createdAt]],
        rows + [row])
  {
    forall k ensures Times(rows + [row], k) == Times(rows, k) + if IpKey(row.ip) == k then [row.createdAt] else [] {
      TimesSnoc(rows, row, k);
    }
    hide IpKey, Times;
  }

  lemma MailSnoc(rows: seq<Row>, row: Row, c: string)
    ensures |SameMail(rows + [row], |rows| + 1, c)| == |SameMail(rows, |rows|, c)| + if row.canonical == c then 1 else 0
  {
    assert SameMail(rows + [row], |rows| + 1, c) == SameMail(rows, |rows|, c)
      + if row.canonical == c then {|rows|} else {};
  }

  lemma MailAdd(table: map<string, nat>, rows: seq<Row>, row: Row)
    requires MailTable(table, rows)
    ensures MailTable(
      table[row.canonical := (if row.canonical in table then table[row.canonical] else 0) + 1], rows + [row])
  {
    hide SameMail;
    var next := table[row.canonical := (if row.canonical in table then table[row.canonical] else 0) + 1];
    forall c ensures |SameMail(rows + [row], |rows + [row]|, c)| == if c in next then next[c] else 0 {
      MailSnoc(rows, row, c);
    }
  }

  /** The two passes that build the whole-export tables. */
  method Totals(rows: seq<Row>) returns (byIp: map<string, seq<int>>, mails: map<string, nat>)
    ensures TimesTable(byIp, rows) && MailTable(mails, rows)
  {
    byIp, mails := map[], map[];
    for i := 0 to |rows|
      invariant TimesTable(byIp, rows[..i])
    {
      hide IpKey, TimesTable;
      assert rows[..i + 1] == rows[..i] + [rows[i]];
      TimesAdd(byIp, rows[..i], rows[i]);
      var key := IpKey(rows[i].ip);
      if key != "" {
        byIp := byIp[key := (if key in byIp then byIp[key] else []) + [rows[i].createdAt]];
      }
    }
    for i := 0 to |rows|
      invariant MailTable(mails, rows[..i])
    {
      hide MailTable;
      assert rows[..i + 1] == rows[..i] + [rows[i]];
      MailAdd(mails, rows[..i], rows[i]);
      var c := rows[i].canonical;
      mails := mails[c := (if c in mails then mails[c] else 0) + 1];
    }
    assert rows[..|rows|] == rows;
  }

  lemma PriorCount(rows: seq<Row>, i: nat, w: int)
    requires i < |rows| && IpKey(rows[i].ip) != ""
    ensures CountIf(Times(rows[..i], IpKey(rows[i].ip)), t => rows[i].createdAt - t <= w) == |Priors(rows, i, w)|
  {
    hide IpKey, Times, CountIf;
    var key, p := IpKey(rows[i].ip), t => rows[i].createdAt - t <= w;
    ListCountsRows(rows[..i], key, p);
    assert Timed(rows[..i], key, p) == Priors(rows, i, w);
  }

  predicate OtherTime(row: Row, w: int, t: int) {
    t != row.createdAt && Abs(row.createdAt - t) <= w
  }

  lemma OtherCount(rows: seq<Row>, i: nat, w: int)
    requires i < |rows| && IpKey(rows[i].ip) != ""
    ensures CountIf(Times(rows, IpKey(rows[i].ip)), t => OtherTime(rows[i], w, t)) == |Others(rows, i, w)|
  {
    hide IpKey, Times, CountIf, Abs;
    var key, p := IpKey(rows[i].ip), t => OtherTime(rows[i], w, t);
    ListCountsRows(rows, key, p);
    assert Timed(rows, key, p) == Others(rows, i, w);
  }

  lemma NoAddress(rows: seq<Row>, i: nat, w: int)
    requires i < |rows| && IpKey(rows[i].ip) == ""
    ensures Priors(rows, i, w) == {} && Others(rows, i, w) == {}
  {
  }

  /** One row's two views, from the tables. */
  method ScoreRow(rows: seq<Row>, i: nat, priors: seq<int>, all: seq<int>, before: nat, total: nat, window: int,
      burst: int)
    returns (s: Scored)
    requires i < |rows|
    requires var key := IpKey(rows[i].ip); key != "" ==> priors == Times(rows[..i], key) && all == Times(rows, key)
    requires IpKey(rows[i].ip) == "" ==> priors == [] && all == []
    requires before == |SameMail(rows, i, rows[i].canonical)| && total == |SameMail(rows, |rows|, rows[i].canonical)|
    ensures s == Views(rows, i, window, burst)
  {
    var row := rows[i];
    var links := CountWhere(priors, t => row.createdAt - t <= window);
    var bursts := CountWhere(priors, t => row.createdAt - t <= burst);
    var finalLinks := CountWhere(all, t => OtherTime(row, window, t));
    var finalBursts := CountWhere(all, t => OtherTime(row, burst, t));
    if IpKey(row.ip) != "" {
      PriorCount(rows, i, window);
      PriorCount(rows, i, burst);
      OtherCount(rows, i, window);
      OtherCount(rows, i, burst);
    } else {
      NoAddress(rows, i, window);
      NoAddress(rows, i, burst);
    }
    s := Scored(Features(before, links, bursts), Features(total - 1, finalLinks, finalBursts));
    hide *;
  }

  lemma MailPrefix(rows: seq<Row>, i: nat, c: string)
    requires i <= |rows|
    ensures SameMail(rows[..i], i, c) == SameMail(rows, i, c)
  {
  }

  lemma TimesFound(table: map<string, seq<int>>, rows: seq<Row>, key: string)
    requires TimesTable(table, rows) && key != ""
    ensures Times(rows, key) == if key in table then table[key] else []
  {
  }

  lemma MailCount(table: map<string, nat>, rows: seq<Row>, c: string)
    requires MailTable(table, rows)
    ensures |SameMail(rows, |rows|, c)| == if c in table then table[c] else 0
  {
  }

  /** `scoreAll`: one pass with growing tables gives every row the plain counts. */
  method ScoreAll(rows: seq<Row>, window: int, burst: int) returns (out: seq<Scored>)
    ensures |out| == |rows|
    ensures forall i :: 0 <= i < |rows| ==> out[i] == Views(rows, i, window, burst)
    ensures forall i :: 0 <= i < |rows| ==>
      && out[i].signup.collisions == |SameMail(rows, i, rows[i].canonical)|
      && out[i].signup.links == |Priors(rows, i, window)| && out[i].signup.bursts == |Priors(rows, i, burst)|
      && out[i].final.collisions == |SameMail(rows, |rows|, rows[i].canonical)| - 1
      && out[i].final.links == |Others(rows, i, window)| && out[i].final.bursts == |Others(rows, i, burst)|
  {
    hide *;
    var byIp, totals := Totals(rows);
    var priorByIp: map<string, seq<int>>, seen: map<string, nat> := map[], map[];
    NoTables(rows);
    out := [];
    for i := 0 to |rows|
      invariant |out| == i
      invariant TimesTable(priorByIp, rows[..i]) && MailTable(seen, rows[..i])
      invariant forall k :: 0 <= k < i ==> out[k] == Views(rows, k, window, burst)
    {
      var s;
      s, priorByIp, seen := ScoreNext(rows, i, byIp, totals, priorByIp, seen, window, burst);
      out := out + [s];
    }
    ViewsAre(rows, window, burst);
  }

  lemma NoTables(rows: seq<Row>)
    ensures TimesTable(map[], rows[..0]) && MailTable(map[], rows[..0])
  {
    assert rows[..0] == [];
  }

  lemma ViewsAre(rows: seq<Row>, window: int, burst: int)
    ensures forall i :: 0 <= i < |rows| ==>
      var v := Views(rows, i, window, burst);
      && v.signup.collisions == |SameMail(rows, i, rows[i].canonical)|
      && v.signup.links == |Priors(rows, i, window)| && v.signup.bursts == |Priors(rows, i, burst)|
      && v.final.collisions == |SameMail(rows, |rows|, rows[i].canonical)| - 1
      && v.final.links == |Others(rows, i, window)| && v.final.bursts == |Others(rows, i, burst)|
  {
    hide SameMail, Priors, Others;
  }

  /** One turn of the scoring loop: score the row, then enter it in the running tables. */
  method ScoreNext(rows: seq<Row>, i: nat, byIp: map<string, seq<int>>, totals: map<string, nat>,
                   priorByIp: map<string, seq<int>>, seen: map<string, nat>, window: int, burst: int)
    returns (s: Scored, priorByIp': map<string, seq<int>>, seen': map<string, nat>)
    requires i < |rows| && TimesTable(byIp, rows) && MailTable(totals, rows)
    requires TimesTable(priorByIp, rows[..i]) && MailTable(seen, rows[..i])
    ensures s == Views(rows, i, window, burst)
    ensures TimesTable(priorByIp', rows[..i + 1]) && MailTable(seen', rows[..i + 1])
  {
    hide Views, IpKey, Times, SameMail, TimesTable, MailTable;
    var row := rows[i];
    var key := IpKey(row.ip);
    var priors, all := Look(key, rows, i, byIp, priorByIp);
    var before := if row.canonical in seen then seen[row.canonical] else 0;
    var total := if row.canonical in totals then totals[row.canonical] else 1;
    MailLook(rows, i, totals, seen);
    s := ScoreRow(rows, i, priors, all, before, total, window, burst);
    assert rows[..i + 1] == rows[..i] + [row];
    TimesAdd(priorByIp, rows[..i], row);
    MailAdd(seen, rows[..i], row);
    if key != "" { TimesFound(priorByIp, rows[..i], key); }
    priorByIp' := if key != "" then priorByIp[key := priors + [row.createdAt]] else priorByIp;
    seen' := seen[row.canonical := before + 1];
  }

  /** The two lists of the row's address. */
  method Look(key: string, rows: seq<Row>, i: nat, byIp: map<string, seq<int>>, priorByIp: map<string, seq<int>>)
    returns (priors: seq<int>, all: seq<int>)
    requires i < |rows| && TimesTable(byIp, rows) && TimesTable(priorByIp, rows[..i])
    ensures key != "" ==> priors == Times(rows[..i], key) && all == Times(rows, key)
    ensures key == "" ==> priors == [] && all == []
    ensures key != "" ==> priors == if key in priorByIp then priorByIp[key] else []
  {
    hide Times;
    priors := if key != "" && key in priorByIp then priorByIp[key] else [];
    all := if key != "" && key in byIp then byIp[key] else [];
  }

  lemma MailLook(rows: seq<Row>, i: nat, totals: map<string, nat>, seen: map<string, nat>)
    requires i < |rows| && MailTable(totals, rows) && MailTable(seen, rows[..i])
    ensures var c := rows[i].canonical;
      && |SameMail(rows, i, c)| == (if c in seen then seen[c] else 0)
      && |SameMail(rows, |rows|, c)| == (if c in totals then totals[c] else 1)
  {
    var c := rows[i].canonical;
    MailFound(rows, i, totals);
    MailPrefix(rows, i, c);
    hide SameMail, MailTable;
    MailCount(seen, rows[..i], c);
    MailCount(totals, rows, c);
  }

  lemma MailFound(rows: seq<Row>, i: nat, table: map<string, nat>)
    requires i < |rows| && MailTable(table, rows)
    ensures rows[i].canonical in table
  {
    assert i in SameMail(rows, |rows|, rows[i].canonical);
  }

  // --------------------------------------------------------------- no look-ahead

  /** What a row scores at signup is decided by the rows up to it. */
  lemma NoLookAhead(rows: seq<Row>, n: nat, i: nat, window: int, burst: int)
    requires i < n <= |rows|
    ensures AtSignup(rows[..n], i, window, burst) == AtSignup(rows, i, window, burst)
  {
    assert Priors(rows[..n], i, window) == Priors(rows, i, window);
    assert Priors(rows[..n], i, burst) == Priors(rows, i, burst);
    assert SameMail(rows[..n], i, rows[i].canonical) == SameMail(rows, i, rows[i].canonical);
    hide IpKey;
  }

  // --------------------------------------------------------------- the two views

  /** Earlier accounts of the same address created at the very same instant. */
  function Twins(rows: seq<Row>, i: nat): set<nat>
    requires i < |rows|
  {
    set j | 0 <= j < i && SameIp(rows, i, j) && rows[j].createdAt == rows[i].createdAt
  }

  function Later(rows: seq<Row>, i: nat, w: int): set<nat>
    requires i < |rows|
  {
    set j | i < j < |rows| && SameIp(rows, i, j) && rows[j].createdAt != rows[i].createdAt
            && rows[j].createdAt - rows[i].createdAt <= w
  }

  lemma DisjointSize(a: set<nat>, b: set<nat>)
    requires a !! b
    ensures |a + b| == |a| + |b|
  {
  }

  lemma ViewsCover(rows: seq<Row>, i: nat, w: nat, j: nat)
    requires i < |rows| && Sorted(rows)
    ensures j in Others(rows, i, w) || j in Twins(rows, i) <==> j in Priors(rows, i, w) || j in Later(rows, i, w)
    ensures !(j in Others(rows, i, w) && j in Twins(rows, i)) && !(j in Priors(rows, i, w) && j in Later(rows, i, w))
  {
    hide SameIp;
    if j < i { assert rows[j].createdAt <= rows[i].createdAt; }
    if i < j < |rows| { assert rows[i].createdAt <= rows[j].createdAt; }
    assert SameIp(rows, i, i) ==> i !in Others(rows, i, w);
  }

  /** The final count is the signup count, less the twins, and the later accounts. */
  lemma ViewsBalance(rows: seq<Row>, i: nat, w: nat)
    requires i < |rows| && Sorted(rows)
    ensures |Others(rows, i, w)| + |Twins(rows, i)| == |Priors(rows, i, w)| + |Later(rows, i, w)|
  {
    hide Others, Twins, Priors, Later, Sorted;
    var others, twins, priors, later := Others(rows, i, w), Twins(rows, i), Priors(rows, i, w), Later(rows, i, w);
    forall j: nat
      ensures j in others + twins <==> j in priors + later
      ensures !(j in others && j in twins) && !(j in priors && j in later)
    {
      ViewsCover(rows, i, w, j);
    }
    assert others + twins == priors + later;
    DisjointSize(others, twins);
    DisjointSize(priors, later);
  }

  /**
   * A count of the signup view is at most the final one exactly if the earlier accounts of
   * the same instant do not outnumber the later accounts in the window.
   */
  lemma SignupBelowFinalIff(rows: seq<Row>, i: nat, w: nat)
    requires i < |rows| && Sorted(rows)
    ensures |Priors(rows, i, w)| <= |Others(rows, i, w)| <==> |Twins(rows, i)| <= |Later(rows, i, w)|
  {
    ViewsBalance(rows, i, w);
  }

  predicate DistinctPerIp(rows: seq<Row>) {
    forall i, j :: 0 <= j < i < |rows| && SameIp(rows, i, j) ==> rows[i].createdAt != rows[j].createdAt
  }

  /** With distinct times per address, no count of the signup view exceeds the final one. */
  lemma SignupBelowFinal(rows: seq<Row>, i: nat, window: nat, burst: nat)
    requires i < |rows| && Sorted(rows) && DistinctPerIp(rows)
    ensures var s, f := AtSignup(rows, i, window, burst), AtEnd(rows, i, window, burst);
      s.links <= f.links && s.bursts <= f.bursts && s.collisions <= f.collisions
  {
    assert Twins(rows, i) == {} by { hide IpKey; }
    SignupBelowFinalIff(rows, i, window);
    SignupBelowFinalIff(rows, i, burst);
    var c := rows[i].canonical;
    assert SameMail(rows, i, c) + {i} <= SameMail(rows, |rows|, c);
    hide Twins, Priors, Others, Later, SameMail;
    SubsetSize(SameMail(rows, i, c) + {i}, SameMail(rows, |rows|, c));
    assert i !in SameMail(rows, i, c) by { NotItself(rows, i, c); }
  }

  lemma NotItself(rows: seq<Row>, i: nat, c: string)
    requires i < |rows|
    ensures i !in SameMail(rows, i, c)
  {
  }

  /** Two accounts of one address at one instant: the second has a link at signup and none in the end. */
  lemma TwinsAreForgotten(a: string, b: string, ip: string, t: int, w: nat)
    requires IpKey(ip) != ""
    ensures var rows := [Row(a, t, ip), Row(b, t, ip)];
      |Priors(rows, 1, w)| == 1 && |Others(rows, 1, w)| == 0
  {
    var rows := [Row(a, t, ip), Row(b, t, ip)];
    assert Priors(rows, 1, w) == {0};
    assert Others(rows, 1, w) == {};
  }
}
