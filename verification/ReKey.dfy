/**
 * Re-keying model ids from provider slugs to UUIDs: what a reference resolves to, the
 * states a run can be stopped in, and what a run leaves behind.
 */
module ReKey {
  import opened Prelude

  predicate IsHex(c: char) {
    '0' <= c <= '9' || 'a' <= c <= 'f' || 'A' <= c <= 'F'
  }

  predicate IsUuid(s: string) {
    |s| == 36 && forall i :: 0 <= i < 36 ==>
      if i == 8 || i == 13 || i == 18 || i == 23 then s[i] == '-' else IsHex(s[i])
  }

  predicate AllHex(s: string, n: nat) {
    |s| == n && forall i :: 0 <= i < n ==> s[i] in "0123456789abcdefABCDEF"
  }

  lemma HexDigits()
    ensures forall c: char :: c in "0123456789abcdefABCDEF" <==> IsHex(c)
  {
  }

  /** Five groups of 8, 4, 4, 4 and 12 hexadecimal digits with dashes between are a UUID. */
  lemma UuidOf(a: string, b: string, c: string, d: string, e: string)
    requires AllHex(a, 8) && AllHex(b, 4) && AllHex(c, 4) && AllHex(d, 4) && AllHex(e, 12)
    ensures IsUuid(a + "-" + b + "-" + c + "-" + d + "-" + e)
  {
    HexDigits();
    var s := a + "-" + b + "-" + c + "-" + d + "-" + e;
    forall i | 0 <= i < 36
      ensures if i == 8 || i == 13 || i == 18 || i == 23 then s[i] == '-' else IsHex(s[i])
    {
      assert s[i] == if i < 8 then a[i] else if i == 8 then '-' else if i < 13 then b[i - 9] else if i == 13 then '-'
        else if i < 18 then c[i - 14] else if i == 18 then '-' else if i < 23 then d[i - 19] else if i == 23 then '-'
        else e[i - 24];
    }
  }

  /** And nothing else is. */
  lemma UuidParts(s: string) returns (a: string, b: string, c: string, d: string, e: string)
    requires IsUuid(s)
    ensures AllHex(a, 8) && AllHex(b, 4) && AllHex(c, 4) && AllHex(d, 4) && AllHex(e, 12)
    ensures s == a + "-" + b + "-" + c + "-" + d + "-" + e
  {
    HexDigits();
    a, b, c, d, e := s[..8], s[9..13], s[14..18], s[19..23], s[24..];
  }

  /** A row of `model_definitions`; `upstream` stands for everything a re-key does not touch. */
  datatype Model = Model(id: string, aliases: seq<string>, upstream: string)

  /** An entry of the visible list: an id, or something that is not a string. */
  datatype Entry = Id(id: string) | Junk

  /** A usage event; no model if its metadata has none that is a string. */
  datatype Event = Event(id: string, model: Option<string>)

  /** `columns` holds the eight by-value columns, `visible` the parsed allowlist if there is one. */
  datatype Db = Db(models: seq<Model>, columns: seq<seq<string>>, visible: Option<seq<Entry>>, usage: seq<Event>)

  // ---------------------------------------------------------------- resolution

  /** The alias table is filled row by row, so the last row with an alias wins. */
  function LastAlias(models: seq<Model>, ref: string): Option<nat> {
    if models == [] then None
    else if ref in models[|models| - 1].aliases then Some(|models| - 1)
    else LastAlias(models[..|models| - 1], ref)
  }

  function IdAt(models: seq<Model>, ref: string): (k: Option<nat>)
    ensures k.Some? ==> k.value < |models| && models[k.value].id == ref
    ensures k.None? ==> forall i :: 0 <= i < |models| ==> models[i].id != ref
  {
    if models == [] then None
    else if models[0].id == ref then Some(0)
    else match IdAt(models[1..], ref) case None => None case Some(k) => Some(k + 1)
  }

  /** The row an id or alias means. */
  function Resolve(models: seq<Model>, ref: string): Option<nat> {
    match LastAlias(models, ref) case Some(k) => Some(k) case None => IdAt(models, ref)
  }

  lemma {:induction false} LastAliasIs(models: seq<Model>, ref: string, i: nat)
    requires i < |models| && ref in models[i].aliases
    requires forall j :: 0 <= j < |models| && j != i ==> ref !in models[j].aliases
    ensures LastAlias(models, ref) == Some(i)
    decreases |models|
  {
    if i < |models| - 1 {
      LastAliasIs(models[..|models| - 1], ref, i);
    }
  }

  lemma {:induction false} LastAliasNone(models: seq<Model>, ref: string)
    requires forall j :: 0 <= j < |models| ==> ref !in models[j].aliases
    ensures LastAlias(models, ref) == None
    decreases |models|
  {
    if models != [] {
      LastAliasNone(models[..|models| - 1], ref);
    }
  }

  lemma {:induction false} LastAliasSame(a: seq<Model>, b: seq<Model>, ref: string)
    requires |a| == |b| && forall j :: 0 <= j < |a| ==> (ref in a[j].aliases <==> ref in b[j].aliases)
    ensures LastAlias(a, ref) == LastAlias(b, ref)
    decreases |a|
  {
    if a != [] {
      LastAliasSame(a[..|a| - 1], b[..|b| - 1], ref);
    }
  }

  lemma {:induction false} IdAtIs(models: seq<Model>, ref: string, i: nat)
    requires i < |models| && models[i].id == ref
    requires forall j :: 0 <= j < |models| && j != i ==> models[j].id != ref
    ensures IdAt(models, ref) == Some(i)
  {
    if i > 0 {
      IdAtIs(models[1..], ref, i - 1);
    }
  }

  lemma {:induction false} IdAtSame(a: seq<Model>, b: seq<Model>, ref: string)
    requires |a| == |b| && forall j :: 0 <= j < |a| ==> (a[j].id == ref <==> b[j].id == ref)
    ensures IdAt(a, ref) == IdAt(b, ref)
  {
    if a != [] {
      IdAtSame(a[1..], b[1..], ref);
    }
  }

  // ------------------------------------------------------- the states of a run

  datatype Swap = Swap(oldId: string, newId: string)

  /** `planSwaps`: the rows not keyed by a UUID; `uuid` is the generated UUID of each. */
  function PlanOf(models: seq<Model>, uuid: string -> string): seq<Swap> {
    if models == [] then []
    else (if IsUuid(models[0].id) then [] else [Swap(models[0].id, uuid(models[0].id))]) + PlanOf(models[1..], uuid)
  }

  function OldIds(plan: seq<Swap>): set<string> {
    set s | s in plan :: s.oldId
  }

  /** `Array.from(new Set(…))`: every value once, where it stands first. */
  function Once(s: seq<string>): (r: seq<string>)
    ensures forall x :: x in r <==> x in s
  {
    if s == [] then []
    else
      var n := |s| - 1;
      assert s == s[..n] + [s[n]];
      if s[n] in s[..n] then Once(s[..n]) else Once(s[..n]) + [s[n]]
  }

  function WithAlias(aliases: seq<string>, a: string): (r: seq<string>)
    ensures forall x :: x in r <==> x in aliases || x == a
  {
    Once(aliases + [a])
  }

  lemma {:induction false} OnceCounts(s: seq<string>, x: string)
    ensures multiset(Once(s))[x] == if x in s then 1 else 0
  {
    if s != [] {
      var n := |s| - 1;
      OnceCounts(s[..n], x);
      assert s == s[..n] + [s[n]];
      OnceMore(Once(s[..n]), s[n], x);
    }
  }

  lemma OnceMore(s: seq<string>, y: string, x: string)
    ensures multiset(s + [y])[x] == multiset(s)[x] + if x == y then 1 else 0
  {
  }

  /** Every alias there was and the new one are there exactly once, and nothing else is. */
  lemma AliasOnce(aliases: seq<string>, a: string, b: string)
    ensures multiset(WithAlias(aliases, a))[b] == if b in aliases || b == a then 1 else 0
  {
    OnceCounts(aliases + [a], b);
  }

  function Renamed(v: string, swapped: set<string>, uuid: string -> string): string {
    if v in swapped then uuid(v) else v
  }

  function RenamedEach(vs: seq<string>, swapped: set<string>, uuid: string -> string): seq<string> {
    seq(|vs|, i requires 0 <= i < |vs| => Renamed(vs[i], swapped, uuid))
  }

  function ReKeyed(m: Model, swapped: set<string>, uuid: string -> string): Model {
    if m.id in swapped then Model(uuid(m.id), WithAlias(m.aliases, m.id), m.upstream) else m
  }

  function ModelsAfter(models: seq<Model>, swapped: set<string>, uuid: string -> string): seq<Model> {
    seq(|models|, i requires 0 <= i < |models| => ReKeyed(models[i], swapped, uuid))
  }

  function ColumnsAfter(columns: seq<seq<string>>, swapped: set<string>, uuid: string -> string): seq<seq<string>> {
    seq(|columns|, c requires 0 <= c < |columns| => RenamedEach(columns[c], swapped, uuid))
  }

  function RenamedEntry(e: Entry, swapped: set<string>, uuid: string -> string): Entry {
    match e case Id(id) => Id(Renamed(id, swapped, uuid)) case Junk => Junk
  }

  function VisibleAfter(visible: Option<seq<Entry>>, swapped: set<string>, uuid: string -> string): Option<seq<Entry>> {
    match visible
    case None => None
    case Some(es) => Some(seq(|es|, i requires 0 <= i < |es| => RenamedEntry(es[i], swapped, uuid)))
  }

  function RenamedEvent(e: Event, swapped: set<string>, uuid: string -> string): Event {
    if e.model.Some? then Event(e.id, Some(Renamed(e.model.value, swapped, uuid))) else e
  }

  /** The first `n` usage events rewritten. */
  function UsageAfter(usage: seq<Event>, n: nat, swapped: set<string>, uuid: string -> string): seq<Event> {
    seq(|usage|, i requires 0 <= i < |usage| => if i < n then RenamedEvent(usage[i], swapped, uuid) else usage[i])
  }

  /**
   * The database after some of the rows were re-keyed, the visible list rewritten or not,
   * and the first `n` usage events visited.
   */
  function At(db: Db, swapped: set<string>, seen: bool, n: nat, uuid: string -> string): Db {
    Db(ModelsAfter(db.models, swapped, uuid),
       ColumnsAfter(db.columns, swapped, uuid),
       if seen then VisibleAfter(db.visible, swapped, uuid) else db.visible,
       UsageAfter(db.usage, n, swapped, uuid))
  }

  function Slugs(db: Db): set<string> {
    set m | m in db.models && !IsUuid(m.id) :: m.id
  }

  function Finished(db: Db, uuid: string -> string): Db {
    At(db, Slugs(db), true, |db.usage|, uuid)
  }

  // ------------------------------------------------------------- what is assumed

  predicate DistinctIds(models: seq<Model>) {
    forall i, j :: 0 <= i < j < |models| ==> models[i].id != models[j].id
  }

  predicate DistinctEvents(usage: seq<Event>) {
    forall i, j :: 0 <= i < j < |usage| ==> usage[i].id != usage[j].id
  }

  /** Ids are keys, and no slug to be re-keyed is an alias of another row. */
  predicate Sound(db: Db) {
    && DistinctIds(db.models)
    && DistinctEvents(db.usage)
    && forall i, j :: 0 <= i < |db.models| && 0 <= j < |db.models| && i != j && !IsUuid(db.models[i].id) ==>
         db.models[i].id !in db.models[j].aliases
  }

  predicate Mentions(db: Db, v: string) {
    || (exists i :: 0 <= i < |db.models| && (db.models[i].id == v || v in db.models[i].aliases))
    || (exists c :: 0 <= c < |db.columns| && v in db.columns[c])
    || (db.visible.Some? && Id(v) in db.visible.value)
    || (exists i :: 0 <= i < |db.usage| && db.usage[i].model == Some(v))
  }

  /** The generated ids are UUIDs, new to the database, and different for different rows. */
  ghost predicate Generated(db: Db, uuid: string -> string) {
    && (forall x :: x in Slugs(db) ==> IsUuid(uuid(x)) && !Mentions(db, uuid(x)))
    && (forall x, y :: x in Slugs(db) && y in Slugs(db) && x != y ==> uuid(x) != uuid(y))
  }

  // --------------------------------------------------------- resolution is kept

  lemma AliasesAfter(m: Model, swapped: set<string>, uuid: string -> string, ref: string)
    ensures ref in ReKeyed(m, swapped, uuid).aliases <==> ref in m.aliases || (m.id in swapped && ref == m.id)
  {
  }

  lemma RowOfSlug(db: Db, x: string) returns (i: nat)
    requires Sound(db) && x in Slugs(db)
    ensures i < |db.models| && db.models[i].id == x
    ensures forall j :: 0 <= j < |db.models| && j != i ==> db.models[j].id != x && x !in db.models[j].aliases
    ensures Resolve(db.models, x) == Some(i)
  {
    var m :| m in db.models && m.id == x;
    i :| 0 <= i < |db.models| && db.models[i] == m;
    if x in m.aliases {
      LastAliasIs(db.models, x, i);
    } else {
      LastAliasNone(db.models, x);
      IdAtIs(db.models, x, i);
    }
  }

  /** A slug already re-keyed still means its row, through the alias left behind. */
  lemma SlugResolves(db: Db, swapped: set<string>, uuid: string -> string, x: string)
    requires Sound(db) && swapped <= Slugs(db) && x in swapped
    ensures Resolve(ModelsAfter(db.models, swapped, uuid), x) == Resolve(db.models, x)
  {
    var i := RowOfSlug(db, x);
    var after := ModelsAfter(db.models, swapped, uuid);
    forall j | 0 <= j < |after| ensures x in after[j].aliases <==> j == i {
      AliasesAfter(db.models[j], swapped, uuid, x);
    }
    hide Slugs, Sound, ModelsAfter, ReKeyed;
    LastAliasIs(after, x, i);
  }

  /** A generated id means the row it was generated for. */
  lemma FreshResolves(db: Db, swapped: set<string>, uuid: string -> string, x: string)
    requires Sound(db) && Generated(db, uuid) && swapped <= Slugs(db) && x in swapped
    ensures Resolve(ModelsAfter(db.models, swapped, uuid), uuid(x)) == Resolve(db.models, x)
  {
    var i := RowOfSlug(db, x);
    var after, v := ModelsAfter(db.models, swapped, uuid), uuid(x);
    assert !Mentions(db, v) && IsUuid(v);
    forall j | 0 <= j < |after| ensures v !in after[j].aliases && (after[j].id == v <==> j == i) {
      AliasesAfter(db.models[j], swapped, uuid, v);
      assert db.models[j].id in swapped ==> !IsUuid(db.models[j].id);
      assert db.models[j].id != v && v !in db.models[j].aliases;
      if j != i && db.models[j].id in swapped { assert uuid(db.models[j].id) != v; }
    }
    hide Slugs, Sound, ModelsAfter, ReKeyed, Mentions, Generated, IsUuid;
    LastAliasNone(after, v);
    IdAtIs(after, v, i);
  }

  /** Anything else means what it meant. */
  lemma OthersResolve(db: Db, swapped: set<string>, uuid: string -> string, ref: string)
    requires ref !in swapped && forall x :: x in swapped ==> uuid(x) != ref
    ensures Resolve(ModelsAfter(db.models, swapped, uuid), ref) == Resolve(db.models, ref)
  {
    var after := ModelsAfter(db.models, swapped, uuid);
    forall j | 0 <= j < |after|
      ensures (ref in after[j].aliases <==> ref in db.models[j].aliases)
        && (after[j].id == ref <==> db.models[j].id == ref)
    {
      AliasesAfter(db.models[j], swapped, uuid, ref);
    }
    hide ModelsAfter, ReKeyed;
    LastAliasSame(after, db.models, ref);
    IdAtSame(after, db.models, ref);
  }

  /** In every state of a run, each id and alias of old means what it meant. */
  lemma OldNamesResolve(db: Db, swapped: set<string>, uuid: string -> string, ref: string)
    requires Sound(db) && Generated(db, uuid) && swapped <= Slugs(db) && Mentions(db, ref)
    ensures Resolve(ModelsAfter(db.models, swapped, uuid), ref) == Resolve(db.models, ref)
  {
    if ref in swapped {
      SlugResolves(db, swapped, uuid, ref);
    } else {
      OthersResolve(db, swapped, uuid, ref);
    }
  }

  lemma RenamedResolves(db: Db, swapped: set<string>, uuid: string -> string, v: string)
    requires Sound(db) && Generated(db, uuid) && swapped <= Slugs(db) && Mentions(db, v)
    ensures Resolve(ModelsAfter(db.models, swapped, uuid), Renamed(v, swapped, uuid)) == Resolve(db.models, v)
  {
    if v in swapped {
      FreshResolves(db, swapped, uuid, v);
    } else {
      OldNamesResolve(db, swapped, uuid, v);
    }
  }

  /** Every stored reference of `b` means the row the same reference of `a` means. */
  ghost predicate SameMeaning(a: Db, b: Db) {
    && |b.models| == |a.models| && (forall i :: 0 <= i < |a.models| ==> b.models[i].upstream == a.models[i].upstream)
    && ColumnsAgree(a, b) && VisibleAgrees(a, b) && UsageAgrees(a, b)
  }

  predicate SameEntry(a: Db, b: Db, e: Entry, f: Entry) {
    match e case Junk => f == Junk case Id(v) => f.Id? && Resolve(b.models, f.id) == Resolve(a.models, v)
  }

  predicate SameEvent(a: Db, b: Db, e: Event, f: Event) {
    f.id == e.id && match e.model case None => f.model == None
                                   case Some(v) =>
                                     f.model.Some? && Resolve(b.models, f.model.value) == Resolve(a.models, v)
  }

  /** What the parts of a state need to be read by: the names of old resolve, renamed or not. */
  ghost predicate Means(a: Db, b: Db, swapped: set<string>, uuid: string -> string) {
    forall ref :: Mentions(a, ref) ==>
      Resolve(b.models, ref) == Resolve(a.models, ref) == Resolve(b.models, Renamed(ref, swapped, uuid))
  }

  ghost predicate ColumnsAgree(a: Db, b: Db) {
    && |b.columns| == |a.columns|
    && (forall c :: 0 <= c < |a.columns| ==> |b.columns[c]| == |a.columns[c]|)
    && forall c, i :: 0 <= c < |a.columns| && 0 <= i < |a.columns[c]| ==>
         Resolve(b.models, b.columns[c][i]) == Resolve(a.models, a.columns[c][i])
  }

  lemma ColumnsMean(a: Db, b: Db, swapped: set<string>, uuid: string -> string)
    requires Means(a, b, swapped, uuid) && b.columns == ColumnsAfter(a.columns, swapped, uuid)
    ensures ColumnsAgree(a, b)
  {
    hide Resolve, Renamed;
    forall c, i | 0 <= c < |a.columns| && 0 <= i < |a.columns[c]|
      ensures Resolve(b.models, b.columns[c][i]) == Resolve(a.models, a.columns[c][i])
    {
      assert a.columns[c][i] in a.columns[c];
      assert Mentions(a, a.columns[c][i]);
      assert b.columns[c][i] == Renamed(a.columns[c][i], swapped, uuid);
    }
  }

  ghost predicate VisibleAgrees(a: Db, b: Db) {
    && b.visible.Some? == a.visible.Some?
    && (a.visible.Some? ==> |b.visible.value| == |a.visible.value|)
    && (a.visible.Some? ==>
          forall i :: 0 <= i < |a.visible.value| ==> SameEntry(a, b, a.visible.value[i], b.visible.value[i]))
  }

  lemma VisibleMeans(a: Db, b: Db, swapped: set<string>, uuid: string -> string)
    requires Means(a, b, swapped, uuid)
    requires b.visible == a.visible || b.visible == VisibleAfter(a.visible, swapped, uuid)
    ensures VisibleAgrees(a, b)
  {
    hide Resolve, Renamed;
    if a.visible.Some? {
      forall i | 0 <= i < |a.visible.value| ensures SameEntry(a, b, a.visible.value[i], b.visible.value[i]) {
        var e := a.visible.value[i];
        if e.Id? {
          assert Id(e.id) in a.visible.value;
          assert Mentions(a, e.id);
        }
      }
    }
  }

  ghost predicate UsageAgrees(a: Db, b: Db) {
    |b.usage| == |a.usage| && forall i :: 0 <= i < |a.usage| ==> SameEvent(a, b, a.usage[i], b.usage[i])
  }

  lemma UsageMeans(a: Db, b: Db, swapped: set<string>, n: nat, uuid: string -> string)
    requires Means(a, b, swapped, uuid) && b.usage == UsageAfter(a.usage, n, swapped, uuid)
    ensures UsageAgrees(a, b)
  {
    hide Resolve, Renamed;
    forall i | 0 <= i < |a.usage| ensures SameEvent(a, b, a.usage[i], b.usage[i]) {
      var e := a.usage[i];
      if e.model.Some? {
        assert a.usage[i].model == Some(e.model.value);
        assert Mentions(a, e.model.value);
      }
    }
  }

  /**
   * Wherever a run stops, every stored reference still means the same model, and so does
   * every id and alias a client may have kept.
   */
  lemma StoppedRunKeepsMeaning(db: Db, swapped: set<string>, seen: bool, n: nat, uuid: string -> string)
    requires Sound(db) && Generated(db, uuid) && swapped <= Slugs(db)
    ensures SameMeaning(db, At(db, swapped, seen, n, uuid))
    ensures forall ref :: Mentions(db, ref) ==>
      Resolve(At(db, swapped, seen, n, uuid).models, ref) == Resolve(db.models, ref)
  {
    var b := At(db, swapped, seen, n, uuid);
    assert Means(db, b, swapped, uuid) by {
      hide Resolve, Sound, Generated, Slugs, ReKeyed, ModelsAfter, Renamed, Mentions;
      forall ref | Mentions(db, ref)
        ensures Resolve(b.models, ref) == Resolve(db.models, ref) == Resolve(b.models, Renamed(ref, swapped, uuid))
      {
        OldNamesResolve(db, swapped, uuid, ref);
        RenamedResolves(db, swapped, uuid, ref);
      }
    }
    assert |b.models| == |db.models|;
    assert forall i :: 0 <= i < |db.models| ==> b.models[i].upstream == db.models[i].upstream;
    hide Resolve, Sound, Generated, Slugs, ModelsAfter, ColumnsAfter, VisibleAfter, UsageAfter, Mentions, ColumnsAgree,
      VisibleAgrees, UsageAgrees;
    ColumnsMean(db, b, swapped, uuid);
    VisibleMeans(db, b, swapped, uuid);
    UsageMeans(db, b, swapped, n, uuid);
  }

  // ------------------------------------------------------ in whatever order rows load

  predicate Aliased(models: seq<Model>, ref: string) {
    exists j :: 0 <= j < |models| && ref in models[j].aliases
  }

  /** Row `i` is what a reference means under some load order. */
  predicate CanMean(models: seq<Model>, ref: string, i: nat) {
    i < |models| && if Aliased(models, ref) then ref in models[i].aliases else models[i].id == ref
  }

  /** The rows as the registry happens to load them. */
  function Loaded(models: seq<Model>, order: seq<nat>): seq<Model>
    requires forall j :: 0 <= j < |order| ==> order[j] < |models|
  {
    seq(|order|, j requires 0 <= j < |order| => models[order[j]])
  }

  ghost predicate IsOrder(order: seq<nat>, n: nat) {
    && (forall j :: 0 <= j < |order| ==> order[j] < n)
    && (forall i :: 0 <= i < n ==> i in order)
  }

  lemma {:induction false} LastAliasFinds(models: seq<Model>, ref: string)
    ensures match LastAlias(models, ref)
      case None => !Aliased(models, ref)
      case Some(k) => k < |models| && ref in models[k].aliases
    decreases |models|
  {
    if models != [] {
      var n := |models| - 1;
      LastAliasFinds(models[..n], ref);
      assert forall j :: 0 <= j < n ==> models[..n][j] == models[j];
    }
  }

  /** Whatever the load order, a reference means one of the rows it can mean, or nothing if there is none. */
  lemma AnyLoadOrder(models: seq<Model>, order: seq<nat>, ref: string)
    requires IsOrder(order, |models|)
    ensures match Resolve(Loaded(models, order), ref)
      case None => forall i: nat :: !CanMean(models, ref, i)
      case Some(k) => k < |order| && CanMean(models, ref, order[k])
  {
    var loaded := Loaded(models, order);
    LastAliasFinds(loaded, ref);
    assert Aliased(loaded, ref) <==> Aliased(models, ref) by {
      if j: nat :| j < |models| && ref in models[j].aliases {
        assert j in order;
        var k :| 0 <= k < |order| && order[k] == j;
        assert ref in loaded[k].aliases;
      }
      if k: nat :| k < |loaded| && ref in loaded[k].aliases {
        assert ref in models[order[k]].aliases;
      }
    }
    forall i: nat | CanMean(models, ref, i) ensures Resolve(loaded, ref).Some? {
      assert i in order;
      var k :| 0 <= k < |order| && order[k] == i;
      assert loaded[k] == models[i];
    }
    hide LastAlias, IdAt;
  }

  lemma {:induction false} LastAliasAtEnd(models: seq<Model>, ref: string)
    requires models != [] && ref in models[|models| - 1].aliases
    ensures LastAlias(models, ref) == Some(|models| - 1)
  {
  }

  /** And each of them is what it means under some load order. */
  lemma SomeLoadOrder(models: seq<Model>, ref: string, i: nat) returns (order: seq<nat>)
    requires DistinctIds(models) && CanMean(models, ref, i)
    ensures IsOrder(order, |models|)
    ensures var k := Resolve(Loaded(models, order), ref); k.Some? && k.value < |order| && order[k.value] == i
  {
    var n := |models|;
    order := seq(n, j requires 0 <= j < n => if j == n - 1 then i else if j == i then n - 1 else j);
    forall r | 0 <= r < n ensures r in order {
      assert order[if r == i then n - 1 else if r == n - 1 then i else r] == r;
    }
    var loaded := Loaded(models, order);
    assert loaded[n - 1] == models[i];
    AnyLoadOrder(models, order, ref);
    hide LastAlias, IdAt;
    assert |loaded| == n && IsOrder(order, n);
    if ref in models[i].aliases {
      LastAliasAtEnd(loaded, ref);
    }
  }

  /** In every state of a run an old reference, renamed or not, can mean exactly the rows it could mean before. */
  lemma StoppedRunKeepsChoices(db: Db, swapped: set<string>, seen: bool, n: nat, uuid: string -> string, ref: string,
      i: nat)
    requires Sound(db) && Generated(db, uuid) && swapped <= Slugs(db) && Mentions(db, ref)
    ensures var after := At(db, swapped, seen, n, uuid).models;
      && (CanMean(after, ref, i) <==> CanMean(db.models, ref, i))
      && (CanMean(after, Renamed(ref, swapped, uuid), i) <==> CanMean(db.models, ref, i))
  {
    var after := ModelsAfter(db.models, swapped, uuid);
    if ref in swapped {
      var k := RowOfSlug(db, ref);
      OnlyMeans(db.models, ref, k);
      SlugIsAlias(db, swapped, uuid, ref, k);
      FreshIsId(db, swapped, uuid, ref, k);
      hide *;
      OnlyMeans(after, ref, k);
      OnlyMeans(after, uuid(ref), k);
      RenamedIs(swapped, uuid, ref);
    } else {
      RenamedIs(swapped, uuid, ref);
      forall j | 0 <= j < |after|
        ensures (ref in after[j].aliases <==> ref in db.models[j].aliases)
          && (after[j].id == ref <==> db.models[j].id == ref)
      {
        AliasesAfter(db.models[j], swapped, uuid, ref);
      }
      hide ModelsAfter, ReKeyed, Renamed, Mentions, Generated, Slugs, Sound;
    }
  }

  lemma RenamedIs(swapped: set<string>, uuid: string -> string, ref: string)
    ensures Renamed(ref, swapped, uuid) == if ref in swapped then uuid(ref) else ref
  {
  }

  /** A reference only one row answers to. */
  lemma OnlyMeans(models: seq<Model>, ref: string, k: nat)
    requires k < |models| && (ref in models[k].aliases || (models[k].id == ref && !Aliased(models, ref)))
    requires forall j :: 0 <= j < |models| && j != k ==> models[j].id != ref && ref !in models[j].aliases
    ensures forall i :: CanMean(models, ref, i) <==> i == k
  {
  }

  lemma SlugIsAlias(db: Db, swapped: set<string>, uuid: string -> string, x: string, k: nat)
    requires Sound(db) && Generated(db, uuid) && swapped <= Slugs(db) && x in swapped
    requires k < |db.models| && db.models[k].id == x
    requires forall j :: 0 <= j < |db.models| && j != k ==> db.models[j].id != x && x !in db.models[j].aliases
    ensures var after := ModelsAfter(db.models, swapped, uuid);
      && |after| == |db.models| && x in after[k].aliases
      && forall j :: 0 <= j < |after| && j != k ==> after[j].id != x && x !in after[j].aliases
  {
    var after := ModelsAfter(db.models, swapped, uuid);
    assert !IsUuid(x);
    forall j | 0 <= j < |after| ensures (x in after[j].aliases <==> j == k) && (j != k ==> after[j].id != x) {
      AliasesAfter(db.models[j], swapped, uuid, x);
    }
  }

  lemma FreshIsId(db: Db, swapped: set<string>, uuid: string -> string, x: string, k: nat)
    requires Sound(db) && Generated(db, uuid) && swapped <= Slugs(db) && x in swapped
    requires k < |db.models| && db.models[k].id == x
    requires forall j :: 0 <= j < |db.models| && j != k ==> db.models[j].id != x
    ensures var after, v := ModelsAfter(db.models, swapped, uuid), uuid(x);
      && |after| == |db.models| && after[k].id == v && !Aliased(after, v)
      && forall j :: 0 <= j < |after| && j != k ==> after[j].id != v && v !in after[j].aliases
  {
    var after, v := ModelsAfter(db.models, swapped, uuid), uuid(x);
    assert !Mentions(db, v) && IsUuid(v);
    forall j | 0 <= j < |after| ensures v !in after[j].aliases && (after[j].id == v <==> j == k) {
      AliasesAfter(db.models[j], swapped, uuid, v);
      assert db.models[j].id in swapped ==> !IsUuid(db.models[j].id);
      assert db.models[j].id != v && v !in db.models[j].aliases;
      if j != k && db.models[j].id in swapped { assert uuid(db.models[j].id) != v; }
    }
  }

  // ---------------------------------------------------------- what a run leaves

  predicate InColumns(db: Db, v: string) {
    exists c :: 0 <= c < |db.columns| && v in db.columns[c]
  }

  predicate InVisible(db: Db, v: string) {
    db.visible.Some? && Id(v) in db.visible.value
  }

  predicate InUsage(db: Db, v: string) {
    exists i :: 0 <= i < |db.usage| && db.usage[i].model == Some(v)
  }

  /** A name that is neither renamed nor generated stays exactly where it is. */
  lemma KeptNames(db: Db, swapped: set<string>, seen: bool, n: nat, uuid: string -> string, v: string)
    requires v !in swapped && forall x :: x in swapped ==> uuid(x) != v
    ensures InVisible(At(db, swapped, seen, n, uuid), v) <==> InVisible(db, v)
    ensures InUsage(At(db, swapped, seen, n, uuid), v) <==> InUsage(db, v)
  {
    var b := At(db, swapped, seen, n, uuid);
    assert forall w :: Renamed(w, swapped, uuid) == v <==> w == v;
    hide Renamed;
    UsageNames(db, b, swapped, n, uuid, v);
    VisibleNames(db, b, swapped, uuid, v);
  }

  lemma UsageNames(a: Db, b: Db, swapped: set<string>, n: nat, uuid: string -> string, v: string)
    requires forall w :: Renamed(w, swapped, uuid) == v <==> w == v
    requires b.usage == UsageAfter(a.usage, n, swapped, uuid)
    ensures InUsage(b, v) <==> InUsage(a, v)
  {
    hide Renamed;
    assert forall i :: 0 <= i < |a.usage| ==> (b.usage[i].model == Some(v) <==> a.usage[i].model == Some(v));
  }

  lemma VisibleNames(a: Db, b: Db, swapped: set<string>, uuid: string -> string, v: string)
    requires forall w :: Renamed(w, swapped, uuid) == v <==> w == v
    requires b.visible == a.visible || b.visible == VisibleAfter(a.visible, swapped, uuid)
    ensures InVisible(b, v) <==> InVisible(a, v)
  {
    hide Renamed;
    if a.visible.Some? {
      assert forall i :: 0 <= i < |a.visible.value| ==> (b.visible.value[i] == Id(v) <==> a.visible.value[i] == Id(v));
    }
  }

  lemma RenamedIsNoSlug(db: Db, uuid: string -> string, w: string, x: string)
    requires Generated(db, uuid) && x in Slugs(db)
    ensures Renamed(w, Slugs(db), uuid) != x
  {
  }

  /** After a full run no column, visible id or usage event holds a slug, and no row is keyed by one. */
  lemma FullRunLeavesNoSlug(db: Db, uuid: string -> string, x: string)
    requires Generated(db, uuid) && x in Slugs(db)
    ensures var b := Finished(db, uuid); !InColumns(b, x) && !InVisible(b, x) && !InUsage(b, x)
    ensures forall i :: 0 <= i < |db.models| ==> IsUuid(Finished(db, uuid).models[i].id)
  {
    var b := Finished(db, uuid);
    forall w ensures Renamed(w, Slugs(db), uuid) != x {
      RenamedIsNoSlug(db, uuid, w, x);
    }
    forall i | 0 <= i < |db.models| ensures IsUuid(b.models[i].id) {
      assert db.models[i] in db.models;
    }
    hide Renamed, Generated, Slugs, IsUuid;
  }

  lemma {:induction false} NoPlan(models: seq<Model>, uuid: string -> string)
    requires forall i :: 0 <= i < |models| ==> IsUuid(models[i].id)
    ensures PlanOf(models, uuid) == []
  {
    hide IsUuid;
    if models != [] {
      NoPlan(models[1..], uuid);
    }
  }

  lemma SlugsLeft(db: Db, swapped: set<string>, seen: bool, n: nat, uuid: string -> string, x: string)
    requires Generated(db, uuid) && swapped <= Slugs(db)
    ensures x in Slugs(At(db, swapped, seen, n, uuid)) <==> x in Slugs(db) - swapped
  {
    var b := At(db, swapped, seen, n, uuid);
    hide IsUuid, Mentions;
    forall i | 0 <= i < |db.models|
      ensures !IsUuid(b.models[i].id) <==> !IsUuid(db.models[i].id) && db.models[i].id !in swapped
      ensures db.models[i].id !in swapped ==> b.models[i].id == db.models[i].id
    {
    }
    if x in Slugs(b) {
      var i :| 0 <= i < |b.models| && b.models[i].id == x && !IsUuid(x);
      assert db.models[i] in db.models;
    }
    if x in Slugs(db) - swapped {
      var i :| 0 <= i < |db.models| && db.models[i].id == x && !IsUuid(x);
      assert b.models[i] in b.models && b.models[i].id == x;
    }
  }

  /**
   * A run stopped part way and started again: the second run has forgotten the rows
   * already re-keyed, so it leaves their slugs in the visible list and in the usage events
   * exactly where the first run had left them.
   */
  lemma SecondRunForgets(db: Db, swapped: set<string>, seen: bool, n: nat, uuid: string -> string,
      again: string -> string, x: string)
    requires Generated(db, uuid) && swapped <= Slugs(db) && x in swapped
    requires Generated(At(db, swapped, seen, n, uuid), again)
    ensures var mid := At(db, swapped, seen, n, uuid);
      && (InUsage(Finished(mid, again), x) <==> InUsage(mid, x))
      && (InVisible(Finished(mid, again), x) <==> InVisible(mid, x))
  {
    var mid := At(db, swapped, seen, n, uuid);
    SlugsLeft(db, swapped, seen, n, uuid, x);
    assert !IsUuid(x);
    assert forall y :: y in Slugs(mid) ==> again(y) != x;
    hide Generated, Slugs, At, InUsage, InVisible, IsUuid;
    KeptNames(mid, Slugs(mid), true, |mid.usage|, again, x);
  }

  /**
   * A run killed right behind its last row transaction, and restarted: every slug that a
   * visible id or usage event held is still there after the second run has finished.
   */
  lemma KilledRunForgets(db: Db, uuid: string -> string, again: string -> string, x: string)
    requires Generated(db, uuid) && x in Slugs(db)
    requires Generated(At(db, Slugs(db), false, 0, uuid), again)
    ensures var b := Finished(At(db, Slugs(db), false, 0, uuid), again);
      (InUsage(b, x) <==> InUsage(db, x)) && (InVisible(b, x) <==> InVisible(db, x))
  {
    var mid := At(db, Slugs(db), false, 0, uuid);
    assert mid.usage == db.usage && mid.visible == db.visible;
    hide At, Slugs, Generated, Finished;
    SecondRunForgets(db, Slugs(db), false, 0, uuid, again, x);
  }

  lemma SwappedLeaveColumns(db: Db, swapped: set<string>, seen: bool, n: nat, uuid: string -> string,
      again: string -> string, x: string)
    requires Generated(db, uuid) && swapped <= Slugs(db) && x in swapped
    requires Generated(At(db, swapped, seen, n, uuid), again)
    ensures !InColumns(Finished(At(db, swapped, seen, n, uuid), again), x)
  {
    var mid := At(db, swapped, seen, n, uuid);
    assert !IsUuid(x);
    assert forall w :: Renamed(w, swapped, uuid) != x;
    assert forall w :: w != x ==> Renamed(w, Slugs(mid), again) != x;
    hide Generated, Slugs, IsUuid, Renamed;
  }

  ghost predicate Clean(db: Db, xs: set<string>) {
    forall x :: x in xs ==> !InColumns(db, x) && !InVisible(db, x) && !InUsage(db, x)
  }

  /** Restarting a stopped run ends clean exactly if the first run had already rewritten its own slugs everywhere. */
  lemma RestartCleanIff(db: Db, swapped: set<string>, seen: bool, n: nat, uuid: string -> string,
      again: string -> string)
    requires Generated(db, uuid) && swapped <= Slugs(db)
    requires Generated(At(db, swapped, seen, n, uuid), again)
    ensures var mid := At(db, swapped, seen, n, uuid);
      Clean(Finished(mid, again), Slugs(db)) <==> forall x :: x in swapped ==> !InVisible(mid, x) && !InUsage(mid, x)
  {
    var mid := At(db, swapped, seen, n, uuid);
    hide Generated, Slugs, InColumns, InVisible, InUsage, At;
    forall x | x in Slugs(db)
      ensures x in swapped ==> !InColumns(Finished(mid, again), x)
      ensures x in swapped ==> (InUsage(Finished(mid, again), x) <==> InUsage(mid, x))
      ensures x in swapped ==> (InVisible(Finished(mid, again), x) <==> InVisible(mid, x))
      ensures x !in swapped ==>
        !InColumns(Finished(mid, again), x) && !InVisible(Finished(mid, again), x) && !InUsage(Finished(mid, again), x)
    {
      if x in swapped {
        SwappedLeaveColumns(db, swapped, seen, n, uuid, again, x);
        SecondRunForgets(db, swapped, seen, n, uuid, again, x);
      } else {
        SlugsLeft(db, swapped, seen, n, uuid, x);
        FullRunLeavesNoSlug(mid, again, x);
      }
    }
    hide Finished;
  }

  // --------------------------------------------------------------------- the run

  function Replaced(vs: seq<string>, s: Swap): seq<string> {
    seq(|vs|, i requires 0 <= i < |vs| => if vs[i] == s.oldId then s.newId else vs[i])
  }

  /** One row's transaction: its by-value references, its aliases and its id. */
  function SwapRow(db: Db, s: Swap): Db {
    match IdAt(db.models, s.oldId)
    case None => db
    case Some(k) =>
      db.(models := db.models[k := Model(s.newId, WithAlias(db.models[k].aliases, s.oldId), db.models[k].upstream)],
          columns := seq(|db.columns|, c requires 0 <= c < |db.columns| => Replaced(db.columns[c], s)))
  }

  lemma SwapModels(db: Db, swapped: set<string>, uuid: string -> string, x: string)
    requires Sound(db) && Generated(db, uuid) && swapped <= Slugs(db) && x in Slugs(db) - swapped
    ensures var a := ModelsAfter(db.models, swapped, uuid);
      && IdAt(a, x).Some?
      && var k := IdAt(a, x).value;
         a[k := Model(uuid(x), WithAlias(a[k].aliases, x), a[k].upstream)]
           == ModelsAfter(db.models, swapped + {x}, uuid)
  {
    hide *;
    var i := RowOfSlug(db, x);
    OneRowHas(db, swapped, uuid, x, i);
    IdAtIs(ModelsAfter(db.models, swapped, uuid), x, i);
    RowSwapped(db.models, swapped, uuid, x, i);
  }

  /** Before its turn the slug is the id of its own row and of no other. */
  lemma OneRowHas(db: Db, swapped: set<string>, uuid: string -> string, x: string, i: nat)
    requires Sound(db) && Generated(db, uuid) && swapped <= Slugs(db) && x in Slugs(db) - swapped
    requires i < |db.models| && db.models[i].id == x
    ensures var a := ModelsAfter(db.models, swapped, uuid);
      |a| == |db.models| && forall j :: 0 <= j < |a| ==> (a[j].id == x <==> j == i)
    ensures x !in swapped && forall j :: 0 <= j < |db.models| && j != i ==> db.models[j].id != x
  {
    assert !IsUuid(x) && forall y :: y in swapped ==> IsUuid(uuid(y));
    hide IsUuid, WithAlias;
  }

  lemma RowSwapped(models: seq<Model>, swapped: set<string>, uuid: string -> string, x: string, i: nat)
    requires i < |models| && x !in swapped && models[i].id == x
    requires forall j :: 0 <= j < |models| && j != i ==> models[j].id != x
    ensures var a := ModelsAfter(models, swapped, uuid);
      |a| == |models| && a[i := Model(uuid(x), WithAlias(a[i].aliases, x), a[i].upstream)]
                         == ModelsAfter(models, swapped + {x}, uuid)
  {
    hide WithAlias;
    var a := ModelsAfter(models, swapped, uuid);
    assert a[i] == models[i];
    forall j | 0 <= j < |a| && j != i ensures a[j] == ReKeyed(models[j], swapped + {x}, uuid) {
    }
  }

  lemma SwapColumns(db: Db, swapped: set<string>, uuid: string -> string, x: string)
    requires Generated(db, uuid) && swapped <= Slugs(db) && x in Slugs(db) - swapped
    ensures var a := ColumnsAfter(db.columns, swapped, uuid);
      seq(|a|, c requires 0 <= c < |a| => Replaced(a[c], Swap(x, uuid(x))))
        == ColumnsAfter(db.columns, swapped + {x}, uuid)
  {
    assert !IsUuid(x) && forall y :: y in swapped ==> IsUuid(uuid(y));
    hide Generated, Slugs, IsUuid;
    var a := ColumnsAfter(db.columns, swapped, uuid);
    forall c | 0 <= c < |a|
      ensures Replaced(a[c], Swap(x, uuid(x))) == RenamedEach(db.columns[c], swapped + {x}, uuid)
    {
    }
  }

  lemma SwapStep(db: Db, swapped: set<string>, uuid: string -> string, x: string)
    requires Sound(db) && Generated(db, uuid) && swapped <= Slugs(db) && x in Slugs(db) - swapped
    ensures IdAt(At(db, swapped, false, 0, uuid).models, x).Some?
    ensures SwapRow(At(db, swapped, false, 0, uuid), Swap(x, uuid(x))) == At(db, swapped + {x}, false, 0, uuid)
  {
    SwapModels(db, swapped, uuid, x);
    SwapColumns(db, swapped, uuid, x);
    assert UsageAfter(db.usage, 0, swapped, uuid) == UsageAfter(db.usage, 0, swapped + {x}, uuid);
    hide Sound, Generated, Slugs, ModelsAfter, ColumnsAfter, IdAt;
  }

  function SlugIds(models: seq<Model>): set<string> {
    set m | m in models && !IsUuid(m.id) :: m.id
  }

  predicate Unrepeated(plan: seq<Swap>) {
    forall i, j :: 0 <= i < j < |plan| ==> plan[i].oldId != plan[j].oldId
  }

  lemma SlugIdsStep(models: seq<Model>)
    requires models != []
    ensures SlugIds(models) == SlugIds(models[1..]) + if IsUuid(models[0].id) then {} else {models[0].id}
    ensures DistinctIds(models) ==> models[0].id !in SlugIds(models[1..])
  {
    hide IsUuid;
    assert forall m :: m in models <==> m == models[0] || m in models[1..];
    forall x | x in SlugIds(models[1..]) && DistinctIds(models) ensures x != models[0].id {
      var k :| 1 <= k < |models| && models[k].id == x;
    }
  }

  lemma OldIdsStep(s: Swap, tail: seq<Swap>)
    ensures OldIds([s] + tail) == {s.oldId} + OldIds(tail)
  {
    assert forall t :: t in [s] + tail <==> t == s || t in tail;
  }

  lemma UnrepeatedStep(s: Swap, tail: seq<Swap>)
    requires s.oldId !in OldIds(tail) && Unrepeated(tail)
    ensures Unrepeated([s] + tail)
  {
    var plan := [s] + tail;
    forall i, j | 0 <= i < j < |plan| ensures plan[i].oldId != plan[j].oldId {
      assert tail[j - 1] in tail && tail[j - 1].oldId in OldIds(tail);
    }
  }

  lemma DistinctRest(models: seq<Model>)
    requires DistinctIds(models) && models != []
    ensures DistinctIds(models[1..])
  {
  }

  lemma PlanOfStep(models: seq<Model>, uuid: string -> string)
    requires models != []
    ensures var tail := PlanOf(models[1..], uuid);
      PlanOf(models, uuid) == if IsUuid(models[0].id) then tail else [Swap(models[0].id, uuid(models[0].id))] + tail
  {
    hide IsUuid;
  }

  lemma NothingPlanned(uuid: string -> string)
    ensures PlanOf([], uuid) == [] && OldIds([]) == {} && SlugIds([]) == {} && Unrepeated([])
  {
  }

  /** The plan swaps each slug-keyed row once, to the id generated for it. */
  lemma {:induction false} PlanFits(models: seq<Model>, uuid: string -> string)
    requires DistinctIds(models)
    ensures var plan := PlanOf(models, uuid);
      OldIds(plan) == SlugIds(models) && Unrepeated(plan) && forall s :: s in plan ==> s.newId == uuid(s.oldId)
  {
    if models != [] {
      hide *;
      DistinctRest(models);
      PlanFits(models[1..], uuid);
      SlugIdsStep(models);
      PlanOfStep(models, uuid);
      if !IsUuid(models[0].id) {
        var s, tail := Swap(models[0].id, uuid(models[0].id)), PlanOf(models[1..], uuid);
        OldIdsStep(s, tail);
        UnrepeatedStep(s, tail);
        assert forall t :: t in [s] + tail ==> t == s || t in tail;
      }
    } else {
      NothingPlanned(uuid);
      assert models == [];
    }
  }

  lemma OldIdsSnoc(plan: seq<Swap>, i: nat)
    requires i < |plan|
    ensures OldIds(plan[..i + 1]) == OldIds(plan[..i]) + {plan[i].oldId}
    ensures OldIds(plan[..i + 1]) <= OldIds(plan)
    ensures Unrepeated(plan) ==> plan[i].oldId !in OldIds(plan[..i])
  {
    assert plan[..i + 1] == plan[..i] + [plan[i]];
    assert forall s :: s in plan[..i + 1] <==> s in plan[..i] || s == plan[i];
    assert forall s :: s in plan[..i + 1] ==> s in plan;
  }

  lemma NothingRenamed(db: Db, uuid: string -> string)
    ensures At(db, {}, false, 0, uuid) == db
    ensures At(db, {}, true, |db.usage|, uuid) == db
  {
    var a := ColumnsAfter(db.columns, {}, uuid);
    assert ModelsAfter(db.models, {}, uuid) == db.models;
    forall c | 0 <= c < |a| ensures a[c] == db.columns[c] {
    }
    assert a == db.columns;
    assert UsageAfter(db.usage, 0, {}, uuid) == db.usage;
    assert UsageAfter(db.usage, |db.usage|, {}, uuid) == db.usage;
    if db.visible.Some? {
      assert VisibleAfter(db.visible, {}, uuid).value == db.visible.value;
    }
  }

  /** A second run after a full one changes nothing. */
  lemma SecondRunIdle(db: Db, uuid: string -> string, again: string -> string)
    requires Generated(db, uuid)
    ensures Finished(Finished(db, uuid), again) == Finished(db, uuid)
    ensures PlanOf(Finished(db, uuid).models, again) == []
  {
    var b := Finished(db, uuid);
    forall x ensures x !in Slugs(b) {
      SlugsLeft(db, Slugs(db), true, |db.usage|, uuid, x);
    }
    assert Slugs(b) == {};
    NothingRenamed(b, again);
    forall i | 0 <= i < |b.models| ensures IsUuid(b.models[i].id) {
      assert b.models[i] in b.models;
      assert b.models[i].id !in Slugs(b);
    }
    NoPlan(b.models, again);
    hide At, Slugs, PlanOf, Generated;
  }

  const BATCH: nat := 500

  function EventAt(usage: seq<Event>, id: string): (k: Option<nat>)
    ensures k.Some? ==> k.value < |usage| && usage[k.value].id == id
    ensures k.None? ==> forall i :: 0 <= i < |usage| ==> usage[i].id != id
  {
    if usage == [] then None
    else if usage[0].id == id then Some(0)
    else match EventAt(usage[1..], id) case None => None case Some(k) => Some(k + 1)
  }

  /** `findMany` with a cursor: the rows after it, at most a batch. */
  function Page(usage: seq<Event>, cursor: Option<string>): seq<Event> {
    var from := match cursor
      case None => 0
      case Some(id) => (match EventAt(usage, id) case None => |usage| case Some(k) => k + 1);
    if |usage| - from <= BATCH then usage[from..] else usage[from..from + BATCH]
  }

  lemma UniqueEvent(usage: seq<Event>, k: nat)
    requires k < |usage| && DistinctEvents(usage)
    ensures EventAt(usage, usage[k].id) == Some(k)
  {
    hide EventAt;
  }

  lemma UsageStep(usage: seq<Event>, n: nat, swapped: set<string>, uuid: string -> string)
    requires n < |usage|
    ensures UsageAfter(usage, n, swapped, uuid)[n] == usage[n]
    ensures UsageAfter(usage, n, swapped, uuid)[n := RenamedEvent(usage[n], swapped, uuid)]
      == UsageAfter(usage, n + 1, swapped, uuid)
    ensures RenamedEvent(usage[n], swapped, uuid) == usage[n] ==>
      UsageAfter(usage, n, swapped, uuid) == UsageAfter(usage, n + 1, swapped, uuid)
  {
    hide RenamedEvent;
  }

  lemma UsageIds(usage: seq<Event>, n: nat, swapped: set<string>, uuid: string -> string)
    requires DistinctEvents(usage)
    ensures var after := UsageAfter(usage, n, swapped, uuid);
      DistinctEvents(after) && forall i :: 0 <= i < |usage| ==> after[i].id == usage[i].id
  {
    hide Renamed;
  }

  /** The page after row `n - 1` starts at row `n`. */
  lemma NextPage(usage: seq<Event>, n: nat)
    requires DistinctEvents(usage) && n <= |usage|
    ensures Page(usage, if n == 0 then None else Some(usage[n - 1].id))
         == if |usage| - n <= BATCH then usage[n..] else usage[n..n + BATCH]
  {
    if n > 0 { UniqueEvent(usage, n - 1); }
    hide EventAt, DistinctEvents;
  }

  /** What the scan has not reached is as it was. */
  lemma Unreached(was: seq<Event>, n: nat, m: nat, swapped: set<string>, uuid: string -> string)
    requires n <= m <= |was|
    ensures |UsageAfter(was, n, swapped, uuid)| == |was| && UsageAfter(was, n, swapped, uuid)[n..m] == was[n..m]
  {
    hide RenamedEvent;
  }

  lemma IdsJoin(was: seq<Event>, from: nat, n: nat)
    requires from <= n <= |was|
    ensures EventIds(was[..from]) + EventIds(was[from..n]) == EventIds(was[..n])
  {
  }

  lemma NoOldIds()
    ensures OldIds([]) == {}
  {
  }

  lemma PlanMap(plan: seq<Swap>, uuid: string -> string)
    requires forall s :: s in plan ==> s.newId == uuid(s.oldId)
    ensures var ids := map s | s in plan :: s.oldId := s.newId;
      ids.Keys == OldIds(plan) && forall x :: x in ids ==> ids[x] == uuid(x)
  {
  }

  function EventIds(usage: seq<Event>): seq<string> {
    seq(|usage|, i requires 0 <= i < |usage| => usage[i].id)
  }

  // ------------------------------------------------------------------ the script

  /**
   * The script at work on the database. `writesLeft` is how many more writes the process
   * gets to make before it is killed; a transaction is one write.
   */
  class Migration {
    var models: seq<Model>
    var columns: seq<seq<string>>
    var visible: Option<seq<Entry>>
    var usage: seq<Event>
    var writesLeft: nat

    ghost function State(): Db
      reads this
    {
      Db(models, columns, visible, usage)
    }

    /** `updateMany` on every by-value column. */
    method ReplaceColumns(s: Swap)
      modifies this`columns
      ensures columns == seq(|old(columns)|, c requires 0 <= c < |old(columns)| => Replaced(old(columns)[c], s))
    {
      for c := 0 to |columns|
        invariant |columns| == |old(columns)|
        invariant forall d :: 0 <= d < c ==> columns[d] == Replaced(old(columns)[d], s)
        invariant forall d :: c <= d < |columns| ==> columns[d] == old(columns)[d]
      {
        columns := columns[c := Replaced(columns[c], s)];
      }
    }

    /** `applySwap` in its transaction, on the row found beforehand. */
    method ApplySwap(s: Swap, k: nat)
      requires IdAt(models, s.oldId) == Some(k) && writesLeft > 0
      modifies this
      ensures State() == SwapRow(old(State()), s) && writesLeft == old(writesLeft) - 1
    {
      ReplaceColumns(s);
      models := models[k := Model(s.newId, WithAlias(models[k].aliases, s.oldId), models[k].upstream)];
      writesLeft := writesLeft - 1;
    }

    /** The loop over the planned swaps; it stops early only if the process dies. */
    method ReKeyRows(plan: seq<Swap>, ghost db: Db, ghost uuid: string -> string)
      returns (alive: bool, ghost swapped: set<string>)
      requires State() == db && Sound(db) && Generated(db, uuid)
      requires OldIds(plan) == Slugs(db) && Unrepeated(plan) && forall s :: s in plan ==> s.newId == uuid(s.oldId)
      modifies this
      ensures swapped <= Slugs(db) && State() == At(db, swapped, false, 0, uuid)
      ensures if alive then swapped == Slugs(db) else writesLeft == 0
      ensures if old(writesLeft) < |plan| then !alive else alive && writesLeft == old(writesLeft) - |plan|
    {
      hide Sound, Generated, Slugs, At, SwapRow;
      NothingRenamed(db, uuid);
      alive, swapped := true, {};
      assert OldIds(plan[..0]) == {};
      for i := 0 to |plan|
        invariant alive && swapped == OldIds(plan[..i]) && swapped <= Slugs(db)
        invariant State() == At(db, swapped, false, 0, uuid)
        invariant writesLeft == old(writesLeft) - i
      {
        if writesLeft == 0 {
          alive := false;
          return;
        }
        OldIdsSnoc(plan, i);
        var s := plan[i];
        assert s in plan;
        SwapStep(db, swapped, uuid, s.oldId);
        assert s == Swap(s.oldId, uuid(s.oldId));
        var k := IdAt(models, s.oldId);
        if k.Some? {
          ApplySwap(s, k.value);
        }
        swapped := swapped + {s.oldId};
      }
      assert plan[..|plan|] == plan;
    }

    /** `migrateVisibleModelsConfig` */
    method MigrateVisible(ids: map<string, string>, ghost uuid: string -> string) returns (alive: bool)
      requires forall x :: x in ids ==> ids[x] == uuid(x)
      modifies this`visible, this`writesLeft
      ensures if alive then visible == VisibleAfter(old(visible), ids.Keys, uuid)
        else visible == old(visible) && writesLeft == 0
      ensures old(writesLeft) == 0 ==> visible == old(visible) && writesLeft == 0
    {
      alive := true;
      if visible.None? { return; }
      var es := visible.value;
      var next: seq<Entry> := [];
      var changed := false;
      for i := 0 to |es|
        invariant |next| == i && forall j :: 0 <= j < i ==> next[j] == RenamedEntry(es[j], ids.Keys, uuid)
        invariant !changed ==> next == es[..i]
      {
        if es[i].Id? && es[i].id in ids {
          changed := true;
          next := next + [Id(ids[es[i].id])];
        } else {
          next := next + [es[i]];
        }
      }
      assert es[..|es|] == es;
      assert next == VisibleAfter(visible, ids.Keys, uuid).value;
      if !changed { return; }
      if writesLeft == 0 { return false; }
      visible := Some(next);
      writesLeft := writesLeft - 1;
    }
  
    /** One row of a page: written only if its model was re-keyed. */
    method VisitEvent(row: Event, ids: map<string, string>, ghost was: seq<Event>, ghost n: nat,
        ghost uuid: string -> string)
      returns (alive: bool, wrote: bool)
      requires forall x :: x in ids ==> ids[x] == uuid(x)
      requires n < |was| && DistinctEvents(was) && row == was[n] && usage == UsageAfter(was, n, ids.Keys, uuid)
      modifies this`usage, this`writesLeft
      ensures usage == UsageAfter(was, if alive then n + 1 else n, ids.Keys, uuid)
      ensures !alive ==> writesLeft == 0
      ensures old(writesLeft) == 0 ==> usage == old(usage) && writesLeft == 0
    {
      UsageStep(was, n, ids.Keys, uuid);
      UsageIds(was, n, ids.Keys, uuid);
      UniqueEvent(usage, n);
      hide UsageAfter, EventAt;
      alive, wrote := true, false;
      if row.model.None? || row.model.value !in ids { return; }
      if writesLeft == 0 { return false, false; }
      var k := EventAt(usage, row.id);
      usage := usage[k.value := Event(row.id, Some(ids[row.model.value]))];
      writesLeft := writesLeft - 1;
      wrote := true;
    }

    /** The rows of one page, in order. */
    method VisitPage(page: seq<Event>, ids: map<string, string>, ghost was: seq<Event>, ghost from: nat,
        ghost uuid: string -> string)
      returns (alive: bool, updated: nat, ghost n: nat)
      requires forall x :: x in ids ==> ids[x] == uuid(x)
      requires from + |page| <= |was| && page == was[from..from + |page|] && DistinctEvents(was)
      requires usage == UsageAfter(was, from, ids.Keys, uuid)
      modifies this`usage, this`writesLeft
      ensures from <= n <= from + |page| && usage == UsageAfter(was, n, ids.Keys, uuid)
      ensures if alive then n == from + |page| else writesLeft == 0
      ensures old(writesLeft) == 0 ==> usage == old(usage) && writesLeft == 0
    {
      hide UsageAfter, DistinctEvents;
      alive, updated, n := true, 0, from;
      for i := 0 to |page|
        invariant alive && n == from + i && usage == UsageAfter(was, n, ids.Keys, uuid)
        invariant old(writesLeft) == 0 ==> usage == old(usage) && writesLeft == 0
      {
        var wrote;
        alive, wrote := VisitEvent(page[i], ids, was, n, uuid);
        if !alive { return; }
        if wrote { updated := updated + 1; }
        n := n + 1;
      }
    }

    /** The next batch: exactly the rows from `n` on. */
    method Fetch(cursor: Option<string>, ghost was: seq<Event>, ghost n: nat, ghost swapped: set<string>,
        ghost uuid: string -> string)
      returns (page: seq<Event>)
      requires DistinctEvents(was) && n <= |was| && usage == UsageAfter(was, n, swapped, uuid)
      requires cursor == if n == 0 then None else Some(was[n - 1].id)
      ensures |page| <= BATCH && n + |page| <= |was| && page == was[n..n + |page|]
      ensures |page| < BATCH ==> n + |page| == |was|
    {
      hide UsageAfter, DistinctEvents, Page;
      UsageIds(was, n, swapped, uuid);
      Unreached(was, n, |was|, swapped, uuid);
      NextPage(usage, n);
      page := Page(usage, cursor);
      Unreached(was, n, n + |page|, swapped, uuid);
    }

    /** `migrateUsageEvents`: the batched cursor scan visits every row once, in order, and ends. */
    method MigrateUsage(ids: map<string, string>, ghost uuid: string -> string)
      returns (alive: bool, scanned: nat, ghost n: nat, ghost visited: seq<string>)
      requires DistinctEvents(usage) && forall x :: x in ids ==> ids[x] == uuid(x)
      modifies this`usage, this`writesLeft
      ensures n <= |old(usage)| && usage == UsageAfter(old(usage), n, ids.Keys, uuid)
      ensures if alive then n == scanned == |old(usage)| && visited == EventIds(old(usage)) else writesLeft == 0
      ensures old(writesLeft) == 0 ==> usage == old(usage) && writesLeft == 0
    {
      ghost var was := usage;
      var cursor: Option<string> := None;
      alive, scanned, n, visited := true, 0, 0, [];
      assert usage == UsageAfter(was, 0, ids.Keys, uuid);
      assert EventIds(was[..0]) == [] && was[..|was|] == was;
      hide UsageAfter, DistinctEvents, Page, EventIds;
      while true
        invariant alive && n == scanned <= |was| && usage == UsageAfter(was, n, ids.Keys, uuid)
        invariant cursor == if n == 0 then None else Some(was[n - 1].id)
        invariant visited == EventIds(was[..n])
        invariant old(writesLeft) == 0 ==> usage == was && writesLeft == 0
        decreases |was| - n
      {
        var page := Fetch(cursor, was, n, ids.Keys, uuid);
        if page == [] { break; }
        scanned := scanned + |page|;
        cursor := Some(page[|page| - 1].id);
        IdsJoin(was, n, n + |page|);
        visited := visited + EventIds(page);
        var updated;
        alive, updated, n := VisitPage(page, ids, was, n, uuid);
        if !alive { return; }
        if |page| < BATCH { break; }
      }
    }

    /** The writes of a run: every row's transaction, then the visible list, then the usage events. */
    method Write(plan: seq<Swap>, ids: map<string, string>, ghost db: Db, ghost uuid: string -> string)
      returns (seen: bool, alive: bool, ghost swapped: set<string>, ghost n: nat)
      requires State() == db && Sound(db) && Generated(db, uuid)
      requires OldIds(plan) == Slugs(db) && Unrepeated(plan) && forall s :: s in plan ==> s.newId == uuid(s.oldId)
      requires ids.Keys == Slugs(db) && forall x :: x in ids ==> ids[x] == uuid(x)
      modifies this
      ensures swapped <= Slugs(db) && State() == At(db, swapped, seen, n, uuid)
      ensures if alive then swapped == Slugs(db) && seen && n == |db.usage| else writesLeft == 0
      ensures old(writesLeft) == |plan| ==> State() == At(db, Slugs(db), false, 0, uuid)
    {
      assert DistinctEvents(db.usage);
      hide Sound, Generated, Slugs, OldIds, Unrepeated, ModelsAfter, ColumnsAfter, VisibleAfter, UsageAfter,
        DistinctEvents;
      seen, n := false, 0;
      alive, swapped := ReKeyRows(plan, db, uuid);
      if !alive { return; }
      Unreached(db.usage, 0, |db.usage|, swapped, uuid);
      seen := MigrateVisible(ids, uuid);
      alive := seen;
      if !alive { return; }
      var scanned;
      ghost var visited;
      alive, scanned, n, visited := MigrateUsage(ids, uuid);
    }

    /** `runMigration` */
    method Run(dryRun: bool, uuid: string -> string)
      returns (migrated: nat, seen: bool, ghost swapped: set<string>, ghost n: nat)
      requires Sound(State()) && Generated(State(), uuid)
      modifies this
      ensures swapped <= Slugs(old(State())) && State() == At(old(State()), swapped, seen, n, uuid)
      ensures dryRun ==> State() == old(State())
      ensures !dryRun ==> State() == Finished(old(State()), uuid) || writesLeft == 0
      ensures !dryRun && old(writesLeft) == |PlanOf(old(models), uuid)| ==>
        State() == At(old(State()), Slugs(old(State())), false, 0, uuid)
    {
      ghost var db := State();
      assert DistinctIds(models) && Slugs(db) == SlugIds(models);
      hide Sound, Generated, Slugs, SlugIds, OldIds, Unrepeated, PlanOf, At, DistinctIds;
      NothingRenamed(db, uuid);
      PlanFits(models, uuid);
      migrated, seen, swapped, n := 0, false, {}, 0;
      var plan := PlanOf(models, uuid);
      if plan == [] {
        assert OldIds(plan) == {} by { NoOldIds(); }
        return;
      }
      if dryRun { return; }
      var ids := map s | s in plan :: s.oldId := s.newId;
      PlanMap(plan, uuid);
      var alive;
      seen, alive, swapped, n := Write(plan, ids, db, uuid);
      if alive { migrated := |plan|; }
    }
  }
}
