/**
 * Two regions exchanging FIFO logs of row changes. A primary-key clash is
 * resolved by the last update; a clash on any other unique key halts the apply
 * worker. Which region may write which key decides whether that ever happens.
 */
module TwoRegions {
  import opened Prelude

  datatype Region = Primary | Secondary

  function Peer(r: Region): Region {
    match r case Primary => Secondary case Secondary => Primary
  }

  /** The non-primary unique key of a row: its workspace, an optional region column, the rest. */
  datatype Key = Key(workspace: string, region: Option<Region>, rest: string)

  type Pk = nat
  datatype Row = Row(key: Key, value: int, stamp: nat)
  datatype Change = Change(pk: Pk, row: Row)
  datatype Site = Site(table: map<Pk, Row>, log: seq<Change>, clock: nat, halted: bool)
  datatype World = World(primary: Site, secondary: Site)

  function At(w: World, r: Region): Site {
    match r case Primary => w.primary case Secondary => w.secondary
  }

  function With(w: World, r: Region, s: Site): World {
    match r case Primary => w.(primary := s) case Secondary => w.(secondary := s)
  }

  const FRESH := Site(map[], [], 0, false)
  const INIT := World(FRESH, FRESH)

  // ------------------------------------------------------------ who writes

  /** The wallets a region owns: the primary also owns workspaces without a home region. */
  predicate HomeFilter(r: Region, home: Option<Region>) {
    if r == Primary then home == Some(Primary) || home == None else home == Some(r)
  }

  function HomePartitioned(home: string -> Option<Region>): (Region, Key) -> bool {
    (r: Region, k: Key) => HomeFilter(r, home(k.workspace))
  }

  /** Each region reads its own replica of the home column, which may change under it: `home(r, t, w)` at time `t`. */
  type Homes = (Region, nat, string) -> Option<Region>

  /** The region the home filter gives a workspace to. */
  function OwnerOf(home: Option<Region>): Region {
    if home == Some(Secondary) then Secondary else Primary
  }

  /** A region writes a key if at some time its replica gives it the workspace. */
  ghost function ReplicaPartitioned(home: Homes): (Region, Key) -> bool {
    (r: Region, k: Key) => exists t :: HomeFilter(r, home(r, t, k.workspace))
  }

  /** At no two times do the two replicas give one workspace to both regions. */
  ghost predicate ReplicasExclude(home: Homes) {
    forall w, t, u :: OwnerOf(home(Primary, t, w)) == Primary ==> OwnerOf(home(Secondary, u, w)) == Primary
  }

  lemma FilterIsOwner(r: Region, home: Option<Region>)
    ensures HomeFilter(r, home) <==> OwnerOf(home) == r
  {
    match home {
      case None => assert r == Primary || r == Secondary;
      case Some(h) => assert (h == Primary || h == Secondary) && (r == Primary || r == Secondary);
    }
  }

  lemma MayIff(home: Homes, r: Region, k: Key)
    ensures ReplicaPartitioned(home)(r, k) <==> exists t :: OwnerOf(home(r, t, k.workspace)) == r
  {
    forall t ensures HomeFilter(r, home(r, t, k.workspace)) <==> OwnerOf(home(r, t, k.workspace)) == r {
      FilterIsOwner(r, home(r, t, k.workspace));
    }
  }

  lemma NotBoth(may: (Region, Key) -> bool, k: Key)
    requires Exclusive(may)
    ensures !(may(Primary, k) && may(Secondary, k))
  {
  }

  /** With replicas, ownership is exclusive exactly if they never disagree that way. */
  lemma ReplicasOwnOnceIff(home: Homes)
    ensures Exclusive(ReplicaPartitioned(home)) <==> ReplicasExclude(home)
  {
    hide ReplicaPartitioned, HomeFilter, OwnerOf;
    var may := ReplicaPartitioned(home);
    if Exclusive(may) {
      forall w, t, u ensures OwnerOf(home(Primary, t, w)) == Primary ==> OwnerOf(home(Secondary, u, w)) == Primary {
        var k := Key(w, None, "");
        NotBoth(may, k);
        MayIff(home, Primary, k);
        MayIff(home, Secondary, k);
        assert k.workspace == w;
      }
    }
    if ReplicasExclude(home) {
      forall k ensures !(may(Primary, k) && may(Secondary, k)) {
        MayIff(home, Primary, k);
        MayIff(home, Secondary, k);
      }
    }
  }

  function RegionInKey(): (Region, Key) -> bool {
    (r: Region, k: Key) => k.region == Some(r)
  }

  /** No key may be written by both regions. */
  ghost predicate Exclusive(may: (Region, Key) -> bool) {
    forall k :: !(may(Primary, k) && may(Secondary, k))
  }

  /** The home filter gives every workspace's keys to exactly one region: its home, or the primary if it has none. */
  lemma HomeFilterOwnsOnce(home: string -> Option<Region>)
    ensures Exclusive(HomePartitioned(home))
    ensures forall k :: HomePartitioned(home)(Primary, k) || HomePartitioned(home)(Secondary, k)
    ensures forall k: Key, r :: home(k.workspace) == Some(r) ==> HomePartitioned(home)(r, k)
    ensures forall k: Key :: home(k.workspace) == None ==> HomePartitioned(home)(Primary, k)
  {
    forall k ensures HomePartitioned(home)(Primary, k) != HomePartitioned(home)(Secondary, k) {
      match home(k.workspace) {
        case None =>
        case Some(Primary) =>
        case Some(Secondary) =>
      }
    }
  }

  lemma RegionColumnOwnsOnce()
    ensures Exclusive(RegionInKey())
  {
    forall k ensures !(RegionInKey()(Primary, k) && RegionInKey()(Secondary, k)) {
    }
  }

  // ----------------------------------------------------------------- steps

  /** An upsert on the unique key, or the apply worker taking the peer's next change. */
  datatype Step = Upsert(r: Region, key: Key, value: int, pk: Pk) | Apply(r: Region)

  predicate Holds(table: map<Pk, Row>, key: Key) {
    exists p :: p in table && table[p].key == key
  }

  /** `pk` belongs to this key or to none, in either table and in either log. */
  ghost predicate Mintable(w: World, pk: Pk, key: Key) {
    forall r :: (pk in At(w, r).table ==> At(w, r).table[pk].key == key)
             && (forall i :: 0 <= i < |At(w, r).log| && At(w, r).log[i].pk == pk ==> At(w, r).log[i].row.key == key)
  }

  ghost predicate Enabled(may: (Region, Key) -> bool, w: World, step: Step) {
    match step
    case Upsert(r, key, _, pk) => may(r, key) && (Holds(At(w, r).table, key) || Mintable(w, pk, key))
    case Apply(r) => !At(w, r).halted && At(w, Peer(r)).log != []
  }

  /** Another row already carries the incoming unique key. */
  predicate Clash(table: map<Pk, Row>, c: Change) {
    exists p :: p in table && p != c.pk && table[p].key == c.row.key
  }

  ghost function PkOf(table: map<Pk, Row>, key: Key, minted: Pk): Pk {
    if Holds(table, key) then var p :| p in table && table[p].key == key; p else minted
  }

  /** The local row changes and the change is queued for the peer. */
  ghost function Upserted(s: Site, key: Key, value: int, minted: Pk): Site {
    var pk, row := PkOf(s.table, key, minted), Row(key, value, s.clock + 1);
    s.(table := s.table[pk := row], log := s.log + [Change(pk, row)], clock := s.clock + 1)
  }

  /** The last update wins a primary-key clash; any other clash halts the worker. */
  function Applied(s: Site, c: Change): Site {
    if c.pk in s.table && c.row.stamp < s.table[c.pk].stamp then s
    else if Clash(s.table, c) then s.(halted := true)
    else s.(table := s.table[c.pk := c.row])
  }

  ghost function Next(w: World, step: Step): World {
    match step
    case Upsert(r, key, value, pk) => With(w, r, Upserted(At(w, r), key, value, pk))
    case Apply(r) =>
      var from := At(w, Peer(r));
      if from.log == [] then w
      else
        var to := Applied(At(w, r), from.log[0]);
        if to.halted then With(w, r, to)
        else With(With(w, r, to), Peer(r), from.(log := from.log[1..]))
  }

  ghost predicate Reaches(may: (Region, Key) -> bool, w: World, steps: seq<Step>, v: World)
    decreases |steps|
  {
    if steps == [] then w == v
    else Enabled(may, w, steps[0]) && Reaches(may, Next(w, steps[0]), steps[1..], v)
  }

  ghost predicate Halted(w: World) {
    w.primary.halted || w.secondary.halted
  }

  // ------------------------------------------------------------- invariant

  /** `table` after every queued change has been written over it. */
  ghost function Replay(table: map<Pk, Row>, log: seq<Change>): map<Pk, Row> {
    if log == [] then table else Replay(table, log[..|log| - 1])[log[|log| - 1].pk := log[|log| - 1].row]
  }

  /** A (primary key, unique key) pair somewhere in region `r`'s table or log. */
  ghost predicate Occurs(s: Site, pk: Pk, key: Key) {
    || (pk in s.table && s.table[pk].key == key)
    || (exists i :: 0 <= i < |s.log| && s.log[i].pk == pk && s.log[i].row.key == key)
  }

  /** Primary keys and unique keys name the same rows in both regions. */
  ghost predicate OneToOne(w: World) {
    forall r, q, p1, k1, p2, k2 :: Occurs(At(w, r), p1, k1) && Occurs(At(w, q), p2, k2) ==> (p1 == p2 <==> k1 == k2)
  }

  /** What region `r`'s peer holds of `r`'s keys, once `r`'s queue is replayed, is what `r` holds. */
  ghost predicate Mirrored(may: (Region, Key) -> bool, w: World, r: Region) {
    var mine, later := At(w, r).table, Replay(At(w, Peer(r)).table, At(w, r).log);
    forall p ::
      && (p in mine && may(r, mine[p].key) ==> p in later && later[p] == mine[p])
      && (p in later && may(r, later[p].key) ==> p in mine)
  }

  /** Region `r` queues only its own keys, in the order of its clock, after everything its peer has. */
  ghost predicate Ordered(may: (Region, Key) -> bool, w: World, r: Region) {
    var log := At(w, r).log;
    && (forall i :: 0 <= i < |log| ==> may(r, log[i].row.key) && log[i].row.stamp <= At(w, r).clock)
    && (forall i, j :: 0 <= i < j < |log| ==> log[i].row.stamp < log[j].row.stamp)
    && (forall p :: p in At(w, Peer(r)).table && may(r, At(w, Peer(r)).table[p].key) ==>
          At(w, Peer(r)).table[p].stamp <= At(w, r).clock
          && forall i :: 0 <= i < |log| ==> At(w, Peer(r)).table[p].stamp < log[i].row.stamp)
  }

  /** Every row is some region's. */
  ghost predicate AllOwned(may: (Region, Key) -> bool, w: World) {
    forall r, p :: p in At(w, r).table ==> may(Primary, At(w, r).table[p].key) || may(Secondary, At(w, r).table[p].key)
  }

  ghost predicate Inv(may: (Region, Key) -> bool, w: World) {
    && !Halted(w) && OneToOne(w) && AllOwned(may, w)
    && (forall r :: Mirrored(may, w, r) && Ordered(may, w, r))
  }

  lemma {:induction false} ReplayAt(t1: map<Pk, Row>, t2: map<Pk, Row>, log: seq<Change>, p: Pk)
    requires p in t1 <==> p in t2
    requires p in t1 ==> t1[p] == t2[p]
    ensures p in Replay(t1, log) <==> p in Replay(t2, log)
    ensures p in Replay(t1, log) ==> Replay(t1, log)[p] == Replay(t2, log)[p]
  {
    if log != [] { ReplayAt(t1, t2, log[..|log| - 1], p); }
  }

  lemma {:induction false} ReplayHead(table: map<Pk, Row>, log: seq<Change>)
    requires log != []
    ensures Replay(table[log[0].pk := log[0].row], log[1..]) == Replay(table, log)
  {
    var n := |log| - 1;
    if n == 0 {
      assert log[..0] == [] && log[1..] == [];
    } else {
      ReplayHead(table, log[..n]);
      assert log[..n][1..] == log[1..][..n - 1];
    }
  }

  lemma {:induction false} ReplayFrom(table: map<Pk, Row>, log: seq<Change>, p: Pk)
    ensures p in table ==> p in Replay(table, log)
    ensures p in Replay(table, log) ==>
              (p in table && Replay(table, log)[p] == table[p])
              || exists i :: 0 <= i < |log| && log[i] == Change(p, Replay(table, log)[p])
    ensures forall i :: 0 <= i < |log| ==> log[i].pk in Replay(table, log)
  {
    if log != [] {
      var n := |log| - 1;
      ReplayFrom(table, log[..n], p);
      if p in Replay(table, log) && p != log[n].pk && !(p in table && Replay(table, log)[p] == table[p]) {
        var i :| 0 <= i < n && log[..n][i] == Change(p, Replay(table, log[..n])[p]);
        assert log[i] == Change(p, Replay(table, log)[p]);
      }
      forall i | 0 <= i < |log| ensures log[i].pk in Replay(table, log) {
        if i < n {
          assert log[..n][i].pk in Replay(table, log[..n]);
        }
      }
    }
  }

  /** A replayed row has the only unique key its primary key ever goes with. */
  lemma ReplayedKey(w: World, r: Region, p: Pk, k: Key)
    requires OneToOne(w)
    requires exists q :: Occurs(At(w, q), p, k)
    requires p in Replay(At(w, Peer(r)).table, At(w, r).log)
    ensures Replay(At(w, Peer(r)).table, At(w, r).log)[p].key == k
  {
    var table, log := At(w, Peer(r)).table, At(w, r).log;
    ReplayFrom(table, log, p);
    var row := Replay(table, log)[p];
    if p in table && row == table[p] {
      assert Occurs(At(w, Peer(r)), p, row.key);
    } else {
      assert Occurs(At(w, r), p, row.key);
    }
  }

  /** A region's own keys are all in its own table, wherever else they show. */
  lemma OwnedPresent(may: (Region, Key) -> bool, w: World, r: Region, q: Region, p: Pk, k: Key)
    requires Exclusive(may) && Inv(may, w) && may(r, k) && Occurs(At(w, q), p, k)
    ensures p in At(w, r).table && At(w, r).table[p].key == k
  {
    assert Mirrored(may, w, r) && Ordered(may, w, Peer(r));
    var table, log := At(w, Peer(r)).table, At(w, r).log;
    if !(p in At(w, r).table && At(w, r).table[p].key == k) {
      ReplayFrom(table, log, p);
      assert p in Replay(table, log) by {
        if q == r {
          if i :| 0 <= i < |log| && log[i].pk == p && log[i].row.key == k {
            assert log[i].pk in Replay(table, log);
          }
        }
      }
      ReplayedKey(w, r, p, k);
      assert p in At(w, r).table;
      assert Occurs(At(w, r), p, At(w, r).table[p].key);
      assert false;
    }
  }

  // ---------------------------------------------------- upserts keep it all

  lemma UpsertOneToOne(may: (Region, Key) -> bool, w: World, r: Region, key: Key, value: int, pk: Pk)
    requires Exclusive(may) && Inv(may, w) && Enabled(may, w, Upsert(r, key, value, pk))
    ensures OneToOne(Next(w, Upsert(r, key, value, pk)))
  {
    var s := At(w, r);
    var v, id := Next(w, Upsert(r, key, value, pk)), PkOf(s.table, key, pk);
    forall q, p, k | Occurs(At(v, q), p, k) ensures Occurs(At(w, q), p, k) || (p == id && k == key) {
      if q == r && !(p in At(v, q).table && At(v, q).table[p].key == k) {
        var i :| 0 <= i < |At(v, q).log| && At(v, q).log[i].pk == p && At(v, q).log[i].row.key == k;
        assert i < |s.log| ==> s.log[i].pk == p;
      }
    }
    forall q, p, k | Occurs(At(w, q), p, k) ensures p == id <==> k == key {
      if Holds(s.table, key) {
        assert Occurs(s, id, key);
      } else {
        if k == key {
          OwnedPresent(may, w, r, q, p, k);
        }
        assert Mintable(w, pk, key);
      }
    }
  }

  lemma UpsertMirrorsOwn(may: (Region, Key) -> bool, w: World, r: Region, key: Key, value: int, pk: Pk)
    requires Exclusive(may) && Inv(may, w) && may(r, key)
    ensures Mirrored(may, Next(w, Upsert(r, key, value, pk)), r)
  {
    var s, v := At(w, r), Next(w, Upsert(r, key, value, pk));
    assert Mirrored(may, w, r);
    assert At(v, r).log[..|s.log|] == s.log;
    assert At(v, Peer(r)) == At(w, Peer(r));
  }

  lemma UpsertMirrorsPeer(may: (Region, Key) -> bool, w: World, r: Region, key: Key, value: int, pk: Pk)
    requires Exclusive(may) && Inv(may, w) && may(r, key)
    requires OneToOne(Next(w, Upsert(r, key, value, pk)))
    ensures Mirrored(may, Next(w, Upsert(r, key, value, pk)), Peer(r))
  {
    var s, v, peer := At(w, r), Next(w, Upsert(r, key, value, pk)), At(w, Peer(r));
    var id := PkOf(s.table, key, pk);
    assert Mirrored(may, w, Peer(r)) && At(v, Peer(r)) == peer && Peer(Peer(r)) == r;
    assert Occurs(At(v, r), id, key);
    assert !may(Peer(r), key);
    var later := Replay(At(v, r).table, peer.log);
    forall p
      ensures p in peer.table && may(Peer(r), peer.table[p].key) ==> p in later && later[p] == peer.table[p]
      ensures p in later && may(Peer(r), later[p].key) ==> p in peer.table
    {
      if p == id {
        if p in peer.table {
          assert Occurs(At(v, Peer(r)), p, peer.table[p].key);
        }
        if p in later {
          ReplayedKey(v, Peer(r), p, key);
        }
      } else {
        ReplayAt(s.table, At(v, r).table, peer.log, p);
      }
    }
  }

  lemma UpsertOrdered(may: (Region, Key) -> bool, w: World, r: Region, key: Key, value: int, pk: Pk)
    requires Exclusive(may) && Inv(may, w) && may(r, key)
    ensures Ordered(may, Next(w, Upsert(r, key, value, pk)), r)
    ensures Ordered(may, Next(w, Upsert(r, key, value, pk)), Peer(r))
  {
    var s, v := At(w, r), Next(w, Upsert(r, key, value, pk));
    assert Ordered(may, w, r) && Ordered(may, w, Peer(r));
    assert At(v, Peer(r)) == At(w, Peer(r)) && Peer(Peer(r)) == r;
    assert !may(Peer(r), key);
    forall i | 0 <= i < |At(v, r).log| ensures i < |s.log| ==> At(v, r).log[i] == s.log[i] {
    }
  }

  lemma UpsertKeeps(may: (Region, Key) -> bool, w: World, r: Region, key: Key, value: int, pk: Pk)
    requires Exclusive(may) && Inv(may, w) && Enabled(may, w, Upsert(r, key, value, pk))
    ensures Inv(may, Next(w, Upsert(r, key, value, pk)))
  {
    UpsertOneToOne(may, w, r, key, value, pk);
    UpsertMirrorsOwn(may, w, r, key, value, pk);
    UpsertMirrorsPeer(may, w, r, key, value, pk);
    UpsertOrdered(may, w, r, key, value, pk);
    var v := Next(w, Upsert(r, key, value, pk));
    forall q ensures Mirrored(may, v, q) && Ordered(may, v, q) {
      assert q == r || q == Peer(r);
    }
    forall q, p | p in At(v, q).table
      ensures may(Primary, At(v, q).table[p].key) || may(Secondary, At(v, q).table[p].key)
    {
      if q == r && p == PkOf(At(w, r).table, key, pk) {
        assert At(v, q).table[p].key == key;
      } else {
        assert p in At(w, q).table;
      }
    }
  }

  // ------------------------------------------------------ applies keep it all

  /** The next change is newer than what it overwrites and clashes with nothing. */
  lemma ApplyLands(may: (Region, Key) -> bool, w: World, r: Region)
    requires Exclusive(may) && Inv(may, w) && Enabled(may, w, Apply(r))
    ensures var c := At(w, Peer(r)).log[0];
            Applied(At(w, r), c) == At(w, r).(table := At(w, r).table[c.pk := c.row])
  {
    var s, from := At(w, r), At(w, Peer(r));
    var c := from.log[0];
    assert Ordered(may, w, Peer(r)) && Peer(Peer(r)) == r;
    assert Occurs(from, c.pk, c.row.key);
    if c.pk in s.table {
      assert Occurs(s, c.pk, s.table[c.pk].key);
    }
    if Clash(s.table, c) {
      var p :| p in s.table && p != c.pk && s.table[p].key == c.row.key;
      assert Occurs(s, p, c.row.key);
      assert false;
    }
  }

  lemma ApplyOccurs(may: (Region, Key) -> bool, w: World, r: Region, q: Region, p: Pk, k: Key) returns (was: Region)
    requires Exclusive(may) && Inv(may, w) && Enabled(may, w, Apply(r))
    requires Occurs(At(Next(w, Apply(r)), q), p, k)
    ensures Occurs(At(w, was), p, k)
  {
    ApplyLands(may, w, r);
    var v, from := Next(w, Apply(r)), At(w, Peer(r));
    if q == r && p == from.log[0].pk && p in At(v, q).table && At(v, q).table[p].key == k {
      was := Peer(r);
    } else {
      was := q;
      if q != r && !(p in At(v, q).table && At(v, q).table[p].key == k) {
        var i :| 0 <= i < |At(v, q).log| && At(v, q).log[i].pk == p && At(v, q).log[i].row.key == k;
        assert from.log[i + 1].pk == p;
      }
    }
  }

  lemma ApplyOneToOne(may: (Region, Key) -> bool, w: World, r: Region)
    requires Exclusive(may) && Inv(may, w) && Enabled(may, w, Apply(r))
    ensures OneToOne(Next(w, Apply(r)))
  {
    var v := Next(w, Apply(r));
    forall a, b, p1, k1, p2, k2 | Occurs(At(v, a), p1, k1) && Occurs(At(v, b), p2, k2)
      ensures p1 == p2 <==> k1 == k2
    {
      var was1 := ApplyOccurs(may, w, r, a, p1, k1);
      var was2 := ApplyOccurs(may, w, r, b, p2, k2);
    }
  }

  lemma ApplyMirrors(may: (Region, Key) -> bool, w: World, r: Region)
    requires Exclusive(may) && Inv(may, w) && Enabled(may, w, Apply(r))
    ensures Mirrored(may, Next(w, Apply(r)), r) && Mirrored(may, Next(w, Apply(r)), Peer(r))
  {
    ApplyLands(may, w, r);
    var s, v, from := At(w, r), Next(w, Apply(r)), At(w, Peer(r));
    var c := from.log[0];
    assert Mirrored(may, w, r) && Mirrored(may, w, Peer(r)) && Ordered(may, w, Peer(r)) && Peer(Peer(r)) == r;
    ReplayHead(s.table, from.log);
    assert Occurs(from, c.pk, c.row.key) && may(Peer(r), c.row.key) && !may(r, c.row.key);
    var later := Replay(from.table, s.log);
    if c.pk in later {
      ReplayedKey(w, r, c.pk, c.row.key);
    }
  }

  lemma ApplyOrdered(may: (Region, Key) -> bool, w: World, r: Region)
    requires Exclusive(may) && Inv(may, w) && Enabled(may, w, Apply(r))
    ensures Ordered(may, Next(w, Apply(r)), r) && Ordered(may, Next(w, Apply(r)), Peer(r))
  {
    ApplyLands(may, w, r);
    var v, from := Next(w, Apply(r)), At(w, Peer(r));
    assert Ordered(may, w, r) && Ordered(may, w, Peer(r)) && Peer(Peer(r)) == r;
    forall i | 0 <= i < |At(v, Peer(r)).log| ensures At(v, Peer(r)).log[i] == from.log[i + 1] {
    }
  }

  lemma ApplyKeeps(may: (Region, Key) -> bool, w: World, r: Region)
    requires Exclusive(may) && Inv(may, w) && Enabled(may, w, Apply(r))
    ensures Inv(may, Next(w, Apply(r)))
  {
    ApplyOneToOne(may, w, r);
    ApplyMirrors(may, w, r);
    ApplyOrdered(may, w, r);
    ApplyLands(may, w, r);
    var v, c := Next(w, Apply(r)), At(w, Peer(r)).log[0];
    assert Ordered(may, w, Peer(r)) && may(Peer(r), c.row.key);
    forall q ensures Mirrored(may, v, q) && Ordered(may, v, q) {
      assert q == r || q == Peer(r);
    }
    forall q, p | p in At(v, q).table
      ensures may(Primary, At(v, q).table[p].key) || may(Secondary, At(v, q).table[p].key)
    {
      if q == r && p == c.pk {
        assert At(v, q).table[p].key == c.row.key;
      } else {
        assert p in At(w, q).table;
      }
    }
  }

  // ------------------------------------------------------------ whole runs

  lemma InitInv(may: (Region, Key) -> bool)
    ensures Inv(may, INIT)
  {
    forall r ensures At(INIT, r) == FRESH {
    }
  }

  lemma {:induction false} RunKeeps(may: (Region, Key) -> bool, w: World, steps: seq<Step>, v: World)
    requires Exclusive(may) && Inv(may, w) && Reaches(may, w, steps, v)
    ensures Inv(may, v)
    decreases |steps|
  {
    if steps != [] {
      match steps[0] {
        case Upsert(r, key, value, pk) => UpsertKeeps(may, w, r, key, value, pk);
        case Apply(r) => ApplyKeeps(may, w, r);
      }
      RunKeeps(may, Next(w, steps[0]), steps[1..], v);
    }
  }

  /** With every key owned by at most one region, no interleaving of writes and applies halts a worker. */
  lemma NoPoisonPill(may: (Region, Key) -> bool, steps: seq<Step>, v: World)
    requires Exclusive(may) && Reaches(may, INIT, steps, v)
    ensures !Halted(v)
  {
    InitInv(may);
    RunKeeps(may, INIT, steps, v);
  }

  /** Once both logs drain, the two regions hold the same table. */
  lemma DrainedRegionsAgree(may: (Region, Key) -> bool, steps: seq<Step>, v: World)
    requires Exclusive(may) && Reaches(may, INIT, steps, v)
    requires v.primary.log == [] && v.secondary.log == []
    ensures v.primary.table == v.secondary.table
  {
    InitInv(may);
    RunKeeps(may, INIT, steps, v);
    assert Mirrored(may, v, Primary) && Mirrored(may, v, Secondary);
    assert At(v, Primary) == v.primary && At(v, Secondary) == v.secondary;
    forall p ensures p in v.primary.table <==> p in v.secondary.table
             ensures p in v.primary.table ==> v.primary.table[p] == v.secondary.table[p] {
      if p in v.primary.table && p in v.secondary.table {
        assert Occurs(At(v, Primary), p, v.primary.table[p].key);
        assert Occurs(At(v, Secondary), p, v.secondary.table[p].key);
      }
      if p in v.primary.table {
        assert may(Primary, At(v, Primary).table[p].key) || may(Secondary, At(v, Primary).table[p].key);
      }
      if p in v.secondary.table {
        assert may(Primary, At(v, Secondary).table[p].key) || may(Secondary, At(v, Secondary).table[p].key);
      }
    }
  }

  /** A key both regions may write is enough to halt a worker: three steps do it. */
  lemma SharedKeyHalts(may: (Region, Key) -> bool, k: Key)
    requires may(Primary, k) && may(Secondary, k)
    ensures exists steps, v :: Reaches(may, INIT, steps, v) && Halted(v)
  {
    var steps := [Upsert(Primary, k, 0, 0), Upsert(Secondary, k, 0, 1), Apply(Primary)];
    var a := Next(INIT, steps[0]);
    var b := Next(a, steps[1]);
    var v := Next(b, steps[2]);
    forall r ensures At(INIT, r) == FRESH {
    }
    assert a.primary == Upserted(FRESH, k, 0, 0) && a.secondary == FRESH;
    assert a.primary.table == map[0 := Row(k, 0, 1)];
    assert Mintable(a, 1, k);
    assert b.secondary.table == map[1 := Row(k, 0, 1)] && b.secondary.log == [Change(1, Row(k, 0, 1))];
    assert Clash(b.primary.table, b.secondary.log[0]) by {
      assert 0 in b.primary.table && b.primary.table[0].key == k;
    }
    assert Halted(v);
    assert steps[1..][1..] == [Apply(Primary)] && steps[1..][1..][1..] == [];
    assert Reaches(may, v, [], v);
    assert Reaches(may, b, steps[1..][1..], v);
    assert Reaches(may, a, steps[1..], v);
    assert Reaches(may, INIT, steps, v);
  }

  /** A halted worker is reachable exactly when some key may be written by both regions. */
  lemma HaltsIffShared(may: (Region, Key) -> bool)
    ensures (exists steps, v :: Reaches(may, INIT, steps, v) && Halted(v)) <==> !Exclusive(may)
  {
    if Exclusive(may) {
      forall steps, v | Reaches(may, INIT, steps, v) ensures !Halted(v) {
        NoPoisonPill(may, steps, v);
      }
    } else {
      var k :| may(Primary, k) && may(Secondary, k);
      SharedKeyHalts(may, k);
    }
  }

  /**
   * With the home read from replicas, a halt is reachable exactly if some workspace is the
   * primary's by its replica at one time and the secondary's by its own at another.
   */
  lemma ReplicasHaltIff(home: Homes)
    ensures (exists steps, v :: Reaches(ReplicaPartitioned(home), INIT, steps, v) && Halted(v))
      <==> !ReplicasExclude(home)
  {
    hide *;
    ReplicasOwnOnceIff(home);
    HaltsIffShared(ReplicaPartitioned(home));
  }

  // ------------------------------------------------- the schema-level check

  /** A model of the schema: its columns and the column sets of its unique keys. */
  datatype Model = Model(fields: set<string>, uniques: seq<set<string>>)

  /** What the check asks of an intentionally regional cron: its region column is in some unique key. */
  predicate RegionalSchemaOk(models: map<string, Model>, table: string, column: string) {
    && table in models && column in models[table].fields
    && exists u :: u in models[table].uniques && column in u
  }

  type Record = map<string, string>

  /** Rows stamped by two different regions never agree on every column of the key. */
  ghost predicate Separates(key: set<string>, column: string, here: string, there: string) {
    forall a: Record, b: Record ::
      key + {column} <= a.Keys && key + {column} <= b.Keys && a[column] == here && b[column] == there ==>
        exists c :: c in key && a[c] != b[c]
  }

  /** A unique key keeps regions apart exactly when the region column is one of its columns. */
  lemma SeparatesIffInKey(key: set<string>, column: string, here: string, there: string)
    requires here != there
    ensures Separates(key, column, here, there) <==> column in key
  {
    if column !in key {
      var a: Record := map c | c in key + {column} :: here;
      var b := a[column := there];
      assert forall c :: c in key ==> a[c] == b[c];
      assert b.Keys == a.Keys;
    }
  }

  /** A schema passes the check exactly if its region column is there and some unique key keeps the regions apart. */
  lemma SchemaOkIff(models: map<string, Model>, table: string, column: string, here: string, there: string)
    requires here != there
    ensures RegionalSchemaOk(models, table, column)
       <==> table in models && column in models[table].fields
            && exists key :: key in models[table].uniques && Separates(key, column, here, there)
  {
    if table in models {
      forall key | key in models[table].uniques ensures Separates(key, column, here, there) <==> column in key {
        SeparatesIffInKey(key, column, here, there);
      }
      hide Separates;
    }
  }

  /**
   * The check stops at one such key: a model passes it and still has another
   * unique key on which two regions' rows collide.
   */
  lemma CheckAdmitsUnseparatedKey(here: string, there: string)
    requires here != there
    ensures exists models: map<string, Model>, table, column, key ::
      RegionalSchemaOk(models, table, column) && key in models[table].uniques && !Separates(key, column, here, there)
  {
    var model := Model({"region", "day"}, [{"region", "day"}, {"day"}]);
    var models := map["digests" := model];
    assert model.uniques[0] in model.uniques && "region" in model.uniques[0];
    assert RegionalSchemaOk(models, "digests", "region");
    assert model.uniques[1] == {"day"} && {"day"} in model.uniques;
    SeparatesIffInKey({"day"}, "region", here, there);
  }
}
