/** Small vocabulary shared by the models: optional values and strict total orders. */
module Prelude {

  datatype Option<+T> = None | Some(value: T)

  /** A position, if there is one, counted from `n` places earlier. */
  function Shift(k: Option<nat>, n: nat): Option<nat> {
    match k case None => None case Some(x) => Some(x + n)
  }

  lemma ShiftShift(k: Option<nat>, a: nat, b: nat)
    ensures Shift(Shift(k, a), b) == Shift(k, a + b)
  {
  }

  /** `lt` orders every two distinct values one way, and no value before itself. */
  ghost predicate StrictTotal<T(!new)>(lt: (T, T) -> bool) {
    && (forall x :: !lt(x, x))
    && (forall x, y :: x != y ==> lt(x, y) || lt(y, x))
    && (forall x, y, z :: lt(x, y) && lt(y, z) ==> lt(x, z))
  }

  /** No later element belongs before an earlier one. */
  ghost predicate SortedBy<T>(s: seq<T>, lt: (T, T) -> bool) {
    forall i, j :: 0 <= i < j < |s| ==> !lt(s[j], s[i])
  }

  /** Insert `x` behind every element it does not come before. */
  function Insert<T>(x: T, s: seq<T>, lt: (T, T) -> bool): (r: seq<T>)
    ensures multiset(r) == multiset(s) + multiset{x}
  {
    if s == [] then [x]
    else if lt(x, s[|s| - 1]) then
      assert s == s[..|s| - 1] + [s[|s| - 1]];
      Insert(x, s[..|s| - 1], lt) + [s[|s| - 1]]
    else s + [x]
  }

  /** The stable sort of `s` under `lt`, standing for the library's `Array.prototype.sort`. */
  function Sort<T>(s: seq<T>, lt: (T, T) -> bool): (r: seq<T>)
    ensures multiset(r) == multiset(s)
  {
    if s == [] then []
    else
      assert s == s[..|s| - 1] + [s[|s| - 1]];
      Insert(s[|s| - 1], Sort(s[..|s| - 1], lt), lt)
  }

  lemma {:induction false} InsertKeepsSorted<T(!new)>(x: T, s: seq<T>, lt: (T, T) -> bool)
    requires StrictTotal(lt) && SortedBy(s, lt)
    ensures SortedBy(Insert(x, s, lt), lt)
  {
    if s != [] {
      var last := s[|s| - 1];
      if lt(x, last) {
        InsertKeepsSorted(x, s[..|s| - 1], lt);
        var init := Insert(x, s[..|s| - 1], lt);
        forall y | y in init ensures !lt(last, y) {
          assert y in multiset(init);
          if y != x {
            assert y in multiset(s[..|s| - 1]);
          }
        }
      } else {
        forall i | 0 <= i < |s| ensures !lt(x, s[i]) {
          assert i == |s| - 1 || !lt(last, s[i]);
        }
      }
    }
  }

  lemma {:induction false} SortSorts<T(!new)>(s: seq<T>, lt: (T, T) -> bool)
    requires StrictTotal(lt)
    ensures SortedBy(Sort(s, lt), lt)
  {
    if s != [] {
      SortSorts(s[..|s| - 1], lt);
      InsertKeepsSorted(s[|s| - 1], Sort(s[..|s| - 1], lt), lt);
    }
  }

  lemma SortedSameHead<T(!new)>(s: seq<T>, t: seq<T>, lt: (T, T) -> bool)
    requires StrictTotal(lt) && SortedBy(s, lt) && SortedBy(t, lt)
    requires s != [] && t != [] && t[0] in s && s[0] in t
    ensures s[0] == t[0]
  {
    var i :| 0 <= i < |s| && s[i] == t[0];
    var j :| 0 <= j < |t| && t[j] == s[0];
    assert i == 0 || !lt(s[i], s[0]);
    assert j == 0 || !lt(t[j], t[0]);
  }

  lemma MultisetOfTail<T>(s: seq<T>)
    requires s != []
    ensures multiset(s[1..]) == multiset(s) - multiset{s[0]}
  {
    assert s == [s[0]] + s[1..];
  }

  /** A strict total order leaves one sorted arrangement of any bag of values. */
  lemma {:induction false} SortedUnique<T(!new)>(s: seq<T>, t: seq<T>, lt: (T, T) -> bool)
    requires StrictTotal(lt) && SortedBy(s, lt) && SortedBy(t, lt)
    requires multiset(s) == multiset(t)
    ensures s == t
  {
    if s == [] {
      assert |multiset(t)| == 0;
    } else {
      assert s[0] in multiset(t) && t != [];
      assert t[0] in multiset(s);
      SortedSameHead(s, t, lt);
      MultisetOfTail(s);
      MultisetOfTail(t);
      SortedUnique(s[1..], t[1..], lt);
      assert s == [s[0]] + s[1..] && t == [t[0]] + t[1..];
    }
  }

  /** Sorting forgets the order the values arrived in. */
  lemma SortAgrees<T(!new)>(s: seq<T>, t: seq<T>, lt: (T, T) -> bool)
    requires StrictTotal(lt) && multiset(s) == multiset(t)
    ensures Sort(s, lt) == Sort(t, lt)
  {
    SortSorts(s, lt);
    SortSorts(t, lt);
    SortedUnique(Sort(s, lt), Sort(t, lt), lt);
  }

  lemma {:induction false} SubsetSize<T>(a: set<T>, b: set<T>)
    requires a <= b
    ensures |a| <= |b|
    decreases |a|
  {
    if a != {} {
      var x :| x in a;
      SubsetSize(a - {x}, b - {x});
    }
  }

  lemma Scale(k: nat, x: nat, y: nat)
    requires x <= y
    ensures k * x <= k * y
  {
  }
}
