/**
  Lookups and removals by `id` over an ordered collection of records, as the store and the
  components perform them with `find`, `findIndex`, `splice` and `filter`. Generic in the record
  type: `idOf` projects a record to its id.
 */
module Keyed {
  import opened Wrappers
  import opened JsBuiltins

  /** Some record of `s` carries `id`. */
  ghost predicate HasId<T>(s: seq<T>, idOf: T -> int, id: int) {
    exists j :: 0 <= j < |s| && idOf(s[j]) == id
  }

  /** No two records of `s` share an id. */
  ghost predicate UniqueIds<T>(s: seq<T>, idOf: T -> int) {
    forall i, j :: 0 <= i < j < |s| ==> idOf(s[i]) != idOf(s[j])
  }

  /** The ids of `s` are exactly 1, 2, ..., |s| in order: the ids are 1..n in order. */
  ghost predicate DenseIds<T>(s: seq<T>, idOf: T -> int) {
    forall i :: 0 <= i < |s| ==> idOf(s[i]) == i + 1
  }

  /** The callback `x => x.id === id`. */
  function IdIs<T>(idOf: T -> int, id: int): T -> bool {
    x => idOf(x) == id
  }

  /** The callback `x => x.id !== id`. */
  function IdIsNot<T>(idOf: T -> int, id: int): T -> bool {
    x => idOf(x) != id
  }

  /** `findIndex(x => x.id === id)`: the first position holding `id`, or -1. */
  function IndexOfId<T>(s: seq<T>, idOf: T -> int, id: int): (r: int)
    ensures -1 <= r < |s|
    ensures r == -1 <==> !HasId(s, idOf, id)
    ensures 0 <= r ==> idOf(s[r]) == id && forall j :: 0 <= j < r ==> idOf(s[j]) != id
  {
    FindIndex(s, IdIs(idOf, id))
  }

  /** `find(x => x.id === id)`: the first record holding `id`, or undefined. */
  function FindById<T>(s: seq<T>, idOf: T -> int, id: int): (r: Option<T>)
    ensures r.None? <==> !HasId(s, idOf, id)
    ensures r.Some? ==> r.value == s[IndexOfId(s, idOf, id)] && idOf(r.value) == id
  {
    Find(s, IdIs(idOf, id))
  }

  /** `splice(i, 1)`: drop the record at position i. */
  function RemoveAt<T>(s: seq<T>, i: int): (r: seq<T>)
    requires 0 <= i < |s|
    ensures |r| == |s| - 1
    ensures forall j :: 0 <= j < i ==> r[j] == s[j]
    ensures forall j :: i <= j < |r| ==> r[j] == s[j + 1]
  {
    s[..i] + s[i + 1..]
  }

  /** `filter(x => x.id !== id)`: every record with `id` dropped, the rest in order. */
  function WithoutId<T>(s: seq<T>, idOf: T -> int, id: int): (r: seq<T>)
    ensures IsSubsequence(r, s)
    ensures !HasId(r, idOf, id)
    ensures forall i :: 0 <= i < |r| ==> r[i] in s
    ensures forall j :: 0 <= j < |s| && idOf(s[j]) != id ==> s[j] in r
    ensures forall x | x in s :: multiset(r)[x] == if idOf(x) != id then multiset(s)[x] else 0
  {
    Filter(s, IdIsNot(idOf, id))
  }

  /** Filtering keeps unique ids unique. */
  lemma {:induction false} FilterKeepsUniqueIds<T>(s: seq<T>, idOf: T -> int, keep: T -> bool)
    requires UniqueIds(s, idOf)
    ensures UniqueIds(Filter(s, keep), idOf)
  {
    if s != [] {
      FilterKeepsUniqueIds(s[1..], idOf, keep);
      var rest := Filter(s[1..], keep);
      if keep(s[0]) {
        var r := Filter(s, keep);
        assert r == [s[0]] + rest;
        forall j | 0 <= j < |rest| ensures idOf(rest[j]) != idOf(s[0]) {
          var k :| 0 <= k < |s[1..]| && s[1..][k] == rest[j];
          assert s[k + 1] == rest[j];
        }
        forall i, j | 0 <= i < j < |r| ensures idOf(r[i]) != idOf(r[j]) {
          assert r[j] == rest[j - 1];
          if i > 0 {
            assert r[i] == rest[i - 1];
          }
        }
      } else {
        assert Filter(s, keep) == rest;
      }
    }
  }

  /** A record appended under an id no earlier record holds is the one a lookup of that id finds. */
  lemma AppendedIsFound<T>(s: seq<T>, idOf: T -> int, x: T)
    requires !HasId(s, idOf, idOf(x))
    ensures IndexOfId(s + [x], idOf, idOf(x)) == |s|
  {
    assert (s + [x])[|s|] == x;
  }

  /** Appending keeps the ids unique exactly when the new id is not already taken. */
  lemma AppendUniqueIff<T>(s: seq<T>, idOf: T -> int, x: T)
    requires UniqueIds(s, idOf)
    ensures UniqueIds(s + [x], idOf) <==> !HasId(s, idOf, idOf(x))
  {
    var t := s + [x];
    if UniqueIds(t, idOf) {
      forall j | 0 <= j < |s| ensures idOf(s[j]) != idOf(x) {
        assert t[j] == s[j] && t[|s|] == x;
      }
    }
  }

  /** Dense ids are unique, and the next id |s| + 1 is free; appending a record with it keeps the ids dense. */
  lemma DenseNextIdIsFresh<T>(s: seq<T>, idOf: T -> int, x: T)
    requires DenseIds(s, idOf)
    ensures UniqueIds(s, idOf)
    ensures !HasId(s, idOf, |s| + 1)
    ensures idOf(x) == |s| + 1 ==> DenseIds(s + [x], idOf) && UniqueIds(s + [x], idOf)
  {
  }

  /** Removing one record keeps the remaining ids unique. */
  lemma RemoveAtKeepsUnique<T>(s: seq<T>, idOf: T -> int, i: int)
    requires UniqueIds(s, idOf) && 0 <= i < |s|
    ensures UniqueIds(RemoveAt(s, i), idOf)
  {
    var r := RemoveAt(s, i);
    forall a, b | 0 <= a < b < |r| ensures idOf(r[a]) != idOf(r[b]) {
      var a' := if a < i then a else a + 1;
      var b' := if b < i then b else b + 1;
      assert r[a] == s[a'] && r[b] == s[b'];
    }
  }

  /** With unique ids, once the first record holding `id` is spliced out, no record holds `id`. */
  lemma RemovedIdIsGone<T>(s: seq<T>, idOf: T -> int, id: int)
    requires UniqueIds(s, idOf)
    requires IndexOfId(s, idOf, id) != -1
    ensures !HasId(RemoveAt(s, IndexOfId(s, idOf, id)), idOf, id)
  {
    var i := IndexOfId(s, idOf, id);
    var r := RemoveAt(s, i);
    forall j | 0 <= j < |r| ensures idOf(r[j]) != id {
      if j >= i {
        assert r[j] == s[j + 1];
      }
    }
  }

  /** With unique ids, splicing out the first record holding `id` equals filtering out every record holding it. */
  lemma {:induction false} SpliceAgreesWithFilter<T>(s: seq<T>, idOf: T -> int, id: int)
    requires UniqueIds(s, idOf)
    requires IndexOfId(s, idOf, id) != -1
    ensures RemoveAt(s, IndexOfId(s, idOf, id)) == WithoutId(s, idOf, id)
  {
    var i := IndexOfId(s, idOf, id);
    var keep := IdIsNot(idOf, id);
    var before, after := s[..i], s[i + 1..];
    assert s == before + [s[i]] + after;
    forall j | 0 <= j < |before| ensures keep(before[j]) {
      assert before[j] == s[j];
    }
    forall j | 0 <= j < |after| ensures keep(after[j]) {
      assert after[j] == s[i + 1 + j];
    }
    assert !keep(s[i]);
    calc {
      Filter(s, keep);
      { FilterAppend(before + [s[i]], after, keep); }
      Filter(before + [s[i]], keep) + Filter(after, keep);
      { FilterAppend(before, [s[i]], keep); }
      Filter(before, keep) + Filter([s[i]], keep) + Filter(after, keep);
      { FilterKeepsAll(before, keep); FilterKeepsAll(after, keep); }
      before + [] + after;
    }
  }

  /** Filtering out an id nobody holds changes nothing. */
  lemma WithoutAbsentId<T>(s: seq<T>, idOf: T -> int, id: int)
    requires !HasId(s, idOf, id)
    ensures WithoutId(s, idOf, id) == s
  {
    FilterKeepsAll(s, IdIsNot(idOf, id));
  }

  /** With unique ids, filtering out one id drops at most one record. */
  lemma WithoutIdDropsAtMostOne<T>(s: seq<T>, idOf: T -> int, id: int)
    requires UniqueIds(s, idOf)
    ensures |WithoutId(s, idOf, id)| >= |s| - 1
  {
    if IndexOfId(s, idOf, id) != -1 {
      SpliceAgreesWithFilter(s, idOf, id);
    } else {
      WithoutAbsentId(s, idOf, id);
    }
  }

  /** Overwriting the first record holding `id` with one that keeps `id` leaves it the first match. */
  lemma ReplaceKeepsIndex<T>(s: seq<T>, idOf: T -> int, id: int, x: T)
    requires IndexOfId(s, idOf, id) != -1
    requires idOf(x) == id
    ensures IndexOfId(s[IndexOfId(s, idOf, id) := x], idOf, id) == IndexOfId(s, idOf, id)
  {
    var i := IndexOfId(s, idOf, id);
    assert idOf(s[i := x][i]) == id;
  }

  /** Overwriting one record of a collection with unique ids keeps them unique exactly when no other record holds the new record's id. */
  lemma ReplaceUniqueIff<T>(s: seq<T>, idOf: T -> int, i: int, x: T)
    requires UniqueIds(s, idOf) && 0 <= i < |s|
    ensures UniqueIds(s[i := x], idOf) <==> forall j :: 0 <= j < |s| && j != i ==> idOf(s[j]) != idOf(x)
  {
    var t := s[i := x];
    if UniqueIds(t, idOf) {
      forall j | 0 <= j < |s| && j != i ensures idOf(s[j]) != idOf(x) {
        assert t[j] == s[j] && t[i] == x;
        if j < i {
          assert idOf(t[j]) != idOf(t[i]);
        } else {
          assert idOf(t[i]) != idOf(t[j]);
        }
      }
    }
  }

  /** Overwriting a record with one of the same id keeps the ids unique. */
  lemma ReplaceKeepsUnique<T>(s: seq<T>, idOf: T -> int, i: int, x: T)
    requires UniqueIds(s, idOf) && 0 <= i < |s|
    requires idOf(x) == idOf(s[i])
    ensures UniqueIds(s[i := x], idOf)
  {
  }
}
