/**
  The JavaScript built-ins the core relies on, as total functions over sequences:
  Array.prototype.findIndex, find, some and filter, String.prototype.includes and
  toLowerCase (over ASCII letters only).
 */
module JsBuiltins {
  import opened Wrappers

  /** Array.prototype.findIndex: the index of the first element satisfying p, or -1. */
  function FindIndex<T>(s: seq<T>, p: T -> bool): (r: int)
    ensures -1 <= r < |s|
    ensures r == -1 <==> forall j :: 0 <= j < |s| ==> !p(s[j])
    ensures 0 <= r ==> p(s[r]) && forall j :: 0 <= j < r ==> !p(s[j])
  {
    if s == [] then -1
    else if p(s[0]) then 0
    else
      var k := FindIndex(s[1..], p);
      if k == -1 then -1 else k + 1
  }

  /** Array.prototype.find: the first element satisfying p, or undefined (None). */
  function Find<T>(s: seq<T>, p: T -> bool): (r: Option<T>)
    ensures r.None? <==> forall j :: 0 <= j < |s| ==> !p(s[j])
    ensures r.Some? ==> exists i :: 0 <= i < |s| && s[i] == r.value && p(s[i]) && forall j :: 0 <= j < i ==> !p(s[j])
  {
    var i := FindIndex(s, p);
    if i == -1 then None else Some(s[i])
  }

  /** Array.prototype.some. */
  function Any<T>(s: seq<T>, p: T -> bool): (b: bool)
    ensures b <==> exists j :: 0 <= j < |s| && p(s[j])
  {
    FindIndex(s, p) != -1
  }

  /** `a` is an order-preserving subsequence of `b`. */
  ghost predicate IsSubsequence<T>(a: seq<T>, b: seq<T>)
    decreases |b|
  {
    if a == [] then true
    else if b == [] then false
    else (a[0] == b[0] && IsSubsequence(a[1..], b[1..])) || IsSubsequence(a, b[1..])
  }

  /** No value occurs twice in `s`. */
  ghost predicate NoDuplicates<T>(s: seq<T>) {
    forall i, j :: 0 <= i < j < |s| ==> s[i] != s[j]
  }

  /** Array.prototype.filter. */
  function Filter<T>(s: seq<T>, keep: T -> bool): (r: seq<T>)
    ensures |r| <= |s|
    ensures forall i :: 0 <= i < |r| ==> r[i] in s && keep(r[i])
    ensures forall j :: 0 <= j < |s| && keep(s[j]) ==> s[j] in r
    ensures IsSubsequence(r, s)
    ensures |r| == |s| <==> forall j :: 0 <= j < |s| ==> keep(s[j])
    ensures |r| == 0 <==> forall j :: 0 <= j < |s| ==> !keep(s[j])
    ensures forall x {:trigger multiset(r)[x]} | x in s :: multiset(r)[x] == if keep(x) then multiset(s)[x] else 0
  {
    if s == [] then []
    else
      var rest := Filter(s[1..], keep);
      var r := if keep(s[0]) then [s[0]] + rest else rest;
      FilterMemberStep(s, keep, rest, r);
      FilterLengthStep(s, keep, rest, r);
      FilterCountStep(s, keep, rest, r);
      r
  }

  /**
    The inductive steps of Filter's contract: `r` keeps or drops the head of `s` in front of
    `rest`, the filtered tail; each lemma extends one group of facts from the tail to `s`.
   */
  lemma FilterMemberStep<T>(s: seq<T>, keep: T -> bool, rest: seq<T>, r: seq<T>)
    requires s != [] && r == if keep(s[0]) then [s[0]] + rest else rest
    requires forall i :: 0 <= i < |rest| ==> rest[i] in s[1..] && keep(rest[i])
    requires forall j :: 0 <= j < |s[1..]| && keep(s[1..][j]) ==> s[1..][j] in rest
    requires IsSubsequence(rest, s[1..])
    ensures forall i :: 0 <= i < |r| ==> r[i] in s && keep(r[i])
    ensures forall j :: 0 <= j < |s| && keep(s[j]) ==> s[j] in r
    ensures IsSubsequence(r, s)
  {
    forall j | 0 <= j < |s| && keep(s[j]) ensures s[j] in r {
      if j > 0 {
        assert s[j] == s[1..][j - 1];
      }
    }
    if keep(s[0]) {
      assert r[0] == s[0] && r[1..] == rest;
    }
  }

  lemma FilterLengthStep<T>(s: seq<T>, keep: T -> bool, rest: seq<T>, r: seq<T>)
    requires s != [] && r == if keep(s[0]) then [s[0]] + rest else rest
    requires |rest| <= |s[1..]|
    requires |rest| == |s[1..]| <==> forall j :: 0 <= j < |s[1..]| ==> keep(s[1..][j])
    requires |rest| == 0 <==> forall j :: 0 <= j < |s[1..]| ==> !keep(s[1..][j])
    ensures |r| <= |s|
    ensures |r| == |s| <==> forall j :: 0 <= j < |s| ==> keep(s[j])
    ensures |r| == 0 <==> forall j :: 0 <= j < |s| ==> !keep(s[j])
  {
    if forall j :: 0 <= j < |s[1..]| ==> keep(s[1..][j]) {
      if keep(s[0]) {
        forall j | 0 <= j < |s| ensures keep(s[j]) {
          if j > 0 {
            assert s[j] == s[1..][j - 1];
          }
        }
      }
    }
    if forall j :: 0 <= j < |s| ==> keep(s[j]) {
      forall j | 0 <= j < |s[1..]| ensures keep(s[1..][j]) {
        assert s[1..][j] == s[j + 1];
      }
    }
    if forall j :: 0 <= j < |s[1..]| ==> !keep(s[1..][j]) {
      if !keep(s[0]) {
        forall j | 0 <= j < |s| ensures !keep(s[j]) {
          if j > 0 {
            assert s[j] == s[1..][j - 1];
          }
        }
      }
    }
    if forall j :: 0 <= j < |s| ==> !keep(s[j]) {
      forall j | 0 <= j < |s[1..]| ensures !keep(s[1..][j]) {
        assert s[1..][j] == s[j + 1];
      }
    }
  }

  lemma FilterCountStep<T>(s: seq<T>, keep: T -> bool, rest: seq<T>, r: seq<T>)
    requires s != [] && r == if keep(s[0]) then [s[0]] + rest else rest
    requires forall i :: 0 <= i < |rest| ==> rest[i] in s[1..]
    requires forall x | x in s[1..] :: multiset(rest)[x] == if keep(x) then multiset(s[1..])[x] else 0
    ensures forall x | x in s :: multiset(r)[x] == if keep(x) then multiset(s)[x] else 0
  {
    assert s == [s[0]] + s[1..];
    forall x | x in s ensures multiset(r)[x] == if keep(x) then multiset(s)[x] else 0 {
      if x !in s[1..] {
        assert x !in rest;
      }
    }
  }

  /** The positions of `s` whose element the callback keeps. */
  ghost function KeptPositions<T>(s: seq<T>, keep: T -> bool): set<int> {
    set i | 0 <= i < |s| && keep(s[i])
  }

  /** The length of a filter is the number of positions whose element is kept, repeats included. */
  lemma {:induction false} FilterLengthIsKeptCount<T>(s: seq<T>, keep: T -> bool)
    ensures |Filter(s, keep)| == |KeptPositions(s, keep)|
    decreases |s|
  {
    if s == [] {
      assert KeptPositions(s, keep) == {};
    } else {
      var pre, last := s[..|s| - 1], s[|s| - 1];
      assert s == pre + [last];
      FilterAppend(pre, [last], keep);
      FilterLengthIsKeptCount(pre, keep);
      KeptPositionsSnoc(pre, last, keep);
      assert [last][1..] == [];
    }
  }

  /** Appending one element adds its position to the kept positions exactly when it is kept. */
  lemma KeptPositionsSnoc<T>(pre: seq<T>, last: T, keep: T -> bool)
    ensures |KeptPositions(pre + [last], keep)| == |KeptPositions(pre, keep)| + if keep(last) then 1 else 0
  {
    var s := pre + [last];
    var a := KeptPositions(pre, keep);
    var b := if keep(last) then a + {|pre|} else a;
    forall i ensures i in KeptPositions(s, keep) <==> i in b {
      if 0 <= i < |pre| {
        assert s[i] == pre[i];
      }
    }
    assert KeptPositions(s, keep) == b;
    assert |pre| !in a;
  }

  /** Filtering a concatenation filters each part. */
  lemma {:induction false} FilterAppend<T>(a: seq<T>, b: seq<T>, keep: T -> bool)
    ensures Filter(a + b, keep) == Filter(a, keep) + Filter(b, keep)
  {
    if a == [] {
      assert a + b == b;
    } else {
      assert (a + b)[0] == a[0];
      assert (a + b)[1..] == a[1..] + b;
      FilterAppend(a[1..], b, keep);
    }
  }

  /** A filter that keeps every element returns its input. */
  lemma {:induction false} FilterKeepsAll<T>(s: seq<T>, keep: T -> bool)
    requires forall j :: 0 <= j < |s| ==> keep(s[j])
    ensures Filter(s, keep) == s
  {
    if s != [] {
      FilterKeepsAll(s[1..], keep);
    }
  }

  /** Filters with predicates that agree on every element give the same result. */
  lemma {:induction false} FilterAgrees<T>(s: seq<T>, f: T -> bool, g: T -> bool)
    requires forall j :: 0 <= j < |s| ==> f(s[j]) == g(s[j])
    ensures Filter(s, f) == Filter(s, g)
  {
    if s != [] {
      FilterAgrees(s[1..], f, g);
    }
  }

  /** Filtering a list without repeats yields a list without repeats. */
  lemma {:induction false} FilterKeepsNoDuplicates<T>(s: seq<T>, keep: T -> bool)
    requires NoDuplicates(s)
    ensures NoDuplicates(Filter(s, keep))
  {
    if s != [] {
      FilterKeepsNoDuplicates(s[1..], keep);
      if keep(s[0]) {
        var rest := Filter(s[1..], keep);
        forall j | 0 <= j < |rest| ensures rest[j] != s[0] {
          assert rest[j] in s[1..];
        }
      }
    }
  }

  /** `needle` occurs in `hay` starting at index i. */
  ghost predicate OccursAt(hay: string, needle: string, i: int) {
    0 <= i && i + |needle| <= |hay| && hay[i..i + |needle|] == needle
  }

  /** String.prototype.includes: `needle` is a substring of `hay`. */
  function Includes(hay: string, needle: string): (b: bool)
    ensures b <==> exists i :: OccursAt(hay, needle, i)
    decreases |hay|
  {
    if |needle| > |hay| then false
    else if hay[..|needle|] == needle then assert OccursAt(hay, needle, 0); true
    else
      ShiftOccurrence(hay, needle);
      Includes(hay[1..], needle)
  }

  /** Occurrences past index 0 are the occurrences in hay[1..], shifted by one. */
  lemma ShiftOccurrence(hay: string, needle: string)
    requires hay != []
    requires |needle| > |hay| || hay[..|needle|] != needle
    ensures (exists i :: OccursAt(hay, needle, i)) <==> (exists i :: OccursAt(hay[1..], needle, i))
  {
    forall i | OccursAt(hay[1..], needle, i) ensures OccursAt(hay, needle, i + 1) {
      assert hay[1..][i..i + |needle|] == hay[i + 1..i + 1 + |needle|];
    }
    forall i | OccursAt(hay, needle, i) ensures OccursAt(hay[1..], needle, i - 1) {
      assert i != 0;
      assert hay[1..][i - 1..i - 1 + |needle|] == hay[i..i + |needle|];
    }
  }

  /** ASCII lower-casing of one character. */
  function LowerChar(c: char): char {
    if 'A' <= c <= 'Z' then (c as int + 32) as char else c
  }

  /** String.prototype.toLowerCase, restricted to ASCII letters. */
  function ToLowerCase(s: string): (r: string)
    ensures |r| == |s|
    ensures forall i :: 0 <= i < |s| ==> r[i] == LowerChar(s[i])
  {
    if s == [] then [] else [LowerChar(s[0])] + ToLowerCase(s[1..])
  }

  /** Lower-casing twice is lower-casing once. */
  lemma ToLowerCaseIdempotent(s: string)
    ensures ToLowerCase(ToLowerCase(s)) == ToLowerCase(s)
  {
  }
}
