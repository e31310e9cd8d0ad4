/** Sequence operations shared by the components: the order-preserving
    filter behind JavaScript's `Array.prototype.filter` and the first-match
    scan behind `Array.prototype.find`, with the facts the components need. */
module Seqs {

  /** `r` is `s` with some elements deleted and the rest kept in order. */
  predicate SubsequenceOf<T(==)>(r: seq<T>, s: seq<T>)
    decreases |s|
  {
    if r == [] then true
    else if s == [] then false
    else (r[0] == s[0] && SubsequenceOf(r[1..], s[1..])) || SubsequenceOf(r, s[1..])
  }

  predicate NoDuplicates<T(==)>(s: seq<T>) {
    forall i, j :: 0 <= i < j < |s| ==> s[i] != s[j]
  }

  /** `s.filter(p)`: the elements satisfying `p`, in their original order. */
  function Filter<T(==,!new)>(s: seq<T>, p: T -> bool): (r: seq<T>)
    ensures |r| <= |s|
    ensures forall x :: x in r <==> x in s && p(x)
    ensures SubsequenceOf(r, s)
  {
    if s == [] then []
    else if p(s[0]) then [s[0]] + Filter(s[1..], p)
    else Filter(s[1..], p)
  }

  /** The index `s.findIndex(p)` would return, with `|s|` standing for "not found". */
  function FirstIndex<T>(s: seq<T>, p: T -> bool): (i: nat)
    ensures i <= |s|
    ensures forall j :: 0 <= j < i ==> !p(s[j])
    ensures i < |s| ==> p(s[i])
  {
    if s == [] then 0
    else if p(s[0]) then 0
    else 1 + FirstIndex(s[1..], p)
  }

  lemma {:induction false} FilterKeepsAll<T(!new)>(s: seq<T>, p: T -> bool)
    requires forall x :: x in s ==> p(x)
    ensures Filter(s, p) == s
  {
    if s != [] {
      FilterKeepsAll(s[1..], p);
      assert s == [s[0]] + s[1..];
    }
  }

  lemma {:induction false} FilterAppend<T(!new)>(a: seq<T>, b: seq<T>, p: T -> bool)
    ensures Filter(a + b, p) == Filter(a, p) + Filter(b, p)
  {
    if a == [] {
      assert a + b == b;
    } else {
      assert (a + b)[0] == a[0];
      assert (a + b)[1..] == a[1..] + b;
      FilterAppend(a[1..], b, p);
    }
  }

  /** `Filter` keeps every copy of a selected element and no copy of the others. */
  lemma {:induction false} FilterCount<T(!new)>(s: seq<T>, p: T -> bool)
    ensures forall x :: multiset(Filter(s, p))[x] == if p(x) then multiset(s)[x] else 0
  {
    if s != [] {
      FilterCount(s[1..], p);
      assert s == [s[0]] + s[1..];
      assert multiset(s) == multiset{s[0]} + multiset(s[1..]);
    }
  }

  lemma {:induction false} FilterNone<T(!new)>(s: seq<T>, p: T -> bool)
    requires forall x :: x in s ==> !p(x)
    ensures Filter(s, p) == []
  {
    if s != [] {
      FilterNone(s[1..], p);
    }
  }

  /** Two predicates that agree on every element select the same elements. */
  lemma {:induction false} FilterCongruent<T(!new)>(s: seq<T>, p: T -> bool, q: T -> bool)
    requires forall x :: x in s ==> p(x) == q(x)
    ensures Filter(s, p) == Filter(s, q)
  {
    if s != [] {
      FilterCongruent(s[1..], p, q);
    }
  }

  /** A predicate that holds exactly on the first `k` elements selects that prefix. */
  lemma {:induction false} FilterPrefix<T(!new)>(s: seq<T>, p: T -> bool, k: nat)
    requires k <= |s|
    requires forall i :: 0 <= i < |s| ==> (p(s[i]) <==> i < k)
    ensures Filter(s, p) == s[..k]
  {
    if s != [] {
      var rest := s[1..];
      var k' := if k == 0 then 0 else k - 1;
      forall i | 0 <= i < |rest| ensures p(rest[i]) <==> i < k' {
        assert rest[i] == s[i + 1];
      }
      FilterPrefix(rest, p, k');
      if k == 0 {
        assert !p(s[0]);
      } else {
        assert p(s[0]);
        assert s[..k] == [s[0]] + rest[..k'];
      }
    }
  }

  lemma {:induction false} FilterNoDuplicates<T(!new)>(s: seq<T>, p: T -> bool)
    requires NoDuplicates(s)
    ensures NoDuplicates(Filter(s, p))
  {
    if s != [] {
      assert NoDuplicates(s[1..]) by {
        forall i, j | 0 <= i < j < |s[1..]| ensures s[1..][i] != s[1..][j] {
          assert s[1..][i] == s[i + 1] && s[1..][j] == s[j + 1];
        }
      }
      FilterNoDuplicates(s[1..], p);
      var rest := Filter(s[1..], p);
      assert s[0] !in s[1..] by {
        forall j | 0 <= j < |s[1..]| ensures s[1..][j] != s[0] {
          assert s[1..][j] == s[j + 1];
        }
      }
      if p(s[0]) {
        var r := [s[0]] + rest;
        forall i, j | 0 <= i < j < |r| ensures r[i] != r[j] {
          assert r[j] == rest[j - 1];
          if i > 0 {
            assert r[i] == rest[i - 1];
          } else {
            assert rest[j - 1] in rest;
          }
        }
      }
    }
  }

  /** The first match of `find` heads the result of `filter` with the same predicate. */
  lemma {:induction false} FirstIndexHeadsFilter<T(!new)>(s: seq<T>, p: T -> bool)
    ensures FirstIndex(s, p) < |s| <==> Filter(s, p) != []
    ensures FirstIndex(s, p) < |s| ==> Filter(s, p)[0] == s[FirstIndex(s, p)]
  {
    if s != [] && !p(s[0]) {
      FirstIndexHeadsFilter(s[1..], p);
      var k := FirstIndex(s[1..], p);
      if k < |s[1..]| {
        assert s[1..][k] == s[1 + k];
      }
    }
  }
}
