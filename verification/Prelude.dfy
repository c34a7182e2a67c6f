/** Vocabulary shared by the models: Go durations in nanoseconds, numeric conversions,
    bounded suffixes of a log, order-preserving filters and the contract of `sort.Slice`. */
module Prelude {

  datatype Option<+T> = None | Some(value: T)

  const SECOND := 1_000_000_000
  const MINUTE := 60 * SECOND
  const HOUR := 60 * MINUTE
  const DAY := 24 * HOUR

  /** `Duration.Seconds()`. */
  function Seconds(d: int): real { d as real / 1_000_000_000.0 }

  /** Go's conversion of a float64 to an integer type: it drops the fraction, towards zero. */
  function Trunc(x: real): int { if x >= 0.0 then x.Floor else -((-x).Floor) }

  /** Go's integer division truncates towards zero; Dafny's is Euclidean. */
  function Quotient(a: int, b: int): int
    requires b > 0
  {
    if a >= 0 then a / b else -((-a) / b)
  }

  lemma QuotientIs(a: int, b: int)
    requires b > 0
    ensures a >= 0 ==> Quotient(a, b) * b <= a < (Quotient(a, b) + 1) * b
    ensures a <= 0 ==> (Quotient(a, b) - 1) * b < a <= Quotient(a, b) * b
  {
  }

  lemma TruncMonotone(x: real, y: real)
    requires x <= y
    ensures Trunc(x) <= Trunc(y)
  {
  }

  /** What `math.Sqrt` is assumed to be: the non-negative root. */
  ghost predicate IsSqrt(sqrt: real -> real) {
    forall x :: x >= 0.0 ==> sqrt(x) >= 0.0 && sqrt(x) * sqrt(x) == x
  }

  function Min(x: real, y: real): real { if x <= y then x else y }

  /** The last n elements of a log, all of it when it is shorter. */
  function Last<T>(s: seq<T>, n: int): seq<T> {
    if n <= 0 then [] else if |s| <= n then s else s[|s| - n..]
  }

  lemma LastLength<T>(s: seq<T>, n: nat)
    ensures |Last(s, n)| == (if |s| < n then |s| else n) && Last(s, n) == s[|s| - |Last(s, n)|..]
  {
  }

  /** Trimming after every append keeps exactly the last n of the whole history. */
  lemma LastOfAppend<T>(s: seq<T>, x: T, n: int)
    ensures Last(s + [x], n) == Last(Last(s, n) + [x], n)
  {
  }

  lemma JoinAssociative<T>(x: seq<T>, y: seq<T>, z: seq<T>)
    ensures x + y + z == x + (y + z)
  {
  }

  /** A loop over s has dealt with one element more. */
  lemma PrefixGrows<T>(before: seq<T>, s: seq<T>, i: nat)
    requires i < |s|
    ensures before + s[..i] + [s[i]] == before + s[..i + 1]
  {
  }

  /** The elements satisfying p, in order. */
  function Filter<T>(s: seq<T>, p: T -> bool): seq<T> {
    if s == [] then [] else
    Filter(s[..|s| - 1], p) + if p(s[|s| - 1]) then [s[|s| - 1]] else []
  }

  lemma FilterNext<T>(s: seq<T>, x: T, p: T -> bool)
    ensures Filter(s + [x], p) == if p(x) then Filter(s, p) + [x] else Filter(s, p)
  {
    assert (s + [x])[..|s|] == s && Filter(s, p) + [] == Filter(s, p);
  }

  /** As a loop over s sees it. */
  lemma FilterPrefix<T>(s: seq<T>, i: nat, p: T -> bool)
    requires i < |s|
    ensures Filter(s[..i + 1], p) == if p(s[i]) then Filter(s[..i], p) + [s[i]] else Filter(s[..i], p)
  {
    hide Filter;
    FilterNext(s[..i], s[i], p);
    assert s[..i + 1] == s[..i] + [s[i]];
  }

  lemma FilterAppend<T>(s: seq<T>, t: seq<T>, p: T -> bool)
    ensures Filter(s + t, p) == Filter(s, p) + Filter(t, p)
  {
    if t == [] {
      assert s + t == s;
    } else {
      assert (s + t)[..|s + t| - 1] == s + t[..|t| - 1];
      FilterAppend(s, t[..|t| - 1], p);
    }
  }

  lemma FilterSplit<T>(s: seq<T>, k: nat, p: T -> bool)
    requires k <= |s|
    ensures Filter(s, p) == Filter(s[..k], p) + Filter(s[k..], p)
  {
    hide Filter;
    FilterAppend(s[..k], s[k..], p);
    assert s[..k] + s[k..] == s;
  }

  /** Filtering by a weaker predicate first changes nothing. */
  lemma FilterTwice<T>(s: seq<T>, weak: T -> bool, strong: T -> bool)
    requires forall x :: x in s && strong(x) ==> weak(x)
    ensures Filter(Filter(s, weak), strong) == Filter(s, strong)
  {
    if s != [] {
      var init, x := s[..|s| - 1], s[|s| - 1];
      FilterTwice(init, weak, strong);
      assert x in s && forall y :: y in init ==> y in s;
      FilterAppend(Filter(init, weak), if weak(x) then [x] else [], strong);
    }
  }

  lemma FilterMembers<T>(s: seq<T>, p: T -> bool)
    ensures forall x :: x in Filter(s, p) <==> x in s && p(x)
  {
    if s != [] {
      FilterMembers(s[..|s| - 1], p);
      assert s == s[..|s| - 1] + [s[|s| - 1]];
    }
  }

  lemma FilterNone<T>(s: seq<T>, p: T -> bool)
    ensures Filter(s, p) == [] <==> forall i :: 0 <= i < |s| ==> !p(s[i])
  {
    FilterMembers(s, p);
    var kept := Filter(s, p);
    if kept != [] {
      assert kept[0] in kept;
    }
  }

  /** Predicates that agree on the elements of s filter it alike. */
  lemma FilterAgree<T>(s: seq<T>, p: T -> bool, q: T -> bool)
    requires forall x :: x in s ==> p(x) == q(x)
    ensures Filter(s, p) == Filter(s, q)
  {
    if s != [] {
      FilterAgree(s[..|s| - 1], p, q);
    }
  }

  lemma {:induction false} FilterAll<T>(s: seq<T>, p: T -> bool)
    ensures (forall x :: x in s ==> p(x)) ==> Filter(s, p) == s
    ensures (forall x :: x in s ==> !p(x)) ==> Filter(s, p) == []
    ensures |Filter(s, p)| <= |s|
  {
    if s != [] {
      FilterAll(s[..|s| - 1], p);
      assert s == s[..|s| - 1] + [s[|s| - 1]];
    }
  }

  /** A weaker predicate keeps at least as many. */
  lemma {:induction false} FilterWeaker<T(!new)>(s: seq<T>, p: T -> bool, q: T -> bool)
    requires forall x :: p(x) ==> q(x)
    ensures |Filter(s, p)| <= |Filter(s, q)|
  {
    if s != [] {
      FilterWeaker(s[..|s| - 1], p, q);
    }
  }

  lemma {:induction false} FilterMultiset<T>(s: seq<T>, p: T -> bool)
    ensures forall x :: multiset(Filter(s, p))[x] == if p(x) then multiset(s)[x] else 0
  {
    if s != [] {
      FilterMultiset(s[..|s| - 1], p);
      assert s == s[..|s| - 1] + [s[|s| - 1]];
    }
  }

  /** How many elements satisfy p does not depend on their order. */
  lemma FilterPermuted<T(!new)>(s: seq<T>, t: seq<T>, p: T -> bool)
    requires multiset(s) == multiset(t)
    ensures |Filter(s, p)| == |Filter(t, p)|
  {
    hide Filter;
    var f, g := Filter(s, p), Filter(t, p);
    FilterMultiset(s, p);
    FilterMultiset(t, p);
    forall x ensures multiset(f)[x] == multiset(g)[x] {
      assert multiset(f)[x] == if p(x) then multiset(s)[x] else 0;
    }
    assert multiset(f) == multiset(g);
    assert |multiset(f)| == |multiset(g)|;
  }

  /** A filter that reuses the array it reads from, overwriting its front. The first n
      elements are live before, the first m after. */
  method FilterInPlace<T>(a: array<T>, n: nat, p: T -> bool) returns (m: nat)
    requires n <= a.Length
    modifies a
    ensures m <= n
    ensures a[..m] == Filter(old(a[..n]), p)
  {
    m := 0;
    ghost var was := a[..n];
    for i := 0 to n
      invariant m <= i
      invariant forall k :: i <= k < n ==> a[k] == was[k]
      invariant a[..m] == Filter(was[..i], p)
    {
      assert was[..i + 1][..i] == was[..i];
      ghost var kept := a[..m];
      if p(a[i]) {
        a[m] := a[i];
        m := m + 1;
        assert a[..m] == kept + [was[i]];
      }
    }
    assert was[..n] == was;
  }

  /** An element of a list without repetitions occurs once. */
  lemma {:induction false} CountOfDistinct<T>(s: seq<T>, c: T)
    requires forall i, j :: 0 <= i < j < |s| ==> s[i] != s[j]
    ensures multiset(s)[c] == if c in s then 1 else 0
  {
    if s != [] {
      var n := |s| - 1;
      assert s == s[..n] + [s[n]];
      CountOfDistinct(s[..n], c);
    }
  }

  // ---- composed keys ----

  /** A text splits in one way at the first separator ... */
  lemma SplitAtFirst(p: string, r: string, p': string, r': string, sep: char)
    requires p + [sep] + r == p' + [sep] + r' && sep !in p && sep !in p'
    ensures p == p' && r == r'
  {
    var k := p + [sep] + r;
    if |p| < |p'| {
      SeparatorInside(p, r, p', r', sep);
    } else if |p'| < |p| {
      SeparatorInside(p', r', p, r, sep);
    } else {
      assert p == k[..|p|] && p' == k[..|p|] && r == k[|p| + 1..] && r' == k[|p| + 1..];
    }
  }

  /** ... and in one way at the last. */
  lemma SplitAtLast(p: string, r: string, p': string, r': string, sep: char)
    requires p + [sep] + r == p' + [sep] + r' && sep !in r && sep !in r'
    ensures p == p' && r == r'
  {
    var k := p + [sep] + r;
    if |p| < |p'| {
      SeparatorInside(p, r, p', r', sep);
    } else if |p'| < |p| {
      SeparatorInside(p', r', p, r, sep);
    } else {
      assert p == k[..|p|] && p' == k[..|p|] && r == k[|p| + 1..] && r' == k[|p| + 1..];
    }
  }

  lemma SeparatorInside(p: string, r: string, p': string, r': string, sep: char)
    requires p + [sep] + r == p' + [sep] + r' && |p| < |p'|
    ensures sep in p' && sep in r
  {
    assert p'[|p|] == (p + [sep] + r)[|p|];
    assert r[|p'| - |p| - 1] == (p + [sep] + r)[|p'|];
  }

  // ---- sort.Slice ----

  ghost predicate TotalPreorder<T(!new)>(le: (T, T) -> bool) {
    && (forall x, y :: le(x, y) || le(y, x))
    && (forall x, y, z :: le(x, y) && le(y, z) ==> le(x, z))
  }

  ghost predicate Sorted<T>(s: seq<T>, le: (T, T) -> bool) {
    forall i, j :: 0 <= i < j < |s| ==> le(s[i], s[j])
  }

  function Insert<T>(s: seq<T>, x: T, le: (T, T) -> bool): seq<T> {
    if s == [] || le(s[|s| - 1], x) then s + [x]
    else Insert(s[..|s| - 1], x, le) + [s[|s| - 1]]
  }

  lemma {:induction false} InsertMembers<T>(s: seq<T>, x: T, le: (T, T) -> bool)
    ensures multiset(Insert(s, x, le)) == multiset(s + [x])
    ensures forall y :: y in Insert(s, x, le) ==> y in s || y == x
  {
    if s != [] && !le(s[|s| - 1], x) {
      var init, y := s[..|s| - 1], s[|s| - 1];
      assert s == init + [y];
      InsertMembers(init, x, le);
    }
  }

  lemma {:induction false} InsertKeepsOrder<T(!new)>(s: seq<T>, x: T, le: (T, T) -> bool)
    requires TotalPreorder(le) && Sorted(s, le)
    ensures Sorted(Insert(s, x, le), le)
  {
    if s != [] {
      var init, y := s[..|s| - 1], s[|s| - 1];
      if le(y, x) {
        assert forall i :: 0 <= i < |s| ==> le(s[i], y);
      } else {
        InsertKeepsOrder(init, x, le);
        InsertMembers(init, x, le);
        var r := Insert(init, x, le);
        forall i | 0 <= i < |r| ensures le(r[i], y) {
          assert r[i] in r;
        }
      }
    }
  }

  /** Stands for the library call `sort.Slice`: some ordered rearrangement of the slice, in
      place. Nothing is promised about elements that compare equal. */
  method SortSlice<T(!new)>(a: array<T>, le: (T, T) -> bool)
    requires TotalPreorder(le)
    modifies a
    ensures Sorted(a[..], le)
    ensures multiset(a[..]) == multiset(old(a[..]))
  {
    var s: seq<T> := [];
    for i := 0 to a.Length
      invariant Sorted(s, le)
      invariant a[..] == old(a[..])
      invariant multiset(s) == multiset(a[..i])
    {
      InsertKeepsOrder(s, a[i], le);
      InsertMembers(s, a[i], le);
      s := Insert(s, a[i], le);
      assert a[..i + 1] == a[..i] + [a[i]];
    }
    assert a[..a.Length] == a[..];
    assert multiset(s) == multiset(old(a[..]));
    assert |multiset(s)| == |multiset(a[..])|;
    forall i | 0 <= i < a.Length {
      a[i] := s[i];
    }
    assert a[..] == s;
  }
}
