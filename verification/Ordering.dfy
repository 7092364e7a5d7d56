/** Go's byte order on strings, and sorting by a total preorder. */
module Ordering {
  /** `a < b` on strings: the first difference decides, a proper prefix comes first. */
  predicate Less(a: string, b: string) {
    if b == "" then false
    else if a == "" then true
    else a[0] < b[0] || (a[0] == b[0] && Less(a[1..], b[1..]))
  }

  predicate AtMost(a: string, b: string) {
    !Less(b, a)
  }

  lemma {:induction false} LessTrichotomy(a: string, b: string)
    ensures !(Less(a, b) && Less(b, a))
    ensures Less(a, b) || a == b || Less(b, a)
    ensures a == b ==> !Less(a, b)
  {
    if a == "" || b == "" {
    } else {
      LessTrichotomy(a[1..], b[1..]);
      if a[0] == b[0] && a[1..] == b[1..] {
        assert a == [a[0]] + a[1..] && b == [b[0]] + b[1..];
      }
    }
  }

  lemma {:induction false} LessTransitive(a: string, b: string, c: string)
    requires AtMost(a, b) && AtMost(b, c)
    ensures AtMost(a, c)
    ensures Less(a, b) || Less(b, c) ==> Less(a, c)
    decreases |a|
  {
    LessTrichotomy(a, b);
    LessTrichotomy(b, c);
    if a == "" || b == "" || c == "" || !(a[0] == b[0] == c[0]) {
    } else {
      LessTrichotomy(a[1..], b[1..]);
      LessTrichotomy(b[1..], c[1..]);
      LessTransitive(a[1..], b[1..], c[1..]);
    }
  }

  lemma AtMostIsTotalPreorder()
    ensures TotalPreorder(AtMost)
  {
    forall a: string, b: string ensures AtMost(a, b) || AtMost(b, a) {
      LessTrichotomy(a, b);
    }
    forall a: string, b: string, c: string | AtMost(a, b) && AtMost(b, c) ensures AtMost(a, c) {
      LessTransitive(a, b, c);
    }
  }

  ghost predicate TotalPreorder<T(!new)>(le: (T, T) -> bool) {
    && (forall a, b :: le(a, b) || le(b, a))
    && (forall a, b, c :: le(a, b) && le(b, c) ==> le(a, c))
  }

  predicate SortedBy<T>(s: seq<T>, le: (T, T) -> bool) {
    forall i, j :: 0 <= i < j < |s| ==> le(s[i], s[j])
  }

  predicate Distinct<T(==)>(s: seq<T>) {
    forall i, j :: 0 <= i < j < |s| ==> s[i] != s[j]
  }

  predicate StrictlyAscending(s: seq<string>) {
    forall i, j :: 0 <= i < j < |s| ==> Less(s[i], s[j])
  }

  function Elements<T>(s: seq<T>): set<T> {
    set x | x in s
  }

  lemma {:induction false} DistinctCount<T>(s: seq<T>)
    requires Distinct(s)
    ensures |Elements(s)| == |s|
  {
    if s == [] {
    } else {
      DistinctCount(s[1..]);
      assert Elements(s) == Elements(s[1..]) + {s[0]};
    }
  }

  lemma SubsetCount<T>(a: set<T>, b: set<T>)
    requires a <= b
    ensures |a| <= |b|
    ensures |a| == |b| <==> a == b
  {
    assert b == a + (b - a);
    assert |b| == |a| + |b - a|;
  }

  /** Insertion sort, standing for `sort.Slice`, `sort.Strings` and `slices.Sort`. */
  method Sort<T(!new)>(s: seq<T>, le: (T, T) -> bool) returns (r: seq<T>)
    requires TotalPreorder(le)
    ensures SortedBy(r, le)
    ensures multiset(r) == multiset(s)
    ensures |r| == |s|
    ensures forall x :: x in r <==> x in s
  {
    r := [];
    for n := 0 to |s|
      invariant SortedBy(r, le)
      invariant multiset(r) == multiset(s[..n])
    {
      r := Insert(s[n], r, le);
      assert s[..n + 1] == s[..n] + [s[n]];
    }
    assert s[..|s|] == s;
    SameElements(r, s);
  }

  method Insert<T(!new)>(x: T, s: seq<T>, le: (T, T) -> bool) returns (r: seq<T>)
    requires TotalPreorder(le) && SortedBy(s, le)
    ensures SortedBy(r, le)
    ensures multiset(r) == multiset(s) + multiset{x}
  {
    var k := |s|;
    while k > 0 && !le(s[k - 1], x)
      invariant 0 <= k <= |s|
      invariant forall i :: k <= i < |s| ==> le(x, s[i])
    {
      k := k - 1;
    }
    assert forall i :: 0 <= i < k ==> le(s[i], x) by {
      forall i | 0 <= i < k ensures le(s[i], x) {
        assert i == k - 1 || le(s[i], s[k - 1]);
      }
    }
    r := s[..k] + [x] + s[k..];
    InsertSorted(s, k, x, le);
    assert s == s[..k] + s[k..];
  }

  lemma InsertSorted<T>(s: seq<T>, k: nat, x: T, le: (T, T) -> bool)
    requires k <= |s| && SortedBy(s, le)
    requires forall i :: 0 <= i < k ==> le(s[i], x)
    requires forall i :: k <= i < |s| ==> le(x, s[i])
    ensures SortedBy(s[..k] + [x] + s[k..], le)
  {
    var r := s[..k] + [x] + s[k..];
    forall i, j | 0 <= i < j < |r| ensures le(r[i], r[j]) {
      if i < k {
        assert r[i] == s[i];
        assert j < k ==> r[j] == s[j];
        assert j > k ==> r[j] == s[j - 1];
      } else {
        assert r[j] == s[j - 1];
        assert i > k ==> r[i] == s[i - 1];
      }
    }
  }

  lemma SameElements<T>(r: seq<T>, s: seq<T>)
    requires multiset(r) == multiset(s)
    ensures |r| == |s|
    ensures forall x :: x in r <==> x in s
  {
    assert |multiset(r)| == |r| && |multiset(s)| == |s|;
    forall x ensures x in r <==> x in s {
      assert x in r <==> x in multiset(r);
      assert x in s <==> x in multiset(s);
    }
  }

  /** The sorted permutation of `s`, as `sort.Strings` leaves it. */
  function SortedStrings(s: seq<string>): (r: seq<string>)
    ensures SortedBy(r, AtMost) && multiset(r) == multiset(s)
  {
    if s == [] then [] else
    assert s == [s[0]] + s[1..];
    InsertString(s[0], SortedStrings(s[1..]))
  }

  function InsertString(x: string, s: seq<string>): (r: seq<string>)
    requires SortedBy(s, AtMost)
    ensures SortedBy(r, AtMost) && multiset(r) == multiset(s) + multiset{x}
  {
    if s == [] then [x]
    else if AtMost(x, s[0]) then
      InsertFront(x, s);
      [x] + s
    else
      LessTrichotomy(x, s[0]);
      var rest := InsertString(x, s[1..]);
      InsertBehind(x, s, rest);
      [s[0]] + rest
  }

  lemma InsertFront(x: string, s: seq<string>)
    requires SortedBy(s, AtMost) && s != [] && AtMost(x, s[0])
    ensures SortedBy([x] + s, AtMost)
  {
    forall i, j | 0 <= i < j < |[x] + s| ensures AtMost(([x] + s)[i], ([x] + s)[j]) {
      LessTrichotomy(s[0], s[0]);
      LessTransitive(x, s[0], s[j - 1]);
    }
  }

  lemma InsertBehind(x: string, s: seq<string>, rest: seq<string>)
    requires SortedBy(s, AtMost) && s != [] && AtMost(s[0], x)
    requires SortedBy(rest, AtMost) && multiset(rest) == multiset(s[1..]) + multiset{x}
    ensures SortedBy([s[0]] + rest, AtMost)
    ensures multiset([s[0]] + rest) == multiset(s) + multiset{x}
  {
    assert s == [s[0]] + s[1..];
    forall j | 0 <= j < |rest| ensures AtMost(s[0], rest[j]) {
      assert rest[j] in multiset(rest);
      if rest[j] != x {
        assert rest[j] in s[1..];
      }
    }
  }

  lemma RepeatCounts<T>(s: seq<T>, i: nat, j: nat)
    requires i < j < |s| && s[i] == s[j]
    ensures multiset(s)[s[i]] >= 2
  {
    assert s == s[..j] + s[j..];
    assert multiset(s) == multiset(s[..j]) + multiset(s[j..]);
    assert s[..j][i] == s[i] && s[j..][0] == s[j];
    assert s[i] in multiset(s[..j]) && s[j] in multiset(s[j..]);
  }

  lemma {:induction false} OnceCounts<T>(s: seq<T>)
    requires forall i, j :: 0 <= i < j < |s| ==> s[i] != s[j]
    ensures forall x :: multiset(s)[x] <= 1
  {
    if s == [] {
    } else {
      var k := |s| - 1;
      OnceCounts(s[..k]);
      assert s == s[..k] + [s[k]];
      assert s[k] !in s[..k];
      assert multiset(s) == multiset(s[..k]) + multiset{s[k]};
    }
  }

  /** Sorting distinct strings leaves them strictly ascending. */
  lemma DistinctSorted(s: seq<string>, sorted: seq<string>)
    requires Distinct(s) && SortedBy(sorted, AtMost) && multiset(sorted) == multiset(s)
    ensures StrictlyAscending(sorted)
  {
    OnceCounts(s);
    forall i, j | 0 <= i < j < |sorted| ensures Less(sorted[i], sorted[j]) {
      LessTrichotomy(sorted[i], sorted[j]);
      if sorted[i] == sorted[j] {
        RepeatCounts(sorted, i, j);
      }
    }
  }

  /** A strictly ascending list is determined by its elements. */
  lemma {:induction false} AscendingUnique(a: seq<string>, b: seq<string>)
    requires StrictlyAscending(a) && StrictlyAscending(b)
    requires forall x :: x in a <==> x in b
    ensures a == b
  {
    if a == [] {
      if b != [] {
        HasElement(b);
      }
    } else {
      assert a[0] in b;
      SameFirst(a, b);
      forall x ensures x in a[1..] <==> x in b[1..] {
        InTail(a, x);
        InTail(b, x);
      }
      AscendingUnique(a[1..], b[1..]);
    }
  }

  lemma HasElement(s: seq<string>)
    requires s != []
    ensures exists x :: x in s
  {
    assert s[0] in s;
  }

  lemma SameFirst(a: seq<string>, b: seq<string>)
    requires StrictlyAscending(a) && StrictlyAscending(b) && a != [] && b != []
    requires a[0] in b && b[0] in a
    ensures a[0] == b[0]
  {
    LessTrichotomy(a[0], b[0]);
  }

  lemma InTail(s: seq<string>, x: string)
    requires StrictlyAscending(s) && s != []
    ensures x in s[1..] <==> x in s && x != s[0]
  {
    if x in s[1..] {
      var i :| 0 <= i < |s| - 1 && s[1..][i] == x;
      LessTrichotomy(s[0], s[i + 1]);
    }
  }
}
