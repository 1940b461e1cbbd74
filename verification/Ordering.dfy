/** Optional values and results, shared by every component. */
module Outcomes {
  datatype Option<+T> = None | Some(value: T)
  datatype Result<+T, +E> = Ok(value: T) | Err(error: E)
}

/** Sorting as the source uses it: `sorted(...)` over a sequence, over the keys of a dictionary,
    and the lexicographic orders on text and on tuples of text. */
module Ordering {
  function Larger(a: int, b: int): int { if a < b then b else a }

  ghost predicate TotalOrder<T(!new)>(leq: (T, T) -> bool) {
    && (forall a, b :: leq(a, b) || leq(b, a))
    && (forall a, b :: leq(a, b) && leq(b, a) ==> a == b)
    && (forall a, b, c :: leq(a, b) && leq(b, c) ==> leq(a, c))
  }

  /** What sorting by a key gives: every two values compare, and comparisons chain. */
  ghost predicate TotalPreorder<T(!new)>(leq: (T, T) -> bool) {
    && (forall a, b :: leq(a, b) || leq(b, a))
    && (forall a, b, c :: leq(a, b) && leq(b, c) ==> leq(a, c))
  }

  predicate SortedBy<T>(s: seq<T>, leq: (T, T) -> bool) {
    forall i, j | 0 <= i < j < |s| :: leq(s[i], s[j])
  }

  predicate NoDuplicates<T(==)>(s: seq<T>) {
    forall i, j | 0 <= i < j < |s| :: s[i] != s[j]
  }

  /** Insertion from the right, after equal elements, so that sorting is stable. */
  function Insert<T>(s: seq<T>, x: T, leq: (T, T) -> bool): (r: seq<T>)
    ensures multiset(r) == multiset(s) + multiset{x}
    ensures |r| == |s| + 1
  {
    if |s| == 0 || leq(s[|s| - 1], x) then s + [x]
    else
      var r := Insert(s[..|s| - 1], x, leq) + [s[|s| - 1]];
      assert s == s[..|s| - 1] + [s[|s| - 1]];
      r
  }

  function Sort<T>(s: seq<T>, leq: (T, T) -> bool): (r: seq<T>)
    ensures multiset(r) == multiset(s)
    ensures |r| == |s|
  {
    if |s| == 0 then []
    else
      assert s == s[..|s| - 1] + [s[|s| - 1]];
      Insert(Sort(s[..|s| - 1], leq), s[|s| - 1], leq)
  }

  lemma MembersOfMultiset<T>(a: seq<T>, b: seq<T>)
    requires multiset(a) == multiset(b)
    ensures forall x :: x in a <==> x in b
  {
    forall x ensures x in a <==> x in b {
      assert x in a <==> x in multiset(a);
      assert x in b <==> x in multiset(b);
    }
  }

  lemma {:induction false} InsertKeepsSorted<T(!new)>(s: seq<T>, x: T, leq: (T, T) -> bool)
    requires TotalPreorder(leq) && SortedBy(s, leq)
    ensures SortedBy(Insert(s, x, leq), leq)
  {
    if |s| == 0 || leq(s[|s| - 1], x) {
    } else {
      var front, last := s[..|s| - 1], s[|s| - 1];
      InsertKeepsSorted(front, x, leq);
      var r := Insert(front, x, leq);
      forall i | 0 <= i < |r| ensures leq(r[i], last) {
        assert multiset(r) == multiset(front) + multiset{x};
        assert r[i] in multiset(r);
        if r[i] != x {
          assert r[i] in front;
        }
      }
    }
  }

  lemma {:induction false} SortSorts<T(!new)>(s: seq<T>, leq: (T, T) -> bool)
    requires TotalPreorder(leq)
    ensures SortedBy(Sort(s, leq), leq)
  {
    if |s| != 0 {
      SortSorts(s[..|s| - 1], leq);
      InsertKeepsSorted(Sort(s[..|s| - 1], leq), s[|s| - 1], leq);
    }
  }

  lemma SortedPrefix<T>(s: seq<T>, leq: (T, T) -> bool)
    requires |s| != 0 && SortedBy(s, leq)
    ensures SortedBy(s[..|s| - 1], leq)
    ensures |s| == 1 || leq(s[|s| - 2], s[|s| - 1])
  {
  }

  /** Sorting an already sorted sequence changes nothing, whatever the comparison. */
  lemma {:induction false} SortIdentity<T>(s: seq<T>, leq: (T, T) -> bool)
    requires SortedBy(s, leq)
    ensures Sort(s, leq) == s
  {
    if |s| != 0 {
      var front, last := s[..|s| - 1], s[|s| - 1];
      SortedPrefix(s, leq);
      SortIdentity(front, leq);
      calc {
        Sort(s, leq);
        Insert(front, last, leq);
        front + [last];
        s;
      }
    }
  }

  lemma MultisetTail<T>(s: seq<T>)
    requires |s| != 0
    ensures multiset(s[1..]) == multiset(s) - multiset{s[0]}
  {
    assert s == [s[0]] + s[1..];
  }

  lemma SameHead<T>(a: seq<T>, b: seq<T>, leq: (T, T) -> bool)
    requires |a| != 0 && |b| != 0 && SortedBy(a, leq) && SortedBy(b, leq)
    requires forall x, y | x in a && y in a && leq(x, y) && leq(y, x) :: x == y
    requires forall x :: x in a <==> x in b
    ensures a[0] == b[0]
  {
    assert a[0] in b && b[0] in a;
    var i :| 0 <= i < |b| && b[i] == a[0];
    var j :| 0 <= j < |a| && a[j] == b[0];
    if i != 0 && j != 0 { assert leq(b[0], b[i]) && leq(a[0], a[j]); }
  }

  /** A bag of values on which the comparison is antisymmetric has one sorted arrangement. */
  lemma {:induction false} SortedUnique<T>(a: seq<T>, b: seq<T>, leq: (T, T) -> bool)
    requires SortedBy(a, leq) && SortedBy(b, leq)
    requires forall x, y | x in a && y in a && leq(x, y) && leq(y, x) :: x == y
    requires multiset(a) == multiset(b)
    ensures a == b
  {
    assert |multiset(a)| == |multiset(b)|;
    if |a| != 0 {
      MembersOfMultiset(a, b);
      SameHead(a, b, leq);
      MultisetTail(a);
      MultisetTail(b);
      SortedUnique(a[1..], b[1..], leq);
      assert a == [a[0]] + a[1..] && b == [b[0]] + b[1..];
    }
  }

  /** `sorted` depends only on which values are present and how often. */
  lemma SortIgnoresOrder<T(!new)>(a: seq<T>, b: seq<T>, leq: (T, T) -> bool)
    requires TotalPreorder(leq) && multiset(a) == multiset(b)
    requires forall x, y | x in a && y in a && leq(x, y) && leq(y, x) :: x == y
    ensures Sort(a, leq) == Sort(b, leq)
  {
    SortSorts(a, leq);
    SortSorts(b, leq);
    MembersOfMultiset(a, Sort(a, leq));
    SortedUnique(Sort(a, leq), Sort(b, leq), leq);
  }

  lemma SomeMember<T>(s: set<T>) returns (x: T)
    requires s != {}
    ensures x in s
  {
    x :| x in s;
  }

  ghost predicate IsLeast<T>(m: T, s: set<T>, leq: (T, T) -> bool) {
    m in s && forall x | x in s :: leq(m, x)
  }

  lemma {:induction false} LeastExists<T(!new)>(s: set<T>, leq: (T, T) -> bool)
    requires TotalOrder(leq) && s != {}
    ensures exists m :: IsLeast(m, s, leq)
    decreases |s|
  {
    var m :| m in s;
    if s == {m} {
      assert IsLeast(m, s, leq);
    } else {
      LeastExists(s - {m}, leq);
      var k :| IsLeast(k, s - {m}, leq);
      assert IsLeast(if leq(m, k) then m else k, s, leq);
    }
  }

  /** The keys of a dictionary in ascending order. */
  ghost function Ascending<T(!new)>(s: set<T>, leq: (T, T) -> bool): (r: seq<T>)
    requires TotalOrder(leq)
    ensures forall x :: x in r <==> x in s
    ensures SortedBy(r, leq) && NoDuplicates(r) && |r| == |s|
    decreases |s|
  {
    if s == {} then []
    else
      LeastExists(s, leq);
      var m :| IsLeast(m, s, leq);
      [m] + Ascending(s - {m}, leq)
  }

  /** An ascending, duplicate-free listing of a set is the listing `Ascending` gives. */
  lemma {:induction false} AscendingUnique<T(!new)>(r: seq<T>, s: set<T>, leq: (T, T) -> bool)
    requires TotalOrder(leq) && SortedBy(r, leq) && NoDuplicates(r)
    requires forall x :: x in r <==> x in s
    ensures r == Ascending(s, leq)
  {
    var t := Ascending(s, leq);
    assert multiset(r) == multiset(t) by {
      forall x ensures multiset(r)[x] == multiset(t)[x] {
        CountOfDistinct(r, x);
        CountOfDistinct(t, x);
      }
    }
    SortedUnique(r, t, leq);
  }

  lemma {:induction false} CountOfDistinct<T>(s: seq<T>, x: T)
    requires NoDuplicates(s)
    ensures multiset(s)[x] == if x in s then 1 else 0
  {
    if |s| != 0 {
      assert s == [s[0]] + s[1..];
      CountOfDistinct(s[1..], x);
    }
  }

  function Members<T>(s: seq<T>): set<T> { set x | x in s }

  /** Ascending, duplicate-free sequences with the same members are equal. */
  lemma SameMembersSameSequence<T(!new)>(a: seq<T>, b: seq<T>, leq: (T, T) -> bool)
    requires TotalOrder(leq) && SortedBy(a, leq) && NoDuplicates(a) && SortedBy(b, leq) && NoDuplicates(b)
    requires forall x :: x in a <==> x in b
    ensures a == b
  {
    AscendingUnique(a, Members(a), leq);
    AscendingUnique(b, Members(a), leq);
  }

  /** Values are distinct exactly when none occurs twice. */
  lemma {:induction false} DistinctByCount<T(!new)>(s: seq<T>)
    ensures NoDuplicates(s) <==> forall x :: multiset(s)[x] <= 1
  {
    if NoDuplicates(s) {
      forall x ensures multiset(s)[x] <= 1 { CountOfDistinct(s, x); }
    } else {
      var i, j :| 0 <= i < j < |s| && s[i] == s[j];
      assert s == s[..j] + [s[j]] + s[j + 1..];
      assert s[i] in s[..j];
      assert multiset(s)[s[j]] >= 2;
    }
  }

  /** Where the last element of one arrangement stands in another arrangement of the same bag. */
  lemma FindLast<T>(a: seq<T>, b: seq<T>) returns (i: nat)
    requires |a| != 0 && multiset(a) == multiset(b)
    ensures i < |b| && b[i] == a[|a| - 1]
    ensures multiset(a[..|a| - 1]) == multiset(b[..i] + b[i + 1..])
  {
    var front, last := a[..|a| - 1], a[|a| - 1];
    assert a == front + [last];
    assert last in multiset(b);
    i :| 0 <= i < |b| && b[i] == last;
    var rest := b[..i] + b[i + 1..];
    assert multiset(b) == multiset(rest) + multiset{last} by {
      assert b == b[..i] + [last] + b[i + 1..];
    }
    assert multiset(a) == multiset(front) + multiset{last};
    assert multiset(front) == multiset(a) - multiset{last};
    assert multiset(rest) == multiset(b) - multiset{last};
  }

  lemma SplitAt<T>(s: seq<T>, i: nat)
    requires i < |s|
    ensures s == s[..i] + ([s[i]] + s[i + 1..])
  {
  }

  /** A bag computed piece by piece does not depend on the order of the pieces. */
  lemma {:induction false} AdditiveIgnoresOrder<A(!new), B>(h: seq<A> -> multiset<B>, a: seq<A>, b: seq<A>)
    requires forall x, y :: h(x + y) == h(x) + h(y)
    requires multiset(a) == multiset(b)
    ensures h(a) == h(b)
  {
    if |a| == 0 {
      assert |multiset(b)| == 0;
    } else {
      var i := FindLast(a, b);
      var front, one, left, right := a[..|a| - 1], [a[|a| - 1]], b[..i], b[i + 1..];
      AdditiveIgnoresOrder(h, front, left + right);
      assert a == front + one;
      SplitAt(b, i);
      assert h(b) == h(left) + h(one + right) == h(left) + (h(one) + h(right));
      assert h(left + right) == h(left) + h(right);
    }
  }

  /** No two elements share a key. */
  predicate DistinctKeys<T, K(==)>(s: seq<T>, key: T -> K) {
    forall i, j | 0 <= i < j < |s| :: key(s[i]) != key(s[j])
  }

  lemma SameKeySameElement<T, K>(s: seq<T>, key: T -> K, x: T, y: T)
    requires DistinctKeys(s, key) && x in s && y in s && key(x) == key(y)
    ensures x == y
  {
    var i :| 0 <= i < |s| && s[i] == x;
    var j :| 0 <= j < |s| && s[j] == y;
  }

  /** Rearranging elements with distinct keys leaves the keys distinct. */
  lemma RearrangedKeys<T(!new), K>(a: seq<T>, b: seq<T>, key: T -> K)
    requires multiset(a) == multiset(b) && DistinctKeys(a, key)
    ensures DistinctKeys(b, key)
  {
    MembersOfMultiset(a, b);
    DistinctByCount(a);
    DistinctByCount(b);
    forall i, j | 0 <= i < j < |b| ensures key(b[i]) != key(b[j]) {
      if key(b[i]) == key(b[j]) { SameKeySameElement(a, key, b[i], b[j]); }
    }
  }

  /** Lists a set in ascending order by repeatedly taking its least element. */
  method ListAscending<T(!new, ==)>(s: set<T>, leq: (T, T) -> bool) returns (r: seq<T>)
    requires TotalOrder(leq)
    ensures r == Ascending(s, leq)
  {
    r := [];
    var rest := s;
    while rest != {}
      invariant rest <= s
      invariant forall x :: x in s <==> x in r || x in rest
      invariant forall x :: x in r ==> x !in rest
      invariant forall x, y :: x in r && y in rest ==> leq(x, y)
      invariant SortedBy(r, leq) && NoDuplicates(r)
      decreases |rest|
    {
      LeastExists(rest, leq);
      ghost var w :| IsLeast(w, rest, leq);
      var m :| m in rest && forall x | x in rest :: leq(m, x);
      r := r + [m];
      rest := rest - {m};
    }
    AscendingUnique(r, s, leq);
  }

  // ----- lexicographic orders -----

  predicate LexLeq<T(==)>(a: seq<T>, b: seq<T>, leq: (T, T) -> bool) {
    if |a| == 0 then true
    else if |b| == 0 then false
    else if a[0] == b[0] then LexLeq(a[1..], b[1..], leq)
    else leq(a[0], b[0])
  }

  lemma {:induction false} LexTotal<T(!new)>(a: seq<T>, b: seq<T>, leq: (T, T) -> bool)
    requires TotalOrder(leq)
    ensures LexLeq(a, b, leq) || LexLeq(b, a, leq)
  {
    if |a| != 0 && |b| != 0 && a[0] == b[0] { LexTotal(a[1..], b[1..], leq); }
  }

  lemma {:induction false} LexAntisymmetric<T(!new)>(a: seq<T>, b: seq<T>, leq: (T, T) -> bool)
    requires TotalOrder(leq) && LexLeq(a, b, leq) && LexLeq(b, a, leq)
    ensures a == b
  {
    if |a| != 0 && |b| != 0 {
      LexAntisymmetric(a[1..], b[1..], leq);
      assert a == [a[0]] + a[1..] && b == [b[0]] + b[1..];
    }
  }

  lemma {:induction false} LexTransitive<T(!new)>(a: seq<T>, b: seq<T>, c: seq<T>, leq: (T, T) -> bool)
    requires TotalOrder(leq) && LexLeq(a, b, leq) && LexLeq(b, c, leq)
    ensures LexLeq(a, c, leq)
  {
    if |a| != 0 && a[0] == b[0] && b[0] == c[0] { LexTransitive(a[1..], b[1..], c[1..], leq); }
  }

  /** The two agree up to an index where they differ. */
  ghost predicate FirstDifferAt<T>(a: seq<T>, b: seq<T>, k: int) {
    0 <= k < |a| && k < |b| && a[..k] == b[..k] && a[k] != b[k]
  }

  /** A lexicographic order: a prefix comes first, and otherwise the first difference decides. */
  lemma {:induction false} LexLeqIff<T>(a: seq<T>, b: seq<T>, leq: (T, T) -> bool)
    ensures LexLeq(a, b, leq) <==> a <= b || exists k :: FirstDifferAt(a, b, k) && leq(a[k], b[k])
  {
    if |a| != 0 && |b| != 0 {
      if a[0] != b[0] {
        assert FirstDifferAt(a, b, 0);
        assert forall k | FirstDifferAt(a, b, k) :: k > 0 ==> a[..k][0] == b[..k][0];
      } else {
        LexLeqIff(a[1..], b[1..], leq);
        assert a == [a[0]] + a[1..] && b == [b[0]] + b[1..];
        forall k ensures FirstDifferAt(a, b, k + 1) <==> FirstDifferAt(a[1..], b[1..], k) {
          TailDiffersAt(a, b, k);
        }
        if exists k :: FirstDifferAt(a, b, k) && leq(a[k], b[k]) {
          var k :| FirstDifferAt(a, b, k) && leq(a[k], b[k]);
          assert FirstDifferAt(a[1..], b[1..], k - 1);
        }
        if exists k :: FirstDifferAt(a[1..], b[1..], k) && leq(a[1..][k], b[1..][k]) {
          var k :| FirstDifferAt(a[1..], b[1..], k) && leq(a[1..][k], b[1..][k]);
          assert FirstDifferAt(a, b, k + 1);
        }
      }
    }
  }

  lemma TailDiffersAt<T>(a: seq<T>, b: seq<T>, k: int)
    requires |a| != 0 && |b| != 0 && a[0] == b[0]
    ensures FirstDifferAt(a, b, k + 1) <==> FirstDifferAt(a[1..], b[1..], k)
  {
    if 0 <= k < |a| - 1 && k < |b| - 1 {
      assert a[..k + 1] == [a[0]] + a[1..][..k] && b[..k + 1] == [b[0]] + b[1..][..k];
      assert a[1..][..k] == a[..k + 1][1..] && b[1..][..k] == b[..k + 1][1..];
    }
  }

  predicate CharLeq(a: char, b: char) { a <= b }

  /** Text compared character by character. */
  predicate TextLeq(a: string, b: string) { LexLeq(a, b, CharLeq) }

  /** Tuples of text compared component by component. */
  predicate TupleLeq(a: seq<string>, b: seq<string>) { LexLeq(a, b, TextLeq) }

  /** Text order: a prefix first, and otherwise the smaller of the first two characters that differ. */
  lemma TextLeqIff(a: string, b: string)
    ensures TextLeq(a, b) <==> a <= b || exists k :: FirstDifferAt(a, b, k) && a[k] < b[k]
  {
    LexLeqIff(a, b, CharLeq);
    assert forall k | FirstDifferAt(a, b, k) :: CharLeq(a[k], b[k]) <==> a[k] < b[k];
  }

  lemma TextOrder()
    ensures TotalOrder(TextLeq)
  {
    forall a, b ensures TextLeq(a, b) || TextLeq(b, a) { LexTotal(a, b, CharLeq); }
    forall a, b | TextLeq(a, b) && TextLeq(b, a) ensures a == b { LexAntisymmetric(a, b, CharLeq); }
    forall a, b, c | TextLeq(a, b) && TextLeq(b, c) ensures TextLeq(a, c) { LexTransitive(a, b, c, CharLeq); }
  }

  lemma TupleOrder()
    ensures TotalOrder(TupleLeq)
  {
    TextOrder();
    forall a, b ensures TupleLeq(a, b) || TupleLeq(b, a) { LexTotal(a, b, TextLeq); }
    forall a, b | TupleLeq(a, b) && TupleLeq(b, a) ensures a == b { LexAntisymmetric(a, b, TextLeq); }
    forall a, b, c | TupleLeq(a, b) && TupleLeq(b, c) ensures TupleLeq(a, c) { LexTransitive(a, b, c, TextLeq); }
  }
}

/** Keeping the elements of a sequence that pass a test, in their order. */
module Filtering {
  import opened Ordering

  function Keep<T(!new)>(s: seq<T>, p: T -> bool): (kept: seq<T>)
    ensures |kept| <= |s|
    ensures forall x :: x in kept <==> x in s && p(x)
  {
    if |s| == 0 then []
    else
      var last := s[|s| - 1];
      var rest := Keep(s[..|s| - 1], p);
      assert s == s[..|s| - 1] + [last];
      if p(last) then rest + [last] else rest
  }

  lemma KeepSnoc<T(!new)>(s: seq<T>, last: T, p: T -> bool)
    ensures Keep(s + [last], p) == if p(last) then Keep(s, p) + [last] else Keep(s, p)
  {
    assert (s + [last])[..|s|] == s;
  }

  lemma {:induction false} KeepConcat<T(!new)>(a: seq<T>, b: seq<T>, p: T -> bool)
    ensures Keep(a + b, p) == Keep(a, p) + Keep(b, p)
  {
    if |b| == 0 {
      assert a + b == a;
    } else {
      assert (a + b)[..|a + b| - 1] == a + b[..|b| - 1];
      KeepConcat(a, b[..|b| - 1], p);
    }
  }

  /** Rearranging the elements rearranges what is kept. */
  lemma KeepRearranged<T(!new)>(a: seq<T>, b: seq<T>, p: T -> bool)
    requires multiset(a) == multiset(b)
    ensures multiset(Keep(a, p)) == multiset(Keep(b, p))
    ensures |Keep(a, p)| == |Keep(b, p)|
  {
    var bag := (s: seq<T>) => multiset(Keep(s, p));
    forall x, y ensures bag(x + y) == bag(x) + bag(y) { KeepConcat(x, y, p); }
    AdditiveIgnoresOrder(bag, a, b);
    assert bag(a) == bag(b);
    assert |multiset(Keep(a, p))| == |multiset(Keep(b, p))|;
  }

  lemma {:induction false} KeepAll<T(!new)>(s: seq<T>, p: T -> bool)
    requires forall x <- s :: p(x)
    ensures Keep(s, p) == s
  {
    if |s| != 0 { KeepAll(s[..|s| - 1], p); }
  }

  lemma {:induction false} KeepNone<T(!new)>(s: seq<T>, p: T -> bool)
    requires forall x <- s :: !p(x)
    ensures Keep(s, p) == []
  {
    if |s| != 0 { KeepNone(s[..|s| - 1], p); }
  }

  lemma {:induction false} KeepSame<T(!new)>(s: seq<T>, p: T -> bool, q: T -> bool)
    requires forall x <- s :: p(x) == q(x)
    ensures Keep(s, p) == Keep(s, q)
  {
    if |s| != 0 { KeepSame(s[..|s| - 1], p, q); }
  }

  /** Keeping twice is keeping what passes both tests. */
  lemma {:induction false} KeepKept<T(!new)>(s: seq<T>, p: T -> bool, q: T -> bool, both: T -> bool)
    requires forall x <- s :: both(x) == (p(x) && q(x))
    ensures Keep(Keep(s, p), q) == Keep(s, both)
  {
    if |s| != 0 {
      var front, last := s[..|s| - 1], s[|s| - 1];
      KeepKept(front, p, q, both);
      KeepSnoc(Keep(front, p), last, q);
    }
  }

  lemma {:induction false} KeepWeaker<T(!new)>(s: seq<T>, p: T -> bool, q: T -> bool)
    requires forall x <- s :: p(x) ==> q(x)
    ensures |Keep(s, p)| <= |Keep(s, q)|
  {
    if |s| != 0 { KeepWeaker(s[..|s| - 1], p, q); }
  }

  /** Two tests that exclude each other split what passes either. */
  lemma {:induction false} KeepSplit<T(!new)>(s: seq<T>, either: T -> bool, p: T -> bool, q: T -> bool)
    requires forall x <- s :: either(x) == (p(x) || q(x)) && !(p(x) && q(x))
    ensures |Keep(s, either)| == |Keep(s, p)| + |Keep(s, q)|
  {
    if |s| != 0 { KeepSplit(s[..|s| - 1], either, p, q); }
  }

  lemma {:induction false} KeepSorted<T(!new)>(s: seq<T>, p: T -> bool, leq: (T, T) -> bool)
    requires SortedBy(s, leq)
    ensures SortedBy(Keep(s, p), leq)
  {
    if |s| != 0 {
      var front, last := s[..|s| - 1], s[|s| - 1];
      KeepSorted(front, p, leq);
      var rest := Keep(front, p);
      forall i | 0 <= i < |rest| ensures leq(rest[i], last) { assert rest[i] in front; }
    }
  }

  lemma {:induction false} KeepDistinct<T(!new)>(s: seq<T>, p: T -> bool)
    requires NoDuplicates(s)
    ensures NoDuplicates(Keep(s, p))
  {
    if |s| != 0 {
      var front, last := s[..|s| - 1], s[|s| - 1];
      KeepDistinct(front, p);
      var rest := Keep(front, p);
      forall i | 0 <= i < |rest| ensures rest[i] != last { assert rest[i] in front; }
    }
  }

  ghost function Indices<T(!new)>(s: seq<T>, p: T -> bool): (indices: set<int>)
    ensures forall i :: i in indices <==> 0 <= i < |s| && p(s[i])
  {
    set i | 0 <= i < |s| && p(s[i])
  }

  lemma IndicesSnoc<T(!new)>(front: seq<T>, last: T, p: T -> bool)
    ensures Indices(front + [last], p) == if p(last) then Indices(front, p) + {|front|} else Indices(front, p)
  {
  }

  /** A count of kept elements is the number of their indices. */
  lemma {:induction false} KeepCountsIndices<T(!new)>(s: seq<T>, p: T -> bool)
    ensures |Keep(s, p)| == |Indices(s, p)|
  {
    if |s| == 0 {
      assert Indices(s, p) == {};
    } else {
      var front, last := s[..|s| - 1], s[|s| - 1];
      assert s == front + [last];
      KeepCountsIndices(front, p);
      KeepSnoc(front, last, p);
      IndicesSnoc(front, last, p);
    }
  }
}
