/** A stable sort, as `sort_by` promises it. */
module Sorting {
  import opened Common

  ghost predicate TotalPreorder<T(!new)>(le: (T, T) -> bool) {
    && (forall x, y :: le(x, y) || le(y, x))
    && (forall x, y, z :: le(x, y) && le(y, z) ==> le(x, z))
  }

  ghost predicate SortedBy<T>(s: seq<T>, le: (T, T) -> bool) {
    forall i, j :: 0 <= i < j < |s| ==> le(s[i], s[j])
  }

  function Insert<T>(x: T, s: seq<T>, le: (T, T) -> bool): seq<T> {
    if s == [] || le(x, s[0]) then [x] + s else [s[0]] + Insert(x, s[1..], le)
  }

  function Sorted<T>(s: seq<T>, le: (T, T) -> bool): seq<T> {
    if s == [] then [] else Insert(s[0], Sorted(s[1..], le), le)
  }

  lemma {:induction false} InsertKeepsItems<T>(x: T, s: seq<T>, le: (T, T) -> bool)
    ensures multiset(Insert(x, s, le)) == multiset([x]) + multiset(s)
  {
    if s != [] && !le(x, s[0]) {
      InsertKeepsItems(x, s[1..], le);
      assert s == [s[0]] + s[1..];
    }
  }

  lemma {:induction false} SortKeepsItems<T>(s: seq<T>, le: (T, T) -> bool)
    ensures multiset(Sorted(s, le)) == multiset(s)
  {
    if s != [] {
      SortKeepsItems(s[1..], le);
      InsertKeepsItems(s[0], Sorted(s[1..], le), le);
      assert s == [s[0]] + s[1..];
    }
  }

  lemma {:induction false} InsertSorts<T(!new)>(x: T, s: seq<T>, le: (T, T) -> bool)
    requires TotalPreorder(le) && SortedBy(s, le)
    ensures SortedBy(Insert(x, s, le), le)
  {
    var r := Insert(x, s, le);
    if s == [] {
    } else if le(x, s[0]) {
      forall j | 0 < j < |r| ensures le(r[0], r[j]) {
        assert r[j] == s[j - 1];
        assert j > 1 ==> le(s[0], s[j - 1]);
      }
    } else {
      var rest := Insert(x, s[1..], le);
      InsertSorts(x, s[1..], le);
      InsertKeepsItems(x, s[1..], le);
      forall j | 0 < j < |r| ensures le(r[0], r[j]) {
        assert r[j] == rest[j - 1] && rest[j - 1] in multiset(rest);
        if rest[j - 1] != x {
          var k :| 0 <= k < |s[1..]| && s[1..][k] == rest[j - 1];
          assert le(s[0], s[k + 1]);
        }
      }
    }
  }

  lemma {:induction false} SortSorts<T(!new)>(s: seq<T>, le: (T, T) -> bool)
    requires TotalPreorder(le)
    ensures SortedBy(Sorted(s, le), le)
  {
    if s != [] {
      SortSorts(s[1..], le);
      InsertSorts(s[0], Sorted(s[1..], le), le);
    }
  }

  // ---------------------------------------------------------------------------------------
  // Stability and uniqueness

  /** `f` selects only items the order does not tell apart. */
  ghost predicate SelectsTies<T(!new), U>(f: T -> Option<U>, le: (T, T) -> bool) {
    forall x, y :: f(x).Some? && f(y).Some? ==> le(x, y)
  }

  /** Neighbours of which at most one is selected can change places. */
  lemma FilterMapSwap<T, U>(x: T, y: T, rest: seq<T>, f: T -> Option<U>)
    requires f(x).None? || f(y).None?
    ensures FilterMap([x] + ([y] + rest), f) == FilterMap([y] + ([x] + rest), f)
  {
    FilterMapCons(x, [y] + rest, f);
    FilterMapCons(y, [x] + rest, f);
    FilterMapCons(x, rest, f);
    FilterMapCons(y, rest, f);
  }

  lemma {:induction false} InsertIsStable<T(!new), U>(x: T, s: seq<T>, le: (T, T) -> bool, f: T -> Option<U>)
    requires SelectsTies(f, le)
    ensures FilterMap(Insert(x, s, le), f) == FilterMap([x] + s, f)
  {
    if s != [] && !le(x, s[0]) {
      var rest := s[1..];
      InsertIsStable(x, rest, le, f);
      FilterMapCons(s[0], Insert(x, rest, le), f);
      FilterMapCons(x, rest, f);
      FilterMapSwap(x, s[0], rest, f);
      assert s == [s[0]] + rest;
      FilterMapCons(s[0], [x] + rest, f);
    }
  }

  /** Items the order does not tell apart stay in the order they came in. */
  lemma {:induction false} SortIsStable<T(!new), U>(s: seq<T>, le: (T, T) -> bool, f: T -> Option<U>)
    requires SelectsTies(f, le)
    ensures FilterMap(Sorted(s, le), f) == FilterMap(s, f)
  {
    if s != [] {
      SortIsStable(s[1..], le, f);
      InsertIsStable(s[0], Sorted(s[1..], le), le, f);
      FilterMapCons(s[0], Sorted(s[1..], le), f);
      FilterMapCons(s[0], s[1..], f);
      assert s == [s[0]] + s[1..];
    }
  }

  /** The order tells all the items apart. */
  ghost predicate TellsApart<T(!new)>(items: seq<T>, le: (T, T) -> bool) {
    forall x, y :: x in items && y in items && le(x, y) && le(y, x) ==> x == y
  }

  lemma NoItems<T>(s: seq<T>)
    requires multiset(s) == multiset{}
    ensures s == []
  {
    assert |multiset(s)| == |s|;
  }

  lemma MiddleFirst<T>(before: seq<T>, middle: seq<T>, after: seq<T>)
    ensures multiset(before + (middle + after)) == multiset(middle) + multiset(before + after)
  {
  }

  lemma WithoutHead<T>(s: seq<T>)
    requires s != []
    ensures multiset(s[1..]) == multiset(s) - multiset{s[0]}
    ensures s[0] in multiset(s)
  {
    assert s == [s[0]] + s[1..];
  }

  lemma SmallestFirst<T(!new)>(a: seq<T>, x: T, le: (T, T) -> bool)
    requires TotalPreorder(le) && SortedBy(a, le) && x in a
    ensures le(a[0], x)
  {
    var k :| 0 <= k < |a| && a[k] == x;
    assert le(x, x);
  }

  lemma HeadsAgree<T(!new)>(a: seq<T>, b: seq<T>, le: (T, T) -> bool)
    requires a != [] && TotalPreorder(le) && SortedBy(a, le) && SortedBy(b, le)
    requires multiset(a) == multiset(b) && TellsApart(a, le)
    ensures b != [] && a[0] == b[0] && multiset(a[1..]) == multiset(b[1..])
  {
    WithoutHead(a);
    assert a[0] in multiset(b);
    WithoutHead(b);
    assert b[0] in multiset(a);
    SmallestFirst(a, b[0], le);
    SmallestFirst(b, a[0], le);
  }

  lemma TailIsAsGood<T(!new)>(a: seq<T>, le: (T, T) -> bool)
    requires a != []
    ensures SortedBy(a, le) ==> SortedBy(a[1..], le)
    ensures TellsApart(a, le) ==> TellsApart(a[1..], le)
  {
  }

  lemma SameHeadAndTail<T>(a: seq<T>, b: seq<T>)
    requires a != [] && b != [] && a[0] == b[0] && a[1..] == b[1..]
    ensures a == b
  {
    assert a == [a[0]] + a[1..] && b == [b[0]] + b[1..];
  }

  /** Two sorted arrangements of the same items are the same, if the order tells the items apart. */
  lemma {:induction false} SortedIsUnique<T(!new)>(a: seq<T>, b: seq<T>, le: (T, T) -> bool)
    requires TotalPreorder(le) && SortedBy(a, le) && SortedBy(b, le)
    requires multiset(a) == multiset(b) && TellsApart(a, le)
    ensures a == b
  {
    if a == [] {
      NoItems(b);
    } else {
      HeadsAgree(a, b, le);
      TailIsAsGood(a, le);
      TailIsAsGood(b, le);
      SortedIsUnique(a[1..], b[1..], le);
      SameHeadAndTail(a, b);
    }
  }

  // ---------------------------------------------------------------------------------------
  // Rearranging before selecting

  lemma FilterMapPush<T, U>(items: seq<T>, item: T, f: T -> Option<U>)
    ensures FilterMap(items + [item], f) == FilterMap(items, f) + match f(item) { case Some(x) => [x] case None => [] }
  {
    assert (items + [item])[..|items|] == items;
  }

  lemma {:induction false} FilterMapConcat<T, U>(a: seq<T>, b: seq<T>, f: T -> Option<U>)
    ensures FilterMap(a + b, f) == FilterMap(a, f) + FilterMap(b, f)
  {
    if b == [] {
      assert a + b == a;
    } else {
      var n := |b| - 1;
      var init, last := b[..n], b[n];
      FilterMapConcat(a, init, f);
      FilterMapPush(a + init, last, f);
      FilterMapPush(init, last, f);
      assert b == init + [last] && a + b == a + init + [last];
    }
  }

  /** Selecting from a list with some items in the middle. */
  lemma FilterMapAround<T, U>(before: seq<T>, middle: seq<T>, after: seq<T>, f: T -> Option<U>)
    ensures multiset(FilterMap(before + (middle + after), f))
         == multiset(FilterMap(middle, f)) + multiset(FilterMap(before + after, f))
  {
    FilterMapConcat(before, after, f);
    FilterMapConcat(before, middle + after, f);
    FilterMapConcat(middle, after, f);
    MiddleFirst(FilterMap(before, f), FilterMap(middle, f), FilterMap(after, f));
  }

  lemma WithoutOne<T>(s: seq<T>, k: nat)
    requires k < |s|
    ensures multiset(s[..k] + s[k + 1..]) == multiset(s) - multiset{s[k]}
  {
    assert s == s[..k] + ([s[k]] + s[k + 1..]);
  }

  lemma TakeOutBoth<T>(a: seq<T>, b: seq<T>) returns (k: nat)
    requires a != [] && multiset(a) == multiset(b)
    ensures k < |b| && a[0] == b[k] && multiset(a[..0] + a[1..]) == multiset(b[..k] + b[k + 1..])
  {
    WithoutHead(a);
    assert a[0] in multiset(b);
    k :| 0 <= k < |b| && b[k] == a[0];
    WithoutOne(a, 0);
    WithoutOne(b, k);
  }

  lemma CutOut<T>(s: seq<T>, k: nat)
    requires k < |s|
    ensures s == s[..k] + ([s[k]] + s[k + 1..])
  {
  }

  /** What is selected from two arrangements of the same items is the same up to arrangement. */
  lemma {:induction false} SelectedFromEither<T, U>(a: seq<T>, b: seq<T>, f: T -> Option<U>)
    requires multiset(a) == multiset(b)
    ensures multiset(FilterMap(a, f)) == multiset(FilterMap(b, f))
    decreases |a|
  {
    if a == [] {
      NoItems(b);
    } else {
      var k := TakeOutBoth(a, b);
      SelectedFromEither(a[..0] + a[1..], b[..k] + b[k + 1..], f);
      CutOut(a, 0);
      CutOut(b, k);
      FilterMapAround(a[..0], [a[0]], a[1..], f);
      FilterMapAround(b[..k], [b[k]], b[k + 1..], f);
    }
  }
}
