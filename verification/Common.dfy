/** Small types shared by every component. */
module Common {

  datatype Option<+T> = None | Some(value: T)

  datatype Result<+T, +E> = Ok(value: T) | Err(error: E)

  const U32_MAX: nat := 0xffff_ffff
  const U64_MAX: nat := 0xffff_ffff_ffff_ffff
  const I64_MAX: int := 0x7fff_ffff_ffff_ffff
  const I64_MIN: int := -0x8000_0000_0000_0000

  type Byte = x: nat | x < 256
  type U32 = x: nat | x <= U32_MAX
  type U64 = x: nat | x <= U64_MAX
  type I64 = x: int | I64_MIN <= x <= I64_MAX

  function Min(a: int, b: int): int {
    if a <= b then a else b
  }

  /** Unsigned addition that stops at `max` instead of wrapping. */
  function SaturatingAdd(a: nat, b: nat, max: nat): nat {
    Min(a + b, max)
  }

  /** `i64::saturating_sub`. */
  function SaturatingSubI64(a: I64, b: I64): I64 {
    if a - b > I64_MAX then I64_MAX
    else if a - b < I64_MIN then I64_MIN
    else a - b
  }

  ghost predicate StrictlyIncreasing(s: seq<nat>) {
    forall a, b :: 0 <= a < b < |s| ==> s[a] < s[b]
  }

  ghost predicate NoDuplicates<T(!new)>(s: seq<T>) {
    forall a, b :: 0 <= a < b < |s| ==> s[a] != s[b]
  }

  lemma Associative<T>(a: seq<T>, b: seq<T>, c: seq<T>)
    ensures (a + b) + c == a + (b + c)
  {
  }

  /** `filter_map` */
  function FilterMap<T, U>(items: seq<T>, f: T -> Option<U>): seq<U> {
    if items == [] then []
    else
      var n := |items| - 1;
      FilterMap(items[..n], f) + match f(items[n]) { case Some(x) => [x] case None => [] }
  }

  lemma FilterMapSnoc<T, U>(items: seq<T>, f: T -> Option<U>, n: nat)
    requires n < |items|
    ensures FilterMap(items[..n + 1], f)
         == if f(items[n]).Some? then FilterMap(items[..n], f) + [f(items[n]).value] else FilterMap(items[..n], f)
  {
    assert items[..n + 1][..n] == items[..n];
    assert FilterMap(items[..n], f) + [] == FilterMap(items[..n], f);
  }

  lemma {:induction false} FilterMapCons<T, U>(item: T, items: seq<T>, f: T -> Option<U>)
    ensures FilterMap([item] + items, f)
         == (match f(item) { case Some(x) => [x] case None => [] }) + FilterMap(items, f)
  {
    if items == [] {
      assert [item] + items == [item] && [item][..0] == [];
    } else {
      var n := |items| - 1;
      FilterMapCons(item, items[..n], f);
      assert ([item] + items)[..n + 1] == [item] + items[..n];
    }
  }

  lemma {:induction false} FilterMapFrom<T, U>(items: seq<T>, f: T -> Option<U>, x: U) returns (item: T)
    requires x in FilterMap(items, f)
    ensures item in items && f(item) == Some(x)
  {
    var n := |items| - 1;
    if f(items[n]) == Some(x) {
      item := items[n];
    } else {
      item := FilterMapFrom(items[..n], f, x);
    }
  }

  // ---------------------------------------------------------------------------------------
  // Keeping the first item of each key

  ghost function KeysOf<T, K>(items: seq<T>, key: T -> K): set<K> {
    set x | x in items :: key(x)
  }

  /** Keep an item only if no earlier one has its key. */
  ghost function FirstOfEach<T, K>(items: seq<T>, key: T -> K): seq<T> {
    if items == [] then []
    else
      var n := |items| - 1;
      var earlier := FirstOfEach(items[..n], key);
      if key(items[n]) in KeysOf(earlier, key) then earlier else earlier + [items[n]]
  }

  lemma KeysOfSnoc<T, K>(items: seq<T>, item: T, key: T -> K)
    ensures KeysOf(items + [item], key) == KeysOf(items, key) + {key(item)}
  {
    forall k | k in KeysOf(items, key) + {key(item)} ensures k in KeysOf(items + [item], key) {
      var x :| x in items + [item] && key(x) == k;
    }
  }

  lemma FirstOfEachSnoc<T, K>(items: seq<T>, item: T, key: T -> K)
    ensures var kept := FirstOfEach(items, key);
      FirstOfEach(items + [item], key) == if key(item) in KeysOf(kept, key) then kept else kept + [item]
  {
    assert (items + [item])[..|items|] == items;
  }

  /** Position of the first item with this key. */
  function FirstAt<T, K(==)>(items: seq<T>, key: T -> K, k: K): (i: nat)
    ensures i <= |items|
    ensures i < |items| ==> key(items[i]) == k
    ensures forall j :: 0 <= j < i ==> key(items[j]) != k
  {
    if items == [] || key(items[0]) == k then 0 else 1 + FirstAt(items[1..], key, k)
  }

  ghost predicate Covers<T, K>(items: seq<T>, key: T -> K, kept: seq<T>) {
    forall x :: x in items ==> key(x) in KeysOf(kept, key)
  }

  /** The item is the first of its key. */
  ghost predicate IsFirst<T, K>(items: seq<T>, key: T -> K, item: T) {
    var i := FirstAt(items, key, key(item));
    i < |items| && items[i] == item
  }

  ghost predicate AllFirst<T, K>(items: seq<T>, key: T -> K, kept: seq<T>) {
    forall a :: 0 <= a < |kept| ==> IsFirst(items, key, kept[a])
  }

  ghost predicate Before<T, K>(items: seq<T>, key: T -> K, x: T, y: T) {
    FirstAt(items, key, key(x)) < FirstAt(items, key, key(y))
  }

  ghost predicate InOrder<T, K>(items: seq<T>, key: T -> K, kept: seq<T>) {
    forall a, b :: 0 <= a < b < |kept| ==> Before(items, key, kept[a], kept[b])
  }

  /** What is kept covers every key, repeats none, and is in first-seen order. */
  ghost predicate KeepsFirsts<T, K>(items: seq<T>, key: T -> K, kept: seq<T>) {
    Covers(items, key, kept) && InOrder(items, key, kept) && AllFirst(items, key, kept)
  }

  lemma {:induction false} FirstAtSnoc<T, K>(items: seq<T>, item: T, key: T -> K, k: K)
    ensures FirstAt(items + [item], key, k)
         == if FirstAt(items, key, k) < |items| || key(item) == k then FirstAt(items, key, k) else |items| + 1
  {
    if items == [] {
      assert (items + [item])[1..] == [];
    } else {
      assert (items + [item])[1..] == items[1..] + [item];
      FirstAtSnoc(items[1..], item, key, k);
    }
  }

  lemma FirstStaysFirst<T, K>(items: seq<T>, item: T, key: T -> K, x: T)
    requires IsFirst(items, key, x)
    ensures IsFirst(items + [item], key, x)
    ensures FirstAt(items + [item], key, key(x)) == FirstAt(items, key, key(x))
  {
    FirstAtSnoc(items, item, key, key(x));
  }

  lemma NewIsFirst<T, K>(items: seq<T>, item: T, key: T -> K)
    requires key(item) !in KeysOf(items, key)
    ensures IsFirst(items + [item], key, item) && FirstAt(items + [item], key, key(item)) == |items|
  {
    FirstAtSnoc(items, item, key, key(item));
    forall j | 0 <= j < |items| ensures key(items[j]) != key(item) {
      assert items[j] in items;
    }
  }

  lemma OrderStays<T, K>(items: seq<T>, item: T, key: T -> K, kept: seq<T>)
    requires AllFirst(items, key, kept) && InOrder(items, key, kept)
    ensures AllFirst(items + [item], key, kept) && InOrder(items + [item], key, kept)
  {
    forall a | 0 <= a < |kept|
      ensures IsFirst(items + [item], key, kept[a])
      ensures FirstAt(items + [item], key, key(kept[a])) == FirstAt(items, key, key(kept[a]))
    {
      FirstStaysFirst(items, item, key, kept[a]);
    }
    forall a, b | 0 <= a < b < |kept| ensures Before(items + [item], key, kept[a], kept[b]) {
      assert Before(items, key, kept[a], kept[b]);
    }
  }

  lemma NewGoesLast<T, K>(items: seq<T>, item: T, key: T -> K, kept: seq<T>)
    requires AllFirst(items, key, kept) && InOrder(items, key, kept) && key(item) !in KeysOf(items, key)
    ensures AllFirst(items + [item], key, kept + [item]) && InOrder(items + [item], key, kept + [item])
  {
    OrderStays(items, item, key, kept);
    NewIsFirst(items, item, key);
    forall a | 0 <= a < |kept| ensures Before(items + [item], key, kept[a], item) {
      FirstStaysFirst(items, item, key, kept[a]);
      assert IsFirst(items, key, kept[a]);
    }
    forall a, b | 0 <= a < b < |kept + [item]| ensures Before(items + [item], key, (kept + [item])[a], (kept + [item])[b]) {
      if b < |kept| {
        assert Before(items + [item], key, kept[a], kept[b]);
      }
    }
  }

  lemma CoversMore<T, K>(items: seq<T>, item: T, key: T -> K, kept: seq<T>, more: seq<T>)
    requires Covers(items, key, kept) && KeysOf(kept, key) <= KeysOf(more, key) && key(item) in KeysOf(more, key)
    ensures Covers(items + [item], key, more)
  {
  }

  /** Keys kept are keys seen, and every key seen is kept. */
  lemma KeptKeysAreKeys<T, K>(items: seq<T>, key: T -> K, kept: seq<T>)
    requires Covers(items, key, kept) && AllFirst(items, key, kept)
    ensures KeysOf(kept, key) == KeysOf(items, key)
  {
    forall k | k in KeysOf(kept, key) ensures k in KeysOf(items, key) {
      var x :| x in kept && key(x) == k;
      var a :| 0 <= a < |kept| && kept[a] == x;
      assert IsFirst(items, key, kept[a]);
    }
  }

  lemma {:induction false} FirstOfEachKeepsFirsts<T, K>(items: seq<T>, key: T -> K)
    ensures KeepsFirsts(items, key, FirstOfEach(items, key))
  {
    if items != [] {
      var n := |items| - 1;
      var init, item := items[..n], items[n];
      FirstOfEachKeepsFirsts(init, key);
      var kept := FirstOfEach(init, key);
      assert items == init + [item];
      FirstOfEachSnoc(init, item, key);
      KeptKeysAreKeys(init, key, kept);
      if key(item) in KeysOf(kept, key) {
        OrderStays(init, item, key, kept);
        CoversMore(init, item, key, kept, kept);
      } else {
        NewGoesLast(init, item, key, kept);
        KeysOfSnoc(kept, item, key);
        CoversMore(init, item, key, kept, kept + [item]);
      }
    }
  }

  // ---------------------------------------------------------------------------------------
  // Keyed lists as first-match tables

  /** The first item with this key. */
  function First<T, K(==)>(items: seq<T>, key: T -> K, k: K): Option<T> {
    if items == [] then None
    else if key(items[0]) == k then Some(items[0])
    else First(items[1..], key, k)
  }

  lemma {:induction false} FirstIsKeyed<T, K>(items: seq<T>, key: T -> K, k: K)
    ensures First(items, key, k).Some? <==> k in KeysOf(items, key)
    ensures First(items, key, k).Some? ==> key(First(items, key, k).value) == k
  {
    if items != [] {
      FirstIsKeyed(items[1..], key, k);
      assert items == [items[0]] + items[1..];
      KeysOfConcat([items[0]], items[1..], key);
    }
  }

  lemma KeysOfConcat<T, K>(a: seq<T>, b: seq<T>, key: T -> K)
    ensures KeysOf(a + b, key) == KeysOf(a, key) + KeysOf(b, key)
  {
    forall k | k in KeysOf(a, key) + KeysOf(b, key) ensures k in KeysOf(a + b, key) {
      var x :| (x in a || x in b) && key(x) == k;
      assert x in a + b;
    }
  }

  lemma {:induction false} FirstAppend<T, K>(items: seq<T>, more: seq<T>, key: T -> K, k: K)
    ensures First(items + more, key, k) == if First(items, key, k).Some? then First(items, key, k) else First(more, key, k)
  {
    if items == [] {
      assert items + more == more;
    } else {
      assert (items + more)[1..] == items[1..] + more;
      FirstAppend(items[1..], more, key, k);
    }
  }

  /** Append the items whose key is not there yet, one after another. */
  ghost function Union<T, K>(held: seq<T>, items: seq<T>, key: T -> K): seq<T> {
    if items == [] then held
    else
      var n := |items| - 1;
      var before := Union(held, items[..n], key);
      if key(items[n]) in KeysOf(before, key) then before else before + [items[n]]
  }

  lemma UnionSnoc<T, K>(held: seq<T>, items: seq<T>, item: T, key: T -> K)
    ensures var before := Union(held, items, key);
      Union(held, items + [item], key) == if key(item) in KeysOf(before, key) then before else before + [item]
  {
    assert (items + [item])[..|items|] == items;
  }

  lemma {:induction false} UnionKeys<T, K>(held: seq<T>, items: seq<T>, key: T -> K)
    ensures KeysOf(Union(held, items, key), key) == KeysOf(held, key) + KeysOf(items, key)
    ensures held <= Union(held, items, key)
  {
    if items != [] {
      var n := |items| - 1;
      UnionKeys(held, items[..n], key);
      assert items == items[..n] + [items[n]];
      KeysOfSnoc(items[..n], items[n], key);
      KeysOfSnoc(Union(held, items[..n], key), items[n], key);
    }
  }

  lemma {:induction false} UnionAssociative<T, K>(a: seq<T>, b: seq<T>, c: seq<T>, key: T -> K)
    ensures Union(Union(a, b, key), c, key) == Union(a, Union(b, c, key), key)
  {
    if c != [] {
      var n := |c| - 1;
      UnionAssociative(a, b, c[..n], key);
      var d := Union(b, c[..n], key);
      UnionKeys(a, d, key);
      UnionSnoc(a, d, c[n], key);
    }
  }

  /** Adding items whose keys are all held changes nothing. */
  lemma {:induction false} UnionAgain<T, K>(held: seq<T>, items: seq<T>, key: T -> K)
    requires KeysOf(items, key) <= KeysOf(held, key)
    ensures Union(held, items, key) == held
  {
    if items != [] {
      var n := |items| - 1;
      assert items == items[..n] + [items[n]];
      KeysOfSnoc(items[..n], items[n], key);
      UnionAgain(held, items[..n], key);
    }
  }

  /** Looking a key up in a union: what was held answers first. */
  lemma {:induction false} UnionLookup<T, K>(held: seq<T>, items: seq<T>, key: T -> K, k: K)
    ensures First(Union(held, items, key), key, k)
         == if First(held, key, k).Some? then First(held, key, k) else First(items, key, k)
  {
    if items != [] {
      var n := |items| - 1;
      var before := Union(held, items[..n], key);
      UnionLookup(held, items[..n], key, k);
      assert items == items[..n] + [items[n]];
      FirstAppend(items[..n], [items[n]], key, k);
      FirstAppend(before, [items[n]], key, k);
      FirstIsKeyed(before, key, key(items[n]));
    }
  }
}
