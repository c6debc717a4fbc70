/** Stands for sort.Slice by uid: some ordering of the same items. */
module Sorting {

  ghost predicate SortedBy<T>(uid: T -> int, items: seq<T>) {
    forall i, j | 0 <= i < j < |items| :: uid(items[i]) <= uid(items[j])
  }

  method InsertBy<T>(uid: T -> int, items: seq<T>, x: T) returns (out: seq<T>)
    requires SortedBy(uid, items)
    ensures SortedBy(uid, out) && multiset(out) == multiset(items) + multiset{x}
  {
    var k := |items|;
    while k > 0 && uid(items[k - 1]) > uid(x)
      invariant 0 <= k <= |items|
      invariant forall i | k <= i < |items| :: uid(items[i]) > uid(x)
    {
      k := k - 1;
    }
    out := items[..k] + [x] + items[k..];
    Inserted(uid, items, x, k);
    SameItems(items, x, k);
  }

  lemma Inserted<T>(uid: T -> int, items: seq<T>, x: T, k: nat)
    requires SortedBy(uid, items) && k <= |items|
    requires forall i | k <= i < |items| :: uid(items[i]) > uid(x)
    requires k > 0 ==> uid(items[k - 1]) <= uid(x)
    ensures SortedBy(uid, items[..k] + [x] + items[k..])
  {
    Split(uid, items, x, k);
    Around(uid, items[..k], x, items[k..]);
  }

  lemma SameItems<T>(items: seq<T>, x: T, k: nat)
    requires k <= |items|
    ensures multiset(items[..k] + [x] + items[k..]) == multiset(items) + multiset{x}
  {
    assert items == items[..k] + items[k..];
  }

  lemma Around<T>(uid: T -> int, a: seq<T>, x: T, b: seq<T>)
    requires SortedBy(uid, a) && SortedBy(uid, b)
    requires forall i | 0 <= i < |a| :: uid(a[i]) <= uid(x)
    requires forall j | 0 <= j < |b| :: uid(b[j]) > uid(x)
    ensures SortedBy(uid, a + [x] + b)
  {
    Joined(uid, a, [x]);
    forall i, j | 0 <= i < |a + [x]| && 0 <= j < |b| ensures uid((a + [x])[i]) <= uid(b[j]) {}
    Joined(uid, a + [x], b);
  }

  lemma Split<T>(uid: T -> int, items: seq<T>, x: T, k: nat)
    requires SortedBy(uid, items) && k <= |items|
    requires forall i | k <= i < |items| :: uid(items[i]) > uid(x)
    requires k > 0 ==> uid(items[k - 1]) <= uid(x)
    ensures SortedBy(uid, items[..k]) && SortedBy(uid, items[k..])
    ensures forall i | 0 <= i < k :: uid(items[..k][i]) <= uid(x)
    ensures forall j | 0 <= j < |items| - k :: uid(items[k..][j]) > uid(x)
  {
    forall i | 0 <= i < k - 1 ensures uid(items[i]) <= uid(items[k - 1]) {}
  }

  lemma Joined<T>(uid: T -> int, a: seq<T>, b: seq<T>)
    requires SortedBy(uid, a) && SortedBy(uid, b)
    requires forall i, j | 0 <= i < |a| && 0 <= j < |b| :: uid(a[i]) <= uid(b[j])
    ensures SortedBy(uid, a + b)
  {
  }

  method Sort<T>(uid: T -> int, items: seq<T>) returns (out: seq<T>)
    ensures SortedBy(uid, out) && multiset(out) == multiset(items)
  {
    out := [];
    for n := 0 to |items|
      invariant SortedBy(uid, out) && multiset(out) == multiset(items[..n])
    {
      out := InsertBy(uid, out, items[n]);
      assert items[..n + 1] == items[..n] + [items[n]];
    }
    assert items[..|items|] == items;
  }
}
