/**
 * Sorting of project and file lists (apps/web/hooks/use-sorting.ts,
 * `useSorting`): the items are copied into a new array, the copy is sorted in
 * place (alphabetically by name, or newest first by date) and, for the
 * "oldest" order, reversed in place.
 *
 * `Array.prototype.sort` is stable; it is modelled by a stable insertion sort
 * on a key: a comparator `cmp(a, b)` that is positive exactly when
 * `key(a) > key(b)` puts `a` after `b`.
 */
module UseSorting {
  import opened Wrappers

  datatype SortBy = Alphabetical | LastModified
  datatype Order = Newest | Oldest

  /** Non-decreasing by key. */
  predicate SortedBy<T>(s: seq<T>, key: T -> int) {
    forall i, j | 0 <= i < j < |s| :: key(s[i]) <= key(s[j])
  }

  /** Non-increasing by key. */
  predicate SortedDownBy<T>(s: seq<T>, key: T -> int) {
    forall i, j | 0 <= i < j < |s| :: key(s[i]) >= key(s[j])
  }

  /** `x` inserted into `s` after every element whose key is not greater than its own. */
  function Insert<T>(s: seq<T>, x: T, key: T -> int): seq<T> {
    if s == [] || key(s[|s| - 1]) <= key(x) then s + [x]
    else Insert(s[..|s| - 1], x, key) + [s[|s| - 1]]
  }

  /** The stable sort of `s` by key, inserting the elements left to right. */
  function InsertionSort<T>(s: seq<T>, key: T -> int): seq<T> {
    if s == [] then []
    else Insert(InsertionSort(s[..|s| - 1], key), s[|s| - 1], key)
  }

  function Reversed<T>(s: seq<T>): (r: seq<T>)
    ensures |r| == |s|
  {
    if s == [] then [] else [s[|s| - 1]] + Reversed(s[..|s| - 1])
  }

  /** The key the comparator of `useSorting` orders by. */
  function SortKey<T>(sortBy: SortBy, getName: T -> string, getDate: T -> Option<string>,
                      collation: string -> int, parseTime: string -> int): T -> int
  {
    match sortBy
    case Alphabetical => (x: T) => collation(getName(x))
    case LastModified => (x: T) => -Timestamp(getDate(x), parseTime)
  }

  /** `new Date(date ?? 0).getTime()`: a missing date is the epoch. */
  function Timestamp(date: Option<string>, parseTime: string -> int): int {
    if date.None? then 0 else parseTime(date.value)
  }

  /** What `useSorting` returns. */
  function Sorted<T>(items: seq<T>, sortBy: SortBy, order: Order, getName: T -> string, getDate: T -> Option<string>,
                     collation: string -> int, parseTime: string -> int): seq<T>
  {
    var sorted := InsertionSort(items, SortKey(sortBy, getName, getDate, collation, parseTime));
    if order == Oldest then Reversed(sorted) else sorted
  }

  // ---------------------------------------------------------------------------
  // The imperative steps

  /** `[...items]`: a fresh copy. */
  method Copy<T>(items: array<T>) returns (copy: array<T>)
    ensures fresh(copy) && copy[..] == items[..]
  {
    copy := new T[items.Length](i requires 0 <= i < items.Length reads items => items[i]);
  }

  /** `sorted.sort(cmp)`, in place. */
  method SortInPlace<T>(a: array<T>, key: T -> int)
    modifies a
    ensures a[..] == InsertionSort(old(a[..]), key)
  {
    ghost var original := a[..];
    for i := 0 to a.Length
      invariant a[..i] == InsertionSort(original[..i], key)
      invariant a[i..] == original[i..]
    {
      assert original[..i + 1][..i] == original[..i];
      InsertAt(a, i, key);
    }
    assert original[..a.Length] == original;
    assert a[..a.Length] == a[..];
  }

  /** One step of the insertion sort: moves `a[i]` down into the sorted prefix `a[..i]`. */
  method InsertAt<T>(a: array<T>, i: nat, key: T -> int)
    requires i < a.Length
    modifies a
    ensures a[..i + 1] == Insert(old(a[..i]), old(a[i]), key)
    ensures a[i + 1..] == old(a[i + 1..])
  {
    ghost var prefix := a[..i];
    ghost var rest := a[i + 1..];
    var x := a[i];
    var j := i;
    assert prefix[..j] == prefix && prefix[j..] == [];
    assert Insert(prefix, x, key) == Insert(prefix[..j], x, key) + prefix[j..];
    assert a[..] == prefix[..j] + [x] + prefix[j..] + rest by {
      assert a[..] == a[..i] + [a[i]] + a[i + 1..];
    }
    while j > 0 && key(a[j - 1]) > key(x)
      invariant 0 <= j <= i
      invariant a[..] == prefix[..j] + [x] + prefix[j..] + rest
      invariant Insert(prefix, x, key) == Insert(prefix[..j], x, key) + prefix[j..]
    {
      ghost var before := a[..];
      AroundInsertion(prefix, j, x, rest);
      InsertStep(prefix, j, x, key);
      SwapStep(prefix, j, x, rest);
      a[j - 1], a[j] := a[j], a[j - 1];
      assert a[..] == before[j - 1 := before[j]][j := before[j - 1]];
      j := j - 1;
    }
    InsertStops(prefix, j, x, key);
    SplitAt(a[..], Insert(prefix, x, key), rest);
  }

  /** While `x` sits at position `j`, the element before it is the prefix's `j - 1`-th. */
  lemma AroundInsertion<T>(p: seq<T>, j: nat, x: T, rest: seq<T>)
    requires 0 < j <= |p|
    ensures (p[..j] + [x] + p[j..] + rest)[j - 1] == p[j - 1]
    ensures (p[..j] + [x] + p[j..] + rest)[j] == x
  {
  }

  /** A sequence made of two parts splits back into them. */
  lemma SplitAt<T>(s: seq<T>, t: seq<T>, u: seq<T>)
    requires s == t + u
    ensures s[..|t|] == t && s[|t|..] == u
  {
  }

  /** Swapping `x` with the element before it moves it one place down. */
  lemma SwapStep<T>(p: seq<T>, j: nat, x: T, rest: seq<T>)
    requires 0 < j <= |p|
    ensures var s := p[..j] + [x] + p[j..] + rest;
      s[j - 1 := s[j]][j := s[j - 1]] == p[..j - 1] + [x] + p[j - 1..] + rest
  {
    var s := p[..j] + [x] + p[j..] + rest;
    var t := s[j - 1 := s[j]][j := s[j - 1]];
    var u := p[..j - 1] + [x] + p[j - 1..] + rest;
    assert |t| == |u|;
    forall k | 0 <= k < |t| ensures t[k] == u[k] {
      if k < j - 1 {
      } else if k == j - 1 {
      } else if k == j {
      } else {
      }
    }
  }

  /** `sorted.reverse()`, in place. */
  method ReverseInPlace<T>(a: array<T>)
    modifies a
    ensures a[..] == Reversed(old(a[..]))
  {
    ghost var original := a[..];
    var lo, hi := 0, a.Length;
    while lo + 1 < hi
      invariant 0 <= lo <= hi <= a.Length && lo + hi == a.Length
      invariant forall k | 0 <= k < lo :: a[k] == original[a.Length - 1 - k]
      invariant forall k | hi <= k < a.Length :: a[k] == original[a.Length - 1 - k]
      invariant forall k | lo <= k < hi :: a[k] == original[k]
    {
      a[lo], a[hi - 1] := a[hi - 1], a[lo];
      lo, hi := lo + 1, hi - 1;
    }
    ReversedAt(original);
  }

  /** `useSorting({items, sortBy, order, getDate, getName})`. */
  method UseSorting<T>(items: array<T>, sortBy: SortBy, order: Order, getName: T -> string, getDate: T -> Option<string>,
                       collation: string -> int, parseTime: string -> int)
    returns (sorted: array<T>)
    ensures fresh(sorted)
    ensures sorted[..] == Sorted(items[..], sortBy, order, getName, getDate, collation, parseTime)
  {
    sorted := Copy(items);
    SortInPlace(sorted, SortKey(sortBy, getName, getDate, collation, parseTime));
    if order == Oldest {
      ReverseInPlace(sorted);
    }
  }

  // ---------------------------------------------------------------------------
  // Proof steps of the imperative insertion

  lemma InsertStep<T>(prefix: seq<T>, j: nat, x: T, key: T -> int)
    requires 0 < j <= |prefix| && key(prefix[j - 1]) > key(x)
    ensures Insert(prefix[..j], x, key) + prefix[j..] == Insert(prefix[..j - 1], x, key) + prefix[j - 1..]
  {
    assert prefix[..j][..j - 1] == prefix[..j - 1];
    assert [prefix[j - 1]] + prefix[j..] == prefix[j - 1..];
  }

  lemma InsertStops<T>(prefix: seq<T>, j: nat, x: T, key: T -> int)
    requires j <= |prefix| && (j == 0 || key(prefix[j - 1]) <= key(x))
    ensures Insert(prefix[..j], x, key) == prefix[..j] + [x]
  {
  }

  lemma ReversedAt<T>(s: seq<T>)
    ensures forall k | 0 <= k < |s| :: Reversed(s)[k] == s[|s| - 1 - k]
  {
    if s != [] {
      ReversedAt(s[..|s| - 1]);
    }
  }

  // ---------------------------------------------------------------------------
  // What the sort promises

  /** Inserting into a sorted sequence keeps it sorted. */
  lemma {:induction false} InsertSorted<T>(s: seq<T>, x: T, key: T -> int)
    requires SortedBy(s, key)
    ensures SortedBy(Insert(s, x, key), key)
  {
    if s != [] && key(s[|s| - 1]) > key(x) {
      var init, last := s[..|s| - 1], s[|s| - 1];
      InsertSorted(init, x, key);
      InsertBound(init, x, last, key);
      SortedAppend(Insert(init, x, key), last, key);
    } else {
      SortedAppend(s, x, key);
    }
  }

  lemma SortedAppend<T>(s: seq<T>, last: T, key: T -> int)
    requires SortedBy(s, key)
    requires forall i | 0 <= i < |s| :: key(s[i]) <= key(last)
    ensures SortedBy(s + [last], key)
  {
  }

  /** Inserting adds exactly `x`. */
  lemma {:induction false} InsertAdds<T>(s: seq<T>, x: T, key: T -> int)
    ensures multiset(Insert(s, x, key)) == multiset(s) + multiset{x}
  {
    if s != [] && key(s[|s| - 1]) > key(x) {
      InsertAdds(s[..|s| - 1], x, key);
      assert s == s[..|s| - 1] + [s[|s| - 1]];
    }
  }

  /** Every element of `Insert(s, x)` is at most `b` when every element of `s` and `x` is. */
  lemma {:induction false} InsertBound<T>(s: seq<T>, x: T, last: T, key: T -> int)
    requires forall i | 0 <= i < |s| :: key(s[i]) <= key(last)
    requires key(x) <= key(last)
    ensures forall i | 0 <= i < |Insert(s, x, key)| :: key(Insert(s, x, key)[i]) <= key(last)
  {
    if s != [] && key(s[|s| - 1]) > key(x) {
      InsertBound(s[..|s| - 1], x, last, key);
    }
  }

  /** The sort's result is sorted by key and a permutation of its input. */
  lemma {:induction false} SortSortsAndPermutes<T>(s: seq<T>, key: T -> int)
    ensures SortedBy(InsertionSort(s, key), key)
    ensures multiset(InsertionSort(s, key)) == multiset(s)
  {
    if s != [] {
      var init, x := s[..|s| - 1], s[|s| - 1];
      var sorted := InsertionSort(init, key);
      assert InsertionSort(s, key) == Insert(sorted, x, key);
      SortSortsAndPermutes(init, key);
      InsertSorted(sorted, x, key);
      InsertAdds(sorted, x, key);
      assert multiset(s) == multiset(init) + multiset{x} by {
        assert s == init + [x];
      }
    }
  }

  /** Reversing keeps the elements and turns non-decreasing into non-increasing. */
  lemma ReversedSortedDown<T>(s: seq<T>, key: T -> int)
    requires SortedBy(s, key)
    ensures SortedDownBy(Reversed(s), key)
    ensures multiset(Reversed(s)) == multiset(s)
  {
    ReversedAt(s);
    ReversedMultiset(s);
  }

  lemma {:induction false} ReversedMultiset<T>(s: seq<T>)
    ensures multiset(Reversed(s)) == multiset(s)
  {
    if s != [] {
      ReversedMultiset(s[..|s| - 1]);
      assert s == s[..|s| - 1] + [s[|s| - 1]];
    }
  }

  /**
   * The result of `useSorting` is a permutation of the items; newest-first is
   * ascending by key (names in collation order, dates latest first) and
   * oldest-first is exactly its reverse.
   */
  lemma SortingResult<T>(items: seq<T>, sortBy: SortBy, getName: T -> string, getDate: T -> Option<string>,
                         collation: string -> int, parseTime: string -> int)
    ensures var key := SortKey(sortBy, getName, getDate, collation, parseTime);
      var newest := Sorted(items, sortBy, Newest, getName, getDate, collation, parseTime);
      var oldest := Sorted(items, sortBy, Oldest, getName, getDate, collation, parseTime);
      && multiset(newest) == multiset(items) && multiset(oldest) == multiset(items)
      && SortedBy(newest, key) && SortedDownBy(oldest, key)
      && oldest == Reversed(newest)
  {
    var key := SortKey(sortBy, getName, getDate, collation, parseTime);
    SortSortsAndPermutes(items, key);
    ReversedSortedDown(InsertionSort(items, key), key);
  }

  /** By date, newest first means non-increasing timestamps, a missing date counting as the epoch. */
  lemma NewestByDate<T>(items: seq<T>, getName: T -> string, getDate: T -> Option<string>,
                        collation: string -> int, parseTime: string -> int)
    ensures var r := Sorted(items, LastModified, Newest, getName, getDate, collation, parseTime);
      forall i, j | 0 <= i < j < |r| :: Timestamp(getDate(r[i]), parseTime) >= Timestamp(getDate(r[j]), parseTime)
  {
    SortingResult(items, LastModified, getName, getDate, collation, parseTime);
  }

  /** Alphabetically, newest first is ascending in collation order and oldest first descending. */
  lemma AlphabeticalOrder<T>(items: seq<T>, getName: T -> string, getDate: T -> Option<string>,
                             collation: string -> int, parseTime: string -> int)
    ensures var r := Sorted(items, Alphabetical, Newest, getName, getDate, collation, parseTime);
      forall i, j | 0 <= i < j < |r| :: collation(getName(r[i])) <= collation(getName(r[j]))
    ensures var r := Sorted(items, Alphabetical, Oldest, getName, getDate, collation, parseTime);
      forall i, j | 0 <= i < j < |r| :: collation(getName(r[i])) >= collation(getName(r[j]))
  {
    SortingResult(items, Alphabetical, getName, getDate, collation, parseTime);
  }
}
