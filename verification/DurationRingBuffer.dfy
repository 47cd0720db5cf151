/**
 The ring buffer behind the duration statistics of a queue.
*/
module DurationRingBuffer {
  import opened Arithmetic

  // ---------- Order statistics ----------

  function CountBelow(s: seq<int>, x: int): nat {
    if s == [] then 0 else CountBelow(s[..|s| - 1], x) + if s[|s| - 1] < x then 1 else 0
  }

  /**
   `x` stands at rank `k` of `s`, counted from 0: it occurs, at most `k` elements are smaller, and more
   than `k` are not greater. No order of `s` is involved.
  */
  predicate HasRank(s: seq<int>, k: nat, x: int) {
    x in s && CountBelow(s, x) <= k < CountBelow(s, x + 1)
  }

  lemma {:induction false} CountGrows(s: seq<int>, x: int, y: int)
    requires x <= y
    ensures CountBelow(s, x) <= CountBelow(s, y)
  {
    if s != [] {
      CountGrows(s[..|s| - 1], x, y);
    }
  }

  /** At most one element stands at a rank. */
  lemma RankIsUnique(s: seq<int>, k: nat, x: int, y: int)
    requires HasRank(s, k, x) && HasRank(s, k, y)
    ensures x == y
  {
    if x < y {
      CountGrows(s, x + 1, y);
    } else if y < x {
      CountGrows(s, y + 1, x);
    }
  }

  lemma {:induction false} CountAppend(s: seq<int>, t: seq<int>, x: int)
    ensures CountBelow(s + t, x) == CountBelow(s, x) + CountBelow(t, x)
  {
    if t == [] {
      assert s + t == s;
    } else {
      var front := t[..|t| - 1];
      assert (s + t)[..|s + t| - 1] == s + front;
      CountAppend(s, front, x);
    }
  }

  lemma {:induction false} CountIgnoresOrder(s: seq<int>, t: seq<int>, x: int)
    requires multiset(s) == multiset(t)
    ensures CountBelow(s, x) == CountBelow(t, x)
  {
    if s == [] {
      assert |multiset(t)| == 0;
    } else {
      var last := s[|s| - 1];
      assert s == s[..|s| - 1] + [last];
      assert last in multiset(t);
      var i :| 0 <= i < |t| && t[i] == last;
      var rest := t[..i] + t[i + 1..];
      assert t == t[..i] + [last] + t[i + 1..];
      assert multiset(s[..|s| - 1]) == multiset(s) - multiset{last};
      assert multiset(rest) == multiset(t) - multiset{last};
      CountIgnoresOrder(s[..|s| - 1], rest, x);
      CountAppend(t[..i] + [last], t[i + 1..], x);
      CountAppend(t[..i], [last], x);
      CountAppend(t[..i], t[i + 1..], x);
      assert [last][..0] == [];
    }
  }

  predicate Sorted(s: seq<int>) {
    forall i, j :: 0 <= i <= j < |s| ==> s[i] <= s[j]
  }

  lemma {:induction false} AtMostBelow(s: seq<int>, k: nat, x: int)
    requires k <= |s| && forall i :: k <= i < |s| ==> s[i] >= x
    ensures CountBelow(s, x) <= k
  {
    if |s| > k {
      AtMostBelow(s[..|s| - 1], k, x);
    } else if k > 0 {
      AtMostBelow(s[..k - 1], k - 1, x);
    }
  }

  lemma {:induction false} AtLeastBelow(s: seq<int>, k: nat, x: int)
    requires k <= |s| && forall i :: 0 <= i < k ==> s[i] < x
    ensures CountBelow(s, x) >= k
  {
    if |s| > k {
      AtLeastBelow(s[..|s| - 1], k, x);
    } else if k > 0 {
      AtLeastBelow(s[..k - 1], k - 1, x);
    }
  }

  lemma CountInSorted(s: seq<int>, k: nat)
    requires Sorted(s) && k < |s|
    ensures CountBelow(s, s[k]) <= k < CountBelow(s, s[k] + 1)
  {
    AtMostBelow(s, k, s[k]);
    AtLeastBelow(s, k + 1, s[k] + 1);
  }

  /** The element at an index of the sorted values stands at that rank of the unsorted ones. */
  lemma SortedIndexIsRank(values: seq<int>, sorted: seq<int>, k: nat)
    requires Sorted(sorted) && multiset(sorted) == multiset(values) && k < |sorted|
    ensures HasRank(values, k, sorted[k])
  {
    CountInSorted(sorted, k);
    CountIgnoresOrder(values, sorted, sorted[k]);
    CountIgnoresOrder(values, sorted, sorted[k] + 1);
    assert sorted[k] in multiset(values);
  }

  // ---------- Sums ----------

  function Sum(s: seq<int>): int {
    if s == [] then 0 else Sum(s[..|s| - 1]) + s[|s| - 1]
  }

  lemma {:induction false} SumAppend(s: seq<int>, t: seq<int>)
    ensures Sum(s + t) == Sum(s) + Sum(t)
  {
    if t == [] {
      assert s + t == s;
    } else {
      var front := t[..|t| - 1];
      assert (s + t)[..|s + t| - 1] == s + front;
      SumAppend(s, front);
    }
  }

  lemma {:induction false} SumIgnoresOrder(s: seq<int>, t: seq<int>)
    requires multiset(s) == multiset(t)
    ensures Sum(s) == Sum(t)
  {
    if s == [] {
      assert |multiset(t)| == 0;
    } else {
      var last := s[|s| - 1];
      assert s == s[..|s| - 1] + [last];
      assert last in multiset(t);
      var i :| 0 <= i < |t| && t[i] == last;
      var rest := t[..i] + t[i + 1..];
      assert t == t[..i] + [last] + t[i + 1..];
      assert multiset(s[..|s| - 1]) == multiset(s) - multiset{last};
      assert multiset(rest) == multiset(t) - multiset{last};
      SumIgnoresOrder(s[..|s| - 1], rest);
      SumAppend(t[..i] + [last], t[i + 1..]);
      SumAppend(t[..i], [last]);
      SumAppend(t[..i], t[i + 1..]);
      assert [last][..0] == [];
    }
  }

  lemma {:induction false} SumBetween(s: seq<int>, low: int, high: int)
    requires forall i :: 0 <= i < |s| ==> low <= s[i] <= high
    ensures |s| * low <= Sum(s) <= |s| * high
  {
    if s != [] {
      SumBetween(s[..|s| - 1], low, high);
    }
  }

  // ---------- The last durations ----------

  function Min(a: nat, b: nat): nat {
    if a < b then a else b
  }

  /** The last `n` elements, or all when there are fewer. */
  function Last(s: seq<int>, n: nat): seq<int> {
    s[|s| - Min(|s|, n)..]
  }

  /** The slots up to the write position hold the newest durations, the slots after it those before them. */
  predicate Holds(slots: seq<int>, pushed: seq<int>)
    requires |slots| >= 1
  {
    var n, w := |pushed|, |pushed| % |slots|;
    && w <= n
    && slots[..w] == pushed[n - w..]
    && (n >= |slots| ==> slots[w..] == pushed[n - |slots|..n - w])
  }

  lemma PushHoldsInside(slots: seq<int>, pushed: seq<int>, x: int, w: nat)
    requires w < |slots| - 1 && w == |pushed| % |slots| && w + 1 == (|pushed| + 1) % |slots| && Holds(slots, pushed)
    requires |pushed| + 1 >= |slots| ==> |pushed| >= |slots|
    ensures Holds(slots[w := x], pushed + [x])
  {
    var n, after, longer := |pushed|, slots[w := x], pushed + [x];
    assert after[..w + 1] == slots[..w] + [x];
    assert longer[n - w..] == pushed[n - w..] + [x];
    if n >= |slots| {
      assert after[w + 1..] == slots[w..][1..];
      assert longer[n + 1 - |slots|..n - w] == pushed[n - |slots|..n - w][1..];
    }
  }

  lemma PushHoldsAtEnd(slots: seq<int>, pushed: seq<int>, x: int, w: nat)
    requires w == |slots| - 1 && w == |pushed| % |slots| && (|pushed| + 1) % |slots| == 0 && Holds(slots, pushed)
    ensures Holds(slots[w := x], pushed + [x])
  {
    var n, after, longer := |pushed|, slots[w := x], pushed + [x];
    assert after[..] == slots[..w] + [x];
    assert longer[n - w..] == pushed[n - w..] + [x];
    assert longer[n + 1 - |slots|..n + 1] == longer[n - w..];
    assert after[0..] == after[..];
  }

  lemma PushHolds(slots: seq<int>, pushed: seq<int>, x: int)
    requires |slots| >= 1 && Holds(slots, pushed)
    ensures Holds(slots[|pushed| % |slots| := x], pushed + [x])
  {
    var w := |pushed| % |slots|;
    NextSlot(|pushed|, |slots|);
    NextSlot(|pushed| + 1, |slots|);
    if w < |slots| - 1 {
      PushHoldsInside(slots, pushed, x, w);
    } else {
      PushHoldsAtEnd(slots, pushed, x, w);
    }
  }

  /** A full ring is the last durations, cut at the write position and put together the other way round. */
  lemma FullRingIsRecent(slots: seq<int>, pushed: seq<int>, w: nat)
    requires w <= |slots| <= |pushed|
    requires slots[..w] == pushed[|pushed| - w..] && slots[w..] == pushed[|pushed| - |slots|..|pushed| - w]
    ensures multiset(slots) == multiset(pushed[|pushed| - |slots|..])
  {
    assert slots == slots[..w] + slots[w..];
    assert pushed[|pushed| - |slots|..] == pushed[|pushed| - |slots|..|pushed| - w] + pushed[|pushed| - w..];
  }

  lemma HoldsRecent(slots: seq<int>, pushed: seq<int>)
    requires |slots| >= 1 && Holds(slots, pushed)
    ensures multiset(slots[..Min(|pushed|, |slots|)]) == multiset(Last(pushed, |slots|))
  {
    var n, w, capacity := |pushed|, |pushed| % |slots|, |slots|;
    NextSlot(n, capacity);
    if n < capacity {
      assert slots[..n] == pushed;
    } else {
      FullRingIsRecent(slots, pushed, w);
      assert slots[..capacity] == slots;
    }
  }

  lemma HoldsNewest(slots: seq<int>, pushed: seq<int>)
    requires |slots| >= 1 && Holds(slots, pushed) && pushed != []
    ensures var previous := (|pushed| % |slots| - 1 + |slots|) % |slots|;
            0 <= previous < |slots| && slots[previous] == pushed[|pushed| - 1]
  {
    var n, w, capacity := |pushed|, |pushed| % |slots|, |slots|;
    PreviousSlot(n, capacity);
    if w == 0 {
      assert slots[capacity - 1] == slots[w..][capacity - 1];
    } else {
      assert slots[w - 1] == slots[..w][w - 1];
    }
  }

  datatype Stats = Stats(min: int, max: int, avg: real, p95: int, p99: int, last: int)

  /** The least and the greatest of the values and the two percentiles stand at their ranks, and are in order. */
  ghost predicate DescribesRanks(stats: Stats, values: seq<int>) {
    && values != []
    && HasRank(values, 0, stats.min)
    && HasRank(values, |values| - 1, stats.max)
    && HasRank(values, |values| * 95 / 100, stats.p95)
    && HasRank(values, |values| * 99 / 100, stats.p99)
    && stats.min <= stats.p95 <= stats.p99 <= stats.max
  }

  /** The average is exact, and lies between the least and the greatest value. */
  ghost predicate DescribesAverage(stats: Stats, values: seq<int>) {
    && stats.avg * |values| as real == Sum(values) as real
    && stats.min as real <= stats.avg <= stats.max as real
  }

  lemma SameSize(s: seq<int>, t: seq<int>)
    requires multiset(s) == multiset(t)
    ensures |s| == |t|
  {
    assert |multiset(s)| == |s| && |multiset(t)| == |t|;
  }

  function StatsOf(sorted: seq<int>, sum: int, last: int): Stats
    requires sorted != []
  {
    var k := |sorted|;
    Stats(sorted[0], sorted[k - 1], sum as real / k as real, sorted[k * 95 / 100], sorted[k * 99 / 100], last)
  }

  lemma SortedDescribesRanks(sorted: seq<int>, values: seq<int>, sum: int, last: int)
    requires sorted != [] && Sorted(sorted) && multiset(sorted) == multiset(values)
    ensures DescribesRanks(StatsOf(sorted, sum, last), values)
  {
    var k := |sorted|;
    SameSize(sorted, values);
    SortedIndexIsRank(values, sorted, 0);
    SortedIndexIsRank(values, sorted, k - 1);
    SortedIndexIsRank(values, sorted, k * 95 / 100);
    SortedIndexIsRank(values, sorted, k * 99 / 100);
  }

  lemma SumIsWithin(sorted: seq<int>, values: seq<int>)
    requires sorted != [] && Sorted(sorted) && multiset(sorted) == multiset(values)
    ensures |sorted| == |values| && Sum(sorted) == Sum(values)
    ensures |sorted| * sorted[0] <= Sum(sorted) <= |sorted| * sorted[|sorted| - 1]
  {
    SameSize(sorted, values);
    SumIgnoresOrder(sorted, values);
    SumBetween(sorted, sorted[0], sorted[|sorted| - 1]);
  }

  lemma AverageDescribes(stats: Stats, values: seq<int>)
    requires values != [] && stats.avg == Sum(values) as real / |values| as real
    requires |values| * stats.min <= Sum(values) <= |values| * stats.max
    ensures DescribesAverage(stats, values)
  {
    Average(Sum(values), |values|, stats.min, stats.max);
  }

  lemma SortedDescribesAverage(sorted: seq<int>, values: seq<int>, last: int)
    requires sorted != [] && Sorted(sorted) && multiset(sorted) == multiset(values)
    ensures DescribesAverage(StatsOf(sorted, Sum(sorted), last), values)
  {
    SumIsWithin(sorted, values);
    AverageDescribes(StatsOf(sorted, Sum(sorted), last), values);
  }

  class RingBuffer {
    const capacity: nat
    const buffer: array<int>
    var writePos: nat
    var count: nat
    /** Everything pushed since the last reset. */
    ghost var pushed: seq<int>

    ghost predicate Valid()
      reads this, buffer
    {
      && capacity >= 1
      && buffer.Length == capacity
      && writePos == |pushed| % capacity
      && count == Min(|pushed|, capacity)
      && Holds(buffer[..], pushed)
    }

    constructor (capacity: nat)
      requires capacity >= 1
      ensures Valid() && pushed == [] && this.capacity == capacity && fresh(buffer)
    {
      this.capacity := capacity;
      buffer := new int[capacity](_ => 0);
      writePos, count, pushed := 0, 0, [];
    }

    method Push(durationMs: int)
      requires Valid()
      modifies this, buffer
      ensures Valid() && pushed == old(pushed) + [durationMs]
    {
      PushHolds(buffer[..], pushed, durationMs);
      NextSlot(|pushed|, capacity);
      buffer[writePos] := durationMs;
      writePos := (writePos + 1) % capacity;
      if count < capacity {
        count := count + 1;
      }
      pushed := pushed + [durationMs];
    }

    /** What the statistics look at is a permutation of the last durations. */
    method Slice() returns (values: seq<int>)
      requires Valid()
      ensures multiset(values) == multiset(Last(pushed, capacity)) && |values| == count
    {
      HoldsRecent(buffer[..], pushed);
      assert buffer[..count] == buffer[..][..count];
      values := buffer[..count];
    }

    /** The statistics describe the last `capacity` durations pushed. */
    method GetStats() returns (stats: Stats)
      requires Valid()
      ensures if pushed == [] then stats == Stats(0, 0, 0.0, 0, 0, 0)
              else DescribesRanks(stats, Last(pushed, capacity)) && DescribesAverage(stats, Last(pushed, capacity))
                   && stats.last == pushed[|pushed| - 1]
    {
      if count == 0 {
        return Stats(0, 0, 0.0, 0, 0, 0);
      }
      var values := Slice();
      var sorted := Sort(values);
      SameSize(sorted, values);
      var sum := SumOf(sorted);
      var last := Newest();
      SortedDescribesRanks(sorted, Last(pushed, capacity), sum, last);
      SortedDescribesAverage(sorted, Last(pushed, capacity), last);
      stats := StatsOf(sorted, sum, last);
    }

    /** The slot before the write position. */
    method Newest() returns (last: int)
      requires Valid() && pushed != []
      ensures last == pushed[|pushed| - 1]
    {
      HoldsNewest(buffer[..], pushed);
      last := buffer[(writePos - 1 + capacity) % capacity];
    }

    method Reset()
      requires Valid()
      modifies this, buffer
      ensures Valid() && pushed == []
    {
      forall i | 0 <= i < buffer.Length {
        buffer[i] := 0;
      }
      writePos, count, pushed := 0, 0, [];
    }
  }

  /** How the write position moves. */
  lemma NextSlot(n: nat, capacity: nat)
    requires capacity >= 1
    ensures n % capacity <= n
    ensures (n % capacity + 1) % capacity == (n + 1) % capacity
    ensures (n + 1) % capacity == if n % capacity == capacity - 1 then 0 else n % capacity + 1
    ensures n < capacity ==> n % capacity == n
  {
    var q, r := n / capacity, n % capacity;
    assert n == q * capacity + r;
    if r == capacity - 1 {
      assert (q + 1) * capacity == q * capacity + capacity;
      DivisionIsUnique(n + 1, capacity, q + 1, 0);
      DivisionIsUnique(r + 1, capacity, 1, 0);
    } else {
      DivisionIsUnique(n + 1, capacity, q, r + 1);
      DivisionIsUnique(r + 1, capacity, 0, r + 1);
    }
    if n < capacity {
      DivisionIsUnique(n, capacity, 0, n);
    }
    Product(0, q, capacity);
  }

  /** The slot before the write position holds the newest duration. */
  lemma PreviousSlot(n: nat, capacity: nat)
    requires capacity >= 1 && n >= 1
    ensures (n % capacity - 1 + capacity) % capacity == if n % capacity == 0 then capacity - 1 else n % capacity - 1
    ensures n % capacity == 0 ==> n >= capacity
  {
    if n < capacity {
      DivisionIsUnique(n, capacity, 0, n);
    }
    if n % capacity != 0 {
      DivisionIsUnique(n % capacity - 1 + capacity, capacity, 1, n % capacity - 1);
    } else {
      DivisionIsUnique(capacity - 1, capacity, 0, capacity - 1);
    }
  }

  method SumOf(s: seq<int>) returns (sum: int)
    ensures sum == Sum(s)
  {
    sum := 0;
    for i := 0 to |s|
      invariant sum == Sum(s[..i])
    {
      assert s[..i + 1][..i] == s[..i];
      sum := sum + s[i];
    }
    assert s[..|s|] == s;
  }

  lemma Average(sum: int, k: nat, low: int, high: int)
    requires k >= 1 && k * low <= sum <= k * high
    ensures low as real <= sum as real / k as real <= high as real
    ensures (sum as real / k as real) * k as real == sum as real
  {
    var a := sum as real / k as real;
    assert a * k as real == sum as real;
    if a < low as real {
      RealProduct(a, low as real, k as real);
    }
    if a > high as real {
      RealProduct(high as real, a, k as real);
    }
  }

  /** Where `x` goes in sorted values: after everything that is not greater. */
  method Position(sorted: seq<int>, x: int) returns (j: nat)
    requires Sorted(sorted)
    ensures j <= |sorted|
    ensures forall k :: 0 <= k < j ==> sorted[k] <= x
    ensures forall k :: j <= k < |sorted| ==> sorted[k] > x
  {
    j := |sorted|;
    while j > 0 && sorted[j - 1] > x
      invariant 0 <= j <= |sorted|
      invariant forall k :: j <= k < |sorted| ==> sorted[k] > x
    {
      j := j - 1;
    }
  }

  lemma InsertKeepsSorted(sorted: seq<int>, j: nat, x: int)
    requires Sorted(sorted) && j <= |sorted|
    requires forall k :: 0 <= k < j ==> sorted[k] <= x
    requires forall k :: j <= k < |sorted| ==> sorted[k] > x
    ensures Sorted(sorted[..j] + [x] + sorted[j..])
  {
  }

  lemma InsertAdds(sorted: seq<int>, j: nat, x: int)
    requires j <= |sorted|
    ensures multiset(sorted[..j] + [x] + sorted[j..]) == multiset(sorted) + multiset{x}
  {
    assert sorted == sorted[..j] + sorted[j..];
  }

  /** The ascending order in which the statistics look at the durations. */
  method Sort(s: seq<int>) returns (sorted: seq<int>)
    ensures Sorted(sorted) && multiset(sorted) == multiset(s)
  {
    sorted := [];
    for i := 0 to |s|
      invariant Sorted(sorted)
      invariant multiset(sorted) == multiset(s[..i])
    {
      var j := Position(sorted, s[i]);
      InsertKeepsSorted(sorted, j, s[i]);
      InsertAdds(sorted, j, s[i]);
      assert s[..i + 1] == s[..i] + [s[i]];
      sorted := sorted[..j] + [s[i]] + sorted[j..];
    }
    assert s[..|s|] == s;
  }
}
