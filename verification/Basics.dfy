/** Types shared by every component: machine words, bytes and result values. */
module Basics {
  const TWO_TO_64: int := 0x1_0000_0000_0000_0000
  const U64_MAX: int := TWO_TO_64 - 1

  /** A value of the source's std::uint64_t (std::size_t is the same width). */
  type u64 = x: int | 0 <= x < TWO_TO_64

  /** A value of the source's std::uint32_t. */
  type u32 = x: int | 0 <= x < 0x1_0000_0000

  type Byte = x: int | 0 <= x < 256
  type Bytes = seq<Byte>

  datatype Option<+T> = None | Some(value: T)
  datatype Result<+T, +E> = Ok(value: T) | Err(error: E)

  function Find<K, T>(m: map<K, T>, k: K): Option<T> {
    if k in m then Some(m[k]) else None
  }

  function Min(a: int, b: int): int {
    if a <= b then a else b
  }

  /** A run of zero bytes, as memset leaves it. */
  function Zeros(n: nat): (z: Bytes)
    ensures |z| == n
  {
    seq(n, _ => 0)
  }

  predicate Within(lo: int, p: int, hi: int) {
    lo <= p < hi
  }

  /** The integers of [lo, hi), and how many there are. */
  function Interval(lo: int, hi: int): (s: set<int>) {
    set p | lo <= p < hi && Within(lo, p, hi)
  }

  lemma {:induction false} IntervalSize(lo: int, hi: int)
    requires lo <= hi
    ensures |Interval(lo, hi)| == hi - lo
    decreases hi - lo
  {
    if lo < hi {
      IntervalSize(lo, hi - 1);
      assert Interval(lo, hi) == Interval(lo, hi - 1) + {hi - 1};
    } else {
      assert Interval(lo, hi) == {};
    }
  }

  function Count(b: bool): nat {
    if b then 1 else 0
  }

  predicate InRange(n: nat, count: nat, r: nat) {
    n <= r < n + count
  }

  ghost function Range(n: nat, count: nat): set<nat> {
    set r: nat | n <= r < n + count && InRange(n, count, r)
  }

  lemma {:induction false} RangeSize(n: nat, count: nat)
    ensures |Range(n, count)| == count
  {
    if count == 0 {
    } else {
      RangeSize(n, count - 1);
      assert Range(n, count) == Range(n, count - 1) + {n + count - 1};
    }
  }

  /** The first n numbers of a list, and that distinct ones are n. */
  ghost function MembersOf(s: seq<nat>, n: nat): (members: set<nat>)
    requires n <= |s|
    ensures forall x :: x in members <==> exists i :: 0 <= i < n && s[i] == x
  {
    if n == 0 then {} else MembersOf(s, n - 1) + {s[n - 1]}
  }

  lemma {:induction false} DistinctSize(s: seq<nat>, n: nat)
    requires n <= |s| && forall i, j | 0 <= i < j < |s| :: s[i] != s[j]
    ensures |MembersOf(s, n)| == n
  {
    if n == 0 {
    } else {
      DistinctSize(s, n - 1);
      assert s[n - 1] !in MembersOf(s, n - 1);
    }
  }

  lemma SubsetSize<T>(a: set<T>, b: set<T>)
    requires a <= b
    ensures |a| <= |b|
  {
    assert b == a + (b - a);
  }

  lemma SameSizeSubset<T>(a: set<T>, b: set<T>)
    requires a <= b && |a| == |b|
    ensures a == b
  {
    assert b == a + (b - a);
  }

  /** order runs through 0, ..., n - 1 in some order. */
  ghost predicate IsOrder(order: seq<nat>, n: nat) {
    && |order| == n && (forall i | 0 <= i < n :: order[i] < n)
    && forall i, j | 0 <= i < j < n :: order[i] != order[j]
  }

  // Every number below n turns up in an order of n.
  lemma PlaceOf(order: seq<nat>, n: nat, k: nat) returns (i: nat)
    requires IsOrder(order, n) && k < n
    ensures i < n && order[i] == k
  {
    DistinctSize(order, n);
    RangeSize(0, n);
    forall m | m in MembersOf(order, n) ensures m in Range(0, n) { assert InRange(0, n, m); }
    SameSizeSubset(MembersOf(order, n), Range(0, n));
    assert InRange(0, n, k) && k in MembersOf(order, n);
    i :| i < n && order[i] == k;
  }

  lemma UnionSize<T>(a: set<T>, b: set<T>)
    requires a !! b
    ensures |a + b| == |a| + |b|
  {}

  lemma MulMonotone(a: int, b: int, c: int)
    requires 0 <= a && b <= c
    ensures a * b <= a * c && b * a <= c * a
  {
    assert a * c - a * b == a * (c - b);
  }

  lemma DivisionFacts(value: int, page: int)
    requires 0 <= value && 0 < page
    ensures 0 <= value / page <= value
    ensures value - page < value / page * page <= value
  {
    var q := value / page;
    assert value == page * q + value % page;
    MulMonotone(q, 1, page);
  }

  /** Euclidean division is unique. */
  lemma RemainderUnique(x: int, n: int, q: int, r: int)
    requires 0 < n && 0 <= r < n && x == q * n + r
    ensures x / n == q && x % n == r
  {
    var q', r' := x / n, x % n;
    assert x == n * q' + r';
    assert n * (q - q') == r' - r;
    if q > q' { MulMonotone(n, 1, q - q'); }
    if q < q' { MulMonotone(n, 1, q' - q); }
  }
}
