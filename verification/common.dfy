/** Shared vocabulary of the dashboard: optional values, the entry kinds and
    form statuses that several record types carry, and the list operations
    (JavaScript's Array filter, a stable comparator sort, slice and the
    page-count division) that the stores, services and tables are built from. */
module Common {

  datatype Option<T> = None | Some(value: T) {
    function GetOr(default: T): T {
      match this
      case Some(v) => v
      case None => default
    }
  }

  /** A string-valued optional field is truthy in JavaScript iff it is present
      and not the empty string. */
  predicate Truthy(s: Option<string>) {
    s.Some? && s.value != ""
  }

  /** An optional boolean field (`reviewed?: boolean`) is truthy iff it is
      present and true. */
  predicate IsTrue(b: Option<bool>) {
    b == Some(true)
  }

  /** `type: "file" | "folder"` */
  datatype Kind = FileKind | FolderKind

  /** `status?: "Completed" | "Pending" | "Not Started"` */
  datatype FormStatus = FormCompleted | FormPending | FormNotStarted

  // ---------------------------------------------------------------------
  // Array.prototype.filter

  /** The elements of `s` that satisfy `p`, in their original order. */
  function Filter<T(!new)>(s: seq<T>, p: T -> bool): (r: seq<T>)
    ensures |r| <= |s|
    ensures forall i :: 0 <= i < |r| ==> p(r[i])
  {
    if s == [] then []
    else (if p(s[0]) then [s[0]] else []) + Filter(s[1..], p)
  }

  /** The filtered list holds exactly the elements of the list that satisfy
      the predicate. */
  lemma {:induction false} FilterMembers<T(!new)>(s: seq<T>, p: T -> bool)
    ensures forall x :: x in Filter(s, p) <==> x in s && p(x)
  {
    if s != [] {
      FilterMembers(s[1..], p);
      assert s == [s[0]] + s[1..];
    }
  }

  /** Filtering distributes over concatenation: together with the
      one-element case this pins down that the kept elements stay in their
      original relative order. */
  lemma {:induction false} FilterConcat<T(!new)>(s: seq<T>, t: seq<T>, p: T -> bool)
    ensures Filter(s + t, p) == Filter(s, p) + Filter(t, p)
  {
    if s == [] {
      assert s + t == t;
    } else {
      assert (s + t)[0] == s[0];
      assert (s + t)[1..] == s[1..] + t;
      FilterConcat(s[1..], t, p);
    }
  }

  /** Filtering keeps every occurrence of a satisfying element and none of
      the others. */
  lemma {:induction false} FilterCount<T(!new)>(s: seq<T>, p: T -> bool, x: T)
    ensures multiset(Filter(s, p))[x] == if p(x) then multiset(s)[x] else 0
  {
    if s != [] {
      FilterCount(s[1..], p, x);
      assert s == [s[0]] + s[1..];
    }
  }

  /** A list whose elements all satisfy `p` is its own filter. */
  lemma {:induction false} FilterKeepsAll<T(!new)>(s: seq<T>, p: T -> bool)
    requires forall i :: 0 <= i < |s| ==> p(s[i])
    ensures Filter(s, p) == s
  {
    if s != [] {
      FilterKeepsAll(s[1..], p);
    }
  }

  /** Filtering twice with the same test is filtering once. */
  lemma FilterIdempotent<T(!new)>(s: seq<T>, p: T -> bool)
    ensures Filter(Filter(s, p), p) == Filter(s, p)
  {
    FilterKeepsAll(Filter(s, p), p);
  }

  /** A list with no satisfying element filters to nothing. */
  lemma {:induction false} FilterDropsAll<T(!new)>(s: seq<T>, p: T -> bool)
    requires forall i :: 0 <= i < |s| ==> !p(s[i])
    ensures Filter(s, p) == []
  {
    if s != [] {
      FilterDropsAll(s[1..], p);
    }
  }

  /** A test and its negation split a list: the two filters' lengths sum to
      the length of the list. */
  lemma {:induction false} FilterSplit<T(!new)>(s: seq<T>, p: T -> bool, q: T -> bool)
    requires forall x :: q(x) == !p(x)
    ensures |Filter(s, p)| + |Filter(s, q)| == |s|
  {
    if s != [] {
      FilterSplit(s[1..], p, q);
    }
  }

  /** If two tests agree on every element of `s`, they filter it alike. */
  lemma {:induction false} FilterAgree<T(!new)>(s: seq<T>, p: T -> bool, q: T -> bool)
    requires forall i :: 0 <= i < |s| ==> p(s[i]) == q(s[i])
    ensures Filter(s, p) == Filter(s, q)
  {
    if s != [] {
      FilterAgree(s[1..], p, q);
    }
  }

  // ---------------------------------------------------------------------
  // Array.prototype.sort with a comparator (stable, as ECMAScript 2019
  // requires): the comparator's sign orders two elements, and elements it
  // calls equal keep their original order.

  /** Inserts `x` before the first element it does not compare greater than. */
  function Insert<T>(x: T, s: seq<T>, cmp: (T, T) -> int): (r: seq<T>)
    ensures |r| == |s| + 1
    ensures multiset(r) == multiset(s) + multiset{x}
  {
    if s == [] then [x]
    else if cmp(x, s[0]) <= 0 then [x] + s
    else
      assert s == [s[0]] + s[1..];
      [s[0]] + Insert(x, s[1..], cmp)
  }

  /** Stable insertion sort: each element is inserted in front of its equals
      that came later in the input. */
  function Sort<T>(s: seq<T>, cmp: (T, T) -> int): (r: seq<T>)
    ensures |r| == |s|
    ensures multiset(r) == multiset(s)
  {
    if s == [] then []
    else
      assert s == [s[0]] + s[1..];
      Insert(s[0], Sort(s[1..], cmp), cmp)
  }

  /** Every element compares less than or equal to every later one. */
  ghost predicate SortedBy<T>(s: seq<T>, cmp: (T, T) -> int) {
    forall i, j :: 0 <= i < j < |s| ==> cmp(s[i], s[j]) <= 0
  }

  /** The comparator is consistent: any two elements are ordered one way
      or the other, and the order is transitive. */
  ghost predicate TotalPreorder<T(!new)>(cmp: (T, T) -> int) {
    && (forall a, b :: cmp(a, b) <= 0 || cmp(b, a) <= 0)
    && (forall a, b, c :: cmp(a, b) <= 0 && cmp(b, c) <= 0 ==> cmp(a, c) <= 0)
  }

  lemma {:induction false} InsertSorted<T(!new)>(x: T, s: seq<T>, cmp: (T, T) -> int)
    requires TotalPreorder(cmp)
    requires SortedBy(s, cmp)
    ensures SortedBy(Insert(x, s, cmp), cmp)
  {
    if s != [] && cmp(x, s[0]) > 0 {
      InsertSorted(x, s[1..], cmp);
      var r := Insert(x, s, cmp);
      var t := Insert(x, s[1..], cmp);
      assert r == [s[0]] + t;
      assert multiset(t) == multiset(s[1..]) + multiset{x};
      forall j | 0 < j < |r|
        ensures cmp(r[0], r[j]) <= 0
      {
        assert r[j] == t[j - 1];
        assert t[j - 1] in multiset(t);
        assert r[j] == x || r[j] in s[1..];
      }
    }
  }

  /** With a consistent comparator the sort really sorts. */
  lemma {:induction false} SortSorted<T(!new)>(s: seq<T>, cmp: (T, T) -> int)
    requires TotalPreorder(cmp)
    ensures SortedBy(Sort(s, cmp), cmp)
  {
    if s != [] {
      SortSorted(s[1..], cmp);
      InsertSorted(s[0], Sort(s[1..], cmp), cmp);
    }
  }

  /** An already sorted list is left as it is (a consequence of stability). */
  lemma {:induction false} SortOfSorted<T>(s: seq<T>, cmp: (T, T) -> int)
    requires SortedBy(s, cmp)
    ensures Sort(s, cmp) == s
  {
    if s != [] {
      assert SortedBy(s[1..], cmp);
      SortOfSorted(s[1..], cmp);
      if |s| > 1 {
        assert cmp(s[0], s[1]) <= 0;
      }
      assert [s[0]] + s[1..] == s;
    }
  }

  // ---------------------------------------------------------------------
  // Array.prototype.slice(start, end): a negative index counts from the
  // end, and both are clamped to [0, length].

  function SliceIndex(k: int, len: nat): (r: nat)
    ensures r <= len
    ensures 0 <= k <= len ==> r == k
    ensures k > len ==> r == len
    ensures k < 0 ==> r == if len + k < 0 then 0 else len + k
  {
    if k < 0 then (if len + k < 0 then 0 else len + k)
    else if k > len then len
    else k
  }

  function Slice<T>(s: seq<T>, start: int, end: int): (r: seq<T>)
    ensures 0 <= start <= end ==> r == s[Min(start, |s|)..Min(end, |s|)]
    ensures |r| <= |s|
  {
    var from, to := SliceIndex(start, |s|), SliceIndex(end, |s|);
    if from < to then s[from..to] else []
  }

  /** A slice is never longer than the distance between its two indices. */
  lemma SliceLength<T>(s: seq<T>, start: int, end: int)
    requires start <= end
    ensures |Slice(s, start, end)| <= end - start
  {
  }

  function Min(a: int, b: int): int {
    if a <= b then a else b
  }

  // ---------------------------------------------------------------------
  // Pages of a list: page p (counting from 1) is the slice from
  // (p - 1) * pageSize, pageSize elements long.

  /** Index of the first element of a page. */
  function PageStart(page: int, pageSize: int): (r: int)
    requires pageSize > 0
    ensures page >= 1 ==> r >= 0
  {
    var r := (page - 1) * pageSize;
    assert page >= 1 ==> r >= 0 by {
      if page >= 1 { MulMono(0, page - 1, pageSize); }
    }
    r
  }

  function Page<T>(s: seq<T>, page: int, pageSize: int): (r: seq<T>)
    requires pageSize > 0
    ensures |r| <= pageSize
    ensures page >= 1 ==>
      r == s[Min(PageStart(page, pageSize), |s|)..Min(PageStart(page, pageSize) + pageSize, |s|)]
  {
    var start := PageStart(page, pageSize);
    SliceLength(s, start, start + pageSize);
    Slice(s, start, start + pageSize)
  }

  /** Pages 1 to k, concatenated. */
  function Pages<T>(s: seq<T>, pageSize: int, k: nat): seq<T>
    requires pageSize > 0
  {
    if k == 0 then [] else Pages(s, pageSize, k - 1) + Page(s, k, pageSize)
  }

  lemma {:induction false} PagesArePrefix<T>(s: seq<T>, pageSize: int, k: nat)
    requires pageSize > 0
    ensures Pages(s, pageSize, k) == s[..Min(k * pageSize, |s|)]
  {
    if k == 0 {
      assert k * pageSize == 0;
    } else {
      PagesArePrefix(s, pageSize, k - 1);
      var a, b := PageBounds(s, pageSize, k);
      assert s[..b] == s[..a] + s[a..b];
    }
  }

  /** Page k runs from where the first k - 1 pages end to where the first
      k pages end. */
  lemma PageBounds<T>(s: seq<T>, pageSize: int, k: nat) returns (a: nat, b: nat)
    requires pageSize > 0 && k > 0
    ensures a == Min((k - 1) * pageSize, |s|) && b == Min(k * pageSize, |s|)
    ensures a <= b <= |s| && Page(s, k, pageSize) == s[a..b]
  {
    var st := PageStart(k, pageSize);
    assert st + pageSize == k * pageSize;
    a, b := Min(st, |s|), Min(st + pageSize, |s|);
  }

  /** All the pages, concatenated, give back the list. */
  lemma AllPagesGiveList<T>(s: seq<T>, pageSize: int)
    requires pageSize > 0
    ensures Pages(s, pageSize, CeilDiv(|s|, pageSize)) == s
  {
    PagesArePrefix(s, pageSize, CeilDiv(|s|, pageSize));
  }

  /** A page past the last one is empty. */
  lemma PageBeyondLastIsEmpty<T>(s: seq<T>, page: int, pageSize: int)
    requires pageSize > 0
    requires page > CeilDiv(|s|, pageSize)
    ensures Page(s, page, pageSize) == []
  {
    MulMono(CeilDiv(|s|, pageSize), page - 1, pageSize);
  }

  lemma MulMono(a: int, b: int, c: int)
    requires a <= b && c > 0
    ensures a * c <= b * c
  {
  }

  // ---------------------------------------------------------------------
  // Math.ceil(n / d) for a non-negative n and a positive d.

  function CeilDiv(n: nat, d: int): (r: nat)
    requires d > 0
    ensures r * d >= n
    ensures r == 0 || (r - 1) * d < n
    ensures r == 0 <==> n == 0
  {
    var q := (n + d - 1) / d;
    DivBounds(n + d - 1, d);
    q
  }

  lemma DivBounds(m: nat, d: int)
    requires d > 0
    ensures (m / d) * d <= m < (m / d) * d + d
  {
  }

  // ---------------------------------------------------------------------
  // Template literal `${Date.now()}-${name}`: the decimal rendering of the
  // clock reading, a dash, then the name.

  function Digit(d: nat): (c: char)
    requires d < 10
    ensures '0' <= c <= '9'
  {
    "0123456789"[d]
  }

  function Decimal(n: nat): (r: string)
    ensures |r| >= 1
    ensures forall i :: 0 <= i < |r| ==> '0' <= r[i] <= '9'
  {
    if n < 10 then [Digit(n)] else Decimal(n / 10) + [Digit(n % 10)]
  }

  function TimestampedId(now: nat, name: string): string {
    Decimal(now) + "-" + name
  }

  /** Two strings with the same prefix are equal exactly when the rest is. */
  lemma PrefixInjective(prefix: string, a: string, b: string)
    ensures prefix + a == prefix + b <==> a == b
  {
    if prefix + a == prefix + b {
      assert a == (prefix + a)[|prefix|..];
      assert b == (prefix + b)[|prefix|..];
    }
  }

  /** Ids made at the same instant collide exactly when the names do. */
  lemma {:induction false} TimestampedIdInjective(now: nat, a: string, b: string)
    ensures TimestampedId(now, a) == TimestampedId(now, b) <==> a == b
  {
    var prefix := Decimal(now) + "-";
    assert TimestampedId(now, a) == prefix + a;
    assert TimestampedId(now, b) == prefix + b;
    PrefixInjective(prefix, a, b);
  }
}
