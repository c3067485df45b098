/** The rolling latency window and its p95. */
module Latency {

  const WINDOW_CAPACITY := 64

  // ----- sorting -----

  ghost predicate Sorted(s: seq<int>) {
    forall i, j :: 0 <= i < j < |s| ==> s[i] <= s[j]
  }

  /** Insert from the right, past everything greater. */
  ghost function Insert(s: seq<int>, v: int): seq<int> {
    if s == [] || s[|s| - 1] <= v then s + [v]
    else Insert(s[..|s| - 1], v) + [s[|s| - 1]]
  }

  ghost function Sort(s: seq<int>): seq<int> {
    if s == [] then [] else Insert(Sort(s[..|s| - 1]), s[|s| - 1])
  }

  lemma {:induction false} InsertPermutes(s: seq<int>, v: int)
    ensures multiset(Insert(s, v)) == multiset(s) + multiset{v}
  {
    if s != [] && s[|s| - 1] > v {
      InsertPermutes(s[..|s| - 1], v);
      assert s == s[..|s| - 1] + [s[|s| - 1]];
    }
  }

  lemma {:induction false} InsertSorts(s: seq<int>, v: int)
    requires Sorted(s)
    ensures Sorted(Insert(s, v))
  {
    if s != [] && s[|s| - 1] > v {
      var init, last := s[..|s| - 1], s[|s| - 1];
      InsertSorts(init, v);
      InsertPermutes(init, v);
      var r := Insert(init, v);
      forall i | 0 <= i < |r|
        ensures r[i] <= last
      {
        assert r[i] in multiset(r);
        assert r[i] in multiset(init) || r[i] == v;
      }
    }
  }

  lemma MultisetSnoc(s: seq<int>)
    requires s != []
    ensures multiset(s) == multiset(s[..|s| - 1]) + multiset{s[|s| - 1]}
  {
    assert s == s[..|s| - 1] + [s[|s| - 1]];
  }

  lemma {:induction false} SortPermutes(s: seq<int>)
    ensures multiset(Sort(s)) == multiset(s)
  {
    if s != [] {
      SortPermutes(s[..|s| - 1]);
      InsertPermutes(Sort(s[..|s| - 1]), s[|s| - 1]);
      MultisetSnoc(s);
    }
  }

  lemma {:induction false} SortSorts(s: seq<int>)
    ensures Sorted(Sort(s))
  {
    if s != [] {
      SortSorts(s[..|s| - 1]);
      InsertSorts(Sort(s[..|s| - 1]), s[|s| - 1]);
    }
  }

  lemma SortLength(s: seq<int>)
    ensures |Sort(s)| == |s|
  {
    SortPermutes(s);
    assert |multiset(Sort(s))| == |Sort(s)| && |multiset(s)| == |s|;
  }

  /** `P` with `v` sifted down to position `j` of `a[..i + 1]`. */
  ghost predicate Sifted(a: seq<int>, P: seq<int>, v: int, i: int, j: int) {
    && 0 <= j <= i < |a|
    && a[j] == v
    && Insert(P, v) == Insert(a[..j], v) + a[j + 1..i + 1]
  }

  lemma SiftStep(a: seq<int>, P: seq<int>, v: int, i: int, j: int)
    requires Sifted(a, P, v, i, j) && 0 < j && a[j - 1] > a[j]
    ensures Sifted(a[j - 1 := a[j]][j := a[j - 1]], P, v, i, j - 1)
  {
    var b := a[j - 1 := a[j]][j := a[j - 1]];
    assert a[..j][..j - 1] == b[..j - 1];
    assert b[j..i + 1] == [a[j - 1]] + a[j + 1..i + 1];
    assert Insert(a[..j], v) == Insert(b[..j - 1], v) + [a[j - 1]];
    Assoc(Insert(b[..j - 1], v), [a[j - 1]], a[j + 1..i + 1]);
  }

  lemma Assoc(x: seq<int>, y: seq<int>, z: seq<int>)
    ensures (x + y) + z == x + (y + z)
  {}

  lemma SiftEnd(a: seq<int>, P: seq<int>, v: int, i: int, j: int)
    requires Sifted(a, P, v, i, j) && (j == 0 || a[j - 1] <= a[j])
    ensures a[..i + 1] == Insert(P, v)
  {
    assert a[..i + 1] == (a[..j] + [v]) + a[j + 1..i + 1];
  }

  /** The inner loop: swap the i-th element down into the sorted prefix. */
  method Sift(d: array<int>, i: int)
    requires 0 <= i < d.Length
    modifies d
    ensures d[..i + 1] == Insert(old(d[..i]), old(d[i]))
    ensures d[i + 1..] == old(d[i + 1..])
  {
    ghost var s, P, v := d[..], d[..i], d[i];
    var j := i;
    assert s[..i] == P;
    while j > 0 && d[j - 1] > d[j]
      invariant s == d[..] && Sifted(s, P, v, i, j)
      invariant s[i + 1..] == old(d[i + 1..])
      decreases j
    {
      SiftStep(s, P, v, i, j);
      s := s[j - 1 := s[j]][j := s[j - 1]];
      d[j - 1], d[j] := d[j], d[j - 1];
      j := j - 1;
    }
    SiftEnd(s, P, v, i, j);
  }

  method InsertionSort(d: array<int>)
    modifies d
    ensures d[..] == Sort(old(d[..]))
  {
    ghost var s := d[..];
    if d.Length == 0 { return; }
    assert s[..1][..0] == [];
    assert s[..1] == Insert([], s[0]);
    for i := 1 to d.Length
      invariant d[..i] == Sort(s[..i]) && d[i..] == s[i..]
    {
      assert d[i] == d[i..][0] == s[i];
      assert s[..i + 1][..i] == s[..i] && s[..i + 1][i] == s[i];
      assert d[i..][1..] == d[i + 1..] && s[i..][1..] == s[i + 1..];
      Sift(d, i);
    }
    assert d[..d.Length] == d[..] && s[..d.Length] == s;
  }

  // ----- p95 -----

  /** int(0.95 * n) for n up to 64. */
  function P95Index(n: nat): nat {
    95 * n / 100
  }

  ghost function CountGE(s: seq<int>, t: int): nat {
    if s == [] then 0 else CountGE(s[..|s| - 1], t) + (if s[|s| - 1] >= t then 1 else 0)
  }

  lemma {:induction false} CountConcat(a: seq<int>, b: seq<int>, t: int)
    ensures CountGE(a + b, t) == CountGE(a, t) + CountGE(b, t)
  {
    if b == [] {
      assert a + b == a;
    } else {
      assert (a + b)[..|a + b| - 1] == a + b[..|b| - 1];
      CountConcat(a, b[..|b| - 1], t);
    }
  }

  lemma {:induction false} CountAtMost(s: seq<int>, t: int)
    ensures CountGE(s, t) <= |s|
  {
    if s != [] { CountAtMost(s[..|s| - 1], t); }
  }

  ghost predicate AllBelow(s: seq<int>, t: int) {
    forall i :: 0 <= i < |s| ==> s[i] < t
  }

  ghost predicate AllReach(s: seq<int>, t: int) {
    forall i :: 0 <= i < |s| ==> s[i] >= t
  }

  lemma {:induction false} CountNone(s: seq<int>, t: int)
    requires AllBelow(s, t)
    ensures CountGE(s, t) == 0
  {
    if s != [] { CountNone(s[..|s| - 1], t); }
  }

  lemma {:induction false} CountAll(s: seq<int>, t: int)
    requires AllReach(s, t)
    ensures CountGE(s, t) == |s|
  {
    if s != [] { CountAll(s[..|s| - 1], t); }
  }

  lemma CountSnoc(s: seq<int>, v: int, t: int)
    ensures CountGE(s + [v], t) == CountGE(s, t) + (if v >= t then 1 else 0)
  {
    assert (s + [v])[..|s|] == s;
  }

  lemma {:induction false} CountInsert(s: seq<int>, v: int, t: int)
    ensures CountGE(Insert(s, v), t) == CountGE(s, t) + (if v >= t then 1 else 0)
  {
    CountSnoc(s, v, t);
    if s != [] && s[|s| - 1] > v {
      CountInsert(s[..|s| - 1], v, t);
      CountSnoc(Insert(s[..|s| - 1], v), s[|s| - 1], t);
    }
  }

  lemma {:induction false} CountSort(s: seq<int>, t: int)
    ensures CountGE(Sort(s), t) == CountGE(s, t)
  {
    if s != [] {
      CountSort(s[..|s| - 1], t);
      CountInsert(Sort(s[..|s| - 1]), s[|s| - 1], t);
    }
  }

  /** In a sorted sequence the k-th value reaches `t` iff at least n - k values do. */
  lemma SortedRank(s: seq<int>, k: nat, t: int)
    requires Sorted(s) && k < |s|
    ensures s[k] >= t <==> CountGE(s, t) >= |s| - k
  {
    if s[k] >= t {
      BackReaches(s[..k], s[k..], t);
      assert s == s[..k] + s[k..];
    } else {
      FrontBelow(s[..k + 1], s[k + 1..], t);
      assert s == s[..k + 1] + s[k + 1..];
    }
  }

  lemma BackReaches(a: seq<int>, b: seq<int>, t: int)
    requires AllReach(b, t)
    ensures CountGE(a + b, t) >= |b|
  {
    CountConcat(a, b, t);
    CountAll(b, t);
  }

  lemma FrontBelow(a: seq<int>, b: seq<int>, t: int)
    requires AllBelow(a, t)
    ensures CountGE(a + b, t) <= |b|
  {
    CountConcat(a, b, t);
    CountNone(a, t);
    CountAtMost(b, t);
  }

  lemma BackBelow(a: seq<int>, b: seq<int>, t: int)
    requires AllBelow(b, t)
    ensures CountGE(a + b, t) <= |a|
  {
    CountConcat(a, b, t);
    CountNone(b, t);
    CountAtMost(a, t);
  }

  /** What p95 means: it reaches `t` iff at least ceil(n / 20) of the n samples do. */
  ghost predicate IsP95(w: seq<int>, r: int) {
    if w == [] then r == 0 else forall t :: r >= t <==> 20 * CountGE(w, t) >= |w|
  }

  /** The rank meaning determines the value. */
  lemma P95Unique(w: seq<int>, q: int, r: int)
    requires IsP95(w, q) && IsP95(w, r)
    ensures q == r
  {
    if w != [] {
      assert q >= q <==> 20 * CountGE(w, q) >= |w|;
      assert r >= r <==> 20 * CountGE(w, r) >= |w|;
    }
  }

  /** Picking index int(0.95 n) of the sorted samples has that meaning, and the index needs no clamp. */
  lemma SortedIndexIsP95(w: seq<int>)
    requires w != []
    ensures P95Index(|w|) < |Sort(w)| && IsP95(w, Sort(w)[P95Index(|w|)])
  {
    SortLength(w);
    SortSorts(w);
    forall t
      ensures Sort(w)[P95Index(|w|)] >= t <==> 20 * CountGE(w, t) >= |w|
    {
      CountSort(w, t);
      SortedRank(Sort(w), P95Index(|w|), t);
    }
  }

  lemma P95Exists(w: seq<int>) returns (r: int)
    ensures IsP95(w, r)
  {
    if w == [] { return 0; }
    SortedIndexIsP95(w);
    r := Sort(w)[P95Index(|w|)];
  }

  ghost function P95(w: seq<int>): (r: int)
    ensures IsP95(w, r)
  {
    assert exists r :: IsP95(w, r) by { var r := P95Exists(w); }
    var r :| IsP95(w, r);
    r
  }

  /** p95Locked: sort a copy, pick an index, clamp it. */
  method ComputeP95(w: seq<int>) returns (r: int)
    ensures r == P95(w)
  {
    var n := |w|;
    if n == 0 { return 0; }
    var cp := new int[n];
    for i := 0 to n
      invariant cp[..i] == w[..i]
    {
      cp[i] := w[i];
    }
    assert cp[..] == w;
    InsertionSort(cp);
    SortedIndexIsP95(w);
    var idx := P95Index(n);
    if idx >= n { idx := n - 1; }
    assert cp[idx] == cp[..][idx];
    r := cp[idx];
    P95Unique(w, r, P95(w));
  }

  // ----- the window -----

  /** Append, then keep the last 64. */
  function Push(w: seq<int>, d: int): seq<int> {
    var v := w + [d];
    if |v| > WINDOW_CAPACITY then v[|v| - WINDOW_CAPACITY..] else v
  }

  function LastOf(h: seq<int>): seq<int> {
    if |h| > WINDOW_CAPACITY then h[|h| - WINDOW_CAPACITY..] else h
  }

  lemma PushKeepsLast(h: seq<int>, d: int)
    ensures Push(LastOf(h), d) == LastOf(h + [d])
  {}

  /** 61 samples below `t` at the end of any history force p95 below `t`. */
  lemma SixtyOneFastSamples(h: seq<int>, fast: seq<int>, t: int)
    requires |fast| >= 61 && AllBelow(fast, t)
    ensures P95(LastOf(h + fast)) < t
  {
    var all := h + fast;
    var w := LastOf(all);
    var cut := if |w| > |fast| then |w| - |fast| else 0;
    LastIsFast(h, fast, cut, t);
    assert w == w[..cut] + w[cut..];
    BackBelow(w[..cut], w[cut..], t);
    assert P95(w) >= t <==> 20 * CountGE(w, t) >= |w|;
  }

  lemma LastIsFast(h: seq<int>, fast: seq<int>, cut: nat, t: int)
    requires AllBelow(fast, t) && cut <= |LastOf(h + fast)| <= cut + |fast|
    ensures AllBelow(LastOf(h + fast)[cut..], t)
  {
    var all, w := h + fast, LastOf(h + fast);
    forall i | 0 <= i < |w| - cut
      ensures w[cut..][i] < t
    {
      assert w[cut..][i] == all[|all| - |w| + cut + i];
      assert w[cut..][i] == fast[|fast| - |w| + cut + i];
    }
  }

  function Repeat(v: int, n: nat): (s: seq<int>)
    ensures |s| == n && forall i :: 0 <= i < n ==> s[i] == v
  {
    if n == 0 then [] else Repeat(v, n - 1) + [v]
  }

  /** 61 is the least such number: after 64 slow samples, 60 fast ones are not enough. */
  lemma SixtyFastSamplesAreNotEnough(slow: int, fast: int, t: int)
    requires fast < t <= slow
    ensures P95(LastOf(Repeat(slow, 64) + Repeat(fast, 60))) >= t
  {
    var all := Repeat(slow, 64) + Repeat(fast, 60);
    var w := LastOf(all);
    assert w == all[60..64] + Repeat(fast, 60);
    CountConcat(all[60..64], Repeat(fast, 60), t);
    CountAll(all[60..64], t);
    assert P95(w) >= t <==> 20 * CountGE(w, t) >= |w|;
  }
}
