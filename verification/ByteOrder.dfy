/** Byte order on keys, as a sorted key/value store iterates, and the ascending
    listing of a finite key set. */
module ByteOrder {

  predicate Less(a: string, b: string) {
    b != "" && (a == "" || a[0] < b[0] || (a[0] == b[0] && Less(a[1..], b[1..])))
  }

  lemma {:induction false} LessIrreflexive(a: string)
    ensures !Less(a, a)
  {
    if a != "" { LessIrreflexive(a[1..]); }
  }

  lemma {:induction false} LessTransitive(a: string, b: string, c: string)
    requires Less(a, b) && Less(b, c)
    ensures Less(a, c)
  {
    if a != "" && a[0] == b[0] == c[0] { LessTransitive(a[1..], b[1..], c[1..]); }
  }

  lemma {:induction false} LessTotal(a: string, b: string)
    ensures a == b || Less(a, b) || Less(b, a)
  {
    if a != "" && b != "" && a[0] == b[0] {
      LessTotal(a[1..], b[1..]);
      assert a == [a[0]] + a[1..] && b == [b[0]] + b[1..];
    }
  }

  /** Equal-length prefixes decide first; only equal prefixes look further. */
  lemma {:induction false} LessConcat(a: string, x: string, b: string, y: string)
    requires |a| == |b|
    ensures Less(a + x, b + y) <==> Less(a, b) || (a == b && Less(x, y))
  {
    if a == "" {
      assert a + x == x && b + y == y;
    } else {
      LessConcat(a[1..], x, b[1..], y);
      assert (a + x)[1..] == a[1..] + x && (b + y)[1..] == b[1..] + y;
      assert a == [a[0]] + a[1..] && b == [b[0]] + b[1..];
    }
  }

  ghost predicate Ascending(s: seq<string>) {
    forall i, j :: 0 <= i < j < |s| ==> Less(s[i], s[j])
  }

  ghost function Elements(s: seq<string>): set<string> {
    set k | k in s
  }

  predicate IsLeast(k: string, ks: set<string>) {
    k in ks && forall j :: j in ks && j != k ==> Less(k, j)
  }

  lemma {:induction false} LeastExists(ks: set<string>) returns (k: string)
    requires ks != {}
    ensures IsLeast(k, ks)
  {
    var x :| x in ks;
    var rest := ks - {x};
    if rest == {} {
      assert ks == {x};
      return x;
    }
    var r := LeastExists(rest);
    k := SmallerOf(x, r);
    assert ks == rest + {x};
    LeastOfUnion(x, r, rest);
  }

  lemma SmallerOf(x: string, y: string) returns (k: string)
    ensures k == if Less(x, y) then x else y
    ensures x != y ==> Less(x, y) || Less(y, x)
  {
    LessTotal(x, y);
    k := if Less(x, y) then x else y;
  }

  lemma LeastOfUnion(x: string, r: string, rest: set<string>)
    requires IsLeast(r, rest) && x !in rest
    ensures IsLeast(if Less(x, r) then x else r, rest + {x})
  {
    LessTotal(x, r);
    if Less(x, r) {
      forall j | j in rest + {x} && j != x
        ensures Less(x, j)
      {
        if j != r { LessTransitive(x, r, j); }
      }
    }
  }

  ghost function Least(ks: set<string>): (k: string)
    requires ks != {}
    ensures IsLeast(k, ks)
  {
    assert exists k :: IsLeast(k, ks) by { var k := LeastExists(ks); }
    var k :| IsLeast(k, ks);
    k
  }

  /** The keys in iteration order. */
  ghost function Listing(ks: set<string>): (s: seq<string>)
    ensures Ascending(s) && Elements(s) == ks && |s| == |ks|
  {
    if ks == {} then []
    else
      var k := Least(ks);
      var rest := Listing(ks - {k});
      ConsListing(k, ks, rest);
      [k] + rest
  }

  lemma LeastUnique(j: string, k: string, ks: set<string>)
    requires IsLeast(j, ks) && IsLeast(k, ks)
    ensures j == k
  {
    if j != k {
      LessTransitive(j, k, j);
      LessIrreflexive(j);
    }
  }

  lemma ConsListing(k: string, ks: set<string>, rest: seq<string>)
    requires IsLeast(k, ks) && Ascending(rest) && Elements(rest) == ks - {k} && |rest| == |ks - {k}|
    ensures Ascending([k] + rest) && Elements([k] + rest) == ks && |[k] + rest| == |ks|
  {
    ConsElements(k, rest);
    assert forall i :: 0 <= i < |rest| ==> rest[i] in Elements(rest);
    assert {k} + (ks - {k}) == ks;
  }

  lemma ConsElements(k: string, s: seq<string>)
    ensures Elements([k] + s) == {k} + Elements(s)
  {
    assert forall j :: j in [k] + s <==> j == k || j in s;
  }

  lemma EmptyElements(s: seq<string>)
    ensures Elements(s) == {} <==> s == []
  {
    if s != [] { assert s[0] in Elements(s); }
  }

  /** Ascending listings are determined by their elements. */
  lemma {:induction false} AscendingUnique(s: seq<string>, t: seq<string>)
    requires Ascending(s) && Ascending(t) && Elements(s) == Elements(t)
    ensures s == t
  {
    if s == [] || t == [] {
      EmptyElements(s);
      EmptyElements(t);
    } else {
      assert s[0] in Elements(s) && t[0] in Elements(t);
      HeadsAgree(s, t);
      TailElements(s);
      TailElements(t);
      AscendingUnique(s[1..], t[1..]);
      assert s == [s[0]] + s[1..] && t == [t[0]] + t[1..];
    }
  }

  lemma HeadsAgree(s: seq<string>, t: seq<string>)
    requires Ascending(s) && Ascending(t) && s != [] && t != []
    requires s[0] in t && t[0] in s
    ensures s[0] == t[0]
  {
    if s[0] != t[0] {
      LessTransitive(s[0], t[0], s[0]);
      LessIrreflexive(s[0]);
    }
  }

  lemma TailElements(s: seq<string>)
    requires Ascending(s) && s != []
    ensures Elements(s[1..]) == Elements(s) - {s[0]}
  {
    LessIrreflexive(s[0]);
    assert forall k :: k in s <==> k == s[0] || k in s[1..];
  }

  /** A split of an ascending listing splits its elements in two. */
  lemma SplitElements(s: seq<string>, n: nat)
    requires Ascending(s) && n <= |s|
    ensures Elements(s[n..]) == Elements(s) - Elements(s[..n])
    decreases n
  {
    if n == 0 {
      assert s[0..] == s;
    } else {
      SplitElements(s, n - 1);
      TailElements(s[n - 1..]);
      assert s[n - 1..][1..] == s[n..];
      assert s[..n] == s[..n - 1] + [s[n - 1]];
      SnocElements(s[..n - 1], s[n - 1]);
    }
  }

  lemma SnocElements(s: seq<string>, k: string)
    ensures Elements(s + [k]) == Elements(s) + {k}
  {
    assert forall j :: j in s + [k] <==> j in s || j == k;
  }
}
