/** Iteration order of `std::map`: the keys of a finite set in ascending order. */
module Ordering {

  ghost predicate TotalOrder<T(!new)>(le: (T, T) -> bool) {
    && (forall a, b :: le(a, b) || le(b, a))
    && (forall a, b :: le(a, b) && le(b, a) ==> a == b)
    && (forall a, b, c :: le(a, b) && le(b, c) ==> le(a, c))
  }

  ghost predicate Ascending<T>(xs: seq<T>, le: (T, T) -> bool) {
    forall i, j | 0 <= i < j < |xs| :: le(xs[i], xs[j]) && xs[i] != xs[j]
  }

  lemma {:induction false} LeastExists<T(!new)>(s: set<T>, le: (T, T) -> bool)
    requires s != {} && TotalOrder(le)
    ensures exists m :: m in s && forall x | x in s :: le(m, x)
  {
    var e :| e in s;
    var rest := s - {e};
    if rest == {} {
      assert s == {e} && le(e, e);
    } else {
      LeastExists(rest, le);
      var m :| m in rest && forall x | x in rest :: le(m, x);
      var best := if le(m, e) then m else e;
      assert le(best, m) && le(best, e);
      forall x | x in s ensures le(best, x) {
        if x != e { assert x in rest && le(m, x); }
      }
      assert best in s;
    }
  }

  function Least<T(==, !new)>(s: set<T>, le: (T, T) -> bool): (m: T)
    requires s != {} && TotalOrder(le)
    ensures m in s && forall x | x in s :: le(m, x)
  {
    LeastExists(s, le);
    var m :| m in s && forall x | x in s :: le(m, x);
    m
  }

  function Sorted<T(==, !new)>(s: set<T>, le: (T, T) -> bool): (r: seq<T>)
    requires TotalOrder(le)
    ensures |r| == |s|
    ensures forall x :: x in r <==> x in s
    ensures Ascending(r, le)
  {
    if s == {} then [] else
      var m := Least(s, le);
      [m] + Sorted(s - {m}, le)
  }

  // Integer keys

  predicate IntLe(a: int, b: int) { a <= b }

  lemma IntTotal()
    ensures TotalOrder(IntLe)
  {}

  function SortedInts(s: set<int>): (r: seq<int>)
    ensures |r| == |s|
    ensures forall x :: x in r <==> x in s
    ensures forall i, j | 0 <= i < j < |r| :: r[i] < r[j]
  {
    IntTotal();
    var r := Sorted(s, IntLe);
    assert forall i, j | 0 <= i < j < |r| :: IntLe(r[i], r[j]) && r[i] != r[j];
    r
  }

  function MinInt(s: set<int>): (m: int)
    requires s != {}
    ensures m in s && forall x | x in s :: m <= x
  {
    IntTotal();
    var m := Least(s, IntLe);
    assert forall x | x in s :: IntLe(m, x);
    m
  }

  // String keys, compared character by character as `std::string` does

  predicate LexLe(a: string, b: string) {
    a == "" || (b != "" && (a[0] < b[0] || (a[0] == b[0] && LexLe(a[1..], b[1..]))))
  }

  lemma {:induction false} LexTotal2(a: string, b: string)
    ensures LexLe(a, b) || LexLe(b, a)
    ensures LexLe(a, b) && LexLe(b, a) ==> a == b
  {
    if a != "" && b != "" {
      LexTotal2(a[1..], b[1..]);
      assert a == [a[0]] + a[1..] && b == [b[0]] + b[1..];
    }
  }

  lemma {:induction false} LexTransitive(a: string, b: string, c: string)
    requires LexLe(a, b) && LexLe(b, c)
    ensures LexLe(a, c)
  {
    if a != "" && b != "" && c != "" && a[0] == b[0] == c[0] {
      LexTransitive(a[1..], b[1..], c[1..]);
    }
  }

  lemma LexTotal()
    ensures TotalOrder(LexLe)
  {
    forall a, b ensures LexLe(a, b) || LexLe(b, a) { LexTotal2(a, b); }
    forall a, b ensures LexLe(a, b) && LexLe(b, a) ==> a == b { LexTotal2(a, b); }
    forall a, b, c | LexLe(a, b) && LexLe(b, c) ensures LexLe(a, c) { LexTransitive(a, b, c); }
  }

  function SortedStrings(s: set<string>): (r: seq<string>)
    ensures |r| == |s|
    ensures forall x :: x in r <==> x in s
    ensures Ascending(r, LexLe)
  {
    LexTotal();
    Sorted(s, LexLe)
  }

  lemma SameHead(a: string, b: string)
    requires a != "" && b != ""
    ensures forall k | 0 < k <= |a| && k <= |b| && a[..k] == b[..k] :: a[0] == b[0]
  {
    assert forall k | 0 < k <= |a| && k <= |b| :: a[..k][0] == a[0] && b[..k][0] == b[0];
  }

  /** Equal texts up to `k`, and a smaller character there. */
  predicate SmallerAt(a: string, b: string, k: int) {
    0 <= k < |a| && k < |b| && a[..k] == b[..k] && a[k] < b[k]
  }

  /** The order of strings: a prefix comes first, else the first differing character decides. */
  lemma {:induction false} LexLeIff(a: string, b: string)
    ensures LexLe(a, b) <==> a <= b || exists k :: SmallerAt(a, b, k)
  {
    hide SmallerAt;
    if a == "" {
      assert a <= b;
    } else if b != "" && a[0] == b[0] {
      LexLeIff(a[1..], b[1..]);
      assert a == [a[0]] + a[1..] && b == [b[0]] + b[1..];
      SmallerInTails(a, b);
    } else {
      SmallerHead(a, b);
      if b != "" { SameHead(a, b); }
    }
  }

  /** Behind equal first characters the places move by one. */
  lemma SmallerInTails(a: string, b: string)
    requires a != "" && b != "" && a[0] == b[0]
    ensures (exists k :: SmallerAt(a, b, k)) <==> exists k :: SmallerAt(a[1..], b[1..], k)
  {
    if k :| SmallerAt(a[1..], b[1..], k) {
      assert a[..k + 1] == [a[0]] + a[1..][..k] && b[..k + 1] == [b[0]] + b[1..][..k];
      assert SmallerAt(a, b, k + 1);
    }
    if k :| SmallerAt(a, b, k) {
      assert k > 0;
      assert a[1..][..k - 1] == a[..k][1..] && b[1..][..k - 1] == b[..k][1..];
      assert SmallerAt(a[1..], b[1..], k - 1);
    }
  }

  /** Different first characters decide at once, and nothing differs from the empty text. */
  lemma SmallerHead(a: string, b: string)
    requires a != "" && (b == "" || a[0] != b[0])
    ensures (exists k :: SmallerAt(a, b, k)) <==> b != "" && a[0] < b[0]
  {
    if b != "" && a[0] < b[0] {
      assert a[..0] == b[..0];
      assert SmallerAt(a, b, 0);
    }
    forall k | SmallerAt(a, b, k) ensures k == 0 { FirstDecides(a, b, k); }
  }

  lemma FirstDecides(a: string, b: string, k: int)
    requires SmallerAt(a, b, k)
    ensures k == 0 || a[0] == b[0]
  {
    if k > 0 { assert a[0] == a[..k][0] && b[0] == b[..k][0]; }
  }
}
