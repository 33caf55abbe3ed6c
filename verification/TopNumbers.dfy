/** The `k` largest numbers of a set: what is left after removing the smallest until at most `k` remain. */
module TopNumbers {
  import opened Ordering

  function Above(s: set<int>, y: int): set<int> { set x | x in s && x > y }

  function Largest(s: set<int>, k: nat): (r: set<int>)
    ensures r <= s
  {
    set y | y in s && |Above(s, y)| < k
  }

  lemma Subset<T>(a: set<T>, b: set<T>)
    requires a <= b
    ensures |a| <= |b|
    ensures |a| == |b| ==> a == b
  {
    assert b == a + (b - a);
    if |a| == |b| { assert |b - a| == 0; }
  }

  lemma AboveAntitone(s: set<int>, x: int, y: int)
    requires x <= y
    ensures |Above(s, y)| <= |Above(s, x)|
    ensures y in s && x < y ==> |Above(s, y)| < |Above(s, x)|
  {
    Subset(Above(s, y), Above(s, x));
    if y in s && x < y { Subset(Above(s, y) + {y}, Above(s, x)); }
  }

  lemma AllOfFew(s: set<int>, k: nat)
    requires |s| <= k
    ensures Largest(s, k) == s
  {
    forall y | y in s ensures |Above(s, y)| < k { Subset(Above(s, y) + {y}, s); }
  }

  /** Removing a number that is not among the largest does not matter. */
  lemma DropLoser(s: set<int>, k: nat, y: int)
    requires y in s && y !in Largest(s, k)
    ensures Largest(s - {y}, k) == Largest(s, k)
  {
    forall z | z in s - {y} ensures |Above(s - {y}, z)| < k <==> |Above(s, z)| < k {
      if z < y {
        AboveAntitone(s, z, y);
        assert Above(s - {y}, z) == Above(s, z) - {y};
      } else {
        assert Above(s - {y}, z) == Above(s, z);
      }
    }
  }

  lemma MinIsLoser(s: set<int>, k: nat)
    requires |s| > k
    ensures MinInt(s) !in Largest(s, k)
  {
    var m := MinInt(s);
    assert Above(s, m) == s - {m};
  }

  /** Losers stay losers when numbers are added. */
  lemma LoserStays(s: set<int>, t: set<int>, k: nat, y: int)
    requires s <= t && y in s && y !in Largest(s, k)
    ensures y !in Largest(t, k)
  {
    Subset(Above(s, y), Above(t, y));
  }

  lemma {:induction false} DropLosers(s: set<int>, k: nat, d: set<int>)
    requires d <= s && d !! Largest(s, k)
    ensures Largest(s - d, k) == Largest(s, k)
  {
    if d == {} {
      assert s - d == s;
    } else {
      var y :| y in d;
      DropLoser(s, k, y);
      DropLosers(s - {y}, k, d - {y});
      assert s - {y} - (d - {y}) == s - d;
    }
  }

  /** Adding to what was kept is as good as adding to everything ever seen. */
  lemma KeptUnion(s: set<int>, t: set<int>, k: nat)
    ensures Largest(Largest(s, k) + t, k) == Largest(s + t, k)
  {
    var d := s - Largest(s, k) - t;
    forall y | y in d ensures y !in Largest(s + t, k) { LoserStays(s, s + t, k, y); }
    DropLosers(s + t, k, d);
    assert s + t - d == Largest(s, k) + t;
  }

  lemma {:induction false} LargestSize(s: set<int>, k: nat)
    ensures |Largest(s, k)| == if |s| <= k then |s| else k
    decreases |s|
  {
    if |s| <= k {
      AllOfFew(s, k);
    } else {
      MinIsLoser(s, k);
      DropLoser(s, k, MinInt(s));
      LargestSize(s - {MinInt(s)}, k);
    }
  }

  /** Whatever is removed is smaller than whatever is kept. */
  lemma RemovedBelowKept(s: set<int>, k: nat, x: int, y: int)
    requires x in s && x !in Largest(s, k) && y in Largest(s, k)
    ensures x < y
  {
    if y <= x { AboveAntitone(s, y, x); }
  }

  /** Once `k` numbers are kept, the smallest of them never decreases. */
  lemma FullMinGrows(s: set<int>, t: set<int>, k: nat)
    requires s <= t && 0 < k <= |s|
    ensures Largest(s, k) != {} && Largest(t, k) != {}
    ensures |t| >= k && MinInt(Largest(s, k)) <= MinInt(Largest(t, k))
  {
    Subset(s, t);
    LargestSize(s, k);
    LargestSize(t, k);
    var a, b := Largest(s, k), Largest(t, k);
    var m := MinInt(b);
    if m < MinInt(a) {
      assert forall x | x in a :: x in t && x > m;
      Subset(a, Above(t, m));
    }
  }

  /** What one merge does to the smallest kept number: exactly when it decreases. */
  lemma MinDecreasesIff(w: set<int>, t: set<int>, k: nat)
    requires w != {} && 0 < |w| <= k
    ensures Largest(w + t, k) != {}
    ensures MinInt(Largest(w + t, k)) < MinInt(w) <==>
            |set y | y in w + t && y >= MinInt(w)| < k && exists x :: x in t && x < MinInt(w)
  {
    var u, m := w + t, MinInt(w);
    Subset(w, u);
    LargestSize(u, k);
    var r := Largest(u, k);
    var top := set y | y in u && y >= m;
    if |top| < k && exists x :: x in t && x < m {
      var below := set x | x in u && x < m;
      assert below != {} by { var x :| x in t && x < m; assert x in below; }
      var x := MaxExists(below);
      assert forall z | z in u && z < m :: z in below;
      assert Above(u, x) == top;
      assert x in r;
    } else if |top| >= k {
      forall x | x in u && x < m ensures x !in r { Subset(top, Above(u, x)); }
    }
  }

  lemma {:induction false} MaxExists(s: set<int>) returns (m: int)
    requires s != {}
    ensures m in s && forall x | x in s :: x <= m
  {
    var e := MinInt(s);
    var rest := s - {e};
    if rest == {} {
      assert s == {e};
      m := e;
    } else {
      m := MaxExists(rest);
      assert e <= m && forall x | x in s :: x == e || x in rest;
    }
  }

  /** A set without gaps. */
  ghost predicate Interval(s: set<int>) {
    forall x, y, z | x in s && z in s && x <= y <= z :: y in s
  }

  lemma LargestOfInterval(s: set<int>, k: nat)
    requires Interval(s)
    ensures Interval(Largest(s, k))
  {
    var r := Largest(s, k);
    forall x, y, z | x in r && z in r && x <= y <= z ensures y in r {
      assert y in s;
      AboveAntitone(s, x, y);
    }
  }

  /** Overlapping or abutting intervals make an interval. */
  lemma IntervalUnion(s: set<int>, t: set<int>)
    requires Interval(s) && Interval(t)
    requires exists x, y :: x in s && y in t && -1 <= x - y <= 1
    ensures Interval(s + t)
  {
    var a, b :| a in s && b in t && -1 <= a - b <= 1;
    forall x, y, z | x in s + t && z in s + t && x <= y <= z ensures y in s + t {
      if x in s && z in t {
        if y <= a { assert y in s; } else { assert y >= b; }
      } else if x in t && z in s {
        if y <= b { assert y in t; } else { assert y >= a; }
      }
    }
  }
}
