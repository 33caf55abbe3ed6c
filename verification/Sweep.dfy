/**
 What one pass of `check_file_expiry_and_cache_size` keeps.

 The pass sees of every item only `received_at` and `content_length`, at one reading of the clock.
 */
module Sweep {
  import opened Ordering
  import opened Segments

  datatype Entry = Entry(receivedAt: nat, length: nat)

  type View = map<string, Entry>

  datatype Limits = Limits(maxAge: nat, maxSize: nat)

  /** The unsigned subtraction of the two time stamps. */
  function Age(e: Entry, now: nat): nat { (now - e.receivedAt) % TWO_64 }

  predicate Dated(e: Entry) { e.receivedAt != 0 }

  predicate Expired(e: Entry, now: nat, l: Limits) { Dated(e) && Age(e, now) > l.maxAge }

  /** Takes part in the second pass. */
  predicate Live(e: Entry, now: nat, l: Limits) { Dated(e) && Age(e, now) <= l.maxAge }

  type Aged = (nat, string)

  /** `std::multimap::insert`: after every entry whose age is not greater. */
  function Insert(q: seq<Aged>, a: Aged): (r: seq<Aged>)
    ensures |r| == |q| + 1
  {
    if q == [] || q[|q| - 1].0 <= a.0 then q + [a]
    else Insert(q[..|q| - 1], a) + [q[|q| - 1]]
  }

  /** `items_by_age` after the first pass has seen `names`. */
  function Queue(v: View, names: seq<string>, now: nat, l: Limits): seq<Aged>
    requires forall n | n in names :: n in v
  {
    if names == [] then [] else
      var n := names[|names| - 1];
      var q := Queue(v, names[..|names| - 1], now, l);
      if Live(v[n], now, l) then Insert(q, (Age(v[n], now), n)) else q
  }

  function AgeOrder(v: View, now: nat, l: Limits): seq<Aged> { Queue(v, SortedStrings(v.Keys), now, l) }

  /** Bytes of the first `k` items in the queue, without wrap-around. */
  function Sum(v: View, q: seq<Aged>, k: nat): nat
    requires k <= |q| && forall a | a in q :: a.1 in v
  {
    if k == 0 then 0 else Sum(v, q, k - 1) + v[q[k - 1].1].length
  }

  /** The item at `i` is deleted in the second pass: the wrapped running total exceeds the limit. */
  predicate Dropped(v: View, q: seq<Aged>, i: nat, l: Limits)
    requires i < |q| && forall a | a in q :: a.1 in v
  {
    U32(Sum(v, q, i + 1)) > l.maxSize
  }

  function ExpiredAmong(v: View, names: seq<string>, now: nat, l: Limits): set<string>
    requires forall n | n in names :: n in v
  {
    set n | n in names && Expired(v[n], now, l)
  }

  function OverBudget(v: View, q: seq<Aged>, k: nat, l: Limits): set<string>
    requires k <= |q| && forall a | a in q :: a.1 in v
  {
    if k == 0 then {} else
      OverBudget(v, q, k - 1, l) + if Dropped(v, q, k - 1, l) then {q[k - 1].1} else {}
  }

  /** The names left in the cache. */
  function Kept(v: View, now: nat, l: Limits): set<string> {
    var q := AgeOrder(v, now, l);
    QueueOrdered(v, SortedStrings(v.Keys), now, l);
    set n | n in v && !Expired(v[n], now, l) && forall i | 0 <= i < |q| && q[i].1 == n :: !Dropped(v, q, i, l)
  }

  // ------------------------------------------------------------ the age order

  ghost predicate Before(a: Aged, b: Aged) {
    a.0 < b.0 || (a.0 == b.0 && LexLe(a.1, b.1) && a.1 != b.1)
  }

  ghost predicate InOrder(q: seq<Aged>) {
    forall i, j | 0 <= i < j < |q| :: Before(q[i], q[j])
  }

  lemma {:induction false} InsertOrdered(q: seq<Aged>, a: Aged)
    requires InOrder(q)
    requires forall b | b in q :: LexLe(b.1, a.1) && b.1 != a.1
    ensures InOrder(Insert(q, a))
    ensures forall b :: b in Insert(q, a) <==> b in q || b == a
  {
    if q != [] && q[|q| - 1].0 > a.0 {
      var last, rest := q[|q| - 1], q[..|q| - 1];
      assert q == rest + [last];
      assert last in q && forall b | b in rest :: b in q;
      InsertOrdered(rest, a);
      forall b | b in rest ensures Before(b, last) {
        var i :| 0 <= i < |rest| && rest[i] == b;
        assert q[i] == b;
      }
    } else {
      forall i | 0 <= i < |q| ensures Before(q[i], a) {
        assert q[i] in q;
        if i < |q| - 1 { assert Before(q[i], q[|q| - 1]); }
      }
    }
  }

  /** The queue holds exactly the live names, by age and within one age by name. */
  lemma {:induction false} QueueOrdered(v: View, names: seq<string>, now: nat, l: Limits)
    requires forall n | n in names :: n in v
    requires Ascending(names, LexLe)
    ensures var q := Queue(v, names, now, l);
      && InOrder(q)
      && forall a :: a in q <==> a.1 in names && Live(v[a.1], now, l) && a.0 == Age(v[a.1], now)
  {
    if names != [] {
      var n, rest := names[|names| - 1], names[..|names| - 1];
      assert names == rest + [n];
      QueueOrdered(v, rest, now, l);
      var q := Queue(v, rest, now, l);
      forall b | b in q ensures LexLe(b.1, n) && b.1 != n {
        var i :| 0 <= i < |rest| && rest[i] == b.1;
        assert names[i] == b.1;
      }
      if Live(v[n], now, l) { InsertOrdered(q, (Age(v[n], now), n)); }
    }
  }

  lemma AgeOrdered(v: View, now: nat, l: Limits)
    ensures var q := AgeOrder(v, now, l);
      && InOrder(q)
      && (forall a :: a in q <==> a.1 in v && Live(v[a.1], now, l) && a.0 == Age(v[a.1], now))
      && (forall i, j | 0 <= i < j < |q| :: q[i].1 != q[j].1)
  {
    QueueOrdered(v, SortedStrings(v.Keys), now, l);
    var q := AgeOrder(v, now, l);
    forall i, j | 0 <= i < j < |q| ensures q[i].1 != q[j].1 {
      assert Before(q[i], q[j]) && q[i] in q && q[j] in q;
    }
  }

  // ------------------------------------------------------------ the size pass

  lemma {:induction false} OverBudgetIs(v: View, q: seq<Aged>, k: nat, l: Limits)
    requires k <= |q| && forall a | a in q :: a.1 in v
    ensures forall n :: n in OverBudget(v, q, k, l) <==> exists i :: 0 <= i < k && q[i].1 == n && Dropped(v, q, i, l)
  {
    if k > 0 { OverBudgetIs(v, q, k - 1, l); }
  }

  /** The two passes one after the other. */
  lemma TwoPasses(v: View, now: nat, l: Limits)
    ensures var q, names := AgeOrder(v, now, l), SortedStrings(v.Keys);
      && (forall a | a in q :: a.1 in v)
      && Kept(v, now, l) == v.Keys - ExpiredAmong(v, names, now, l) - OverBudget(v, q, |q|, l)
  {
    hide AgeOrder, Live, Age, Expired, Dropped, InOrder;
    AgeOrdered(v, now, l);
    var q := AgeOrder(v, now, l);
    OverBudgetIs(v, q, |q|, l);
  }

  lemma ExpiredSnoc(v: View, names: seq<string>, n: string, now: nat, l: Limits)
    requires n in v && forall m | m in names :: m in v
    ensures ExpiredAmong(v, names + [n], now, l)
         == ExpiredAmong(v, names, now, l) + if Expired(v[n], now, l) then {n} else {}
    ensures Queue(v, names + [n], now, l)
         == var q := Queue(v, names, now, l); if Live(v[n], now, l) then Insert(q, (Age(v[n], now), n)) else q
  {
    assert (names + [n])[..|names|] == names;
  }

  /** What the second pass visits at `k` has not been deleted before. */
  lemma VisitedOnce(v: View, now: nat, l: Limits, k: nat)
    requires k < |AgeOrder(v, now, l)|
    ensures var q := AgeOrder(v, now, l);
      && (forall a | a in q :: a.1 in v)
      && q[k].1 !in ExpiredAmong(v, SortedStrings(v.Keys), now, l)
      && q[k].1 !in OverBudget(v, q, k, l)
  {
    AgeOrdered(v, now, l);
    var q := AgeOrder(v, now, l);
    OverBudgetIs(v, q, k, l);
    assert q[k] in q;
  }

  lemma {:induction false} SumGrows(v: View, q: seq<Aged>, i: nat, j: nat)
    requires i <= j <= |q| && forall a | a in q :: a.1 in v
    ensures Sum(v, q, i) <= Sum(v, q, j)
    decreases j
  {
    if i < j { SumGrows(v, q, i, j - 1); }
  }

  /** How many items of the queue fit. */
  function LongestPrefix(v: View, q: seq<Aged>, limit: nat, k: nat): nat
    requires k <= |q| && forall a | a in q :: a.1 in v
  {
    if k == 0 || Sum(v, q, k) <= limit then k else LongestPrefix(v, q, limit, k - 1)
  }

  lemma {:induction false} LongestPrefixIs(v: View, q: seq<Aged>, limit: nat, k: nat)
    requires k <= |q| && forall a | a in q :: a.1 in v
    ensures var p := LongestPrefix(v, q, limit, k);
      && p <= k && Sum(v, q, p) <= limit
      && forall j | 0 <= j <= k :: Sum(v, q, j) <= limit <==> j <= p
  {
    if k == 0 {
    } else if Sum(v, q, k) <= limit {
      forall j | 0 <= j <= k ensures Sum(v, q, j) <= limit { SumGrows(v, q, j, k); }
    } else {
      LongestPrefixIs(v, q, limit, k - 1);
    }
  }

  /** The documented behaviour: of the live items the oldest go first. */
  ghost predicate KeepsLongestPrefix(v: View, now: nat, l: Limits) {
    AgeOrdered(v, now, l);
    var q := AgeOrder(v, now, l);
    forall i | 0 <= i < |q| :: q[i].1 in Kept(v, now, l) <==> i < LongestPrefix(v, q, l.maxSize, |q|)
  }

  lemma KeptAt(v: View, now: nat, l: Limits, i: nat)
    requires i < |AgeOrder(v, now, l)|
    ensures forall a | a in AgeOrder(v, now, l) :: a.1 in v
    ensures AgeOrder(v, now, l)[i].1 in Kept(v, now, l) <==> !Dropped(v, AgeOrder(v, now, l), i, l)
  {
    AgeOrdered(v, now, l);
    var q := AgeOrder(v, now, l);
    assert q[i] in q;
    assert forall j | 0 <= j < |q| && q[j].1 == q[i].1 :: j == i;
  }

  /** No total beyond the limit wraps back below it. */
  ghost predicate NoWrapBelow(v: View, q: seq<Aged>, limit: nat)
    requires forall a | a in q :: a.1 in v
  {
    forall k | 0 < k <= |q| :: Sum(v, q, k) > limit ==> U32(Sum(v, q, k)) > limit
  }

  lemma DroppedIff(v: View, q: seq<Aged>, l: Limits)
    requires l.maxSize < TWO_32
    requires forall a | a in q :: a.1 in v
    ensures (forall i | 0 <= i < |q| :: !Dropped(v, q, i, l) <==> i < LongestPrefix(v, q, l.maxSize, |q|))
       <==> NoWrapBelow(v, q, l.maxSize)
  {
    var p := LongestPrefix(v, q, l.maxSize, |q|);
    LongestPrefixIs(v, q, l.maxSize, |q|);
    if NoWrapBelow(v, q, l.maxSize) {
      forall i | 0 <= i < |q| ensures !Dropped(v, q, i, l) <==> i < p {
        assert Sum(v, q, i + 1) <= l.maxSize <==> i + 1 <= p;
      }
    } else {
      var k :| 0 < k <= |q| && Sum(v, q, k) > l.maxSize && U32(Sum(v, q, k)) <= l.maxSize;
      assert !Dropped(v, q, k - 1, l) && !(k <= p);
    }
  }

  /** ... for the totals that a sweep runs through. */
  ghost predicate NoWrap(v: View, now: nat, l: Limits) {
    AgeOrdered(v, now, l);
    NoWrapBelow(v, AgeOrder(v, now, l), l.maxSize)
  }

  /** The sweep keeps the longest prefix exactly when no running total wraps around below the limit. */
  lemma LongestPrefixIff(v: View, now: nat, l: Limits)
    requires l.maxSize < TWO_32
    ensures KeepsLongestPrefix(v, now, l) <==> NoWrap(v, now, l)
  {
    hide AgeOrder, Kept;
    AgeOrdered(v, now, l);
    var q := AgeOrder(v, now, l);
    DroppedIff(v, q, l);
    forall i | 0 <= i < |q| ensures q[i].1 in Kept(v, now, l) <==> !Dropped(v, q, i, l) {
      KeptAt(v, now, l, i);
    }
  }

  /** No total wraps while the live items together stay below four gigabytes. */
  lemma NoWrapBelow4G(v: View, now: nat, l: Limits)
    requires Bytes(v, LiveNames(v, now, l)) < TWO_32
    ensures NoWrap(v, now, l)
  {
    hide AgeOrder;
    AgeOrdered(v, now, l);
    var q := AgeOrder(v, now, l);
    SumIsBytes(v, q, |q|);
    QueueNames(v, now, l);
    forall k | 0 < k <= |q| ensures Sum(v, q, k) < TWO_32 { SumGrows(v, q, k, |q|); }
  }

  /** So below four gigabytes the longest prefix is kept. */
  lemma KeepsLongestPrefixBelow4G(v: View, now: nat, l: Limits)
    requires l.maxSize < TWO_32
    requires Bytes(v, LiveNames(v, now, l)) < TWO_32
    ensures KeepsLongestPrefix(v, now, l)
  {
    hide NoWrap, KeepsLongestPrefix, Bytes, LiveNames;
    NoWrapBelow4G(v, now, l);
    LongestPrefixIff(v, now, l);
  }

  /** The whole outcome: undated items stay, expired ones go, and of the rest the longest prefix by age stays. */
  lemma KeptExactly(v: View, now: nat, l: Limits, n: string)
    requires l.maxSize < TWO_32 && NoWrap(v, now, l)
    ensures forall a | a in AgeOrder(v, now, l) :: a.1 in v
    ensures var q := AgeOrder(v, now, l);
      n in Kept(v, now, l) <==>
        n in v && (!Dated(v[n]) || exists i :: 0 <= i < LongestPrefix(v, q, l.maxSize, |q|) <= |q| && q[i].1 == n)
  {
    hide AgeOrder, Kept, Age;
    AgeOrdered(v, now, l);
    var q := AgeOrder(v, now, l);
    var p := LongestPrefix(v, q, l.maxSize, |q|);
    LongestPrefixIs(v, q, l.maxSize, |q|);
    LongestPrefixIff(v, now, l);
    KeptFrame(v, now, l, n);
    forall i | 0 <= i < |q| ensures q[i].1 in v && Live(v[q[i].1], now, l) { assert q[i] in q; }
    if n in v && Live(v[n], now, l) {
      assert (Age(v[n], now), n) in q;
      var i :| 0 <= i < |q| && q[i] == (Age(v[n], now), n);
      assert n in Kept(v, now, l) <==> i < p;
    }
  }

  lemma KeptFrame(v: View, now: nat, l: Limits, n: string)
    ensures n in Kept(v, now, l) ==> n in v && !Expired(v[n], now, l)
    ensures n in v && !Dated(v[n]) ==> n in Kept(v, now, l)
  {
    hide AgeOrder;
    AgeOrdered(v, now, l);
    var q := AgeOrder(v, now, l);
    forall i | 0 <= i < |q| ensures Live(v[q[i].1], now, l) { assert q[i] in q; }
  }

  /** Nothing is dropped for its size while an older dated item stays. */
  lemma OldestGoFirst(v: View, now: nat, l: Limits)
    requires l.maxSize < TWO_32 && NoWrap(v, now, l)
    ensures forall kept, gone | kept in v && gone in v && Dated(v[kept])
                                && kept in Kept(v, now, l) && gone !in Kept(v, now, l) ::
              Age(v[kept], now) <= Age(v[gone], now)
  {
    hide *;
    forall kept, gone | kept in v && gone in v && Dated(v[kept])
                        && kept in Kept(v, now, l) && gone !in Kept(v, now, l)
      ensures Age(v[kept], now) <= Age(v[gone], now)
    {
      OlderGoesFirst(v, now, l, kept, gone);
    }
  }

  lemma OlderGoesFirst(v: View, now: nat, l: Limits, kept: string, gone: string)
    requires l.maxSize < TWO_32 && NoWrap(v, now, l)
    requires kept in Kept(v, now, l) && kept in v && Dated(v[kept])
    requires gone in v && gone !in Kept(v, now, l)
    ensures Age(v[kept], now) <= Age(v[gone], now)
  {
    hide AgeOrder, Kept, Age;
    AgeOrdered(v, now, l);
    var q := AgeOrder(v, now, l);
    KeptFrame(v, now, l, kept);
    if Live(v[gone], now, l) {
      KeptExactly(v, now, l, kept);
      KeptExactly(v, now, l, gone);
      assert (Age(v[gone], now), gone) in q;
      var i :| 0 <= i < LongestPrefix(v, q, l.maxSize, |q|) && q[i].1 == kept;
      var j :| 0 <= j < |q| && q[j] == (Age(v[gone], now), gone);
      assert q[i] in q && i < j;
      assert Before(q[i], q[j]);
    } else {
      KeptFrame(v, now, l, gone);
    }
  }

  /** The live items that the second pass visits up to and including `n`, told without the queue. */
  function UpTo(v: View, now: nat, l: Limits, n: string): set<string>
    requires n in v
  {
    set m | m in v && Live(v[m], now, l)
            && (Age(v[m], now) < Age(v[n], now) || (Age(v[m], now) == Age(v[n], now) && LexLe(m, n)))
  }

  lemma OrderAt(q: seq<Aged>, i: nat, j: nat)
    requires InOrder(q) && i < |q| && j < |q|
    ensures i < j ==> Before(q[i], q[j])
  {}

  lemma UpToIsPrefix(v: View, now: nat, l: Limits, n: string, i: nat)
    requires n in v && i < |AgeOrder(v, now, l)| && AgeOrder(v, now, l)[i] == (Age(v[n], now), n)
    ensures Names(AgeOrder(v, now, l)[..i + 1]) == UpTo(v, now, l, n)
  {
    hide AgeOrder, Age;
    AgeOrdered(v, now, l);
    var q := AgeOrder(v, now, l);
    LexTotal2(n, n);
    forall m | m in UpTo(v, now, l, n) ensures m in Names(q[..i + 1]) {
      LexTotal2(m, n);
      assert (Age(v[m], now), m) in q;
      var j :| 0 <= j < |q| && q[j] == (Age(v[m], now), m);
      OrderAt(q, i, j);
      assert j <= i;
      assert q[..i + 1][j] == q[j];
    }
    forall a | a in q[..i + 1] ensures a.1 in UpTo(v, now, l, n) {
      var j :| 0 <= j < i + 1 && q[..i + 1][j] == a;
      assert q[j] in q;
      OrderAt(q, j, i);
    }
  }

  /**
   Exactly which live items a sweep keeps, whatever the sizes: those whose own bytes, together with those of all
   live items before them by age and name, come in 32 bits to no more than the limit.
   */
  lemma LiveKeptIff(v: View, now: nat, l: Limits, n: string)
    requires n in v && Live(v[n], now, l)
    ensures n in Kept(v, now, l) <==> U32(Bytes(v, UpTo(v, now, l, n))) <= l.maxSize
  {
    hide *;
    AgeOrdered(v, now, l);
    var q := AgeOrder(v, now, l);
    assert (Age(v[n], now), n) in q;
    var i :| 0 <= i < |q| && q[i] == (Age(v[n], now), n);
    KeptAt(v, now, l, i);
    UpToIsPrefix(v, now, l, n, i);
    SumIsBytes(v, q, i + 1);
    DroppedIs(v, q, i, l);
  }

  lemma DroppedIs(v: View, q: seq<Aged>, i: nat, l: Limits)
    requires i < |q| && forall a | a in q :: a.1 in v
    ensures Dropped(v, q, i, l) <==> U32(Sum(v, q, i + 1)) > l.maxSize
  {}

  lemma TwoInOrder(q: seq<Aged>, a: Aged, b: Aged)
    requires InOrder(q) && Before(a, b) && !Before(b, a)
    requires forall c :: c in q <==> c == a || c == b
    ensures q == [a, b]
  {
    assert a in q && b in q;
    var i :| 0 <= i < |q| && q[i] == a;
    var j :| 0 <= j < |q| && q[j] == b;
    assert !Before(a, a) && !Before(b, b);
    assert i < j;
    assert forall k | 0 <= k < |q| :: (q[k] == a ==> k == i) && (q[k] == b ==> k == j);
    assert forall k | 0 <= k < |q| :: q[k] in q;
    assert forall k | 0 <= k < |q| :: q[k] == a || q[k] == b;
    assert q[0] == a;
    assert q[1] == b;
    assert q[|q| - 1] == b;
  }

  /** Two items of two gigabytes under a limit of one: the younger goes, the older stays. */
  lemma OlderKeptAfterWrap(v: View, l: Limits)
    requires v == map["a" := Entry(10, 0x8000_0000), "b" := Entry(9, 0x8000_0000)]
    requires l == Limits(30, 0x4000_0000)
    ensures "b" in Kept(v, 10, l) && "a" !in Kept(v, 10, l)
  {
    hide AgeOrder, Kept;
    AgeOrdered(v, 10, l);
    var q := AgeOrder(v, 10, l);
    TwoInOrder(q, (0, "a"), (1, "b"));
    assert Sum(v, q, 1) == Sum(v, q, 0) + 0x8000_0000;
    assert Sum(v, q, 2) == Sum(v, q, 1) + 0x8000_0000;
    KeptAt(v, 10, l, 0);
    KeptAt(v, 10, l, 1);
  }

  // ------------------------------------------------------------ total size

  ghost function Bytes(v: View, names: set<string>): nat
    requires names <= v.Keys
  {
    if names == {} then 0 else
      var n :| n in names;
      v[n].length + Bytes(v, names - {n})
  }

  lemma {:induction false} BytesOf(v: View, names: set<string>, n: string)
    requires names <= v.Keys && n in names
    ensures Bytes(v, names) == v[n].length + Bytes(v, names - {n})
  {
    var m :| m in names && Bytes(v, names) == v[m].length + Bytes(v, names - {m});
    if m != n {
      BytesOf(v, names - {m}, n);
      BytesOf(v, names - {n}, m);
      assert names - {m} - {n} == names - {n} - {m};
    }
  }

  lemma {:induction false} BytesMonotone(v: View, a: set<string>, b: set<string>)
    requires a <= b <= v.Keys
    ensures Bytes(v, a) <= Bytes(v, b)
  {
    if a != {} {
      var n :| n in a;
      BytesOf(v, a, n);
      BytesOf(v, b, n);
      BytesMonotone(v, a - {n}, b - {n});
    }
  }

  /** Bytes depend on the lengths alone. */
  lemma {:induction false} BytesSame(v: View, w: View, names: set<string>)
    requires names <= v.Keys && names <= w.Keys && forall n | n in names :: v[n].length == w[n].length
    ensures Bytes(v, names) == Bytes(w, names)
  {
    if names != {} {
      var n :| n in names;
      BytesOf(v, names, n);
      BytesOf(w, names, n);
      BytesSame(v, w, names - {n});
    }
  }

  function LiveNames(v: View, now: nat, l: Limits): set<string> { set n | n in v && Live(v[n], now, l) }

  function Names(q: seq<Aged>): set<string> { set a | a in q :: a.1 }

  lemma NamesSnoc(q: seq<Aged>, a: Aged)
    ensures Names(q + [a]) == Names(q) + {a.1}
  {
    assert forall b :: b in q + [a] <==> b in q || b == a;
    assert a in q + [a];
  }

  /** Whatever the order, a prefix sum is the size of the set of its names. */
  lemma {:induction false} SumIsBytes(v: View, q: seq<Aged>, k: nat)
    requires k <= |q| && (forall a | a in q :: a.1 in v)
    requires forall i, j | 0 <= i < j < |q| :: q[i].1 != q[j].1
    ensures Names(q[..k]) <= v.Keys && Sum(v, q, k) == Bytes(v, Names(q[..k]))
  {
    if k > 0 {
      SumIsBytes(v, q, k - 1);
      var n := q[k - 1].1;
      assert q[..k] == q[..k - 1] + [q[k - 1]];
      NamesSnoc(q[..k - 1], q[k - 1]);
      assert n !in Names(q[..k - 1]);
      assert q[k - 1] in q;
      BytesOf(v, Names(q[..k]), n);
      assert Names(q[..k]) - {n} == Names(q[..k - 1]);
    }
  }

  lemma QueueNames(v: View, now: nat, l: Limits)
    ensures var q := AgeOrder(v, now, l); q[..|q|] == q && Names(q) == LiveNames(v, now, l)
  {
    hide AgeOrder, Live, Age, InOrder;
    AgeOrdered(v, now, l);
    var q := AgeOrder(v, now, l);
    assert q[..|q|] == q;
    forall n | n in LiveNames(v, now, l) ensures n in Names(q) {
      assert (Age(v[n], now), n) in q;
    }
  }

  /** The live items that are kept fit the limit. */
  lemma LiveKeptFit(v: View, now: nat, l: Limits)
    requires l.maxSize < TWO_32
    requires NoWrap(v, now, l)
    ensures Bytes(v, LiveNames(v, now, l) * Kept(v, now, l)) <= l.maxSize
  {
    hide Kept, AgeOrder;
    AgeOrdered(v, now, l);
    LongestPrefixIff(v, now, l);
    var q := AgeOrder(v, now, l);
    var p := LongestPrefix(v, q, l.maxSize, |q|);
    LongestPrefixIs(v, q, l.maxSize, |q|);
    SumIsBytes(v, q, p);
    var s := Names(q[..p]);
    forall n | n in LiveNames(v, now, l) * Kept(v, now, l) ensures n in s {
      assert (Age(v[n], now), n) in q;
      var i :| 0 <= i < |q| && q[i] == (Age(v[n], now), n);
      assert q[i].1 in Kept(v, now, l) && i < p && q[..p][i] == q[i];
    }
    BytesMonotone(v, LiveNames(v, now, l) * Kept(v, now, l), s);
  }

  lemma {:induction false} BytesZero(v: View, names: set<string>)
    requires names <= v.Keys && forall n | n in names :: v[n].length == 0
    ensures Bytes(v, names) == 0
  {
    if names != {} {
      var n :| n in names;
      BytesOf(v, names, n);
      BytesZero(v, names - {n});
    }
  }

  lemma {:induction false} BytesUnion(v: View, a: set<string>, b: set<string>)
    requires a + b <= v.Keys && a !! b
    ensures Bytes(v, a + b) == Bytes(v, a) + Bytes(v, b)
  {
    if a == {} {
      assert a + b == b;
    } else {
      var n :| n in a;
      BytesOf(v, a + b, n);
      BytesOf(v, a, n);
      assert a + b - {n} == (a - {n}) + b;
      BytesUnion(v, a - {n}, b);
    }
  }

  lemma KeptParts(v: View, now: nat, l: Limits)
    ensures Kept(v, now, l) <= v.Keys
    ensures forall n | n in Kept(v, now, l) :: n in LiveNames(v, now, l) || !Dated(v[n])
  {}

  /** After a sweep the whole cache fits the limit, provided undated items are empty. */
  lemma SweptCacheFits(v: View, now: nat, l: Limits)
    requires l.maxSize < TWO_32
    requires NoWrap(v, now, l)
    requires forall n | n in v && !Dated(v[n]) :: v[n].length == 0
    ensures Kept(v, now, l) <= v.Keys && Bytes(v, Kept(v, now, l)) <= l.maxSize
  {
    hide Kept, AgeOrder;
    var k, live := Kept(v, now, l), LiveNames(v, now, l);
    KeptParts(v, now, l);
    LiveKeptFit(v, now, l);
    BytesZero(v, k - live);
    BytesUnion(v, live * k, k - live);
    assert live * k + (k - live) == k;
  }

  /** When everything live fits, in whatever order, only expired items go. */
  lemma FittingCacheLosesOnlyExpired(v: View, now: nat, l: Limits)
    requires l.maxSize < TWO_32 && Bytes(v, LiveNames(v, now, l)) <= l.maxSize
    ensures Kept(v, now, l) == set n | n in v && !Expired(v[n], now, l)
  {
    hide AgeOrder;
    AgeOrdered(v, now, l);
    var q := AgeOrder(v, now, l);
    QueueNames(v, now, l);
    SumIsBytes(v, q, |q|);
    forall i | 0 <= i < |q| ensures !Dropped(v, q, i, l) { SumGrows(v, q, i + 1, |q|); }
  }

  /** A second sweep, at any time and with any re-dating of the items, removes exactly what has expired. */
  lemma SecondSweep(v: View, now: nat, w: View, later: nat, l: Limits)
    requires l.maxSize < TWO_32
    requires NoWrap(v, now, l)
    requires forall n | n in v && !Dated(v[n]) :: v[n].length == 0
    requires w.Keys == Kept(v, now, l) && forall n | n in w :: w[n].length == v[n].length
    ensures Kept(w, later, l) == set n | n in w && !Expired(w[n], later, l)
  {
    SweptCacheFits(v, now, l);
    BytesSame(v, w, w.Keys);
    BytesMonotone(w, LiveNames(w, later, l), w.Keys);
    FittingCacheLosesOnlyExpired(w, later, l);
  }
}
