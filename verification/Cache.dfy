/**
 The shared cache: `CacheManagement` over the three kinds of `CacheItem`.
 */
module Cache {
  import opened Ordering
  import opened Segments
  import opened Sweep

  /** The string a generated playlist item hands out through its callback. */
  class TextCell {
    var text: string

    constructor (text: string)
      ensures this.text == text
    {
      this.text := text;
    }
  }

  datatype CacheItem =
    | CachedFile(location: string, dated: nat, file: FluteFile)
    | CachedSegment(location: string, segment: Segment)
    | CachedPlaylist(location: string, playlist: TextCell)
  {
    function Objects(): set<object> {
      match this
      case CachedFile(_, _, _) => {}
      case CachedSegment(_, segment) => {segment}
      case CachedPlaylist(_, playlist) => {playlist}
    }

    /** Segments carry their own date; generated playlists are always new. */
    function ReceivedAt(now: nat): nat
      reads Objects()
    {
      match this
      case CachedFile(_, dated, _) => dated
      case CachedSegment(_, segment) => segment.receivedAt
      case CachedPlaylist(_, _) => now
    }

    function ContentLength(complete: set<nat>): nat
      reads Objects()
    {
      match this
      case CachedFile(_, _, file) => U32(|file.content|)
      case CachedSegment(_, segment) => segment.ContentLength(complete)
      case CachedPlaylist(_, playlist) => U32(|playlist.text|)
    }

    function Source(complete: set<nat>): ItemSource
      reads Objects()
    {
      match this
      case CachedFile(_, _, _) => Broadcast
      case CachedSegment(_, segment) => segment.DataSource(complete)
      case CachedPlaylist(_, _) => Generated
    }

    function AsEntry(now: nat, complete: set<nat>): Entry
      reads Objects()
    {
      Entry(ReceivedAt(now), ContentLength(complete))
    }
  }

  /** Megabytes to bytes, in 32-bit arithmetic. */
  function ScaledSize(megabytes: nat): nat { U32(megabytes * 1024 * 1024) }

  /** The scaling is exact for less than four gigabytes; four gigabytes become a limit of zero. */
  lemma ScaledSizeIff(megabytes: nat)
    ensures ScaledSize(megabytes) == megabytes * 1024 * 1024 <==> megabytes < 4096
    ensures ScaledSize(4096) == 0
  {}

  lemma U32Add(a: nat, b: nat)
    ensures U32(U32(a) + b) == U32(a + b)
  {
    var q := a / TWO_32;
    assert a + b == U32(a) + b + q * TWO_32;
    assert (U32(a) + b + q * TWO_32) % TWO_32 == (U32(a) + b) % TWO_32;
  }

  class CacheManagement {
    var items: map<string, CacheItem>
    const limits: Limits

    constructor (maxTotalSize: nat, maxFileAge: nat)
      ensures items == map[] && limits == Limits(maxFileAge, ScaledSize(maxTotalSize))
    {
      items := map[];
      limits := Limits(maxFileAge, ScaledSize(maxTotalSize));
    }

    method AddItem(item: CacheItem)
      modifies this
      ensures items == old(items)[item.location := item]
    {
      items := items[item.location := item];
    }

    method RemoveItem(location: string)
      modifies this
      ensures items == old(items) - {location}
    {
      items := items - {location};
    }

    /** Files are cached under the date at which they were received. */
    ghost predicate DatesAgree()
      reads this
    {
      forall n | n in items && items[n].CachedFile? :: items[n].dated == items[n].file.receivedAt
    }

    function Objects(): set<object>
      reads this
    {
      set n, o | n in items && o in items[n].Objects() :: o
    }

    /** What the sweep reads of the cache. */
    function AsView(now: nat, complete: set<nat>): View
      reads this, Objects()
    {
      map n | n in items :: items[n].AsEntry(now, complete)
    }

    /**
     Expiry over the whole map, then the size budget in age order. The accessors of the items
     are read once at the start; nothing in the handler can change them.
     */
    method CheckFileExpiryAndCacheSize(now: nat, complete: set<nat>)
      modifies this
      ensures var kept := Kept(old(AsView(now, complete)), now, limits);
              items == map n | n in old(items) && n in kept :: old(items)[n]
    {
      hide AgeOrder, ExpiredAmong, OverBudget, Kept;
      var v := AsView(now, complete);
      TwoPasses(v, now, limits);
      var unexpired, byAge := EraseExpired(v, now, limits);
      var kept := EraseOverBudget(v, now, limits, unexpired, byAge);
      items := map n | n in items && n in kept :: items[n];
    }
  }

  /** First pass over the names in the map: erase what is too old, file the other dated items by age. */
  method EraseExpired(v: View, now: nat, l: Limits) returns (rest: set<string>, byAge: seq<Aged>)
    ensures rest == v.Keys - ExpiredAmong(v, SortedStrings(v.Keys), now, l)
    ensures byAge == AgeOrder(v, now, l)
  {
    hide *;
    var names := SortedStrings(v.Keys);
    rest, byAge := v.Keys, [];
    var i := 0;
    EmptyPass(v, names, now, l);
    while i < |names|
      invariant 0 <= i <= |names|
      invariant rest == v.Keys - ExpiredAmong(v, names[..i], now, l)
      invariant byAge == Queue(v, names[..i], now, l)
    {
      var name := names[i];
      assert names[..i + 1] == names[..i] + [name];
      ExpiredSnoc(v, names[..i], name, now, l);
      EntryCases(v[name], now, l);
      if v[name].receivedAt != 0 {
        var age := (now - v[name].receivedAt) % TWO_64;
        if age > l.maxAge {
          rest := rest - {name};
        } else {
          byAge := Insert(byAge, (age, name));
        }
      }
      i := i + 1;
    }
    assert names[..i] == names;
    QueueIsAgeOrder(v, now, l);
  }

  /** Second pass: add up in age order, erase whatever brings the total above the limit. */
  method EraseOverBudget(v: View, now: nat, l: Limits, unexpired: set<string>, byAge: seq<Aged>)
    returns (rest: set<string>)
    requires byAge == AgeOrder(v, now, l)
    requires unexpired == v.Keys - ExpiredAmong(v, SortedStrings(v.Keys), now, l)
    ensures forall a | a in byAge :: a.1 in v
    ensures rest == unexpired - OverBudget(v, byAge, |byAge|, l)
  {
    hide *;
    TwoPasses(v, now, l);
    NothingSummed(v, byAge, l);
    rest := unexpired;
    var totalSize := 0;
    var j := 0;
    while j < |byAge|
      invariant 0 <= j <= |byAge|
      invariant totalSize == U32(Sum(v, byAge, j))
      invariant rest == unexpired - OverBudget(v, byAge, j, l)
    {
      var name := byAge[j].1;
      assert byAge[j] in byAge;
      assert name in rest by { VisitedOnce(v, now, l, j); }
      AddedToTotal(v, byAge, j, l);
      totalSize := U32(totalSize + v[name].length);
      if totalSize > l.maxSize {
        rest := rest - {name};
      }
      j := j + 1;
    }
  }

  lemma EntryCases(e: Entry, now: nat, l: Limits)
    ensures TWO_64 != 0 && Age(e, now) == (now - e.receivedAt) % TWO_64
    ensures Expired(e, now, l) <==> e.receivedAt != 0 && Age(e, now) > l.maxAge
    ensures Live(e, now, l) <==> e.receivedAt != 0 && Age(e, now) <= l.maxAge
  {}

  lemma QueueIsAgeOrder(v: View, now: nat, l: Limits)
    ensures Queue(v, SortedStrings(v.Keys), now, l) == AgeOrder(v, now, l)
  {}

  lemma EmptyPass(v: View, names: seq<string>, now: nat, l: Limits)
    ensures ExpiredAmong(v, names[..0], now, l) == {} && Queue(v, names[..0], now, l) == []
  {}

  lemma NothingSummed(v: View, q: seq<Aged>, l: Limits)
    requires forall a | a in q :: a.1 in v
    ensures U32(Sum(v, q, 0)) == 0 && OverBudget(v, q, 0, l) == {}
  {}

  lemma AddedToTotal(v: View, q: seq<Aged>, j: nat, l: Limits)
    requires j < |q| && forall a | a in q :: a.1 in v
    ensures var total := U32(U32(Sum(v, q, j)) + v[q[j].1].length);
      && total == U32(Sum(v, q, j + 1))
      && OverBudget(v, q, j + 1, l) == OverBudget(v, q, j, l) + if total > l.maxSize then {q[j].1} else {}
  {
    U32Add(Sum(v, q, j), v[q[j].1].length);
  }
}
