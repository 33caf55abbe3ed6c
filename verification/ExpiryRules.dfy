/** What a sweep does to each kind of item, told from the dates and contents that the item itself carries. */
module ExpiryRules {
  import opened Wrappers
  import opened Ordering
  import opened Segments
  import opened EdgeCache
  import Sweep

  /** A date that is set, not in the future, and longer ago than the limit allows. */
  ghost predicate TooOld(c: Config, w: World, receivedAt: nat) {
    receivedAt != 0 && receivedAt <= w.clock < 0x1_0000_0000_0000_0000 && w.clock - receivedAt > c.limits.maxAge
  }

  /** A date that is set, not in the future, and recent enough. */
  ghost predicate Recent(c: Config, w: World, receivedAt: nat) {
    receivedAt != 0 && receivedAt <= w.clock < 0x1_0000_0000_0000_0000 && w.clock - receivedAt <= c.limits.maxAge
  }

  lemma AgeOf(w: World, receivedAt: nat)
    requires receivedAt <= w.clock < 0x1_0000_0000_0000_0000
    ensures (w.clock - receivedAt) % TWO_64 == w.clock - receivedAt
  {}

  lemma ExpiredGoes(c: Config, w: World, n: string)
    requires n in w.cache && Sweep.Expired(ItemEntry(w, w.cache[n]), w.clock, c.limits)
    ensures n !in SweepCache(c, w).cache
  {
    hide Sweep.Expired, ItemEntry;
    assert WorldView(w)[n] == ItemEntry(w, w.cache[n]);
    Sweep.KeptFrame(WorldView(w), w.clock, c.limits, n);
    hide Sweep.Kept;
  }

  lemma UndatedStays(c: Config, w: World, n: string)
    requires n in w.cache && !Sweep.Dated(ItemEntry(w, w.cache[n]))
    ensures n in SweepCache(c, w).cache && SweepCache(c, w).cache[n] == w.cache[n]
  {
    hide ItemEntry;
    assert WorldView(w)[n] == ItemEntry(w, w.cache[n]);
    Sweep.KeptFrame(WorldView(w), w.clock, c.limits, n);
    hide Sweep.Kept;
  }

  lemma LiveStaysIff(c: Config, w: World, n: string)
    requires n in w.cache && Sweep.Live(ItemEntry(w, w.cache[n]), w.clock, c.limits)
    ensures n in WorldView(w)
    ensures n in SweepCache(c, w).cache <==>
              U32(Sweep.Bytes(WorldView(w), Sweep.UpTo(WorldView(w), w.clock, c.limits, n))) <= c.limits.maxSize
  {
    hide ItemEntry, Sweep.Live, Sweep.UpTo, Sweep.Bytes;
    assert WorldView(w)[n] == ItemEntry(w, w.cache[n]);
    Sweep.LiveKeptIff(WorldView(w), w.clock, c.limits, n);
    hide Sweep.Kept;
  }

  // ------------------------------------------------------------ age

  /** Segments, of this stream or another, go when their data are too old, and stay while they have no date. */
  lemma SegmentAges(c: Config, w: World, n: string)
    requires n in w.cache
    requires w.cache[n].OtherSegment? || (w.cache[n].SegmentItem? && w.cache[n].id < |w.store|)
    ensures var s := if w.cache[n].SegmentItem? then w.store[w.cache[n].id] else w.cache[n].value;
      && (TooOld(c, w, s.receivedAt) ==> n !in SweepCache(c, w).cache)
      && (s.receivedAt == 0 ==> n in SweepCache(c, w).cache && SweepCache(c, w).cache[n] == w.cache[n])
  {
    hide SweepCache;
    var s := if w.cache[n].SegmentItem? then w.store[w.cache[n].id] else w.cache[n].value;
    if TooOld(c, w, s.receivedAt) {
      AgeOf(w, s.receivedAt);
      ExpiredGoes(c, w, n);
    }
    if s.receivedAt == 0 { UndatedStays(c, w, n); }
  }

  /** Files that other streams have cached go by the date at which they were received. */
  lemma FileAges(c: Config, w: World, n: string)
    requires n in w.cache && w.cache[n].FileItem?
    ensures var r := w.cache[n].file.receivedAt;
      && (TooOld(c, w, r) ==> n !in SweepCache(c, w).cache)
      && (r == 0 ==> n in SweepCache(c, w).cache && SweepCache(c, w).cache[n] == w.cache[n])
  {
    hide SweepCache;
    var r := w.cache[n].file.receivedAt;
    if TooOld(c, w, r) {
      AgeOf(w, r);
      ExpiredGoes(c, w, n);
    }
    if r == 0 { UndatedStays(c, w, n); }
  }

  lemma PlaylistLive(c: Config, w: World, n: string)
    requires n in w.cache && (w.cache[n].OwnPlaylist? || w.cache[n].OtherPlaylist?)
    ensures w.clock != 0 ==> Sweep.Live(ItemEntry(w, w.cache[n]), w.clock, c.limits)
    ensures w.clock == 0 ==> !Sweep.Dated(ItemEntry(w, w.cache[n]))
  {}

  /** Playlists never go for their age: whatever the limit, they stay in a cache whose bytes all fit. */
  lemma PlaylistsAgeless(c: Config, w: World, n: string)
    requires n in w.cache && (w.cache[n].OwnPlaylist? || w.cache[n].OtherPlaylist?)
    requires c.limits.maxSize < TWO_32
    requires Sweep.Bytes(WorldView(w), WorldView(w).Keys) <= c.limits.maxSize
    ensures n in SweepCache(c, w).cache
  {
    hide SweepCache, ItemEntry, WorldView, Sweep.Bytes, Sweep.Live, Sweep.Dated;
    PlaylistLive(c, w, n);
    if w.clock == 0 {
      UndatedStays(c, w, n);
    } else {
      var v := WorldView(w);
      LiveStaysIff(c, w, n);
      Sweep.BytesMonotone(v, Sweep.UpTo(v, w.clock, c.limits, n), v.Keys);
    }
  }

  // ------------------------------------------------------------ bytes

  /** The bytes that the size pass adds for each kind of item, in 32 bits. */
  lemma BytesSeen(w: World, n: string)
    requires n in w.cache
    ensures n in WorldView(w)
    ensures var item, length := w.cache[n], WorldView(w)[n].length;
      && (item.FileItem? ==> length == |item.file.content| % 0x1_0000_0000)
      && (item.OwnPlaylist? ==> length == |w.playlist| % 0x1_0000_0000)
      && (item.OtherPlaylist? ==> length == |item.text| % 0x1_0000_0000)
      && (item.OtherSegment? || (item.SegmentItem? && item.id < |w.store|) ==>
            var s := if item.SegmentItem? then w.store[item.id] else item.value;
            length == if s.flute.Some? && s.flute.value.id in w.complete
                      then |s.flute.value.content| % 0x1_0000_0000
                      else if s.cdn.Some? then |s.cdn.value.content| % 0x1_0000_0000
                      else 0)
  {}

  lemma AloneUpTo(v: Sweep.View, now: nat, l: Sweep.Limits, n: string)
    requires v.Keys == {n} && Sweep.Live(v[n], now, l)
    ensures Sweep.UpTo(v, now, l, n) == {n} && Sweep.Bytes(v, {n}) == v[n].length
  {
    LexTotal2(n, n);
    Sweep.BytesOf(v, {n}, n);
    assert {n} - {n} == {};
  }

  lemma RecentLive(c: Config, w: World, n: string)
    requires n in w.cache
    ensures w.cache[n].FileItem? && Recent(c, w, w.cache[n].file.receivedAt) ==>
              Sweep.Live(ItemEntry(w, w.cache[n]), w.clock, c.limits)
    ensures w.cache[n].OtherSegment? && Recent(c, w, w.cache[n].value.receivedAt) ==>
              Sweep.Live(ItemEntry(w, w.cache[n]), w.clock, c.limits)
    ensures w.cache[n].SegmentItem? && w.cache[n].id < |w.store| && Recent(c, w, w.store[w.cache[n].id].receivedAt) ==>
              Sweep.Live(ItemEntry(w, w.cache[n]), w.clock, c.limits)
  {}

  lemma AloneFits(c: Config, w: World, n: string)
    requires w.cache.Keys == {n} && n in w.cache && Sweep.Live(ItemEntry(w, w.cache[n]), w.clock, c.limits)
    ensures n in WorldView(w)
    ensures n in SweepCache(c, w).cache <==> WorldView(w)[n].length % 0x1_0000_0000 <= c.limits.maxSize
  {
    hide SweepCache, ItemEntry, Sweep.Live, Sweep.UpTo, Sweep.Bytes;
    LiveStaysIff(c, w, n);
    AloneUpTo(WorldView(w), w.clock, c.limits, n);
  }

  /** So an item that is alone in the cache and not too old stays exactly when its own bytes are within the limit. */
  lemma AloneStaysIff(c: Config, w: World, n: string)
    requires w.cache.Keys == {n} && n in w.cache && w.clock != 0
    ensures var item := w.cache[n];
      && (item.FileItem? && Recent(c, w, item.file.receivedAt) ==>
            (n in SweepCache(c, w).cache <==> |item.file.content| % 0x1_0000_0000 <= c.limits.maxSize))
      && (item.OwnPlaylist? ==>
            (n in SweepCache(c, w).cache <==> |w.playlist| % 0x1_0000_0000 <= c.limits.maxSize))
      && (item.OtherPlaylist? ==>
            (n in SweepCache(c, w).cache <==> |item.text| % 0x1_0000_0000 <= c.limits.maxSize))
      && (item.OtherSegment? || (item.SegmentItem? && item.id < |w.store|) ==>
            var s := if item.SegmentItem? then w.store[item.id] else item.value;
            Recent(c, w, s.receivedAt) ==>
              (n in SweepCache(c, w).cache <==>
                (if s.flute.Some? && s.flute.value.id in w.complete
                 then |s.flute.value.content| % 0x1_0000_0000
                 else if s.cdn.Some? then |s.cdn.value.content| % 0x1_0000_0000
                 else 0) <= c.limits.maxSize))
  {
    hide SweepCache, ItemEntry, WorldView, Sweep.Live, Recent;
    BytesSeen(w, n);
    RecentLive(c, w, n);
    if w.cache[n].OwnPlaylist? || w.cache[n].OtherPlaylist? { PlaylistLive(c, w, n); }
    if Sweep.Live(ItemEntry(w, w.cache[n]), w.clock, c.limits) { AloneFits(c, w, n); }
  }
}
