/**
 Agreement of cache and window, kept by every step.
 */
module CacheInvariants {
  import opened Ordering
  import opened Segments
  import opened EdgeCache
  import Sweep
  import MP = MediaPlaylist

  /** Every segment stems from an accepted listing. */
  ghost predicate Provenance(c: Config, w: World) {
    && Ids(w)
    && |w.origins| == |w.store|
    && forall i | 0 <= i < |w.store| ::
         && w.origins[i] in w.accepted
         && w.store[i].uri == c.dir + w.origins[i].uri
         && w.store[i].nr == w.origins[i].nr
         && w.store[i].extinf == w.origins[i].extinf
  }

  /** A cached segment is the one in the window, under its own URI. */
  ghost predicate CacheSound(w: World)
    requires Ids(w)
  {
    forall n | n in w.cache && w.cache[n].SegmentItem? ::
      var id := w.cache[n].id;
      && id < |w.store| && w.store[id].uri == n
      && w.store[id].nr in w.window && w.window[w.store[id].nr] == id
  }

  /** A window segment is cached unless a sweep has removed it, and then nothing else is in its place. */
  ghost predicate Present(w: World)
    requires Ids(w)
  {
    && (forall id | id in w.swept :: id < |w.store|)
    && forall s | s in w.window :: PresentAt(w, w.window[s])
  }

  ghost predicate PresentAt(w: World, id: nat)
    requires id < |w.store|
  {
    var uri := w.store[id].uri;
    if id in w.swept then uri !in w.cache else uri in w.cache && w.cache[uri] == SegmentItem(id)
  }

  ghost predicate CacheInv(c: Config, w: World) {
    Provenance(c, w) && CacheSound(w) && Present(w)
  }

  lemma SameTail(dir: string, a: string, b: string)
    requires dir + a == dir + b
    ensures a == b
  {
    assert (dir + a)[|dir|..] == a && (dir + b)[|dir|..] == b;
  }

  lemma UrisDiffer(c: Config, w: World, i: nat, j: nat)
    requires Provenance(c, w) && Distinct(w.accepted)
    requires i < |w.store| && j < |w.store| && w.store[i].nr != w.store[j].nr
    ensures w.store[i].uri != w.store[j].uri
  {
    if w.store[i].uri == w.store[j].uri { SameTail(c.dir, w.origins[i].uri, w.origins[j].uri); }
  }

  lemma MergeOneKeepsProvenance(c: Config, w: World, l: MP.Listing)
    requires Provenance(c, w)
    ensures Provenance(c, MergeOne(c, w, l))
  {}

  lemma MergeOneKeepsCache(c: Config, w: World, l: MP.Listing)
    requires CacheInv(c, w) && Distinct(w.accepted + [l])
    ensures CacheInv(c, MergeOne(c, w, l))
  {
    var r := MergeOne(c, w, l);
    MergeOneKeepsProvenance(c, w, l);
    if l.nr !in w.window {
      var uri, id := c.dir + l.uri, |w.store|;
      forall i | 0 <= i < |w.store| && w.store[i].nr != l.nr ensures w.store[i].uri != uri {
        UrisDiffer(c, r, i, id);
      }
      forall n | n in r.cache && r.cache[n].SegmentItem?
        ensures var k := r.cache[n].id;
          k < |r.store| && r.store[k].uri == n && r.store[k].nr in r.window && r.window[r.store[k].nr] == k
      {
        if n != uri { assert n in w.cache && w.cache[n].SegmentItem?; }
      }
      forall s | s in r.window ensures PresentAt(r, r.window[s]) {
        if s != l.nr { assert PresentAt(w, w.window[s]); }
      }
    }
  }

  lemma EvictOneKeepsCache(c: Config, w: World)
    requires CacheInv(c, w) && Distinct(w.accepted) && w.window != map[]
    ensures CacheInv(c, EvictOne(w))
  {
    var r := EvictOne(w);
    var m := MinInt(w.window.Keys);
    forall s | s in r.window ensures PresentAt(r, r.window[s]) {
      UrisDiffer(c, w, w.window[s], w.window[m]);
      assert PresentAt(w, w.window[s]);
    }
  }

  lemma {:induction false} MergeKeepsCache(c: Config, w: World, ls: seq<MP.Listing>)
    requires CacheInv(c, w) && Distinct(w.accepted + ls)
    ensures var r := Merge(c, w, ls); CacheInv(c, r) && r.accepted == w.accepted + ls
  {
    if ls == [] {
      assert w.accepted + ls == w.accepted;
    } else {
      var rest, l := ls[..|ls| - 1], ls[|ls| - 1];
      assert w.accepted + ls == w.accepted + rest + [l];
      MergeKeepsCache(c, w, rest);
      MergeOneKeepsCache(c, Merge(c, w, rest), l);
    }
  }

  lemma {:induction false} EvictKeepsCache(c: Config, w: World, keep: nat)
    requires CacheInv(c, w) && Distinct(w.accepted)
    ensures CacheInv(c, Evict(w, keep)) && Evict(w, keep).accepted == w.accepted
    decreases |w.window|
  {
    if |w.window| > keep {
      assert w.window != map[];
      EvictOneKeepsCache(c, w);
      EvictKeepsCache(c, EvictOne(w), keep);
    }
  }

  /** Fields the invariant does not read. */
  lemma UnreadFields(c: Config, w: World, r: World)
    requires CacheInv(c, w)
    requires r == w.(clock := r.clock, complete := r.complete, playlist := r.playlist, target := r.target)
    ensures CacheInv(c, r)
  {
    forall s | s in r.window ensures PresentAt(r, r.window[s]) {
      assert PresentAt(w, w.window[s]);
    }
  }

  lemma HandlePlaylistKeepsCache(c: Config, w: World, content: string, source: ItemSource, garbage: int)
    requires CacheInv(c, w) && Distinct(HandlePlaylist(c, w, content, source, garbage).accepted)
    ensures CacheInv(c, HandlePlaylist(c, w, content, source, garbage))
  {
    hide MP.Parse, MP.Print, WindowListing, Merge, Evict, Admitted, CacheSound, Present, Distinct;
    var p := MP.Parse(content, garbage);
    if p.Success? {
      var ls := Admitted(p.value.segments, source, c.truncate);
      AcceptedGrows(c, w, ls);
      MergeKeepsCache(c, w, ls);
      EvictKeepsCache(c, Merge(c, w, ls), c.keep);
      UnreadFields(c, Evict(Merge(c, w, ls), c.keep), HandlePlaylist(c, w, content, source, garbage));
    }
  }

  lemma AcceptedGrows(c: Config, w: World, ls: seq<MP.Listing>)
    requires Ids(w)
    ensures Merge(c, w, ls).accepted == w.accepted + ls
    ensures Evict(Merge(c, w, ls), c.keep).accepted == w.accepted + ls
  {
    MergeAccepts(c, w, ls);
    EvictAccepts(Merge(c, w, ls), c.keep);
  }

  lemma {:induction false} MergeAccepts(c: Config, w: World, ls: seq<MP.Listing>)
    requires Ids(w)
    ensures Merge(c, w, ls).accepted == w.accepted + ls
  {
    if ls != [] {
      MergeAccepts(c, w, ls[..|ls| - 1]);
      assert ls == ls[..|ls| - 1] + [ls[|ls| - 1]];
    }
  }

  lemma {:induction false} EvictAccepts(w: World, keep: nat)
    requires Ids(w)
    ensures Evict(w, keep).accepted == w.accepted
    decreases |w.window|
  {
    if |w.window| > keep {
      assert w.window != map[];
      EvictAccepts(EvictOne(w), keep);
    }
  }

  lemma SweepKeepsCache(c: Config, w: World)
    requires CacheInv(c, w)
    ensures CacheInv(c, SweepCache(c, w))
  {
    hide Sweep.Kept;
    var r := SweepCache(c, w);
    forall id | id in r.swept && id !in w.swept ensures id < |w.store| && w.store[id].uri !in r.cache {
      var n :| n in w.cache && n !in r.cache && w.cache[n] == SegmentItem(id);
    }
    forall s | s in r.window ensures PresentAt(r, r.window[s]) {
      assert PresentAt(w, w.window[s]);
    }
  }

  lemma OtherItemKeepsCache(c: Config, w: World, name: string, item: Item)
    requires CacheInv(c, w) && Free(w, name) && !item.SegmentItem?
    ensures CacheInv(c, w.(cache := w.cache[name := item]))
  {
    var r := w.(cache := w.cache[name := item]);
    forall s | s in r.window ensures PresentAt(r, r.window[s]) {
      assert PresentAt(w, w.window[s]);
    }
  }

  lemma OtherRemovedKeepsCache(c: Config, w: World, name: string)
    requires CacheInv(c, w) && Free(w, name)
    ensures CacheInv(c, w.(cache := w.cache - {name}))
  {
    var r := w.(cache := w.cache - {name});
    forall s | s in r.window ensures PresentAt(r, r.window[s]) {
      assert PresentAt(w, w.window[s]);
    }
  }

  lemma SegmentFetchedKeepsCache(c: Config, w: World, id: nat, file: CdnFile)
    requires CacheInv(c, w)
    ensures CacheInv(c, SegmentFetched(w, id, file))
  {
    var r := SegmentFetched(w, id, file);
    forall s | s in r.window ensures PresentAt(r, r.window[s]) {
      assert PresentAt(w, w.window[s]);
    }
  }

  lemma StageKeepsCache(c: Config, w: World, file: FluteFile)
    requires CacheInv(c, w)
    ensures CacheInv(c, Stage(w, file))
  {
    forall s | s in w.window ensures PresentAt(Stage(w, file), w.window[s]) {
      assert PresentAt(w, w.window[s]);
    }
  }

  lemma StepKeepsCache(c: Config, w: World, e: Event)
    requires CacheInv(c, w) && Spares(w, e) && Distinct(Step(c, w, e).accepted)
    ensures CacheInv(c, Step(c, w, e))
  {
    hide SweepCache, SegmentFetched, Stage, HandlePlaylist;
    match e
    case FluteFile(file, garbage) =>
      if file.location == c.path {
        HandlePlaylistKeepsCache(c, w, file.content, Broadcast, garbage);
      } else {
        StageKeepsCache(c, w, file);
      }
    case CdnPlaylist(content, garbage) => HandlePlaylistKeepsCache(c, w, content, CDN, garbage);
    case CdnSegment(id, data) => SegmentFetchedKeepsCache(c, w, id, data);
    case SweepTick => SweepKeepsCache(c, w);
    case OtherItem(name, item) => OtherItemKeepsCache(c, w, name, item);
    case OtherRemoved(name) => OtherRemovedKeepsCache(c, w, name);
    case FileCompleted(_) => UnreadFields(c, w, Step(c, w, e));
    case Tick(_) => UnreadFields(c, w, Step(c, w, e));
  }
}
