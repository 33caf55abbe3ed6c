/**
 Where delivered files go, and what the dates of segments say about their data.
 */
module FileInvariants {
  import opened Wrappers
  import opened Segments
  import opened EdgeCache
  import opened WindowInvariants
  import Sweep
  import MP = MediaPlaylist

  ghost predicate Staged(w: World, f: FluteFile) { f.location in w.staged && w.staged[f.location] == f }

  ghost predicate AttachedAt(w: World, i: nat, f: FluteFile) { i < |w.store| && w.store[i].flute == Some(f) }

  ghost predicate Attached(w: World, f: FluteFile) { exists i: nat :: AttachedAt(w, i, f) }

  /** Every delivered file is in exactly one place: staged, attached to one segment, or superseded. */
  ghost predicate Conserved(w: World) {
    && (forall f :: f in w.delivered <==> Staged(w, f) || Attached(w, f) || f in w.superseded)
    && (forall f :: !(Staged(w, f) && Attached(w, f)))
    && (forall f | f in w.superseded :: !Staged(w, f) && !Attached(w, f))
    && (forall i: nat, j: nat, f | AttachedAt(w, i, f) && AttachedAt(w, j, f) :: i == j)
  }

  /** Files sit where their location says. */
  ghost predicate Placed(w: World) {
    && (forall n | n in w.staged :: w.staged[n].location == n)
    && (forall i | 0 <= i < |w.store| && w.store[i].flute.Some? :: w.store[i].flute.value.location == w.store[i].uri)
  }

  ghost predicate FileInv(w: World) { Conserved(w) && Placed(w) }

  /** The fields the file invariants read. */
  ghost predicate SameFiles(w: World, r: World) {
    && r.store == w.store && r.staged == w.staged
    && r.delivered == w.delivered && r.superseded == w.superseded
  }

  lemma SameFilesKeep(w: World, r: World)
    requires FileInv(w) && SameFiles(w, r)
    ensures FileInv(r)
  {
    assert forall f :: Staged(r, f) <==> Staged(w, f);
    assert forall i: nat, f :: AttachedAt(r, i, f) <==> AttachedAt(w, i, f);
    assert forall f :: Attached(r, f) <==> Attached(w, f);
  }

  lemma ClaimConserves(w: World, r: World, uri: string)
    requires Conserved(w) && Placed(w) && uri in w.staged
    requires |r.store| == |w.store| + 1 && r.store[..|w.store|] == w.store
    requires r.store[|w.store|].flute == Some(w.staged[uri])
    requires r.staged == w.staged - {uri} && r.delivered == w.delivered && r.superseded == w.superseded
    ensures Conserved(r)
  {
    var g := w.staged[uri];
    assert Staged(w, g);
    assert AttachedAt(r, |w.store|, g);
    forall i: nat, f ensures AttachedAt(r, i, f) <==> AttachedAt(w, i, f) || (i == |w.store| && f == g) {
      if i < |w.store| { assert r.store[i] == r.store[..|w.store|][i]; }
    }
    assert forall f | Attached(w, f) :: Attached(r, f) by {
      forall f | Attached(w, f) ensures Attached(r, f) {
        var i: nat :| AttachedAt(w, i, f);
        assert AttachedAt(r, i, f);
      }
    }
    forall f ensures Attached(r, f) <==> Attached(w, f) || f == g {
      if Attached(r, f) { var i: nat :| AttachedAt(r, i, f); }
    }
    assert forall f :: Staged(r, f) <==> Staged(w, f) && f != g;
  }

  lemma PlainSegmentConserves(w: World, r: World)
    requires Conserved(w)
    requires |r.store| == |w.store| + 1 && r.store[..|w.store|] == w.store
    requires r.store[|w.store|].flute == None
    requires r.staged == w.staged && r.delivered == w.delivered && r.superseded == w.superseded
    ensures Conserved(r)
  {
    forall i: nat, f ensures AttachedAt(r, i, f) <==> AttachedAt(w, i, f) {
      if i < |w.store| { assert r.store[i] == r.store[..|w.store|][i]; }
    }
    assert forall f :: Attached(r, f) <==> Attached(w, f);
    assert forall f :: Staged(r, f) <==> Staged(w, f);
  }

  lemma MergeOneKeepsFiles(c: Config, w: World, l: MP.Listing)
    requires Ids(w) && FileInv(w)
    ensures FileInv(MergeOne(c, w, l))
  {
    var r := MergeOne(c, w, l);
    if l.nr in w.window {
      SameFilesKeep(w, r);
    } else {
      var uri := c.dir + l.uri;
      assert r.store[..|w.store|] == w.store;
      if uri in w.staged {
        ClaimConserves(w, r, uri);
      } else {
        assert w.staged - {uri} == w.staged;
        PlainSegmentConserves(w, r);
      }
    }
  }

  lemma {:induction false} MergeKeepsFiles(c: Config, w: World, ls: seq<MP.Listing>)
    requires Ids(w) && FileInv(w)
    ensures FileInv(Merge(c, w, ls))
  {
    hide FileInv;
    if ls != [] {
      MergeKeepsFiles(c, w, ls[..|ls| - 1]);
      MergeOneKeepsFiles(c, Merge(c, w, ls[..|ls| - 1]), ls[|ls| - 1]);
    }
  }

  lemma {:induction false} EvictKeepsFiles(w: World, keep: nat)
    requires Ids(w) && FileInv(w)
    ensures FileInv(Evict(w, keep))
    decreases |w.window|
  {
    if |w.window| > keep {
      assert w.window != map[];
      SameFilesKeep(w, EvictOne(w));
      EvictKeepsFiles(EvictOne(w), keep);
    }
  }

  lemma HandlePlaylistKeepsFiles(c: Config, w: World, content: string, source: ItemSource, garbage: int)
    requires Ids(w) && FileInv(w)
    ensures FileInv(HandlePlaylist(c, w, content, source, garbage))
  {
    hide FileInv, Merge, Evict, WindowListing, MP.Parse, MP.Print;
    var p := MP.Parse(content, garbage);
    if p.Success? {
      var ls := Admitted(p.value.segments, source, c.truncate);
      MergeKeepsFiles(c, w, ls);
      EvictKeepsFiles(Merge(c, w, ls), c.keep);
      SameFilesKeep(Evict(Merge(c, w, ls), c.keep), HandlePlaylist(c, w, content, source, garbage));
    }
  }

  lemma StageKeepsFiles(w: World, file: FluteFile)
    requires FileInv(w) && forall f | f in w.delivered :: f.id != file.id
    ensures FileInv(Stage(w, file))
  {
    var r := Stage(w, file);
    assert forall i: nat, f :: AttachedAt(r, i, f) <==> AttachedAt(w, i, f);
    assert forall f :: Attached(r, f) <==> Attached(w, f);
    assert !Staged(w, file) && !Attached(w, file) && file !in w.superseded;
    forall f ensures Staged(r, f) <==> f == file || (Staged(w, f) && f.location != file.location) {}
    if file.location in w.staged { assert Staged(w, w.staged[file.location]); }
  }

  lemma SegmentFetchedKeepsFiles(w: World, id: nat, data: CdnFile)
    requires Ids(w) && FileInv(w)
    ensures FileInv(SegmentFetched(w, id, data))
  {
    var r := SegmentFetched(w, id, data);
    assert forall f :: Staged(r, f) <==> Staged(w, f);
    assert forall i: nat, f :: AttachedAt(r, i, f) <==> AttachedAt(w, i, f);
    assert forall f :: Attached(r, f) <==> Attached(w, f);
  }

  lemma StepKeepsFiles(c: Config, w: World, e: Event)
    requires Ids(w) && FileInv(w) && NewFile(w, e)
    ensures FileInv(Step(c, w, e))
  {
    hide FileInv, HandlePlaylist, Stage, SegmentFetched, WorldView, Sweep.Kept;
    match e
    case FluteFile(file, garbage) =>
      if file.location == c.path {
        HandlePlaylistKeepsFiles(c, w, file.content, Broadcast, garbage);
      } else if file.location != "index.m3u8" {
        StageKeepsFiles(w, file);
      }
    case CdnPlaylist(content, garbage) => HandlePlaylistKeepsFiles(c, w, content, CDN, garbage);
    case CdnSegment(id, data) => SegmentFetchedKeepsFiles(w, id, data);
    case FileCompleted(_) => SameFilesKeep(w, Step(c, w, e));
    case Tick(_) => SameFilesKeep(w, Step(c, w, e));
    case SweepTick => SameFilesKeep(w, Step(c, w, e));
    case OtherItem(_, _) => SameFilesKeep(w, Step(c, w, e));
    case OtherRemoved(_) => SameFilesKeep(w, Step(c, w, e));
  }

  // ------------------------------------------------------------ dates

  /** Staged files are dated, and an undated segment has no data. */
  ghost predicate DatedInv(w: World) {
    && w.clock > 0
    && (forall n | n in w.staged :: w.staged[n].receivedAt != 0)
    && (forall i | 0 <= i < |w.store| && w.store[i].receivedAt == 0 ::
          w.store[i].flute == None && w.store[i].cdn == None)
    && (forall n | n in w.cache :: Plausible(w.cache[n]))
  }

  lemma {:induction false} MergeKeepsDates(c: Config, w: World, ls: seq<MP.Listing>)
    requires Ids(w) && DatedInv(w)
    ensures DatedInv(Merge(c, w, ls))
  {
    if ls != [] { MergeKeepsDates(c, w, ls[..|ls| - 1]); }
  }

  lemma {:induction false} EvictKeepsDates(w: World, keep: nat)
    requires Ids(w) && DatedInv(w)
    ensures DatedInv(Evict(w, keep))
    decreases |w.window|
  {
    if |w.window| > keep {
      assert w.window != map[];
      EvictKeepsDates(EvictOne(w), keep);
    }
  }

  lemma HandlePlaylistKeepsDates(c: Config, w: World, content: string, source: ItemSource, garbage: int)
    requires Ids(w) && DatedInv(w)
    ensures DatedInv(HandlePlaylist(c, w, content, source, garbage))
  {
    hide Merge, Evict, WindowListing, MP.Parse, MP.Print;
    var p := MP.Parse(content, garbage);
    if p.Success? {
      var ls := Admitted(p.value.segments, source, c.truncate);
      MergeKeepsDates(c, w, ls);
      EvictKeepsDates(Merge(c, w, ls), c.keep);
    }
  }

  lemma StepKeepsDates(c: Config, w: World, e: Event)
    requires Ids(w) && DatedInv(w) && Dates(w, e)
    ensures DatedInv(Step(c, w, e))
  {
    hide HandlePlaylist, WorldView, Sweep.Kept;
    match PlaylistOf(c, e)
    case Some(p) => HandlePlaylistKeepsDates(c, w, p.0, p.1, p.2);
    case None =>
  }

  // ------------------------------------------------------------ sources

  function SourceAt(w: World, i: nat): ItemSource
    requires i < |w.store|
  {
    SourceOf(Chosen(w.store[i], w.complete))
  }

  /** Segments stay, and their source only moves up. */
  ghost predicate SourcesRise(w: World, r: World) {
    && |w.store| <= |r.store|
    && w.complete <= r.complete
    && forall i | 0 <= i < |w.store| ::
         && r.store[i].flute == w.store[i].flute
         && (w.store[i].cdn.Some? ==> r.store[i].cdn.Some?)
         && Rank(SourceAt(w, i)) <= Rank(SourceAt(r, i))
  }

  lemma {:induction false} MergeSources(c: Config, w: World, ls: seq<MP.Listing>)
    requires Ids(w)
    ensures var r := Merge(c, w, ls); w.store <= r.store && r.complete == w.complete
  {
    if ls != [] { MergeSources(c, w, ls[..|ls| - 1]); }
  }

  lemma StepRaisesSources(c: Config, w: World, e: Event)
    requires Ids(w)
    ensures SourcesRise(w, Step(c, w, e))
  {
    hide WorldView, Sweep.Kept, Merge, Evict, WindowListing, MP.Parse, MP.Print;
    match PlaylistOf(c, e)
    case Some(p) =>
      var parsed := MP.Parse(p.0, p.2);
      if parsed.Success? {
        var ls := Admitted(parsed.value.segments, p.1, c.truncate);
        MergeSources(c, w, ls);
        EvictIs(Merge(c, w, ls), c.keep);
      }
    case None =>
  }
}
