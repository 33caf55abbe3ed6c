/**
 Which object the window holds for a number: the first segment ever made for it, for as long as the number stays,
 and none ever again once it has gone.
 */
module SegmentIdentity {
  import opened TopNumbers
  import opened Segments
  import opened EdgeCache
  import opened CacheInvariants
  import opened WindowInvariants
  import opened Runs
  import MP = MediaPlaylist

  /** For each number in the window, no segment was made earlier than the one it holds. */
  ghost predicate FirstMade(w: World)
    requires Ids(w)
  {
    forall s, j | s in w.window && 0 <= j < |w.store| && w.store[j].nr == s :: w.window[s] <= j
  }

  /** A merge leaves old segments alone and makes one for each number that is new in the window. */
  ghost predicate MadeOnce(w: World, r: World)
    requires Ids(w) && Ids(r)
  {
    && |w.store| <= |r.store|
    && (forall i | 0 <= i < |w.store| :: r.store[i] == w.store[i])
    && (forall s | s in w.window :: s in r.window && r.window[s] == w.window[s])
    && (forall i | |w.store| <= i < |r.store| ::
          r.store[i].nr !in w.window && r.store[i].nr in r.window && r.window[r.store[i].nr] == i)
  }

  lemma {:induction false} MergeMakesOnce(c: Config, w: World, ls: seq<MP.Listing>)
    requires Ids(w)
    ensures MadeOnce(w, Merge(c, w, ls))
  {
    if ls != [] { MergeMakesOnce(c, w, ls[..|ls| - 1]); }
  }

  /** A number accepted earlier and lost meanwhile is lost again in the same call. */
  lemma NewInWindowIsNew(c: Config, w: World, ls: seq<MP.Listing>, s: int)
    requires WindowInv(c, w) && s in Evict(Merge(c, w, ls), c.keep).window && s !in w.window
    ensures s !in Numbers(w.accepted)
  {
    hide Merge, Evict, Largest;
    MergeEvictKeepsWindow(c, w, ls);
    NumbersConcat(w.accepted, ls);
    if s in Numbers(w.accepted) {
      LoserStays(Numbers(w.accepted), Numbers(w.accepted) + Numbers(ls), c.keep, s);
    }
  }

  lemma MergeEvictKeepsFirst(c: Config, w: World, ls: seq<MP.Listing>)
    requires WindowInv(c, w) && FirstMade(w)
    ensures FirstMade(Evict(Merge(c, w, ls), c.keep))
  {
    hide Merge, Evict, Largest, Numbers;
    var m := Merge(c, w, ls);
    var r := Evict(m, c.keep);
    MergeMakesOnce(c, w, ls);
    EvictIs(m, c.keep);
    forall s, j | s in r.window && 0 <= j < |r.store| && r.store[j].nr == s ensures r.window[s] <= j {
      if s !in w.window && j < |w.store| {
        NewInWindowIsNew(c, w, ls, s);
        OriginAccepted(c, w, j);
        assert false;
      }
    }
  }

  lemma OriginAccepted(c: Config, w: World, j: nat)
    requires Provenance(c, w) && j < |w.store|
    ensures w.store[j].nr in Numbers(w.accepted)
  {
    assert w.origins[j] in w.accepted;
  }

  lemma HandlePlaylistKeepsFirst(c: Config, w: World, content: string, source: ItemSource, garbage: int)
    requires WindowInv(c, w) && FirstMade(w)
    ensures FirstMade(HandlePlaylist(c, w, content, source, garbage))
  {
    hide MP.Parse, MP.Print, WindowListing, Merge, Evict, WindowInv, Admitted;
    var parsed := MP.Parse(content, garbage);
    if parsed.Success? { MergeEvictKeepsFirst(c, w, Admitted(parsed.value.segments, source, c.truncate)); }
  }

  lemma StepKeepsFirst(c: Config, w: World, e: Event)
    requires AllInv(c, w) && FirstMade(w)
    ensures FirstMade(Step(c, w, e))
  {
    assert Ids(w) && WindowInv(c, w);
    hide Step, HandlePlaylist, AllInv, WindowInv;
    StepIs(c, w, e);
    match PlaylistOf(c, e)
    case None =>
    case Some(p) => HandlePlaylistKeepsFirst(c, w, p.0, p.1, p.2);
  }

  lemma {:induction false} RunKeepsFirst(c: Config, w: World, es: seq<Event>)
    requires AllInv(c, w) && FirstMade(w)
    ensures FirstMade(Run(c, w, es))
  {
    assert Ids(w);
    hide AllInv, Step, FirstMade;
    if es != [] {
      RunKeepsFirst(c, w, es[..|es| - 1]);
      RunKeepsWindow(c, w, es[..|es| - 1]);
      StepKeepsFirst(c, Run(c, w, es[..|es| - 1]), es[|es| - 1]);
    }
  }

  /** In every reachable state the window holds for each number the first object ever made for it. */
  lemma WindowHoldsFirstMade(c: Config, w0: World, es: seq<Event>)
    requires Initial(w0)
    ensures var w := Run(c, w0, es);
      forall s, j | s in w.window && 0 <= j < |w.store| && w.store[j].nr == s :: w.window[s] <= j
  {
    hide AllInv, Step;
    InitialInvariants(c, w0);
    RunKeepsFirst(c, w0, es);
  }

  // ------------------------------------------------------------ over the rest of the run

  /** Objects are never forgotten, and what they are for never changes. */
  ghost predicate Remembers(w: World, r: World) {
    && |w.store| <= |r.store|
    && forall i | 0 <= i < |w.store| ::
         r.store[i].uri == w.store[i].uri && r.store[i].nr == w.store[i].nr && r.store[i].extinf == w.store[i].extinf
  }

  lemma StepRemembers(c: Config, w: World, e: Event)
    requires Ids(w)
    ensures Remembers(w, Step(c, w, e))
  {
    hide Step, MP.Parse, MP.Print, WindowListing, Merge, Evict;
    StepIs(c, w, e);
    match PlaylistOf(c, e)
    case None =>
    case Some(p) =>
      var parsed := MP.Parse(p.0, p.2);
      if parsed.Success? {
        var ls := Admitted(parsed.value.segments, p.1, c.truncate);
        MergeMakesOnce(c, w, ls);
        EvictIs(Merge(c, w, ls), c.keep);
      }
  }

  lemma {:induction false} RunRemembers(c: Config, w: World, es: seq<Event>)
    requires Ids(w)
    ensures Remembers(w, Run(c, w, es))
  {
    hide Step;
    if es != [] {
      RunRemembers(c, w, es[..|es| - 1]);
      StepRemembers(c, Run(c, w, es[..|es| - 1]), es[|es| - 1]);
    }
  }

  /** A number that has been accepted and is not in the window never comes back. */
  lemma EvictedNeverReturns(c: Config, w0: World, es: seq<Event>, more: seq<Event>)
    requires Initial(w0)
    ensures forall s | s in Numbers(AcceptedBy(c, es)) && s !in Run(c, w0, es).window ::
              s !in Run(c, w0, es + more).window
  {
    hide Step, AcceptedBy, Largest, Numbers;
    WindowIsLargestAccepted(c, w0, es);
    WindowIsLargestAccepted(c, w0, es + more);
    AcceptedMore(c, w0, es, more);
    forall s | s in Numbers(AcceptedBy(c, es)) && s !in Run(c, w0, es).window
      ensures s !in Run(c, w0, es + more).window
    {
      LoserStays(Numbers(AcceptedBy(c, es)), Numbers(AcceptedBy(c, es + more)), c.keep, s);
    }
  }

  lemma AcceptedMore(c: Config, w0: World, es: seq<Event>, more: seq<Event>)
    requires Initial(w0)
    ensures Numbers(AcceptedBy(c, es)) <= Numbers(AcceptedBy(c, es + more))
  {
    hide Run, AcceptedBy, Numbers, DeliveredBy, Initial;
    InitialIds(w0);
    AcceptedFromStart(c, w0, es);
    AcceptedFromStart(c, w0, es + more);
    RunConcat(c, w0, es, more);
    RunHistory(c, Run(c, w0, es), more);
    NumbersConcat(AcceptedBy(c, es), AcceptedBy(c, more));
  }

  /** A number that is in the window at two times has been the same object at both. */
  lemma NumberKeepsObject(c: Config, w0: World, es: seq<Event>, more: seq<Event>)
    requires Initial(w0)
    ensures var w, r := Run(c, w0, es), Run(c, w0, es + more);
      forall s | s in w.window && s in r.window :: r.window[s] == w.window[s]
  {
    hide Step, Run, Initial;
    InitialIds(w0);
    WindowHoldsFirstMade(c, w0, es);
    WindowHoldsFirstMade(c, w0, es + more);
    RunConcat(c, w0, es, more);
    RunRemembers(c, Run(c, w0, es), more);
    var w, r := Run(c, w0, es), Run(c, w0, es + more);
    forall s | s in w.window && s in r.window ensures r.window[s] == w.window[s] {
      assert r.store[w.window[s]].nr == s;
      assert w.store[r.window[s]].nr == s;
    }
  }
}
