/**
 Requests for the playlist itself. Its cache entry is made when an endpoint is set and never again,
 has age zero whenever a sweep looks at it, and can be dropped for its size.
 */
module PlaylistRequests {
  import opened Wrappers
  import opened Ordering
  import opened Routing
  import opened Segments
  import opened EdgeCache
  import opened CacheInvariants
  import opened WindowInvariants
  import opened FileInvariants
  import opened Runs
  import Cache
  import Sweep
  import MP = MediaPlaylist

  /** Others leave the playlist's name alone. */
  ghost predicate Undisturbed(c: Config, es: seq<Event>) {
    forall e | e in es ::
      && (e.OtherItem? ==> e.name != c.path)
      && (e.OtherRemoved? ==> e.name != c.path)
  }

  /** The items of age zero up to a name: what a sweep adds up before it decides on a generated playlist. */
  function NewItemsUpTo(w: World, name: string): set<string> {
    set n | n in w.cache && LexLe(n, name)
            && Sweep.Dated(WorldView(w)[n]) && Sweep.Age(WorldView(w)[n], w.clock) == 0
  }

  /** Whether a sweep now would spare the playlist. */
  ghost predicate Fits(c: Config, w: World) {
    U32(Sweep.Bytes(WorldView(w), NewItemsUpTo(w, c.path))) <= c.limits.maxSize
  }

  lemma NewItemsAreUpTo(c: Config, w: World)
    requires w.clock > 0 && c.path in w.cache && w.cache[c.path] == OwnPlaylist
    ensures c.path in WorldView(w) && Sweep.Live(WorldView(w)[c.path], w.clock, c.limits)
    ensures Sweep.UpTo(WorldView(w), w.clock, c.limits, c.path) == NewItemsUpTo(w, c.path)
  {}

  /** A sweep keeps the playlist exactly when it and the items of age zero before it fit. */
  lemma SweepKeepsPlaylistIff(c: Config, w: World)
    requires w.clock > 0 && c.path in w.cache && w.cache[c.path] == OwnPlaylist
    ensures c.path in SweepCache(c, w).cache <==> Fits(c, w)
  {
    NewItemsAreUpTo(c, w);
    hide Sweep.Kept, Sweep.UpTo, Sweep.Bytes, NewItemsUpTo, WorldView, Sweep.Live;
    Sweep.LiveKeptIff(WorldView(w), w.clock, c.limits, c.path);
  }

  // ------------------------------------------------------------ steps that do not sweep

  ghost predicate SameAt(w: World, r: World, n: string) {
    (n in r.cache <==> n in w.cache) && (n in w.cache ==> r.cache[n] == w.cache[n])
  }

  lemma {:induction false} MergeSpares(c: Config, w: World, ls: seq<MP.Listing>)
    requires Ids(w) && Apart(c, ls)
    ensures SameAt(w, Merge(c, w, ls), c.path)
  {
    if ls != [] {
      var l := ls[|ls| - 1];
      assert l in ls && forall x | x in ls[..|ls| - 1] :: x in ls;
      MergeSpares(c, w, ls[..|ls| - 1]);
    }
  }

  lemma EvictOneSpares(c: Config, w: World)
    requires Provenance(c, w) && Apart(c, w.accepted) && w.window != map[]
    ensures var r := EvictOne(w); SameAt(w, r, c.path) && Provenance(c, r) && r.accepted == w.accepted
  {
    NotPlaylist(c, w, w.window[MinInt(w.window.Keys)]);
    hide MinInt, Apart;
  }

  lemma NotPlaylist(c: Config, w: World, id: nat)
    requires Provenance(c, w) && Apart(c, w.accepted) && id < |w.store|
    ensures w.store[id].uri != c.path
  {
    assert w.origins[id] in w.accepted;
  }

  lemma {:induction false} EvictSpares(c: Config, w: World, keep: nat)
    requires Provenance(c, w) && Apart(c, w.accepted)
    ensures SameAt(w, Evict(w, keep), c.path)
    decreases |w.window|
  {
    assert Ids(w);
    hide EvictOne, Apart, Provenance;
    if |w.window| > keep {
      assert w.window != map[];
      EvictOneSpares(c, w);
      EvictSpares(c, EvictOne(w), keep);
    }
  }

  lemma HandlePlaylistSpares(c: Config, w: World, content: string, source: ItemSource, garbage: int)
    requires AllInv(c, w) && Apart(c, HandlePlaylist(c, w, content, source, garbage).accepted)
    ensures Ids(w) && SameAt(w, HandlePlaylist(c, w, content, source, garbage), c.path)
  {
    hide MP.Parse, MP.Print, WindowListing, Merge, Evict, Numbers, First, Admitted, TextInv;
    var p := MP.Parse(content, garbage);
    if p.Success? {
      var ls := Admitted(p.value.segments, source, c.truncate);
      AcceptedGrows(c, w, ls);
      assert Apart(c, ls) by { assert forall l | l in ls :: l in w.accepted + ls; }
      MergeIs(c, w, ls);
      MergeSpares(c, w, ls);
      EvictSpares(c, Merge(c, w, ls), c.keep);
    }
  }

  lemma StepSpares(c: Config, w: World, e: Event)
    requires AllInv(c, w) && Ids(w) && Apart(c, Step(c, w, e).accepted) && Undisturbed(c, [e])
    ensures !e.SweepTick? ==> SameAt(w, Step(c, w, e), c.path)
    ensures c.path !in w.cache ==> c.path !in Step(c, w, e).cache
  {
    hide AllInv, HandlePlaylist, WorldView, Sweep.Kept, Apart;
    assert e in [e];
    match PlaylistOf(c, e)
    case None =>
    case Some(p) => HandlePlaylistSpares(c, w, p.0, p.1, p.2);
  }

  lemma ApartPrefix(c: Config, a: seq<MP.Listing>, b: seq<MP.Listing>)
    requires a <= b && Apart(c, b)
    ensures Apart(c, a)
  {
    assert forall l | l in a :: l in b;
  }

  /** One event after others. */
  lemma LastStep(c: Config, w0: World, es: seq<Event>, e: Event)
    requires Initial(w0) && Apart(c, AcceptedBy(c, es + [e])) && Undisturbed(c, es + [e])
    ensures Apart(c, AcceptedBy(c, es)) && Undisturbed(c, es)
    ensures var w, r := Run(c, w0, es), Run(c, w0, es + [e]);
      && r == Step(c, w, e)
      && (!e.SweepTick? ==> SameAt(w, r, c.path))
      && (c.path !in w.cache ==> c.path !in r.cache)
  {
    hide AllInv, Step, ListingsOf, Apart, Initial;
    InitialIds(w0);
    assert (es + [e])[..|es|] == es;
    assert forall x | x in es :: x in es + [e];
    assert e in es + [e];
    ApartPrefix(c, AcceptedBy(c, es), AcceptedBy(c, es + [e]));
    InitialInvariants(c, w0);
    RunKeepsWindow(c, w0, es);
    AcceptedFromStart(c, w0, es + [e]);
    StepSpares(c, Run(c, w0, es), e);
  }

  // ------------------------------------------------------------ runs

  /** Every sweep of the run would spare the playlist. */
  ghost predicate AlwaysFits(c: Config, w0: World, es: seq<Event>)
    requires Ids(w0)
  {
    forall k | 0 <= k < |es| && es[k].SweepTick? :: Fits(c, Run(c, w0, es[..k]))
  }

  lemma AlwaysFitsSnoc(c: Config, w0: World, es: seq<Event>, e: Event)
    requires Ids(w0)
    ensures AlwaysFits(c, w0, es + [e]) <==> AlwaysFits(c, w0, es) && (e.SweepTick? ==> Fits(c, Run(c, w0, es)))
  {
    hide Run, Fits;
    var all := es + [e];
    assert all[..|es|] == es && all[|es|] == e;
    assert forall k | 0 <= k < |es| :: all[..k] == es[..k] && all[k] == es[k];
  }

  lemma {:induction false} PlaylistStays(c: Config, w0: World, es: seq<Event>)
    requires Initial(w0) && DatedInv(w0) && Throughout(c, w0, es, Dates)
    requires Apart(c, AcceptedBy(c, es)) && Undisturbed(c, es)
    requires c.path in w0.cache && w0.cache[c.path] == OwnPlaylist
    ensures var w := Run(c, w0, es);
      && (c.path in w.cache <==> AlwaysFits(c, w0, es))
      && (c.path in w.cache ==> w.cache[c.path] == OwnPlaylist)
  {
    hide Step, AlwaysFits, Fits, Apart, Undisturbed, Initial, Dates, DatedInv, AcceptedBy;
    InitialIds(w0);
    if es == [] {
      assert AlwaysFits(c, w0, []) by { NoSweep(c, w0); }
    } else {
      var rest, e := es[..|es| - 1], es[|es| - 1];
      assert es == rest + [e];
      LastStep(c, w0, rest, e);
      PlaylistStays(c, w0, rest);
      AlwaysFitsSnoc(c, w0, rest, e);
      var w := Run(c, w0, rest);
      if e.SweepTick? && c.path in w.cache {
        InitialInvariants(c, w0);
        RunKeepsDates(c, w0, rest);
        ClockRuns(w);
        SweepStep(c, w);
        SweepKeepsPlaylistIff(c, w);
      }
    }
  }

  lemma NoSweep(c: Config, w0: World)
    requires Ids(w0)
    ensures AlwaysFits(c, w0, [])
  {}

  lemma ClockRuns(w: World)
    requires DatedInv(w)
    ensures w.clock > 0
  {}

  lemma SweepStep(c: Config, w: World)
    requires Ids(w)
    ensures Step(c, w, SweepTick) == SweepCache(c, w)
    ensures forall n | n in SweepCache(c, w).cache :: n in w.cache && SweepCache(c, w).cache[n] == w.cache[n]
  {
    hide WorldView, Sweep.Kept;
  }

  lemma SlashPath(w: World, path: string)
    ensures Lookup(w, "/" + path) == if path in w.cache then Some(w.cache[path]) else None
  {
    assert ("/" + path)[1..] == path;
  }

  /**
   A request for a registered playlist is served from it exactly as long as the playlist and the items of age zero
   before it have fitted the limit at every sweep of the run.
   */
  lemma PlaylistServedIff(c: Config, w0: World, es: seq<Event>, api: string)
    requires Initial(w0) && DatedInv(w0) && Throughout(c, w0, es, Dates)
    requires Apart(c, AcceptedBy(c, es)) && Undisturbed(c, es)
    requires c.path in w0.cache && w0.cache[c.path] == OwnPlaylist
    ensures var w := Run(c, w0, es);
      var served := forall k | 0 <= k < |es| && es[k].SweepTick? :: Fits(c, Run(c, w0, es[..k]));
      && Lookup(w, "/" + c.path) == (if served then Some(OwnPlaylist) else None)
      && Get(w, api, "/" + c.path) ==
           match RouteOf(api, "/" + c.path)
           case Nowhere => NotFound
           case Api => ApiReply
           case Cached => if served then Content(Generated, Body(w.playlist)) else NotFound
  {
    hide Step, Run, Fits, Apart, Undisturbed, Initial, Throughout, AcceptedBy, Lookup, RouteOf;
    InitialIds(w0);
    PlaylistStays(c, w0, es);
    SlashPath(Run(c, w0, es), c.path);
  }

  /** A playlist that is not in the cache, whether dropped or never registered, never gets there. */
  lemma {:induction false} PlaylistNeverReturns(
    c: Config, w0: World, es: seq<Event>, more: seq<Event>, api: string)
    requires Initial(w0) && Apart(c, AcceptedBy(c, es + more)) && Undisturbed(c, es + more)
    requires Ids(w0) && c.path !in Run(c, w0, es).cache
    ensures c.path !in Run(c, w0, es + more).cache
    ensures RouteOf(api, "/" + c.path) != Api ==> Get(Run(c, w0, es + more), api, "/" + c.path) == NotFound
  {
    hide Step, Run, Apart, Undisturbed, Initial, AcceptedBy, Lookup, RouteOf;
    if more == [] {
      assert es + more == es;
    } else {
      var rest, e := more[..|more| - 1], more[|more| - 1];
      assert es + more == (es + rest) + [e];
      LastStep(c, w0, es + rest, e);
      PlaylistNeverReturns(c, w0, es, rest, api);
    }
    SlashPath(Run(c, w0, es + more), c.path);
  }

  lemma TextNotEmpty(c: Config, w: World)
    requires AllInv(c, w)
    ensures |w.playlist| > 0
  {
    hide WindowListing, WindowInv, MP.SegmentLines;
    assert |"none"| == 4;
  }

  /** With the limit that 4096 megabytes scale to, the first sweep drops the playlist. */
  lemma ZeroLimitDropsPlaylist(c: Config, w0: World, es: seq<Event>)
    requires Initial(w0) && DatedInv(w0) && Throughout(c, w0, es, Dates)
    requires Apart(c, AcceptedBy(c, es)) && Undisturbed(c, es)
    requires c.path in w0.cache && w0.cache[c.path] == OwnPlaylist
    requires c.limits.maxSize == Cache.ScaledSize(4096)
    requires var w := Run(c, w0, es);
      && |w.playlist| < TWO_32
      && Sweep.Bytes(WorldView(w), NewItemsUpTo(w, c.path)) < TWO_32
    ensures c.path !in Run(c, w0, es + [SweepTick]).cache
  {
    hide Step, Fits, Apart, Undisturbed, Initial, Dates, DatedInv, AcceptedBy, AllInv, Sweep.Bytes, WorldView;
    InitialIds(w0);
    InitialInvariants(c, w0);
    RunKeepsWindow(c, w0, es);
    RunKeepsDates(c, w0, es);
    var w := Run(c, w0, es);
    ClockRuns(w);
    TextNotEmpty(c, w);
    assert (es + [SweepTick])[..|es|] == es;
    SweepStep(c, w);
    PlaylistStays(c, w0, es);
    if c.path in w.cache {
      SweepKeepsPlaylistIff(c, w);
      ZeroDoesNotFit(c, w);
    }
  }

  lemma ZeroDoesNotFit(c: Config, w: World)
    requires w.clock > 0 && c.path in w.cache && w.cache[c.path] == OwnPlaylist
    requires c.limits.maxSize == 0 && 0 < |w.playlist| < TWO_32
    requires Sweep.Bytes(WorldView(w), NewItemsUpTo(w, c.path)) < TWO_32
    ensures !Fits(c, w)
  {
    hide Sweep.Bytes;
    var v, names := WorldView(w), NewItemsUpTo(w, c.path);
    LexTotal2(c.path, c.path);
    assert c.path in names;
    Sweep.BytesOf(v, names, c.path);
  }
}
