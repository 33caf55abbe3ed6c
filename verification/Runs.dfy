/**
 The promises of the edge cache over whole runs: any number of playlists from either source,
 broadcast files, CDN answers, sweeps and foreign cache items, in any order.
 */
module Runs {
  import opened Wrappers
  import opened Text
  import opened Decimal
  import opened Ordering
  import opened Routing
  import opened TopNumbers
  import opened Segments
  import opened EdgeCache
  import opened CacheInvariants
  import opened WindowInvariants
  import opened FileInvariants
  import Sweep
  import MP = MediaPlaylist

  // ------------------------------------------------------------ the invariants hold in every reachable state

  lemma InitialInvariants(c: Config, w: World)
    requires Initial(w)
    ensures AllInv(c, w) && FileInv(w) && CacheInv(c, w)
  {
    assert Numbers(w.accepted) == {};
    assert forall f :: !Staged(w, f) && !Attached(w, f);
  }

  /** A stream stays in such a state when endpoints name its playlist, which is then cached under every path. */
  lemma {:induction false} EndpointStartsRun(w: World, paths: seq<string>)
    requires Initial(w)
    ensures Initial(Registered(w, paths))
    ensures Registered(w, paths).cache.Keys == w.cache.Keys + set p | p in paths
    ensures forall n | n in Registered(w, paths).cache ::
              Registered(w, paths).cache[n] == if n in paths then OwnPlaylist else w.cache[n]
  {
    if paths != [] {
      var rest, last := paths[..|paths| - 1], paths[|paths| - 1];
      assert paths == rest + [last];
      EndpointStartsRun(w, rest);
    }
  }

  lemma {:induction false} RunKeepsWindow(c: Config, w: World, es: seq<Event>)
    requires AllInv(c, w)
    ensures AllInv(c, Run(c, w, es))
  {
    assert Ids(w);
    hide AllInv, Step;
    if es != [] {
      RunKeepsWindow(c, w, es[..|es| - 1]);
      StepKeepsWindow(c, Run(c, w, es[..|es| - 1]), es[|es| - 1]);
    }
  }

  lemma {:induction false} RunKeepsFiles(c: Config, w: World, es: seq<Event>)
    requires Ids(w) && FileInv(w) && Throughout(c, w, es, NewFile)
    ensures FileInv(Run(c, w, es))
  {
    hide FileInv, Step, NewFile;
    if es != [] {
      RunKeepsFiles(c, w, es[..|es| - 1]);
      StepKeepsFiles(c, Run(c, w, es[..|es| - 1]), es[|es| - 1]);
    }
  }

  lemma {:induction false} RunKeepsDates(c: Config, w: World, es: seq<Event>)
    requires Ids(w) && DatedInv(w) && Throughout(c, w, es, Dates)
    ensures DatedInv(Run(c, w, es))
  {
    hide DatedInv, Step, Dates;
    if es != [] {
      RunKeepsDates(c, w, es[..|es| - 1]);
      StepKeepsDates(c, Run(c, w, es[..|es| - 1]), es[|es| - 1]);
    }
  }

  /** The listings an event brings: a function of the event alone. */
  function ListingsOf(c: Config, e: Event): seq<MP.Listing> {
    match PlaylistOf(c, e)
    case None => []
    case Some(p) =>
      match MP.Parse(p.0, p.2)
      case Failure(_) => []
      case Success(parsed) => Admitted(parsed.segments, p.1, c.truncate)
  }

  /** Every listing accepted in a run, in order. */
  function AcceptedBy(c: Config, es: seq<Event>): seq<MP.Listing> {
    if es == [] then [] else AcceptedBy(c, es[..|es| - 1]) + ListingsOf(c, es[|es| - 1])
  }

  /** The segment file an event delivers. */
  function FilesOf(c: Config, e: Event): set<FluteFile> {
    if e.FluteFile? && e.file.location != c.path && e.file.location != "index.m3u8" then {e.file} else {}
  }

  function DeliveredBy(c: Config, es: seq<Event>): set<FluteFile> {
    if es == [] then {} else DeliveredBy(c, es[..|es| - 1]) + FilesOf(c, es[|es| - 1])
  }

  lemma {:induction false} MergeHistory(c: Config, w: World, ls: seq<MP.Listing>)
    requires Ids(w)
    ensures Merge(c, w, ls).swept == w.swept && Merge(c, w, ls).delivered == w.delivered
  {
    if ls != [] { MergeHistory(c, w, ls[..|ls| - 1]); }
  }

  lemma HandlePlaylistHistory(c: Config, w: World, e: Event)
    requires Ids(w) && PlaylistOf(c, e).Some?
    ensures var p := PlaylistOf(c, e).value;
      var r := HandlePlaylist(c, w, p.0, p.1, p.2);
      && r.accepted == w.accepted + ListingsOf(c, e)
      && r.swept == w.swept && r.delivered == w.delivered
  {
    hide Merge, Evict, MP.Parse, MP.Print, WindowListing;
    var p := PlaylistOf(c, e).value;
    if MP.Parse(p.0, p.2).Success? {
      var ls := ListingsOf(c, e);
      AcceptedGrows(c, w, ls);
      MergeHistory(c, w, ls);
      EvictIs(Merge(c, w, ls), c.keep);
    } else {
      assert w.accepted + [] == w.accepted;
    }
  }

  lemma StepHistory(c: Config, w: World, e: Event)
    requires Ids(w)
    ensures var r := Step(c, w, e);
      && r.accepted == w.accepted + ListingsOf(c, e)
      && r.delivered == w.delivered + FilesOf(c, e)
      && (!e.SweepTick? ==> r.swept == w.swept)
  {
    hide HandlePlaylist, WorldView, Sweep.Kept, MP.Parse;
    match PlaylistOf(c, e)
    case Some(p) => HandlePlaylistHistory(c, w, e);
    case None => assert w.accepted + [] == w.accepted;
  }

  /** The history fields are what the events say. */
  lemma {:induction false} RunHistory(c: Config, w: World, es: seq<Event>)
    requires Ids(w)
    ensures Run(c, w, es).accepted == w.accepted + AcceptedBy(c, es)
    ensures Run(c, w, es).delivered == w.delivered + DeliveredBy(c, es)
  {
    hide Step, ListingsOf, FilesOf;
    if es == [] {
      assert w.accepted + [] == w.accepted;
    } else {
      RunHistory(c, w, es[..|es| - 1]);
      StepHistory(c, Run(c, w, es[..|es| - 1]), es[|es| - 1]);
    }
  }

  lemma AcceptedFromStart(c: Config, w0: World, es: seq<Event>)
    requires Initial(w0)
    ensures Run(c, w0, es).accepted == AcceptedBy(c, es) && Run(c, w0, es).delivered == DeliveredBy(c, es)
  {
    hide Run, AcceptedBy;
    RunHistory(c, w0, es);
    assert [] + AcceptedBy(c, es) == AcceptedBy(c, es);
  }

  lemma DistinctPrefix(a: seq<MP.Listing>, b: seq<MP.Listing>)
    requires a <= b && Distinct(b)
    ensures Distinct(a)
  {
    assert forall l | l in a :: l in b;
  }

  lemma {:induction false} RunKeepsCache(c: Config, w: World, es: seq<Event>)
    requires CacheInv(c, w) && Throughout(c, w, es, Spares) && Distinct(Run(c, w, es).accepted)
    ensures CacheInv(c, Run(c, w, es))
  {
    assert Ids(w);
    hide CacheInv, Step, Spares, Distinct, ListingsOf, FilesOf;
    if es != [] {
      var m := Run(c, w, es[..|es| - 1]);
      StepHistory(c, m, es[|es| - 1]);
      DistinctPrefix(m.accepted, Run(c, w, es).accepted);
      RunKeepsCache(c, w, es[..|es| - 1]);
      StepKeepsCache(c, m, es[|es| - 1]);
    }
  }

  lemma {:induction false} RunConcat(c: Config, w: World, a: seq<Event>, b: seq<Event>)
    requires Ids(w)
    ensures Run(c, w, a + b) == Run(c, Run(c, w, a), b)
  {
    hide Step;
    if b == [] {
      assert a + b == a;
    } else {
      RunConcat(c, w, a, b[..|b| - 1]);
      assert (a + b)[..|a + b| - 1] == a + b[..|b| - 1];
    }
  }

  // ------------------------------------------------------------ the window

  /** The window is the `keep` largest numbers ever accepted, each with URI and duration of its first listing. */
  lemma WindowIsLargestAccepted(c: Config, w0: World, es: seq<Event>)
    requires Initial(w0)
    ensures var w := Run(c, w0, es);
      && w.window.Keys == Largest(Numbers(AcceptedBy(c, es)), c.keep)
      && forall s | s in w.window ::
           var first := First(AcceptedBy(c, es), s);
           var segment := w.store[w.window[s]];
           segment.nr == s && segment.uri == c.dir + first.uri && segment.extinf == first.extinf
  {
    hide Step, ListingsOf, TextInv, AcceptedBy;
    InitialInvariants(c, w0);
    RunKeepsWindow(c, w0, es);
    AcceptedFromStart(c, w0, es);
  }

  /** In one call everything removed has a smaller number than everything kept. */
  lemma RemovedAreOldest(c: Config, w: World, ls: seq<MP.Listing>)
    requires WindowInv(c, w)
    ensures var r := Evict(Merge(c, w, ls), c.keep);
      forall x, y | x in w.window.Keys + Numbers(ls) && x !in r.window && y in r.window :: x < y
  {
    hide Merge, Evict;
    MergeEvictKeepsWindow(c, w, ls);
    var r := Evict(Merge(c, w, ls), c.keep);
    forall x, y | x in w.window.Keys + Numbers(ls) && x !in r.window && y in r.window ensures x < y {
      RemovedBelowKept(w.window.Keys + Numbers(ls), c.keep, x, y);
    }
  }

  // ------------------------------------------------------------ cache and window

  lemma {:induction false} NothingSwept(c: Config, w: World, es: seq<Event>)
    requires Ids(w) && w.swept == {} && forall e | e in es :: !e.SweepTick?
    ensures Run(c, w, es).swept == {}
  {
    hide Step, ListingsOf, FilesOf;
    if es != [] {
      NothingSwept(c, w, es[..|es| - 1]);
      assert es[|es| - 1] in es;
      StepHistory(c, Run(c, w, es[..|es| - 1]), es[|es| - 1]);
    }
  }

  function CachedSegmentNames(w: World): set<string> { set n | n in w.cache && w.cache[n].SegmentItem? }

  function WindowUris(w: World): set<string>
    requires Ids(w)
  {
    set s | s in w.window :: w.store[w.window[s]].uri
  }

  /** Cached segments are window segments under their own URIs; without sweeps the two sets are equal. */
  lemma CacheAgreesWithWindow(c: Config, w0: World, es: seq<Event>)
    requires Initial(w0) && Throughout(c, w0, es, Spares) && Distinct(AcceptedBy(c, es))
    ensures var w := Run(c, w0, es);
      && (forall n | n in CachedSegmentNames(w) ::
            exists s :: s in w.window && w.cache[n] == SegmentItem(w.window[s]) && w.store[w.window[s]].uri == n)
      && CachedSegmentNames(w) <= WindowUris(w)
      && ((forall e | e in es :: !e.SweepTick?) ==> CachedSegmentNames(w) == WindowUris(w))
  {
    hide Step, Distinct, AcceptedBy;
    InitialInvariants(c, w0);
    AcceptedFromStart(c, w0, es);
    RunKeepsCache(c, w0, es);
    var w := Run(c, w0, es);
    forall n | n in CachedSegmentNames(w)
      ensures n in WindowUris(w)
      ensures exists s :: s in w.window && w.cache[n] == SegmentItem(w.window[s]) && w.store[w.window[s]].uri == n
    {
      var s := w.store[w.cache[n].id].nr;
      assert s in w.window && w.cache[n] == SegmentItem(w.window[s]) && w.store[w.window[s]].uri == n;
    }
    if forall e | e in es :: !e.SweepTick? {
      NothingSwept(c, w0, es);
      forall n | n in WindowUris(w) ensures n in CachedSegmentNames(w) {
        var s :| s in w.window && w.store[w.window[s]].uri == n;
        assert PresentAt(w, w.window[s]);
      }
    }
  }

  // ------------------------------------------------------------ published text and requests

  /** The i-th entry of the listing is the segment with the i-th number. */
  lemma ListingAt(w: World, i: nat)
    requires Ids(w) && i < |w.window|
    ensures var ks := SortedInts(w.window.Keys);
      && |ks| == |WindowListing(w)| == |w.window|
      && ks[i] in w.window
      && var segment := w.store[w.window[ks[i]]];
         WindowListing(w)[i] == MP.Listing(segment.uri, ks[i], segment.extinf)
  {
    var ks := SortedInts(w.window.Keys);
    assert |ks| == |w.window.Keys| == |w.window|;
    assert ks[i] in ks;
  }

  lemma SegmentPrintable(c: Config, w: World, id: nat)
    requires Provenance(c, w) && '\n' !in c.dir && id < |w.store|
    requires forall l | l in w.accepted :: MP.UriLine(l.uri)
    ensures MP.Printable(w.store[id].uri)
  {
    var uri, tail := w.store[id].uri, w.origins[id].uri;
    assert MP.UriLine(tail);
    assert uri[|uri| - 1] == tail[|tail| - 1];
  }

  lemma ListingPrintable(c: Config, w: World)
    requires AllInv(c, w) && '\n' !in c.dir
    ensures forall l | l in WindowListing(w) :: MP.Printable(l.uri)
  {
    hide MP.Print, MP.Printable, MP.UriLine, SortedInts;
    assert |WindowListing(w)| == |w.window.Keys| == |w.window|;
    forall i | 0 <= i < |w.window| ensures MP.Printable(WindowListing(w)[i].uri) {
      ListingAt(w, i);
      SegmentPrintable(c, w, w.window[SortedInts(w.window.Keys)[i]]);
    }
  }

  /** The published text reads back as the window in ascending order, one slash before each URI. */
  lemma WindowReadsBack(c: Config, w: World, garbage: int)
    requires AllInv(c, w) && '\n' !in c.dir && w.window != map[]
    ensures WindowListing(w) != [] && |WindowListing(w)| == |w.window|
    ensures WindowListing(w)[0].nr == MinInt(w.window.Keys)
    ensures var p := MP.Parse(w.playlist, garbage);
      p.Success? && p.value.segments == MP.Reread(WindowListing(w), WindowListing(w)[0].nr)
  {
    var ls := WindowListing(w);
    var ks := SortedInts(w.window.Keys);
    assert |ks| == |w.window.Keys| == |w.window|;
    assert w.window.Keys != {} by { assert exists s :: s in w.window; }
    assert ks[0] in ks && MinInt(w.window.Keys) in ks;
    ListingPrintable(c, w);
    MP.RoundTrip(w.target.value, ls, garbage);
  }

  /** In every reachable state with a window; it has one as soon as something has been accepted. */
  lemma PublishedReadsBack(c: Config, w0: World, es: seq<Event>, garbage: int)
    requires Initial(w0) && '\n' !in c.dir && 0 < c.keep && AcceptedBy(c, es) != []
    ensures var ls := WindowListing(Run(c, w0, es));
      var p := MP.Parse(Run(c, w0, es).playlist, garbage);
      && ls != [] && |ls| == |Run(c, w0, es).window|
      && p.Success? && p.value.segments == MP.Reread(ls, ls[0].nr)
  {
    hide MP.Parse, MP.Print, MP.Reread, Step, AcceptedBy, AllInv, WindowListing;
    InitialInvariants(c, w0);
    RunKeepsWindow(c, w0, es);
    SomethingAccepted(c, w0, es);
    WindowReadsBack(c, Run(c, w0, es), garbage);
  }

  lemma SomethingAccepted(c: Config, w0: World, es: seq<Event>)
    requires Initial(w0) && 0 < c.keep && AcceptedBy(c, es) != []
    ensures Run(c, w0, es).window != map[]
  {
    hide Step, AcceptedBy, Largest;
    WindowIsLargestAccepted(c, w0, es);
    var s := Numbers(AcceptedBy(c, es));
    LargestSize(s, c.keep);
    assert AcceptedBy(c, es)[0].nr in s;
    Subset({AcceptedBy(c, es)[0].nr}, s);
  }

  /**
   End to end: the i-th URI of the published text, requested as it stands, reaches the i-th window
   segment in ascending order and no other, unless a sweep has removed exactly that segment.
   */
  lemma PublishedUrisResolve(c: Config, w0: World, es: seq<Event>, garbage: int)
    requires Initial(w0) && Throughout(c, w0, es, Spares) && Distinct(AcceptedBy(c, es)) && '\n' !in c.dir
    ensures var w := Run(c, w0, es);
      w.window != map[] ==>
        var p := MP.Parse(w.playlist, garbage);
        var ks := SortedInts(w.window.Keys);
        && p.Success? && |p.value.segments| == |w.window| == |ks|
        && forall i | 0 <= i < |ks| :: Resolves(w, p.value.segments[i].uri, ks[i])
  {
    hide MP.Parse, MP.Print, Run, Distinct, Throughout, Initial, AcceptedBy, Resolves, SortedInts, AllInv, CacheInv;
    InitialInvariants(c, w0);
    InitialIds(w0);
    AcceptedFromStart(c, w0, es);
    RunKeepsWindow(c, w0, es);
    RunKeepsCache(c, w0, es);
    var w := Run(c, w0, es);
    if w.window != map[] {
      forall i | 0 <= i < |w.window|
        ensures var p := MP.Parse(w.playlist, garbage);
          var ks := SortedInts(w.window.Keys);
          p.Success? && |p.value.segments| == |w.window| == |ks| && Resolves(w, p.value.segments[i].uri, ks[i])
      {
        ResolveAt(c, w, garbage, i);
      }
      SomeKey(w);
    }
  }

  lemma SomeKey(w: World)
    requires w.window != map[]
    ensures |w.window| > 0
  {
    assert |w.window| == |w.window.Keys|;
    assert w.window.Keys == {} ==> w.window == map[];
  }

  /**
   A request for `target` reaches the segment with the given number, and finds nothing if a sweep has removed it.
   The handler gets that far unless it takes the target for the API's or for no path at all.
   */
  ghost predicate Resolves(w: World, target: string, nr: int)
    requires Ids(w)
  {
    nr in w.window &&
    var id := w.window[nr];
    && Lookup(w, target) == (if id in w.swept then None else Some(SegmentItem(id)))
    && forall api | RouteOf(api, target) == Cached ::
         Get(w, api, target) == (if id in w.swept then NotFound else SegmentReply(w.store[id], w.complete))
  }

  lemma ResolveAt(c: Config, w: World, garbage: int, i: nat)
    requires AllInv(c, w) && CacheInv(c, w) && '\n' !in c.dir && i < |w.window|
    ensures var p := MP.Parse(w.playlist, garbage);
      var ks := SortedInts(w.window.Keys);
      && p.Success? && |p.value.segments| == |w.window| == |ks|
      && Resolves(w, p.value.segments[i].uri, ks[i])
  {
    hide MP.Parse, MP.Print, WindowListing, AllInv, SortedInts;
    InvariantIds(c, w);
    assert w.window != map[];
    WindowReadsBack(c, w, garbage);
    ListingAt(w, i);
    var ks := SortedInts(w.window.Keys);
    var id := w.window[ks[i]];
    assert PresentAt(w, id);
    var target := MP.Parse(w.playlist, garbage).value.segments[i].uri;
    assert target == "/" + w.store[id].uri;
    assert target[1..] == w.store[id].uri;
  }

  // ------------------------------------------------------------ sequence numbers

  /** The window is full exactly when the run has brought at least `keep` different numbers. */
  lemma FullIffEnoughAccepted(c: Config, w0: World, es: seq<Event>)
    requires Initial(w0)
    ensures var n := |Numbers(AcceptedBy(c, es))|;
      && |Run(c, w0, es).window| == (if n <= c.keep then n else c.keep)
      && (|Run(c, w0, es).window| == c.keep <==> n >= c.keep)
  {
    hide Step, AcceptedBy, Largest;
    WindowIsLargestAccepted(c, w0, es);
    var w := Run(c, w0, es);
    assert |w.window| == |w.window.Keys|;
    LargestSize(Numbers(AcceptedBy(c, es)), c.keep);
  }

  /** Once the window is full, the published MEDIA-SEQUENCE never decreases (RFC 8216, section 6.2.2). */
  lemma MediaSequenceNeverDecreases(c: Config, w0: World, es: seq<Event>, more: seq<Event>, garbage: int)
    requires Initial(w0) && '\n' !in c.dir
    requires 0 < c.keep <= |Numbers(AcceptedBy(c, es))|
    ensures var p := MP.Parse(Run(c, w0, es).playlist, garbage);
      var q := MP.Parse(Run(c, w0, es + more).playlist, garbage);
      && p.Success? && q.Success? && |p.value.segments| == |q.value.segments| == c.keep
      && p.value.segments[0].nr <= q.value.segments[0].nr
  {
    hide MP.Parse, MP.Print, Step, AcceptedBy, DeliveredBy, AllInv, WindowListing, Numbers;
    var w, r := Run(c, w0, es), Run(c, w0, es + more);
    FullIffEnoughAccepted(c, w0, es);
    InitialInvariants(c, w0);
    RunKeepsWindow(c, w0, es);
    RunKeepsWindow(c, w0, es + more);
    RunConcat(c, w0, es, more);
    RunHistory(c, w, more);
    FullWindowMovesUp(c, w, r, AcceptedBy(c, more));
    WindowReadsBack(c, w, garbage);
    WindowReadsBack(c, r, garbage);
  }

  lemma FullWindowMovesUp(c: Config, w: World, r: World, ls: seq<MP.Listing>)
    requires AllInv(c, w) && AllInv(c, r) && r.accepted == w.accepted + ls
    requires 0 < |w.window| == c.keep
    ensures |r.window| == c.keep && w.window != map[] && r.window != map[]
    ensures MinInt(w.window.Keys) <= MinInt(r.window.Keys)
  {
    hide TextInv, Largest;
    var s, t := Numbers(w.accepted), Numbers(r.accepted);
    assert s <= t by { assert forall l | l in w.accepted :: l in r.accepted; }
    assert |w.window| == |w.window.Keys| && |r.window| == |r.window.Keys|;
    LargestSize(s, c.keep);
    Subset(s, t);
    FullMinGrows(s, t, c.keep);
    LargestSize(t, c.keep);
  }

  const FIVE := Unlines(["#EXTM3U", "#EXT-X-MEDIA-SEQUENCE:5", "five.ts"])
  const THREE := Unlines(["#EXTM3U", "#EXT-X-MEDIA-SEQUENCE:3", "three.ts"])

  lemma TextsRead(garbage: int)
    ensures MP.Parse(FIVE, garbage).Success? && MP.Parse(THREE, garbage).Success?
    ensures MP.Parse(FIVE, garbage).value.segments == [MP.Listing("five.ts", 5, -ONE)]
    ensures MP.Parse(THREE, garbage).value.segments == [MP.Listing("three.ts", 3, -ONE)]
  {
    hide MP.Parse, Unlines;
    DigitTexts();
    assert MP.MEDIA_SEQUENCE + ":" + "5" == "#EXT-X-MEDIA-SEQUENCE:5";
    assert MP.MEDIA_SEQUENCE + ":" + "3" == "#EXT-X-MEDIA-SEQUENCE:3";
    MP.OneSegmentReads(5, "five.ts", garbage);
    MP.OneSegmentReads(3, "three.ts", garbage);
  }

  lemma DigitTexts()
    ensures IntText(5) == "5" && IntText(3) == "3"
  {}

  lemma PublishedSequence(c: Config, w: World)
    requires AllInv(c, w) && '\n' !in c.dir && w.window != map[]
    ensures var lines := Lines(w.playlist);
      |lines| > 3 && lines[3] == MP.MEDIA_SEQUENCE + ":" + IntText(MinInt(w.window.Keys))
  {
    hide MP.Print, MP.Parse, WindowInv, WindowListing;
    InvariantIds(c, w);
    WindowReadsBack(c, w, 0);
    ListingPrintable(c, w);
    MP.PrintedSequence(w.target.value, WindowListing(w));
  }

  /** Two playlist texts that make the published MEDIA-SEQUENCE go down, from 5 to 3, in any window of two or more. */
  lemma MediaSequenceCanDecrease(c: Config, w0: World, garbage: int)
    requires Initial(w0) && '\n' !in c.dir && c.keep >= 2
    ensures var w := Run(c, w0, [CdnPlaylist(FIVE, garbage)]);
      var r := Run(c, w0, [CdnPlaylist(FIVE, garbage), CdnPlaylist(THREE, garbage)]);
      && |Lines(w.playlist)| > 3 && Lines(w.playlist)[3] == "#EXT-X-MEDIA-SEQUENCE:5"
      && |Lines(r.playlist)| > 3 && Lines(r.playlist)[3] == "#EXT-X-MEDIA-SEQUENCE:3"
  {
    hide Run, AllInv, Initial, AcceptedBy, Lines, Numbers, Largest, MP.Parse;
    var es := [CdnPlaylist(FIVE, garbage)];
    var more := [CdnPlaylist(FIVE, garbage), CdnPlaylist(THREE, garbage)];
    InitialInvariants(c, w0);
    RunKeepsWindow(c, w0, es);
    RunKeepsWindow(c, w0, more);
    ExampleWindows(c, w0, garbage);
    DigitTexts();
    PublishedSequence(c, Run(c, w0, es));
    PublishedSequence(c, Run(c, w0, more));
  }

  lemma ExampleAccepted(c: Config, garbage: int)
    ensures Numbers(AcceptedBy(c, [CdnPlaylist(FIVE, garbage)])) == {5}
    ensures Numbers(AcceptedBy(c, [CdnPlaylist(FIVE, garbage), CdnPlaylist(THREE, garbage)])) == {5} + {3}
  {
    hide MP.Parse, Numbers;
    var f, t := CdnPlaylist(FIVE, garbage), CdnPlaylist(THREE, garbage);
    TextsRead(garbage);
    assert [f][..0] == [] && [f, t][..1] == [f];
    var five, three := MP.Listing("five.ts", 5, -ONE), MP.Listing("three.ts", 3, -ONE);
    assert ListingsOf(c, f) == [five] && ListingsOf(c, t) == [three];
    assert AcceptedBy(c, [f]) == [] + [five] == [five];
    assert AcceptedBy(c, [f, t]) == AcceptedBy(c, [f]) + [three];
    NumbersOfOne(five);
    NumbersOfOne(three);
    NumbersConcat([five], [three]);
  }

  lemma ExampleWindows(c: Config, w0: World, garbage: int)
    requires Initial(w0) && c.keep >= 2
    ensures var w := Run(c, w0, [CdnPlaylist(FIVE, garbage)]);
      var r := Run(c, w0, [CdnPlaylist(FIVE, garbage), CdnPlaylist(THREE, garbage)]);
      && w.window != map[] && MinInt(w.window.Keys) == 5
      && r.window != map[] && MinInt(r.window.Keys) == 3
  {
    hide Run, AcceptedBy, Numbers, Largest;
    WindowIsLargestAccepted(c, w0, [CdnPlaylist(FIVE, garbage)]);
    WindowIsLargestAccepted(c, w0, [CdnPlaylist(FIVE, garbage), CdnPlaylist(THREE, garbage)]);
    ExampleAccepted(c, garbage);
    FiveAndThree(c.keep);
  }

  lemma NumbersOfOne(l: MP.Listing)
    ensures Numbers([l]) == {l.nr}
  {
    assert l in [l];
  }

  lemma FiveAndThree(k: nat)
    requires k >= 2
    ensures Largest({5}, k) == {5} && Largest({5} + {3}, k) == {3, 5}
  {
    assert |{5}| == 1;
    AllOfFew({5}, k);
    assert {5} + {3} == {3, 5} && |{3, 5}| == 2;
    AllOfFew({3, 5}, k);
  }

  /** Before that it can: exactly when the playlist brings an older number and there is room for it. */
  lemma MediaSequenceDecreasesIff(c: Config, w: World, ls: seq<MP.Listing>)
    requires WindowInv(c, w) && w.window != map[]
    ensures var r := Evict(Merge(c, w, ls), c.keep);
      var oldest := MinInt(w.window.Keys);
      && r.window.Keys != {}
      && (MinInt(r.window.Keys) < oldest <==>
            && |set y | y in w.window.Keys + Numbers(ls) && y >= oldest| < c.keep
            && exists l :: l in ls && l.nr < oldest)
  {
    hide Merge, Evict;
    MergeEvictKeepsWindow(c, w, ls);
    assert w.window.Keys != {} by { assert exists s :: s in w.window; }
    LargestSize(Numbers(w.accepted), c.keep);
    assert |w.window.Keys| > 0 by { Subset({MinInt(w.window.Keys)}, w.window.Keys); }
    MinDecreasesIff(w.window.Keys, Numbers(ls), c.keep);
    var oldest := MinInt(w.window.Keys);
    assert (exists l :: l in ls && l.nr < oldest) <==> exists x :: x in Numbers(ls) && x < oldest by {
      if l :| l in ls && l.nr < oldest { assert l.nr in Numbers(ls); }
    }
  }

  lemma IntervalIsConsecutive(ks: seq<int>, i: nat)
    requires 0 < i < |ks| && forall k, j | 0 <= k < j < |ks| :: ks[k] < ks[j]
    requires ks[i - 1] + 1 <= ks[i] - 1 ==> ks[i - 1] + 1 in ks
    ensures ks[i] == ks[i - 1] + 1
  {
    if ks[i - 1] + 1 < ks[i] {
      var j :| 0 <= j < |ks| && ks[j] == ks[i - 1] + 1;
    }
  }

  lemma ConsecutiveIsInterval(ks: seq<int>, x: int, y: int, z: int)
    requires forall i | 0 < i < |ks| :: ks[i] == ks[i - 1] + 1
    requires x in ks && z in ks && x <= y <= z
    ensures y in ks
  {
    var i :| 0 <= i < |ks| && ks[i] == x;
    var j :| 0 <= j < |ks| && ks[j] == z;
    RunningFrom(ks, i, j);
    RunningFrom(ks, i, i + (y - x));
  }

  lemma ConsecutiveIffInterval(s: set<int>)
    ensures var ks := SortedInts(s);
      (forall i | 0 < i < |ks| :: ks[i] == ks[i - 1] + 1) <==> Interval(s)
  {
    var ks := SortedInts(s);
    hide SortedInts;
    if Interval(s) {
      forall i | 0 < i < |ks| ensures ks[i] == ks[i - 1] + 1 {
        assert ks[i - 1] in s && ks[i] in s;
        IntervalIsConsecutive(ks, i);
      }
    }
    if forall i | 0 < i < |ks| :: ks[i] == ks[i - 1] + 1 {
      forall x, y, z | x in s && z in s && x <= y <= z ensures y in s {
        ConsecutiveIsInterval(ks, x, y, z);
      }
    }
  }

  lemma {:induction false} RunningFrom(ks: seq<int>, i: nat, j: nat)
    requires i < |ks| && j < |ks| && forall k | 0 < k < |ks| :: ks[k] == ks[k - 1] + 1
    ensures ks[j] - ks[i] == j - i
    decreases if i <= j then j - i else i - j
  {
    if i < j { RunningFrom(ks, i, j - 1); } else if j < i { RunningFrom(ks, i - 1, j); }
  }

  /** Re-reading the published text gives every segment its own number exactly when the window has no gap. */
  lemma WindowNumbersReadBackIff(c: Config, w: World, garbage: int)
    requires AllInv(c, w) && '\n' !in c.dir && w.window != map[]
    ensures var p := MP.Parse(w.playlist, garbage);
      var ks := SortedInts(w.window.Keys);
      && p.Success? && |p.value.segments| == |ks|
      && ((forall i | 0 <= i < |ks| :: p.value.segments[i].nr == ks[i]) <==> Interval(w.window.Keys))
  {
    hide MP.Parse, MP.Print, MP.Reread, Interval, WindowListing, SortedInts, AllInv;
    InvariantIds(c, w);
    WindowReadsBack(c, w, garbage);
    var ls, ks := WindowListing(w), SortedInts(w.window.Keys);
    ListingAt(w, 0);
    forall i | 0 <= i < |ks| ensures ls[i].nr == ks[i] { ListingAt(w, i); }
    RereadKeepsIff(ls, ks);
    ConsecutiveIffInterval(w.window.Keys);
  }

  /** ... in every reachable state. */
  lemma NumbersReadBackIff(c: Config, w0: World, es: seq<Event>, garbage: int)
    requires Initial(w0) && '\n' !in c.dir && 0 < c.keep && AcceptedBy(c, es) != []
    ensures var p := MP.Parse(Run(c, w0, es).playlist, garbage);
      var ks := SortedInts(Run(c, w0, es).window.Keys);
      && p.Success? && |p.value.segments| == |ks|
      && ((forall i | 0 <= i < |ks| :: p.value.segments[i].nr == ks[i]) <==> Interval(Run(c, w0, es).window.Keys))
  {
    hide MP.Parse, MP.Print, Step, AcceptedBy, AllInv, SortedInts, Interval;
    InitialInvariants(c, w0);
    RunKeepsWindow(c, w0, es);
    SomethingAccepted(c, w0, es);
    WindowNumbersReadBackIff(c, Run(c, w0, es), garbage);
  }

  /** After the two texts above the window is {3, 5}, and a client numbers its second segment 4. */
  lemma GapRenumbers(c: Config, w0: World, garbage: int)
    requires Initial(w0) && '\n' !in c.dir && c.keep >= 2
    ensures var w := Run(c, w0, [CdnPlaylist(FIVE, garbage), CdnPlaylist(THREE, garbage)]);
      var p := MP.Parse(w.playlist, garbage);
      && w.window.Keys == {3, 5}
      && p.Success? && |p.value.segments| == 2
      && p.value.segments[0].nr == 3 && p.value.segments[1].nr == 4
  {
    hide Run, AllInv, Initial, AcceptedBy, Numbers, Largest, MP.Parse, WindowListing;
    var es := [CdnPlaylist(FIVE, garbage), CdnPlaylist(THREE, garbage)];
    InitialInvariants(c, w0);
    RunKeepsWindow(c, w0, es);
    WindowIsLargestAccepted(c, w0, es);
    ExampleAccepted(c, garbage);
    FiveAndThree(c.keep);
    var w := Run(c, w0, es);
    assert |w.window| == |w.window.Keys| == 2;
    assert 3 in w.window;
    WindowReadsBack(c, w, garbage);
  }

  lemma InvariantIds(c: Config, w: World)
    requires AllInv(c, w)
    ensures Ids(w)
  {}

  lemma RereadKeepsIff(ls: seq<MP.Listing>, ks: seq<int>)
    requires ls != [] && |ls| == |ks| && forall i | 0 <= i < |ks| :: ls[i].nr == ks[i]
    ensures var r := MP.Reread(ls, ls[0].nr);
      && |r| == |ks|
      && ((forall i | 0 <= i < |ks| :: r[i].nr == ks[i]) <==> (forall i | 0 < i < |ks| :: ks[i] == ks[i - 1] + 1))
  {
    MP.NumbersKeptIff(ls);
    assert (forall i | 0 < i < |ks| :: ks[i] == ks[i - 1] + 1)
      <==> forall i | 0 < i < |ls| :: ls[i].nr == ls[i - 1].nr + 1;
  }

  /** The accepted numbers of a playlist form an interval that overlaps or abuts the window. */
  ghost predicate Adjoining(c: Config, w: World, e: Event) {
    match PlaylistOf(c, e)
    case None => true
    case Some(p) =>
      var parsed := MP.Parse(p.0, p.2);
      parsed.Success? ==> Adjoins(w.window.Keys, Numbers(Admitted(parsed.value.segments, p.1, c.truncate)))
  }

  ghost predicate Adjoins(window: set<int>, numbers: set<int>) {
    && Interval(numbers)
    && (numbers == {} || window == {} || exists x, y :: x in window && y in numbers && -1 <= x - y <= 1)
  }

  ghost predicate AdjoiningRun(c: Config, w: World, es: seq<Event>)
    requires Ids(w)
  {
    es == [] || (AdjoiningRun(c, w, es[..|es| - 1]) && Adjoining(c, Run(c, w, es[..|es| - 1]), es[|es| - 1]))
  }

  lemma PlaylistWindow(c: Config, w: World, content: string, source: ItemSource, garbage: int)
    requires WindowInv(c, w)
    ensures var r := HandlePlaylist(c, w, content, source, garbage);
      match MP.Parse(content, garbage)
      case Failure(_) => r == w
      case Success(p) =>
        r.window.Keys == Largest(w.window.Keys + Numbers(Admitted(p.segments, source, c.truncate)), c.keep)
  {
    assert Ids(w);
    hide MP.Parse, MP.Print, Merge, Evict, WindowListing, Largest, Numbers, Admitted, WindowInv;
    var p := MP.Parse(content, garbage);
    if p.Success? { MergeEvictKeepsWindow(c, w, Admitted(p.value.segments, source, c.truncate)); }
  }

  lemma StepKeepsInterval(c: Config, w: World, e: Event)
    requires AllInv(c, w) && Interval(w.window.Keys) && Adjoining(c, w, e)
    ensures Interval(Step(c, w, e).window.Keys)
  {
    assert Ids(w) && WindowInv(c, w);
    hide Step, HandlePlaylist, MP.Parse, Interval, AllInv, WindowInv, Numbers, Admitted, Largest, Adjoins, Ids;
    StepIs(c, w, e);
    match PlaylistOf(c, e)
    case None =>
    case Some(p) =>
      PlaylistWindow(c, w, p.0, p.1, p.2);
      var parsed := MP.Parse(p.0, p.2);
      if parsed.Success? {
        GrownInterval(w.window.Keys, Numbers(Admitted(parsed.value.segments, p.1, c.truncate)), c.keep);
      }
  }

  lemma GrownInterval(window: set<int>, numbers: set<int>, keep: nat)
    requires Interval(window) && Adjoins(window, numbers)
    ensures Interval(Largest(window + numbers, keep))
  {
    hide Interval, Largest;
    UnionKeepsInterval(window, numbers);
    LargestOfInterval(window + numbers, keep);
  }

  lemma UnionKeepsInterval(s: set<int>, t: set<int>)
    requires Interval(s) && Interval(t)
    requires t == {} || s == {} || exists x, y :: x in s && y in t && -1 <= x - y <= 1
    ensures Interval(s + t)
  {
    if t == {} {
      assert s + t == s;
    } else if s == {} {
      assert s + t == t;
    } else {
      IntervalUnion(s, t);
    }
  }

  lemma {:induction false} AdjoiningRunKeepsInterval(c: Config, w: World, es: seq<Event>)
    requires AllInv(c, w) && Interval(w.window.Keys) && AdjoiningRun(c, w, es)
    ensures Interval(Run(c, w, es).window.Keys)
  {
    assert Ids(w);
    hide AllInv, Step, Interval, Adjoining;
    if es != [] {
      AdjoiningRunKeepsInterval(c, w, es[..|es| - 1]);
      RunKeepsWindow(c, w, es[..|es| - 1]);
      StepKeepsInterval(c, Run(c, w, es[..|es| - 1]), es[|es| - 1]);
    }
  }

  /** While every accepted playlist prefix adjoins the window, published numbers are the original ones. */
  lemma AdjoiningPlaylistsKeepNumbers(c: Config, w0: World, es: seq<Event>, garbage: int)
    requires Initial(w0) && '\n' !in c.dir && AdjoiningRun(c, w0, es)
    requires 0 < c.keep && AcceptedBy(c, es) != []
    ensures var w := Run(c, w0, es);
      var p := MP.Parse(w.playlist, garbage);
      var ks := SortedInts(w.window.Keys);
      && Interval(w.window.Keys)
      && p.Success? && |p.value.segments| == |ks|
      && forall i | 0 <= i < |ks| :: p.value.segments[i].nr == ks[i]
  {
    InitialInvariants(c, w0);
    SomethingAccepted(c, w0, es);
    hide AllInv, Step, Adjoining, MP.Parse, Initial, AcceptedBy;
    assert Interval(w0.window.Keys) by { InitialWindow(w0); }
    AdjoiningRunKeepsInterval(c, w0, es);
    RunKeepsWindow(c, w0, es);
    WindowNumbersReadBackIff(c, Run(c, w0, es), garbage);
  }

  lemma InitialWindow(w: World)
    requires Initial(w)
    ensures Interval(w.window.Keys)
  {}

  // ------------------------------------------------------------ sweeps

  lemma UndatedIsEmpty(w: World)
    requires Ids(w) && DatedInv(w)
    ensures forall n | n in WorldView(w) && !Sweep.Dated(WorldView(w)[n]) :: WorldView(w)[n].length == 0
  {}

  /** After a sweep the whole cache, undated items included, is within the limit. */
  lemma SweptCacheWithinLimit(c: Config, w0: World, es: seq<Event>)
    requires Initial(w0) && DatedInv(w0) && Throughout(c, w0, es, Dates) && c.limits.maxSize < TWO_32
    requires var w := Run(c, w0, es);
      Sweep.NoWrap(WorldView(w), w.clock, c.limits)
    ensures var v := WorldView(Run(c, w0, es + [SweepTick]));
      Sweep.Bytes(v, v.Keys) <= c.limits.maxSize
  {
    hide *;
    InitialIds(w0);
    RunKeepsDates(c, w0, es);
    RunSnoc(c, w0, es, SweepTick);
    SweepOrTick(c, Run(c, w0, es));
    SweepFits(c, Run(c, w0, es));
  }

  lemma RunSnoc(c: Config, w: World, es: seq<Event>, e: Event)
    requires Ids(w)
    ensures Run(c, w, es + [e]) == Step(c, Run(c, w, es), e)
  {
    hide Step;
    assert (es + [e])[..|es|] == es;
  }

  lemma SweepOrTick(c: Config, w: World)
    requires Ids(w)
    ensures Step(c, w, SweepTick) == SweepCache(c, w)
    ensures forall now :: Step(c, w, Tick(now)) == w.(clock := now)
  {
    hide SweepCache;
  }

  lemma InitialIds(w: World)
    requires Initial(w)
    ensures Ids(w)
  {}

  lemma SweptView(c: Config, w: World)
    ensures var v := WorldView(w);
      var u := WorldView(SweepCache(c, w));
      && u.Keys == Sweep.Kept(v, w.clock, c.limits)
      && forall n | n in u :: n in v && u[n] == v[n]
  {
    hide Sweep.AgeOrder;
    Sweep.KeptParts(WorldView(w), w.clock, c.limits);
    hide Sweep.Kept;
  }

  lemma SweepFits(c: Config, w: World)
    requires Ids(w) && DatedInv(w) && c.limits.maxSize < TWO_32
    requires Sweep.NoWrap(WorldView(w), w.clock, c.limits)
    ensures var v := WorldView(SweepCache(c, w));
      Sweep.Bytes(v, v.Keys) <= c.limits.maxSize
  {
    var v, u := WorldView(w), WorldView(SweepCache(c, w));
    UndatedIsEmpty(w);
    SweptView(c, w);
    hide Sweep.Kept, WorldView, Sweep.NoWrap;
    Sweep.SweptCacheFits(v, w.clock, c.limits);
    Sweep.BytesSame(v, u, u.Keys);
  }

  function Unexpired(c: Config, w: World): map<string, Item> {
    map n | n in w.cache && !Sweep.Expired(ItemEntry(w, w.cache[n]), w.clock, c.limits) :: w.cache[n]
  }

  /** A later second sweep removes exactly what has expired by then; one at the same time removes nothing. */
  lemma SecondSweepOnlyExpires(c: Config, w0: World, es: seq<Event>, later: nat)
    requires Initial(w0) && DatedInv(w0) && Throughout(c, w0, es, Dates) && c.limits.maxSize < TWO_32
    requires var w := Run(c, w0, es);
      Sweep.NoWrap(WorldView(w), w.clock, c.limits)
    ensures var r := Run(c, w0, es + [SweepTick]);
      var t := r.(clock := later);
      var s := Run(c, w0, es + [SweepTick] + [Tick(later)] + [SweepTick]);
      && s.cache == Unexpired(c, t)
      && (later == r.clock ==> s.cache == r.cache)
  {
    hide *;
    InitialIds(w0);
    RunKeepsDates(c, w0, es);
    var w := Run(c, w0, es);
    var r := SweepCache(c, w);
    RunSnoc(c, w0, es, SweepTick);
    RunSnoc(c, w0, es + [SweepTick], Tick(later));
    RunSnoc(c, w0, es + [SweepTick] + [Tick(later)], SweepTick);
    SweepOrTick(c, w);
    SweepOrTick(c, r);
    SweepOrTick(c, r.(clock := later));
    SecondSweepStep(c, w, later);
  }

  /** Moving the clock changes dates, never lengths. */
  lemma LaterView(w: World, later: nat)
    ensures var v, u := WorldView(w), WorldView(w.(clock := later));
      u.Keys == v.Keys && forall n | n in u :: u[n].length == v[n].length
  {}

  lemma SecondSweepStep(c: Config, w: World, later: nat)
    requires Ids(w) && DatedInv(w) && c.limits.maxSize < TWO_32
    requires Sweep.NoWrap(WorldView(w), w.clock, c.limits)
    ensures var r := SweepCache(c, w);
      var t := r.(clock := later);
      var s := SweepCache(c, t);
      && s.cache == Unexpired(c, t)
      && (later == r.clock ==> s.cache == r.cache)
  {
    hide Sweep.Kept, Sweep.NoWrap, DatedInv, Sweep.Expired, ItemEntry;
    var r := SweepCache(c, w);
    var t := r.(clock := later);
    SecondKept(c, w, later);
    SweptView(c, w);
    KeptNotExpired(WorldView(w), w.clock, c.limits);
    assert forall n | n in r.cache :: WorldView(r)[n] == ItemEntry(r, r.cache[n]);
    assert forall n | n in t.cache :: WorldView(t)[n] == ItemEntry(t, t.cache[n]);
    assert later == r.clock ==> t == r;
  }

  lemma SecondKept(c: Config, w: World, later: nat)
    requires Ids(w) && DatedInv(w) && c.limits.maxSize < TWO_32
    requires Sweep.NoWrap(WorldView(w), w.clock, c.limits)
    ensures var u := WorldView(SweepCache(c, w).(clock := later));
      Sweep.Kept(u, later, c.limits) == set n | n in u && !Sweep.Expired(u[n], later, c.limits)
  {
    hide Sweep.Kept, Sweep.NoWrap, Sweep.Bytes, Sweep.Expired, WorldView, SweepCache;
    UndatedIsEmpty(w);
    SweptView(c, w);
    var r := SweepCache(c, w);
    LaterView(r, later);
    Sweep.SecondSweep(WorldView(w), w.clock, WorldView(r.(clock := later)), later, c.limits);
  }

  lemma KeptNotExpired(v: Sweep.View, now: nat, l: Sweep.Limits)
    ensures forall n | n in Sweep.Kept(v, now, l) :: n in v && !Sweep.Expired(v[n], now, l)
  {}

  // ------------------------------------------------------------ broadcast files and sources

  /** Every delivered file is staged, attached to one segment at its own URI, or superseded, and only one of these. */
  lemma BroadcastFilesConserved(c: Config, w0: World, es: seq<Event>)
    requires Initial(w0) && Throughout(c, w0, es, NewFile)
    ensures var w := Run(c, w0, es); w.delivered == DeliveredBy(c, es) && Conserved(w) && Placed(w)
  {
    hide Step, ListingsOf, FilesOf;
    InitialInvariants(c, w0);
    RunKeepsFiles(c, w0, es);
    AcceptedFromStart(c, w0, es);
  }

  /** A playlist call attaches to each new segment the file that was staged for it, and claims no other file. */
  lemma PlaylistClaimsStagedFiles(c: Config, w: World, ls: seq<MP.Listing>)
    requires Provenance(c, w) && Distinct(ls)
    ensures var r := Evict(Merge(c, w, ls), c.keep);
      && r.staged == Merge(c, w, ls).staged && r.store == Merge(c, w, ls).store
      && Claimed(c, w, ls, Merge(c, w, ls))
  {
    MergeClaims(c, w, ls);
    EvictIs(Merge(c, w, ls), c.keep);
  }

  /** A completed CDN request makes the segment available, unless its broadcast file is complete and stays preferred. */
  lemma FetchedSegmentServes(w: World, id: nat, data: CdnFile)
    requires Ids(w) && id < |w.store| && w.store[id].cdnClient.Some?
    ensures var r := SegmentFetched(w, id, data);
      && r.store[id].receivedAt == w.clock
      && Chosen(r.store[id], r.complete) ==
           (if Chosen(w.store[id], w.complete).FluteData? then Chosen(w.store[id], w.complete) else CdnData(data))
      && forall i | 0 <= i < |w.store| && i != id :: r.store[i] == w.store[i]
  {}

  /** A request that finds a segment without data asks the CDN for it, and the answer serves the next one. */
  lemma MissThenFetched(w: World, api: string, target: string, id: nat, data: CdnFile)
    requires Ids(w) && Lookup(w, target) == Some(SegmentItem(id)) && CdnRequest(w, api, target).Some?
    ensures Get(w, api, target) == NotFound
    ensures id < |w.store| && w.store[id].cdnClient.Some?
    ensures CdnRequest(w, api, target) == Some(Request(w.store[id].cdnClient.value, w.store[id].uri))
    ensures var r := SegmentFetched(w, id, data);
      CdnRequest(r, api, target) == None && Get(r, api, target) == Content(CDN, Body(data.content))
  {
    hide RouteOf;
  }

  /** Over any run no segment's source moves down. */
  lemma {:induction false} SourcesOnlyRise(c: Config, w: World, es: seq<Event>)
    requires Ids(w)
    ensures SourcesRise(w, Run(c, w, es))
  {
    hide Step, SourceAt;
    if es != [] {
      SourcesOnlyRise(c, w, es[..|es| - 1]);
      StepRaisesSources(c, Run(c, w, es[..|es| - 1]), es[|es| - 1]);
    }
  }

  // ------------------------------------------------------------ the merge loop

  /** Broadcast playlists are admitted whole; CDN playlists lose all but two of the truncated segments. */
  lemma AdmittedPrefix(n: nat, truncate: int)
    requires n < 0x8000_0000 && -0x8000_0000 <= truncate < 0x8000_0000
    ensures AdmittedCount(n, Broadcast, truncate) == n
    ensures 0 <= truncate <= n ==> AdmittedCount(n, CDN, truncate) == if truncate <= 2 then n else n - truncate + 2
    ensures truncate > n || truncate < 0 ==> AdmittedCount(n, CDN, truncate) == n
  {}
}
