/**
 `SeamlessContentStream` as an object: the fields of the C++ class, and for every handler a proof
 that it does to them what `EdgeCache` says.
 */
module SeamlessStream {
  import opened Wrappers
  import opened ContentStreams
  import opened Endpoints
  import opened Text
  import opened Ordering
  import opened Routing
  import opened Segments
  import opened EdgeCache
  import opened Cache
  import Sweep
  import MP = MediaPlaylist

  /** The fields of the object that hold references, as values. */
  datatype Fields = Fields(
    created: seq<Segment>, segments: map<int, Segment>, fluteFiles: map<string, FluteFile>,
    items: map<string, CacheItem>, own: TextCell)

  /** Which kind of entry an item is; the stream's own segments and playlist are recognised by identity. */
  ghost predicate ItemShows(f: Fields, item: CacheItem, i: Item) {
    match item
    case CachedSegment(_, segment) =>
      if segment in f.created then i.SegmentItem? && i.id < |f.created| && f.created[i.id] == segment
      else i.OtherSegment?
    case CachedFile(_, dated, file) => i == FileItem(file) && dated == file.receivedAt
    case CachedPlaylist(_, cell) => if cell == f.own then i == OwnPlaylist else i.OtherPlaylist?
  }

  ghost predicate CreatedShown(f: Fields, w: World) {
    && |f.created| == |w.store|
    && forall i | 0 <= i < |f.created| :: f.created[i].id == i && f.created[i].uri == w.store[i].uri
  }

  ghost predicate WindowShown(f: Fields, w: World) {
    && f.segments.Keys == w.window.Keys
    && forall s | s in f.segments :: w.window[s] < |f.created| && f.segments[s] == f.created[w.window[s]]
  }

  ghost predicate CacheShown(f: Fields, w: World) {
    && f.items.Keys == w.cache.Keys
    && forall n | n in f.items :: ItemShows(f, f.items[n], w.cache[n])
  }

  /** The references make up the world `w`. */
  ghost predicate Represents(f: Fields, w: World) {
    Ids(w) && CreatedShown(f, w) && WindowShown(f, w) && CacheShown(f, w) && f.fluteFiles == w.staged
  }

  lemma SegmentAdded(f: Fields, w: World, c: Config, l: MP.Listing, segment: Segment)
    requires Represents(f, w) && l.nr !in f.segments
    requires segment.id == |f.created| && segment.uri == c.dir + l.uri
    requires forall n | n in f.items && f.items[n].CachedSegment? :: f.items[n].segment != segment
    ensures MergeOne(c, w, l).store == w.store + [NewSegment(c, f.fluteFiles, l)]
    ensures MergeOne(c, w, l).playlist == w.playlist
    ensures Represents(
      Fields(f.created + [segment], f.segments[l.nr := segment], f.fluteFiles - {segment.uri},
             f.items[segment.uri := CachedSegment(segment.uri, segment)], f.own),
      MergeOne(c, w, l))
  {
    var g := Fields(f.created + [segment], f.segments[l.nr := segment], f.fluteFiles - {segment.uri},
                    f.items[segment.uri := CachedSegment(segment.uri, segment)], f.own);
    var r := MergeOne(c, w, l);
    assert forall s: Segment :: s in g.created <==> s in f.created || s == segment;
    forall n | n in g.items ensures ItemShows(g, g.items[n], r.cache[n]) {
      if n != segment.uri { assert ItemShows(f, f.items[n], w.cache[n]); }
    }
  }

  lemma NewSegmentUri(c: Config, staged: map<string, FluteFile>, l: MP.Listing)
    ensures NewSegment(c, staged, l).uri == c.dir + l.uri
  {}

  lemma ListingKnown(f: Fields, w: World, c: Config, l: MP.Listing)
    requires Represents(f, w) && l.nr in f.segments
    ensures Represents(f, MergeOne(c, w, l))
    ensures MergeOne(c, w, l).store == w.store && MergeOne(c, w, l).playlist == w.playlist
  {
    var r := MergeOne(c, w, l);
    forall n | n in f.items ensures ItemShows(f, f.items[n], r.cache[n]) {
      assert ItemShows(f, f.items[n], w.cache[n]);
    }
  }

  lemma OldestRemoved(f: Fields, w: World)
    requires Represents(f, w) && f.segments != map[]
    ensures w.window != map[]
    ensures var m := MinInt(f.segments.Keys);
      && m in f.segments
      && Represents(f.(segments := f.segments - {m}, items := f.items - {f.segments[m].uri}), EvictOne(w))
      && EvictOne(w).store == w.store && EvictOne(w).playlist == w.playlist
  {
    assert f.segments.Keys == {} ==> f.segments == map[];
    assert w.window == map[] ==> w.window.Keys == {};
    var m := MinInt(f.segments.Keys);
    var g := f.(segments := f.segments - {m}, items := f.items - {f.segments[m].uri});
    var r := EvictOne(w);
    forall n | n in g.items ensures ItemShows(g, g.items[n], r.cache[n]) {
      assert ItemShows(f, f.items[n], w.cache[n]);
    }
  }

  lemma PlaylistAdded(f: Fields, w: World, name: string)
    requires Represents(f, w)
    ensures Represents(f.(items := f.items[name := CachedPlaylist(name, f.own)]),
                       w.(cache := w.cache[name := OwnPlaylist]))
  {
    var g, r := f.(items := f.items[name := CachedPlaylist(name, f.own)]), w.(cache := w.cache[name := OwnPlaylist]);
    forall n | n in g.items ensures ItemShows(g, g.items[n], r.cache[n]) {
      if n != name { assert ItemShows(f, f.items[n], w.cache[n]); }
    }
  }

  lemma StagedShown(f: Fields, w: World, file: FluteFile)
    requires Represents(f, w)
    ensures Represents(f.(fluteFiles := f.fluteFiles[file.location := file]), Stage(w, file))
  {
    var g, r := f.(fluteFiles := f.fluteFiles[file.location := file]), Stage(w, file);
    forall n | n in f.items ensures ItemShows(g, g.items[n], r.cache[n]) {
      assert ItemShows(f, f.items[n], w.cache[n]);
    }
  }

  lemma FetchedShown(f: Fields, w: World, id: nat, file: CdnFile)
    requires Represents(f, w)
    ensures Represents(f, EdgeCache.SegmentFetched(w, id, file))
  {
    var r := EdgeCache.SegmentFetched(w, id, file);
    forall n | n in f.items ensures ItemShows(f, f.items[n], r.cache[n]) {
      assert ItemShows(f, f.items[n], w.cache[n]);
    }
  }

  lemma SweptShown(f: Fields, w: World, c: Config, kept: set<string>)
    requires Represents(f, w) && kept == Sweep.Kept(WorldView(w), w.clock, c.limits)
    ensures Represents(f.(items := map n | n in f.items && n in kept :: f.items[n]), SweepCache(c, w))
  {
    hide Sweep.Kept, WorldView, CacheShown;
    SweptCacheShown(f, w, c, kept);
  }

  lemma SweptCacheShown(f: Fields, w: World, c: Config, kept: set<string>)
    requires CacheShown(f, w) && kept == Sweep.Kept(WorldView(w), w.clock, c.limits)
    ensures CacheShown(f.(items := map n | n in f.items && n in kept :: f.items[n]), SweepCache(c, w))
  {
    hide Sweep.Kept, WorldView;
    var g, r := f.(items := map n | n in f.items && n in kept :: f.items[n]), SweepCache(c, w);
    forall n | n in g.items ensures ItemShows(g, g.items[n], r.cache[n]) {
      assert ItemShows(f, f.items[n], w.cache[n]);
    }
  }

  /** Fields that the representation does not depend on. */
  lemma TextChanged(f: Fields, w: World, target: int)
    requires Represents(f, w)
    ensures Represents(f, Publish(w, target))
  {
    hide MP.Print, WindowListing;
    var r := Publish(w, target);
    forall n | n in f.items ensures ItemShows(f, f.items[n], r.cache[n]) {
      assert ItemShows(f, f.items[n], w.cache[n]);
    }
  }

  /** What a new stream sees of an item in the cache: it belongs to others. */
  ghost function Seen(item: CacheItem): Item
    reads item.Objects()
  {
    match item
    case CachedSegment(_, segment) => OtherSegment(segment.Value())
    case CachedFile(_, _, file) => FileItem(file)
    case CachedPlaylist(_, cell) => OtherPlaylist(cell.text)
  }

  /** The state of a new stream, at a time and with the files that are complete by then. */
  ghost function StartIn(cache: CacheManagement, now: nat, complete: set<nat>): World
    reads cache, cache.Objects()
  {
    World(map[], [], map[], map n | n in cache.items :: Seen(cache.items[n]), "none", complete, now,
          None, [], [], {}, {}, {})
  }

  class SeamlessContentStream {
    /** What the class inherits. */
    const stream: ContentStream
    const cache: CacheManagement
    const playlist: TextCell
    const segmentsToKeep: int
    const truncateCdnPlaylistSegments: int
    var playlistDir: string
    /** The base that the CDN client was made for. */
    var cdnClient: Option<string>
    var running: bool
    var segments: map<int, Segment>
    var fluteFiles: map<string, FluteFile>

    /** All segments ever made, in order; window and cache refer into it. */
    ghost var created: seq<Segment>
    ghost var world: World

    ghost function Cfg(): Config
      reads this, stream
    {
      Config(stream.playlistPath, playlistDir, SizeT(segmentsToKeep), truncateCdnPlaylistSegments, cdnClient,
             cache.limits)
    }

    ghost function AsFields(): Fields
      reads this, cache
    {
      Fields(created, segments, fluteFiles, cache.items, playlist)
    }

    /** The object is in the state `world`. */
    ghost predicate Valid()
      reads this, created, cache, playlist
    {
      && Ids(world)
      && Represents(AsFields(), world)
      && |created| == |world.store|
      && (forall i | 0 <= i < |created| :: created[i].Value() == world.store[i])
      && playlist.text == world.playlist
    }

    constructor (base: string, hls: bool, cache: CacheManagement, segmentsToKeep: int,
                 truncateCdnPlaylistSegments: int, ghost now: nat, ghost complete: set<nat>)
      requires cache.DatesAgree()
      ensures Valid() && world == old(StartIn(cache, now, complete)) && this.cache == cache
      ensures fresh(stream) && stream.base == base && stream.hls == hls
      ensures stream.session == UNSET && stream.playlistPath == "" && stream.receiver == None
      ensures stream.resolution == "" && stream.codecs == ""
      ensures playlistDir == "" && cdnClient == None && running
      ensures this.segmentsToKeep == segmentsToKeep
      ensures this.truncateCdnPlaylistSegments == truncateCdnPlaylistSegments
    {
      this.cache, this.segmentsToKeep := cache, segmentsToKeep;
      this.truncateCdnPlaylistSegments := truncateCdnPlaylistSegments;
      stream := new ContentStream(base, hls);
      playlist := new TextCell("none");
      playlistDir, cdnClient, running := "", None, true;
      segments, fluteFiles := map[], map[];
      created, world := [], old(StartIn(cache, now, complete));
    }

    /**
     A text that is not a URI throws before anything has changed; a URI that the HTTP library makes no client for
     throws when path and directory have been set, and before the playlist is cached.
     */
    method SetCdnEndpoint(endpoint: string, parse: UriParser) returns (thrown: bool)
      requires Valid()
      modifies stream`playlistPath, this`playlistDir, this`cdnClient, this`world, cache
      ensures Valid() && (thrown <==> Usable(parse, endpoint).None?)
      ensures old(cache.DatesAgree()) ==> cache.DatesAgree()
      ensures thrown ==>
        cdnClient == old(cdnClient) && world == old(world) && cache.items == old(cache.items)
      ensures match parse(endpoint)
              case None => stream.playlistPath == old(stream.playlistPath) && playlistDir == old(playlistDir)
              case Some(e) =>
                && stream.playlistPath == PlaylistPath(e.path, e.query)
                && playlistDir == PlaylistDir(stream.playlistPath)
                && (!thrown ==> cdnClient == Some(e.base))
      ensures !thrown ==>
        && world == old(world).(cache := old(world.cache)[stream.playlistPath := OwnPlaylist])
        && cache.items == old(cache.items)[stream.playlistPath := CachedPlaylist(stream.playlistPath, playlist)]
    {
      hide Represents, PlaylistPath, PlaylistDir;
      var parsed := parse(endpoint);
      if parsed.None? { return true; }
      stream.playlistPath, playlistDir := SplitEndpoint(parsed.value.path, parsed.value.query);
      thrown := !parsed.value.hasClient;
      if thrown { return; }
      cdnClient := Some(parsed.value.base);
      PlaylistAdded(AsFields(), world, stream.playlistPath);
      cache.AddItem(CachedPlaylist(stream.playlistPath, playlist));
      world := world.(cache := world.cache[stream.playlistPath := OwnPlaylist]);
    }

    static method SplitEndpoint(path: string, query: string) returns (playlistPath: string, playlistDir: string)
      ensures playlistPath == PlaylistPath(path, query) && playlistDir == PlaylistDir(playlistPath)
    {
      playlistPath := if path == "" then "" else path[1..];
      if query != "" {
        playlistPath := playlistPath + ("?" + query);
      }
      var spos := LastIndex(playlistPath, '/');
      playlistDir := playlistPath[..spos + 1];
    }

    /** The segment for a listing: with a CDN client if there is one, with its staged file if it has arrived. */
    method MakeSegment(l: MP.Listing) returns (segment: Segment)
      modifies this`fluteFiles
      ensures fresh(segment) && segment.id == |created|
      ensures segment.Value() == NewSegment(Cfg(), old(fluteFiles), l)
      ensures fluteFiles == old(fluteFiles) - {segment.uri}
    {
      var fullUri := playlistDir + l.uri;
      segment := new Segment(fullUri, l.nr, l.extinf, |created|);
      if cdnClient.Some? { segment.SetCdnClient(cdnClient.value); }
      if fullUri in fluteFiles {
        segment.SetFluteFile(fluteFiles[fullUri]);
        fluteFiles := fluteFiles - {fullUri};
      }
    }

    /** Body of the merge loop. */
    method MergeListing(l: MP.Listing)
      requires Valid()
      modifies this`segments, this`fluteFiles, this`created, this`world, cache
      ensures Valid() && old(Ids(world)) && world == MergeOne(Cfg(), old(world), l)
    {
      hide Represents, MergeOne, NewSegment;
      ghost var f, w := AsFields(), world;
      if l.nr !in segments {
        var segment := MakeSegment(l);
        NewSegmentUri(Cfg(), f.fluteFiles, l);
        SegmentAdded(f, w, Cfg(), l, segment);
        segments := segments[l.nr := segment];
        cache.AddItem(CachedSegment(segment.uri, segment));
        created := created + [segment];
      } else {
        ListingKnown(f, w, Cfg(), l);
      }
      world := MergeOne(Cfg(), world, l);
    }

    /** Body of the eviction loop. */
    method EvictOldest()
      requires Valid() && segments != map[]
      modifies this`segments, this`world, cache
      ensures Valid() && old(Ids(world)) && old(world).window != map[] && world == EvictOne(old(world))
    {
      hide Represents, EvictOne;
      OldestRemoved(AsFields(), world);
      var oldest := MinInt(segments.Keys);
      var segment := segments[oldest];
      segments := segments - {oldest};
      cache.RemoveItem(segment.uri);
      world := EvictOne(world);
    }

    lemma Listed()
      requires Valid()
      ensures var numbers, listing := SortedInts(segments.Keys), WindowListing(world);
        && |listing| == |numbers|
        && forall i | 0 <= i < |numbers| ::
             && numbers[i] in segments
             && var segment := segments[numbers[i]];
                listing[i] == MP.Listing(segment.uri, segment.nr, segment.extinf)
    {
      var numbers := SortedInts(segments.Keys);
      forall i | 0 <= i < |numbers|
        ensures numbers[i] in segments
        ensures var segment := segments[numbers[i]];
          WindowListing(world)[i] == MP.Listing(segment.uri, segment.nr, segment.extinf)
      {
        assert numbers[i] in numbers;
        var segment := segments[numbers[i]];
        assert segment.Value() == world.store[world.window[numbers[i]]];
      }
    }

    /** The loop that copies the window into a playlist object. */
    method CopyWindow(pl: MP.HlsMediaPlaylist)
      requires Valid() && pl.segments == []
      modifies pl`segments
      ensures pl.segments == WindowListing(world)
    {
      hide WindowListing, Represents, Ids, SortedInts;
      ghost var listing := WindowListing(world);
      var numbers := SortedInts(segments.Keys);
      Listed();
      var i := 0;
      while i < |numbers|
        invariant 0 <= i <= |numbers| == |listing|
        invariant pl.segments == listing[..i]
      {
        var segment := segments[numbers[i]];
        pl.AddSegment(MP.Listing(segment.uri, segment.nr, segment.extinf));
        i := i + 1;
      }
      assert pl.segments == listing;
    }

    /** Regenerate the playlist text from the window. */
    method Regenerate(target: int)
      requires Valid()
      modifies playlist, this`world
      ensures Valid() && old(Ids(world)) && world == Publish(old(world), target)
    {
      hide Represents, WindowListing, MP.Print;
      var pl := new MP.HlsMediaPlaylist();
      pl.target := target;
      CopyWindow(pl);
      TextChanged(AsFields(), world, target);
      var text := pl.ToString();
      playlist.text := text;
      world := Publish(world, target);
    }

    /** `garbage` is what the uninitialized target duration of the parsed playlist happened to be. */
    method HandlePlaylist(content: string, source: ItemSource) returns (thrown: bool, ghost garbage: int)
      requires Valid()
      modifies this`segments, this`fluteFiles, this`created, this`world, cache, playlist
      ensures Valid() && old(Ids(world))
      ensures thrown <==> MP.Parse(content, garbage).Failure?
      ensures world == EdgeCache.HandlePlaylist(Cfg(), old(world), content, source, garbage)
    {
      hide Represents, WindowListing, MP.Parse, MP.Print, MergeOne, EvictOne;
      var parsed := new MP.HlsMediaPlaylist();
      garbage := parsed.target;
      thrown := parsed.Read(content);
      if thrown { return; }
      MergeListings(parsed.segments, source);
      EvictAll();
      Regenerate(parsed.target);
    }

    /** The merge loop, with the listings of a CDN playlist cut short. */
    method MergeListings(listings: seq<MP.Listing>, source: ItemSource)
      requires Valid()
      modifies this`segments, this`fluteFiles, this`created, this`world, cache
      ensures Valid() && old(Ids(world))
      ensures world == Merge(Cfg(), old(world), Admitted(listings, source, truncateCdnPlaylistSegments))
    {
      hide Represents, MergeOne;
      var count := |listings|;
      if source == CDN {
        count := SizeT(count - truncateCdnPlaylistSegments);
      }
      ghost var c, w := Cfg(), world;
      ghost var admitted := AdmittedCount(|listings|, source, truncateCdnPlaylistSegments);
      var idx := 0;
      assert listings[..0] == [];
      while idx < |listings|
        invariant 0 <= idx <= admitted
        invariant idx <= count + 1
        invariant Valid() && Cfg() == c
        invariant world == Merge(c, w, listings[..idx])
      {
        assert listings[..idx + 1][..idx] == listings[..idx];
        MergeListing(listings[idx]);
        idx := idx + 1;
        if idx - 1 > count { break; }
      }
      assert idx == admitted;
    }

    /** The eviction loop. */
    method EvictAll()
      requires Valid()
      modifies this`segments, this`world, cache
      ensures Valid() && old(Ids(world)) && world == Evict(old(world), SizeT(segmentsToKeep))
    {
      hide Represents, EvictOne;
      ghost var w := world;
      SameSize();
      while |segments| > SizeT(segmentsToKeep)
        invariant Valid() && |segments| == |world.window|
        invariant Evict(world, SizeT(segmentsToKeep)) == Evict(w, SizeT(segmentsToKeep))
        decreases |segments|
      {
        assert segments != map[];
        EvictOldest();
        SameSize();
      }
    }

    lemma SameSize()
      requires Valid()
      ensures |segments| == |world.window|
    {
      assert |segments| == |segments.Keys| && |world.window| == |world.window.Keys|;
    }

    method FluteFileReceived(file: FluteFile) returns (thrown: bool, ghost garbage: int)
      requires Valid()
      modifies this`segments, this`fluteFiles, this`created, this`world, cache, playlist
      ensures Valid() && old(Ids(world))
      ensures world == EdgeCache.FluteFileReceived(Cfg(), old(world), file, garbage)
      ensures thrown <==> file.location == stream.playlistPath && MP.Parse(file.content, garbage).Failure?
    {
      hide Represents, MP.Parse, EdgeCache.HandlePlaylist, Stage;
      thrown, garbage := false, 0;
      if file.location == stream.playlistPath {
        thrown, garbage := HandlePlaylist(file.content, Broadcast);
      } else if file.location == "index.m3u8" {
        // a manifest without a path is not a segment
      } else {
        StageFile(file);
      }
    }

    method StageFile(file: FluteFile)
      requires Valid()
      modifies this`fluteFiles, this`world
      ensures Valid() && world == Stage(old(world), file)
    {
      hide Represents;
      StagedShown(AsFields(), world, file);
      fluteFiles := fluteFiles[file.location := file];
      world := Stage(world, file);
    }

    /** The destructor stops the timer. */
    method Stop()
      modifies this`running
      ensures !running
    {
      running := false;
    }

    /** The periodic request for the playlist, and whether the timer is set again. */
    method TickHandler() returns (request: Option<Request>, again: bool)
      ensures again == running
      ensures request ==
        if running && cdnClient.Some? then Some(Request(cdnClient.value, stream.playlistPath)) else None
    {
      request, again := None, false;
      if !running { return; }
      if cdnClient.Some? {
        request := Some(Request(cdnClient.value, stream.playlistPath));
      }
      again := true;
    }

    /** A CDN request of one of this stream's segments completes. */
    method SegmentFetched(segment: Segment, file: CdnFile, now: nat)
      requires Valid() && segment in created && segment.cdnClient.Some? && now == world.clock
      modifies segment, this`world
      ensures Valid() && old(Ids(world))
      ensures world == EdgeCache.SegmentFetched(old(world), segment.id, file)
    {
      hide Represents;
      FetchedShown(AsFields(), world, segment.id, file);
      ghost var k :| 0 <= k < |created| && created[k] == segment;
      IdIsPosition(k);
      segment.CdnFileReceived(file, now);
      world := EdgeCache.SegmentFetched(world, segment.id, file);
    }

    lemma IdIsPosition(k: nat)
      requires Valid() && k < |created|
      ensures created[k].id == k
      ensures forall i | 0 <= i < |created| && created[i] == created[k] :: i == k
    {}

    ghost predicate OtherShown(item: CacheItem, i: Item)
      reads this, item.Objects()
    {
      match item
      case CachedSegment(_, segment) => segment in created || i == OtherSegment(segment.Value())
      case CachedPlaylist(_, cell) => cell == playlist || i == OtherPlaylist(cell.text)
      case CachedFile(_, _, _) => true
    }

    /** What other streams and services keep in the cache is in the state that `world` says. */
    ghost predicate OthersShown()
      reads this, cache, cache.Objects()
    {
      forall n | n in cache.items && n in world.cache :: OtherShown(cache.items[n], world.cache[n])
    }

    lemma EntryShown(n: string, now: nat, complete: set<nat>)
      requires Valid() && OthersShown() && n in cache.items && now == world.clock && complete == world.complete
      ensures n in world.cache && cache.items[n].AsEntry(now, complete) == ItemEntry(world, world.cache[n])
    {
      assert ItemShows(AsFields(), cache.items[n], world.cache[n]);
      assert OtherShown(cache.items[n], world.cache[n]);
    }

    lemma ViewShown(now: nat, complete: set<nat>)
      requires Valid() && OthersShown() && now == world.clock && complete == world.complete
      ensures cache.AsView(now, complete) == WorldView(world)
    {
      hide CacheItem.AsEntry, ItemEntry, ItemShows, WindowShown, CreatedShown, OthersShown;
      forall n | n in cache.items
        ensures n in world.cache && cache.items[n].AsEntry(now, complete) == ItemEntry(world, world.cache[n])
      {
        EntryShown(n, now, complete);
      }
    }

    /** The periodic check of the shared cache. */
    method CheckCache(now: nat, complete: set<nat>)
      requires Valid() && OthersShown() && now == world.clock && complete == world.complete
      modifies this`world, cache
      ensures Valid() && world == SweepCache(Cfg(), old(world))
    {
      hide Represents, OthersShown, Sweep.Kept, WorldView;
      ViewShown(now, complete);
      SweptShown(AsFields(), world, Cfg(), Sweep.Kept(WorldView(world), now, cache.limits));
      cache.CheckFileExpiryAndCacheSize(now, complete);
      world := SweepCache(Cfg(), world);
    }

    /** The GET handler: drop the leading slash, look the rest up, send the buffer. */
    method HandleGet(api: string, target: string, complete: set<nat>) returns (reply: Reply, request: Option<Request>)
      requires Valid() && OthersShown() && complete == world.complete
      ensures reply == Get(world, api, target)
      ensures request == CdnRequest(world, api, target)
    {
      hide RouteOf, Represents;
      reply, request := NotFound, None;
      var route := RouteOf(api, target);
      if route == Nowhere {
      } else if route == Api {
        reply := ApiReply;
      } else {
        reply, request := ServeCached(target, complete);
      }
    }

    method ServeCached(target: string, complete: set<nat>) returns (reply: Reply, request: Option<Request>)
      requires Valid() && OthersShown() && complete == world.complete
      ensures reply == CachedReply(world, target)
      ensures request ==
        match Lookup(world, target)
        case Some(SegmentItem(id)) => if id < |world.store| then RequestFor(world.store[id], complete) else None
        case Some(OtherSegment(v)) => RequestFor(v, complete)
        case _ => None
    {
      request := None;
      var path := if target == "" then "" else target[1..];
      if path in cache.items {
        var item := cache.items[path];
        assert ItemShows(AsFields(), item, world.cache[path]);
        assert OtherShown(item, world.cache[path]);
        var source := item.Source(complete);
        match item
        case CachedFile(_, _, file) => reply := Content(source, Body(file.content));
        case CachedPlaylist(_, cell) => reply := Content(source, Body(cell.text));
        case CachedSegment(_, segment) =>
          var buffer;
          buffer, request := segment.Buffer(complete);
          if buffer.Some? {
            reply := Content(source, buffer.value[..item.ContentLength(complete)]);
          } else {
            reply := NotFound;
          }
      } else {
        reply := NotFound;
      }
    }
  }
}
