/**
 The edge cache of one seamless stream as a value: the sliding window of segments, the staged
 broadcast files, the shared cache and the published playlist, and what each handler does to them.

 Segment objects are named by their position in `store`, the order in which they were created,
 so that window and cache can refer to the same object. The last group of fields is history:
 no handler reads it.
 */
module EdgeCache {
  import opened Wrappers
  import opened Ordering
  import opened Routing
  import opened Segments
  import opened Sweep
  import MP = MediaPlaylist

  datatype Config = Config(path: string, dir: string, keep: nat, truncate: int, cdn: Option<string>, limits: Limits)

  /** Cache entries: this stream's segments and playlist, and what other streams and services put there. */
  datatype Item =
    | SegmentItem(id: nat)
    | OwnPlaylist
    | FileItem(file: FluteFile)
    | OtherSegment(value: SegmentValue)
    | OtherPlaylist(text: string)

  datatype World = World(
    window: map<int, nat>,
    store: seq<SegmentValue>,
    staged: map<string, FluteFile>,
    cache: map<string, Item>,
    playlist: string,
    complete: set<nat>,
    clock: nat,
    // history
    target: Option<int>,
    accepted: seq<MP.Listing>,
    origins: seq<MP.Listing>,
    delivered: set<FluteFile>,
    superseded: set<FluteFile>,
    swept: set<nat>)

  /** Window entries are segments that exist, each under its own number. */
  ghost predicate Ids(w: World) {
    forall s | s in w.window :: w.window[s] < |w.store| && w.store[w.window[s]].nr == s
  }

  // ------------------------------------------------------------ handle_playlist

  /**
   How many listings the merge loop looks at: it stops behind the first index greater than the
   count, and the count of a CDN playlist is shortened in unsigned arithmetic.
   */
  function AdmittedCount(n: nat, source: ItemSource, truncate: int): nat {
    var count := if source == CDN then SizeT(n - truncate) else n;
    if n <= count + 2 then n else count + 2
  }

  function Admitted(ls: seq<MP.Listing>, source: ItemSource, truncate: int): seq<MP.Listing> {
    ls[..AdmittedCount(|ls|, source, truncate)]
  }

  /** The segment made for a listing: it claims a broadcast file staged under its URI. */
  function NewSegment(c: Config, staged: map<string, FluteFile>, l: MP.Listing): SegmentValue {
    var uri := c.dir + l.uri;
    var empty := SegmentValue(uri, l.nr, l.extinf, c.cdn, None, None, 0);
    if uri in staged then empty.(flute := Some(staged[uri]), receivedAt := staged[uri].receivedAt) else empty
  }

  /** A listing whose number is not in the window becomes a segment and enters window and cache. */
  function MergeOne(c: Config, w: World, l: MP.Listing): (r: World)
    requires Ids(w)
    ensures Ids(r)
  {
    if l.nr in w.window then w.(accepted := w.accepted + [l]) else
      var uri := c.dir + l.uri;
      var id := |w.store|;
      w.(window := w.window[l.nr := id],
         store := w.store + [NewSegment(c, w.staged, l)],
         staged := w.staged - {uri},
         cache := w.cache[uri := SegmentItem(id)],
         accepted := w.accepted + [l],
         origins := w.origins + [l])
  }

  function Merge(c: Config, w: World, ls: seq<MP.Listing>): (r: World)
    requires Ids(w)
    ensures Ids(r)
  {
    if ls == [] then w else MergeOne(c, Merge(c, w, ls[..|ls| - 1]), ls[|ls| - 1])
  }

  /** Remove the segment with the smallest number from the window and its URI from the cache. */
  function EvictOne(w: World): (r: World)
    requires Ids(w) && w.window != map[]
    ensures Ids(r) && |r.window| == |w.window| - 1
  {
    var m := MinInt(w.window.Keys);
    assert w.window.Keys - {m} == (w.window - {m}).Keys;
    w.(window := w.window - {m}, cache := w.cache - {w.store[w.window[m]].uri})
  }

  function Evict(w: World, keep: nat): (r: World)
    requires Ids(w)
    ensures Ids(r)
    decreases |w.window|
  {
    if |w.window| > keep then
      assert w.window != map[];
      Evict(EvictOne(w), keep)
    else w
  }

  /** The window in ascending order, as the printer receives it. */
  function WindowListing(w: World): seq<MP.Listing>
    requires Ids(w)
  {
    var ks := SortedInts(w.window.Keys);
    seq(|ks|, i requires 0 <= i < |ks| =>
      var s := w.store[w.window[ks[i]]];
      MP.Listing(s.uri, s.nr, s.extinf))
  }

  function Publish(w: World, target: int): World
    requires Ids(w)
  {
    w.(playlist := MP.Print(target, WindowListing(w)), target := Some(target))
  }

  /** A text that does not parse throws before anything has changed. */
  function HandlePlaylist(c: Config, w: World, content: string, source: ItemSource, garbage: int): (r: World)
    requires Ids(w)
    ensures Ids(r)
  {
    match MP.Parse(content, garbage)
    case Failure(_) => w
    case Success(p) => Publish(Evict(Merge(c, w, Admitted(p.segments, source, c.truncate)), c.keep), p.target)
  }

  // ------------------------------------------------------------ the other steps

  function Stage(w: World, file: FluteFile): World {
    w.(staged := w.staged[file.location := file],
       delivered := w.delivered + {file},
       superseded := w.superseded + if file.location in w.staged then {w.staged[file.location]} else {})
  }

  function FluteFileReceived(c: Config, w: World, file: FluteFile, garbage: int): (r: World)
    requires Ids(w)
    ensures Ids(r)
  {
    if file.location == c.path then HandlePlaylist(c, w, file.content, Broadcast, garbage)
    else if file.location == "index.m3u8" then w
    else Stage(w, file)
  }

  /** The completion of a CDN request for a segment that has a client. */
  function SegmentFetched(w: World, id: nat, file: CdnFile): (r: World)
    requires Ids(w)
    ensures Ids(r)
  {
    if id < |w.store| && w.store[id].cdnClient.Some? then
      w.(store := w.store[id := w.store[id].(cdn := Some(file), receivedAt := w.clock)])
    else w
  }

  function ItemEntry(w: World, item: Item): Entry {
    match item
    case SegmentItem(id) =>
      if id < |w.store| then Entry(w.store[id].receivedAt, LengthOf(Chosen(w.store[id], w.complete))) else Entry(0, 0)
    case FileItem(file) => Entry(file.receivedAt, U32(|file.content|))
    case OtherSegment(v) => Entry(v.receivedAt, LengthOf(Chosen(v, w.complete)))
    case OwnPlaylist => Entry(w.clock, U32(|w.playlist|))
    case OtherPlaylist(text) => Entry(w.clock, U32(|text|))
  }

  /** The cache as the sweep reads it. */
  function WorldView(w: World): View { map n | n in w.cache :: ItemEntry(w, w.cache[n]) }

  function SweepCache(c: Config, w: World): World {
    var kept := Kept(WorldView(w), w.clock, c.limits);
    w.(cache := map n | n in w.cache && n in kept :: w.cache[n],
       swept := w.swept + set n | n in w.cache && n !in kept && w.cache[n].SegmentItem? :: w.cache[n].id)
  }

  // ------------------------------------------------------------ requests

  datatype Reply = NotFound | ApiReply | Content(source: ItemSource, body: string)

  /** The GET handler drops the leading slash and looks the rest up. */
  function Lookup(w: World, target: string): Option<Item> {
    var path := if target == "" then "" else target[1..];
    if path in w.cache then Some(w.cache[path]) else None
  }

  /** What is sent of a buffer with a given length field. */
  function Body(content: string): string { content[..U32(|content|)] }

  function SegmentReply(s: SegmentValue, complete: set<nat>): Reply {
    var d := Chosen(s, complete);
    match BufferOf(d)
    case None => NotFound
    case Some(b) => Content(SourceOf(d), Body(b))
  }

  function CachedReply(w: World, target: string): Reply {
    match Lookup(w, target)
    case None => NotFound
    case Some(SegmentItem(id)) => if id < |w.store| then SegmentReply(w.store[id], w.complete) else NotFound
    case Some(FileItem(file)) => Content(Broadcast, Body(file.content))
    case Some(OtherSegment(v)) => SegmentReply(v, w.complete)
    case Some(OwnPlaylist) => Content(Generated, Body(w.playlist))
    case Some(OtherPlaylist(text)) => Content(Generated, Body(text))
  }

  /** The answer to a GET; `api` is the name that the API is reached under. */
  function Get(w: World, api: string, target: string): Reply {
    match RouteOf(api, target)
    case Nowhere => NotFound
    case Api => ApiReply
    case Cached => CachedReply(w, target)
  }

  /** What the handler asks the CDN for: a segment that has a client and no data. */
  function CdnRequest(w: World, api: string, target: string): Option<Request> {
    if RouteOf(api, target) != Cached then None else
      match Lookup(w, target)
      case Some(SegmentItem(id)) => if id < |w.store| then RequestFor(w.store[id], w.complete) else None
      case Some(OtherSegment(v)) => RequestFor(v, w.complete)
      case _ => None
  }

  // ------------------------------------------------------------ runs

  datatype Event =
    | FluteFile(file: FluteFile, garbage: int)
    | CdnPlaylist(content: string, garbage: int)
    | CdnSegment(id: nat, data: CdnFile)
    | FileCompleted(fileId: nat)
    | Tick(now: nat)
    | SweepTick
    | OtherItem(name: string, item: Item)
    | OtherRemoved(name: string)

  function Step(c: Config, w: World, e: Event): (r: World)
    requires Ids(w)
    ensures Ids(r)
  {
    match e
    case FluteFile(file, garbage) => FluteFileReceived(c, w, file, garbage)
    case CdnPlaylist(content, garbage) => HandlePlaylist(c, w, content, CDN, garbage)
    case CdnSegment(id, data) => SegmentFetched(w, id, data)
    case FileCompleted(fileId) => w.(complete := w.complete + {fileId})
    case Tick(now) => w.(clock := now)
    case SweepTick => SweepCache(c, w)
    case OtherItem(name, item) => w.(cache := w.cache[name := item])
    case OtherRemoved(name) => w.(cache := w.cache - {name})
  }

  function Run(c: Config, w: World, es: seq<Event>): (r: World)
    requires Ids(w)
    ensures Ids(r)
  {
    if es == [] then w else Step(c, Run(c, w, es[..|es| - 1]), es[|es| - 1])
  }

  // ------------------------------------------------------------ what the surroundings guarantee

  /** A delivered file is a new object. */
  ghost predicate NewFile(w: World, e: Event) {
    e.FluteFile? ==> forall f | f in w.delivered :: f.id != e.file.id
  }

  /** Files are dated, and an undated segment of another stream has no data. */
  ghost predicate Plausible(item: Item) {
    && (item.FileItem? ==> item.file.receivedAt != 0)
    && (item.OtherSegment? && item.value.receivedAt == 0 ==> item.value.flute == None && item.value.cdn == None)
  }

  /** Files arrive with a date, the clock does not show zero, and others cache plausible items. */
  ghost predicate Dates(w: World, e: Event) {
    match e
    case FluteFile(file, _) => file.receivedAt != 0
    case Tick(now) => now != 0
    case OtherItem(_, item) => Plausible(item)
    case _ => true
  }

  /** An item of another stream or of a service. */
  predicate Foreign(item: Item) { !item.SegmentItem? && !item.OwnPlaylist? }

  /** No segment in the window goes by this name. */
  ghost predicate Free(w: World, name: string) {
    forall s | s in w.window && w.window[s] < |w.store| :: w.store[w.window[s]].uri != name
  }

  /** Others leave the names of the segments in the window alone. */
  ghost predicate Spares(w: World, e: Event) {
    match e
    case OtherItem(name, item) => Free(w, name) && Foreign(item)
    case OtherRemoved(name) => Free(w, name)
    case _ => true
  }

  /** A guarantee holds at every step of a run. */
  ghost predicate Throughout(c: Config, w: World, es: seq<Event>, p: (World, Event) -> bool)
    requires Ids(w)
  {
    es == [] || (Throughout(c, w, es[..|es| - 1], p) && p(Run(c, w, es[..|es| - 1]), es[|es| - 1]))
  }

  /**
   Before the first playlist; the playlist text is still "none". Whatever others have put into the cache is there,
   and the playlist under every path that an endpoint has given it.
   */
  ghost predicate Initial(w: World) {
    && w.window == map[] && w.store == [] && w.staged == map[] && w.playlist == "none"
    && w.target == None && w.accepted == [] && w.origins == []
    && w.delivered == {} && w.superseded == {} && w.swept == {}
    && forall n | n in w.cache :: !w.cache[n].SegmentItem?
  }

  /** The state after `set_cdn_endpoint` has run for each of the given playlist paths. */
  function Registered(w: World, paths: seq<string>): World {
    if paths == [] then w else
      var r := Registered(w, paths[..|paths| - 1]);
      r.(cache := r.cache[paths[|paths| - 1] := OwnPlaylist])
  }

  /** Different numbers have different URIs. */
  ghost predicate Distinct(ls: seq<MP.Listing>) {
    forall a, b | a in ls && b in ls && a.nr != b.nr :: a.uri != b.uri
  }

  /** No segment is called like the playlist. */
  ghost predicate Apart(c: Config, ls: seq<MP.Listing>) { forall l | l in ls :: c.dir + l.uri != c.path }
}
