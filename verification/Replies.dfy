/** What a GET sends, told from the fields of the files and texts: 32-bit lengths of their own contents. */
module Replies {
  import opened Wrappers
  import opened Routing
  import opened Segments
  import opened EdgeCache

  /** The bytes of a segment: the complete broadcast file, else the CDN's answer, else nothing. */
  lemma SegmentSends(w: World, api: string, name: string, id: nat)
    requires RouteOf(api, "/" + name) == Cached && name in w.cache && w.cache[name] == SegmentItem(id) && id < |w.store|
    ensures var s, r := w.store[id], Get(w, api, "/" + name);
      if s.flute.Some? && s.flute.value.id in w.complete then
        var b := s.flute.value.content;
        r == Content(Broadcast, b[..|b| % 0x1_0000_0000]) && (|b| < 0x1_0000_0000 ==> r == Content(Broadcast, b))
      else if s.cdn.Some? then
        var b := s.cdn.value.content;
        r == Content(CDN, b[..|b| % 0x1_0000_0000]) && (|b| < 0x1_0000_0000 ==> r == Content(CDN, b))
      else r == NotFound
  {
    hide RouteOf;
    assert ("/" + name)[1..] == name;
  }

  /** The same for a segment of another stream. */
  lemma OtherSegmentSends(w: World, api: string, name: string, s: SegmentValue)
    requires RouteOf(api, "/" + name) == Cached && name in w.cache && w.cache[name] == OtherSegment(s)
    ensures var r := Get(w, api, "/" + name);
      if s.flute.Some? && s.flute.value.id in w.complete then
        var b := s.flute.value.content;
        r == Content(Broadcast, b[..|b| % 0x1_0000_0000]) && (|b| < 0x1_0000_0000 ==> r == Content(Broadcast, b))
      else if s.cdn.Some? then
        var b := s.cdn.value.content;
        r == Content(CDN, b[..|b| % 0x1_0000_0000]) && (|b| < 0x1_0000_0000 ==> r == Content(CDN, b))
      else r == NotFound
  {
    hide RouteOf;
    assert ("/" + name)[1..] == name;
  }

  /** Files, playlists and manifests are sent as they are; what is not cached is not found. */
  lemma TextSends(w: World, api: string, name: string)
    requires RouteOf(api, "/" + name) == Cached
    ensures var r := Get(w, api, "/" + name);
      && (name !in w.cache ==> r == NotFound)
      && (name in w.cache && w.cache[name].FileItem? ==>
            var b := w.cache[name].file.content;
            r == Content(Broadcast, b[..|b| % 0x1_0000_0000]) && (|b| < 0x1_0000_0000 ==> r == Content(Broadcast, b)))
      && (name in w.cache && w.cache[name].OtherPlaylist? ==>
            var b := w.cache[name].text;
            r == Content(Generated, b[..|b| % 0x1_0000_0000]) && (|b| < 0x1_0000_0000 ==> r == Content(Generated, b)))
      && (name in w.cache && w.cache[name].OwnPlaylist? ==>
            var b := w.playlist;
            r == Content(Generated, b[..|b| % 0x1_0000_0000]) && (|b| < 0x1_0000_0000 ==> r == Content(Generated, b)))
  {
    hide RouteOf;
    assert ("/" + name)[1..] == name;
  }

  /** Without a path nothing is found, and the API's name is left to the API, whatever is cached. */
  lemma OtherRoutes(w: World, api: string, target: string)
    ensures RouteOf(api, target) == Nowhere ==> Get(w, api, target) == NotFound
    ensures RouteOf(api, target) == Api ==> Get(w, api, target) == ApiReply
    ensures RouteOf(api, target) != Cached ==> CdnRequest(w, api, target) == None
  {
    hide RouteOf;
  }

  /** The CDN is asked for a location exactly when it is that of a segment with a client and without any data. */
  lemma AsksCdnIff(w: World, api: string, name: string, request: Request)
    requires RouteOf(api, "/" + name) == Cached
    requires name in w.cache ==> (w.cache[name].SegmentItem? ==> w.cache[name].id < |w.store|)
    ensures CdnRequest(w, api, "/" + name) == Some(request) <==>
      && name in w.cache
      && (w.cache[name].SegmentItem? || w.cache[name].OtherSegment?)
      && var s := if w.cache[name].SegmentItem? then w.store[w.cache[name].id] else w.cache[name].value;
         && !(s.flute.Some? && s.flute.value.id in w.complete) && s.cdn == None
         && s.cdnClient == Some(request.base) && request.location == s.uri
  {
    hide RouteOf;
    assert ("/" + name)[1..] == name;
  }
}
