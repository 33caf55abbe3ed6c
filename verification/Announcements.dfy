/**
 Source resolution for `r12:alternativeContent`: which streams a service announcement starts,
 with broadcast parameters from SDP items and a CDN endpoint from `r12:identicalContent`.
 The XML tree is given as the lists that the sibling loops run over.
 */
module Announcements {
  import opened Wrappers
  import opened Cache
  import opened ContentStreams
  import opened Endpoints
  import opened SeamlessStream
  import opened Services
  import EdgeCache
  import Runs
  import opened Ordering
  import PP = PrimaryPlaylist
  import Text

  const SDP_TYPE := "application/sdp"

  datatype Item = Item(contentType: string, uri: string, content: string)

  datatype DeliveryMethod = DeliveryMethod(sdpUri: string, basePattern: string)

  datatype Announcement = Announcement(
    bases: seq<string>, methods: seq<DeliveryMethod>, items: seq<Item>, identical: seq<seq<string>>,
    seamless: bool, hls: bool)

  /** What endpoints leave in a stream: the base of its client, its playlist path, and the paths cached on the way. */
  datatype Cdn = Cdn(client: Option<string>, path: string, registered: seq<string>)

  /** A content stream after resolution, and the flag of the broadcast search. */
  datatype Resolution = Resolution(base: string, session: Session, cdn: Cdn, available: bool)

  // ------------------------------------------------------------ what the loops compute

  datatype Probe = Probe(session: Session, path: string, available: bool)

  const UNPROBED := Probe(UNSET, "", false)

  predicate IsSdp(item: Item, m: DeliveryMethod) { item.contentType == SDP_TYPE && item.uri == m.sdpUri }

  function ProbeItem(p: Probe, item: Item, m: DeliveryMethod, hls: bool): Result<Probe> {
    var path := if item.uri == m.basePattern then ManifestPath(p.path, item.content, hls) else Success(p.path);
    match path
    case Failure(e) => Failure(e)
    case Success(q) =>
      if IsSdp(item, m) then
        match Sdp(p.session, item.content)
        case Failure(e) => Failure(e)
        case Success(s) => Success(Probe(s, q, Complete(s)))
      else Success(p.(path := q))
  }

  function ProbeItems(p: Probe, items: seq<Item>, m: DeliveryMethod, hls: bool): Result<Probe> {
    if items == [] then Success(p) else
      match ProbeItems(p, items[..|items| - 1], m, hls)
      case Failure(e) => Failure(e)
      case Success(q) => ProbeItem(q, items[|items| - 1], m, hls)
  }

  function ProbeMethods(a: Announcement, base: string, methods: seq<DeliveryMethod>): Result<Probe> {
    if methods == [] then Success(UNPROBED) else
      match ProbeMethods(a, base, methods[..|methods| - 1])
      case Failure(e) => Failure(e)
      case Success(p) =>
        var m := methods[|methods| - 1];
        if m.basePattern == base then ProbeItems(p, a.items, m, a.hls) else Success(p)
  }

  /** The last base in a group that is not the given one; empty when there is none. */
  function Other(group: seq<string>, base: string): string {
    if group == [] then ""
    else if group[|group| - 1] != base then group[|group| - 1]
    else Other(group[..|group| - 1], base)
  }

  /** A group names an endpoint for a base when it has the base and another one. */
  predicate Pairs(group: seq<string>, base: string) { base in group && Other(group, base) != "" }

  function SetEndpoint(k: Cdn, endpoint: string, parse: UriParser): Result<Cdn> {
    match Usable(parse, endpoint)
    case None => Failure("no client for this endpoint")
    case Some(e) =>
      var path := PlaylistPath(e.path, e.query);
      Success(Cdn(Some(e.base), path, k.registered + [path]))
  }

  function Identical(k: Cdn, groups: seq<seq<string>>, base: string, parse: UriParser): Result<Cdn> {
    if groups == [] then Success(k) else
      match Identical(k, groups[..|groups| - 1], base, parse)
      case Failure(m) => Failure(m)
      case Success(x) =>
        var g := groups[|groups| - 1];
        if Pairs(g, base) then SetEndpoint(x, Other(g, base), parse) else Success(x)
  }

  function FoundEndpoints(a: Announcement, base: string, p: Probe, parse: UriParser): Result<Cdn> {
    var k := Cdn(None, p.path, []);
    if !a.seamless then Success(k)
    else if p.available then Identical(k, a.identical, base, parse)
    else SetEndpoint(k, base, parse)
  }

  function Resolve(a: Announcement, base: string, parse: UriParser): Result<Resolution> {
    match ProbeMethods(a, base, a.methods)
    case Failure(e) => Failure(e)
    case Success(p) =>
      match FoundEndpoints(a, base, p, parse)
      case Failure(e) => Failure(e)
      case Success(cdn) => Success(Resolution(base, p.session, cdn, p.available))
  }

  predicate Starts(a: Announcement, r: Resolution) { r.available || (a.seamless && !r.available) }

  /** Streams started up to the first exception, and whether there was one. */
  function Started(a: Announcement, bases: seq<string>, parse: UriParser): (seq<Resolution>, bool) {
    if bases == [] then ([], false) else
      var (rs, thrown) := Started(a, bases[..|bases| - 1], parse);
      if thrown then (rs, true) else
        match Resolve(a, bases[|bases| - 1], parse)
        case Failure(_) => (rs, true)
        case Success(r) => (if Starts(a, r) then rs + [r] else rs, false)
  }

  // ------------------------------------------------------------ the loops

  /** The loop over the announcement's items for one matching delivery method. */
  method SearchItems(a: Announcement, m: DeliveryMethod, cs: ContentStream, flag: bool, ghost p: Probe)
    returns (thrown: bool, available: bool)
    requires cs.hls == a.hls && p == Probe(cs.session, cs.playlistPath, flag)
    modifies cs`session, cs`playlistPath
    ensures thrown == ProbeItems(p, a.items, m, a.hls).Failure?
    ensures !thrown ==> ProbeItems(p, a.items, m, a.hls) == Success(Probe(cs.session, cs.playlistPath, available))
  {
    hide ManifestPath, Sdp, Complete, ProbeItem;
    thrown, available := false, flag;
    var i := 0;
    assert a.items[..0] == [];
    while i < |a.items|
      invariant 0 <= i <= |a.items|
      invariant ProbeItems(p, a.items[..i], m, a.hls) == Success(Probe(cs.session, cs.playlistPath, available))
    {
      assert a.items[..i + 1][..i] == a.items[..i];
      ItemsFailure(p, a.items, m, a.hls, i + 1);
      thrown, available := SearchItem(a.items[i], m, cs, available);
      if thrown { return; }
      i := i + 1;
    }
    assert a.items[..i] == a.items;
  }

  /** Body of that loop. */
  method SearchItem(item: Item, m: DeliveryMethod, cs: ContentStream, flag: bool)
    returns (thrown: bool, available: bool)
    modifies cs`session, cs`playlistPath
    ensures var r := ProbeItem(Probe(old(cs.session), old(cs.playlistPath), flag), item, m, cs.hls);
      && thrown == r.Failure?
      && (!thrown ==> r == Success(Probe(cs.session, cs.playlistPath, available)))
  {
    hide ManifestPath, Sdp, Complete;
    thrown, available := false, flag;
    if item.uri == m.basePattern {
      thrown := cs.ReadMasterManifest(item.content);
      if thrown { return; }
    }
    if item.contentType == SDP_TYPE && item.uri == m.sdpUri {
      thrown, available := cs.Configure5gbcDeliveryFromSdp(item.content);
    }
  }

  /** The loop over the delivery methods. */
  method SearchBroadcast(a: Announcement, base: string, cs: ContentStream) returns (thrown: bool, available: bool)
    requires cs.hls == a.hls && cs.session == UNSET && cs.playlistPath == ""
    modifies cs`session, cs`playlistPath
    ensures thrown == ProbeMethods(a, base, a.methods).Failure?
    ensures !thrown ==> ProbeMethods(a, base, a.methods) == Success(Probe(cs.session, cs.playlistPath, available))
  {
    hide ProbeItems;
    thrown, available := false, false;
    var i := 0;
    assert a.methods[..0] == [];
    while i < |a.methods|
      invariant 0 <= i <= |a.methods|
      invariant ProbeMethods(a, base, a.methods[..i]) == Success(Probe(cs.session, cs.playlistPath, available))
    {
      assert a.methods[..i + 1][..i] == a.methods[..i];
      MethodsFailure(a, base, a.methods, i + 1);
      var m := a.methods[i];
      if m.basePattern == base {
        thrown, available := SearchItems(a, m, cs, available, Probe(cs.session, cs.playlistPath, available));
        if thrown { return; }
      }
      i := i + 1;
    }
    assert a.methods[..i] == a.methods;
  }

  /** The loop over one identicalContent group. */
  method SearchGroup(group: seq<string>, base: string) returns (matched: bool, other: string)
    ensures matched <==> base in group
    ensures other == Other(group, base)
  {
    matched, other := false, "";
    var i := 0;
    assert group[..0] == [];
    while i < |group|
      invariant 0 <= i <= |group|
      invariant matched <==> base in group[..i]
      invariant other == Other(group[..i], base)
    {
      assert group[..i + 1] == group[..i] + [group[i]] && group[..i + 1][..i] == group[..i];
      if base == group[i] {
        matched := true;
      } else {
        other := group[i];
      }
      i := i + 1;
    }
    assert group[..i] == group;
  }

  /** The loop over the identicalContent groups; `registered` are the paths under which the playlist got cached. */
  method SearchIdentical(a: Announcement, base: string, parse: UriParser, s: SeamlessContentStream)
    returns (thrown: bool, ghost registered: seq<string>)
    requires s.Valid() && s.cdnClient == None
    modifies s.stream`playlistPath, s`playlistDir, s`cdnClient, s`world, s.cache
    ensures s.Valid() && s.world == EdgeCache.Registered(old(s.world), registered)
    ensures var r := Identical(Cdn(None, old(s.stream.playlistPath), []), a.identical, base, parse);
      && thrown == r.Failure?
      && (!thrown ==> r == Success(Cdn(s.cdnClient, s.stream.playlistPath, registered)))
    ensures old(s.cache.DatesAgree()) ==> s.cache.DatesAgree()
  {
    hide *;
    thrown, registered := false, [];
    ghost var k, w := Cdn(None, s.stream.playlistPath, []), s.world;
    var i := 0;
    NoGroups(k, a.identical, base, parse);
    RegisteredFew(w, "");
    while i < |a.identical|
      invariant 0 <= i <= |a.identical|
      invariant s.Valid() && s.world == EdgeCache.Registered(w, registered)
      invariant Identical(k, a.identical[..i], base, parse) ==
                  Success(Cdn(s.cdnClient, s.stream.playlistPath, registered))
      invariant old(s.cache.DatesAgree()) ==> s.cache.DatesAgree()
    {
      IdenticalSnoc(k, a.identical, base, parse, i, Cdn(s.cdnClient, s.stream.playlistPath, registered));
      var matched, other := SearchGroup(a.identical[i], base);
      if matched && |other| > 0 {
        thrown := s.SetCdnEndpoint(other, parse);
        if thrown { return; }
        RegisteredSnoc(w, registered, s.stream.playlistPath);
        registered := registered + [s.stream.playlistPath];
      }
      i := i + 1;
    }
    assert a.identical[..i] == a.identical;
  }

  lemma NoGroups(k: Cdn, groups: seq<seq<string>>, base: string, parse: UriParser)
    ensures groups[..0] == [] && Identical(k, groups[..0], base, parse) == Success(k)
  {}

  lemma RegisteredFew(w: EdgeCache.World, p: string)
    ensures EdgeCache.Registered(w, []) == w
    ensures EdgeCache.Registered(w, [p]) == w.(cache := w.cache[p := EdgeCache.OwnPlaylist])
  {
    assert [p][..0] == [];
  }

  lemma RegisteredSnoc(w: EdgeCache.World, paths: seq<string>, p: string)
    ensures var r := EdgeCache.Registered(w, paths);
      EdgeCache.Registered(w, paths + [p]) == r.(cache := r.cache[p := EdgeCache.OwnPlaylist])
  {
    assert (paths + [p])[..|paths|] == paths;
  }

  /** What one group adds to the search. */
  lemma IdenticalSnoc(k: Cdn, groups: seq<seq<string>>, base: string, parse: UriParser, i: nat, x: Cdn)
    requires i < |groups| && Identical(k, groups[..i], base, parse) == Success(x)
    ensures var r, other := Identical(k, groups[..i + 1], base, parse), Other(groups[i], base);
      if base in groups[i] && |other| > 0 then
        if Usable(parse, other).None? then Identical(k, groups, base, parse).Failure? else
          var e := Usable(parse, other).value;
          var path := PlaylistPath(e.path, e.query);
          r == Success(Cdn(Some(e.base), path, x.registered + [path]))
      else r == Success(x)
  {
    hide PlaylistPath, Other;
    assert groups[..i + 1][..i] == groups[..i];
    IdenticalFailure(k, groups, base, parse, i + 1);
  }

  lemma {:induction false} IdenticalFailure(
    k: Cdn, groups: seq<seq<string>>, base: string, parse: UriParser, n: nat)
    requires n <= |groups|
    ensures Identical(k, groups[..n], base, parse).Failure? ==> Identical(k, groups, base, parse).Failure?
    decreases |groups| - n
  {
    hide SetEndpoint, Pairs;
    if n == |groups| {
      assert groups[..n] == groups;
    } else {
      assert groups[..n + 1][..n] == groups[..n];
      IdenticalFailure(k, groups, base, parse, n + 1);
    }
  }

  lemma EndpointsAre(a: Announcement, base: string, p: Probe, parse: UriParser)
    requires a.seamless
    ensures var r := FoundEndpoints(a, base, p, parse);
      if p.available then r == Identical(Cdn(None, p.path, []), a.identical, base, parse)
      else if Usable(parse, base).None? then r.Failure?
      else
        var e := Usable(parse, base).value;
        var path := PlaylistPath(e.path, e.query);
        r == Success(Cdn(Some(e.base), path, [path]))
  {
    hide PlaylistPath, Identical;
    if !p.available && Usable(parse, base).Some? {
      var e := Usable(parse, base).value;
      assert [] + [PlaylistPath(e.path, e.query)] == [PlaylistPath(e.path, e.query)];
    }
  }

  /** The endpoints of a seamless stream: the base itself when it is not broadcast, else what groups pair it with. */
  method FindEndpoints(a: Announcement, base: string, parse: UriParser, s: SeamlessContentStream, ghost p: Probe,
                       broadcast: bool)
    returns (thrown: bool, unicast: bool, ghost registered: seq<string>)
    requires a.seamless && s.Valid() && s.cdnClient == None
    requires p.path == s.stream.playlistPath && p.available == broadcast
    modifies s.stream`playlistPath, s`playlistDir, s`cdnClient, s`world, s.cache
    ensures s.Valid() && s.world == EdgeCache.Registered(old(s.world), registered)
    ensures thrown == FoundEndpoints(a, base, p, parse).Failure?
    ensures !thrown ==>
      FoundEndpoints(a, base, p, parse) == Success(Cdn(s.cdnClient, s.stream.playlistPath, registered))
    ensures !thrown ==> unicast == !broadcast
    ensures old(s.cache.DatesAgree()) ==> s.cache.DatesAgree()
  {
    hide *;
    EndpointsAre(a, base, p, parse);
    unicast, registered := false, [];
    ghost var w := s.world;
    RegisteredFew(w, "");
    if !broadcast {
      thrown := s.SetCdnEndpoint(base, parse);
      if !thrown {
        RegisteredFew(w, s.stream.playlistPath);
        registered := [s.stream.playlistPath];
      }
      unicast := true;
    } else {
      thrown, registered := SearchIdentical(a, base, parse, s);
    }
  }

  /**
   One base pattern of the alternativeContent element. A seamless stream is left in the state in which its runs
   start: new, with its playlist registered under the path of every endpoint it was given.
   */
  method SetupBase(a: Announcement, base: string, parse: UriParser, cache: CacheManagement,
                   segmentsToKeep: int, truncate: int, ghost now: nat, ghost complete: set<nat>)
    returns (thrown: bool, cs: ContentStream, s: SeamlessContentStream?,
             ghost registered: seq<string>, available: bool, start: bool)
    requires cache.DatesAgree()
    modifies cache
    ensures fresh(cs) && cs.resolution == "" && cs.codecs == "" && cs.receiver == None && cache.DatesAgree()
    ensures a.seamless <==> s != null
    ensures s != null ==>
      && fresh(s) && s.stream == cs && s.cache == cache && s.Valid()
      && s.world == EdgeCache.Registered(old(StartIn(cache, now, complete)), registered)
      && EdgeCache.Initial(s.world)
    ensures s == null ==> registered == [] && cache.items == old(cache.items)
    ensures cache.items.Keys == old(cache.items.Keys) + Set(registered)
    ensures thrown == Resolve(a, base, parse).Failure?
    ensures !thrown ==>
      var r := Resolve(a, base, parse).value;
      && r == Resolution(cs.base, cs.session, Cdn(ClientOf(s), cs.playlistPath, registered), available)
      && start == Starts(a, r)
  {
    hide ProbeMethods, FoundEndpoints, EdgeCache.Registered, EdgeCache.Initial, StartIn, SeamlessContentStream.Valid;
    registered, start := [], false;
    ghost var w0 := StartIn(cache, now, complete);
    NewStreamStarts(cache, now, complete);
    RegisteredFew(w0, "");
    if a.seamless {
      s := new SeamlessContentStream(base, a.hls, cache, segmentsToKeep, truncate, now, complete);
      cs := s.stream;
    } else {
      s := null;
      cs := new ContentStream(base, a.hls);
    }
    thrown, available := SearchBroadcast(a, base, cs);
    if thrown { return; }
    var unicast := false;
    if s != null {
      thrown, unicast, registered :=
        FindEndpoints(a, base, parse, s, Probe(cs.session, cs.playlistPath, available), available);
      Runs.EndpointStartsRun(w0, registered);
      CacheKeys(s);
      if thrown { return; }
    } else {
      NotSeamless(a, base, Probe(cs.session, cs.playlistPath, available), parse);
    }
    start := unicast || available;
  }

  function ClientOf(s: SeamlessContentStream?): Option<string>
    reads s
  {
    if s == null then None else s.cdnClient
  }

  function Set(paths: seq<string>): set<string> { set p | p in paths }

  lemma NotSeamless(a: Announcement, base: string, p: Probe, parse: UriParser)
    requires !a.seamless
    ensures FoundEndpoints(a, base, p, parse) == Success(Cdn(None, p.path, []))
  {}

  lemma NewStreamStarts(cache: CacheManagement, now: nat, complete: set<nat>)
    ensures var w := StartIn(cache, now, complete);
      EdgeCache.Initial(w) && w.cache.Keys == cache.items.Keys
  {}

  lemma CacheKeys(s: SeamlessContentStream)
    requires s.Valid()
    ensures s.cache.items.Keys == s.world.cache.Keys
  {}

  /** The paths cached for the playlists of some streams. */
  function AllRegistered(rs: seq<Resolution>): set<string> {
    if rs == [] then {} else AllRegistered(rs[..|rs| - 1]) + Set(rs[|rs| - 1].cdn.registered)
  }

  /** Streams as the service gets them: no attributes yet, and the path that resolution has found. */
  ghost predicate Handed(rs: seq<Resolution>, ss: seq<PP.Stream>) {
    |ss| == |rs| && forall i | 0 <= i < |rs| ::
      ss[i].uri == rs[i].cdn.path && ss[i].resolution == "" && ss[i].codecs == ""
  }

  lemma HandedOne(rs: seq<Resolution>, ss: seq<PP.Stream>, r: Resolution, x: PP.Stream)
    requires Handed(rs, ss) && x.uri == r.cdn.path && x.resolution == "" && x.codecs == ""
    ensures Handed(rs + [r], ss + [x]) && Paths(ss + [x]) == Paths(ss) + {x.uri}
    ensures AllRegistered(rs + [r]) == AllRegistered(rs) + Set(r.cdn.registered)
  {
    assert (rs + [r])[..|rs|] == rs;
    assert forall y :: y in ss + [x] <==> y in ss || y == x;
  }

  /**
   The loop over the base patterns. `started` are the resolutions of the streams handed to the service, in order,
   and `handed` the streams at that moment; bandwidth and frame rate are not initialized then.
   */
  method SetupByAlternativeContentElement(a: Announcement, parse: UriParser, service: Service,
                                          segmentsToKeep: int, truncate: int, ghost now: nat, ghost complete: set<nat>)
    returns (thrown: bool, ghost started: seq<Resolution>, ghost handed: seq<PP.Stream>)
    requires service.Valid() && service.cache.DatesAgree() && (a.hls <==> service.protocol == HLS)
    modifies service`contentStreams, service.manifest, service.cache
    ensures service.Valid() && Started(a, a.bases, parse) == (started, thrown) && Handed(started, handed)
    ensures service.contentStreams.Keys == old(service.contentStreams.Keys) + Paths(handed)
    ensures a.hls ==> service.AsState() == AddAll(old(service.AsState()), handed)
    ensures !thrown && a.seamless ==>
      service.cache.items.Keys == old(service.cache.items.Keys) + AllRegistered(started)
  {
    hide *;
    thrown, started, handed := false, [], [];
    var i := 0;
    ghost var st, keys, names := service.AsState(), service.contentStreams.Keys, service.cache.items.Keys;
    NothingStarted(a, parse, st);
    while i < |a.bases|
      invariant 0 <= i <= |a.bases|
      invariant Started(a, a.bases[..i], parse) == (started, false)
      invariant service.Valid() && service.cache.DatesAgree() && Handed(started, handed)
      invariant service.contentStreams.Keys == keys + Paths(handed)
      invariant a.hls ==> service.AsState() == AddAll(st, handed)
      invariant a.seamless ==> service.cache.items.Keys == names + AllRegistered(started)
    {
      StartedSnoc(a, parse, i);
      var start;
      ghost var r, x;
      thrown, r, x, start := StartBase(a, a.bases[i], parse, service, segmentsToKeep, truncate, now, complete);
      if thrown { return; }
      if start {
        HandedOne(started, handed, r, x);
        AddAllSnoc(st, handed, x);
        started, handed := started + [r], handed + [x];
      }
      i := i + 1;
    }
    assert a.bases[..i] == a.bases;
  }

  /** Body of that loop: resolve one base pattern, and hand the stream to the service if it has a source. */
  method StartBase(a: Announcement, base: string, parse: UriParser, service: Service,
                   segmentsToKeep: int, truncate: int, ghost now: nat, ghost complete: set<nat>)
    returns (thrown: bool, ghost r: Resolution, ghost x: PP.Stream, start: bool)
    requires service.Valid() && service.cache.DatesAgree() && (a.hls <==> service.protocol == HLS)
    modifies service`contentStreams, service.manifest, service.cache
    ensures service.Valid() && service.cache.DatesAgree() && thrown == Resolve(a, base, parse).Failure?
    ensures thrown || !start ==>
      service.AsState() == old(service.AsState()) && service.contentStreams == old(service.contentStreams)
    ensures !thrown ==> Resolve(a, base, parse) == Success(r) && start == Starts(a, r)
    ensures !thrown && a.seamless ==>
      start && service.cache.items.Keys == old(service.cache.items.Keys) + Set(r.cdn.registered)
    ensures !thrown && start ==>
      && x.uri == r.cdn.path && x.resolution == "" && x.codecs == ""
      && service.contentStreams.Keys == old(service.contentStreams.Keys) + {x.uri}
      && (a.hls ==> service.AsState() == Add(old(service.AsState()), x))
  {
    hide Resolve, Starts, Add, StartIn, SeamlessContentStream.Valid, EdgeCache.Registered, ReceiverFor;
    ghost var st := service.AsState();
    r, x := Resolution("", UNSET, Cdn(None, "", []), false), PP.Stream("", "", "", 0, 0);
    var cs, s, available;
    ghost var registered;
    thrown, cs, s, registered, available, start :=
      SetupBase(a, base, parse, service.cache, segmentsToKeep, truncate, now, complete);
    assert service.AsState() == st;
    if thrown { return; }
    r := Resolve(a, base, parse).value;
    if a.seamless { SeamlessStarts(a, base, parse); }
    if start {
      x := cs.AsStream();
      service.AddAndStartContentStream(cs);
    }
  }

  lemma NothingStarted(a: Announcement, parse: UriParser, st: State)
    ensures a.bases[..0] == [] && Started(a, a.bases[..0], parse) == ([], false)
    ensures Handed([], []) && Paths([]) == {} && AddAll(st, []) == st && AllRegistered([]) == {}
  {}

  lemma StartedSnoc(a: Announcement, parse: UriParser, i: nat)
    requires i < |a.bases|
    requires !Started(a, a.bases[..i], parse).1
    ensures var rs, x := Started(a, a.bases[..i], parse).0, Resolve(a, a.bases[i], parse);
      if x.Failure? then Started(a, a.bases, parse) == (rs, true)
      else Started(a, a.bases[..i + 1], parse) == (if Starts(a, x.value) then rs + [x.value] else rs, false)
  {
    hide Resolve, Starts;
    assert a.bases[..i + 1][..i] == a.bases[..i];
    StartedFailure(a, a.bases, parse, i + 1);
  }

  lemma AddAllSnoc(st: State, ss: seq<PP.Stream>, x: PP.Stream)
    ensures AddAll(st, ss + [x]) == Add(AddAll(st, ss), x)
  {
    assert (ss + [x])[..|ss|] == ss;
  }

  lemma SeamlessStarts(a: Announcement, base: string, parse: UriParser)
    requires Resolve(a, base, parse).Success? && a.seamless
    ensures Starts(a, Resolve(a, base, parse).value)
  {}

  lemma {:induction false} ItemsFailure(p: Probe, items: seq<Item>, m: DeliveryMethod, hls: bool, k: nat)
    requires k <= |items|
    ensures ProbeItems(p, items[..k], m, hls).Failure? ==> ProbeItems(p, items, m, hls).Failure?
    decreases |items| - k
  {
    hide ProbeItem;
    if k == |items| {
      assert items[..k] == items;
    } else {
      assert items[..k + 1][..k] == items[..k];
      ItemsFailure(p, items, m, hls, k + 1);
    }
  }

  lemma {:induction false} MethodsFailure(a: Announcement, base: string, methods: seq<DeliveryMethod>, k: nat)
    requires k <= |methods|
    ensures ProbeMethods(a, base, methods[..k]).Failure? ==> ProbeMethods(a, base, methods).Failure?
    decreases |methods| - k
  {
    hide ProbeItems;
    if k == |methods| {
      assert methods[..k] == methods;
    } else {
      assert methods[..k + 1][..k] == methods[..k];
      MethodsFailure(a, base, methods, k + 1);
    }
  }

  /** After an exception nothing more is started. */
  lemma {:induction false} StartedFailure(a: Announcement, bases: seq<string>, parse: UriParser, k: nat)
    requires k <= |bases|
    ensures Started(a, bases[..k], parse).1 ==> Started(a, bases, parse) == Started(a, bases[..k], parse)
    decreases |bases| - k
  {
    hide Resolve;
    if k == |bases| {
      assert bases[..k] == bases;
    } else {
      assert bases[..k + 1][..k] == bases[..k];
      StartedFailure(a, bases, parse, k + 1);
    }
  }

  // ------------------------------------------------------------ the declarative choice

  /** Contents of the SDP items of one delivery method, in order. */
  function SdpContents(items: seq<Item>, m: DeliveryMethod): seq<string> {
    if items == [] then [] else
      SdpContents(items[..|items| - 1], m) + if IsSdp(items[|items| - 1], m) then [items[|items| - 1].content] else []
  }

  /** All session descriptions that apply to a base, in the order in which they are met. */
  function Descriptions(a: Announcement, base: string, methods: seq<DeliveryMethod>): seq<string> {
    if methods == [] then [] else
      var m := methods[|methods| - 1];
      Descriptions(a, base, methods[..|methods| - 1]) + if m.basePattern == base then SdpContents(a.items, m) else []
  }

  function FoldSdps(s: Session, sdps: seq<string>): Result<Session> {
    if sdps == [] then Success(s) else
      match FoldSdps(s, sdps[..|sdps| - 1])
      case Failure(e) => Failure(e)
      case Success(t) => Sdp(t, sdps[|sdps| - 1])
  }

  lemma {:induction false} FoldSdpsConcat(s: Session, x: seq<string>, y: seq<string>)
    ensures FoldSdps(s, x + y) ==
            match FoldSdps(s, x) case Failure(e) => Failure(e) case Success(t) => FoldSdps(t, y)
  {
    if y == [] {
      assert x + y == x;
    } else {
      assert (x + y)[..|x + y| - 1] == x + y[..|y| - 1];
      FoldSdpsConcat(s, x, y[..|y| - 1]);
    }
  }

  /** The flag after some descriptions: as before when there were none, else whether the parameters are complete. */
  function FlagAfter(before: bool, sdps: seq<string>, s: Session): bool { if sdps == [] then before else Complete(s) }

  lemma {:induction false} ItemsAreFold(p: Probe, items: seq<Item>, m: DeliveryMethod, hls: bool)
    requires ProbeItems(p, items, m, hls).Success?
    ensures var r := ProbeItems(p, items, m, hls).value;
      var sdps := SdpContents(items, m);
      FoldSdps(p.session, sdps) == Success(r.session) && r.available == FlagAfter(p.available, sdps, r.session)
  {
    hide ManifestPath, Sdp, Complete;
    if items != [] {
      var rest, item := items[..|items| - 1], items[|items| - 1];
      ItemsAreFold(p, rest, m, hls);
      var sdps := SdpContents(rest, m);
      if IsSdp(item, m) {
        assert (sdps + [item.content])[..|sdps|] == sdps;
      } else {
        assert sdps + [] == sdps;
      }
    }
  }

  lemma {:induction false} MethodsAreFold(a: Announcement, base: string, methods: seq<DeliveryMethod>)
    requires ProbeMethods(a, base, methods).Success?
    ensures var r := ProbeMethods(a, base, methods).value;
      var sdps := Descriptions(a, base, methods);
      FoldSdps(UNSET, sdps) == Success(r.session) && r.available == (sdps != [] && Complete(r.session))
  {
    hide ProbeItems, Sdp, Complete;
    if methods != [] {
      var rest, m := methods[..|methods| - 1], methods[|methods| - 1];
      MethodsAreFold(a, base, rest);
      var p := ProbeMethods(a, base, rest).value;
      var sdps := Descriptions(a, base, rest);
      if m.basePattern == base {
        ItemsAreFold(p, a.items, m, a.hls);
        FoldSdpsConcat(UNSET, sdps, SdpContents(a.items, m));
        if SdpContents(a.items, m) == [] { assert sdps + SdpContents(a.items, m) == sdps; }
      } else {
        assert sdps + [] == sdps;
      }
    }
  }

  /** The flag overwritten on the way is what all matching descriptions together give. */
  lemma BroadcastIffDescribed(a: Announcement, base: string, parse: UriParser)
    requires Resolve(a, base, parse).Success?
    ensures var r := Resolve(a, base, parse).value;
      var sdps := Descriptions(a, base, a.methods);
      && FoldSdps(UNSET, sdps) == Success(r.session)
      && (r.available <==> sdps != [] && Complete(r.session))
  {
    MethodsAreFold(a, base, a.methods);
  }

  lemma {:induction false} FoldKeepsKind(s: Session, sdps: seq<string>)
    requires s.kind != "" && FoldSdps(s, sdps).Success?
    ensures FoldSdps(s, sdps).value.kind != ""
  {
    hide SdpLine;
    if sdps != [] {
      FoldKeepsKind(s, sdps[..|sdps| - 1]);
      SdpKeepsParameters(FoldSdps(s, sdps[..|sdps| - 1]).value, Text.Lines(sdps[|sdps| - 1]));
    }
  }

  /** Available means that address and port are known; the type always is. */
  lemma AvailableMeansAddressAndPort(a: Announcement, base: string, parse: UriParser)
    requires Resolve(a, base, parse).Success?
    ensures var r := Resolve(a, base, parse).value;
      r.available <==> Descriptions(a, base, a.methods) != [] && r.session.address != "" && r.session.port != ""
  {
    hide Resolve;
    BroadcastIffDescribed(a, base, parse);
    FoldKeepsKind(UNSET, Descriptions(a, base, a.methods));
  }

  /** The group that decides the endpoint: the last one that pairs the base with another. */
  ghost predicate Decides(groups: seq<seq<string>>, base: string, i: nat) {
    i < |groups| && Pairs(groups[i], base) && forall j | i < j < |groups| :: !Pairs(groups[j], base)
  }

  /** What every group registers, in order. */
  function PathsOf(groups: seq<seq<string>>, base: string, parse: UriParser): seq<string> {
    if groups == [] then [] else
      var g := groups[|groups| - 1];
      PathsOf(groups[..|groups| - 1], base, parse) +
      if Pairs(g, base) && Usable(parse, Other(g, base)).Some?
      then [PathOf(Usable(parse, Other(g, base)).value)]
      else []
  }

  function PathOf(e: Endpoint): string { PlaylistPath(e.path, e.query) }

  /**
   The search succeeds exactly when every endpoint that some group pairs with the base is a URI. Client and playlist
   path are then those of the last group that pairs, and stay as they were when there is none; every pairing group
   has registered the playlist.
   */
  lemma IdenticalIs(k: Cdn, groups: seq<seq<string>>, base: string, parse: UriParser)
    ensures var r := Identical(k, groups, base, parse);
      && (r.Success? <==>
            forall i | 0 <= i < |groups| && Pairs(groups[i], base) :: Usable(parse, Other(groups[i], base)).Some?)
      && (r.Success? ==> r.value.registered == k.registered + PathsOf(groups, base, parse))
      && ((forall i | 0 <= i < |groups| :: !Pairs(groups[i], base)) ==> r == Success(k))
      && forall i: nat | r.Success? && Decides(groups, base, i) ::
           var e := Usable(parse, Other(groups[i], base));
           e.Some? && r.value.client == Some(e.value.base) && r.value.path == PathOf(e.value)
  {
    hide Identical, PathsOf, Pairs, PathOf, PlaylistPath, Other;
    IdenticalRegisters(k, groups, base, parse);
    if forall i | 0 <= i < |groups| :: !Pairs(groups[i], base) { NothingPairs(k, groups, base, parse); }
    if Identical(k, groups, base, parse).Success? {
      forall i: nat | Decides(groups, base, i)
        ensures var e := Usable(parse, Other(groups[i], base));
          && e.Some? && Identical(k, groups, base, parse).value.client == Some(e.value.base)
          && Identical(k, groups, base, parse).value.path == PathOf(e.value)
      {
        DecidingGroup(k, groups, base, parse, i);
      }
    }
  }

  lemma {:induction false} IdenticalRegisters(k: Cdn, groups: seq<seq<string>>, base: string, parse: UriParser)
    ensures var r := Identical(k, groups, base, parse);
      && (r.Success? <==>
            forall i | 0 <= i < |groups| && Pairs(groups[i], base) :: Usable(parse, Other(groups[i], base)).Some?)
      && (r.Success? ==> r.value.registered == k.registered + PathsOf(groups, base, parse))
  {
    hide Pairs, PlaylistPath, Other;
    if groups == [] {
      assert k.registered + [] == k.registered;
    } else {
      var n := |groups| - 1;
      assert forall i | 0 <= i < n :: groups[..n][i] == groups[i];
      IdenticalRegisters(k, groups[..n], base, parse);
      assert k.registered + PathsOf(groups[..n], base, parse) + [] == k.registered + PathsOf(groups[..n], base, parse);
    }
  }

  lemma {:induction false} NothingPairs(k: Cdn, groups: seq<seq<string>>, base: string, parse: UriParser)
    requires forall i | 0 <= i < |groups| :: !Pairs(groups[i], base)
    ensures Identical(k, groups, base, parse) == Success(k)
  {
    hide Pairs, SetEndpoint;
    if groups != [] {
      var n := |groups| - 1;
      assert forall i | 0 <= i < n :: groups[..n][i] == groups[i];
      NothingPairs(k, groups[..n], base, parse);
    }
  }

  lemma {:induction false} DecidingGroup(k: Cdn, groups: seq<seq<string>>, base: string, parse: UriParser, i: nat)
    requires Identical(k, groups, base, parse).Success? && Decides(groups, base, i)
    ensures var r, e := Identical(k, groups, base, parse).value, Usable(parse, Other(groups[i], base));
      e.Some? && r.client == Some(e.value.base) && r.path == PathOf(e.value)
  {
    hide Pairs, PlaylistPath, Other;
    var n := |groups| - 1;
    if i < n {
      assert forall j | 0 <= j < n :: groups[..n][j] == groups[j];
      DecidingGroup(k, groups[..n], base, parse, i);
    }
  }

  ghost predicate LastOther(group: seq<string>, base: string, i: nat) {
    i < |group| && group[i] != base && forall j | i < j < |group| :: group[j] == base
  }

  /** The other base is the last in the group that differs; there is none exactly when all are the same. */
  lemma {:induction false} OtherIsLast(group: seq<string>, base: string)
    ensures (exists i: nat :: LastOther(group, base, i) && Other(group, base) == group[i])
         || ((forall i | 0 <= i < |group| :: group[i] == base) && Other(group, base) == "")
  {
    if group != [] {
      var k: nat := |group| - 1;
      var rest := group[..k];
      if group[k] != base {
        assert LastOther(group, base, k);
      } else {
        OtherIsLast(rest, base);
        assert forall i | 0 <= i < k :: rest[i] == group[i];
        if i: nat :| LastOther(rest, base, i) && Other(rest, base) == rest[i] {
          assert LastOther(group, base, i);
        }
      }
    }
  }

  // ------------------------------------------------------------ every started stream has a source

  lemma {:induction false} StartedAreResolved(a: Announcement, bases: seq<string>, parse: UriParser)
    ensures forall r | r in Started(a, bases, parse).0 ::
              r.base in bases && Resolve(a, r.base, parse) == Success(r) && Starts(a, r)
  {
    if bases != [] {
      var rest, base := bases[..|bases| - 1], bases[|bases| - 1];
      StartedAreResolved(a, rest, parse);
      assert base in bases && forall b | b in rest :: b in bases;
    }
  }

  /** The path that the manifests of an announcement give a base before any endpoint does. */
  function ManifestPathFor(a: Announcement, base: string): string {
    match ProbeMethods(a, base, a.methods) case Failure(_) => "" case Success(p) => p.path
  }

  /**
   Every started stream has complete broadcast parameters or a CDN client; and under which path, with which client.
   */
  lemma StartedHaveSource(a: Announcement, parse: UriParser)
    ensures forall r | r in Started(a, a.bases, parse).0 ::
      && r.base in a.bases
      && ((r.available && Complete(r.session)) || r.cdn.client.Some?)
      && (!a.seamless ==> r.cdn == Cdn(None, ManifestPathFor(a, r.base), []))
      && (a.seamless && !r.available ==>
           var e := Usable(parse, r.base);
           e.Some? && r.cdn == Cdn(Some(e.value.base), PathOf(e.value), [PathOf(e.value)]))
      && (a.seamless && r.available ==>
           Identical(Cdn(None, ManifestPathFor(a, r.base), []), a.identical, r.base, parse) == Success(r.cdn))
  {
    hide Identical, PlaylistPath;
    StartedAreResolved(a, a.bases, parse);
    forall r | r in Started(a, a.bases, parse).0 ensures r.available ==> Complete(r.session) {
      BroadcastIffDescribed(a, r.base, parse);
    }
  }

  /** Without an exception, seamless switching starts every base, in order. */
  lemma {:induction false} SeamlessStartsAll(a: Announcement, bases: seq<string>, parse: UriParser)
    requires a.seamless && !Started(a, bases, parse).1
    ensures var rs := Started(a, bases, parse).0;
      |rs| == |bases| && forall i | 0 <= i < |rs| :: rs[i].base == bases[i]
  {
    if bases != [] { SeamlessStartsAll(a, bases[..|bases| - 1], parse); }
  }

  /**
   The manifest after an announcement: when the master manifest lists the paths of the started streams, it lists
   exactly these, in ascending order, whatever the order and attributes with which they were started.
   */
  lemma AnnouncedManifest(a: Announcement, parse: UriParser, st: State, handed: seq<PP.Stream>)
    requires Handed(Started(a, a.bases, parse).0, handed) && handed != [] && st.streams == map[]
    requires forall r | r in Started(a, a.bases, parse).0 :: r.cdn.path in Paths(st.master)
    ensures var paths := set r | r in Started(a, a.bases, parse).0 :: r.cdn.path;
      var ks := SortedStrings(paths);
      var entries := ManifestEntries(AddAll(st, handed).streams);
      && AddAll(st, handed).manifest == PP.Print(entries) && |entries| == |ks|
      && forall i | 0 <= i < |ks| ::
           entries[i].uri == "/" + ks[i] && LastEntry(st.master, ks[i], entries[i].(uri := ks[i]))
  {
    hide Started, AddAll, PP.Print, ManifestEntries, LastEntry;
    var rs := Started(a, a.bases, parse).0;
    HandedPaths(rs, handed);
    ManifestOfAdds(st, handed);
  }

  lemma HandedPaths(rs: seq<Resolution>, ss: seq<PP.Stream>)
    requires Handed(rs, ss)
    ensures Paths(ss) == set r | r in rs :: r.cdn.path
  {
    forall p | p in Paths(ss) ensures exists r :: r in rs && r.cdn.path == p {
      var x :| x in ss && x.uri == p;
      var i :| 0 <= i < |ss| && ss[i] == x;
      assert rs[i] in rs;
    }
    forall r | r in rs ensures r.cdn.path in Paths(ss) {
      var i :| 0 <= i < |rs| && rs[i] == r;
      assert ss[i] in ss;
    }
  }

  // ------------------------------------------------------------ the choices on the announcement's own fields

  /** The bases whose matching descriptions give an address and a port. */
  function Described(a: Announcement, bases: seq<string>): seq<string> {
    if bases == [] then [] else
      var base := bases[|bases| - 1];
      var sdps := Descriptions(a, base, a.methods);
      var folded := FoldSdps(UNSET, sdps);
      Described(a, bases[..|bases| - 1]) +
      if sdps != [] && folded.Success? && folded.value.address != "" && folded.value.port != "" then [base] else []
  }

  function BasesOf(rs: seq<Resolution>): (bases: seq<string>)
    ensures |bases| == |rs| && forall i | 0 <= i < |rs| :: bases[i] == rs[i].base
  {
    seq(|rs|, i requires 0 <= i < |rs| => rs[i].base)
  }

  /** Without seamless switching exactly the described bases are started, in order. */
  lemma {:induction false} PlainStartsDescribed(a: Announcement, bases: seq<string>, parse: UriParser)
    requires !a.seamless && !Started(a, bases, parse).1
    ensures BasesOf(Started(a, bases, parse).0) == Described(a, bases)
  {
    hide Resolve, Descriptions, FoldSdps;
    if bases != [] {
      var rest, base := bases[..|bases| - 1], bases[|bases| - 1];
      PlainStartsDescribed(a, rest, parse);
      BroadcastIffDescribed(a, base, parse);
      AvailableMeansAddressAndPort(a, base, parse);
      ResolvedBase(a, base, parse);
    }
  }

  lemma ResolvedBase(a: Announcement, base: string, parse: UriParser)
    requires Resolve(a, base, parse).Success?
    ensures Resolve(a, base, parse).value.base == base
  {}

  lemma {:induction false} SdpContentIff(items: seq<Item>, m: DeliveryMethod, text: string)
    ensures text in SdpContents(items, m) <==>
      exists x :: x in items && x.contentType == "application/sdp" && x.uri == m.sdpUri && x.content == text
  {
    if items != [] {
      var rest, last := items[..|items| - 1], items[|items| - 1];
      assert items == rest + [last];
      SdpContentIff(rest, m, text);
      assert forall x :: x in items <==> x in rest || x == last;
    }
  }

  /** The descriptions that apply to a base: those of the delivery methods for it, by content type and URI. */
  lemma {:induction false} DescriptionIff(a: Announcement, base: string, methods: seq<DeliveryMethod>, text: string)
    ensures text in Descriptions(a, base, methods) <==>
      exists m, x :: m in methods && m.basePattern == base && x in a.items
                     && x.contentType == "application/sdp" && x.uri == m.sdpUri && x.content == text
  {
    hide SdpContents;
    if methods != [] {
      var rest, last := methods[..|methods| - 1], methods[|methods| - 1];
      assert methods == rest + [last];
      DescriptionIff(a, base, rest, text);
      SdpContentIff(a.items, last, text);
      assert forall m :: m in methods <==> m in rest || m == last;
    }
  }

  /** They apply in the order of the items. */
  lemma ItemOrder(items: seq<Item>, m: DeliveryMethod, x: Item)
    requires x.contentType == "application/sdp" && x.uri == m.sdpUri
    ensures SdpContents(items + [x], m) == SdpContents(items, m) + [x.content]
  {
    assert (items + [x])[..|items|] == items;
  }

  /** ... and of the delivery methods. */
  lemma MethodOrder(a: Announcement, base: string, methods: seq<DeliveryMethod>, m: DeliveryMethod)
    ensures Descriptions(a, base, methods + [m])
         == Descriptions(a, base, methods) + if m.basePattern == base then SdpContents(a.items, m) else []
  {
    assert (methods + [m])[..|methods|] == methods;
  }

  // ------------------------------------------------------------ the playlist path of a manifest

  /** Contents of the items that are filed under a base. */
  function Manifests(items: seq<Item>, base: string): seq<string> {
    if items == [] then [] else
      Manifests(items[..|items| - 1], base)
      + if items[|items| - 1].uri == base then [items[|items| - 1].content] else []
  }

  /** All of them, once for each delivery method of the base. */
  function ManifestsFor(a: Announcement, base: string, methods: seq<DeliveryMethod>): seq<string> {
    if methods == [] then [] else
      ManifestsFor(a, base, methods[..|methods| - 1])
      + if methods[|methods| - 1].basePattern == base then Manifests(a.items, base) else []
  }

  /** The last manifest with exactly one stream gives the path. */
  function PathAfter(before: string, manifests: seq<string>): string {
    if manifests == [] then before else
      var p := PP.Parse(manifests[|manifests| - 1], "");
      if p.Success? && |p.value.streams| == 1 then p.value.streams[0].uri
      else PathAfter(before, manifests[..|manifests| - 1])
  }

  lemma {:induction false} PathAfterConcat(before: string, x: seq<string>, y: seq<string>)
    ensures PathAfter(before, x + y) == PathAfter(PathAfter(before, x), y)
  {
    hide PP.Parse;
    if y == [] {
      assert x + y == x;
    } else {
      assert (x + y)[..|x + y| - 1] == x + y[..|y| - 1];
      PathAfterConcat(before, x, y[..|y| - 1]);
    }
  }

  lemma {:induction false} ItemsPath(p: Probe, items: seq<Item>, m: DeliveryMethod)
    requires ProbeItems(p, items, m, true).Success?
    ensures ProbeItems(p, items, m, true).value.path == PathAfter(p.path, Manifests(items, m.basePattern))
  {
    hide PP.Parse, Sdp, Complete;
    if items != [] {
      var rest, x := items[..|items| - 1], items[|items| - 1];
      ItemsPath(p, rest, m);
      var before := Manifests(rest, m.basePattern);
      if x.uri == m.basePattern {
        assert (before + [x.content])[..|before|] == before;
      } else {
        assert before + [] == before;
      }
    }
  }

  lemma {:induction false} MethodsPath(a: Announcement, base: string, methods: seq<DeliveryMethod>)
    requires a.hls && ProbeMethods(a, base, methods).Success?
    ensures ProbeMethods(a, base, methods).value.path == PathAfter("", ManifestsFor(a, base, methods))
  {
    hide ProbeItems, Manifests;
    if methods != [] {
      var rest, m := methods[..|methods| - 1], methods[|methods| - 1];
      MethodsPath(a, base, rest);
      var before := ManifestsFor(a, base, rest);
      if m.basePattern == base {
        ItemsPath(ProbeMethods(a, base, rest).value, a.items, m);
        PathAfterConcat("", before, Manifests(a.items, base));
      } else {
        assert before + [] == before;
      }
    }
  }

  /** The playlist path before any endpoint: for HLS by the manifests filed under the base, else empty. */
  lemma ManifestPathIs(a: Announcement, base: string)
    requires ProbeMethods(a, base, a.methods).Success?
    ensures ManifestPathFor(a, base) == if a.hls then PathAfter("", ManifestsFor(a, base, a.methods)) else ""
  {
    hide ProbeMethods, PathAfter, ManifestsFor;
    if a.hls { MethodsPath(a, base, a.methods); } else { NoPath(a, base, a.methods); }
  }

  lemma {:induction false} NoItemPath(p: Probe, items: seq<Item>, m: DeliveryMethod)
    requires ProbeItems(p, items, m, false).Success?
    ensures ProbeItems(p, items, m, false).value.path == p.path
  {
    hide Sdp, Complete;
    if items != [] { NoItemPath(p, items[..|items| - 1], m); }
  }

  lemma {:induction false} NoPath(a: Announcement, base: string, methods: seq<DeliveryMethod>)
    requires !a.hls && ProbeMethods(a, base, methods).Success?
    ensures ProbeMethods(a, base, methods).value.path == ""
  {
    hide ProbeItems;
    if methods != [] {
      var rest, m := methods[..|methods| - 1], methods[|methods| - 1];
      NoPath(a, base, rest);
      if m.basePattern == base { NoItemPath(ProbeMethods(a, base, rest).value, a.items, m); }
    }
  }

  /** A group names an endpoint for a base exactly when it has the base, and a last other base that is not empty. */
  lemma PairsIff(group: seq<string>, base: string)
    ensures Pairs(group, base) <==> base in group && exists i: nat :: LastOther(group, base, i) && group[i] != ""
  {
    OtherIsLast(group, base);
    if i: nat :| LastOther(group, base, i) && group[i] != "" {
      var j: nat :| LastOther(group, base, j) && Other(group, base) == group[j];
      assert i == j;
    }
  }

  /** What an endpoint does to a stream, on the parts of its URI. */
  lemma EndpointSets(k: Cdn, endpoint: string, parse: UriParser, path: string, query: string, base: string)
    requires parse(endpoint) == Some(Endpoint(base, "/" + path, query, true))
    ensures SetEndpoint(k, endpoint, parse) ==
      var p := if query == "" then path else path + "?" + query; Success(Cdn(Some(base), p, k.registered + [p]))
  {
    assert ("/" + path)[1..] == path;
    assert path + ("?" + query) == path + "?" + query;
  }
}
