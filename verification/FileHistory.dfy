/**
 Which broadcast file a segment carries, told from the events of a run alone: the last one delivered at its URI
 before the playlist that first listed it. What arrives later stays staged.
 */
module FileHistory {
  import opened Wrappers
  import opened Decimal
  import opened TopNumbers
  import opened Segments
  import opened EdgeCache
  import opened CacheInvariants
  import opened WindowInvariants
  import opened FileInvariants
  import opened SegmentIdentity
  import opened Runs
  import Sweep
  import MP = MediaPlaylist

  /** The segment file that an event delivers at a location. */
  function Delivers(c: Config, e: Event, n: string): Option<FluteFile> {
    if e.FluteFile? && e.file.location == n && n != c.path && n != "index.m3u8" then Some(e.file) else None
  }

  /** The last segment file delivered at a location. */
  function LastDelivered(c: Config, es: seq<Event>, n: string): Option<FluteFile> {
    if es == [] then None
    else if Delivers(c, es[|es| - 1], n).Some? then Delivers(c, es[|es| - 1], n)
    else LastDelivered(c, es[..|es| - 1], n)
  }

  /** The event that first lists a number. */
  function FirstListed(c: Config, es: seq<Event>, s: int): (k: nat)
    requires s in Numbers(AcceptedBy(c, es))
    ensures k < |es|
  {
    NothingAccepted(c);
    if s in Numbers(AcceptedBy(c, es[..|es| - 1])) then FirstListed(c, es[..|es| - 1], s) else |es| - 1
  }

  lemma NothingAccepted(c: Config)
    ensures AcceptedBy(c, []) == [] && Numbers([]) == {}
  {}

  lemma {:induction false} FirstListedIs(c: Config, es: seq<Event>, s: int)
    requires s in Numbers(AcceptedBy(c, es))
    ensures var k := FirstListed(c, es, s);
      s !in Numbers(AcceptedBy(c, es[..k])) && s in Numbers(AcceptedBy(c, es[..k + 1]))
  {
    hide AcceptedBy, Numbers;
    NothingAccepted(c);
    var rest := es[..|es| - 1];
    assert es[..|es|] == es;
    if s in Numbers(AcceptedBy(c, rest)) {
      var k := FirstListed(c, rest, s);
      FirstListedIs(c, rest, s);
      assert rest[..k] == es[..k] && rest[..k + 1] == es[..k + 1];
    }
  }

  function StagedAt(w: World, n: string): Option<FluteFile> {
    if n in w.staged then Some(w.staged[n]) else None
  }

  ghost predicate Listed(c: Config, ls: seq<MP.Listing>, n: string) {
    exists l :: l in ls && c.dir + l.uri == n
  }

  // ------------------------------------------------------------ one step

  /** A step that reads no playlist stages at most its own file. */
  ghost predicate Stages(c: Config, w: World, e: Event, r: World) {
    && r.window == w.window && |r.store| == |w.store|
    && (forall i | 0 <= i < |w.store| :: r.store[i].uri == w.store[i].uri && r.store[i].flute == w.store[i].flute)
    && forall n :: StagedAt(r, n) == if Delivers(c, e, n).Some? then Delivers(c, e, n) else StagedAt(w, n)
  }

  /** A segment that stays keeps its file and what is staged at its URI. */
  ghost predicate Stays(w: World, r: World, s: int)
    requires Ids(w) && Ids(r) && s in w.window && s in r.window
  {
    && r.window[s] == w.window[s]
    && var id := w.window[s];
       && id < |r.store| && r.store[id].uri == w.store[id].uri && r.store[id].flute == w.store[id].flute
       && StagedAt(r, w.store[id].uri) == StagedAt(w, w.store[id].uri)
  }

  /** A segment that is new takes what was staged. */
  ghost predicate Takes(c: Config, w: World, ls: seq<MP.Listing>, r: World, s: int)
    requires Ids(r) && s in r.window
  {
    && s in Numbers(ls) && s !in Numbers(w.accepted)
    && var segment := r.store[r.window[s]];
       && segment.uri == c.dir + First(ls, s).uri
       && segment.flute == StagedAt(w, segment.uri) && StagedAt(r, segment.uri) == None
  }

  ghost predicate Reads(c: Config, w: World, ls: seq<MP.Listing>, r: World)
    requires Ids(w) && Ids(r)
  {
    && (forall n | !Listed(c, ls, n) :: StagedAt(r, n) == StagedAt(w, n))
    && (forall s | s in r.window && s in w.window :: Stays(w, r, s))
    && (forall s | s in r.window && s !in w.window :: Takes(c, w, ls, r, s))
  }

  lemma UnlistedStay(c: Config, w: World, ls: seq<MP.Listing>, r: World, n: string)
    requires Claimed(c, w, ls, r) && !Listed(c, ls, n)
    ensures StagedAt(r, n) == StagedAt(w, n)
  {
    hide First, Numbers;
  }

  /** A file staged at the URI of a segment in the window is claimed by no other number. */
  lemma WindowStays(c: Config, w: World, ls: seq<MP.Listing>, m: World, s: int)
    requires Provenance(c, w) && Distinct(w.accepted + ls) && Claimed(c, w, ls, m) && s in w.window
    ensures var uri := w.store[w.window[s]].uri; StagedAt(m, uri) == StagedAt(w, uri)
  {
    hide First, Numbers;
    var id := w.window[s];
    var uri := w.store[id].uri;
    assert w.origins[id] in w.accepted + ls;
    forall l | l in ls && l.nr !in w.window ensures uri != c.dir + l.uri {
      assert l in w.accepted + ls;
      if uri == c.dir + l.uri { SameTail(c.dir, l.uri, w.origins[id].uri); }
    }
  }

  lemma NewTakes(c: Config, w: World, ls: seq<MP.Listing>, m: World, r: World, s: int)
    requires Ids(m) && Provenance(c, m) && Claimed(c, w, ls, m) && Merged(w, ls, m)
    requires s in m.window && s !in w.window && s !in Numbers(w.accepted)
    requires Ids(r) && s in r.window && r.window[s] == m.window[s] && r.store == m.store && r.staged == m.staged
    ensures Takes(c, w, ls, r, s)
  {
    hide First, Numbers;
    assert s in Numbers(ls);
    assert m.origins[m.window[s]] == First(ls, s);
  }

  lemma MergeEvictReads(c: Config, w: World, ls: seq<MP.Listing>)
    requires WindowInv(c, w) && Distinct(w.accepted + ls)
    ensures Reads(c, w, ls, Evict(Merge(c, w, ls), c.keep))
  {
    hide Merge, Evict, First, Numbers, Listed, WindowInv, Claimed, Merged, Takes;
    ProvenanceOf(c, w);
    var m := Merge(c, w, ls);
    var r := Evict(m, c.keep);
    assert Distinct(ls) by { assert forall l | l in ls :: l in w.accepted + ls; }
    MergeClaims(c, w, ls);
    MergeMakesOnce(c, w, ls);
    EvictIs(m, c.keep);
    MergeIs(c, w, ls);
    forall n | !Listed(c, ls, n) ensures StagedAt(r, n) == StagedAt(w, n) { UnlistedStay(c, w, ls, m, n); }
    forall s | s in r.window && s in w.window ensures Stays(w, r, s) { WindowStays(c, w, ls, m, s); }
    forall s | s in r.window && s !in w.window ensures Takes(c, w, ls, r, s) {
      NewInWindowIsNew(c, w, ls, s);
      NewTakes(c, w, ls, m, r, s);
    }
  }

  lemma ProvenanceOf(c: Config, w: World)
    requires WindowInv(c, w)
    ensures Provenance(c, w)
  {}

  /** Publishing touches neither window nor files. */
  lemma PublishReads(c: Config, w: World, ls: seq<MP.Listing>, m: World, target: int)
    requires Ids(w) && Ids(m) && Reads(c, w, ls, m)
    ensures Reads(c, w, ls, Publish(m, target))
  {
    hide MP.Print, WindowListing, Listed, Numbers, First;
    var r := Publish(m, target);
    assert forall n :: StagedAt(r, n) == StagedAt(m, n);
    forall s | s in r.window && s in w.window ensures Stays(w, r, s) { assert Stays(w, m, s); }
    forall s | s in r.window && s !in w.window ensures Takes(c, w, ls, r, s) { assert Takes(c, w, ls, m, s); }
  }

  lemma NothingRead(c: Config, w: World)
    requires Ids(w)
    ensures Reads(c, w, [], w)
  {}

  lemma StagesOnly(c: Config, w: World, e: Event)
    requires Ids(w) && PlaylistOf(c, e).None?
    ensures Stages(c, w, e, Step(c, w, e))
  {
    hide WorldView, HandlePlaylist, Sweep.Kept;
  }

  lemma HandlePlaylistReads(c: Config, w: World, content: string, source: ItemSource, garbage: int)
    requires AllInv(c, w)
    requires match MP.Parse(content, garbage)
             case Failure(_) => true
             case Success(p) => Distinct(w.accepted + Admitted(p.segments, source, c.truncate))
    ensures Ids(w)
    ensures match MP.Parse(content, garbage)
            case Failure(_) => Reads(c, w, [], HandlePlaylist(c, w, content, source, garbage))
            case Success(p) =>
              Reads(c, w, Admitted(p.segments, source, c.truncate), HandlePlaylist(c, w, content, source, garbage))
  {
    assert Ids(w) && WindowInv(c, w);
    hide MP.Parse, MP.Print, WindowListing, Merge, Evict, AllInv, WindowInv, Reads, Admitted, Distinct, Publish;
    match MP.Parse(content, garbage)
    case Failure(_) => NothingRead(c, w);
    case Success(p) =>
      var ls := Admitted(p.segments, source, c.truncate);
      MergeEvictReads(c, w, ls);
      PublishReads(c, w, ls, Evict(Merge(c, w, ls), c.keep), p.target);
  }

  lemma StepFiles(c: Config, w: World, e: Event)
    requires AllInv(c, w) && Distinct(w.accepted + ListingsOf(c, e))
    ensures Ids(w)
    ensures var r := Step(c, w, e);
      if PlaylistOf(c, e).Some? then Reads(c, w, ListingsOf(c, e), r) else Stages(c, w, e, r)
  {
    assert Ids(w);
    hide Step, HandlePlaylist, MP.Parse, AllInv, Reads, Stages, Admitted, Distinct;
    StepIs(c, w, e);
    match PlaylistOf(c, e)
    case None => StagesOnly(c, w, e);
    case Some(p) => HandlePlaylistReads(c, w, p.0, p.1, p.2);
  }

  // ------------------------------------------------------------ runs

  /** Names that no listing has used hold what was last delivered there. */
  ghost predicate StagedFollows(c: Config, es: seq<Event>, w: World) {
    forall n | !Listed(c, AcceptedBy(c, es), n) :: StagedAt(w, n) == LastDelivered(c, es, n)
  }

  /** A segment carries what was delivered before its first listing; what was delivered since is staged. */
  ghost predicate SegmentFollows(c: Config, es: seq<Event>, w: World, s: int)
    requires Ids(w) && s in w.window
  {
    && s in Numbers(AcceptedBy(c, es))
    && var k, segment := FirstListed(c, es, s), w.store[w.window[s]];
       && segment.flute == LastDelivered(c, es[..k], segment.uri)
       && StagedAt(w, segment.uri) == LastDelivered(c, es[k..], segment.uri)
  }

  ghost predicate FilesFollow(c: Config, es: seq<Event>, w: World)
    requires Ids(w)
  {
    StagedFollows(c, es, w) && forall s | s in w.window :: SegmentFollows(c, es, w, s)
  }

  lemma NumbersGrow(c: Config, es: seq<Event>, e: Event)
    ensures AcceptedBy(c, es + [e]) == AcceptedBy(c, es) + ListingsOf(c, e)
    ensures Numbers(AcceptedBy(c, es + [e])) == Numbers(AcceptedBy(c, es)) + Numbers(ListingsOf(c, e))
  {
    hide ListingsOf, Numbers;
    assert (es + [e])[..|es|] == es;
    NumbersConcat(AcceptedBy(c, es), ListingsOf(c, e));
  }

  lemma FirstListedSnoc(c: Config, es: seq<Event>, e: Event, s: int)
    requires s in Numbers(AcceptedBy(c, es + [e]))
    ensures FirstListed(c, es + [e], s) == if s in Numbers(AcceptedBy(c, es)) then FirstListed(c, es, s) else |es|
  {
    hide AcceptedBy, Numbers;
    assert (es + [e])[..|es + [e]| - 1] == es;
  }

  lemma LastDeliveredSnoc(c: Config, es: seq<Event>, e: Event, n: string)
    ensures LastDelivered(c, es + [e], n)
         == if Delivers(c, e, n).Some? then Delivers(c, e, n) else LastDelivered(c, es, n)
  {
    hide Delivers;
    assert (es + [e])[..|es|] == es;
  }

  lemma PlaylistDelivers(c: Config, e: Event)
    requires PlaylistOf(c, e).Some?
    ensures forall n :: Delivers(c, e, n) == None
  {}

  lemma StagedFollowsStep(c: Config, es: seq<Event>, e: Event, w: World, r: World)
    requires Ids(w) && Ids(r) && StagedFollows(c, es, w)
    requires if PlaylistOf(c, e).Some? then Reads(c, w, ListingsOf(c, e), r) else Stages(c, w, e, r)
    ensures StagedFollows(c, es + [e], r)
  {
    hide AcceptedBy, ListingsOf, Numbers, First, Delivers, LastDelivered, StagedAt, PlaylistOf;
    NumbersGrow(c, es, e);
    if PlaylistOf(c, e).Some? { PlaylistDelivers(c, e); }
    forall n | !Listed(c, AcceptedBy(c, es + [e]), n) ensures StagedAt(r, n) == LastDelivered(c, es + [e], n) {
      LastDeliveredSnoc(c, es, e, n);
      assert forall l | l in AcceptedBy(c, es) :: l in AcceptedBy(c, es + [e]);
      assert forall l | l in ListingsOf(c, e) :: l in AcceptedBy(c, es + [e]);
    }
  }

  /** A segment that was there before. */
  lemma StayedFollows(c: Config, es: seq<Event>, e: Event, w: World, r: World, s: int)
    requires Ids(w) && Ids(r) && s in w.window && s in r.window && SegmentFollows(c, es, w, s)
    requires if PlaylistOf(c, e).Some? then Stays(w, r, s) else Stages(c, w, e, r)
    ensures SegmentFollows(c, es + [e], r, s)
  {
    hide AcceptedBy, ListingsOf, Numbers, First, Delivers, LastDelivered, StagedAt, PlaylistOf, FirstListed;
    NumbersGrow(c, es, e);
    FirstListedSnoc(c, es, e, s);
    var k, uri := FirstListed(c, es, s), w.store[w.window[s]].uri;
    if PlaylistOf(c, e).Some? { PlaylistDelivers(c, e); }
    assert (es + [e])[..k] == es[..k] && (es + [e])[k..] == es[k..] + [e];
    LastDeliveredSnoc(c, es[k..], e, uri);
  }

  /** A URI whose number is new has not been listed before. */
  lemma NewUriUnlisted(c: Config, ls: seq<MP.Listing>, more: seq<MP.Listing>, l: MP.Listing)
    requires Distinct(ls + more) && l in more && l.nr !in Numbers(ls)
    ensures !Listed(c, ls, c.dir + l.uri)
  {
    assert l in ls + more;
    forall x | x in ls ensures c.dir + x.uri != c.dir + l.uri {
      assert x in ls + more && x.nr in Numbers(ls);
      if c.dir + x.uri == c.dir + l.uri { SameTail(c.dir, x.uri, l.uri); }
    }
  }

  /** A segment that this playlist has brought. */
  lemma NewFollows(c: Config, es: seq<Event>, e: Event, w: World, r: World, s: int)
    requires Ids(r) && s in r.window && StagedFollows(c, es, w) && w.accepted == AcceptedBy(c, es)
    requires PlaylistOf(c, e).Some? && Takes(c, w, ListingsOf(c, e), r, s)
    requires Distinct(w.accepted + ListingsOf(c, e))
    ensures SegmentFollows(c, es + [e], r, s)
  {
    hide AcceptedBy, ListingsOf, Numbers, Delivers, LastDelivered, StagedAt, PlaylistOf, FirstListed, Listed, Distinct;
    NumbersGrow(c, es, e);
    FirstListedSnoc(c, es, e, s);
    NewUriUnlisted(c, w.accepted, ListingsOf(c, e), First(ListingsOf(c, e), s));
    PlaylistDelivers(c, e);
    var uri := r.store[r.window[s]].uri;
    assert (es + [e])[..|es|] == es && (es + [e])[|es|..] == [] + [e];
    LastDeliveredSnoc(c, [], e, uri);
    assert LastDelivered(c, [], uri) == None by { NothingDelivered(c, uri); }
  }

  lemma NothingDelivered(c: Config, n: string)
    ensures LastDelivered(c, [], n) == None
  {}

  lemma FilesFollowStep(c: Config, es: seq<Event>, e: Event, w: World)
    requires AllInv(c, w) && w.accepted == AcceptedBy(c, es) && Distinct(w.accepted + ListingsOf(c, e))
    requires Ids(w) && FilesFollow(c, es, w)
    ensures FilesFollow(c, es + [e], Step(c, w, e))
  {
    hide AllInv, AcceptedBy, ListingsOf, Step, Stays, Takes, StagedFollows, SegmentFollows, Distinct, PlaylistOf;
    var r := Step(c, w, e);
    StepFiles(c, w, e);
    StagedFollowsStep(c, es, e, w, r);
    forall s | s in r.window ensures SegmentFollows(c, es + [e], r, s) {
      if s in w.window {
        StayedFollows(c, es, e, w, r, s);
      } else {
        NewFollows(c, es, e, w, r, s);
      }
    }
  }

  lemma {:induction false} RunFilesFollow(c: Config, w0: World, es: seq<Event>)
    requires Initial(w0) && Distinct(AcceptedBy(c, es))
    ensures FilesFollow(c, es, Run(c, w0, es))
  {
    hide AllInv, ListingsOf, Step, StagedFollows, SegmentFollows, Distinct, FilesFollow, Initial;
    InitialIds(w0);
    if es == [] {
      InitialFollows(c, w0);
    } else {
      var rest, e := es[..|es| - 1], es[|es| - 1];
      assert es == rest + [e];
      NumbersGrow(c, rest, e);
      DistinctPrefix(AcceptedBy(c, rest), AcceptedBy(c, es));
      RunFilesFollow(c, w0, rest);
      InitialInvariants(c, w0);
      RunKeepsWindow(c, w0, rest);
      AcceptedFromStart(c, w0, rest);
      FilesFollowStep(c, rest, e, Run(c, w0, rest));
    }
  }

  lemma InitialFollows(c: Config, w: World)
    requires Initial(w)
    ensures FilesFollow(c, [], w)
  {}

  /**
   The broadcast file of a window segment is the last one delivered at its URI before the event that first listed
   its number, and it is served by broadcast exactly when that file is complete. A file that came later is not
   attached: it is what is staged there.
   */
  lemma SegmentCarriesFileBeforeListing(c: Config, w0: World, es: seq<Event>)
    requires Initial(w0) && Distinct(AcceptedBy(c, es))
    ensures var w := Run(c, w0, es);
      forall s | s in w.window ::
        && s in Numbers(AcceptedBy(c, es))
        && var k, segment := FirstListed(c, es, s), w.store[w.window[s]];
           var early, late := LastDelivered(c, es[..k], segment.uri), LastDelivered(c, es[k..], segment.uri);
           && segment.flute == early && StagedAt(w, segment.uri) == late
           && (SourceOf(Chosen(segment, w.complete)) == Broadcast <==> early.Some? && early.value.id in w.complete)
  {
    hide Step, AcceptedBy, Numbers, LastDelivered, FirstListed, Distinct, StagedFollows, StagedAt;
    RunFilesFollow(c, w0, es);
    var w := Run(c, w0, es);
    forall s | s in w.window ensures SegmentFollows(c, es, w, s) {}
  }

  /** A file that arrives one event after its segment was listed, and is complete: it stays staged. */
  lemma LateFileStaysStaged(c: Config, w0: World, file: FluteFile, garbage: int)
    requires Initial(w0) && c.keep >= 1
    requires file.location == c.dir + "five.ts" && file.location != c.path && file.location != "index.m3u8"
    ensures var w := Run(c, w0, [CdnPlaylist(FIVE, garbage), Event.FluteFile(file, garbage), FileCompleted(file.id)]);
      && 5 in w.window && file.id in w.complete
      && var segment := w.store[w.window[5]];
         && segment.uri == file.location && segment.flute == None
         && StagedAt(w, segment.uri) == Some(file)
         && SourceOf(Chosen(segment, w.complete)) != Broadcast
  {
    hide Run, Initial, AcceptedBy, Numbers, Largest, First, LastDelivered, FirstListed, StagedAt, MP.Parse;
    var f, g, h := CdnPlaylist(FIVE, garbage), Event.FluteFile(file, garbage), FileCompleted(file.id);
    var es := [f, g, h];
    LateHistory(c, garbage, file);
    LateWindow(c, w0, es);
    SegmentCarriesFileBeforeListing(c, w0, es);
    LateCompletes(c, w0, f, g, file.id);
  }

  lemma LateCompletes(c: Config, w0: World, f: Event, g: Event, id: nat)
    requires Ids(w0)
    ensures id in Run(c, w0, [f, g, FileCompleted(id)]).complete
  {
    assert [f, g, FileCompleted(id)] == [f, g] + [FileCompleted(id)];
    hide Run;
    RunSnoc(c, w0, [f, g], FileCompleted(id));
  }

  lemma LateWindow(c: Config, w0: World, es: seq<Event>)
    requires Initial(w0) && c.keep >= 1
    requires AcceptedBy(c, es) == [MP.Listing("five.ts", 5, -ONE)]
    ensures Ids(w0) && Distinct(AcceptedBy(c, es))
    ensures var w := Run(c, w0, es); 5 in w.window && w.store[w.window[5]].uri == c.dir + "five.ts"
  {
    hide Run, AcceptedBy, Largest;
    InitialIds(w0);
    WindowIsLargestAccepted(c, w0, es);
    NumbersOfOne(MP.Listing("five.ts", 5, -ONE));
    assert |{5}| == 1;
    AllOfFew({5}, c.keep);
  }

  lemma LateHistory(c: Config, garbage: int, file: FluteFile)
    requires file.location != c.path && file.location != "index.m3u8"
    ensures var es := [CdnPlaylist(FIVE, garbage), Event.FluteFile(file, garbage), FileCompleted(file.id)];
      && AcceptedBy(c, es) == [MP.Listing("five.ts", 5, -ONE)] && 5 in Numbers(AcceptedBy(c, es))
      && FirstListed(c, es, 5) == 0
      && LastDelivered(c, es[..0], file.location) == None
      && LastDelivered(c, es[0..], file.location) == Some(file)
  {
    hide MP.Parse;
    var f, g, h := CdnPlaylist(FIVE, garbage), Event.FluteFile(file, garbage), FileCompleted(file.id);
    TextsRead(garbage);
    var five := MP.Listing("five.ts", 5, -ONE);
    assert [f][..0] == [] && [f, g][..1] == [f] && [f, g, h][..2] == [f, g];
    assert ListingsOf(c, f) == [five] && ListingsOf(c, g) == [] && ListingsOf(c, h) == [];
    assert AcceptedBy(c, [f]) == [] + [five] == [five];
    assert AcceptedBy(c, [f, g]) == [five] + [] == [five];
    assert AcceptedBy(c, [f, g, h]) == [five] + [] == [five];
    NumbersOfOne(five);
    assert [f, g, h][0..] == [f, g, h];
    assert LastDelivered(c, [f, g], file.location) == Some(file);
  }

  // ------------------------------------------------------------ superseded files

  /** Staged files are filed under their locations. */
  ghost predicate Named(w: World) { forall n | n in w.staged :: w.staged[n].location == n }

  lemma {:induction false} MergeUnstages(c: Config, w: World, ls: seq<MP.Listing>)
    requires Ids(w)
    ensures var r := Merge(c, w, ls);
      r.superseded == w.superseded && forall n | n in r.staged :: n in w.staged && r.staged[n] == w.staged[n]
  {
    if ls != [] { MergeUnstages(c, w, ls[..|ls| - 1]); }
  }

  lemma HandlePlaylistSupersedes(c: Config, w: World, content: string, source: ItemSource, garbage: int)
    requires Ids(w) && Named(w)
    ensures var r := HandlePlaylist(c, w, content, source, garbage); Named(r) && r.superseded == w.superseded
  {
    hide MP.Parse, MP.Print, WindowListing, Merge, Evict;
    var p := MP.Parse(content, garbage);
    if p.Success? {
      var ls := Admitted(p.value.segments, source, c.truncate);
      MergeUnstages(c, w, ls);
      EvictIs(Merge(c, w, ls), c.keep);
    }
  }

  lemma StepSupersedes(c: Config, w: World, e: Event)
    requires Ids(w) && Named(w)
    ensures Named(Step(c, w, e))
    ensures forall f :: f in Step(c, w, e).superseded <==>
              f in w.superseded || (Staged(w, f) && Delivers(c, e, f.location).Some?)
  {
    hide WorldView, HandlePlaylist, Sweep.Kept;
    match PlaylistOf(c, e)
    case None =>
    case Some(p) => HandlePlaylistSupersedes(c, w, p.0, p.1, p.2);
  }

  /** The event at `k` delivers a file at the location of `f` while `f` is staged. */
  ghost predicate Supersedes(c: Config, w0: World, es: seq<Event>, k: nat, f: FluteFile)
    requires Ids(w0)
  {
    k < |es| && Staged(Run(c, w0, es[..k]), f) && Delivers(c, es[k], f.location).Some?
  }

  lemma SupersedesSnoc(c: Config, w0: World, es: seq<Event>, e: Event, k: nat, f: FluteFile)
    requires Ids(w0)
    ensures Supersedes(c, w0, es + [e], k, f) <==>
              Supersedes(c, w0, es, k, f)
              || (k == |es| && Staged(Run(c, w0, es), f) && Delivers(c, e, f.location).Some?)
  {
    hide Run, Staged, Delivers;
    if k <= |es| { assert (es + [e])[..k] == es[..k]; }
    assert es[..|es|] == es;
  }

  lemma {:induction false} RunSupersedes(c: Config, w0: World, es: seq<Event>)
    requires Initial(w0)
    ensures Named(Run(c, w0, es))
    ensures forall f :: f in Run(c, w0, es).superseded <==> exists k: nat :: Supersedes(c, w0, es, k, f)
  {
    hide Step, Staged, Delivers, Supersedes;
    if es == [] {
      assert forall k: nat, f :: !Supersedes(c, w0, es, k, f) by { NothingSupersedes(c, w0); }
    } else {
      var rest, e := es[..|es| - 1], es[|es| - 1];
      assert es == rest + [e];
      RunSupersedes(c, w0, rest);
      StepSupersedes(c, Run(c, w0, rest), e);
      forall k: nat, f
        ensures Supersedes(c, w0, es, k, f) <==>
                  Supersedes(c, w0, rest, k, f)
                  || (k == |rest| && Staged(Run(c, w0, rest), f) && Delivers(c, e, f.location).Some?)
      {
        SupersedesSnoc(c, w0, rest, e, k, f);
      }
      forall f ensures f in Run(c, w0, es).superseded <==> exists k: nat :: Supersedes(c, w0, es, k, f) {
        var n: nat := |rest|;
        assert Staged(Run(c, w0, rest), f) && Delivers(c, e, f.location).Some? ==> Supersedes(c, w0, es, n, f);
      }
    }
  }

  lemma NothingSupersedes(c: Config, w0: World)
    requires Ids(w0)
    ensures forall k: nat, f :: !Supersedes(c, w0, [], k, f)
  {}

  /** A file is superseded exactly when some event has delivered one at its location while it was staged. */
  lemma SupersededIff(c: Config, w0: World, es: seq<Event>)
    requires Initial(w0)
    ensures forall f :: f in Run(c, w0, es).superseded <==>
              exists k: nat :: k < |es| && Staged(Run(c, w0, es[..k]), f) && Delivers(c, es[k], f.location).Some?
  {
    hide Run, Step, Staged, Delivers, Initial;
    InitialIds(w0);
    RunSupersedes(c, w0, es);
    forall f
      ensures f in Run(c, w0, es).superseded <==>
        exists k: nat :: k < |es| && Staged(Run(c, w0, es[..k]), f) && Delivers(c, es[k], f.location).Some?
    {
      if k: nat :| k < |es| && Staged(Run(c, w0, es[..k]), f) && Delivers(c, es[k], f.location).Some? {
        assert Supersedes(c, w0, es, k, f);
      }
    }
  }
}
