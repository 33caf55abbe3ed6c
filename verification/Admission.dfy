/** What a playlist brings into the window: which of its segments are accepted, and what a segment starts with. */
module Admission {
  import opened Wrappers
  import opened Segments
  import opened EdgeCache
  import opened CacheInvariants
  import opened WindowInvariants
  import opened Runs
  import MP = MediaPlaylist

  /** A broadcast playlist is accepted whole. */
  lemma BroadcastAccepted(c: Config, w: World, file: FluteFile, garbage: int)
    requires Ids(w) && file.location == c.path
    ensures var p, r := MP.Parse(file.content, garbage), Step(c, w, Event.FluteFile(file, garbage));
      if p.Failure? then r == w else r.accepted == w.accepted + p.value.segments
  {
    hide MP.Parse, Merge, Evict, MP.Print, WindowListing;
    var p := MP.Parse(file.content, garbage);
    if p.Success? {
      assert p.value.segments[..|p.value.segments|] == p.value.segments;
      AcceptedGrows(c, w, p.value.segments);
      AcceptedStays(c, w, p.value.segments, p.value.target);
    }
  }

  /**
   Of a CDN playlist of n segments the first n - t + 2 are accepted when the truncation t is between 3 and n, and
   all of them otherwise.
   */
  lemma CdnAccepted(c: Config, w: World, content: string, garbage: int)
    requires Ids(w) && -0x8000_0000 <= c.truncate < 0x8000_0000
    requires MP.Parse(content, garbage).Success? ==> |MP.Parse(content, garbage).value.segments| < 0x8000_0000
    ensures var p, r := MP.Parse(content, garbage), Step(c, w, CdnPlaylist(content, garbage));
      if p.Failure? then r == w else
        var n, t := |p.value.segments|, c.truncate;
        r.accepted == w.accepted + if 3 <= t <= n then p.value.segments[..n - t + 2] else p.value.segments
  {
    hide MP.Parse, Merge, Evict, MP.Print, WindowListing;
    var p := MP.Parse(content, garbage);
    if p.Success? {
      var ls, n, t := p.value.segments, |p.value.segments|, c.truncate;
      AdmittedPrefix(n, t);
      var admitted := if 3 <= t <= n then ls[..n - t + 2] else ls;
      assert ls[..n] == ls;
      assert Admitted(ls, CDN, t) == admitted;
      AcceptedGrows(c, w, admitted);
      AcceptedStays(c, w, admitted, p.value.target);
    }
  }

  lemma AcceptedStays(c: Config, w: World, ls: seq<MP.Listing>, target: int)
    requires Ids(w)
    ensures Publish(Evict(Merge(c, w, ls), c.keep), target).accepted == Evict(Merge(c, w, ls), c.keep).accepted
  {
    hide Merge, Evict, MP.Print, WindowListing;
  }

  /** Six segments with a truncation of four: the first four are accepted, the last two held back. */
  lemma TruncationHoldsBackLast(c: Config, w: World, content: string, garbage: int)
    requires Ids(w) && c.truncate == 4
    requires MP.Parse(content, garbage).Success? && |MP.Parse(content, garbage).value.segments| == 6
    ensures var s := MP.Parse(content, garbage).value.segments;
      Step(c, w, CdnPlaylist(content, garbage)).accepted == w.accepted + [s[0], s[1], s[2], s[3]]
  {
    hide MP.Parse, Step;
    CdnAccepted(c, w, content, garbage);
    var s := MP.Parse(content, garbage).value.segments;
    assert s[..4] == [s[0], s[1], s[2], s[3]];
  }

  /** Every other event accepts nothing. */
  lemma OthersAcceptNothing(c: Config, w: World, e: Event)
    requires Ids(w) && !e.CdnPlaylist? && (e.FluteFile? ==> e.file.location != c.path)
    ensures Step(c, w, e).accepted == w.accepted
  {
    hide WorldView;
  }

  // ------------------------------------------------------------ what a segment starts with and keeps

  /** Clients are the stream's, and a date is that of the broadcast file until the CDN answers. */
  ghost predicate Started(c: Config, s: SegmentValue) {
    && s.cdnClient == c.cdn
    && (s.cdn == None ==> s.receivedAt == match s.flute case None => 0 case Some(f) => f.receivedAt)
  }

  ghost predicate AllStarted(c: Config, w: World) {
    forall i | 0 <= i < |w.store| :: Started(c, w.store[i])
  }

  lemma {:induction false} MergeKeepsStarted(c: Config, w: World, ls: seq<MP.Listing>)
    requires Ids(w) && AllStarted(c, w)
    ensures AllStarted(c, Merge(c, w, ls))
  {
    if ls != [] { MergeKeepsStarted(c, w, ls[..|ls| - 1]); }
  }

  lemma HandlePlaylistKeepsStarted(c: Config, w: World, content: string, source: ItemSource, garbage: int)
    requires Ids(w) && AllStarted(c, w)
    ensures AllStarted(c, HandlePlaylist(c, w, content, source, garbage))
  {
    hide MP.Parse, Merge, Evict, MP.Print, WindowListing;
    var p := MP.Parse(content, garbage);
    if p.Success? {
      var ls := Admitted(p.value.segments, source, c.truncate);
      MergeKeepsStarted(c, w, ls);
      EvictIs(Merge(c, w, ls), c.keep);
    }
  }

  lemma StepKeepsStarted(c: Config, w: World, e: Event)
    requires Ids(w) && AllStarted(c, w)
    ensures AllStarted(c, Step(c, w, e))
  {
    hide HandlePlaylist, WorldView;
    match PlaylistOf(c, e)
    case None =>
    case Some(p) => HandlePlaylistKeepsStarted(c, w, p.0, p.1, p.2);
  }

  /** In every reachable state. */
  lemma {:induction false} SegmentsStarted(c: Config, w0: World, es: seq<Event>)
    requires Initial(w0)
    ensures Ids(w0)
    ensures forall i | 0 <= i < |Run(c, w0, es).store| ::
      var s := Run(c, w0, es).store[i];
      && s.cdnClient == c.cdn
      && (s.cdn == None ==> s.receivedAt == match s.flute case None => 0 case Some(f) => f.receivedAt)
  {
    hide Step;
    if es != [] {
      SegmentsStarted(c, w0, es[..|es| - 1]);
      StepKeepsStarted(c, Run(c, w0, es[..|es| - 1]), es[|es| - 1]);
    }
  }
}
