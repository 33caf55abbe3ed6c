/**
 The target duration that is published, and when the published text obeys RFC 8216 section 4.3.3.1: no duration,
 rounded to whole seconds, exceeds it.
 */
module TargetDurations {
  import opened Wrappers
  import opened Text
  import opened Ordering
  import opened Decimal
  import opened TopNumbers
  import opened Segments
  import opened EdgeCache
  import opened WindowInvariants
  import opened Runs
  import MP = MediaPlaylist

  /** The target that an event brings: that of its playlist, if there is one and it parses. */
  function TargetOf(c: Config, e: Event): Option<int> {
    match PlaylistOf(c, e)
    case None => None
    case Some(p) =>
      match MP.Parse(p.0, p.2)
      case Failure(_) => None
      case Success(parsed) => Some(parsed.target)
  }

  /** The target of the last playlist that parsed, from either source. */
  function LastTarget(c: Config, es: seq<Event>): Option<int> {
    if es == [] then None
    else if TargetOf(c, es[|es| - 1]).Some? then TargetOf(c, es[|es| - 1])
    else LastTarget(c, es[..|es| - 1])
  }

  lemma {:induction false} MergeTarget(c: Config, w: World, ls: seq<MP.Listing>)
    requires Ids(w)
    ensures Merge(c, w, ls).target == w.target
  {
    if ls != [] { MergeTarget(c, w, ls[..|ls| - 1]); }
  }

  lemma HandlePlaylistTarget(c: Config, w: World, content: string, source: ItemSource, garbage: int)
    requires Ids(w)
    ensures var p := MP.Parse(content, garbage);
      HandlePlaylist(c, w, content, source, garbage).target == if p.Success? then Some(p.value.target) else w.target
  {
    hide MP.Parse, MP.Print, WindowListing, Merge, Evict;
    var p := MP.Parse(content, garbage);
    if p.Success? {
      var ls := Admitted(p.value.segments, source, c.truncate);
      MergeTarget(c, w, ls);
      EvictIs(Merge(c, w, ls), c.keep);
    }
  }

  lemma StepTarget(c: Config, w: World, e: Event)
    requires Ids(w)
    ensures Step(c, w, e).target == if TargetOf(c, e).Some? then TargetOf(c, e) else w.target
  {
    hide Step, HandlePlaylist, MP.Parse;
    StepIs(c, w, e);
    match PlaylistOf(c, e)
    case None =>
    case Some(p) => HandlePlaylistTarget(c, w, p.0, p.1, p.2);
  }

  lemma {:induction false} RunTarget(c: Config, w0: World, es: seq<Event>)
    requires Initial(w0)
    ensures Ids(w0) && Run(c, w0, es).target == LastTarget(c, es)
  {
    hide Step, TargetOf;
    if es != [] {
      RunTarget(c, w0, es[..|es| - 1]);
      StepTarget(c, Run(c, w0, es[..|es| - 1]), es[|es| - 1]);
    }
  }

  /** What a client reads from the published text as the target is that of the last playlist that parsed. */
  lemma PublishedTarget(c: Config, w0: World, es: seq<Event>, garbage: int)
    requires Initial(w0) && '\n' !in c.dir && 0 < c.keep && AcceptedBy(c, es) != []
    ensures Ids(w0) && LastTarget(c, es).Some?
    ensures var p := MP.Parse(Run(c, w0, es).playlist, garbage);
      p.Success? && p.value.target == LastTarget(c, es).value
  {
    hide MP.Parse, MP.Print, Step, AcceptedBy, WindowInv, WindowListing, LastTarget, Run, Initial;
    InitialIds(w0);
    InitialInvariants(c, w0);
    RunKeepsWindow(c, w0, es);
    SomethingAccepted(c, w0, es);
    RunTarget(c, w0, es);
    WindowTarget(c, Run(c, w0, es), garbage);
  }

  lemma WindowTarget(c: Config, w: World, garbage: int)
    requires AllInv(c, w) && '\n' !in c.dir && w.window != map[]
    ensures w.target.Some?
    ensures var p := MP.Parse(w.playlist, garbage); p.Success? && p.value.target == w.target.value
  {
    hide MP.Parse, MP.Print, WindowInv, WindowListing;
    InvariantIds(c, w);
    WindowReadsBack(c, w, garbage);
    ListingPrintable(c, w);
    MP.RoundTrip(w.target.value, WindowListing(w), garbage);
  }

  // ------------------------------------------------------------ the rule of the standard

  /** A duration rounded to whole seconds. */
  function Seconds(duration: int): int { (duration + ONE / 2) / ONE }

  /** Every rounded duration of a playlist is at most its target. */
  ghost predicate ObeysTarget(p: MP.State) {
    forall i | 0 <= i < |p.segments| :: Seconds(p.segments[i].extinf) <= p.target
  }

  /** The duration that is published for a number: that of its first listing, to six significant digits. */
  function PublishedDuration(c: Config, es: seq<Event>, s: int): int
    requires s in Numbers(AcceptedBy(c, es))
  {
    Round6(First(AcceptedBy(c, es), s).extinf)
  }

  /** The i-th published duration is that of the i-th segment in the window, to six significant digits. */
  lemma DurationAt(c: Config, w: World, garbage: int, i: nat)
    requires AllInv(c, w) && '\n' !in c.dir && i < |w.window|
    ensures Ids(w) && SortedInts(w.window.Keys)[i] in w.window
    ensures var p, ks := MP.Parse(w.playlist, garbage), SortedInts(w.window.Keys);
      && p.Success? && |p.value.segments| == |ks|
      && p.value.segments[i].extinf == Round6(w.store[w.window[ks[i]]].extinf)
  {
    hide MP.Parse, MP.Print, AllInv, WindowListing, SortedInts, Round6;
    InvariantIds(c, w);
    assert w.window != map[];
    WindowReadsBack(c, w, garbage);
    ListingAt(w, i);
  }

  lemma PublishedAt(c: Config, w0: World, es: seq<Event>, garbage: int, i: nat)
    requires Initial(w0) && Ids(w0) && '\n' !in c.dir && i < |Run(c, w0, es).window|
    ensures var p, ks := MP.Parse(Run(c, w0, es).playlist, garbage), SortedInts(Run(c, w0, es).window.Keys);
      && p.Success? && |p.value.segments| == |ks| == |Run(c, w0, es).window|
      && ks[i] in Largest(Numbers(AcceptedBy(c, es)), c.keep)
      && p.value.segments[i].extinf == PublishedDuration(c, es, ks[i])
  {
    hide MP.Parse, Run, AllInv, SortedInts, Round6, AcceptedBy, Largest, Numbers, First, Initial;
    InitialInvariants(c, w0);
    RunKeepsWindow(c, w0, es);
    DurationAt(c, Run(c, w0, es), garbage, i);
    WindowIsLargestAccepted(c, w0, es);
  }

  lemma IndexOf(c: Config, w0: World, es: seq<Event>, s: int) returns (i: nat)
    requires Initial(w0) && Ids(w0) && s in Largest(Numbers(AcceptedBy(c, es)), c.keep)
    ensures i < |Run(c, w0, es).window| && SortedInts(Run(c, w0, es).window.Keys)[i] == s
  {
    hide Run, SortedInts, AcceptedBy, Largest, Numbers, First, Initial;
    WindowIsLargestAccepted(c, w0, es);
    var ks := SortedInts(Run(c, w0, es).window.Keys);
    assert |ks| == |Run(c, w0, es).window.Keys| == |Run(c, w0, es).window|;
    assert s in ks;
    i :| 0 <= i < |ks| && ks[i] == s;
  }

  /**
   The published text obeys the rule exactly when the last target covers, for each number kept, the duration that it
   was first listed with.
   */
  lemma ObeysTargetIff(c: Config, w0: World, es: seq<Event>, garbage: int)
    requires Initial(w0) && '\n' !in c.dir && 0 < c.keep && AcceptedBy(c, es) != []
    ensures Ids(w0) && LastTarget(c, es).Some?
    ensures var p := MP.Parse(Run(c, w0, es).playlist, garbage);
      && p.Success?
      && (ObeysTarget(p.value) <==>
            forall s | s in Largest(Numbers(AcceptedBy(c, es)), c.keep) ::
              Seconds(PublishedDuration(c, es, s)) <= LastTarget(c, es).value)
  {
    hide MP.Parse, Run, SortedInts, AcceptedBy, Largest, Numbers, Initial, PublishedDuration, Seconds, LastTarget;
    PublishedTarget(c, w0, es, garbage);
    SomethingAccepted(c, w0, es);
    var p, kept := MP.Parse(Run(c, w0, es).playlist, garbage).value, Largest(Numbers(AcceptedBy(c, es)), c.keep);
    SomeKey(Run(c, w0, es));
    PublishedAt(c, w0, es, garbage, 0);
    if ObeysTarget(p) {
      forall s | s in kept ensures Seconds(PublishedDuration(c, es, s)) <= LastTarget(c, es).value {
        var i := IndexOf(c, w0, es, s);
        PublishedAt(c, w0, es, garbage, i);
      }
    }
    if forall s | s in kept :: Seconds(PublishedDuration(c, es, s)) <= LastTarget(c, es).value {
      forall i | 0 <= i < |p.segments| ensures Seconds(p.segments[i].extinf) <= p.target {
        PublishedAt(c, w0, es, garbage, i);
      }
    }
  }

  // ------------------------------------------------------------ two texts for which the rule fails

  const LONG := Unlines(["#EXTM3U", "#EXT-X-VERSION:3", "#EXT-X-TARGETDURATION:10", "#EXT-X-MEDIA-SEQUENCE:5",
                         "#EXTINF:10", "/long.ts"])
  const SHORT := Unlines(["#EXTM3U", "#EXT-X-VERSION:3", "#EXT-X-TARGETDURATION:4", "#EXT-X-MEDIA-SEQUENCE:6",
                          "#EXTINF:4", "/short.ts"])

  lemma OnePrinted(target: int, uri: string, nr: int, extinf: int, t: string, m: string, e: string)
    requires IntText(target) == t && IntText(nr) == m && GeneralText(extinf) == e
    ensures MP.Print(target, [MP.Listing(uri, nr, extinf)]) ==
            Unlines([MP.HEADER, MP.VERSION + ":3", MP.TARGETDURATION + ":" + t, MP.MEDIA_SEQUENCE + ":" + m,
                     MP.EXTINF + ":" + e, "/" + uri])
  {
    hide IntText, GeneralText, Unlines;
    var l := MP.Listing(uri, nr, extinf);
    assert [l][..0] == [];
    assert MP.SegmentLines([l]) == [] + MP.SegmentPair(l) == MP.SegmentPair(l);
    assert MP.HeadLines(target, [l]) + MP.SegmentLines([l]) ==
           [MP.HEADER, MP.VERSION + ":3", MP.TARGETDURATION + ":" + t, MP.MEDIA_SEQUENCE + ":" + m,
            MP.EXTINF + ":" + e, "/" + uri];
  }

  lemma ExampleNumbers()
    ensures IntText(10) == "10" && IntText(4) == "4" && IntText(5) == "5" && IntText(6) == "6"
    ensures Round6(10_000_000) == 10_000_000 && Round6(4_000_000) == 4_000_000
    ensures Seconds(10_000_000) == 10 && Seconds(4_000_000) == 4
  {
    assert NatText(10) == NatText(1) + [DigitChar(0)] == "10";
    assert SignificantUnit(10_000_000) == 100;
    assert SignificantUnit(4_000_000) == 10;
  }

  lemma ExampleTexts()
    ensures GeneralText(10_000_000) == "10" && GeneralText(4_000_000) == "4"
  {
    ExampleNumbers();
    WholeText(10);
    WholeText(4);
  }

  lemma WholeText(n: nat)
    requires n < 100 && Round6(n * ONE) == n * ONE && n > 0
    ensures GeneralText(n * ONE) == IntText(n)
  {
    hide NatText;
    assert RoundTo(n * ONE, SignificantUnit(n * ONE)) == n * ONE;
    assert "" + NatText(n) + "" == NatText(n);
  }

  lemma ExamplesRead(garbage: int)
    ensures var p := MP.Parse(LONG, garbage);
      p.Success? && p.value.target == 10 && p.value.segments == [MP.Listing("/long.ts", 5, 10_000_000)]
    ensures var p := MP.Parse(SHORT, garbage);
      p.Success? && p.value.target == 4 && p.value.segments == [MP.Listing("/short.ts", 6, 4_000_000)]
  {
    hide MP.Parse, MP.Print, Unlines, Round6, IntText, GeneralText, MP.KindOf;
    ExampleNumbers();
    ExampleTexts();
    OnePrinted(10, "long.ts", 5, 10_000_000, "10", "5", "10");
    OnePrinted(4, "short.ts", 6, 4_000_000, "4", "6", "4");
    ExampleLines();
    var l, s := [MP.Listing("long.ts", 5, 10_000_000)], [MP.Listing("short.ts", 6, 4_000_000)];
    MP.RoundTrip(10, l, garbage);
    MP.RoundTrip(4, s, garbage);
    assert MP.Reread(l, 5) == [MP.Listing("/long.ts", 5, 10_000_000)];
    assert MP.Reread(s, 6) == [MP.Listing("/short.ts", 6, 4_000_000)];
  }

  lemma ExampleLines()
    ensures MP.HEADER == "#EXTM3U" && MP.VERSION + ":3" == "#EXT-X-VERSION:3"
    ensures MP.TARGETDURATION + ":" + "10" == "#EXT-X-TARGETDURATION:10"
    ensures MP.TARGETDURATION + ":" + "4" == "#EXT-X-TARGETDURATION:4"
    ensures MP.MEDIA_SEQUENCE + ":" + "5" == "#EXT-X-MEDIA-SEQUENCE:5"
    ensures MP.MEDIA_SEQUENCE + ":" + "6" == "#EXT-X-MEDIA-SEQUENCE:6"
    ensures MP.EXTINF + ":" + "10" == "#EXTINF:10" && MP.EXTINF + ":" + "4" == "#EXTINF:4"
    ensures "/" + "long.ts" == "/long.ts" && "/" + "short.ts" == "/short.ts"
  {}

  lemma ExampleHistory(c: Config, garbage: int)
    ensures var es := [CdnPlaylist(LONG, garbage), CdnPlaylist(SHORT, garbage)];
      && AcceptedBy(c, es) == [MP.Listing("/long.ts", 5, 10_000_000), MP.Listing("/short.ts", 6, 4_000_000)]
      && LastTarget(c, es) == Some(4)
  {
    hide MP.Parse;
    var l, s := CdnPlaylist(LONG, garbage), CdnPlaylist(SHORT, garbage);
    ExamplesRead(garbage);
    assert [l][..0] == [] && [l, s][..1] == [l];
    assert ListingsOf(c, l) == [MP.Listing("/long.ts", 5, 10_000_000)];
    assert ListingsOf(c, s) == [MP.Listing("/short.ts", 6, 4_000_000)];
    assert AcceptedBy(c, [l]) == [] + ListingsOf(c, l);
    assert AcceptedBy(c, [l, s]) == AcceptedBy(c, [l]) + ListingsOf(c, s);
  }

  lemma ExampleKept(k: nat)
    requires k >= 2
    ensures Largest({5, 6}, k) == {5, 6}
  {
    assert |{5, 6}| == 2;
    AllOfFew({5, 6}, k);
  }

  lemma ExampleDuration(ls: seq<MP.Listing>)
    requires ls == [MP.Listing("/long.ts", 5, 10_000_000), MP.Listing("/short.ts", 6, 4_000_000)]
    ensures Numbers(ls) == {5, 6} && First(ls, 5).extinf == 10_000_000
  {
    assert ls[0] in ls && ls[1] in ls;
  }

  /** Both texts obey the rule; what is published after the two, in any window of two or more, does not. */
  lemma TargetCanBeExceeded(c: Config, w0: World, garbage: int)
    requires Initial(w0) && '\n' !in c.dir && c.keep >= 2
    ensures Ids(w0)
    ensures MP.Parse(LONG, garbage).Success? && ObeysTarget(MP.Parse(LONG, garbage).value)
    ensures MP.Parse(SHORT, garbage).Success? && ObeysTarget(MP.Parse(SHORT, garbage).value)
    ensures var p := MP.Parse(Run(c, w0, [CdnPlaylist(LONG, garbage), CdnPlaylist(SHORT, garbage)]).playlist, garbage);
      p.Success? && !ObeysTarget(p.value)
  {
    hide MP.Parse, Run, AcceptedBy, Largest, Numbers, First, Initial, Seconds, Round6, LastTarget;
    var es := [CdnPlaylist(LONG, garbage), CdnPlaylist(SHORT, garbage)];
    InitialIds(w0);
    ExamplesRead(garbage);
    ExampleNumbers();
    ExampleHistory(c, garbage);
    ExampleDuration(AcceptedBy(c, es));
    ExampleKept(c.keep);
    ObeysTargetIff(c, w0, es, garbage);
    assert 5 in Largest(Numbers(AcceptedBy(c, es)), c.keep);
  }
}
