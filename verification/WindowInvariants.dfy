/**
 Which segments the window holds, and that the published playlist lists exactly them.
 */
module WindowInvariants {
  import opened Wrappers
  import opened Ordering
  import opened TopNumbers
  import opened Segments
  import opened EdgeCache
  import opened CacheInvariants
  import Sweep
  import MP = MediaPlaylist

  function Numbers(ls: seq<MP.Listing>): set<int> { set l | l in ls :: l.nr }

  /** The first listing with a number. */
  function First(ls: seq<MP.Listing>, nr: int): (l: MP.Listing)
    requires nr in Numbers(ls)
    ensures l in ls && l.nr == nr
  {
    if ls[0].nr == nr then ls[0] else
      NumbersCons(ls);
      First(ls[1..], nr)
  }

  lemma NumbersCons(ls: seq<MP.Listing>)
    requires ls != []
    ensures Numbers(ls) == {ls[0].nr} + Numbers(ls[1..])
  {
    assert ls == [ls[0]] + ls[1..];
    assert forall l :: l in ls <==> l == ls[0] || l in ls[1..];
  }

  lemma NumbersConcat(a: seq<MP.Listing>, b: seq<MP.Listing>)
    ensures Numbers(a + b) == Numbers(a) + Numbers(b)
  {
    assert forall l :: l in a + b <==> l in a || l in b;
  }

  lemma {:induction false} FirstConcat(a: seq<MP.Listing>, b: seq<MP.Listing>, nr: int)
    requires nr in Numbers(a) + Numbers(b)
    ensures nr in Numbers(a + b)
    ensures First(a + b, nr) == if nr in Numbers(a) then First(a, nr) else First(b, nr)
  {
    NumbersConcat(a, b);
    if a == [] {
      assert a + b == b;
    } else {
      NumbersCons(a);
      assert (a + b)[0] == a[0] && (a + b)[1..] == a[1..] + b;
      if a[0].nr != nr { FirstConcat(a[1..], b, nr); }
    }
  }

  /** The window holds the largest numbers ever accepted, each as first listed. */
  ghost predicate WindowInv(c: Config, w: World) {
    && Provenance(c, w)
    && w.window.Keys == Largest(Numbers(w.accepted), c.keep)
    && forall s | s in w.window :: w.origins[w.window[s]] == First(w.accepted, s)
  }

  /** What merging does to the window: old entries stay, new numbers come from their first listing. */
  ghost predicate Merged(w: World, ls: seq<MP.Listing>, r: World) {
    && |w.origins| == |w.store| && |r.origins| == |r.store|
    && w.origins <= r.origins
    && (forall s | s in w.window :: w.window[s] < |w.store|)
    && (forall s | s in r.window :: r.window[s] < |r.store|)
    && r.window.Keys == w.window.Keys + Numbers(ls)
    && (forall s | s in w.window :: r.window[s] == w.window[s])
    && (forall s | s in Numbers(ls) && s !in w.window :: r.origins[r.window[s]] == First(ls, s))
  }

  lemma FirstSnoc(ls: seq<MP.Listing>, l: MP.Listing)
    ensures Numbers(ls + [l]) == Numbers(ls) + {l.nr}
    ensures forall s | s in Numbers(ls + [l]) :: First(ls + [l], s) == if s in Numbers(ls) then First(ls, s) else l
  {
    NumbersConcat(ls, [l]);
    assert Numbers([l]) == {l.nr};
    assert First([l], l.nr) == l;
    forall s | s in Numbers(ls + [l])
      ensures First(ls + [l], s) == if s in Numbers(ls) then First(ls, s) else l
    {
      FirstConcat(ls, [l], s);
    }
  }

  lemma MergedOne(c: Config, w: World, ls: seq<MP.Listing>, m: World, l: MP.Listing)
    requires Provenance(c, m) && Merged(w, ls, m)
    ensures Merged(w, ls + [l], MergeOne(c, m, l))
  {
    FirstSnoc(ls, l);
    hide First, Numbers;
  }

  lemma {:induction false} MergeIs(c: Config, w: World, ls: seq<MP.Listing>)
    requires Provenance(c, w)
    ensures Merged(w, ls, Merge(c, w, ls)) && Provenance(c, Merge(c, w, ls))
  {
    if ls != [] {
      var rest, l := ls[..|ls| - 1], ls[|ls| - 1];
      assert ls == rest + [l];
      MergeIs(c, w, rest);
      MergeOneKeepsProvenance(c, Merge(c, w, rest), l);
      MergedOne(c, w, rest, Merge(c, w, rest), l);
    }
  }

  /** A new segment takes the file staged under its URI, and only then. */
  ghost predicate Claimed(c: Config, w: World, ls: seq<MP.Listing>, r: World) {
    && (forall s | s in r.window :: r.window[s] < |r.store|)
    && (forall s | s in Numbers(ls) && s !in w.window ::
          var uri := c.dir + First(ls, s).uri;
          && s in r.window && uri !in r.staged
          && r.store[r.window[s]].flute == if uri in w.staged then Some(w.staged[uri]) else None)
    && (forall n | n in w.staged && n !in r.staged :: exists l :: l in ls && l.nr !in w.window && n == c.dir + l.uri)
    && (forall n | n in r.staged :: n in w.staged && r.staged[n] == w.staged[n])
  }

  /** A file claimed under the URI of `l` was claimed for its number. */
  lemma ClaimedForNumber(c: Config, w: World, ls: seq<MP.Listing>, m: World, l: MP.Listing)
    requires Distinct(ls + [l]) && Claimed(c, w, ls, m)
    requires c.dir + l.uri in w.staged && c.dir + l.uri !in m.staged
    ensures l.nr in Numbers(ls)
  {
    var x :| x in ls && c.dir + l.uri == c.dir + x.uri;
    SameTail(c.dir, x.uri, l.uri);
    assert x in ls + [l] && l in ls + [l];
    assert x.nr in Numbers(ls);
  }

  lemma ClaimedOne(c: Config, w: World, ls: seq<MP.Listing>, m: World, l: MP.Listing)
    requires Ids(m) && Distinct(ls + [l])
    requires Claimed(c, w, ls, m) && m.window.Keys == w.window.Keys + Numbers(ls)
    ensures Claimed(c, w, ls + [l], MergeOne(c, m, l))
  {
    hide First, Numbers, Distinct;
    FirstSnoc(ls, l);
    var r := MergeOne(c, m, l);
    var uri := c.dir + l.uri;
    if uri in w.staged && uri !in m.staged { ClaimedForNumber(c, w, ls, m, l); }
    assert l in ls + [l] && forall x | x in ls :: x in ls + [l];
    forall n | n in w.staged && n !in r.staged
      ensures exists x :: x in ls + [l] && x.nr !in w.window && n == c.dir + x.uri
    {
      if n !in m.staged {
        var x :| x in ls && x.nr !in w.window && n == c.dir + x.uri;
        assert x in ls + [l];
      }
    }
  }

  lemma {:induction false} MergeClaims(c: Config, w: World, ls: seq<MP.Listing>)
    requires Provenance(c, w) && Distinct(ls)
    ensures Claimed(c, w, ls, Merge(c, w, ls))
  {
    hide MergeOne, Claimed;
    if ls == [] {
      NothingClaimed(c, w);
    } else {
      var rest, l := ls[..|ls| - 1], ls[|ls| - 1];
      assert ls == rest + [l];
      assert Distinct(rest) by { assert forall x | x in rest :: x in ls; }
      MergeClaims(c, w, rest);
      MergeIs(c, w, rest);
      ClaimedOne(c, w, rest, Merge(c, w, rest), l);
    }
  }

  lemma NothingClaimed(c: Config, w: World)
    requires Ids(w)
    ensures Claimed(c, w, [], w)
  {}

  lemma {:induction false} EvictIs(w: World, keep: nat)
    requires Ids(w)
    ensures var r := Evict(w, keep);
      && r.window.Keys == Largest(w.window.Keys, keep)
      && (forall s | s in r.window :: r.window[s] == w.window[s])
      && r == w.(window := r.window, cache := r.cache)
    decreases |w.window|
  {
    if |w.window| > keep {
      assert w.window != map[];
      var e := EvictOne(w);
      var m := MinInt(w.window.Keys);
      assert e.window.Keys == w.window.Keys - {m};
      EvictIs(e, keep);
      MinIsLoser(w.window.Keys, keep);
      DropLoser(w.window.Keys, keep, m);
    } else {
      AllOfFew(w.window.Keys, keep);
    }
  }

  /** Merge then evict, whatever the listings. */
  lemma MergeEvictKeepsWindow(c: Config, w: World, ls: seq<MP.Listing>)
    requires WindowInv(c, w)
    ensures var r := Evict(Merge(c, w, ls), c.keep);
      && WindowInv(c, r)
      && r.accepted == w.accepted + ls
      && r.window.Keys == Largest(w.window.Keys + Numbers(ls), c.keep)
  {
    hide Merge, Evict, Largest;
    var m := Merge(c, w, ls);
    var r := Evict(m, c.keep);
    MergeIs(c, w, ls);
    EvictIs(m, c.keep);
    AcceptedGrows(c, w, ls);
    NumbersConcat(w.accepted, ls);
    KeptUnion(Numbers(w.accepted), Numbers(ls), c.keep);
    forall s | s in r.window ensures r.origins[r.window[s]] == First(r.accepted, s) {
      FirstConcat(w.accepted, ls, s);
      if s in Numbers(w.accepted) {
        if s !in w.window {
          LoserStays(Numbers(w.accepted), Numbers(r.accepted), c.keep, s);
        }
      }
    }
  }

  // ------------------------------------------------------------ the published text

  /** The playlist text lists the window; before the first playlist the window is empty. */
  ghost predicate TextInv(w: World)
    requires Ids(w)
  {
    && (forall l | l in w.accepted :: MP.UriLine(l.uri))
    && match w.target
       case None => w.window == map[] && w.playlist == "none"
       case Some(t) => w.playlist == MP.Print(t, WindowListing(w))
  }

  /** Steps that leave number, URI and duration of every segment alone leave the listing alone. */
  lemma SameListing(w: World, r: World)
    requires Ids(w) && r.window == w.window && |r.store| == |w.store|
    requires forall i | 0 <= i < |w.store| ::
      r.store[i].uri == w.store[i].uri && r.store[i].nr == w.store[i].nr && r.store[i].extinf == w.store[i].extinf
    ensures Ids(r) && WindowListing(r) == WindowListing(w)
  {}

  ghost predicate AllInv(c: Config, w: World) {
    WindowInv(c, w) && TextInv(w)
  }

  lemma HandlePlaylistKeepsWindow(c: Config, w: World, content: string, source: ItemSource, garbage: int)
    requires AllInv(c, w)
    ensures AllInv(c, HandlePlaylist(c, w, content, source, garbage))
  {
    assert Ids(w);
    hide MP.Parse, MP.Print, WindowListing, Merge, Evict, WindowInv;
    var p := MP.Parse(content, garbage);
    if p.Success? {
      var ls := Admitted(p.value.segments, source, c.truncate);
      var m := Evict(Merge(c, w, ls), c.keep);
      var r := Publish(m, p.value.target);
      MergeEvictKeepsWindow(c, w, ls);
      PublishKeepsWindow(c, m, p.value.target);
      MP.ParsedUris(content, garbage);
      assert forall l | l in ls :: l in p.value.segments;
      assert r.accepted == w.accepted + ls;
    }
  }

  lemma PublishKeepsWindow(c: Config, w: World, target: int)
    requires WindowInv(c, w)
    ensures var r := Publish(w, target);
            WindowInv(c, r) && r.accepted == w.accepted && r.playlist == MP.Print(target, WindowListing(r))
  {
    hide MP.Print, WindowListing, Largest, Numbers, First;
    SameListing(w, Publish(w, target));
  }

  /** What steps that do not read a playlist leave alone. */
  ghost predicate Quiet(w: World, r: World) {
    && |r.store| == |w.store|
    && (forall i | 0 <= i < |w.store| ::
      r.store[i].uri == w.store[i].uri && r.store[i].nr == w.store[i].nr && r.store[i].extinf == w.store[i].extinf)
    && r == w.(store := r.store, staged := r.staged, cache := r.cache, complete := r.complete, clock := r.clock,
               delivered := r.delivered, superseded := r.superseded, swept := r.swept)
  }

  /** The playlist an event carries, if it is one for this stream. */
  function PlaylistOf(c: Config, e: Event): Option<(string, ItemSource, int)> {
    match e
    case FluteFile(file, garbage) => if file.location == c.path then Some((file.content, Broadcast, garbage)) else None
    case CdnPlaylist(content, garbage) => Some((content, CDN, garbage))
    case _ => None
  }

  lemma StepIs(c: Config, w: World, e: Event)
    requires Ids(w)
    ensures match PlaylistOf(c, e)
            case Some(p) => Step(c, w, e) == HandlePlaylist(c, w, p.0, p.1, p.2)
            case None => Quiet(w, Step(c, w, e))
  {
    hide HandlePlaylist, WorldView, Sweep.Kept;
  }

  lemma QuietKeepsWindow(c: Config, w: World, r: World)
    requires AllInv(c, w) && Quiet(w, r)
    ensures AllInv(c, r)
  {
    hide MP.Print, WindowListing, Largest;
    SameListing(w, r);
  }

  lemma StepKeepsWindow(c: Config, w: World, e: Event)
    requires AllInv(c, w)
    ensures AllInv(c, Step(c, w, e))
  {
    assert Ids(w);
    hide AllInv, HandlePlaylist, Step;
    StepIs(c, w, e);
    match PlaylistOf(c, e)
    case Some(p) => HandlePlaylistKeepsWindow(c, w, p.0, p.1, p.2);
    case None => QuietKeepsWindow(c, w, Step(c, w, e));
  }
}
