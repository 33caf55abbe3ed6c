/**
 `Service`: attribute matching against the master manifest and regeneration of the published manifest.
 */
module Services {
  import opened Ordering
  import opened Cache
  import opened ContentStreams
  import PP = PrimaryPlaylist

  datatype DeliveryProtocol = HLS | DASH | RTP

  /** Attributes of a stream after matching: the last entry of the master manifest with its path decides. */
  function Matched(master: seq<PP.Stream>, s: PP.Stream): PP.Stream {
    if master == [] then s
    else if master[|master| - 1].uri == s.uri then master[|master| - 1]
    else Matched(master[..|master| - 1], s)
  }

  /** What the manifest prints of the stream map: ascending paths, a slash before each. */
  function ManifestEntries(streams: map<string, PP.Stream>): seq<PP.Stream> {
    var ks := SortedStrings(streams.Keys);
    seq(|ks|, i requires 0 <= i < |ks| => streams[ks[i]].(uri := "/" + streams[ks[i]].uri))
  }

  /** The HLS part of a service: master manifest, stream map, published text. */
  datatype State = State(master: seq<PP.Stream>, streams: map<string, PP.Stream>, manifest: string)

  function Add(st: State, s: PP.Stream): State {
    var streams := st.streams[s.uri := Matched(st.master, s)];
    State(st.master, streams, PP.Print(ManifestEntries(streams)))
  }

  function AddAll(st: State, ss: seq<PP.Stream>): State {
    if ss == [] then st else Add(AddAll(st, ss[..|ss| - 1]), ss[|ss| - 1])
  }

  class Service {
    const cache: CacheManagement
    const protocol: DeliveryProtocol
    const manifest: TextCell
    var manifestPath: string
    var hlsPrimaryPlaylist: seq<PP.Stream>
    var dashManifest: string
    var contentStreams: map<string, ContentStream>

    constructor (cache: CacheManagement, protocol: DeliveryProtocol)
      ensures this.cache == cache && this.protocol == protocol
      ensures Valid() && contentStreams == map[] && hlsPrimaryPlaylist == [] && manifest.text == ""
    {
      this.cache, this.protocol := cache, protocol;
      manifest := new TextCell("");
      manifestPath, hlsPrimaryPlaylist, dashManifest, contentStreams := "", [], "", map[];
    }

    function Streams(): set<object>
      reads this
    {
      set k | k in contentStreams :: contentStreams[k]
    }

    /** Streams are filed under their playlist paths. */
    ghost predicate Valid()
      reads this, Streams()
    {
      forall k | k in contentStreams :: contentStreams[k].playlistPath == k
    }

    /** Path and attributes of every stream. */
    function StreamValues(): map<string, PP.Stream>
      reads this, Streams()
    {
      map k | k in contentStreams :: contentStreams[k].AsStream()
    }

    ghost function AsState(): State
      reads this, Streams(), manifest
    {
      State(hlsPrimaryPlaylist, StreamValues(), manifest.text)
    }

    method ReadMasterManifest(content: string, basePath: string) returns (thrown: bool)
      modifies this`hlsPrimaryPlaylist, this`dashManifest, this`manifestPath, cache
      ensures thrown <==> protocol == HLS && PP.Parse(content, basePath).Failure?
      ensures !thrown && protocol == HLS ==>
        hlsPrimaryPlaylist == PP.Parse(content, basePath).value.streams && manifestPath == basePath + "manifest.m3u8"
      ensures !thrown && protocol != HLS ==>
        hlsPrimaryPlaylist == old(hlsPrimaryPlaylist) && manifestPath == basePath + "manifest.mpd"
      ensures protocol != DASH ==> dashManifest == old(dashManifest)
      ensures !thrown && protocol == DASH ==> dashManifest == content
      ensures !thrown ==> cache.items == old(cache.items)[manifestPath := CachedPlaylist(manifestPath, manifest)]
      ensures thrown ==> cache.items == old(cache.items) && manifestPath == old(manifestPath)
      ensures thrown ==> hlsPrimaryPlaylist == old(hlsPrimaryPlaylist)
    {
      hide PP.Parse;
      thrown := false;
      if protocol == HLS {
        var pl := new PP.HlsPrimaryPlaylist();
        thrown := pl.Read(content, basePath);
        if thrown { return; }
        hlsPrimaryPlaylist := pl.streams;
      } else if protocol == DASH {
        dashManifest := content;
      }
      manifestPath := if protocol == HLS then basePath + "manifest.m3u8" else basePath + "manifest.mpd";
      cache.AddItem(CachedPlaylist(manifestPath, manifest));
    }

    /** The loop over the entries of the master manifest. */
    method MatchAttributes(s: ContentStream)
      modifies s`resolution, s`codecs, s`bandwidth, s`frameRate
      ensures s.AsStream() == Matched(hlsPrimaryPlaylist, old(s.AsStream()))
    {
      var i := 0;
      ghost var s0 := s.AsStream();
      assert hlsPrimaryPlaylist[..0] == [];
      while i < |hlsPrimaryPlaylist|
        invariant 0 <= i <= |hlsPrimaryPlaylist|
        invariant s.AsStream() == Matched(hlsPrimaryPlaylist[..i], s0)
      {
        assert hlsPrimaryPlaylist[..i + 1][..i] == hlsPrimaryPlaylist[..i];
        MatchedUri(hlsPrimaryPlaylist[..i], s0);
        if hlsPrimaryPlaylist[i].uri == s.playlistPath {
          s.SetAttributes(hlsPrimaryPlaylist[i]);
        }
        i := i + 1;
      }
      assert hlsPrimaryPlaylist[..i] == hlsPrimaryPlaylist;
    }

    /** The loop over the stream map; nothing it calls changes a stream. */
    static method PrintManifest(streams: map<string, PP.Stream>) returns (text: string)
      ensures text == PP.Print(ManifestEntries(streams))
    {
      hide PP.Print, ManifestEntries, Ascending;
      ghost var entries := ManifestEntries(streams);
      var pl := new PP.HlsPrimaryPlaylist();
      var paths := SortedStrings(streams.Keys);
      EntryCount(streams);
      var i := 0;
      while i < |paths|
        invariant 0 <= i <= |paths| == |entries|
        invariant pl.streams == entries[..i]
      {
        EntryAt(streams, i);
        var stream := streams[paths[i]];
        pl.AddStream(stream.(uri := "/" + stream.uri));
        i := i + 1;
      }
      assert pl.streams == entries;
      text := pl.ToString();
    }

    method RecreateManifest()
      modifies manifest
      ensures StreamValues() == old(StreamValues())
      ensures manifest.text == PP.Print(ManifestEntries(StreamValues()))
    {
      hide PP.Print, ManifestEntries;
      var streams := StreamValues();
      var text := PrintManifest(streams);
      manifest.text := text;
      assert StreamValues() == streams;
    }

    /** Match the attributes of a stream and file it under its path. */
    method MatchAndFile(s: ContentStream)
      requires Valid()
      modifies this`contentStreams, s`resolution, s`codecs, s`bandwidth, s`frameRate
      ensures Valid() && contentStreams == old(contentStreams)[s.playlistPath := s]
      ensures s.AsStream() ==
                if protocol == HLS then Matched(hlsPrimaryPlaylist, old(s.AsStream())) else old(s.AsStream())
      ensures StreamValues() == old(StreamValues())[s.playlistPath := s.AsStream()]
    {
      hide Matched;
      if protocol == HLS {
        MatchAttributes(s);
      }
      contentStreams := contentStreams[s.playlistPath := s];
    }

    /** For HLS the new state is `Add`; other protocols publish what they were given. The stream is started. */
    method AddAndStartContentStream(s: ContentStream)
      requires Valid()
      modifies this`contentStreams, manifest, s`resolution, s`codecs, s`bandwidth, s`frameRate, s`receiver
      ensures Valid() && contentStreams == old(contentStreams)[s.playlistPath := s]
      ensures s.receiver == ReceiverFor(s.session, old(s.receiver))
      ensures protocol == HLS ==> AsState() == Add(old(AsState()), old(s.AsStream()))
      ensures protocol != HLS ==> s.AsStream() == old(s.AsStream())
      ensures protocol == DASH ==> manifest.text == dashManifest
      ensures protocol == RTP ==> manifest.text == old(manifest.text)
    {
      hide PP.Print, ManifestEntries, Matched, Add, ReceiverFor;
      ghost var before := AsState();
      ghost var s0 := s.AsStream();
      MatchAndFile(s);
      ghost var streams := StreamValues();
      s.Start();
      assert StreamValues() == streams;
      if protocol == HLS {
        AddIs(before, s0);
        RecreateManifest();
        assert AsState() == State(hlsPrimaryPlaylist, streams, manifest.text);
      } else if protocol == DASH {
        manifest.text := dashManifest;
      }
    }
  }

  lemma EntryCount(streams: map<string, PP.Stream>)
    ensures |ManifestEntries(streams)| == |SortedStrings(streams.Keys)|
  {}

  lemma EntryAt(streams: map<string, PP.Stream>, i: nat)
    requires i < |SortedStrings(streams.Keys)|
    ensures i < |ManifestEntries(streams)|
    ensures SortedStrings(streams.Keys)[i] in streams
    ensures var s := streams[SortedStrings(streams.Keys)[i]]; ManifestEntries(streams)[i] == s.(uri := "/" + s.uri)
  {
    assert SortedStrings(streams.Keys)[i] in SortedStrings(streams.Keys);
  }

  lemma AddIs(st: State, s: PP.Stream)
    ensures var streams := st.streams[s.uri := Matched(st.master, s)];
            Add(st, s) == State(st.master, streams, PP.Print(ManifestEntries(streams)))
  {}

  lemma {:induction false} MatchedUri(master: seq<PP.Stream>, s: PP.Stream)
    ensures Matched(master, s).uri == s.uri
  {
    if master != [] { MatchedUri(master[..|master| - 1], s); }
  }

  // ------------------------------------------------------------ sequences of adds

  function Paths(ss: seq<PP.Stream>): set<string> { set s | s in ss :: s.uri }

  /** The last entry of the master manifest for a path. */
  ghost predicate LastEntry(master: seq<PP.Stream>, path: string, e: PP.Stream) {
    exists i :: 0 <= i < |master| && master[i] == e && e.uri == path
                && forall j | i < j < |master| :: master[j].uri != path
  }

  lemma LastEntryExtends(master: seq<PP.Stream>, m: PP.Stream, path: string, e: PP.Stream)
    requires LastEntry(master, path, e) && m.uri != path
    ensures LastEntry(master + [m], path, e)
  {
    var i :| 0 <= i < |master| && master[i] == e && forall j | i < j < |master| :: master[j].uri != path;
    assert (master + [m])[i] == e;
  }

  lemma {:induction false} MatchedIsLastEntry(master: seq<PP.Stream>, s: PP.Stream)
    requires s.uri in Paths(master)
    ensures LastEntry(master, s.uri, Matched(master, s))
  {
    var k := |master| - 1;
    var rest, m := master[..k], master[k];
    assert master == rest + [m];
    if m.uri != s.uri {
      var e :| e in master && e.uri == s.uri;
      assert e in rest;
      MatchedIsLastEntry(rest, s);
      LastEntryExtends(rest, m, s.uri, Matched(rest, s));
    } else {
      assert master[k] == m;
    }
  }

  lemma LastEntryUnique(master: seq<PP.Stream>, path: string, e: PP.Stream, f: PP.Stream)
    requires LastEntry(master, path, e) && LastEntry(master, path, f)
    ensures e == f
  {}

  /** Every added stream carries the attributes of the last master entry for its path. */
  lemma {:induction false} AddedStreams(st: State, ss: seq<PP.Stream>)
    requires st.streams == map[] && Paths(ss) <= Paths(st.master)
    ensures var r := AddAll(st, ss);
      && r.master == st.master
      && r.streams.Keys == Paths(ss)
      && forall k | k in r.streams :: LastEntry(st.master, k, r.streams[k])
  {
    hide PP.Print, ManifestEntries, Matched, LastEntry;
    if ss != [] {
      var rest, s := ss[..|ss| - 1], ss[|ss| - 1];
      assert ss == rest + [s];
      assert Paths(ss) == Paths(rest) + {s.uri} by { assert forall x :: x in ss <==> x in rest || x == s; }
      AddedStreams(st, rest);
      MatchedIsLastEntry(st.master, s);
    }
  }

  /**
   After any adds under a master manifest that lists their paths, the manifest prints the paths in
   ascending order, each after a slash with the attributes of its last master entry.
   */
  lemma ManifestOfAdds(st: State, ss: seq<PP.Stream>)
    requires st.streams == map[] && ss != [] && Paths(ss) <= Paths(st.master)
    ensures var r := AddAll(st, ss);
      var ks := SortedStrings(Paths(ss));
      var entries := ManifestEntries(r.streams);
      && r.manifest == PP.Print(entries)
      && |entries| == |ks|
      && forall i | 0 <= i < |ks| ::
           entries[i].uri == "/" + ks[i] && LastEntry(st.master, ks[i], entries[i].(uri := ks[i]))
  {
    hide PP.Print, Matched, LastEntry;
    AddedStreams(st, ss);
    var r := AddAll(st, ss);
    var ks := SortedStrings(Paths(ss));
    forall i | 0 <= i < |ks| ensures ks[i] in r.streams && r.streams[ks[i]].uri == ks[i] {
      assert ks[i] in ks;
      LastEntryUri(st.master, ks[i], r.streams[ks[i]]);
    }
  }

  lemma LastEntryUri(master: seq<PP.Stream>, path: string, e: PP.Stream)
    requires LastEntry(master, path, e)
    ensures e.uri == path
  {}

  /** The order of the adds and what the streams carried before do not matter. */
  lemma ManifestDependsOnPathsOnly(st: State, ss: seq<PP.Stream>, ts: seq<PP.Stream>)
    requires st.streams == map[] && ss != [] && ts != [] && Paths(ss) <= Paths(st.master)
    requires Paths(ss) == Paths(ts)
    ensures AddAll(st, ss).manifest == AddAll(st, ts).manifest
  {
    hide PP.Print, Matched, LastEntry, AddAll, ManifestEntries;
    AddedStreams(st, ss);
    AddedStreams(st, ts);
    ManifestOfAdds(st, ss);
    ManifestOfAdds(st, ts);
    var a, b := AddAll(st, ss).streams, AddAll(st, ts).streams;
    forall k | k in a ensures a[k] == b[k] { LastEntryUnique(st.master, k, a[k], b[k]); }
    assert a == b;
  }

  /** A client reading the published manifest finds the added paths, each one slash away from its cache name. */
  lemma PublishedManifestReadsBack(st: State, ss: seq<PP.Stream>)
    requires st.streams == map[] && ss != [] && Paths(ss) <= Paths(st.master)
    requires forall e | e in ManifestEntries(AddAll(st, ss).streams) :: PP.WellFormed(e)
    ensures var r := PP.Parse(AddAll(st, ss).manifest, "");
      var ks := SortedStrings(Paths(ss));
      && r.Success? && |r.value.streams| == |ks|
      && forall i | 0 <= i < |ks| :: r.value.streams[i].uri == "/" + ks[i]
  {
    hide PP.Print, PP.Parse, Matched, LastEntry, PP.WellFormed, PP.RereadAll, ManifestEntries, AddAll;
    ManifestOfAdds(st, ss);
    var entries := ManifestEntries(AddAll(st, ss).streams);
    PP.RoundTrip(entries, "");
    UrisReread(entries);
  }

  /** Without a base path the URIs that are read are those that were printed. */
  lemma UrisReread(entries: seq<PP.Stream>)
    ensures |PP.RereadAll(entries, "")| == |entries|
    ensures forall i | 0 <= i < |entries| :: PP.RereadAll(entries, "")[i].uri == entries[i].uri
  {
    forall i | 0 <= i < |entries| ensures PP.RereadAll(entries, "")[i].uri == entries[i].uri {
      assert "" + entries[i].uri == entries[i].uri;
    }
  }

  /** A stream whose path the master manifest does not list keeps what it has. */
  lemma {:induction false} UnlistedKeeps(master: seq<PP.Stream>, s: PP.Stream)
    requires s.uri !in Paths(master)
    ensures Matched(master, s) == s
  {
    if master != [] {
      var rest, m := master[..|master| - 1], master[|master| - 1];
      assert master == rest + [m] && m in master;
      assert forall x | x in rest :: x in master;
      UnlistedKeeps(rest, s);
    }
  }
}
