/**
 `ContentStream`: broadcast parameters from SDP text, the playlist path from a master manifest,
 and the attributes that a service fills in.
 */
module ContentStreams {
  import opened Wrappers
  import opened Text
  import opened Decimal
  import opened Segments
  import PP = PrimaryPlaylist

  /** The `_5gbc_stream_` fields. */
  datatype Session = Session(kind: string, address: string, port: string, tsi: nat)

  const UNSET := Session("none", "", "", 0)

  predicate Complete(b: Session) { b.kind != "" && b.address != "" && b.port != "" }

  /** Characters a regular-expression dot does not match. */
  predicate LineTerminator(c: char) { c == '\n' || c == '\r' }

  /** `^([a-z])\=(.+)$` on a whole line. */
  function Field(line: string): Option<(char, string)> {
    if |line| >= 3 && 'a' <= line[0] <= 'z' && line[1] == '=' && forall i | 2 <= i < |line| :: !LineTerminator(line[i])
    then Some((line[0], line[2..]))
    else None
  }

  predicate AddressChar(c: char) { IsDigit(c) || c == '.' }

  function AddressRun(s: string): (n: nat)
    ensures n <= |s| && forall i | 0 <= i < n :: AddressChar(s[i])
    ensures n < |s| ==> !AddressChar(s[n])
  {
    if s != "" && AddressChar(s[0]) then 1 + AddressRun(s[1..]) else 0
  }

  /** `^IN (IP.) ([0-9\.]+).*$`: the longest run of digits and dots. */
  function Address(value: string): Option<string> {
    if |value| > 7 && value[..5] == "IN IP" && value[6] == ' ' && AddressRun(value[7..]) > 0
    then Some(value[7..7 + AddressRun(value[7..])])
    else None
  }

  /** `(.+) (.+)` with a greedy first group: split at the last blank up to `k` that leaves both parts non-empty. */
  function SplitTwo(s: string, k: int): Option<(string, string)>
    requires k <= |s| - 2
  {
    if k < 1 then None
    else if s[k] == ' ' then Some((s[..k], s[k + 1..]))
    else SplitTwo(s, k - 1)
  }

  /** `(.+) (.+) (.+)` with greedy groups; the third part is not used. */
  function SplitThree(s: string, k: int): Option<(string, string)>
    requires k <= |s| - 2
  {
    if k < 1 then None
    else if s[k] == ' ' && SplitTwo(s[k + 1..], |s| - k - 3).Some?
    then Some((s[..k], SplitTwo(s[k + 1..], |s| - k - 3).value.0))
    else SplitThree(s, k - 1)
  }

  const APPLICATION := "application "
  const FLUTE_TSI := "flute-tsi:"

  /** Port and type of a media line: the three-part form wins over the two-part form. */
  function Media(value: string): Option<(string, string)> {
    if !(APPLICATION <= value) then None else
      var rest := value[|APPLICATION|..];
      if SplitThree(rest, |rest| - 2).Some? then SplitThree(rest, |rest| - 2) else SplitTwo(rest, |rest| - 2)
  }

  /** `stoul`: no digits or a value out of range throw; a minus sign wraps around. */
  function Stoul(s: string): Result<nat> {
    var (negative, t) := Unsigned(s);
    var n := DigitRun(t);
    var v := DigitsValue(t[..n]);
    if n == 0 then Failure("stoul: invalid argument")
    else if v >= TWO_64 then Failure("stoul: out of range")
    else Success(SizeT(Signed(negative, v)))
  }

  function SdpLine(b: Session, line: string): Result<Session> {
    match Field(line)
    case None => Success(b)
    case Some((field, value)) =>
      if field == 'c' then
        Success(if Address(value).Some? then b.(address := Address(value).value) else b)
      else if field == 'm' then
        Success(if Media(value).Some? then b.(port := Media(value).value.0, kind := Media(value).value.1) else b)
      else if field == 'a' && FLUTE_TSI < value then
        match Stoul(value[|FLUTE_TSI|..])
        case Failure(m) => Failure(m)
        case Success(t) => Success(b.(tsi := t))
      else Success(b)
  }

  function SdpLines(b: Session, lines: seq<string>): Result<Session> {
    if lines == [] then Success(b) else
      match SdpLines(b, lines[..|lines| - 1])
      case Failure(m) => Failure(m)
      case Success(x) => SdpLine(x, lines[|lines| - 1])
  }

  /** A session description folded into the fields that earlier ones have left. */
  function Sdp(b: Session, sdp: string): Result<Session> { SdpLines(b, Lines(sdp)) }

  /** `read_master_manifest`: the path of the only stream, unchanged when there are none or several. */
  function ManifestPath(path: string, manifest: string, hls: bool): Result<string> {
    if !hls then Success(path) else
      match PP.Parse(manifest, "")
      case Failure(m) => Failure(m)
      case Success(p) => Success(if |p.streams| == 1 then p.streams[0].uri else path)
  }

  /** A FLUTE receiver, by what it listens to. */
  datatype Receiver = Receiver(address: string, port: int, tsi: nat)

  const FLUTE := "FLUTE/UDP"

  function ReceiverFor(b: Session, before: Option<Receiver>): Option<Receiver> {
    if b.kind == FLUTE then Some(Receiver(b.address, Atoi(b.port), b.tsi)) else before
  }

  class ContentStream {
    const base: string
    const hls: bool
    var session: Session
    var playlistPath: string
    var receiver: Option<Receiver>
    var resolution: string
    var codecs: string
    var bandwidth: nat
    var frameRate: int

    /** Bandwidth and frame rate are not initialized. */
    constructor (base: string, hls: bool)
      ensures this.base == base && this.hls == hls
      ensures session == UNSET && playlistPath == "" && receiver == None && resolution == "" && codecs == ""
    {
      this.base, this.hls := base, hls;
      session, playlistPath, receiver, resolution, codecs := UNSET, "", None, "", "";
    }

    function AsStream(): PP.Stream
      reads this
    {
      PP.Stream(playlistPath, resolution, codecs, bandwidth, frameRate)
    }

    /** One SDP line. */
    method ConfigureFromLine(line: string) returns (thrown: bool)
      modifies this`session
      ensures thrown == SdpLine(old(session), line).Failure?
      ensures !thrown ==> session == SdpLine(old(session), line).value
    {
      hide Address, Media, Stoul;
      thrown := false;
      match Field(line) {
        case None =>
        case Some((field, value)) =>
          if field == 'c' {
            var address := Address(value);
            if address.Some? { session := session.(address := address.value); }
          } else if field == 'm' {
            var media := Media(value);
            if media.Some? { session := session.(port := media.value.0, kind := media.value.1); }
          } else if field == 'a' && FLUTE_TSI < value {
            var tsi := Stoul(value[|FLUTE_TSI|..]);
            if tsi.Failure? { return true; }
            session := session.(tsi := tsi.value);
          }
      }
    }

    /** Whether all parameters of the broadcast session are known, after everything read so far. */
    method Configure5gbcDeliveryFromSdp(sdp: string) returns (thrown: bool, configured: bool)
      modifies this`session
      ensures thrown == Sdp(old(session), sdp).Failure?
      ensures !thrown ==> session == Sdp(old(session), sdp).value && configured == Complete(session)
    {
      hide SdpLine;
      configured := false;
      var lines := Lines(sdp);
      var i := 0;
      ghost var b := session;
      assert lines[..0] == [];
      while i < |lines|
        invariant 0 <= i <= |lines|
        invariant SdpLines(b, lines[..i]) == Success(session)
      {
        thrown := ConfigureFromLine(lines[i]);
        assert lines[..i + 1][..i] == lines[..i];
        SdpFailure(b, lines, i + 1);
        if thrown { return; }
        i := i + 1;
      }
      assert lines[..i] == lines;
      thrown, configured := false, Complete(session);
    }

    method ReadMasterManifest(manifest: string) returns (thrown: bool)
      modifies this`playlistPath
      ensures thrown == ManifestPath(old(playlistPath), manifest, hls).Failure?
      ensures !thrown ==> playlistPath == ManifestPath(old(playlistPath), manifest, hls).value
    {
      hide PP.Parse;
      thrown := false;
      if hls {
        var pl := new PP.HlsPrimaryPlaylist();
        thrown := pl.Read(manifest, "");
        if !thrown && |pl.streams| == 1 {
          playlistPath := pl.streams[0].uri;
        }
      }
    }

    /** A stream that is broadcast starts listening. */
    method Start()
      modifies this`receiver
      ensures receiver == ReceiverFor(session, old(receiver))
    {
      if session.kind == FLUTE {
        receiver := Some(Receiver(session.address, Atoi(session.port), session.tsi));
      }
    }

    method SetAttributes(s: PP.Stream)
      modifies this`resolution, this`codecs, this`bandwidth, this`frameRate
      ensures AsStream() == s.(uri := old(playlistPath))
    {
      resolution, codecs, bandwidth, frameRate := s.resolution, s.codecs, s.bandwidth, s.frameRate;
    }
  }

  lemma {:induction false} SdpFailure(b: Session, lines: seq<string>, k: nat)
    requires k <= |lines|
    ensures SdpLines(b, lines[..k]).Failure? ==> SdpLines(b, lines).Failure?
    decreases |lines| - k
  {
    hide SdpLine;
    if k == |lines| {
      assert lines[..k] == lines;
    } else {
      assert lines[..k + 1][..k] == lines[..k];
      SdpFailure(b, lines, k + 1);
    }
  }

  /** The type is never emptied, and a known address or port never gets lost. */
  lemma {:induction false} SdpKeepsParameters(b: Session, lines: seq<string>)
    requires SdpLines(b, lines).Success?
    ensures var r := SdpLines(b, lines).value;
      && (b.kind != "" ==> r.kind != "") && (b.address != "" ==> r.address != "") && (b.port != "" ==> r.port != "")
      && (Complete(b) ==> Complete(r))
  {
    if lines != [] {
      var rest, line := lines[..|lines| - 1], lines[|lines| - 1];
      SdpKeepsParameters(b, rest);
      MediaParts(line);
    }
  }

  lemma {:induction false} SplitTwoParts(s: string, k: int)
    requires k <= |s| - 2
    ensures SplitTwo(s, k).Some? ==> SplitTwo(s, k).value.0 != "" && SplitTwo(s, k).value.1 != ""
  {
    if k >= 1 && s[k] != ' ' { SplitTwoParts(s, k - 1); }
  }

  lemma {:induction false} SplitThreeParts(s: string, k: int)
    requires k <= |s| - 2
    ensures SplitThree(s, k).Some? ==> SplitThree(s, k).value.0 != "" && SplitThree(s, k).value.1 != ""
  {
    if k >= 1 {
      if s[k] == ' ' { SplitTwoParts(s[k + 1..], |s| - k - 3); }
      SplitThreeParts(s, k - 1);
    }
  }

  lemma MediaParts(line: string)
    ensures Field(line).Some? && Media(Field(line).value.1).Some? ==>
      Media(Field(line).value.1).value.0 != "" && Media(Field(line).value.1).value.1 != ""
  {
    if Field(line).Some? && APPLICATION <= Field(line).value.1 {
      var rest := Field(line).value.1[|APPLICATION|..];
      SplitTwoParts(rest, |rest| - 2);
      SplitThreeParts(rest, |rest| - 2);
    }
  }

  // ------------------------------------------------------------ carriage returns

  /** A line of a text with the line ends of RFC 4566 section 5, as a loop over line feeds sees it. */
  predicate EndsInReturn(line: string) { line != "" && line[|line| - 1] == '\r' }

  lemma ReturnConfiguresNothing(b: Session, line: string)
    requires EndsInReturn(line)
    ensures SdpLine(b, line) == Success(b)
  {
    assert LineTerminator(line[|line| - 1]);
  }

  /** A line that sets something: an address, a port and type, or a session identifier (or throws over it). */
  predicate Configures(line: string) {
    match Field(line)
    case None => false
    case Some((field, value)) =>
      || (field == 'c' && Address(value).Some?)
      || (field == 'm' && Media(value).Some?)
      || (field == 'a' && FLUTE_TSI < value)
  }

  lemma IdleLine(b: Session, line: string)
    requires !Configures(line)
    ensures SdpLine(b, line) == Success(b)
  {
    hide Address, Media, Stoul;
  }

  /** A session that a line changes, or throws over, whatever came before. */
  function Foil(line: string): Session {
    match Field(line)
    case None => UNSET
    case Some((field, value)) =>
      if field == 'c' && Address(value).Some? then UNSET.(address := Address(value).value + "x")
      else if field == 'm' && Media(value).Some? then UNSET.(port := Media(value).value.0 + "x")
      else if field == 'a' && FLUTE_TSI < value && Stoul(value[|FLUTE_TSI|..]).Success? then
        UNSET.(tsi := Stoul(value[|FLUTE_TSI|..]).value + 1)
      else UNSET
  }

  lemma FoilDiffers(b: Session, line: string)
    requires Configures(line)
    ensures SdpLine(b, line) != Success(Foil(line))
  {
    hide Address, Media, Stoul;
    var (field, value) := Field(line).value;
    if Address(value).Some? { Longer(Address(value).value); }
    if Media(value).Some? { Longer(Media(value).value.0); }
  }

  lemma Longer(s: string)
    ensures s + "x" != s
  {
    assert |s + "x"| == |s| + 1;
  }

  /** A carriage return at the end of a line is harmless exactly when the line sets nothing. */
  lemma ReturnHarmlessIff(line: string)
    ensures (forall b :: SdpLine(b, line + "\r") == SdpLine(b, line)) <==> !Configures(line)
  {
    hide SdpLine, Configures, Foil;
    forall b ensures SdpLine(b, line + "\r") == Success(b) { ReturnConfiguresNothing(b, line + "\r"); }
    if Configures(line) {
      FoilDiffers(Foil(line), line);
      assert SdpLine(Foil(line), line + "\r") != SdpLine(Foil(line), line);
    } else {
      forall b ensures SdpLine(b, line) == Success(b) { IdleLine(b, line); }
    }
  }

  /** The lines that end in a line feed alone. */
  function LineFed(lines: seq<string>): seq<string> {
    if lines == [] then [] else
      LineFed(lines[..|lines| - 1]) + if EndsInReturn(lines[|lines| - 1]) then [] else [lines[|lines| - 1]]
  }

  /** Whatever the mix of line ends, a description configures what its lines without carriage returns configure. */
  lemma {:induction false} ReturnsDropLines(b: Session, lines: seq<string>)
    ensures SdpLines(b, lines) == SdpLines(b, LineFed(lines))
  {
    hide SdpLine;
    if lines != [] {
      var rest, line := lines[..|lines| - 1], lines[|lines| - 1];
      ReturnsDropLines(b, rest);
      var fed := LineFed(rest);
      if EndsInReturn(line) {
        if SdpLines(b, rest).Success? { ReturnConfiguresNothing(SdpLines(b, rest).value, line); }
        assert LineFed(lines) == fed;
      } else {
        assert (fed + [line])[..|fed|] == fed;
      }
    }
  }

  /** The same lines, each with a carriage return. */
  function WithReturns(lines: seq<string>): (r: seq<string>)
    ensures |r| == |lines| && forall i | 0 <= i < |r| :: r[i] == lines[i] + "\r"
  {
    seq(|lines|, i requires 0 <= i < |lines| => lines[i] + "\r")
  }

  lemma {:induction false} NoLineFed(lines: seq<string>)
    requires forall l | l in lines :: EndsInReturn(l)
    ensures LineFed(lines) == []
  {
    if lines != [] { NoLineFed(lines[..|lines| - 1]); }
  }

  lemma CarriageReturnsConfigureNothing(b: Session, lines: seq<string>)
    requires forall l | l in lines :: EndsInReturn(l)
    ensures SdpLines(b, lines) == Success(b)
  {
    hide SdpLine;
    NoLineFed(lines);
    ReturnsDropLines(b, lines);
  }

  lemma {:induction false} IdleLines(b: Session, lines: seq<string>)
    requires forall l | l in lines :: !Configures(l)
    ensures SdpLines(b, lines) == Success(b)
  {
    hide SdpLine, Configures;
    if lines != [] {
      IdleLines(b, lines[..|lines| - 1]);
      IdleLine(b, lines[|lines| - 1]);
    }
  }

  /** The last line that sets something decides what the text cannot leave alone. */
  lemma {:induction false} SomeSessionChanges(lines: seq<string>) returns (b: Session)
    requires exists l :: l in lines && Configures(l)
    ensures SdpLines(b, lines) != Success(b)
  {
    hide SdpLine, Configures, Foil;
    var rest, line := lines[..|lines| - 1], lines[|lines| - 1];
    if Configures(line) {
      b := Foil(line);
      if SdpLines(b, rest).Success? { FoilDiffers(SdpLines(b, rest).value, line); }
    } else {
      assert exists l :: l in rest && Configures(l) by {
        var l :| l in lines && Configures(l);
        assert l in rest;
      }
      b := SomeSessionChanges(rest);
      if SdpLines(b, rest).Success? { IdleLine(SdpLines(b, rest).value, line); }
    }
  }

  /** A text with carriage returns leaves every session as it was. */
  lemma ReturnsLeaveSession(b: Session, lines: seq<string>)
    requires forall l | l in lines :: '\n' !in l
    ensures Sdp(b, Unlines(WithReturns(lines))) == Success(b)
    ensures Sdp(b, Unlines(lines)) == SdpLines(b, lines)
  {
    hide SdpLine;
    var r := WithReturns(lines);
    forall i | 0 <= i < |r| ensures '\n' !in r[i] { assert lines[i] in lines; }
    LinesOfUnlines(lines);
    LinesOfUnlines(r);
    CarriageReturnsConfigureNothing(b, r);
  }

  /** So carriage returns are harmless for a whole text exactly when none of its lines sets anything. */
  lemma ReturnsHarmlessIff(lines: seq<string>)
    requires forall l | l in lines :: '\n' !in l
    ensures (forall b :: Sdp(b, Unlines(WithReturns(lines))) == Sdp(b, Unlines(lines)))
       <==> forall l | l in lines :: !Configures(l)
  {
    hide *;
    forall b
      ensures Sdp(b, Unlines(WithReturns(lines))) == Success(b) && Sdp(b, Unlines(lines)) == SdpLines(b, lines)
    {
      ReturnsLeaveSession(b, lines);
    }
    if forall l | l in lines :: !Configures(l) {
      forall b ensures SdpLines(b, lines) == Success(b) { IdleLines(b, lines); }
    } else {
      var b := SomeSessionChanges(lines);
      assert Sdp(b, Unlines(WithReturns(lines))) != Sdp(b, Unlines(lines));
    }
  }

  lemma {:induction false} AddressRunOf(s: string)
    requires forall i | 0 <= i < |s| :: AddressChar(s[i])
    ensures AddressRun(s) == |s|
  {
    if s != "" { AddressRunOf(s[1..]); }
  }

  lemma {:induction false} SplitAt(s: string, p: int, k: int)
    requires 1 <= p <= k <= |s| - 2 && s[p] == ' ' && forall i | p < i <= k :: s[i] != ' '
    ensures SplitTwo(s, k) == Some((s[..p], s[p + 1..]))
  {
    if k > p { SplitAt(s, p, k - 1); }
  }

  lemma {:induction false} NoSplit(s: string, k: int)
    requires k <= |s| - 2 && forall i | 0 <= i < |s| :: s[i] != ' '
    ensures SplitTwo(s, k) == None
  {
    if k >= 1 { NoSplit(s, k - 1); }
  }

  lemma {:induction false} NoSecondSplit(s: string, p: nat, k: int)
    requires k <= |s| - 2 && forall i | 0 <= i < |s| && i != p :: s[i] != ' '
    ensures SplitThree(s, k) == None
  {
    if k >= 1 {
      if s[k] == ' ' { NoSplit(s[k + 1..], |s| - k - 3); }
      NoSecondSplit(s, p, k - 1);
    }
  }

  const ADDRESS_PREFIX := "c=IN IP4 "
  const MEDIA_PREFIX := "m=application "

  /** No blanks and no line ends. */
  ghost predicate Word(s: string) { s != "" && forall i | 0 <= i < |s| :: s[i] != ' ' && !LineTerminator(s[i]) }

  lemma AddressPrefix()
    ensures |ADDRESS_PREFIX| == 9 && ADDRESS_PREFIX[0] == 'c' && ADDRESS_PREFIX[1] == '='
    ensures ADDRESS_PREFIX[2..7] == "IN IP" && ADDRESS_PREFIX[8] == ' '
    ensures forall i | 0 <= i < 9 :: !LineTerminator(ADDRESS_PREFIX[i])
  {}

  lemma MediaPrefix()
    ensures |MEDIA_PREFIX| == 14 && MEDIA_PREFIX[0] == 'm' && MEDIA_PREFIX[1] == '='
    ensures MEDIA_PREFIX[2..] == APPLICATION
    ensures forall i | 0 <= i < 14 :: !LineTerminator(MEDIA_PREFIX[i])
  {}

  lemma FieldOf(prefix: string, rest: string)
    requires |prefix| >= 3 && 'a' <= prefix[0] <= 'z' && prefix[1] == '='
    requires forall i | 0 <= i < |prefix| :: !LineTerminator(prefix[i])
    requires forall i | 0 <= i < |rest| :: !LineTerminator(rest[i])
    ensures Field(prefix + rest) == Some((prefix[0], prefix[2..] + rest))
  {
    assert (prefix + rest)[2..] == prefix[2..] + rest;
  }

  lemma AddressOf(head: string, address: string)
    requires |head| == 7 && head[..5] == "IN IP" && head[6] == ' '
    requires address != "" && forall i | 0 <= i < |address| :: AddressChar(address[i])
    ensures Address(head + address) == Some(address)
  {
    var value := head + address;
    assert value[..5] == head[..5] && value[6] == ' ' && value[7..] == address;
    AddressRunOf(address);
    assert address[..|address|] == address;
    assert value[7..7 + |address|] == address;
  }

  lemma MediaOf(port: string, kind: string)
    requires Word(port) && Word(kind)
    ensures Media(APPLICATION + (port + " " + kind)) == Some((port, kind))
  {
    var rest := port + " " + kind;
    assert (APPLICATION + rest)[|APPLICATION|..] == rest;
    assert APPLICATION <= APPLICATION + rest;
    assert rest[|port|] == ' ' && forall i | 0 <= i < |rest| && i != |port| :: rest[i] != ' ';
    SplitAt(rest, |port|, |rest| - 2);
    NoSecondSplit(rest, |port|, |rest| - 2);
    assert rest[..|port|] == port && rest[|port| + 1..] == kind;
  }

  lemma AddressLineConfigures(b: Session, address: string)
    requires address != "" && forall i | 0 <= i < |address| :: AddressChar(address[i])
    ensures SdpLine(b, ADDRESS_PREFIX + address) == Success(b.(address := address))
  {
    hide Field, Address, Media, Stoul;
    AddressPrefix();
    FieldOf(ADDRESS_PREFIX, address);
    AddressOf(ADDRESS_PREFIX[2..], address);
  }

  lemma MediaLineConfigures(b: Session, port: string, kind: string)
    requires Word(port) && Word(kind)
    ensures SdpLine(b, MEDIA_PREFIX + (port + " " + kind)) == Success(b.(port := port, kind := kind))
  {
    hide Field, Address, Media, Stoul;
    MediaPrefix();
    FieldOf(MEDIA_PREFIX, port + " " + kind);
    MediaOf(port, kind);
  }

  /**
   Any description of an address, a port and a type is complete with line feeds and configures nothing with
   carriage returns before them.
   */
  lemma ReturnsLoseSession(address: string, port: string, kind: string)
    requires address != "" && forall i | 0 <= i < |address| :: AddressChar(address[i])
    requires Word(port) && Word(kind)
    ensures var lines := [ADDRESS_PREFIX + address, MEDIA_PREFIX + (port + " " + kind)];
      && Sdp(UNSET, Unlines(lines)) == Success(Session(kind, address, port, 0))
      && Complete(Session(kind, address, port, 0))
      && Sdp(UNSET, Unlines(WithReturns(lines))) == Success(UNSET)
      && !Complete(UNSET)
  {
    hide *;
    var a, m := ADDRESS_PREFIX + address, MEDIA_PREFIX + (port + " " + kind);
    OnOneLine(address, port, kind);
    ReturnsLeaveSession(UNSET, [a, m]);
    LinesOfUnlines([a, m]);
    AddressLineConfigures(UNSET, address);
    MediaLineConfigures(UNSET.(address := address), port, kind);
    TwoLines(UNSET, a, m);
    SessionComplete(address, port, kind);
  }

  lemma OnOneLine(address: string, port: string, kind: string)
    requires forall i | 0 <= i < |address| :: AddressChar(address[i])
    requires Word(port) && Word(kind)
    ensures '\n' !in ADDRESS_PREFIX + address && '\n' !in MEDIA_PREFIX + (port + " " + kind)
  {}

  lemma SessionComplete(address: string, port: string, kind: string)
    requires address != "" && Word(port) && Word(kind)
    ensures Complete(Session(kind, address, port, 0)) && !Complete(UNSET)
    ensures UNSET.(address := address).(port := port, kind := kind) == Session(kind, address, port, 0)
  {}

  lemma TwoLines(b: Session, x: string, y: string)
    requires SdpLine(b, x).Success?
    ensures SdpLines(b, [x, y]) == SdpLine(SdpLine(b, x).value, y)
    ensures Lines(Unlines([x, y])) == [x, y] ==> Sdp(b, Unlines([x, y])) == SdpLines(b, [x, y])
  {
    hide SdpLine, Lines, Unlines;
    assert [x, y][..1] == [x] && [x][..0] == [];
    assert SdpLines(b, [x]) == SdpLine(b, x);
  }

  lemma ReturnsCanLoseSession()
    ensures var lines := ["c=IN IP4 239.0.0.1", "m=application 5000 FLUTE/UDP"];
      && Sdp(UNSET, Unlines(lines)) == Success(Session("FLUTE/UDP", "239.0.0.1", "5000", 0))
      && Sdp(UNSET, Unlines(WithReturns(lines))) == Success(UNSET)
  {
    hide Sdp, Unlines, WithReturns, SdpLine;
    assert ADDRESS_PREFIX + "239.0.0.1" == "c=IN IP4 239.0.0.1";
    assert MEDIA_PREFIX + ("5000" + " " + "FLUTE/UDP") == "m=application 5000 FLUTE/UDP";
    ReturnsLoseSession("239.0.0.1", "5000", "FLUTE/UDP");
  }

  // ------------------------------------------------------------ what each line sets, on its text

  /** Of three or more parts of a media line all but the last two are the port, and the last is not used. */
  lemma MediaLineOfThree(b: Session, port: string, kind: string, format: string)
    requires port != "" && forall i | 0 <= i < |port| :: !LineTerminator(port[i])
    requires Word(kind) && Word(format)
    ensures SdpLine(b, "m=application " + (port + " " + kind + " " + format))
         == Success(b.(port := port, kind := kind))
  {
    hide Field, Media;
    MediaPrefix();
    FieldOf(MEDIA_PREFIX, port + " " + kind + " " + format);
    MediaOfThree(port, kind, format);
  }

  lemma {:induction false} SplitThreeAt(s: string, p: int, k: int)
    requires 1 <= p <= k <= |s| - 2 && s[p] == ' '
    requires SplitTwo(s[p + 1..], |s| - p - 3).Some?
    requires forall i | p < i <= k :: s[i] != ' ' || SplitTwo(s[i + 1..], |s| - i - 3).None?
    ensures SplitThree(s, k) == Some((s[..p], SplitTwo(s[p + 1..], |s| - p - 3).value.0))
  {
    if k > p { SplitThreeAt(s, p, k - 1); }
  }

  lemma MediaIs(rest: string)
    ensures Media(APPLICATION + rest) ==
      if SplitThree(rest, |rest| - 2).Some? then SplitThree(rest, |rest| - 2) else SplitTwo(rest, |rest| - 2)
  {
    hide SplitThree, SplitTwo;
    assert (APPLICATION + rest)[|APPLICATION|..] == rest;
    assert APPLICATION <= APPLICATION + rest;
  }

  lemma TypeThenFormat(kind: string, format: string)
    requires Word(kind) && Word(format)
    ensures var t := kind + " " + format; SplitTwo(t, |t| - 2) == Some((kind, format))
  {
    var t := kind + " " + format;
    assert t[..|kind|] == kind && t[|kind| + 1..] == format;
    SplitAt(t, |kind|, |t| - 2);
  }

  lemma MediaOfThree(port: string, kind: string, format: string)
    requires port != "" && Word(kind) && Word(format)
    ensures Media(APPLICATION + (port + " " + kind + " " + format)) == Some((port, kind))
  {
    hide SplitThree, SplitTwo, Media;
    var rest := port + " " + kind + " " + format;
    var p, n := |port|, |rest|;
    assert rest[p] == ' ' && rest[..p] == port;
    var t := rest[p + 1..];
    assert t == kind + " " + format;
    TypeThenFormat(kind, format);
    forall i | p < i <= n - 2 ensures rest[i] != ' ' || SplitTwo(rest[i + 1..], n - i - 3).None? {
      if rest[i] == ' ' {
        assert rest[i] == t[i - p - 1];
        assert rest[i + 1..] == format;
        NoSplit(format, n - i - 3);
      }
    }
    SplitThreeAt(rest, p, n - 2);
    MediaIs(rest);
  }

  /** The one of RFC 4566 section 5.14 with a format. */
  lemma PortThenType(b: Session)
    ensures SdpLine(b, "m=application 5000 FLUTE/UDP 0") == Success(b.(port := "5000", kind := "FLUTE/UDP"))
  {
    hide SdpLine;
    assert "m=application " + ("5000" + " " + "FLUTE/UDP" + " " + "0") == "m=application 5000 FLUTE/UDP 0";
    ExampleWords();
    MediaLineOfThree(b, "5000", "FLUTE/UDP", "0");
  }

  lemma ExampleWords()
    ensures Word("5000") && Word("FLUTE/UDP") && Word("0")
  {}

  /** An address ends before anything that is neither a digit nor a dot. */
  lemma AddressWithTail(b: Session, address: string, tail: string)
    requires address != "" && forall i | 0 <= i < |address| :: '0' <= address[i] <= '9' || address[i] == '.'
    requires tail != "" && !('0' <= tail[0] <= '9' || tail[0] == '.')
    requires forall i | 0 <= i < |tail| :: !LineTerminator(tail[i])
    ensures SdpLine(b, "c=IN IP4 " + (address + tail)) == Success(b.(address := address))
  {
    hide Field, Address;
    AddressPrefix();
    FieldOf(ADDRESS_PREFIX, address + tail);
    AddressTailOf(ADDRESS_PREFIX[2..], address, tail);
  }

  lemma {:induction false} AddressRunTail(s: string, tail: string)
    requires forall i | 0 <= i < |s| :: AddressChar(s[i])
    requires tail != "" && !AddressChar(tail[0])
    ensures AddressRun(s + tail) == |s|
  {
    if s == "" {
      assert s + tail == tail;
    } else {
      assert (s + tail)[0] == s[0] && (s + tail)[1..] == s[1..] + tail;
      AddressRunTail(s[1..], tail);
    }
  }

  lemma AddressTailOf(head: string, address: string, tail: string)
    requires |head| == 7 && head[..5] == "IN IP" && head[6] == ' '
    requires address != "" && forall i | 0 <= i < |address| :: AddressChar(address[i])
    requires tail != "" && !AddressChar(tail[0])
    ensures Address(head + (address + tail)) == Some(address)
  {
    var value := head + (address + tail);
    assert value[..5] == head[..5] && value[6] == ' ' && value[7..] == address + tail;
    AddressRunTail(address, tail);
    assert value[7..7 + |address|] == address;
  }

  const TSI_PREFIX := "a=flute-tsi:"

  lemma TsiPrefix()
    ensures |TSI_PREFIX| == 12 && TSI_PREFIX[0] == 'a' && TSI_PREFIX[1] == '=' && TSI_PREFIX[2..] == FLUTE_TSI
    ensures forall i | 0 <= i < 12 :: !LineTerminator(TSI_PREFIX[i])
  {}

  /**
   The session identifier: the digits, whatever follows them; a number beyond 64 bits throws, and so does a line
   without digits.
   */
  lemma TsiLine(b: Session, digits: string, tail: string)
    requires digits != "" && AllDigits(digits) && (tail == "" || !IsDigit(tail[0]))
    requires forall i | 0 <= i < |tail| :: !LineTerminator(tail[i])
    ensures var r := SdpLine(b, "a=flute-tsi:" + (digits + tail));
      if DigitsValue(digits) < 0x1_0000_0000_0000_0000 then r == Success(b.(tsi := DigitsValue(digits)))
      else r.Failure?
  {
    hide Field, Address, Media, Stoul, DigitsValue;
    TsiPrefix();
    forall i | 0 <= i < |digits + tail| ensures !LineTerminator((digits + tail)[i]) {
      if i < |digits| { assert IsDigit(digits[i]); }
    }
    FieldOf(TSI_PREFIX, digits + tail);
    StoulReads(digits, tail);
    TsiTail(digits + tail);
  }

  lemma TsiTail(rest: string)
    requires rest != ""
    ensures FLUTE_TSI < FLUTE_TSI + rest && (FLUTE_TSI + rest)[|FLUTE_TSI|..] == rest
  {}

  lemma StoulReads(digits: string, tail: string)
    requires digits != "" && AllDigits(digits) && (tail == "" || !IsDigit(tail[0]))
    ensures var r := Stoul(digits + tail);
      if DigitsValue(digits) < 0x1_0000_0000_0000_0000 then r == Success(DigitsValue(digits)) else r.Failure?
  {
    hide DigitsValue, DigitRun;
    UnsignedOf(false, digits + tail);
    assert "" + (digits + tail) == digits + tail;
    DigitRunOf(digits, tail);
  }

  lemma TsiWithoutDigits(b: Session, rest: string)
    requires rest != "" && !IsSpace(rest[0]) && !IsDigit(rest[0]) && rest[0] != '-' && rest[0] != '+'
    requires forall i | 0 <= i < |rest| :: !LineTerminator(rest[i])
    ensures SdpLine(b, "a=flute-tsi:" + rest).Failure?
  {
    hide Field, Address, Media;
    TsiPrefix();
    FieldOf(TSI_PREFIX, rest);
    TsiTail(rest);
  }

  lemma TsiSeven(b: Session)
    ensures SdpLine(b, "a=flute-tsi:7") == Success(b.(tsi := 7))
  {
    hide SdpLine;
    assert AllDigits("7") && DigitsValue("7") == 7 by { assert "7"[..0] == ""; }
    assert "7" + "" == "7";
    TsiLine(b, "7", "");
    assert "a=flute-tsi:" + "7" == "a=flute-tsi:7";
  }

  /** A line that is no lower-case letter with an equals sign and a value changes nothing; nor do other letters. */
  lemma OtherLines(b: Session, line: string)
    requires |line| < 3 || line[1] != '=' || (line[0] != 'c' && line[0] != 'm' && line[0] != 'a')
    ensures SdpLine(b, line) == Success(b)
  {
    hide Address, Media, Stoul;
  }

  // ------------------------------------------------------------ manifest and receiver, on their own fields

  /** Only a manifest with exactly one stream gives the playlist path, and only for HLS. */
  lemma PathOfManifest(path: string, manifest: string)
    ensures ManifestPath(path, manifest, false) == Success(path)
    ensures var p, r := PP.Parse(manifest, ""), ManifestPath(path, manifest, true);
      && (p.Failure? ==> r.Failure?)
      && (p.Success? && |p.value.streams| == 1 ==> r == Success(p.value.streams[0].uri))
      && (p.Success? && |p.value.streams| != 1 ==> r == Success(path))
  {
    hide PP.Parse;
  }

  /** A receiver is made for a FLUTE stream only, at the stored address, for the stored port and identifier. */
  lemma ReceiverIs(b: Session, before: Option<Receiver>, port: string)
    requires port != "" && AllDigits(port) && b.port == port
    ensures ReceiverFor(b, before) ==
      if b.kind == "FLUTE/UDP" then Some(Receiver(b.address, DigitsValue(port), b.tsi)) else before
  {
    hide DigitsValue, DigitRun;
    UnsignedOf(false, port);
    assert "" + port == port && port + "" == port && port[..|port|] == port;
    DigitRunOf(port, "");
  }
}
