/**
 HLS primary playlists: the line parser and the printer of `HlsPrimaryPlaylist`.
 */
module PrimaryPlaylist {
  import opened Wrappers
  import opened Text
  import opened Decimal
  import opened AttributeList
  import opened Segments
  import MP = MediaPlaylist

  const STREAM_INF := "#EXT-X-STREAM-INF"

  /** `HlsPrimaryPlaylist::Stream`; the frame rate in millionths. */
  datatype Stream = Stream(uri: string, resolution: string, codecs: string, bandwidth: nat, frameRate: int)

  /** The fields of the playlist together with the parser's loop variables. */
  datatype State = State(
    version: int, resolution: string, codecs: string, bandwidth: nat, frameRate: int, streams: seq<Stream>)

  const START := State(-1, "", "", 0, 0, [])

  datatype Kind = Version | StreamInf | Ignored | Uri

  function KindOf(line: string): Kind {
    if MP.VERSION <= line then Version
    else if STREAM_INF <= line then StreamInf
    else if "#" <= line || line == "" then Ignored
    else Uri
  }

  datatype Attribute = Bandwidth | FrameRate | Resolution | Codecs | Unknown

  function AttributeOf(key: string): Attribute {
    if key == "BANDWIDTH" then Bandwidth
    else if key == "FRAME-RATE" then FrameRate
    else if key == "RESOLUTION" then Resolution
    else if key == "CODECS" then Codecs
    else Unknown
  }

  /** Effect of one attribute; a bandwidth passes through `int` into an unsigned 64-bit number. */
  function Assign(st: State, p: (string, string)): State {
    match AttributeOf(p.0)
    case Bandwidth => st.(bandwidth := SizeT(Atoi(p.1)))
    case FrameRate => st.(frameRate := Atof(p.1))
    case Resolution => st.(resolution := p.1)
    case Codecs => st.(codecs := p.1)
    case Unknown => st
  }

  function AssignAll(st: State, ps: Attributes): State {
    if ps == [] then st else Assign(AssignAll(st, ps[..|ps| - 1]), ps[|ps| - 1])
  }

  function Apply(st: State, kind: Kind, line: string, basePath: string): Result<State> {
    var cpos := LastIndex(line, ':');
    var value := line[cpos + 1..];
    match kind
    case Version =>
      if st.version != -1 then Failure("duplicate #EXT-X-VERSION")
      else Success(if cpos >= 0 then st.(version := Atoi(value)) else st)
    case StreamInf => Success(if cpos >= 0 then AssignAll(st, Parameters(value)) else st)
    case Ignored => Success(st)
    case Uri =>
      var stream := Stream(basePath + line, st.resolution, st.codecs, st.bandwidth, st.frameRate);
      Success(State(st.version, "", "", 0, 0, st.streams + [stream]))
  }

  function Line(st: State, idx: nat, raw: string, basePath: string): Result<State> {
    var line := Trim(raw);
    if idx == 0 then
      if line == MP.HEADER then Success(st) else Failure("first line is not #EXTM3U")
    else
      Apply(st, KindOf(line), line, basePath)
  }

  function Fold(lines: seq<string>, basePath: string): Result<State> {
    if lines == [] then Success(START) else
      match Fold(lines[..|lines| - 1], basePath)
      case Failure(m) => Failure(m)
      case Success(s) => Line(s, |lines| - 1, lines[|lines| - 1], basePath)
  }

  /** The constructor from text. */
  function Parse(content: string, basePath: string): Result<State> { Fold(Lines(content), basePath) }

  /** The attribute list of one stream. The first key is spelled as the printer spells it. */
  function InfoText(s: Stream): string {
    ("BANDWITH" + "=" + NatText(s.bandwidth)) + "," +
    ("RESOLUTION" + "=" + s.resolution) + "," +
    ("FRAME-RATE" + "=" + Fixed3Text(s.frameRate)) + "," +
    ("CODECS" + "=" + "\"" + s.codecs + "\"")
  }

  function StreamPair(s: Stream): seq<string> { [STREAM_INF + ":" + InfoText(s), s.uri] }

  function StreamLines(streams: seq<Stream>): seq<string> {
    if streams == [] then [] else StreamLines(streams[..|streams| - 1]) + StreamPair(streams[|streams| - 1])
  }

  const HEAD: seq<string> := [MP.HEADER, MP.VERSION + ":3"]

  /** `to_string`. */
  function Print(streams: seq<Stream>): string { Unlines(HEAD + StreamLines(streams)) }

  class HlsPrimaryPlaylist {
    var version: int
    var streams: seq<Stream>

    constructor ()
      ensures version == -1 && streams == []
    {
      version, streams := -1, [];
    }

    method AddStream(s: Stream)
      modifies this`streams
      ensures streams == old(streams) + [s]
    {
      streams := streams + [s];
    }

    /** The loop over the attributes of one stream line. */
    static method AssignParameters(params: Attributes, st: State) returns (r: State)
      ensures r == AssignAll(st, params)
    {
      r := st;
      var i := 0;
      assert params[..0] == [];
      while i < |params|
        invariant 0 <= i <= |params|
        invariant r == AssignAll(st, params[..i])
      {
        assert params[..i + 1][..i] == params[..i];
        match AttributeOf(params[i].0) {
          case Bandwidth => r := r.(bandwidth := SizeT(Atoi(params[i].1)));
          case FrameRate => r := r.(frameRate := Atof(params[i].1));
          case Resolution => r := r.(resolution := params[i].1);
          case Codecs => r := r.(codecs := params[i].1);
          case Unknown =>
        }
        i := i + 1;
      }
      assert params[..i] == params;
    }

    /** One pass of the parsing loop; `st` holds the local variables, its first and last field are the object's. */
    method ReadLine(idx: nat, raw: string, basePath: string, st: State) returns (thrown: bool, r: State)
      requires version == st.version && streams == st.streams
      modifies this
      ensures thrown == Line(st, idx, raw, basePath).Failure?
      ensures !thrown ==> r == Line(st, idx, raw, basePath).value && version == r.version && streams == r.streams
    {
      hide KindOf, Trim, LastIndex, Atoi, Parameters, AssignAll;
      thrown, r := false, st;
      var line := Trim(raw);
      if idx == 0 {
        thrown := line != MP.HEADER;
        return;
      }
      var cpos := LastIndex(line, ':');
      match KindOf(line) {
        case Version =>
          if version != -1 {
            thrown := true;
          } else if cpos >= 0 {
            version := Atoi(line[cpos + 1..]);
            r := r.(version := version);
          }
        case StreamInf =>
          if cpos >= 0 {
            var params := ParseParameters(line[cpos + 1..]);
            r := AssignParameters(params, r);
            AttributesOnly(st, params);
          }
        case Ignored =>
        case Uri =>
          streams := streams + [Stream(basePath + line, r.resolution, r.codecs, r.bandwidth, r.frameRate)];
          r := State(version, "", "", 0, 0, streams);
      }
    }

    /** The parsing loop; the object is abandoned when it throws. */
    method Read(content: string, basePath: string) returns (thrown: bool)
      requires version == -1 && streams == []
      modifies this
      ensures thrown == Parse(content, basePath).Failure?
      ensures !thrown ==> var st := Parse(content, basePath).value; version == st.version && streams == st.streams
    {
      hide Line;
      var lines := Lines(content);
      var st := START;
      var idx := 0;
      assert lines[..0] == [];
      while idx < |lines|
        invariant 0 <= idx <= |lines|
        invariant Fold(lines[..idx], basePath) == Success(st)
        invariant version == st.version && streams == st.streams
      {
        thrown, st := ReadLine(idx, lines[idx], basePath, st);
        assert lines[..idx + 1][..idx] == lines[..idx];
        FoldFailure(lines, idx + 1, basePath);
        if thrown { return; }
        idx := idx + 1;
      }
      assert lines[..idx] == lines;
      thrown := false;
    }

    method ToString() returns (text: string)
      ensures text == Print(streams)
    {
      hide InfoText;
      var v := MP.VERSION + ":3";
      text := MP.HEADER + "\n" + v + "\n";
      MP.UnlinesTwo(MP.HEADER, v);
      assert text == Unlines(HEAD);
      var i := 0;
      assert HEAD + StreamLines(streams[..0]) == HEAD;
      while i < |streams|
        invariant 0 <= i <= |streams|
        invariant text == Unlines(HEAD + StreamLines(streams[..i]))
      {
        var a, u := STREAM_INF + ":" + InfoText(streams[i]), streams[i].uri;
        ghost var before := StreamLines(streams[..i]);
        assert streams[..i + 1][..i] == streams[..i];
        assert StreamPair(streams[i]) == [a, u];
        MP.AppendTwo(HEAD + before, a, u);
        assert HEAD + (before + [a, u]) == HEAD + before + [a, u];
        text := text + a + "\n";
        text := text + u + "\n";
        i := i + 1;
      }
      assert streams[..i] == streams;
    }
  }

  lemma {:induction false} AttributesOnly(st: State, ps: Attributes)
    ensures AssignAll(st, ps).version == st.version && AssignAll(st, ps).streams == st.streams
  {
    if ps != [] { AttributesOnly(st, ps[..|ps| - 1]); }
  }

  lemma {:induction false} FoldFailure(lines: seq<string>, k: nat, basePath: string)
    requires k <= |lines|
    ensures Fold(lines[..k], basePath).Failure? ==> Fold(lines, basePath).Failure?
    decreases |lines| - k
  {
    hide Line;
    if k == |lines| {
      assert lines[..k] == lines;
    } else {
      assert lines[..k + 1][..k] == lines[..k];
      FoldFailure(lines, k + 1, basePath);
    }
  }

  lemma {:induction false} FoldSnoc(lines: seq<string>, l: string, basePath: string)
    ensures Fold(lines + [l], basePath) ==
            match Fold(lines, basePath) case Failure(m) => Failure(m) case Success(s) => Line(s, |lines|, l, basePath)
  {
    assert (lines + [l])[..|lines|] == lines;
  }

  // ------------------------------------------------------------ printing and reading

  /** Values free of the characters the formats reserve; codecs may contain commas. */
  ghost predicate WellFormed(s: Stream) {
    && MP.UriLine(s.uri)
    && Plain(s.resolution, false) && Plain(s.codecs, true)
    && ':' !in s.resolution && ':' !in s.codecs && '\n' !in s.resolution && '\n' !in s.codecs
  }

  lemma NumbersArePlain(s: string)
    requires NumberLike(s)
    ensures Plain(s, false) && ':' !in s && '\n' !in s
  {}

  /** What reading the printed attributes yields: the misspelled bandwidth is not recognised. */
  lemma InfoReads(st: State, s: Stream)
    requires WellFormed(s)
    ensures AssignAll(st, Parameters(InfoText(s)))
         == st.(resolution := s.resolution, frameRate := Round3(s.frameRate), codecs := s.codecs)
  {
    hide Chars, NatText, Fixed3Text, Round3, Atof, Atoi;
    IntTextChars(s.bandwidth);
    NatIsInt(s.bandwidth);
    NumbersArePlain(NatText(s.bandwidth));
    Fixed3TextChars(s.frameRate);
    NumbersArePlain(Fixed3Text(s.frameRate));
    Fixed3TextValue(s.frameRate);
    FourAttributes("BANDWITH", NatText(s.bandwidth), "RESOLUTION", s.resolution,
                   "FRAME-RATE", Fixed3Text(s.frameRate), "CODECS", s.codecs);
    PrintedKeys();
    FourAssigned(st, ("BANDWITH", NatText(s.bandwidth)), ("RESOLUTION", s.resolution),
                 ("FRAME-RATE", Fixed3Text(s.frameRate)), ("CODECS", s.codecs));
  }

  lemma NatIsInt(n: nat)
    ensures IntText(n) == NatText(n)
  {}

  lemma PrintedKeys()
    ensures AttributeOf("BANDWITH") == Unknown && AttributeOf("RESOLUTION") == Resolution
    ensures AttributeOf("FRAME-RATE") == FrameRate && AttributeOf("CODECS") == Codecs
  {
    assert |"BANDWITH"| == 8 && |"BANDWIDTH"| == 9;
    assert "RESOLUTION"[0] == 'R' && "FRAME-RATE"[0] == 'F' && "CODECS"[0] == 'C' && "BANDWIDTH"[0] == 'B';
  }

  lemma FourAssigned(st: State, a: (string, string), b: (string, string), c: (string, string), d: (string, string))
    ensures AssignAll(st, [a, b, c, d]) == Assign(Assign(Assign(Assign(st, a), b), c), d)
  {
    hide Assign;
    assert [a, b, c, d][..3] == [a, b, c] && [a, b, c][..2] == [a, b] && [a, b][..1] == [a] && [a][..0] == [];
    assert AssignAll(st, [a]) == Assign(AssignAll(st, []), a);
    assert AssignAll(st, [a, b]) == Assign(AssignAll(st, [a]), b);
    assert AssignAll(st, [a, b, c]) == Assign(AssignAll(st, [a, b]), c);
  }

  /** The colon of the tag is the last one, and nothing is trimmed or split. */
  lemma InfoShape(s: Stream)
    requires WellFormed(s)
    ensures var l := STREAM_INF + ":" + InfoText(s);
      Trim(l) == l && LastIndex(l, ':') == |STREAM_INF| && l[|STREAM_INF| + 1..] == InfoText(s) && '\n' !in l
  {
    hide Fixed3Text, NatText;
    NatIsInt(s.bandwidth);
    IntTextChars(s.bandwidth);
    NumbersArePlain(NatText(s.bandwidth));
    Fixed3TextChars(s.frameRate);
    NumbersArePlain(Fixed3Text(s.frameRate));
    InfoChars(NatText(s.bandwidth), s.resolution, Fixed3Text(s.frameRate), s.codecs);
    TagShape(STREAM_INF, InfoText(s));
  }

  ghost predicate OnOneLine(s: string) { ':' !in s && '\n' !in s }

  lemma OnOneLineConcat(a: string, b: string)
    requires OnOneLine(a) && OnOneLine(b)
    ensures OnOneLine(a + b)
  {}

  lemma PairOnOneLine(before: string, key: string, value: string)
    requires OnOneLine(before) && OnOneLine(key) && OnOneLine(value)
    ensures OnOneLine(before + (key + "=" + value)) && OnOneLine(before + (key + "=" + value) + ",")
  {
    OnOneLineConcat(key, "=");
    OnOneLineConcat(key + "=", value);
    OnOneLineConcat(before, key + "=" + value);
    OnOneLineConcat(before + (key + "=" + value), ",");
  }

  lemma InfoChars(n: string, r: string, f: string, c: string)
    requires OnOneLine(n) && OnOneLine(r) && OnOneLine(f) && OnOneLine(c)
    ensures var info := ("BANDWITH" + "=" + n) + "," + ("RESOLUTION" + "=" + r) + "," +
                        ("FRAME-RATE" + "=" + f) + "," + ("CODECS" + "=" + "\"" + c + "\"");
            ':' !in info && '\n' !in info && info != "" && info[|info| - 1] == '"'
  {
    var x := ("BANDWITH" + "=" + n) + ",";
    var y := x + ("RESOLUTION" + "=" + r) + ",";
    var z := y + ("FRAME-RATE" + "=" + f) + ",";
    assert "" + ("BANDWITH" + "=" + n) == "BANDWITH" + "=" + n;
    PairOnOneLine("", "BANDWITH", n);
    PairOnOneLine(x, "RESOLUTION", r);
    PairOnOneLine(y, "FRAME-RATE", f);
    OnOneLineConcat("\"" + c, "\"");
    PairOnOneLine(z, "CODECS", "\"" + c + "\"");
    assert "CODECS" + "=" + ("\"" + c + "\"") == "CODECS" + "=" + "\"" + c + "\"";
  }

  lemma TagShape(tag: string, info: string)
    requires tag != "" && tag[0] == '#' && '\n' !in tag
    requires ':' !in info && '\n' !in info && info != "" && info[|info| - 1] == '"'
    ensures var l := tag + ":" + info;
      Trim(l) == l && LastIndex(l, ':') == |tag| && l[|tag| + 1..] == info && '\n' !in l
  {
    var l := tag + ":" + info;
    assert forall j | |tag| < j < |l| :: l[j] == info[j - |tag| - 1];
    LastIndexAt(l, ':', |tag|);
  }

  lemma StreamInfKind(info: string)
    ensures KindOf(STREAM_INF + ":" + info) == StreamInf
  {
    var l := STREAM_INF + ":" + info;
    assert l[7] == 'S' && MP.VERSION[7] == 'V';
    assert STREAM_INF <= l;
  }

  lemma UriKind(uri: string)
    requires MP.UriLine(uri)
    ensures KindOf(uri) == Uri
  {
    assert uri[0] != '#';
  }

  /** One printed stream is read back with its bandwidth lost. */
  function Reread(s: Stream, basePath: string): Stream {
    Stream(basePath + s.uri, s.resolution, s.codecs, 0, Round3(s.frameRate))
  }

  function RereadAll(streams: seq<Stream>, basePath: string): seq<Stream> {
    seq(|streams|, i requires 0 <= i < |streams| => Reread(streams[i], basePath))
  }

  lemma InfoLine(st: State, idx: nat, s: Stream, basePath: string)
    requires WellFormed(s) && idx > 0
    ensures Line(st, idx, STREAM_INF + ":" + InfoText(s), basePath)
         == Success(st.(resolution := s.resolution, frameRate := Round3(s.frameRate), codecs := s.codecs))
  {
    hide InfoText, KindOf, AssignAll, Parameters, Trim, LastIndex, Round3, WellFormed, Atoi;
    InfoShape(s);
    StreamInfKind(InfoText(s));
    InfoReads(st, s);
  }

  lemma UriReads(st: State, idx: nat, uri: string, basePath: string)
    requires MP.UriLine(uri) && idx > 0
    ensures Line(st, idx, uri, basePath) ==
      Success(State(st.version, "", "", 0, 0,
                    st.streams + [Stream(basePath + uri, st.resolution, st.codecs, st.bandwidth, st.frameRate)]))
  {
    hide KindOf, AssignAll, Parameters, LastIndex, Atoi;
    UriKind(uri);
  }

  lemma HeadReads(basePath: string)
    ensures Fold(HEAD, basePath) == Success(START.(version := 3))
    ensures forall l | l in HEAD :: '\n' !in l
  {
    var h, v := MP.HEADER, MP.VERSION + ":" + "3";
    assert v == MP.VERSION + ":3" && HEAD == [] + [h] + [v];
    HeaderLine(basePath);
    VersionLine(basePath);
    hide Line;
    FoldSnoc([], h, basePath);
    FoldSnoc([] + [h], v, basePath);
  }

  lemma HeaderLine(basePath: string)
    ensures Line(START, 0, MP.HEADER, basePath) == Success(START) && '\n' !in MP.HEADER
  {
    hide KindOf;
  }

  lemma VersionLine(basePath: string)
    ensures Line(START, 1, MP.VERSION + ":" + "3", basePath) == Success(START.(version := 3))
    ensures '\n' !in MP.VERSION + ":" + "3"
  {
    hide AssignAll, Parameters;
    MP.TagLine(MP.VERSION, "3");
    assert MP.VERSION <= MP.VERSION + ":" + "3";
    assert KindOf(MP.VERSION + ":" + "3") == Version;
    IntTextValue(3);
    assert IntText(3) == "3";
  }

  lemma {:induction false} StreamsRead(streams: seq<Stream>, basePath: string)
    requires forall s | s in streams :: WellFormed(s)
    ensures Fold(HEAD + StreamLines(streams), basePath)
         == Success(State(3, "", "", 0, 0, RereadAll(streams, basePath)))
    ensures forall l | l in StreamLines(streams) :: '\n' !in l
  {
    hide Line, InfoText, WellFormed, Round3, MP.UriLine;
    HeadReads(basePath);
    if streams == [] {
      assert HEAD + StreamLines(streams) == HEAD;
      assert RereadAll(streams, basePath) == [];
    } else {
      var before, last := streams[..|streams| - 1], streams[|streams| - 1];
      assert last in streams && forall s | s in before :: s in streams;
      StreamsRead(before, basePath);
      OneStreamReads(HEAD + StreamLines(before), before, last, basePath);
      assert HEAD + StreamLines(streams) == HEAD + StreamLines(before) + StreamPair(last);
      assert RereadAll(streams, basePath) == RereadAll(before, basePath) + [Reread(last, basePath)];
    }
  }

  lemma OneStreamReads(lines: seq<string>, before: seq<Stream>, last: Stream, basePath: string)
    requires |lines| > 0 && WellFormed(last)
    requires Fold(lines, basePath) == Success(State(3, "", "", 0, 0, RereadAll(before, basePath)))
    ensures Fold(lines + StreamPair(last), basePath)
         == Success(State(3, "", "", 0, 0, RereadAll(before, basePath) + [Reread(last, basePath)]))
    ensures forall l | l in StreamPair(last) :: '\n' !in l
  {
    hide Line, InfoText, Round3, WellFormed, MP.UriLine, RereadAll;
    var st := State(3, "", "", 0, 0, RereadAll(before, basePath));
    var a, u := STREAM_INF + ":" + InfoText(last), last.uri;
    WellFormedUri(last);
    InfoShape(last);
    InfoLine(st, |lines|, last, basePath);
    UriReads(st.(resolution := last.resolution, frameRate := Round3(last.frameRate), codecs := last.codecs),
             |lines| + 1, u, basePath);
    FoldSnoc(lines, a, basePath);
    FoldSnoc(lines + [a], u, basePath);
    assert lines + StreamPair(last) == lines + [a] + [u];
  }

  lemma WellFormedUri(s: Stream)
    requires WellFormed(s)
    ensures MP.UriLine(s.uri) && '\n' !in s.uri
  {}

  /** Printing and reading back keeps order, URI, resolution, codecs and thousandths of the frame rate. */
  lemma RoundTrip(streams: seq<Stream>, basePath: string)
    requires forall s | s in streams :: WellFormed(s)
    ensures var r := Parse(Print(streams), basePath);
            r.Success? && r.value.version == 3 && r.value.streams == RereadAll(streams, basePath)
  {
    hide Line, InfoText, WellFormed;
    HeadReads(basePath);
    StreamsRead(streams, basePath);
    LinesOfUnlines(HEAD + StreamLines(streams));
  }

  // ------------------------------------------------------------ what the lines do, on their text

  lemma SourceKeys()
    ensures AttributeOf("BANDWIDTH") == Bandwidth && AttributeOf("FRAME-RATE") == FrameRate
    ensures AttributeOf("RESOLUTION") == Resolution && AttributeOf("CODECS") == Codecs
    ensures Plain("BANDWIDTH", false) && Plain("FRAME-RATE", false) && Plain("RESOLUTION", false)
    ensures Plain("CODECS", false)
  {
    PrintedKeys();
    assert |"BANDWIDTH"| == 9;
  }

  /** The bandwidth of a `BANDWIDTH` attribute is its digits, below 2^31. */
  lemma BandwidthValue(digits: string)
    requires digits != "" && AllDigits(digits) && DigitsValue(digits) < 0x8000_0000
    ensures SizeT(Atoi(digits)) == DigitsValue(digits)
  {
    hide DigitsValue, DigitRun;
    UnsignedOf(false, digits);
    assert "" + digits == digits && digits + "" == digits && digits[..|digits|] == digits;
    DigitRunOf(digits, "");
  }

  /** Text that a tag line takes as it stands. */
  ghost predicate InfoLike(s: string) {
    ':' !in s && '\n' !in s && s != "" && !IsSpace(s[|s| - 1])
  }

  lemma InfoLineShape(info: string)
    requires InfoLike(info)
    ensures var l := "#EXT-X-STREAM-INF" + ":" + info;
      && Trim(l) == l && LastIndex(l, ':') == 17 && l[18..] == info && KindOf(l) == StreamInf
  {
    var l := STREAM_INF + ":" + info;
    assert |STREAM_INF| == 17 && l[|l| - 1] == info[|info| - 1];
    assert forall j | 17 < j < |l| :: l[j] == info[j - 18] && info[j - 18] in info;
    LastIndexAt(l, ':', 17);
    StreamInfKind(info);
  }

  /** A stream line sets exactly what its attributes say. */
  lemma InfoLineReads(st: State, idx: nat, info: string, basePath: string)
    requires idx > 0 && InfoLike(info)
    ensures Line(st, idx, "#EXT-X-STREAM-INF" + ":" + info, basePath) == Success(AssignAll(st, Parameters(info)))
  {
    hide KindOf, Trim, LastIndex, AssignAll, Parameters, Atoi, InfoLike;
    InfoLineShape(info);
  }

  /** The four attributes of a manifest that the printer has not written, its bandwidth included. */
  lemma ForeignInfoReads(st: State, idx: nat, digits: string, r: string, f: string, c: string, basePath: string)
    requires idx > 0 && digits != "" && AllDigits(digits) && DigitsValue(digits) < 0x8000_0000
    requires Plain(digits, false) && Plain(r, false) && Plain(f, false) && Plain(c, true)
    requires var info := ("BANDWIDTH" + "=" + digits) + "," + ("RESOLUTION" + "=" + r) + "," +
                         ("FRAME-RATE" + "=" + f) + "," + ("CODECS" + "=" + "\"" + c + "\"");
             InfoLike(info)
    ensures var info := ("BANDWIDTH" + "=" + digits) + "," + ("RESOLUTION" + "=" + r) + "," +
                        ("FRAME-RATE" + "=" + f) + "," + ("CODECS" + "=" + "\"" + c + "\"");
      Line(st, idx, "#EXT-X-STREAM-INF" + ":" + info, basePath) == Success(
        st.(bandwidth := DigitsValue(digits), resolution := r, frameRate := Atof(f), codecs := c))
  {
    hide KindOf, Trim, LastIndex, AssignAll, Parameters, Atoi, Atof, InfoLike, Plain, DigitsValue, SizeT, AttributeOf;
    var info := ("BANDWIDTH" + "=" + digits) + "," + ("RESOLUTION" + "=" + r) + "," +
                ("FRAME-RATE" + "=" + f) + "," + ("CODECS" + "=" + "\"" + c + "\"");
    InfoLineReads(st, idx, info, basePath);
    SourceKeys();
    BandwidthValue(digits);
    FourAttributes("BANDWIDTH", digits, "RESOLUTION", r, "FRAME-RATE", f, "CODECS", c);
    FourAssigned(st, ("BANDWIDTH", digits), ("RESOLUTION", r), ("FRAME-RATE", f), ("CODECS", c));
  }

  /** Each attribute by itself, in any order; other keys are skipped. */
  lemma OneAttributeSets(st: State, ps: Attributes, key: string, value: string)
    ensures var before, r := AssignAll(st, ps), AssignAll(st, ps + [(key, value)]);
      if key == "BANDWIDTH" then r == before.(bandwidth := SizeT(Atoi(value)))
      else if key == "FRAME-RATE" then r == before.(frameRate := Atof(value))
      else if key == "RESOLUTION" then r == before.(resolution := value)
      else if key == "CODECS" then r == before.(codecs := value)
      else r == before
  {
    hide Atoi, Atof;
    assert (ps + [(key, value)])[..|ps|] == ps;
  }

  /** Only what stands behind the last colon is read: a colon in any value hides all attributes before it. */
  lemma ColonHidesAttributes(st: State, idx: nat, info: string, basePath: string)
    requires idx > 0 && '\n' !in info && info != "" && !IsSpace(info[|info| - 1])
    ensures Line(st, idx, "#EXT-X-STREAM-INF" + ":" + info, basePath)
         == Success(AssignAll(st, Parameters(info[LastIndex(info, ':') + 1..])))
  {
    hide KindOf, Trim, AssignAll, Parameters, Atoi, LastIndex;
    var head := STREAM_INF + ":";
    assert |STREAM_INF| == 17 && head[0] == '#' && head[17] == ':';
    BehindLastColon(head, info);
    StreamInfKind(info);
  }

  /** A URI takes the attributes read before it, and leaves none for the next. */
  lemma UriTakesAttributes(st: State, idx: nat, uri: string, basePath: string)
    requires idx > 0 && uri != "" && Trimmed(uri) && '\n' !in uri && uri[0] != '#'
    ensures var r := Line(st, idx, uri, basePath);
      && r.Success?
      && r.value.streams ==
           st.streams + [Stream(basePath + uri, st.resolution, st.codecs, st.bandwidth, st.frameRate)]
      && r.value.resolution == "" && r.value.codecs == "" && r.value.bandwidth == 0 && r.value.frameRate == 0
      && r.value.version == st.version
  {
    hide KindOf, AssignAll, Parameters, LastIndex, Atoi, Trim;
    UriReads(st, idx, uri, basePath);
  }

  /** A carriage return at the end of a line makes no difference; blank lines and comments do nothing. */
  lemma ReturnIgnored(st: State, idx: nat, line: string, basePath: string)
    ensures Line(st, idx, line + "\r", basePath) == Line(st, idx, line, basePath)
  {
    hide KindOf, Trim;
    TrimReturn(line);
  }

  lemma BlankIgnored(st: State, idx: nat, line: string, basePath: string)
    requires idx > 0 && Blank(line)
    ensures Line(st, idx, line, basePath) == Success(st)
  {
    hide Trim;
    TrimBlank(line);
    assert KindOf("") == Ignored;
  }

  lemma CommentIgnored(st: State, idx: nat, line: string, basePath: string)
    requires idx > 0 && "#" <= Trim(line)
    requires !("#EXT-X-VERSION" <= Trim(line)) && !("#EXT-X-STREAM-INF" <= Trim(line))
    ensures Line(st, idx, line, basePath) == Success(st)
  {
    hide Trim, LastIndex, Atoi, AssignAll, Parameters;
  }

  /** A text whose first line is not the header throws. */
  lemma HeaderDemanded(content: string, basePath: string)
    requires content != "" && Trim(FirstLine(content)) != "#EXTM3U"
    ensures Parse(content, basePath).Failure?
  {
    hide Trim, KindOf, Line;
    var lines := Lines(content);
    assert lines[0] == FirstLine(content);
    assert lines[..1][..0] == [];
    FirstLineThrows(lines[0], basePath);
    assert Fold(lines[..1], basePath).Failure?;
    FoldFailure(lines, 1, basePath);
  }

  lemma FirstLineThrows(line: string, basePath: string)
    requires Trim(line) != "#EXTM3U"
    ensures Line(START, 0, line, basePath).Failure?
  {}

  /** A second version line throws. */
  lemma VersionAgain(st: State, idx: nat, line: string, basePath: string)
    requires idx > 0 && st.version != -1 && "#EXT-X-VERSION" <= Trim(line)
    ensures Line(st, idx, line, basePath).Failure?
  {
    hide Trim, LastIndex, Atoi, AssignAll, Parameters;
  }

  /** The printed text of one stream. */
  lemma PrintedStream(s: Stream)
    ensures Print([s]) == Unlines(["#EXTM3U", "#EXT-X-VERSION:3",
      "#EXT-X-STREAM-INF:" + ("BANDWITH=" + NatText(s.bandwidth)) + "," + ("RESOLUTION=" + s.resolution) + "," +
        ("FRAME-RATE=" + Fixed3Text(s.frameRate)) + "," + ("CODECS=" + "\"" + s.codecs + "\""),
      s.uri])
  {
    hide NatText, Fixed3Text, Unlines;
    assert [s][..0] == [];
    var info := "#EXT-X-STREAM-INF:" + ("BANDWITH=" + NatText(s.bandwidth)) + "," + ("RESOLUTION=" + s.resolution) +
                "," + ("FRAME-RATE=" + Fixed3Text(s.frameRate)) + "," + ("CODECS=" + "\"" + s.codecs + "\"");
    PrintedTags();
    assert STREAM_INF + ":" + InfoText(s) == info;
    assert StreamLines([s]) == [] + StreamPair(s) == [info, s.uri];
    assert HEAD + [info, s.uri] == ["#EXTM3U", "#EXT-X-VERSION:3", info, s.uri];
  }

  lemma PrintedTags()
    ensures HEAD == ["#EXTM3U", "#EXT-X-VERSION:3"] && STREAM_INF + ":" == "#EXT-X-STREAM-INF:"
    ensures "BANDWITH" + "=" == "BANDWITH=" && "RESOLUTION" + "=" == "RESOLUTION="
    ensures "FRAME-RATE" + "=" == "FRAME-RATE=" && "CODECS" + "=" == "CODECS="
  {
    assert MP.VERSION + ":3" == "#EXT-X-VERSION:3";
  }
}
