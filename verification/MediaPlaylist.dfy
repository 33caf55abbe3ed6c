/**
 HLS media playlists: the line parser and the printer of `HlsMediaPlaylist`.

 `Parse` and `Print` say what the two loops compute; the class carries the loops.
 */
module MediaPlaylist {
  import opened Wrappers
  import opened Text
  import opened Decimal

  const HEADER := "#EXTM3U"
  const VERSION := "#EXT-X-VERSION"
  const TARGETDURATION := "#EXT-X-TARGETDURATION"
  const MEDIA_SEQUENCE := "#EXT-X-MEDIA-SEQUENCE"
  const EXTINF := "#EXTINF"

  /** `HlsMediaPlaylist::Segment`; `extinf` in millionths of a second. */
  datatype Listing = Listing(uri: string, nr: int, extinf: int)

  /** The fields of the playlist together with the parser's loop variables. */
  datatype State = State(version: int, target: int, next: int, extinf: int, segments: seq<Listing>)

  /** Before the first line. `garbage` is the value of the uninitialized target duration. */
  function Start(garbage: int): State { State(-1, garbage, 0, -ONE, []) }

  datatype Kind = Version | Target | Sequence | Extinf | Ignored | Uri

  /** The branch the parser takes for a trimmed line: the first tag that it starts with. */
  function KindOf(line: string): Kind {
    if VERSION <= line then Version
    else if TARGETDURATION <= line then Target
    else if MEDIA_SEQUENCE <= line then Sequence
    else if EXTINF <= line then Extinf
    else if "#" <= line || line == "" then Ignored
    else Uri
  }

  /** Effect of a trimmed line after the first. `value` is the text after its last colon, if any. */
  function Apply(st: State, kind: Kind, line: string): Result<State> {
    var cpos := LastIndex(line, ':');
    var value := line[cpos + 1..];
    match kind
    case Version =>
      if st.version != -1 then Failure("duplicate #EXT-X-VERSION")
      else Success(if cpos >= 0 then st.(version := Atoi(value)) else st)
    case Target => Success(if cpos >= 0 then st.(target := Atoi(value)) else st)
    case Sequence => Success(if cpos >= 0 then st.(next := Atoi(value)) else st)
    case Extinf => Success(if cpos >= 0 then st.(extinf := Atof(value)) else st)
    case Ignored => Success(st)
    case Uri => Success(st.(segments := st.segments + [Listing(line, st.next, st.extinf)], next := st.next + 1))
  }

  /** Effect of the line at index `idx`; the first one must be the header. */
  function Line(st: State, idx: nat, raw: string): Result<State> {
    var line := Trim(raw);
    if idx == 0 then
      if line == HEADER then Success(st) else Failure("first line is not #EXTM3U")
    else
      Apply(st, KindOf(line), line)
  }

  function Fold(st: State, lines: seq<string>): Result<State> {
    if lines == [] then Success(st) else
      match Fold(st, lines[..|lines| - 1])
      case Failure(m) => Failure(m)
      case Success(s) => Line(s, |lines| - 1, lines[|lines| - 1])
  }

  /** The constructor from text. An empty text has no first line and is accepted. */
  function Parse(content: string, garbage: int): Result<State> {
    Fold(Start(garbage), Lines(content))
  }

  /** The two lines of one segment. */
  function SegmentPair(s: Listing): seq<string> {
    [EXTINF + ":" + GeneralText(s.extinf), "/" + s.uri]
  }

  function SegmentLines(segments: seq<Listing>): seq<string> {
    if segments == [] then [] else SegmentLines(segments[..|segments| - 1]) + SegmentPair(segments[|segments| - 1])
  }

  function HeadLines(target: int, segments: seq<Listing>): seq<string> {
    [HEADER, VERSION + ":3"] +
    if segments == [] then [] else
      [TARGETDURATION + ":" + IntText(target), MEDIA_SEQUENCE + ":" + IntText(segments[0].nr)]
  }

  /** `to_string`. */
  function Print(target: int, segments: seq<Listing>): string {
    Unlines(HeadLines(target, segments) + SegmentLines(segments))
  }

  class HlsMediaPlaylist {
    var version: int
    var target: int
    var segments: seq<Listing>

    constructor ()
      ensures version == -1 && segments == []
    {
      version, segments := -1, [];
    }

    /** One pass of the parsing loop. */
    method ReadLine(idx: nat, raw: string, seqNr: int, extinf: int)
      returns (thrown: bool, seqNr': int, extinf': int)
      modifies this
      ensures var r := Line(State(old(version), old(target), seqNr, extinf, old(segments)), idx, raw);
              && thrown == r.Failure?
              && (!thrown ==> r.value == State(version, target, seqNr', extinf', segments))
    {
      hide KindOf, Trim, LastIndex, Atoi, Atof;
      thrown, seqNr', extinf' := false, seqNr, extinf;
      var line := Trim(raw);
      if idx == 0 {
        thrown := line != HEADER;
        return;
      }
      var cpos := LastIndex(line, ':');
      match KindOf(line) {
        case Version =>
          if version != -1 {
            thrown := true;
          } else if cpos >= 0 {
            version := Atoi(line[cpos + 1..]);
          }
        case Target => if cpos >= 0 { target := Atoi(line[cpos + 1..]); }
        case Sequence => if cpos >= 0 { seqNr' := Atoi(line[cpos + 1..]); }
        case Extinf => if cpos >= 0 { extinf' := Atof(line[cpos + 1..]); }
        case Ignored =>
        case Uri =>
          segments := segments + [Listing(line, seqNr, extinf)];
          seqNr' := seqNr + 1;
      }
    }

    /** The parsing loop; the object is abandoned when it throws. */
    method Read(content: string) returns (thrown: bool)
      requires version == -1 && segments == []
      modifies this
      ensures thrown == Parse(content, old(target)).Failure?
      ensures !thrown ==> var st := Parse(content, old(target)).value;
                          version == st.version && target == st.target && segments == st.segments
    {
      var lines := Lines(content);
      var seqNr, extinf := 0, -ONE;
      ghost var start := Start(target);
      var idx := 0;
      assert lines[..0] == [];
      while idx < |lines|
        invariant 0 <= idx <= |lines|
        invariant Fold(start, lines[..idx]) == Success(State(version, target, seqNr, extinf, segments))
      {
        thrown, seqNr, extinf := ReadLine(idx, lines[idx], seqNr, extinf);
        assert lines[..idx + 1][..idx] == lines[..idx];
        FoldFailure(start, lines, idx + 1);
        if thrown { return; }
        idx := idx + 1;
      }
      assert lines[..idx] == lines;
      thrown := false;
    }

    method AddSegment(s: Listing)
      modifies this`segments
      ensures segments == old(segments) + [s]
    {
      segments := segments + [s];
    }

    method ToString() returns (text: string)
      ensures text == Print(target, segments)
    {
      hide GeneralText, IntText;
      var v := VERSION + ":3";
      text := HEADER + "\n" + v + "\n";
      ghost var head := HeadLines(target, segments);
      UnlinesTwo(HEADER, v);
      if |segments| > 0 {
        var t, m := TARGETDURATION + ":" + IntText(target), MEDIA_SEQUENCE + ":" + IntText(segments[0].nr);
        AppendTwo([HEADER, v], t, m);
        text := text + t + "\n";
        text := text + m + "\n";
        assert head == [HEADER, v] + [t, m];
      } else {
        assert head == [HEADER, v];
      }
      assert text == Unlines(head);
      var i := 0;
      assert head + SegmentLines(segments[..0]) == head;
      while i < |segments|
        invariant 0 <= i <= |segments|
        invariant text == Unlines(head + SegmentLines(segments[..i]))
      {
        var e, u := EXTINF + ":" + GeneralText(segments[i].extinf), "/" + segments[i].uri;
        assert segments[..i + 1][..i] == segments[..i];
        assert SegmentPair(segments[i]) == [e, u];
        AppendTwo(head + SegmentLines(segments[..i]), e, u);
        assert head + (SegmentLines(segments[..i]) + [e, u]) == head + SegmentLines(segments[..i]) + [e, u];
        text := text + e + "\n";
        text := text + u + "\n";
        i := i + 1;
      }
      assert segments[..i] == segments;
    }
  }

  lemma AppendTwo(ls: seq<string>, a: string, b: string)
    ensures Unlines(ls + [a, b]) == Unlines(ls) + a + "\n" + b + "\n"
  {
    UnlinesSnoc(ls, a);
    UnlinesSnoc(ls + [a], b);
    assert ls + [a] + [b] == ls + [a, b];
  }

  lemma UnlinesTwo(a: string, b: string)
    ensures Unlines([a, b]) == a + "\n" + b + "\n"
  {
    AppendTwo([], a, b);
    assert [] + [a, b] == [a, b];
    assert "" + a == a;
  }

  /** Once a prefix of the lines has thrown, so have all of them. */
  lemma {:induction false} FoldFailure(st: State, lines: seq<string>, k: nat)
    requires k <= |lines|
    ensures Fold(st, lines[..k]).Failure? ==> Fold(st, lines).Failure?
    decreases |lines| - k
  {
    if k == |lines| {
      assert lines[..k] == lines;
    } else {
      assert lines[..k + 1][..k] == lines[..k];
      FoldFailure(st, lines, k + 1);
    }
  }

  lemma {:induction false} FoldSnoc(st: State, lines: seq<string>, l: string)
    ensures Fold(st, lines + [l]) ==
            match Fold(st, lines) case Failure(m) => Failure(m) case Success(s) => Line(s, |lines|, l)
  {
    assert (lines + [l])[..|lines|] == lines;
  }

  // ------------------------------------------------------ what parsing yields

  /** A URI line: blanks trimmed, not a comment. */
  ghost predicate UriLine(s: string) {
    s != "" && Trimmed(s) && '\n' !in s && s[0] != '#'
  }

  lemma {:induction false} FoldUris(st: State, lines: seq<string>)
    requires Fold(st, lines).Success?
    requires forall l | l in lines :: '\n' !in l
    requires forall s | s in st.segments :: UriLine(s.uri)
    ensures forall s | s in Fold(st, lines).value.segments :: UriLine(s.uri)
  {
    hide KindOf;
    if lines != [] {
      var k := |lines| - 1;
      FoldUris(st, lines[..k]);
      TrimChars(lines[k]);
      assert lines[k] in lines;
      UriKind(Trim(lines[k]));
    }
  }

  lemma UriKind(line: string)
    ensures KindOf(line) == Uri ==> line != "" && line[0] != '#'
  {
    if line != "" && line[0] == '#' { assert "#" <= line; }
  }

  /** Every listing read from a text carries a URI line. */
  lemma ParsedUris(content: string, garbage: int)
    requires Parse(content, garbage).Success?
    ensures forall s | s in Parse(content, garbage).value.segments :: UriLine(s.uri)
  {
    FoldUris(Start(garbage), Lines(content));
  }

  // ------------------------------------------------------ printing and reading

  /** The text of a playlist with one segment and no durations. */
  function OneSegment(nr: int, uri: string): string {
    Unlines([HEADER, MEDIA_SEQUENCE + ":" + IntText(nr), uri])
  }

  lemma OneSegmentReads(nr: int, uri: string, garbage: int)
    requires UriLine(uri)
    ensures Parse(OneSegment(nr, uri), garbage) == Success(State(-1, garbage, nr + 1, -ONE, [Listing(uri, nr, -ONE)]))
  {
    hide Line, IntText, UriLine;
    var st, m := Start(garbage), MEDIA_SEQUENCE + ":" + IntText(nr);
    assert '\n' !in uri by { OneLine(uri); }
    HeaderLine(st);
    SequenceLine(st, 1, nr);
    UriLineReads(st.(next := nr), 2, uri);
    assert [] + [Listing(uri, nr, -ONE)] == [Listing(uri, nr, -ONE)];
    ThreeLines(st, HEADER, m, uri, st, st.(next := nr), st.(next := nr + 1, segments := [Listing(uri, nr, -ONE)]));
    LinesOfUnlines([HEADER, m, uri]);
  }

  lemma OneLine(uri: string)
    requires UriLine(uri)
    ensures '\n' !in uri
  {}

  lemma ThreeLines(st: State, a: string, b: string, c: string, x: State, y: State, z: State)
    requires Line(st, 0, a) == Success(x) && Line(x, 1, b) == Success(y) && Line(y, 2, c) == Success(z)
    ensures Fold(st, [a, b, c]) == Success(z)
  {
    hide Line;
    assert [a, b, c] == [] + [a] + [b] + [c];
    FoldSnoc(st, [], a);
    FoldSnoc(st, [] + [a], b);
    FoldSnoc(st, [] + [a] + [b], c);
  }

  lemma UriLineReads(st: State, idx: nat, uri: string)
    requires idx > 0 && UriLine(uri)
    ensures Line(st, idx, uri)
         == Success(st.(segments := st.segments + [Listing(uri, st.next, st.extinf)], next := st.next + 1))
  {
    assert !("#" <= uri);
    assert KindOf(uri) == Uri by { assert VERSION[0] == TARGETDURATION[0] == MEDIA_SEQUENCE[0] == EXTINF[0] == '#'; }
  }

  /** The fourth printed line is the number of the first segment. */
  lemma PrintedSequence(target: int, segments: seq<Listing>)
    requires segments != []
    requires forall s | s in segments :: Printable(s.uri)
    ensures var lines := Lines(Print(target, segments));
      |lines| > 3 && lines[3] == MEDIA_SEQUENCE + ":" + IntText(segments[0].nr)
  {
    hide IntText;
    HeadReads(target, segments, 0);
    SegmentsOneLineEach(segments);
    LinesOfUnlines(HeadLines(target, segments) + SegmentLines(segments));
  }

  lemma TagLine(tag: string, text: string)
    requires tag != "" && tag[0] == '#'
    requires NumberLike(text)
    ensures var line := tag + ":" + text;
            Trim(line) == line && LastIndex(line, ':') == |tag| && line[|tag| + 1..] == text && '\n' !in text
  {
    var line := tag + ":" + text;
    assert NumberChar(text[|text| - 1]);
    assert forall j | |tag| < j < |line| :: line[j] == text[j - |tag| - 1] && NumberChar(text[j - |tag| - 1]);
    LastIndexAt(line, ':', |tag|);
  }

  lemma VersionKind(text: string)
    ensures KindOf(VERSION + ":" + text) == Version
  {
    assert VERSION <= VERSION + ":" + text;
  }

  lemma TargetKind(text: string)
    ensures KindOf(TARGETDURATION + ":" + text) == Target
  {
    var line := TARGETDURATION + ":" + text;
    assert line[7] == 'T' && VERSION[7] == 'V';
    assert TARGETDURATION <= line;
  }

  lemma SequenceKind(text: string)
    ensures KindOf(MEDIA_SEQUENCE + ":" + text) == Sequence
  {
    var line := MEDIA_SEQUENCE + ":" + text;
    assert line[7] == 'M' && VERSION[7] == 'V' && TARGETDURATION[7] == 'T';
    assert MEDIA_SEQUENCE <= line;
  }

  lemma ExtinfKind(text: string)
    ensures KindOf(EXTINF + ":" + text) == Extinf
  {
    var line := EXTINF + ":" + text;
    assert line[4] == 'I' && VERSION[4] == '-' && TARGETDURATION[4] == '-' && MEDIA_SEQUENCE[4] == '-';
    assert EXTINF <= line;
  }

  lemma SlashKind(text: string)
    ensures KindOf("/" + text) == Uri
  {
    assert ("/" + text)[0] == '/';
  }

  /** A URI the printed line keeps as it is; the slash in front protects its first character. */
  ghost predicate Printable(uri: string) {
    '\n' !in uri && (uri == "" || !IsSpace(uri[|uri| - 1]))
  }

  /** What a printed list of segments reads back as. */
  function Reread(segments: seq<Listing>, first: int): seq<Listing> {
    seq(|segments|, i requires 0 <= i < |segments| =>
      Listing("/" + segments[i].uri, first + i, Round6(segments[i].extinf)))
  }

  /** The value after the colon of a tag line reaches the branch of its kind. */
  lemma ValueLine(st: State, idx: nat, tag: string, text: string, n: int)
    requires idx > 0 && tag != "" && tag[0] == '#' && '\n' !in tag
    requires NumberLike(text)
    ensures var l := tag + ":" + text;
      && '\n' !in l
      && (KindOf(l) == Target && Atoi(text) == n ==> Line(st, idx, l) == Success(st.(target := n)))
      && (KindOf(l) == Sequence && Atoi(text) == n ==> Line(st, idx, l) == Success(st.(next := n)))
      && (KindOf(l) == Extinf && Atof(text) == n ==> Line(st, idx, l) == Success(st.(extinf := n)))
      && (KindOf(l) == Version && Atoi(text) == n && st.version == -1 ==>
           Line(st, idx, l) == Success(st.(version := n)))
  {
    TagLine(tag, text);
  }

  lemma VersionLine(st: State, idx: nat)
    requires idx > 0 && st.version == -1
    ensures Line(st, idx, VERSION + ":" + "3") == Success(st.(version := 3)) && '\n' !in VERSION + ":" + "3"
  {
    VersionKind("3");
    IntTextValue(3);
    assert IntText(3) == "3";
    ValueLine(st, idx, VERSION, "3", 3);
  }

  lemma TargetLine(st: State, idx: nat, n: int)
    requires idx > 0
    ensures var l := TARGETDURATION + ":" + IntText(n);
            Line(st, idx, l) == Success(st.(target := n)) && '\n' !in l
  {
    TargetKind(IntText(n));
    IntTextChars(n);
    IntTextValue(n);
    ValueLine(st, idx, TARGETDURATION, IntText(n), n);
  }

  lemma SequenceLine(st: State, idx: nat, n: int)
    requires idx > 0
    ensures var l := MEDIA_SEQUENCE + ":" + IntText(n);
            Line(st, idx, l) == Success(st.(next := n)) && '\n' !in l
  {
    SequenceKind(IntText(n));
    IntTextChars(n);
    IntTextValue(n);
    ValueLine(st, idx, MEDIA_SEQUENCE, IntText(n), n);
  }

  lemma ExtinfLine(st: State, idx: nat, v: int)
    requires idx > 0
    ensures var l := EXTINF + ":" + GeneralText(v);
            Line(st, idx, l) == Success(st.(extinf := Round6(v))) && '\n' !in l
  {
    ExtinfKind(GeneralText(v));
    GeneralTextChars(v);
    GeneralTextValue(v);
    ValueLine(st, idx, EXTINF, GeneralText(v), Round6(v));
  }

  lemma SlashLine(st: State, idx: nat, uri: string)
    requires idx > 0 && Printable(uri)
    ensures Line(st, idx, "/" + uri)
         == Success(st.(segments := st.segments + [Listing("/" + uri, st.next, st.extinf)], next := st.next + 1))
    ensures '\n' !in "/" + uri
  {
    var u := "/" + uri;
    assert Trimmed(u) by { assert u[|u| - 1] == if uri == "" then '/' else uri[|uri| - 1]; }
    SlashKind(uri);
  }

  lemma HeaderLine(st: State)
    ensures Line(st, 0, HEADER) == Success(st) && '\n' !in HEADER
  {
    hide KindOf;
  }

  lemma HeadReads(target: int, segments: seq<Listing>, garbage: int)
    requires segments != []
    ensures Fold(Start(garbage), HeadLines(target, segments)) == Success(State(3, target, segments[0].nr, -ONE, []))
    ensures forall l | l in HeadLines(target, segments) :: '\n' !in l
  {
    hide Line;
    var st, h, v := Start(garbage), HEADER, VERSION + ":" + "3";
    var t, m := TARGETDURATION + ":" + IntText(target), MEDIA_SEQUENCE + ":" + IntText(segments[0].nr);
    assert v == VERSION + ":3";
    assert HeadLines(target, segments) == [h, v] + [t, m] == [] + [h] + [v] + [t] + [m];
    HeaderLine(st);
    FoldSnoc(st, [], h);
    FoldSnoc(st, [] + [h], v);
    FoldSnoc(st, [] + [h] + [v], t);
    FoldSnoc(st, [] + [h] + [v] + [t], m);
    VersionLine(st, 1);
    TargetLine(st.(version := 3), 2, target);
    SequenceLine(st.(version := 3, target := target), 3, segments[0].nr);
  }

  /** State after the head and the given segments. */
  function ReadState(segments: seq<Listing>, target: int, first: int): State {
    State(3, target, first + |segments|,
          if segments == [] then -ONE else Round6(segments[|segments| - 1].extinf), Reread(segments, first))
  }

  lemma PairReads(st: State, lines: seq<string>, e: string, u: string, x: State, y: State, z: State)
    requires Fold(st, lines) == Success(x)
    requires Line(x, |lines|, e) == Success(y)
    requires Line(y, |lines| + 1, u) == Success(z)
    ensures Fold(st, lines + [e, u]) == Success(z)
  {
    FoldSnoc(st, lines, e);
    FoldSnoc(st, lines + [e], u);
    assert lines + [e, u] == lines + [e] + [u];
  }

  lemma ReadStateSnoc(before: seq<Listing>, last: Listing, target: int, first: int)
    ensures ReadState(before + [last], target, first)
         == var mid := ReadState(before, target, first);
            mid.(extinf := Round6(last.extinf), next := mid.next + 1,
                 segments := mid.segments + [Listing("/" + last.uri, mid.next, Round6(last.extinf))])
  {
    assert Reread(before + [last], first) ==
           Reread(before, first) + [Listing("/" + last.uri, first + |before|, Round6(last.extinf))];
  }

  lemma SegmentReads(st: State, lines: seq<string>, before: seq<Listing>, last: Listing, target: int, first: int)
    requires |lines| > 0 && Fold(st, lines) == Success(ReadState(before, target, first))
    requires Printable(last.uri)
    ensures Fold(st, lines + SegmentPair(last)) == Success(ReadState(before + [last], target, first))
  {
    hide Line;
    var x, z := ReadState(before, target, first), ReadState(before + [last], target, first);
    var y := x.(extinf := Round6(last.extinf));
    ReadStateSnoc(before, last, target, first);
    ExtinfLine(x, |lines|, last.extinf);
    SlashLine(y, |lines| + 1, last.uri);
    PairReads(st, lines, SegmentPair(last)[0], SegmentPair(last)[1], x, y, z);
    assert SegmentPair(last) == [SegmentPair(last)[0], SegmentPair(last)[1]];
  }

  lemma {:induction false} SegmentsRead(st: State, head: seq<string>, segments: seq<Listing>, target: int, first: int)
    requires |head| > 0 && Fold(st, head) == Success(State(3, target, first, -ONE, []))
    requires forall s | s in segments :: Printable(s.uri)
    ensures Fold(st, head + SegmentLines(segments)) == Success(ReadState(segments, target, first))
  {
    hide Line;
    if segments == [] {
      assert head + SegmentLines(segments) == head;
      assert Reread(segments, first) == [];
    } else {
      var before, last := segments[..|segments| - 1], segments[|segments| - 1];
      assert last in segments && segments == before + [last];
      SegmentsRead(st, head, before, target, first);
      SegmentReads(st, head + SegmentLines(before), before, last, target, first);
      assert head + SegmentLines(before) + SegmentPair(last) == head + (SegmentLines(before) + SegmentPair(last));
    }
  }

  lemma {:induction false} SegmentsOneLineEach(segments: seq<Listing>)
    requires forall s | s in segments :: Printable(s.uri)
    ensures forall l | l in SegmentLines(segments) :: '\n' !in l
  {
    if segments != [] {
      var last := segments[|segments| - 1];
      SegmentsOneLineEach(segments[..|segments| - 1]);
      assert last in segments;
      ExtinfLine(Start(0), 1, last.extinf);
      SlashLine(Start(0), 1, last.uri);
    }
  }

  /** Printing and reading back: URIs gain a slash, durations keep six digits, numbers run from the first one. */
  lemma RoundTrip(target: int, segments: seq<Listing>, garbage: int)
    requires segments != []
    requires forall s | s in segments :: Printable(s.uri)
    ensures var r := Parse(Print(target, segments), garbage);
            && r.Success? && r.value.target == target && r.value.version == 3
            && r.value.segments == Reread(segments, segments[0].nr)
  {
    var head := HeadLines(target, segments);
    HeadReads(target, segments, garbage);
    SegmentsRead(Start(garbage), head, segments, target, segments[0].nr);
    SegmentsOneLineEach(segments);
    LinesOfUnlines(head + SegmentLines(segments));
  }

  /** The original numbers come back exactly when they were consecutive. */
  lemma NumbersKeptIff(segments: seq<Listing>)
    requires segments != []
    ensures (forall i | 0 <= i < |segments| :: Reread(segments, segments[0].nr)[i].nr == segments[i].nr)
       <==> (forall i | 0 < i < |segments| :: segments[i].nr == segments[i - 1].nr + 1)
  {
    if forall i | 0 < i < |segments| :: segments[i].nr == segments[i - 1].nr + 1 {
      Consecutive(segments);
    } else {
      var i :| 0 < i < |segments| && segments[i].nr != segments[i - 1].nr + 1;
      var r := Reread(segments, segments[0].nr);
      assert r[i].nr == r[i - 1].nr + 1;
    }
  }

  lemma {:induction false} Consecutive(segments: seq<Listing>)
    requires forall i | 0 < i < |segments| :: segments[i].nr == segments[i - 1].nr + 1
    ensures forall i | 0 <= i < |segments| :: segments[i].nr == segments[0].nr + i
  {
    if |segments| > 1 {
      var k := |segments| - 1;
      Consecutive(segments[..k]);
      assert forall i | 0 <= i < k :: segments[i].nr == segments[..k][i].nr;
      assert segments[k].nr == segments[k - 1].nr + 1;
    }
  }
}
