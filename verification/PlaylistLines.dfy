/**
 What the lines of a media playlist do, also those that are never printed here: titles behind durations, carriage
 returns, comments, and the texts that throw.
 */
module PlaylistLines {
  import opened Wrappers
  import opened Text
  import opened Decimal
  import opened MediaPlaylist

  /** The digits count, whatever is behind them, after an optional sign and blanks. */
  lemma AtoiReads(digits: string, rest: string)
    requires digits != "" && AllDigits(digits) && (rest == "" || !IsDigit(rest[0]))
    ensures Atoi(digits + rest) == DigitsValue(digits)
    ensures Atoi("-" + (digits + rest)) == 0 - DigitsValue(digits)
    ensures Atoi("+" + (digits + rest)) == DigitsValue(digits)
  {
    hide DigitsValue, DigitRun, Unsigned;
    var s := digits + rest;
    DigitRunOf(digits, rest);
    UnsignedOf(false, s);
    UnsignedOf(true, s);
    UnsignedPlus(s);
    assert "" + s == s;
  }

  lemma UnsignedPlus(s: string)
    ensures Unsigned("+" + s) == (false, s)
  {
    var p := "+" + s;
    assert p[0] == '+' && p[1..] == s;
  }

  lemma AtoiSkipsBlanks(blanks: string, s: string)
    requires Blank(blanks) && (s == "" || !IsSpace(s[0]))
    ensures Atoi(blanks + s) == Atoi(s)
  {
    hide TrimLeft;
    TrimLeftOf(blanks, s);
    TrimLeftOf("", s);
    assert "" + s == s;
  }

  /** Nothing but blanks and letters: zero. */
  lemma AtoiWithoutDigits(s: string)
    requires s == "" || (!IsSpace(s[0]) && !IsDigit(s[0]) && s[0] != '-' && s[0] != '+')
    ensures Atoi(s) == 0
  {
    assert s[..0] == "";
  }

  /** Behind the fraction may stand whatever is neither a digit nor an exponent. */
  ghost predicate EndsNumber(rest: string) {
    rest == "" || (!IsDigit(rest[0]) && rest[0] != '.' && rest[0] != 'e' && rest[0] != 'E')
  }

  lemma AtofWholeReads(digits: string, rest: string)
    requires digits != "" && AllDigits(digits) && EndsNumber(rest)
    ensures Atof(digits + rest) == DigitsValue(digits) * 1_000_000
  {
    hide DigitsValue, DigitRun, FractionValue, FractionOf, MantissaEnd, ExponentOf, Unsigned, Scaled;
    UnsignedOf(false, digits + rest);
    assert "" + (digits + rest) == digits + rest;
    MantissaReads(digits, "", rest);
    PlainMantissa(digits);
    NoExponent(rest);
    FractionAbsent();
  }

  lemma PlainMantissa(digits: string)
    ensures MantissaText(digits, "") == digits
  {
    assert digits + "" == digits;
  }

  lemma NoExponent(rest: string)
    requires EndsNumber(rest)
    ensures ExponentOf(rest) == None
  {}

  lemma AtofPointReads(digits: string, fraction: string, rest: string)
    requires digits != "" && AllDigits(digits) && AllDigits(fraction) && EndsNumber(rest)
    ensures Atof(digits + ("." + (fraction + rest))) == DigitsValue(digits) * 1_000_000 + FractionValue(fraction)
  {
    hide DigitsValue, DigitRun, FractionValue, FractionOf, MantissaEnd, ExponentOf, Unsigned, Scaled;
    var t := digits + ("." + (fraction + rest));
    UnsignedOf(false, t);
    assert "" + t == t;
    FractionReads(digits, fraction, rest);
    NoExponent(rest);
  }

  // ------------------------------------------------------------ tags with values

  /** What may follow the number on its line: one line, without a colon, without a blank at the end. */
  ghost predicate Tail(s: string) {
    '\n' !in s && ':' !in s && (s == "" || !IsSpace(s[|s| - 1]))
  }

  /** The value of a tag line is all that follows its colon. */
  lemma TagValue(tag: string, value: string)
    requires tag != "" && tag[0] == '#' && value != "" && Tail(value)
    ensures var line := tag + ":" + value;
      Trim(line) == line && LastIndex(line, ':') == |tag| && line[|tag| + 1..] == value
  {
    var line := tag + ":" + value;
    assert line[|line| - 1] == value[|value| - 1];
    assert forall j | |tag| < j < |line| :: line[j] == value[j - |tag| - 1] && value[j - |tag| - 1] in value;
    LastIndexAt(line, ':', |tag|);
  }

  lemma NumberTail(digits: string, rest: string)
    requires digits != "" && AllDigits(digits) && Tail(rest)
    ensures digits + rest != "" && Tail(digits + rest)
  {
    assert forall c | c in digits :: IsDigit(c);
    if rest == "" { assert (digits + rest)[|digits + rest| - 1] == digits[|digits| - 1]; }
  }

  /** The three whole numbers: version, target duration, media sequence; what follows the digits does not matter. */
  lemma IntegerLines(st: State, idx: nat, digits: string, rest: string)
    requires idx > 0 && digits != "" && AllDigits(digits) && Tail(rest) && (rest == "" || !IsDigit(rest[0]))
    ensures Line(st, idx, "#EXT-X-TARGETDURATION" + ":" + (digits + rest))
         == Success(st.(target := DigitsValue(digits)))
    ensures Line(st, idx, "#EXT-X-MEDIA-SEQUENCE" + ":" + (digits + rest))
         == Success(st.(next := DigitsValue(digits)))
    ensures st.version == -1 ==>
      Line(st, idx, "#EXT-X-VERSION" + ":" + (digits + rest)) == Success(st.(version := DigitsValue(digits)))
    ensures st.version != -1 ==> Line(st, idx, "#EXT-X-VERSION" + ":" + (digits + rest)).Failure?
  {
    hide KindOf, Trim, LastIndex, Atoi, Atof, DigitsValue, Tail;
    NumberTail(digits, rest);
    AtoiReads(digits, rest);
    TagNames();
    TagValue(TARGETDURATION, digits + rest);
    TagValue(MEDIA_SEQUENCE, digits + rest);
    TagValue(VERSION, digits + rest);
    TargetKind(digits + rest);
    SequenceKind(digits + rest);
    VersionKind(digits + rest);
  }

  lemma TagNames()
    ensures HEADER == "#EXTM3U" && VERSION == "#EXT-X-VERSION" && TARGETDURATION == "#EXT-X-TARGETDURATION"
    ensures MEDIA_SEQUENCE == "#EXT-X-MEDIA-SEQUENCE" && EXTINF == "#EXTINF"
    ensures VERSION[0] == '#' && TARGETDURATION[0] == '#' && MEDIA_SEQUENCE[0] == '#' && EXTINF[0] == '#'
  {}

  /** A duration in seconds, with or without a comma and a title behind it, as RFC 8216 section 4.3.2.1 has it. */
  lemma WholeDurationLine(st: State, idx: nat, digits: string, rest: string)
    requires idx > 0 && digits != "" && AllDigits(digits)
    requires rest == "" || rest[0] == ','
    requires Tail(rest)
    ensures Line(st, idx, "#EXTINF" + ":" + (digits + rest))
         == Success(st.(extinf := DigitsValue(digits) * 1_000_000))
  {
    hide KindOf, Trim, LastIndex, Atoi, Atof, DigitsValue, Tail;
    NumberTail(digits, rest);
    AtofWholeReads(digits, rest);
    TagNames();
    TagValue(EXTINF, digits + rest);
    ExtinfKind(digits + rest);
  }

  /** The same with up to six fraction digits, padded with zeros. */
  lemma DurationLine(st: State, idx: nat, digits: string, fraction: string, rest: string)
    requires idx > 0 && digits != "" && AllDigits(digits) && AllDigits(fraction) && |fraction| <= 6
    requires rest == "" || rest[0] == ','
    requires Tail(rest)
    ensures AllDigits(fraction + Zeros(6 - |fraction|))
    ensures Line(st, idx, "#EXTINF" + ":" + (digits + ("." + (fraction + rest))))
         == Success(st.(extinf :=
              DigitsValue(digits) * 1_000_000 + DigitsValue(fraction + Zeros(6 - |fraction|))))
  {
    hide KindOf, Trim, LastIndex, Atoi, Atof, DigitsValue, FractionValue;
    FractionOfDigits(fraction);
    FractionTail(fraction, rest);
    NumberTail(digits, "." + (fraction + rest));
    AtofPointReads(digits, fraction, rest);
    TagNames();
    TagValue(EXTINF, digits + ("." + (fraction + rest)));
    ExtinfKind(digits + ("." + (fraction + rest)));
  }

  lemma FractionTail(fraction: string, rest: string)
    requires AllDigits(fraction) && Tail(rest)
    ensures Tail("." + (fraction + rest))
  {
    var t := "." + (fraction + rest);
    assert forall c | c in fraction :: IsDigit(c);
    if rest != "" {
      assert t[|t| - 1] == rest[|rest| - 1];
    } else if fraction != "" {
      assert t[|t| - 1] == fraction[|fraction| - 1];
    }
  }

  /** Only what follows the last colon counts, so a title with a colon takes the place of the duration. */
  lemma ColonInTitle(st: State, idx: nat, before: string, value: string)
    requires idx > 0 && value != "" && Tail(value) && '\n' !in before
    ensures Line(st, idx, "#EXTINF" + ":" + before + ":" + value) == Line(st, idx, "#EXTINF" + ":" + value)
  {
    hide KindOf, Trim, LastIndex, Atof, Tail;
    TagNames();
    TagValue(EXTINF, value);
    ColonTag(before);
    TagValue(EXTINF + ":" + before, value);
    ExtinfKind(value);
    ExtinfKind(before + ":" + value);
    assert EXTINF + ":" + before + ":" + value == EXTINF + ":" + (before + ":" + value);
  }

  lemma ColonTag(before: string)
    ensures EXTINF + ":" + before != "" && (EXTINF + ":" + before)[0] == '#'
  {}

  lemma ColonBehindNumber(number: string, title: string)
    requires ':' in title
    ensures var value, k := number + ("," + title), LastIndex(title, ':');
      LastIndex(value, ':') == |number| + 1 + k && value[LastIndex(value, ':') + 1..] == title[k + 1..]
  {
    var k := LastIndex(title, ':');
    assert exists i :: 0 <= i < |title| && title[i] == ':';
    assert k >= 0;
    hide LastIndex;
    assert number + ("," + title) == number + "," + title;
    LastIndexBehind(number + ",", title, ':');
    assert (number + "," + title)[|number| + 1 + k + 1..] == title[k + 1..];
  }

  lemma ExtinfBehindColon(st: State, idx: nat, value: string)
    requires idx > 0 && value != "" && !IsSpace(value[|value| - 1])
    ensures Line(st, idx, "#EXTINF" + ":" + value)
         == Success(st.(extinf := Atof(value[LastIndex(value, ':') + 1..])))
  {
    hide KindOf, Trim, Atof, LastIndex;
    var head := EXTINF + ":";
    TagNames();
    assert head[|head| - 1] == ':' && head[0] == '#';
    BehindLastColon(head, value);
    ExtinfKind(value);
  }

  /** With a colon in the title the duration is whatever stands behind the last one, and the number is not read. */
  lemma ColonTakes(st: State, idx: nat, number: string, title: string)
    requires idx > 0 && ':' in title && !IsSpace(title[|title| - 1])
    ensures Line(st, idx, "#EXTINF" + ":" + (number + ("," + title)))
         == Success(st.(extinf := Atof(title[LastIndex(title, ':') + 1..])))
  {
    hide Line, Atof, LastIndex, IsSpace;
    var value := number + ("," + title);
    assert value[|value| - 1] == title[|title| - 1];
    ColonBehindNumber(number, title);
    ExtinfBehindColon(st, idx, value);
  }

  /** A title is harmless, whatever the number before it, exactly when it has no colon. */
  lemma TitleHarmlessIff(st: State, idx: nat, title: string)
    requires idx > 0 && '\n' !in title && (title == "" || !IsSpace(title[|title| - 1]))
    ensures (forall digits | digits != "" && AllDigits(digits) ::
               Line(st, idx, "#EXTINF" + ":" + (digits + ("," + title)))
               == Success(st.(extinf := DigitsValue(digits) * 1_000_000)))
       <==> ':' !in title
  {
    hide Line, DigitsValue, Atof;
    if ':' in title {
      OneAndTwo();
      ColonTakes(st, idx, "1", title);
      ColonTakes(st, idx, "2", title);
    } else {
      forall digits | digits != "" && AllDigits(digits)
        ensures Line(st, idx, "#EXTINF" + ":" + (digits + ("," + title)))
             == Success(st.(extinf := DigitsValue(digits) * 1_000_000))
      {
        TitleTail(title);
        WholeDurationLine(st, idx, digits, "," + title);
      }
    }
  }

  lemma OneAndTwo()
    ensures AllDigits("1") && AllDigits("2") && DigitsValue("1") == 1 && DigitsValue("2") == 2
  {
    assert "1"[..0] == "" && "2"[..0] == "";
  }

  lemma TitleTail(title: string)
    requires '\n' !in title && ':' !in title && (title == "" || !IsSpace(title[|title| - 1]))
    ensures Tail("," + title)
  {
    var t := "," + title;
    assert t[|t| - 1] == if title == "" then ',' else title[|title| - 1];
  }

  /** Nine seconds, read with a comma, with a title, with a fraction; and zero behind a title with a colon. */
  lemma NineSeconds(st: State, idx: nat)
    requires idx > 0
    ensures Line(st, idx, "#EXTINF:9,") == Success(st.(extinf := 9_000_000))
    ensures Line(st, idx, "#EXTINF:9.5,a title") == Success(st.(extinf := 9_500_000))
    ensures Line(st, idx, "#EXTINF:9,a:b") == Success(st.(extinf := 0))
  {
    hide Line;
    Digits();
    TitleTails();
    WholeDurationLine(st, idx, "9", ",");
    DurationLine(st, idx, "9", "5", ",a title");
    ColonInTitle(st, idx, "9,a", "b");
    LetterDuration(st, idx);
    assert "#EXTINF" + ":" + ("9" + ",") == "#EXTINF:9,";
    assert "#EXTINF" + ":" + ("9" + ("." + ("5" + ",a title"))) == "#EXTINF:9.5,a title";
    assert "#EXTINF" + ":" + "9,a" + ":" + "b" == "#EXTINF:9,a:b";
  }

  lemma TitleTails()
    ensures Tail(",") && Tail(",a title") && Tail("b") && '\n' !in "9,a"
  {}

  lemma LetterDuration(st: State, idx: nat)
    requires idx > 0
    ensures Line(st, idx, "#EXTINF" + ":" + "b") == Success(st.(extinf := 0))
  {
    hide KindOf, Trim, LastIndex, Atof;
    TagNames();
    TitleTails();
    TagValue(EXTINF, "b");
    ExtinfKind("b");
    LetterIsZero();
  }

  lemma LetterIsZero()
    ensures Atof("b") == 0
  {
    assert "b"[..0] == "" && "b"[0..] == "b";
    FractionAbsent();
  }

  lemma Digits()
    ensures AllDigits("9") && AllDigits("5") && DigitsValue("9") == 9
    ensures AllDigits("5" + Zeros(5)) && DigitsValue("5" + Zeros(5)) == 500_000
  {
    assert "9"[..0] == "" && "5"[..0] == "";
    ZerosValue("5", 5);
    assert Scaled(5, 5) == 10 * Scaled(5, 4) == 100 * Scaled(5, 3) == 1000 * Scaled(5, 2) == 10000 * Scaled(5, 1);
  }

  // ------------------------------------------------------------ lines that do nothing, and URIs

  /** Blanks around a line, a carriage return among them, make no difference. */
  lemma ReturnIgnored(st: State, idx: nat, line: string)
    ensures Line(st, idx, line + "\r") == Line(st, idx, line)
  {
    hide KindOf, Trim;
    TrimReturn(line);
  }

  lemma PaddingIgnored(st: State, idx: nat, a: string, line: string, b: string)
    requires Blank(a) && Blank(b) && line != "" && !Blank([line[0]]) && !Blank([line[|line| - 1]])
    ensures Line(st, idx, a + line + b) == Line(st, idx, line)
  {
    hide KindOf, Trim, Blank;
    TrimOf(a, line, b);
    TrimOf("", line, "");
    assert Blank("") by { NoBlanks(); }
    assert "" + line + "" == line;
  }

  lemma NoBlanks()
    ensures Blank("")
  {}

  /** A blank line changes nothing. */
  lemma BlankIgnored(st: State, idx: nat, line: string)
    requires idx > 0 && Blank(line)
    ensures Line(st, idx, line) == Success(st)
  {
    hide Trim;
    TrimBlank(line);
    assert KindOf("") == Ignored;
  }

  /** A comment or a tag that is none of the four changes nothing. */
  lemma CommentIgnored(st: State, idx: nat, text: string)
    requires idx > 0 && '\n' !in text && (text == "" || !IsSpace(text[|text| - 1]))
    requires !("EXT-X-VERSION" <= text) && !("EXT-X-TARGETDURATION" <= text)
    requires !("EXT-X-MEDIA-SEQUENCE" <= text) && !("EXTINF" <= text)
    ensures Line(st, idx, "#" + text) == Success(st)
  {
    var line := "#" + text;
    assert Trimmed(line) by { assert line[|line| - 1] == if text == "" then '#' else text[|text| - 1]; }
    assert line[1..] == text;
    CommentKind(text);
  }

  lemma CommentKind(text: string)
    requires !("EXT-X-VERSION" <= text) && !("EXT-X-TARGETDURATION" <= text)
    requires !("EXT-X-MEDIA-SEQUENCE" <= text) && !("EXTINF" <= text)
    ensures KindOf("#" + text) == Ignored
  {
    NotVersion(text);
    NotTarget(text);
    NotSequence(text);
    NotExtinf(text);
    assert "#" <= "#" + text;
  }

  lemma NotVersion(text: string)
    requires !("EXT-X-VERSION" <= text)
    ensures !(VERSION <= "#" + text)
  {
    assert VERSION == "#" + "EXT-X-VERSION";
    NotPrefix("EXT-X-VERSION", text);
  }

  lemma NotTarget(text: string)
    requires !("EXT-X-TARGETDURATION" <= text)
    ensures !(TARGETDURATION <= "#" + text)
  {
    assert TARGETDURATION == "#" + "EXT-X-TARGETDURATION";
    NotPrefix("EXT-X-TARGETDURATION", text);
  }

  lemma NotSequence(text: string)
    requires !("EXT-X-MEDIA-SEQUENCE" <= text)
    ensures !(MEDIA_SEQUENCE <= "#" + text)
  {
    assert MEDIA_SEQUENCE == "#" + "EXT-X-MEDIA-SEQUENCE";
    NotPrefix("EXT-X-MEDIA-SEQUENCE", text);
  }

  lemma NotExtinf(text: string)
    requires !("EXTINF" <= text)
    ensures !(EXTINF <= "#" + text)
  {
    assert EXTINF == "#" + "EXTINF";
    NotPrefix("EXTINF", text);
  }

  lemma NotPrefix(tag: string, text: string)
    requires !(tag <= text)
    ensures !("#" + tag <= "#" + text)
  {
    var a, b := "#" + tag, "#" + text;
    assert a[1..] == tag && b[1..] == text;
    PrefixTail(a, b);
  }

  lemma PrefixTail(a: string, b: string)
    requires a != "" && b != ""
    ensures a <= b ==> a[1..] <= b[1..]
  {}

  // ------------------------------------------------------------ texts that throw

  /** A text whose first line is not the header throws. */
  lemma HeaderDemanded(content: string, garbage: int)
    requires content != "" && Trim(FirstLine(content)) != "#EXTM3U"
    ensures Parse(content, garbage).Failure?
  {
    hide Trim, KindOf, Line;
    var lines := Lines(content);
    assert lines[0] == FirstLine(content);
    assert lines[..1][..0] == [];
    FirstLineThrows(Start(garbage), lines[0]);
    assert Fold(Start(garbage), lines[..1]).Failure?;
    FoldFailure(Start(garbage), lines, 1);
  }

  lemma FirstLineThrows(st: State, line: string)
    requires Trim(line) != "#EXTM3U"
    ensures Line(st, 0, line).Failure?
  {
    TagNames();
  }

  lemma HeaderAccepted(st: State)
    ensures Line(st, 0, "#EXTM3U") == Success(st) && Line(st, 0, "#EXTM3U" + "\r") == Success(st)
  {
    TagNames();
    HeaderLine(st);
    ReturnIgnored(st, 0, HEADER);
  }

  /** A version that has been read stays, or the text throws. */
  lemma VersionStays(st: State, idx: nat, line: string)
    requires st.version != -1
    ensures Line(st, idx, line).Success? ==> Line(st, idx, line).value.version == st.version
  {
    hide Trim, KindOf, LastIndex, Atoi, Atof;
  }

  /** The line, blanks aside, is that of a version. */
  ghost predicate VersionLineAt(lines: seq<string>, i: nat) {
    0 < i < |lines| && "#EXT-X-VERSION" <= Trim(lines[i])
  }

  lemma {:induction false} VersionRead(st: State, lines: seq<string>, i: nat)
    requires i < |lines| && Fold(st, lines).Success?
    requires Fold(st, lines[..i + 1]).Success? && Fold(st, lines[..i + 1]).value.version != -1
    ensures Fold(st, lines).value.version == Fold(st, lines[..i + 1]).value.version
  {
    hide Line;
    if i + 1 == |lines| {
      assert lines[..i + 1] == lines;
    } else {
      var rest := lines[..|lines| - 1];
      assert rest[..i + 1] == lines[..i + 1];
      VersionRead(st, rest, i);
      VersionStays(Fold(st, rest).value, |rest|, lines[|lines| - 1]);
    }
  }

  /** Two version lines, the first of which gives a number, throw. */
  lemma SecondVersionThrows(content: string, garbage: int, i: nat, j: nat, digits: string)
    requires var lines := Lines(content);
      && 0 < i < j < |lines| && digits != "" && AllDigits(digits)
      && Trim(lines[i]) == "#EXT-X-VERSION" + ":" + digits
      && VersionLineAt(lines, j)
    ensures Parse(content, garbage).Failure?
  {
    hide Line, Trim;
    var st, lines := Start(garbage), Lines(content);
    if Fold(st, lines).Success? {
      PrefixSucceeds(st, lines, j);
      PrefixSucceeds(st, lines[..j], i);
      assert lines[..j][..i] == lines[..i] && lines[..j][..i + 1] == lines[..i + 1];
      PrefixSucceeds(st, lines[..j], i + 1);
      FirstVersion(st, lines, i, digits);
      VersionRead(st, lines[..j], i);
      PrefixSucceeds(st, lines, j + 1);
      assert lines[..j + 1][..j] == lines[..j];
      VersionAgain(Fold(st, lines[..j]).value, j, lines[j]);
      assert false;
    }
  }

  lemma PrefixSucceeds(st: State, lines: seq<string>, k: nat)
    requires k <= |lines| && Fold(st, lines).Success?
    ensures Fold(st, lines[..k]).Success?
  {
    if Fold(st, lines[..k]).Failure? { FoldFailure(st, lines, k); }
  }

  lemma VersionAgain(st: State, idx: nat, line: string)
    requires idx > 0 && st.version != -1 && "#EXT-X-VERSION" <= Trim(line)
    ensures Line(st, idx, line).Failure?
  {
    hide Trim, LastIndex, Atoi, Atof;
    TagNames();
  }

  lemma FirstVersion(st: State, lines: seq<string>, i: nat, digits: string)
    requires 0 < i < |lines| && digits != "" && AllDigits(digits)
    requires Trim(lines[i]) == "#EXT-X-VERSION" + ":" + digits
    requires Fold(st, lines[..i]).Success? && Fold(st, lines[..i + 1]).Success?
    ensures Fold(st, lines[..i + 1]).value.version != -1
  {
    hide Line, Trim, DigitsValue, Atoi;
    assert lines[..i + 1][..i] == lines[..i];
    var x, l := Fold(st, lines[..i]).value, "#EXT-X-VERSION" + ":" + digits;
    SameTrim(x, i, lines[i], l, digits);
    IntegerLines(x, i, digits, "");
    assert digits + "" == digits;
  }

  lemma SameTrim(st: State, idx: nat, raw: string, l: string, digits: string)
    requires Trim(raw) == l && l == "#EXT-X-VERSION" + ":" + digits && digits != "" && AllDigits(digits)
    ensures Line(st, idx, raw) == Line(st, idx, l)
  {
    hide Trim, KindOf, LastIndex, Atoi, Atof;
    TagNames();
    assert digits + "" == digits;
    NumberTail(digits, "");
    TagValue(VERSION, digits);
  }

  /** Carriage returns at the ends of all lines make no difference to a text. */
  lemma {:induction false} ReturnsIgnored(st: State, lines: seq<string>, returned: seq<string>)
    requires |returned| == |lines| && forall i | 0 <= i < |lines| :: returned[i] == lines[i] + "\r"
    ensures Fold(st, returned) == Fold(st, lines)
  {
    hide Line;
    if lines != [] {
      var n := |lines| - 1;
      ReturnsIgnored(st, lines[..n], returned[..n]);
      if Fold(st, lines[..n]).Success? { ReturnIgnored(Fold(st, lines[..n]).value, n, lines[n]); }
    }
  }

  lemma ReturnedTextReads(lines: seq<string>, returned: seq<string>, garbage: int)
    requires |returned| == |lines| && forall i | 0 <= i < |lines| :: returned[i] == lines[i] + "\r"
    requires forall i | 0 <= i < |lines| :: '\n' !in lines[i]
    ensures Parse(Unlines(returned), garbage) == Parse(Unlines(lines), garbage)
  {
    hide Fold;
    LinesOfUnlines(lines);
    LinesOfUnlines(returned);
    ReturnsIgnored(Start(garbage), lines, returned);
  }

  // ------------------------------------------------------------ texts without a tag

  /** No line after the first has this tag. */
  predicate Lacks(lines: seq<string>, tag: string) {
    forall i | 0 < i < |lines| :: !(tag <= Trim(lines[i]))
  }

  /** Without a sequence line the segments are numbered from zero. */
  lemma NumberedFromZero(content: string, garbage: int)
    requires Parse(content, garbage).Success? && Lacks(Lines(content), "#EXT-X-MEDIA-SEQUENCE")
    ensures forall i | 0 <= i < |Parse(content, garbage).value.segments| ::
      Parse(content, garbage).value.segments[i].nr == i
  {
    hide Lacks, Fold;
    FoldNumbers(Start(garbage), Lines(content));
  }

  lemma {:induction false} FoldNumbers(st: State, lines: seq<string>)
    requires Fold(st, lines).Success? && Lacks(lines, "#EXT-X-MEDIA-SEQUENCE")
    requires st.next == |st.segments| && forall i | 0 <= i < |st.segments| :: st.segments[i].nr == i
    ensures Fold(st, lines).value.next == |Fold(st, lines).value.segments|
    ensures forall i | 0 <= i < |Fold(st, lines).value.segments| :: Fold(st, lines).value.segments[i].nr == i
  {
    hide Trim, LastIndex, Atoi, Atof;
    TagNames();
    if lines != [] { FoldNumbers(st, lines[..|lines| - 1]); }
  }

  /** Without a duration line every segment lasts minus one second. */
  lemma DurationsUnset(content: string, garbage: int)
    requires Parse(content, garbage).Success? && Lacks(Lines(content), "#EXTINF")
    ensures forall s | s in Parse(content, garbage).value.segments :: s.extinf == -1_000_000
  {
    hide Lacks, Fold;
    FoldDurations(Start(garbage), Lines(content));
  }

  lemma {:induction false} FoldDurations(st: State, lines: seq<string>)
    requires Fold(st, lines).Success? && Lacks(lines, "#EXTINF")
    requires st.extinf == -ONE && forall s | s in st.segments :: s.extinf == -ONE
    ensures Fold(st, lines).value.extinf == -ONE
    ensures forall s | s in Fold(st, lines).value.segments :: s.extinf == -ONE
  {
    hide Trim, LastIndex, Atoi, Atof;
    TagNames();
    if lines != [] { FoldDurations(st, lines[..|lines| - 1]); }
  }

  /** Without a target line the field keeps what it held before, and without a version line the version is minus one. */
  lemma HeadUnset(content: string, garbage: int)
    requires Parse(content, garbage).Success?
    ensures Lacks(Lines(content), "#EXT-X-TARGETDURATION") ==> Parse(content, garbage).value.target == garbage
    ensures Lacks(Lines(content), "#EXT-X-VERSION") ==> Parse(content, garbage).value.version == -1
  {
    hide Lacks, Fold;
    FoldHead(Start(garbage), Lines(content));
  }

  lemma {:induction false} FoldHead(st: State, lines: seq<string>)
    requires Fold(st, lines).Success?
    ensures Lacks(lines, "#EXT-X-TARGETDURATION") ==> Fold(st, lines).value.target == st.target
    ensures Lacks(lines, "#EXT-X-VERSION") ==> Fold(st, lines).value.version == st.version
  {
    hide Trim, LastIndex, Atoi, Atof;
    TagNames();
    if lines != [] { FoldHead(st, lines[..|lines| - 1]); }
  }
}
