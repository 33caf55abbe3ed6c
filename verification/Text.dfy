/** The text primitives the playlist code takes from the standard library and boost. */
module Text {
  /** `std::isspace` in the "C" locale, as used by `boost::algorithm::trim`. */
  predicate IsSpace(c: char) {
    c == ' ' || c == '\t' || c == '\n' || c == '\r' || c == '\U{0B}' || c == '\U{0C}'
  }

  ghost predicate Trimmed(s: string) {
    s == "" || (!IsSpace(s[0]) && !IsSpace(s[|s| - 1]))
  }

  function TrimLeft(s: string): (r: string)
    ensures r == "" || !IsSpace(r[0])
    ensures s == "" || !IsSpace(s[0]) ==> r == s
    ensures r != "" ==> s[|s| - 1] == r[|r| - 1]
  {
    if s != "" && IsSpace(s[0]) then TrimLeft(s[1..]) else s
  }

  function TrimRight(s: string): (r: string)
    ensures r == "" || (!IsSpace(r[|r| - 1]) && s != "" && r[0] == s[0])
    ensures s == "" || !IsSpace(s[|s| - 1]) ==> r == s
  {
    if s != "" && IsSpace(s[|s| - 1]) then TrimRight(s[..|s| - 1]) else s
  }

  function Trim(s: string): (r: string)
    ensures Trimmed(r)
    ensures Trimmed(s) ==> r == s
  {
    TrimRight(TrimLeft(s))
  }

  lemma TrimLeftChars(s: string)
    ensures forall c | c in TrimLeft(s) :: c in s
  {}

  lemma TrimRightChars(s: string)
    ensures forall c | c in TrimRight(s) :: c in s
  {}

  lemma TrimChars(s: string)
    ensures forall c | c in Trim(s) :: c in s
  {
    TrimLeftChars(s);
    TrimRightChars(TrimLeft(s));
  }

  /** `rfind(c)`, with -1 for `npos`. */
  function LastIndex(s: string, c: char): (r: int)
    ensures -1 <= r < |s|
    ensures r >= 0 ==> s[r] == c
    ensures forall j | r < j < |s| :: s[j] != c
  {
    if s == "" then -1
    else if s[|s| - 1] == c then |s| - 1
    else LastIndex(s[..|s| - 1], c)
  }

  lemma LastIndexAt(s: string, c: char, i: nat)
    requires i < |s| && s[i] == c && forall j | i < j < |s| :: s[j] != c
    ensures LastIndex(s, c) == i
  {
  }

  function FirstLine(s: string): (r: string)
    ensures |r| <= |s| && s[..|r|] == r && '\n' !in r
    ensures |r| < |s| ==> s[|r|] == '\n'
  {
    if s == "" || s[0] == '\n' then "" else [s[0]] + FirstLine(s[1..])
  }

  /** The lines a loop over `std::getline` sees: no extra line after a final newline. */
  function Lines(s: string): (r: seq<string>)
    ensures forall i | 0 <= i < |r| :: '\n' !in r[i]
  {
    if s == "" then [] else
      var l := FirstLine(s);
      [l] + if |l| == |s| then [] else Lines(s[|l| + 1..])
  }

  /** What a sequence of `<< line << std::endl` writes. */
  function Unlines(ls: seq<string>): string {
    if ls == [] then "" else ls[0] + "\n" + Unlines(ls[1..])
  }

  lemma {:induction false} UnlinesSnoc(ls: seq<string>, l: string)
    ensures Unlines(ls + [l]) == Unlines(ls) + l + "\n"
  {
    if ls == [] {
      assert [l][1..] == [];
      assert Unlines([l]) == l + "\n" + "";
    } else {
      assert (ls + [l])[0] == ls[0] && (ls + [l])[1..] == ls[1..] + [l];
      UnlinesSnoc(ls[1..], l);
      assert Unlines(ls + [l]) == ls[0] + "\n" + (Unlines(ls[1..]) + l + "\n");
    }
  }

  lemma {:induction false} FirstLineOf(l: string, rest: string)
    requires '\n' !in l
    ensures FirstLine(l + "\n" + rest) == l
  {
    var s := l + "\n" + rest;
    if l != "" {
      assert s[0] == l[0] && s[1..] == l[1..] + "\n" + rest;
      FirstLineOf(l[1..], rest);
      assert l == [l[0]] + l[1..];
    }
  }

  /** Reading back written lines is the identity. */
  lemma {:induction false} LinesOfUnlines(ls: seq<string>)
    requires forall i | 0 <= i < |ls| :: '\n' !in ls[i]
    ensures Lines(Unlines(ls)) == ls
  {
    if ls != [] {
      var s := Unlines(ls);
      FirstLineOf(ls[0], Unlines(ls[1..]));
      assert s[|ls[0]| + 1..] == Unlines(ls[1..]);
      LinesOfUnlines(ls[1..]);
    }
  }

  lemma LinesCons(l: string, rest: string)
    requires '\n' !in l
    ensures Lines(l + "\n" + rest) == [l] + Lines(rest)
  {
    var s := l + "\n" + rest;
    FirstLineOf(l, rest);
    assert s[|l| + 1..] == rest;
    hide FirstLine;
  }

  /** A text that does not end in a newline has one more line. */
  lemma {:induction false} LinesOfOpenText(ls: seq<string>, last: string)
    requires forall i | 0 <= i < |ls| :: '\n' !in ls[i]
    requires last != "" && '\n' !in last
    ensures Lines(Unlines(ls) + last) == ls + [last]
  {
    hide Lines;
    if ls == [] {
      assert Unlines(ls) + last == last && [] + [last] == [last];
      OnlyLine(last);
    } else {
      assert Unlines(ls) + last == ls[0] + "\n" + (Unlines(ls[1..]) + last);
      LinesCons(ls[0], Unlines(ls[1..]) + last);
      LinesOfOpenText(ls[1..], last);
      assert ls + [last] == [ls[0]] + (ls[1..] + [last]);
    }
  }

  lemma OnlyLine(last: string)
    requires last != "" && '\n' !in last
    ensures Lines(last) == [last]
  {
    FirstLineAlone(last);
  }

  lemma {:induction false} FirstLineAlone(s: string)
    requires '\n' !in s
    ensures FirstLine(s) == s
  {
    if s != "" {
      assert s[0] in s && forall c | c in s[1..] :: c in s;
      FirstLineAlone(s[1..]);
      assert s == [s[0]] + s[1..];
    }
  }

  // ------------------------------------------------------------ trimming

  ghost predicate Blank(s: string) {
    forall i | 0 <= i < |s| ::
      s[i] == ' ' || s[i] == '\t' || s[i] == '\n' || s[i] == '\r' || s[i] == '\U{0B}' || s[i] == '\U{0C}'
  }

  lemma {:induction false} TrimLeftOf(a: string, s: string)
    requires Blank(a) && (s == "" || !IsSpace(s[0]))
    ensures TrimLeft(a + s) == s
  {
    if a == "" {
      assert a + s == s;
    } else {
      assert (a + s)[0] == a[0] && (a + s)[1..] == a[1..] + s;
      TrimLeftOf(a[1..], s);
    }
  }

  lemma {:induction false} TrimRightOf(s: string, b: string)
    requires Blank(b) && (s == "" || !IsSpace(s[|s| - 1]))
    ensures TrimRight(s + b) == s
  {
    if b == "" {
      assert s + b == s;
    } else {
      var t := s + b;
      assert t[|t| - 1] == b[|b| - 1] && t[..|t| - 1] == s + b[..|b| - 1];
      TrimRightOf(s, b[..|b| - 1]);
    }
  }

  /** Exactly the blanks on both sides go, a carriage return among them. */
  lemma TrimOf(a: string, s: string, b: string)
    requires Blank(a) && Blank(b)
    requires s != "" && !Blank([s[0]]) && !Blank([s[|s| - 1]])
    ensures Trim(a + s + b) == s
  {
    assert [s[0]][0] == s[0] && [s[|s| - 1]][0] == s[|s| - 1];
    assert a + s + b == a + (s + b);
    TrimLeftOf(a, s + b);
    TrimRightOf(s, b);
  }

  lemma TrimBlank(s: string)
    requires Blank(s)
    ensures Trim(s) == ""
  {
    assert s + "" == s;
    TrimLeftOf(s, "");
  }

  /** Every text is blanks around what trimming leaves. */
  lemma {:induction false} TrimParts(s: string) returns (a: string, b: string)
    ensures Blank(a) && Blank(b) && s == a + Trim(s) + b
  {
    var l := TrimLeft(s);
    a := TrimLeftParts(s);
    b := TrimRightParts(l);
    assert s == a + (Trim(s) + b);
  }

  lemma {:induction false} TrimLeftParts(s: string) returns (a: string)
    ensures Blank(a) && s == a + TrimLeft(s)
  {
    a := "";
    if s != "" && IsSpace(s[0]) {
      var x := TrimLeftParts(s[1..]);
      a := [s[0]] + x;
      assert s == [s[0]] + s[1..];
    } else {
      assert "" + s == s;
    }
  }

  lemma {:induction false} TrimRightParts(s: string) returns (b: string)
    ensures Blank(b) && s == TrimRight(s) + b
  {
    b := "";
    if s != "" && IsSpace(s[|s| - 1]) {
      var x := TrimRightParts(s[..|s| - 1]);
      b := x + [s[|s| - 1]];
      assert s == s[..|s| - 1] + [s[|s| - 1]];
    } else {
      assert s + "" == s;
    }
  }

  /** A carriage return at the end does not matter. */
  lemma TrimReturn(s: string)
    ensures Trim(s + "\r") == Trim(s)
  {
    hide TrimLeft, TrimRight;
    var a, b := TrimParts(s);
    var t := Trim(s);
    if t == "" {
      assert s == a + b;
      TrimBlank(s + "\r");
    } else {
      assert [t[0]][0] == t[0] && [t[|t| - 1]][0] == t[|t| - 1];
      assert s + "\r" == a + t + (b + "\r");
      TrimOf(a, t, b + "\r");
    }
  }

  // ------------------------------------------------------------ the last colon

  /** The last occurrence in a text is that in its second half, if there is one. */
  lemma {:induction false} LastIndexBehind(a: string, b: string, c: char)
    ensures LastIndex(a + b, c) == if LastIndex(b, c) >= 0 then |a| + LastIndex(b, c) else LastIndex(a, c)
  {
    if b == "" {
      assert a + b == a;
    } else {
      assert (a + b)[..|a + b| - 1] == a + b[..|b| - 1] && (a + b)[|a + b| - 1] == b[|b| - 1];
      LastIndexBehind(a, b[..|b| - 1], c);
    }
  }

  /** A line that begins with a tag and its colon: nothing is trimmed, and what counts is behind the last colon. */
  lemma BehindLastColon(head: string, rest: string)
    requires head != "" && head[0] == '#' && head[|head| - 1] == ':'
    requires rest != "" && !IsSpace(rest[|rest| - 1])
    ensures Trim(head + rest) == head + rest
    ensures LastIndex(head + rest, ':') == |head| + LastIndex(rest, ':')
    ensures (head + rest)[LastIndex(head + rest, ':') + 1..] == rest[LastIndex(rest, ':') + 1..]
  {
    hide TrimLeft, TrimRight, LastIndex;
    TrimmedWhole(head, rest);
    LastIndexBehind(head, rest, ':');
    LastIndexEnd(head);
    SuffixBehind(head, rest, LastIndex(rest, ':') + 1);
  }

  lemma SuffixBehind(a: string, b: string, k: nat)
    requires k <= |b|
    ensures (a + b)[|a| + k..] == b[k..]
  {}

  lemma TrimmedWhole(head: string, rest: string)
    requires head != "" && head[0] == '#'
    requires rest != "" && !IsSpace(rest[|rest| - 1])
    ensures Trim(head + rest) == head + rest
  {
    hide TrimLeft, TrimRight;
    var l := head + rest;
    assert l[|l| - 1] == rest[|rest| - 1];
    assert Trimmed(l);
  }

  lemma LastIndexEnd(head: string)
    requires head != "" && head[|head| - 1] == ':'
    ensures LastIndex(head, ':') == |head| - 1
  {}
}
