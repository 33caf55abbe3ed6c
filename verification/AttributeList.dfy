/**
 The quote-aware attribute scanner `parse_parameters`: a character state machine.
 */
module AttributeList {

  type Attributes = seq<(string, string)>

  /** The local variables of the scanner. */
  datatype Scan = Scan(result: Attributes, key: string, value: string, quoted: bool, inKey: bool)

  const SCAN_START := Scan([], "", "", false, true)

  function Char(st: Scan, c: char): Scan {
    if c == '"' then st.(quoted := !st.quoted)
    else if c == ',' && !st.quoted then Scan(st.result + [(st.key, st.value)], "", "", st.quoted, true)
    else if c == '=' then st.(inKey := false)
    else if st.inKey then st.(key := st.key + [c])
    else st.(value := st.value + [c])
  }

  function Chars(st: Scan, s: string): Scan {
    if s == "" then st else Char(Chars(st, s[..|s| - 1]), s[|s| - 1])
  }

  function Parameters(line: string): Attributes {
    var st := Chars(SCAN_START, line);
    st.result + [(st.key, st.value)]
  }

  method ParseParameters(line: string) returns (result: Attributes)
    ensures result == Parameters(line)
  {
    result := [];
    var quoted, inKey := false, true;
    var key, value := "", "";
    var i := 0;
    assert line[..0] == "";
    while i < |line|
      invariant 0 <= i <= |line|
      invariant Chars(SCAN_START, line[..i]) == Scan(result, key, value, quoted, inKey)
    {
      assert line[..i + 1][..i] == line[..i];
      var c := line[i];
      if c == '"' {
        quoted := !quoted;
      } else if c == ',' && !quoted {
        result := result + [(key, value)];
        key, value := "", "";
        inKey := true;
      } else if c == '=' {
        inKey := false;
      } else if inKey {
        key := key + [c];
      } else {
        value := value + [c];
      }
      i := i + 1;
    }
    assert line[..i] == line;
    result := result + [(key, value)];
  }

  // ------------------------------------------------------------ every input

  function Quotes(s: string): nat {
    if s == "" then 0 else Quotes(s[..|s| - 1]) + if s[|s| - 1] == '"' then 1 else 0
  }

  /** The comma at the end of `s` is outside quotes. */
  predicate EndsInSeparator(s: string) {
    s != "" && s[|s| - 1] == ',' && Quotes(s[..|s| - 1]) % 2 == 0
  }

  function Separators(s: string): nat {
    if s == "" then 0 else Separators(s[..|s| - 1]) + if EndsInSeparator(s) then 1 else 0
  }

  /** `s` without quotes, equals signs and separators. */
  function Payload(s: string): string {
    if s == "" then "" else
      var c := s[|s| - 1];
      Payload(s[..|s| - 1]) + if c == '"' || c == '=' || EndsInSeparator(s) then "" else [c]
  }

  function Flatten(ps: Attributes): string {
    if ps == [] then "" else Flatten(ps[..|ps| - 1]) + ps[|ps| - 1].0 + ps[|ps| - 1].1
  }

  lemma FlattenSnoc(ps: Attributes, k: string, v: string)
    ensures Flatten(ps + [(k, v)]) == Flatten(ps) + k + v
  {
    assert (ps + [(k, v)])[..|ps|] == ps;
  }

  lemma {:induction false} ScannerInvariant(s: string)
    ensures var st := Chars(SCAN_START, s);
      && st.quoted == (Quotes(s) % 2 == 1)
      && |st.result| == Separators(s)
      && Flatten(st.result) + st.key + st.value == Payload(s)
      && (st.inKey ==> st.value == "")
  {
    if s != "" {
      var rest, c := s[..|s| - 1], s[|s| - 1];
      ScannerInvariant(rest);
      var st := Chars(SCAN_START, rest);
      FlattenSnoc(st.result, st.key, st.value);
      var f := Flatten(st.result);
      if c == '"' || c == '=' || EndsInSeparator(s) {
        assert Payload(s) == Payload(rest) + "" == Payload(rest);
      } else {
        assert f + (st.key + [c]) + "" == f + st.key + "" + [c];
        assert f + st.key + (st.value + [c]) == f + st.key + st.value + [c];
      }
    }
  }

  /** One pair more than separators, and nothing lost, added or reordered. */
  lemma ParametersOfAnyText(s: string)
    ensures |Parameters(s)| == Separators(s) + 1
    ensures Flatten(Parameters(s)) == Payload(s)
  {
    ScannerInvariant(s);
    var st := Chars(SCAN_START, s);
    FlattenSnoc(st.result, st.key, st.value);
  }

  // ------------------------------------------------------------ scanning printed attributes

  lemma {:induction false} CharsConcat(st: Scan, a: string, b: string)
    ensures Chars(st, a + b) == Chars(Chars(st, a), b)
  {
    if b == "" {
      assert a + b == a;
    } else {
      assert (a + b)[..|a + b| - 1] == a + b[..|b| - 1];
      CharsConcat(st, a, b[..|b| - 1]);
    }
  }

  /** Text the scanner copies: no quotes, no equals signs, and no commas unless it is inside quotes. */
  ghost predicate Plain(s: string, quoted: bool) {
    forall c | c in s :: c != '"' && c != '=' && (quoted || c != ',')
  }

  lemma {:induction false} PlainChars(st: Scan, s: string)
    requires Plain(s, st.quoted)
    ensures Chars(st, s) == if st.inKey then st.(key := st.key + s) else st.(value := st.value + s)
  {
    if s == "" {
      assert st.key + s == st.key && st.value + s == st.value;
    } else {
      var rest, c := s[..|s| - 1], s[|s| - 1];
      assert c in s && forall d | d in rest :: d in s;
      PlainChars(st, rest);
      assert st.key + rest + [c] == st.key + s && st.value + rest + [c] == st.value + s;
    }
  }

  /** `key=` and an unquoted value. */
  lemma KeyAndValue(ps: Attributes, key: string, value: string)
    requires Plain(key, false) && Plain(value, false)
    ensures Chars(Scan(ps, "", "", false, true), key + "=" + value) == Scan(ps, key, value, false, false)
  {
    var st := Scan(ps, "", "", false, true);
    CharsConcat(st, key + "=", value);
    CharsConcat(st, key, "=");
    PlainChars(st, key);
    assert "" + key == key && "" + value == value;
    SingleChar(Scan(ps, key, "", false, true), '=');
    PlainChars(Scan(ps, key, "", false, false), value);
  }

  lemma SingleChar(st: Scan, c: char)
    ensures Chars(st, [c]) == Char(st, c)
  {
    assert [c][..0] == "";
    assert Chars(st, [c][..0]) == st;
  }

  /** `key="value"`, where the value may contain commas. */
  lemma KeyAndQuotedValue(ps: Attributes, key: string, value: string)
    requires Plain(key, false) && Plain(value, true)
    ensures Chars(Scan(ps, "", "", false, true), key + "=" + "\"" + value + "\"") == Scan(ps, key, value, false, false)
  {
    var st := Scan(ps, "", "", false, true);
    var head := key + "=" + "";
    assert head == key + "=";
    KeyAndValue(ps, key, "");
    CharsConcat(st, key + "=" + "\"" + value, "\"");
    CharsConcat(st, key + "=" + "\"", value);
    CharsConcat(st, key + "=", "\"");
    SingleChar(Scan(ps, key, "", false, false), '"');
    PlainChars(Scan(ps, key, "", true, false), value);
    assert "" + value == value;
    SingleChar(Scan(ps, key, value, true, false), '"');
  }

  /** A separator closes the current pair. */
  lemma Separator(ps: Attributes, key: string, value: string)
    ensures Chars(Scan(ps, key, value, false, false), ",") == Scan(ps + [(key, value)], "", "", false, true)
  {
    SingleChar(Scan(ps, key, value, false, false), ',');
  }

  /** Three plain attributes and a quoted one. */
  lemma FourAttributes(k1: string, v1: string, k2: string, v2: string, k3: string, v3: string, k4: string, v4: string)
    requires Plain(k1, false) && Plain(v1, false) && Plain(k2, false) && Plain(v2, false)
    requires Plain(k3, false) && Plain(v3, false) && Plain(k4, false) && Plain(v4, true)
    ensures Parameters((k1 + "=" + v1) + "," + (k2 + "=" + v2) + "," + (k3 + "=" + v3) + "," +
                       (k4 + "=" + "\"" + v4 + "\""))
         == [(k1, v1), (k2, v2), (k3, v3), (k4, v4)]
  {
    var a, b, c, d := k1 + "=" + v1, k2 + "=" + v2, k3 + "=" + v3, k4 + "=" + "\"" + v4 + "\"";
    Append(SCAN_START, "", a, Scan([], "", "", false, true), Scan([], k1, v1, false, false), k1, v1);
    assert "" + a == a;
    var p1, p2, p3 := [(k1, v1)], [(k1, v1), (k2, v2)], [(k1, v1), (k2, v2), (k3, v3)];
    assert [] + [(k1, v1)] == p1 && p1 + [(k2, v2)] == p2 && p2 + [(k3, v3)] == p3;
    Next(a, b, [], k1, v1, k2, v2);
    Next(a + "," + b, c, p1, k2, v2, k3, v3);
    CharsConcat(SCAN_START, a + "," + b + "," + c, ",");
    Separator(p2, k3, v3);
    CharsConcat(SCAN_START, a + "," + b + "," + c + ",", d);
    KeyAndQuotedValue(p3, k4, v4);
    assert Chars(SCAN_START, a + "," + b + "," + c + "," + d) == Scan(p3, k4, v4, false, false);
  }

  lemma Append(st: Scan, before: string, text: string, x: Scan, y: Scan, k: string, v: string)
    requires Chars(st, before) == x && x == Scan(x.result, "", "", false, true)
    requires text == k + "=" + v && Plain(k, false) && Plain(v, false)
    requires y == Scan(x.result, k, v, false, false)
    ensures Chars(st, before + text) == y
  {
    CharsConcat(st, before, text);
    KeyAndValue(x.result, k, v);
  }

  lemma Next(before: string, text: string, ps: Attributes, k: string, v: string, l: string, w: string)
    requires Chars(SCAN_START, before) == Scan(ps, k, v, false, false)
    requires text == l + "=" + w && Plain(l, false) && Plain(w, false)
    ensures Chars(SCAN_START, before + "," + text) == Scan(ps + [(k, v)], l, w, false, false)
  {
    CharsConcat(SCAN_START, before, ",");
    Separator(ps, k, v);
    CharsConcat(SCAN_START, before + ",", text);
    KeyAndValue(ps + [(k, v)], l, w);
  }

  // ------------------------------------------------------------ one attribute

  /** What a value keeps of the text behind its first equals sign: all but quotes and further equals signs. */
  function ValueOf(s: string): string {
    if s == "" then "" else
      ValueOf(s[..|s| - 1]) + if s[|s| - 1] == '"' || s[|s| - 1] == '=' then "" else [s[|s| - 1]]
  }

  lemma {:induction false} ValueChars(st: Scan, s: string)
    requires !st.inKey && ',' !in s
    ensures var r := Chars(st, s);
      r.result == st.result && r.key == st.key && r.value == st.value + ValueOf(s) && !r.inKey
  {
    if s == "" {
      assert st.value + "" == st.value;
    } else {
      var c := s[|s| - 1];
      assert c in s && forall x | x in s[..|s| - 1] :: x in s;
      ValueChars(st, s[..|s| - 1]);
      assert st.value + ValueOf(s[..|s| - 1]) + "" == st.value + ValueOf(s[..|s| - 1]);
    }
  }

  /** The first equals sign divides key and value; later ones are dropped from the value. */
  lemma FirstEqualsDivides(key: string, rest: string)
    requires Plain(key, false) && ',' !in rest
    ensures Parameters(key + "=" + rest) == [(key, ValueOf(rest))]
  {
    var st := Scan([], "", "", false, true);
    assert key + "=" + rest == (key + "=" + "") + rest;
    assert ValueOf("") == "" && Plain("", false);
    KeyAndValue([], key, "");
    CharsConcat(st, key + "=" + "", rest);
    ValueChars(Scan([], key, "", false, false), rest);
    assert "" + ValueOf(rest) == ValueOf(rest);
    assert [] + [(key, ValueOf(rest))] == [(key, ValueOf(rest))];
  }

  /** Without an equals sign there is a key and no value. */
  lemma KeyAlone(key: string)
    requires Plain(key, false)
    ensures Parameters(key) == [(key, "")]
  {
    PlainChars(SCAN_START, key);
    assert "" + key == key && [] + [(key, "")] == [(key, "")];
  }
}
