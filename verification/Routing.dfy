/** Where the GET handler takes a request: it asks the URI library for the parts of the path, with escapes decoded. */
module Routing {

  predicate HexDigit(c: char) { '0' <= c <= '9' || 'a' <= c <= 'f' || 'A' <= c <= 'F' }

  function HexValue(c: char): (d: nat)
    requires HexDigit(c)
    ensures d < 16
  {
    if c <= '9' then c as int - '0' as int
    else if c <= 'F' then c as int - 'A' as int + 10
    else c as int - 'a' as int + 10
  }

  /** Percent escapes, one byte each. */
  function Unescaped(s: string): string {
    if s == "" then ""
    else if s[0] == '%' && |s| >= 3 && HexDigit(s[1]) && HexDigit(s[2]) then
      [(16 * HexValue(s[1]) + HexValue(s[2])) as char] + Unescaped(s[3..])
    else [s[0]] + Unescaped(s[1..])
  }

  /** What stands before query and fragment. */
  function PathPart(target: string): string {
    if target == "" || target[0] == '?' || target[0] == '#' then "" else [target[0]] + PathPart(target[1..])
  }

  function UpToSlash(path: string): string {
    if path == "" || path[0] == '/' then "" else [path[0]] + UpToSlash(path[1..])
  }

  /** The first part between slashes; empty parts do not count. */
  function FirstPart(path: string): string {
    if path == "" then "" else if path[0] == '/' then FirstPart(path[1..]) else UpToSlash(path)
  }

  datatype Route = Nowhere | Api | Cached

  /** No part at all, the name of the API, or anything else, which is looked up in the cache. */
  function RouteOf(api: string, target: string): Route {
    var first := FirstPart(Unescaped(PathPart(target)));
    if first == "" then Nowhere else if first == api then Api else Cached
  }

  /** Without escapes, query and fragment: there is no part exactly when there are only slashes. */
  lemma {:induction false} NoPartIff(path: string)
    ensures FirstPart(path) == "" <==> forall i | 0 <= i < |path| :: path[i] == '/'
  {
    if path != "" && path[0] == '/' {
      NoPartIff(path[1..]);
      assert forall i | 0 < i < |path| :: path[i] == path[1..][i - 1];
    }
  }

  lemma {:induction false} PlainPath(target: string)
    requires '%' !in target && '?' !in target && '#' !in target
    ensures PathPart(target) == target && Unescaped(target) == target
  {
    if target != "" {
      assert forall c | c in target[1..] :: c in target;
      assert target[0] in target;
      PlainPath(target[1..]);
      assert target == [target[0]] + target[1..];
    }
  }

  /** A plain target reaches the cache exactly when it has a part and the first is not the API's. */
  lemma PlainRoute(api: string, target: string)
    requires '%' !in target && '?' !in target && '#' !in target
    ensures RouteOf(api, target) == Nowhere <==> forall i | 0 <= i < |target| :: target[i] == '/'
    ensures RouteOf(api, target) == Cached <==>
              (exists i :: 0 <= i < |target| && target[i] != '/') && FirstPart(target) != api
  {
    hide FirstPart, PathPart, Unescaped;
    PlainPath(target);
    NoPartIff(target);
  }

  // ------------------------------------------------------------ on the parts of a target

  /** What a question mark or a number sign begins is not part of the path. */
  lemma {:induction false} QueryCutOff(path: string, rest: string)
    requires '?' !in path && '#' !in path && (rest == "" || rest[0] == '?' || rest[0] == '#')
    ensures PathPart(path + rest) == path
  {
    if path == "" {
      assert path + rest == rest;
    } else {
      assert path[0] in path && forall c | c in path[1..] :: c in path;
      assert (path + rest)[0] == path[0] && (path + rest)[1..] == path[1..] + rest;
      QueryCutOff(path[1..], rest);
      assert path == [path[0]] + path[1..];
    }
  }

  lemma {:induction false} PartBeforeSlash(part: string, rest: string)
    requires '/' !in part && (rest == "" || rest[0] == '/')
    ensures UpToSlash(part + rest) == part
  {
    if part == "" {
      assert part + rest == rest;
    } else {
      assert part[0] in part && forall c | c in part[1..] :: c in part;
      assert (part + rest)[0] == part[0] && (part + rest)[1..] == part[1..] + rest;
      PartBeforeSlash(part[1..], rest);
      assert part == [part[0]] + part[1..];
    }
  }

  /** The first part is what stands between the first slashes. */
  lemma FirstPartIs(part: string, rest: string)
    requires part != "" && '/' !in part && (rest == "" || rest[0] == '/')
    ensures FirstPart("/" + (part + rest)) == part
  {
    var path := "/" + (part + rest);
    assert path[1..] == part + rest && part[0] in part;
    PartBeforeSlash(part, rest);
  }

  /** An escape stands for one character, whatever its letters' case. */
  lemma {:induction false} EscapeDecoded(high: char, low: char, rest: string)
    requires HexDigit(high) && HexDigit(low)
    ensures Unescaped("%" + ([high, low] + rest)) == [(16 * HexValue(high) + HexValue(low)) as char] + Unescaped(rest)
  {
    var s := "%" + ([high, low] + rest);
    assert s[0] == '%' && s[1] == high && s[2] == low && s[3..] == rest;
  }

  /** In either case of its letters. */
  lemma EscapeTexts()
    ensures Unescaped("%2F") == "/" && Unescaped("%2f") == "/" && Unescaped("%41") == "A" && Unescaped("%zz") == "%zz"
  {
    EscapeDecoded('2', 'F', "");
    EscapeDecoded('2', 'f', "");
    EscapeDecoded('4', '1', "");
    assert "%" + (['2', 'F'] + "") == "%2F" && "%" + (['2', 'f'] + "") == "%2f" && "%" + (['4', '1'] + "") == "%41";
    assert "%zz"[1..] == "zz" && "zz"[1..] == "z" && "z"[1..] == "";
  }

  /** A target under the API's name goes to the API, with or without a query; one under another name to the cache. */
  lemma RouteOfParts(api: string, part: string, rest: string, query: string)
    requires part != "" && '/' !in part && (rest == "" || rest[0] == '/')
    requires forall c | c in part + rest :: c != '%' && c != '?' && c != '#'
    requires query == "" || query[0] == '?' || query[0] == '#'
    ensures RouteOf(api, "/" + (part + rest) + query) == if part == api then Api else Cached
  {
    hide PathPart, FirstPart, Unescaped;
    var path := "/" + (part + rest);
    assert forall c | c in path :: c == '/' || c in part + rest;
    QueryCutOff(path, query);
    PlainPath(path);
    FirstPartIs(part, rest);
  }

  /** No part, with or without a query: refused. */
  lemma NoParts(api: string, query: string)
    requires query == "" || query[0] == '?' || query[0] == '#'
    ensures RouteOf(api, "/" + query) == Nowhere
  {
    hide PathPart, Unescaped;
    QueryCutOff("/", query);
    PlainPath("/");
    assert "/"[1..] == "";
  }
}
