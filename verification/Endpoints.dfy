/** CDN endpoints: what the URI library finds in them, and the playlist path and directory made of it. */
module Endpoints {
  import opened Wrappers
  import opened Text

  /** Path and query of a URI, the URI without the two, and whether the HTTP library makes a client for that. */
  datatype Endpoint = Endpoint(base: string, path: string, query: string, hasClient: bool)

  /** The URI library; it throws for a text that is not a URI. */
  type UriParser = string -> Option<Endpoint>

  /** An endpoint that both libraries accept. */
  function Usable(parse: UriParser, endpoint: string): (r: Option<Endpoint>)
    ensures r.Some? ==> parse(endpoint) == r && r.value.hasClient
  {
    match parse(endpoint)
    case None => None
    case Some(e) => if e.hasClient then Some(e) else None
  }

  /** The playlist path of an endpoint, from its path and query: the leading slash goes, the query stays. */
  function PlaylistPath(path: string, query: string): string {
    var p := if path == "" then "" else path[1..];
    if query == "" then p else p + ("?" + query)
  }

  /** Everything up to the last slash. */
  function PlaylistDir(playlistPath: string): string { playlistPath[..LastIndex(playlistPath, '/') + 1] }

  lemma {:induction false} LastIndexConcat(a: string, b: string, c: char)
    requires c !in b
    ensures LastIndex(a + b, c) == LastIndex(a, c)
  {
    if b == "" {
      assert a + b == a;
    } else {
      assert (a + b)[..|a + b| - 1] == a + b[..|b| - 1];
      assert (a + b)[|a + b| - 1] == b[|b| - 1];
      assert b[|b| - 1] in b && forall x | x in b[..|b| - 1] :: x in b;
      LastIndexConcat(a, b[..|b| - 1], c);
    }
  }

  /** The directory is that of the path exactly when the query has no slash of its own. */
  lemma DirIgnoresQueryIff(path: string, query: string)
    ensures PlaylistDir(PlaylistPath(path, query)) == PlaylistDir(PlaylistPath(path, "")) <==> '/' !in query
  {
    var p := PlaylistPath(path, "");
    if query != "" {
      var full := p + ("?" + query);
      assert full == PlaylistPath(path, query);
      if '/' !in query {
        assert '/' !in "?" + query;
        LastIndexConcat(p, "?" + query, '/');
        assert full[..LastIndex(p, '/') + 1] == p[..LastIndex(p, '/') + 1];
      } else {
        var i :| 0 <= i < |query| && query[i] == '/';
        assert full[|p| + 1 + i] == '/';
        assert LastIndex(full, '/') >= |p| + 1 + i;
      }
    } else {
      assert PlaylistPath(path, query) == p;
    }
  }

  // ------------------------------------------------------------ on the parts of an endpoint

  /** The leading slash goes; a query follows after a question mark. */
  lemma PathOfParts(path: string, query: string)
    ensures PlaylistPath("/" + path, "") == path && PlaylistPath("", "") == ""
    ensures query != "" ==> PlaylistPath("/" + path, query) == path + "?" + query
  {
    assert ("/" + path)[1..] == path && path + ("?" + query) == path + "?" + query;
  }

  /** The directory is all that stands before the name, with its slash, and empty when there is none. */
  lemma DirOfParts(dir: string, name: string)
    requires '/' !in name && (dir == "" || dir[|dir| - 1] == '/')
    ensures PlaylistDir(dir + name) == dir
  {
    LastIndexConcat(dir, name, '/');
    if dir == "" { assert LastIndex(dir, '/') == -1; } else { LastIndexAt(dir, '/', |dir| - 1); }
    assert (dir + name)[..|dir|] == dir;
  }
}
