/** The worker's entry point: protocol requests go to the MCP handler with
    the database binding, everything else to the web application. */
module Router {

  /** The handler a request is passed to, with what it is passed. */
  datatype Dispatch<Request, Binding> =
    | ToMcp(request: Request, db: Binding)
    | ToStart(request: Request)

  /** `pathname === "/mcp" || pathname.startsWith("/mcp/")`. */
  predicate IsMcpPath(pathname: string): (b: bool)
    ensures b <==> && |pathname| >= 4 && pathname[..4] == "/mcp"
                   && (|pathname| == 4 || pathname[4] == '/')
  {
    pathname == "/mcp" || "/mcp/" <= pathname
  }

  /** The characters of `s` up to the first '/'. */
  function LeadingSegment(s: string): (r: string)
    ensures r <= s
    ensures forall i :: 0 <= i < |r| ==> r[i] != '/'
    ensures |r| < |s| ==> s[|r|] == '/'
  {
    if s == [] || s[0] == '/' then [] else [s[0]] + LeadingSegment(s[1..])
  }

  /** The first segment of an absolute path is "mcp". */
  predicate FirstSegmentIsMcp(pathname: string) {
    pathname != [] && pathname[0] == '/' && LeadingSegment(pathname[1..]) == "mcp"
  }

  /** The routing test is exactly "the first path segment is `mcp`". */
  lemma {:induction false} McpPathIsFirstSegment(pathname: string)
    ensures IsMcpPath(pathname) <==> FirstSegmentIsMcp(pathname)
  {
    if FirstSegmentIsMcp(pathname) {
      var rest := pathname[1..];
      assert rest[..3] == "mcp";
      if |rest| > 3 {
        assert rest[3] == '/';
        assert pathname[..5] == "/mcp/";
      } else {
        assert pathname == "/mcp";
      }
    }
    if IsMcpPath(pathname) {
      var rest := pathname[1..];
      assert rest[0] == 'm' && rest[1] == 'c' && rest[2] == 'p';
      assert |rest| == 3 || rest[3] == '/';
      assert LeadingSegment(rest) == "mcp" by {
        assert LeadingSegment(rest) == [rest[0]] + LeadingSegment(rest[1..]);
        assert LeadingSegment(rest[1..]) == [rest[1]] + LeadingSegment(rest[2..]);
        assert LeadingSegment(rest[2..]) == [rest[2]] + LeadingSegment(rest[3..]);
        assert LeadingSegment(rest[3..]) == [];
      }
    }
  }

  /** `fetch`: the request goes on unchanged; the database binding goes
      with it to the MCP handler only. */
  function Route<Request, Binding>(request: Request, pathname: string, db: Binding): (d: Dispatch<Request, Binding>)
    ensures d.ToMcp? <==> FirstSegmentIsMcp(pathname)
    ensures d.request == request
    ensures d.ToMcp? ==> d.db == db
  {
    McpPathIsFirstSegment(pathname);
    if IsMcpPath(pathname) then ToMcp(request, db) else ToStart(request)
  }

  lemma RoutingExamples<Request, Binding>(request: Request, db: Binding)
    ensures Route(request, "/mcp", db).ToMcp?
    ensures Route(request, "/mcp/", db).ToMcp?
    ensures Route(request, "/mcp/messages", db).ToMcp?
    ensures Route(request, "/mcpx", db).ToStart?
    ensures Route(request, "/", db).ToStart?
    ensures Route(request, "/alice", db).ToStart?
  {
    assert IsMcpPath("/mcp/messages");
    assert "/mcpx"[4] != "/mcp/"[4];
    assert !IsMcpPath("/alice");
  }
}
