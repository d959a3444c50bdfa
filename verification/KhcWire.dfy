/** The request as its receiver reads it off the wire. */
module KhcWire {
  import opened Text
  import opened KhcText
  import opened KhcMachine
  import opened KhcRun
  import opened KhcSend
  import opened KhcHeaders
  import opened KhcReceive

  // ---------------------------------------------------------------------------------------------
  // Reading

  /** A request read: its first line in parts, the lines behind it, and what follows the header. */
  datatype Parsed = Parsed(verb: string, scheme: string, host: string, path: string, version: string,
                           fields: seq<string>, rest: string)

  /** The text in front of the first `c`. */
  function Until(s: string, c: char): (r: string)
    ensures r <= s
  {
    if s == "" || s[0] == c then "" else [s[0]] + Until(s[1..], c)
  }

  lemma {:induction false} UntilRead(a: string, b: string, c: char)
    requires c !in a && b != "" && b[0] == c
    ensures Until(a + b, c) == a
    decreases |a|
  {
    if a == "" {
      assert a + b == b;
    } else {
      assert (a + b)[1..] == a[1..] + b;
      assert a[0] in a && forall x :: x in a[1..] ==> x in a;
      UntilRead(a[1..], b, c);
    }
  }

  /** An absolute target (section 5.3.2 of RFC 7230): scheme, host and path. */
  function ReadTarget(target: string): Option<(string, string, string)> {
    var scheme := Until(target, ':');
    var more := target[|scheme|..];
    if |more| < 3 || more[..3] != "://" then None
    else
      var host := Until(more[3..], '/');
      Some((scheme, host, more[3..][|host|..]))
  }

  /** Lines up to a blank one, of which the first has three words. */
  function ReadRequest(wire: string): Option<Parsed> {
    match Block(wire, |wire| + 3)
    case None => None
    case Some(h) =>
      if h.lines == [] then None
      else
        var words := Split(h.lines[0], ' ');
        if |words| != 3 || ReadTarget(words[1]).None? then None
        else
          var (scheme, host, path) := ReadTarget(words[1]).value;
          Some(Parsed(words[0], scheme, host, path, words[2], h.lines[1..], h.rest))
  }

  // ---------------------------------------------------------------------------------------------
  // What can be read back

  /** No line end, no terminator, no blank. */
  predicate Word(s: string) { Clean(s) && ' ' !in s }

  /** A request whose parts can be told apart: words, no slash in the host, one in front of the path. */
  predicate Readable(req: Request) {
    && Word(req.verb) && Word(req.host) && '/' !in req.host && Word(req.path) && req.path != "" && req.path[0] == '/'
    && forall i :: 0 <= i < |req.headers| && req.headers[i].Some? ==> Clean(req.headers[i].value)
  }

  /** The header lines that the caller has set, in order; those without text are left out. */
  function Given(headers: seq<Option<string>>): seq<string> {
    if headers == [] then []
    else (if headers[0].None? || headers[0].value == "" then [] else [headers[0].value]) + Given(headers[1..])
  }

  /** The lines behind the request line. */
  function Fields(host: string, headers: seq<Option<string>>, hasBody: bool): seq<string> {
    ["HOST: " + host] + Given(headers)
    + [if hasBody then "Transfer-Encoding: chunked" else "Content-Length: 0", "Connection: Close"]
  }

  function FirstLine(verb: string, target: string): string { verb + (" " + (target + (" " + "HTTP/1.1"))) }

  function Target(scheme: string, host: string, path: string): string { scheme + ("://" + (host + path)) }

  lemma TargetRead(scheme: string, host: string, path: string)
    requires ':' !in scheme && '/' !in host && path != "" && path[0] == '/'
    ensures ReadTarget(Target(scheme, host, path)) == Some((scheme, host, path))
  {
    var more := "://" + (host + path);
    UntilRead(scheme, more, ':');
    assert Target(scheme, host, path)[|scheme|..] == more;
    assert more[..3] == "://" && more[3..] == host + path;
    UntilRead(host, path, '/');
    assert (host + path)[|host|..] == path;
  }

  lemma WordsRead(verb: string, target: string)
    requires ' ' !in verb && ' ' !in target
    ensures Split(FirstLine(verb, target), ' ') == [verb, target, "HTTP/1.1"]
  {
    var version := "HTTP/1.1";
    assert ' ' !in version;
    SplitFirst(verb, target + ([' '] + version), ' ');
    SplitFirst(target, version, ' ');
    SplitOne(version, ' ');
    assert FirstLine(verb, target) == verb + ([' '] + (target + ([' '] + version)));
  }

  // ---------------------------------------------------------------------------------------------
  // The text that is sent

  function SchemeOf(insecure: bool): string { if insecure then "http" else "https" }

  function LinesOf(req: Request): seq<string> {
    [FirstLine(req.verb, Target(SchemeOf(req.insecure), req.host, req.path))] + Fields(req.host, req.headers, req.hasRead)
  }

  lemma RequestLineText(req: Request)
    ensures RequestLine(req) == FirstLine(req.verb, Target(SchemeOf(req.insecure), req.host, req.path)) + CRLF
  {
    assert Schema(req) == SchemeOf(req.insecure) + "://";
    assert "HTTP/1.1\r\n" == "HTTP/1.1" + CRLF;
    var s := SchemeOf(req.insecure);
    Regroup(req.verb, s, req.host, req.path);
  }

  lemma Regroup(verb: string, s: string, host: string, path: string)
    ensures verb + " " + (s + "://") + host + path + " " + ("HTTP/1.1" + CRLF)
         == (verb + (" " + ((s + ("://" + (host + path))) + (" " + "HTTP/1.1")))) + CRLF
  {
  }

  lemma TextLine(line: string, more: seq<string>)
    ensures HeaderText([line] + more) == line + (CRLF + HeaderText(more))
  {
    assert ([line] + more)[1..] == more;
  }

  lemma EndTextLines(req: Request)
    ensures EndText(req) == HeaderText([if req.hasRead then "Transfer-Encoding: chunked" else "Content-Length: 0",
                                        "Connection: Close"])
  {
    var first := if req.hasRead then "Transfer-Encoding: chunked" else "Content-Length: 0";
    TextLine(first, ["Connection: Close"]);
    TextLine("Connection: Close", []);
    assert [first] + ["Connection: Close"] == [first, "Connection: Close"];
    assert ["Connection: Close"] + [] == ["Connection: Close"];
    assert "\r\nConnection: Close\r\n\r\n" == CRLF + ("Connection: Close" + (CRLF + CRLF));
  }

  lemma LineInFront(line: string, a: string, b: string)
    ensures line + (CRLF + a) + b == line + (CRLF + (a + b))
  {
  }

  lemma {:induction false} GivenLines(headers: seq<Option<string>>, i: nat, tail: seq<string>)
    requires i <= |headers|
    ensures Lines(headers, i) + HeaderText(tail) == HeaderText(Given(headers[i..]) + tail)
    decreases |headers| - i
  {
    hide HeaderText;
    if i == |headers| {
      assert [] + tail == tail;
      assert "" + HeaderText(tail) == HeaderText(tail);
    } else {
      GivenLines(headers, i + 1, tail);
      assert headers[i..][1..] == headers[i + 1..];
      if headers[i].None? || headers[i].value == "" {
        assert [] + Given(headers[i + 1..]) == Given(headers[i + 1..]);
      } else {
        var line := headers[i].value;
        TextLine(line, Given(headers[i + 1..]) + tail);
        assert [line] + Given(headers[i + 1..]) + tail == [line] + (Given(headers[i + 1..]) + tail);
        LineInFront(line, Lines(headers, i + 1), HeaderText(tail));
      }
    }
  }

  /** The head of the request, line by line. */
  lemma HeadTextLines(req: Request)
    ensures HeadText(req) == HeaderText(LinesOf(req))
  {
    hide RequestLine, FirstLine, Target, EndText, Lines, Given, HeaderText;
    var end := [if req.hasRead then "Transfer-Encoding: chunked" else "Content-Length: 0", "Connection: Close"];
    var line, host := FirstLine(req.verb, Target(SchemeOf(req.insecure), req.host, req.path)), "HOST: " + req.host;
    var given := Given(req.headers);
    RequestLineText(req);
    EndTextLines(req);
    GivenLines(req.headers, 0, end);
    assert req.headers[0..] == req.headers;
    TextLine(host, given + end);
    TextLine(line, [host] + (given + end));
    assert LinesOf(req) == [line] + ([host] + (given + end));
    Joined(line, host, HeaderText(given + end));
    assert HostLine(req) == host + CRLF;
  }

  lemma Joined(line: string, host: string, more: string)
    ensures (line + CRLF) + ((host + CRLF) + more) == line + (CRLF + (host + (CRLF + more)))
  {
  }

  // ---------------------------------------------------------------------------------------------
  // Read back

  lemma {:induction false} GivenClean(headers: seq<Option<string>>)
    requires forall i :: 0 <= i < |headers| && headers[i].Some? ==> Clean(headers[i].value)
    ensures forall i :: 0 <= i < |Given(headers)| ==> Given(headers)[i] != "" && Clean(Given(headers)[i])
    decreases |headers|
  {
    hide Clean;
    if headers != [] { GivenClean(headers[1..]); }
  }

  lemma CleanParts(a: string, b: string)
    requires Clean(a) && Clean(b)
    ensures Clean(a + b)
  {
  }

  lemma FixedClean()
    ensures Clean("HOST: ") && Clean(" ") && Clean("HTTP/1.1") && Clean("http") && Clean("https") && Clean("://")
    ensures Clean("Transfer-Encoding: chunked") && Clean("Content-Length: 0") && Clean("Connection: Close")
    ensures forall x: bool :: ':' !in SchemeOf(x) && ' ' !in SchemeOf(x)
    ensures ' ' !in "://"
  {
  }

  lemma LinesClean(req: Request)
    requires Readable(req)
    ensures forall i :: 0 <= i < |LinesOf(req)| ==> LinesOf(req)[i] != "" && Clean(LinesOf(req)[i])
  {
    hide Clean;
    FixedClean();
    GivenClean(req.headers);
    var scheme := SchemeOf(req.insecure);
    CleanParts(req.host, req.path);
    CleanParts("://", req.host + req.path);
    CleanParts(scheme, "://" + (req.host + req.path));
    CleanParts(" ", "HTTP/1.1");
    CleanParts(Target(scheme, req.host, req.path), " " + "HTTP/1.1");
    CleanParts(" ", Target(scheme, req.host, req.path) + (" " + "HTTP/1.1"));
    CleanParts(req.verb, " " + (Target(scheme, req.host, req.path) + (" " + "HTTP/1.1")));
    CleanParts("HOST: ", req.host);
  }

  /** Nothing is too long for a reader with room for all of it. */
  lemma {:induction false} AllFit(lines: seq<string>, rest: string, cap: nat)
    requires cap >= |HeaderText(lines) + rest| + 3
    ensures Fitting(lines, cap) == lines
    decreases |lines|
  {
    if lines != [] {
      AllFit(lines[1..], rest, cap);
      assert [lines[0]] + lines[1..] == lines;
    }
  }

  /** What the receiver reads: the method, the target in its parts, and the lines behind it. */
  lemma HeadRead(req: Request, rest: string)
    requires Readable(req)
    ensures ReadRequest(HeadText(req) + rest) ==
            Some(Parsed(req.verb, if req.insecure then "http" else "https", req.host, req.path, "HTTP/1.1",
                        Fields(req.host, req.headers, req.hasRead), rest))
  {
    hide HeadText, Fields, FirstLine, Target, ReadTarget, Clean, Split, Block;
    var lines, scheme := LinesOf(req), SchemeOf(req.insecure);
    var wire, target := HeadText(req) + rest, Target(scheme, req.host, req.path);
    HeadTextLines(req);
    LinesClean(req);
    BlockOfText(lines, rest, |wire| + 3);
    AllFit(lines, rest, |wire| + 3);
    FixedClean();
    TargetWord(scheme, req.host, req.path);
    WordsRead(req.verb, target);
    TargetRead(scheme, req.host, req.path);
    assert lines[1..] == Fields(req.host, req.headers, req.hasRead);
  }

  lemma TargetWord(scheme: string, host: string, path: string)
    requires ' ' !in scheme && ' ' !in host && ' ' !in path
    ensures ' ' !in Target(scheme, host, path)
  {
    assert ' ' !in "://";
  }

  /** The request as the caller has set it, with what stands in for a host and a method that are not set. */
  predicate ReadableAs(req: Request, verb: string, host: string) {
    && verb == (if req.verb == "" then "GET" else req.verb) && host == (if req.host == "" then "localhost" else req.host)
    && Readable(req.(verb := verb, host := host))
  }

  /** In every run that comes to the response, whatever the socket has accepted at a time, what has gone over the wire
      reads as the request that the caller has set: method, target, the host, the caller's lines in order, how the
      body is framed, and the body. */
  lemma RequestOnWire(c: C, rs: seq<Reply>, verb: string, host: string)
    requires Fresh(c) && |c.k.stream.bytes| < PIECE_LIMIT && Runs(c, rs) && Answering(After(c, rs).k)
    requires ReadableAs(c.k.req, verb, host)
    ensures var d, req := After(c, rs), c.k.req;
            ReadRequest(d.w.wire) ==
              Some(Parsed(verb, if req.insecure then "http" else "https", host, req.path, "HTTP/1.1",
                          Fields(host, req.headers, req.hasRead), if req.hasRead then KhcSend.BodyText(d.w.pieces, true)
                                                                  else ""))
  {
    hide Runs, After, Fresh, ReadRequest, HeadText, KhcSend.BodyText, Readable, Fields;
    var d, req := After(c, rs), Defaults(c.k.req);
    WireIsRequest(c, rs);
    HeadRead(req, if req.hasRead then KhcSend.BodyText(d.w.pieces, true) else "");
  }
}
