/** The response header: what the header callback sees does not depend on how the response is cut
    into pieces by the socket. */
module KhcHeaders {
  import opened Text
  import opened KhcText
  import opened KhcMachine
  import opened KhcRun

  // ---------------------------------------------------------------------------------------------
  // The header as a function of the whole response

  /** The lines that the callback gets, and what comes after the header. */
  datatype Heads = Heads(lines: seq<string>, rest: string)

  /** A block of header lines up to its blank line.  A line that does not fit a header buffer of
      `cap` bytes, with its CRLF and a terminator, is left out. */
  function Block(s: string, cap: nat): (r: Option<Heads>)
    ensures r.Some? ==> |r.value.rest| < |s|
    decreases |s|
  {
    match FindCrlf(s)
    case None => None
    case Some(i) =>
      if i == 0 then Some(Heads([], s[2..]))
      else
        match Block(s[i + 2..], cap)
        case None => None
        case Some(h) => Some(if i + 3 <= cap then Heads([s[..i]] + h.lines, h.rest) else h)
  }

  /** The rest of a block of a response with that status: an informational one is followed by the
      next response. */
  function Resume(s: string, status: int, cap: nat): Option<Heads>
    decreases |s|, 0
  {
    match Block(s, cap)
    case None => None
    case Some(h) =>
      if 100 <= status < 200 then
        match Answer(h.rest, cap)
        case None => None
        case Some(a) => Some(Heads(h.lines + a.lines, a.rest))
      else Some(h)
  }

  /** A response from its status line on, which must fit the buffer and hold a status code. */
  function Answer(s: string, cap: nat): Option<Heads>
    decreases |s|, 1
  {
    match FindCrlf(s)
    case None => None
    case Some(i) =>
      if i + 3 > cap || StatusDigits(s[..i]).None? then None
      else Resume(s, StatusDigits(s[..i]).value, cap)
  }

  ghost predicate AnyChunked(lines: seq<string>) { exists i :: 0 <= i < |lines| && IsChunkedEncoding(lines[i]) }

  // ---------------------------------------------------------------------------------------------
  // Line ends

  lemma {:induction false} CrlfInPrefix(a: string, b: string)
    ensures FindCrlf(a).Some? ==> FindCrlf(a + b) == FindCrlf(a)
    ensures FindCrlf(a + b).Some? && FindCrlf(a + b).value + 2 <= |a| ==> FindCrlf(a) == FindCrlf(a + b)
    decreases |a|
  {
    if |a| >= 2 {
      assert (a + b)[1..] == a[1..] + b;
      CrlfInPrefix(a[1..], b);
    }
  }

  lemma {:induction false} CrlfAfterDrop(s: string, n: nat)
    requires FindCrlf(s).Some? && n <= FindCrlf(s).value
    ensures FindCrlf(s[n..]) == Some(FindCrlf(s).value - n)
    decreases n
  {
    if n > 0 {
      CrlfAfterDrop(s[1..], n - 1);
      assert s[1..][n - 1..] == s[n..];
    } else {
      assert s[0..] == s;
    }
  }

  // ---------------------------------------------------------------------------------------------
  // The invariant

  /** What has not been looked at yet: the buffered bytes and those still to come. */
  function Ahead(c: C): string
    requires c.k.head.len <= |c.k.head.bytes|
  {
    c.k.head.Contents() + c.w.inbox
  }

  /** The lines still to be told, and what comes after the header. */
  function Future(c: C): Option<Heads>
    requires c.k.head.len <= |c.k.head.bytes| && HeaderPhase(c.k.phase)
  {
    var cap := |c.k.head.bytes|;
    match c.k.phase
    case RespStatusRead | RespStatusParse => Answer(Ahead(c), cap)
    case RespHeaderCallback | RespHeaderRead => Resume(Ahead(c), c.k.resp.status, cap)
    case RespHeaderSkip =>
      match FindCrlf(Ahead(c))
      case None => None
      case Some(i) => Resume(Ahead(c)[i + 2..], c.k.resp.status, cap)
  }

  ghost predicate HeadInv(c: C, lines: seq<string>, rest: string) {
    && Valid(c.k) && HeaderPhase(c.k.phase) && |c.k.head.bytes| >= 15
    && (c.k.phase.RespStatusParse? ==> FindCrlf(c.k.head.Contents()).Some?)
    && (c.k.phase.RespHeaderSkip? || c.k.phase.RespHeaderRead? ==> FindCrlf(c.k.head.Contents()).None?)
    && Future(c).Some? && c.w.headers + Future(c).value.lines == lines && Future(c).value.rest == rest
    && (c.k.resp.chunked <==> AnyChunked(c.w.headers))
    && (c.k.phase.RespStatusRead? || c.k.phase.RespHeaderRead? ==> c.k.head.len + 1 < |c.k.head.bytes|)
    && (c.k.resp.readEnd ==> c.w.inbox == "")
  }

  /** The header is over: all lines have been told, and the rest is ahead. */
  ghost predicate BodyStarts(c: C, lines: seq<string>, rest: string) {
    && c.k.head.len + 3 <= |c.k.head.bytes| && c.w.headers == lines && Ahead(c) == rest
    && (c.k.resp.readEnd ==> c.w.inbox == "")
    && (c.k.resp.chunked <==> AnyChunked(lines))
    && if c.k.resp.chunked then c.k.phase.RespBodyParseChunkSize? && c.k.stream.len == 0 else c.k.phase.RespBodyFragment?
  }

  /** What may go wrong in the header: the socket fails, a line is refused or may not be skipped, or a
      status line has not come in one piece. */
  predicate HeaderFailure(code: Code) { code == SockRecv || code == HeaderCallback || code == TooLargeData }

  /** The three ways a step in the header can end. */
  ghost predicate HeaderGoesOn(c: C, lines: seq<string>, rest: string) {
    HeadInv(c, lines, rest) || BodyStarts(c, lines, rest) || (c.k.phase.Close? && HeaderFailure(c.k.result))
  }

  function Inbox(c: C, k: K, data: string): C
    requires |data| <= |c.w.inbox|
  {
    C(k, c.w.(inbox := c.w.inbox[|data|..]))
  }

  lemma AheadAfterRecv(c: C, k1: K, data: string)
    requires c.k.head.len <= |c.k.head.bytes| && data <= c.w.inbox
    requires k1.head.len <= |k1.head.bytes| && k1.head.Contents() == c.k.head.Contents() + data
    ensures Ahead(Inbox(c, k1, data)) == Ahead(c)
  {
  }

  lemma StatusReadStep(c: C, code: SockCode, data: string, lines: seq<string>, rest: string)
    requires HeadInv(c, lines, rest) && c.k.phase.RespStatusRead?
    requires c.k.head.len + |data| < |c.k.head.bytes| && data <= c.w.inbox && (code != SockOk ==> data == "")
    requires code == SockOk && data == "" ==> c.w.inbox == ""
    ensures HeaderGoesOn(Inbox(c, StepStatusRead(c.k, code, data), data), lines, rest)
  {
    hide Answer, FindCrlf, AnyChunked;
    ContentsPutZ(c.k.head, c.k.head.len, data);
    var k1 := StepStatusRead(c.k, code, data);
    assert c.w.inbox[0..] == c.w.inbox;
    if code == SockOk {
      AheadAfterRecv(c, k1, data);
      CrlfBeforeNul(k1.head.bytes, k1.head.len);
    }
  }

  lemma HeaderReadStep(c: C, code: SockCode, data: string, lines: seq<string>, rest: string)
    requires HeadInv(c, lines, rest) && c.k.phase.RespHeaderRead?
    requires c.k.head.len + |data| < |c.k.head.bytes| && data <= c.w.inbox && (code != SockOk ==> data == "")
    requires code == SockOk && data == "" ==> c.w.inbox == ""
    ensures HeaderGoesOn(Inbox(c, StepHeaderRead(c.k, code, data), data), lines, rest)
  {
    hide Resume, FindCrlf, AnyChunked;
    ContentsPutZ(c.k.head, c.k.head.len, data);
    var k1 := StepHeaderRead(c.k, code, data);
    assert c.w.inbox[0..] == c.w.inbox;
    if code == SockOk {
      AheadAfterRecv(c, k1, data);
    }
  }

  lemma StatusParseStep(c: C, lines: seq<string>, rest: string)
    requires HeadInv(c, lines, rest) && c.k.phase.RespStatusParse?
    ensures HeaderGoesOn(C(StepStatusParse(c.k), c.w), lines, rest)
  {
    hide Resume, FindCrlf, AnyChunked;
    var s := Ahead(c);
    CrlfInPrefix(c.k.head.Contents(), c.w.inbox);
    var i := FindCrlf(s).value;
    assert StatusDigits(s[..i]) == StatusDigits(c.k.head.bytes) by {
      assert forall j :: 0 <= j < i ==> s[..i][j] == c.k.head.bytes[j];
    }
  }

  lemma AnyChunkedAdd(lines: seq<string>, line: string)
    ensures AnyChunked(lines + [line]) <==> AnyChunked(lines) || IsChunkedEncoding(line)
  {
    assert (lines + [line])[|lines|] == line;
    assert forall i :: 0 <= i < |lines| ==> (lines + [line])[i] == lines[i];
  }

  /** The first line of what is ahead is told next, if it fits. */
  lemma ResumeLine(s: string, status: int, cap: nat, n: nat)
    requires FindCrlf(s) == Some(n) && n > 0 && Resume(s, status, cap).Some?
    ensures var t := Resume(s[n + 2..], status, cap);
            t.Some? && Resume(s, status, cap).value.rest == t.value.rest
            && Resume(s, status, cap).value.lines == (if n + 3 <= cap then [s[..n]] else []) + t.value.lines
  {
    hide FindCrlf, Answer;
    var h := Block(s[n + 2..], cap).value;
    if 100 <= status < 200 {
      var a := Answer(h.rest, cap).value.lines;
      assert [s[..n]] + h.lines + a == [s[..n]] + (h.lines + a);
    }
  }

  /** A line that fits has been told. */
  lemma LineTold(c: C, n: nat, lines: seq<string>, rest: string)
    requires HeadInv(c, lines, rest) && c.k.phase.RespHeaderCallback?
    requires FindCrlf(c.k.head.Contents()) == Some(n) && n > 0
    ensures HeadInv(C(HeaderLine(c.k, n, n), c.w.(headers := c.w.headers + [c.k.head.bytes[..n]])), lines, rest)
  {
    hide FindCrlf, IsChunkedEncoding, Resume, AnyChunked;
    var s, k1, line := Ahead(c), HeaderLine(c.k, n, n), c.k.head.bytes[..n];
    CrlfInPrefix(c.k.head.Contents(), c.w.inbox);
    ContentsDropZ(c.k.head, n + 2);
    assert s[n + 2..] == c.k.head.Contents()[n + 2..] + c.w.inbox;
    assert s[..n] == line;
    ResumeLine(s, c.k.resp.status, |c.k.head.bytes|, n);
    AnyChunkedAdd(c.w.headers, line);
    var t := Resume(s[n + 2..], c.k.resp.status, |c.k.head.bytes|).value.lines;
    assert c.w.headers + ([line] + t) == c.w.headers + [line] + t;
    HeaderLineValid(c.k, n, n);
  }

  /** The blank line: the body follows, or the next response. */
  lemma BlankLine(c: C, taken: nat, lines: seq<string>, rest: string)
    requires HeadInv(c, lines, rest) && c.k.phase.RespHeaderCallback?
    requires FindCrlf(c.k.head.Contents()) == Some(0)
    ensures HeaderGoesOn(C(HeaderLine(c.k, 0, taken), c.w), lines, rest)
  {
    hide FindCrlf, Answer, AnyChunked;
    var s := Ahead(c);
    CrlfInPrefix(c.k.head.Contents(), c.w.inbox);
    ContentsDropZ(c.k.head, 2);
    assert s[2..] == c.k.head.Contents()[2..] + c.w.inbox;
    assert Block(s, |c.k.head.bytes|) == Some(Heads([], s[2..]));
    assert c.w.headers + [] == c.w.headers;
    HeaderLineValid(c.k, 0, taken);
  }

  /** No line end is buffered: more is read, or the line is too long and is skipped. */
  lemma NoLineEnd(c: C, lines: seq<string>, rest: string)
    requires HeadInv(c, lines, rest) && c.k.phase.RespHeaderCallback?
    requires FindCrlf(c.k.head.Contents()).None?
    ensures var p := if |c.k.head.bytes| == c.k.head.len + 1 then RespHeaderSkip else RespHeaderRead;
            HeadInv(C(c.k.Go(p), c.w), lines, rest)
  {
    hide FindCrlf, Resume, AnyChunked;
    var s := Ahead(c);
    CrlfInPrefix(c.k.head.Contents(), c.w.inbox);
    if |c.k.head.bytes| == c.k.head.len + 1 {
      ResumeHasLine(s, c.k.resp.status, |c.k.head.bytes|);
      ResumeLine(s, c.k.resp.status, |c.k.head.bytes|, FindCrlf(s).value);
    }
  }

  lemma ResumeHasLine(s: string, status: int, cap: nat)
    requires Resume(s, status, cap).Some?
    ensures FindCrlf(s).Some?
  {
  }

  lemma CallbackStep(c: C, r: Reply, lines: seq<string>, rest: string)
    requires HeadInv(c, lines, rest) && c.k.phase.RespHeaderCallback? && CanStep(c, r)
    ensures HeaderGoesOn(Next(c, r), lines, rest)
  {
    hide FindCrlf, BodyStarts, HeaderLine, DropZ, Future, AnyChunked;
    CrlfBeforeNul(c.k.head.bytes, c.k.head.len);
    BeforeNul(c.k.head.bytes, c.k.head.len);
    match FindCrlf(c.k.head.bytes)
    case None => NoLineEnd(c, lines, rest);
    case Some(n) =>
      if n == 0 {
        BlankLine(c, 0, lines, rest);
      } else if r.n == n {
        LineTold(c, n, lines, rest);
      } else {
        assert HeaderLine(c.k, n, r.n) == c.k.Ends(HeaderCallback) by { LineRefused(c.k, n, r.n); }
      }
  }

  lemma LineRefused(k: K, n: nat, taken: nat)
    requires n + 2 <= k.head.len < |k.head.bytes| && n > 0 && taken != n
    ensures HeaderLine(k, n, taken) == k.Ends(HeaderCallback)
  {
  }

  /** Dropping what is buffered of an over-long line, but for a CR, leaves the line end ahead. */
  lemma SkippedAhead(c: C, lines: seq<string>, rest: string)
    requires HeadInv(c, lines, rest) && c.k.phase.RespHeaderSkip? && c.k.head.len > 0
    ensures HeadInv(C(c.k.(head := Skipped(c.k.head)), c.w), lines, rest)
  {
    hide FindCrlf, Resume, AnyChunked, Skipped;
    var b, s := c.k.head, Ahead(c);
    var i, m := FindCrlf(s).value, b.len - Kept(b);
    var c0 := C(c.k.(head := Skipped(b)), c.w);
    EndNotDropped(b, c.w.inbox);
    CrlfAfterDrop(s, m);
    SkippedContents(b);
    assert Ahead(c0) == s[m..];
    assert s[m..][i - m + 2..] == s[i + 2..];
  }

  lemma SkippedContents(b: Buffer)
    requires 0 < b.len < |b.bytes|
    ensures Skipped(b).Contents() == b.Contents()[b.len - Kept(b)..]
    ensures FindCrlf(Skipped(b).Contents()).None?
  {
    ContentsPut(b, 0, "\r");
    ShortNoCrlf(Skipped(b).Contents());
  }

  /** The line end that is ahead begins with the kept CR at the earliest. */
  lemma EndNotDropped(b: Buffer, inbox: string)
    requires 0 < b.len < |b.bytes| && FindCrlf(b.Contents()).None? && FindCrlf(b.Contents() + inbox).Some?
    ensures b.len - Kept(b) <= FindCrlf(b.Contents() + inbox).value
  {
    hide FindCrlf;
    CrlfInPrefix(b.Contents(), inbox);
    CrlfFound(b.Contents() + inbox);
    var i := FindCrlf(b.Contents() + inbox).value;
    assert i == b.len - 1 ==> (b.Contents() + inbox)[i] == b.bytes[b.len - 1];
  }

  lemma ShortNoCrlf(s: string)
    requires |s| < 2
    ensures FindCrlf(s).None?
  {
  }

  lemma SkipRecv(c: C, data: string, lines: seq<string>, rest: string)
    requires HeadInv(c, lines, rest) && c.k.phase.RespHeaderSkip?
    requires c.k.head.len + |data| < |c.k.head.bytes| && data <= c.w.inbox && (data == "" ==> c.w.inbox == "")
    ensures var k1 := HeaderReceived(c.k, c.k.head.len, data);
            match FindCrlf(k1.head.bytes)
            case None => HeadInv(Inbox(c, k1, data), lines, rest)
            case Some(n) => n + 2 <= k1.head.len &&
                            HeadInv(Inbox(c, k1.(head := DropZ(k1.head, n + 2), phase := RespHeaderCallback), data),
                                    lines, rest)
  {
    hide FindCrlf, Resume, AnyChunked, Block, PutZ, DropZ;
    var k1 := HeaderReceived(c.k, c.k.head.len, data);
    ContentsPutZ(c.k.head, c.k.head.len, data);
    AheadAfterRecv(c, k1, data);
    CrlfBeforeNul(k1.head.bytes, k1.head.len);
    BeforeNul(k1.head.bytes, k1.head.len);
    if FindCrlf(k1.head.bytes).Some? {
      AheadAfterDrop(c, k1, data, FindCrlf(k1.head.bytes).value);
    }
  }

  /** Behind the line end that has been found. */
  lemma AheadAfterDrop(c: C, k1: K, data: string, n: nat)
    requires k1.head.len < |k1.head.bytes| && n + 2 <= k1.head.len && data <= c.w.inbox
    requires FindCrlf(k1.head.Contents()) == Some(n)
    ensures var d := Inbox(c, k1.(head := DropZ(k1.head, n + 2), phase := RespHeaderCallback), data);
            FindCrlf(Ahead(Inbox(c, k1, data))) == Some(n) && Ahead(d) == Ahead(Inbox(c, k1, data))[n + 2..]
  {
    hide FindCrlf, DropZ;
    CrlfInPrefix(k1.head.Contents(), c.w.inbox[|data|..]);
    ContentsDropZ(k1.head, n + 2);
  }

  lemma HeadRoom(c: C, lines: seq<string>, rest: string)
    requires HeadInv(c, lines, rest)
    ensures |c.k.head.bytes| >= 15
  {
    hide Future, AnyChunked;
  }

  lemma SkipStep(c: C, r: Reply, lines: seq<string>, rest: string)
    requires HeadInv(c, lines, rest) && c.k.phase.RespHeaderSkip? && CanStep(c, r)
    ensures HeaderGoesOn(Next(c, r), lines, rest)
  {
    hide FindCrlf, HeadInv, BodyStarts, RequiredHeader, Kept, Skipped, PutZ, DropZ;
    HeadRoom(c, lines, rest);
    if r.Received? {
      var c0 := C(c.k.(head := Skipped(c.k.head)), c.w);
      SkippedAhead(c, lines, rest);
      assert c.w.inbox[0..] == c.w.inbox;
      if r.code == SockOk {
        SkipRecv(c0, r.data, lines, rest);
        var k1 := HeaderReceived(c0.k, c0.k.head.len, r.data);
        BeforeNul(k1.head.bytes, k1.head.len);
      } else if r.code == SockAgain {
        SameView(c0, Next(c, r), lines, rest);
      }
    }
  }

  /** Of the world, only what is still to come and what has been told matters. */
  lemma SameView(c: C, d: C, lines: seq<string>, rest: string)
    requires HeadInv(c, lines, rest) && d.k == c.k && d.w.inbox == c.w.inbox && d.w.headers == c.w.headers
    ensures HeadInv(d, lines, rest)
  {
    hide FindCrlf, Resume, Answer, AnyChunked;
  }

  /** A step in the header tells the next line, passes an over-long one, or ends the header where it
      ends in the response; or the run closes with an error. */
  lemma HeaderStep(c: C, r: Reply, lines: seq<string>, rest: string)
    requires HeadInv(c, lines, rest) && CanStep(c, r)
    ensures HeaderGoesOn(Next(c, r), lines, rest)
  {
    hide HeaderGoesOn, Future, AnyChunked, FindCrlf, StatusDigits, RequiredHeader, StepStatusRead, StepHeaderRead,
         SizeLineOk, Hex, PhaseText;
    match c.k.phase
    case RespStatusRead =>
      StatusReadStep(c, r.code, r.data, lines, rest);
      SameGoing(Inbox(c, StepStatusRead(c.k, r.code, r.data), r.data), Next(c, r), lines, rest);
    case RespHeaderRead =>
      HeaderReadStep(c, r.code, r.data, lines, rest);
      SameGoing(Inbox(c, StepHeaderRead(c.k, r.code, r.data), r.data), Next(c, r), lines, rest);
    case RespStatusParse => StatusParseStep(c, lines, rest);
    case RespHeaderCallback => CallbackStep(c, r, lines, rest);
    case RespHeaderSkip => SkipStep(c, r, lines, rest);
  }

  lemma SameGoing(c: C, d: C, lines: seq<string>, rest: string)
    requires HeaderGoesOn(c, lines, rest) && d.k == c.k && d.w.inbox == c.w.inbox && d.w.headers == c.w.headers
    ensures HeaderGoesOn(d, lines, rest)
  {
    hide HeadInv, AnyChunked;
    if HeadInv(c, lines, rest) { SameView(c, d, lines, rest); }
  }
}
