/** Particular runs, step by step: from the request to the response, and line by line through its
    header. */
module KhcLook {
  import opened Text
  import opened KhcText
  import opened KhcMachine
  import opened KhcRun
  import opened KhcSend
  import opened KhcHeaders
  import opened KhcChunk
  import opened KhcResponse

  // ---------------------------------------------------------------------------------------------
  // Moves

  ghost predicate Moves(c: C, d: C) { exists rs :: Runs(c, rs) && After(c, rs) == d }

  lemma MovesOne(c: C, r: Reply)
    requires CanStep(c, r)
    ensures Moves(c, Next(c, r))
  {
    var d := Next(c, r);
    assert Runs(d, []) && After(d, []) == d;
    assert [r][1..] == [];
    assert Runs(c, [r]) && After(c, [r]) == d;
  }

  lemma {:induction false} RunsOn(c: C, rs: seq<Reply>, ts: seq<Reply>)
    requires Runs(c, rs) && Runs(After(c, rs), ts)
    ensures Runs(c, rs + ts) && After(c, rs + ts) == After(After(c, rs), ts)
    decreases |rs|
  {
    hide CanStep, Next;
    if rs == [] {
      assert rs + ts == ts;
    } else {
      assert (rs + ts)[1..] == rs[1..] + ts;
      RunsOn(Next(c, rs[0]), rs[1..], ts);
    }
  }

  lemma MovesOn(c: C, d: C, e: C)
    requires Moves(c, d) && Moves(d, e)
    ensures Moves(c, e)
  {
    var rs :| Runs(c, rs) && After(c, rs) == d;
    var ts :| Runs(d, ts) && After(d, ts) == e;
    RunsOn(c, rs, ts);
  }

  lemma RunOf(c: C, d: C) returns (rs: seq<Reply>)
    requires Moves(c, d)
    ensures Runs(c, rs) && After(c, rs) == d
  {
    rs :| Runs(c, rs) && After(c, rs) == d;
  }

  function Zeros(n: nat): string { if n == 0 then "" else "0" + Zeros(n - 1) }

  lemma {:induction false} ZerosLength(n: nat)
    ensures |Zeros(n)| == n && forall i :: 0 <= i < n ==> Zeros(n)[i] == '0'
  {
    if n > 0 { ZerosLength(n - 1); }
  }

  // ---------------------------------------------------------------------------------------------
  // The request goes through

  /** On the way to the response with all answers as the client wants them, and no body to send. */
  predicate Obliged(k: K) {
    && Valid(k) && Asking(k.phase) && k.result == Ok
    && (k.phase.ReqBodySendSize? ==> k.out.readSize == 0 && k.out.readEnd)
    && !k.phase.ReqBodySend?
    && (k.phase.ReqBodySendCrlf? ==> k.out.readEnd)
    && (k.phase.ReqBodyRead? ==> !k.out.readEnd)
  }

  function Obliging(call: Call): Reply {
    match call
    case Allocate(h, s) =>
      Memory(if h then Some(Zeros(HEADER_BUFF_SIZE)) else None, if s then Some(Zeros(STREAM_BUFF_SIZE)) else None)
    case Dial => Sock(SockOk)
    case Send(t) => Sent(SockOk, |t|)
    case Read(_) => Provided("")
    case _ => Quiet
  }

  /** The states still to come before the response. */
  function StatesLeft(k: K): nat {
    (if k.phase.ReqHeader? || k.phase.ReqHeaderSend? || k.phase.ReqHeaderSendCrlf? then
       if k.out.cur <= |k.req.headers| then 3 * (|k.req.headers| - k.out.cur) else 0
     else if k.phase.ReqHeaderEnd? || BodyPhase(k.phase) then 0
     else 3 * |k.req.headers|)
    + match k.phase
      case Idle => 11
      case Connect => 10
      case ReqLine => 9
      case ReqHostHeader => 8
      case ReqHeader => 7
      case ReqHeaderSend => 6
      case ReqHeaderSendCrlf => 5
      case ReqHeaderEnd => 4
      case ReqBodyRead => 3
      case ReqBodySendSize => 2
      case _ => 1
  }

  lemma ObligingSend(k: K)
    requires Obliged(k) && Sending(k.phase)
    ensures var k1 := StepSend(k, SockOk, |Unsent(k)|);
            (Obliged(k1) && StatesLeft(k1) < StatesLeft(k)) || k1.phase.RespStatusRead?
  {
    hide Unsent, Hex;
    HexZero();
  }

  lemma HexZero()
    ensures |Hex(0)| == 1
  {
  }

  lemma ObligingPlain(k: K)
    requires Obliged(k) && !Sending(k.phase)
    ensures Suits(CallOf(k), Obliging(CallOf(k)))
    ensures Obliged(StepPlain(k, Obliging(CallOf(k)))) && StatesLeft(StepPlain(k, Obliging(CallOf(k)))) < StatesLeft(k)
  {
    hide CurrentHeader, Put, Zeros;
    ZerosLength(HEADER_BUFF_SIZE);
    ZerosLength(STREAM_BUFF_SIZE);
  }

  lemma ObligingStep(c: C)
    requires Obliged(c.k)
    ensures CanStep(c, Obliging(CallOf(c.k)))
    ensures var d := Next(c, Obliging(CallOf(c.k)));
            && d.w.retries == c.w.retries && d.w.refused == c.w.refused
            && ((Obliged(d.k) && StatesLeft(d.k) < StatesLeft(c.k)) || d.k.phase.RespStatusRead?)
  {
    hide StatesLeft, StepSend, StepPlain, Unsent, Hex, SizeLineOk, PhaseOk;
    if Sending(c.k.phase) {
      HexZero();
      ObligingSend(c.k);
    } else {
      ObligingPlain(c.k);
    }
  }

  /** Every client that starts can get to the response, with nothing of it received. */
  lemma {:induction false} Reaches(c: C) returns (d: C)
    requires Obliged(c.k)
    ensures Moves(c, d) && Valid(d.k) && d.k.phase.RespStatusRead? && d.k.head.len == 0 && d.k.result == Ok
    ensures d.k.resp == c.k.resp && d.w.inbox == c.w.inbox && d.w.body == c.w.body && d.w.retries == c.w.retries
    ensures d.w.refused == c.w.refused
    ensures |d.k.head.bytes| == SizeOfBuffer(c.k.head, HEADER_BUFF_SIZE)
    ensures |d.k.stream.bytes| == SizeOfBuffer(c.k.stream, STREAM_BUFF_SIZE)
    decreases StatesLeft(c.k)
  {
    hide Moves, Obliged, StatesLeft, CanStep, Next, Valid, Obliging, CallOf;
    ObligedAsks(c.k);
    var r := Obliging(CallOf(c.k));
    ObligingStep(c);
    MovesOne(c, r);
    AskingStep(c, r);
    AskedValid(c, r);
    var c1 := Next(c, r);
    if c1.k.phase.RespStatusRead? {
      d := c1;
      ValidSizes(d.k);
    } else {
      d := Reaches(c1);
      MovesOn(c, c1, d);
    }
  }

  lemma ObligedAsks(k: K)
    requires Obliged(k)
    ensures Asking(k.phase) && k.result == Ok && Defined(k)
  {
    hide Valid;
  }

  lemma AskedValid(c: C, r: Reply)
    requires CanStep(c, r)
    ensures Valid(Next(c, r).k)
  {
    hide Step, Valid, CallOf, Suits;
    CanStepMeans(c, r);
    StepValid(c.k, r);
  }

  lemma ValidSizes(k: K)
    requires Valid(k) && k.phase.RespStatusRead?
    ensures SizeOfBuffer(k.head, HEADER_BUFF_SIZE) == |k.head.bytes|
    ensures SizeOfBuffer(k.stream, STREAM_BUFF_SIZE) == |k.stream.bytes|
  {
  }

  // ---------------------------------------------------------------------------------------------
  // The response, step by step

  /** What the steps of the response depend on. */
  datatype Look = Look(phase: Phase, head: string, stream: string, inbox: string, body: string, resp: Incoming,
                       retries: nat)

  ghost predicate Looks(c: C, hcap: nat, scap: nat, l: Look) {
    && Valid(c.k) && c.k.result == Ok && c.k.phase == l.phase && c.k.resp == l.resp
    && |c.k.head.bytes| == hcap && |c.k.stream.bytes| == scap && c.k.head.owner != Absent && c.k.stream.owner != Absent
    && c.k.head.len < hcap && c.k.head.Contents() == l.head
    && c.k.stream.len <= scap && c.k.stream.Contents() == l.stream
    && c.w.inbox == l.inbox && c.w.body == l.body && c.w.retries == l.retries && !c.w.refused
  }

  /** The start of the response, with whatever is in the stream buffer. */
  function Starting(stream: string, inbox: string, retries: nat): Look {
    Look(RespStatusRead, "", stream, inbox, "", Incoming(0, false, 0, 0, false), retries)
  }

  lemma Starts(c: C) returns (d: C, stream: string)
    requires Fresh(c)
    ensures Moves(c, d)
    ensures Looks(d, SizeOfBuffer(c.k.head, HEADER_BUFF_SIZE), SizeOfBuffer(c.k.stream, STREAM_BUFF_SIZE),
                  Starting(stream, c.w.inbox, c.w.retries))
  {
    hide Moves;
    d := Reaches(c);
    stream := d.k.stream.Contents();
  }

  lemma LookReceives(c: C, hcap: nat, scap: nat, l: Look, data: string, rest: string) returns (d: C)
    requires Looks(c, hcap, scap, l) && l.inbox == data + rest && |l.head| + |data| < hcap && (data == "" ==> rest == "")
    requires l.phase.RespHeaderRead? || (l.phase.RespStatusRead? && l.head == "" && FindCrlf(data).Some?)
    ensures Moves(c, d)
    ensures Looks(d, hcap, scap, l.(phase := if l.phase.RespStatusRead? then RespStatusParse else RespHeaderCallback,
                                    head := l.head + data, inbox := rest,
                                    resp := l.resp.(readEnd := data == "" || l.resp.readEnd)))
  {
    hide FindCrlf, Valid, PutZ, StepHeaderCallback, StepHeaderSkip, StepStatusParse, SizeLineOk, RequiredHeader, TargetSize,
         Unsent, Hex;
    var r := Received(SockOk, data);
    d := Next(c, r);
    MovesOne(c, r);
    StepValid(c.k, r);
    ContentsPutZ(c.k.head, c.k.head.len, data);
    if l.phase.RespStatusRead? {
      assert l.head + data == data;
      CrlfBeforeNul(d.k.head.bytes, d.k.head.len);
    }
  }

  lemma LookParsesStatus(c: C, hcap: nat, scap: nat, l: Look) returns (d: C)
    requires Looks(c, hcap, scap, l) && l.phase.RespStatusParse? && StatusDigits(l.head).Some?
    ensures Moves(c, d)
    ensures Looks(d, hcap, scap, l.(phase := RespHeaderCallback, resp := l.resp.(status := StatusDigits(l.head).value)))
  {
    hide FindCrlf, Valid, SizeLineOk, RequiredHeader, TargetSize, StepHeaderCallback, StepHeaderSkip, Hex, Unsent;
    MovesOne(c, Quiet);
    StepValid(c.k, Quiet);
    d := Next(c, Quiet);
    assert forall j :: 0 <= j < 12 ==> c.k.head.bytes[j] == l.head[j];
  }

  /** The line end in the header buffer. */
  lemma FindsLine(k: K, head: string)
    requires Valid(k) && k.phase.RespHeaderCallback? && k.head.len < |k.head.bytes| && k.head.Contents() == head
    ensures FindCrlf(k.head.bytes) == FindCrlf(head)
    ensures FindCrlf(head).Some? ==> k.head.bytes[..FindCrlf(head).value] == head[..FindCrlf(head).value]
  {
    CrlfBeforeNul(k.head.bytes, k.head.len);
  }

  /** A line that is all the buffer holds is told, and the next one is to be read. */
  lemma LookTells(c: C, hcap: nat, scap: nat, l: Look, n: nat) returns (d: C)
    requires Looks(c, hcap, scap, l) && l.phase.RespHeaderCallback?
    requires |l.head| == n + 2 && FindCrlf(l.head) == Some(n) && n > 0
    ensures Moves(c, d)
    ensures Looks(d, hcap, scap, l.(phase := RespHeaderRead, head := "",
                                    resp := l.resp.(chunked := l.resp.chunked || IsChunkedEncoding(l.head[..n]))))
  {
    hide FindCrlf, IsChunkedEncoding, Moves;
    FindsLine(c.k, l.head);
    var r := Taken(n);
    var d0 := Next(c, r);
    MovesOne(c, r);
    StepValid(c.k, r);
    ContentsDropZ(c.k.head, n + 2);
    d := LookReadsOn(d0, hcap, scap,
                     l.(head := "", resp := l.resp.(chunked := l.resp.chunked || IsChunkedEncoding(l.head[..n]))));
    MovesOn(c, d0, d);
  }

  /** Without a line end in the buffer there is more to be read, if there is room. */
  lemma LookReadsOn(c: C, hcap: nat, scap: nat, l: Look) returns (d: C)
    requires Looks(c, hcap, scap, l) && l.phase.RespHeaderCallback? && FindCrlf(l.head).None?
    ensures Moves(c, d)
    ensures Looks(d, hcap, scap, l.(phase := if |l.head| + 1 == hcap then RespHeaderSkip else RespHeaderRead))
  {
    hide FindCrlf;
    FindsLine(c.k, l.head);
    MovesOne(c, Quiet);
    StepValid(c.k, Quiet);
    d := Next(c, Quiet);
  }

  /** The blank line. */
  lemma LookEndsHeader(c: C, hcap: nat, scap: nat, l: Look, rest: string) returns (d: C)
    requires Looks(c, hcap, scap, l) && l.phase.RespHeaderCallback? && l.head == CRLF + rest
    requires 100 <= l.resp.status < 200 || l.resp.chunked
    ensures Moves(c, d)
    ensures Looks(d, hcap, scap, if 100 <= l.resp.status < 200 then l.(phase := RespStatusRead, head := rest)
                                 else l.(phase := RespBodyParseChunkSize, head := rest, stream := ""))
  {
    hide IsChunkedEncoding;
    assert l.head[0] == '\r' && l.head[1] == '\n';
    FindsLine(c.k, l.head);
    d := Next(c, Quiet);
    MovesOne(c, Quiet);
    StepValid(c.k, Quiet);
    ContentsDropZ(c.k.head, 2);
  }

  lemma LookNoSize(c: C, hcap: nat, scap: nat, l: Look) returns (d: C)
    requires Looks(c, hcap, scap, l) && l.phase.RespBodyParseChunkSize? && |l.stream| < 2
    ensures Moves(c, d)
    ensures Looks(d, hcap, scap, l.(phase := if l.head != "" then ReadChunkSizeFromHeaderBuff else RespBodyReadChunkSize))
  {
    hide FindCrlf, StrToL16, StrToLStops, Valid, Drop, StepMoveHeader, StepParseBody, TargetSize, RequiredHeader;
    assert Defined(c.k) by { ValidSize(c.k); }
    MovesOne(c, Quiet);
    StepValid(c.k, Quiet);
    d := Next(c, Quiet);
  }

  lemma ValidSize(k: K)
    requires Valid(k) && k.phase.RespBodyParseChunkSize? && k.stream.len < 2
    ensures Defined(k) && !HasCrlf(k.stream.Contents())
  {
  }

  lemma LookReadsMore(c: C, hcap: nat, scap: nat, l: Look, data: string, rest: string) returns (d: C)
    requires Looks(c, hcap, scap, l) && l.phase.RespBodyReadChunkSize? && l.inbox == data + rest && data != ""
    requires |l.stream| + |data| <= scap
    ensures Moves(c, d)
    ensures Looks(d, hcap, scap, l.(phase := RespBodyParseChunkSize, stream := l.stream + data, inbox := rest))
  {
    hide Put;
    var r := Received(SockOk, data);
    MovesOne(c, r);
    StepValid(c.k, r);
    ContentsPut(c.k.stream, c.k.stream.len, data);
    d := Next(c, r);
  }

  // ---------------------------------------------------------------------------------------------
  // Over-long lines, byte by byte

  /** So few bytes are no framing header. */
  lemma ShortNotRequired(s: string)
    requires |s| <= 2
    ensures !RequiredHeader(s)
  {
  }

  /** One more byte of a line that is being skipped. */
  lemma LookSkipsOne(c: C, hcap: nat, scap: nat, l: Look) returns (d: C)
    requires Looks(c, hcap, scap, l) && l.phase.RespHeaderSkip? && l.head != "" && !RequiredHeader(l.head)
    requires l.inbox != "" && hcap > 3
    ensures Moves(c, d)
    ensures var x, kept := l.inbox[0], l.head[|l.head| - 1] == '\r';
            Looks(d, hcap, scap, if kept && x == '\n' then l.(phase := RespHeaderCallback, head := "", inbox := l.inbox[1..])
                                 else l.(head := if kept then ['\r', x] else [x], inbox := l.inbox[1..]))
  {
    hide Moves, PutZ, DropZ, RequiredHeader, Put, FindCrlf, Valid;
    var r := Received(SockOk, l.inbox[..1]);
    LookCanSkip(c, hcap, scap, l, r);
    MovesOne(c, r);
    AskedValid(c, r);
    d := Next(c, r);
    assert r.data == [l.inbox[0]];
    assert c.k.head.Contents() == c.k.head.bytes[..c.k.head.len];
    SkippedOne(c.k, l.inbox[0]);
    assert d.k == StepHeaderSkip(c.k, SockOk, [l.inbox[0]]);
    assert d.w == c.w.(inbox := l.inbox[1..]);
  }

  lemma LookCanSkip(c: C, hcap: nat, scap: nat, l: Look, r: Reply)
    requires Looks(c, hcap, scap, l) && l.phase.RespHeaderSkip? && l.head != "" && !RequiredHeader(l.head) && hcap > 3
    requires r.Received? && (r.data != "" ==> r.code == SockOk && l.inbox != "" && r.data == l.inbox[..1])
    requires r.code == SockAgain ==> l.retries > 0
    requires r.code == SockOk && r.data == "" ==> l.inbox == ""
    ensures CanStep(c, r) && CallOf(c.k).Recv?
  {
    hide RequiredHeader;
  }

  /** The header buffer after one more byte. */
  lemma SkippedOne(k: K, x: char)
    requires 0 < k.head.len < |k.head.bytes| && |k.head.bytes| > 3 && !RequiredHeader(k.head.Contents())
    ensures var k1 := StepHeaderSkip(k, SockOk, [x]);
            var kept := k.head.bytes[k.head.len - 1] == '\r';
            && k1 == k.(head := k1.head, phase := k1.phase) && k1.head.owner == k.head.owner
            && |k1.head.bytes| == |k.head.bytes| && k1.head.len <= 2
            && (if kept && x == '\n' then k1.phase.RespHeaderCallback? && k1.head.len == 0
                else k1.phase == k.phase && k1.head.Contents() == if kept then ['\r', x] else [x])
  {
    hide RequiredHeader, PutZ, DropZ;
    var k0 := k.(head := Skipped(k.head));
    var k1 := HeaderReceived(k0, k0.head.len, [x]);
    assert Skipped(k.head).Contents() == if Kept(k.head) == 1 then "\r" else "";
    ContentsPutZ(k0.head, k0.head.len, [x]);
    CrlfBeforeNul(k1.head.bytes, k1.head.len);
    assert k1.head.Contents() == if Kept(k.head) == 1 then ['\r', x] else [x];
    BeforeNul(k1.head.bytes, k1.head.len);
  }

  /** No CR LF among the bytes from `a` to `b`. */
  predicate NoEnd(s: string, a: int, b: int)
    requires 0 <= a && b <= |s|
  {
    forall j :: a <= j < b - 1 ==> !(s[j] == '\r' && s[j + 1] == '\n')
  }

  lemma {:induction false} NoEndFound(s: string)
    requires NUL !in s && FindCrlf(s).None?
    ensures NoEnd(s, 0, |s|)
  {
    if |s| >= 2 {
      assert s[0] in s;
      NoEndFound(s[1..]);
      assert forall j :: 1 <= j < |s| ==> s[j] == s[1..][j - 1];
    }
  }

  /** What is buffered when a line has been skipped byte by byte up to its `n`-th. */
  function LastOf(s: string, n: nat): (r: string)
    requires 0 < n <= |s|
    ensures 0 < |r| <= 2 && r[|r| - 1] == s[n - 1]
  {
    if n > 1 && s[n - 2] == '\r' then ['\r', s[n - 1]] else [s[n - 1]]
  }

  /** Of an over-long line `s`, of which `p` bytes have come, the next ones are read one by one. */
  lemma {:induction false} LookSkips(c: C, hcap: nat, scap: nat, l: Look, s: string, p: nat, p1: nat) returns (d: C)
    requires Looks(c, hcap, scap, l) && l.phase.RespHeaderSkip? && l.head != "" && !RequiredHeader(l.head) && hcap > 3
    requires 0 < p < p1 <= |s| && l.head[|l.head| - 1] == s[p - 1] && l.inbox == s[p..] && NoEnd(s, p - 1, p1)
    ensures Moves(c, d) && Looks(d, hcap, scap, l.(head := LastOf(s, p1), inbox := s[p1..]))
    decreases p1 - p
  {
    hide Moves, Looks, RequiredHeader;
    var c1 := LookSkipsOne(c, hcap, scap, l);
    assert l.inbox[0] == s[p] && l.inbox[1..] == s[p + 1..];
    if p + 1 == p1 {
      d := c1;
    } else {
      ShortNotRequired(LastOf(s, p + 1));
      d := LookSkips(c1, hcap, scap, l.(head := LastOf(s, p + 1), inbox := s[p + 1..]), s, p + 1, p1);
      MovesOn(c, c1, d);
    }
  }

  /** Whatever of an over-long line has been buffered: read byte by byte, the line is passed. */
  lemma LookPasses(c: C, hcap: nat, scap: nat, l: Look, i: nat) returns (d: C)
    requires Looks(c, hcap, scap, l) && l.phase.RespHeaderSkip? && l.head != "" && !RequiredHeader(l.head) && hcap > 3
    requires FindCrlf(l.head).None? && FindCrlf(l.head + l.inbox) == Some(i)
    ensures i + 2 >= |l.head| && Moves(c, d)
    ensures Looks(d, hcap, scap, l.(phase := RespHeaderRead, head := "", inbox := (l.head + l.inbox)[i + 2..]))
  {
    hide Moves, Looks, RequiredHeader, FindCrlf, LastOf;
    var s, p := l.head + l.inbox, |l.head|;
    EndAhead(l.head, l.inbox, i);
    var c1, l1 := c, l;
    if p < i + 1 {
      c1 := LookSkips(c, hcap, scap, l, s, p, i + 1);
      l1 := l.(head := LastOf(s, i + 1), inbox := s[i + 1..]);
      ShortNotRequired(l1.head);
    } else {
      NoMoves(c);
    }
    var c2 := LookSkipsOne(c1, hcap, scap, l1);
    MovesOn(c, c1, c2);
    EmptyNoCrlf();
    d := LookReadsOn(c2, hcap, scap, l.(phase := RespHeaderCallback, head := "", inbox := s[i + 2..]));
    MovesOn(c, c2, d);
  }

  lemma NoMoves(c: C)
    ensures Moves(c, c)
  {
    assert Runs(c, []) && After(c, []) == c;
  }

  lemma EmptyNoCrlf()
    ensures FindCrlf("").None?
  {
  }

  /** The line feed of the line end, and what is behind it, is still to be read. */
  lemma EndAhead(head: string, inbox: string, i: nat)
    requires head != "" && FindCrlf(head).None? && FindCrlf(head + inbox) == Some(i)
    ensures var s := head + inbox;
            && |head| < i + 2 <= |s| && s[i] == '\r' && s[i + 1] == '\n' && NoEnd(s, |head| - 1, i + 1)
            && s[|head|..] == inbox && s[|head| - 1] == head[|head| - 1]
            && s[i + 1..][0] == '\n' && s[i + 1..][1..] == s[i + 2..]
  {
    hide FindCrlf;
    var s := head + inbox;
    CrlfInPrefix(head, inbox);
    CrlfFound(s);
  }

  // ---------------------------------------------------------------------------------------------
  // The header, line by line

  /** The next line can be passed, when nothing is buffered: a readable status line that fits, the blank
      line of an informational response, any other line that fits, or an over-long one that does not
      announce the framing of the body. */
  predicate Passable(l: Look, hcap: nat) {
    && l.head == "" && hcap > 3 && FindCrlf(l.inbox).Some?
    && var i := FindCrlf(l.inbox).value;
       if l.phase.RespStatusRead? then i + 3 <= hcap && StatusDigits(l.inbox[..i]).Some?
       else
         && l.phase.RespHeaderRead? && (i == 0 ==> 100 <= l.resp.status < 200)
         && (i + 3 > hcap ==> !RequiredHeader(l.inbox[..hcap - 1]))
  }

  function Passed(l: Look, hcap: nat): Look
    requires Passable(l, hcap)
  {
    var i := FindCrlf(l.inbox).value;
    var told := l.(phase := RespHeaderRead, inbox := l.inbox[i + 2..],
                   resp := l.resp.(chunked := l.resp.chunked || IsChunkedEncoding(l.inbox[..i])));
    if l.phase.RespStatusRead? then told.(resp := told.resp.(status := StatusDigits(l.inbox[..i]).value))
    else if i == 0 then l.(phase := RespStatusRead, inbox := l.inbox[2..])
    else if i + 3 > hcap then l.(inbox := l.inbox[i + 2..])
    else told
  }

  lemma Pass(c: C, hcap: nat, scap: nat, l: Look) returns (d: C)
    requires Looks(c, hcap, scap, l) && Passable(l, hcap)
    ensures Moves(c, d) && Looks(d, hcap, scap, Passed(l, hcap))
  {
    if l.phase.RespStatusRead? { d := PassStatus(c, hcap, scap, l); }
    else if FindCrlf(l.inbox) == Some(0) { d := PassBlank(c, hcap, scap, l); }
    else if FindCrlf(l.inbox).value + 3 > hcap { d := PassLong(c, hcap, scap, l); }
    else { d := PassLine(c, hcap, scap, l); }
  }

  /** The first line of `s` with its line end. */
  lemma FirstLine(s: string, i: nat)
    requires FindCrlf(s) == Some(i)
    ensures FindCrlf(s[..i + 2]) == Some(i) && s[..i + 2][..i] == s[..i] && s == s[..i + 2] + s[i + 2..]
    ensures "" + s[..i + 2] == s[..i + 2]
  {
    CrlfInPrefix(s[..i + 2], s[i + 2..]);
    assert s == s[..i + 2] + s[i + 2..];
  }

  lemma StatusOfLine(s: string, i: nat)
    requires i <= |s| && StatusDigits(s[..i]).Some?
    ensures StatusDigits(s) == StatusDigits(s[..i])
  {
  }

  lemma PassStatus(c: C, hcap: nat, scap: nat, l: Look) returns (d: C)
    requires Looks(c, hcap, scap, l) && Passable(l, hcap) && l.phase.RespStatusRead?
    ensures Moves(c, d) && Looks(d, hcap, scap, Passed(l, hcap))
  {
    hide Moves, Looks, FindCrlf, IsChunkedEncoding, StatusDigits;
    var i, s := FindCrlf(l.inbox).value, l.inbox;
    FirstLine(s, i);
    StatusHasLength(s[..i]);
    assert StatusDigits(s[..i + 2]) == StatusDigits(s[..i]) by { StatusOfLine(s[..i + 2], i); }
    var c1 := LookReceives(c, hcap, scap, l, s[..i + 2], s[i + 2..]);
    var l1 := l.(phase := RespStatusParse, head := s[..i + 2], inbox := s[i + 2..]);
    var c2 := LookParsesStatus(c1, hcap, scap, l1);
    MovesOn(c, c1, c2);
    d := LookTells(c2, hcap, scap,
                   l1.(phase := RespHeaderCallback, resp := l1.resp.(status := StatusDigits(s[..i]).value)), i);
    MovesOn(c, c2, d);
  }

  lemma StatusHasLength(s: string)
    requires StatusDigits(s).Some?
    ensures |s| >= 12
  {
  }

  lemma PassBlank(c: C, hcap: nat, scap: nat, l: Look) returns (d: C)
    requires Looks(c, hcap, scap, l) && Passable(l, hcap) && l.phase.RespHeaderRead? && FindCrlf(l.inbox) == Some(0)
    ensures Moves(c, d) && Looks(d, hcap, scap, Passed(l, hcap))
  {
    hide Moves, Looks, FindCrlf;
    FirstLine(l.inbox, 0);
    CrlfFound(l.inbox);
    assert l.inbox[..2] == CRLF + "" == CRLF;
    var c1 := LookReceives(c, hcap, scap, l, CRLF, l.inbox[2..]);
    var l1 := l.(phase := RespHeaderCallback, head := CRLF, inbox := l.inbox[2..]);
    d := LookEndsHeader(c1, hcap, scap, l1, "");
    MovesOn(c, c1, d);
  }

  lemma PassLine(c: C, hcap: nat, scap: nat, l: Look) returns (d: C)
    requires Looks(c, hcap, scap, l) && Passable(l, hcap) && l.phase.RespHeaderRead?
    requires 0 < FindCrlf(l.inbox).value <= hcap - 3
    ensures Moves(c, d) && Looks(d, hcap, scap, Passed(l, hcap))
  {
    hide Moves, Looks, FindCrlf, IsChunkedEncoding, RequiredHeader;
    var i, s := FindCrlf(l.inbox).value, l.inbox;
    FirstLine(s, i);
    var c1 := LookReceives(c, hcap, scap, l, s[..i + 2], s[i + 2..]);
    d := LookTells(c1, hcap, scap, l.(phase := RespHeaderCallback, head := s[..i + 2], inbox := s[i + 2..]), i);
    MovesOn(c, c1, d);
  }

  /** In front of its end a line has no line end. */
  lemma NoEndBefore(s: string, n: nat)
    requires n <= |s| && (FindCrlf(s).Some? ==> n <= FindCrlf(s).value + 1)
    ensures FindCrlf(s[..n]).None? && s == s[..n] + s[n..]
  {
    hide FindCrlf;
    assert s == s[..n] + s[n..];
    CrlfInPrefix(s[..n], s[n..]);
  }

  /** An over-long line fills the header buffer. */
  lemma LookFills(c: C, hcap: nat, scap: nat, l: Look) returns (d: C)
    requires Looks(c, hcap, scap, l) && l.phase.RespHeaderRead? && l.head == "" && hcap > 3
    requires |l.inbox| >= hcap - 1 && FindCrlf(l.inbox[..hcap - 1]).None?
    ensures Moves(c, d) && l.inbox == l.inbox[..hcap - 1] + l.inbox[hcap - 1..]
    ensures Looks(d, hcap, scap, l.(phase := RespHeaderSkip, head := l.inbox[..hcap - 1], inbox := l.inbox[hcap - 1..]))
  {
    hide Moves, Looks, FindCrlf;
    var s := l.inbox;
    var a, b := s[..hcap - 1], s[hcap - 1..];
    assert s == a + b && "" + a == a;
    var c1 := LookReceives(c, hcap, scap, l, a, b);
    d := LookReadsOn(c1, hcap, scap, l.(phase := RespHeaderCallback, head := a, inbox := b));
    MovesOn(c, c1, d);
  }

  lemma PassLong(c: C, hcap: nat, scap: nat, l: Look) returns (d: C)
    requires Looks(c, hcap, scap, l) && Passable(l, hcap) && l.phase.RespHeaderRead?
    requires FindCrlf(l.inbox).value + 3 > hcap && FindCrlf(l.inbox).value > 0
    ensures Moves(c, d) && Looks(d, hcap, scap, Passed(l, hcap))
  {
    hide Moves, Looks, FindCrlf, RequiredHeader;
    var i, s := FindCrlf(l.inbox).value, l.inbox;
    NoEndBefore(s, hcap - 1);
    var c1 := LookFills(c, hcap, scap, l);
    d := LookPasses(c1, hcap, scap, l.(phase := RespHeaderSkip, head := s[..hcap - 1], inbox := s[hcap - 1..]), i);
    MovesOn(c, c1, d);
  }

  // ---------------------------------------------------------------------------------------------
  // A header of two lines

  const STATUS := "HTTP/1.1 200"
  const CHUNKED := ":chunked"

  lemma StatusRead()
    ensures StatusDigits(STATUS) == Some(200) && |STATUS| == 12
    ensures forall i :: 0 <= i < |STATUS| ==> STATUS[i] != '\r' && STATUS[i] != NUL
  {
  }

  /** Without a key the colon is the first character. */
  lemma ColonFirst()
    ensures KeyColon(CHUNKED, "TRANSFER-ENCODING", "transfer-encoding", 0) == Some(0)
    ensures SkipBlanks(CHUNKED, 1) == 1 && |CHUNKED| == 8
    ensures forall i :: 0 <= i < |CHUNKED| ==> CHUNKED[i] != '\r' && CHUNKED[i] != NUL
  {
  }

  lemma ValueChunked()
    ensures ContainsChunked(CHUNKED[1..])
  {
    assert CHUNKED[1..] == "chunked";
    assert ChunkedAt("chunked", 0);
  }

  lemma SaysChunked()
    ensures IsChunkedEncoding(CHUNKED) && |CHUNKED| == 8
    ensures forall i :: 0 <= i < |CHUNKED| ==> CHUNKED[i] != '\r' && CHUNKED[i] != NUL
  {
    hide KeyColon, SkipBlanks, ContainsChunked;
    ColonFirst();
    ValueChunked();
  }

  lemma StatusNotChunked()
    ensures !IsChunkedEncoding(STATUS)
  {
    assert KeyColon(STATUS, "TRANSFER-ENCODING", "transfer-encoding", 0).None?;
  }

  lemma BlockLine(line: string, t: string, cap: nat, lines: seq<string>, rest: string)
    requires line != "" && |line| + 3 <= cap && forall i :: 0 <= i < |line| ==> line[i] != '\r' && line[i] != NUL
    requires Block(t, cap) == Some(Heads(lines, rest))
    ensures Block(line + (CRLF + t), cap) == Some(Heads([line] + lines, rest))
  {
    hide FindCrlf;
    CrlfAfter(line, t);
    var s := line + (CRLF + t);
    assert s[|line| + 2..] == t && s[..|line|] == line;
  }

  lemma BlankBlock(rest: string, cap: nat)
    ensures Block(CRLF + rest, cap) == Some(Heads([], rest))
  {
    hide FindCrlf;
    CrlfAfter("", rest);
    assert "" + (CRLF + rest) == CRLF + rest;
    assert (CRLF + rest)[2..] == rest;
  }

  /** What comes first in a response with such a header. */
  function Headed(more: string): string { (STATUS + CRLF) + ((CHUNKED + CRLF) + more) }

  /** The first line of a text, by its parts. */
  lemma LineFirst(line: string, more: string)
    requires forall i :: 0 <= i < |line| ==> line[i] != '\r' && line[i] != NUL
    ensures var s := (line + CRLF) + more;
            FindCrlf(s) == Some(|line|) && s[..|line|] == line && s[|line| + 2..] == more
  {
    hide FindCrlf;
    CrlfAfter(line, more);
    assert line + (CRLF + more) == (line + CRLF) + more;
  }

  lemma HeadedLines(more: string)
    ensures FindCrlf(Headed(more)) == Some(12) && Headed(more)[..12] == STATUS
    ensures Headed(more)[14..] == (CHUNKED + CRLF) + more
    ensures FindCrlf((CHUNKED + CRLF) + more) == Some(8) && ((CHUNKED + CRLF) + more)[..8] == CHUNKED
    ensures ((CHUNKED + CRLF) + more)[10..] == more
  {
    hide FindCrlf, IsChunkedEncoding;
    StatusRead();
    SaysChunked();
    LineFirst(STATUS, (CHUNKED + CRLF) + more);
    LineFirst(CHUNKED, more);
  }

  /** A client whose response begins like that comes to the third line of the header. */
  lemma ChunkedHeader(c: C, more: string) returns (d: C, stream: string)
    requires Fresh(c) && c.w.inbox == Headed(more) && SizeOfBuffer(c.k.head, HEADER_BUFF_SIZE) >= 15
    ensures Moves(c, d)
    ensures Looks(d, SizeOfBuffer(c.k.head, HEADER_BUFF_SIZE), SizeOfBuffer(c.k.stream, STREAM_BUFF_SIZE),
                  Look(RespHeaderRead, "", stream, more, "", Incoming(200, true, 0, 0, false), c.w.retries))
  {
    hide Looks, Moves, FindCrlf, IsChunkedEncoding, StatusDigits, Headed, Fresh;
    var hcap, scap := SizeOfBuffer(c.k.head, HEADER_BUFF_SIZE), SizeOfBuffer(c.k.stream, STREAM_BUFF_SIZE);
    StatusRead();
    SaysChunked();
    StatusNotChunked();
    HeadedLines(more);
    var c1;
    c1, stream := Starts(c);
    var l := Starting(stream, c.w.inbox, c.w.retries);
    var c2 := Pass(c1, hcap, scap, l);
    MovesOn(c, c1, c2);
    l := Passed(l, hcap);
    d := Pass(c2, hcap, scap, l);
    MovesOn(c, c2, d);
  }
}
