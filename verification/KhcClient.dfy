/** The client itself: the fields and the handlers of ebisu/khc/src/khc_state_impl.c, and the loop of
    ebisu/khc/src/khc.c, proved to take the steps of KhcMachine.dfy. */
module KhcClient {
  import opened Text
  import opened KhcText
  import opened KhcScan
  import opened KhcMachine
  import opened KhcRun

  // ---------------------------------------------------------------------------------------------
  // Buffers in place

  ghost function Bytes(b: array?<char>): string
    reads b
  {
    if b == null then "" else b[..]
  }

  ghost function OwnerOf(b: array?<char>, ours: bool): Owner {
    if b == null then Absent else if ours then Library else Caller
  }

  /** A callback, or `memcpy`, puts `data` at `at`. */
  method Overwrite(a: array<char>, at: nat, data: string)
    requires at + |data| <= a.Length
    modifies a
    ensures a[..] == old(a[..at]) + data + old(a[at + |data|..])
  {
    forall i | 0 <= i < |data| { a[at + i] := data[i]; }
  }

  /** `data` put at `at`, and a terminator behind it. */
  method OverwriteZ(a: array<char>, at: nat, data: string)
    requires at + |data| < a.Length
    modifies a
    ensures a[..] == old(a[..at]) + data + [NUL] + old(a[at + |data| + 1..])
  {
    Overwrite(a, at, data + [NUL]);
  }

  /** `memmove(a, a + from, n)` */
  method MoveDown(a: array<char>, from: nat, n: nat)
    requires from + n <= a.Length
    modifies a
    ensures a[..] == old(a[from..from + n]) + old(a[n..])
  {
    var i := 0;
    while i < n
      invariant 0 <= i <= n
      invariant forall j :: 0 <= j < i ==> a[j] == old(a[from + j])
      invariant forall j :: i <= j < a.Length ==> a[j] == old(a[j])
    {
      a[i] := a[from + i];
      i := i + 1;
    }
  }

  // ---------------------------------------------------------------------------------------------
  // The object

  const HOST_SIZE := 128
  const PATH_SIZE := 256
  const METHOD_SIZE := 16

  /** A text in an array of that size, unless it is too long with its terminator. */
  function Stored(was: string, text: string, size: nat): string { if |text| + 1 <= size then text else was }

  /** The nodes of a header list. */
  function Texts(headers: seq<string>): seq<Option<string>> {
    seq(|headers|, i requires 0 <= i < |headers| => Some(headers[i]))
  }

  class Khc {
    var state: Phase
    var result: Code
    var req: Request
    var out: Outgoing
    var resp: Incoming

    var respHeaderBuff: array?<char>
    var respHeaderReadSize: nat
    var respHeaderBuffAllocated: bool
    var streamBuff: array?<char>
    var bodyReadSize: nat
    var streamBuffAllocated: bool

    /** The two buffers are different memory. */
    ghost predicate Apart()
      reads this
    {
      respHeaderBuff != null ==> respHeaderBuff != streamBuff
    }

    ghost function Head(): Buffer
      reads this, respHeaderBuff
    {
      Buffer(Bytes(respHeaderBuff), respHeaderReadSize, OwnerOf(respHeaderBuff, respHeaderBuffAllocated))
    }

    ghost function Stream(): Buffer
      reads this, streamBuff
    {
      Buffer(Bytes(streamBuff), bodyReadSize, OwnerOf(streamBuff, streamBuffAllocated))
    }

    ghost function Abs(): K
      reads this, respHeaderBuff, streamBuff
    {
      K(state, result, req, out, Head(), Stream(), resp)
    }

    /** `khc_init` and `khc_reset_except_cb` */
    constructor ()
      ensures Apart() && Valid(Abs())
      ensures Abs() == K(Idle, Ok, Request("", "", "", false, [], false), Outgoing(0, 0, 0, false),
                         Buffer("", 0, Absent), Buffer("", 0, Absent), Incoming(0, false, 0, 0, false))
      ensures respHeaderBuff == null && streamBuff == null
    {
      req := Request("", "", "", false, [], false);
      respHeaderBuff, streamBuff := null, null;
      respHeaderBuffAllocated, streamBuffAllocated := false, false;
      new;
      ResetExceptCb();
    }

    /** Everything that a run depends on is put back, and the caller's buffers are forgotten. */
    method ResetExceptCb()
      modifies this
      ensures Apart() && Valid(Abs())
      ensures Abs() == K(Idle, Ok, Request("", "", "", old(req.insecure), [], old(req.hasRead)), Outgoing(0, 0, 0, false),
                         Buffer("", 0, Absent), Buffer("", 0, Absent), Incoming(0, false, 0, 0, false))
      ensures respHeaderBuff == null && streamBuff == null
    {
      req := req.(headers := [], host := "", path := "", verb := "");
      state := Idle;
      out := Outgoing(0, 0, 0, false);
      resp := Incoming(0, false, 0, 0, false);
      result := Ok;
      respHeaderBuff, respHeaderReadSize, respHeaderBuffAllocated := null, 0, false;
      streamBuff, bodyReadSize, streamBuffAllocated := null, 0, false;
    }

    /** `khc_set_host`, `khc_set_path` and `khc_set_method`: what is too long changes nothing. */
    method SetTarget(host: string, path: string, verb: string)
      modifies this`req
      ensures req == old(req).(host := Stored(old(req).host, host, HOST_SIZE),
                               path := Stored(old(req).path, path, PATH_SIZE),
                               verb := Stored(old(req).verb, verb, METHOD_SIZE))
    {
      if |host| + 1 <= HOST_SIZE { req := req.(host := host); }
      if |path| + 1 <= PATH_SIZE { req := req.(path := path); }
      if |verb| + 1 <= METHOD_SIZE { req := req.(verb := verb); }
    }

    /** `khc_set_req_headers` */
    method SetReqHeaders(headers: seq<string>)
      modifies this`req
      ensures req == old(req).(headers := Texts(headers))
    {
      req := req.(headers := Texts(headers));
    }

    // -------------------------------------------------------------------------------------------
    // Start and end

    /** A buffer of an earlier state, none, or new memory. */
    twostate predicate KeepsBuffers()
      reads this
    {
      && (respHeaderBuff == old(respHeaderBuff) || respHeaderBuff == null || fresh(respHeaderBuff))
      && (streamBuff == old(streamBuff) || streamBuff == null || fresh(streamBuff))
    }

    /** `malloc` answers None, or new memory with whatever is in it. */
    method ProvideHead(memory: Option<string>) returns (ok: bool)
      requires Apart()
      modifies this`respHeaderBuff, this`respHeaderBuffAllocated
      ensures Apart() && KeepsBuffers()
      ensures ok <==> !(old(respHeaderBuff) == null && memory.None?)
      ensures Head() == Provide(old(Head()), memory) && (!ok ==> Head() == old(Head()))
    {
      if respHeaderBuff == null {
        if memory.None? { return false; }
        respHeaderBuff := NewBuffer(memory.value);
        respHeaderBuffAllocated := true;
      }
      ok := true;
    }

    method ProvideStream(memory: Option<string>) returns (ok: bool)
      requires Apart()
      modifies this`streamBuff, this`streamBuffAllocated
      ensures Apart() && KeepsBuffers()
      ensures ok <==> !(old(streamBuff) == null && memory.None?)
      ensures Stream() == Provide(old(Stream()), memory) && (!ok ==> Stream() == old(Stream()))
    {
      if streamBuff == null {
        if memory.None? { return false; }
        streamBuff := NewBuffer(memory.value);
        streamBuffAllocated := true;
      }
      ok := true;
    }

    method SetDefaults()
      modifies this`req
      ensures req == Defaults(old(req))
    {
      if req.host == "" { req := req.(host := "localhost"); }
      if req.verb == "" { req := req.(verb := "GET"); }
    }

    /** `khc_state_idle` */
    method HandleIdle(header: Option<string>, stream: Option<string>)
      requires Apart()
      modifies this
      ensures Apart() && KeepsBuffers() && Abs() == StepIdle(old(Abs()), header, stream)
    {
      hide Defaults, Provide;
      SetDefaults();
      var ok := ProvideHead(header);
      if !ok {
        state, result := Finished, Allocation;
        return;
      }
      ok := ProvideStream(stream);
      if !ok {
        state, result := Finished, Allocation;
        return;
      }
      state := Connect;
    }

    /** `khc_state_connect` */
    method HandleConnect(code: SockCode)
      modifies this`state, this`result, this`out
      ensures Abs() == StepConnect(old(Abs()), code)
    {
      match code {
        case SockOk =>
          out := out.(sent := 0);
          state := ReqLine;
        case SockAgain =>
        case SockFail =>
          result := SockConnect;
          state := Finished;
      }
    }

    // -------------------------------------------------------------------------------------------
    // Sending

    /** What all sending handlers do with their text: `n` bytes of the rest of it have been accepted. */
    method Transmit(text: string, code: SockCode, n: nat) returns (done: bool)
      modifies this`state, this`result, this`out
      ensures var rest := if old(out.sent) <= |text| then text[old(out.sent)..] else "";
              && (done <==> code == SockOk && n >= |rest|)
              && out == old(out).(sent := if done then 0 else if code == SockOk then old(out.sent) + n else old(out.sent))
      ensures state == (if code == SockFail then Close else old(state))
              && result == if code == SockFail then SockSend else old(result)
    {
      var sendPos := if out.sent <= |text| then text[out.sent..] else "";
      done := false;
      match code {
        case SockOk =>
          if n < |sendPos| {
            out := out.(sent := out.sent + n);
          } else {
            out := out.(sent := 0);
            done := true;
          }
        case SockAgain =>
        case SockFail =>
          state := Close;
          result := SockSend;
      }
    }

    /** The text of a sending state. */
    method SendText() returns (text: string)
      requires Sending(state)
      ensures text == PhaseText(Abs())
    {
      hide RequestLine, HostLine, EndText, SizeLine;
      match state {
        case ReqLine => text := RequestLine(req);
        case ReqHostHeader => text := HostLine(req);
        case ReqHeaderSend =>
          text := if out.cur < |req.headers| && req.headers[out.cur].Some? then req.headers[out.cur].value else "";
        case ReqHeaderEnd => text := EndText(req);
        case ReqBodySendSize => text := SizeLine(out.readSize);
        case ReqBodySend =>
          text := if streamBuff != null && out.readSize <= streamBuff.Length then streamBuff[..out.readSize] else "";
        case _ => text := CRLF;
      }
    }

    /** Where a sending state goes on to. */
    method SendDone()
      modifies this`state, this`out, this`respHeaderReadSize
      ensures Abs() == AfterSending(old(Abs()))
    {
      match state {
        case ReqLine => state := ReqHostHeader;
        case ReqHostHeader =>
          state := ReqHeader;
          out := out.(cur := 0);
        case ReqHeaderSend => state := ReqHeaderSendCrlf;
        case ReqHeaderSendCrlf =>
          out := out.(cur := out.cur + 1);
          state := ReqHeader;
        case ReqHeaderEnd =>
          if req.hasRead {
            state := ReqBodyRead;
          } else {
            respHeaderReadSize := 0;
            state := RespStatusRead;
          }
          out := out.(readEnd := false);
        case ReqBodySendSize => state := if out.readEnd then ReqBodySendCrlf else ReqBodySend;
        case ReqBodySend => state := ReqBodySendCrlf;
        case _ =>
          if out.readEnd {
            respHeaderReadSize := 0;
            state := RespStatusRead;
          } else {
            state := ReqBodyRead;
          }
      }
    }

    /** The eight sending handlers. */
    method HandleSend(code: SockCode, n: nat)
      requires Sending(state)
      modifies this`state, this`result, this`out, this`respHeaderReadSize
      ensures Abs() == StepSend(old(Abs()), code, n)
    {
      hide PhaseText, AfterSending, Hex;
      if state.ReqBodySendSize? && |Hex(out.readSize)| + 2 > 15 {
        state := Close;
        result := TooLargeData;
        return;
      }
      var text := SendText();
      var done := Transmit(text, code, n);
      if done {
        SendDone();
      }
    }

    /** `khc_state_req_header` */
    method HandleReqHeader()
      modifies this`state, this`out
      ensures Abs() == StepReqHeader(old(Abs()))
    {
      if out.cur >= |req.headers| {
        state := ReqHeaderEnd;
      } else if req.headers[out.cur].None? || req.headers[out.cur].value == "" {
        out := out.(cur := out.cur + 1);
      } else {
        state := ReqHeaderSend;
      }
    }

    /** `khc_state_req_body_read`: `data` is what the read callback puts into the stream buffer. */
    method HandleBodyRead(data: string)
      requires Apart() && streamBuff != null && |data| <= streamBuff.Length
      modifies this`state, this`out, streamBuff
      ensures Abs() == StepBodyRead(old(Abs()), data)
    {
      Overwrite(streamBuff, 0, data);
      out := out.(readSize := |data|);
      if data == "" { out := out.(readEnd := true); }
      state := ReqBodySendSize;
    }

    // -------------------------------------------------------------------------------------------
    // The response header

    method RecvFails()
      modifies this`state, this`result
      ensures state == Close && result == SockRecv
    {
      state := Close;
      result := SockRecv;
    }

    /** `data` has come into the header buffer behind its first bytes. */
    method ReceiveHeader(data: string)
      requires Apart() && respHeaderBuff != null && respHeaderReadSize + |data| < respHeaderBuff.Length
      modifies this`respHeaderReadSize, this`resp, respHeaderBuff
      ensures Abs() == HeaderReceived(old(Abs()), old(respHeaderReadSize), data)
    {
      OverwriteZ(respHeaderBuff, respHeaderReadSize, data);
      respHeaderReadSize := respHeaderReadSize + |data|;
      if data == "" { resp := resp.(readEnd := true); }
    }

    /** `khc_state_resp_status_read` */
    method HandleStatusRead(code: SockCode, data: string)
      requires Apart() && respHeaderBuff != null && respHeaderReadSize + |data| < respHeaderBuff.Length
      modifies this`state, this`result, this`respHeaderReadSize, this`resp, respHeaderBuff
      ensures Abs() == StepStatusRead(old(Abs()), code, data)
    {
      hide HeaderReceived, FindCrlf;
      if code == SockOk {
        ReceiveHeader(data);
        if FindCrlf(respHeaderBuff[..]).None? {
          state := Close;
          result := TooLargeData;
          return;
        }
        state := RespStatusParse;
      } else if code == SockFail {
        RecvFails();
      }
    }

    /** `khc_state_resp_status_parse` */
    method HandleStatusParse()
      requires respHeaderBuff != null && StatusInside(respHeaderBuff[..])
      modifies this`state, this`result, this`resp
      ensures Abs() == StepStatusParse(old(Abs()))
    {
      var i, status := 0, 0;
      while i < 3
        invariant 0 <= i <= 3 && unchanged(this)
        invariant i > 0 ==> IsDigit(respHeaderBuff[9])
        invariant i > 1 ==> IsDigit(respHeaderBuff[10])
        invariant i > 2 ==> IsDigit(respHeaderBuff[11])
        invariant i == 0 ==> status == 0
        invariant i == 1 ==> status == respHeaderBuff[9] as int - 48
        invariant i == 2 ==> status == (respHeaderBuff[9] as int - 48) * 10 + (respHeaderBuff[10] as int - 48)
        invariant i == 3 ==> Some(status) == StatusDigits(respHeaderBuff[..])
      {
        var d := respHeaderBuff[9 + i];
        if !IsDigit(d) {
          state := Close;
          result := Fail;
          return;
        }
        status := status * 10 + (d as int - 48);
        i := i + 1;
      }
      resp := resp.(status := status);
      state := RespHeaderCallback;
    }

    /** The first `n` bytes of the header buffer are dropped; the terminator moves along. */
    method DropHeader(n: nat)
      requires Apart() && respHeaderBuff != null && n <= respHeaderReadSize < respHeaderBuff.Length
      modifies this`respHeaderReadSize, respHeaderBuff
      ensures Abs() == old(Abs()).(head := DropZ(old(Head()), n))
    {
      MoveDown(respHeaderBuff, n, respHeaderReadSize + 1 - n);
      respHeaderReadSize := respHeaderReadSize - n;
    }

    /** A line end stands at `n`. */
    method HandleLine(n: nat, taken: nat)
      requires Apart() && respHeaderBuff != null && n + 2 <= respHeaderReadSize < respHeaderBuff.Length
      modifies this`state, this`result, this`respHeaderReadSize, this`bodyReadSize, this`resp, respHeaderBuff
      ensures Abs() == HeaderLine(old(Abs()), n, taken)
    {
      hide DropZ, IsChunkedEncoding;
      if n > 0 {
        if taken != n {
          state := Close;
          result := HeaderCallback;
          return;
        }
        var chunked := ScanEncoding(respHeaderBuff[..n]);
        if chunked { resp := resp.(chunked := true); }
      }
      DropHeader(n + 2);
      if n == 0 {
        if 100 <= resp.status < 200 {
          state := RespStatusRead;
        } else if resp.chunked {
          bodyReadSize := 0;
          state := RespBodyParseChunkSize;
        } else {
          state := RespBodyFragment;
        }
      }
    }

    /** `khc_state_resp_header_callback`; `taken`: what the header callback returned. */
    method HandleHeaderCallback(taken: nat)
      requires Apart() && respHeaderBuff != null && respHeaderReadSize < respHeaderBuff.Length
      requires respHeaderBuff[respHeaderReadSize] == NUL
      modifies this`state, this`result, this`respHeaderReadSize, this`bodyReadSize, this`resp, respHeaderBuff
      ensures Abs() == StepHeaderCallback(old(Abs()), taken)
    {
      hide FindCrlf, HeaderLine;
      BeforeNul(respHeaderBuff[..], respHeaderReadSize);
      var boundary := FindCrlf(respHeaderBuff[..]);
      if boundary.None? {
        state := if respHeaderBuff.Length == respHeaderReadSize + 1 then RespHeaderSkip else RespHeaderRead;
        return;
      }
      HandleLine(boundary.value, taken);
    }

    /** `khc_state_resp_header_read` */
    method HandleHeaderRead(code: SockCode, data: string)
      requires Apart() && respHeaderBuff != null && respHeaderReadSize + |data| < respHeaderBuff.Length
      modifies this`state, this`result, this`respHeaderReadSize, this`resp, respHeaderBuff
      ensures Abs() == StepHeaderRead(old(Abs()), code, data)
    {
      hide HeaderReceived;
      if code == SockOk {
        ReceiveHeader(data);
        state := RespHeaderCallback;
      } else if code == SockFail {
        RecvFails();
      }
    }

    /** All of the header buffer but a trailing CR is dropped. */
    method SkipHeader()
      requires Apart() && respHeaderBuff != null && 0 < respHeaderReadSize < respHeaderBuff.Length
      modifies this`respHeaderReadSize, respHeaderBuff
      ensures Abs() == old(Abs()).(head := Skipped(old(Head())))
    {
      if respHeaderBuff[respHeaderReadSize - 1] == '\r' {
        Overwrite(respHeaderBuff, 0, "\r");
        respHeaderReadSize := 1;
      } else {
        respHeaderReadSize := 0;
      }
    }

    /** The end of a skipped line, if it is there, is dropped with what is before it. */
    method DiscardLine()
      requires Apart() && respHeaderBuff != null && respHeaderReadSize < respHeaderBuff.Length
      requires respHeaderBuff[respHeaderReadSize] == NUL
      modifies this`state, this`respHeaderReadSize, respHeaderBuff
      ensures var k := old(Abs());
              && (FindCrlf(k.head.bytes).Some? ==> FindCrlf(k.head.bytes).value + 2 <= k.head.len)
              && Abs() == match FindCrlf(k.head.bytes)
                          case None => k
                          case Some(n) => k.(head := DropZ(k.head, n + 2), phase := RespHeaderCallback)
    {
      hide FindCrlf, DropZ;
      BeforeNul(respHeaderBuff[..], respHeaderReadSize);
      var boundary := FindCrlf(respHeaderBuff[..]);
      if boundary.None? { return; }
      DropHeader(boundary.value + 2);
      state := RespHeaderCallback;
    }

    /** More of a line that is being skipped, behind a CR that has been kept. */
    method ReceiveRest(code: SockCode, data: string)
      requires Apart() && respHeaderBuff != null && respHeaderReadSize + |data| < respHeaderBuff.Length
      modifies this`state, this`result, this`respHeaderReadSize, this`resp, respHeaderBuff
      ensures Abs() == OnRecv(old(Abs()), code, RestReceived(old(Abs()), data))
    {
      hide HeaderReceived, FindCrlf, DropZ;
      if code == SockOk {
        ReceivedNul(Abs(), data);
        ReceiveHeader(data);
        DiscardLine();
      } else if code == SockFail {
        RecvFails();
      }
    }

    /** `khc_state_resp_header_skip` */
    method HandleHeaderSkip(code: SockCode, data: string)
      requires Apart() && respHeaderBuff != null && 0 < respHeaderReadSize < respHeaderBuff.Length
      requires Kept(Head()) + |data| < respHeaderBuff.Length
      modifies this`state, this`result, this`respHeaderReadSize, this`resp, respHeaderBuff
      ensures Abs() == StepHeaderSkip(old(Abs()), code, data)
    {
      hide HeaderReceived, FindCrlf, Skipped, Kept, DropZ, IsHeaderPresent;
      var length := ScanKey("Content-Length", respHeaderBuff[..respHeaderReadSize]);
      var encoding := ScanKey("Transfer-Encoding", respHeaderBuff[..respHeaderReadSize]);
      if length || encoding {
        state := Close;
        result := HeaderCallback;
        return;
      }
      SkipHeader();
      SkipGoesOn(old(Abs()), code, data);
      ReceiveRest(code, data);
    }

    // -------------------------------------------------------------------------------------------
    // The response body

    /** `khc_state_resp_body_fragment`: what is left in the header buffer has been written. */
    method HandleFragment(taken: nat)
      modifies this`state, this`result
      ensures Abs() == StepFragment(old(Abs()), taken)
    {
      if respHeaderReadSize > 0 && taken != respHeaderReadSize {
        state := Close;
        result := WriteCallback;
        return;
      }
      state := if resp.readEnd then Close else RespBodyRead;
    }

    /** `n` bytes move from the header buffer to the end of the stream buffer. */
    method MoveLeftover(n: nat)
      requires Apart() && respHeaderBuff != null && streamBuff != null && n <= respHeaderReadSize < respHeaderBuff.Length
      requires bodyReadSize + n <= streamBuff.Length
      modifies this`bodyReadSize, this`respHeaderReadSize, respHeaderBuff, streamBuff
      ensures Abs() == old(Abs()).(stream := Put(old(Stream()), old(bodyReadSize), old(respHeaderBuff[..n])),
                                   head := DropZ(old(Head()), n))
    {
      hide DropZ, Put;
      ReceiveBody(bodyReadSize, respHeaderBuff[..n]);
      DropHeader(n);
    }

    /** `_move_resp_header_to_stream` and the two handlers that call it. */
    method HandleMoveHeader(next: Phase)
      requires Apart() && respHeaderBuff != null && streamBuff != null
      requires respHeaderReadSize < respHeaderBuff.Length && bodyReadSize <= streamBuff.Length
      modifies this`state, this`result, this`bodyReadSize, this`respHeaderReadSize, respHeaderBuff, streamBuff
      ensures Abs() == StepMoveHeader(old(Abs()), next)
    {
      hide DropZ, Put;
      var remain := streamBuff.Length - bodyReadSize;
      if remain <= 0 {
        state := Close;
        result := TooLargeData;
        return;
      }
      var moveSize := if remain > respHeaderReadSize then respHeaderReadSize else remain;
      MoveLeftover(moveSize);
      state := next;
    }

    /** `data` has come into the stream buffer at `at`. */
    method ReceiveBody(at: nat, data: string)
      requires Apart() && streamBuff != null && at + |data| <= streamBuff.Length
      modifies this`bodyReadSize, streamBuff
      ensures Abs() == old(Abs()).(stream := Put(old(Stream()), at, data))
    {
      Overwrite(streamBuff, at, data);
      bodyReadSize := at + |data|;
    }

    /** `khc_state_resp_body_read` */
    method HandleBodyRecv(code: SockCode, data: string)
      requires Apart() && streamBuff != null && |data| <= streamBuff.Length
      modifies this`state, this`result, this`bodyReadSize, this`resp, streamBuff
      ensures Abs() == StepBodyRecv(old(Abs()), code, data)
    {
      hide Put;
      if code == SockOk {
        ReceiveBody(0, data);
        if data == "" {
          resp := resp.(readEnd := true);
          state := Close;
          return;
        }
        state := RespBodyCallback;
      } else if code == SockFail {
        RecvFails();
      }
    }

    /** `khc_state_resp_body_callback` */
    method HandleBodyCallback(taken: nat)
      modifies this`state, this`result
      ensures Abs() == StepBodyCallback(old(Abs()), taken)
    {
      if taken < bodyReadSize {
        state := Close;
        result := WriteCallback;
        return;
      }
      state := if resp.readEnd then Close else RespBodyRead;
    }

    /** The first `n` bytes of the stream buffer are dropped. */
    method DropStream(n: nat)
      requires Apart() && streamBuff != null && n <= bodyReadSize <= streamBuff.Length
      modifies this`bodyReadSize, streamBuff
      ensures Abs() == old(Abs()).(stream := Drop(old(Stream()), n))
    {
      var remain := bodyReadSize - n;
      MoveDown(streamBuff, n, remain);
      bodyReadSize := remain;
    }

    /** `khc_state_resp_body_parse_chunk_size` */
    method HandleParseSize()
      requires Apart() && streamBuff != null && SizeLineOk(Stream())
      modifies this`state, this`bodyReadSize, this`resp, streamBuff
      ensures Abs() == StepParseSize(old(Abs()))
    {
      hide Drop, StrToL16, HasCrlf, FindCrlf;
      var size := ReadChunkSize(streamBuff, bodyReadSize);
      if size.Some? {
        var chunkEnd := FindCrlf(streamBuff[..]).value;
        DropStream(chunkEnd + 2);
        resp := resp.(chunkSize := size.value, chunkWritten := 0);
        state := if size.value != 0 then RespBodyParseChunkBody else RespBodySkipTrailers;
      } else {
        state := if respHeaderReadSize > 0 then ReadChunkSizeFromHeaderBuff else RespBodyReadChunkSize;
      }
    }

    /** `khc_state_resp_body_read_chunk_size` */
    method HandleReadSize(code: SockCode, data: string)
      requires Apart() && streamBuff != null
               && (bodyReadSize < streamBuff.Length ==> bodyReadSize + |data| <= streamBuff.Length)
      modifies this`state, this`result, this`bodyReadSize, streamBuff
      ensures Abs() == StepReadSize(old(Abs()), code, data)
    {
      hide Put;
      if bodyReadSize >= streamBuff.Length {
        state := Close;
        result := TooLargeData;
        return;
      }
      if code == SockOk {
        ReceiveBody(bodyReadSize, data);
        if data == "" {
          state := Close;
          result := Fail;
          return;
        }
        state := RespBodyParseChunkSize;
      } else if code == SockFail {
        RecvFails();
      }
    }

    /** `khc_state_resp_body_parse_chunk_body` */
    method HandleParseBody(taken: nat)
      requires Apart() && streamBuff != null && Valid(Abs()) && state.RespBodyParseChunkBody?
      modifies this`state, this`result, this`bodyReadSize, this`resp, streamBuff
      ensures Abs() == StepParseBody(old(Abs()), taken)
    {
      hide Drop, Valid;
      TargetInside(Abs());
      var target := if AsSize(resp.chunkSize) > bodyReadSize + resp.chunkWritten then bodyReadSize
                    else resp.chunkSize - resp.chunkWritten;
      if taken < target {
        state := Close;
        result := WriteCallback;
        return;
      }
      resp := resp.(chunkWritten := resp.chunkWritten + target);
      if resp.chunkSize > resp.chunkWritten {
        if respHeaderReadSize > 0 {
          bodyReadSize := 0;
          state := ReadChunkBodyFromHeaderBuff;
        } else {
          state := RespBodyReadChunkBody;
        }
      } else {
        DropStream(target);
        state := RespBodySkipChunkBodyCrlf;
      }
    }

    /** `khc_state_resp_body_read_chunk_body` */
    method HandleReadBody(code: SockCode, data: string)
      requires Apart() && streamBuff != null && |data| <= streamBuff.Length
      modifies this`state, this`result, this`bodyReadSize, streamBuff
      ensures Abs() == StepReadBody(old(Abs()), code, data)
    {
      hide Put;
      if code == SockOk {
        if data == "" {
          PutNothing(Stream());
          state := Close;
          result := Fail;
          return;
        }
        ReceiveBody(0, data);
        state := RespBodyParseChunkBody;
      } else if code == SockFail {
        RecvFails();
      }
    }

    /** `khc_state_resp_body_skip_chunk_body_crlf` */
    method HandleSkipCrlf(code: SockCode, data: string)
      requires Apart() && streamBuff != null && bodyReadSize <= streamBuff.Length
      modifies this`state, this`result, this`bodyReadSize, streamBuff
      ensures Abs() == StepSkipCrlf(old(Abs()), code, data)
    {
      hide Drop;
      if bodyReadSize < 2 {
        if code == SockOk {
          if data == "" {
            state := Close;
            result := Fail;
            return;
          }
          bodyReadSize := 0;
          state := RespBodyParseChunkSize;
        } else if code == SockFail {
          RecvFails();
        }
      } else {
        DropStream(2);
        state := RespBodyParseChunkSize;
      }
    }

    /** `khc_state_resp_body_skip_trailers` */
    method HandleSkipTrailers(code: SockCode, data: string)
      requires Apart() && state.RespBodySkipTrailers? && streamBuff != null && |data| <= streamBuff.Length
      modifies this`state, this`result, streamBuff
      ensures Abs() == StepSkipTrailers(old(Abs()), code, data)
    {
      if code == SockOk {
        Overwrite(streamBuff, 0, data);
        if data == "" { state := Close; }
      } else if code == SockFail {
        RecvFails();
      }
    }

    /** `khc_state_close`: the client's own buffers are freed, then the socket is closed. */
    method HandleClose(code: SockCode)
      requires Apart()
      modifies this`state, this`result, this`streamBuff, this`streamBuffAllocated,
               this`respHeaderBuff, this`respHeaderBuffAllocated
      ensures Apart() && KeepsBuffers() && Abs() == StepClose(old(Abs()), code)
    {
      if streamBuffAllocated {
        streamBuff := null;
        streamBuffAllocated := false;
      }
      if respHeaderBuffAllocated {
        respHeaderBuff := null;
        respHeaderBuffAllocated := false;
      }
      match code {
        case SockOk => state := Finished;
        case SockAgain =>
        case SockFail =>
          state := Finished;
          result := SockClose;
      }
    }

    // -------------------------------------------------------------------------------------------
    // What the callbacks get

    /** The header line for the header callback, if the next call is to it. */
    method LineToTell() returns (line: Option<string>)
      requires Defined(Abs())
      ensures CallOf(Abs()).TellHeader? <==> line.Some?
      ensures line.Some? ==> CallOf(Abs()) == TellHeader(line.value)
    {
      hide FindCrlf, RequiredHeader, TargetSize, Hex, PhaseText, SizeLineOk;
      if state != RespHeaderCallback { return None; }
      var boundary := FindCrlf(respHeaderBuff[..]);
      if boundary.None? || boundary.value == 0 { return None; }
      line := Some(respHeaderBuff[..boundary.value]);
    }

    /** The bytes for the write callback, if the next call is to it. */
    method DataToWrite() returns (data: Option<string>)
      requires Defined(Abs())
      ensures CallOf(Abs()).Write? <==> data.Some?
      ensures data.Some? ==> CallOf(Abs()) == Write(data.value)
    {
      hide FindCrlf, RequiredHeader, Hex, PhaseText, SizeLineOk;
      match state {
        case RespBodyFragment =>
          data := if respHeaderReadSize > 0 then Some(respHeaderBuff[..respHeaderReadSize]) else None;
        case RespBodyCallback => data := Some(streamBuff[..bodyReadSize]);
        case RespBodyParseChunkBody =>
          TargetInside(Abs());
          var target := if AsSize(resp.chunkSize) > bodyReadSize + resp.chunkWritten then bodyReadSize
                        else resp.chunkSize - resp.chunkWritten;
          data := Some(streamBuff[..target]);
        case _ => data := None;
      }
    }

    // -------------------------------------------------------------------------------------------
    // The loop

    method HandleHeader(r: Reply)
      requires Apart() && Defined(Abs()) && HeaderPhase(state) && Suits(CallOf(Abs()), r)
      modifies this`state, this`result, this`respHeaderReadSize, this`bodyReadSize, this`resp, respHeaderBuff
      ensures Abs() == StepHeader(old(Abs()), r)
    {
      hide StepStatusRead, StepStatusParse, StepHeaderCallback, StepHeaderRead, StepHeaderSkip, RequiredHeader,
           FindCrlf, SizeLineOk;
      match state {
        case RespStatusRead => HandleStatusRead(r.code, r.data);
        case RespStatusParse => HandleStatusParse();
        case RespHeaderCallback => HandleHeaderCallback(if r.Taken? then r.n else 0);
        case RespHeaderRead => HandleHeaderRead(r.code, r.data);
        case RespHeaderSkip =>
          if r.Received? {
            HandleHeaderSkip(r.code, r.data);
          } else {
            state := Close;
            result := HeaderCallback;
          }
      }
    }

    method HandleChunk(r: Reply)
      requires Apart() && Defined(Abs()) && ChunkPhase(state) && Suits(CallOf(Abs()), r)
      modifies this`state, this`result, this`respHeaderReadSize, this`bodyReadSize, this`resp, respHeaderBuff, streamBuff
      ensures Abs() == StepChunk(old(Abs()), r)
    {
      hide StepMoveHeader, StepParseSize, StepReadSize, StepParseBody, StepReadBody, StepSkipCrlf, TargetSize,
           HasCrlf, FindCrlf;
      match state {
        case ReadChunkSizeFromHeaderBuff => HandleMoveHeader(RespBodyParseChunkSize);
        case ReadChunkBodyFromHeaderBuff => HandleMoveHeader(RespBodyParseChunkBody);
        case RespBodyParseChunkSize => HandleParseSize();
        case RespBodyReadChunkSize =>
          if r.Received? {
            HandleReadSize(r.code, r.data);
          } else {
            state := Close;
            result := TooLargeData;
          }
        case RespBodyParseChunkBody => HandleParseBody(r.n);
        case RespBodyReadChunkBody => HandleReadBody(r.code, r.data);
        case RespBodySkipChunkBodyCrlf =>
          if r.Received? { HandleSkipCrlf(r.code, r.data); } else { HandleSkipCrlf(SockOk, ""); }
      }
    }

    method HandlePlain(r: Reply)
      requires Apart() && Defined(Abs()) && !Sending(state) && !HeaderPhase(state) && !ChunkPhase(state) && !state.Finished?
      requires Suits(CallOf(Abs()), r)
      modifies this, respHeaderBuff, streamBuff
      ensures Apart() && KeepsBuffers() && Abs() == StepPlain(old(Abs()), r)
    {
      hide StepIdle, StepConnect, StepReqHeader, StepBodyRead, StepFragment, StepBodyRecv, StepBodyCallback,
           StepSkipTrailers,
           StepClose, SizeLineOk;
      match state {
        case Idle => if r.Memory? { HandleIdle(r.header, r.stream); } else { HandleIdle(None, None); }
        case Connect => HandleConnect(r.code);
        case ReqHeader => HandleReqHeader();
        case ReqBodyRead => HandleBodyRead(r.data);
        case RespBodyFragment => HandleFragment(if r.Taken? then r.n else 0);
        case RespBodyRead => HandleBodyRecv(r.code, r.data);
        case RespBodyCallback => HandleBodyCallback(r.n);
        case RespBodySkipTrailers => HandleSkipTrailers(r.code, r.data);
        case Close => HandleClose(r.code);
      }
    }

    /** `state_handlers[khc->_state]`, with the answer to the call that the state makes. */
    method Handle(r: Reply)
      requires Apart() && Defined(Abs()) && !state.Finished? && Suits(CallOf(Abs()), r)
      modifies this, respHeaderBuff, streamBuff
      ensures Apart() && KeepsBuffers() && Abs() == Step(old(Abs()), r)
    {
      hide StepSend, StepHeader, StepChunk, StepPlain, CallOf, Suits, Valid;
      if Sending(state) {
        if r.Sent? { HandleSend(r.code, r.n); } else { HandleSend(SockFail, 0); }
      } else if HeaderPhase(state) {
        HandleHeader(r);
      } else if ChunkPhase(state) {
        HandleChunk(r);
      } else {
        HandlePlain(r);
      }
    }

    /** `khc_perform`, where the callbacks and the allocator give the answers `rs`: it takes the steps
        of the run, and returns its result. */
    method Perform(rs: seq<Reply>, ghost w: World) returns (res: Code)
      requires Apart() && Runs(C(Abs().Go(Idle), w), rs) && After(C(Abs().Go(Idle), w), rs).k.phase.Finished?
      modifies this, respHeaderBuff, streamBuff
      ensures var d := After(old(C(Abs().Go(Idle), w)), rs);
              res == d.k.result && Abs() == d.k.(phase := Idle, result := Ok)
    {
      hide Step, CallOf, Advance, Defined;
      state := Idle;
      ghost var c0, c := old(C(Abs().Go(Idle), w)), old(C(Abs().Go(Idle), w));
      var i := 0;
      while state != Finished
        invariant 0 <= i <= |rs| && Apart() && Abs() == c.k && KeepsBuffers()
        invariant Runs(c, rs[i..]) && After(c, rs[i..]) == After(c0, rs)
        decreases |rs| - i
      {
        assert rs[i..] != [];
        assert rs[i..][1..] == rs[i + 1..];
        Handle(rs[i]);
        c := Next(c, rs[i]);
        i := i + 1;
      }
      NothingAfterEnd(c, rs[i..]);
      res := result;
      state := Idle;
      result := Ok;
    }
  }

  lemma NothingAfterEnd(c: C, rs: seq<Reply>)
    requires Runs(c, rs) && c.k.phase.Finished?
    ensures After(c, rs) == c
  {
  }

  lemma TargetInside(k: K)
    requires Valid(k) && k.phase.RespBodyParseChunkBody?
    ensures 0 <= TargetSize(k) <= k.stream.len <= |k.stream.bytes|
  {
  }

  lemma PutNothing(b: Buffer)
    ensures Put(b, 0, "").(len := b.len) == b
  {
    assert b.bytes[..0] + "" + b.bytes[0..] == b.bytes;
  }

  lemma ReceivedNul(k: K, data: string)
    requires k.head.len + |data| < |k.head.bytes|
    ensures var b := HeaderReceived(k, k.head.len, data).head;
            |b.bytes| == |k.head.bytes| && b.len == k.head.len + |data| && b.bytes[b.len] == NUL
  {
  }

  /** `data` behind what is kept of a skipped line; the line is dropped when its end has come. */
  function RestReceived(k: K, data: string): K
    requires k.head.len + |data| < |k.head.bytes|
  {
    var k1 := HeaderReceived(k, k.head.len, data);
    BeforeNul(k1.head.bytes, k1.head.len);
    match FindCrlf(k1.head.bytes)
    case None => k1
    case Some(n) => k1.(head := DropZ(k1.head, n + 2), phase := RespHeaderCallback)
  }

  lemma SkipGoesOn(k: K, code: SockCode, data: string)
    requires 0 < k.head.len < |k.head.bytes| && Kept(k.head) + |data| < |k.head.bytes| && !RequiredHeader(k.head.Contents())
    ensures var k0 := k.(head := Skipped(k.head));
            StepHeaderSkip(k, code, data) == OnRecv(k0, code, RestReceived(k0, data))
  {
    hide HeaderReceived, FindCrlf, DropZ, RequiredHeader, Kept;
    ReceivedNul(k.(head := Skipped(k.head)), data);
  }

  /** New memory, with whatever is in it. */
  method NewBuffer(memory: string) returns (b: array<char>)
    ensures fresh(b) && b[..] == memory
  {
    b := new char[|memory|](i requires 0 <= i < |memory| => memory[i]);
  }
}
