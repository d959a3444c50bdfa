/** Sending: short sends and retries make no difference to what goes over the wire. */
module KhcSend {
  import opened Text
  import opened KhcText
  import opened KhcMachine
  import opened KhcRun

  // ---------------------------------------------------------------------------------------------
  // The request as one text

  /** The request headers from index `i` on; those without text are left out. */
  function Lines(headers: seq<Option<string>>, i: nat): string
    decreases |headers| - i
  {
    if i >= |headers| then ""
    else if headers[i].None? || headers[i].value == "" then Lines(headers, i + 1)
    else headers[i].value + (CRLF + Lines(headers, i + 1))
  }

  function HeadText(req: Request): string {
    RequestLine(req) + (HostLine(req) + (Lines(req.headers, 0) + EndText(req)))
  }

  /** A chunk of the body (section 4.1 of RFC 7230). */
  function PieceText(piece: string): string { Hex(|piece|) + CRLF + (piece + CRLF) }

  function PiecesText(pieces: seq<string>): string {
    if pieces == [] then "" else PiecesText(pieces[..|pieces| - 1]) + PieceText(pieces[|pieces| - 1])
  }

  /** The chunks, and the empty one that ends them. */
  function BodyText(pieces: seq<string>, ended: bool): string {
    PiecesText(pieces) + if ended then PieceText("") else ""
  }

  function FullText(req: Request, pieces: seq<string>): string {
    HeadText(req) + if req.hasRead then BodyText(pieces, true) else ""
  }

  // ---------------------------------------------------------------------------------------------
  // The invariant

  predicate HeadPhase(p: Phase) {
    p.ReqLine? || p.ReqHostHeader? || p.ReqHeader? || p.ReqHeaderSend? || p.ReqHeaderSendCrlf? || p.ReqHeaderEnd?
  }

  predicate BodyPhase(p: Phase) {
    p.ReqBodyRead? || p.ReqBodySendSize? || p.ReqBodySend? || p.ReqBodySendCrlf?
  }

  function Piece(k: K): string {
    if k.out.readSize <= |k.stream.bytes| then k.stream.bytes[..k.out.readSize] else ""
  }

  /** What follows the text of the current phase, as far as it is known. */
  function Following(k: K): string {
    match k.phase
    case ReqLine => HostLine(k.req) + (Lines(k.req.headers, 0) + EndText(k.req))
    case ReqHostHeader => Lines(k.req.headers, 0) + EndText(k.req)
    case ReqHeader => Lines(k.req.headers, k.out.cur) + EndText(k.req)
    case ReqHeaderSend => CRLF + (Lines(k.req.headers, k.out.cur + 1) + EndText(k.req))
    case ReqHeaderSendCrlf => Lines(k.req.headers, k.out.cur + 1) + EndText(k.req)
    case ReqBodySendSize => Piece(k) + CRLF
    case ReqBodySend => CRLF
    case _ => ""
  }

  function Pending(k: K): string {
    (if Sending(k.phase) then Unsent(k) else "") + Following(k)
  }

  /** Buffers so long that a chunk size line would be cut are out of reach (256 TiB). */
  const PIECE_LIMIT := 0x1_0000_0000_0000

  predicate SendInv(c: C) {
    var k, w := c.k, c.w;
    && |k.stream.bytes| < PIECE_LIMIT
    && (Sending(k.phase) ==> k.out.sent <= |PhaseText(k)|)
    && (k.phase.Idle? || k.phase.Connect? ==> w.wire == "" && w.pieces == [] && k.result == Ok)
    && (k.phase.ReqHeader? || k.phase.ReqBodyRead? ==> k.out.sent == 0)
    && (k.phase.ReqHeaderSend? ==> CurrentHeader(k) != "")
    && (HeadPhase(k.phase) ==> w.pieces == [] && w.wire + Pending(k) == HeadText(k.req) && k.result == Ok)
    && (BodyPhase(k.phase) ==>
          && k.req.hasRead && w.wire + Pending(k) == HeadText(k.req) + BodyText(w.pieces, k.out.readEnd)
          && k.result == Ok)
    && (k.phase.ReqBodyRead? ==> !k.out.readEnd)
    && (k.phase.ReqBodySendSize? || k.phase.ReqBodySend? ==> k.out.readSize <= |k.stream.bytes|)
    && (k.phase.ReqBodySendSize? ==> (k.out.readEnd <==> k.out.readSize == 0))
    && (k.phase.ReqBodySend? ==> !k.out.readEnd)
    && (Answering(k) ==> w.wire == FullText(k.req, w.pieces))
  }

  /** The request is over and nothing has gone wrong. */
  predicate Answering(k: K) {
    k.result == Ok && !k.phase.Idle? && !k.phase.Connect? && !HeadPhase(k.phase) && !BodyPhase(k.phase)
  }

  lemma {:induction false} HexLength(n: nat, k: nat, bound: nat)
    requires k > 0 && bound == Power16(k) && n < bound
    ensures |Hex(n)| <= k
    decreases k
  {
    if n >= 16 {
      HexLength(n / 16, k - 1, Power16(k - 1));
    }
  }

  function Power16(k: nat): nat { if k == 0 then 1 else 16 * Power16(k - 1) }

  lemma SizeLineWhole(n: nat)
    requires n < PIECE_LIMIT
    ensures SizeLine(n) == Hex(n) + CRLF && |Hex(n)| + 2 <= 15
  {
    assert Power16(6) == 0x100_0000;
    assert Power16(12) == PIECE_LIMIT;
    HexLength(n, 12, PIECE_LIMIT);
  }

  // ---------------------------------------------------------------------------------------------
  // One step

  function WithWire(c: C, k: K, more: string): C { C(k, c.w.(wire := c.w.wire + more)) }

  /** A part of the text has been accepted. */
  lemma PartSent(c: C, n: nat)
    requires SendInv(c) && Sending(c.k.phase) && n < |Unsent(c.k)|
    ensures SendInv(WithWire(c, c.k.(out := c.k.out.(sent := c.k.out.sent + n)), Unsent(c.k)[..n]))
  {
    hide Lines, HeadText, BodyText, FullText, RequestLine, HostLine, EndText, SizeLine;
    var k1 := c.k.(out := c.k.out.(sent := c.k.out.sent + n));
    assert PhaseText(k1) == PhaseText(c.k) && Following(k1) == Following(c.k);
    assert Unsent(k1) == Unsent(c.k)[n..];
    TextMoves(c.w.wire, Unsent(c.k), n, Following(c.k));
  }

  lemma TextMoves(wire: string, text: string, n: nat, more: string)
    requires n <= |text|
    ensures wire + text[..n] + (text[n..] + more) == wire + (text + more)
  {
  }

  /** The rest of the text has been accepted. */
  lemma HeadPartSent(c: C)
    requires SendInv(c) && Sending(c.k.phase) && HeadPhase(c.k.phase)
    ensures SendInv(WithWire(c, AfterSending(c.k.(out := c.k.out.(sent := 0))), Unsent(c.k)))
  {
    hide Lines, HeadText, RequestLine, HostLine, EndText, SizeLine;
    var k1 := AfterSending(c.k.(out := c.k.out.(sent := 0)));
    assert c.w.wire + Pending(c.k) == c.w.wire + Unsent(c.k) + Following(c.k);
    if c.k.phase.ReqHeaderEnd? {
      assert c.w.wire + Unsent(c.k) == HeadText(c.k.req);
      assert BodyText([], false) == "";
      assert HeadText(c.k.req) + "" == HeadText(c.k.req);
    } else {
      assert Pending(k1) == Following(c.k);
    }
  }

  lemma BodyPartSent(c: C)
    requires SendInv(c) && Sending(c.k.phase) && BodyPhase(c.k.phase)
    ensures SendInv(WithWire(c, AfterSending(c.k.(out := c.k.out.(sent := 0))), Unsent(c.k)))
  {
    hide HeadText, BodyText, Hex, SizeLine;
    var k1 := AfterSending(c.k.(out := c.k.out.(sent := 0)));
    assert c.w.wire + Pending(c.k) == c.w.wire + Unsent(c.k) + Following(c.k);
    if c.k.phase.ReqBodySendCrlf? {
      assert Following(c.k) == "" && Pending(k1) == "";
    } else {
      assert k1.phase.ReqBodySendCrlf? && c.k.phase.ReqBodySendSize? ==> Piece(c.k) == "";
      assert Pending(k1) == Following(c.k);
    }
  }

  /** The next header of the list is found, or passed over. */
  lemma HeaderChosen(c: C)
    requires SendInv(c) && c.k.phase.ReqHeader?
    ensures SendInv(C(StepReqHeader(c.k), c.w))
  {
    hide HeadText, BodyText, FullText, Pending, PhaseText, Lines, CurrentHeader, EndText;
    SamePending(c.k);
    EmptyHeader(c.k);
  }

  lemma EmptyHeader(k: K)
    requires k.phase.ReqHeader?
    ensures var k1 := StepReqHeader(k);
            k1.phase.ReqHeaderSend? ==> CurrentHeader(k1) != ""
  {
  }

  lemma NoHeader(k: K)
    ensures CurrentHeader(k) == if k.out.cur >= |k.req.headers| || k.req.headers[k.out.cur].None? then ""
                                else k.req.headers[k.out.cur].value
  {
  }

  lemma SamePending(k: K)
    requires k.phase.ReqHeader? && k.out.sent == 0
    ensures Pending(StepReqHeader(k)) == Pending(k)
  {
    hide Pending, Lines, EndText, CurrentHeader;
    NextLine(k.req.headers, k.out.cur);
    NoHeader(k);
    NoHeader(StepReqHeader(k));
    PendingHeader(k);
    PendingHeader(StepReqHeader(k));
    LineAssoc(CurrentHeader(k), Lines(k.req.headers, k.out.cur + 1), EndText(k.req));
  }

  lemma LineAssoc(line: string, more: string, end: string)
    ensures line + (CRLF + more) + end == line + (CRLF + (more + end)) && "" + end == end
  {
  }

  lemma PendingHeader(k: K)
    requires k.out.sent == 0
    ensures k.phase.ReqHeader? ==> Pending(k) == Lines(k.req.headers, k.out.cur) + EndText(k.req)
    ensures k.phase.ReqHeaderSend? ==>
              Pending(k) == CurrentHeader(k) + (CRLF + (Lines(k.req.headers, k.out.cur + 1) + EndText(k.req)))
    ensures k.phase.ReqHeaderEnd? ==> Pending(k) == EndText(k.req)
  {
  }

  lemma NextLine(headers: seq<Option<string>>, i: nat)
    ensures Lines(headers, i) ==
            if i >= |headers| then ""
            else if headers[i].None? || headers[i].value == "" then Lines(headers, i + 1)
            else headers[i].value + (CRLF + Lines(headers, i + 1))
  {
  }

  /** A piece of the body has been provided: its chunk is now to be sent. */
  lemma PieceProvided(c: C, data: string)
    requires SendInv(c) && c.k.phase.ReqBodyRead? && |data| <= |c.k.stream.bytes|
    ensures SendInv(C(StepBodyRead(c.k, data), c.w.(pieces := if data == "" then c.w.pieces else c.w.pieces + [data])))
  {
    hide HeadText, FullText, BodyText, PieceText, Following, Unsent, PhaseText;
    var k1 := StepBodyRead(c.k, data);
    PendingPiece(c.k, data);
    assert Pending(c.k) == "" by { NothingPending(c.k); }
    assert c.w.wire == c.w.wire + "";
    PieceAdded(c.w.pieces, data);
    var head, body, more := HeadText(c.k.req), BodyText(c.w.pieces, false), PieceText(data);
    assert head + body + more == head + (body + more);
  }

  lemma NothingPending(k: K)
    requires k.phase.ReqBodyRead?
    ensures Pending(k) == ""
  {
  }

  lemma PendingPiece(k: K, data: string)
    requires k.phase.ReqBodyRead? && |data| <= |k.stream.bytes| < PIECE_LIMIT && k.out.sent == 0
    ensures Pending(StepBodyRead(k, data)) == PieceText(data)
    ensures PhaseText(StepBodyRead(k, data)) == SizeLine(|data|)
  {
    hide Hex, SizeLine;
    SizeLineWhole(|data|);
    assert Piece(StepBodyRead(k, data)) == data;
  }

  lemma PieceAdded(pieces: seq<string>, data: string)
    ensures BodyText(if data == "" then pieces else pieces + [data], data == "")
            == BodyText(pieces, false) + PieceText(data)
  {
    if data != "" {
      var ps := pieces + [data];
      assert ps[..|ps| - 1] == pieces;
    }
  }

  predicate Asking(p: Phase) { p.Idle? || p.Connect? || HeadPhase(p) || BodyPhase(p) }

  /** `k1` is past the request as `k` is, with the same request, and has no better result. */
  predicate StaysPast(k: K, k1: K) {
    !Asking(k1.phase) && k1.req == k.req && (k1.result == Ok ==> k.result == Ok)
    && |k1.stream.bytes| <= |k.stream.bytes|
    && (k1.stream.owner == Absent || (k1.stream.owner == k.stream.owner && |k1.stream.bytes| == |k.stream.bytes|))
  }

  lemma HeaderStaysPast(k: K, r: Reply)
    requires Defined(k) && HeaderPhase(k.phase) && Suits(CallOf(k), r)
    ensures StaysPast(k, StepHeader(k, r))
  {
    hide PutZ, DropZ, Put, FindCrlf, RequiredHeader, StatusDigits, IsChunkedEncoding, SizeLineOk;
  }

  lemma ChunkStaysPast(k: K, r: Reply)
    requires Defined(k) && ChunkPhase(k.phase) && Suits(CallOf(k), r)
    ensures StaysPast(k, StepChunk(k, r))
  {
    hide Put, Drop, DropZ, FindCrlf, HasCrlf, StrToL16, TargetSize;
  }

  lemma PlainStaysPast(k: K, r: Reply)
    requires Defined(k) && !Asking(k.phase) && !HeaderPhase(k.phase) && !ChunkPhase(k.phase) && Suits(CallOf(k), r)
    ensures StaysPast(k, StepPlain(k, r))
  {
    hide Put, SizeLineOk;
  }

  /** Once the request is over, neither the wire nor the pieces change any more. */
  lemma PastRequest(c: C, r: Reply)
    requires CanStep(c, r) && !Asking(c.k.phase)
    ensures StaysPast(c.k, Next(c, r).k)
    ensures Next(c, r).w.wire == c.w.wire && Next(c, r).w.pieces == c.w.pieces
  {
    hide StepHeader, StepChunk, StepPlain, SizeLineOk, Kept, TargetSize, RequiredHeader, StaysPast;
    if HeaderPhase(c.k.phase) {
      HeaderStaysPast(c.k, r);
    } else if ChunkPhase(c.k.phase) {
      ChunkStaysPast(c.k, r);
    } else {
      PlainStaysPast(c.k, r);
    }
  }

  lemma SendingStep(c: C, r: Reply)
    requires SendInv(c) && CanStep(c, r) && Sending(c.k.phase)
    ensures SendInv(Next(c, r))
  {
    hide HeadText, BodyText, FullText, Following, Hex, SizeLine, Unsent, Pending, AfterSending, StepHeader, StepChunk,
         StepPlain,
         TargetSize, RequiredHeader, FindCrlf, SizeLineOk;
    if c.k.phase.ReqBodySendSize? {
      SizeLineWhole(c.k.out.readSize);
    }
    var text, w := Unsent(c.k), c.w.wire;
    assert w + text[..0] == w;
    if r.code == SockOk {
      if r.n < |text| {
        PartSent(c, r.n);
      } else {
        assert text[..r.n] == text;
        if HeadPhase(c.k.phase) { HeadPartSent(c); } else { BodyPartSent(c); }
      }
    }
  }

  lemma StartStep(c: C, r: Reply)
    requires SendInv(c) && CanStep(c, r) && (c.k.phase.Idle? || c.k.phase.Connect?)
    ensures SendInv(Next(c, r))
    ensures Next(c, r).k.req == if c.k.phase.Idle? then Defaults(c.k.req) else c.k.req
  {
    hide Lines, EndText, RequestLine, HostLine, PiecesText;
    var k1 := Next(c, r).k;
    if k1.phase.ReqLine? {
      assert Unsent(k1) == RequestLine(k1.req);
      assert "" + Pending(k1) == Pending(k1);
    }
  }

  /** The invariant holds after every step, and only the defaults for host and method change the
      request. */
  lemma StepKeepsSendInv(c: C, r: Reply)
    requires SendInv(c) && CanStep(c, r)
    ensures SendInv(Next(c, r))
    ensures Next(c, r).k.req == if c.k.phase.Idle? then Defaults(c.k.req) else c.k.req
  {
    if c.k.phase.Idle? || c.k.phase.Connect? {
      StartStep(c, r);
    } else {
      LaterStepKeepsSendInv(c, r);
    }
  }

  lemma LaterStepKeepsSendInv(c: C, r: Reply)
    requires SendInv(c) && CanStep(c, r) && !c.k.phase.Idle? && !c.k.phase.Connect?
    ensures SendInv(Next(c, r)) && Next(c, r).k.req == c.k.req
  {
    hide Pending, HeadText, BodyText, FullText, PhaseText, Hex, StepHeader, StepChunk, StepReqHeader, StepBodyRead,
         AfterSending, SizeLineOk, Kept, TargetSize, RequiredHeader, Valid;
    if Sending(c.k.phase) {
      SendingStep(c, r);
      AfterSendingReq(c.k.(out := c.k.out.(sent := 0)));
    } else if c.k.phase.ReqHeader? {
      HeaderChosen(c);
      StepReqHeaderReq(c.k);
    } else if c.k.phase.ReqBodyRead? {
      PieceProvided(c, r.data);
      StepBodyReadReq(c.k, r.data);
    } else {
      PastRequest(c, r);
    }
  }

  lemma AfterSendingReq(k: K)
    ensures AfterSending(k).req == k.req
  {
  }

  lemma StepReqHeaderReq(k: K)
    ensures StepReqHeader(k).req == k.req
  {
  }

  lemma StepBodyReadReq(k: K, data: string)
    requires |data| <= |k.stream.bytes|
    ensures StepBodyRead(k, data).req == k.req
  {
  }

  lemma {:induction false} RunKeepsSendInv(c: C, rs: seq<Reply>)
    requires SendInv(c) && Runs(c, rs)
    ensures SendInv(After(c, rs))
    ensures After(c, rs).k.req == if c.k.phase.Idle? && rs != [] then Defaults(c.k.req) else c.k.req
    decreases |rs|
  {
    hide SendInv, Step, Advance;
    if rs != [] {
      StepKeepsSendInv(c, rs[0]);
      NotIdleAgain(c, rs[0]);
      RunKeepsSendInv(Next(c, rs[0]), rs[1..]);
    }
  }

  lemma NotIdleAgain(c: C, r: Reply)
    requires CanStep(c, r)
    ensures !Next(c, r).k.phase.Idle?
  {
    hide StepHeader, StepChunk, SizeLineOk, Kept, TargetSize, RequiredHeader, PhaseText, Hex, StaysPast, Provide,
         CurrentHeader, Put, FindCrlf;
    if HeaderPhase(c.k.phase) || ChunkPhase(c.k.phase) {
      PastRequest(c, r);
      assert !Asking(Next(c, r).k.phase) by { StaysPastMeans(c.k, Next(c, r).k); }
    }
  }

  lemma StaysPastMeans(k: K, k1: K)
    requires StaysPast(k, k1)
    ensures !Asking(k1.phase)
  {
  }

  /** The request does not begin again. */
  lemma StaysAnswering(c: C, r: Reply)
    requires CanStep(c, r) && !Asking(c.k.phase)
    ensures !Asking(Next(c, r).k.phase)
  {
    hide StaysPast, Next;
    PastRequest(c, r);
    StaysPastMeans(c.k, Next(c, r).k);
  }

  /** Whatever was accepted at a time, and however often the socket had to be asked again: in every
      state of every run in which the request is over and nothing has gone wrong, what the socket has
      accepted is the request line, the host line, each header that has text, the end of the head,
      and the chunks of the pieces that the read callback provided, ended by the empty chunk. */
  lemma WireIsRequest(c: C, rs: seq<Reply>)
    requires Fresh(c) && |c.k.stream.bytes| < PIECE_LIMIT && Runs(c, rs)
    ensures var d := After(c, rs);
            Answering(d.k) ==> d.w.wire == FullText(Defaults(c.k.req), d.w.pieces)
  {
    RunKeepsSendInv(c, rs);
  }
}
