/** How long a run can take. */
module KhcWork {
  import opened Text
  import opened KhcText
  import opened KhcMachine
  import opened KhcRun
  import opened KhcSend
  import opened KhcHeaders
  import opened KhcResponse

  // ---------------------------------------------------------------------------------------------
  // The work that is left

  /** Bytes of the stream buffer that are still to be looked at in the current phase. */
  function StreamLeft(k: K): nat {
    if ChunkPhase(k.phase) && !k.phase.RespBodyReadChunkBody? then k.stream.len
    else if k.phase.RespBodyCallback? then k.stream.len
    else 0
  }

  /** Every byte of the response moves from the socket to the header buffer or the stream buffer. */
  function BytesLeft(c: C): nat { 30 * |c.w.inbox| + 20 * c.k.head.len + 10 * StreamLeft(c.k) }

  function Rank(p: Phase): nat {
    match p
    case Idle => 8
    case Connect => 7
    case ReqLine => 6
    case ReqHostHeader => 5
    case ReqHeader => 4
    case ReqHeaderSend | ReqBodySendSize => 3
    case ReqHeaderSendCrlf | ReqBodySend => 2
    case ReqHeaderEnd | ReqBodySendCrlf => 1
    case ReqBodyRead => 0
    case RespStatusRead => 5
    case RespStatusParse => 4
    case RespHeaderCallback => 3
    case RespBodyFragment | RespBodyCallback => 2
    case RespBodyParseChunkSize | RespBodyParseChunkBody => 2
    case _ => 1
  }

  /** What the read callback may still provide, with its share of the chunk framing. */
  function SupplyLeft(c: C): nat {
    40 * c.w.supply + if BodyPhase(c.k.phase) && c.k.out.readEnd then 0 else 30
  }

  function HeadersLeft(k: K): nat {
    if k.phase.ReqHeader? || k.phase.ReqHeaderSend? || k.phase.ReqHeaderSendCrlf? then
      if k.out.cur <= |k.req.headers| then 5 * (|k.req.headers| - k.out.cur) else 0
    else if k.phase.ReqHeaderEnd? || BodyPhase(k.phase) then 0
    else 5 * |k.req.headers|
  }

  function TextLeft(k: K): nat {
    match k.phase
    case Idle => |HeadText(Defaults(k.req))|
    case Connect => |HeadText(k.req)|
    case _ => |Pending(k)|
  }

  function AskingLeft(c: C): nat {
    30 * |c.w.inbox| + 20 + TextLeft(c.k) + HeadersLeft(c.k) + SupplyLeft(c) + Rank(c.k.phase)
  }

  /** An upper bound of the number of handler calls still to be made. */
  function Work(c: C): nat {
    c.w.retries +
    if c.k.phase.Finished? then 0
    else if c.k.phase.Close? then 1
    else if Asking(c.k.phase) then AskingLeft(c)
    else 2 + BytesLeft(c) + Rank(c.k.phase)
  }

  /** The three places where a run would make no headway: the end of the stream inside the header,
      a move from an empty header buffer, and a read callback asked again after its end. */
  predicate Lively(c: C) {
    && (c.k.phase.RespHeaderRead? ==> c.k.head.len + 1 < |c.k.head.bytes|)
    && (c.k.phase.RespHeaderRead? || c.k.phase.RespHeaderSkip? ==> c.w.inbox != "")
    && (c.k.phase.RespHeaderSkip? ==> |c.k.head.bytes| > 2)
    && (c.k.phase.ReadChunkSizeFromHeaderBuff? || c.k.phase.ReadChunkBodyFromHeaderBuff? ==> c.k.head.len > 0)
    && (c.k.phase.ReqHeader? || c.k.phase.ReqBodyRead? ==> c.k.out.sent == 0)
    && (c.k.phase.ReqBodyRead? ==> !c.k.out.readEnd && |c.k.stream.bytes| < PIECE_LIMIT)
  }

  // ---------------------------------------------------------------------------------------------
  // Every step does some of it

  lemma {:induction false} HexShort(n: nat)
    requires n > 0
    ensures |Hex(n)| <= n
  {
    if n >= 16 {
      HexShort(n / 16);
    }
  }

  lemma UnsentAll(k: K)
    requires k.out.sent == 0
    ensures Unsent(k) == PhaseText(k)
  {
  }

  /** The text of the next phase has been part of what was to follow. */
  lemma NextText(k: K)
    requires Sending(k.phase) && k.out.sent == 0
    ensures var k1 := AfterSending(k);
            && (Sending(k1.phase) ==> |PhaseText(k1)| + |Following(k1)| <= |Following(k)|)
            && (k1.phase.ReqHeader? ==> Following(k1) == Following(k))
            && k1.out.sent == 0 && !k1.phase.Idle? && !k1.phase.Connect?
  {
    hide Lines, EndText, RequestLine, HostLine, SizeLine, Hex;
  }

  lemma AfterSendingText(k: K)
    requires Sending(k.phase) && k.out.sent == 0
    ensures Sending(AfterSending(k).phase) || AfterSending(k).phase.ReqHeader? ==>
            |Pending(AfterSending(k))| <= |Following(k)|
    ensures AfterSending(k).phase.ReqBodyRead? ==> Pending(AfterSending(k)) == ""
  {
    hide Following, Unsent, AfterSending, PhaseText;
    NextText(k);
    UnsentAll(AfterSending(k));
    if AfterSending(k).phase.ReqBodyRead? { NothingPending(AfterSending(k)); }
  }

  lemma AfterSendingWork(c: C)
    requires Sending(c.k.phase) && c.k.out.sent == 0 && c.k.out.cur <= |c.k.req.headers|
    requires c.k.phase.ReqHeaderSend? || c.k.phase.ReqHeaderSendCrlf? ==> c.k.out.cur < |c.k.req.headers|
    ensures Work(C(AfterSending(c.k), c.w)) + |Unsent(c.k)| < Work(c)
  {
    hide Pending, Unsent, Following, HeadText;
    AfterSendingText(c.k);
    assert |Pending(c.k)| == |Unsent(c.k)| + |Following(c.k)| by { PendingLength(c.k); }
  }

  lemma PendingLength(k: K)
    requires Sending(k.phase)
    ensures |Pending(k)| == |Unsent(k)| + |Following(k)|
  {
    hide Unsent, Following;
  }

  lemma FollowingIgnoresSent(k: K, n: nat)
    ensures Following(k.(out := k.out.(sent := n))) == Following(k)
    ensures n == k.out.sent + (n - k.out.sent) && k.out.sent <= n && n - k.out.sent <= |Unsent(k)| ==>
              |Unsent(k.(out := k.out.(sent := n)))| == |Unsent(k)| - (n - k.out.sent)
  {
    hide Lines, HostLine, EndText, RequestLine, SizeLine;
    var k1 := k.(out := k.out.(sent := n));
    assert PhaseText(k1) == PhaseText(k);
  }

  lemma PartSentWork(c: C, n: nat)
    requires Sending(c.k.phase) && n < |Unsent(c.k)|
    ensures Work(C(c.k.(out := c.k.out.(sent := c.k.out.sent + n)), c.w)) == Work(c) - n
  {
    hide Pending, Unsent, Following, HeadText;
    var k1 := c.k.(out := c.k.out.(sent := c.k.out.sent + n));
    FollowingIgnoresSent(c.k, c.k.out.sent + n);
    PendingLength(c.k);
    PendingLength(k1);
  }

  lemma AllSentWork(c: C)
    requires Sending(c.k.phase) && c.k.out.cur <= |c.k.req.headers|
    requires c.k.phase.ReqHeaderSend? || c.k.phase.ReqHeaderSendCrlf? ==> c.k.out.cur < |c.k.req.headers|
    ensures Work(C(AfterSending(c.k.(out := c.k.out.(sent := 0))), c.w)) < Work(c)
  {
    hide Pending, Unsent, Following, HeadText, AfterSending;
    var k0 := c.k.(out := c.k.out.(sent := 0));
    FollowingIgnoresSent(c.k, 0);
    PendingLength(c.k);
    PendingLength(k0);
    AfterSendingWork(C(k0, c.w));
  }

  lemma SendWork(c: C, r: Reply)
    requires CanStep(c, r) && Sending(c.k.phase)
    ensures Work(Next(c, r)) < Work(c)
  {
    hide Pending, Unsent, HeadersLeft, SupplyLeft, HeadText, PhaseText, Hex, AfterSending, SizeLineOk, Rank;
    if r.Sent? && r.code == SockOk {
      if r.n < |Unsent(c.k)| {
        PartSentWork(c, r.n);
        var d := C(c.k.(out := c.k.out.(sent := c.k.out.sent + r.n)), c.w);
        if r.n == 0 {
          FewerRetries(d, C(d.k, d.w.(retries := d.w.retries - 1)));
          SameWork(C(d.k, d.w.(retries := d.w.retries - 1)), Next(c, r));
        } else {
          SameWork(d, Next(c, r));
        }
      } else {
        var k1 := AfterSending(c.k.(out := c.k.out.(sent := 0)));
        AllSentWork(c);
        NoMoreWork(C(k1, c.w), Next(c, r));
      }
    } else if r.Sent? && r.code == SockAgain && !(c.k.phase.ReqBodySendSize? && |Hex(c.k.out.readSize)| + 2 > 15) {
      FewerRetries(c, C(c.k, c.w.(retries := c.w.retries - 1)));
      SameWork(C(c.k, c.w.(retries := c.w.retries - 1)), Next(c, r));
    }
  }

  lemma NoMoreWork(c: C, d: C)
    requires d.k == c.k && d.w.retries <= c.w.retries && d.w.supply == c.w.supply && |d.w.inbox| == |c.w.inbox|
    ensures Work(d) <= Work(c)
  {
    hide Pending, HeadText, HeadersLeft;
  }

  lemma StartWork(c: C, r: Reply)
    requires CanStep(c, r) && (c.k.phase.Idle? || c.k.phase.Connect?)
    ensures Work(Next(c, r)) < Work(c)
  {
    hide Lines, EndText, RequestLine, HostLine, Defaults, Provide;
    var k1 := Next(c, r).k;
    DefaultHeaders(c.k.req);
    if k1.phase.ReqLine? {
      assert Unsent(k1) == RequestLine(k1.req);
      assert Pending(k1) == HeadText(k1.req);
    }
  }

  lemma DefaultHeaders(req: Request)
    ensures Defaults(req).headers == req.headers
  {
  }

  lemma ReqHeaderWork(c: C)
    requires c.k.phase.ReqHeader? && Lively(c)
    ensures Work(C(StepReqHeader(c.k), c.w)) < Work(c)
  {
    hide Pending, HeadText, CurrentHeader;
    SamePending(c.k);
  }

  lemma BodyReadWork(c: C, data: string)
    requires c.k.phase.ReqBodyRead? && Lively(c) && |data| <= |c.k.stream.bytes| && |data| <= c.w.supply
    ensures Work(C(StepBodyRead(c.k, data), c.w.(supply := c.w.supply - |data|))) < Work(c)
  {
    hide Pending, HeadText;
    PendingPiece(c.k, data);
    if data != "" { HexShort(|data|); }
    assert |PieceText(data)| <= 2 * |data| + 5 by { hide Hex; assert data == "" ==> |Hex(0)| == 1 by { ZeroIsShort(); } }
    NothingPending(c.k);
  }

  lemma ZeroIsShort()
    ensures |Hex(0)| == 1
  {
  }

  lemma HeaderLineWork(c: C, n: nat, taken: nat)
    requires c.k.phase.RespHeaderCallback? && n + 2 <= c.k.head.len < |c.k.head.bytes|
    ensures Work(C(HeaderLine(c.k, n, taken), c.w)) < Work(c)
  {
    hide DropZ, IsChunkedEncoding;
  }

  /** Only retries, the inbox and the supply of the world matter. */
  lemma SameWork(c: C, d: C)
    requires d.k == c.k && d.w.retries == c.w.retries && d.w.supply == c.w.supply && |d.w.inbox| == |c.w.inbox|
    ensures Work(d) == Work(c)
  {
    hide Pending, HeadText, HeadersLeft;
  }

  lemma SkipWork(c: C, code: SockCode, data: string)
    requires c.k.phase.RespHeaderSkip? && 0 < c.k.head.len < |c.k.head.bytes| && Kept(c.k.head) + |data| < |c.k.head.bytes|
    requires data <= c.w.inbox && (code == SockOk ==> data != "")
    ensures code != SockAgain ==> Work(Inbox(c, StepHeaderSkip(c.k, code, data), data)) < Work(c)
    ensures code == SockAgain ==> Work(Inbox(c, StepHeaderSkip(c.k, code, data), data)) <= Work(c)
  {
    hide PutZ, DropZ, Put, FindCrlf, RequiredHeader, Kept, AskingLeft;
    var k0 := c.k.(head := Skipped(c.k.head));
    var k1 := HeaderReceived(k0, k0.head.len, data);
    BeforeNul(k1.head.bytes, k1.head.len);
  }

  lemma CallbackWork(c: C, r: Reply)
    requires CanStep(c, r) && c.k.phase.RespHeaderCallback?
    ensures Work(Next(c, r)) < Work(c)
  {
    hide FindCrlf, HeaderLine, SizeLineOk;
    BeforeNul(c.k.head.bytes, c.k.head.len);
    if FindCrlf(c.k.head.bytes).Some? {
      var k1 := HeaderLine(c.k, FindCrlf(c.k.head.bytes).value, if r.Taken? then r.n else 0);
      HeaderLineWork(c, FindCrlf(c.k.head.bytes).value, if r.Taken? then r.n else 0);
      SameWork(C(k1, c.w), Next(c, r));
    }
  }

  lemma SkippingWork(c: C, r: Reply)
    requires CanStep(c, r) && c.k.phase.RespHeaderSkip? && Lively(c)
    ensures Work(Next(c, r)) < Work(c)
  {
    hide RequiredHeader, StepHeaderSkip, SizeLineOk;
    if r.Received? {
      var c1 := Inbox(c, StepHeaderSkip(c.k, r.code, r.data), r.data);
      SkipWork(c, r.code, r.data);
      if r.code == SockAgain { FewerRetries(c1, Next(c, r)); } else { SameWork(c1, Next(c, r)); }
    }
  }

  lemma StatusReadWork(c: C, r: Reply)
    requires CanStep(c, r) && c.k.phase.RespStatusRead?
    ensures Work(Next(c, r)) < Work(c)
  {
    hide PutZ, FindCrlf, SizeLineOk, StepHeaderSkip, StepHeaderCallback, Kept, RequiredHeader, AskingLeft;
  }

  lemma HeaderReadWork(c: C, r: Reply)
    requires CanStep(c, r) && c.k.phase.RespHeaderRead? && Lively(c)
    ensures Work(Next(c, r)) < Work(c)
  {
    hide PutZ, FindCrlf, SizeLineOk, StepHeaderSkip, StepHeaderCallback, Kept, RequiredHeader, AskingLeft;
  }

  lemma ParseStatusWork(c: C, r: Reply)
    requires CanStep(c, r) && c.k.phase.RespStatusParse?
    ensures Work(Next(c, r)) < Work(c)
  {
    hide FindCrlf, StatusDigits, SizeLineOk;
  }

  lemma HeaderWork(c: C, r: Reply)
    requires CanStep(c, r) && HeaderPhase(c.k.phase) && Lively(c)
    ensures Work(Next(c, r)) < Work(c)
  {
    hide Work, CanStep, Next, Lively;
    match c.k.phase
    case RespHeaderCallback => CallbackWork(c, r);
    case RespHeaderSkip => SkippingWork(c, r);
    case RespStatusParse => ParseStatusWork(c, r);
    case RespStatusRead => StatusReadWork(c, r);
    case RespHeaderRead => HeaderReadWork(c, r);
  }

  lemma FewerRetries(c: C, d: C)
    requires d.k == c.k && c.w.retries > 0 && d.w == c.w.(retries := c.w.retries - 1)
    ensures Work(d) == Work(c) - 1
  {
    hide Pending, HeadText, HeadersLeft;
  }

  /** The chunk phases without their worlds: what a handler leaves to look at. */
  function ChunkBytes(k: K): nat { 20 * k.head.len + 10 * StreamLeft(k) + Rank(k.phase) }

  lemma QuietChunkWork(k: K)
    requires Defined(k)
    ensures k.phase.RespBodyParseChunkSize? ==>
            ChunkBytes(StepParseSize(k)) < ChunkBytes(k) && !Asking(StepParseSize(k).phase)
    ensures k.phase.ReadChunkSizeFromHeaderBuff? && k.head.len > 0 ==>
              var k1 := StepMoveHeader(k, RespBodyParseChunkSize);
              (ChunkBytes(k1) < ChunkBytes(k) || k1.phase.Close?) && !Asking(k1.phase)
    ensures k.phase.ReadChunkBodyFromHeaderBuff? && k.head.len > 0 ==>
              var k1 := StepMoveHeader(k, RespBodyParseChunkBody);
              (ChunkBytes(k1) < ChunkBytes(k) || k1.phase.Close?) && !Asking(k1.phase)
  {
    hide Put, Drop, DropZ, FindCrlf, HasCrlf, StrToL16;
  }

  lemma ParseBodyWork(k: K, taken: nat)
    requires Valid(k) && k.phase.RespBodyParseChunkBody?
    ensures ChunkBytes(StepParseBody(k, taken)) < ChunkBytes(k) && !Asking(StepParseBody(k, taken).phase)
  {
    hide Drop;
  }

  lemma ChunkWork(c: C, r: Reply)
    requires CanStep(c, r) && ChunkPhase(c.k.phase) && Lively(c)
    ensures Work(Next(c, r)) < Work(c)
  {
    hide StreamLeft, StepParseSize, StepMoveHeader, StepParseBody, TargetSize, HasCrlf, FindCrlf;
    match c.k.phase
    case RespBodyParseChunkBody => ParseBodyWork(c.k, r.n);
    case RespBodyReadChunkSize => ReadSizeWork(c, r);
    case RespBodyReadChunkBody => ReadBodyWork(c, r);
    case RespBodySkipChunkBodyCrlf => SkipCrlfWork(c, r);
    case _ => QuietChunkWork(c.k);
  }

  lemma ReadSizeWork(c: C, r: Reply)
    requires CanStep(c, r) && c.k.phase.RespBodyReadChunkSize?
    ensures Work(Next(c, r)) < Work(c)
  {
    hide AskingLeft, StepHeader, StepSend, RequiredHeader, TargetSize, Unsent, Hex, FindCrlf, Put, SizeLineOk;
  }

  lemma ReadBodyWork(c: C, r: Reply)
    requires CanStep(c, r) && c.k.phase.RespBodyReadChunkBody?
    ensures Work(Next(c, r)) < Work(c)
  {
    hide AskingLeft, StepHeader, StepSend, RequiredHeader, TargetSize, Unsent, Hex, FindCrlf, Put, SizeLineOk;
  }

  lemma SkipCrlfWork(c: C, r: Reply)
    requires CanStep(c, r) && c.k.phase.RespBodySkipChunkBodyCrlf?
    ensures Work(Next(c, r)) < Work(c)
  {
    hide AskingLeft, StepHeader, StepSend, RequiredHeader, TargetSize, Unsent, Hex, FindCrlf, Drop, SizeLineOk;
  }

  lemma FragmentWork(c: C, r: Reply)
    requires CanStep(c, r) && c.k.phase.RespBodyFragment?
    ensures Work(Next(c, r)) < Work(c)
  {
    hide AskingLeft, StepHeader, StepSend, RequiredHeader, TargetSize, Unsent, Hex, FindCrlf, SizeLineOk;
  }

  lemma PlainReadWork(c: C, r: Reply)
    requires CanStep(c, r) && c.k.phase.RespBodyRead?
    ensures Work(Next(c, r)) < Work(c)
  {
    hide AskingLeft, StepHeader, StepSend, RequiredHeader, TargetSize, Unsent, Hex, FindCrlf, Put, SizeLineOk;
  }

  lemma PlainWriteWork(c: C, r: Reply)
    requires CanStep(c, r) && c.k.phase.RespBodyCallback?
    ensures Work(Next(c, r)) < Work(c)
  {
    hide AskingLeft, StepHeader, StepSend, RequiredHeader, TargetSize, Unsent, Hex, FindCrlf, SizeLineOk;
  }

  lemma TrailerWork(c: C, r: Reply)
    requires CanStep(c, r) && c.k.phase.RespBodySkipTrailers?
    ensures Work(Next(c, r)) < Work(c)
  {
    hide AskingLeft, StepHeader, StepSend, RequiredHeader, TargetSize, Unsent, Hex, FindCrlf, Put, SizeLineOk;
  }

  lemma CloseWork(c: C, r: Reply)
    requires CanStep(c, r) && c.k.phase.Close?
    ensures Work(Next(c, r)) < Work(c)
  {
    hide AskingLeft, StepHeader, StepSend, RequiredHeader, TargetSize, Unsent, Hex, FindCrlf, SizeLineOk;
  }

  lemma RestWork(c: C, r: Reply)
    requires CanStep(c, r) && !Asking(c.k.phase) && !HeaderPhase(c.k.phase) && !ChunkPhase(c.k.phase)
    ensures Work(Next(c, r)) < Work(c)
  {
    hide Work, Defined, Step, Advance, CallOf, Legal;
    match c.k.phase
    case RespBodyFragment => FragmentWork(c, r);
    case RespBodyRead => PlainReadWork(c, r);
    case RespBodyCallback => PlainWriteWork(c, r);
    case RespBodySkipTrailers => TrailerWork(c, r);
    case Close => CloseWork(c, r);
  }

  lemma AskingWork(c: C, r: Reply)
    requires CanStep(c, r) && Asking(c.k.phase) && Lively(c)
    ensures Work(Next(c, r)) < Work(c)
  {
    hide Work, StepReqHeader, StepBodyRead, SizeLineOk, PhaseOk, Unsent, Hex;
    if Sending(c.k.phase) {
      SendWork(c, r);
    } else if c.k.phase.ReqHeader? {
      ReqHeaderWork(c);
    } else if c.k.phase.ReqBodyRead? {
      BodyReadWork(c, r.data);
      SameWork(C(StepBodyRead(c.k, r.data), c.w.(supply := c.w.supply - |r.data|)), Next(c, r));
    } else {
      StartWork(c, r);
    }
  }

  /** Every handler call does some of the work. */
  lemma StepWorks(c: C, r: Reply)
    requires CanStep(c, r) && Lively(c)
    ensures Work(Next(c, r)) < Work(c)
  {
    hide Work, CanStep, Next, Lively;
    if Asking(c.k.phase) { AskingWork(c, r); }
    else if HeaderPhase(c.k.phase) { HeaderWork(c, r); }
    else if ChunkPhase(c.k.phase) { ChunkWork(c, r); }
    else { RestWork(c, r); }
  }

  // ---------------------------------------------------------------------------------------------
  // Runs end

  /** A response with a complete header; nothing is asked of its body. */
  ghost predicate LiveInv(c: C, lines: seq<string>, rest: string) {
    && Valid(c.k) && SendInv(c)
    && (Asking(c.k.phase) ==>
          c.w.headers == [] && c.k.resp == Incoming(0, false, 0, 0, false)
          && Answer(c.w.inbox, SizeOfBuffer(c.k.head, HEADER_BUFF_SIZE)) == Some(Heads(lines, rest)))
    && (HeaderPhase(c.k.phase) ==> HeadInv(c, lines, rest))
    && (c.k.phase.ReadChunkSizeFromHeaderBuff? || c.k.phase.ReadChunkBodyFromHeaderBuff? ==> c.k.head.len > 0)
  }

  lemma LiveIsLively(c: C, lines: seq<string>, rest: string)
    requires LiveInv(c, lines, rest)
    ensures Lively(c)
  {
    hide Pending, HeadText, BodyText, FullText, PhaseText, Answer, Resume, AnyChunked;
    if HeaderPhase(c.k.phase) {
      assert c.w.inbox == "" ==> Ahead(c) == c.k.head.Contents();
      if c.k.phase.RespHeaderRead? {
        ResumeHasLine(Ahead(c), c.k.resp.status, |c.k.head.bytes|);
      }
    }
  }

  lemma LiveAsking(c: C, r: Reply, lines: seq<string>, rest: string)
    requires LiveInv(c, lines, rest) && CanStep(c, r) && Asking(c.k.phase)
    ensures LiveInv(Next(c, r), lines, rest)
  {
    hide SendInv, Answer, HeadInv, Step, Advance, SizeLineOk;
    StepKeepsSendInv(c, r);
    StepValid(c.k, r);
    AskingStep(c, r);
    if Next(c, r).k.phase.RespStatusRead? {
      HeaderBegins(Next(c, r), lines, rest);
    }
  }

  lemma LiveHeader(c: C, r: Reply, lines: seq<string>, rest: string)
    requires LiveInv(c, lines, rest) && CanStep(c, r) && HeaderPhase(c.k.phase)
    ensures LiveInv(Next(c, r), lines, rest)
  {
    hide SendInv, Answer, HeadInv, HeaderGoesOn, Step, Advance, PhaseOk, AnyChunked;
    StepKeepsSendInv(c, r);
    StepValid(c.k, r);
    HeaderStep(c, r, lines, rest);
    GoesOnPhase(Next(c, r), lines, rest);
  }

  lemma ChunkStaysBody(k: K, r: Reply)
    requires Defined(k) && Suits(CallOf(k), r) && ChunkPhase(k.phase)
    ensures !Asking(StepChunk(k, r).phase) && !HeaderPhase(StepChunk(k, r).phase)
    ensures StepChunk(k, r).phase.ReadChunkSizeFromHeaderBuff? || StepChunk(k, r).phase.ReadChunkBodyFromHeaderBuff? ==>
            StepChunk(k, r).head.len > 0
  {
    hide Put, Drop, DropZ, FindCrlf, HasCrlf, StrToL16, StrToLStops, TargetSize;
  }

  lemma PlainStaysBody(k: K, r: Reply)
    requires Defined(k) && Suits(CallOf(k), r) && !Asking(k.phase) && !HeaderPhase(k.phase) && !ChunkPhase(k.phase)
    ensures var p := StepPlain(k, r).phase; !Asking(p) && !HeaderPhase(p) && !ChunkPhase(p)
  {
    hide Put, SizeLineOk;
  }

  lemma BodyStaysBody(k: K, r: Reply)
    requires Defined(k) && Suits(CallOf(k), r) && !Asking(k.phase) && !HeaderPhase(k.phase)
    ensures !Asking(Step(k, r).phase) && !HeaderPhase(Step(k, r).phase)
    ensures Step(k, r).phase.ReadChunkSizeFromHeaderBuff? || Step(k, r).phase.ReadChunkBodyFromHeaderBuff? ==>
            Step(k, r).head.len > 0
  {
    hide StepPlain, StepChunk, CallOf, Suits, Defined;
    if ChunkPhase(k.phase) { ChunkStaysBody(k, r); } else { PlainStaysBody(k, r); }
  }

  lemma LiveStep(c: C, r: Reply, lines: seq<string>, rest: string)
    requires LiveInv(c, lines, rest) && CanStep(c, r)
    ensures LiveInv(Next(c, r), lines, rest)
  {
    hide SendInv, Answer, HeadInv, Step, Advance, PhaseOk;
    if Asking(c.k.phase) { LiveAsking(c, r, lines, rest); }
    else if HeaderPhase(c.k.phase) { LiveHeader(c, r, lines, rest); }
    else {
      StepKeepsSendInv(c, r);
      StepValid(c.k, r);
      BodyStaysBody(c.k, r);
    }
  }

  lemma {:induction false} RunsEnd(c: C, rs: seq<Reply>, lines: seq<string>, rest: string)
    requires LiveInv(c, lines, rest) && Runs(c, rs)
    ensures |rs| + Work(After(c, rs)) <= Work(c)
    decreases |rs|
  {
    hide LiveInv, Step, Advance, Work;
    if rs != [] {
      LiveIsLively(c, lines, rest);
      StepWorks(c, rs[0]);
      LiveStep(c, rs[0], lines, rest);
      RunsEnd(Next(c, rs[0]), rs[1..], lines, rest);
    }
  }

  /** If the response has a complete header, no run of a fresh client makes more handler calls than the
      work at its start, which the retries, the read callback's supply, the request and the response
      bound. */
  lemma PerformEnds(c: C, rs: seq<Reply>)
    requires Fresh(c) && |c.k.stream.bytes| < PIECE_LIMIT && Runs(c, rs)
    requires Answer(c.w.inbox, SizeOfBuffer(c.k.head, HEADER_BUFF_SIZE)).Some?
    ensures |rs| <= Work(c)
  {
    hide LiveInv, Runs, Work, Answer, Fresh;
    var h := Answer(c.w.inbox, SizeOfBuffer(c.k.head, HEADER_BUFF_SIZE)).value;
    FreshLives(c, h.lines, h.rest);
    RunsEnd(c, rs, h.lines, h.rest);
  }

  lemma FreshLives(c: C, lines: seq<string>, rest: string)
    requires Fresh(c) && |c.k.stream.bytes| < PIECE_LIMIT
    requires Answer(c.w.inbox, SizeOfBuffer(c.k.head, HEADER_BUFF_SIZE)) == Some(Heads(lines, rest))
    ensures LiveInv(c, lines, rest)
  {
    hide Answer, Pending, HeadText, BodyText, FullText, PhaseText, HeadInv;
  }

  /** An answer that is always possible: a failure, or nothing. */
  function Refusal(call: Call): Reply {
    match call
    case NoCall => Quiet
    case Allocate(_, _) => Memory(None, None)
    case Dial => Sock(SockFail)
    case Shut(_, _) => Sock(SockFail)
    case Send(_) => Sent(SockFail, 0)
    case Recv(_) => Received(SockFail, "")
    case Read(_) => Provided("")
    case TellHeader(_) => Taken(0)
    case Write(_) => Taken(0)
  }

  /** No run gets stuck before its end, but where the code would leave its buffers: there is always an
      answer with which it goes on. */
  lemma NeverStuck(c: C)
    requires Defined(c.k) && !c.k.phase.Finished?
    ensures CanStep(c, Refusal(CallOf(c.k)))
  {
    hide CallOf, Defined;
  }
}
