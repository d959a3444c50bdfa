/** Runs of the client. */
module KhcRun {
  import opened Text
  import opened KhcText
  import opened KhcMachine

  // ---------------------------------------------------------------------------------------------
  // The client and the world it talks to

  datatype Link = Unopened | Open | Shutting

  /** How often the header buffer and the stream buffer have been allocated and freed. */
  datatype Heap = Heap(headNew: nat, headFree: nat, streamNew: nat, streamFree: nat)

  const NO_HEAP := Heap(0, 0, 0, 0)

  /** The other side of the callbacks.  `inbox`: what the server will have sent, as far as it has not
      been received.  `wire`: what the socket has accepted.  `pieces`: the non-empty pieces the
      read callback has provided.  `headers`, `body`: what the header and the write callback have
      taken.  `refused`: one of them took less than it was given.  `heap`: what has been asked of the
      allocator.  `retries` and `supply` bound how often a call may have to be repeated and how much
      the read callback may still provide. */
  datatype World = World(inbox: string, wire: string, pieces: seq<string>, headers: seq<string>,
                         body: string, refused: bool, link: Link, retries: nat, supply: nat, heap: Heap)

  /** The client waits: AGAIN, or a send that accepts nothing. */
  predicate Waits(call: Call, r: Reply) {
    match (call, r)
    case (Dial, Sock(code)) => code == SockAgain
    case (Shut(_, _), Sock(code)) => code == SockAgain
    case (Recv(_), Received(code, _)) => code == SockAgain
    case (Send(t), Sent(code, n)) => code == SockAgain || (code == SockOk && n == 0 && t != "")
    case _ => false
  }

  /** Sockets deliver the server's bytes in order, any number at a time; nothing means the end. */
  predicate Legal(w: World, call: Call, r: Reply) {
    && Suits(call, r)
    && (Waits(call, r) ==> w.retries > 0)
    && (call.Recv? && r.code == SockOk ==> r.data <= w.inbox && (r.data == "" && call.max > 0 ==> w.inbox == ""))
    && (call.Read? ==> |r.data| <= w.supply)
  }

  /** Without a header buffer no stream buffer is asked for. */
  function Granted(heap: Heap, header: bool, stream: bool): Heap {
    heap.(headNew := heap.headNew + if header then 1 else 0, streamNew := heap.streamNew + if stream then 1 else 0)
  }

  function Freed(heap: Heap, header: bool, stream: bool): Heap {
    heap.(headFree := heap.headFree + if header then 1 else 0, streamFree := heap.streamFree + if stream then 1 else 0)
  }

  function Advance(w: World, call: Call, r: Reply): World
    requires Legal(w, call, r)
  {
    var w0 := if Waits(call, r) then w.(retries := w.retries - 1) else w;
    match call
    case Dial => if r.code == SockOk then w0.(link := Open) else w0
    case Shut(h, s) => w0.(link := Shutting, heap := Freed(w.heap, h, s))
    case Allocate(h, s) => w0.(heap := Granted(w.heap, r.header.Some?, r.stream.Some? && !(h && r.header.None?)))
    case Send(t) => w0.(wire := w.wire + t[..r.n])
    case Recv(_) => w0.(inbox := w.inbox[|r.data|..])
    case Read(_) => w0.(pieces := if r.data == "" then w.pieces else w.pieces + [r.data], supply := w.supply - |r.data|)
    case TellHeader(line) => if r.n == |line| then w0.(headers := w.headers + [line]) else w0.(refused := true)
    case Write(data) => if r.n >= |data| then w0.(body := w.body + data) else w0.(refused := true)
    case _ => w0
  }

  datatype C = C(k: K, w: World)

  predicate CanStep(c: C, r: Reply) {
    Defined(c.k) && !c.k.phase.Finished? && Legal(c.w, CallOf(c.k), r)
  }

  function Next(c: C, r: Reply): C
    requires CanStep(c, r)
  {
    C(Step(c.k, r), Advance(c.w, CallOf(c.k), r))
  }

  lemma CanStepMeans(c: C, r: Reply)
    requires CanStep(c, r)
    ensures Defined(c.k) && Suits(CallOf(c.k), r) && !c.k.phase.Finished?
  {
    hide Defined, CallOf, Suits;
  }

  /** The answers `rs` drive the loop of `khc_perform` from `c` on. */
  predicate Runs(c: C, rs: seq<Reply>)
    decreases |rs|
  {
    rs == [] || (CanStep(c, rs[0]) && Runs(Next(c, rs[0]), rs[1..]))
  }

  function After(c: C, rs: seq<Reply>): C
    requires Runs(c, rs)
    decreases |rs|
  {
    if rs == [] then c else After(Next(c, rs[0]), rs[1..])
  }

  /** The object as `khc_reset_except_cb` and the setters leave it, before `khc_perform`. */
  predicate Fresh(c: C) {
    && Valid(c.k) && c.k.phase.Idle? && c.k.result == Ok && c.k.head.owner != Library && c.k.stream.owner != Library
    && c.k.out == Outgoing(0, 0, 0, false) && c.k.resp == Incoming(0, false, 0, 0, false)
    && c.w.wire == "" && c.w.pieces == [] && c.w.headers == [] && c.w.body == "" && !c.w.refused && c.w.link == Unopened
    && c.w.heap == NO_HEAP
  }

  // ---------------------------------------------------------------------------------------------
  // No handler leaves its buffers

  lemma SendValid(k: K, code: SockCode, n: nat)
    requires Valid(k) && Sending(k.phase)
    ensures Valid(StepSend(k, code, n))
  {
    hide Unsent, Hex;
  }

  lemma HeaderLineValid(k: K, n: nat, taken: nat)
    requires Valid(k) && k.phase.RespHeaderCallback? && n + 2 <= k.head.len
    ensures Valid(HeaderLine(k, n, taken))
  {
    hide DropZ, IsChunkedEncoding;
  }

  lemma SkipValid(k: K, code: SockCode, data: string)
    requires Defined(k) && k.phase.RespHeaderSkip? && Kept(k.head) + |data| < |k.head.bytes|
    ensures Valid(StepHeaderSkip(k, code, data))
  {
    hide PutZ, DropZ, Put, FindCrlf, RequiredHeader, SizeLineOk;
    var k0 := k.(head := Skipped(k.head));
    var k1 := HeaderReceived(k0, k0.head.len, data);
    BeforeNul(k1.head.bytes, k1.head.len);
  }

  lemma HeaderStepValid(k: K, r: Reply)
    requires Defined(k) && Suits(CallOf(k), r) && HeaderPhase(k.phase)
    ensures Valid(StepHeader(k, r))
  {
    hide PutZ, DropZ, FindCrlf, RequiredHeader, StatusDigits, HeaderLine, StepHeaderSkip, SizeLineOk, Kept;
    match k.phase
    case RespHeaderCallback =>
      BeforeNul(k.head.bytes, k.head.len);
      if FindCrlf(k.head.bytes).Some? {
        HeaderLineValid(k, FindCrlf(k.head.bytes).value, if r.Taken? then r.n else 0);
      }
    case RespHeaderSkip => if r.Received? { SkipValid(k, r.code, r.data); }
    case _ =>
  }

  lemma {:induction false} StrToL16InRange(s: string)
    ensures -LONG_MAX - 1 <= StrToL16(s) <= LONG_MAX
    decreases |s|
  {
    if s != "" && IsSpace(s[0]) {
      StrToL16InRange(s[1..]);
    }
  }

  lemma ParseBodyValid(k: K, taken: nat)
    requires Valid(k) && k.phase.RespBodyParseChunkBody?
    ensures Valid(StepParseBody(k, taken))
  {
    hide Drop, HasCrlf;
  }

  lemma ParseSizeValid(k: K)
    requires Defined(k) && k.phase.RespBodyParseChunkSize?
    ensures Valid(StepParseSize(k))
  {
    hide Drop, FindCrlf, HasCrlf, StrToL16, StrToLStops;
    StrToL16InRange(k.stream.bytes);
  }

  lemma ChunkStepValid(k: K, r: Reply)
    requires Defined(k) && Suits(CallOf(k), r) && ChunkPhase(k.phase)
    ensures Valid(StepChunk(k, r))
  {
    hide Put, Drop, DropZ, SizeLineOk, StepParseSize, StepParseBody, TargetSize, RequiredHeader, Hex, Unsent;
    match k.phase
    case RespBodyParseChunkBody => ParseBodyValid(k, r.n);
    case RespBodyParseChunkSize => ParseSizeValid(k);
    case _ =>
  }

  lemma IdleValid(k: K, header: Option<string>, stream: Option<string>)
    requires Valid(k) && k.phase.Idle?
    requires header.Some? ==> |header.value| == HEADER_BUFF_SIZE
    requires stream.Some? ==> |stream.value| == STREAM_BUFF_SIZE
    ensures Valid(StepIdle(k, header, stream))
  {
  }

  lemma CloseValid(k: K, code: SockCode)
    requires Valid(k) && k.phase.Close?
    ensures Valid(StepClose(k, code))
  {
  }

  /** The plain states of the request. */
  lemma AskingPlainValid(k: K, r: Reply)
    requires Defined(k) && Suits(CallOf(k), r) && (k.phase.Connect? || k.phase.ReqHeader? || k.phase.ReqBodyRead?)
    ensures Valid(StepPlain(k, r))
  {
    hide Put, CurrentHeader, SizeLineOk, StepIdle, StepClose;
  }

  lemma PlainStepValid(k: K, r: Reply)
    requires Defined(k) && Suits(CallOf(k), r) && !Sending(k.phase) && !HeaderPhase(k.phase) && !ChunkPhase(k.phase)
    ensures Valid(StepPlain(k, r))
  {
    hide Put, CurrentHeader, SizeLineOk, StepIdle, StepClose, StepReqHeader, StepBodyRead, StepConnect;
    match k.phase
    case Idle => if r.Memory? { IdleValid(k, r.header, r.stream); } else { IdleValid(k, None, None); }
    case Connect | ReqHeader | ReqBodyRead => AskingPlainValid(k, r);
    case Close => CloseValid(k, r.code);
    case _ =>
  }

  /** Every handler leaves the object such that the next one stays inside its buffers. */
  lemma StepValid(k: K, r: Reply)
    requires Defined(k) && Suits(CallOf(k), r)
    ensures Valid(Step(k, r))
  {
    hide CallOf, Suits, StepSend, StepHeader, StepChunk, StepPlain, PhaseOk;
    if Sending(k.phase) {
      if r.Sent? { SendValid(k, r.code, r.n); } else { SendValid(k, SockFail, 0); }
    } else if HeaderPhase(k.phase) {
      HeaderStepValid(k, r);
    } else if ChunkPhase(k.phase) {
      ChunkStepValid(k, r);
    } else {
      PlainStepValid(k, r);
    }
  }
}
