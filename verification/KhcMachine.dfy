/** The HTTP client of ebisu/khc as a transition system.

    `K` is the client object as a value, its two buffers byte by byte.  A state of the client makes
    at most one call to a callback or to the allocator: `CallOf` says which, and `Step` is the
    handler of ebisu/khc/src/khc_state_impl.c given the answer.  The class `Khc` in KhcClient.dfy is
    the code, proved to take these steps.
 */
module KhcMachine {
  import opened Text
  import opened KhcText

  datatype Phase =
    | Idle | Connect
    | ReqLine | ReqHostHeader | ReqHeader | ReqHeaderSend | ReqHeaderSendCrlf | ReqHeaderEnd
    | ReqBodyRead | ReqBodySendSize | ReqBodySend | ReqBodySendCrlf
    | RespStatusRead | RespStatusParse | RespHeaderCallback | RespHeaderRead | RespHeaderSkip
    | RespBodyFragment | ReadChunkSizeFromHeaderBuff | ReadChunkBodyFromHeaderBuff
    | RespBodyRead | RespBodyCallback
    | RespBodyParseChunkSize | RespBodyReadChunkSize | RespBodyParseChunkBody | RespBodyReadChunkBody
    | RespBodySkipChunkBodyCrlf | RespBodySkipTrailers
    | Close | Finished

  datatype Code =
    | Ok | SockConnect | SockClose | SockSend | SockRecv | HeaderCallback | WriteCallback
    | Allocation | TooLargeData | Fail

  datatype SockCode = SockOk | SockFail | SockAgain

  /** What the caller has set.  A header is None where the list node has no data. */
  datatype Request = Request(host: string, path: string, verb: string, insecure: bool,
                             headers: seq<Option<string>>, hasRead: bool)

  /** Who owns a buffer: nobody (NULL), the caller, or the client, which then frees it. */
  datatype Owner = Absent | Caller | Library

  /** A buffer and how many of its bytes are in use. */
  datatype Buffer = Buffer(bytes: string, len: nat, owner: Owner) {
    function Contents(): string
      requires len <= |bytes|
    {
      bytes[..len]
    }
  }

  /** `_current_req_header` (as a place in the list), `_sent_length`, `_read_size`, `_read_req_end`. */
  datatype Outgoing = Outgoing(cur: nat, sent: nat, readSize: nat, readEnd: bool)

  datatype Incoming = Incoming(status: int, chunked: bool, chunkSize: int, chunkWritten: int, readEnd: bool)

  datatype K = K(phase: Phase, result: Code, req: Request, out: Outgoing, head: Buffer, stream: Buffer, resp: Incoming) {
    function Go(p: Phase): K { this.(phase := p) }
    function Ends(code: Code): K { this.(phase := Close, result := code) }
  }

  const HEADER_BUFF_SIZE := 256
  const STREAM_BUFF_SIZE := 1024

  // ---------------------------------------------------------------------------------------------
  // Buffers

  /** `data` written at `at`; the bytes up to its end are in use, and the terminator follows. */
  function PutZ(b: Buffer, at: nat, data: string): (r: Buffer)
    requires at + |data| < |b.bytes|
    ensures |r.bytes| == |b.bytes| && r.len == at + |data| && r.owner == b.owner && r.bytes[r.len] == NUL
  {
    b.(bytes := b.bytes[..at] + data + [NUL] + b.bytes[at + |data| + 1..], len := at + |data|)
  }

  lemma ContentsPutZ(b: Buffer, at: nat, data: string)
    requires at + |data| < |b.bytes|
    ensures PutZ(b, at, data).Contents() == b.bytes[..at] + data
  {
  }

  /** `data` written at `at`; the bytes up to its end are in use. */
  function Put(b: Buffer, at: nat, data: string): (r: Buffer)
    requires at + |data| <= |b.bytes|
    ensures |r.bytes| == |b.bytes| && r.len == at + |data| && r.owner == b.owner
  {
    b.(bytes := b.bytes[..at] + data + b.bytes[at + |data|..], len := at + |data|)
  }

  lemma ContentsPut(b: Buffer, at: nat, data: string)
    requires at + |data| <= |b.bytes|
    ensures Put(b, at, data).Contents() == b.bytes[..at] + data
  {
  }

  /** The first `n` bytes in use are dropped; the terminator moves along. */
  function DropZ(b: Buffer, n: nat): (r: Buffer)
    requires n <= b.len < |b.bytes|
    ensures |r.bytes| == |b.bytes| && r.len == b.len - n && r.owner == b.owner && r.bytes[r.len] == b.bytes[b.len]
  {
    b.(bytes := b.bytes[n..b.len + 1] + b.bytes[b.len + 1 - n..], len := b.len - n)
  }

  lemma ContentsDropZ(b: Buffer, n: nat)
    requires n <= b.len < |b.bytes|
    ensures DropZ(b, n).Contents() == b.Contents()[n..]
  {
  }

  /** The first `n` bytes in use are dropped. */
  function Drop(b: Buffer, n: nat): (r: Buffer)
    requires n <= b.len <= |b.bytes|
    ensures |r.bytes| == |b.bytes| && r.len == b.len - n && r.owner == b.owner
  {
    b.(bytes := b.bytes[n..b.len] + b.bytes[b.len - n..], len := b.len - n)
  }

  lemma ContentsDrop(b: Buffer, n: nat)
    requires n <= b.len <= |b.bytes|
    ensures Drop(b, n).Contents() == b.Contents()[n..]
  {
  }

  function Free(b: Buffer): Buffer {
    if b.owner == Library then Buffer("", b.len, Absent) else b
  }

  /** A buffer that nobody has provided is allocated. */
  function Provide(b: Buffer, memory: Option<string>): Buffer {
    if b.owner == Absent && memory.Some? then b.(bytes := memory.value, owner := Library) else b
  }

  // ---------------------------------------------------------------------------------------------
  // What is sent

  function Schema(req: Request): string { if req.insecure then "http://" else "https://" }

  function RequestLine(req: Request): string {
    req.verb + " " + Schema(req) + req.host + req.path + " " + "HTTP/1.1\r\n"
  }

  function HostLine(req: Request): string { "HOST: " + req.host + CRLF }

  function EndText(req: Request): string {
    (if req.hasRead then "Transfer-Encoding: chunked" else "Content-Length: 0") + "\r\nConnection: Close\r\n\r\n"
  }

  /** The chunk size line; `snprintf` with 15 cuts it to 14 characters. */
  function SizeLine(n: nat): string {
    var t := Hex(n) + CRLF;
    if |t| > 14 then t[..14] else t
  }

  function CurrentHeader(k: K): string {
    if k.out.cur < |k.req.headers| && k.req.headers[k.out.cur].Some? then k.req.headers[k.out.cur].value else ""
  }

  /** The whole text that a sending phase has to hand over, from its first byte on. */
  function PhaseText(k: K): string {
    match k.phase
    case ReqLine => RequestLine(k.req)
    case ReqHostHeader => HostLine(k.req)
    case ReqHeaderSend => CurrentHeader(k)
    case ReqHeaderEnd => EndText(k.req)
    case ReqBodySendSize => SizeLine(k.out.readSize)
    case ReqBodySend => if k.out.readSize <= |k.stream.bytes| then k.stream.bytes[..k.out.readSize] else ""
    case _ => CRLF
  }

  /** What of it is still to be handed over (`send_pos`). */
  function Unsent(k: K): string {
    if k.out.sent <= |PhaseText(k)| then PhaseText(k)[k.out.sent..] else ""
  }

  predicate Sending(p: Phase) {
    p.ReqLine? || p.ReqHostHeader? || p.ReqHeaderSend? || p.ReqHeaderSendCrlf? || p.ReqHeaderEnd?
    || p.ReqBodySendSize? || p.ReqBodySend? || p.ReqBodySendCrlf?
  }

  predicate HeaderPhase(p: Phase) {
    p.RespStatusRead? || p.RespStatusParse? || p.RespHeaderCallback? || p.RespHeaderRead? || p.RespHeaderSkip?
  }

  predicate ChunkPhase(p: Phase) {
    p.ReadChunkSizeFromHeaderBuff? || p.ReadChunkBodyFromHeaderBuff? || p.RespBodyParseChunkSize?
    || p.RespBodyReadChunkSize? || p.RespBodyParseChunkBody? || p.RespBodyReadChunkBody? || p.RespBodySkipChunkBodyCrlf?
  }

  // ---------------------------------------------------------------------------------------------
  // What the object must look like

  predicate OkBuffer(b: Buffer, least: nat) {
    if b.owner == Absent then b.bytes == "" else least <= |b.bytes| < LONG_MAX && b.len <= |b.bytes|
  }

  predicate HasBuffers(k: K) { k.head.owner != Absent && k.stream.owner != Absent }

  predicate PhaseOk(k: K) {
    match k.phase
    case Idle => k.head.len == 0 && k.stream.len == 0
    case Close | Finished => true
    case ReqHeaderSend | ReqHeaderSendCrlf => HasBuffers(k) && k.out.cur < |k.req.headers|
    case RespStatusParse | RespHeaderCallback | RespHeaderRead =>
      HasBuffers(k) && k.head.len < |k.head.bytes| && k.head.bytes[k.head.len] == NUL
    case RespBodyParseChunkBody =>
      && HasBuffers(k) && k.head.len < |k.head.bytes| && k.resp.chunkSize != 0 && k.resp.chunkSize <= LONG_MAX
      && if k.resp.chunkSize < 0 then k.resp.chunkWritten == 0 && -LONG_MAX - 1 <= k.resp.chunkSize
         else 0 <= k.resp.chunkWritten < k.resp.chunkSize
    case ReadChunkBodyFromHeaderBuff | RespBodyReadChunkBody =>
      HasBuffers(k) && k.head.len < |k.head.bytes| && 0 <= k.resp.chunkWritten < k.resp.chunkSize <= LONG_MAX
    case RespStatusRead | RespHeaderSkip | ReadChunkSizeFromHeaderBuff | RespBodyParseChunkSize
       | RespBodyReadChunkSize | RespBodySkipChunkBodyCrlf =>
      HasBuffers(k) && k.head.len < |k.head.bytes|
    case _ => HasBuffers(k)
  }

  /** The object is such that its current handler stays inside its buffers. */
  predicate Valid(k: K) {
    OkBuffer(k.head, 1) && OkBuffer(k.stream, 0) && k.out.cur <= |k.req.headers| && PhaseOk(k)
  }

  /** Four states are left open: an over-long header line whose buffer has been emptied by a read that
      brought nothing, a status line whose digits are looked for behind the end of a small header buffer, a
      chunk size line with a terminator in it, which `strstr` does not get past, and one that `strtol`, to
      which white space and digits are no end, reads through to the end of the stream buffer.  There the
      code would access bytes outside its buffers. */
  predicate Defined(k: K) {
    && Valid(k)
    && (k.phase.RespHeaderSkip? ==> k.head.len > 0)
    && (k.phase.RespStatusParse? ==> StatusInside(k.head.bytes))
    && (k.phase.RespBodyParseChunkSize? ==> SizeLineOk(k.stream))
  }

  /** The digits that are looked at, one after the other as long as they are digits, are in the buffer. */
  predicate StatusInside(s: string) {
    |s| > 9 && (IsDigit(s[9]) ==> |s| > 10 && (IsDigit(s[10]) ==> |s| > 11))
  }

  /** If the stream buffer holds a size line, `strstr` finds its end there and `strtol` stops there. */
  predicate SizeLineOk(b: Buffer) {
    b.len <= |b.bytes|
    && (HasCrlf(b.Contents()) ==>
          FindCrlf(b.bytes).Some? && FindCrlf(b.bytes).value + 2 <= b.len && StrToLStops(b.bytes))
  }

  // ---------------------------------------------------------------------------------------------
  // Calls and their answers

  datatype Call =
    | NoCall
    | Allocate(header: bool, stream: bool)
    | Dial
    | Send(text: string)
    | Recv(max: nat)
    | Read(max: nat)
    | TellHeader(line: string)
    | Write(data: string)
    | Shut(freesHeader: bool, freesStream: bool)

  datatype Reply =
    | Quiet
    | Memory(header: Option<string>, stream: Option<string>)
    | Sock(code: SockCode)
    | Sent(code: SockCode, n: nat)
    | Received(code: SockCode, data: string)
    | Provided(data: string)
    | Taken(n: nat)

  predicate Suits(call: Call, reply: Reply) {
    match call
    case NoCall => reply.Quiet?
    case Allocate(h, s) =>
      && reply.Memory?
      && (reply.header.Some? ==> h && |reply.header.value| == HEADER_BUFF_SIZE)
      && (reply.stream.Some? ==> s && |reply.stream.value| == STREAM_BUFF_SIZE)
    case Dial => reply.Sock?
    case Shut(_, _) => reply.Sock?
    case Send(t) => reply.Sent? && reply.n <= |t| && (reply.code != SockOk ==> reply.n == 0)
    case Recv(max) => reply.Received? && |reply.data| <= max && (reply.code != SockOk ==> reply.data == "")
    case Read(max) => reply.Provided? && |reply.data| <= max
    case TellHeader(_) => reply.Taken?
    case Write(_) => reply.Taken?
  }

  /** The bytes that `khc_state_resp_body_parse_chunk_body` passes on. */
  function TargetSize(k: K): (n: int)
    ensures Valid(k) && k.phase.RespBodyParseChunkBody? ==> 0 <= n <= k.stream.len
  {
    if AsSize(k.resp.chunkSize) > k.stream.len + k.resp.chunkWritten then k.stream.len
    else k.resp.chunkSize - k.resp.chunkWritten
  }

  /** An over-long line of these headers is not skipped. */
  predicate RequiredHeader(line: string) {
    IsHeaderPresent("Content-Length", line) || IsHeaderPresent("Transfer-Encoding", line)
  }

  /** A trailing CR is kept when the rest of an over-long line is dropped. */
  function Kept(b: Buffer): (n: nat)
    requires 0 < b.len <= |b.bytes|
    ensures n <= 1
  {
    if b.bytes[b.len - 1] == '\r' then 1 else 0
  }

  function CallOf(k: K): Call
    requires Defined(k)
  {
    match k.phase
    case Idle =>
      if HasBuffers(k) then NoCall else Allocate(k.head.owner == Absent, k.stream.owner == Absent)
    case Connect => Dial
    case ReqBodySendSize => if |Hex(k.out.readSize)| + 2 > 15 then NoCall else Send(Unsent(k))
    case ReqLine | ReqHostHeader | ReqHeaderSend | ReqHeaderSendCrlf | ReqHeaderEnd | ReqBodySend | ReqBodySendCrlf =>
      Send(Unsent(k))
    case ReqBodyRead => Read(|k.stream.bytes|)
    case RespStatusRead => Recv(|k.head.bytes| - k.head.len - 1)
    case RespHeaderRead => Recv(|k.head.bytes| - k.head.len - 1)
    case RespHeaderCallback =>
      var b := FindCrlf(k.head.bytes);
      if b.None? || b.value == 0 then NoCall else TellHeader(k.head.bytes[..b.value])
    case RespHeaderSkip =>
      if RequiredHeader(k.head.Contents()) then NoCall else Recv(|k.head.bytes| - Kept(k.head) - 1)
    case RespBodyFragment => if k.head.len > 0 then Write(k.head.Contents()) else NoCall
    case RespBodyRead | RespBodyReadChunkBody | RespBodySkipTrailers => Recv(|k.stream.bytes|)
    case RespBodyCallback => Write(k.stream.Contents())
    case RespBodyReadChunkSize =>
      if k.stream.len >= |k.stream.bytes| then NoCall else Recv(|k.stream.bytes| - k.stream.len)
    case RespBodyParseChunkBody => Write(k.stream.bytes[..TargetSize(k)])
    case RespBodySkipChunkBodyCrlf => if k.stream.len < 2 then Recv(2 - k.stream.len) else NoCall
    case Close => Shut(k.head.owner == Library, k.stream.owner == Library)
    case ReqHeader | RespStatusParse | ReadChunkSizeFromHeaderBuff | ReadChunkBodyFromHeaderBuff
       | RespBodyParseChunkSize | Finished => NoCall
  }

  // ---------------------------------------------------------------------------------------------
  // The handlers

  /** The answer to a receive, where nothing special is done with a failure. */
  function OnRecv(k: K, code: SockCode, ok: K): K {
    match code
    case SockOk => ok
    case SockAgain => k
    case SockFail => k.Ends(SockRecv)
  }

  function Defaults(req: Request): Request {
    req.(host := if req.host == "" then "localhost" else req.host, verb := if req.verb == "" then "GET" else req.verb)
  }

  function StepIdle(k: K, header: Option<string>, stream: Option<string>): K {
    var k0 := k.(req := Defaults(k.req));
    if k.head.owner == Absent && header.None? then k0.(phase := Finished, result := Allocation)
    else
      var k1 := k0.(head := Provide(k.head, header));
      if k.stream.owner == Absent && stream.None? then k1.(phase := Finished, result := Allocation)
      else k1.(stream := Provide(k.stream, stream), phase := Connect)
  }

  function StepConnect(k: K, code: SockCode): K {
    match code
    case SockOk => k.(out := k.out.(sent := 0), phase := ReqLine)
    case SockAgain => k
    case SockFail => k.(phase := Finished, result := SockConnect)
  }

  /** What a sending phase goes on to when all of its text has been accepted. */
  function AfterSending(k: K): K {
    match k.phase
    case ReqLine => k.Go(ReqHostHeader)
    case ReqHostHeader => k.(phase := ReqHeader, out := k.out.(cur := 0))
    case ReqHeaderSend => k.Go(ReqHeaderSendCrlf)
    case ReqHeaderSendCrlf => k.(phase := ReqHeader, out := k.out.(cur := k.out.cur + 1))
    case ReqHeaderEnd =>
      var k1 := k.(out := k.out.(readEnd := false));
      if k.req.hasRead then k1.Go(ReqBodyRead) else k1.(phase := RespStatusRead, head := k.head.(len := 0))
    case ReqBodySendSize => k.Go(if k.out.readEnd then ReqBodySendCrlf else ReqBodySend)
    case ReqBodySend => k.Go(ReqBodySendCrlf)
    case _ => if k.out.readEnd then k.(phase := RespStatusRead, head := k.head.(len := 0)) else k.Go(ReqBodyRead)
  }

  function StepSend(k: K, code: SockCode, n: nat): K {
    if k.phase.ReqBodySendSize? && |Hex(k.out.readSize)| + 2 > 15 then k.Ends(TooLargeData)
    else
      match code
      case SockOk =>
        if n < |Unsent(k)| then k.(out := k.out.(sent := k.out.sent + n))
        else AfterSending(k.(out := k.out.(sent := 0)))
      case SockAgain => k
      case SockFail => k.Ends(SockSend)
  }

  function StepReqHeader(k: K): K {
    if k.out.cur >= |k.req.headers| then k.Go(ReqHeaderEnd)
    else if CurrentHeader(k) == "" then k.(out := k.out.(cur := k.out.cur + 1))
    else k.Go(ReqHeaderSend)
  }

  function StepBodyRead(k: K, data: string): K
    requires |data| <= |k.stream.bytes|
  {
    k.(stream := Put(k.stream, 0, data).(len := k.stream.len),
       out := k.out.(readSize := |data|, readEnd := data == "" || k.out.readEnd),
       phase := ReqBodySendSize)
  }

  /** Bytes received into the header buffer behind its first `keep`. */
  function HeaderReceived(k: K, keep: nat, data: string): K
    requires keep + |data| < |k.head.bytes|
  {
    k.(head := PutZ(k.head, keep, data), resp := k.resp.(readEnd := data == "" || k.resp.readEnd))
  }

  function StepStatusRead(k: K, code: SockCode, data: string): K
    requires k.head.len + |data| < |k.head.bytes|
  {
    var k1 := HeaderReceived(k, k.head.len, data);
    OnRecv(k, code, if FindCrlf(k1.head.bytes).None? then k1.Ends(TooLargeData) else k1.Go(RespStatusParse))
  }

  predicate IsDigit(c: char) { '0' <= c <= '9' }

  /** The three digits behind `HTTP/d.d `, or None. */
  function StatusDigits(s: string): Option<nat> {
    if |s| >= 12 && IsDigit(s[9]) && IsDigit(s[10]) && IsDigit(s[11]) then
      Some((s[9] as int - 48) * 100 + (s[10] as int - 48) * 10 + (s[11] as int - 48))
    else None
  }

  function StepStatusParse(k: K): K {
    match StatusDigits(k.head.bytes)
    case None => k.Ends(Fail)
    case Some(n) => k.(resp := k.resp.(status := n), phase := RespHeaderCallback)
  }

  /** A line end stands at `n` in the header buffer, and the callback has taken `taken` bytes. */
  function HeaderLine(k: K, n: nat, taken: nat): K
    requires n + 2 <= k.head.len < |k.head.bytes|
  {
    var k1 := k.(head := DropZ(k.head, n + 2));
    if n > 0 then
      if taken != n then k.Ends(HeaderCallback)
      else k1.(resp := k.resp.(chunked := k.resp.chunked || IsChunkedEncoding(k.head.bytes[..n])))
    else if 100 <= k.resp.status < 200 then k1.Go(RespStatusRead)
    else if k.resp.chunked then k1.(stream := k.stream.(len := 0), phase := RespBodyParseChunkSize)
    else k1.Go(RespBodyFragment)
  }

  function StepHeaderCallback(k: K, taken: nat): K
    requires k.head.len < |k.head.bytes| && k.head.bytes[k.head.len] == NUL
  {
    BeforeNul(k.head.bytes, k.head.len);
    match FindCrlf(k.head.bytes)
    case None => k.Go(if |k.head.bytes| == k.head.len + 1 then RespHeaderSkip else RespHeaderRead)
    case Some(n) => HeaderLine(k, n, taken)
  }

  function StepHeaderRead(k: K, code: SockCode, data: string): K
    requires k.head.len + |data| < |k.head.bytes|
  {
    OnRecv(k, code, HeaderReceived(k, k.head.len, data).Go(RespHeaderCallback))
  }

  /** The header buffer of an over-long line with all but a trailing CR dropped. */
  function Skipped(b: Buffer): (r: Buffer)
    requires 0 < b.len < |b.bytes|
    ensures |r.bytes| == |b.bytes| && r.len == Kept(b) && r.owner == b.owner
  {
    if Kept(b) == 1 then Put(b, 0, "\r") else b.(len := 0)
  }

  function StepHeaderSkip(k: K, code: SockCode, data: string): K
    requires 0 < k.head.len < |k.head.bytes| && Kept(k.head) + |data| < |k.head.bytes|
  {
    if RequiredHeader(k.head.Contents()) then k.Ends(HeaderCallback)
    else
      var k0 := k.(head := Skipped(k.head));
      var k1 := HeaderReceived(k0, k0.head.len, data);
      BeforeNul(k1.head.bytes, k1.head.len);
      var k2 := match FindCrlf(k1.head.bytes)
                case None => k1
                case Some(n) => k1.(head := DropZ(k1.head, n + 2), phase := RespHeaderCallback);
      OnRecv(k0, code, k2)
  }

  function StepFragment(k: K, taken: nat): K {
    if k.head.len > 0 && taken != k.head.len then k.Ends(WriteCallback)
    else k.Go(if k.resp.readEnd then Close else RespBodyRead)
  }

  /** `_move_resp_header_to_stream`, then `next`; an error when the stream buffer is full. */
  function StepMoveHeader(k: K, next: Phase): K
    requires k.head.len < |k.head.bytes| && k.stream.len <= |k.stream.bytes|
  {
    var remain := |k.stream.bytes| - k.stream.len;
    if remain <= 0 then k.Ends(TooLargeData)
    else
      var n := if remain > k.head.len then k.head.len else remain;
      k.(stream := Put(k.stream, k.stream.len, k.head.bytes[..n]), head := DropZ(k.head, n), phase := next)
  }

  function StepBodyRecv(k: K, code: SockCode, data: string): K
    requires |data| <= |k.stream.bytes|
  {
    var k1 := k.(stream := Put(k.stream, 0, data));
    OnRecv(k, code, if data == "" then k1.(resp := k.resp.(readEnd := true), phase := Close) else k1.Go(RespBodyCallback))
  }

  function StepBodyCallback(k: K, taken: nat): K {
    if taken < k.stream.len then k.Ends(WriteCallback) else k.Go(if k.resp.readEnd then Close else RespBodyRead)
  }

  function StepParseSize(k: K): K
    requires SizeLineOk(k.stream)
  {
    if HasCrlf(k.stream.Contents()) then
      var size := StrToL16(k.stream.bytes);
      k.(stream := Drop(k.stream, FindCrlf(k.stream.bytes).value + 2),
         resp := k.resp.(chunkSize := size, chunkWritten := 0),
         phase := if size != 0 then RespBodyParseChunkBody else RespBodySkipTrailers)
    else k.Go(if k.head.len > 0 then ReadChunkSizeFromHeaderBuff else RespBodyReadChunkSize)
  }

  function StepReadSize(k: K, code: SockCode, data: string): K
    requires k.stream.len < |k.stream.bytes| ==> k.stream.len + |data| <= |k.stream.bytes|
  {
    if k.stream.len >= |k.stream.bytes| then k.Ends(TooLargeData)
    else
      var k1 := k.(stream := Put(k.stream, k.stream.len, data));
      OnRecv(k, code, if data == "" then k1.Ends(Fail) else k1.Go(RespBodyParseChunkSize))
  }

  function StepParseBody(k: K, taken: nat): K
    requires Valid(k) && k.phase.RespBodyParseChunkBody?
  {
    var n := TargetSize(k);
    if taken < n then k.Ends(WriteCallback)
    else
      var k1 := k.(resp := k.resp.(chunkWritten := k.resp.chunkWritten + n));
      if k.resp.chunkSize <= k1.resp.chunkWritten then
        k1.(stream := Drop(k.stream, n), phase := RespBodySkipChunkBodyCrlf)
      else if k.head.len > 0 then k1.(stream := k.stream.(len := 0), phase := ReadChunkBodyFromHeaderBuff)
      else k1.Go(RespBodyReadChunkBody)
  }

  function StepReadBody(k: K, code: SockCode, data: string): K
    requires |data| <= |k.stream.bytes|
  {
    var b := Put(k.stream, 0, data);
    OnRecv(k, code, if data == "" then k.(stream := b.(len := k.stream.len)).Ends(Fail)
                    else k.(stream := b, phase := RespBodyParseChunkBody))
  }

  function StepSkipCrlf(k: K, code: SockCode, data: string): K
    requires k.stream.len <= |k.stream.bytes|
  {
    if k.stream.len >= 2 then k.(stream := Drop(k.stream, 2), phase := RespBodyParseChunkSize)
    else OnRecv(k, code, if data == "" then k.Ends(Fail)
                         else k.(stream := k.stream.(len := 0), phase := RespBodyParseChunkSize))
  }

  function StepSkipTrailers(k: K, code: SockCode, data: string): K
    requires |data| <= |k.stream.bytes|
  {
    OnRecv(k, code, k.(stream := Put(k.stream, 0, data).(len := k.stream.len),
                       phase := if data == "" then Close else RespBodySkipTrailers))
  }

  /** The client's own buffers are freed before the socket is closed. */
  function StepClose(k: K, code: SockCode): K {
    var k1 := k.(stream := Free(k.stream), head := Free(k.head));
    match code
    case SockOk => k1.Go(Finished)
    case SockAgain => k1
    case SockFail => k1.(phase := Finished, result := SockClose)
  }

  function StepHeader(k: K, r: Reply): K
    requires Defined(k) && HeaderPhase(k.phase) && Suits(CallOf(k), r)
  {
    match k.phase
    case RespStatusRead => StepStatusRead(k, r.code, r.data)
    case RespStatusParse => StepStatusParse(k)
    case RespHeaderCallback => StepHeaderCallback(k, if r.Taken? then r.n else 0)
    case RespHeaderRead => StepHeaderRead(k, r.code, r.data)
    case RespHeaderSkip => if r.Received? then StepHeaderSkip(k, r.code, r.data) else k.Ends(HeaderCallback)
  }

  function StepChunk(k: K, r: Reply): K
    requires Defined(k) && ChunkPhase(k.phase) && Suits(CallOf(k), r)
  {
    match k.phase
    case ReadChunkSizeFromHeaderBuff => StepMoveHeader(k, RespBodyParseChunkSize)
    case ReadChunkBodyFromHeaderBuff => StepMoveHeader(k, RespBodyParseChunkBody)
    case RespBodyParseChunkSize => StepParseSize(k)
    case RespBodyReadChunkSize => if r.Received? then StepReadSize(k, r.code, r.data) else k.Ends(TooLargeData)
    case RespBodyParseChunkBody => StepParseBody(k, r.n)
    case RespBodyReadChunkBody => StepReadBody(k, r.code, r.data)
    case RespBodySkipChunkBodyCrlf =>
      if r.Received? then StepSkipCrlf(k, r.code, r.data) else StepSkipCrlf(k, SockOk, "")
  }

  function StepPlain(k: K, r: Reply): K
    requires Defined(k) && !Sending(k.phase) && !HeaderPhase(k.phase) && !ChunkPhase(k.phase) && Suits(CallOf(k), r)
  {
    match k.phase
    case Idle => if r.Memory? then StepIdle(k, r.header, r.stream) else StepIdle(k, None, None)
    case Connect => StepConnect(k, r.code)
    case ReqHeader => StepReqHeader(k)
    case ReqBodyRead => StepBodyRead(k, r.data)
    case RespBodyFragment => StepFragment(k, if r.Taken? then r.n else 0)
    case RespBodyRead => StepBodyRecv(k, r.code, r.data)
    case RespBodyCallback => StepBodyCallback(k, r.n)
    case RespBodySkipTrailers => StepSkipTrailers(k, r.code, r.data)
    case Close => StepClose(k, r.code)
    case Finished => k
  }

  /** The handler of the current state, given the answer to its call. */
  function Step(k: K, r: Reply): K
    requires Defined(k) && Suits(CallOf(k), r)
  {
    if Sending(k.phase) then if r.Sent? then StepSend(k, r.code, r.n) else StepSend(k, SockFail, 0)
    else if HeaderPhase(k.phase) then StepHeader(k, r)
    else if ChunkPhase(k.phase) then StepChunk(k, r)
    else StepPlain(k, r)
  }
}
