/** Why a run fails: the causes of each error code, and that there are no others. */
module KhcBlame {
  import opened Text
  import opened KhcText
  import opened KhcMachine
  import opened KhcRun

  /** What goes wrong with a receive: it fails, or what comes is not enough. */
  function BlameRecv(k: K, code: SockCode, data: string): Option<Code> {
    match code
    case SockFail => Some(SockRecv)
    case SockAgain => None
    case SockOk =>
      if k.phase.RespStatusRead? then
        if k.head.len <= |k.head.bytes| && FindCrlf(k.head.Contents() + data).None? then Some(TooLargeData) else None
      else if data == "" && (k.phase.RespBodyReadChunkSize? || k.phase.RespBodyReadChunkBody?
                             || k.phase.RespBodySkipChunkBodyCrlf?) then Some(Fail)
      else None
  }

  /** What goes wrong without a call: an over-long line that is being skipped and at the start of what is
      buffered looks as if it announced how the body is framed, a status line without a status, a piece of the
      body too large for its size line, a full stream buffer. */
  function BlameQuiet(k: K): Option<Code> {
    match k.phase
    case RespHeaderSkip => Some(HeaderCallback)
    case RespStatusParse => if StatusDigits(k.head.bytes).None? then Some(Fail) else None
    case ReqBodySendSize => Some(TooLargeData)
    case RespBodyReadChunkSize => Some(TooLargeData)
    case ReadChunkSizeFromHeaderBuff | ReadChunkBodyFromHeaderBuff =>
      if k.stream.len >= |k.stream.bytes| then Some(TooLargeData) else None
    case _ => None
  }

  /** The error that this answer causes in this state, if any. */
  function Blame(k: K, r: Reply): Option<Code>
    requires Defined(k) && Suits(CallOf(k), r)
  {
    match CallOf(k)
    case Allocate(h, s) => if (h && r.header.None?) || (s && r.stream.None?) then Some(Allocation) else None
    case Dial => if r.code == SockFail then Some(SockConnect) else None
    case Send(_) => if r.code == SockFail then Some(SockSend) else None
    case Recv(_) => BlameRecv(k, r.code, r.data)
    case Read(_) => None
    case TellHeader(line) => if r.n != |line| then Some(HeaderCallback) else None
    case Write(data) =>
      if r.n < |data| || (k.phase.RespBodyFragment? && r.n != |data|) then Some(WriteCallback) else None
    case Shut(_, _) => if r.code == SockFail then Some(SockClose) else None
    case NoCall => BlameQuiet(k)
  }

  lemma BlameSending(k: K, r: Reply)
    requires Defined(k) && Suits(CallOf(k), r) && Sending(k.phase)
    ensures Step(k, r).result == if Blame(k, r).Some? then Blame(k, r).value else k.result
  {
    hide Unsent, Hex, StatusDigits, FindCrlf;
  }

  /** A status line is looked for in what is buffered. */
  lemma StatusLineEnd(k: K, data: string)
    requires k.head.len + |data| < |k.head.bytes|
    ensures FindCrlf(HeaderReceived(k, k.head.len, data).head.bytes) == FindCrlf(k.head.Contents() + data)
  {
    var b := HeaderReceived(k, k.head.len, data).head;
    ContentsPutZ(k.head, k.head.len, data);
    CrlfBeforeNul(b.bytes, b.len);
  }

  lemma BlameHeader(k: K, r: Reply)
    requires Defined(k) && Suits(CallOf(k), r) && HeaderPhase(k.phase)
    ensures Step(k, r).result == if Blame(k, r).Some? then Blame(k, r).value else k.result
  {
    hide PutZ, DropZ, Put, FindCrlf, RequiredHeader, StatusDigits, IsChunkedEncoding, SizeLineOk;
    if k.phase.RespStatusRead? { StatusLineEnd(k, r.data); }
  }

  lemma BlameQuietChunk(k: K)
    requires Defined(k)
    requires k.phase.ReadChunkSizeFromHeaderBuff? || k.phase.ReadChunkBodyFromHeaderBuff? || k.phase.RespBodyParseChunkSize?
    ensures StepChunk(k, Quiet).result == if Blame(k, Quiet).Some? then Blame(k, Quiet).value else k.result
  {
    hide Put, Drop, DropZ, FindCrlf, HasCrlf, StrToL16, StrToLStops, StatusDigits;
  }

  lemma BlameChunk(k: K, r: Reply)
    requires Defined(k) && Suits(CallOf(k), r) && ChunkPhase(k.phase)
    ensures Step(k, r).result == if Blame(k, r).Some? then Blame(k, r).value else k.result
  {
    hide Put, Drop, SizeLineOk, StepParseSize, StepMoveHeader, FindCrlf, StatusDigits, RequiredHeader, Hex, Unsent;
    if k.phase.ReadChunkSizeFromHeaderBuff? || k.phase.ReadChunkBodyFromHeaderBuff? || k.phase.RespBodyParseChunkSize? {
      BlameQuietChunk(k);
    }
  }

  lemma BlamePlain(k: K, r: Reply)
    requires Defined(k) && Suits(CallOf(k), r) && !Sending(k.phase) && !HeaderPhase(k.phase) && !ChunkPhase(k.phase)
    ensures Step(k, r).result == if Blame(k, r).Some? then Blame(k, r).value else k.result
  {
    hide Put, CurrentHeader, SizeLineOk, FindCrlf, StatusDigits;
  }

  /** A step changes the result exactly when there is a cause for it, and then to that error. */
  lemma StepBlame(k: K, r: Reply)
    requires Defined(k) && Suits(CallOf(k), r)
    ensures Step(k, r).result == if Blame(k, r).Some? then Blame(k, r).value else k.result
  {
    hide Step, CallOf, Suits, Blame, Defined;
    if Sending(k.phase) { BlameSending(k, r); }
    else if HeaderPhase(k.phase) { BlameHeader(k, r); }
    else if ChunkPhase(k.phase) { BlameChunk(k, r); }
    else { BlamePlain(k, r); }
  }

  /** The causes in a run, in order. */
  function Blames(c: C, rs: seq<Reply>): seq<Code>
    requires Runs(c, rs)
    decreases |rs|
  {
    if rs == [] then []
    else (if Blame(c.k, rs[0]).Some? then [Blame(c.k, rs[0]).value] else []) + Blames(Next(c, rs[0]), rs[1..])
  }

  /** The result of a run is the last of its causes; without any, it is what it was. */
  lemma {:induction false} ResultIsLastBlame(c: C, rs: seq<Reply>)
    requires Runs(c, rs)
    ensures var bs := Blames(c, rs);
            After(c, rs).k.result == if bs == [] then c.k.result else bs[|bs| - 1]
    decreases |rs|
  {
    hide Step, Advance, Blame, CallOf, Defined;
    if rs != [] {
      StepBlame(c.k, rs[0]);
      ResultIsLastBlame(Next(c, rs[0]), rs[1..]);
    }
  }

  /** No cause is success. */
  lemma {:induction false} BlamesFail(c: C, rs: seq<Reply>)
    requires Runs(c, rs)
    ensures Ok !in Blames(c, rs)
    decreases |rs|
  {
    hide Step, Advance, CallOf, Defined;
    if rs != [] { BlamesFail(Next(c, rs[0]), rs[1..]); }
  }
}
