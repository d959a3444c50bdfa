/** What a run's result means, and how the socket and the buffers are used in it. */
module KhcSuccess {
  import opened Text
  import opened KhcText
  import opened KhcMachine
  import opened KhcRun
  import opened KhcSend
  import opened KhcResponse

  // ---------------------------------------------------------------------------------------------
  // Success

  predicate Over(p: Phase) { p.Close? || p.Finished? }

  predicate Failed(k: K) { Over(k.phase) && k.result != Ok }

  predicate ChunkedPhase(p: Phase) { ChunkPhase(p) || p.RespBodySkipTrailers? }

  /** The header is over. */
  predicate PastHeader(k: K) { ChunkedPhase(k.phase) || PlainPhase(k.phase) || Over(k.phase) }

  /** The chunk of size 0 has been read. */
  predicate PastZero(k: K) { k.phase.RespBodySkipTrailers? || (Over(k.phase) && k.result == Ok && k.resp.chunked) }

  /** At the blank line that ends the header of a response that is not informational. */
  predicate EndsHeader(k: K) {
    k.phase.RespHeaderCallback? && FindCrlf(k.head.bytes) == Some(0) && !(100 <= k.resp.status < 200)
  }

  /** At a complete size line of value 0. */
  predicate ReadsZeroSize(k: K) {
    k.phase.RespBodyParseChunkSize? && k.stream.len <= |k.stream.bytes| && HasCrlf(k.stream.Contents())
    && StrToL16(k.stream.bytes) == 0
  }

  predicate OutcomeOk(k: K) {
    && (k.result != Ok ==> Failed(k))
    && (PlainPhase(k.phase) ==> !k.resp.chunked) && (ChunkedPhase(k.phase) ==> k.resp.chunked)
  }

  /** What a step from `k` to `k1` does to all this. */
  predicate Leads(k: K, k1: K) {
    && OutcomeOk(k1)
    && (Failed(k) ==> Failed(k1))
    && (PastHeader(k) ==> PastHeader(k1) && k1.resp.chunked == k.resp.chunked)
    && (PastHeader(k1) && !PastHeader(k) ==> Failed(k1) || EndsHeader(k))
    && (PastZero(k1) && !PastZero(k) ==> ReadsZeroSize(k))
  }

  lemma SendLeads(k: K, code: SockCode, n: nat)
    requires OutcomeOk(k) && Sending(k.phase)
    ensures Leads(k, StepSend(k, code, n))
  {
    hide Unsent, Hex, FindCrlf, HasCrlf, StrToL16;
  }

  lemma CallbackLeads(k: K, taken: nat)
    requires OutcomeOk(k) && Valid(k) && k.phase.RespHeaderCallback?
    ensures Leads(k, StepHeaderCallback(k, taken))
  {
    hide DropZ, FindCrlf, IsChunkedEncoding, HasCrlf, StrToL16;
  }

  lemma HeaderLeads(k: K, r: Reply)
    requires OutcomeOk(k) && Defined(k) && Suits(CallOf(k), r) && HeaderPhase(k.phase)
    ensures Leads(k, StepHeader(k, r))
  {
    hide Skipped, PutZ, DropZ, Put, FindCrlf, RequiredHeader, StatusDigits, IsChunkedEncoding, HasCrlf, StrToL16,
         StepHeaderCallback, SizeLineOk, StatusInside, Hex, PhaseText, TargetSize;
    if k.phase.RespHeaderCallback? { CallbackLeads(k, if r.Taken? then r.n else 0); }
  }

  lemma ChunkLeads(k: K, r: Reply)
    requires OutcomeOk(k) && Defined(k) && Suits(CallOf(k), r) && ChunkPhase(k.phase)
    ensures Leads(k, StepChunk(k, r))
  {
    hide Put, Drop, DropZ, FindCrlf, HasCrlf, StrToL16, TargetSize;
  }

  lemma PlainLeads(k: K, r: Reply)
    requires OutcomeOk(k) && Defined(k) && Suits(CallOf(k), r)
    requires !Sending(k.phase) && !HeaderPhase(k.phase) && !ChunkPhase(k.phase)
    ensures Leads(k, StepPlain(k, r))
  {
    hide Put, CurrentHeader, Provide, FindCrlf, HasCrlf, StrToL16, SizeLineOk;
  }

  lemma StepLeads(k: K, r: Reply)
    requires OutcomeOk(k) && Defined(k) && Suits(CallOf(k), r)
    ensures Leads(k, Step(k, r))
  {
    hide OutcomeOk, Leads, CallOf, Suits, Defined;
    if Sending(k.phase) {
      if r.Sent? { SendLeads(k, r.code, r.n); } else { SendLeads(k, SockFail, 0); }
    } else if HeaderPhase(k.phase) { HeaderLeads(k, r); }
    else if ChunkPhase(k.phase) { ChunkLeads(k, r); }
    else { PlainLeads(k, r); }
  }

  /** A callback that takes less than it is given ends the run with an error. */
  lemma RefusalFails(c: C, r: Reply)
    requires CanStep(c, r) && OutcomeOk(c.k) && (c.w.refused ==> Failed(c.k))
    ensures Next(c, r).w.refused ==> Failed(Next(c, r).k)
  {
    StepLeads(c.k, r);
    if Next(c, r).w.refused && !c.w.refused {
      NewRefusal(c, r);
    }
  }

  lemma NewRefusal(c: C, r: Reply)
    requires CanStep(c, r) && Next(c, r).w.refused && !c.w.refused
    ensures Failed(Next(c, r).k)
  {
    hide Put, Drop, PutZ, DropZ, FindCrlf, Hex, PhaseText, SizeLineOk, IsChunkedEncoding, RequiredHeader, StatusDigits;
  }

  ghost predicate SawBlankLine(c: C, rs: seq<Reply>)
    requires Runs(c, rs)
    decreases |rs|
  {
    rs != [] && (EndsHeader(c.k) || SawBlankLine(Next(c, rs[0]), rs[1..]))
  }

  ghost predicate SawZeroSize(c: C, rs: seq<Reply>)
    requires Runs(c, rs)
    decreases |rs|
  {
    rs != [] && (ReadsZeroSize(c.k) || SawZeroSize(Next(c, rs[0]), rs[1..]))
  }

  lemma {:induction false} RunLeads(c: C, rs: seq<Reply>)
    requires OutcomeOk(c.k) && (c.w.refused ==> Failed(c.k)) && Runs(c, rs)
    ensures var d := After(c, rs);
            && OutcomeOk(d.k) && (d.w.refused ==> Failed(d.k)) && (Failed(c.k) ==> Failed(d.k))
            && (PastHeader(d.k) && !Failed(d.k) ==> PastHeader(c.k) || SawBlankLine(c, rs))
            && (PastZero(d.k) ==> PastZero(c.k) || SawZeroSize(c, rs))
    decreases |rs|
  {
    hide OutcomeOk, PastHeader, PastZero, EndsHeader, ReadsZeroSize, Failed, Step, Advance, CanStep;
    if rs != [] {
      var d := Next(c, rs[0]);
      RefusalFails(c, rs[0]);
      assert Leads(c.k, d.k) by { CanStepMeans(c, rs[0]); StepLeads(c.k, rs[0]); }
      RunLeads(d, rs[1..]);
    }
  }

  /** `khc_perform` returns KHC_ERR_OK only if the whole request has been accepted, the header of a
      response that is not informational has ended, every header line and every piece of the body
      has been taken by its callback, and, of a chunked body, the chunk of size 0 has been read. */
  lemma SuccessMeans(c: C, rs: seq<Reply>)
    requires Fresh(c) && |c.k.stream.bytes| < PIECE_LIMIT && Runs(c, rs)
    requires var d := After(c, rs); d.k.phase.Finished? && d.k.result == Ok
    ensures var d := After(c, rs);
            && d.w.wire == FullText(Defaults(c.k.req), d.w.pieces)
            && SawBlankLine(c, rs) && !d.w.refused
            && (d.k.resp.chunked ==> SawZeroSize(c, rs))
  {
    hide FullText, SawBlankLine, SawZeroSize, After;
    RunLeads(c, rs);
    WireIsRequest(c, rs);
  }

  // ---------------------------------------------------------------------------------------------
  // The socket and the buffers

  /** How many buffers the client has to free. */
  function Held(k: K): nat {
    (if k.head.owner == Library then 1 else 0) + if k.stream.owner == Library then 1 else 0
  }

  predicate LinkInv(c: C) {
    match c.k.phase
    case Idle | Connect => c.w.link == Unopened
    case Close => c.w.link == Open || (c.w.link == Shutting && Held(c.k) == 0)
    case Finished =>
      (c.w.link == Shutting && Held(c.k) == 0)
        || (c.w.link == Unopened && (c.k.result == Allocation || c.k.result == SockConnect))
    case _ => c.w.link == Open
  }

  /** Connecting comes first, sending and receiving while the connection is open, closing last. */
  predicate Permitted(link: Link, call: Call) {
    match call
    case Dial => link == Unopened
    case Send(_) => link == Open
    case Recv(_) => link == Open
    case Shut(_, _) => link != Unopened
    case _ => true
  }

  predicate Talking(p: Phase) { !p.Idle? && !p.Connect? && !Over(p) }

  lemma SendTalks(k: K, code: SockCode, n: nat)
    requires Sending(k.phase)
    ensures Talking(StepSend(k, code, n).phase) || StepSend(k, code, n).phase.Close?
  {
    hide Unsent, Hex;
  }

  /** From the connection to the close, the phases stay between them. */
  lemma StepTalks(k: K, r: Reply)
    requires Defined(k) && Suits(CallOf(k), r) && Talking(k.phase)
    ensures Talking(Step(k, r).phase) || Step(k, r).phase.Close?
  {
    hide StepHeader, StepChunk, StepSend, CurrentHeader, Put, SizeLineOk;
    if Sending(k.phase) {
      if r.Sent? { SendTalks(k, r.code, r.n); } else { SendTalks(k, SockFail, 0); }
    } else if HeaderPhase(k.phase) { HeaderTalks(k, r); }
    else if ChunkPhase(k.phase) { ChunkTalks(k, r); }
  }

  lemma HeaderTalks(k: K, r: Reply)
    requires Defined(k) && Suits(CallOf(k), r) && HeaderPhase(k.phase)
    ensures Talking(StepHeader(k, r).phase) || StepHeader(k, r).phase.Close?
  {
    hide PutZ, DropZ, Put, FindCrlf, RequiredHeader, StatusDigits, IsChunkedEncoding, SizeLineOk;
  }

  lemma ChunkTalks(k: K, r: Reply)
    requires Defined(k) && Suits(CallOf(k), r) && ChunkPhase(k.phase)
    ensures Talking(StepChunk(k, r).phase) || StepChunk(k, r).phase.Close?
  {
    hide Put, Drop, DropZ, FindCrlf, HasCrlf, StrToL16, TargetSize;
  }

  /** A state's call fits what has happened to the socket. */
  lemma CallPermitted(c: C)
    requires LinkInv(c) && Defined(c.k)
    ensures Permitted(c.w.link, CallOf(c.k))
  {
    hide Hex, Unsent, FindCrlf, RequiredHeader, TargetSize, SizeLineOk;
  }

  lemma TalkingLink(c: C, r: Reply)
    requires LinkInv(c) && CanStep(c, r) && Talking(c.k.phase)
    ensures LinkInv(Next(c, r))
  {
    hide Step, SizeLineOk, Unsent, Hex, FindCrlf, RequiredHeader, TargetSize;
    StepTalks(c.k, r);
  }

  lemma EdgeLink(c: C, r: Reply)
    requires LinkInv(c) && CanStep(c, r) && !Talking(c.k.phase)
    ensures LinkInv(Next(c, r))
  {
    hide SizeLineOk, Defaults;
  }

  /** Each buffer has been freed as often as it has been allocated, but for one that is still held; and
      each has been allocated once at most. */
  predicate HeapInv(c: C) {
    var h := c.w.heap;
    && h.headNew == h.headFree + (if c.k.head.owner == Library then 1 else 0)
    && h.streamNew == h.streamFree + (if c.k.stream.owner == Library then 1 else 0)
    && (c.k.phase.Idle? ==> h.headNew == 0 && h.streamNew == 0)
    && h.headNew <= 1 && h.streamNew <= 1
  }

  lemma HeaderKeepsOwners(k: K, r: Reply)
    requires Defined(k) && Suits(CallOf(k), r) && HeaderPhase(k.phase)
    ensures Step(k, r).head.owner == k.head.owner && Step(k, r).stream.owner == k.stream.owner
  {
    hide PutZ, DropZ, Put, FindCrlf, RequiredHeader, StatusDigits, IsChunkedEncoding, SizeLineOk;
  }

  lemma ChunkKeepsOwners(k: K, r: Reply)
    requires Defined(k) && Suits(CallOf(k), r) && ChunkPhase(k.phase)
    ensures Step(k, r).head.owner == k.head.owner && Step(k, r).stream.owner == k.stream.owner
  {
    hide Put, Drop, DropZ, FindCrlf, HasCrlf, StrToL16, TargetSize;
  }

  lemma SendKeepsOwners(k: K, r: Reply)
    requires Defined(k) && Suits(CallOf(k), r) && Sending(k.phase)
    ensures Step(k, r).head.owner == k.head.owner && Step(k, r).stream.owner == k.stream.owner
  {
    hide Unsent, Hex;
  }

  /** Only at the start and at the end do buffers change hands. */
  lemma OwnersKept(k: K, r: Reply)
    requires Defined(k) && Suits(CallOf(k), r) && Talking(k.phase)
    ensures Step(k, r).head.owner == k.head.owner && Step(k, r).stream.owner == k.stream.owner
  {
    hide CurrentHeader, Put, SizeLineOk, StepSend, StepHeader, StepChunk;
    if Sending(k.phase) { SendKeepsOwners(k, r); }
    else if HeaderPhase(k.phase) { HeaderKeepsOwners(k, r); }
    else if ChunkPhase(k.phase) { ChunkKeepsOwners(k, r); }
  }

  lemma TalkingHeap(c: C, r: Reply)
    requires HeapInv(c) && CanStep(c, r) && Talking(c.k.phase)
    ensures HeapInv(Next(c, r))
  {
    hide Step, SizeLineOk, Unsent, Hex, FindCrlf, RequiredHeader, TargetSize;
    OwnersKept(c.k, r);
    StepTalks(c.k, r);
  }

  lemma EdgeHeap(c: C, r: Reply)
    requires HeapInv(c) && CanStep(c, r) && !Talking(c.k.phase)
    ensures HeapInv(Next(c, r))
  {
    hide SizeLineOk, Defaults;
  }

  lemma {:induction false} LinkRun(c: C, rs: seq<Reply>)
    requires LinkInv(c) && HeapInv(c) && Runs(c, rs)
    ensures LinkInv(After(c, rs)) && HeapInv(After(c, rs))
    decreases |rs|
  {
    hide LinkInv, HeapInv, Step, Advance, CallOf;
    if rs != [] {
      if Talking(c.k.phase) {
        TalkingLink(c, rs[0]);
        TalkingHeap(c, rs[0]);
      } else {
        EdgeLink(c, rs[0]);
        EdgeHeap(c, rs[0]);
      }
      LinkRun(Next(c, rs[0]), rs[1..]);
    }
  }

  /** In every state of every run: there is at most one connection, nothing is sent or received
      before it is opened or after closing has begun, and closing is the last call to the socket,
      however often it has to be repeated.  Each buffer is allocated once at most and never freed more
      often than that; in a run that has connected, each that was allocated has been freed once by the
      end, and the connection is closed. */
  lemma SocketDiscipline(c: C, rs: seq<Reply>)
    requires Fresh(c) && Runs(c, rs)
    ensures var d := After(c, rs);
            var h := d.w.heap;
            && (Defined(d.k) ==> Permitted(d.w.link, CallOf(d.k)))
            && h.headFree <= h.headNew <= 1 && h.streamFree <= h.streamNew <= 1
            && (d.k.phase.Finished? && d.w.link != Unopened ==>
                  d.w.link == Shutting && h.headFree == h.headNew && h.streamFree == h.streamNew)
  {
    hide LinkInv, CallOf, Permitted, Runs, After;
    assert LinkInv(c) && HeapInv(c) by { FreshLink(c); }
    LinkRun(c, rs);
    var d := After(c, rs);
    if Defined(d.k) { CallPermitted(d); }
    LinkAtEnd(d);
  }

  lemma FreshLink(c: C)
    requires Fresh(c)
    ensures LinkInv(c) && HeapInv(c)
  {
  }

  lemma LinkAtEnd(c: C)
    requires LinkInv(c)
    ensures c.k.phase.Finished? && c.w.link != Unopened ==> c.w.link == Shutting && Held(c.k) == 0
  {
  }
}
