/** What a response comes to in a run from the start. */
module KhcDelivery {
  import opened Text
  import opened KhcText
  import opened KhcMachine
  import opened KhcRun
  import opened KhcBlame
  import opened KhcSend
  import opened KhcHeaders
  import opened KhcChunk
  import opened KhcResponse

  /** The response that the server of a fresh client will send suits the client's buffers. */
  ghost predicate Promises(c: C, e: Expected) {
    && Expect(c.w.inbox, SizeOfBuffer(c.k.head, HEADER_BUFF_SIZE), SizeOfBuffer(c.k.stream, STREAM_BUFF_SIZE)) == Some(e)
    && (AnyChunked(e.lines) ==>
          RoomForRest(SizeOfBuffer(c.k.head, HEADER_BUFF_SIZE), SizeOfBuffer(c.k.stream, STREAM_BUFF_SIZE)))
    && SizeOfBuffer(c.k.stream, STREAM_BUFF_SIZE) > 0
  }

  lemma FreshIsBefore(c: C, e: Expected)
    requires Fresh(c) && Promises(c, e)
    ensures RespInv(c, e)
  {
    hide Expect, RoomForRest;
  }

  /** What has been told and written so far is the beginning of what is expected. */
  lemma SoFar(c: C, e: Expected)
    requires RespInv(c, e)
    ensures c.k.result == Ok ==> c.w.headers <= e.lines && c.w.body <= e.body
    ensures c.k.result != Ok ==> Excused(c.k.result)
    ensures c.k.phase.Finished? && c.k.result == Ok ==> c.w.headers == e.lines && c.w.body == e.body
  {
    hide AnyChunked, Answer, Resume, Decode, DecodeChunk, Expect, FindCrlf, HasCrlf, Valid;
  }

  // ---------------------------------------------------------------------------------------------
  // Causes of failure

  /** A cause of failure that the promised response leaves: no KHC_ERR_FAIL, and KHC_ERR_TOO_LARGE_DATA
      only for a status line in pieces or for a piece of the request body without a size line. */
  predicate Remaining(p: Phase, code: Code) {
    code != Fail && (code == TooLargeData ==> p.RespStatusRead? || p.ReqBodySendSize?)
  }

  lemma TooLargeWhere(k: K, r: Reply)
    requires Defined(k) && Suits(CallOf(k), r) && Blame(k, r) == Some(TooLargeData)
    ensures k.phase.RespStatusRead? || k.phase.ReqBodySendSize? || ChunkPhase(k.phase)
  {
    hide FindCrlf, StatusDigits, Hex, PhaseText, RequiredHeader, TargetSize, SizeLineOk;
  }

  /** The stream buffer has room for every size line of the response. */
  lemma ChunksFit(c: C, r: Reply, e: Expected)
    requires During(c, e) && CanStep(c, r) && ChunkPhase(c.k.phase)
    ensures Next(c, r).k.result != TooLargeData
  {
    hide HeadInv, PlainInv, Step, Advance, PhaseOk, SizeLineOk, ToWrite, HasCrlf, Blame;
    ChunkStep(c, r, e.body);
    ChunkKeepsResult(c, r);
  }

  lemma CausesRemain(c: C, r: Reply, e: Expected)
    requires RespInv(c, e) && CanStep(c, r) && Blame(c.k, r).Some?
    ensures Remaining(c.k.phase, Blame(c.k, r).value)
  {
    hide Before, HeadInv, ChunkInv, PlainInv, AllWritten, Step, Advance, Blame, CallOf, PhaseOk, Asking;
    CanStepMeans(c, r);
    StepBlame(c.k, r);
    RespStep(c, r, e);
    SoFar(Next(c, r), e);
    if Blame(c.k, r).value == TooLargeData {
      TooLargeWhere(c.k, r);
      if ChunkPhase(c.k.phase) {
        ChunkIsDuring(c, e);
        ChunksFit(c, r, e);
      }
    }
  }

  lemma HeaderIsDuring(c: C, e: Expected)
    requires RespInv(c, e) && HeaderPhase(c.k.phase)
    ensures HeadInv(c, e.lines, e.rest) && c.k.result == Ok
  {
    hide HeadInv, Expect, Sound, Valid;
  }

  lemma ChunkIsDuring(c: C, e: Expected)
    requires RespInv(c, e) && ChunkPhase(c.k.phase)
    ensures During(c, e)
  {
    hide During, Expect, Valid;
  }

  ghost predicate CausesRemaining(c: C, rs: seq<Reply>)
    requires Runs(c, rs)
    decreases |rs|
  {
    rs == [] ||
    ((Blame(c.k, rs[0]).Some? ==> Remaining(c.k.phase, Blame(c.k, rs[0]).value)) && CausesRemaining(Next(c, rs[0]), rs[1..]))
  }

  lemma {:induction false} RunCauses(c: C, rs: seq<Reply>, e: Expected)
    requires RespInv(c, e) && Runs(c, rs)
    ensures CausesRemaining(c, rs)
    decreases |rs|
  {
    hide RespInv, Step, Advance, Blame, CallOf, Remaining, Defined;
    if rs != [] {
      if Blame(c.k, rs[0]).Some? { CausesRemain(c, rs[0], e); }
      RespStep(c, rs[0], e);
      RunCauses(Next(c, rs[0]), rs[1..], e);
    }
  }

  /** However the socket cuts the response into pieces and however often it has to be asked again:
      as long as there is no cause of failure the header callback has been told a beginning of the
      expected lines and the write callback a beginning of the expected body; a finished run is
      successful if and only if there was none, and then both have been delivered; otherwise its
      result is the last cause.  A cause is a failure of the socket or the allocator, a callback that
      refuses what it gets, a status line in pieces, a piece of the request body without a size line, or
      an over-long line that in one of its buffers looks as if it announced how the body is framed: which
      responses have such a line, `MistakeDecided` says exactly. */
  lemma ResponseDelivered(c: C, rs: seq<Reply>, e: Expected)
    requires Fresh(c) && Promises(c, e) && Runs(c, rs)
    ensures var d, causes := After(c, rs), Blames(c, rs);
            && (causes == [] ==> d.k.result == Ok && d.w.headers <= e.lines && d.w.body <= e.body)
            && (causes != [] ==> d.k.result == causes[|causes| - 1] != Ok)
            && (causes == [] && d.k.phase.Finished? ==> d.w.headers == e.lines && d.w.body == e.body)
            && CausesRemaining(c, rs)
  {
    hide RespInv, Promises, Blames, Runs, CausesRemaining;
    assert c.k.result == Ok;
    FreshIsBefore(c, e);
    RespRun(c, rs, e);
    RunCauses(c, rs, e);
    ResultIsLastBlame(c, rs);
    BlamesFail(c, rs);
    SoFar(After(c, rs), e);
  }

  // ---------------------------------------------------------------------------------------------
  // Where the code would leave its buffers

  /** Such a response takes the code outside its buffers nowhere but in the one place where the buffer of an
      over-long header line has been emptied and nothing more has come. */
  lemma ResponseDefined(c: C, e: Expected)
    requires RespInv(c, e)
    ensures Defined(c.k) <==> !(c.k.phase.RespHeaderSkip? && c.k.head.len == 0)
  {
    hide ChunkInv, PlainInv, HeadInv, PhaseOk, OkBuffer, Answer, Decode, AnyChunked, HasCrlf, FindCrlf;
    if During(c, e) && ChunkPhase(c.k.phase) { ChunkDefined(c, e.body); }
    HeaderHasRoom(c, e);
  }

  lemma HeaderHasRoom(c: C, e: Expected)
    requires RespInv(c, e)
    ensures HeaderPhase(c.k.phase) ==> |c.k.head.bytes| >= 15
  {
    hide Expect, Sound, Future, AnyChunked;
  }

  /** A step leads there exactly when AGAIN is the answer while a line is being skipped that may be, and
      the last of its bytes that is buffered is no CR. */
  lemma EmptiesExactly(c: C, r: Reply, e: Expected)
    requires RespInv(c, e) && CanStep(c, r)
    ensures !Defined(Next(c, r).k) <==>
              c.k.phase.RespHeaderSkip? && r == Received(SockAgain, "")
              && !RequiredHeader(c.k.head.Contents()) && Kept(c.k.head) == 0
  {
    hide RespInv, Next, RequiredHeader;
    RespStep(c, r, e);
    ResponseDefined(Next(c, r), e);
    var k1 := Next(c, r).k;
    if k1.phase.RespHeaderSkip? && k1.head.len == 0 { EmptiedBy(c, r, e); }
    if c.k.phase.RespHeaderSkip? && r == Received(SockAgain, "") { AgainSkips(c, r); }
  }

  lemma AgainSkips(c: C, r: Reply)
    requires CanStep(c, r) && c.k.phase.RespHeaderSkip? && r == Received(SockAgain, "")
    ensures !RequiredHeader(c.k.head.Contents())
    ensures Next(c, r).k.phase.RespHeaderSkip? && Next(c, r).k.head.len == Kept(c.k.head)
  {
    hide RequiredHeader, PutZ, DropZ, Put, FindCrlf;
  }

  lemma RetriesFall(c: C, r: Reply)
    requires CanStep(c, r)
    ensures Next(c, r).w.retries <= c.w.retries
    ensures r == Received(SockAgain, "") ==> c.w.retries > 0
  {
    hide Step, Defined, FindCrlf, RequiredHeader, TargetSize, PhaseText, Hex;
  }

  lemma {:induction false} BlockingRun(c: C, rs: seq<Reply>, e: Expected)
    requires RespInv(c, e) && Defined(c.k) && c.w.retries == 0 && Runs(c, rs)
    ensures Defined(After(c, rs).k)
    decreases |rs|
  {
    hide RespInv, Defined, Step, Advance, CanStep, RequiredHeader;
    if rs != [] {
      RetriesFall(c, rs[0]);
      RespStep(c, rs[0], e);
      EmptiesExactly(c, rs[0], e);
      BlockingRun(Next(c, rs[0]), rs[1..], e);
    }
  }

  lemma FreshDefined(c: C)
    requires Fresh(c)
    ensures Defined(c.k)
  {
  }

  /** Over a socket that never has to be asked again, no run with such a response, which is complete, leaves
      the buffers.  (One that stops in its header can: `BlockingEscapes`.) */
  lemma BlockingIsSafe(c: C, rs: seq<Reply>, e: Expected)
    requires Fresh(c) && Promises(c, e) && c.w.retries == 0 && Runs(c, rs)
    ensures Defined(After(c, rs).k)
  {
    hide RespInv, Defined, Promises, Fresh;
    FreshIsBefore(c, e);
    FreshDefined(c);
    BlockingRun(c, rs, e);
  }

  lemma EmptiedBy(c: C, r: Reply, e: Expected)
    requires RespInv(c, e) && CanStep(c, r)
    requires Next(c, r).k.phase.RespHeaderSkip? && Next(c, r).k.head.len == 0
    ensures c.k.phase.RespHeaderSkip? && r == Received(SockAgain, "")
  {
    hide ChunkInv, PlainInv, Answer, Resume, Decode, AnyChunked, HasCrlf, PutZ, DropZ, Put, IsChunkedEncoding, StatusDigits,
         RequiredHeader, StrToL16, Hex, PhaseText, TargetSize, SizeLineOk;
    HeaderHasRoom(c, e);
    StepTalksAbout(c, r);
    SkippingGoesOn(c, e);
  }

  /** The end of a line that is being skipped is still to come. */
  lemma SkippingGoesOn(c: C, e: Expected)
    requires RespInv(c, e) && c.k.phase.RespHeaderSkip?
    ensures c.w.inbox != ""
  {
    hide Answer, Resume, Decode, AnyChunked, FindCrlf, Sound, SizeLineOk;
    assert Ahead(c) == c.k.head.Contents() + c.w.inbox;
    assert c.k.head.Contents() + "" == c.k.head.Contents();
  }

  /** A line is being skipped after a full buffer without a line end, or after another such state. */
  lemma StepTalksAbout(c: C, r: Reply)
    requires CanStep(c, r) && Next(c, r).k.phase.RespHeaderSkip? && Next(c, r).k.head.len == 0
    requires HeaderPhase(c.k.phase) ==> |c.k.head.bytes| > 1
    ensures c.k.phase.RespHeaderSkip? && r.Received? && r.data == "" && r.code != SockFail
  {
    hide FindCrlf, HasCrlf, DropZ, Put, IsChunkedEncoding, StatusDigits, RequiredHeader, StrToL16, Hex, PhaseText,
         TargetSize, SizeLineOk, Drop;
    if !HeaderPhase(c.k.phase) { NoWayBack(c.k, r); }
  }

  lemma NoWayBack(k: K, r: Reply)
    requires Defined(k) && Suits(CallOf(k), r) && !HeaderPhase(k.phase)
    ensures !Step(k, r).phase.RespHeaderSkip?
  {
    hide FindCrlf, HasCrlf, DropZ, Put, StrToL16, Hex, PhaseText, TargetSize, SizeLineOk, Drop, CurrentHeader, Provide;
  }
}
