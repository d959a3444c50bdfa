/** Whole responses: from the header into either kind of body, to the end of the run. */
module KhcResponse {
  import opened Text
  import opened KhcText
  import opened KhcMachine
  import opened KhcRun
  import opened KhcSend
  import opened KhcHeaders
  import opened KhcChunk

  // ---------------------------------------------------------------------------------------------
  // A body that is not chunked

  predicate PlainPhase(p: Phase) { p.RespBodyFragment? || p.RespBodyRead? || p.RespBodyCallback? }

  /** What has been written, what is buffered and what is still to come is the body. */
  predicate PlainInv(c: C, full: string) {
    && Valid(c.k) && PlainPhase(c.k.phase) && c.k.stream.bytes != ""
    && match c.k.phase
       case RespBodyFragment =>
         c.k.head.len <= |c.k.head.bytes| && c.w.body + Ahead(c) == full && (c.k.resp.readEnd ==> c.w.inbox == "")
       case RespBodyRead => c.w.body + c.w.inbox == full && !c.k.resp.readEnd
       case RespBodyCallback =>
         c.k.stream.len <= |c.k.stream.bytes| && c.w.body + (c.k.stream.Contents() + c.w.inbox) == full && !c.k.resp.readEnd
  }

  /** Closing with everything written, or because the socket or the write callback has failed. */
  predicate BodyEnds(c: C, full: string) {
    c.k.phase.Close? && if c.k.result == Ok then c.w.body == full else BodyFailed(c.k)
  }

  lemma FragmentStep(c: C, r: Reply, full: string)
    requires PlainInv(c, full) && CanStep(c, r) && c.k.result == Ok && c.k.phase.RespBodyFragment?
    ensures PlainInv(Next(c, r), full) || BodyEnds(Next(c, r), full)
  {
    hide SizeLineOk;
    assert c.k.head.len == 0 ==> Ahead(c) == c.w.inbox;
    assert c.w.body + Ahead(c) == c.w.body + c.k.head.Contents() + c.w.inbox;
  }

  lemma BodyReadStep(c: C, r: Reply, full: string)
    requires PlainInv(c, full) && CanStep(c, r) && c.k.result == Ok && c.k.phase.RespBodyRead?
    ensures PlainInv(Next(c, r), full) || BodyEnds(Next(c, r), full)
  {
    hide Put, SizeLineOk;
    assert c.w.inbox[0..] == c.w.inbox;
    if r.code == SockOk {
      ContentsPut(c.k.stream, 0, r.data);
      assert c.w.inbox == r.data + c.w.inbox[|r.data|..];
    }
  }

  lemma BodyCallbackStep(c: C, r: Reply, full: string)
    requires PlainInv(c, full) && CanStep(c, r) && c.k.result == Ok && c.k.phase.RespBodyCallback?
    ensures PlainInv(Next(c, r), full) || BodyEnds(Next(c, r), full)
  {
    hide SizeLineOk;
    assert c.w.body + (c.k.stream.Contents() + c.w.inbox) == c.w.body + c.k.stream.Contents() + c.w.inbox;
  }

  lemma PlainStep(c: C, r: Reply, full: string)
    requires PlainInv(c, full) && CanStep(c, r) && c.k.result == Ok
    ensures PlainInv(Next(c, r), full) || BodyEnds(Next(c, r), full)
  {
    hide CanStep, Next, BodyEnds;
    match c.k.phase
    case RespBodyFragment => FragmentStep(c, r, full);
    case RespBodyRead => BodyReadStep(c, r, full);
    case RespBodyCallback => BodyCallbackStep(c, r, full);
  }

  // ---------------------------------------------------------------------------------------------
  // Whole responses

  /** The size a buffer has once the run is under way. */
  function SizeOfBuffer(b: Buffer, preset: nat): nat { if b.owner == Absent then preset else |b.bytes| }

  /** What is to be told and written: the header lines, the bytes after the header, the body. */
  datatype Expected = Expected(lines: seq<string>, rest: string, body: string)

  /** A response that buffers of these sizes can take: a complete header, and if one of its lines
      announces it a complete chunked body. */
  ghost function Expect(response: string, hcap: nat, scap: nat): Option<Expected> {
    match Answer(response, hcap)
    case None => None
    case Some(h) =>
      if AnyChunked(h.lines) then
        match Decode(h.rest, scap)
        case None => None
        case Some(b) => Some(Expected(h.lines, h.rest, b))
      else Some(Expected(h.lines, h.rest, h.rest))
  }

  /** What is left in the header buffer when the header ends has room in the stream buffer. */
  predicate RoomForRest(hcap: nat, scap: nat) { hcap <= scap + 3 }

  ghost predicate Sound(c: C, e: Expected) {
    && (AnyChunked(e.lines) ==> Decode(e.rest, |c.k.stream.bytes|) == Some(e.body)
                                && RoomForRest(|c.k.head.bytes|, |c.k.stream.bytes|))
    && (!AnyChunked(e.lines) ==> e.body == e.rest) && c.k.stream.bytes != ""
  }

  /** Nothing has been received yet. */
  ghost predicate Before(c: C, e: Expected) {
    && Asking(c.k.phase) && c.w.headers == [] && c.w.body == "" && c.k.resp == Incoming(0, false, 0, 0, false)
    && c.k.result == Ok
    && Expect(c.w.inbox, SizeOfBuffer(c.k.head, HEADER_BUFF_SIZE), SizeOfBuffer(c.k.stream, STREAM_BUFF_SIZE)) == Some(e)
    && (AnyChunked(e.lines) ==>
          RoomForRest(SizeOfBuffer(c.k.head, HEADER_BUFF_SIZE), SizeOfBuffer(c.k.stream, STREAM_BUFF_SIZE)))
    && SizeOfBuffer(c.k.stream, STREAM_BUFF_SIZE) > 0
  }

  ghost predicate During(c: C, e: Expected) {
    && c.k.result == Ok
    && if HeaderPhase(c.k.phase) then HeadInv(c, e.lines, e.rest) && c.w.body == "" && Sound(c, e)
       else
         && c.w.headers == e.lines
         && if ChunkPhase(c.k.phase) then ChunkInv(c, e.body)
            else if PlainPhase(c.k.phase) then PlainInv(c, e.body)
            else AllWritten(c, e.body)
  }

  /** Anything but a response that is not as it was promised. */
  predicate Excused(code: Code) { code != Ok && code != Fail }

  ghost predicate Past(c: C, e: Expected) {
    && (c.k.phase.Close? || c.k.phase.Finished?)
    && if c.k.result == Ok then c.w.headers == e.lines && c.w.body == e.body else Excused(c.k.result)
  }

  ghost predicate RespInv(c: C, e: Expected) { Valid(c.k) && (Before(c, e) || During(c, e) || Past(c, e)) }

  /** The body begins. */
  lemma BodyBegins(c: C, e: Expected)
    requires Valid(c.k) && c.k.result == Ok && BodyStarts(c, e.lines, e.rest) && c.w.body == "" && Sound(c, e)
    ensures During(c, e)
  {
    hide AnyChunked, DecodeChunk, FindCrlf, HasCrlf;
    assert c.w.body + Ahead(c) == Ahead(c);
    if c.k.resp.chunked {
      assert Unread(c) == Ahead(c);
      assert WithoutLf(e.rest) == e.rest by { NoLfBefore(e.rest, |c.k.stream.bytes|); }
      assert c.w.body + e.body == e.body;
    }
  }

  /** `k1` has come out of `k` while the request was being sent. */
  predicate StillAsking(k: K, k1: K) {
    && k1.resp == k.resp
    && SizeOfBuffer(k1.head, HEADER_BUFF_SIZE) == SizeOfBuffer(k.head, HEADER_BUFF_SIZE)
    && SizeOfBuffer(k1.stream, STREAM_BUFF_SIZE) == SizeOfBuffer(k.stream, STREAM_BUFF_SIZE)
    && if Asking(k1.phase) then k1.result == k.result
       else if k1.phase.RespStatusRead? then k1.result == k.result && k1.head.len == 0
       else (k1.phase.Close? || k1.phase.Finished?) && Excused(k1.result)
  }

  lemma SendStillAsks(k: K, code: SockCode, n: nat)
    requires Valid(k) && Sending(k.phase)
    ensures StillAsking(k, StepSend(k, code, n))
  {
    hide Unsent, Hex;
  }

  lemma PlainStillAsks(k: K, r: Reply)
    requires Defined(k) && Suits(CallOf(k), r) && Asking(k.phase) && !Sending(k.phase)
    ensures StillAsking(k, StepPlain(k, r))
  {
    hide Put, CurrentHeader, SizeLineOk;
  }

  lemma AskingStep(c: C, r: Reply)
    requires CanStep(c, r) && Asking(c.k.phase)
    ensures var d := Next(c, r);
            StillAsking(c.k, d.k) && d.w.inbox == c.w.inbox && d.w.headers == c.w.headers && d.w.body == c.w.body
  {
    hide StillAsking, StepSend, StepPlain, SizeLineOk, Unsent, Hex;
    if Sending(c.k.phase) {
      if r.Sent? { SendStillAsks(c.k, r.code, r.n); } else { SendStillAsks(c.k, SockFail, 0); }
    } else {
      PlainStillAsks(c.k, r);
    }
  }

  lemma AnswerHasRoom(s: string, cap: nat)
    requires Answer(s, cap).Some?
    ensures cap >= 15
  {
    hide Resume;
  }

  /** The request is over, and the header begins. */
  lemma HeaderBegins(c: C, lines: seq<string>, rest: string)
    requires Valid(c.k) && c.k.phase.RespStatusRead? && c.k.head.len == 0 && c.w.headers == []
    requires c.k.resp == Incoming(0, false, 0, 0, false) && Answer(c.w.inbox, |c.k.head.bytes|) == Some(Heads(lines, rest))
    ensures HeadInv(c, lines, rest)
  {
    hide Answer, AnyChunked;
    AnswerHasRoom(c.w.inbox, |c.k.head.bytes|);
    assert Ahead(c) == c.w.inbox;
    NoneChunked();
    assert [] + lines == lines;
  }

  lemma BeforeStep(c: C, r: Reply, e: Expected)
    requires Before(c, e) && CanStep(c, r)
    ensures RespInv(Next(c, r), e)
  {
    hide Answer, Decode, AnyChunked, HeadInv, Step, Advance;
    AskingStep(c, r);
    StepValid(c.k, r);
    if Next(c, r).k.phase.RespStatusRead? {
      HeaderBegins(Next(c, r), e.lines, e.rest);
    }
  }

  lemma NoneChunked()
    ensures !AnyChunked([])
  {
  }

  lemma HeaderKeepsSizes(c: C, r: Reply)
    requires CanStep(c, r) && HeaderPhase(c.k.phase)
    ensures |Next(c, r).k.head.bytes| == |c.k.head.bytes| && |Next(c, r).k.stream.bytes| == |c.k.stream.bytes|
    ensures Next(c, r).w.body == c.w.body
    ensures !Next(c, r).k.phase.Close? ==> Next(c, r).k.result == c.k.result
  {
    hide PutZ, DropZ, Put, FindCrlf, RequiredHeader, StatusDigits, IsChunkedEncoding, SizeLineOk;
  }

  lemma HeaderDuring(c: C, r: Reply, e: Expected)
    requires During(c, e) && CanStep(c, r) && HeaderPhase(c.k.phase)
    ensures RespInv(Next(c, r), e)
  {
    hide AnyChunked, Decode, HeadInv, BodyStarts, ChunkInv, PlainInv, AllWritten, Step, Advance, PhaseOk, SizeLineOk;
    var d := Next(c, r);
    HeaderStep(c, r, e.lines, e.rest);
    HeaderKeepsSizes(c, r);
    StepValid(c.k, r);
    if HeadInv(d, e.lines, e.rest) {
      HeadInvPhase(d, e);
    } else if BodyStarts(d, e.lines, e.rest) {
      BodyStartsResult(d, e);
      BodyBegins(d, e);
    }
  }

  lemma HeadInvPhase(c: C, e: Expected)
    requires HeadInv(c, e.lines, e.rest)
    ensures HeaderPhase(c.k.phase)
  {
  }

  lemma BodyStartsResult(c: C, e: Expected)
    requires BodyStarts(c, e.lines, e.rest)
    ensures !c.k.phase.Close?
  {
  }

  lemma BodyTellsNothing(c: C, r: Reply)
    requires CanStep(c, r) && !HeaderPhase(c.k.phase)
    ensures Next(c, r).w.headers == c.w.headers
  {
    hide Step, SizeLineOk, PhaseText, Hex, TargetSize, PhaseOk;
  }

  lemma ChunkDuring(c: C, r: Reply, e: Expected)
    requires During(c, e) && CanStep(c, r) && ChunkPhase(c.k.phase)
    ensures RespInv(Next(c, r), e)
  {
    hide AnyChunked, Decode, HeadInv, PlainInv, Step, Advance, PhaseOk, SizeLineOk, ToWrite, HasCrlf;
    ChunkStep(c, r, e.body);
    BodyTellsNothing(c, r);
    StepValid(c.k, r);
    ChunkKeepsResult(c, r);
  }

  lemma ChunkKeeps(k: K, r: Reply)
    requires Defined(k) && Suits(CallOf(k), r) && ChunkPhase(k.phase)
    ensures !StepChunk(k, r).phase.Close? ==> StepChunk(k, r).result == k.result
  {
    hide Put, Drop, DropZ, FindCrlf, HasCrlf, StrToL16, StrToLStops, TargetSize, RequiredHeader, Hex, Unsent;
  }

  lemma PlainKeeps(k: K, r: Reply)
    requires Defined(k) && Suits(CallOf(k), r) && (PlainPhase(k.phase) || k.phase.RespBodySkipTrailers?)
    ensures !StepPlain(k, r).phase.Close? ==> StepPlain(k, r).result == k.result
  {
    hide Put, SizeLineOk, FindCrlf, TargetSize, RequiredHeader, Hex, Unsent;
  }

  lemma ChunkKeepsResult(c: C, r: Reply)
    requires CanStep(c, r) && (ChunkPhase(c.k.phase) || PlainPhase(c.k.phase) || c.k.phase.RespBodySkipTrailers?)
    ensures !Next(c, r).k.phase.Close? ==> Next(c, r).k.result == c.k.result
  {
    hide StepChunk, StepPlain, Advance, Suits, Defined, CallOf;
    if ChunkPhase(c.k.phase) { ChunkKeeps(c.k, r); } else { PlainKeeps(c.k, r); }
  }

  lemma RestDuring(c: C, r: Reply, e: Expected)
    requires During(c, e) && CanStep(c, r) && !HeaderPhase(c.k.phase) && !ChunkPhase(c.k.phase)
    ensures RespInv(Next(c, r), e)
  {
    hide AnyChunked, Decode, HeadInv, ChunkInv, SizeLineOk, Put, Step;
    BodyTellsNothing(c, r);
    StepValid(c.k, r);
    ChunkKeepsResult(c, r);
    if PlainPhase(c.k.phase) {
      PlainStep(c, r, e.body);
      PlainInvPhase(Next(c, r), e.body);
    } else {
      TrailerStep(c, r, e.body);
    }
  }

  lemma PlainInvPhase(c: C, full: string)
    ensures PlainInv(c, full) ==> PlainPhase(c.k.phase)
  {
  }

  lemma TrailerStep(c: C, r: Reply, full: string)
    requires AllWritten(c, full) && CanStep(c, r) && c.k.result == Ok
    ensures AllWritten(Next(c, r), full) || BodyEnds(Next(c, r), full)
  {
    hide Put, SizeLineOk;
  }

  lemma PastStep(c: C, r: Reply, e: Expected)
    requires Past(c, e) && CanStep(c, r)
    ensures RespInv(Next(c, r), e)
  {
    StepValid(c.k, r);
    hide Valid;
  }

  /** In every state of every run: as long as nothing has gone wrong, what has been told and written
      and what is still to come make up the expected header lines and body. */
  lemma RespStep(c: C, r: Reply, e: Expected)
    requires RespInv(c, e) && CanStep(c, r)
    ensures RespInv(Next(c, r), e)
  {
    hide Before, Past, ChunkInv, PlainInv, HeadInv, Step, Advance;
    if Before(c, e) { BeforeStep(c, r, e); }
    else if Past(c, e) { PastStep(c, r, e); }
    else if HeaderPhase(c.k.phase) { HeaderDuring(c, r, e); }
    else if ChunkPhase(c.k.phase) { ChunkDuring(c, r, e); }
    else { RestDuring(c, r, e); }
  }

  lemma {:induction false} RespRun(c: C, rs: seq<Reply>, e: Expected)
    requires RespInv(c, e) && Runs(c, rs)
    ensures RespInv(After(c, rs), e)
    decreases |rs|
  {
    hide RespInv, Step, Advance;
    if rs != [] {
      RespStep(c, rs[0], e);
      RespRun(Next(c, rs[0]), rs[1..], e);
    }
  }

  lemma GoesOnPhase(c: C, lines: seq<string>, rest: string)
    requires HeaderGoesOn(c, lines, rest)
    ensures HeaderPhase(c.k.phase) ==> HeadInv(c, lines, rest)
    ensures !Asking(c.k.phase) && !c.k.phase.ReadChunkSizeFromHeaderBuff? && !c.k.phase.ReadChunkBodyFromHeaderBuff?
  {
  }
}
