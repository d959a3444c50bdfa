/** A request body on its way: appended in pieces, handed out by the read callback, written as
    chunks, and decoded again. */
module KiiRequest {
  import opened Text
  import opened KhcText
  import opened KhcMachine
  import opened KhcRun
  import opened KhcSend
  import opened KhcChunk
  import opened KhcNumeral
  import opened KhcSuccess
  import opened KiiBuffer

  function Concat(pieces: seq<string>): string {
    if pieces == [] then "" else Concat(pieces[..|pieces| - 1]) + pieces[|pieces| - 1]
  }

  // ---------------------------------------------------------------------------------------------
  // The chunk writer and the chunk decoder are inverse

  lemma HexIsSizeLine(n: nat)
    requires n < PIECE_LIMIT
    ensures SizeOf(Hex(n)) == Some(n) && |Hex(n)| <= 12
    ensures forall i :: 0 <= i < |Hex(n)| ==> Hex(n)[i] != '\r' && Hex(n)[i] != NUL
  {
    hide Hex, SizeOf, Writes;
    HexWrites(n);
    WrittenSize(Hex(n), "", n);
    assert Hex(n) + "" == Hex(n);
    HexShortEnough(n);
    assert forall c: char :: HexDigit(c).Some? ==> c != '\r' && c != NUL;
  }

  lemma HexShortEnough(n: nat)
    requires n < PIECE_LIMIT
    ensures |Hex(n)| <= 12
  {
    assert Power16(6) == 0x100_0000;
    assert Power16(12) == PIECE_LIMIT;
    HexLength(n, 12, PIECE_LIMIT);
  }

  predicate Pieces(pieces: seq<string>) {
    forall i :: 0 <= i < |pieces| ==> pieces[i] != "" && |pieces[i]| < PIECE_LIMIT
  }

  lemma {:induction false} PiecesDecode(pieces: seq<string>, t: string, cap: nat)
    requires Pieces(pieces) && cap >= 15 && Decode(t, cap).Some?
    ensures Decode(PiecesText(pieces) + t, cap) == Some(Concat(pieces) + Decode(t, cap).value)
    decreases |pieces|
  {
    hide Decode, Hex, SizeOf;
    var b := Decode(t, cap).value;
    if pieces == [] {
      assert PiecesText(pieces) + t == t;
      assert Concat(pieces) + b == b;
    } else {
      var k := |pieces| - 1;
      var init, last := pieces[..k], pieces[k];
      HexIsSizeLine(|last|);
      DecodeOne(Hex(|last|), last, t, cap);
      assert PieceText(last) + t == Hex(|last|) + (CRLF + (last + (CRLF + t)));
      PiecesDecode(init, PieceText(last) + t, cap);
      assert PiecesText(pieces) + t == PiecesText(init) + (PieceText(last) + t);
      assert Concat(pieces) + b == Concat(init) + (last + b);
    }
  }

  /** The body as it is written decodes to the pieces put together (whatever a peer's line buffer,
      if it takes a size line at all). */
  lemma ChunksInvert(pieces: seq<string>, cap: nat)
    requires Pieces(pieces) && cap >= 15
    ensures Decode(BodyText(pieces, true), cap) == Some(Concat(pieces))
  {
    hide Decode, Hex, SizeOf;
    HexIsSizeLine(0);
    DecodeLast(Hex(0), CRLF, cap);
    assert PieceText("") == Hex(0) + (CRLF + CRLF);
    PiecesDecode(pieces, PieceText(""), cap);
    assert Concat(pieces) + "" == Concat(pieces);
  }

  // ---------------------------------------------------------------------------------------------
  // The read callback

  /** In this run the read callback hands out `body` from `pos` on. */
  ghost predicate Feeds(c: C, rs: seq<Reply>, body: string, pos: nat)
    requires Runs(c, rs) && pos <= |body|
    decreases |rs|
  {
    rs == [] ||
    if CallOf(c.k).Read? then
      var part := NextPart(body, pos, CallOf(c.k).max);
      rs[0] == Provided(part) && Feeds(Next(c, rs[0]), rs[1..], body, pos + |part|)
    else Feeds(Next(c, rs[0]), rs[1..], body, pos)
  }

  /** A stream buffer of the caller is not empty. */
  predicate Roomy(k: K) { k.stream.owner == Absent || k.stream.bytes != "" }

  /** The request goes on, and `pos` bytes of the body have been provided; or all of it has. */
  predicate FeedInv(c: C, body: string, pos: nat) {
    && pos <= |body| && Pieces(c.w.pieces) && Concat(c.w.pieces) == body[..pos]
    && c.k.req.hasRead && |c.k.stream.bytes| < PIECE_LIMIT && Roomy(c.k)
    && (BodyPhase(c.k.phase) && c.k.out.readEnd ==> pos == |body|)
    && (Answering(c.k) ==> pos == |body|)
  }

  lemma PieceFed(c: C, body: string, pos: nat, part: string)
    requires FeedInv(c, body, pos) && part == NextPart(body, pos, |c.k.stream.bytes|) && |c.k.stream.bytes| > 0
    ensures var pieces := if part == "" then c.w.pieces else c.w.pieces + [part];
            Pieces(pieces) && Concat(pieces) == body[..pos + |part|]
    ensures pos + |part| <= |body| && (part == "" <==> pos == |body|)
  {
    var ps := c.w.pieces + [part];
    assert ps[..|ps| - 1] == c.w.pieces;
    assert body[..pos] + part == body[..pos + |part|];
  }

  lemma ReadStep(c: C, r: Reply, body: string, pos: nat)
    requires FeedInv(c, body, pos) && SendInv(c) && CanStep(c, r) && c.k.phase.ReqBodyRead?
    requires r == Provided(NextPart(body, pos, |c.k.stream.bytes|))
    ensures FeedInv(Next(c, r), body, pos + |r.data|)
  {
    hide HeadText, BodyText, FullText, Pending, Hex, PhaseText, Pieces, Concat, NextPart, SizeLineOk, Put;
    PieceFed(c, body, pos, r.data);
  }

  /** What a step that is no reading changes in the request. */
  predicate SameBody(k: K, k1: K) {
    && |k1.stream.bytes| < PIECE_LIMIT && (Roomy(k) ==> Roomy(k1)) && k1.req.hasRead == k.req.hasRead
    && (BodyPhase(k1.phase) && k1.out.readEnd ==> BodyPhase(k.phase) && k.out.readEnd)
    && (Answering(k1) ==> (BodyPhase(k.phase) && k.out.readEnd) || Answering(k))
  }

  lemma SendingSameBody(k: K, code: SockCode, n: nat)
    requires Sending(k.phase) && |k.stream.bytes| < PIECE_LIMIT && k.req.hasRead && Valid(k) && k.result == Ok
    ensures SameBody(k, StepSend(k, code, n))
  {
    hide Unsent, Hex, SizeLineOk;
  }

  lemma StartSameBody(k: K, r: Reply)
    requires Defined(k) && Suits(CallOf(k), r) && (k.phase.Idle? || k.phase.Connect? || k.phase.ReqHeader?)
    requires k.result == Ok && |k.stream.bytes| < PIECE_LIMIT
    ensures SameBody(k, StepPlain(k, r))
  {
    hide CurrentHeader, SizeLineOk;
  }

  lemma OtherStep(c: C, r: Reply, body: string, pos: nat)
    requires FeedInv(c, body, pos) && SendInv(c) && CanStep(c, r) && !c.k.phase.ReqBodyRead?
    ensures SameBody(c.k, Next(c, r).k) && Next(c, r).w.pieces == c.w.pieces
  {
    hide HeadText, BodyText, FullText, Pending, Hex, PhaseText, Pieces, Concat, StepSend, StepPlain, StepHeader,
         StepChunk, PhaseOk, SizeLineOk,
         SameBody;
    if !Asking(c.k.phase) {
      PastRequest(c, r);
      PastSameBody(c.k, Next(c, r).k);
    } else if Sending(c.k.phase) {
      if r.Sent? { SendingSameBody(c.k, r.code, r.n); } else { SendingSameBody(c.k, SockFail, 0); }
    } else {
      StartSameBody(c.k, r);
    }
  }

  lemma PastSameBody(k: K, k1: K)
    requires StaysPast(k, k1) && !Asking(k.phase) && |k.stream.bytes| < PIECE_LIMIT
    ensures SameBody(k, k1)
  {
  }

  lemma FeedStep(c: C, r: Reply, body: string, pos: nat)
    requires FeedInv(c, body, pos) && SendInv(c) && CanStep(c, r)
    requires CallOf(c.k).Read? ==> r == Provided(NextPart(body, pos, CallOf(c.k).max))
    ensures FeedInv(Next(c, r), body, if CallOf(c.k).Read? then pos + |r.data| else pos)
  {
    hide SendInv, Step, Advance, Pieces, Concat, NextPart, BodyPhase, Answering, Hex, PhaseText, SizeLineOk, TargetSize;
    if c.k.phase.ReqBodyRead? {
      ReadStep(c, r, body, pos);
    } else {
      OtherStep(c, r, body, pos);
    }
  }

  lemma {:induction false} RunFeeds(c: C, rs: seq<Reply>, body: string, pos: nat) returns (end: nat)
    requires FeedInv(c, body, pos) && SendInv(c) && Runs(c, rs) && Feeds(c, rs, body, pos)
    ensures FeedInv(After(c, rs), body, end) && SendInv(After(c, rs))
    decreases |rs|
  {
    hide FeedInv, SendInv, CanStep, Step, Advance, CallOf, NextPart;
    if rs == [] {
      end := pos;
    } else {
      CanStepMeans(c, rs[0]);
      FeedStep(c, rs[0], body, pos);
      StepKeepsSendInv(c, rs[0]);
      end := RunFeeds(Next(c, rs[0]), rs[1..], body, if CallOf(c.k).Read? then pos + |rs[0].data| else pos);
    }
  }

  /** What the read callback has to be asked for before anything else may touch the buffer that it
      reads: `Provided("")` says that the body is over. */
  ghost predicate SawEnd(c: C, rs: seq<Reply>)
    requires Runs(c, rs)
    decreases |rs|
  {
    rs != [] && ((CallOf(c.k).Read? && rs[0] == Provided("")) || SawEnd(Next(c, rs[0]), rs[1..]))
  }

  predicate Ended(k: K) { (BodyPhase(k.phase) && k.out.readEnd) || Answering(k) }

  lemma EndsByReading(c: C, r: Reply)
    requires SendInv(c) && CanStep(c, r) && c.k.req.hasRead && !Ended(c.k) && Ended(Next(c, r).k)
    ensures CallOf(c.k).Read? && r == Provided("")
  {
    hide HeadText, BodyText, FullText, Pending, Hex, PhaseText, Step, SizeLineOk, TargetSize, SameBody;
    if c.k.phase.ReqBodyRead? {
      ReadingStep(c, r);
      BodyReadEnds(c.k, r.data);
    } else {
      NoEnding(c, r);
    }
  }

  lemma ReadingStep(c: C, r: Reply)
    requires CanStep(c, r) && c.k.phase.ReqBodyRead?
    ensures CallOf(c.k).Read? && r.Provided? && |r.data| <= |c.k.stream.bytes|
    ensures Next(c, r).k == StepBodyRead(c.k, r.data)
  {
    hide StepBodyRead, SizeLineOk;
  }

  lemma BodyReadEnds(k: K, data: string)
    requires |data| <= |k.stream.bytes| && !k.out.readEnd
    ensures StepBodyRead(k, data).out.readEnd <==> data == ""
  {
  }

  lemma NoEnding(c: C, r: Reply)
    requires SendInv(c) && CanStep(c, r) && c.k.req.hasRead && !c.k.phase.ReqBodyRead?
    ensures Ended(Next(c, r).k) ==> Ended(c.k)
  {
    hide HeadText, BodyText, FullText, Pending, Hex, PhaseText, StepSend, StepPlain, StepHeader, StepChunk,
         PhaseOk, SizeLineOk, SameBody;
    if !Asking(c.k.phase) {
      PastRequest(c, r);
      PastSameBody(c.k, Next(c, r).k);
    } else if Sending(c.k.phase) {
      if r.Sent? { SendingSameBody(c.k, r.code, r.n); } else { SendingSameBody(c.k, SockFail, 0); }
    } else {
      StartSameBody(c.k, r);
    }
    SameBodyEnds(c.k, Next(c, r).k);
  }

  lemma SameBodyEnds(k: K, k1: K)
    requires SameBody(k, k1)
    ensures Ended(k1) ==> Ended(k)
  {
  }

  lemma {:induction false} RunSawEnd(c: C, rs: seq<Reply>)
    requires SendInv(c) && c.k.req.hasRead && !Ended(c.k) && Runs(c, rs) && Ended(After(c, rs).k)
    ensures SawEnd(c, rs)
    decreases |rs|
  {
    hide SendInv, CanStep, Step, Advance, CallOf, Ended;
    var d := Next(c, rs[0]);
    if Ended(d.k) {
      EndsByReading(c, rs[0]);
    } else {
      StepKeepsSendInv(c, rs[0]);
      DefaultsKeepRead(c.k.req);
      RunSawEnd(d, rs[1..]);
    }
  }

  lemma DefaultsKeepRead(req: Request)
    ensures Defaults(req).hasRead == req.hasRead
  {
  }

  /** The write callback, which clears the shared buffer, is called only when the read callback has
      said that the request body is over. */
  lemma WriteAfterEnd(c: C, rs: seq<Reply>)
    requires Fresh(c) && c.k.req.hasRead && |c.k.stream.bytes| < PIECE_LIMIT && Runs(c, rs)
    requires Defined(After(c, rs).k) && CallOf(After(c, rs).k).Write?
    ensures SawEnd(c, rs)
  {
    hide SendInv, FullText, HeadText, BodyText, Pending, PhaseText, Hex, SizeLineOk, TargetSize, SawEnd;
    FreshSends(c);
    RunLeads(c, rs);
    WriteAnswers(After(c, rs).k);
    RunSawEnd(c, rs);
  }

  lemma FreshSends(c: C)
    requires Fresh(c) && |c.k.stream.bytes| < PIECE_LIMIT
    ensures SendInv(c)
  {
  }

  lemma WriteAnswers(k: K)
    requires Defined(k) && CallOf(k).Write? && OutcomeOk(k)
    ensures Answering(k)
  {
    hide Hex, PhaseText, SizeLineOk, TargetSize;
  }

  /** A body that the read callback hands out goes over the wire as chunks that decode to it. */
  lemma BodyRoundTrip(c: C, rs: seq<Reply>, body: string, cap: nat)
    requires Fresh(c) && c.k.req.hasRead && |c.k.stream.bytes| < PIECE_LIMIT && Runs(c, rs) && Feeds(c, rs, body, 0)
    requires cap >= 15
    ensures var d := After(c, rs);
            Answering(d.k) ==>
              && d.w.wire == HeadText(Defaults(c.k.req)) + BodyText(d.w.pieces, true)
              && (Roomy(c.k) ==> Decode(BodyText(d.w.pieces, true), cap) == Some(body))
  {
    hide SendInv, HeadText, BodyText, Pieces, Concat, Decode, Feeds, Answering;
    FreshSends(c);
    WireIsRequest(c, rs);
    DefaultsKeepRead(c.k.req);
    var d := After(c, rs);
    if Answering(d.k) && Roomy(c.k) {
      NothingFed(c, body);
      var end := RunFeeds(c, rs, body, 0);
      ChunksInvert(d.w.pieces, cap);
      assert body[..|body|] == body;
    }
  }

  lemma NothingFed(c: C, body: string)
    requires Fresh(c) && c.k.req.hasRead && |c.k.stream.bytes| < PIECE_LIMIT && Roomy(c.k)
    ensures FeedInv(c, body, 0)
  {
    assert body[..0] == "";
  }
}
