/** That a response can be delivered: for which responses some run ends well. */
module KhcLive {
  import opened Text
  import opened KhcText
  import opened KhcMachine
  import opened KhcRun
  import opened KhcBlame
  import opened KhcSend
  import opened KhcHeaders
  import opened KhcChunk
  import opened KhcResponse
  import opened KhcDelivery
  import opened KhcWork
  import opened KhcLook
  import opened KhcWalk
  import opened KhcBounds

  // ---------------------------------------------------------------------------------------------
  // Lines at which every run ends

  /** In the rest of a block of header lines, or after it when it is informational, there is an over-long
      line that announces the framing of the body: a header buffer of `cap` bytes holds its first
      `cap - 1`. */
  predicate Framing(s: string, status: int, cap: nat)
    decreases |s|, 0
  {
    if Fits(s, cap) then
      var i := FindCrlf(s).value;
      if i == 0 then 100 <= status < 200 && StatusFraming(s[2..], cap) else Framing(s[i + 2..], status, cap)
    else
      && Fills(s, cap)
      && (RequiredHeader(s[..cap - 1]) || (FindCrlf(s).Some? && Framing(s[FindCrlf(s).value + 2..], status, cap)))
  }

  predicate StatusFraming(s: string, cap: nat)
    decreases |s|, 1
  {
    && Fits(s, cap) && StatusDigits(s[..FindCrlf(s).value]).Some?
    && Framing(s, StatusDigits(s[..FindCrlf(s).value]).value, cap)
  }

  /** Such a line is ahead, or is being skipped. */
  predicate Framed(v: View, cap: nat) {
    match v
    case AtStatus(s) => StatusFraming(s, cap)
    case AtLine(s, status) => Framing(s, status, cap)
    case InSkip(s, len, status) =>
      len <= |s| && (RequiredHeader(s[..len]) || (Behind(s).Some? && Framing(Behind(s).value, status, cap)))
    case Outside => false
  }

  /** No step passes it; skipping one byte at a time makes none. */
  lemma FramedLeads(v: View, v1: View, cap: nat, n: nat, again: bool)
    requires Clean(v) && Leads(v, v1, cap, n, again)
    ensures Framed(v, cap) ==> Framed(v1, cap)
    ensures !Framed(v, cap) && (v.InSkip? ==> n <= 1) ==> !Framed(v1, cap)
  {
    hide FindCrlf, StatusDigits, RequiredHeader, SkipsOn, Clear, StatusClear, Behind, Framing;
    match v
    case AtStatus(_) =>
    case AtLine(s, status) => FramedLine(s, status, cap);
    case InSkip(_, _, _) =>
      SkipLeads(v, v1, cap, n, again);
      SkipPassed(v, v1, cap, n, again);
      if v1.InSkip? && n <= 1 { ShortNotRequired(v1.s[..v1.len]); }
    case Outside =>
  }

  lemma SkipPassed(v: View, v1: View, cap: nat, n: nat, again: bool)
    requires SkipsOn(v, v1, cap, n, again)
    ensures v.len <= |v.s| && !RequiredHeader(v.s[..v.len]) && (v1.InSkip? ==> v1.len <= |v1.s| && v1.len <= n + 1)
  {
    hide FindCrlf, RequiredHeader;
  }

  lemma FramedLine(s: string, status: int, cap: nat)
    ensures Fits(s, cap) ==>
              var i := FindCrlf(s).value;
              Framing(s, status, cap) ==
                if i == 0 then 100 <= status < 200 && StatusFraming(s[2..], cap) else Framing(s[i + 2..], status, cap)
    ensures Fills(s, cap) ==> Framing(s, status, cap) == Framed(InSkip(s, cap - 1, status), cap)
  {
    hide FindCrlf, RequiredHeader;
  }

  lemma BodyNotFramed(v: View, cap: nat)
    requires BodyNext(v) && cap >= 3
    ensures !Framed(v, cap)
  {
    hide FindCrlf;
  }

  // ---------------------------------------------------------------------------------------------
  // With such a line no run ends well

  lemma FailureStays(c: C, r: Reply)
    requires CanStep(c, r) && c.k.result != Ok
    ensures Next(c, r).k.result != Ok
  {
    hide Step, Advance, Blame, CallOf, Defined, Suits;
    CanStepMeans(c, r);
    StepBlame(c.k, r);
    BlameFails(c.k, r);
  }

  lemma BlameFails(k: K, r: Reply)
    requires Defined(k) && Suits(CallOf(k), r)
    ensures Blame(k, r) != Some(Ok)
  {
    hide CallOf, Defined, Suits, FindCrlf, StatusDigits;
  }

  ghost predicate FramedAhead(c: C)
    requires Valid(c.k)
  {
    Framed(ViewOf(c), Cap(c.k))
  }

  lemma OutsideNotFramed(c: C)
    requires Valid(c.k) && ViewOf(c) == Outside
    ensures !FramedAhead(c)
  {
  }

  lemma BodyHasRoom(c: C)
    requires Aligned(c) && BodyNext(ViewOf(c))
    ensures Cap(c.k) >= 15
  {
    hide FindCrlf;
  }

  /** Framed or not, the header goes on as it was, or the run fails. */
  lemma FramedStep(c: C, r: Reply)
    requires Walking(c) && CanStep(c, r)
    ensures Walking(Next(c, r))
    ensures FramedAhead(c) ==> FramedAhead(Next(c, r)) || Next(c, r).k.result != Ok
    ensures !FramedAhead(c) && (c.k.phase.RespHeaderSkip? ==> Got(r) <= 1) ==> !FramedAhead(Next(c, r))
  {
    hide CanStep, Next, Framed, Clean, Leads, BodyFirst, BodyNext, FindCrlf, PhaseOk, OkBuffer, Cap;
    var d := Next(c, r);
    AskedValid(c, r);
    WalkStep(c, r);
    if ViewOf(c) == Outside {
      OutsideNotFramed(c);
      OutsideNotFramed(d);
    } else if StaysIn(c, r, d) {
      FramedLeads(ViewOf(c), ViewOf(d), Cap(c.k), Got(r), c.w.retries > 0);
    } else {
      HeaderIsOver(d);
      OutsideNotFramed(d);
      if BodyNext(ViewOf(c)) {
        BodyHasRoom(c);
        BodyNotFramed(ViewOf(c), Cap(c.k));
      }
    }
  }

  ghost predicate Doomed(c: C) { Walking(c) && (FramedAhead(c) || c.k.result != Ok) }

  lemma DoomedStep(c: C, r: Reply)
    requires Doomed(c) && CanStep(c, r)
    ensures Doomed(Next(c, r))
  {
    hide FramedAhead, CanStep, Next, Clean;
    FramedStep(c, r);
    if c.k.result != Ok { FailureStays(c, r); }
  }

  lemma {:induction false} DoomedRun(c: C, rs: seq<Reply>)
    requires Doomed(c) && Runs(c, rs)
    ensures Doomed(After(c, rs))
    decreases |rs|
  {
    hide Doomed, CanStep, Next;
    if rs != [] {
      DoomedStep(c, rs[0]);
      DoomedRun(Next(c, rs[0]), rs[1..]);
    }
  }

  // ---------------------------------------------------------------------------------------------
  // Without one, some run does

  /** The answer that the client would like best; of a line that is skipped one byte is received at a
      time. */
  function Friendly(c: C): Reply
    requires Defined(c.k)
  {
    match CallOf(c.k)
    case Recv(max) =>
      var n := if c.k.phase.RespHeaderSkip? then 1 else max;
      Received(SockOk, if n <= |c.w.inbox| then c.w.inbox[..n] else c.w.inbox)
    case TellHeader(line) => Taken(|line|)
    case Write(data) => Taken(|data|)
    case Shut(_, _) => Sock(SockOk)
    case call => Obliging(call)
  }

  ghost predicate Thriving(c: C, e: Expected) {
    RespInv(c, e) && LiveInv(c, e.lines, e.rest) && Defined(c.k) && c.k.result == Ok && Walking(c) && !FramedAhead(c)
  }

  lemma FriendlyCan(c: C)
    requires Defined(c.k) && !c.k.phase.Finished? && (c.k.phase.RespHeaderSkip? ==> |c.k.head.bytes| > 3)
    ensures CanStep(c, Friendly(c))
  {
    hide Zeros, FindCrlf, RequiredHeader, TargetSize, PhaseText, Hex, SizeLineOk;
    ZerosLength(HEADER_BUFF_SIZE);
    ZerosLength(STREAM_BUFF_SIZE);
  }

  /** As much of the response as there is room for holds the whole status line. */
  lemma StatusInOnePiece(c: C, lines: seq<string>, rest: string)
    requires HeadInv(c, lines, rest) && c.k.phase.RespStatusRead?
    ensures var max := |c.k.head.bytes| - c.k.head.len - 1;
            max >= 0 && FindCrlf(c.k.head.Contents() + if max <= |c.w.inbox| then c.w.inbox[..max] else c.w.inbox).Some?
  {
    hide FindCrlf, AnyChunked, StatusDigits, Resume;
    var s, max := Ahead(c), |c.k.head.bytes| - c.k.head.len - 1;
    if max <= |c.w.inbox| {
      var a := c.k.head.Contents() + c.w.inbox[..max];
      assert s == a + c.w.inbox[max..];
      CrlfInPrefix(a, c.w.inbox[max..]);
    }
  }

  lemma StatusNotBlamed(c: C)
    requires Defined(c.k) && c.k.phase.RespStatusRead? && CanStep(c, Friendly(c))
    requires var max := |c.k.head.bytes| - c.k.head.len - 1;
             max >= 0 && FindCrlf(c.k.head.Contents() + if max <= |c.w.inbox| then c.w.inbox[..max] else c.w.inbox).Some?
    ensures Blame(c.k, Friendly(c)).None?
  {
    hide FindCrlf;
  }

  lemma SkipNotBlamed(c: C)
    requires Defined(c.k) && c.k.phase.RespHeaderSkip? && CanStep(c, Friendly(c)) && !FramedAhead(c)
    ensures Blame(c.k, Friendly(c)).None?
  {
    hide FindCrlf, RequiredHeader, Framing, Behind, ViewOf;
    SkipView(c);
  }

  lemma SizeNotBlamed(c: C)
    requires Defined(c.k) && c.k.phase.ReqBodySendSize? && CanStep(c, Friendly(c)) && SendInv(c)
    ensures Blame(c.k, Friendly(c)).None?
  {
    hide Hex, Unsent, Pending, HeadText, BodyText, FullText, PhaseText;
    SizeLineWhole(c.k.out.readSize);
  }

  /** Of such answers only the response itself can be a cause. */
  lemma FriendlyCause(c: C)
    requires Defined(c.k) && CanStep(c, Friendly(c)) && !c.k.phase.RespHeaderSkip? && Blame(c.k, Friendly(c)).Some?
    ensures Blame(c.k, Friendly(c)) == Some(Fail) || Blame(c.k, Friendly(c)) == Some(TooLargeData)
  {
    hide FindCrlf, RequiredHeader, TargetSize, PhaseText, Hex, SizeLineOk, StatusDigits, Zeros;
  }

  lemma ThrivingMeans(c: C, e: Expected)
    requires Thriving(c, e)
    ensures RespInv(c, e) && SendInv(c) && Defined(c.k) && c.k.result == Ok && Walking(c) && !FramedAhead(c)
    ensures LiveInv(c, e.lines, e.rest) && Lively(c)
  {
    hide RespInv, SendInv, FramedAhead, Lively, Defined;
    LiveIsLively(c, e.lines, e.rest);
  }

  lemma FriendlyBlame(c: C, e: Expected)
    requires Thriving(c, e) && !c.k.phase.Finished? && Defined(c.k) && CanStep(c, Friendly(c))
    ensures Blame(c.k, Friendly(c)).None?
  {
    hide RespInv, Thriving, FramedAhead, SendInv, Defined, CanStep, Blame, CallOf, Friendly;
    ThrivingMeans(c, e);
    CanStepMeans(c, Friendly(c));
    if c.k.phase.RespStatusRead? {
      HeaderIsDuring(c, e);
      StatusInOnePiece(c, e.lines, e.rest);
      StatusNotBlamed(c);
    } else if c.k.phase.RespHeaderSkip? {
      SkipNotBlamed(c);
    } else if c.k.phase.ReqBodySendSize? {
      SizeNotBlamed(c);
    } else if Blame(c.k, Friendly(c)).Some? {
      CausesRemain(c, Friendly(c), e);
      FriendlyCause(c);
    }
  }

  lemma NotAgain(c: C)
    requires Defined(c.k)
    ensures Friendly(c) != Received(SockAgain, "")
    ensures c.k.phase.RespHeaderSkip? && Friendly(c).Received? ==> |Friendly(c).data| <= 1
  {
    hide FindCrlf, RequiredHeader, TargetSize, PhaseText, Hex, SizeLineOk, Zeros;
  }

  lemma ThrivingStep(c: C, e: Expected)
    requires Thriving(c, e) && !c.k.phase.Finished?
    ensures Defined(c.k) && CanStep(c, Friendly(c)) && Thriving(Next(c, Friendly(c)), e)
    ensures Work(Next(c, Friendly(c))) < Work(c)
  {
    hide RespInv, LiveInv, SendInv, FramedAhead, Walking, Lively, Work, Blame, Step, Advance, CallOf, Suits, Friendly,
         RequiredHeader;
    ThrivingMeans(c, e);
    HeaderHasRoom(c, e);
    FriendlyCan(c);
    NotAgain(c);
    var r := Friendly(c);
    CanStepMeans(c, r);
    FriendlyBlame(c, e);
    StepBlame(c.k, r);
    RespStep(c, r, e);
    LiveStep(c, r, e.lines, e.rest);
    EmptiesExactly(c, r, e);
    FramedStep(c, r);
    StepWorks(c, r);
  }

  lemma {:induction false} ThrivesToTheEnd(c: C, e: Expected) returns (rs: seq<Reply>)
    requires Thriving(c, e)
    ensures Runs(c, rs) && After(c, rs).k.phase.Finished? && After(c, rs).k.result == Ok
    decreases Work(c)
  {
    hide Thriving, Work, CanStep, Next, Friendly, Defined;
    ThrivingOk(c, e);
    if c.k.phase.Finished? {
      rs := [];
    } else {
      ThrivingStep(c, e);
      var more := ThrivesToTheEnd(Next(c, Friendly(c)), e);
      rs := [Friendly(c)] + more;
      assert rs[1..] == more;
    }
  }

  lemma ThrivingOk(c: C, e: Expected)
    requires Thriving(c, e)
    ensures c.k.result == Ok
  {
  }

  /** Exactly which of the responses that are as promised can be delivered at all: those in which no
      over-long line announces the framing of the body.  (By `ResponseDelivered` a run that ends well has
      delivered all lines and all of the body.) */
  lemma DeliveryDecided(c: C, e: Expected)
    requires Fresh(c) && Promises(c, e) && |c.k.stream.bytes| < PIECE_LIMIT
    ensures (exists rs :: Runs(c, rs) && After(c, rs).k.phase.Finished? && After(c, rs).k.result == Ok) <==>
            !StatusFraming(c.w.inbox, SizeOfBuffer(c.k.head, HEADER_BUFF_SIZE))
  {
    hide Fresh, Promises, RespInv, Doomed, Thriving, Runs, After, StatusClear;
    FreshIsBefore(c, e);
    PromisedIsClear(c, e);
    if StatusFraming(c.w.inbox, SizeOfBuffer(c.k.head, HEADER_BUFF_SIZE)) {
      FreshDoomed(c);
      forall rs | Runs(c, rs) && After(c, rs).k.phase.Finished? ensures After(c, rs).k.result != Ok {
        DoomedRun(c, rs);
        DoomedAtEnd(After(c, rs));
      }
    } else {
      FreshThrives(c, e);
      var rs := ThrivesToTheEnd(c, e);
    }
  }

  lemma FreshDoomed(c: C)
    requires Fresh(c) && StatusClear(c.w.inbox) && StatusFraming(c.w.inbox, SizeOfBuffer(c.k.head, HEADER_BUFF_SIZE))
    ensures Doomed(c)
  {
    hide StatusFraming, StatusClear;
    FreshWalks(c);
  }

  lemma DoomedAtEnd(c: C)
    requires Doomed(c) && c.k.phase.Finished?
    ensures c.k.result != Ok
  {
  }

  lemma FreshThrives(c: C, e: Expected)
    requires Fresh(c) && Promises(c, e) && RespInv(c, e) && |c.k.stream.bytes| < PIECE_LIMIT
    requires !StatusFraming(c.w.inbox, SizeOfBuffer(c.k.head, HEADER_BUFF_SIZE))
    ensures Thriving(c, e)
  {
    hide StatusFraming, StatusClear, RespInv, LiveInv, Decode, Answer;
    PromisedIsClear(c, e);
    FreshWalks(c);
    ExpectedHeads(c.w.inbox, SizeOfBuffer(c.k.head, HEADER_BUFF_SIZE), SizeOfBuffer(c.k.stream, STREAM_BUFF_SIZE));
    FreshLives(c, e.lines, e.rest);
  }

  lemma ExpectedHeads(response: string, hcap: nat, scap: nat)
    requires Expect(response, hcap, scap).Some?
    ensures var e := Expect(response, hcap, scap).value; Answer(response, hcap) == Some(Heads(e.lines, e.rest))
  {
    hide Answer, Decode, AnyChunked;
  }
}
