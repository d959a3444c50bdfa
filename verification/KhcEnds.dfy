/** Which responses the client reads to an end. */
module KhcEnds {
  import opened Text
  import opened KhcText
  import opened KhcMachine
  import opened KhcRun
  import opened KhcSend
  import opened KhcHeaders
  import opened KhcResponse
  import opened KhcDelivery
  import opened KhcWork
  import opened KhcLook
  import opened KhcWalk
  import opened KhcBounds

  // ---------------------------------------------------------------------------------------------
  // Headers without an end

  /** An over-long line is being skipped, and the response ends in it with a CR, which is kept and kept
      again; or what follows it has no end. */
  predicate SkipUnfinished(s: string, status: int, cap: nat)
    decreases |s|, 0
  {
    match FindCrlf(s)
    case None => s != "" && s[|s| - 1] == '\r'
    case Some(i) => Unfinished(s[i + 2..], status, cap)
  }

  /** The header stops in the middle of a line that is not too long, or behind a CR in one that is, and the
      run ends at none of the lines in front of it. */
  predicate Unfinished(s: string, status: int, cap: nat)
    decreases |s|, 1
  {
    if Fits(s, cap) then
      var i := FindCrlf(s).value;
      if i == 0 then 100 <= status < 200 && StatusUnfinished(s[2..], cap) else Unfinished(s[i + 2..], status, cap)
    else if FindCrlf(s).None? && |s| + 1 < cap then true
    else Fills(s, cap) && !RequiredHeader(s[..cap - 1]) && SkipUnfinished(s, status, cap)
  }

  predicate StatusUnfinished(s: string, cap: nat)
    decreases |s|, 2
  {
    && Fits(s, cap) && StatusDigits(s[..FindCrlf(s).value]).Some?
    && Unfinished(s, StatusDigits(s[..FindCrlf(s).value]).value, cap)
  }

  predicate Endless(v: View, cap: nat) {
    match v
    case AtStatus(s) => StatusUnfinished(s, cap)
    case AtLine(s, status) => Unfinished(s, status, cap)
    case InSkip(s, len, status) => 0 < len <= |s| && !RequiredHeader(s[..len]) && SkipUnfinished(s, status, cap)
    case Outside => false
  }

  // ---------------------------------------------------------------------------------------------
  // All others are read to an end

  lemma FinishedBehind(s: string, m: nat, status: int, cap: nat)
    requires m <= |s| && Behind(s[m..]) == Behind(s) && SkipUnfinished(s[m..], status, cap)
    ensures SkipUnfinished(s, status, cap)
  {
    hide FindCrlf, Unfinished;
  }

  lemma FinishedLeads(v: View, v1: View, cap: nat, n: nat, again: bool)
    requires Clean(v) && Leads(v, v1, cap, n, again) && !Endless(v, cap)
    ensures !Endless(v1, cap)
  {
    hide FindCrlf, StatusDigits, RequiredHeader, SkipsOn, SkipUnfinished, Clear, StatusClear;
    if v.InSkip? { FinishedSkip(v, v1, cap, n, again); }
  }

  lemma FinishedSkip(v: View, v1: View, cap: nat, n: nat, again: bool)
    requires Clean(v) && SkipsOn(v, v1, cap, n, again) && !Endless(v, cap)
    ensures !Endless(v1, cap)
  {
    hide FindCrlf, RequiredHeader, Clear, Unfinished;
    SkipLeads(v, v1, cap, n, again);
    if v1.InSkip? && SkipUnfinished(v1.s, v1.status, cap) {
      FinishedBehind(v.s, FirstKept(v.s, v.len), v.status, cap);
    }
  }

  /** Nothing that is ahead has no end. */
  ghost predicate Ending(c: C) {
    && Walking(c) && SendInv(c) && !Endless(ViewOf(c), Cap(c.k))
    && (c.k.phase.ReadChunkSizeFromHeaderBuff? || c.k.phase.ReadChunkBodyFromHeaderBuff? ==> c.k.head.len > 0)
  }

  lemma EndingStep(c: C, r: Reply)
    requires Ending(c) && CanStep(c, r)
    ensures Ending(Next(c, r))
  {
    hide SendInv, CanStep, Next, Endless, Clean, Leads, Over, BodyNext, FindCrlf, OkBuffer, PhaseOk, ViewOf, Cap;
    var d := Next(c, r);
    AskedValid(c, r);
    StepKeepsSendInv(c, r);
    WalkStep(c, r);
    if ViewOf(c) != Outside && StaysIn(c, r, d) {
      FinishedLeads(ViewOf(c), ViewOf(d), Cap(c.k), Got(r), c.w.retries > 0);
      HeaderHoldsNoChunk(d);
    } else if ViewOf(c) != Outside {
      OutsideFinished(d);
      FirstHoldsNoChunk(d);
    } else {
      OutsideFinished(d);
      StepHoldsChunk(c, r);
    }
  }

  lemma OutsideFinished(c: C)
    requires Valid(c.k) && (ViewOf(c) == Outside || Over(c.k) || BodyFirst(c.k))
    ensures !Endless(ViewOf(c), Cap(c.k))
  {
  }

  lemma HeaderHoldsNoChunk(c: C)
    requires Valid(c.k) && ViewOf(c) != Outside
    ensures !c.k.phase.ReadChunkSizeFromHeaderBuff? && !c.k.phase.ReadChunkBodyFromHeaderBuff?
  {
  }

  lemma FirstHoldsNoChunk(c: C)
    requires Over(c.k) || BodyFirst(c.k)
    ensures !c.k.phase.ReadChunkSizeFromHeaderBuff? && !c.k.phase.ReadChunkBodyFromHeaderBuff?
  {
  }

  lemma StepHoldsChunk(c: C, r: Reply)
    requires CanStep(c, r) && Valid(c.k) && ViewOf(c) == Outside
    ensures var k1 := Next(c, r).k;
            k1.phase.ReadChunkSizeFromHeaderBuff? || k1.phase.ReadChunkBodyFromHeaderBuff? ==> k1.head.len > 0
  {
    hide Step, Advance, CallOf, Suits, Valid, Defined;
    CanStepMeans(c, r);
    BodyStaysBody(c.k, r);
  }

  /** There is headway, but where the end of the stream has been reached in an over-long line. */
  lemma EndingIsLively(c: C)
    requires Ending(c) && !(c.k.phase.RespHeaderSkip? && c.w.inbox == "")
    ensures Lively(c)
  {
    hide Pending, HeadText, BodyText, FullText, PhaseText, Clean, SkipUnfinished, FindCrlf;
    assert c.w.inbox == "" && c.k.phase.RespHeaderRead? ==> Ahead(c) == c.k.head.Contents();
  }

  /** There the run fails, or leaves the buffers. */
  lemma LastSkip(c: C, r: Reply)
    requires Ending(c) && CanStep(c, r) && c.k.phase.RespHeaderSkip? && c.w.inbox == ""
    ensures !Defined(Next(c, r).k) || Work(Next(c, r)) < Work(c)
  {
    hide FindCrlf, RequiredHeader, PutZ, DropZ, Put, SendInv, AskingLeft, SizeLineOk, SkipUnfinished, Clean;
    AskedValid(c, r);
    if r.Received? && r.code != SockFail {
      LastKept(c);
      if r.code == SockOk {
        RecvRefills(c, r);
        BeforeNul(Refilled(c.k.head, "").bytes, 0);
      } else {
        AgainSkips(c, r);
      }
    }
  }

  lemma LastKept(c: C)
    requires Aligned(c) && c.k.phase.RespHeaderSkip? && c.k.head.len > 0 && c.w.inbox == ""
    requires !Endless(ViewOf(c), Cap(c.k)) && !RequiredHeader(c.k.head.Contents())
    ensures Kept(c.k.head) == 0
  {
    hide FindCrlf, RequiredHeader, Unfinished;
    assert Ahead(c) == c.k.head.Contents();
    assert Ahead(c)[..c.k.head.len] == Ahead(c);
  }

  lemma {:induction false} EndingRuns(c: C, rs: seq<Reply>)
    requires Ending(c) && Runs(c, rs)
    ensures |rs| <= Work(c) + 1
    decreases |rs|
  {
    hide Ending, CanStep, Next, Work, Defined, Lively;
    if rs != [] {
      var d := Next(c, rs[0]);
      EndingStep(c, rs[0]);
      EndingRuns(d, rs[1..]);
      if c.k.phase.RespHeaderSkip? && c.w.inbox == "" {
        LastSkip(c, rs[0]);
        if !Defined(d.k) { NoMoreSteps(d, rs[1..]); }
      } else {
        EndingIsLively(c);
        StepWorks(c, rs[0]);
      }
    }
  }

  lemma NoMoreSteps(c: C, rs: seq<Reply>)
    requires !Defined(c.k) && Runs(c, rs)
    ensures rs == []
  {
    hide Defined;
  }

  // ---------------------------------------------------------------------------------------------
  // Runs without an end

  ghost predicate UnfinishedAhead(l: Look, hcap: nat) {
    || (l.phase.RespHeaderRead? && Unfinished(l.inbox, l.resp.status, hcap))
    || (l.phase.RespStatusRead? && StatusUnfinished(l.inbox, hcap))
  }

  lemma UnfinishedInStatus(s: string, cap: nat)
    requires StatusUnfinished(s, cap)
    ensures FindCrlf(s).Some?
    ensures var i := FindCrlf(s).value; Unfinished(s[i + 2..], StatusDigits(s[..i]).value, cap)
  {
    hide FindCrlf, StatusDigits, RequiredHeader, SkipUnfinished;
    StatusNotBlank(s);
  }

  lemma UnfinishedLong(s: string, status: int, cap: nat)
    requires Unfinished(s, status, cap) && !Fits(s, cap)
    ensures (FindCrlf(s).None? && |s| + 1 < cap) ||
            (|s| >= cap - 1 > 1 && !RequiredHeader(s[..cap - 1])
             && if FindCrlf(s).None? then s[|s| - 1] == '\r' else Unfinished(s[FindCrlf(s).value + 2..], status, cap))
  {
    hide FindCrlf, RequiredHeader;
  }

  lemma UnfinishedPasses(l: Look, hcap: nat)
    requires UnfinishedAhead(l, hcap) && FindCrlf(l.inbox).Some? && l.head == "" && hcap > 3
    ensures Passable(l, hcap) && UnfinishedAhead(Passed(l, hcap), hcap)
  {
    hide FindCrlf, RequiredHeader, IsChunkedEncoding, StatusDigits;
    if l.phase.RespStatusRead? {
      UnfinishedInStatus(l.inbox, hcap);
    } else if !Fits(l.inbox, hcap) {
      UnfinishedLong(l.inbox, l.resp.status, hcap);
    }
  }

  /** All that has come is in the header buffer, and it is no whole line, or a kept CR. */
  ghost predicate Stalls(l: Look, hcap: nat) {
    && l.inbox == "" && hcap > 3
    && if l.phase.RespHeaderSkip? then l.head == "\r"
       else l.phase.RespHeaderRead? && |l.head| + 1 < hcap && FindCrlf(l.head).None?
  }

  ghost predicate Waiting(c: C) { exists hcap, scap, l :: Looks(c, hcap, scap, l) && Stalls(l, hcap) }

  /** The end of the stream, seen while a line is being skipped with a CR buffered last. */
  lemma LookKeepsCr(c: C, hcap: nat, scap: nat, l: Look) returns (d: C)
    requires Looks(c, hcap, scap, l) && l.phase.RespHeaderSkip? && l.head != "" && !RequiredHeader(l.head) && hcap > 3
    requires l.head[|l.head| - 1] == '\r' && l.inbox == ""
    ensures Moves(c, d) && Looks(d, hcap, scap, l.(head := "\r", resp := l.resp.(readEnd := true)))
    ensures CanStep(c, Received(SockOk, "")) && d == Next(c, Received(SockOk, ""))
  {
    hide Moves, RequiredHeader, PutZ, DropZ, Put, FindCrlf, Valid, SizeLineOk;
    var r := Received(SockOk, "");
    LookCanSkip(c, hcap, scap, l, r);
    MovesOne(c, r);
    AskedValid(c, r);
    d := Next(c, r);
    assert c.k.head.Contents() == c.k.head.bytes[..c.k.head.len];
    RecvRefills(c, r);
    KeptCr(c.k.head);
    assert d.k.resp == c.k.resp.(readEnd := true);
  }

  lemma KeptCr(b: Buffer)
    requires 0 < b.len < |b.bytes| && Kept(b) == 1 && 2 < |b.bytes|
    ensures Refilled(b, "").Contents() == "\r" && FindCrlf(Refilled(b, "").bytes).None?
  {
    hide FindCrlf;
    SkippedContents(b);
    ContentsPutZ(Skipped(b), 1, "");
    CrlfBeforeNul(Refilled(b, "").bytes, 1);
    ShortNoCrlf("\r");
    assert b.Contents()[b.len - 1..] == "\r";
    assert Skipped(b).bytes[..1] == Skipped(b).Contents();
  }

  /** A tail that fits is buffered. */
  lemma TailWaits(c: C, hcap: nat, scap: nat, l: Look) returns (d: C)
    requires Looks(c, hcap, scap, l) && l.head == "" && hcap > 3 && l.phase.RespHeaderRead?
    requires FindCrlf(l.inbox).None? && |l.inbox| + 1 < hcap
    ensures Moves(c, d) && Waiting(d)
  {
    hide Moves, Looks, FindCrlf;
    assert l.inbox + "" == l.inbox == "" + l.inbox;
    var c1 := LookReceives(c, hcap, scap, l, l.inbox, "");
    var l1 := l.(phase := RespHeaderCallback, head := l.inbox, inbox := "",
                 resp := l.resp.(readEnd := l.inbox == "" || l.resp.readEnd));
    d := LookReadsOn(c1, hcap, scap, l1);
    MovesOn(c, c1, d);
    assert Looks(d, hcap, scap, l1.(phase := RespHeaderRead)) && Stalls(l1.(phase := RespHeaderRead), hcap);
  }

  /** An over-long one is skipped up to its last CR. */
  lemma LongTailWaits(c: C, hcap: nat, scap: nat, l: Look) returns (d: C)
    requires Looks(c, hcap, scap, l) && l.head == "" && hcap > 3 && l.phase.RespHeaderRead?
    requires FindCrlf(l.inbox).None? && NUL !in l.inbox && |l.inbox| >= hcap - 1 && !RequiredHeader(l.inbox[..hcap - 1])
    requires l.inbox[|l.inbox| - 1] == '\r'
    ensures Moves(c, d) && Waiting(d)
  {
    hide Moves, Looks, FindCrlf, RequiredHeader, LastOf;
    var s := l.inbox;
    NoEndBefore(s, hcap - 1);
    NoEndFound(s);
    var c1 := LookFills(c, hcap, scap, l);
    var l1 := l.(phase := RespHeaderSkip, head := s[..hcap - 1], inbox := s[hcap - 1..]);
    if |s| > hcap - 1 {
      var c2 := LookSkips(c1, hcap, scap, l1, s, hcap - 1, |s|);
      MovesOn(c, c1, c2);
      c1, l1 := c2, l1.(head := LastOf(s, |s|), inbox := s[|s|..]);
      ShortNotRequired(l1.head);
    }
    d := LookKeepsCr(c1, hcap, scap, l1);
    MovesOn(c, c1, d);
    var l2 := l1.(head := "\r", resp := l1.resp.(readEnd := true));
    assert Looks(d, hcap, scap, l2) && Stalls(l2, hcap);
  }

  lemma UnfinishedTail(l: Look, hcap: nat)
    requires UnfinishedAhead(l, hcap) && FindCrlf(l.inbox).None?
    ensures l.phase.RespHeaderRead?
    ensures |l.inbox| + 1 < hcap || (|l.inbox| >= hcap - 1 > 1 && !RequiredHeader(l.inbox[..hcap - 1])
                                     && l.inbox[|l.inbox| - 1] == '\r')
  {
    hide FindCrlf, RequiredHeader, Unfinished;
    if l.phase.RespHeaderRead? { UnfinishedLong(l.inbox, l.resp.status, hcap); }
  }

  lemma {:induction false} WaitingReached(c: C, hcap: nat, scap: nat, l: Look) returns (d: C)
    requires Looks(c, hcap, scap, l) && hcap > 3 && UnfinishedAhead(l, hcap) && ClearAhead(l)
    ensures Moves(c, d) && Waiting(d)
    decreases |l.inbox|
  {
    hide Moves, Looks, FindCrlf, UnfinishedAhead, RequiredHeader, Waiting, StatusClear, StatusDigits;
    if FindCrlf(l.inbox).Some? {
      UnfinishedPasses(l, hcap);
      ClearPasses(l, hcap);
      var c1 := Pass(c, hcap, scap, l);
      d := WaitingReached(c1, hcap, scap, Passed(l, hcap));
      MovesOn(c, c1, d);
    } else {
      UnfinishedTail(l, hcap);
      if |l.inbox| + 1 < hcap {
        d := TailWaits(c, hcap, scap, l);
      } else {
        d := LongTailWaits(c, hcap, scap, l);
      }
    }
  }

  /** Nothing comes, nothing is found, and the next read follows. */
  lemma ReadsOn(c: C, hcap: nat, scap: nat, l: Look) returns (rs: seq<Reply>)
    requires Looks(c, hcap, scap, l) && Stalls(l, hcap) && l.phase.RespHeaderRead?
    ensures Runs(c, rs) && rs != [] && Waiting(After(c, rs))
  {
    hide Moves, FindCrlf;
    assert "" == "" + "" && l.head + "" == l.head;
    var c1 := LookReceives(c, hcap, scap, l, "", "");
    var l1 := l.(phase := RespHeaderCallback, resp := l.resp.(readEnd := true));
    var d := LookReadsOn(c1, hcap, scap, l1);
    assert Looks(d, hcap, scap, l1.(phase := RespHeaderRead)) && Stalls(l1.(phase := RespHeaderRead), hcap);
    var rs1 := RunOf(c, c1);
    var rs2 := RunOf(c1, d);
    RunsOn(c, rs1, rs2);
    rs := rs1 + rs2;
  }

  lemma SkipsNothing(c: C, hcap: nat, scap: nat, l: Look) returns (rs: seq<Reply>)
    requires Looks(c, hcap, scap, l) && Stalls(l, hcap) && l.phase.RespHeaderSkip?
    ensures Runs(c, rs) && rs != [] && Waiting(After(c, rs))
  {
    hide Moves, FindCrlf, Looks, RequiredHeader, CanStep, Next;
    ShortNotRequired(l.head);
    var d := LookKeepsCr(c, hcap, scap, l);
    var l1 := l.(head := "\r", resp := l.resp.(readEnd := true));
    assert Looks(d, hcap, scap, l1) && Stalls(l1, hcap);
    rs := [Received(SockOk, "")];
    assert rs[1..] == [];
    assert Runs(d, []) && After(d, []) == d;
  }

  lemma {:induction false} WaitsFor(c: C, n: nat) returns (rs: seq<Reply>)
    requires Waiting(c)
    ensures Runs(c, rs) && |rs| >= n && Waiting(After(c, rs))
    decreases n
  {
    hide Runs, After, Looks, FindCrlf;
    var hcap, scap, l :| Looks(c, hcap, scap, l) && Stalls(l, hcap);
    if l.phase.RespHeaderSkip? { rs := SkipsNothing(c, hcap, scap, l); } else { rs := ReadsOn(c, hcap, scap, l); }
    if n > 1 {
      var ts := WaitsFor(After(c, rs), n - 1);
      RunsOn(c, rs, ts);
      rs := rs + ts;
    }
  }

  lemma UnfinishedHasRoom(s: string, cap: nat)
    requires StatusUnfinished(s, cap)
    ensures cap >= 15
  {
    hide FindCrlf, Unfinished;
  }

  /** There are runs of any length. */
  lemma NeverEnds(c: C, n: nat)
    requires Fresh(c) && StatusClear(c.w.inbox) && StatusUnfinished(c.w.inbox, Cap(c.k))
    ensures exists rs :: Runs(c, rs) && |rs| >= n && !After(c, rs).k.phase.Finished?
  {
    hide Moves, Runs, After, Looks, Waiting, StatusUnfinished, StatusClear;
    UnfinishedHasRoom(c.w.inbox, Cap(c.k));
    var c1, stream := Starts(c);
    var d := WaitingReached(c1, Cap(c.k), SizeOfBuffer(c.k.stream, STREAM_BUFF_SIZE),
                            Starting(stream, c.w.inbox, c.w.retries));
    MovesOn(c, c1, d);
    var rs := RunOf(c, d);
    var ts := WaitsFor(d, n);
    RunsOn(c, rs, ts);
    WaitingIsReading(After(d, ts));
  }

  lemma WaitingIsReading(c: C)
    requires Waiting(c)
    ensures !c.k.phase.Finished?
  {
  }

  // ---------------------------------------------------------------------------------------------
  // The condition

  ghost predicate Bounded(c: C, n: nat) { forall rs :: Runs(c, rs) ==> |rs| <= n }

  lemma FreshEnds(c: C)
    requires Fresh(c) && |c.k.stream.bytes| < PIECE_LIMIT && StatusClear(c.w.inbox)
    requires !StatusUnfinished(c.w.inbox, Cap(c.k))
    ensures Ending(c)
  {
    hide StatusClear, StatusUnfinished, Pending, HeadText, BodyText, FullText, PhaseText;
    FreshWalks(c);
  }

  /** Exactly which responses bound the number of handler calls, whatever the socket, the callbacks and the
      server of the body do: all but those whose header stops in a line that is not too long, or behind a CR in
      one that is. */
  lemma EndsDecided(c: C)
    requires Fresh(c) && |c.k.stream.bytes| < PIECE_LIMIT && StatusClear(c.w.inbox)
    ensures (exists n: nat :: Bounded(c, n)) <==> !StatusUnfinished(c.w.inbox, Cap(c.k))
    ensures !StatusUnfinished(c.w.inbox, Cap(c.k)) ==> Bounded(c, Work(c) + 1)
  {
    hide Runs, Fresh, StatusUnfinished, StatusClear, Ending, Work;
    if StatusUnfinished(c.w.inbox, Cap(c.k)) {
      forall n: nat ensures !Bounded(c, n) {
        NeverEnds(c, n + 1);
      }
    } else {
      FreshEnds(c);
      forall rs | Runs(c, rs) ensures |rs| <= Work(c) + 1 { EndingRuns(c, rs); }
      assert Bounded(c, Work(c) + 1);
    }
  }
}
