/** When the code stays inside its buffers while it reads the header of a response, complete or not. */
module KhcBounds {
  import opened Text
  import opened KhcText
  import opened KhcMachine
  import opened KhcRun
  import opened KhcHeaders
  import opened KhcChunk
  import opened KhcResponse
  import opened KhcDelivery
  import opened KhcLook
  import opened KhcWalk

  // ---------------------------------------------------------------------------------------------
  // Which responses are dangerous

  /** Of `s` from `a` to `b` not every byte is a CR. */
  predicate OtherThanCr(s: string, a: int, b: int)
    requires 0 <= a && b <= |s|
  {
    exists p :: a <= p < b && s[p] != '\r'
  }

  /** A line is being skipped of which `len` bytes are buffered.  Where the socket may have to be asked
      `again`, any byte from the last buffered one to the end of the line is dangerous that is no CR;
      where it has not, only the last one of a response that ends in that line.  Or what follows is. */
  predicate SkipDanger(s: string, len: nat, status: int, cap: nat, again: bool)
    requires 0 < len <= |s|
    decreases |s|, 0
  {
    match FindCrlf(s)
    case Some(i) => (again && OtherThanCr(s, len - 1, i)) || LineDanger(s[i + 2..], status, cap, again)
    case None => if again then OtherThanCr(s, len - 1, |s|) else s[|s| - 1] != '\r'
  }

  /** In the rest of a block of header lines, or after it when it is informational, an over-long line is
      dangerous, and in front of it there is none at which the run ends. */
  predicate LineDanger(s: string, status: int, cap: nat, again: bool)
    decreases |s|, 1
  {
    if Fits(s, cap) then
      var i := FindCrlf(s).value;
      if i == 0 then 100 <= status < 200 && StatusDanger(s[2..], cap, again) else LineDanger(s[i + 2..], status, cap, again)
    else Fills(s, cap) && !RequiredHeader(s[..cap - 1]) && SkipDanger(s, cap - 1, status, cap, again)
  }

  predicate StatusDanger(s: string, cap: nat, again: bool)
    decreases |s|, 2
  {
    && Fits(s, cap) && StatusDigits(s[..FindCrlf(s).value]).Some?
    && LineDanger(s, StatusDigits(s[..FindCrlf(s).value]).value, cap, again)
  }

  predicate Danger(v: View, cap: nat, again: bool) {
    match v
    case AtStatus(s) => StatusDanger(s, cap, again)
    case AtLine(s, status) => LineDanger(s, status, cap, again)
    case InSkip(s, len, status) =>
      len == 0 || (len <= |s| && !RequiredHeader(s[..len]) && SkipDanger(s, len, status, cap, again))
    case Outside => false
  }

  // ---------------------------------------------------------------------------------------------
  // Without a danger, no run leaves the buffers

  /** A danger ahead of the bytes kept was one before. */
  lemma SkipStaysSafe(s: string, len: nat, n: nat, status: int, cap: nat, again: bool)
    requires 0 < len <= |s| - n && FindCrlf(s[..len]).None? && (FindCrlf(s).None? ==> NUL !in s)
    requires !SkipDanger(s, len, status, cap, again) && (n == 0 ==> again || len == |s|)
    ensures FirstKept(s, len) < len + n
    ensures var m := FirstKept(s, len);
            !SkipDanger(s[m..], len - m + n, status, cap, again)
  {
    hide FindCrlf, LineDanger;
    var m := FirstKept(s, len);
    AheadKept(s, len);
    assert s[..len] + s[len..] == s;
    CrlfInPrefix(s[..len], s[len..]);
    assert forall p :: m <= p < |s| ==> s[m..][p - m] == s[p];
    assert |s[..len]| == len && s[..|s|] == s;
  }

  lemma SafeSkip(v: View, v1: View, cap: nat, n: nat, again: bool)
    requires Clean(v) && SkipsOn(v, v1, cap, n, again) && !Danger(v, cap, again)
    ensures !Danger(v1, cap, again)
  {
    hide FindCrlf, RequiredHeader, LineDanger, SkipDanger, Clear;
    SkipLeads(v, v1, cap, n, again);
    SkipStaysSafe(v.s, v.len, n, v.status, cap, again);
    SafeBehind(v.s, v.len, v.status, cap, again);
  }

  lemma SafeBehind(s: string, len: nat, status: int, cap: nat, again: bool)
    requires 0 < len <= |s| && !SkipDanger(s, len, status, cap, again)
    ensures Behind(s).Some? ==> !LineDanger(Behind(s).value, status, cap, again)
  {
    hide FindCrlf, LineDanger;
  }

  lemma SafeLeads(v: View, v1: View, cap: nat, n: nat, again: bool)
    requires Clean(v) && Leads(v, v1, cap, n, again) && !Danger(v, cap, again)
    ensures !Danger(v1, cap, again)
  {
    hide FindCrlf, StatusDigits, RequiredHeader, SkipsOn, SkipDanger, Clean;
    if v.InSkip? { SafeSkip(v, v1, cap, n, again); }
  }

  lemma LeadsAgain(v: View, v1: View, cap: nat, n: nat, again: bool)
    requires Leads(v, v1, cap, n, again)
    ensures Leads(v, v1, cap, n, true)
  {
    hide FindCrlf, StatusDigits, RequiredHeader;
  }

  /** An over-long line is being skipped, and its buffer has been emptied: the next handler call reads the
      byte in front of the buffer. */
  predicate Emptied(k: K) { k.phase.RespHeaderSkip? && k.head.len == 0 }

  /** Nothing that is ahead is a danger. */
  ghost predicate Spared(c: C, again: bool) {
    Walking(c) && (c.w.retries > 0 ==> again) && !Danger(ViewOf(c), Cap(c.k), again)
  }

  lemma SparedStep(c: C, r: Reply, again: bool)
    requires Spared(c, again) && CanStep(c, r)
    ensures Spared(Next(c, r), again)
  {
    hide CanStep, Next, Danger, Clean, Leads, Over, BodyFirst, BodyNext, FindCrlf, OkBuffer, PhaseOk, ViewOf, Cap;
    var d := Next(c, r);
    AskedValid(c, r);
    WalkStep(c, r);
    RetriesFall(c, r);
    if ViewOf(c) != Outside && StaysIn(c, r, d) {
      if again { LeadsAgain(ViewOf(c), ViewOf(d), Cap(c.k), Got(r), c.w.retries > 0); }
      SafeLeads(ViewOf(c), ViewOf(d), Cap(c.k), Got(r), again);
    } else {
      if ViewOf(c) != Outside { HeaderIsOver(d); }
      NoDanger(d, again);
    }
  }

  lemma NoDanger(c: C, again: bool)
    requires Valid(c.k) && ViewOf(c) == Outside
    ensures !Danger(ViewOf(c), Cap(c.k), again)
  {
  }

  lemma NotEmptied(c: C, again: bool)
    requires Spared(c, again)
    ensures !Emptied(c.k)
  {
    hide FindCrlf, Clean;
  }

  lemma {:induction false} SparedRun(c: C, rs: seq<Reply>, again: bool)
    requires Spared(c, again) && Runs(c, rs)
    ensures Spared(After(c, rs), again) && !Emptied(After(c, rs).k)
    decreases |rs|
  {
    hide Spared, CanStep, Next, Emptied;
    NotEmptied(c, again);
    if rs != [] {
      SparedStep(c, rs[0], again);
      SparedRun(Next(c, rs[0]), rs[1..], again);
    }
  }

  lemma FreshWalks(c: C)
    requires Fresh(c) && StatusClear(c.w.inbox)
    ensures Walking(c) && ViewOf(c) == AtStatus(c.w.inbox)
  {
    hide StatusClear;
    AskingView(c);
  }

  // ---------------------------------------------------------------------------------------------
  // With one, a run does

  /** Of the line that is being skipped the last byte that is buffered is no CR, and nothing more comes. */
  lemma LookEmpties(c: C, hcap: nat, scap: nat, l: Look) returns (d: C)
    requires Looks(c, hcap, scap, l) && l.phase.RespHeaderSkip? && l.head != "" && !RequiredHeader(l.head) && hcap > 3
    requires l.head[|l.head| - 1] != '\r' && (l.retries > 0 || l.inbox == "")
    ensures Moves(c, d) && Emptied(d.k)
  {
    hide Moves, RequiredHeader, Put, PutZ, DropZ, FindCrlf, Valid;
    var r := Received(if l.retries > 0 then SockAgain else SockOk, "");
    LookCanSkip(c, hcap, scap, l, r);
    MovesOne(c, r);
    d := Next(c, r);
    assert c.k.head.Contents() == c.k.head.bytes[..c.k.head.len];
    if l.retries > 0 {
      AgainSkips(c, r);
    } else {
      RecvRefills(c, r);
      BeforeNul(Refilled(c.k.head, "").bytes, 0);
    }
  }

  /** Byte by byte to the dangerous byte, and nothing more there. */
  lemma SkipsAway(c: C, hcap: nat, scap: nat, l: Look, s: string, p: nat) returns (d: C)
    requires Looks(c, hcap, scap, l) && l.phase.RespHeaderSkip? && l.head != "" && !RequiredHeader(l.head) && hcap > 3
    requires s == l.head + l.inbox && |l.head| - 1 <= p < |s| && s[p] != '\r' && NoEnd(s, |l.head| - 1, p + 1)
    requires l.retries > 0 || p == |s| - 1
    ensures Moves(c, d) && Emptied(d.k)
  {
    hide Moves, Looks, RequiredHeader, LastOf;
    var c1, l1 := c, l;
    assert s[|l.head| - 1] == l.head[|l.head| - 1];
    if |l.head| < p + 1 {
      assert s[|l.head|..] == l.inbox;
      c1 := LookSkips(c, hcap, scap, l, s, |l.head|, p + 1);
      l1 := l.(head := LastOf(s, p + 1), inbox := s[p + 1..]);
      ShortNotRequired(l1.head);
    } else {
      NoMoves(c);
    }
    d := LookEmpties(c1, hcap, scap, l1);
    MovesOn(c, c1, d);
  }

  ghost predicate DangerAhead(l: Look, hcap: nat) {
    || (l.phase.RespHeaderRead? && LineDanger(l.inbox, l.resp.status, hcap, l.retries > 0))
    || (l.phase.RespStatusRead? && StatusDanger(l.inbox, hcap, l.retries > 0))
  }

  /** The byte that is dangerous in the first line. */
  ghost predicate DangerAt(s: string, p: nat, cap: nat, retries: nat) {
    && Fills(s, cap) && !RequiredHeader(s[..cap - 1]) && FindCrlf(s[..cap - 1]).None?
    && cap - 2 <= p < |s| && s[p] != '\r' && NoEnd(s, 0, p + 1) && (retries > 0 || p == |s| - 1)
  }

  /** Nothing is buffered, and what is ahead is one of the responses that are looked at. */
  ghost predicate ClearAhead(l: Look) {
    l.head == "" && if l.phase.RespStatusRead? then StatusClear(l.inbox) else Clear(l.inbox, l.resp.status)
  }

  lemma ClearPasses(l: Look, hcap: nat)
    requires ClearAhead(l) && Passable(l, hcap)
    ensures ClearAhead(Passed(l, hcap))
  {
    hide FindCrlf, RequiredHeader, IsChunkedEncoding, StatusDigits;
    StatusNotBlank(l.inbox);
    if l.phase.RespStatusRead? { ClearStatus(l.inbox); }
  }

  lemma ClearStatus(s: string)
    requires StatusClear(s) && FindCrlf(s).Some? && StatusDigits(s[..FindCrlf(s).value]).Some?
    ensures Clear(s[FindCrlf(s).value + 2..], StatusDigits(s[..FindCrlf(s).value]).value)
  {
    hide FindCrlf, StatusDigits;
    StatusNotBlank(s);
  }

  lemma StatusNotBlank(s: string)
    ensures forall i :: 0 <= i <= |s| && StatusDigits(s[..i]).Some? ==> i > 0
  {
  }

  /** The status line itself is no danger. */
  lemma DangerInStatus(s: string, cap: nat, again: bool)
    requires StatusDanger(s, cap, again)
    ensures FindCrlf(s).Some?
    ensures var i := FindCrlf(s).value; LineDanger(s[i + 2..], StatusDigits(s[..i]).value, cap, again)
  {
    hide FindCrlf, StatusDigits, RequiredHeader, SkipDanger;
    StatusNotBlank(s);
  }

  /** The danger is in the first line, or this line is passed. */
  lemma DangerStays(l: Look, hcap: nat)
    requires DangerAhead(l, hcap) && ClearAhead(l) && hcap > 3
    ensures (Passable(l, hcap) && DangerAhead(Passed(l, hcap), hcap))
            || (l.phase.RespHeaderRead? && exists p :: DangerAt(l.inbox, p, hcap, l.retries))
  {
    hide FindCrlf, RequiredHeader, IsChunkedEncoding, StatusDigits, DangerAt, SkipDanger, StatusClear;
    if l.phase.RespStatusRead? {
      DangerInStatus(l.inbox, hcap, l.retries > 0);
    } else if !Fits(l.inbox, hcap) {
      LongDanger(l.inbox, l.resp.status, hcap, l.retries);
    }
  }

  lemma LongDanger(s: string, status: int, cap: nat, retries: nat)
    requires Fills(s, cap) && !RequiredHeader(s[..cap - 1]) && SkipDanger(s, cap - 1, status, cap, retries > 0)
    requires Clear(s, status)
    ensures || (FindCrlf(s).Some? && LineDanger(s[FindCrlf(s).value + 2..], status, cap, retries > 0))
            || exists p :: DangerAt(s, p, cap, retries)
  {
    hide FindCrlf, LineDanger, RequiredHeader;
    NoEndBefore(s, cap - 1);
    if FindCrlf(s).None? {
      NoEndFound(s);
      var p :| cap - 2 <= p < |s| && s[p] != '\r' && (retries > 0 || p == |s| - 1);
      assert DangerAt(s, p, cap, retries);
    } else if !LineDanger(s[FindCrlf(s).value + 2..], status, cap, retries > 0) {
      CrlfFound(s);
      var p :| cap - 2 <= p < FindCrlf(s).value && s[p] != '\r';
      assert DangerAt(s, p, cap, retries);
    }
  }

  lemma DangerHere(c: C, hcap: nat, scap: nat, l: Look, p: nat) returns (d: C)
    requires Looks(c, hcap, scap, l) && l.phase.RespHeaderRead? && l.head == "" && hcap > 3
    requires DangerAt(l.inbox, p, hcap, l.retries)
    ensures Moves(c, d) && Emptied(d.k)
  {
    hide Moves, Looks, RequiredHeader, FindCrlf, Emptied;
    var s := l.inbox;
    var c1 := LookFills(c, hcap, scap, l);
    d := SkipsAway(c1, hcap, scap, l.(phase := RespHeaderSkip, head := s[..hcap - 1], inbox := s[hcap - 1..]), s, p);
    MovesOn(c, c1, d);
  }

  lemma {:induction false} DangerReached(c: C, hcap: nat, scap: nat, l: Look) returns (d: C)
    requires Looks(c, hcap, scap, l) && hcap > 3 && DangerAhead(l, hcap) && ClearAhead(l)
    ensures Moves(c, d) && Emptied(d.k)
    decreases |l.inbox|
  {
    hide Moves, Looks, RequiredHeader, FindCrlf, Emptied, DangerAhead, DangerAt, StatusDigits, Clear, StatusClear;
    DangerStays(l, hcap);
    if Passable(l, hcap) && DangerAhead(Passed(l, hcap), hcap) {
      ClearPasses(l, hcap);
      var c1 := Pass(c, hcap, scap, l);
      d := DangerReached(c1, hcap, scap, Passed(l, hcap));
      MovesOn(c, c1, d);
    } else {
      var p :| DangerAt(l.inbox, p, hcap, l.retries);
      d := DangerHere(c, hcap, scap, l, p);
    }
  }

  lemma DangerHasRoom(s: string, cap: nat, again: bool)
    requires StatusDanger(s, cap, again)
    ensures cap >= 15
  {
    hide FindCrlf, LineDanger;
  }

  /** Exactly when some run empties the buffer of an over-long line, for every response, complete or not, of
      any body, and every way the socket can cut it into pieces. */
  lemma HeaderDecided(c: C)
    requires Fresh(c) && StatusClear(c.w.inbox)
    ensures (exists rs :: Runs(c, rs) && Emptied(After(c, rs).k)) <==>
            StatusDanger(c.w.inbox, Cap(c.k), c.w.retries > 0)
  {
    hide Fresh, Moves, Runs, After, StatusClear, Spared, StatusDanger, Emptied;
    var again := c.w.retries > 0;
    if StatusDanger(c.w.inbox, Cap(c.k), again) {
      DangerHasRoom(c.w.inbox, Cap(c.k), again);
      var c1, stream := Starts(c);
      var d := DangerReached(c1, Cap(c.k), SizeOfBuffer(c.k.stream, STREAM_BUFF_SIZE),
                             Starting(stream, c.w.inbox, c.w.retries));
      MovesOn(c, c1, d);
      var rs := RunOf(c, d);
      assert Runs(c, rs) && Emptied(After(c, rs).k);
    } else {
      FreshSpared(c, again);
      forall rs | Runs(c, rs) ensures !Emptied(After(c, rs).k) { SparedRun(c, rs, again); }
    }
  }

  lemma FreshSpared(c: C, again: bool)
    requires Fresh(c) && StatusClear(c.w.inbox) && again == (c.w.retries > 0) && !StatusDanger(c.w.inbox, Cap(c.k), again)
    ensures Spared(c, again)
  {
    hide StatusDanger, StatusClear;
    FreshWalks(c);
  }

  // ---------------------------------------------------------------------------------------------
  // Responses that stop in their header

  /** The header has an end. */
  predicate Complete(v: View, cap: nat) {
    match v
    case AtStatus(s) => Answer(s, cap).Some?
    case AtLine(s, status) => Resume(s, status, cap).Some?
    case InSkip(s, _, status) => Behind(s).Some? && Resume(Behind(s).value, status, cap).Some?
    case Outside => true
  }

  lemma ResumeBehind(s: string, status: int, cap: nat)
    ensures Resume(s, status, cap).Some? <==>
              FindCrlf(s).Some? && if FindCrlf(s).value > 0 then Resume(s[FindCrlf(s).value + 2..], status, cap).Some?
                                   else 100 <= status < 200 ==> Answer(s[2..], cap).Some?
  {
    hide FindCrlf, Answer;
  }

  lemma CompleteLeads(v: View, v1: View, cap: nat, n: nat, again: bool)
    requires Clean(v) && Leads(v, v1, cap, n, again) && !Complete(v, cap)
    ensures !Complete(v1, cap)
  {
    hide FindCrlf, StatusDigits, RequiredHeader, SkipsOn, Clear, StatusClear, Resume;
    match v
    case AtStatus(s) =>
    case AtLine(s, status) => ResumeBehind(s, status, cap);
    case InSkip(s, _, status) => SkipLeads(v, v1, cap, n, again);
    case Outside =>
  }

  lemma BodyIsComplete(v: View, cap: nat)
    requires BodyNext(v)
    ensures Complete(v, cap)
  {
    hide FindCrlf, Resume;
    ResumeBehind(v.s, v.status, cap);
  }

  /** The end of the header is not in sight, or the run has failed. */
  ghost predicate Partial(c: C) { Walking(c) && (Over(c.k) || (ViewOf(c) != Outside && !Complete(ViewOf(c), Cap(c.k)))) }

  lemma OverStays(c: C, r: Reply)
    requires CanStep(c, r) && Over(c.k)
    ensures Over(Next(c, r).k)
  {
    hide SizeLineOk, FindCrlf, Free;
  }

  lemma PartialStep(c: C, r: Reply)
    requires Partial(c) && CanStep(c, r)
    ensures Partial(Next(c, r))
  {
    hide CanStep, Next, Complete, Clean, Leads, BodyFirst, BodyNext, FindCrlf, OkBuffer, PhaseOk, ViewOf, Cap, Over;
    var d := Next(c, r);
    AskedValid(c, r);
    WalkStep(c, r);
    if Over(c.k) {
      OverStays(c, r);
    } else if StaysIn(c, r, d) {
      CompleteLeads(ViewOf(c), ViewOf(d), Cap(c.k), Got(r), c.w.retries > 0);
    } else if BodyNext(ViewOf(c)) {
      BodyIsComplete(ViewOf(c), Cap(c.k));
    }
  }

  lemma PartialDefined(c: C)
    requires Partial(c)
    ensures Defined(c.k) <==> !Emptied(c.k)
  {
    hide Complete, FindCrlf, StatusDigits, Clear, StatusInside;
    if c.k.phase.RespStatusParse? {
      CrlfInPrefix(c.k.head.Contents(), c.w.inbox);
      StatusOfBuffer(c.k.head, c.w.inbox);
    }
  }

  lemma {:induction false} PartialRun(c: C, rs: seq<Reply>)
    requires Partial(c) && Runs(c, rs)
    ensures Partial(After(c, rs))
    decreases |rs|
  {
    hide Partial, CanStep, Next;
    if rs != [] {
      PartialStep(c, rs[0]);
      PartialRun(Next(c, rs[0]), rs[1..]);
    }
  }

  /** A complete header is one of those that are looked at here. */
  lemma {:induction false} ResumeIsClear(s: string, status: int, cap: nat)
    requires Resume(s, status, cap).Some?
    ensures Clear(s, status)
    decreases |s|, 0
  {
    hide FindCrlf, Resume, Answer;
    ResumeBehind(s, status, cap);
    var i := FindCrlf(s).value;
    if i > 0 {
      ResumeIsClear(s[i + 2..], status, cap);
    } else if 100 <= status < 200 {
      AnswerIsClear(s[2..], cap);
    }
  }

  lemma {:induction false} AnswerIsClear(s: string, cap: nat)
    requires Answer(s, cap).Some?
    ensures StatusClear(s)
    decreases |s|, 1
  {
    hide FindCrlf, Resume, StatusDigits;
    var i := FindCrlf(s).value;
    StatusLength(s[..i]);
    ResumeIsClear(s, StatusDigits(s[..i]).value, cap);
  }

  lemma PromisedIsClear(c: C, e: Expected)
    requires Promises(c, e)
    ensures StatusClear(c.w.inbox)
  {
    hide Answer, Decode, AnyChunked, StatusClear;
    AnswerIsClear(c.w.inbox, SizeOfBuffer(c.k.head, HEADER_BUFF_SIZE));
  }

  // ---------------------------------------------------------------------------------------------
  // The condition

  /** The response is as it was promised, or it stops in its header. */
  ghost predicate Foreseen(c: C) {
    if Answer(c.w.inbox, Cap(c.k)).Some? then exists e :: Promises(c, e) else StatusClear(c.w.inbox)
  }

  lemma EmptiedOnly(c: C, rs: seq<Reply>)
    requires Fresh(c) && Foreseen(c) && Runs(c, rs)
    ensures Defined(After(c, rs).k) <==> !Emptied(After(c, rs).k)
  {
    hide Fresh, Promises, Defined, Runs, After, RespInv, Partial, StatusClear, Answer;
    if Answer(c.w.inbox, Cap(c.k)).Some? {
      var e :| Promises(c, e);
      FreshIsBefore(c, e);
      RespRun(c, rs, e);
      ResponseDefined(After(c, rs), e);
    } else {
      FreshPartial(c);
      PartialRun(c, rs);
      PartialDefined(After(c, rs));
    }
  }

  lemma FreshPartial(c: C)
    requires Fresh(c) && StatusClear(c.w.inbox) && Answer(c.w.inbox, Cap(c.k)).None?
    ensures Partial(c)
  {
    hide StatusClear, Answer;
    FreshWalks(c);
  }

  /** Exactly when the code stays inside its buffers, for every response that is as promised or stops in its
      header, every socket and every way it can cut the response: when no line of the header is a danger. */
  lemma SafetyDecided(c: C)
    requires Fresh(c) && Foreseen(c)
    ensures (forall rs :: Runs(c, rs) ==> Defined(After(c, rs).k)) <==> !StatusDanger(c.w.inbox, Cap(c.k), c.w.retries > 0)
  {
    hide Fresh, Defined, Runs, After, StatusDanger, Emptied, Promises, StatusClear, Answer;
    if Answer(c.w.inbox, Cap(c.k)).Some? { AnswerIsClear(c.w.inbox, Cap(c.k)); }
    HeaderDecided(c);
    forall rs | Runs(c, rs) ensures Defined(After(c, rs).k) <==> !Emptied(After(c, rs).k) { EmptiedOnly(c, rs); }
    if StatusDanger(c.w.inbox, Cap(c.k), c.w.retries > 0) {
      var rs :| Runs(c, rs) && Emptied(After(c, rs).k);
      assert !Defined(After(c, rs).k);
    }
  }

  // ---------------------------------------------------------------------------------------------
  // Two responses

  /** A status line, a line of as many bytes as the header buffer has, a blank line. */
  function RiskyResponse(hcap: nat): string { STATUS + (CRLF + (Zeros(hcap) + (CRLF + CRLF))) }

  /** It is as promised for all buffers, and a retry makes it dangerous. */
  lemma RiskyExample(hcap: nat, scap: nat)
    requires hcap >= 15
    ensures Expect(RiskyResponse(hcap), hcap, scap) == Some(Expected([STATUS], "", ""))
    ensures StatusDanger(RiskyResponse(hcap), hcap, true) && !StatusDanger(RiskyResponse(hcap), hcap, false)
  {
    hide FindCrlf, StatusDigits, RequiredHeader, Zeros, IsChunkedEncoding;
    var s1 := Zeros(hcap) + (CRLF + CRLF);
    var s := RiskyResponse(hcap);
    StatusRead();
    StatusNotChunked();
    ZerosLength(hcap);
    CrlfAfter(STATUS, s1);
    CrlfAfter(Zeros(hcap), CRLF);
    assert s[..12] == STATUS && s[14..] == s1;
    RiskyZeros(hcap);
    BlockLine(STATUS, s1, hcap, [], "");
    assert [STATUS] + [] == [STATUS];
    assert Answer(s, hcap) == Some(Heads([STATUS], ""));
    assert [STATUS][0] == STATUS && !AnyChunked([STATUS]);
  }

  lemma RiskyZeros(hcap: nat)
    requires hcap >= 15
    ensures var s1 := Zeros(hcap) + (CRLF + CRLF);
            Block(s1, hcap) == Some(Heads([], "")) && LineDanger(s1, 200, hcap, true) && !LineDanger(s1, 200, hcap, false)
  {
    hide FindCrlf, RequiredHeader, Zeros;
    var s1 := Zeros(hcap) + (CRLF + CRLF);
    ZerosLength(hcap);
    CrlfAfter(Zeros(hcap), CRLF);
    assert s1[hcap + 2..] == CRLF == CRLF + "";
    BlankBlock("", hcap);
    BlankFirst();
    assert s1[..hcap - 1][0] == s1[0] == Zeros(hcap)[0] && s1[hcap - 2] == Zeros(hcap)[hcap - 2];
    ZerosNotRequired(s1[..hcap - 1]);
    assert OtherThanCr(s1, hcap - 2, hcap);
    assert !LineDanger(CRLF, 200, hcap, false);
    assert !SkipDanger(s1, hcap - 1, 200, hcap, false) && SkipDanger(s1, hcap - 1, 200, hcap, true);
  }

  lemma BlankFirst()
    ensures FindCrlf(CRLF) == Some(0)
  {
  }

  lemma ZerosNotRequired(s: string)
    requires s != "" && s[0] == '0'
    ensures !RequiredHeader(s)
  {
    assert "Content-Length"[0] == 'C' && "Transfer-Encoding"[0] == 'T';
  }

  /** A status line, and a line that fills the header buffer and has no end. */
  function EndlessLine(hcap: nat): string
    requires hcap > 0
  {
    STATUS + (CRLF + Zeros(hcap - 1))
  }

  /** Over a socket that never has to be asked again the code leaves its buffer all the same. */
  lemma BlockingEscapes(c: C)
    requires Fresh(c) && Cap(c.k) >= 15 && c.w.retries == 0 && c.w.inbox == EndlessLine(Cap(c.k))
    ensures exists rs :: Runs(c, rs) && !Defined(After(c, rs).k)
  {
    hide Fresh, Runs, After, Defined, StatusDanger, StatusClear, Answer, Promises;
    EndlessZeros(Cap(c.k));
    SafetyDecided(c);
  }

  lemma EndlessZeros(hcap: nat)
    requires hcap >= 15
    ensures var s := EndlessLine(hcap);
            StatusClear(s) && Answer(s, hcap).None? && StatusDanger(s, hcap, false) && StatusDanger(s, hcap, true)
  {
    hide FindCrlf, StatusDigits, RequiredHeader, Zeros, SkipDanger;
    var s, s1 := EndlessLine(hcap), Zeros(hcap - 1);
    StatusRead();
    CrlfAfter(STATUS, s1);
    assert s[..12] == STATUS && s[14..] == s1;
    TailZeros(hcap);
    ResumeBehind(s, 200, hcap);
    ResumeBehind(s1, 200, hcap);
    assert LineDanger(s, 200, hcap, false) == LineDanger(s1, 200, hcap, false);
    assert LineDanger(s, 200, hcap, true) == LineDanger(s1, 200, hcap, true);
  }

  lemma TailZeros(hcap: nat)
    requires hcap >= 15
    ensures var s1 := Zeros(hcap - 1);
            FindCrlf(s1).None? && Clear(s1, 200) && LineDanger(s1, 200, hcap, false) && LineDanger(s1, 200, hcap, true)
  {
    hide FindCrlf, RequiredHeader, Zeros;
    var s1 := Zeros(hcap - 1);
    ZerosLength(hcap - 1);
    ZerosHaveNoEnd(hcap - 1);
    assert s1[..hcap - 1] == s1;
    ZerosNotRequired(s1);
    assert s1[hcap - 2] == '0';
    assert OtherThanCr(s1, hcap - 2, |s1|);
  }

  lemma ZerosHaveNoEnd(n: nat)
    ensures FindCrlf(Zeros(n)).None? && NUL !in Zeros(n)
  {
    ZerosLength(n);
    if FindCrlf(Zeros(n)).Some? { CrlfFound(Zeros(n)); }
  }

  /** With a header buffer of the caller's of fewer than ten bytes a blank status line is enough. */
  lemma SmallBufferEscapes(c: C, more: string)
    requires Fresh(c) && 3 <= Cap(c.k) <= 9 && c.w.inbox == CRLF + more
    ensures exists rs :: Runs(c, rs) && !Defined(After(c, rs).k)
  {
    hide Moves, Runs, After, Fresh, FindCrlf, Valid;
    BlankFirst();
    var hcap, scap := Cap(c.k), SizeOfBuffer(c.k.stream, STREAM_BUFF_SIZE);
    var c1, stream := Starts(c);
    var d := LookReceives(c1, hcap, scap, Starting(stream, c.w.inbox, c.w.retries), CRLF, more);
    MovesOn(c, c1, d);
    var rs := RunOf(c, d);
    assert Runs(c, rs) && !Defined(After(c, rs).k);
  }
}
