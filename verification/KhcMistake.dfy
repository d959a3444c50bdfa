/** Which responses every cut delivers: those of which no over-long line can be mistaken for one that
    announces how the body is framed. */
module KhcMistake {
  import opened Text
  import opened KhcText
  import opened KhcMachine
  import opened KhcRun
  import opened KhcBlame
  import opened KhcSend
  import opened KhcHeaders
  import opened KhcChunk
  import opened KhcResponse
  import opened KhcDelivery
  import opened KhcLook
  import opened KhcWalk
  import opened KhcBounds
  import opened KhcLive

  // ---------------------------------------------------------------------------------------------
  // Lines that can be mistaken

  /** What a header buffer of `cap` bytes can hold from `o` on. */
  function Window(s: string, o: nat, cap: nat): string
    requires o <= |s| && 0 < cap
  {
    if o + cap - 1 <= |s| then s[o..o + cap - 1] else s[o..]
  }

  /** A framing key with its colon stands at `o`, and no CR in front of it. */
  predicate KeyAt(s: string, o: nat, cap: nat)
    requires 0 < o <= |s| && 0 < cap
  {
    s[o - 1] != '\r' && RequiredHeader(Window(s, o, cap))
  }

  function EndOf(s: string): (n: nat)
    ensures n <= |s|
  {
    if FindCrlf(s).Some? then FindCrlf(s).value else |s|
  }

  /** A line is being skipped, and behind the `len` bytes of it that are buffered a framing key stands in
      it; or what follows can be mistaken. */
  predicate SkipMistaken(s: string, len: nat, status: int, cap: nat)
    requires 0 < len <= |s| && 0 < cap
    decreases |s|, 0
  {
    || (exists o :: len <= o < EndOf(s) && KeyAt(s, o, cap))
    || (FindCrlf(s).Some? && Mistaken(s[FindCrlf(s).value + 2..], status, cap))
  }

  /** In the rest of a block of header lines, or after it when it is informational, an over-long line has a
      framing key at its start, or in its middle where a receive can begin. */
  predicate Mistaken(s: string, status: int, cap: nat)
    decreases |s|, 1
  {
    if Fits(s, cap) then
      var i := FindCrlf(s).value;
      if i == 0 then 100 <= status < 200 && StatusMistaken(s[2..], cap) else Mistaken(s[i + 2..], status, cap)
    else Fills(s, cap) && (RequiredHeader(s[..cap - 1]) || SkipMistaken(s, cap - 1, status, cap))
  }

  predicate StatusMistaken(s: string, cap: nat)
    decreases |s|, 2
  {
    && Fits(s, cap) && StatusDigits(s[..FindCrlf(s).value]).Some?
    && Mistaken(s, StatusDigits(s[..FindCrlf(s).value]).value, cap)
  }

  predicate MistakeAhead(v: View, cap: nat) {
    match v
    case AtStatus(s) => StatusMistaken(s, cap)
    case AtLine(s, status) => Mistaken(s, status, cap)
    case InSkip(s, len, status) =>
      0 < cap && 0 < len <= |s| && (RequiredHeader(s[..len]) || SkipMistaken(s, len, status, cap))
    case Outside => false
  }

  // ---------------------------------------------------------------------------------------------
  // Without one, no line is

  /** A key is seen in more bytes as well. */
  lemma RequiredLonger(s: string, t: string)
    requires RequiredHeader(s) && s <= t
    ensures RequiredHeader(t)
  {
  }

  /** A key has no CR at its start. */
  lemma RequiredStart(s: string)
    requires RequiredHeader(s)
    ensures s != "" && s[0] != '\r'
  {
    assert "Content-Length"[0] == 'C' && "Transfer-Encoding"[0] == 'T';
  }

  lemma WindowHolds(s: string, m: nat, n: nat, cap: nat)
    requires m + n <= |s| && n < cap
    ensures s[m..m + n] <= Window(s, m, cap)
  {
  }

  lemma WindowBehind(s: string, m: nat, o: nat, cap: nat)
    requires m + o <= |s| && 0 < cap
    ensures Window(s[m..], o, cap) == Window(s, m + o, cap)
  {
  }

  /** If what is buffered next is a key, it stood behind what was buffered. */
  lemma NextMistaken(s: string, len: nat, n: nat, status: int, cap: nat)
    requires 0 < len <= |s| - n && FindCrlf(s[..len]).None? && len - FirstKept(s, len) + n < cap
    requires RequiredHeader(s[FirstKept(s, len)..len + n])
    ensures SkipMistaken(s, len, status, cap)
  {
    hide FindCrlf, RequiredHeader, Mistaken;
    var m := FirstKept(s, len);
    var t := s[m..len + n];
    RequiredStart(t);
    assert t[0] == s[m];
    WindowHolds(s, len, n, cap);
    RequiredLonger(t, Window(s, len, cap));
    EndKept(s, len);
    if FindCrlf(s).Some? { CrlfFound(s); }
    assert KeyAt(s, len, cap);
  }

  lemma RestUnmistaken(s: string, len: nat, n: nat, status: int, cap: nat)
    requires 0 < len <= |s| - n && FindCrlf(s[..len]).None? && (FindCrlf(s).None? ==> NUL !in s) && 0 < cap
    requires !SkipMistaken(s, len, status, cap) && FirstKept(s, len) < len + n
    ensures !SkipMistaken(s[FirstKept(s, len)..], len - FirstKept(s, len) + n, status, cap)
  {
    hide FindCrlf, RequiredHeader, Mistaken, Window;
    var m := FirstKept(s, len);
    var s1, len1 := s[m..], len - m + n;
    AheadKept(s, len);
    forall o | len1 <= o < EndOf(s1) ensures !KeyAt(s1, o, cap) {
      WindowBehind(s, m, o, cap);
      assert s1[o - 1] == s[m + o - 1];
      assert !KeyAt(s, m + o, cap);
    }
  }

  lemma UnmistakenSkip(v: View, v1: View, cap: nat, n: nat, again: bool)
    requires Clean(v) && SkipsOn(v, v1, cap, n, again) && !MistakeAhead(v, cap)
    ensures !MistakeAhead(v1, cap)
  {
    hide FindCrlf, RequiredHeader, Mistaken, Clear, SkipMistaken;
    SkipLeads(v, v1, cap, n, again);
    if v1.InSkip? && v1.len > 0 {
      RestUnmistaken(v.s, v.len, n, v.status, cap);
      var m := FirstKept(v.s, v.len);
      assert v1.s[..v1.len] == v.s[m..v.len + n];
      if RequiredHeader(v.s[m..v.len + n]) { NextMistaken(v.s, v.len, n, v.status, cap); }
    } else {
      UnmistakenBehind(v.s, v.len, v.status, cap);
    }
  }

  lemma UnmistakenBehind(s: string, len: nat, status: int, cap: nat)
    requires 0 < len <= |s| && 0 < cap && !SkipMistaken(s, len, status, cap)
    ensures Behind(s).Some? ==> !Mistaken(Behind(s).value, status, cap)
  {
    hide FindCrlf, Mistaken;
  }

  lemma UnmistakenLeads(v: View, v1: View, cap: nat, n: nat, again: bool)
    requires Clean(v) && Leads(v, v1, cap, n, again) && !MistakeAhead(v, cap)
    ensures !MistakeAhead(v1, cap)
  {
    hide FindCrlf, StatusDigits, RequiredHeader, SkipsOn, SkipMistaken, Clear, StatusClear;
    if v.InSkip? { UnmistakenSkip(v, v1, cap, n, again); }
  }

  /** No mistake is ahead, and none has been made. */
  ghost predicate Faultless(c: C) {
    Walking(c) && !MistakeAhead(ViewOf(c), Cap(c.k)) && (c.k.result == HeaderCallback ==> c.w.refused)
  }

  lemma RefusedStays(c: C, r: Reply)
    requires CanStep(c, r) && c.w.refused
    ensures Next(c, r).w.refused
  {
    hide Step, Defined, FindCrlf, RequiredHeader, TargetSize, PhaseText, Hex;
  }

  /** The two causes of KHC_ERR_HEADER_CALLBACK. */
  lemma HeaderBlame(c: C, r: Reply)
    requires CanStep(c, r) && Blame(c.k, r) == Some(HeaderCallback)
    ensures Next(c, r).w.refused || (c.k.phase.RespHeaderSkip? && c.k.head.len <= |c.k.head.bytes|
                                     && RequiredHeader(c.k.head.Contents()))
  {
    hide Step, FindCrlf, RequiredHeader, TargetSize, PhaseText, Hex, SizeLineOk, StatusDigits;
  }

  lemma SkippedIsMistaken(c: C)
    requires Valid(c.k) && c.k.phase.RespHeaderSkip? && RequiredHeader(c.k.head.Contents())
    ensures MistakeAhead(ViewOf(c), Cap(c.k))
  {
    hide RequiredHeader, SkipMistaken;
    SkipView(c);
    RequiredStart(c.k.head.Contents());
  }

  lemma FaultlessResult(c: C, r: Reply)
    requires Faultless(c) && CanStep(c, r)
    ensures Next(c, r).k.result == HeaderCallback ==> Next(c, r).w.refused
  {
    hide Step, Advance, Blame, CallOf, Suits, Defined, MistakeAhead, Clean, FindCrlf, RequiredHeader, PhaseOk, ViewOf;
    CanStepMeans(c, r);
    StepBlame(c.k, r);
    if c.w.refused { RefusedStays(c, r); }
    if Blame(c.k, r) == Some(HeaderCallback) {
      HeaderBlame(c, r);
      if c.k.phase.RespHeaderSkip? && RequiredHeader(c.k.head.Contents()) { SkippedIsMistaken(c); }
    }
  }

  lemma FaultlessStep(c: C, r: Reply)
    requires Faultless(c) && CanStep(c, r)
    ensures Faultless(Next(c, r))
  {
    hide CanStep, Next, MistakeAhead, Clean, Leads, Over, BodyFirst, BodyNext, FindCrlf, OkBuffer, PhaseOk, ViewOf, Cap;
    var d := Next(c, r);
    AskedValid(c, r);
    WalkStep(c, r);
    FaultlessResult(c, r);
    if ViewOf(c) != Outside && StaysIn(c, r, d) {
      UnmistakenLeads(ViewOf(c), ViewOf(d), Cap(c.k), Got(r), c.w.retries > 0);
    } else {
      if ViewOf(c) != Outside { HeaderIsOver(d); }
      OutsideUnmistaken(d);
    }
  }

  lemma OutsideUnmistaken(c: C)
    requires Valid(c.k) && ViewOf(c) == Outside
    ensures !MistakeAhead(ViewOf(c), Cap(c.k))
  {
  }

  lemma {:induction false} FaultlessRun(c: C, rs: seq<Reply>)
    requires Faultless(c) && Runs(c, rs)
    ensures Faultless(After(c, rs))
    decreases |rs|
  {
    hide Faultless, CanStep, Next;
    if rs != [] {
      FaultlessStep(c, rs[0]);
      FaultlessRun(Next(c, rs[0]), rs[1..]);
    }
  }

  // ---------------------------------------------------------------------------------------------
  // With one, some cut makes it

  ghost predicate Fault(c: C) { c.k.result == HeaderCallback && !c.w.refused }

  /** What is buffered looks like a framing header. */
  lemma LookFails(c: C, hcap: nat, scap: nat, l: Look) returns (d: C)
    requires Looks(c, hcap, scap, l) && l.phase.RespHeaderSkip? && l.head != "" && RequiredHeader(l.head)
    ensures Moves(c, d) && Fault(d)
  {
    hide Moves, RequiredHeader, Put, PutZ, DropZ, FindCrlf;
    MovesOne(c, Quiet);
    d := Next(c, Quiet);
  }

  /** A receive of part of the line that is being skipped, with no CR buffered. */
  lemma LookSkipsMore(c: C, hcap: nat, scap: nat, l: Look, data: string, rest: string) returns (d: C)
    requires Looks(c, hcap, scap, l) && l.phase.RespHeaderSkip? && l.head != "" && !RequiredHeader(l.head) && hcap > 3
    requires l.head[|l.head| - 1] != '\r' && l.inbox == data + rest && 0 < |data| < hcap && FindCrlf(data).None?
    ensures Moves(c, d) && Looks(d, hcap, scap, l.(head := data, inbox := rest))
  {
    hide Moves, RequiredHeader, PutZ, DropZ, Put, FindCrlf, Valid, SizeLineOk;
    var r := Received(SockOk, data);
    assert c.k.head.Contents() == c.k.head.bytes[..c.k.head.len];
    MoreCan(c, r);
    MovesOne(c, r);
    AskedValid(c, r);
    d := Next(c, r);
    RecvRefills(c, r);
    MoreBuffered(c.k.head, data);
  }

  lemma MoreCan(c: C, r: Reply)
    requires Valid(c.k) && c.k.phase.RespHeaderSkip? && c.k.head.len > 0 && !RequiredHeader(c.k.head.Contents())
    requires r.Received? && r.code == SockOk && r.data <= c.w.inbox && r.data != "" && |r.data| < |c.k.head.bytes|
    requires Kept(c.k.head) == 0
    ensures CanStep(c, r)
  {
    hide RequiredHeader;
  }

  lemma MoreBuffered(b: Buffer, data: string)
    requires 0 < b.len < |b.bytes| && Kept(b) == 0 && |data| < |b.bytes| && FindCrlf(data).None?
    ensures Refilled(b, data).Contents() == data && FindCrlf(Refilled(b, data).bytes).None?
  {
    hide FindCrlf;
    ContentsPutZ(Skipped(b), 0, data);
    CrlfBeforeNul(Refilled(b, data).bytes, |data|);
    assert Skipped(b).bytes[..0] + data == data;
  }

  /** The key with its colon is enough. */
  function KeySize(s: string): nat {
    if IsHeaderPresent("Content-Length", s) then 15 else 18
  }

  lemma KeyAlone(s: string)
    requires RequiredHeader(s)
    ensures KeySize(s) <= |s| && RequiredHeader(s[..KeySize(s)]) && FindCrlf(s[..KeySize(s)]).None?
  {
    hide FindCrlf;
    var key := if IsHeaderPresent("Content-Length", s) then "Content-Length" else "Transfer-Encoding";
    var t := s[..KeySize(s)];
    assert |key| + 1 == KeySize(s);
    KeyHasNoEnd(key, t);
  }

  lemma KeyHasNoEnd(key: string, t: string)
    requires |t| == |key| + 1 && IsHeaderPresent(key, t) && (key == "Content-Length" || key == "Transfer-Encoding")
    ensures FindCrlf(t).None?
  {
    hide FindCrlf;
    KeyHasNoCr(key, t);
    if FindCrlf(t).Some? { CrlfFound(t); }
  }

  lemma KeyHasNoCr(key: string, t: string)
    requires |t| == |key| + 1 && IsHeaderPresent(key, t) && (key == "Content-Length" || key == "Transfer-Encoding")
    ensures forall i :: 0 <= i < |t| ==> t[i] != '\r'
  {
    assert forall i :: 0 <= i < |key| ==> key[i] != '\r';
  }

  /** Byte by byte to the key, and a receive that begins with it. */
  lemma KeyReached(c: C, hcap: nat, scap: nat, l: Look, s: string, o: nat) returns (d: C)
    requires Looks(c, hcap, scap, l) && l.phase.RespHeaderSkip? && l.head != "" && !RequiredHeader(l.head) && hcap > 3
    requires s == l.head + l.inbox && |l.head| <= o < |s| && NoEnd(s, |l.head| - 1, o) && KeyAt(s, o, hcap)
    ensures Moves(c, d) && Fault(d)
  {
    hide Moves, Looks, RequiredHeader, FindCrlf, LastOf, KeySize, Fault;
    var c1, l1 := c, l;
    assert s[|l.head| - 1] == l.head[|l.head| - 1] && s[|l.head|..] == l.inbox;
    if |l.head| < o {
      c1 := LookSkips(c, hcap, scap, l, s, |l.head|, o);
      l1 := l.(head := LastOf(s, o), inbox := s[o..]);
      ShortNotRequired(l1.head);
    } else {
      NoMoves(c);
    }
    KeyAlone(Window(s, o, hcap));
    var n := KeySize(Window(s, o, hcap));
    var data := s[o..][..n];
    assert data == Window(s, o, hcap)[..n] && s[o..] == data + s[o..][n..];
    RequiredStart(data);
    var c2 := LookSkipsMore(c1, hcap, scap, l1, data, s[o..][n..]);
    MovesOn(c, c1, c2);
    d := LookFails(c2, hcap, scap, l1.(head := data, inbox := s[o..][n..]));
    MovesOn(c, c2, d);
  }

  ghost predicate MistakenAhead(l: Look, hcap: nat) {
    || (l.phase.RespHeaderRead? && Mistaken(l.inbox, l.resp.status, hcap))
    || (l.phase.RespStatusRead? && StatusMistaken(l.inbox, hcap))
  }

  /** The first line begins with a framing key, or has one at `o`. */
  ghost predicate MistakeAt(s: string, o: nat, cap: nat) {
    && Fills(s, cap) && FindCrlf(s[..cap - 1]).None?
    && (RequiredHeader(s[..cap - 1]) || (cap - 1 <= o < |s| && NoEnd(s, 0, o) && KeyAt(s, o, cap)))
  }

  lemma MistakenInStatus(s: string, cap: nat)
    requires StatusMistaken(s, cap)
    ensures FindCrlf(s).Some?
    ensures var i := FindCrlf(s).value; Mistaken(s[i + 2..], StatusDigits(s[..i]).value, cap)
  {
    hide FindCrlf, StatusDigits, RequiredHeader, SkipMistaken;
    StatusNotBlank(s);
  }

  lemma LongMistaken(s: string, status: int, cap: nat)
    requires Fills(s, cap) && Mistaken(s, status, cap) && Clear(s, status)
    ensures || (FindCrlf(s).Some? && !RequiredHeader(s[..cap - 1]) && Mistaken(s[FindCrlf(s).value + 2..], status, cap))
            || exists o :: MistakeAt(s, o, cap)
  {
    hide FindCrlf, RequiredHeader;
    NoEndBefore(s, cap - 1);
    if RequiredHeader(s[..cap - 1]) {
      assert MistakeAt(s, 0, cap);
    } else if exists o :: cap - 1 <= o < EndOf(s) && KeyAt(s, o, cap) {
      var o :| cap - 1 <= o < EndOf(s) && KeyAt(s, o, cap);
      if FindCrlf(s).None? { NoEndFound(s); } else { CrlfFound(s); }
      assert MistakeAt(s, o, cap);
    }
  }

  lemma MistakeStays(l: Look, hcap: nat)
    requires MistakenAhead(l, hcap) && ClearAhead(l) && hcap > 3
    ensures (Passable(l, hcap) && MistakenAhead(Passed(l, hcap), hcap))
            || (l.phase.RespHeaderRead? && exists o :: MistakeAt(l.inbox, o, hcap))
  {
    hide FindCrlf, RequiredHeader, IsChunkedEncoding, StatusDigits, MistakeAt, SkipMistaken, StatusClear;
    if l.phase.RespStatusRead? {
      MistakenInStatus(l.inbox, hcap);
    } else if !Fits(l.inbox, hcap) {
      LongMistaken(l.inbox, l.resp.status, hcap);
    }
  }

  lemma MistakeHere(c: C, hcap: nat, scap: nat, l: Look, o: nat) returns (d: C)
    requires Looks(c, hcap, scap, l) && l.phase.RespHeaderRead? && l.head == "" && hcap > 3 && MistakeAt(l.inbox, o, hcap)
    ensures Moves(c, d) && Fault(d)
  {
    hide Moves, Looks, RequiredHeader, FindCrlf, Fault, KeyAt;
    var s := l.inbox;
    var c1 := LookFills(c, hcap, scap, l);
    var l1 := l.(phase := RespHeaderSkip, head := s[..hcap - 1], inbox := s[hcap - 1..]);
    if RequiredHeader(l1.head) {
      d := LookFails(c1, hcap, scap, l1);
    } else {
      d := KeyReached(c1, hcap, scap, l1, s, o);
    }
    MovesOn(c, c1, d);
  }

  lemma {:induction false} MistakeReached(c: C, hcap: nat, scap: nat, l: Look) returns (d: C)
    requires Looks(c, hcap, scap, l) && hcap > 3 && MistakenAhead(l, hcap) && ClearAhead(l)
    ensures Moves(c, d) && Fault(d)
    decreases |l.inbox|
  {
    hide Moves, Looks, RequiredHeader, FindCrlf, Fault, MistakenAhead, MistakeAt, StatusDigits, Clear, StatusClear;
    MistakeStays(l, hcap);
    if Passable(l, hcap) && MistakenAhead(Passed(l, hcap), hcap) {
      ClearPasses(l, hcap);
      var c1 := Pass(c, hcap, scap, l);
      d := MistakeReached(c1, hcap, scap, Passed(l, hcap));
      MovesOn(c, c1, d);
    } else {
      var o :| MistakeAt(l.inbox, o, hcap);
      d := MistakeHere(c, hcap, scap, l, o);
    }
  }

  lemma MistakeHasRoom(s: string, cap: nat)
    requires StatusMistaken(s, cap)
    ensures cap >= 15
  {
    hide FindCrlf, Mistaken;
  }

  /** For exactly which responses no cut makes a run fail that the header callback has not made fail: those
      without such a line. */
  lemma MistakeDecided(c: C)
    requires Fresh(c) && StatusClear(c.w.inbox)
    ensures (forall rs :: Runs(c, rs) && After(c, rs).k.result == HeaderCallback ==> After(c, rs).w.refused) <==>
            !StatusMistaken(c.w.inbox, Cap(c.k))
  {
    hide Fresh, Moves, Runs, After, StatusClear, Faultless, StatusMistaken, Looks;
    if StatusMistaken(c.w.inbox, Cap(c.k)) {
      MistakeHasRoom(c.w.inbox, Cap(c.k));
      var c1, stream := Starts(c);
      var d := MistakeReached(c1, Cap(c.k), SizeOfBuffer(c.k.stream, STREAM_BUFF_SIZE),
                              Starting(stream, c.w.inbox, c.w.retries));
      MovesOn(c, c1, d);
      var rs := RunOf(c, d);
      assert Runs(c, rs) && After(c, rs).k.result == HeaderCallback && !After(c, rs).w.refused;
    } else {
      FreshFaultless(c);
      forall rs | Runs(c, rs) && After(c, rs).k.result == HeaderCallback ensures After(c, rs).w.refused {
        FaultlessRun(c, rs);
        FaultlessMeans(After(c, rs));
      }
    }
  }

  lemma FreshFaultless(c: C)
    requires Fresh(c) && StatusClear(c.w.inbox) && !StatusMistaken(c.w.inbox, Cap(c.k))
    ensures Faultless(c)
  {
    hide StatusMistaken, StatusClear;
    FreshWalks(c);
  }

  lemma FaultlessMeans(c: C)
    requires Faultless(c)
    ensures c.k.result == HeaderCallback ==> c.w.refused
  {
  }

  /** A line at which every run ends is one of these. */
  lemma {:induction false} FramingIsMistaken(s: string, status: int, cap: nat)
    requires Framing(s, status, cap)
    ensures Mistaken(s, status, cap)
    decreases |s|, 0
  {
    hide FindCrlf, RequiredHeader, StatusDigits, Window;
    if Fits(s, cap) {
      var i := FindCrlf(s).value;
      if i == 0 { StatusFramingIsMistaken(s[2..], cap); } else { FramingIsMistaken(s[i + 2..], status, cap); }
    } else if FindCrlf(s).Some? && Framing(s[FindCrlf(s).value + 2..], status, cap) {
      FramingIsMistaken(s[FindCrlf(s).value + 2..], status, cap);
    }
  }

  lemma {:induction false} StatusFramingIsMistaken(s: string, cap: nat)
    requires StatusFraming(s, cap)
    ensures StatusMistaken(s, cap)
    decreases |s|, 1
  {
    hide FindCrlf, RequiredHeader, StatusDigits, Framing;
    FramingIsMistaken(s, StatusDigits(s[..FindCrlf(s).value]).value, cap);
  }

  // ---------------------------------------------------------------------------------------------
  // What every cut delivers

  /** The socket and the allocator do not fail, the callbacks take what they are given, and a status line
      comes in one piece.  How everything else is cut is open. */
  predicate Kind(c: C, r: Reply)
    requires CanStep(c, r)
  {
    match CallOf(c.k)
    case Allocate(h, s) => (h ==> r.header.Some?) && (s ==> r.stream.Some?)
    case Dial | Shut(_, _) | Send(_) => r.code != SockFail
    case Recv(_) =>
      r.code != SockFail && (c.k.phase.RespStatusRead? && r.code == SockOk ==>
                               c.k.head.len <= |c.k.head.bytes| && FindCrlf(c.k.head.Contents() + r.data).Some?)
    case TellHeader(line) => r.n == |line|
    case Write(data) => r.n == |data|
    case _ => true
  }

  predicate AllKind(c: C, rs: seq<Reply>)
    requires Runs(c, rs)
    decreases |rs|
  {
    rs == [] || (Kind(c, rs[0]) && AllKind(Next(c, rs[0]), rs[1..]))
  }

  /** Of kind answers only these are causes. */
  lemma KindCause(c: C, r: Reply)
    requires CanStep(c, r) && Kind(c, r) && Blame(c.k, r).Some? && Remaining(c.k.phase, Blame(c.k, r).value)
    ensures CallOf(c.k).NoCall?
    ensures || (c.k.phase.RespHeaderSkip? && Blame(c.k, r) == Some(HeaderCallback))
            || (c.k.phase.ReqBodySendSize? && |Hex(c.k.out.readSize)| + 2 > 15)
  {
    hide FindCrlf, RequiredHeader, TargetSize, PhaseText, Hex, SizeLineOk, StatusDigits;
  }

  lemma KindTakes(c: C, r: Reply)
    requires CanStep(c, r) && Kind(c, r) && !c.w.refused
    ensures !Next(c, r).w.refused
  {
    hide Step, Defined, FindCrlf, RequiredHeader, TargetSize, PhaseText, Hex;
  }

  lemma KindBlame(c: C, r: Reply, e: Expected)
    requires RespInv(c, e) && SendInv(c) && Faultless(c) && CanStep(c, r) && Kind(c, r) && !c.w.refused
    ensures Blame(c.k, r).None?
  {
    hide RespInv, SendInv, Kind, Blame, CallOf, Suits, Defined, Step, Advance, MistakeAhead, Clean, Remaining, Hex,
         RequiredHeader, FindCrlf, ViewOf;
    if Blame(c.k, r).Some? {
      CausesRemain(c, r, e);
      KindCause(c, r);
      KindTakes(c, r);
      if c.k.phase.RespHeaderSkip? {
        HeaderBlame(c, r);
        SkippedIsMistaken(c);
      } else {
        SizeFits(c);
      }
    }
  }

  lemma SizeFits(c: C)
    requires SendInv(c) && c.k.phase.ReqBodySendSize?
    ensures |Hex(c.k.out.readSize)| + 2 <= 15
  {
    hide Hex, Unsent, Pending, HeadText, BodyText, FullText, PhaseText;
    SizeLineWhole(c.k.out.readSize);
  }

  ghost predicate Favoured(c: C, e: Expected) {
    RespInv(c, e) && SendInv(c) && Faultless(c) && !c.w.refused && c.k.result == Ok
  }

  lemma FavouredStep(c: C, r: Reply, e: Expected)
    requires Favoured(c, e) && CanStep(c, r) && Kind(c, r)
    ensures Favoured(Next(c, r), e)
  {
    hide RespInv, SendInv, Faultless, Kind, Blame, CallOf, Suits, Defined, Step, Advance;
    CanStepMeans(c, r);
    KindBlame(c, r, e);
    StepBlame(c.k, r);
    KindTakes(c, r);
    RespStep(c, r, e);
    StepKeepsSendInv(c, r);
    FaultlessStep(c, r);
  }

  lemma {:induction false} FavouredRun(c: C, rs: seq<Reply>, e: Expected)
    requires Favoured(c, e) && Runs(c, rs) && AllKind(c, rs)
    ensures Favoured(After(c, rs), e)
    decreases |rs|
  {
    hide Favoured, CanStep, Next, Kind;
    if rs != [] {
      FavouredStep(c, rs[0], e);
      FavouredRun(Next(c, rs[0]), rs[1..], e);
    }
  }

  /** A response as it was promised, no line of which can be mistaken, is delivered however it is cut and however
      often the socket has to be asked again, as long as nobody fails and the status lines come whole. */
  lemma EveryCutDelivers(c: C, rs: seq<Reply>, e: Expected)
    requires Fresh(c) && Promises(c, e) && |c.k.stream.bytes| < PIECE_LIMIT && !StatusMistaken(c.w.inbox, Cap(c.k))
    requires Runs(c, rs) && AllKind(c, rs)
    ensures var d := After(c, rs);
            && d.k.result == Ok && d.w.headers <= e.lines && d.w.body <= e.body
            && (d.k.phase.Finished? ==> d.w.headers == e.lines && d.w.body == e.body)
  {
    hide Fresh, Promises, RespInv, SendInv, Faultless, Runs, After, AllKind, StatusMistaken, StatusClear, Answer;
    FreshIsBefore(c, e);
    FreshSendInv(c);
    PromisedIsClear(c, e);
    FreshFaultless(c);
    FavouredRun(c, rs, e);
    SoFar(After(c, rs), e);
  }

  lemma FreshSendInv(c: C)
    requires Fresh(c) && |c.k.stream.bytes| < PIECE_LIMIT
    ensures SendInv(c) && c.k.result == Ok && !c.w.refused
  {
  }

  // ---------------------------------------------------------------------------------------------
  // A response that some cuts deliver and others do not

  const KEY := "Content-Length:"

  /** A status line; a line that announces nothing and has a framing key behind the bytes that fill the header
      buffer; a blank line. */
  function MistakenResponse(hcap: nat): string
    requires hcap > 0
  {
    STATUS + (CRLF + ((Zeros(hcap - 1) + KEY) + (CRLF + CRLF)))
  }

  /** It is as promised, by `DeliveryDecided` some run delivers it, and by `MistakeDecided` some run fails. */
  lemma MistakenExample(hcap: nat, scap: nat)
    requires hcap >= 16
    ensures var s := MistakenResponse(hcap);
            && Expect(s, hcap, scap) == Some(Expected([STATUS], "", ""))
            && !StatusFraming(s, hcap) && StatusMistaken(s, hcap)
  {
    hide FindCrlf, StatusDigits, RequiredHeader, Zeros, IsChunkedEncoding;
    var line := Zeros(hcap - 1) + KEY;
    var s, s1 := MistakenResponse(hcap), line + (CRLF + CRLF);
    StatusRead();
    StatusNotChunked();
    CrlfAfter(STATUS, s1);
    assert s[..12] == STATUS && s[14..] == s1;
    MistakenLine(hcap);
    BlockLine(STATUS, s1, hcap, [], "");
    assert [STATUS] + [] == [STATUS];
    assert Answer(s, hcap) == Some(Heads([STATUS], ""));
    assert [STATUS][0] == STATUS && !AnyChunked([STATUS]);
  }

  lemma KeyRequired()
    ensures |KEY| == 15 && RequiredHeader(KEY)
    ensures forall i :: 0 <= i < |KEY| ==> KEY[i] != '\r' && KEY[i] != NUL
  {
    assert IsHeaderPresent("Content-Length", KEY);
  }

  lemma MistakenLine(hcap: nat)
    requires hcap >= 16
    ensures var s1 := (Zeros(hcap - 1) + KEY) + (CRLF + CRLF);
            Block(s1, hcap) == Some(Heads([], "")) && !Framing(s1, 200, hcap) && Mistaken(s1, 200, hcap)
  {
    hide FindCrlf, RequiredHeader, Zeros;
    var line := Zeros(hcap - 1) + KEY;
    var s1 := line + (CRLF + CRLF);
    ZerosLength(hcap - 1);
    KeyRequired();
    CrlfAfter(line, CRLF);
    assert s1[|line| + 2..] == CRLF == CRLF + "";
    BlankBlock("", hcap);
    BlankFirst();
    assert s1[..hcap - 1] == Zeros(hcap - 1) && s1[hcap - 2] == '0';
    ZerosNotRequired(s1[..hcap - 1]);
    assert KEY <= Window(s1, hcap - 1, hcap);
    RequiredLonger(KEY, Window(s1, hcap - 1, hcap));
    assert KeyAt(s1, hcap - 1, hcap);
    assert !Framing(CRLF, 200, hcap);
  }
}
