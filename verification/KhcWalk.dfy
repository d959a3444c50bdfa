/** Any response header, complete or not: how far the handlers have come in it, whatever pieces it comes in. */
module KhcWalk {
  import opened Text
  import opened KhcText
  import opened KhcMachine
  import opened KhcRun
  import opened KhcSend
  import opened KhcHeaders
  import opened KhcResponse
  import opened KhcWork
  import opened KhcLook

  // ---------------------------------------------------------------------------------------------
  // The header ahead

  /** Where the client is in the header, with all bytes ahead, buffered or still to come: in front of a
      status line, in front of a line of a response with that status, or inside an over-long line that is
      being skipped, of which `len` bytes are buffered. */
  datatype View = AtStatus(s: string) | AtLine(s: string, status: int) | InSkip(s: string, len: nat, status: int) | Outside

  function ViewOf(c: C): View
    requires Valid(c.k)
  {
    match c.k.phase
    case RespStatusRead | RespStatusParse => AtStatus(Ahead(c))
    case RespHeaderCallback | RespHeaderRead => AtLine(Ahead(c), c.k.resp.status)
    case RespHeaderSkip => InSkip(Ahead(c), c.k.head.len, c.k.resp.status)
    case _ => if Asking(c.k.phase) then AtStatus(c.w.inbox) else Outside
  }

  /** The size of the header buffer, once there is one. */
  function Cap(k: K): nat { SizeOfBuffer(k.head, HEADER_BUFF_SIZE) }

  /** The first line ends so early that the header buffer can hold it. */
  predicate Fits(s: string, cap: nat) { FindCrlf(s).Some? && FindCrlf(s).value + 3 <= cap }

  /** The first line does not fit, and there is enough of it to fill the header buffer. */
  predicate Fills(s: string, cap: nat) { !Fits(s, cap) && 2 < cap <= |s| + 1 }

  /** What follows the first line. */
  function Behind(s: string): Option<string> {
    match FindCrlf(s)
    case None => None
    case Some(i) => Some(s[i + 2..])
  }

  /** The responses that are looked at here: in none of their headers is a status line so short that the
      digits of the status are looked for behind it, and a header that stops in the middle of a line has
      no terminator there.  Nothing is asked of bodies. */
  predicate StatusClear(s: string)
    decreases |s|, 1
  {
    FindCrlf(s).Some? ==>
      var i := FindCrlf(s).value;
      8 <= i && (StatusDigits(s[..i]).Some? ==> Clear(s, StatusDigits(s[..i]).value))
  }

  predicate Clear(s: string, status: int)
    decreases |s|, 0
  {
    match FindCrlf(s)
    case None => NUL !in s
    case Some(i) => if i == 0 then 100 <= status < 200 ==> StatusClear(s[2..]) else Clear(s[i + 2..], status)
  }

  predicate Clean(v: View) {
    match v
    case AtStatus(s) => StatusClear(s)
    case AtLine(s, status) => Clear(s, status)
    case InSkip(s, _, status) => if Behind(s).None? then NUL !in s else Clear(Behind(s).value, status)
    case Outside => true
  }

  // ---------------------------------------------------------------------------------------------
  // One step

  /** Of `len` buffered bytes a trailing CR is kept. */
  function FirstKept(s: string, len: nat): nat
    requires 0 < len <= |s|
  {
    if s[len - 1] == '\r' then len - 1 else len
  }

  /** After `n` more bytes of the line that is being skipped: all but a trailing CR of what was buffered
      is dropped, and the line end is looked for in what is buffered then. */
  predicate SkipsOn(v: View, v1: View, cap: nat, n: nat, again: bool) {
    && v.InSkip? && 0 < v.len <= |v.s| - n && FindCrlf(v.s[..v.len]).None? && !RequiredHeader(v.s[..v.len])
    && (n == 0 ==> again || v.len == |v.s|)
    && var m := FirstKept(v.s, v.len);
       v.len - m + n < cap &&
       match FindCrlf(v.s[m..v.len + n])
       case None => v1 == InSkip(v.s[m..], v.len - m + n, v.status)
       case Some(j) => v1 == AtLine(v.s[m + j + 2..], v.status)
  }

  /** Where a step can lead, with `n` bytes received; `again`: the socket may have to be asked again. */
  predicate Leads(v: View, v1: View, cap: nat, n: nat, again: bool) {
    match v
    case AtStatus(s) =>
      v1 == v || (Fits(s, cap) && StatusDigits(s[..FindCrlf(s).value]).Some?
                  && v1 == AtLine(s, StatusDigits(s[..FindCrlf(s).value]).value))
    case AtLine(s, status) =>
      || v1 == v
      || (Fills(s, cap) && v1 == InSkip(s, cap - 1, status))
      || (Fits(s, cap) && var i := FindCrlf(s).value;
                          if i == 0 then 100 <= status < 200 && v1 == AtStatus(s[2..]) else v1 == AtLine(s[i + 2..], status))
    case InSkip(_, _, _) => SkipsOn(v, v1, cap, n, again)
    case Outside => false
  }

  /** The bytes that an answer brings. */
  function Got(r: Reply): nat { if r.Received? then |r.data| else 0 }

  /** The run has failed. */
  predicate Over(k: K) { (k.phase.Close? || k.phase.Finished?) && k.result != Ok }

  /** The blank line of a response that is not informational: the body is next. */
  predicate BodyNext(v: View) { v.AtLine? && FindCrlf(v.s) == Some(0) && !(100 <= v.status < 200) }

  predicate BodyFirst(k: K) { k.phase.RespBodyFragment? || (k.phase.RespBodyParseChunkSize? && k.stream.len == 0) }

  /** How the header phases find the header buffer. */
  predicate Aligned(c: C) {
    && Valid(c.k)
    && match c.k.phase
       case RespStatusParse => FindCrlf(c.k.head.Contents()).Some?
       case RespHeaderCallback => |c.k.head.bytes| >= 15
       case RespHeaderRead =>
         |c.k.head.bytes| >= 15 && FindCrlf(c.k.head.Contents()).None? && c.k.head.len + 1 < |c.k.head.bytes|
       case RespHeaderSkip => |c.k.head.bytes| >= 15 && FindCrlf(c.k.head.Contents()).None?
       case _ => true
  }

  ghost predicate Walking(c: C) { Aligned(c) && Clean(ViewOf(c)) }

  ghost predicate StaysIn(c: C, r: Reply, d: C)
    requires Valid(c.k)
  {
    && Aligned(d) && ViewOf(d) != Outside && Cap(d.k) == Cap(c.k)
    && Leads(ViewOf(c), ViewOf(d), Cap(c.k), Got(r), c.w.retries > 0)
  }

  /** What becomes of a header by one step. */
  ghost predicate WalksOn(c: C, r: Reply, d: C)
    requires Valid(c.k)
  {
    || StaysIn(c, r, d)
    || Over(d.k)
    || (BodyNext(ViewOf(c)) && BodyFirst(d.k))
  }

  lemma SameWalk(c: C, r: Reply, d: C, d1: C)
    requires Valid(c.k) && WalksOn(c, r, d) && d1.k == d.k && d1.w.inbox == d.w.inbox
    ensures WalksOn(c, r, d1)
  {
    hide FindCrlf, Leads, Valid;
  }

  lemma WalkAsking(c: C, r: Reply)
    requires Aligned(c) && CanStep(c, r) && Asking(c.k.phase)
    ensures WalksOn(c, r, Next(c, r))
  {
    hide Step, Advance, SizeLineOk, FindCrlf, CanStep;
    AskingStep(c, r);
    AskedValid(c, r);
    AskingView(c);
    var d := Next(c, r);
    if Asking(d.k.phase) {
      AskingView(d);
    } else if d.k.phase.RespStatusRead? {
      ValidSizes(d.k);
      assert Ahead(d) == d.w.inbox;
    }
  }

  lemma AskingView(c: C)
    requires Valid(c.k) && Asking(c.k.phase)
    ensures ViewOf(c) == AtStatus(c.w.inbox) && !HeaderPhase(c.k.phase)
    ensures Aligned(c)
  {
  }

  /** Receiving changes nothing of what is ahead. */
  lemma WalkStatusRead(c: C, r: Reply)
    requires Aligned(c) && CanStep(c, r) && c.k.phase.RespStatusRead?
    ensures WalksOn(c, r, Next(c, r))
  {
    hide FindCrlf, PutZ, RequiredHeader, SizeLineOk, StatusInside;
    AskedValid(c, r);
    ContentsPutZ(c.k.head, c.k.head.len, r.data);
    assert c.w.inbox[0..] == c.w.inbox;
    var d := Next(c, r);
    if r.code == SockOk && HeaderPhase(d.k.phase) {
      AheadAfterRecv(c, d.k, r.data);
      CrlfBeforeNul(d.k.head.bytes, d.k.head.len);
    }
  }

  lemma WalkHeaderRead(c: C, r: Reply)
    requires Aligned(c) && CanStep(c, r) && c.k.phase.RespHeaderRead?
    ensures WalksOn(c, r, Next(c, r))
  {
    hide FindCrlf, PutZ, RequiredHeader, SizeLineOk, StatusInside;
    AskedValid(c, r);
    ContentsPutZ(c.k.head, c.k.head.len, r.data);
    assert c.w.inbox[0..] == c.w.inbox;
    var d := Next(c, r);
    if r.code == SockOk { AheadAfterRecv(c, d.k, r.data); }
  }

  /** The status is read from the status line and from nothing behind it. */
  lemma StatusOfBuffer(b: Buffer, inbox: string)
    requires b.len < |b.bytes| && FindCrlf(b.Contents()).Some? && FindCrlf(b.Contents()).value >= 8
    ensures var s := b.Contents() + inbox;
            && Fits(s, |b.bytes|) && FindCrlf(s) == FindCrlf(b.Contents())
            && StatusDigits(b.bytes) == StatusDigits(s[..FindCrlf(s).value]) && StatusInside(b.bytes)
  {
    hide FindCrlf;
    var s := b.Contents() + inbox;
    CrlfInPrefix(b.Contents(), inbox);
    CrlfFound(b.Contents());
    var i := FindCrlf(s).value;
    assert forall j :: 0 <= j < i + 2 ==> s[j] == b.bytes[j];
    assert forall j :: 0 <= j < i ==> s[..i][j] == b.bytes[j];
  }

  lemma WalkParse(c: C, r: Reply)
    requires Walking(c) && CanStep(c, r) && c.k.phase.RespStatusParse?
    ensures WalksOn(c, r, Next(c, r))
  {
    hide FindCrlf, StatusDigits, Clear, SizeLineOk, StatusInside;
    AskedValid(c, r);
    CrlfInPrefix(c.k.head.Contents(), c.w.inbox);
    StatusOfBuffer(c.k.head, c.w.inbox);
    StatusLength(Ahead(c)[..FindCrlf(Ahead(c)).value]);
  }

  lemma StatusLength(s: string)
    ensures StatusDigits(s).Some? ==> |s| >= 12
  {
  }

  /** A line end has been found. */
  lemma WalkLine(c: C, r: Reply, n: nat, taken: nat)
    requires Aligned(c) && c.k.phase.RespHeaderCallback? && FindCrlf(c.k.head.Contents()) == Some(n)
    ensures n + 2 <= c.k.head.len && WalksOn(c, r, C(HeaderLine(c.k, n, taken), c.w))
  {
    hide FindCrlf, IsChunkedEncoding, DropZ;
    HeaderLineValid(c.k, n, taken);
    var s := Ahead(c);
    CrlfInPrefix(c.k.head.Contents(), c.w.inbox);
    ContentsDropZ(c.k.head, n + 2);
    assert s[n + 2..] == c.k.head.Contents()[n + 2..] + c.w.inbox;
  }

  /** There is none: more is read, or the line is too long. */
  lemma WalkNoLine(c: C, r: Reply)
    requires Aligned(c) && c.k.phase.RespHeaderCallback? && FindCrlf(c.k.head.Contents()).None?
    ensures WalksOn(c, r, C(c.k.Go(if |c.k.head.bytes| == c.k.head.len + 1 then RespHeaderSkip else RespHeaderRead), c.w))
  {
    hide FindCrlf;
    CrlfInPrefix(c.k.head.Contents(), c.w.inbox);
  }

  lemma WalkCallback(c: C, r: Reply)
    requires Aligned(c) && CanStep(c, r) && c.k.phase.RespHeaderCallback?
    ensures WalksOn(c, r, Next(c, r))
  {
    hide FindCrlf, HeaderLine, SizeLineOk, WalksOn, StatusInside;
    CrlfBeforeNul(c.k.head.bytes, c.k.head.len);
    BeforeNul(c.k.head.bytes, c.k.head.len);
    match FindCrlf(c.k.head.bytes)
    case None =>
      WalkNoLine(c, r);
    case Some(n) =>
      var k1 := HeaderLine(c.k, n, if r.Taken? then r.n else 0);
      WalkLine(c, r, n, if r.Taken? then r.n else 0);
      SameWalk(c, r, C(k1, c.w), Next(c, r));
  }

  /** The first byte that is not dropped. */
  function Dropped(b: Buffer): nat
    requires 0 < b.len <= |b.bytes|
  {
    b.len - Kept(b)
  }

  lemma AheadAfterSkip(b: Buffer, inbox: string, data: string)
    requires 0 < b.len < |b.bytes| && data <= inbox
    ensures var s, m := b.Contents() + inbox, Dropped(b);
            && s[..b.len] == b.Contents() && s[b.len - 1] == b.bytes[b.len - 1]
            && s[m..b.len + |data|] == b.Contents()[m..] + data
            && s[m..] == (b.Contents()[m..] + data) + inbox[|data|..]
  {
  }

  /** With all but a kept CR dropped, `data` received. */
  function Refilled(b: Buffer, data: string): (r: Buffer)
    requires 0 < b.len < |b.bytes| && Kept(b) + |data| < |b.bytes|
    ensures |r.bytes| == |b.bytes| && r.len == Kept(b) + |data| && r.owner == b.owner && r.bytes[r.len] == NUL
  {
    PutZ(Skipped(b), Kept(b), data)
  }

  lemma RefilledContents(b: Buffer, inbox: string, data: string)
    requires 0 < b.len < |b.bytes| && Kept(b) + |data| < |b.bytes| && data <= inbox
    ensures var s, m, b1 := b.Contents() + inbox, Dropped(b), Refilled(b, data);
            && b1.Contents() == s[m..b.len + |data|] && b1.Contents() + inbox[|data|..] == s[m..]
            && FindCrlf(b1.bytes) == FindCrlf(b1.Contents())
            && (FindCrlf(b1.bytes).Some? ==> FindCrlf(b1.bytes).value + 2 <= b1.len)
  {
    hide FindCrlf, Skipped, PutZ;
    var b1 := Refilled(b, data);
    SkippedContents(b);
    ContentsPutZ(Skipped(b), Kept(b), data);
    assert Skipped(b).bytes[..Kept(b)] == Skipped(b).Contents();
    CrlfBeforeNul(b1.bytes, b1.len);
    BeforeNul(b1.bytes, b1.len);
    AheadAfterSkip(b, inbox, data);
  }

  lemma SkipView(c: C)
    requires Valid(c.k) && c.k.phase.RespHeaderSkip?
    ensures ViewOf(c) == InSkip(Ahead(c), c.k.head.len, c.k.resp.status) && Cap(c.k) == |c.k.head.bytes|
    ensures |c.k.head.Contents()| == c.k.head.len && |Ahead(c)| == c.k.head.len + |c.w.inbox|
    ensures Ahead(c)[..c.k.head.len] == c.k.head.Contents()
  {
  }

  lemma LineView(c: C)
    requires Valid(c.k) && c.k.phase.RespHeaderCallback?
    ensures ViewOf(c) == AtLine(Ahead(c), c.k.resp.status) && Cap(c.k) == |c.k.head.bytes|
  {
  }

  lemma SkipKeeps(b: Buffer, inbox: string)
    requires 0 < b.len < |b.bytes|
    ensures 0 <= FirstKept(b.Contents() + inbox, b.len) == Dropped(b) <= b.len
  {
    AheadAfterSkip(b, inbox, "");
  }

  /** No line end has been found in what is buffered now. */
  lemma WalkSkipMore(c: C, r: Reply, d: C)
    requires Aligned(c) && c.k.phase.RespHeaderSkip? && 0 < c.k.head.len && !RequiredHeader(c.k.head.Contents())
    requires r.Received? && r.data <= c.w.inbox && (r.data == "" ==> c.w.retries > 0 || c.w.inbox == "")
    requires d.k.phase.RespHeaderSkip? && Valid(d.k) && |d.k.head.bytes| == |c.k.head.bytes|
    requires d.k.head.Contents() == Ahead(c)[Dropped(c.k.head)..c.k.head.len + |r.data|]
    requires Ahead(d) == Ahead(c)[Dropped(c.k.head)..] && FindCrlf(d.k.head.Contents()).None?
    requires d.k.resp.status == c.k.resp.status
    ensures WalksOn(c, r, d)
  {
    hide FindCrlf, RequiredHeader, ViewOf, Dropped, FirstKept, Cap, OkBuffer;
    SkipView(c);
    SkipView(d);
    SkipKeeps(c.k.head, c.w.inbox);
  }

  /** One has been found. */
  lemma WalkSkipEnd(c: C, r: Reply, d: C, n: nat)
    requires Aligned(c) && c.k.phase.RespHeaderSkip? && 0 < c.k.head.len && !RequiredHeader(c.k.head.Contents())
    requires r.Received? && r.data <= c.w.inbox && (r.data == "" ==> c.w.retries > 0 || c.w.inbox == "")
    requires d.k.phase.RespHeaderCallback? && Valid(d.k) && |d.k.head.bytes| == |c.k.head.bytes|
    requires c.k.head.len - Dropped(c.k.head) + |r.data| < |c.k.head.bytes|
    requires FindCrlf(Ahead(c)[Dropped(c.k.head)..c.k.head.len + |r.data|]) == Some(n)
    requires Ahead(d) == Ahead(c)[Dropped(c.k.head) + n + 2..]
    requires d.k.resp.status == c.k.resp.status
    ensures WalksOn(c, r, d)
  {
    hide FindCrlf, RequiredHeader, ViewOf, Dropped, FirstKept, Cap, OkBuffer;
    SkipView(c);
    LineView(d);
    SkipKeeps(c.k.head, c.w.inbox);
  }

  /** What is ahead behind the line end. */
  lemma AheadBehind(c: C, d: C, data: string, n: nat)
    requires 0 < c.k.head.len < |c.k.head.bytes| && Kept(c.k.head) + |data| < |c.k.head.bytes| && data <= c.w.inbox
    requires n + 2 <= Refilled(c.k.head, data).len && d.k.head == DropZ(Refilled(c.k.head, data), n + 2)
    requires d.w.inbox == c.w.inbox[|data|..]
    ensures Dropped(c.k.head) + n + 2 <= |Ahead(c)| && Ahead(d) == Ahead(c)[Dropped(c.k.head) + n + 2..]
  {
    hide FindCrlf, Refilled, DropZ;
    var b1, s, m := Refilled(c.k.head, data), Ahead(c), Dropped(c.k.head);
    RefilledContents(c.k.head, c.w.inbox, data);
    ContentsDropZ(b1, n + 2);
    BehindBoth(b1.Contents(), d.w.inbox, n + 2);
    DropTwice(s, m, n + 2);
  }

  lemma DropTwice(s: string, m: nat, n: nat)
    requires m + n <= |s|
    ensures s[m..][n..] == s[m + n..]
  {
  }

  lemma BehindBoth(a: string, b: string, n: nat)
    requires n <= |a|
    ensures a[n..] + b == (a + b)[n..]
  {
  }

  /** Asked again, the client has dropped what was buffered all the same. */
  lemma WalkSkipAgain(c: C, r: Reply)
    requires Aligned(c) && CanStep(c, r) && c.k.phase.RespHeaderSkip? && r == Received(SockAgain, "")
    ensures WalksOn(c, r, Next(c, r))
  {
    hide FindCrlf, SizeLineOk, RequiredHeader, Skipped, StatusInside, WalksOn, PutZ, DropZ;
    AskedValid(c, r);
    AgainDrops(c, r);
    SkippedContents(c.k.head);
    AheadAfterSkip(c.k.head, c.w.inbox, "");
    WalkSkipMore(c, r, Next(c, r));
  }

  lemma AgainDrops(c: C, r: Reply)
    requires CanStep(c, r) && c.k.phase.RespHeaderSkip? && r == Received(SockAgain, "")
    ensures c.k.head.len > 0 && !RequiredHeader(c.k.head.Contents()) && c.w.retries > 0
    ensures Next(c, r).k == c.k.(head := Skipped(c.k.head)) && Next(c, r).w.inbox == c.w.inbox
  {
    hide RequiredHeader, PutZ, DropZ, FindCrlf, Skipped, SizeLineOk;
    assert c.w.inbox[0..] == c.w.inbox;
  }

  /** More of the line, its end, or the end of the stream. */
  lemma WalkSkipRecv(c: C, r: Reply)
    requires Aligned(c) && CanStep(c, r) && c.k.phase.RespHeaderSkip? && r.Received? && r.code == SockOk
    ensures WalksOn(c, r, Next(c, r))
  {
    hide FindCrlf, SizeLineOk, RequiredHeader, Skipped, StatusInside, WalksOn, PutZ, DropZ, Refilled, Dropped, CanStep, Next;
    AskedValid(c, r);
    RecvRefills(c, r);
    RefilledContents(c.k.head, c.w.inbox, r.data);
    if FindCrlf(Refilled(c.k.head, r.data).bytes).None? {
      WalkSkipMore(c, r, Next(c, r));
    } else {
      var n := FindCrlf(Refilled(c.k.head, r.data).bytes).value;
      AheadBehind(c, Next(c, r), r.data, n);
      WalkSkipEnd(c, r, Next(c, r), n);
    }
  }

  lemma RecvRefills(c: C, r: Reply)
    requires CanStep(c, r) && c.k.phase.RespHeaderSkip? && r.Received? && r.code == SockOk && |c.k.head.bytes| > 2
    ensures 0 < c.k.head.len < |c.k.head.bytes| && !RequiredHeader(c.k.head.Contents())
    ensures Kept(c.k.head) + |r.data| < |c.k.head.bytes| && r.data <= c.w.inbox && (r.data == "" ==> c.w.inbox == "")
    ensures c.k.head.len - Dropped(c.k.head) == Kept(c.k.head)
    ensures var d, b1 := Next(c, r), Refilled(c.k.head, r.data);
            && d.w.inbox == c.w.inbox[|r.data|..] && d.k.resp.status == c.k.resp.status
            && (FindCrlf(b1.bytes).Some? ==> FindCrlf(b1.bytes).value + 2 <= b1.len)
            && if FindCrlf(b1.bytes).None? then d.k.phase.RespHeaderSkip? && d.k.head == b1
               else d.k.phase.RespHeaderCallback? && d.k.head == DropZ(b1, FindCrlf(b1.bytes).value + 2)
  {
    hide RequiredHeader, PutZ, DropZ, FindCrlf, Skipped, SizeLineOk;
    var b1 := Refilled(c.k.head, r.data);
    BeforeNul(b1.bytes, b1.len);
  }

  lemma OverWalks(c: C, r: Reply, d: C)
    requires Valid(c.k) && Over(d.k)
    ensures WalksOn(c, r, d)
  {
  }

  lemma WalkSkip(c: C, r: Reply)
    requires Aligned(c) && CanStep(c, r) && c.k.phase.RespHeaderSkip?
    ensures WalksOn(c, r, Next(c, r))
  {
    hide FindCrlf, SizeLineOk, RequiredHeader, PutZ, DropZ, Skipped, WalksOn, StatusInside;
    if r.Received? && r.code == SockAgain {
      WalkSkipAgain(c, r);
    } else if r.Received? && r.code == SockOk {
      WalkSkipRecv(c, r);
    } else {
      OverWalks(c, r, Next(c, r));
    }
  }

  /** A step goes on in the header as `Leads` says, or fails, or comes to the body. */
  lemma ViewStep(c: C, r: Reply)
    requires Walking(c) && CanStep(c, r) && ViewOf(c) != Outside
    ensures WalksOn(c, r, Next(c, r))
  {
    hide WalksOn, CanStep, Next, Aligned, Clean;
    match c.k.phase
    case RespStatusRead => WalkStatusRead(c, r);
    case RespHeaderRead => WalkHeaderRead(c, r);
    case RespStatusParse => WalkParse(c, r);
    case RespHeaderCallback => WalkCallback(c, r);
    case RespHeaderSkip => WalkSkip(c, r);
    case _ => WalkAsking(c, r);
  }

  // ---------------------------------------------------------------------------------------------
  // Any step

  lemma {:induction false} NoCrlfAfterDrop(s: string, n: nat)
    requires FindCrlf(s).None? && NUL !in s && n <= |s|
    ensures FindCrlf(s[n..]).None? && NUL !in s[n..]
    decreases n
  {
    if n > 0 {
      assert s[0] in s;
      NoCrlfAfterDrop(s[1..], n - 1);
      assert s[1..][n - 1..] == s[n..];
    } else {
      assert s[0..] == s;
    }
  }

  /** The line end that is ahead is not dropped. */
  lemma EndKept(s: string, len: nat)
    requires 0 < len <= |s| && FindCrlf(s[..len]).None?
    ensures FindCrlf(s).Some? ==> FindCrlf(s).value >= FirstKept(s, len)
  {
    hide FindCrlf;
    assert s[..len] + s[len..] == s;
    CrlfInPrefix(s[..len], s[len..]);
    if FindCrlf(s).Some? { CrlfFound(s); }
  }

  lemma AheadKept(s: string, len: nat)
    requires 0 < len <= |s| && FindCrlf(s[..len]).None? && (FindCrlf(s).None? ==> NUL !in s)
    ensures var m := FirstKept(s, len);
            match FindCrlf(s)
            case None => FindCrlf(s[m..]).None? && NUL !in s[m..]
            case Some(i) => i >= m && FindCrlf(s[m..]) == Some(i - m) && s[m..][i - m + 2..] == s[i + 2..]
  {
    hide FindCrlf;
    var m := FirstKept(s, len);
    EndKept(s, len);
    if FindCrlf(s).None? {
      NoCrlfAfterDrop(s, m);
    } else {
      CrlfAfterDrop(s, m);
      DropTwice(s, m, FindCrlf(s).value - m + 2);
    }
  }

  /** It is the one that is found. */
  lemma EndFound(s: string, len: nat, n: nat)
    requires 0 < len <= |s| - n && FindCrlf(s[..len]).None? && (FindCrlf(s).None? ==> NUL !in s)
    ensures var m := FirstKept(s, len);
            FindCrlf(s[m..len + n]).Some? ==> FindCrlf(s) == Some(m + FindCrlf(s[m..len + n]).value)
  {
    hide FindCrlf;
    var m := FirstKept(s, len);
    AheadKept(s, len);
    assert s[m..len + n] + s[len + n..] == s[m..];
    CrlfInPrefix(s[m..len + n], s[len + n..]);
  }

  /** A step in an over-long line stays in it or comes behind it. */
  lemma SkipLeads(v: View, v1: View, cap: nat, n: nat, again: bool)
    requires SkipsOn(v, v1, cap, n, again) && (Behind(v.s).None? ==> NUL !in v.s)
    ensures FirstKept(v.s, v.len) <= v.len
    ensures var m := FirstKept(v.s, v.len);
            if v1.InSkip? then
              && v1 == InSkip(v.s[m..], v.len - m + n, v.status) && Behind(v1.s) == Behind(v.s)
              && (Behind(v.s).None? ==> NUL !in v1.s)
            else Behind(v.s).Some? && v1 == AtLine(Behind(v.s).value, v.status)
  {
    hide FindCrlf, RequiredHeader;
    AheadKept(v.s, v.len);
    EndFound(v.s, v.len, n);
  }

  lemma LineClean(s: string, status: int, cap: nat)
    requires Clear(s, status)
    ensures Fills(s, cap) ==> Clean(InSkip(s, cap - 1, status))
    ensures Fits(s, cap) ==>
              var i := FindCrlf(s).value;
              if i == 0 then 100 <= status < 200 ==> StatusClear(s[2..]) else Clear(s[i + 2..], status)
  {
    hide FindCrlf;
  }

  lemma LeadsClean(v: View, v1: View, cap: nat, n: nat, again: bool)
    requires Clean(v) && Leads(v, v1, cap, n, again)
    ensures Clean(v1)
  {
    hide FindCrlf, StatusDigits, RequiredHeader, SkipsOn, Behind, Clear;
    match v
    case AtStatus(s) =>
    case AtLine(s, status) => LineClean(s, status, cap);
    case InSkip(_, _, _) => SkipLeads(v, v1, cap, n, again);
    case Outside =>
  }

  /** Past the header there is no way back to it. */
  lemma OutsideStays(c: C, r: Reply)
    requires Valid(c.k) && CanStep(c, r) && ViewOf(c) == Outside
    ensures Valid(Next(c, r).k) && ViewOf(Next(c, r)) == Outside && Aligned(Next(c, r))
  {
    hide Step, Advance, CallOf, Suits, Valid, Defined;
    CanStepMeans(c, r);
    AskedValid(c, r);
    BodyStaysBody(c.k, r);
  }

  /** Every state of a run is one of these. */
  lemma WalkStep(c: C, r: Reply)
    requires Walking(c) && CanStep(c, r)
    ensures Walking(Next(c, r)) && (ViewOf(c) == Outside ==> ViewOf(Next(c, r)) == Outside)
    ensures ViewOf(c) != Outside ==> WalksOn(c, r, Next(c, r))
  {
    hide CanStep, Next, Clean, Leads, Over, BodyFirst, BodyNext;
    if ViewOf(c) == Outside {
      OutsideStays(c, r);
      OutsideClean(Next(c, r));
    } else {
      var d := Next(c, r);
      ViewStep(c, r);
      AskedValid(c, r);
      if StaysIn(c, r, d) {
        LeadsClean(ViewOf(c), ViewOf(d), Cap(c.k), Got(r), c.w.retries > 0);
      } else {
        HeaderIsOver(d);
        OutsideClean(d);
      }
    }
  }

  lemma OutsideClean(c: C)
    requires Aligned(c) && ViewOf(c) == Outside
    ensures Walking(c)
  {
  }

  lemma HeaderIsOver(c: C)
    requires Valid(c.k) && (Over(c.k) || BodyFirst(c.k))
    ensures Aligned(c) && ViewOf(c) == Outside
  {
  }
}
