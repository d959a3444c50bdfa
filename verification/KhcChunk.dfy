/** The chunked body: what the write callback gets is the decoded body, however the response is cut
    into pieces by the socket (section 4.1 of RFC 7230). */
module KhcChunk {
  import opened Text
  import opened KhcText
  import opened KhcMachine
  import opened KhcRun
  import opened KhcHeaders

  // ---------------------------------------------------------------------------------------------
  // The decoder

  /** The value of a chunk size line: hexadecimal digits first, whatever follows them. */
  function SizeOf(line: string): Option<nat> {
    if line == "" || HexDigit(line[0]).None? || (|line| > 1 && line[0] == '0' && (line[1] == 'x' || line[1] == 'X'))
       || HexRun(line, 0) > LONG_MAX then None
    else Some(HexRun(line, 0))
  }

  /** The body of the chunked message at the start of `s`, up to its chunk of size 0; None when there
      is no complete message, or a size line that does not fit a buffer of `cap` bytes with a line
      feed in front of it. */
  function Decode(s: string, cap: nat): Option<string>
    decreases |s|
  {
    match FindCrlf(s)
    case None => None
    case Some(i) =>
      match SizeOf(s[..i])
      case None => None
      case Some(n) =>
        if i + 3 > cap then None
        else if n == 0 then Some("")
        else DecodeChunk(s[i + 2..], n, cap)
  }

  /** The rest of a chunk, `m` bytes and CRLF, and what follows it. */
  function DecodeChunk(s: string, m: nat, cap: nat): Option<string>
    decreases |s|
  {
    if |s| < m + 2 || s[m..m + 2] != CRLF then None
    else
      match Decode(s[m + 2..], cap)
      case None => None
      case Some(b) => Some(s[..m] + b)
  }

  /** A line feed that a short read has left in front of a size line is no part of it. */
  function WithoutLf(s: string): string { if s != "" && s[0] == '\n' then s[1..] else s }

  // ---------------------------------------------------------------------------------------------
  // Encoded chunks

  lemma {:induction false} CrlfAfter(a: string, x: string)
    requires forall i :: 0 <= i < |a| ==> a[i] != '\r' && a[i] != NUL
    ensures FindCrlf(a + (CRLF + x)) == Some(|a|)
    decreases |a|
  {
    var s := a + (CRLF + x);
    if a == "" {
      assert s[0] == '\r' && s[1] == '\n';
    } else {
      assert s[1..] == a[1..] + (CRLF + x);
      CrlfAfter(a[1..], x);
    }
  }

  /** A chunk written with any size line of its length decodes to its data. */
  lemma DecodeOne(line: string, data: string, rest: string, cap: nat)
    requires forall i :: 0 <= i < |line| ==> line[i] != '\r' && line[i] != NUL
    requires SizeOf(line) == Some(|data|) && data != "" && |line| + 3 <= cap && Decode(rest, cap).Some?
    ensures Decode(line + (CRLF + (data + (CRLF + rest))), cap) == Some(data + Decode(rest, cap).value)
  {
    hide FindCrlf, SizeOf, DecodeChunk;
    var x := data + (CRLF + rest);
    CrlfAfter(line, x);
    LineParts(line, x);
    ChunkDecodes(data, rest, cap);
  }

  lemma LineParts(line: string, x: string)
    ensures (line + (CRLF + x))[..|line|] == line && (line + (CRLF + x))[|line| + 2..] == x
  {
  }

  lemma DataParts(data: string, rest: string)
    ensures var x := data + (CRLF + rest);
            x[..|data|] == data && x[|data|..|data| + 2] == CRLF && x[|data| + 2..] == rest
  {
  }

  lemma ChunkDecodes(data: string, rest: string, cap: nat)
    requires Decode(rest, cap).Some?
    ensures DecodeChunk(data + (CRLF + rest), |data|, cap) == Some(data + Decode(rest, cap).value)
  {
    hide FindCrlf, SizeOf, Decode;
    DataParts(data, rest);
  }

  lemma DecodeLast(line: string, rest: string, cap: nat)
    requires forall i :: 0 <= i < |line| ==> line[i] != '\r' && line[i] != NUL
    requires SizeOf(line) == Some(0) && |line| + 3 <= cap
    ensures Decode(line + (CRLF + rest), cap) == Some("")
  {
    hide FindCrlf, SizeOf, DecodeChunk;
    CrlfAfter(line, rest);
    assert (line + (CRLF + rest))[..|line|] == line;
  }

  // ---------------------------------------------------------------------------------------------
  // Size lines

  lemma {:induction false} RunEnds(s: string, i: nat, acc: nat)
    requires i < |s| && HexDigit(s[i]).None?
    ensures HexRun(s, acc) == HexRun(s[..i], acc)
    decreases i
  {
    if i > 0 && HexDigit(s[0]).Some? {
      assert s[..i][1..] == s[1..][..i - 1];
      RunEnds(s[1..], i - 1, 16 * acc + HexDigit(s[0]).value);
    }
  }

  /** `strtol` on the buffer reads what the size line says, line feed or not. */
  lemma SizeRead(s: string, i: nat)
    requires FindCrlf(s) == Some(i) && SizeOf(s[..i]).Some?
    ensures StrToL16(s) == SizeOf(s[..i]).value
    ensures StrToL16("\n" + s) == StrToL16(s)
    ensures StrToLStops(s) && StrToLStops("\n" + s)
  {
    CrlfFound(s);
    RunEnds(s, i, 0);
    RunStops(s, i);
    assert ("\n" + s)[1..] == s;
  }

  lemma {:induction false} RunStops(s: string, i: nat)
    requires i < |s| && HexDigit(s[i]).None?
    ensures HexStops(s)
    decreases i
  {
    if i > 0 { RunStops(s[1..], i - 1); }
  }

  lemma {:induction false} FirstCrlf(s: string, p: nat)
    requires p + 1 < |s| && s[p] == '\r' && s[p + 1] == '\n' && FindCrlf(s).Some?
    ensures FindCrlf(s).value <= p
  {
    CrlfFound(s);
  }

  /** Where a size line ends, counted from the line feed if there is one. */
  lemma SizeLineEnd(s: string, cap: nat)
    requires Decode(WithoutLf(s), cap).Some?
    ensures FindCrlf(s).Some? && FindCrlf(s).value + 2 <= cap
    ensures var i := FindCrlf(s).value;
            && StrToL16(s) >= 0
            && Decode(WithoutLf(s), cap) == if StrToL16(s) == 0 then Some("") else DecodeChunk(s[i + 2..], StrToL16(s), cap)
  {
    hide DecodeChunk, StrToL16;
    var t := WithoutLf(s);
    var i := FindCrlf(t).value;
    SizeRead(t, i);
    if t != s {
      assert s == "\n" + t;
      assert FindCrlf(s) == Some(i + 1);
      assert s[i + 1 + 2..] == t[i + 2..];
    }
  }

  // ---------------------------------------------------------------------------------------------
  // The invariant

  /** All bytes that the client has not looked at yet, in order. */
  function Unread(c: C): string
    requires c.k.head.len <= |c.k.head.bytes| && c.k.stream.len <= |c.k.stream.bytes|
  {
    (if c.k.phase.RespBodyReadChunkBody? then "" else c.k.stream.Contents()) + (c.k.head.Contents() + c.w.inbox)
  }

  /** What is still to be written, by the decoder. */
  function ToWrite(c: C): Option<string>
    requires c.k.head.len <= |c.k.head.bytes| && c.k.stream.len <= |c.k.stream.bytes|
  {
    var s, cap := Unread(c), |c.k.stream.bytes|;
    match c.k.phase
    case RespBodyParseChunkBody | RespBodyReadChunkBody =>
      if c.k.resp.chunkWritten <= c.k.resp.chunkSize then DecodeChunk(s, c.k.resp.chunkSize - c.k.resp.chunkWritten, cap)
      else None
    case RespBodySkipChunkBodyCrlf => DecodeChunk(s, 0, cap)
    case _ => Decode(WithoutLf(s), cap)
  }

  predicate ChunkInv(c: C, full: string) {
    && Valid(c.k) && ChunkPhase(c.k.phase) && !c.k.phase.ReadChunkBodyFromHeaderBuff?
    && (if c.k.phase.ReadChunkSizeFromHeaderBuff? then c.k.head.len > 0
        else c.k.phase.RespBodyParseChunkSize? || c.k.head.len == 0)
    && (c.k.head.len > 0 ==> c.k.stream.len == 0 && c.k.head.len <= |c.k.stream.bytes|)
    && (c.k.phase.RespBodyReadChunkSize? ==> !HasCrlf(c.k.stream.Contents()))
    && ToWrite(c).Some? && c.w.body + ToWrite(c).value == full
  }

  /** The chunk of size 0 has been read, and all of the body written. */
  predicate AllWritten(c: C, full: string) {
    c.k.phase.RespBodySkipTrailers? && c.w.body == full && c.k.stream.owner != Absent
  }

  /** The socket or the write callback has failed. */
  predicate BodyFailed(k: K) { k.phase.Close? && (k.result == SockRecv || k.result == WriteCallback) }

  predicate ChunkGoesOn(c: C, full: string) { ChunkInv(c, full) || AllWritten(c, full) || BodyFailed(c.k) }

  /** A size line that is there as a whole is read the same, whatever follows. */
  lemma SizeLineLocal(a: string, x: string, y: string, cap: nat)
    requires FindCrlf(a).Some? && Decode(WithoutLf(a + x), cap).Some?
    ensures FindCrlf(a + x) == FindCrlf(a + y) == FindCrlf(a)
    ensures StrToL16(a + x) == StrToL16(a + y) && StrToLStops(a + y)
  {
    hide StrToL16, StrToLStops, DecodeChunk, FindCrlf, SizeOf, WithoutLf;
    CrlfInPrefix(a, x);
    CrlfInPrefix(a, y);
    var b := WithoutLf(a);
    WithoutLfPrefix(a, x);
    WithoutLfPrefix(a, y);
    CrlfInPrefix(b, x);
    CrlfInPrefix(b, y);
    var i := FindCrlf(b).value;
    assert (b + x)[..i] == b[..i] == (b + y)[..i];
    SizeRead(b + x, i);
    SizeRead(b + y, i);
  }

  lemma WithoutLfPrefix(a: string, x: string)
    requires FindCrlf(a).Some?
    ensures WithoutLf(a + x) == WithoutLf(a) + x && FindCrlf(WithoutLf(a)).Some?
    ensures WithoutLf(a) == a || (a == "\n" + WithoutLf(a) && a + x == "\n" + (WithoutLf(a) + x))
  {
  }

  /** The size line that is ahead is found in the stream buffer as soon as it is there. */
  lemma SizeLineFound(c: C, full: string)
    requires ChunkInv(c, full) && c.k.phase.RespBodyParseChunkSize? && HasCrlf(c.k.stream.Contents())
    ensures SizeLineOk(c.k.stream) && FindCrlf(c.k.stream.bytes) == FindCrlf(Unread(c))
    ensures StrToL16(c.k.stream.bytes) == StrToL16(Unread(c))
  {
    hide Decode, StrToL16, StrToLStops, FindCrlf;
    var a, x, y := c.k.stream.Contents(), c.k.head.Contents() + c.w.inbox, c.k.stream.bytes[c.k.stream.len..];
    SizeLineEnd(a + x, |c.k.stream.bytes|);
    var p :| 0 <= p < |a| - 1 && a[p] == '\r' && a[p + 1] == '\n';
    FirstCrlf(a + x, p);
    CrlfInPrefix(a, x);
    SizeLineLocal(a, x, y, |c.k.stream.bytes|);
    assert a + y == c.k.stream.bytes;
  }

  // ---------------------------------------------------------------------------------------------
  // One step

  lemma ParseSizeStep(c: C, full: string)
    requires ChunkInv(c, full) && c.k.phase.RespBodyParseChunkSize?
    ensures SizeLineOk(c.k.stream)
    ensures ChunkGoesOn(C(StepParseSize(c.k), c.w), full)
  {
    hide Decode, DecodeChunk, StrToL16, FindCrlf, HasCrlf, Drop;
    if HasCrlf(c.k.stream.Contents()) {
      SizeLineFound(c, full);
      var s, n := Unread(c), FindCrlf(c.k.stream.bytes).value + 2;
      SizeLineEnd(s, |c.k.stream.bytes|);
      StrToL16InRange(s);
      var c1 := C(StepParseSize(c.k), c.w);
      NoHead(c);
      UnreadDropped(c, c1, n);
      assert c.w.body + "" == c.w.body;
    }
  }

  /** The first bytes of the stream buffer are dropped. */
  lemma UnreadDropped(c: C, d: C, n: nat)
    requires c.k.head.len <= |c.k.head.bytes| && n <= c.k.stream.len <= |c.k.stream.bytes|
    requires d.k.head == c.k.head && d.k.stream == Drop(c.k.stream, n) && d.w.inbox == c.w.inbox
    requires !c.k.phase.RespBodyReadChunkBody? && !d.k.phase.RespBodyReadChunkBody?
    ensures Unread(d) == Unread(c)[n..]
  {
    hide Drop;
    ContentsDrop(c.k.stream, n);
  }

  /** A size line in the stream buffer comes from the socket, or all of the header buffer has been
      moved. */
  lemma NoHead(c: C)
    requires c.k.stream.len <= |c.k.stream.bytes| && HasCrlf(c.k.stream.Contents())
    ensures c.k.stream.len > 0
  {
  }

  lemma MoveHeaderStep(c: C, full: string)
    requires ChunkInv(c, full) && c.k.phase.ReadChunkSizeFromHeaderBuff?
    ensures ChunkInv(C(StepMoveHeader(c.k, RespBodyParseChunkSize), c.w), full)
  {
    hide Decode, FindCrlf, HasCrlf, Put, DropZ;
    var k1 := StepMoveHeader(c.k, RespBodyParseChunkSize);
    ContentsPut(c.k.stream, c.k.stream.len, c.k.head.bytes[..c.k.head.len]);
    ContentsDropZ(c.k.head, c.k.head.len);
    assert Unread(C(k1, c.w)) == Unread(c);
  }

  /** No size line is buffered, so there is room for more of it, and more of it to come. */
  lemma MoreOfSizeLine(c: C, full: string)
    requires ChunkInv(c, full) && c.k.phase.RespBodyReadChunkSize?
    ensures c.k.stream.len < |c.k.stream.bytes| && c.w.inbox != ""
  {
    hide Decode, DecodeChunk, StrToL16, FindCrlf;
    var a, s := c.k.stream.Contents(), Unread(c);
    SizeLineEnd(s, |c.k.stream.bytes|);
    CrlfFound(s);
    var i := FindCrlf(s).value;
    assert forall j :: 0 <= j < |a| ==> a[j] == s[j];
    assert c.w.inbox == "" ==> s == a;
  }

  lemma ReadSizeStep(c: C, code: SockCode, data: string, full: string)
    requires ChunkInv(c, full) && c.k.phase.RespBodyReadChunkSize?
    requires data <= c.w.inbox && c.k.stream.len + |data| <= |c.k.stream.bytes|
    requires code != SockOk ==> data == ""
    requires code == SockOk ==> data != ""
    ensures ChunkGoesOn(Inbox(c, StepReadSize(c.k, code, data), data), full)
  {
    hide Decode, FindCrlf, HasCrlf, Put;
    MoreOfSizeLine(c, full);
    assert c.w.inbox[0..] == c.w.inbox;
    if code == SockOk {
      var k1 := StepReadSize(c.k, code, data);
      ContentsPut(c.k.stream, c.k.stream.len, data);
      assert Unread(Inbox(c, k1, data)) == Unread(c);
    }
  }

  /** A part of a chunk has been written. */
  lemma ChunkPart(s: string, m: nat, n: nat, cap: nat)
    requires DecodeChunk(s, m, cap).Some? && n <= m
    ensures n <= |s| && DecodeChunk(s[n..], m - n, cap).Some?
    ensures DecodeChunk(s, m, cap).value == s[..n] + DecodeChunk(s[n..], m - n, cap).value
  {
    assert s[n..][m - n..m - n + 2] == s[m..m + 2];
    assert s[n..][m - n + 2..] == s[m + 2..];
    assert s[..m] == s[..n] + s[n..][..m - n];
  }

  lemma ParseBodyStep(c: C, taken: nat, full: string)
    requires ChunkInv(c, full) && c.k.phase.RespBodyParseChunkBody?
    ensures var data := c.k.stream.bytes[..TargetSize(c.k)];
            var w1 := if taken >= |data| then c.w.(body := c.w.body + data) else c.w;
            ChunkGoesOn(C(StepParseBody(c.k, taken), w1), full)
  {
    hide Decode, DecodeChunk, FindCrlf, HasCrlf, Drop;
    var n, s := TargetSize(c.k), Unread(c);
    var m := c.k.resp.chunkSize - c.k.resp.chunkWritten;
    var data := c.k.stream.bytes[..n];
    ChunkPart(s, m, n, |c.k.stream.bytes|);
    assert s[..n] == data;
    if taken >= n {
      var c1 := C(StepParseBody(c.k, taken), c.w.(body := c.w.body + data));
      ContentsDrop(c.k.stream, n);
      assert Unread(c1) == s[n..];
      var more := DecodeChunk(s[n..], m - n, |c.k.stream.bytes|).value;
      assert c.w.body + (data + more) == c.w.body + data + more;
    }
  }

  lemma {:induction false} ChunkNotOver(s: string, m: nat, cap: nat)
    requires DecodeChunk(s, m, cap).Some?
    ensures |s| >= m + 2 && s[m] == '\r' && s[m + 1] == '\n'
  {
    assert s[m..m + 2][0] == '\r' && s[m..m + 2][1] == '\n';
  }

  lemma ReadBodyStep(c: C, code: SockCode, data: string, full: string)
    requires ChunkInv(c, full) && c.k.phase.RespBodyReadChunkBody?
    requires data <= c.w.inbox && |data| <= |c.k.stream.bytes|
    requires (code != SockOk ==> data == "") && (code == SockOk && data == "" ==> c.w.inbox == "")
    ensures ChunkGoesOn(Inbox(c, StepReadBody(c.k, code, data), data), full)
  {
    hide Decode, DecodeChunk, FindCrlf, HasCrlf, Put;
    ChunkNotOver(Unread(c), c.k.resp.chunkSize - c.k.resp.chunkWritten, |c.k.stream.bytes|);
    assert c.w.inbox[0..] == c.w.inbox;
    if code == SockOk {
      var k1 := StepReadBody(c.k, code, data);
      ContentsPut(c.k.stream, 0, data);
      assert Unread(Inbox(c, k1, data)) == Unread(c);
    }
  }

  /** After the chunk's CRLF, or its CR alone, the next size line is ahead. */
  lemma CrlfSkipped(s: string, cap: nat)
    requires DecodeChunk(s, 0, cap).Some?
    ensures |s| >= 2 && s[0] == '\r' && s[1] == '\n'
    ensures Decode(WithoutLf(s[1..]), cap) == DecodeChunk(s, 0, cap)
    ensures Decode(WithoutLf(s[2..]), cap) == DecodeChunk(s, 0, cap)
  {
    ChunkNotOver(s, 0, cap);
    assert s[1..][1..] == s[2..];
    var b := Decode(s[2..], cap).value;
    assert s[..0] + b == b;
    NoLfBefore(s[2..], cap);
  }

  lemma NoLfBefore(s: string, cap: nat)
    requires Decode(s, cap).Some?
    ensures WithoutLf(s) == s
  {
    CrlfFound(s);
  }

  lemma SkipCrlfStep(c: C, code: SockCode, data: string, full: string)
    requires ChunkInv(c, full) && c.k.phase.RespBodySkipChunkBodyCrlf?
    requires data <= c.w.inbox && (c.k.stream.len < 2 ==> |data| <= 2 - c.k.stream.len)
    requires c.k.stream.len >= 2 || code != SockOk ==> data == ""
    requires code == SockOk && c.k.stream.len < 2 && data == "" ==> c.w.inbox == ""
    ensures ChunkGoesOn(Inbox(c, StepSkipCrlf(c.k, code, data), data), full)
  {
    hide Decode, DecodeChunk, WithoutLf, FindCrlf, HasCrlf, Drop;
    var s := Unread(c);
    CrlfSkipped(s, |c.k.stream.bytes|);
    assert c.w.inbox[0..] == c.w.inbox;
    var c1 := Inbox(c, StepSkipCrlf(c.k, code, data), data);
    if c.k.stream.len >= 2 {
      ContentsDrop(c.k.stream, 2);
      assert Unread(c1) == s[2..];
    } else if code == SockOk && data != "" {
      UnreadBehind(c, c1.k, data);
    }
  }

  /** All of the stream buffer, and what has been received, is behind us. */
  lemma UnreadBehind(c: C, k1: K, data: string)
    requires c.k.head.len == 0 && c.k.stream.len <= |c.k.stream.bytes| && data <= c.w.inbox
    requires k1.head == c.k.head && k1.stream == c.k.stream.(len := 0)
    requires !c.k.phase.RespBodyReadChunkBody? && !k1.phase.RespBodyReadChunkBody?
    ensures Unread(Inbox(c, k1, data)) == Unread(c)[c.k.stream.len + |data|..]
  {
  }

  /** The code never leaves its buffers while it decodes a well-formed body. */
  lemma ChunkDefined(c: C, full: string)
    requires ChunkInv(c, full)
    ensures Defined(c.k)
  {
    hide ToWrite, FindCrlf, HasCrlf, StrToL16;
    if c.k.phase.RespBodyParseChunkSize? {
      ParseSizeStep(c, full);
    }
  }

  lemma SameChunks(c: C, d: C, full: string)
    requires ChunkGoesOn(c, full) && d.k == c.k && d.w.inbox == c.w.inbox && d.w.body == c.w.body
    ensures ChunkGoesOn(d, full)
  {
    hide Decode, DecodeChunk, WithoutLf, FindCrlf, HasCrlf;
  }

  /** What has been written and what the decoder makes of the unread bytes is the body, after every
      step; nothing but the socket or the write callback can make the run fail. */
  lemma ChunkStep(c: C, r: Reply, full: string)
    requires ChunkInv(c, full) && CanStep(c, r)
    ensures ChunkGoesOn(Next(c, r), full)
  {
    hide ChunkInv, AllWritten, BodyFailed, StepParseSize, StepMoveHeader, StepReadSize, StepParseBody, StepReadBody,
         StepSkipCrlf, TargetSize, HasCrlf, FindCrlf, PhaseOk;
    ChunkHere(c, full);
    assert c.w.inbox[0..] == c.w.inbox;
    match c.k.phase
    case RespBodyParseChunkSize => ParseSizeStep(c, full);
    case ReadChunkSizeFromHeaderBuff => MoveHeaderStep(c, full);
    case RespBodyReadChunkSize =>
      MoreOfSizeLine(c, full);
      ReadSizeStep(c, r.code, r.data, full);
      SameChunks(Inbox(c, StepReadSize(c.k, r.code, r.data), r.data), Next(c, r), full);
    case RespBodyParseChunkBody =>
      ParseBodyStep(c, r.n, full);
      var data := c.k.stream.bytes[..TargetSize(c.k)];
      var w1 := if r.n >= |data| then c.w.(body := c.w.body + data) else c.w;
      SameChunks(C(StepParseBody(c.k, r.n), w1), Next(c, r), full);
    case RespBodyReadChunkBody =>
      ReadBodyStep(c, r.code, r.data, full);
      SameChunks(Inbox(c, StepReadBody(c.k, r.code, r.data), r.data), Next(c, r), full);
    case RespBodySkipChunkBodyCrlf =>
      if r.Received? {
        SkipCrlfStep(c, r.code, r.data, full);
        SameChunks(Inbox(c, StepSkipCrlf(c.k, r.code, r.data), r.data), Next(c, r), full);
      } else {
        SkipCrlfStep(c, SockOk, "", full);
      }
  }

  lemma ChunkHere(c: C, full: string)
    requires ChunkInv(c, full)
    ensures Valid(c.k) && ChunkPhase(c.k.phase) && !c.k.phase.ReadChunkBodyFromHeaderBuff?
    ensures c.k.stream.len <= |c.k.stream.bytes| && |c.k.stream.bytes| > 0
  {
    hide FindCrlf, HasCrlf, SizeOf, WithoutLf;
    DecodeHasRoom(c);
  }

  /** No size line has room in a buffer of no bytes. */
  lemma DecodeHasRoom(c: C)
    requires c.k.head.len <= |c.k.head.bytes| && c.k.stream.len <= |c.k.stream.bytes| && ToWrite(c).Some?
    ensures |c.k.stream.bytes| > 0
  {
    hide FindCrlf, SizeOf, WithoutLf, Unread, Decode, DecodeChunk;
    forall s: string { DecodeRoom(s, |c.k.stream.bytes|); }
    forall s: string, m: nat { ChunkRoom(s, m, |c.k.stream.bytes|); }
  }

  lemma DecodeRoom(s: string, cap: nat)
    ensures Decode(s, cap).Some? ==> cap > 0
  {
    hide FindCrlf, SizeOf, DecodeChunk;
  }

  lemma ChunkRoom(s: string, m: nat, cap: nat)
    ensures DecodeChunk(s, m, cap).Some? ==> cap > 0
  {
    hide Decode;
    if DecodeChunk(s, m, cap).Some? { DecodeRoom(s[m + 2..], cap); }
  }
}
