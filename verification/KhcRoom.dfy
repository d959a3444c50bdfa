/** How large the stream buffer has to be: what is left in the header buffer must have room in it. */
module KhcRoom {
  import opened Text
  import opened KhcText
  import opened KhcMachine
  import opened KhcRun
  import opened KhcHeaders
  import opened KhcChunk
  import opened KhcResponse
  import opened KhcDelivery
  import opened KhcLook

  /** A fresh client with buffers of these sizes and a response that they can take. */
  ghost predicate Takes(c: C, hcap: nat, scap: nat, e: Expected) {
    && Fresh(c) && SizeOfBuffer(c.k.head, HEADER_BUFF_SIZE) == hcap && SizeOfBuffer(c.k.stream, STREAM_BUFF_SIZE) == scap
    && Expect(c.w.inbox, hcap, scap) == Some(e)
  }

  ghost predicate EndsWell(c: C, rs: seq<Reply>) {
    Runs(c, rs) && After(c, rs).k.phase.Finished? && After(c, rs).k.result == Ok
  }

  /** Whatever response such buffers can take, a run that ends well has delivered all of its body. */
  ghost predicate NothingLost(hcap: nat, scap: nat) {
    forall c: C, rs: seq<Reply>, e: Expected :: Takes(c, hcap, scap, e) && EndsWell(c, rs) ==> After(c, rs).w.body == e.body
  }

  // ---------------------------------------------------------------------------------------------
  // A response that a smaller stream buffer loses a part of

  const TAIL := "\r\nYZ\r\n0\r\n\r\n"

  /** The size line `0...01` of a chunk of one byte, so long that size line and byte fill the buffer. */
  function Size(scap: nat): string
    requires scap >= 4
  {
    Zeros(scap - 4) + "1"
  }

  function Chunk(scap: nat): string
    requires scap >= 4
  {
    Size(scap) + CRLF + "X"
  }

  /** What the last read into the header buffer gets: the blank line, the first chunk and its CR. */
  function Third(scap: nat): string
    requires scap >= 4
  {
    CRLF + (Chunk(scap) + "\r")
  }

  /** Two chunks, X and YZ. */
  function Response(scap: nat): string
    requires scap >= 4
  {
    Headed(Third(scap) + ("\n2" + TAIL))
  }

  lemma {:induction false} ZerosRun(n: nat)
    ensures HexRun(Zeros(n) + "1", 0) == 1
  {
    if n == 0 {
      assert Zeros(0) + "1" == "1";
      assert "1"[1..] == "";
    } else {
      assert (Zeros(n) + "1")[1..] == Zeros(n - 1) + "1";
      ZerosRun(n - 1);
    }
  }

  lemma SizeIsOne(scap: nat)
    requires scap >= 4
    ensures |Size(scap)| == scap - 3 && SizeOf(Size(scap)) == Some(1)
    ensures forall i :: 0 <= i < scap - 3 ==> Size(scap)[i] != '\r' && Size(scap)[i] != NUL
  {
    ZerosLength(scap - 4);
    ZerosRun(scap - 4);
  }

  // ---------------------------------------------------------------------------------------------
  // What should come of it

  lemma TailDecodes(scap: nat)
    requires scap >= 4
    ensures Decode("2" + TAIL, scap) == Some("YZ")
  {
    hide Decode, FindCrlf;
    assert "2"[1..] == "" && "0"[1..] == "";
    assert HexRun("2", 0) == 2 && HexRun("0", 0) == 0;
    assert "YZ" + "" == "YZ";
    DecodeLast("0", CRLF, scap);
    var last := "0" + (CRLF + CRLF);
    DecodeOne("2", "YZ", last, scap);
    assert "2" + (CRLF + ("YZ" + (CRLF + last))) == "2" + TAIL;
  }

  lemma BodyDecodes(scap: nat)
    requires scap >= 4
    ensures Decode(Chunk(scap) + "\r" + ("\n2" + TAIL), scap) == Some("XYZ")
  {
    hide Decode, FindCrlf, SizeOf, Size;
    SizeIsOne(scap);
    TailDecodes(scap);
    DecodeOne(Size(scap), "X", "2" + TAIL, scap);
    assert "X" + "YZ" == "XYZ";
    assert Size(scap) + (CRLF + ("X" + (CRLF + ("2" + TAIL)))) == Chunk(scap) + "\r" + ("\n2" + TAIL);
  }

  /** The header of the response: two lines, of which the second announces a chunked body. */
  lemma HeaderExpected(hcap: nat, rest: string)
    requires hcap >= 15
    ensures Answer(Headed(CRLF + rest), hcap) == Some(Heads([STATUS, CHUNKED], rest))
  {
    hide FindCrlf, StatusDigits, Block;
    StatusRead();
    SaysChunked();
    var b := CRLF + rest;
    var t := CHUNKED + (CRLF + b);
    var s := STATUS + (CRLF + t);
    assert Headed(b) == s;
    BlankBlock(rest, hcap);
    BlockLine(CHUNKED, b, hcap, [], rest);
    BlockLine(STATUS, t, hcap, [CHUNKED] + [], rest);
    assert [STATUS] + ([CHUNKED] + []) == [STATUS, CHUNKED];
    CrlfAfter(STATUS, t);
    assert s[..12] == STATUS;
  }

  lemma ResponseExpected(hcap: nat, scap: nat)
    requires hcap >= 15 && scap >= 4
    ensures Expect(Response(scap), hcap, scap).Some? && Expect(Response(scap), hcap, scap).value.body == "XYZ"
  {
    hide Answer, Decode, IsChunkedEncoding, Chunk;
    var rest := Chunk(scap) + "\r" + ("\n2" + TAIL);
    assert Third(scap) + ("\n2" + TAIL) == CRLF + rest;
    HeaderExpected(hcap, rest);
    SaysChunked();
    assert [STATUS, CHUNKED][1] == CHUNKED;
    BodyDecodes(scap);
  }

  // ---------------------------------------------------------------------------------------------
  // The run

  lemma LookMoves(c: C, hcap: nat, scap: nat, l: Look, n: nat) returns (d: C)
    requires Looks(c, hcap, scap, l) && l.phase.ReadChunkSizeFromHeaderBuff? && l.stream == "" && scap > 0
    requires n == if |l.head| <= scap then |l.head| else scap
    ensures Moves(c, d)
    ensures Looks(d, hcap, scap, l.(phase := RespBodyParseChunkSize, stream := l.head[..n], head := l.head[n..]))
  {
    hide Moves, Put, DropZ, Valid, StepParseSize, StepParseBody, StepReadBody, StepReadSize, StepSkipCrlf, StepHeader,
         StepPlain, StepSend, SizeLineOk, TargetSize, RequiredHeader, FindCrlf, Hex, Unsent;
    MovesOne(c, Quiet);
    StepValid(c.k, Quiet);
    ContentsPut(c.k.stream, 0, c.k.head.bytes[..n]);
    ContentsDropZ(c.k.head, n);
    d := Next(c, Quiet);
  }

  lemma LookReadsSize(c: C, hcap: nat, scap: nat, l: Look, n: nat, size: nat) returns (d: C)
    requires Looks(c, hcap, scap, l) && l.phase.RespBodyParseChunkSize?
    requires FindCrlf(l.stream) == Some(n) && StrToL16(c.k.stream.bytes) == size && StrToLStops(c.k.stream.bytes)
    ensures Moves(c, d)
    ensures Looks(d, hcap, scap, l.(phase := if size == 0 then RespBodySkipTrailers else RespBodyParseChunkBody,
                                    stream := l.stream[n + 2..], resp := l.resp.(chunkSize := size, chunkWritten := 0)))
  {
    hide FindCrlf, StrToL16, StrToLStops, Drop, Valid, StepMoveHeader, StepParseBody, StepReadBody, StepReadSize,
         StepSkipCrlf, StepHeader, StepPlain, StepSend, TargetSize, RequiredHeader, Hex, Unsent;
    CrlfFound(l.stream);
    assert HasCrlf(l.stream) by { assert l.stream[n] == '\r'; }
    CrlfInPrefix(l.stream, c.k.stream.bytes[c.k.stream.len..]);
    assert l.stream + c.k.stream.bytes[c.k.stream.len..] == c.k.stream.bytes;
    MovesOne(c, Quiet);
    StepValid(c.k, Quiet);
    ContentsDrop(c.k.stream, n + 2);
    d := Next(c, Quiet);
  }

  lemma LookWrites(c: C, hcap: nat, scap: nat, l: Look) returns (d: C)
    requires Looks(c, hcap, scap, l) && l.phase.RespBodyParseChunkBody? && l.resp.chunkSize == |l.stream|
             && l.resp.chunkWritten == 0
    ensures Moves(c, d)
    ensures Looks(d, hcap, scap, l.(phase := RespBodySkipChunkBodyCrlf, stream := "", body := l.body + l.stream,
                                    resp := l.resp.(chunkWritten := |l.stream|)))
  {
    hide Drop;
    var r := Taken(|l.stream|);
    MovesOne(c, r);
    StepValid(c.k, r);
    ContentsDrop(c.k.stream, |l.stream|);
    assert c.k.stream.bytes[..TargetSize(c.k)] == l.stream;
    d := Next(c, r);
  }

  lemma LookSkipsCrlf(c: C, hcap: nat, scap: nat, l: Look, rest: string) returns (d: C)
    requires Looks(c, hcap, scap, l) && l.phase.RespBodySkipChunkBodyCrlf? && l.stream == "" && l.inbox == "\n2" + rest
    ensures Moves(c, d) && Looks(d, hcap, scap, l.(phase := RespBodyParseChunkSize, inbox := rest))
  {
    hide Moves, StepHeader, StepSend, StepPlain, SizeLineOk, TargetSize, RequiredHeader, FindCrlf, Hex, Unsent;
    var r := Received(SockOk, "\n2");
    MovesOne(c, r);
    StepValid(c.k, r);
    assert l.inbox[2..] == rest;
    d := Next(c, r);
  }

  lemma LookSkipsTrailer(c: C, hcap: nat, scap: nat, l: Look, data: string, rest: string) returns (d: C)
    requires Looks(c, hcap, scap, l) && l.phase.RespBodySkipTrailers? && l.inbox == data + rest && |data| <= scap
    requires data == "" ==> rest == ""
    ensures Moves(c, d) && d.k.result == Ok && d.w.body == l.body
    ensures data != "" ==> exists t :: Looks(d, hcap, scap, l.(inbox := rest, stream := t))
    ensures data == "" ==> Valid(d.k) && d.k.phase.Close?
  {
    hide Put, Moves, StepChunk, StepHeader, StepSend, SizeLineOk, TargetSize, RequiredHeader, FindCrlf, Hex, Unsent;
    var r := Received(SockOk, data);
    MovesOne(c, r);
    StepValid(c.k, r);
    d := Next(c, r);
    if data != "" {
      assert Looks(d, hcap, scap, l.(inbox := rest, stream := d.k.stream.Contents()));
    }
  }

  /** A client with the caller's buffers and a request without headers and body. */
  function Client(hcap: nat, scap: nat): C {
    C(K(Idle, Ok, Request("h", "/", "GET", false, [], false), Outgoing(0, 0, 0, false),
        Buffer(Zeros(hcap), 0, Caller), Buffer(Zeros(scap), 0, Caller), Incoming(0, false, 0, 0, false)),
      World(if scap >= 4 then Response(scap) else "", "", [], [], "", false, Unopened, 0, 0, NO_HEAP))
  }

  lemma FreshClient(hcap: nat, scap: nat)
    requires 15 <= hcap < LONG_MAX && 4 <= scap < LONG_MAX
    ensures Fresh(Client(hcap, scap))
  {
    hide Response;
    ZerosLength(hcap);
    ZerosLength(scap);
  }

  /** The header, read line by line; the last read fills the header buffer beyond what the stream
      buffer can hold. */
  lemma ReadsHeader(hcap: nat, scap: nat) returns (d: C)
    requires hcap >= 15 && scap >= 4 && scap + 4 <= hcap < LONG_MAX
    ensures Moves(Client(hcap, scap), d)
    ensures Looks(d, hcap, scap, Look(ReadChunkSizeFromHeaderBuff, Chunk(scap) + "\r", "", "\n2" + TAIL, "",
                                         Incoming(200, true, 0, 0, false), 0))
  {
    hide Looks, Moves, Client, FindCrlf, Chunk, Fresh;
    ChunkLength(scap);
    FreshClient(hcap, scap);
    ClientSizes(hcap, scap);
    var c := Client(hcap, scap);
    var c1, stream := ChunkedHeader(c, Third(scap) + ("\n2" + TAIL));
    var l := Look(RespHeaderRead, "", stream, Third(scap) + ("\n2" + TAIL), "", Incoming(200, true, 0, 0, false), 0);
    assert "" + Third(scap) == Third(scap);
    var c2 := LookReceives(c1, hcap, scap, l, Third(scap), "\n2" + TAIL);
    MovesOn(c, c1, c2);
    l := l.(phase := RespHeaderCallback, head := Third(scap), inbox := "\n2" + TAIL);
    var c3 := LookEndsHeader(c2, hcap, scap, l, Chunk(scap) + "\r");
    MovesOn(c, c2, c3);
    d := LookNoSize(c3, hcap, scap, l.(phase := RespBodyParseChunkSize, head := Chunk(scap) + "\r", stream := ""));
    MovesOn(c, c3, d);
  }

  lemma ClientSizes(hcap: nat, scap: nat)
    requires scap >= 4
    ensures var c := Client(hcap, scap);
            && SizeOfBuffer(c.k.head, HEADER_BUFF_SIZE) == hcap && SizeOfBuffer(c.k.stream, STREAM_BUFF_SIZE) == scap
            && c.w.inbox == Response(scap) && c.w.retries == 0
  {
    hide Response;
    ZerosLength(hcap);
    ZerosLength(scap);
  }

  lemma ChunkLength(scap: nat)
    requires scap >= 4
    ensures |Chunk(scap)| == scap
  {
    SizeIsOne(scap);
  }

  lemma ChunkRead(scap: nat)
    requires scap >= 4
    ensures FindCrlf(Chunk(scap)) == Some(scap - 3) && Chunk(scap)[scap - 1..] == "X"
    ensures StrToL16(Chunk(scap)) == 1 && StrToLStops(Chunk(scap))
  {
    hide FindCrlf, StrToL16, StrToLStops, Size;
    SizeIsOne(scap);
    CrlfAfter(Size(scap), "X");
    assert Size(scap) + (CRLF + "X") == Chunk(scap);
    assert Chunk(scap)[..scap - 3] == Size(scap);
    SizeRead(Chunk(scap), scap - 3);
  }

  /** The first chunk is moved and written, and its CR stays behind in the header buffer; the line
      feed and the next chunk's size are taken for its CRLF. */
  lemma TakesWrongBytes(c: C, hcap: nat, scap: nat) returns (d: C)
    requires hcap > scap >= 4
    requires Looks(c, hcap, scap, Look(ReadChunkSizeFromHeaderBuff, Chunk(scap) + "\r", "", "\n2" + TAIL, "",
                                         Incoming(200, true, 0, 0, false), 0))
    ensures Moves(c, d)
    ensures Looks(d, hcap, scap, Look(ReadChunkSizeFromHeaderBuff, "\r", "", TAIL, "X",
                                          Incoming(200, true, 1, 1, false), 0))
  {
    hide Looks, Moves, FindCrlf, StrToL16, StrToLStops, Chunk;
    ChunkLength(scap);
    ChunkRead(scap);
    var h := Chunk(scap) + "\r";
    var l := Look(ReadChunkSizeFromHeaderBuff, h, "", "\n2" + TAIL, "", Incoming(200, true, 0, 0, false), 0);
    assert h[..scap] == Chunk(scap) && h[scap..] == "\r";
    var c1 := LookMoves(c, hcap, scap, l, scap);
    l := l.(phase := RespBodyParseChunkSize, stream := Chunk(scap), head := "\r");
    WholeBuffer(c1, hcap, scap, l);
    var c2 := LookReadsSize(c1, hcap, scap, l, scap - 3, 1);
    MovesOn(c, c1, c2);
    l := l.(phase := RespBodyParseChunkBody, stream := "X", resp := Incoming(200, true, 1, 0, false));
    var c3 := LookWrites(c2, hcap, scap, l);
    MovesOn(c, c2, c3);
    assert "" + "X" == "X";
    l := Look(RespBodySkipChunkBodyCrlf, "\r", "", "\n2" + TAIL, "X", Incoming(200, true, 1, 1, false), 0);
    var c4 := LookSkipsCrlf(c3, hcap, scap, l, TAIL);
    MovesOn(c, c3, c4);
    l := l.(phase := RespBodyParseChunkSize, inbox := TAIL);
    d := LookNoSize(c4, hcap, scap, l);
    MovesOn(c, c4, d);
  }

  lemma WholeBuffer(c: C, hcap: nat, scap: nat, l: Look)
    requires Looks(c, hcap, scap, l) && |l.stream| == scap
    ensures c.k.stream.bytes == l.stream
  {
  }

  /** The CR that stayed behind and the CRLF after the lost size are read as a chunk of size 0. */
  lemma ReadsZero(c: C, hcap: nat, scap: nat) returns (d: C)
    requires hcap > scap >= 4
    requires Looks(c, hcap, scap, Look(ReadChunkSizeFromHeaderBuff, "\r", "", TAIL, "X",
                                          Incoming(200, true, 1, 1, false), 0))
    ensures Moves(c, d)
    ensures Looks(d, hcap, scap, Look(RespBodySkipTrailers, "", "Y", "Z\r\n0\r\n\r\n", "X",
                                         Incoming(200, true, 0, 0, false), 0))
  {
    hide Looks, Moves, StrToL16, StrToLStops;
    var l := Look(ReadChunkSizeFromHeaderBuff, "\r", "", TAIL, "X", Incoming(200, true, 1, 1, false), 0);
    assert "\r"[..1] == "\r" && "\r"[1..] == "";
    var c1 := LookMoves(c, hcap, scap, l, 1);
    l := l.(phase := RespBodyParseChunkSize, stream := "\r", head := "");
    var c2 := LookNoSize(c1, hcap, scap, l);
    MovesOn(c, c1, c2);
    l := l.(phase := RespBodyReadChunkSize);
    assert TAIL == "\r\nY" + "Z\r\n0\r\n\r\n";
    var c3 := LookReadsMore(c2, hcap, scap, l, "\r\nY", "Z\r\n0\r\n\r\n");
    MovesOn(c, c2, c3);
    assert "\r" + "\r\nY" == "\r\r\nY";
    l := l.(phase := RespBodyParseChunkSize, stream := "\r\r\nY", inbox := "Z\r\n0\r\n\r\n");
    ZeroHere(c3, hcap, scap, l);
    assert "\r\r\nY"[3..] == "Y";
    d := LookReadsSize(c3, hcap, scap, l, 1, 0);
    MovesOn(c, c3, d);
  }

  lemma ZeroHere(c: C, hcap: nat, scap: nat, l: Look)
    requires Looks(c, hcap, scap, l) && l.stream == "\r\r\nY"
    ensures StrToL16(c.k.stream.bytes) == 0 && StrToLStops(c.k.stream.bytes) && FindCrlf(l.stream) == Some(1)
  {
    var b := c.k.stream.bytes;
    assert b[..4] == l.stream;
    assert b[0] == '\r' && b[1] == '\r' && b[2] == '\n' && b[3] == 'Y';
    assert StrToL16(b[3..]) == 0 && HexStops(b[3..]) && StrToLStops(b[3..]);
    assert b[1..][1..] == b[2..] && b[2..][1..] == b[3..];
    assert StrToL16(b[2..]) == 0 && StrToLStops(b[2..]);
    assert StrToL16(b[1..]) == 0 && StrToLStops(b[1..]);
    assert l.stream[1..][0] == '\r' && l.stream[1..][1] == '\n';
  }

  /** The rest is passed over as a trailer, and the run ends well. */
  lemma EndsEarly(c: C, hcap: nat, scap: nat) returns (d: C)
    requires scap >= 4
    requires Looks(c, hcap, scap, Look(RespBodySkipTrailers, "", "Y", "Z\r\n0\r\n\r\n", "X",
                                         Incoming(200, true, 0, 0, false), 0))
    ensures Moves(c, d) && d.k.phase.Finished? && d.k.result == Ok && d.w.body == "X"
  {
    hide Looks, Moves;
    var l := Look(RespBodySkipTrailers, "", "Y", "Z\r\n0\r\n\r\n", "X", Incoming(200, true, 0, 0, false), 0);
    assert "Z\r\n0\r\n\r\n" == "Z\r\n0" + "\r\n\r\n";
    var c1 := LookSkipsTrailer(c, hcap, scap, l, "Z\r\n0", "\r\n\r\n");
    var t1 :| Looks(c1, hcap, scap, l.(inbox := "\r\n\r\n", stream := t1));
    assert "\r\n\r\n" == "\r\n\r\n" + "";
    var c2 := LookSkipsTrailer(c1, hcap, scap, l.(inbox := "\r\n\r\n", stream := t1), "\r\n\r\n", "");
    var t2 :| Looks(c2, hcap, scap, l.(inbox := "", stream := t2));
    MovesOn(c, c1, c2);
    assert "" == "" + "";
    var c3 := LookSkipsTrailer(c2, hcap, scap, l.(inbox := "", stream := t2), "", "");
    MovesOn(c, c2, c3);
    d := Closes(c3);
    MovesOn(c, c3, d);
  }

  lemma Closes(c: C) returns (d: C)
    requires Valid(c.k) && c.k.phase.Close? && c.k.result == Ok
    ensures Moves(c, d) && d.k.phase.Finished? && d.k.result == Ok && d.w.body == c.w.body
  {
    hide Moves;
    MovesOne(c, Sock(SockOk));
    d := Next(c, Sock(SockOk));
  }

  /** With a stream buffer that is too small, a run ends with KHC_ERR_OK that has lost a chunk. */
  lemma ChunkLost(hcap: nat, scap: nat)
    requires 15 <= hcap < LONG_MAX && 4 <= scap && !RoomForRest(hcap, scap)
    ensures !NothingLost(hcap, scap)
  {
    hide Moves, Looks, Expect, Response;
    var c := Client(hcap, scap);
    var c1 := ReadsHeader(hcap, scap);
    var c2 := TakesWrongBytes(c1, hcap, scap);
    MovesOn(c, c1, c2);
    var c3 := ReadsZero(c2, hcap, scap);
    MovesOn(c, c2, c3);
    var d := EndsEarly(c3, hcap, scap);
    MovesOn(c, c3, d);
    ResponseExpected(hcap, scap);
    var e := Expect(Response(scap), hcap, scap).value;
    assert Takes(c, hcap, scap, e) by { FreshClient(hcap, scap); ZerosLength(hcap); ZerosLength(scap); }
    var rs := RunOf(c, d);
    assert EndsWell(c, rs);
  }

  /** Which sizes of the two buffers are good, exactly: a stream buffer that has room for all that
      the header buffer can hold behind the blank line of a header.  (A header buffer of fewer than 15
      bytes takes no status line, and a stream buffer of fewer than 4 no chunk.) */
  lemma RoomDecides(hcap: nat, scap: nat)
    requires 15 <= hcap < LONG_MAX && 4 <= scap
    ensures NothingLost(hcap, scap) <==> RoomForRest(hcap, scap)
  {
    hide Expect;
    if RoomForRest(hcap, scap) {
      forall c: C, rs: seq<Reply>, e: Expected | Takes(c, hcap, scap, e) && EndsWell(c, rs)
        ensures After(c, rs).w.body == e.body
      {
        ResponseDelivered(c, rs, e);
      }
    } else {
      ChunkLost(hcap, scap);
    }
  }
}
