/** Whole responses as texts, and what a successful run has made of them. */
module KhcReceive {
  import opened Text
  import opened KhcText
  import opened KhcMachine
  import opened KhcRun
  import opened KhcBlame
  import opened KhcHeaders
  import opened KhcChunk
  import opened KhcResponse
  import opened KhcDelivery
  import opened KhcNumeral
  import opened KhcAnnounce

  // ---------------------------------------------------------------------------------------------
  // The text of a header

  predicate Clean(line: string) { forall i :: 0 <= i < |line| ==> line[i] != '\r' && line[i] != NUL }

  /** A response header: its lines, and a blank one. */
  function HeaderText(lines: seq<string>): string {
    if lines == [] then CRLF else lines[0] + (CRLF + HeaderText(lines[1..]))
  }

  /** The first line is `HTTP/d.d` and a status code (section 3.1.2 of RFC 7230), and it fits the header
      buffer; no other line is blank. */
  predicate Header(lines: seq<string>, cap: nat) {
    && lines != [] && (forall i :: 0 <= i < |lines| ==> lines[i] != "" && Clean(lines[i]))
    && 12 <= |lines[0]| <= cap - 3 && forall j :: 9 <= j < 12 ==> '0' <= lines[0][j] <= '9'
  }

  /** Its status code begins with a 1. */
  predicate Informational(lines: seq<string>)
    requires lines != [] && |lines[0]| >= 12
  {
    lines[0][9] == '1'
  }

  /** Any number of informational headers, and one that is not. */
  predicate Headers(heads: seq<seq<string>>, cap: nat) {
    && heads != [] && (forall i :: 0 <= i < |heads| ==> Header(heads[i], cap))
    && forall i :: 0 <= i < |heads| ==> (Informational(heads[i]) <==> i < |heads| - 1)
  }

  function HeadsText(heads: seq<seq<string>>): string {
    if heads == [] then "" else HeaderText(heads[0]) + HeadsText(heads[1..])
  }

  /** The lines that the header buffer can hold. */
  function Fitting(lines: seq<string>, cap: nat): seq<string> {
    if lines == [] then [] else (if |lines[0]| + 3 <= cap then [lines[0]] else []) + Fitting(lines[1..], cap)
  }

  function AllFitting(heads: seq<seq<string>>, cap: nat): seq<string> {
    if heads == [] then [] else Fitting(heads[0], cap) + AllFitting(heads[1..], cap)
  }

  lemma FirstOfText(line: string, x: string, rest: string)
    requires Clean(line)
    ensures var s := (line + (CRLF + x)) + rest;
            FindCrlf(s) == Some(|line|) && s[..|line|] == line && s[|line| + 2..] == x + rest
  {
    hide FindCrlf;
    CrlfAfter(line, x + rest);
    assert (line + (CRLF + x)) + rest == line + (CRLF + (x + rest));
  }

  lemma {:induction false} BlockOfText(lines: seq<string>, rest: string, cap: nat)
    requires forall i :: 0 <= i < |lines| ==> lines[i] != "" && Clean(lines[i])
    ensures Block(HeaderText(lines) + rest, cap) == Some(Heads(Fitting(lines, cap), rest))
    decreases |lines|
  {
    hide FindCrlf, Clean;
    if lines == [] {
      assert "" + (CRLF + "") == CRLF;
      assert Clean("") by { EmptyClean(); }
      FirstOfText("", "", rest);
      assert ("" + (CRLF + "")) + rest == CRLF + rest;
      assert "" + rest == rest;
    } else {
      var x := HeaderText(lines[1..]);
      FirstOfText(lines[0], x, rest);
      BlockOfText(lines[1..], rest, cap);
      assert [] + Fitting(lines[1..], cap) == Fitting(lines[1..], cap);
      assert HeaderText(lines) + rest == (lines[0] + (CRLF + x)) + rest;
    }
  }

  lemma EmptyClean()
    ensures Clean("")
  {
  }

  lemma StatusOf(line: string)
    requires |line| >= 12 && forall j :: 9 <= j < 12 ==> '0' <= line[j] <= '9'
    ensures StatusDigits(line).Some? && (100 <= StatusDigits(line).value < 200 <==> line[9] == '1')
  {
  }

  lemma {:induction false} AnswerOfText(heads: seq<seq<string>>, rest: string, cap: nat)
    requires Headers(heads, cap)
    ensures Answer(HeadsText(heads) + rest, cap) == Some(Heads(AllFitting(heads, cap), rest))
    decreases |heads|
  {
    hide FindCrlf, Block, StatusDigits, Clean, Fitting;
    var lines, more := heads[0], HeadsText(heads[1..]) + rest;
    var s := HeadsText(heads) + rest;
    assert s == HeaderText(lines) + more;
    FirstOfText(lines[0], HeaderText(lines[1..]), more);
    BlockOfText(lines, more, cap);
    StatusOf(lines[0]);
    if |heads| > 1 {
      assert Headers(heads[1..], cap);
      AnswerOfText(heads[1..], rest, cap);
    } else {
      assert more == rest && AllFitting(heads[1..], cap) == [];
      assert Fitting(lines, cap) + [] == Fitting(lines, cap);
    }
  }

  // ---------------------------------------------------------------------------------------------
  // The text of a chunked body (section 4.1 of RFC 7230)

  datatype Chunk = Chunk(line: string, data: string)

  /** A line that begins with `n` in hexadecimal and fits the stream buffer with a line feed in front of it. */
  ghost predicate SizeLineOf(line: string, n: nat, cap: nat) {
    && Clean(line) && |line| + 3 <= cap && n <= LONG_MAX
    && exists k: nat :: k <= |line| && Writes(line[..k], n) && Extension(line[k..])
  }

  ghost predicate GoodChunks(chunks: seq<Chunk>, cap: nat) {
    forall i :: 0 <= i < |chunks| ==> chunks[i].data != "" && SizeLineOf(chunks[i].line, |chunks[i].data|, cap)
  }

  /** The chunks, and a line of size 0 with anything behind it. */
  function BodyText(chunks: seq<Chunk>, last: string, trailer: string): string {
    if chunks == [] then last + (CRLF + trailer)
    else chunks[0].line + (CRLF + (chunks[0].data + (CRLF + BodyText(chunks[1..], last, trailer))))
  }

  function Data(chunks: seq<Chunk>): string { if chunks == [] then "" else chunks[0].data + Data(chunks[1..]) }

  lemma SizeIs(line: string, n: nat, cap: nat)
    requires SizeLineOf(line, n, cap)
    ensures SizeOf(line) == Some(n)
  {
    hide SizeOf, Writes;
    var k: nat :| k <= |line| && Writes(line[..k], n) && Extension(line[k..]);
    WrittenSize(line[..k], line[k..], n);
    assert line[..k] + line[k..] == line;
  }

  lemma {:induction false} BodyDecodes(chunks: seq<Chunk>, last: string, trailer: string, cap: nat)
    requires GoodChunks(chunks, cap) && SizeLineOf(last, 0, cap)
    ensures Decode(BodyText(chunks, last, trailer), cap) == Some(Data(chunks))
    decreases |chunks|
  {
    hide Decode, SizeOf, Writes, Extension;
    if chunks == [] {
      SizeIs(last, 0, cap);
      DecodeLast(last, trailer, cap);
    } else {
      SizeIs(chunks[0].line, |chunks[0].data|, cap);
      BodyDecodes(chunks[1..], last, trailer, cap);
      DecodeOne(chunks[0].line, chunks[0].data, BodyText(chunks[1..], last, trailer), cap);
    }
  }

  // ---------------------------------------------------------------------------------------------
  // What has been received

  ghost predicate SaysChunked(lines: seq<string>) { exists i :: 0 <= i < |lines| && Announces(lines[i]) }

  lemma {:induction false} FittingClean(lines: seq<string>, cap: nat)
    requires forall i :: 0 <= i < |lines| ==> Clean(lines[i])
    ensures forall i :: 0 <= i < |Fitting(lines, cap)| ==> Clean(Fitting(lines, cap)[i])
    decreases |lines|
  {
    hide Clean;
    if lines != [] { FittingClean(lines[1..], cap); }
  }

  lemma {:induction false} AllClean(heads: seq<seq<string>>, cap: nat)
    requires forall i :: 0 <= i < |heads| ==> Header(heads[i], cap)
    ensures forall i :: 0 <= i < |AllFitting(heads, cap)| ==> Clean(AllFitting(heads, cap)[i])
    decreases |heads|
  {
    hide Clean, Fitting;
    if heads != [] {
      FittingClean(heads[0], cap);
      AllClean(heads[1..], cap);
    }
  }

  lemma ChunkedIff(lines: seq<string>)
    requires forall i :: 0 <= i < |lines| ==> Clean(lines[i])
    ensures AnyChunked(lines) <==> SaysChunked(lines)
  {
    hide IsChunkedEncoding, Announces;
    forall i | 0 <= i < |lines| ensures IsChunkedEncoding(lines[i]) <==> Announces(lines[i]) {
      assert NUL !in lines[i];
      AnnouncesIff(lines[i]);
    }
  }

  /** A client with buffers of these sizes that is to get this response. */
  predicate Gets(c: C, hcap: nat, scap: nat, response: string) {
    && Fresh(c) && SizeOfBuffer(c.k.head, HEADER_BUFF_SIZE) == hcap && SizeOfBuffer(c.k.stream, STREAM_BUFF_SIZE) == scap
    && scap > 0 && c.w.inbox == response
  }

  /** If a line of the header announces it, whatever the letters' cases, the body is taken for chunked: every
      run that ends well has told the lines that fit and written the data of the chunks. */
  lemma ChunkedReceived(c: C, rs: seq<Reply>, hcap: nat, scap: nat, heads: seq<seq<string>>, chunks: seq<Chunk>,
                        last: string, trailer: string)
    requires Gets(c, hcap, scap, HeadsText(heads) + BodyText(chunks, last, trailer)) && hcap <= scap + 3
    requires Headers(heads, hcap) && SaysChunked(AllFitting(heads, hcap))
    requires GoodChunks(chunks, scap) && SizeLineOf(last, 0, scap)
    requires Runs(c, rs) && After(c, rs).k.phase.Finished? && After(c, rs).k.result == Ok
    ensures After(c, rs).w.headers == AllFitting(heads, hcap) && After(c, rs).w.body == Data(chunks)
  {
    hide Runs, After, Fresh, Headers, HeadsText, BodyText, AllFitting, Answer, Decode, AnyChunked, SaysChunked, GoodChunks,
         SizeLineOf;
    var lines, text := AllFitting(heads, hcap), BodyText(chunks, last, trailer);
    AnswerOfText(heads, text, hcap);
    BodyDecodes(chunks, last, trailer, scap);
    HeadersClean(heads, hcap);
    ChunkedIff(lines);
    Received(c, rs, hcap, scap, Expected(lines, text, Data(chunks)));
  }

  /** If none does, it is written as it is. */
  lemma PlainReceived(c: C, rs: seq<Reply>, hcap: nat, scap: nat, heads: seq<seq<string>>, body: string)
    requires Gets(c, hcap, scap, HeadsText(heads) + body)
    requires Headers(heads, hcap) && !SaysChunked(AllFitting(heads, hcap))
    requires Runs(c, rs) && After(c, rs).k.phase.Finished? && After(c, rs).k.result == Ok
    ensures After(c, rs).w.headers == AllFitting(heads, hcap) && After(c, rs).w.body == body
  {
    hide Runs, After, Fresh, Headers, HeadsText, AllFitting, Answer, Decode, AnyChunked, SaysChunked;
    var lines := AllFitting(heads, hcap);
    AnswerOfText(heads, body, hcap);
    HeadersClean(heads, hcap);
    ChunkedIff(lines);
    Received(c, rs, hcap, scap, Expected(lines, body, body));
  }

  lemma HeadersClean(heads: seq<seq<string>>, cap: nat)
    requires Headers(heads, cap)
    ensures forall i :: 0 <= i < |AllFitting(heads, cap)| ==> Clean(AllFitting(heads, cap)[i])
  {
    hide Clean, Header, AllFitting;
    AllClean(heads, cap);
  }

  lemma Received(c: C, rs: seq<Reply>, hcap: nat, scap: nat, e: Expected)
    requires Gets(c, hcap, scap, c.w.inbox) && Expect(c.w.inbox, hcap, scap) == Some(e)
    requires AnyChunked(e.lines) ==> hcap <= scap + 3
    requires Runs(c, rs) && After(c, rs).k.phase.Finished? && After(c, rs).k.result == Ok
    ensures After(c, rs).w.headers == e.lines && After(c, rs).w.body == e.body
  {
    hide Runs, After, Fresh, Expect, AnyChunked, Blames, CausesRemaining;
    ResponseDelivered(c, rs, e);
  }

  // ---------------------------------------------------------------------------------------------
  // A response

  const OK_LINE := "HTTP/1.1 200 OK"
  const ENCODING_LINE := "Transfer-Encoding: chunked"
  const HELLO := OK_LINE + "\r\n" + ENCODING_LINE + "\r\n\r\n" + "5\r\nhello\r\n0\r\n\r\n"

  lemma FoldParts(a: string, b: string)
    ensures Fold(a + b) == Fold(a) + Fold(b)
  {
  }

  /** A text without capital letters. */
  lemma FoldSmall(s: string)
    requires forall i :: 0 <= i < |s| ==> !('A' <= s[i] <= 'Z')
    ensures Fold(s) == s
  {
  }

  lemma KeyFolded()
    ensures Fold("Transfer-Encoding") == "transfer-encoding"
  {
    hide Fold;
    KeyParts();
    FoldParts("T", "ransfer-" + ("E" + "ncoding"));
    FoldParts("ransfer-", "E" + "ncoding");
    FoldParts("E", "ncoding");
    FoldSmall("ransfer-");
    FoldSmall("ncoding");
    CapitalsFolded();
  }

  lemma KeyParts()
    ensures "Transfer-Encoding" == "T" + ("ransfer-" + ("E" + "ncoding"))
    ensures "transfer-encoding" == "t" + ("ransfer-" + ("e" + "ncoding"))
  {
  }

  lemma CapitalsFolded()
    ensures Fold("T") == "t" && Fold("E") == "e"
  {
  }

  lemma EncodingParts()
    ensures var s := ENCODING_LINE;
            && |s| == 26 && s[17] == ':' && s[..17] == "Transfer-Encoding" && s[18..] == " chunked"
            && " chunked"[1..8] == "chunked"
            && forall j :: 0 <= j < 17 ==> s[j] != ':'
    ensures Clean(ENCODING_LINE)
  {
  }

  lemma EncodingAnnounced()
    ensures Announces(ENCODING_LINE)
  {
    hide Fold;
    EncodingParts();
    KeyFolded();
    FoldSmall("chunked");
    assert Stands(" chunked", "chunked", 1);
  }

  lemma OkRead()
    ensures Header([OK_LINE, ENCODING_LINE], 29) && !Informational([OK_LINE, ENCODING_LINE]) && |OK_LINE| == 15
  {
    EncodingParts();
    var lines := [OK_LINE, ENCODING_LINE];
    assert lines[0] == OK_LINE && lines[1] == ENCODING_LINE;
    assert Clean(OK_LINE);
  }

  lemma SizesRead()
    ensures SizeLineOf("5", 5, 4) && SizeLineOf("0", 0, 4)
  {
    FoldSmall("5");
    FoldSmall("0");
    assert "5"[0..] == "5" && "0"[0..] == "0";
    assert Writes("5", 5) && Writes("0", 0);
    assert "5"[..1] == "5" && "5"[1..] == "" && "0"[..1] == "0" && "0"[1..] == "";
  }

  lemma HelloParts()
    ensures var chunks := [Chunk("5", "hello")];
            HELLO == HeadsText([[OK_LINE, ENCODING_LINE]]) + BodyText(chunks, "0", CRLF) && Data(chunks) == "hello"
  {
    var lines, chunks := [OK_LINE, ENCODING_LINE], [Chunk("5", "hello")];
    var no: seq<string> := [];
    assert lines[1..] == [ENCODING_LINE] && [ENCODING_LINE][1..] == no;
    assert HeaderText([ENCODING_LINE]) == ENCODING_LINE + (CRLF + HeaderText(no));
    assert HeaderText(lines) == OK_LINE + (CRLF + HeaderText([ENCODING_LINE]));
    var more: seq<seq<string>> := [];
    assert [lines][1..] == more;
    assert HeadsText([lines]) == HeaderText(lines) + "";
    var none: seq<Chunk> := [];
    assert chunks[1..] == none;
    assert BodyText(chunks, "0", CRLF) == "5" + (CRLF + ("hello" + (CRLF + BodyText(none, "0", CRLF))));
    assert Data(chunks) == "hello" + "";
    HelloText(OK_LINE, ENCODING_LINE);
  }

  lemma HelloText(a: string, b: string)
    ensures a + "\r\n" + b + "\r\n\r\n" + "5\r\nhello\r\n0\r\n\r\n"
         == ((a + (CRLF + (b + (CRLF + CRLF)))) + "") + ("5" + (CRLF + ("hello" + (CRLF + ("0" + (CRLF + CRLF))))))
  {
    assert "5\r\nhello\r\n0\r\n\r\n" == "5" + (CRLF + ("hello" + (CRLF + ("0" + (CRLF + CRLF)))));
    assert "\r\n\r\n" == CRLF + CRLF;
  }

  lemma HelloFits(hcap: nat)
    requires hcap >= 29
    ensures var heads := [[OK_LINE, ENCODING_LINE]];
            Headers(heads, hcap) && AllFitting(heads, hcap) == [OK_LINE, ENCODING_LINE]
  {
    OkRead();
    EncodingParts();
    var lines := [OK_LINE, ENCODING_LINE];
    var more: seq<seq<string>> := [];
    var no: seq<string> := [];
    assert [lines][1..] == more && lines[1..] == [ENCODING_LINE] && [ENCODING_LINE][1..] == no;
    assert Fitting([ENCODING_LINE], hcap) == [ENCODING_LINE] + Fitting(no, hcap);
    assert Fitting(lines, hcap) == [OK_LINE] + ([ENCODING_LINE] + []);
    assert AllFitting([lines], hcap) == Fitting(lines, hcap) + [];
  }

  /** Every run that ends well on it has written `hello`. */
  lemma HelloReceived(c: C, rs: seq<Reply>, hcap: nat, scap: nat)
    requires Gets(c, hcap, scap, HELLO) && 29 <= hcap <= scap + 3
    requires Runs(c, rs) && After(c, rs).k.phase.Finished? && After(c, rs).k.result == Ok
    ensures After(c, rs).w.headers == [OK_LINE, ENCODING_LINE] && After(c, rs).w.body == "hello"
  {
    hide Runs, After, Fresh, Headers, HeadsText, BodyText, AllFitting, SizeLineOf, Announces;
    var heads, chunks := [[OK_LINE, ENCODING_LINE]], [Chunk("5", "hello")];
    HelloParts();
    HelloFits(hcap);
    EncodingAnnounced();
    assert AllFitting(heads, hcap)[1] == ENCODING_LINE;
    SizesRead();
    SizeStillFits("5", 5, scap);
    SizeStillFits("0", 0, scap);
    assert |"hello"| == 5;
    ChunkedReceived(c, rs, hcap, scap, heads, chunks, "0", CRLF);
  }

  lemma SizeStillFits(line: string, n: nat, cap: nat)
    requires SizeLineOf(line, n, 4) && cap >= 4
    ensures SizeLineOf(line, n, cap)
  {
    hide Writes, Extension;
  }
}
