/** When the search for the end of a chunk size line and `strtol` stay inside the stream buffer. */
module KhcSizeLine {
  import opened Text
  import opened KhcText
  import opened KhcMachine
  import opened KhcRun
  import opened KhcHeaders
  import opened KhcResponse
  import opened KhcLook

  // ---------------------------------------------------------------------------------------------
  // A size line that does not end

  predicate AllHex(s: string) { forall i :: 0 <= i < |s| ==> HexDigit(s[i]).Some? }

  predicate AllSpace(s: string) { forall i :: 0 <= i < |s| ==> IsSpace(s[i]) }

  /** A sign or none, `0x` or none. */
  predicate Opening(s: string) {
    var t := if s != "" && IsSign(s[0]) then s[1..] else s;
    t == "" || (|t| == 2 && IsPrefix16(t))
  }

  /** White space, then a sign and `0x` if they are there, then nothing but hexadecimal digits. */
  ghost predicate ReadsThrough(s: string) {
    exists w: nat, u: nat :: w <= u <= |s| && AllSpace(s[..w]) && Opening(s[w..u]) && AllHex(s[u..])
  }

  lemma {:induction false} HexStopsIff(s: string)
    ensures HexStops(s) <==> !AllHex(s)
  {
    if s != "" {
      HexStopsIff(s[1..]);
      assert AllHex(s) <==> HexDigit(s[0]).Some? && AllHex(s[1..]) by {
        assert forall i :: 0 < i < |s| ==> s[i] == s[1..][i - 1];
      }
    }
  }

  /** `strtol` stops inside the bytes it is given, exactly if they are not of that kind. */
  lemma {:induction false} StopsIff(s: string)
    ensures StrToLStops(s) <==> !ReadsThrough(s)
    decreases |s|
  {
    if s == "" {
      assert AllSpace(s[..0]) && Opening(s[0..0]) && AllHex(s[0..]);
    } else if IsSpace(s[0]) {
      StopsIff(s[1..]);
      SpaceInFront(s);
    } else {
      StopsBehindSpace(s);
    }
  }

  lemma AllSpaceAt(s: string, w: nat)
    requires w <= |s|
    ensures AllSpace(s[..w]) <==> forall i :: 0 <= i < w ==> IsSpace(s[i])
  {
    assert forall i :: 0 <= i < w ==> s[..w][i] == s[i];
  }

  lemma AllHexAt(s: string, u: nat)
    requires u <= |s|
    ensures AllHex(s[u..]) <==> forall i :: u <= i < |s| ==> HexDigit(s[i]).Some?
  {
    assert forall i :: u <= i < |s| ==> s[i] == s[u..][i - u];
  }

  lemma OpeningAt(s: string, u: nat)
    requires u <= |s|
    ensures var a := if u > 0 && IsSign(s[0]) then 1 else 0;
            Opening(s[..u]) <==> u == a || (u == a + 2 && s[a] == '0' && (s[a + 1] == 'x' || s[a + 1] == 'X'))
  {
    var a := if u > 0 && IsSign(s[0]) then 1 else 0;
    var t := s[..u][a..];
    assert a > 0 ==> s[..u][0] == s[0];
    assert u >= a + 2 ==> t[0] == s[a] && t[1] == s[a + 1];
    assert u > 0 ==> s[..u][0] == s[0];
  }

  lemma SpaceInFront(s: string)
    requires s != "" && IsSpace(s[0])
    ensures ReadsThrough(s) <==> ReadsThrough(s[1..])
  {
    hide AllSpace, AllHex, Opening;
    if ReadsThrough(s[1..]) {
      var w: nat, u: nat :| w <= u <= |s[1..]| && AllSpace(s[1..][..w]) && Opening(s[1..][w..u]) && AllHex(s[1..][u..]);
      SpaceAdded(s, w, u);
    }
    if ReadsThrough(s) {
      var w: nat, u: nat :| w <= u <= |s| && AllSpace(s[..w]) && Opening(s[w..u]) && AllHex(s[u..]);
      assert w > 0 by { NoSpaceInside(s, w, u); }
      SpaceRemoved(s, w, u);
    }
  }

  lemma BehindFirst(s: string, w: nat, u: nat)
    requires w <= u < |s|
    ensures s[1..][w..u] == s[w + 1..u + 1] && s[1..][u..] == s[u + 1..]
  {
  }

  lemma SpaceAdded(s: string, w: nat, u: nat)
    requires s != "" && IsSpace(s[0]) && w <= u < |s|
    requires AllSpace(s[1..][..w]) && Opening(s[1..][w..u]) && AllHex(s[1..][u..])
    ensures ReadsThrough(s)
  {
    hide Opening, AllHex;
    AllSpaceAt(s[1..], w);
    AllSpaceAt(s, w + 1);
    assert forall i :: 0 < i < w + 1 ==> s[i] == s[1..][i - 1];
    BehindFirst(s, w, u);
    assert AllSpace(s[..w + 1]) && Opening(s[w + 1..u + 1]) && AllHex(s[u + 1..]);
  }

  lemma SpaceRemoved(s: string, w: nat, u: nat)
    requires 0 < w <= u <= |s| && AllSpace(s[..w]) && Opening(s[w..u]) && AllHex(s[u..])
    ensures ReadsThrough(s[1..])
  {
    hide Opening, AllHex;
    AllSpaceAt(s[1..], w - 1);
    AllSpaceAt(s, w);
    assert forall i :: 0 < i < w ==> s[i] == s[1..][i - 1];
    BehindFirst(s, w - 1, u - 1);
    assert AllSpace(s[1..][..w - 1]) && Opening(s[1..][w - 1..u - 1]) && AllHex(s[1..][u - 1..]);
  }

  lemma NoSpaceInside(s: string, w: nat, u: nat)
    requires s != "" && w <= u <= |s| && Opening(s[w..u]) && AllHex(s[u..])
    ensures w == 0 ==> !IsSpace(s[0])
  {
    hide Opening, AllHex;
    if w == 0 {
      assert s[w..u] == s[..u];
      OpeningAt(s, u);
      AllHexAt(s, u);
    }
  }

  lemma StopsBehindSpace(s: string)
    requires s != "" && !IsSpace(s[0])
    ensures StrToLStops(s) <==> !ReadsThrough(s)
  {
    hide Opening, AllHex, AllSpace;
    var a := if IsSign(s[0]) then 1 else 0;
    var t := s[a..];
    var b := if IsPrefix16(t) then a + 2 else a;
    HexStopsIff(s[b..]);
    assert b > a ==> t[2..] == s[b..];
    if AllHex(s[b..]) {
      OpeningAt(s, b);
      AllSpaceAt(s, 0);
      assert s[0..b] == s[..b];
    }
    if ReadsThrough(s) {
      var w: nat, u: nat :| w <= u <= |s| && AllSpace(s[..w]) && Opening(s[w..u]) && AllHex(s[u..]);
      AllSpaceAt(s, w);
      assert s[w..u] == s[..u];
      OpeningEnds(s, u, a, b);
    }
  }

  /** There is one way only to read the opening. */
  lemma OpeningEnds(s: string, u: nat, a: nat, b: nat)
    requires s != "" && u <= |s| && Opening(s[..u]) && AllHex(s[u..])
    requires a == (if IsSign(s[0]) then 1 else 0) && b == if IsPrefix16(s[a..]) then a + 2 else a
    ensures AllHex(s[b..])
  {
    hide Opening, AllHex;
    OpeningAt(s, u);
    AllHexAt(s, u);
    AllHexAt(s, b);
    assert |s| >= a + 2 ==> s[a..][0] == s[a] && s[a..][1] == s[a + 1];
  }

  function Blanks(n: nat): string { if n == 0 then "" else " " + Blanks(n - 1) }

  lemma {:induction false} BlanksStopNot(n: nat)
    ensures |Blanks(n)| == n && !StrToLStops(Blanks(n))
  {
    if n > 0 { BlanksStopNot(n - 1); }
  }

  lemma EmptyLineStopsNot(n: nat)
    ensures !StrToLStops(CRLF + Blanks(n)) && HasCrlf(CRLF + Blanks(n)) && |CRLF + Blanks(n)| == n + 2
  {
    var s := CRLF + Blanks(n);
    BlanksStopNot(n);
    assert s[1..][1..] == Blanks(n) && s[0] == '\r' && s[1] == '\n';
    assert !StrToLStops(s[1..]);
  }

  /** Exactly when the handler of a size line stays inside the stream buffer: when no terminator comes
      before the line end, and `strtol` stops. */
  lemma SizeLineIff(b: Buffer)
    requires b.len <= |b.bytes| && HasCrlf(b.Contents())
    ensures SizeLineOk(b) <==> FindCrlf(b.Contents()).Some? && !ReadsThrough(b.bytes)
  {
    hide FindCrlf, HasCrlf, StrToLStops, ReadsThrough;
    StopsIff(b.bytes);
    CrlfInPrefix(b.Contents(), b.bytes[b.len..]);
    assert b.Contents() + b.bytes[b.len..] == b.bytes;
  }

  /** Whatever a server sends behind the header of a chunked response can stand in the stream buffer when a
      size line is looked for. */
  lemma SizeLineAhead(c: C, text: string) returns (d: C)
    requires Fresh(c) && SizeOfBuffer(c.k.head, HEADER_BUFF_SIZE) >= 15
    requires 0 < |text| <= SizeOfBuffer(c.k.stream, STREAM_BUFF_SIZE) && c.w.inbox == Headed(CRLF + text)
    ensures Moves(c, d) && d.k.phase.RespBodyParseChunkSize?
    ensures |d.k.stream.bytes| == SizeOfBuffer(c.k.stream, STREAM_BUFF_SIZE)
    ensures d.k.stream.len == |text| && d.k.stream.Contents() == text
  {
    hide Moves, Looks, FindCrlf, Headed, Fresh;
    var hcap, scap := SizeOfBuffer(c.k.head, HEADER_BUFF_SIZE), SizeOfBuffer(c.k.stream, STREAM_BUFF_SIZE);
    var c1, stream := ChunkedHeader(c, CRLF + text);
    var l := Look(RespHeaderRead, "", stream, CRLF + text, "", Incoming(200, true, 0, 0, false), c.w.retries);
    assert "" + CRLF == CRLF == CRLF + "";
    var c2 := LookReceives(c1, hcap, scap, l, CRLF, text);
    MovesOn(c, c1, c2);
    l := l.(phase := RespHeaderCallback, head := CRLF, inbox := text);
    var c3 := LookEndsHeader(c2, hcap, scap, l, "");
    MovesOn(c, c2, c3);
    d := FillsStream(c3, hcap, scap, l.(phase := RespBodyParseChunkSize, head := "", stream := ""));
    MovesOn(c, c3, d);
  }

  lemma FillsStream(c: C, hcap: nat, scap: nat, l: Look) returns (d: C)
    requires Looks(c, hcap, scap, l) && l.phase.RespBodyParseChunkSize? && l.head == "" && l.stream == ""
    requires 0 < |l.inbox| <= scap
    ensures Moves(c, d) && d.k.phase.RespBodyParseChunkSize? && |d.k.stream.bytes| == scap
    ensures d.k.stream.len == |l.inbox| && d.k.stream.Contents() == l.inbox
  {
    hide Moves, Looks;
    var text := l.inbox;
    var c1 := LookNoSize(c, hcap, scap, l);
    assert text == text + "" && "" + text == text;
    d := LookReadsMore(c1, hcap, scap, l.(phase := RespBodyReadChunkSize), text, "");
    MovesOn(c, c1, d);
    StreamIs(d, hcap, scap, l.(stream := text, inbox := ""));
  }

  lemma StreamIs(c: C, hcap: nat, scap: nat, l: Look)
    requires Looks(c, hcap, scap, l)
    ensures c.k.phase == l.phase && |c.k.stream.bytes| == scap && c.k.stream.len == |l.stream| <= scap
    ensures c.k.stream.Contents() == l.stream
  {
  }

  /** The second place: where the first size line should be, the response has a terminator and a line end. */
  lemma TerminatorHides(c: C)
    requires Fresh(c) && SizeOfBuffer(c.k.head, HEADER_BUFF_SIZE) >= 15
    requires SizeOfBuffer(c.k.stream, STREAM_BUFF_SIZE) >= 3 && c.w.inbox == Headed(CRLF + ([NUL] + CRLF))
    ensures exists d :: Moves(c, d) && d.k.phase.RespBodyParseChunkSize? && d.k.stream.len == 3 && !Defined(d.k)
  {
    hide Moves, FindCrlf, StrToLStops, Headed, Fresh, Valid;
    var text := [NUL] + CRLF;
    var d := SizeLineAhead(c, text);
    assert HasCrlf(text) && FindCrlf(text).None? by { NulFirst(text); }
    SizeLineIff(d.k.stream);
  }

  lemma NulFirst(text: string)
    requires text == [NUL] + CRLF
    ensures HasCrlf(text) && FindCrlf(text).None?
  {
    assert text[1] == '\r' && text[2] == '\n';
  }

  /** The third place: where the first size line should be, the response has an empty line and blanks
      that fill the stream buffer. */
  lemma StrToLRunsOn(c: C, scap: nat)
    requires Fresh(c) && SizeOfBuffer(c.k.head, HEADER_BUFF_SIZE) >= 15
    requires SizeOfBuffer(c.k.stream, STREAM_BUFF_SIZE) == scap >= 2
    requires c.w.inbox == Headed(CRLF + (CRLF + Blanks(scap - 2)))
    ensures exists d :: Moves(c, d) && d.k.phase.RespBodyParseChunkSize? && d.k.stream.len == scap && !Defined(d.k)
  {
    hide Moves, FindCrlf, StrToLStops, HasCrlf, Headed, Fresh, Valid, ReadsThrough;
    var text := CRLF + Blanks(scap - 2);
    EmptyLineStopsNot(scap - 2);
    var d := SizeLineAhead(c, text);
    assert d.k.stream.bytes == d.k.stream.Contents();
  }
}
