/** The body buffer of a kii client: it holds the request while that is being sent and the response
    afterwards (ebisu/kii/kii.c, ebisu/kii/kii_api_call.c). */
module KiiBuffer {
  import opened Text

  datatype KiiCode = KiiOk | KiiTooLarge | KiiAllocation

  function AppIdLine(appId: string): string { "X-Kii-Appid: " + appId }
  const APP_KEY_LINE := "X-Kii-Appkey: k"
  function ContentTypeLine(contentType: string): string { "Content-Type: " + contentType }
  function AuthLine(token: string): string { "Authorization: Bearer " + token }

  /** The header lines of a request, in the order in which they are set. */
  function StartLines(appId: string, contentType: string, token: string): seq<string> {
    [AppIdLine(appId), APP_KEY_LINE]
    + (if contentType != "" then [ContentTypeLine(contentType)] else [])
    + (if token != "" then [AuthLine(token)] else [])
  }

  /** What setting one line comes to. */
  function SetResult(line: string, memory: bool, size: nat): KiiCode {
    if |line| >= size then KiiTooLarge else if !memory then KiiAllocation else KiiOk
  }

  /** What setting these lines comes to: each has to fit the buffer that it is formatted in, with a
      terminator, and its list node has to be allocated. */
  function FirstFailure(lines: seq<string>, i: nat, memory: nat -> bool, size: nat): (r: KiiCode)
    ensures r == KiiOk <==> forall j :: i <= j < |lines| ==> |lines[j]| < size && memory(j)
    decreases |lines| - i
  {
    if i >= |lines| then KiiOk
    else
      var r := SetResult(lines[i], memory(i), size);
      if r == KiiOk then FirstFailure(lines, i + 1, memory, size) else r
  }

  lemma {:induction false} FailureAt(lines: seq<string>, i: nat, k: nat, memory: nat -> bool, size: nat)
    requires i <= k < |lines| && FirstFailure(lines[..k], i, memory, size) == KiiOk
    ensures FirstFailure(lines[..k + 1], i, memory, size) == SetResult(lines[k], memory(k), size)
    ensures FirstFailure(lines[..k + 1], i, memory, size) != KiiOk ==>
              FirstFailure(lines, i, memory, size) == FirstFailure(lines[..k + 1], i, memory, size)
    decreases k - i
  {
    hide SetResult;
    if i < k { FailureAt(lines, i + 1, k, memory, size); }
  }

  lemma LinesAre(appId: string, contentType: string, token: string)
    ensures var lines, n := StartLines(appId, contentType, token), if contentType != "" then 3 else 2;
            && |lines| == n + (if token != "" then 1 else 0)
            && lines[0] == AppIdLine(appId) && lines[1] == APP_KEY_LINE
            && (contentType != "" ==> lines[2] == ContentTypeLine(contentType))
            && (token != "" ==> lines[n] == AuthLine(token))
  {
    hide AppIdLine, ContentTypeLine, AuthLine;
  }

  /** One line more has been set, or the first one that cannot be has been met. */
  lemma LineSet(before: seq<string>, lines: seq<string>, k: nat, memory: nat -> bool, size: nat)
    requires k < |lines| && FirstFailure(lines[..k], 0, memory, size) == KiiOk
    ensures before + lines[..k] + [lines[k]] == before + lines[..k + 1]
    ensures var r := SetResult(lines[k], memory(k), size);
            if r == KiiOk then FirstFailure(lines[..k + 1], 0, memory, size) == KiiOk
            else FirstFailure(lines, 0, memory, size) == r
  {
    FailureAt(lines, 0, k, memory, size);
  }

  lemma NoLines(before: seq<string>, lines: seq<string>, memory: nat -> bool, size: nat)
    ensures before + lines[..0] == before && FirstFailure(lines[..0], 0, memory, size) == KiiOk
  {
  }

  class Kii {
    var rwBuff: array<char>
    var reqSize: nat
    var read: nat
    var written: nat
    var reqHeaders: seq<string>

    ghost predicate Valid()
      reads this, rwBuff
    {
      read <= reqSize <= rwBuff.Length && written <= rwBuff.Length
    }

    /** Behind the response there is nothing but terminators. */
    ghost predicate Cleared()
      reads this, rwBuff
    {
      forall i :: written <= i < rwBuff.Length ==> rwBuff[i] == NUL
    }

    /** The request body. */
    ghost function Body(): string
      requires Valid()
      reads this, rwBuff
    {
      rwBuff[..reqSize]
    }

    /** The response body so far. */
    ghost function Response(): string
      requires Valid()
      reads this, rwBuff
    {
      rwBuff[..written]
    }

    constructor (buff: array<char>)
      ensures Valid() && rwBuff == buff && reqHeaders == [] && Body() == "" && read == 0 && written == 0
    {
      rwBuff, reqSize, read, written, reqHeaders := buff, 0, 0, 0, [];
    }

    /** `_reset_buff` */
    method ResetBuff()
      modifies this`reqSize, this`read, this`written
      ensures Valid() && Body() == "" && read == 0 && written == 0
    {
      read := 0;
      written := 0;
      reqSize := 0;
    }

    /** `snprintf` into the buffer: what does not fit is cut off. */
    method Format(text: string) returns (len: nat)
      modifies rwBuff
      ensures len == |text|
      ensures len < rwBuff.Length ==> rwBuff[..len] == text && rwBuff[len] == NUL
    {
      len := |text|;
      if rwBuff.Length == 0 { return; }
      var n := if len < rwBuff.Length then len else rwBuff.Length - 1;
      forall i | 0 <= i < n { rwBuff[i] := text[i]; }
      rwBuff[n] := NUL;
    }

    /** `_set_content_type` and the like: the line is formatted in the body buffer and copied to a new
        node of the header list. */
    method SetHeader(line: string, memory: bool) returns (code: KiiCode)
      requires Valid()
      modifies this`reqHeaders, rwBuff
      ensures Valid()
      ensures code == SetResult(line, memory, rwBuff.Length)
      ensures reqHeaders == if code == KiiOk then old(reqHeaders) + [line] else old(reqHeaders)
    {
      var len := Format(line);
      if len >= rwBuff.Length { return KiiTooLarge; }
      if !memory { return KiiAllocation; }
      reqHeaders := reqHeaders + [rwBuff[..len]];
      code := KiiOk;
    }

    /** `_req_headers_free_all` */
    method FreeHeaders()
      modifies this`reqHeaders
      ensures reqHeaders == []
    {
      reqHeaders := [];
    }

    /** `kii_api_call_start`; `memory` answers for the list nodes. */
    method ApiCallStart(appId: string, contentType: string, token: string, memory: nat -> bool) returns (code: KiiCode)
      modifies this, rwBuff
      ensures rwBuff == old(rwBuff) && Valid() && Body() == "" && read == 0 && written == 0
      ensures code == FirstFailure(StartLines(appId, contentType, token), 0, memory, rwBuff.Length)
      ensures reqHeaders == if code == KiiOk then old(reqHeaders) + StartLines(appId, contentType, token) else []
    {
      hide AppIdLine, ContentTypeLine, AuthLine, SetResult, StartLines, FirstFailure;
      ResetBuff();
      ghost var lines, size, before := StartLines(appId, contentType, token), rwBuff.Length, reqHeaders;
      LinesAre(appId, contentType, token);
      NoLines(before, lines, memory, size);
      code := SetHeader(AppIdLine(appId), memory(0));
      LineSet(before, lines, 0, memory, size);
      if code != KiiOk { FreeHeaders(); return; }
      code := SetHeader(APP_KEY_LINE, memory(1));
      LineSet(before, lines, 1, memory, size);
      if code != KiiOk { FreeHeaders(); return; }
      var n := 2;
      if contentType != "" {
        code := SetHeader(ContentTypeLine(contentType), memory(2));
        LineSet(before, lines, 2, memory, size);
        if code != KiiOk { FreeHeaders(); return; }
        n := 3;
      }
      if token != "" {
        code := SetHeader(AuthLine(token), memory(n));
        LineSet(before, lines, n, memory, size);
        if code != KiiOk { FreeHeaders(); return; }
      }
      assert lines[..|lines|] == lines;
    }

    /** `kii_api_call_append_body`: the chunk and a terminator have to fit behind the body. */
    method AppendBody(chunk: string) returns (code: KiiCode)
      requires Valid()
      modifies this`reqSize, this`reqHeaders, rwBuff
      ensures Valid()
      ensures code == if old(|Body()|) + |chunk| + 1 > rwBuff.Length then KiiTooLarge else KiiOk
      ensures code == KiiOk ==> Body() == old(Body()) + chunk && rwBuff[reqSize] == NUL && reqHeaders == old(reqHeaders)
      ensures code != KiiOk ==> Body() == old(Body()) && reqHeaders == []
    {
      var total := reqSize + |chunk|;
      if total + 1 > rwBuff.Length {
        FreeHeaders();
        return KiiTooLarge;
      }
      Copy(rwBuff, reqSize, chunk);
      reqSize := total;
      rwBuff[total] := NUL;
      code := KiiOk;
    }

    /** `_cb_read_buff`: the next bytes of the body, as many as fit; none when it is over. */
    method CbReadBuff(buffer: array<char>, size: nat) returns (n: nat)
      requires Valid() && buffer != rwBuff && size <= buffer.Length
      modifies this`read, buffer
      ensures Valid() && Body() == old(Body()) && read == old(read) + n
      ensures n <= size && buffer[..n] == NextPart(Body(), old(read), size)
      ensures buffer[n..] == old(buffer[n..])
    {
      var remain := reqSize - read;
      if remain <= 0 { return 0; }
      n := if size > remain then remain else size;
      Copy(buffer, 0, rwBuff[read..read + n]);
      read := read + n;
    }

    /** `_cb_write_buff`: the response is put behind what has come of it; the first piece clears the
        buffer of the request. */
    method CbWriteBuff(data: string) returns (n: nat)
      requires Valid()
      modifies this`written, rwBuff
      ensures Valid()
      ensures n == if old(written) + |data| <= rwBuff.Length then |data| else 0
      ensures Response() == old(Response()) + data[..n]
      ensures old(written) == 0 || old(Cleared()) ==> Cleared()
      ensures old(written) > 0 && n == 0 ==> rwBuff[..] == old(rwBuff[..])
    {
      if written == 0 {
        forall i | 0 <= i < rwBuff.Length { rwBuff[i] := NUL; }
      }
      var remain := rwBuff.Length - written;
      if remain < |data| { return 0; }
      Copy(rwBuff, written, data);
      written := written + |data|;
      n := |data|;
      assert data[..n] == data;
    }
  }

  /** `memcpy` */
  method Copy(a: array<char>, at: nat, data: string)
    requires at + |data| <= a.Length
    modifies a
    ensures a[..at + |data|] == old(a[..at]) + data
    ensures forall i :: at + |data| <= i < a.Length ==> a[i] == old(a[i])
  {
    forall i | 0 <= i < |data| { a[at + i] := data[i]; }
    assert a[..at + |data|] == a[..at] + a[at..at + |data|];
  }

  /** What the read callback gives next. */
  function NextPart(body: string, pos: nat, max: nat): string
    requires pos <= |body|
  {
    if pos + max < |body| then body[pos..pos + max] else body[pos..]
  }

  /** The Content-Type line needs a larger buffer than the opening of an action result does, so that
      appending it to the empty body cannot fail. */
  lemma OpeningFits(appId: string, token: string, memory: nat -> bool, size: nat, opening: string)
    requires FirstFailure(StartLines(appId, "application/json", token), 0, memory, size) == KiiOk
    requires |opening| <= 29
    ensures |opening| + 1 <= size
  {
    var lines := StartLines(appId, "application/json", token);
    assert lines[2] == ContentTypeLine("application/json");
    assert |lines[2]| < size;
  }
}
