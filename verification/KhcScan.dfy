/** The scanning loops of ebisu/khc/src/khc_impl.c, proved against the functions of KhcText.dfy. */
module KhcScan {
  import opened Text
  import opened KhcText

  /** `_contains_chunked` */
  method FindChunked(str: string) returns (found: bool)
    ensures found == ContainsChunked(str)
  {
    var i := 0;
    while i < |str|
      invariant 0 <= i <= |str|
      invariant forall k :: 0 <= k < i ==> !ChunkedAt(str, k)
    {
      var j := 0;
      while j < 7
        invariant 0 <= j < 7
        invariant forall k :: 0 <= k < j ==> CharAt(str, i + k) == "CHUNKED"[k] || CharAt(str, i + k) == "chunked"[k]
      {
        if CharAt(str, i + j) == "CHUNKED"[j] || CharAt(str, i + j) == "chunked"[j] {
          if j == 6 {
            assert ChunkedAt(str, i);
            return true;
          }
          j := j + 1;
        } else {
          break;
        }
      }
      i := i + 1;
    }
    found := false;
  }

  datatype ParserStatus = ParseKey | SkipSeparator | ExtractValue

  /** `_is_chunked_encoding` */
  method ScanEncoding(header: string) returns (chunked: bool)
    ensures chunked == IsChunkedEncoding(header)
  {
    hide ContainsChunked;
    var upper, lower := "TRANSFER-ENCODING", "transfer-encoding";
    var sts, i := ParseKey, 0;
    while i < |header|
      invariant 0 <= i <= |header|
      invariant match sts
        case ParseKey => KeyColon(header, upper, lower, i) == KeyColon(header, upper, lower, 0)
        case SkipSeparator =>
          var c := KeyColon(header, upper, lower, 0);
          c.Some? && SkipBlanks(header, c.value + 1) == SkipBlanks(header, i)
        case ExtractValue =>
          var c := KeyColon(header, upper, lower, 0);
          c.Some? && i > 0 && SkipBlanks(header, c.value + 1) == i - 1
    {
      match sts {
        case ParseKey =>
          if header[i] == ':' {
            sts := SkipSeparator;
          } else if header[i] != CharAt(upper, i) && header[i] != CharAt(lower, i) {
            return false;
          }
        case SkipSeparator =>
          if header[i] != ' ' && header[i] != '\t' {
            sts := ExtractValue;
          }
        case ExtractValue =>
          chunked := FindChunked(header[i - 1..]);
          return;
      }
      i := i + 1;
    }
    chunked := false;
  }

  /** `_is_header_present` */
  method ScanKey(key: string, buff: string) returns (present: bool)
    requires forall j :: 0 <= j < |key| ==> key[j] != ':'
    ensures present == IsHeaderPresent(key, buff)
  {
    var i := 0;
    while i < |buff|
      invariant 0 <= i <= |buff| && i <= |key|
      invariant forall j :: 0 <= j < i ==> buff[j] != ':' && (buff[j] == Lower(key[j]) || buff[j] == Upper(key[j]))
    {
      if buff[i] == ':' { return i == |key|; }
      if i >= |key| || (buff[i] != Lower(key[i]) && buff[i] != Upper(key[i])) { return false; }
      i := i + 1;
    }
    present := false;
  }

  /** `strtol(buff, NULL, 16)`, byte by byte: no byte outside the buffer is looked at. */
  method StrToL(buff: array<char>) returns (r: int)
    requires StrToLStops(buff[..])
    ensures r == StrToL16(buff[..])
  {
    hide HexRun;
    var i := 0;
    while IsSpace(buff[i])
      invariant 0 <= i < buff.Length && StrToLStops(buff[i..]) && StrToL16(buff[i..]) == StrToL16(buff[..])
      decreases buff.Length - i
    {
      assert buff[i..][1..] == buff[i + 1..];
      i := i + 1;
    }
    var negative := buff[i] == '-';
    ghost var s := buff[i..];
    assert s[1..] == buff[i + 1..];
    if IsSign(buff[i]) { i := i + 1; }
    ghost var t := buff[i..];
    assert t == if IsSign(s[0]) then s[1..] else s;
    StopsMeans(t);
    assert |t| >= 2 ==> t[2..] == buff[i + 2..];
    if buff[i] == '0' && (buff[i + 1] == 'x' || buff[i + 1] == 'X') && HexDigit(buff[i + 2]).Some? {
      i := i + 2;
    }
    ghost var u := buff[i..];
    var n: nat := 0;
    assert HexRun(u, 0) == HexRun(buff[i..], n);
    while HexDigit(buff[i]).Some?
      invariant 0 <= i < buff.Length && HexStops(buff[i..]) && HexRun(buff[i..], n) == HexRun(u, 0)
      decreases buff.Length - i
    {
      HexNext(buff[i..], n);
      assert buff[i..][1..] == buff[i + 1..];
      n := 16 * n + HexDigit(buff[i]).value;
      i := i + 1;
    }
    HexNext(buff[i..], n);
    var value: int := n;
    r := if negative then if n > LONG_MAX + 1 then -LONG_MAX - 1 else -value else if n > LONG_MAX then LONG_MAX else n;
  }

  lemma HexNext(s: string, n: nat)
    requires s != ""
    ensures HexRun(s, n) == if HexDigit(s[0]).None? then n else HexRun(s[1..], 16 * n + HexDigit(s[0]).value)
  {
  }

  /** Behind the sign, with or without a prefix: each byte that is looked at is there. */
  lemma StopsMeans(t: string)
    requires HexStops(if IsPrefix16(t) then t[2..] else t)
    ensures t != "" && HexStops(t) && (t[0] == '0' ==> |t| >= 2) && (IsPrefix16(t) ==> |t| >= 3 && HexStops(t[2..]))
  {
    if IsPrefix16(t) { assert HexDigit(t[1..][0]).None?; }
  }

  /** `_read_chunk_size`: the test sees `size` bytes of the buffer, `strtol` as many as it likes. */
  method ReadChunkSize(buff: array<char>, size: nat) returns (r: Option<int>)
    requires size <= buff.Length && (HasCrlf(buff[..size]) ==> StrToLStops(buff[..]))
    ensures r == if HasCrlf(buff[..size]) then Some(StrToL16(buff[..])) else None
  {
    hide StrToL16, StrToLStops;
    var i, cr := 0, false;
    while i < size
      invariant 0 <= i <= size
      invariant !HasCrlf(buff[..i]) && (cr <==> i > 0 && buff[i - 1] == '\r')
    {
      var found := buff[i] == '\n' && cr;
      CrlfGrows(buff[..i], buff[i]);
      assert buff[..i + 1] == buff[..i] + [buff[i]];
      if found {
        CrlfKept(buff[..i + 1], buff[i + 1..size]);
        assert buff[..size] == buff[..i + 1] + buff[i + 1..size];
        var value := StrToL(buff);
        return Some(value);
      }
      cr := buff[i] == '\r';
      i := i + 1;
    }
    r := None;
  }

  lemma CrlfGrows(s: string, c: char)
    ensures HasCrlf(s + [c]) <==> HasCrlf(s) || (c == '\n' && s != "" && s[|s| - 1] == '\r')
  {
    var t := s + [c];
    assert forall i :: 0 <= i < |s| ==> t[i] == s[i];
    if c == '\n' && s != "" && s[|s| - 1] == '\r' {
      assert t[|s| - 1] == '\r';
    }
  }

  lemma CrlfKept(s: string, more: string)
    requires HasCrlf(s)
    ensures HasCrlf(s + more)
  {
    var i :| 0 <= i < |s| - 1 && s[i] == '\r' && s[i + 1] == '\n';
    assert (s + more)[i] == '\r';
  }
}
