/** The small text functions of the HTTP client: libc's `strstr`, `strtol` and `%lx` as far as they
    are used, and ebisu/khc/src/khc_impl.c. */
module KhcText {
  import opened Text

  const CRLF := "\r\n"
  const LONG_MAX := 0x7fff_ffff_ffff_ffff
  const TWO64 := 0x1_0000_0000_0000_0000

  /** `strstr(s, "\r\n")`: a C string ends at its terminator. */
  function FindCrlf(s: string): (r: Option<nat>)
    ensures r.Some? ==> r.value + 2 <= |s|
    decreases |s|
  {
    if |s| < 2 || s[0] == NUL then None
    else if s[0] == '\r' && s[1] == '\n' then Some(0)
    else
      match FindCrlf(s[1..])
      case None => None
      case Some(i) => Some(i + 1)
  }

  lemma {:induction false} CrlfFound(s: string)
    requires FindCrlf(s).Some?
    ensures var i := FindCrlf(s).value;
            s[i] == '\r' && s[i + 1] == '\n' && forall j :: 0 <= j < i ==>
              s[j] != NUL && !(s[j] == '\r' && s[j + 1] == '\n')
    decreases |s|
  {
    if !(s[0] == '\r' && s[1] == '\n') {
      CrlfFound(s[1..]);
      assert forall j :: 0 < j < |s| ==> s[j] == s[1..][j - 1];
    }
  }

  /** What `strstr` finds lies before the terminator. */
  lemma BeforeNul(s: string, j: nat)
    requires j < |s| && s[j] == NUL
    ensures FindCrlf(s).Some? ==> FindCrlf(s).value + 2 <= j
  {
    if FindCrlf(s).Some? {
      CrlfFound(s);
    }
  }

  /** A terminator cuts the search off. */
  lemma {:induction false} CrlfBeforeNul(s: string, n: nat)
    requires n < |s| && s[n] == NUL
    ensures FindCrlf(s) == FindCrlf(s[..n])
    decreases n
  {
    if n > 0 {
      CrlfBeforeNul(s[1..], n - 1);
      assert s[..n][1..] == s[1..][..n - 1];
    }
  }

  /** CR LF stands somewhere among the bytes `s` (the test of `_read_chunk_size`, which does not
      stop at a terminator). */
  predicate HasCrlf(s: string) {
    exists i {:trigger s[i]} :: 0 <= i < |s| - 1 && s[i] == '\r' && s[i + 1] == '\n'
  }

  predicate IsSpace(c: char) { c as int == 32 || 9 <= c as int <= 13 }

  function HexDigit(c: char): Option<nat> {
    if '0' <= c <= '9' then Some(c as int - '0' as int)
    else if 'a' <= c <= 'f' then Some(c as int - 'a' as int + 10)
    else if 'A' <= c <= 'F' then Some(c as int - 'A' as int + 10)
    else None
  }

  predicate IsHexAt(s: string, i: nat) { i < |s| && HexDigit(s[i]).Some? }

  /** The value of the run of hexadecimal digits at the start of `s`, after `acc`. */
  function HexRun(s: string, acc: nat): nat {
    if s == "" || HexDigit(s[0]).None? then acc else HexRun(s[1..], 16 * acc + HexDigit(s[0]).value)
  }

  /** `strtol(s, NULL, 16)`: white space, a sign, `0x`, digits; saturating. */
  function StrToL16(s: string): int
    decreases |s|
  {
    if s != "" && IsSpace(s[0]) then StrToL16(s[1..])
    else
      var negative := s != "" && s[0] == '-';
      var t := if negative || (s != "" && s[0] == '+') then s[1..] else s;
      var u := if |t| > 2 && t[0] == '0' && (t[1] == 'x' || t[1] == 'X') && IsHexAt(t, 2) then t[2..] else t;
      var n: int := HexRun(u, 0);
      if negative then (if n > LONG_MAX + 1 then -LONG_MAX - 1 else -n) else if n > LONG_MAX then LONG_MAX else n
  }

  /** A byte that is no hexadecimal digit comes before the end of `s`. */
  predicate HexStops(s: string) { s != "" && (HexDigit(s[0]).None? || HexStops(s[1..])) }

  predicate IsSign(c: char) { c == '-' || c == '+' }

  predicate IsPrefix16(t: string) { |t| >= 2 && t[0] == '0' && (t[1] == 'x' || t[1] == 'X') }

  /** `strtol` comes to a byte at which it stops before it leaves the bytes `s`, which need not end in a
      terminator. */
  predicate StrToLStops(s: string)
    decreases |s|
  {
    if s == "" then false
    else if IsSpace(s[0]) then StrToLStops(s[1..])
    else
      var t := if IsSign(s[0]) then s[1..] else s;
      HexStops(if IsPrefix16(t) then t[2..] else t)
  }

  /** A `long` taken for a `size_t`. */
  function AsSize(n: int): int { if n < 0 then n + TWO64 else n }

  function HexChar(d: nat): char
    requires d < 16
  {
    if d < 10 then ('0' as int + d) as char else ('a' as int + d - 10) as char
  }

  /** `%lx` */
  function Hex(n: nat): (t: string)
    ensures t != "" && forall i :: 0 <= i < |t| ==> HexDigit(t[i]).Some?
  {
    if n < 16 then [HexChar(n)] else Hex(n / 16) + [HexChar(n % 16)]
  }

  // ---------------------------------------------------------------------------------------------
  // Header lines

  function CharAt(s: string, i: nat): char { if i < |s| then s[i] else NUL }

  /** The colon that ends the key, as `_is_chunked_encoding` looks for it: each character before it
      is compared with the same place of the key, but the key need not be used up. */
  function KeyColon(line: string, upper: string, lower: string, i: nat): (r: Option<nat>)
    ensures r.Some? ==> i <= r.value < |line| && line[r.value] == ':'
    decreases |line| - i
  {
    if i >= |line| then None
    else if line[i] == ':' then Some(i)
    else if line[i] == CharAt(upper, i) || line[i] == CharAt(lower, i) then KeyColon(line, upper, lower, i + 1)
    else None
  }

  function SkipBlanks(line: string, i: nat): (r: nat)
    ensures i <= r && (i <= |line| ==> r <= |line|)
    decreases |line| - i
  {
    if i < |line| && (line[i] == ' ' || line[i] == '\t') then SkipBlanks(line, i + 1) else i
  }

  predicate ChunkedAt(s: string, i: nat) {
    forall j :: 0 <= j < 7 ==> CharAt(s, i + j) == "CHUNKED"[j] || CharAt(s, i + j) == "chunked"[j]
  }

  /** `_contains_chunked` */
  predicate ContainsChunked(s: string) { exists i :: 0 <= i < |s| && ChunkedAt(s, i) }

  /** `_is_chunked_encoding` */
  predicate IsChunkedEncoding(line: string) {
    match KeyColon(line, "TRANSFER-ENCODING", "transfer-encoding", 0)
    case None => false
    case Some(i) =>
      var j := SkipBlanks(line, i + 1);
      j + 1 < |line| && ContainsChunked(line[j..])
  }

  function Lower(c: char): char { if 'A' <= c <= 'Z' then (c as int + 32) as char else c }
  function Upper(c: char): char { if 'a' <= c <= 'z' then (c as int - 32) as char else c }

  /** `_is_header_present` */
  predicate IsHeaderPresent(key: string, s: string) {
    && |key| < |s| && s[|key|] == ':'
    && forall i :: 0 <= i < |key| ==> s[i] != ':' && (s[i] == Lower(key[i]) || s[i] == Upper(key[i]))
  }
}
