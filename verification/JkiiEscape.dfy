/** `jkii_escape_str` (ebisu/jkii/src/jkii.c): escaping a text for use in a JSON string. */
module JkiiEscape {
  import opened Jsmn
  import opened JsonTree
  import opened Text

  predicate Special(c: char) { c in "\"/\\" || ControlSpecial(c) }

  /** Backspace, form feed, line feed, carriage return and tab. */
  predicate ControlSpecial(c: char) { c as int in [8, 12, 10, 13, 9] }

  function Escaped(s: string): (r: string)
    ensures |s| <= |r| <= 2 * |s|
  {
    if s == "" then ""
    else Unit(s[0]) + Escaped(s[1..])
  }

  /** Every backslash stands for the character after it. */
  function Unescaped(t: string): string {
    if t == "" then ""
    else if t[0] == '\\' && |t| > 1 then [t[1]] + Unescaped(t[2..])
    else [t[0]] + Unescaped(t[1..])
  }

  lemma {:induction false} EscapeInverts(s: string)
    ensures Unescaped(Escaped(s)) == s
  {
    if s != "" {
      EscapeInverts(s[1..]);
      var t, rest := Escaped(s), Escaped(s[1..]);
      if Special(s[0]) {
        assert t[2..] == rest;
      } else {
        assert t[1..] == rest;
      }
    }
  }

  // ---------------------------------------------------------------------------------------------
  // What a reader makes of it (section 7 of RFC 8259)

  /** What a backslash and this character stand for. */
  function ShortEscape(c: char): Option<char> {
    match c
    case '\"' => Some('\"')
    case '\\' => Some('\\')
    case '/' => Some('/')
    case 'b' => Some(8 as char)
    case 'f' => Some(12 as char)
    case 'n' => Some('\n')
    case 'r' => Some('\r')
    case 't' => Some('\t')
    case _ => None
  }

  function HexOf(c: char): nat
    requires Digit16(c)
    ensures HexOf(c) < 16
  {
    if c <= '9' then c as int - '0' as int
    else if c <= 'F' then c as int - 'A' as int + 10 else c as int - 'a' as int + 10
  }

  /** The character of four hexadecimal digits; a half of a surrogate pair is none. */
  function FourDigits(t: string): Option<char> {
    if |t| < 4 || !Digit16(t[0]) || !Digit16(t[1]) || !Digit16(t[2]) || !Digit16(t[3]) then None
    else
      var n := 4096 * HexOf(t[0]) + 256 * HexOf(t[1]) + 16 * HexOf(t[2]) + HexOf(t[3]);
      if 0xd800 <= n < 0xe000 then None else Some(n as char)
  }

  function Behind(c: char, more: Option<string>): Option<string> {
    match more case None => None case Some(t) => Some([c] + t)
  }

  /** The text that the body of a JSON string stands for. */
  function Decoded(t: string): Option<string>
    decreases |t|
  {
    if t == "" then Some("")
    else if t[0] == '\"' then None
    else if t[0] != '\\' then Behind(t[0], Decoded(t[1..]))
    else if |t| == 1 then None
    else if ShortEscape(t[1]).Some? then Behind(ShortEscape(t[1]).value, Decoded(t[2..]))
    else if t[1] == 'u' && FourDigits(t[2..]).Some? then Behind(FourDigits(t[2..]).value, Decoded(t[6..]))
    else None
  }

  /** A reader gets the text back, exactly if it holds none of the five control characters; otherwise it gets
      nothing. */
  lemma {:induction false} DecodedIff(s: string)
    ensures Decoded(Escaped(s)) == if forall i :: 0 <= i < |s| ==> !ControlSpecial(s[i]) then Some(s) else None
  {
    if s != "" {
      hide Special, ControlSpecial, Unit;
      DecodedIff(s[1..]);
      UnitDecoded(s[0], Escaped(s[1..]));
      assert [s[0]] + s[1..] == s;
      NoneOf(s);
    }
  }

  lemma UnitDecoded(c: char, rest: string)
    ensures Decoded(Unit(c) + rest) == if ControlSpecial(c) then None else Behind(c, Decoded(rest))
  {
    var t := Unit(c) + rest;
    if Special(c) {
      assert t[0] == '\\' && t[1] == c && t[2..] == rest;
    } else {
      assert t[0] == c && t[1..] == rest;
    }
  }

  lemma NoneOf(s: string)
    requires s != ""
    ensures (forall i :: 0 <= i < |s| ==> !ControlSpecial(s[i])) <==>
              !ControlSpecial(s[0]) && forall i :: 0 <= i < |s[1..]| ==> !ControlSpecial(s[1..][i])
  {
    hide ControlSpecial;
    assert forall i :: 0 < i < |s| ==> s[i] == s[1..][i - 1];
  }

  /** The escaped text is the body of a JSON string exactly when the text holds neither one of the
      five control characters (the code puts a backslash before the character itself) nor a
      terminator. */
  lemma {:induction false} EscapedIsGood(s: string)
    ensures GoodString(Escaped(s)) <==> forall i :: 0 <= i < |s| ==> !ControlSpecial(s[i]) && s[i] != NUL
  {
    if s != "" {
      EscapedIsGood(s[1..]);
      var t, rest := Escaped(s), Escaped(s[1..]);
      if Special(s[0]) {
        assert t[2..] == rest && t[1] == s[0];
      } else {
        assert t[1..] == rest;
      }
      if !ControlSpecial(s[0]) && s[0] != NUL {
        assert GoodString(t) <==> GoodString(rest);
        if i :| 0 <= i < |s[1..]| && (ControlSpecial(s[1..][i]) || s[1..][i] == NUL) {
          assert s[1 + i] == s[1..][i];
        }
        assert forall i :: 0 < i < |s| ==> s[i] == s[1..][i - 1];
      }
    }
  }

  /** Quoted in a longer text, such an escaped text is scanned as one string, from quote to quote. */
  lemma QuotedScansWhole(js: string, p: nat, s: string)
    requires Has(js, p, "\"" + (Escaped(s) + "\""))
    requires forall i :: 0 <= i < |s| ==> !ControlSpecial(s[i]) && s[i] != NUL
    ensures StringEnd(js, p + 1) == Closed(p + 1 + |Escaped(s)|)
  {
    HasConcat(js, p, "\"", Escaped(s) + "\"");
    EscapedIsGood(s);
    StringEnds(js, p + 1, Escaped(s));
  }

  /** The characters that stand for one character. */
  function Unit(c: char): string { if Special(c) then ['\\', c] else [c] }

  lemma {:induction false} EscapedConcat(s: string, t: string)
    ensures Escaped(s + t) == Escaped(s) + Escaped(t)
  {
    if s == "" {
      assert s + t == t;
    } else {
      assert (s + t)[1..] == s[1..] + t;
      EscapedConcat(s[1..], t);
    }
  }

  lemma EscapedSplit(s: string, i: nat)
    requires i < |s|
    ensures Escaped(s[..i + 1]) == Escaped(s[..i]) + Unit(s[i])
    ensures |Escaped(s)| >= |Escaped(s[..i + 1])| + (|s| - i - 1)
  {
    assert s[..i] + [s[i]] == s[..i + 1];
    EscapedConcat(s[..i], [s[i]]);
    assert [s[i]][1..] == "";
    assert Escaped([s[i]]) == Unit(s[i]) + "";
    assert s[..i + 1] + s[i + 1..] == s;
    EscapedConcat(s[..i + 1], s[i + 1..]);
  }

  /** The buffer is written in place, terminator included; -1 exactly when it would not fit. */
  method EscapeStr(str: string, buff: array<char>) returns (r: int)
    modifies buff
    ensures r == -1 <==> buff.Length < |Escaped(str)| + 1
    ensures r != -1 ==> r == |Escaped(str)| && buff[..r] == Escaped(str) && buff[r] == NUL
                        && buff[r + 1..] == old(buff[r + 1..])
  {
    hide Special;
    if buff.Length < |str| + 1 { return -1; }
    var escapedLen := |str|;
    var i, pos := 0, 0;
    while i < |str|
      invariant 0 <= i <= |str|
      invariant pos == |Escaped(str[..i])| && escapedLen == pos + |str| - i < buff.Length
      invariant buff[..pos] == Escaped(str[..i])
      invariant escapedLen <= |Escaped(str)|
      invariant forall j :: pos <= j < buff.Length ==> buff[j] == old(buff[j])
    {
      EscapedSplit(str, i);
      var c := str[i];
      if Special(c) {
        escapedLen := escapedLen + 1;
        if buff.Length < escapedLen + 1 { return -1; }
        buff[pos] := '\\';
        pos := pos + 1;
        buff[pos] := c;
      } else {
        buff[pos] := c;
      }
      i := i + 1;
      pos := pos + 1;
    }
    assert str[..i] == str;
    buff[escapedLen] := NUL;
    r := escapedLen;
  }
}
