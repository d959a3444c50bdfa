/** Hexadecimal numbers as they are written in chunk size lines. */
module KhcNumeral {
  import opened Text
  import opened KhcText
  import opened KhcChunk

  // ---------------------------------------------------------------------------------------------
  // Hexadecimal numerals

  const DIGITS := "0123456789abcdef"

  function Numeral(n: nat): (t: string)
    ensures t != ""
  {
    if n < 16 then [DIGITS[n]] else Numeral(n / 16) + [DIGITS[n % 16]]
  }

  /** The same in lower case. */
  function Fold(s: string): (t: string)
    ensures |t| == |s|
  {
    seq(|s|, i requires 0 <= i < |s| => Lower(s[i]))
  }

  lemma DigitsAre(d: nat)
    requires d < 16
    ensures DIGITS[d] == if d < 10 then ('0' as int + d) as char else ('a' as int + d - 10) as char
  {
    assert DIGITS == ['0', '1', '2', '3', '4', '5', '6', '7', '8', '9', 'a', 'b', 'c', 'd', 'e', 'f'];
  }

  /** A digit in either case. */
  lemma DigitRead(c: char, d: nat)
    requires d < 16 && Lower(c) == DIGITS[d]
    ensures HexDigit(c) == Some(d)
  {
    DigitsAre(d);
  }

  /** `s` is `n` in hexadecimal, letters in either case, with any number of zeros in front. */
  ghost predicate Writes(s: string, n: nat) {
    exists k: nat :: k <= |s| && (forall i :: 0 <= i < k ==> s[i] == '0') && Fold(s[k..]) == Numeral(n)
  }

  lemma {:induction false} RunSnoc(s: string, c: char, acc: nat)
    requires forall i :: 0 <= i < |s| ==> HexDigit(s[i]).Some?
    requires HexDigit(c).Some?
    ensures HexRun(s + [c], acc) == 16 * HexRun(s, acc) + HexDigit(c).value
    decreases |s|
  {
    if s == "" {
      assert (s + [c])[1..] == "";
    } else {
      assert (s + [c])[1..] == s[1..] + [c];
      RunSnoc(s[1..], c, 16 * acc + HexDigit(s[0]).value);
    }
  }

  lemma {:induction false} NumeralRead(s: string, n: nat)
    requires Fold(s) == Numeral(n)
    ensures s != "" && HexRun(s, 0) == n && forall i :: 0 <= i < |s| ==> HexDigit(s[i]).Some?
    decreases n
  {
    hide Lower, HexDigit;
    var k := |s| - 1;
    assert Fold(s)[k] == Lower(s[k]);
    if n < 16 {
      DigitRead(s[0], n);
      assert s[1..] == "";
    } else {
      assert Fold(s[..k]) == Fold(s)[..k] == Numeral(n / 16);
      assert Fold(s)[k] == DIGITS[n % 16];
      NumeralRead(s[..k], n / 16);
      DigitRead(s[k], n % 16);
      RunSnoc(s[..k], s[k], 0);
      assert s == s[..k] + [s[k]];
    }
  }

  lemma {:induction false} ZerosInFront(s: string, k: nat)
    requires k <= |s| && forall i :: 0 <= i < k ==> s[i] == '0'
    ensures HexRun(s, 0) == HexRun(s[k..], 0)
    decreases k
  {
    if k > 0 {
      ZerosInFront(s[1..], k - 1);
      assert s[1..][k - 1..] == s[k..];
    } else {
      assert s[0..] == s;
    }
  }

  /** Its value is `n`, by the scan of the digits. */
  lemma WrittenRun(s: string, n: nat)
    requires Writes(s, n)
    ensures s != "" && HexRun(s, 0) == n && forall i :: 0 <= i < |s| ==> HexDigit(s[i]).Some?
  {
    var k: nat :| k <= |s| && (forall i :: 0 <= i < k ==> s[i] == '0') && Fold(s[k..]) == Numeral(n);
    NumeralRead(s[k..], n);
    ZerosInFront(s, k);
    assert forall i :: k <= i < |s| ==> s[i] == s[k..][i - k];
  }

  lemma {:induction false} RunStopsAt(s: string, t: string, acc: nat)
    requires t == "" || HexDigit(t[0]).None?
    requires forall i :: 0 <= i < |s| ==> HexDigit(s[i]).Some?
    ensures HexRun(s + t, acc) == HexRun(s, acc)
    decreases |s|
  {
    if s == "" {
      assert s + t == t;
    } else {
      assert (s + t)[1..] == s[1..] + t;
      RunStopsAt(s[1..], t, 16 * acc + HexDigit(s[0]).value);
    }
  }

  /** What may stand behind a chunk size: nothing, or an extension. */
  predicate Extension(t: string) { t == "" || t[0] == ';' }

  /** And it is so as a chunk size line, and for `strtol`. */
  lemma WrittenSize(s: string, t: string, n: nat)
    requires Writes(s, n) && Extension(t) && n <= LONG_MAX
    ensures SizeOf(s + t) == Some(n) && StrToL16(s + t) == n
  {
    WrittenRun(s, n);
    RunStopsAt(s, t, 0);
    var line := s + t;
    assert line[0] == s[0] && (|s| > 1 ==> line[1] == s[1]) && (|s| == 1 && |line| > 1 ==> line[1] == t[0]);
  }

  // ---------------------------------------------------------------------------------------------
  // The numbers that the client writes

  /** `%lx` writes numerals. */
  lemma {:induction false} HexIsNumeral(n: nat)
    ensures Hex(n) == Numeral(n)
  {
    DigitsAre(n % 16);
    if n >= 16 { HexIsNumeral(n / 16); }
  }

  lemma {:induction false} NumeralFolded(n: nat)
    ensures Fold(Numeral(n)) == Numeral(n)
  {
    DigitsAre(n % 16);
    if n < 16 {
      assert Fold(Numeral(n))[0] == DIGITS[n];
    } else {
      NumeralFolded(n / 16);
      var a, b := Numeral(n / 16), [DIGITS[n % 16]];
      assert Fold(a + b) == Fold(a) + Fold(b);
      assert Fold(b)[0] == b[0];
    }
  }

  lemma HexWrites(n: nat)
    ensures Writes(Hex(n), n)
  {
    HexIsNumeral(n);
    NumeralFolded(n);
    assert Hex(n)[0..] == Hex(n);
  }
}
