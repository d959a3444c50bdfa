/** The remaining-length codec of ebisu/kii/kii_mqtt_task.c (section 2.2.3 of MQTT 3.1.1), and the
    fixed header read byte by byte. */
module MqttCodec {
  import opened Text

  type byte = x: int | 0 <= x < 256

  /** The largest length that four bytes can hold. */
  const MAX_REMAINING := 268435455

  function Power128(k: nat): nat { if k == 0 then 1 else 128 * Power128(k - 1) }

  /** The lowest seven bits, and the continuation bit if there are more. */
  function LengthByte(n: nat): byte { if n / 128 == 0 then n % 128 else n % 128 + 128 }

  /** The bytes for `n`, at most `room` of them: seven bits each, the lowest first, with the
      continuation bit on all but the last. */
  function Encoded(n: nat, room: nat): (r: seq<byte>)
    ensures |r| <= room
    decreases room
  {
    if room == 0 then []
    else if n / 128 == 0 then [LengthByte(n)]
    else [LengthByte(n)] + Encoded(n / 128, room - 1)
  }

  /** `s` in place of as many bytes from `at` on. */
  function Splice(before: seq<byte>, at: nat, s: seq<byte>): (r: seq<byte>)
    requires at + |s| <= |before|
    ensures |r| == |before|
  {
    before[..at] + s + before[at + |s|..]
  }

  method Store(buf: array<byte>, i: nat, b: byte)
    requires i < buf.Length
    modifies buf
    ensures buf[..] == old(buf[..])[i := b]
  {
    buf[i] := b;
  }

  /** `_mqtt_encode` */
  method Encode(buf: array<byte>, at: nat, n: nat) returns (rc: nat)
    requires at + 5 <= buf.Length
    modifies buf
    ensures rc == |Encoded(n, 5)| && 1 <= rc <= 5
    ensures buf[..] == Splice(old(buf[..]), at, Encoded(n, 5))
  {
    hide Encoded, LengthByte, Splice;
    rc := 0;
    var remaining := n;
    ghost var before, out: seq<byte> := buf[..], [];
    NoBytes(before, at, Encoded(n, 5));
    while true
      invariant 0 <= rc < 5 && |out| == rc
      invariant buf[..] == Splice(before, at, out)
      invariant out + Encoded(remaining, 5 - rc) == Encoded(n, 5)
      decreases 5 - rc
    {
      var d := LengthByte(remaining);
      Store(buf, at + rc, d);
      NextByte(before, at, out, d);
      EncodedNext(remaining, 5 - rc);
      Regroup(out, d, EncodedRest(remaining, 5 - rc));
      out := out + [d];
      rc := rc + 1;
      remaining := remaining / 128;
      if remaining == 0 { break; }
      if rc >= 5 { NoRoom(remaining); break; }
    }
    assert out + [] == out;
    assert out == Encoded(n, 5);
  }

  lemma Regroup(out: seq<byte>, d: byte, rest: seq<byte>)
    ensures out + ([d] + rest) == out + [d] + rest
  {
  }

  lemma NoRoom(n: nat)
    ensures Encoded(n, 0) == []
  {
  }

  function EncodedRest(n: nat, room: nat): seq<byte>
    requires room > 0
  {
    if n / 128 > 0 then Encoded(n / 128, room - 1) else []
  }

  lemma EncodedNext(n: nat, room: nat)
    requires room > 0
    ensures Encoded(n, room) == [LengthByte(n)] + EncodedRest(n, room)
  {
    assert [LengthByte(n)] + [] == [LengthByte(n)];
  }

  /** One byte written behind those written before. */
  lemma NextByte(before: seq<byte>, at: nat, out: seq<byte>, b: byte)
    requires at + |out| < |before|
    ensures Splice(before, at, out)[at + |out| := b] == Splice(before, at, out + [b])
  {
  }

  lemma NoBytes(before: seq<byte>, at: nat, more: seq<byte>)
    requires at <= |before|
    ensures before == Splice(before, at, []) && [] + more == more
  {
  }

  /** The value of a run of length bytes, as far as four of them go. */
  function ValueOf(s: seq<byte>, i: nat): nat
    decreases 4 - i
  {
    if i >= 4 || i >= |s| then 0 else (s[i] % 128) * Power128(i) + if s[i] >= 128 then ValueOf(s, i + 1) else 0
  }

  /** How many bytes it takes; None when the fourth one still asks for more, or the bytes run out. */
  function LengthOf(s: seq<byte>, i: nat): (r: Option<nat>)
    ensures r.Some? ==> i < r.value <= |s| && r.value <= 4
    decreases 4 - i
  {
    if i >= 4 || i >= |s| then None else if s[i] < 128 then Some(i + 1) else LengthOf(s, i + 1)
  }

  /** `_mqtt_decode` on a buffer of four bytes, or of fewer that end in time: how many bytes the length
      takes, or -1, and the sum so far. */
  method Decode(buf: seq<byte>) returns (i: int, remaining: nat)
    requires |buf| == 4 || LengthOf(buf, 0).Some?
    ensures remaining == ValueOf(buf, 0)
    ensures i == match LengthOf(buf, 0) case None => -1 case Some(n) => n
  {
    i := 0;
    var multiplier: nat := 1;
    remaining := 0;
    while true
      invariant 0 <= i <= 4 && multiplier == Power128(i)
      invariant remaining + ValueOf(buf, i) == ValueOf(buf, 0)
      invariant LengthOf(buf, i) == LengthOf(buf, 0)
      decreases 4 - i
    {
      if i > 3 { return -1, remaining; }
      var b: int := buf[i];
      remaining := remaining + (b % 128) * multiplier;
      multiplier := multiplier * 128;
      i := i + 1;
      if b < 128 { return; }
    }
  }

  // ---------------------------------------------------------------------------------------------
  // Encoding and decoding

  lemma {:induction false} DecodesAt(n: nat, s: seq<byte>, i: nat)
    requires i < 4 && n < Power128(4 - i) && i <= |s| && Encoded(n, 5 - i) <= s[i..]
    ensures LengthOf(s, i) == Some(i + |Encoded(n, 5 - i)|)
    ensures ValueOf(s, i) == n * Power128(i)
    decreases 4 - i
  {
    hide Power128, LengthByte, Encoded;
    TakesHead(n, 5 - i, s, i);
    LowBits(n);
    assert s[i] % 128 == n % 128;
    if n < 128 {
      assert n % 128 == n;
    } else {
      SmallerPower(n, i);
      DecodesAt(n / 128, s, i + 1);
      PowerNext(i);
      DigitSum(n, Power128(i));
    }
  }

  lemma LowBits(n: nat)
    ensures LengthByte(n) % 128 == n % 128 && (LengthByte(n) >= 128 <==> n >= 128)
  {
  }

  lemma PowerNext(i: nat)
    ensures Power128(i + 1) == 128 * Power128(i)
  {
  }

  /** The first of the bytes of `n`, and the others. */
  lemma TakesHead(n: nat, room: nat, s: seq<byte>, i: nat)
    requires room > 0 && i <= |s| && Encoded(n, room) <= s[i..]
    ensures i < |s| && s[i] == LengthByte(n)
    ensures n < 128 ==> |Encoded(n, room)| == 1
    ensures n >= 128 ==> Encoded(n / 128, room - 1) <= s[i + 1..] && |Encoded(n, room)| == 1 + |Encoded(n / 128, room - 1)|
  {
    hide LengthByte;
    var e := Encoded(n, room);
    assert s[i..][0] == s[i] == e[0];
    assert e == s[i..][..|e|];
    if n >= 128 {
      assert e[1..] == Encoded(n / 128, room - 1);
      assert e[1..] == s[i + 1..][..|e| - 1];
    }
  }

  lemma SmallerPower(n: nat, i: nat)
    requires i < 4 && 128 <= n < Power128(4 - i)
    ensures i < 3 && n / 128 < Power128(4 - (i + 1))
  {
    assert Power128(1) == 128;
  }

  lemma DigitSum(n: nat, p: nat)
    ensures (n % 128) * p + n / 128 * (128 * p) == n * p
  {
    assert n == n % 128 + n / 128 * 128;
  }

  lemma PowerFour()
    ensures Power128(4) == MAX_REMAINING + 1
  {
    assert Power128(2) == 16384;
  }

  /** Whatever follows: the bytes of a length decode to it, and just they are taken. */
  lemma RoundTrip(n: nat, more: seq<byte>)
    requires n <= MAX_REMAINING
    ensures var s := Encoded(n, 5) + more;
            LengthOf(s, 0) == Some(|Encoded(n, 5)|) && ValueOf(s, 0) == n && 1 <= |Encoded(n, 5)| <= 4
  {
    PowerFour();
    var s := Encoded(n, 5) + more;
    assert s[0..] == s;
    DecodesAt(n, s, 0);
  }

  /** The bytes that section 2.2.3 asks for, one to four by the size of the length (table 2.4). */
  lemma LengthBytesAre(n: nat)
    requires n <= MAX_REMAINING
    ensures var a, b, c := n / 128, n / 16_384, n / 2_097_152;
            var s: seq<int> := Encoded(n, 5);
            s == if n <= 127 then [n]
                 else if n <= 16_383 then [n % 128 + 128, a]
                 else if n <= 2_097_151 then [n % 128 + 128, a % 128 + 128, b]
                 else [n % 128 + 128, a % 128 + 128, b % 128 + 128, c]
  {
    hide Encoded, LengthByte;
    var a, b, c := n / 128, n / 16_384, n / 2_097_152;
    Quotients(n);
    LengthByteIs(n);
    LengthByteIs(a);
    LengthByteIs(b);
    LengthByteIs(c);
    FourSteps(n, a, b, c);
  }

  lemma FourSteps(n: nat, a: nat, b: nat, c: nat)
    requires a == n / 128 && b == a / 128 && c == b / 128 && c / 128 == 0
    ensures Encoded(n, 5) == if a == 0 then [LengthByte(n)] else if b == 0 then [LengthByte(n), LengthByte(a)]
                             else if c == 0 then [LengthByte(n), LengthByte(a), LengthByte(b)]
                             else [LengthByte(n), LengthByte(a), LengthByte(b), LengthByte(c)]
  {
    hide Encoded, LengthByte;
    EncodedNext(n, 5);
    EncodedNext(a, 4);
    EncodedNext(b, 3);
    EncodedNext(c, 2);
  }

  lemma LengthByteIs(n: nat)
    ensures LengthByte(n) == (if n <= 127 then n else n % 128 + 128) && (n / 128 == 0 <==> n <= 127)
  {
  }

  lemma Quotients(n: nat)
    ensures n / 16_384 == n / 128 / 128 && n / 2_097_152 == n / 16_384 / 128
    ensures (n / 128 == 0 <==> n <= 127) && (n / 16_384 == 0 <==> n <= 16_383) && (n / 2_097_152 == 0 <==> n <= 2_097_151)
    ensures n <= MAX_REMAINING ==> n / 2_097_152 / 128 == 0
  {
  }

  /** The number that they stand for, lowest seven bits first. */
  lemma LengthRead(a: byte, b: byte, c: byte, d: byte)
    ensures LengthOf([a, b, c, d], 0) == (if a < 128 then Some(1) else if b < 128 then Some(2)
                                          else if c < 128 then Some(3) else if d < 128 then Some(4) else None)
    ensures d < 128 ==>
              ValueOf([a, b, c, d], 0) ==
              if a < 128 then a
              else if b < 128 then a - 128 + 128 * b
              else if c < 128 then a - 128 + 128 * (b - 128) + 16_384 * c
              else a - 128 + 128 * (b - 128) + 16_384 * (c - 128) + 2_097_152 * d
  {
    hide Power128;
    var s: seq<byte> := [a, b, c, d];
    PowersAre();
    assert ValueOf(s, 3) == (d % 128) * 2_097_152 + if d >= 128 then ValueOf(s, 4) else 0;
    assert ValueOf(s, 2) == (c % 128) * 16_384 + if c >= 128 then ValueOf(s, 3) else 0;
    assert ValueOf(s, 1) == (b % 128) * 128 + if b >= 128 then ValueOf(s, 2) else 0;
  }

  lemma PowersAre()
    ensures Power128(0) == 1 && Power128(1) == 128 && Power128(2) == 16_384 && Power128(3) == 2_097_152
  {
    assert Power128(2) == 128 * Power128(1);
    assert Power128(3) == 128 * Power128(2);
  }

  lemma {:induction false} ValueBound(s: seq<byte>, i: nat)
    requires LengthOf(s, i).Some?
    ensures ValueOf(s, i) < Power128(LengthOf(s, i).value)
    decreases 4 - i
  {
    if s[i] >= 128 {
      ValueBound(s, i + 1);
      PowerGrows(i + 1, LengthOf(s, i).value);
      Spread(s, i);
    } else {
      PowerGrows(0, i);
      DigitBelow(s[i] % 128, Power128(i));
    }
  }

  lemma DigitBelow(d: nat, p: nat)
    requires d < 128 && p > 0
    ensures d * p < 128 * p
  {
  }

  lemma {:induction false} PowerGrows(i: nat, k: nat)
    requires i <= k
    ensures Power128(i) <= Power128(k)
    decreases k
  {
    if i < k { PowerGrows(i, k - 1); }
  }

  /** The rest of the value is a multiple of its first weight, so a digit below it does not carry. */
  lemma Spread(s: seq<byte>, i: nat)
    requires LengthOf(s, i).Some? && s[i] >= 128 && ValueOf(s, i + 1) < Power128(LengthOf(s, i).value)
    ensures ValueOf(s, i) < Power128(LengthOf(s, i).value)
  {
    var k := LengthOf(s, i).value;
    var p := Power128(i + 1);
    var m := Multiple(s, i + 1);
    var q := Quotient(i + 1, k);
    assert m * p < q * p;
    Below(m, q, p);
    PowerGrows(0, i);
    DigitBelow(s[i] % 128, Power128(i));
    assert m * p + p == (m + 1) * p <= q * p by { AtMost(m + 1, q, p); }
  }

  lemma Below(m: nat, q: nat, p: nat)
    requires m * p < q * p
    ensures m < q
  {
    if m >= q { AtMost(q, m, p); }
  }

  lemma AtMost(a: nat, b: nat, p: nat)
    requires a <= b
    ensures a * p <= b * p
  {
  }

  lemma SumOfMultiples(d: nat, r: nat, p: nat)
    ensures d * p + r * (128 * p) == (d + r * 128) * p
  {
    assert r * (128 * p) == (r * 128) * p;
  }

  lemma {:induction false} Multiple(s: seq<byte>, i: nat) returns (m: nat)
    ensures ValueOf(s, i) == m * Power128(i)
    decreases 4 - i
  {
    hide Power128;
    if i >= 4 || i >= |s| {
      m := 0;
    } else if s[i] < 128 {
      m := s[i];
    } else {
      var r := Multiple(s, i + 1);
      m := s[i] % 128 + r * 128;
      PowerNext(i);
      SumOfMultiples(s[i] % 128, r, Power128(i));
    }
  }

  lemma {:induction false} Quotient(i: nat, k: nat) returns (q: nat)
    requires i <= k
    ensures Power128(k) == q * Power128(i)
    decreases k
  {
    if i == k {
      q := 1;
    } else {
      var r := Quotient(i, k - 1);
      q := 128 * r;
    }
  }

  lemma {:induction false} EncodedNeeds(n: nat, room: nat, k: nat)
    requires 0 < k <= room && n < Power128(k)
    ensures |Encoded(n, room)| <= k
    decreases k
  {
    if n >= 128 {
      assert Power128(1) == 128;
      EncodedNeeds(n / 128, room - 1, k - 1);
    }
  }

  /** No other bytes for the same length are fewer. */
  lemma ShortestForm(n: nat, s: seq<byte>)
    requires LengthOf(s, 0).Some? && ValueOf(s, 0) == n
    ensures n <= MAX_REMAINING && |Encoded(n, 5)| <= LengthOf(s, 0).value
  {
    var k := LengthOf(s, 0).value;
    ValueBound(s, 0);
    PowerFour();
    PowerGrows(k, 4);
    EncodedNeeds(n, 5, k);
  }

  // ---------------------------------------------------------------------------------------------
  // The fixed header

  /** What a receive of one byte brings; nothing at the end of the stream, where the byte stays 0. */
  datatype RecvOne = One(b: byte) | Nothing | Again | Failure

  /** Any failure, and AGAIN as well, is one. */
  function ByteOf(r: RecvOne): Option<byte> {
    match r case One(b) => Some(b) case Nothing => Some(0) case _ => None
  }

  datatype FixedHeader = FixedHeader(byte1: byte, remaining: nat)

  /** The length bytes as they come from the `i`-th receive on: those read, or None on a failure. */
  function LengthBytes(recv: nat -> RecvOne, i: nat): Option<seq<byte>>
    decreases 5 - i
  {
    if i >= 5 then Some([])
    else
      match ByteOf(recv(i))
      case None => None
      case Some(b) =>
        if b < 128 then Some([b])
        else
          match LengthBytes(recv, i + 1)
          case None => None
          case Some(s) => Some([b] + s)
  }

  /** `_mqtt_recv_fixed_header`: `recv` answers its receives of one byte each, `used` counts them. */
  method RecvFixedHeader(recv: nat -> RecvOne) returns (r: Option<FixedHeader>, used: nat)
    ensures match (ByteOf(recv(0)), LengthBytes(recv, 1))
            case (Some(b), Some(s)) => r == Some(FixedHeader(b, ValueOf(s, 0))) && used == 1 + |s|
            case _ => r == None
  {
    hide LengthBytes, ValueOf, LengthOf, ByteOf;
    used := 1;
    var first := ByteOf(recv(0));
    if first.None? { return None, used; }
    var buff: seq<byte> := [];
    var i := 0;
    assert LengthBytes(recv, 1).Some? ==> [] + LengthBytes(recv, 1).value == LengthBytes(recv, 1).value;
    while i < 4
      invariant 0 <= i <= 4 && |buff| == i && used == 1 + i
      invariant forall j :: 0 <= j < i ==> buff[j] >= 128
      invariant match LengthBytes(recv, 1 + i)
                case None => LengthBytes(recv, 1) == None
                case Some(s) => LengthBytes(recv, 1) == Some(buff + s)
    {
      var c := ByteOf(recv(1 + i));
      used := used + 1;
      NextLength(recv, 1 + i, buff);
      if c.None? { return None, used; }
      buff := buff + [c.value];
      if c.value < 128 {
        Ends(buff, 0);
        break;
      }
      i := i + 1;
    }
    if i == 4 { NoMoreLength(recv, buff); }
    var _, remaining := Decode(buff);
    r := Some(FixedHeader(first.value, remaining));
  }

  lemma NextLength(recv: nat -> RecvOne, i: nat, buff: seq<byte>)
    requires i < 5
    ensures match ByteOf(recv(i))
            case None => LengthBytes(recv, i) == None
            case Some(b) =>
              if b < 128 then LengthBytes(recv, i) == Some([b])
              else
                match LengthBytes(recv, i + 1)
                case None => LengthBytes(recv, i) == None
                case Some(s) => LengthBytes(recv, i).Some? && buff + LengthBytes(recv, i).value == buff + [b] + s
  {
    if LengthBytes(recv, i + 1).Some? && ByteOf(recv(i)).Some? {
      var b, s := ByteOf(recv(i)).value, LengthBytes(recv, i + 1).value;
      assert buff + ([b] + s) == buff + [b] + s;
    }
  }

  lemma NoMoreLength(recv: nat -> RecvOne, buff: seq<byte>)
    ensures LengthBytes(recv, 5) == Some([]) && buff + [] == buff
  {
  }

  lemma {:induction false} Ends(s: seq<byte>, i: nat)
    requires i < |s| <= 4 && s[|s| - 1] < 128
    ensures LengthOf(s, i).Some?
    decreases |s| - i
  {
    if s[i] >= 128 { Ends(s, i + 1); }
  }

  /** The receives from the `i`-th one on bring these bytes. */
  ghost predicate Brings(recv: nat -> RecvOne, i: nat, s: seq<byte>) {
    forall j {:trigger s[j]} :: 0 <= j < |s| ==> recv(i + j) == One(s[j])
  }

  lemma {:induction false} BytesCome(recv: nat -> RecvOne, i: nat, n: nat)
    requires 1 <= i <= 4 && n < Power128(5 - i)
    requires Brings(recv, i, Encoded(n, 6 - i))
    ensures LengthBytes(recv, i) == Some(Encoded(n, 6 - i))
    decreases 5 - i
  {
    var e := Encoded(n, 6 - i);
    assert recv(i) == One(e[0]);
    if n >= 128 {
      assert Power128(1) == 128;
      var t := Encoded(n / 128, 5 - i);
      assert e[1..] == t;
      forall j | 0 <= j < |t| ensures recv(i + 1 + j) == One(t[j]) {
        assert e[1 + j] == t[j];
      }
      BytesCome(recv, i + 1, n / 128);
    }
  }

  /** From a stream that begins with a type byte and an encoded length, whatever follows, the fixed
      header reads just these bytes, and the length that was encoded. */
  lemma HeaderRead(recv: nat -> RecvOne, b: byte, n: nat)
    requires n <= MAX_REMAINING
    requires Brings(recv, 0, [b] + Encoded(n, 5))
    ensures ByteOf(recv(0)) == Some(b) && LengthBytes(recv, 1) == Some(Encoded(n, 5)) && ValueOf(Encoded(n, 5), 0) == n
  {
    PowerFour();
    var e := Encoded(n, 5);
    assert ([b] + e)[0] == b;
    forall j | 0 <= j < |e| ensures recv(1 + j) == One(e[j]) {
      assert ([b] + e)[1 + j] == e[j];
    }
    BytesCome(recv, 1, n);
    RoundTrip(n, []);
    assert Encoded(n, 5) + [] == Encoded(n, 5);
  }
}
