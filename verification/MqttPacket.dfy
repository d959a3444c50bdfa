/** CONNECT and SUBSCRIBE put together in place (ebisu/kii/kii_mqtt_task.c; sections 3.1 and 3.8 of
    the MQTT V3.1 specification). */
module MqttPacket {
  import opened Text
  import opened MqttCodec

  // ---------------------------------------------------------------------------------------------
  // The packets

  /** Protocol name and level, and the flags for user name, password and a clean session. */
  const PROTOCOL: seq<byte> := [0x00, 0x06, 77, 81, 73, 115, 100, 112, 0x03, 0xc2]

  function TwoBytes(n: nat): (r: seq<byte>) ensures |r| == 2 { [n / 256 % 256, n % 256] }

  function Lengthed(s: seq<byte>): (r: seq<byte>) ensures |r| == 2 + |s| { TwoBytes(|s|) + s }

  function ConnectPayload(keepAlive: nat, topic: seq<byte>, user: seq<byte>, password: seq<byte>): (r: seq<byte>)
    ensures |r| == 18 + |topic| + |user| + |password|
  {
    PROTOCOL + TwoBytes(keepAlive) + Lengthed(topic) + Lengthed(user) + Lengthed(password)
  }

  function SubscribePayload(topic: seq<byte>, qos: byte): (r: seq<byte>)
    ensures |r| == 5 + |topic|
  {
    [0x00, 0x01] + Lengthed(topic) + [qos]
  }

  function Packet(byte1: byte, payload: seq<byte>): seq<byte> { [byte1] + Encoded(|payload|, 5) + payload }

  const CONNECT_BYTE := 0x10
  const SUBSCRIBE_BYTE := 0x82

  /** `_mqtt_state_send_connect` asks for this much of its buffer. */
  predicate BufferFits(size: nat, topic: seq<byte>, user: seq<byte>, password: seq<byte>) {
    size >= 27 + |topic| + |user| + |password|
  }

  // ---------------------------------------------------------------------------------------------
  // Reading them back

  function Word(s: seq<byte>, at: nat): nat
    requires at + 2 <= |s|
  {
    var high: int, low: int := s[at], s[at + 1];
    high * 256 + low
  }

  /** A string behind its two length bytes, and where it ends. */
  function ReadLengthed(s: seq<byte>, at: nat): Option<(seq<byte>, nat)> {
    if at + 2 > |s| || at + 2 + Word(s, at) > |s| then None
    else Some((s[at + 2..at + 2 + Word(s, at)], at + 2 + Word(s, at)))
  }

  /** The protocol's name in ASCII.  Behind it come its level, 3, and the flags: bits 7, 6 and 1 say that
      there are a user name and a password and that the session is clean. */
  const MQISDP: seq<byte> := [0x4d, 0x51, 0x49, 0x73, 0x64, 0x70]

  datatype Connect = Connect(keepAlive: nat, topic: seq<byte>, user: seq<byte>, password: seq<byte>)

  function ReadConnectPayload(s: seq<byte>): Option<Connect> {
    if |s| < 12 || s[..10] != [0, 6] + MQISDP + [3, 0xc2] then None
    else
      match ReadLengthed(s, 12)
      case None => None
      case Some(t) =>
        match ReadLengthed(s, t.1)
        case None => None
        case Some(u) =>
          match ReadLengthed(s, u.1)
          case None => None
          case Some(p) => if p.1 != |s| then None else Some(Connect(Word(s, 10), t.0, u.0, p.0))
  }

  function ReadSubscribePayload(s: seq<byte>): Option<(nat, seq<byte>, byte)> {
    if |s| < 2 then None
    else
      match ReadLengthed(s, 2)
      case None => None
      case Some(t) => if t.1 + 1 != |s| then None else Some((Word(s, 0), t.0, s[t.1]))
  }

  /** What follows the fixed header of a packet of that type, when the length says so. */
  function ReadPacket(s: seq<byte>, byte1: byte): Option<seq<byte>> {
    if s == [] || s[0] != byte1 then None
    else
      match LengthOf(s[1..], 0)
      case None => None
      case Some(n) => if 1 + n + ValueOf(s[1..], 0) != |s| then None else Some(s[1 + n..])
  }

  lemma PacketRead(byte1: byte, payload: seq<byte>)
    requires |payload| <= MAX_REMAINING
    ensures ReadPacket(Packet(byte1, payload), byte1) == Some(payload)
  {
    var s, e := Packet(byte1, payload), Encoded(|payload|, 5);
    RoundTrip(|payload|, payload);
    assert s[1..] == e + payload;
    assert s[1 + |e|..] == payload;
  }

  lemma WordRead(a: seq<byte>, n: nat, b: seq<byte>)
    requires n < 65536
    ensures Word(a + TwoBytes(n) + b, |a|) == n
  {
    var s := a + TwoBytes(n) + b;
    assert s[|a|] == n / 256 % 256 && s[|a| + 1] == n % 256;
  }

  lemma LengthedRead(a: seq<byte>, t: seq<byte>, b: seq<byte>)
    requires |t| < 65536
    ensures ReadLengthed(a + Lengthed(t) + b, |a|) == Some((t, |a| + 2 + |t|))
  {
    var s := a + Lengthed(t) + b;
    WordRead(a, |t|, t + b);
    assert s == a + TwoBytes(|t|) + (t + b);
    assert s[|a| + 2..|a| + 2 + |t|] == t;
  }

  lemma ConnectPayloadRead(k: nat, t: seq<byte>, u: seq<byte>, p: seq<byte>)
    requires k < 65536 && |t| < 65536 && |u| < 65536 && |p| < 65536
    ensures ReadConnectPayload(ConnectPayload(k, t, u, p)) == Some(Connect(k, t, u, p))
  {
    hide ReadLengthed, Lengthed, TwoBytes, Word;
    var s := ConnectPayload(k, t, u, p);
    var h := PROTOCOL + TwoBytes(k);
    LengthedRead(h, t, Lengthed(u) + Lengthed(p));
    assert s == h + Lengthed(t) + (Lengthed(u) + Lengthed(p));
    LengthedRead(h + Lengthed(t), u, Lengthed(p));
    LengthedRead(h + Lengthed(t) + Lengthed(u), p, []);
    assert s == h + Lengthed(t) + Lengthed(u) + Lengthed(p) + [];
    WordRead(PROTOCOL, k, Lengthed(t) + Lengthed(u) + Lengthed(p));
    assert s == PROTOCOL + TwoBytes(k) + (Lengthed(t) + Lengthed(u) + Lengthed(p));
    assert s[..10] == PROTOCOL;
  }

  /** From the CONNECT packet the keep-alive time, the topic as the client's identifier, the user name
      and the password can be read back. */
  lemma ConnectRead(k: nat, t: seq<byte>, u: seq<byte>, p: seq<byte>)
    requires k < 65536 && |t| < 65536 && |u| < 65536 && |p| < 65536
    ensures var payload := ReadPacket(Packet(CONNECT_BYTE, ConnectPayload(k, t, u, p)), 0x10);
            payload.Some? && ReadConnectPayload(payload.value) == Some(Connect(k, t, u, p))
  {
    hide ConnectPayload, Packet, ReadPacket, ReadConnectPayload;
    PacketRead(CONNECT_BYTE, ConnectPayload(k, t, u, p));
    ConnectPayloadRead(k, t, u, p);
  }

  /** And from the SUBSCRIBE packet identifier 1, the topic and the quality of service. */
  lemma SubscribeRead(t: seq<byte>, qos: byte)
    requires |t| < 65536
    ensures var payload := ReadPacket(Packet(SUBSCRIBE_BYTE, SubscribePayload(t, qos)), 0x82);
            payload.Some? && ReadSubscribePayload(payload.value) == Some((1, t, qos))
  {
    hide Packet, ReadPacket, Lengthed, ReadLengthed;
    var s := SubscribePayload(t, qos);
    PacketRead(SUBSCRIBE_BYTE, s);
    LengthedRead([0x00, 0x01], t, [qos]);
    assert s[4 + |t|] == qos;
  }

  // ---------------------------------------------------------------------------------------------
  // Putting them together in place

  /** `memset` */
  method Clear(buf: array<byte>)
    modifies buf
    ensures forall i :: 0 <= i < buf.Length ==> buf[i] == 0
  {
    forall i | 0 <= i < buf.Length { buf[i] := 0; }
  }

  /** Some bytes written at `i`, one after the other. */
  method Append(buf: array<byte>, i: nat, data: seq<byte>) returns (next: nat)
    requires 8 <= i && i + |data| <= buf.Length
    modifies buf
    ensures next == i + |data| && buf[8..next] == old(buf[8..i]) + data
    ensures forall k :: next <= k < buf.Length ==> buf[k] == old(buf[k])
  {
    forall k | 0 <= k < |data| { buf[i + k] := data[k]; }
    next := i + |data|;
    assert buf[8..next] == buf[8..i] + buf[i..next];
  }

  /** Two length bytes and a copy by `strcpy`, which writes the terminator as well. */
  method AppendString(buf: array<byte>, i: nat, s: seq<byte>) returns (next: nat)
    requires 8 <= i && i + 2 + |s| + 1 <= buf.Length
    modifies buf
    ensures next == i + 2 + |s| && buf[8..next] == old(buf[8..i]) + Lengthed(s)
    ensures buf[next] == 0 && forall k :: next < k < buf.Length ==> buf[k] == old(buf[k])
  {
    var at := Append(buf, i, TwoBytes(|s|));
    ghost var so := buf[8..at];
    var end := Append(buf, at, s + [0]);
    next := end - 1;
    assert buf[8..next] == buf[8..end][..next - 8];
    assert (so + (s + [0]))[..next - 8] == so + s;
    assert buf[8..end][next - 8] == (so + (s + [0]))[next - 8] == 0;
  }

  /** The fixed header in front, and the payload moved down behind it. */
  method Finish(buf: array<byte>, byte1: byte, i: nat) returns (j: nat)
    requires 8 <= i <= buf.Length
    modifies buf
    ensures j <= i && buf[..j] == Packet(byte1, old(buf[8..i]))
  {
    hide Encoded, Splice;
    ghost var payload := buf[8..i];
    buf[0] := byte1;
    ghost var was := buf[..];
    var n := Encode(buf, 1, i - 8);
    ghost var e := Encoded(i - 8, 5);
    SpliceParts(was, 1, e);
    assert buf[8..i] == buf[..][8..i] == was[8..i] == payload;
    assert buf[..1 + n] == buf[..][..1 + n] == [byte1] + e;
    j := 1 + n;
    var k := 0;
    while k < i - 8
      invariant 0 <= k <= i - 8 && j == 1 + n + k
      invariant buf[..1 + n] == [byte1] + e
      invariant forall m :: 0 <= m < k ==> buf[1 + n + m] == payload[m]
      invariant forall m :: k <= m < i - 8 ==> buf[8 + m] == payload[m]
    {
      buf[j] := buf[8 + k];
      j := j + 1;
      k := k + 1;
    }
    assert buf[1 + n..j] == payload;
    assert buf[..j] == buf[..1 + n] + buf[1 + n..j];
  }

  lemma SpliceParts(was: seq<byte>, at: nat, e: seq<byte>)
    requires at + |e| <= |was|
    ensures Splice(was, at, e)[..at + |e|] == was[..at] + e
    ensures forall i, j :: at + |e| <= i <= j <= |was| ==> Splice(was, at, e)[i..j] == was[i..j]
  {
  }

  /** Where the terminator of the password goes, the last byte that is written for CONNECT. */
  function LastWrite(topic: seq<byte>, user: seq<byte>, password: seq<byte>): nat {
    8 + 12 + (2 + |topic|) + (2 + |user|) + (2 + |password|)
  }

  /** `_mqtt_send_connect` up to the sending: under the check of its caller every write, terminators
      included, stays inside the buffer.  `last` is where the last terminator has been written. */
  method AssembleConnect(buf: array<byte>, keepAlive: nat, topic: seq<byte>, user: seq<byte>, password: seq<byte>)
    returns (j: nat, ghost last: nat)
    requires BufferFits(buf.Length, topic, user, password)
    modifies buf
    ensures j <= buf.Length && buf[..j] == Packet(CONNECT_BYTE, ConnectPayload(keepAlive, topic, user, password))
    ensures last == LastWrite(topic, user, password) && j <= last < buf.Length
  {
    hide Lengthed, TwoBytes, Packet;
    Clear(buf);
    var i := Append(buf, 8, PROTOCOL);
    assert buf[8..i] == PROTOCOL;
    i := Append(buf, i, TwoBytes(keepAlive));
    i := AppendString(buf, i, topic);
    i := AppendString(buf, i, user);
    i := AppendString(buf, i, password);
    last := i;
    j := Finish(buf, CONNECT_BYTE, i);
  }

  /** `_mqtt_send_subscribe` up to the sending: the check made before CONNECT covers it. */
  method AssembleSubscribe(buf: array<byte>, topic: seq<byte>, qos: byte) returns (j: nat)
    requires buf.Length >= 13 + |topic|
    modifies buf
    ensures j <= buf.Length && buf[..j] == Packet(SUBSCRIBE_BYTE, SubscribePayload(topic, qos))
  {
    hide Lengthed, TwoBytes, Packet;
    Clear(buf);
    var i := Append(buf, 8, [0x00, 0x01]);
    assert buf[8..i] == [0x00, 0x01];
    i := AppendString(buf, i, topic);
    i := Append(buf, i, [qos]);
    j := Finish(buf, SUBSCRIBE_BYTE, i);
  }

  /** The check of the caller is the least that CONNECT can do with: it is passed if and only if the last
      terminator has its place in the buffer. */
  lemma CheckIsTight(size: nat, topic: seq<byte>, user: seq<byte>, password: seq<byte>)
    ensures BufferFits(size, topic, user, password) <==> LastWrite(topic, user, password) < size
  {
  }

  // ---------------------------------------------------------------------------------------------
  // Sending

  datatype SendReply = SendOk(n: nat) | SendAgain | SendFail

  /** The sends that the rest of a packet takes, and whether all of it is accepted; AGAIN is a
      failure.  None when the answers do not suffice (nothing accepted is asked for again). */
  function SendRun(rest: seq<byte>, replies: seq<SendReply>): Option<(bool, seq<byte>)>
    decreases |replies|
  {
    if rest == [] then Some((true, []))
    else if replies == [] then None
    else
      match replies[0]
      case SendAgain => Some((false, []))
      case SendFail => Some((false, []))
      case SendOk(n) =>
        if n > |rest| then None
        else
          match SendRun(rest[n..], replies[1..])
          case None => None
          case Some(r) => Some((r.0, rest[..n] + r.1))
  }

  lemma SendStep(packet: seq<byte>, total: nat, replies: seq<SendReply>, k: nat)
    requires total < |packet| && k <= |replies| && SendRun(packet[total..], replies[k..]).Some?
    ensures k < |replies|
    ensures match replies[k]
            case SendAgain => SendRun(packet[total..], replies[k..]) == Some((false, []))
              && packet[..total] + [] == packet[..total]
            case SendFail => SendRun(packet[total..], replies[k..]) == Some((false, []))
              && packet[..total] + [] == packet[..total]
            case SendOk(n) =>
              && total + n <= |packet| && packet[..total] + packet[total..total + n] == packet[..total + n]
              && var r := SendRun(packet[total + n..], replies[k + 1..]);
                 r.Some? && SendRun(packet[total..], replies[k..]).value.0 == r.value.0
                 && packet[..total] + SendRun(packet[total..], replies[k..]).value.1 == packet[..total + n] + r.value.1
  {
    var rest := packet[total..];
    if replies[k].SendOk? {
      var n := replies[k].n;
      assert rest[n..] == packet[total + n..] && replies[k..][1..] == replies[k + 1..];
      assert rest[..n] == packet[total..total + n];
      var r := SendRun(packet[total + n..], replies[k + 1..]).value;
      assert packet[..total] + (rest[..n] + r.1) == packet[..total + n] + r.1;
    }
  }

  lemma SendBegins(packet: seq<byte>, replies: seq<SendReply>)
    ensures packet[0..] == packet && replies[0..] == replies && packet[..0] == [] && packet[|packet|..] == []
    ensures SendRun(packet, replies).Some? ==> [] + SendRun(packet, replies).value.1 == SendRun(packet, replies).value.1
    ensures SendRun([], replies) == Some((true, []))
  {
  }

  /** The sending loop. */
  method SendAll(packet: seq<byte>, replies: seq<SendReply>) returns (ok: bool, wire: seq<byte>)
    requires packet != [] && SendRun(packet, replies).Some?
    ensures Some((ok, wire)) == SendRun(packet, replies)
    ensures wire <= packet && (ok <==> wire == packet)
  {
    hide SendRun;
    wire := [];
    var total, k := 0, 0;
    SendBegins(packet, replies);
    while total < |packet|
      invariant 0 <= total <= |packet| && 0 <= k <= |replies| && wire == packet[..total]
      invariant SendRun(packet[total..], replies[k..]).Some?
      invariant var r := SendRun(packet[total..], replies[k..]).value;
                SendRun(packet, replies) == Some((r.0, wire + r.1))
      decreases |replies| - k
    {
      SendStep(packet, total, replies, k);
      match replies[k] {
        case SendOk(n) =>
          wire := wire + packet[total..total + n];
          total := total + n;
          k := k + 1;
        case _ =>
          return false, wire;
      }
    }
    SendBegins(packet, replies[k..]);
    assert wire + [] == wire == packet;
    ok := true;
  }
}
