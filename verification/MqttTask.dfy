/** The MQTT task of ebisu/kii/kii_mqtt_task.c: its states, its keep-alive estimate, and what it does
    with the connection, as functions of the answers that it gets. */
module MqttTask {
  import opened Text
  import opened MqttCodec
  import opened MqttPacket

  datatype TaskState =
    | InstallPush | GetEndpoint | SockConnect | SendConnect | RecvConnack | SendSubscribe | RecvSuback
    | RecvReady | RecvMsg | SendPingreq | Reconnect | ErrExit | Discontinued

  datatype TaskError = NoError | InstallationError | EndpointError | InsufficientBuff

  datatype Endpoint = Endpoint(topic: seq<byte>, user: seq<byte>, password: seq<byte>)

  /** Keep-alive interval and receive timeout in seconds, and the size of the MQTT buffer (0: none). */
  datatype Settings = Settings(keepAlive: nat, recvTimeout: nat, bufferSize: nat)

  datatype Task = Task(state: TaskState, error: TaskError, elapsed: nat, remaining: nat, endpoint: Endpoint) {
    function Go(s: TaskState): Task { this.(state := s) }
    function Ends(e: TaskError): Task { this.(state := ErrExit, error := e) }
    /** The connection has failed while it was in use. */
    function Fails(): Task { this.(state := Reconnect, elapsed := 0) }
  }

  const INIT := Task(InstallPush, NoError, 0, 0, Endpoint([], [], []))

  const WAIT_MS := 1000
  const ARRIVED_MSG_READ_TIME := 500
  const MSG_SEND_TIME := 500

  /** `unsigned int` */
  function Wrap32(n: int): nat { n % 0x1_0000_0000 }

  /** The answers that a state's handler gets from what it calls.  `sends` answers the sending loop; a
      missing header or body is a failed receive. */
  datatype Reply =
    | Installed(ok: bool, status: int)
    | Located(ok: bool, status: int, endpoint: Endpoint)
    | Dialed(ok: bool)
    | Sends(sends: seq<SendReply>)
    | Ack(header: Option<FixedHeader>, body: Option<seq<byte>>)
    | Arrived(header: Option<FixedHeader>, trashed: bool)
    | Message(ok: bool)
    | NoReply

  const PINGREQ: seq<byte> := [0xc0, 0x00]
  const QOS0: byte := 0

  function ConnectPacket(s: Settings, e: Endpoint): seq<byte> {
    Packet(CONNECT_BYTE, ConnectPayload(s.keepAlive, e.topic, e.user, e.password))
  }

  function SubscribePacket(e: Endpoint): seq<byte> { Packet(SUBSCRIBE_BYTE, SubscribePayload(e.topic, QOS0)) }

  predicate EndpointFits(s: Settings, e: Endpoint) { BufferFits(s.bufferSize, e.topic, e.user, e.password) }

  /** The type of a packet: `byte1 & 0xf0`. */
  function TypeOf(h: FixedHeader): int { var b: int := h.byte1; b / 16 * 16 }

  const CONNACK := 0x20
  const SUBACK := 0x90
  const PUBLISH := 0x30
  const PINGRESP := 0xD0

  /** Which answers fit which state.  Receiving no bytes at all counts as a failure, as the loops that
      would receive them are not entered. */
  predicate Suits(s: Settings, t: Task, r: Reply) {
    match t.state
    case InstallPush => r.Installed?
    case GetEndpoint => r.Located?
    case SockConnect => r.Dialed?
    case SendConnect =>
      if EndpointFits(s, t.endpoint) then r.Sends? && SendRun(ConnectPacket(s, t.endpoint), r.sends).Some? else r.NoReply?
    case RecvConnack => r.Ack? && (r.body.Some? ==> |r.body.value| == 2)
    case SendSubscribe => r.Sends? && SendRun(SubscribePacket(t.endpoint), r.sends).Some?
    case RecvSuback => r.Ack? && (r.body.Some? ==> |r.body.value| == 3)
    case RecvReady =>
      if t.elapsed > Threshold(s) then r.NoReply?
      else r.Arrived? && (r.header.Some? && r.header.value.remaining == 0 ==> !r.trashed)
    case RecvMsg => r.Message? && (t.remaining == 0 ==> !r.ok)
    case SendPingreq => r.Sends? && SendRun(PINGREQ, r.sends).Some?
    case Reconnect => r.NoReply?
    case _ => false
  }

  /** `thresh_ms`, compared as `unsigned int`. */
  function Threshold(s: Settings): nat { Wrap32((s.keepAlive - s.recvTimeout) * 1000) }

  /** A status of the server that is worth another try. */
  predicate Temporary(status: int) { 500 <= status < 600 || status == 429 }

  // ---------------------------------------------------------------------------------------------
  // The handlers

  function StepInstall(t: Task, ok: bool, status: int): Task {
    if ok then t.Go(GetEndpoint) else if Temporary(status) then t else t.Ends(InstallationError)
  }

  function StepEndpoint(t: Task, ok: bool, status: int, e: Endpoint): Task {
    if ok then t.(state := SockConnect, endpoint := e) else if Temporary(status) then t else t.Ends(EndpointError)
  }

  function StepSend(t: Task, ok: bool, next: TaskState): Task { t.Go(if ok then next else Reconnect) }

  function StepConnack(t: Task, h: Option<FixedHeader>, body: Option<seq<byte>>): Task
    requires body.Some? ==> |body.value| == 2
  {
    t.Go(if h.Some? && TypeOf(h.value) == CONNACK && body.Some? && body.value[1] == 0 then SendSubscribe else Reconnect)
  }

  function StepSuback(t: Task, h: Option<FixedHeader>, body: Option<seq<byte>>): Task
    requires body.Some? ==> |body.value| == 3
  {
    t.Go(if h.Some? && TypeOf(h.value) == SUBACK && body.Some?
            && body.value[0] == 0 && body.value[1] == 1 && body.value[2] != 0x80 then RecvReady else Reconnect)
  }

  function StepArrived(s: Settings, t: Task, h: Option<FixedHeader>, trashed: bool): Task {
    match h
    case None => t.(elapsed := Wrap32(t.elapsed + s.recvTimeout * 1000 + WAIT_MS))
    case Some(h) =>
      if TypeOf(h) == PUBLISH then
        t.(state := RecvMsg, remaining := h.remaining, elapsed := Wrap32(t.elapsed + s.recvTimeout * 1000))
      else if TypeOf(h) == PINGRESP then t.(elapsed := Wrap32(t.elapsed + ARRIVED_MSG_READ_TIME))
      else if trashed then t else t.Fails()
  }

  function StepMessage(s: Settings, t: Task, ok: bool): Task {
    if !ok then t.Fails()
    else
      t.(state := RecvReady,
         elapsed := Wrap32(t.elapsed + ARRIVED_MSG_READ_TIME + if t.remaining > s.bufferSize then WAIT_MS else 0))
  }

  function StepPingreq(t: Task, ok: bool): Task {
    if ok then t.(state := RecvReady, elapsed := MSG_SEND_TIME) else t.Fails()
  }

  function Step(s: Settings, t: Task, r: Reply): Task
    requires Suits(s, t, r)
  {
    match t.state
    case InstallPush => StepInstall(t, r.ok, r.status)
    case GetEndpoint => StepEndpoint(t, r.ok, r.status, if r.ok then r.endpoint else t.endpoint)
    case SockConnect => if r.ok then t.Go(SendConnect) else t
    case SendConnect =>
      if r.NoReply? then t.Ends(InsufficientBuff)
      else StepSend(t, SendRun(ConnectPacket(s, t.endpoint), r.sends).value.0, RecvConnack)
    case RecvConnack => StepConnack(t, r.header, r.body)
    case SendSubscribe => StepSend(t, SendRun(SubscribePacket(t.endpoint), r.sends).value.0, RecvSuback)
    case RecvSuback => StepSuback(t, r.header, r.body)
    case RecvReady => if r.NoReply? then t.Go(SendPingreq) else StepArrived(s, t, r.header, r.trashed)
    case RecvMsg => StepMessage(s, t, r.ok)
    case SendPingreq => StepPingreq(t, SendRun(PINGREQ, r.sends).value.0)
    case Reconnect => t.Go(SockConnect)
  }

  // ---------------------------------------------------------------------------------------------
  // What the broker has to say

  /** The bytes of a CONNACK with return code 0 (section 3.2 of the MQTT V3.1 specification). */
  predicate PositiveConnack(r: Reply) {
    && r.Ack? && r.header.Some? && (var b: int := r.header.value.byte1; 0x20 <= b <= 0x2f)
    && r.body.Some? && |r.body.value| == 2 && r.body.value[1] == 0
  }

  /** The bytes of a SUBACK for identifier 1 that does not report a failure (section 3.9). */
  predicate PositiveSuback(r: Reply) {
    && r.Ack? && r.header.Some? && (var b: int := r.header.value.byte1; 0x90 <= b <= 0x9f)
    && r.body.Some? && |r.body.value| == 3 && r.body.value[..2] == [0x00, 0x01] && r.body.value[2] != 0x80
  }

  /** The task goes on exactly on those bytes, and on any other answer connects anew. */
  lemma AcksDecide(s: Settings, t: Task, r: Reply)
    requires (t.state.RecvConnack? || t.state.RecvSuback?) && Suits(s, t, r)
    ensures t.state.RecvConnack? ==> Step(s, t, r) == t.Go(if PositiveConnack(r) then SendSubscribe else Reconnect)
    ensures t.state.RecvSuback? ==> Step(s, t, r) == t.Go(if PositiveSuback(r) then RecvReady else Reconnect)
  {
  }

  /** Exactly when the machine gives up, and with which error: on an answer of the server, while push is being set
      up, that is neither a server error (5xx) nor 429, and on a buffer in which CONNECT has no place. */
  lemma ErrorsDecide(s: Settings, t: Task, r: Reply)
    requires Suits(s, t, r) && t.error == NoError
    ensures var d, e := Step(s, t, r), t.endpoint;
            && (d.error == InstallationError <==>
                  t.state.InstallPush? && !r.ok && !(500 <= r.status <= 599) && r.status != 429)
            && (d.error == EndpointError <==>
                  t.state.GetEndpoint? && !r.ok && !(500 <= r.status <= 599) && r.status != 429)
            && (d.error == InsufficientBuff <==>
                  t.state.SendConnect? && s.bufferSize <= LastWrite(e.topic, e.user, e.password))
            && (d.state.ErrExit? <==> d.error != NoError)
  {
    hide SendRun, ConnectPacket, SubscribePacket, TypeOf, Threshold, Wrap32;
  }

  /** A header with that high nibble, and how much is to follow. */
  predicate Heads(r: Reply, nibble: int) {
    r.Arrived? && r.header.Some? && var b: int := r.header.value.byte1; 16 * nibble <= b <= 16 * nibble + 15
  }

  /** What becomes of an answer while the connection is in use: a PINGREQ is due once the estimate is above the
      threshold, and else a PUBLISH (3) announces a message of the length that its header gives, a PINGRESP (13)
      only counts, and anything else goes by, or is a failure when it cannot be read to its end. */
  lemma ReadyDecides(s: Settings, t: Task, r: Reply)
    requires t.state.RecvReady? && Suits(s, t, r)
    ensures var d := Step(s, t, r);
            && (d.state.SendPingreq? <==> t.elapsed > Threshold(s))
            && (d.state.RecvMsg? <==> t.elapsed <= Threshold(s) && Heads(r, 0x3))
            && (d.state.RecvMsg? ==> d.remaining == r.header.value.remaining)
            && (d.state.Reconnect? <==> t.elapsed <= Threshold(s) && r.header.Some? && !r.trashed
                                        && !Heads(r, 0x3) && !Heads(r, 0xD))
            && (!d.state.RecvMsg? && !d.state.SendPingreq? && !d.state.Reconnect? ==> d.state.RecvReady?)
  {
  }

  // ---------------------------------------------------------------------------------------------
  // Runs

  /** What can be seen from outside: attempts to connect and their success, bytes written, a positive
      CONNACK, a positive SUBACK for identifier 1, the push callback, closing, the exit callback. */
  datatype Event =
    | Connects(ok: bool) | Writes(data: seq<byte>) | Accepted | Subscribed | Pushes | Closes
    | Exits(state: TaskState, error: TaskError)

  function EventsOf(s: Settings, t: Task, r: Reply): seq<Event>
    requires Suits(s, t, r)
  {
    match t.state
    case SockConnect => [Connects(r.ok)]
    case SendConnect => if r.Sends? then [Writes(SendRun(ConnectPacket(s, t.endpoint), r.sends).value.1)] else []
    case SendSubscribe => [Writes(SendRun(SubscribePacket(t.endpoint), r.sends).value.1)]
    case SendPingreq => [Writes(SendRun(PINGREQ, r.sends).value.1)]
    case RecvConnack => if PositiveConnack(r) then [Accepted] else []
    case RecvSuback => if PositiveSuback(r) then [Subscribed] else []
    case RecvMsg => if r.ok && t.remaining <= s.bufferSize then [Pushes] else []
    case Reconnect => [Closes]
    case _ => []
  }

  /** A turn of the loop: the handler runs, or the application says not to go on. */
  datatype Turn = Handle(r: Reply) | Stop

  predicate Ended(t: Task) { t.state.ErrExit? || t.state.Discontinued? }

  predicate Runs(s: Settings, t: Task, turns: seq<Turn>)
    decreases |turns|
  {
    turns == [] ||
    (!Ended(t) && match turns[0]
                  case Stop => Runs(s, t.Go(Discontinued), turns[1..])
                  case Handle(r) => Suits(s, t, r) && Runs(s, Step(s, t, r), turns[1..]))
  }

  function TurnOf(s: Settings, t: Task, turn: Turn): Task
    requires turn.Handle? ==> Suits(s, t, turn.r)
  {
    match turn case Stop => t.Go(Discontinued) case Handle(r) => Step(s, t, r)
  }

  function After(s: Settings, t: Task, turns: seq<Turn>): Task
    requires Runs(s, t, turns)
    decreases |turns|
  {
    if turns == [] then t else After(s, TurnOf(s, t, turns[0]), turns[1..])
  }

  function Trace(s: Settings, t: Task, turns: seq<Turn>): seq<Event>
    requires Runs(s, t, turns)
    decreases |turns|
  {
    if turns == [] then []
    else (if turns[0].Handle? then EventsOf(s, t, turns[0].r) else []) + Trace(s, TurnOf(s, t, turns[0]), turns[1..])
  }

  // ---------------------------------------------------------------------------------------------
  // What may happen to the connection

  datatype Session = Down | Up | Accredited | Listening

  function SessionStep(x: Session, e: Event): Session {
    match e
    case Connects(ok) => if ok then Up else x
    case Writes(_) => x
    case Accepted => if x.Up? then Accredited else x
    case Subscribed => if x.Accredited? then Listening else x
    case Pushes => x
    case Closes => Down
    case Exits(_, _) => x
  }

  /** Connecting needs no connection, everything else one; the push callback needs one on which CONNACK
      and then SUBACK have come. */
  predicate Allowed(x: Session, e: Event) {
    match e
    case Connects(_) => x.Down?
    case Writes(_) => !x.Down?
    case Accepted => x.Up?
    case Subscribed => x.Accredited?
    case Pushes => x.Listening?
    case Closes => !x.Down?
    case Exits(_, _) => true
  }

  predicate Orderly(x: Session, trace: seq<Event>)
    decreases |trace|
  {
    trace == [] || (Allowed(x, trace[0]) && Orderly(SessionStep(x, trace[0]), trace[1..]))
  }

  function SessionAfter(x: Session, trace: seq<Event>): Session
    decreases |trace|
  {
    if trace == [] then x else SessionAfter(SessionStep(x, trace[0]), trace[1..])
  }

  lemma {:induction false} OrderlyConcat(x: Session, a: seq<Event>, b: seq<Event>)
    ensures Orderly(x, a + b) <==> Orderly(x, a) && Orderly(SessionAfter(x, a), b)
    ensures SessionAfter(x, a + b) == SessionAfter(SessionAfter(x, a), b)
    decreases |a|
  {
    if a == [] {
      assert a + b == b;
    } else {
      assert (a + b)[1..] == a[1..] + b;
      OrderlyConcat(SessionStep(x, a[0]), a[1..], b);
    }
  }

  // ---------------------------------------------------------------------------------------------
  // The invariant

  predicate Connecting(x: TaskState) {
    x.InstallPush? || x.GetEndpoint? || x.SockConnect? || x.SendConnect? || x.RecvConnack? || x.SendSubscribe?
      || x.RecvSuback?
    || x.Reconnect?
  }

  predicate InUse(x: TaskState) { x.RecvReady? || x.RecvMsg? || x.SendPingreq? }

  predicate SessionFits(x: Session, t: Task) {
    match t.state
    case InstallPush | GetEndpoint | SockConnect => x.Down?
    case SendConnect | RecvConnack => x.Up?
    case SendSubscribe | RecvSuback => x.Accredited?
    case RecvReady | RecvMsg | SendPingreq => x.Listening?
    case Reconnect => !x.Down?
    case _ => true
  }

  /** The check before CONNECT has been passed with this endpoint. */
  predicate Checked(s: Settings, t: Task) {
    t.state.RecvConnack? || t.state.SendSubscribe? || t.state.RecvSuback? || InUse(t.state) ==> EndpointFits(s, t.endpoint)
  }

  predicate Inv(s: Settings, t: Task, x: Session) {
    SessionFits(x, t) && Checked(s, t) && (t.error != NoError <==> t.state.ErrExit?)
  }

  lemma StepKeepsInv(s: Settings, t: Task, r: Reply, x: Session)
    requires Inv(s, t, x) && Suits(s, t, r) && !Ended(t)
    ensures Orderly(x, EventsOf(s, t, r)) && Inv(s, Step(s, t, r), SessionAfter(x, EventsOf(s, t, r)))
  {
    hide SendRun, ConnectPacket, SubscribePacket, TypeOf, Threshold, EndpointFits, Wrap32, PositiveConnack, PositiveSuback,
         StepConnack, StepSuback;
    if t.state.RecvConnack? || t.state.RecvSuback? { AcksDecide(s, t, r); }
    if EventsOf(s, t, r) != [] { assert EventsOf(s, t, r)[1..] == []; }
  }

  /** In every run: connecting is never tried while there is a connection; the push callback is called
      only when CONNACK and then SUBACK have come on the current connection; the run ends only in
      ERR_EXIT, which is where there is an error and only where there is one, or discontinued; and
      where SUBSCRIBE is sent, the check made before CONNECT still covers it. */
  lemma {:induction false} RunIsSafe(s: Settings, t: Task, turns: seq<Turn>, x: Session)
    requires Inv(s, t, x) && Runs(s, t, turns)
    ensures var d := After(s, t, turns);
            && Orderly(x, Trace(s, t, turns)) && Inv(s, d, SessionAfter(x, Trace(s, t, turns)))
            && (d.error != NoError <==> d.state.ErrExit?)
            && (d.state.SendSubscribe? ==> s.bufferSize >= 13 + |d.endpoint.topic|)
    decreases |turns|
  {
    hide Inv, Suits, Step, EventsOf, SessionAfter, Orderly;
    if turns == [] {
      InvMeans(s, t, x);
      EmptyTrace(x);
    } else {
      var events := if turns[0].Handle? then EventsOf(s, t, turns[0].r) else [];
      var d := TurnOf(s, t, turns[0]);
      if turns[0].Handle? { StepKeepsInv(s, t, turns[0].r, x); } else { EmptyTrace(x); StopKeepsInv(s, t, x); }
      RunIsSafe(s, d, turns[1..], SessionAfter(x, events));
      OrderlyConcat(x, events, Trace(s, d, turns[1..]));
    }
  }

  /** The task as the last turn finds it. */
  function AtLastTurn(s: Settings, t: Task, turns: seq<Turn>): Task
    requires Runs(s, t, turns) && turns != []
    decreases |turns|
  {
    if |turns| == 1 then t else AtLastTurn(s, TurnOf(s, t, turns[0]), turns[1..])
  }

  /** Nothing has been connected yet, or everything has been closed. */
  predicate Offline(x: TaskState) { x.InstallPush? || x.GetEndpoint? || x.SockConnect? }

  lemma LastTurnOpen(s: Settings, t: Task, turn: Turn, x: Session)
    requires Inv(s, t, x) && Runs(s, t, [turn]) && Ended(TurnOf(s, t, turn))
    ensures SessionAfter(x, Trace(s, t, [turn])) == x && (x.Down? <==> Offline(t.state))
  {
    hide SendRun, ConnectPacket, SubscribePacket, TypeOf, Threshold, EndpointFits, Wrap32;
    assert [turn][1..] == [];
  }

  /** Whether the connection is closed when a run ends: the loop leaves it as its last turn has found it,
      and it is open if and only if that turn was in a state behind connecting.  So stopping in such a
      state leaves it open, and so does a buffer that is too small for CONNECT. */
  lemma {:induction false} LeftOpen(s: Settings, t: Task, turns: seq<Turn>, x: Session)
    requires Inv(s, t, x) && Runs(s, t, turns) && turns != [] && Ended(After(s, t, turns))
    ensures SessionAfter(x, Trace(s, t, turns)).Down? <==> Offline(AtLastTurn(s, t, turns).state)
    ensures After(s, t, turns).error == InsufficientBuff ==> !SessionAfter(x, Trace(s, t, turns)).Down?
    decreases |turns|
  {
    hide Inv, Suits, Step, EventsOf, SessionAfter, Orderly, Offline;
    var turn := turns[0];
    if |turns| == 1 {
      assert turns == [turn] && turns[1..] == [];
      LastTurnOpen(s, t, turn, x);
      if After(s, t, turns).error == InsufficientBuff { BufferFoundConnected(s, t, turn, x); }
    } else {
      var events := if turn.Handle? then EventsOf(s, t, turn.r) else [];
      var d := TurnOf(s, t, turn);
      if turn.Handle? { StepKeepsInv(s, t, turn.r, x); } else { EmptyTrace(x); StopKeepsInv(s, t, x); }
      OrderlyConcat(x, events, Trace(s, d, turns[1..]));
      LeftOpen(s, d, turns[1..], SessionAfter(x, events));
    }
  }

  lemma BufferFoundConnected(s: Settings, t: Task, turn: Turn, x: Session)
    requires Inv(s, t, x) && Runs(s, t, [turn]) && TurnOf(s, t, turn).error == InsufficientBuff
    ensures !Offline(t.state)
  {
    hide SendRun, ConnectPacket, SubscribePacket, TypeOf, Threshold, EndpointFits, Wrap32;
  }

  /** The exit callback is not called while the loop runs. */
  lemma {:induction false} NoExitInside(s: Settings, t: Task, turns: seq<Turn>)
    requires Runs(s, t, turns)
    ensures forall k :: 0 <= k < |Trace(s, t, turns)| ==> !Trace(s, t, turns)[k].Exits?
    decreases |turns|
  {
    hide SendRun, ConnectPacket, SubscribePacket, StepConnack, StepSuback, StepArrived, StepMessage, TypeOf;
    if turns != [] {
      NoExitInside(s, TurnOf(s, t, turns[0]), turns[1..]);
    }
  }

  lemma InvMeans(s: Settings, t: Task, x: Session)
    requires Inv(s, t, x)
    ensures (t.error != NoError <==> t.state.ErrExit?)
            && (t.state.SendSubscribe? ==> s.bufferSize >= 13 + |t.endpoint.topic|)
  {
  }

  lemma EmptyTrace(x: Session)
    ensures Orderly(x, []) && SessionAfter(x, []) == x
  {
  }

  lemma StopKeepsInv(s: Settings, t: Task, x: Session)
    requires Inv(s, t, x) && !Ended(t)
    ensures Inv(s, t.Go(Discontinued), x)
  {
  }

  // ---------------------------------------------------------------------------------------------
  // Keep-alive

  /** The receive timeout is below the keep-alive interval, and no arithmetic wraps. */
  predicate Sensible(s: Settings) { s.recvTimeout < s.keepAlive <= 2_000_000 }

  /** The estimate is 0 while connecting, and bounded all the time. */
  predicate Bounded(s: Settings, t: Task) {
    && (Connecting(t.state) ==> t.elapsed == 0)
    && t.elapsed <= 1000 * s.keepAlive + 1500
    && (t.state.RecvMsg? ==> t.elapsed <= 1000 * s.keepAlive)
  }

  lemma StepKeepsBound(s: Settings, t: Task, r: Reply)
    requires Sensible(s) && Bounded(s, t) && Suits(s, t, r) && !Ended(t)
    ensures Bounded(s, Step(s, t, r))
  {
    hide SendRun, ConnectPacket, SubscribePacket, TypeOf, EndpointFits;
  }

  /** In every state of every run the estimate is at most the keep-alive interval and a second and a
      half, and 0 while connecting. */
  lemma {:induction false} KeepAliveBound(s: Settings, t: Task, turns: seq<Turn>)
    requires Sensible(s) && Bounded(s, t) && Runs(s, t, turns)
    ensures Bounded(s, After(s, t, turns))
    decreases |turns|
  {
    hide Suits, Step, Bounded, Sensible;
    if turns != [] {
      if turns[0].Handle? { StepKeepsBound(s, t, turns[0].r); } else { StopKeepsBound(s, t); }
      KeepAliveBound(s, TurnOf(s, t, turns[0]), turns[1..]);
    }
  }

  lemma StopKeepsBound(s: Settings, t: Task)
    requires Bounded(s, t)
    ensures Bounded(s, t.Go(Discontinued))
  {
  }

  lemma InitialTask(s: Settings)
    ensures Inv(s, INIT, Down) && Bounded(s, INIT)
  {
  }

  /** A turn between two PINGREQs when only PUBLISH and PINGRESP come, if anything, and no reconnect is
      needed. */
  predicate Calm(s: Settings, t: Task, turn: Turn) {
    && turn.Handle? && Suits(s, t, turn.r)
    && match t.state
       case RecvReady => t.elapsed <= Threshold(s) && (turn.r.header.None? || TypeOf(turn.r.header.value) == PUBLISH
                                                       || TypeOf(turn.r.header.value) == PINGRESP)
       case RecvMsg => turn.r.ok
       case _ => false
  }

  /** How many times a calm run receives. */
  function Passes(s: Settings, t: Task, turns: seq<Turn>): nat
    requires Runs(s, t, turns)
    decreases |turns|
  {
    if turns == [] then 0
    else (if t.state.RecvReady? then 1 else 0) + Passes(s, TurnOf(s, t, turns[0]), turns[1..])
  }

  predicate CalmRun(s: Settings, t: Task, turns: seq<Turn>)
    requires Runs(s, t, turns)
    decreases |turns|
  {
    turns == [] || (Calm(s, t, turns[0]) && CalmRun(s, TurnOf(s, t, turns[0]), turns[1..]))
  }

  lemma CalmStep(s: Settings, t: Task, turn: Turn)
    requires Sensible(s) && Bounded(s, t) && Calm(s, t, turn)
    ensures var d := TurnOf(s, t, turn);
            && (d.state.RecvReady? || d.state.RecvMsg?)
            && (t.state.RecvReady? ==> t.elapsed <= 1000 * (s.keepAlive - s.recvTimeout))
            && d.elapsed >= t.elapsed && (t.state.RecvReady? && d.state.RecvReady? ==> d.elapsed >= t.elapsed + 500)
            && (t.state.RecvMsg? ==> d.state.RecvReady? && d.elapsed >= t.elapsed + 500)
  {
    hide SendRun, ConnectPacket, SubscribePacket, TypeOf, EndpointFits;
  }

  /** Every pass makes the estimate grow by half a second or more, a message that has begun included. */
  lemma {:induction false} PassesCount(s: Settings, t: Task, turns: seq<Turn>)
    requires Sensible(s) && Bounded(s, t) && Runs(s, t, turns) && CalmRun(s, t, turns)
    requires t.state.RecvReady? || t.state.RecvMsg?
    ensures var n, more := Passes(s, t, turns), if t.state.RecvMsg? then 500 else 0;
            n > 0 ==> t.elapsed + more + 500 * (n - 1) <= 1000 * (s.keepAlive - s.recvTimeout)
    decreases |turns|
  {
    hide Suits, Step, Bounded, Calm;
    if turns != [] {
      CalmStep(s, t, turns[0]);
      assert Bounded(s, TurnOf(s, t, turns[0])) by { CalmBound(s, t, turns[0]); }
      PassesCount(s, TurnOf(s, t, turns[0]), turns[1..]);
    }
  }

  lemma CalmBound(s: Settings, t: Task, turn: Turn)
    requires Sensible(s) && Bounded(s, t) && Calm(s, t, turn)
    ensures Bounded(s, TurnOf(s, t, turn))
  {
    hide Suits, Step, Bounded;
    StepKeepsBound(s, t, turn.r);
  }

  /** After a PINGREQ, while only PUBLISH and PINGRESP come and no reconnect is needed, there are at most
      two receives per second of the interval's rest before the next PINGREQ. */
  lemma PingSpacing(s: Settings, t: Task, turns: seq<Turn>)
    requires Sensible(s) && t.state.RecvReady? && t.elapsed == MSG_SEND_TIME && Runs(s, t, turns) && CalmRun(s, t, turns)
    ensures Passes(s, t, turns) <= 2 * (s.keepAlive - s.recvTimeout)
  {
    PassesCount(s, t, turns);
  }

  /** How long a turn is taken to last at most, in milliseconds: a receive its timeout, or half a second for a
      packet that has come, every wait a second. */
  function Estimated(s: Settings, t: Task, r: Reply): nat {
    if t.state.RecvMsg? then 500 + if t.remaining > s.bufferSize then 1000 else 0
    else if Heads(r, 0x3) then 1000 * s.recvTimeout
    else if Heads(r, 0xD) then 500
    else 1000 * s.recvTimeout + 1000
  }

  /** No turn lasts longer. */
  predicate InTime(s: Settings, t: Task, turns: seq<Turn>, lasts: seq<nat>)
    requires Runs(s, t, turns)
    decreases |turns|
  {
    && |lasts| == |turns|
    && (turns != [] ==> (turns[0].Handle? ==> lasts[0] <= Estimated(s, t, turns[0].r))
                        && InTime(s, TurnOf(s, t, turns[0]), turns[1..], lasts[1..]))
  }

  function Sum(lasts: seq<nat>): nat { if lasts == [] then 0 else lasts[0] + Sum(lasts[1..]) }

  lemma CalmCounts(s: Settings, t: Task, turn: Turn)
    requires Sensible(s) && Bounded(s, t) && Calm(s, t, turn)
    ensures TurnOf(s, t, turn).elapsed == t.elapsed + Estimated(s, t, turn.r)
  {
    hide SendRun, ConnectPacket, SubscribePacket, EndpointFits;
  }

  /** The estimate is one from above: as long as no turn lasts longer than it is taken to, there has been a PINGREQ
      within the keep-alive interval and a second and a half, in every state of a run in which only PUBLISH and
      PINGRESP come and no reconnect is needed. */
  lemma {:induction false} PingInTime(s: Settings, t: Task, turns: seq<Turn>, lasts: seq<nat>)
    requires Sensible(s) && Bounded(s, t) && Runs(s, t, turns) && CalmRun(s, t, turns) && InTime(s, t, turns, lasts)
    ensures t.elapsed + Sum(lasts) <= After(s, t, turns).elapsed <= 1000 * s.keepAlive + 1500
    decreases |turns|
  {
    hide Suits, Step, Estimated, TypeOf, Threshold;
    if turns == [] {
      assert Sum(lasts) == 0;
    } else {
      CalmCounts(s, t, turns[0]);
      CalmBound(s, t, turns[0]);
      PingInTime(s, TurnOf(s, t, turns[0]), turns[1..], lasts[1..]);
    }
  }

  /** Packets of other types do not count: any number of them may be read and thrown away, and the machine
      comes no nearer to its next PINGREQ. */
  lemma {:induction false} OthersDoNotCount(s: Settings, t: Task, h: FixedHeader, n: nat)
    requires t.state.RecvReady? && t.elapsed <= Threshold(s)
    requires TypeOf(h) != PUBLISH && TypeOf(h) != PINGRESP && h.remaining > 0
    ensures var turns := seq(n, i => Handle(Arrived(Some(h), true)));
            Runs(s, t, turns) && After(s, t, turns) == t
    decreases n
  {
    hide TypeOf, Threshold;
    var turn := Handle(Arrived(Some(h), true));
    var turns := seq(n, i => turn);
    if n > 0 {
      OthersDoNotCount(s, t, h, n - 1);
      assert turns[1..] == seq(n - 1, i => turn);
      assert TurnOf(s, t, turn) == t;
    }
  }
}
