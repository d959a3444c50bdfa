/** The MQTT task itself: the fields and handlers of ebisu/kii/kii_mqtt_task.c, proved to take the
    steps of MqttTask.dfy. */
module MqttClient {
  import opened Text
  import opened MqttCodec
  import opened MqttPacket
  import opened MqttTask

  class Mqtt {
    const keepAlive: nat
    const recvTimeout: nat
    const buffer: array<byte>

    var state: TaskState
    var error: TaskError
    var elapsed: nat
    var remaining: nat
    var endpoint: Endpoint

    function Config(): Settings { Settings(keepAlive, recvTimeout, buffer.Length) }

    function Abs(): Task
      reads this
    {
      Task(state, error, elapsed, remaining, endpoint)
    }

    /** `_init_mqtt_state`; a missing buffer is one of size 0. */
    constructor (keepAlive: nat, recvTimeout: nat, buffer: array<byte>)
      ensures Abs() == INIT && Config() == Settings(keepAlive, recvTimeout, buffer.Length) && this.buffer == buffer
    {
      this.keepAlive, this.recvTimeout, this.buffer := keepAlive, recvTimeout, buffer;
      state, error, elapsed, remaining, endpoint := InstallPush, NoError, 0, 0, Endpoint([], [], []);
    }

    method Exit(e: TaskError)
      modifies this`state, this`error
      ensures Abs() == old(Abs()).Ends(e)
    {
      error := e;
      state := ErrExit;
    }

    method ConnectionFails()
      modifies this`state, this`elapsed
      ensures Abs() == old(Abs()).Fails()
    {
      elapsed := 0;
      state := Reconnect;
    }

    /** `_mqtt_state_install_push` */
    method HandleInstall(ok: bool, status: int)
      modifies this`state, this`error
      ensures Abs() == StepInstall(old(Abs()), ok, status)
    {
      if !ok {
        if !Temporary(status) { Exit(InstallationError); }
      } else {
        state := GetEndpoint;
      }
    }

    /** `_mqtt_state_get_endpoint` */
    method HandleEndpoint(ok: bool, status: int, e: Endpoint)
      modifies this`state, this`error, this`endpoint
      ensures Abs() == StepEndpoint(old(Abs()), ok, status, e)
    {
      if !ok {
        if !Temporary(status) { Exit(EndpointError); }
      } else {
        endpoint := e;
        state := SockConnect;
      }
    }

    /** `_mqtt_state_send_connect`: the packet is put together in the buffer and sent. */
    method HandleSendConnect(r: Reply) returns (events: seq<Event>)
      requires state.SendConnect? && Suits(Config(), Abs(), r)
      modifies this`state, this`error, buffer
      ensures Abs() == Step(Config(), old(Abs()), r) && events == EventsOf(Config(), old(Abs()), r)
    {
      hide SendRun, ConnectPayload, Packet;
      if buffer.Length < 27 + |endpoint.topic| + |endpoint.user| + |endpoint.password| {
        Exit(InsufficientBuff);
        return [];
      }
      var j, _ := AssembleConnect(buffer, keepAlive, endpoint.topic, endpoint.user, endpoint.password);
      var packet := buffer[..j];
      PacketNotEmpty(CONNECT_BYTE, ConnectPayload(keepAlive, endpoint.topic, endpoint.user, endpoint.password));
      var ok, wire := SendAll(packet, r.sends);
      events := [Writes(wire)];
      state := if ok then RecvConnack else Reconnect;
    }

    /** `_mqtt_state_recv_connack` */
    method HandleConnack(h: Option<FixedHeader>, body: Option<seq<byte>>)
      requires body.Some? ==> |body.value| == 2
      modifies this`state
      ensures Abs() == StepConnack(old(Abs()), h, body)
    {
      if h.None? || TypeOf(h.value) != CONNACK || body.None? {
        state := Reconnect;
        return;
      }
      state := if body.value[1] != 0 then Reconnect else SendSubscribe;
    }

    /** `_mqtt_state_send_subscribe`: no check of its own. */
    method HandleSendSubscribe(sends: seq<SendReply>) returns (events: seq<Event>)
      requires state.SendSubscribe? && SendRun(SubscribePacket(endpoint), sends).Some? && EndpointFits(Config(), endpoint)
      modifies this`state, buffer
      ensures Abs() == Step(Config(), old(Abs()), Sends(sends)) && events == EventsOf(Config(), old(Abs()), Sends(sends))
    {
      hide SendRun, SubscribePayload, Packet;
      var j := AssembleSubscribe(buffer, endpoint.topic, QOS0);
      var packet := buffer[..j];
      PacketNotEmpty(SUBSCRIBE_BYTE, SubscribePayload(endpoint.topic, QOS0));
      var ok, wire := SendAll(packet, sends);
      events := [Writes(wire)];
      state := if ok then RecvSuback else Reconnect;
    }

    /** `_mqtt_state_recv_suback` */
    method HandleSuback(h: Option<FixedHeader>, body: Option<seq<byte>>)
      requires body.Some? ==> |body.value| == 3
      modifies this`state
      ensures Abs() == StepSuback(old(Abs()), h, body)
    {
      if h.None? || TypeOf(h.value) != SUBACK || body.None? {
        state := Reconnect;
        return;
      }
      state := if body.value[0] == 0 && body.value[1] == 1 && body.value[2] != 0x80 then RecvReady else Reconnect;
    }

    /** `_mqtt_state_recv_ready` */
    method HandleReady(r: Reply)
      requires state.RecvReady? && Suits(Config(), Abs(), r)
      modifies this`state, this`elapsed, this`remaining
      ensures Abs() == Step(Config(), old(Abs()), r)
    {
      hide TypeOf, Wrap32;
      if elapsed > Threshold(Config()) {
        state := SendPingreq;
        return;
      }
      if r.header.Some? {
        var h := r.header.value;
        if TypeOf(h) == PUBLISH {
          remaining := h.remaining;
          state := RecvMsg;
          elapsed := Wrap32(elapsed + recvTimeout * 1000);
        } else if TypeOf(h) == PINGRESP {
          elapsed := Wrap32(elapsed + ARRIVED_MSG_READ_TIME);
        } else if !r.trashed {
          ConnectionFails();
        }
      } else {
        elapsed := Wrap32(elapsed + recvTimeout * 1000 + WAIT_MS);
      }
    }

    /** `_mqtt_state_recv_msg`: a message that is too long is thrown away. */
    method HandleMessage(ok: bool) returns (events: seq<Event>)
      modifies this`state, this`elapsed
      ensures Abs() == StepMessage(Config(), old(Abs()), ok)
      ensures events == if ok && old(remaining) <= buffer.Length then [Pushes] else []
    {
      hide Wrap32;
      events := [];
      if remaining > buffer.Length {
        if !ok {
          ConnectionFails();
        } else {
          elapsed := Wrap32(elapsed + ARRIVED_MSG_READ_TIME + WAIT_MS);
          state := RecvReady;
        }
      } else {
        if !ok {
          ConnectionFails();
        } else {
          elapsed := Wrap32(elapsed + ARRIVED_MSG_READ_TIME + 0);
          events := [Pushes];
          state := RecvReady;
        }
      }
    }

    /** `_mqtt_state_send_pingreq` */
    method HandlePingreq(sends: seq<SendReply>) returns (events: seq<Event>)
      requires state.SendPingreq? && SendRun(PINGREQ, sends).Some?
      modifies this`state, this`elapsed
      ensures Abs() == Step(Config(), old(Abs()), Sends(sends)) && events == EventsOf(Config(), old(Abs()), Sends(sends))
    {
      hide SendRun;
      var ok, wire := SendAll(PINGREQ, sends);
      events := [Writes(wire)];
      if !ok {
        ConnectionFails();
      } else {
        elapsed := MSG_SEND_TIME;
        state := RecvReady;
      }
    }

    /** `mqtt_state_handlers[state.info.task_state]` */
    method HandleState(r: Reply, ghost x: Session) returns (events: seq<Event>)
      requires Inv(Config(), Abs(), x) && !Ended(Abs()) && Suits(Config(), Abs(), r)
      modifies this, buffer
      ensures Abs() == Step(Config(), old(Abs()), r) && events == EventsOf(Config(), old(Abs()), r)
    {
      hide SendRun, ConnectPacket, SubscribePacket, StepInstall, StepEndpoint, StepConnack, StepSuback,
           StepMessage, StepArrived,
           BufferFits, Threshold;
      events := [];
      match state {
        case InstallPush => HandleInstall(r.ok, r.status);
        case GetEndpoint => HandleEndpoint(r.ok, r.status, if r.ok then r.endpoint else endpoint);
        case SockConnect =>
          events := [Connects(r.ok)];
          if r.ok { state := SendConnect; }
        case SendConnect => events := HandleSendConnect(r);
        case RecvConnack =>
          HandleConnack(r.header, r.body);
          AcksDecide(Config(), old(Abs()), r);
          if state == SendSubscribe { events := [Accepted]; }
        case SendSubscribe => events := HandleSendSubscribe(r.sends);
        case RecvSuback =>
          HandleSuback(r.header, r.body);
          AcksDecide(Config(), old(Abs()), r);
          if state == RecvReady { events := [Subscribed]; }
        case RecvReady => HandleReady(r);
        case RecvMsg => events := HandleMessage(r.ok);
        case SendPingreq => events := HandlePingreq(r.sends);
        case Reconnect =>
          events := [Closes];
          state := SockConnect;
      }
    }

    /** `mqtt_start_task`: the loop, and after it, once, the exit callback if there is one.  A `Stop` among
        the turns is the application's answer not to go on. */
    method Run(turns: seq<Turn>, hasExit: bool) returns (trace: seq<Event>)
      requires Abs() == INIT && MqttTask.Runs(Config(), INIT, turns) && Ended(After(Config(), INIT, turns))
      modifies this, buffer
      ensures Abs() == After(Config(), INIT, turns)
      ensures trace == Trace(Config(), INIT, turns) + if hasExit then [Exits(state, error)] else []
      ensures forall k :: 0 <= k < |trace| && trace[k].Exits? ==> hasExit && k == |trace| - 1
      ensures Orderly(Down, trace)
      ensures state.ErrExit? || state.Discontinued?
      ensures error != NoError <==> state.ErrExit?
    {
      hide Step, Suits, EventsOf, Inv, SessionAfter, Orderly;
      trace := [];
      ghost var x, s := Down, Config();
      InitialTask(s);
      var i := 0;
      assert turns[0..] == turns;
      assert Trace(s, INIT, turns) == [] + Trace(s, INIT, turns);
      while !state.ErrExit? && !state.Discontinued?
        invariant 0 <= i <= |turns| && Config() == s && Inv(s, Abs(), x)
        invariant MqttTask.Runs(s, Abs(), turns[i..]) && After(s, Abs(), turns[i..]) == After(s, INIT, turns)
        invariant Trace(s, INIT, turns) == trace + Trace(s, Abs(), turns[i..])
        decreases |turns| - i
      {
        assert turns[i..] != [] && turns[i..][1..] == turns[i + 1..];
        match turns[i] {
          case Stop =>
            StopKeepsInv(s, Abs(), x);
            RegroupTrace(trace, [], Trace(s, Abs().Go(Discontinued), turns[i + 1..]));
            state := Discontinued;
          case Handle(r) =>
            StepKeepsInv(s, Abs(), r, x);
            ghost var t := Abs();
            var events := HandleState(r, x);
            RegroupTrace(trace, events, Trace(s, Abs(), turns[i + 1..]));
            trace := trace + events;
            x := SessionAfter(x, EventsOf(s, t, r));
        }
        i := i + 1;
      }
      NothingAfter(s, Abs(), turns[i..], trace);
      RunIsSafe(s, INIT, turns, Down);
      NoExitInside(s, INIT, turns);
      if hasExit {
        ExitInOrder(trace, state, error);
        trace := trace + [Exits(state, error)];
      }
    }
  }

  lemma RegroupTrace(a: seq<Event>, b: seq<Event>, c: seq<Event>)
    ensures a + (b + c) == a + b + c && a + [] == a
  {
  }

  lemma NothingAfter(s: Settings, t: Task, turns: seq<Turn>, trace: seq<Event>)
    requires MqttTask.Runs(s, t, turns) && Ended(t)
    ensures After(s, t, turns) == t && trace + Trace(s, t, turns) == trace
  {
  }

  lemma ExitInOrder(trace: seq<Event>, state: TaskState, error: TaskError)
    requires Orderly(Down, trace)
    ensures Orderly(Down, trace + [Exits(state, error)])
  {
    OrderlyConcat(Down, trace, [Exits(state, error)]);
    assert [Exits(state, error)][1..] == [];
  }

  lemma PacketNotEmpty(b: byte, payload: seq<byte>)
    ensures Packet(b, payload) != []
  {
  }
}
