/** What has come and gone over the connection before a message is pushed: the turns of a run, and the bytes
    that they have sent and received. */
module MqttSession {
  import opened Text
  import opened MqttCodec
  import opened MqttPacket
  import opened MqttTask

  /** The task as the `k`-th turn of a run finds it. */
  function At(s: Settings, turns: seq<Turn>, k: nat): Task
    requires Runs(s, INIT, turns) && k <= |turns|
  {
    BeginningRuns(s, INIT, turns, k);
    After(s, INIT, turns[..k])
  }

  lemma {:induction false} BeginningRuns(s: Settings, t: Task, turns: seq<Turn>, k: nat)
    requires Runs(s, t, turns) && k <= |turns|
    ensures Runs(s, t, turns[..k])
    ensures k < |turns| ==>
              var d := After(s, t, turns[..k]);
              !Ended(d) && (turns[k].Handle? ==> Suits(s, d, turns[k].r))
    ensures k < |turns| ==> Runs(s, t, turns[..k + 1])
                            && After(s, t, turns[..k + 1]) == TurnOf(s, After(s, t, turns[..k]), turns[k])
    decreases k
  {
    hide Suits, Step;
    if k > 0 {
      var d := TurnOf(s, t, turns[0]);
      BeginningRuns(s, d, turns[1..], k - 1);
      assert turns[..k][1..] == turns[1..][..k - 1];
      if k < |turns| { assert turns[..k + 1][1..] == turns[1..][..k]; }
    } else if turns != [] {
      assert turns[..1][1..] == [];
    }
  }

  // ---------------------------------------------------------------------------------------------
  // The five turns that open a connection

  /** A connection has been made. */
  predicate Dialed(s: Settings, turns: seq<Turn>, k: nat)
    requires Runs(s, INIT, turns) && k < |turns|
  {
    At(s, turns, k).state.SockConnect? && turns[k] == Handle(MqttTask.Dialed(true))
  }

  /** All of CONNECT has been accepted by the socket. */
  predicate ConnectSent(s: Settings, turns: seq<Turn>, k: nat)
    requires Runs(s, INIT, turns) && k < |turns|
  {
    && At(s, turns, k).state.SendConnect? && turns[k].Handle? && turns[k].r.Sends?
    && var packet := ConnectPacket(s, At(s, turns, k).endpoint); SendRun(packet, turns[k].r.sends) == Some((true, packet))
  }

  predicate ConnackCame(s: Settings, turns: seq<Turn>, k: nat)
    requires Runs(s, INIT, turns) && k < |turns|
  {
    At(s, turns, k).state.RecvConnack? && turns[k].Handle? && PositiveConnack(turns[k].r)
  }

  /** All of SUBSCRIBE has been accepted by the socket. */
  predicate SubscribeSent(s: Settings, turns: seq<Turn>, k: nat)
    requires Runs(s, INIT, turns) && k < |turns|
  {
    && At(s, turns, k).state.SendSubscribe? && turns[k].Handle? && turns[k].r.Sends?
    && var packet := SubscribePacket(At(s, turns, k).endpoint); SendRun(packet, turns[k].r.sends) == Some((true, packet))
  }

  predicate SubackCame(s: Settings, turns: seq<Turn>, k: nat)
    requires Runs(s, INIT, turns) && k < |turns|
  {
    At(s, turns, k).state.RecvSuback? && turns[k].Handle? && PositiveSuback(turns[k].r)
  }

  /** The first `n` of these five turns are those from the `i`-th on. */
  predicate Opening(s: Settings, turns: seq<Turn>, i: nat, n: nat)
    requires Runs(s, INIT, turns) && n <= 5 && i + n <= |turns|
  {
    && (n >= 1 ==> Dialed(s, turns, i))
    && (n >= 2 ==> ConnectSent(s, turns, i + 1))
    && (n >= 3 ==> ConnackCame(s, turns, i + 2))
    && (n >= 4 ==> SubscribeSent(s, turns, i + 3))
    && (n >= 5 ==> SubackCame(s, turns, i + 4))
  }

  /** The connection in use has been opened by the five turns from `i` on, and nothing has closed it. */
  predicate OpenedAt(s: Settings, turns: seq<Turn>, i: nat, k: nat)
    requires Runs(s, INIT, turns) && i + 5 <= k <= |turns|
  {
    Opening(s, turns, i, 5) && forall n :: i + 5 <= n < k ==> InUse(At(s, turns, n).state)
  }

  /** What must have happened before the `k`-th turn. */
  ghost predicate History(s: Settings, turns: seq<Turn>, k: nat)
    requires Runs(s, INIT, turns) && k <= |turns|
  {
    match At(s, turns, k).state
    case SendConnect => k >= 1 && Opening(s, turns, k - 1, 1)
    case RecvConnack => k >= 2 && Opening(s, turns, k - 2, 2)
    case SendSubscribe => k >= 3 && Opening(s, turns, k - 3, 3)
    case RecvSuback => k >= 4 && Opening(s, turns, k - 4, 4)
    case RecvReady | RecvMsg | SendPingreq => exists i: nat :: i + 5 <= k && OpenedAt(s, turns, i, k)
    case _ => true
  }

  /** A packet that has been sent has been sent whole. */
  lemma {:induction false} SentWhole(packet: seq<byte>, sends: seq<SendReply>)
    requires SendRun(packet, sends).Some? && SendRun(packet, sends).value.0
    ensures SendRun(packet, sends).value.1 == packet
    decreases |sends|
  {
    if packet != [] {
      var n := sends[0].n;
      SentWhole(packet[n..], sends[1..]);
      assert packet[..n] + packet[n..] == packet;
    }
  }

  /** How one turn leads on, by the state that it leads to. */
  lemma TurnLeads(s: Settings, t: Task, turn: Turn)
    requires !Ended(t) && (turn.Handle? ==> Suits(s, t, turn.r))
    ensures var d := TurnOf(s, t, turn);
            match d.state
            case SendConnect => t.state.SockConnect? && turn == Handle(MqttTask.Dialed(true))
            case RecvConnack =>
              t.state.SendConnect? && turn.Handle? && turn.r.Sends?
              && var packet := ConnectPacket(s, t.endpoint); SendRun(packet, turn.r.sends) == Some((true, packet))
            case SendSubscribe => t.state.RecvConnack? && turn.Handle? && PositiveConnack(turn.r)
            case RecvSuback =>
              t.state.SendSubscribe? && turn.Handle? && turn.r.Sends?
              && var packet := SubscribePacket(t.endpoint); SendRun(packet, turn.r.sends) == Some((true, packet))
            case RecvReady => InUse(t.state) || (t.state.RecvSuback? && turn.Handle? && PositiveSuback(turn.r))
            case RecvMsg | SendPingreq => InUse(t.state)
            case _ => true
  {
    hide SendRun, ConnectPacket, SubscribePacket, PositiveConnack, PositiveSuback, StepConnack, StepSuback, TypeOf,
         Threshold, EndpointFits, Wrap32;
    if turn.Handle? {
      if t.state.RecvConnack? || t.state.RecvSuback? { AcksDecide(s, t, turn.r); }
      if t.state.SendConnect? && turn.r.Sends? && SendRun(ConnectPacket(s, t.endpoint), turn.r.sends).value.0 {
        SentWhole(ConnectPacket(s, t.endpoint), turn.r.sends);
      }
      if t.state.SendSubscribe? && SendRun(SubscribePacket(t.endpoint), turn.r.sends).value.0 {
        SentWhole(SubscribePacket(t.endpoint), turn.r.sends);
      }
    }
  }

  lemma HistoryStep(s: Settings, turns: seq<Turn>, k: nat)
    requires Runs(s, INIT, turns) && k < |turns| && History(s, turns, k)
    ensures History(s, turns, k + 1)
  {
    hide SendRun, ConnectPacket, SubscribePacket, PositiveConnack, PositiveSuback, Suits, Step, Runs, After;
    BeginningRuns(s, INIT, turns, k);
    var t, d := At(s, turns, k), At(s, turns, k + 1);
    TurnLeads(s, t, turns[k]);
    if InUse(d.state) {
      if InUse(t.state) {
        var i: nat :| i + 5 <= k && OpenedAt(s, turns, i, k);
        assert OpenedAt(s, turns, i, k + 1);
      } else {
        assert OpenedAt(s, turns, k - 4, k + 1);
      }
    }
  }

  lemma {:induction false} RunHistory(s: Settings, turns: seq<Turn>, k: nat)
    requires Runs(s, INIT, turns) && k <= |turns|
    ensures History(s, turns, k)
    decreases k
  {
    hide History;
    if k == 0 {
      NoHistory(s, turns);
    } else {
      RunHistory(s, turns, k - 1);
      HistoryStep(s, turns, k - 1);
    }
  }

  lemma NoHistory(s: Settings, turns: seq<Turn>)
    requires Runs(s, INIT, turns)
    ensures History(s, turns, 0)
  {
  }

  /** Where the push callback is called, in any run: five turns in a row have made a connection, sent all of
      CONNECT, received a positive CONNACK, sent all of SUBSCRIBE and received a positive SUBACK, and since
      then that connection has been in use. */
  lemma PushNeedsAcks(s: Settings, turns: seq<Turn>, k: nat)
    requires Runs(s, INIT, turns) && k < |turns| && turns[k].Handle?
    requires Suits(s, At(s, turns, k), turns[k].r) && Pushes in EventsOf(s, At(s, turns, k), turns[k].r)
    ensures exists i: nat :: i + 5 <= k && OpenedAt(s, turns, i, k)
  {
    hide SendRun, ConnectPacket, SubscribePacket, PositiveConnack, PositiveSuback, Suits, Step, Runs, After, OpenedAt;
    RunHistory(s, turns, k);
  }

  /** And the turn just before has received the header of a PUBLISH, whose message fits the buffer. */
  lemma PushNeedsPublish(s: Settings, turns: seq<Turn>, k: nat)
    requires Runs(s, INIT, turns) && k < |turns| && turns[k].Handle?
    requires Suits(s, At(s, turns, k), turns[k].r) && Pushes in EventsOf(s, At(s, turns, k), turns[k].r)
    ensures At(s, turns, k).state.RecvMsg? && turns[k].r.ok
    ensures k > 0 && turns[k - 1].Handle? && Heads(turns[k - 1].r, 0x3)
            && turns[k - 1].r.header.value.remaining <= s.bufferSize
  {
    hide SendRun, ConnectPacket, SubscribePacket, PositiveConnack, PositiveSuback, Suits, Step, Runs, After, Heads;
    var t := At(s, turns, k);
    assert t.state.RecvMsg?;
    if k == 0 { StartsElsewhere(s, turns); }
    BeginningRuns(s, INIT, turns, k - 1);
    MessageAnnounced(s, At(s, turns, k - 1), turns[k - 1]);
  }

  lemma StartsElsewhere(s: Settings, turns: seq<Turn>)
    requires Runs(s, INIT, turns)
    ensures !At(s, turns, 0).state.RecvMsg?
  {
  }

  lemma MessageAnnounced(s: Settings, t: Task, turn: Turn)
    requires !Ended(t) && (turn.Handle? ==> Suits(s, t, turn.r)) && TurnOf(s, t, turn).state.RecvMsg?
    ensures turn.Handle? && Heads(turn.r, 0x3) && TurnOf(s, t, turn).remaining == turn.r.header.value.remaining
  {
    hide SendRun, ConnectPacket, SubscribePacket, PositiveConnack, PositiveSuback, StepConnack, StepSuback, TypeOf,
         Threshold, EndpointFits, Wrap32, Heads;
    if t.state.RecvReady? && turn.Handle? { ReadyDecides(s, t, turn.r); }
    if t.state.RecvConnack? || t.state.RecvSuback? { AcksDecide(s, t, turn.r); }
  }

  /** What the peer reads in the packets of such an opening: who connects, for how long and with which
      credentials, and that the client's own topic is subscribed to at most once. */
  lemma PacketsRead(s: Settings, e: Endpoint)
    requires s.keepAlive < 65536 && |e.topic| < 65536 && |e.user| < 65536 && |e.password| < 65536
    ensures var c := ReadPacket(ConnectPacket(s, e), 0x10);
            c.Some? && ReadConnectPayload(c.value) == Some(Connect(s.keepAlive, e.topic, e.user, e.password))
    ensures var b := ReadPacket(SubscribePacket(e), 0x82);
            b.Some? && ReadSubscribePayload(b.value) == Some((1, e.topic, 0))
    ensures ReadPacket(PINGREQ, 0xc0) == Some([])
  {
    hide Packet, ReadConnectPayload, ReadSubscribePayload, ConnectPayload, SubscribePayload;
    ConnectRead(s.keepAlive, e.topic, e.user, e.password);
    SubscribeRead(e.topic, 0);
    EmptyPacket();
  }

  lemma EmptyPacket()
    ensures ReadPacket(PINGREQ, 0xc0) == Some([])
  {
    assert PINGREQ[1..] == [0x00];
    assert PINGREQ[2..] == [];
  }
}
