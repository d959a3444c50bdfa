/** A call of the kii API as a whole: the client of KhcClient.dfy with the callbacks of KiiBuffer.dfy
    (ebisu/kii/kii_api_call.c, ebisu/kii/kii.c). */
module KiiApi {
  import opened Text
  import opened KhcText
  import opened KhcMachine
  import opened KhcRun
  import opened KhcBlame
  import opened KhcSend
  import opened KhcChunk
  import opened KhcResponse
  import opened KhcDelivery
  import opened KhcClient
  import opened KiiBuffer
  import opened KiiRequest

  // ---------------------------------------------------------------------------------------------
  // The callbacks as a function of what they have done so far

  /** The request body and how much of it has been read, the size of the buffer, what has been written
      into it, and whether the write callback has been called at all. */
  datatype Mem = Mem(body: string, pos: nat, size: nat, response: string, touched: bool)

  /** The answer to a call: reading, writing and header lines are answered by the kii callbacks, anything
      else by `e`, the socket or the allocator. */
  function KiiReply(m: Mem, call: Call, e: Reply): Reply
    requires m.pos <= |m.body|
  {
    match call
    case Read(max) => Provided(NextPart(m.body, m.pos, max))
    case Write(data) => Taken(if |m.response| + |data| <= m.size then |data| else 0)
    case TellHeader(line) => Taken(|line|)
    case _ => e
  }

  function MemAfter(m: Mem, call: Call): (m1: Mem)
    requires m.pos <= |m.body|
    ensures m1.pos <= |m1.body| && m1.body == m.body && m1.size == m.size
  {
    match call
    case Read(max) => m.(pos := m.pos + |NextPart(m.body, m.pos, max)|)
    case Write(data) =>
      m.(response := if |m.response| + |data| <= m.size then m.response + data else m.response, touched := true)
    case _ => m
  }

  /** With these answers of the socket and the allocator, one per handler call, the run comes to its end. */
  ghost predicate Served(c: C, m: Mem, env: seq<Reply>)
    requires m.pos <= |m.body|
    decreases |env|
  {
    if c.k.phase.Finished? then env == []
    else
      && env != [] && Defined(c.k) && CanStep(c, KiiReply(m, CallOf(c.k), env[0]))
      && Served(Next(c, KiiReply(m, CallOf(c.k), env[0])), MemAfter(m, CallOf(c.k)), env[1..])
  }

  /** All the answers of that run. */
  ghost function Replies(c: C, m: Mem, env: seq<Reply>): (rs: seq<Reply>)
    requires m.pos <= |m.body| && Served(c, m, env)
    ensures |rs| == |env|
    decreases |env|
  {
    if env == [] then []
    else
      var r := KiiReply(m, CallOf(c.k), env[0]);
      [r] + Replies(Next(c, r), MemAfter(m, CallOf(c.k)), env[1..])
  }

  /** They are a run in which the read callback hands out the body, and which has ended. */
  lemma {:induction false} RepliesRun(c: C, m: Mem, env: seq<Reply>)
    requires m.pos <= |m.body| && Served(c, m, env)
    ensures var rs := Replies(c, m, env);
            Runs(c, rs) && Feeds(c, rs, m.body, m.pos) && After(c, rs).k.phase.Finished?
    decreases |env|
  {
    hide Step, Advance, CallOf, Defined, NextPart;
    if env != [] {
      var r := KiiReply(m, CallOf(c.k), env[0]);
      RepliesRun(Next(c, r), MemAfter(m, CallOf(c.k)), env[1..]);
      assert Replies(c, m, env)[1..] == Replies(Next(c, r), MemAfter(m, CallOf(c.k)), env[1..]);
    }
  }

  // ---------------------------------------------------------------------------------------------
  // Beginnings of a run

  lemma {:induction false} OneMoreStep(c: C, rs: seq<Reply>, i: nat)
    requires Runs(c, rs) && i < |rs| && Runs(c, rs[..i]) && CanStep(After(c, rs[..i]), rs[i])
    ensures Runs(c, rs[..i + 1]) && After(c, rs[..i + 1]) == Next(After(c, rs[..i]), rs[i])
    ensures SawEnd(c, rs[..i]) ==> SawEnd(c, rs[..i + 1])
    decreases i
  {
    hide CanStep, Next;
    if i > 0 {
      assert rs[..i][1..] == rs[1..][..i - 1] && rs[..i + 1][1..] == rs[1..][..i];
      OneMoreStep(Next(c, rs[0]), rs[1..], i - 1);
    } else {
      assert rs[..1][1..] == [];
    }
  }

  /** Within the first `i` answers the read callback has said that the request body is over. */
  ghost predicate EndSeen(c: C, rs: seq<Reply>, i: nat) {
    i <= |rs| && Runs(c, rs[..i]) && SawEnd(c, rs[..i])
  }

  // ---------------------------------------------------------------------------------------------
  // One call

  /** The object does what `m` says. */
  ghost predicate Holds(kii: Kii, m: Mem)
    reads kii, kii.rwBuff
  {
    && kii.Valid() && m.size == kii.rwBuff.Length && kii.read == m.pos <= |m.body| && kii.Response() == m.response
    && (!m.touched ==> kii.Body() == m.body)
  }

  /** The buffers are four different things. */
  ghost predicate Separate(kii: Kii, khc: Khc)
    reads kii, khc
  {
    khc.Apart() && khc.streamBuff != kii.rwBuff && khc.respHeaderBuff != kii.rwBuff
  }

  /** What is read is in the stream buffer already when the handler goes on. */
  function WithRead(k: K, call: Call, r: Reply): K {
    if call.Read? && r.Provided? && |r.data| <= |k.stream.bytes| then
      k.(stream := Put(k.stream, 0, r.data).(len := k.stream.len))
    else k
  }

  lemma ReadTwice(k: K, r: Reply)
    requires Defined(k) && Suits(CallOf(k), r)
    ensures var k1 := WithRead(k, CallOf(k), r);
            Defined(k1) && CallOf(k1) == CallOf(k) && Step(k1, r) == Step(k, r)
  {
    hide FindCrlf, RequiredHeader, TargetSize, Hex, PhaseText, SizeLineOk, Put;
    if CallOf(k).Read? { PutTwice(k.stream, r.data); }
  }

  lemma PutTwice(b: Buffer, data: string)
    requires |data| <= |b.bytes|
    ensures var b1 := Put(b, 0, data).(len := b.len);
            |b1.bytes| == |b.bytes| && Put(b1, 0, data) == Put(b, 0, data)
  {
  }

  lemma ReadingCall(k: K)
    requires Defined(k) && k.phase.ReqBodyRead?
    ensures CallOf(k) == Read(|k.stream.bytes|) && k.stream.owner != Absent
  {
  }

  lemma NoReadingCall(k: K)
    requires Defined(k) && !k.phase.ReqBodyRead?
    ensures !CallOf(k).Read?
  {
    hide FindCrlf, RequiredHeader, TargetSize, Hex, PhaseText, SizeLineOk;
  }

  /** The read callback is called with the stream buffer. */
  method ReadBody(kii: Kii, khc: Khc, ghost m: Mem) returns (r: Reply)
    requires Holds(kii, m) && !m.touched && Separate(kii, khc) && khc.streamBuff != null
    modifies kii`read, khc.streamBuff
    ensures r == Provided(NextPart(m.body, m.pos, khc.streamBuff.Length)) && |r.data| <= khc.streamBuff.Length
    ensures Holds(kii, m.(pos := m.pos + |r.data|)) && kii.rwBuff[..] == old(kii.rwBuff[..])
    ensures khc.Abs() == old(khc.Abs()).(stream := Put(old(khc.Stream()), 0, r.data).(len := old(khc.bodyReadSize)))
  {
    var n := kii.CbReadBuff(khc.streamBuff, khc.streamBuff.Length);
    r := Provided(khc.streamBuff[..n]);
    assert khc.streamBuff[..] == old(khc.streamBuff[..0]) + r.data + old(khc.streamBuff[|r.data|..]) by {
      assert khc.streamBuff[..] == khc.streamBuff[..n] + khc.streamBuff[n..];
    }
  }

  /** The write callback. */
  method WriteResponse(kii: Kii, data: string, ghost m: Mem) returns (r: Reply)
    requires Holds(kii, m)
    modifies kii`written, kii.rwBuff
    ensures r == KiiReply(m, Write(data), Quiet) && Holds(kii, MemAfter(m, Write(data)))
  {
    var n := kii.CbWriteBuff(data);
    r := Taken(n);
    assert data[..|data|] == data && m.response + "" == m.response;
  }

  /** The callbacks of kii_t, called with what the current state of the client hands them. */
  method Respond(kii: Kii, khc: Khc, e: Reply, ghost m: Mem) returns (r: Reply)
    requires Holds(kii, m) && Separate(kii, khc) && Defined(khc.Abs())
    requires CallOf(khc.Abs()).Read? ==> !m.touched
    modifies kii`read, kii`written, kii.rwBuff, khc.streamBuff
    ensures r == KiiReply(m, CallOf(old(khc.Abs())), e) && Holds(kii, MemAfter(m, CallOf(old(khc.Abs()))))
    ensures khc.Abs() == WithRead(old(khc.Abs()), CallOf(old(khc.Abs())), r)
    ensures !CallOf(old(khc.Abs())).Write? ==> kii.rwBuff[..] == old(kii.rwBuff[..])
  {
    hide Defined, CallOf, Holds, Put, NextPart;
    r := e;
    ghost var k := khc.Abs();
    if khc.state == ReqBodyRead {
      ReadingCall(k);
      r := ReadBody(kii, khc, m);
    } else {
      NoReadingCall(k);
      var line := khc.LineToTell();
      var data := khc.DataToWrite();
      if line.Some? {
        r := Taken(|line.value|);
      } else if data.Some? {
        r := WriteResponse(kii, data.value, m);
      }
    }
  }

  // ---------------------------------------------------------------------------------------------
  // The run

  /** The client at the start of a run with these headers. */
  ghost function Calling(k: K, headers: seq<string>, w: World): C {
    C(k.(phase := Idle, req := k.req.(headers := Texts(headers))), w)
  }

  /** Nothing of the body has been read, nothing has been written. */
  function Loaded(body: string, size: nat): Mem { Mem(body, 0, size, "", false) }

  lemma ServedStep(c: C, m: Mem, env: seq<Reply>)
    requires m.pos <= |m.body| && Served(c, m, env) && !c.k.phase.Finished?
    ensures env != [] && Defined(c.k)
    ensures var r := KiiReply(m, CallOf(c.k), env[0]);
            && CanStep(c, r) && Served(Next(c, r), MemAfter(m, CallOf(c.k)), env[1..])
            && Replies(c, m, env) == [r] + Replies(Next(c, r), MemAfter(m, CallOf(c.k)), env[1..])
  {
    hide CallOf, Defined, CanStep, Next;
  }

  lemma ServedEnd(c: C, m: Mem, env: seq<Reply>)
    requires m.pos <= |m.body| && Served(c, m, env) && c.k.phase.Finished?
    ensures env == [] && Replies(c, m, env) == []
  {
  }

  /** The calls that the write callback gets come after the request. */
  lemma WritesLate(k: K)
    requires Defined(k)
    ensures CallOf(k).Write? ==> !Asking(k.phase)
    ensures CallOf(k).Read? ==> Asking(k.phase)
  {
    hide FindCrlf, RequiredHeader, TargetSize, Hex, PhaseText, SizeLineOk;
  }

  /** The write callback has been called in state `c` or before: by then all of the body has been read. */
  lemma TouchedLate(c0: C, rs: seq<Reply>, i: nat)
    requires Fresh(c0) && c0.k.req.hasRead && |c0.k.stream.bytes| < PIECE_LIMIT && i < |rs| && Runs(c0, rs[..i])
    requires Defined(After(c0, rs[..i]).k) && CallOf(After(c0, rs[..i]).k).Write?
    ensures EndSeen(c0, rs, i)
  {
    hide Fresh, SawEnd, CallOf, Defined;
    WriteAfterEnd(c0, rs[..i]);
  }

  /** The state of the loop of `khc_perform` after `i` handler calls. */
  ghost predicate Underway(c0: C, all: seq<Reply>, i: nat, c: C, m: Mem) {
    && i <= |all| && Runs(c0, all) && Runs(c0, all[..i]) && c == After(c0, all[..i])
    && m.response == c.w.body
    && (m.touched ==> EndSeen(c0, all, i) && !Asking(c.k.phase))
  }

  lemma UnderwayFirst(c0: C, all: seq<Reply>, m: Mem)
    requires Fresh(c0) && Runs(c0, all) && m.response == "" && !m.touched
    ensures Underway(c0, all, 0, c0, m) && all[0..] == all
  {
    hide CanStep, Next;
    assert all[..0] == [];
  }

  lemma BodyWritten(c: C, m: Mem, e: Reply)
    requires m.pos <= |m.body| && m.response == c.w.body && Defined(c.k) && CanStep(c, KiiReply(m, CallOf(c.k), e))
    ensures MemAfter(m, CallOf(c.k)).response == Next(c, KiiReply(m, CallOf(c.k), e)).w.body
  {
    hide CallOf, Defined, Step, NextPart;
  }

  lemma UnderwayNext(c0: C, all: seq<Reply>, i: nat, c: C, m: Mem, e: Reply)
    requires Underway(c0, all, i, c, m) && i < |all| && m.pos <= |m.body|
    requires Fresh(c0) && c0.k.req.hasRead && |c0.k.stream.bytes| < PIECE_LIMIT
    requires Defined(c.k) && all[i] == KiiReply(m, CallOf(c.k), e) && CanStep(c, all[i])
    ensures Underway(c0, all, i + 1, Next(c, all[i]), MemAfter(m, CallOf(c.k)))
  {
    hide Fresh, Runs, After, CanStep, Next, CallOf, Defined, SawEnd, NextPart, Asking;
    OneMoreStep(c0, all, i);
    BodyWritten(c, m, e);
    WritesLate(c.k);
    if MemAfter(m, CallOf(c.k)).touched {
      if !m.touched { TouchedLate(c0, all, i); }
      StaysAnswering(c, all[i]);
    }
  }

  lemma UnderwayLast(c0: C, all: seq<Reply>, c: C, m: Mem)
    requires Underway(c0, all, |all|, c, m)
    ensures c == After(c0, all) && m.response == c.w.body
  {
    hide Runs, After, EndSeen, Asking;
    assert all[..|all|] == all;
  }

  lemma NoLateReading(c0: C, all: seq<Reply>, i: nat, c: C, m: Mem)
    requires Underway(c0, all, i, c, m) && Defined(c.k) && m.pos <= |m.body|
    ensures CallOf(c.k).Read? ==> !m.touched
    ensures MemAfter(m, CallOf(c.k)).touched <==> m.touched || CallOf(c.k).Write?
  {
    hide Runs, After, EndSeen, Asking, CallOf, Defined;
    WritesLate(c.k);
  }

  lemma NextReply(all: seq<Reply>, i: nat, r: Reply, more: seq<Reply>)
    requires i <= |all| && all[i..] == [r] + more
    ensures i < |all| && all[i] == r && all[i + 1..] == more
  {
    assert all[i..][0] == r && all[i..][1..] == more;
  }

  /** The handler takes the step, though what was read is in the stream buffer already. */
  lemma Answered(c: C, r: Reply)
    requires CanStep(c, r)
    ensures Defined(c.k) && Suits(CallOf(c.k), r) && Next(c, r).k == Step(c.k, r)
    ensures var k1 := WithRead(c.k, CallOf(c.k), r);
            Defined(k1) && CallOf(k1) == CallOf(c.k) && Step(k1, r) == Step(c.k, r)
  {
    hide CallOf, Defined, Suits, Step, WithRead;
    ReadTwice(c.k, r);
  }

  /** In each of these contents the buffer is as it was before, or the body has been read to its end. */
  ghost predicate Traced(contents: seq<string>, before: string, c0: C, rs: seq<Reply>) {
    forall j :: 0 <= j < |contents| ==> contents[j] == before || EndSeen(c0, rs, j)
  }

  lemma TracedFirst(before: string, c0: C, rs: seq<Reply>)
    ensures Traced([before], before, c0, rs)
  {
  }

  lemma TracedMore(contents: seq<string>, before: string, c0: C, rs: seq<Reply>, c: C, m: Mem, more: string)
    requires Traced(contents, before, c0, rs) && Underway(c0, rs, |contents|, c, m) && (!m.touched ==> more == before)
    ensures Traced(contents + [more], before, c0, rs)
  {
    hide EndSeen, Runs, After, Asking;
  }

  /** One handler call, with the callbacks that it makes. */
  method HandlerCall(kii: Kii, khc: Khc, e: Reply, ghost c: C, ghost m: Mem)
    requires Holds(kii, m) && Separate(kii, khc) && khc.Abs() == c.k && Defined(c.k)
    requires CanStep(c, KiiReply(m, CallOf(c.k), e)) && (CallOf(c.k).Read? ==> !m.touched) && !c.k.phase.Finished?
    modifies kii`read, kii`written, kii.rwBuff, khc, khc.respHeaderBuff, khc.streamBuff
    ensures Separate(kii, khc) && khc.KeepsBuffers() && khc.Abs() == Next(c, KiiReply(m, CallOf(c.k), e)).k
    ensures Holds(kii, MemAfter(m, CallOf(c.k)))
    ensures !CallOf(c.k).Write? ==> kii.rwBuff[..] == old(kii.rwBuff[..])
  {
    hide Step, CallOf, Defined, CanStep, Next, Suits, KiiReply, WithRead, MemAfter, NextPart;
    var r := Respond(kii, khc, e, m);
    Answered(c, r);
    khc.Handle(r);
  }

  /** The loop of `khc_perform` after `i` handler calls: where the run is, what is still to be answered, and
      what the shared buffer has held. */
  ghost predicate Looping(c0: C, all: seq<Reply>, i: nat, c: C, m: Mem, env: seq<Reply>, contents: seq<string>,
                          before: string)
  {
    && Fresh(c0) && c0.k.req.hasRead && |c0.k.stream.bytes| < PIECE_LIMIT && m.pos <= |m.body| && i <= |all|
    && Underway(c0, all, i, c, m) && Served(c, m, env) && all[i..] == Replies(c, m, env)
    && |contents| == i + 1 && Traced(contents, before, c0, all) && (!m.touched ==> contents[i] == before)
  }

  lemma LoopStarts(c0: C, m: Mem, env: seq<Reply>, before: string)
    requires Fresh(c0) && c0.k.req.hasRead && |c0.k.stream.bytes| < PIECE_LIMIT && m.pos <= |m.body|
    requires Served(c0, m, env) && m.response == "" && !m.touched
    ensures Looping(c0, Replies(c0, m, env), 0, c0, m, env, [before], before)
  {
    hide Runs, After, Fresh, Served, Replies, Underway;
    RepliesRun(c0, m, env);
    UnderwayFirst(c0, Replies(c0, m, env), m);
    TracedFirst(before, c0, Replies(c0, m, env));
  }

  /** What the next handler call may rely on. */
  lemma LoopGoesOn(c0: C, all: seq<Reply>, i: nat, c: C, m: Mem, env: seq<Reply>, contents: seq<string>, before: string)
    requires Looping(c0, all, i, c, m, env, contents, before) && !c.k.phase.Finished?
    ensures env != [] && Defined(c.k) && CanStep(c, KiiReply(m, CallOf(c.k), env[0]))
    ensures CallOf(c.k).Read? ==> !m.touched
  {
    hide Runs, After, Fresh, Served, Replies, Underway, CallOf, Defined, CanStep, Next, KiiReply, MemAfter, Traced;
    ServedStep(c, m, env);
    NoLateReading(c0, all, i, c, m);
  }

  lemma LoopNext(c0: C, all: seq<Reply>, i: nat, c: C, m: Mem, env: seq<Reply>, contents: seq<string>, before: string,
                 more: string)
    requires Looping(c0, all, i, c, m, env, contents, before) && !c.k.phase.Finished? && env != [] && Defined(c.k)
    requires CanStep(c, KiiReply(m, CallOf(c.k), env[0])) && (!CallOf(c.k).Write? ==> more == contents[i])
    ensures Looping(c0, all, i + 1, Next(c, KiiReply(m, CallOf(c.k), env[0])), MemAfter(m, CallOf(c.k)), env[1..],
                    contents + [more], before)
  {
    hide Runs, After, Fresh, Served, Replies, Underway, CallOf, Defined, CanStep, Next, KiiReply, MemAfter, Traced;
    var r := KiiReply(m, CallOf(c.k), env[0]);
    var d, m1 := Next(c, r), MemAfter(m, CallOf(c.k));
    ServedStep(c, m, env);
    NoLateReading(c0, all, i, c, m);
    NextReply(all, i, r, Replies(d, m1, env[1..]));
    UnderwayNext(c0, all, i, c, m, env[0]);
    TracedMore(contents, before, c0, all, d, m1, more);
  }

  lemma LoopEnds(c0: C, all: seq<Reply>, i: nat, c: C, m: Mem, env: seq<Reply>, contents: seq<string>, before: string)
    requires Looping(c0, all, i, c, m, env, contents, before) && c.k.phase.Finished?
    ensures env == [] && i == |all| && Runs(c0, all) && c == After(c0, all) && m.response == c.w.body
    ensures |contents| == |all| + 1 && Traced(contents, before, c0, all)
  {
    hide Runs, After, Fresh, Served, Replies, Traced, Asking, EndSeen;
    ServedEnd(c, m, env);
    UnderwayLast(c0, all, c, m);
  }

  /** The loop of `khc_perform` with the kii callbacks. */
  method Loop(kii: Kii, khc: Khc, env: seq<Reply>, ghost c0: C, ghost m0: Mem)
    returns (ghost c: C, ghost m: Mem, ghost contents: seq<string>)
    requires Separate(kii, khc) && khc.Abs() == c0.k && Holds(kii, m0) && Served(c0, m0, env)
    requires Looping(c0, Replies(c0, m0, env), 0, c0, m0, env, [kii.rwBuff[..]], kii.rwBuff[..])
    modifies kii`read, kii`written, kii.rwBuff, khc, khc.respHeaderBuff, khc.streamBuff
    ensures khc.Abs() == c.k && c.k.phase.Finished? && Separate(kii, khc) && Holds(kii, m)
    ensures Looping(c0, Replies(c0, m0, env), |env|, c, m, [], contents, old(kii.rwBuff[..]))
    ensures |contents| == |env| + 1 && contents[|env|] == kii.rwBuff[..]
  {
    hide Runs, After, Fresh, Served, Replies, Step, CallOf, Defined, CanStep, Next, KiiReply, MemAfter, Looping, Traced;
    ghost var before, all := kii.rwBuff[..], Replies(c0, m0, env);
    c, m, contents := c0, m0, [before];
    var i := 0;
    while khc.state != Finished
      invariant 0 <= i <= |env| && khc.Abs() == c.k && Separate(kii, khc) && khc.KeepsBuffers() && Holds(kii, m)
      invariant Looping(c0, all, i, c, m, env[i..], contents, before)
      invariant |contents| == i + 1 && contents[i] == kii.rwBuff[..]
      decreases |env| - i
    {
      LoopGoesOn(c0, all, i, c, m, env[i..], contents, before);
      HandlerCall(kii, khc, env[i], c, m);
      LoopNext(c0, all, i, c, m, env[i..], contents, before, kii.rwBuff[..]);
      c, m := Next(c, KiiReply(m, CallOf(c.k), env[i])), MemAfter(m, CallOf(c.k));
      contents := contents + [kii.rwBuff[..]];
      assert env[i..][1..] == env[i + 1..];
      i := i + 1;
    }
    LoopEnds(c0, all, i, c, m, env[i..], contents, before);
  }

  /** `khc_perform` with the kii callbacks.  `contents` is what the shared buffer holds before each handler
      call, and at the end. */
  method Perform(kii: Kii, khc: Khc, env: seq<Reply>, ghost w: World) returns (res: Code, ghost contents: seq<string>)
    requires kii.Valid() && kii.read == 0 && kii.written == 0 && Separate(kii, khc) && khc.req.hasRead
    requires var c0 := C(khc.Abs().Go(Idle), w);
             Fresh(c0) && |c0.k.stream.bytes| < PIECE_LIMIT && Served(c0, Loaded(kii.Body(), kii.rwBuff.Length), env)
    modifies kii`read, kii`written, kii.rwBuff, khc, khc.respHeaderBuff, khc.streamBuff
    ensures var c0 := C(old(khc.Abs().Go(Idle)), w);
            var rs := Replies(c0, Loaded(old(kii.Body()), kii.rwBuff.Length), env);
            && Runs(c0, rs) && res == After(c0, rs).k.result
            && khc.Abs() == After(c0, rs).k.(phase := Idle, result := Ok)
            && kii.Valid() && kii.Response() == After(c0, rs).w.body
            && |contents| == |rs| + 1 && contents[|rs|] == kii.rwBuff[..]
            && Traced(contents, old(kii.rwBuff[..]), c0, rs)
  {
    hide Runs, After, Fresh, Served, Replies, Looping, Traced;
    khc.state := Idle;
    ghost var before := kii.rwBuff[..];
    ghost var c0, m0 := C(khc.Abs(), w), Loaded(kii.Body(), kii.rwBuff.Length);
    LoopStarts(c0, m0, env, before);
    ghost var c, m;
    c, m, contents := Loop(kii, khc, env, c0, m0);
    LoopEnds(c0, Replies(c0, m0, env), |env|, c, m, [], contents, before);
    res := khc.result;
    khc.state := Idle;
    khc.result := Ok;
  }

  // ---------------------------------------------------------------------------------------------
  // The call

  /** `kii_api_call_start`; the answers of the setters are not looked at, so that a host that is too long
      leaves the default. */
  method ApiCallStart(kii: Kii, khc: Khc, host: string, verb: string, path: string, appId: string, contentType: string,
                      token: string, memory: nat -> bool)
    returns (code: KiiCode)
    requires khc.req.hasRead
    modifies kii, kii.rwBuff, khc
    ensures kii.rwBuff == old(kii.rwBuff) && kii.Valid() && kii.Body() == "" && kii.read == 0 && kii.written == 0
    ensures code == FirstFailure(StartLines(appId, contentType, token), 0, memory, kii.rwBuff.Length)
    ensures kii.reqHeaders == if code == KiiOk then old(kii.reqHeaders) + StartLines(appId, contentType, token) else []
    ensures khc.Abs() == Targeted(old(khc.req.insecure), host, verb, path) && Separate(kii, khc)
    ensures khc.respHeaderBuff == null && khc.streamBuff == null && khc.req.hasRead
  {
    hide FirstFailure, StartLines, Stored;
    khc.ResetExceptCb();
    khc.SetTarget(host, path, verb);
    code := kii.ApiCallStart(appId, contentType, token, memory);
  }

  /** A client that has been reset and knows where to go. */
  function Targeted(insecure: bool, host: string, verb: string, path: string): K {
    K(Idle, Ok,
      Request(Stored("", host, HOST_SIZE), Stored("", path, PATH_SIZE), Stored("", verb, METHOD_SIZE), insecure, [], true),
      Outgoing(0, 0, 0, false), Buffer("", 0, Absent), Buffer("", 0, Absent), Incoming(0, false, 0, 0, false))
  }

  /** The request has arrived: the head, and chunks that decode to the body, whatever the line buffer of
      the peer, if it takes a size line at all. */
  ghost predicate Conveyed(c0: C, d: C, body: string) {
    && d.w.wire == HeadText(Defaults(c0.k.req)) + BodyText(d.w.pieces, true)
    && forall cap: nat :: cap >= 15 ==> Decode(BodyText(d.w.pieces, true), cap) == Some(body)
  }

  /** `kii_api_call_run`: the run of the client with the kii callbacks.  On KHC_ERR_OK the wire holds the
      request, with chunks that decode to the body as it was in the shared buffer, and the shared buffer
      holds the body of the response; until the read callback has returned 0 that buffer is untouched.
      The header list is freed in any case. */
  method ApiCallRun(kii: Kii, khc: Khc, env: seq<Reply>, ghost w: World) returns (res: Code, ghost contents: seq<string>)
    requires kii.Valid() && kii.read == 0 && kii.written == 0 && Separate(kii, khc) && khc.req.hasRead
    requires var c0 := Calling(khc.Abs(), kii.reqHeaders, w);
             Fresh(c0) && |c0.k.stream.bytes| < PIECE_LIMIT && Served(c0, Loaded(kii.Body(), kii.rwBuff.Length), env)
    modifies kii`read, kii`written, kii`reqHeaders, kii.rwBuff, khc, khc.respHeaderBuff, khc.streamBuff
    ensures kii.Valid() && kii.reqHeaders == []
    ensures var c0 := Calling(old(khc.Abs()), old(kii.reqHeaders), w);
            var rs := Replies(c0, Loaded(old(kii.Body()), kii.rwBuff.Length), env);
            && Runs(c0, rs) && res == After(c0, rs).k.result
            && kii.Response() == After(c0, rs).w.body
            && (res == Ok && Roomy(c0.k) ==> Conveyed(c0, After(c0, rs), old(kii.Body())))
            && (forall e :: res == Ok && Promises(c0, e) ==> kii.Response() == e.body)
            && |contents| == |rs| + 1 && contents[|rs|] == kii.rwBuff[..]
            && Traced(contents, old(kii.rwBuff[..]), c0, rs)
  {
    hide Runs, After, Fresh, Served, Replies, Texts, Conveyed, Promises, Traced;
    khc.SetReqHeaders(kii.reqHeaders);
    ghost var c0, m := C(khc.Abs().Go(Idle), w), Loaded(kii.Body(), kii.rwBuff.Length);
    res, contents := Perform(kii, khc, env, w);
    RepliesRun(c0, m, env);
    ghost var rs := Replies(c0, m, env);
    if res == Ok {
      if Roomy(c0.k) { OkConveys(c0, rs, m.body); }
      forall e | Promises(c0, e) ensures After(c0, rs).w.body == e.body { OkDelivers(c0, rs, e); }
    }
    kii.FreeHeaders();
  }

  lemma OkConveys(c0: C, rs: seq<Reply>, body: string)
    requires Fresh(c0) && c0.k.req.hasRead && |c0.k.stream.bytes| < PIECE_LIMIT && Runs(c0, rs) && Feeds(c0, rs, body, 0)
    requires After(c0, rs).k.phase.Finished? && After(c0, rs).k.result == Ok && Roomy(c0.k)
    ensures Conveyed(c0, After(c0, rs), body)
  {
    hide Runs, After, Fresh, Feeds, HeadText, BodyText, Decode, Defaults;
    BodyRoundTrip(c0, rs, body, 15);
    forall cap: nat | cap >= 15 ensures Decode(BodyText(After(c0, rs).w.pieces, true), cap) == Some(body) {
      BodyRoundTrip(c0, rs, body, cap);
    }
  }

  lemma OkDelivers(c0: C, rs: seq<Reply>, e: Expected)
    requires Fresh(c0) && Promises(c0, e) && Runs(c0, rs)
    requires After(c0, rs).k.phase.Finished? && After(c0, rs).k.result == Ok
    ensures After(c0, rs).w.body == e.body
  {
    hide Runs, After, Fresh, Promises, Blames;
    ResponseDelivered(c0, rs, e);
  }
}
