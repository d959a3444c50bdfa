/** A command from its text to the wire: `_handle_command` of ebisu/tio/command_parser.c as a whole. */
module TioDelivery {
  import opened Text
  import opened Jsmn
  import opened JsonTree
  import opened KhcText
  import opened KhcMachine
  import opened KhcRun
  import opened KhcSend
  import opened KhcChunk
  import opened KhcWire
  import opened KhcClient
  import opened KiiBuffer
  import opened KiiRequest
  import opened KiiApi
  import opened TioScript
  import opened TioParse
  import opened TioResult
  import opened TioCommand
  import opened TioRequest

  /** The client has been reset: it has no buffers. */
  ghost predicate Ready(kii: Kii, khc: Khc)
    reads kii, khc
  {
    Separate(kii, khc) && khc.respHeaderBuff == null && khc.streamBuff == null && khc.req.hasRead
  }

  /** `_start_result_request`; when appending the opening fails, the code returns the conversion of
      the code before. */
  method StartResultRequest(kii: Kii, khc: Khc, host: string, appId: string, author: string, token: string,
                            commandId: string, memory: nat -> bool)
    returns (code: TioCode)
    requires kii.Valid() && khc.req.hasRead
    modifies kii, kii.rwBuff, khc
    ensures kii.rwBuff == old(kii.rwBuff) && kii.Valid()
    ensures code == StartResult(appId, author, token, commandId, memory, kii.rwBuff.Length)
    ensures kii.reqHeaders == if |ResultPath(appId, author, commandId)| >= TioCommand.PATH_SIZE then old(kii.reqHeaders)
                              else if code != TioOk then []
                              else if |OPENING| + 1 <= kii.rwBuff.Length
                              then old(kii.reqHeaders) + StartLines(appId, "application/json", token) else []
    ensures code == TioOk ==>
              && kii.Body() == (if |OPENING| + 1 <= kii.rwBuff.Length then OPENING else "")
              && kii.read == 0 && kii.written == 0 && Ready(kii, khc)
              && khc.Abs() == Targeted(old(khc.req.insecure), host, "PUT", ResultPath(appId, author, commandId))
  {
    hide StartLines, ResultPath, FirstFailure, Targeted;
    if |ResultPath(appId, author, commandId)| >= TioCommand.PATH_SIZE { return TioTooLarge; }
    var started := KiiApi.ApiCallStart(kii, khc, host, "PUT", ResultPath(appId, author, commandId), appId,
                                       "application/json", token, memory);
    if started != KiiOk { return StartCode(started); }
    var appended := kii.AppendBody(OPENING);
    assert "" + OPENING == OPENING;
    code := StartCode(started);
  }

  /** What a command is handled with. */
  datatype Setting = Setting(host: string, insecure: bool, appId: string, author: string, token: string,
                             memory: nat -> bool, size: nat)

  /** The header lines of the request for the results. */
  function ResultLines(s: Setting): seq<string> { StartLines(s.appId, "application/json", s.token) }

  function Started(s: Setting, commandId: string): TioCode {
    StartResult(s.appId, s.author, s.token, commandId, s.memory, s.size)
  }

  /** The client at the start of the run that sends the results. */
  ghost function Sending(s: Setting, commandId: string, headers: seq<string>, w: World): C {
    Calling(Targeted(s.insecure, s.host, "PUT", ResultPath(s.appId, s.author, commandId)), headers, w)
  }

  /** A world in which nothing has happened yet. */
  predicate NewWorld(w: World) {
    && w.wire == "" && w.pieces == [] && w.headers == [] && w.body == "" && !w.refused
    && w.link == Unopened && w.heap == NO_HEAP
  }

  lemma SendingFresh(s: Setting, commandId: string, headers: seq<string>, w: World)
    requires NewWorld(w)
    ensures Fresh(Sending(s, commandId, headers, w)) && |Sending(s, commandId, headers, w).k.stream.bytes| < PIECE_LIMIT
    ensures Roomy(Sending(s, commandId, headers, w).k)
  {
    hide Stored, ResultPath, Texts;
  }

  /** `_convert_code` and `_tio_convert_code` */
  function RunCode(code: Code): (t: TioCode)
    ensures t == TioOk <==> code == Ok
  {
    match code
    case Ok => TioOk
    case SockConnect | SockClose => TioSockConnect
    case SockSend => TioSockSend
    case SockRecv => TioSockRecv
    case HeaderCallback => TioHeaderCallback
    case WriteCallback => TioWriteCallback
    case Allocation => TioAllocation
    case TooLargeData => TioTooLarge
    case Fail => TioFail
  }

  /** The header lines that are left in the list when a command has been prepared or has failed: only a
      failure to append to the body frees them. */
  function LinesLeft(p: Progress, before: seq<string>, s: Setting): seq<string> {
    if p.freed then [] else before + ResultLines(s)
  }

  lemma HeaderArray(v: Json)
    ensures HeaderOf(v).Some? ==> HeaderOf(v).value.1.Arr?
  {
  }

  lemma HeaderFields(v: Json)
    ensures HeaderOf(v).Some? ==> v.Obj? && Field(v.members, "commandID") == Some(Str(HeaderOf(v).value.0))
                                  && Field(v.members, "actions") == Some(HeaderOf(v).value.1)
  {
    hide Field;
  }

  lemma {:induction false} FieldWf(ms: Members, name: string)
    requires WfMembers(ms) && Field(ms, name).Some?
    ensures Wf(Field(ms, name).value)
    decreases ms
  {
    if ms.key != name { FieldWf(ms.rest, name); }
  }

  lemma ActionsWf(v: Json)
    requires Wf(v) && HeaderOf(v).Some?
    ensures HeaderOf(v).value.1.Arr? && WfElems(HeaderOf(v).value.1.elems)
  {
    hide Field;
    FieldWf(v.members, "actions");
  }

  /** The results have gone to the command's own place, and with no header lines left over from before, under the
      name of the application. */
  ghost predicate Delivered(s: Setting, commandId: string, before: seq<string>, wire: string) {
    Addressable(s.host, s.appId, s.author, s.token, commandId, before) ==>
      && Reaches(wire, s.insecure, s.host, s.appId, s.author, commandId)
      && (before == [] ==> Signed(wire, s.host, s.appId, s.token))
  }

  /** What has arrived reads so. */
  lemma SentReads(s: Setting, commandId: string, before: seq<string>, w: World, d: C, text: string)
    requires Started(s, commandId) == TioOk && Conveyed(Sending(s, commandId, before + ResultLines(s), w), d, text)
    ensures Delivered(s, commandId, before, d.w.wire)
    ensures Addressable(s.host, s.appId, s.author, s.token, commandId, before) ==>
              ReadRequest(d.w.wire).Some? && ReadRequest(d.w.wire).value.rest == BodyText(d.w.pieces, true)
  {
    hide Reaches, Signed, Addressable, StartLines, ResultPath, HeadText, BodyText, Decode, ReadRequest, Fields, FirstFailure,
         Texts;
    if Addressable(s.host, s.appId, s.author, s.token, commandId, before) {
      ResultRead(s.insecure, s.host, s.appId, s.author, s.token, commandId, before, BodyText(d.w.pieces, true));
      if before == [] {
        assert [] + ResultLines(s) == ResultLines(s);
        FieldsRead(s.host, s.appId, s.token, d.w.wire);
      }
    }
  }

  /** `_handle_command` up to the request: `act` is the action callback.  The actions are called in the
      order of the script, as far as the results have room; the body holds the text of all of them. */
  method PrepareResults(kii: Kii, khc: Khc, command: string, s: Setting, room: Room, act: (nat, Action) -> Answer,
                        ghost lead: string, ghost v: Json, ghost trail: string)
    returns (code: TioCode, calls: seq<Action>)
    requires kii.Valid() && khc.req.hasRead && s.insecure == khc.req.insecure && s.size == kii.rwBuff.Length
    requires Wf(v) && AllWs(lead) && AllWs(trail) && command == lead + Print(v) + trail && |command| <= MAX_TEXT
    requires HeaderOf(v).Some? ==> CommandScript(HeaderOf(v).value.1.elems).ending != Unmodelled
    modifies kii, kii.rwBuff, khc
    ensures kii.rwBuff == old(kii.rwBuff) && kii.Valid()
    ensures HeaderOf(v).None? || !HasRoom(room, Nodes(v)) ==>
              code == TioParseJson && calls == [] && kii.reqHeaders == old(kii.reqHeaders)
    ensures HeaderOf(v).Some? && HasRoom(room, Nodes(v)) ==>
              var (id, actions) := HeaderOf(v).value;
              var start := Started(s, id);
              var script := CommandScript(actions.elems);
              var p := Appending(script, act, 0, OPENING, s.size);
              if start != TioOk then
                && code == start && calls == []
                && kii.reqHeaders == if |ResultPath(s.appId, s.author, id)| >= TioCommand.PATH_SIZE
                                     then old(kii.reqHeaders) else []
              else
                && code == p.code && calls == script.calls[..p.made] && kii.Body() == p.body
                && kii.reqHeaders == LinesLeft(p, old(kii.reqHeaders), s)
                && kii.read == 0 && kii.written == 0 && Ready(kii, khc)
                && khc.Abs() == Targeted(s.insecure, s.host, "PUT", ResultPath(s.appId, s.author, id))
  {
    hide Print, Toks, Wf, AllWs, CommandScript, Appending, StartLines, ResultPath, FirstFailure, Field, Targeted;
    calls := [];
    var header := ParseHeader(command, room, lead, v, trail);
    if header.None? { return TioParseJson, []; }
    ghost var actions := HeaderOf(v).value.1;
    HeaderManageable(v, room);
    code := StartResultRequest(kii, khc, s.host, s.appId, s.author, s.token, header.value.0, s.memory);
    if code != TioOk { return; }
    OpeningFits(s.appId, s.token, s.memory, kii.rwBuff.Length, OPENING);
    code, calls := HandleAliases(kii, header.value.1, room, act, actions);
  }

  /** `_handle_command`: the results of the actions are prepared and, if that went well, sent with the
      answers `env` of the socket and the allocator.  On TIO_ERR_OK every action of the script has been
      called, what went over the wire is the head of the request and chunks that decode to the text of
      all results, and the shared buffer holds the body of the response. */
  method HandleCommand(kii: Kii, khc: Khc, command: string, s: Setting, room: Room, act: (nat, Action) -> Answer,
                       env: seq<Reply>, ghost w: World, ghost lead: string, ghost v: Json, ghost trail: string)
    returns (code: TioCode, calls: seq<Action>)
    requires kii.Valid() && khc.req.hasRead && s.insecure == khc.req.insecure && s.size == kii.rwBuff.Length
    requires Wf(v) && AllWs(lead) && AllWs(trail) && command == lead + Print(v) + trail && |command| <= MAX_TEXT
    requires HeaderOf(v).Some? ==> CommandScript(HeaderOf(v).value.1.elems).ending != Unmodelled
    requires NewWorld(w)
    requires HeaderOf(v).Some? ==>
               var p := Appending(CommandScript(HeaderOf(v).value.1.elems), act, 0, OPENING, s.size);
               p.code == TioOk ==>
                 Served(Sending(s, HeaderOf(v).value.0, kii.reqHeaders + ResultLines(s), w), Loaded(p.body, s.size), env)
    modifies kii, kii.rwBuff, khc
    ensures kii.rwBuff == old(kii.rwBuff) && kii.Valid()
    ensures HeaderOf(v).None? || !HasRoom(room, Nodes(v)) ==>
              code == TioParseJson && calls == [] && kii.reqHeaders == old(kii.reqHeaders)
    ensures HeaderOf(v).Some? && HasRoom(room, Nodes(v)) ==>
              var (id, actions) := HeaderOf(v).value;
              var start := Started(s, id);
              var script := CommandScript(actions.elems);
              var p := Appending(script, act, 0, OPENING, s.size);
              if start != TioOk then
                && code == start && calls == []
                && kii.reqHeaders == if |ResultPath(s.appId, s.author, id)| >= TioCommand.PATH_SIZE
                                     then old(kii.reqHeaders) else []
              else
                && calls == script.calls[..p.made]
                && if p.code != TioOk then code == p.code && kii.reqHeaders == LinesLeft(p, old(kii.reqHeaders), s)
                   else
                     var c0 := Sending(s, id, old(kii.reqHeaders) + ResultLines(s), w);
                     var rs := Replies(c0, Loaded(p.body, s.size), env);
                     && Runs(c0, rs) && code == RunCode(KhcRun.After(c0, rs).k.result)
                     && kii.reqHeaders == [] && kii.Response() == KhcRun.After(c0, rs).w.body
                     && (code == TioOk ==>
                           calls == script.calls
                           && Conveyed(c0, KhcRun.After(c0, rs), TioResult.Body(script.calls, Answers(script.calls, act)))
                           && Field(v.members, "commandID") == Some(Str(id)) && Field(v.members, "actions") == Some(actions)
                           && Delivered(s, id, old(kii.reqHeaders), KhcRun.After(c0, rs).w.wire))
  {
    hide Print, Toks, Wf, AllWs, CommandScript, Appending, StartLines, ResultPath, FirstFailure, Field, Targeted,
         HeaderOf, StartResult, Served, Replies, Runs, KhcRun.After, Conveyed, TioResult.Body, Answers, NewWorld, Fresh,
         Texts, Delivered;
    ghost var headers := kii.reqHeaders;
    code, calls := PrepareResults(kii, khc, command, s, room, act, lead, v, trail);
    if code != TioOk { return; }
    HeaderArray(v);
    ghost var id, script := HeaderOf(v).value.0, CommandScript(HeaderOf(v).value.1.elems);
    CommandSucceeds(script, act, s.size);
    SendingFresh(s, id, headers + ResultLines(s), w);
    var res, _ := ApiCallRun(kii, khc, env, w);
    code := RunCode(res);
    if code == TioOk {
      HeaderFields(v);
      ghost var c0 := Sending(s, id, headers + ResultLines(s), w);
      ghost var text := Appending(script, act, 0, OPENING, s.size).body;
      SentReads(s, id, headers, w, KhcRun.After(c0, Replies(c0, Loaded(text, s.size), env)), text);
    }
  }

  // ---------------------------------------------------------------------------------------------
  // What that amounts to

  /** For a well-formed command that has been answered: the results have gone to the place that is named by the
      command's own `commandID`, and the peer decodes a text that tokenises, if and only if no message in it holds
      a control character that is escaped, as one object with one entry per action of the command's `actions`, in
      the order of the document, with the outcome and the message of each. */
  lemma ResultsOnTheWire(s: Setting, v: Json, before: seq<string>, w: World, d: C, act: (nat, Action) -> Answer, cap: nat)
    requires Wf(v) && HeaderOf(v).Some? && GoodAliases(HeaderOf(v).value.1.elems) && cap >= 15
    requires Appending(CommandScript(HeaderOf(v).value.1.elems), act, 0, OPENING, s.size).code == TioOk
    requires Terminated(Answers(CommandScript(HeaderOf(v).value.1.elems).calls, act))
    requires Started(s, HeaderOf(v).value.0) == TioOk
    requires var calls := CommandScript(HeaderOf(v).value.1.elems).calls;
             Conveyed(Sending(s, HeaderOf(v).value.0, before + ResultLines(s), w), d,
                      TioResult.Body(calls, Answers(calls, act)))
    ensures v.Obj? && Field(v.members, "commandID").Some? && Field(v.members, "commandID").value.Str?
    ensures Delivered(s, Field(v.members, "commandID").value.text, before, d.w.wire)
    ensures Field(v.members, "actions").Some? && Field(v.members, "actions").value.Arr?
    ensures var es := Field(v.members, "actions").value.elems;
            var calls := CommandScript(es).calls;
            var answers := Answers(calls, act);
            var chunks, doc := BodyText(d.w.pieces, true), Document(calls, answers);
            && d.w.wire == HeadText(Defaults(Sending(s, HeaderOf(v).value.0, before + ResultLines(s), w).k.req)) + chunks
            && (Addressable(s.host, s.appId, s.author, s.token, HeaderOf(v).value.0, before) ==>
                  ReadRequest(d.w.wire).Some? && ReadRequest(d.w.wire).value.rest == chunks)
            && Decode(chunks, cap).Some?
            && |calls| == ActionsBefore(es, ELength(es))
            && (Fill(Decode(chunks, cap).value, INIT, |Toks(doc, 0)|).Tokens? <==> CleanAnswers(answers))
            && forall k :: 0 <= k < |calls| ==> EntryAt(doc, calls, k, answers[k])
  {
    hide HeadText, BodyText, Decode, Fill, Toks, CommandScript, Appending, Answers, Document, CleanAnswers, Terminated,
         GoodAliases, EntryAt, TioResult.Body, Delivered, Wf, Field, Sending, Started, ReadRequest, Addressable,
         ResultLines;
    var (id, actions) := HeaderOf(v).value;
    HeaderFields(v);
    ActionsWf(v);
    CommandAnswered(actions.elems, act, s.size);
    CommandSucceeds(CommandScript(actions.elems), act, s.size);
    var calls := CommandScript(actions.elems).calls;
    SentReads(s, id, before, w, d, TioResult.Body(calls, Answers(calls, act)));
  }

  lemma {:induction false} LinesBehind(a: seq<Option<string>>, b: seq<Option<string>>, i: nat)
    requires i <= |b|
    ensures Lines(a + b, |a| + i) == Lines(b, i)
    decreases |b| - i
  {
    if i < |b| { LinesBehind(a, b, i + 1); }
  }

  lemma {:induction false} LinesTogether(a: seq<Option<string>>, b: seq<Option<string>>, i: nat)
    requires i <= |a|
    ensures Lines(a + b, i) == Lines(a, i) + Lines(b, 0)
    decreases |a| - i
  {
    if i == |a| {
      LinesBehind(a, b, 0);
      assert "" + Lines(b, 0) == Lines(b, 0);
    } else {
      LinesTogether(a, b, i + 1);
      if a[i].Some? {
        var line, x, y := a[i].value, Lines(a, i + 1), Lines(b, 0);
        assert line + (CRLF + (x + y)) == line + (CRLF + x) + y;
      }
    }
  }

  /** After a command that has failed while its actions were taken out (TIO_ERR_PARSE_JSON) or with an entry
      that is too large, the header lines of its request are still in the list, and the next request that
      is started sends them twice. */
  lemma LinesRepeated(script: Script, act: (nat, Action) -> Answer, s: Setting)
    requires var p := Appending(script, act, 0, OPENING, s.size); p.code != TioOk && !p.freed
    ensures var left := LinesLeft(Appending(script, act, 0, OPENING, s.size), [], s);
            var once := Lines(Texts(ResultLines(s)), 0);
            left == ResultLines(s) && Lines(Texts(left + ResultLines(s)), 0) == once + once && once != ""
  {
    hide Appending;
    var lines := ResultLines(s);
    assert [] + lines == lines;
    assert Texts(lines + lines) == Texts(lines) + Texts(lines);
    LinesTogether(Texts(lines), Texts(lines), 0);
    FirstLineSent(s);
  }

  lemma FirstLineSent(s: Setting)
    ensures Lines(Texts(ResultLines(s)), 0) != ""
  {
    assert Texts(ResultLines(s))[0] == Some(AppIdLine(s.appId));
  }
}
