/** Handling a command: `_handle_command` of ebisu/tio/command_parser.c. */
module TioCommand {
  import opened Text
  import opened Jsmn
  import opened JsonTree
  import opened JkiiEscape
  import opened JkiiLookup
  import opened JkiiPath
  import opened KiiBuffer
  import opened TioScript
  import opened TioParse
  import opened TioResult

  datatype TioCode =
    | TioOk | TioSockConnect | TioSockSend | TioSockRecv | TioHeaderCallback | TioWriteCallback
    | TioAllocation | TioTooLarge | TioParseJson | TioFail

  // ---------------------------------------------------------------------------------------------
  // What comes of the actions

  /** How far it gets: the code, how many actions have been called, the body, and whether appending to the
      body has failed, which frees the header lines of the request; no other failure does. */
  datatype Progress = Progress(code: TioCode, made: nat, body: string, freed: bool)

  /** The actions from `i` on are called and their results appended, while there is room. */
  function Appending(s: Script, act: (nat, Action) -> Answer, i: nat, body: string, size: nat): (p: Progress)
    requires i <= |s.calls|
    ensures i <= p.made <= |s.calls| && (p.freed ==> p.code == TioTooLarge)
    decreases |s.calls| - i
  {
    if i == |s.calls| then
      if s.ending != Complete then Progress(TioParseJson, i, body, false)
      else if |body| + |CLOSING| + 1 > size then Progress(TioTooLarge, i, body, true)
      else Progress(TioOk, i, body + CLOSING, false)
    else
      var name, a := s.calls[i].name, act(i, s.calls[i]);
      if !Fits(i, name, a) then Progress(TioTooLarge, i + 1, body, false)
      else if |body| + |Piece(i, name, a)| + 1 > size then Progress(TioTooLarge, i + 1, body, true)
      else Appending(s, act, i + 1, body + Piece(i, name, a), size)
  }

  function Answers(calls: seq<Action>, act: (nat, Action) -> Answer): (r: seq<Answer>)
    ensures |r| == |calls|
  {
    seq(|calls|, i requires 0 <= i < |calls| => act(i, calls[i]))
  }

  ghost predicate AllFit(calls: seq<Action>, answers: seq<Answer>, i: nat)
    requires |answers| == |calls|
  {
    forall j :: i <= j < |calls| ==> Fits(j, calls[j].name, answers[j])
  }

  lemma {:induction false} AppendingMeans(s: Script, act: (nat, Action) -> Answer, i: nat, body: string, size: nat)
    requires i <= |s.calls|
    ensures var p, answers := Appending(s, act, i, body, size), Answers(s.calls, act);
            && (p.code == TioOk <==> s.ending == Complete && AllFit(s.calls, answers, i)
                                     && |body + Pieces(s.calls, answers, i)| + |CLOSING| + 1 <= size)
            && (p.code == TioOk ==> p.made == |s.calls| && p.body == body + Pieces(s.calls, answers, i) + CLOSING)
    decreases |s.calls| - i
  {
    hide Piece, Fits;
    var answers := Answers(s.calls, act);
    if i == |s.calls| {
      assert body + "" == body;
    } else {
      var name, a := s.calls[i].name, act(i, s.calls[i]);
      assert answers[i] == a;
      if Fits(i, name, a) && |body| + |Piece(i, name, a)| + 1 <= size {
        AppendingMeans(s, act, i + 1, body + Piece(i, name, a), size);
        assert body + Pieces(s.calls, answers, i) == body + Piece(i, name, a) + Pieces(s.calls, answers, i + 1);
        assert AllFit(s.calls, answers, i) <==> AllFit(s.calls, answers, i + 1);
      }
    }
  }

  /** A command is answered if and only if it is well formed, every entry fits, and the body with all
      of them fits the buffer; then every action has been called and the body is the text of all
      results. */
  lemma CommandSucceeds(s: Script, act: (nat, Action) -> Answer, size: nat)
    ensures var p, answers := Appending(s, act, 0, OPENING, size), Answers(s.calls, act);
            && (p.code == TioOk <==> s.ending == Complete && AllFit(s.calls, answers, 0)
                                     && |Body(s.calls, answers)| + 1 <= size)
            && (p.code == TioOk ==> p.made == |s.calls| && p.body == Body(s.calls, answers))
  {
    hide AllFit, Appending, Pieces;
    AppendingMeans(s, act, 0, OPENING, size);
  }

  // ---------------------------------------------------------------------------------------------
  // One alias, one action

  datatype AliasParsed = Alias(name: string, text: string) | AliasEnd | AliasFail

  datatype ActionParsed = Act(action: Action) | ActEnd | ActFail

  /** `_parse_alias`; an empty object is not followed. */
  method ParseAlias(actionsArray: string, n: nat, room: Room, ghost v: Json) returns (r: AliasParsed)
    requires actionsArray == Print(v) && v.Arr? && Manageable(v, room) && n <= MAX_TEXT
    requires Nth(v.elems, n).Some? ==> Followed(Nth(v.elems, n).value)
    ensures match Nth(v.elems, n)
            case None => r == AliasEnd
            case Some(e) =>
              if !e.Obj? then r == if OddElement(e) == Malformed then AliasFail else AliasEnd
              else if PairEnding(e) != Complete then r == AliasFail
              else r == Alias(e.members.key, Inner(e.members.value)) && Manageable(e.members.value, room)
  {
    hide Manageable, Print, Toks, Wf;
    var found := GetObjectInArray(actionsArray, n, room, v);
    if found.OutOfIndex? { return AliasEnd; }
    if found.ParseFail? { return AliasFail; }
    ghost var e := Nth(v.elems, n).value;
    ElementManageable(v, n, room);
    assert Wf(e) by { ManageableWf(e, room); }
    var first := ParseFirstKv(found.text, e);
    if first.BadObject? { return AliasFail; }
    FirstManageable(e, room);
    r := Alias(first.key, first.value);
  }

  /** Not an empty object. */
  predicate Followed(e: Json) { e.Obj? ==> PairEnding(e) != Unmodelled }

  lemma ManageableWf(v: Json, room: Room)
    requires Manageable(v, room)
    ensures Wf(v)
  {
  }

  /** `_parse_action`, likewise; the array is the text of a container or a primitive. */
  method ParseAction(alias: string, actionsArray: string, n: nat, room: Room, ghost v: Json) returns (r: ActionParsed)
    requires actionsArray == Print(v) && !v.Str? && Manageable(v, room) && n <= MAX_TEXT
    requires v.Arr? && Nth(v.elems, n).Some? ==> Followed(Nth(v.elems, n).value)
    ensures if v.Prim? then r == ActFail
            else if v.Obj? || Nth(v.elems, n).None? then r == ActEnd
            else
              var e := Nth(v.elems, n).value;
              if !e.Obj? then r == if OddElement(e) == Malformed then ActFail else ActEnd
              else if PairEnding(e) != Complete then r == ActFail
              else r == Act(Action(alias, e.members.key, KindOf(e.members.value), Inner(e.members.value)))
  {
    hide Manageable, Print, Toks, Wf;
    var found := GetObjectInArray(actionsArray, n, room, v);
    if found.OutOfIndex? { return ActEnd; }
    if found.ParseFail? { return ActFail; }
    ghost var e := Nth(v.elems, n).value;
    ElementManageable(v, n, room);
    assert Wf(e) by { ManageableWf(e, room); }
    var first := ParseFirstKv(found.text, e);
    if first.BadObject? { return ActFail; }
    r := Act(Action(alias, first.key, first.kind, first.value));
  }

  // ---------------------------------------------------------------------------------------------
  // Results

  /** `_append_action_result`. */
  method AppendActionResult(kii: Kii, i: nat, name: string, a: Answer) returns (code: TioCode)
    requires kii.Valid()
    modifies kii`reqSize, kii`reqHeaders, kii.rwBuff
    ensures kii.Valid()
    ensures kii.reqHeaders == if code != TioOk && Fits(i, name, a) then [] else old(kii.reqHeaders)
    ensures code == if !Fits(i, name, a) || |old(kii.Body())| + |Piece(i, name, a)| + 1 > kii.rwBuff.Length
                    then TioTooLarge else TioOk
    ensures kii.Body() == if code == TioOk then old(kii.Body()) + Piece(i, name, a) else old(kii.Body())
  {
    hide Piece, Entry;
    var comma := if i == 0 then "" else ",";
    var errPart := "";
    if !a.succeeded && |a.message| > 0 {
      errPart := FormatMessage(a.message);
      if |errPart| >= MESSAGE_SIZE { return TioTooLarge; }
    }
    var text := FormatEntry(i, name, a, comma, errPart);
    if |text| >= ENTRY_SIZE { return TioTooLarge; }
    var res := kii.AppendBody(text);
    code := if res == KiiOk then TioOk else TioTooLarge;
  }

  /** The escaped message always fits its buffer of twice its length. */
  method FormatMessage(message: string) returns (part: string)
    requires message != ""
    ensures part == ErrPart(message)
  {
    var buff := new char[|message| * 2 + 1];
    var n := EscapeStr(message, buff);
    part := ",\"errorMessage\":\"" + buff[..n] + "\"";
  }

  method FormatEntry(i: nat, name: string, a: Answer, comma: string, errPart: string) returns (text: string)
    requires comma == (if i == 0 then "" else ",") && (!a.succeeded ==> errPart == ErrPart(a.message))
    ensures text == Piece(i, name, a)
  {
    hide ErrPart;
    text := comma + if a.succeeded then "{\"" + name + "\" : { \"succeeded\" : " + "true }}"
                    else "{\"" + name + "\" : { \"succeeded\" : " + "false " + errPart + "}}";
  }

  // ---------------------------------------------------------------------------------------------
  // The loops

  /** What is left of an array from index `n` on. */
  function Remaining(es: Elems, n: nat): Elems { if n == 0 || es.ENil? then es else Remaining(es.rest, n - 1) }

  lemma {:induction false} RemainingNth(es: Elems, n: nat)
    ensures Nth(es, n) == if Remaining(es, n).ENil? then None else Some(Remaining(es, n).value)
    ensures Remaining(es, n).ECons? ==> Remaining(es, n + 1) == Remaining(es, n).rest
    decreases n
  {
    if n > 0 && es.ECons? { RemainingNth(es.rest, n - 1); }
  }

  /** The actions called so far, and those still to come. */
  function Plus(calls: seq<Action>, s: Script): Script { s.(calls := calls + s.calls) }

  /** The actions of an alias from index `n` on. */
  function AliasFrom(alias: string, v: Json, n: nat): Script {
    if v.Arr? then AliasScript(alias, Remaining(v.elems, n)) else UnderAlias(alias, v)
  }

  lemma NoneTaken(es: Elems)
    ensures Remaining(es, 0) == es
  {
  }

  /** One more action: it is the next of the script. */
  lemma NextAction(full: Script, made: seq<Action>, alias: string, v: Json, n: nat, rest: Script)
    requires v.Arr? && full == Plus(made, Then(AliasFrom(alias, v, n), rest))
    requires Nth(v.elems, n).Some? && Nth(v.elems, n).value.Obj? && PairEnding(Nth(v.elems, n).value) == Complete
    ensures var ms := Nth(v.elems, n).value.members;
            var a := Action(alias, ms.key, KindOf(ms.value), Inner(ms.value));
            && |made| < |full.calls| && full.calls[|made|] == a
            && full == Plus(made + [a], Then(AliasFrom(alias, v, n + 1), rest))
  {
    hide Toks, Print, Inner;
    RemainingNth(v.elems, n);
    var ms := Nth(v.elems, n).value.members;
    var a := Action(alias, ms.key, KindOf(ms.value), Inner(ms.value));
    var s, t := AliasFrom(alias, v, n), AliasFrom(alias, v, n + 1);
    assert s == t.(calls := [a] + t.calls);
    assert made + ([a] + t.calls) == made + [a] + t.calls;
    assert made + (([a] + t.calls) + rest.calls) == made + [a] + (t.calls + rest.calls);
  }

  /** The end of an alias's actions: its array is over, or holds something else. */
  lemma AliasOver(full: Script, made: seq<Action>, alias: string, v: Json, n: nat, rest: Script)
    requires full == Plus(made, Then(AliasFrom(alias, v, n), rest)) && full.ending != Unmodelled
    requires v.Obj? || (v.Arr? && (Nth(v.elems, n).None? || (!Nth(v.elems, n).value.Obj?
                                                             && OddElement(Nth(v.elems, n).value) != Malformed)))
    ensures full == Plus(made, rest)
  {
    hide Toks, Print;
    if v.Arr? { RemainingNth(v.elems, n); }
    assert [] + rest.calls == rest.calls;
  }

  /** No object with a first key and value, and no end of the array. */
  predicate BadElement(e: Json) { if e.Obj? then PairEnding(e) != Complete else OddElement(e) == Malformed }

  lemma AliasBad(full: Script, made: seq<Action>, alias: string, v: Json, n: nat, rest: Script)
    requires full == Plus(made, Then(AliasFrom(alias, v, n), rest)) && full.ending != Unmodelled
    requires v.Prim? || (v.Arr? && Nth(v.elems, n).Some? && BadElement(Nth(v.elems, n).value))
    ensures full.calls == made && full.ending == Malformed
  {
    hide Toks, Print;
    if v.Arr? { RemainingNth(v.elems, n); }
  }

  lemma AliasFollowed(full: Script, made: seq<Action>, alias: string, v: Json, n: nat, rest: Script)
    requires v.Arr? && full == Plus(made, Then(AliasFrom(alias, v, n), rest)) && full.ending != Unmodelled
    ensures Nth(v.elems, n).Some? ==> Followed(Nth(v.elems, n).value)
  {
    hide Toks, Print;
    RemainingNth(v.elems, n);
  }

  lemma AppendingEnds(s: Script, act: (nat, Action) -> Answer, calls: seq<Action>, body: string, size: nat)
    requires s.calls == calls
    ensures Appending(s, act, |calls|, body, size) ==
            if s.ending != Complete then Progress(TioParseJson, |calls|, body, false)
            else if |body| + |CLOSING| + 1 > size then Progress(TioTooLarge, |calls|, body, true)
            else Progress(TioOk, |calls|, body + CLOSING, false)
  {
  }

  /** One turn of `Appending`. */
  lemma OneAppended(s: Script, act: (nat, Action) -> Answer, i: nat, body: string, size: nat)
    requires i < |s.calls|
    ensures var name, a := s.calls[i].name, act(i, s.calls[i]);
            Appending(s, act, i, body, size) ==
            if !Fits(i, name, a) then Progress(TioTooLarge, i + 1, body, false)
            else if |body| + |Piece(i, name, a)| + 1 > size then Progress(TioTooLarge, i + 1, body, true)
            else Appending(s, act, i + 1, body + Piece(i, name, a), size)
  {
  }

  /** The inner loop of `_handle_command`: the actions of one alias are called, one by one. */
  method HandleAlias(kii: Kii, alias: string, actionsArray: string, room: Room, act: (nat, Action) -> Answer,
                     made: seq<Action>, ghost v: Json, ghost full: Script, ghost rest: Script)
    returns (stop: Option<TioCode>, calls: seq<Action>)
    requires kii.Valid() && actionsArray == Print(v) && !v.Str? && Manageable(v, room)
    requires full == Plus(made, Then(UnderAlias(alias, v), rest)) && full.ending != Unmodelled
    modifies kii`reqSize, kii`reqHeaders, kii.rwBuff
    ensures kii.Valid() && calls <= full.calls
    ensures var p := Appending(full, act, |made|, old(kii.Body()), kii.rwBuff.Length);
            match stop
            case None =>
              && full == Plus(calls, rest) && p == Appending(full, act, |calls|, kii.Body(), kii.rwBuff.Length)
              && kii.reqHeaders == old(kii.reqHeaders)
            case Some(code) =>
              && p == Progress(code, |calls|, kii.Body(), p.freed)
              && kii.reqHeaders == if p.freed then [] else old(kii.reqHeaders)
  {
    hide Print, Toks, Wf, Then, Inner, Piece, Fits, AliasScript, Manageable, PairEnding, OddElement, Nth,
         CommandScript, KindOf, Appending, Remaining, Followed;
    calls := made;
    if v.Arr? { NoneTaken(v.elems); }
    var n := 0;
    while true
      invariant kii.Valid() && kii.reqHeaders == old(kii.reqHeaders)
      invariant full == Plus(calls, Then(AliasFrom(alias, v, n), rest))
      invariant Appending(full, act, |made|, old(kii.Body()), kii.rwBuff.Length)
             == Appending(full, act, |calls|, kii.Body(), kii.rwBuff.Length)
      invariant n <= MAX_TEXT && (n > 0 ==> v.Arr?)
      decreases if v.Arr? then ELength(Remaining(v.elems, n)) else 0
    {
      if v.Arr? {
        AliasFollowed(full, calls, alias, v, n, rest);
        RemainingNth(v.elems, n);
      }
      var parsed := ParseAction(alias, actionsArray, n, room, v);
      if parsed.ActEnd? {
        AliasOver(full, calls, alias, v, n, rest);
        return None, calls;
      }
      if parsed.ActFail? {
        AliasBad(full, calls, alias, v, n, rest);
        AppendingEnds(full, act, calls, kii.Body(), kii.rwBuff.Length);
        return Some(TioParseJson), calls;
      }
      var action := parsed.action;
      NextAction(full, calls, alias, v, n, rest);
      ElementManageable(v, n, room);
      OneAppended(full, act, |calls|, kii.Body(), kii.rwBuff.Length);
      var answer := act(|calls|, action);
      var code := AppendActionResult(kii, |calls|, action.name, answer);
      calls := calls + [action];
      if code != TioOk { return Some(code), calls; }
      n := n + 1;
    }
  }

  /** An object with a good first member: its alias comes next. */
  lemma NextAlias(full: Script, made: seq<Action>, es: Elems, n: nat)
    requires full == Plus(made, CommandScript(Remaining(es, n))) && full.ending != Unmodelled
    requires Nth(es, n).Some? && Nth(es, n).value.Obj? && PairEnding(Nth(es, n).value) == Complete
    ensures Nth(es, n).value.members.MCons?
    ensures var ms := Nth(es, n).value.members;
            !ms.value.Str? && full == Plus(made, Then(UnderAlias(ms.key, ms.value), CommandScript(Remaining(es, n + 1))))
  {
    hide Toks, Print, AliasScript;
    RemainingNth(es, n);
  }

  lemma CommandOver(full: Script, made: seq<Action>, es: Elems, n: nat)
    requires full == Plus(made, CommandScript(Remaining(es, n))) && full.ending != Unmodelled
    ensures Nth(es, n).Some? ==> Followed(Nth(es, n).value)
    ensures Nth(es, n).None? || (!Nth(es, n).value.Obj? && OddElement(Nth(es, n).value) != Malformed) ==>
            full == Script(made, Complete)
    ensures Nth(es, n).Some? && BadElement(Nth(es, n).value) ==> full == Script(made, Malformed)
  {
    hide Toks, Print, AliasScript;
    RemainingNth(es, n);
    assert made + [] == made;
  }

  /** The outer loop of `_handle_command`: one alias after another, then the end of the body. */
  method HandleAliases(kii: Kii, actionsArray: string, room: Room, act: (nat, Action) -> Answer, ghost v: Json)
    returns (code: TioCode, calls: seq<Action>)
    requires kii.Valid() && actionsArray == Print(v) && v.Arr? && Manageable(v, room)
    requires CommandScript(v.elems).ending != Unmodelled
    modifies kii`reqSize, kii`reqHeaders, kii.rwBuff
    ensures kii.Valid() && calls <= CommandScript(v.elems).calls
    ensures var p := Appending(CommandScript(v.elems), act, 0, old(kii.Body()), kii.rwBuff.Length);
            && p == Progress(code, |calls|, kii.Body(), p.freed)
            && kii.reqHeaders == if p.freed then [] else old(kii.reqHeaders)
  {
    hide Print, Toks, Wf, Then, Inner, CommandScript, Manageable, UnderAlias, Appending, PairEnding, Remaining, Nth;
    calls := [];
    var n := 0;
    ghost var full, size := CommandScript(v.elems), kii.rwBuff.Length;
    assert [] + full.calls == full.calls;
    NoneTaken(v.elems);
    while true
      invariant kii.Valid() && kii.reqHeaders == old(kii.reqHeaders) && n <= MAX_TEXT
      invariant full == Plus(calls, CommandScript(Remaining(v.elems, n)))
      invariant Appending(full, act, 0, old(kii.Body()), size) == Appending(full, act, |calls|, kii.Body(), size)
      decreases ELength(Remaining(v.elems, n))
    {
      CommandOver(full, calls, v.elems, n);
      RemainingNth(v.elems, n);
      var alias := ParseAlias(actionsArray, n, room, v);
      if alias.AliasEnd? {
        AppendingEnds(full, act, calls, kii.Body(), size);
        var res := kii.AppendBody(CLOSING);
        code := if res == KiiOk then TioOk else TioTooLarge;
        return;
      }
      if alias.AliasFail? {
        AppendingEnds(full, act, calls, kii.Body(), size);
        return TioParseJson, calls;
      }
      NextAlias(full, calls, v.elems, n);
      ElementManageable(v, n, room);
      ghost var ms := Nth(v.elems, n).value.members;
      InnerPrint(ms.value);
      var stop;
      stop, calls := HandleAlias(kii, alias.name, alias.text, room, act, calls, ms.value, full,
                                 CommandScript(Remaining(v.elems, n + 1)));
      if stop.Some? { return stop.value, calls; }
      n := n + 1;
    }
  }

  lemma InnerPrint(v: Json)
    ensures !v.Str? ==> Inner(v) == Print(v)
  {
  }

  // ---------------------------------------------------------------------------------------------
  // The whole

  const COMMAND_ID_SIZE := 64
  const PATH_SIZE := 256

  /** The command's identifier and its array of actions. */
  function HeaderOf(v: Json): Option<(string, Json)> {
    if !v.Obj? then None
    else
      match (Field(v.members, "commandID"), Field(v.members, "actions"))
      case (Some(Str(id)), Some(Arr(gap, es))) => if |id| < COMMAND_ID_SIZE then Some((id, Arr(gap, es))) else None
      case _ => None
  }

  function ResultPath(appId: string, author: string, commandId: string): string {
    "/thing-if/apps/" + appId + "/targets/thing:" + author + "/commands/" + commandId + "/action-results"
  }

  function StartCode(code: KiiCode): TioCode {
    match code case KiiOk => TioOk case KiiTooLarge => TioTooLarge case KiiAllocation => TioAllocation
  }

  lemma PlainNames()
    ensures PlainName("commandID") && PlainName("actions")
  {
  }

  lemma PlacedBetween(lead: string, v: Json, trail: string)
    ensures Placed(lead + Print(v) + trail, Toks(v, |lead|), Spot(0, v, |lead|))
  {
    hide Print, Toks, Has;
    var js := lead + Print(v) + trail;
    assert js == lead + (Print(v) + trail);
    WholeText(js);
    HasConcat(js, 0, lead, Print(v) + trail);
    HasConcat(js, |lead|, Print(v), trail);
    SitsWhole(Toks(v, |lead|));
  }

  lemma SitsWhole(toks: seq<Token>)
    ensures Sits(toks, 0, toks)
  {
  }

  /** The fields of `_handle_command`. */
  method ParseHeader(command: string, room: Room, ghost lead: string, ghost v: Json, ghost trail: string)
    returns (r: Option<(string, string)>)
    requires Wf(v) && AllWs(lead) && AllWs(trail) && command == lead + Print(v) + trail
    ensures match HeaderOf(v)
            case None => r == None
            case Some(h) => r == if HasRoom(room, Nodes(v)) then Some((h.0, Print(h.1))) else None
  {
    hide Print, Toks, Wf, AllWs, PlainName;
    var tokens := Tokenise(command, room, lead, v, trail);
    if tokens.None? { return None; }
    ghost var root := Spot(0, v, |lead|);
    PlacedBetween(lead, v, trail);
    TokenText(command, tokens.value, root);
    var kind := tokens.value[0].kind;
    if kind != Array && kind != Object { return None; }
    PlainNames();
    var id := TakeField(command, tokens.value, "commandID", String, root);
    var actions := TakeField(command, tokens.value, "actions", Array, root);
    if id.None? || actions.None? || COMMAND_ID_SIZE <= |id.value| { return None; }
    r := Some((id.value, actions.value));
  }

  /** How the request for the results begins. */
  function StartResult(appId: string, author: string, token: string, commandId: string, memory: nat -> bool,
                       size: nat): TioCode
  {
    if |ResultPath(appId, author, commandId)| >= PATH_SIZE then TioTooLarge
    else StartCode(FirstFailure(StartLines(appId, "application/json", token), 0, memory, size))
  }

  lemma HeaderManageable(v: Json, room: Room)
    requires Wf(v) && HasRoom(room, Nodes(v)) && |Print(v)| <= MAX_TEXT && HeaderOf(v).Some?
    ensures HeaderOf(v).value.1.Arr? && Manageable(HeaderOf(v).value.1, room)
  {
    hide Print, Wf;
    FieldOfManageable(v, "actions", room);
  }

  // ---------------------------------------------------------------------------------------------
  // What that amounts to

  /** The keys of a well-formed document can be written into another one as they are. */
  lemma {:induction false} ActionNames(alias: string, es: Elems)
    requires WfElems(es)
    ensures GoodNames(AliasScript(alias, es).calls)
    decreases es
  {
    hide Toks, Print, GoodString;
    if es.ECons? && es.value.Obj? && PairEnding(es.value) == Complete {
      assert WfMembers(es.value.members);
      ActionNames(alias, es.rest);
    }
  }

  lemma {:induction false} CommandNames(es: Elems)
    requires WfElems(es)
    ensures GoodNames(CommandScript(es).calls)
    decreases es
  {
    hide Toks, Print, GoodString, AliasScript;
    if es.ECons? && es.value.Obj? && PairEnding(es.value) == Complete {
      var ms := es.value.members;
      assert WfMembers(ms);
      if ms.value.Arr? { ActionNames(ms.key, ms.value.elems); }
      CommandNames(es.rest);
    }
  }

  /** On TIO_ERR_OK for a well-formed command: every action has been called once, in the order of the
      document, and the body that was sent tokenises, if and only if no message in it holds a control
      character that is escaped, as one object whose `actionResults` array holds one entry per action,
      in that order, under its name and with its outcome. */
  lemma CommandAnswered(es: Elems, act: (nat, Action) -> Answer, size: nat)
    requires WfElems(es) && GoodAliases(es)
    requires Appending(CommandScript(es), act, 0, OPENING, size).code == TioOk
    requires Terminated(Answers(CommandScript(es).calls, act))
    ensures var s := CommandScript(es);
            var p, answers := Appending(s, act, 0, OPENING, size), Answers(s.calls, act);
            && p.made == |s.calls| == ActionsBefore(es, ELength(es))
            && (forall i: nat :: i < ELength(es) ==> AliasAt(es, i, s.calls))
            && var doc := Document(s.calls, answers);
               && (Fill(p.body, INIT, |Toks(doc, 0)|).Tokens? <==> CleanAnswers(answers))
               && (CleanAnswers(answers) ==> Fill(p.body, INIT, |Toks(doc, 0)|).final.toks == Toks(doc, 0))
               && forall k :: 0 <= k < |s.calls| ==> EntryAt(doc, s.calls, k, answers[k])
  {
    hide Toks, Print, Fill, CommandScript, Appending, Document, CleanAnswers, Terminated, GoodNames, AliasAt,
         FlagPath, MessagePath, GoodAliases, Clean, Decoded;
    var s := CommandScript(es);
    var answers := Answers(s.calls, act);
    EveryActionCalled(es);
    CommandNames(es);
    CommandSucceeds(s, act, size);
    BodyTokenises(s.calls, answers, |Toks(Document(s.calls, answers), 0)|);
    forall k | 0 <= k < |s.calls| ensures EntryAt(Document(s.calls, answers), s.calls, k, answers[k]) {
      ResultsFound(s.calls, answers, k);
      MessageFound(s.calls, answers, k);
    }
  }

  /** Of as many results as there are actions, the `k`-th one is that of the `k`-th action: it says whether that
      has succeeded, and if it has failed with a message, a reader gets the message out of it. */
  ghost predicate EntryAt(doc: Json, calls: seq<Action>, k: nat, a: Answer)
    requires k < |calls|
  {
    var root := Spot(0, doc, 0);
    var message := TreeFind(root, MessagePath(calls, k));
    && TreeFind(root, [Key("actionResults")]).Some? && TreeFind(root, [Key("actionResults")]).value.value.Arr?
    && ELength(TreeFind(root, [Key("actionResults")]).value.value.elems) == |calls|
    && TreeFind(root, FlagPath(calls, k)).Some? && TreeFind(root, FlagPath(calls, k)).value.value == Flag(a.succeeded)
    && (message.Some? <==> !a.succeeded && a.message != "")
    && (message.Some? && Clean(a.message) ==>
          message.value.value.Str? && Decoded(message.value.value.text) == Some(a.message))
  }
}
