/** The result of a command: the text that is put together piece by piece, and the JSON document that
    it is (`_append_action_result` of ebisu/tio/command_parser.c). */
module TioResult {
  import opened Text
  import opened Jsmn
  import opened JsonTree
  import opened JsonBroken
  import opened JkiiEscape
  import opened JkiiLookup
  import opened JkiiPath
  import opened TioScript

  /** What the action callback answers. */
  datatype Answer = Answer(succeeded: bool, message: string)

  const OPENING := "{\"actionResults\":["
  const CLOSING := "]}"

  function ErrPart(message: string): string {
    if message == "" then "" else ",\"errorMessage\":\"" + Escaped(message) + "\""
  }

  function Entry(name: string, a: Answer): string {
    if a.succeeded then "{\"" + name + "\" : { \"succeeded\" : " + "true }}"
    else "{\"" + name + "\" : { \"succeeded\" : " + "false " + ErrPart(a.message) + "}}"
  }

  /** What is appended for the `i`-th action. */
  function Piece(i: nat, name: string, a: Answer): string { (if i == 0 then "" else ",") + Entry(name, a) }

  const MESSAGE_SIZE := 128
  const ENTRY_SIZE := 256

  /** The entry fits the two buffers in which it is put together. */
  predicate Fits(i: nat, name: string, a: Answer) {
    (a.succeeded || |ErrPart(a.message)| < MESSAGE_SIZE) && |Piece(i, name, a)| < ENTRY_SIZE
  }

  /** The pieces for the actions from `i` on. */
  function Pieces(calls: seq<Action>, answers: seq<Answer>, i: nat): string
    requires |answers| == |calls|
    decreases |calls| - i
  {
    if i >= |calls| then "" else Piece(i, calls[i].name, answers[i]) + Pieces(calls, answers, i + 1)
  }

  function Body(calls: seq<Action>, answers: seq<Answer>): string
    requires |answers| == |calls|
  {
    OPENING + Pieces(calls, answers, 0) + CLOSING
  }

  // ---------------------------------------------------------------------------------------------
  // The document

  function Flag(succeeded: bool): Json { Prim(if succeeded then "true" else "false") }

  function Details(a: Answer): Members {
    MCons("", "succeeded", " ", " ", Flag(a.succeeded), " ",
          if a.succeeded || a.message == "" then MNil
          else MCons("", "errorMessage", "", "", Str(Escaped(a.message)), "", MNil))
  }

  function EntryTree(name: string, a: Answer): Json {
    Obj("", MCons("", name, " ", " ", Obj(" ", Details(a)), "", MNil))
  }

  function Entries(calls: seq<Action>, answers: seq<Answer>, i: nat): Elems
    requires |answers| == |calls|
    decreases |calls| - i
  {
    if i >= |calls| then ENil else ECons("", EntryTree(calls[i].name, answers[i]), "", Entries(calls, answers, i + 1))
  }

  function Document(calls: seq<Action>, answers: seq<Answer>): Json
    requires |answers| == |calls|
  {
    Obj("", MCons("", "actionResults", "", "", Arr("", Entries(calls, answers, 0)), "", MNil))
  }

  // ---------------------------------------------------------------------------------------------
  // The text is the document

  /** A member printed without the parentheses. */
  lemma MemberGlue(before: string, key: string, mid: string, lead: string, v: string, after: string, tail: string)
    ensures before + ("\"" + key + "\"") + mid + ":" + lead + v + after + tail
         == before + "\"" + key + ("\"" + mid + ":" + lead) + (v + (after + tail))
  {
  }

  lemma MemberPrint(ms: Members)
    requires ms.MCons?
    ensures PrintMembers(ms) == ms.before + "\"" + ms.key + ("\"" + ms.mid + ":" + ms.lead)
                                + (Print(ms.value) + (ms.after + MembersTail(ms.rest)))
  {
    hide Print, MembersTail;
    MemberGlue(ms.before, ms.key, ms.mid, ms.lead, Print(ms.value), ms.after, MembersTail(ms.rest));
  }

  lemma MessagePrint(message: string)
    requires message != ""
    ensures "," + PrintMembers(MCons("", "errorMessage", "", "", Str(Escaped(message)), "", MNil)) == ErrPart(message) + "}"
  {
    hide Escaped;
    var ms, e := MCons("", "errorMessage", "", "", Str(Escaped(message)), "", MNil), Escaped(message);
    MemberPrint(ms);
    assert Print(ms.value) == "\"" + e + "\"";
    assert MembersTail(MNil) == "}";
    assert "," + (""  + "\"" + "errorMessage" + ("\"" + "" + ":" + "")) + "\"" == ",\"errorMessage\":\"";
    Reglue(",", "" + "\"" + "errorMessage" + ("\"" + "" + ":" + ""), "\"", e, "\"", "}");
    assert "" + "}" == "}";
  }

  lemma Reglue(a: string, b: string, c: string, d: string, e: string, f: string)
    ensures a + (b + ((c + d + e) + f)) == ((a + b) + c) + d + e + f
  {
  }

  lemma DetailsPrint(a: Answer)
    ensures PrintMembers(Details(a)) ==
            "\"succeeded\" : " + (if a.succeeded then "true " else "false " + ErrPart(a.message)) + "}"
  {
    hide ErrPart, Escaped, PrintMembers;
    var ms := Details(a);
    MemberPrint(ms);
    if ms.rest.MCons? { MessagePrint(a.message); }
    DetailsTail(a);
    assert "" + "\"" + "succeeded" + ("\"" + " " + ":" + " ") == "\"succeeded\" : ";
  }

  lemma DetailsTail(a: Answer)
    ensures Print(Flag(a.succeeded)) + (" " + MembersTail(Details(a).rest)) ==
            (if a.succeeded then "true " else "false " + ErrPart(a.message)) + "}"
  {
    hide ErrPart, Escaped, PrintMembers;
    var rest := Details(a).rest;
    if rest.MCons? {
      MessagePrint(a.message);
    } else {
      assert ErrPart("") == "" by { NoMessage(); }
      assert "true" + (" " + "}") == "true " + "}" && "false" + (" " + "}") == "false " + "" + "}";
    }
    assert "false" + " " == "false ";
  }

  lemma NoMessage()
    ensures ErrPart("") == ""
  {
  }

  lemma EntryPrint(name: string, a: Answer)
    ensures Print(EntryTree(name, a)) == Entry(name, a)
  {
    hide Details, ErrPart, PrintMembers;
    DetailsPrint(a);
    var d, ms := PrintMembers(Details(a)), EntryTree(name, a).members;
    MemberPrint(ms);
    assert Print(ms.value) == "{" + " " + d;
    assert MembersTail(MNil) == "}";
    var f := if a.succeeded then "true " else "false " + ErrPart(a.message);
    EntryGlue(name, f);
    assert "" + "}" == "}";
  }

  lemma EntryGlue(name: string, f: string)
    ensures "{" + "" + ("" + "\"" + name + ("\"" + " " + ":" + " ") + ("{" + " " + ("\"succeeded\" : " + f + "}") + "}"))
         == "{\"" + name + "\" : { \"succeeded\" : " + f + "}}"
  {
    assert "{" + "" + ("" + "\"") == "{\"";
    assert ("\"" + " " + ":" + " ") + ("{" + " " + "\"succeeded\" : ") == "\" : { \"succeeded\" : ";
  }

  lemma {:induction false} EntriesPrint(calls: seq<Action>, answers: seq<Answer>, i: nat)
    requires |answers| == |calls| && i <= |calls|
    ensures i == 0 ==> PrintElems(Entries(calls, answers, i)) == Pieces(calls, answers, i) + "]"
    ensures i > 0 ==> ElemsTail(Entries(calls, answers, i)) == Pieces(calls, answers, i) + "]"
    decreases |calls| - i
  {
    hide Entry, EntryTree, Print;
    if i < |calls| {
      EntryPrint(calls[i].name, answers[i]);
      EntriesPrint(calls, answers, i + 1);
      var text, more := Entry(calls[i].name, answers[i]), Pieces(calls, answers, i + 1);
      assert PrintElems(Entries(calls, answers, i)) == "" + text + "" + (more + "]");
    }
  }

  lemma BodyPrints(calls: seq<Action>, answers: seq<Answer>)
    requires |answers| == |calls|
    ensures Print(Document(calls, answers)) == Body(calls, answers)
  {
    hide Entries, Pieces, PrintElems, PrintMembers;
    EntriesPrint(calls, answers, 0);
    var p, ms := Pieces(calls, answers, 0), Document(calls, answers).members;
    MemberPrint(ms);
    assert Print(ms.value) == "[" + "" + (p + "]");
    assert MembersTail(MNil) == "}";
    BodyGlue(p);
  }

  lemma BodyGlue(p: string)
    ensures "{" + "" + ("" + "\"" + "actionResults" + ("\"" + "" + ":" + "") + (("[" + "" + (p + "]")) + ("" + "}")))
         == OPENING + p + CLOSING
  {
    assert "{" + "" + ("" + "\"" + "actionResults" + ("\"" + "" + ":" + "")) + "[" == OPENING;
    assert "]" + ("" + "}") == CLOSING;
  }

  // ---------------------------------------------------------------------------------------------
  // The document is well formed

  /** A message that survives the escaping: no control character that the code would put behind a
      backslash as it is. */
  predicate Clean(message: string) { forall i :: 0 <= i < |message| ==> !ControlSpecial(message[i]) && message[i] != NUL }

  predicate CleanAnswer(a: Answer) { a.succeeded || Clean(a.message) }

  lemma EntryWf(name: string, a: Answer)
    requires GoodString(name)
    ensures Wf(EntryTree(name, a)) <==> CleanAnswer(a)
  {
    hide GoodString, Escaped, ControlSpecial;
    PlainIsGood("succeeded");
    PlainIsGood("errorMessage");
    EscapedIsGood(a.message);
    assert WfMembers(Details(a)) <==> CleanAnswer(a) by { DetailsWf(a); }
    assert AllWs(" ") && AllWs("");
    assert WfMembers(MNil);
    assert Wf(Obj(" ", Details(a))) <==> WfMembers(Details(a));
  }

  lemma DetailsWf(a: Answer)
    ensures WfMembers(Details(a)) <==> CleanAnswer(a)
  {
    hide GoodString, Escaped, ControlSpecial;
    PlainIsGood("succeeded");
    PlainIsGood("errorMessage");
    EscapedIsGood(a.message);
    assert AllWs(" ") && AllWs("");
    assert WfMembers(MNil);
    assert GoodPrim("true") && GoodPrim("false");
    var rest := Details(a).rest;
    if rest.MCons? {
      assert WfMembers(rest) <==> GoodString(Escaped(a.message));
    }
  }

  predicate GoodNames(calls: seq<Action>) { forall i :: 0 <= i < |calls| ==> GoodString(calls[i].name) }

  predicate CleanAnswers(answers: seq<Answer>) { forall i :: 0 <= i < |answers| ==> CleanAnswer(answers[i]) }

  lemma {:induction false} EntriesWf(calls: seq<Action>, answers: seq<Answer>, i: nat)
    requires |answers| == |calls| && GoodNames(calls)
    ensures WfElems(Entries(calls, answers, i)) <==> forall j :: i <= j < |calls| ==> CleanAnswer(answers[j])
    decreases |calls| - i
  {
    hide EntryTree, CleanAnswer, GoodString;
    if i < |calls| {
      EntryWf(calls[i].name, answers[i]);
      EntriesWf(calls, answers, i + 1);
      assert AllWs("");
    }
  }

  lemma DocumentWf(calls: seq<Action>, answers: seq<Answer>)
    requires |answers| == |calls| && GoodNames(calls)
    ensures Wf(Document(calls, answers)) <==> CleanAnswers(answers)
  {
    hide GoodString, CleanAnswer, Entries;
    EntriesWf(calls, answers, 0);
    PlainIsGood("actionResults");
    assert AllWs("");
    assert WfMembers(MNil);
    var ms := Document(calls, answers).members;
    assert Wf(ms.value) <==> WfElems(Entries(calls, answers, 0));
    assert WfMembers(ms) <==> Wf(ms.value);
  }

  // ---------------------------------------------------------------------------------------------
  // What is found in it

  lemma {:induction false} EntriesLength(calls: seq<Action>, answers: seq<Answer>, i: nat)
    requires |answers| == |calls| && i <= |calls|
    ensures ELength(Entries(calls, answers, i)) == |calls| - i
    decreases |calls| - i
  {
    hide EntryTree;
    if i < |calls| { EntriesLength(calls, answers, i + 1); }
  }

  lemma {:induction false} EntryFound(calls: seq<Action>, answers: seq<Answer>, i: nat, k: nat, index: nat, q: nat)
    requires |answers| == |calls| && i <= k < |calls|
    ensures FindElem(Entries(calls, answers, i), index, q, k - i).Some?
    ensures FindElem(Entries(calls, answers, i), index, q, k - i).value.value == EntryTree(calls[k].name, answers[k])
    decreases k - i
  {
    hide EntryTree, Toks, Print;
    if i < k {
      var es := Entries(calls, answers, i);
      EntryFound(calls, answers, i + 1, k, index + |Toks(es.value, ValueAt(es, q))|, RestAt(es, q));
    }
  }

  /** The steps to the flag of the `k`-th entry. */
  function FlagPath(calls: seq<Action>, k: nat): seq<PathStep>
    requires k < |calls|
  {
    [Key("actionResults"), At(k), Key(calls[k].name), Key("succeeded")]
  }

  /** The document is an object with one key, `actionResults`: an array with one entry per action, in
      order, under the action's name, that says whether the action has succeeded. */
  lemma ResultsFound(calls: seq<Action>, answers: seq<Answer>, k: nat)
    requires |answers| == |calls| && k < |calls|
    ensures var root := Spot(0, Document(calls, answers), 0);
            && TreeFind(root, [Key("actionResults")]).Some?
            && TreeFind(root, [Key("actionResults")]).value.value.Arr?
            && ELength(TreeFind(root, [Key("actionResults")]).value.value.elems) == |calls|
            && TreeFind(root, FlagPath(calls, k)).Some?
            && TreeFind(root, FlagPath(calls, k)).value.value == Flag(answers[k].succeeded)
  {
    hide Entries, Toks, Print, Escaped;
    var root, path := Spot(0, Document(calls, answers), 0), FlagPath(calls, k);
    assert [Key("actionResults")][1..] == [];
    var results := ChildOf(root, Key("actionResults")).value;
    EntriesLength(calls, answers, 0);
    EntryFound(calls, answers, 0, k, results.index + 1, results.at + 1);
    var entry := ChildOf(results, At(k)).value;
    var details := ChildOf(entry, Key(calls[k].name)).value;
    assert details.value == Obj(" ", Details(answers[k]));
    var flag := ChildOf(details, Key("succeeded")).value;
    assert path[1..] == [At(k), Key(calls[k].name), Key("succeeded")];
    assert path[1..][1..] == [Key(calls[k].name), Key("succeeded")];
    assert path[1..][1..][1..] == [Key("succeeded")];
    assert path[1..][1..][1..][1..] == [];
    assert TreeFind(details, [Key("succeeded")]) == Some(flag);
    assert TreeFind(entry, path[1..][1..]) == Some(flag);
    assert TreeFind(results, path[1..]) == Some(flag);
  }

  /** The steps to the message of the `k`-th entry. */
  function MessagePath(calls: seq<Action>, k: nat): seq<PathStep>
    requires k < |calls|
  {
    [Key("actionResults"), At(k), Key(calls[k].name), Key("errorMessage")]
  }

  /** The `k`-th entry has a message exactly if its action has failed with one, and a reader gets that message out
      of it, if it holds no control character that is escaped. */
  lemma MessageFound(calls: seq<Action>, answers: seq<Answer>, k: nat)
    requires |answers| == |calls| && k < |calls|
    ensures var found := TreeFind(Spot(0, Document(calls, answers), 0), MessagePath(calls, k));
            && (found.Some? <==> !answers[k].succeeded && answers[k].message != "")
            && (found.Some? ==> found.value.value.Str?
                                && (Clean(answers[k].message) ==>
                                      Decoded(found.value.value.text) == Some(answers[k].message)))
  {
    hide Entries, Toks, Print, Escaped, Decoded;
    var root, path := Spot(0, Document(calls, answers), 0), MessagePath(calls, k);
    var results := ChildOf(root, Key("actionResults")).value;
    EntriesLength(calls, answers, 0);
    EntryFound(calls, answers, 0, k, results.index + 1, results.at + 1);
    var entry := ChildOf(results, At(k)).value;
    var details := ChildOf(entry, Key(calls[k].name)).value;
    assert details.value == Obj(" ", Details(answers[k]));
    DecodedIff(answers[k].message);
    assert path[1..] == [At(k), Key(calls[k].name), Key("errorMessage")];
    assert path[1..][1..] == [Key(calls[k].name), Key("errorMessage")];
    assert path[1..][1..][1..] == [Key("errorMessage")];
    assert path[1..][1..][1..][1..] == [];
    var message := ChildOf(details, Key("errorMessage"));
    MessageOf(details, answers[k]);
    assert TreeFind(details, [Key("errorMessage")]) == message;
    assert TreeFind(entry, path[1..][1..]) == message;
    assert TreeFind(results, path[1..]) == message;
  }

  lemma MessageOf(details: Spot, a: Answer)
    requires details.value == Obj(" ", Details(a))
    ensures var found := ChildOf(details, Key("errorMessage"));
            && (found.Some? <==> !a.succeeded && a.message != "")
            && (found.Some? ==> found.value.value == Str(Escaped(a.message)))
  {
    hide Toks, Print, Escaped;
    var ms, i, q := Details(a), details.index + 1, details.at + 1 + |" "|;
    assert "succeeded"[0] != "errorMessage"[0];
    assert MemberNamed(ms, i, q, "errorMessage")
        == MemberNamed(ms.rest, i + 1 + |Toks(ms.value, MValueAt(ms, q))|, MRestAt(ms, q), "errorMessage");
  }

  /** Messages are C strings. */
  predicate Terminated(answers: seq<Answer>) {
    forall i :: 0 <= i < |answers| ==> NoNul(answers[i].message)
  }

  /** What the escaping makes of a control character is an escape that the tokeniser does not know. */
  lemma {:induction false} EscapedBreaks(s: string)
    requires NoNul(s) && !Clean(s)
    ensures BadString(Escaped(s))
  {
    var t, rest := Escaped(s), Escaped(s[1..]);
    if !ControlSpecial(s[0]) {
      var i :| 0 <= i < |s| && ControlSpecial(s[i]);
      assert s[1..][i - 1] == s[i];
      EscapedBreaks(s[1..]);
      assert Special(s[0]) ==> t[2..] == rest && t[1] == s[0];
      assert !Special(s[0]) ==> t[1..] == rest;
    } else {
      assert t[1] == s[0];
    }
  }

  lemma DetailsLoose(a: Answer)
    requires NoNul(a.message)
    ensures LooseMembers(Details(a))
  {
    hide GoodString, Escaped, ControlSpecial, BadString;
    PlainIsGood("succeeded");
    PlainIsGood("errorMessage");
    EscapedIsGood(a.message);
    if !Clean(a.message) { EscapedBreaks(a.message); }
    assert AllWs(" ") && AllWs("");
    assert LooseMembers(MNil);
    assert GoodPrim("true") && GoodPrim("false");
    var rest := Details(a).rest;
    if rest.MCons? { assert LooseMembers(rest); }
  }

  lemma EntryLoose(name: string, a: Answer)
    requires GoodString(name) && NoNul(a.message)
    ensures Loose(EntryTree(name, a))
  {
    hide GoodString, Details;
    DetailsLoose(a);
    assert AllWs(" ") && AllWs("");
    assert LooseMembers(MNil);
    assert Loose(Obj(" ", Details(a)));
  }

  lemma {:induction false} EntriesLoose(calls: seq<Action>, answers: seq<Answer>, i: nat)
    requires |answers| == |calls| && GoodNames(calls) && Terminated(answers)
    ensures LooseElems(Entries(calls, answers, i))
    decreases |calls| - i
  {
    hide EntryTree, GoodString, NoNul;
    if i < |calls| {
      EntryLoose(calls[i].name, answers[i]);
      EntriesLoose(calls, answers, i + 1);
      assert AllWs("");
    }
  }

  lemma DocumentLoose(calls: seq<Action>, answers: seq<Answer>)
    requires |answers| == |calls| && GoodNames(calls) && Terminated(answers)
    ensures Loose(Document(calls, answers))
  {
    hide GoodString, Entries;
    EntriesLoose(calls, answers, 0);
    PlainIsGood("actionResults");
    assert AllWs("");
    assert LooseMembers(MNil);
    var ms := Document(calls, answers).members;
    assert Loose(ms.value);
    assert LooseMembers(ms);
  }

  /** The body that is sent tokenises if and only if the messages in it are clean, and then as that
      document; otherwise it is rejected as invalid. */
  lemma BodyTokenises(calls: seq<Action>, answers: seq<Answer>, cap: nat)
    requires |answers| == |calls| && GoodNames(calls) && Terminated(answers)
    requires |Toks(Document(calls, answers), 0)| <= cap
    ensures var f := Fill(Body(calls, answers), INIT, cap);
            && (f.Tokens? <==> CleanAnswers(answers))
            && (f.Tokens? ==> f.final.toks == Toks(Document(calls, answers), 0))
            && (!f.Tokens? ==> f.Failed? && f.error == Inval)
  {
    hide Fill, Toks, Document, GoodString, CleanAnswer, Body, Loose;
    DocumentWf(calls, answers);
    DocumentLoose(calls, answers);
    BodyPrints(calls, answers);
    var v := Document(calls, answers);
    AcceptedIff(v, cap);
    if CleanAnswers(answers) {
      ParsePrinted("", v, "", cap);
      assert "" + Print(v) + "" == Print(v);
    }
  }
}
