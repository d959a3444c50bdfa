/** Taking objects out of arrays and first members out of objects (ebisu/tio/command_parser.c), by
    tokenising each piece of text anew. */
module TioParse {
  import opened Text
  import opened Jsmn
  import opened JsonTree
  import opened JkiiLookup
  import opened JkiiPath
  import opened JkiiPrimitive
  import opened TioScript

  /** Offsets in tokens are of type `int`. */
  const MAX_TEXT := 0x7fff_ffff

  /** Where tokens go: an array that the caller has set up, or one as large as the counting pass
      says, if the allocator grants it. */
  datatype Room = Fixed(tokens: nat) | Counted(granted: bool)

  predicate HasRoom(room: Room, n: nat) {
    match room case Fixed(tokens) => n <= tokens case Counted(granted) => granted
  }

  // ---------------------------------------------------------------------------------------------
  // Sizes of subtrees

  function Nodes(v: Json): nat {
    match v
    case Prim(_) => 1
    case Str(_) => 1
    case Arr(_, es) => 1 + ElemNodes(es)
    case Obj(_, ms) => 1 + MemberNodes(ms)
  }

  function ElemNodes(es: Elems): nat { if es.ENil? then 0 else Nodes(es.value) + ElemNodes(es.rest) }

  function MemberNodes(ms: Members): nat { if ms.MNil? then 0 else 1 + Nodes(ms.value) + MemberNodes(ms.rest) }

  lemma {:induction false} ToksNodes(v: Json, p: nat)
    ensures |Toks(v, p)| == Nodes(v)
    decreases v
  {
    hide Print, PrintElems, PrintMembers;
    match v
    case Prim(_) =>
    case Str(_) =>
    case Arr(gap, es) => ElemToksNodes(es, p + 1 + |gap|);
    case Obj(gap, ms) => MemberToksNodes(ms, p + 1 + |gap|);
  }

  lemma {:induction false} ElemToksNodes(es: Elems, p: nat)
    ensures |ElemToks(es, p)| == ElemNodes(es)
    decreases es
  {
    hide Print, PrintElems, PrintMembers;
    if es.ECons? {
      ToksNodes(es.value, ValueAt(es, p));
      ElemToksNodes(es.rest, RestAt(es, p));
    }
  }

  lemma {:induction false} MemberToksNodes(ms: Members, p: nat)
    ensures |MemberToks(ms, p)| == MemberNodes(ms)
    decreases ms
  {
    hide Print, PrintElems, PrintMembers;
    if ms.MCons? {
      ToksNodes(ms.value, MValueAt(ms, p));
      MemberToksNodes(ms.rest, MRestAt(ms, p));
    }
  }

  /** What is needed to go on with a value: it is well formed, and no larger than the whole. */
  predicate Manageable(v: Json, room: Room) { Wf(v) && |Print(v)| <= MAX_TEXT && HasRoom(room, Nodes(v)) }

  lemma {:induction false} NthManageable(es: Elems, n: nat)
    requires WfElems(es) && Nth(es, n).Some?
    ensures Wf(Nth(es, n).value) && Nodes(Nth(es, n).value) <= ElemNodes(es)
    ensures |Print(Nth(es, n).value)| <= |PrintElems(es)| && n < |PrintElems(es)|
    decreases n
  {
    if n > 0 { NthManageable(es.rest, n - 1); }
  }

  lemma ElementManageable(v: Json, n: nat, room: Room)
    requires Manageable(v, room) && v.Arr? && Nth(v.elems, n).Some?
    ensures Manageable(Nth(v.elems, n).value, room) && n < MAX_TEXT
  {
    hide Wf;
    assert WfElems(v.elems) by { WfArr(v); }
    NthManageable(v.elems, n);
    assert |Print(v)| == 1 + |v.gap| + |PrintElems(v.elems)|;
  }

  lemma WfArr(v: Json)
    requires Wf(v) && v.Arr?
    ensures WfElems(v.elems)
  {
  }

  lemma FirstManageable(v: Json, room: Room)
    requires Manageable(v, room) && v.Obj? && v.members.MCons?
    ensures Manageable(v.members.value, room) && GoodString(v.members.key)
  {
    var ms := v.members;
    assert WfMembers(ms);
    assert |Print(v)| >= |PrintMembers(ms)| >= |Print(ms.value)|;
    assert Nodes(v) == 1 + MemberNodes(ms) && MemberNodes(ms) >= Nodes(ms.value);
  }

  // ---------------------------------------------------------------------------------------------
  // Tokenising

  /** `_kii_jsmn_get_tokens`, after `_calculate_required_token_num` where an allocator is used. */
  method Tokenise(js: string, room: Room, ghost lead: string, ghost v: Json, ghost trail: string)
    returns (r: Option<seq<Token>>)
    requires Wf(v) && AllWs(lead) && AllWs(trail) && js == lead + Print(v) + trail
    ensures r == if HasRoom(room, Nodes(v)) then Some(Toks(v, |lead|)) else None
  {
    hide Fill, Count, Wf, AllWs, Toks, Print;
    ToksNodes(v, |lead|);
    ParsePrinted(lead, v, trail, Nodes(v));
    var parser := new Parser();
    var n;
    match room {
      case Fixed(tokens) =>
        n := tokens;
      case Counted(granted) =>
        CountIsExact(js, Nodes(v));
        var c, _ := parser.Parse(js, null);
        if c <= 0 || !granted { return None; }
        n := c;
        parser := new Parser();
    }
    RoomDecides(js, INIT, Nodes(v), n);
    var tokens := new Token[n](_ => Token(Primitive, 0, 0, 0));
    var c, _ := parser.Parse(js, tokens);
    if c < 0 { return None; }
    r := Some(tokens[..c]);
  }

  // ---------------------------------------------------------------------------------------------
  // An element of an array

  datatype Parsed = Found(text: string) | OutOfIndex | ParseFail

  /** An object at that index is found; nothing there, or something else, counts as the array's end, but
      for a primitive without a type. */
  function ElementObject(v: Json, n: nat): Parsed {
    if !v.IsContainer() then ParseFail
    else if v.Obj? || Nth(v.elems, n).None? then OutOfIndex
    else
      var e := Nth(v.elems, n).value;
      if e.Obj? then Found(Print(e)) else if OddElement(e) == Malformed then ParseFail else OutOfIndex
  }

  lemma {:induction false} FindsNth(es: Elems, i: nat, q: nat, n: nat)
    ensures match FindElem(es, i, q, n) case None => Nth(es, n).None? case Some(c) => Nth(es, n) == Some(c.value)
    decreases es
  {
    hide Toks, Print;
    if es.ECons? && n > 0 { FindsNth(es.rest, i + |Toks(es.value, ValueAt(es, q))|, RestAt(es, q), n - 1); }
  }

  lemma IndexPath(root: Spot, n: nat)
    requires n <= MAX_TEXT
    ensures FindPath(root, "/" + ("[" + Decimal(n) + "]"), 0) ==
            if root.value.Arr? then FindElem(root.value.elems, root.index + 1, root.at + 1 + |root.value.gap|, n) else None
  {
    hide GetTarget, Decimal, Toks, Print;
    var path := "/" + ("[" + Decimal(n) + "]");
    assert Has(path, 0, path);
    BracketsRead(path, 0, n);
  }

  lemma Whole(v: Json)
    ensures Placed(Print(v), Toks(v, 0), Spot(0, v, 0))
  {
    hide Print, Toks;
  }

  /** The text between the offsets of a value's token. */
  lemma TokenText(js: string, tokens: seq<Token>, s: Spot)
    requires Placed(js, tokens, s)
    ensures s.index < |tokens| && tokens[s.index].kind == KindOf(s.value)
    ensures var t := tokens[s.index];
            0 <= t.start <= t.end <= |js| && js[t.start..t.end] == Inner(s.value)
  {
    hide Toks, Print;
    PlacedRoot(js, tokens, s);
    HasSlice(js, s.at, Print(s.value));
    if s.value.Str? {
      StringText(js, s.at, s.value.text);
    } else if s.value.Prim? {
      PrimText(s.value);
    }
  }

  lemma StringText(js: string, p: nat, t: string)
    requires Has(js, p, Print(Str(t)))
    ensures p + 1 + |t| <= |js| && js[p + 1..p + 1 + |t|] == t
  {
    assert Print(Str(t)) == "\"" + (t + "\"");
    HasConcat(js, p, "\"", t + "\"");
    HasConcat(js, p + 1, t, "\"");
  }

  lemma PrimText(v: Json)
    requires v.Prim?
    ensures Print(v) == v.text
  {
  }

  lemma PrimInner(v: Json)
    ensures KindOf(v) == Primitive <==> v.Prim?
    ensures v.Prim? ==> Inner(v) == v.text
  {
  }

  /** `_get_object_in_array` on the text of a container or a primitive. */
  method GetObjectInArray(js: string, index: nat, room: Room, ghost v: Json) returns (r: Parsed)
    requires js == Print(v) && Manageable(v, room) && !v.Str? && index <= MAX_TEXT
    ensures r == ElementObject(v, index)
  {
    hide Toks, Print, Wf, Has, Sits, Decimal, TypeOf;
    var path := "/" + ("[" + Decimal(index) + "]");
    assert "" + Print(v) + "" == Print(v);
    assert AllWs("");
    var tokens := Tokenise(js, room, "", v, "");
    if tokens.None? { return ParseFail; }
    Whole(v);
    ghost var root := Spot(0, v, 0);
    TokenText(js, tokens.value, root);
    var kind := tokens.value[0].kind;
    if kind != Array && kind != Object { return ParseFail; }
    IndexPath(root, index);
    if v.Arr? { FindsNth(v.elems, 1, 1 + |v.gap|, index); }
    var at := GetValueByPath(js, tokens.value, path, root);
    if at == -1 { return OutOfIndex; }
    ghost var c := FindPath(root, path, 0).value;
    TokenText(js, tokens.value, c);
    var token := tokens.value[at];
    if token.kind == Primitive {
      PrimInner(c.value);
      var fieldType := FindType(js[token.start..token.end]);
      return if fieldType == Unknown then ParseFail else OutOfIndex;
    }
    if token.kind != Object { return OutOfIndex; }
    r := Found(js[token.start..token.end]);
  }

  // ---------------------------------------------------------------------------------------------
  // The first member of an object

  lemma FirstTokens(v: Json)
    requires v.Obj? && v.members.MCons?
    ensures |Toks(v, 0)| >= 3
    ensures var q := 1 + |v.gap|;
            Toks(v, 0)[1] == KeyToken(v.members, q)
              && Placed(Print(v), Toks(v, 0), Spot(2, v.members.value, MValueAt(v.members, q)))
            && Has(Print(v), KeyAt(v.members, q), v.members.key)
  {
    hide Toks, Print, Has, Sits, PrintMembers;
    Whole(v);
    ContainerParts(Print(v), Toks(v, 0), Spot(0, v, 0));
    MemberParts(Print(v), Toks(v, 0), 1, v.members, 1 + |v.gap|);
    PlacedRoot(Print(v), Toks(v, 0), Spot(2, v.members.value, MValueAt(v.members, 1 + |v.gap|)));
  }

  /** The second and third token, which `_parse_first_kv` looks at, are there exactly when the object has a
      member; of `{}` the code reads what happens to be in its array. */
  lemma FilledIff(v: Json, p: nat)
    requires v.Obj?
    ensures |Toks(v, p)| >= 3 <==> v.members.MCons?
    ensures v.members.MNil? ==> |Toks(v, p)| == 1
  {
    hide Print;
    if v.members.MCons? {
      assert |MemberToks(v.members, p + 1 + |v.gap|)| >= 2 by { MemberFilled(v.members, p + 1 + |v.gap|); }
    }
  }

  lemma MemberFilled(ms: Members, q: nat)
    requires ms.MCons?
    ensures |MemberToks(ms, q)| >= 2
  {
    hide Print;
    assert |Toks(ms.value, MValueAt(ms, q))| > 0;
  }

  /** The document of the smallest such command. */
  const EMPTY_ACTIONS: Json := Arr("", ECons("", Obj("", MNil), "", ENil))
  const EMPTY_LAST: Members := MCons("", "actions", "", "", EMPTY_ACTIONS, "", MNil)
  const EMPTY_ACTION: Json := Obj("", MCons("", "commandID", "", "", Str("c"), "", EMPTY_LAST))

  /** Its text, member by member. */
  lemma EmptyActionText()
    ensures Print(EMPTY_ACTION) == "{" + ("\"commandID\":\"c\"" + ("," + "\"actions\":[{}]}"))
  {
    hide PrintMembers;
    FirstMember();
    assert "{" + "" == "{";
  }

  lemma EmptyActionWf()
    ensures Wf(EMPTY_ACTION)
  {
    hide GoodString, Print;
    PlainIsGood("commandID");
    PlainIsGood("actions");
    PlainIsGood("c");
    assert Wf(EMPTY_ACTIONS) && WfMembers(EMPTY_LAST);
  }

  lemma LastMember()
    ensures PrintMembers(EMPTY_LAST) == "\"actions\":[{}]}"
  {
    assert Print(EMPTY_ACTIONS) == "[{}]";
    hide Print;
    assert PrintMembers(EMPTY_LAST) == "" + ("\"" + "actions" + "\"") + "" + ":" + "" + "[{}]" + "" + "}";
  }

  lemma FirstMember()
    ensures PrintMembers(EMPTY_ACTION.members) == "\"commandID\":\"c\"" + ("," + "\"actions\":[{}]}")
  {
    assert Print(Str("c")) == "\"c\"";
    LastMember();
    hide Print;
    assert "" + ("\"" + "commandID" + "\"") + "" + ":" + "" + "\"c\"" + "" == "\"commandID\":\"c\"";
  }

  /** It is where the model stops following the code. */
  lemma EmptyActionUnfilled()
    ensures Print(EMPTY_ACTION) == "{" + ("\"commandID\":\"c\"" + ("," + "\"actions\":[{}]}")) && Wf(EMPTY_ACTION)
    ensures Field(EMPTY_ACTION.members, "commandID") == Some(Str("c"))
    ensures var v := Field(EMPTY_ACTION.members, "actions");
            && v.Some? && v.value.Arr? && Nth(v.value.elems, 0) == Some(Obj("", MNil))
            && CommandScript(v.value.elems) == Script([], Unmodelled) && |Toks(Obj("", MNil), 0)| == 1
  {
    hide Print, Toks, Wf;
    EmptyActionText();
    EmptyActionWf();
    FilledIff(Obj("", MNil), 0);
  }

  datatype FirstKv = Pair(key: string, value: string, kind: Kind) | BadObject

  /** `_parse_first_kv` on the text of an object that has a member, or too many tokens. */
  method ParseFirstKv(js: string, ghost v: Json) returns (r: FirstKv)
    requires js == Print(v) && Wf(v) && v.Obj? && PairEnding(v) != Unmodelled
    ensures r == if PairEnding(v) != Complete then BadObject
                 else Pair(v.members.key, Inner(v.members.value), KindOf(v.members.value))
  {
    hide Toks, Print, Wf, Has, Sits;
    ToksNodes(v, 0);
    assert "" + Print(v) + "" == Print(v);
    assert AllWs("");
    var tokens := Tokenise(js, Fixed(KV_TOKENS), "", v, "");
    if tokens.None? { return BadObject; }
    var toks := tokens.value;
    FirstTokens(v);
    Whole(v);
    TokenText(js, toks, Spot(0, v, 0));
    ghost var q := 1 + |v.gap|;
    TokenText(js, toks, Spot(2, v.members.value, MValueAt(v.members, q)));
    HasSlice(js, KeyAt(v.members, q), v.members.key);
    if toks[0].kind != Object { return BadObject; }
    if toks[1].kind != String { return BadObject; }
    r := Pair(js[toks[1].start..toks[1].end], js[toks[2].start..toks[2].end], toks[2].kind);
  }

  // ---------------------------------------------------------------------------------------------
  // A member of the root by its plain name

  /** The first value under that key. */
  function Field(ms: Members, name: string): Option<Json> {
    if ms.MNil? then None else if ms.key == name then Some(ms.value) else Field(ms.rest, name)
  }

  predicate PlainName(name: string) { name != "" && forall i :: 0 <= i < |name| ==> name[i] !in "/\\[]" && name[i] != NUL }

  /** A name without special characters matches itself only, whatever is in the keys. */
  lemma {:induction false} PlainSame(path: string, t: nat, name: string, key: string)
    requires Has(path, t, name) && (name != "" ==> PlainName(name))
    ensures SameKey(path, t, t + |name|, key) <==> key == name
    decreases |name|
  {
    if name != "" && key != "" {
      assert name == [name[0]] + name[1..];
      HasChar(path, t, name[0], name[1..]);
      assert key == name <==> key[0] == name[0] && key[1..] == name[1..];
      PlainSame(path, t + 1, name[1..], key[1..]);
    }
  }

  lemma {:induction false} FindsField(ms: Members, i: nat, q: nat, path: string, t: nat, name: string)
    requires Has(path, t, name) && PlainName(name)
    ensures match FindMember(ms, i, q, path, Name(t, t + |name|))
            case None => Field(ms, name).None?
            case Some(c) => Field(ms, name) == Some(c.value)
    decreases ms
  {
    hide Toks, Print, SameKey;
    if ms.MCons? {
      PlainSame(path, t, name, ms.key);
      FindsField(ms.rest, i + 1 + |Toks(ms.value, MValueAt(ms, q))|, MRestAt(ms, q), path, t, name);
    }
  }

  lemma FieldPath(root: Spot, name: string)
    requires PlainName(name)
    ensures match FindPath(root, "/" + name, 0)
            case None => !root.value.Obj? || Field(root.value.members, name).None?
            case Some(c) => root.value.Obj? && Field(root.value.members, name) == Some(c.value)
  {
    hide Toks, Print, ComponentEnd, IndexValue;
    var path := "/" + name;
    assert path == ['/'] + name;
    assert Has(path, 0, path);
    HasChar(path, 0, '/', name);
    PlainComponentEnds(path, 1, name);
    assert path[1] == name[0];
    assert GetTarget(path, 0) == (None, Name(1, 1 + |name|));
    if root.value.Obj? { FindsField(root.value.members, root.index + 1, root.at + 1 + |root.value.gap|, path, 1, name); }
  }

  /** One turn of `_jkii_parse_fields`: the text of the value that the path leads to, if it is of that
      kind (a number or the like makes no difference where a string or a container is asked for). */
  method TakeField(js: string, tokens: seq<Token>, name: string, kind: Kind, ghost root: Spot) returns (r: Option<string>)
    requires Placed(js, tokens, root) && root.index == 0 && PlainName(name)
    ensures r == if root.value.Obj? && Field(root.value.members, name).Some?
                    && KindOf(Field(root.value.members, name).value) == kind
                 then Some(Inner(Field(root.value.members, name).value)) else None
  {
    hide Toks, Print, Has, Sits;
    FieldPath(root, name);
    var at := GetValueByPath(js, tokens, "/" + name, root);
    if at == -1 { return None; }
    TokenText(js, tokens, FindPath(root, "/" + name, 0).value);
    var token := tokens[at];
    if token.kind != kind { return None; }
    r := Some(js[token.start..token.end]);
  }

  lemma {:induction false} FieldManageable(ms: Members, name: string)
    requires WfMembers(ms) && Field(ms, name).Some?
    ensures Wf(Field(ms, name).value) && Nodes(Field(ms, name).value) <= MemberNodes(ms)
    ensures |Print(Field(ms, name).value)| <= |PrintMembers(ms)|
    decreases ms
  {
    if ms.key != name { FieldManageable(ms.rest, name); }
  }

  lemma FieldOfManageable(v: Json, name: string, room: Room)
    requires Manageable(v, room) && v.Obj? && Field(v.members, name).Some?
    ensures Manageable(Field(v.members, name).value, room)
  {
    assert WfMembers(v.members);
    FieldManageable(v.members, name);
    assert |Print(v)| >= |PrintMembers(v.members)|;
  }
}
