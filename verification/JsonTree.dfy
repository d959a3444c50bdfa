/** JSON documents as trees, their printed text with arbitrary white space, and the tokens that the
    tokeniser must hand out for them. */
module JsonTree {
  import opened Jsmn
  import opened Text

  /** `gap`, `before`, `mid`, `lead` and `after` are the runs of white space between tokens. */
  datatype Json =
    | Prim(text: string)
    | Str(text: string)
    | Arr(gap: string, elems: Elems)
    | Obj(gap: string, members: Members)
  {
    predicate IsContainer() { Arr? || Obj? }
  }

  datatype Elems =
    | ENil
    | ECons(before: string, value: Json, after: string, rest: Elems)

  datatype Members =
    | MNil
    | MCons(before: string, key: string, mid: string, lead: string, value: Json, after: string, rest: Members)

  function Print(v: Json): (s: string)
    ensures |s| > 0 || (v.Prim? && v.text == "")
  {
    match v
    case Prim(t) => t
    case Str(t) => "\"" + t + "\""
    case Arr(gap, es) => "[" + gap + PrintElems(es)
    case Obj(gap, ms) => "{" + gap + PrintMembers(ms)
  }

  /** The text from where an element is expected up to and including the closing bracket. */
  function PrintElems(es: Elems): (s: string)
    ensures |s| > 0
    decreases es, 0
  {
    match es
    case ENil => "]"
    case ECons(before, v, after, rest) => before + Print(v) + after + ElemsTail(rest)
  }

  function ElemsTail(es: Elems): string
    decreases es, 1
  {
    if es.ENil? then "]" else "," + PrintElems(es)
  }

  function PrintMembers(ms: Members): (s: string)
    ensures |s| > 0
    decreases ms, 0
  {
    match ms
    case MNil => "}"
    case MCons(before, key, mid, lead, v, after, rest) =>
      before + ("\"" + key + "\"") + mid + ":" + lead + Print(v) + after + MembersTail(rest)
  }

  function MembersTail(ms: Members): string
    decreases ms, 1
  {
    if ms.MNil? then "}" else "," + PrintMembers(ms)
  }

  // ---------------------------------------------------------------------------------------------
  // What may be printed

  /** White space (section 2 of RFC 8259). */
  predicate AllWs(s: string) { forall i :: 0 <= i < |s| ==> s[i] == ' ' || s[i] == '\t' || s[i] == '\n' || s[i] == '\r' }

  /** Printable ASCII without blanks, and none of the marks that end a value. */
  predicate Unstructured(c: char) { '!' <= c <= '~' && c != ':' && c != ',' && c != ']' && c != '}' }

  predicate GoodPrim(t: string) {
    t != "" && t[0] !in "{[\"" && forall i :: 0 <= i < |t| ==> Unstructured(t[i])
  }

  /** The short escapes, and the digits behind `\u` (section 7 of RFC 8259). */
  predicate ShortEscaped(c: char) {
    c == '\"' || c == '\\' || c == '/' || c == 'b' || c == 'f' || c == 'n' || c == 'r' || c == 't'
  }

  predicate Digit16(c: char) { '0' <= c <= '9' || 'a' <= c <= 'f' || 'A' <= c <= 'F' }

  /** String bodies: plain characters, the eight short escapes, and `\u` with four digits. */
  predicate GoodString(t: string) {
    if t == "" then true
    else if t[0] == '\\' then
      if |t| < 2 then false
      else if t[1] == 'u' then
        |t| >= 6 && Digit16(t[2]) && Digit16(t[3]) && Digit16(t[4]) && Digit16(t[5]) && GoodString(t[6..])
      else ShortEscaped(t[1]) && GoodString(t[2..])
    else t[0] != '\"' && t[0] != NUL && GoodString(t[1..])
  }

  lemma {:induction false} PlainIsGood(s: string)
    requires forall i :: 0 <= i < |s| ==> s[i] != '\\' && s[i] != '\"' && s[i] != NUL
    ensures GoodString(s)
    decreases |s|
  {
    if s != "" { PlainIsGood(s[1..]); }
  }

  predicate Wf(v: Json) {
    match v
    case Prim(t) => GoodPrim(t)
    case Str(t) => GoodString(t)
    case Arr(gap, es) => AllWs(gap) && WfElems(es)
    case Obj(gap, ms) => AllWs(gap) && WfMembers(ms)
  }

  predicate WfElems(es: Elems) {
    match es
    case ENil => true
    case ECons(before, v, after, rest) => AllWs(before) && Wf(v) && AllWs(after) && WfElems(rest)
  }

  predicate WfMembers(ms: Members) {
    match ms
    case MNil => true
    case MCons(before, key, mid, lead, v, after, rest) =>
      AllWs(before) && GoodString(key) && AllWs(mid) && AllWs(lead) && Wf(v) && AllWs(after) && WfMembers(rest)
  }

  /** The first element, and the white space around it. */
  predicate WfFirst(es: Elems) { es.ECons? && AllWs(es.before) && Wf(es.value) && AllWs(es.after) }

  /** All of the first member but its value. */
  predicate WfKey(ms: Members) {
    ms.MCons? && AllWs(ms.before) && GoodString(ms.key) && AllWs(ms.mid) && AllWs(ms.lead) && AllWs(ms.after)
  }

  // ---------------------------------------------------------------------------------------------
  // The tokens of a tree printed at offset `p`, in preorder

  function ELength(es: Elems): nat { if es.ENil? then 0 else 1 + ELength(es.rest) }

  function MLength(ms: Members): nat { if ms.MNil? then 0 else 1 + MLength(ms.rest) }

  function KindOf(v: Json): Kind {
    match v case Prim(_) => Primitive case Str(_) => String case Arr(_, _) => Array case Obj(_, _) => Object
  }

  function RootToken(v: Json, p: nat): Token {
    match v
    case Prim(t) => Token(Primitive, p, p + |t|, 0)
    case Str(t) => Token(String, p + 1, p + 1 + |t|, 0)
    case Arr(_, es) => Token(Array, p, p + |Print(v)|, ELength(es))
    case Obj(_, ms) => Token(Object, p, p + |Print(v)|, MLength(ms))
  }

  function Toks(v: Json, p: nat): (r: seq<Token>)
    ensures |r| > 0 && r[0] == RootToken(v, p)
  {
    [RootToken(v, p)] +
    match v
    case Prim(_) => []
    case Str(_) => []
    case Arr(gap, es) => ElemToks(es, p + 1 + |gap|)
    case Obj(gap, ms) => MemberToks(ms, p + 1 + |gap|)
  }

  /** The offset of the first element's value, and of what follows that element and its comma. */
  function ValueAt(es: Elems, p: nat): nat requires es.ECons? { p + |es.before| }

  function RestAt(es: Elems, p: nat): nat
    requires es.ECons?
  {
    ValueAt(es, p) + |Print(es.value)| + |es.after| + 1
  }

  function ElemToks(es: Elems, p: nat): seq<Token> {
    if es.ENil? then [] else Toks(es.value, ValueAt(es, p)) + ElemToks(es.rest, RestAt(es, p))
  }

  function KeyAt(ms: Members, p: nat): nat requires ms.MCons? { p + |ms.before| + 1 }

  function MValueAt(ms: Members, p: nat): nat
    requires ms.MCons?
  {
    KeyAt(ms, p) + |ms.key| + 1 + |ms.mid| + 1 + |ms.lead|
  }

  function MRestAt(ms: Members, p: nat): nat
    requires ms.MCons?
  {
    MValueAt(ms, p) + |Print(ms.value)| + |ms.after| + 1
  }

  function KeyToken(ms: Members, p: nat): Token
    requires ms.MCons?
  {
    Token(String, KeyAt(ms, p), KeyAt(ms, p) + |ms.key|, 1)
  }

  function MemberToks(ms: Members, p: nat): seq<Token> {
    if ms.MNil? then []
    else [KeyToken(ms, p)] + Toks(ms.value, MValueAt(ms, p)) + MemberToks(ms.rest, MRestAt(ms, p))
  }

  // ---------------------------------------------------------------------------------------------
  // Reading a printed tree

  /** One turn of the loop. */
  lemma Stepped(js: string, st: State, st1: State, cap: nat)
    requires st.Valid() && st1.Valid() && !AtEnd(js, st.pos) && FillStep(js, st, cap) == Next(st1)
    ensures Fill(js, st, cap) == Fill(js, st1, cap)
  {
    hide FillStep;
  }

  lemma WsStep(js: string, st: State, cap: nat)
    requires st.Valid() && st.pos < |js| && IsWs(js[st.pos])
    ensures Fill(js, st, cap) == Fill(js, st.(pos := st.pos + 1), cap)
  {
    hide Fill;
    Stepped(js, st, st.(pos := st.pos + 1), cap);
  }

  lemma {:induction false} SkipWs(js: string, st: State, ws: string, cap: nat)
    requires st.Valid() && AllWs(ws) && Has(js, st.pos, ws)
    ensures Fill(js, st, cap) == Fill(js, st.(pos := st.pos + |ws|), cap)
    decreases |ws|
  {
    hide Fill, Has;
    if ws != "" {
      assert ws == [ws[0]] + ws[1..];
      HasChar(js, st.pos, ws[0], ws[1..]);
      WsStep(js, st, cap);
      SkipWs(js, st.(pos := st.pos + 1), ws[1..], cap);
    }
  }

  lemma {:induction false} StringEnds(js: string, p: nat, t: string)
    requires GoodString(t) && Has(js, p, t + "\"")
    ensures StringEnd(js, p) == Closed(p + |t|)
    decreases |t|
  {
    HasConcat(js, p, t, "\"");
    HasChar(js, p + |t|, '\"', "");
    if t != "" {
      var k := if t[0] != '\\' then 1 else if t[1] != 'u' then 2 else 6;
      assert t + "\"" == t[..k] + (t[k..] + "\"");
      HasConcat(js, p, t[..k], t[k..] + "\"");
      forall i | 0 <= i < k ensures js[p + i] == t[i] {
        assert js[p + i] == js[p..p + k][i];
      }
      if k == 6 {
        assert HexEnd(js, p + 4, 2) == Some(p + 6);
      }
      StringEnds(js, p + k, t[k..]);
    }
  }

  lemma {:induction false} PrimEnds(js: string, p: nat, t: string)
    requires Has(js, p, t) && (AtEnd(js, p + |t|) || EndsPrimitive(js[p + |t|]))
    requires forall i :: 0 <= i < |t| ==> Unstructured(t[i])
    ensures PrimEnd(js, p) == Some(p + |t|)
    decreases |t|
  {
    if t != "" {
      assert t == [t[0]] + t[1..];
      HasChar(js, p, t[0], t[1..]);
      PrimEnds(js, p + 1, t[1..]);
    }
  }

  ghost predicate AllClosed(toks: seq<Token>) {
    forall i :: 0 <= i < |toks| ==> !toks[i].IsOpen()
  }

  lemma {:induction false} ToksClosed(v: Json, p: nat)
    ensures AllClosed(Toks(v, p))
    decreases v
  {
    hide Print, PrintElems, PrintMembers;
    match v
    case Prim(_) =>
    case Str(_) =>
    case Arr(gap, es) => ElemToksClosed(es, p + 1 + |gap|);
    case Obj(gap, ms) => MemberToksClosed(ms, p + 1 + |gap|);
  }

  lemma {:induction false} ElemToksClosed(es: Elems, p: nat)
    ensures AllClosed(ElemToks(es, p))
    decreases es
  {
    hide Print, PrintElems, PrintMembers;
    if es.ECons? {
      ToksClosed(es.value, ValueAt(es, p));
      ElemToksClosed(es.rest, RestAt(es, p));
    }
  }

  lemma {:induction false} MemberToksClosed(ms: Members, p: nat)
    ensures AllClosed(MemberToks(ms, p))
    decreases ms
  {
    hide Print, PrintElems, PrintMembers;
    if ms.MCons? {
      ToksClosed(ms.value, MValueAt(ms, p));
      MemberToksClosed(ms.rest, MRestAt(ms, p));
    }
  }

  /** The parser after reading `v` from `st`. */
  function After(st: State, v: Json): (r: State)
    requires st.Valid()
    ensures r.Valid()
  {
    var toks := Bump(st.toks, st.super) + Toks(v, st.pos);
    State(st.pos + |Print(v)|, toks,
          if v.IsContainer() then LastOpen(st.toks) else st.super,
          st.count + |Toks(v, st.pos)|,
          if st.super == -1 then st.orphans + 1 else st.orphans)
  }

  /** Reading elements or members of the container at `k`, its closing bracket included, hands out
      `more` tokens, adds `n` to the container's size and ends it. */
  function AfterBody(st: State, k: nat, n: nat, len: nat, more: seq<Token>): (r: State)
    requires k < |st.toks|
    ensures r.Valid()
  {
    var t := st.toks[k];
    State(st.pos + len,
          st.toks[k := t.(size := t.size + n, end := st.pos + len)] + more,
          LastOpen(st.toks[..k]),
          st.count + |more|,
          st.orphans)
  }

  ghost predicate Inside(st: State, k: nat, kind: Kind) {
    st.Valid() && LastOpen(st.toks) == k == st.super && st.toks[k].kind == kind
  }

  /** A primitive must be followed by something that ends it; anything else ends by itself. */
  predicate Delimited(js: string, v: Json, p: nat) {
    v.Prim? ==> AtEnd(js, p + |v.text|) || EndsPrimitive(js[p + |v.text|])
  }

  lemma PrimTaken(js: string, st: State, v: Json, cap: nat)
    requires st.Valid() && v.Prim? && |st.toks| < cap && PrimEnd(js, st.pos) == Some(st.pos + |v.text|)
    ensures PrimitiveStep(js, st, cap) == Next(After(st, v))
  {
    assert Toks(v, st.pos) == [RootToken(v, st.pos)];
  }

  lemma StrTaken(js: string, st: State, t: string, cap: nat)
    requires st.Valid() && |st.toks| < cap && StringEnd(js, st.pos + 1) == Closed(st.pos + 1 + |t|)
    ensures StringStep(js, st, cap) == Next(After(st, Str(t)))
  {
    assert Toks(Str(t), st.pos) == [RootToken(Str(t), st.pos)];
    assert Print(Str(t)) == "\"" + t + "\"";
  }

  lemma ReadPrim(js: string, st: State, v: Json, cap: nat)
    requires st.Valid() && v.Prim? && GoodPrim(v.text) && Has(js, st.pos, v.text) && Delimited(js, v, st.pos)
    requires |st.toks| < cap
    ensures Fill(js, st, cap) == Fill(js, After(st, v), cap)
  {
    hide Fill, Has, PrimEnd, PrimitiveStep, After;
    var t := v.text;
    assert t == [t[0]] + t[1..];
    HasChar(js, st.pos, t[0], t[1..]);
    PrimEnds(js, st.pos, t);
    PrimTaken(js, st, v, cap);
    Stepped(js, st, After(st, v), cap);
  }

  lemma ReadStr(js: string, st: State, t: string, cap: nat)
    requires st.Valid() && GoodString(t) && Has(js, st.pos, "\"" + t + "\"")
    requires |st.toks| < cap
    ensures Fill(js, st, cap) == Fill(js, After(st, Str(t)), cap)
  {
    hide Fill, Has, StringEnd, StringStep, After;
    assert "\"" + t + "\"" == ['\"'] + (t + "\"");
    HasChar(js, st.pos, '\"', t + "\"");
    StringEnds(js, st.pos + 1, t);
    StrTaken(js, st, t, cap);
    Stepped(js, st, After(st, Str(t)), cap);
  }

  /** The parser after an opening bracket and the white space that follows it. */
  function Opened(st: State, kind: Kind, gap: string): (r: State)
    requires st.Valid()
    ensures r.Valid()
  {
    var a := Add(st, kind, st.pos, -1, st.pos + 1 + |gap|);
    a.(super := |st.toks|)
  }

  lemma OpenedInside(st: State, kind: Kind, gap: string)
    requires st.Valid()
    ensures Inside(Opened(st, kind, gap), |st.toks|, kind)
    ensures Opened(st, kind, gap).pos == st.pos + 1 + |gap| && |Opened(st, kind, gap).toks| == |st.toks| + 1
  {
  }

  lemma ReadOpen(js: string, st: State, kind: Kind, gap: string, cap: nat)
    requires st.Valid() && |st.toks| < cap && st.pos < |js| && AllWs(gap) && Has(js, st.pos + 1, gap)
    requires (kind == Array && js[st.pos] == '[') || (kind == Object && js[st.pos] == '{')
    ensures Fill(js, st, cap) == Fill(js, Opened(st, kind, gap), cap)
    ensures Inside(Opened(st, kind, gap), |st.toks|, kind)
    ensures Opened(st, kind, gap).pos == st.pos + 1 + |gap| && |Opened(st, kind, gap).toks| == |st.toks| + 1
  {
    hide Fill, Has, AllWs;
    var st1 := OpenStep(st, kind, cap).st;
    Stepped(js, st, st1, cap);
    SkipWs(js, st1, gap, cap);
    OpenedInside(st, kind, gap);
  }

  lemma OpenThenBody(st: State, v: Json, len: nat, more: seq<Token>)
    requires st.Valid() && v.IsContainer()
    requires |Print(v)| == 1 + |v.gap| + len && Toks(v, st.pos) == [RootToken(v, st.pos)] + more
    ensures var n := if v.Arr? then ELength(v.elems) else MLength(v.members);
            AfterBody(Opened(st, KindOf(v), v.gap), |st.toks|, n, len, more) == After(st, v)
  {
    hide Print, PrintElems, PrintMembers, ElemToks, MemberToks;
    var n := if v.Arr? then ELength(v.elems) else MLength(v.members);
    var o := Opened(st, KindOf(v), v.gap);
    var k := |st.toks|;
    assert o.toks[..k] == Bump(st.toks, st.super);
    assert o.toks[k := o.toks[k].(size := n, end := o.pos + len)] == Bump(st.toks, st.super) + [RootToken(v, st.pos)];
    assert AfterBody(o, k, n, len, more).toks == After(st, v).toks;
    BumpKeepsOpen(st.toks, st.super);
  }

  lemma BumpKeepsOpen(toks: seq<Token>, super: int)
    requires -1 <= super < |toks|
    ensures LastOpen(Bump(toks, super)) == LastOpen(toks)
  {
  }

  /** Reading one printed value adds its preorder tokens, credits it to the superior token, and
      leaves as superior what the value's kind calls for. */
  lemma {:induction false} ReadValue(js: string, st: State, v: Json, cap: nat)
    requires st.Valid() && Wf(v) && Has(js, st.pos, Print(v)) && Delimited(js, v, st.pos)
    requires |st.toks| + |Toks(v, st.pos)| <= cap
    ensures Fill(js, st, cap) == Fill(js, After(st, v), cap)
    decreases v, 1
  {
    hide Fill;
    match v
    case Prim(t) => ReadPrim(js, st, v, cap);
    case Str(t) => ReadStr(js, st, t, cap);
    case Arr(_, _) => ReadArr(js, st, v, cap);
    case Obj(_, _) => ReadObj(js, st, v, cap);
  }

  lemma {:induction false} ReadArr(js: string, st: State, v: Json, cap: nat)
    requires st.Valid() && Wf(v) && v.Arr? && Has(js, st.pos, Print(v))
    requires |st.toks| + |Toks(v, st.pos)| <= cap
    ensures Fill(js, st, cap) == Fill(js, After(st, v), cap)
    decreases v, 0
  {
    hide Fill, Has, Opened, After, AfterBody;
    var gap, body := v.gap, PrintElems(v.elems);
    assert Print(v) == ['['] + (gap + body);
    HasChar(js, st.pos, '[', gap + body);
    HasConcat(js, st.pos + 1, gap, body);
    ReadOpen(js, st, Array, gap, cap);
    var more := ElemToks(v.elems, st.pos + 1 + |gap|);
    ReadElems(js, Opened(st, Array, gap), |st.toks|, v.elems, cap);
    OpenThenBody(st, v, |body|, more);
  }

  lemma {:induction false} ReadObj(js: string, st: State, v: Json, cap: nat)
    requires st.Valid() && Wf(v) && v.Obj? && Has(js, st.pos, Print(v))
    requires |st.toks| + |Toks(v, st.pos)| <= cap
    ensures Fill(js, st, cap) == Fill(js, After(st, v), cap)
    decreases v, 0
  {
    hide Fill, Has, Opened, After, AfterBody;
    var gap, body := v.gap, PrintMembers(v.members);
    assert Print(v) == ['{'] + (gap + body);
    HasChar(js, st.pos, '{', gap + body);
    HasConcat(js, st.pos + 1, gap, body);
    ReadOpen(js, st, Object, gap, cap);
    var more := MemberToks(v.members, st.pos + 1 + |gap|);
    ReadMembers(js, Opened(st, Object, gap), |st.toks|, v.members, cap);
    OpenThenBody(st, v, |body|, more);
  }

  lemma OpenThenClosed(toks: seq<Token>, more: seq<Token>)
    requires AllClosed(more)
    ensures LastOpen(toks + more) == LastOpen(toks)
  {
    assert forall i :: |toks| <= i < |toks + more| ==> (toks + more)[i] == more[i - |toks|];
    var j := LastOpen(toks);
    if j >= 0 {
      assert (toks + more)[j].IsOpen();
    }
  }

  /** At the closing bracket of the container at `k`. */
  lemma ReadClose(js: string, st: State, k: nat, kind: Kind, cap: nat)
    requires st.Valid() && LastOpen(st.toks) == k && st.toks[k].kind == kind && st.pos < |js|
    requires (kind == Array && js[st.pos] == ']') || (kind == Object && js[st.pos] == '}')
    ensures Fill(js, st, cap) == Fill(js, AfterBody(st, k, 0, 1, []), cap)
  {
    hide Fill;
    assert CloseStep(st, kind).st.toks[..k] == st.toks[..k];
    assert AfterBody(st, k, 0, 1, []).toks == CloseStep(st, kind).st.toks;
    Stepped(js, st, AfterBody(st, k, 0, 1, []), cap);
  }

  /** At a comma in the container at `k`, which becomes the superior again. */
  lemma ReadComma(js: string, st: State, k: nat, cap: nat)
    requires st.Valid() && LastOpen(st.toks) == k && st.toks[k].IsContainer() && st.pos < |js| && js[st.pos] == ','
    requires st.super == k || (0 <= st.super && !st.toks[st.super].IsContainer())
    ensures Fill(js, st, cap) == Fill(js, st.(pos := st.pos + 1, super := k), cap)
  {
    hide Fill;
    assert LastOpenContainer(st.toks) == k;
    Stepped(js, st, st.(pos := st.pos + 1, super := k), cap);
  }

  /** Items one by one: the tokens of the first, then those of the rest. */
  lemma BodyThenBody(st: State, k: nat, first: State, len: nat, more: seq<Token>, n: nat, len': nat, more': seq<Token>)
    requires k < |st.toks|
    requires first == State(st.pos + len, st.toks[k := st.toks[k].Bumped()] + more, first.super,
                               st.count + |more|, st.orphans)
    ensures AfterBody(first, k, n, len', more') == AfterBody(st, k, n + 1, len + len', more + more')
  {
    var a, b := AfterBody(first, k, n, len', more'), AfterBody(st, k, n + 1, len + len', more + more');
    assert a.toks == b.toks;
    assert first.toks[..k] == st.toks[..k];
  }

  /** The parser when the first element and the white space after it have been read. */
  function AfterFirst(st: State, k: nat, es: Elems): (r: State)
    requires st.Valid() && k < |st.toks| && es.ECons?
    ensures r.Valid()
  {
    var toks := Toks(es.value, ValueAt(es, st.pos));
    State(RestAt(es, st.pos) - 1, st.toks[k := st.toks[k].Bumped()] + toks, k, st.count + |toks|, st.orphans)
  }

  lemma ReadDelimited(js: string, v: Json, p: nat, after: string, tail: string)
    requires Has(js, p, Print(v)) && Has(js, p + |Print(v)|, after + tail) && AllWs(after)
    requires tail != "" && EndsPrimitive(tail[0])
    ensures Delimited(js, v, p)
  {
    var q := p + |Print(v)|;
    assert (after + tail)[0] == js[q..q + |after + tail|][0] == js[q];
  }

  lemma {:induction false} ReadFirst(js: string, st: State, k: nat, es: Elems, cap: nat)
    requires Inside(st, k, Array) && es.ECons? && WfFirst(es) && Has(js, st.pos, PrintElems(es))
    requires |st.toks| + |Toks(es.value, ValueAt(es, st.pos))| <= cap
    ensures Fill(js, st, cap) == Fill(js, AfterFirst(st, k, es), cap)
    ensures Has(js, RestAt(es, st.pos) - 1, ElemsTail(es.rest))
    decreases es, 0
  {
    hide Has, Print, Toks;
    hide Fill;
    var v, tail := es.value, ElemsTail(es.rest);
    var text, p := Print(v), ValueAt(es, st.pos);
    assert PrintElems(es) == es.before + (text + (es.after + tail));
    HasConcat(js, st.pos, es.before, text + (es.after + tail));
    HasConcat(js, p, text, es.after + tail);
    ReadDelimited(js, v, p, es.after, tail);
    HasConcat(js, p + |text|, es.after, tail);
    SkipWs(js, st, es.before, cap);
    var st1 := st.(pos := p);
    ReadValue(js, st1, v, cap);
    SkipWs(js, After(st1, v), es.after, cap);
    assert After(st1, v).(pos := p + |text| + |es.after|) == AfterFirst(st, k, es);
  }

  lemma FirstKeepsInside(st: State, k: nat, es: Elems)
    requires Inside(st, k, Array) && es.ECons?
    ensures Inside(AfterFirst(st, k, es), k, Array)
  {
    ToksClosed(es.value, ValueAt(es, st.pos));
    BumpKeepsOpen(st.toks, k);
    OpenThenClosed(Bump(st.toks, k), Toks(es.value, ValueAt(es, st.pos)));
  }

  /** From a state to the one after the body at which it stands. */
  ghost predicate ReadsElems(js: string, st: State, k: nat, es: Elems, cap: nat)
    requires st.Valid() && k < |st.toks|
  {
    Fill(js, st, cap) == Fill(js, AfterBody(st, k, ELength(es), |PrintElems(es)|, ElemToks(es, st.pos)), cap)
  }

  lemma ReadLast(js: string, st: State, k: nat, es: Elems, cap: nat)
    requires Inside(st, k, Array) && es.ECons? && es.rest.ENil?
    requires Inside(AfterFirst(st, k, es), k, Array)
    requires Has(js, AfterFirst(st, k, es).pos, "]")
    requires Fill(js, st, cap) == Fill(js, AfterFirst(st, k, es), cap)
    ensures ReadsElems(js, st, k, es, cap)
  {
    hide Fill;
    var st1, toks := AfterFirst(st, k, es), Toks(es.value, ValueAt(es, st.pos));
    HasChar(js, st1.pos, ']', "");
    ReadClose(js, st1, k, Array, cap);
    BodyThenBody(st, k, st1, st1.pos - st.pos, toks, 0, 1, []);
    assert ElemToks(es, st.pos) == toks + [] && ELength(es) == 1;
    assert |PrintElems(es)| == st1.pos - st.pos + 1;
  }

  lemma ReadNext(js: string, st: State, k: nat, es: Elems, cap: nat)
    requires Inside(st, k, Array) && es.ECons? && es.rest.ECons?
    requires var st2 := AfterFirst(st, k, es).(pos := RestAt(es, st.pos));
             Fill(js, st, cap) == Fill(js, st2, cap) && ReadsElems(js, st2, k, es.rest, cap)
    ensures ReadsElems(js, st, k, es, cap)
  {
    hide Fill;
    var st2, toks := AfterFirst(st, k, es).(pos := RestAt(es, st.pos)), Toks(es.value, ValueAt(es, st.pos));
    BodyThenBody(st, k, st2, st2.pos - st.pos, toks, ELength(es.rest), |PrintElems(es.rest)|,
                 ElemToks(es.rest, st2.pos));
    assert |PrintElems(es)| == st2.pos - st.pos + |PrintElems(es.rest)|;
  }

  lemma {:induction false} ReadElems(js: string, st: State, k: nat, es: Elems, cap: nat)
    requires Inside(st, k, Array) && WfElems(es) && Has(js, st.pos, PrintElems(es))
    requires |st.toks| + |ElemToks(es, st.pos)| <= cap
    ensures ReadsElems(js, st, k, es, cap)
    decreases es, 1
  {
    hide Fill, Has, Print, Toks, LastOpen;
    if es.ECons? { assert |ElemToks(es, st.pos)| >= |Toks(es.value, ValueAt(es, st.pos))|; }
    if es.ENil? {
      assert "]" == [']'] + "";
      HasChar(js, st.pos, ']', "");
      ReadClose(js, st, k, Array, cap);
    } else {
      ReadFirst(js, st, k, es, cap);
      FirstKeepsInside(st, k, es);
      if es.rest.ENil? {
        ReadLast(js, st, k, es, cap);
      } else {
        var st1 := AfterFirst(st, k, es);
        HasChar(js, st1.pos, ',', PrintElems(es.rest));
        ReadComma(js, st1, k, cap);
        ReadElems(js, st1.(pos := st1.pos + 1), k, es.rest, cap);
        ReadNext(js, st, k, es, cap);
      }
    }
  }

  // Members: as elements, with a key in front of each value.

  /** The parser when the first key, its colon and the white space up to the value have been read. */
  function AfterKey(st: State, k: nat, ms: Members): (r: State)
    requires st.Valid() && k < |st.toks| && ms.MCons?
    ensures r.Valid()
  {
    State(MValueAt(ms, st.pos), st.toks[k := st.toks[k].Bumped()] + [KeyToken(ms, st.pos).(size := 0)],
          |st.toks|, st.count + 1, st.orphans)
  }

  lemma ReadKey(js: string, st: State, k: nat, ms: Members, more: string, cap: nat)
    requires Inside(st, k, Object) && ms.MCons? && WfKey(ms) && |st.toks| < cap
    requires Has(js, st.pos, ms.before + (("\"" + ms.key + "\"") + (ms.mid + (":" + (ms.lead + more)))))
    ensures Fill(js, st, cap) == Fill(js, AfterKey(st, k, ms), cap)
    ensures Has(js, MValueAt(ms, st.pos), more)
  {
    hide Fill, Has, AllWs, GoodString, LastOpen;
    var key := "\"" + ms.key + "\"";
    var p := st.pos + |ms.before|;
    HasConcat(js, st.pos, ms.before, key + (ms.mid + (":" + (ms.lead + more))));
    HasConcat(js, p, key, ms.mid + (":" + (ms.lead + more)));
    HasConcat(js, p + |key|, ms.mid, ":" + (ms.lead + more));
    var q := p + |key| + |ms.mid|;
    HasChar(js, q, ':', ms.lead + more);
    HasConcat(js, q + 1, ms.lead, more);
    SkipWs(js, st, ms.before, cap);
    ReadStr(js, st.(pos := p), ms.key, cap);
    var st1 := After(st.(pos := p), Str(ms.key));
    SkipWs(js, st1, ms.mid, cap);
    ReadColon(js, st1.(pos := q), cap);
    var st2 := st1.(pos := q + 1, super := |st1.toks| - 1);
    SkipWs(js, st2, ms.lead, cap);
    assert st2.(pos := MValueAt(ms, st.pos)).toks == AfterKey(st, k, ms).toks;
  }

  lemma ReadColon(js: string, st: State, cap: nat)
    requires st.Valid() && st.pos < |js| && js[st.pos] == ':'
    ensures Fill(js, st, cap) == Fill(js, st.(pos := st.pos + 1, super := |st.toks| - 1), cap)
  {
  }

  /** The parser when the first member and the white space after it have been read. */
  function AfterMember(st: State, k: nat, ms: Members): (r: State)
    requires st.Valid() && k < |st.toks| && ms.MCons?
    ensures r.Valid()
  {
    var toks := [KeyToken(ms, st.pos)] + Toks(ms.value, MValueAt(ms, st.pos));
    State(MRestAt(ms, st.pos) - 1, st.toks[k := st.toks[k].Bumped()] + toks,
          if ms.value.IsContainer() then k else |st.toks|, st.count + |toks|, st.orphans)
  }

  lemma MemberAssoc(a: string, b: string, c: string, d: string, e: string, f: string, g: string, h: string)
    ensures a + b + c + d + e + f + g + h == a + (b + (c + (d + (e + (f + (g + h))))))
  {
  }

  lemma {:induction false} ReadMember(js: string, st: State, k: nat, ms: Members, cap: nat)
    requires Inside(st, k, Object) && ms.MCons? && WfKey(ms) && Wf(ms.value) && Has(js, st.pos, PrintMembers(ms))
    requires |st.toks| + 1 + |Toks(ms.value, MValueAt(ms, st.pos))| <= cap
    ensures Fill(js, st, cap) == Fill(js, AfterMember(st, k, ms), cap)
    ensures Has(js, MRestAt(ms, st.pos) - 1, MembersTail(ms.rest))
    decreases ms, 0
  {
    hide Fill, Has, Print, Toks, AllWs, GoodString, LastOpen;
    var v, tail := ms.value, MembersTail(ms.rest);
    var text, p := Print(v), MValueAt(ms, st.pos);
    MemberAssoc(ms.before, "\"" + ms.key + "\"", ms.mid, ":", ms.lead, text, ms.after, tail);
    ReadKey(js, st, k, ms, text + (ms.after + tail), cap);
    var st1 := AfterKey(st, k, ms);
    HasConcat(js, p, text, ms.after + tail);
    ReadDelimited(js, v, p, ms.after, tail);
    HasConcat(js, p + |text|, ms.after, tail);
    ReadValue(js, st1, v, cap);
    SkipWs(js, After(st1, v), ms.after, cap);
    ValueThenMember(st, k, ms);
  }

  lemma ValueThenMember(st: State, k: nat, ms: Members)
    requires Inside(st, k, Object) && ms.MCons?
    ensures After(AfterKey(st, k, ms), ms.value).(pos := MRestAt(ms, st.pos) - 1) == AfterMember(st, k, ms)
  {
    var st1 := AfterKey(st, k, ms);
    BumpKeepsOpen(st.toks, k);
    OpenThenClosed(Bump(st.toks, k), [KeyToken(ms, st.pos).(size := 0)]);
    assert Bump(st1.toks, st1.super) == st.toks[k := st.toks[k].Bumped()] + [KeyToken(ms, st.pos)];
    assert After(st1, ms.value).toks == AfterMember(st, k, ms).toks;
  }

  lemma MemberKeepsOpen(st: State, k: nat, ms: Members)
    requires Inside(st, k, Object) && ms.MCons?
    ensures var st1 := AfterMember(st, k, ms);
            LastOpen(st1.toks) == k && st1.toks[k].kind == Object
            && (st1.super == k || !st1.toks[st1.super].IsContainer())
  {
    var toks := Toks(ms.value, MValueAt(ms, st.pos));
    ToksClosed(ms.value, MValueAt(ms, st.pos));
    BumpKeepsOpen(st.toks, k);
    OpenThenClosed(Bump(st.toks, k), [KeyToken(ms, st.pos)] + toks);
  }

  ghost predicate ReadsMembers(js: string, st: State, k: nat, ms: Members, cap: nat)
    requires st.Valid() && k < |st.toks|
  {
    Fill(js, st, cap) == Fill(js, AfterBody(st, k, MLength(ms), |PrintMembers(ms)|, MemberToks(ms, st.pos)), cap)
  }

  lemma ReadLastMember(js: string, st: State, k: nat, ms: Members, cap: nat)
    requires Inside(st, k, Object) && ms.MCons? && ms.rest.MNil?
    requires Has(js, AfterMember(st, k, ms).pos, "}")
    requires Fill(js, st, cap) == Fill(js, AfterMember(st, k, ms), cap)
    ensures ReadsMembers(js, st, k, ms, cap)
  {
    hide Fill;
    MemberKeepsOpen(st, k, ms);
    var st1, toks := AfterMember(st, k, ms), [KeyToken(ms, st.pos)] + Toks(ms.value, MValueAt(ms, st.pos));
    HasChar(js, st1.pos, '}', "");
    ReadClose(js, st1, k, Object, cap);
    BodyThenBody(st, k, st1, st1.pos - st.pos, toks, 0, 1, []);
    assert MemberToks(ms, st.pos) == toks + [] && MLength(ms) == 1;
    assert |PrintMembers(ms)| == st1.pos - st.pos + 1;
  }

  lemma ReadNextMember(js: string, st: State, k: nat, ms: Members, cap: nat)
    requires Inside(st, k, Object) && ms.MCons? && ms.rest.MCons?
    requires var st2 := AfterMember(st, k, ms).(pos := MRestAt(ms, st.pos), super := k);
             Fill(js, st, cap) == Fill(js, st2, cap) && ReadsMembers(js, st2, k, ms.rest, cap)
    ensures ReadsMembers(js, st, k, ms, cap)
  {
    hide Fill;
    var st2 := AfterMember(st, k, ms).(pos := MRestAt(ms, st.pos), super := k);
    var toks := [KeyToken(ms, st.pos)] + Toks(ms.value, MValueAt(ms, st.pos));
    BodyThenBody(st, k, st2, st2.pos - st.pos, toks, MLength(ms.rest), |PrintMembers(ms.rest)|,
                 MemberToks(ms.rest, st2.pos));
    assert |PrintMembers(ms)| == st2.pos - st.pos + |PrintMembers(ms.rest)|;
  }

  lemma {:induction false} ReadMembers(js: string, st: State, k: nat, ms: Members, cap: nat)
    requires Inside(st, k, Object) && WfMembers(ms) && Has(js, st.pos, PrintMembers(ms))
    requires |st.toks| + |MemberToks(ms, st.pos)| <= cap
    ensures ReadsMembers(js, st, k, ms, cap)
    decreases ms, 1
  {
    hide Fill, Has, Print, Toks, LastOpen;
    if ms.MNil? {
      assert "}" == ['}'] + "";
      HasChar(js, st.pos, '}', "");
      ReadClose(js, st, k, Object, cap);
    } else {
      ReadMember(js, st, k, ms, cap);
      if ms.rest.MNil? {
        ReadLastMember(js, st, k, ms, cap);
      } else {
        MemberKeepsOpen(st, k, ms);
        var st1 := AfterMember(st, k, ms);
        HasChar(js, st1.pos, ',', PrintMembers(ms.rest));
        ReadComma(js, st1, k, cap);
        ReadMembers(js, st1.(pos := st1.pos + 1, super := k), k, ms.rest, cap);
        ReadNextMember(js, st, k, ms, cap);
      }
    }
  }

  lemma ReadDocument(js: string, lead: string, v: Json, trail: string, cap: nat)
    requires Wf(v) && AllWs(lead) && AllWs(trail) && |Toks(v, |lead|)| <= cap
    requires js == lead + (Print(v) + trail)
    ensures Fill(js, INIT, cap) == Fill(js, After(INIT.(pos := |lead|), v).(pos := |js|), cap)
  {
    hide Fill, Has, Wf, AllWs, Toks, Print;
    WholeText(js);
    HasConcat(js, 0, lead, Print(v) + trail);
    HasConcat(js, |lead|, Print(v), trail);
    SkipWs(js, INIT, lead, cap);
    var st := INIT.(pos := |lead|);
    LastDelimited(js, lead, v, trail);
    ReadValue(js, st, v, cap);
    SkipWs(js, After(st, v), trail, cap);
  }

  lemma WholeText(js: string)
    ensures Has(js, 0, js)
  {
  }

  lemma LastDelimited(js: string, lead: string, v: Json, trail: string)
    requires AllWs(trail) && js == lead + (Print(v) + trail)
    ensures Delimited(js, v, |lead|)
  {
    hide Toks;
    if trail != "" { assert js[|lead| + |Print(v)|] == trail[0]; }
  }

  /** Tokenising the printed text of a document, white space around and inside it as it may be,
      succeeds when there is room for its nodes and keys, and hands out exactly its preorder tokens,
      each with its kind, its offsets and its number of children. */
  lemma ParsePrinted(lead: string, v: Json, trail: string, cap: nat)
    requires Wf(v) && AllWs(lead) && AllWs(trail) && |Toks(v, |lead|)| <= cap
    ensures var f := Fill(lead + Print(v) + trail, INIT, cap);
            f.Tokens? && f.final.toks == Toks(v, |lead|) && f.final.count == |Toks(v, |lead|)|
  {
    hide Fill;
    var js := lead + Print(v) + trail;
    ReadDocument(js, lead, v, trail, cap);
    var st := After(INIT.(pos := |lead|), v).(pos := |js|);
    assert st.toks == Toks(v, |lead|);
    ToksClosed(v, |lead|);
    ParseEnds(js, st, cap);
  }

  lemma ParseEnds(js: string, st: State, cap: nat)
    requires st.Valid() && st.pos == |js| && AllClosed(st.toks)
    ensures Fill(js, st, cap) == Tokens(st)
  {
  }
}
