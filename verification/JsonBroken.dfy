/** Documents with a broken string or primitive in them: the tokeniser rejects them. */
module JsonBroken {
  import opened Text
  import opened Jsmn
  import opened JsonTree

  /** Fewer than four hexadecimal digits follow, and no terminator instead. */
  predicate FewDigits(t: string, left: nat)
    decreases left
  {
    left > 0 && (t == "" || (t[0] != NUL && (!Digit16(t[0]) || FewDigits(t[1..], left - 1))))
  }

  /** A string body at which the scan comes to an escape that there is not, or to `\u` without its digits. */
  predicate BadString(t: string) {
    if t == "" then false
    else if t[0] == '\\' then
      if |t| < 2 then false
      else if t[1] == 'u' then FewDigits(t[2..], 4) || (|t| >= 6 && FourFollow(t) && BadString(t[6..]))
      else if ShortEscaped(t[1]) then BadString(t[2..]) else true
    else t[0] != '\"' && t[0] != NUL && BadString(t[1..])
  }

  predicate FourFollow(t: string)
    requires |t| >= 6
  {
    Digit16(t[2]) && Digit16(t[3]) && Digit16(t[4]) && Digit16(t[5])
  }

  /** A control character other than white space, or a byte that is not ASCII. */
  predicate Foreign(c: char) { c != NUL && c != ' ' && c != '\t' && c != '\n' && c != '\r' && !('!' <= c <= '~') }

  /** A primitive with such a byte in it. */
  predicate BadPrim(t: string) {
    && t != "" && t[0] !in "{[\"" && (forall i :: 0 <= i < |t| ==> Unstructured(t[i]) || Foreign(t[i]))
    && exists i :: 0 <= i < |t| && Foreign(t[i])
  }

  /** Well formed, but for the insides of strings and primitives that are values. */
  predicate Loose(v: Json) {
    match v
    case Prim(t) => GoodPrim(t) || BadPrim(t)
    case Str(t) => GoodString(t) || BadString(t)
    case Arr(gap, es) => AllWs(gap) && LooseElems(es)
    case Obj(gap, ms) => AllWs(gap) && LooseMembers(ms)
  }

  predicate LooseElems(es: Elems) {
    es.ECons? ==> AllWs(es.before) && Loose(es.value) && AllWs(es.after) && LooseElems(es.rest)
  }

  predicate LooseMembers(ms: Members) { ms.MCons? ==> WfKey(ms) && Loose(ms.value) && LooseMembers(ms.rest) }

  lemma {:induction false} DigitsBreak(js: string, p: nat, t: string, left: nat)
    requires left <= 4 && FewDigits(t, left) && Has(js, p, t + "\"")
    ensures HexEnd(js, p, left) == None
    decreases left
  {
    if t == "" {
      HasChar(js, p, '\"', "");
    } else {
      assert t + "\"" == [t[0]] + (t[1..] + "\"");
      HasChar(js, p, t[0], t[1..] + "\"");
      if Digit16(t[0]) { DigitsBreak(js, p + 1, t[1..], left - 1); }
    }
  }

  lemma {:induction false} ScanBreaks(js: string, p: nat, t: string)
    requires BadString(t) && Has(js, p, t + "\"")
    ensures StringEnd(js, p) == Broken(Inval)
    decreases |t|
  {
    hide FewDigits;
    var k := if t[0] != '\\' then 1 else if t[1] != 'u' || FewDigits(t[2..], 4) then 2 else 6;
    assert t + "\"" == t[..k] + (t[k..] + "\"");
    HasConcat(js, p, t[..k], t[k..] + "\"");
    forall i | 0 <= i < k ensures js[p + i] == t[i] {
      assert js[p + i] == js[p..p + k][i];
    }
    if k == 6 {
      assert HexEnd(js, p + 4, 2) == Some(p + 6);
      ScanBreaks(js, p + 6, t[6..]);
    } else if k == 2 && t[1] == 'u' {
      DigitsBreak(js, p + 2, t[2..], 4);
    } else if k == 1 || SimpleEscape(t[1]) {
      ScanBreaks(js, p + k, t[k..]);
    }
  }

  lemma {:induction false} PrimBreaks(js: string, p: nat, t: string, k: nat)
    requires Has(js, p, t) && k < |t| && Foreign(t[k])
    requires forall i :: 0 <= i < |t| ==> Unstructured(t[i]) || Foreign(t[i])
    ensures PrimEnd(js, p) == None
    decreases k
  {
    assert t == [t[0]] + t[1..];
    HasChar(js, p, t[0], t[1..]);
    if k > 0 { PrimBreaks(js, p + 1, t[1..], k - 1); }
  }

  predicate Rejects(js: string, st: State, cap: nat)
    requires st.Valid()
  {
    Fill(js, st, cap).Failed? && Fill(js, st, cap).error == Inval
  }

  lemma StrFails(js: string, st: State, t: string, cap: nat)
    requires st.Valid() && BadString(t) && Has(js, st.pos, Print(Str(t)))
    ensures Rejects(js, st, cap)
  {
    assert Print(Str(t)) == ['\"'] + (t + "\"");
    HasChar(js, st.pos, '\"', t + "\"");
    ScanBreaks(js, st.pos + 1, t);
  }

  lemma PrimFails(js: string, st: State, t: string, cap: nat)
    requires st.Valid() && BadPrim(t) && Has(js, st.pos, t)
    ensures Rejects(js, st, cap)
  {
    var k :| 0 <= k < |t| && Foreign(t[k]);
    PrimBreaks(js, st.pos, t, k);
    assert t == [t[0]] + t[1..];
    HasChar(js, st.pos, t[0], t[1..]);
    assert t[0] in t;
    assert PrimitiveStep(js, st, cap) == Stop(Inval, st);
  }

  lemma {:induction false} ValueFails(js: string, st: State, v: Json, cap: nat)
    requires st.Valid() && Loose(v) && !Wf(v) && Has(js, st.pos, Print(v)) && |st.toks| + |Toks(v, st.pos)| <= cap
    ensures Rejects(js, st, cap)
    decreases v, 2
  {
    hide Fill, Has, Print, Toks, BadString, GoodString, BadPrim, GoodPrim, AllWs, LooseElems,
         WfElems, LooseMembers, WfMembers;
    match v {
      case Str(t) => StrFails(js, st, t, cap);
      case Arr(_, _) => ArrayFails(js, st, v, cap);
      case Obj(_, _) => ObjectFails(js, st, v, cap);
      case Prim(t) => assert Print(v) == t by { PrimPrint(t); } PrimFails(js, st, t, cap);
    }
  }

  lemma PrimPrint(t: string)
    ensures Print(Prim(t)) == t
  {
  }

  lemma {:induction false} ArrayFails(js: string, st: State, v: Json, cap: nat)
    requires st.Valid() && v.Arr? && AllWs(v.gap) && LooseElems(v.elems) && !WfElems(v.elems)
    requires Has(js, st.pos, Print(v)) && |st.toks| + |Toks(v, st.pos)| <= cap
    ensures Rejects(js, st, cap)
    decreases v, 1
  {
    hide Fill, Has, AllWs, LooseElems, WfElems, Opened;
    var gap, es := v.gap, v.elems;
    assert Print(v) == ['['] + (gap + PrintElems(es));
    HasChar(js, st.pos, '[', gap + PrintElems(es));
    HasConcat(js, st.pos + 1, gap, PrintElems(es));
    ReadOpen(js, st, Array, gap, cap);
    ElemsFail(js, Opened(st, Array, gap), |st.toks|, es, cap);
  }

  lemma {:induction false} ObjectFails(js: string, st: State, v: Json, cap: nat)
    requires st.Valid() && v.Obj? && AllWs(v.gap) && LooseMembers(v.members) && !WfMembers(v.members)
    requires Has(js, st.pos, Print(v)) && |st.toks| + |Toks(v, st.pos)| <= cap
    ensures Rejects(js, st, cap)
    decreases v, 1
  {
    hide Fill, Has, AllWs, LooseMembers, WfMembers, Opened;
    var gap, ms := v.gap, v.members;
    assert Print(v) == ['{'] + (gap + PrintMembers(ms));
    HasChar(js, st.pos, '{', gap + PrintMembers(ms));
    HasConcat(js, st.pos + 1, gap, PrintMembers(ms));
    ReadOpen(js, st, Object, gap, cap);
    MembersFail(js, Opened(st, Object, gap), |st.toks|, ms, cap);
  }

  lemma {:induction false} ElemsFail(js: string, st: State, k: nat, es: Elems, cap: nat)
    requires Inside(st, k, Array) && LooseElems(es) && !WfElems(es) && Has(js, st.pos, PrintElems(es))
    requires |st.toks| + |ElemToks(es, st.pos)| <= cap
    ensures Rejects(js, st, cap)
    decreases es, 0
  {
    hide Fill, Has, Print, Toks, LastOpen, AllWs, Wf, Loose;
    assert |ElemToks(es, st.pos)| >= |Toks(es.value, ValueAt(es, st.pos))|;
    if !Wf(es.value) {
      var text, tail := Print(es.value), ElemsTail(es.rest);
      assert PrintElems(es) == es.before + (text + (es.after + tail));
      HasConcat(js, st.pos, es.before, text + (es.after + tail));
      HasConcat(js, ValueAt(es, st.pos), text, es.after + tail);
      SkipWs(js, st, es.before, cap);
      ValueFails(js, st.(pos := ValueAt(es, st.pos)), es.value, cap);
    } else {
      ReadFirst(js, st, k, es, cap);
      FirstKeepsInside(st, k, es);
      var st1 := AfterFirst(st, k, es);
      HasChar(js, st1.pos, ',', PrintElems(es.rest));
      ReadComma(js, st1, k, cap);
      ElemsFail(js, st1.(pos := st1.pos + 1), k, es.rest, cap);
    }
  }

  lemma {:induction false} MembersFail(js: string, st: State, k: nat, ms: Members, cap: nat)
    requires Inside(st, k, Object) && LooseMembers(ms) && !WfMembers(ms) && Has(js, st.pos, PrintMembers(ms))
    requires |st.toks| + |MemberToks(ms, st.pos)| <= cap
    ensures Rejects(js, st, cap)
    decreases ms, 0
  {
    hide Fill, Has, Print, Toks, LastOpen, AllWs, Wf, Loose, GoodString;
    var first := Toks(ms.value, MValueAt(ms, st.pos));
    assert |MemberToks(ms, st.pos)| == 1 + |first| + |MemberToks(ms.rest, MRestAt(ms, st.pos))|;
    if !Wf(ms.value) {
      var text, tail := Print(ms.value), MembersTail(ms.rest);
      MemberAssoc(ms.before, "\"" + ms.key + "\"", ms.mid, ":", ms.lead, text, ms.after, tail);
      ReadKey(js, st, k, ms, text + (ms.after + tail), cap);
      HasConcat(js, MValueAt(ms, st.pos), text, ms.after + tail);
      ValueFails(js, AfterKey(st, k, ms), ms.value, cap);
    } else {
      ReadMember(js, st, k, ms, cap);
      MemberKeepsOpen(st, k, ms);
      var st1 := AfterMember(st, k, ms);
      HasChar(js, st1.pos, ',', PrintMembers(ms.rest));
      ReadComma(js, st1, k, cap);
      MembersFail(js, st1.(pos := st1.pos + 1, super := k), k, ms.rest, cap);
    }
  }

  /** A document that is well formed but for the insides of strings and primitives is accepted if and only if these
      are well formed, too. */
  lemma AcceptedIff(v: Json, cap: nat)
    requires Loose(v) && |Toks(v, 0)| <= cap
    ensures Fill(Print(v), INIT, cap).Tokens? <==> Wf(v)
    ensures !Wf(v) ==> Rejects(Print(v), INIT, cap)
  {
    hide Fill, Wf, Loose, Toks, Print;
    if Wf(v) {
      ParsePrinted("", v, "", cap);
      assert AllWs("");
      assert "" + Print(v) + "" == Print(v);
    } else {
      WholeText(Print(v));
      ValueFails(Print(v), INIT, v, cap);
    }
  }
}
