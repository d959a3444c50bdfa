/** The brackets of the texts that the tokeniser accepts: each container is closed by its own kind, and
    nothing less than the whole of it will do. */
module JsonBrackets {
  import opened Text
  import opened Jsmn
  import opened JsonTree

  // ---------------------------------------------------------------------------------------------
  // Every container is closed

  predicate OpenedBy(k: Kind, c: char) { (k == Object && c == '{') || (k == Array && c == '[') }

  predicate ClosedBy(k: Kind, c: char) { (k == Object && c == '}') || (k == Array && c == ']') }

  /** The token lies inside the text, and a container from its opening bracket up to and including its
      closing one. */
  predicate Spans(js: string, t: Token) {
    && 0 <= t.start <= t.end <= |js|
    && (t.IsContainer() ==> t.start < t.end && OpenedBy(t.kind, js[t.start]) && ClosedBy(t.kind, js[t.end - 1]))
  }

  /** What is known of a token when `pos` bytes have been read. */
  predicate SoFar(js: string, pos: nat, t: Token) {
    if t.IsOpen() then t.IsContainer() && 0 <= t.start < pos <= |js| && OpenedBy(t.kind, js[t.start])
    else Spans(js, t) && t.end <= pos
  }

  ghost predicate Bracketed(js: string, st: State) {
    st.Valid() && forall i :: 0 <= i < |st.toks| ==> SoFar(js, st.pos, st.toks[i])
  }

  lemma AddKeepsBrackets(js: string, st: State, kind: Kind, start: nat, end: int, next: nat)
    requires Bracketed(js, st) && st.pos <= next <= |js| && SoFar(js, next, Token(kind, start, end, 0))
    ensures Bracketed(js, Add(st, kind, start, end, next))
  {
  }

  lemma StepKeepsBrackets(js: string, st: State, cap: nat)
    requires Bracketed(js, st) && !AtEnd(js, st.pos) && FillStep(js, st, cap).Next?
    ensures Bracketed(js, FillStep(js, st, cap).st)
  {
    hide StringEnd, PrimEnd, LastOpen, LastOpenContainer, Add;
    var c := js[st.pos];
    if c == '{' || c == '[' {
      AddKeepsBrackets(js, st, if c == '{' then Object else Array, st.pos, -1, st.pos + 1);
    } else if c == '\"' {
      var q := StringEnd(js, st.pos + 1).quote;
      AddKeepsBrackets(js, st, String, st.pos + 1, q, q + 1);
    } else if c !in "}]:," && !IsWs(c) {
      var e := PrimEnd(js, st.pos).value;
      AddKeepsBrackets(js, st, Primitive, st.pos, e, e);
    }
  }

  /** Of every text that is accepted, JSON or not, every token lies inside the text, and every container has its
      two brackets where it begins and ends. */
  lemma {:induction false} AcceptedBrackets(js: string, st: State, cap: nat)
    requires Bracketed(js, st) && Fill(js, st, cap).Tokens?
    ensures forall i :: 0 <= i < |Fill(js, st, cap).final.toks| ==> Spans(js, Fill(js, st, cap).final.toks[i])
    decreases |js| - st.pos
  {
    hide FillStep, LastOpen;
    if !AtEnd(js, st.pos) {
      StepKeepsBrackets(js, st, cap);
      AcceptedBrackets(js, FillStep(js, st, cap).st, cap);
    }
  }

  // ---------------------------------------------------------------------------------------------
  // What becomes of a token

  /** An open token is closed behind `st`; nothing else about a token but its size changes. */
  predicate Becomes(st: State, t: Token, t1: Token) {
    && t1.kind == t.kind && t1.start == t.start
    && if t.IsOpen() then t1.end > st.pos else t1.end == t.end
  }

  lemma StepBecomes(js: string, st: State, cap: nat, i: nat)
    requires st.Valid() && !AtEnd(js, st.pos) && FillStep(js, st, cap).Next? && i < |st.toks|
    ensures var st1 := FillStep(js, st, cap).st;
            && i < |st1.toks| && st1.toks[i].kind == st.toks[i].kind && st1.toks[i].start == st.toks[i].start
            && (st1.toks[i].end == st.toks[i].end || (st.toks[i].IsOpen() && st1.toks[i].end == st.pos + 1 == st1.pos))
  {
    hide StringEnd, PrimEnd, LastOpenContainer;
  }

  lemma {:induction false} RunBecomes(js: string, st: State, cap: nat, i: nat)
    requires st.Valid() && Fill(js, st, cap).Tokens? && i < |st.toks|
    ensures var f := Fill(js, st, cap).final; i < |f.toks| && Becomes(st, st.toks[i], f.toks[i])
    decreases |js| - st.pos
  {
    hide FillStep;
    if !AtEnd(js, st.pos) {
      StepBecomes(js, st, cap, i);
      RunBecomes(js, FillStep(js, st, cap).st, cap, i);
    }
  }

  /** A step adds one token at most, and if that is a container, an open one. */
  lemma StepAdds(js: string, st: State, cap: nat)
    requires st.Valid() && !AtEnd(js, st.pos) && FillStep(js, st, cap).Next?
    ensures var st1 := FillStep(js, st, cap).st;
            && |st.toks| <= |st1.toks| <= |st.toks| + 1
            && (|st1.toks| > |st.toks| ==> st1.toks[|st.toks|].IsContainer() ==> st1.toks[|st.toks|].IsOpen())
  {
    hide StringEnd, PrimEnd, LastOpen, LastOpenContainer;
  }

  /** A container that is still to come ends later. */
  lemma {:induction false} LaterEnds(js: string, st: State, cap: nat, i: nat)
    requires st.Valid() && Fill(js, st, cap).Tokens? && |st.toks| <= i < |Fill(js, st, cap).final.toks|
    requires Fill(js, st, cap).final.toks[i].IsContainer()
    ensures Fill(js, st, cap).final.toks[i].end > st.pos
    decreases |js| - st.pos
  {
    hide FillStep, LastOpen;
    if !AtEnd(js, st.pos) {
      var st1 := FillStep(js, st, cap).st;
      StepAdds(js, st, cap);
      if i < |st1.toks| { RunBecomes(js, st1, cap, i); } else { LaterEnds(js, st1, cap, i); }
    }
  }

  // ---------------------------------------------------------------------------------------------
  // Texts that begin alike

  /** Up to `m` the texts are the same, and the second one ends there or goes on with the end of a primitive. */
  predicate Alike(js: string, js2: string, m: nat) {
    m <= |js| && m <= |js2| && js[..m] == js2[..m] && (AtEnd(js2, m) || EndsPrimitive(js2[m]))
  }

  lemma AlikeAt(js: string, js2: string, m: nat, p: nat)
    requires Alike(js, js2, m) && p < m
    ensures js[p] == js2[p] && AtEnd(js, p) == AtEnd(js2, p)
  {
    assert js[..m][p] == js2[..m][p];
  }

  lemma {:induction false} HexAlike(js: string, js2: string, m: nat, p: nat, left: nat)
    requires Alike(js, js2, m) && HexEnd(js, p, left).Some? && HexEnd(js, p, left).value < m
    ensures HexEnd(js2, p, left) == HexEnd(js, p, left)
    decreases left
  {
    if p < m { AlikeAt(js, js2, m, p); }
    if left > 0 && !AtEnd(js, p) { HexAlike(js, js2, m, p + 1, left - 1); }
  }

  lemma {:induction false} StringAlike(js: string, js2: string, m: nat, p: nat)
    requires Alike(js, js2, m) && StringEnd(js, p).Closed? && StringEnd(js, p).quote < m
    ensures StringEnd(js2, p) == StringEnd(js, p)
    decreases |js| - p
  {
    AlikeAt(js, js2, m, p);
    if js[p] == '\"' {
    } else if js[p] == '\\' && p + 1 < |js| {
      AlikeAt(js, js2, m, p + 1);
      if SimpleEscape(js[p + 1]) {
        StringAlike(js, js2, m, p + 2);
      } else {
        HexAlike(js, js2, m, p + 2, 4);
        StringAlike(js, js2, m, HexEnd(js, p + 2, 4).value);
      }
    } else {
      StringAlike(js, js2, m, p + 1);
    }
  }

  lemma {:induction false} PrimAlike(js: string, js2: string, m: nat, p: nat)
    requires Alike(js, js2, m) && PrimEnd(js, p).Some? && PrimEnd(js, p).value <= m
    ensures PrimEnd(js2, p) == PrimEnd(js, p)
    decreases |js| - p
  {
    if p < m {
      AlikeAt(js, js2, m, p);
      if !AtEnd(js, p) && !EndsPrimitive(js[p]) { PrimAlike(js, js2, m, p + 1); }
    }
  }

  lemma StepAlike(js: string, js2: string, m: nat, st: State, cap: nat)
    requires Alike(js, js2, m) && st.Valid() && st.pos < m && !AtEnd(js, st.pos)
    requires FillStep(js, st, cap).Next? && FillStep(js, st, cap).st.pos <= m
    ensures !AtEnd(js2, st.pos) && FillStep(js2, st, cap) == FillStep(js, st, cap)
  {
    hide StringEnd, PrimEnd, LastOpen, LastOpenContainer, CloseStep, CommaStep, OpenStep;
    var c := js[st.pos];
    AlikeAt(js, js2, m, st.pos);
    if c == '\"' {
      StringAlike(js, js2, m, st.pos + 1);
    } else if c !in "{}[]:," && !IsWs(c) {
      PrimAlike(js, js2, m, st.pos);
    }
  }

  // ---------------------------------------------------------------------------------------------
  // Less than the whole

  lemma {:induction false} HexCut(js: string, n: nat, p: nat, left: nat)
    requires p <= n <= |js| && HexEnd(js, p, left).Some? && HexEnd(js, p, left).value >= n
    ensures HexEnd(js[..n], p, left) == Some(n)
    decreases left
  {
    if p < n && left > 0 && !AtEnd(js, p) { HexCut(js, n, p + 1, left - 1); }
  }

  lemma {:induction false} StringCut(js: string, n: nat, p: nat)
    requires p <= n <= |js| && StringEnd(js, p).Closed? && StringEnd(js, p).quote >= n
    ensures StringEnd(js[..n], p) == Broken(Part)
    decreases |js| - p
  {
    assert Alike(js, js[..n], n);
    if p < n {
      if js[p] == '\\' && p + 1 < |js| {
        if SimpleEscape(js[p + 1]) {
          if p + 1 < n { StringCut(js, n, p + 2); }
        } else if p + 1 < n {
          var q := HexEnd(js, p + 2, 4).value;
          if q < n { HexAlike(js, js[..n], n, p + 2, 4); StringCut(js, n, q); } else { HexCut(js, n, p + 2, 4); }
        }
      } else {
        StringCut(js, n, p + 1);
      }
    }
  }

  lemma {:induction false} PrimCut(js: string, n: nat, p: nat)
    requires p <= n <= |js| && PrimEnd(js, p).Some? && PrimEnd(js, p).value >= n
    ensures PrimEnd(js[..n], p) == Some(n)
    decreases |js| - p
  {
    if p < n { PrimCut(js, n, p + 1); }
  }

  /** Cut inside a string or a primitive, with a token open. */
  lemma StepCut(js: string, n: nat, st: State, cap: nat, k: nat)
    requires st.Valid() && st.pos < n <= |js| && !AtEnd(js, st.pos)
    requires FillStep(js, st, cap).Next? && FillStep(js, st, cap).st.pos > n
    requires k < |st.toks| && st.toks[k].IsOpen()
    ensures Fill(js[..n], st, cap).Failed? && Fill(js[..n], st, cap).error == Part
  {
    hide StringEnd, PrimEnd, LastOpenContainer;
    var c, cut := js[st.pos], js[..n];
    assert cut[st.pos] == c && !AtEnd(cut, st.pos);
    if c == '\"' {
      StringCut(js, n, st.pos + 1);
    } else {
      PrimCut(js, n, st.pos);
      var st1 := Add(st, Primitive, st.pos, n, n);
      assert FillStep(cut, st, cap) == Next(st1);
      assert st1.toks[k].IsOpen() && AtEnd(cut, n);
      assert LastOpen(st1.toks) != -1;
    }
  }

  /** Of an accepted text a beginning that does not hold the end of an open container is incomplete. */
  lemma {:induction false} CutIsPart(js: string, n: nat, st: State, cap: nat, k: nat)
    requires st.Valid() && Fill(js, st, cap).Tokens? && st.pos <= n <= |js|
    requires k < |st.toks| && st.toks[k].IsOpen()
    requires forall f :: Fill(js, st, cap) == Tokens(f) ==> k < |f.toks| && f.toks[k].end > n
    ensures Fill(js[..n], st, cap).Failed? && Fill(js[..n], st, cap).error == Part
    decreases |js| - st.pos
  {
    hide FillStep, LastOpen;
    if st.pos == n {
      assert LastOpen(st.toks) != -1;
    } else {
      assert LastOpen(st.toks) != -1;
      var st1 := FillStep(js, st, cap).st;
      if st1.pos <= n {
        StepAlike(js, js[..n], n, st, cap);
        StepBecomes(js, st, cap, k);
        RunBecomes(js, st1, cap, k);
        CutIsPart(js, n, st1, cap, k);
      } else {
        StepCut(js, n, st, cap, k);
      }
    }
  }

  // ---------------------------------------------------------------------------------------------
  // The bracket of the other kind

  function OtherKind(c: char): char { if c == '}' then ']' else '}' }

  /** Where a container of an accepted text ends, a bracket of the other kind is invalid, whatever follows it. */
  lemma {:induction false} WrongBracket(js: string, js2: string, m: nat, st: State, cap: nat, i: nat)
    requires Bracketed(js, st) && Fill(js, st, cap).Tokens? && st.pos <= m < |js| && m < |js2|
    requires js[..m] == js2[..m] && js2[m] == OtherKind(js[m])
    requires i < |Fill(js, st, cap).final.toks| && Fill(js, st, cap).final.toks[i].IsContainer()
    requires Fill(js, st, cap).final.toks[i].end == m + 1 && (i < |st.toks| ==> st.toks[i].IsOpen())
    ensures Fill(js2, st, cap).Failed? && Fill(js2, st, cap).error == Inval
    decreases |js| - st.pos
  {
    hide FillStep, LastOpen;
    AcceptedBrackets(js, st, cap);
    if st.pos == m {
      WrongHere(js, js2, st, cap);
    } else {
      NotDoneYet(js, st, cap, i, m);
      var st1 := FillStep(js, st, cap).st;
      StepKeepsBrackets(js, st, cap);
      StepAdds(js, st, cap);
      if i < |st1.toks| { RunBecomes(js, st1, cap, i); } else { LaterEnds(js, st1, cap, i); }
      if i < |st.toks| { StepBecomes(js, st, cap, i); }
      StepAlike(js, js2, m, st, cap);
      WrongBracket(js, js2, m, st1, cap, i);
    }
  }

  lemma NotDoneYet(js: string, st: State, cap: nat, i: nat, m: nat)
    requires st.Valid() && Fill(js, st, cap).Tokens? && i < |Fill(js, st, cap).final.toks| && st.pos < m
    requires Fill(js, st, cap).final.toks[i].end == m + 1 && (i < |st.toks| ==> st.toks[i].IsOpen())
    ensures !AtEnd(js, st.pos) && FillStep(js, st, cap).Next?
  {
    hide FillStep;
  }

  lemma WrongHere(js: string, js2: string, st: State, cap: nat)
    requires st.Valid() && st.pos < |js| && st.pos < |js2| && !AtEnd(js, st.pos) && FillStep(js, st, cap).Next?
    requires (js[st.pos] == '}' || js[st.pos] == ']') && js2[st.pos] == OtherKind(js[st.pos])
    ensures Fill(js2, st, cap).Failed? && Fill(js2, st, cap).error == Inval
  {
    hide LastOpen;
  }

  // ---------------------------------------------------------------------------------------------
  // Documents

  lemma OpensDocument(js: string, st: State, v: Json, cap: nat)
    requires st.Valid() && v.IsContainer() && st.toks == [] && st.pos < |js| && js[st.pos] == Print(v)[0]
    requires Fill(js, st, cap).Tokens? && cap > 0
    ensures FillStep(js, st, cap).Next? && FillStep(js, st, cap).st.pos == st.pos + 1
    ensures |FillStep(js, st, cap).st.toks| == 1 && FillStep(js, st, cap).st.toks[0].IsOpen()
  {
    hide PrintElems, PrintMembers, LastOpen;
    PrintOpens(v);
  }

  lemma PrintOpens(v: Json)
    requires v.IsContainer()
    ensures Print(v) != "" && Print(v)[0] == if v.Arr? then '[' else '{'
  {
    hide PrintElems, PrintMembers;
  }

  /** A document is rejected as incomplete wherever it stops. */
  lemma CutDocument(lead: string, v: Json, n: nat, cap: nat)
    requires Wf(v) && v.IsContainer() && AllWs(lead) && |Toks(v, |lead|)| <= cap && 0 < n < |Print(v)|
    ensures var f := Fill(lead + Print(v)[..n], INIT, cap); f.Failed? && f.error == Part
  {
    hide Fill, FillStep, Toks, Print, Wf;
    var js, m := lead + Print(v), |lead| + n;
    var cut := lead + Print(v)[..n];
    assert js[..m] == cut;
    assert lead + Print(v) + "" == js;
    ParsePrinted(lead, v, "", cap);
    BothSkip(js, cut, lead, cap);
    var st := INIT.(pos := |lead|);
    PrintOpens(v);
    RootEnds(v, |lead|);
    assert js[|lead|] == Print(v)[0] == cut[|lead|];
    OpensDocument(js, st, v, cap);
    var st1 := FillStep(js, st, cap).st;
    StepBoth(js, m, st, cap);
    CutIsPart(js, m, st1, cap, 0);
  }

  lemma RootEnds(v: Json, p: nat)
    requires v.IsContainer()
    ensures |Toks(v, p)| > 0 && Toks(v, p)[0].end == p + |Print(v)|
  {
    hide Print, ElemToks, MemberToks;
  }

  lemma BothSkip(js: string, cut: string, lead: string, cap: nat)
    requires AllWs(lead) && lead <= js && lead <= cut
    ensures Fill(js, INIT, cap) == Fill(js, INIT.(pos := |lead|), cap)
    ensures Fill(cut, INIT, cap) == Fill(cut, INIT.(pos := |lead|), cap)
  {
    hide Fill;
    SkipWs(js, INIT, lead, cap);
    SkipWs(cut, INIT, lead, cap);
  }

  /** The opening bracket alone is read in the same way. */
  lemma StepBoth(js: string, n: nat, st: State, cap: nat)
    requires st.Valid() && st.pos < n <= |js| && !AtEnd(js, st.pos) && FillStep(js, st, cap).Next?
    requires FillStep(js, st, cap).st.pos <= n
    ensures Fill(js, st, cap) == Fill(js, FillStep(js, st, cap).st, cap)
    ensures Fill(js[..n], st, cap) == Fill(js[..n], FillStep(js, st, cap).st, cap)
  {
    hide FillStep;
    StepAlike(js, js[..n], n, st, cap);
  }

  /** Closed by a bracket of the other kind it is rejected as invalid, and so it is when a container inside it
      is. */
  lemma WrongInDocument(v: Json, i: nat, more: string, cap: nat)
    requires Wf(v) && |Toks(v, 0)| <= cap && i < |Toks(v, 0)| && Toks(v, 0)[i].IsContainer()
    ensures var m := Toks(v, 0)[i].end - 1;
            && 0 <= m < |Print(v)|
            && var f := Fill(Print(v)[..m] + [OtherKind(Print(v)[m])] + more, INIT, cap); f.Failed? && f.error == Inval
  {
    hide Fill, Toks, Print, Wf;
    var js := Print(v);
    assert "" + js + "" == js;
    ParsePrinted("", v, "", cap);
    AcceptedBrackets(js, INIT, cap);
    var m := Toks(v, 0)[i].end - 1;
    assert Spans(js, Toks(v, 0)[i]);
    WrongBracket(js, js[..m] + [OtherKind(js[m])] + more, m, INIT, cap, i);
  }
}
