/** The texts on which the tokeniser would read in front of its token array. */
module JsonComma {
  import opened Jsmn

  /** From `pos` on, with these containers open and `n` tokens so far, a comma comes outside strings and
      primitives while the text is `loose`: no container is open, and no colon has come behind a token since
      the last one was closed.  (In front of it are no error and no more tokens than `cap`.) */
  predicate LooseComma(js: string, pos: nat, open: seq<Kind>, n: nat, loose: bool, cap: nat)
    decreases |js| - pos
  {
    if AtEnd(js, pos) then false
    else
      var c := js[pos];
      if c == '{' || c == '[' then
        n < cap && LooseComma(js, pos + 1, open + [if c == '{' then Object else Array], n + 1, false, cap)
      else if c == '}' || c == ']' then
        && open != [] && open[|open| - 1] == (if c == '}' then Object else Array)
        && LooseComma(js, pos + 1, open[..|open| - 1], n, |open| == 1, cap)
      else if c == '\"' then
        var e := StringEnd(js, pos + 1);
        e.Closed? && n < cap && LooseComma(js, e.quote + 1, open, n + 1, loose, cap)
      else if IsWs(c) then LooseComma(js, pos + 1, open, n, loose, cap)
      else if c == ':' then LooseComma(js, pos + 1, open, n, n == 0, cap)
      else if c == ',' then loose || LooseComma(js, pos + 1, open, n, loose, cap)
      else
        var e := PrimEnd(js, pos);
        e.Some? && n < cap && LooseComma(js, e.value, open, n + 1, loose, cap)
  }

  /** The kinds of the tokens that are open, in order. */
  function OpenKinds(toks: seq<Token>): seq<Kind> {
    if toks == [] then []
    else
      var last := toks[|toks| - 1];
      OpenKinds(toks[..|toks| - 1]) + if last.IsOpen() then [last.kind] else []
  }

  lemma {:induction false} OpenKindsSame(a: seq<Token>, b: seq<Token>)
    requires |a| == |b| && forall j :: 0 <= j < |a| ==> a[j].kind == b[j].kind && a[j].IsOpen() == b[j].IsOpen()
    ensures OpenKinds(a) == OpenKinds(b)
    decreases |a|
  {
    if a != [] { OpenKindsSame(a[..|a| - 1], b[..|b| - 1]); }
  }

  lemma OpenKindsAdd(toks: seq<Token>, super: int, t: Token)
    requires -1 <= super < |toks|
    ensures OpenKinds(Bump(toks, super) + [t]) == OpenKinds(toks) + if t.IsOpen() then [t.kind] else []
  {
    var b := Bump(toks, super);
    assert (b + [t])[..|b|] == b;
    OpenKindsSame(b, toks);
  }

  /** The last open token is the last of the kinds, and closing it leaves those before it. */
  lemma {:induction false} LastKind(toks: seq<Token>)
    ensures LastOpen(toks) == -1 <==> OpenKinds(toks) == []
    ensures var i, ks := LastOpen(toks), OpenKinds(toks);
            i >= 0 ==> ks != [] && toks[i].kind == ks[|ks| - 1] && OpenKinds(toks[..i]) == ks[..|ks| - 1]
    decreases |toks|
  {
    if toks != [] && !toks[|toks| - 1].IsOpen() {
      var init := toks[..|toks| - 1];
      LastKind(init);
      assert OpenKinds(toks) == OpenKinds(init) + [] == OpenKinds(init);
      if LastOpen(toks) >= 0 { assert toks[..LastOpen(toks)] == init[..LastOpen(toks)]; }
    } else if toks != [] {
      var ks := OpenKinds(toks);
      assert ks[..|ks| - 1] == OpenKinds(toks[..|toks| - 1]);
    }
  }

  /** Behind the last open token nothing is open. */
  lemma {:induction false} NoneBehind(toks: seq<Token>, i: nat)
    requires i <= |toks| && forall j :: i <= j < |toks| ==> !toks[j].IsOpen()
    ensures OpenKinds(toks) == OpenKinds(toks[..i])
    decreases |toks|
  {
    if i < |toks| {
      NoneBehind(toks[..|toks| - 1], i);
      assert toks[..|toks| - 1][..i] == toks[..i];
      assert OpenKinds(toks[..i]) + [] == OpenKinds(toks[..i]);
    } else {
      assert toks[..i] == toks;
    }
  }

  lemma Closing(st: State, kind: Kind)
    requires st.Valid() && CloseStep(st, kind).Next?
    ensures var ks, st1 := OpenKinds(st.toks), CloseStep(st, kind).st;
            && ks != [] && ks[|ks| - 1] == kind && OpenKinds(st1.toks) == ks[..|ks| - 1]
            && |st1.toks| == |st.toks| && (st1.super == -1 <==> |ks| == 1)
  {
    hide LastOpen, OpenKinds;
    var i, st1 := LastOpen(st.toks), CloseStep(st, kind).st;
    LastKind(st.toks);
    assert st1.toks[..i] == st.toks[..i];
    LastKind(st.toks[..i]);
    NoneBehind(st1.toks, i);
  }

  /** What the state of the parser amounts to. */
  predicate Amounts(st: State, open: seq<Kind>, n: nat, loose: bool) {
    st.Valid() && OpenKinds(st.toks) == open && |st.toks| == n && (loose <==> st.super == -1)
  }

  lemma OpenAmounts(st: State, kind: Kind, cap: nat, open: seq<Kind>, n: nat, loose: bool)
    requires Amounts(st, open, n, loose) && (kind == Object || kind == Array)
    ensures OpenStep(st, kind, cap).Next? <==> n < cap
    ensures OpenStep(st, kind, cap) != Undefined
    ensures n < cap ==> Amounts(OpenStep(st, kind, cap).st, open + [kind], n + 1, false)
                        && OpenStep(st, kind, cap).st.pos == st.pos + 1
  {
    hide OpenKinds;
    OpenKindsAdd(st.toks, st.super, Token(kind, st.pos, -1, 0));
  }

  lemma AddAmounts(st: State, kind: Kind, start: nat, end: nat, next: nat, open: seq<Kind>, n: nat, loose: bool)
    requires Amounts(st, open, n, loose)
    ensures Amounts(Add(st, kind, start, end, next), open, n + 1, loose)
  {
    hide OpenKinds;
    OpenKindsAdd(st.toks, st.super, Token(kind, start, end, 0));
    assert open + [] == open;
  }

  lemma CloseAmounts(st: State, kind: Kind, open: seq<Kind>, n: nat, loose: bool)
    requires Amounts(st, open, n, loose)
    ensures CloseStep(st, kind) != Undefined
    ensures CloseStep(st, kind).Next? <==> open != [] && open[|open| - 1] == kind
    ensures CloseStep(st, kind).Next? ==> Amounts(CloseStep(st, kind).st, open[..|open| - 1], n, |open| == 1)
                                          && CloseStep(st, kind).st.pos == st.pos + 1
  {
    hide OpenKinds, LastOpen;
    LastKind(st.toks);
    if CloseStep(st, kind).Next? { Closing(st, kind); }
  }

  /** Exactly on which texts, for any room: a caller can check it without the tokeniser. */
  lemma {:induction false} CrashIff(js: string, st: State, cap: nat, open: seq<Kind>, n: nat, loose: bool)
    requires Amounts(st, open, n, loose)
    ensures Fill(js, st, cap).Crash? <==> LooseComma(js, st.pos, open, n, loose, cap)
    decreases |js| - st.pos
  {
    hide OpenKinds, LastOpen, LastOpenContainer, OpenStep, CloseStep, StringEnd, PrimEnd, Add;
    if !AtEnd(js, st.pos) {
      var c := js[st.pos];
      if c == '{' || c == '[' {
        var kind := if c == '{' then Object else Array;
        OpenAmounts(st, kind, cap, open, n, loose);
        if n < cap { CrashIff(js, OpenStep(st, kind, cap).st, cap, open + [kind], n + 1, false); }
      } else if c == '}' || c == ']' {
        var kind := if c == '}' then Object else Array;
        CloseAmounts(st, kind, open, n, loose);
        if CloseStep(st, kind).Next? {
          CrashIff(js, CloseStep(st, kind).st, cap, open[..|open| - 1], n, |open| == 1);
        }
      } else {
        CrashElsewhere(js, st, cap, open, n, loose);
        match FillStep(js, st, cap)
        case Next(st1) => CrashIff(js, st1, cap, open, OtherTokens(js, st, cap), OtherLoose(js, st.pos, n, loose));
        case _ =>
      }
    }
  }

  /** A step at a byte that is no bracket: how many tokens there are then, and whether it is loose. */
  function OtherTokens(js: string, st: State, cap: nat): nat
    requires st.Valid() && !AtEnd(js, st.pos)
  {
    match FillStep(js, st, cap) case Next(st1) => |st1.toks| case _ => 0
  }

  predicate OtherLoose(js: string, pos: nat, n: nat, loose: bool)
    requires !AtEnd(js, pos)
  {
    if js[pos] == ':' then n == 0 else loose
  }

  lemma CrashElsewhere(js: string, st: State, cap: nat, open: seq<Kind>, n: nat, loose: bool)
    requires Amounts(st, open, n, loose) && !AtEnd(js, st.pos) && js[st.pos] !in "{[}]"
    ensures match FillStep(js, st, cap)
            case Next(st1) =>
              && Amounts(st1, open, OtherTokens(js, st, cap), OtherLoose(js, st.pos, n, loose))
              && LooseComma(js, st.pos, open, n, loose, cap)
                 == LooseComma(js, st1.pos, open, OtherTokens(js, st, cap), OtherLoose(js, st.pos, n, loose), cap)
            case Stop(_, _) => !LooseComma(js, st.pos, open, n, loose, cap)
            case Undefined => LooseComma(js, st.pos, open, n, loose, cap)
  {
    hide OpenKinds, LastOpen, LastOpenContainer, OpenStep, CloseStep, StringEnd, PrimEnd;
    var c := js[st.pos];
    if c == '\"' {
      var e := StringEnd(js, st.pos + 1);
      if e.Closed? { AddAmounts(st, String, st.pos + 1, e.quote, e.quote + 1, open, n, loose); }
    } else if !IsWs(c) && c != ':' && c != ',' {
      var e := PrimEnd(js, st.pos);
      if e.Some? { AddAmounts(st, Primitive, st.pos, e.value, e.value, open, n, loose); }
    }
  }

  /** A comma alone is such a text. */
  lemma CommaCrashes(cap: nat)
    ensures Fill(",", INIT, cap).Crash?
  {
    hide Fill;
    CrashIff(",", INIT, cap, [], 0, true);
  }

  lemma TrailingComma(cap: nat)
    requires cap > 0
    ensures LooseComma("[],", 0, [], 0, true, cap)
  {
    hide StringEnd, PrimEnd;
    var js := "[],";
    assert js[0] == '[' && js[1] == ']' && js[2] == ',';
    assert LooseComma(js, 2, [], 1, true, cap);
    assert [Array][..0] == [];
    assert LooseComma(js, 1, [Array], 1, false, cap);
    assert [] + [Array] == [Array];
  }

  /** So is a document with one behind it. */
  lemma TrailingCommaCrashes(cap: nat)
    requires cap > 0
    ensures Fill("[],", INIT, cap).Crash?
  {
    hide Fill, LooseComma;
    TrailingComma(cap);
    CrashIff("[],", INIT, cap, [], 0, true);
  }
}
