/** Paths written for a tree, and what the lookup makes of them. */
module JkiiPath {
  import opened Jsmn
  import opened JsonTree
  import opened Text
  import opened JkiiLookup

  datatype PathStep = Key(name: string) | At(index: nat)

  predicate NoBackslash(s: string) { forall i :: 0 <= i < |s| ==> s[i] != '\\' }

  predicate NoNul(s: string) { forall i :: 0 <= i < |s| ==> s[i] != NUL }

  /** Names are not empty and, like the keys they are compared with, hold no backslash. */
  predicate GoodStep(s: PathStep) {
    match s
    case Key(name) => name != "" && NoBackslash(name) && NoNul(name)
    case At(i) => i <= LONG_MAX
  }

  predicate GoodSteps(steps: seq<PathStep>) { forall i :: 0 <= i < |steps| ==> GoodStep(steps[i]) }

  predicate PlainKeys(v: Json) {
    match v
    case Prim(_) => true
    case Str(_) => true
    case Arr(_, es) => PlainElems(es)
    case Obj(_, ms) => PlainMembers(ms)
  }

  predicate PlainElems(es: Elems) { es.ECons? ==> PlainKeys(es.value) && PlainElems(es.rest) }

  predicate PlainMembers(ms: Members) {
    ms.MCons? ==> NoBackslash(ms.key) && PlainKeys(ms.value) && PlainMembers(ms.rest)
  }

  /** A name as it is written in a path. */
  function Escape(name: string): string {
    if name == "" then ""
    else (if name[0] in "/[]" then ['\\', name[0]] else [name[0]]) + Escape(name[1..])
  }

  function Digit(d: nat): char requires d < 10 { ('0' as int + d) as char }

  function Decimal(n: nat): (t: string)
    ensures t != "" && AllDigits(t) && (t[0] == '0' <==> n == 0)
  {
    if n < 10 then [Digit(n)] else Decimal(n / 10) + [Digit(n % 10)]
  }

  function RenderStep(s: PathStep): string {
    match s case Key(name) => Escape(name) case At(i) => "[" + Decimal(i) + "]"
  }

  function Render(steps: seq<PathStep>): string {
    if steps == [] then "" else "/" + RenderStep(steps[0]) + Render(steps[1..])
  }

  // ---------------------------------------------------------------------------------------------
  // Lookup in the tree itself

  /** The value of the first member with that key. */
  function MemberNamed(ms: Members, i: nat, q: nat, name: string): Option<Spot> {
    if ms.MNil? then None
    else if ms.key == name then Some(Spot(i + 1, ms.value, MValueAt(ms, q)))
    else MemberNamed(ms.rest, i + 1 + |Toks(ms.value, MValueAt(ms, q))|, MRestAt(ms, q), name)
  }

  function ChildOf(s: Spot, step: PathStep): Option<Spot> {
    match (s.value, step)
    case (Obj(gap, ms), Key(name)) => MemberNamed(ms, s.index + 1, s.at + 1 + |gap|, name)
    case (Arr(gap, es), At(n)) => FindElem(es, s.index + 1, s.at + 1 + |gap|, n)
    case _ => None
  }

  /** The subtree that the steps lead to. */
  function TreeFind(s: Spot, steps: seq<PathStep>): Option<Spot>
    decreases |steps|
  {
    if steps == [] then Some(s)
    else
      match ChildOf(s, steps[0])
      case None => None
      case Some(c) => TreeFind(c, steps[1..])
  }

  // ---------------------------------------------------------------------------------------------
  // One component

  /** `path` ends at `i`, or the next component starts there. */
  predicate Border(path: string, i: nat) { i == |path| || (i < |path| && path[i] == '/') }

  lemma {:induction false} PlainComponentEnds(path: string, i: nat, t: string)
    requires Has(path, i, t) && Border(path, i + |t|)
    requires forall j :: 0 <= j < |t| ==> t[j] != '/' && t[j] != '\\'
    ensures ComponentEnd(path, i, false) == i + |t|
    decreases |t|
  {
    if t != "" {
      assert t == [t[0]] + t[1..];
      HasChar(path, i, t[0], t[1..]);
      PlainComponentEnds(path, i + 1, t[1..]);
    }
  }

  lemma {:induction false} NameEnds(path: string, i: nat, name: string)
    requires Has(path, i, Escape(name)) && Border(path, i + |Escape(name)|) && NoBackslash(name)
    ensures ComponentEnd(path, i, false) == i + |Escape(name)|
    decreases |name|
  {
    if name != "" {
      var c, rest := name[0], Escape(name[1..]);
      if c in "/[]" {
        assert Escape(name) == ['\\'] + ([c] + rest);
        HasChar(path, i, '\\', [c] + rest);
        HasChar(path, i + 1, c, rest);
        NameEnds(path, i + 2, name[1..]);
      } else {
        HasChar(path, i, c, rest);
        NameEnds(path, i + 1, name[1..]);
      }
    }
  }

  /** An escaped name matches exactly the key it was written for. */
  lemma {:induction false} SameKeyIff(path: string, i: nat, name: string, key: string)
    requires Has(path, i, Escape(name)) && NoBackslash(name) && NoBackslash(key)
    ensures SameKey(path, i, i + |Escape(name)|, key) <==> key == name
    decreases |name|
  {
    if name != "" && key != "" {
      var c, rest := name[0], Escape(name[1..]);
      assert key == name <==> key[0] == c && key[1..] == name[1..];
      if c in "/[]" {
        assert Escape(name) == ['\\'] + ([c] + rest);
        HasChar(path, i, '\\', [c] + rest);
        HasChar(path, i + 1, c, rest);
        SameKeyIff(path, i + 2, name[1..], key[1..]);
      } else {
        HasChar(path, i, c, rest);
        SameKeyIff(path, i + 1, name[1..], key[1..]);
      }
    }
  }

  lemma {:induction false} DecimalValue(n: nat)
    ensures DigitsValue(Decimal(n), 10) == Some(n)
  {
    var t := Decimal(n);
    assert t[|t| - 1] == Digit(n % 10);
    if n < 10 {
      assert t[..|t| - 1] == "";
    } else {
      assert t[..|t| - 1] == Decimal(n / 10);
      DecimalValue(n / 10);
    }
  }

  function Pow10(k: nat): nat { if k == 0 then 1 else 10 * Pow10(k - 1) }

  lemma {:induction false} DecimalLength(n: nat, k: nat)
    requires k > 0 && n < Pow10(k)
    ensures |Decimal(n)| <= k
  {
    if n >= 10 {
      DecimalLength(n / 10, k - 1);
    }
  }

  lemma IndexRead(n: nat)
    requires n <= LONG_MAX
    ensures IndexValue(Decimal(n)) == Some(n)
  {
    var t := Decimal(n);
    DecimalValue(n);
    assert Pow10(6) == 1_000_000;
    assert Pow10(12) == 1_000_000_000_000;
    assert Pow10(19) > LONG_MAX;
    DecimalLength(n, 19);
    if n == 0 {
      assert t == "0" && t[..0] == "";
      assert DigitsValue("", 8) == Some(0);
    }
  }

  lemma NameRead(path: string, at: nat, name: string)
    requires GoodStep(Key(name)) && Has(path, at, "/" + Escape(name)) && Border(path, at + 1 + |Escape(name)|)
    ensures var end := at + 1 + |Escape(name)|;
            GetTarget(path, at) == (if end == |path| then None else Some(end), Name(at + 1, end))
  {
    hide ComponentEnd, IndexValue;
    var text := Escape(name);
    HasChar(path, at, '/', text);
    HasChar(path, at + 1, text[0], text[1..]);
    NameEnds(path, at + 1, name);
  }

  lemma BracketsRead(path: string, at: nat, n: nat)
    requires n <= LONG_MAX && Has(path, at, "/" + ("[" + Decimal(n) + "]")) && Border(path, at + 3 + |Decimal(n)|)
    ensures var end := at + 3 + |Decimal(n)|;
            GetTarget(path, at) == (if end == |path| then None else Some(end), Index(n))
  {
    hide ComponentEnd, IndexValue, Decimal;
    var t := Decimal(n);
    assert "[" + t + "]" == ['['] + (t + "]");
    HasChar(path, at, '/', "[" + t + "]");
    PlainComponentEnds(path, at + 1, "[" + t + "]");
    HasChar(path, at + 1, '[', t + "]");
    HasConcat(path, at + 2, t, "]");
    IndexRead(n);
  }

  /** The first component of a rendered path. */
  lemma TargetRead(path: string, at: nat, step: PathStep)
    requires GoodStep(step) && Has(path, at, "/" + RenderStep(step)) && Border(path, at + 1 + |RenderStep(step)|)
    ensures var end := at + 1 + |RenderStep(step)|;
            GetTarget(path, at) == (if end == |path| then None else Some(end),
                                    match step case Key(_) => Name(at + 1, end) case At(n) => Index(n))
  {
    hide GetTarget, Has, Decimal, Escape;
    match step
    case Key(name) => NameRead(path, at, name);
    case At(n) => BracketsRead(path, at, n);
  }

  lemma {:induction false} MemberAgrees(ms: Members, i: nat, q: nat, path: string, t: nat, name: string)
    requires Has(path, t, Escape(name)) && NoBackslash(name) && PlainMembers(ms)
    ensures FindMember(ms, i, q, path, Name(t, t + |Escape(name)|)) == MemberNamed(ms, i, q, name)
    decreases ms
  {
    if ms.MCons? {
      SameKeyIff(path, t, name, ms.key);
      MemberAgrees(ms.rest, i + 1 + |Toks(ms.value, MValueAt(ms, q))|, MRestAt(ms, q), path, t, name);
    }
  }

  lemma {:induction false} MemberPlain(ms: Members, i: nat, q: nat, name: string)
    requires PlainMembers(ms)
    ensures MemberNamed(ms, i, q, name).Some? ==> PlainKeys(MemberNamed(ms, i, q, name).value.value)
    decreases ms
  {
    if ms.MCons? {
      MemberPlain(ms.rest, i + 1 + |Toks(ms.value, MValueAt(ms, q))|, MRestAt(ms, q), name);
    }
  }

  lemma {:induction false} ElemPlain(es: Elems, i: nat, q: nat, n: nat)
    requires PlainElems(es)
    ensures FindElem(es, i, q, n).Some? ==> PlainKeys(FindElem(es, i, q, n).value.value)
    decreases es
  {
    if es.ECons? && n > 0 {
      ElemPlain(es.rest, i + |Toks(es.value, ValueAt(es, q))|, RestAt(es, q), n - 1);
    }
  }

  lemma ChildAgrees(s: Spot, path: string, at: nat, step: PathStep)
    requires GoodStep(step) && Has(path, at, RenderStep(step)) && PlainKeys(s.value)
    ensures FindChild(s, path, match step case Key(_) => Name(at, at + |RenderStep(step)|) case At(n) => Index(n))
         == ChildOf(s, step)
    ensures ChildOf(s, step).Some? ==> PlainKeys(ChildOf(s, step).value.value)
  {
    match (s.value, step) {
      case (Obj(gap, ms), Key(name)) =>
        MemberAgrees(ms, s.index + 1, s.at + 1 + |gap|, path, at, name);
        MemberPlain(ms, s.index + 1, s.at + 1 + |gap|, name);
      case (Arr(gap, es), At(n)) =>
        ElemPlain(es, s.index + 1, s.at + 1 + |gap|, n);
      case _ =>
    }
  }

  /** Following a rendered path through the text, component by component, is following its steps
      through the tree: the subtree found is the same, and there is none exactly when the tree has
      none. */
  lemma {:induction false} PathFindsSubtree(s: Spot, path: string, at: nat, steps: seq<PathStep>)
    requires steps != [] && GoodSteps(steps) && PlainKeys(s.value)
    requires Has(path, at, Render(steps)) && at + |Render(steps)| == |path|
    ensures FindPath(s, path, at) == TreeFind(s, steps)
    decreases |steps|
  {
    hide GetTarget, FindChild, ChildOf, RenderStep, GoodStep, PlainKeys, Print;
    var text, more := RenderStep(steps[0]), Render(steps[1..]);
    HasConcat(path, at, "/" + text, more);
    HasConcat(path, at, "/", text);
    if more != "" {
      HasChar(path, at + 1 + |text|, more[0], more[1..]);
    }
    TargetRead(path, at, steps[0]);
    ChildAgrees(s, path, at + 1, steps[0]);
    var c := ChildOf(s, steps[0]);
    if c.Some? && steps[1..] != [] {
      PathFindsSubtree(c.value, path, at + 1 + |text|, steps[1..]);
    }
  }

  /** The lookup with a rendered path on the tokens of a printed document: the token of the subtree to which
      the steps lead in the tree, and -1 exactly when the tree has none. */
  method GetSubtree(js: string, tokens: seq<Token>, path: string, ghost steps: seq<PathStep>, ghost root: Spot)
    returns (r: int)
    requires Placed(js, tokens, root) && root.index == 0 && PlainKeys(root.value)
    requires steps != [] && GoodSteps(steps) && path == Render(steps)
    ensures match TreeFind(root, steps) case None => r == -1 case Some(c) => r == c.index && Placed(js, tokens, c)
  {
    hide Placed, PlainKeys, GoodSteps, Render, FindPath, TreeFind;
    WholeText(path);
    PathFindsSubtree(root, path, 0, steps);
    r := GetValueByPath(js, tokens, path, root);
  }

  // ---------------------------------------------------------------------------------------------
  // Lookup by name

  /** What the lookup by name comes to: a value, nothing, or tokens behind those of the document. */
  datatype Named = Member(value: Spot) | NoMember | RunsOut

  /** What it goes through in pairs of a key and a value: members, or, in an array, elements. */
  datatype Pairs = OfMembers(ms: Members) | OfElems(es: Elems)

  function PairsLength(ps: Pairs): nat {
    match ps case OfMembers(ms) => MLength(ms) case OfElems(es) => ELength(es)
  }

  function PairNamed(ps: Pairs, i: nat, q: nat, name: string): Named
    decreases PairsLength(ps)
  {
    match ps
    case OfMembers(ms) =>
      if ms.MNil? then NoMember
      else if ms.key == name then Member(Spot(i + 1, ms.value, MValueAt(ms, q)))
      else PairNamed(OfMembers(ms.rest), i + 1 + |Toks(ms.value, MValueAt(ms, q))|, MRestAt(ms, q), name)
    case OfElems(es) =>
      if es.ENil? then RunsOut
      else if !es.value.Str? then NoMember
      else if es.rest.ENil? then RunsOut
      else
        assert ELength(es) == 2 + ELength(es.rest.rest);
        var v, at := es.rest.value, ValueAt(es.rest, RestAt(es, q));
        if es.value.text == name then Member(Spot(i + 1, v, at))
        else PairNamed(OfElems(es.rest.rest), i + 1 + |Toks(v, at)|, RestAt(es.rest, RestAt(es, q)), name)
  }

  function ValueNamed(root: Spot, name: string): Named {
    match root.value
    case Obj(gap, ms) => PairNamed(OfMembers(ms), 1, root.at + 1 + |gap|, name)
    case Arr(gap, es) => if ELength(es) < 2 then NoMember else PairNamed(OfElems(es), 1, root.at + 1 + |gap|, name)
    case _ => NoMember
  }

  /** In an object it is the member that a path of one step finds. */
  lemma {:induction false} MembersNamed(ms: Members, i: nat, q: nat, name: string)
    ensures PairNamed(OfMembers(ms), i, q, name) ==
            match MemberNamed(ms, i, q, name) case None => NoMember case Some(c) => Member(c)
    decreases ms
  {
    if ms.MCons? { MembersNamed(ms.rest, i + 1 + |Toks(ms.value, MValueAt(ms, q))|, MRestAt(ms, q), name); }
  }

  lemma FindOne(s: Spot, step: PathStep)
    ensures TreeFind(s, [step]) == ChildOf(s, step)
  {
    assert [step][1..] == [];
  }

  lemma NamedInObject(root: Spot, name: string)
    requires root.value.Obj? && root.index == 0
    ensures ValueNamed(root, name) == match TreeFind(root, [Key(name)]) case None => NoMember case Some(c) => Member(c)
  {
    hide Print, PrintMembers, Toks, MemberToks, MemberNamed, PairNamed, TreeFind, MValueAt, MRestAt;
    FindOne(root, Key(name));
    MembersNamed(root.value.members, 1, root.at + 1 + |root.value.gap|, name);
  }

  function ElemAt(es: Elems, k: nat): Json
    requires k < ELength(es)
  {
    if k == 0 then es.value else ElemAt(es.rest, k - 1)
  }

  /** A key and its value at an even place of an array; no lookup goes on from there. */
  predicate StopsAt(es: Elems, k: nat, name: string)
    requires k < ELength(es)
  {
    k % 2 == 0 && (ElemAt(es, k).Str? ==> ElemAt(es, k).text == name && k + 1 < ELength(es))
  }

  /** In an array the lookup comes to its end, and goes on behind it, exactly if all elements at even places are
      strings and none of them, but for a last one, is the name. */
  lemma {:induction false} RunsOutIff(es: Elems, i: nat, q: nat, name: string)
    ensures PairNamed(OfElems(es), i, q, name).RunsOut? <==> forall k :: 0 <= k < ELength(es) ==> !StopsAt(es, k, name)
    decreases es
  {
    if es.ECons? {
      assert StopsAt(es, 0, name) <==> (es.value.Str? ==> es.value.text == name && es.rest.ECons?);
      if es.rest.ECons? {
        var v, at, more := es.rest.value, ValueAt(es.rest, RestAt(es, q)), es.rest.rest;
        RunsOutIff(more, i + 1 + |Toks(v, at)|, RestAt(es.rest, RestAt(es, q)), name);
        forall k | 0 <= k < ELength(more) ensures StopsAt(es, k + 2, name) == StopsAt(more, k, name) {
          assert ElemAt(es, k + 2) == ElemAt(more, k);
        }
        assert forall k :: 2 <= k < ELength(es) ==> StopsAt(es, k, name) == StopsAt(more, k - 2, name);
      }
    }
  }

  /** The pairs and their tokens are where they should be. */
  ghost predicate PairsPlaced(js: string, tokens: seq<Token>, index: nat, ps: Pairs, q: nat) {
    match ps
    case OfMembers(ms) => Sits(tokens, index, MemberToks(ms, q)) && (ms.MCons? ==> Has(js, q, PrintMembers(ms)))
    case OfElems(es) => Sits(tokens, index, ElemToks(es, q)) && (es.ECons? ==> Has(js, q, PrintElems(es)))
  }

  /** How many there are after `i` turns. */
  predicate PairsCount(ps: Pairs, i: nat, size: nat) {
    match ps
    case OfMembers(ms) => i + MLength(ms) == size
    case OfElems(es) => 2 * i + ELength(es) == size && size >= 2
  }

  function NextPairs(ps: Pairs): Pairs {
    match ps
    case OfMembers(ms) => OfMembers(if ms.MCons? then ms.rest else ms)
    case OfElems(es) => OfElems(if es.ECons? && es.rest.ECons? then es.rest.rest else ENil)
  }

  /** The value of the first pair, and where those behind it begin. */
  function FirstValue(ps: Pairs, index: nat, q: nat): (Spot, nat)
    requires if ps.OfMembers? then ps.ms.MCons? else ps.es.ECons? && ps.es.rest.ECons?
  {
    match ps
    case OfMembers(ms) => (Spot(index + 1, ms.value, MValueAt(ms, q)), MRestAt(ms, q))
    case OfElems(es) => (Spot(index + 1, es.rest.value, ValueAt(es.rest, RestAt(es, q))), RestAt(es.rest, RestAt(es, q)))
  }

  /** The first pair: its key, its value, and those behind it. */
  lemma FirstPair(js: string, tokens: seq<Token>, index: nat, ps: Pairs, q: nat, name: string)
    requires PairsPlaced(js, tokens, index, ps, q) && !PairNamed(ps, index, q, name).RunsOut?
    requires if ps.OfMembers? then ps.ms.MCons? else ps.es.ECons?
    ensures index < |tokens| && 0 <= tokens[index].start <= tokens[index].end <= |js|
    ensures tokens[index].kind != String ==> PairNamed(ps, index, q, name) == NoMember
    ensures tokens[index].kind == String ==>
              && (ps.OfElems? ==> ps.es.value.Str? && ps.es.rest.ECons?)
              && var (s, q1) := FirstValue(ps, index, q);
                 && Placed(js, tokens, s)
                 && PairsPlaced(js, tokens, index + 1 + |Toks(s.value, s.at)|, NextPairs(ps), q1)
                 && PairNamed(ps, index, q, name) ==
                    if js[tokens[index].start..tokens[index].end] == name then Member(s)
                    else PairNamed(NextPairs(ps), index + 1 + |Toks(s.value, s.at)|, q1, name)
  {
    hide Print, PrintMembers, PrintElems, Toks, MemberToks, ElemToks, Has, Sits, ELength, MLength;
    match ps
    case OfMembers(ms) => FirstMember(js, tokens, index, ms, q);
    case OfElems(es) =>
      FirstElem(js, tokens, index, es, q);
      if es.value.Str? { ElemParts(js, tokens, index + 1, es.rest, RestAt(es, q)); }
  }

  lemma FirstMember(js: string, tokens: seq<Token>, index: nat, ms: Members, q: nat)
    requires PairsPlaced(js, tokens, index, OfMembers(ms), q) && ms.MCons?
    ensures index < |tokens| && tokens[index].kind == String && 0 <= tokens[index].start <= tokens[index].end <= |js|
    ensures js[tokens[index].start..tokens[index].end] == ms.key
    ensures Placed(js, tokens, Spot(index + 1, ms.value, MValueAt(ms, q)))
    ensures PairsPlaced(js, tokens, index + 1 + |Toks(ms.value, MValueAt(ms, q))|, OfMembers(ms.rest), MRestAt(ms, q))
  {
    hide Print, PrintMembers, Toks, MemberToks, Has, Sits;
    MemberParts(js, tokens, index, ms, q);
    HasSlice(js, KeyAt(ms, q), ms.key);
  }

  lemma FirstElem(js: string, tokens: seq<Token>, index: nat, es: Elems, q: nat)
    requires PairsPlaced(js, tokens, index, OfElems(es), q) && es.ECons?
    ensures index < |tokens| && tokens[index] == RootToken(es.value, ValueAt(es, q))
    ensures 0 <= tokens[index].start <= tokens[index].end <= |js|
    ensures es.value.Str? ==>
              && js[tokens[index].start..tokens[index].end] == es.value.text
              && PairsPlaced(js, tokens, index + 1, OfElems(es.rest), RestAt(es, q))
  {
    hide PrintElems, ElemToks, Has, Sits;
    ElemParts(js, tokens, index, es, q);
    PlacedRoot(js, tokens, Spot(index, es.value, ValueAt(es, q)));
    HasSlice(js, ValueAt(es, q), Print(es.value));
    if es.value.Str? {
      assert Print(es.value)[1..1 + |es.value.text|] == es.value.text;
      SliceInside(js, ValueAt(es, q), Print(es.value), 1, 1 + |es.value.text|);
    }
  }

  lemma SliceInside(js: string, p: nat, s: string, a: nat, b: nat)
    requires p + |s| <= |js| && js[p..p + |s|] == s && a <= b <= |s|
    ensures js[p + a..p + b] == s[a..b]
  {
    forall k | 0 <= k < b - a ensures js[p + a..p + b][k] == s[a..b][k] {
      assert js[p..p + |s|][a + k] == s[a + k];
    }
  }

  /** `_kii_jsmn_get_value`: the token of the value of that name, or -1.  Of a root array of two or more elements
      the code takes the elements in turn for keys and values; `RunsOutIff` says when it goes on behind them, to
      tokens that were never filled, which is left out here. */
  method GetValueByName(js: string, tokens: seq<Token>, name: string, ghost root: Spot) returns (r: int)
    requires Placed(js, tokens, root) && root.index == 0 && !ValueNamed(root, name).RunsOut?
    ensures match ValueNamed(root, name)
            case Member(c) => r == c.index && Placed(js, tokens, c)
            case _ => r == -1
  {
    hide Print, PrintMembers, PrintElems, Toks, MemberToks, ElemToks, Has, Sits, PairNamed;
    PlacedRoot(js, tokens, root);
    if tokens[0].kind != Object && tokens[0].size < 2 { return -1; }
    ContainerParts(js, tokens, root);
    var index, i := 1, 0;
    ghost var ps := if root.value.Obj? then OfMembers(root.value.members) else OfElems(root.value.elems);
    ghost var q: nat := root.at + 1 + |root.value.gap|;
    while i < tokens[0].size
      invariant 0 <= i && 0 < index && PairsCount(ps, i, tokens[0].size) && PairsPlaced(js, tokens, index, ps, q)
      invariant PairNamed(ps, index, q, name) == ValueNamed(root, name)
    {
      PairsLeft(ps, i, tokens[0].size, index, q, name);
      FirstPair(js, tokens, index, ps, q, name);
      var key := tokens[index];
      if key.kind != String { return -1; }
      if |name| == key.end - key.start && name == js[key.start..key.end] { return index + 1; }
      ghost var (s, q1) := FirstValue(ps, index, q);
      var n := CountValue(tokens, index + 1, s.value, s.at);
      index := index + n + 1;
      i := i + 1;
      ps, q := NextPairs(ps), q1;
    }
    NoPairsLeft(ps, i, tokens[0].size, index, q, name);
    r := -1;
  }

  lemma PairsLeft(ps: Pairs, i: nat, size: nat, index: nat, q: nat, name: string)
    requires i < size && PairsCount(ps, i, size) && !PairNamed(ps, index, q, name).RunsOut?
    ensures if ps.OfMembers? then ps.ms.MCons? else ps.es.ECons?
    ensures (ps.OfElems? && ps.es.value.Str? ==> ps.es.rest.ECons?)
    ensures (ps.OfElems? ==> ps.es.value.Str?) ==> PairsCount(NextPairs(ps), i + 1, size)
  {
    if ps.OfElems? && ps.es.rest.ECons? {
      assert ELength(ps.es) == 2 + ELength(ps.es.rest.rest);
    }
  }

  lemma NoPairsLeft(ps: Pairs, i: nat, size: nat, index: nat, q: nat, name: string)
    requires i >= size && PairsCount(ps, i, size)
    ensures PairNamed(ps, index, q, name) == NoMember
  {
  }

  /** A document on which it goes on behind the tokens: an array of two strings, neither of them the name. */
  lemma NameRunsOut(a: string, b: string, name: string)
    requires a != name
    ensures ValueNamed(Spot(0, Arr("", ECons("", Str(a), "", ECons("", Str(b), "", ENil))), 0), name) == RunsOut
  {
    hide Print, Toks;
    var last := ECons("", Str(b), "", ENil);
    assert ELength(last) == 1 + ELength(ENil) == 1;
    var es := ECons("", Str(a), "", last);
    assert ELength(es) == 2 && ElemAt(es, 0) == Str(a);
    RunsOutIff(es, 1, 1, name);
  }
}
