/** Looking values up in the flat token array: ebisu/jkii/src/jkii.c.

    The code walks the array of a document with nothing but the sizes in the tokens.  Here the walk
    is tied to the tree that was printed.
 */
module JkiiLookup {
  import opened Jsmn
  import opened JsonTree
  import opened Text

  // ---------------------------------------------------------------------------------------------
  // How many tokens a value takes

  /** The loop of `_jkii_count_contained_token` from index `i` with `pending` values still to be
      passed: how many tokens it steps over (cut off where the array ends). */
  function Walk(toks: seq<Token>, i: nat, pending: int): nat
    decreases |toks| - i
  {
    if pending <= 0 || i >= |toks| then 0 else 1 + Walk(toks, i + 1, pending + toks[i].size - 1)
  }

  /** The loop reads no token past the end of the array. */
  predicate WalkInside(toks: seq<Token>, i: nat, pending: int)
    decreases |toks| - i
  {
    pending <= 0 || (i < |toks| && WalkInside(toks, i + 1, pending + toks[i].size - 1))
  }

  /** Among tokens that the tokeniser accepted, whatever the text, the walk stays inside. */
  lemma {:induction false} WalkStays(toks: seq<Token>, i: nat, pending: int)
    requires i <= |toks| && SizeSum(toks, i) + pending <= |toks| - i
    ensures WalkInside(toks, i, pending)
    decreases |toks| - i
  {
    if pending > 0 {
      WalkStays(toks, i + 1, pending + toks[i].size - 1);
    }
  }

  /** Any token of any accepted text can be counted from. */
  lemma CountingIsSafe(js: string, cap: nat, i: nat)
    requires Fill(js, INIT, cap).Tokens? && i < |Fill(js, INIT, cap).final.toks|
    ensures WalkInside(Fill(js, INIT, cap).final.toks, i, 1)
  {
    AcceptedSizes(js, INIT, cap);
    WalkStays(Fill(js, INIT, cap).final.toks, i, 1);
  }

  /** `_jkii_count_contained_token` */
  method CountContained(tokens: seq<Token>, at: nat) returns (retval: nat)
    requires at < |tokens| && WalkInside(tokens, at, 1)
    ensures retval == Walk(tokens, at, 1) && 0 < retval <= |tokens| - at
  {
    retval := 1;
    var tokenNum := 1 + tokens[at].size - 1;
    var token := at + 1;
    while tokenNum > 0
      invariant 0 < retval && token == at + retval <= |tokens|
      invariant WalkInside(tokens, token, tokenNum)
      invariant retval + Walk(tokens, token, tokenNum) == Walk(tokens, at, 1)
      decreases |tokens| - token
    {
      retval := retval + 1;
      tokenNum := tokenNum + tokens[token].size - 1;
      token := token + 1;
    }
  }

  /** `t` is what the array holds from index `i` on. */
  predicate Sits(toks: seq<Token>, i: nat, t: seq<Token>) {
    i + |t| <= |toks| && toks[i..i + |t|] == t
  }

  lemma SitsConcat(toks: seq<Token>, i: nat, a: seq<Token>, b: seq<Token>)
    requires Sits(toks, i, a + b)
    ensures Sits(toks, i, a) && Sits(toks, i + |a|, b)
    ensures a != [] ==> toks[i] == a[0]
  {
    assert toks[i..i + |a|] == (a + b)[..|a|] == a;
    assert toks[i + |a|..i + |a| + |b|] == (a + b)[|a|..] == b;
    if a != [] {
      assert toks[i] == toks[i..i + |a|][0];
    }
  }

  /** Passing the token of a value whose children's tokens follow it. */
  lemma WalkRoot(toks: seq<Token>, i: nat, t: Token, body: seq<Token>, pending: int)
    requires Sits(toks, i, [t] + body) && pending > 0
    ensures Walk(toks, i, pending) == 1 + Walk(toks, i + 1, pending - 1 + t.size)
    ensures WalkInside(toks, i, pending) == WalkInside(toks, i + 1, pending - 1 + t.size)
    ensures Sits(toks, i + 1, body)
  {
    SitsConcat(toks, i, [t], body);
  }

  lemma {:induction false} WalkValue(toks: seq<Token>, i: nat, v: Json, p: nat, pending: int)
    requires Sits(toks, i, Toks(v, p)) && pending > 0
    ensures Walk(toks, i, pending) == |Toks(v, p)| + Walk(toks, i + |Toks(v, p)|, pending - 1)
    ensures WalkInside(toks, i, pending) == WalkInside(toks, i + |Toks(v, p)|, pending - 1)
    decreases v
  {
    hide Print, PrintElems, PrintMembers, Sits, Walk, WalkInside;
    WalkRoot(toks, i, RootToken(v, p), Toks(v, p)[1..], pending);
    match v
    case Prim(_) =>
    case Str(_) =>
    case Arr(gap, es) => WalkElems(toks, i + 1, es, p + 1 + |gap|, pending - 1 + ELength(es));
    case Obj(gap, ms) => WalkMembers(toks, i + 1, ms, p + 1 + |gap|, pending - 1 + MLength(ms));
  }

  lemma {:induction false} WalkElems(toks: seq<Token>, i: nat, es: Elems, p: nat, pending: int)
    requires Sits(toks, i, ElemToks(es, p)) && pending >= ELength(es)
    ensures Walk(toks, i, pending) == |ElemToks(es, p)| + Walk(toks, i + |ElemToks(es, p)|, pending - ELength(es))
    ensures WalkInside(toks, i, pending) == WalkInside(toks, i + |ElemToks(es, p)|, pending - ELength(es))
    decreases es
  {
    hide Print, PrintElems, PrintMembers, Sits, Walk, WalkInside;
    if es.ECons? {
      var first := Toks(es.value, ValueAt(es, p));
      SitsConcat(toks, i, first, ElemToks(es.rest, RestAt(es, p)));
      WalkValue(toks, i, es.value, ValueAt(es, p), pending);
      WalkElems(toks, i + |first|, es.rest, RestAt(es, p), pending - 1);
    }
  }

  lemma {:induction false} WalkMembers(toks: seq<Token>, i: nat, ms: Members, p: nat, pending: int)
    requires Sits(toks, i, MemberToks(ms, p)) && pending >= MLength(ms)
    ensures Walk(toks, i, pending) == |MemberToks(ms, p)| + Walk(toks, i + |MemberToks(ms, p)|, pending - MLength(ms))
    ensures WalkInside(toks, i, pending) == WalkInside(toks, i + |MemberToks(ms, p)|, pending - MLength(ms))
    decreases ms
  {
    hide Print, PrintElems, PrintMembers, Sits, Walk, WalkInside;
    if ms.MCons? {
      var first := Toks(ms.value, MValueAt(ms, p));
      var rest := MemberToks(ms.rest, MRestAt(ms, p));
      assert MemberToks(ms, p) == [KeyToken(ms, p)] + (first + rest);
      WalkRoot(toks, i, KeyToken(ms, p), first + rest, pending);
      SitsConcat(toks, i + 1, first, rest);
      WalkValue(toks, i + 1, ms.value, MValueAt(ms, p), pending);
      WalkMembers(toks, i + 1 + |first|, ms.rest, MRestAt(ms, p), pending - 1);
    }
  }

  /** Counting from the token of a value of the tree gives the number of tokens of its subtree. */
  lemma CountedValue(toks: seq<Token>, i: nat, v: Json, p: nat)
    requires Sits(toks, i, Toks(v, p))
    ensures Walk(toks, i, 1) == |Toks(v, p)| && WalkInside(toks, i, 1)
  {
    WalkValue(toks, i, v, p, 1);
  }

  // ---------------------------------------------------------------------------------------------
  // One component of a path

  /** `Name` is the stretch [start, stop) of the path, with the escapes still in it. */
  datatype Target = Name(start: nat, stop: nat) | Index(index: nat)

  /** A path is a C string: reading at its end gives the terminator. */
  function CharAt(path: string, i: nat): char { if i < |path| then path[i] else NUL }

  /** The end of the component that starts at `i`; `escaped`: the character before is a backslash. */
  function ComponentEnd(path: string, i: nat, escaped: bool): (r: nat)
    requires i <= |path|
    ensures i <= r <= |path|
    decreases |path| - i
  {
    if i == |path| || (path[i] == '/' && !escaped) then i
    else ComponentEnd(path, i + 1, path[i] == '\\')
  }

  /** `sizeof` of the buffer for a printed `long` (LP64), and the bounds of `long`. */
  const LONGBUFSIZE := 21
  const LONG_MAX := 0x7fff_ffff_ffff_ffff
  const TWO64 := 0x1_0000_0000_0000_0000

  predicate AllDigits(t: string) { forall i :: 0 <= i < |t| ==> '0' <= t[i] <= '9' }

  /** The value of a run of digits in `base`; None where a digit does not belong to it. */
  function DigitsValue(t: string, base: nat): Option<nat>
    requires AllDigits(t)
  {
    if t == "" then Some(0)
    else
      var d := t[|t| - 1] as int - '0' as int;
      match DigitsValue(t[..|t| - 1], base)
      case None => None
      case Some(n) => if d < base then Some(n * base + d) else None
  }

  /** `_jkii_is_long` and `_jkii_to_long` on the text between the brackets, converted to `size_t`;
      None when one of them refuses.  `strtol` with base 0 takes a leading zero for octal. */
  function IndexValue(t: string): (r: Option<nat>)
  {
    if |t| >= LONGBUFSIZE || t == "-" then None
    else
      var digits := if t != "" && t[0] == '-' then t[1..] else t;
      if !AllDigits(digits) then None
      else
        match DigitsValue(digits, if digits != "" && digits[0] == '0' then 8 else 10)
        case None => None
        case Some(n) =>
          if t != "" && t[0] == '-' then
            if n > LONG_MAX + 1 then None else Some(if n == 0 then 0 else TWO64 - n)
          else if n > LONG_MAX then None else Some(n)
  }

  /** `[` alone, or `[-`: the length of what is between the brackets goes below 0, and with it come more
      bytes than a number has, or a byte that is no digit. */
  predicate Truncated(path: string, start: nat, end: nat)
    requires start <= end <= |path|
  {
    end - start < 2 || (end - start == 2 && path[start + 1] == '-')
  }

  /** `_jkii_get_target` on the path from `at` on: where the next component starts (None when there
      is none), and the target.  On a malformed component the code leaves the zeroed target behind,
      which reads as an empty name. */
  function GetTarget(path: string, at: nat): (r: (Option<nat>, Target))
    requires at <= |path|
    ensures r.0.Some? ==> at < r.0.value < |path|
    ensures r.1.Name? ==> r.1.start <= r.1.stop <= |path|
  {
    if |path| - at <= 1 || path[at] != '/' || path[at + 1] == '/' then (None, Name(at, at))
    else
      var start, end := at + 1, ComponentEnd(path, at + 1, false);
      var next := if end == |path| then None else Some(end);
      if path[start] != '[' then (next, Name(start, end))
      else if Truncated(path, start, end) then (None, Name(at, at))
      else
        match IndexValue(path[start + 1..end - 1])
        case None => (None, Name(at, at))
        case Some(n) => (next, Index(n))
  }

  /** `_jkii_is_same_key` of a key with the stretch [t, stop) of the path. */
  predicate SameKey(path: string, t: nat, stop: nat, key: string)
    decreases |key|
  {
    if key == "" then t >= stop
    else if t >= stop then false
    else if key[0] == CharAt(path, t) then SameKey(path, t + 1, stop, key[1..])
    else key[0] in "/\\[]" && CharAt(path, t) == '\\' && CharAt(path, t + 1) == key[0]
         && SameKey(path, t + 2, stop, key[1..])
  }

  method FindComponentEnd(path: string, start: nat) returns (retval: nat)
    requires start <= |path|
    ensures retval == ComponentEnd(path, start, false)
  {
    retval := start;
    var beforeIsBackslash := false;
    while retval < |path| && (path[retval] != '/' || beforeIsBackslash)
      invariant start <= retval <= |path|
      invariant ComponentEnd(path, retval, beforeIsBackslash) == ComponentEnd(path, start, false)
    {
      beforeIsBackslash := path[retval] == '\\';
      retval := retval + 1;
    }
  }

  /** The comparing loop of `_jkii_is_same_key`. */
  method IsSameKey(path: string, target: Target, key: string) returns (same: bool)
    requires target.Name?
    ensures same == SameKey(path, target.start, target.stop, key)
  {
    var keyI: nat, targetI: nat := 0, target.start;
    while keyI < |key| && targetI < target.stop
      invariant keyI <= |key|
      invariant SameKey(path, targetI, target.stop, key[keyI..]) == SameKey(path, target.start, target.stop, key)
    {
      var c1, c2 := CharAt(path, targetI), CharAt(path, targetI + 1);
      if key[keyI] == c1 {
        targetI := targetI + 1;
      } else if key[keyI] in "/\\[]" && c1 == '\\' && c2 == key[keyI] {
        targetI := targetI + 2;
      } else {
        return false;
      }
      assert key[keyI..][1..] == key[keyI + 1..];
      keyI := keyI + 1;
    }
    assert keyI == |key| ==> key[keyI..] == "";
    same := keyI >= |key| && targetI >= target.stop;
  }

  // ---------------------------------------------------------------------------------------------
  // The lookup, by path and by name

  /** A value of a tree: the index of its token, the value, and its offset in the text. */
  datatype Spot = Spot(index: nat, value: Json, at: nat)

  /** The value of the first of the members `ms` (their tokens from index `i`, their text from `q`)
      whose key the target names. */
  function FindMember(ms: Members, i: nat, q: nat, path: string, target: Target): Option<Spot>
    requires target.Name?
  {
    if ms.MNil? then None
    else if SameKey(path, target.start, target.stop, ms.key) then Some(Spot(i + 1, ms.value, MValueAt(ms, q)))
    else FindMember(ms.rest, i + 1 + |Toks(ms.value, MValueAt(ms, q))|, MRestAt(ms, q), path, target)
  }

  function FindElem(es: Elems, i: nat, q: nat, n: nat): Option<Spot> {
    if es.ENil? then None
    else if n == 0 then Some(Spot(i, es.value, ValueAt(es, q)))
    else FindElem(es.rest, i + |Toks(es.value, ValueAt(es, q))|, RestAt(es, q), n - 1)
  }

  function FindChild(s: Spot, path: string, target: Target): Option<Spot> {
    match (s.value, target)
    case (Obj(gap, ms), Name(_, _)) => FindMember(ms, s.index + 1, s.at + 1 + |gap|, path, target)
    case (Arr(gap, es), Index(n)) => FindElem(es, s.index + 1, s.at + 1 + |gap|, n)
    case _ => None
  }

  /** What the path from `at` on leads to from the value `s`, component by component. */
  function FindPath(s: Spot, path: string, at: nat): Option<Spot>
    requires at <= |path|
    decreases |path| - at
  {
    var (next, target) := GetTarget(path, at);
    match FindChild(s, path, target)
    case None => None
    case Some(c) => if next.None? then Some(c) else FindPath(c, path, next.value)
  }

  /** The tokens and the text of the value `s` are where it says. */
  ghost predicate Placed(js: string, tokens: seq<Token>, s: Spot) {
    Sits(tokens, s.index, Toks(s.value, s.at)) && Has(js, s.at, Print(s.value))
  }

  /** The text of a member, up to its value and from there on. */
  lemma MemberKeyText(js: string, ms: Members, q: nat, d: string)
    requires ms.MCons? && Has(js, q, ms.before + (("\"" + ms.key + "\"") + (ms.mid + (":" + (ms.lead + d)))))
    ensures Has(js, KeyAt(ms, q), ms.key) && Has(js, MValueAt(ms, q), d)
  {
    hide Has;
    var key, e := "\"" + ms.key + "\"", ms.lead + d;
    HasConcat(js, q, ms.before, key + (ms.mid + (":" + e)));
    HasConcat(js, q + |ms.before|, key, ms.mid + (":" + e));
    assert key == "\"" + (ms.key + "\"");
    HasConcat(js, q + |ms.before|, "\"", ms.key + "\"");
    HasConcat(js, KeyAt(ms, q), ms.key, "\"");
    HasConcat(js, q + |ms.before| + |key|, ms.mid, ":" + e);
    HasConcat(js, q + |ms.before| + |key| + |ms.mid|, ":", e);
    HasConcat(js, MValueAt(ms, q) - |ms.lead|, ms.lead, d);
  }

  lemma MemberText(js: string, ms: Members, q: nat)
    requires ms.MCons? && Has(js, q, PrintMembers(ms))
    ensures Has(js, KeyAt(ms, q), ms.key) && Has(js, MValueAt(ms, q), Print(ms.value))
    ensures ms.rest.MCons? ==> Has(js, MRestAt(ms, q), PrintMembers(ms.rest))
  {
    hide Has, Print;
    var text, tail := Print(ms.value), MembersTail(ms.rest);
    MemberAssoc(ms.before, "\"" + ms.key + "\"", ms.mid, ":", ms.lead, text, ms.after, tail);
    MemberKeyText(js, ms, q, text + (ms.after + tail));
    HasConcat(js, MValueAt(ms, q), text, ms.after + tail);
    HasConcat(js, MValueAt(ms, q) + |text|, ms.after, tail);
    if ms.rest.MCons? {
      HasConcat(js, MRestAt(ms, q) - 1, ",", PrintMembers(ms.rest));
    }
  }

  lemma MemberParts(js: string, tokens: seq<Token>, i: nat, ms: Members, q: nat)
    requires ms.MCons? && Sits(tokens, i, MemberToks(ms, q)) && Has(js, q, PrintMembers(ms))
    ensures i < |tokens| && tokens[i] == KeyToken(ms, q)
    ensures Has(js, KeyAt(ms, q), ms.key)
    ensures Placed(js, tokens, Spot(i + 1, ms.value, MValueAt(ms, q)))
    ensures Sits(tokens, i + 1 + |Toks(ms.value, MValueAt(ms, q))|, MemberToks(ms.rest, MRestAt(ms, q)))
    ensures ms.rest.MCons? ==> Has(js, MRestAt(ms, q), PrintMembers(ms.rest))
  {
    hide Has, Sits, Print, PrintMembers, MemberToks;
    MemberText(js, ms, q);
    MemberTokParts(tokens, i, ms, q);
  }

  lemma MemberTokParts(tokens: seq<Token>, i: nat, ms: Members, q: nat)
    requires ms.MCons? && Sits(tokens, i, MemberToks(ms, q))
    ensures i < |tokens| && tokens[i] == KeyToken(ms, q)
    ensures Sits(tokens, i + 1, Toks(ms.value, MValueAt(ms, q)))
    ensures Sits(tokens, i + 1 + |Toks(ms.value, MValueAt(ms, q))|, MemberToks(ms.rest, MRestAt(ms, q)))
  {
    hide Print, PrintMembers, PrintElems, Sits;
    var first, rest := Toks(ms.value, MValueAt(ms, q)), MemberToks(ms.rest, MRestAt(ms, q));
    assert MemberToks(ms, q) == [KeyToken(ms, q)] + (first + rest);
    SitsConcat(tokens, i, [KeyToken(ms, q)], first + rest);
    SitsConcat(tokens, i + 1, first, rest);
    assert i < |tokens| by { SitsInside(tokens, i + 1, first); }
  }

  lemma SitsInside(tokens: seq<Token>, i: nat, t: seq<Token>)
    requires Sits(tokens, i, t)
    ensures i + |t| <= |tokens|
  {
  }

  lemma ElemParts(js: string, tokens: seq<Token>, i: nat, es: Elems, q: nat)
    requires es.ECons? && Sits(tokens, i, ElemToks(es, q)) && Has(js, q, PrintElems(es))
    ensures Placed(js, tokens, Spot(i, es.value, ValueAt(es, q)))
    ensures Sits(tokens, i + |Toks(es.value, ValueAt(es, q))|, ElemToks(es.rest, RestAt(es, q)))
    ensures es.rest.ECons? ==> Has(js, RestAt(es, q), PrintElems(es.rest))
  {
    hide Has, Print, Sits, Toks;
    var text, tail := Print(es.value), ElemsTail(es.rest);
    assert PrintElems(es) == es.before + (text + (es.after + tail));
    HasConcat(js, q, es.before, text + (es.after + tail));
    HasConcat(js, ValueAt(es, q), text, es.after + tail);
    HasConcat(js, ValueAt(es, q) + |text|, es.after, tail);
    if es.rest.ECons? {
      HasConcat(js, RestAt(es, q) - 1, ",", PrintElems(es.rest));
    }
    SitsConcat(tokens, i, Toks(es.value, ValueAt(es, q)), ElemToks(es.rest, RestAt(es, q)));
  }

  /** The root token of a placed container, and its body. */
  lemma ContainerParts(js: string, tokens: seq<Token>, s: Spot)
    requires Placed(js, tokens, s) && s.value.IsContainer()
    ensures s.index < |tokens| && tokens[s.index] == RootToken(s.value, s.at)
    ensures s.value.Obj? ==> Sits(tokens, s.index + 1, MemberToks(s.value.members, s.at + 1 + |s.value.gap|))
                             && Has(js, s.at + 1 + |s.value.gap|, PrintMembers(s.value.members))
    ensures s.value.Arr? ==> Sits(tokens, s.index + 1, ElemToks(s.value.elems, s.at + 1 + |s.value.gap|))
                             && Has(js, s.at + 1 + |s.value.gap|, PrintElems(s.value.elems))
  {
    hide Has, Sits, PrintElems, PrintMembers, ElemToks, MemberToks;
    var v, gap := s.value, s.value.gap;
    var body' := Toks(v, s.at)[1..];
    SitsConcat(tokens, s.index, [RootToken(v, s.at)], body');
    SitsInside(tokens, s.index, [RootToken(v, s.at)] + body');
    var open, body := if v.Arr? then "[" else "{", if v.Arr? then PrintElems(v.elems) else PrintMembers(v.members);
    assert Print(v) == open + (gap + body);
    HasConcat(js, s.at, open, gap + body);
    HasConcat(js, s.at + 1, gap, body);
  }

  /** The object branch of `_kii_jsmn_get_value_by_path`: the index of the value's token, or -1. */
  method GetMember(js: string, tokens: seq<Token>, root: nat, path: string, target: Target, ghost s: Spot)
    returns (r: int)
    requires Placed(js, tokens, s) && s.value.Obj? && s.index == root && target.Name?
    ensures match FindChild(s, path, target) case None => r == -1 case Some(c) => r == c.index && Placed(js, tokens, c)
  {
    hide Print, PrintMembers, Toks, MemberToks, Has, Sits;
    ContainerParts(js, tokens, s);
    var i, index := 0, 1;
    ghost var ms: Members, q: nat := s.value.members, s.at + 1 + |s.value.gap|;
    while i < tokens[root].size
      invariant 0 <= i && 0 < index && i + MLength(ms) == tokens[root].size
      invariant Sits(tokens, root + index, MemberToks(ms, q)) && (ms.MCons? ==> Has(js, q, PrintMembers(ms)))
      invariant FindMember(ms, root + index, q, path, target) == FindChild(s, path, target)
      decreases ms
    {
      MemberParts(js, tokens, root + index, ms, q);
      var key := tokens[root + index];
      assert key.kind == String;
      HasSlice(js, KeyAt(ms, q), ms.key);
      var same := IsSameKey(path, target, js[key.start..key.end]);
      if same { return root + index + 1; }
      var n := CountValue(tokens, root + index + 1, ms.value, MValueAt(ms, q));
      index := index + n + 1;
      i := i + 1;
      ms, q := ms.rest, MRestAt(ms, q);
    }
    r := -1;
  }

  lemma HasSlice(js: string, p: nat, s: string)
    requires Has(js, p, s)
    ensures p + |s| <= |js| && js[p..p + |s|] == s
  {
  }

  /** Counting from the token of a value of the tree. */
  method CountValue(tokens: seq<Token>, at: nat, ghost v: Json, ghost p: nat) returns (n: nat)
    requires Sits(tokens, at, Toks(v, p))
    ensures n == |Toks(v, p)|
  {
    CountedValue(tokens, at, v, p);
    n := CountContained(tokens, at);
  }

  /** The array branch: root moves over `n` elements. */
  method GetElement(js: string, tokens: seq<Token>, root: nat, n: nat, ghost s: Spot) returns (r: int)
    requires Placed(js, tokens, s) && s.value.Arr? && s.index == root
    ensures match FindElem(s.value.elems, s.index + 1, s.at + 1 + |s.value.gap|, n)
            case None => r == -1
            case Some(c) => r == c.index && Placed(js, tokens, c)
  {
    hide Print, PrintElems, Toks, ElemToks, Has, Sits;
    ContainerParts(js, tokens, s);
    ghost var es: Elems, q: nat := s.value.elems, s.at + 1 + |s.value.gap|;
    FindElemLength(es, root + 1, q, n);
    if n >= tokens[root].size { return -1; }
    var token, i := root, 0;
    while i < n
      invariant root <= token && 0 <= i <= n && n - i < ELength(es)
      invariant Sits(tokens, token + 1, ElemToks(es, q)) && (es.ECons? ==> Has(js, q, PrintElems(es)))
      invariant FindElem(es, token + 1, q, n - i) == FindElem(s.value.elems, root + 1, s.at + 1 + |s.value.gap|, n)
      decreases n - i
    {
      ElemParts(js, tokens, token + 1, es, q);
      var k := CountValue(tokens, token + 1, es.value, ValueAt(es, q));
      token := token + k;
      i := i + 1;
      es, q := es.rest, RestAt(es, q);
    }
    ElemParts(js, tokens, token + 1, es, q);
    r := token + 1;
  }

  /** An index has an element exactly when it is below the number of elements. */
  lemma {:induction false} FindElemLength(es: Elems, i: nat, q: nat, n: nat)
    ensures FindElem(es, i, q, n).None? <==> n >= ELength(es)
    decreases es
  {
    if es.ECons? && n > 0 {
      FindElemLength(es.rest, i + |Toks(es.value, ValueAt(es, q))|, RestAt(es, q), n - 1);
    }
  }

  /** `_jkii_get_target` */
  method TakeTarget(path: string, at: nat) returns (next: Option<nat>, target: Target)
    requires at <= |path|
    ensures (next, target) == GetTarget(path, at)
  {
    hide ComponentEnd, IndexValue;
    target := Name(at, at);
    if |path| - at <= 1 || path[at] != '/' || path[at + 1] == '/' {
      return None, target;
    }
    var start := at + 1;
    var end := FindComponentEnd(path, start);
    next := if end == |path| then None else Some(end);
    if path[start] == '[' {
      if end - start < 2 || (end - start == 2 && path[start + 1] == '-') { return None, target; }
      match IndexValue(path[start + 1..end - 1]) {
        case None => return None, target;
        case Some(n) => target := Index(n);
      }
    } else {
      target := Name(start, end);
    }
  }

  /** `_kii_jsmn_get_value_by_path` on the tokens of a printed document: the index of the token of
      the value that the path leads to in the tree, and -1 when there is none. */
  method GetValueByPath(js: string, tokens: seq<Token>, path: string, ghost root: Spot) returns (r: int)
    requires Placed(js, tokens, root) && root.index == 0
    ensures match FindPath(root, path, 0) case None => r == -1 case Some(c) => r == c.index && Placed(js, tokens, c)
  {
    hide Print, Toks, Has, Sits, GetTarget;
    r := 0;
    var at := 0;
    ghost var s := root;
    while true
      invariant at <= |path| && Placed(js, tokens, s) && r == s.index
      invariant FindPath(s, path, at) == FindPath(root, path, 0)
      decreases |path| - at
    {
      var next, target := TakeTarget(path, at);
      PlacedRoot(js, tokens, s);
      if tokens[r].kind == Object && target.Name? {
        r := GetMember(js, tokens, r, path, target, s);
      } else if tokens[r].kind == Array && target.Index? {
        r := GetElement(js, tokens, r, target.index, s);
      } else {
        return -1;
      }
      if r == -1 || next.None? { return; }
      s := FindChild(s, path, target).value;
      at := next.value;
    }
  }

  lemma PlacedRoot(js: string, tokens: seq<Token>, s: Spot)
    requires Placed(js, tokens, s)
    ensures s.index < |tokens| && tokens[s.index] == RootToken(s.value, s.at)
  {
    SitsConcat(tokens, s.index, [RootToken(s.value, s.at)], Toks(s.value, s.at)[1..]);
  }
}
