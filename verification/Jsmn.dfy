/** The JSON tokeniser of ebisu/jkii/libs/jsmn, default build (no strict mode, no parent links).

    The C code fills a caller-owned token array in place and keeps three integers in a parser
    object.  `Fill` and `Count` are the two passes as functions of the text and of a parser state;
    the class `Parser` is the code itself, proved to compute them.
 */
module Jsmn {

  import opened Text

  datatype Kind = Primitive | Object | Array | String

  /** `end == -1` marks a container that has been opened and not yet closed. */
  datatype Token = Token(kind: Kind, start: int, end: int, size: int) {
    predicate IsOpen() { start != -1 && end == -1 }
    predicate IsContainer() { kind == Object || kind == Array }
    function Bumped(): Token { this.(size := size + 1) }
  }

  datatype Error = NoMem | Inval | Part

  /** The error as the C functions return it. */
  function ErrorCode(e: Error): int {
    match e case NoMem => -1 case Inval => -2 case Part => -3
  }

  predicate IsWs(c: char) { c == '\t' || c == '\r' || c == '\n' || c == ' ' }

  predicate EndsPrimitive(c: char) { c == ':' || IsWs(c) || c == ',' || c == ']' || c == '}' }

  /** A byte that a primitive may hold: printable ASCII, whether `char` is signed or not. */
  predicate Printable(c: char) { 32 <= c as int < 127 }

  predicate IsHex(c: char) { '0' <= c <= '9' || 'A' <= c <= 'F' || 'a' <= c <= 'f' }

  predicate SimpleEscape(c: char) {
    c == '\"' || c == '/' || c == '\\' || c == 'b' || c == 'f' || c == 'r' || c == 'n' || c == 't'
  }

  predicate AtEnd(js: string, p: nat) { p >= |js| || js[p] == NUL }

  /** Where the primitive that is being read at `p` ends; None for a byte it may not hold. */
  function PrimEnd(js: string, p: nat): (r: Option<nat>)
    ensures r.Some? ==> p <= r.value && (p < |js| && !AtEnd(js, p) && !EndsPrimitive(js[p]) ==> p < r.value)
    ensures r.Some? && p <= |js| ==> r.value <= |js|
    decreases |js| - p
  {
    if AtEnd(js, p) || EndsPrimitive(js[p]) then Some(p)
    else if !Printable(js[p]) then None
    else PrimEnd(js, p + 1)
  }

  datatype Scan = Closed(quote: nat) | Broken(error: Error)

  /** Up to `left` hexadecimal digits from `p`; None for a byte that is not one. */
  function HexEnd(js: string, p: nat, left: nat): (r: Option<nat>)
    ensures r.Some? ==> p <= r.value <= p + left && (p <= |js| ==> r.value <= |js|)
    decreases left
  {
    if left == 0 || AtEnd(js, p) then Some(p)
    else if !IsHex(js[p]) then None
    else HexEnd(js, p + 1, left - 1)
  }

  /** The scan of a string body from `p`: where its closing quote is, or why there is none. */
  function StringEnd(js: string, p: nat): (r: Scan)
    ensures r.Closed? ==> p <= r.quote < |js| && js[r.quote] == '\"'
    ensures r.Broken? ==> r.error != NoMem
    decreases |js| - p
  {
    if AtEnd(js, p) then Broken(Part)
    else if js[p] == '\"' then Closed(p)
    else if js[p] == '\\' && p + 1 < |js| then
      if SimpleEscape(js[p + 1]) then StringEnd(js, p + 2)
      else if js[p + 1] == 'u' then
        match HexEnd(js, p + 2, 4)
        case None => Broken(Inval)
        case Some(q) => StringEnd(js, q)
      else Broken(Inval)
    else StringEnd(js, p + 1)
  }

  /** The last token that is still open, or -1. */
  function LastOpen(toks: seq<Token>): (i: int)
    ensures -1 <= i < |toks|
    ensures 0 <= i ==> toks[i].IsOpen()
    ensures forall j :: i < j < |toks| ==> !toks[j].IsOpen()
  {
    if toks == [] then -1
    else if toks[|toks| - 1].IsOpen() then |toks| - 1
    else LastOpen(toks[..|toks| - 1])
  }

  lemma LastOpenIs(toks: seq<Token>, i: int)
    requires -1 <= i < |toks| && (i >= 0 ==> toks[i].IsOpen())
    requires forall j :: i < j < |toks| ==> !toks[j].IsOpen()
    ensures LastOpen(toks) == i
  {
  }

  /** The last open token among the containers, or -1. */
  function LastOpenContainer(toks: seq<Token>): (i: int)
    ensures -1 <= i < |toks|
    ensures 0 <= i ==> toks[i].IsOpen() && toks[i].IsContainer()
    ensures forall j :: i < j < |toks| ==> !(toks[j].IsOpen() && toks[j].IsContainer())
  {
    if toks == [] then -1
    else if toks[|toks| - 1].IsOpen() && toks[|toks| - 1].IsContainer() then |toks| - 1
    else LastOpenContainer(toks[..|toks| - 1])
  }

  /** A parser between two steps: `toks` are the tokens handed out so far, `super` the index of
      the one that counts its children (-1: none), `count` the value to be returned.  `orphans`
      is bookkeeping of this model: how many tokens were created while `super` was -1. */
  datatype State = State(pos: nat, toks: seq<Token>, super: int, count: nat, orphans: nat) {
    predicate Valid() { -1 <= super < |toks| }
  }

  const INIT := State(0, [], -1, 0, 0)

  datatype Step =
    | Next(st: State)
    | Stop(error: Error, at: State)
    | Undefined  // the code would read `tokens[-1]`

  datatype Outcome =
    | Tokens(final: State)
    | Failed(error: Error, at: State)
    | Crash

  function Bump(toks: seq<Token>, super: int): (r: seq<Token>)
    requires -1 <= super < |toks|
    ensures |r| == |toks|
    ensures forall j :: 0 <= j < |toks| ==> r[j] == if j == super then toks[j].Bumped() else toks[j]
  {
    if super == -1 then toks else toks[super := toks[super].Bumped()]
  }

  /** A complete token of `kind` spanning [start, end) joins the array; reading goes on at `next`. */
  function Add(st: State, kind: Kind, start: nat, end: int, next: nat): (r: State)
    requires st.Valid()
    ensures r.Valid() && r.pos == next
  {
    State(next, Bump(st.toks, st.super) + [Token(kind, start, end, 0)], st.super, st.count + 1,
          if st.super == -1 then st.orphans + 1 else st.orphans)
  }

  function OpenStep(st: State, kind: Kind, cap: nat): Step
    requires st.Valid()
  {
    if |st.toks| >= cap then Stop(NoMem, st.(count := st.count + 1))
    else
      var a := Add(st, kind, st.pos, -1, st.pos + 1);
      Next(a.(super := |st.toks|))
  }

  function CloseStep(st: State, kind: Kind): Step
    requires st.Valid()
  {
    var i := LastOpen(st.toks);
    if i == -1 || st.toks[i].kind != kind then Stop(Inval, st)
    else
      var toks := st.toks[i := st.toks[i].(end := st.pos + 1)];
      Next(st.(pos := st.pos + 1, toks := toks, super := LastOpen(toks[..i])))
  }

  function StringStep(js: string, st: State, cap: nat): Step
    requires st.Valid()
  {
    match StringEnd(js, st.pos + 1)
    case Broken(e) => Stop(e, st)
    case Closed(q) =>
      if |st.toks| >= cap then Stop(NoMem, st) else Next(Add(st, String, st.pos + 1, q, q + 1))
  }

  function PrimitiveStep(js: string, st: State, cap: nat): Step
    requires st.Valid()
  {
    match PrimEnd(js, st.pos)
    case None => Stop(Inval, st)
    case Some(e) => if |st.toks| >= cap then Stop(NoMem, st) else Next(Add(st, Primitive, st.pos, e, e))
  }

  function CommaStep(st: State): Step
    requires st.Valid()
  {
    if st.super == -1 then Undefined
    else if st.toks[st.super].IsContainer() then Next(st.(pos := st.pos + 1))
    else
      var i := LastOpenContainer(st.toks);
      Next(st.(pos := st.pos + 1, super := if i == -1 then st.super else i))
  }

  /** One turn of the main loop of the filling pass. */
  function FillStep(js: string, st: State, cap: nat): (r: Step)
    requires st.Valid() && !AtEnd(js, st.pos)
    ensures r.Next? ==> r.st.Valid() && st.pos < r.st.pos <= |js|
  {
    var c := js[st.pos];
    if c == '{' then OpenStep(st, Object, cap)
    else if c == '[' then OpenStep(st, Array, cap)
    else if c == '}' then CloseStep(st, Object)
    else if c == ']' then CloseStep(st, Array)
    else if c == '\"' then StringStep(js, st, cap)
    else if IsWs(c) then Next(st.(pos := st.pos + 1))
    else if c == ':' then Next(st.(pos := st.pos + 1, super := |st.toks| - 1))
    else if c == ',' then CommaStep(st)
    else PrimitiveStep(js, st, cap)
  }

  /** The filling pass over `js` from `st`, with room for `cap` tokens. */
  function Fill(js: string, st: State, cap: nat): Outcome
    requires st.Valid()
    decreases |js| - st.pos
  {
    if AtEnd(js, st.pos) then
      if LastOpen(st.toks) == -1 then Tokens(st) else Failed(Part, st)
    else
      match FillStep(js, st, cap)
      case Next(st') => Fill(js, st', cap)
      case Stop(e, at) => Failed(e, at)
      case Undefined => Crash
  }

  datatype CountOne = Go(pos: nat, more: nat) | Bad(error: Error)

  /** One turn of the main loop of the counting pass (no token array). */
  function CountStep(js: string, pos: nat): (r: CountOne)
    requires !AtEnd(js, pos)
    ensures r.Go? ==> pos < r.pos <= |js|
    ensures r.Bad? ==> r.error != NoMem
  {
    var c := js[pos];
    if c == '{' || c == '[' then Go(pos + 1, 1)
    else if c == '}' || c == ']' || IsWs(c) || c == ':' || c == ',' then Go(pos + 1, 0)
    else if c == '\"' then
      match StringEnd(js, pos + 1)
      case Broken(e) => Bad(e)
      case Closed(q) => Go(q + 1, 1)
    else
      match PrimEnd(js, pos)
      case None => Bad(Inval)
      case Some(e) => Go(e, 1)
  }

  /** The counting pass: the number of tokens, or an error code. */
  function Count(js: string, pos: nat, count: nat): (r: int)
    ensures r >= count || r == ErrorCode(Inval) || r == ErrorCode(Part)
    decreases |js| - pos
  {
    if AtEnd(js, pos) then count
    else
      match CountStep(js, pos)
      case Bad(e) => ErrorCode(e)
      case Go(p, n) => Count(js, p, count + n)
  }

  // ---------------------------------------------------------------------------------------------
  // The two passes agree

  lemma StepsAgree(js: string, st: State, cap: nat)
    requires st.Valid() && !AtEnd(js, st.pos)
    ensures var f, c := FillStep(js, st, cap), CountStep(js, st.pos);
            && (f.Next? ==> c.Go? && c.pos == f.st.pos && |f.st.toks| == |st.toks| + c.more
                            && f.st.count == st.count + c.more && (c.more > 0 ==> |st.toks| < cap))
            && (f.Stop? && f.error == NoMem ==> c.Go? && c.more == 1 && |st.toks| >= cap)
  {
  }

  /** If the filling pass succeeds, the counting pass returns its number of tokens; if it runs out
      of room, the counting pass asks for more than there was, or rejects the text. */
  lemma {:induction false} PassesAgree(js: string, st: State, cap: nat)
    requires st.Valid() && |st.toks| == st.count <= cap
    ensures match Fill(js, st, cap)
            case Tokens(f) => Count(js, st.pos, st.count) == f.count == |f.toks| <= cap
            case Failed(e, _) => e == NoMem ==> Count(js, st.pos, st.count) > cap || Count(js, st.pos, st.count) < 0
            case Crash => true
    decreases |js| - st.pos
  {
    if !AtEnd(js, st.pos) {
      StepsAgree(js, st, cap);
      var s := FillStep(js, st, cap);
      if s.Next? {
        PassesAgree(js, s.st, cap);
      }
    }
  }

  /** The room given to the filling pass matters only through the number of tokens: with enough it
      makes no difference, with less the pass reports that there is none left. */
  lemma {:induction false} RoomDecides(js: string, st: State, cap: nat, other: nat)
    requires st.Valid() && |st.toks| == st.count && |st.toks| <= cap && |st.toks| <= other
    requires Fill(js, st, cap).Tokens?
    ensures var f := Fill(js, st, cap).final;
            if |f.toks| <= other then Fill(js, st, other) == Tokens(f)
            else Fill(js, st, other).Failed? && Fill(js, st, other).error == NoMem
    decreases |js| - st.pos
  {
    if !AtEnd(js, st.pos) {
      StepsAgree(js, st, cap);
      StepsAgree(js, st, other);
      var s := FillStep(js, st, cap);
      PassesAgree(js, s.st, cap);
      if FillStep(js, st, other).Next? {
        RoomDecides(js, s.st, cap, other);
      }
    }
  }

  /** The number of tokens the counting pass returns is exactly the room the filling pass needs:
      with it there is no shortage, and success returns that very number; and on a text that is
      accepted with some room, less than that number is reported as a shortage. */
  lemma CountIsExact(js: string, cap: nat)
    ensures var c, f := Count(js, 0, 0), Fill(js, INIT, cap);
            && (0 <= c <= cap ==> !(f.Failed? && f.error == NoMem))
            && (f.Tokens? ==> f.final.count == |f.final.toks| == c)
    ensures forall room: nat :: Fill(js, INIT, room).Tokens? ==>
              if Count(js, 0, 0) <= cap then Fill(js, INIT, cap) == Fill(js, INIT, room)
              else Fill(js, INIT, cap).Failed? && Fill(js, INIT, cap).error == NoMem
  {
    PassesAgree(js, INIT, cap);
    forall room: nat | Fill(js, INIT, room).Tokens?
      ensures if Count(js, 0, 0) <= cap then Fill(js, INIT, cap) == Fill(js, INIT, room)
              else Fill(js, INIT, cap).Failed? && Fill(js, INIT, cap).error == NoMem
    {
      PassesAgree(js, INIT, room);
      RoomDecides(js, INIT, room, cap);
    }
  }

  // ---------------------------------------------------------------------------------------------
  // Sizes count later tokens

  /** The sum of the sizes from index `i` on. */
  function SizeSum(toks: seq<Token>, i: nat): int
    decreases |toks| - i
  {
    if i >= |toks| then 0 else toks[i].size + SizeSum(toks, i + 1)
  }

  /** No size counts a token at or before its own: the sizes from any index on add up to less than
      the number of tokens from there on. */
  ghost predicate CountsLaterTokens(toks: seq<Token>) {
    forall i :: 0 <= i < |toks| ==> SizeSum(toks, i) <= |toks| - i - 1
  }

  lemma {:induction false} SumAfterAdd(toks: seq<Token>, super: int, t: Token, i: nat)
    requires -1 <= super < |toks| && i <= |toks| && t.size == 0
    ensures SizeSum(Bump(toks, super) + [t], i) == SizeSum(toks, i) + if i <= super then 1 else 0
    decreases |toks| - i
  {
    if i < |toks| {
      SumAfterAdd(toks, super, t, i + 1);
    } else {
      assert SizeSum(Bump(toks, super) + [t], i + 1) == 0;
    }
  }

  lemma {:induction false} SumAfterEnd(toks: seq<Token>, k: nat, end: int, i: nat)
    requires k < |toks| && i <= |toks|
    ensures SizeSum(toks[k := toks[k].(end := end)], i) == SizeSum(toks, i)
    decreases |toks| - i
  {
    if i < |toks| {
      SumAfterEnd(toks, k, end, i + 1);
    }
  }

  ghost predicate SizesKept(st: State) {
    CountsLaterTokens(st.toks) && SizeSum(st.toks, 0) == |st.toks| - st.orphans
  }

  lemma AddKeepsSizes(st: State, kind: Kind, start: nat, end: int, next: nat)
    requires st.Valid() && SizesKept(st)
    ensures SizesKept(Add(st, kind, start, end, next))
  {
    var t := Token(kind, start, end, 0);
    var toks := Bump(st.toks, st.super) + [t];
    forall i | 0 <= i < |toks| ensures SizeSum(toks, i) <= |toks| - i - 1 {
      SumAfterAdd(st.toks, st.super, t, i);
    }
    SumAfterAdd(st.toks, st.super, t, 0);
  }

  lemma CloseKeepsSizes(st: State, k: nat)
    requires st.Valid() && SizesKept(st) && k < |st.toks|
    ensures forall end :: SizesKept(st.(toks := st.toks[k := st.toks[k].(end := end)]))
  {
    forall end ensures SizesKept(st.(toks := st.toks[k := st.toks[k].(end := end)])) {
      var toks := st.toks[k := st.toks[k].(end := end)];
      forall i | 0 <= i <= |toks| ensures SizeSum(toks, i) == SizeSum(st.toks, i) {
        SumAfterEnd(st.toks, k, end, i);
      }
    }
  }

  lemma StepKeepsSizes(js: string, st: State, cap: nat)
    requires st.Valid() && !AtEnd(js, st.pos) && SizesKept(st)
    requires FillStep(js, st, cap).Next?
    ensures SizesKept(FillStep(js, st, cap).st)
  {
    var c := js[st.pos];
    if c == '{' {
      AddKeepsSizes(st, Object, st.pos, -1, st.pos + 1);
    } else if c == '[' {
      AddKeepsSizes(st, Array, st.pos, -1, st.pos + 1);
    } else if c == '}' || c == ']' {
      CloseKeepsSizes(st, LastOpen(st.toks));
    } else if c == '\"' {
      var q := StringEnd(js, st.pos + 1).quote;
      AddKeepsSizes(st, String, st.pos + 1, q, q + 1);
    } else if !IsWs(c) && c != ':' && c != ',' {
      var e := PrimEnd(js, st.pos).value;
      AddKeepsSizes(st, Primitive, st.pos, e, e);
    }
  }

  /** Whatever text is accepted, JSON or not, no token counts itself or an earlier one, and the
      sizes add up to the number of tokens less those that were created with no superior. */
  lemma {:induction false} AcceptedSizes(js: string, st: State, cap: nat)
    requires st.Valid() && SizesKept(st)
    ensures Fill(js, st, cap).Tokens? ==> SizesKept(Fill(js, st, cap).final)
    decreases |js| - st.pos
  {
    if !AtEnd(js, st.pos) && FillStep(js, st, cap).Next? {
      StepKeepsSizes(js, st, cap);
      AcceptedSizes(js, FillStep(js, st, cap).st, cap);
    }
  }

  // ---------------------------------------------------------------------------------------------
  // The code

  class Parser {
    var pos: nat
    var toknext: nat
    var toksuper: int

    constructor ()
      ensures pos == 0 && toknext == 0 && toksuper == -1
    {
      pos, toknext, toksuper := 0, 0, -1;
    }

    ghost predicate Valid(tokens: array?<Token>)
      reads this
    {
      -1 <= toksuper < toknext && if tokens == null then toknext == 0 else toknext <= tokens.Length
    }

    /** The parser and its token array as a value. */
    ghost function At(tokens: array<Token>, count: nat, orphans: nat): (st: State)
      requires Valid(tokens)
      reads this, tokens
      ensures st.Valid()
    {
      State(pos, tokens[..toknext], toksuper, count, orphans)
    }

    /** `jsmn_parse_primitive`: the index after the primitive, or an error. */
    method ParsePrimitive(js: string, tokens: array?<Token>) returns (r: int)
      requires Valid(tokens) && !AtEnd(js, pos) && !EndsPrimitive(js[pos])
      modifies this, tokens
      ensures toksuper == old(toksuper)
      ensures match PrimEnd(js, old(pos))
              case None => r == ErrorCode(Inval) && pos == old(pos) && toknext == old(toknext)
                           && (tokens != null ==> tokens[..] == old(tokens[..]))
              case Some(e) =>
                if tokens == null then r == 0 && pos == e - 1 && toknext == old(toknext)
                else if old(toknext) < tokens.Length then
                  && r == 0 && pos == e - 1 && toknext == old(toknext) + 1
                  && tokens[..] == old(tokens[..])[old(toknext) := Token(Primitive, old(pos), e, 0)]
                else r == ErrorCode(NoMem) && pos == old(pos) && toknext == old(toknext) && tokens[..] == old(tokens[..])
    {
      var start := pos;
      while pos < |js| && js[pos] != NUL && !EndsPrimitive(js[pos])
        invariant start <= pos <= |js|
        invariant toknext == old(toknext) && toksuper == old(toksuper)
        invariant tokens != null ==> tokens[..] == old(tokens[..])
        invariant PrimEnd(js, pos) == PrimEnd(js, start)
        decreases |js| - pos
      {
        if !Printable(js[pos]) {
          pos := start;
          return ErrorCode(Inval);
        }
        pos := pos + 1;
      }
      if tokens == null {
        pos := pos - 1;
        return 0;
      }
      if toknext >= tokens.Length {
        pos := start;
        return ErrorCode(NoMem);
      }
      tokens[toknext] := Token(Primitive, start, pos, 0);
      toknext := toknext + 1;
      pos := pos - 1;
      return 0;
    }

    /** The loop over the four digits of an escape written with `u`. */
    method SkipHex(js: string) returns (ok: bool)
      requires pos <= |js|
      modifies this`pos
      ensures ok == HexEnd(js, old(pos), 4).Some?
      ensures ok ==> pos == HexEnd(js, old(pos), 4).value
    {
      var i := 0;
      while i < 4 && pos < |js| && js[pos] != NUL
        invariant 0 <= i <= 4 && pos == old(pos) + i <= |js|
        invariant HexEnd(js, pos, 4 - i) == HexEnd(js, old(pos), 4)
      {
        if !IsHex(js[pos]) { return false; }
        pos := pos + 1;
        i := i + 1;
      }
      return true;
    }

    /** `jsmn_parse_string`: leaves `pos` on the closing quote, or on the opening one on error. */
    method ParseString(js: string, tokens: array?<Token>) returns (r: int)
      requires Valid(tokens) && pos < |js|
      modifies this, tokens
      ensures toksuper == old(toksuper)
      ensures match StringEnd(js, old(pos) + 1)
              case Broken(e) => r == ErrorCode(e) && pos == old(pos) && toknext == old(toknext)
                                && (tokens != null ==> tokens[..] == old(tokens[..]))
              case Closed(q) =>
                if tokens == null then r == 0 && pos == q && toknext == old(toknext)
                else if old(toknext) < tokens.Length then
                  && r == 0 && pos == q && toknext == old(toknext) + 1
                  && tokens[..] == old(tokens[..])[old(toknext) := Token(String, old(pos) + 1, q, 0)]
                else r == ErrorCode(NoMem) && pos == old(pos) && toknext == old(toknext) && tokens[..] == old(tokens[..])
    {
      var start := pos;
      pos := pos + 1;
      while pos < |js| && js[pos] != NUL
        invariant start < pos <= |js|
        invariant toknext == old(toknext) && toksuper == old(toksuper)
        invariant tokens != null ==> tokens[..] == old(tokens[..])
        invariant StringEnd(js, pos) == StringEnd(js, start + 1)
        decreases |js| - pos
      {
        var c := js[pos];
        if c == '\"' {
          if tokens == null { return 0; }
          if toknext >= tokens.Length {
            pos := start;
            return ErrorCode(NoMem);
          }
          tokens[toknext] := Token(String, start + 1, pos, 0);
          toknext := toknext + 1;
          return 0;
        }
        if c == '\\' && pos + 1 < |js| {
          pos := pos + 1;
          if js[pos] == 'u' {
            pos := pos + 1;
            var ok := SkipHex(js);
            if !ok {
              pos := start;
              return ErrorCode(Inval);
            }
            pos := pos - 1;
          } else if !SimpleEscape(js[pos]) {
            pos := start;
            return ErrorCode(Inval);
          }
        }
        pos := pos + 1;
      }
      pos := start;
      return ErrorCode(Part);
    }

    /** The opening-bracket branch of `jsmn_parse`. */
    method OpenBracket(kind: Kind, tokens: array<Token>, ghost count: nat, ghost orphans: nat)
      returns (r: int, ghost orphans': nat)
      requires Valid(tokens)
      modifies this`toknext, this`toksuper, tokens
      ensures match OpenStep(old(At(tokens, count, orphans)), kind, tokens.Length)
              case Next(st) => r == 0 && Valid(tokens) && At(tokens, count + 1, orphans') == st.(pos := pos)
              case Stop(e, st) => r == ErrorCode(e) && Valid(tokens) && At(tokens, count + 1, orphans') == st
              case Undefined => false
    {
      orphans' := orphans;
      if toknext >= tokens.Length { return ErrorCode(NoMem), orphans; }
      tokens[toknext] := Token(kind, -1, -1, 0);
      toknext := toknext + 1;
      if toksuper != -1 {
        tokens[toksuper] := tokens[toksuper].Bumped();
      } else {
        orphans' := orphans + 1;
      }
      tokens[toknext - 1] := tokens[toknext - 1].(start := pos);
      toksuper := toknext - 1;
      return 0, orphans';
    }

    /** The search of `jsmn_parse` for the last token below `n` that is still open. */
    method FindOpen(tokens: array<Token>, n: nat) returns (i: int)
      requires n <= tokens.Length
      ensures i == LastOpen(tokens[..n])
    {
      i := n - 1;
      while i >= 0 && !tokens[i].IsOpen()
        invariant -1 <= i < n
        invariant forall j :: i < j < n ==> !tokens[j].IsOpen()
      {
        i := i - 1;
      }
      LastOpenIs(tokens[..n], i);
    }

    /** The closing-bracket branch of `jsmn_parse`. */
    method CloseBracket(kind: Kind, tokens: array<Token>) returns (r: int)
      requires Valid(tokens)
      modifies this`toksuper, tokens
      ensures match CloseStep(old(At(tokens, 0, 0)), kind)
              case Next(st) => r == 0 && Valid(tokens) && At(tokens, 0, 0).(pos := st.pos) == st
              case Stop(e, st) => r == ErrorCode(e) && Valid(tokens) && At(tokens, 0, 0) == st
              case Undefined => false
    {
      hide LastOpen;
      ghost var before := tokens[..toknext];
      var i := FindOpen(tokens, toknext);
      if i == -1 || tokens[i].kind != kind { return ErrorCode(Inval); }
      toksuper := -1;
      tokens[i] := tokens[i].(end := pos + 1);
      assert tokens[..toknext] == before[i := before[i].(end := pos + 1)];
      assert tokens[..toknext][..i] == tokens[..i];
      i := FindOpen(tokens, i);
      if i >= 0 { toksuper := i; }
      return 0;
    }

    /** The comma branch of `jsmn_parse`. */
    method Comma(tokens: array<Token>)
      requires Valid(tokens) && toksuper != -1
      modifies this`toksuper
      ensures Valid(tokens)
      ensures CommaStep(old(At(tokens, 0, 0))) == Next(At(tokens, 0, 0).(pos := pos + 1))
    {
      if !tokens[toksuper].IsContainer() {
        var i := toknext - 1;
        while i >= 0 && !(tokens[i].IsContainer() && tokens[i].IsOpen())
          invariant -1 <= i < toknext
          invariant forall j :: i < j < toknext ==> !(tokens[j].IsOpen() && tokens[j].IsContainer())
        {
          i := i - 1;
        }
        assert i == LastOpenContainer(tokens[..toknext]);
        if i >= 0 { toksuper := i; }
      }
    }

    /** The string branch and the primitive branch of `jsmn_parse`: a token, and one more below the
        superior token. */
    method Scalar(js: string, tokens: array?<Token>, count: nat, ghost orphans: nat)
      returns (r: int, count': nat, ghost orphans': nat)
      requires Valid(tokens) && !AtEnd(js, pos) && js[pos] != '{' && js[pos] != '[' && !EndsPrimitive(js[pos])
      modifies this, tokens
      ensures Valid(tokens)
      ensures tokens == null ==>
                match CountStep(js, old(pos))
                case Go(p, n) => r == 0 && pos + 1 == p && count' == count + n
                case Bad(e) => r == ErrorCode(e)
      ensures tokens != null ==>
                match FillStep(js, old(At(tokens, count, orphans)), tokens.Length)
                case Next(st) => r == 0 && st == At(tokens, count', orphans').(pos := pos + 1)
                case Stop(e, at) => r == ErrorCode(e) && at == At(tokens, count', orphans')
                case Undefined => false
    {
      hide StringEnd, PrimEnd, OpenStep, CloseStep, CommaStep, LastOpen;
      count', orphans' := count, orphans;
      if js[pos] == '\"' {
        r := ParseString(js, tokens);
      } else {
        r := ParsePrimitive(js, tokens);
      }
      if r < 0 { return; }
      count' := count + 1;
      if tokens != null {
        if toksuper != -1 {
          tokens[toksuper] := tokens[toksuper].Bumped();
        } else {
          orphans' := orphans + 1;
        }
      }
    }

    /** One turn of the main loop of `jsmn_parse`, up to the increment of `pos`; `count` is the
        local counter of the C function, a negative `r` its early return. */
    method Turn(js: string, tokens: array?<Token>, count: nat, ghost orphans: nat)
      returns (r: int, count': nat, ghost orphans': nat)
      requires Valid(tokens) && !AtEnd(js, pos)
      requires tokens != null ==> FillStep(js, At(tokens, count, orphans), tokens.Length) != Undefined
      modifies this, tokens
      ensures Valid(tokens)
      ensures tokens == null ==>
                match CountStep(js, old(pos))
                case Go(p, n) => r == 0 && pos + 1 == p && count' == count + n
                case Bad(e) => r == ErrorCode(e)
      ensures tokens != null ==>
                match FillStep(js, old(At(tokens, count, orphans)), tokens.Length)
                case Next(st) => r == 0 && st == At(tokens, count', orphans').(pos := pos + 1)
                case Stop(e, at) => r == ErrorCode(e) && at == At(tokens, count', orphans')
                case Undefined => false
    {
      hide StringStep, PrimitiveStep, StringEnd, PrimEnd, LastOpen, LastOpenContainer;
      r, count', orphans' := 0, count, orphans;
      var c := js[pos];
      if c == '{' || c == '[' {
        count' := count + 1;
        if tokens != null {
          r, orphans' := OpenBracket(if c == '{' then Object else Array, tokens, count, orphans);
        }
      } else if c == '}' || c == ']' {
        if tokens != null {
          r := CloseBracket(if c == '}' then Object else Array, tokens);
        }
      } else if IsWs(c) {
      } else if c == ':' {
        toksuper := toknext - 1;
      } else if c == ',' {
        if tokens != null {
          Comma(tokens);
        }
      } else {
        r, count', orphans' := Scalar(js, tokens, count, orphans);
      }
    }

    /** `jsmn_parse`: the counting pass without a token array, the filling pass with one.  The code
        demands that no comma comes while there is no superior token. */
    method Parse(js: string, tokens: array?<Token>) returns (r: int, ghost orphans: nat)
      requires Valid(tokens)
      requires tokens != null ==> !Fill(js, At(tokens, 0, 0), tokens.Length).Crash?
      modifies this, tokens
      ensures Valid(tokens)
      ensures tokens == null ==> r == Count(js, old(pos), 0)
      ensures tokens != null ==>
                match Fill(js, old(At(tokens, 0, 0)), tokens.Length)
                case Tokens(st) => r == st.count && st == At(tokens, st.count, orphans)
                case Failed(e, st) => r == ErrorCode(e) && st == At(tokens, st.count, orphans)
                case Crash => false
    {
      hide FillStep, CountStep;
      var count: nat := 0;
      orphans := 0;
      while pos < |js| && js[pos] != NUL
        invariant Valid(tokens)
        invariant tokens == null ==> Count(js, pos, count) == Count(js, old(pos), 0)
        invariant tokens != null ==>
                    Fill(js, At(tokens, count, orphans), tokens.Length) == Fill(js, old(At(tokens, 0, 0)), tokens.Length)
        decreases |js| - pos
      {
        r, count, orphans := Turn(js, tokens, count, orphans);
        if r < 0 { return; }
        pos := pos + 1;
      }
      if tokens != null {
        var i := toknext - 1;
        while i >= 0
          invariant -1 <= i < toknext
          invariant forall j :: i < j < toknext ==> !tokens[j].IsOpen()
        {
          if tokens[i].IsOpen() {
            assert LastOpen(tokens[..toknext]) == i;
            return ErrorCode(Part), orphans;
          }
          i := i - 1;
        }
        assert LastOpen(tokens[..toknext]) == -1;
      }
      r := count;
    }
  }
}
