/** What a command asks for: the actions that `_handle_command` (ebisu/tio/command_parser.c) takes out
    of a JSON document, as a function of the document's tree. */
module TioScript {
  import opened Text
  import opened Jsmn
  import opened JsonTree
  import opened JkiiPrimitive

  /** What the action callback is told: the value is the text of a container or a primitive, or what
      stands between the quotes of a string. */
  datatype Action = Action(alias: string, name: string, kind: Kind, value: string)

  /** How taking actions out of an array ends: at its end; with an error; or at something that this
      model does not follow (an empty object, of which the code reads tokens that were never filled;
      an alias whose value is a string, whose inside the code would parse as an array). */
  datatype Ending = Complete | Malformed | Unmodelled

  datatype Script = Script(calls: seq<Action>, ending: Ending)

  /** The tokens that `_parse_first_kv` has room for. */
  const KV_TOKENS := 64

  function Inner(v: Json): string { if v.Str? then v.text else Print(v) }

  /** How the text of this object fails to give a first key and value, if it does. */
  function PairEnding(v: Json): Ending
    requires v.Obj?
  {
    if |Toks(v, 0)| > KV_TOKENS then Malformed else if v.members.MNil? then Unmodelled else Complete
  }

  /** An element where an object should be ends the loop over the array, whatever follows it; a primitive
      without a type is an error. */
  function OddElement(v: Json): Ending { if v.Prim? && TypeOf(v.text) == Unknown then Malformed else Complete }

  /** The actions of one alias. */
  function AliasScript(alias: string, es: Elems): Script {
    if es.ENil? then Script([], Complete)
    else if !es.value.Obj? then Script([], OddElement(es.value))
    else if PairEnding(es.value) != Complete then Script([], PairEnding(es.value))
    else
      var ms, r := es.value.members, AliasScript(alias, es.rest);
      r.(calls := [Action(alias, ms.key, KindOf(ms.value), Inner(ms.value))] + r.calls)
  }

  /** The actions under the value of an alias. */
  function UnderAlias(alias: string, v: Json): Script {
    match v
    case Arr(_, es) => AliasScript(alias, es)
    case Obj(_, _) => Script([], Complete)
    case Prim(_) => Script([], Malformed)
    case Str(_) => Script([], Unmodelled)
  }

  /** One array after another, unless the first one ends badly. */
  function Then(s: Script, r: Script): Script { if s.ending != Complete then s else r.(calls := s.calls + r.calls) }

  /** All the actions of the command's array. */
  function CommandScript(es: Elems): Script {
    if es.ENil? then Script([], Complete)
    else if !es.value.Obj? then Script([], OddElement(es.value))
    else if PairEnding(es.value) != Complete then Script([], PairEnding(es.value))
    else Then(UnderAlias(es.value.members.key, es.value.members.value), CommandScript(es.rest))
  }

  // ---------------------------------------------------------------------------------------------
  // Well-formed commands

  /** An object with one key, within the token limit. */
  predicate OneKey(v: Json) { v.Obj? && v.members.MCons? && v.members.rest.MNil? && |Toks(v, 0)| <= KV_TOKENS }

  predicate GoodActions(es: Elems) { es.ECons? ==> OneKey(es.value) && GoodActions(es.rest) }

  predicate GoodAliases(es: Elems) {
    es.ECons? ==>
      && OneKey(es.value) && es.value.members.value.Arr? && GoodActions(es.value.members.value.elems)
      && GoodAliases(es.rest)
  }

  function Nth(es: Elems, n: nat): Option<Json> {
    if es.ENil? then None else if n == 0 then Some(es.value) else Nth(es.rest, n - 1)
  }

  /** The number of actions under the first `n` aliases. */
  function ActionsBefore(es: Elems, n: nat): nat {
    if n == 0 || es.ENil? then 0
    else (if OneKey(es.value) && es.value.members.value.Arr? then ELength(es.value.members.value.elems) else 0)
         + ActionsBefore(es.rest, n - 1)
  }

  lemma {:induction false} AliasCalls(alias: string, es: Elems)
    requires GoodActions(es)
    ensures AliasScript(alias, es).ending == Complete && |AliasScript(alias, es).calls| == ELength(es)
    ensures forall j :: 0 <= j < ELength(es) ==>
            Nth(es, j).Some? && CallIs(AliasScript(alias, es).calls[j], alias, Nth(es, j).value)
    decreases es
  {
    if es.ECons? {
      AliasCalls(alias, es.rest);
      forall j | 0 <= j < ELength(es)
        ensures Nth(es, j).Some? && CallIs(AliasScript(alias, es).calls[j], alias, Nth(es, j).value)
      {
        if j > 0 {
          assert Nth(es, j) == Nth(es.rest, j - 1);
          assert AliasScript(alias, es).calls[j] == AliasScript(alias, es.rest).calls[j - 1];
        }
      }
    }
  }

  /** The action is the one key of this object, with its value: as it is printed, a string without its quotes. */
  predicate CallIs(a: Action, alias: string, v: Json) {
    && v.Obj? && v.members.MCons? && a.alias == alias && a.name == v.members.key
    && match v.members.value
       case Prim(t) => a.kind == Primitive && a.value == t
       case Str(t) => a.kind == String && a.value == t
       case Arr(_, _) => a.kind == Array && a.value == Print(v.members.value)
       case Obj(_, _) => a.kind == Object && a.value == Print(v.members.value)
  }

  /** The actions of the `i`-th alias stand in `calls` behind those of the aliases before it, in their
      own order. */
  ghost predicate AliasAt(es: Elems, i: nat, calls: seq<Action>) {
    var v, n := Nth(es, i), ActionsBefore(es, i);
    && v.Some? && OneKey(v.value) && v.value.members.value.Arr?
    && n + ELength(v.value.members.value.elems) <= |calls|
    && forall j :: 0 <= j < ELength(v.value.members.value.elems) ==>
         var w := Nth(v.value.members.value.elems, j);
         w.Some? && CallIs(calls[n + j], v.value.members.key, w.value)
  }

  /** Of a well-formed command, every action is called, once, in the order of the document. */
  lemma {:induction false} EveryActionCalled(es: Elems)
    requires GoodAliases(es)
    ensures CommandScript(es).ending == Complete
    ensures |CommandScript(es).calls| == ActionsBefore(es, ELength(es))
    ensures forall i: nat :: i < ELength(es) ==> AliasAt(es, i, CommandScript(es).calls)
    decreases es
  {
    hide Toks, Print, AliasScript, CallIs, GoodActions;
    if es.ECons? {
      var alias, v := es.value.members.key, es.value.members.value;
      AliasCalls(alias, v.elems);
      EveryActionCalled(es.rest);
      var s, r := AliasScript(alias, v.elems).calls, CommandScript(es.rest).calls;
      assert CommandScript(es).calls == s + r;
      forall i: nat | i < ELength(es) ensures AliasAt(es, i, CommandScript(es).calls) {
        if i == 0 {
          assert Nth(es, 0) == Some(es.value);
        } else {
          assert AliasAt(es.rest, i - 1, r);
          AliasShifts(es, i, s, r);
        }
      }
    }
  }

  lemma AliasShifts(es: Elems, i: nat, s: seq<Action>, r: seq<Action>)
    requires GoodAliases(es) && es.ECons? && i > 0 && |s| == ELength(es.value.members.value.elems)
    requires AliasAt(es.rest, i - 1, r)
    ensures AliasAt(es, i, s + r)
  {
    hide Toks, Print, CallIs;
    assert Nth(es, i) == Nth(es.rest, i - 1);
    assert ActionsBefore(es, i) == |s| + ActionsBefore(es.rest, i - 1);
  }
}
