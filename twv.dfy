/** The recursive class-token builder of `src/twv/twv.ts`: `twv(config)`
    returns a closure that, given `props`, walks the configuration depth
    first and pushes class tokens onto a fresh list, which it then hands to
    twMerge (not modelled). `props` is represented by the set of keys `k`
    for which `props[k]` is truthy. */
module Twv {
  import opened Js
  import opened Strings

  /** The token list a walk produces, or the `TypeError` JavaScript throws
      when a truthy pseudo-state slot is neither a string nor an array
      (`.split` is not a function). */
  datatype Outcome = Ok(tokens: seq<string>) | TypeError {
    predicate IsFailure() { TypeError? }
    function PropagateFailure(): Outcome requires TypeError? { TypeError }
    function Extract(): seq<string> requires Ok? { tokens }
  }

  /** Sequential composition: the tokens of `a`, then those of `b`. */
  function Then(a: Outcome, b: Outcome): Outcome
  {
    if a.Ok? && b.Ok? then Ok(a.tokens + b.tokens) else TypeError
  }

  /** The pseudo-state slots, in the order the builder emits them. */
  const Slots: seq<string> := ["hover", "focus", "active", "disabled"]

  /** The list `forEach` runs over for a truthy slot value: an array as it
      is; a string becomes `[s.split(/\s+/)]`, one element whose template
      string is the pieces joined by commas; anything else throws. */
  function SlotItems(v: JsVal): Option<seq<string>>
  {
    match v
    case Arr(a) => Some(a)
    case Str(s) => Some([Join(SplitWs(s), ",")])
    case _ => None
  }

  /** The tokens of pseudo-state slot `slot` of an object. */
  function SlotTokens(es: seq<(string, JsVal)>, slot: string): Outcome
  {
    match Find(es, slot)
    case None => Ok([])
    case Some(i) =>
      if !Truthy(es[i].1) then Ok([])
      else match SlotItems(es[i].1)
        case None => TypeError
        case Some(items) => Ok(PrefixAll(slot + ":", items))
  }

  /** The tokens of the four pseudo-state blocks, in the order hover,
      focus, active, disabled. */
  function StateTokens(es: seq<(string, JsVal)>): Outcome
  {
    Then(SlotTokens(es, "hover"), Then(SlotTokens(es, "focus"),
      Then(SlotTokens(es, "active"), SlotTokens(es, "disabled"))))
  }

  lemma ThenAssoc(a: Outcome, b: Outcome, c: Outcome)
    ensures Then(Then(a, b), c) == Then(a, Then(b, c))
  {
  }

  function Width(node: JsVal): nat
  {
    if node.Obj? then |node.entries| + 1 else 0
  }

  /** The tokens `addClassNames(node)` pushes. */
  function Walk(node: JsVal, props: set<string>): Outcome
    decreases node, Width(node)
  {
    if !Truthy(node) then Ok([])
    else match node
      case Str(s) => Ok([s])
      case Arr(a) => Ok(a)
      case Other(_) => Ok([])
      case Obj(es) => Then(Then(BaseTokens(node, props), StateTokens(es)), WalkEntries(node, 0, props))
  }

  /** The tokens of an object's `base` entry, if it has one. */
  function BaseTokens(node: JsVal, props: set<string>): Outcome
    requires node.Obj?
    decreases node, 0
  {
    match Find(node.entries, "base")
    case None => Ok([])
    case Some(i) => Walk(node.entries[i].1, props)
  }

  /** The tokens the `for...in` loop pushes from entry `i` on: the whole
      subtree of every entry whose key is truthy in `props`. */
  function WalkEntries(node: JsVal, i: nat, props: set<string>): Outcome
    requires node.Obj? && i <= |node.entries|
    decreases node, |node.entries| - i
  {
    if i == |node.entries| then Ok([])
    else
      var (k, v) := node.entries[i];
      Then(if k in props then Walk(v, props) else Ok([]), WalkEntries(node, i + 1, props))
  }

  // ---------------------------------------------------------------------
  // Reference definitions for the key loop

  /** The entries whose key is truthy in `props`, in key order. */
  function Selected(es: seq<(string, JsVal)>, props: set<string>): (r: seq<(string, JsVal)>)
  {
    if es == [] then []
    else (if es[0].0 in props then [es[0]] else []) + Selected(es[1..], props)
  }

  /** The tokens of the values of `es`, one entry after the other. */
  function WalkAll(es: seq<(string, JsVal)>, props: set<string>): Outcome
  {
    if es == [] then Ok([]) else Then(Walk(es[0].1, props), WalkAll(es[1..], props))
  }

  // ---------------------------------------------------------------------
  // The builder as the source writes it: a recursive closure that pushes
  // onto one list. The list is threaded through the calls.

  /** `addClassNames(node)` applied to the list `classNames`. */
  method AddClassNames(node: JsVal, props: set<string>, classNames: seq<string>) returns (r: Outcome)
    ensures r == Then(Ok(classNames), Walk(node, props))
    decreases node, Width(node) + 1
  {
    if !Truthy(node) {
      return Ok(classNames);
    }
    match node {
      case Str(s) =>
        return Ok(classNames + [s]);
      case Arr(a) =>
        return Ok(classNames + a);
      case Other(_) =>
        return Ok(classNames);
      case Obj(es) =>
        r := AddObject(node, props, classNames);
    }
  }

  /** The object branch of `addClassNames`. */
  method AddObject(node: JsVal, props: set<string>, classNames: seq<string>) returns (r: Outcome)
    requires node.Obj?
    ensures r == Then(Ok(classNames), Then(Then(BaseTokens(node, props), StateTokens(node.entries)),
      WalkEntries(node, 0, props)))
    decreases node, Width(node)
  {
    var es := node.entries;
    var acc :- AddBaseAndStates(node, props, classNames);
    var i := 0;
    while i < |es|
      invariant 0 <= i <= |es|
      invariant Then(Ok(acc), WalkEntries(node, i, props))
        == Then(Ok(classNames), Then(Then(BaseTokens(node, props), StateTokens(es)), WalkEntries(node, 0, props)))
    {
      if es[i].0 in props {
        acc :- AddClassNames(es[i].1, props, acc);
      }
      i := i + 1;
    }
    return Ok(acc);
  }

  /** The `base` call and the four pseudo-state blocks of the object branch. */
  method AddBaseAndStates(node: JsVal, props: set<string>, classNames: seq<string>) returns (r: Outcome)
    requires node.Obj?
    ensures r == Then(Ok(classNames), Then(BaseTokens(node, props), StateTokens(node.entries)))
    decreases node, 0
  {
    var acc := classNames;
    var bi := Find(node.entries, "base");
    if bi.Some? {
      acc :- AddClassNames(node.entries[bi.value].1, props, acc);
    }
    ThenAssoc(Ok(classNames), BaseTokens(node, props), StateTokens(node.entries));
    r := AddStates(node.entries, acc);
  }

  /** The four pseudo-state blocks, hover, focus, active, disabled. */
  method AddStates(es: seq<(string, JsVal)>, classNames: seq<string>) returns (r: Outcome)
    ensures r == Then(Ok(classNames), StateTokens(es))
  {
    ghost var hover, focus, active, disabled := SlotTokens(es, "hover"),
      SlotTokens(es, "focus"), SlotTokens(es, "active"), SlotTokens(es, "disabled");
    assert StateTokens(es) == Then(hover, Then(focus, Then(active, disabled)));
    var acc :- AddSlot(es, "hover", classNames);
    ThenAssoc(Ok(classNames), hover, Then(focus, Then(active, disabled)));
    ghost var cn1 := acc;
    acc :- AddSlot(es, "focus", acc);
    ThenAssoc(Ok(cn1), focus, Then(active, disabled));
    ghost var cn2 := acc;
    acc :- AddSlot(es, "active", acc);
    ThenAssoc(Ok(cn2), active, disabled);
    r := AddSlot(es, "disabled", acc);
  }

  /** One pseudo-state block (`if (node.hover) { ... forEach push }`). */
  method AddSlot(es: seq<(string, JsVal)>, slot: string, classNames: seq<string>) returns (r: Outcome)
    ensures r == Then(Ok(classNames), SlotTokens(es, slot))
  {
    var found := Find(es, slot);
    if found.None? || !Truthy(es[found.value].1) {
      return Ok(classNames);
    }
    var v := es[found.value].1;
    var items: seq<string>;
    if v.Arr? {
      items := v.items;
    } else if v.Str? {
      items := [Join(SplitWs(v.s), ",")];
    } else {
      return TypeError;
    }
    var acc := classNames;
    var k := 0;
    while k < |items|
      invariant 0 <= k <= |items|
      invariant |acc| == |classNames| + k && acc[..|classNames|] == classNames
      invariant forall j :: 0 <= j < k ==> acc[|classNames| + j] == slot + ":" + items[j]
    {
      acc := acc + [slot + ":" + items[k]];
      k := k + 1;
    }
    assert acc == classNames + PrefixAll(slot + ":", items);
    return Ok(acc);
  }

  /** The closure `twv(config)` returns, up to the token list it hands to
      twMerge: every call starts from an empty list. */
  method Build(config: JsVal, props: set<string>) returns (r: Outcome)
    ensures r == Walk(config, props)
  {
    r := AddClassNames(config, props, []);
  }

  // ---------------------------------------------------------------------
  // Properties of the walk

  /** A falsy node (the empty string, `undefined`, `false`, ...) contributes nothing. */
  lemma FalsyNodeEmpty(node: JsVal, props: set<string>)
    requires !Truthy(node)
    ensures Walk(node, props) == Ok([])
  {
  }

  /** A string node is pushed whole, never split; the empty string is falsy. */
  lemma StringNodeWhole(s: string, props: set<string>)
    ensures Walk(Str(s), props) == Ok(if s == "" then [] else [s])
  {
  }

  /** An array node contributes its elements verbatim, in order. */
  lemma ArrayNodeVerbatim(a: seq<string>, props: set<string>)
    ensures Walk(Arr(a), props) == Ok(a)
  {
  }

  /** An array-valued slot with n elements yields n tokens, the i-th being
      the slot name, a colon and the i-th element. */
  lemma ArraySlotTokens(es: seq<(string, JsVal)>, slot: string, a: seq<string>)
    requires Member(Obj(es), slot) == Arr(a)
    ensures SlotTokens(es, slot).Ok?
    ensures |SlotTokens(es, slot).tokens| == |a|
    ensures forall i :: 0 <= i < |a| ==> SlotTokens(es, slot).tokens[i] == slot + ":" + a[i]
  {
  }

  /** A non-empty string slot yields one token: the slot prefix and the
      whitespace-separated pieces joined by commas. */
  lemma StringSlotToken(es: seq<(string, JsVal)>, slot: string, s: string)
    requires Member(Obj(es), slot) == Str(s) && s != ""
    ensures SlotTokens(es, slot) == Ok([slot + ":" + Join(SplitWs(s), ",")])
  {
  }

  /** A single-word string slot `w` yields the one token `slot:w`. */
  lemma WordSlotToken(es: seq<(string, JsVal)>, slot: string, w: string)
    requires Member(Obj(es), slot) == Str(w) && w != "" && NoWs(w)
    ensures SlotTokens(es, slot) == Ok([slot + ":" + w])
  {
  }

  /** A truthy slot that is neither a string nor an array makes the build throw. */
  lemma BadSlotThrows(es: seq<(string, JsVal)>, slot: string, props: set<string>)
    requires slot in Slots
    requires var v := Member(Obj(es), slot); Truthy(v) && !IsClassList(v)
    ensures SlotTokens(es, slot) == TypeError
    ensures Walk(Obj(es), props) == TypeError
  {
  }

  /** An entry is kept by `Selected` exactly when it is an entry whose key is truthy in `props`. */
  lemma {:induction false} SelectedIff(es: seq<(string, JsVal)>, props: set<string>, x: (string, JsVal))
    ensures x in Selected(es, props) <==> x in es && x.0 in props
  {
    if es != [] {
      SelectedIff(es[1..], props, x);
      assert es == [es[0]] + es[1..];
    }
  }

  /** The key loop visits, in key order, the whole subtree of exactly the
      selected entries. */
  lemma {:induction false} EntriesSelected(node: JsVal, i: nat, props: set<string>)
    requires node.Obj? && i <= |node.entries|
    ensures WalkEntries(node, i, props) == WalkAll(Selected(node.entries[i..], props), props)
    decreases |node.entries| - i
  {
    var es := node.entries;
    if i < |es| {
      EntriesSelected(node, i + 1, props);
      assert es[i..][1..] == es[i + 1..];
      var rest := Selected(es[i + 1..], props);
      if es[i].0 in props {
        assert Selected(es[i..], props) == [es[i]] + rest;
        assert WalkAll([es[i]] + rest, props) == Then(Walk(es[i].1, props), WalkAll(rest, props));
      } else {
        assert Selected(es[i..], props) == rest;
        assert Then(Ok([]), WalkAll(rest, props)) == WalkAll(rest, props);
      }
    }
  }

  /** The tokens of an object node: those of `base`, then the hover, focus,
      active and disabled slots in that order, then the subtrees of the
      entries whose key is truthy in `props`, in key order. */
  lemma ObjectOrder(es: seq<(string, JsVal)>, props: set<string>)
    ensures Walk(Obj(es), props) == Then(Then(BaseTokens(Obj(es), props), StateTokens(es)),
      WalkAll(Selected(es, props), props))
    ensures StateTokens(es) == Then(SlotTokens(es, "hover"), Then(SlotTokens(es, "focus"),
      Then(SlotTokens(es, "active"), SlotTokens(es, "disabled"))))
  {
    EntriesSelected(Obj(es), 0, props);
    assert es[0..] == es;
  }

  /** With no truthy props, an object yields its `base` and slot tokens only. */
  lemma {:induction false} NoPropsNoEntries(es: seq<(string, JsVal)>)
    ensures Walk(Obj(es), {}) == Then(BaseTokens(Obj(es), {}), StateTokens(es))
  {
    EntriesSelected(Obj(es), 0, {});
    assert es[0..] == es;
    NoneSelected(es, {});
  }

  /** When exactly one entry has a truthy key, only that entry is selected. */
  lemma {:induction false} SelectedOne(es: seq<(string, JsVal)>, props: set<string>, i: nat)
    requires i < |es| && es[i].0 in props
    requires forall j :: 0 <= j < |es| && j != i ==> es[j].0 !in props
    ensures Selected(es, props) == [es[i]]
  {
    if i == 0 {
      NoneSelected(es[1..], props);
    } else {
      SelectedOne(es[1..], props, i - 1);
    }
  }

  lemma {:induction false} NoneSelected(es: seq<(string, JsVal)>, props: set<string>)
    requires forall j :: 0 <= j < |es| ==> es[j].0 !in props
    ensures Selected(es, props) == []
  {
    if es != [] {
      NoneSelected(es[1..], props);
    }
  }

  /** An object whose parts are known yields their concatenation. */
  lemma ObjectTokens(es: seq<(string, JsVal)>, props: set<string>, base: seq<string>, states: seq<string>,
                     entries: seq<string>)
    requires BaseTokens(Obj(es), props) == Ok(base) && StateTokens(es) == Ok(states)
    requires WalkAll(Selected(es, props), props) == Ok(entries)
    ensures Walk(Obj(es), props) == Ok(base + states + entries)
  {
    ObjectOrder(es, props);
  }

  lemma WalkAllOne(x: (string, JsVal), props: set<string>)
    ensures WalkAll([x], props) == Walk(x.1, props)
  {
    assert [x][1..] == [];
  }
}
