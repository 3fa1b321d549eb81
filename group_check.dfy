/** The child validator every `Group` component runs inside
    `React.Children.map`: a child whose `className` contains a variant name
    as a substring throws the variant error; otherwise one containing a
    size name throws the size error; otherwise it is cloned with the
    group's shared props. The first throw aborts the whole map. */
module GroupCheck {
  import opened Js
  import opened Strings
  import opened Axes

  /** The props of a child element that the group reads or overrides. */
  datatype Child = Child(className: Option<string>, disabled: Option<bool>,
                         variant: Option<string>, size: Option<string>)

  const VariantError: string := "Button.Group children cannot have variant classes"
  const SizeError: string := "Button.Group children cannot have size classes"

  /** The mapped children, or the message of the error thrown. */
  datatype Mapped = Cloned(children: seq<Child>) | Thrown(message: string)

  /** `child.props?.className?.includes(name)` holds for some `name`. */
  predicate MentionsAny(className: Option<string>, names: seq<string>)
  {
    className.Some? && exists n :: n in names && Contains(className.value, n)
  }

  /** The error a child throws, if any: variants are checked before sizes. */
  function Offence(c: Child, variants: seq<string>, sizes: seq<string>): (r: Option<string>)
    ensures r == Some(VariantError) <==> MentionsAny(c.className, variants)
    ensures r == Some(SizeError) <==> !MentionsAny(c.className, variants) && MentionsAny(c.className, sizes)
    ensures r.None? <==> !MentionsAny(c.className, variants) && !MentionsAny(c.className, sizes)
  {
    if MentionsAny(c.className, variants) then Some(VariantError)
    else if MentionsAny(c.className, sizes) then Some(SizeError)
    else None
  }

  /** The index of the first offending child. */
  function FirstOffender(cs: seq<Child>, variants: seq<string>, sizes: seq<string>): (r: Option<nat>)
    ensures r.Some? ==> r.value < |cs| && Offence(cs[r.value], variants, sizes).Some?
    ensures r.Some? ==> forall j :: 0 <= j < r.value ==> Offence(cs[j], variants, sizes).None?
    ensures r.None? <==> forall j :: 0 <= j < |cs| ==> Offence(cs[j], variants, sizes).None?
  {
    if cs == [] then None
    else if Offence(cs[0], variants, sizes).Some? then Some(0)
    else match FirstOffender(cs[1..], variants, sizes)
      case None => None
      case Some(i) => Some(i + 1)
  }

  /** `React.Children.map(children, callback)` with the validating callback
      and the cloning function `clone`. */
  function MapSpec(cs: seq<Child>, variants: seq<string>, sizes: seq<string>, clone: Child -> Child): Mapped
  {
    if cs == [] then Cloned([])
    else match Offence(cs[0], variants, sizes)
      case Some(m) => Thrown(m)
      case None =>
        match MapSpec(cs[1..], variants, sizes, clone)
        case Thrown(m) => Thrown(m)
        case Cloned(rest) => Cloned([clone(cs[0])] + rest)
  }

  /** `cloneElement(child, { disabled, variant, size })`. */
  function CloneShared(disabled: bool, variant: string, size: string): (f: Child -> Child)
    ensures forall c :: f(c) == c.(disabled := Some(disabled), variant := Some(variant), size := Some(size))
  {
    (c: Child) => c.(disabled := Some(disabled), variant := Some(variant), size := Some(size))
  }

  // ---------------------------------------------------------------------
  // The loops as the source writes them

  /** `for (const name of names) if (className?.includes(name)) ...`. */
  method ScanNames(className: Option<string>, names: seq<string>) returns (hit: bool)
    ensures hit <==> MentionsAny(className, names)
  {
    if className.None? {
      return false;
    }
    var k := 0;
    while k < |names|
      invariant 0 <= k <= |names|
      invariant forall j :: 0 <= j < k ==> !Contains(className.value, names[j])
    {
      if Contains(className.value, names[k]) {
        return true;
      }
      k := k + 1;
    }
    return false;
  }

  /** The callback for one child: throw, or return its clone. */
  method Visit(c: Child, variants: seq<string>, sizes: seq<string>, clone: Child -> Child)
    returns (r: Mapped)
    ensures Offence(c, variants, sizes).Some? ==> r == Thrown(Offence(c, variants, sizes).value)
    ensures Offence(c, variants, sizes).None? ==> r == Cloned([clone(c)])
  {
    var v := ScanNames(c.className, variants);
    if v {
      return Thrown(VariantError);
    }
    var s := ScanNames(c.className, sizes);
    if s {
      return Thrown(SizeError);
    }
    return Cloned([clone(c)]);
  }

  /** The children map: each child in order, the first throw aborting. */
  method MapChildren(cs: seq<Child>, variants: seq<string>, sizes: seq<string>, clone: Child -> Child)
    returns (r: Mapped)
    ensures r == MapSpec(cs, variants, sizes, clone)
  {
    var out: seq<Child> := [];
    var i := 0;
    while i < |cs|
      invariant 0 <= i <= |cs|
      invariant MapSpec(cs, variants, sizes, clone) == Prepend(out, MapSpec(cs[i..], variants, sizes, clone))
    {
      var one := Visit(cs[i], variants, sizes, clone);
      assert cs[i..][1..] == cs[i + 1..];
      if one.Thrown? {
        PrependThrown(out, one.message);
        return one;
      }
      PrependAssoc(out, clone(cs[i]), MapSpec(cs[i + 1..], variants, sizes, clone));
      out := out + [clone(cs[i])];
      i := i + 1;
    }
    assert cs[i..] == [];
    assert out + [] == out;
    return Cloned(out);
  }

  /** Children already cloned, in front of what the rest of the map yields. */
  function Prepend(done: seq<Child>, m: Mapped): Mapped
  {
    match m
    case Thrown(msg) => Thrown(msg)
    case Cloned(rest) => Cloned(done + rest)
  }

  lemma PrependThrown(done: seq<Child>, msg: string)
    ensures Prepend(done, Thrown(msg)) == Thrown(msg)
  {
  }

  lemma PrependAssoc(done: seq<Child>, c: Child, m: Mapped)
    ensures Prepend(done, match m case Thrown(msg) => Thrown(msg) case Cloned(rest) => Cloned([c] + rest))
      == Prepend(done + [c], m)
  {
    if m.Cloned? {
      assert done + ([c] + m.children) == (done + [c]) + m.children;
    }
  }

  // ---------------------------------------------------------------------
  // Properties of the map

  /** The map succeeds exactly when no child offends; it then keeps the
      count and the order and clones every child. */
  lemma {:induction false} ClonedIff(cs: seq<Child>, variants: seq<string>, sizes: seq<string>, clone: Child -> Child)
    ensures MapSpec(cs, variants, sizes, clone).Cloned?
      <==> forall j :: 0 <= j < |cs| ==> Offence(cs[j], variants, sizes).None?
    ensures MapSpec(cs, variants, sizes, clone).Cloned? ==>
      |MapSpec(cs, variants, sizes, clone).children| == |cs| &&
      forall j :: 0 <= j < |cs| ==> MapSpec(cs, variants, sizes, clone).children[j] == clone(cs[j])
  {
    if cs != [] {
      ClonedIff(cs[1..], variants, sizes, clone);
      if Offence(cs[0], variants, sizes).None? {
        forall j | 0 <= j < |cs| && j > 0 ensures cs[j] == cs[1..][j - 1] {
        }
      }
    }
  }

  /** The map throws the error of the first offending child. */
  lemma {:induction false} ThrownFirst(cs: seq<Child>, variants: seq<string>, sizes: seq<string>, clone: Child -> Child)
    ensures MapSpec(cs, variants, sizes, clone).Thrown? <==> FirstOffender(cs, variants, sizes).Some?
    ensures MapSpec(cs, variants, sizes, clone).Thrown? ==>
      MapSpec(cs, variants, sizes, clone).message
        == Offence(cs[FirstOffender(cs, variants, sizes).value], variants, sizes).value
  {
    if cs != [] && Offence(cs[0], variants, sizes).None? {
      ThrownFirst(cs[1..], variants, sizes, clone);
    }
  }

  /** A child without a className always passes. */
  lemma NoClassNamePasses(c: Child, variants: seq<string>, sizes: seq<string>)
    requires c.className.None?
    ensures Offence(c, variants, sizes).None?
  {
  }

  /** A className mentioning both a variant and a size throws the variant error. */
  lemma VariantBeforeSize(c: Child, variants: seq<string>, sizes: seq<string>)
    requires MentionsAny(c.className, variants) && MentionsAny(c.className, sizes)
    ensures Offence(c, variants, sizes) == Some(VariantError)
  {
  }

  /** `sub` occurring at index `i` of `s` makes `s.includes(sub)` true. */
  lemma ContainsAt(s: string, sub: string, i: nat)
    requires i + |sub| <= |s| && s[i..i + |sub|] == sub
    ensures Contains(s, sub)
  {
    assert OccursAt(s, sub, i);
  }

  // ---------------------------------------------------------------------
  // The Group components

  /** The props a `Group` reads; absent ones are `None`. */
  datatype GroupProps = GroupProps(className: Option<string>, disabled: Option<bool>,
                                   variant: Option<Variant>, size: Option<Size>)

  /** The rendered `<div>` with its children, or the error the render throws. */
  datatype GroupElement = Div(className: string, children: seq<Child>) | Throws(message: string)

  /** The child a successful map yields in `src/props`, `src/twv-raw`,
      `src/twv-flat` and `src/cva`: the group's `disabled`, `variant` and
      `size`, defaulted to `false`, `"basic"` and `"md"`. */
  function SharedClone(gp: GroupProps): Child -> Child
  {
    CloneShared(gp.disabled.GetOr(false), gp.variant.GetOr(Basic).Name(), gp.size.GetOr(Md).Name())
  }

  /** The `Group` component shared by `src/props`, `src/twv-raw`,
      `src/twv-flat` and `src/cva`, for the variant and size name lists it
      scans. */
  method SharedGroup(gp: GroupProps, children: seq<Child>, variants: seq<string>, sizes: seq<string>)
    returns (r: GroupElement)
    ensures r.Throws? <==> FirstOffender(children, variants, sizes).Some?
    ensures r.Throws? ==> r.message == Offence(children[FirstOffender(children, variants, sizes).value], variants, sizes).value
    ensures r.Div? ==> r.className == "btn-group " + gp.className.GetOr("")
    ensures r.Div? ==> |r.children| == |children| && forall j :: 0 <= j < |children| ==>
      r.children[j] == children[j].(disabled := Some(gp.disabled.GetOr(false)),
        variant := Some(gp.variant.GetOr(Basic).Name()), size := Some(gp.size.GetOr(Md).Name()))
  {
    var className := gp.className.GetOr("");
    var m := MapChildren(children, variants, sizes, SharedClone(gp));
    ClonedIff(children, variants, sizes, SharedClone(gp));
    ThrownFirst(children, variants, sizes, SharedClone(gp));
    match m
    case Thrown(msg) => r := Throws(msg);
    case Cloned(cs) => r := Div("btn-group " + className, cs);
  }

  /** The child a successful map yields in `src/class`: the group's
      `className` (default `""`) and `disabled` (default `false`). */
  function ClassClone(gp: GroupProps): (f: Child -> Child)
    ensures forall c :: f(c) == c.(className := Some(gp.className.GetOr("")), disabled := Some(gp.disabled.GetOr(false)))
  {
    (c: Child) => c.(className := Some(gp.className.GetOr("")), disabled := Some(gp.disabled.GetOr(false)))
  }

  /** The `Group` component of `src/class`: the wrapper's class is always
      `btn-group`, and the group's className goes to the children. */
  method ClassGroup(gp: GroupProps, children: seq<Child>) returns (r: GroupElement)
    ensures r.Throws? <==> FirstOffender(children, VariantNames, SizeNames).Some?
    ensures r.Throws? ==> r.message == Offence(children[FirstOffender(children, VariantNames, SizeNames).value],
      VariantNames, SizeNames).value
    ensures r.Div? ==> r.className == "btn-group"
    ensures r.Div? ==> |r.children| == |children| && forall j :: 0 <= j < |children| ==>
      r.children[j] == children[j].(className := Some(gp.className.GetOr("")), disabled := Some(gp.disabled.GetOr(false)))
  {
    var m := MapChildren(children, VariantNames, SizeNames, ClassClone(gp));
    ClonedIff(children, VariantNames, SizeNames, ClassClone(gp));
    ThrownFirst(children, VariantNames, SizeNames, ClassClone(gp));
    match m
    case Thrown(msg) => r := Throws(msg);
    case Cloned(cs) => r := Div("btn-group", cs);
  }
}
