/** The example configurations of `src/twv/twv.ts` and what the builder
    makes of them. */
module TwvExamples {
  import opened Js
  import opened Twv

  const ButtonClassNameString: JsVal := Str("text-white")

  const ButtonClassNameArray: JsVal := Arr(["text-white"])

  const ButtonClassNameObject: JsVal := Obj([
    ("base", Str("text-white")),
    ("hover", Str("text-black")),
    ("disabled", Str("text-gray-500"))
  ])

  /** The `variant` entry of `buttonClassNameObjectVariants`. */
  const VariantChoices: JsVal := Obj([("primary", Str("text-white")), ("secondary", Str("text-black"))])

  const ButtonClassNameObjectVariants: JsVal := Obj([
    ("base", Str("text-white")),
    ("hover", Str("text-black")),
    ("disabled", Str("text-gray-500")),
    ("variant", VariantChoices)
  ])

  /** An object with a `base` and a key whose value is a map of colours. */
  const ColorConfig: JsVal := Obj([
    ("base", Str("a")),
    ("variant", Obj([("color", Obj([("red", Str("text-red")), ("blue", Str("text-blue"))]))]))
  ])

  lemma StringExample()
    ensures Walk(ButtonClassNameString, {}) == Ok(["text-white"])
  {
  }

  lemma ArrayExample()
    ensures Walk(ButtonClassNameArray, {}) == Ok(["text-white"])
  {
  }

  /** The hover token of the examples, glued from its slot and word. */
  lemma HoverWord()
    ensures "hover" + ":" + "text-black" == "hover:text-black"
  {
  }

  /** The disabled token of the examples, glued from its slot and word. */
  lemma DisabledWord()
    ensures "disabled" + ":" + "text-gray-500" == "disabled:text-gray-500"
  {
  }

  /** The `hover` slot of `buttonClassNameObject`. */
  lemma ObjectHover()
    ensures SlotTokens(ButtonClassNameObject.entries, "hover") == Ok(["hover:text-black"])
  {
    var es := ButtonClassNameObject.entries;
    assert Find(es, "hover") == Some(1);
    assert Strings.NoWs("text-black");
    WordSlotToken(es, "hover", "text-black");
    HoverWord();
  }

  /** The `disabled` slot of `buttonClassNameObject`. */
  lemma ObjectDisabled()
    ensures SlotTokens(ButtonClassNameObject.entries, "disabled") == Ok(["disabled:text-gray-500"])
  {
    var es := ButtonClassNameObject.entries;
    assert Find(es, "disabled") == Some(2);
    assert Strings.NoWs("text-gray-500");
    WordSlotToken(es, "disabled", "text-gray-500");
    DisabledWord();
  }

  /** The `base` tokens of `buttonClassNameObject`. */
  lemma ObjectBase(props: set<string>)
    ensures BaseTokens(ButtonClassNameObject, props) == Ok(["text-white"])
  {
    assert Find(ButtonClassNameObject.entries, "base") == Some(0);
  }

  /** `buttonClassNameObject` has no `focus` and no `active` slot. */
  lemma ObjectNoFocusActive()
    ensures SlotTokens(ButtonClassNameObject.entries, "focus") == Ok([])
    ensures SlotTokens(ButtonClassNameObject.entries, "active") == Ok([])
  {
    var es := ButtonClassNameObject.entries;
    assert Find(es, "focus") == None;
    assert Find(es, "active") == None;
  }

  /** The slot tokens of `buttonClassNameObject`: no `focus`, no `active`. */
  lemma ObjectStates()
    ensures StateTokens(ButtonClassNameObject.entries) == Ok(["hover:text-black", "disabled:text-gray-500"])
  {
    var es := ButtonClassNameObject.entries;
    ObjectNoFocusActive();
    ObjectHover();
    ObjectDisabled();
    var d := SlotTokens(es, "disabled");
    assert Then(SlotTokens(es, "active"), d) == d;
    assert Then(SlotTokens(es, "focus"), d) == d;
    assert ["hover:text-black"] + ["disabled:text-gray-500"] == ["hover:text-black", "disabled:text-gray-500"];
  }

  /** With empty props the object yields its base and its two slots. */
  lemma ObjectExample()
    ensures Walk(ButtonClassNameObject, {}) == Ok(["text-white", "hover:text-black", "disabled:text-gray-500"])
  {
    NoPropsNoEntries(ButtonClassNameObject.entries);
    ObjectBase({});
    ObjectStates();
    assert ["text-white"] + ["hover:text-black", "disabled:text-gray-500"]
      == ["text-white", "hover:text-black", "disabled:text-gray-500"];
  }

  /** A truthy `disabled` prop makes the key loop visit the `disabled`
      entry as a node of its own: its class comes once more, unprefixed,
      after the slot tokens. */
  lemma DisabledEntry()
    ensures WalkAll(Selected(ButtonClassNameObject.entries, {"disabled"}), {"disabled"}) == Ok(["text-gray-500"])
  {
    var es := ButtonClassNameObject.entries;
    SelectedOne(es, {"disabled"}, 2);
    WalkAllOne(es[2], {"disabled"});
  }

  /** The `variant` entry of `buttonClassNameObjectVariants` has no base and
      no slots; only its keys `primary` and `secondary` can add tokens. */
  lemma VariantEntry(props: set<string>)
    requires "secondary" !in props
    ensures Walk(ButtonClassNameObjectVariants.entries[3].1, props)
      == Ok(if "primary" in props then ["text-white"] else [])
  {
    var inner := ButtonClassNameObjectVariants.entries[3].1.entries;
    assert Find(inner, "base") == None;
    assert StateTokens(inner) == Ok([]) by {
      assert Find(inner, "hover") == None;
      assert Find(inner, "focus") == None;
      assert Find(inner, "active") == None;
      assert Find(inner, "disabled") == None;
    }
    if "primary" in props {
      SelectedOne(inner, props, 0);
      WalkAllOne(inner[0], props);
      ObjectTokens(inner, props, [], [], ["text-white"]);
    } else {
      NoneSelected(inner, props);
      ObjectTokens(inner, props, [], [], []);
    }
  }

  /** The `hover` slot of `buttonClassNameObjectVariants`. */
  lemma VariantsHover()
    ensures SlotTokens(ButtonClassNameObjectVariants.entries, "hover") == Ok(["hover:text-black"])
  {
    var es := ButtonClassNameObjectVariants.entries;
    FindAt(es, "hover", 1);
    assert Strings.NoWs("text-black");
    WordSlotToken(es, "hover", "text-black");
    HoverWord();
  }

  /** The `disabled` slot of `buttonClassNameObjectVariants`. */
  lemma VariantsDisabled()
    ensures SlotTokens(ButtonClassNameObjectVariants.entries, "disabled") == Ok(["disabled:text-gray-500"])
  {
    var es := ButtonClassNameObjectVariants.entries;
    FindAt(es, "disabled", 2);
    assert Strings.NoWs("text-gray-500");
    WordSlotToken(es, "disabled", "text-gray-500");
    DisabledWord();
  }

  /** Slot tokens of an object with only a one-word `hover` and a
      one-word `disabled` slot. */
  lemma HoverDisabledOnly(es: seq<(string, JsVal)>, h: string, d: string)
    requires SlotTokens(es, "hover") == Ok([h]) && SlotTokens(es, "disabled") == Ok([d])
    requires SlotTokens(es, "focus") == Ok([]) && SlotTokens(es, "active") == Ok([])
    ensures StateTokens(es) == Ok([h, d])
  {
    assert [h] + ([] + ([] + [d])) == [h, d];
  }

  /** The slot tokens of `buttonClassNameObjectVariants`: the nested
      `variant` object is no slot. */
  lemma VariantsStates()
    ensures StateTokens(ButtonClassNameObjectVariants.entries) == Ok(["hover:text-black", "disabled:text-gray-500"])
  {
    var es := ButtonClassNameObjectVariants.entries;
    assert Find(es, "focus") == None;
    assert Find(es, "active") == None;
    VariantsHover();
    VariantsDisabled();
    HoverDisabledOnly(es, "hover:text-black", "disabled:text-gray-500");
  }

  /** The `base` tokens of `buttonClassNameObjectVariants`. */
  lemma VariantsBase(props: set<string>)
    ensures BaseTokens(ButtonClassNameObjectVariants, props) == Ok(["text-white"])
  {
    FindAt(ButtonClassNameObjectVariants.entries, "base", 0);
  }

  /** With empty props the key loop visits no entry. */
  lemma VariantsNoEntries()
    ensures WalkAll(Selected(ButtonClassNameObjectVariants.entries, {}), {}) == Ok([])
  {
    NoneSelected(ButtonClassNameObjectVariants.entries, {});
  }

  /** With empty props the whole of `buttonClassNameObjectVariants` yields
      its base and its two slots. */
  lemma VariantsExample()
    ensures Walk(ButtonClassNameObjectVariants, {}) == Ok(["text-white", "hover:text-black", "disabled:text-gray-500"])
  {
    var es := ButtonClassNameObjectVariants.entries;
    VariantsStates();
    VariantsBase({});
    VariantsNoEntries();
    ObjectTokens(es, {}, ["text-white"], ["hover:text-black", "disabled:text-gray-500"], []);
    assert ["text-white"] + ["hover:text-black", "disabled:text-gray-500"] + []
      == ["text-white", "hover:text-black", "disabled:text-gray-500"];
  }

  /** With `variant` and `primary` truthy, the key loop visits only the
      `variant` entry, which yields the `primary` class. */
  lemma VariantsPrimaryEntries()
    ensures WalkAll(Selected(ButtonClassNameObjectVariants.entries, {"variant", "primary"}), {"variant", "primary"})
      == Ok(["text-white"])
  {
    var es := ButtonClassNameObjectVariants.entries;
    var props := {"variant", "primary"};
    assert es[0].0 == "base" && es[1].0 == "hover" && es[2].0 == "disabled" && es[3].0 == "variant";
    SelectedOne(es, props, 3);
    WalkAllOne(es[3], props);
    VariantEntry(props);
  }

  /** With `variant` and `primary` truthy, the key loop adds the `primary`
      class after the base and slot tokens. */
  lemma VariantsPrimary()
    ensures Walk(ButtonClassNameObjectVariants, {"variant", "primary"})
      == Ok(["text-white", "hover:text-black", "disabled:text-gray-500", "text-white"])
  {
    var es := ButtonClassNameObjectVariants.entries;
    var props := {"variant", "primary"};
    VariantsStates();
    VariantsBase(props);
    VariantsPrimaryEntries();
    ObjectTokens(es, props, ["text-white"], ["hover:text-black", "disabled:text-gray-500"], ["text-white"]);
    assert ["text-white"] + ["hover:text-black", "disabled:text-gray-500"] + ["text-white"]
      == ["text-white", "hover:text-black", "disabled:text-gray-500", "text-white"];
  }

  /** A prop named after a colour selects nothing unless the keys on the
      way to it are truthy as well. */
  lemma {:induction false} ColorExample()
    ensures Walk(ColorConfig, {"color"}) == Ok(["a"])
  {
    var es := ColorConfig.entries;
    assert Find(es, "base") == Some(0);
    assert Find(es, "hover") == None;
    assert Find(es, "focus") == None;
    assert Find(es, "active") == None;
    assert Find(es, "disabled") == None;
    ObjectOrder(es, {"color"});
    assert es[1..][1..] == [];
  }
}
