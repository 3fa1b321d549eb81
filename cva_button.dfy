/** `src/cva/index.tsx`: the class-variance-authority configuration as
    data. The function `cva(...)` builds from it is a library call and is
    a parameter here, as is twMerge. `Button` merges the variant output and
    then the caller's className; `Group` scans hard-coded name lists. */
module CvaButton {
  import opened Js
  import opened Strings
  import opened Axes
  import opened Palette
  import opened GroupCheck

  /** `buttonVariants(selection)`. */
  type Variants = JsVal -> string

  /** `variants.severity`: every severity maps to "", so that the
      compound variants can name it. */
  const SeverityVariant: JsVal := Obj([
    ("info", Str("")), ("success", Str("")), ("warning", Str("")), ("error", Str(""))])

  /** One element of `compoundVariants`. */
  datatype Compound = Compound(variant: string, severity: string, className: string)

  const BasicCompounds: seq<Compound> := [
    Compound("basic", "success", "text-green-500"),
    Compound("basic", "warning", "text-yellow-500"),
    Compound("basic", "error", "text-red-500")]
  const AccentCompounds: seq<Compound> := [
    Compound("accent", "success", "bg-green-500 text-white"),
    Compound("accent", "warning", "bg-yellow-500 text-white"),
    Compound("accent", "error", "bg-red-500 text-white")]
  const TextCompounds: seq<Compound> := [
    Compound("text", "success", "text-green-500 border-green-200"),
    Compound("text", "warning", "text-yellow-500 border-yellow-200"),
    Compound("text", "error", "text-red-500 border-red-200")]

  /** `compoundVariants`, in declaration order. */
  const Compounds: seq<Compound> := BasicCompounds + AccentCompounds + TextCompounds

  /** `defaultVariants`. */
  const DefaultVariants: JsVal := Obj([("variant", Str("basic")), ("size", Str("md")), ("severity", Str("info"))])

  /** The group's hard-coded name lists. */
  const GroupVariants: seq<string> := ["basic", "accent", "text"]
  const GroupSizes: seq<string> := ["sm", "md", "lg"]

  // ---------------------------------------------------------------------
  // The configuration

  /** `variants.severity` is a no-op: each severity adds no class. */
  lemma SeverityVariantEmpty(sev: Severity)
    ensures Member(SeverityVariant, sev.Name()) == Str("")
  {
    var es := SeverityVariant.entries;
    match sev
    case Info => FindAt(es, "info", 0);
    case Success => FindAt(es, "success", 1);
    case Warning => FindAt(es, "warning", 2);
    case Error => FindAt(es, "error", 3);
  }

  /** How many compound variants name the pair `(v, sev)`. */
  function Count(cs: seq<Compound>, v: string, sev: string): nat
  {
    if cs == [] then 0
    else (if cs[0].variant == v && cs[0].severity == sev then 1 else 0) + Count(cs[1..], v, sev)
  }

  lemma {:induction false} CountAppend(a: seq<Compound>, b: seq<Compound>, v: string, sev: string)
    ensures Count(a + b, v, sev) == Count(a, v, sev) + Count(b, v, sev)
  {
    if a == [] {
      assert a + b == b;
    } else {
      assert (a + b)[1..] == a[1..] + b;
      CountAppend(a[1..], b, v, sev);
    }
  }

  /** No compound of a block for one variant names any other variant. */
  lemma {:induction false} CountOtherVariant(cs: seq<Compound>, w: string, v: string, sev: string)
    requires forall i :: 0 <= i < |cs| ==> cs[i].variant == w
    requires v != w
    ensures Count(cs, v, sev) == 0
  {
    if cs != [] {
      CountOtherVariant(cs[1..], w, v, sev);
    }
  }

  /** The block of compounds for variant `v`. */
  function Block(v: Variant): (cs: seq<Compound>)
    ensures |cs| == 3
    ensures forall i :: 0 <= i < 3 ==> cs[i].variant == v.Name()
    ensures cs[0].severity == "success" && cs[1].severity == "warning" && cs[2].severity == "error"
    ensures cs[0].className == SeverityClasses(v, Success).s
    ensures cs[1].className == SeverityClasses(v, Warning).s
    ensures cs[2].className == SeverityClasses(v, Error).s
  {
    match v
    case Basic => BasicCompounds
    case Accent => AccentCompounds
    case Text => TextCompounds
  }

  /** Within its own block, a pair is named once for each severity but
      `info`, and not at all for `info`. */
  lemma CountInBlock(v: Variant, sev: Severity)
    ensures Count(Block(v), v.Name(), sev.Name()) == if sev == Info then 0 else 1
  {
    var cs := Block(v);
    assert cs[1..][1..][1..] == [];
    assert Count(cs[1..][1..][1..], v.Name(), sev.Name()) == 0;
  }

  /** `compoundVariants` has exactly one entry for each variant and each
      severity other than `info`, and none for `info`. */
  lemma CompoundCoverage(v: Variant, sev: Severity)
    ensures Count(Compounds, v.Name(), sev.Name()) == if sev == Info then 0 else 1
  {
    var n := v.Name();
    var m := sev.Name();
    CountAppend(BasicCompounds + AccentCompounds, TextCompounds, n, m);
    CountAppend(BasicCompounds, AccentCompounds, n, m);
    CountInBlock(v, sev);
    match v
    case Basic =>
      CountOtherVariant(AccentCompounds, "accent", n, m);
      CountOtherVariant(TextCompounds, "text", n, m);
    case Accent =>
      CountOtherVariant(BasicCompounds, "basic", n, m);
      CountOtherVariant(TextCompounds, "text", n, m);
    case Text =>
      CountOtherVariant(BasicCompounds, "basic", n, m);
      CountOtherVariant(AccentCompounds, "accent", n, m);
  }

  /** The compound for `(v, sev)` carries the severity classes the other
      components' tables give that pair. */
  function CompoundIndex(v: Variant, sev: Severity): (i: nat)
    requires sev != Info
    ensures i < |Compounds|
    ensures Compounds[i] == Compound(v.Name(), sev.Name(), SeverityClasses(v, sev).s)
  {
    var block := match v case Basic => 0 case Accent => 3 case Text => 6;
    var offset := match sev case Success => 0 case Warning => 1 case Error => 2;
    assert Compounds[block..block + 3] == Block(v);
    block + offset
  }

  /** `defaultVariants` agrees with `Button`'s destructuring defaults: a
      missing axis selects the default `cva` would pick. */
  lemma DefaultsAgree(p: ButtonProps)
    ensures p.variant.None? ==> Member(Selection(Resolve(p)), "variant") == Member(DefaultVariants, "variant")
    ensures p.size.None? ==> Member(Selection(Resolve(p)), "size") == Member(DefaultVariants, "size")
    ensures p.severity.None? ==> Member(Selection(Resolve(p)), "severity") == Member(DefaultVariants, "severity")
  {
    var es := DefaultVariants.entries;
    FindAt(es, "variant", 0);
    FindAt(es, "size", 1);
    FindAt(es, "severity", 2);
  }

  // ---------------------------------------------------------------------
  // Button

  /** The arguments of `twMerge(buttonVariants({ variant, size, severity }), className)`. */
  function MergeArgs(p: ButtonProps, variants: Variants): (r: seq<JsVal>)
    ensures |r| == 2
    ensures r[0] == Str(variants(Selection(Resolve(p))))
    ensures r[1] == Str(p.className.GetOr(""))
  {
    var q := Resolve(p);
    [Str(variants(Selection(q))), Str(q.className)]
  }

  /** The class of the rendered `<button>` as written (`{...props}` after
      `className={cm}`). */
  function RenderedClassAsWritten(p: ButtonProps, variants: Variants, merge: seq<JsVal> -> string): string
  {
    AfterSpread(merge(MergeArgs(p, variants)), p.className)
  }

  /** The class of the rendered `<button>` when the spread leaves
      `className` out: always the merged string. */
  function RenderedClass(p: ButtonProps, variants: Variants, merge: seq<JsVal> -> string): string
  {
    merge(MergeArgs(p, variants))
  }

  /** As written, a caller-supplied className is the whole rendered class. */
  lemma CallerClassReplacesMerge(p: ButtonProps, variants: Variants, merge: seq<JsVal> -> string)
    requires p.className.Some?
    ensures RenderedClassAsWritten(p, variants, merge) == p.className.value
  {
  }

  /** The code as written and the corrected rendering disagree exactly
      when the caller passes a className that differs from the merged
      string. */
  lemma SpreadAgreesIff(p: ButtonProps, variants: Variants, merge: seq<JsVal> -> string)
    ensures RenderedClassAsWritten(p, variants, merge) == RenderedClass(p, variants, merge)
      <==> p.className.None? || p.className.value == merge(MergeArgs(p, variants))
  {
  }

  /** Corrected, the element always carries the merged string, in which the
      caller's className follows the variant output. */
  lemma RenderedClassMerges(p: ButtonProps, variants: Variants, merge: seq<JsVal> -> string)
    ensures RenderedClass(p, variants, merge)
      == merge([Str(variants(Selection(Resolve(p)))), Str(p.className.GetOr(""))])
  {
  }

  // ---------------------------------------------------------------------
  // Group

  /** The hard-coded lists are the declared axis names. */
  lemma GroupListsAreAxes()
    ensures GroupVariants == VariantNames && GroupSizes == SizeNames
  {
  }

  /** Substring matching rejects `rounded-md` as a size class. */
  lemma RoundedMdRejected(c: Child)
    requires c.className == Some("rounded-md")
    ensures Offence(c, GroupVariants, GroupSizes) == Some(SizeError)
  {
    var s := "rounded-md";
    AbsentByFirstChar(s, "basic");
    AbsentByFirstChar(s, "accent");
    AbsentByFirstChar(s, "text");
    assert !MentionsAny(c.className, GroupVariants);
    ContainsAt(s, "md", 8);
    assert "md" in GroupSizes;
  }
}
