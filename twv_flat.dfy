/** `src/twv-flat/index.tsx`: a nested table in the shape the `twv`
    builder reads (global base and pseudo-state classes, per variant a base
    and its severity classes, per size its classes, `default: true` markers
    on `basic` and `sm`). The builder made from it comes from a module that
    is not part of this model and is a parameter here: it takes the
    selection object and the extra class groups. `Button` calls it twice and
    keeps the second result. */
module TwvFlat {
  import opened Js
  import opened Axes
  import opened Palette

  /** `buttonClassNameBuilder(props, ...classNames)`. */
  type Builder = (JsVal, seq<JsVal>) -> string

  const BaseClasses: string := "mx-1 border rounded-md transition-all easy-in duration-200"
  const HoverClasses: string := "duration-200 ease-out rounded-2xl"
  const ActiveClasses: string := "duration-200 ease-out"
  const DisabledClasses: string := "cursor-not-allowed opacity-50 pointer-events-none"

  /** `buttonClassName.variant.<v>.severity`. */
  const BasicSeverity: JsVal := Obj([
    ("info", Str("")), ("success", Str("text-green-500")),
    ("warning", Str("text-yellow-500")), ("error", Str("text-red-500"))])
  const AccentSeverity: JsVal := Obj([
    ("info", Str("")), ("success", Str("bg-green-500 text-white")),
    ("warning", Str("bg-yellow-500 text-white")), ("error", Str("bg-red-500 text-white"))])
  const TextSeverity: JsVal := Obj([
    ("info", Str("")), ("success", Str("text-green-500 border-green-200")),
    ("warning", Str("text-yellow-500 border-yellow-200")), ("error", Str("text-red-500 border-red-200"))])

  /** `buttonClassName.variant.<v>`; `basic` carries `default: true`. */
  const BasicRow: JsVal := Obj([("default", Other(true)), ("base", Str("")), ("severity", BasicSeverity)])
  const AccentRow: JsVal := Obj([("base", Arr(["bg-indigo-500", "text-white"])), ("severity", AccentSeverity)])
  const TextRow: JsVal := Obj([("base", Str("text-indigo-500 border-indigo-500")), ("severity", TextSeverity)])

  /** `buttonClassName.variant`. */
  const VariantTable: JsVal := Obj([("basic", BasicRow), ("accent", AccentRow), ("text", TextRow)])

  /** `buttonClassName.size`; `sm` is an object carrying `default: true`. */
  const SizeTable: JsVal := Obj([
    ("sm", Obj([("default", Other(true)), ("base", Str("px-3 py-1.5 text-sm"))])),
    ("md", Str("px-4 py-2 text-base")),
    ("lg", Str("px-5 py-3 text-lg"))])

  /** `buttonClassName`. */
  const Table: JsVal := Obj([
    ("base", Str(BaseClasses)), ("hover", Str(HoverClasses)), ("active", Str(ActiveClasses)),
    ("disabled", Str(DisabledClasses)), ("variant", VariantTable), ("size", SizeTable)])

  /** The path of `buttonClassName.variant[variant].severity[severity]`. */
  function SeverityPath(v: Variant, sev: Severity): seq<string>
  {
    ["variant", v.Name(), "severity", sev.Name()]
  }

  // ---------------------------------------------------------------------
  // The table

  /** `variant[v].severity` as declared. */
  function SeverityObject(v: Variant): JsVal
  {
    match v
    case Basic => BasicSeverity
    case Accent => AccentSeverity
    case Text => TextSeverity
  }

  lemma SeverityObjectInTable(v: Variant)
    ensures Path(Table, ["variant", v.Name(), "severity"]) == SeverityObject(v)
  {
    Path3(Table, "variant", v.Name(), "severity");
    FindAt(Table.entries, "variant", 4);
    var vs := VariantTable.entries;
    match v
    case Basic =>
      FindAt(vs, "basic", 0);
      FindAt(BasicRow.entries, "severity", 2);
    case Accent =>
      FindAt(vs, "accent", 1);
      FindAt(AccentRow.entries, "severity", 1);
    case Text =>
      FindAt(vs, "text", 2);
      FindAt(TextRow.entries, "severity", 1);
  }

  /** `variant[v].base` is the shared variant classes; for `basic` the
      lookup passes over the `default` marker. */
  lemma VariantBaseInTable(v: Variant)
    ensures Path(Table, ["variant", v.Name(), "base"]) == VariantClasses(v)
  {
    Path3(Table, "variant", v.Name(), "base");
    FindAt(Table.entries, "variant", 4);
    var vs := VariantTable.entries;
    match v
    case Basic =>
      FindAt(vs, "basic", 0);
      FindAt(BasicRow.entries, "base", 1);
    case Accent =>
      FindAt(vs, "accent", 1);
      FindAt(AccentRow.entries, "base", 0);
    case Text =>
      FindAt(vs, "text", 2);
      FindAt(TextRow.entries, "base", 0);
  }

  /** `variant[v].severity`: the four severities in declaration order. */
  function SeverityRow(v: Variant): (sevs: seq<(string, JsVal)>)
    ensures Path(Table, ["variant", v.Name(), "severity"]) == Obj(sevs)
    ensures |sevs| == 4
    ensures sevs[0] == ("info", SeverityClasses(v, Info)) && sevs[1] == ("success", SeverityClasses(v, Success))
    ensures sevs[2] == ("warning", SeverityClasses(v, Warning)) && sevs[3] == ("error", SeverityClasses(v, Error))
  {
    SeverityObjectInTable(v);
    SeverityObject(v).entries
  }

  /** `variant[v].severity[sev]` is defined for every declared variant and
      severity. */
  lemma SeverityInTable(v: Variant, sev: Severity)
    ensures Path(Table, SeverityPath(v, sev)) == SeverityClasses(v, sev)
  {
    assert SeverityPath(v, sev) == ["variant", v.Name(), "severity"] + [sev.Name()];
    PathSnoc(Table, ["variant", v.Name(), "severity"], sev.Name());
    var sevs := SeverityRow(v);
    match sev
    case Info => FindAt(sevs, "info", 0);
    case Success => FindAt(sevs, "success", 1);
    case Warning => FindAt(sevs, "warning", 2);
    case Error => FindAt(sevs, "error", 3);
  }

  /** The `default: true` markers are never read by `Button`: its one table
      lookup gives the same class group on the table with every `default`
      entry removed. */
  lemma DefaultEntriesUnread(v: Variant, sev: Severity)
    ensures Path(Drop(Table, "default"), SeverityPath(v, sev)) == Path(Table, SeverityPath(v, sev))
  {
    var path := SeverityPath(v, sev);
    assert "default" !in path by {
      assert path[1] in VariantNames && path[3] in SeverityNames;
    }
    PathDrop(Table, "default", path);
    SeverityInTable(v, sev);
  }

  // ---------------------------------------------------------------------
  // Button

  /** `props` as the first builder call receives it: a prop the caller did
      not pass is `undefined`. */
  function FirstProps(p: ButtonProps): (r: JsVal)
    ensures Member(r, "variant") == if p.variant.Some? then Str(p.variant.value.Name()) else Undefined
    ensures Member(r, "size") == if p.size.Some? then Str(p.size.value.Name()) else Undefined
    ensures Member(r, "severity") == if p.severity.Some? then Str(p.severity.value.Name()) else Undefined
  {
    var es := [
      ("variant", if p.variant.Some? then Str(p.variant.value.Name()) else Undefined),
      ("size", if p.size.Some? then Str(p.size.value.Name()) else Undefined),
      ("severity", if p.severity.Some? then Str(p.severity.value.Name()) else Undefined),
      ("className", if p.className.Some? then Str(p.className.value) else Undefined)];
    FindAt(es, "variant", 0);
    FindAt(es, "size", 1);
    FindAt(es, "severity", 2);
    Obj(es)
  }

  /** The extra arguments of the second call: the table's severity group
      for the variant, then the caller's className last. */
  function SecondExtras(q: Resolved): (r: seq<JsVal>)
    ensures |r| == 2
    ensures r[0] == Path(Table, SeverityPath(q.variant, q.severity))
    ensures r[1] == Str(q.className)
  {
    SeverityInTable(q.variant, q.severity);
    [SeverityClasses(q.variant, q.severity), Str(q.className)]
  }

  /** `Button`'s class string: the first builder call's result is
      overwritten by the second's. */
  method Button(p: ButtonProps, builder: Builder) returns (cm: string)
    ensures cm == builder(Selection(Resolve(p)), SecondExtras(Resolve(p)))
  {
    var q := Resolve(p);
    var group := Path(Table, SeverityPath(q.variant, q.severity));
    cm := builder(FirstProps(p), [group]);
    cm := builder(Selection(q), [group, Str(q.className)]);
    SeverityInTable(q.variant, q.severity);
  }

  /** The first call sees a missing axis as `undefined`, which is why the
      second call passes the destructured values: there every axis has a
      value, the default when the caller gave none. */
  lemma FirstCallLacksDefaults(p: ButtonProps)
    requires p.variant.None? && p.size.None? && p.severity.None?
    ensures Member(FirstProps(p), "variant") == Undefined && Member(Selection(Resolve(p)), "variant") == Str("basic")
    ensures Member(FirstProps(p), "size") == Undefined && Member(Selection(Resolve(p)), "size") == Str("md")
    ensures Member(FirstProps(p), "severity") == Undefined && Member(Selection(Resolve(p)), "severity") == Str("info")
  {
  }

  /** The class of the rendered `<button>` as written (`{...props}` after
      `className={cm}`). */
  function RenderedClassAsWritten(p: ButtonProps, builder: Builder): string
  {
    AfterSpread(builder(Selection(Resolve(p)), SecondExtras(Resolve(p))), p.className)
  }

  /** The class of the rendered `<button>` when the spread leaves
      `className` out: always the builder's string. */
  function RenderedClass(p: ButtonProps, builder: Builder): string
  {
    builder(Selection(Resolve(p)), SecondExtras(Resolve(p)))
  }

  /** As written, a caller-supplied className is the whole rendered class. */
  lemma CallerClassReplacesMerge(p: ButtonProps, builder: Builder)
    requires p.className.Some?
    ensures RenderedClassAsWritten(p, builder) == p.className.value
  {
  }

  /** The code as written and the corrected rendering disagree exactly
      when the caller passes a className that differs from the merged
      string. */
  lemma SpreadAgreesIff(p: ButtonProps, builder: Builder)
    ensures RenderedClassAsWritten(p, builder) == RenderedClass(p, builder)
      <==> p.className.None? || p.className.value == builder(Selection(Resolve(p)), SecondExtras(Resolve(p)))
  {
  }

  /** Corrected, the element always carries the builder's string, to which
      the caller's className is handed last, after the severity group. */
  lemma RenderedClassMerges(p: ButtonProps, builder: Builder)
    ensures var q := Resolve(p);
      RenderedClass(p, builder) == builder(Selection(q), [SeverityClasses(q.variant, q.severity), Str(p.className.GetOr(""))])
  {
    var q := Resolve(p);
    SeverityInTable(q.variant, q.severity);
  }
}
