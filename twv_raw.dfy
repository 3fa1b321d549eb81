/** `src/twv-raw/index.tsx`: one nested table holding the global base,
    hover, active and disabled classes and, per variant, its base classes
    and severity classes. `Button` hands twMerge (a parameter here) eight
    arguments, the caller's className last. */
module TwvRaw {
  import opened Js
  import opened Axes
  import opened Palette

  const BaseClasses: string := "mx-1 border rounded-md transition-all easy-in duration-200"
  const HoverClasses: string := "hover:duration-200 hover:ease-out hover:rounded-2xl"
  const ActiveClasses: string := "active:duration-200 active:ease-out"
  const DisabledClasses: string :=
    "disabled:cursor-not-allowed disabled:opacity-50 disabled:pointer-events-none disable"

  /** `buttonClassName.variant`. */
  const VariantTable: JsVal := Obj([
    ("basic", Obj([
      ("base", Str("")),
      ("severity", Obj([
        ("info", Str("")), ("success", Str("text-green-500")),
        ("warning", Str("text-yellow-500")), ("error", Str("text-red-500"))]))])),
    ("accent", Obj([
      ("base", Arr(["bg-indigo-500", "text-white"])),
      ("severity", Obj([
        ("info", Str("")), ("success", Str("bg-green-500 text-white")),
        ("warning", Str("bg-yellow-500 text-white")), ("error", Str("bg-red-500 text-white"))]))])),
    ("text", Obj([
      ("base", Str("text-indigo-500 border-indigo-500")),
      ("severity", Obj([
        ("info", Str("")), ("success", Str("text-green-500 border-green-200")),
        ("warning", Str("text-yellow-500 border-yellow-200")), ("error", Str("text-red-500 border-red-200"))]))]))])

  /** `buttonClassName.size`. */
  const SizeTable: JsVal := Obj([
    ("sm", Str("px-3 py-1.5 text-sm")),
    ("md", Str("px-4 py-2 text-base")),
    ("lg", Str("px-5 py-3 text-lg"))])

  /** `buttonClassName`. */
  const Table: JsVal := Obj([
    ("base", Str(BaseClasses)), ("hover", Str(HoverClasses)), ("active", Str(ActiveClasses)),
    ("disabled", Str(DisabledClasses)), ("variant", VariantTable), ("size", SizeTable)])

  /** The argument list of the `twMerge` call in `Button`. */
  function MergeArgs(p: ButtonProps): (r: seq<JsVal>)
    ensures |r| == 8 && r[7] == Str(Resolve(p).className)
    ensures forall i :: 0 <= i < 8 ==> IsClassList(r[i])
  {
    var q := Resolve(p);
    [Str(BaseClasses), Str(HoverClasses), Str(ActiveClasses), Str(DisabledClasses),
     VariantClasses(q.variant), SizeClasses(q.size), SeverityClasses(q.variant, q.severity), Str(q.className)]
  }

  /** The class of the rendered `<button>` as written (`{...props}` after
      `className={cm}`). */
  function RenderedClassAsWritten(p: ButtonProps, merge: seq<JsVal> -> string): string
  {
    AfterSpread(merge(MergeArgs(p)), p.className)
  }

  /** The class of the rendered `<button>` when the spread leaves
      `className` out: always the merged string. */
  function RenderedClass(p: ButtonProps, merge: seq<JsVal> -> string): string
  {
    merge(MergeArgs(p))
  }

  // ---------------------------------------------------------------------
  // The table

  /** The four global groups are the table's `base`, `hover`, `active` and
      `disabled` entries. */
  lemma GlobalsInTable()
    ensures Member(Table, "base") == Str(BaseClasses) && Member(Table, "hover") == Str(HoverClasses)
    ensures Member(Table, "active") == Str(ActiveClasses) && Member(Table, "disabled") == Str(DisabledClasses)
  {
    FindAt(Table.entries, "base", 0);
    FindAt(Table.entries, "hover", 1);
    FindAt(Table.entries, "active", 2);
    FindAt(Table.entries, "disabled", 3);
  }

  /** `variant[v]`: an object with a `base` and a `severity` entry. */
  function VariantRow(v: Variant): (row: seq<(string, JsVal)>)
    ensures Member(Member(Table, "variant"), v.Name()) == Obj(row)
    ensures |row| == 2 && row[0] == ("base", VariantClasses(v)) && row[1].0 == "severity" && row[1].1.Obj?
  {
    FindAt(Table.entries, "variant", 4);
    var vs := VariantTable.entries;
    match v
    case Basic => FindAt(vs, "basic", 0); vs[0].1.entries
    case Accent => FindAt(vs, "accent", 1); vs[1].1.entries
    case Text => FindAt(vs, "text", 2); vs[2].1.entries
  }

  /** `variant[v].base` is defined for every declared variant. */
  lemma VariantBaseInTable(v: Variant)
    ensures Path(Table, ["variant", v.Name(), "base"]) == VariantClasses(v)
  {
    Path3(Table, "variant", v.Name(), "base");
    var row := VariantRow(v);
    FindAt(row, "base", 0);
  }

  /** `size[s]` is defined for every declared size. */
  lemma SizeInTable(s: Size)
    ensures Path(Table, ["size", s.Name()]) == SizeClasses(s)
  {
    Path2(Table, "size", s.Name());
    FindAt(Table.entries, "size", 5);
    var ss := SizeTable.entries;
    match s
    case Sm => FindAt(ss, "sm", 0);
    case Md => FindAt(ss, "md", 1);
    case Lg => FindAt(ss, "lg", 2);
  }

  /** `variant[v].severity`: the four severities in declaration order. */
  function SeverityRow(v: Variant): (sevs: seq<(string, JsVal)>)
    ensures Path(Table, ["variant", v.Name(), "severity"]) == Obj(sevs)
    ensures |sevs| == 4
    ensures sevs[0] == ("info", SeverityClasses(v, Info)) && sevs[1] == ("success", SeverityClasses(v, Success))
    ensures sevs[2] == ("warning", SeverityClasses(v, Warning)) && sevs[3] == ("error", SeverityClasses(v, Error))
  {
    Path3(Table, "variant", v.Name(), "severity");
    var row := VariantRow(v);
    FindAt(row, "severity", 1);
    match v
    case Basic => row[1].1.entries
    case Accent => row[1].1.entries
    case Text => row[1].1.entries
  }

  /** `variant[v].severity[sev]` is defined for every declared variant and
      severity. */
  lemma SeverityInTable(v: Variant, sev: Severity)
    ensures Path(Table, ["variant", v.Name(), "severity", sev.Name()]) == SeverityClasses(v, sev)
  {
    PathSnoc4(v, sev.Name());
    var sevs := SeverityRow(v);
    match sev
    case Info => FindAt(sevs, "info", 0);
    case Success => FindAt(sevs, "success", 1);
    case Warning => FindAt(sevs, "warning", 2);
    case Error => FindAt(sevs, "error", 3);
  }

  /** `info` maps to "" for every variant. */
  lemma InfoEmptyInTable(v: Variant)
    ensures Path(Table, ["variant", v.Name(), "severity", "info"]) == Str("")
  {
    SeverityInTable(v, Info);
  }

  lemma PathSnoc4(v: Variant, k: string)
    ensures Path(Table, ["variant", v.Name(), "severity", k]) == Member(Path(Table, ["variant", v.Name(), "severity"]), k)
  {
    assert ["variant", v.Name(), "severity", k] == ["variant", v.Name(), "severity"] + [k];
    PathSnoc(Table, ["variant", v.Name(), "severity"], k);
  }

  // ---------------------------------------------------------------------
  // Button

  /** The merge arguments are the table's entries, in the order `base`,
      `hover`, `active`, `disabled`, `variant[v].base`, `size[s]`,
      `variant[v].severity[sev]`, and the caller's className last. */
  lemma MergeArgsFromTable(p: ButtonProps)
    ensures var q := Resolve(p);
      MergeArgs(p) == [Member(Table, "base"), Member(Table, "hover"), Member(Table, "active"),
        Member(Table, "disabled"), Path(Table, ["variant", q.variant.Name(), "base"]),
        Path(Table, ["size", q.size.Name()]),
        Path(Table, ["variant", q.variant.Name(), "severity", q.severity.Name()]),
        Str(p.className.GetOr(""))]
  {
    var q := Resolve(p);
    GlobalsInTable();
    VariantBaseInTable(q.variant);
    SizeInTable(q.size);
    SeverityInTable(q.variant, q.severity);
  }

  /** As written, a caller-supplied className is the whole rendered class. */
  lemma CallerClassReplacesMerge(p: ButtonProps, merge: seq<JsVal> -> string)
    requires p.className.Some?
    ensures RenderedClassAsWritten(p, merge) == p.className.value
  {
  }

  /** The code as written and the corrected rendering disagree exactly
      when the caller passes a className that differs from the merged
      string. */
  lemma SpreadAgreesIff(p: ButtonProps, merge: seq<JsVal> -> string)
    ensures RenderedClassAsWritten(p, merge) == RenderedClass(p, merge)
      <==> p.className.None? || p.className.value == merge(MergeArgs(p))
  {
  }

  /** Corrected, the element always carries the merged string, to which the
      caller's className is handed last. */
  lemma RenderedClassMerges(p: ButtonProps, merge: seq<JsVal> -> string)
    ensures RenderedClass(p, merge) == merge(MergeArgs(p))
    ensures MergeArgs(p)[7] == Str(p.className.GetOr(""))
  {
  }
}
