/** `src/props/index.tsx`: a static style table indexed by the button's
    props. `Button` hands twMerge (a parameter here) the base classes, the
    variant's, the size's, the variant's severity classes and the caller's
    className, in that order. */
module PropsButton {
  import opened Js
  import opened Axes
  import opened Palette
  import opened GroupCheck

  const BaseClasses: string :=
    " mx-1 border rounded-md transition-all easy-in duration-200 hover:duration-200 hover:ease-out"
    + " hover:rounded-2xl active:duration-200 active:ease-out disabled:cursor-not-allowed"
    + " disabled:opacity-50 disabled:pointer-events-none disable"

  /** `buttonClassName.variant`. */
  const VariantTable: JsVal := Obj([
    ("basic", Str("")),
    ("accent", Arr(["bg-indigo-500", "text-white"])),
    ("text", Str("text-indigo-500 border-indigo-500"))])

  /** `buttonClassName.size`. */
  const SizeTable: JsVal := Obj([
    ("sm", Str("px-3 py-1.5 text-sm")),
    ("md", Str("px-4 py-2 text-base")),
    ("lg", Str("px-5 py-3 text-lg"))])

  /** `buttonClassName.severity`. */
  const SeverityTable: JsVal := Obj([
    ("basic", Obj([
      ("info", Str("")), ("success", Str("text-green-500")),
      ("warning", Str("text-yellow-500")), ("error", Str("text-red-500"))])),
    ("accent", Obj([
      ("info", Str("")), ("success", Str("bg-green-500 text-white")),
      ("warning", Str("bg-yellow-500 text-white")), ("error", Str("bg-red-500 text-white"))])),
    ("text", Obj([
      ("info", Str("")), ("success", Str("text-green-500 border-green-200")),
      ("warning", Str("text-yellow-500 border-yellow-200")), ("error", Str("text-red-500 border-red-200"))]))])

  /** `buttonClassName`. */
  const Table: JsVal := Obj([
    ("base", Str(BaseClasses)), ("variant", VariantTable), ("size", SizeTable), ("severity", SeverityTable)])

  /** The argument list of the `twMerge` call in `Button`. */
  function MergeArgs(p: ButtonProps): (r: seq<JsVal>)
    ensures |r| == 5 && r[4] == Str(Resolve(p).className)
    ensures forall i :: 0 <= i < 5 ==> IsClassList(r[i])
  {
    var q := Resolve(p);
    [Str(BaseClasses), VariantClasses(q.variant), SizeClasses(q.size),
     SeverityClasses(q.variant, q.severity), Str(q.className)]
  }

  /** The class of the rendered `<button>` as written: the spread of
      `props` after `className={cm}` lets a caller's className replace the
      merged string. */
  function RenderedClassAsWritten(p: ButtonProps, merge: seq<JsVal> -> string): string
  {
    AfterSpread(merge(MergeArgs(p)), p.className)
  }

  /** The class of the rendered `<button>` when the spread leaves
      `className` out, as `src/class/index.tsx` does: always the merged
      string. */
  function RenderedClass(p: ButtonProps, merge: seq<JsVal> -> string): string
  {
    merge(MergeArgs(p))
  }

  // ---------------------------------------------------------------------
  // The table

  lemma BaseInTable()
    ensures Member(Table, "base") == Str(BaseClasses)
  {
    FindAt(Table.entries, "base", 0);
  }

  /** `variant[v]` is defined for every declared variant. */
  lemma VariantInTable(v: Variant)
    ensures Path(Table, ["variant", v.Name()]) == VariantClasses(v)
  {
    Path2(Table, "variant", v.Name());
    FindAt(Table.entries, "variant", 1);
    var vs := VariantTable.entries;
    match v
    case Basic => FindAt(vs, "basic", 0);
    case Accent => FindAt(vs, "accent", 1);
    case Text => FindAt(vs, "text", 2);
  }

  /** `size[s]` is defined for every declared size. */
  lemma SizeInTable(s: Size)
    ensures Path(Table, ["size", s.Name()]) == SizeClasses(s)
  {
    Path2(Table, "size", s.Name());
    FindAt(Table.entries, "size", 2);
    var ss := SizeTable.entries;
    match s
    case Sm => FindAt(ss, "sm", 0);
    case Md => FindAt(ss, "md", 1);
    case Lg => FindAt(ss, "lg", 2);
  }

  /** `severity[v]`: the four severities in declaration order. */
  function SeverityRow(v: Variant): (sevs: seq<(string, JsVal)>)
    ensures Path(Table, ["severity", v.Name()]) == Obj(sevs)
    ensures |sevs| == 4
    ensures sevs[0] == ("info", SeverityClasses(v, Info)) && sevs[1] == ("success", SeverityClasses(v, Success))
    ensures sevs[2] == ("warning", SeverityClasses(v, Warning)) && sevs[3] == ("error", SeverityClasses(v, Error))
  {
    Path2(Table, "severity", v.Name());
    FindAt(Table.entries, "severity", 3);
    var vs := SeverityTable.entries;
    match v
    case Basic => FindAt(vs, "basic", 0); vs[0].1.entries
    case Accent => FindAt(vs, "accent", 1); vs[1].1.entries
    case Text => FindAt(vs, "text", 2); vs[2].1.entries
  }

  /** `severity[v][sev]` is defined for every declared variant and severity. */
  lemma SeverityInTable(v: Variant, sev: Severity)
    ensures Path(Table, ["severity", v.Name(), sev.Name()]) == SeverityClasses(v, sev)
  {
    assert ["severity", v.Name(), sev.Name()] == ["severity", v.Name()] + [sev.Name()];
    PathSnoc(Table, ["severity", v.Name()], sev.Name());
    var sevs := SeverityRow(v);
    match sev
    case Info => FindAt(sevs, "info", 0);
    case Success => FindAt(sevs, "success", 1);
    case Warning => FindAt(sevs, "warning", 2);
    case Error => FindAt(sevs, "error", 3);
  }

  /** `info` maps to "" for every variant. */
  lemma InfoEmptyInTable(v: Variant)
    ensures Path(Table, ["severity", v.Name(), "info"]) == Str("")
  {
    SeverityInTable(v, Info);
  }

  // ---------------------------------------------------------------------
  // Button

  /** The merge arguments are the table's entries, in the order `base`,
      `variant[v]`, `size[s]`, `severity[v][sev]`, and the caller's
      className last. */
  lemma MergeArgsFromTable(p: ButtonProps)
    ensures var q := Resolve(p);
      MergeArgs(p) == [Member(Table, "base"), Path(Table, ["variant", q.variant.Name()]),
        Path(Table, ["size", q.size.Name()]), Path(Table, ["severity", q.variant.Name(), q.severity.Name()]),
        Str(p.className.GetOr(""))]
  {
    var q := Resolve(p);
    BaseInTable();
    VariantInTable(q.variant);
    SizeInTable(q.size);
    SeverityInTable(q.variant, q.severity);
  }

  /** A button with no props merges the base, the empty `basic` classes,
      the `md` classes, the empty `basic`/`info` classes and "". */
  lemma DefaultMergeArgs()
    ensures MergeArgs(ButtonProps(None, None, None, None))
      == [Str(BaseClasses), Str(""), Str("px-4 py-2 text-base"), Str(""), Str("")]
  {
  }

  /** As written, a caller-supplied className is the whole rendered class:
      nothing the table or the merge produce reaches the element. */
  lemma CallerClassReplacesMerge(p: ButtonProps, merge: seq<JsVal> -> string)
    requires p.className.Some?
    ensures RenderedClassAsWritten(p, merge) == p.className.value
  {
  }

  /** The code as written and the corrected rendering disagree exactly
      when the caller passes a className that differs from the merged
      string. */
  lemma SpreadAgreesIff(p: ButtonProps, merge: seq<JsVal> -> string)
    ensures RenderedClassAsWritten(p, merge) == RenderedClass(p, merge)
      <==> p.className.None? || p.className.value == merge(MergeArgs(p))
  {
  }

  /** Corrected, the element always carries the merged string, to which the
      caller's className is handed last. */
  lemma RenderedClassMerges(p: ButtonProps, merge: seq<JsVal> -> string)
    ensures RenderedClass(p, merge) == merge(MergeArgs(p))
    ensures MergeArgs(p)[4] == Str(p.className.GetOr(""))
  {
  }

  /** A child styled `text-white` is rejected by `Group`: `"text"` is a
      variant name. */
  lemma TextWhiteRejected(c: Child)
    requires c.className == Some("text-white")
    ensures Offence(c, VariantNames, SizeNames) == Some(VariantError)
  {
    ContainsAt("text-white", "text", 0);
    assert "text" in VariantNames;
  }
}
