/** The variant, size and severity axes every button component declares
    (`Variants`, `Sizes`, `Severities` as `const` tuples) and the props a
    button receives. */
module Axes {
  import opened Js

  datatype Variant = Basic | Accent | Text {
    function Name(): (r: string)
      ensures r in VariantNames
    {
      match this
      case Basic => "basic"
      case Accent => "accent"
      case Text => "text"
    }
  }

  datatype Size = Sm | Md | Lg {
    function Name(): (r: string)
      ensures r in SizeNames
    {
      match this
      case Sm => "sm"
      case Md => "md"
      case Lg => "lg"
    }
  }

  datatype Severity = Info | Success | Warning | Error {
    function Name(): (r: string)
      ensures r in SeverityNames
    {
      match this
      case Info => "info"
      case Success => "success"
      case Warning => "warning"
      case Error => "error"
    }
  }

  const VariantNames: seq<string> := ["basic", "accent", "text"]
  const SizeNames: seq<string> := ["sm", "md", "lg"]
  const SeverityNames: seq<string> := ["info", "success", "warning", "error"]

  /** The declared lists hold exactly the names of the axis values, each once. */
  lemma NamesExact()
    ensures forall n :: n in VariantNames <==> exists v: Variant :: v.Name() == n
    ensures forall n :: n in SizeNames <==> exists s: Size :: s.Name() == n
    ensures forall n :: n in SeverityNames <==> exists s: Severity :: s.Name() == n
    ensures forall i, j :: 0 <= i < j < |VariantNames| ==> VariantNames[i] != VariantNames[j]
    ensures forall i, j :: 0 <= i < j < |SizeNames| ==> SizeNames[i] != SizeNames[j]
    ensures forall i, j :: 0 <= i < j < |SeverityNames| ==> SeverityNames[i] != SeverityNames[j]
  {
    assert Basic.Name() == VariantNames[0] && Accent.Name() == VariantNames[1] && Text.Name() == VariantNames[2];
    assert Sm.Name() == SizeNames[0] && Md.Name() == SizeNames[1] && Lg.Name() == SizeNames[2];
    assert Info.Name() == SeverityNames[0] && Success.Name() == SeverityNames[1];
    assert Warning.Name() == SeverityNames[2] && Error.Name() == SeverityNames[3];
  }

  /** The props a button reads; absent ones are `None`. */
  datatype ButtonProps = ButtonProps(variant: Option<Variant>, size: Option<Size>,
                                     severity: Option<Severity>, className: Option<string>)

  /** The props after `const { variant = "basic", size = "md", severity =
      "info", className = "" } = props`. */
  datatype Resolved = Resolved(variant: Variant, size: Size, severity: Severity, className: string)

  /** Destructuring with defaults. */
  function Resolve(p: ButtonProps): (r: Resolved)
    ensures p.variant.Some? ==> r.variant == p.variant.value
    ensures p.variant.None? ==> r.variant == Basic
    ensures p.size.Some? ==> r.size == p.size.value
    ensures p.size.None? ==> r.size == Md
    ensures p.severity.Some? ==> r.severity == p.severity.value
    ensures p.severity.None? ==> r.severity == Info
    ensures p.className.Some? ==> r.className == p.className.value
    ensures p.className.None? ==> r.className == ""
  {
    Resolved(p.variant.GetOr(Basic), p.size.GetOr(Md), p.severity.GetOr(Info), p.className.GetOr(""))
  }

  /** Omitting a prop renders the same as passing its default explicitly. */
  lemma DefaultsExplicit(p: ButtonProps)
    ensures Resolve(p) == Resolve(ButtonProps(Some(p.variant.GetOr(Basic)), Some(p.size.GetOr(Md)),
      Some(p.severity.GetOr(Info)), Some(p.className.GetOr(""))))
  {
  }

  /** The `class` attribute of the rendered `<button>` under
      `<button className={cm} {...props}>`: the spread comes last, so a
      `className` the caller passed replaces `cm`. */
  function AfterSpread(cm: string, className: Option<string>): (r: string)
    ensures className.Some? ==> r == className.value
    ensures className.None? ==> r == cm
  {
    if className.Some? then className.value else cm
  }

  /** The object `{ variant, size, severity }` built from the destructured
      props: every axis is present, a missing one at its default. */
  function Selection(q: Resolved): (r: JsVal)
    ensures Member(r, "variant") == Str(q.variant.Name())
    ensures Member(r, "size") == Str(q.size.Name())
    ensures Member(r, "severity") == Str(q.severity.Name())
  {
    var es := [("variant", Str(q.variant.Name())), ("size", Str(q.size.Name())),
               ("severity", Str(q.severity.Name()))];
    FindAt(es, "variant", 0);
    FindAt(es, "size", 1);
    FindAt(es, "severity", 2);
    Obj(es)
  }
}
