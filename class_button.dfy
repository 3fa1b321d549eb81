/** `src/class/index.tsx`: the button's only computed class is `btn`
    followed by the caller's className; everything else is CSS. The
    `Group` of this file is `GroupCheck.ClassGroup`. */
module ClassButton {
  import opened Js
  import opened Axes

  /** The button's props: plain HTML button attributes, among them an
      optional `className`; the others are kept as named values. */
  datatype ClassProps = ClassProps(className: Option<string>, attributes: seq<(string, JsVal)>)

  /** `const { className = "", ...rest } = props`: `rest` is every prop but
      `className`. */
  function Rest(p: ClassProps): (r: ClassProps)
    ensures r.className.None?
    ensures r.attributes == p.attributes
  {
    p.(className := None)
  }

  /** `"btn " + className`. */
  function ClassName(p: ClassProps): (r: string)
    ensures |r| >= 4 && r[..4] == "btn "
    ensures r[4..] == p.className.GetOr("")
  {
    "btn " + p.className.GetOr("")
  }

  /** The class of the rendered `<button className={...} {...rest}>`. */
  function RenderedClass(p: ClassProps): string
  {
    AfterSpread(ClassName(p), Rest(p).className)
  }

  /** The spread of `rest` comes after the computed class but cannot
      replace it: the element's class always starts with `btn ` and ends
      with the caller's className. */
  lemma SpreadKeepsClass(p: ClassProps)
    ensures RenderedClass(p) == ClassName(p)
    ensures RenderedClass(p)[..4] == "btn " && RenderedClass(p)[4..] == p.className.GetOr("")
  {
  }

  /** Without a className the button's class is `btn ` alone. */
  lemma DefaultClass(p: ClassProps)
    requires p.className.None?
    ensures RenderedClass(p) == "btn "
  {
  }

  /** Two buttons render the same class exactly when they pass the same
      className, counting an absent one as "". */
  lemma ClassInjective(p: ClassProps, p': ClassProps)
    ensures RenderedClass(p) == RenderedClass(p') <==> p.className.GetOr("") == p'.className.GetOr("")
  {
    if RenderedClass(p) == RenderedClass(p') {
      assert RenderedClass(p)[4..] == RenderedClass(p')[4..];
    }
  }
}
