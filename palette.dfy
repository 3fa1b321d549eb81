/** The class strings the style tables of the button components share.
    Each component's own table is a separate constant; lemmas beside it
    show that looking up the table yields these values. */
module Palette {
  import opened Js
  import opened Axes

  /** The variant classes: `variant[v]` in `src/props`, `variant[v].base`
      in `src/twv-raw` and `src/twv-flat`. */
  function VariantClasses(v: Variant): (r: JsVal)
  {
    match v
    case Basic => Str("")
    case Accent => Arr(["bg-indigo-500", "text-white"])
    case Text => Str("text-indigo-500 border-indigo-500")
  }

  /** The size classes. */
  function SizeClasses(s: Size): (r: JsVal)
  {
    match s
    case Sm => Str("px-3 py-1.5 text-sm")
    case Md => Str("px-4 py-2 text-base")
    case Lg => Str("px-5 py-3 text-lg")
  }

  /** The severity classes of a variant: `severity[v][sev]` in `src/props`,
      `variant[v].severity[sev]` in `src/twv-raw` and `src/twv-flat`, the
      compound variants of `src/cva`. */
  function SeverityClasses(v: Variant, sev: Severity): (r: JsVal)
  {
    match (v, sev)
    case (_, Info) => Str("")
    case (Basic, Success) => Str("text-green-500")
    case (Basic, Warning) => Str("text-yellow-500")
    case (Basic, Error) => Str("text-red-500")
    case (Accent, Success) => Str("bg-green-500 text-white")
    case (Accent, Warning) => Str("bg-yellow-500 text-white")
    case (Accent, Error) => Str("bg-red-500 text-white")
    case (Text, Success) => Str("text-green-500 border-green-200")
    case (Text, Warning) => Str("text-yellow-500 border-yellow-200")
    case (Text, Error) => Str("text-red-500 border-red-200")
  }
}
