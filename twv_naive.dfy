/** The prefixing flattener of `src/twv-naive/twv.ts`: every argument of
    `twv(...classNames)` becomes one group handed to twMerge (not modelled);
    a state object becomes its base followed by its four prefixed slots. */
module TwvNaive {
  import opened Js
  import opened Strings

  /** `string | string[]`. */
  datatype ClassList = Words(s: string) | List(items: seq<string>)

  /** `ClassName`: a string, an array, or an object with a mandatory `base`
      and optional `hover`, `focus`, `active` and `disabled`. */
  datatype ClassName =
    | Str(s: string)
    | Arr(items: seq<string>)
    | Tw(base: ClassList, hover: Option<ClassList>, focus: Option<ClassList>,
         active: Option<ClassList>, disabled: Option<ClassList>)

  /** What the `map` callback returns for one argument: the argument itself,
      or the five-element array built from an object. */
  datatype Group = Single(list: ClassList) | Parts(parts: seq<ClassList>)

  /** `prefixfy(className, prefix)`. */
  function Prefixfy(c: Option<ClassList>, prefix: string): (r: ClassList)
  {
    match c
    case None => Words("")
    case Some(Words(s)) => Words(Join(PrefixAll(prefix, SplitWs(s)), " "))
    case Some(List(a)) => List(PrefixAll(prefix, a))
  }

  /** The group the `map` callback builds for one argument. */
  function GroupOf(c: ClassName): Group
  {
    match c
    case Str(s) => Single(Words(s))
    case Arr(a) => Single(List(a))
    case Tw(base, hover, focus, active, disabled) =>
      Parts([base, Prefixfy(hover, "hover:"), Prefixfy(focus, "focus:"),
             Prefixfy(active, "active:"), Prefixfy(disabled, "disabled:")])
  }

  /** The argument list `twv` hands to twMerge. */
  function Twv(cs: seq<ClassName>): (r: seq<Group>)
    ensures |r| == |cs|
    ensures forall i :: 0 <= i < |cs| ==> r[i] == GroupOf(cs[i])
  {
    if cs == [] then [] else [GroupOf(cs[0])] + Twv(cs[1..])
  }

  // ---------------------------------------------------------------------
  // Properties

  /** An absent slot becomes the empty string. */
  lemma PrefixfyUndefined(prefix: string)
    ensures Prefixfy(None, prefix) == Words("")
  {
  }

  /** A string slot stays a string; with a non-empty prefix free of
      whitespace, splitting the result gives back the input's pieces, each
      prefixed, so the piece count is preserved. */
  lemma PrefixfyWords(s: string, prefix: string)
    requires prefix != "" && NoWs(prefix)
    ensures Prefixfy(Some(Words(s)), prefix).Words?
    ensures SplitWs(Prefixfy(Some(Words(s)), prefix).s) == PrefixAll(prefix, SplitWs(s))
    ensures |SplitWs(Prefixfy(Some(Words(s)), prefix).s)| == |SplitWs(s)|
  {
    var ps := PrefixAll(prefix, SplitWs(s));
    forall k | 0 <= k < |ps| ensures ps[k] != "" && NoWs(ps[k]) {
      var piece := SplitWs(s)[k];
      assert ps[k] == prefix + piece;
      assert NoWs(piece);
      forall m | 0 <= m < |ps[k]| ensures !IsWs(ps[k][m]) {
        if m < |prefix| {
          assert ps[k][m] == prefix[m];
        } else {
          assert ps[k][m] == piece[m - |prefix|];
        }
      }
    }
    SplitJoin(ps);
  }

  /** An array slot stays an array of the same length whose i-th element
      is the prefix followed by the i-th input; stripping the prefix
      recovers the input. */
  lemma PrefixfyList(a: seq<string>, prefix: string)
    ensures Prefixfy(Some(List(a)), prefix).List?
    ensures |Prefixfy(Some(List(a)), prefix).items| == |a|
    ensures forall i :: 0 <= i < |a| ==> Prefixfy(Some(List(a)), prefix).items[i] == prefix + a[i]
    ensures StripAll(prefix, Prefixfy(Some(List(a)), prefix).items) == a
  {
    StripPrefixAll(prefix, a);
  }

  /** String and array arguments pass through unchanged. */
  lemma PassThrough(c: ClassName)
    requires c.Str? || c.Arr?
    ensures GroupOf(c) == Single(if c.Str? then Words(c.s) else List(c.items))
  {
  }

  /** An object becomes five parts: the base unprefixed, then hover, focus,
      active and disabled, each with its own prefix. */
  lemma ObjectGroup(c: ClassName)
    requires c.Tw?
    ensures GroupOf(c).Parts? && |GroupOf(c).parts| == 5
    ensures GroupOf(c).parts[0] == c.base
    ensures GroupOf(c).parts[1] == Prefixfy(c.hover, "hover:")
    ensures GroupOf(c).parts[2] == Prefixfy(c.focus, "focus:")
    ensures GroupOf(c).parts[3] == Prefixfy(c.active, "active:")
    ensures GroupOf(c).parts[4] == Prefixfy(c.disabled, "disabled:")
  {
  }

  /** The groups of a concatenation of arguments are the concatenation of
      their groups: later arguments reach the merge later. */
  lemma {:induction false} TwvAppend(a: seq<ClassName>, b: seq<ClassName>)
    ensures Twv(a + b) == Twv(a) + Twv(b)
  {
    if a == [] {
      assert a + b == b;
    } else {
      assert (a + b)[1..] == a[1..] + b;
      TwvAppend(a[1..], b);
    }
  }
}
