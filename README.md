# Button class-name approaches, modelled in Dafny

The repository `component-library-test` tries five ways of computing the
CSS classes of a React `Button` (Tailwind utility classes). Each
component folder also has a `Button.Group` that checks its children.
This project models the logic behind them:

- `twv` (`src/twv/twv.ts`) is a recursive class-token builder. It walks a
  configuration tree depth first and pushes tokens onto a fresh list: the
  object's `base`, then the `hover`, `focus`, `active` and `disabled`
  pseudo-state slots, each prefixed, and then the whole subtree of every
  key whose prop is truthy. The list then goes to twMerge.
- `twv-naive` (`src/twv-naive/twv.ts`) is a flattener. It turns each
  argument into one token group, prefixing a state object's slots.
- `props`, `twv-raw` and `twv-flat` are static style tables that `Button`
  looks up with its destructured `variant`, `size` and `severity` props.
  It then hands the merge an ordered argument list ending in the caller's
  `className`.
- `cva` is a class-variance-authority configuration. The model treats it
  as data: its compound variants and its default variants.
- `class` gives every button the class `btn` followed by the caller's
  `className`.
- `Group`, copied into every folder, scans each child's `className` for a
  variant name and then for a size name, as substrings. It throws on the
  first offending child. Otherwise it clones every child with the group's
  shared props.

The model is written in Dafny's own terms:

- JavaScript values are `Js.JsVal`, with object entries in insertion order. The entries stand for an object's own keys, which are assumed distinct.
- `props` of the `twv` builder are the set of keys whose value is truthy.
- twMerge, the function `cva(...)` returns, and the builder `twv-flat`
  imports are function-typed parameters.
- A thrown error is a result value: `Twv.Outcome.TypeError`,
  `GroupCheck.Mapped.Thrown` or `GroupCheck.GroupElement.Throws`.

Points where the code's behaviour is easy to misread:

- A string node is pushed whole, never split on whitespace (twv.ts:204-206).
- The `for...in` loop visits `node[key]` in full when `props[key]` is
  truthy. It never indexes by the prop's value, so
  `{base:"a", variant:{color:{red:"text-red"}}}` with props `{color}`
  yields `["a"]` (`TwvExamples.ColorExample`). The loop also revisits
  `base` and the slot keys (`TwvExamples.DisabledEntry`).
- The builder closure takes only `props` (twv.ts:201).
- A truthy slot that is neither a string nor an array throws a
  `TypeError` when `.split` is called on it (`Twv.BadSlotThrows`).

Modules: `Strings`, `Js`, `Axes`, `Palette`, `GroupCheck`, `Twv`,
`TwvExamples`, `TwvNaive`, `PropsButton`, `TwvRaw`, `TwvFlat`,
`CvaButton`, `ClassButton`.

- `Axes` holds the variant, size and severity enumerations, the button
  props, their destructuring defaults and the JSX spread rule.
- `Palette` holds the class strings the tables share. Each table is its
  own constant, and a lemma proves that looking up that constant gives the
  `Palette` value.
- `GroupCheck` models the `Group` of `props`, `twv-raw`, `twv-flat` and
  `cva` once, as `SharedGroup`. The `Group` of `class` is `ClassGroup`.

## Model

| member | source | states |
|---|---|---|
| Twv.Build | src/twv/twv.ts:200-265 | the closure's token list starts empty, so it depends only on config and props: it equals `Walk(config, props)` |
| Twv.AddClassNames | src/twv/twv.ts:203-260 | the recursive closure only appends: it returns the incoming list followed by `Walk(node)` |
| Twv.AddObject | src/twv/twv.ts:209-258 | object branch with the `for...in` loop: the incoming list, then base, slots and the selected entries' walks |
| Twv.AddBaseAndStates | src/twv/twv.ts:210-248 | the `base` call followed by the four slot blocks |
| Twv.AddStates | src/twv/twv.ts:214-248 | hover, focus, active and disabled blocks in that order, each appending its slot tokens |
| Twv.AddSlot | src/twv/twv.ts:214-221 | one `forEach` push loop: appends `slot:` + each item; nothing for an absent or falsy slot; TypeError for another value |
| Twv.ThenAssoc | src/twv/twv.ts:203-260 | proof helper, with no source counterpart of its own: appending token groups is associative, so the order of the pushes is the order of the tokens |
| Twv.FalsyNodeEmpty | src/twv/twv.ts:204 | a falsy node pushes nothing |
| Twv.StringNodeWhole | src/twv/twv.ts:204-206 | a non-empty string node yields exactly one token, itself unsplit; "" yields none |
| Twv.ArrayNodeVerbatim | src/twv/twv.ts:207-208 | an array node yields its elements verbatim, in order |
| Twv.ArraySlotTokens | src/twv/twv.ts:215-220 | an array slot of n elements yields n tokens, the i-th `slot:` + a[i] |
| Twv.StringSlotToken | src/twv/twv.ts:215-220 | a non-empty string slot yields one token: `slot:` + its whitespace-split pieces joined by "," |
| Twv.WordSlotToken | src/twv/twv.ts:215-220 | a one-word string slot `w` yields the single token `slot:w` |
| Twv.BadSlotThrows | src/twv/twv.ts:214-220 | a truthy slot that is neither string nor array makes the slot and the whole object walk throw |
| Twv.SelectedIff | src/twv/twv.ts:250-256 | an entry is selected iff it is an entry of the object and its key is truthy in props |
| Twv.EntriesSelected | src/twv/twv.ts:250-256 | the key loop walks, in key order, exactly the selected entries' whole subtrees |
| Twv.ObjectOrder | src/twv/twv.ts:210-257 | an object yields base tokens, then slot tokens in fixed order independent of props, then the selected entries |
| Twv.NoPropsNoEntries | src/twv/twv.ts:250-256 | with no truthy props an object yields only its base and slot tokens |
| Twv.SelectedOne | src/twv/twv.ts:250-256 | when exactly one key is truthy, only its entry is visited |
| Twv.NoneSelected | src/twv/twv.ts:250-256 | when no key is truthy, no entry is visited |
| Twv.ObjectTokens | src/twv/twv.ts:210-257 | an object's tokens are the concatenation of its base, slot and entry parts |
| Twv.WalkAllOne | src/twv/twv.ts:250-256 | visiting a single entry yields that entry's walk |
| TwvExamples.StringExample | src/twv/twv.ts:29 | `buttonClassNameString` yields `["text-white"]` |
| TwvExamples.ArrayExample | src/twv/twv.ts:32 | `buttonClassNameArray` yields `["text-white"]` |
| TwvExamples.ObjectHover | src/twv/twv.ts:35-39 | the hover slot of `buttonClassNameObject` yields `hover:text-black` |
| TwvExamples.ObjectDisabled | src/twv/twv.ts:35-39 | its disabled slot yields `disabled:text-gray-500` |
| TwvExamples.ObjectBase | src/twv/twv.ts:35-39 | its base yields `text-white` whatever the props |
| TwvExamples.ObjectNoFocusActive | src/twv/twv.ts:35-39 | it has no focus and no active tokens |
| TwvExamples.ObjectStates | src/twv/twv.ts:35-39 | its slot tokens are `hover:text-black`, `disabled:text-gray-500` |
| TwvExamples.ObjectExample | src/twv/twv.ts:35-39 | with empty props it yields `["text-white","hover:text-black","disabled:text-gray-500"]` |
| TwvExamples.DisabledEntry | src/twv/twv.ts:250-256 | a truthy `disabled` prop revisits the disabled entry, unprefixed |
| TwvExamples.VariantEntry | src/twv/twv.ts:42-51 | with `secondary` falsy, the `variant` entry of `buttonClassNameObjectVariants` yields `text-white` iff `primary` is truthy |
| TwvExamples.VariantsHover | src/twv/twv.ts:42-51 | the hover slot of `buttonClassNameObjectVariants` yields `hover:text-black` |
| TwvExamples.VariantsDisabled | src/twv/twv.ts:42-51 | its disabled slot yields `disabled:text-gray-500` |
| TwvExamples.VariantsStates | src/twv/twv.ts:42-51 | its slot tokens are `hover:text-black`, `disabled:text-gray-500`; the nested `variant` object is no slot |
| TwvExamples.VariantsBase | src/twv/twv.ts:42-51 | its base yields `text-white` whatever the props |
| TwvExamples.VariantsNoEntries | src/twv/twv.ts:42-51 | under empty props its key loop visits nothing |
| TwvExamples.VariantsExample | src/twv/twv.ts:42-51 | under empty props the whole object yields `["text-white","hover:text-black","disabled:text-gray-500"]` |
| TwvExamples.VariantsPrimaryEntries | src/twv/twv.ts:42-51 | under `{variant, primary}` the key loop visits only `variant`, which yields `text-white` |
| TwvExamples.VariantsPrimary | src/twv/twv.ts:42-51 | under `{variant, primary}` the whole object yields base, the two slot tokens, then `text-white` |
| TwvExamples.ColorExample | src/twv/twv.ts:250-256 | a prop named after a nested key is not enough: `{color}` alone yields only the base `a` |
| TwvNaive.Twv | src/twv-naive/twv.ts:26-44 | one group per argument, in argument order |
| TwvNaive.PrefixfyUndefined | src/twv-naive/twv.ts:14-15 | an absent slot becomes "" |
| TwvNaive.PrefixfyWords | src/twv-naive/twv.ts:16-20 | a string slot stays a string whose pieces are the input's pieces each prefixed; piece count preserved |
| TwvNaive.PrefixfyList | src/twv-naive/twv.ts:21-22 | an array slot keeps its length, element i is prefix + a[i], and stripping the prefix recovers the input |
| TwvNaive.PassThrough | src/twv-naive/twv.ts:29-32 | string and array arguments pass through unchanged |
| TwvNaive.ObjectGroup | src/twv-naive/twv.ts:33-40 | an object becomes five parts: base unprefixed, then hover, focus, active, disabled prefixed |
| TwvNaive.TwvAppend | src/twv-naive/twv.ts:27-28 | groups of concatenated arguments are the concatenated groups: later arguments reach the merge later |
| Axes.Variant.Name | src/props/index.tsx:5-6 | every variant's name is in the declared list |
| Axes.Size.Name | src/props/index.tsx:8-9 | every size's name is in the declared list |
| Axes.Severity.Name | src/props/index.tsx:11-12 | every severity's name is in the declared list |
| Axes.NamesExact | src/props/index.tsx:5-12 | the declared lists hold exactly the names of the values, each once |
| Axes.Resolve | src/props/index.tsx:65-70 | missing variant, size, severity and className default to basic, md, info and "" |
| Axes.DefaultsExplicit | src/twv-raw/index.tsx:70-75 | omitting a prop resolves like passing its default |
| Axes.AfterSpread | src/props/index.tsx:87 | with `{...props}` after `className={cm}`, a caller's className wins, else cm |
| Axes.Selection | src/cva/index.tsx:121 | the `{ variant, size, severity }` object has every axis, defaulted |
| GroupCheck.Offence | src/props/index.tsx:112-121 | variant error iff a variant name occurs; size error iff no variant but a size occurs; none otherwise |
| GroupCheck.FirstOffender | src/props/index.tsx:110-123 | the index of the first offending child, all earlier children passing |
| GroupCheck.CloneShared | src/props/index.tsx:122 | `cloneElement(child, { disabled, variant, size })` overrides those three props |
| GroupCheck.ScanNames | src/props/index.tsx:112-116 | the `for...of` loop reports a hit iff some name is a substring of the className |
| GroupCheck.Visit | src/props/index.tsx:110-123 | one child: throws its offence, else yields its clone |
| GroupCheck.MapChildren | src/props/index.tsx:110-123 | the children map loop equals the recursive map: in order, first throw aborting |
| GroupCheck.ClonedIff | src/props/index.tsx:110-123 | the map succeeds iff no child offends; then count, order and each clone are preserved |
| GroupCheck.ThrownFirst | src/props/index.tsx:110-121 | the map throws iff some child offends, with the first offender's message |
| GroupCheck.NoClassNamePasses | src/props/index.tsx:113 | a child without className passes |
| GroupCheck.VariantBeforeSize | src/twv-raw/index.tsx:113-122 | a className with both a variant and a size name throws the variant error |
| GroupCheck.ContainsAt | src/props/index.tsx:113 | proof helper, with no source counterpart of its own: an occurrence at an index makes `includes` true |
| GroupCheck.SharedGroup | src/props/index.tsx:101-125 | throws iff some child offends (first offender's message); else div `btn-group ` + className, children cloned with disabled/variant/size defaulted false/basic/md; the same `Group` is src/twv-raw/index.tsx:102-126, src/twv-flat/index.tsx:110-134 and src/cva/index.tsx:137-161 (with its literal lists) |
| GroupCheck.ClassClone | src/class/index.tsx:52 | `cloneElement(child, { className, disabled })` overrides those two props |
| GroupCheck.ClassGroup | src/class/index.tsx:36-55 | throws iff some child offends; else wrapper class is always `btn-group`, children get the group's className and disabled |
| PropsButton.MergeArgs | src/props/index.tsx:79-85 | five class lists, the caller's className last |
| PropsButton.BaseInTable | src/props/index.tsx:15-19 | the table's `base` entry |
| PropsButton.VariantInTable | src/props/index.tsx:21-25 | `variant[v]` is defined for every variant |
| PropsButton.SizeInTable | src/props/index.tsx:26-30 | `size[s]` is defined for every size |
| PropsButton.SeverityRow | src/props/index.tsx:31-50 | `severity[v]` holds the four severities in order |
| PropsButton.SeverityInTable | src/props/index.tsx:31-50 | `severity[v][sev]` is defined for every variant and severity |
| PropsButton.InfoEmptyInTable | src/props/index.tsx:33 | `info` maps to "" for every variant (also lines 39, 45) |
| PropsButton.MergeArgsFromTable | src/props/index.tsx:79-85 | the merge arguments are base, variant[v], size[s], severity[v][sev] from the table, then className |
| PropsButton.DefaultMergeArgs | src/props/index.tsx:65-85 | a button without props merges base, basic, md and basic/info classes |
| PropsButton.CallerClassReplacesMerge | src/props/index.tsx:87 | as written, a caller's className is the whole rendered class |
| PropsButton.RenderedClassMerges | src/props/index.tsx:79-87 | corrected, the element carries the merge with the caller's className last |
| PropsButton.SpreadAgreesIff | src/props/index.tsx:79-87 | the element as written carries the same class as the corrected one iff the caller passes no className or exactly the merged string |
| PropsButton.TextWhiteRejected | src/props/index.tsx:112-116 | a child styled `text-white` throws the variant error |
| TwvRaw.MergeArgs | src/twv-raw/index.tsx:76-85 | eight class lists, the caller's className last |
| TwvRaw.GlobalsInTable | src/twv-raw/index.tsx:16-20 | the four global groups are the table's base/hover/active/disabled |
| TwvRaw.VariantRow | src/twv-raw/index.tsx:22-50 | `variant[v]` has a base and a severity entry |
| TwvRaw.VariantBaseInTable | src/twv-raw/index.tsx:22-50 | `variant[v].base` is defined for every variant |
| TwvRaw.SizeInTable | src/twv-raw/index.tsx:51-55 | `size[s]` is defined for every size |
| TwvRaw.SeverityRow | src/twv-raw/index.tsx:22-50 | `variant[v].severity` holds the four severities in order |
| TwvRaw.SeverityInTable | src/twv-raw/index.tsx:22-50 | `variant[v].severity[sev]` is defined for every variant and severity |
| TwvRaw.InfoEmptyInTable | src/twv-raw/index.tsx:22-50 | `info` maps to "" for every variant |
| TwvRaw.PathSnoc4 | src/twv-raw/index.tsx:83 | proof helper, with no source counterpart of its own: the four-key lookup is one more lookup after three |
| TwvRaw.MergeArgsFromTable | src/twv-raw/index.tsx:76-85 | the merge arguments are the four globals, whatever the props, then variant base, size, severity, className |
| TwvRaw.CallerClassReplacesMerge | src/twv-raw/index.tsx:88 | as written, a caller's className is the whole rendered class |
| TwvRaw.RenderedClassMerges | src/twv-raw/index.tsx:76-88 | corrected, the element carries the merge with the caller's className last |
| TwvRaw.SpreadAgreesIff | src/twv-raw/index.tsx:76-88 | as written and corrected agree iff no className is passed or it equals the merged string |
| TwvFlat.VariantBaseInTable | src/twv-flat/index.tsx:20-49 | `variant[v].base` is the shared variant classes, past the `default` marker of `basic` |
| TwvFlat.SeverityObjectInTable | src/twv-flat/index.tsx:20-49 | `variant[v].severity` is the declared severity object, past the `default` marker |
| TwvFlat.SeverityRow | src/twv-flat/index.tsx:20-49 | `variant[v].severity` holds the four severities in order |
| TwvFlat.SeverityInTable | src/twv-flat/index.tsx:20-49 | `variant[v].severity[sev]` is defined for every variant and severity |
| TwvFlat.DefaultEntriesUnread | src/twv-flat/index.tsx:14-58 | `Button`'s one table lookup gives the same group on the table with every `default: true` entry (lines 22, 52) removed |
| TwvFlat.FirstProps | src/twv-flat/index.tsx:83-86 | the first call sees a missing axis as undefined |
| TwvFlat.SecondExtras | src/twv-flat/index.tsx:89-93 | the second call's extras: the severity group from the table, then className last |
| TwvFlat.Button | src/twv-flat/index.tsx:73-93 | the class is the second builder call's result; the first is discarded |
| TwvFlat.FirstCallLacksDefaults | src/twv-flat/index.tsx:74-93 | without axis props the first call sees undefined, the second basic/md/info |
| TwvFlat.CallerClassReplacesMerge | src/twv-flat/index.tsx:96 | as written, a caller's className is the whole rendered class |
| TwvFlat.RenderedClassMerges | src/twv-flat/index.tsx:89-96 | corrected, the element carries the builder's string with the caller's className last |
| TwvFlat.SpreadAgreesIff | src/twv-flat/index.tsx:89-96 | as written and corrected agree iff no className is passed or it equals the builder's string |
| CvaButton.SeverityVariantEmpty | src/cva/index.tsx:24-29 | the severity variant adds "" for every severity |
| CvaButton.CountAppend | src/cva/index.tsx:36-87 | the entries naming a pair in a concatenation are those in each part |
| CvaButton.CountOtherVariant | src/cva/index.tsx:36-87 | a block for one variant names no other variant |
| CvaButton.Block | src/cva/index.tsx:36-87 | each variant's block names success, warning, error with the shared severity classes |
| CvaButton.CountInBlock | src/cva/index.tsx:36-87 | a block names each non-info severity once and info never |
| CvaButton.CompoundCoverage | src/cva/index.tsx:36-87 | exactly one compound per variant and non-info severity, none for info |
| CvaButton.CompoundIndex | src/cva/index.tsx:36-87 | the compound for (v, sev) carries the other tables' severity classes |
| CvaButton.DefaultsAgree | src/cva/index.tsx:90-112 | `Button`'s destructuring defaults equal `defaultVariants` |
| CvaButton.MergeArgs | src/cva/index.tsx:121 | two merge arguments: the variant output, then the caller's className |
| CvaButton.CallerClassReplacesMerge | src/cva/index.tsx:123 | as written, a caller's className is the whole rendered class |
| CvaButton.RenderedClassMerges | src/cva/index.tsx:121-123 | corrected, the element carries the merge with the caller's className last |
| CvaButton.SpreadAgreesIff | src/cva/index.tsx:121-123 | as written and corrected agree iff no className is passed or it equals the merged string |
| CvaButton.GroupListsAreAxes | src/cva/index.tsx:148-153 | the hard-coded lists are the axis names |
| CvaButton.RoundedMdRejected | src/cva/index.tsx:146-157 | substring matching rejects `rounded-md` with the size error |
| ClassButton.Rest | src/class/index.tsx:17-28 | `rest` has no className and keeps every other HTML attribute of the props type |
| ClassButton.ClassName | src/class/index.tsx:28-30 | the class is `btn ` followed by className (default "") |
| ClassButton.SpreadKeepsClass | src/class/index.tsx:28-30 | the spread of `rest` cannot replace the computed class |
| ClassButton.DefaultClass | src/class/index.tsx:28-30 | without className the class is `btn ` |
| ClassButton.ClassInjective | src/class/index.tsx:28-30 | two buttons get the same class iff they pass the same className, counting an absent one as "" |


The table lists only members with contracts. The reference definitions
are functions without an `ensures`. The lemmas and methods above are
stated in their terms. Each one reads the source as follows:

- `Twv.Walk`: `addClassNames` as a recursive function, src/twv/twv.ts:203-260.
- `Twv.BaseTokens`: the `base` call, src/twv/twv.ts:210-212.
- `Twv.SlotTokens`: one pseudo-state block, src/twv/twv.ts:214-221 (likewise 223-248).
- `Twv.StateTokens`: the four blocks in order, src/twv/twv.ts:214-248.
- `Twv.WalkEntries`, `Twv.Selected`, `Twv.WalkAll`: the `for...in` key loop, src/twv/twv.ts:250-257.
- `TwvNaive.Prefixfy`: `prefixfy`, src/twv-naive/twv.ts:13-24.
- `TwvNaive.GroupOf`: the `map` callback of `twv`, src/twv-naive/twv.ts:28-41.
- `GroupCheck.MapSpec`: the `React.Children.map` callback over all children, src/props/index.tsx:110-123.
- `PropsButton.RenderedClassAsWritten`, `TwvRaw.RenderedClassAsWritten`, `TwvFlat.RenderedClassAsWritten`, `CvaButton.RenderedClassAsWritten`: the element's class under `className={cm} {...props}`, src/props/index.tsx:87, src/twv-raw/index.tsx:88, src/twv-flat/index.tsx:96, src/cva/index.tsx:123.
- `PropsButton.RenderedClass`, `TwvRaw.RenderedClass`, `TwvFlat.RenderedClass`, `CvaButton.RenderedClass`: the same element with the spread leaving `className` out, the corrected reading of those lines.
- `ClassButton.RenderedClass`: the element's class under `className={"btn " + className} {...rest}`, src/class/index.tsx:30.

## Left out

- twMerge (tailwind-merge) is an external library. It is a function parameter, and the model stops at its argument list.
- cva() (class-variance-authority) is an external library. The function it returns is a parameter. The cva base, variant and size class strings are consumed only by it, so they are not modelled.
- `./twv`, imported by `src/twv-flat/index.tsx:3` and `src/twv-raw/index.tsx:4`, is not part of this model. In twv-flat the builder it makes is a parameter. twv-raw imports it but does not use it.
- React rendering, JSX, `React.Children.map` and `cloneElement` are modelled as a sequence of child records and an update of their props. CSS imports are left out.
- Storybook stories (`*.stories.tsx`) demonstrate the components and have no logic of their own.
- TypeScript type-level material (twv.ts:154-196) is left out.
- The regular expression `\s+` is modelled by `Strings.SplitWs`, which splits on the characters of JavaScript's `\s` class (`Strings.IsWs`). The regular-expression engine itself is not modelled.
- In the `twv` builder, props are modelled by the set of keys whose value is truthy. The values themselves are never read by the code. Config keys that name `Object.prototype` members (`constructor`, `toString`, ...) are assumed absent. For them `props[key]` would be truthy through inheritance.
- `for...in` enumerates integer-like keys first. The model keeps insertion order and assumes non-numeric keys.
- A pseudo-state slot whose value is an object is modelled as throwing a `TypeError`.
- Group children are modelled through a className, disabled, variant and size only. A `className` passed explicitly as `undefined` is treated as absent.
- Axes.AfterSpread: a `className` passed explicitly as `undefined` (`<Button className={undefined}>`) is not modelled. The props record has only "absent" and "a string". In the source the spread copies the own key `className: undefined` over `className={cm}`, so such a button renders with no class. The model returns `cm` instead.
- TwvFlat.Button: the builder is a total, pure function parameter. A builder that throws or has side effects is not modelled, so discarding the first call's result holds by construction.
- ClassButton.ClassProps: HTML attributes other than `className` are kept as opaque named values. Their effect on the element is not modelled.
- TwvFlat.FirstProps: the object the first builder call receives records only the four props the component reads, with `undefined` for absent ones. The other HTML attributes in `props` are not modelled.
- Twv examples `buttonClassNameObjectVariantsObject` and the nested-variant configurations (twv.ts:53-152) are not evaluated. `buttonClassNameObjectVariants` (twv.ts:42-51) is evaluated as a whole only under empty props and under `{variant, primary}` (`TwvExamples.VariantsExample`, `TwvExamples.VariantsPrimary`). Its `variant` entry is evaluated under every props with `secondary` falsy (`TwvExamples.VariantEntry`).

## Findings

| source | as written | input that shows it | evidently intended | confidence | as-written member | corrected member |
|---|---|---|---|---|---|---|
| src/props/index.tsx:87 | `<button className={cm} {...props}>`: the spread after `className` puts the caller's raw className on the element | `className: "mx-2"`: the element's class is `mx-2`, so the base, variant, size and severity classes are lost | the merged string, with the caller's className merged last, as the comment at lines 71-78 describes | high, not executed | PropsButton.CallerClassReplacesMerge | PropsButton.RenderedClassMerges |
| src/twv-raw/index.tsx:88 | same spread after `className={cm}` | `className: "mx-2"` | the merged string | high, not executed | TwvRaw.CallerClassReplacesMerge | TwvRaw.RenderedClassMerges |
| src/twv-flat/index.tsx:96 | same spread after `className={cm}` | `className: "mx-2"` | the builder's string, which already has className last (lines 88-93) | high, not executed | TwvFlat.CallerClassReplacesMerge | TwvFlat.RenderedClassMerges |
| src/cva/index.tsx:123 | same spread after `className={cm}` | `className: "mx-2"` | the merged string (comment at lines 113-120) | high, not executed | CvaButton.CallerClassReplacesMerge | CvaButton.RenderedClassMerges |
