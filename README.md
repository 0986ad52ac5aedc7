# Template resolver, modelled in Dafny

This project models the template resolver built by the factory in `template.js`.
`template(tmplName, tmplData, htmlString)` binds a template name to a renderer the first
time the name is used. If `htmlString` is non-empty, the renderer is the inline thunk
`htmlTemplate(name)` and the markup is parked in `template.strings`. Otherwise it is the
external thunk `scriptTemplate(name)`, which fetches its markup with `gethtml(prefix + name)`.
The function then either renders with `tmplData` or returns the renderer itself.
Each thunk compiles on its first render and keeps the result in its private `compiled`
slot. The inline thunk also deletes its pending entry from `template.strings` at that
moment.

Two files, one module each:

- `template_model.dfy` (module `TemplateModel`) is the value-level model. `State` holds
  the renderer cache, the pending sources and the filled `compiled` slots. It also holds
  two bookkeeping fields: `sources` (the markup a name was first registered with) and
  `log` (every compiler call). `Register`, `Invoke` and `Resolve` are the three
  operations. `Valid` is the invariant. The lemmas state the properties, including over
  arbitrary sequences of calls (`Run`).
- `template_resolver.dfy` (module `TemplateResolver`) is the resolver object. It is a
  class whose `cache`, `strings` and `compiled` maps are updated in place by `Render` (a
  call of a thunk) and `Template` (the public function). Its `sources` and `log` are
  ghost fields. Every method is proved equal, through `Abs()`, to the matching function
  of the value-level model.

The compiler (`_.template` with the fixed delimiter options) and the element lookup are
collaborators passed in as total functions. The delimiter options are the constant
`TemplateSettings`, handed to the compiler with every source. Data is a type parameter,
because the resolver never looks inside it.

Line 89 tests `htmlString` for truthiness, so an empty string counts as absent and the
name is bound to the external thunk.

## Model

| member | source | states |
|---|---|---|
| TemplateModel.Init | template.js:100-101 | a new resolver has nothing bound, nothing pending, no filled slot and no compiler call |
| TemplateModel.Given | template.js:89 | a string option is truthy, as at line 89 for the html string and line 69 for the prefix, exactly when it is present and non-empty; an empty string counts as absent |
| TemplateModel.HtmlTemplate | template.js:45-55 | the inline factory's thunk for an id belongs to the inline factory and to that id, so it is determined by the id |
| TemplateModel.ScriptTemplate | template.js:65-72 | the external factory's thunk for an id belongs to the external factory and to that id, so it is determined by the id |
| TemplateModel.FactoriesMemoized | template.js:45-72 | each factory gives the same thunk (and so the same compiled slot) for the same id and different thunks for different ids; the two factories never share a thunk |
| TemplateModel.KeyPrefix | template.js:69 | the lookup prefix is never empty; a configured non-empty prefix is used as given; an absent or empty prefix becomes "tmpl-" |
| TemplateModel.LookupKey | template.js:69 | the lookup key is the prefix followed by the id, with both parts recoverable from the key |
| TemplateModel.Register | template.js:88-95 | the name is bound afterwards; a name already bound leaves the whole state unchanged; a new name is bound to the inline thunk when markup is given, and its markup is stored as pending and as its first source, otherwise to the external thunk with the pending sources unchanged; nothing else changes, no slot is filled and nothing is compiled |
| TemplateModel.Invoke | template.js:45-72 | a render fills the thunk's slot and returns that renderer applied to the data; an already-filled slot leaves the state unchanged; a first render adds exactly one compiler call for this thunk, fills only this slot and, for an inline thunk, removes only its pending source; an external render never touches the pending sources |
| TemplateModel.Resolve | template.js:85-98 | the name is bound to a thunk for that name; an existing binding is kept; a new one is inline exactly when the html string is non-empty; a new external binding leaves the pending sources unchanged, with or without data; without data the bound renderer is returned and nothing is compiled; with data its slot is filled |
| TemplateModel.InitValid | template.js:100-101 | the empty cache and empty pending table satisfy the invariant |
| TemplateModel.ValidCanRun | template.js:89-91 | every bound inline thunk that has not compiled still has its pending source, so the missing-source case never arises |
| TemplateModel.RegisterPreservesValid | template.js:88-95 | registration keeps the invariant |
| TemplateModel.FirstInvokePreservesValid | template.js:47-69 | the first render of either kind of thunk keeps the invariant: it compiles, logs one compiler call and, for an inline thunk (lines 47-51), consumes the pending source; an external thunk (lines 68-69) consumes nothing |
| TemplateModel.FirstInvokeKeepsHistory | template.js:47-69 | the compiler call of a first render is the only new log entry, it records the right source and key, and each filled slot still has exactly one compiler call |
| TemplateModel.FirstInvokeCounts | template.js:47-69 | after a first render each filled slot has exactly one compiler call and each empty one none |
| TemplateModel.FirstInvokeRecorded | template.js:47-69 | after a first render every logged compiler call used the first registered source (inline) or the key prefix + id and its lookup result (external) |
| TemplateModel.InvokePreservesValid | template.js:45-72 | rendering any bound thunk keeps the invariant |
| TemplateModel.ResolvePreservesValid | template.js:85-98 | every call of the public function keeps the invariant |
| TemplateModel.RenderUsesSource | template.js:45-72 | whether or not it has compiled, a bound thunk renders with the compiled form of its first registered markup (inline) or of the lookup result for prefix + id (external) |
| TemplateModel.ResolveOutput | template.js:85-97 | a call with data renders the first markup ever given for the name; a later html string is ignored and an empty one counts as absent |
| TemplateModel.ResolveWithoutData | template.js:97 | without data the bound renderer itself is returned; nothing is compiled or looked up; a bound name's state is unchanged, so a pending source stays pending |
| TemplateModel.FirstInlineRender | template.js:85-98 | a first call with both markup and data compiles that markup once, fills only its slot and leaves the pending table as it was |
| TemplateModel.InvokeAgainReusesSlot | template.js:45-72 | a second render of the same thunk reuses the slot and changes nothing |
| TemplateModel.SecondRegistrationIgnored | template.js:88-97 | registering a name twice with different markup keeps the first markup pending; the first render compiles exactly that markup once and consumes it |
| TemplateModel.ExternalLookupOnce | template.js:65-72 | two renders of an unregistered name look up prefix + name once, compile the result once, leave the pending sources unchanged, and the second render changes nothing |
| TemplateModel.Run | template.js:85-98 | any sequence of calls from a valid state ends in a valid state |
| TemplateModel.RunNeverRebinds | template.js:88-95 | once bound, a name keeps its renderer through any later sequence of calls, whatever markup they pass |
| TemplateModel.ResolveExtends | template.js:85-98 | one call only extends the compiler log and the set of bound names, and keeps every remembered first source |
| TemplateModel.RunExtends | template.js:85-98 | a sequence of calls only extends the compiler log, the set of bound names and the remembered first sources |
| TemplateModel.RunFromInit | template.js:45-72 | from a fresh resolver, after any calls: each thunk was compiled at most once, a pending source belongs to an inline name that has not rendered yet, and every lookup used the key prefix + id |
| TemplateResolver.Resolver.constructor | template.js:100-103 | a new resolver keeps its prefix, lookup and compiler, and starts with an empty cache, no pending sources, no filled slots and the invariant |
| TemplateResolver.Resolver.Render | template.js:45-72 | calling a bound renderer matches `Invoke` and keeps the invariant; it returns the compiled source applied to the data; the first call compiles once and, if inline, deletes only the pending entry of that name; an external first call looks up prefix + id; later calls change nothing |
| TemplateResolver.Resolver.Template | template.js:85-98 | the public function matches `Resolve` and keeps the invariant; a bound name is never rebound; a new name is bound to the inline or external thunk depending on the html string, and an external binding leaves `strings` unchanged; without data it returns the renderer, compiling nothing; a first call with markup and data registers and consumes the source in the same call |

## Left out

- The default element lookup (lines 19-24) finds the element with `document.getElementById`, then reads its markup with jQuery's `.html()` when `window.jQuery || window.$` exists and with `innerHTML` otherwise. The model requires the lookup to be passed in, as a total function of the key. Because that function does not change over time, the model cannot show that an external slot keeps the markup the element had at the first render and ignores later changes to the element.
- The compiler `_.template` and the meaning of the three delimiter patterns belong to the underscore library. The compiler is a parameter, and the delimiter options are the constant `TemplateSettings`.
- `_.memoize` keeps a hidden table of thunk objects. A thunk is modelled by the value (factory, id), and its `compiled` variable is the entry for that value in the `compiled` map. "Same id, same thunk, same slot" is therefore value equality, and object identity is not modelled.
- Exceptions thrown by the lookup or the compiler are not modelled, so compile and lookup always succeed. In the source, a failure leaves the slot unset, and the next render tries again.
- JavaScript truthiness of `tmplData` is not modelled. Data is an `Option`, so falsy values such as `0`, `""` or `null` are not treated as absent.
- JavaScript object quirks are not modelled: inherited keys such as `"constructor"` make `template.cache[name]` truthy, and non-string names are coerced to strings.
- `TemplateModel.Run` covers sequences of calls to the public function. A renderer returned earlier and called later goes through `Invoke`, covered separately by `InvokePreservesValid`.
