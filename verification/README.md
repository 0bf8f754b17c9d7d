# Livewire component core: name derivation and sentinel-guarded member resolution

This project models the two pieces of sequential logic in Livewire's base
`Component` class (`src/Component.php`):

- **Identity and naming.** `id`/`setId`/`getId` and `setName`/`getName`
  store and read two fields. `generateName` derives a default component
  name. A truthy registry alias wins. Otherwise the class path and the
  configured class namespace are both normalised (path separators become
  dots, the string is exploded on dots, each segment is kebab-cased, and the
  segments are imploded with dots). When the full name starts with the
  namespace, its first `strlen(namespace) + 1` characters are dropped.
- **Member resolution.** `__get` and `__call` offer an undeclared property
  read or method call to the handlers listening on the `__get` or `__call`
  hook. A local slot starts as the string `'noneset'`. Every claim
  overwrites it, so the last claim wins. A slot still strictly equal to
  `'noneset'` afterwards means nobody claimed. Then `__get` throws
  `PropertyNotFoundException`, and `__call` falls back to a registered macro
  or throws `BadMethodCallException`. `__isset` turns exactly the
  not-found exception into `false`.

Modules, one concept each:

- `wrappers.dfy` (`Wrappers`): `Option` and `Result`.
- `php_values.dfy` (`PhpValues`): PHP values and PHP truthiness. `""` and
  `"0"` are falsy.
- `text.dfy` (`Text`): `str_replace` of separators, `explode`/`implode`,
  Laravel's `startsWith` and `substr`.
- `naming.dfy` (`Naming`): the normalisation pipeline, namespace
  stripping and `generateName`.
- `identity.dfy` (`Identity`): the component value, its setters and
  getters, and `getName`.
- `resolution.dfy` (`Resolution`): the handler chain folded into the slot,
  and `__get`, `__isset` and `__call`.

The handler chain is a sequence of functions. Each one returns a `Step`:
`Decline`, `Claim(v)` or `Raise(e)`. `Resolution.Trigger` folds the chain
left to right into the slot. `Resolution.LastClaim` and
`Resolution.FirstRaise` are an independent reference reading of the same
chain. `Resolution.TriggerIsLastClaim` proves the two agree, and the
contracts of `Get`, `IsSet` and `Call` are stated against the reference
reading.

Assumptions about collaborators whose code is not part of this model:

- The trigger service runs the listeners in registration order.
- The finisher it returns hands back the slot unchanged.
- `Str::kebab` is a parameter of the configuration. The segment-count
  property assumes only that it never puts a dot into a dot-free segment.
- Laravel's `startsWith` treats an empty needle as a non-match.
- `ComponentRegistry::getAlias` is a map from class path to value, and a
  missing entry reads as null.

### Behaviour of the code worth knowing

- `id()` does not fail when no identifier was set. It returns the field's
  null (`Identity.IdIsLastAssigned` with a fresh component).
- Namespace stripping does not check that a dot follows the namespace. It
  always drops one extra character (`Naming.StripIgnoresSeparator`).
- An empty namespace is not special-cased in the code. Laravel's
  `startsWith` rejects an empty needle, so the full name is kept
  (`Naming.EmptyNamespaceKeepsFullName`).
- `explode` keeps empty segments. `a..b` keeps both dots.
- The sentinel is the ordinary string `'noneset'`, so a handler that claims
  that string is read as "nobody claimed" (`Resolution.SentinelClaimReadsAsMissing`).
- The derived name can be empty. This happens when the normalised class path
  equals the normalised namespace or is one character longer than it, for
  example namespace `App\Livewire\` (with a trailing separator) and class
  `App\Livewire\X` (see `Naming.GenerateName`).

## Model

| member | source | states |
|---|---|---|
| Text.DotSeparators | src/Component.php:72 | Every `/` and `\` becomes `.`. Every other character is kept in place. The length does not change, and no separator is left. |
| Text.Split | src/Component.php:72 | `explode('.', s)` gives at least one piece. No piece contains the delimiter. Imploding the pieces gives back `s`. |
| Text.SplitJoin | src/Component.php:72-78 | `explode` undoes `implode` piece for piece when no piece contains the delimiter. |
| Text.Substr | src/Component.php:81 | `substr(s, n)` is the suffix after the first `n` characters. It is empty when `n` reaches past the end. |
| Text.SplitAppend | src/Component.php:72 | Exploding `a.b` gives the pieces of `a` followed by the pieces of `b`. |
| Naming.NormalizeAppend | src/Component.php:72-78 | Normalising `prefix`, separator, `rest` gives the two normalised parts joined by one dot. |
| Naming.NormalizeSegments | src/Component.php:72-78 | If kebab adds no dots, the normalised path has one segment per segment of the dotted input. Segment i of the output is kebab of segment i of the input. |
| Naming.NormalizeIdentity | src/Component.php:72-78 | With an identity kebab, normalisation only turns separators into dots. |
| Naming.StripNamespace | src/Component.php:80-84 | When the full name starts with a non-empty namespace, it is the namespace, then one character of any kind, then the result. When the two are equal, the result is "". Otherwise the result is the full name. |
| Naming.StripIgnoresSeparator | src/Component.php:80-81 | No dot is required after the prefix. Namespace `app` turns `application.foo` into `ication.foo`. |
| Naming.GenerateName | src/Component.php:66-85 | A truthy alias is returned verbatim. Otherwise the result is a string, and the normalised class path decomposes as normalised namespace + one character + result (or the result is the whole path when the namespace is not a prefix). |
| Naming.NameInsideNamespace | src/Component.php:66-85 | A class at `namespace`, separator, `rest` with no truthy alias and a non-empty normalised namespace is named `Normalize(rest)`. |
| Naming.AliasShortCircuits | src/Component.php:68-70 | With a truthy alias, the namespace and the kebab helper have no influence on the name. |
| Naming.EmptyNamespaceKeepsFullName | src/Component.php:72-84 | The default empty namespace strips nothing. The name is the whole normalised class path. |
| Identity.SetId | src/Component.php:44-47 | `setId` stores the given value as the identifier and leaves the class and the name untouched. |
| Identity.SetName | src/Component.php:54-57 | `setName` stores the given value as the name and leaves the class and the identifier untouched. |
| Identity.IdIsLastAssigned | src/Component.php:39-52 | After any sequence of setter calls, `id()` (which delegates to `getId()`) and `getId()` both return the value most recently passed to `setId`. With no such call they return the earlier value, which is null for a fresh component. There is no error. |
| Identity.NameIsLastAssigned | src/Component.php:54-57 | After any sequence of setter calls, the stored name is the value most recently passed to `setName`. |
| Identity.ReportedName | src/Component.php:54-64 | After any setter history on a fresh component, `getName` returns the last name set if it is truthy. Otherwise it returns `generateName()`. |
| Identity.FalsyNameFallsBackToDerived | src/Component.php:59-64 | A name set to null, `""` or `"0"` still yields the derived name. |
| Resolution.Trigger | src/Component.php:107-115 | The chain completes exactly when no handler throws. Its value is the starting slot or some handler's claim. An exception comes from some handler. |
| Resolution.TriggerIsLastClaim | src/Component.php:107-115 | Overwriting the slot left to right gives the first exception if one is thrown. Otherwise it gives the last claimed value, or the starting slot when nobody claims. |
| Resolution.LastClaimWins | src/Component.php:109-115 | When handler k claims v, no later handler claims and none throws, the result is v whatever earlier handlers claimed. |
| Resolution.UnclaimedKeepsSlot | src/Component.php:107-115 | When every handler declines, the finished slot is the starting value. |
| Resolution.LateRegistrationOverrides | src/Component.php:113-115 | A handler appended to the chain overrides every earlier claim. |
| Resolution.Get | src/Component.php:105-122 | `__get` propagates the first handler exception. It throws `PropertyNotFound(property, getName())` exactly when the last claim is missing or is the string `'noneset'`. Otherwise it returns the last claimed value, null included, and never the sentinel. |
| Resolution.IsSet | src/Component.php:92-103 | `__isset` is true iff `__get` returns, and false iff `__get` throws `PropertyNotFound`. Any other exception propagates unchanged. |
| Resolution.Call | src/Component.php:124-147 | `__call` propagates a handler exception. A claimed non-sentinel value is returned without consulting macros. Otherwise it dispatches to a registered macro. Failing that it throws `BadMethodCall` with `Method <class>::<method> does not exist.` |
| Resolution.MacroAfterFailedCall | src/Component.php:136-146 | A call that failed for want of a method succeeds through the macro once one of that name is registered. Nothing is cached. |
| Resolution.SentinelClaimReadsAsMissing | src/Component.php:117-121 | A last claim of the string `'noneset'` makes `__get` throw and `__isset` return false. |
| Resolution.NullClaimIsSet | src/Component.php:92-121 | A last claim of null is returned by `__get`, and `__isset` is true. |

## Left out

- `Str::kebab` is a Laravel helper whose code is not part of this model. It is a parameter of `Naming.Config`. So the casing of concrete names (`UserIndex` to `user-index`) is not proved; `Naming.NameInsideNamespace` proves the shape of such names for any kebab helper.
- `config('livewire.class_namespace')` is read as a plain string field of `Naming.Config`. A null setting (which `str_replace` turns into "") is represented by "".
- `ComponentRegistry::getAlias` is a foreign service. It is a map from class path to value.
- `app('synthetic')->trigger` and its finisher are a foreign service. They are modelled as the ordered handler list and an identity finisher.
- A handler that calls the claim callback several times is represented by its last claim. A handler that claims and then throws is represented by its exception, since the slot is discarded.
- The component passed to handlers (`$this`) is not an explicit argument. A handler is a function and may capture it.
- Handlers are modelled as pure functions of the request. A handler's side effects on the component (calling `setName`, or changing state a later handler reads) are not represented. The name in `PropertyNotFound` is `getName()` of the component as it was before the trigger ran, whereas the source reads it after the handlers have run.
- `macroCall` (running the macro) is the Macroable trait's code. `Resolution.Call` returns the dispatch decision `MacroDispatch(name, params)` instead of the macro's result.
- `skipRender` writes to an external data store and is not modelled.
- The mixed-in feature traits (properties, events, redirects, validation, page components, back-button cache, nesting) are wiring whose code is not part of this model.
- PHP's magic-method interception is replaced by explicit `Get`, `IsSet` and `Call` functions.
- PHP floats and resources are not values of `PhpValues.Value`, and PHP arrays are modelled as lists: arrays with string keys cannot be represented.
- Naming.StripNamespace: counts characters for both `strlen` and `mb_substr`. This matches the source only for single-byte (ASCII) names, because `strlen` counts bytes.
