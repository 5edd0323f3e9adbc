# Level3 registries and exception handler, in Dafny

Level3 is a PHP framework for hypermedia REST APIs. Its `Level3` object keeps
two registries that shape every request:

- the **processor-wrapper registry**: middleware objects registered at an
  integer priority (LOW 10, NORMAL 20 by default, HIGH 30) and listed by
  ascending priority, each tier in registration order;
- the **format-writer registry**: response serialisers keyed by the content
  type they produce, with a default content type that the wildcard `*/*`
  resolves to. The first writer added becomes the default unless
  `setDefaultFormatWriter` overrides it.

The `ExceptionHandler` wrapper runs the rest of the request chain and turns
any `Exception` escaping it into the processor's error response. On the error
path it forwards unchanged.

Modules:

- `Options`: the optional value PHP writes as `null`.
- `PriorityTiers`: the wrapper registry as values. `Build(log)` gives the
  tiers after a sequence of registrations. `Ordered(tiers)` is the listing,
  `ksort` followed by concatenation. `Rank(log, i)` is an independent
  reference definition: the position the stable sort by priority gives
  registration `i`. The lemmas prove that the listing puts every registration
  exactly at its rank.
- `FormatWriters`: the writer registry as a value (`WriterTable`) with its
  three operations. `Run(ops)` gives the registry after a sequence of calls.
  The lemmas about it say what a lookup returns after any such sequence.
- `Framework`: the `Level3` class with the source's three mutable fields. Each
  method updates them in place and its contract ties the new state to the
  functions above. `getProcessorWrappers` and `getProcessorWrappersByClass`
  are loops, proved against `Ordered`. `getFormatWriter` is a plain getter
  (`FormatWriter`). `getFormatWriterByContentType` is the pure lookup
  `FormatWriterByContentType`, defined by `WriterTable.Lookup`.
- `ExceptionHandler`: the wrapper as functions over a call's `Outcome`: it
  returned a response, or it raised an `Exception` or an `Error`.

PHP's `!$value` test on the default content type is mirrored exactly: `null`,
`""` and `"0"` all count as no default (`FormatWriters.Unset`). A `null`
default used as an array key reads as `""` (`FormatWriters.DefaultKey`).

## Model

| member | source | states |
|---|---|---|
| Framework.Level3.ClearProcessWrappers | src/Level3/Level3.php:70-73 | the registry is empty, the `Build` of no registrations, and its listing is `[]`; the writer registry is untouched; a second clear leaves the same state |
| Framework.Level3.AddProcessorWrapper | src/Level3/Level3.php:75-79 | the wrapper is appended to the tier of `priority` (NORMAL, 20, when omitted), creating the tier if new, so a registry built from a log of registrations is built from that log extended by this one; the wrapper's back-reference is this framework; nothing else changes |
| Framework.Level3.ProcessorWrappers | src/Level3/Level3.php:81-91 | the loop over the ascending keys returns exactly `Ordered(wrappers)`, the tiers concatenated in ascending priority order |
| Framework.Level3.ProcessorWrappersByClass | src/Level3/Level3.php:93-100 | returns None exactly when no listed wrapper is of the kind (so always on an empty registry); otherwise returns the first listed wrapper of that kind |
| Framework.Level3.AddFormatWriter | src/Level3/Level3.php:102-110 | the writer registry becomes `WriterTable.Add` of the old one; the wrapper registry is untouched |
| Framework.Level3.SetDefaultFormatWriter | src/Level3/Level3.php:130-133 | the writer registry becomes `WriterTable.SetDefault` of the old one; the wrapper registry is untouched |
| PriorityTiers.BuildSnoc | src/Level3/Level3.php:77 | one more registration appends its wrapper to the end of its tier and leaves the other tiers alone |
| PriorityTiers.SortedKeys | src/Level3/Level3.php:85 | the keys in strictly ascending order, with no key missing or added |
| PriorityTiers.BuildIsTiers | src/Level3/Level3.php:75-77 | after any registration sequence, priority `p` is a key iff something was registered at `p`, and its tier is exactly those wrappers in registration order |
| PriorityTiers.ListingLength | src/Level3/Level3.php:81-91 | the listing has one entry per registration since the last clear: none dropped, none added, duplicates kept |
| PriorityTiers.ListingPlacement | src/Level3/Level3.php:81-91 | registration `i` is listed at position `Rank(log, i)`: after all registrations of lower priority and after the earlier ones of its own priority |
| PriorityTiers.RankOrder | src/Level3/Level3.php:85-88 | a lower priority is listed first whatever the registration order; within a tier, registration order is kept |
| PriorityTiers.RankIsBijection | src/Level3/Level3.php:81-91 | distinct registrations take distinct positions of the listing, so the listing is a permutation of the registrations |
| Framework.Level3.FormatWriterByContentType | src/Level3/Level3.php:117-128 | on the framework's fields, as `WriterTable.Lookup`: a concrete type gives its stored writer or None; the wildcard gives the writer stored under the default type (a null default read as `""`) or None |
| Framework.Level3.FormatWriterHoldsLastAdded | src/Level3/Level3.php:112-115 | what `getFormatWriter` returns after any call sequence: a content type is a key iff a writer was added for it, and it maps to the writer added last for it |
| FormatWriters.WriterTable.Add | src/Level3/Level3.php:102-110 | the writer is stored under its content type, replacing an earlier one; other types keep their writers; the default becomes this type only when no default was set |
| FormatWriters.WriterTable.SetDefault | src/Level3/Level3.php:130-133 | only the default changes, whether or not a writer is registered for it |
| FormatWriters.WriterTable.Lookup | src/Level3/Level3.php:117-128 | a concrete type gives its registered writer, or None when it has none; the wildcard gives the writer stored under the default type (a null default read as `""`), or None; the result is always a registered writer |
| FormatWriters.StoredIsLastAdded | src/Level3/Level3.php:109 | after any call sequence, a content type holds the writer added last for it, and it holds one iff a writer was added for it |
| FormatWriters.ResolveConcrete | src/Level3/Level3.php:123-127 | a lookup of a concrete type returns the writer added last for it, or None |
| FormatWriters.ResolveWildcard | src/Level3/Level3.php:119-121 | a wildcard lookup returns the writer added last for the current default type |
| FormatWriters.DefaultSticks | src/Level3/Level3.php:105-107 | once the default is set, adding writers does not change it |
| FormatWriters.FirstAddedIsDefault | src/Level3/Level3.php:102-110 | when only writers are added, the first one's type (if not falsy) is the default and the wildcard resolves to the writer added last for it |
| FormatWriters.SetDefaultPersists | src/Level3/Level3.php:130-133 | after `setDefaultFormatWriter(ct)` with `ct` other than `""` and `"0"`, and any later additions, `ct` stays the default and the wildcard resolves to the writer added last for `ct` |
| ExceptionHandler.ErrorPathVsDispatch | src/Level3/Processor/Wrapper/ExceptionHandler.php:17-28 | the error path forwards the continuation's outcome on the same request unchanged, so it agrees with dispatch on every outcome except a thrown `Exception`, which it lets through and only dispatch catches |
| ExceptionHandler.ProcessRequest | src/Level3/Processor/Wrapper/ExceptionHandler.php:22-29 | a returned response comes back unchanged; a thrown `Exception` becomes the processor's `error(request, exception)`; a thrown `Error` propagates |
| ExceptionHandler.NoExceptionEscapes | src/Level3/Processor/Wrapper/ExceptionHandler.php:24-28 | when the processor's `error` always returns, no `Exception` escapes dispatch: the outcome is a response, or an `Error` the continuation threw |
| ExceptionHandler.MethodIgnored | src/Level3/Processor/Wrapper/ExceptionHandler.php:22-25 | the verb name passed to dispatch does not change its outcome |

## Left out

- Constructor wiring and forwarding getters (`setLevel3` on the processor and hub, `getHub`, `getMapper`, `getProcessor`, `getRepository`, `getURI`, `boot`, Level3.php:25-68 and 135-138): they only forward to Mapper, Hub and Processor, which are not part of this model.
- The debug flag (Level3.php:35-43): a plain setter and getter.
- `MalformedCredentials`: it only fixes HTTP status 400 in a constructor, and the outcome datatype here does not carry status codes.
- The IP firewall and `AccessorWrapper`: their implementations are not part of this model.
- The base `Wrapper` class that dispatches verbs to `processRequest`, and the continuation fold in `Processor`: not part of this model. Wrappers are objects with only their kinds and back-reference modelled.
- Writers' serialisation, HTTP requests and responses, and status constants: foreign libraries. A writer is modelled by its content type only.
- Framework.Level3.ProcessorWrappersByClass: PHP `instanceof` is modelled as membership of the kind in the wrapper's `kinds` set (its class with every ancestor class and interface); reflection itself is not modelled.
- Framework.Level3.ProcessorWrappers: `ksort` reorders the keys of the PHP array in place. A Dafny map has no key order, so the model sorts the keys into a sequence instead (`SortedKeys`); the stored tiers are the same either way.
- ExceptionHandler.ProcessRequest: that the continuation runs exactly once is captured only by modelling it as one application of a pure function; side effects of the continuation are not modelled.
- ExceptionHandler.ProcessRequest: the processor is reached through the wrapper's back-reference. The case where no framework is bound (a call on `null` in PHP) is not modelled.
