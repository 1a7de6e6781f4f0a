# RAML definition widget: conversion core in Dafny

This project models the decision logic of a Backstage API-docs plugin that
shows RAML definitions. The plugin converts a RAML definition to OpenAPI 2.0
and hands the result to the host's OpenAPI widget. Three pieces are modelled.
Each is a set of pure functions over immutable values.

- **Version dispatcher with read-through cache** (`RamlParser`,
  `raml_parser.dfy`). A parser instance is a `Parser(cache, strategies)`
  value. `Parse` returns the result, the next instance, and the strategy
  calls it made. The cache is a `map<string, string>`. Each per-version
  strategy is a function value returning `Success(openApi)` or
  `Failure(error)`. The library is not modelled beyond that.
- **Widget-list augmentation** (`WidgetUtils` in `widget_utils.dfy` and
  `AddRamlWidget` in `add_raml_widget.dfy`). These model `byType`,
  `createRamlWidget` and `addRamlDefinitionWidget`. A widget's `component` is
  an opaque `Component` value. The RAML widget's component is
  `RamlDefinition(c)`, which delegates to the OpenAPI component `c`.
- **Conversion hook** (`RamlToOpenApi`, `raml_to_openapi.dfy`). This models
  `useRamlToOpenApi`. The hook picks a grammar from the `"#%RAML 0.8"`
  prefix. It runs the library's parser and then its OAS 2.0 generator. Its
  state is `{data, isLoading, error?}`: it starts in Loading and settles in
  Success or Failed. The library is a `WebApiParser` value with three
  function-valued fields.

`Results` holds the shared `Option`, `Result` and JavaScript `Error`
datatypes. `Strings` holds `StartsWith`.

Some properties are worth reading first:

- **Key injectivity.** The cache key is `version + "-" + definition`. For
  the two supported versions, a key splits back into its pair
  (`CacheKey`, `CacheKeyOfSplit`), so the key is injective there.
  Outside them it is not: `CacheKey("0.8-a", "b") == CacheKey("0.8", "a-b")`.
- **Cache lookup happens before the version check.** So an unsupported
  version whose key collides with a stored one is answered from the cache
  instead of failing (`UnsupportedVersionServedFromCache`). The declared type
  of `ParserConfig.version` rules such versions out, so for well-typed
  callers this collision cannot arise; the lemma records how the code
  behaves.
- **Caching is transparent for the supported versions.** `Coherent` says
  every entry equals its strategy's result for the pair its key names.
  A new or cleared parser is coherent, `Parse` preserves `Coherent`, and a
  coherent cache has only keys beginning with "0.8-" or "1.0-". Over a coherent cache, `Parse` returns what
  the strategy alone returns (`ParseAgreesWithDirect`).
- **`addRamlDefinitionWidget` is not idempotent.** A second application
  finds the same first OpenAPI widget and appends a second, identical RAML
  widget (`AddTwiceAppendsTwice`).

Four more behaviours of the code are worth stating:

- The hook calls the library directly. It does not go through `RamlParser`,
  so it uses no cache.
- The hook's initial state is Loading for every definition, `""` included.
  One unit test expects `""` not to be loading.
- `addRamlDefinitionWidget` builds the RAML descriptor inline rather than
  calling `createRamlWidget`. One unit test expects the call.
  `AppendedIsCreateRamlWidget` proves the two descriptors are equal.
- The component ignores `error`, and the cancellation flag is never set
  (see Left out).

## Model

| member | source | states |
|---|---|---|
| RamlParser.NewParser | src/utils/raml.parser.ts:18-22 | A new instance starts with an empty cache and holds the given 0.8 and 1.0 strategies |
| RamlParser.CacheKey | src/utils/raml.parser.ts:33 | For versions "0.8" and "1.0", the key `version-definition` splits back into exactly that version and definition |
| RamlParser.CacheKeyOfSplit | src/utils/raml.parser.ts:33 | Any string that splits as a supported key is rebuilt exactly by key construction |
| RamlParser.CacheKeyInjective | src/utils/raml.parser.ts:33 | For the supported versions, equal cache keys imply equal versions and equal definitions |
| RamlParser.CacheKeyAmbiguous | src/utils/raml.parser.ts:33 | Outside the supported versions, two different pairs can share a key |
| RamlParser.StrategyFor | src/utils/raml.parser.ts:19-22 | The strategy table has an entry exactly for "0.8" and "1.0", and those entries are the 0.8 and 1.0 strategies |
| RamlParser.UnsupportedVersion | src/utils/raml.parser.ts:40 | The message is "Unsupported RAML version: " followed by the offending version, verbatim |
| RamlParser.UnsupportedVersionInjective | src/utils/raml.parser.ts:40 | Different versions give different unsupported-version errors, so the version is recoverable from the message |
| RamlParser.Parse | src/utils/raml.parser.ts:32-46 | A hit returns the stored string with no strategy call and no cache change. A miss on an unsupported version fails with "Unsupported RAML version: " + version and changes nothing. A miss on a supported version calls exactly that version's strategy once and returns its result. Success stores the result under the key and changes no other entry. Failure stores nothing |
| RamlParser.ClearCache | src/utils/raml.parser.ts:51-53 | Afterwards the cache is empty and the strategies are the same |
| RamlParser.ClearCacheForcesReparse | src/utils/raml.parser.ts:51-53 | A pair that was cached needs no strategy call before the cache is cleared, and calls its strategy again after |
| RamlParser.FreshParserCoherent | src/utils/raml.parser.ts:18-22 | A new parser and a cleared parser both satisfy the coherence and key-prefix invariants |
| RamlParser.CoherentIsWellKeyed | src/utils/raml.parser.ts:33-44 | Every key of a coherent cache begins with "0.8-" or "1.0-" |
| RamlParser.ParsePreservesWellKeyed | src/utils/raml.parser.ts:38-45 | If every stored key begins with "0.8-" or "1.0-", that still holds after any parse, since storing only follows a successful strategy lookup |
| RamlParser.ParsePreservesCoherent | src/utils/raml.parser.ts:43-45 | If every entry equals its strategy's result for the pair its key names, that still holds after any parse |
| RamlParser.ParseAgreesWithDirect | src/utils/raml.parser.ts:33-45 | Over a coherent cache with a supported version, parse returns the same result as calling the version's strategy directly |
| RamlParser.UnsupportedVersionServedFromCache | src/utils/raml.parser.ts:33-41 | The lookup happens before the version check: version "0.8-a" with definition "b" returns the cached 0.8 conversion of "a-b" instead of failing |
| RamlParser.RepeatedParseHitsCache | src/utils/raml.parser.ts:34-36 | After a successful parse, the same call again returns the same string from the cache, and the strategy runs at most once across both calls |
| RamlParser.FailedParseRetries | src/utils/raml.parser.ts:43-45 | A rejected strategy call is not cached: repeating the call invokes the strategy again and gives the same rejection |
| WidgetUtils.ByType | src/utils/widget-utils.tsx:10-12 | The filter accepts a widget exactly when its type equals the given type |
| WidgetUtils.RamlComponent | src/utils/widget-utils.tsx:25-30 | Rendering the RAML component with a definition gives a RamlDefinitionWidget element with the OpenAPI component and that same definition |
| WidgetUtils.CreateRamlWidget | src/utils/widget-utils.tsx:19-31 | The widget has the RAML type and title, and its component delegates to the argument's component with the definition passed through |
| WidgetUtils.CreateRamlWidgetUsesOnlyComponent | src/utils/widget-utils.tsx:19-31 | Two arguments give the same widget exactly when their components are equal; type and title play no part |
| AddRamlWidget.FindIndex | src/addRamlDefinitionWidget.tsx:40 | The index returned is the first element the predicate accepts. None means no element is accepted |
| AddRamlWidget.Find | src/addRamlDefinitionWidget.tsx:40 | `find` returns undefined exactly when no element matches. Otherwise it returns an element that matches with no earlier match |
| AddRamlWidget.FindIndexAppend | src/addRamlDefinitionWidget.tsx:40 | Appending elements after a list with a match does not change the first match |
| AddRamlWidget.AddRamlDefinitionWidget | src/addRamlDefinitionWidget.tsx:30-64 | A non-array gives []. With no OpenAPI-typed widget, including the empty list, the input comes back unchanged. Otherwise the result is the input in order plus one widget with RAML type and title, whose component delegates to the first OpenAPI widget's component |
| AddRamlWidget.AppendedIsCreateRamlWidget | src/addRamlDefinitionWidget.tsx:54-63 | The descriptor appended inline equals what `createRamlWidget` builds from the first OpenAPI widget |
| AddRamlWidget.AddTwiceAppendsTwice | src/addRamlDefinitionWidget.tsx:40-63 | Applying the augmentation to its own output appends a second copy of the same RAML widget |
| RamlToOpenApi.SelectGrammar | src/hooks/useRamlToOpenApi.tsx:24-26 | The 0.8 parser is chosen exactly when the definition starts with "#%RAML 0.8"; every other string goes to 1.0 |
| RamlToOpenApi.ParserFor | src/hooks/useRamlToOpenApi.tsx:24-26 | The 0.8 grammar selects the library's 0.8 parser and the 1.0 grammar its 1.0 parser |
| RamlToOpenApi.Convert | src/hooks/useRamlToOpenApi.tsx:28-30 | If the chosen parser rejects, its error is the result. Otherwise the result is the OAS 2.0 generator applied to the parsed model |
| RamlToOpenApi.Initial | src/hooks/useRamlToOpenApi.tsx:11-18 | The initial state is loading, has empty data and has no error |
| RamlToOpenApi.Settle | src/hooks/useRamlToOpenApi.tsx:32-38 | A settled state is not loading. Success puts the generated string in data with no error. Failure leaves data empty with the thrown error |
| RamlToOpenApi.ObserveSettle | src/hooks/useRamlToOpenApi.tsx:32-38 | The conversion result can be read back exactly from the state it leaves |
| RamlToOpenApi.SettleOfObserve | src/hooks/useRamlToOpenApi.tsx:32-38 | Every consistent non-loading state is the state some conversion result leaves |
| RamlToOpenApi.UseRamlToOpenApi | src/hooks/useRamlToOpenApi.tsx:20-39 | After the effect completes, the state is settled and consistent. The error is absent exactly when the conversion succeeded. data is the generated document on success and "" on failure |
| RamlToOpenApi.Raml08DocumentConverts | src/hooks/useRamlToOpenApi.tsx:24-34 | "#%RAML 0.8\ntitle: Test API" goes through the 0.8 parser and the generator, and ends in the Success state with the generated string |
| RamlToOpenApi.EmptyDefinitionUsesRaml10 | src/hooks/useRamlToOpenApi.tsx:24-38 | The empty definition goes to the 1.0 parser, and a rejection there ends in the Failed state with that error |

## Left out

- Promises and timing. Each strategy call and each library call is modelled as one settled `Result`. `async`/`await` ordering is not modelled.
- Concurrent identical requests in `RamlParser`. Two overlapping calls can both invoke a strategy. The model treats calls one at a time.
- Cancellation in the hook. The `cancelled` flag is never set, because the cleanup is returned from the inner async function and not from the effect. The state is also not reset to Loading when the definition changes. So the model treats each conversion as one atomic transition and claims no suppression of stale results.
- Rendering. `RamlDefinitionWidget` (both copies), `Progress`, JSX and the host's renderer are UI. A component is an opaque value, and `Render` only records which element a call would build.
- The library wrappers `Raml08Parser` and `Raml10Parser`. They call the external `webapi-parser` library. They appear only as the function-valued fields of `Strategies`. The library itself appears only as the fields of `WebApiParser`.
- The widget constants. Their module is not part of this model. `OpenApiWidgetType`, `RamlWidgetType` and `RamlWidgetTitle` are constants with no stated value, and nothing is assumed about their equality.
- The local `byType` in src/addRamlDefinitionWidget.tsx:14-16. It is the same function as the one in src/utils/widget-utils.tsx, so `WidgetUtils.ByType` stands for both.
- Reference identity. "Returns the same array" becomes value equality. Immutability of the input is automatic for sequence values.
- Array elements that are not objects (`null` entries, for example, would throw on `widget.type`).
- Strategy lookup through inherited object properties. A version such as "constructor" finds a prototype member and throws a `TypeError` instead of "Unsupported RAML version". Here every version other than "0.8" and "1.0" has no strategy.
- `outputFormat`. It is carried in `ParserConfig` but, as in the code, plays no part in the key or the dispatch.
- Anything thrown by non-string definitions. The hook's `catch` would turn these into the Failed state; definitions here are strings.
- Test-runner configuration and the coverage-badge script (file I/O and shell calls).
