/**
 * The conversion hook `useRamlToOpenApi` of src/hooks/useRamlToOpenApi.tsx.
 * It calls the parsing library directly (not `RamlParser`, so no cache is
 * involved) and exposes a `{data, isLoading, error?}` state that starts in
 * Loading and moves to Success or Failed when the conversion settles.
 */
module RamlToOpenApi {
  import opened Results
  import opened Strings

  /** The library's in-memory API model, an opaque handle. */
  datatype ApiModel = ApiModel(handle: nat)

  /** The three entry points of the external parsing library, each a
      promise that resolves or rejects. */
  datatype WebApiParser = WebApiParser(
    raml08: string -> Result<ApiModel, Error>,
    raml10: string -> Result<ApiModel, Error>,
    oas20: ApiModel -> Result<string, Error>)

  /** The leading marker of a RAML 0.8 document. */
  const Raml08Marker: string := "#%RAML 0.8"

  /** Which grammar the hook parses with. */
  datatype Grammar = Raml08Grammar | Raml10Grammar

  /** A definition starting with the 0.8 marker is read as 0.8; every other
      string, the empty one included, as 1.0. */
  function SelectGrammar(definition: string): (g: Grammar)
    ensures g == Raml08Grammar <==> StartsWith(definition, Raml08Marker)
  {
    if StartsWith(definition, Raml08Marker) then Raml08Grammar else Raml10Grammar
  }

  /** The library parser for a grammar. */
  function ParserFor(lib: WebApiParser, g: Grammar): (parse: string -> Result<ApiModel, Error>)
    ensures g == Raml08Grammar ==> parse == lib.raml08
    ensures g == Raml10Grammar ==> parse == lib.raml10
  {
    match g
    case Raml08Grammar => lib.raml08
    case Raml10Grammar => lib.raml10
  }

  /** Parses with the selected grammar, then hands the model to the OAS 2.0
      generator; a rejection of either step settles the whole chain with that
      error. */
  function Convert(lib: WebApiParser, definition: string): (r: Result<string, Error>)
    ensures ParserFor(lib, SelectGrammar(definition))(definition).Failure? ==>
              r == Failure(ParserFor(lib, SelectGrammar(definition))(definition).error)
    ensures ParserFor(lib, SelectGrammar(definition))(definition).Success? ==>
              r == lib.oas20(ParserFor(lib, SelectGrammar(definition))(definition).value)
  {
    match ParserFor(lib, SelectGrammar(definition))(definition)
    case Failure(e) => Failure(e)
    case Success(model) => lib.oas20(model)
  }

  /** `HookResponse<string>`. */
  datatype HookResponse = HookResponse(data: string, isLoading: bool, error: Option<Error>)

  /** The observable invariant: a loading state carries neither data nor an
      error, and a state with an error is settled and carries no data. */
  predicate Consistent(s: HookResponse) {
    && (s.isLoading ==> s.data == "" && s.error.None?)
    && (s.error.Some? ==> s.data == "" && !s.isLoading)
  }

  /** The state before the conversion settles, whatever the definition. */
  function Initial(): (s: HookResponse)
    ensures s.isLoading && s.data == "" && s.error.None?
    ensures Consistent(s)
  {
    HookResponse("", true, None)
  }

  /** The `setState` a settled conversion performs. It replaces the whole
      state, so the previous state plays no part. */
  function Settle(r: Result<string, Error>): (s: HookResponse)
    ensures !s.isLoading && Consistent(s)
    ensures r.Success? ==> s.data == r.value && s.error.None?
    ensures r.Failure? ==> s.data == "" && s.error == Some(r.error)
  {
    match r
    case Success(openApiDef) => HookResponse(openApiDef, false, None)
    case Failure(e) => HookResponse("", false, Some(e))
  }

  /** Reads the settled conversion back from a state; `None` while loading. */
  function Observe(s: HookResponse): Option<Result<string, Error>> {
    if s.isLoading then None
    else match s.error
      case Some(e) => Some(Failure(e))
      case None => Some(Success(s.data))
  }

  /** A settled state records the conversion result exactly. */
  lemma ObserveSettle(r: Result<string, Error>)
    ensures Observe(Settle(r)) == Some(r)
  {
  }

  /** Every consistent settled state is what some conversion result leaves. */
  lemma SettleOfObserve(s: HookResponse)
    requires Consistent(s) && !s.isLoading
    ensures Observe(s).Some? && Settle(Observe(s).value) == s
  {
  }

  /** The state once the effect for `definition` has run to completion:
      Success with the generated document, or Failed with the error. */
  function UseRamlToOpenApi(lib: WebApiParser, definition: string): (s: HookResponse)
    ensures Consistent(s) && !s.isLoading
    ensures s.error.None? <==> Convert(lib, definition).Success?
    ensures Convert(lib, definition).Success? ==> s.data == Convert(lib, definition).value
    ensures Convert(lib, definition).Failure? ==> s.data == "" && s.error == Some(Convert(lib, definition).error)
  {
    Settle(Convert(lib, definition))
  }

  /** A 0.8 document goes through the 0.8 parser and the generator. */
  lemma Raml08DocumentConverts(lib: WebApiParser, model: ApiModel, openApiDef: string)
    requires lib.raml08("#%RAML 0.8\ntitle: Test API") == Success(model)
    requires lib.oas20(model) == Success(openApiDef)
    ensures UseRamlToOpenApi(lib, "#%RAML 0.8\ntitle: Test API") == HookResponse(openApiDef, false, None)
  {
    var definition := "#%RAML 0.8\ntitle: Test API";
    assert definition[..|Raml08Marker|] == Raml08Marker;
    assert SelectGrammar(definition) == Raml08Grammar;
  }

  /** The empty definition has no 0.8 marker and goes to the 1.0 parser;
      a rejection there leaves the Failed state. */
  lemma EmptyDefinitionUsesRaml10(lib: WebApiParser, e: Error)
    requires lib.raml10("") == Failure(e)
    ensures SelectGrammar("") == Raml10Grammar
    ensures UseRamlToOpenApi(lib, "") == HookResponse("", false, Some(e))
  {
  }
}
