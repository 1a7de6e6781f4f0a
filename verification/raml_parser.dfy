/**
 * The version dispatcher with its read-through cache (`RamlParser` in
 * src/utils/raml.parser.ts). A parser instance is a value holding the cache
 * and the two per-version strategies; `Parse` returns the next instance
 * together with its result, and records which strategy calls it made.
 */
module RamlParser {
  import opened Results
  import opened Strings

  /** The two versions the strategy table has an entry for. */
  const Raml08: string := "0.8"
  const Raml10: string := "1.0"

  predicate Supported(version: string) {
    version == Raml08 || version == Raml10
  }

  /** `ParserConfig`. The declared type admits only "0.8" and "1.0", but
      nothing checks that at run time, so any string can arrive here. */
  datatype ParserConfig = ParserConfig(version: string, outputFormat: string)

  /** A `ParserStrategy`: converts a definition to an OpenAPI 2.0 string,
      or rejects with the library's error. */
  type Strategy = string -> Result<string, Error>

  /** The strategy table, one entry per supported version. */
  datatype Strategies = Strategies(raml08: Strategy, raml10: Strategy)

  type Cache = map<string, string>

  /** One call of a strategy's `parse`. */
  datatype Invocation = Invocation(version: string, definition: string)

  /** A `RamlParser` instance. */
  datatype Parser = Parser(cache: Cache, strategies: Strategies)

  /** The result of one `parse` call, the instance afterwards, and the
      strategy calls it made. */
  datatype Parsed = Parsed(result: Result<string, Error>, parser: Parser, invoked: seq<Invocation>)

  /** A fresh instance: empty cache. */
  function NewParser(strategies: Strategies): (p: Parser)
    ensures p.cache == map[] && p.strategies == strategies
  {
    Parser(map[], strategies)
  }

  /** The cache key: the version, a dash, then the definition text. For the
      supported versions, splitting the key gives back the pair. */
  function CacheKey(version: string, definition: string): (key: string)
    ensures Supported(version) ==> SplitKey(key) == Some((version, definition))
  {
    version + "-" + definition
  }

  /** Recovers (version, definition) from a key built from a supported
      version; `None` for every string that is not such a key. */
  function SplitKey(key: string): Option<(string, string)> {
    if |key| >= 4 && key[3] == '-' && Supported(key[..3]) then Some((key[..3], key[4..])) else None
  }

  /** Key construction undoes splitting: a key that splits is rebuilt exactly. */
  lemma CacheKeyOfSplit(key: string)
    requires SplitKey(key).Some?
    ensures CacheKey(SplitKey(key).value.0, SplitKey(key).value.1) == key
  {
    assert key == key[..3] + "-" + key[4..];
  }

  /** For the two supported versions, distinct (version, definition) pairs
      give distinct cache keys. */
  lemma CacheKeyInjective(v1: string, d1: string, v2: string, d2: string)
    requires Supported(v1) && Supported(v2)
    requires CacheKey(v1, d1) == CacheKey(v2, d2)
    ensures v1 == v2 && d1 == d2
  {
    assert SplitKey(CacheKey(v1, d1)) == Some((v1, d1));
    assert SplitKey(CacheKey(v2, d2)) == Some((v2, d2));
  }

  /** Outside the supported versions the key is ambiguous. */
  lemma CacheKeyAmbiguous()
    ensures CacheKey("0.8-a", "b") == CacheKey("0.8", "a-b")
  {
  }

  /** `this.strategies[config.version]`: present exactly for the two
      supported versions. */
  function StrategyFor(s: Strategies, version: string): (r: Option<Strategy>)
    ensures r.Some? <==> Supported(version)
    ensures version == Raml08 ==> r == Some(s.raml08)
    ensures version == Raml10 ==> r == Some(s.raml10)
  {
    if version == Raml08 then Some(s.raml08)
    else if version == Raml10 then Some(s.raml10)
    else None
  }

  /** The fixed opening of the unsupported-version message. */
  const UnsupportedPrefix: string := "Unsupported RAML version: "

  /** The error thrown for a version without a strategy: the fixed opening
      followed by the offending version, verbatim. */
  function UnsupportedVersion(version: string): (e: Error)
    ensures StartsWith(e.message, UnsupportedPrefix)
    ensures e.message[|UnsupportedPrefix|..] == version
  {
    Error(UnsupportedPrefix + version)
  }

  /** The version can be read back from the message. */
  lemma UnsupportedVersionInjective(v1: string, v2: string)
    requires UnsupportedVersion(v1) == UnsupportedVersion(v2)
    ensures v1 == v2
  {
    assert v1 == UnsupportedVersion(v1).message[|UnsupportedPrefix|..];
  }

  /** `RamlParser.parse`: cache lookup first, then the strategy lookup, then
      the strategy call, storing its result only when it succeeds. */
  function Parse(p: Parser, definition: string, config: ParserConfig): (out: Parsed)
    // the strategy table never changes
    ensures out.parser.strategies == p.strategies
    // cache hit: the stored string, no strategy call, cache unchanged
    ensures CacheKey(config.version, definition) in p.cache ==>
              out == Parsed(Success(p.cache[CacheKey(config.version, definition)]), p, [])
    // miss on an unsupported version: the error, no call, cache unchanged
    ensures CacheKey(config.version, definition) !in p.cache && !Supported(config.version) ==>
              out == Parsed(Failure(UnsupportedVersion(config.version)), p, [])
    // miss on a supported version: exactly one call, of that version's strategy,
    // whose settled value is returned unchanged
    ensures CacheKey(config.version, definition) !in p.cache && Supported(config.version) ==>
              && out.invoked == [Invocation(config.version, definition)]
              && (config.version == Raml08 ==> out.result == p.strategies.raml08(definition))
              && (config.version == Raml10 ==> out.result == p.strategies.raml10(definition))
    // success stores the result under the key and touches no other entry
    ensures out.result.Success? ==>
              out.parser.cache == p.cache[CacheKey(config.version, definition) := out.result.value]
    // failure adds nothing
    ensures out.result.Failure? ==> out.parser == p
  {
    var key := CacheKey(config.version, definition);
    if key in p.cache then
      Parsed(Success(p.cache[key]), p, [])
    else
      match StrategyFor(p.strategies, config.version)
      case None =>
        Parsed(Failure(UnsupportedVersion(config.version)), p, [])
      case Some(strategy) =>
        var r := strategy(definition);
        var cache := if r.Success? then p.cache[key := r.value] else p.cache;
        Parsed(r, Parser(cache, p.strategies), [Invocation(config.version, definition)])
  }

  /** `RamlParser.clearCache`: empties the cache, keeps the strategies. */
  function ClearCache(p: Parser): (q: Parser)
    ensures q.cache == map[] && q.strategies == p.strategies
  {
    Parser(map[], p.strategies)
  }

  /** Every stored key begins with "0.8-" or "1.0-". */
  ghost predicate WellKeyed(cache: Cache) {
    forall k | k in cache :: StartsWith(k, "0.8-") || StartsWith(k, "1.0-")
  }

  /** What converting (version, definition) without a cache gives. */
  function Direct(s: Strategies, version: string, definition: string): Result<string, Error>
    requires Supported(version)
  {
    StrategyFor(s, version).value(definition)
  }

  /** A stored entry is what its strategy returned for its definition. */
  ghost predicate EntryCoherent(s: Strategies, key: string, value: string) {
    SplitKey(key).Some? && Direct(s, SplitKey(key).value.0, SplitKey(key).value.1) == Success(value)
  }

  /** Every cache entry was produced by a successful strategy call for the
      (version, definition) its key names. */
  ghost predicate Coherent(p: Parser) {
    forall k | k in p.cache :: EntryCoherent(p.strategies, k, p.cache[k])
  }

  /** The base case of both invariants: a new instance and a cleared one. */
  lemma FreshParserCoherent(s: Strategies, p: Parser)
    ensures Coherent(NewParser(s)) && WellKeyed(NewParser(s).cache)
    ensures Coherent(ClearCache(p)) && WellKeyed(ClearCache(p).cache)
  {
  }

  /** A coherent cache is well keyed: a key that splits begins with its
      supported version and a dash. */
  lemma CoherentIsWellKeyed(p: Parser)
    requires Coherent(p)
    ensures WellKeyed(p.cache)
  {
    forall k | k in p.cache
      ensures StartsWith(k, "0.8-") || StartsWith(k, "1.0-")
    {
      assert EntryCoherent(p.strategies, k, p.cache[k]);
      assert k[..4] == k[..3] + "-";
    }
  }

  /** Storing only happens after a strategy was found, so every key keeps
      one of the two supported prefixes. */
  lemma ParsePreservesWellKeyed(p: Parser, definition: string, config: ParserConfig)
    requires WellKeyed(p.cache)
    ensures WellKeyed(Parse(p, definition, config).parser.cache)
  {
    var out := Parse(p, definition, config);
    var key := CacheKey(config.version, definition);
    if key !in p.cache && out.result.Success? {
      assert Supported(config.version);
      assert key == config.version + "-" + definition;
      StartsWithConcat(config.version + "-", definition);
    }
  }

  /** Parsing keeps every entry equal to its strategy's result. */
  lemma ParsePreservesCoherent(p: Parser, definition: string, config: ParserConfig)
    requires Coherent(p)
    ensures Coherent(Parse(p, definition, config).parser)
  {
    var out := Parse(p, definition, config);
    var key := CacheKey(config.version, definition);
    if key !in p.cache && out.result.Success? {
      assert SplitKey(key) == Some((config.version, definition));
    }
  }

  /** The cache is transparent for the supported versions: over a coherent
      cache, `parse` returns what the strategy alone would. */
  lemma ParseAgreesWithDirect(p: Parser, definition: string, config: ParserConfig)
    requires Coherent(p) && Supported(config.version)
    ensures Parse(p, definition, config).result == Direct(p.strategies, config.version, definition)
  {
    var key := CacheKey(config.version, definition);
    if key in p.cache {
      assert EntryCoherent(p.strategies, key, p.cache[key]);
      assert SplitKey(key) == Some((config.version, definition));
    }
  }

  /** The lookup comes before the version check: an unsupported version is
      served from the cache when its key collides with a stored one. Over a
      coherent cache, version "0.8-a" with definition "b" returns the 0.8
      conversion of "a-b" instead of failing. */
  lemma UnsupportedVersionServedFromCache(p: Parser)
    requires Coherent(p) && CacheKey("0.8", "a-b") in p.cache
    ensures !Supported("0.8-a")
    ensures Parse(p, "b", ParserConfig("0.8-a", "oas20")).result == p.strategies.raml08("a-b")
  {
    CacheKeyAmbiguous();
    var key := CacheKey("0.8", "a-b");
    assert EntryCoherent(p.strategies, key, p.cache[key]);
    assert SplitKey(key) == Some(("0.8", "a-b"));
  }

  /** Two identical calls: the second is answered from the cache with the
      same string, and the strategy runs at most once in total. */
  lemma RepeatedParseHitsCache(p: Parser, definition: string, config: ParserConfig)
    requires Parse(p, definition, config).result.Success?
    ensures var first := Parse(p, definition, config);
            var second := Parse(first.parser, definition, config);
            && second.result == first.result
            && second.parser == first.parser
            && second.invoked == []
            && |first.invoked + second.invoked| <= 1
  {
  }

  /** Failures are not cached: repeating a call whose strategy rejected
      calls the strategy again and rejects with the same error. */
  lemma FailedParseRetries(p: Parser, definition: string, config: ParserConfig)
    requires Supported(config.version)
    requires CacheKey(config.version, definition) !in p.cache
    requires Parse(p, definition, config).result.Failure?
    ensures var first := Parse(p, definition, config);
            var second := Parse(first.parser, definition, config);
            && second == first
            && second.invoked == [Invocation(config.version, definition)]
  {
  }

  /** After `clearCache`, a pair cached before invokes its strategy again. */
  lemma ClearCacheForcesReparse(p: Parser, definition: string, config: ParserConfig)
    requires Supported(config.version)
    requires CacheKey(config.version, definition) in p.cache
    ensures Parse(p, definition, config).invoked == []
    ensures Parse(ClearCache(p), definition, config).invoked == [Invocation(config.version, definition)]
  {
  }
}
