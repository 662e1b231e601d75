/** The URL builders for OpenAI-compatible and Ollama endpoints. */
module EndpointUrl {
  import opened Text

  const V1 := "/v1"
  const EMBEDDINGS := "/embeddings"
  const CHAT := "/chat/completions"
  const MODELS := "/models"

  predicate EndsWith(s: string, suffix: string) {
    |suffix| <= |s| && s[|s| - |suffix|..] == suffix
  }

  /** `trim_end_matches`: every occurrence of the suffix at the end is removed. */
  function TrimEndMatches(s: string, suffix: string): string
    requires suffix != ""
  {
    if EndsWith(s, suffix) then TrimEndMatches(s[..|s| - |suffix|], suffix) else s
  }

  function StripSuffix(s: string, suffix: string): Option<string> {
    if EndsWith(s, suffix) then Some(s[..|s| - |suffix|]) else None
  }

  function OpenAiModelsUrl(endpoint: string): string {
    var trimmed := TrimEndMatches(endpoint, "/");
    if EndsWith(trimmed, V1) then trimmed + MODELS
    else if EndsWith(trimmed, V1 + EMBEDDINGS) then TrimEndMatches(trimmed, EMBEDDINGS) + MODELS
    else if EndsWith(trimmed, V1 + CHAT) then TrimEndMatches(trimmed, CHAT) + MODELS
    else trimmed + V1 + MODELS
  }

  function OpenAiEmbeddingsUrl(endpoint: string): string {
    var trimmed := TrimEndMatches(endpoint, "/");
    if EndsWith(trimmed, V1 + EMBEDDINGS) then trimmed
    else if EndsWith(trimmed, V1) then trimmed + EMBEDDINGS
    else if EndsWith(trimmed, V1 + CHAT) then TrimEndMatches(trimmed, CHAT) + EMBEDDINGS
    else trimmed + V1 + EMBEDDINGS
  }

  function OpenAiChatCompletionsUrl(endpoint: string): string {
    var trimmed := TrimEndMatches(endpoint, "/");
    if EndsWith(trimmed, V1 + CHAT) then trimmed
    else if EndsWith(trimmed, V1) then trimmed + CHAT
    else if EndsWith(trimmed, V1 + EMBEDDINGS) then TrimEndMatches(trimmed, EMBEDDINGS) + CHAT
    else trimmed + V1 + CHAT
  }

  function OllamaTagsUrl(endpoint: string): string {
    var trimmed := TrimEndMatches(endpoint, "/");
    var base := match StripSuffix(trimmed, V1)
      case Some(b) => b
      case None => StripSuffix(trimmed, V1 + CHAT).GetOr(trimmed);
    base + "/api/tags"
  }

  // ---------------------------------------------------------------------------------------------
  // The common base
  // ---------------------------------------------------------------------------------------------

  /** What stands before "/v1" in an endpoint of one of the known shapes, or all of it. */
  function Host(endpoint: string): string {
    var trimmed := TrimEndMatches(endpoint, "/");
    if EndsWith(trimmed, V1) then trimmed[..|trimmed| - 3]
    else if EndsWith(trimmed, V1 + EMBEDDINGS) then trimmed[..|trimmed| - 14]
    else if EndsWith(trimmed, V1 + CHAT) then trimmed[..|trimmed| - 20]
    else trimmed
  }

  datatype Builder = Chat | Embeddings | Models

  function Suffix(b: Builder): string {
    match b
    case Chat => CHAT
    case Embeddings => EMBEDDINGS
    case Models => MODELS
  }

  function Build(b: Builder, endpoint: string): string {
    match b
    case Chat => OpenAiChatCompletionsUrl(endpoint)
    case Embeddings => OpenAiEmbeddingsUrl(endpoint)
    case Models => OpenAiModelsUrl(endpoint)
  }

  lemma TrimOne(s: string, suffix: string)
    requires suffix != "" && !EndsWith(s, suffix)
    ensures TrimEndMatches(s + suffix, suffix) == s
  {
    assert (s + suffix)[..|s|] == s;
    assert (s + suffix)[|s|..] == suffix;
    assert TrimEndMatches(s + suffix, suffix) == TrimEndMatches(s, suffix);
  }

  lemma LastCharacters(s: string)
    ensures EndsWith(s, V1) ==> s != "" && s[|s| - 1] == '1'
    ensures EndsWith(s, V1 + EMBEDDINGS) || EndsWith(s, EMBEDDINGS) ==>
      |s| > 1 && s[|s| - 1] == 's' && s[|s| - 2] == 'g'
    ensures EndsWith(s, V1 + CHAT) || EndsWith(s, CHAT) ==> |s| > 1 && s[|s| - 1] == 's' && s[|s| - 2] == 'n'
    ensures EndsWith(s, "/") ==> s != "" && s[|s| - 1] == '/'
    ensures EndsWith(s, V1 + MODELS) || EndsWith(s, MODELS) ==> |s| > 1 && s[|s| - 1] == 's' && s[|s| - 2] == 'l'
  {
    EndsWithLast(s, V1);
    EndsWithLast(s, V1 + EMBEDDINGS);
    EndsWithLast(s, EMBEDDINGS);
    EndsWithLast(s, V1 + CHAT);
    EndsWithLast(s, CHAT);
    EndsWithLast(s, V1 + MODELS);
    EndsWithLast(s, MODELS);
    EndsWithLast(s, "/");
  }

  lemma EndsWithLast(s: string, suffix: string)
    requires suffix != ""
    ensures EndsWith(s, suffix) ==> s != "" && s[|s| - 1] == suffix[|suffix| - 1]
    ensures EndsWith(s, suffix) && |suffix| > 1 ==> |s| > 1 && s[|s| - 2] == suffix[|suffix| - 2]
  {
    if EndsWith(s, suffix) {
      assert s[|s| - 1] == s[|s| - |suffix|..][|suffix| - 1];
      if |suffix| > 1 {
        assert s[|s| - 2] == s[|s| - |suffix|..][|suffix| - 2];
      }
    }
  }

  lemma EndsWithParts(h: string, suffix: string)
    ensures EndsWith(h + suffix, suffix) && (h + suffix)[..|h|] == h
  {
  }

  lemma SplitSuffix(s: string, suffix: string)
    requires EndsWith(s, V1 + suffix)
    ensures s[..|s| - |suffix|] + suffix == s && EndsWith(s[..|s| - |suffix|], V1)
    ensures s[..|s| - 3 - |suffix|] + V1 == s[..|s| - |suffix|]
  {
    var tail := s[|s| - |suffix| - 3..];
    assert tail[..3] == V1 && tail[3..] == suffix;
    assert s[|s| - |suffix|..] == tail[3..];
    assert s[|s| - |suffix| - 3..|s| - |suffix|] == tail[..3];
  }

  /** Removing a known path repeatedly removes it once: what is left ends in "/v1". */
  lemma DropPath(s: string, suffix: string)
    requires (suffix == EMBEDDINGS || suffix == CHAT) && EndsWith(s, V1 + suffix)
    ensures TrimEndMatches(s, suffix) == s[..|s| - 3 - |suffix|] + V1
  {
    SplitSuffix(s, suffix);
    var rest := s[..|s| - |suffix|];
    LastCharacters(rest);
    TrimOne(rest, suffix);
  }

  /** Every builder puts its path after the one base of the endpoint. */
  lemma BuildFromHost(b: Builder, endpoint: string)
    ensures Build(b, endpoint) == Host(endpoint) + V1 + Suffix(b)
  {
    var trimmed := TrimEndMatches(endpoint, "/");
    LastCharacters(trimmed);
    if EndsWith(trimmed, V1) {
      assert trimmed[..|trimmed| - 3] + V1 == trimmed;
    } else if EndsWith(trimmed, V1 + EMBEDDINGS) {
      BuildFromEmbeddings(b, endpoint, trimmed);
    } else if EndsWith(trimmed, V1 + CHAT) {
      BuildFromChat(b, endpoint, trimmed);
    }
  }

  lemma BuildFromEmbeddings(b: Builder, endpoint: string, trimmed: string)
    requires trimmed == TrimEndMatches(endpoint, "/") && EndsWith(trimmed, V1 + EMBEDDINGS)
    ensures Build(b, endpoint) == Host(endpoint) + V1 + Suffix(b)
  {
    LastCharacters(trimmed);
    SplitSuffix(trimmed, EMBEDDINGS);
    DropPath(trimmed, EMBEDDINGS);
  }

  lemma BuildFromChat(b: Builder, endpoint: string, trimmed: string)
    requires trimmed == TrimEndMatches(endpoint, "/") && EndsWith(trimmed, V1 + CHAT)
    ensures Build(b, endpoint) == Host(endpoint) + V1 + Suffix(b)
  {
    LastCharacters(trimmed);
    SplitSuffix(trimmed, CHAT);
    DropPath(trimmed, CHAT);
  }

  /** A built chat or embeddings URL has the host it was built from; a built models URL is taken
      as a host of its own. */
  lemma HostOfBuilt(b: Builder, endpoint: string)
    ensures Host(Build(b, endpoint)) == if b == Models then Build(b, endpoint) else Host(endpoint)
  {
    var h := Host(endpoint);
    BuildFromHost(b, endpoint);
    var s := h + V1 + Suffix(b);
    ConcatAssociative(h, V1, Suffix(b));
    EndsWithParts(h + V1, Suffix(b));
    EndsWithParts(h, V1 + Suffix(b));
    LastCharacters(s);
  }

  // ---------------------------------------------------------------------------------------------
  // Compositions
  // ---------------------------------------------------------------------------------------------

  function Chain(builders: seq<Builder>, endpoint: string): string {
    if builders == [] then endpoint else Chain(builders[1..], Build(builders[0], endpoint))
  }

  lemma {:induction false} HostOfChain(builders: seq<Builder>, endpoint: string)
    ensures Models !in builders ==> Host(Chain(builders, endpoint)) == Host(endpoint)
    ensures Models in builders ==> |Host(Chain(builders, endpoint))| > |Host(endpoint)|
    ensures |Host(Chain(builders, endpoint))| >= |Host(endpoint)|
  {
    if builders != [] {
      HostGrows(builders[0], endpoint);
      HostOfChain(builders[1..], Build(builders[0], endpoint));
      assert builders == [builders[0]] + builders[1..];
    }
  }

  lemma HostGrows(b: Builder, endpoint: string)
    ensures b != Models ==> Host(Build(b, endpoint)) == Host(endpoint)
    ensures b == Models ==> |Host(Build(b, endpoint))| > |Host(endpoint)|
  {
    HostOfBuilt(b, endpoint);
    BuildFromHost(b, endpoint);
  }

  /** A builder after a chain of builders gives what it gives alone exactly when the chain does
      not contain the models builder. */
  lemma LastBuilderDecides(builders: seq<Builder>, last: Builder, endpoint: string)
    ensures Build(last, Chain(builders, endpoint)) == Build(last, endpoint) <==> Models !in builders
  {
    HostOfChain(builders, endpoint);
    BuildFromHost(last, endpoint);
    BuildFromHost(last, Chain(builders, endpoint));
  }

  /** The Ollama tags builder agrees with a chat URL built from the same endpoint, except that it
      does not know the embeddings shape. */
  lemma TagsOfChat(endpoint: string)
    ensures OllamaTagsUrl(OpenAiChatCompletionsUrl(endpoint)) == Host(endpoint) + "/api/tags"
    ensures OllamaTagsUrl(OpenAiChatCompletionsUrl(endpoint)) == OllamaTagsUrl(endpoint)
      <==> !EndsWith(TrimEndMatches(endpoint, "/"), V1 + EMBEDDINGS)
  {
    var h := Host(endpoint);
    BuildFromHost(Chat, endpoint);
    ConcatAssociative(h, V1, CHAT);
    var s := h + (V1 + CHAT);
    EndsWithParts(h, V1 + CHAT);
    LastCharacters(s);
    var trimmed := TrimEndMatches(endpoint, "/");
    LastCharacters(trimmed);
  }

  // ---------------------------------------------------------------------------------------------
  // The shapes, spelled out
  // ---------------------------------------------------------------------------------------------

  function Repeated(s: string, n: nat): string {
    if n == 0 then "" else Repeated(s, n - 1) + s
  }

  /** Trimming removes repetitions of the suffix until it is no longer there. */
  lemma {:induction false} TrimEndMatchesAll(s: string, suffix: string, n: nat)
    requires suffix != "" && !(|suffix| <= |s| && s[|s| - |suffix|..] == suffix)
    ensures TrimEndMatches(s + Repeated(suffix, n), suffix) == s
  {
    if n == 0 {
      assert s + "" == s;
    } else {
      var before := s + Repeated(suffix, n - 1);
      ConcatAssociative(s, Repeated(suffix, n - 1), suffix);
      assert (before + suffix)[|before|..] == suffix && (before + suffix)[..|before|] == before;
      TrimEndMatchesAll(s, suffix, n - 1);
    }
  }

  datatype Shape = Bare | Versioned | WithEmbeddings | WithChat

  /** The ends that the builders know. */
  predicate IsEnd(shape: Shape, end: string) {
    match shape
    case Bare => end == ""
    case Versioned => end == "/v1"
    case WithEmbeddings => end == "/v1/embeddings"
    case WithChat => end == "/v1/chat/completions"
  }

  predicate IsPath(b: Builder, path: string) {
    match b
    case Chat => path == "/v1/chat/completions"
    case Embeddings => path == "/v1/embeddings"
    case Models => path == "/v1/models"
  }

  /** A host that has none of the ends by itself, nor a slash. */
  predicate IsPlainHost(host: string) {
    && !EndsWith(host, "/") && !EndsWith(host, V1)
    && !EndsWith(host, V1 + EMBEDDINGS) && !EndsWith(host, V1 + CHAT)
  }

  function EndOf(shape: Shape): string {
    match shape
    case Bare => ""
    case Versioned => V1
    case WithEmbeddings => V1 + EMBEDDINGS
    case WithChat => V1 + CHAT
  }

  lemma EndIsEndOf(shape: Shape, end: string)
    requires IsEnd(shape, end)
    ensures end == EndOf(shape)
  {
  }

  /** Which end the builders see. */
  lemma SeenEnd(host: string, shape: Shape, s: string)
    requires s == host + EndOf(shape) && (shape.Bare? ==> IsPlainHost(host))
    ensures !EndsWith(s, "/")
    ensures EndsWith(s, V1) <==> shape.Versioned?
    ensures EndsWith(s, V1 + EMBEDDINGS) <==> shape.WithEmbeddings?
    ensures EndsWith(s, V1 + CHAT) <==> shape.WithChat?
    ensures s[..|host|] == host
  {
    EndsWithParts(host, EndOf(shape));
    LastCharacters(s);
    assert shape.Bare? ==> s == host;
  }

  lemma TrimmedSlashes(s: string, slashes: nat)
    requires !EndsWith(s, "/")
    ensures TrimEndMatches(s + Repeated("/", slashes), "/") == s
  {
    TrimEndMatchesAll(s, "/", slashes);
  }

  lemma HostOfTrimmed(endpoint: string, host: string, shape: Shape)
    requires TrimEndMatches(endpoint, "/") == host + EndOf(shape) && (shape.Bare? ==> IsPlainHost(host))
    ensures Host(endpoint) == host
  {
    SeenEnd(host, shape, host + EndOf(shape));
    assert shape.Bare? ==> host + EndOf(shape) == host;
  }

  lemma HostOfShape(host: string, shape: Shape, end: string, slashes: nat)
    requires IsEnd(shape, end) && (shape.Bare? ==> IsPlainHost(host))
    ensures Host(host + end + Repeated("/", slashes)) == host
  {
    EndIsEndOf(shape, end);
    SeenEnd(host, shape, host + end);
    TrimmedSlashes(host + end, slashes);
    HostOfTrimmed(host + end + Repeated("/", slashes), host, shape);
  }

  /** A plain host, with or without one of the known ends and any number of slashes, gives the host
      followed by the builder's path. */
  lemma KnownShapes(b: Builder, host: string, shape: Shape, end: string, slashes: nat, path: string)
    requires IsEnd(shape, end) && (shape.Bare? ==> IsPlainHost(host)) && IsPath(b, path)
    ensures Build(b, host + end + Repeated("/", slashes)) == host + path
  {
    HostOfShape(host, shape, end, slashes);
    BuildFromHost(b, host + end + Repeated("/", slashes));
    ConcatAssociative(host, V1, Suffix(b));
    PathOf(b, path);
  }

  lemma PathOf(b: Builder, path: string)
    requires IsPath(b, path)
    ensures V1 + Suffix(b) == path
  {
  }

  lemma TagsOfTrimmed(endpoint: string, host: string, shape: Shape)
    requires TrimEndMatches(endpoint, "/") == host + EndOf(shape) && !shape.WithEmbeddings?
    requires shape.Bare? ==> IsPlainHost(host)
    ensures OllamaTagsUrl(endpoint) == host + "/api/tags"
  {
    SeenEnd(host, shape, host + EndOf(shape));
    assert shape.Bare? ==> host + EndOf(shape) == host;
  }

  /** The tags builder knows all but the embeddings end. */
  lemma KnownTags(host: string, shape: Shape, end: string, slashes: nat)
    requires IsEnd(shape, end) && !shape.WithEmbeddings? && (shape.Bare? ==> IsPlainHost(host))
    ensures OllamaTagsUrl(host + end + Repeated("/", slashes)) == host + "/api/tags"
  {
    EndIsEndOf(shape, end);
    SeenEnd(host, shape, host + end);
    TrimmedSlashes(host + end, slashes);
    TagsOfTrimmed(host + end + Repeated("/", slashes), host, shape);
  }
}
