/** `PromptBuilder.build_prompt` (scripts/config_loader.py): each data-source
    reference of a test, in order, is resolved and every literal
    `{data_sources.<id>}` in the running prompt is replaced by its text. */
module Prompts {
  import opened Wrappers
  import opened Text
  import opened DataSources

  /** A test's data-source reference: a bare id, looked up in the registry,
      or an inline descriptor. An inline descriptor's `id` is taken from the
      descriptor itself, so the code's check "does the ref's id match the
      descriptor's id" always holds and the registry is never consulted. */
  datatype SourceRef = Named(name: string) | Inline(descriptor: Descriptor)

  function RefId(r: SourceRef): string
  {
    match r
    case Named(name) => name
    case Inline(d) => d.id
  }

  /** The substitution token of an id. */
  function Token(id: string): (t: string)
    ensures |t| > 0
  {
    "{data_sources." + id + "}"
  }

  function DataSourceNotFound(id: string): string { "[DATA_SOURCE_NOT_FOUND: " + id + "]" }

  /** The registry as `build_prompt` sees it: a load failure is only a
      warning and leaves it empty. */
  function CommonSources(registry: RegistryLoad): seq<Descriptor>
  {
    match registry
    case Loaded(entries) => entries
    case LoadFailed(_) => []
  }

  /** The text one reference stands for, and the cache afterwards. */
  function ResolveRef(env: Env, common: seq<Descriptor>, cache: Cache, r: SourceRef, fuel: nat): (Outcome, Cache)
  {
    match r
    case Inline(d) => Resolve(env, cache, d, fuel)
    case Named(name) =>
      match Lookup(common, name)
      case None => (Text(DataSourceNotFound(name)), cache)
      case Some(d) => Resolve(env, cache, d, fuel)
  }

  /** `build_prompt` from the running prompt `prompt` and the references
      still to do; an exception from resolving a reference escapes. */
  function Build(env: Env, cache: Cache, prompt: string, refs: seq<SourceRef>, fuel: nat): (Outcome, Cache)
    decreases |refs|
  {
    if |refs| == 0 then (Text(prompt), cache)
    else
      var (o, c) := ResolveRef(env, CommonSources(env.registry), cache, refs[0], fuel);
      match o
      case Raised(e) => (Raised(e), c)
      case Text(content) => Build(env, c, ReplaceAll(prompt, Token(RefId(refs[0])), content), refs[1..], fuel)
  }

  /** A reference whose token does not occur leaves the prompt as it is, so a
      template without any of the references' tokens comes back verbatim
      (unless resolving a reference raises). */
  lemma {:induction false} BuildKeepsUnreferencedText(env: Env, cache: Cache, prompt: string, refs: seq<SourceRef>, fuel: nat)
    requires forall k :: 0 <= k < |refs| ==> !Contains(prompt, Token(RefId(refs[k])))
    ensures Build(env, cache, prompt, refs, fuel).0 == Text(prompt) || Build(env, cache, prompt, refs, fuel).0.Raised?
    decreases |refs|
  {
    if |refs| > 0 {
      var (o, c) := ResolveRef(env, CommonSources(env.registry), cache, refs[0], fuel);
      if o.Text? {
        ReplaceAbsent(prompt, Token(RefId(refs[0])), o.content);
        BuildKeepsUnreferencedText(env, c, prompt, refs[1..], fuel);
      }
    }
  }

  /** Every step of the substitution keeps the text between occurrences of
      the token verbatim and puts the resolved content in place of each. */
  lemma SubstitutionStep(env: Env, cache: Cache, prompt: string, r: SourceRef, rest: seq<SourceRef>, fuel: nat)
    requires ResolveRef(env, CommonSources(env.registry), cache, r, fuel).0.Text?
    ensures var (o, c) := ResolveRef(env, CommonSources(env.registry), cache, r, fuel);
            Build(env, cache, prompt, [r] + rest, fuel)
              == Build(env, c, Join(Split(prompt, Token(RefId(r))), o.content), rest, fuel)
  {
    var (o, c) := ResolveRef(env, CommonSources(env.registry), cache, r, fuel);
    ReplaceIsJoinOfSplit(prompt, Token(RefId(r)), o.content);
    assert ([r] + rest)[0] == r && ([r] + rest)[1..] == rest;
  }

  /** A bare id found neither inline nor in the registry is replaced by the
      not-found marker, and the cache is left alone. */
  lemma UnknownNameMarker(env: Env, cache: Cache, name: string, fuel: nat)
    requires forall k :: 0 <= k < |CommonSources(env.registry)| ==> CommonSources(env.registry)[k].id != name
    ensures ResolveRef(env, CommonSources(env.registry), cache, Named(name), fuel)
            == (Text("[DATA_SOURCE_NOT_FOUND: " + name + "]"), cache)
  {
    var common := CommonSources(env.registry);
    assert FirstWithId(common, name, 0) == None;
  }

  /** An inline descriptor is resolved as it is, whatever the registry has
      under the same id. */
  lemma InlineUsedAsIs(env: Env, cache: Cache, d: Descriptor, fuel: nat)
    ensures ResolveRef(env, CommonSources(env.registry), cache, Inline(d), fuel) == Resolve(env, cache, d, fuel)
  {
  }

  /** Building only adds to the cache. */
  lemma {:induction false} BuildExtendsCache(env: Env, cache: Cache, prompt: string, refs: seq<SourceRef>, fuel: nat)
    ensures Extends(cache, Build(env, cache, prompt, refs, fuel).1)
    decreases |refs|
  {
    if |refs| > 0 {
      var r := refs[0];
      var common := CommonSources(env.registry);
      var (o, c) := ResolveRef(env, common, cache, r, fuel);
      match r {
        case Inline(d) => ResolveExtendsCache(env, cache, d, fuel);
        case Named(name) =>
          if Lookup(common, name).Some? {
            ResolveExtendsCache(env, cache, Lookup(common, name).value, fuel);
          }
      }
      if o.Text? {
        BuildExtendsCache(env, c, ReplaceAll(prompt, Token(RefId(r)), o.content), refs[1..], fuel);
      }
    }
  }

  /** Substituting the same id twice is not always a no-op: the first
      replacement can assemble a new token out of the text around it, which
      the second one then replaces. */
  lemma RepeatedSubstitutionCanChangeText()
    ensures var t := "{data_sources." + Token("x") + "x}";
            ReplaceAll(t, Token("x"), "") == Token("x")
            && ReplaceAll(ReplaceAll(t, Token("x"), ""), Token("x"), "") == ""
  {
    var tok := Token("x");
    var pre := "{data_sources.";
    assert tok == "{data_sources.x}";
    assert tok[15] == '}' && '}' !in pre + tok[..15];
    MissingChar(pre + tok[..15], tok, 15);
    ReplaceAtFirst(pre, tok, "", "x}");
    assert ReplaceAll("x}", tok, "") == "x}";
    assert pre + "x}" == tok;
    assert tok == tok + "";
    ShortDoesNotContain("" + tok[..15], tok);
    ReplaceAtFirst("", tok, "", "");
    assert "" + tok + "" == tok;
  }

  class PromptBuilder {
    /** `self.data_processor`; the registry is passed to each call. */
    const processor: DataSourceProcessor

    constructor(processor: DataSourceProcessor)
      ensures this.processor == processor
    {
      this.processor := processor;
    }

    /** `build_prompt`. */
    method BuildPrompt(template: string, refs: seq<SourceRef>, env: Env, fuel: nat) returns (r: Outcome)
      modifies processor
      ensures (r, processor.cache) == Build(env, old(processor.cache), template, refs, fuel)
    {
      var common := CommonSources(env.registry);
      var prompt := template;
      var i := 0;
      while i < |refs|
        invariant 0 <= i <= |refs|
        decreases |refs| - i
        invariant Build(env, old(processor.cache), template, refs, fuel)
                  == Build(env, processor.cache, prompt, refs[i..], fuel)
      {
        var ref := refs[i];
        assert refs[i..][0] == ref && refs[i..][1..] == refs[i + 1..];
        var content: string;
        match ref {
          case Inline(d) =>
            var o := processor.ProcessDataSource(env, d, fuel);
            if o.Raised? {
              return o;
            }
            content := o.content;
          case Named(name) =>
            var found := FindById(common, name);
            if found.None? {
              content := DataSourceNotFound(name);
            } else {
              var o := processor.ProcessDataSource(env, found.value, fuel);
              if o.Raised? {
                return o;
              }
              content := o.content;
            }
        }
        prompt := ReplaceAll(prompt, Token(RefId(ref)), content);
        i := i + 1;
      }
      return Text(prompt);
    }
  }
}
