/**
 * The Open Annotation wrapper around the JSON-LD processor: how the processor's
 * options are built from an optional context and base, which defaults apply,
 * the removal of `@context` after compaction, and the order in which the
 * processor's operations are composed to convert to and from N-Quads.
 *
 * The processor and the helpers that swap known context URLs for their
 * documents (and back) are foreign and supplied by the caller.
 */
module OaJson {
  import opened Wrappers
  import opened JsonValue
  import opened PyLd

  /** The context helpers: the recommended context and the two substitutions. */
  datatype Contexts = Contexts(
    recommended: Json,
    urlsToObjects: Json -> Json,
    objectsToUrls: Json -> Json)

  const ContextKey: string := "@context"

  /** `default_context()`. */
  function DefaultContext(c: Contexts): Json
  {
    c.recommended
  }

  /** `default_base()`: no base IRI. */
  function DefaultBase(): (r: Option<string>)
    ensures r.None?
  {
    None
  }

  /** The context that applies: the given one, or the default when none is given. */
  function ContextOrDefault(c: Contexts, context: Option<Json>): (r: Json)
    ensures context.Some? ==> r == context.value
    ensures context.None? ==> r == DefaultContext(c)
  {
    if context.None? then DefaultContext(c) else context.value
  }

  // ---------------------------------------------------------------------
  // Options

  /** The options `_make_options(context, base)` returns. */
  function ExpandOptions(c: Contexts, context: Option<Json>, base: Option<string>): (r: Options)
    ensures ExpandContextKey in r && r[ExpandContextKey] == ContextOrDefault(c, context)
    ensures BaseKey in r <==> base.Some?
    ensures base.Some? ==> r[BaseKey] == JStr(base.value)
    ensures r.Keys <= {ExpandContextKey, BaseKey}
  {
    var withContext := map[ExpandContextKey := ContextOrDefault(c, context)];
    if base.Some? then withContext[BaseKey := JStr(base.value)] else withContext
  }

  const ExpandContextKey: string := "expandContext"
  const BaseKey: string := "base"

  /** `_make_options(context, base)`: the dict built by successive assignments. */
  method MakeOptions(c: Contexts, context: Option<Json>, base: Option<string>) returns (options: Options)
    ensures options == ExpandOptions(c, context, base)
  {
    options := map[];
    var ctx := context;
    if ctx.None? {
      ctx := Some(DefaultContext(c));
    }
    options := options[ExpandContextKey := ctx.value];
    if base.Some? {
      options := options[BaseKey := JStr(base.value)];
    }
  }

  /** The options `compact` passes: only the base, when there is one. */
  function CompactOptions(base: Option<string>): (r: Options)
    ensures BaseKey in r <==> base.Some?
    ensures base.Some? ==> r[BaseKey] == JStr(base.value)
    ensures r.Keys <= {BaseKey}
  {
    if base.Some? then map[BaseKey := JStr(base.value)] else map[]
  }

  /** Without a base, `compact` passes the processor an empty options dict. */
  lemma DefaultBaseNoOptions()
    ensures CompactOptions(DefaultBase()) == map[]
  {
  }

  // ---------------------------------------------------------------------
  // Expansion

  /** `expand(document, context, base)`: context URLs are replaced first, then the document is expanded. */
  function Expand(p: Processor, c: Contexts, document: Json, context: Option<Json>, base: Option<string>): Json
  {
    p.expand(c.urlsToObjects(document), ExpandOptions(c, context, base))
  }

  /** Expansion sees a document only after the URL substitution: documents it equates expand alike. */
  lemma ExpandAfterSubstitution(p: Processor, c: Contexts, d1: Json, d2: Json, context: Option<Json>, base: Option<string>)
    requires c.urlsToObjects(d1) == c.urlsToObjects(d2)
    ensures Expand(p, c, d1, context, base) == Expand(p, c, d2, context, base)
  {
  }

  /** Passing no context is the same as passing the recommended context. */
  lemma ExpandDefaultContext(p: Processor, c: Contexts, document: Json, base: Option<string>)
    ensures Expand(p, c, document, None, base) == Expand(p, c, document, Some(DefaultContext(c)), base)
  {
    assert ExpandOptions(c, None, base) == ExpandOptions(c, Some(DefaultContext(c)), base);
  }

  // ---------------------------------------------------------------------
  // Compaction

  /**
   * `del compacted['@context']` under `except KeyError: pass`: a dict loses the
   * key if it has it, anything else cannot have an item deleted by a string.
   */
  function RemoveContext(v: Json): (r: Result<Json>)
    ensures r.Success? <==> v.JObj?
    ensures r.Failure? ==> r.error == TypeError
    ensures r.Success? ==> r.value.JObj? && r.value.members.Keys == v.members.Keys - {ContextKey}
    ensures r.Success? ==> forall k | k in r.value.members :: r.value.members[k] == v.members[k]
  {
    if v.JObj? then Success(JObj(v.members - {ContextKey})) else Failure(TypeError)
  }

  /** Removing the context twice is removing it once. */
  lemma RemoveContextIdempotent(v: Json)
    requires v.JObj?
    ensures RemoveContext(RemoveContext(v).value) == RemoveContext(v)
  {
    var once := RemoveContext(v).value;
    assert once.members - {ContextKey} == once.members;
  }

  /** A dict without `@context` comes through unchanged. */
  lemma RemoveAbsentContext(v: Json)
    requires v.JObj? && ContextKey !in v.members
    ensures RemoveContext(v) == Success(v)
  {
    assert v.members - {ContextKey} == v.members;
  }

  /** The value `compact(document, context, base, remove_context)` returns, or the exception it raises. */
  function Compacted(p: Processor, c: Contexts, document: Json, context: Option<Json>, base: Option<string>,
                     removeContext: bool): (r: Result<Json>)
    ensures r.Failure? ==> removeContext && r.error == TypeError
    ensures removeContext && r.Success? ==> r.value.JObj? && ContextKey !in r.value.members
  {
    var b := if base.None? then DefaultBase() else base;
    var compacted := c.objectsToUrls(p.compact(document, ContextOrDefault(c, context), CompactOptions(b)));
    if removeContext then RemoveContext(compacted) else Success(compacted)
  }

  /** `compact(document, context, base, remove_context)`. */
  method Compact(p: Processor, c: Contexts, document: Json, context: Option<Json>, base: Option<string>,
                 removeContext: bool) returns (r: Result<Json>)
    ensures r == Compacted(p, c, document, context, base, removeContext)
  {
    var ctx := context;
    if ctx.None? {
      ctx := Some(DefaultContext(c));
    }
    var b := base;
    if b.None? {
      b := DefaultBase();
    }
    var options: Options := map[];
    if b.Some? {
      options := options[BaseKey := JStr(b.value)];
    }
    var compacted := p.compact(document, ctx.value, options);
    compacted := c.objectsToUrls(compacted);
    if removeContext {
      if !compacted.JObj? {
        return Failure(TypeError);
      }
      compacted := JObj(compacted.members - {ContextKey});
    }
    r := Success(compacted);
  }

  /**
   * Asked to remove the context, compaction yields a dict without `@context`
   * whenever the substituted result is a dict, whether or not it had one.
   */
  lemma CompactWithoutContext(p: Processor, c: Contexts, document: Json, context: Option<Json>, base: Option<string>)
    requires c.objectsToUrls(p.compact(document, ContextOrDefault(c, context), CompactOptions(base))).JObj?
    ensures Compacted(p, c, document, context, base, true).Success?
    ensures ContextKey !in Compacted(p, c, document, context, base, true).value.members
  {
  }

  /** Compaction's result differs with `remove_context` only in the `@context` entry. */
  lemma RemoveContextOnlyDropsContext(p: Processor, c: Contexts, document: Json, context: Option<Json>,
                                      base: Option<string>)
    requires Compacted(p, c, document, context, base, false).value.JObj?
    ensures Compacted(p, c, document, context, base, true)
         == Success(JObj(Compacted(p, c, document, context, base, false).value.members - {ContextKey}))
  {
  }

  // ---------------------------------------------------------------------
  // Flattening and RDF

  /** `flatten(document)`. */
  function Flatten(p: Processor, document: Json): Json
  {
    p.flatten(document)
  }

  /** `to_rdf(document, context, base)`: N-Quads of the expanded document; the flattened one is computed and unused. */
  function ToRdf(p: Processor, c: Contexts, document: Json, context: Option<Json>, base: Option<string>): string
  {
    var ctx := Some(ContextOrDefault(c, context));
    var b := if base.None? then DefaultBase() else base;
    var expanded := Expand(p, c, document, ctx, b);
    var flattened := Flatten(p, expanded);
    p.toRdf(expanded, NQuadsOptions)
  }

  /** The N-Quads depend only on the expanded document: replacing the flattening changes nothing. */
  lemma ToRdfIgnoresFlatten(p: Processor, flatten: Json -> Json, c: Contexts, document: Json,
                            context: Option<Json>, base: Option<string>)
    ensures ToRdf(p, c, document, context, base) == ToRdf(p.(flatten := flatten), c, document, context, base)
  {
  }

  /** The N-Quads are the serialisation of `expand` with the same arguments. */
  lemma ToRdfOfExpanded(p: Processor, c: Contexts, document: Json, context: Option<Json>, base: Option<string>)
    ensures ToRdf(p, c, document, context, base) == p.toRdf(Expand(p, c, document, context, base), NQuadsOptions)
  {
    ExpandDefaultContext(p, c, document, base);
  }

  /** `from_rdf(rdf, context, base, remove_context)`: N-Quads are read, then compacted. */
  function FromRdf(p: Processor, c: Contexts, rdf: string, context: Option<Json>, base: Option<string>,
                   removeContext: bool): (r: Result<Json>)
    ensures r.Failure? ==> removeContext && r.error == TypeError
    ensures removeContext && r.Success? ==> r.value.JObj? && ContextKey !in r.value.members
  {
    var ctx := Some(ContextOrDefault(c, context));
    var b := if base.None? then DefaultBase() else base;
    Compacted(p, c, p.fromRdf(rdf, NQuadsOptions), ctx, b, removeContext)
  }

  /** Reading RDF back is compaction, with the caller's own context, base and `remove_context`, of the parsed N-Quads. */
  lemma FromRdfIsCompact(p: Processor, c: Contexts, rdf: string, context: Option<Json>, base: Option<string>,
                         removeContext: bool)
    ensures FromRdf(p, c, rdf, context, base, removeContext)
         == Compacted(p, c, p.fromRdf(rdf, NQuadsOptions), context, base, removeContext)
  {
  }
}
