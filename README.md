# oa-adapter core, modelled in Dafny

This project models the core of the RESTful Open Annotation adapter: a small
Python 2 service that receives and returns Open Annotation documents in
JSON-LD and converts them to and from other RDF syntaxes and HTML.
These parts are modelled:

- **The identifier rewriter** (`jsonldproxy.py`). It walks a JSON-LD document in place and
  replaces every node identifier (`@id`, section 5.3 of JSON-LD 1.0) with the
  proxy address followed by the percent-encoded original (Python 2
  `urllib.quote`, section 2.1 of RFC 3986).
- **The RDF helpers** (`formats/rdftools.py`):
  - the table from short format names to content types, and its inverse;
  - the removal of blank graph labels from N-Quads;
  - the order in which RDF text is converted before the JSON-LD processor reads it.
- **The HTML renderer** (`formats/html_format.py`). It walks the document and appends
  string pieces to a shared list, joins them between a fixed header and trailer,
  and returns the document unchanged when asked to pass it through.
- **The codec registry**:
  - `formatloader.py`: the file-name filter, the required-attribute check and
    the loop that keeps the valid modules;
  - `parse.py`: the MIME-type-to-parser table, later formats winning, and the
    lookup that fails with `NotImplementedError`;
  - `render.py`: the name-to-renderer table, the assertion that the default
    format exists, the registration loop that survives `MimeRenderException`,
    and the "not acceptable" payload. On the shipped format modules,
    `make_renderer`'s default `'jsonld'` fails its assertion: formats/jsonld_format.py
    declares no `format_name`, so the loader drops that module
    (`Render.ShippedDefaultMissing`).
- **The JSON-LD wrapper** (`oajson.py`):
  - the processor options built from an optional context and base;
  - the defaults;
  - the removal of `@context` after compaction;
  - the composition order of the conversions to and from N-Quads.

Foreign code is passed in as function-typed parameters. The code modelled this
way is the JSON-LD processor (pyld), rdflib, `json.dumps`, BeautifulSoup, the
content-negotiation library's registry, the context helpers and the import
machinery. Python's exceptions become the `Failure` arm of a `Result`, or `None`
in an `Option`.

Modules:

| file | module | role |
|---|---|---|
| wrappers.dfy | Wrappers | `Option`, `Result`, and the Python exceptions raised on modelled paths |
| json.dfy | JsonValue | JSON values, Python truthiness, `str()` of an integer |
| percent_encoding.dfy | PercentEncoding | Python 2 `urllib.quote` and its inverse |
| pystr.dfy | PyStr | `str.split()`, `str.split(c)` and `c.join` |
| pyld.dfy | PyLd | the JSON-LD processor's operations, as parameters |
| sorting.dfy | Sorting | Python's order on strings, and `sorted` over dict keys |
| jsonldproxy.dfy | JsonLdProxy | the in-place identifier rewriter |
| rdftools.dfy | RdfTools | format table, blank-label removal, `to_jsonld` |
| html_format.dfy | HtmlFormat | the HTML renderer |
| formatloader.dfy | FormatLoader | module discovery and validation |
| parse.dfy | Parse | the parser table and `parse_data` |
| render.dfy | Render | the renderer configuration |
| oajson.dfy | OaJson | the JSON-LD wrapper |

## Model

| member | source | states |
|---|---|---|
| JsonValue.Decimal | formats/html_format.py:195 | `str()` of an integer is a non-empty digit string with a leading `-` exactly for negative numbers |
| JsonValue.NatDigitsValue | formats/html_format.py:195 | the digits of a natural number read back as that number, and start with `0` only for zero itself, which is the single digit `0` |
| JsonValue.DecimalValue | formats/html_format.py:195 | `str(n)` reads back as `n`: the digits after the optional `-` spell the magnitude, with no leading zero |
| JsonValue.DecimalInjective | formats/html_format.py:195 | distinct integers print as distinct strings |
| PercentEncoding.HexDigit | jsonldproxy.py:22 | an escape digit is one of `0-9A-F` (upper case) and decodes back to its value |
| PercentEncoding.Quote | jsonldproxy.py:22 | `quote` of a unicode string succeeds exactly when every character is ASCII; otherwise Python raises |
| PercentEncoding.QuoteAscii | jsonldproxy.py:22 | the encoded form is ASCII and no shorter than the input |
| PercentEncoding.Unquote | jsonldproxy.py:22 | decoding never lengthens a string |
| PercentEncoding.UnquoteQuote | jsonldproxy.py:22 | decoding undoes `quote` on every ASCII string |
| PercentEncoding.QuoteAlphabet | jsonldproxy.py:22 | every character `quote` outputs is a safe character or `%` |
| PercentEncoding.QuoteSafeIsIdentity | jsonldproxy.py:22 | a string of safe characters (`A-Za-z0-9_.-/`) is left unchanged |
| PercentEncoding.QuoteExamples | jsonldproxy.py:22 | `quote("a b~/")` is `a%20b%7E/` (`~` is encoded in Python 2), and a non-ASCII string raises |
| JsonLdProxy.Rewritten | jsonldproxy.py:10-32 | one pass keeps scalars, the key set of every dict and the length of every list |
| JsonLdProxy.RewrittenOnlyIds | jsonldproxy.py:20-27 | a pass changes nothing but `@id` values: keys, list lengths, order and every other value are kept |
| JsonLdProxy.RewrittenIdsUnder | jsonldproxy.py:22 | after a completed pass every `@id` the walk reaches starts with the proxy address |
| JsonLdProxy.RestoredRewritten | jsonldproxy.py:22 | stripping the proxy prefix and decoding recovers the original document, so the pass loses nothing |
| JsonLdProxy.RewriteTwice | jsonldproxy.py:22 | the rewrite is not idempotent: a second pass encodes the proxied identifier again behind a second copy of the proxy address |
| JsonLdProxy.RewriteUrls | jsonldproxy.py:10-18 | the walk completes exactly when every `@id` is an encodable string; then it returns the same reference, and the document it holds becomes the one-pass rewrite of the old one |
| JsonLdProxy.RewriteDictUrls | jsonldproxy.py:20-27 | a dict succeeds exactly when its `@id` and all its other values can be rewritten; it then holds the rewrite of its old value and is returned itself |
| JsonLdProxy.RewriteEntries | jsonldproxy.py:23-26 | the loop over a dict's entries rewrites every nested container and skips `@id` |
| JsonLdProxy.RewriteEntry | jsonldproxy.py:26 | one entry's container is rewritten and no other entry changes |
| JsonLdProxy.RewriteListUrls | jsonldproxy.py:29-32 | a list succeeds exactly when each item can be rewritten; it then holds the rewrite of its old value and is returned itself |
| JsonLdProxy.RewriteItem | jsonldproxy.py:31 | one item is rewritten and the other items are unchanged |
| JsonLdProxy.ListRewritten | jsonldproxy.py:29-32 | rewriting every item in turn is the one-pass rewrite of the list, and a list can be rewritten exactly when each item can |
| JsonLdProxy.DictRewritten | jsonldproxy.py:20-27 | replacing `@id` and then rewriting the container entries is the one-pass rewrite of the dict |
| JsonLdProxy.NotRewritableEntries | jsonldproxy.py:23-26 | a nested container that cannot be rewritten makes the whole dict fail |
| JsonLdProxy.Node.Model | jsonldproxy.py:10-32 | the value a container holds is a list of its items' length, or a dict over its container and scalar keys |
| PyStr.Fields | formats/rdftools.py:90 | `split()` yields non-empty fields without whitespace |
| PyStr.FieldsConcat | formats/rdftools.py:90 | the fields of `split()`, run together, are exactly the string's non-whitespace characters in order |
| PyStr.FieldsCount | formats/rdftools.py:90 | `split()` yields one field per word start, a non-whitespace character at the start of the string or right after whitespace |
| PyStr.WordStartsWord | formats/rdftools.py:90 | a leading word holds exactly one word start; the others follow it |
| PyStr.SplitOn | formats/rdftools.py:89 | `split('\n')` yields at least one part and no part contains the separator |
| PyStr.FieldsJoinSpace | formats/rdftools.py:93 | splitting a space-joined list of non-empty fields without whitespace gives the list back |
| PyStr.JoinSplit | formats/rdftools.py:94 | joining the parts of `s.split(c)` with `c` gives `s` back |
| PyStr.SplitJoin | formats/rdftools.py:89-94 | splitting a join of separator-free parts gives the parts back |
| RdfTools.Owner | formats/rdftools.py:29-31 | the inverse table maps a content type to a format that lists it, and to nothing when no format does |
| RdfTools.OwnerExact | formats/rdftools.py:29-31 | when no content type is listed twice, a listed content type maps back to the format that lists it |
| RdfTools.ShippedTableDistinct | formats/rdftools.py:14-26 | no content type appears under two formats in the shipped table |
| RdfTools.ContentTypesMapBack | formats/rdftools.py:14-31 | every content type of the shipped table maps back to its own format |
| RdfTools.CharsetVariants | formats/rdftools.py:22-25 | Turtle and N3 are recognised with and without the `charset=utf-8` parameter |
| RdfTools.ShortNamesUnlisted | formats/rdftools.py:14-31 | no short format name is itself a listed content type |
| RdfTools.MapFormat | formats/rdftools.py:64 | definition: a listed content type becomes the short name of the format whose list holds it; any other string is kept (the `get(format, format)` default) |
| RdfTools.MapFormatSpec | formats/rdftools.py:64 | a listed content type maps to its format, anything else is kept as it is, and mapping twice is mapping once |
| RdfTools.FromString | formats/rdftools.py:53-69 | definition: rdflib parses the data under the mapped format name |
| RdfTools.IsBlank | formats/rdftools.py:71-73 | definition: an identifier is blank exactly when it starts with `_:` |
| RdfTools.ProcessLine | formats/rdftools.py:90-93 | definition: a line's whitespace-separated fields, less a blank fourth one, joined by single spaces |
| RdfTools.BlankLabelsRemoved | formats/rdftools.py:75-94 | definition: the lines of the data, split on newlines, each processed, joined again by newlines |
| RdfTools.RemoveBlankGraphLabels | formats/rdftools.py:75-94 | the loop over lines computes the line-by-line removal of a blank fourth field |
| RdfTools.ProcessLineFields | formats/rdftools.py:90-93 | a processed line holds the line's fields minus a blank graph label, has no newline, and is only re-spaced when no label is dropped |
| RdfTools.LinesPreserved | formats/rdftools.py:89-94 | the output has exactly as many lines as the input, and each output line is the processed input line |
| RdfTools.DocExample | formats/rdftools.py:78-79 | the documented example: `<ex:1> <ex:2> <ex:3> _:b0 .` becomes `<ex:1> <ex:2> <ex:3> .` |
| RdfTools.ToJsonld | formats/rdftools.py:96-120 | N-Quads go straight to the processor; any other format is parsed by rdflib, re-serialised as N-Quads and stripped of blank graph labels first |
| RdfTools.NQuadsBypassesRdflib | formats/rdftools.py:110 | both `application/n-quads` and `nquads` take the direct path |
| Sorting.StrLtTransitive | formats/html_format.py:173 | Python's string order is transitive |
| Sorting.StrLtTotal | formats/html_format.py:173 | any two distinct strings are ordered one way or the other |
| Sorting.SortedKeys | formats/html_format.py:173 | `sorted` returns each key of the dict exactly once |
| Sorting.SortedKeysIncreasing | formats/html_format.py:173 | the sorted keys are strictly increasing |
| Sorting.IncreasingUnique | formats/html_format.py:173 | only one increasing sequence holds a given set of keys |
| Sorting.SortKeys | formats/html_format.py:173 | selecting the least remaining key repeatedly yields the sorted keys |
| HtmlFormat.HtmlList.Append | formats/html_format.py:195 | appending adds one piece at the end and keeps the earlier pieces |
| HtmlFormat.IsPlainValue | formats/html_format.py:107-109 | definition: a dict whose only key is `@value` |
| HtmlFormat.IsDatetime | formats/html_format.py:118-121 | definition: a dict with exactly the keys `@value` and `@type`, the type being `xsd:dateTimeStamp` |
| HtmlFormat.GetUrl | formats/html_format.py:92-94 | `v['@id']` succeeds exactly on a dict holding `@id` and gives its value; otherwise a dict raises `KeyError` and anything else `TypeError` |
| HtmlFormat.IsUrl | formats/html_format.py:96-105 | `_is_url` holds exactly for a dict whose only key is `@id`; every exception it catches gives false |
| HtmlFormat.Html | formats/html_format.py:178-196 | definition: the pieces the walk appends for a value: a scalar's `str()`, a list as a one-element list's element or a `<ul>`, a dict as a plain value, a datetime or a `<dl>` of its entries in key order |
| HtmlFormat.ToHtml | formats/html_format.py:178-196 | the walk only appends: the earlier pieces stay and the renderer's pieces for the value follow |
| HtmlFormat.ListToHtml | formats/html_format.py:131-144 | a one-element list appends its element's pieces; any other list appends a `<ul>` of `<li>` items |
| HtmlFormat.ItemsToHtml | formats/html_format.py:139-142 | the loop appends each item between `<li>` and `</li>`, in order |
| HtmlFormat.PlainValueToHtml | formats/html_format.py:111-116 | a plain value appends its `@value` as it is |
| HtmlFormat.DatetimeToHtml | formats/html_format.py:123-129 | a datetime appends one `<time>` element for its `@value` |
| HtmlFormat.KeyValueToHtml | formats/html_format.py:146-160 | an `@id` entry appends a link; any other entry appends the key between `<dt>` and `</dt>`, then the value between `<dd>` and `</dd>` |
| HtmlFormat.DictToHtml | formats/html_format.py:162-176 | a plain value, a datetime, or a `<dl>` of the entries in sorted key order |
| HtmlFormat.EntriesToHtml | formats/html_format.py:173-174 | the loop appends the entries in the given key order |
| HtmlFormat.Join | formats/html_format.py:63 | definition: `''.join` of the pieces; a failing `str()` is reported first, as it is raised during the walk |
| HtmlFormat.JoinSucceeds | formats/html_format.py:63 | `''.join` succeeds exactly when no piece raises: a non-ASCII string in `str()` raises `UnicodeEncodeError`, a non-string `@value` raises `TypeError` |
| HtmlFormat.ConcatFailsWithTypeError | formats/html_format.py:63 | once no `str()` call raises, the only remaining failure is the join's `TypeError` |
| HtmlFormat.HtmlOk | formats/html_format.py:178-196 | the pieces of any document join exactly when the document is renderable |
| HtmlFormat.ListOk | formats/html_format.py:131-144 | a list's pieces join exactly when its items are renderable |
| HtmlFormat.DictOk | formats/html_format.py:162-176 | a dict's pieces join exactly when it is renderable |
| HtmlFormat.ItemsOk | formats/html_format.py:139-142 | the `<li>` entries join exactly when each item is renderable |
| HtmlFormat.EntriesOk | formats/html_format.py:173-174 | the entries join exactly when each entry is renderable |
| HtmlFormat.KeyValueOk | formats/html_format.py:146-160 | an entry joins exactly when it is `@id` or has an ASCII key and a renderable value |
| HtmlFormat.DictShowsEveryEntry | formats/html_format.py:162-176 | no entry is dropped: `@id` shows as a link, and every other key shows with every piece of its value |
| HtmlFormat.DictExample | formats/html_format.py:146-176 | a dict with `@id` and a one-item `label` list renders as a `<dl>` holding the link and then the label entry, unwrapped |
| HtmlFormat.SingletonList | formats/html_format.py:135-136 | a one-element list renders exactly as its element, with no `<ul>` |
| HtmlFormat.ExampleKeys | formats/html_format.py:173 | `@id` sorts before `label` |
| HtmlFormat.ListExample | formats/html_format.py:137-143 | a two-item list renders as `<ul>` with one `<li>` per item, in order |
| HtmlFormat.HtmlNested | formats/html_format.py:131-176 | every tag the renderer opens is closed, innermost first, whatever the document |
| HtmlFormat.ItemsNested | formats/html_format.py:139-142 | the `<li>` entries are balanced |
| HtmlFormat.EntriesNested | formats/html_format.py:173-174 | the entries are balanced |
| HtmlFormat.KeyValueNested | formats/html_format.py:146-160 | each entry is balanced |
| HtmlFormat.PageJoins | formats/html_format.py:58-63 | the header, the walk and the trailer join exactly when the document is renderable, and the error says which exception |
| HtmlFormat.FromJsonld | formats/html_format.py:35-64 | with a true `passthrough` option the input comes back unchanged; otherwise the page is the prettified join of header, walk and trailer, and it fails exactly when the document is not renderable |
| HtmlFormat.ToJsonld | formats/html_format.py:66-82 | parsing HTML returns its input unchanged |
| FormatLoader.HasAttribute | formatloader.py:28-38 | definition: `getattr(m, a)` succeeds for each of the four required attributes exactly when the module defines it |
| FormatLoader.Valid | formatloader.py:28-38 | definition: the module defines all four required attributes |
| FormatLoader.AllRequired | formatloader.py:21-26 | a module is valid exactly when it has every required attribute |
| FormatLoader.IsValid | formatloader.py:28-38 | the check succeeds exactly when the module is valid, and otherwise reports the first missing attribute in list order |
| FormatLoader.IsFormatModule | formatloader.py:40-43 | definition: a file name other than `__init__.py` that ends in `_format.py` |
| FormatLoader.FormatModuleIffSuffix | formatloader.py:40-43 | a file is a format module exactly when its name ends in `_format.py`, so the `__init__.py` test is redundant |
| FormatLoader.ShippedFileNames | formatloader.py:40-43 | the shipped helpers are skipped and the `*_format.py` files are loaded |
| FormatLoader.StripPy | formatloader.py:46-47 | a trailing `.py` is removed, and nothing else is |
| FormatLoader.StripPyAppended | formatloader.py:46-47 | stripping `.py` from `x + ".py"` gives `x` |
| FormatLoader.LoadFormatModule | formatloader.py:45-52 | definition: the importer's module for the file name less one trailing `.py` |
| FormatLoader.Discovered | formatloader.py:57-62 | definition: in listing order, the modules of the format files whose import is not `None` |
| FormatLoader.DiscoveredFromFormatFiles | formatloader.py:57-62 | at most one module per file, and every discovered module is the import of some listed format file |
| FormatLoader.FormatFileDiscovered | formatloader.py:57-62 | every listed format file whose import is not `None` contributes its module |
| FormatLoader.ValidOnly | formatloader.py:66 | the kept modules are valid and were discovered |
| FormatLoader.ValidOnlyKeeps | formatloader.py:66 | every valid discovered module is kept |
| FormatLoader.DiscoverModules | formatloader.py:57-62 | the discovery loop imports each format file in order and skips the imports that yield nothing |
| FormatLoader.Load | formatloader.py:54-72 | as written, the loader returns every valid discovered module, in order |
| FormatLoader.LoadKeepsDuplicates | formatloader.py:65-71 | two valid modules with the same format name are both returned |
| FormatLoader.FirstByName | formatloader.py:65-71 | the deduplicated modules are among the input |
| FormatLoader.FirstByNameDistinct | formatloader.py:65-71 | after deduplication no two modules share a format name |
| FormatLoader.FirstByNameNames | formatloader.py:65-71 | deduplication loses no format name |
| FormatLoader.FirstByNameKeepsFirst | formatloader.py:65-71 | the first module with a given name is the one kept |
| FormatLoader.LoadDistinct | formatloader.py:54-72 | the corrected loop returns the valid modules, keeping the first of each format name |
| FormatLoader.ShippedValidity | formatloader.py:21-38 | the HTML, Turtle, N3, TriG and TriX modules are valid; the JSON-LD and RDF/XML modules are not |
| Parse.Table | parse.py:11-14 | definition: the formats in order, each storing itself under every MIME type it lists, so a later store replaces an earlier one |
| Parse.Owner | parse.py:11-14 | the reference owner of a MIME type is the last format that lists it, or none when no format lists it |
| Parse.TableIsOwner | parse.py:11-14 | the table maps a MIME type exactly when some format lists it, and maps it to the last such format |
| Parse.EveryMimetypeRegistered | parse.py:11-14 | every MIME type of every format is in the table |
| Parse.LaterFormatWins | parse.py:11-14 | when two formats list a MIME type, the later one parses it |
| Parse.MakeParser | parse.py:8-14 | the nested loops build the table |
| Parse.ParseOptions | parse.py:18 | definition: the options dict holds only `encoding`, the charset or `None` |
| Parse.ParseData | parse.py:16-23 | an unknown or absent MIME type raises `NotImplementedError` naming it; a known one calls its format's parser with only the charset as options |
| Parse.CharsetIrrelevant | parse.py:18-19 | the charset never decides which parser is chosen, or whether one is |
| Parse.ShippedTable | parse.py:11-14 | with the HTML and Turtle modules, `text/turtle` goes to Turtle, `text/html` to HTML, and JSON-LD has no parser |
| Render.NotAcceptablePayload | render.py:17-21 | definition: a dict with the fixed `error` message, the submitted accept header and the supported MIME types as a list of strings |
| Render.NoMimetypeCallback | render.py:13-21 | the callback always answers `application/json`, with the serialised payload |
| Render.NotAcceptableRoundTrip | render.py:17-21 | a client that decodes the body finds exactly the fixed error text, the accept header verbatim and the supported list verbatim |
| Render.FormatArgs | render.py:33 | definition: each format stored under its name, in order, so a later format replaces an earlier one of the same name |
| Render.NameOwner | render.py:33 | the reference renderer of a name is the last format bearing it, or none |
| Render.FormatArgsIsOwner | render.py:33 | a name is in the renderer table exactly when some format bears it, and maps to the last such format |
| Render.FormatArgsKeys | render.py:33 | the table's keys are exactly the format names |
| Render.LaterNameWins | render.py:33 | of two formats with the same name, the later one renders |
| Render.RegisterOne | render.py:26-30 | one registration fails exactly when `register_mime` raises something other than `MimeRenderException`, which is never what escapes |
| Render.RegisterAll | render.py:25-30 | the loop never ends with a `MimeRenderException`: that exception is swallowed for each format |
| Render.RegisterAppend | render.py:25-30 | registering two lists in turn is registering their concatenation |
| Render.SkipRejected | render.py:26-30 | a format whose registration raises `MimeRenderException` is skipped and the rest are still attempted |
| Render.RegisterTypes | render.py:23-30 | the loop registers every format in order and stops only at an exception other than `MimeRenderException` |
| Render.EveryFormatRegistered | render.py:23-30 | with a registry that refuses known names, every format name ends up registered and earlier registrations are unchanged |
| Render.MakeRenderer | render.py:32-43 | a default format that no format bears fails the assertion with its message; otherwise the types are registered and the renderer is configured with the default, override key `format` and the name table |
| Render.ShippedDefaultMissing | render.py:32-34 | no valid shipped format is named `jsonld`, so `make_renderer` with its default argument fails its assertion on the shipped modules |
| OaJson.DefaultContext | oajson.py:23-24 | definition: the recommended context |
| OaJson.DefaultBase | oajson.py:26-27 | the default base is `None` |
| OaJson.ContextOrDefault | oajson.py:32-33 | a missing context is replaced by the recommended one; a given context is kept |
| OaJson.ExpandOptions | oajson.py:29-37 | the options always carry `expandContext` (the given or the default context), carry `base` exactly when a base is given, and nothing else |
| OaJson.MakeOptions | oajson.py:29-37 | the successive assignments build those options |
| OaJson.CompactOptions | oajson.py:59-61 | compaction's options carry `base` exactly when there is one, and nothing else |
| OaJson.DefaultBaseNoOptions | oajson.py:56-62 | without a base, compaction passes an empty options dict |
| OaJson.Expand | oajson.py:39-46 | definition: the processor expands the document after the context URLs are replaced by their documents, with the options of the given or default context and the base |
| OaJson.ExpandAfterSubstitution | oajson.py:45-46 | expansion sees the document only after the context URLs are substituted |
| OaJson.ExpandDefaultContext | oajson.py:39-46 | expanding with no context is expanding with the recommended context |
| OaJson.RemoveContext | oajson.py:67-71 | deleting `@context` from a dict removes that key only and never fails for a missing key; a non-dict raises `TypeError` |
| OaJson.RemoveContextIdempotent | oajson.py:67-71 | removing the context twice is removing it once |
| OaJson.RemoveAbsentContext | oajson.py:68-71 | a dict without `@context` comes through unchanged |
| OaJson.Compacted | oajson.py:48-73 | only removing the context can fail, and then with `TypeError`; a successful removal leaves a dict without `@context` |
| OaJson.Compact | oajson.py:48-73 | compaction fills the defaults, compacts, substitutes context objects by URLs and optionally removes `@context` |
| OaJson.CompactWithoutContext | oajson.py:67-71 | with `remove_context`, a dict result has no `@context`, whether or not it had one |
| OaJson.RemoveContextOnlyDropsContext | oajson.py:48-73 | the results with and without `remove_context` differ only in the `@context` entry |
| OaJson.Flatten | oajson.py:75-80 | definition: the processor's flattening of the document |
| OaJson.ToRdf | oajson.py:82-110 | definition: N-Quads of the document expanded with the given or default context and base; the flattened document is computed and not used |
| OaJson.ToRdfIgnoresFlatten | oajson.py:106-110 | the N-Quads do not depend on the flattening, whose result is unused |
| OaJson.ToRdfOfExpanded | oajson.py:82-110 | the N-Quads serialise the result of `expand` with the same arguments |
| OaJson.FromRdf | oajson.py:112-134 | only removing the context can fail, and then with `TypeError`; a successful removal leaves a dict without `@context` |
| OaJson.FromRdfIsCompact | oajson.py:112-134 | reading RDF is compaction of the parsed N-Quads with the caller's context, base and `remove_context` |

## Left out

- The JSON-LD processor, rdflib, `json.dumps`, BeautifulSoup and the content-negotiation library are foreign. They appear only as function parameters, with no assumptions about them beyond what a lemma states in its `requires`.
- `rdftools.from_jsonld` (formats/rdftools.py:33-51) is left out. It only delegates to the processor and rdflib.
- The bodies of the per-format modules (formats/*_format.py) are not modelled: only their declared names and MIME types are used, as the shipped `Module` constants.
- `contexts.py` and the context helpers are not part of this model. The recommended context and the two substitutions are parameters.
- `os.listdir` and `__import__` are replaced by a list of file names and an import function. An import that raises is not modelled.
- The messages written to standard error (formatloader.py:36, 68) and the debug prints at oajson.py:107 and 109 are output only and are left out.
- Only integer numbers are modelled; floating point is not.
- `str()` of a list or a dict inside a piece is a parameter (`repr`).
- BeautifulSoup's prettifying is a parameter, and the `ImportError` fallback is the identity passed as that parameter.
- Documents are trees without sharing. A sub-object reachable twice would be rewritten twice in Python; the model does not represent such aliasing.
- Dict iteration order is not modelled. The rewriter's result does not depend on it, and the renderer sorts the keys.
- JsonLdProxy.RewriteUrls: when the walk raises part-way, the model states only that the structure is still well formed, not which identifiers were already replaced.
- JsonLdProxy.RewriteUrls: the `AttributeError` or `TypeError` for a non-string `@id` and the `KeyError` for a non-ASCII one are both the `None` outcome, not told apart.
- HtmlFormat.ToHtml: the optional `html=None` argument and the returned list of the `_*_to_html` helpers are not modelled as such. Each helper appends to the list it is given, and the returned list is used only by `from_jsonld`'s call with the default, which `HtmlFormat.FromJsonld` models by creating a fresh list and reading it afterwards.
- FormatLoader.HasAttribute: an attribute explicitly set to `None` is treated as missing, although `getattr` would succeed for it.
- Render.NoMimetypeCallback: the accept header is taken to be a string; a missing header (`None`) is not modelled.
- Render.MakeRenderer: the decorator it returns is represented by the arguments it passes to the negotiation library. The negotiation itself is left out.
- Render.MapRegister: stands for the negotiation library's registry. The text of its `MimeRenderException` is not modelled.

## Findings

| source | as written | input that shows it | evidently intended | confidence | as-written member | corrected member |
|---|---|---|---|---|---|---|
| formatloader.py:65-71 | `seen.add(module)` stores the module object, but line 67 looks up `module.format_name`, a string, in `seen`, so the duplicate branch never fires | two valid modules `a` and `b` with the same format name: both are returned | keep only the first module of each format name (add the name to `seen`), as the duplicate message says | high, not executed | FormatLoader.LoadKeepsDuplicates | FormatLoader.LoadDistinct |
