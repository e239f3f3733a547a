/**
 * The JSON-LD processor (pyld) as seen by its callers: each operation is an
 * uninterpreted function supplied by the caller.
 */
module PyLd {
  import opened JsonValue

  /** pyld's `options` argument: a dict from option names to JSON values. */
  type Options = map<string, Json>

  datatype Processor = Processor(
    expand: (Json, Options) -> Json,
    compact: (Json, Json, Options) -> Json,
    flatten: Json -> Json,
    toRdf: (Json, Options) -> string,
    fromRdf: (string, Options) -> Json)

  /** `{'format': 'application/nquads'}`, the only RDF syntax pyld reads and writes. */
  const NQuadsOptions: Options := map["format" := JStr("application/nquads")]
}
