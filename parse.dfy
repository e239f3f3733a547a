/**
 * The parser registry: a table from MIME type to the `to_jsonld` function of
 * the format that lists it, built in format order so that a later format
 * replaces an earlier one, and the lookup that parses a request body with it.
 */
module Parse {
  import opened Wrappers
  import opened JsonValue
  import opened FormatLoader

  /** The registry: each MIME type with the module whose `to_jsonld` parses it. */
  type ParserTable = map<string, Module>

  /** The table after the first `n` MIME types of `mts`, all for `f`, are stored into `t`. */
  function StoreAll(t: ParserTable, mts: seq<string>, n: nat, f: Module): (r: ParserTable)
    requires n <= |mts|
  {
    if n == 0 then t else StoreAll(t, mts, n - 1, f)[mts[n - 1] := f]
  }

  /** The table `make_parser` builds from the formats, in order. */
  function Table(formats: seq<Module>): ParserTable
  {
    if formats == [] then map[]
    else
      var f := formats[|formats| - 1];
      StoreAll(Table(formats[..|formats| - 1]), MimetypesOf(f), |MimetypesOf(f)|, f)
  }

  /** The last format that lists `mt`, the reference for the table. */
  function Owner(formats: seq<Module>, mt: string): (r: Option<Module>)
    ensures r.Some? ==> r.value in formats && mt in MimetypesOf(r.value)
    ensures r.None? <==> forall i | 0 <= i < |formats| :: mt !in MimetypesOf(formats[i])
  {
    if formats == [] then None
    else
      var f := formats[|formats| - 1];
      if mt in MimetypesOf(f) then Some(f)
      else
        var r := Owner(formats[..|formats| - 1], mt);
        assert forall i | 0 <= i < |formats| - 1 :: formats[..|formats| - 1][i] == formats[i];
        r
  }

  lemma {:induction false} StoreAllSpec(t: ParserTable, mts: seq<string>, n: nat, f: Module)
    requires n <= |mts|
    ensures forall mt :: mt in StoreAll(t, mts, n, f) <==> mt in t || mt in mts[..n]
    ensures forall mt | mt in StoreAll(t, mts, n, f) ::
      StoreAll(t, mts, n, f)[mt] == if mt in mts[..n] then f else t[mt]
  {
    if n > 0 {
      StoreAllSpec(t, mts, n - 1, f);
      assert mts[..n] == mts[..n - 1] + [mts[n - 1]];
    }
  }

  /** The table maps a MIME type exactly when a format lists it, and to the last format that does. */
  lemma {:induction false} TableIsOwner(formats: seq<Module>, mt: string)
    ensures mt in Table(formats) <==> Owner(formats, mt).Some?
    ensures mt in Table(formats) ==> Table(formats)[mt] == Owner(formats, mt).value
  {
    if formats != [] {
      var prefix := formats[..|formats| - 1];
      var f := formats[|formats| - 1];
      TableIsOwner(prefix, mt);
      StoreAllSpec(Table(prefix), MimetypesOf(f), |MimetypesOf(f)|, f);
      assert MimetypesOf(f)[..|MimetypesOf(f)|] == MimetypesOf(f);
    }
  }

  /** Every MIME type of every format is registered. */
  lemma EveryMimetypeRegistered(formats: seq<Module>, i: nat, mt: string)
    requires i < |formats| && mt in MimetypesOf(formats[i])
    ensures mt in Table(formats)
  {
    TableIsOwner(formats, mt);
  }

  /** When two formats list the same MIME type, the later one parses it. */
  lemma {:induction false} LaterFormatWins(formats: seq<Module>, i: nat, j: nat, mt: string)
    requires i < j < |formats|
    requires mt in MimetypesOf(formats[i]) && mt in MimetypesOf(formats[j])
    requires forall k | j < k < |formats| :: mt !in MimetypesOf(formats[k])
    ensures mt in Table(formats) && Table(formats)[mt] == formats[j]
  {
    TableIsOwner(formats, mt);
    LastOwner(formats, j, mt);
  }

  lemma {:induction false} LastOwner(formats: seq<Module>, j: nat, mt: string)
    requires j < |formats| && mt in MimetypesOf(formats[j])
    requires forall k | j < k < |formats| :: mt !in MimetypesOf(formats[k])
    ensures Owner(formats, mt) == Some(formats[j])
  {
    if j < |formats| - 1 {
      var prefix := formats[..|formats| - 1];
      LastOwner(prefix, j, mt);
    }
  }

  /** `make_parser(formats)`: the nested loops that fill the table. */
  method MakeParser(formats: seq<Module>) returns (table: ParserTable)
    requires forall f | f in formats :: Valid(f)
    ensures table == Table(formats)
  {
    table := map[];
    for i := 0 to |formats|
      invariant table == Table(formats[..i])
    {
      var f := formats[i];
      assert formats[..i + 1][..i] == formats[..i];
      var mts := MimetypesOf(f);
      for j := 0 to |mts|
        invariant table == StoreAll(Table(formats[..i]), mts, j, f)
      {
        table := table[mts[j] := f];
      }
    }
    assert formats[..|formats|] == formats;
  }

  /** The `options` the parser receives: only the charset, `None` included. */
  function ParseOptions(charset: Option<string>): map<string, Json>
  {
    map["encoding" := if charset.None? then JNull else JStr(charset.value)]
  }

  /** `'%s' % mimetype`, with `None` printed as `None`. */
  function Show(mimetype: Option<string>): string
  {
    if mimetype.None? then "None" else mimetype.value
  }

  /**
   * `parse_data(data, mimetype, charset)`: `toJsonld(f, data, options)` stands
   * for calling the `to_jsonld` of module `f`.
   */
  function ParseData(table: ParserTable, toJsonld: (Module, string, map<string, Json>) -> Json,
                     data: string, mimetype: Option<string>, charset: Option<string>): (r: Result<Json>)
    ensures r.Failure? <==> mimetype.None? || mimetype.value !in table
    ensures r.Failure? ==> r.error == NotImplementedError("not implemented: parsing " + Show(mimetype))
    ensures r.Success? ==> r.value == toJsonld(table[mimetype.value], data, ParseOptions(charset))
  {
    if mimetype.Some? && mimetype.value in table then
      Success(toJsonld(table[mimetype.value], data, ParseOptions(charset)))
    else
      Failure(NotImplementedError("not implemented: parsing " + Show(mimetype)))
  }

  /** The charset never changes which parser is chosen, or whether one is. */
  lemma CharsetIrrelevant(table: ParserTable, toJsonld: (Module, string, map<string, Json>) -> Json,
                          data: string, mimetype: Option<string>, c1: Option<string>, c2: Option<string>)
    ensures ParseData(table, toJsonld, data, mimetype, c1).Success?
        <==> ParseData(table, toJsonld, data, mimetype, c2).Success?
    ensures ParseData(table, toJsonld, data, mimetype, c1).Success? ==>
      exists f :: ParseData(table, toJsonld, data, mimetype, c1).value == toJsonld(f, data, ParseOptions(c1))
        && ParseData(table, toJsonld, data, mimetype, c2).value == toJsonld(f, data, ParseOptions(c2))
  {
    if mimetype.Some? && mimetype.value in table {
      var f := table[mimetype.value];
      assert ParseData(table, toJsonld, data, mimetype, c1).value == toJsonld(f, data, ParseOptions(c1));
    }
  }

  /** With the shipped codecs, `text/turtle` is parsed by the Turtle module and an HTML body by the HTML module. */
  lemma ShippedTable(formats: seq<Module>)
    requires formats == [HtmlModule, TurtleModule]
    ensures "text/turtle" in Table(formats) && Table(formats)["text/turtle"] == TurtleModule
    ensures "text/html" in Table(formats) && Table(formats)["text/html"] == HtmlModule
    ensures "application/ld+json" !in Table(formats)
  {
    TableIsOwner(formats, "text/turtle");
    TableIsOwner(formats, "text/html");
    TableIsOwner(formats, "application/ld+json");
    assert formats[..1] == [HtmlModule];
  }
}
