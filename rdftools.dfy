/**
 * RDF support of the codecs: the table of RDF formats and their content
 * types, the clean-up of N-Quads produced by rdflib, and the path from any RDF
 * syntax to JSON-LD.
 */
module RdfTools {
  import opened JsonValue
  import opened PyStr
  import opened PyLd
  import opened Wrappers

  /** rdflib, reduced to the two calls made here; `G` is its graph type. */
  datatype RdfLib<!G> = RdfLib(parse: (string, string) -> G, serialize: (G, string) -> string)

  /** A format's short rdflib name and its content types. */
  type FormatEntry = (string, seq<string>)

  /**
   * `format_to_content_types`. The Python dict has no defined order; no content
   * type is listed twice (`DistinctContentTypes`), so its inverse does not
   * depend on it (`OwnerExact`).
   */
  const FormatToContentTypes: seq<FormatEntry> := [
    ("jsonld", ["application/ld+json"]),
    ("nt", ["application/n-triples"]),
    ("nquads", ["application/n-quads"]),
    ("n3", ["text/n3; charset=utf-8", "text/n3"]),
    ("trig", ["application/trig"]),
    ("trix", ["application/trix"]),
    ("turtle", ["text/turtle; charset=utf-8", "text/turtle"])
  ]

  /** No content type is listed under two formats. */
  predicate DistinctContentTypes(table: seq<FormatEntry>)
  {
    forall i, j, ct | 0 <= i < j < |table| && ct in table[i].1 :: ct !in table[j].1
  }

  /**
   * `content_type_to_format.get(ct)` for the dict
   * `dict((ct, name) for name, cts in table for ct in cts)`: the format of the
   * last entry listing `ct`, since a later pair overrides an earlier one.
   */
  function Owner(table: seq<FormatEntry>, ct: string): (r: Option<string>)
    ensures r.Some? ==> exists i | 0 <= i < |table| :: r.value == table[i].0 && ct in table[i].1
    ensures r.None? ==> forall i | 0 <= i < |table| :: ct !in table[i].1
  {
    if table == [] then None
    else if ct in table[|table| - 1].1 then Some(table[|table| - 1].0)
    else Owner(table[..|table| - 1], ct)
  }

  /**
   * With distinct content types, a content type has an owner exactly when the
   * table lists it, and the owner is the format listing it.
   */
  lemma {:induction false} OwnerExact(table: seq<FormatEntry>, i: nat, ct: string)
    requires DistinctContentTypes(table)
    requires i < |table| && ct in table[i].1
    ensures Owner(table, ct) == Some(table[i].0)
  {
    var n := |table| - 1;
    if i < n {
      assert ct !in table[n].1;
      assert table[..n][i] == table[i];
      OwnerExact(table[..n], i, ct);
    }
  }

  lemma ShippedTableDistinct()
    ensures DistinctContentTypes(FormatToContentTypes)
  {
  }

  /** Every content type listed for a format maps back to that format's short name. */
  lemma ContentTypesMapBack(i: nat, ct: string)
    requires i < |FormatToContentTypes| && ct in FormatToContentTypes[i].1
    ensures Owner(FormatToContentTypes, ct) == Some(FormatToContentTypes[i].0)
  {
    ShippedTableDistinct();
    OwnerExact(FormatToContentTypes, i, ct);
  }

  /** Both Turtle and both Notation3 content types, with and without charset. */
  lemma CharsetVariants()
    ensures MapFormat("text/turtle") == "turtle"
    ensures MapFormat("text/turtle; charset=utf-8") == "turtle"
    ensures MapFormat("text/n3") == "n3"
    ensures MapFormat("text/n3; charset=utf-8") == "n3"
  {
    ContentTypesMapBack(6, "text/turtle");
    ContentTypesMapBack(6, "text/turtle; charset=utf-8");
    ContentTypesMapBack(3, "text/n3");
    ContentTypesMapBack(3, "text/n3; charset=utf-8");
  }

  /** `content_type_to_format.get(format, format)`. */
  function MapFormat(format: string): string
  {
    match Owner(FormatToContentTypes, format)
    case Some(name) => name
    case None => format
  }

  /** No short name is itself a listed content type. */
  lemma ShortNamesUnlisted(i: nat)
    requires i < |FormatToContentTypes|
    ensures Owner(FormatToContentTypes, FormatToContentTypes[i].0) == None
  {
  }

  /**
   * A listed content type becomes its format's short name, anything else is
   * kept, and mapping twice is mapping once.
   */
  lemma MapFormatSpec(format: string)
    ensures forall i | 0 <= i < |FormatToContentTypes| && format in FormatToContentTypes[i].1 ::
              MapFormat(format) == FormatToContentTypes[i].0
    ensures (forall i | 0 <= i < |FormatToContentTypes| :: format !in FormatToContentTypes[i].1) ==>
              MapFormat(format) == format
    ensures MapFormat(MapFormat(format)) == MapFormat(format)
  {
    forall i | 0 <= i < |FormatToContentTypes| && format in FormatToContentTypes[i].1
      ensures MapFormat(format) == FormatToContentTypes[i].0
    {
      ContentTypesMapBack(i, format);
    }
    var owner := Owner(FormatToContentTypes, format);
    if owner.Some? {
      var i :| 0 <= i < |FormatToContentTypes| && owner.value == FormatToContentTypes[i].0 && format in FormatToContentTypes[i].1;
      ShortNamesUnlisted(i);
    }
  }

  /** `from_string(data, format)`: rdflib parses under the mapped format name. */
  function FromString<G>(lib: RdfLib<G>, data: string, format: string): G
  {
    lib.parse(data, MapFormat(format))
  }

  /** `_is_blank(i)`: `i.startswith('_:')`. */
  predicate IsBlank(i: string)
  {
    "_:" <= i
  }

  /** One line of `_remove_blank_graph_labels`: its fields, without a blank fourth one. */
  function LabelDropped(fields: seq<string>): seq<string>
  {
    if |fields| >= 4 && IsBlank(fields[3]) then fields[..3] + fields[4..] else fields
  }

  /** The output line for an input line: the surviving fields joined by single spaces. */
  function ProcessLine(line: string): string
  {
    JoinWith(" ", LabelDropped(Fields(line)))
  }

  /** What `_remove_blank_graph_labels` returns. */
  function BlankLabelsRemoved(data: string): string
  {
    var lines := SplitOn(data, '\n');
    JoinWith("\n", seq(|lines|, i requires 0 <= i < |lines| => ProcessLine(lines[i])))
  }

  /** `_remove_blank_graph_labels(data)`. */
  method RemoveBlankGraphLabels(data: string) returns (r: string)
    ensures r == BlankLabelsRemoved(data)
  {
    var lines := SplitOn(data, '\n');
    var processed: seq<string> := [];
    for i := 0 to |lines|
      invariant processed == seq(i, k requires 0 <= k < i => ProcessLine(lines[k]))
    {
      var fields := Fields(lines[i]);
      if |fields| >= 4 && IsBlank(fields[3]) {
        fields := fields[..3] + fields[4..];
      }
      processed := processed + [JoinWith(" ", fields)];
    }
    r := JoinWith("\n", processed);
  }

  /**
   * A processed line has exactly the input line's fields, in order, less a
   * blank fourth one; a line without one is only whitespace-normalised.
   */
  lemma ProcessLineFields(line: string)
    ensures Fields(ProcessLine(line)) == LabelDropped(Fields(line))
    ensures '\n' !in ProcessLine(line)
    ensures !(|Fields(line)| >= 4 && IsBlank(Fields(line)[3])) ==> ProcessLine(line) == JoinWith(" ", Fields(line))
  {
    var kept := LabelDropped(Fields(line));
    assert forall i | 0 <= i < |kept| :: kept[i] != [] && NoSpace(kept[i]);
    FieldsJoinSpace(kept);
    NoNewline(kept);
  }

  lemma {:induction false} NoNewline(parts: seq<string>)
    requires forall i | 0 <= i < |parts| :: NoSpace(parts[i])
    ensures '\n' !in JoinWith(" ", parts)
  {
    if |parts| > 1 {
      NoNewline(parts[1..]);
      assert '\n' !in parts[0];
    } else if |parts| == 1 {
      assert '\n' !in parts[0];
    }
  }

  /** The output has as many lines as the input, and each is the processed input line. */
  lemma LinesPreserved(data: string)
    ensures |SplitOn(BlankLabelsRemoved(data), '\n')| == |SplitOn(data, '\n')|
    ensures forall i | 0 <= i < |SplitOn(data, '\n')| ::
      SplitOn(BlankLabelsRemoved(data), '\n')[i] == ProcessLine(SplitOn(data, '\n')[i])
  {
    var lines := SplitOn(data, '\n');
    var out := seq(|lines|, i requires 0 <= i < |lines| => ProcessLine(lines[i]));
    forall i | 0 <= i < |out|
      ensures '\n' !in out[i]
    {
      ProcessLineFields(lines[i]);
    }
    SplitJoin(out, '\n');
  }

  /** The documented example: the blank graph label is dropped. */
  lemma DocExample(data: string)
    requires data == "<ex:1> <ex:2> <ex:3> _:b0 ."
    ensures BlankLabelsRemoved(data) == "<ex:1> <ex:2> <ex:3> ."
  {
    var fields := ["<ex:1>", "<ex:2>", "<ex:3>", "_:b0", "."];
    var kept := ["<ex:1>", "<ex:2>", "<ex:3>", "."];
    JoinExamples(fields, kept);
    FieldsJoinSpace(fields);
    assert LabelDropped(fields) == kept;
    NoNewline(fields);
    SplitJoin([data], '\n');
  }

  lemma JoinExamples(fields: seq<string>, kept: seq<string>)
    requires fields == ["<ex:1>", "<ex:2>", "<ex:3>", "_:b0", "."]
    requires kept == ["<ex:1>", "<ex:2>", "<ex:3>", "."]
    ensures JoinWith(" ", fields) == "<ex:1> <ex:2> <ex:3> _:b0 ."
    ensures JoinWith(" ", kept) == "<ex:1> <ex:2> <ex:3> ."
  {
    JoinFieldsExample(fields);
    JoinKeptExample(kept);
  }

  lemma JoinFieldsExample(fields: seq<string>)
    requires fields == ["<ex:1>", "<ex:2>", "<ex:3>", "_:b0", "."]
    ensures JoinWith(" ", fields) == "<ex:1> <ex:2> <ex:3> _:b0 ."
  {
    assert JoinWith(" ", fields[4..]) == ".";
    assert JoinWith(" ", fields[3..]) == "_:b0" + " " + ".";
    assert JoinWith(" ", fields[2..]) == "<ex:3>" + " " + ("_:b0" + " " + ".");
    assert JoinWith(" ", fields[1..]) == "<ex:2>" + " " + ("<ex:3>" + " " + ("_:b0" + " " + "."));
    assert JoinWith(" ", fields) == "<ex:1>" + " " + ("<ex:2>" + " " + ("<ex:3>" + " " + ("_:b0" + " " + ".")));
  }

  lemma JoinKeptExample(kept: seq<string>)
    requires kept == ["<ex:1>", "<ex:2>", "<ex:3>", "."]
    ensures JoinWith(" ", kept) == "<ex:1> <ex:2> <ex:3> ."
  {
    assert JoinWith(" ", kept[3..]) == ".";
    assert JoinWith(" ", kept[2..]) == "<ex:3>" + " " + ".";
    assert JoinWith(" ", kept[1..]) == "<ex:2>" + " " + ("<ex:3>" + " " + ".");
    assert JoinWith(" ", kept) == "<ex:1>" + " " + ("<ex:2>" + " " + ("<ex:3>" + " " + "."));
  }

  /**
   * `to_jsonld(data, format)`: anything but N-Quads is first parsed by rdflib,
   * re-serialised as N-Quads and stripped of the blank graph labels that
   * conversion adds; pyld then reads the N-Quads.
   */
  method ToJsonld<G>(lib: RdfLib<G>, pyld: Processor, data: string, format: string) returns (r: Json)
    ensures MapFormat(format) == "nquads" ==> r == pyld.fromRdf(data, NQuadsOptions)
    ensures MapFormat(format) != "nquads" ==>
              r == pyld.fromRdf(BlankLabelsRemoved(lib.serialize(FromString(lib, data, format), "nquads")), NQuadsOptions)
  {
    var quads := data;
    if MapFormat(format) != "nquads" {
      var graph := FromString(lib, data, format);
      quads := lib.serialize(graph, "nquads");
      quads := RemoveBlankGraphLabels(quads);
    }
    r := pyld.fromRdf(quads, NQuadsOptions);
  }

  /** N-Quads, named by content type or by short name, reaches pyld untouched. */
  lemma NQuadsBypassesRdflib()
    ensures MapFormat("application/n-quads") == "nquads"
    ensures MapFormat("nquads") == "nquads"
  {
    ContentTypesMapBack(2, "application/n-quads");
    ShortNamesUnlisted(2);
  }
}
