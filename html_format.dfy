/**
 * The HTML codec: renders an expanded JSON-LD value as an HTML page by walking
 * the JSON tree and appending pieces to one shared accumulator list, then
 * joining the pieces between a fixed header and trailer.
 *
 * The accumulator holds `Piece`s rather than strings: a tag the renderer writes
 * is `Text`, and the three ways a JSON value gets into the output (`str(v)`,
 * the raw value of a value object, and `'%s' % v` inside a link or a time
 * element) stay symbolic until the join, where `Join` says what Python 2
 * makes of them, including the two exceptions the walk can raise.
 */
module HtmlFormat {
  import opened Wrappers
  import opened JsonValue
  import opened Sorting
  import opened PercentEncoding

  /** The codec's short name and the MIME types it answers to. */
  const FormatName: string := "html"
  const Mimetypes: seq<string> := ["text/html", "text/html; charset=UTF-8"]

  const Header: string :=
    "<!DOCTYPE html>\n"
    + "<html lang=\"en\">\n"
    + "  <head>\n"
    + "    <meta charset=\"utf-8\">\n"
    + "    <title>JSON-LD</title>\n"
    + "    <link rel=\"stylesheet\" href=\"/static/css/bootstrap.css\">\n"
    + "    <link rel=\"stylesheet\" href=\"/static/css/bootstrap-theme.css\">\n"
    + "    <link rel=\"stylesheet\" href=\"/static/css/style.css\">\n"
    + "    <link rel=\"stylesheet\" href=\"/static/css/hint.css\">\n"
    + "    <link href='http://fonts.googleapis.com/css?family=Montserrat:400,700' rel='stylesheet' type='text/css'>\n"
    + "  </head>\n"
    + "  <body>\n"

  const Trailer: string := "  </body>\n</html>\n"

  const ValueKey: string := "@value"
  const TypeKey: string := "@type"
  const DateTimeStamp: string := "http://www.w3.org/2001/XMLSchema#dateTimeStamp"

  /** One entry of the accumulator list. */
  datatype Piece =
    | Text(s: string)   // a literal the renderer writes (a tag)
    | Str(v: Json)      // `str(v)` of a scalar or of a key
    | Raw(v: Json)      // the `@value` of a plain value object, appended as it is
    | Link(v: Json)     // `'<a href="%s">%s</a>' % (v, v)`
    | Time(v: Json)     // `'<time datetime="%s">%s</time>' % (v, v)`

  /** The accumulator list the helpers append to. */
  class HtmlList {
    var pieces: seq<Piece>

    constructor()
      ensures pieces == []
    {
      pieces := [];
    }

    method Append(p: Piece)
      modifies this
      ensures pieces == old(pieces) + [p]
    {
      pieces := pieces + [p];
    }
  }

  // ---------------------------------------------------------------------
  // The predicates on dicts

  /** A JSON-LD value object holding only `@value`. */
  predicate IsPlainValue(m: map<string, Json>)
  {
    |m| == 1 && ValueKey in m
  }

  /** A value object holding `@value` and an `@type` of `xsd:dateTimeStamp`. */
  predicate IsDatetime(m: map<string, Json>)
  {
    |m| == 2 && ValueKey in m && TypeKey in m && m[TypeKey] == JStr(DateTimeStamp)
  }

  /** `len(v)`, or `None` where Python raises `TypeError`. */
  function PyLen(v: Json): Option<nat>
  {
    match v
    case JStr(s) => Some(|s|)
    case JArr(items) => Some(|items|)
    case JObj(m) => Some(|m|)
    case _ => None
  }

  /** `v['@id']`: a dict lookup, `KeyError` when absent, `TypeError` on a string or a list. */
  function GetUrl(v: Json): (r: Result<Json>)
    ensures r.Success? <==> v.JObj? && IdKey in v.members
    ensures r.Success? ==> r.value == v.members[IdKey]
    ensures r.Failure? ==> (r.error == KeyError <==> v.JObj?) && (r.error == TypeError <==> !v.JObj?)
  {
    match v
    case JObj(m) => if IdKey in m then Success(m[IdKey]) else Failure(KeyError)
    case _ => Failure(TypeError)
  }

  /** `_is_url`: every exception of the body counts as `False`. */
  function IsUrl(v: Json): (r: bool)
    ensures r <==> v.JObj? && v.members.Keys == {IdKey}
  {
    match PyLen(v)
    case None => false
    case Some(n) =>
      if n != 1 then false
      else
        var url := GetUrl(v);
        if url.Success? then
          SingleKey(v.members);
          true
        else false
  }

  lemma SingleKey(m: map<string, Json>)
    requires |m| == 1 && IdKey in m
    ensures m.Keys == {IdKey}
  {
    var rest := m.Keys - {IdKey};
    assert m.Keys == {IdKey} + rest;
    assert |rest| == 0;
  }

  // ---------------------------------------------------------------------
  // What the walk appends

  /** `_to_html(v)`: the pieces appended for `v`. */
  ghost function Html(v: Json): seq<Piece>
    decreases v, 2
  {
    match v
    case JArr(items) => ListHtml(items)
    case JObj(m) => DictHtml(m)
    case _ => [Str(v)]
  }

  /** `_list_to_html`: a one-element list is its element; any other list is a `<ul>`. */
  ghost function ListHtml(items: seq<Json>): seq<Piece>
    decreases JArr(items), 1
  {
    if |items| == 1 then Html(items[0])
    else [Text("<ul>\n")] + ItemsHtml(items, |items|) + [Text("</ul>\n")]
  }

  /** The `<li>` entries of the first `n` items. */
  ghost function ItemsHtml(items: seq<Json>, n: nat): seq<Piece>
    requires n <= |items|
    decreases JArr(items), 0, n
  {
    if n == 0 then []
    else ItemsHtml(items, n - 1) + [Text("<li>")] + Html(items[n - 1]) + [Text("</li>\n")]
  }

  /** `_dict_to_html`: a plain value, a datetime, or a `<dl>` of the entries in key order. */
  ghost function DictHtml(m: map<string, Json>): seq<Piece>
    decreases JObj(m), 1
  {
    if IsPlainValue(m) then [Raw(m[ValueKey])]
    else if IsDatetime(m) then [Time(m[ValueKey])]
    else
      var keys := SortedKeys(m.Keys);
      [Text("<dl>\n")] + EntriesHtml(m, keys, |keys|) + [Text("</dl>\n")]
  }

  /** The entries for the first `n` of `keys`. */
  ghost function EntriesHtml(m: map<string, Json>, keys: seq<string>, n: nat): seq<Piece>
    requires n <= |keys|
    requires forall k | k in keys :: k in m
    decreases JObj(m), 0, n
  {
    if n == 0 then []
    else EntriesHtml(m, keys, n - 1) + KeyValueHtml(keys[n - 1], m[keys[n - 1]])
  }

  /** `_key_value_to_html`: `@id` becomes a link, any other key a `<dt>`/`<dd>` pair. */
  ghost function KeyValueHtml(key: string, value: Json): seq<Piece>
    decreases value, 3
  {
    if key == IdKey then [Link(value)]
    else [Text("<dt>"), Str(JStr(key)), Text("</dt>"), Text("<dd>")] + Html(value) + [Text("</dd>\n")]
  }

  // ---------------------------------------------------------------------
  // The walk, appending to the shared list

  lemma Enclose(before: seq<Piece>, open: Piece, body: seq<Piece>, close: Piece)
    ensures before + [open] + body + [close] == before + ([open] + body + [close])
  {
  }

  /** `_to_html(value, html)`. */
  method ToHtml(value: Json, html: HtmlList)
    modifies html
    ensures html.pieces == old(html.pieces) + Html(value)
    decreases if value.IsScalar() then 0 else 1, value, 2
  {
    match value
    case JArr(items) => ListToHtml(items, html);
    case JObj(m) => DictToHtml(m, html);
    case _ => html.Append(Str(value));
  }

  /** `_list_to_html(list_, html)`. */
  method ListToHtml(items: seq<Json>, html: HtmlList)
    modifies html
    ensures html.pieces == old(html.pieces) + ListHtml(items)
    decreases 1, JArr(items), 1
  {
    if |items| == 1 {
      ToHtml(items[0], html);
    } else {
      html.Append(Text("<ul>\n"));
      ItemsToHtml(items, html);
      html.Append(Text("</ul>\n"));
      Enclose(old(html.pieces), Text("<ul>\n"), ItemsHtml(items, |items|), Text("</ul>\n"));
    }
  }

  /** The loop of `_list_to_html` over a list other than a one-element one. */
  method ItemsToHtml(items: seq<Json>, html: HtmlList)
    modifies html
    ensures html.pieces == old(html.pieces) + ItemsHtml(items, |items|)
    decreases 1, JArr(items), 0
  {
    for i := 0 to |items|
      invariant html.pieces == old(html.pieces) + ItemsHtml(items, i)
    {
      ghost var before := html.pieces;
      html.Append(Text("<li>"));
      ToHtml(items[i], html);
      html.Append(Text("</li>\n"));
      Enclose(before, Text("<li>"), Html(items[i]), Text("</li>\n"));
      Enclose(ItemsHtml(items, i), Text("<li>"), Html(items[i]), Text("</li>\n"));
    }
  }

  /** `_plain_value_to_html(dict_, html)`. */
  method PlainValueToHtml(m: map<string, Json>, html: HtmlList)
    requires ValueKey in m
    modifies html
    ensures html.pieces == old(html.pieces) + [Raw(m[ValueKey])]
  {
    html.Append(Raw(m[ValueKey]));
  }

  /** `_datetime_to_html(dict_, html)`. */
  method DatetimeToHtml(m: map<string, Json>, html: HtmlList)
    requires ValueKey in m
    modifies html
    ensures html.pieces == old(html.pieces) + [Time(m[ValueKey])]
  {
    html.Append(Time(m[ValueKey]));
  }

  /** `_key_value_to_html(key, value, html)`. */
  method KeyValueToHtml(key: string, value: Json, html: HtmlList)
    modifies html
    ensures html.pieces == old(html.pieces) + KeyValueHtml(key, value)
    decreases 1, value, 3
  {
    if key == IdKey {
      html.Append(Link(value));
    } else {
      html.Append(Text("<dt>"));
      ToHtml(JStr(key), html);
      html.Append(Text("</dt>"));
      html.Append(Text("<dd>"));
      ToHtml(value, html);
      html.Append(Text("</dd>\n"));
    }
  }

  /** `_dict_to_html(dict_, html)`; `sorted(dict_.items())` orders by key, as keys are distinct. */
  method DictToHtml(m: map<string, Json>, html: HtmlList)
    modifies html
    ensures html.pieces == old(html.pieces) + DictHtml(m)
    decreases 1, JObj(m), 1
  {
    if IsPlainValue(m) {
      PlainValueToHtml(m, html);
    } else if IsDatetime(m) {
      DatetimeToHtml(m, html);
    } else {
      html.Append(Text("<dl>\n"));
      var keys := SortKeys(m.Keys);
      EntriesToHtml(m, keys, html);
      html.Append(Text("</dl>\n"));
      Enclose(old(html.pieces), Text("<dl>\n"), EntriesHtml(m, keys, |keys|), Text("</dl>\n"));
    }
  }

  /** The loop of `_dict_to_html` over the entries, in the order of `keys`. */
  method EntriesToHtml(m: map<string, Json>, keys: seq<string>, html: HtmlList)
    requires forall k | k in keys :: k in m
    modifies html
    ensures html.pieces == old(html.pieces) + EntriesHtml(m, keys, |keys|)
    decreases 1, JObj(m), 0
  {
    for i := 0 to |keys|
      invariant html.pieces == old(html.pieces) + EntriesHtml(m, keys, i)
    {
      KeyValueToHtml(keys[i], m[keys[i]], html);
    }
  }

  // ---------------------------------------------------------------------
  // Joining the pieces

  /** `str(v)`; `repr` stands for Python's printing of a list or a dict. */
  function StrOf(v: Json, repr: Json -> string): Result<string>
  {
    match v
    case JNull => Success("None")
    case JBool(b) => Success(if b then "True" else "False")
    case JNum(n) => Success(Decimal(n))
    case JStr(s) => if IsAscii(s) then Success(s) else Failure(UnicodeEncodeError)
    case _ => Success(repr(v))
  }

  /** `'%s' % v`: a `unicode` string is kept as it is. */
  function Format(v: Json, repr: Json -> string): string
  {
    match v
    case JStr(s) => s
    case JNull => "None"
    case JBool(b) => if b then "True" else "False"
    case JNum(n) => Decimal(n)
    case _ => repr(v)
  }

  /** The `str()` of the walk that raises: a string outside ASCII. */
  predicate StrFails(p: Piece)
  {
    p.Str? && p.v.JStr? && !IsAscii(p.v.s)
  }

  /** What `''.join` refuses: an element that is not a string. */
  predicate JoinFails(p: Piece)
  {
    p.Raw? && !p.v.JStr?
  }

  function PieceText(p: Piece, repr: Json -> string): Result<string>
  {
    match p
    case Text(s) => Success(s)
    case Str(v) => StrOf(v, repr)
    case Raw(v) => if v.JStr? then Success(v.s) else Failure(TypeError)
    case Link(v) => Success("<a href=\"" + Format(v, repr) + "\">" + Format(v, repr) + "</a>")
    case Time(v) => Success("<time datetime=\"" + Format(v, repr) + "\">" + Format(v, repr) + "</time>")
  }

  function Concat(ps: seq<Piece>, repr: Json -> string): Result<string>
  {
    if ps == [] then Success([])
    else
      match PieceText(ps[0], repr)
      case Failure(e) => Failure(e)
      case Success(t) =>
        match Concat(ps[1..], repr)
        case Failure(e) => Failure(e)
        case Success(rest) => Success(t + rest)
  }

  /**
   * The pieces joined as `''.join` does. A failing `str()` happens during the
   * walk, before the join, so it is reported first.
   */
  function Join(ps: seq<Piece>, repr: Json -> string): Result<string>
  {
    if exists i | 0 <= i < |ps| :: StrFails(ps[i]) then Failure(UnicodeEncodeError)
    else Concat(ps, repr)
  }

  lemma {:induction false} ConcatAppend(a: seq<Piece>, b: seq<Piece>, repr: Json -> string)
    ensures Concat(a + b, repr) ==
      match Concat(a, repr)
      case Failure(e) => Failure(e)
      case Success(x) =>
        match Concat(b, repr)
        case Failure(e) => Failure(e)
        case Success(y) => Success(x + y)
  {
    if a == [] {
      assert a + b == b;
      if Concat(b, repr).Success? {
        assert [] + Concat(b, repr).value == Concat(b, repr).value;
      }
    } else {
      assert (a + b)[0] == a[0] && (a + b)[1..] == a[1..] + b;
      ConcatAppend(a[1..], b, repr);
      if Concat(a, repr).Success? && Concat(b, repr).Success? {
        var t := PieceText(a[0], repr).value;
        assert Concat(a, repr).value == t + Concat(a[1..], repr).value;
        assert t + (Concat(a[1..], repr).value + Concat(b, repr).value)
          == (t + Concat(a[1..], repr).value) + Concat(b, repr).value;
      }
    }
  }

  lemma ConcatOne(p: Piece, repr: Json -> string)
    ensures Concat([p], repr) == PieceText(p, repr)
  {
    assert [p][1..] == [];
    if PieceText(p, repr).Success? {
      assert PieceText(p, repr).value + [] == PieceText(p, repr).value;
    }
  }

  predicate PieceOk(p: Piece)
  {
    !StrFails(p) && !JoinFails(p)
  }

  predicate PiecesOk(ps: seq<Piece>)
  {
    forall p | p in ps :: PieceOk(p)
  }

  lemma PiecesOkAppend(a: seq<Piece>, b: seq<Piece>)
    ensures PiecesOk(a + b) <==> PiecesOk(a) && PiecesOk(b)
  {
    assert forall p | p in a + b :: p in a || p in b;
  }

  lemma {:induction false} ConcatSucceeds(ps: seq<Piece>, repr: Json -> string)
    ensures Concat(ps, repr).Success? <==> forall p | p in ps :: !StrFails(p) && !JoinFails(p)
  {
    if ps != [] {
      ConcatSucceeds(ps[1..], repr);
      assert forall p | p in ps :: p == ps[0] || p in ps[1..];
      assert ps[0] in ps && forall p | p in ps[1..] :: p in ps;
    }
  }

  /** The join succeeds exactly when no piece makes Python raise. */
  lemma JoinSucceeds(ps: seq<Piece>, repr: Json -> string)
    ensures Join(ps, repr).Success? <==> PiecesOk(ps)
    ensures Join(ps, repr).Failure? ==>
      Join(ps, repr).error == (if exists p | p in ps :: StrFails(p) then UnicodeEncodeError else TypeError)
  {
    ConcatSucceeds(ps, repr);
    if exists p | p in ps :: StrFails(p) {
      var p :| p in ps && StrFails(p);
      var i :| 0 <= i < |ps| && ps[i] == p;
    } else if !PiecesOk(ps) {
      ConcatFailsWithTypeError(ps, repr);
    }
  }

  lemma {:induction false} ConcatFailsWithTypeError(ps: seq<Piece>, repr: Json -> string)
    requires forall p | p in ps :: !StrFails(p)
    ensures Concat(ps, repr).Failure? ==> Concat(ps, repr).error == TypeError
  {
    if ps != [] {
      assert ps[0] in ps;
      assert forall p | p in ps[1..] :: p in ps;
      ConcatFailsWithTypeError(ps[1..], repr);
    }
  }

  // ---------------------------------------------------------------------
  // Which documents render

  /**
   * The documents the renderer turns into a page: every string it passes to
   * `str()` (scalars and the keys of generic dicts) is ASCII, and every plain
   * value object it meets holds a string.
   */
  predicate Renderable(v: Json)
    decreases v, 0
  {
    match v
    case JStr(s) => IsAscii(s)
    case JArr(items) => forall i | 0 <= i < |items| :: Renderable(items[i])
    case JObj(m) =>
      if IsPlainValue(m) then m[ValueKey].JStr?
      else IsDatetime(m) || forall k | k in m :: EntryRenderable(k, m[k])
    case _ => true
  }

  predicate EntryRenderable(k: string, value: Json)
    decreases value, 1
  {
    k == IdKey || (IsAscii(k) && Renderable(value))
  }

  /** The pieces of `v` join without an exception exactly when `v` is `Renderable`. */
  lemma {:induction false} HtmlOk(v: Json)
    ensures PiecesOk(Html(v)) <==> Renderable(v)
    decreases v, 2
  {
    match v
    case JArr(items) => ListOk(items);
    case JObj(m) => DictOk(m);
    case _ => assert Str(v) in Html(v);
  }

  lemma {:induction false} ListOk(items: seq<Json>)
    ensures PiecesOk(ListHtml(items)) <==> Renderable(JArr(items))
    decreases JArr(items), 1
  {
    if |items| == 1 {
      HtmlOk(items[0]);
    } else {
      ItemsOk(items, |items|);
      PiecesOkAppend([Text("<ul>\n")], ItemsHtml(items, |items|));
      PiecesOkAppend([Text("<ul>\n")] + ItemsHtml(items, |items|), [Text("</ul>\n")]);
    }
  }

  lemma {:induction false} DictOk(m: map<string, Json>)
    ensures PiecesOk(DictHtml(m)) <==> Renderable(JObj(m))
    decreases JObj(m), 1
  {
    if IsPlainValue(m) {
      assert Raw(m[ValueKey]) in DictHtml(m);
    } else if IsDatetime(m) {
      assert DictHtml(m) == [Time(m[ValueKey])];
    } else {
      var keys := SortedKeys(m.Keys);
      EntriesOk(m, keys, |keys|);
      DefinitionListOk(m, keys);
    }
  }

  lemma DefinitionListOk(m: map<string, Json>, keys: seq<string>)
    requires !IsPlainValue(m) && !IsDatetime(m) && keys == SortedKeys(m.Keys)
    requires PiecesOk(EntriesHtml(m, keys, |keys|)) <==> forall i | 0 <= i < |keys| :: EntryRenderable(keys[i], m[keys[i]])
    ensures PiecesOk(DictHtml(m)) <==> forall k | k in m :: EntryRenderable(k, m[k])
  {
    var entries := EntriesHtml(m, keys, |keys|);
    assert DictHtml(m) == [Text("<dl>\n")] + entries + [Text("</dl>\n")];
    PiecesOkAppend([Text("<dl>\n")], entries);
    PiecesOkAppend([Text("<dl>\n")] + entries, [Text("</dl>\n")]);
    EveryKeyListed(m, keys);
  }

  lemma EveryKeyListed(m: map<string, Json>, keys: seq<string>)
    requires forall k :: k in keys <==> k in m
    ensures (forall i | 0 <= i < |keys| :: EntryRenderable(keys[i], m[keys[i]]))
        <==> (forall k | k in m :: EntryRenderable(k, m[k]))
  {
    assert forall k | k in m :: exists i | 0 <= i < |keys| :: keys[i] == k;
  }

  lemma {:induction false} ItemsOk(items: seq<Json>, n: nat)
    requires n <= |items|
    ensures PiecesOk(ItemsHtml(items, n)) <==> forall i | 0 <= i < n :: Renderable(items[i])
    decreases JArr(items), 0, n
  {
    if n > 0 {
      ItemsOk(items, n - 1);
      HtmlOk(items[n - 1]);
      var item := Html(items[n - 1]);
      PiecesOkAppend(ItemsHtml(items, n - 1) + [Text("<li>")], item);
      PiecesOkAppend(ItemsHtml(items, n - 1) + [Text("<li>")] + item, [Text("</li>\n")]);
      PiecesOkAppend(ItemsHtml(items, n - 1), [Text("<li>")]);
    }
  }

  lemma {:induction false} EntriesOk(m: map<string, Json>, keys: seq<string>, n: nat)
    requires n <= |keys|
    requires forall k | k in keys :: k in m
    ensures PiecesOk(EntriesHtml(m, keys, n)) <==> forall i | 0 <= i < n :: EntryRenderable(keys[i], m[keys[i]])
    decreases JObj(m), 0, n
  {
    if n > 0 {
      EntriesOk(m, keys, n - 1);
      var k := keys[n - 1];
      PiecesOkAppend(EntriesHtml(m, keys, n - 1), KeyValueHtml(k, m[k]));
      KeyValueOk(k, m[k]);
    }
  }

  lemma KeyValueOk(k: string, value: Json)
    ensures PiecesOk(KeyValueHtml(k, value)) <==> EntryRenderable(k, value)
    decreases value, 3
  {
    if k != IdKey {
      HtmlOk(value);
      var term := [Text("<dt>"), Str(JStr(k)), Text("</dt>"), Text("<dd>")];
      PiecesOkAppend(term, Html(value));
      PiecesOkAppend(term + Html(value), [Text("</dd>\n")]);
      assert PiecesOk(term) <==> IsAscii(k) by {
        assert term[1] in term;
      }
    } else {
      assert Link(value) in KeyValueHtml(k, value);
    }
  }

  // ---------------------------------------------------------------------
  // No entry is dropped

  lemma {:induction false} EntriesShow(m: map<string, Json>, keys: seq<string>, n: nat, i: nat)
    requires n <= |keys|
    requires forall k | k in keys :: k in m
    requires i < n
    ensures forall p | p in KeyValueHtml(keys[i], m[keys[i]]) :: p in EntriesHtml(m, keys, n)
  {
    if i < n - 1 {
      EntriesShow(m, keys, n - 1, i);
    }
  }

  /**
   * A generic dict shows every one of its entries: the `@id` entry as a link
   * to its value, any other key as a term followed by its value's pieces.
   */
  lemma DictShowsEveryEntry(m: map<string, Json>)
    requires !IsPlainValue(m) && !IsDatetime(m)
    ensures IdKey in m ==> Link(m[IdKey]) in Html(JObj(m))
    ensures forall k | k in m && k != IdKey ::
      Str(JStr(k)) in Html(JObj(m)) && forall p | p in Html(m[k]) :: p in Html(JObj(m))
  {
    var keys := SortedKeys(m.Keys);
    forall k | k in m
      ensures forall p | p in KeyValueHtml(k, m[k]) :: p in Html(JObj(m))
    {
      var i :| 0 <= i < |keys| && keys[i] == k;
      EntriesShow(m, keys, |keys|, i);
    }
    if IdKey in m {
      assert Link(m[IdKey]) in KeyValueHtml(IdKey, m[IdKey]);
    }
    forall k | k in m && k != IdKey
      ensures Str(JStr(k)) in KeyValueHtml(k, m[k])
      ensures forall p | p in Html(m[k]) :: p in KeyValueHtml(k, m[k])
    {
      assert KeyValueHtml(k, m[k])[1] == Str(JStr(k));
    }
  }

  /**
   * A dict with an `@id` and one other entry renders as the link (`@` sorts
   * before letters) and then the term and its value; the one-element list
   * holding the value adds no `<ul>`.
   */
  lemma DictExample(m: map<string, Json>, url: string, x: string)
    requires m.Keys == {IdKey, "label"}
    requires m[IdKey] == JStr(url) && m["label"] == JArr([JStr(x)])
    ensures Html(JObj(m)) == [Text("<dl>\n"), Link(JStr(url)),
      Text("<dt>"), Str(JStr("label")), Text("</dt>"), Text("<dd>"), Str(JStr(x)), Text("</dd>\n"),
      Text("</dl>\n")]
  {
    var keys := SortedKeys(m.Keys);
    ExampleKeys(m.Keys);
    assert !IsPlainValue(m) && !IsDatetime(m);
    var entry := [Text("<dt>"), Str(JStr("label")), Text("</dt>"), Text("<dd>"), Str(JStr(x)), Text("</dd>\n")];
    SingletonList(JStr(x));
    assert KeyValueHtml("label", m["label"]) == entry;
    assert EntriesHtml(m, keys, 1) == [Link(JStr(url))];
    assert EntriesHtml(m, keys, 2) == [Link(JStr(url))] + entry;
  }

  lemma SingletonList(x: Json)
    ensures Html(JArr([x])) == Html(x)
  {
    assert [x][0] == x;
  }

  lemma ExampleKeys(keys: set<string>)
    requires keys == {IdKey, "label"}
    ensures SortedKeys(keys) == [IdKey, "label"]
  {
    assert StrLt(IdKey, "label");
    SortedKeysIncreasing(keys);
    IncreasingUnique(SortedKeys(keys), [IdKey, "label"]);
  }

  /** A two-item list becomes a `<ul>` with one `<li>` per item, in order, each holding `str()` of the item. */
  lemma ListExample(items: seq<Json>)
    requires items == [JNum(1), JBool(true)]
    ensures Html(JArr(items)) == [Text("<ul>\n"), Text("<li>"), Str(JNum(1)), Text("</li>\n"),
      Text("<li>"), Str(JBool(true)), Text("</li>\n"), Text("</ul>\n")]
  {
    var one := [Text("<li>"), Str(JNum(1)), Text("</li>\n")];
    assert ItemsHtml(items, 1) == one;
    assert ItemsHtml(items, 2) == one + [Text("<li>"), Str(JBool(true)), Text("</li>\n")];
  }

  // ---------------------------------------------------------------------
  // The tags are well nested

  datatype Tag = Open(name: string) | Close(name: string) | NoTag

  /** The tags the walk writes. */
  function TagOf(p: Piece): Tag
  {
    if !p.Text? then NoTag
    else if p.s == "<ul>\n" then Open("ul")
    else if p.s == "</ul>\n" then Close("ul")
    else if p.s == "<li>" then Open("li")
    else if p.s == "</li>\n" then Close("li")
    else if p.s == "<dl>\n" then Open("dl")
    else if p.s == "</dl>\n" then Close("dl")
    else if p.s == "<dt>" then Open("dt")
    else if p.s == "</dt>" then Close("dt")
    else if p.s == "<dd>" then Open("dd")
    else if p.s == "</dd>\n" then Close("dd")
    else NoTag
  }

  /** Reads the pieces with a stack of open elements; `None` on a mismatched closing tag. */
  function Scan(ps: seq<Piece>, stack: seq<string>): Option<seq<string>>
  {
    if ps == [] then Some(stack)
    else
      match TagOf(ps[0])
      case NoTag => Scan(ps[1..], stack)
      case Open(name) => Scan(ps[1..], stack + [name])
      case Close(name) =>
        if stack != [] && stack[|stack| - 1] == name then Scan(ps[1..], stack[..|stack| - 1])
        else None
  }

  lemma {:induction false} ScanAppend(a: seq<Piece>, b: seq<Piece>, stack: seq<string>)
    ensures Scan(a + b, stack) == match Scan(a, stack) case None => None case Some(s) => Scan(b, s)
  {
    if a == [] {
      assert a + b == b;
    } else {
      assert (a + b)[0] == a[0] && (a + b)[1..] == a[1..] + b;
      match TagOf(a[0])
      case NoTag => ScanAppend(a[1..], b, stack);
      case Open(name) => ScanAppend(a[1..], b, stack + [name]);
      case Close(name) =>
        if stack != [] && stack[|stack| - 1] == name {
          ScanAppend(a[1..], b, stack[..|stack| - 1]);
        }
    }
  }

  /** `open`, then pieces that leave every stack as they found it, then the matching `close`. */
  lemma Enclosed(open: string, body: seq<Piece>, close: string, name: string, stack: seq<string>)
    requires TagOf(Text(open)) == Open(name) && TagOf(Text(close)) == Close(name)
    requires Scan(body, stack + [name]) == Some(stack + [name])
    ensures Scan([Text(open)] + body + [Text(close)], stack) == Some(stack)
  {
    ScanAppend([Text(open)] + body, [Text(close)], stack);
    ScanAppend([Text(open)], body, stack);
    assert ([Text(open)] + [])[1..] == [];
    assert [Text(close)][1..] == [];
    assert (stack + [name])[..|stack|] == stack;
  }

  /** Whatever the document, every tag the renderer opens it closes, innermost first. */
  lemma {:induction false} HtmlNested(v: Json, stack: seq<string>)
    ensures Scan(Html(v), stack) == Some(stack)
    decreases v, 2
  {
    match v
    case JArr(items) =>
      if |items| == 1 {
        HtmlNested(items[0], stack);
      } else {
        ItemsNested(items, |items|, stack + ["ul"]);
        Enclosed("<ul>\n", ItemsHtml(items, |items|), "</ul>\n", "ul", stack);
      }
    case JObj(m) =>
      if !IsPlainValue(m) && !IsDatetime(m) {
        var keys := SortedKeys(m.Keys);
        EntriesNested(m, keys, |keys|, stack + ["dl"]);
        Enclosed("<dl>\n", EntriesHtml(m, keys, |keys|), "</dl>\n", "dl", stack);
      }
    case _ =>
  }

  lemma {:induction false} ItemsNested(items: seq<Json>, n: nat, stack: seq<string>)
    requires n <= |items|
    ensures Scan(ItemsHtml(items, n), stack) == Some(stack)
    decreases JArr(items), 0, n
  {
    if n > 0 {
      var before := ItemsHtml(items, n - 1);
      var item := Html(items[n - 1]);
      ItemsNested(items, n - 1, stack);
      HtmlNested(items[n - 1], stack + ["li"]);
      Enclosed("<li>", item, "</li>\n", "li", stack);
      ScanAppend(before, [Text("<li>")] + item + [Text("</li>\n")], stack);
      Enclose(before, Text("<li>"), item, Text("</li>\n"));
    }
  }

  lemma {:induction false} EntriesNested(m: map<string, Json>, keys: seq<string>, n: nat, stack: seq<string>)
    requires n <= |keys|
    requires forall k | k in keys :: k in m
    ensures Scan(EntriesHtml(m, keys, n), stack) == Some(stack)
    decreases JObj(m), 0, n
  {
    if n > 0 {
      var k := keys[n - 1];
      EntriesNested(m, keys, n - 1, stack);
      KeyValueNested(k, m[k], stack);
      ScanAppend(EntriesHtml(m, keys, n - 1), KeyValueHtml(k, m[k]), stack);
    }
  }

  lemma {:induction false} KeyValueNested(key: string, value: Json, stack: seq<string>)
    ensures Scan(KeyValueHtml(key, value), stack) == Some(stack)
    decreases value, 3
  {
    if key != IdKey {
      var head := [Text("<dt>"), Str(JStr(key)), Text("</dt>"), Text("<dd>")];
      var def := Html(value);
      TermOpened(key, stack);
      HtmlNested(value, stack + ["dd"]);
      ScanAppend(head + def, [Text("</dd>\n")], stack);
      ScanAppend(head, def, stack);
      DefinitionClosed(stack);
    }
  }

  /** A term and the opening of its definition leave only the `<dd>` open. */
  lemma TermOpened(key: string, stack: seq<string>)
    ensures Scan([Text("<dt>"), Str(JStr(key)), Text("</dt>"), Text("<dd>")], stack) == Some(stack + ["dd"])
  {
    var ps := [Text("<dt>"), Str(JStr(key)), Text("</dt>"), Text("<dd>")];
    var inner := stack + ["dt"];
    assert TagOf(Text("<dt>")) == Open("dt");
    assert TagOf(Text("</dt>")) == Close("dt");
    assert TagOf(Text("<dd>")) == Open("dd");
    assert inner[|inner| - 1] == "dt" && inner[..|inner| - 1] == stack;
    assert ps[1..][1..][1..][1..] == [];
    assert Scan(ps[1..][1..][1..], stack) == Some(stack + ["dd"]);
    assert Scan(ps[1..][1..], inner) == Some(stack + ["dd"]);
    assert Scan(ps[1..], inner) == Some(stack + ["dd"]);
  }

  lemma DefinitionClosed(stack: seq<string>)
    ensures Scan([Text("</dd>\n")], stack + ["dd"]) == Some(stack)
  {
    assert [Text("</dd>\n")][1..] == [];
    assert (stack + ["dd"])[..|stack|] == stack;
  }

  // ---------------------------------------------------------------------
  // The codec entry points

  /** What `from_jsonld` returns: the input itself, or the rendered page. */
  datatype Rendered = Unchanged(data: Json) | Page(html: string)

  /** `options.get('passthrough')` is true, with `None` standing for no options. */
  predicate Passthrough(options: Option<map<string, Json>>)
  {
    options.Some? && "passthrough" in options.value && Truthy(options.value["passthrough"])
  }

  /** The pieces `from_jsonld` joins: the header, the walk's output and the trailer. */
  ghost function PageParts(data: Json): seq<Piece>
  {
    [Text(Header)] + Html(data) + [Text(Trailer)]
  }

  /** The page joins exactly when the document is `Renderable`, and otherwise reports the first kind of exception met. */
  lemma PageJoins(data: Json, repr: Json -> string)
    ensures Join(PageParts(data), repr).Success? <==> Renderable(data)
    ensures Join(PageParts(data), repr).Failure? ==>
      Join(PageParts(data), repr).error == (if exists p | p in Html(data) :: StrFails(p) then UnicodeEncodeError else TypeError)
  {
    var parts := PageParts(data);
    JoinSucceeds(parts, repr);
    HtmlOk(data);
    assert forall p | p in parts :: p in Html(data) || p == Text(Header) || p == Text(Trailer);
  }

  /**
   * `from_jsonld(data, options)`. `prettify` stands for BeautifulSoup's
   * `prettify` (the identity when BeautifulSoup is not installed).
   */
  method FromJsonld(data: Json, options: Option<map<string, Json>>, prettify: string -> string, repr: Json -> string)
    returns (r: Result<Rendered>)
    ensures Passthrough(options) ==> r == Success(Unchanged(data))
    ensures !Passthrough(options) ==> (r.Success? <==> Renderable(data))
    ensures !Passthrough(options) && r.Success? ==>
      Join(PageParts(data), repr).Success? && r.value == Page(prettify(Join(PageParts(data), repr).value))
    ensures !Passthrough(options) && r.Failure? ==>
      r.error == (if exists p | p in Html(data) :: StrFails(p) then UnicodeEncodeError else TypeError)
  {
    var opts := if options.None? then map[] else options.value;
    if "passthrough" in opts && Truthy(opts["passthrough"]) {
      return Success(Unchanged(data));
    }
    var html := new HtmlList();
    ToHtml(data, html);
    var parts := [Text(Header)] + html.pieces + [Text(Trailer)];
    assert parts == PageParts(data);
    var joined := Join(parts, repr);
    PageJoins(data, repr);
    if joined.Success? {
      r := Success(Page(prettify(joined.value)));
    } else {
      r := Failure(joined.error);
    }
  }

  /** `to_jsonld(data, options)`: HTML is handed on untouched. */
  function ToJsonld(data: string, options: Option<map<string, Json>>): (r: string)
    ensures r == data
  {
    data
  }
}
