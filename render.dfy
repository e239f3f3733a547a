/**
 * Rendering configuration: the table from format name to the renderer of the
 * format that bears it, the check that the default format is present, the
 * registration of each format's MIME types with the content-negotiation
 * library, and the payload answered when no acceptable MIME type exists.
 *
 * The negotiation library is foreign. Its registry is a state of type `R`
 * threaded through `register`, which stands for `mimerender.register_mime`;
 * `dumps` stands for `json.dumps(_, indent=2)`.
 */
module Render {
  import opened Wrappers
  import opened JsonValue
  import opened FormatLoader

  // ---------------------------------------------------------------------
  // The "not acceptable" callback

  const NotAcceptableContentType: string := "application/json"
  const NotAcceptableMessage: string := "No acceptable content type found"

  /** The dict the callback serialises. */
  function NotAcceptablePayload(accept: string, supported: seq<string>): Json
  {
    JObj(map[
      "error" := JStr(NotAcceptableMessage),
      "submitted" := JStr(accept),
      "supported" := JArr(seq(|supported|, i requires 0 <= i < |supported| => JStr(supported[i])))])
  }

  /** `no_mimetype_callback(accept_header, supported)`: a (content type, body) pair. */
  function NoMimetypeCallback(accept: string, supported: seq<string>, dumps: Json -> string): (r: (string, string))
    ensures r.0 == NotAcceptableContentType
    ensures r.1 == dumps(NotAcceptablePayload(accept, supported))
  {
    (NotAcceptableContentType, dumps(NotAcceptablePayload(accept, supported)))
  }

  /** What a client reads as the `error` field of a decoded body. */
  function ErrorText(body: Json): Option<string>
  {
    if body.JObj? && "error" in body.members && body.members["error"].JStr?
    then Some(body.members["error"].s) else None
  }

  /** What a client reads as the `submitted` field of a decoded body. */
  function Submitted(body: Json): Option<string>
  {
    if body.JObj? && "submitted" in body.members && body.members["submitted"].JStr?
    then Some(body.members["submitted"].s) else None
  }

  /** What a client reads as the `supported` field of a decoded body: a list of strings. */
  function Supported(body: Json): Option<seq<string>>
  {
    if body.JObj? && "supported" in body.members && body.members["supported"].JArr?
    then
      var items := body.members["supported"].items;
      if forall i | 0 <= i < |items| :: items[i].JStr?
      then Some(seq(|items|, i requires 0 <= i < |items| => items[i].s))
      else None
    else None
  }

  /**
   * Whatever the accept header and the supported list, a client that decodes
   * the body finds exactly three fields: the fixed error text, the header
   * verbatim and the supported list verbatim.
   */
  lemma NotAcceptableRoundTrip(accept: string, supported: seq<string>, dumps: Json -> string, loads: string -> Json)
    requires forall j :: loads(dumps(j)) == j
    ensures var body := loads(NoMimetypeCallback(accept, supported, dumps).1);
      body.JObj? && body.members.Keys == {"error", "submitted", "supported"}
      && ErrorText(body) == Some(NotAcceptableMessage)
      && Submitted(body) == Some(accept)
      && Supported(body) == Some(supported)
  {
    var body := loads(NoMimetypeCallback(accept, supported, dumps).1);
    assert body == NotAcceptablePayload(accept, supported);
    var items := body.members["supported"].items;
    assert |items| == |supported|;
    assert forall i | 0 <= i < |items| :: items[i] == JStr(supported[i]);
    assert seq(|items|, i requires 0 <= i < |items| => items[i].s) == supported;
  }

  // ---------------------------------------------------------------------
  // The name-to-renderer table

  /**
   * `{f.format_name: f.from_jsonld for f in formats}`; a module stands for its
   * `from_jsonld`, and a later format replaces an earlier one of the same name.
   */
  function FormatArgs(formats: seq<Module>): map<string, Module>
    requires forall f | f in formats :: Valid(f)
  {
    if formats == [] then map[]
    else
      var last := formats[|formats| - 1];
      FormatArgs(formats[..|formats| - 1])[NameOf(last) := last]
  }

  /** The last format bearing `name`, the reference for the table. */
  function NameOwner(formats: seq<Module>, name: string): (r: Option<Module>)
    requires forall f | f in formats :: Valid(f)
    ensures r.Some? ==> r.value in formats && NameOf(r.value) == name
    ensures r.None? <==> forall i | 0 <= i < |formats| :: NameOf(formats[i]) != name
  {
    if formats == [] then None
    else
      var last := formats[|formats| - 1];
      if NameOf(last) == name then Some(last)
      else
        var r := NameOwner(formats[..|formats| - 1], name);
        assert forall i | 0 <= i < |formats| - 1 :: formats[..|formats| - 1][i] == formats[i];
        r
  }

  /** A name is in the table exactly when some format bears it, and maps to the last such format. */
  lemma {:induction false} FormatArgsIsOwner(formats: seq<Module>, name: string)
    requires forall f | f in formats :: Valid(f)
    ensures name in FormatArgs(formats) <==> NameOwner(formats, name).Some?
    ensures name in FormatArgs(formats) ==> FormatArgs(formats)[name] == NameOwner(formats, name).value
  {
    if formats != [] {
      FormatArgsIsOwner(formats[..|formats| - 1], name);
    }
  }

  /** The table's keys are the format names. */
  lemma FormatArgsKeys(formats: seq<Module>)
    requires forall f | f in formats :: Valid(f)
    ensures FormatArgs(formats).Keys == Names(formats)
  {
    forall name | name in FormatArgs(formats)
      ensures name in Names(formats)
    {
      FormatArgsIsOwner(formats, name);
    }
    forall name | name in Names(formats)
      ensures name in FormatArgs(formats)
    {
      var f :| f in formats && NameOf(f) == name;
      FormatArgsIsOwner(formats, name);
    }
  }

  /** When two formats share a name, the later one renders it. */
  lemma LaterNameWins(formats: seq<Module>, i: nat, j: nat)
    requires forall f | f in formats :: Valid(f)
    requires i < j < |formats| && NameOf(formats[i]) == NameOf(formats[j])
    requires forall k | j < k < |formats| :: NameOf(formats[k]) != NameOf(formats[j])
    ensures NameOf(formats[j]) in FormatArgs(formats) && FormatArgs(formats)[NameOf(formats[j])] == formats[j]
  {
    FormatArgsIsOwner(formats, NameOf(formats[j]));
    LastNameOwner(formats, j);
  }

  lemma {:induction false} LastNameOwner(formats: seq<Module>, j: nat)
    requires forall f | f in formats :: Valid(f)
    requires j < |formats|
    requires forall k | j < k < |formats| :: NameOf(formats[k]) != NameOf(formats[j])
    ensures NameOwner(formats, NameOf(formats[j])) == Some(formats[j])
  {
    if j < |formats| - 1 {
      var prefix := formats[..|formats| - 1];
      assert prefix[j] == formats[j];
      LastNameOwner(prefix, j);
    }
  }

  // ---------------------------------------------------------------------
  // Registration of the MIME types

  /** What `register_mime` does: it updates the registry or raises. */
  datatype Registration<R> = Registered(state: R) | Raised(error: PyError)

  /** One iteration of `register_types`: a `MimeRenderException` is swallowed, any other exception escapes. */
  function RegisterOne<R>(register: (R, string, seq<string>) -> Registration<R>, reg: R, f: Module): (r: Result<R>)
    requires Valid(f)
    ensures r.Failure? ==> r.error != MimeRenderException
    ensures r.Failure? <==> register(reg, NameOf(f), MimetypesOf(f)).Raised?
                            && register(reg, NameOf(f), MimetypesOf(f)).error != MimeRenderException
  {
    match register(reg, NameOf(f), MimetypesOf(f))
    case Registered(s) => Success(s)
    case Raised(e) => if e == MimeRenderException then Success(reg) else Failure(e)
  }

  /** The registry after `register_types(formats)`, or the exception that ended it. */
  function RegisterAll<R>(register: (R, string, seq<string>) -> Registration<R>, reg: R, formats: seq<Module>): (r: Result<R>)
    requires forall f | f in formats :: Valid(f)
    ensures r.Failure? ==> r.error != MimeRenderException
  {
    if formats == [] then Success(reg)
    else
      match RegisterAll(register, reg, formats[..|formats| - 1])
      case Failure(e) => Failure(e)
      case Success(s) => RegisterOne(register, s, formats[|formats| - 1])
  }

  /** Registering `a + b` is registering `a`, then `b` from where `a` left the registry. */
  lemma {:induction false} RegisterAppend<R>(register: (R, string, seq<string>) -> Registration<R>, reg: R,
                                             a: seq<Module>, b: seq<Module>)
    requires forall f | f in a + b :: Valid(f)
    ensures RegisterAll(register, reg, a + b) ==
      match RegisterAll(register, reg, a)
      case Failure(e) => Failure(e)
      case Success(s) => RegisterAll(register, s, b)
  {
    if b == [] {
      assert a + b == a;
    } else {
      var b' := b[..|b| - 1];
      assert (a + b)[..|a + b| - 1] == a + b';
      assert (a + b)[|a + b| - 1] == b[|b| - 1];
      RegisterAppend(register, reg, a, b');
    }
  }

  /** A format whose registration raises `MimeRenderException` is skipped and the rest are still attempted. */
  lemma SkipRejected<R>(register: (R, string, seq<string>) -> Registration<R>, reg: R,
                        a: seq<Module>, f: Module, b: seq<Module>, s: R)
    requires forall g | g in a + [f] + b :: Valid(g)
    requires RegisterAll(register, reg, a) == Success(s)
    requires register(s, NameOf(f), MimetypesOf(f)) == Raised(MimeRenderException)
    ensures RegisterAll(register, reg, a + [f] + b) == RegisterAll(register, s, b)
  {
    RegisterAppend(register, reg, a + [f], b);
    RegisterAppend(register, reg, a, [f]);
    assert [f][..0] == [];
  }

  /** `register_types(formats)`: the loop over the formats. */
  method RegisterTypes<R>(register: (R, string, seq<string>) -> Registration<R>, reg0: R, formats: seq<Module>)
    returns (r: Result<R>)
    requires forall f | f in formats :: Valid(f)
    ensures r == RegisterAll(register, reg0, formats)
  {
    var reg := reg0;
    for i := 0 to |formats|
      invariant RegisterAll(register, reg0, formats[..i]) == Success(reg)
    {
      assert formats[..i + 1][..i] == formats[..i];
      var outcome := register(reg, NameOf(formats[i]), MimetypesOf(formats[i]));
      match outcome {
        case Registered(s) =>
          reg := s;
        case Raised(e) =>
          if e != MimeRenderException {
            RegisterAppend(register, reg0, formats[..i + 1], formats[i + 1..]);
            assert formats[..i + 1] + formats[i + 1..] == formats;
            return Failure(e);
          }
      }
    }
    assert formats[..|formats|] == formats;
    r := Success(reg);
  }

  /** A registry that refuses a short name it already holds, as the negotiation library's does. */
  function MapRegister(reg: map<string, seq<string>>, name: string, mts: seq<string>): Registration<map<string, seq<string>>>
  {
    if name in reg then Raised(MimeRenderException) else Registered(reg[name := mts])
  }

  /**
   * With such a registry every format is attempted: afterwards each format
   * name is registered, and what was registered before is unchanged.
   */
  lemma {:induction false} EveryFormatRegistered(reg: map<string, seq<string>>, formats: seq<Module>)
    requires forall f | f in formats :: Valid(f)
    ensures RegisterAll(MapRegister, reg, formats).Success?
    ensures RegisterAll(MapRegister, reg, formats).value.Keys == reg.Keys + Names(formats)
    ensures forall k | k in reg :: RegisterAll(MapRegister, reg, formats).value[k] == reg[k]
  {
    if formats != [] {
      var prefix := formats[..|formats| - 1];
      var last := formats[|formats| - 1];
      EveryFormatRegistered(reg, prefix);
      assert formats == prefix + [last];
      assert Names(formats) == Names(prefix) + {NameOf(last)};
    }
  }

  // ---------------------------------------------------------------------
  // The renderer

  /** The default format of `make_renderer`. */
  const DefaultFormat: string := "jsonld"

  /** The request argument that overrides content negotiation. */
  const OverrideInputKey: string := "format"

  /** The arguments the renderer passes to the negotiation library, besides the fixed callback. */
  datatype RendererConfig = RendererConfig(defaultFormat: string, overrideInputKey: string, formatArgs: map<string, Module>)

  /** A renderer together with the registry it left behind. */
  datatype Renderer<R> = Renderer(config: RendererConfig, registry: R)

  /** `make_renderer(formats, default)`. */
  method MakeRenderer<R>(register: (R, string, seq<string>) -> Registration<R>, reg0: R,
                         formats: seq<Module>, defaultFormat: string)
    returns (r: Result<Renderer<R>>)
    requires forall f | f in formats :: Valid(f)
    ensures defaultFormat !in Names(formats) ==>
      r == Failure(AssertionError("Default format " + defaultFormat + " not available"))
    ensures defaultFormat in Names(formats) && RegisterAll(register, reg0, formats).Failure? ==>
      r == Failure(RegisterAll(register, reg0, formats).error)
    ensures defaultFormat in Names(formats) && RegisterAll(register, reg0, formats).Success? ==>
      r == Success(Renderer(RendererConfig(defaultFormat, OverrideInputKey, FormatArgs(formats)),
                            RegisterAll(register, reg0, formats).value))
  {
    var formatArgs := FormatArgs(formats);
    FormatArgsKeys(formats);
    if defaultFormat !in formatArgs {
      return Failure(AssertionError("Default format " + defaultFormat + " not available"));
    }
    var registered := RegisterTypes(register, reg0, formats);
    match registered {
      case Failure(e) =>
        r := Failure(e);
      case Success(s) =>
        r := Success(Renderer(RendererConfig(defaultFormat, OverrideInputKey, formatArgs), s));
    }
  }

  /** None of the shipped format modules that pass the attribute check is named `jsonld`. */
  lemma ShippedDefaultMissing(formats: seq<Module>)
    requires forall f | f in formats :: f in ShippedModules && Valid(f)
    ensures DefaultFormat !in Names(formats)
  {
    forall f | f in formats
      ensures NameOf(f) != DefaultFormat
    {
      assert f in {HtmlModule, TurtleModule, N3Module, TrigModule, TrixModule};
    }
  }
}
