/**
 * Discovery of the format modules: the file-name filter, the required-attribute
 * check and the loop that keeps the valid modules. The directory listing and
 * the import machinery are inputs: a sequence of file names and a function
 * that yields the module a name imports to.
 */
module FormatLoader {
  import opened Wrappers

  /**
   * A format module as the loader sees it: its module name and which of the
   * required attributes it defines (`from_jsonld` and `to_jsonld` are the
   * module's functions, identified by the module itself).
   */
  datatype Module = Module(
    name: string,
    formatName: Option<string>,
    mimetypes: Option<seq<string>>,
    hasFromJsonld: bool,
    hasToJsonld: bool)

  /** The directory the modules are loaded from. */
  const FormatDirectory: string := "formats"

  const RequiredAttributes: seq<string> := ["format_name", "mimetypes", "from_jsonld", "to_jsonld"]

  /** `getattr(m, a)` succeeds. */
  predicate HasAttribute(m: Module, a: string)
  {
    if a == "format_name" then m.formatName.Some?
    else if a == "mimetypes" then m.mimetypes.Some?
    else if a == "from_jsonld" then m.hasFromJsonld
    else if a == "to_jsonld" then m.hasToJsonld
    else false
  }

  /** Every required attribute is present. */
  predicate Valid(m: Module)
  {
    m.formatName.Some? && m.mimetypes.Some? && m.hasFromJsonld && m.hasToJsonld
  }

  /** The MIME types a module lists; only read for valid modules. */
  function MimetypesOf(m: Module): seq<string>
  {
    if m.mimetypes.Some? then m.mimetypes.value else []
  }

  /** `Valid` is exactly "every attribute of the required list is present". */
  lemma AllRequired(m: Module)
    ensures (forall i | 0 <= i < |RequiredAttributes| :: HasAttribute(m, RequiredAttributes[i])) <==> Valid(m)
  {
    assert HasAttribute(m, RequiredAttributes[0]) <==> m.formatName.Some?;
    assert HasAttribute(m, RequiredAttributes[1]) <==> m.mimetypes.Some?;
    assert HasAttribute(m, RequiredAttributes[2]) <==> m.hasFromJsonld;
    assert HasAttribute(m, RequiredAttributes[3]) <==> m.hasToJsonld;
  }

  /**
   * `_is_valid(m)`: tries the attributes in order and stops at the first one
   * missing, which it names in its message.
   */
  method IsValid(m: Module) returns (ok: bool, missing: Option<string>)
    ensures ok <==> Valid(m)
    ensures ok <==> missing.None?
    ensures missing.Some? ==>
      exists i | 0 <= i < |RequiredAttributes| ::
        missing.value == RequiredAttributes[i] && !HasAttribute(m, RequiredAttributes[i])
        && forall j | 0 <= j < i :: HasAttribute(m, RequiredAttributes[j])
  {
    AllRequired(m);
    for i := 0 to |RequiredAttributes|
      invariant forall j | 0 <= j < i :: HasAttribute(m, RequiredAttributes[j])
    {
      if !HasAttribute(m, RequiredAttributes[i]) {
        return false, Some(RequiredAttributes[i]);
      }
    }
    return true, None;
  }

  predicate HasSuffix(s: string, suffix: string)
  {
    |suffix| <= |s| && s[|s| - |suffix|..] == suffix
  }

  /** `_is_format_module(fn)`. */
  function IsFormatModule(fn: string): bool
  {
    if fn == "__init__.py" then false else HasSuffix(fn, "_format.py")
  }

  /** The `__init__.py` guard changes nothing: that name does not end in `_format.py` anyway. */
  lemma FormatModuleIffSuffix(fn: string)
    ensures IsFormatModule(fn) <==> HasSuffix(fn, "_format.py")
  {
    if fn == "__init__.py" {
      assert fn[1..][1] != "_format.py"[1];
    }
  }

  /** The helper modules beside the codecs are not loaded; the codecs are. */
  lemma ShippedFileNames()
    ensures !IsFormatModule("__init__.py")
    ensures !IsFormatModule("ntf.py") && !IsFormatModule("rdftools.py") && !IsFormatModule("rdfgraph.py")
    ensures IsFormatModule("html_format.py") && IsFormatModule("jsonld_format.py")
  {
    assert "rdftools.py"[1..][0] != "_format.py"[0];
    assert "rdfgraph.py"[1..][0] != "_format.py"[0];
    assert "html_format.py"[4..] == "_format.py";
    assert "jsonld_format.py"[6..] == "_format.py";
  }

  /** The name stripping of `_load_format_module`: one trailing `.py` is removed. */
  function StripPy(mn: string): (r: string)
    ensures HasSuffix(mn, ".py") ==> r + ".py" == mn
    ensures !HasSuffix(mn, ".py") ==> r == mn
  {
    if HasSuffix(mn, ".py") then mn[..|mn| - 3] else mn
  }

  lemma StripPyAppended(x: string)
    ensures StripPy(x + ".py") == x
  {
    assert (x + ".py")[|x|..] == ".py";
    assert (x + ".py")[..|x|] == x;
  }

  /**
   * `_load_format_module(dir, fn)`: `importer(dir, name)` stands for
   * `getattr(__import__(dir, fromlist=[name]), name)`, `None` for a module
   * that is `None`.
   */
  function LoadFormatModule(importer: (string, string) -> Option<Module>, dir: string, fn: string): Option<Module>
  {
    importer(dir, StripPy(fn))
  }

  /** The modules of the first loop of `load`, in listing order. */
  function Discovered(importer: (string, string) -> Option<Module>, dir: string, files: seq<string>): seq<Module>
  {
    if files == [] then []
    else
      var before := Discovered(importer, dir, files[..|files| - 1]);
      var fn := files[|files| - 1];
      if IsFormatModule(fn) && LoadFormatModule(importer, dir, fn).Some? then
        before + [LoadFormatModule(importer, dir, fn).value]
      else before
  }

  /** Every discovered module is what the importer gives for one of the listed format files. */
  lemma {:induction false} DiscoveredFromFormatFiles(importer: (string, string) -> Option<Module>, dir: string,
                                                     files: seq<string>)
    ensures |Discovered(importer, dir, files)| <= |files|
    ensures forall m | m in Discovered(importer, dir, files) ::
              exists fn | fn in files :: IsFormatModule(fn) && LoadFormatModule(importer, dir, fn) == Some(m)
  {
    if files != [] {
      var prefix := files[..|files| - 1];
      DiscoveredFromFormatFiles(importer, dir, prefix);
      assert forall fn | fn in prefix :: fn in files;
    }
  }

  /** A format file whose import succeeds contributes its module. */
  lemma {:induction false} FormatFileDiscovered(importer: (string, string) -> Option<Module>, dir: string,
                                                files: seq<string>, i: nat)
    requires i < |files| && IsFormatModule(files[i]) && LoadFormatModule(importer, dir, files[i]).Some?
    ensures LoadFormatModule(importer, dir, files[i]).value in Discovered(importer, dir, files)
  {
    if i < |files| - 1 {
      var prefix := files[..|files| - 1];
      assert prefix[i] == files[i];
      FormatFileDiscovered(importer, dir, prefix, i);
    }
  }

  /** The valid modules among `ms`, in order. */
  function ValidOnly(ms: seq<Module>): (r: seq<Module>)
    ensures forall m | m in r :: Valid(m) && m in ms
  {
    if ms == [] then []
    else ValidOnly(ms[..|ms| - 1]) + (if Valid(ms[|ms| - 1]) then [ms[|ms| - 1]] else [])
  }

  /** A valid module is kept, whatever its neighbours. */
  lemma {:induction false} ValidOnlyKeeps(ms: seq<Module>, i: nat)
    requires i < |ms| && Valid(ms[i])
    ensures ms[i] in ValidOnly(ms)
  {
    if i < |ms| - 1 {
      ValidOnlyKeeps(ms[..|ms| - 1], i);
    }
  }

  /** The objects Python puts in the `seen` set and compares with it. */
  datatype PyObject = ModuleObject(m: Module) | StrObject(s: string)

  method DiscoverModules(importer: (string, string) -> Option<Module>, dir: string, files: seq<string>)
    returns (modules: seq<Module>)
    ensures modules == Discovered(importer, dir, files)
  {
    modules := [];
    for i := 0 to |files|
      invariant modules == Discovered(importer, dir, files[..i])
    {
      assert files[..i + 1][..i] == files[..i];
      if IsFormatModule(files[i]) {
        var loaded := LoadFormatModule(importer, dir, files[i]);
        if loaded.Some? {
          modules := modules + [loaded.value];
        }
      }
    }
    assert files[..|files|] == files;
  }

  /**
   * `load(dir)` as written: `seen` collects module objects while the test
   * looks up the format name, a string, so the duplicate branch is never
   * taken and every valid module is returned.
   */
  method Load(importer: (string, string) -> Option<Module>, dir: string, files: seq<string>)
    returns (valid: seq<Module>)
    ensures valid == ValidOnly(Discovered(importer, dir, files))
  {
    var modules := DiscoverModules(importer, dir, files);
    valid := [];
    var seen: set<PyObject> := {};
    for j := 0 to |modules|
      invariant valid == ValidOnly(modules[..j])
      invariant forall o | o in seen :: o.ModuleObject?
    {
      assert modules[..j + 1][..j] == modules[..j];
      var m := modules[j];
      var ok, _ := IsValid(m);
      if ok {
        if StrObject(m.formatName.value) in seen {
          // the duplicate message would be printed here
        } else {
          valid := valid + [m];
          seen := seen + {ModuleObject(m)};
        }
      }
    }
    assert modules[..|modules|] == modules;
  }

  /** Two valid modules sharing a format name are both returned. */
  lemma LoadKeepsDuplicates(a: Module, b: Module)
    requires Valid(a) && Valid(b) && a.formatName == b.formatName && a != b
    ensures ValidOnly([a, b]) == [a, b]
    ensures exists i, j | 0 <= i < j < |ValidOnly([a, b])| ::
      ValidOnly([a, b])[i].formatName == ValidOnly([a, b])[j].formatName
  {
    assert [a, b][..1] == [a];
    assert [a][..0] == [];
    assert ValidOnly([a]) == [a];
    assert ValidOnly([a, b]) == [a, b];
    assert ValidOnly([a, b])[0].formatName == ValidOnly([a, b])[1].formatName;
  }

  // ---------------------------------------------------------------------
  // The loop as evidently intended: the first module of each format name wins

  function NameOf(m: Module): string
    requires Valid(m)
  {
    m.formatName.value
  }

  function Names(ms: seq<Module>): set<string>
    requires forall m | m in ms :: Valid(m)
  {
    set m | m in ms :: NameOf(m)
  }

  /** Keeps the first module of each format name, in order. */
  function FirstByName(ms: seq<Module>): (r: seq<Module>)
    requires forall m | m in ms :: Valid(m)
    ensures forall m | m in r :: m in ms
  {
    if ms == [] then []
    else
      var before := FirstByName(ms[..|ms| - 1]);
      var last := ms[|ms| - 1];
      if NameOf(last) in Names(before) then before else before + [last]
  }

  lemma NamesAppend(ms: seq<Module>, m: Module)
    requires forall k | k in ms :: Valid(k)
    requires Valid(m)
    ensures Names(ms + [m]) == Names(ms) + {NameOf(m)}
  {
    assert forall k | k in ms + [m] :: k in ms || k == m;
  }

  lemma FirstByNameStep(ms: seq<Module>, m: Module)
    requires forall k | k in ms :: Valid(k)
    requires Valid(m)
    ensures FirstByName(ms + [m]) ==
      if NameOf(m) in Names(FirstByName(ms)) then FirstByName(ms) else FirstByName(ms) + [m]
  {
    assert (ms + [m])[..|ms|] == ms;
  }

  lemma ValidOnlyStep(ms: seq<Module>, m: Module)
    ensures ValidOnly(ms + [m]) == ValidOnly(ms) + (if Valid(m) then [m] else [])
  {
    assert (ms + [m])[..|ms|] == ms;
  }

  /** No two modules `FirstByName` keeps share a format name. */
  lemma {:induction false} FirstByNameDistinct(ms: seq<Module>)
    requires forall m | m in ms :: Valid(m)
    ensures forall i, j | 0 <= i < j < |FirstByName(ms)| :: NameOf(FirstByName(ms)[i]) != NameOf(FirstByName(ms)[j])
  {
    if ms != [] {
      var prefix := ms[..|ms| - 1];
      var last := ms[|ms| - 1];
      assert forall m | m in prefix :: m in ms;
      FirstByNameDistinct(prefix);
      var before := FirstByName(prefix);
      if NameOf(last) !in Names(before) {
        forall i | 0 <= i < |before|
          ensures NameOf(before[i]) != NameOf(last)
        {
          assert before[i] in before;
        }
      }
    }
  }

  /** Every format name of the input is represented in the output. */
  lemma {:induction false} FirstByNameNames(ms: seq<Module>)
    requires forall m | m in ms :: Valid(m)
    ensures Names(FirstByName(ms)) == Names(ms)
  {
    if ms != [] {
      var prefix := ms[..|ms| - 1];
      var last := ms[|ms| - 1];
      assert forall m | m in prefix :: m in ms;
      FirstByNameNames(prefix);
      assert ms == prefix + [last];
      NamesAppend(prefix, last);
      if NameOf(last) !in Names(FirstByName(prefix)) {
        NamesAppend(FirstByName(prefix), last);
      }
    }
  }

  /** A module whose format name no earlier module has is kept. */
  lemma {:induction false} FirstByNameKeepsFirst(ms: seq<Module>, i: nat)
    requires forall m | m in ms :: Valid(m)
    requires i < |ms|
    requires forall j | 0 <= j < i :: NameOf(ms[j]) != NameOf(ms[i])
    ensures ms[i] in FirstByName(ms)
  {
    var prefix := ms[..|ms| - 1];
    assert forall m | m in prefix :: m in ms;
    if i < |ms| - 1 {
      FirstByNameKeepsFirst(prefix, i);
    } else {
      FirstByNameNames(prefix);
      forall m | m in prefix
        ensures NameOf(m) != NameOf(ms[i])
      {
        var j :| 0 <= j < |prefix| && prefix[j] == m;
      }
    }
  }

  /** `load(dir)` with `seen` holding format names, so that only the first module of each name is kept. */
  method LoadDistinct(importer: (string, string) -> Option<Module>, dir: string, files: seq<string>)
    returns (valid: seq<Module>)
    ensures valid == FirstByName(ValidOnly(Discovered(importer, dir, files)))
  {
    var modules := DiscoverModules(importer, dir, files);
    valid := [];
    var seen: set<string> := {};
    for j := 0 to |modules|
      invariant valid == FirstByName(ValidOnly(modules[..j]))
      invariant forall m | m in valid :: Valid(m)
      invariant seen == Names(valid)
    {
      var m := modules[j];
      ghost var candidates := ValidOnly(modules[..j]);
      assert modules[..j + 1] == modules[..j] + [m];
      ValidOnlyStep(modules[..j], m);
      var ok, _ := IsValid(m);
      if !ok {
        assert ValidOnly(modules[..j + 1]) == candidates + [] == candidates;
      } else {
        FirstByNameStep(candidates, m);
        if m.formatName.value in seen {
          // the duplicate message would be printed here
        } else {
          NamesAppend(valid, m);
          valid := valid + [m];
          seen := seen + {m.formatName.value};
        }
      }
    }
    assert modules[..|modules|] == modules;
  }

  // ---------------------------------------------------------------------
  // The modules of the formats directory

  const HtmlModule := Module("html_format", Some("html"), Some(["text/html", "text/html; charset=UTF-8"]), true, true)
  const TurtleModule := Module("turtle_format", Some("turtle"), Some(["text/turtle; charset=utf-8", "text/turtle"]), true, true)
  const N3Module := Module("n3_format", Some("n3"), Some(["text/n3; charset=utf-8", "text/n3"]), true, true)
  const TrigModule := Module("trig_format", Some("trig"), Some(["application/trig"]), true, true)
  const TrixModule := Module("trix_format", Some("trix"), Some(["application/trix"]), true, true)
  const JsonldModule := Module("jsonld_format", None, None, true, true)
  const RdfxmlModule := Module("rdfxml_format", None, None, true, true)

  const ShippedModules: set<Module> :=
    {HtmlModule, TurtleModule, N3Module, TrigModule, TrixModule, JsonldModule, RdfxmlModule}

  /** The JSON-LD and RDF/XML modules define no `format_name` and are filtered out; the others pass. */
  lemma ShippedValidity()
    ensures Valid(HtmlModule) && Valid(TurtleModule) && Valid(N3Module) && Valid(TrigModule) && Valid(TrixModule)
    ensures !Valid(JsonldModule) && !Valid(RdfxmlModule)
  {
  }
}
