/** The hand-rolled function indexer of tests/test_findex.py: it names a function by
    `<module>.<qualname>`, stores `sha1(name) -> name`, and later resolves a hash back
    to an object by importing ever longer dotted prefixes and falling back to attribute
    lookup. Python's import system and `getattr` are replaced by an explicit environment;
    SHA-1 is a function parameter. */
module FunctionIndex {
  import opened Wrappers
  import opened Strings

  /** A Python object as far as resolution cares: a module reached by import,
      or any other value, identified abstractly. */
  datatype Obj = Module(name: string) | Value(id: nat)

  /** What `importlib.import_module` and `getattr` can see: the importable dotted
      names, and the attribute table `(object, attribute name) -> object`. */
  datatype Env = Env(modules: set<string>, attrs: map<(Obj, string), Obj>)

  /** Python imports a dotted module's parents first, so every dotted prefix of an
      importable name is importable too. */
  ghost predicate WellFormed(env: Env)
  {
    forall n, i :: n in env.modules && 0 <= i < |n| && n[i] == '.' ==> n[..i] in env.modules
  }

  /** A function value as the indexer sees it: its `__module__` and `__qualname__`. */
  datatype Callable = Callable(moduleName: string, qualname: string)

  /** `index_function` raises ValueError("Cannot index local functions."). */
  datatype IndexError = LocalFunction

  /** The exceptions `get_function` can let escape. */
  datatype ResolveError =
    | HashNotFound(hash: string)     // ValueError raised for an unknown hash
    | ModuleNotFound(name: string)   // ModuleNotFoundError from the fallback import
    | EmptyModuleName                // ValueError from import_module("")
    | AttributeMissing(name: string) // AttributeError from getattr
    | ModuleUnbound                  // UnboundLocalError: no segment before the last

  const LocalsMarker := "<locals>"

  /** `f"{module_name}.{function_name}"` */
  function Identifier(fn: Callable): (id: string)
    ensures |id| == |fn.moduleName| + 1 + |fn.qualname|
    ensures id[..|fn.moduleName|] == fn.moduleName && id[|fn.moduleName|] == '.'
    ensures id[|fn.moduleName| + 1..] == fn.qualname
  {
    fn.moduleName + "." + fn.qualname
  }

  /** `"<locals>" in identifier`: the function was defined inside another function.
      Only a name with a `<` in it can be local. */
  predicate IsLocal(fn: Callable): (local: bool)
    ensures local ==> '<' in Identifier(fn)
  {
    ContainsHead(Identifier(fn), LocalsMarker);
    Contains(Identifier(fn), LocalsMarker)
  }

  /** `importlib.import_module(name)`. */
  function Import(env: Env, name: string): (r: Result<Obj, ResolveError>)
    ensures r.Ok? <==> name != "" && name in env.modules
    ensures r.Ok? ==> r.value == Module(name)
    ensures r.Err? ==> r.error == (if name == "" then EmptyModuleName else ModuleNotFound(name))
  {
    if name == "" then Err(EmptyModuleName)
    else if name in env.modules then Ok(Module(name))
    else Err(ModuleNotFound(name))
  }

  /** `getattr(obj, name)`. */
  function GetAttr(env: Env, obj: Obj, name: string): (r: Result<Obj, ResolveError>)
    ensures r.Ok? <==> (obj, name) in env.attrs
    ensures r.Ok? ==> r.value == env.attrs[(obj, name)]
    ensures r.Err? ==> r.error == AttributeMissing(name)
  {
    if (obj, name) in env.attrs then Ok(env.attrs[(obj, name)]) else Err(AttributeMissing(name))
  }

  /** The loop variables of `get_function`: `_mod`, `_last_mod` and `module`
      (`moduleObj` is None while `module` is still unbound). */
  datatype WalkState = WalkState(mod: string, lastMod: string, moduleObj: Option<Obj>)

  const Start := WalkState("", "", None)

  /** `_last_mod[:-1] if _last_mod.endswith(".") else _last_mod` */
  function StripDot(s: string): (r: string)
    ensures |s| > 0 && s[|s| - 1] == '.' ==> r + "." == s
    ensures !(|s| > 0 && s[|s| - 1] == '.') ==> r == s
  {
    if |s| > 0 && s[|s| - 1] == '.' then s[..|s| - 1] else s
  }

  /** One iteration of the loop over `parts[:-1]` for segment `pt`: import `_mod + pt`;
      on ModuleNotFoundError import the previous prefix instead and take `pt` as
      an attribute of it. Any other exception escapes. */
  function Step(env: Env, st: WalkState, pt: string): (r: Result<WalkState, ResolveError>)
    ensures r.Ok? ==> r.value.lastMod == st.mod && r.value.moduleObj.Some?
    ensures st.mod + pt != "" && st.mod + pt in env.modules ==>
      r == Ok(WalkState(st.mod + pt + ".", st.mod, Some(Module(st.mod + pt))))
    ensures st.mod + pt == "" ==> r == Err(EmptyModuleName)
    ensures r.Err? ==> r.error != ModuleUnbound && !r.error.HashNotFound?
  {
    var lastMod := st.mod;
    var mod := st.mod + pt;
    match Import(env, mod)
    case Ok(m) => Ok(WalkState(mod + ".", lastMod, Some(m)))
    case Err(e) =>
      if !e.ModuleNotFound? then Err(e)
      else
        match Import(env, StripDot(lastMod))
        case Err(e') => Err(e')
        case Ok(m) =>
          match GetAttr(env, m, pt)
          case Err(e'') => Err(e'')
          case Ok(a) => Ok(WalkState(mod, lastMod, Some(a)))
  }

  /** The loop run over `segments`, stopping at the first exception. */
  function Walk(env: Env, segments: seq<string>): (r: Result<WalkState, ResolveError>)
    ensures |segments| == 0 ==> r == Ok(Start)
    ensures r.Ok? && |segments| > 0 ==> r.value.moduleObj.Some?
    ensures r.Err? ==> r.error != ModuleUnbound && !r.error.HashNotFound?
    decreases |segments|
  {
    if |segments| == 0 then Ok(Start)
    else
      match Walk(env, segments[..|segments| - 1])
      case Err(e) => Err(e)
      case Ok(st) => Step(env, st, segments[|segments| - 1])
  }

  /** The segment after the last dot: the name `get_function` ends with `getattr` of. */
  function LastSegment(identifier: string): string
  {
    var parts := Split(identifier, '.');
    parts[|parts| - 1]
  }

  /** What `get_function(hash)` returns or raises, given the table `table`. Whatever it
      returns was obtained by `getattr` of the identifier's last segment on some object. */
  function Resolve(env: Env, table: map<string, string>, hash: string): (r: Result<Obj, ResolveError>)
    ensures hash !in table ==> r == Err(HashNotFound(hash))
    ensures r.Ok? ==> hash in table && exists o :: GetAttr(env, o, LastSegment(table[hash])) == r
  {
    if hash !in table then Err(HashNotFound(hash))
    else
      var parts := Split(table[hash], '.');
      Finish(env, Walk(env, parts[..|parts| - 1]), LastSegment(table[hash]))
  }

  /** After the loop: `getattr(module, parts[-1])`, or the exception that ended the loop. */
  function Finish(env: Env, walked: Result<WalkState, ResolveError>, name: string): (r: Result<Obj, ResolveError>)
    ensures r.Ok? ==> walked.Ok? && walked.value.moduleObj.Some?
    ensures r.Ok? ==> GetAttr(env, walked.value.moduleObj.value, name) == r
    ensures walked.Err? ==> r == Err(walked.error)
    ensures walked.Ok? && walked.value.moduleObj.None? ==> r == Err(ModuleUnbound)
  {
    match walked
    case Err(e) => Err(e)
    case Ok(st) =>
      if st.moduleObj.None? then Err(ModuleUnbound)
      else GetAttr(env, st.moduleObj.value, name)
  }

  /** For a stored hash, the outcome is the walk over all segments but the last, finished
      with the last one. */
  lemma ResolveByWalk(env: Env, table: map<string, string>, hash: string)
    requires hash in table
    ensures var parts := Split(table[hash], '.');
      Resolve(env, table, hash) == Finish(env, Walk(env, parts[..|parts| - 1]), parts[|parts| - 1])
  {
  }

  /** One more segment: one more loop iteration, unless an earlier one raised. */
  lemma WalkSnoc(env: Env, segments: seq<string>, pt: string)
    ensures var w := Walk(env, segments);
      Walk(env, segments + [pt]) == if w.Err? then Err(w.error) else Step(env, w.value, pt)
  {
    assert (segments + [pt])[..|segments|] == segments;
  }

  /** An exception part-way through the loop ends the whole walk with it. */
  lemma {:induction false} WalkErrorEscapes(env: Env, segments: seq<string>, i: nat, e: ResolveError)
    requires i <= |segments|
    requires Walk(env, segments[..i]) == Err(e)
    ensures Walk(env, segments) == Err(e)
    decreases |segments| - i
  {
    if i < |segments| {
      assert segments[..i + 1][..i] == segments[..i];
      WalkErrorEscapes(env, segments, i + 1, e);
    } else {
      assert segments[..i] == segments;
    }
  }

  /** An exception part-way through the loop is what `get_function` raises. */
  lemma ResolveRaises(env: Env, table: map<string, string>, hash: string, segments: seq<string>,
                      i: nat, e: ResolveError)
    requires hash in table
    requires var parts := Split(table[hash], '.'); segments == parts[..|parts| - 1]
    requires i <= |segments| && Walk(env, segments[..i]) == Err(e)
    ensures Resolve(env, table, hash) == Err(e)
  {
    WalkErrorEscapes(env, segments, i, e);
    ResolveByWalk(env, table, hash);
  }

  /** The body of the `for pt in parts[:-1]` loop: the try/except around the import of
      `_mod + pt`, with the fallback to `getattr` on the previous prefix. An exception it
      does not catch comes back as `Err`. */
  method Iteration(env: Env, mod0: string, lastMod0: string, moduleObj0: Option<Obj>, pt: string)
    returns (r: Result<WalkState, ResolveError>)
    ensures r == Step(env, WalkState(mod0, lastMod0, moduleObj0), pt)
  {
    var lastMod := mod0;
    var mod := mod0 + pt;
    var imported := Import(env, mod);
    if imported.Ok? {
      return Ok(WalkState(mod + ".", lastMod, Some(imported.value)));
    } else if !imported.error.ModuleNotFound? {
      return Err(imported.error);
    }
    var fallback := Import(env, StripDot(lastMod));
    if fallback.Err? {
      return Err(fallback.error);
    }
    var attr := GetAttr(env, fallback.value, pt);
    if attr.Err? {
      return Err(attr.error);
    }
    return Ok(WalkState(mod, lastMod, Some(attr.value)));
  }

  /** The Python dict that holds the table; a class because `__init__` keeps a
      caller's dict itself, so both sides see later insertions. */
  class Dict {
    var items: map<string, string>

    constructor ()
      ensures items == map[]
    {
      items := map[];
    }
  }

  class FunctionIndexer {
    const functionDict: Dict

    /** `FunctionIndexer(function_dict=None)`: a fresh empty table, or the given dict itself. */
    constructor (supplied: Dict?)
      ensures supplied == null ==> fresh(functionDict) && functionDict.items == map[]
      ensures supplied != null ==> functionDict == supplied && functionDict.items == supplied.items
    {
      if supplied == null {
        functionDict := new Dict();
      } else {
        functionDict := supplied;
      }
    }

    /** `index_function`: rejects local functions, otherwise stores `sha1(identifier) -> identifier`
        and returns the hash. */
    method IndexFunction(fn: Callable, sha1: string -> string) returns (r: Result<string, IndexError>)
      modifies functionDict
      ensures IsLocal(fn) ==> r == Err(LocalFunction) && functionDict.items == old(functionDict.items)
      ensures !IsLocal(fn) ==> r == Ok(sha1(Identifier(fn)))
      ensures !IsLocal(fn) ==>
        functionDict.items == old(functionDict.items)[sha1(Identifier(fn)) := Identifier(fn)]
    {
      var identifier := fn.moduleName + "." + fn.qualname;
      if Contains(identifier, LocalsMarker) {
        return Err(LocalFunction);
      }
      var functionHash := sha1(identifier);
      functionDict.items := functionDict.items[functionHash := identifier];
      return Ok(functionHash);
    }

    /** `get_function`: the loop over `parts[:-1]` with its try/except fallback,
        then `getattr` of the last segment. */
    method GetFunction(functionHash: string, env: Env) returns (r: Result<Obj, ResolveError>)
      ensures r == Resolve(env, functionDict.items, functionHash)
      ensures functionHash !in functionDict.items ==> r == Err(HashNotFound(functionHash))
    {
      if functionHash !in functionDict.items {
        return Err(HashNotFound(functionHash));
      }
      var identifier := functionDict.items[functionHash];
      var parts := Split(identifier, '.');
      var fnName := parts[|parts| - 1];
      var segments := parts[..|parts| - 1];
      var mod, lastMod, moduleObj := "", "", None;
      for i := 0 to |segments|
        invariant Walk(env, segments[..i]) == Ok(WalkState(mod, lastMod, moduleObj))
      {
        var pt := segments[i];
        var outcome := Iteration(env, mod, lastMod, moduleObj, pt);
        assert Walk(env, segments[..i + 1]) == outcome by {
          assert segments[..i] + [pt] == segments[..i + 1];
          WalkSnoc(env, segments[..i], pt);
        }
        if outcome.Err? {
          ResolveRaises(env, functionDict.items, functionHash, segments, i + 1, outcome.error);
          return Err(outcome.error);
        }
        mod, lastMod, moduleObj := outcome.value.mod, outcome.value.lastMod, outcome.value.moduleObj;
      }
      assert Resolve(env, functionDict.items, functionHash) == Finish(env, Ok(WalkState(mod, lastMod, moduleObj)), fnName) by {
        assert segments[..|segments|] == segments;
        ResolveByWalk(env, functionDict.items, functionHash);
      }
      if moduleObj.None? {
        return Err(ModuleUnbound);
      }
      r := GetAttr(env, moduleObj.value, fnName);
    }
  }

  /** A Python module name: dot-separated non-empty segments (no leading, trailing or
      doubled dot). */
  predicate DottedName(m: string)
  {
    && m != "" && m[0] != '.' && m[|m| - 1] != '.'
    && forall i :: 0 <= i < |m| - 1 && m[i] == '.' ==> m[i + 1] != '.'
  }

  /** The first segment of a module name is not empty. */
  lemma FirstSegment(m: string)
    requires DottedName(m)
    ensures Split(m, '.')[0] != ""
  {
  }

  /** Every leading run of segments of an importable module name names an importable
      module too, and not the empty one. */
  lemma PrefixImportable(env: Env, ms: seq<string>, j: nat)
    requires WellFormed(env)
    requires |ms| >= 1 && ms[0] != ""
    requires Join(ms, '.') in env.modules
    requires 1 <= j <= |ms|
    ensures Join(ms[..j], '.') in env.modules && Join(ms[..j], '.') != ""
  {
    var prefix := Join(ms[..j], '.');
    if j == |ms| {
      assert ms[..j] == ms;
    } else {
      JoinAt(ms, j, '.');
      var m := Join(ms, '.');
      assert m[..|prefix|] == prefix && m[|prefix|] == '.';
    }
    assert ms[..j][0] == ms[0];
  }

  /** Walking the segments of an importable module name imports each prefix in turn
      and ends with `_mod == "<prefix>."` and `module` the prefix's module. */
  lemma {:induction false} WalkModulePath(env: Env, ms: seq<string>)
    requires WellFormed(env)
    requires |ms| >= 1 && ms[0] != ""
    requires Join(ms, '.') in env.modules
    ensures Walk(env, ms) ==
      Ok(WalkState(Join(ms, '.') + ".",
                   if |ms| == 1 then "" else Join(ms[..|ms| - 1], '.') + ".",
                   Some(Module(Join(ms, '.')))))
    decreases |ms|
  {
    var n := |ms|;
    var prev := ms[..n - 1];
    var name := Join(ms, '.');
    assert prev + [ms[n - 1]] == ms;
    assert name != "" by {
      PrefixImportable(env, ms, n);
      assert ms[..n] == ms;
    }
    if n == 1 {
      assert Start.mod + ms[0] == name;
      WalkImportsNext(env, prev, ms[0], Start);
    } else {
      assert Join(prev, '.') in env.modules && prev[0] == ms[0] by {
        PrefixImportable(env, ms, n - 1);
      }
      WalkModulePath(env, prev);
      var st := Walk(env, prev).value;
      assert st.mod + ms[n - 1] == name by {
        JoinSnoc(prev, ms[n - 1], '.');
      }
      WalkImportsNext(env, prev, ms[n - 1], st);
    }
  }

  /** After a walk ending in `st`, an importable `_mod + pt` is the next module. */
  lemma WalkImportsNext(env: Env, prev: seq<string>, pt: string, st: WalkState)
    requires Walk(env, prev) == Ok(st)
    requires st.mod + pt != "" && st.mod + pt in env.modules
    ensures Walk(env, prev + [pt]) == Ok(WalkState(st.mod + pt + ".", st.mod, Some(Module(st.mod + pt))))
  {
    WalkSnoc(env, prev, pt);
  }

  /** The identifier of a function `f` in module `m` splits into the module's segments
      followed by the qualified name's. */
  lemma IdentifierParts(m: string, qualname: string)
    ensures Split(m + "." + qualname, '.') == Split(m, '.') + Split(qualname, '.')
  {
    assert m + "." + qualname == m + ['.'] + qualname;
    SplitAppend(m, qualname, '.');
  }

  /** The walk over all segments of an importable module name `m` ends at `m`. */
  lemma WalkModule(env: Env, m: string)
    requires WellFormed(env)
    requires m in env.modules && DottedName(m)
    ensures var w := Walk(env, Split(m, '.'));
      w.Ok? && w.value.mod == m + "." && w.value.moduleObj == Some(Module(m))
  {
    var ms := Split(m, '.');
    assert ms[..|ms|] == ms;
    JoinSplit(m, '.');
    FirstSegment(m);
    WalkModulePath(env, ms);
  }

  /** What `index_function` stores for `fn` resolves to the walk over all but the last
      segment of its identifier, finished with `getattr` of the last one. */
  lemma ResolveStored(env: Env, table: map<string, string>, sha1: string -> string,
                      m: string, front: seq<string>, last: string)
    requires '.' !in last
    requires forall k :: 0 <= k < |front| ==> '.' !in front[k]
    ensures var id := Identifier(Callable(m, Join(front + [last], '.')));
      Resolve(env, table[sha1(id) := id], sha1(id)) == Finish(env, Walk(env, Split(m, '.') + front), last)
  {
    var pieces := front + [last];
    var id := Identifier(Callable(m, Join(pieces, '.')));
    assert forall k :: 0 <= k < |pieces| ==> '.' !in pieces[k] by {
      forall k | 0 <= k < |pieces| ensures '.' !in pieces[k] {
        if k < |front| { assert pieces[k] == front[k]; } else { assert pieces[k] == last; }
      }
    }
    SplitJoin(pieces, '.');
    IdentifierParts(m, Join(pieces, '.'));
    assert Split(id, '.') == Split(m, '.') + pieces;
    var parts := Split(m, '.') + front + [last];
    assert parts == Split(m, '.') + pieces;
    assert parts[..|parts| - 1] == Split(m, '.') + front;
  }

  /** Resolving what `index_function` stored for a module-level function `f` of module `m`
      gives `getattr(m, f)`: the function itself. */
  lemma RoundTripModuleFunction(env: Env, table: map<string, string>, sha1: string -> string, fn: Callable)
    requires WellFormed(env)
    requires fn.moduleName in env.modules && DottedName(fn.moduleName)
    requires '.' !in fn.qualname
    ensures Resolve(env, table[sha1(Identifier(fn)) := Identifier(fn)], sha1(Identifier(fn)))
         == GetAttr(env, Module(fn.moduleName), fn.qualname)
  {
    var ms := Split(fn.moduleName, '.');
    IdentifierParts(fn.moduleName, fn.qualname);
    SplitNoSep(fn.qualname, '.');
    assert Join([fn.qualname], '.') == fn.qualname;
    assert ms + [] == ms;
    ResolveStored(env, table, sha1, fn.moduleName, [], fn.qualname);
    WalkModule(env, fn.moduleName);
  }

  /** Resolving a method `cls.f` defined in module `m`: the import of `m.cls` fails, so the
      walk falls back to `getattr(m, cls)` and ends with `getattr` of `f` on the class. */
  lemma RoundTripMethod(env: Env, table: map<string, string>, sha1: string -> string,
                        m: string, cls: string, f: string)
    requires WellFormed(env)
    requires m in env.modules && DottedName(m)
    requires '.' !in cls && '.' !in f
    requires m + "." + cls !in env.modules
    ensures var id := Identifier(Callable(m, cls + "." + f));
      var c := GetAttr(env, Module(m), cls);
      Resolve(env, table[sha1(id) := id], sha1(id)) == if c.Err? then c else GetAttr(env, c.value, f)
  {
    var ms := Split(m, '.');
    MethodParts(m, cls, f);
    ResolveStored(env, table, sha1, m, [cls], f);
    WalkModule(env, m);
    WalkSnoc(env, ms, cls);
    assert StripDot(m + ".") == m;
  }

  lemma MethodParts(m: string, cls: string, f: string)
    requires '.' !in cls && '.' !in f
    ensures Join([cls] + [f], '.') == cls + "." + f
    ensures Split(Identifier(Callable(m, cls + "." + f)), '.') == Split(m, '.') + [cls] + [f]
  {
    IdentifierParts(m, cls + "." + f);
    IdentifierParts(cls, f);
    SplitNoSep(cls, '.');
    SplitNoSep(f, '.');
    JoinPair(cls, f);
    assert [cls] + [f] == [cls, f];
  }

  /** The walk over `m.Outer.Inner`: `m.Outer` falls back to `getattr(m, "Outer")`, leaving
      `_mod == "m.Outer"` without a trailing dot, so the next fallback imports `m.Outer`. */
  lemma WalkTwoAttributes(env: Env, m: string, outer: string, inner: string)
    requires WellFormed(env)
    requires m in env.modules && DottedName(m)
    requires '.' !in outer && outer != ""
    requires m + "." + outer !in env.modules && m + "." + outer + inner !in env.modules
    requires (Module(m), outer) in env.attrs
    ensures Walk(env, Split(m, '.') + [outer, inner]) == Err(ModuleNotFound(m + "." + outer))
  {
    var ms := Split(m, '.');
    WalkModule(env, m);
    WalkSnoc(env, ms, outer);
    assert StripDot(m + ".") == m;
    var afterOuter := WalkState(m + "." + outer, m + ".", Some(env.attrs[(Module(m), outer)]));
    assert Walk(env, ms + [outer]) == Ok(afterOuter);
    WalkSnoc(env, ms + [outer], inner);
    assert ms + [outer] + [inner] == ms + [outer, inner];
    assert StripDot(m + "." + outer) == m + "." + outer by {
      assert (m + "." + outer)[|m + "." + outer| - 1] == outer[|outer| - 1];
      assert outer[|outer| - 1] in outer;
    }
  }

  /** A method of a class nested in another class (`Outer.Inner.f`) does not resolve:
      the second non-module segment makes the fallback import `m.Outer`, which fails. */
  lemma NestedClassMethodFails(env: Env, table: map<string, string>, sha1: string -> string,
                               m: string, outer: string, inner: string, f: string)
    requires WellFormed(env)
    requires m in env.modules && DottedName(m)
    requires '.' !in outer && '.' !in inner && '.' !in f && outer != ""
    requires m + "." + outer !in env.modules && m + "." + outer + inner !in env.modules
    requires (Module(m), outer) in env.attrs
    ensures var id := Identifier(Callable(m, outer + "." + inner + "." + f));
      Resolve(env, table[sha1(id) := id], sha1(id)) == Err(ModuleNotFound(m + "." + outer))
  {
    NestedParts(m, outer, inner, f);
    ResolveStored(env, table, sha1, m, [outer, inner], f);
    WalkTwoAttributes(env, m, outer, inner);
  }

  /** A module-level function whose module's first segment cannot be imported: the
      fallback imports `""` (the previous, empty prefix), which raises ValueError. */
  lemma FirstSegmentNotImportable(env: Env, table: map<string, string>, sha1: string -> string,
                                  a: string, f: string)
    requires a != "" && '.' !in a && '.' !in f
    requires a !in env.modules
    ensures var id := Identifier(Callable(a, f));
      Resolve(env, table[sha1(id) := id], sha1(id)) == Err(EmptyModuleName)
  {
    var id := Identifier(Callable(a, f));
    var table' := table[sha1(id) := id];
    IdentifierParts(a, f);
    SplitNoSep(a, '.');
    SplitNoSep(f, '.');
    var parts := Split(id, '.');
    assert parts == [a, f];
    ResolveByWalk(env, table', sha1(id));
    assert parts[..|parts| - 1] == [] + [a];
    WalkSnoc(env, [], a);
    assert "" + a == a;
    assert Import(env, a) == Err(ModuleNotFound(a));
    assert Import(env, StripDot("")) == Err(EmptyModuleName);
    assert Walk(env, [a]) == Err(EmptyModuleName);
  }

  /** An identifier without a dot never binds `module`, so `get_function` raises
      UnboundLocalError. Only a caller's dict can hold such an entry: `index_function`
      always writes a dot. */
  lemma DotlessIdentifierUnbound(env: Env, table: map<string, string>, hash: string)
    requires hash in table && '.' !in table[hash]
    ensures Resolve(env, table, hash) == Err(ModuleUnbound)
  {
    SplitNoSep(table[hash], '.');
    ResolveByWalk(env, table, hash);
  }

  lemma NestedParts(m: string, outer: string, inner: string, f: string)
    requires '.' !in outer && '.' !in inner && '.' !in f
    ensures Join([outer, inner, f], '.') == outer + "." + inner + "." + f
    ensures Split(Identifier(Callable(m, outer + "." + inner + "." + f)), '.')
         == Split(m, '.') + [outer, inner] + [f]
  {
    var q := outer + "." + inner + "." + f;
    JoinThree(outer, inner, f);
    SplitThree(outer, inner, f);
    IdentifierParts(m, q);
    assert [outer, inner] + [f] == [outer, inner, f];
  }

  lemma JoinThree(a: string, b: string, c: string)
    ensures Join([a, b, c], '.') == a + "." + b + "." + c
  {
    JoinPair(b, c);
    assert [a, b, c][1..] == [b, c];
  }

  lemma SplitThree(a: string, b: string, c: string)
    requires '.' !in a && '.' !in b && '.' !in c
    ensures Split(a + "." + b + "." + c, '.') == [a, b, c]
  {
    var tail := b + "." + c;
    assert a + "." + b + "." + c == a + "." + tail;
    assert Split(tail, '.') == [b, c] by {
      IdentifierParts(b, c);
      SplitNoSep(b, '.');
      SplitNoSep(c, '.');
    }
    assert Split(a, '.') == [a] by {
      SplitNoSep(a, '.');
    }
    IdentifierParts(a, tail);
    assert [a] + [b, c] == [a, b, c];
  }

  lemma JoinPair(a: string, b: string)
    ensures Join([a, b], '.') == a + "." + b
  {
    assert [a, b][1..] == [b];
  }

  /** A function defined inside `outer` has `outer.<locals>.f` as its qualified name,
      so `index_function` rejects it. */
  lemma NestedFunctionIsLocal(m: string, outer: string, f: string)
    ensures IsLocal(Callable(m, outer + ".<locals>." + f))
  {
    var id := Identifier(Callable(m, outer + ".<locals>." + f));
    var i := |m| + 1 + |outer| + 1;
    assert id == (m + "." + outer + ".") + LocalsMarker + ("." + f);
    assert OccursAt(id, LocalsMarker, i);
  }

  // The three tests of tests/test_findex.py, for any module `m` holding the test file
  // and any environment in which it is importable (Python's import system guarantees
  // WellFormed) and defines the test's function and class.

  /** test_function_indexer: a module-level function comes back from its hash, and an
      unknown hash raises. */
  method TestFunctionIndexer(sha1: string -> string, env: Env, m: string, name: string)
    returns (retrieved: Result<Obj, ResolveError>, missing: Result<Obj, ResolveError>)
    requires WellFormed(env) && m in env.modules && DottedName(m) && '<' !in m
    requires '.' !in name && '<' !in name && (Module(m), name) in env.attrs
    requires sha1(Identifier(Callable(m, name))) != "nonexistenthash"
    ensures retrieved == Ok(env.attrs[(Module(m), name)])
    ensures missing == Err(HashNotFound("nonexistenthash"))
  {
    var indexer := new FunctionIndexer(null);
    var fn := Callable(m, name);
    var functionHash := indexer.IndexFunction(fn, sha1);
    RoundTripModuleFunction(env, map[], sha1, fn);
    retrieved := indexer.GetFunction(functionHash.value, env);
    missing := indexer.GetFunction("nonexistenthash", env);
  }

  /** test_function_indexer_from_class: `TestClass.test_class_method` comes back as the
      method object found on the class. */
  method TestFunctionIndexerFromClass(sha1: string -> string, env: Env, m: string, cls: string, name: string)
    returns (retrieved: Result<Obj, ResolveError>)
    requires WellFormed(env) && m in env.modules && DottedName(m) && '<' !in m
    requires '.' !in cls && '<' !in cls && m + "." + cls !in env.modules
    requires '.' !in name && '<' !in name
    requires (Module(m), cls) in env.attrs && (env.attrs[(Module(m), cls)], name) in env.attrs
    ensures retrieved == Ok(env.attrs[(env.attrs[(Module(m), cls)], name)])
  {
    var indexer := new FunctionIndexer(null);
    var fn := Callable(m, cls + "." + name);
    var functionHash := indexer.IndexFunction(fn, sha1);
    RoundTripMethod(env, map[], sha1, m, cls, name);
    retrieved := indexer.GetFunction(functionHash.value, env);
  }

  /** test_function_indexer_nested: a function defined inside the test function is
      refused and nothing is stored. */
  method TestFunctionIndexerNested(sha1: string -> string, m: string, test: string, name: string)
    returns (r: Result<string, IndexError>, entries: map<string, string>)
    ensures r == Err(LocalFunction)
    ensures entries == map[]
  {
    var indexer := new FunctionIndexer(null);
    NestedFunctionIsLocal(m, test, name);
    r := indexer.IndexFunction(Callable(m, test + ".<locals>." + name), sha1);
    entries := indexer.functionDict.items;
  }

  /** Indexing the same function twice through an indexer built on a caller's dict:
      the same hash both times, the second call changes nothing, and the caller's
      dict itself holds the entry. */
  method IndexTwice(initial: map<string, string>, fn: Callable, sha1: string -> string)
    returns (first: Result<string, IndexError>, second: Result<string, IndexError>,
             afterFirst: map<string, string>, afterSecond: map<string, string>)
    ensures first == second
    ensures afterFirst == afterSecond
    ensures IsLocal(fn) ==> first == Err(LocalFunction) && afterFirst == initial
    ensures !IsLocal(fn) ==>
      first == Ok(sha1(Identifier(fn))) && afterFirst == initial[sha1(Identifier(fn)) := Identifier(fn)]
  {
    var callersDict := new Dict();
    callersDict.items := initial;
    var indexer := new FunctionIndexer(callersDict);
    first := indexer.IndexFunction(fn, sha1);
    afterFirst := callersDict.items;
    second := indexer.IndexFunction(fn, sha1);
    afterSecond := callersDict.items;
  }
}
