/**
  The generator's configuration object and the older per-function Dart writer
  (membrane/src/lib.rs): `Membrane::new` groups the registered functions by
  namespace, the setters fill in the package settings, and the legacy `Function`
  methods append their text to the record's `output`.
 */
module MembraneLib {
  import opened Wrappers
  import opened Strings

  /**
    The function record. It is the union of the fields that the two emitters read:
    this revision of lib.rs has no `is_sync`, `disable_logging` or `timeout`, which
    the newer functions.rs reads. A return or error type is kept as its path
    segments (the newer emitter deserializes by path); the older emitter sees the
    segments joined with `::`.
   */
  datatype Function = Function(
    externCFnName: string,
    externCFnTypes: string,
    fnName: string,
    isStream: bool,
    isSync: bool,
    returnType: seq<string>,
    errorType: seq<string>,
    namespace: string,
    disableLogging: bool,
    timeout: Option<int>,
    dartOuterParams: string,
    dartTransforms: string,
    dartInnerArgs: string)

  /** A registered function; its tracing closure belongs to serde-reflection and is not kept. */
  datatype DeferredTrace = DeferredTrace(fun: Function, namespace: string)

  /** The type text the older emitter interpolates. */
  function TypeText(path: seq<string>): string
  {
    Join(path, "::")
  }

  // ---------------------------------------------------------------------------
  // Grouping by namespace

  /** The functions of namespace `ns`, in inventory order. */
  function FunctionsOf(inventory: seq<DeferredTrace>, ns: string): seq<Function>
  {
    if inventory == [] then []
    else
      var last := inventory[|inventory| - 1];
      FunctionsOf(inventory[..|inventory| - 1], ns) + (if last.namespace == ns then [last.fun] else [])
  }

  /** `ns` is the namespace of some registered function. */
  predicate Registered(inventory: seq<DeferredTrace>, ns: string)
  {
    exists i :: 0 <= i < |inventory| && inventory[i].namespace == ns
  }

  /** Grouping distributes over a split of the inventory: each group keeps inventory order. */
  lemma {:induction false} FunctionsOfConcat(a: seq<DeferredTrace>, b: seq<DeferredTrace>, ns: string)
    ensures FunctionsOf(a + b, ns) == FunctionsOf(a, ns) + FunctionsOf(b, ns)
    decreases |b|
  {
    if b == [] {
      assert a + b == a;
    } else {
      var n := |b| - 1;
      assert (a + b)[..|a + b| - 1] == a + b[..n];
      FunctionsOfConcat(a, b[..n], ns);
    }
  }

  /** Every grouped function was registered under that namespace. */
  lemma {:induction false} FunctionsOfSound(inventory: seq<DeferredTrace>, ns: string, f: Function)
    requires f in FunctionsOf(inventory, ns)
    ensures exists i :: 0 <= i < |inventory| && inventory[i] == DeferredTrace(f, ns)
  {
    var n := |inventory| - 1;
    if f in FunctionsOf(inventory[..n], ns) {
      FunctionsOfSound(inventory[..n], ns, f);
      var i :| 0 <= i < n && inventory[..n][i] == DeferredTrace(f, ns);
      assert inventory[i] == DeferredTrace(f, ns);
    } else {
      assert inventory[n] == DeferredTrace(f, ns);
    }
  }

  /** A namespace has functions exactly when some function was registered under it. */
  lemma {:induction false} FunctionsOfNonEmpty(inventory: seq<DeferredTrace>, ns: string)
    ensures FunctionsOf(inventory, ns) != [] <==> Registered(inventory, ns)
  {
    if inventory != [] {
      var n := |inventory| - 1;
      FunctionsOfNonEmpty(inventory[..n], ns);
      if Registered(inventory[..n], ns) {
        var i :| 0 <= i < n && inventory[..n][i].namespace == ns;
        assert inventory[i].namespace == ns;
      }
      if Registered(inventory, ns) && inventory[n].namespace != ns {
        var i :| 0 <= i < |inventory| && inventory[i].namespace == ns;
        assert inventory[..n][i].namespace == ns;
      }
    }
  }

  // ---------------------------------------------------------------------------
  // `Vec<String>::sort` and `dedup`

  predicate SortedLe(xs: seq<string>)
  {
    forall i, j :: 0 <= i < j < |xs| ==> LessEq(xs[i], xs[j])
  }

  predicate StrictlySorted(xs: seq<string>)
  {
    forall i, j :: 0 <= i < j < |xs| ==> Less(xs[i], xs[j])
  }

  lemma LessEqTransitive(a: string, b: string, c: string)
    requires LessEq(a, b) && LessEq(b, c)
    ensures LessEq(a, c)
  {
    if a != b && b != c {
      LessTransitive(a, b, c);
    }
  }

  lemma NotLessEq(a: string, b: string)
    requires !LessEq(a, b)
    ensures Less(b, a)
  {
    LessTrichotomy(a, b);
  }

  /** Inserts `x` into a sorted sequence after every element not greater than it. */
  method Insert(xs: seq<string>, x: string) returns (ys: seq<string>)
    requires SortedLe(xs)
    ensures SortedLe(ys)
    ensures multiset(ys) == multiset(xs) + multiset{x}
  {
    var i := 0;
    while i < |xs| && LessEq(xs[i], x)
      invariant 0 <= i <= |xs|
      invariant forall k :: 0 <= k < i ==> LessEq(xs[k], x)
    {
      i := i + 1;
    }
    ys := xs[..i] + [x] + xs[i..];
    forall p, q | 0 <= p < q < |ys| ensures LessEq(ys[p], ys[q]) {
      if q < i || p > i {
        var p' := if p < i then p else p - 1;
        var q' := if q < i then q else q - 1;
        assert ys[p] == xs[p'] && ys[q] == xs[q'];
      } else if q == i {
        assert ys[p] == xs[p];
      } else if p == i {
        assert ys[q] == xs[q - 1];
        NotLessEq(xs[i], x);
        if q - 1 > i {
          LessEqTransitive(x, xs[i], xs[q - 1]);
        }
      } else {
        assert ys[p] == xs[p] && ys[q] == xs[q - 1];
        LessEqTransitive(xs[p], x, xs[q - 1]) by {
          NotLessEq(xs[i], x);
          if q - 1 > i {
            LessEqTransitive(x, xs[i], xs[q - 1]);
          }
        }
      }
    }
    assert xs == xs[..i] + xs[i..];
  }

  /** `namespaces.sort()`: a sorted permutation. */
  method Sort(xs: seq<string>) returns (ys: seq<string>)
    ensures SortedLe(ys)
    ensures multiset(ys) == multiset(xs)
  {
    ys := [];
    for k := 0 to |xs|
      invariant SortedLe(ys)
      invariant multiset(ys) == multiset(xs[..k])
    {
      ys := Insert(ys, xs[k]);
      assert xs[..k + 1] == xs[..k] + [xs[k]];
    }
    assert xs[..|xs|] == xs;
  }

  /** `namespaces.dedup()`: drops every element equal to the one kept before it. */
  method Dedup(xs: seq<string>) returns (ys: seq<string>)
    ensures forall s :: s in ys <==> s in xs
    ensures forall i :: 0 <= i < |ys| - 1 ==> ys[i] != ys[i + 1]
    ensures SortedLe(xs) ==> StrictlySorted(ys)
  {
    ys := [];
    for k := 0 to |xs|
      invariant forall s :: s in ys <==> s in xs[..k]
      invariant forall i :: 0 <= i < |ys| - 1 ==> ys[i] != ys[i + 1]
      invariant k == 0 <==> ys == []
      invariant k > 0 ==> ys[|ys| - 1] == xs[k - 1]
      invariant SortedLe(xs) ==> StrictlySorted(ys)
    {
      assert xs[..k + 1] == xs[..k] + [xs[k]];
      if ys == [] || ys[|ys| - 1] != xs[k] {
        if SortedLe(xs) && ys != [] {
          var last := ys[|ys| - 1];
          assert LessEq(xs[k - 1], xs[k]);
          assert Less(last, xs[k]);
          forall i | 0 <= i < |ys| ensures Less(ys[i], xs[k]) {
            if i < |ys| - 1 {
              LessTransitive(ys[i], last, xs[k]);
            }
          }
        }
        ys := ys + [xs[k]];
      }
    }
    assert xs[..|xs|] == xs;
  }

  // ---------------------------------------------------------------------------
  // The destination directory

  /**
    `package_destination_dir` as written: an empty path is refused (a panic), any other
    path is stored with its trailing `/` removed.
   */
  function DestinationAsWritten(path: string): (r: Option<string>)
    ensures r.None? <==> path == ""
    ensures r.Some? ==> StartsWith(path, r.value) && (r.value == "" || r.value[|r.value| - 1] != '/')
    ensures r.Some? ==> forall i :: |r.value| <= i < |path| ==> path[i] == '/'
  {
    if path == "" then None else Some(TrimEndMatches(path, '/'))
  }

  /** The guard lets `/` through, and the stored destination is then empty after all. */
  lemma RootDestinationIsEmpty()
    ensures DestinationAsWritten("/") == Some("")
  {
    assert TrimEndMatches("/"[..0], '/') == "";
  }

  /** The check the guard is there for: a destination that is empty once trimmed is refused. */
  function Destination(path: string): (r: Result<string, string>)
    ensures r.Err? <==> forall i :: 0 <= i < |path| ==> path[i] == '/'
    ensures r.Ok? ==> r.value != "" && r.value[|r.value| - 1] != '/' && StartsWith(path, r.value)
    ensures r.Ok? ==> DestinationAsWritten(path) == Some(r.value)
  {
    var trimmed := TrimEndMatches(path, '/');
    if trimmed == "" then Err("package_destination_dir() cannot be called with an empty path")
    else Ok(trimmed)
  }

  /**
    `write_pubspec`'s package name: the configured name, else the destination's last
    `/`-separated segment.
   */
  function PubspecName(packageName: string, destination: string): (r: string)
    ensures packageName != "" ==> r == packageName
    ensures packageName == "" ==> !Contains(r, "/") && EndsWith(destination, r)
    ensures packageName == "" ==> r == destination || EndsWith(destination, "/" + r)
  {
    if packageName == "" then
      LastPieceSuffix(destination, "/");
      LastPieceAfterSeparator(destination, "/");
      LastPiece(destination, "/")
    else packageName
  }

  /** The last segment of a non-empty path that does not end in `/` is not empty. */
  lemma {:induction false} LastSegmentNonEmpty(s: string)
    requires s != "" && s[|s| - 1] != '/'
    ensures LastPiece(s, "/") != ""
    decreases |s|
  {
    FirstIndexOfLeftmost(s, "/");
    match FirstIndexOf(s, "/")
    case None =>
    case Some(k) =>
      var rest := s[k + 1..];
      assert rest != "" && rest[|rest| - 1] == s[|s| - 1];
      LastSegmentNonEmpty(rest);
  }

  /** Every destination the corrected check accepts gives a non-empty package name. */
  lemma PubspecNameNonEmpty(packageName: string, path: string)
    requires Destination(path).Ok?
    ensures PubspecName(packageName, Destination(path).value) != ""
  {
    if packageName == "" {
      LastSegmentNonEmpty(Destination(path).value);
    }
  }

  /** With the path `/` as written, the package would be named by the empty string. */
  lemma RootPackageNameIsEmpty()
    ensures PubspecName("", DestinationAsWritten("/").value) == ""
  {
    RootDestinationIsEmpty();
  }

  /**
    The loop of `Membrane::new`: pushes each function's namespace onto the namespace
    list and appends the function to its namespace's group.
   */
  method Group(inventory: seq<DeferredTrace>) returns (names: seq<string>, registry: map<string, seq<Function>>)
    ensures forall ns :: ns in names <==> Registered(inventory, ns)
    ensures forall ns :: ns in registry <==> Registered(inventory, ns)
    ensures forall ns :: ns in registry ==> registry[ns] == FunctionsOf(inventory, ns)
  {
    names := [];
    registry := map[];
    for k := 0 to |inventory|
      invariant forall ns :: ns in names <==> Registered(inventory[..k], ns)
      invariant forall ns :: ns in registry <==> Registered(inventory[..k], ns)
      invariant forall ns :: ns in registry ==> registry[ns] == FunctionsOf(inventory[..k], ns)
    {
      var item := inventory[k];
      assert inventory[..k + 1][..k] == inventory[..k];
      RegisteredSnoc(inventory[..k], item);
      assert inventory[..k + 1] == inventory[..k] + [item];
      names := names + [item.namespace];
      var group := if item.namespace in registry then registry[item.namespace] else [];
      if item.namespace !in registry {
        FunctionsOfNonEmpty(inventory[..k], item.namespace);
      }
      registry := registry[item.namespace := group + [item.fun]];
    }
    assert inventory[..|inventory|] == inventory;
  }

  lemma RegisteredSnoc(inventory: seq<DeferredTrace>, item: DeferredTrace)
    ensures forall ns :: Registered(inventory + [item], ns) <==> Registered(inventory, ns) || ns == item.namespace
  {
    var all := inventory + [item];
    forall ns ensures Registered(all, ns) <==> Registered(inventory, ns) || ns == item.namespace {
      if Registered(all, ns) && ns != item.namespace {
        var i :| 0 <= i < |all| && all[i].namespace == ns;
        assert inventory[i].namespace == ns;
      }
      if Registered(inventory, ns) {
        var i :| 0 <= i < |inventory| && inventory[i].namespace == ns;
        assert all[i].namespace == ns;
      }
      if ns == item.namespace {
        assert all[|inventory|].namespace == ns;
      }
    }
  }

  // ---------------------------------------------------------------------------
  // The configuration object

  class Membrane {
    var packageName: string
    var destination: string
    var library: string
    var namespaces: seq<string>
    var fnRegistry: map<string, seq<Function>>
    var generated: bool

    /**
      `Membrane::new`: walks the inventory, records each function's namespace and
      appends the function to its namespace's list; then sorts and deduplicates the
      namespace list.
     */
    constructor (inventory: seq<DeferredTrace>)
      ensures StrictlySorted(namespaces)
      ensures forall ns :: ns in namespaces <==> Registered(inventory, ns)
      ensures forall ns :: ns in fnRegistry <==> Registered(inventory, ns)
      ensures forall ns :: ns in fnRegistry ==> fnRegistry[ns] == FunctionsOf(inventory, ns)
      ensures packageName == "" && destination == "./membrane_output" && library == "libmembrane"
      ensures !generated
    {
      var names, registry := Group(inventory);
      var sorted := Sort(names);
      forall ns ensures ns in sorted <==> ns in names {
        assert ns in sorted <==> ns in multiset(sorted);
        assert ns in names <==> ns in multiset(names);
      }
      var unique := Dedup(sorted);
      namespaces := unique;
      fnRegistry := registry;
      packageName := "";
      destination := "./membrane_output";
      library := "libmembrane";
      generated := false;
    }

    /**
      `package_destination_dir` as written: only the empty path is refused, and nothing
      changes then; any other path becomes the destination with its trailing `/`
      removed, which for `/` leaves the empty string.
     */
    method PackageDestinationDir(path: string) returns (r: Result<(), string>)
      modifies this
      ensures r.Err? <==> path == ""
      ensures r.Ok? ==> destination == DestinationAsWritten(path).value
      ensures r.Ok? ==> StartsWith(path, destination) && (destination == "" || destination[|destination| - 1] != '/')
      ensures r.Err? ==> destination == old(destination)
      ensures packageName == old(packageName) && library == old(library) && generated == old(generated)
      ensures namespaces == old(namespaces) && fnRegistry == old(fnRegistry)
    {
      match DestinationAsWritten(path)
      case None =>
        r := Err("package_destination_dir() cannot be called with an empty path");
      case Some(trimmed) =>
        destination := trimmed;
        r := Ok(());
    }

    /** `package_name`: sets the package name and nothing else. */
    method PackageName(name: string)
      modifies this
      ensures packageName == name
      ensures destination == old(destination) && library == old(library) && generated == old(generated)
      ensures namespaces == old(namespaces) && fnRegistry == old(fnRegistry)
    {
      packageName := name;
    }

    /** `using_lib`: sets the library name and nothing else. */
    method UsingLib(name: string)
      modifies this
      ensures library == name
      ensures destination == old(destination) && packageName == old(packageName) && generated == old(generated)
      ensures namespaces == old(namespaces) && fnRegistry == old(fnRegistry)
    {
      library := name;
    }

    /**
      `write_bindings`: does nothing unless the package was generated; otherwise it writes
      the ffigen configuration and runs ffigen, which is I/O outside this model. The
      result says whether ffigen runs.
     */
    method WriteBindings() returns (runsFfigen: bool)
      ensures runsFfigen <==> generated
    {
      if !generated {
        return false;
      }
      runsFfigen := true;
    }

    /** `write_pubspec`'s name choice for this configuration. */
    function PackageNameChoice(): (r: string)
      reads this
      ensures packageName != "" ==> r == packageName
      ensures packageName == "" ==> EndsWith(destination, r) && !Contains(r, "/")
      ensures packageName == "" ==> r == destination || EndsWith(destination, "/" + r)
    {
      PubspecName(packageName, destination)
    }
  }

  // ---------------------------------------------------------------------------
  // The older per-function writer

  /** `Function::signature` of this revision: `Stream<T>` or `Future<T>`, ` async` only for futures. */
  function LegacySignature(f: Function): (r: string)
    ensures StartsWith(r, (if f.isStream then "  Stream<" else "  Future<") + TypeText(f.returnType) + "> " + f.fnName + "(")
    ensures EndsWith(r, " async") <==> !f.isStream
    ensures f.isStream ==> EndsWith(r, ")")
    ensures f.dartOuterParams != "" ==> Contains(r, "({" + f.dartOuterParams + "})")
  {
    var open := if f.isStream then "  Stream<" else "  Future<";
    var name := TypeText(f.returnType) + "> " + f.fnName;
    var params := "(" + (if f.dartOuterParams == "" then "" else "{" + f.dartOuterParams + "}") + ")";
    var suffix := if f.isStream then "" else " async";
    LegacySignatureShape(open, name, params, suffix);
    LegacyHead(open, TypeText(f.returnType), f.fnName);
    assert f.dartOuterParams != "" ==> params == "({" + f.dartOuterParams + "})";
    open + name + params + suffix
  }

  lemma LegacyHead(open: string, ty: string, name: string)
    ensures open + (ty + "> " + name) + "(" == open + ty + "> " + name + "("
  {
  }

  lemma LegacySignatureShape(open: string, name: string, params: string, suffix: string)
    requires |params| > 0 && params[0] == '(' && params[|params| - 1] == ')'
    requires suffix == "" || suffix == " async"
    ensures StartsWith(open + name + params + suffix, open + name + "(")
    ensures EndsWith(open + name + params + suffix, " async") <==> suffix == " async"
    ensures suffix == "" ==> EndsWith(open + name + params + suffix, ")")
    ensures Contains(open + name + params + suffix, params)
  {
    var r := open + name + params + suffix;
    assert r[..|open + name + "("|] == open + name + "(";
    ContainsMiddle(open + name, params, suffix);
    if suffix == "" {
      assert r[|r| - 1] == ')';
      assert r[|r| - 1..] == ")";
      assert !EndsWith(r, " async");
    } else {
      EndsWithConcat(open + name + params, suffix);
    }
  }

  /** `Function::c_signature` of this revision: the port parameter is always there. */
  function LegacyCSignature(f: Function): (r: string)
    ensures StartsWith(r, "int32_t " + f.externCFnName + "(int64_t port")
    ensures f.externCFnTypes == "" ==> r == "int32_t " + f.externCFnName + "(int64_t port);"
    ensures f.externCFnTypes != "" ==> EndsWith(r, ", " + f.externCFnTypes + ");")
  {
    var head := "int32_t " + f.externCFnName + "(int64_t port";
    var r := head + (if f.externCFnTypes == "" then "" else ", " + f.externCFnTypes) + ");";
    assert r[..|head|] == head;
    assert f.externCFnTypes != "" ==> r[|r| - |", " + f.externCFnTypes + ");"|..] == ", " + f.externCFnTypes + ");";
    r
  }

  /** The older writer: the record's text buffer, filled in step by step. */
  class LegacyFunction {
    const fun: Function
    var output: string

    constructor (fun: Function)
      ensures this.fun == fun && output == ""
    {
      this.fun := fun;
      output := "";
    }

    /** `begin`: starts the buffer over with a newline. */
    method Begin()
      modifies this
      ensures output == "\n"
    {
      output := "\n";
    }

    method Signature()
      modifies this
      ensures output == old(output) + LegacySignature(fun)
    {
      output := output + LegacySignature(fun);
    }

    method CSignature()
      modifies this
      ensures output == old(output) + LegacyCSignature(fun)
    {
      output := output + LegacyCSignature(fun);
    }

    method End()
      modifies this
      ensures output == old(output) + "\n  }\n"
    {
      output := output + "\n  }\n";
    }
  }
}
