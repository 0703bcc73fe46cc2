/**
  The per-function writers of membrane/src/generators/functions.rs: the Dart
  signature, the deserializer chosen for a type path, the FFI call and return
  blocks, the Web stub and the C prototype.

  The fixed Dart text around the FFI call and return blocks is not reproduced: a
  block is kept as the record of the choices the writer makes in it (which call
  arguments, which timeout, which deserializers, which cleanup call).
 */
module Generators {
  import opened Wrappers
  import opened Strings
  import opened Registry
  import opened MembraneLib
  import DartTypes

  /**
    The settings functions.rs reads from the configuration object (this revision of
    membrane/src/lib.rs does not have them yet): whether C-style enums get an
    extension class, the global timeout, and each namespace's enum registry, which is
    missing or unset (`None`) when tracing did not complete.
   */
  datatype Config = Config(cStyleEnums: bool, timeout: Option<int>, enumRegistries: map<string, Option<Registry>>)

  // ---------------------------------------------------------------------------
  // The Dart signature

  /**
    `Function::signature`: a sync function returns its Dart type directly, a stream
    returns `Stream<T>` from an `async*` body, any other function `Future<T>` from an
    `async` body; the parameters are wrapped in braces only when there are some.
   */
  function Signature(f: Function): (r: string)
    ensures f.isSync ==> StartsWith(r, "  " + DartTypes.DartType(TypeText(f.returnType)) + " " + f.fnName + "(") && EndsWith(r, ")")
    ensures !f.isSync ==> StartsWith(r, (if f.isStream then "  Stream<" else "  Future<") + DartTypes.DartType(TypeText(f.returnType)) + "> " + f.fnName + "(")
    ensures EndsWith(r, " async*") <==> !f.isSync && f.isStream
    ensures EndsWith(r, " async") <==> !f.isSync && !f.isStream
    ensures f.dartOuterParams != "" ==> Contains(r, "({" + f.dartOuterParams + "})")
    ensures f.dartOuterParams == "" ==> Contains(r, " " + f.fnName + "()")
  {
    SignatureWith(f, DartTypes.DartType(TypeText(f.returnType)))
  }

  /** The signature around an already computed Dart return type. */
  function SignatureWith(f: Function, dart: string): (r: string)
    ensures f.isSync ==> StartsWith(r, "  " + dart + " " + f.fnName + "(") && EndsWith(r, ")")
    ensures !f.isSync ==> StartsWith(r, (if f.isStream then "  Stream<" else "  Future<") + dart + "> " + f.fnName + "(")
    ensures EndsWith(r, " async*") <==> !f.isSync && f.isStream
    ensures EndsWith(r, " async") <==> !f.isSync && !f.isStream
    ensures f.dartOuterParams != "" ==> Contains(r, "({" + f.dartOuterParams + "})")
    ensures f.dartOuterParams == "" ==> Contains(r, " " + f.fnName + "()")
  {
    var open := if f.isSync then "  " + dart else if f.isStream then "  Stream<" else "  Future<";
    var typed := if f.isSync then "" else dart + ">";
    var inner := if f.dartOuterParams == "" then "" else "{" + f.dartOuterParams + "}";
    var suffix := if f.isSync then "" else if f.isStream then " async*" else " async";
    SignatureShape(open, typed, f.fnName, inner, suffix);
    assert f.dartOuterParams != "" ==> "(" + inner + ")" == "({" + f.dartOuterParams + "})";
    AsyncHead(open, dart, f.fnName);
    open + typed + " " + f.fnName + "(" + inner + ")" + suffix
  }

  lemma AsyncHead(open: string, dart: string, name: string)
    ensures open + (dart + ">") + " " + name + "(" == open + dart + "> " + name + "("
  {
    assert ">" + " " == "> ";
    assert (dart + ">") + " " == dart + "> ";
  }

  /** The facts about a signature's pieces that hold whatever the pieces are. */
  lemma SignatureShape(open: string, typed: string, name: string, inner: string, suffix: string)
    requires suffix == "" || suffix == " async" || suffix == " async*"
    ensures StartsWith(open + typed + " " + name + "(" + inner + ")" + suffix, open)
    ensures StartsWith(open + typed + " " + name + "(" + inner + ")" + suffix, open + typed + " " + name + "(")
    ensures typed == "" ==> StartsWith(open + typed + " " + name + "(" + inner + ")" + suffix, open + " " + name + "(")
    ensures EndsWith(open + typed + " " + name + "(" + inner + ")" + suffix, " async*") <==> suffix == " async*"
    ensures EndsWith(open + typed + " " + name + "(" + inner + ")" + suffix, " async") <==> suffix == " async"
    ensures suffix == "" ==> EndsWith(open + typed + " " + name + "(" + inner + ")" + suffix, ")")
    ensures Contains(open + typed + " " + name + "(" + inner + ")" + suffix, "(" + inner + ")")
    ensures inner == "" ==> Contains(open + typed + " " + name + "(" + inner + ")" + suffix, " " + name + "()")
  {
    SignaturePrefix(open, typed, name, inner, suffix);
    SignatureSuffix(open + typed + " " + name + "(" + inner + ")", suffix);
    var lead := open + typed + " " + name;
    ConcatAssoc(lead, "(", inner, ")");
    ContainsMiddle(lead, "(" + inner + ")", suffix);
    if inner == "" {
      assert lead + "(" + inner + ")" == lead + "()";
      ConcatAssoc(open + typed, " ", name, "()");
      ContainsMiddle(open + typed, " " + name + "()", suffix);
    }
  }

  lemma SignaturePrefix(open: string, typed: string, name: string, inner: string, suffix: string)
    ensures StartsWith(open + typed + " " + name + "(" + inner + ")" + suffix, open)
    ensures StartsWith(open + typed + " " + name + "(" + inner + ")" + suffix, open + typed + " " + name + "(")
    ensures typed == "" ==> StartsWith(open + typed + " " + name + "(" + inner + ")" + suffix, open + " " + name + "(")
  {
    StartsWithConcat(open, typed);
    StartsWithExtend(open + typed, open, " ");
    StartsWithExtend(open + typed + " ", open, name);
    StartsWithExtend(open + typed + " " + name, open, "(");
    StartsWithExtend(open + typed + " " + name + "(", open, inner);
    StartsWithExtend(open + typed + " " + name + "(" + inner, open, ")");
    StartsWithExtend(open + typed + " " + name + "(" + inner + ")", open, suffix);
    var head := open + typed + " " + name + "(";
    assert StartsWith(head, head);
    StartsWithExtend(head, head, inner);
    StartsWithExtend(head + inner, head, ")");
    StartsWithExtend(head + inner + ")", head, suffix);
    if typed == "" {
      assert head == open + " " + name + "(";
    }
  }

  /** Which of the three endings a signature has follows from its last characters. */
  lemma SignatureSuffix(call: string, suffix: string)
    requires |call| > 0 && call[|call| - 1] == ')'
    requires suffix == "" || suffix == " async" || suffix == " async*"
    ensures EndsWith(call + suffix, " async*") <==> suffix == " async*"
    ensures EndsWith(call + suffix, " async") <==> suffix == " async"
    ensures suffix == "" ==> EndsWith(call + suffix, ")")
  {
    var r := call + suffix;
    if suffix == "" {
      assert r == call;
      assert r[|r| - 1..] == ")";
    } else {
      EndsWithConcat(call, suffix);
    }
    assert EndsWith(r, " async*") ==> r[|r| - 1] == '*';
    assert EndsWith(r, " async") ==> r[|r| - 1] == 'c';
    assert suffix == " async" ==> r[|r| - 1] == 'c';
    assert suffix == " async*" ==> r[|r| - 1] == '*';
  }

  // ---------------------------------------------------------------------------
  // Deserializers

  /** `deserializer`'s fixed calls for single-segment primitive paths and `()`. */
  function PrimitiveCall(name: string): Option<string>
  {
    if name == "String" then Some("deserializer.deserializeString()")
    else if name == "i8" then Some("deserializer.deserializeInt8()")
    else if name == "u8" then Some("deserializer.deserializeUint8()")
    else if name == "i16" then Some("deserializer.deserializeInt16()")
    else if name == "u16" then Some("deserializer.deserializeUint16()")
    else if name == "i32" then Some("deserializer.deserializeInt32()")
    else if name == "u32" then Some("deserializer.deserializeUint32()")
    else if name == "i64" then Some("deserializer.deserializeInt64()")
    else if name == "f32" then Some("deserializer.deserializeFloat32()")
    else if name == "f64" then Some("deserializer.deserializeFloat64()")
    else if name == "bool" then Some("deserializer.deserializeBool()")
    else if name == "()" then Some("null")
    else None
  }

  /**
    The Dart expression `deserializer` writes, kept as its structure: a primitive call,
    a list whose items carry an option tag, a list, an optional value, or a named type
    decoded by `T.deserialize` or, for a C-style enum, by `TExtension.deserialize`.
   */
  datatype Decoder =
    | Scalar(name: string)
    | ListOfOptional(item: Decoder)
    | ListOf(item: Decoder)
    | Optional(inner: Decoder)
    | NamedType(typeName: string, extension: bool)

  /** The path segments a decoder accounts for, outermost first. */
  function PathOf(d: Decoder): seq<string>
  {
    match d
    case Scalar(name) => [name]
    case ListOfOptional(item) => ["Vec", "Option"] + PathOf(item)
    case ListOf(item) => ["Vec"] + PathOf(item)
    case Optional(inner) => ["Option"] + PathOf(inner)
    case NamedType(typeName, _) => [typeName]
  }

  /** The innermost decoder. */
  function LeafOf(d: Decoder): (leaf: Decoder)
    ensures leaf.Scalar? || leaf.NamedType?
  {
    match d
    case ListOfOptional(item) => LeafOf(item)
    case ListOf(item) => LeafOf(item)
    case Optional(inner) => LeafOf(inner)
    case _ => d
  }

  predicate IsWrapper(segment: string)
  {
    segment == "Vec" || segment == "Option"
  }

  /**
    `Function::deserializer` over a type path, in the order of its match arms. `None`
    stands for the `unreachable!()` panic on an exhausted path.
   */
  function Deserializer(ty: seq<string>, reg: Registry, cStyleEnums: bool): (r: Option<Decoder>)
    ensures ty == [] ==> r.None?
    ensures |ty| == 1 && PrimitiveCall(ty[0]).Some? ==> r == Some(Scalar(ty[0]))
    ensures |ty| >= 2 && ty[0] == "Vec" && ty[1] == "Option" && r.Some? ==> r.value.ListOfOptional?
    decreases |ty|
  {
    if |ty| == 1 && PrimitiveCall(ty[0]).Some? then Some(Scalar(ty[0]))
    else if |ty| >= 2 && ty[0] == "Vec" && ty[1] == "Option" then
      match Deserializer(ty[2..], reg, cStyleEnums)
      case None => None
      case Some(item) => Some(ListOfOptional(item))
    else if |ty| >= 1 && ty[0] == "Vec" then
      match Deserializer(ty[1..], reg, cStyleEnums)
      case None => None
      case Some(item) => Some(ListOf(item))
    else if |ty| >= 1 && ty[0] == "Option" then
      match Deserializer(ty[1..], reg, cStyleEnums)
      case None => None
      case Some(inner) => Some(Optional(inner))
    else if |ty| >= 1 then Some(NamedType(ty[0], cStyleEnums && IsCStyleEnum(reg, ty[0])))
    else None
  }

  /**
    The decoder follows the path: its wrappers and leaf are the path's leading
    segments.
   */
  lemma {:induction false} DeserializerFollowsPath(ty: seq<string>, reg: Registry, cStyleEnums: bool)
    requires Deserializer(ty, reg, cStyleEnums).Some?
    ensures |PathOf(Deserializer(ty, reg, cStyleEnums).value)| <= |ty|
    ensures PathOf(Deserializer(ty, reg, cStyleEnums).value) == ty[..|PathOf(Deserializer(ty, reg, cStyleEnums).value)|]
    decreases |ty|
  {
    var d := Deserializer(ty, reg, cStyleEnums).value;
    if |ty| == 1 && PrimitiveCall(ty[0]).Some? {
      assert ty[..1] == ty;
    } else if |ty| >= 2 && ty[0] == "Vec" && ty[1] == "Option" {
      DeserializerFollowsPath(ty[2..], reg, cStyleEnums);
      PrefixStep(["Vec", "Option"], ty, PathOf(d.item));
    } else if |ty| >= 1 && ty[0] == "Vec" {
      DeserializerFollowsPath(ty[1..], reg, cStyleEnums);
      PrefixStep(["Vec"], ty, PathOf(d.item));
    } else if |ty| >= 1 && ty[0] == "Option" {
      DeserializerFollowsPath(ty[1..], reg, cStyleEnums);
      PrefixStep(["Option"], ty, PathOf(d.inner));
    } else {
      assert ty[..1] == [ty[0]];
    }
  }

  lemma PrefixStep(w: seq<string>, ty: seq<string>, p: seq<string>)
    requires |w| + |p| <= |ty| && ty[..|w|] == w && ty[|w|..][..|p|] == p
    ensures w + p == ty[..|w + p|]
  {
    assert ty[..|w + p|] == ty[..|w|] + ty[|w|..][..|p|];
  }

  /** Only a named type leaves segments (its generic arguments) unread: a primitive leaf ends the path. */
  lemma {:induction false} DeserializerScalarLeaf(ty: seq<string>, reg: Registry, cStyleEnums: bool)
    requires Deserializer(ty, reg, cStyleEnums).Some?
    requires LeafOf(Deserializer(ty, reg, cStyleEnums).value).Scalar?
    ensures PathOf(Deserializer(ty, reg, cStyleEnums).value) == ty
    decreases |ty|
  {
    var d := Deserializer(ty, reg, cStyleEnums).value;
    if |ty| == 1 && PrimitiveCall(ty[0]).Some? {
    } else if |ty| >= 2 && ty[0] == "Vec" && ty[1] == "Option" {
      var item := Deserializer(ty[2..], reg, cStyleEnums).value;
      assert d == ListOfOptional(item) && LeafOf(d) == LeafOf(item);
      DeserializerScalarLeaf(ty[2..], reg, cStyleEnums);
      assert ty == ["Vec", "Option"] + ty[2..];
    } else if |ty| >= 1 && ty[0] == "Vec" {
      var item := Deserializer(ty[1..], reg, cStyleEnums).value;
      assert d == ListOf(item) && LeafOf(d) == LeafOf(item);
      DeserializerScalarLeaf(ty[1..], reg, cStyleEnums);
      assert ty == ["Vec"] + ty[1..];
    } else if |ty| >= 1 && ty[0] == "Option" {
      var inner := Deserializer(ty[1..], reg, cStyleEnums).value;
      assert d == Optional(inner) && LeafOf(d) == LeafOf(inner);
      DeserializerScalarLeaf(ty[1..], reg, cStyleEnums);
      assert ty == ["Option"] + ty[1..];
    }
  }

  /**
    A named leaf is decoded through the extension class exactly when C-style enums are
    on and the registry records the type as an enum of unit variants.
   */
  lemma {:induction false} DeserializerExtension(ty: seq<string>, reg: Registry, cStyleEnums: bool)
    requires Deserializer(ty, reg, cStyleEnums).Some?
    requires LeafOf(Deserializer(ty, reg, cStyleEnums).value).NamedType?
    ensures LeafOf(Deserializer(ty, reg, cStyleEnums).value).extension <==>
      cStyleEnums && IsCStyleEnum(reg, LeafOf(Deserializer(ty, reg, cStyleEnums).value).typeName)
    decreases |ty|
  {
    if |ty| == 1 && PrimitiveCall(ty[0]).Some? {
    } else if |ty| >= 2 && ty[0] == "Vec" && ty[1] == "Option" {
      DeserializerExtension(ty[2..], reg, cStyleEnums);
    } else if |ty| >= 1 && (ty[0] == "Vec" || ty[0] == "Option") {
      DeserializerExtension(ty[1..], reg, cStyleEnums);
    }
  }

  /**
    A path has a deserializer exactly when some segment is not a `Vec` or `Option`
    wrapper: the recursion strips wrappers until it reaches one.
   */
  lemma {:induction false} DeserializerDefined(ty: seq<string>, reg: Registry, cStyleEnums: bool)
    ensures Deserializer(ty, reg, cStyleEnums).Some? <==> exists k :: 0 <= k < |ty| && !IsWrapper(ty[k])
    decreases |ty|
  {
    if ty != [] && IsWrapper(ty[0]) {
      var n := if |ty| >= 2 && ty[0] == "Vec" && ty[1] == "Option" then 2 else 1;
      DeserializerDefined(ty[n..], reg, cStyleEnums);
      if exists k :: 0 <= k < |ty| && !IsWrapper(ty[k]) {
        var k :| 0 <= k < |ty| && !IsWrapper(ty[k]);
        assert k >= n;
        assert !IsWrapper(ty[n..][k - n]);
      }
      if exists k :: 0 <= k < |ty[n..]| && !IsWrapper(ty[n..][k]) {
        var k :| 0 <= k < |ty[n..]| && !IsWrapper(ty[n..][k]);
        assert !IsWrapper(ty[k + n]);
      }
    } else if ty != [] {
      assert !IsWrapper(ty[0]);
    }
  }

  /** `Vec` then `Option` is read as a list of optional items, never as a list of options. */
  lemma VecOptionPrecedence(t: seq<string>, reg: Registry, cStyleEnums: bool)
    requires Deserializer(t, reg, cStyleEnums).Some?
    ensures Deserializer(["Vec", "Option"] + t, reg, cStyleEnums) == Some(ListOfOptional(Deserializer(t, reg, cStyleEnums).value))
    ensures Deserializer(["Vec", "Option"] + t, reg, cStyleEnums) != Some(ListOf(Optional(Deserializer(t, reg, cStyleEnums).value)))
  {
    assert (["Vec", "Option"] + t)[2..] == t;
  }

  /** Registered C-style enums get the extension decoder only when C-style enums are on. */
  lemma ExtensionExample(reg: Registry)
    requires IsCStyleEnum(reg, "Status")
    ensures Deserializer(["Status"], reg, true) == Some(NamedType("Status", true))
    ensures Deserializer(["Status"], reg, false) == Some(NamedType("Status", false))
    ensures Deserializer(["Vec", "Status"], reg, true) == Some(ListOf(NamedType("Status", true)))
  {
    assert PrimitiveCall("Status").None?;
    assert ["Vec", "Status"][1..] == ["Status"];
  }

  // ---------------------------------------------------------------------------
  // Timeouts

  /**
    The timeout an async body installs: the function's own, else (for a future) the
    global one; a stream never falls back to the global timeout.
   */
  function TimeoutChoice(f: Function, global: Option<int>): (r: Option<int>)
    ensures r.Some? ==> r == f.timeout || (r == global && f.timeout.None? && !f.isStream)
    ensures r.None? <==> f.timeout.None? && (f.isStream || global.None?)
  {
    if f.timeout.Some? then f.timeout
    else if f.isStream then None
    else global
  }

  /** A stream's timeout does not depend on the global setting. */
  lemma StreamsIgnoreGlobalTimeout(f: Function, g1: Option<int>, g2: Option<int>)
    requires f.isStream
    ensures TimeoutChoice(f, g1) == TimeoutChoice(f, g2) == f.timeout
  {
  }

  /** A per-function timeout always wins over the global one. */
  lemma FunctionTimeoutWins(f: Function, global: Option<int>)
    requires f.timeout.Some?
    ensures TimeoutChoice(f, global) == f.timeout
  {
  }

  /** The text of a chosen timeout. */
  function TimeoutText(t: Option<int>): (r: string)
    ensures t.None? <==> r == ""
  {
    match t
    case None => ""
    case Some(ms) => ".timeout(const Duration(milliseconds: " + IntToString(ms) + "))"
  }

  // ---------------------------------------------------------------------------
  // The FFI call

  /** The port argument an async call passes first. */
  function PortArgument(f: Function): seq<string>
  {
    if f.isSync then [] else ["_port.sendPort.nativePort"]
  }

  /** The port parameter an async C prototype declares first. */
  function PortParameter(f: Function): seq<string>
  {
    if f.isSync then [] else ["int64_t port"]
  }

  /**
    The port (for an async function) followed by a comma-separated list, with `, `
    between them only when both are present: the shape of both the Dart call's
    arguments and the C prototype's parameters.
   */
  function WithPort(port: string, sync: bool, list: string): string
  {
    (if sync then "" else port) + (if list == "" then "" else if sync then list else ", " + list)
  }

  /** `native_port` followed by `dart_inner_args`. */
  function CallArguments(f: Function): (r: string)
    ensures f.isSync ==> r == f.dartInnerArgs
    ensures !f.isSync ==> StartsWith(r, "_port.sendPort.nativePort")
  {
    StartsWithConcat("_port.sendPort.nativePort", if f.dartInnerArgs == "" then "" else ", " + f.dartInnerArgs);
    WithPort("_port.sendPort.nativePort", f.isSync, f.dartInnerArgs)
  }

  /** `port` followed by `extern_c_fn_types`. */
  function CParameters(f: Function): (r: string)
    ensures f.isSync ==> r == f.externCFnTypes
    ensures !f.isSync ==> StartsWith(r, "int64_t port")
  {
    StartsWithConcat("int64_t port", if f.externCFnTypes == "" then "" else ", " + f.externCFnTypes);
    WithPort("int64_t port", f.isSync, f.externCFnTypes)
  }

  lemma JoinNonEmpty(parts: seq<string>, sep: string)
    requires parts != [] && parts[0] != ""
    ensures Join(parts, sep) != ""
  {
    if |parts| > 1 {
      assert Join(parts, sep) == parts[0] + sep + Join(parts[1..], sep);
    }
  }

  /** Prefixing a joined list with the port is joining the list with the port in front. */
  lemma WithPortJoin(port: string, sync: bool, parts: seq<string>)
    requires parts != [] ==> parts[0] != ""
    ensures WithPort(port, sync, Join(parts, ", ")) == Join((if sync then [] else [port]) + parts, ", ")
  {
    var lead: seq<string> := if sync then [] else [port];
    if parts != [] {
      JoinNonEmpty(parts, ", ");
    }
    if !sync && parts != [] {
      JoinCons(port, parts, ", ");
      assert lead + parts == [port] + parts;
    } else if !sync {
      assert lead + parts == [port];
    } else {
      assert lead + parts == parts;
    }
  }

  /**
    When the Dart arguments and the C parameter types are joined from lists of equal
    length, the call passes one argument per parameter of the prototype, the port first
    exactly when the function is async.
   */
  lemma CallMatchesPrototype(f: Function, args: seq<string>, types: seq<string>)
    requires f.dartInnerArgs == Join(args, ", ") && f.externCFnTypes == Join(types, ", ")
    requires |args| == |types|
    requires forall i :: 0 <= i < |args| ==> args[i] != "" && types[i] != ""
    ensures CallArguments(f) == Join(PortArgument(f) + args, ", ")
    ensures CParameters(f) == Join(PortParameter(f) + types, ", ")
    ensures |PortArgument(f) + args| == |PortParameter(f) + types|
  {
    WithPortJoin("_port.sendPort.nativePort", f.isSync, args);
    WithPortJoin("int64_t port", f.isSync, types);
  }

  /**
    The choices the FFI body makes: whether it disables logging, the transform
    statements it inserts, whether it opens a receive port, and the extern call it makes.
   */
  datatype FfiCall = FfiCall(
    loggingDisabled: bool,
    transforms: string,
    receivePort: bool,
    fnName: string,
    externName: string,
    arguments: string)

  /** `Ffi::body`. */
  function FfiBody(f: Function): (r: FfiCall)
    ensures r.receivePort <==> !f.isSync
    ensures r.transforms == "" <==> f.dartTransforms == ""
    ensures f.dartTransforms != "" ==> StartsWith(r.transforms, "\n    ") && EndsWith(r.transforms, f.dartTransforms + ";")
    ensures r.arguments == CallArguments(f) && r.externName == f.externCFnName
    ensures r.loggingDisabled == f.disableLogging && r.fnName == f.fnName
  {
    var transforms := if f.dartTransforms == "" then "" else "\n    " + f.dartTransforms + ";";
    StartsWithConcat("\n    ", f.dartTransforms + ";");
    EndsWithConcat("\n    ", f.dartTransforms + ";");
    assert f.dartTransforms != "" ==> transforms == "\n    " + (f.dartTransforms + ";");
    FfiCall(f.disableLogging, transforms, !f.isSync, f.fnName, f.externCFnName, CallArguments(f))
  }

  // ---------------------------------------------------------------------------
  // The FFI return

  /** The call the `finally` block makes to release the response. */
  datatype Cleanup = FreeResultBuffer | CancelTask

  /** The kind of a `MembraneResponse`. */
  datatype ResponseKind = DataKind | PanicKind | OtherKind

  /** The choices of `Ffi::body_return`: how the result is awaited, with which timeout and decoders. */
  datatype ReturnBlock =
    | SyncReturn(returnDecoder: Decoder, errorDecoder: Decoder)
    | StreamReturn(timeout: Option<int>, returnDecoder: Decoder, errorDecoder: Decoder)
    | FutureReturn(timeout: Option<int>, returnDecoder: Decoder, errorDecoder: Decoder)

  function CleanupOf(b: ReturnBlock): Cleanup
  {
    if b.SyncReturn? then FreeResultBuffer else CancelTask
  }

  /**
    The cleanup calls the generated `finally` block makes for a response of the given
    kind: the free (sync) or cancel (async) call runs only for a data response.
   */
  function CleanupCalls(b: ReturnBlock, kind: ResponseKind): (calls: seq<Cleanup>)
    ensures |calls| <= 1
    ensures calls != [] <==> kind == DataKind
    ensures calls != [] ==> (calls[0] == FreeResultBuffer <==> b.SyncReturn?)
  {
    if kind == DataKind then [CleanupOf(b)] else []
  }

  /**
    `Ffi::body_return`: a sync function reads the result buffer directly, a stream maps
    the port's messages, a future awaits the first one. `None` is the panic of a
    deserializer on an exhausted path.
   */
  function BodyReturn(f: Function, reg: Registry, config: Config): (r: Option<ReturnBlock>)
    ensures r.Some? <==>
      Deserializer(f.returnType, reg, config.cStyleEnums).Some? && Deserializer(f.errorType, reg, config.cStyleEnums).Some?
    ensures r.Some? ==> (r.value.SyncReturn? <==> f.isSync) && (r.value.StreamReturn? <==> !f.isSync && f.isStream)
    ensures r.Some? && !f.isSync ==> r.value.timeout == TimeoutChoice(f, config.timeout)
    ensures r.Some? ==> r.value.returnDecoder == Deserializer(f.returnType, reg, config.cStyleEnums).value
    ensures r.Some? ==> r.value.errorDecoder == Deserializer(f.errorType, reg, config.cStyleEnums).value
  {
    match (Deserializer(f.returnType, reg, config.cStyleEnums), Deserializer(f.errorType, reg, config.cStyleEnums))
    case (Some(ok), Some(err)) =>
      if f.isSync then Some(SyncReturn(ok, err))
      else if f.isStream then Some(StreamReturn(f.timeout, ok, err))
      else Some(FutureReturn(TimeoutChoice(f, config.timeout), ok, err))
    case _ => None
  }

  // ---------------------------------------------------------------------------
  // The three writers

  /** One piece of the FFI writer's output. */
  datatype Fragment = Text(text: string) | Call(call: FfiCall) | Return(block: ReturnBlock)

  const Begin: string := "\n"
  const End: string := "\n  }\n"

  /** The FFI writer of one function. */
  class Ffi {
    const fun: Function
    var output: seq<Fragment>

    constructor (fun: Function)
      ensures this.fun == fun && output == []
    {
      this.fun := fun;
      output := [];
    }

    /**
      `Ffi::build`: looks up the namespace's enum registry (a panic when it is missing or
      unset), then appends the begin, signature, body, return and end pieces. `Err`
      stands for a panic, after which the output no longer matters.
     */
    method Build(config: Config) returns (r: Result<seq<Fragment>, string>)
      modifies this
      ensures r.Ok? <==>
        fun.namespace in config.enumRegistries && config.enumRegistries[fun.namespace].Some?
        && BodyReturn(fun, config.enumRegistries[fun.namespace].value, config).Some?
      ensures r.Ok? ==> r.value == output == old(output) + [Text(Begin), Text(Signature(fun)), Call(FfiBody(fun)),
        Return(BodyReturn(fun, config.enumRegistries[fun.namespace].value, config).value), Text(End)]
    {
      if fun.namespace !in config.enumRegistries || config.enumRegistries[fun.namespace].None? {
        return Err("called `Option::unwrap()` on a `None` value");
      }
      var reg := config.enumRegistries[fun.namespace].value;
      var signature, body := Signature(fun), FfiBody(fun);
      ghost var before := output;
      output := output + [Text(Begin), Text(signature), Call(body)];
      var block := BodyReturn(fun, reg, config);
      if block.None? {
        return Err("Expected type information to exist");
      }
      output := output + [Return(block.value), Text(End)];
      assert output == before + [Text(Begin), Text(signature), Call(body), Return(block.value), Text(End)];
      r := Ok(output);
    }
  }

  /** `Web::body`: the same stub for every function. */
  const WebBody: string := "{\n      throw UnimplementedError();"

  /** What `Web::build` writes for a function. */
  function WebText(f: Function): string
  {
    Begin + Signature(f) + WebBody + End
  }

  /** The Web stub depends on nothing but the signature. */
  lemma WebIgnoresBody(f: Function, g: Function)
    requires Signature(f) == Signature(g)
    ensures WebText(f) == WebText(g)
  {
  }

  lemma AppendFour(s: string, a: string, b: string, c: string, d: string)
    ensures s + a + b + c + d == s + (a + b + c + d)
  {
  }

  /** The Web writer of one function. */
  class Web {
    const fun: Function
    var output: string

    constructor (fun: Function)
      ensures this.fun == fun && output == ""
    {
      this.fun := fun;
      output := "";
    }

    /** `Web::build`: begin, signature, the stub body and end. */
    method Build() returns (text: string)
      modifies this
      ensures output == old(output) + WebText(fun) && text == output
    {
      ghost var before := output;
      var signature := Signature(fun);
      output := output + Begin;
      output := output + signature;
      output := output + WebBody;
      output := output + End;
      AppendFour(before, Begin, signature, WebBody, End);
      text := output;
    }
  }

  /** `C::signature`: the prototype ffigen reads. */
  function CSignature(f: Function): (r: string)
    ensures StartsWith(r, "MembraneResponse " + f.externCFnName + "(")
    ensures EndsWith(r, CParameters(f) + ");")
  {
    var head := "MembraneResponse " + f.externCFnName + "(";
    StartsWithConcat(head, CParameters(f) + ");");
    EndsWithConcat(head, CParameters(f) + ");");
    assert head + CParameters(f) + ");" == head + (CParameters(f) + ");");
    head + CParameters(f) + ");"
  }

  /**
    The two revisions' prototypes of an async function differ only in the return type:
    the older one returned `int32_t`.
   */
  lemma CSignatureDrift(f: Function)
    requires !f.isSync
    ensures exists rest: string ::
      CSignature(f) == "MembraneResponse " + rest && LegacyCSignature(f) == "int32_t " + rest
  {
    var rest := f.externCFnName + "(" + CParameters(f) + ");";
    assert CSignature(f) == "MembraneResponse " + rest;
    assert LegacyCSignature(f) == "int32_t " + rest;
  }

  /**
    The header line of an async function with parameters, in the form the integration
    test expects for `accounts::contact(user_id: String)`:
    `MembraneResponse membrane_accounts_contact(int64_t port, const char *user_id);`.
   */
  lemma AsyncPrototype(f: Function)
    requires !f.isSync && f.externCFnTypes != ""
    ensures CSignature(f) == "MembraneResponse " + f.externCFnName + "(int64_t port, " + f.externCFnTypes + ");"
  {
    var n := f.externCFnName;
    var t := f.externCFnTypes;
    assert CParameters(f) == "int64_t port" + (", " + t);
    assert "int64_t port" + (", " + t) == "int64_t port, " + t;
    ConcatAssoc("MembraneResponse " + n, "(", "int64_t port, " + t, ");");
    ConcatAssoc("MembraneResponse " + n, "(int64_t port, ", t, ");");
    assert "(" + ("int64_t port, " + t) == "(int64_t port, " + t;
  }

  /** The C writer of one function. */
  class C {
    const fun: Function
    var output: string

    constructor (fun: Function)
      ensures this.fun == fun && output == ""
    {
      this.fun := fun;
      output := "";
    }

    /** `C::build`: begin and the prototype. */
    method Build() returns (text: string)
      modifies this
      ensures output == old(output) + Begin + CSignature(fun) && text == output
    {
      output := output + Begin;
      output := output + CSignature(fun);
      text := output;
    }
  }

  /**
    Apart from the Dart type the newer writer maps the return type to, its signature
    agrees with the older writer's for futures, and never for streams: the newer one
    makes a stream's body an `async*` generator.
   */
  lemma SignatureDrift(f: Function)
    requires !f.isSync
    ensures !f.isStream ==> SignatureWith(f, TypeText(f.returnType)) == LegacySignature(f)
    ensures f.isStream ==> SignatureWith(f, TypeText(f.returnType)) != LegacySignature(f)
  {
    var t := TypeText(f.returnType);
    var inner := if f.dartOuterParams == "" then "" else "{" + f.dartOuterParams + "}";
    if f.isStream {
      var r := SignatureWith(f, t);
      var l := LegacySignature(f);
      assert r[|r| - 7..] == " async*";
      assert r[|r| - 1] == '*';
      assert l[|l| - 1..] == ")";
      assert l[|l| - 1] == ')';
    } else {
      SignatureAgree("  Future<", t, f.fnName, inner, " async");
    }
  }

  lemma SignatureAgree(open: string, t: string, name: string, inner: string, suffix: string)
    ensures open + (t + ">") + " " + name + "(" + inner + ")" + suffix
         == open + (t + "> " + name) + ("(" + inner + ")") + suffix
  {
    var x := open + (t + ">") + " " + name + "(" + inner + ")" + suffix;
    var y := open + (t + "> " + name) + ("(" + inner + ")") + suffix;
    assert |x| == |y|;
    forall i | 0 <= i < |x| ensures x[i] == y[i] {
      assert x == open + t + "> " + name + "(" + inner + ")" + suffix;
      assert y == open + t + "> " + name + "(" + inner + ")" + suffix;
    }
  }
}
