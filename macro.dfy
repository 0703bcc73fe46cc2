/**
  The `#[async_dart]` / `#[sync_dart]` attribute macro (membrane_macro/src/lib.rs):
  reading the function header, choosing how the generated C entry point runs the
  function, and the record it submits for the generator.
 */
module Macro {
  import opened Wrappers
  import opened Strings
  import opened Syn
  import opened MembraneTypes
  import opened MacroOptions
  import opened MacroParsers
  import CTypes
  import DartTypes
  import RustTypes

  /** What the macro reads from an exported function. */
  datatype ReprDart = ReprDart(
    fnName: string,
    inputs: seq<Input>,
    outputStyle: OutputStyle,
    output: Type,
    error: Type)

  datatype ReprError =
    | Failed(error: ParseError)
    | CallbackReturn   // no `->`: the shape comes from a callback argument, which is not part of this model

  /** `pub`, an optional `async`, `fn` and the function's name, in that order. */
  function ParseHeader(ts: seq<Token>): (r: Result<Parsed<string>, ParseError>)
    ensures r.Ok? ==> |ts| > 0 && ts[0] == Word("pub") && |r.value.rest| < |ts|
  {
    match ExpectWord(ts, "pub")
    case Err(e) => Err(e)
    case Ok(afterPub) =>
      var afterAsync := if |afterPub| > 0 && afterPub[0] == Word("async") then afterPub[1..] else afterPub;
      match ExpectWord(afterAsync, "fn")
      case Err(e) => Err(e)
      case Ok(afterFn) => ParseIdent(afterFn)
  }

  /** The return type after `->`: `impl Trait<..>` or a plain `Result<..>`. */
  function ParseReturn(ts: seq<Token>): (r: Result<Parsed<ReturnShape>, ParseError>)
    ensures r.Ok? ==> Returnable(r.value.value.ok) && Returnable(r.value.value.err)
    ensures |ts| > 0 && ts[0] == Word("impl") ==> r == ParseTraitReturnType(ts)
    ensures !(|ts| > 0 && ts[0] == Word("impl")) ==>
      (r.Ok? <==> ParseType(ts).Ok?)
      && (r.Ok? ==> r.value == Parsed(ReturnShape(Serialized, ParseType(ts).value.value.0, ParseType(ts).value.value.1), ParseType(ts).value.rest))
    ensures r.Ok? && r.value.value.style != Serialized ==> TraitHeader(ts).Ok? && TraitStyle(TraitHeader(ts).value.value) == Some(r.value.value.style)
  {
    if |ts| > 0 && ts[0] == Word("impl") then ParseTraitReturnType(ts) else ParseReturnType(ts)
  }

  /** Everything after the name: the argument group, the return type and the body. */
  function ParseRest(name: string, ts: seq<Token>): (r: Result<ReprDart, ReprError>)
    ensures r.Ok? ==> r.value.fnName == name && Returnable(r.value.output) && Returnable(r.value.error)
    ensures r.Ok? ==> |ts| > 0 && ts[0].Group? && ParseArgs(ts[0].items) == Ok(r.value.inputs)
    ensures r.Ok? ==>
      |ts| > 1 && ts[1] == Punct("->") && ParseReturn(ts[2..]).Ok?
      && ReturnShape(r.value.outputStyle, r.value.output, r.value.error) == ParseReturn(ts[2..]).value.value
      && ParseReturn(ts[2..]).value.rest != [] && ParseReturn(ts[2..]).value.rest[0] == BlockTok
    ensures |ts| > 0 && ts[0].Group? && !(|ts| > 1 && ts[1] == Punct("->")) ==> r == Err(CallbackReturn)
  {
    if !(|ts| > 0 && ts[0].Group?) then Err(Failed(Expected("parentheses")))
    else if !(|ts| > 1 && ts[1] == Punct("->")) then Err(CallbackReturn)
    else match ParseReturn(ts[2..])
      case Err(e) => Err(Failed(e))
      case Ok(Parsed(shape, rest)) =>
        if !(|rest| > 0 && rest[0] == BlockTok) then Err(Failed(Expected("curly braces")))
        else match ParseArgs(ts[0].items)
          case Err(e) => Err(Failed(e))
          case Ok(inputs) => Ok(ReprDart(name, inputs, shape.style, shape.ok, shape.err))
  }

  /**
    `ReprDart::parse`: the header, the argument group, the return type and the body
    are read in that order; the arguments themselves are checked last.
   */
  function ParseReprDart(ts: seq<Token>): (r: Result<ReprDart, ReprError>)
    ensures ParseHeader(ts).Err? ==> r == Err(Failed(ParseHeader(ts).error))
    ensures r.Ok? ==> Returnable(r.value.output) && Returnable(r.value.error)
    ensures r.Ok? ==> ParseHeader(ts).Ok? && r.value.fnName == ParseHeader(ts).value.value
    ensures r.Ok? ==>
      var rest := ParseHeader(ts).value.rest;
      |rest| > 1 && rest[0].Group? && ParseArgs(rest[0].items) == Ok(r.value.inputs)
      && ParseReturn(rest[2..]).Ok?
      && ReturnShape(r.value.outputStyle, r.value.output, r.value.error) == ParseReturn(rest[2..]).value.value
  {
    match ParseHeader(ts)
    case Err(e) => Err(Failed(e))
    case Ok(Parsed(name, rest)) => ParseRest(name, rest)
  }

  /** Both header spellings, with and without `async`, name the function. */
  lemma HeaderSpellings(async: bool, name: string, rest: seq<Token>)
    requires !IsKeyword(name)
    ensures ParseHeader([Word("pub")] + (if async then [Word("async")] else []) + [Word("fn"), Word(name)] + rest)
      == Ok(Parsed(name, rest))
  {
    var tail := [Word("fn"), Word(name)] + rest;
    var ts := [Word("pub")] + (if async then [Word("async")] else []) + tail;
    assert ts[1..] == (if async then [Word("async")] else []) + tail;
    if async {
      assert ts[1..][1..] == tail;
    }
    assert tail[1..] == [Word(name)] + rest;
    assert ([Word(name)] + rest)[1..] == rest;
  }

  /** `async` before `pub` is refused: `pub` must come first. */
  lemma AsyncBeforePub(rest: seq<Token>)
    ensures ParseHeader([Word("async"), Word("pub")] + rest).Err?
  {
  }

  /**
    A return-type error is reported even when an argument is also unsupported: the
    arguments are checked only once the return type and the body have been read.
   */
  lemma ReturnErrorsBeforeArguments(name: string, items: seq<ArgItem>, ts: seq<Token>)
    requires ParseReturn(ts).Err?
    ensures ParseRest(name, [Group(items), Punct("->")] + ts) == Err(Failed(ParseReturn(ts).error))
  {
    assert ([Group(items), Punct("->")] + ts)[2..] == ts;
  }

  /** How the generated C entry point runs the function. */
  datatype Dispatch =
    | BlockOnEmitter         // a one-shot emitter handle, run to completion on the calling thread
    | BlockOnStreamEmitter   // a stream emitter handle, likewise
    | SpawnStream            // a spawned task forwarding each stream item
    | InlineSync             // called inline, the result sent at once
    | SpawnBlocking          // a blocking thread that runs the future to completion
    | SpawnAsync             // a spawned task on the async runtime

  /**
    The match over the output style, in source order: the emitter styles and streams
    ignore `sync` and `os_thread`, and for a plain `Result` sync beats `os_thread`.
   */
  function ChooseDispatch(style: OutputStyle, sync: bool, osThread: bool): (d: Dispatch)
    ensures d == InlineSync <==> style == Serialized && sync
    ensures d == SpawnBlocking <==> style == Serialized && !sync && osThread
    ensures d == SpawnAsync <==> style == Serialized && !sync && !osThread
    ensures d == SpawnStream <==> style == StreamSerialized
    ensures d == BlockOnEmitter <==> style == EmitterSerialized
    ensures d == BlockOnStreamEmitter <==> style == EmitterStreamSerialized
  {
    match style
    case EmitterSerialized => BlockOnEmitter
    case EmitterStreamSerialized => BlockOnStreamEmitter
    case StreamSerialized => SpawnStream
    case Serialized =>
      if sync then InlineSync else if osThread then SpawnBlocking else SpawnAsync
  }

  /** The exported C symbol: `membrane_{namespace}_{fn_name}`. */
  function ExternName(namespace: string, fnName: string): (r: string)
    ensures StartsWith(r, "membrane_") && EndsWith(r, fnName)
    ensures |r| == 10 + |namespace| + |fnName|
  {
    var r := "membrane_" + namespace + "_" + fnName;
    assert r[..9] == "membrane_";
    EndsWithConcat("membrane_" + namespace + "_", fnName);
    r
  }

  /** For namespaces without `_` the symbol determines namespace and function. */
  lemma ExternNameInjective(ns1: string, f1: string, ns2: string, f2: string)
    requires '_' !in ns1 && '_' !in ns2
    requires ExternName(ns1, f1) == ExternName(ns2, f2)
    ensures ns1 == ns2 && f1 == f2
  {
    var a := ExternName(ns1, f1);
    FirstUnderscore(ns1, f1);
    FirstUnderscore(ns2, f2);
    assert ns1 == a[9..9 + |ns1|];
    assert ns2 == ExternName(ns2, f2)[9..9 + |ns2|];
    assert f1 == a[10 + |ns1|..];
    assert f2 == ExternName(ns2, f2)[10 + |ns2|..];
  }

  /** After the prefix, the first `_` of the symbol ends an underscore-free namespace. */
  lemma FirstUnderscore(ns: string, f: string)
    requires '_' !in ns
    ensures ExternName(ns, f)[9 + |ns|] == '_'
    ensures forall j :: 9 <= j < 9 + |ns| ==> ExternName(ns, f)[j] != '_'
  {
    var r := ExternName(ns, f);
    forall j | 9 <= j < 9 + |ns| ensures r[j] != '_' {
      assert r[j] == ns[j - 9];
    }
  }

  /** With `_` in a namespace two functions can share a symbol. */
  lemma ExternNameCollision()
    ensures ExternName("a_b", "c") == ExternName("a", "b_c")
  {
  }

  /** `is_stream`: the two stream styles. */
  function IsStream(style: OutputStyle): (b: bool)
    ensures b <==> style == StreamSerialized || style == EmitterStreamSerialized
    ensures b ==> ChooseDispatch(style, false, false) in {SpawnStream, BlockOnStreamEmitter}
  {
    style in {StreamSerialized, EmitterStreamSerialized}
  }

  /** The return type's name: `()` for any tuple, else the last path identifier. */
  function ReturnTypeName(output: Type): (r: Option<string>)
    ensures output.TupleType? ==> r == Some("()")
    ensures output.PathType? && output.segments != [] ==> r == Some(Last(output.segments).ident)
    ensures r.None? <==> !(output.TupleType? || (output.PathType? && output.segments != []))
  {
    if output.TupleType? then Some("()")
    else if output.PathType? && output.segments != [] then Some(Last(output.segments).ident)
    else None   // `unreachable!()` or an `unwrap()` on an empty path
  }

  /** The error type's name: the last segment of its path. */
  function ErrorTypeName(error: Type): (r: Option<string>)
    ensures r.Some? <==> error.PathType? && error.segments != []
    ensures r.Some? ==> r.value == Last(error.segments).ident
  {
    if error.PathType? && error.segments != [] then Some(Last(error.segments).ident) else None
  }

  /** The parser only hands over types for which the `unreachable!()` arm is never taken. */
  lemma ReturnTypeNamed(output: Type)
    requires Returnable(output)
    requires output.PathType? ==> output.segments != []
    ensures ReturnTypeName(output).Some?
  {
  }

  /** The arguments after the callback parameter is dropped. */
  function CallbackInputs(inputs: seq<Input>, callback: bool): seq<Input>
  {
    if callback && inputs != [] then inputs[1..] else inputs
  }

  /** The function record the macro submits, with the fields the macro fills in. */
  datatype TraceRecord = TraceRecord(
    externCFnName: string,
    arguments: ArgumentTexts,
    fnName: string,
    isStream: bool,
    returnType: Option<string>,
    errorType: Option<string>,
    namespace: string,
    disableLogging: bool,
    timeout: Option<int>,
    output: string)

  /**
    The joined per-argument texts the record carries: the record's `extern_c_fn_types`,
    `dart_outer_params`, `dart_transforms` and `dart_inner_args`.
   */
  datatype ArgumentTexts = ArgumentTexts(cTypes: string, dartParams: string, dartTransforms: string, dartArgs: string)

  /** `c_header_types.join(", ")`, and the three Dart lists joined with `, `, `;\n    ` and `, `. */
  function Texts(inputs: seq<Input>): ArgumentTexts
  {
    ArgumentTexts(
      Join(CTypes.CHeaderList(inputs), ", "),
      Join(DartTypes.DartParamList(inputs), ", "),
      Join(DartTypes.DartTransformList(inputs), ";\n    "),
      Join(DartTypes.DartArgList(inputs), ", "))
  }

  /** Builds the four lists with the list builders and joins them. */
  method BuildTexts(inputs: seq<Input>) returns (texts: ArgumentTexts)
    ensures texts == Texts(inputs)
  {
    var headers := CTypes.CHeaderTypes(inputs);
    var params := DartTypes.DartParams(inputs);
    var transforms := DartTypes.DartTransforms(inputs);
    var args := DartTypes.DartArgs(inputs);
    texts := ArgumentTexts(Join(headers, ", "), Join(params, ", "), Join(transforms, ";\n    "), Join(args, ", "));
  }

  /** The record `dart_impl` submits for a parsed function, given its joined argument texts. */
  function Record(repr: ReprDart, options: Options, arguments: ArgumentTexts, mixedName: string): TraceRecord
  {
    TraceRecord(
      ExternName(options.namespace, repr.fnName), arguments, mixedName,
      IsStream(repr.outputStyle), ReturnTypeName(repr.output), ErrorTypeName(repr.error), options.namespace,
      options.disableLogging, options.timeout, "")
  }

  /**
    `dart_impl` after parsing: drops the callback argument, builds the per-argument
    lists, picks the dispatch and fills the record. `mixedName` is the function name in
    mixed case, computed by a case-conversion library that is not part of this model;
    `callback` is the option that marks a callback-style function.
   */
  method DartImpl(repr: ReprDart, options: Options, sync: bool, callback: bool, mixedName: string)
    returns (trace: TraceRecord, dispatch: Dispatch, externParams: seq<RustTypes.ExternParam>, innerArgs: seq<string>)
    ensures trace == Record(repr, options, Texts(CallbackInputs(repr.inputs, callback)), mixedName)
    ensures externParams == RustTypes.RustExternList(CallbackInputs(repr.inputs, callback))
    ensures innerArgs == RustTypes.RustArgList(CallbackInputs(repr.inputs, callback))
    ensures dispatch == ChooseDispatch(repr.outputStyle, sync, options.osThread)
  {
    var inputs := CallbackInputs(repr.inputs, callback);
    externParams := RustTypes.RustExternParams(inputs);
    innerArgs := RustTypes.RustArgs(inputs);
    var texts := BuildTexts(inputs);
    dispatch := ChooseDispatch(repr.outputStyle, sync, options.osThread);
    trace := TraceRecord(
      ExternName(options.namespace, repr.fnName), texts, mixedName, IsStream(repr.outputStyle),
      ReturnTypeName(repr.output), ErrorTypeName(repr.error), options.namespace,
      options.disableLogging, options.timeout, "");
  }

  /** The record's symbol is in the `membrane_` family of its namespace. */
  lemma RecordSymbol(repr: ReprDart, options: Options, arguments: ArgumentTexts, mixedName: string)
    ensures StartsWith(Record(repr, options, arguments, mixedName).externCFnName, "membrane_" + options.namespace + "_")
  {
    var prefix := "membrane_" + options.namespace + "_";
    assert ExternName(options.namespace, repr.fnName)[..|prefix|] == prefix;
  }

  /** A record is marked as a stream exactly when its function is dispatched as one. */
  lemma RecordStream(repr: ReprDart, options: Options, sync: bool, arguments: ArgumentTexts, mixedName: string)
    ensures Record(repr, options, arguments, mixedName).isStream <==>
      ChooseDispatch(repr.outputStyle, sync, options.osThread) in {SpawnStream, BlockOnStreamEmitter}
  {
  }

  /** A return type the parser accepts always gives the record a return type name. */
  lemma RecordReturnNamed(repr: ReprDart, options: Options, arguments: ArgumentTexts, mixedName: string)
    requires Returnable(repr.output) && (repr.output.PathType? ==> repr.output.segments != [])
    ensures Record(repr, options, arguments, mixedName).returnType.Some?
  {
    ReturnTypeNamed(repr.output);
  }

  /**
    The `contact(user_id: String)` function of the `accounts` namespace: its symbol and
    its C argument list (membrane/tests/integration_tests.rs).
   */
  lemma ContactRecord(ty: Type)
    ensures ExternName("accounts", "contact") == "membrane_accounts_contact"
    ensures Join([CTypes.CHeaderType(Input("user_id", "String", ty))], ", ") == "const char *user_id"
  {
    CTypes.UserIdHeaderType(ty);
  }
}
