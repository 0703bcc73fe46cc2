/**
  The parsers the macro runs over a function header (membrane_macro/src/parsers.rs).

  A parser reads from a cursor, modelled as a sequence of tokens: words (identifiers
  and keywords), punctuation, and types that the cursor already holds as syntax trees.
  Each parser answers with what it read and the rest of the cursor, or with an error.
 */
module MacroParsers {
  import opened Wrappers
  import opened Strings
  import opened Syn
  import opened MembraneTypes

  datatype Token =
    | Word(text: string)     // an identifier or a keyword
    | Punct(text: string)    // `<`, `>`, `=`, `::`, `,`, ...
    | TypeTok(ty: Type)      // a whole type
    | Group(items: seq<ArgItem>)   // a parenthesized argument list, split at its commas
    | BlockTok               // a braced function body

  datatype ParseError =
    | Message(kind: ErrorKind)   // an error with one of the macro's own messages
    | Expected(what: string)     // a syntax error raised by the parse cursor
    | Panic(reason: string)      // a panic inside the macro

  /** The macro's own error messages, told apart by kind; `Text` spells each out. */
  datatype ErrorKind =
    | TupleReturned
    | NotResult
    | FutureBinding
    | StreamBinding
    | UnknownTrait
    | UnsupportedArgument
    | NotReturnable(found: string)

  datatype Parsed<T> = Parsed(value: T, rest: seq<Token>)

  /** The output style and the `Ok` and `Err` types of a `Result` return type. */
  datatype ReturnShape = ReturnShape(style: OutputStyle, ok: Type, err: Type)

  function Text(kind: ErrorKind): string
  {
    match kind
    case TupleReturned =>
      "A tuple may not be returned from an `async_dart` function. If a tuple is needed return a struct containing the tuple."
    case NotResult => "expected enum `Result`"
    case FutureBinding => "expected `impl Future<Output = Result>`"
    case StreamBinding => "expected `impl Stream<Item = Result>`"
    case UnknownTrait =>
      "trait found, expected `impl Stream<Item = Result>` or `impl StreamEmitter<Result>` or `impl Emitter<Result>`"
    case UnsupportedArgument => "not a supported argument type for Dart interop"
    case NotReturnable(found) => "expected a struct, vec, or scalar type but found `" + found + "`"
  }

  /** Words that `input.parse::<Ident>()` refuses. */
  predicate IsKeyword(w: string)
  {
    w in {"_", "as", "async", "await", "break", "const", "continue", "crate", "dyn", "else", "enum",
          "extern", "false", "fn", "for", "if", "impl", "in", "let", "loop", "match", "mod", "move",
          "mut", "pub", "ref", "return", "self", "Self", "static", "struct", "super", "trait", "true",
          "type", "unsafe", "use", "where", "while", "abstract", "become", "box", "do", "final",
          "macro", "override", "priv", "try", "typeof", "unsized", "virtual", "yield"}
  }

  /** A type the macro can return: a path type or the unit type `()`. */
  predicate Returnable(t: Type)
  {
    t.PathType? || t == TupleType([])
  }

  function Last<T>(xs: seq<T>): T
    requires |xs| > 0
  {
    xs[|xs| - 1]
  }

  function ParseIdent(ts: seq<Token>): (r: Result<Parsed<string>, ParseError>)
    ensures r.Ok? <==> |ts| > 0 && ts[0].Word? && !IsKeyword(ts[0].text)
    ensures r.Ok? ==> r.value == Parsed(ts[0].text, ts[1..])
  {
    if |ts| > 0 && ts[0].Word? && !IsKeyword(ts[0].text) then Ok(Parsed(ts[0].text, ts[1..]))
    else Err(Expected("identifier"))
  }

  function ExpectWord(ts: seq<Token>, kw: string): (r: Result<seq<Token>, ParseError>)
    ensures r.Ok? <==> |ts| > 0 && ts[0] == Word(kw)
    ensures r.Ok? ==> r.value == ts[1..]
  {
    if |ts| > 0 && ts[0] == Word(kw) then Ok(ts[1..]) else Err(Expected("`" + kw + "`"))
  }

  function ExpectPunct(ts: seq<Token>, p: string): (r: Result<seq<Token>, ParseError>)
    ensures r.Ok? <==> |ts| > 0 && ts[0] == Punct(p)
    ensures r.Ok? ==> r.value == ts[1..]
  {
    if |ts| > 0 && ts[0] == Punct(p) then Ok(ts[1..]) else Err(Expected("`" + p + "`"))
  }

  /** A word a path segment may be: an identifier, or one of the path keywords syn lets through. */
  predicate IsSegmentWord(w: string)
  {
    !IsKeyword(w) || w in {"self", "super", "crate", "Self"}
  }

  /** An expression path `a::b::C`: its segments' identifiers. */
  function ParseExprPath(ts: seq<Token>): (r: Result<Parsed<seq<string>>, ParseError>)
    ensures r.Ok? ==> |r.value.value| > 0 && |r.value.rest| < |ts| && r.value.rest == ts[|ts| - |r.value.rest|..]
    ensures r.Ok? <==> |ts| > 0 && ts[0].Word? && IsSegmentWord(ts[0].text)
    decreases |ts|
  {
    if !(|ts| > 0 && ts[0].Word? && IsSegmentWord(ts[0].text)) then Err(Expected("identifier"))
    else
      var first := ts[0].text;
      var rest := ts[1..];
      if |rest| >= 2 && rest[0] == Punct("::") && rest[1].Word? && IsSegmentWord(rest[1].text) then
        match ParseExprPath(rest[1..])
        case Err(e) => Err(e)
        case Ok(Parsed(more, rest')) => Ok(Parsed([first] + more, rest'))
      else Ok(Parsed([first], rest))
  }

  /** `input.parse::<syn::TypePath>()`: a path type, a bare word being a one-segment path. */
  function ParseTypePath(ts: seq<Token>): (r: Result<Parsed<seq<Segment>>, ParseError>)
    ensures r.Ok? ==> |ts| > 0 && r.value.rest == ts[1..]
  {
    if |ts| > 0 && ts[0].TypeTok? && ts[0].ty.PathType? then Ok(Parsed(ts[0].ty.segments, ts[1..]))
    else if |ts| > 0 && ts[0].Word? && !IsKeyword(ts[0].text) then
      Ok(Parsed([Segment(ts[0].text, NoArguments)], ts[1..]))
    else Err(Expected("type path"))
  }

  /**
    `validate_type`: a path type or `()` is accepted as it is, a non-empty tuple is
    refused with the tuple message, anything else with a message quoting it.
   */
  function ValidateType(arg: GenericArgument): (r: Result<Type, ParseError>)
    ensures r.Ok? <==> arg.TypeArg? && Returnable(arg.ty)
    ensures r.Ok? ==> r.value == arg.ty
    ensures arg.TypeArg? && arg.ty.TupleType? && arg.ty.elems != [] ==> r == Err(Message(TupleReturned))
    ensures r.Err? && !(arg.TypeArg? && arg.ty.TupleType?) ==>
      r == Err(Message(NotReturnable(Join(GenericArgumentTokens(arg), " "))))
  {
    if arg.TypeArg? && arg.ty.PathType? then Ok(arg.ty)
    else if arg.TypeArg? && arg.ty.TupleType? && arg.ty.elems != [] then Err(Message(TupleReturned))
    else if arg.TypeArg? && arg.ty.TupleType? then Ok(arg.ty)
    else Err(Message(NotReturnable(Join(GenericArgumentTokens(arg), " "))))
  }

  /** `Result<Ok, Err>` spelled with the given leading path. */
  function ResultType(prefix: seq<Segment>, ok: Type, err: Type): Type
  {
    PathType(false, prefix + [Segment("Result", AngleBracketed([TypeArg(ok), TypeArg(err)]))])
  }

  /**
    `parse_type`: the next type must be a path whose last segment is `Result` with
    angle-bracketed arguments; the first two arguments are validated in order.
   */
  function ParseType(ts: seq<Token>): (r: Result<Parsed<(Type, Type)>, ParseError>)
    ensures r.Ok? ==> |ts| > 0 && r.value.rest == ts[1..]
    ensures r.Ok? ==> Returnable(r.value.value.0) && Returnable(r.value.value.1)
    ensures (ParseTypePath(ts).Ok? && ParseTypePath(ts).value.value != []
             && Last(ParseTypePath(ts).value.value).ident != "Result") ==> r == Err(Message(NotResult))
    ensures (ParseTypePath(ts).Ok? && ParseTypePath(ts).value.value != []
             && Last(ParseTypePath(ts).value.value).ident == "Result"
             && !Last(ParseTypePath(ts).value.value).arguments.AngleBracketed?) ==> r == Err(Message(NotResult))
    ensures r.Ok? <==>
      ParseTypePath(ts).Ok? && ParseTypePath(ts).value.value != [] &&
      var last := Last(ParseTypePath(ts).value.value);
      last.ident == "Result" && last.arguments.AngleBracketed? && |last.arguments.args| >= 2
      && ValidateType(last.arguments.args[0]).Ok? && ValidateType(last.arguments.args[1]).Ok?
    ensures r.Ok? ==>
      var args := Last(ParseTypePath(ts).value.value).arguments.args;
      r.value.value == (ValidateType(args[0]).value, ValidateType(args[1]).value)
  {
    match ParseTypePath(ts)
    case Err(e) => Err(e)
    case Ok(Parsed(segments, rest)) =>
      if segments == [] then Err(Panic("called `Option::unwrap()` on a `None` value"))
      else
        var last := Last(segments);
        if last.ident != "Result" then Err(Message(NotResult))
        else if last.arguments.AngleBracketed? then
            var args := last.arguments.args;
            if |args| == 0 then Err(Panic("index out of bounds"))
            else match ValidateType(args[0])
              case Err(e) => Err(e)
              case Ok(ok) =>
                if |args| == 1 then Err(Panic("index out of bounds"))
                else match ValidateType(args[1])
                  case Err(e) => Err(e)
                  case Ok(err) => Ok(Parsed((ok, err), rest))
        else Err(Message(NotResult))
  }

  /** `parse_return_type`: a plain `Result` return is always `Serialized`. */
  function ParseReturnType(ts: seq<Token>): (r: Result<Parsed<ReturnShape>, ParseError>)
    ensures r.Ok? ==> r.value.value.style == Serialized
    ensures r.Ok? <==> ParseType(ts).Ok?
    ensures r.Ok? ==> r.value == Parsed(ReturnShape(Serialized, ParseType(ts).value.value.0, ParseType(ts).value.value.1), ParseType(ts).value.rest)
  {
    match ParseType(ts)
    case Err(e) => Err(e)
    case Ok(Parsed((ok, err), rest)) => Ok(Parsed(ReturnShape(Serialized, ok, err), rest))
  }

  /**
    The output style each trait name selects. The source names the stream-emitter
    style `StreamEmitterSerialized`; the shared enum calls it `EmitterStreamSerialized`.
   */
  function TraitStyle(name: string): (r: Option<OutputStyle>)
    ensures r.Some? <==> name in {"Future", "Stream", "StreamEmitter", "Emitter"}
  {
    if name == "Future" then Some(Serialized)
    else if name == "Stream" then Some(StreamSerialized)
    else if name == "StreamEmitter" then Some(EmitterStreamSerialized)
    else if name == "Emitter" then Some(EmitterSerialized)
    else None
  }

  /** The `>` that closes the trait's arguments after the `Result` type. */
  function CloseTrait(style: OutputStyle, ts: seq<Token>): (r: Result<Parsed<ReturnShape>, ParseError>)
    ensures r.Ok? ==> r.value.value.style == style
    ensures r.Ok? ==> Returnable(r.value.value.ok) && Returnable(r.value.value.err)
  {
    match ParseType(ts)
    case Err(e) => Err(e)
    case Ok(Parsed((ok, err), rest)) =>
      match ExpectPunct(rest, ">")
      case Err(e) => Err(e)
      case Ok(rest') => Ok(Parsed(ReturnShape(style, ok, err), rest'))
  }

  /** `Output = Result<..> >` after `Future<`, or `Item = Result<..> >` after `Stream<`. */
  function ParseBinding(style: OutputStyle, binding: string, message: ErrorKind, ts: seq<Token>)
    : (r: Result<Parsed<ReturnShape>, ParseError>)
    ensures r.Ok? ==> r.value.value.style == style
    ensures r.Ok? ==> Returnable(r.value.value.ok) && Returnable(r.value.value.err)
  {
    match ParseIdent(ts)
    case Err(e) => Err(e)
    case Ok(Parsed(item, rest)) =>
      if item != binding then Err(Message(message))
      else match ExpectPunct(rest, "=")
        case Err(e) => Err(e)
        case Ok(rest') => CloseTrait(style, rest')
  }

  /** `impl Path<`: the last identifier of the trait path. */
  function TraitHeader(ts: seq<Token>): (r: Result<Parsed<string>, ParseError>)
    ensures r.Ok? ==> |ts| > 0 && ts[0] == Word("impl") && |r.value.rest| < |ts|
  {
    match ExpectWord(ts, "impl")
    case Err(e) => Err(e)
    case Ok(afterImpl) =>
      match ParseExprPath(afterImpl)
      case Err(e) => Err(e)
      case Ok(Parsed(path, rest)) =>
        match ExpectPunct(rest, "<")
        case Err(e) => Err(e)
        case Ok(rest') => Ok(Parsed(Last(path), rest'))
  }

  /** What follows `impl Name<`, by trait name. */
  function TraitBody(name: string, ts: seq<Token>): (r: Result<Parsed<ReturnShape>, ParseError>)
    ensures r.Ok? ==> TraitStyle(name) == Some(r.value.value.style)
    ensures r.Ok? ==> Returnable(r.value.value.ok) && Returnable(r.value.value.err)
    ensures TraitStyle(name).None? ==> r == Err(Message(UnknownTrait))
  {
    if name == "Future" then ParseBinding(Serialized, "Output", FutureBinding, ts)
    else if name == "Stream" then ParseBinding(StreamSerialized, "Item", StreamBinding, ts)
    else if name == "StreamEmitter" then CloseTrait(EmitterStreamSerialized, ts)
    else if name == "Emitter" then CloseTrait(EmitterSerialized, ts)
    else Err(Message(UnknownTrait))
  }

  /**
    `parse_trait_return_type`: `impl Path<...>`, where the last identifier of the path
    picks the output style; any other trait is refused with the trait message.
   */
  function ParseTraitReturnType(ts: seq<Token>): (r: Result<Parsed<ReturnShape>, ParseError>)
    ensures r.Ok? ==> Returnable(r.value.value.ok) && Returnable(r.value.value.err)
    ensures r.Ok? ==> TraitHeader(ts).Ok? && TraitStyle(TraitHeader(ts).value.value) == Some(r.value.value.style)
    ensures TraitHeader(ts).Ok? && TraitStyle(TraitHeader(ts).value.value).None? ==> r == Err(Message(UnknownTrait))
  {
    match TraitHeader(ts)
    case Err(e) => Err(e)
    case Ok(Parsed(name, rest)) => TraitBody(name, rest)
  }

  /** The trait each style is spelled with. */
  function TraitName(style: OutputStyle): string
  {
    match style
    case Serialized => "Future"
    case StreamSerialized => "Stream"
    case EmitterStreamSerialized => "StreamEmitter"
    case EmitterSerialized => "Emitter"
  }

  /** `Output =` or `Item =` where the trait takes an associated-type binding. */
  function BindingTokens(style: OutputStyle): seq<Token>
  {
    match style
    case Serialized => [Word("Output"), Punct("=")]
    case StreamSerialized => [Word("Item"), Punct("=")]
    case _ => []
  }

  /** The canonical tokens of `impl Trait<..Result<Ok, Err>>` for each style. */
  function TraitTokens(style: OutputStyle, ok: Type, err: Type): seq<Token>
  {
    [Word("impl"), Word(TraitName(style)), Punct("<")] + BindingTokens(style) + [TypeTok(ResultType([], ok, err)), Punct(">")]
  }

  lemma ParseTypeResult(prefix: seq<Segment>, ok: Type, err: Type, rest: seq<Token>)
    requires Returnable(ok) && Returnable(err)
    ensures ParseType([TypeTok(ResultType(prefix, ok, err))] + rest) == Ok(Parsed((ok, err), rest))
  {
    var ts := [TypeTok(ResultType(prefix, ok, err))] + rest;
    assert ts[1..] == rest;
  }

  lemma TraitHeaderCanonical(name: string, rest: seq<Token>)
    requires !IsKeyword(name)
    ensures TraitHeader([Word("impl"), Word(name), Punct("<")] + rest) == Ok(Parsed(name, rest))
  {
    var ts := [Word("impl"), Word(name), Punct("<")] + rest;
    assert ts[1..][1..] == [Punct("<")] + rest;
    assert ParseExprPath(ts[1..]) == Ok(Parsed([name], [Punct("<")] + rest));
    assert ([Punct("<")] + rest)[1..] == rest;
  }

  lemma CloseTraitCanonical(style: OutputStyle, ok: Type, err: Type, rest: seq<Token>)
    requires Returnable(ok) && Returnable(err)
    ensures CloseTrait(style, [TypeTok(ResultType([], ok, err)), Punct(">")] + rest) == Ok(Parsed(ReturnShape(style, ok, err), rest))
  {
    var ts := [TypeTok(ResultType([], ok, err)), Punct(">")] + rest;
    assert ts == [TypeTok(ResultType([], ok, err))] + ([Punct(">")] + rest);
    ParseTypeResult([], ok, err, [Punct(">")] + rest);
    assert ([Punct(">")] + rest)[1..] == rest;
  }

  lemma TraitNamesAreNotKeywords(style: OutputStyle)
    ensures !IsKeyword(TraitName(style)) && !IsKeyword("Output") && !IsKeyword("Item")
  {
  }

  lemma ParseBindingCanonical(style: OutputStyle, binding: string, message: ErrorKind, close: seq<Token>)
    requires !IsKeyword(binding)
    ensures ParseBinding(style, binding, message, [Word(binding), Punct("=")] + close) == CloseTrait(style, close)
  {
    var ts := [Word(binding), Punct("=")] + close;
    assert ts[1..][1..] == close;
  }

  lemma TraitBodyCanonical(style: OutputStyle, ok: Type, err: Type, rest: seq<Token>)
    requires Returnable(ok) && Returnable(err)
    ensures TraitBody(TraitName(style), BindingTokens(style) + [TypeTok(ResultType([], ok, err)), Punct(">")] + rest)
      == Ok(Parsed(ReturnShape(style, ok, err), rest))
  {
    var close := [TypeTok(ResultType([], ok, err)), Punct(">")] + rest;
    var body := BindingTokens(style) + close;
    assert BindingTokens(style) + [TypeTok(ResultType([], ok, err)), Punct(">")] + rest == body;
    CloseTraitCanonical(style, ok, err, rest);
    TraitNamesAreNotKeywords(style);
    match style
    case Serialized =>
      ParseBindingCanonical(style, "Output", FutureBinding, close);
      assert TraitBody("Future", body) == ParseBinding(style, "Output", FutureBinding, body);
    case StreamSerialized =>
      ParseBindingCanonical(style, "Item", StreamBinding, close);
      assert TraitBody("Stream", body) == ParseBinding(style, "Item", StreamBinding, body);
    case EmitterStreamSerialized =>
      assert body == close;
      assert TraitBody("StreamEmitter", body) == CloseTrait(style, close);
    case EmitterSerialized =>
      assert body == close;
      assert TraitBody("Emitter", body) == CloseTrait(style, close);
  }

  /** Every style round-trips through its canonical spelling, with the rest of the cursor untouched. */
  lemma TraitRoundTrip(style: OutputStyle, ok: Type, err: Type, rest: seq<Token>)
    requires Returnable(ok) && Returnable(err)
    ensures ParseTraitReturnType(TraitTokens(style, ok, err) + rest) == Ok(Parsed(ReturnShape(style, ok, err), rest))
  {
    var body := BindingTokens(style) + [TypeTok(ResultType([], ok, err)), Punct(">")] + rest;
    assert TraitTokens(style, ok, err) + rest == [Word("impl"), Word(TraitName(style)), Punct("<")] + body;
    TraitNamesAreNotKeywords(style);
    TraitHeaderCanonical(TraitName(style), body);
    TraitBodyCanonical(style, ok, err, rest);
  }

  /** An argument expression: `name: Type` or anything else. */
  datatype Expr =
    | TypeAscription(variable: string, ty: Type)
    | OtherExpr(text: string)

  /** One comma-separated argument; a leading `mut` is noted and then ignored. */
  datatype ArgItem = ArgItem(hasMut: bool, expr: Expr)

  /** The argument the generated code sees: the type as compact text, whitespace removed. */
  function ParseArg(item: ArgItem): (r: Result<Input, ParseError>)
    ensures r.Ok? <==> item.expr.TypeAscription?
    ensures r.Ok? ==> r.value.variable == item.expr.variable && r.value.ty == item.expr.ty
    ensures r.Ok? ==> NoWhitespace(r.value.rustType)
  {
    match item.expr
    case TypeAscription(v, ty) =>
      var rt := RemoveWhitespace(QuoteText(ty));
      Ok(Input(v, rt, ty))
    case OtherExpr(_) => Err(Message(UnsupportedArgument))
  }

  /**
    `parse_args`: every argument must be `name: Type`; the inputs keep the arguments'
    order, and the first argument of another form is reported.
   */
  function ParseArgs(items: seq<ArgItem>): (r: Result<seq<Input>, ParseError>)
    ensures r.Ok? <==> forall i :: 0 <= i < |items| ==> items[i].expr.TypeAscription?
    ensures r.Ok? ==> (|r.value| == |items|
      && forall i :: 0 <= i < |items| ==> r.value[i] == ParseArg(items[i]).value)
    ensures r.Err? ==> r.error == Message(UnsupportedArgument)
  {
    if items == [] then Ok([])
    else match ParseArg(items[0])
      case Err(e) => Err(e)
      case Ok(input) =>
        match ParseArgs(items[1..])
        case Err(e) =>
          assert !items[1..][FirstBad(items[1..])].expr.TypeAscription?;
          Err(e)
        case Ok(inputs) => Ok([input] + inputs)
  }

  /** The index of some argument that is not `name: Type`. */
  function FirstBad(items: seq<ArgItem>): (i: nat)
    requires exists i :: 0 <= i < |items| && !items[i].expr.TypeAscription?
    ensures i < |items| && !items[i].expr.TypeAscription?
  {
    if !items[0].expr.TypeAscription? then 0
    else
      assert exists i :: 0 <= i < |items[1..]| && !items[1..][i].expr.TypeAscription? by {
        var j :| 0 <= j < |items| && !items[j].expr.TypeAscription?;
        assert items[1..][j - 1] == items[j];
      }
      1 + FirstBad(items[1..])
  }

  /** For a type whose tokens hold no whitespace, the stored text is the tokens run together. */
  lemma RustTypeText(ty: Type)
    requires forall i :: 0 <= i < |TypeTokens(ty)| ==> NoWhitespace(TypeTokens(ty)[i])
    ensures ParseArg(ArgItem(false, TypeAscription("x", ty))).value.rustType == Concat(TypeTokens(ty))
  {
    RemoveWhitespaceJoin(TypeTokens(ty));
  }

  /** A function argument as the signature holds it. */
  datatype FnArg =
    | Typed(pattern: string, ty: Type)
    | Receiver                                // `self`, `&self`, `&mut self`

  const PortArg := Typed("_membrane_port", PlainPath(["i64"]))

  /** `add_port_to_args`: the port comes first, then every original argument in order. */
  function AddPortToArgs(inputs: seq<FnArg>): (r: seq<FnArg>)
    ensures |r| == |inputs| + 1 && r[0] == PortArg
    ensures forall i :: 0 <= i < |inputs| ==> r[i + 1] == inputs[i]
  {
    [PortArg] + inputs
  }

  const I32 := PlainPath(["i32"])
  const StringType := PlainPath(["String"])

  /** `-> i32` and `-> Option<String>` are refused (membrane/tests/ui/single.rs). */
  lemma NoResultExamples()
    ensures ParseReturnType([TypeTok(I32)]) == Err(Message(NotResult))
    ensures ParseReturnType([TypeTok(Generic("Option", [StringType]))]) == Err(Message(NotResult))
  {
  }

  /** `-> Result<(i32, i32), String>` is refused with the tuple message. */
  lemma BareTupleExample()
    ensures ParseReturnType([TypeTok(Generic("Result", [TupleType([I32, I32]), StringType]))]) == Err(Message(TupleReturned))
  {
  }

  /** `-> Result<Option<i32>, String>` is accepted as `Serialized`. */
  lemma OptionSuccessExample()
    ensures var ok := Generic("Option", [I32]);
      ParseReturnType([TypeTok(Generic("Result", [ok, StringType]))]) == Ok(Parsed(ReturnShape(Serialized, ok, StringType), []))
  {
  }

  lemma StreamBody(body: seq<Token>)
    ensures TraitBody("Stream", body) == ParseBinding(StreamSerialized, "Item", StreamBinding, body)
  {
  }

  /** A bare word other than `Result` where the `Result` type belongs. */
  lemma WordIsNotResult(w: string, rest: seq<Token>)
    requires w != "Result" && !IsKeyword(w)
    ensures ParseType([Word(w)] + rest) == Err(Message(NotResult))
  {
    assert ParseTypePath([Word(w)] + rest).value.value == [Segment(w, NoArguments)];
  }

  /**
    `impl Stream<w, ..>` with any identifier `w` other than `Item` is refused with the
    stream message; membrane/tests/ui/stream.rs has `impl Stream<i32, String>`.
   */
  lemma StreamWithoutItem(w: string, rest: seq<Token>)
    requires !IsKeyword(w) && w != "Item"
    ensures ParseTraitReturnType([Word("impl"), Word("Stream"), Punct("<"), Word(w)] + rest) == Err(Message(StreamBinding))
  {
    var body := [Word(w)] + rest;
    TraitNamesAreNotKeywords(StreamSerialized);
    TraitHeaderCanonical("Stream", body);
    assert [Word("impl"), Word("Stream"), Punct("<"), Word(w)] + rest == [Word("impl"), Word("Stream"), Punct("<")] + body;
    StreamBody(body);
  }

  /**
    `impl Stream<Item = w ..>` with a word `w` other than `Result` is refused as not a
    `Result`; membrane/tests/ui/stream.rs has `impl Stream<Item = i32, String>`.
   */
  lemma StreamItemNotResult(w: string, rest: seq<Token>)
    requires !IsKeyword(w) && w != "Result"
    ensures ParseTraitReturnType([Word("impl"), Word("Stream"), Punct("<"), Word("Item"), Punct("="), Word(w)] + rest)
      == Err(Message(NotResult))
  {
    var close := [Word(w)] + rest;
    var body := [Word("Item"), Punct("=")] + close;
    assert [Word("impl"), Word("Stream"), Punct("<"), Word("Item"), Punct("="), Word(w)] + rest
      == [Word("impl"), Word("Stream"), Punct("<")] + body;
    TraitNamesAreNotKeywords(StreamSerialized);
    TraitHeaderCanonical("Stream", body);
    ParseBindingCanonical(StreamSerialized, "Item", StreamBinding, close);
    StreamBody(body);
    WordIsNotResult(w, rest);
  }

  /** `self` is not a supported argument (`failing_arg`). */
  lemma SelfArgumentExample()
    ensures ParseArgs([ArgItem(false, OtherExpr("self"))]) == Err(Message(UnsupportedArgument))
  {
  }
}
