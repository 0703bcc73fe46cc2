/**
  The part of Rust's syntax tree (the `syn` crate) that the macro and the type
  helpers inspect: types, paths with their generic arguments, and the token
  text `quote!` renders for a type.
 */
module Syn {
  import opened Strings

  datatype Type =
    | PathType(qself: bool, segments: seq<Segment>)   // `a::b::C<..>`; `qself` marks `<T as Trait>::C`
    | TupleType(elems: seq<Type>)                     // `()` and `(A, B)`
    | OtherType(tokens: seq<string>)                  // references, slices, `dyn Fn()`, `impl Trait`, ...

  datatype Segment = Segment(ident: string, arguments: PathArguments)

  datatype PathArguments =
    | NoArguments
    | AngleBracketed(args: seq<GenericArgument>)
    | Parenthesized(inputs: seq<Type>)

  datatype GenericArgument =
    | TypeArg(ty: Type)
    | LifetimeArg(name: string)
    | OtherArg(tokens: seq<string>)                  // bindings, constraints, const arguments

  /** A plain path `a::b::C` without generic arguments. */
  function PlainPath(idents: seq<string>): (t: Type)
    ensures t.PathType? && !t.qself && |t.segments| == |idents|
    ensures forall i :: 0 <= i < |idents| ==> t.segments[i] == Segment(idents[i], NoArguments)
  {
    if idents == [] then PathType(false, [])
    else
      var rest := PlainPath(idents[1..]);
      PathType(false, [Segment(idents[0], NoArguments)] + rest.segments)
  }

  /** `Name<A, B>`: a one-segment path with type arguments. */
  function Generic(name: string, args: seq<Type>): Type
  {
    PathType(false, [Segment(name, AngleBracketed(TypeArgs(args)))])
  }

  function TypeArgs(tys: seq<Type>): (r: seq<GenericArgument>)
    ensures |r| == |tys| && forall i :: 0 <= i < |tys| ==> r[i] == TypeArg(tys[i])
  {
    if tys == [] then [] else [TypeArg(tys[0])] + TypeArgs(tys[1..])
  }

  /** The identifiers of a path's segments, in order. */
  function Idents(segments: seq<Segment>): (r: seq<string>)
    ensures |r| == |segments| && forall i :: 0 <= i < |segments| ==> r[i] == segments[i].ident
  {
    if segments == [] then [] else [segments[0].ident] + Idents(segments[1..])
  }

  /** The tokens `quote!` emits for a type, in order. */
  function TypeTokens(t: Type): seq<string>
  {
    match t
    case PathType(_, segments) => SegmentsTokens(segments)
    case TupleType(elems) => ["("] + ListTokens(elems) + [")"]
    case OtherType(tokens) => tokens
  }

  function SegmentsTokens(segments: seq<Segment>): seq<string>
  {
    if segments == [] then []
    else
      var head := [segments[0].ident] + ArgumentsTokens(segments[0].arguments);
      if |segments| == 1 then head else head + ["::"] + SegmentsTokens(segments[1..])
  }

  function ArgumentsTokens(a: PathArguments): seq<string>
  {
    match a
    case NoArguments => []
    case AngleBracketed(args) => ["<"] + GenericTokens(args) + [">"]
    case Parenthesized(inputs) => ["("] + ListTokens(inputs) + [")"]
  }

  function GenericTokens(args: seq<GenericArgument>): seq<string>
  {
    if args == [] then []
    else
      var head := GenericArgumentTokens(args[0]);
      if |args| == 1 then head else head + [","] + GenericTokens(args[1..])
  }

  function GenericArgumentTokens(a: GenericArgument): seq<string>
  {
    match a
    case TypeArg(t) => TypeTokens(t)
    case LifetimeArg(name) => ["'" + name]
    case OtherArg(tokens) => tokens
  }

  function ListTokens(tys: seq<Type>): seq<string>
  {
    if tys == [] then []
    else if |tys| == 1 then TypeTokens(tys[0])
    else TypeTokens(tys[0]) + [","] + ListTokens(tys[1..])
  }

  /** `quote!(#ty).to_string()`: the tokens separated by single spaces. */
  function QuoteText(t: Type): string
  {
    Join(TypeTokens(t), " ")
  }
}
