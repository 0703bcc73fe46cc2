/** The Rust side of an argument list (membrane_types/src/rust.rs). */
module RustTypes {
  import opened MembraneTypes
  import Syn
  import CTypes
  import DartTypes

  /** The parameter types `rust_c_type` can emit. */
  datatype ExternType =
    | ConstCCharPtr     // *const ::std::os::raw::c_char
    | CLong             // ::std::os::raw::c_long
    | CDouble           // ::std::os::raw::c_double
    | CChar             // ::std::os::raw::c_char
    | ConstU8Ptr        // *const u8
  {
    predicate IsPointer()
    {
      this == ConstCCharPtr || this == ConstU8Ptr
    }
  }

  /** The expressions `cast_c_type_to_rust` can emit, one constructor per shape. */
  datatype RustCast =
    | CStrToString(variable: string)               // cstr!(v).to_string()
    | Unchanged(variable: string)                  // v
    | NonZero(variable: string)                    // v != 0
    | Deserialize(variable: string, ty: Syn.Type, rustType: string)
      // read the blob, decode bytes 8.. with bincode as `ty`; the message names `rustType`

  /** `rust_c_type`. */
  function RustCType(ty: string): (r: ExternType)
    ensures IsScalar(ty) <==> r != ConstU8Ptr
  {
    if ty == "String" then ConstCCharPtr
    else if ty == "i64" then CLong
    else if ty == "f64" then CDouble
    else if ty == "bool" then CChar
    else ConstU8Ptr
  }

  /** `cast_c_type_to_rust`. */
  function CastCTypeToRust(rustType: string, variable: string, ty: Syn.Type): (r: RustCast)
    ensures r.variable == variable
    ensures r.Deserialize? <==> !IsScalar(rustType)
    ensures r.Deserialize? ==> r.ty == ty && r.rustType == rustType
  {
    if rustType == "String" then CStrToString(variable)
    else if rustType == "i64" then Unchanged(variable)
    else if rustType == "f64" then Unchanged(variable)
    else if rustType == "bool" then NonZero(variable)
    else Deserialize(variable, ty, rustType)
  }

  /** The header and the Rust extern function agree, for every type, on passing by pointer. */
  lemma PointerAgreement(ty: string)
    ensures CTypes.IsPointer(CTypes.CType(ty)) <==> RustCType(ty).IsPointer()
  {
    CTypes.CTypePointers(ty);
  }

  /**
    The Rust side decodes a blob exactly when the Dart side builds one: both sides use the
    same four scalar types.
   */
  lemma CastAgreement(rustType: string, variable: string, ty: Syn.Type)
    ensures CastCTypeToRust(rustType, variable, ty).Deserialize? <==>
            DartTypes.CastDartTypeToC(rustType, variable) == DartTypes.SerializedCast(variable)
  {
    var dart := DartTypes.CastDartTypeToC(rustType, variable);
    var blob := DartTypes.SerializedCast(variable);
    if IsScalar(rustType) {
      assert |DartTypes.SerializedCastTail()| > 30;
      assert |dart| < |blob|;
    }
  }

  /** One extern parameter `v: T`. */
  datatype ExternParam = ExternParam(variable: string, cType: ExternType)

  /** One statement `let v = cast;`. */
  datatype Transform = Let(variable: string, cast: RustCast)

  function RustExternList(inputs: seq<Input>): seq<ExternParam>
  {
    seq(|inputs|, i requires 0 <= i < |inputs| => ExternParam(inputs[i].variable, RustCType(inputs[i].rustType)))
  }

  function RustArgList(inputs: seq<Input>): seq<string>
  {
    seq(|inputs|, i requires 0 <= i < |inputs| => inputs[i].variable)
  }

  /** `RustExternParams::from`: one extern parameter per input, in input order. */
  method RustExternParams(inputs: seq<Input>) returns (stream: seq<ExternParam>)
    ensures stream == RustExternList(inputs)
  {
    stream := [];
    for k := 0 to |inputs|
      invariant |stream| == k
      invariant forall i :: 0 <= i < k ==>
        stream[i] == ExternParam(inputs[i].variable, RustCType(inputs[i].rustType))
    {
      stream := stream + [ExternParam(inputs[k].variable, RustCType(inputs[k].rustType))];
    }
  }

  /** `RustTransforms::from`: one rebinding per input, in input order, shadowing the raw parameter. */
  method RustTransforms(inputs: seq<Input>) returns (stream: seq<Transform>)
    ensures |stream| == |inputs|
    ensures forall i :: 0 <= i < |inputs| ==>
      stream[i] == Let(inputs[i].variable, CastCTypeToRust(inputs[i].rustType, inputs[i].variable, inputs[i].ty))
  {
    stream := [];
    for k := 0 to |inputs|
      invariant |stream| == k
      invariant forall i :: 0 <= i < k ==>
        stream[i] == Let(inputs[i].variable, CastCTypeToRust(inputs[i].rustType, inputs[i].variable, inputs[i].ty))
    {
      var input := inputs[k];
      stream := stream + [Let(input.variable, CastCTypeToRust(input.rustType, input.variable, input.ty))];
    }
  }

  /** `RustArgs::from`: the input names, in input order. */
  method RustArgs(inputs: seq<Input>) returns (stream: seq<string>)
    ensures stream == RustArgList(inputs)
  {
    stream := [];
    for k := 0 to |inputs|
      invariant |stream| == k
      invariant forall i :: 0 <= i < k ==> stream[i] == inputs[i].variable
    {
      stream := stream + [inputs[k].variable];
    }
  }
}
