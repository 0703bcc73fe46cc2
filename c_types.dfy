/** The C header side of an argument list (membrane_types/src/c.rs). */
module CTypes {
  import opened Strings
  import opened MembraneTypes
  import Syn

  /** The spellings `c_type` can produce. */
  predicate IsCHeaderType(c: string)
  {
    c in {"const char *", "const signed long ", "const double ", "const uint8_t ",
          "const uint8_t *", "const signed long *", "const double *"}
  }

  /**
    `c_type`: the C parameter type for a compact Rust type. Every string either starts with
    `Option<` or does not, so the final arm is never reached: the function is total.
   */
  function CType(ty: string): (c: string)
    ensures IsCHeaderType(c)
  {
    if ty == "String" then "const char *"
    else if ty == "i64" then "const signed long "
    else if ty == "f64" then "const double "
    else if ty == "bool" then "const uint8_t "
    else if !StartsWith(ty, "Option<") then "const uint8_t *"
    else if ty == "Option<String>" then "const char *"
    else if ty == "Option<i64>" then "const signed long *"
    else if ty == "Option<f64>" then "const double *"
    else if ty == "Option<bool>" then "const uint8_t *"
    else if StartsWith(ty, "Option<") then "const uint8_t *"
    else assert false; ""
  }

  /** A pointer type in the header. */
  predicate IsPointer(c: string)
  {
    |c| > 0 && c[|c| - 1] == '*'
  }

  /** Exactly the three numeric and boolean scalars are passed by value; everything else by pointer. */
  lemma CTypePointers(ty: string)
    ensures IsPointer(CType(ty)) <==> !(ty == "i64" || ty == "f64" || ty == "bool")
  {
  }

  /**
    An optional scalar is passed as a pointer to the scalar's C type (`String` is already a
    pointer and stays `const char *`).
   */
  lemma OptionalScalarIsPointer()
    ensures CType("Option<i64>") == CType("i64") + "*"
    ensures CType("Option<f64>") == CType("f64") + "*"
    ensures CType("Option<bool>") == CType("bool") + "*"
    ensures CType("Option<String>") == CType("String")
  {
    assert "const signed long " + "*" == "const signed long *";
    assert "const double " + "*" == "const double *";
    assert "const uint8_t " + "*" == "const uint8_t *";
  }

  /** One header parameter: the C type immediately followed by the argument name. */
  function CHeaderType(input: Input): string
  {
    CType(input.rustType) + input.variable
  }

  /** `CHeaderTypes::from`: one header parameter per input, in input order. */
  function CHeaderList(inputs: seq<Input>): seq<string>
  {
    seq(|inputs|, i requires 0 <= i < |inputs| => CHeaderType(inputs[i]))
  }

  method CHeaderTypes(inputs: seq<Input>) returns (stream: seq<string>)
    ensures stream == CHeaderList(inputs)
  {
    stream := [];
    for k := 0 to |inputs|
      invariant |stream| == k
      invariant forall i :: 0 <= i < k ==> stream[i] == CHeaderType(inputs[i])
    {
      stream := stream + [CHeaderType(inputs[k])];
    }
  }

  /** The argument of the integration test's `contact(user_id: String)`. */
  lemma UserIdHeaderType(ty: Syn.Type)
    ensures CHeaderType(Input("user_id", "String", ty)) == "const char *user_id"
  {
  }
}
