/** The Dart side of an argument list (membrane_types/src/dart.rs). */
module DartTypes {
  import opened Strings
  import opened MembraneTypes

  /** `dart_type`: the Dart type of a parameter; a serialized type keeps its last path segment. */
  function DartType(ty: string): (r: string)
    ensures ty == "String" ==> r == "String"
    ensures ty == "i64" ==> r == "int"
    ensures ty == "f64" ==> r == "double"
    ensures ty == "bool" ==> r == "bool"
    ensures !IsScalar(ty) ==> !Contains(r, "::") && Contains(ty, r)
    ensures !IsScalar(ty) && |r| > 0 ==> !IsWhitespace(r[0]) && !IsWhitespace(r[|r| - 1])
    ensures !IsScalar(ty) ==> r == Trim(LastPiece(ty, "::"))
  {
    if ty == "String" then "String"
    else if ty == "i64" then "int"
    else if ty == "f64" then "double"
    else if ty == "bool" then "bool"
    else
      assert !IsScalar(ty);
      var last := LastPiece(ty, "::");
      LastPieceSuffix(ty, "::");
      var r := Trim(last);
      var i, j :| 0 <= i <= j <= |last| && r == last[i..j];
      SliceAvoids(last, "::", i, j);
      SliceOfSuffix(ty, last, i, j);
      r
  }

  /**
    A path written out with `::` between segments that hold no `:` maps, unless it is one
    of the scalars, to its last segment, trimmed.
   */
  lemma DartTypeOfPath(segs: seq<string>)
    requires |segs| > 0
    requires PiecesAvoid(segs, ':')
    ensures !IsScalar(Join(segs, "::")) ==> DartType(Join(segs, "::")) == Trim(segs[|segs| - 1])
  {
    LastPieceOfJoin(segs, "::");
  }

  /** A slice of a string that avoids `sep` avoids it too. */
  lemma SliceAvoids(s: string, sep: string, i: nat, j: nat)
    requires i <= j <= |s| && !Contains(s, sep)
    ensures !Contains(s[i..j], sep)
  {
    forall k: nat | OccursAt(s[i..j], sep, k) ensures false {
      var u := s[i..j][k..k + |sep|];
      var w := s[i + k..i + k + |sep|];
      assert forall m :: 0 <= m < |sep| ==> u[m] == w[m];
      assert OccursAt(s, sep, i + k);
    }
  }

  lemma SliceOfSuffix(s: string, suffix: string, i: nat, j: nat)
    requires EndsWith(s, suffix) && i <= j <= |suffix|
    ensures Contains(s, suffix[i..j])
  {
    var d := |s| - |suffix|;
    assert s[d + i..d + i + (j - i)] == suffix[i..j];
    assert OccursAt(s, suffix[i..j], d + i);
  }

  /** The Dart statements that build the argument blob for a serialized value (see the Framing module). */
  function SerializedCast(variable: string): string
  {
    "(){\n      final data = " + (variable + ".bincodeSerialize()") + SerializedCastTail()
  }

  function SerializedCastTail(): string
  {
    SerializedCastBody() + "}()"
  }

  function SerializedCastBody(): string
  {
    ";\n" +
    "      final blob = calloc<Uint8>(data.length + 8);\n" +
    "      final blobBytes = blob.asTypedList(data.length + 8);\n" +
    "      final payloadLength = Int64List(1);\n" +
    "      payloadLength.setAll(0, [data.length + 8]);\n" +
    "      blobBytes.setAll(0, payloadLength);\n" +
    "      blobBytes.setAll(8, data);\n" +
    "      print(blobBytes.buffer.asInt8List());\n" +
    "      return blob;\n" +
    "    "
  }

  /**
    `cast_dart_type_to_c`: the Dart expression handed to the C function. Scalars are the
    variable itself or a conversion of it; any other value is serialized inside an
    immediately invoked closure.
   */
  function CastDartTypeToC(ty: string, variable: string): (r: string)
    ensures IsScalar(ty) ==> StartsWith(r, variable)
  {
    if ty == "String" then
      StartsWithConcat(variable, ".toNativeUtf8().cast<Int8>()");
      variable + ".toNativeUtf8().cast<Int8>()"
    else if ty == "i64" || ty == "f64" then
      assert variable[..|variable|] == variable;
      variable
    else if ty == "bool" then
      StartsWithConcat(variable, " ? 1 : 0");
      variable + " ? 1 : 0"
    else
      assert !IsScalar(ty);
      SerializedCast(variable)
  }

  /** A value of any other type is passed as the blob its `bincodeSerialize()` call builds. */
  lemma SerializedArgument(ty: string, variable: string)
    requires !IsScalar(ty)
    ensures Contains(CastDartTypeToC(ty, variable), variable + ".bincodeSerialize()")
    ensures EndsWith(CastDartTypeToC(ty, variable), "}()")
  {
    SerializedCastShape(variable);
  }

  /** The serializing closure mentions the serialization call and ends by invoking itself. */
  lemma SerializedCastShape(variable: string)
    ensures Contains(SerializedCast(variable), variable + ".bincodeSerialize()")
    ensures EndsWith(SerializedCast(variable), "}()")
  {
    var head := "(){\n      final data = ";
    var call := variable + ".bincodeSerialize()";
    ContainsMiddle(head, call, SerializedCastTail());
    EndsWithConcat(SerializedCastBody(), "}()");
    EndsWithAppend(head + call, SerializedCastTail(), "}()");
  }

  /** One outer Dart parameter: `{dart_type} {variable}`. */
  function DartParam(input: Input): string
  {
    DartType(input.rustType) + " " + input.variable
  }

  /** One conversion statement: `var c{variable} = {cast}`. */
  function DartTransform(input: Input): string
  {
    "var c" + input.variable + " = " + CastDartTypeToC(input.rustType, input.variable)
  }

  /** One argument passed to the C function: `c{variable}`. */
  function DartArg(input: Input): string
  {
    "c" + input.variable
  }

  /** The transform of an input binds exactly the name its argument passes on. */
  lemma TransformBindsArg(input: Input)
    ensures StartsWith(DartTransform(input), "var " + DartArg(input) + " = ")
  {
    BindingPrefix(input.variable, CastDartTypeToC(input.rustType, input.variable));
  }

  lemma BindingPrefix(variable: string, cast: string)
    ensures StartsWith("var c" + variable + " = " + cast, "var " + ("c" + variable) + " = ")
  {
    var prefix := "var " + ("c" + variable) + " = ";
    assert prefix == "var c" + variable + " = ";
    StartsWithConcat(prefix, cast);
  }

  /** The element functions mapped over the inputs. */
  function DartParamList(inputs: seq<Input>): seq<string>
  {
    seq(|inputs|, i requires 0 <= i < |inputs| => DartParam(inputs[i]))
  }

  function DartTransformList(inputs: seq<Input>): seq<string>
  {
    seq(|inputs|, i requires 0 <= i < |inputs| => DartTransform(inputs[i]))
  }

  function DartArgList(inputs: seq<Input>): seq<string>
  {
    seq(|inputs|, i requires 0 <= i < |inputs| => DartArg(inputs[i]))
  }

  /** `DartParams::from`: one parameter per input, in input order. */
  method DartParams(inputs: seq<Input>) returns (stream: seq<string>)
    ensures stream == DartParamList(inputs)
  {
    stream := [];
    for k := 0 to |inputs|
      invariant |stream| == k
      invariant forall i :: 0 <= i < k ==> stream[i] == DartParam(inputs[i])
    {
      stream := stream + [DartParam(inputs[k])];
    }
  }

  /** `DartTransforms::from`: one conversion per input, in input order. */
  method DartTransforms(inputs: seq<Input>) returns (stream: seq<string>)
    ensures stream == DartTransformList(inputs)
  {
    stream := [];
    for k := 0 to |inputs|
      invariant |stream| == k
      invariant forall i :: 0 <= i < k ==> stream[i] == DartTransform(inputs[i])
    {
      stream := stream + [DartTransform(inputs[k])];
    }
  }

  /** `DartArgs::from`: one argument per input, in input order. */
  method DartArgs(inputs: seq<Input>) returns (stream: seq<string>)
    ensures stream == DartArgList(inputs)
  {
    stream := [];
    for k := 0 to |inputs|
      invariant |stream| == k
      invariant forall i :: 0 <= i < k ==> stream[i] == DartArg(inputs[i])
    {
      stream := stream + [DartArg(inputs[k])];
    }
  }
}
