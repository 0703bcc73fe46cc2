/** The records shared by the macro and the generator (membrane_types/src/lib.rs). */
module MembraneTypes {
  import Syn

  /** One argument of an exported function: its name, its type as compact text, and its syntax tree. */
  datatype Input = Input(variable: string, rustType: string, ty: Syn.Type)

  /** How a function delivers its result to Dart. */
  datatype OutputStyle =
    | EmitterSerialized
    | EmitterStreamSerialized
    | StreamSerialized
    | Serialized

  /** The four argument types passed across the C boundary as plain values rather than serialized blobs. */
  predicate IsScalar(rustType: string)
  {
    rustType == "String" || rustType == "i64" || rustType == "f64" || rustType == "bool"
  }
}
