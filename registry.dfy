/**
  The shape descriptions that serde-reflection records for every traced type
  (its `Format`, `VariantFormat` and `ContainerFormat`), as the generator
  reads them. Tracing itself belongs to that library and is not modelled:
  a registry is an input to the generator.
 */
module Registry {

  /** The shape of one field or payload. */
  datatype Format =
    | Primitive(name: string)          // unit, bool, the integer and float widths, char, str, bytes
    | TypeName(name: string)           // a reference to another registry entry
    | OptionOf(inner: Format)
    | Seq(item: Format)
    | MapOf(key: Format, value: Format)
    | Tuple(items: seq<Format>)
    | TupleArray(content: Format, size: nat)

  /** A field name or a variant name together with its shape. */
  datatype Named<T> = Named(name: string, value: T)

  datatype VariantFormat =
    | UnitVariant
    | NewType(payload: Format)
    | TupleVariant(items: seq<Format>)
    | StructVariant(fields: seq<Named<Format>>)

  /** The shape of a registered type; an enum's variants are kept in index order. */
  datatype ContainerFormat =
    | UnitStruct
    | NewTypeStruct(payload: Format)
    | TupleStruct(items: seq<Format>)
    | Struct(fields: seq<Named<Format>>)
    | Enum(variants: seq<Named<VariantFormat>>)

  /** One namespace's registry: type name to shape. */
  type Registry = map<string, ContainerFormat>

  /** Every variant of the enum is a unit variant: a C-style enum. */
  predicate AllUnit(variants: seq<Named<VariantFormat>>)
  {
    forall i :: 0 <= i < |variants| ==> variants[i].value.UnitVariant?
  }

  /** `ty` is registered as an enum whose variants are all unit variants. */
  predicate IsCStyleEnum(reg: Registry, ty: string)
  {
    ty in reg && reg[ty].Enum? && AllUnit(reg[ty].variants)
  }
}
