/**
  The import closure of a borrowed type (membrane/src/generators/imports.rs).

  When a namespace borrows `other::T`, the generated Dart file must import `T`
  and every type `T` reaches. `WithChildBorrows` computes that list from the
  traced registry of the owning namespace, children first and `T` last.
  Termination: the source recurses without a visited set, so the model is
  defined on registries whose recursion edges are acyclic, witnessed by a
  ghost rank map (`Ranked`).
 */
module Imports {
  import opened Wrappers
  import opened Registry

  /** Why a borrow cannot be resolved; the generator logs these and exits. */
  datatype BorrowError =
    | UnknownNamespace(namespace: string, ty: string)
    | UnknownType(namespace: string, ty: string)
    | Unhandled(ty: string)   // a unit or tuple struct: `unreachable!` in the source

  /** The type names a field shape refers to, or None for shapes that are never imported. */
  function ExtractName(f: Format): Option<seq<string>>
  {
    match f
    case TypeName(n) => Some([n])
    case OptionOf(g) => ExtractName(g)
    case Seq(g) => ExtractName(g)
    case Tuple(items) => Some(TupleNames(items))
    case _ => None
  }

  /** `filter_map(extract_name).flatten()` over a tuple's item shapes. */
  function TupleNames(items: seq<Format>): seq<string>
  {
    if items == [] then [] else OrEmpty(ExtractName(items[0])) + TupleNames(items[1..])
  }

  function OrEmpty(o: Option<seq<string>>): seq<string>
  {
    match o
    case Some(names) => names
    case None => []
  }

  /** `filter_map(filter_named).flatten()` over a struct's fields. */
  function FieldNames(fields: seq<Named<Format>>): seq<string>
  {
    if fields == [] then [] else OrEmpty(ExtractName(fields[0].value)) + FieldNames(fields[1..])
  }

  /** Independent reference: the type names reachable through option, sequence and tuple nodes. */
  function MentionedNames(f: Format): set<string>
  {
    match f
    case TypeName(n) => {n}
    case OptionOf(g) => MentionedNames(g)
    case Seq(g) => MentionedNames(g)
    case Tuple(items) => set i, n | 0 <= i < |items| && n in MentionedNames(items[i]) :: n
    case _ => {}
  }

  /** ExtractName lists exactly the reachable names; when it declines, none are reachable. */
  lemma {:induction false} ExtractNameMentions(f: Format)
    ensures ExtractName(f).Some? ==> (set n | n in ExtractName(f).value) == MentionedNames(f)
    ensures ExtractName(f).None? ==> MentionedNames(f) == {}
    decreases f, 1
  {
    match f
    case TypeName(n) =>
    case OptionOf(g) => ExtractNameMentions(g);
    case Seq(g) => ExtractNameMentions(g);
    case Tuple(items) =>
      TupleNamesMentions(items);
      assert forall n :: n in MentionedNames(f) <==>
        exists i :: 0 <= i < |items| && n in MentionedNames(items[i]);
    case Primitive(_) =>
    case MapOf(_, _) =>
    case TupleArray(_, _) =>
  }

  lemma {:induction false} TupleNamesMentions(items: seq<Format>)
    ensures forall n :: n in TupleNames(items) <==>
      exists i :: 0 <= i < |items| && n in MentionedNames(items[i])
    decreases items, 0
  {
    if items != [] {
      ExtractNameMentions(items[0]);
      TupleNamesMentions(items[1..]);
      forall n | n in TupleNames(items)
        ensures exists i :: 0 <= i < |items| && n in MentionedNames(items[i])
      {
        if n !in OrEmpty(ExtractName(items[0])) {
          assert n in TupleNames(items[1..]);
          var j :| 0 <= j < |items[1..]| && n in MentionedNames(items[1..][j]);
          assert items[1..][j] == items[j + 1];
        }
      }
      forall n, i | 0 <= i < |items| && n in MentionedNames(items[i])
        ensures n in TupleNames(items)
      {
        if i > 0 {
          assert items[1..][i - 1] == items[i];
        }
      }
    }
  }

  /** The names a NewType variant payload sends into recursion: none when they mention the enum itself. */
  function VariantRecursed(ty: string, v: VariantFormat): seq<string>
  {
    match v
    case NewType(f) =>
      (match ExtractName(f)
       case Some(names) => if ty in names then [] else names
       case None => [])
    case _ => []
  }

  function EnumRecursed(ty: string, variants: seq<Named<VariantFormat>>): seq<string>
  {
    if variants == [] then [] else VariantRecursed(ty, variants[0].value) + EnumRecursed(ty, variants[1..])
  }

  /** Every name the algorithm recurses into from the registered type `ty`. */
  function Recursed(reg: Registry, ty: string): seq<string>
    requires ty in reg
  {
    match reg[ty]
    case Struct(fields) => FieldNames(fields)
    case Enum(variants) => EnumRecursed(ty, variants)
    case NewTypeStruct(f) => OrEmpty(ExtractName(f))
    case _ => []
  }

  function RankOf(reg: Registry, rank: map<string, nat>, ty: string): nat
  {
    if ty in reg && ty in rank then rank[ty] + 1 else 0
  }

  predicate Below(reg: Registry, rank: map<string, nat>, names: seq<string>, bound: nat)
  {
    forall c :: c in names ==> RankOf(reg, rank, c) < bound
  }

  /** `rank` strictly decreases along every recursion edge: the recursion is finite. */
  predicate Ranked(reg: Registry, rank: map<string, nat>)
  {
    forall ty :: ty in reg ==> Below(reg, rank, Recursed(reg, ty), RankOf(reg, rank, ty))
  }

  /** The enum's extension class name imported for a C-style enum. */
  function ExtensionName(ty: string): string
  {
    ty + "Extension"
  }

  /** The only ways a closure inside a known namespace fails: a name missing from it, or a unit or tuple struct. */
  predicate Failure(reg: Registry, ns: string, e: BorrowError)
  {
    || (e.UnknownType? && e.namespace == ns && e.ty !in reg)
    || (e.Unhandled? && e.ty in reg && (reg[e.ty].UnitStruct? || reg[e.ty].TupleStruct?))
  }

  /** with_child_borrows: look the namespace up, then compute the closure of `ty`. */
  function WithChildBorrows(namespaced: map<string, Result<Registry, string>>, cStyleEnums: bool,
                            ns: string, ty: string, ghost rank: map<string, nat>)
    : (r: Result<seq<string>, BorrowError>)
    requires ns in namespaced && namespaced[ns].Ok? ==> Ranked(namespaced[ns].value, rank)
    ensures !(ns in namespaced && namespaced[ns].Ok?) <==> r == Err(UnknownNamespace(ns, ty))
    ensures r.Ok? ==> |r.value| > 0 && r.value[|r.value| - 1] == ty
  {
    if ns in namespaced && namespaced[ns].Ok? then Borrows(namespaced[ns].value, cStyleEnums, ns, ty, rank)
    else Err(UnknownNamespace(ns, ty))
  }

  /** The closure of `ty` within one namespace's registry: children in order, then `ty`. */
  function Borrows(reg: Registry, cStyleEnums: bool, ns: string, ty: string, ghost rank: map<string, nat>)
    : (r: Result<seq<string>, BorrowError>)
    requires Ranked(reg, rank)
    ensures r.Ok? ==> |r.value| > 0 && r.value[|r.value| - 1] == ty
    ensures ty !in reg <==> r == Err(UnknownType(ns, ty))
    ensures r.Err? ==> Failure(reg, ns, r.error)
    decreases RankOf(reg, rank, ty), 2, 0
  {
    if ty !in reg then Err(UnknownType(ns, ty))
    else
      var children := match reg[ty]
        case Struct(fields) => BorrowsAll(reg, cStyleEnums, ns, FieldNames(fields), RankOf(reg, rank, ty), rank)
        case Enum(variants) =>
          (match VariantBorrows(reg, cStyleEnums, ns, ty, variants, RankOf(reg, rank, ty), rank)
           case Err(e) => Err(e)
           case Ok(xs) => Ok(xs + if cStyleEnums && AllUnit(variants) then [ExtensionName(ty)] else []))
        case NewTypeStruct(f) =>
          (match ExtractName(f)
           case Some(names) => BorrowsAll(reg, cStyleEnums, ns, names, RankOf(reg, rank, ty), rank)
           case None => Ok([]))
        case _ => Err(Unhandled(ty));
      match children
      case Err(e) => Err(e)
      case Ok(xs) => Ok(xs + [ty])
  }

  /** `flat_map(with_child_borrows)` over a list of names; the first failure stops the process. */
  function BorrowsAll(reg: Registry, cStyleEnums: bool, ns: string, names: seq<string>, ghost bound: nat,
                      ghost rank: map<string, nat>)
    : (r: Result<seq<string>, BorrowError>)
    requires Ranked(reg, rank) && Below(reg, rank, names, bound)
    ensures r.Err? ==> Failure(reg, ns, r.error)
    decreases bound, 0, |names|
  {
    if names == [] then Ok([])
    else
      match Borrows(reg, cStyleEnums, ns, names[0], rank)
      case Err(e) => Err(e)
      case Ok(xs) =>
        match BorrowsAll(reg, cStyleEnums, ns, names[1..], bound, rank)
        case Err(e) => Err(e)
        case Ok(ys) => Ok(xs + ys)
  }

  /** The enum arm: struct variants contribute their field names as they are, new types recurse. */
  function VariantBorrows(reg: Registry, cStyleEnums: bool, ns: string, ty: string,
                          variants: seq<Named<VariantFormat>>, ghost bound: nat, ghost rank: map<string, nat>)
    : (r: Result<seq<string>, BorrowError>)
    requires Ranked(reg, rank) && Below(reg, rank, EnumRecursed(ty, variants), bound)
    ensures r.Err? ==> Failure(reg, ns, r.error)
    decreases bound, 1, |variants|
  {
    if variants == [] then Ok([])
    else
      var head := match variants[0].value
        case StructVariant(fields) => Ok(FieldNames(fields))
        case NewType(_) =>
          (var names := VariantRecursed(ty, variants[0].value);
           BorrowsAll(reg, cStyleEnums, ns, names, bound, rank))
        case _ => Ok([]);
      match head
      case Err(e) => Err(e)
      case Ok(xs) =>
        match VariantBorrows(reg, cStyleEnums, ns, ty, variants[1..], bound, rank)
        case Err(e) => Err(e)
        case Ok(ys) => Ok(xs + ys)
  }
}

module ImportsProperties {
  import opened Wrappers
  import opened Registry
  import opened Imports

  /** Every borrowed name of a list appears, with its own closure, in the combined list. */
  lemma {:induction false} BorrowsAllIncludes(reg: Registry, cs: bool, ns: string, names: seq<string>,
                                             bound: nat, rank: map<string, nat>, c: string)
    requires Ranked(reg, rank) && Below(reg, rank, names, bound)
    requires BorrowsAll(reg, cs, ns, names, bound, rank).Ok? && c in names
    ensures Borrows(reg, cs, ns, c, rank).Ok?
    ensures forall y :: y in Borrows(reg, cs, ns, c, rank).value ==> y in BorrowsAll(reg, cs, ns, names, bound, rank).value
    decreases |names|
  {
    if c != names[0] {
      BorrowsAllIncludes(reg, cs, ns, names[1..], bound, rank, c);
    }
  }

  /** A struct's closure contains the whole closure of every type its fields name. */
  lemma StructBorrowsFields(reg: Registry, cs: bool, ns: string, ty: string, rank: map<string, nat>, c: string)
    requires Ranked(reg, rank) && ty in reg && reg[ty].Struct?
    requires Borrows(reg, cs, ns, ty, rank).Ok? && c in FieldNames(reg[ty].fields)
    ensures Borrows(reg, cs, ns, c, rank).Ok?
    ensures forall y :: y in Borrows(reg, cs, ns, c, rank).value ==> y in Borrows(reg, cs, ns, ty, rank).value
  {
    BorrowsAllIncludes(reg, cs, ns, FieldNames(reg[ty].fields), RankOf(reg, rank, ty), rank, c);
  }

  /**
    A new type struct whose payload names no type (a primitive, a map, a fixed array)
    imports only itself.
   */
  lemma NewTypeStructPrimitive(reg: Registry, cs: bool, ns: string, ty: string, rank: map<string, nat>)
    requires Ranked(reg, rank) && ty in reg && reg[ty].NewTypeStruct? && ExtractName(reg[ty].payload).None?
    ensures Borrows(reg, cs, ns, ty, rank) == Ok([ty])
  {
    assert [] + [ty] == [ty];
  }

  /** A new type struct's closure contains the whole closure of every type its payload names. */
  lemma NewTypeStructBorrowsPayload(reg: Registry, cs: bool, ns: string, ty: string, rank: map<string, nat>, c: string)
    requires Ranked(reg, rank) && ty in reg && reg[ty].NewTypeStruct?
    requires Borrows(reg, cs, ns, ty, rank).Ok? && c in OrEmpty(ExtractName(reg[ty].payload))
    ensures Borrows(reg, cs, ns, c, rank).Ok?
    ensures forall y :: y in Borrows(reg, cs, ns, c, rank).value ==> y in Borrows(reg, cs, ns, ty, rank).value
  {
    BorrowsAllIncludes(reg, cs, ns, ExtractName(reg[ty].payload).value, RankOf(reg, rank, ty), rank, c);
  }

  lemma {:induction false} VariantBorrowsNewTypeIncludes(reg: Registry, cs: bool, ns: string, ty: string,
                                                        variants: seq<Named<VariantFormat>>, bound: nat,
                                                        rank: map<string, nat>, i: nat, c: string)
    requires Ranked(reg, rank) && Below(reg, rank, EnumRecursed(ty, variants), bound)
    requires VariantBorrows(reg, cs, ns, ty, variants, bound, rank).Ok?
    requires i < |variants| && c in VariantRecursed(ty, variants[i].value)
    ensures Borrows(reg, cs, ns, c, rank).Ok?
    ensures forall y :: y in Borrows(reg, cs, ns, c, rank).value ==>
      y in VariantBorrows(reg, cs, ns, ty, variants, bound, rank).value
    decreases |variants|
  {
    var names := VariantRecursed(ty, variants[0].value);
    assert EnumRecursed(ty, variants) == names + EnumRecursed(ty, variants[1..]);
    if i > 0 {
      assert variants[1..][i - 1] == variants[i];
      VariantBorrowsNewTypeIncludes(reg, cs, ns, ty, variants[1..], bound, rank, i - 1, c);
    } else {
      assert variants[0].value.NewType?;
      BorrowsAllIncludes(reg, cs, ns, names, bound, rank, c);
    }
  }

  /**
    A new type variant of an enum that does not mention the enum itself brings the whole
    closure of every type its payload names into the enum's closure.
   */
  lemma EnumNewTypeVariantBorrows(reg: Registry, cs: bool, ns: string, ty: string, rank: map<string, nat>,
                                  i: nat, c: string)
    requires Ranked(reg, rank) && ty in reg && reg[ty].Enum?
    requires Borrows(reg, cs, ns, ty, rank).Ok?
    requires i < |reg[ty].variants| && c in VariantRecursed(ty, reg[ty].variants[i].value)
    ensures Borrows(reg, cs, ns, c, rank).Ok?
    ensures forall y :: y in Borrows(reg, cs, ns, c, rank).value ==> y in Borrows(reg, cs, ns, ty, rank).value
  {
    VariantBorrowsNewTypeIncludes(reg, cs, ns, ty, reg[ty].variants, RankOf(reg, rank, ty), rank, i, c);
  }

  lemma {:induction false} VariantBorrowsIncludes(reg: Registry, cs: bool, ns: string, ty: string,
                                                 variants: seq<Named<VariantFormat>>, bound: nat,
                                                 rank: map<string, nat>, i: nat, c: string)
    requires Ranked(reg, rank) && Below(reg, rank, EnumRecursed(ty, variants), bound)
    requires VariantBorrows(reg, cs, ns, ty, variants, bound, rank).Ok?
    requires i < |variants| && variants[i].value.StructVariant? && c in FieldNames(variants[i].value.fields)
    ensures c in VariantBorrows(reg, cs, ns, ty, variants, bound, rank).value
    decreases |variants|
  {
    if i > 0 {
      VariantBorrowsIncludes(reg, cs, ns, ty, variants[1..], bound, rank, i - 1, c);
    }
  }

  /**
    An enum's struct variants contribute the names of their fields as they are: those names
    are imported but not expanded, and they need not be registered.
   */
  lemma EnumStructVariantNames(reg: Registry, cs: bool, ns: string, ty: string, rank: map<string, nat>,
                               i: nat, c: string)
    requires Ranked(reg, rank) && ty in reg && reg[ty].Enum?
    requires Borrows(reg, cs, ns, ty, rank).Ok?
    requires i < |reg[ty].variants| && reg[ty].variants[i].value.StructVariant?
    requires c in FieldNames(reg[ty].variants[i].value.fields)
    ensures c in Borrows(reg, cs, ns, ty, rank).value
  {
    VariantBorrowsIncludes(reg, cs, ns, ty, reg[ty].variants, RankOf(reg, rank, ty), rank, i, c);
  }

  lemma {:induction false} VariantBorrowsEmpty(reg: Registry, cs: bool, ns: string, ty: string,
                                              variants: seq<Named<VariantFormat>>, bound: nat,
                                              rank: map<string, nat>)
    requires Ranked(reg, rank) && Below(reg, rank, EnumRecursed(ty, variants), bound)
    requires forall i :: 0 <= i < |variants| ==>
      !variants[i].value.StructVariant? && VariantRecursed(ty, variants[i].value) == []
    ensures VariantBorrows(reg, cs, ns, ty, variants, bound, rank) == Ok([])
    decreases |variants|
  {
    if variants != [] {
      VariantBorrowsEmpty(reg, cs, ns, ty, variants[1..], bound, rank);
    }
  }

  /**
    An enum with no struct variant and no new type variant that recurses (unit variants, tuple
    variants, new types over primitives or over the enum itself) imports only itself, preceded by
    its extension exactly when C-style enums are enabled and every variant is a unit variant.
   */
  lemma LeafEnumBorrows(reg: Registry, cs: bool, ns: string, ty: string, rank: map<string, nat>)
    requires Ranked(reg, rank) && ty in reg && reg[ty].Enum?
    requires forall i :: 0 <= i < |reg[ty].variants| ==>
      !reg[ty].variants[i].value.StructVariant? && VariantRecursed(ty, reg[ty].variants[i].value) == []
    ensures Borrows(reg, cs, ns, ty, rank) ==
      Ok((if cs && AllUnit(reg[ty].variants) then [ExtensionName(ty)] else []) + [ty])
  {
    var variants := reg[ty].variants;
    VariantBorrowsEmpty(reg, cs, ns, ty, variants, RankOf(reg, rank, ty), rank);
    var ext := if cs && AllUnit(variants) then [ExtensionName(ty)] else [];
    assert [] + ext == ext;
  }

  /** A C-style enum imports its extension and itself, or only itself when C-style enums are disabled. */
  lemma CStyleEnumBorrows(reg: Registry, cs: bool, ns: string, ty: string, rank: map<string, nat>)
    requires Ranked(reg, rank) && IsCStyleEnum(reg, ty)
    ensures cs ==> Borrows(reg, cs, ns, ty, rank) == Ok([ExtensionName(ty), ty])
    ensures !cs ==> Borrows(reg, cs, ns, ty, rank) == Ok([ty])
  {
    forall i | 0 <= i < |reg[ty].variants|
      ensures !reg[ty].variants[i].value.StructVariant? && VariantRecursed(ty, reg[ty].variants[i].value) == []
    {
      assert reg[ty].variants[i].value.UnitVariant?;
    }
    LeafEnumBorrows(reg, cs, ns, ty, rank);
    assert [ExtensionName(ty)] + [ty] == [ExtensionName(ty), ty];
    assert [] + [ty] == [ty];
  }

  /** `x` is the field name of a struct variant of some registered enum. */
  ghost predicate StructVariantField(reg: Registry, x: string)
  {
    exists ty, i :: ty in reg && reg[ty].Enum? && 0 <= i < |reg[ty].variants| &&
      reg[ty].variants[i].value.StructVariant? && x in FieldNames(reg[ty].variants[i].value.fields)
  }

  /** The names an import list may hold. */
  ghost predicate Admissible(reg: Registry, cs: bool, x: string)
  {
    || x in reg
    || StructVariantField(reg, x)
    || (cs && exists e :: IsCStyleEnum(reg, e) && x == ExtensionName(e))
  }

  /**
    Soundness of the closure: every imported name is registered, or is named by a field of an
    enum's struct variant, or is the extension of a C-style enum while C-style enums are enabled.
   */
  lemma {:induction false} BorrowsSound(reg: Registry, cs: bool, ns: string, ty: string, rank: map<string, nat>)
    requires Ranked(reg, rank)
    ensures Borrows(reg, cs, ns, ty, rank).Ok? ==>
      forall x :: x in Borrows(reg, cs, ns, ty, rank).value ==> Admissible(reg, cs, x)
    decreases RankOf(reg, rank, ty), 2, 0
  {
    if ty in reg {
      var bound := RankOf(reg, rank, ty);
      match reg[ty]
      case Struct(fields) => BorrowsAllSound(reg, cs, ns, FieldNames(fields), bound, rank);
      case NewTypeStruct(f) =>
        if ExtractName(f).Some? {
          BorrowsAllSound(reg, cs, ns, ExtractName(f).value, bound, rank);
        }
      case Enum(variants) =>
        VariantBorrowsSound(reg, cs, ns, ty, variants, bound, rank);
        if cs && AllUnit(variants) {
          assert IsCStyleEnum(reg, ty);
        }
      case UnitStruct =>
      case TupleStruct(_) =>
    }
  }

  lemma {:induction false} BorrowsAllSound(reg: Registry, cs: bool, ns: string, names: seq<string>,
                                          bound: nat, rank: map<string, nat>)
    requires Ranked(reg, rank) && Below(reg, rank, names, bound)
    ensures BorrowsAll(reg, cs, ns, names, bound, rank).Ok? ==>
      forall x :: x in BorrowsAll(reg, cs, ns, names, bound, rank).value ==> Admissible(reg, cs, x)
    decreases bound, 0, |names|
  {
    if names != [] {
      BorrowsSound(reg, cs, ns, names[0], rank);
      BorrowsAllSound(reg, cs, ns, names[1..], bound, rank);
    }
  }

  lemma {:induction false} VariantBorrowsSound(reg: Registry, cs: bool, ns: string, ty: string,
                                              variants: seq<Named<VariantFormat>>, bound: nat,
                                              rank: map<string, nat>)
    requires Ranked(reg, rank) && Below(reg, rank, EnumRecursed(ty, variants), bound)
    requires ty in reg && reg[ty].Enum? && forall v :: v in variants ==> v in reg[ty].variants
    ensures VariantBorrows(reg, cs, ns, ty, variants, bound, rank).Ok? ==>
      forall x :: x in VariantBorrows(reg, cs, ns, ty, variants, bound, rank).value ==> Admissible(reg, cs, x)
    decreases bound, 1, |variants|
  {
    if variants != [] {
      VariantBorrowsSound(reg, cs, ns, ty, variants[1..], bound, rank);
      match variants[0].value
      case StructVariant(fields) =>
        assert variants[0] in reg[ty].variants;
        var i :| 0 <= i < |reg[ty].variants| && reg[ty].variants[i] == variants[0];
        forall x | x in FieldNames(fields) ensures StructVariantField(reg, x) {
          assert reg[ty].variants[i].value.StructVariant?;
        }
      case NewType(_) =>
        BorrowsAllSound(reg, cs, ns, VariantRecursed(ty, variants[0].value), bound, rank);
      case UnitVariant =>
      case TupleVariant(_) =>
    }
  }

  /**
    The example application's `accounts` namespace: `Contact { id: u64, name: String, status: Status }`
    with the C-style enum `Status { Pending, Active }`. Borrowing `Contact` imports the extension
    of `Status`, `Status` and `Contact`, in that order.
   */
  lemma ContactBorrows()
    ensures var status := Enum([Named("Pending", UnitVariant), Named("Active", UnitVariant)]);
            var contact := Struct([Named("id", Primitive("u64")), Named("name", Primitive("str")),
                                   Named("status", TypeName("Status"))]);
            var reg := map["Status" := status, "Contact" := contact];
            var rank := map["Status" := 0, "Contact" := 1];
            Ranked(reg, rank) &&
            Borrows(reg, true, "accounts", "Contact", rank) == Ok(["StatusExtension", "Status", "Contact"])
  {
    var status := Enum([Named("Pending", UnitVariant), Named("Active", UnitVariant)]);
    var contact := Struct([Named("id", Primitive("u64")), Named("name", Primitive("str")),
                           Named("status", TypeName("Status"))]);
    var reg := map["Status" := status, "Contact" := contact];
    var rank := map["Status" := 0, "Contact" := 1];
    assert FieldNames(contact.fields) == ["Status"];
    assert Recursed(reg, "Status") == [];
    assert Ranked(reg, rank);
    CStyleEnumBorrows(reg, true, "accounts", "Status", rank);
    StatusExtensionName();
    var statusImports := ["StatusExtension", "Status"];
    assert Borrows(reg, true, "accounts", "Status", rank) == Ok(statusImports);
    assert RankOf(reg, rank, "Contact") == 2;
    assert BorrowsAll(reg, true, "accounts", [], 2, rank) == Ok([]);
    assert BorrowsAll(reg, true, "accounts", ["Status"], 2, rank) == Ok(statusImports + []);
    assert statusImports + [] + ["Contact"] == ["StatusExtension", "Status", "Contact"];
  }

  lemma StatusExtensionName()
    ensures ExtensionName("Status") == "StatusExtension"
  {
    assert "Status" + "Extension" == "StatusExtension";
  }
}
