/** `extract_type_from_option` (membrane_types/src/utils.rs): the `T` of an `Option<T>` type. */
module TypeUtils {
  import opened Wrappers
  import opened Syn

  /** Each identifier followed by `|`, all written together (the fold over the path segments). */
  function IdentsOfPath(segments: seq<Segment>): string
  {
    Terminated(Idents(segments))
  }

  function Terminated(xs: seq<string>): string
  {
    if xs == [] then "" else xs[0] + "|" + Terminated(xs[1..])
  }

  /** The three spellings of the option type the matcher recognises. */
  predicate IsOptionPath(segments: seq<Segment>)
  {
    var folded := IdentsOfPath(segments);
    folded == "Option|" || folded == "std|option|Option|" || folded == "core|option|Option|"
  }

  function ExtractTypeFromOption(ty: Type): (r: Option<Type>)
    ensures r.Some? ==> ty.PathType? && !ty.qself && IsOptionPath(ty.segments) && |ty.segments| > 0
    ensures r.Some? ==> var last := ty.segments[|ty.segments| - 1];
                        last.arguments.AngleBracketed? && |last.arguments.args| > 0 &&
                        last.arguments.args[0] == TypeArg(r.value)
    ensures (ty.PathType? && !ty.qself && IsOptionPath(ty.segments) && |ty.segments| > 0 &&
             ty.segments[|ty.segments| - 1].arguments.AngleBracketed? &&
             |ty.segments[|ty.segments| - 1].arguments.args| > 0 &&
             ty.segments[|ty.segments| - 1].arguments.args[0].TypeArg?) ==> r.Some?
  {
    if ty.PathType? && !ty.qself && IsOptionPath(ty.segments) && |ty.segments| > 0 then
      match ty.segments[|ty.segments| - 1].arguments
      case AngleBracketed(args) =>
        if |args| > 0 && args[0].TypeArg? then Some(args[0].ty) else None
      case _ => None
    else None
  }

  /** A Rust identifier never contains `|`. */
  predicate BarFree(xs: seq<string>)
  {
    forall i, j :: 0 <= i < |xs| && 0 <= j < |xs[i]| ==> xs[i][j] != '|'
  }

  lemma {:induction false} TerminatedInjective(xs: seq<string>, ys: seq<string>)
    requires BarFree(xs) && BarFree(ys) && Terminated(xs) == Terminated(ys)
    ensures xs == ys
    decreases |xs|
  {
    if xs != [] && ys != [] {
      var s := Terminated(xs);
      var x, y := xs[0], ys[0];
      assert s == x + "|" + Terminated(xs[1..]);
      assert s == y + "|" + Terminated(ys[1..]);
      assert |x| == |y| by {
        FirstBar(x, Terminated(xs[1..]));
        FirstBar(y, Terminated(ys[1..]));
      }
      assert x == s[..|x|] == y;
      assert Terminated(xs[1..]) == s[|x| + 1..] == Terminated(ys[1..]);
      TerminatedInjective(xs[1..], ys[1..]);
      assert xs == [x] + xs[1..] && ys == [y] + ys[1..];
    }
  }

  /** In `x + "|" + t` with `x` free of `|`, the first `|` is at index `|x|`. */
  lemma FirstBar(x: string, t: string)
    requires forall j :: 0 <= j < |x| ==> x[j] != '|'
    ensures (x + "|" + t)[|x|] == '|'
    ensures forall j :: 0 <= j < |x| ==> (x + "|" + t)[j] != '|'
  {
  }

  lemma OptionSpellings()
    ensures Terminated(["Option"]) == "Option|"
    ensures Terminated(["std", "option", "Option"]) == "std|option|Option|"
    ensures Terminated(["core", "option", "Option"]) == "core|option|Option|"
  {
    assert Terminated(["Option"]) == "Option" + "|" + Terminated([]);
    assert ["std", "option", "Option"][1..] == ["option", "Option"];
    assert ["option", "Option"][1..] == ["Option"];
    assert ["core", "option", "Option"][1..] == ["option", "Option"];
  }

  /**
    The matcher accepts exactly the paths `Option`, `std::option::Option` and
    `core::option::Option`: with identifiers free of `|` the folded text is unambiguous.
   */
  lemma OptionPathExact(segments: seq<Segment>)
    requires BarFree(Idents(segments))
    ensures IsOptionPath(segments) <==>
      Idents(segments) in {["Option"], ["std", "option", "Option"], ["core", "option", "Option"]}
  {
    OptionSpellings();
    var ids := Idents(segments);
    assert BarFree(["Option"]) && BarFree(["std", "option", "Option"]) && BarFree(["core", "option", "Option"]);
    if Terminated(ids) == "Option|" {
      TerminatedInjective(ids, ["Option"]);
    } else if Terminated(ids) == "std|option|Option|" {
      TerminatedInjective(ids, ["std", "option", "Option"]);
    } else if Terminated(ids) == "core|option|Option|" {
      TerminatedInjective(ids, ["core", "option", "Option"]);
    }
  }

  /** `Option<i32>` and `std::option::Option<i32>` yield `i32`; `Result<..>` and `foo::Option<..>` yield nothing. */
  lemma ExtractTypeExamples(inner: Type)
    ensures ExtractTypeFromOption(Generic("Option", [inner])) == Some(inner)
    ensures ExtractTypeFromOption(Generic("Result", [inner, inner])).None?
    ensures ExtractTypeFromOption(PathType(true, [Segment("Option", AngleBracketed([TypeArg(inner)]))])).None?
    ensures ExtractTypeFromOption(PathType(false, [Segment("foo", NoArguments),
                                                   Segment("Option", AngleBracketed([TypeArg(inner)]))])).None?
  {
    OptionSpellings();
    var foo := [Segment("foo", NoArguments), Segment("Option", AngleBracketed([TypeArg(inner)]))];
    assert Idents(foo) == ["foo", "Option"];
    assert Idents([Segment("Option", AngleBracketed([TypeArg(inner)]))]) == ["Option"];
    assert Idents(Generic("Result", [inner, inner]).segments) == ["Result"];
    OptionPathExact(foo);
    OptionPathExact(Generic("Result", [inner, inner]).segments);
  }
}
