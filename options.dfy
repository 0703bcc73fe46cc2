/**
  The option list of `#[async_dart(...)]` and `#[sync_dart(...)]`
  (membrane_macro/src/options.rs).

  The validator pops the LAST attribute item, folds it into an owned `Options`
  accumulator and recurses on the rest, so items are applied from right to left and
  a later (leftward) assignment overwrites an earlier one. Processing ends at the
  empty list or at the first item, counted from the right, that is not a
  `name = literal` pair; there a namespace must have been set.
 */
module MacroOptions {
  import opened Wrappers
  import opened Strings

  /** The literal on the right of `name = literal`. */
  datatype Lit =
    | Str(text: string)
    | Bool(flag: bool)
    | Int(digits: nat)   // an unsuffixed integer literal; syn has no negative literals
    | OtherLit

  /** One item of the attribute list: `name = literal` or anything else (a bare path, a list, a literal). */
  datatype NestedMeta =
    | NameValue(path: seq<string>, lit: Lit)
    | OtherMeta

  datatype Options = Options(
    namespace: string,
    disableLogging: bool,
    timeout: Option<int>,
    osThread: bool,
    borrow: seq<string>)

  /** `Options::default()`. */
  const Default := Options("", false, None, false, [])

  /** A `Rejected` failure becomes a compile error with its message; a `Panicked` one aborts the macro. */
  datatype Failure =
    | Rejected(message: string)
    | Panicked(reason: string)

  /** Largest value `base10_parse::<i32>` accepts. */
  const I32Max := 0x7fff_ffff

  function MacroName(sync: bool): string
  {
    if sync then "sync_dart" else "async_dart"
  }

  /** The message for an option that the named macro never accepts. */
  function InvalidOption(macroName: string, opt: string): (r: Result<Options, Failure>)
    ensures r.Err? && r.error.Rejected?
    ensures StartsWith(r.error.message, "`" + opt + "`")
    ensures EndsWith(r.error.message, "`" + macroName + "`")
  {
    var head := "`" + opt + "`";
    var tail := "`" + macroName + "`";
    var message := head + " is not a valid option for " + tail;
    assert message[..|head|] == head;
    EndsWithConcat(head + " is not a valid option for ", tail);
    Err(Rejected(message))
  }

  function BorrowMessage(value: string): string
  {
    "`" + value + "` is not a valid option for `borrow`, must be of the form `borrow = \"namespace::Type\"`"
  }

  const TimeoutTrueMessage := "`true` is not a valid option for `timeout`, must be an integer or `false`"
  const SyncOptionsMessage := "only `namespace=\"\"`, `borrow=\"namespace::Type\"`, and `disable_logging=true` are valid options"
  const AsyncOptionsMessage := "only `namespace=\"\"`, `borrow=\"namespace::Type\"`, `disable_logging=true`, `os_thread=true`, and `timeout=1000` are valid options"

  function MissingNamespaceMessage(sync: bool): string
  {
    "#[" + MacroName(sync) + "] expects a `namespace` attribute"
  }

  /** The names the sync macro accepts, and those the async macro accepts. */
  const SyncNames: set<string> := {"namespace", "borrow", "disable_logging"}
  const AsyncNames: set<string> := {"namespace", "borrow", "disable_logging", "os_thread", "timeout"}

  /** A `borrow` value is accepted when splitting on `::` gives exactly two parts. */
  predicate ValidBorrow(value: string)
  {
    |Split(value, "::")| == 2
  }

  /**
    Folds one `ident = lit` pair into the options. A success changes only the field
    that `ident` names, and only for a name the macro lists as valid.
   */
  function Apply(ident: string, lit: Lit, o: Options, sync: bool): (r: Result<Options, Failure>)
    ensures r.Ok? ==> ident in (if sync then SyncNames else AsyncNames)
    ensures r.Ok? ==> ident == "namespace" || r.value.namespace == o.namespace
    ensures r.Ok? && ident == "namespace" ==> lit.Str? && r.value.namespace == lit.text
    ensures r.Ok? ==> ident == "disable_logging" || r.value.disableLogging == o.disableLogging
    ensures r.Ok? ==> ident == "timeout" || r.value.timeout == o.timeout
    ensures r.Ok? ==> ident == "os_thread" || r.value.osThread == o.osThread
    ensures r.Ok? ==> ident == "borrow" || r.value.borrow == o.borrow
    ensures r.Ok? && ident == "borrow" ==> lit.Str? && ValidBorrow(lit.text) && r.value.borrow == o.borrow + [lit.text]
    ensures ident == "borrow" && lit.Str? && !ValidBorrow(lit.text) ==> r == Err(Rejected(BorrowMessage(lit.text)))
  {
    if ident == "namespace" && lit.Str? then
      Ok(o.(namespace := lit.text))
    else if ident == "borrow" && lit.Str? then
      if ValidBorrow(lit.text) then Ok(o.(borrow := o.borrow + [lit.text]))
      else Err(Rejected(BorrowMessage(lit.text)))
    else if ident == "disable_logging" && lit.Bool? then
      Ok(o.(disableLogging := lit.flag))
    else if ident == "timeout" && !sync && lit.Int? then
      if lit.digits > I32Max then Err(Panicked("number too large to fit in target type"))
      else Ok(o.(timeout := Some(lit.digits)))
    else if ident == "timeout" && !sync && lit.Bool? then
      if lit.flag then Err(Rejected(TimeoutTrueMessage)) else Ok(o.(timeout := Some(-1)))
    else if ident == "os_thread" && sync then
      InvalidOption("sync_dart", "os_thread=true")
    else if ident == "os_thread" && lit.Bool? then
      Ok(o.(osThread := lit.flag))
    else if sync then
      Err(Rejected(SyncOptionsMessage))
    else
      Err(Rejected(AsyncOptionsMessage))
  }

  /** The end of the list: a namespace is required. */
  function Finish(o: Options, sync: bool): (r: Result<Options, Failure>)
    ensures o.namespace == "" <==> r == Err(Rejected(MissingNamespaceMessage(sync)))
    ensures o.namespace != "" <==> r == Ok(o)
  {
    if o.namespace == "" then Err(Rejected(MissingNamespaceMessage(sync))) else Ok(o)
  }

  /**
    `extract_options`: pops the last item and recurses. A success always carries a
    namespace; for the sync macro it leaves the timeout and os_thread settings as given.
   */
  function ExtractOptions(input: seq<NestedMeta>, o: Options, sync: bool): (r: Result<Options, Failure>)
    ensures r.Ok? ==> r.value.namespace != ""
    ensures r.Ok? && sync ==> r.value.timeout == o.timeout && r.value.osThread == o.osThread
    decreases |input|
  {
    if |input| == 0 || !input[|input| - 1].NameValue? then Finish(o, sync)
    else
      var item := input[|input| - 1];
      if |item.path| != 1 then Err(Panicked("called `Option::unwrap()` on a `None` value"))
      else match Apply(item.path[0], item.lit, o, sync)
        case Err(e) => Err(e)
        case Ok(next) => ExtractOptions(input[..|input| - 1], next, sync)
  }

  predicate IsNamespace(item: NestedMeta)
  {
    item.NameValue? && item.path == ["namespace"] && item.lit.Str?
  }

  predicate IsBorrow(item: NestedMeta)
  {
    item.NameValue? && item.path == ["borrow"] && item.lit.Str?
  }

  // What one item sets, for each option that holds a single value.

  function NamespaceSetting(item: NestedMeta): Option<string>
  {
    if IsNamespace(item) then Some(item.lit.text) else None
  }

  function LoggingSetting(item: NestedMeta): Option<bool>
  {
    if item.NameValue? && item.path == ["disable_logging"] && item.lit.Bool? then Some(item.lit.flag) else None
  }

  /** The async macro's reading of `timeout`: an integer that fits an i32, or -1 for `false`. */
  function TimeoutSetting(item: NestedMeta): Option<int>
  {
    if item.NameValue? && item.path == ["timeout"] then
      match item.lit
      case Int(n) => if n <= I32Max then Some(n as int) else None
      case Bool(flag) => if flag then None else Some(-1)
      case _ => None
    else None
  }

  /** The async macro's reading of `os_thread`. */
  function OsThreadSetting(item: NestedMeta): Option<bool>
  {
    if item.NameValue? && item.path == ["os_thread"] && item.lit.Bool? then Some(item.lit.flag) else None
  }

  /** The value the leftmost item that sets an option gives it, read left to right. */
  function Leftmost<T>(items: seq<NestedMeta>, setting: NestedMeta -> Option<T>): Option<T>
  {
    if items == [] then None
    else if setting(items[0]).Some? then setting(items[0])
    else Leftmost(items[1..], setting)
  }

  /**
    `Leftmost` is the setting of the first item that sets the option, and there is
    none only when no item sets it.
   */
  lemma {:induction false} LeftmostIsFirst<T>(items: seq<NestedMeta>, setting: NestedMeta -> Option<T>)
    ensures Leftmost(items, setting).None? <==> forall i :: 0 <= i < |items| ==> setting(items[i]).None?
    ensures Leftmost(items, setting).Some? ==>
      exists i :: 0 <= i < |items| && setting(items[i]) == Leftmost(items, setting)
        && (forall j :: 0 <= j < i ==> setting(items[j]).None?)
  {
    if items != [] && setting(items[0]).None? {
      LeftmostIsFirst(items[1..], setting);
      assert forall i :: 1 <= i < |items| ==> items[i] == items[1..][i - 1];
      if Leftmost(items, setting).Some? {
        var i :| 0 <= i < |items[1..]| && setting(items[1..][i]) == Leftmost(items, setting)
          && (forall j :: 0 <= j < i ==> setting(items[1..][j]).None?);
        assert setting(items[i + 1]) == Leftmost(items, setting);
        assert forall j :: 0 <= j < i + 1 ==> setting(items[j]).None?;
      }
    }
  }

  /** The `borrow = "..."` values, left to right. */
  function BorrowValues(items: seq<NestedMeta>): (vs: seq<string>)
    ensures |vs| <= |items|
    ensures forall v :: v in vs <==> exists i :: 0 <= i < |items| && IsBorrow(items[i]) && items[i].lit.text == v
  {
    if items == [] then []
    else
      var vs := (if IsBorrow(items[0]) then [items[0].lit.text] else []) + BorrowValues(items[1..]);
      assert forall i :: 1 <= i < |items| ==> items[i] == items[1..][i - 1];
      vs
  }

  function Reverse<T>(xs: seq<T>): (r: seq<T>)
    ensures |r| == |xs|
  {
    if xs == [] then [] else Reverse(xs[1..]) + [xs[0]]
  }

  lemma {:induction false} LeftmostSnoc<T>(items: seq<NestedMeta>, x: NestedMeta, setting: NestedMeta -> Option<T>)
    ensures Leftmost(items + [x], setting) ==
      if Leftmost(items, setting).Some? then Leftmost(items, setting) else setting(x)
  {
    if items != [] {
      assert (items + [x])[1..] == items[1..] + [x];
      LeftmostSnoc(items[1..], x, setting);
    }
  }

  lemma {:induction false} BorrowValuesSnoc(items: seq<NestedMeta>, x: NestedMeta)
    ensures BorrowValues(items + [x]) == BorrowValues(items) + (if IsBorrow(x) then [x.lit.text] else [])
  {
    if items != [] {
      assert (items + [x])[1..] == items[1..] + [x];
      BorrowValuesSnoc(items[1..], x);
    }
  }

  lemma {:induction false} ReverseSnoc<T>(xs: seq<T>, x: T)
    ensures Reverse(xs + [x]) == [x] + Reverse(xs)
  {
    if xs != [] {
      assert (xs + [x])[1..] == xs[1..] + [x];
      ReverseSnoc(xs[1..], x);
    }
  }

  predicate AllNameValue(items: seq<NestedMeta>)
  {
    forall i :: 0 <= i < |items| ==> items[i].NameValue?
  }

  /**
    An item that is not `name = literal` ends processing: what lies to its left is
    never looked at.
   */
  lemma {:induction false} OtherItemStops(input: seq<NestedMeta>, k: nat, o: Options, sync: bool)
    requires k < |input| && !input[k].NameValue?
    ensures ExtractOptions(input, o, sync) == ExtractOptions(input[k + 1..], o, sync)
    decreases |input|
  {
    if |input| - 1 != k {
      var item := input[|input| - 1];
      assert input[k + 1..][..|input[k + 1..]| - 1] == input[..|input| - 1][k + 1..];
      if item.NameValue? && |item.path| == 1 {
        var next := Apply(item.path[0], item.lit, o, sync);
        if next.Ok? {
          OtherItemStops(input[..|input| - 1], k, next.value, sync);
        }
      }
    }
  }

  /** What one successful step does to each field, read through the item's settings. */
  lemma ApplyStep(item: NestedMeta, o: Options, sync: bool)
    requires item.NameValue? && |item.path| == 1
    requires Apply(item.path[0], item.lit, o, sync).Ok?
    ensures var next := Apply(item.path[0], item.lit, o, sync).value;
      && next.namespace == NamespaceSetting(item).GetOr(o.namespace)
      && next.borrow == o.borrow + (if IsBorrow(item) then [item.lit.text] else [])
      && next.disableLogging == LoggingSetting(item).GetOr(o.disableLogging)
      && next.timeout == (if sync then o.timeout else TimeoutSetting(item).OrElse(o.timeout))
      && next.osThread == (if sync then o.osThread else OsThreadSetting(item).GetOr(o.osThread))
  {
    assert item.path == [item.path[0]];
  }

  /**
    One step of the fold for an option that holds one value: if the item's setting
    turned `before` into `after`, and the items to its left turned `after` into
    `result`, then `result` is what the leftmost setting of all the items gives.
   */
  lemma FoldSetting<T>(init: seq<NestedMeta>, item: NestedMeta, setting: NestedMeta -> Option<T>,
                       before: T, after: T, result: T)
    requires after == setting(item).GetOr(before)
    requires result == Leftmost(init, setting).GetOr(after)
    ensures result == Leftmost(init + [item], setting).GetOr(before)
  {
    LeftmostSnoc(init, item, setting);
  }

  /** The same step for an option whose value is itself optional (the timeout). */
  lemma FoldOptionalSetting<T>(init: seq<NestedMeta>, item: NestedMeta, setting: NestedMeta -> Option<T>,
                               before: Option<T>, after: Option<T>, result: Option<T>)
    requires after == setting(item).OrElse(before)
    requires result == Leftmost(init, setting).OrElse(after)
    ensures result == Leftmost(init + [item], setting).OrElse(before)
  {
    LeftmostSnoc(init, item, setting);
  }

  lemma StepBorrows(given: seq<string>, before: seq<string>, step: seq<string>, rest: seq<string>)
    requires before == given + step && |step| <= 1
    ensures given + Reverse(rest + step) == before + Reverse(rest)
  {
    if |step| == 1 {
      var x := step[0];
      assert step == [x];
      ReverseSnoc(rest, x);
      assert given + ([x] + Reverse(rest)) == (given + [x]) + Reverse(rest);
    } else {
      assert step == [];
      assert rest + step == rest;
    }
  }

  /**
    On success every option that holds one value has the value its leftmost setting
    gives it (or keeps the one it had, when no item sets it), because popping from the
    end applies the leftmost item last; the borrows are those given, followed by the
    `borrow` values from right to left.
   */
  lemma {:induction false} ExtractOptionsFold(input: seq<NestedMeta>, o: Options, sync: bool)
    requires AllNameValue(input)
    ensures var r := ExtractOptions(input, o, sync);
      r.Ok? ==> FoldedFrom(input, o, sync, r.value)
    decreases |input|
  {
    if |input| > 0 {
      var item := input[|input| - 1];
      var init := input[..|input| - 1];
      if |item.path| == 1 && Apply(item.path[0], item.lit, o, sync).Ok? {
        var next := Apply(item.path[0], item.lit, o, sync).value;
        ExtractOptionsPop(input, o, sync);
        ExtractOptionsFold(init, next, sync);
        var r := ExtractOptions(init, next, sync);
        if r.Ok? {
          assert input == init + [item];
          ApplyStep(item, o, sync);
          FoldStep(init, item, o, next, sync, r.value);
        }
      }
    }
  }

  /**
    The options `result` hold what folding `input` into `o` promises: each option that
    holds one value has its leftmost setting (or the value it had), and the borrows
    are those given followed by the `borrow` values from right to left.
   */
  predicate FoldedFrom(input: seq<NestedMeta>, o: Options, sync: bool, result: Options)
  {
    && result.namespace == Leftmost(input, NamespaceSetting).GetOr(o.namespace)
    && result.borrow == o.borrow + Reverse(BorrowValues(input))
    && result.disableLogging == Leftmost(input, LoggingSetting).GetOr(o.disableLogging)
    && result.timeout == (if sync then o.timeout else Leftmost(input, TimeoutSetting).OrElse(o.timeout))
    && result.osThread == (if sync then o.osThread else Leftmost(input, OsThreadSetting).GetOr(o.osThread))
  }

  /** A successful step pops the last item and continues with what `Apply` made of it. */
  lemma ExtractOptionsPop(input: seq<NestedMeta>, o: Options, sync: bool)
    requires |input| > 0 && input[|input| - 1].NameValue? && |input[|input| - 1].path| == 1
    requires Apply(input[|input| - 1].path[0], input[|input| - 1].lit, o, sync).Ok?
    ensures ExtractOptions(input, o, sync)
      == ExtractOptions(input[..|input| - 1], Apply(input[|input| - 1].path[0], input[|input| - 1].lit, o, sync).value, sync)
  {
  }

  lemma FoldStep(init: seq<NestedMeta>, item: NestedMeta, o: Options, next: Options, sync: bool, result: Options)
    requires next.namespace == NamespaceSetting(item).GetOr(o.namespace)
    requires next.borrow == o.borrow + (if IsBorrow(item) then [item.lit.text] else [])
    requires next.disableLogging == LoggingSetting(item).GetOr(o.disableLogging)
    requires next.timeout == (if sync then o.timeout else TimeoutSetting(item).OrElse(o.timeout))
    requires next.osThread == (if sync then o.osThread else OsThreadSetting(item).GetOr(o.osThread))
    requires FoldedFrom(init, next, sync, result)
    ensures FoldedFrom(init + [item], o, sync, result)
  {
    FoldSetting(init, item, NamespaceSetting, o.namespace, next.namespace, result.namespace);
    FoldSetting(init, item, LoggingSetting, o.disableLogging, next.disableLogging, result.disableLogging);
    if !sync {
      FoldOptionalSetting(init, item, TimeoutSetting, o.timeout, next.timeout, result.timeout);
      FoldSetting(init, item, OsThreadSetting, o.osThread, next.osThread, result.osThread);
    }
    BorrowValuesSnoc(init, item);
    StepBorrows(o.borrow, next.borrow, if IsBorrow(item) then [item.lit.text] else [], BorrowValues(init));
  }

  /** Every accepted `borrow` value reads `namespace::Type`, neither part holding `::`. */
  lemma BorrowShape(value: string)
    requires ValidBorrow(value)
    ensures var parts := Split(value, "::");
      && value == parts[0] + "::" + parts[1]
      && !Contains(parts[0], "::") && !Contains(parts[1], "::")
  {
    var parts := Split(value, "::");
    SplitJoin(value, "::");
    SplitPartsFree(value, "::");
    JoinCons(parts[0], parts[1..], "::");
    assert parts == [parts[0]] + parts[1..];
    assert Join(parts[1..], "::") == parts[1];
  }

  /** The sync macro refuses `os_thread` whatever its value. */
  lemma OsThreadRejectedInSync(lit: Lit, o: Options)
    ensures Apply("os_thread", lit, o, true) == InvalidOption("sync_dart", "os_thread=true")
  {
  }

  /** `timeout` for the async macro: `false` stores -1, `true` is refused, an i32 is stored. */
  lemma AsyncTimeout(o: Options, n: nat)
    ensures Apply("timeout", Bool(false), o, false) == Ok(o.(timeout := Some(-1)))
    ensures Apply("timeout", Bool(true), o, false) == Err(Rejected(TimeoutTrueMessage))
    ensures n <= I32Max ==> Apply("timeout", Int(n), o, false) == Ok(o.(timeout := Some(n)))
  {
  }

  /** `timeout` is not an option of the sync macro. */
  lemma SyncTimeout(lit: Lit, o: Options)
    ensures Apply("timeout", lit, o, true) == Err(Rejected(SyncOptionsMessage))
  {
  }

  /** `#[async_dart]` with no options (membrane/tests/ui/single.rs, `no_namespace`). */
  lemma NoNamespaceExample()
    ensures ExtractOptions([], Default, false) == Err(Rejected(MissingNamespaceMessage(false)))
  {
  }

  /** `#[async_dart(namespace = "a", foo = true)]` (`bad_option`). */
  lemma BadOptionExample()
    ensures ExtractOptions([NameValue(["namespace"], Str("a")), NameValue(["foo"], Bool(true))], Default, false)
      == Err(Rejected(AsyncOptionsMessage))
  {
  }

  /** `#[sync_dart(namespace = "a", os_thread = true)]` (`os_thread_option_used_in_sync_fn`). */
  lemma OsThreadInSyncExample()
    ensures ExtractOptions([NameValue(["namespace"], Str("a")), NameValue(["os_thread"], Bool(true))], Default, true)
      == InvalidOption("sync_dart", "os_thread=true")
  {
  }

  /** `#[async_dart(namespace = "a")]` is accepted with the defaults otherwise. */
  lemma NamespaceOnlyExample()
    ensures ExtractOptions([NameValue(["namespace"], Str("a"))], Default, false) == Ok(Default.(namespace := "a"))
  {
  }
}
