# membrane, modelled in Dafny

membrane bridges Rust and Dart. A Rust function marked `#[async_dart(namespace = "...")]`
or `#[sync_dart(...)]` is rewritten by a procedural macro. The macro validates the
attribute options, parses the function header, its return type and its arguments, and
emits an `extern "C"` wrapper. It also submits a record of the function (its C symbol,
its C argument types, its Dart parameter texts and so on). At build time the generator
collects these records by namespace. It writes a Dart package: one Dart method per
function, a C header line per function, and the import lines a namespace needs for the
types it borrows from another namespace. At run time an emitter handle lets Rust code
push values to a Dart port until it is done.

This project models the build-time logic and the emitter's state:

- `options.dfy` (module `MacroOptions`): the attribute option validator.
- `parsers.dfy` (`MacroParsers`) and `macro.dfy` (`Macro`):
  - the return-type classifier and the argument parser over an abstract token stream
    (`syn.dfy` holds the abstract Rust syntax: paths, generic arguments, tuples);
  - the dispatch choice, the extern symbol name and the submitted record.
- `c_types.dfy`, `dart_types.dfy`, `rust_types.dfy`, `type_utils.dfy`:
  - the per-target type tables;
  - the per-argument list builders, as loops proved against list functions;
  - the `Option<..>` path matcher.
- `framing.dfy`: the byte framing of a serialized argument between the Dart writer and
  the Rust reader.
- `imports.dfy` (`Imports`, `ImportsProperties`): the transitive borrow closure over a
  type registry (`registry.dfy`).
- `generator_functions.dfy` (`Generators`):
  - the Dart signature;
  - the recursive deserializer choice;
  - the FFI call and return blocks, kept as a record of their choices;
  - the timeout precedence;
  - the Web stub and the C prototype;
  - the three writer classes `Ffi`, `Web` and `C`.
- `membrane.dfy` (`MembraneLib`):
  - the generator object: grouping by namespace, the sorted and deduplicated namespace
    list, the destination and package-name settings;
  - the older per-function writer of this revision of `membrane/src/lib.rs`.
- `emitter.dfy` (`Emitter`): the emitter and the one-shot handle. They are classes whose
  methods are proved against step functions over a state value. Lemmas over runs of
  calls show that done is final, that sending only appends and that a handle sends at
  most once.

The function record is the union of the fields that the two writers read. This revision
of `membrane/src/lib.rs` has no `is_sync`, `disable_logging` or `timeout`, but
`membrane/src/generators/functions.rs` reads them. A panic, `unreachable!` or
`exit(1)` in the source is an `Err`/`None` in the model. I/O, subprocesses and the
serde-reflection tracer are left out (see below). The type registry is an input map.

## Model

| member | source | states |
|---|---|---|
| MacroOptions.InvalidOption | membrane_macro/src/options.rs:94-100 | always a rejection; the message starts with the quoted option and ends with the quoted macro name |
| MacroOptions.Apply | membrane_macro/src/options.rs:26-77 | a success only for a name the macro accepts. It changes only the field named. `namespace` stores the string. `borrow` appends only a value that splits into exactly two `::` parts; a bad value is rejected with the borrow message |
| MacroOptions.Finish | membrane_macro/src/options.rs:78-88 | end of the list: an error naming the macro exactly when no namespace was given, otherwise the options unchanged |
| MacroOptions.ExtractOptions | membrane_macro/src/options.rs:13-92 | a success always carries a namespace. For the sync macro, timeout and os_thread are never changed |
| MacroOptions.LeftmostIsFirst | membrane_macro/src/options.rs:13-92 | the leftmost setting of an option is the setting of the first item that sets it, with no item before it setting it; there is none exactly when no item sets the option |
| MacroOptions.LeftmostSnoc | membrane_macro/src/options.rs:18-24 | adding an item at the end changes the leftmost setting only when no earlier item set the option |
| MacroOptions.BorrowValues | membrane_macro/src/options.rs:31-44 | a value is listed exactly when some item is a `borrow = "..."` string item with that value; at most one value per item |
| MacroOptions.OtherItemStops | membrane_macro/src/options.rs:18-24 | an item that is not `name = literal` ends processing; items to its left are never read |
| MacroOptions.ExtractOptionsFold | membrane_macro/src/options.rs:13-92 | on success, popping from the end makes the leftmost setting win for `namespace`, `disable_logging`, and (async only) `timeout` (`false` as -1) and `os_thread`; an option no item sets keeps its value; borrows accumulate from right to left |
| MacroOptions.ApplyStep | membrane_macro/src/options.rs:26-77 | one successful step sets each field to what the item sets for it, or leaves it; sync never touches timeout or os_thread |
| MacroOptions.BorrowShape | membrane_macro/src/options.rs:31-44 | an accepted borrow is `ns::Type`, neither part containing `::` |
| MacroOptions.OsThreadRejectedInSync | membrane_macro/src/options.rs:62-64 | the sync macro rejects `os_thread` through `invalid_option`, whatever its value |
| MacroOptions.AsyncTimeout | membrane_macro/src/options.rs:49-61 | async `timeout`: `false` stores -1, `true` is rejected, an integer that fits i32 is stored |
| MacroOptions.SyncTimeout | membrane_macro/src/options.rs:69-73 | `timeout` on the sync macro is rejected with the sync message |
| MacroOptions.NoNamespaceExample | membrane/tests/ui/single.rs:3-4 | no options: the missing-namespace error naming `async_dart` |
| MacroOptions.BadOptionExample | membrane/tests/ui/single.rs:6-7 | an unknown option is rejected with the async message |
| MacroOptions.OsThreadInSyncExample | membrane/tests/ui/single.rs:9-10 | `os_thread` in `sync_dart` is rejected |
| MacroOptions.NamespaceOnlyExample | membrane_macro/src/options.rs:13-92 | a lone namespace gives the defaults with that namespace |
| MacroParsers.ParseIdent | membrane_macro/src/parsers.rs:32 | succeeds exactly on a non-keyword word, consuming one token |
| MacroParsers.ExpectWord | membrane_macro/src/parsers.rs:24 | succeeds exactly when the next token is the keyword; consumes it |
| MacroParsers.ExpectPunct | membrane_macro/src/parsers.rs:28 | succeeds exactly when the next token is the punctuation; consumes it |
| MacroParsers.ParseExprPath | membrane_macro/src/parsers.rs:26-27 | succeeds exactly when the stream starts with an identifier or one of `self`, `super`, `crate`, `Self`; a success is a non-empty path taken from the front of the stream |
| MacroParsers.ParseTypePath | membrane_macro/src/parsers.rs:76 | consumes exactly one type token |
| MacroParsers.ValidateType | membrane_macro/src/parsers.rs:90-113 | accepts exactly path types and the empty tuple, returning them unchanged. A non-empty tuple gets the tuple message; anything else gets the "expected a struct, vec, or scalar" message |
| MacroParsers.ParseType | membrane_macro/src/parsers.rs:74-88 | succeeds exactly when the path's last segment is `Result` with at least two angle-bracketed arguments, both accepted by `validate_type`; the result is those two types, consuming one token. A last segment other than `Result`, or `Result` without angle brackets, is the `expected enum Result` error |
| MacroParsers.ParseReturnType | membrane_macro/src/parsers.rs:69-72 | succeeds exactly when `parse_type` does, and always with style `Serialized` |
| MacroParsers.TraitStyle | membrane_macro/src/parsers.rs:30-65 | only `Future`, `Stream`, `StreamEmitter` and `Emitter` name a style |
| MacroParsers.CloseTrait | membrane_macro/src/parsers.rs:54-61 | a success carries the given style and two returnable types |
| MacroParsers.ParseBinding | membrane_macro/src/parsers.rs:32-51 | a success carries the given style and two returnable types |
| MacroParsers.TraitHeader | membrane_macro/src/parsers.rs:24-28 | a success starts at `impl` and consumes tokens |
| MacroParsers.TraitBody | membrane_macro/src/parsers.rs:30-66 | the style matches the trait name; an unknown trait is the "trait found" error |
| MacroParsers.ParseTraitReturnType | membrane_macro/src/parsers.rs:23-67 | the style is the one the trait names, with returnable types; an unknown trait is rejected |
| MacroParsers.ParseTypeResult | membrane_macro/src/parsers.rs:74-85 | any path ending in `Result<T, E>` with returnable T, E parses to (T, E) |
| MacroParsers.TraitRoundTrip | membrane_macro/src/parsers.rs:23-67 | the canonical spelling of each trait return (`impl Future<Output = Result<..>>`, `impl Stream<Item = ..>`, `impl StreamEmitter<..>`, `impl Emitter<..>`) parses back to its style and types |
| MacroParsers.TraitHeaderCanonical | membrane_macro/src/parsers.rs:24-28 | `impl Name <` parses to the trait name |
| MacroParsers.CloseTraitCanonical | membrane_macro/src/parsers.rs:38-40 | `Result<T, E> >` closes the trait with that style and types |
| MacroParsers.ParseBindingCanonical | membrane_macro/src/parsers.rs:32-37 | `Binding =` followed by the closing tokens parses as the closing tokens alone |
| MacroParsers.TraitBodyCanonical | membrane_macro/src/parsers.rs:30-62 | each style's canonical body parses back to that style |
| MacroParsers.TraitNamesAreNotKeywords | membrane_macro/src/parsers.rs:30-58 | trait names and `Output`/`Item` are identifiers |
| MacroParsers.ParseArg | membrane_macro/src/parsers.rs:120-129 | succeeds exactly on `name: Type`, keeping the name and type; the type text has no whitespace |
| MacroParsers.ParseArgs | membrane_macro/src/parsers.rs:115-132 | succeeds exactly when every argument is `name: Type`, one input per argument in order; otherwise the unsupported-argument error |
| MacroParsers.FirstBad | membrane_macro/src/parsers.rs:126-129 | the index of an argument that is not `name: Type` |
| MacroParsers.RustTypeText | membrane_macro/src/parsers.rs:123 | the stored type text is the type's tokens concatenated with whitespace removed |
| MacroParsers.AddPortToArgs | membrane_macro/src/parsers.rs:134-161 | `_membrane_port: i64` first, then every original argument in order |
| MacroParsers.NoResultExamples | membrane/tests/ui/single.rs:14-21 | `i32` and `Option<String>` returns are rejected as not `Result` |
| MacroParsers.BareTupleExample | membrane/tests/ui/single.rs:17-18 | `Result<(i32, i32), String>` is rejected with the tuple message |
| MacroParsers.OptionSuccessExample | membrane/tests/ui/single.rs:26-29 | `Result<Option<i32>, String>` is accepted |
| MacroParsers.StreamBody | membrane_macro/src/parsers.rs:42-52 | a `Stream` body is the `Item` binding with the stream style |
| MacroParsers.WordIsNotResult | membrane_macro/src/parsers.rs:76-80 | a path that is not `Result` is the `expected enum Result` error |
| MacroParsers.StreamWithoutItem | membrane/tests/ui/stream.rs:1-2 | `impl Stream<X ...>` without `Item` is the stream error |
| MacroParsers.StreamItemNotResult | membrane/tests/ui/stream.rs:4-5 | `impl Stream<Item = X ...>` with X not `Result` is rejected |
| MacroParsers.SelfArgumentExample | membrane/tests/ui/single.rs:38-41 | a `self` argument is rejected |
| Macro.ParseHeader | membrane_macro/src/lib.rs:30-35 | a success starts with `pub` and consumes tokens |
| Macro.HeaderSpellings | membrane_macro/src/lib.rs:30-35 | `pub fn name` and `pub async fn name` both parse to the name |
| Macro.AsyncBeforePub | membrane_macro/src/lib.rs:30-33 | `async pub` is rejected: the order is fixed |
| Macro.ParseReturn | membrane_macro/src/lib.rs:40-48 | `impl ...` is read by the trait parser; anything else by `parse_return_type`, succeeding exactly when `parse_type` does, with the `Serialized` style and its two types. A style other than `Serialized` comes only from a known trait name. Both types are returnable |
| Macro.ParseRest | membrane_macro/src/lib.rs:37-59 | a success keeps the name; its inputs are the parsed argument group; after `->`, its style, output and error types are what the return parser read, and a body follows. A missing `->` is the callback case |
| Macro.ReturnErrorsBeforeArguments | membrane_macro/src/lib.rs:40-55 | the return type is parsed before the arguments, so its error is the one reported |
| Macro.ParseReprDart | membrane_macro/src/lib.rs:26-60 | a header error is reported as is; a success carries the header's name, the argument group's inputs and the style and types the return parser read after the header |
| Macro.ChooseDispatch | membrane_macro/src/lib.rs:114-177 | each dispatch exactly for its style and flags, in match order: sync wins over os_thread |
| Macro.ExternName | membrane_macro/src/lib.rs:179-182 | starts with `membrane_`, ends with the function name, has the combined length |
| Macro.ExternNameInjective | membrane_macro/src/lib.rs:179-182 | with namespaces free of `_`, different (namespace, name) pairs give different symbols |
| Macro.ExternNameCollision | membrane_macro/src/lib.rs:179-182 | with `_` in a namespace, `a_b`/`c` and `a`/`b_c` collide |
| Macro.IsStream | membrane_macro/src/lib.rs:206-210 | holds exactly for `StreamSerialized` and `EmitterStreamSerialized`, the two styles dispatched as streams |
| Macro.ReturnTypeName | membrane_macro/src/lib.rs:211-215 | `()` for any tuple, else the last path segment; none for an empty path (or a type that is neither a tuple nor a path) |
| Macro.ErrorTypeName | membrane_macro/src/lib.rs:216 | the last segment of the error path |
| Macro.ReturnTypeNamed | membrane_macro/src/lib.rs:211-215 | every type the parser accepts has a return type name |
| Macro.BuildTexts | membrane_macro/src/lib.rs:104-112 | the four per-argument lists are built and joined with `, `, `;\n    `, `, `, `, ` |
| Macro.DartImpl | membrane_macro/src/lib.rs:73-262 | the callback argument is dropped first (only when there is one). The extern parameters, inner arguments and record are built from what is left. The dispatch is `ChooseDispatch` |
| Macro.RecordSymbol | membrane_macro/src/lib.rs:179-182 | the submitted symbol starts with `membrane_<namespace>_` |
| Macro.RecordStream | membrane_macro/src/lib.rs:206-210 | the record is marked a stream exactly when the dispatch is a stream dispatch |
| Macro.RecordReturnNamed | membrane_macro/src/lib.rs:211-215 | a parsed function's record always has a return type name |
| Macro.ContactRecord | membrane/tests/integration_tests.rs:97-100 | `accounts`/`contact` with a `user_id: String` gives `membrane_accounts_contact` and `const char *user_id` |
| TypeUtils.ExtractTypeFromOption | membrane_types/src/utils.rs:3-37 | a result only for an unqualified `Option` path. It is the first generic argument of the last segment, and it is defined whenever that argument is a type |
| TypeUtils.OptionPathExact | membrane_types/src/utils.rs:11-22 | the path matches exactly when its idents are `Option`, `std::option::Option` or `core::option::Option` |
| TypeUtils.TerminatedInjective | membrane_types/src/utils.rs:12-16 | the `|`-terminated fold is injective on idents without `|`, so matching it is matching the idents |
| TypeUtils.OptionSpellings | membrane_types/src/utils.rs:18 | the three accepted spellings as folded strings |
| TypeUtils.ExtractTypeExamples | membrane_types/src/utils.rs:4-36 | `Option<T>` gives T; `Result`, a qualified self and `foo::Option` give none |
| CTypes.CType | membrane_types/src/c.rs:27-42 | total: every type maps to a header type from the table, so `unreachable!` is never hit |
| CTypes.CTypePointers | membrane_types/src/c.rs:29-38 | a pointer type exactly for everything except `i64`, `f64` and `bool` |
| CTypes.OptionalScalarIsPointer | membrane_types/src/c.rs:34-38 | `Option<scalar>` is the scalar's type plus `*`; `Option<String>` stays `const char *` |
| CTypes.CHeaderTypes | membrane_types/src/c.rs:5-19 | one `c_type` followed by the variable per input, in order |
| CTypes.UserIdHeaderType | membrane/tests/integration_tests.rs:97-100 | `user_id: String` gives `const char *user_id` |
| DartTypes.DartType | membrane_types/src/dart.rs:69-78 | the four scalars map to `String`/`int`/`double`/`bool`. Any other type maps to its text after the last `::` (all of it without one), trimmed |
| DartTypes.DartTypeOfPath | membrane_types/src/dart.rs:75 | a non-scalar path written with `::` between `:`-free segments maps to its last segment, trimmed |
| Strings.LastPieceSuffix | membrane_types/src/dart.rs:75 | the last piece `split(sep).last()` returns is a suffix of the input that holds no separator |
| Strings.LastPieceAfterSeparator | membrane_types/src/dart.rs:75 | the last piece is the whole input or directly follows a separator, so no longer separator-free suffix exists |
| Strings.LastPieceOfJoin | membrane_types/src/dart.rs:75 | for pieces free of the separator's first character, the last piece of their join is the last of them |
| DartTypes.CastDartTypeToC | membrane_types/src/dart.rs:80-106 | a scalar's cast starts with the variable itself |
| DartTypes.SerializedArgument | membrane_types/src/dart.rs:91-104 | a non-scalar is serialized with `bincodeSerialize()` inside a closure that is called at once |
| DartTypes.TransformBindsArg | membrane_types/src/dart.rs:23-47 | each transform binds `var c<variable>`, the name `DartArgs` passes for the same input |
| DartTypes.DartParams | membrane_types/src/dart.rs:7-21 | one parameter per input, in order |
| DartTypes.DartTransforms | membrane_types/src/dart.rs:23-37 | one transform per input, in order |
| DartTypes.DartArgs | membrane_types/src/dart.rs:39-49 | one argument per input, in order |
| RustTypes.RustCType | membrane_types/src/rust.rs:69-77 | the scalars map to their C types; everything else, and only that, to `*const u8` |
| RustTypes.CastCTypeToRust | membrane_types/src/rust.rs:79-116 | exactly the non-scalars are deserialized, from the same variable and type |
| RustTypes.PointerAgreement | membrane_types/src/rust.rs:69-77 | the Rust extern type is a pointer exactly when the C header type is (`membrane_types/src/c.rs` agrees) |
| RustTypes.CastAgreement | membrane_types/src/rust.rs:79-116 | Rust deserializes exactly the arguments that Dart serializes |
| RustTypes.RustExternParams | membrane_types/src/rust.rs:11-23 | one extern parameter per input, in order |
| RustTypes.RustTransforms | membrane_types/src/rust.rs:25-37 | one `let` per input, in order, binding that input's cast |
| RustTypes.RustArgs | membrane_types/src/rust.rs:39-49 | one argument per input, in order |
| Framing.DartBlob | membrane_types/src/dart.rs:91-104 | as written: the total length's low byte at offset 0, zeros at 1..7, the payload from offset 8 |
| Framing.DartRustRoundTrip | membrane_types/src/rust.rs:97-114 | the Rust reader recovers the Dart payload exactly when the total length is below 256 |
| Framing.PayloadOf248Panics | membrane_types/src/rust.rs:104-109 | a 248-byte payload makes the reader slice out of range |
| Framing.PayloadOf300Truncated | membrane_types/src/rust.rs:104-109 | a 300-byte payload is cut to 44 bytes before it reaches the deserializer (whose outcome on them is not modelled) |
| Framing.DecodeEncodeLength | membrane_types/src/dart.rs:96-98 | the full 8-byte little-endian length decodes back to itself |
| Framing.EncodeArgument | membrane_types/src/dart.rs:91-104 | corrected: the payload after an 8-byte length header |
| Framing.ArgumentRoundTrip | membrane_types/src/rust.rs:97-114 | corrected: every payload round-trips |
| Imports.WithChildBorrows | membrane/src/generators/imports.rs:6-83 | an error exactly when the namespace is unknown; otherwise a list ending with the borrowed type |
| Imports.Borrows | membrane/src/generators/imports.rs:21-82 | an unknown type is exactly the unknown-type error. A success ends with the type itself. Every error is a real failure |
| Imports.BorrowsAll | membrane/src/generators/imports.rs:22-27 | every error it reports is a real failure of some name |
| Imports.VariantBorrows | membrane/src/generators/imports.rs:28-51 | every error it reports is a real failure of some name |
| Imports.ExtractNameMentions | membrane/src/generators/imports.rs:86-94 | the names extracted are exactly the type names the format mentions; none for a primitive |
| ImportsProperties.BorrowsAllIncludes | membrane/src/generators/imports.rs:22-27 | each listed name's own closure is inside the combined result |
| ImportsProperties.StructBorrowsFields | membrane/src/generators/imports.rs:22-27 | a struct's closure contains the closure of every field type |
| ImportsProperties.NewTypeStructPrimitive | membrane/src/generators/imports.rs:64-71 | a new type struct over a primitive (a payload naming no type) imports only itself |
| ImportsProperties.NewTypeStructBorrowsPayload | membrane/src/generators/imports.rs:64-71 | a new type struct's closure contains the closure of every type its payload names |
| ImportsProperties.VariantBorrowsNewTypeIncludes | membrane/src/generators/imports.rs:41-48 | a new type variant that does not name the enum brings the closure of each named type into the variants' result |
| ImportsProperties.EnumNewTypeVariantBorrows | membrane/src/generators/imports.rs:41-48 | the same inclusion in the enum's closure |
| ImportsProperties.VariantBorrowsIncludes | membrane/src/generators/imports.rs:32-40 | a struct variant's field names are in the enum's result |
| ImportsProperties.EnumStructVariantNames | membrane/src/generators/imports.rs:32-40 | struct-variant field names are in the enum's closure as they are |
| ImportsProperties.VariantBorrowsEmpty | membrane/src/generators/imports.rs:41-48 | unit, tuple and self-referring newtype variants contribute nothing |
| ImportsProperties.LeafEnumBorrows | membrane/src/generators/imports.rs:53-62 | such an enum gives its extension (exactly when C-style enums are on and every variant is unit), then itself |
| ImportsProperties.CStyleEnumBorrows | membrane/src/generators/imports.rs:53-60 | an all-unit enum gives `[XExtension, X]` with C-style enums on and `[X]` otherwise |
| ImportsProperties.BorrowsSound | membrane/src/generators/imports.rs:21-82 | every name in a closure is registered, a struct-variant field, or an extension of a C-style enum (only with C-style enums on) |
| ImportsProperties.BorrowsAllSound | membrane/src/generators/imports.rs:22-27 | the same soundness for a list of names |
| ImportsProperties.VariantBorrowsSound | membrane/src/generators/imports.rs:28-51 | the same soundness for an enum's variants |
| ImportsProperties.ContactBorrows | membrane/tests/integration_tests.rs:119-124 | borrowing `Contact` imports `StatusExtension`, `Status`, `Contact` |
| ImportsProperties.StatusExtensionName | membrane/src/generators/imports.rs:59 | the extension of `Status` is `StatusExtension` |
| Generators.Signature | membrane/src/generators/functions.rs:134-163 | sync: `  T name(...)` with no suffix. Otherwise `  Stream<T> name(`, with ` async*` exactly for streams, or `  Future<T> name(`, with ` async` exactly for the rest. The parameters are in braces when present; `name()` when there are none |
| Generators.SignatureWith | membrane/src/generators/functions.rs:134-163 | the same shape, return type included in the prefix, for any Dart return type text |
| Generators.Deserializer | membrane/src/generators/functions.rs:170-240 | none for an empty path. A lone primitive is a scalar decoder. `Vec, Option, ..` gives a list of optionals |
| Generators.LeafOf | membrane/src/generators/functions.rs:170-240 | every decoder ends in a scalar or a named type |
| Generators.DeserializerFollowsPath | membrane/src/generators/functions.rs:190-234 | the wrappers chosen spell a prefix of the type path |
| Generators.DeserializerScalarLeaf | membrane/src/generators/functions.rs:178-189 | a decoder ending in a primitive consumes the whole path |
| Generators.DeserializerExtension | membrane/src/generators/functions.rs:223-234 | a named type uses its extension exactly when C-style enums are on and it is an all-unit enum |
| Generators.DeserializerDefined | membrane/src/generators/functions.rs:170-240 | a decoder exists exactly when the path holds a non-wrapper segment (otherwise `unreachable!`) |
| Generators.VecOptionPrecedence | membrane/src/generators/functions.rs:190-210 | `Vec, Option` is matched before `Vec`: a list of optionals, never a list of options |
| Generators.ExtensionExample | membrane/src/generators/functions.rs:223-234 | a C-style enum `Status` decodes through `StatusExtension` only with C-style enums on, also inside `Vec` |
| Generators.TimeoutChoice | membrane/src/generators/functions.rs:374-381 | the function's own timeout if set, else the global one but not for a stream, else none |
| Generators.StreamsIgnoreGlobalTimeout | membrane/src/generators/functions.rs:374-381 | a stream's timeout does not depend on the global setting |
| Generators.FunctionTimeoutWins | membrane/src/generators/functions.rs:404-413 | a per-function timeout always wins |
| Generators.TimeoutText | membrane/src/generators/functions.rs:374-413 | no text exactly when there is no timeout |
| Generators.CallArguments | membrane/src/generators/functions.rs:303-314 | sync: the inner arguments alone; async: the native port first |
| Generators.CParameters | membrane/src/generators/functions.rs:456-470 | sync: the C types alone; async: `int64_t port` first |
| Generators.CallMatchesPrototype | membrane/src/generators/functions.rs:303-314 | the Dart call and the C prototype list the same number of entries, the port in the same place |
| Generators.FfiBody | membrane/src/generators/functions.rs:262-319 | a receive port exactly for async functions. The transforms are present exactly when there are some. The call uses the extern name and the call arguments; logging follows the record |
| Generators.CleanupCalls | membrane/src/generators/functions.rs:342 | at most one cleanup call, only for a `data` response: a free for sync, a cancel otherwise |
| Generators.BodyReturn | membrane/src/generators/functions.rs:326-419 | defined exactly when both types have a deserializer. The block is sync, stream or future as the record says. An async block carries `TimeoutChoice`; the two decoders are `deserializer`'s |
| Generators.Ffi.constructor | membrane/src/generators/functions.rs:37-43 | a writer for the function with empty output |
| Generators.Ffi.Build | membrane/src/generators/functions.rs:49-69 | succeeds exactly when the namespace's enum registry is present and set and the return block is defined. The output gains begin, signature, call, return and end, in that order |
| Generators.WebIgnoresBody | membrane/src/generators/functions.rs:433-438 | the Web text depends only on the signature: the body is always `throw UnimplementedError();` |
| Generators.Web.constructor | membrane/src/generators/functions.rs:72-77 | a writer for the function with empty output |
| Generators.Web.Build | membrane/src/generators/functions.rs:83-90 | the output gains begin, signature, the unimplemented body and end |
| Generators.CSignature | membrane/src/generators/functions.rs:456-471 | `MembraneResponse <symbol>(` followed by the C parameters and `);` |
| Generators.AsyncPrototype | membrane/tests/integration_tests.rs:97-100 | async with types: `MembraneResponse name(int64_t port, types);`, the header line the test asserts |
| Generators.CSignatureDrift | membrane/src/lib.rs:451-463 | for async functions the new C prototype is the old one with `MembraneResponse` in place of `int32_t` |
| Generators.C.constructor | membrane/src/generators/functions.rs:92-97 | a writer for the function with empty output |
| Generators.C.Build | membrane/src/generators/functions.rs:103-111 | the output gains begin and the C prototype only |
| Generators.SignatureDrift | membrane/src/lib.rs:435-450 | with the raw type text in place of the Dart type, the new future signature equals the old one; for streams it differs (the new one gains ` async*`) |
| MembraneLib.FunctionsOfConcat | membrane/src/lib.rs:62-79 | grouping distributes over concatenation of the inventory |
| MembraneLib.FunctionsOfSound | membrane/src/lib.rs:75-78 | every grouped function was registered under that namespace |
| MembraneLib.FunctionsOfNonEmpty | membrane/src/lib.rs:62-79 | a namespace has functions exactly when something was registered under it |
| MembraneLib.Insert | membrane/src/lib.rs:81 | inserting into a sorted list keeps it sorted and adds exactly the element |
| MembraneLib.Sort | membrane/src/lib.rs:81 | sorted, and a permutation of the input |
| MembraneLib.Dedup | membrane/src/lib.rs:82 | the same elements with no adjacent duplicates; strictly sorted after a sort |
| MembraneLib.Group | membrane/src/lib.rs:62-79 | exactly the registered namespaces, each mapped to its functions in inventory order |
| MembraneLib.RegisteredSnoc | membrane/src/lib.rs:62-79 | registering one more trace adds exactly its namespace |
| MembraneLib.Membrane.constructor | membrane/src/lib.rs:57-95 | namespaces strictly sorted and exactly the registered ones; each function list in inventory order; the default settings |
| MembraneLib.DestinationAsWritten | membrane/src/lib.rs:99-107 | as written: rejects only the empty path; otherwise the path with all trailing `/` removed |
| MembraneLib.RootDestinationIsEmpty | membrane/src/lib.rs:99-107 | as written, `/` is accepted and becomes the empty destination |
| MembraneLib.Destination | membrane/src/lib.rs:99-107 | corrected: rejects exactly the paths made only of `/`; otherwise a non-empty path, without a trailing `/`, equal to the written result |
| MembraneLib.PubspecName | membrane/src/lib.rs:239-243 | the package name when set; else the destination's last `/`-separated segment: a `/`-free suffix that is the whole destination or follows a `/` |
| MembraneLib.PubspecNameNonEmpty | membrane/src/lib.rs:239-243 | with the corrected destination the pubspec name is never empty |
| MembraneLib.RootPackageNameIsEmpty | membrane/src/lib.rs:239-243 | as written, destination `/` gives an empty pubspec name |
| MembraneLib.Membrane.PackageDestinationDir | membrane/src/lib.rs:99-107 | as written: fails exactly on the empty path, leaving the destination; otherwise it stores the path with its trailing `/` removed (so `/` stores the empty destination). Nothing else changes |
| MembraneLib.Membrane.PackageName | membrane/src/lib.rs:111-114 | stores the name, nothing else changes |
| MembraneLib.Membrane.UsingLib | membrane/src/lib.rs:119-122 | stores the library, nothing else changes |
| MembraneLib.Membrane.WriteBindings | membrane/src/lib.rs:207-210 | ffigen runs exactly when the package was generated |
| MembraneLib.Membrane.PackageNameChoice | membrane/src/lib.rs:239-243 | the set package name, else the destination's last `/`-separated segment (the whole destination or the text after its last `/`) |
| MembraneLib.LegacySignature | membrane/src/lib.rs:435-450 | `  Stream<T> name(`/`  Future<T> name(` by `is_stream`, ` async` exactly for non-streams, parameters in braces when present |
| MembraneLib.LegacyCSignature | membrane/src/lib.rs:451-463 | `int32_t <symbol>(int64_t port`, then `, types` only when there are types, then `);` |
| MembraneLib.LegacyFunction.constructor | membrane/src/lib.rs:22-34 | the record with empty output |
| MembraneLib.LegacyFunction.Begin | membrane/src/lib.rs:430-433 | the output is reset to a newline |
| MembraneLib.LegacyFunction.Signature | membrane/src/lib.rs:435-450 | the output gains the signature |
| MembraneLib.LegacyFunction.CSignature | membrane/src/lib.rs:451-463 | the output gains the C prototype |
| MembraneLib.LegacyFunction.End | membrane/src/lib.rs:524-527 | the output gains the closing brace |
| Emitter.PushStep | membrane/src/emitter.rs:109-115 | a done emitter returns `Ended` and sends nothing; otherwise it sends exactly the value once. Flag and finalizer unchanged |
| Emitter.HandlePushStep | membrane/src/emitter.rs:154-164 | the emitter's push (same result and outbox), after which the handle is done; the finalizer and whether it ran are unchanged |
| Emitter.OnDoneStep | membrane/src/emitter.rs:122-125 | the finalizer slot holds the new callback, replacing any earlier one |
| Emitter.AbortStep | membrane/src/emitter.rs:96-107 | sets done and runs the registered finalizer once, if there is one |
| Emitter.DoneIsFinal | membrane/src/emitter.rs:109-112 | once done, every later call leaves it done and sends nothing |
| Emitter.SentGrows | membrane/src/emitter.rs:109-115 | sending only appends |
| Emitter.HandleSendsAtMostOnce | membrane/src/emitter.rs:154-164 | a one-shot handle sends at most one value over any sequence of calls |
| Emitter.AbortRunsFinalizer | membrane/src/emitter.rs:96-107 | abort after `on_done(c)` runs `c`; abort runs nothing exactly when no finalizer is set |
| Emitter.EmitterData.constructor | membrane/src/emitter.rs:75-82 | not done, no finalizer, nothing sent |
| Emitter.EmitterData.IsDone | membrane/src/emitter.rs:117-120 | reads the flag and changes nothing |
| Emitter.EmitterData.Push | membrane/src/emitter.rs:109-115 | the new state and result are `PushStep`'s |
| Emitter.EmitterData.OnDone | membrane/src/emitter.rs:122-125 | the new state is `OnDoneStep`'s |
| Emitter.EmitterData.Abort | membrane/src/emitter.rs:96-107 | the new state is `AbortStep`'s |
| Emitter.Handle.constructor | membrane/src/emitter.rs:132-141 | a fresh inner emitter: not done, no finalizer |
| Emitter.Handle.Push | membrane/src/emitter.rs:154-164 | the new state and result are `HandlePushStep`'s |
| Emitter.Handle.IsDone | membrane/src/emitter.rs:166-168 | the inner flag |
| Emitter.Handle.OnDone | membrane/src/emitter.rs:170-172 | delegates to the inner emitter |
| Emitter.Handle.Abort | membrane/src/emitter.rs:150-152 | delegates to the inner emitter's abort |
| Emitter.PushTwice | membrane/src/emitter.rs:154-164 | a fresh handle accepts the first push, refuses the second with `Ended`, and sends only the first value |

## Left out

- Type tracing with serde-reflection (`trace_type`, `Tracer::registry`): the registry and the enum registries are inputs.
- File output, directory handling and the `dart`/`ffigen` subprocesses of `membrane/src/lib.rs`: I/O. `WriteBindings` models only the `generated` guard.
- `membrane/src/generators/loaders.rs`, `membrane/src/utils.rs`, `membrane/src/runtime.rs`, `membrane/src/metadata.rs`, `membrane_macro/src/utils.rs`: fixed templates and thin wrappers over foreign libraries; they are not part of this model.
- The raw-pointer FFI of `membrane/src/emitter.rs` (`on_data`, `run_push_closure`, `drop_box`, `membrane_drop_handle`): foreign memory.
- The emitter's mutex: the model is sequential, with each call atomic. Sending on the port is an outbox; a finalizer closure is a number, and running it is a log entry.
- Emitter.Handle.Abort: `abort_handle` returns a closure; the model performs what calling that closure does.
- `StreamHandle`, which the macro names but which is not in `membrane/src/emitter.rs`: not part of this model.
- Case conversion (`to_mixed_case`, `to_camel_case`): the mixed-case name is a parameter of `Macro.DartImpl`. The Dart class name is not modelled.
- `quote!`/`syn` token construction: the emitted Rust wrapper and the `TokenStream` of `add_port_to_args` are not reproduced. Syntax is an abstract token and type datatype in which a type is one token.
- Generators.FfiBody and Generators.BodyReturn: the fixed Dart text around the call and the return is not reproduced. Each block is a record of the writer's choices: arguments, transforms, receive port, timeout, decoders, cleanup call.
- The older `Function::body`/`body_return` of `membrane/src/lib.rs`: superseded by `membrane/src/generators/functions.rs`, which the model covers.
- The `body`, `body_return` and `end` steps of the Web and C writers that add nothing are not separate members.
- `parse_type_from_callback` (the callback-style return) is not in the parser file: `Macro.ParseRest` reports it as `CallbackReturn`.
- The macro calls `parse_stream_return_type` and names `EmitterStreamSerialized`, while the parser file defines `parse_trait_return_type` and `StreamEmitterSerialized`. The model follows the parser file and treats both names as the one style.
- The `callback` option is read by `dart_impl` but not set by `extract_options` in this revision. It is a parameter of `Macro.DartImpl`.
- `ReprDartEnum` and the `dart_enum` macro: not among the core operations.
- Imports.Borrows: termination rests on an acyclicity precondition (a ghost rank map, `Ranked`). A registry with a struct cycle makes the source recurse without end. The model does not describe that case.
- `exit(1)`, `panic!` and `unreachable!`: modelled as `Err`/`None` results; the log messages of `error!` are not kept.
- RustTypes.RustTransforms: the `let` text is a datatype, not a token stream. The `cstr!`/`!= 0` casts are named, not spelled.
- DartTypes.CastDartTypeToC: the exact Dart text of each scalar cast is in the function body; the contract states only its shape. The serialized shape is in `SerializedArgument`.
- MacroOptions.Apply: an integer literal is a natural number; the i32 range check is the only overflow modelled.
- MembraneLib.Membrane.PackageDestinationDir follows the code as written, so `/` is stored as the empty destination; the corrected check is `MembraneLib.Destination`, which the configuration object does not use.
- Framing.PayloadOf300Truncated: `bincode` decoding is not modelled, so what the deserializer makes of the shortened payload is not stated.
- The emitted text of `Function::begin`/`end` is constant (`"\n"`, `"\n  }\n"`).

## Findings

| source | as written | input that shows it | evidently intended | confidence | as-written member | corrected member |
|---|---|---|---|---|---|---|
| membrane_types/src/dart.rs:96-98, membrane_types/src/rust.rs:104-106 | Dart stores the total length `n + 8` through `setAll` of an `Int64List` into a `Uint8List`, which keeps only the low byte. Rust reads the length from byte 0 alone | a 248-byte payload: the total 256 is stored as 0 and Rust slices `data[8..0]`. A 300-byte payload is cut to 44 bytes | the full 8-byte length written and read, so every payload round-trips | not executed | Framing.DartRustRoundTrip | Framing.ArgumentRoundTrip |
| membrane/src/lib.rs:99-107, membrane/src/lib.rs:239-243 | `package_destination_dir` rejects only the empty string before trimming trailing `/` | `"/"` passes the check and becomes the empty destination, whose last segment is the empty pubspec name | reject a path that is empty after trimming, so the pubspec name is never empty | not executed | MembraneLib.RootPackageNameIsEmpty | MembraneLib.PubspecNameNonEmpty |
