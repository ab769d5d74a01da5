# builder-pattern in Dafny

A model of `#[derive(Builder)]` from the `builder-pattern` crate. The macro
reads a struct declaration. It emits three things:

- a builder type with one generic slot per field;
- a `new()` that starts every slot at `()`;
- one setter per field, and a `build` that can only be called once every
  required field is set.

The model covers two generations of the generator:

- **The current one** (`builder-pattern-macro/src`). It has value, lazy and
  async setters, validators, early-bound and late-bound defaults, `infer`
  and `hidden`.
- **Its predecessors.** `src/` has value setters only, and its validators
  return `()` on error. `src/structure.rs` is the earliest complete
  generator. `builder-pattern/src/structure.rs` is a stub that only names
  the builder.

Each source file becomes one module:

| source | module |
|---|---|
| builder-pattern-macro/src/attributes.rs | `Attributes` |
| builder-pattern-macro/src/field.rs | `Fields` and `Idents` |
| builder-pattern-macro/src/struct_input.rs | `StructInputs` |
| builder-pattern-macro/src/struct_impl.rs | `StructImpls` |
| builder-pattern-macro/src/builder/builder_functions.rs | `BuilderFunctions` |
| builder-pattern-macro/src/builder/builder_impl.rs | `BuilderImpls` |
| builder-pattern/src/setter.rs | `Setter` |
| builder-pattern/src/refl.rs | `Refl` |
| builder-pattern/src/list.rs | `TypeList` |
| builder-pattern/examples/default-generics.rs | `DefaultGenerics` |
| src/attributes.rs | `LegacyAttributes` |
| src/field.rs | `LegacyFields` |
| src/struct_input.rs | `LegacyStructInputs` and `LegacyGenerics` |
| src/struct_impl.rs | `LegacyStructImpls` |
| src/builder/functions.rs | `LegacyFunctions` |
| src/builder/builder_impl.rs | `LegacyBuilderImpls` |
| src/structure.rs | `Structures` |
| builder-pattern/src/structure.rs | `StubStructures` |

`default-generics.rs` is the hand expansion that the generated code is
meant to match.

**Tokens.** The macro's output is modelled as what it decides, not as token
text:

- type and expression tokens are strings;
- the generic argument lists are sequences of tokens (`tokenize_types`,
  `tokenize_impl`);
- each emitted setter is a *plan*: the impl header it is declared on, the
  type it returns, the struct literal it builds and the value it stores.

**Type-level state.** Rust's trait and impl matching is modelled in module
`TypeState`:

- the type of a builder is a sequence of type arguments (slots, then
  markers);
- an `impl<...>` header is a pattern over them;
- a method can be called exactly when its impl's header matches the
  builder's type. Its result type is the return pattern with the matched
  variables substituted.

Which setter and `build` calls type-check is therefore proved from the
headers the generator emits, not from a transition table written by hand.

**Sessions.** `Protocol` (current generator) and `LegacyBuilders` (earlier
generators) put the pieces together: `new()`, a chain of setter calls, then
`build`. They separate two questions:

- whether the chain type-checks (`Typed`);
- what it does at run time (`RunSetters`, `RunBuild`).

**Things the generated code cannot see** are parameters, gathered in
`Setter.Env`:

- user validators;
- `Into` conversions;
- evaluating a default expression;
- calling a producer closure;
- the `{:?}` formatting of a validator error.

Async producers are opaque values, resolved in field order.

`Seqs` and `Wrappers` hold generic sequence lemmas and the `Result`/`Option`
datatypes.

## Model

| member | source | states |
|---|---|---|
| Wrappers.Collect | builder-pattern-macro/src/builder/builder_impl.rs:133-157 | the sequence of `let` bindings a generated `build` evaluates succeeds exactly when every binding succeeds, yielding all values in order; otherwise the first failing binding's error or panic is the result and every earlier binding succeeded |
| Refl.Refl | builder-pattern/src/refl.rs:25-31 | `Id::REFL` / `refl()` relate a type to itself |
| Refl.NoWitnessBetweenDistinct | builder-pattern/src/refl.rs:9-12 | no witness relates two different types (`Id::<String, Vec<i32>>::REFL` cannot exist) |
| Refl.Cast | builder-pattern/src/refl.rs:38-55 | `cast` returns the value unchanged, at the target type |
| Refl.Sym | builder-pattern/src/refl.rs:56-59 | `sym` swaps source and target |
| Refl.CastSymUndo | builder-pattern/src/refl.rs:38-59 | casting through `sym` after a cast gives back the original value |
| TypeList.Append | builder-pattern/src/list.rs:6-19 | `Append::Out` exists exactly for terms that bottom out at `Nil`, and adds exactly one `Cons` layer |
| TypeList.AppendOfLength | builder-pattern/src/list.rs:10-19 | appending to the list of length n gives the list of length n + 1 |
| TypeList.ListIsOfLength | builder-pattern/src/list.rs:3-4 | every term implementing `Append` is `Cons` applied depth times to `Nil` |
| Setter.Declared | builder-pattern/src/setter.rs:1-16 | a value representation is declared by setter.rs exactly when it is not `Default`/`LateBoundDefault`, and an asynchronous variant only with the `future` feature |
| Idents.Compare | builder-pattern-macro/src/field.rs:54-72 | identifier comparison answers Equal exactly for equal identifiers |
| Idents.CompareAntisymmetric | builder-pattern-macro/src/field.rs:54-58 | swapping the arguments reverses the ordering |
| Idents.LeTransitive | builder-pattern-macro/src/field.rs:54-58 | the identifier order is transitive |
| Idents.LeTotal | builder-pattern-macro/src/field.rs:54-58 | any two identifiers are comparable |
| Idents.Insert | builder-pattern-macro/src/struct_input.rs:77-79 | one insertion step of the sort adds exactly the new element |
| Idents.InsertSorted | builder-pattern-macro/src/struct_input.rs:77-79 | inserting into a sorted list keeps it sorted by identifier |
| Idents.SortBy | builder-pattern-macro/src/struct_input.rs:77-79 | `sort` returns a permutation of its input |
| Idents.SortBySorted | builder-pattern-macro/src/struct_input.rs:77-79 | `sort` returns a permutation sorted by identifier |
| Fields.Cmp | builder-pattern-macro/src/field.rs:54-58 | `cmp` answers Equal exactly when the identifiers are equal |
| Fields.PartialCmp | builder-pattern-macro/src/field.rs:60-64 | `partial_cmp` is always `Some` of `cmp` |
| Fields.Eq | builder-pattern-macro/src/field.rs:66-72 | `eq` holds exactly when `cmp` answers Equal |
| Fields.CmpByIdentOnly | builder-pattern-macro/src/field.rs:54-72 | comparison and equality ignore visibility, type and attributes, and swapping the fields reverses the order |
| Fields.Documents | builder-pattern-macro/src/field.rs:18-25 | `documents` returns only stored attributes whose path is `doc` |
| Fields.DocumentsOfClassified | builder-pattern-macro/src/field.rs:18-25 | for a classified field, `documents` are all the `doc` attributes of the declaration (each as often as it occurs) once one `doc` was seen, none otherwise |
| Fields.TypeDocuments | builder-pattern-macro/src/field.rs:27-34 | the documented type is `Into<T>` for an `into` field and `T` otherwise |
| Fields.TypeDocumentsRoundTrip | builder-pattern-macro/src/field.rs:27-34 | the field type can be read back from the documented text |
| Fields.Underscored | builder-pattern-macro/src/field.rs:41-45 | the `infer` list with each identifier renamed by `ident_add_underscore`, in order |
| Fields.ReplacementParamsShape | builder-pattern-macro/src/field.rs:36-51 | the emitted list is empty exactly when both inputs are; otherwise `<`, each renamed `infer` identifier and a comma, each additional argument and a comma, `>` |
| Fields.TokenizeReplacementParams | builder-pattern-macro/src/field.rs:36-51 | the step-by-step stream equals the parameter list above |
| Attributes.AddUnderscore | builder-pattern-macro/src/attributes.rs:32-35 | the identifier followed by `_` |
| Attributes.AddUnderscoreInjective | builder-pattern-macro/src/attributes.rs:32-35 | renaming is injective and never returns its input |
| Attributes.ParseSetters | builder-pattern-macro/src/attributes.rs:131-153 | the loop computes the flag set of `SettersSpec` |
| Attributes.ErrorPersists | builder-pattern-macro/src/attributes.rs:136-148 | once an item of `setter(...)` is rejected, later items do not change the outcome |
| Attributes.SettersPrefixMeaning | builder-pattern-macro/src/attributes.rs:131-153 | `setter(...)` succeeds exactly when every item is a path, and a flag is set exactly when its name is listed (VALUE only if `value` is listed) |
| Attributes.ParseIdents | builder-pattern-macro/src/attributes.rs:155-197 | the shared loop computes `IdentsSpec` |
| Attributes.IdentsErrorPersists | builder-pattern-macro/src/attributes.rs:160-170 | once an item is rejected, later items do not change the outcome |
| Attributes.IdentsPrefixMeaning | builder-pattern-macro/src/attributes.rs:155-175 | the list is accepted exactly when every item is a single-segment path, and the result holds those identifiers in order |
| Attributes.ParseInfer | builder-pattern-macro/src/attributes.rs:155-175 | `parse_infer` computes `IdentsSpec` with its own error text |
| Attributes.ParseUseInferred | builder-pattern-macro/src/attributes.rs:177-197 | `parse_use_inferred` computes `IdentsSpec` with its own error text |
| Attributes.GetDocuments | builder-pattern-macro/src/attributes.rs:199-209 | the `doc` attributes of the list, in order |
| Attributes.Validate | builder-pattern-macro/src/attributes.rs:211-220 | validation fails exactly for a hidden field without a default |
| Attributes.FromAttributes | builder-pattern-macro/src/attributes.rs:57-108 | the `for_each` fold, then `validate`, equals `Classify` |
| Attributes.ApplyAttribute | builder-pattern-macro/src/attributes.rs:60-102 | the closure body of the `for_each`: one attribute's effect on the record, equal to the fold step `Step` |
| Attributes.Classify | builder-pattern-macro/src/attributes.rs:57-108 | an accepted record is never hidden without a default |
| Attributes.StepKeeps | builder-pattern-macro/src/attributes.rs:60-102 | an attribute of another path leaves the record unchanged; a recorded default or visibility is never overwritten by an accepted step; `into` and `late_bound_default` stay on once set |
| Attributes.FoldErrorPersists | builder-pattern-macro/src/attributes.rs:60-102 | once an attribute fails, the rest of the fold keeps that failure |
| Attributes.FoldOkPrefix | builder-pattern-macro/src/attributes.rs:60-102 | a successful fold succeeded on every prefix |
| Attributes.LastIndex | builder-pattern-macro/src/attributes.rs:60-102 | the index of the last attribute of a kind, or none exactly when no attribute of that kind occurs |
| Attributes.StepFlags | builder-pattern-macro/src/attributes.rs:76-88 | one step sets `use_into`, `late_bound_default` and the visibility as the matching branch does, and `hidden`/`public` need an unset visibility |
| Attributes.StepDefault | builder-pattern-macro/src/attributes.rs:61-75 | one step: `default_async` always fails; `default`/`default_lazy` need no earlier default and set it with VALUE/LAZY; other attributes leave it |
| Attributes.StepSetters | builder-pattern-macro/src/attributes.rs:93-94 | one step replaces the setters exactly for a `setter(...)` attribute, with what it parses to |
| Attributes.StepInfer | builder-pattern-macro/src/attributes.rs:95-96 | one step replaces `infer` exactly for an `infer(...)` attribute, with what it parses to |
| Attributes.StepValidator | builder-pattern-macro/src/attributes.rs:89-90 | one step replaces the validator exactly for a `validator` attribute, which must carry an expression |
| Attributes.StepDocuments | builder-pattern-macro/src/attributes.rs:91-92 | one step sets the documents exactly for a `doc` attribute, to every `doc` attribute of the field |
| Attributes.FoldFlags | builder-pattern-macro/src/attributes.rs:76-101 | `use_into` iff `into` occurs; late-bound iff `late_bound_default` or `hidden` occurs; Hidden iff `hidden` occurs; Public iff `public` occurs |
| Attributes.FoldDefault | builder-pattern-macro/src/attributes.rs:61-75 | no `default_async` survives; a default exists iff `default` or `default_lazy` occurs, and it is that attribute's expression tagged VALUE or LAZY |
| Attributes.FoldDefaultPresence | builder-pattern-macro/src/attributes.rs:61-75 | no `default_async` survives, and a default exists iff `default` or `default_lazy` occurs |
| Attributes.FoldDefaultRule | builder-pattern-macro/src/attributes.rs:61-70 | the default is the expression of the `default` (VALUE) or `default_lazy` (LAZY) attribute |
| Attributes.FoldSetters | builder-pattern-macro/src/attributes.rs:93-94 | the setters are those of the last `setter(...)`, VALUE alone when there is none |
| Attributes.FoldInfer | builder-pattern-macro/src/attributes.rs:95-96 | `infer` is the list of the last `infer(...)`, empty when there is none |
| Attributes.FoldValidator | builder-pattern-macro/src/attributes.rs:89-90 | the validator is the expression of the last `validator`, none when there is none |
| Attributes.FoldDocuments | builder-pattern-macro/src/attributes.rs:91-92 | documents are all `doc` attributes of the whole list once one `doc` occurs, and empty before |
| Attributes.NoAttributes | builder-pattern-macro/src/attributes.rs:41-55 | an unannotated field gets the `Default` record |
| Attributes.DuplicateDefaultRejected | builder-pattern-macro/src/attributes.rs:61-75 | a second default-family attribute is rejected |
| Attributes.DefaultAsyncRejected | builder-pattern-macro/src/attributes.rs:71-75 | `default_async` is always rejected |
| Attributes.DuplicateVisibilityRejected | builder-pattern-macro/src/attributes.rs:76-86 | a second `hidden`/`public` is rejected |
| Attributes.HiddenWithoutDefaultRejected | builder-pattern-macro/src/attributes.rs:103-106 | `hidden` without any `default`/`default_lazy` is rejected, whichever order they come in |
| Attributes.HiddenIsLateBoundWithDefault | builder-pattern-macro/src/attributes.rs:76-81 | an accepted hidden field is late-bound and has a default |
| Attributes.ClassifiedFacts | builder-pattern-macro/src/attributes.rs:110-122 | a classified default is tagged VALUE or LAZY only, and a hidden field is late-bound with a default |
| StructInputs.MakeField | builder-pattern-macro/src/struct_input.rs:63-75 | the field keeps its identifier, type and classified attributes; its visibility becomes `pub` exactly when `public` was given |
| StructInputs.Parse | builder-pattern-macro/src/struct_input.rs:31-89 | the loop pushes each field onto the required or optional list (invariant: the lists equal the partition of the fields seen so far), fails with the first field's failure, then sorts both lists; the result is `ParseSpec` |
| StructInputs.PartitionErrorPersists | builder-pattern-macro/src/struct_input.rs:56-76 | after a field fails, the remaining fields do not change the outcome |
| StructInputs.PartitionOk | builder-pattern-macro/src/struct_input.rs:56-76 | parsing the fields fails exactly when some field fails |
| StructInputs.PartitionStep | builder-pattern-macro/src/struct_input.rs:58-75 | one iteration pushes the field onto the optional list iff it has a default, onto the required list otherwise |
| StructInputs.PartitionMeaning | builder-pattern-macro/src/struct_input.rs:54-76 | the required list is the fields without a default, the optional list those with one, each in declaration order |
| StructInputs.ParseSorted | builder-pattern-macro/src/struct_input.rs:31-89 | a successful parse means a named struct whose every field parsed; both lists are sorted by identifier, required fields have no default, optional ones have one, and together they are a permutation of the declared fields |
| StructInputs.ParsedPrefixClassified | builder-pattern-macro/src/struct_input.rs:56-57 | every parsed field carries attributes produced by the classifier |
| StructInputs.ParsedFieldsClassified | builder-pattern-macro/src/struct_input.rs:31-89 | every field of a parsed struct carries classified attributes |
| StructInputs.NumFields | builder-pattern-macro/src/struct_input.rs:112-114 | the number of fields, required and optional together |
| StructInputs.AllGenerics | builder-pattern-macro/src/struct_input.rs:134-139 | one slot variable `TyBuilderPattern{k+1}` per field |
| StructInputs.SlotVars | builder-pattern-macro/src/struct_input.rs:134-139 | the slot variables as header positions, in order |
| StructInputs.AllGenericsDistinct | builder-pattern-macro/src/struct_input.rs:134-139 | every slot gets its own variable |
| StructInputs.BuilderFields | builder-pattern-macro/src/struct_input.rs:141-155 | one builder field per struct field, in slot order, with the field's identifier and type |
| StructInputs.TokenizeTypes | builder-pattern-macro/src/struct_input.rs:157-201 | the loop's token stream equals `TypesTokens` |
| StructInputs.TypeNamesAreFilterMap | builder-pattern-macro/src/struct_input.rs:176-199 | the names written are the non-lifetime parameters, with inferred type parameters dropped under `omit_replaced` or renamed with `_`, in order |
| StructInputs.TypesTokensShape | builder-pattern-macro/src/struct_input.rs:159-201 | the stream is empty exactly when there are no parameters, when everything is replaced under `omit_replaced`, or when nothing is written; otherwise each written name is followed by one comma |
| StructInputs.LifetimesOnlyGiveNoTypes | builder-pattern-macro/src/struct_input.rs:159-201 | lifetime-only generics give an empty stream, with no stray comma |
| StructInputs.TokenizeImpl | builder-pattern-macro/src/struct_input.rs:222-283 | the two passes produce `ImplTokens` |
| StructInputs.WriteItems | builder-pattern-macro/src/struct_input.rs:238-281 | one pass writes each passing parameter, defaults left off, followed by a comma, in order |
| StructInputs.StepItems | builder-pattern-macro/src/struct_input.rs:238-281 | one more parameter adds its item and a comma exactly when it passes |
| StructInputs.ImplTokensShape | builder-pattern-macro/src/struct_input.rs:224-283 | the stream is empty exactly when there are no parameters or every one is a filtered-out type parameter; otherwise it is the lifetimes, then the kept parameters, each followed by a comma, and ends with a comma |
| StructInputs.DefaultedGenerics | builder-pattern-macro/src/struct_input.rs:285-291 | exactly the identifiers of the type parameters that have a default |
| StructInputs.SetterWhereClause | builder-pattern-macro/src/struct_input.rs:203-220 | the stream is `where` and each rewritten predicate followed by a comma, or empty when nothing is inferred, as `SetterWhereTokens` says |
| StructInputs.SetterWhereEmpty | builder-pattern-macro/src/struct_input.rs:203-220 | the setter `where` clause is empty exactly when nothing is inferred, and otherwise starts with `where` |
| StructImpls.EmptyGenerics | builder-pattern-macro/src/struct_impl.rs:73-77 | one `()` per field |
| StructImpls.NewState | builder-pattern-macro/src/struct_impl.rs:44-55 | the type `new()` returns has every slot `()` and both markers `()` |
| StructImpls.InitOutcomes | builder-pattern-macro/src/struct_impl.rs:81-121 | one starting value per field, in slot order |
| StructImpls.BuilderInitArgsShape | builder-pattern-macro/src/struct_impl.rs:81-121 | required fields start empty; an optional field has a default; a late-bound one starts empty; an early-bound VALUE default starts as `Setter::Default` of the evaluated expression with its `refl` witness; a LAZY default starts as `Setter::Lazy` of the producer |
| StructImpls.ParsedInitArgsDone | builder-pattern-macro/src/struct_impl.rs:92-119 | for a parsed struct neither `unimplemented!` arm is reached |
| StructImpls.CorrectedInitOutcomes | builder-pattern-macro/src/struct_impl.rs:93-95 | corrected start: one starting value per field, in slot order |
| StructImpls.CorrectedInitArgsShape | builder-pattern-macro/src/struct_impl.rs:93-95 | corrected start: a builder field is empty exactly when it is required; a late-bound optional field starts as `LateBoundDefault` with its witness; every other field starts as in `builder_init_args` |
| StructImpls.CorrectedOptionalStart | builder-pattern-macro/src/struct_impl.rs:93-95 | for one optional field, the corrected start is never empty and is `LateBoundDefault` exactly for late-bound fields |
| StructImpls.NewImplOmitsDefaulted | builder-pattern-macro/src/struct_impl.rs:25-31 | the `impl` header of `new` keeps exactly the type parameters without a default (besides lifetimes and const parameters) |
| StructImpls.OptionalInit | builder-pattern-macro/src/struct_impl.rs:88-118 | an optional field's start: empty when late-bound, `Default` (with `refl()`) for a VALUE default, `Lazy` for a LAZY default, `unimplemented!` otherwise; never an error |
| StructImpls.BuilderInitArgs | builder-pattern-macro/src/struct_impl.rs:81-121 | the literal of `new()` is produced exactly when no optional field reaches `unimplemented!`, with one entry per field |
| StructImpls.InitOutcomesDone | builder-pattern-macro/src/struct_impl.rs:81-121 | every entry succeeds exactly when every optional field's start succeeds, and none is an error |
| StructImpls.InitUndeclared | builder-pattern-macro/src/struct_impl.rs:93-99 | the only start `new()` writes that setter.rs does not declare is `Default`, for an optional field with an early-bound VALUE default |
| StructImpls.WhereClauseTokens | builder-pattern-macro/src/struct_impl.rs:33-35 | nothing when there is no `where` clause or it has no predicate; otherwise `where` and the predicates separated by commas, with a final `,` exactly when the user wrote one (the comma-terminated list, less its last comma when there was none) |
| StructImpls.NewImpl | builder-pattern-macro/src/struct_impl.rs:17-65 | `new()` returns the builder with `()` in every slot and both markers, on the type whose arguments list the lifetimes first, each followed by `,` |
| BuilderFunctions.CopyFields | builder-pattern-macro/src/builder/builder_functions.rs:18-27 | one entry per field, in slot order, copying that field from `self` |
| BuilderFunctions.GetGenerics | builder-pattern-macro/src/builder/builder_functions.rs:80-95 | the slot variables with `index` removed; the slot variables with `()` at `index`; the slot variables with the field type at `index` |
| BuilderFunctions.WriteValueSetter | builder-pattern-macro/src/builder/builder_functions.rs:97-176 | emits the value setter for slot `index` and overwrites that builder-field entry, leaving the others |
| BuilderFunctions.WriteLazySetter | builder-pattern-macro/src/builder/builder_functions.rs:178-241 | emits the `_lazy` setter for slot `index` and overwrites that builder-field entry |
| BuilderFunctions.WriteAsyncSetter | builder-pattern-macro/src/builder/builder_functions.rs:243-311 | emits the `_async` setter for slot `index` and overwrites that builder-field entry |
| BuilderFunctions.OverwrittenEntry | builder-pattern-macro/src/builder/builder_functions.rs:39-49 | because each setter writes only entry `index` of the shared clone, earlier setters of the same field do not affect a later one |
| BuilderFunctions.WriteFieldSetters | builder-pattern-macro/src/builder/builder_functions.rs:39-50 | a visible field gets its value, lazy and async setters in that order, each exactly when its flag is set |
| BuilderFunctions.ToTokens | builder-pattern-macro/src/builder/builder_functions.rs:16-53 | the walk with a counter that also advances past hidden fields emits exactly `Plans` |
| BuilderFunctions.FieldPlansFor | builder-pattern-macro/src/builder/builder_functions.rs:34-50 | every setter emitted for slot k is well formed for field k and carries index k |
| BuilderFunctions.FieldPlansIndex | builder-pattern-macro/src/builder/builder_functions.rs:34-50 | every setter emitted for slot k carries index k |
| BuilderFunctions.FieldPlansKinds | builder-pattern-macro/src/builder/builder_functions.rs:35-49 | field k gets a setter of a kind exactly when it is not hidden and its flags include that kind |
| BuilderFunctions.PlansIndexPrefix | builder-pattern-macro/src/builder/builder_functions.rs:29-51 | the setters for the first n fields belong to those fields |
| BuilderFunctions.PlansCoverPrefix | builder-pattern-macro/src/builder/builder_functions.rs:29-51 | among the first n fields, each emitted setter is well formed, and slot k has a setter of a kind iff field k is visible and enables it; a hidden field gets none, yet later fields keep their own slot index |
| BuilderFunctions.PlansForPrefix | builder-pattern-macro/src/builder/builder_functions.rs:29-51 | every setter of the first n fields is well formed for its own field |
| BuilderFunctions.PlanKindPrefix | builder-pattern-macro/src/builder/builder_functions.rs:29-51 | slot k has a setter of a kind among the first n fields' setters iff field k is visible and enables it |
| BuilderFunctions.PlanKindStable | builder-pattern-macro/src/builder/builder_functions.rs:29-51 | later fields add no setters for an earlier slot |
| BuilderFunctions.PlanKindEarlier | builder-pattern-macro/src/builder/builder_functions.rs:29-51 | the setters of the next field leave the earlier slots' setters as they were |
| BuilderFunctions.PlanKindLast | builder-pattern-macro/src/builder/builder_functions.rs:35-50 | the setters for the newest slot are those of its own field |
| BuilderFunctions.PlansCover | builder-pattern-macro/src/builder/builder_functions.rs:16-53 | for the whole struct: every emitted setter is well formed, and slot k has a setter of a kind iff field k is not hidden and enables that kind |
| BuilderFunctions.FieldPlanShape | builder-pattern-macro/src/builder/builder_functions.rs:166-175 | the setter for slot k declares the other slot variables and both markers, takes `()` at slot k, and returns the field type at slot k with the markers its kind sets |
| BuilderFunctions.PlanInPrefix | builder-pattern-macro/src/builder/builder_functions.rs:166-175 | the same header shapes hold for every setter of the first n fields |
| BuilderFunctions.BeforeAfter | builder-pattern-macro/src/builder/builder_functions.rs:85-92 | the before/after generics are the slot variables with `()` / the field type at `index` |
| BuilderFunctions.DeclaredVars | builder-pattern-macro/src/builder/builder_functions.rs:167 | every setter impl declares exactly the variables its header uses, each once |
| BuilderFunctions.OtherAt | builder-pattern-macro/src/builder/builder_functions.rs:87-88 | `other_generics` is the slot variables with slot `index` removed, shifting the later ones down |
| BuilderFunctions.DeclaredInHeader | builder-pattern-macro/src/builder/builder_functions.rs:167 | every declared variable occurs in the header |
| BuilderFunctions.HeaderDeclared | builder-pattern-macro/src/builder/builder_functions.rs:167 | every variable of the header is declared |
| BuilderFunctions.SlotPatsDistinct | builder-pattern-macro/src/builder/builder_functions.rs:167 | no header variable repeats |
| BuilderFunctions.SlotSetterApply | builder-pattern-macro/src/builder/builder_functions.rs:166-175 | a setter header applies exactly when its slot is `()`, and the result sets that slot to the field type and the markers as the return type says |
| BuilderFunctions.SetterTransition | builder-pattern-macro/src/builder/builder_functions.rs:131-298 | an emitted setter can be called exactly when its slot is unset; it sets the slot to the field type, sets the async marker only for `_async`, and sets `HavingLazyValidator` only for a lazy or async setter of a validated field |
| BuilderFunctions.LiteralUpdates | builder-pattern-macro/src/builder/builder_functions.rs:137-160 | the struct literal that copies every other field changes only the stored entry |
| BuilderFunctions.SetterCall | builder-pattern-macro/src/builder/builder_functions.rs:97-311 | a setter call type-checks exactly when its slot is unset; it never panics; it fails only for a validated value setter, with a `Validation failed: ` message; on success the new type is the impl's result and only the field's own entry changes, to a stored value |
| BuilderFunctions.StoredRepresentation | builder-pattern-macro/src/builder/builder_functions.rs:122-283 | what is stored: `Value` of the (converted, validated) value for the value setter; `Lazy`/`Async` of the producer, wrapped as `LazyValidated`/`AsyncValidated` when the field has a validator |
| BuilderFunctions.ValuePlan | builder-pattern-macro/src/builder/builder_functions.rs:97-176 | the value setter is named after the field, returns `Result` iff the field has a validator, keeps both markers, takes `()` in its slot and leaves the field type there, and stores in its own entry |
| BuilderFunctions.LazyPlan | builder-pattern-macro/src/builder/builder_functions.rs:178-241 | the `_lazy` setter never returns `Result`, keeps the async marker, sets the validator marker to `HavingLazyValidator` iff the field has a validator, and fills its own slot |
| BuilderFunctions.AsyncPlan | builder-pattern-macro/src/builder/builder_functions.rs:243-311 | the `_async` setter sets the async marker to `AsyncBuilderMarker`, the validator marker as the lazy setter does, and fills its own slot |
| BuilderFunctions.StoredEntry | builder-pattern-macro/src/builder/builder_functions.rs:122-283 | the stored entry exists iff the argument has the setter's shape, is an error only for a validated value setter, and is always a variant setter.rs declares, synchronous exactly for value and lazy setters |
| BuilderFunctions.Call | builder-pattern-macro/src/builder/builder_functions.rs:97-311 | a call that type-checks never panics; it fails only for a validated value setter; otherwise the new type is the header's transition, copied entries are unchanged and the own entry holds a declared variant |
| BuilderImpls.OptionalGenerics | builder-pattern-macro/src/builder/builder_impl.rs:45-53 | the slot variables of the optional fields, numbered after the required ones |
| BuilderImpls.SatisfiedGenerics | builder-pattern-macro/src/builder/builder_impl.rs:55-65 | each required slot fixed to its field type, each optional slot its own variable |
| BuilderImpls.BuildPats | builder-pattern-macro/src/builder/builder_impl.rs:122 | the `build` header fixes the required slots and the async marker and leaves the optional slots free and distinct |
| BuilderImpls.BuildApplies | builder-pattern-macro/src/builder/builder_impl.rs:122 | `build` can be called exactly when every required slot holds its field type and the async marker is the one the impl names |
| BuilderImpls.BuildDeclares | builder-pattern-macro/src/builder/builder_impl.rs:122 | the impl of `build` declares exactly the optional slot variables |
| BuilderImpls.BuildsExclusive | builder-pattern-macro/src/builder/builder_impl.rs:122-211 | no builder type can call both the synchronous and the asynchronous `build` |
| BuilderImpls.ValidatedPrefix | builder-pattern-macro/src/builder/builder_impl.rs:85-102 | the slots, in increasing order, of the fields with a lazy or async setter and a validator |
| BuilderImpls.StructInitArgs | builder-pattern-macro/src/builder/builder_impl.rs:67-83 | one entry per field in slot order, each unwrapping that field |
| BuilderImpls.GetSetterMeta | builder-pattern-macro/src/builder/builder_impl.rs:85-102 | the loop collects exactly the fields that need validation and replaces exactly their record entries by the bound variables |
| BuilderImpls.SyncLets | builder-pattern-macro/src/builder/builder_impl.rs:133-145 | one validating `let` per validated field, in order |
| BuilderImpls.WriteSyncBuilder | builder-pattern-macro/src/builder/builder_impl.rs:104-161 | the synchronous `build` returns the record when nothing needs validation, and otherwise validates first and returns `Result` |
| BuilderImpls.WriteAsyncBuilder | builder-pattern-macro/src/builder/builder_impl.rs:163-224 | the asynchronous `build` binds every field with a `let` in slot order, then returns `Ok` of the record of the bound variables |
| BuilderImpls.ToTokens | builder-pattern-macro/src/builder/builder_impl.rs:11-37 | a synchronous `build` is emitted exactly when every field has a value or lazy setter, an asynchronous one exactly when some field has an async setter |
| BuilderImpls.FromResult | builder-pattern-macro/src/builder/builder_impl.rs:140-143 | `Ok(v) => v`, `Err(e) => return Err(e)` |
| BuilderImpls.UnwrapNeverFails | builder-pattern-macro/src/builder/builder_impl.rs:73-81 | a record entry never returns a validator error |
| BuilderImpls.BoundValueFound | builder-pattern-macro/src/builder/builder_impl.rs:133-154 | the record reads for a validated slot the value its `let` bound |
| BuilderImpls.LetOutcomes | builder-pattern-macro/src/builder/builder_impl.rs:133-145 | one outcome per `let` |
| BuilderImpls.EntryOutcomes | builder-pattern-macro/src/builder/builder_impl.rs:152-156 | one outcome per record entry |
| BuilderImpls.SyncBuildPlanRunnable | builder-pattern-macro/src/builder/builder_impl.rs:104-161 | the synchronous `build` has one record entry per field and `let`s only on existing slots |
| BuilderImpls.SyncLetsDone | builder-pattern-macro/src/builder/builder_impl.rs:146-157 | after the validating `let`s succeeded, the record succeeds iff every field resolves, gives each field's value, cannot return an error, and otherwise stops at a field that does not resolve |
| BuilderImpls.SyncLetAt | builder-pattern-macro/src/builder/builder_impl.rs:133-145 | the i-th `let` resolves the i-th validated field |
| BuilderImpls.ValidatedBefore | builder-pattern-macro/src/builder/builder_impl.rs:85-102 | a validated field before the i-th one has an earlier `let` |
| BuilderImpls.SyncLetsStop | builder-pattern-macro/src/builder/builder_impl.rs:133-151 | when a validating `let` does not succeed, `build` returns `Result`, and the outcome is that of the first validated field in slot order that does not resolve |
| BuilderImpls.SyncBuild | builder-pattern-macro/src/builder/builder_impl.rs:104-161 | synchronous `build` applies iff every required slot is set and the async marker is `()`; it succeeds iff every field resolves, with each field's value; otherwise its outcome is a failing field's; an error comes only from a validated field, the first failing one in slot order |
| BuilderImpls.AsyncBuildPlanRunnable | builder-pattern-macro/src/builder/builder_impl.rs:163-224 | the asynchronous `build` has one `let` per field and one record entry per field |
| BuilderImpls.AsyncBuild | builder-pattern-macro/src/builder/builder_impl.rs:163-224 | asynchronous `build` applies iff every required slot is set and the async marker is `AsyncBuilderMarker`; its outcome is the fields' resolutions collected in slot order |
| BuilderImpls.SyncBuildMeets | builder-pattern-macro/src/builder/builder_impl.rs:104-161 | if each field resolves to an expected outcome without panicking, `build` does not panic, succeeds iff all succeed with exactly those values, and otherwise returns one of their errors |
| BuilderImpls.BuildHeader | builder-pattern-macro/src/builder/builder_impl.rs:121-211 | the `build` impl's type has one pattern per slot, the required ones fixed to their field types and the optional ones variables, then one trailing marker |
| BuilderImpls.SyncBuildPlan | builder-pattern-macro/src/builder/builder_impl.rs:104-161 | the synchronous `build` is declared on the `()` marker over the optional slot variables, returns `Result` exactly when it has `let`s, and has one record entry per field |
| BuilderImpls.SyncBuildPlanShape | builder-pattern-macro/src/builder/builder_impl.rs:104-161 | `Result` exactly when some field needs validation; the `let`s name those fields in increasing slot order; a record entry reads the `let`'s binding exactly for them |
| BuilderImpls.AsyncBuildPlan | builder-pattern-macro/src/builder/builder_impl.rs:163-224 | the asynchronous `build` is declared on `AsyncBuilderMarker`, returns `Result`, has one `let` per field in slot order, validating exactly the fields with a validator and a lazy or async setter, and a record of the bindings |
| BuilderImpls.UnwrapArg | builder-pattern-macro/src/builder/builder_impl.rs:76-79 | `self.f.unwrap()` panics on an empty field, yields a stored value or a producer's output, and never returns a validator error |
| BuilderImpls.ResolveLet | builder-pattern-macro/src/builder/builder_impl.rs:133-145 | a validating `let` panics on an empty field or a variant its `match` does not list, gives a stored value, and returns a validator error only for a validated producer |
| BuilderImpls.RunBuild | builder-pattern-macro/src/builder/builder_impl.rs:104-224 | `build` type-checks iff its header applies; when not every `let` succeeds it stops with the outcome of one that did not, and otherwise returns one value per field |
| DefaultGenerics.ResolveMeaning | builder-pattern/examples/default-generics.rs:184-205 | resolution never returns an error; an optional field as `new()` left it resolves to its evaluated default (early-bound via the stored value and its witness, late-bound via evaluation at the known type, lines 377-414); a required field resolves iff it holds a value or a producer; a stored value resolves to itself |
| DefaultGenerics.New | builder-pattern/examples/default-generics.rs:308-322 | `new()` gives one unset slot and one initial value per field |
| DefaultGenerics.Carried | builder-pattern/examples/default-generics.rs:467-488 | a setter's struct literal carries one entry per field |
| DefaultGenerics.SetAllState | builder-pattern/examples/default-generics.rs:217-227 | after distinct setter calls on `new()`, the set slots are exactly the called ones, each called field holds its value and every other field its initial value |
| DefaultGenerics.AssignedFrom | builder-pattern/examples/default-generics.rs:217-227 | a slot is assigned exactly when some call targets it |
| DefaultGenerics.IntendedBuild | builder-pattern/examples/default-generics.rs:176-227 | once every required field was set, `build` succeeds and gives each set field its value and every other field its evaluated default |
| DefaultGenerics.SecondCallRejected | builder-pattern/examples/default-generics.rs:209-227 | a setter cannot be called twice: its impl needs the slot to be `()` |
| DefaultGenerics.OpInference | builder-pattern/examples/default-generics.rs:16-115 | `Op::new().build()` is `Op<f64>` holding `None`; `optional_field(x)` rebinds `T` and `build` gives `Op<T_>` holding `x`; the setter cannot be called twice |
| DefaultGenerics.Resolve | builder-pattern/examples/default-generics.rs:376-413 | never an error; succeeds exactly for a set value or producer, an early-bound `Default` or a late-bound `LateBoundDefault`, whose value is the evaluated default |
| DefaultGenerics.Initial | builder-pattern/examples/default-generics.rs:308-320 | `new()` leaves exactly the required fields empty, and starts an optional field as `Default` when early-bound and `LateBoundDefault` when late-bound |
| DefaultGenerics.PassThrough | builder-pattern/examples/default-generics.rs:467-486 | a setter of another field carries a `LateBoundDefault` or `Value` unchanged and panics on anything else |
| DefaultGenerics.Set | builder-pattern/examples/default-generics.rs:452-488 | a setter type-checks iff its slot is unset; it marks the slot set, stores `Value(v)` there and leaves the other fields unchanged |
| DefaultGenerics.Build | builder-pattern/examples/default-generics.rs:376-420 | `build` type-checks iff every required slot is set; it never returns an error, and on success each field holds what it resolves to |
| Protocol.CalledStep | builder-pattern-macro/src/builder/builder_functions.rs:166-175 | a slot is called by a chain iff the first call targets it or the rest of the chain does |
| Protocol.AnyStep | builder-pattern-macro/src/builder/builder_functions.rs:221-298 | a chain uses an async setter, or hands a producer to a validated field, iff its first call does or the rest does |
| Protocol.StateAfterStep | builder-pattern-macro/src/builder/builder_functions.rs:166-175 | the type after a chain is computed one call at a time |
| Protocol.FreshStep | builder-pattern-macro/src/builder/builder_functions.rs:166-175 | setting a fresh slot keeps the remaining calls distinct and on unset slots exactly when the whole chain was |
| Protocol.TypedChain | builder-pattern-macro/src/builder/builder_functions.rs:166-175 | a chain of emitted setters type-checks iff it sets distinct fields that are all unset at the start; its type is then every called slot set to its field type with the markers the calls set (so no setter can be called twice) |
| Protocol.CallStep | builder-pattern-macro/src/builder/builder_functions.rs:97-311 | one call type-checks iff its slot is unset; if accepted it sets the type as the impl says and stores its value only in its own field; otherwise it is a validated value setter returning `Validation failed: ...` |
| Protocol.RunChain | builder-pattern-macro/src/builder/builder_functions.rs:97-311 | a chain that type-checks runs; it never panics; it completes only if it type-checks; it stops only at a validated value setter rejecting its value |
| Protocol.RunChainDone | builder-pattern-macro/src/builder/builder_functions.rs:97-311 | a typed chain completes iff every call is accepted; the builder then has the inferred type, untouched fields keep their start values and each called field holds what its call stored |
| Protocol.WellFormedRest | builder-pattern-macro/src/builder/builder_functions.rs:16-53 | the rest of a well-formed chain is well formed |
| Protocol.AllAcceptedStep | builder-pattern-macro/src/builder/builder_functions.rs:122-143 | every call is accepted iff the first is and every later one is |
| Protocol.SameCalled | builder-pattern-macro/src/builder/builder_functions.rs:16-53 | chains with the same calls call the same slots |
| Protocol.SameCallsSameState | builder-pattern-macro/src/builder/builder_functions.rs:166-175 | the order of setter calls does not change the builder's type |
| Protocol.SameCallsSameValues | builder-pattern-macro/src/builder/builder_functions.rs:137-160 | the order of setter calls does not change the builder's fields |
| Protocol.SameCallsSameBuilder | builder-pattern-macro/src/builder/builder_functions.rs:16-53 | two typed chains with the same calls in any order both run, succeed together, and then return the same builder |
| Protocol.SessionBuildsApply | builder-pattern-macro/src/builder/builder_impl.rs:11-37 | after a typed chain from `new()`, the synchronous `build` can be called iff every required field was set and no async setter was used, the asynchronous one iff every required field was set and some async setter was used |
| Protocol.CorrectedStart | builder-pattern-macro/src/struct_impl.rs:81-121 | in the corrected `new()`, an optional field starts as `LateBoundDefault` if late-bound, else as the evaluated value default or the default producer |
| Protocol.CorrectedDefaultResolves | builder-pattern/examples/default-generics.rs:377-414 | an optional field nobody set resolves to its default in the corrected `build` |
| Protocol.CorrectedSetResolves | builder-pattern-macro/src/builder/builder_impl.rs:133-145 | a field set by a call resolves in the corrected `build` to what the call means: the value, the producer's output, or the validator's verdict on it |
| Protocol.CorrectedFieldResolves | builder-pattern-macro/src/builder/builder_impl.rs:104-161 | after a typed chain from the corrected `new()`, each set or optional field resolves to its intended value |
| Protocol.CorrectedFieldsResolve | builder-pattern-macro/src/builder/builder_impl.rs:104-161 | once every required field is set, every field resolves to its intended value, never a panic |
| Protocol.CorrectedBuild | builder-pattern-macro/src/builder/builder_impl.rs:104-161 | the corrected synchronous `build` then never panics, succeeds iff every intended value does, with exactly those values, and otherwise returns one validator's error |
| Protocol.CorrectedSession | builder-pattern-macro/src/builder/builder_impl.rs:104-161 | end to end from the corrected `new()`: a typed synchronous chain covering the required fields runs without panic, succeeds iff every call is accepted, and then `build` gives each field its set value or its default, or a validator's error |
| Protocol.OneFieldBuild | builder-pattern-macro/src/builder/builder_impl.rs:117-129 | on a one-field struct without validation, `build` is the record literal resolving that field |
| Protocol.Intended | builder-pattern-macro/src/builder/builder_functions.rs:122-283 | a set field means the (converted) value or the producer's output, accepted exactly when the validator accepts it |
| Protocol.SessionVariants | builder-pattern-macro/src/struct_impl.rs:81-121 | after `new()` and a typed chain of setters, a called field holds a declared variant and the only undeclared one is an untouched early-bound VALUE default |
| Protocol.EarlyDefaultBuild | builder-pattern-macro/src/builder/builder_impl.rs:73-80 | as written, `build()` on a fresh builder with an early-bound `#[default(5)]` field reaches `unreachable!()`, while the intended resolution yields the default |
| Protocol.HiddenDefaultStart | builder-pattern-macro/src/struct_impl.rs:93-95 | as written, `new()` starts a hidden (late-bound) defaulted field as `None`; the corrected `new()` stores `LateBoundDefault` |
| Protocol.HiddenDefaultBuild | builder-pattern-macro/src/builder/builder_impl.rs:76 | as written, `build()` straight after `new()` on that struct panics on `unwrap` |
| Protocol.CorrectedHiddenDefaultBuild | builder-pattern/examples/default-generics.rs:385-399 | from the corrected start, the corrected `build` yields the default |
| LegacyAttributes.From | src/attributes.rs:22-41 | the loop's record after the attributes is the fold over all of them, stopping at the first failure |
| LegacyAttributes.FoldErrorPersists | src/attributes.rs:25-38 | once an attribute fails, the outcome stays that failure |
| LegacyAttributes.LastIndex | src/attributes.rs:25-38 | finds the last attribute of a kind among the first `n`, or says there is none |
| LegacyAttributes.FoldAccepted | src/attributes.rs:22-49 | the fold succeeds iff there is at most one `default` and every `default` and `validator` carries an expression; a default is then stored iff a `default` attribute occurs |
| LegacyAttributes.FoldFields | src/attributes.rs:22-63 | the record holds the last `default`'s and the last `validator`'s expressions, `use_into` iff some `into` occurs, all of the field's `doc` attributes in order iff some `doc` occurs, and is never hidden |
| LegacyAttributes.StepFields | src/attributes.rs:25-37 | one attribute changes only the entry its kind names |
| LegacyAttributes.NoAttributes | src/attributes.rs:11-20 | with no attributes: no default, no `into`, no validator, no documents |
| LegacyAttributes.DuplicateDefaultRejected | src/attributes.rs:26-30 | two `default` attributes on a field are rejected |
| LegacyFields.Cmp | src/field.rs:25-29 | fields compare equal iff their identifiers are equal |
| LegacyFields.PartialCmp | src/field.rs:31-35 | `partial_cmp` is always `Some(cmp)` |
| LegacyFields.Eq | src/field.rs:39-43 | equality is `cmp` returning `Equal` |
| LegacyFields.CmpByIdentOnly | src/field.rs:25-43 | comparison ignores visibility, type and attributes; swapping reverses it |
| LegacyFields.Documents | src/field.rs:15-22 | `documents` keeps only stored `doc` attributes |
| LegacyFields.DocumentsOfFolded | src/field.rs:15-22 | for a field whose attributes were folded, `documents` is every `doc` attribute in order if one occurred, none otherwise |
| LegacyStructInputs.Parse | src/struct_input.rs:26-78 | the push-and-sort loop computes the specification of `parse` |
| LegacyStructInputs.PartitionErrorPersists | src/struct_input.rs:51-64 | the first failing declaration decides the outcome |
| LegacyStructInputs.PartitionOk | src/struct_input.rs:51-64 | the partition succeeds iff every declaration parses |
| LegacyStructInputs.PartitionStep | src/struct_input.rs:52-63 | a field with a default goes to the optional list, any other to the required list |
| LegacyStructInputs.PartitionMeaning | src/struct_input.rs:49-64 | the two lists are the fields without and with a default, in declaration order |
| LegacyStructInputs.ParseFieldMeaning | src/struct_input.rs:52-63 | a declaration parses iff its attributes are accepted and it has an identifier (else `unwrap` panics); it keeps visibility and type |
| LegacyStructInputs.ParseSorted | src/struct_input.rs:26-78 | after `parse` both lists are sorted by identifier, required fields have no default, optional ones have one, and together they are a permutation of the declared fields |
| LegacyStructInputs.NumFields | src/struct_input.rs:126 | the number of fields is the length of the slot order |
| LegacyStructInputs.AllGenerics | src/struct_input.rs:124-129 | `TyBuilderPattern1..N`, one per field |
| LegacyStructInputs.BuilderFields | src/struct_input.rs:131-143 | one `Option` field per struct field, required then optional |
| LegacyStructInputs.Slots | src/struct_input.rs:156-187 | what the setter walk reads of each field, in slot order |
| LegacyStructInputs.BuilderFunctions | src/struct_input.rs:146-218 | one setter per field, setter `k` for slot `k` |
| LegacyStructInputs.ParsedNeverHidden | src/builder/functions.rs:40-43 | no parsed field is hidden |
| LegacyStructInputs.ParsedPrefixNeverHidden | src/attributes.rs:22-41 | no field built from the declarations is hidden |
| LegacyStructImpls.EmptyGenerics | src/struct_impl.rs:46-51 | `new()` returns the type with `()` in every slot |
| LegacyStructImpls.BuilderInitArgs | src/struct_impl.rs:53-71 | one entry per field: `None` for required fields, the default expression for optional ones |
| LegacyStructImpls.Defaults | src/struct_impl.rs:65-70 | the optional fields' default expressions, in order |
| LegacyStructImpls.NewIsStart | src/struct_impl.rs:28-37 | `new()` is the type-state builder's start with those defaults |
| LegacyFunctions.ToTokens | src/builder/functions.rs:13-95 | emits setter `k` iff field `k` is not hidden, in slot order, and each one is the setter for its slot |
| LegacyFunctions.SameAsBuilderFunctions | src/builder/functions.rs:40-43 | on a parsed struct the hidden skip never fires, so the setters are those of `builder_functions` |
| LegacyBuilderImpls.OptionalGenerics | src/builder/builder_impl.rs:44-52 | `TyBuilderPattern{r+1}..{r+o}`, the optional slots' variables |
| LegacyBuilderImpls.SatisfiedGenerics | src/builder/builder_impl.rs:54-64 | the required field types, then the optional slot variables |
| LegacyBuilderImpls.BuildApplies | src/builder/builder_impl.rs:25-29 | `build` applies iff every required slot holds its field type, whatever the optional slots hold |
| LegacyBuilderImpls.Session | src/builder/builder_impl.rs:11-78 | from `new()`: a chain type-checks iff it sets distinct fields; `build` then applies iff every required field was set; when every setter accepts, `build` returns each set value and each unset field's default |
| LegacyBuilderImpls.SessionTyping | src/builder/builder_impl.rs:25-29 | the typing and setter-outcome half of `Session` |
| LegacyBuilderImpls.SessionBuild | src/builder/builder_impl.rs:66-78 | the `build` half of `Session`: no `unwrap` panics |
| LegacyBuilderImpls.SessionSetup | src/builder/builder_impl.rs:25-29 | the parsed struct's `new()` and `build` header are the type-state builder's |
| LegacyBuilderImpls.ParsedHasDefaults | src/struct_input.rs:53-57 | every optional field of a parsed struct has a default |
| LegacyGenerics.TokenizeTypes | src/struct_input.rs:222-259 | the two loops compute `TypesTokens` |
| LegacyGenerics.TokenizeImpl | src/struct_input.rs:263-317 | the two loops compute `ImplTokens` |
| LegacyGenerics.SecondPassPrefix | src/struct_input.rs:236-256 | before the last parameter no comma is ever owed and each item is followed by its comma |
| LegacyGenerics.SecondPassWithComma | src/struct_input.rs:240-255 | a step at a non-lifetime with its own comma appends the item and the comma |
| LegacyGenerics.WrittenTerminated | src/struct_input.rs:236-256 | the written items are the non-lifetimes, each followed by a comma |
| LegacyGenerics.LifetimeFlagBeforeLast | src/struct_input.rs:230-235 | every lifetime before the last parameter has its comma, so the flag is set |
| LegacyGenerics.SecondPassLast | src/struct_input.rs:236-256 | the last parameter is written without a comma of its own |
| LegacyGenerics.SecondPassNoCommas | src/struct_input.rs:244-255 | a step at the last non-lifetime appends just the item |
| LegacyGenerics.SecondPassWhole | src/struct_input.rs:236-257 | the second pass and the closing comma write each non-lifetime followed by a comma |
| LegacyGenerics.FilterSame | src/struct_input.rs:236-239 | filters by predicates that agree give the same list |
| LegacyGenerics.TypesAgree | src/struct_input.rs:222-259 | with the last parameter a type or const, `tokenize_types` writes each identifier followed by a comma, as the current generator does |
| LegacyGenerics.ImplAgree | src/struct_input.rs:263-317 | with the last parameter a type or const, `tokenize_impl` writes what the current generator writes |
| LegacyGenerics.FirstPassLifetimes | src/struct_input.rs:267-273 | the first pass writes each lifetime followed by a comma |
| LegacyGenerics.SecondPassLifetimesOnly | src/struct_input.rs:236-239 | the second pass writes nothing when every parameter is a lifetime |
| LegacyGenerics.LifetimesOnlyStrayComma | src/struct_input.rs:226-257 | with only lifetimes, `tokenize_types` writes a lone `,`, where the current generator writes nothing |
| LegacyGenerics.TrailingCommaDoubled | src/struct_input.rs:255-315 | with a trailing comma after a last type parameter, both functions end in `, ,` |
| LegacyBuilders.AllGenerics | src/structure.rs:131-136 | the slot variables numbered 1 to N |
| LegacyBuilders.EmptyGenerics | src/structure.rs:138-143 | `()` in each of the N slots |
| LegacyBuilders.OptionalGenerics | src/structure.rs:145-151 | the slot variables after the `r` required ones |
| LegacyBuilders.SatisfiedGenerics | src/structure.rs:153-162 | the required field types, then the optional slot variables |
| LegacyBuilders.BuildApplies | src/structure.rs:116-124 | the `build` impl applies iff each required slot holds its field type; it declares exactly the optional slot variables, each once |
| LegacyBuilders.BuildHeaderDistinct | src/structure.rs:116 | the `build` impl's variables are distinct |
| LegacyBuilders.BuildAppliesIff | src/structure.rs:116 | the `build` impl applies iff each required slot holds its field type |
| LegacyBuilders.BuildHeaderVars | src/structure.rs:116 | the `build` impl declares exactly the optional slot variables |
| LegacyBuilders.CopyFields | src/structure.rs:221-229 | every field copied from `self`, in slot order |
| LegacyBuilders.BuilderFunctions | src/builder/functions.rs:35-94 | the walk with its mutable index emits the setter plans of the fields not skipped as hidden |
| LegacyBuilders.PlansPrefixCover | src/builder/functions.rs:35-53 | after `n` fields: every emitted setter belongs to a field before `n`, each such field not skipped has its setter, in slot order |
| LegacyBuilders.PlansCover | src/builder/functions.rs:35-94 | setter `k` is emitted iff field `k` is not skipped; the setters come in slot order |
| LegacyBuilders.PlansAllSet | src/struct_input.rs:166-217 | without the hidden skip, setter `k` is emitted for every field `k` |
| LegacyBuilders.NoHiddenSame | src/builder/functions.rs:40-43 | with no hidden field, the skip changes nothing |
| LegacyBuilders.PlanFields | src/struct_input.rs:170-187 | setter `i` is for field `i`: its name, type, `into` and validator come from that field |
| LegacyBuilders.HeadersAreSlotPats | src/struct_input.rs:172-177 | setter `i` is declared with `()` in slot `i` and returns the field type there, other slots unchanged variables |
| LegacyBuilders.SlotPatsDistinct | src/struct_input.rs:172-177 | the variables of a setter impl are distinct |
| LegacyBuilders.DeclaredVars | src/struct_input.rs:172-173 | a setter impl declares exactly the variables it uses |
| LegacyBuilders.SetterTransition | src/struct_input.rs:209 | setter `i` applies iff slot `i` is `()`, and then sets that slot to the field type and keeps every other slot |
| LegacyBuilders.CallStep | src/struct_input.rs:178-207 | a call type-checks iff its slot is `()`; it then stores `value.into()` (through the validator) in its own field only, or returns `Err(())` when the validator rejects |
| LegacyBuilders.InitValues | src/struct_impl.rs:55-71 | required fields start `None`, optional ones `Some(evaluated default)` |
| LegacyBuilders.BuildOutcome | src/builder/builder_impl.rs:66-78 | `build` succeeds iff every field holds a value and returns exactly those values; otherwise an `unwrap` panics |
| LegacyBuilders.CalledStep | src/struct_input.rs:166-217 | a slot is called by a chain iff the first call or the rest calls it |
| LegacyBuilders.FromPlansRest | src/struct_input.rs:166-217 | the rest of a chain of emitted setters is one too |
| LegacyBuilders.FreshStep | src/struct_input.rs:209 | setting a fresh slot keeps the remaining calls distinct and on unset slots exactly when the whole chain was |
| LegacyBuilders.IndicesInRange | src/struct_input.rs:166-217 | every call targets a field |
| LegacyBuilders.TypedChain | src/struct_input.rs:209 | a chain type-checks iff its calls are distinct and on slots holding `()`; its type then has each called slot set to its field type |
| LegacyBuilders.ValueForStep | src/struct_input.rs:178-179 | a call on another slot does not change what a field receives |
| LegacyBuilders.ValueForFirst | src/struct_input.rs:178-179 | a call stores its value in its own field |
| LegacyBuilders.RunChain | src/struct_input.rs:188-207 | a typed chain runs; it returns a builder iff every validator accepts, else `Err(())`; the builder holds what each call stored, other fields as they were |
| LegacyBuilders.Session | src/builder/builder_impl.rs:25-33 | from `new()`: a chain type-checks iff distinct; `build` applies iff every required field was set; when every setter accepts, `build` never panics and returns each set value and each unset field's evaluated default |
| LegacyBuilders.SessionTyping | src/builder/builder_impl.rs:25-29 | the typing half of `Session` |
| LegacyBuilders.SessionBuild | src/builder/builder_impl.rs:66-78 | the `build` half of `Session` |
| LegacyBuilders.ValueForAccepted | src/struct_input.rs:194-203 | with every setter accepting, every called field receives a value |
| LegacyBuilders.Stored | src/struct_input.rs:178-203 | `value.into()`; an error only when there is a validator; without a validator or `into`, the value itself |
| LegacyBuilders.Call | src/struct_input.rs:166-210 | a call type-checks iff the setter header applies; it is rejected only by a validator; otherwise its slot is filled and every entry except its own is unchanged |
| LegacyBuilders.Build | src/builder/builder_impl.rs:66-78 | `build` never returns an error, and on success returns each field's value in slot order |
| Structures.FindDefault | src/structure.rs:48 | the first `default` attribute, or none |
| Structures.ParseFieldMeaning | src/structure.rs:46-61 | a declaration parses iff it has an identifier and its first `default` attribute, if any, carries an expression; the field then has an expression iff some `default` attribute occurs, namely the first one's |
| Structures.Parse | src/structure.rs:28-71 | the push loop computes the specification of `parse` |
| Structures.PartitionErrorPersists | src/structure.rs:46-62 | the first failing declaration decides the outcome |
| Structures.PartitionOk | src/structure.rs:46-62 | the partition succeeds iff every declaration parses |
| Structures.PartitionStep | src/structure.rs:48-61 | a field with a `default` goes to the optional list, any other to the required list |
| Structures.PartitionMeaning | src/structure.rs:44-62 | the two lists are the fields without and with an expression, in declaration order |
| Structures.ParseMeaning | src/structure.rs:28-71 | after `parse`: a named struct, every declaration parsed, the lists are the filters in declaration order (no sort), together a permutation of the fields |
| Structures.NumFields | src/structure.rs:133 | the number of fields is the length of the slot order |
| Structures.AllGenerics | src/structure.rs:131-136 | `U1..UN`, one per field |
| Structures.EmptyGenerics | src/structure.rs:138-143 | `()` in every slot |
| Structures.OptionalGenerics | src/structure.rs:145-151 | `U{r+1}..U{r+o}` |
| Structures.SatisfiedGenerics | src/structure.rs:153-162 | the required field types, then `U{r+1}..U{r+o}` |
| Structures.BuilderFields | src/structure.rs:164-176 | one `Option` field per struct field, required then optional |
| Structures.BuilderInitArgs | src/structure.rs:178-195 | `None` for each required field, the default expression for each optional one |
| Structures.Defaults | src/structure.rs:189-194 | the optional fields' expressions, in order |
| Structures.Slots | src/structure.rs:235-250 | every setter takes `Into`, has no validator and is never skipped |
| Structures.BuilderFunctions | src/structure.rs:210-259 | one setter per field, setter `k` for slot `k`, each taking `Into` and returning the builder |
| Structures.SettersAccept | src/structure.rs:250-255 | every setter call returns the builder |
| Structures.SessionSetup | src/structure.rs:108-124 | `new()` and the `build` header are the type-state builder's |
| Structures.Session | src/structure.rs:103-126 | from `new()`: a chain type-checks iff distinct and always returns a builder; `build` applies iff every required field was set, and then never panics and returns each set value or evaluated default |
| Structures.ParsedHasExprs | src/structure.rs:49-54 | every optional field of a parsed struct has an expression |
| StubStructures.Parse | builder-pattern/src/structure.rs:23-64 | the push loop computes the specification of `parse` |
| StubStructures.PartitionErrorPersists | builder-pattern/src/structure.rs:41-55 | the first failing declaration decides the outcome |
| StubStructures.PartitionOk | builder-pattern/src/structure.rs:41-55 | the partition succeeds iff every declaration parses |
| StubStructures.PartitionStep | builder-pattern/src/structure.rs:43-54 | a field with a `default` goes to the optional list, any other to the required list |
| StubStructures.PartitionMeaning | builder-pattern/src/structure.rs:39-55 | the two lists are the fields without and with an expression, in declaration order |
| StubStructures.ParseFieldMeaning | builder-pattern/src/structure.rs:43-53 | a field is optional iff it has a `default` attribute, whose first occurrence gives its expression |
| StubStructures.ParseMeaning | builder-pattern/src/structure.rs:23-64 | after `parse`: a named struct, the lists are the filters in declaration order, together a permutation of the fields |
| StubStructures.ToTokens | builder-pattern/src/structure.rs:66-72 | emits `struct <Ident>Builder {}` |
| StubStructures.BuilderNamesDistinct | builder-pattern/src/structure.rs:68 | different structs get differently named builders |

## Left out

- Parsing and token plumbing (`syn`, `quote`, `proc_macro2`) are foreign library calls. A derive input arrives already split into fields and attributes. Types and expressions are opaque strings. Emitted code is modelled by what it decides, not as token text.
- `replace_type_params_in` and the substitution inside `with_param_default` (builder-pattern-macro/src/struct_input.rs:293-312) have no body to model. The substituted type is an input to the model.
- Generated documentation text is cosmetic and not modelled: `documents()` in builder_functions.rs and struct_impl.rs, the `# field` headers of src/builder/functions.rs:103-121, and the stubs of src/documents.rs. The collected doc attributes themselves are modelled.
- `println!` in src/attributes.rs:56,60 and builder-pattern/src/structure.rs:42 is output only.
- The templates builder-pattern-macro/src/builder/builder_decl.rs and src/builder/decl.rs only reuse `all_generics` and `builder_fields`, which are modelled. The proc-macro entry points in both `lib.rs` files and the re-exports in builder-pattern/src/lib.rs are not modelled.
- The async runtime is not modelled. A future is an opaque producer whose output is known, and awaiting is resolving it in field order.
- Closure bodies and captures are not modelled. A closure is a tag that `Env.call` turns into a value.
- The `unsafe` transmute in `refl::Id::cast` is modelled as the identity on values.
- Rust's own type checker is not modelled. It appears only as matching impl headers against builder types (`TypeState`): inference of generic arguments beyond that matching, `TypeId` checks and `compile_fail` doctests are out of scope.
- The order in which `Vec::sort` keeps equal identifiers is not modelled. Rust field names are unique, so sorting by identifier is stated as "sorted and a permutation".
- BuilderImpls.SyncBuild: the source names `ValidatedSetter::Lazy`/`Value`/`Async` in the generated `build`. The model reads these as the `LazyValidated`, `Value` and `AsyncValidated` variants of the one value union `Setter.ValueRepr`, because the two enums' variants do not line up in this snapshot. A variant a generated `match` has no arm for is the outcome `Panicked(NoArm)`; in Rust this would be a compile error.
- BuilderImpls.BuildHeader, BuilderImpls.BuildPats, BuilderImpls.BuildApplies, Protocol.SessionBuildsApply: the current generator disagrees with itself on the number of marker parameters. builder-pattern-macro/src/builder/builder_decl.rs:41-43 declares three (`AsyncFieldMarker`, `ValidatorOption`, `ValidatorDefault`). The setter impls at builder-pattern-macro/src/builder/builder_functions.rs:131,154,167,228,298 carry two. The `build` impls at builder-pattern-macro/src/builder/builder_impl.rs:121,146,211 name one trailing marker, `()` or `AsyncBuilderMarker`. The model gives the builder type two markers, as `new()` and the setters write it, and reads `build`'s single marker as the async marker. The second marker (`ValidatorOption`) is therefore unconstrained by `build`, so these members say nothing about it.
- The current generator's files come from two revisions of the same code. builder-pattern-macro/src/struct_impl.rs and builder-pattern-macro/src/struct_input.rs are the newer one: they pass arguments to `tokenize_impl`/`tokenize_types` (struct_impl.rs:31,37; struct_input.rs:159,224), write the marker field as `__builder_phantom` with `::core`, and have `new()` write `Setter::Default`. builder-pattern-macro/src/builder/builder_decl.rs, builder_functions.rs, builder_impl.rs and builder-pattern/src/setter.rs are the older one: they call `tokenize_impl()`/`tokenize_types()` without arguments (builder_decl.rs:25,27; builder_functions.rs:109-110,191-192,256-257; builder_impl.rs:113,116,172,175), write `_phantom`, and setter.rs has no `Default`/`LateBoundDefault` variants. The model follows each file as written, and the marker field's name is not modelled.
- BuilderImpls.FromResult: the `{:?}` text of a validator's error is `Env.debug`, an uninterpreted function.
- LegacyAttributes.FoldFields: src/builder/functions.rs:40 reads `attrs.hidden`, which src/attributes.rs never declares. The model gives the earlier record a `hidden` flag that `From` never sets, so the hidden skip is modelled but never taken on parsed input.
- LegacyFields.Documents: src/attributes.rs stores doc token streams, but src/field.rs:15-22 filters them as attributes. The model keeps the whole attributes, so the filter has something to read.
- LegacyStructImpls.Defaults: requires that every optional field has a default expression. `parse` guarantees this (LegacyBuilderImpls.ParsedHasDefaults); `new()` on an input where this fails is not modelled.
- Structures.Defaults: same requirement, guaranteed by Structures.ParsedHasExprs.
- `LegacyGenerics` is written once for src/struct_input.rs:222-317. src/structure.rs:261-356 is a line-for-line copy and is not modelled separately.
- The orchestration functions that only pass values between the modelled pieces are represented by the session lemmas (`Protocol`, `LegacyBuilders.Session`), not as functions of their own. These are StructInput's `to_tokens` (src/struct_input.rs:80-106) and `StructureInput::to_tokens` (src/structure.rs:73-128).
- Producers are evaluated when the model's `build` resolves them. The model does not capture that the evaluation is deferred in time, or any side effects of evaluating it.

## Findings

| source | as written | input that shows it | evidently intended | confidence | as-written member | corrected member |
|---|---|---|---|---|---|---|
| builder-pattern-macro/src/builder/builder_impl.rs:76-79 | `build` resolves only `Setter::Value` and `Setter::Lazy`; every other variant goes to `unreachable!()` | a field `#[default(5)] a: i32`, `new()` then `build()`: `new()` stores `Setter::Default(5, refl())` (struct_impl.rs:96-101) | resolve an early-bound default to its value, as `default-generics.rs` does. The defect appears where the newer builder-pattern-macro/src/struct_impl.rs is paired with the older builder_impl.rs and setter.rs (see Left out). | not executed | Protocol.EarlyDefaultBuild | Protocol.CorrectedDefaultResolves |
| builder-pattern-macro/src/struct_impl.rs:93-95 | a late-bound default (including every `hidden` field) starts as `None` | `#[hidden] #[default(5)] a: i32`, `new()` then `build()`: the `unwrap()` at builder_impl.rs:76 panics | start as a late-bound default marker and evaluate the default in `build`. The defect appears where the newer builder-pattern-macro/src/struct_impl.rs is paired with the older builder_impl.rs and setter.rs (see Left out). | not executed | Protocol.HiddenDefaultBuild | Protocol.CorrectedHiddenDefaultBuild |
| src/struct_input.rs:226-257 | with only lifetime parameters, `tokenize_types` still writes the closing `,` | `struct A<'a>`: the builder type becomes `ABuilder<'a, , ()>` | write nothing when no type or const parameter is left, as builder-pattern-macro/src/struct_input.rs:159-201 does | not executed | LegacyGenerics.LifetimesOnlyStrayComma | StructInputs.LifetimesOnlyGiveNoTypes |
| src/struct_input.rs:255-315 | each parameter's own comma is written, and then one more | `struct A<T,>` (trailing comma): both streams end in `T , ,` | one comma after each parameter, as builder-pattern-macro/src/struct_input.rs:159-283 writes | not executed | LegacyGenerics.TrailingCommaDoubled | StructInputs.ImplTokensShape |
