# componentize-mbt adapter model

A Dafny model of `componentize` in `crates/componentize/src/lib.rs`. This is the adapter that turns the
text module a MoonBit compiler emits into the core module of a WebAssembly Component. The model covers the
two pure parts of the adapter:

- **World augmentation.** If no export of the selected WIT world is a function named `mbt-init`, the
  adapter inserts `export mbt-init: func();` under the key `mbt-init`.
- **Field-list rewrite.** This is one pass over the module's ordered fields:
  - drop the top-level imports from module `spectest`;
  - rename the memory exported exactly as `moonbit.memory` to `memory`;
  - rename a function exported once as `q::key` to the generator's symbol for `key`;
  - rename the `_start` export to `mbt-init`;
  - scan inline function bodies for direct calls;
  - append every builtin shim that some body calls, once each.

Modules:

- `Wrappers`: `Option`.
- `Strings`: leftmost substring search and `split_once`.
- `Wit`: the world, its exports and `Augment`.
- `Shims`: the six-entry catalog and the one-shot `cabi_realloc` shim. Each shim is identified by the call
  that activates it, and template bodies stay opaque.
- `Wast`: module fields, function bodies as flat instruction lists, and the parsed `.wat`.
- `Rewrite`: `retain` and the per-field rewrite rules.
- `Scan`: the call scan as the source's state machine over `impls`, `builtins` and `realloc`. It is proved
  equal to an independent description: the set of names that some inline body calls.
- `Componentize`: the whole pass, the top-level adapter, and the source's imperative loops as methods. The
  methods are proved equal to the functional pass.

The symbol map from the binding generator is a parameter, `symbols: map<string, string>`. The source
appends builtins in `HashMap` iteration order, which is unspecified. The model takes that order as a
parameter `order`: any duplicate-free listing of the seven possible builtin keys. The model proves that the
multiset of appended shims does not depend on it.

The adapter renames the `_start` export to `mbt-init` (lib.rs:186-188) and inserts no start section. It
does not change any function's result arity; the symbol map it reads holds names only (lib.rs:162-163).

Only top-level `Import` fields from module `spectest` are dropped, as in the source's `matches!` on
`ModuleField::Import`. A function imported inline from `spectest`, `(func (import "spectest" ..) ..)`, is a
`Func` field with an `Imported` kind and is kept, in the source and in the model. Input field lists contain
no `Builtin` fields; those are only the shims the adapter appends.

## Model

| member | source | states |
|---|---|---|
| Wit.Augment | crates/componentize/src/lib.rs:47-71 | the result always has a function export named `mbt-init`; a world that already had one (under any key) is returned unchanged; otherwise the key `mbt-init` is set, replacing a non-function item stored there if any, and holds a freestanding function with no params, empty named results and no docs, and every other export and the imports are kept |
| Wit.AugmentIdempotent | crates/componentize/src/lib.rs:47-71 | augmenting twice equals augmenting once |
| Strings.FindFrom | crates/componentize/src/lib.rs:161 | returns the leftmost occurrence of the separator at or after a position, or none when there is no occurrence there |
| Strings.SplitOnce | crates/componentize/src/lib.rs:161 | a split reassembles the input as `before + sep + after` with no occurrence starting inside `before`; no split means the separator occurs nowhere |
| Strings.SplitAtFirstOccurrence | crates/componentize/src/lib.rs:161 | whichever position is the leftmost occurrence, the split happens exactly there |
| Rewrite.Retain | crates/componentize/src/lib.rs:138-146 | a field survives iff it is in the input and is not a top-level `Import` field from module `spectest` |
| Rewrite.RetainConcat | crates/componentize/src/lib.rs:138-146 | retaining distributes over concatenation, so surviving fields keep their relative order |
| Rewrite.RenameExports | crates/componentize/src/lib.rs:160-166 | the name list keeps its length, and changes only when it held one name, which becomes a mapped symbol |
| Rewrite.InlineFuncRenamed | crates/componentize/src/lib.rs:155-166 | an inline function exported as the single name `q::key`, split at the first `::`, is re-exported under `symbols[key]` when `key` is mapped and is unchanged otherwise |
| Rewrite.RenameKeepsUnqualified | crates/componentize/src/lib.rs:160-166 | names without `::`, and name lists of length other than one, are left unchanged |
| Rewrite.RewriteField | crates/componentize/src/lib.rs:147-190 | every field keeps its kind and its spectest-import status; a memory's names change iff they were exactly `["moonbit.memory"]`, and then become `["memory"]`; functions keep id and body; imported functions, imports, builtins and other fields are unchanged; an export keeps its target and is renamed only from `_start` to `mbt-init` |
| Rewrite.RewriteAll | crates/componentize/src/lib.rs:147-191 | each kept field is rewritten where it stands |
| Shims.CatalogKeyedByCallTarget | crates/componentize/src/lib.rs:79-129 | the catalog maps each of its six names to the shim that name activates and covers every shim except `cabi_realloc`, which `rael.malloc` activates and which is not in the catalog |
| Shims.CallTargetInjective | crates/componentize/src/lib.rs:79-129 | distinct shims are activated by distinct call names |
| Scan.CallTargets | crates/componentize/src/lib.rs:167-169 | a name is a call target of a body iff some instruction is `call $name` |
| Scan.CalledNamesMeaning | crates/componentize/src/lib.rs:155-184 | the names the scan collects are exactly those called from some inline function body |
| Scan.Activated | crates/componentize/src/lib.rs:167-180 | the expected builtin table is keyed by each shim's activating call name |
| Scan.ActivatedIffCalled | crates/componentize/src/lib.rs:167-180 | a shim is in the expected table iff its call name was seen, and it is stored under that name |
| Scan.StartAccounts | crates/componentize/src/lib.rs:79-129 | the initial state (full catalog, empty table, realloc available) is the state after seeing no calls |
| Scan.VisitCallAccounts | crates/componentize/src/lib.rs:169-180 | one `call $name` takes the catalog shim for `name` if still pending, and the realloc shim on the first `rael.malloc`, and nothing else |
| Scan.CallTargetsSnoc | crates/componentize/src/lib.rs:167-184 | the calls of a body are the calls of its prefix plus those of its last instruction |
| Scan.VisitInstrsAccounts | crates/componentize/src/lib.rs:167-184 | scanning a body in order reaches the state of having seen all its call targets |
| Scan.VisitFieldsAccounts | crates/componentize/src/lib.rs:147-191 | scanning the fields in order reaches the state of having seen every name called from an inline body |
| Scan.ScanActivatesExactlyCalled | crates/componentize/src/lib.rs:147-191 | the final builtin table equals the expected table for the set of called names |
| Componentize.Appended | crates/componentize/src/lib.rs:193-196 | every appended field is a builtin shim |
| Componentize.AppendedCount | crates/componentize/src/lib.rs:193-196 | a shim is appended exactly once when its key is listed and present in the table, otherwise not at all |
| Componentize.RewriteModule | crates/componentize/src/lib.rs:133-199 | the output is the kept fields, each rewritten in place, followed by the appended shims |
| Componentize.NoSpectestImportSurvives | crates/componentize/src/lib.rs:138-146 | no top-level `Import` field from `spectest` appears anywhere in the output |
| Componentize.ShimAppendedIffCalled | crates/componentize/src/lib.rs:167-196 | each shim appears exactly once if some inline body calls its name (for `cabi_realloc`, `rael.malloc`) and zero times otherwise |
| Componentize.ShimOrderIrrelevant | crates/componentize/src/lib.rs:193-196 | the multiset of appended shims is the same for every hash-table iteration order |
| Componentize.RepeatedMallocAppendsReallocOnce | crates/componentize/src/lib.rs:167-196 | two calls to `rael.malloc`, one to `printc` and one to an unknown name append exactly `cabi_realloc` and `printc`, once each |
| Componentize.NoCallsNoShims | crates/componentize/src/lib.rs:167-196 | a module that calls no shim gets nothing appended |
| Componentize.GreetModule | crates/componentize/src/lib.rs:133-199 | memory `moonbit.memory`, function `ns::greet` mapped to `greet` and export `_start` become memory `memory`, export `greet` and export `mbt-init`, with no shims appended |
| Componentize.Componentize | crates/componentize/src/lib.rs:45-199 | the world gains an `mbt-init` function export; a text module keeps no top-level `Import` field from `spectest`; anything other than a text module is passed through unchanged |
| Componentize.RetainFields | crates/componentize/src/lib.rs:138-146 | the retain loop computes the retained field list |
| Componentize.ScanBody | crates/componentize/src/lib.rs:167-184 | the instruction loop with mutable `impls`, `builtins` and `realloc` computes the state-machine scan of the body |
| Componentize.RewriteAndScan | crates/componentize/src/lib.rs:147-191 | the `iter_mut` loop yields the rewritten fields and the scan state of all kept fields |
| Componentize.PushBuiltins | crates/componentize/src/lib.rs:193-196 | the push loop appends the table's shims in the given order |
| Componentize.TransformFields | crates/componentize/src/lib.rs:133-199 | the imperative pass equals the functional pass `RewriteModule` |

## Left out

- Reading the `.wat` file, choosing the output path and writing the `.wasm` (`Opts::run`, lib.rs:24-40): this is I/O.
- Parsing the `.wat` and the shim templates with `wast`: these are foreign library calls. The parsed field list is the input, and parse failures (the `?` on `ParseBuffer::new` and `parse`) are not modelled.
- Encoding the module, `embed_component_metadata` and `ComponentEncoder` (lib.rs:201-203): these are foreign library calls.
- Running `wit_bindgen_mbt::MoonBit::generate` to obtain `exported_symbols` (lib.rs:74-76): its code is not part of this model, so the map is a parameter.
- The text of the shim templates (lib.rs:82-128): each shim is an opaque token named by its activating call.
- The iteration order of the builtin `HashMap` (lib.rs:193): it is a parameter, and only the multiset of appended shims is specified.
- The insertion order of the world's export `IndexMap`: exports are modelled as a `map`.
- Parts of fields that the pass never reads are omitted: a memory's limits, a function's type and locals, and an import's item. Field kinds the pass never inspects are collapsed into `Other`.
- Bodies are flat instruction lists, as `wast` stores them in `expression.instrs`. Only `call` with a symbolic `$id` target activates a shim. A numeric call target does not.
- Strings are sequences of characters, not UTF-8 bytes. Since `::` is ASCII, `split_once` finds the same split either way.
- Componentize.Componentize: it does not restate that the world is exactly `Augment`'s result; `Wit.Augment` and `Componentize.RewriteModule` carry those properties.
- lib.rs:45-199 has no start section and no result-arity correction, so neither is modelled.
- The CLI in `src/main.rs` and `src/bin/componentize-mbt.rs`, the `todo!()` generator in `src/bindgen.rs`, and the wasmtime example runners are not part of this model.
