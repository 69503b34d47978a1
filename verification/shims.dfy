/** The builtin shim catalog: six canonical-ABI helper functions keyed by
    the name a module calls them by, plus the one-shot `cabi_realloc`
    shim, activated by a call to the compiler's allocator `rael.malloc`.
    The template bodies are opaque: a shim is identified by its name. */
module Shims {

  datatype Shim =
    | MemoryCopy
    | LoadI32
    | LoadI64
    | BytesData
    | StringData
    | Printc
    | CabiRealloc

  /** The allocator routine whose first call activates `cabi_realloc`. */
  const MallocName: string := "rael.malloc"

  /** The direct-call target that activates shim `s`. */
  function CallTarget(s: Shim): string {
    match s
    case MemoryCopy => "rael.memory_copy"
    case LoadI32 => "rael.load_i32"
    case LoadI64 => "rael.load_i64"
    case BytesData => "rael.bytes_data"
    case StringData => "moonbit.string_data"
    case Printc => "printc"
    case CabiRealloc => MallocName
  }

  /** The catalog `impls`: the six ordinary shims by name. */
  const Catalog: map<string, Shim> := map[
    "rael.memory_copy" := MemoryCopy,
    "rael.load_i32" := LoadI32,
    "rael.load_i64" := LoadI64,
    "rael.bytes_data" := BytesData,
    "moonbit.string_data" := StringData,
    "printc" := Printc]

  /** Every key the builtin table can ever hold. */
  const BuiltinKeys: set<string> := Catalog.Keys + {MallocName}

  /** The catalog is keyed by call target, holds every shim but the
      allocator one, and the allocator name is not a catalog key. */
  lemma CatalogKeyedByCallTarget()
    ensures forall n :: n in Catalog ==> CallTarget(Catalog[n]) == n
    ensures forall s: Shim :: s != CabiRealloc ==> CallTarget(s) in Catalog && Catalog[CallTarget(s)] == s
    ensures MallocName !in Catalog
    ensures CallTarget(CabiRealloc) == MallocName
    ensures forall s: Shim :: CallTarget(s) in BuiltinKeys
  {
  }

  /** Distinct shims are activated by distinct names. */
  lemma CallTargetInjective(a: Shim, b: Shim)
    ensures CallTarget(a) == CallTarget(b) ==> a == b
  {
  }
}
