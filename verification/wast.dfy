/** The parsed text module (`wast::core`), reduced to what the adapter
    inspects: the ordered list of module fields. */
module Wast {
  import opened Wrappers
  import opened Shims

  datatype Index = Id(name: string) | Num(n: nat)

  /** An instruction of a function body; only direct calls matter here. */
  datatype Instr = Call(target: Index) | Op(code: nat)

  datatype FuncKind =
    | Inline(instrs: seq<Instr>)
    | Imported(modName: string, field: string)

  /** A top-level module field. A parsed `.wat` never holds `Builtin`
      fields: those are only the shims the adapter appends, so shim
      minimality over the appended suffix is shim minimality over the
      whole output. */
  datatype Field =
    | Import(modName: string, field: string)
    | Memory(names: seq<string>)
    | Func(id: Option<string>, names: seq<string>, kind: FuncKind)
    | Export(name: string, item: Index)
    | Builtin(shim: Shim)        // a catalog template appended by the adapter
    | Other(tag: nat)

  /** A parsed `.wat`: a text module with fields, or something the adapter
      passes through untouched (a binary module, a component). */
  datatype Wat =
    | TextModule(fields: seq<Field>)
    | BinaryModule(tag: nat)
    | Component(tag: nat)
}
