/** The per-field decisions of the adapter's pass over the module: drop the
    test-harness imports, then rewrite memories, inline functions and
    exports in place. */
module Rewrite {
  import opened Wrappers
  import opened Strings
  import opened Wit
  import opened Wast

  /** Imports from this module only serve a generic test runner. */
  const SpectestModule: string := "spectest"
  /** The name the compiler gives its linear memory. */
  const InternalMemoryName: string := "moonbit.memory"
  /** The memory name the Component Model expects. */
  const CanonicalMemoryName: string := "memory"
  /** The compiler's run-on-instantiate export. */
  const StartExport: string := "_start"
  /** Separator between module qualifier and key in an export name. */
  const QualifierSep: string := "::"

  /** A top-level `(import "spectest" ..)` field. */
  predicate IsSpectestImport(f: Field) {
    f.Import? && f.modName == SpectestModule
  }

  /** `fields.retain(..)`: every field except the top-level `spectest`
      imports, in order. A function imported inline from `spectest` is a
      `Func` field and is kept. */
  function Retain(fields: seq<Field>): (r: seq<Field>)
    ensures |r| <= |fields|
    ensures forall f :: f in r <==> f in fields && !IsSpectestImport(f)
  {
    if |fields| == 0 then []
    else (if IsSpectestImport(fields[0]) then [] else [fields[0]]) + Retain(fields[1..])
  }

  /** Retaining distributes over concatenation, so the kept fields keep
      their relative order. */
  lemma {:induction false} RetainConcat(a: seq<Field>, b: seq<Field>)
    ensures Retain(a + b) == Retain(a) + Retain(b)
    decreases |a|
  {
    if |a| == 0 {
      assert a + b == b;
    } else {
      assert (a + b)[1..] == a[1..] + b;
      RetainConcat(a[1..], b);
    }
  }

  /** The export names of an inline function after symbol renaming: a
      single name `q::key` whose key is mapped becomes the mapped symbol. */
  function RenameExports(names: seq<string>, symbols: map<string, string>): (r: seq<string>)
    ensures |r| == |names|
    ensures r != names ==> |names| == 1 && r[0] in symbols.Values
  {
    if |names| == 1 then
      match SplitOnce(names[0], QualifierSep)
      case Some((_, key)) => if key in symbols then [symbols[key]] else names
      case None => names
    else names
  }

  /** An inline function exported under the single name `q::key`, where
      this `::` is the first one, is re-exported under the symbol mapped to
      `key`, and keeps its name when `key` is unmapped. */
  lemma InlineFuncRenamed(id: Option<string>, name: string, body: seq<Instr>, symbols: map<string, string>, i: nat)
    requires OccursAt(name, QualifierSep, i)
    requires forall j: nat :: j < i ==> !OccursAt(name, QualifierSep, j)
    ensures var key := name[i + 2..];
      RewriteField(Func(id, [name], Inline(body)), symbols)
        == Func(id, if key in symbols then [symbols[key]] else [name], Inline(body))
  {
    SplitAtFirstOccurrence(name, QualifierSep, i);
  }

  /** Names without `::`, and lists of other than one name, are kept. */
  lemma RenameKeepsUnqualified(names: seq<string>, symbols: map<string, string>)
    requires |names| != 1 || forall j: nat :: !OccursAt(names[0], QualifierSep, j)
    ensures RenameExports(names, symbols) == names
  {
  }

  /** The body of the `for field in fields.iter_mut()` loop, minus the
      call scan. Each rule touches only export names: the field keeps its
      kind, a memory's names change iff they were exactly `moonbit.memory`,
      a function keeps its id and body, an export keeps its target and is
      renamed only from `_start`, and imports, imported functions, builtins
      and other fields are left as they were. */
  function RewriteField(f: Field, symbols: map<string, string>): (r: Field)
    ensures IsSpectestImport(r) <==> IsSpectestImport(f)
    ensures f.Memory? ==> r.Memory? && (r.names != f.names <==> f.names == [InternalMemoryName])
    ensures f.Memory? && f.names == [InternalMemoryName] ==> r.names == [CanonicalMemoryName]
    ensures f.Func? ==> r.Func? && r.id == f.id && r.kind == f.kind
    ensures f.Func? && f.kind.Imported? ==> r == f
    ensures f.Export? ==> r.Export? && r.item == f.item
    ensures f.Export? ==> (r.name == MbtInit <==> f.name == StartExport || f.name == MbtInit)
    ensures f.Export? && f.name != StartExport ==> r == f
    ensures f.Import? || f.Builtin? || f.Other? ==> r == f
  {
    match f
    case Memory(names) =>
      if names == [InternalMemoryName] then Memory([CanonicalMemoryName]) else f
    case Func(id, names, Inline(_)) =>
      f.(names := RenameExports(names, symbols))
    case Export(name, item) =>
      if name == StartExport then Export(MbtInit, item) else f
    case _ => f
  }

  /** The rewrite of every kept field, position by position. */
  function RewriteAll(fields: seq<Field>, symbols: map<string, string>): (r: seq<Field>)
    ensures |r| == |fields|
    ensures forall i :: 0 <= i < |fields| ==> r[i] == RewriteField(fields[i], symbols)
  {
    seq(|fields|, i requires 0 <= i < |fields| => RewriteField(fields[i], symbols))
  }
}
