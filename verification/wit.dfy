/** The part of the resolved interface model (`wit_parser`) that the adapter
    touches: one world and its exports, and the `mbt-init` augmentation. */
module Wit {
  import opened Wrappers

  /** Name of the initializer export the adapter guarantees. */
  const MbtInit: string := "mbt-init"

  /** A WIT type, kept opaque. */
  type WitType = nat

  datatype WorldKey = Name(name: string) | Interface(id: nat)

  datatype FunctionKind =
    | Freestanding
    | Method(resource: nat)
    | Static(resource: nat)
    | Constructor(resource: nat)

  datatype Results = Named(named: seq<(string, WitType)>) | Anon(ty: WitType)

  datatype Docs = Docs(contents: Option<string>)

  datatype Function = Function(
    name: string,
    kind: FunctionKind,
    params: seq<(string, WitType)>,
    results: Results,
    docs: Docs)

  datatype WorldItem =
    | FunctionItem(func: Function)
    | InterfaceItem(iface: nat)
    | TypeItem(ty: nat)

  datatype World = World(
    name: string,
    imports: map<WorldKey, WorldItem>,
    exports: map<WorldKey, WorldItem>)

  /** Some export of `w`, under any key, is a function named `mbt-init`. */
  predicate HasInitExport(w: World) {
    exists k :: k in w.exports && w.exports[k].FunctionItem? && w.exports[k].func.name == MbtInit
  }

  /** The synthetic initializer: no parameters, no named results,
      freestanding, default documentation. */
  function InitFunction(): Function {
    Function(MbtInit, Freestanding, [], Named([]), Docs(None))
  }

  /** Adds `export mbt-init: func();` to the world when it has none. */
  function Augment(w: World): (r: World)
    ensures HasInitExport(r)
    ensures r.name == w.name && r.imports == w.imports
    ensures HasInitExport(w) ==> r == w
    ensures !HasInitExport(w) ==>
      && r.exports.Keys == w.exports.Keys + {Name(MbtInit)}
      && r.exports[Name(MbtInit)].FunctionItem?
      && var f := r.exports[Name(MbtInit)].func;
         f.name == MbtInit && f.kind == Freestanding && f.params == []
         && f.results == Named([]) && f.docs.contents.None?
    ensures forall k :: k in w.exports && k != Name(MbtInit) ==> k in r.exports && r.exports[k] == w.exports[k]
  {
    if HasInitExport(w) then w
    else
      var r := w.(exports := w.exports[Name(MbtInit) := FunctionItem(InitFunction())]);
      assert r.exports[Name(MbtInit)].func.name == MbtInit;
      r
  }

  /** Running the augmentation twice gives the same world as running it once. */
  lemma AugmentIdempotent(w: World)
    ensures Augment(Augment(w)) == Augment(w)
  {
  }
}
