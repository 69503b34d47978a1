/** `componentize`: augment the world with `mbt-init`, then rewrite the
    text module's fields and append the builtin shims its bodies call. */
module Componentize {
  import opened Wrappers
  import opened Shims
  import opened Wit
  import opened Wast
  import opened Rewrite
  import opened Scan
  import opened Strings

  /** `order` lists each possible builtin key exactly once. It stands for
      the unspecified iteration order of the source's builtin hash table. */
  predicate IsKeyOrder(order: seq<string>) {
    && (forall i, j :: 0 <= i < j < |order| ==> order[i] != order[j])
    && (forall i :: 0 <= i < |order| ==> order[i] in BuiltinKeys)
    && (forall n :: n in BuiltinKeys ==> n in order)
  }

  /** The builtin fields pushed after the pass, in hash-table order. */
  function Appended(order: seq<string>, builtins: map<string, Shim>): (r: seq<Field>)
    ensures forall i :: 0 <= i < |r| ==> r[i].Builtin?
    decreases |order|
  {
    if |order| == 0 then []
    else
      var k := order[|order| - 1];
      Appended(order[..|order| - 1], builtins) + (if k in builtins then [Builtin(builtins[k])] else [])
  }

  /** With distinct keys and a table keyed by call target, shim `s` is
      appended once if its call target is a listed key of the table, and
      otherwise not at all. */
  lemma {:induction false} AppendedCount(order: seq<string>, builtins: map<string, Shim>, s: Shim)
    requires forall i, j :: 0 <= i < j < |order| ==> order[i] != order[j]
    requires forall n :: n in builtins ==> CallTarget(builtins[n]) == n
    ensures multiset(Appended(order, builtins))[Builtin(s)]
      == if CallTarget(s) in order && CallTarget(s) in builtins then 1 else 0
    decreases |order|
  {
    if |order| > 0 {
      var init := order[..|order| - 1];
      var k := order[|order| - 1];
      AppendedCount(init, builtins, s);
      if k in builtins && builtins[k] == s {
        assert CallTarget(s) !in init;
      } else if k in builtins {
        CallTargetInjective(s, builtins[k]);
      }
      assert CallTarget(s) in order <==> CallTarget(s) in init || CallTarget(s) == k;
    }
  }

  /** The builtin shims appended to a module with the given fields. */
  function ShimFields(fields: seq<Field>, order: seq<string>): seq<Field> {
    Appended(order, VisitFields(Start(), Retain(fields)).builtins)
  }

  /** The whole field-list pass: retain, rewrite in place, append shims.
      The output is the kept fields, each rewritten where it stood,
      followed by the appended shims. */
  function RewriteModule(fields: seq<Field>, symbols: map<string, string>, order: seq<string>): (r: seq<Field>)
    requires IsKeyOrder(order)
    ensures |Retain(fields)| <= |r|
    ensures forall i :: 0 <= i < |Retain(fields)| ==> r[i] == RewriteField(Retain(fields)[i], symbols)
    ensures r[|Retain(fields)|..] == ShimFields(fields, order)
  {
    var kept := Retain(fields);
    var r := RewriteAll(kept, symbols) + ShimFields(fields, order);
    assert r[|kept|..] == ShimFields(fields, order);
    r
  }

  /** No top-level `Import` field from `spectest` survives the pass. */
  lemma NoSpectestImportSurvives(fields: seq<Field>, symbols: map<string, string>, order: seq<string>)
    requires IsKeyOrder(order)
    ensures forall f :: f in RewriteModule(fields, symbols, order) ==> !IsSpectestImport(f)
  {
  }

  /** Shim minimality: each catalog shim, and `cabi_realloc`, is appended
      exactly once if some inline body of the input calls its name (for
      `cabi_realloc`, `rael.malloc`), and not at all otherwise. */
  lemma ShimAppendedIffCalled(fields: seq<Field>, order: seq<string>, s: Shim)
    requires IsKeyOrder(order)
    ensures multiset(ShimFields(fields, order))[Builtin(s)]
      == if CalledSomewhere(fields, CallTarget(s)) then 1 else 0
  {
    var kept := Retain(fields);
    var seen := CalledNames(kept);
    ScanActivatesExactlyCalled(kept);
    AppendedCount(order, Activated(seen), s);
    ActivatedIffCalled(seen, s);
    CatalogKeyedByCallTarget();
    CalledNamesMeaning(kept, CallTarget(s));
    assert CalledSomewhere(kept, CallTarget(s)) <==> CalledSomewhere(fields, CallTarget(s));
  }

  /** The appended shims, as a multiset, do not depend on the hash-table
      iteration order. */
  lemma ShimOrderIrrelevant(fields: seq<Field>, o1: seq<string>, o2: seq<string>)
    requires IsKeyOrder(o1) && IsKeyOrder(o2)
    ensures multiset(ShimFields(fields, o1)) == multiset(ShimFields(fields, o2))
  {
    var a := ShimFields(fields, o1);
    var b := ShimFields(fields, o2);
    forall x: Field ensures multiset(a)[x] == multiset(b)[x] {
      if x.Builtin? {
        ShimAppendedIffCalled(fields, o1, x.shim);
        ShimAppendedIffCalled(fields, o2, x.shim);
      } else {
        assert x !in a;
        assert x !in b;
      }
    }
  }

  /** A module whose only calls are to `rael.malloc` (twice), `printc`
      and an unknown function gets `cabi_realloc` and `printc` appended,
      once each, and nothing else. */
  lemma RepeatedMallocAppendsReallocOnce(order: seq<string>)
    requires IsKeyOrder(order)
    ensures var body := [Call(Id(MallocName)), Call(Id(MallocName)), Call(Id("printc")), Call(Id("helper"))];
      multiset(ShimFields([Func(None, [], Inline(body))], order))
        == multiset{Builtin(CabiRealloc), Builtin(Printc)}
  {
    var body := [Call(Id(MallocName)), Call(Id(MallocName)), Call(Id("printc")), Call(Id("helper"))];
    var fields := [Func(None, [], Inline(body))];
    var a := ShimFields(fields, order);
    forall x: Field ensures multiset(a)[x] == multiset{Builtin(CabiRealloc), Builtin(Printc)}[x] {
      if x.Builtin? {
        ShimAppendedIffCalled(fields, order, x.shim);
        assert fields[0] in fields;
        if x.shim == CabiRealloc {
          assert body[0] == Call(Id(CallTarget(x.shim)));
        } else if x.shim == Printc {
          assert body[2] == Call(Id(CallTarget(x.shim)));
        } else {
          assert !CalledSomewhere(fields, CallTarget(x.shim));
        }
      } else {
        assert x !in a;
      }
    }
  }

  /** A module none of whose inline bodies calls a shim gets no shims. */
  lemma NoCallsNoShims(fields: seq<Field>, order: seq<string>)
    requires IsKeyOrder(order)
    requires forall s: Shim :: !CalledSomewhere(fields, CallTarget(s))
    ensures ShimFields(fields, order) == []
  {
    var shims := ShimFields(fields, order);
    if |shims| > 0 {
      ShimAppendedIffCalled(fields, order, shims[0].shim);
    }
  }

  /** The fields of the minimal end-to-end module. */
  function GreetFields(): seq<Field> {
    [Memory([InternalMemoryName]),
     Func(Some("greet"), ["ns::greet"], Inline([Op(0)])),
     Export(StartExport, Id("start"))]
  }

  lemma GreetFieldsKeptAndCallFree()
    ensures Retain(GreetFields()) == GreetFields()
    ensures forall s: Shim :: !CalledSomewhere(GreetFields(), CallTarget(s))
  {
    var fields := GreetFields();
    assert Retain(fields[2..]) == fields[2..];
    assert fields[1..][1..] == fields[2..];
    assert Retain(fields[1..]) == fields[1..];
    forall s: Shim ensures !CalledSomewhere(fields, CallTarget(s)) {
      forall f, j | f in fields && f.Func? && f.kind.Inline? && 0 <= j < |f.kind.instrs|
        ensures f.kind.instrs[j] != Call(Id(CallTarget(s)))
      {
        assert f == fields[1];
      }
    }
  }

  lemma GreetRenamed()
    ensures RewriteField(GreetFields()[1], map["greet" := "greet"])
      == Func(Some("greet"), ["greet"], Inline([Op(0)]))
  {
    var name := "ns::greet";
    assert !OccursAt(name, QualifierSep, 0) by { assert name[0..2][0] == 'n' != QualifierSep[0]; }
    assert !OccursAt(name, QualifierSep, 1) by { assert name[1..3][0] == 's' != QualifierSep[0]; }
    assert OccursAt(name, QualifierSep, 2) by { assert name[2..4] == QualifierSep; }
    assert name[4..] == "greet";
    InlineFuncRenamed(Some("greet"), name, [Op(0)], map["greet" := "greet"], 2);
  }

  lemma GreetLength(order: seq<string>)
    requires IsKeyOrder(order)
    ensures |RewriteModule(GreetFields(), map["greet" := "greet"], order)| == 3
  {
    GreetFieldsKeptAndCallFree();
    NoCallsNoShims(GreetFields(), order);
  }

  lemma GreetPositions(order: seq<string>)
    requires IsKeyOrder(order)
    ensures var r := RewriteModule(GreetFields(), map["greet" := "greet"], order);
      && r[0] == Memory([CanonicalMemoryName])
      && r[1] == Func(Some("greet"), ["greet"], Inline([Op(0)]))
      && r[2] == Export(MbtInit, Id("start"))
  {
    GreetFieldsKeptAndCallFree();
    GreetRenamed();
  }

  /** The minimal end-to-end case: memory `moonbit.memory`, a function
      exported as `ns::greet` mapped to `greet`, a `_start` export and no
      builtin calls become memory `memory`, export `greet`, export
      `mbt-init`, and no appended shims. */
  lemma GreetModule(order: seq<string>)
    requires IsKeyOrder(order)
    ensures RewriteModule(GreetFields(), map["greet" := "greet"], order)
      == [Memory([CanonicalMemoryName]),
          Func(Some("greet"), ["greet"], Inline([Op(0)])),
          Export(MbtInit, Id("start"))]
  {
    GreetLength(order);
    GreetPositions(order);
  }

  /** The adapter on a parsed `.wat`: the world gains `mbt-init` if it
      lacked one; a text module's fields are rewritten, anything else is
      passed through. `symbols` is what the binding generator computes for
      the augmented world. */
  function Componentize(w: World, wat: Wat, symbols: map<string, string>, order: seq<string>): (r: (World, Wat))
    requires IsKeyOrder(order)
    ensures HasInitExport(r.0)
    ensures r.1.TextModule? <==> wat.TextModule?
    ensures !wat.TextModule? ==> r.1 == wat
    ensures wat.TextModule? ==> forall f :: f in r.1.fields ==> !IsSpectestImport(f)
  {
    var world := Augment(w);
    match wat
    case TextModule(fields) =>
      NoSpectestImportSurvives(fields, symbols, order);
      (world, TextModule(RewriteModule(fields, symbols, order)))
    case _ => (world, wat)
  }

  /** `fields.retain(..)` as a loop over the fields. */
  method RetainFields(fields: seq<Field>) returns (kept: seq<Field>)
    ensures kept == Retain(fields)
  {
    kept := [];
    for i := 0 to |fields|
      invariant kept == Retain(fields[..i])
    {
      assert fields[..i + 1] == fields[..i] + [fields[i]];
      RetainConcat(fields[..i], [fields[i]]);
      if !IsSpectestImport(fields[i]) {
        kept := kept + [fields[i]];
      }
    }
    assert fields[..|fields|] == fields;
  }

  /** The instruction loop of one inline body, updating the mutable
      `impls` / `builtins` / `realloc` state on each direct call. */
  method ScanBody(st: ScanState, instrs: seq<Instr>) returns (st': ScanState)
    ensures st' == VisitInstrs(st, instrs)
  {
    var impls, builtins, realloc := st.impls, st.builtins, st.realloc;
    for j := 0 to |instrs|
      invariant ScanState(impls, builtins, realloc) == VisitInstrs(st, instrs[..j])
    {
      assert instrs[..j + 1][..j] == instrs[..j];
      match instrs[j]
      case Call(Id(name)) =>
        if name !in builtins && name in impls {
          builtins := builtins[name := impls[name]];
          impls := impls - {name};
        }
        if name == MallocName && realloc.Some? {
          builtins := builtins[name := realloc.value];
          realloc := None;
        }
      case _ =>
    }
    assert instrs[..|instrs|] == instrs;
    st' := ScanState(impls, builtins, realloc);
  }

  /** The `iter_mut` loop: rewrite each kept field in place and scan the
      bodies of inline functions. */
  method RewriteAndScan(kept: seq<Field>, symbols: map<string, string>)
    returns (rewritten: seq<Field>, st: ScanState)
    ensures rewritten == RewriteAll(kept, symbols)
    ensures st == VisitFields(Start(), kept)
  {
    rewritten := [];
    st := Start();
    for i := 0 to |kept|
      invariant rewritten == RewriteAll(kept[..i], symbols)
      invariant st == VisitFields(Start(), kept[..i])
    {
      var field := kept[i];
      assert kept[..i + 1][..i] == kept[..i];
      rewritten := rewritten + [RewriteField(field, symbols)];
      if field.Func? && field.kind.Inline? {
        st := ScanBody(st, field.kind.instrs);
      }
    }
    assert kept[..|kept|] == kept;
  }

  /** One push per entry of the builtin table, in hash-table order. */
  method PushBuiltins(order: seq<string>, builtins: map<string, Shim>) returns (shims: seq<Field>)
    ensures shims == Appended(order, builtins)
  {
    shims := [];
    for k := 0 to |order|
      invariant shims == Appended(order[..k], builtins)
    {
      assert order[..k + 1][..k] == order[..k];
      if order[k] in builtins {
        shims := shims + [Builtin(builtins[order[k]])];
      }
    }
    assert order[..|order|] == order;
  }

  /** The pass as the source writes it: `retain`, the `iter_mut` loop,
      then one push per builtin. */
  method TransformFields(fields: seq<Field>, symbols: map<string, string>, order: seq<string>)
    returns (out: seq<Field>)
    requires IsKeyOrder(order)
    ensures out == RewriteModule(fields, symbols, order)
  {
    var kept := RetainFields(fields);
    var rewritten, st := RewriteAndScan(kept, symbols);
    var shims := PushBuiltins(order, st.builtins);
    out := rewritten + shims;
  }
}
