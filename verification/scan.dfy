/** The scan of inline function bodies for direct calls, which decides the
    builtin shims to append. The functions below follow the source's state
    machine (`impls`, `builtins`, `realloc`); `Activated` and `CalledNames`
    are the independent description it is proved against. */
module Scan {
  import opened Wrappers
  import opened Shims
  import opened Wast

  /** `impls`: catalog entries not yet taken; `builtins`: shims taken so far,
      keyed by the call that took them; `realloc`: the one-shot
      `cabi_realloc` template while it has not been consumed. */
  datatype ScanState = ScanState(
    impls: map<string, Shim>,
    builtins: map<string, Shim>,
    realloc: Option<Shim>)

  function Start(): ScanState {
    ScanState(Catalog, map[], Some(CabiRealloc))
  }

  /** One `call $name` instruction. */
  function VisitCall(st: ScanState, name: string): ScanState {
    var st' :=
      if name !in st.builtins && name in st.impls
      then st.(impls := st.impls - {name}, builtins := st.builtins[name := st.impls[name]])
      else st;
    if name == MallocName && st'.realloc.Some?
    then st'.(builtins := st'.builtins[name := st'.realloc.value], realloc := None)
    else st'
  }

  function VisitInstr(st: ScanState, instr: Instr): ScanState {
    match instr
    case Call(Id(name)) => VisitCall(st, name)
    case _ => st
  }

  /** The state after scanning `instrs` in order. */
  function VisitInstrs(st: ScanState, instrs: seq<Instr>): ScanState
    decreases |instrs|
  {
    if |instrs| == 0 then st
    else VisitInstr(VisitInstrs(st, instrs[..|instrs| - 1]), instrs[|instrs| - 1])
  }

  /** Only inline function bodies are scanned. */
  function VisitField(st: ScanState, f: Field): ScanState {
    if f.Func? && f.kind.Inline? then VisitInstrs(st, f.kind.instrs) else st
  }

  /** The state after scanning `fields` in order. */
  function VisitFields(st: ScanState, fields: seq<Field>): ScanState
    decreases |fields|
  {
    if |fields| == 0 then st
    else VisitField(VisitFields(st, fields[..|fields| - 1]), fields[|fields| - 1])
  }

  /** Names called directly by some instruction of `instrs`. */
  function CallTargets(instrs: seq<Instr>): (r: set<string>)
    ensures forall n :: n in r <==> exists i :: 0 <= i < |instrs| && instrs[i] == Call(Id(n))
  {
    set i | 0 <= i < |instrs| && instrs[i].Call? && instrs[i].target.Id? :: instrs[i].target.name
  }

  function BodyCalls(f: Field): set<string> {
    if f.Func? && f.kind.Inline? then CallTargets(f.kind.instrs) else {}
  }

  /** Names called directly from some inline function body of `fields`. */
  function CalledNames(fields: seq<Field>): set<string>
    decreases |fields|
  {
    if |fields| == 0 then {}
    else CalledNames(fields[..|fields| - 1]) + BodyCalls(fields[|fields| - 1])
  }

  /** Some inline function of `fields` contains `call $name`. */
  ghost predicate CalledSomewhere(fields: seq<Field>, name: string) {
    exists f, j :: f in fields && f.Func? && f.kind.Inline?
      && 0 <= j < |f.kind.instrs| && f.kind.instrs[j] == Call(Id(name))
  }

  lemma {:induction false} CalledNamesMeaning(fields: seq<Field>, name: string)
    ensures name in CalledNames(fields) <==> CalledSomewhere(fields, name)
    decreases |fields|
  {
    if |fields| > 0 {
      var init := fields[..|fields| - 1];
      var last := fields[|fields| - 1];
      CalledNamesMeaning(init, name);
      if CalledSomewhere(fields, name) {
        var f, j :| f in fields && f.Func? && f.kind.Inline?
          && 0 <= j < |f.kind.instrs| && f.kind.instrs[j] == Call(Id(name));
        if f != last {
          assert f in init by {
            var i :| 0 <= i < |fields| && fields[i] == f;
            assert init[i] == f;
          }
        } else {
          assert name in BodyCalls(last);
        }
      }
      if name in CalledNames(init) {
        var f, j :| f in init && f.Func? && f.kind.Inline?
          && 0 <= j < |f.kind.instrs| && f.kind.instrs[j] == Call(Id(name));
        assert f in fields;
      }
      if name in BodyCalls(last) {
        var j :| 0 <= j < |last.kind.instrs| && last.kind.instrs[j] == Call(Id(name));
        assert last in fields;
      }
    }
  }

  /** The builtin table a scan that has seen the calls `seen` should hold:
      every called catalog shim, plus `cabi_realloc` under `rael.malloc`
      once the allocator has been called. */
  function Activated(seen: set<string>): (r: map<string, Shim>)
    ensures forall n :: n in r ==> CallTarget(r[n]) == n
  {
    CatalogKeyedByCallTarget();
    (map n | n in Catalog && n in seen :: Catalog[n])
      + (if MallocName in seen then map[MallocName := CabiRealloc] else map[])
  }

  /** Each shim is activated exactly when the call that names it was seen. */
  lemma ActivatedIffCalled(seen: set<string>, s: Shim)
    ensures CallTarget(s) in Activated(seen) <==> CallTarget(s) in seen
    ensures CallTarget(s) in Activated(seen) ==> Activated(seen)[CallTarget(s)] == s
    ensures Activated(seen).Keys <= BuiltinKeys
  {
    CatalogKeyedByCallTarget();
  }

  /** `st` is the state a scan reaches after seeing the calls `seen`. */
  ghost predicate Accounts(st: ScanState, seen: set<string>) {
    && (forall n :: n in st.builtins <==> n in BuiltinKeys && n in seen)
    && (forall n :: n in st.builtins ==> CallTarget(st.builtins[n]) == n)
    && (forall n :: n in st.impls <==> n in Catalog && n !in seen)
    && (forall n :: n in st.impls ==> st.impls[n] == Catalog[n])
    && st.realloc == (if MallocName in seen then None else Some(CabiRealloc))
  }

  lemma StartAccounts()
    ensures Accounts(Start(), {})
  {
    CatalogKeyedByCallTarget();
  }

  lemma VisitCallAccounts(st: ScanState, seen: set<string>, name: string)
    requires Accounts(st, seen)
    ensures Accounts(VisitCall(st, name), seen + {name})
  {
    CatalogKeyedByCallTarget();
  }

  /** The names called by one instruction. */
  function InstrCalls(instr: Instr): set<string> {
    match instr
    case Call(Id(name)) => {name}
    case _ => {}
  }

  lemma CallTargetsSnoc(instrs: seq<Instr>)
    requires |instrs| > 0
    ensures CallTargets(instrs) == CallTargets(instrs[..|instrs| - 1]) + InstrCalls(instrs[|instrs| - 1])
  {
  }

  lemma {:induction false} VisitInstrsAccounts(st: ScanState, seen: set<string>, instrs: seq<Instr>)
    requires Accounts(st, seen)
    ensures Accounts(VisitInstrs(st, instrs), seen + CallTargets(instrs))
    decreases |instrs|
  {
    if |instrs| == 0 {
      assert seen + CallTargets(instrs) == seen;
    } else {
      var init := instrs[..|instrs| - 1];
      var last := instrs[|instrs| - 1];
      VisitInstrsAccounts(st, seen, init);
      CallTargetsSnoc(instrs);
      var before := seen + CallTargets(init);
      assert seen + CallTargets(instrs) == before + InstrCalls(last);
      match last
      case Call(Id(name)) =>
        VisitCallAccounts(VisitInstrs(st, init), before, name);
      case _ =>
        assert before + InstrCalls(last) == before;
    }
  }

  lemma {:induction false} VisitFieldsAccounts(st: ScanState, seen: set<string>, fields: seq<Field>)
    requires Accounts(st, seen)
    ensures Accounts(VisitFields(st, fields), seen + CalledNames(fields))
    decreases |fields|
  {
    if |fields| == 0 {
      assert seen + CalledNames(fields) == seen;
    } else {
      var init := fields[..|fields| - 1];
      var last := fields[|fields| - 1];
      VisitFieldsAccounts(st, seen, init);
      var mid := VisitFields(st, init);
      if last.Func? && last.kind.Inline? {
        VisitInstrsAccounts(mid, seen + CalledNames(init), last.kind.instrs);
      }
      assert seen + CalledNames(fields) == seen + CalledNames(init) + BodyCalls(last);
    }
  }

  /** The scan takes exactly the shims whose call targets occur in some
      inline body, each once, and `cabi_realloc` iff `rael.malloc` is called. */
  lemma ScanActivatesExactlyCalled(fields: seq<Field>)
    ensures VisitFields(Start(), fields).builtins == Activated(CalledNames(fields))
  {
    StartAccounts();
    VisitFieldsAccounts(Start(), {}, fields);
    assert {} + CalledNames(fields) == CalledNames(fields);
    var b := VisitFields(Start(), fields).builtins;
    var a := Activated(CalledNames(fields));
    CatalogKeyedByCallTarget();
    forall n | n in b ensures n in a && a[n] == b[n] {
      CallTargetInjective(a[n], b[n]);
    }
  }
}
