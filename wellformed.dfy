/** The invariant of the interpreter state: the frames form a forest whose
    links point to earlier frames, and every procedure value held anywhere
    (in a frame, in a list, as a result) was defined in a frame that exists.
    Evaluation keeps it, so a procedure call always gets a parent frame
    that exists and the defensive cases of `Lookup` are never needed. */
module Wellformed {
  import opened Wrappers
  import opened Syntax
  import opened Values
  import opened Environment
  import opened Operators
  import opened Evaluator

  /** Every procedure inside `v` was defined in one of the first `n` frames. */
  predicate ValueIn(v: Value, n: nat)
    decreases v
  {
    match v
    case VProc(_, _, env, _) => env < n
    case VList(items) => forall i :: 0 <= i < |items| ==> ValueIn(items[i], n)
    case _ => true
  }

  predicate AllIn(vs: seq<Value>, n: nat) {
    forall i :: 0 <= i < |vs| ==> ValueIn(vs[i], n)
  }

  /** The global frame exists, links point to earlier frames, and every
      bound value is `ValueIn` the arena. */
  predicate WfStore(st: Store) {
    |st.frames| > 0 && Linked(st.frames) &&
    forall i, name :: 0 <= i < |st.frames| && name in st.frames[i].table ==>
      ValueIn(st.frames[i].table[name], |st.frames|)
  }

  predicate WfRun(r: Run) {
    WfStore(r.st) && (r.out.Val? ==> ValueIn(r.out.v, |r.st.frames|))
  }

  predicate WfStepped(s: Stepped) {
    match s
    case Finished(r) => WfRun(r)
    case Next(_, st) => WfStore(st)
  }

  // ---------------------------------------------------------------------
  // Values

  lemma {:induction false} ValueInMono(v: Value, n: nat, m: nat)
    requires n <= m && ValueIn(v, n)
    ensures ValueIn(v, m)
    decreases v
  {
    if v.VList? {
      forall i | 0 <= i < |v.items| ensures ValueIn(v.items[i], m) {
        ValueInMono(v.items[i], n, m);
      }
    }
  }

  lemma AllInMono(vs: seq<Value>, n: nat, m: nat)
    requires n <= m && AllIn(vs, n)
    ensures AllIn(vs, m)
  {
    forall i | 0 <= i < |vs| ensures ValueIn(vs[i], m) {
      ValueInMono(vs[i], n, m);
    }
  }

  /** Quoted data hold no procedures. */
  lemma {:induction false} DatumIn(d: Datum, n: nat)
    ensures DatumValue(d).Some? ==> ValueIn(DatumValue(d).value, n)
    decreases d, 1
  {
    if d.List? {
      DatumsIn(d.items, n);
    }
  }

  lemma {:induction false} DatumsIn(ds: seq<Datum>, n: nat)
    ensures DatumValues(ds).Some? ==> AllIn(DatumValues(ds).value, n)
    decreases ds, 0
  {
    if ds != [] {
      DatumIn(ds[0], n);
      DatumsIn(ds[1..], n);
      if DatumValues(ds).Some? {
        var vs := DatumValues(ds).value;
        assert vs == [DatumValue(ds[0]).value] + DatumValues(ds[1..]).value;
      }
    }
  }

  // ---------------------------------------------------------------------
  // Operators

  lemma BinaryIn(op: OpName, a: Value, b: Value, n: nat)
    requires ValueIn(a, n) && ValueIn(b, n) && Binary(op, a, b).Ok?
    ensures ValueIn(Binary(op, a, b).v, n)
  {
  }

  lemma {:induction false} FoldPrefixIn(op: OpName, args: seq<Value>, k: nat, n: nat)
    requires 1 <= k <= |args| && AllIn(args, n) && FoldPrefix(op, args, k).Ok?
    ensures ValueIn(FoldPrefix(op, args, k).v, n)
    decreases k
  {
    if k > 1 {
      FoldPrefixIn(op, args, k - 1, n);
      BinaryIn(op, FoldPrefix(op, args, k - 1).v, args[k - 1], n);
    }
  }

  lemma UnaryIn(op: OpName, x: Value, n: nat)
    requires ValueIn(x, n) && Unary(op, x).Ok?
    ensures ValueIn(Unary(op, x).v, n)
  {
    if op == Cdr && x.items != [] {
      assert forall i :: 0 <= i < |x.items[1..]| ==> x.items[1..][i] == x.items[i + 1];
    }
  }

  lemma {:induction false} CompareAllBool(op: OpName, first: Value, rest: seq<Value>)
    ensures CompareAll(op, first, rest).Ok? ==> CompareAll(op, first, rest).v.VBool?
    decreases |rest|
  {
    if rest != [] {
      CompareAllBool(op, first, rest[1..]);
    }
  }

  /** What an operator returns holds only procedures of its arguments. */
  lemma OperateIn(op: OpName, args: seq<Value>, n: nat)
    requires AllIn(args, n) && Operate(op, args).Ok?
    ensures ValueIn(Operate(op, args).v, n)
  {
    match MixinOf(op)
    case Sequential => FoldPrefixIn(op, args, |args|, n);
    case Comparative => if args != [] { CompareAllBool(op, args[0], args[1..]); }
    case One => UnaryIn(op, args[0], n);
    case ListMixin =>
      if op == Max {
        MaxIsFirstLargest(args, |args|);
      } else if op == Min {
        MinIsFirstSmallest(args, |args|);
      }
  }

  // ---------------------------------------------------------------------
  // Frames

  lemma {:induction false} LookupIn(st: Store, id: nat, name: string)
    requires WfStore(st) && Lookup(st.frames, id, name).Some?
    ensures ValueIn(Lookup(st.frames, id, name).value, |st.frames|)
    decreases id
  {
    if name !in st.frames[id].table {
      LookupIn(st, st.frames[id].parent.value, name);
    }
  }

  lemma DefineWf(st: Store, id: nat, name: string, v: Value)
    requires WfStore(st) && id < |st.frames| && ValueIn(v, |st.frames|)
    ensures WfStore(st.(frames := DefineIn(st.frames, id, name, v)))
  {
    DefineKeepsLinked(st.frames, id, name, v);
  }

  lemma ChangeWf(st: Store, id: nat, name: string, v: Value)
    requires WfStore(st) && id < |st.frames| && ValueIn(v, |st.frames|)
    requires Change(st.frames, id, name, v).Some?
    ensures WfStore(st.(frames := Change(st.frames, id, name, v).value))
  {
    var p := if name in st.frames[id].table then id else st.frames[id].parent.value;
    assert Change(st.frames, id, name, v).value == DefineIn(st.frames, p, name, v);
    DefineWf(st, p, name, v);
  }

  lemma {:induction false} ZipBindIn(params: seq<string>, args: seq<Value>, k: nat, n: nat)
    requires k <= |params| && k <= |args| && AllIn(args, n)
    ensures forall x :: x in ZipBind(params, args, k) ==> ValueIn(ZipBind(params, args, k)[x], n)
  {
    if k > 0 {
      ZipBindIn(params, args, k - 1, n);
    }
  }

  lemma NewFrameWf(st: Store, params: seq<string>, args: seq<Value>, def: nat)
    requires WfStore(st) && def < |st.frames| && AllIn(args, |st.frames|)
    ensures WfStore(st.(frames := NewFrame(st.frames, params, args, def)))
  {
    var f := NewFrame(st.frames, params, args, def);
    var n := |st.frames|;
    CallFrame(st.frames, params, args, def, "");
    ZipBindIn(params, args, Environment.Min(|params|, |args|), n);
    forall i, name | 0 <= i < |f| && name in f[i].table ensures ValueIn(f[i].table[name], |f|) {
      if i < n {
        assert f[i] == st.frames[i];
      }
      ValueInMono(f[i].table[name], n, |f|);
    }
  }

  // ---------------------------------------------------------------------
  // Evaluation

  /** Evaluation keeps the invariant, and its value holds only procedures
      defined in frames that exist. */
  lemma {:induction false} EvalWf(e: Exp, env: nat, st: Store, fuel: nat)
    requires env < |st.frames| && WfStore(st)
    ensures WfRun(Eval(e, env, st, fuel))
    decreases fuel, 0, 0
  {
    if fuel > 0 {
      var s := Step(e, env, st, fuel - 1);
      StepWf(e, env, st, fuel - 1);
      if s.Next? {
        EvalWf(s.e, env, s.st, fuel - 1);
      }
    }
  }

  lemma {:induction false} StepWf(e: Exp, env: nat, st: Store, fuel: nat)
    requires env < |st.frames| && WfStore(st)
    ensures WfStepped(Step(e, env, st, fuel))
    decreases fuel, 3, 1
  {
    match e
    case Atom(d) =>
      if d.Sym? && Lookup(st.frames, env, d.name).Some? {
        LookupIn(st, env, d.name);
      }
    case Quote(d) => DatumIn(d, |st.frames|);
    case Lambda(ps, body) =>
    case If(test, conseq, alt) => EvalWf(test, env, st, fuel);
    case Begin(body) =>
      if body != [] {
        EvalSeqWf(body[..|body| - 1], env, st, fuel);
      }
    case Cond(clauses) => SelectWf(clauses, env, st, fuel);
    case Define(name, value) =>
      var r := Eval(value, env, st, fuel);
      EvalWf(value, env, st, fuel);
      if r.out.Val? {
        DefineWf(r.st, env, name, r.out.v);
      }
    case SetBang(name, value) =>
      var r := Eval(value, env, st, fuel);
      EvalWf(value, env, st, fuel);
      if r.out.Val? && Change(r.st.frames, env, name, r.out.v).Some? {
        ChangeWf(r.st, env, name, r.out.v);
      }
    case App(items) =>
      if items != [] {
        AppWf(e, items, env, st, fuel);
      }
  }

  lemma {:induction false} AppWf(e: Exp, items: seq<Exp>, env: nat, st: Store, fuel: nat)
    requires e == App(items) && items != []
    requires env < |st.frames| && WfStore(st)
    ensures WfStepped(Step(e, env, st, fuel))
    decreases fuel, 3, 0
  {
    var h := Eval(items[0], env, st, fuel);
    EvalWf(items[0], env, st, fuel);
    if h.out.Val? && Callable(h.out.v) {
      var a := EvalArgs(items[1..], env, h.st, fuel);
      EvalArgsWf(items[1..], env, h.st, fuel);
      if a.Evaluated? {
        ValueInMono(h.out.v, |h.st.frames|, |a.st.frames|);
        ApplyWf(h.out.v, a.vals, e, a.st, fuel);
        assert Step(e, env, st, fuel) == Finished(Apply(h.out.v, a.vals, e, a.st, fuel));
      }
    }
  }

  lemma {:induction false} EvalSeqWf(es: seq<Exp>, env: nat, st: Store, fuel: nat)
    requires env < |st.frames| && WfStore(st)
    ensures WfRun(EvalSeq(es, env, st, fuel))
    decreases fuel, 1, |es|
  {
    if es != [] {
      var r := Eval(es[0], env, st, fuel);
      EvalWf(es[0], env, st, fuel);
      if r.out.Val? && |es| > 1 {
        EvalSeqWf(es[1..], env, r.st, fuel);
      }
    }
  }

  lemma {:induction false} EvalArgsWf(es: seq<Exp>, env: nat, st: Store, fuel: nat)
    requires env < |st.frames| && WfStore(st)
    ensures var a := EvalArgs(es, env, st, fuel);
            (a.Evaluated? ==> WfStore(a.st) && AllIn(a.vals, |a.st.frames|)) &&
            (a.Stopped? ==> WfRun(a.r))
    decreases fuel, 1, |es|
  {
    if es != [] {
      var r := Eval(es[0], env, st, fuel);
      EvalWf(es[0], env, st, fuel);
      if r.out.Val? {
        var rest := EvalArgs(es[1..], env, r.st, fuel);
        EvalArgsWf(es[1..], env, r.st, fuel);
        if rest.Evaluated? {
          ValueInMono(r.out.v, |r.st.frames|, |rest.st.frames|);
          assert EvalArgs(es, env, st, fuel).vals == [r.out.v] + rest.vals;
        }
      }
    }
  }

  lemma {:induction false} SelectWf(clauses: seq<Clause>, env: nat, st: Store, fuel: nat)
    requires env < |st.frames| && WfStore(st)
    ensures WfStepped(Select(clauses, env, st, fuel))
    decreases fuel, 1, |clauses|
  {
    if clauses != [] {
      var r := Eval(clauses[0].test, env, st, fuel);
      EvalWf(clauses[0].test, env, st, fuel);
      if r.out.Val? && !Truthy(r.out.v) {
        SelectWf(clauses[1..], env, r.st, fuel);
      }
    }
  }

  lemma {:induction false} ApplyWf(f: Value, args: seq<Value>, app: Exp, st: Store, fuel: nat)
    requires WfStore(st) && ValueIn(f, |st.frames|) && AllIn(args, |st.frames|)
    ensures WfRun(Apply(f, args, app, st, fuel))
    decreases fuel, 2, 0
  {
    match f
    case VOp(op) =>
      if Operate(op, args).Ok? {
        OperateIn(op, args, |st.frames|);
      }
    case VProc(params, body, def, _) =>
      var st' := st.(frames := NewFrame(st.frames, params, args, def));
      NewFrameWf(st, params, args, def);
      if body != [] {
        EvalSeqWf(body, |st.frames|, st', fuel);
      }
    case _ =>
  }

  /** Under the invariant, a procedure value's defining frame exists, so a
      call's new frame links to an earlier frame and lookups from it follow
      the defining frame's chain. */
  lemma CallLinksToDefinition(st: Store, f: Value, args: seq<Value>, n: string)
    requires WfStore(st) && f.VProc? && ValueIn(f, |st.frames|)
    ensures var frames := NewFrame(st.frames, f.params, args, f.env);
            Linked(frames) && frames[|st.frames|].parent == Some(f.env) && f.env < |st.frames|
    ensures n !in f.params[..Environment.Min(|f.params|, |args|)] ==>
              Lookup(NewFrame(st.frames, f.params, args, f.env), |st.frames|, n) == Lookup(st.frames, f.env, n)
  {
    CallFrame(st.frames, f.params, args, f.env, n);
  }
}
