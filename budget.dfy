/** The fuel budget stands in for Python's recursion limit and for
    evaluation that never ends; it only bounds evaluation. Whenever an
    evaluation finishes within a budget, any larger budget gives the same
    outcome and the same state. */
module Budget {
  import opened Wrappers
  import opened Syntax
  import opened Values
  import opened Environment
  import opened Operators
  import opened Evaluator

  predicate Done(r: Run) { !r.out.OutOfFuel? }

  predicate StepDone(s: Stepped) { s.Next? || Done(s.r) }

  predicate ArgsDone(a: Evaluated) { a.Evaluated? || Done(a.r) }

  /** A finished evaluation is the same under any larger budget. */
  lemma {:induction false} EvalMono(e: Exp, env: nat, st: Store, f: nat, g: nat)
    requires env < |st.frames| && f <= g && Done(Eval(e, env, st, f))
    ensures Eval(e, env, st, g) == Eval(e, env, st, f)
    decreases f, 0, 0
  {
    var s := Step(e, env, st, f - 1);
    StepMono(e, env, st, f - 1, g - 1);
    if s.Next? {
      EvalMono(s.e, env, s.st, f - 1, g - 1);
    }
  }

  lemma {:induction false} StepMono(e: Exp, env: nat, st: Store, f: nat, g: nat)
    requires env < |st.frames| && f <= g && StepDone(Step(e, env, st, f))
    ensures Step(e, env, st, g) == Step(e, env, st, f)
    decreases f, 3, 1
  {
    match e
    case Atom(_) =>
    case Quote(_) =>
    case Lambda(_, _) =>
    case If(test, _, _) => EvalMono(test, env, st, f, g);
    case Begin(body) =>
      if body != [] {
        EvalSeqMono(body[..|body| - 1], env, st, f, g);
      }
    case Cond(clauses) => SelectMono(clauses, env, st, f, g);
    case Define(_, value) => EvalMono(value, env, st, f, g);
    case SetBang(_, value) => EvalMono(value, env, st, f, g);
    case App(items) =>
      if items != [] {
        AppMono(e, items, env, st, f, g);
      }
  }

  lemma {:induction false} AppMono(e: Exp, items: seq<Exp>, env: nat, st: Store, f: nat, g: nat)
    requires e == App(items) && items != []
    requires env < |st.frames| && f <= g && StepDone(Step(e, env, st, f))
    ensures Step(e, env, st, g) == Step(e, env, st, f)
    decreases f, 3, 0
  {
    var h := Eval(items[0], env, st, f);
    EvalMono(items[0], env, st, f, g);
    if h.out.Val? && Callable(h.out.v) {
      var a := EvalArgs(items[1..], env, h.st, f);
      EvalArgsMono(items[1..], env, h.st, f, g);
      if a.Evaluated? {
        assert Step(e, env, st, f) == Finished(Apply(h.out.v, a.vals, e, a.st, f));
        ApplyMono(h.out.v, a.vals, e, a.st, f, g);
      }
    }
  }

  lemma {:induction false} EvalSeqMono(es: seq<Exp>, env: nat, st: Store, f: nat, g: nat)
    requires env < |st.frames| && f <= g && Done(EvalSeq(es, env, st, f))
    ensures EvalSeq(es, env, st, g) == EvalSeq(es, env, st, f)
    decreases f, 1, |es|
  {
    if es != [] {
      var r := Eval(es[0], env, st, f);
      EvalMono(es[0], env, st, f, g);
      if r.out.Val? && |es| > 1 {
        EvalSeqMono(es[1..], env, r.st, f, g);
      }
    }
  }

  lemma {:induction false} EvalArgsMono(es: seq<Exp>, env: nat, st: Store, f: nat, g: nat)
    requires env < |st.frames| && f <= g && ArgsDone(EvalArgs(es, env, st, f))
    ensures EvalArgs(es, env, st, g) == EvalArgs(es, env, st, f)
    decreases f, 1, |es|
  {
    if es != [] {
      var r := Eval(es[0], env, st, f);
      EvalMono(es[0], env, st, f, g);
      if r.out.Val? {
        EvalArgsMono(es[1..], env, r.st, f, g);
      }
    }
  }

  lemma {:induction false} SelectMono(clauses: seq<Clause>, env: nat, st: Store, f: nat, g: nat)
    requires env < |st.frames| && f <= g && StepDone(Select(clauses, env, st, f))
    ensures Select(clauses, env, st, g) == Select(clauses, env, st, f)
    decreases f, 1, |clauses|
  {
    if clauses != [] {
      var r := Eval(clauses[0].test, env, st, f);
      EvalMono(clauses[0].test, env, st, f, g);
      if r.out.Val? && !Truthy(r.out.v) {
        SelectMono(clauses[1..], env, r.st, f, g);
      }
    }
  }

  lemma {:induction false} ApplyMono(fn: Value, args: seq<Value>, app: Exp, st: Store, f: nat, g: nat)
    requires f <= g && Done(Apply(fn, args, app, st, f))
    ensures Apply(fn, args, app, st, g) == Apply(fn, args, app, st, f)
    decreases f, 2, 0
  {
    if fn.VProc? && fn.body != [] {
      var st' := st.(frames := NewFrame(st.frames, fn.params, args, fn.env));
      EvalSeqMono(fn.body, |st.frames|, st', f, g);
    }
  }
}
