/** `eval` and the `evaluate` methods of the analysed forms. Evaluation
    threads the interpreter state (frames, operator type streams, procedure
    serial numbers) through every step. Python's own recursion limit is
    replaced by a fuel budget: each pass of `eval`'s loop costs one unit, and
    running out gives `OutOfFuel`.

    `Eval` is the loop of `eval`: it evaluates one expression with `Step`,
    which either finishes or hands back a tail expression (the branch of an
    `if` or `cond`, the last expression of a `begin`) that the same loop
    evaluates next. Everything else is evaluated by a nested call of `Eval`,
    as in the source. */
module Evaluator {
  import opened Wrappers
  import opened Syntax
  import opened Values
  import opened Environment
  import opened Operators

  /** An outcome and the state after it. */
  datatype Run = Run(out: Outcome, st: Store)

  /** What one pass of the loop of `eval` gives: a result, or an expression
      put back in the queue to be evaluated next. */
  datatype Stepped = Finished(r: Run) | Next(e: Exp, st: Store)

  /** Argument values, or the run that stopped their evaluation. */
  datatype Evaluated = Evaluated(vals: seq<Value>, st: Store) | Stopped(r: Run)

  /** Evaluation only adds: the procedure serial never goes back, frames
      are never removed, a frame keeps its parent, and a name bound in a
      frame stays bound there. */
  predicate Grows(st: Store, st': Store) {
    st.serial <= st'.serial && |st.frames| <= |st'.frames| &&
    forall i :: 0 <= i < |st.frames| ==>
      st'.frames[i].parent == st.frames[i].parent && st.frames[i].table.Keys <= st'.frames[i].table.Keys
  }

  function StepStore(s: Stepped): Store {
    match s
    case Finished(r) => r.st
    case Next(_, st) => st
  }

  /** The position of an operator's type stream. */
  function Pos(cursor: map<OpName, nat>, op: OpName): nat {
    if op in cursor then cursor[op] else 0
  }

  predicate Callable(v: Value) { v.VProc? || v.VOp? }

  /** `eval(e, env)`. */
  function Eval(e: Exp, env: nat, st: Store, fuel: nat): (r: Run)
    requires env < |st.frames|
    ensures Grows(st, r.st)
    decreases fuel, 0, 0
  {
    if fuel == 0 then Run(OutOfFuel, st)
    else
      match Step(e, env, st, fuel - 1)
      case Finished(r) => r
      case Next(e', st') => Eval(e', env, st', fuel - 1)
  }

  /** One pass of the loop of `eval`: a symbol is looked up, another atom
      is its own value, and a compound form is evaluated by its kind. */
  function Step(e: Exp, env: nat, st: Store, fuel: nat): (s: Stepped)
    requires env < |st.frames|
    ensures Grows(st, StepStore(s))
    decreases fuel, 3, 0
  {
    match e
    case Atom(d) =>
      (match d
       case Int(i) => Finished(Run(Val(VInt(i)), st))
       case Bool(b) => Finished(Run(Val(VBool(b)), st))
       case Sym(n) =>
         (match Lookup(st.frames, env, n)
          case Some(v) => Finished(Run(Val(v), st))
          case None => Finished(Run(Err(Raised(NameError, AtExp(e))), st)))
       case Flt(_) => Finished(Run(Unsupported, st))
       // analysis never leaves a list as an atom
       case List(_) => Finished(Run(Unsupported, st)))
    case Quote(d) =>
      (match DatumValue(d)
       case Some(v) => Finished(Run(Val(v), st))
       case None => Finished(Run(Unsupported, st)))
    case Lambda(ps, body) =>
      Finished(Run(Val(VProc(ps, body, env, st.serial)), st.(serial := st.serial + 1)))
    case If(test, conseq, alt) =>
      var r := Eval(test, env, st, fuel);
      if !r.out.Val? then Finished(r)
      else if Truthy(r.out.v) then Next(conseq, r.st)
      else if alt.None? then Finished(Run(Val(VNone), r.st))
      else Next(alt.value, r.st)
    case Begin(body) =>
      // analysis never gives an empty `begin`
      if body == [] then Finished(Run(Unsupported, st))
      else
        var r := EvalSeq(body[..|body| - 1], env, st, fuel);
        if !r.out.Val? then Finished(r) else Next(body[|body| - 1], r.st)
    case Cond(clauses) => Select(clauses, env, st, fuel)
    case Define(name, value) =>
      var r := Eval(value, env, st, fuel);
      if !r.out.Val? then Finished(r)
      else Finished(Run(Val(VNone), r.st.(frames := DefineIn(r.st.frames, env, name, r.out.v))))
    case SetBang(name, value) =>
      var r := Eval(value, env, st, fuel);
      if !r.out.Val? then Finished(r)
      else
        (match Change(r.st.frames, env, name, r.out.v)
         case Some(frames) => Finished(Run(Val(VNone), r.st.(frames := frames)))
         case None => Finished(Run(Err(Raised(NameError, AtExp(e))), r.st)))
    case App(items) =>
      if items == [] then Finished(Run(Val(VNone), st))
      else
        var h := Eval(items[0], env, st, fuel);
        if !h.out.Val? then Finished(h)
        else if !Callable(h.out.v) then Finished(Run(Err(Raised(TypeError, AtExp(e))), h.st))
        else
          match EvalArgs(items[1..], env, h.st, fuel)
          case Stopped(r) => Finished(r)
          case Evaluated(vals, st') => Finished(Apply(h.out.v, vals, e, st', fuel))
  }

  /** The expressions in order, each by a nested `eval`; the value of the
      last one, or `None` when there is none. The first failure stops. */
  function EvalSeq(es: seq<Exp>, env: nat, st: Store, fuel: nat): (r: Run)
    requires env < |st.frames|
    ensures Grows(st, r.st)
    decreases fuel, 1, |es|
  {
    if es == [] then Run(Val(VNone), st)
    else
      var r := Eval(es[0], env, st, fuel);
      if !r.out.Val? || |es| == 1 then r else EvalSeq(es[1..], env, r.st, fuel)
  }

  /** The arguments of an application, left to right. */
  function EvalArgs(es: seq<Exp>, env: nat, st: Store, fuel: nat): (a: Evaluated)
    requires env < |st.frames|
    ensures a.Evaluated? ==> Grows(st, a.st) && |a.vals| == |es|
    ensures a.Stopped? ==> Grows(st, a.r.st) && !a.r.out.Val?
    decreases fuel, 1, |es|
  {
    if es == [] then Evaluated([], st)
    else
      var r := Eval(es[0], env, st, fuel);
      if !r.out.Val? then Stopped(r)
      else
        match EvalArgs(es[1..], env, r.st, fuel)
        case Stopped(r') => Stopped(r')
        case Evaluated(vs, st') => Evaluated([r.out.v] + vs, st')
  }

  /** `Cond.evaluate`: the expression of the first clause whose test is
      true goes back to the loop; `None` when no test is true. */
  function Select(clauses: seq<Clause>, env: nat, st: Store, fuel: nat): (s: Stepped)
    requires env < |st.frames|
    ensures Grows(st, StepStore(s))
    decreases fuel, 1, |clauses|
  {
    if clauses == [] then Finished(Run(Val(VNone), st))
    else
      var r := Eval(clauses[0].test, env, st, fuel);
      if !r.out.Val? then Finished(r)
      else if Truthy(r.out.v) then Next(clauses[0].expr, r.st)
      else Select(clauses[1..], env, r.st, fuel)
  }

  /** Calling a procedure or an operator from the application `app`.
      An operator's check failure gets the application as its call frame
      (after the check's own frame), an exception inside `operate` becomes a
      plain error at the application, and an error inside a procedure body
      gets the application put in front of its frames. A procedure's body
      runs in a new frame whose parent is the frame it was defined in. */
  function Apply(f: Value, args: seq<Value>, app: Exp, st: Store, fuel: nat): (r: Run)
    ensures Grows(st, r.st)
    decreases fuel, 2, 0
  {
    match f
    case VOp(op) =>
      var (a, p) := Invoke(op, args, Pos(st.cursor, op));
      var st' := st.(cursor := st.cursor[op := p]);
      (match a
       case Returned(v) => Run(Val(v), st')
       case TypeRejected => Run(Err(LispError(TypeError, [AtExp(app), Blank])), st')
       case Raises => Run(Err(Raised(Generic, AtExp(app))), st')
       case NotModelled => Run(Unsupported, st'))
    case VProc(params, body, def, _) =>
      var st' := st.(frames := NewFrame(st.frames, params, args, def));
      // an empty body leaves `result` unbound: an `UnboundLocalError`
      if body == [] then Run(Err(Raised(Generic, AtExp(app))), st')
      else
        var r := EvalSeq(body, |st.frames|, st', fuel);
        if r.out.Err? then Run(Err(Traced(r.out.err, AtExp(app))), r.st) else r
    case _ => Run(Err(Raised(TypeError, AtExp(app))), st)
  }

  // ---------------------------------------------------------------------
  // Properties

  /** A symbol evaluates to its innermost binding; an unbound symbol is a
      `LispNameError` naming the symbol, and nothing changes either way. */
  lemma SymbolLookup(n: string, env: nat, st: Store, fuel: nat)
    requires env < |st.frames| && fuel >= 1
    ensures Eval(Atom(Sym(n)), env, st, fuel).st == st
    ensures Eval(Atom(Sym(n)), env, st, fuel).out.Val? <==> Bound(st.frames, env, n)
    ensures Bound(st.frames, env, n) ==> Eval(Atom(Sym(n)), env, st, fuel).out.v == Lookup(st.frames, env, n).value
    ensures !Bound(st.frames, env, n) ==>
              Eval(Atom(Sym(n)), env, st, fuel).out == Err(LispError(NameError, [AtExp(Atom(Sym(n)))]))
  {
  }

  /** `if` evaluates its test once and then only the chosen branch, which
      goes back to the same loop with the budget the test had; a false test
      without an alternative gives `None`. */
  lemma IfEvaluatesOneBranch(test: Exp, conseq: Exp, alt: Option<Exp>, env: nat, st: Store, fuel: nat)
    requires env < |st.frames| && fuel >= 1
    ensures var r := Eval(test, env, st, fuel - 1);
            var e := If(test, conseq, alt);
            (!r.out.Val? ==> Eval(e, env, st, fuel) == r) &&
            (r.out.Val? && Truthy(r.out.v) ==> Eval(e, env, st, fuel) == Eval(conseq, env, r.st, fuel - 1)) &&
            (r.out.Val? && !Truthy(r.out.v) && alt.Some? ==> Eval(e, env, st, fuel) == Eval(alt.value, env, r.st, fuel - 1)) &&
            (r.out.Val? && !Truthy(r.out.v) && alt.None? ==> Eval(e, env, st, fuel) == Run(Val(VNone), r.st))
  {
    var r := Eval(test, env, st, fuel - 1);
    assert Step(If(test, conseq, alt), env, st, fuel - 1) ==
           if !r.out.Val? then Finished(r)
           else if Truthy(r.out.v) then Next(conseq, r.st)
           else if alt.None? then Finished(Run(Val(VNone), r.st))
           else Next(alt.value, r.st);
  }

  /** A sequence runs as its two parts one after the other: the second part
      starts from the state the first left, unless the first one failed. */
  lemma {:induction false} EvalSeqAppend(a: seq<Exp>, b: seq<Exp>, env: nat, st: Store, fuel: nat)
    requires env < |st.frames| && a != [] && b != []
    ensures var r := EvalSeq(a, env, st, fuel);
            EvalSeq(a + b, env, st, fuel) == if r.out.Val? then EvalSeq(b, env, r.st, fuel) else r
    decreases |a|
  {
    var r0 := Eval(a[0], env, st, fuel);
    assert (a + b)[0] == a[0];
    if r0.out.Val? {
      if |a| == 1 {
        assert (a + b)[1..] == b;
      } else {
        assert (a + b)[1..] == a[1..] + b;
        EvalSeqAppend(a[1..], b, env, r0.st, fuel);
      }
    }
  }

  /** `begin` evaluates all but its last expression by nested calls, and
      its last expression in the same loop (a tail call). */
  lemma BeginTail(es: seq<Exp>, last: Exp, env: nat, st: Store, fuel: nat)
    requires env < |st.frames| && fuel >= 1
    ensures var r := EvalSeq(es, env, st, fuel - 1);
            Eval(Begin(es + [last]), env, st, fuel) ==
              if r.out.Val? then Eval(last, env, r.st, fuel - 1) else r
  {
    assert (es + [last])[..|es + [last]| - 1] == es;
  }

  /** `cond` takes the first clause whose test is true: the clauses after a
      chosen one (or after a failing test) are never looked at, and when no
      test in a prefix is true the choice is made among the rest. */
  lemma {:induction false} SelectFirstTrue(cs: seq<Clause>, more: seq<Clause>, env: nat, st: Store, fuel: nat)
    requires env < |st.frames|
    ensures var s := Select(cs, env, st, fuel);
            (s.Finished? && s.r.out == Val(VNone) ==> Select(cs + more, env, st, fuel) == Select(more, env, s.r.st, fuel)) &&
            (!(s.Finished? && s.r.out == Val(VNone)) ==> Select(cs + more, env, st, fuel) == s)
    decreases |cs|
  {
    if cs == [] {
      assert cs + more == more;
    } else {
      assert (cs + more)[0] == cs[0];
      assert (cs + more)[1..] == cs[1..] + more;
      var r := Eval(cs[0].test, env, st, fuel);
      if r.out.Val? && !Truthy(r.out.v) {
        SelectFirstTrue(cs[1..], more, env, r.st, fuel);
      }
    }
  }

  /** Every test of the clauses, each evaluated in the state the previous
      one left, gives a false value. */
  predicate AllTestsFalse(cs: seq<Clause>, env: nat, st: Store, fuel: nat)
    requires env < |st.frames|
    decreases |cs|
  {
    cs == [] ||
    (var r := Eval(cs[0].test, env, st, fuel);
     r.out.Val? && !Truthy(r.out.v) && AllTestsFalse(cs[1..], env, r.st, fuel))
  }

  /** `cond` gives `None` exactly when no test is true (and none fails). */
  lemma {:induction false} SelectNoneTrue(cs: seq<Clause>, env: nat, st: Store, fuel: nat)
    requires env < |st.frames|
    ensures Select(cs, env, st, fuel).Finished? && Select(cs, env, st, fuel).r.out == Val(VNone)
            <==> AllTestsFalse(cs, env, st, fuel)
    decreases |cs|
  {
    if cs != [] {
      var r := Eval(cs[0].test, env, st, fuel);
      if r.out.Val? && !Truthy(r.out.v) {
        SelectNoneTrue(cs[1..], env, r.st, fuel);
      }
    }
  }

  /** `define` evaluates the value and binds it in the current frame: the
      name then evaluates to it, every other name is as before, and the
      result is `None`. */
  lemma DefineBinds(name: string, value: Exp, env: nat, st: Store, fuel: nat, other: string, j: nat)
    requires env < |st.frames| && fuel >= 1
    ensures var r := Eval(value, env, st, fuel - 1);
            var d := Eval(Define(name, value), env, st, fuel);
            (!r.out.Val? ==> d == r) &&
            (r.out.Val? ==>
               d.out == Val(VNone) &&
               Lookup(d.st.frames, env, name) == Some(r.out.v) &&
               (other != name ==> Lookup(d.st.frames, j, other) == Lookup(r.st.frames, j, other)))
  {
    var r := Eval(value, env, st, fuel - 1);
    if r.out.Val? {
      DefineOnlyHead(r.st.frames, env, name, r.out.v, env, name);
      DefineOnlyHead(r.st.frames, env, name, r.out.v, j, other);
    }
  }

  /** `set!` evaluates the value first; then an unbound name is a
      `LispNameError` at the `set!` form (the value's effects remain), and a
      bound one evaluates to the new value afterwards. */
  lemma SetBangSemantics(name: string, value: Exp, env: nat, st: Store, fuel: nat)
    requires env < |st.frames| && fuel >= 1 && Linked(st.frames)
    ensures var r := Eval(value, env, st, fuel - 1);
            var e := SetBang(name, value);
            var d := Eval(e, env, st, fuel);
            (!r.out.Val? ==> d == r) &&
            (r.out.Val? && !Bound(r.st.frames, env, name) ==>
               d == Run(Err(LispError(NameError, [AtExp(e)])), r.st)) &&
            (r.out.Val? && Bound(r.st.frames, env, name) && Linked(r.st.frames) ==>
               d.out == Val(VNone) && Lookup(d.st.frames, env, name) == Some(r.out.v))
  {
    var r := Eval(value, env, st, fuel - 1);
    if r.out.Val? {
      ChangeIffBound(r.st.frames, env, name, r.out.v);
      if Bound(r.st.frames, env, name) && Linked(r.st.frames) {
        ChangeWrites(r.st.frames, env, name, r.out.v);
      }
    }
  }

  /** A head that is neither a procedure nor an operator is a
      `LispTypeError` at the application, raised before any argument is
      evaluated. */
  lemma NotCallableHead(items: seq<Exp>, env: nat, st: Store, fuel: nat)
    requires env < |st.frames| && fuel >= 1 && items != []
    requires Eval(items[0], env, st, fuel - 1).out.Val?
    requires !Callable(Eval(items[0], env, st, fuel - 1).out.v)
    ensures Eval(App(items), env, st, fuel) ==
              Run(Err(LispError(TypeError, [AtExp(App(items))])), Eval(items[0], env, st, fuel - 1).st)
  {
  }

  /** An application with no items evaluates to `None` and changes
      nothing. */
  lemma EmptyApplication(env: nat, st: Store, fuel: nat)
    requires env < |st.frames| && fuel >= 1
    ensures Eval(App([]), env, st, fuel) == Run(Val(VNone), st)
  {
    assert Step(App([]), env, st, fuel - 1) == Finished(Run(Val(VNone), st));
  }

  /** A failure while evaluating the head of an application is the
      application's result as it is: the application adds no frame to it. */
  lemma HeadFailurePassesThrough(items: seq<Exp>, env: nat, st: Store, fuel: nat)
    requires env < |st.frames| && fuel >= 1 && items != []
    requires !Eval(items[0], env, st, fuel - 1).out.Val?
    ensures Eval(App(items), env, st, fuel) == Eval(items[0], env, st, fuel - 1)
  {
    assert Step(App(items), env, st, fuel - 1) == Finished(Eval(items[0], env, st, fuel - 1));
  }

  /** With a callable head, the arguments are evaluated left to right in
      the state the head left; the first failing argument is the
      application's result as it is (no frame added), and otherwise the
      head is applied to the argument values. */
  lemma ApplicationArguments(items: seq<Exp>, env: nat, st: Store, fuel: nat)
    requires env < |st.frames| && fuel >= 1 && items != []
    requires Eval(items[0], env, st, fuel - 1).out.Val?
    requires Callable(Eval(items[0], env, st, fuel - 1).out.v)
    ensures var h := Eval(items[0], env, st, fuel - 1);
            match EvalArgs(items[1..], env, h.st, fuel - 1)
            case Stopped(r) => Eval(App(items), env, st, fuel) == r
            case Evaluated(vals, st') => Eval(App(items), env, st, fuel) == Apply(h.out.v, vals, App(items), st', fuel - 1)
  {
    var h := Eval(items[0], env, st, fuel - 1);
    assert Step(App(items), env, st, fuel - 1) ==
           match EvalArgs(items[1..], env, h.st, fuel - 1)
           case Stopped(r) => Finished(r)
           case Evaluated(vals, st') => Finished(Apply(h.out.v, vals, App(items), st', fuel - 1));
  }

  /** Arguments stop at the first one that fails, whose run is handed on
      unchanged: the arguments after it are not evaluated. */
  lemma {:induction false} ArgsStopAtFailure(a: seq<Exp>, e: Exp, b: seq<Exp>, env: nat, st: Store, fuel: nat)
    requires env < |st.frames| && EvalArgs(a, env, st, fuel).Evaluated?
    requires !Eval(e, env, EvalArgs(a, env, st, fuel).st, fuel).out.Val?
    ensures EvalArgs(a + [e] + b, env, st, fuel) == Stopped(Eval(e, env, EvalArgs(a, env, st, fuel).st, fuel))
    decreases |a|
  {
    if a == [] {
      assert a + [e] + b == [e] + b;
    } else {
      var r0 := Eval(a[0], env, st, fuel);
      assert (a + [e] + b)[0] == a[0];
      assert (a + [e] + b)[1..] == a[1..] + [e] + b;
      ArgsStopAtFailure(a[1..], e, b, env, r0.st, fuel);
    }
  }

  /** An operator whose check fails reports a `LispTypeError` whose trace is
      the application and then the check's own frame; its type stream has
      moved as far as the check drew from it, and `operate` is not run. */
  lemma OperatorCheckTrace(op: OpName, args: seq<Value>, app: Exp, st: Store, fuel: nat)
    requires Check(op, args, Pos(st.cursor, op)).Rejected?
    ensures Apply(VOp(op), args, app, st, fuel) ==
              Run(Err(LispError(TypeError, [AtExp(app), Blank])),
                  st.(cursor := st.cursor[op := Check(op, args, Pos(st.cursor, op)).pos]))
  {
  }

  /** An exception inside `operate` (taking `car` of an empty list,
      `quotient` by zero, `+` of a list and a number, ...) becomes a plain
      `LispError` at the application. */
  lemma OperatorFailureTrace(op: OpName, args: seq<Value>, app: Exp, st: Store, fuel: nat)
    requires Check(op, args, Pos(st.cursor, op)).Passed? && Operate(op, args) == Fail
    ensures Apply(VOp(op), args, app, st, fuel).out == Err(LispError(Generic, [AtExp(app)]))
  {
  }

  /** A procedure's body runs in a new frame binding the parameters, whose
      parent is the frame the procedure was defined in; its value is the
      last body expression's, and an error inside it gets the application
      put in front of its trace. */
  lemma ProcedureCall(params: seq<string>, body: seq<Exp>, def: nat, serial: nat,
                      args: seq<Value>, app: Exp, st: Store, fuel: nat)
    requires body != []
    ensures var st' := st.(frames := st.frames + [Frame(Bindings(params, args), Some(def))]);
            var r := EvalSeq(body, |st.frames|, st', fuel);
            Apply(VProc(params, body, def, serial), args, app, st, fuel) ==
              if r.out.Err? then Run(Err(LispError(r.out.err.kind, [AtExp(app)] + r.out.err.sites)), r.st) else r
  {
  }

  /** A procedure with an empty body raises a plain `LispError` at the call. */
  lemma EmptyBodyCall(params: seq<string>, def: nat, serial: nat, args: seq<Value>, app: Exp, st: Store, fuel: nat)
    ensures Apply(VProc(params, [], def, serial), args, app, st, fuel).out == Err(LispError(Generic, [AtExp(app)]))
  {
  }

  /** Each evaluation of a `lambda` makes a new procedure object: two
      evaluations give procedures that are not `equal?`. */
  lemma LambdaIsFresh(ps: seq<string>, body: seq<Exp>, env: nat, st: Store, fuel: nat)
    requires env < |st.frames| && fuel >= 1
    ensures var r1 := Eval(Lambda(ps, body), env, st, fuel);
            var r2 := Eval(Lambda(ps, body), env, r1.st, fuel);
            r1.out == Val(VProc(ps, body, env, st.serial)) && r2.out.Val? &&
            !PyEq(r1.out.v, r2.out.v)
  {
  }

  /** A procedure made by a `lambda` is unequal to every procedure any
      later `lambda` evaluation makes, however much was evaluated in
      between: each carries the serial in force when it was made, the
      first one moves the serial on, and evaluation never moves it back. */
  lemma LaterLambdaIsDistinct(ps: seq<string>, body: seq<Exp>, env: nat, st: Store, fuel: nat,
                              ps': seq<string>, body': seq<Exp>, env': nat, st': Store, fuel': nat)
    requires env < |st.frames| && fuel >= 1 && env' < |st'.frames| && fuel' >= 1
    requires Grows(Eval(Lambda(ps, body), env, st, fuel).st, st')
    ensures var r := Eval(Lambda(ps, body), env, st, fuel);
            var r' := Eval(Lambda(ps', body'), env', st', fuel');
            r.out.Val? && r'.out.Val? && !PyEq(r.out.v, r'.out.v)
  {
    assert Step(Lambda(ps, body), env, st, fuel - 1)
        == Finished(Run(Val(VProc(ps, body, env, st.serial)), st.(serial := st.serial + 1)));
    assert Step(Lambda(ps', body'), env', st', fuel' - 1)
        == Finished(Run(Val(VProc(ps', body', env', st'.serial)), st'.(serial := st'.serial + 1)));
  }

  /** Grows is transitive, so a chain of evaluations only adds. */
  lemma GrowsTransitive(a: Store, b: Store, c: Store)
    requires Grows(a, b) && Grows(b, c)
    ensures Grows(a, c)
  {
  }
}
