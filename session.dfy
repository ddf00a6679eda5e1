/** The interpreter's entry point, `interpret`: the source is cut into
    chunks, tokenized, and read form by form; each form is analysed and
    evaluated in the global environment, which persists from one call to the
    next. The reply carries the last value's text, the source left unread,
    the global names, and the error that would be displayed. */
module Session {
  import opened Wrappers
  import opened Syntax
  import Lexer
  import opened Reader
  import opened Analyzer
  import opened Values
  import opened Environment
  import opened Operators
  import opened Evaluator
  import opened Wellformed
  import opened Budget

  /** `run_env` when the interpreter starts: the standard environment in a
      frame of its own, every type stream at its start. */
  function InitialStore(): Store {
    Store([Frame(StandardTable(), None)], map[], 0)
  }

  /** `eval_time`: a whole number of forms, or no limit. */
  datatype Limit = Finite(n: int) | Unbounded

  predicate Below(i: nat, lim: Limit) {
    lim.Unbounded? || i < lim.n
  }

  /** The error `display` would print: a reader error (`ExpError`) or an
      error raised by analysis or evaluation (`LispError`). */
  datatype Report = ReadFailed(r: ReadResult) | LispFailed(err: LispError)

  /** What `interpret` gives. `Reply` is its returned triple together with
      what it displays; `Crashed` is a Python exception that escapes it;
      `Unmodelled` is floating point, object identity, or a chunk size
      below one; `OutOfBudget` is evaluation beyond the fuel given. */
  datatype Reply =
    | Reply(text: Option<string>, left: string, names: set<string>, shown: Option<Report>)
    | Crashed
    | Unmodelled
    | OutOfBudget

  /** `set(run_env.keys())`: the global frame's names. */
  function Names(st: Store): set<string>
    requires |st.frames| > 0
  {
    st.frames[0].table.Keys
  }

  /** `str(result)`, or `None` when the value is `None`. */
  function TextOf(v: Value): Option<string> {
    if v == VNone then None else Some(Show(v))
  }

  /** The end of `interpret`'s loop: the last value's text and the source
      after the tokens read; no value at all leaves `result` unbound, an
      `UnboundLocalError`. */
  function Finish(source: string, toks: seq<Lexer.Token>, pos: nat, last: Option<Value>, st: Store): (Reply, Store)
    requires |st.frames| > 0
  {
    match last
    case None => (Crashed, st)
    case Some(v) => (Reply(TextOf(v), FindLeft(source, toks, pos), Names(st), None), st)
  }

  /** The loop of `interpret` from token `pos` on, after `i` forms, with
      `last` the last value. */
  function Forms(source: string, toks: seq<Lexer.Token>, vals: seq<string>, pos: nat, i: nat, lim: Limit,
                 last: Option<Value>, st: Store, fuel: nat): (Reply, Store)
    requires pos <= |vals| && |st.frames| > 0
    decreases |vals| - pos
  {
    if !Below(i, lim) then Finish(source, toks, pos, last, st)
    else
      match ReadForm(vals, pos)
      case EndOfSource => Finish(source, toks, pos, last, st)
      case AtomCrash(_) => (Crashed, st)
      case Parsed(d, next) =>
        (match Analyze(d)
         case Crash => (Crashed, st)
         case Fail(site) =>
           (Reply(None, FindLeft(source, toks, next), Names(st), Some(LispFailed(LispError(SyntaxError, [AtDatum(site)])))), st)
         case Ok(e) =>
           var r := Eval(e, 0, st, fuel);
           match r.out
           case Val(v) => Forms(source, toks, vals, next, i + 1, lim, Some(v), r.st, fuel)
           case Err(err) => (Reply(None, FindLeft(source, toks, next), Names(r.st), Some(LispFailed(err))), r.st)
           case Unsupported => (Unmodelled, r.st)
           case OutOfFuel => (OutOfBudget, r.st))
      case other => (Reply(None, [], Names(st), Some(ReadFailed(other))), st)
  }

  /** `interpret(source, time, max_in, eval_time)` from the state `st`. */
  function InterpretSpec(st: Store, source: string, time: int, maxIn: int, lim: Limit, fuel: nat): (Reply, Store)
    requires |st.frames| > 0
  {
    if maxIn < 1 && source != [] then (Unmodelled, st)
    else
      var toks := Lexer.Tokenize(source, time);
      Forms(source, toks, Reader.Values(toks), 0, 0, lim, None, st, fuel)
  }

  // ---------------------------------------------------------------------
  // Properties

  /** The reply's names and state: the global frame never loses a name,
      and the invariant of the state is kept. */
  lemma {:induction false} FormsKeep(source: string, toks: seq<Lexer.Token>, vals: seq<string>, pos: nat, i: nat,
                                     lim: Limit, last: Option<Value>, st: Store, fuel: nat)
    requires pos <= |vals| && WfStore(st)
    ensures var (reply, st') := Forms(source, toks, vals, pos, i, lim, last, st, fuel);
            WfStore(st') && Names(st) <= Names(st') && (reply.Reply? ==> reply.names == Names(st'))
    decreases |vals| - pos
  {
    if Below(i, lim) {
      match ReadForm(vals, pos)
      case Parsed(d, next) =>
        if Analyze(d).Ok? {
          var r := Eval(Analyze(d).value, 0, st, fuel);
          EvalWf(Analyze(d).value, 0, st, fuel);
          if r.out.Val? {
            FormsKeep(source, toks, vals, next, i + 1, lim, Some(r.out.v), r.st, fuel);
          }
        }
      case _ =>
    }
  }

  /** Every builtin operator's name is among the names every reply lists,
      from the interpreter's start on. */
  lemma BuiltinsStayNamed(st: Store, source: string, time: int, maxIn: int, lim: Limit, fuel: nat)
    requires WfStore(st) && StandardTable().Keys <= Names(st)
    ensures var (reply, st') := InterpretSpec(st, source, time, maxIn, lim, fuel);
            WfStore(st') && StandardTable().Keys <= Names(st') &&
            (reply.Reply? ==> StandardTable().Keys <= reply.names)
  {
    if !(maxIn < 1 && source != []) {
      var toks := Lexer.Tokenize(source, time);
      FormsKeep(source, toks, Reader.Values(toks), 0, 0, lim, None, st, fuel);
    }
  }

  lemma InitialStoreNamesBuiltins()
    ensures WfStore(InitialStore()) && StandardTable().Keys <= Names(InitialStore())
  {
  }

  /** With the default `eval_time` of one, `interpret` evaluates the first
      form only and hands back the source after it, whatever follows. */
  lemma OneFormPerCall(st: Store, source: string, time: int, maxIn: int, fuel: nat)
    requires |st.frames| > 0 && maxIn >= 1
    ensures var toks := Lexer.Tokenize(source, time);
            var vals := Reader.Values(toks);
            var read := ReadForm(vals, 0);
            read.Parsed? && Analyze(read.d).Ok? && Eval(Analyze(read.d).value, 0, st, fuel).out.Val? ==>
              var r := Eval(Analyze(read.d).value, 0, st, fuel);
              InterpretSpec(st, source, time, maxIn, Finite(1), fuel) ==
                (Reply(TextOf(r.out.v), FindLeft(source, toks, read.next), Names(r.st), None), r.st)
  {
    var toks := Lexer.Tokenize(source, time);
    var vals := Reader.Values(toks);
    var read := ReadForm(vals, 0);
    if read.Parsed? && Analyze(read.d).Ok? {
      var r := Eval(Analyze(read.d).value, 0, st, fuel);
      if r.out.Val? {
        assert Forms(source, toks, vals, 0, 0, Finite(1), None, st, fuel) ==
               Forms(source, toks, vals, read.next, 1, Finite(1), Some(r.out.v), r.st, fuel);
      }
    }
  }

  /** An unbalanced parenthesis or a dangling quote in the next form drops
      the rest of the source and leaves that form without effect; the forms
      before it have been evaluated. */
  lemma {:induction false} ReadErrorDropsRest(source: string, toks: seq<Lexer.Token>, vals: seq<string>, pos: nat, i: nat,
                                              lim: Limit, last: Option<Value>, st: Store, fuel: nat)
    requires pos <= |vals| && |st.frames| > 0 && Below(i, lim) && IsExpError(ReadForm(vals, pos))
    ensures Forms(source, toks, vals, pos, i, lim, last, st, fuel) ==
              (Reply(None, [], Names(st), Some(ReadFailed(ReadForm(vals, pos)))), st)
  {
  }

  /** An error raised while a form is analysed or evaluated keeps the
      source after that form for the next input. */
  lemma LispErrorKeepsRest(source: string, toks: seq<Lexer.Token>, vals: seq<string>, pos: nat, i: nat,
                           lim: Limit, last: Option<Value>, st: Store, fuel: nat)
    requires pos <= |vals| && |st.frames| > 0 && Below(i, lim) && ReadForm(vals, pos).Parsed?
    ensures var read := ReadForm(vals, pos);
            var (reply, _) := Forms(source, toks, vals, pos, i, lim, last, st, fuel);
            (Analyze(read.d).Fail? ||
             (Analyze(read.d).Ok? && Eval(Analyze(read.d).value, 0, st, fuel).out.Err?)) ==>
              reply.Reply? && reply.text.None? && reply.left == FindLeft(source, toks, read.next) &&
              reply.shown.Some? && reply.shown.value.LispFailed?
  {
  }

  /** `result` is unbound when no form is evaluated: a source without any
      token, or an `eval_time` below one, makes `interpret` crash. */
  lemma NothingEvaluatedCrashes(st: Store, source: string, time: int, maxIn: int, lim: Limit, fuel: nat)
    requires |st.frames| > 0 && maxIn >= 1
    requires Lexer.Tokenize(source, time) == [] || (lim.Finite? && lim.n <= 0)
    ensures InterpretSpec(st, source, time, maxIn, lim, fuel).0 == Crashed
  {
    var toks := Lexer.Tokenize(source, time);
    assert toks == [] ==> Reader.Values(toks) == [];
  }

  /** The budget only bounds evaluation: a reply that did not run out of
      fuel is the same under any larger budget. */
  lemma {:induction false} FormsBudget(source: string, toks: seq<Lexer.Token>, vals: seq<string>, pos: nat, i: nat,
                                       lim: Limit, last: Option<Value>, st: Store, f: nat, g: nat)
    requires pos <= |vals| && |st.frames| > 0 && f <= g
    requires !Forms(source, toks, vals, pos, i, lim, last, st, f).0.OutOfBudget?
    ensures Forms(source, toks, vals, pos, i, lim, last, st, g) == Forms(source, toks, vals, pos, i, lim, last, st, f)
    decreases |vals| - pos
  {
    if Below(i, lim) {
      match ReadForm(vals, pos)
      case Parsed(d, next) =>
        if Analyze(d).Ok? {
          var r := Eval(Analyze(d).value, 0, st, f);
          EvalMono(Analyze(d).value, 0, st, f, g);
          if r.out.Val? {
            FormsBudget(source, toks, vals, next, i + 1, lim, Some(r.out.v), r.st, f, g);
          }
        }
      case _ =>
    }
  }

  lemma InterpretBudget(st: Store, source: string, time: int, maxIn: int, lim: Limit, f: nat, g: nat)
    requires |st.frames| > 0 && f <= g && !InterpretSpec(st, source, time, maxIn, lim, f).0.OutOfBudget?
    ensures InterpretSpec(st, source, time, maxIn, lim, g) == InterpretSpec(st, source, time, maxIn, lim, f)
  {
    if !(maxIn < 1 && source != []) {
      var toks := Lexer.Tokenize(source, time);
      FormsBudget(source, toks, Reader.Values(toks), 0, 0, lim, None, st, f, g);
    }
  }

  /** The interpreter and its global environment. */
  class Interpreter {
    var store: Store

    predicate Valid()
      reads this
    {
      WfStore(store)
    }

    /** `run_env = standard_env()`. */
    constructor ()
      ensures store == InitialStore() && Valid()
    {
      store := InitialStore();
    }

    /** `eval`: the loop over the expression queue. A tail expression goes
        back to the loop instead of being evaluated by a nested call. */
    method EvalLoop(e: Exp, env: nat, fuel: nat) returns (o: Outcome)
      requires env < |store.frames|
      modifies this
      ensures Run(o, store) == Eval(e, env, old(store), fuel)
    {
      var exp := e;
      var budget := fuel;
      while true
        invariant env < |store.frames|
        invariant Eval(exp, env, store, budget) == Eval(e, env, old(store), fuel)
        decreases budget
      {
        if budget == 0 {
          return OutOfFuel;
        }
        match Step(exp, env, store, budget - 1)
        case Finished(r) =>
          store := r.st;
          return r.out;
        case Next(e', st') =>
          store := st';
          exp := e';
          budget := budget - 1;
      }
    }

    /** `Procedure.__call__`: a new frame for the call, then the body
        expressions in turn, each by its own `eval`; the last value is the
        result. An error from the body gets the call's frame put in front. */
    method CallProcedure(f: Value, args: seq<Value>, app: Exp, fuel: nat) returns (o: Outcome)
      requires f.VProc?
      modifies this
      ensures Run(o, store) == Apply(f, args, app, old(store), fuel)
    {
      var id := |store.frames|;
      store := store.(frames := NewFrame(store.frames, f.params, args, f.env));
      if f.body == [] {
        return Err(Raised(Generic, AtExp(app)));
      }
      ghost var start := store;
      var k := 0;
      while true
        invariant k < |f.body| && id < |store.frames|
        invariant EvalSeq(f.body[k..], id, store, fuel) == EvalSeq(f.body, id, start, fuel)
        decreases |f.body| - k
      {
        assert f.body[k..][0] == f.body[k];
        var out := EvalLoop(f.body[k], id, fuel);
        if !out.Val? || k == |f.body| - 1 {
          if out.Err? {
            return Err(Traced(out.err, AtExp(app)));
          }
          return out;
        }
        assert f.body[k..][1..] == f.body[k + 1..];
        k := k + 1;
      }
    }

    /** `interpret`: up to `lim` forms are read, analysed and evaluated;
        the first error ends the call. */
    method Interpret(source: string, time: int, maxIn: int, lim: Limit, fuel: nat) returns (reply: Reply)
      requires Valid()
      modifies this
      ensures Valid()
      ensures (reply, store) == InterpretSpec(old(store), source, time, maxIn, lim, fuel)
    {
      if maxIn < 1 && source != [] {
        return Unmodelled;
      }
      var chunks: seq<string> := [];
      if maxIn >= 1 {
        chunks := Lexer.StrGen(source, maxIn);
      }
      var toks := Lexer.TokenGen(chunks, time);
      var vals := Reader.Values(toks);
      var pos, i := 0, 0;
      var last: Option<Value> := None;
      while Below(i, lim)
        invariant pos <= |vals| && Valid()
        invariant Forms(source, toks, vals, pos, i, lim, last, store, fuel) ==
                  InterpretSpec(old(store), source, time, maxIn, lim, fuel)
        decreases |vals| - pos
      {
        var read := ReadForm(vals, pos);
        if read.EndOfSource? {
          break;
        } else if read.AtomCrash? {
          return Crashed;
        } else if !read.Parsed? {
          return Reply(None, [], Names(store), Some(ReadFailed(read)));
        }
        var next := read.next;
        match Analyze(read.d)
        case Crash =>
          return Crashed;
        case Fail(site) =>
          return Reply(None, FindLeft(source, toks, next), Names(store), Some(LispFailed(LispError(SyntaxError, [AtDatum(site)]))));
        case Ok(e) =>
          ghost var before := store;
          EvalWf(e, 0, store, fuel);
          var o := EvalLoop(e, 0, fuel);
          assert Run(o, store) == Eval(e, 0, before, fuel);
          match o
          case Val(v) =>
            last := Some(v);
            pos := next;
            i := i + 1;
          case Err(err) =>
            return Reply(None, FindLeft(source, toks, next), Names(store), Some(LispFailed(err)));
          case Unsupported =>
            return Unmodelled;
          case OutOfFuel =>
            return OutOfBudget;
      }
      if last.None? {
        return Crashed;
      }
      return Reply(TextOf(last.value), FindLeft(source, toks, pos), Names(store), None);
    }
  }
}
