/** `analyze` and the `analysis` class methods: checks the shape of each
    special form and builds the analysed expression. */
module Analyzer {
  import opened Syntax

  /** The result of analysing: a value, a syntax error at a form (the
      `LispSyntaxError` frame), or `Crash`, a Python exception
      (`IndexError`, `TypeError`) that the interpreter does not catch. */
  datatype An<T> = Ok(value: T) | Fail(site: Datum) | Crash

  /** `analyze`: atoms are returned unchanged; a list headed by a keyword
      goes to that form's analysis; any other list is analysed item by
      item. The empty list has no head and crashes. */
  function Analyze(d: Datum): An<Exp>
    decreases d, 2
  {
    match d
    case List(items) =>
      if items == [] then Crash
      else if items[0].Sym? && IsKeyword(items[0].name) then Special(items[0].name, d)
      else (
        match AnalyzeAll(items)
        case Ok(es) => Ok(App(es))
        case Fail(s) => Fail(s)
        case Crash => Crash)
    case _ => Ok(Atom(d))
  }

  /** The items analysed left to right; the first failure wins. */
  function AnalyzeAll(ds: seq<Datum>): An<seq<Exp>>
    decreases ds, 0
  {
    if ds == [] then Ok([])
    else
      match Analyze(ds[0])
      case Fail(s) => Fail(s)
      case Crash => Crash
      case Ok(e) =>
        match AnalyzeAll(ds[1..])
        case Ok(es) => Ok([e] + es)
        case Fail(s) => Fail(s)
        case Crash => Crash
  }

  /** The parameter list of `lambda`: every item must be a symbol, else the
      first item that is not is the error's frame. */
  function Params(ds: seq<Datum>): (r: An<seq<string>>)
    ensures r.Ok? ==> |r.value| == |ds|
    ensures !r.Crash?
  {
    if ds == [] then Ok([])
    else if !ds[0].Sym? then Fail(ds[0])
    else
      match Params(ds[1..])
      case Ok(ns) => Ok([ds[0].name] + ns)
      case Fail(s) => Fail(s)
      case Crash => Crash
  }

  /** `cond` clauses: each must be a two-item list; its test and its
      expression are analysed in that order. */
  function Clauses(ds: seq<Datum>): An<seq<Clause>>
    decreases ds, 0
  {
    if ds == [] then Ok([])
    else if !(ds[0].List? && |ds[0].items| == 2) then Fail(ds[0])
    else
      match Analyze(ds[0].items[0])
      case Fail(s) => Fail(s)
      case Crash => Crash
      case Ok(t) =>
        match Analyze(ds[0].items[1])
        case Fail(s) => Fail(s)
        case Crash => Crash
        case Ok(x) =>
          match Clauses(ds[1..])
          case Ok(cs) => Ok([Clause(t, x)] + cs)
          case Fail(s) => Fail(s)
          case Crash => Crash
  }

  /** The `analysis` method of the special form `kw`; `d` is the whole form. */
  function Special(kw: string, d: Datum): An<Exp>
    requires d.List? && |d.items| > 0
    decreases d, 1
  {
    if kw == "if" then AnalyzeIf(d)
    else if kw == "begin" then AnalyzeBegin(d)
    else if kw == "cond" then AnalyzeCond(d)
    else if kw == "lambda" then AnalyzeLambda(d)
    else if kw == "define" then AnalyzeDefine(d)
    else if kw == "set!" then AnalyzeSet(d)
    else if kw == "quote" then AnalyzeQuoteForm(d)
    else Crash
  }

  /** `(if test conseq [alt])`: three or four items. */
  function AnalyzeIf(d: Datum): An<Exp>
    requires d.List?
    decreases d, 0
  {
    var items := d.items;
    if |items| != 3 && |items| != 4 then Fail(d)
    else
      match Analyze(items[1])
      case Fail(s) => Fail(s)
      case Crash => Crash
      case Ok(c) =>
        match Analyze(items[2])
        case Fail(s) => Fail(s)
        case Crash => Crash
        case Ok(t) =>
          if |items| == 3 then Ok(If(c, t, Wrappers.None))
          else
            match Analyze(items[3])
            case Fail(s) => Fail(s)
            case Crash => Crash
            case Ok(a) => Ok(If(c, t, Wrappers.Some(a)))
  }

  /** `(begin e ...)`: at least one expression. */
  function AnalyzeBegin(d: Datum): An<Exp>
    requires d.List?
    decreases d, 0
  {
    var items := d.items;
    if |items| < 2 then Fail(d)
    else
      match AnalyzeAll(items[1..])
      case Ok(es) => Ok(Begin(es))
      case Fail(s) => Fail(s)
      case Crash => Crash
  }

  /** `(cond (test expr) ...)`: at least one clause. */
  function AnalyzeCond(d: Datum): An<Exp>
    requires d.List?
    decreases d, 0
  {
    var items := d.items;
    if |items| < 2 then Fail(d)
    else
      match Clauses(items[1..])
      case Ok(cs) => Ok(Cond(cs))
      case Fail(s) => Fail(s)
      case Crash => Crash
  }

  /** `(lambda (p ...) b ...)`: a parameter list of symbols and a body. */
  function AnalyzeLambda(d: Datum): An<Exp>
    requires d.List?
    decreases d, 0
  {
    var items := d.items;
    if |items| < 3 || !items[1].List? then Fail(d)
    else
      match Params(items[1].items)
      case Fail(s) => Fail(s)
      case Crash => Crash
      case Ok(ps) =>
        match AnalyzeAll(items[2..])
        case Ok(body) => Ok(Lambda(ps, body))
        case Fail(s) => Fail(s)
        case Crash => Crash
  }

  /** `(define name value)`, or `(define (name p ...) b ...)` for a
      procedure. A missing second item, or one that is neither a symbol nor
      a non-empty list, is a Python exception. */
  function AnalyzeDefine(d: Datum): An<Exp>
    requires d.List?
    decreases d, 0
  {
    var items := d.items;
    if |items| < 2 then Crash
    else if items[1].Sym? then
      if |items| != 3 then Fail(d)
      else
        match Analyze(items[2])
        case Ok(v) => Ok(Define(items[1].name, v))
        case Fail(s) => Fail(s)
        case Crash => Crash
    else if !items[1].List? || items[1].items == [] then Crash
    else if !items[1].items[0].Sym? then Fail(d)
    else
      match Params(items[1].items[1..])
      case Fail(_) => Fail(d)
      case Crash => Crash
      case Ok(ps) =>
        match AnalyzeAll(items[2..])
        case Fail(s) => Fail(s)
        case Crash => Crash
        case Ok(body) =>
          if body == [] then Fail(d)
          else Ok(Define(items[1].items[0].name, Lambda(ps, body)))
  }

  /** `(set! name value)`. */
  function AnalyzeSet(d: Datum): An<Exp>
    requires d.List?
    decreases d, 0
  {
    var items := d.items;
    if |items| != 3 || !items[1].Sym? then Fail(d)
    else
      match Analyze(items[2])
      case Ok(v) => Ok(SetBang(items[1].name, v))
      case Fail(s) => Fail(s)
      case Crash => Crash
  }

  /** `(quote x)`: the payload is kept as read. */
  function AnalyzeQuoteForm(d: Datum): An<Exp>
    requires d.List?
    decreases d, 0
  {
    if |d.items| != 2 then Fail(d) else Ok(Quote(d.items[1]))
  }

  // ---------------------------------------------------------------------
  // Properties

  /** A failure of a sequence is the failure of one of its items. */
  predicate SameFailure<T, U>(a: An<T>, b: An<U>) {
    (a.Fail? && b.Fail? && a.site == b.site) || (a.Crash? && b.Crash?)
  }

  /** Analysing items one by one: all succeed exactly when each item does,
      the result keeps the length and order of the items, and otherwise the
      failure is that of the first item that fails. */
  lemma {:induction false} AnalyzeAllItems(ds: seq<Datum>)
    ensures AnalyzeAll(ds).Ok? <==> forall i :: 0 <= i < |ds| ==> Analyze(ds[i]).Ok?
    ensures AnalyzeAll(ds).Ok? ==>
              |AnalyzeAll(ds).value| == |ds| &&
              forall i :: 0 <= i < |ds| ==> AnalyzeAll(ds).value[i] == Analyze(ds[i]).value
    ensures !AnalyzeAll(ds).Ok? ==>
              exists k :: 0 <= k < |ds| && SameFailure(AnalyzeAll(ds), Analyze(ds[k])) &&
                forall i :: 0 <= i < k ==> Analyze(ds[i]).Ok?
    decreases ds
  {
    if ds != [] {
      AnalyzeAllItems(ds[1..]);
      var r := AnalyzeAll(ds);
      if Analyze(ds[0]).Ok? && !AnalyzeAll(ds[1..]).Ok? {
        var k :| 0 <= k < |ds[1..]| && SameFailure(AnalyzeAll(ds[1..]), Analyze(ds[1..][k])) &&
                 forall i :: 0 <= i < k ==> Analyze(ds[1..][i]).Ok?;
        assert SameFailure(r, Analyze(ds[k + 1]));
        forall i | 0 <= i < k + 1 ensures Analyze(ds[i]).Ok? {
          if i > 0 { assert ds[i] == ds[1..][i - 1]; }
        }
      } else if !Analyze(ds[0]).Ok? {
        assert SameFailure(r, Analyze(ds[0]));
      } else {
        forall i | 0 <= i < |ds| ensures Analyze(ds[i]).Ok? && r.value[i] == Analyze(ds[i]).value {
          if i > 0 { assert ds[i] == ds[1..][i - 1]; }
        }
      }
    }
  }

  lemma AnalyzeAllOk(ds: seq<Datum>)
    requires forall i :: 0 <= i < |ds| ==> Analyze(ds[i]).Ok?
    ensures AnalyzeAll(ds).Ok? && |AnalyzeAll(ds).value| == |ds|
  {
    AnalyzeAllItems(ds);
  }

  lemma {:induction false} AnalyzeAllLength(ds: seq<Datum>)
    ensures AnalyzeAll(ds).Ok? ==> |AnalyzeAll(ds).value| == |ds|
  {
    if ds != [] { AnalyzeAllLength(ds[1..]); }
  }

  /** A list headed by a keyword is analysed by that form's analysis. */
  lemma KeywordForm(d: Datum, kw: string)
    requires d.List? && d.items != [] && d.items[0] == Sym(kw)
    ensures kw == "define" ==> Analyze(d) == AnalyzeDefine(d)
    ensures kw == "lambda" ==> Analyze(d) == AnalyzeLambda(d)
  {
  }

  /** Atoms are returned unchanged. */
  lemma AnalyzeAtom(d: Datum)
    requires !d.List?
    ensures Analyze(d) == Ok(Atom(d))
  {
  }

  /** `quote` keeps its payload as read, without analysing it. */
  lemma AnalyzeQuote(x: Datum)
    ensures Analyze(List([Sym("quote"), x])) == Ok(Quote(x))
  {
  }

  /** A list whose head is not a keyword is analysed item by item into an
      application of the same length; it fails exactly when an item does. */
  lemma AnalyzeApplication(items: seq<Datum>)
    requires items != [] && !(items[0].Sym? && IsKeyword(items[0].name))
    ensures Analyze(List(items)).Ok? <==> forall i :: 0 <= i < |items| ==> Analyze(items[i]).Ok?
    ensures Analyze(List(items)).Ok? ==>
              Analyze(List(items)).value.App? &&
              |Analyze(List(items)).value.items| == |items| &&
              forall i :: 0 <= i < |items| ==> Analyze(List(items)).value.items[i] == Analyze(items[i]).value
  {
    AnalyzeAllItems(items);
  }

  function SymList(ps: seq<string>): (r: seq<Datum>)
    ensures |r| == |ps| && forall i :: 0 <= i < |ps| ==> r[i] == Sym(ps[i])
  {
    seq(|ps|, i requires 0 <= i < |ps| => Sym(ps[i]))
  }

  /** `(lambda (p ...) b ...)` with symbol parameters and a body that
      analyses is a procedure expression with those parameters and the
      analysed body. */
  lemma LambdaForm(ps: seq<string>, body: seq<Datum>)
    requires body != [] && forall i :: 0 <= i < |body| ==> Analyze(body[i]).Ok?
    ensures AnalyzeAll(body).Ok?
    ensures Analyze(List([Sym("lambda"), List(SymList(ps))] + body)) == Ok(Lambda(ps, AnalyzeAll(body).value))
  {
    AnalyzeAllOk(body);
    ParamsOfSymbols(ps);
    var items := [Sym("lambda"), List(SymList(ps))] + body;
    var d := List(items);
    assert items[0] == Sym("lambda") && items[1] == List(SymList(ps)) && items[2..] == body;
    KeywordForm(d, "lambda");
  }

  /** `(define (f p ...) b ...)` defines `f` as the expression that
      `(lambda (p ...) b ...)` analyses to (`LambdaForm`). */
  lemma DefineFunction(f: string, ps: seq<string>, body: seq<Datum>)
    requires body != [] && forall i :: 0 <= i < |body| ==> Analyze(body[i]).Ok?
    ensures AnalyzeAll(body).Ok?
    ensures Analyze(List([Sym("define"), List([Sym(f)] + SymList(ps))] + body)) ==
            Ok(Define(f, Lambda(ps, AnalyzeAll(body).value)))
  {
    AnalyzeAllOk(body);
    var header := [Sym(f)] + SymList(ps);
    var items := [Sym("define"), List(header)] + body;
    var d := List(items);
    assert items[0] == Sym("define") && items[1] == List(header) && items[2..] == body;
    KeywordForm(d, "define");
    DefineProcedureShape(d, f, ps);
  }

  lemma DefineProcedureShape(d: Datum, f: string, ps: seq<string>)
    requires d.List? && |d.items| >= 3 && d.items[1] == List([Sym(f)] + SymList(ps))
    requires AnalyzeAll(d.items[2..]).Ok?
    ensures AnalyzeDefine(d) == Ok(Define(f, Lambda(ps, AnalyzeAll(d.items[2..]).value)))
  {
    ParamsOfSymbols(ps);
    var header := [Sym(f)] + SymList(ps);
    assert header[0] == Sym(f) && header[1..] == SymList(ps);
    AnalyzeAllLength(d.items[2..]);
  }

  lemma {:induction false} ParamsOfSymbols(ps: seq<string>)
    ensures Params(SymList(ps)) == Ok(ps)
  {
    if ps != [] {
      ParamsOfSymbols(ps[1..]);
      assert SymList(ps)[1..] == SymList(ps[1..]);
      assert [ps[0]] + ps[1..] == ps;
    }
  }

  /** The shape rules of the special forms: each malformed shape is a
      syntax error whose frame is the whole form. */
  lemma ShapeErrors(kw: string, items: seq<Datum>)
    requires items != [] && items[0] == Sym(kw) && IsKeyword(kw)
    ensures kw == "if" && |items| != 3 && |items| != 4 ==> Analyze(List(items)) == Fail(List(items))
    ensures kw == "begin" && |items| < 2 ==> Analyze(List(items)) == Fail(List(items))
    ensures kw == "cond" && |items| < 2 ==> Analyze(List(items)) == Fail(List(items))
    ensures kw == "lambda" && (|items| < 3 || !items[1].List?) ==> Analyze(List(items)) == Fail(List(items))
    ensures kw == "define" && |items| >= 2 && items[1].Sym? && |items| != 3 ==> Analyze(List(items)) == Fail(List(items))
    ensures kw == "set!" && (|items| != 3 || !items[1].Sym?) ==> Analyze(List(items)) == Fail(List(items))
    ensures kw == "quote" && |items| != 2 ==> Analyze(List(items)) == Fail(List(items))
  {
    var d := List(items);
    assert Analyze(d) == Special(kw, d);
    if kw == "if" { assert Special(kw, d) == AnalyzeIf(d); }
    else if kw == "begin" { assert Special(kw, d) == AnalyzeBegin(d); }
    else if kw == "cond" { assert Special(kw, d) == AnalyzeCond(d); }
    else if kw == "lambda" { assert Special(kw, d) == AnalyzeLambda(d); }
    else if kw == "define" { assert Special(kw, d) == AnalyzeDefine(d); }
    else if kw == "set!" { assert Special(kw, d) == AnalyzeSet(d); }
    else { assert Special(kw, d) == AnalyzeQuoteForm(d); }
  }

  /** A parameter list is refused exactly when one of its items is not a
      symbol. */
  lemma {:induction false} ParamsFailIff(ds: seq<Datum>)
    ensures Params(ds).Fail? <==> exists k :: 0 <= k < |ds| && !ds[k].Sym?
  {
    if ds != [] {
      ParamsFailIff(ds[1..]);
      if exists k :: 0 <= k < |ds| && !ds[k].Sym? {
        var k :| 0 <= k < |ds| && !ds[k].Sym?;
        if k > 0 { assert !ds[1..][k - 1].Sym?; }
      }
      if exists k :: 0 <= k < |ds[1..]| && !ds[1..][k].Sym? {
        var k :| 0 <= k < |ds[1..]| && !ds[1..][k].Sym?;
        assert !ds[k + 1].Sym?;
      }
    }
  }

  /** The malformed shapes of `define`: a short form or a name that is
      neither a symbol nor a non-empty list crashes (Python raises an
      `IndexError` or a `TypeError`, which is no Lisp error); a function form whose name or a parameter is not a symbol, or
      whose body is empty, is a syntax error at the whole form. */
  lemma DefineShapeErrors(items: seq<Datum>)
    requires items != [] && items[0] == Sym("define")
    ensures |items| < 2 ==> Analyze(List(items)) == Crash
    ensures |items| >= 2 && !items[1].Sym? && (!items[1].List? || items[1].items == []) ==>
              Analyze(List(items)) == Crash
    ensures |items| >= 2 && items[1].List? && items[1].items != [] && !items[1].items[0].Sym? ==>
              Analyze(List(items)) == Fail(List(items))
    ensures |items| >= 2 && items[1].List? && items[1].items != [] && items[1].items[0].Sym? &&
            (exists k :: 1 <= k < |items[1].items| && !items[1].items[k].Sym?) ==>
              Analyze(List(items)) == Fail(List(items))
    ensures |items| == 2 && items[1].List? && items[1].items != [] &&
            (forall k :: 0 <= k < |items[1].items| ==> items[1].items[k].Sym?) ==>
              Analyze(List(items)) == Fail(List(items))
  {
    var d := List(items);
    assert Analyze(d) == Special("define", d) == AnalyzeDefine(d);
    if |items| >= 2 && items[1].List? && items[1].items != [] {
      var ps := items[1].items[1..];
      ParamsFailIff(ps);
      if exists k :: 1 <= k < |items[1].items| && !items[1].items[k].Sym? {
        var k :| 1 <= k < |items[1].items| && !items[1].items[k].Sym?;
        assert !ps[k - 1].Sym?;
      }
      if forall k :: 0 <= k < |items[1].items| ==> items[1].items[k].Sym? {
        assert forall k :: 0 <= k < |ps| ==> ps[k] == items[1].items[k + 1];
      }
      if |items| == 2 {
        assert items[2..] == [];
        assert AnalyzeAll(items[2..]) == Ok([]);
        assert !Params(ps).Crash?;
      }
    }
  }

  /** A `cond` clause that is not a two-item list, and a `lambda` parameter
      that is not a symbol, are errors at that clause or parameter. */
  lemma ItemErrors(kw: string, items: seq<Datum>, k: nat)
    requires |items| >= 2 && items[0] == Sym(kw)
    ensures kw == "cond" && k + 1 < |items| && !(items[k + 1].List? && |items[k + 1].items| == 2)
            && (forall i :: 1 <= i < k + 1 ==> Clauses([items[i]]).Ok?)
            ==> Analyze(List(items)) == Fail(items[k + 1])
    ensures kw == "lambda" && |items| >= 3 && items[1].List? && k < |items[1].items| && !items[1].items[k].Sym?
            && (forall i :: 0 <= i < k ==> items[1].items[i].Sym?)
            ==> Analyze(List(items)) == Fail(items[1].items[k])
  {
    if kw == "cond" && k + 1 < |items| && !(items[k + 1].List? && |items[k + 1].items| == 2)
       && (forall i :: 1 <= i < k + 1 ==> Clauses([items[i]]).Ok?) {
      ClausesFirstBad(items[1..], k);
      assert IsKeyword(kw);
      assert Analyze(List(items)) == Special(kw, List(items)) == AnalyzeCond(List(items));
    }
    if kw == "lambda" && |items| >= 3 && items[1].List? && k < |items[1].items| && !items[1].items[k].Sym?
       && (forall i :: 0 <= i < k ==> items[1].items[i].Sym?) {
      ParamsFirstBad(items[1].items, k);
      assert IsKeyword(kw);
      assert Analyze(List(items)) == Special(kw, List(items)) == AnalyzeLambda(List(items));
    }
  }

  lemma {:induction false} ClausesFirstBad(ds: seq<Datum>, k: nat)
    requires k < |ds| && !(ds[k].List? && |ds[k].items| == 2)
    requires forall i :: 0 <= i < k ==> Clauses([ds[i]]).Ok?
    ensures Clauses(ds) == Fail(ds[k])
  {
    if k > 0 {
      assert Clauses([ds[0]]).Ok?;
      assert [ds[0]][1..] == [];
      forall i | 0 <= i < k - 1 ensures Clauses([ds[1..][i]]).Ok? {
        assert ds[1..][i] == ds[i + 1];
      }
      ClausesFirstBad(ds[1..], k - 1);
    }
  }

  lemma {:induction false} ParamsFirstBad(ds: seq<Datum>, k: nat)
    requires k < |ds| && !ds[k].Sym?
    requires forall i :: 0 <= i < k ==> ds[i].Sym?
    ensures Params(ds) == Fail(ds[k])
  {
    if k > 0 {
      ParamsFirstBad(ds[1..], k - 1);
    }
  }
}
