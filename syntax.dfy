/** The two tree shapes of the interpreter: the data the reader builds
    (`Datum`: numbers, booleans, symbols and parenthesised lists) and the
    analysed expressions that the evaluator walks (`Exp`). */
module Syntax {
  import opened Wrappers

  /** A form as read: an integer, a floating-point literal (kept as its
      text), `#t`/`#f`, a symbol, or a list of forms. */
  datatype Datum =
    | Int(i: int)
    | Flt(text: string)
    | Bool(b: bool)
    | Sym(name: string)
    | List(items: seq<Datum>)

  /** An analysed expression. Atoms are kept as they were read; a list that
      is not a special form becomes an application of its analysed items;
      `quote` keeps its payload as data. */
  datatype Exp =
    | Atom(d: Datum)
    | App(items: seq<Exp>)
    | If(test: Exp, conseq: Exp, alt: Option<Exp>)
    | Begin(body: seq<Exp>)
    | Cond(clauses: seq<Clause>)
    | Lambda(params: seq<string>, body: seq<Exp>)
    | Define(name: string, value: Exp)
    | SetBang(name: string, value: Exp)
    | Quote(datum: Datum)

  datatype Clause = Clause(test: Exp, expr: Exp)

  /** The keywords of the special forms. */
  predicate IsKeyword(name: string) {
    name in {"if", "begin", "cond", "lambda", "define", "set!", "quote"}
  }
}
