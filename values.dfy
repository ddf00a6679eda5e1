/** Run-time values, Python truthiness, printing (`str`), Python equality,
    and the interpreter's errors with their call frames. */
module Values {
  import opened Wrappers
  import opened Syntax
  import Reader

  /** The builtin operators of the standard environment. `Div` (`/`) and
      `IsEq` (`eq?`) are kept so that their names, arities and type checks
      exist, but their results are not modelled. */
  datatype OpName =
    | Add | Sub | Mul | Div | Quotient
    | Gt | Lt | Ge | Le | NumEq
    | Abs | Append | Car | Cdr | IsEq | Equal | Length | ListOp
    | IsList | Max | Min | Not | IsEmpty | IsNumber | IsProcedure | IsSymbol | Cons

  /** A value: an integer, a boolean, a symbol, `None`, a list, a procedure
      (parameters, body, the frame it was defined in, and a serial number
      that stands for the object's identity) or a builtin operator. */
  datatype Value =
    | VInt(i: int)
    | VBool(b: bool)
    | VSym(name: string)
    | VNone
    | VList(items: seq<Value>)
    | VProc(params: seq<string>, body: seq<Exp>, env: nat, serial: nat)
    | VOp(op: OpName)

  /** The values that pass `isinstance(x, (float, int))`: booleans are
      integers in Python. */
  predicate IsNum(v: Value) { v.VInt? || v.VBool? }

  function Num(v: Value): int
    requires IsNum(v)
  {
    if v.VInt? then v.i else if v.b then 1 else 0
  }

  /** Python truthiness: non-zero numbers, `True`, non-empty symbols and
      lists, procedures and operators. */
  predicate Truthy(v: Value) {
    match v
    case VInt(i) => i != 0
    case VBool(b) => b
    case VSym(n) => |n| > 0
    case VNone => false
    case VList(items) => |items| > 0
    case _ => true
  }

  /** Python's `==` on values: numbers by value (`True == 1`), symbols by
      name, lists element-wise, procedures and operators by identity. */
  predicate PyEq(a: Value, b: Value)
    decreases a
  {
    if IsNum(a) && IsNum(b) then Num(a) == Num(b)
    else
      match (a, b)
      case (VSym(x), VSym(y)) => x == y
      case (VNone, VNone) => true
      case (VList(xs), VList(ys)) => |xs| == |ys| && forall i :: 0 <= i < |xs| ==> PyEq(xs[i], ys[i])
      case (VProc(_, _, _, s), VProc(_, _, _, t)) => s == t
      case (VOp(x), VOp(y)) => x == y
      case _ => false
  }

  lemma {:induction false} PyEqReflexive(a: Value)
    ensures PyEq(a, a)
    decreases a
  {
    if a.VList? {
      forall i | 0 <= i < |a.items| ensures PyEq(a.items[i], a.items[i]) {
        PyEqReflexive(a.items[i]);
      }
    }
  }

  lemma {:induction false} PyEqSymmetric(a: Value, b: Value)
    requires PyEq(a, b)
    ensures PyEq(b, a)
    decreases a
  {
    if a.VList? && b.VList? {
      forall i | 0 <= i < |b.items| ensures PyEq(b.items[i], a.items[i]) {
        PyEqSymmetric(a.items[i], b.items[i]);
      }
    }
  }

  /** The Python function name an operator prints with (`__name__`). */
  function FuncName(op: OpName): string {
    match op
    case Add => "add" case Sub => "sub" case Mul => "mul" case Div => "truediv"
    case Quotient => "floordiv" case Gt => "gt" case Lt => "lt" case Ge => "ge"
    case Le => "le" case NumEq => "eq" case Abs => "abs" case Append => "add"
    case IsEq => "is_" case Equal => "eq" case Length => "len" case ListOp => "Compound"
    case Max => "max" case Min => "min" case IsProcedure => "callable"
    case Car => "<lambda>" case Cdr => "<lambda>" case IsList => "<lambda>"
    case Not => "<lambda>" case IsEmpty => "<lambda>" case IsNumber => "<lambda>"
    case IsSymbol => "<lambda>" case Cons => "<lambda>"
  }

  /** `str` of a value. */
  function Show(v: Value): string
    decreases v
  {
    match v
    case VInt(i) => Reader.IntText(i)
    case VBool(b) => if b then "True" else "False"
    case VSym(n) => n
    case VNone => "None"
    case VList(items) => "(" + ShowItems(items) + ")"
    case VProc(_, _, _, _) => "<procedure>"
    case VOp(op) => "<operator:" + FuncName(op) + ">"
  }

  /** The items' texts separated by single spaces. */
  function ShowItems(items: seq<Value>): string
    decreases items
  {
    if items == [] then []
    else if |items| == 1 then Show(items[0])
    else Show(items[0]) + " " + ShowItems(items[1..])
  }

  /** The value a quoted form denotes. Floating-point data is not modelled. */
  function DatumValue(d: Datum): (r: Option<Value>)
    decreases d
  {
    match d
    case Int(i) => Some(VInt(i))
    case Flt(_) => None
    case Bool(b) => Some(VBool(b))
    case Sym(n) => Some(VSym(n))
    case List(items) =>
      match DatumValues(items)
      case Some(vs) => Some(VList(vs))
      case None => None
  }

  function DatumValues(ds: seq<Datum>): (r: Option<seq<Value>>)
    ensures r.Some? ==> |r.value| == |ds|
    decreases ds
  {
    if ds == [] then Some([])
    else
      match (DatumValue(ds[0]), DatumValues(ds[1..]))
      case (Some(v), Some(vs)) => Some([v] + vs)
      case _ => None
  }

  // ---------------------------------------------------------------------
  // Errors

  /** The error classes: `LispSyntaxError`, `LispTypeError`,
      `LispNameError`, and a plain `LispError` that wraps any other
      exception raised inside an operator or procedure call. */
  datatype ErrKind = SyntaxError | TypeError | NameError | Generic

  /** A frame of an error's trace: the form (as read) or the expression it
      concerns, or `Blank` for the operators' own checks, which name no
      expression. */
  datatype Site = AtDatum(d: Datum) | AtExp(e: Exp) | Blank

  /** An error and its frames, outermost call first, the original site
      last. */
  datatype LispError = LispError(kind: ErrKind, sites: seq<Site>)

  /** Raising an error at one site. */
  function Raised(kind: ErrKind, site: Site): LispError {
    LispError(kind, [site])
  }

  /** `LispError.__call__`: a call frame is put in front. */
  function Traced(e: LispError, site: Site): LispError {
    e.(sites := [site] + e.sites)
  }

  /** What evaluating an expression gives. `Unsupported` marks floating
      point and object identity, which are not modelled; `OutOfFuel` stands
      for evaluation that does not finish within the given budget. */
  datatype Outcome = Val(v: Value) | Err(err: LispError) | Unsupported | OutOfFuel
}
