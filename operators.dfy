/** The builtin operators of the standard environment: their arity and
    type checks (`Operator.check` over a type stream that persists between
    calls) and their four ways of combining arguments (the sequential,
    comparative, list and one-argument mixins). */
module Operators {
  import opened Wrappers
  import opened Values

  /** How an operator combines its arguments. */
  datatype Mixin = Sequential | Comparative | ListMixin | One

  /** The type stream an operator's arguments are checked against:
      `all_float`, `one_list`, `one_list_end` and `all_object`. */
  datatype Stream = AllFloat | OneList | OneListEnd | AllObject

  /** The classes a stream asks for: `(float, int)`, `Compound`, `object`. */
  datatype Kind = Numeric | ListKind | Anything

  function MixinOf(op: OpName): Mixin {
    match op
    case Add => Sequential case Sub => Sequential case Mul => Sequential
    case Div => Sequential case Quotient => Sequential case Append => Sequential
    case Cons => Sequential
    case Gt => Comparative case Lt => Comparative case Ge => Comparative
    case Le => Comparative case NumEq => Comparative case IsEq => Comparative
    case Equal => Comparative case IsList => Comparative case IsNumber => Comparative
    case IsProcedure => Comparative case IsSymbol => Comparative
    case ListOp => ListMixin case Max => ListMixin case Min => ListMixin
    case Abs => One case Car => One case Cdr => One case Length => One
    case Not => One case IsEmpty => One
  }

  function StreamOf(op: OpName): Stream {
    match op
    case Add => AllFloat case Sub => AllFloat case Mul => AllFloat case Div => AllFloat
    case Quotient => AllFloat case Gt => AllFloat case Lt => AllFloat case Ge => AllFloat
    case Le => AllFloat case NumEq => AllFloat case Abs => AllFloat case Max => AllFloat
    case Min => AllFloat
    case Append => OneList case Car => OneList case Cdr => OneList case Length => OneList
    case IsEmpty => OneList
    case Cons => OneListEnd
    case IsEq => AllObject case Equal => AllObject case ListOp => AllObject case IsList => AllObject
    case Not => AllObject case IsNumber => AllObject case IsProcedure => AllObject
    case IsSymbol => AllObject
  }

  /** The least number of arguments. */
  function MinArgs(op: OpName): nat {
    match op
    case ListOp => 0
    case Abs => 1 case Car => 1 case Cdr => 1 case Length => 1 case IsList => 1
    case Max => 1 case Min => 1 case Not => 1 case IsEmpty => 1 case IsNumber => 1
    case IsProcedure => 1 case IsSymbol => 1
    case _ => 2
  }

  /** The largest number of arguments, if any. */
  function MaxArgs(op: OpName): Option<nat> {
    match op
    case Abs => Some(1) case Car => Some(1) case Cdr => Some(1) case Length => Some(1)
    case Not => Some(1) case IsEmpty => Some(1)
    case Cons => Some(2)
    case _ => None
  }

  /** The name an operator is bound to in the global environment. */
  function Key(op: OpName): string {
    match op
    case Add => "+" case Sub => "-" case Mul => "*" case Div => "/" case Quotient => "quotient"
    case Gt => ">" case Lt => "<" case Ge => ">=" case Le => "<=" case NumEq => "="
    case Abs => "abs" case Append => "append" case Car => "car" case Cdr => "cdr"
    case IsEq => "eq?" case Equal => "equal?" case Length => "length" case ListOp => "list"
    case IsList => "list?" case Max => "max" case Min => "min" case Not => "not"
    case IsEmpty => "empty?" case IsNumber => "number?" case IsProcedure => "procedure?"
    case IsSymbol => "symbol?" case Cons => "cons"
  }

  /** `standard_env`: every operator under its name. */
  function StandardTable(): map<string, Value> {
    map[
      "+" := VOp(Add), "-" := VOp(Sub), "*" := VOp(Mul), "/" := VOp(Div),
      "quotient" := VOp(Quotient), ">" := VOp(Gt), "<" := VOp(Lt), ">=" := VOp(Ge),
      "<=" := VOp(Le), "=" := VOp(NumEq), "abs" := VOp(Abs), "append" := VOp(Append),
      "car" := VOp(Car), "cdr" := VOp(Cdr), "eq?" := VOp(IsEq), "equal?" := VOp(Equal),
      "length" := VOp(Length), "list" := VOp(ListOp), "list?" := VOp(IsList),
      "max" := VOp(Max), "min" := VOp(Min), "not" := VOp(Not), "empty?" := VOp(IsEmpty),
      "number?" := VOp(IsNumber), "procedure?" := VOp(IsProcedure),
      "symbol?" := VOp(IsSymbol), "cons" := VOp(Cons)
    ]
  }

  /** Each operator is found under its own name. The operators are taken
      in groups of three, each looked up in a lemma of its own. */
  lemma StandardTableBindsKeys(op: OpName)
    ensures Key(op) in StandardTable() && StandardTable()[Key(op)] == VOp(op)
  {
    if op.Add? || op.Sub? || op.Mul? {
      BindsGroup1(op);
    } else if op.Div? || op.Quotient? || op.Gt? {
      BindsGroup2(op);
    } else if op.Lt? || op.Ge? || op.Le? {
      BindsGroup3(op);
    } else if op.NumEq? || op.Abs? || op.Append? {
      BindsGroup4(op);
    } else if op.Car? || op.Cdr? || op.IsEq? {
      BindsGroup5(op);
    } else if op.Equal? || op.Length? || op.ListOp? {
      BindsGroup6(op);
    } else if op.IsList? || op.Max? || op.Min? {
      BindsGroup7(op);
    } else if op.Not? || op.IsEmpty? || op.IsNumber? {
      BindsGroup8(op);
    } else {
      BindsGroup9(op);
    }
  }

  lemma BindsGroup1(op: OpName)
    requires op.Add? || op.Sub? || op.Mul?
    ensures Key(op) in StandardTable() && StandardTable()[Key(op)] == VOp(op)
  {
  }

  lemma BindsGroup2(op: OpName)
    requires op.Div? || op.Quotient? || op.Gt?
    ensures Key(op) in StandardTable() && StandardTable()[Key(op)] == VOp(op)
  {
  }

  lemma BindsGroup3(op: OpName)
    requires op.Lt? || op.Ge? || op.Le?
    ensures Key(op) in StandardTable() && StandardTable()[Key(op)] == VOp(op)
  {
  }

  lemma BindsGroup4(op: OpName)
    requires op.NumEq? || op.Abs? || op.Append?
    ensures Key(op) in StandardTable() && StandardTable()[Key(op)] == VOp(op)
  {
  }

  lemma BindsGroup5(op: OpName)
    requires op.Car? || op.Cdr? || op.IsEq?
    ensures Key(op) in StandardTable() && StandardTable()[Key(op)] == VOp(op)
  {
  }

  lemma BindsGroup6(op: OpName)
    requires op.Equal? || op.Length? || op.ListOp?
    ensures Key(op) in StandardTable() && StandardTable()[Key(op)] == VOp(op)
  {
  }

  lemma BindsGroup7(op: OpName)
    requires op.IsList? || op.Max? || op.Min?
    ensures Key(op) in StandardTable() && StandardTable()[Key(op)] == VOp(op)
  {
  }

  lemma BindsGroup8(op: OpName)
    requires op.Not? || op.IsEmpty? || op.IsNumber?
    ensures Key(op) in StandardTable() && StandardTable()[Key(op)] == VOp(op)
  {
  }

  lemma BindsGroup9(op: OpName)
    requires op.IsProcedure? || op.IsSymbol? || op.Cons?
    ensures Key(op) in StandardTable() && StandardTable()[Key(op)] == VOp(op)
  {
  }

  // ---------------------------------------------------------------------
  // Checking

  /** What a stream yields at position `pos`; `None` once it is exhausted. */
  function Expected(s: Stream, pos: nat): Option<Kind> {
    match s
    case AllFloat => Some(Numeric)
    case AllObject => Some(Anything)
    case OneList => if pos == 0 then Some(ListKind) else Some(Anything)
    case OneListEnd => if pos == 0 then Some(Anything) else if pos == 1 then Some(ListKind) else None
  }

  predicate Fits(v: Value, k: Kind) {
    match k
    case Numeric => IsNum(v)
    case ListKind => v.VList?
    case Anything => true
  }

  /** `any(not isinstance(arg, t) for arg, t in zip(args, stream))`: whether
      every pair fits, and the stream position afterwards. `zip` draws an
      argument before a type, so the stream does not move once the arguments
      run out; `any` stops after the first misfit. */
  function CheckTypes(s: Stream, args: seq<Value>, pos: nat): (r: (bool, nat))
    ensures pos <= r.1 <= pos + |args|
    decreases |args|
  {
    if args == [] then (true, pos)
    else
      match Expected(s, pos)
      case None => (true, pos)
      case Some(k) => if !Fits(args[0], k) then (false, pos + 1) else CheckTypes(s, args[1..], pos + 1)
  }

  datatype Checked = Passed(pos: nat) | Rejected(pos: nat)

  /** `Operator.check`: too few arguments, then too many, then the types;
      each failure is a `LispTypeError`. */
  function Check(op: OpName, args: seq<Value>, pos: nat): Checked {
    if |args| < MinArgs(op) then Rejected(pos)
    else if MaxArgs(op).Some? && |args| > MaxArgs(op).value then Rejected(pos)
    else
      var (ok, p) := CheckTypes(StreamOf(op), args, pos);
      if ok then Passed(p) else Rejected(p)
  }

  predicate ArityOk(op: OpName, n: nat) {
    MinArgs(op) <= n && (MaxArgs(op).None? || n <= MaxArgs(op).value)
  }

  // ---------------------------------------------------------------------
  // Operating

  /** The result of `operate`: a value, a Python exception (which the
      application turns into a plain `LispError`), or a result that is not
      modelled (floating point or identity). */
  datatype Res = Ok(v: Value) | Fail | Unsup

  /** `a + b` in Python on these values: numbers add (booleans count as 0
      and 1), lists concatenate, and everything else raises (a list plus a
      symbol too: iterating the symbol rebuilds each character as a symbol
      from a plain string, which has no token). */
  function PyAdd(a: Value, b: Value): Res {
    if IsNum(a) && IsNum(b) then Ok(VInt(Num(a) + Num(b)))
    else if a.VList? && b.VList? then Ok(VList(a.items + b.items))
    else Fail
  }

  /** Python's `//` on integers: rounds towards negative infinity. */
  function FloorDiv(a: int, b: int): int
    requires b != 0
  {
    if b > 0 then a / b else (-a) / (-b)
  }

  /** One step of a sequential operator. */
  function Binary(op: OpName, a: Value, b: Value): Res {
    match op
    case Add => PyAdd(a, b)
    case Append => PyAdd(a, b)
    case Sub => if IsNum(a) && IsNum(b) then Ok(VInt(Num(a) - Num(b))) else Unsup
    case Mul => if IsNum(a) && IsNum(b) then Ok(VInt(Num(a) * Num(b))) else Unsup
    case Div => if IsNum(a) && IsNum(b) && Num(b) == 0 then Fail else Unsup
    case Quotient =>
      if IsNum(a) && IsNum(b) then (if Num(b) == 0 then Fail else Ok(VInt(FloorDiv(Num(a), Num(b)))))
      else Unsup
    case Cons => if b.VList? then Ok(VList([a] + b.items)) else Fail
    case _ => Unsup
  }

  /** The sequential mixin after its first `k` arguments. */
  function FoldPrefix(op: OpName, args: seq<Value>, k: nat): Res
    requires 1 <= k <= |args|
  {
    if k == 1 then Ok(args[0])
    else
      match FoldPrefix(op, args, k - 1)
      case Ok(acc) => Binary(op, acc, args[k - 1])
      case r => r
  }

  /** The sequential mixin: a left fold from the first argument. */
  function Fold(op: OpName, args: seq<Value>): Res {
    if args == [] then Fail else FoldPrefix(op, args, |args|)
  }

  /** `Sequential_Mixin.operate`: the accumulator loop; a failing step ends
      the call. */
  method SequentialOperate(op: OpName, args: seq<Value>) returns (r: Res)
    ensures r == Fold(op, args)
  {
    if args == [] {
      return Fail;
    }
    var result := args[0];
    var i := 1;
    while i < |args|
      invariant 1 <= i <= |args|
      invariant FoldPrefix(op, args, i) == Ok(result)
    {
      var step := Binary(op, result, args[i]);
      if !step.Ok? {
        FoldStops(op, args, i + 1);
        return step;
      }
      result := step.v;
      i := i + 1;
    }
    return Ok(result);
  }

  /** Once a step fails, the rest of the fold keeps that failure. */
  lemma {:induction false} FoldStops(op: OpName, args: seq<Value>, k: nat)
    requires 2 <= k <= |args| && FoldPrefix(op, args, k - 1).Ok?
    requires !Binary(op, FoldPrefix(op, args, k - 1).v, args[k - 1]).Ok?
    ensures FoldPrefix(op, args, |args|) == Binary(op, FoldPrefix(op, args, k - 1).v, args[k - 1])
    decreases |args| - k
  {
    if k < |args| {
      FoldStopsFrom(op, args, k, |args|);
    }
  }

  lemma {:induction false} FoldStopsFrom(op: OpName, args: seq<Value>, k: nat, m: nat)
    requires 1 <= k <= m <= |args| && !FoldPrefix(op, args, k).Ok?
    ensures FoldPrefix(op, args, m) == FoldPrefix(op, args, k)
    decreases m
  {
    if m > k {
      FoldStopsFrom(op, args, k, m - 1);
    }
  }

  /** One comparison of a comparative operator; the one-argument predicates
      raise when called with two. */
  function Compare(op: OpName, a: Value, b: Value): Res {
    match op
    case Gt => if IsNum(a) && IsNum(b) then Ok(VBool(Num(a) > Num(b))) else Unsup
    case Lt => if IsNum(a) && IsNum(b) then Ok(VBool(Num(a) < Num(b))) else Unsup
    case Ge => if IsNum(a) && IsNum(b) then Ok(VBool(Num(a) >= Num(b))) else Unsup
    case Le => if IsNum(a) && IsNum(b) then Ok(VBool(Num(a) <= Num(b))) else Unsup
    case NumEq => if IsNum(a) && IsNum(b) then Ok(VBool(Num(a) == Num(b))) else Unsup
    case Equal => Ok(VBool(PyEq(a, b)))
    case IsEq => Unsup
    case IsList => Fail
    case IsNumber => Fail
    case IsProcedure => Fail
    case IsSymbol => Fail
    case _ => Unsup
  }

  /** `all(op(first, a) for a in rest)`, stopping at the first false. */
  function CompareAll(op: OpName, first: Value, rest: seq<Value>): Res
    decreases |rest|
  {
    if rest == [] then Ok(VBool(true))
    else
      match Compare(op, first, rest[0])
      case Ok(v) => if Truthy(v) then CompareAll(op, first, rest[1..]) else Ok(VBool(false))
      case r => r
  }

  /** A one-argument operator on its argument. */
  function Unary(op: OpName, x: Value): Res {
    match op
    case Abs => if IsNum(x) then Ok(VInt(if Num(x) < 0 then -Num(x) else Num(x))) else Unsup
    case Car => if x.VList? && |x.items| > 0 then Ok(x.items[0]) else Fail
    case Cdr => if x.VList? then Ok(VList(if x.items == [] then [] else x.items[1..])) else Fail
    case Length => if x.VList? then Ok(VInt(|x.items|)) else if x.VSym? then Ok(VInt(|x.name|)) else Fail
    case Not => Ok(VBool(true))
    case IsEmpty => Ok(VBool(x.VList? && x.items == []))
    case _ => Unsup
  }

  /** `max` keeps the first of equal largest numbers. */
  function MaxPrefix(args: seq<Value>, k: nat): (m: Value)
    requires 1 <= k <= |args| && AllNum(args)
    ensures IsNum(m)
  {
    if k == 1 then args[0]
    else
      var m := MaxPrefix(args, k - 1);
      if Num(args[k - 1]) > Num(m) then args[k - 1] else m
  }

  /** `min` keeps the first of equal smallest numbers. */
  function MinPrefix(args: seq<Value>, k: nat): (m: Value)
    requires 1 <= k <= |args| && AllNum(args)
    ensures IsNum(m)
  {
    if k == 1 then args[0]
    else
      var m := MinPrefix(args, k - 1);
      if Num(args[k - 1]) < Num(m) then args[k - 1] else m
  }

  predicate AllNum(args: seq<Value>) { forall i :: 0 <= i < |args| ==> IsNum(args[i]) }

  /** `operate`, by the operator's mixin. */
  function Operate(op: OpName, args: seq<Value>): Res {
    match MixinOf(op)
    case Sequential => Fold(op, args)
    case Comparative => if args == [] then Fail else CompareAll(op, args[0], args[1..])
    case One => if |args| != 1 then Fail else Unary(op, args[0])
    case ListMixin =>
      if op == ListOp then Ok(VList(args))
      else if args == [] then Fail
      else if !AllNum(args) then Unsup
      else if op == Max then Ok(MaxPrefix(args, |args|))
      else Ok(MinPrefix(args, |args|))
  }

  /** What calling an operator gives. */
  datatype Applied = Returned(v: Value) | TypeRejected | Raises | NotModelled

  /** `Operator.__call__`: the check, then `operate`. The second component
      is the new position of the operator's type stream. */
  function Invoke(op: OpName, args: seq<Value>, pos: nat): (Applied, nat) {
    match Check(op, args, pos)
    case Rejected(p) => (TypeRejected, p)
    case Passed(p) =>
      match Operate(op, args)
      case Ok(v) => (Returned(v), p)
      case Fail => (Raises, p)
      case Unsup => (NotModelled, p)
  }

  // ---------------------------------------------------------------------
  // Properties

  /** The check comes first: a call that the check rejects never reaches
      `operate`, and an arity failure leaves the type stream where it was. */
  lemma CheckBeforeOperate(op: OpName, args: seq<Value>, pos: nat)
    ensures Invoke(op, args, pos).0 == TypeRejected <==> Check(op, args, pos).Rejected?
    ensures Check(op, args, pos).Passed? ==>
              Invoke(op, args, pos).0 != TypeRejected &&
              (Operate(op, args).Ok? ==> Invoke(op, args, pos).0 == Returned(Operate(op, args).v))
    ensures !ArityOk(op, |args|) ==> Check(op, args, pos) == Rejected(pos)
    ensures ArityOk(op, |args|) ==> Check(op, args, pos).pos == CheckTypes(StreamOf(op), args, pos).1
  {
  }

  /** An infinite stream checks every argument: the call passes exactly
      when every argument fits. */
  lemma {:induction false} ConstantStreamChecksAll(s: Stream, k: Kind, args: seq<Value>, pos: nat)
    requires s == AllFloat || s == AllObject
    requires k == (if s == AllFloat then Numeric else Anything)
    ensures CheckTypes(s, args, pos).0 <==> forall i :: 0 <= i < |args| ==> Fits(args[i], k)
    decreases |args|
  {
    if args != [] {
      ConstantStreamChecksAll(s, k, args[1..], pos + 1);
      if Fits(args[0], k) {
        forall i | 0 <= i < |args| ensures Fits(args[i], k) <== (forall j :: 0 <= j < |args[1..]| ==> Fits(args[1..][j], k)) {
          if i > 0 { assert args[i] == args[1..][i - 1]; }
        }
      }
    }
  }

  /** `+`, `-`, `*`, `quotient`, the comparisons, `abs`, `max` and `min`
      accept only numbers, booleans included; their type check passes
      exactly when every argument is a number. */
  lemma NumericCheck(op: OpName, args: seq<Value>, pos: nat)
    requires StreamOf(op) == AllFloat && ArityOk(op, |args|)
    ensures Check(op, args, pos).Passed? <==> AllNum(args)
  {
    ConstantStreamChecksAll(AllFloat, Numeric, args, pos);
  }

  /** The `one_list` stream checks the list position only while it is at
      its start: the first call rejects a first argument that is not a list,
      it moves the stream on, and from then on no call is rejected for its
      types. */
  lemma OneListFirstCallOnly(op: OpName, args: seq<Value>, pos: nat)
    requires StreamOf(op) == OneList && ArityOk(op, |args|)
    ensures pos == 0 ==> (Check(op, args, 0).Passed? <==> args[0].VList?)
    ensures pos == 0 ==> Check(op, args, 0).pos >= 1
    ensures pos >= 1 ==> Check(op, args, pos).Passed?
  {
    if pos >= 1 {
      ConstantLaterPositions(args, pos);
    } else if args[0].VList? {
      ConstantLaterPositions(args[1..], 1);
    }
  }

  lemma {:induction false} ConstantLaterPositions(args: seq<Value>, pos: nat)
    requires pos >= 1
    ensures CheckTypes(OneList, args, pos).0
    decreases |args|
  {
    if args != [] {
      ConstantLaterPositions(args[1..], pos + 1);
    }
  }

  /** `cons` draws `object` and then `Compound` from a stream that then ends:
      only its first call checks that the second argument is a list, and
      the stream is used up after it. */
  lemma ConsStreamEnds(x: Value, y: Value, pos: nat)
    ensures pos == 0 ==> (Check(Cons, [x, y], 0) == if y.VList? then Passed(2) else Rejected(2))
    ensures pos >= 2 ==> Check(Cons, [x, y], pos) == Passed(pos)
  {
    if pos == 0 {
      assert [x, y][1..] == [y];
      assert [y][1..] == [];
      assert Expected(OneListEnd, 0) == Some(Anything);
      assert CheckTypes(OneListEnd, [x, y], 0) == CheckTypes(OneListEnd, [y], 1);
      assert CheckTypes(OneListEnd, [y], 1) == if y.VList? then (true, 2) else (false, 2);
      assert |[x, y]| == 2 && MinArgs(Cons) == 2 && MaxArgs(Cons) == Some(2);
    }
  }

  /** `quotient` is floor division: the remainder has the divisor's sign
      and is smaller than the divisor in size. */
  lemma FloorDivSpec(a: int, b: int)
    requires b != 0
    ensures var r := a - FloorDiv(a, b) * b;
            (b > 0 ==> 0 <= r < b) && (b < 0 ==> b < r <= 0)
  {
    if b < 0 {
      var q := (-a) / (-b);
      assert (-a) == q * (-b) + (-a) % (-b);
      assert a - q * b == -((-a) % (-b));
    }
  }

  /** The comparative mixin compares every later argument with the first
      one, not each with its neighbour: the result is `True` exactly when
      every comparison with the first argument holds. */
  lemma {:induction false} CompareWithFirst(op: OpName, first: Value, rest: seq<Value>)
    requires op in {Gt, Lt, Ge, Le, NumEq} && IsNum(first) && AllNum(rest)
    ensures CompareAll(op, first, rest) ==
            Ok(VBool(forall i :: 0 <= i < |rest| ==> Compare(op, first, rest[i]) == Ok(VBool(true))))
    decreases |rest|
  {
    if rest != [] {
      CompareWithFirst(op, first, rest[1..]);
      assert forall i :: 0 <= i < |rest[1..]| ==> rest[1..][i] == rest[i + 1];
    }
  }

  /** `(< 1 5 3)` is true: 1 < 5 and 1 < 3. */
  lemma NotChained()
    ensures Operate(Lt, [VInt(1), VInt(5), VInt(3)]) == Ok(VBool(true))
  {
    CompareWithFirst(Lt, VInt(1), [VInt(5), VInt(3)]);
  }

  /** `list?`, `number?`, `procedure?` and `symbol?` are comparative: one
      argument always gives `True`, and two or more raise, because the
      predicate is called with two arguments. */
  lemma PredicatesIgnoreTheirArgument(op: OpName, args: seq<Value>)
    requires op in {IsList, IsNumber, IsProcedure, IsSymbol} && |args| >= 1
    ensures |args| == 1 ==> Operate(op, args) == Ok(VBool(true))
    ensures |args| >= 2 ==> Operate(op, args) == Fail
  {
  }

  /** `not` gives `True` whatever its argument. */
  lemma NotIsAlwaysTrue(x: Value)
    ensures Operate(Not, [x]) == Ok(VBool(true))
  {
  }

  function Sum(args: seq<Value>): int
    requires AllNum(args)
  {
    if args == [] then 0 else Sum(args[..|args| - 1]) + Num(args[|args| - 1])
  }

  /** `+` adds its arguments (booleans as 0 and 1) into an integer. */
  lemma {:induction false} AddSums(args: seq<Value>, k: nat)
    requires AllNum(args) && 2 <= k <= |args|
    ensures FoldPrefix(Add, args, k) == Ok(VInt(Sum(args[..k])))
    decreases k
  {
    assert args[..k][..k - 1] == args[..k - 1];
    assert args[..k][k - 1] == args[k - 1];
    if k > 2 {
      AddSums(args, k - 1);
    } else {
      assert args[..1][..0] == [];
      assert Sum(args[..1]) == Num(args[0]);
    }
  }

  /** `max` gives an argument that no other exceeds, and the first such. */
  lemma MaxIsFirstLargest(args: seq<Value>, k: nat)
    requires 1 <= k <= |args| && AllNum(args)
    ensures exists j :: 0 <= j < k && MaxPrefix(args, k) == args[j] &&
              (forall i :: 0 <= i < k ==> Num(args[i]) <= Num(args[j])) &&
              (forall i :: 0 <= i < j ==> Num(args[i]) < Num(args[j]))
  {
    var j := LargestAt(args, k);
  }

  /** The position of the argument `max` picks among the first `k`. */
  lemma {:induction false} LargestAt(args: seq<Value>, k: nat) returns (j: nat)
    requires 1 <= k <= |args| && AllNum(args)
    ensures j < k && MaxPrefix(args, k) == args[j]
    ensures forall i :: 0 <= i < k ==> Num(args[i]) <= Num(args[j])
    ensures forall i :: 0 <= i < j ==> Num(args[i]) < Num(args[j])
    decreases k
  {
    if k == 1 {
      j := 0;
      assert MaxPrefix(args, 1) == args[0];
    } else {
      j := LargestAt(args, k - 1);
      if Num(args[k - 1]) > Num(args[j]) {
        NewLargest(args, k, j);
        j := k - 1;
      }
    }
  }

  /** An argument larger than the largest before it exceeds all of them. */
  lemma NewLargest(args: seq<Value>, k: nat, j: nat)
    requires 2 <= k <= |args| && AllNum(args) && j < k - 1 && Num(args[k - 1]) > Num(args[j])
    requires forall i :: 0 <= i < k - 1 ==> Num(args[i]) <= Num(args[j])
    ensures forall i :: 0 <= i < k - 1 ==> Num(args[i]) < Num(args[k - 1])
  {
  }

  /** `min` gives an argument that exceeds no other, and the first such. */
  lemma MinIsFirstSmallest(args: seq<Value>, k: nat)
    requires 1 <= k <= |args| && AllNum(args)
    ensures exists j :: 0 <= j < k && MinPrefix(args, k) == args[j] &&
              (forall i :: 0 <= i < k ==> Num(args[j]) <= Num(args[i])) &&
              (forall i :: 0 <= i < j ==> Num(args[j]) < Num(args[i]))
  {
    var j := SmallestAt(args, k);
  }

  /** The position of the argument `min` picks among the first `k`. */
  lemma {:induction false} SmallestAt(args: seq<Value>, k: nat) returns (j: nat)
    requires 1 <= k <= |args| && AllNum(args)
    ensures j < k && MinPrefix(args, k) == args[j]
    ensures forall i :: 0 <= i < k ==> Num(args[j]) <= Num(args[i])
    ensures forall i :: 0 <= i < j ==> Num(args[j]) < Num(args[i])
    decreases k
  {
    if k == 1 {
      j := 0;
      assert MinPrefix(args, 1) == args[0];
    } else {
      j := SmallestAt(args, k - 1);
      if Num(args[k - 1]) < Num(args[j]) {
        NewSmallest(args, k, j);
        j := k - 1;
      }
    }
  }

  /** An argument smaller than the smallest before it undercuts all of them. */
  lemma NewSmallest(args: seq<Value>, k: nat, j: nat)
    requires 2 <= k <= |args| && AllNum(args) && j < k - 1 && Num(args[k - 1]) < Num(args[j])
    requires forall i :: 0 <= i < k - 1 ==> Num(args[j]) <= Num(args[i])
    ensures forall i :: 0 <= i < k - 1 ==> Num(args[k - 1]) < Num(args[i])
  {
  }

  /** `car` and `cdr` take apart what `cons` builds. */
  lemma ConsCarCdr(x: Value, items: seq<Value>)
    ensures Operate(Cons, [x, VList(items)]) == Ok(VList([x] + items))
    ensures Operate(Car, [VList([x] + items)]) == Ok(x)
    ensures Operate(Cdr, [VList([x] + items)]) == Ok(VList(items))
  {
    assert FoldPrefix(Cons, [x, VList(items)], 1) == Ok(x);
    assert ([x] + items)[1..] == items;
  }

  /** `append` of lists is their concatenation. */
  lemma AppendLists(a: seq<Value>, b: seq<Value>)
    ensures Operate(Append, [VList(a), VList(b)]) == Ok(VList(a + b))
  {
    assert FoldPrefix(Append, [VList(a), VList(b)], 1) == Ok(VList(a));
  }

  /** `append` of a list and a symbol raises: iterating the symbol fails. */
  lemma AppendSymbolRaises(a: seq<Value>, name: string)
    ensures Operate(Append, [VList(a), VSym(name)]) == Fail
  {
    assert FoldPrefix(Append, [VList(a), VSym(name)], 1) == Ok(VList(a));
  }
}
