/** The calculator tool's evaluator, over expressions that have already been parsed.

    The model follows the evaluator while everything it computes is an integer. As soon as a float
    appears the outcome is `Float`, about which nothing more is said: the program may go on to a
    float, an integer or an error of either operand. */
module Calculator {
  import opened Prelude

  datatype Literal = Whole(n: int) | Real | NotNumeric

  datatype BinaryOp = Plus | Minus | Times | Divide | FloorDivide | Modulo | Power | OtherBinary(name: string)

  datatype UnaryOp = Negate | Posit | OtherUnary(name: string)

  datatype Callee = Named(name: string) | Computed

  datatype Expr =
    | Constant(literal: Literal)
    | Binary(op: BinaryOp, left: Expr, right: Expr)
    | Unary(uop: UnaryOp, operand: Expr)
    | Call(callee: Callee, args: seq<Expr>, keywords: seq<Expr>)
    | Variable(name: string)
    | OtherNode

  datatype Error =
    | UnsupportedLiteral
    | UnsupportedOperator
    | UnsupportedNode
    | ComputedCallee
    | FunctionNotAllowed
    | VariableNotAllowed
    | ExponentTooLarge
    | BaseTooLarge
    | DivisionByZero
    | WrongArguments

  datatype Outcome<+T> = Done(value: T) | Float | Failed(error: Error)

  /** The two limits on `**`; the program ships with `SHIPPED`. */
  datatype Guard = Guard(maxBase: nat, maxExponent: nat)

  const SHIPPED := Guard(1000, 1000)

  // ---------------------------------------------------------------- arithmetic

  function Abs(x: int): nat { if x < 0 then -x else x }

  function Pow(b: int, n: nat): int {
    if n == 0 then 1 else b * Pow(b, n - 1)
  }

  /** Python's `//`: the quotient rounded towards minus infinity. */
  function Floor(a: int, b: int): int
    requires b != 0
  {
    if b > 0 then a / b else (-a) / (-b)
  }

  /** Python's `%`: what `//` leaves over. */
  function Rem(a: int, b: int): int
    requires b != 0
  {
    a - b * Floor(a, b)
  }

  /** The multiple of `p` nearest to `x`, an even multiple on a tie. */
  function Nearest(x: int, p: int): int
    requires p > 0
  {
    p * NearestQuotient(x, p)
  }

  function NearestQuotient(x: int, p: int): int
    requires p > 0
  {
    var q, r := x / p, x % p;
    if 2 * r < p || (2 * r == p && q % 2 == 0) then q else q + 1
  }

  function Least(vs: seq<int>): (r: int)
    requires vs != []
    ensures r in vs && forall v | v in vs :: r <= v
  {
    if |vs| == 1 then vs[0]
    else
      var rest := Least(vs[1..]);
      assert vs == [vs[0]] + vs[1..];
      if vs[0] <= rest then vs[0] else rest
  }

  function Greatest(vs: seq<int>): (r: int)
    requires vs != []
    ensures r in vs && forall v | v in vs :: v <= r
  {
    if |vs| == 1 then vs[0]
    else
      var rest := Greatest(vs[1..]);
      assert vs == [vs[0]] + vs[1..];
      if vs[0] >= rest then vs[0] else rest
  }

  // ---------------------------------------------------------------- the evaluator

  /** The exponent is looked at before the base, and an exponent of -1, 0 or 1 excuses any base. */
  function Raise(g: Guard, a: int, b: int): Outcome<int> {
    if Abs(b) > g.maxExponent then Failed(ExponentTooLarge)
    else if Abs(a) > g.maxBase && Abs(b) > 1 then Failed(BaseTooLarge)
    else if b >= 0 then Done(Pow(a, b))
    else if a == 0 then Failed(DivisionByZero)
    else Float
  }

  function Apply(g: Guard, op: BinaryOp, a: int, b: int): Outcome<int> {
    match op
    case Plus => Done(a + b)
    case Minus => Done(a - b)
    case Times => Done(a * b)
    case Divide => if b == 0 then Failed(DivisionByZero) else Float
    case FloorDivide => if b == 0 then Failed(DivisionByZero) else Done(Floor(a, b))
    case Modulo => if b == 0 then Failed(DivisionByZero) else Done(Rem(a, b))
    case Power => Raise(g, a, b)
    case OtherBinary(_) => Failed(UnsupportedOperator)
  }

  const SAFE_NAMES: set<string> := {"abs", "round", "int", "float", "min", "max"}

  /** A built-in called on integers, with Python's rules on how many it takes. */
  function Builtin(name: string, vs: seq<int>): Outcome<int>
    requires name in SAFE_NAMES
  {
    if name == "min" || name == "max" then
      if |vs| < 2 then Failed(WrongArguments)
      else Done(if name == "min" then Least(vs) else Greatest(vs))
    else if name == "abs" then
      if |vs| == 1 then Done(Abs(vs[0])) else Failed(WrongArguments)
    else if name == "round" then
      if |vs| == 1 then Done(vs[0])
      else if |vs| == 2 then Done(if vs[1] >= 0 then vs[0] else Nearest(vs[0], Ten(-vs[1])))
      else Failed(WrongArguments)
    else if name == "int" then
      if vs == [] then Done(0) else if |vs| == 1 then Done(vs[0]) else Failed(WrongArguments)
    else if |vs| <= 1 then Float
    else Failed(WrongArguments)
  }

  function Ten(n: nat): (r: int)
    ensures r > 0
  {
    if n == 0 then 1 else 10 * Ten(n - 1)
  }

  function Eval(g: Guard, e: Expr): Outcome<int>
    decreases e
  {
    match e
    case Constant(literal) =>
      (match literal
       case Whole(n) => Done(n)
       case Real => Float
       case NotNumeric => Failed(UnsupportedLiteral))
    case Binary(op, left, right) =>
      if op.OtherBinary? then Failed(UnsupportedOperator)
      else
        var a := Eval(g, left);
        if !a.Done? then a
        else
          var b := Eval(g, right);
          if !b.Done? then b else Apply(g, op, a.value, b.value)
    case Unary(op, operand) =>
      if op.OtherUnary? then Failed(UnsupportedOperator)
      else
        var a := Eval(g, operand);
        if a.Done? && op.Negate? then Done(-a.value) else a
    case Call(callee, args, _) =>
      if callee.Computed? then Failed(ComputedCallee)
      else if callee.name !in SAFE_NAMES then Failed(FunctionNotAllowed)
      else
        (match EvalAll(g, args)
         case Done(vs) => Builtin(callee.name, vs)
         case Float => Float
         case Failed(error) => Failed(error))
    case Variable(_) => Failed(VariableNotAllowed)
    case OtherNode => Failed(UnsupportedNode)
  }

  /** Arguments from left to right; the first error, or float, ends it. */
  function EvalAll(g: Guard, es: seq<Expr>): (r: Outcome<seq<int>>)
    decreases es
  {
    if es == [] then Done([])
    else
      var head := Eval(g, es[0]);
      match head
      case Failed(error) => Failed(error)
      case Float => Float
      case Done(v) =>
        var tail := EvalAll(g, es[1..]);
        if !tail.Done? then tail else Done([v] + tail.value)
  }

  // ---------------------------------------------------------------- what the arithmetic means

  /** `//` and `%` split the dividend the way Python documents: the remainder is smaller than the
      divisor and has its sign. No other pair does. */
  lemma FloorSemantics(a: int, b: int, q: int, r: int)
    requires b != 0
    ensures (q == Floor(a, b) && r == Rem(a, b))
            <==> (a == b * q + r && (if b > 0 then 0 <= r < b else b < r <= 0))
  {
    var f := Floor(a, b);
    assert if b > 0 then 0 <= Rem(a, b) < b else b < Rem(a, b) <= 0;
    if a == b * q + r && (if b > 0 then 0 <= r < b else b < r <= 0) {
      var d := q - f;
      assert b * d == Rem(a, b) - r by { assert b * d == b * q - b * f; }
      MultipleIsLarge(b, d);
    }
  }

  lemma MultipleIsLarge(b: int, d: int)
    ensures d != 0 ==> Abs(b * d) >= Abs(b)
  {
    if d != 0 {
      AbsTimes(b, d);
      AtLeast(Abs(b), Abs(d));
    }
  }

  lemma AbsTimes(a: int, b: int)
    ensures Abs(a * b) == Abs(a) * Abs(b)
  {
    if a >= 0 {
      if b >= 0 { NonNegative(a, b); } else { NonNegative(a, -b); assert a * -b == -(a * b); }
    } else {
      if b >= 0 { NonNegative(-a, b); assert -a * b == -(a * b); }
      else { NonNegative(-a, -b); assert -a * -b == a * b; }
    }
  }

  lemma NonNegative(a: nat, b: nat)
    ensures a * b >= 0
  {}

  lemma AtLeast(a: nat, b: nat)
    requires b >= 1
    ensures a * b >= a
  {
    NonNegative(a, b - 1);
    assert a * b == a * (b - 1) + a;
  }

  /** `//` never grows a number and `%` stays below the divisor. */
  lemma QuotientsShrink(a: int, b: int)
    requires b != 0
    ensures Abs(Floor(a, b)) <= Abs(a) && Abs(Rem(a, b)) < Abs(b)
  {
    FloorSemantics(a, b, Floor(a, b), Rem(a, b));
    if b > 0 { DivisionShrinks(a, b); } else { DivisionShrinks(-a, -b); }
  }

  lemma DivisionShrinks(a: int, b: int)
    requires b > 0
    ensures Abs(a / b) <= Abs(a)
  {
    var q := a / b;
    assert b * q <= a < b * q + b;
    if q >= 1 {
      AtLeast(q, b);
    } else if q <= -1 {
      AtLeast(-q - 1, b);
      assert b * q + b == -((-q - 1) * b);
    }
  }

  /** Rounding to a multiple moves by at most half of it and takes the even multiple on a tie. */
  lemma NearestIsNearest(x: int, p: int)
    requires p > 0
    ensures var y := Nearest(x, p);
            && y % p == 0
            && 2 * Abs(y - x) <= p
            && (2 * Abs(y - x) == p ==> (y / p) % 2 == 0)
  {
    var q := x / p;
    MultipleOf(NearestQuotient(x, p), p);
    assert p * (q + 1) == p * q + p;
  }

  lemma MultipleOf(k: int, p: int)
    requires p > 0
    ensures (p * k) % p == 0 && (p * k) / p == k
  {
    FloorSemantics(p * k, p, k, 0);
  }

  /** So rounding at most doubles a number. */
  lemma NearestAtMostDoubles(x: int, p: int)
    requires p > 0
    ensures Abs(Nearest(x, p)) <= 2 * Abs(x)
  {
    var y := Nearest(x, p);
    assert 2 * Abs(y - x) <= p by { NearestIsNearest(x, p); }
    assert y == 0 || Abs(y) >= p by { MultipleIsLarge(p, NearestQuotient(x, p)); }
    ApartAtMostHalf(x, y, p);
  }

  lemma ApartAtMostHalf(x: int, y: int, p: int)
    requires p > 0 && 2 * Abs(y - x) <= p && (y == 0 || Abs(y) >= p)
    ensures Abs(y) <= 2 * Abs(x)
  {}

  // ---------------------------------------------------------------- how large an answer can be

  /** Literals and calls without arguments, the places where numbers enter. */
  function Leaves(e: Expr): (n: nat)
    ensures n >= 1
    decreases e
  {
    match e
    case Binary(_, left, right) => Leaves(left) + Leaves(right)
    case Unary(_, operand) => Leaves(operand)
    case Call(_, args, _) => if args == [] then 1 else LeavesAll(args)
    case _ => 1
  }

  function LeavesAll(es: seq<Expr>): (n: nat)
    ensures n >= |es|
    decreases es
  {
    if es == [] then 0 else Leaves(es[0]) + LeavesAll(es[1..])
  }

  /** The largest magnitude among the literals. */
  function Largest(e: Expr): nat
    decreases e
  {
    match e
    case Constant(Whole(n)) => Abs(n)
    case Binary(_, left, right) => Max(Largest(left), Largest(right))
    case Unary(_, operand) => Largest(operand)
    case Call(_, args, _) => LargestAll(args)
    case _ => 0
  }

  function LargestAll(es: seq<Expr>): nat
    decreases es
  {
    if es == [] then 0 else Max(Largest(es[0]), LargestAll(es[1..]))
  }

  /** A call on literals has a leaf for each, and one if it has none; its largest is one of them, and
      0 without any. */
  lemma {:induction false} MeasuresOfLiterals(es: seq<Expr>, callee: Callee)
    requires forall i | 0 <= i < |es| :: es[i].Constant? && es[i].literal.Whole?
    ensures LeavesAll(es) == |es| && Leaves(Call(callee, es, [])) == Max(1, |es|)
    ensures if es == [] then LargestAll(es) == 0
            else exists i :: 0 <= i < |es| && LargestAll(es) == Abs(es[i].literal.n)
    ensures forall i | 0 <= i < |es| :: Abs(es[i].literal.n) <= LargestAll(es)
    ensures Largest(Variable("x")) == Largest(Call(callee, [], [])) == 0
  {
    if es != [] {
      assert forall i | 0 < i < |es| :: es[i] == es[1..][i - 1];
      MeasuresOfLiterals(es[1..], callee);
      assert Leaves(es[0]) == 1 && Largest(es[0]) == Abs(es[0].literal.n);
      if es[1..] != [] {
        var i :| 0 <= i < |es| - 1 && LargestAll(es[1..]) == Abs(es[1..][i].literal.n);
        assert es[i + 1] == es[1..][i];
        assert LargestAll(es) == Abs(es[0].literal.n) || LargestAll(es) == Abs(es[i + 1].literal.n);
      }
    }
  }

  /** `m` is at least every literal and the largest power the guards let through. */
  predicate Covers(g: Guard, m: nat, largest: nat) {
    g.maxBase >= 1 && m >= 2 && m >= largest && m >= Pow(g.maxBase, g.maxExponent)
  }

  /** An answer is at most `m` to the number of leaves: however powers, products and roundings are
      nested, the guards keep an answer's length linear in the length of the expression. */
  lemma {:induction false} MagnitudeBound(g: Guard, e: Expr, m: nat)
    requires Covers(g, m, Largest(e))
    ensures Eval(g, e).Done? ==> Abs(Eval(g, e).value) <= Pow(m, Leaves(e))
    decreases e
  {
    if Eval(g, e).Done? {
      match e
      case Constant(literal) =>
        assert Pow(m, 1) == m;
      case Binary(op, left, right) =>
        MagnitudeBound(g, left, m);
        MagnitudeBound(g, right, m);
        ApplyBound(g, op, Eval(g, left).value, Eval(g, right).value, m, Leaves(left), Leaves(right));
      case Unary(_, operand) =>
        MagnitudeBound(g, operand, m);
      case Call(callee, args, _) =>
        ArgumentsBound(g, args, m);
        BuiltinBound(callee.name, EvalAll(g, args).value, m, Leaves(e));
    }
  }

  /** The bound under the shipped limits: the larger of 1000 to the 1000 and the largest literal,
      to the number of leaves. */
  lemma ShippedBound(e: Expr)
    ensures var m := Max(Pow(1000, 1000), Largest(e));
            m >= 0 && (Eval(SHIPPED, e).Done? ==> Abs(Eval(SHIPPED, e).value) <= Pow(m, Leaves(e)))
  {
    PowGrows(1000, 1, 1000);
    assert Pow(1000, 1) == 1000;
    MagnitudeBound(SHIPPED, e, Max(Pow(1000, 1000), Largest(e)));
  }

  lemma {:induction false} ArgumentsBound(g: Guard, es: seq<Expr>, m: nat)
    requires Covers(g, m, LargestAll(es))
    ensures EvalAll(g, es).Done? ==> AllSmall(EvalAll(g, es).value, m, LeavesAll(es))
    decreases es
  {
    if EvalAll(g, es).Done? && es != [] {
      var head, tail := Eval(g, es[0]).value, EvalAll(g, es[1..]).value;
      MagnitudeBound(g, es[0], m);
      ArgumentsBound(g, es[1..], m);
      var i, j := Leaves(es[0]), LeavesAll(es[1..]);
      forall k | 0 <= k < |tail| + 1
        ensures Abs(([head] + tail)[k]) <= Pow(m, i + j - |tail|)
      {
        if k == 0 { PowGrows(m, i, i + j - |tail|); } else { PowGrows(m, j + 1 - |tail|, i + j - |tail|); }
      }
    }
  }

  /** Each value has its own leaf, so each is also small by one factor per other value. */
  predicate AllSmall(vs: seq<int>, m: nat, leaves: nat) {
    |vs| <= leaves && forall k | 0 <= k < |vs| :: Abs(vs[k]) <= Pow(m, leaves + 1 - |vs|)
  }

  lemma BuiltinBound(name: string, vs: seq<int>, m: nat, leaves: nat)
    requires name in SAFE_NAMES && m >= 2 && leaves >= 1
    requires AllSmall(vs, m, leaves)
    ensures Builtin(name, vs).Done? ==> Abs(Builtin(name, vs).value) <= Pow(m, leaves)
  {
    PowGrows(m, 0, leaves);
    if |vs| >= 1 {
      PowGrows(m, leaves + 1 - |vs|, leaves);
    }
    if |vs| == 2 {
      assert m * Pow(m, leaves - 1) == Pow(m, leaves);
      Doubles(m, Pow(m, leaves - 1));
      if vs[1] < 0 {
        NearestAtMostDoubles(vs[0], Ten(-vs[1]));
      }
    }
  }

  lemma Doubles(m: nat, x: int)
    requires m >= 2 && x >= 0
    ensures 2 * x <= m * x
  {
    NonNegative(m - 2, x);
    assert m * x == (m - 2) * x + 2 * x;
  }

  lemma ApplyBound(g: Guard, op: BinaryOp, a: int, b: int, m: nat, i: nat, j: nat)
    requires Covers(g, m, 0) && i >= 1 && j >= 1
    requires Abs(a) <= Pow(m, i) && Abs(b) <= Pow(m, j)
    ensures Apply(g, op, a, b).Done? ==> Abs(Apply(g, op, a, b).value) <= Pow(m, i + j)
  {
    PowGrows(m, i, i + j);
    PowGrows(m, j, i + j);
    PowAdds(m, i, j);
    match op
    case Plus => SumBelowProduct(m, i, j);
    case Minus => SumBelowProduct(m, i, j);
    case Times =>
      AbsTimes(a, b);
      ProductGrows(Abs(a), Pow(m, i), Abs(b), Pow(m, j));
    case FloorDivide => if b != 0 { QuotientsShrink(a, b); }
    case Modulo => if b != 0 { QuotientsShrink(a, b); }
    case Power => if Raise(g, a, b).Done? { RaiseBound(g, a, b, m, i + j); }
    case Divide =>
    case OtherBinary(_) =>
  }

  lemma RaiseBound(g: Guard, a: int, b: int, m: nat, leaves: nat)
    requires Covers(g, m, 0) && leaves >= 1
    requires Abs(a) <= Pow(m, leaves)
    requires Raise(g, a, b).Done?
    ensures Abs(Pow(a, b)) <= Pow(m, leaves)
  {
    PowGrows(m, 0, leaves);
    if b == 1 {
      assert Pow(a, 1) == a;
    } else if b > 1 {
      AbsPow(a, b);
      PowMonotone(Abs(a), g.maxBase, b, g.maxExponent);
      assert Pow(m, 1) == m;
      PowGrows(m, 1, leaves);
    }
  }

  lemma {:induction false} PowPositive(m: int, n: nat)
    requires m >= 1
    ensures Pow(m, n) >= 1
  {
    if n > 0 {
      PowPositive(m, n - 1);
      AtLeast(m, Pow(m, n - 1));
    }
  }

  lemma {:induction false} PowGrows(m: int, i: nat, j: nat)
    requires m >= 1 && i <= j
    ensures 1 <= Pow(m, i) <= Pow(m, j)
    decreases j
  {
    PowPositive(m, i);
    if i < j {
      PowGrows(m, i, j - 1);
      AtLeast(Pow(m, j - 1), m);
    }
  }

  lemma {:induction false} PowAdds(m: int, i: nat, j: nat)
    ensures Pow(m, i + j) == Pow(m, i) * Pow(m, j)
    decreases i
  {
    if i > 0 {
      PowAdds(m, i - 1, j);
      assert m * (Pow(m, i - 1) * Pow(m, j)) == m * Pow(m, i - 1) * Pow(m, j);
    }
  }

  lemma {:induction false} AbsPow(a: int, n: nat)
    ensures Abs(Pow(a, n)) == Pow(Abs(a), n)
  {
    if n > 0 {
      AbsPow(a, n - 1);
      AbsTimes(a, Pow(a, n - 1));
    }
  }

  lemma {:induction false} PowMonotone(a: nat, b: nat, i: nat, j: nat)
    requires a <= b && b >= 1 && i <= j
    ensures 0 <= Pow(a, i) <= Pow(b, j)
    decreases i
  {
    PowPositive(b, j);
    if i > 0 {
      PowMonotone(a, b, i - 1, j - 1);
      ProductGrows(a, b, Pow(a, i - 1), Pow(b, j - 1));
    }
  }

  lemma ProductGrows(a: nat, b: nat, c: nat, d: nat)
    requires a <= b && c <= d
    ensures 0 <= a * c <= b * d
  {
    NonNegative(a, c);
    NonNegative(b, d - c);
    NonNegative(b - a, c);
    assert b * d == b * (d - c) + (b - a) * c + a * c;
  }

  lemma SumBelowProduct(m: nat, i: nat, j: nat)
    requires m >= 2 && i >= 1 && j >= 1
    ensures Pow(m, i) + Pow(m, j) <= Pow(m, i) * Pow(m, j)
  {
    assert Pow(m, 1) == m;
    PowGrows(m, 1, i);
    PowGrows(m, 1, j);
    Doubles(Pow(m, i), Pow(m, j));
    Doubles(Pow(m, j), Pow(m, i));
  }

  /** No smaller bound holds: a product of equal literals reaches it. */
  lemma {:induction false} MagnitudeReached(g: Guard, m: nat, leaves: nat)
    requires leaves >= 1
    ensures var e := ProductOf(m, leaves);
            Largest(e) == m && Leaves(e) == leaves && Eval(g, e) == Done(Pow(m, leaves))
    decreases leaves
  {
    if leaves == 1 {
      assert Pow(m, 1) == m;
    } else {
      MagnitudeReached(g, m, leaves - 1);
      var left, right := Constant(Whole(m)), ProductOf(m, leaves - 1);
      assert ProductOf(m, leaves) == Binary(Times, left, right);
      assert Eval(g, left) == Done(m);
    }
  }

  function ProductOf(m: nat, leaves: nat): Expr
    requires leaves >= 1
  {
    if leaves == 1 then Constant(Whole(m))
    else Binary(Times, Constant(Whole(m)), ProductOf(m, leaves - 1))
  }

  // ---------------------------------------------------------------- what the guards do

  predicate AtMost(g: Guard, h: Guard) {
    g.maxBase <= h.maxBase && g.maxExponent <= h.maxExponent
  }

  /** The guards only refuse. Whatever is answered under one pair of limits is answered the same
      under any wider pair; and an expression whose answer a wider pair changes was refused for an
      exponent or a base. */
  lemma {:induction false} GuardsOnlyRefuse(g: Guard, h: Guard, e: Expr)
    requires AtMost(g, h)
    ensures Eval(g, e) == Eval(h, e) || Refused(Eval(g, e))
    decreases e
  {
    match e
    case Binary(op, left, right) =>
      GuardsOnlyRefuse(g, h, left);
      GuardsOnlyRefuse(g, h, right);
    case Unary(_, operand) =>
      GuardsOnlyRefuse(g, h, operand);
    case Call(_, args, _) =>
      GuardsOnlyRefuseAll(g, h, args);
    case _ =>
  }

  lemma {:induction false} GuardsOnlyRefuseAll(g: Guard, h: Guard, es: seq<Expr>)
    requires AtMost(g, h)
    ensures EvalAll(g, es) == EvalAll(h, es) || Refused(EvalAll(g, es))
    decreases es
  {
    if es != [] {
      GuardsOnlyRefuse(g, h, es[0]);
      GuardsOnlyRefuseAll(g, h, es[1..]);
    }
  }

  predicate Refused<T>(o: Outcome<T>) {
    o == Failed(ExponentTooLarge) || o == Failed(BaseTooLarge)
  }
}
