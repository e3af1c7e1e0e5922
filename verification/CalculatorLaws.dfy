/** What the operators and functions of the calculator mean to someone who types expressions: laws
    between expressions, over all operands. */
module CalculatorLaws {
  import opened Prelude
  import opened Calculator

  function Number(n: int): Expr { Constant(Whole(n)) }

  function Applied(name: string, args: seq<Expr>): Expr { Call(Named(name), args, []) }

  ghost predicate Is(g: Guard, e: Expr, n: int) { Eval(g, e) == Done(n) }

  // ---------------------------------------------------------------- sums and products

  /** Subtracting undoes adding, and negating gives what adds up to zero. */
  lemma SubtractingUndoesAdding(g: Guard, e: Expr, f: Expr, a: int, b: int)
    requires Is(g, e, a) && Is(g, f, b)
    ensures Is(g, Binary(Minus, Binary(Plus, e, f), f), a)
    ensures Is(g, Binary(Plus, e, Unary(Negate, e)), 0)
    ensures Is(g, Binary(Minus, e, e), 0)
    ensures Is(g, Unary(Posit, e), a)
    ensures Is(g, Number(a), a)
  {
  }

  /** `first op e op ... op e`, with `n` copies of `e`. */
  function Copies(op: BinaryOp, first: Expr, e: Expr, n: nat): Expr {
    if n == 0 then first else Binary(op, Copies(op, first, e, n - 1), e)
  }

  /** Multiplying by a natural number is adding so many times. */
  lemma {:induction false} TimesIsRepeatedPlus(g: Guard, e: Expr, a: int, n: nat)
    requires Is(g, e, a)
    ensures Eval(g, Binary(Times, Number(n), e)) == Eval(g, Copies(Plus, Number(0), e, n))
    ensures Eval(g, Binary(Times, Unary(Negate, Number(n)), e))
         == Eval(g, Unary(Negate, Binary(Times, Number(n), e)))
    ensures Eval(g, Binary(Times, Number(n), e)) == Done(n * a)
  {
    if n > 0 {
      TimesIsRepeatedPlus(g, e, a, n - 1);
      assert n * a == (n - 1) * a + a;
    }
    assert (0 - n) * a == -(n * a);
  }

  /** A power the guards let through is a repeated product. */
  lemma {:induction false} PowerIsRepeatedTimes(g: Guard, e: Expr, a: int, n: nat)
    requires Is(g, e, a)
    ensures Eval(g, Copies(Times, Number(1), e, n)).Done?
    ensures n <= g.maxExponent && (n <= 1 || 0 - g.maxBase <= a <= g.maxBase) ==>
              Eval(g, Binary(Power, e, Number(n))) == Eval(g, Copies(Times, Number(1), e, n))
  {
    CopiesIsPow(g, e, a, n);
  }

  lemma {:induction false} CopiesIsPow(g: Guard, e: Expr, a: int, n: nat)
    requires Is(g, e, a)
    ensures Is(g, Copies(Times, Number(1), e, n), Pow(a, n))
  {
    if n > 0 {
      CopiesIsPow(g, e, a, n - 1);
      assert Pow(a, n - 1) * a == a * Pow(a, n - 1);
    }
  }

  /** Exactly when a power is refused, by which guard, and what the others come to. */
  lemma PowerOutcomes(g: Guard, e: Expr, f: Expr, a: int, b: int)
    requires Is(g, e, a) && Is(g, f, b)
    ensures var r := Eval(g, Binary(Power, e, f));
            var small := 0 - g.maxBase <= a <= g.maxBase || -1 <= b <= 1;
            if !(0 - g.maxExponent <= b <= g.maxExponent) then r == Failed(ExponentTooLarge)
            else if !small then r == Failed(BaseTooLarge)
            else if b < 0 then r == if a == 0 then Failed(DivisionByZero) else Float
            else r.Done?
  {
  }

  /** The shipped guards let 1000 to the 1000 through, and nothing larger. */
  lemma ShippedGuards(e: Expr, f: Expr, a: int, b: int)
    requires Is(SHIPPED, e, a) && Is(SHIPPED, f, b)
    ensures var r := Eval(SHIPPED, Binary(Power, e, f));
            && (b > 1000 || b < -1000 ==> r == Failed(ExponentTooLarge))
            && (2 <= b <= 1000 && !(-1000 <= a <= 1000) ==> r == Failed(BaseTooLarge))
            && (0 <= b <= 1000 && -1000 <= a <= 1000 ==> r.Done?)
  {
    PowerOutcomes(SHIPPED, e, f, a, b);
  }

  // ---------------------------------------------------------------- quotients

  /** Only a zero divisor is refused. Quotient and remainder make up the dividend again, and a true
      division leaves the integers. */
  lemma DivisionOutcomes(g: Guard, e: Expr, f: Expr, a: int, b: int)
    requires Is(g, e, a) && Is(g, f, b)
    ensures b == 0 ==> forall op | op in {Divide, FloorDivide, Modulo} ::
                         Eval(g, Binary(op, e, f)) == Failed(DivisionByZero)
    ensures b != 0 ==>
              && Eval(g, Binary(Divide, e, f)) == Float
              && Is(g, Binary(Plus, Binary(Times, f, Binary(FloorDivide, e, f)), Binary(Modulo, e, f)), a)
  {
    if b != 0 {
      var q, r := Floor(a, b), Rem(a, b);
      assert Is(g, Binary(FloorDivide, e, f), q) && Is(g, Binary(Modulo, e, f), r);
      FloorSemantics(a, b, q, r);
      assert Is(g, Binary(Times, f, Binary(FloorDivide, e, f)), b * q);
    }
  }

  // ---------------------------------------------------------------- functions

  lemma ArgumentsAre(g: Guard, es: seq<Expr>, vs: seq<int>)
    requires |es| == |vs| <= 2 && forall i | 0 <= i < |es| :: Is(g, es[i], vs[i])
    ensures EvalAll(g, es) == Done(vs)
  {
    if |es| == 2 {
      ArgumentsAre(g, es[1..], vs[1..]);
      assert vs == [vs[0]] + vs[1..];
    } else if |es| == 1 {
      assert es[1..] == [] && EvalAll(g, []) == Done([]);
      assert vs == [vs[0]] + [];
    } else {
      assert vs == [];
    }
  }

  /** The functions of one argument. */
  lemma FunctionsOfOne(g: Guard, e: Expr, a: int)
    requires Is(g, e, a)
    ensures Eval(g, Applied("abs", [e])) == Eval(g, Applied("max", [e, Unary(Negate, e)]))
    ensures Is(g, Applied("round", [e]), a) && Is(g, Applied("int", [e]), a)
    ensures Eval(g, Applied("float", [e])) == Float
  {
    ArgumentsAre(g, [e], [a]);
    ArgumentsAre(g, [e, Unary(Negate, e)], [a, -a]);
    LargerOfTwo(a, -a);
  }

  lemma LargerOfTwo(a: int, b: int)
    ensures Greatest([a, b]) == (if a >= b then a else b) && Least([a, b]) == if a <= b then a else b
  {
    assert a in [a, b] && b in [a, b];
  }

  /** The functions of two. */
  lemma FunctionsOfTwo(g: Guard, e: Expr, f: Expr, a: int, b: int)
    requires Is(g, e, a) && Is(g, f, b)
    ensures Is(g, Applied("max", [e, f]), if a >= b then a else b)
    ensures Eval(g, Binary(Plus, Applied("min", [e, f]), Applied("max", [e, f]))) == Eval(g, Binary(Plus, e, f))
    ensures Is(g, Applied("round", [e, f]), if b >= 0 then a else Nearest(a, if b >= 0 then 1 else PowerOfTen(-b)))
  {
    ArgumentsAre(g, [e, f], [a, b]);
    LargerOfTwo(a, b);
    if b < 0 { TenIsPower(-b); }
  }

  function PowerOfTen(n: nat): (r: int)
    ensures r > 0
  {
    TenIsPower(n);
    Pow(10, n)
  }

  lemma {:induction false} TenIsPower(n: nat)
    ensures Ten(n) == Pow(10, n) > 0
  {
    if n > 0 { TenIsPower(n - 1); }
  }

  /** `min` and `max` of any two or more values are among them and bound them all. */
  lemma ManyArguments(vs: seq<int>)
    requires |vs| >= 2
    ensures Builtin("min", vs).Done? && Builtin("min", vs).value in vs
    ensures Builtin("max", vs).Done? && Builtin("max", vs).value in vs
    ensures forall v | v in vs :: Builtin("min", vs).value <= v <= Builtin("max", vs).value
  {
  }

  /** How many arguments each function takes. */
  lemma ArgumentCounts(name: string, vs: seq<int>)
    requires name in SAFE_NAMES
    ensures Builtin(name, vs) == Failed(WrongArguments) <==>
            || ((name == "min" || name == "max") && |vs| < 2)
            || (name == "abs" && |vs| != 1)
            || (name == "round" && |vs| != 1 && |vs| != 2)
            || ((name == "int" || name == "float") && |vs| > 1)
    ensures Builtin("int", []) == Done(0) && Builtin("float", []) == Float
  {
  }

  // ---------------------------------------------------------------- what is evaluated at all

  /** Numbers, the seven operators, the two signs and calls of the six functions by name. */
  predicate Allowed(e: Expr)
    decreases e
  {
    match e
    case Constant(literal) => literal.Whole?
    case Binary(op, left, right) => !op.OtherBinary? && Allowed(left) && Allowed(right)
    case Unary(op, operand) => !op.OtherUnary? && Allowed(operand)
    case Call(callee, args, _) =>
      && callee.Named? && callee.name in {"abs", "round", "int", "float", "min", "max"}
      && forall i | 0 <= i < |args| :: Allowed(args[i])
    case Variable(_) => false
    case OtherNode => false
  }

  /** Only such an expression is ever answered on integers, whatever else stands anywhere in it. */
  lemma {:induction false} AnsweredIsAllowed(g: Guard, e: Expr)
    requires Eval(g, e).Done?
    ensures Allowed(e)
    decreases e
  {
    match e
    case Binary(_, left, right) =>
      AnsweredIsAllowed(g, left);
      AnsweredIsAllowed(g, right);
    case Unary(_, operand) => AnsweredIsAllowed(g, operand);
    case Call(_, args, _) => AllAnsweredAreAllowed(g, args);
    case _ =>
  }

  lemma {:induction false} AllAnsweredAreAllowed(g: Guard, es: seq<Expr>)
    requires EvalAll(g, es).Done?
    ensures forall i | 0 <= i < |es| :: Allowed(es[i])
    decreases es
  {
    if es != [] {
      AnsweredIsAllowed(g, es[0]);
      AllAnsweredAreAllowed(g, es[1..]);
      assert forall i | 0 < i < |es| :: es[i] == es[1..][i - 1];
    }
  }

  /** The errors that say what may not stand in an expression, not what cannot be computed. */
  predicate Forbids(error: Error) {
    error in {UnsupportedLiteral, UnsupportedOperator, UnsupportedNode, ComputedCallee, FunctionNotAllowed,
              VariableNotAllowed}
  }

  /** And such an expression only ever fails for a limit, a zero divisor or the number of arguments. */
  lemma {:induction false} AllowedIsSupported(g: Guard, e: Expr)
    requires Allowed(e)
    ensures Eval(g, e).Failed? ==> !Forbids(Eval(g, e).error)
    decreases e
  {
    match e
    case Binary(_, left, right) =>
      AllowedIsSupported(g, left);
      AllowedIsSupported(g, right);
    case Unary(_, operand) => AllowedIsSupported(g, operand);
    case Call(_, args, _) => AllAllowedAreSupported(g, args);
    case _ =>
  }

  lemma {:induction false} AllAllowedAreSupported(g: Guard, es: seq<Expr>)
    requires forall i | 0 <= i < |es| :: Allowed(es[i])
    ensures EvalAll(g, es).Failed? ==> !Forbids(EvalAll(g, es).error)
    decreases es
  {
    if es != [] {
      AllowedIsSupported(g, es[0]);
      AllAllowedAreSupported(g, es[1..]);
    }
  }

  /** The first operand that is no integer settles the outcome. */
  lemma LeftOperandFirst(g: Guard, op: BinaryOp, left: Expr, right: Expr)
    requires !op.OtherBinary?
    ensures !Eval(g, left).Done? ==> Eval(g, Binary(op, left, right)) == Eval(g, left)
    ensures Eval(g, left).Done? && !Eval(g, right).Done? ==> Eval(g, Binary(op, left, right)) == Eval(g, right)
  {
  }
}
