/** What finished code leaves in its registers, said by the rules of the language and
    without the generator's own account of them (src/lcode.c, src/lvm.c, src/lobject.h). */
module ExprRules {
  import opened LuaValues
  import opened CodeMachine
  import opened ExprMeaning
  import opened GeneratorSteps

  /** The code that has been compiled for a list of expressions, and one of them. */
  datatype Finished = Finished(m: Machine, code: seq<Instr>, srcs: seq<Expr>, n: nat, i: nat)

  /** It computes `e`, when it is run with the registers `r`. */
  ghost predicate CodeFor(f: Finished, e: Expr, r: Regs) {
    && CodeOk(|f.m.k|, f.code, {}) && Computes(f.m, f.code, f.srcs, f.n, r)
    && f.i < |f.srcs| && f.srcs[f.i] == e
  }

  /** The value that the run leaves in the register of the expression. */
  ghost function Left(f: Finished, r: Regs): Value
    requires CodeOk(|f.m.k|, f.code, {})
  {
    var after := Run(f.m, f.code, {}, 0, r).r;
    if f.n + f.i in after then after[f.n + f.i] else Nil
  }

  /** Nil and false are false; everything else is true. */
  predicate Falsy(v: Value) {
    match v
    case Nil => true
    case Bool(b) => !b
    case _ => false
  }

  /** Code for two expressions, run by machines with the same comparison. */
  ghost predicate CodeForBoth(f: Finished, e: Expr, f1: Finished, e1: Expr, r: Regs) {
    CodeFor(f, e, r) && CodeFor(f1, e1, r) && f1.m.cmp == f.m.cmp
  }

  lemma LeftIsEval(f: Finished, e: Expr, r: Regs)
    requires CodeFor(f, e, r)
    ensures Left(f, r) == Eval(f.m.cmp, e, r)
  {
    assert Reg(Run(f.m, f.code, {}, 0, r).r, f.n + f.i) == Eval(f.m.cmp, f.srcs[f.i], r);
  }

  /** Constants and locals are themselves, parentheses change nothing. */
  lemma SimpleLeft(f: Finished, e: Expr, r: Regs)
    requires CodeFor(f, e, r)
    ensures match e
            case ENil => Left(f, r) == Nil
            case ETrue => Left(f, r) == Bool(true)
            case EFalse => Left(f, r) == Bool(false)
            case EInt(i) => Left(f, r) == Int(i)
            case EFlt(x) => Left(f, r) == Flt(x)
            case EStr(s) => Left(f, r) == ShortStr(s)
            case ELocal(reg) => Left(f, r) == if reg in r then r[reg] else Nil
            case _ => true
  {
    LeftIsEval(f, e, r);
  }

  lemma ParenLeft(f: Finished, f1: Finished, e1: Expr, r: Regs)
    requires CodeForBoth(f, EParen(e1), f1, e1, r)
    ensures Left(f, r) == Left(f1, r)
  {
    LeftIsEval(f, EParen(e1), r);
    LeftIsEval(f1, e1, r);
  }

  /** `not e` is true exactly when `e` is nil or false, and false otherwise. */
  lemma NotLeft(f: Finished, f1: Finished, e1: Expr, r: Regs)
    requires CodeForBoth(f, ENot(e1), f1, e1, r)
    ensures Left(f, r) == Bool(Left(f1, r) == Nil || Left(f1, r) == Bool(false))
  {
    LeftIsEval(f, ENot(e1), r);
    LeftIsEval(f1, e1, r);
  }

  /** `e1 and e2` is `e1` if that is false and `e2` otherwise. */
  lemma AndLeft(f: Finished, f1: Finished, e1: Expr, f2: Finished, e2: Expr, r: Regs)
    requires CodeForBoth(f, EAnd(e1, e2), f1, e1, r) && CodeForBoth(f, EAnd(e1, e2), f2, e2, r)
    ensures Left(f, r) == if Falsy(Left(f1, r)) then Left(f1, r) else Left(f2, r)
  {
    LeftIsEval(f, EAnd(e1, e2), r);
    LeftIsEval(f1, e1, r);
    LeftIsEval(f2, e2, r);
  }

  /** `e1 or e2` is `e2` if `e1` is false and `e1` otherwise. */
  lemma OrLeft(f: Finished, f1: Finished, e1: Expr, f2: Finished, e2: Expr, r: Regs)
    requires CodeForBoth(f, EOr(e1, e2), f1, e1, r) && CodeForBoth(f, EOr(e1, e2), f2, e2, r)
    ensures Left(f, r) == if Falsy(Left(f1, r)) then Left(f2, r) else Left(f1, r)
  {
    LeftIsEval(f, EOr(e1, e2), r);
    LeftIsEval(f1, e1, r);
    LeftIsEval(f2, e2, r);
  }

  /** `==`, `<` and `<=` compare the values of their operands in their order. */
  lemma ComparisonLeft(op: CompareOp, f: Finished, f1: Finished, e1: Expr, f2: Finished, e2: Expr, r: Regs)
    requires CodeForBoth(f, ECompare(op, e1, e2), f1, e1, r) && CodeForBoth(f, ECompare(op, e1, e2), f2, e2, r)
    ensures op.OpEq? ==> Left(f, r) == Bool(f.m.cmp(EQ, Left(f1, r), Left(f2, r)))
    ensures op.OpLt? ==> Left(f, r) == Bool(f.m.cmp(LT, Left(f1, r), Left(f2, r)))
    ensures op.OpLe? ==> Left(f, r) == Bool(f.m.cmp(LE, Left(f1, r), Left(f2, r)))
  {
    LeftIsEval(f, ECompare(op, e1, e2), r);
    LeftIsEval(f1, e1, r);
    LeftIsEval(f2, e2, r);
  }

  /** `a > b` is `b < a`, and `a >= b` is `b <= a`. */
  lemma GreaterTurned(f: Finished, f1: Finished, a: Expr, b: Expr, r: Regs)
    ensures CodeForBoth(f, ECompare(OpGt, a, b), f1, ECompare(OpLt, b, a), r) ==> Left(f, r) == Left(f1, r)
    ensures CodeForBoth(f, ECompare(OpGe, a, b), f1, ECompare(OpLe, b, a), r) ==> Left(f, r) == Left(f1, r)
  {
    if CodeForBoth(f, ECompare(OpGt, a, b), f1, ECompare(OpLt, b, a), r) {
      LeftIsEval(f, ECompare(OpGt, a, b), r);
      LeftIsEval(f1, ECompare(OpLt, b, a), r);
    }
    if CodeForBoth(f, ECompare(OpGe, a, b), f1, ECompare(OpLe, b, a), r) {
      LeftIsEval(f, ECompare(OpGe, a, b), r);
      LeftIsEval(f1, ECompare(OpLe, b, a), r);
    }
  }

  /** `a ~= b` is `not (a == b)`. */
  lemma UnequalTurned(f: Finished, f1: Finished, a: Expr, b: Expr, r: Regs)
    requires CodeForBoth(f, ECompare(OpNe, a, b), f1, ENot(EParen(ECompare(OpEq, a, b))), r)
    ensures Left(f, r) == Left(f1, r)
  {
    var equal := ECompare(OpEq, a, b);
    LeftIsEval(f, ECompare(OpNe, a, b), r);
    LeftIsEval(f1, ENot(EParen(equal)), r);
    assert Eval(f.m.cmp, EParen(equal), r) == Eval(f.m.cmp, equal, r);
  }
}
