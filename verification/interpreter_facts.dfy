/** Properties of the evaluator model: the algebra of the operators,
    what variables read and write, and what programs print. */
module InterpreterFacts {
  import opened Wrappers
  import opened Common
  import opened Environment
  import opened Interpreter

  // ---------------------------------------------------------------------
  // Operators

  /** `==` and `!=` apply to any pair of values and are each other's
      negation. */
  lemma EqualityOperators(a: LiteralValue, b: LiteralValue)
    ensures EvaluateBinary(a, EqualEqual, b) == Ok(Bool(a == b))
    ensures EvaluateBinary(a, BangEqual, b) == Ok(Bool(a != b))
  {
  }

  /** Integer division panics exactly on a zero divisor and on the one
      quotient outside `i64`, `i64::MIN / -1`. */
  lemma IntegerDivisionPanics(a: int, b: int)
    requires InI64(a) && InI64(b)
    ensures EvaluateBinary(Integer(a), Slash, Integer(b)).Panic? <==> b == 0 || (a == I64Min && b == -1)
    ensures b != 0 && !(a == I64Min && b == -1) ==> EvaluateBinary(Integer(a), Slash, Integer(b)) == Ok(Integer(TruncatedDivision(a, b)))
  {
    if b != 0 {
      var q := TruncatedDivision(a, b);
      if a == I64Min && b == -1 {
        assert q == -a;
      } else {
        QuotientBounded(a, b);
      }
    }
  }

  /** The truncated quotient is no larger in size than the dividend. */
  lemma QuotientBounded(a: int, b: int)
    requires b != 0
    ensures Abs(TruncatedDivision(a, b)) <= Abs(a)
  {
    DivisionShrinks(Abs(a), Abs(b));
  }

  lemma DivisionShrinks(n: nat, d: nat)
    requires d > 0
    ensures n / d <= n
  {
    var q := n / d;
    assert q * d <= n;
    NonNegativeProduct(q, d - 1);
    assert q * d == q + q * (d - 1);
  }

  lemma NonNegativeProduct(x: nat, y: nat)
    ensures x * y >= 0
  {
  }

  /** The conditions on `TruncatedDivision` determine the quotient: no
      other integer leaves a remainder smaller than the divisor with the
      sign of the dividend. */
  lemma TruncatedDivisionUnique(a: int, b: int, q: int)
    requires b != 0
    requires Abs(a - q * b) < Abs(b)
    requires a - q * b == 0 || (a - q * b < 0 <==> a < 0)
    ensures q == TruncatedDivision(a, b)
  {
    var t := TruncatedDivision(a, b);
    var r1 := a - q * b;
    var r2 := a - t * b;
    assert r2 - r1 == (q - t) * b;
    if q != t {
      MultipleAtLeastDivisor(q - t, b);
      assert false;
    }
  }

  lemma MultipleAtLeastDivisor(k: int, b: int)
    requires k != 0 && b != 0
    ensures Abs(k * b) >= Abs(b)
  {
    var m := Abs(k);
    var n := Abs(b);
    AbsProduct(k, b);
    NonNegativeProduct(m - 1, n);
    assert m * n == n + (m - 1) * n;
  }

  lemma AbsProduct(k: int, b: int)
    ensures Abs(k * b) == Abs(k) * Abs(b)
  {
    if k < 0 {
      assert k * b == -(Abs(k) * b);
    }
    if b < 0 {
      assert Abs(k) * b == -(Abs(k) * Abs(b));
    }
    NonNegativeProduct(Abs(k), Abs(b));
  }

  /** Rust's `-7 / 2` is `-3`; Dafny's is `-4`. */
  lemma TruncationIsNotEuclidean()
    ensures TruncatedDivision(-7, 2) == -3 && -7 / 2 == -4
    ensures EvaluateBinary(Integer(-7), Slash, Integer(2)) == Ok(Integer(-3))
  {
  }

  /** The two pairs of comparisons mirror each other, and each
      non-strict comparison is the negation of the opposite strict one. */
  lemma ComparisonsMirror(a: LiteralValue, b: LiteralValue)
    requires (a.Float? && b.Float?) || (a.Integer? && b.Integer?)
    ensures EvaluateBinary(a, Greater, b) == EvaluateBinary(b, Less, a)
    ensures EvaluateBinary(a, GreaterEqual, b) == EvaluateBinary(b, LessEqual, a)
    ensures EvaluateBinary(a, Greater, b) == Ok(Bool(true)) || EvaluateBinary(a, Greater, b) == Ok(Bool(false))
    ensures EvaluateBinary(a, LessEqual, b) == Ok(Bool(true)) <==> EvaluateBinary(a, Greater, b) == Ok(Bool(false))
    ensures EvaluateBinary(a, LessEqual, b) == Ok(Bool(false)) <==> EvaluateBinary(a, Greater, b) == Ok(Bool(true))
  {
  }

  /** `+` on numbers does not depend on the order of its operands; on
      strings it does. */
  lemma AdditionCommutesOnNumbers(a: LiteralValue, b: LiteralValue)
    requires (a.Float? && b.Float?) || (a.Integer? && b.Integer?)
    ensures EvaluateBinary(a, Plus, b) == EvaluateBinary(b, Plus, a)
  {
  }

  lemma ConcatenationDoesNotCommute()
    ensures EvaluateBinary(Str("a"), Plus, Str("b")) == Ok(Str("ab"))
    ensures EvaluateBinary(Str("b"), Plus, Str("a")) == Ok(Str("ba"))
  {
    assert "a" + "b" == "ab";
    assert "b" + "a" == "ba";
  }

  /** A number and `-` of it are undone by a second `-`, and `!` twice is
      the truthiness of the operand. */
  lemma NegationsUndo(v: LiteralValue)
    ensures v.Float? ==> EvaluateUnary(Minus, EvaluateUnary(Minus, v).value) == Ok(v)
    ensures v.Integer? && InI64(v.i) && v.i != I64Min ==> EvaluateUnary(Minus, EvaluateUnary(Minus, v).value) == Ok(v)
    ensures EvaluateUnary(Bang, EvaluateUnary(Bang, v).value) == Ok(Bool(IsTruthy(v)))
  {
  }

  /** `-i64::MIN` overflows. */
  lemma NegatingMinimumPanics()
    ensures EvaluateUnary(Minus, Integer(I64Min)) == Panic(NegateOverflow)
  {
  }

  // ---------------------------------------------------------------------
  // Variables

  /** A variable reads the innermost visible binding and is the
      "Undefined variable" error when there is none. */
  lemma VariableReadsVisible(env: Env, name: Token)
    ensures Evaluate(env, Expr.Var(name)) == if name.lexeme in Visible(env) then Ok((Visible(env)[name.lexeme], env))
                                             else Err(RuntimeError(UndefinedVariable(name.lexeme)))
  {
    GetReadsVisible(env, name);
  }

  /** An assignment's value is the value of its right-hand side. A name
      bound in the innermost scope is rebound there. Any other name is
      left alone, without an error: the enclosing scope an outer name
      lives in is changed only in a copy, and an undefined name's error
      is dropped. In a single scope this is the intended `assign`: the
      name is rebound when it is visible, and nothing changes otherwise. */
  lemma AssignmentExpression(env: Env, name: Token, rhs: Expr, v: LiteralValue, after: Env)
    requires Evaluate(env, rhs) == Ok((v, after))
    ensures Evaluate(env, Assign(name, rhs)).Ok?
    ensures Evaluate(env, Assign(name, rhs)).value.0 == v
    ensures name.lexeme in after.values ==> Evaluate(env, Assign(name, rhs)).value.1 == Define(after, name, v)
    ensures name.lexeme !in after.values ==> Evaluate(env, Assign(name, rhs)).value.1 == after
    ensures after.enclosing.None? ==>
              var intended := Environment.Assign(after, name, v);
              Evaluate(env, Assign(name, rhs)).value.1 == if intended.Ok? then intended.value else after
    ensures after.enclosing.None? && name.lexeme in Visible(after) ==>
              Visible(Evaluate(env, Assign(name, rhs)).value.1) == Visible(after)[name.lexeme := v]
  {
    if after.enclosing.None? {
      AssignAgreesInOneScope(after, name, v);
    }
    AssignUpdatesVisible(after, name, v);
  }

  // ---------------------------------------------------------------------
  // Statements

  /** What running the statements after `first` gives. */
  function Continue(first: Run, rest: seq<Statement>): Run {
    if first.Done? then ExecuteAll(first.state, rest) else first
  }

  /** Running two lists one after the other is running their
      concatenation. */
  lemma {:induction false} ExecuteAllAppend(s: State, a: seq<Statement>, b: seq<Statement>)
    ensures ExecuteAll(s, a + b) == Continue(ExecuteAll(s, a), b)
    decreases |a|
  {
    if a == [] {
      assert a + b == b;
    } else {
      assert (a + b)[0] == a[0];
      assert (a + b)[1..] == a[1..] + b;
      var first := Execute(s, a[0]);
      if first.Done? {
        ExecuteAllAppend(first.state, a[1..], b);
      }
    }
  }

  /** A block changes only the output: when it finishes, the environment
      is the one from before it, with no definition or assignment made
      inside it, and the output is what its statements printed. */
  lemma BlockChangesOnlyOutput(s: State, body: seq<Statement>)
    ensures Execute(s, Block(body)).Done? <==> ExecuteAll(s, body).Done?
    ensures Execute(s, Block(body)).Done? ==> Execute(s, Block(body)).state == State(s.env, ExecuteAll(s, body).state.printed)
  {
  }

  /** A program never nests scopes: the state after each of its
      statements holds the single global scope, where the written and
      the intended `assign` agree. Within a statement the number of scopes
      does not change either (`Evaluate`, `Execute`), so every `assign` a
      program makes runs in that one scope. */
  lemma ProgramsStayInOneScope(program: seq<Statement>, k: nat, name: Token, value: LiteralValue)
    requires k <= |program|
    requires ExecuteAll(Initial, program[..k]).Done?
    ensures var env := ExecuteAll(Initial, program[..k]).state.env;
            && env.enclosing.None?
            && AssignAsWritten(env, name, value) == Environment.Assign(env, name, value)
  {
    AssignAgreesInOneScope(ExecuteAll(Initial, program[..k]).state.env, name, value);
  }

  /** Running a first statement and then the rest. */
  lemma ExecuteAllCons(s: State, first: Statement, rest: seq<Statement>)
    ensures ExecuteAll(s, [first] + rest) == Continue(Execute(s, first), rest)
  {
    assert ([first] + rest)[1..] == rest;
  }

  /** `print e;` is `e;` followed by writing the value: the two statements
      fail together and leave the same environment. */
  lemma PrintIsExpressionStatementWithOutput(s: State, e: Expr)
    ensures Execute(s, PrintStmt(e)).Done? <==> Execute(s, ExprStmt(e)).Done?
    ensures Execute(s, PrintStmt(e)).Done? ==>
              Execute(s, PrintStmt(e)).state.env == Execute(s, ExprStmt(e)).state.env
              && Execute(s, PrintStmt(e)).state.printed == s.printed + [Evaluate(s.env, e).value.0]
    ensures Execute(s, PrintStmt(e)).Crashed? ==> Execute(s, PrintStmt(e)) == Execute(s, ExprStmt(e))
  {
  }

  /** `var n = e; print n;` prints the value of `e` whenever `e` is not
      the `nil` literal and evaluates, and `n` is then bound to it. */
  lemma DeclareThenPrint(s: State, name: Token, init: Expr, v: LiteralValue, after: Env)
    requires init != Literal(LiteralValue.None)
    requires Evaluate(s.env, init) == Ok((v, after))
    ensures ExecuteAll(s, [VarStmt(name, init), PrintStmt(Expr.Var(name))])
            == Done(State(Define(after, name, v), s.printed + [v]))
  {
    var s1 := State(Define(after, name, v), s.printed);
    assert Execute(s, VarStmt(name, init)) == Done(s1);
    GetAfterDefine(after, name, v, name);
    assert Execute(s1, PrintStmt(Expr.Var(name))) == Done(s1.(printed := s.printed + [v]));
    ExecuteAllCons(s1, PrintStmt(Expr.Var(name)), []);
    ExecuteAllCons(s, VarStmt(name, init), [PrintStmt(Expr.Var(name))]);
    assert [PrintStmt(Expr.Var(name))] + [] == [PrintStmt(Expr.Var(name))];
    assert [VarStmt(name, init)] + [PrintStmt(Expr.Var(name))] == [VarStmt(name, init), PrintStmt(Expr.Var(name))];
  }

  /** The tokens and statements of the examples below. */
  const NameA: Token := Token(Identifier, "a", LiteralValue.None, 1)
  const EqualToken: Token := Token(Equal, "=", LiteralValue.None, 1)
  const MinusToken: Token := Token(Minus, "-", LiteralValue.None, 1)
  const DeclareA: Statement := VarStmt(NameA, Literal(Float(1.0)))
  const AssignA: Statement := ExprStmt(Assign(NameA, Literal(Float(2.0))))
  const PrintA: Statement := PrintStmt(Expr.Var(NameA))

  /** `var a = 1; { a = 2; } print a;` prints 1: the block's assignment
      is undone when the block ends. */
  lemma AssignmentInBlockIsUndone()
    ensures Interpret([DeclareA, Block([AssignA]), PrintA]) == Done(State(Define(Global, NameA, Float(1.0)), [Float(1.0)]))
  {
    var s1 := State(Define(Global, NameA, Float(1.0)), []);
    var s3 := s1.(printed := [Float(1.0)]);
    assert Execute(Initial, DeclareA) == Done(s1);
    BlockOfAssignA(s1);
    assert Execute(s1, PrintA) == Done(s3);
    ExecuteAllCons(s1, PrintA, []);
    assert [PrintA] + [] == [PrintA];
    ExecuteAllCons(s1, Block([AssignA]), [PrintA]);
    ExecuteAllCons(Initial, DeclareA, [Block([AssignA]), PrintA]);
    assert [DeclareA] + [Block([AssignA]), PrintA] == [DeclareA, Block([AssignA]), PrintA];
  }

  /** The block `{ a = 2; }` runs and leaves the environment as it was. */
  lemma BlockOfAssignA(s1: State)
    requires s1 == State(Define(Global, NameA, Float(1.0)), [])
    ensures Execute(s1, Block([AssignA])) == Done(s1)
  {
    AssignAStep(s1);
    ExecuteAllCons(s1, AssignA, []);
    assert [AssignA] + [] == [AssignA];
  }

  /** `a = 2;` where `a` is 1 makes it 2. */
  lemma AssignAStep(s1: State)
    requires s1 == State(Define(Global, NameA, Float(1.0)), [])
    ensures Execute(s1, AssignA) == Done(State(Define(Global, NameA, Float(2.0)), []))
  {
    var v := Evaluate(s1.env, Literal(Float(2.0)));
    assert v == Ok((Float(2.0), s1.env));
  }

  /** `var a = 1; a = 2; print a;` prints 2. */
  lemma AssignmentOutsideBlockStays()
    ensures Interpret([DeclareA, AssignA, PrintA]) == Done(State(Define(Global, NameA, Float(2.0)), [Float(2.0)]))
  {
    var s1 := State(Define(Global, NameA, Float(1.0)), []);
    var s2 := State(Define(Global, NameA, Float(2.0)), []);
    assert Execute(Initial, DeclareA) == Done(s1);
    AssignAStep(s1);
    assert Execute(s2, PrintA) == Done(s2.(printed := [Float(2.0)]));
    ExecuteAllCons(s2, PrintA, []);
    assert [PrintA] + [] == [PrintA];
    ExecuteAllCons(s1, AssignA, [PrintA]);
    ExecuteAllCons(Initial, DeclareA, [AssignA, PrintA]);
    assert [DeclareA] + [AssignA, PrintA] == [DeclareA, AssignA, PrintA];
  }

  /** `var a; print a;` panics without printing: a declaration without
      initializer defines nothing, so `a` is undefined. */
  lemma DeclarationWithoutValueDefinesNothing()
    ensures Interpret([VarStmt(NameA, Literal(LiteralValue.None)), PrintA]) == Crashed([], UnwrapOnErr)
  {
    assert Execute(Initial, VarStmt(NameA, Literal(LiteralValue.None))) == Done(Initial);
    assert Evaluate(Global, Expr.Var(NameA)) == Err(RuntimeError(UndefinedVariable("a")));
    assert Execute(Initial, PrintA) == Crashed([], UnwrapOnErr);
    ExecuteAllCons(Initial, PrintA, []);
    ExecuteAllCons(Initial, VarStmt(NameA, Literal(LiteralValue.None)), [PrintA]);
  }

  /** `print 1; print -nil; print 2;` prints 1 and then panics: negating
      `nil` overflows the stack, and the last statement never runs. */
  lemma CrashKeepsEarlierOutput()
    ensures Interpret([PrintStmt(Literal(Float(1.0))), PrintStmt(Unary(MinusToken, Literal(LiteralValue.None))), PrintStmt(Literal(Float(2.0)))])
            == Crashed([Float(1.0)], StackOverflow)
  {
    var s1 := State(Global, [Float(1.0)]);
    var negate := PrintStmt(Unary(MinusToken, Literal(LiteralValue.None)));
    assert Execute(Initial, PrintStmt(Literal(Float(1.0)))) == Done(s1);
    assert Execute(s1, negate) == Crashed([Float(1.0)], StackOverflow);
    ExecuteAllCons(s1, negate, [PrintStmt(Literal(Float(2.0)))]);
    ExecuteAllCons(Initial, PrintStmt(Literal(Float(1.0))), [negate, PrintStmt(Literal(Float(2.0)))]);
  }
}
