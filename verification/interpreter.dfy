/** The tree-walking evaluator of src/interpreter.rs: literal values,
    operators on them, variables in the environment, and statements that
    print values, define variables and run blocks. */
module Interpreter {
  import opened Wrappers
  import opened Common
  import opened Environment

  const InvalidOperator: string := "Invalid operator"

  /** The panics of `i64` arithmetic in a build with overflow checks on,
      as in Cargo's debug profile. */
  const AddOverflow: string := "attempt to add with overflow"
  const SubtractOverflow: string := "attempt to subtract with overflow"
  const MultiplyOverflow: string := "attempt to multiply with overflow"
  const DivideByZero: string := "attempt to divide by zero"
  const DivideOverflow: string := "attempt to divide with overflow"
  const NegateOverflow: string := "attempt to negate with overflow"

  /** Where `f64` division by zero would give an infinity or NaN, which
      exact reals do not have. */
  const FloatDivisionByZero: string := "float division by zero: infinities and NaN are outside the model"

  /** `format!` of a `TokenType` calls its own `Display` without end: the
      stack overflows and the process aborts. */
  const StackOverflow: string := "thread 'main' has overflowed its stack"

  const I64Min: int := -0x8000_0000_0000_0000
  const I64Max: int := 0x7fff_ffff_ffff_ffff

  predicate InI64(i: int) {
    I64Min <= i <= I64Max
  }

  /** An `i64` result, or the panic of the operation that overflowed. */
  function CheckedI64(exact: int, overflow: string): (r: Outcome<LiteralValue, RuntimeError>)
    ensures r.Ok? <==> InI64(exact)
    ensures r.Ok? ==> r.value == Integer(exact)
    ensures r.Panic? ==> r.message == overflow
    ensures !r.Err?
  {
    if InI64(exact) then Ok(Integer(exact)) else Panic(overflow)
  }

  /** Rust's `/` on integers: the quotient rounded toward zero, so the
      remainder is smaller than the divisor and has the sign of the
      dividend (Dafny's own `/` rounds so that it is never negative). */
  function TruncatedDivision(a: int, b: int): (q: int)
    requires b != 0
    ensures Abs(a - q * b) < Abs(b)
    ensures a - q * b == 0 || (a - q * b < 0 <==> a < 0)
  {
    if (a >= 0) == (b > 0) then Abs(a) / Abs(b) else -(Abs(a) / Abs(b))
  }

  function Abs(a: int): nat {
    if a < 0 then -a else a
  }

  /** `is_truthy`: `nil`, `false`, integer zero, the empty string and
      float zero are false; every other value is true. */
  function IsTruthy(v: LiteralValue): (r: bool)
    ensures !r <==> v in {LiteralValue.None, Bool(false), Integer(0), Str(""), Float(0.0)}
  {
    match v
    case None => false
    case Bool(b) => b
    case Integer(i) => i != 0
    case Str(s) => s != ""
    case Float(x) => x != 0.0
  }

  /** `is_equal`: the `PartialEq` of values. */
  function IsEqual(a: LiteralValue, b: LiteralValue): (r: bool)
    ensures r <==> a == b
  {
    EqualsIsIdentity(a, b);
    Equals(a, b)
  }

  /** The arithmetic and comparison kinds `evaluate_binary` knows for a
      pair of numbers of the same kind. */
  predicate NumericOperator(op: TokenKind) {
    op in {Minus, Plus, Star, Slash, Greater, GreaterEqual, Less, LessEqual}
  }

  /** The operand pairs `evaluate_binary` gives a meaning to: two numbers
      of one kind with an arithmetic or comparison operator, two strings
      with `+`, and any pair with `==` or `!=`. */
  predicate Applicable(left: LiteralValue, op: TokenKind, right: LiteralValue) {
    || op == EqualEqual || op == BangEqual
    || (left.Float? && right.Float? && NumericOperator(op))
    || (left.Integer? && right.Integer? && NumericOperator(op))
    || (left.Str? && right.Str? && op == Plus)
  }

  /** `evaluate_binary`: its arms for two floats, for two integers and
      for two strings, then `!=` and `==` on any pair, then the "Invalid
      operator" error. The arms of one operand kind are gathered in
      `FloatBinary` and `IntegerBinary`; no two arms overlap, so their
      order does not matter. */
  function EvaluateBinary(left: LiteralValue, op: TokenKind, right: LiteralValue): (r: Outcome<LiteralValue, RuntimeError>)
    ensures r.Err? <==> !Applicable(left, op, right)
    ensures r.Err? ==> r.error == RuntimeError(InvalidOperator)
    ensures r.Panic? ==> left.Integer? || (op == Slash && right == Float(0.0))
    ensures r.Ok? && r.value.Integer? ==> InI64(r.value.i)
    ensures left.Integer? && right.Integer? && op == Plus ==> r == CheckedI64(left.i + right.i, AddOverflow)
    ensures left.Integer? && right.Integer? && op == Minus ==> r == CheckedI64(left.i - right.i, SubtractOverflow)
    ensures left.Integer? && right.Integer? && op == Star ==> r == CheckedI64(left.i * right.i, MultiplyOverflow)
    ensures left.Integer? && right.Integer? && op == Slash ==>
              r == if right.i == 0 then Panic(DivideByZero) else CheckedI64(TruncatedDivision(left.i, right.i), DivideOverflow)
    ensures left.Integer? && right.Integer? && op == Less ==> r == Ok(Bool(left.i < right.i))
    ensures left.Float? && right.Float? && op == Plus ==> r == Ok(Float(left.x + right.x))
    ensures left.Float? && right.Float? && op == Minus ==> r == Ok(Float(left.x - right.x))
    ensures left.Float? && right.Float? && op == Star ==> r.Ok? && r.value.Float? && r.value.x == left.x * right.x
    ensures left.Float? && right.Float? && op == Slash && right.x != 0.0 ==> r == Ok(Float(left.x / right.x))
    ensures left.Float? && right.Float? && op == Less ==> r == Ok(Bool(left.x < right.x))
    ensures left.Str? && right.Str? && op == Plus ==> r == Ok(Str(left.s + right.s))
  {
    if left.Float? && right.Float? && NumericOperator(op) then FloatBinary(left.x, op, right.x)
    else if left.Integer? && right.Integer? && NumericOperator(op) then IntegerBinary(left.i, op, right.i)
    else if left.Str? && right.Str? && op == Plus then Ok(Str(left.s + right.s))
    else if op == BangEqual then Ok(Bool(!IsEqual(left, right)))
    else if op == EqualEqual then Ok(Bool(IsEqual(left, right)))
    else Err(RuntimeError(InvalidOperator))
  }

  /** The arms of `evaluate_binary` for two floats. */
  function FloatBinary(a: real, op: TokenKind, b: real): (r: Outcome<LiteralValue, RuntimeError>)
    requires NumericOperator(op)
    ensures r.Panic? <==> op == Slash && b == 0.0
    ensures !r.Err?
  {
    match op
    case Minus => Ok(Float(a - b))
    case Plus => Ok(Float(a + b))
    case Star => Ok(Float(a * b))
    case Slash => if b == 0.0 then Panic(FloatDivisionByZero) else Ok(Float(a / b))
    case Greater => Ok(Bool(a > b))
    case GreaterEqual => Ok(Bool(a >= b))
    case Less => Ok(Bool(a < b))
    case LessEqual => Ok(Bool(a <= b))
  }

  /** The arms of `evaluate_binary` for two integers. */
  function IntegerBinary(a: int, op: TokenKind, b: int): (r: Outcome<LiteralValue, RuntimeError>)
    requires NumericOperator(op)
    ensures !r.Err?
    ensures r.Ok? && r.value.Integer? ==> InI64(r.value.i)
  {
    match op
    case Minus => CheckedI64(a - b, SubtractOverflow)
    case Plus => CheckedI64(a + b, AddOverflow)
    case Star => CheckedI64(a * b, MultiplyOverflow)
    case Slash => if b == 0 then Panic(DivideByZero) else CheckedI64(TruncatedDivision(a, b), DivideOverflow)
    case Greater => Ok(Bool(a > b))
    case GreaterEqual => Ok(Bool(a >= b))
    case Less => Ok(Bool(a < b))
    case LessEqual => Ok(Bool(a <= b))
  }

  /** `evaluate_unary`: `-` negates a number, `!` is the negated
      truthiness, and any other operator gives `nil`. Negating anything
      else would build its error message with the `TokenType` `Display`,
      which recurses without end. */
  function EvaluateUnary(op: TokenKind, operand: LiteralValue): (r: Outcome<LiteralValue, RuntimeError>)
    ensures !r.Err?
    ensures op == Bang ==> r == Ok(Bool(!IsTruthy(operand)))
    ensures op == Minus && operand.Float? ==> r == Ok(Float(-operand.x))
    ensures op == Minus && operand.Integer? ==> r == CheckedI64(-operand.i, NegateOverflow)
    ensures op == Minus && !operand.Float? && !operand.Integer? ==> r == Panic(StackOverflow)
    ensures op != Minus && op != Bang ==> r == Ok(LiteralValue.None)
  {
    match op
    case Minus =>
      (match operand
       case Float(x) => Ok(Float(-x))
       case Integer(i) => CheckedI64(-i, NegateOverflow)
       case _ => Panic(StackOverflow))
    case Bang => Ok(Bool(!IsTruthy(operand)))
    case _ => Ok(LiteralValue.None)
  }

  /** The expressions that contain no assignment. */
  predicate AssignmentFree(e: Expr) {
    match e
    case Binary(left, _, right) => AssignmentFree(left) && AssignmentFree(right)
    case Grouping(inner) => AssignmentFree(inner)
    case Literal(_) => true
    case Unary(_, operand) => AssignmentFree(operand)
    case Var(_) => true
    case Assign(_, _) => false
  }

  /** `evaluate`: the value of an expression and the environment after
      its assignments. The operands of binary and unary operators are
      unwrapped, so their errors panic; an assignment's error in its
      value is passed on, and the `assign` it calls is the one of
      src/environment.rs as written, whose own error is dropped. On `Err`
      the environment is not returned: every caller of `evaluate` turns
      an `Err` into a panic. */
  function Evaluate(env: Env, e: Expr): (r: Outcome<(LiteralValue, Env), RuntimeError>)
    ensures r.Ok? ==> Visible(r.value.1).Keys == Visible(env).Keys
    ensures r.Ok? ==> Depth(r.value.1) == Depth(env)
    ensures r.Ok? && AssignmentFree(e) ==> r.value.1 == env
    decreases e
  {
    match e
    case Binary(left, op, right) =>
      var l :- Unwrap(Evaluate(env, left));
      var r :- Unwrap(Evaluate(l.1, right));
      var v :- EvaluateBinary(l.0, op.kind, r.0);
      Ok((v, r.1))
    case Grouping(inner) => Evaluate(env, inner)
    case Literal(v) => Ok((v, env))
    case Unary(op, operand) =>
      var o :- Unwrap(Evaluate(env, operand));
      var v :- EvaluateUnary(op.kind, o.0);
      Ok((v, o.1))
    case Var(name) =>
      var v :- Get(env, name);
      Ok((v, env))
    case Assign(name, rhs) =>
      var v :- Evaluate(env, rhs);
      var stored := AssignAsWritten(v.1, name, v.0);
      Ok((v.0, if stored.Ok? then stored.value else v.1))
  }

  // ---------------------------------------------------------------------
  // Statements

  /** The interpreter: its environment and the values `print` has written
      so far, in order. */
  datatype State = State(env: Env, printed: seq<LiteralValue>)

  /** `Interpreter::default`. */
  const Initial: State := State(Global, [])

  /** How running statements ends: with the new state, or with a panic
      after the output printed before it. */
  datatype Run = Done(state: State) | Crashed(printed: seq<LiteralValue>, message: string)

  /** The output of a run, finished or not. */
  function Output(r: Run): seq<LiteralValue> {
    if r.Done? then r.state.printed else r.printed
  }

  /** `b` is `a` followed by more output. */
  predicate Extends(a: seq<LiteralValue>, b: seq<LiteralValue>) {
    |a| <= |b| && b[..|a|] == a
  }

  /** `execute`. `print` writes the value, an expression statement keeps
      only the assignments, `var` with the `nil` literal as initializer
      defines nothing, and a block runs in the current environment and
      then puts back the environment from before it. An evaluation error
      is unwrapped into a panic. */
  function Execute(s: State, stmt: Statement): (r: Run)
    ensures Extends(s.printed, Output(r))
    ensures r.Done? ==> Visible(s.env).Keys <= Visible(r.state.env).Keys
    ensures r.Done? ==> Depth(r.state.env) == Depth(s.env)
    ensures !stmt.Block? && r.Crashed? ==> r.printed == s.printed
    ensures !stmt.PrintStmt? && !stmt.Block? && r.Done? ==> r.state.printed == s.printed
    ensures stmt.PrintStmt? ==> (r.Done? <==> Evaluate(s.env, stmt.expr).Ok?)
    ensures stmt.PrintStmt? && r.Done? ==>
              r.state == State(Evaluate(s.env, stmt.expr).value.1, s.printed + [Evaluate(s.env, stmt.expr).value.0])
    ensures stmt.ExprStmt? ==> (r.Done? <==> Evaluate(s.env, stmt.expr).Ok?)
    ensures stmt.ExprStmt? && r.Done? ==> r.state.env == Evaluate(s.env, stmt.expr).value.1
    ensures stmt.VarStmt? && stmt.initializer == Literal(LiteralValue.None) ==> r == Done(s)
    ensures stmt.VarStmt? && stmt.initializer != Literal(LiteralValue.None) ==> (r.Done? <==> Evaluate(s.env, stmt.initializer).Ok?)
    ensures stmt.VarStmt? && stmt.initializer != Literal(LiteralValue.None) && r.Done? ==>
              Visible(r.state.env) == Visible(Evaluate(s.env, stmt.initializer).value.1)[stmt.name.lexeme := Evaluate(s.env, stmt.initializer).value.0]
    decreases stmt, 1
  {
    match stmt
    case PrintStmt(e) =>
      var v := Unwrap(Evaluate(s.env, e));
      if v.Ok? then Done(State(v.value.1, s.printed + [v.value.0])) else Crashed(s.printed, v.message)
    case ExprStmt(e) =>
      var v := Unwrap(Evaluate(s.env, e));
      if v.Ok? then Done(s.(env := v.value.1)) else Crashed(s.printed, v.message)
    case VarStmt(name, init) =>
      if init == Literal(LiteralValue.None) then Done(s)
      else
        var v := Unwrap(Evaluate(s.env, init));
        if v.Ok? then Done(s.(env := Define(v.value.1, name, v.value.0))) else Crashed(s.printed, v.message)
    case Block(body) => ExecuteBlock(s, body)
  }

  /** `execute_block`: the statements in order, then the environment from
      before the block again; what they printed stays printed. */
  function ExecuteBlock(s: State, body: seq<Statement>): (r: Run)
    ensures Extends(s.printed, Output(r))
    ensures r.Done? ==> r.state.env == s.env
    ensures Output(r) == Output(ExecuteAll(s, body))
    decreases body, 1
  {
    var run := ExecuteAll(s, body);
    if run.Done? then Done(s.(printed := run.state.printed)) else run
  }

  /** Statements one after another, stopping at the first panic; this is
      also `interpret`. */
  function ExecuteAll(s: State, body: seq<Statement>): (r: Run)
    ensures Extends(s.printed, Output(r))
    ensures r.Done? ==> Visible(s.env).Keys <= Visible(r.state.env).Keys
    ensures r.Done? ==> Depth(r.state.env) == Depth(s.env)
    decreases body, 0
  {
    if body == [] then Done(s)
    else
      var first := Execute(s, body[0]);
      if first.Done? then ExecuteAll(first.state, body[1..]) else first
  }

  /** `interpret` on a fresh interpreter. */
  function Interpret(program: seq<Statement>): (r: Run)
    ensures r.Done? ==> Depth(r.state.env) == 1 && r.state.env.enclosing.None?
  {
    ExecuteAll(Initial, program)
  }
}
