/** The recursive-descent parser of src/parser.rs: a cursor over a token
    list that ends with `EOF`, the expression ladder from assignment down to
    primary, and the statement rules. Diagnostics that the source prints
    are kept in the parser state instead. */
module Parsing {
  import opened Wrappers
  import opened Common

  /** `ParserError`: the token where a rule gave up, and why. */
  datatype ParseError = ParseError(token: Token, message: string)

  /** A rule's `Err`: the error and the parser state it leaves behind,
      which `parse` goes on from. */
  datatype Failure = Failure(error: ParseError, at: Parser)

  /** A line `report` would print: `[line N:LOCATION] Error: MESSAGE`. */
  datatype Diagnostic = Diagnostic(line: nat, location: string, message: string)

  const ExpectExpression: string := " Expect expression."
  const ExpectRightParen: string := "Expect ')' after expression."
  const ExpectSemicolon: string := "Expected ';' after print statement"
  const ExpectVariableName: string := "Expected variable name"
  const ExpectDeclarationEnd: string := "Expect ';' after variable declaration"
  const ExpectBlockEnd: string := "Expect '}' after block."
  const InvalidAssignmentTarget: string := "Invalid assignment target"

  /** `Parser`: the tokens, the cursor, and the diagnostics reported so far. */
  datatype Parser = Parser(tokens: seq<Token>, current: nat, reports: seq<Diagnostic>)

  /** What the source takes for granted: the token list ends with `EOF`. */
  predicate EndsWithEof(tokens: seq<Token>) {
    |tokens| > 0 && tokens[|tokens| - 1].kind == EOF
  }

  /** The cursor invariant: the tokens end with `EOF` and the cursor is on
      one of them. */
  predicate Valid(p: Parser) {
    EndsWithEof(p.tokens) && p.current < |p.tokens|
  }

  /** `q` is a later state of the same parse as `p`: same tokens, cursor not
      behind. */
  predicate Follows(p: Parser, q: Parser) {
    q.tokens == p.tokens && p.current <= q.current
  }

  /** `q` follows `p` and has consumed at least one token. */
  predicate Advanced(p: Parser, q: Parser) {
    Follows(p, q) && p.current < q.current
  }

  /** A rule's result: the value and the parser after it. */
  type Parsed<T> = Outcome<(T, Parser), Failure>

  /** `peek`. */
  function Peek(p: Parser): Token
    requires Valid(p)
  {
    p.tokens[p.current]
  }

  /** `is_at_end`. */
  predicate IsAtEnd(p: Parser)
    requires Valid(p)
  {
    Peek(p).kind == EOF
  }

  /** `check_type`: false on `EOF` even when asked for `EOF`. */
  function CheckType(p: Parser, kind: TokenKind): (r: bool)
    requires Valid(p)
    ensures r <==> kind != EOF && Peek(p).kind == kind
  {
    if IsAtEnd(p) then false else Peek(p).kind == kind
  }

  /** `previous`: the token before the cursor. Before the first token the
      index wraps to a huge `usize` and the `unwrap` panics. */
  function Previous(p: Parser): (r: Outcome<Token, ParseError>)
    requires p.current <= |p.tokens|
    ensures r.Ok? <==> p.current > 0
    ensures r.Ok? ==> r.value == p.tokens[p.current - 1]
    ensures r.Panic? ==> r.message == UnwrapOnNone
  {
    if p.current == 0 then Panic(UnwrapOnNone) else Ok(p.tokens[p.current - 1])
  }

  /** `advance`: moves the cursor by one unless it is on `EOF`, so it never
      passes `EOF`, and returns the token before the cursor. */
  function Advance(p: Parser): (r: Outcome<(Parser, Token), ParseError>)
    requires Valid(p)
    ensures !r.Err?
    ensures r.Ok? ==> Valid(r.value.0) && r.value.0.tokens == p.tokens && r.value.0.reports == p.reports
    ensures !IsAtEnd(p) ==> r.Ok? && r.value.0.current == p.current + 1 && r.value.1 == Peek(p)
    ensures IsAtEnd(p) ==> (r.Ok? <==> p.current > 0) && (r.Ok? ==> r.value.0 == p)
  {
    var q := if IsAtEnd(p) then p else p.(current := p.current + 1);
    var token :- Previous(q);
    Ok((q, token))
  }

  /** `match_type`: consumes exactly one token when the current token is
      not `EOF` and its kind is listed; otherwise the parser is unchanged.
      The rules call this one-step form; `MatchTypeIsLoop` shows it equal to
      the source's loop over the kinds, `MatchTypeLoop`. */
  function MatchType(p: Parser, kinds: seq<TokenKind>): (r: (bool, Parser))
    requires Valid(p)
    ensures Valid(r.1)
  {
    if !IsAtEnd(p) && Peek(p).kind in kinds then (true, p.(current := p.current + 1))
    else (false, p)
  }

  /** The source's loop: try each kind in order with `check`, and `advance`
      on the first that matches. */
  function MatchTypeLoop(p: Parser, kinds: seq<TokenKind>): (r: (bool, Parser))
    requires Valid(p)
  {
    if kinds == [] then (false, p)
    else if CheckType(p, kinds[0]) then (true, Advance(p).value.0)
    else MatchTypeLoop(p, kinds[1..])
  }

  /** The loop consumes exactly one token when the current token is not
      `EOF` and its kind is listed, and otherwise leaves the parser as it
      was: which is what the one-step `MatchType` does. */
  lemma {:induction false} MatchTypeIsLoop(p: Parser, kinds: seq<TokenKind>)
    requires Valid(p)
    ensures MatchTypeLoop(p, kinds) == MatchType(p, kinds)
    ensures MatchType(p, kinds).0 <==> !IsAtEnd(p) && Peek(p).kind in kinds
    ensures MatchType(p, kinds).0 ==> MatchType(p, kinds).1 == p.(current := p.current + 1)
    ensures !MatchType(p, kinds).0 ==> MatchType(p, kinds).1 == p
  {
    if kinds != [] && !CheckType(p, kinds[0]) {
      MatchTypeIsLoop(p, kinds[1..]);
      assert kinds == [kinds[0]] + kinds[1..];
    }
  }

  /** `consume`: the expected token and the parser after it, or an error
      at the current token. */
  function Consume(p: Parser, kind: TokenKind, message: string): (r: Parsed<Token>)
    requires Valid(p)
    ensures !r.Panic?
    ensures r.Ok? <==> CheckType(p, kind)
    ensures r.Ok? ==> r.value.0 == Peek(p) && r.value.1 == p.(current := p.current + 1) && Valid(r.value.1)
    ensures r.Err? ==> r.error == Failure(ParseError(Peek(p), message), p)
  {
    if CheckType(p, kind) then
      var (q, token) := Advance(p).value;
      Ok((token, q))
    else
      Err(Failure(ParseError(Peek(p), message), p))
  }

  /** `let _ = self.consume(..)`: the token is skipped when present, and a
      missing one goes unnoticed. */
  function Skip(p: Parser, kind: TokenKind, message: string): (q: Parser)
    requires Valid(p)
    ensures Valid(q) && Follows(p, q)
    ensures q.current == if CheckType(p, kind) then p.current + 1 else p.current
  {
    var c := Consume(p, kind, message);
    if c.Ok? then c.value.1 else p
  }

  /** `error`: the diagnostic for a token; at `EOF` it says "at end". */
  function ErrorAt(token: Token, message: string): (d: Diagnostic)
    ensures d.line == token.line
    ensures token.kind == EOF ==> d.location == " at end" && d.message == message
    ensures token.kind != EOF ==> d.location == " at '" && d.message == token.lexeme + message
  {
    if token.kind == EOF then Diagnostic(token.line, " at end", message)
    else Diagnostic(token.line, " at '", token.lexeme + message)
  }

  // ---------------------------------------------------------------------
  // Precedence

  /** The operator kinds of the five left-associative levels: `== !=`,
      comparison, `& |`, `+ -`, `* /`. */
  function Operators(level: nat): seq<TokenKind>
    requires level < 5
  {
    match level
    case 0 => [BangEqual, EqualEqual]
    case 1 => [Greater, GreaterEqual, Less, LessEqual]
    case 2 => [BitwiseAnd, BitwiseOr]
    case 3 => [Minus, Plus]
    case _ => [Slash, Star]
  }

  /** How tightly an operator binds as a binary operator: 1 to 5 for the
      five levels, 0 for a kind that is not a binary operator. Assignment
      is tier 0, unary operators tier 6 and primaries tier 7. */
  function BinaryTier(kind: TokenKind): (t: nat)
    ensures t <= 5
  {
    match kind
    case BangEqual => 1
    case EqualEqual => 1
    case Greater => 2
    case GreaterEqual => 2
    case Less => 2
    case LessEqual => 2
    case BitwiseAnd => 3
    case BitwiseOr => 3
    case Minus => 4
    case Plus => 4
    case Slash => 5
    case Star => 5
    case _ => 0
  }

  /** The tiers agree with the operator lists of the levels. */
  lemma TiersMatchLevels(kind: TokenKind, level: nat)
    requires level < 5
    ensures kind in Operators(level) <==> BinaryTier(kind) == level + 1
  {
  }

  /** The trees the grammar can produce when a rule of tier `tier` is
      asked for: a binary node of tier `m` only where `m >= tier`, with a
      left operand of the same tier (left associativity) and a right
      operand strictly tighter; unary operators over unary operands;
      assignments only at tier 0 and with an assignment on the right;
      anything inside parentheses. */
  predicate Shaped(e: Expr, tier: nat) {
    match e
    case Assign(_, rhs) => tier == 0 && Shaped(rhs, 0)
    case Binary(left, op, right) =>
      var m := BinaryTier(op.kind);
      && 1 <= m && tier <= m
      && Shaped(left, m) && Shaped(right, m + 1)
    case Unary(op, operand) =>
      && (op.kind == Bang || op.kind == Minus)
      && tier <= 6 && Shaped(operand, 6)
    case Grouping(inner) => Shaped(inner, 0)
    case Literal(_) => true
    case Var(name) => name.kind == Identifier
  }

  // ---------------------------------------------------------------------
  // Expressions

  /** `expression`. */
  function Expression(p: Parser): (r: Parsed<Expr>)
    requires Valid(p)
    ensures !r.Err?
    ensures r.Ok? ==> Valid(r.value.1)
    ensures r.Ok? ==> Advanced(p, r.value.1)
    ensures r.Ok? ==> Shaped(r.value.0, 0)
    decreases |p.tokens| - p.current, 20
  {
    Assignment(p)
  }

  /** `assignment`: an equality, and when `=` follows, a right-recursive
      assignment. Only a variable is a target; any other left side is
      reported and returned as it is, the right side parsed and dropped. */
  function Assignment(p: Parser): (r: Parsed<Expr>)
    requires Valid(p)
    ensures !r.Err?
    ensures r.Ok? ==> Valid(r.value.1)
    ensures r.Ok? ==> Advanced(p, r.value.1)
    ensures r.Ok? ==> Shaped(r.value.0, 0)
    decreases |p.tokens| - p.current, 19
  {
    var left :- Unwrap(BinaryRule(0, p));
    AssignmentTail(left.0, left.1)
  }

  /** The rest of `assignment` once its left side `left` is parsed and the
      parser is at `p`. */
  function AssignmentTail(left: Expr, p: Parser): (r: Parsed<Expr>)
    requires Valid(p) && Shaped(left, 1)
    ensures !r.Err?
    ensures r.Ok? ==> Valid(r.value.1)
    ensures r.Ok? ==> Follows(p, r.value.1)
    ensures r.Ok? ==> Shaped(r.value.0, 0)
    decreases |p.tokens| - p.current, 18
  {
    var (matched, p1) := MatchType(p, [Equal]);
    if !matched then Ok((left, p))
    else
      var operator := Previous(p1).value;
      var value :- Unwrap(Assignment(p1));
      if left.Var? then Ok((Assign(left.name, value.0), value.1))
      else Ok((left, value.1.(reports := value.1.reports + [ErrorAt(operator, InvalidAssignmentTarget)])))
  }

  /** `equality`, `comparison`, `bitwise`, `term` and `factor`: one operand,
      then any number of operator-operand pairs of the level, folded to the
      left. */
  function BinaryRule(level: nat, p: Parser): (r: Parsed<Expr>)
    requires level < 5 && Valid(p)
    ensures r.Err? ==> Valid(r.error.at)
    ensures r.Ok? ==> Valid(r.value.1)
    ensures r.Ok? ==> Advanced(p, r.value.1)
    ensures r.Ok? ==> Shaped(r.value.0, level + 1)
    decreases |p.tokens| - p.current, 2 * (5 - level) + 4
  {
    var left :- Operand(level, p);
    BinaryRuleLoop(level, left.0, left.1)
  }

  /** The next rule down from a level: the next level, or `unary`. */
  function Operand(level: nat, p: Parser): (r: Parsed<Expr>)
    requires level < 5 && Valid(p)
    ensures r.Err? ==> Valid(r.error.at)
    ensures r.Ok? ==> Valid(r.value.1)
    ensures r.Ok? ==> Advanced(p, r.value.1)
    ensures r.Ok? ==> Shaped(r.value.0, level + 2)
    decreases |p.tokens| - p.current, 2 * (5 - level) + 3
  {
    if level < 4 then BinaryRule(level + 1, p) else Unary(p)
  }

  /** The `while self.match_type(..)` loop of a binary level. */
  function BinaryRuleLoop(level: nat, left: Expr, p: Parser): (r: Parsed<Expr>)
    requires level < 5 && Valid(p) && Shaped(left, level + 1)
    ensures r.Err? ==> Valid(r.error.at)
    ensures r.Ok? ==> Valid(r.value.1)
    ensures r.Ok? ==> Follows(p, r.value.1)
    ensures r.Ok? ==> Shaped(r.value.0, level + 1)
    decreases |p.tokens| - p.current, 1
  {
    var (matched, p1) := MatchType(p, Operators(level));
    if !matched then Ok((left, p))
    else
      var operator := Previous(p1).value;
      TiersMatchLevels(operator.kind, level);
      var right :- Operand(level, p1);
      var folded := Expr.Binary(left, operator, right.0);
      assert Shaped(folded, level + 1);
      BinaryRuleLoop(level, folded, right.1)
  }

  /** `unary`: `!` or `-` before a unary, right-recursively, or a primary. */
  function Unary(p: Parser): (r: Parsed<Expr>)
    requires Valid(p)
    ensures r.Err? ==> Valid(r.error.at)
    ensures r.Ok? ==> Valid(r.value.1)
    ensures r.Ok? ==> Advanced(p, r.value.1)
    ensures r.Ok? ==> Shaped(r.value.0, 6)
    decreases |p.tokens| - p.current, 4
  {
    var (matched, p1) := MatchType(p, [Bang, Minus]);
    if matched then
      var operator := Previous(p1).value;
      assert operator.kind == Bang || operator.kind == Minus;
      var right :- Unary(p1);
      Ok((Expr.Unary(operator, right.0), right.1))
    else
      var r := Primary(p);
      if r.Ok? then PrimaryShaped(r.value.0); r else r
  }

  /** A primary is not a binary, prefix or assignment expression, so it
      fits under a prefix operator. */
  lemma PrimaryShaped(e: Expr)
    requires Shaped(e, 7)
    ensures Shaped(e, 6)
  {
  }

  /** `primary`: a literal, a parenthesised expression or a variable. */
  function Primary(p: Parser): (r: Parsed<Expr>)
    requires Valid(p)
    ensures r.Err? ==> Valid(r.error.at)
    ensures r.Ok? ==> Valid(r.value.1)
    ensures r.Ok? ==> Advanced(p, r.value.1)
    ensures r.Ok? ==> Shaped(r.value.0, 7)
    decreases |p.tokens| - p.current, 3
  {
    var literal := LiteralPrimary(p);
    if literal.Some? then Ok(literal.value) else GroupOrName(p)
  }

  /** The other alternatives of `primary`: `( expression )`, where a
      failing expression panics and a missing `)` is an error, or a
      variable; anything else is "Expect expression.". */
  function GroupOrName(p: Parser): (r: Parsed<Expr>)
    requires Valid(p)
    ensures r.Err? ==> Valid(r.error.at)
    ensures r.Ok? ==> Valid(r.value.1)
    ensures r.Ok? ==> Advanced(p, r.value.1)
    ensures r.Ok? ==> Shaped(r.value.0, 7)
    ensures r.Err? ==> r.error.error.message in {ExpectRightParen, ExpectExpression}
    decreases |p.tokens| - p.current, 2
  {
    var (isGroup, p1) := MatchType(p, [LeftParen]);
    if isGroup then Group(p1)
    else
    var (isName, p2) := MatchType(p, [Identifier]);
    if isName then Ok((Expr.Var(Previous(p2).value), p2))
    else Err(Failure(ParseError(Peek(p), ExpectExpression), p))
  }

  /** The group alternative after its `(`: an expression, whose failure
      panics, and the `)` that must follow it. */
  function Group(p: Parser): (r: Parsed<Expr>)
    requires Valid(p)
    ensures r.Err? ==> Valid(r.error.at) && r.error.error.message == ExpectRightParen
    ensures r.Ok? ==> Valid(r.value.1)
    ensures r.Ok? ==> Advanced(p, r.value.1)
    ensures r.Ok? ==> r.value.0.Grouping?
    ensures r.Ok? ==> Shaped(r.value.0, 7)
    decreases |p.tokens| - p.current, 21
  {
    var inner :- Unwrap(Expression(p));
    var close :- Consume(inner.1, RightParen, ExpectRightParen);
    Ok((Grouping(inner.0), close.1))
  }

  /** The token kinds `primary` reads as a literal. */
  const LiteralKinds: set<TokenKind> := {Number, TokenKind.String, True, False, Nil}

  /** The literal alternatives of `primary`: a number or string token's
      value, `true`, `false` or `nil`, each one token long. */
  function LiteralPrimary(p: Parser): (r: Option<(Expr, Parser)>)
    requires Valid(p)
    ensures r.Some? <==> Peek(p).kind in LiteralKinds
    ensures r.Some? ==> !IsAtEnd(p) && Valid(r.value.1)
    ensures r.Some? ==> r.value.0.Literal? && r.value.1 == p.(current := p.current + 1)
  {
    var (isValue, p1) := MatchType(p, [Number, TokenKind.String]);
    if isValue then Some((Literal(Previous(p1).value.literal), p1))
    else
    var (isTrue, p2) := MatchType(p, [True]);
    if isTrue then Some((Literal(Bool(true)), p2))
    else
    var (isFalse, p3) := MatchType(p, [False]);
    if isFalse then Some((Literal(Bool(false)), p3))
    else
    var (isNil, p4) := MatchType(p, [Nil]);
    if isNil then Some((Literal(LiteralValue.None), p4))
    else Option.None
  }

  // ---------------------------------------------------------------------
  // Statements

  /** Statements whose expressions are all `Shaped` at tier 0 and whose
      variable names are identifiers. */
  predicate ShapedStatement(s: Statement) {
    match s
    case PrintStmt(e) => Shaped(e, 0)
    case ExprStmt(e) => Shaped(e, 0)
    case VarStmt(name, init) => name.kind == Identifier && Shaped(init, 0)
    case Block(body) => forall i :: 0 <= i < |body| ==> ShapedStatement(body[i])
  }

  /** A statement in front of a list of statements, all shaped. */
  function Prepend(first: Statement, rest: seq<Statement>): (r: seq<Statement>)
    requires ShapedStatement(first)
    requires forall i :: 0 <= i < |rest| ==> ShapedStatement(rest[i])
    ensures r == [first] + rest
    ensures forall i :: 0 <= i < |r| ==> ShapedStatement(r[i])
  {
    [first] + rest
  }

  /** `print_statement`, after the `print` keyword. */
  function PrintStatement(p: Parser): (r: Parsed<Statement>)
    requires Valid(p)
    ensures r.Err? ==> r.error.error.message == ExpectSemicolon
    ensures r.Err? ==> Valid(r.error.at)
    ensures r.Ok? ==> Valid(r.value.1)
    ensures r.Ok? ==> Advanced(p, r.value.1)
    ensures r.Ok? ==> r.value.0.PrintStmt?
    ensures r.Ok? ==> ShapedStatement(r.value.0)
  {
    var e :- Expression(p);
    var semicolon :- Consume(e.1, Semicolon, ExpectSemicolon);
    Ok((PrintStmt(e.0), semicolon.1))
  }

  /** `expression_statement`. */
  function ExpressionStatement(p: Parser): (r: Parsed<Statement>)
    requires Valid(p)
    ensures r.Err? ==> r.error.error.message == ExpectSemicolon
    ensures r.Err? ==> Valid(r.error.at)
    ensures r.Ok? ==> Valid(r.value.1)
    ensures r.Ok? ==> Advanced(p, r.value.1)
    ensures r.Ok? ==> r.value.0.ExprStmt?
    ensures r.Ok? ==> ShapedStatement(r.value.0)
  {
    var e :- Expression(p);
    var semicolon :- Consume(e.1, Semicolon, ExpectSemicolon);
    Ok((ExprStmt(e.0), semicolon.1))
  }

  /** `var_declaration`, after the `var` keyword: a name (its absence
      panics), an optional `= expression` (nil when absent), and a `;`
      that is skipped when present and not required. */
  function VarDeclaration(p: Parser): (r: Parsed<Statement>)
    requires Valid(p)
    ensures !r.Err?
    ensures r.Ok? ==> Valid(r.value.1)
    ensures r.Ok? ==> Advanced(p, r.value.1)
    ensures r.Ok? ==> r.value.0.VarStmt?
    ensures r.Ok? ==> ShapedStatement(r.value.0)
  {
    var name :- Unwrap(Consume(p, Identifier, ExpectVariableName));
    var init :- Initializer(name.1);
    Ok((VarStmt(name.0, init.0), Skip(init.1, Semicolon, ExpectDeclarationEnd)))
  }

  /** The optional `= expression` of a declaration; nil when absent. */
  function Initializer(p: Parser): (r: Parsed<Expr>)
    requires Valid(p)
    ensures !r.Err?
    ensures r.Ok? ==> Valid(r.value.1)
    ensures r.Ok? ==> Follows(p, r.value.1)
    ensures r.Ok? ==> Shaped(r.value.0, 0)
  {
    var (hasInit, p1) := MatchType(p, [Equal]);
    if hasInit then Unwrap(Expression(p1)) else Ok((Literal(LiteralValue.None), p))
  }

  /** `declaration`. */
  function Declaration(p: Parser): (r: Parsed<Statement>)
    requires Valid(p)
    ensures r.Err? ==> r.error.error.message == ExpectSemicolon
    ensures r.Err? ==> Valid(r.error.at)
    ensures r.Ok? ==> Valid(r.value.1)
    ensures r.Ok? ==> Advanced(p, r.value.1)
    ensures r.Ok? ==> ShapedStatement(r.value.0)
    decreases |p.tokens| - p.current, 1
  {
    var (isVar, p1) := MatchType(p, [TokenKind.Var]);
    if isVar then VarDeclaration(p1) else Statement(p)
  }

  /** `statement`. */
  function Statement(p: Parser): (r: Parsed<Statement>)
    requires Valid(p)
    ensures r.Err? ==> r.error.error.message == ExpectSemicolon
    ensures r.Err? ==> Valid(r.error.at)
    ensures r.Ok? ==> Valid(r.value.1)
    ensures r.Ok? ==> Advanced(p, r.value.1)
    ensures r.Ok? ==> ShapedStatement(r.value.0)
    decreases |p.tokens| - p.current, 0
  {
    var (isPrint, p1) := MatchType(p, [Print]);
    if isPrint then PrintStatement(p1)
    else
    var (isBlock, p2) := MatchType(p, [LeftBrace]);
    if isBlock then BlockStatement(p2)
    else ExpressionStatement(p)
  }

  /** `block_statement`, after the `{`: declarations up to a `}`, then a
      second `}` skipped if present. A declaration error panics. */
  function BlockStatement(p: Parser): (r: Parsed<Statement>)
    requires Valid(p)
    ensures !r.Err?
    ensures r.Ok? ==> Valid(r.value.1)
    ensures r.Ok? ==> Advanced(p, r.value.1)
    ensures r.Ok? ==> r.value.0.Block?
    ensures r.Ok? ==> ShapedStatement(r.value.0)
    decreases |p.tokens| - p.current, 3
  {
    var body :- BlockBody(p);
    Ok((Block(body.0), Skip(body.1, RightBrace, ExpectBlockEnd)))
  }

  /** The `while !self.match_type(RightBrace)` loop of a block. */
  function BlockBody(p: Parser): (r: Parsed<seq<Statement>>)
    requires Valid(p)
    ensures !r.Err?
    ensures r.Ok? ==> Valid(r.value.1)
    ensures r.Ok? ==> Advanced(p, r.value.1)
    ensures r.Ok? ==> forall i :: 0 <= i < |r.value.0| ==> ShapedStatement(r.value.0[i])
    decreases |p.tokens| - p.current, 2
  {
    var (closed, p1) := MatchType(p, [RightBrace]);
    if closed then Ok(([], p1))
    else
      var first :- Unwrap(Declaration(p));
      var rest :- BlockBody(first.1);
      Ok((Prepend(first.0, rest.0), rest.1))
  }

  /** `parse`: declarations until `EOF`, and the diagnostics reported on
      the way. On the first error it reports the error, resynchronises and
      gives up with a single `nil;` statement in place of the program. */
  function Parse(tokens: seq<Token>): (r: Outcome<(seq<Statement>, seq<Diagnostic>), Failure>)
    requires EndsWithEof(tokens)
    ensures !r.Err?
    ensures r.Ok? ==> forall i :: 0 <= i < |r.value.0| ==> ShapedStatement(r.value.0[i])
  {
    var run := Declarations(Parser(tokens, 0, []));
    if run.Ok? then Ok((run.value.0, run.value.1.reports))
    else if run.Err? then Recover(run.error)
    else Panic(run.message)
  }

  /** The error path of `parse`: report the error, resynchronise, and
      return a single `nil;` statement. */
  function Recover(failure: Failure): (r: Outcome<(seq<Statement>, seq<Diagnostic>), Failure>)
    requires Valid(failure.at)
    ensures !r.Err?
    ensures r.Ok? ==> r.value == ([ExprStmt(Literal(LiteralValue.None))],
                                  failure.at.reports + [ErrorAt(failure.error.token, failure.error.message)])
    ensures r.Panic? <==> IsAtEnd(failure.at) && failure.at.current == 0
    ensures r.Ok? ==> forall i :: 0 <= i < |r.value.0| ==> ShapedStatement(r.value.0[i])
  {
    var reported := failure.at.(reports := failure.at.reports + [ErrorAt(failure.error.token, failure.error.message)]);
    var resumed := Synchronize(reported);
    if resumed.Ok? then Ok(([ExprStmt(Literal(LiteralValue.None))], resumed.value.reports))
    else Panic(resumed.message)
  }

  /** The keywords `synchronize` stops in front of. */
  const StatementStarts: seq<TokenKind> := [Class, Fun, TokenKind.Var, For, If, While, Print, Return]

  /** `synchronize` as evidently intended: skip the failing token, then
      tokens up to just after a `;` or just before a statement keyword, or
      up to `EOF`. It only moves the cursor. */
  function Synchronize(p: Parser): (r: Outcome<Parser, ParseError>)
    requires Valid(p)
    ensures !r.Err?
    ensures r.Panic? <==> IsAtEnd(p) && p.current == 0
    ensures r.Ok? ==> Valid(r.value) && Follows(p, r.value) && r.value.reports == p.reports
    ensures r.Ok? ==> r.value.current > 0 && SyncPoint(r.value)
  {
    var (q, _) :- Advance(p);
    Ok(SyncLoop(q))
  }

  /** Where resynchronisation stops: at `EOF`, after a `;`, or before a
      statement keyword. */
  predicate SyncPoint(p: Parser)
    requires Valid(p) && p.current > 0
  {
    IsAtEnd(p) || p.tokens[p.current - 1].kind == Semicolon || Peek(p).kind in StatementStarts
  }

  /** The resynchronisation loop, advancing one token per round. */
  function SyncLoop(p: Parser): (r: Parser)
    requires Valid(p) && p.current > 0
    ensures Valid(r) && Follows(p, r) && r.reports == p.reports
    ensures r.current > 0 && SyncPoint(r)
    ensures forall i :: p.current <= i < r.current ==> !SyncPoint(p.(current := i))
    decreases |p.tokens| - p.current
  {
    if SyncPoint(p) then p
    else SyncLoop(p.(current := p.current + 1))
  }

  /** What `synchronize` as written in src/parser.rs does. */
  datatype SyncRun = Resumed(at: Parser) | Hangs | Crashes(message: string)

  /** `synchronize` as written: its loop never advances, so unless the
      first `advance` lands on `EOF` or just after a `;`, it spins forever. */
  function SynchronizeAsWritten(p: Parser): (r: SyncRun)
    requires Valid(p)
    ensures r.Crashes? <==> IsAtEnd(p) && p.current == 0
    ensures r.Hangs? <==> !IsAtEnd(p) && p.tokens[p.current].kind != Semicolon && p.tokens[p.current + 1].kind != EOF
  {
    var first := Advance(p);
    if first.Panic? then Crashes(first.message)
    else
      var q := first.value.0;
      if !IsAtEnd(q) then
        if Previous(q).value.kind == Semicolon then Resumed(q) else Hangs
      else
        Resumed(Advance(q).value.0)
  }

  /** The `while !self.is_at_end()` loop of `parse`: declarations up to
      `EOF`, which is left unconsumed. */
  function Declarations(p: Parser): (r: Parsed<seq<Statement>>)
    requires Valid(p)
    ensures r.Err? ==> r.error.error.message == ExpectSemicolon
    ensures r.Err? ==> Valid(r.error.at)
    ensures r.Ok? ==> Valid(r.value.1)
    ensures r.Ok? ==> Follows(p, r.value.1) && IsAtEnd(r.value.1)
    ensures r.Ok? ==> forall i :: 0 <= i < |r.value.0| ==> ShapedStatement(r.value.0[i])
    decreases |p.tokens| - p.current
  {
    if IsAtEnd(p) then Ok(([], p))
    else
      var first := Declaration(p);
      if first.Err? then Err(first.error)
      else if first.Panic? then Panic(first.message)
      else
        var rest := Declarations(first.value.1);
        if !rest.Ok? then rest
        else Ok((Prepend(first.value.0, rest.value.0), rest.value.1))
  }
}
