/** Properties of the statement rules of the parser model and of `parse`:
    empty programs, blocks, declarations without initializer or name,
    missing semicolons, and recovery after an error. */
module StatementFacts {
  import opened Wrappers
  import opened Common
  import opened Parsing
  import opened ParserFacts

  /** A program that is only `EOF` has no statements and no diagnostics. */
  lemma EmptyProgram(tokens: seq<Token>)
    requires |tokens| == 1 && tokens[0].kind == EOF
    ensures Parse(tokens) == Ok(([], []))
  {
    assert Declarations(Parser(tokens, 0, [])) == Ok(([], Parser(tokens, 0, [])));
  }

  /** `{ }` is an empty block, and a second `}` right after it is
      swallowed too: the loop consumes the first `}` and the trailing
      `consume` the second. */
  lemma EmptyBlock(p: Parser)
    requires Valid(p) && Peek(p).kind == RightBrace
    ensures var r := BlockStatement(p);
            && r.Ok? && r.value.0 == Block([])
            && r.value.1.current == if p.tokens[p.current + 1].kind == RightBrace then p.current + 2 else p.current + 1
  {
    var p1 := p.(current := p.current + 1);
    MatchOne(p, RightBrace);
    assert BlockBody(p) == Ok(([], p1));
  }

  /** At `EOF` a declaration panics: it is an expression statement whose
      expression has no operand. */
  lemma DeclarationPanicsAtEnd(p: Parser)
    requires Valid(p) && IsAtEnd(p)
    ensures Declaration(p) == Panic(UnwrapOnErr)
  {
    MissOne(p, TokenKind.Var);
    MissOne(p, Print);
    MissOne(p, LeftBrace);
    MissingOperandPanics(p);
  }

  /** A block that reaches `EOF` before its `}` panics. */
  lemma UnclosedBlockPanics(p: Parser)
    requires Valid(p) && IsAtEnd(p)
    ensures BlockStatement(p) == Panic(UnwrapOnErr)
  {
    MissOne(p, RightBrace);
    DeclarationPanicsAtEnd(p);
    assert BlockBody(p) == Panic(UnwrapOnErr);
  }

  /** `var NAME` with no `=` declares `NAME` as nil; the `;` after it is
      skipped when present and not required. */
  lemma DeclarationWithoutInitializer(p: Parser)
    requires Valid(p) && Peek(p).kind == Identifier && p.tokens[p.current + 1].kind != Equal
    ensures var r := VarDeclaration(p);
            && r.Ok? && r.value.0 == VarStmt(Peek(p), Literal(LiteralValue.None))
            && r.value.1.current == if p.tokens[p.current + 1].kind == Semicolon then p.current + 2 else p.current + 1
  {
    var p1 := p.(current := p.current + 1);
    assert Consume(p, Identifier, ExpectVariableName) == Ok((Peek(p), p1));
    MissOne(p1, Equal);
    assert Initializer(p1) == Ok((Literal(LiteralValue.None), p1));
  }

  /** `var` not followed by a name panics. */
  lemma DeclarationWithoutNamePanics(p: Parser)
    requires Valid(p) && Peek(p).kind != Identifier
    ensures VarDeclaration(p) == Panic(UnwrapOnErr)
  {
  }

  /** An expression statement without its `;` is the error "Expected ';'
      after print statement" at the token found instead, and the parser
      stays there. */
  lemma MissingSemicolon(p: Parser, e: Expr, q: Parser)
    requires Valid(p) && Valid(q) && Expression(p) == Ok((e, q)) && Peek(q).kind != Semicolon
    ensures ExpressionStatement(p) == Err(Failure(ParseError(Peek(q), ExpectSemicolon), q))
    ensures PrintStatement(p) == Err(Failure(ParseError(Peek(q), ExpectSemicolon), q))
  {
  }

  /** An expression followed by `;` is a statement: a print statement
      after `print`, an expression statement otherwise, with the `;`
      consumed. With `MissingSemicolon`, a statement is read exactly when
      its expression is followed by `;`. */
  lemma StatementWithSemicolon(p: Parser, e: Expr, q: Parser)
    requires Valid(p) && Valid(q) && Expression(p) == Ok((e, q)) && Peek(q).kind == Semicolon
    ensures PrintStatement(p) == Ok((PrintStmt(e), q.(current := q.current + 1)))
    ensures ExpressionStatement(p) == Ok((ExprStmt(e), q.(current := q.current + 1)))
  {
    SemicolonFollows(q);
  }

  lemma SemicolonFollows(q: Parser)
    requires Valid(q) && Peek(q).kind == Semicolon
    ensures Consume(q, Semicolon, ExpectSemicolon) == Ok((Peek(q), q.(current := q.current + 1)))
  {
  }

  /** A declaration that starts with `print` is the print statement after
      the keyword. */
  lemma PrintKeyword(p: Parser)
    requires Valid(p) && Peek(p).kind == Print
    ensures Valid(p.(current := p.current + 1))
    ensures Declaration(p) == PrintStatement(p.(current := p.current + 1))
  {
    MissOne(p, TokenKind.Var);
    MatchOne(p, Print);
  }

  /** A declaration that starts with `var` is the variable declaration
      after the keyword. */
  lemma VarKeyword(p: Parser)
    requires Valid(p) && Peek(p).kind == TokenKind.Var
    ensures Valid(p.(current := p.current + 1))
    ensures Declaration(p) == VarDeclaration(p.(current := p.current + 1))
  {
    MatchOne(p, TokenKind.Var);
  }

  /** `var NAME = EXPR` declares `NAME` as `EXPR`; the `;` after it is
      skipped when present and not required. */
  lemma DeclarationWithInitializer(p: Parser, e: Expr, q: Parser)
    requires Valid(p) && Peek(p).kind == Identifier && p.tokens[p.current + 1].kind == Equal
    requires Valid(p.(current := p.current + 2)) && Expression(p.(current := p.current + 2)) == Ok((e, q))
    ensures var r := VarDeclaration(p);
            && r.Ok? && r.value.0 == VarStmt(Peek(p), e)
            && r.value.1 == if Peek(q).kind == Semicolon then q.(current := q.current + 1) else q
  {
    var p1 := p.(current := p.current + 1);
    assert Consume(p, Identifier, ExpectVariableName) == Ok((Peek(p), p1));
    MatchOne(p1, Equal);
    assert Initializer(p1) == Ok((e, q));
  }

  /** `var NAME = EXPR` whose expression panics panics the same way. */
  lemma DeclarationWithFailingInitializer(p: Parser)
    requires Valid(p) && Peek(p).kind == Identifier && p.tokens[p.current + 1].kind == Equal
    requires Valid(p.(current := p.current + 2)) && Expression(p.(current := p.current + 2)).Panic?
    ensures VarDeclaration(p) == Panic(Expression(p.(current := p.current + 2)).message)
  {
    var p1 := p.(current := p.current + 1);
    assert Consume(p, Identifier, ExpectVariableName) == Ok((Peek(p), p1));
    MatchOne(p1, Equal);
  }

  /** A declaration in front of the program after it. */
  lemma DeclarationsCons(p: Parser, s: Statement, q: Parser, rest: seq<Statement>, r: Parser)
    requires Valid(p) && !IsAtEnd(p) && Declaration(p) == Ok((s, q))
    requires Valid(q) && Declarations(q) == Ok((rest, r))
    ensures Declarations(p) == Ok(([s] + rest, r))
  {
  }

  /** `ps` are the parser states before each of the declarations `stmts`
      and after the last one, which is at `EOF`: each declaration is read
      from where the one before it ended. */
  predicate ReadInOrder(ps: seq<Parser>, stmts: seq<Statement>)
    decreases |stmts|
  {
    && |ps| == |stmts| + 1 && Valid(ps[0])
    && if stmts == [] then IsAtEnd(ps[0])
       else !IsAtEnd(ps[0]) && Declaration(ps[0]) == Ok((stmts[0], ps[1])) && ReadInOrder(ps[1..], stmts[1..])
  }

  /** Declarations read one after another up to `EOF` are the program
      `Declarations` returns, in the order they were read. */
  lemma {:induction false} DeclarationsInOrder(ps: seq<Parser>, stmts: seq<Statement>)
    requires ReadInOrder(ps, stmts)
    ensures Declarations(ps[0]) == Ok((stmts, ps[|stmts|]))
    decreases |stmts|
  {
    if stmts == [] {
      DeclarationsAtEnd(ps[0]);
    } else {
      ReadStep(ps, stmts);
      DeclarationsInOrder(ps[1..], stmts[1..]);
      DeclarationsCons(ps[0], stmts[0], ps[1], stmts[1..], ps[|stmts|]);
    }
  }

  /** The first declaration of a run, and the rest of the run. */
  lemma ReadStep(ps: seq<Parser>, stmts: seq<Statement>)
    requires ReadInOrder(ps, stmts) && stmts != []
    ensures Valid(ps[0]) && !IsAtEnd(ps[0]) && Valid(ps[1])
    ensures Declaration(ps[0]) == Ok((stmts[0], ps[1]))
    ensures ReadInOrder(ps[1..], stmts[1..])
    ensures ps[1..][0] == ps[1] && ps[1..][|stmts| - 1] == ps[|stmts|]
    ensures [stmts[0]] + stmts[1..] == stmts
  {
  }

  lemma DeclarationsAtEnd(p: Parser)
    requires Valid(p) && IsAtEnd(p)
    ensures Declarations(p) == Ok(([], p))
  {
  }


  /** A program read declaration by declaration from its first token to
      `EOF` is what `parse` returns, with the diagnostics reported on the
      way. */
  lemma ProgramInOrder(tokens: seq<Token>, ps: seq<Parser>, stmts: seq<Statement>)
    requires EndsWithEof(tokens)
    requires ReadInOrder(ps, stmts) && ps[0] == Parser(tokens, 0, [])
    ensures Parse(tokens) == Ok((stmts, ps[|stmts|].reports))
  {
    DeclarationsInOrder(ps, stmts);
  }

  /** The tokens of `a b c`. */
  const ABC: seq<Token> := [A, B, C, End]

  /** Parsing `a b c` fails at `b`, which should have been a `;`. */
  lemma ABCFailsAtB()
    ensures Declarations(Parser(ABC, 0, [])) == Err(Failure(ParseError(B, ExpectSemicolon), Parser(ABC, 1, [])))
  {
    TwoNamesFail(Parser(ABC, 0, []));
  }

  /** A program that starts with two names in a row fails at the second,
      which should have been a `;`. */
  lemma TwoNamesFail(p: Parser)
    requires Valid(p) && Peek(p).kind == Identifier && p.tokens[p.current + 1].kind == Identifier
    ensures Declarations(p) == Err(Failure(ParseError(p.tokens[p.current + 1], ExpectSemicolon), p.(current := p.current + 1)))
  {
    var p1 := p.(current := p.current + 1);
    NameAtLevel(0, p);
    ChainIsExpression(0, p, Expr.Var(Peek(p)), p1);
    MissingSemicolon(p, Expr.Var(Peek(p)), p1);
    StatementIsExpressionStatement(p);
  }

  /** A declaration that starts with a name is an expression statement. */
  lemma StatementIsExpressionStatement(p: Parser)
    requires Valid(p) && Peek(p).kind == Identifier
    ensures Declaration(p) == ExpressionStatement(p)
  {
    MissOne(p, TokenKind.Var);
    MissOne(p, Print);
    MissOne(p, LeftBrace);
  }

  /** `synchronize` as written never returns after that error: the first
      `advance` moves onto `c`, which is not `EOF`, `b` is not a `;`, and
      the loop does not move again. */
  lemma SynchronizeAsWrittenHangsOnABC()
    ensures SynchronizeAsWritten(Parser(ABC, 1, [])) == Hangs
  {
  }

  /** With the resynchronisation as intended, `parse` reports the error
      at `b` once and gives back the single `nil;` statement. */
  lemma ABCRecovers()
    ensures Parse(ABC) == Ok(([ExprStmt(Literal(LiteralValue.None))], [Diagnostic(1, " at '", "b" + ExpectSemicolon)]))
  {
    ABCFailsAtB();
    ABCRecoveryReport();
  }

  /** The report and the result of recovering from the error at `b`. */
  lemma ABCRecoveryReport()
    ensures Recover(Failure(ParseError(B, ExpectSemicolon), Parser(ABC, 1, [])))
            == Ok(([ExprStmt(Literal(LiteralValue.None))], [Diagnostic(1, " at '", "b" + ExpectSemicolon)]))
  {
    var diagnostic := ErrorAt(B, ExpectSemicolon);
    assert [] + [diagnostic] == [diagnostic];
  }
}
