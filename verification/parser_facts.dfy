/** Properties of the parser model: how the precedence ladder treats
    single names, and worked examples of associativity, assignment targets,
    error paths and the statement rules. */
module ParserFacts {
  import opened Wrappers
  import opened Common
  import opened Parsing

  // ---------------------------------------------------------------------
  // `match_type` on the kind lists the rules use

  lemma MatchOne(p: Parser, k: TokenKind)
    requires Valid(p) && k != EOF && Peek(p).kind == k
    ensures MatchType(p, [k]) == (true, p.(current := p.current + 1))
  {
  }

  lemma MissOne(p: Parser, k: TokenKind)
    requires Valid(p) && Peek(p).kind != k
    ensures MatchType(p, [k]) == (false, p)
  {
  }

  lemma MatchTwo(p: Parser, k: TokenKind, l: TokenKind)
    requires Valid(p) && k != EOF && l != EOF && (Peek(p).kind == k || Peek(p).kind == l)
    ensures MatchType(p, [k, l]) == (true, p.(current := p.current + 1))
  {
  }

  lemma MissTwo(p: Parser, k: TokenKind, l: TokenKind)
    requires Valid(p) && Peek(p).kind != k && Peek(p).kind != l
    ensures MatchType(p, [k, l]) == (false, p)
  {
  }

  lemma MatchOperator(level: nat, p: Parser)
    requires level < 5 && Valid(p) && BinaryTier(Peek(p).kind) == level + 1
    ensures MatchType(p, Operators(level)) == (true, p.(current := p.current + 1))
  {
    TiersMatchLevels(Peek(p).kind, level);
  }

  lemma MissOperator(level: nat, p: Parser)
    requires level < 5 && Valid(p) && BinaryTier(Peek(p).kind) != level + 1
    ensures MatchType(p, Operators(level)) == (false, p)
  {
    TiersMatchLevels(Peek(p).kind, level);
  }

  /** A binary level's loop stops, consuming nothing, at a token that is
      not one of its operators. */
  lemma LoopStops(level: nat, left: Expr, p: Parser)
    requires level < 5 && Valid(p) && Shaped(left, level + 1)
    requires BinaryTier(Peek(p).kind) != level + 1
    ensures BinaryRuleLoop(level, left, p) == Ok((left, p))
  {
    MissOperator(level, p);
  }

  /** A token that is not `!` or `-` starts a primary. */
  lemma UnaryFallsToPrimary(p: Parser)
    requires Valid(p) && Peek(p).kind != Bang && Peek(p).kind != Minus
    ensures Parsing.Unary(p) == Primary(p)
  {
    MissTwo(p, Bang, Minus);
  }

  /** An identifier is a primary by itself: a variable. */
  lemma NameIsPrimary(p: Parser)
    requires Valid(p) && Peek(p).kind == Identifier
    ensures Primary(p) == Ok((Expr.Var(Peek(p)), p.(current := p.current + 1)))
  {
    NoLiteral(p);
    NameIsGroupOrName(p);
  }

  lemma NameIsGroupOrName(p: Parser)
    requires Valid(p) && Peek(p).kind == Identifier
    ensures GroupOrName(p) == Ok((Expr.Var(Peek(p)), p.(current := p.current + 1)))
  {
    var p1 := p.(current := p.current + 1);
    MissOne(p, LeftParen);
    MatchOne(p, Identifier);
    assert Previous(p1) == Ok(Peek(p));
  }

  /** One round of a binary level's loop: an operator of the level and the
      operand after it fold into the left operand. */
  lemma LoopStep(level: nat, left: Expr, p: Parser, right: Expr, q: Parser)
    requires level < 5 && Valid(p) && Shaped(left, level + 1)
    requires !IsAtEnd(p) && BinaryTier(Peek(p).kind) == level + 1
    requires Operand(level, p.(current := p.current + 1)) == Ok((right, q))
    ensures Valid(q) && Shaped(Expr.Binary(left, Peek(p), right), level + 1)
    ensures BinaryRuleLoop(level, left, p) == BinaryRuleLoop(level, Expr.Binary(left, Peek(p), right), q)
  {
    TiersMatchLevels(Peek(p).kind, level);
    var p1 := p.(current := p.current + 1);
    MatchOperator(level, p);
    assert Previous(p1) == Ok(Peek(p));
  }

  /** A name followed by a token that is no operator of this level or a
      tighter one parses, at that level, as just the variable. */
  lemma {:induction false} NameAtLevel(level: nat, p: Parser)
    requires level < 5 && Valid(p) && Peek(p).kind == Identifier
    requires BinaryTier(p.tokens[p.current + 1].kind) <= level
    ensures BinaryRule(level, p) == Ok((Expr.Var(Peek(p)), p.(current := p.current + 1)))
    decreases 5 - level, 1
  {
    var q := p.(current := p.current + 1);
    var name := Expr.Var(Peek(p));
    OperandIsName(level, p);
    RuleOfOperand(level, p, name, q);
    LoopStops(level, name, q);
  }

  /** The operand of a level, at a name followed by no operator of a
      tighter level, is the variable. */
  lemma {:induction false} OperandIsName(level: nat, p: Parser)
    requires level < 5 && Valid(p) && Peek(p).kind == Identifier
    requires BinaryTier(p.tokens[p.current + 1].kind) <= level + 1
    ensures Operand(level, p) == Ok((Expr.Var(Peek(p)), p.(current := p.current + 1)))
    decreases 5 - level, 0
  {
    if level < 4 {
      NameAtLevel(level + 1, p);
    } else {
      NameIsPrimary(p);
      UnaryFallsToPrimary(p);
    }
  }

  /** A binary level is its operand followed by its loop. */
  lemma RuleOfOperand(level: nat, p: Parser, e: Expr, q: Parser)
    requires level < 5 && Valid(p) && Valid(q) && Shaped(e, level + 1)
    requires Operand(level, p) == Ok((e, q))
    ensures BinaryRule(level, p) == BinaryRuleLoop(level, e, q)
  {
  }

  /** A result of a tighter level is the result of every looser level
      when the token after it is no operator of the levels in between. */
  lemma {:induction false} LevelsPassThrough(level: nat, target: nat, p: Parser, e: Expr, q: Parser)
    requires level <= target < 5 && Valid(p) && Valid(q)
    requires BinaryRule(target, p) == Ok((e, q))
    requires BinaryTier(Peek(q).kind) <= level || target < BinaryTier(Peek(q).kind)
    ensures BinaryRule(level, p) == Ok((e, q))
    decreases target - level
  {
    if level < target {
      LevelsPassThrough(level + 1, target, p, e, q);
      LoopStops(level, e, q);
    }
  }

  /** An expression that is a single level's chain, seen from the top:
      no `=` follows, so `expression` returns the chain. */
  lemma ChainIsExpression(level: nat, p: Parser, e: Expr, q: Parser)
    requires level < 5 && Valid(p) && Valid(q)
    requires BinaryRule(level, p) == Ok((e, q))
    requires BinaryTier(Peek(q).kind) == 0 || level < BinaryTier(Peek(q).kind)
    requires Peek(q).kind != Equal
    ensures Expression(p) == Ok((e, q))
  {
    LevelsPassThrough(0, level, p, e, q);
    AssignmentStarts(p, e, q);
    TailStops(e, q);
  }

  /** Without `=`, the rest of `assignment` is the left side alone. */
  lemma TailStops(e: Expr, q: Parser)
    requires Valid(q) && Shaped(e, 1) && Peek(q).kind != Equal
    ensures AssignmentTail(e, q) == Ok((e, q))
  {
    MissOne(q, Equal);
  }

  const A: Token := Token(Identifier, "a", LiteralValue.None, 1)
  const B: Token := Token(Identifier, "b", LiteralValue.None, 1)
  const C: Token := Token(Identifier, "c", LiteralValue.None, 1)
  const MinusSign: Token := Token(Minus, "-", LiteralValue.None, 1)
  const End: Token := Token(EOF, "", LiteralValue.None, 1)

  /** The tokens of `a - b - c`. */
  const AMinusBMinusC: seq<Token> := [A, MinusSign, B, MinusSign, C, End]

  /** One round of a binary level's loop whose right operand is a single
      name: the name is folded in as the right child. */
  lemma FoldName(level: nat, left: Expr, p: Parser)
    requires level < 5 && Valid(p) && Shaped(left, level + 1)
    requires !IsAtEnd(p) && BinaryTier(Peek(p).kind) == level + 1
    requires p.tokens[p.current + 1].kind == Identifier
    requires p.current + 2 < |p.tokens|
    requires BinaryTier(p.tokens[p.current + 2].kind) <= level + 1
    ensures Shaped(Expr.Binary(left, Peek(p), Expr.Var(p.tokens[p.current + 1])), level + 1)
    ensures BinaryRuleLoop(level, left, p)
            == BinaryRuleLoop(level, Expr.Binary(left, Peek(p), Expr.Var(p.tokens[p.current + 1])), p.(current := p.current + 2))
  {
    var p1 := p.(current := p.current + 1);
    OperandIsName(level, p1);
    LoopStep(level, left, p, Expr.Var(p.tokens[p.current + 1]), p.(current := p.current + 2));
  }

  /** Three names joined by two operators of one level fold to the left:
      `a - b - c` is `(a - b) - c` at that level. */
  lemma ThreeNamesFoldLeft(level: nat, p: Parser)
    requires level < 5 && Valid(p) && p.current + 5 < |p.tokens|
    requires p.tokens[p.current].kind == Identifier
    requires BinaryTier(p.tokens[p.current + 1].kind) == level + 1
    requires p.tokens[p.current + 2].kind == Identifier
    requires BinaryTier(p.tokens[p.current + 3].kind) == level + 1
    requires p.tokens[p.current + 4].kind == Identifier
    requires BinaryTier(p.tokens[p.current + 5].kind) <= level
    ensures var t := p.tokens; var c := p.current;
            BinaryRule(level, p)
            == Ok((Expr.Binary(Expr.Binary(Expr.Var(t[c]), t[c + 1], Expr.Var(t[c + 2])), t[c + 3], Expr.Var(t[c + 4])),
                   p.(current := c + 5)))
  {
    var t := p.tokens;
    var c := p.current;
    NameStartsLoop(level, p);
    TwoFolds(level, Expr.Var(t[c]), p.(current := c + 1));
  }

  /** A level's loop starts after a leading name. */
  lemma NameStartsLoop(level: nat, p: Parser)
    requires level < 5 && Valid(p) && Peek(p).kind == Identifier
    requires BinaryTier(p.tokens[p.current + 1].kind) <= level + 1
    ensures BinaryRule(level, p) == BinaryRuleLoop(level, Expr.Var(Peek(p)), p.(current := p.current + 1))
  {
    OperandIsName(level, p);
    RuleOfOperand(level, p, Expr.Var(Peek(p)), p.(current := p.current + 1));
  }

  /** Two rounds of a binary level's loop, each folding in a name, and
      then the end of the loop. */
  lemma TwoFolds(level: nat, left: Expr, p: Parser)
    requires level < 5 && Valid(p) && Shaped(left, level + 1) && p.current + 4 < |p.tokens|
    requires BinaryTier(p.tokens[p.current].kind) == level + 1
    requires p.tokens[p.current + 1].kind == Identifier
    requires BinaryTier(p.tokens[p.current + 2].kind) == level + 1
    requires p.tokens[p.current + 3].kind == Identifier
    requires BinaryTier(p.tokens[p.current + 4].kind) <= level
    ensures var t := p.tokens; var c := p.current;
            BinaryRuleLoop(level, left, p)
            == Ok((Expr.Binary(Expr.Binary(left, t[c], Expr.Var(t[c + 1])), t[c + 2], Expr.Var(t[c + 3])), p.(current := c + 4)))
  {
    var t := p.tokens;
    var c := p.current;
    FoldName(level, left, p);
    LastFold(level, Expr.Binary(left, t[c], Expr.Var(t[c + 1])), p.(current := c + 2));
  }

  /** A round of a binary level's loop folding in a name, and then the
      end of the loop. */
  lemma LastFold(level: nat, left: Expr, p: Parser)
    requires level < 5 && Valid(p) && Shaped(left, level + 1) && p.current + 2 < |p.tokens|
    requires BinaryTier(p.tokens[p.current].kind) == level + 1
    requires p.tokens[p.current + 1].kind == Identifier
    requires BinaryTier(p.tokens[p.current + 2].kind) <= level
    ensures BinaryRuleLoop(level, left, p)
            == Ok((Expr.Binary(left, p.tokens[p.current], Expr.Var(p.tokens[p.current + 1])), p.(current := p.current + 2)))
  {
    FoldName(level, left, p);
    LoopStops(level, Expr.Binary(left, p.tokens[p.current], Expr.Var(p.tokens[p.current + 1])), p.(current := p.current + 2));
  }

  /** `a - b - c` parses as `(a - b) - c`. */
  lemma LeftAssociative()
    ensures Expression(Parser(AMinusBMinusC, 0, []))
              == Ok((Expr.Binary(Expr.Binary(Expr.Var(A), MinusSign, Expr.Var(B)), MinusSign, Expr.Var(C)), Parser(AMinusBMinusC, 5, [])))
  {
    ThreeNamesExpression(3, Parser(AMinusBMinusC, 0, []));
  }

  /** Three names joined by two operators of one level, with nothing after
      them that goes on, are a whole expression folded to the left. */
  lemma ThreeNamesExpression(level: nat, p: Parser)
    requires level < 5 && Valid(p) && p.current + 5 < |p.tokens|
    requires p.tokens[p.current].kind == Identifier
    requires BinaryTier(p.tokens[p.current + 1].kind) == level + 1
    requires p.tokens[p.current + 2].kind == Identifier
    requires BinaryTier(p.tokens[p.current + 3].kind) == level + 1
    requires p.tokens[p.current + 4].kind == Identifier
    requires BinaryTier(p.tokens[p.current + 5].kind) == 0 && p.tokens[p.current + 5].kind != Equal
    ensures var t := p.tokens; var c := p.current;
            Expression(p)
            == Ok((Expr.Binary(Expr.Binary(Expr.Var(t[c]), t[c + 1], Expr.Var(t[c + 2])), t[c + 3], Expr.Var(t[c + 4])),
                   p.(current := c + 5)))
  {
    var t := p.tokens;
    var c := p.current;
    ThreeNamesFoldLeft(level, p);
    ChainIsExpression(level, p, Expr.Binary(Expr.Binary(Expr.Var(t[c]), t[c + 1], Expr.Var(t[c + 2])), t[c + 3], Expr.Var(t[c + 4])), p.(current := c + 5));
  }

  // ---------------------------------------------------------------------
  // Prefix operators

  /** The operators `tokens[lo..hi]` applied to `e`, the first one
      outermost. */
  function Prefixed(tokens: seq<Token>, lo: nat, hi: nat, e: Expr): (r: Expr)
    requires lo <= hi <= |tokens|
    ensures lo == hi ==> r == e
    ensures lo < hi ==> r.Unary? && r.operator == tokens[lo]
    decreases hi - lo
  {
    if lo == hi then e else Expr.Unary(tokens[lo], Prefixed(tokens, lo + 1, hi, e))
  }

  /** A run of `!` and `-` before a name nests to the right: `- - x` is
      `-(-x)`, each operator applied to everything after it. */
  lemma {:induction false} PrefixesNestRight(p: Parser, end: nat)
    requires Valid(p) && p.current <= end < |p.tokens|
    requires forall i :: p.current <= i < end ==> p.tokens[i].kind == Bang || p.tokens[i].kind == Minus
    requires p.tokens[end].kind == Identifier
    ensures Parsing.Unary(p)
            == Ok((Prefixed(p.tokens, p.current, end, Expr.Var(p.tokens[end])), p.(current := end + 1)))
    decreases end - p.current
  {
    if p.current == end {
      NameIsUnary(p);
    } else {
      var e := Prefixed(p.tokens, p.current + 1, end, Expr.Var(p.tokens[end]));
      assert p.tokens[p.current].kind == Bang || p.tokens[p.current].kind == Minus;
      PrefixesNestRight(p.(current := p.current + 1), end);
      PrefixStep(p, e, p.(current := end + 1));
    }
  }

  /** A name is a unary expression by itself. */
  lemma NameIsUnary(p: Parser)
    requires Valid(p) && Peek(p).kind == Identifier
    ensures Parsing.Unary(p) == Ok((Expr.Var(Peek(p)), p.(current := p.current + 1)))
  {
    UnaryFallsToPrimary(p);
    NameIsPrimary(p);
  }

  /** A prefix operator applies to the unary after it. */
  lemma PrefixStep(p: Parser, e: Expr, q: Parser)
    requires Valid(p) && (Peek(p).kind == Bang || Peek(p).kind == Minus)
    requires Parsing.Unary(p.(current := p.current + 1)) == Ok((e, q))
    ensures Parsing.Unary(p) == Ok((Expr.Unary(Peek(p), e), q))
  {
    var p1 := p.(current := p.current + 1);
    MatchTwo(p, Bang, Minus);
    assert Previous(p1) == Ok(Peek(p));
  }

  // ---------------------------------------------------------------------
  // Missing operands and groups

  /** The token kinds a primary can start with. */
  predicate StartsPrimary(kind: TokenKind) {
    kind in {Number, TokenKind.String, True, False, Nil, LeftParen, Identifier}
  }

  /** Each literal token is read as the value it stands for: a number or
      a string as the value the scanner gave it, `true`, `false` and `nil`
      as themselves. */
  lemma LiteralValues(p: Parser)
    requires Valid(p)
    ensures Peek(p).kind in {Number, TokenKind.String} ==> LiteralPrimary(p) == Some((Literal(Peek(p).literal), p.(current := p.current + 1)))
    ensures Peek(p).kind == True ==> LiteralPrimary(p) == Some((Literal(Bool(true)), p.(current := p.current + 1)))
    ensures Peek(p).kind == False ==> LiteralPrimary(p) == Some((Literal(Bool(false)), p.(current := p.current + 1)))
    ensures Peek(p).kind == Nil ==> LiteralPrimary(p) == Some((Literal(LiteralValue.None), p.(current := p.current + 1)))
  {
    var k := Peek(p).kind;
    if k == Number || k == TokenKind.String {
      MatchTwo(p, Number, TokenKind.String);
    } else if k == True {
      MissTwo(p, Number, TokenKind.String);
      MatchOne(p, True);
    } else if k == False {
      MissTwo(p, Number, TokenKind.String);
      MissOne(p, True);
      MatchOne(p, False);
    } else if k == Nil {
      MissTwo(p, Number, TokenKind.String);
      MissOne(p, True);
      MissOne(p, False);
      MatchOne(p, Nil);
    }
  }

  /** No literal starts at a token that is not a number, string, `true`,
      `false` or `nil`. */
  lemma NoLiteral(p: Parser)
    requires Valid(p) && Peek(p).kind !in {Number, TokenKind.String, True, False, Nil}
    ensures LiteralPrimary(p) == Option.None
  {
    MissTwo(p, Number, TokenKind.String);
    MissOne(p, True);
    MissOne(p, False);
    MissOne(p, Nil);
  }

  /** Where no primary starts, `primary` fails with "Expect expression."
      at the current token, consuming nothing. */
  lemma NotAPrimary(p: Parser)
    requires Valid(p) && !StartsPrimary(Peek(p).kind)
    ensures Primary(p) == Err(Failure(ParseError(Peek(p), ExpectExpression), p))
  {
    NoLiteral(p);
    MissOne(p, LeftParen);
    MissOne(p, Identifier);
  }

  /** A parenthesised expression followed by `)` is a group. */
  lemma GroupCloses(p: Parser, e: Expr, q: Parser)
    requires Valid(p) && Peek(p).kind == LeftParen
    requires Expression(p.(current := p.current + 1)) == Ok((e, q))
    requires Valid(q) && Peek(q).kind == RightParen
    ensures Primary(p) == Ok((Grouping(e), q.(current := q.current + 1)))
  {
    GroupIsNoLiteral(p);
    ParenIsGroup(p);
    ClosedGroup(p.(current := p.current + 1), e, q);
  }

  lemma ClosedGroup(p: Parser, e: Expr, q: Parser)
    requires Valid(p) && Expression(p) == Ok((e, q))
    requires Valid(q) && Peek(q).kind == RightParen
    ensures Group(p) == Ok((Grouping(e), q.(current := q.current + 1)))
  {
    assert Unwrap(Expression(p)) == Ok((e, q));
    assert Consume(q, RightParen, ExpectRightParen) == Ok((Peek(q), q.(current := q.current + 1)));
  }

  /** A parenthesised expression not followed by `)` is the error
      "Expect ')' after expression." at the token found instead. */
  lemma GroupUnclosed(p: Parser, e: Expr, q: Parser)
    requires Valid(p) && Peek(p).kind == LeftParen
    requires Expression(p.(current := p.current + 1)) == Ok((e, q))
    requires Valid(q) && Peek(q).kind != RightParen
    ensures Primary(p) == Err(Failure(ParseError(Peek(q), ExpectRightParen), q))
  {
    GroupIsNoLiteral(p);
    ParenIsGroup(p);
    UnclosedGroup(p.(current := p.current + 1), e, q);
  }

  lemma UnclosedGroup(p: Parser, e: Expr, q: Parser)
    requires Valid(p) && Expression(p) == Ok((e, q))
    requires Valid(q) && Peek(q).kind != RightParen
    ensures Group(p) == Err(Failure(ParseError(Peek(q), ExpectRightParen), q))
  {
    assert Unwrap(Expression(p)) == Ok((e, q));
    assert Consume(q, RightParen, ExpectRightParen) == Err(Failure(ParseError(Peek(q), ExpectRightParen), q));
  }

  /** At `(`, `primary` is the group alternative. */
  lemma GroupIsNoLiteral(p: Parser)
    requires Valid(p) && Peek(p).kind == LeftParen
    ensures Primary(p) == GroupOrName(p)
  {
    NoLiteral(p);
  }

  lemma ParenIsGroup(p: Parser)
    requires Valid(p) && Peek(p).kind == LeftParen
    ensures GroupOrName(p) == Group(p.(current := p.current + 1))
  {
    MatchOne(p, LeftParen);
  }

  /** An error where the leftmost operand should start is the error of
      every binary level. */
  lemma {:induction false} OperandErrorPropagates(level: nat, p: Parser)
    requires level < 5 && Valid(p) && Parsing.Unary(p).Err?
    ensures BinaryRule(level, p) == Parsing.Unary(p)
    decreases 5 - level
  {
    if level < 4 {
      OperandErrorPropagates(level + 1, p);
    }
    assert Operand(level, p) == Parsing.Unary(p);
  }

  /** An expression whose first operand is an error panics: `assignment`
      unwraps the result of `equality`. */
  lemma OperandErrorPanics(p: Parser)
    requires Valid(p) && Parsing.Unary(p).Err?
    ensures Expression(p) == Panic(UnwrapOnErr)
  {
    OperandErrorPropagates(0, p);
  }

  /** So an expression that starts with no operand at all, such as one at
      `;` or at `EOF`, panics. */
  lemma MissingOperandPanics(p: Parser)
    requires Valid(p) && !StartsPrimary(Peek(p).kind) && Peek(p).kind != Bang && Peek(p).kind != Minus
    ensures Expression(p) == Panic(UnwrapOnErr)
  {
    UnaryFallsToPrimary(p);
    NotAPrimary(p);
    OperandErrorPanics(p);
  }

  // ---------------------------------------------------------------------
  // Assignment

  /** `name = value`: the assignment's value is parsed by `assignment`
      again, so `a = b = c` nests to the right. */
  lemma AssignsToName(p: Parser, name: Token, q: Parser, value: Expr, r: Parser)
    requires Valid(p) && Valid(q) && BinaryRule(0, p) == Ok((Expr.Var(name), q))
    requires Peek(q).kind == Equal
    requires Assignment(q.(current := q.current + 1)) == Ok((value, r))
    ensures Assignment(p) == Ok((Assign(name, value), r))
  {
    AssignmentStarts(p, Expr.Var(name), q);
    TailAssigns(name, q, value, r);
  }

  /** A left side other than a name is reported as an invalid target and
      kept; the parsed right side is dropped. */
  lemma ReportsInvalidTarget(p: Parser, e: Expr, q: Parser, value: Expr, r: Parser)
    requires Valid(p) && Valid(q) && BinaryRule(0, p) == Ok((e, q)) && !e.Var?
    requires Peek(q).kind == Equal
    requires Assignment(q.(current := q.current + 1)) == Ok((value, r))
    ensures Assignment(p) == Ok((e, r.(reports := r.reports + [ErrorAt(Peek(q), InvalidAssignmentTarget)])))
  {
    AssignmentStarts(p, e, q);
    TailReports(e, q, value, r);
  }

  /** `assignment` goes on from where its left side ends. */
  lemma AssignmentStarts(p: Parser, e: Expr, q: Parser)
    requires Valid(p) && Valid(q) && BinaryRule(0, p) == Ok((e, q))
    ensures Shaped(e, 1)
    ensures Assignment(p) == AssignmentTail(e, q)
  {
    assert Unwrap(BinaryRule(0, p)) == Ok((e, q));
  }

  lemma TailAssigns(name: Token, q: Parser, value: Expr, r: Parser)
    requires Valid(q) && Shaped(Expr.Var(name), 1) && Peek(q).kind == Equal
    requires Assignment(q.(current := q.current + 1)) == Ok((value, r))
    ensures AssignmentTail(Expr.Var(name), q) == Ok((Assign(name, value), r))
  {
    var q1 := q.(current := q.current + 1);
    MatchOne(q, Equal);
    assert Previous(q1) == Ok(Peek(q));
    assert Unwrap(Assignment(q1)) == Ok((value, r));
  }

  lemma TailReports(e: Expr, q: Parser, value: Expr, r: Parser)
    requires Valid(q) && Shaped(e, 1) && !e.Var? && Peek(q).kind == Equal
    requires Assignment(q.(current := q.current + 1)) == Ok((value, r))
    ensures AssignmentTail(e, q) == Ok((e, r.(reports := r.reports + [ErrorAt(Peek(q), InvalidAssignmentTarget)])))
  {
    var q1 := q.(current := q.current + 1);
    MatchOne(q, Equal);
    assert Previous(q1) == Ok(Peek(q));
    assert Unwrap(Assignment(q1)) == Ok((value, r));
  }
}
