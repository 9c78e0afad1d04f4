/** What the expression rules of src/parser.rs build: an expression read
    back in order gives the kinds of exactly the tokens the rule consumed,
    parentheses included. The only rule that drops tokens is `assignment`
    with a target that is not a variable, and it reports a diagnostic. */
module ParserYield {
  import opened Wrappers
  import opened Common
  import opened Parsing
  import opened ParserFacts

  /** The token kind a literal expression is read from. */
  function LiteralKind(v: LiteralValue): TokenKind {
    match v
    case None => Nil
    case Bool(b) => if b then True else False
    case Str(_) => TokenKind.String
    case Float(_) => Number
    case Integer(_) => Number
  }

  /** The token kinds an expression is read back as, in order: an operator
      between its operands or before its operand, a grouping inside its
      parentheses, an assignment as name, `=` and value. */
  function Yield(e: Expr): seq<TokenKind> {
    match e
    case Binary(left, op, right) => Yield(left) + [op.kind] + Yield(right)
    case Grouping(inner) => [LeftParen] + Yield(inner) + [RightParen]
    case Literal(v) => [LiteralKind(v)]
    case Unary(op, operand) => [op.kind] + Yield(operand)
    case Var(name) => [name.kind]
    case Assign(name, rhs) => [name.kind, Equal] + Yield(rhs)
  }

  /** The kinds of a run of tokens. */
  function KindsOf(tokens: seq<Token>): (ks: seq<TokenKind>)
    ensures |ks| == |tokens|
    ensures forall i :: 0 <= i < |tokens| ==> ks[i] == tokens[i].kind
  {
    seq(|tokens|, i requires 0 <= i < |tokens| => tokens[i].kind)
  }

  /** The kinds of the tokens consumed between two states of one parse. */
  function Consumed(p: Parser, q: Parser): seq<TokenKind>
    requires Follows(p, q) && q.current <= |q.tokens|
  {
    KindsOf(p.tokens[p.current..q.current])
  }

  /** Number and string tokens carry a value of their kind, as the scanner
      makes them. */
  predicate LiteralsTagged(tokens: seq<Token>) {
    forall i :: 0 <= i < |tokens| ==>
      && (tokens[i].kind == Number ==> tokens[i].literal.Float? || tokens[i].literal.Integer?)
      && (tokens[i].kind == TokenKind.String ==> tokens[i].literal.Str?)
  }

  /** The rule's result, when it has one, was read from the tokens it
      consumed, provided it reported nothing; and it never withdraws a
      report. */
  predicate ReadsBack(p: Parser, r: Parsed<Expr>)
    requires Valid(p)
  {
    r.Ok? ==>
      && Follows(p, r.value.1) && r.value.1.current <= |p.tokens|
      && |p.reports| <= |r.value.1.reports|
      && (|r.value.1.reports| == |p.reports| ==> Yield(r.value.0) == Consumed(p, r.value.1))
  }

  /** `ReadsBack` for a rule that goes on from an earlier result, whose
      kinds `prefix` come first. */
  predicate ReadsBackAfter(prefix: seq<TokenKind>, p: Parser, r: Parsed<Expr>)
    requires Valid(p)
  {
    r.Ok? ==>
      && Follows(p, r.value.1) && r.value.1.current <= |p.tokens|
      && |p.reports| <= |r.value.1.reports|
      && (|r.value.1.reports| == |p.reports| ==> Yield(r.value.0) == prefix + Consumed(p, r.value.1))
  }

  /** A parse of an expression that reported nothing gives back, in order,
      the kinds of exactly the tokens it consumed. */
  lemma ExpressionReadsBack(p: Parser, e: Expr, q: Parser)
    requires Valid(p) && LiteralsTagged(p.tokens)
    requires Expression(p) == Ok((e, q)) && |q.reports| == |p.reports|
    ensures p.current <= q.current <= |p.tokens| && q.tokens == p.tokens
    ensures Yield(e) == KindsOf(p.tokens[p.current..q.current])
  {
    ExpressionYield(p);
  }

  // ---------------------------------------------------------------------
  // Runs of consumed tokens

  lemma ConsumedSplit(p: Parser, q: Parser, r: Parser)
    requires Follows(p, q) && Follows(q, r) && r.current <= |r.tokens|
    ensures Consumed(p, r) == Consumed(p, q) + Consumed(q, r)
  {
    var t := p.tokens;
    assert t[p.current..r.current] == t[p.current..q.current] + t[q.current..r.current];
  }

  lemma ConsumedNone(p: Parser)
    requires p.current <= |p.tokens|
    ensures Consumed(p, p) == []
  {
  }

  /** The first token consumed, and the rest. */
  lemma ConsumedFirst(p: Parser, q: Parser)
    requires p.current < q.current <= |p.tokens| && q.tokens == p.tokens
    ensures Consumed(p, q) == [p.tokens[p.current].kind] + Consumed(p.(current := p.current + 1), q)
  {
    ConsumedSplit(p, p.(current := p.current + 1), q);
  }

  /** The last token consumed, and the ones before it. */
  lemma ConsumedLast(p: Parser, q: Parser)
    requires p.current <= q.current < |p.tokens| && q.tokens == p.tokens
    ensures Consumed(p, q.(current := q.current + 1)) == Consumed(p, q) + [q.tokens[q.current].kind]
  {
    ConsumedSplit(p, q, q.(current := q.current + 1));
  }

  /** One rule's result followed by the rest of another. */
  lemma Chain(e: Expr, p: Parser, q: Parser, e2: Expr, r: Parser)
    requires Follows(p, q) && Follows(q, r) && r.current <= |r.tokens|
    requires Yield(e) == Consumed(p, q)
    requires Yield(e2) == Yield(e) + Consumed(q, r)
    ensures Yield(e2) == Consumed(p, r)
  {
    ConsumedSplit(p, q, r);
  }

  /** A prefix operator's token, then its operand's tokens. */
  lemma PrefixReadsBack(p: Parser, e: Expr, q: Parser)
    requires Valid(p) && Follows(p.(current := p.current + 1), q) && q.current <= |q.tokens|
    requires Yield(e) == Consumed(p.(current := p.current + 1), q)
    ensures Yield(Expr.Unary(Peek(p), e)) == Consumed(p, q)
  {
    ConsumedFirst(p, q);
  }

  /** An assignment's name, then the `=` token and the value's tokens. */
  lemma AssignReadsBack(name: Token, p: Parser, e: Expr, q: Parser)
    requires Valid(p) && Peek(p).kind == Equal
    requires Follows(p.(current := p.current + 1), q) && q.current <= |q.tokens|
    requires Yield(e) == Consumed(p.(current := p.current + 1), q)
    ensures Yield(Assign(name, e)) == Yield(Expr.Var(name)) + Consumed(p, q)
  {
    ConsumedFirst(p, q);
  }

  /** A group's inner tokens and its `)`, after its `(`. */
  lemma GroupReadsBack(p: Parser, e: Expr, q: Parser)
    requires Valid(q) && Follows(p, q) && Peek(q).kind == RightParen
    requires Yield(e) == Consumed(p, q)
    ensures Yield(Grouping(e)) == [LeftParen] + Consumed(p, q.(current := q.current + 1))
  {
    ConsumedLast(p, q);
  }

  /** The `(` before a group. */
  lemma ParenReadsBack(p: Parser, e: Expr, q: Parser)
    requires Valid(p) && Peek(p).kind == LeftParen
    requires Follows(p.(current := p.current + 1), q) && q.current <= |q.tokens|
    requires Yield(e) == [LeftParen] + Consumed(p.(current := p.current + 1), q)
    ensures Yield(e) == Consumed(p, q)
  {
    ConsumedFirst(p, q);
  }

  /** The bookkeeping of one fold: the operator's token, the operand's
      tokens and the rest of the loop's tokens add up. */
  lemma FoldReadsBack(left: Expr, p: Parser, right: Expr, q1: Parser, e: Expr, q: Parser)
    requires Valid(p)
    requires Follows(p.(current := p.current + 1), q1) && Follows(q1, q) && q.current <= |q.tokens|
    requires Yield(right) == Consumed(p.(current := p.current + 1), q1)
    requires Yield(e) == Yield(Expr.Binary(left, Peek(p), right)) + Consumed(q1, q)
    ensures Yield(e) == Yield(left) + Consumed(p, q)
  {
    var operator := [Peek(p).kind];
    var p1 := p.(current := p.current + 1);
    ConsumedFirst(p, q1);
    ConsumedSplit(p, q1, q);
    Regroup(Yield(left), operator, Consumed(p1, q1), Consumed(q1, q));
  }

  lemma Regroup(a: seq<TokenKind>, b: seq<TokenKind>, c: seq<TokenKind>, d: seq<TokenKind>)
    ensures a + b + c + d == a + ((b + c) + d)
  {
  }

  // ---------------------------------------------------------------------
  // The rules, one lemma each, by the rules' own recursion

  /** `expression` builds a tree that reads back as the tokens it
      consumed, whenever it reports no invalid assignment target. */
  lemma {:induction false} ExpressionYield(p: Parser)
    requires Valid(p) && LiteralsTagged(p.tokens)
    ensures ReadsBack(p, Expression(p))
    decreases |p.tokens| - p.current, 20
  {
    AssignmentYield(p);
  }

  lemma {:induction false} AssignmentYield(p: Parser)
    requires Valid(p) && LiteralsTagged(p.tokens)
    ensures ReadsBack(p, Assignment(p))
    decreases |p.tokens| - p.current, 19
  {
    BinaryRuleYield(0, p);
    var left := BinaryRule(0, p);
    if left.Ok? {
      var (e, q) := left.value;
      AssignmentStarts(p, e, q);
      TailYield(e, q);
      var r := AssignmentTail(e, q);
      if r.Ok? && |r.value.1.reports| == |p.reports| {
        Chain(e, p, q, r.value.0, r.value.1);
      }
    }
  }

  lemma {:induction false} TailYield(left: Expr, p: Parser)
    requires Valid(p) && Shaped(left, 1) && LiteralsTagged(p.tokens)
    ensures ReadsBackAfter(Yield(left), p, AssignmentTail(left, p))
    decreases |p.tokens| - p.current, 18
  {
    if Peek(p).kind != Equal {
      TailStops(left, p);
      ConsumedNone(p);
    } else {
      var p1 := p.(current := p.current + 1);
      AssignmentYield(p1);
      var value := Assignment(p1);
      if value.Ok? {
        var (v, q) := value.value;
        if left.Var? {
          TailAssigns(left.name, p, v, q);
          if |q.reports| == |p.reports| {
            AssignReadsBack(left.name, p, v, q);
          }
        } else {
          TailReports(left, p, v, q);
        }
      } else {
        MatchOne(p, Equal);
      }
    }
  }

  lemma {:induction false} BinaryRuleYield(level: nat, p: Parser)
    requires level < 5 && Valid(p) && LiteralsTagged(p.tokens)
    ensures ReadsBack(p, BinaryRule(level, p))
    decreases |p.tokens| - p.current, 2 * (5 - level) + 4
  {
    OperandYield(level, p);
    var left := Operand(level, p);
    if left.Ok? {
      var (e, q) := left.value;
      LoopYield(level, e, q);
      var r := BinaryRuleLoop(level, e, q);
      if r.Ok? && |r.value.1.reports| == |p.reports| {
        Chain(e, p, q, r.value.0, r.value.1);
      }
    }
  }

  lemma {:induction false} OperandYield(level: nat, p: Parser)
    requires level < 5 && Valid(p) && LiteralsTagged(p.tokens)
    ensures ReadsBack(p, Operand(level, p))
    decreases |p.tokens| - p.current, 2 * (5 - level) + 3
  {
    if level < 4 {
      BinaryRuleYield(level + 1, p);
    } else {
      UnaryYield(p);
    }
  }

  lemma {:induction false} LoopYield(level: nat, left: Expr, p: Parser)
    requires level < 5 && Valid(p) && Shaped(left, level + 1) && LiteralsTagged(p.tokens)
    ensures ReadsBackAfter(Yield(left), p, BinaryRuleLoop(level, left, p))
    decreases |p.tokens| - p.current, 1
  {
    if BinaryTier(Peek(p).kind) != level + 1 {
      LoopStops(level, left, p);
      ConsumedNone(p);
    } else {
      var p1 := p.(current := p.current + 1);
      OperandYield(level, p1);
      var right := Operand(level, p1);
      if right.Ok? {
        var (e, q1) := right.value;
        LoopStep(level, left, p, e, q1);
        var folded := Expr.Binary(left, Peek(p), e);
        LoopYield(level, folded, q1);
        var r := BinaryRuleLoop(level, folded, q1);
        if r.Ok? && |r.value.1.reports| == |p.reports| {
          FoldReadsBack(left, p, e, q1, r.value.0, r.value.1);
        }
      } else {
        LoopStepFails(level, left, p);
      }
    }
  }

  /** A round of a binary level's loop whose operand fails fails too. */
  lemma LoopStepFails(level: nat, left: Expr, p: Parser)
    requires level < 5 && Valid(p) && Shaped(left, level + 1)
    requires !IsAtEnd(p) && BinaryTier(Peek(p).kind) == level + 1
    requires !Operand(level, p.(current := p.current + 1)).Ok?
    ensures !BinaryRuleLoop(level, left, p).Ok?
  {
    MatchOperator(level, p);
    assert Previous(p.(current := p.current + 1)) == Ok(Peek(p));
    TiersMatchLevels(Peek(p).kind, level);
  }

  lemma {:induction false} UnaryYield(p: Parser)
    requires Valid(p) && LiteralsTagged(p.tokens)
    ensures ReadsBack(p, Parsing.Unary(p))
    decreases |p.tokens| - p.current, 4
  {
    if Peek(p).kind == Bang || Peek(p).kind == Minus {
      var p1 := p.(current := p.current + 1);
      UnaryYield(p1);
      var right := Parsing.Unary(p1);
      if right.Ok? {
        var (e, q) := right.value;
        PrefixStep(p, e, q);
        if |q.reports| == |p.reports| {
          PrefixReadsBack(p, e, q);
        }
      } else {
        MatchTwo(p, Bang, Minus);
      }
    } else {
      UnaryFallsToPrimary(p);
      PrimaryYield(p);
    }
  }

  lemma {:induction false} PrimaryYield(p: Parser)
    requires Valid(p) && LiteralsTagged(p.tokens)
    ensures ReadsBack(p, Primary(p))
    decreases |p.tokens| - p.current, 3
  {
    if Peek(p).kind in LiteralKinds {
      LiteralYield(p);
    } else {
      NoLiteral(p);
      GroupOrNameYield(p);
    }
  }

  /** A literal is read from its one token. */
  lemma LiteralYield(p: Parser)
    requires Valid(p) && LiteralsTagged(p.tokens) && Peek(p).kind in LiteralKinds
    ensures ReadsBack(p, Primary(p))
  {
    var t := p.tokens[p.current];
    assert t.kind == Number ==> t.literal.Float? || t.literal.Integer?;
    assert t.kind == TokenKind.String ==> t.literal.Str?;
    LiteralKindOfToken(p);
    PrimaryIsLiteral(p);
    ConsumedOne(p);
  }

  lemma PrimaryIsLiteral(p: Parser)
    requires Valid(p) && Peek(p).kind in LiteralKinds
    ensures Primary(p) == Ok((LiteralPrimary(p).value.0, p.(current := p.current + 1)))
  {
  }

  lemma LiteralKindOfToken(p: Parser)
    requires Valid(p) && Peek(p).kind in LiteralKinds
    requires Peek(p).kind == Number ==> Peek(p).literal.Float? || Peek(p).literal.Integer?
    requires Peek(p).kind == TokenKind.String ==> Peek(p).literal.Str?
    ensures Yield(LiteralPrimary(p).value.0) == [Peek(p).kind]
  {
    LiteralValues(p);
  }

  lemma ConsumedOne(p: Parser)
    requires Valid(p) && !IsAtEnd(p)
    ensures Consumed(p, p.(current := p.current + 1)) == [Peek(p).kind]
  {
    ConsumedFirst(p, p.(current := p.current + 1));
    ConsumedNone(p.(current := p.current + 1));
  }

  lemma {:induction false} GroupOrNameYield(p: Parser)
    requires Valid(p) && LiteralsTagged(p.tokens)
    ensures ReadsBack(p, GroupOrName(p))
    decreases |p.tokens| - p.current, 2
  {
    if Peek(p).kind == LeftParen {
      var p1 := p.(current := p.current + 1);
      ParenIsGroup(p);
      GroupYield(p1);
      var r := Group(p1);
      if r.Ok? && |r.value.1.reports| == |p.reports| {
        ParenReadsBack(p, r.value.0, r.value.1);
      }
    } else if Peek(p).kind == Identifier {
      NameIsGroupOrName(p);
      ConsumedFirst(p, p.(current := p.current + 1));
    } else {
      MissOne(p, LeftParen);
      MissOne(p, Identifier);
    }
  }

  lemma {:induction false} GroupYield(p: Parser)
    requires Valid(p) && LiteralsTagged(p.tokens)
    ensures ReadsBackAfter([LeftParen], p, Group(p))
    decreases |p.tokens| - p.current, 21
  {
    ExpressionYield(p);
    var inner := Expression(p);
    if inner.Ok? {
      var (e, q) := inner.value;
      if Peek(q).kind == RightParen {
        ClosedGroup(p, e, q);
        if |q.reports| == |p.reports| {
          GroupReadsBack(p, e, q);
        }
      } else {
        UnclosedGroup(p, e, q);
      }
    }
  }
}
