/** The shared data of src/common.rs: token kinds, literal values, tokens and
    the syntax trees the parser builds. */
module Common {
  import opened Chars

  /** `TokenType`: the closed set of lexical categories. */
  datatype TokenKind =
    // Single-character tokens.
    | LeftParen | RightParen | LeftBrace | RightBrace | Comma | Dot | Minus | Plus
    | Semicolon | Slash | Star
    // One or two character tokens.
    | Bang | BangEqual | Equal | EqualEqual | Greater | GreaterEqual | Less | LessEqual
    // Literals.
    | Identifier | String | Number
    // Keywords.
    | And | Class | Else | False | Fun | For | If | Nil | Or | Print | Return | Super
    | This | True | Var | While
    // Bitwise operators.
    | BitwiseAnd | BitwiseOr
    | EOF

  /** The position of a kind in the declaration of `TokenType`. */
  function Ordinal(k: TokenKind): nat
  {
    match k
    case LeftParen => 0
    case RightParen => 1
    case LeftBrace => 2
    case RightBrace => 3
    case Comma => 4
    case Dot => 5
    case Minus => 6
    case Plus => 7
    case Semicolon => 8
    case Slash => 9
    case Star => 10
    case Bang => 11
    case BangEqual => 12
    case Equal => 13
    case EqualEqual => 14
    case Greater => 15
    case GreaterEqual => 16
    case Less => 17
    case LessEqual => 18
    case Identifier => 19
    case String => 20
    case Number => 21
    case And => 22
    case Class => 23
    case Else => 24
    case False => 25
    case Fun => 26
    case For => 27
    case If => 28
    case Nil => 29
    case Or => 30
    case Print => 31
    case Return => 32
    case Super => 33
    case This => 34
    case True => 35
    case Var => 36
    case While => 37
    case BitwiseAnd => 38
    case BitwiseOr => 39
    case EOF => 40
  }

  /** The kind declared at a position. */
  function KindAt(n: nat): TokenKind
    requires n < 41
  {
    match n
    case 0 => LeftParen
    case 1 => RightParen
    case 2 => LeftBrace
    case 3 => RightBrace
    case 4 => Comma
    case 5 => Dot
    case 6 => Minus
    case 7 => Plus
    case 8 => Semicolon
    case 9 => Slash
    case 10 => Star
    case 11 => Bang
    case 12 => BangEqual
    case 13 => Equal
    case 14 => EqualEqual
    case 15 => Greater
    case 16 => GreaterEqual
    case 17 => Less
    case 18 => LessEqual
    case 19 => Identifier
    case 20 => String
    case 21 => Number
    case 22 => And
    case 23 => Class
    case 24 => Else
    case 25 => False
    case 26 => Fun
    case 27 => For
    case 28 => If
    case 29 => Nil
    case 30 => Or
    case 31 => Print
    case 32 => Return
    case 33 => Super
    case 34 => This
    case 35 => True
    case 36 => TokenKind.Var
    case 37 => While
    case 38 => BitwiseAnd
    case 39 => BitwiseOr
    case _ => EOF
  }

  /** `TokenType` is a closed set of exactly 41 kinds: the declaration
      positions 0 to 40 and the kinds are in one-to-one correspondence. */
  lemma KindsAreFortyOne()
    ensures forall k: TokenKind :: Ordinal(k) < 41 && KindAt(Ordinal(k)) == k
    ensures forall n: nat :: n < 41 ==> Ordinal(KindAt(n)) == n
  {
    OrdinalsBelowFortyOne();
    KindAtInvertsOrdinal();
    OrdinalInvertsKindAt();
  }

  lemma OrdinalsBelowFortyOne()
    ensures forall k: TokenKind :: Ordinal(k) < 41
  {
  }

  lemma KindAtInvertsOrdinal()
    ensures forall k: TokenKind :: KindAt(Ordinal(k)) == k
  {
  }

  lemma OrdinalInvertsKindAt()
    ensures forall n: nat :: n < 41 ==> Ordinal(KindAt(n)) == n
  {
  }

  /** `LiteralValue`. A `Float` holds the exact value of the number literal it
      came from; IEEE-754 rounding is not modelled. */
  datatype LiteralValue =
    | None
    | Bool(b: bool)
    | Str(s: string)
    | Float(x: real)
    | Integer(i: int)

  /** The `PartialEq` implementation: values of different variants are never
      equal, values of one variant are equal when their payloads are. */
  function Equals(a: LiteralValue, b: LiteralValue): (r: bool)
    ensures a.None? && b.None? ==> r
    ensures !a.None? && !b.None? && r ==> (a.Bool? <==> b.Bool?) && (a.Str? <==> b.Str?) && (a.Integer? <==> b.Integer?)
  {
    match a
    case None => b.None?
    case Str(x) => b.Str? && b.s == x
    case Integer(x) => b.Integer? && b.i == x
    case Bool(x) => b.Bool? && b.b == x
    case Float(x) => b.Float? && b.x == x
  }

  /** `PartialEq` coincides with structural equality of the values. */
  lemma EqualsIsIdentity(a: LiteralValue, b: LiteralValue)
    ensures Equals(a, b) <==> a == b
  {
  }

  /** `PartialEq` is symmetric, and reflexive on every non-`Float` value. */
  lemma EqualsSymmetricReflexive(a: LiteralValue, b: LiteralValue)
    ensures Equals(a, b) == Equals(b, a)
    ensures !a.Float? ==> Equals(a, a)
  {
  }

  /** Values `Display` can render in this model: every one but `Float`,
      whose f64 formatting is not modelled. */
  predicate Displayable(v: LiteralValue) {
    !v.Float?
  }

  /** The `Display` implementation: strings without quotes, `None` as the
      empty text, booleans as `true`/`false`, integers in decimal. */
  function Display(v: LiteralValue): (text: string)
    requires Displayable(v)
    ensures v.Str? ==> text == v.s
    ensures v.None? ==> text == ""
    ensures v.Bool? ==> text == (if v.b then "true" else "false")
    ensures v.Integer? ==> |text| >= 1 && (text[0] == '-' <==> v.i < 0)
  {
    match v
    case Str(s) => s
    case Integer(i) => IntToString(i)
    case Bool(b) => if b then "true" else "false"
    case None => ""
  }

  /** The decimal `Display` of an integer reads back as the same integer. */
  lemma {:induction false} IntegerDisplayRoundTrip(i: int)
    ensures var text := Display(Integer(i));
            if i < 0 then text[0] == '-' && AllDigits(text[1..]) && -(DigitsValue(text[1..]) as int) == i
            else AllDigits(text) && DigitsValue(text) == i
  {
    var text := Display(Integer(i));
    if i < 0 {
      var digits := NatToString(-i);
      assert text == "-" + digits;
      assert text[1..] == digits;
      NatToStringRoundTrip(-i);
    } else {
      assert text == NatToString(i);
      NatToStringRoundTrip(i);
    }
  }

  /** `Token`: a classified lexeme with its literal value and its line. */
  datatype Token = Token(kind: TokenKind, lexeme: string, literal: LiteralValue, line: nat)

  /** `Expr`, with the `Var` and `Assign` variants the parser and the
      interpreter use. */
  datatype Expr =
    | Binary(left: Expr, operator: Token, right: Expr)
    | Grouping(expression: Expr)
    | Literal(value: LiteralValue)
    | Unary(operator: Token, operand: Expr)
    | Var(name: Token)
    | Assign(name: Token, rhs: Expr)

  /** `Statement` as the parser builds it and the interpreter runs it. */
  datatype Statement =
    | PrintStmt(expr: Expr)
    | ExprStmt(expr: Expr)
    | VarStmt(name: Token, initializer: Expr)
    | Block(statements: seq<Statement>)
}
