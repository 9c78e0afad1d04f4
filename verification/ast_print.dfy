/** `ast_print` of src/utils.rs: the parenthesised prefix rendering of an
    expression, appended to a caller's buffer. */
module AstPrinter {
  import opened Common

  /** The expressions the model can render: every literal in them has a
      modelled `Display` (no `Float`). */
  predicate Printable(e: Expr) {
    match e
    case Binary(left, _, right) => Printable(left) && Printable(right)
    case Grouping(inner) => Printable(inner)
    case Literal(v) => Displayable(v)
    case Unary(_, operand) => Printable(operand)
    case Var(_) => true
    case Assign(_, rhs) => Printable(rhs)
  }

  /** The text rendering an expression, independently of any buffer. */
  function Render(e: Expr): string
    requires Printable(e)
  {
    match e
    case Binary(left, op, right) => "( " + op.lexeme + Render(left) + Render(right) + ")"
    case Grouping(inner) => "( group " + Render(inner) + ")"
    case Literal(v) => Display(v)
    case Unary(op, operand) => "( " + op.lexeme + Render(operand) + ")"
    case Var(name) => "var(" + name.lexeme + ")"
    case Assign(name, rhs) => "var(" + name.lexeme + "=" + Render(rhs) + ")"
  }

  /** `ast_print`, threading the buffer through the pushes in the order the
      source makes them. It only appends: the old buffer is a prefix of the
      new one. */
  function AstPrint(buf: string, e: Expr): (r: string)
    requires Printable(e)
    ensures |r| >= |buf| && r[..|buf|] == buf
    decreases e
  {
    match e
    case Binary(left, op, right) => AstPrint(AstPrint(buf + "( " + op.lexeme, left), right) + ")"
    case Grouping(inner) => AstPrint(buf + "( group ", inner) + ")"
    case Literal(v) => buf + Display(v)
    case Unary(op, operand) => AstPrint(buf + "( " + op.lexeme, operand) + ")"
    case Var(name) => buf + "var(" + name.lexeme + ")"
    case Assign(name, rhs) => AstPrint(buf + "var(" + name.lexeme + "=", rhs) + ")"
  }

  /** What `ast_print` appends does not depend on the buffer: it is always
      the rendering of the expression. */
  lemma {:induction false} AstPrintAppendsRender(buf: string, e: Expr)
    requires Printable(e)
    ensures AstPrint(buf, e) == buf + Render(e)
    decreases e
  {
    match e
    case Binary(left, op, right) =>
      var pre := buf + "( " + op.lexeme;
      AstPrintAppendsRender(pre, left);
      AstPrintAppendsRender(pre + Render(left), right);
      BinaryCase(buf, left, op, right);
    case Grouping(inner) =>
      AstPrintAppendsRender(buf + "( group ", inner);
      GroupingCase(buf, inner);
    case Literal(v) =>
    case Unary(op, operand) =>
      AstPrintAppendsRender(buf + "( " + op.lexeme, operand);
      UnaryCase(buf, op, operand);
    case Var(name) =>
      VarCase(buf, name);
    case Assign(name, rhs) =>
      AstPrintAppendsRender(buf + "var(" + name.lexeme + "=", rhs);
      AssignCase(buf, name, rhs);
  }

  lemma BinaryCase(buf: string, left: Expr, op: Token, right: Expr)
    requires Printable(left) && Printable(right)
    requires var pre := buf + "( " + op.lexeme;
             && AstPrint(pre, left) == pre + Render(left)
             && AstPrint(pre + Render(left), right) == pre + Render(left) + Render(right)
    ensures AstPrint(buf, Binary(left, op, right)) == buf + Render(Binary(left, op, right))
  {
    var pre := buf + "( " + op.lexeme;
    Assoc3(buf, "( ", op.lexeme);
    Assoc3(pre, Render(left), Render(right));
    Assoc3("( " + op.lexeme, Render(left), Render(right));
    Closed(buf, pre, "( " + op.lexeme, Render(left) + Render(right));
  }

  lemma GroupingCase(buf: string, inner: Expr)
    requires Printable(inner)
    requires AstPrint(buf + "( group ", inner) == buf + "( group " + Render(inner)
    ensures AstPrint(buf, Grouping(inner)) == buf + Render(Grouping(inner))
  {
    Closed(buf, buf + "( group ", "( group ", Render(inner));
  }

  lemma UnaryCase(buf: string, op: Token, operand: Expr)
    requires Printable(operand)
    requires AstPrint(buf + "( " + op.lexeme, operand) == buf + "( " + op.lexeme + Render(operand)
    ensures AstPrint(buf, Unary(op, operand)) == buf + Render(Unary(op, operand))
  {
    Assoc3(buf, "( ", op.lexeme);
    Closed(buf, buf + "( " + op.lexeme, "( " + op.lexeme, Render(operand));
  }

  lemma VarCase(buf: string, name: Token)
    ensures AstPrint(buf, Expr.Var(name)) == buf + Render(Expr.Var(name))
  {
    Assoc3(buf, "var(" + name.lexeme, ")");
  }

  lemma AssignCase(buf: string, name: Token, rhs: Expr)
    requires Printable(rhs)
    requires var pre := buf + "var(" + name.lexeme + "=";
             AstPrint(pre, rhs) == pre + Render(rhs)
    ensures AstPrint(buf, Assign(name, rhs)) == buf + Render(Assign(name, rhs))
  {
    Assoc3(buf, "var(", name.lexeme);
    Assoc3(buf, "var(" + name.lexeme, "=");
    Closed(buf, buf + "var(" + name.lexeme + "=", "var(" + name.lexeme + "=", Render(rhs));
  }

  /** Closing a node: the opening, the body and `")"` after the buffer. */
  lemma Closed(buf: string, pre: string, opening: string, body: string)
    requires pre == buf + opening
    ensures pre + body + ")" == buf + (opening + body + ")")
  {
  }

  lemma Assoc3(a: string, b: string, c: string)
    ensures (a + b) + c == a + (b + c)
  {
  }

  lemma Assoc4(a: string, b: string, c: string, d: string)
    ensures (a + b) + c + d == a + (b + c + d)
  {
  }

  /** A literal appends its `Display` text; `nil` appends nothing. */
  lemma LiteralAppendsDisplay(buf: string, v: LiteralValue)
    requires Displayable(v)
    ensures AstPrint(buf, Literal(v)) == buf + Display(v)
    ensures AstPrint(buf, Literal(None)) == buf
  {
  }
}
