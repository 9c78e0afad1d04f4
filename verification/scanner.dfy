/** The scanner of src/scanner.rs, and the older copy of it in src/main.rs
    (`Parser::parse_tokens`), as one cursor machine over the source text with
    an explicit `(start, curr, line)` state. The two copies differ only in
    the bitwise operators and in how keywords are looked up, so they are one
    function with a `Dialect` switch. */
module Scanner {
  import opened Wrappers
  import opened Chars
  import opened Common

  /** `Current` is src/scanner.rs; `Legacy` is the copy in src/main.rs, which
      has no `&` and `|` tokens and looks keywords up in `KEYWORDS`. */
  datatype Dialect = Current | Legacy

  const UnexpectedCharacter: string := "Unexpected character."
  const UnterminatedString: string := "Unterminated string."

  /** The sources the model covers: ASCII text (the source counts characters
      but slices bytes) shorter than 255 characters (offsets and the line
      counter are `u8`; 255 newlines would overflow the line counter). */
  predicate Supported(src: string) {
    |src| < 255 && forall i :: 0 <= i < |src| ==> src[i] as int < 128
  }

  /** `peek`: the character under the cursor, `'\0'` at the end. */
  function Peek(src: string, curr: nat): char {
    if curr >= |src| then '\0' else src[curr]
  }

  /** `peek_next`: the character after the cursor, `'\0'` past the end. */
  function PeekNext(src: string, curr: nat): char {
    if curr + 1 >= |src| then '\0' else src[curr + 1]
  }

  /** `match_expr`: the cursor after consuming `expected` if it is next. */
  function MatchExpr(src: string, curr: nat, expected: char): (next: nat)
    requires curr <= |src|
    ensures next == curr || next == curr + 1
    ensures next == curr + 1 <==> curr < |src| && src[curr] == expected
  {
    if curr >= |src| then curr
    else if src[curr] != expected then curr
    else curr + 1
  }

  /** What one call of `scan_single_token` leaves behind: the cursor, the line
      counter and the token it added, if any. */
  datatype Step = Step(next: nat, line: nat, token: Option<Token>)

  /** The shape every step has: it consumes at least one character, never
      lowers the line, and a token it adds is the consumed slice, on the line
      counter's value, and is never the end marker. */
  predicate ValidStep(src: string, start: nat, line: nat, step: Step) {
    && start < step.next <= |src|
    && line <= step.line
    && (step.token.Some? ==>
          && step.token.value.lexeme == src[start..step.next]
          && step.token.value.line == step.line
          && step.token.value.kind != EOF)
  }

  /** `add_token`: a token whose lexeme is `source[start..curr]`. */
  function AddToken(src: string, start: nat, curr: nat, line: nat, kind: TokenKind, literal: LiteralValue): (r: Outcome<Step, string>)
    requires start < curr <= |src| && kind != EOF
    ensures r.Ok? && ValidStep(src, start, line, r.value)
    ensures r.value.token == Some(Token(kind, src[start..curr], literal, line))
  {
    Ok(Step(curr, line, Some(Token(kind, src[start..curr], literal, line))))
  }

  /** A token without a literal value. */
  function Simple(src: string, start: nat, curr: nat, line: nat, kind: TokenKind): Outcome<Step, string>
    requires start < curr <= |src| && kind != EOF
  {
    AddToken(src, start, curr, line, kind, LiteralValue.None)
  }

  /** The loop of a `//` comment: the cursor stops on the next newline, which
      is left for the next step, or at the end. */
  function LineCommentEnd(src: string, curr: nat): (r: nat)
    requires curr <= |src|
    ensures curr <= r <= |src|
    ensures r == |src| || src[r] == '\n'
    ensures forall i :: curr <= i < r ==> src[i] != '\n'
    decreases |src| - curr
  {
    if Peek(src, curr) != '\n' && curr < |src| then LineCommentEnd(src, curr + 1) else curr
  }

  // A star at `j` followed by a slash: the close of a block comment.
  predicate ClosesAt(src: string, j: nat) {
    j + 1 < |src| && src[j] == '*' && src[j + 1] == '/'
  }

  // The loop of a block comment: it consumes one character before each look
  // for the closing star-slash pair, so the character right after the cursor
  // never starts the close. It stops after the first such pair, or at the end.
  function BlockCommentEnd(src: string, curr: nat): (r: nat)
    requires curr <= |src|
    ensures curr <= r <= |src|
    ensures r == |src| || (curr + 1 <= r - 2 && ClosesAt(src, r - 2))
    ensures forall j :: curr < j < r - 2 ==> !ClosesAt(src, j)
    decreases |src| - curr
  {
    if curr >= |src| then curr
    else
      var next := curr + 1;
      if Peek(src, next) == '*' && PeekNext(src, next) == '/' then next + 2
      else BlockCommentEnd(src, next)
  }

  /** The loop of `scan_identifer`: the maximal run of identifier characters. */
  function IdentifierEnd(src: string, curr: nat): (r: nat)
    requires curr <= |src|
    ensures curr <= r <= |src|
    ensures forall i :: curr <= i < r ==> IsAlphaNumeric(src[i])
    ensures r == |src| || !IsAlphaNumeric(src[r])
    decreases |src| - curr
  {
    if IsAlphaNumeric(Peek(src, curr)) && curr < |src| then IdentifierEnd(src, curr + 1) else curr
  }

  /** A digit loop of `scan_number`: the maximal run of digits. */
  function DigitsEnd(src: string, curr: nat): (r: nat)
    requires curr <= |src|
    ensures curr <= r <= |src|
    ensures forall i :: curr <= i < r ==> IsDigit(src[i])
    ensures r == |src| || !IsDigit(src[r])
    decreases |src| - curr
  {
    if IsDigit(Peek(src, curr)) then DigitsEnd(src, curr + 1) else curr
  }

  /** The keyword `match` of `scan_identifer`. */
  function KeywordKind(text: string): Option<TokenKind> {
    if text == "and" then Some(And)
    else if text == "class" then Some(Class)
    else if text == "else" then Some(Else)
    else if text == "false" then Some(False)
    else if text == "fun" then Some(Fun)
    else if text == "for" then Some(For)
    else if text == "if" then Some(If)
    else if text == "nil" then Some(Nil)
    else if text == "or" then Some(Or)
    else if text == "print" then Some(Print)
    else if text == "return" then Some(Return)
    else if text == "super" then Some(Super)
    else if text == "this" then Some(This)
    else if text == "true" then Some(True)
    else if text == "var" then Some(TokenKind.Var)
    else if text == "while" then Some(While)
    else Option.None
  }

  /** The `KEYWORDS` map of src/main.rs. */
  const Keywords: map<string, TokenKind> := map[
    "and" := And, "class" := Class, "else" := Else, "false" := False,
    "fun" := Fun, "for" := For, "if" := If, "nil" := Nil,
    "or" := Or, "print" := Print, "return" := Return, "super" := Super,
    "this" := This, "true" := True, "var" := TokenKind.Var, "while" := While
  ]

  /** The kind an identifier-shaped lexeme gets in each dialect. */
  function IdentifierKind(d: Dialect, text: string): (k: TokenKind)
    ensures k != EOF && k != BitwiseAnd && k != BitwiseOr
  {
    match d
    case Current => (match KeywordKind(text) case Some(k) => k case None => Identifier)
    case Legacy => if text in Keywords then Keywords[text] else Identifier
  }

  /** `scan_identifer`, entered after the first letter: the maximal run of
      identifier characters, classified as a keyword or an identifier. */
  function ScanIdentifier(d: Dialect, src: string, start: nat, line: nat): (r: Outcome<Step, string>)
    requires start < |src|
    ensures r.Ok? && r.value.line == line && r.value.token.Some?
    ensures r.value.next == IdentifierEnd(src, start + 1)
    ensures r.value.token.value == Token(IdentifierKind(d, src[start..r.value.next]), src[start..r.value.next], LiteralValue.None, line)
  {
    var end := IdentifierEnd(src, start + 1);
    Simple(src, start, end, line, IdentifierKind(d, src[start..end]))
  }

  /** The loop of `scan_string`: from inside the string, the index of the
      closing quote and the line counter there, or `None` at the end. */
  function StringBody(src: string, curr: nat, line: nat): (r: Option<(nat, nat)>)
    requires curr <= |src|
    ensures r.None? <==> forall i :: curr <= i < |src| ==> src[i] != '"'
    ensures r.Some? ==>
      && curr <= r.value.0 < |src|
      && src[r.value.0] == '"'
      && (forall i :: curr <= i < r.value.0 ==> src[i] != '"')
      && r.value.1 == line + CountIn(src, '\n', curr, r.value.0)
    decreases |src| - curr
  {
    if Peek(src, curr) != '"' && curr < |src| then
      var r := StringBody(src, curr + 1, if Peek(src, curr) == '\n' then line + 1 else line);
      r
    else if curr >= |src| then Option.None
    else Some((curr, line))
  }

  /** `scan_string`, entered after the opening quote. */
  function ScanString(src: string, start: nat, line: nat): (r: Outcome<Step, string>)
    requires start < |src|
    ensures !r.Err?
    ensures r.Panic? <==> forall i :: start + 1 <= i < |src| ==> src[i] != '"'
    ensures r.Panic? ==> r.message == UnterminatedString
    ensures r.Ok? ==>
      var close := r.value.next - 1;
      && start < close < |src|
      && src[close] == '"'
      && (forall i :: start + 1 <= i < close ==> src[i] != '"')
      && r.value.line == line + CountIn(src, '\n', start + 1, close)
      && r.value.token == Some(Token(String, src[start..close + 1], Str(src[start + 1..close]), r.value.line))
  {
    match StringBody(src, start + 1, line)
    case None => Panic(UnterminatedString)
    case Some((close, closeLine)) => StringToken(src, start, close, closeLine)
  }

  /** The `String` token from the opening quote at `start` to the closing
      one at `close`: the lexeme keeps the quotes, the value drops them. */
  function StringToken(src: string, start: nat, close: nat, line: nat): (r: Outcome<Step, string>)
    requires start < close < |src|
    ensures r.Ok? && r.value.next == close + 1 && r.value.line == line
    ensures r.value.token == Some(Token(String, src[start..close + 1], Str(src[start + 1..close]), line))
  {
    AddToken(src, start, close + 1, line, String, Str(src[start + 1..close]))
  }

  lemma SliceDigits(src: string, a: nat, b: nat)
    requires a <= b <= |src|
    requires forall i :: a <= i < b ==> IsDigit(src[i])
    ensures AllDigits(src[a..b])
  {
    forall k | 0 <= k < b - a ensures IsDigit(src[a..b][k]) {
      assert src[a..b][k] == src[a + k];
    }
  }

  /** A digit loop that starts on a non-digit consumes nothing. */
  lemma DigitsEndStops(src: string, curr: nat)
    requires curr <= |src| && (curr == |src| || !IsDigit(src[curr]))
    ensures DigitsEnd(src, curr) == curr
  {
  }

  /** The characters of a number: digits, with one `.` after the whole
      part when there is a fraction. */
  lemma NumberText(src: string, start: nat, whole: nat, fraction: bool, end: nat)
    requires start < whole <= |src| && IsDigit(src[start])
    requires forall i :: start + 1 <= i < whole ==> IsDigit(src[i])
    requires fraction ==> whole + 1 < |src| && src[whole] == '.' && end == DigitsEnd(src, whole + 1)
    requires !fraction ==> end == whole
    ensures forall i :: start <= i < end ==> IsDigit(src[i]) || src[i] == '.'
  {
  }

  /** `scan_number`, entered after the first digit: a digit run, then a `.`
      and a second digit run only when the `.` is followed by a digit. The
      value is the exact value of the consumed text. */
  function ScanNumber(src: string, start: nat, line: nat): (r: Outcome<Step, string>)
    requires start < |src| && IsDigit(src[start])
    ensures r.Ok? && r.value.line == line && r.value.token.Some? && r.value.next <= |src|
    ensures forall i :: start <= i < r.value.next ==> IsDigit(src[i]) || src[i] == '.'
    ensures r.value.token.value.kind == Number
    ensures var whole := DigitsEnd(src, start + 1);
            whole + 1 < |src| && src[whole] == '.' && IsDigit(src[whole + 1]) ==> r.value.next == DigitsEnd(src, whole + 1)
    ensures var whole := DigitsEnd(src, start + 1);
            !(whole + 1 < |src| && src[whole] == '.' && IsDigit(src[whole + 1])) ==> r.value.next == whole
    ensures AllDigits(src[start..DigitsEnd(src, start + 1)])
    ensures var whole := DigitsEnd(src, start + 1);
            r.value.next == whole ==> r.value.token.value.literal == Float(DecimalValue(src[start..whole], ""))
    ensures var whole := DigitsEnd(src, start + 1);
            r.value.next > whole ==>
              && whole + 1 < r.value.next && src[whole] == '.'
              && AllDigits(src[whole + 1..r.value.next])
              && r.value.token.value.literal == Float(DecimalValue(src[start..whole], src[whole + 1..r.value.next]))
  {
    var whole := DigitsEnd(src, start + 1);
    var fraction := Peek(src, whole) == '.' && IsDigit(PeekNext(src, whole));
    assert fraction <==> whole + 1 < |src| && src[whole] == '.' && IsDigit(src[whole + 1]);
    var end := DigitsEnd(src, if fraction then whole + 1 else whole);
    NumberParts(src, start, whole, fraction, end);
    NumberToken(src, start, whole, end, line)
  }

  /** The spans `scan_number` cuts: digits up to `whole`, and digits after
      a `.` up to `end` exactly when there is a fraction. */
  lemma NumberParts(src: string, start: nat, whole: nat, fraction: bool, end: nat)
    requires start < |src| && IsDigit(src[start]) && whole == DigitsEnd(src, start + 1)
    requires fraction <==> whole + 1 < |src| && src[whole] == '.' && IsDigit(src[whole + 1])
    requires end == DigitsEnd(src, if fraction then whole + 1 else whole)
    ensures start < whole <= end <= |src| && AllDigits(src[start..whole])
    ensures fraction <==> end > whole
    ensures end > whole ==> whole + 1 < end && AllDigits(src[whole + 1..end])
    ensures forall i :: start <= i < end ==> IsDigit(src[i]) || src[i] == '.'
  {
    SliceDigits(src, start, whole);
    if fraction {
      SliceDigits(src, whole + 1, end);
    } else {
      DigitsEndStops(src, whole);
    }
    NumberText(src, start, whole, fraction, end);
  }

  /** The `Number` token of `src[start..end]`, whose whole part ends at
      `whole` and whose fraction, if any, follows a `.` there. */
  function NumberToken(src: string, start: nat, whole: nat, end: nat, line: nat): (r: Outcome<Step, string>)
    requires start < whole <= end <= |src| && AllDigits(src[start..whole])
    requires end > whole ==> whole + 1 < end && AllDigits(src[whole + 1..end])
    ensures r.Ok? && r.value.line == line && r.value.next == end
    ensures r.value.token == Some(Token(Number, src[start..end], Float(DecimalValue(src[start..whole], if end > whole then src[whole + 1..end] else "")), line))
  {
    var fraction := if end > whole then src[whole + 1..end] else "";
    AddToken(src, start, end, line, Number, Float(DecimalValue(src[start..whole], fraction)))
  }

  /** `scan_single_token`: one iteration of the scanning loop, from the
      character at `start`. An unexpected character and an unterminated
      string abort the whole scan. */
  function ScanSingle(d: Dialect, src: string, start: nat, line: nat): (r: Outcome<Step, string>)
    requires start < |src|
    ensures !r.Err?
    ensures r.Ok? ==> ValidStep(src, start, line, r.value)
    ensures r.Panic? ==> r.message == UnexpectedCharacter || r.message == UnterminatedString
  {
    var curr := start + 1;
    // Digits and letters match none of the literal arms below, so testing
    // them first selects the same arm as the source's final catch-all.
    if IsDigit(src[start]) then ScanNumber(src, start, line)
    else if IsAlpha(src[start]) then ScanIdentifier(d, src, start, line)
    else match src[start]
    case '(' => Simple(src, start, curr, line, LeftParen)
    case ')' => Simple(src, start, curr, line, RightParen)
    case '{' => Simple(src, start, curr, line, LeftBrace)
    case '}' => Simple(src, start, curr, line, RightBrace)
    case ',' => Simple(src, start, curr, line, Comma)
    case '.' => Simple(src, start, curr, line, Dot)
    case '-' => Simple(src, start, curr, line, Minus)
    case '+' => Simple(src, start, curr, line, Plus)
    case ';' => Simple(src, start, curr, line, Semicolon)
    case '*' => Simple(src, start, curr, line, Star)
    case '&' => if d == Current then Simple(src, start, curr, line, BitwiseAnd) else Panic(UnexpectedCharacter)
    case '|' => if d == Current then Simple(src, start, curr, line, BitwiseOr) else Panic(UnexpectedCharacter)
    case '!' =>
      var next := MatchExpr(src, curr, '=');
      Simple(src, start, next, line, if next > curr then BangEqual else Bang)
    case '=' =>
      var next := MatchExpr(src, curr, '=');
      Simple(src, start, next, line, if next > curr then EqualEqual else Equal)
    case '<' =>
      var next := MatchExpr(src, curr, '=');
      Simple(src, start, next, line, if next > curr then LessEqual else Less)
    case '>' =>
      var next := MatchExpr(src, curr, '=');
      Simple(src, start, next, line, if next > curr then GreaterEqual else Greater)
    case '/' =>
      if MatchExpr(src, curr, '/') > curr then Ok(Step(LineCommentEnd(src, curr + 1), line, Option.None))
      else if MatchExpr(src, curr, '*') > curr then Ok(Step(BlockCommentEnd(src, curr + 1), line, Option.None))
      else Simple(src, start, curr, line, Slash)
    case '"' => ScanString(src, start, line)
    case '\n' => Ok(Step(curr, line + 1, Option.None))
    case ' ' => Ok(Step(curr, line, Option.None))
    case '\r' => Ok(Step(curr, line, Option.None))
    case '\t' => Ok(Step(curr, line, Option.None))
    case _ => Panic(UnexpectedCharacter)
  }

  /** A token together with the source span `[start, end)` it was cut from. */
  datatype Lexed = Lexed(token: Token, start: nat, end: nat)

  /** The tokens before the end marker, with their spans, and the final value
      of the line counter. */
  datatype Lexing = Lexing(items: seq<Lexed>, line: nat)

  /** The positional invariant of the token list: every token is the
      non-empty slice of the source at its span, at or after `from`; spans come
      in source order without overlapping; lines never decrease and stay
      between `firstLine` and `lastLine`; no token is the end marker. */
  predicate Placed(src: string, from: nat, firstLine: nat, items: seq<Lexed>, lastLine: nat) {
    && (forall i :: 0 <= i < |items| ==>
          && from <= items[i].start < items[i].end <= |src|
          && items[i].token.lexeme == src[items[i].start..items[i].end]
          && items[i].token.kind != EOF
          && firstLine <= items[i].token.line <= lastLine)
    && (forall i, j :: 0 <= i < j < |items| ==>
          items[i].end <= items[j].start && items[i].token.line <= items[j].token.line)
  }

  /** The token a step added, with its span, as a list of zero or one. */
  function StepItems(start: nat, step: Step): seq<Lexed> {
    match step.token
    case Some(t) => [Lexed(t, start, step.next)]
    case None => []
  }

  /** The `while !self.is_at_end()` loop of `scan_tokens`, from cursor `curr`
      with line counter `line`. */
  function ScanFrom(d: Dialect, src: string, curr: nat, line: nat): (r: Outcome<Lexing, string>)
    requires curr <= |src|
    ensures !r.Err?
    ensures r.Ok? ==> line <= r.value.line && Placed(src, curr, line, r.value.items, r.value.line)
    ensures r.Panic? ==> r.message == UnexpectedCharacter || r.message == UnterminatedString
    decreases |src| - curr
  {
    if curr >= |src| then Ok(Lexing([], line))
    else
      var step :- ScanSingle(d, src, curr, line);
      var rest :- ScanFrom(d, src, step.next, step.line);
      PlacedAfterStep(src, curr, line, step, rest);
      Ok(Lexing(StepItems(curr, step) + rest.items, rest.line))
  }

  /** A valid step's token placed ahead of the tokens after it keeps the
      positional invariant. */
  lemma PlacedAfterStep(src: string, curr: nat, line: nat, step: Step, rest: Lexing)
    requires ValidStep(src, curr, line, step)
    requires step.line <= rest.line && Placed(src, step.next, step.line, rest.items, rest.line)
    ensures Placed(src, curr, line, StepItems(curr, step) + rest.items, rest.line)
  {
  }

  /** The scan from the start of the source, on line 1. */
  function Lex(d: Dialect, src: string): Outcome<Lexing, string> {
    ScanFrom(d, src, 0, 1)
  }

  function TokensOf(items: seq<Lexed>): (ts: seq<Token>)
    ensures |ts| == |items|
    ensures forall i :: 0 <= i < |items| ==> ts[i] == items[i].token
  {
    seq(|items|, i requires 0 <= i < |items| => items[i].token)
  }

  /** The end-of-input marker: empty lexeme, no value, the final line. */
  function EofToken(line: nat): Token {
    Token(EOF, "", LiteralValue.None, line)
  }

  /** `scan_tokens` (and `parse_tokens` in the `Legacy` dialect): the tokens of
      the source followed by exactly one end marker, or the abort. */
  function Scan(d: Dialect, src: string): (r: Outcome<seq<Token>, string>)
    requires Supported(src)
    ensures !r.Err?
    ensures r.Panic? ==> r.message == UnexpectedCharacter || r.message == UnterminatedString
    ensures r.Ok? ==>
      var ts := r.value;
      && |ts| >= 1
      && ts[|ts| - 1].kind == EOF
      && ts[|ts| - 1].lexeme == ""
      && ts[|ts| - 1].literal == LiteralValue.None
      && (forall i :: 0 <= i < |ts| - 1 ==> ts[i].kind != EOF && ts[i].lexeme != [])
      && (forall i :: 0 <= i < |ts| ==> 1 <= ts[i].line <= ts[|ts| - 1].line)
      && (forall i, j :: 0 <= i < j < |ts| ==> ts[i].line <= ts[j].line)
  {
    var lexing :- Lex(d, src);
    Ok(TokensOf(lexing.items) + [EofToken(lexing.line)])
  }

  /** The scan result once the tokens in `items` are already collected. */
  function Prefixed(items: seq<Lexed>, rest: Outcome<Lexing, string>): Outcome<Lexing, string> {
    match rest
    case Ok(l) => Ok(Lexing(items + l.items, l.line))
    case Err(e) => Err(e)
    case Panic(m) => Panic(m)
  }

  lemma PrefixedAppend(a: seq<Lexed>, b: seq<Lexed>, rest: Outcome<Lexing, string>)
    ensures Prefixed(a, Prefixed(b, rest)) == Prefixed(a + b, rest)
  {
    if rest.Ok? {
      assert a + (b + rest.value.items) == (a + b) + rest.value.items;
    }
  }

  /** One turn of the scanning loop: a failing step ends the scan with its
      abort, a succeeding one contributes its token ahead of the rest. */
  lemma ScanFromUnfold(d: Dialect, src: string, curr: nat, line: nat)
    requires curr < |src|
    ensures var step := ScanSingle(d, src, curr, line);
            ScanFrom(d, src, curr, line) ==
              if step.Ok? then Prefixed(StepItems(curr, step.value), ScanFrom(d, src, step.value.next, step.value.line))
              else Panic(step.message)
  {
  }

  /** `scan_tokens` as the source writes it: a loop over the cursor state that
      appends each step's token, then the end marker. */
  method ScanTokens(d: Dialect, src: string) returns (r: Outcome<seq<Token>, string>)
    requires Supported(src)
    ensures r == Scan(d, src)
  {
    var tokens: seq<Token> := [];
    var curr: nat := 0;
    var line: nat := 1;
    ghost var items: seq<Lexed> := [];
    assert Lex(d, src).Ok? ==> [] + Lex(d, src).value.items == Lex(d, src).value.items;
    while curr < |src|
      invariant curr <= |src|
      invariant Lex(d, src) == Prefixed(items, ScanFrom(d, src, curr, line))
      invariant tokens == TokensOf(items)
      decreases |src| - curr
    {
      var step := ScanSingle(d, src, curr, line);
      ScanFromUnfold(d, src, curr, line);
      if !step.Ok? {
        return Panic(step.message);
      }
      PrefixedAppend(items, StepItems(curr, step.value), ScanFrom(d, src, step.value.next, step.value.line));
      match step.value.token {
        case Some(t) => tokens := tokens + [t];
        case None =>
      }
      items := items + StepItems(curr, step.value);
      curr, line := step.value.next, step.value.line;
    }
    assert items + [] == items;
    assert Lex(d, src) == Ok(Lexing(items, line));
    r := Ok(tokens + [EofToken(line)]);
  }
}
