/** Properties of the scanner model: what each kind of step does, how the
    line counter relates to the newlines of the source, and worked scans. */
module ScannerFacts {
  import opened Wrappers
  import opened Chars
  import opened Common
  import opened Scanner

  /** The `match` of `scan_identifer` and the `KEYWORDS` map of src/main.rs
      hold the same sixteen keywords with the same kinds. */
  lemma KeywordTablesAgree(text: string)
    ensures KeywordKind(text) == (if text in Keywords then Some(Keywords[text]) else Option.None)
  {
    if text == "and" {
    } else if text == "class" {
    } else if text == "else" {
    } else if text == "false" {
    } else if text == "fun" {
    } else if text == "for" {
    } else if text == "if" {
    } else if text == "nil" {
    } else if text == "or" {
    } else if text == "print" {
    } else if text == "return" {
    } else if text == "super" {
    } else if text == "this" {
    } else if text == "true" {
    } else if text == "var" {
    } else if text == "while" {
    } else {
      assert text !in Keywords;
    }
  }

  /** So both dialects classify identifier text alike: a keyword kind exactly
      for the sixteen keywords, `Identifier` for everything else. */
  lemma IdentifierKindSameInBothDialects(text: string)
    ensures IdentifierKind(Current, text) == IdentifierKind(Legacy, text)
    ensures IdentifierKind(Current, text) == Identifier <==> text !in Keywords
  {
    KeywordTablesAgree(text);
  }

  /** `!`, `=`, `<` and `>` give the two-character kind exactly when the next
      character is `=`, which is then consumed; otherwise the one-character
      kind and nothing extra is consumed. */
  lemma OperatorLookahead(d: Dialect, src: string, start: nat, line: nat)
    requires start < |src| && src[start] in "!=<>"
    ensures var r := ScanSingle(d, src, start, line);
            var twoChar := start + 1 < |src| && src[start + 1] == '=';
            var c := src[start];
            && r.Ok? && r.value.line == line && r.value.token.Some?
            && r.value.next == (if twoChar then start + 2 else start + 1)
            && r.value.token.value.lexeme == src[start..r.value.next]
            && r.value.token.value.literal == LiteralValue.None
            && r.value.token.value.kind ==
                 if c == '!' then (if twoChar then BangEqual else Bang)
                 else if c == '=' then (if twoChar then EqualEqual else Equal)
                 else if c == '<' then (if twoChar then LessEqual else Less)
                 else (if twoChar then GreaterEqual else Greater)
  {
  }

  /** `//` skips up to, not including, the next newline; a block comment skips
      one character and then stops after the first star-slash pair or at the
      end, without counting newlines; a lone `/` is `Slash`. Comments add no
      token. */
  lemma SlashAndComments(d: Dialect, src: string, start: nat, line: nat)
    requires start < |src| && src[start] == '/'
    ensures var r := ScanSingle(d, src, start, line);
            && r.Ok? && r.value.line == line
            && (start + 1 < |src| && src[start + 1] == '/' ==>
                  && r.value.token.None?
                  && (r.value.next == |src| || src[r.value.next] == '\n')
                  && (forall i :: start <= i < r.value.next ==> src[i] != '\n'))
            && (start + 1 < |src| && src[start + 1] == '*' ==>
                  && r.value.token.None?
                  && (r.value.next == |src| || (start + 3 <= r.value.next - 2 && ClosesAt(src, r.value.next - 2)))
                  && (forall j :: start + 2 < j < r.value.next - 2 ==> !ClosesAt(src, j)))
            && (!(start + 1 < |src| && src[start + 1] in "/*") ==>
                  r.value == Step(start + 1, line, Some(Token(Slash, "/", LiteralValue.None, line))))
  {
    assert src[start..start + 1] == "/";
  }

  /** A letter or `_` starts an identifier. */
  lemma AlphaStartsIdentifier(d: Dialect, src: string, start: nat, line: nat)
    requires start < |src| && IsAlpha(src[start])
    ensures ScanSingle(d, src, start, line) == ScanIdentifier(d, src, start, line)
  {
    var c := src[start];
    assert ('a' <= c <= 'z') || ('A' <= c <= 'Z') || c == '_';
    assert !IsDigit(c);
  }

  /** An identifier is the maximal run of letters, digits and `_`, and it is
      a keyword exactly when its whole text is one. */
  lemma IdentifierMaximalMunch(d: Dialect, src: string, start: nat, line: nat)
    requires start < |src| && IsAlpha(src[start])
    ensures var r := ScanSingle(d, src, start, line);
            && r.Ok? && r.value.line == line && r.value.token.Some?
            && var end := r.value.next;
            && (forall i :: start <= i < end ==> IsAlphaNumeric(src[i]))
            && (end == |src| || !IsAlphaNumeric(src[end]))
            && r.value.token.value.lexeme == src[start..end]
            && (r.value.token.value.kind == Identifier <==> src[start..end] !in Keywords)
            && (src[start..end] in Keywords ==> r.value.token.value.kind == Keywords[src[start..end]])
  {
    AlphaStartsIdentifier(d, src, start, line);
    var r := ScanIdentifier(d, src, start, line);
    assert IsAlphaNumeric(src[start]);
    IdentifierKindSameInBothDialects(src[start..r.value.next]);
  }

  /** Space, tab and carriage return add nothing; a newline adds nothing but
      increments the line; a character no rule accepts aborts the scan, and
      so do `&` and `|` in the src/main.rs copy. */
  lemma LayoutAndUnexpected(d: Dialect, src: string, start: nat, line: nat)
    requires start < |src|
    ensures src[start] in " \r\t" ==> ScanSingle(d, src, start, line) == Ok(Step(start + 1, line, Option.None))
    ensures src[start] == '\n' ==> ScanSingle(d, src, start, line) == Ok(Step(start + 1, line + 1, Option.None))
    ensures src[start] !in "(){},.-+;*&|!=<>/\"\n \r\t" && !IsAlphaNumeric(src[start]) ==>
              ScanSingle(d, src, start, line) == Panic(UnexpectedCharacter)
    ensures src[start] in "&|" ==> (ScanSingle(d, src, start, line).Panic? <==> d == Legacy)
  {
  }

  /** A step from any character but a newline or a quote, other than a block
      comment, keeps the line and consumes no newline. */
  lemma NoNewlineStep(d: Dialect, src: string, start: nat, line: nat)
    requires start < |src| && src[start] != '\n' && src[start] != '"'
    requires !(src[start] == '/' && start + 1 < |src| && src[start + 1] == '*')
    requires ScanSingle(d, src, start, line).Ok?
    ensures var step := ScanSingle(d, src, start, line).value;
            && step.line == line
            && forall i :: start <= i < step.next ==> src[i] != '\n'
  {
    var c := src[start];
    if IsDigit(c) {
    } else if IsAlpha(c) {
      IdentifierMaximalMunch(d, src, start, line);
    } else if c == '/' {
      SlashAndComments(d, src, start, line);
    } else if c in "!=<>" {
      OperatorLookahead(d, src, start, line);
    } else {
      assert ScanSingle(d, src, start, line).value.next == start + 1;
    }
  }

  /** A step that is not a block comment raises the line counter by the
      number of newlines it consumed. */
  lemma StepCountsNewlines(d: Dialect, src: string, start: nat, line: nat)
    requires start < |src|
    requires !(src[start] == '/' && start + 1 < |src| && src[start + 1] == '*')
    requires ScanSingle(d, src, start, line).Ok?
    ensures var step := ScanSingle(d, src, start, line).value;
            step.line == line + CountIn(src, '\n', start, step.next)
  {
    var step := ScanSingle(d, src, start, line).value;
    var c := src[start];
    if c == '\n' {
      LayoutAndUnexpected(d, src, start, line);
      assert CountIn(src, '\n', start, start + 1) == 1;
    } else if c == '"' {
      QuoteStartsString(d, src, start, line);
      var close := step.next - 1;
      CountInSplit(src, '\n', start + 1, close, step.next);
    } else {
      NoNewlineStep(d, src, start, line);
      CountInAbsent(src, '\n', start, step.next);
    }
  }

  lemma QuoteStartsString(d: Dialect, src: string, start: nat, line: nat)
    requires start < |src| && src[start] == '"'
    ensures ScanSingle(d, src, start, line) == ScanString(src, start, line)
  {
  }

  /** No `/` is directly followed by `*`, so no block comment can start. */
  predicate NoBlockComment(src: string) {
    forall i :: 0 <= i < |src| - 1 ==> !(src[i] == '/' && src[i + 1] == '*')
  }

  /** Without block comments, every token's line is the starting line plus
      the newlines before the end of its lexeme, and the final line is the
      starting line plus all newlines after `curr`. */
  lemma {:induction false} ScanFromCountsNewlines(d: Dialect, src: string, curr: nat, line: nat)
    requires curr <= |src| && NoBlockComment(src)
    requires ScanFrom(d, src, curr, line).Ok?
    ensures var l := ScanFrom(d, src, curr, line).value;
            && l.line == line + CountIn(src, '\n', curr, |src|)
            && forall i :: 0 <= i < |l.items| ==>
                 l.items[i].token.line == line + CountIn(src, '\n', curr, l.items[i].end)
    decreases |src| - curr
  {
    var l := ScanFrom(d, src, curr, line).value;
    if curr < |src| {
      var step := ScanSingle(d, src, curr, line).value;
      StepCountsNewlines(d, src, curr, line);
      ScanFromUnfold(d, src, curr, line);
      ScanFromCountsNewlines(d, src, step.next, step.line);
      var rest := ScanFrom(d, src, step.next, step.line).value;
      assert l.items == StepItems(curr, step) + rest.items;
      CountInSplit(src, '\n', curr, step.next, |src|);
      LinesAfterStep(src, curr, line, step, rest.items);
    }
  }

  /** The line of each token after a step, counted from before the step. */
  lemma LinesAfterStep(src: string, curr: nat, line: nat, step: Step, rest: seq<Lexed>)
    requires curr < step.next <= |src|
    requires step.line == line + CountIn(src, '\n', curr, step.next)
    requires step.token.Some? ==> step.token.value.line == step.line
    requires forall i :: 0 <= i < |rest| ==> step.next <= rest[i].end <= |src|
    requires forall i :: 0 <= i < |rest| ==> rest[i].token.line == step.line + CountIn(src, '\n', step.next, rest[i].end)
    ensures var items := StepItems(curr, step) + rest;
            forall i :: 0 <= i < |items| ==> items[i].token.line == line + CountIn(src, '\n', curr, items[i].end)
  {
    var items := StepItems(curr, step) + rest;
    forall i | 0 <= i < |items|
      ensures items[i].token.line == line + CountIn(src, '\n', curr, items[i].end)
    {
      var k := |StepItems(curr, step)|;
      if i >= k {
        assert items[i] == rest[i - k];
        CountInSplit(src, '\n', curr, step.next, items[i].end);
      }
    }
  }

  /** The line counter starts at 1 and counts the newlines: in a source
      without block comments, the token whose lexeme ends at offset `e` is on
      line `1 +` the newlines before `e`, and the end marker is on line `1 +`
      all newlines of the source. */
  lemma LinesCountNewlines(d: Dialect, src: string)
    requires Supported(src) && NoBlockComment(src)
    requires Scan(d, src).Ok?
    ensures var ts := Scan(d, src).value;
            var items := Lex(d, src).value.items;
            && ts[|ts| - 1].line == 1 + Occurrences(src, '\n')
            && forall i :: 0 <= i < |items| ==> ts[i].line == 1 + CountIn(src, '\n', 0, items[i].end)
  {
    ScanFromCountsNewlines(d, src, 0, 1);
  }

  /** Space, tab, carriage return and newline: the characters that separate
      tokens. */
  predicate IsLayout(c: char) {
    c == ' ' || c == '\t' || c == '\r' || c == '\n'
  }

  /** A layout character adds no token; only a newline moves the line. */
  lemma LayoutStep(d: Dialect, src: string, start: nat, line: nat)
    requires start < |src| && IsLayout(src[start])
    ensures ScanSingle(d, src, start, line) ==
              Ok(Step(start + 1, if src[start] == '\n' then line + 1 else line, Option.None))
  {
  }

  /** Scanning from a layout character is scanning from the next one, with
      the line moved past a newline. */
  lemma LayoutScanStep(d: Dialect, src: string, curr: nat, line: nat)
    requires curr < |src| && IsLayout(src[curr])
    ensures var nextLine := if src[curr] == '\n' then line + 1 else line;
            ScanFrom(d, src, curr, line) == Prefixed([], ScanFrom(d, src, curr + 1, nextLine))
  {
    LayoutStep(d, src, curr, line);
    ScanFromUnfold(d, src, curr, line);
  }

  /** Every character from `curr` on is layout, walked one at a time. */
  predicate LayoutFrom(src: string, curr: nat)
    decreases |src| - curr
  {
    curr >= |src| || (IsLayout(src[curr]) && LayoutFrom(src, curr + 1))
  }

  lemma {:induction false} LayoutFromAll(src: string, curr: nat)
    requires curr <= |src|
    requires forall c :: c in src ==> IsLayout(c)
    ensures LayoutFrom(src, curr)
    decreases |src| - curr
  {
    if curr < |src| {
      assert src[curr] in src;
      LayoutFromAll(src, curr + 1);
    }
  }

  lemma {:induction false} LayoutScansToEof(d: Dialect, src: string, curr: nat, line: nat)
    requires curr <= |src| && LayoutFrom(src, curr)
    ensures ScanFrom(d, src, curr, line).Ok?
    ensures ScanFrom(d, src, curr, line).value.items == []
    decreases |src| - curr
  {
    if curr < |src| {
      var nextLine := if src[curr] == '\n' then line + 1 else line;
      LayoutScanStep(d, src, curr, line);
      LayoutScansToEof(d, src, curr + 1, nextLine);
    }
  }

  /** A scan that collects no token yields the end marker alone. */
  lemma EmptyLexScan(d: Dialect, src: string, last: nat)
    requires Supported(src)
    requires Lex(d, src) == Ok(Lexing([], last))
    ensures Scan(d, src) == Ok([EofToken(last)])
  {
    var none: seq<Lexed> := [];
    assert TokensOf(none) + [EofToken(last)] == [EofToken(last)];
  }

  lemma LayoutLex(d: Dialect, src: string)
    requires forall c :: c in src ==> IsLayout(c)
    ensures Lex(d, src) == Ok(Lexing([], 1 + Occurrences(src, '\n')))
  {
    LayoutFromAll(src, 0);
    LayoutHasNoBlockComment(src);
    LayoutScansToEof(d, src, 0, 1);
    ScanFromCountsNewlines(d, src, 0, 1);
    assert src[0..] == src;
  }

  lemma LayoutHasNoBlockComment(src: string)
    requires forall c :: c in src ==> IsLayout(c)
    ensures NoBlockComment(src)
  {
    forall i | 0 <= i < |src| - 1 ensures !(src[i] == '/' && src[i + 1] == '*') {
      assert src[i] in src;
    }
  }

  /** A source of spaces, tabs, carriage returns and newlines scans to the end
      marker alone, on line `1 +` its newlines. */
  lemma LayoutOnlyScansToEof(d: Dialect, src: string)
    requires Supported(src)
    requires forall c :: c in src ==> IsLayout(c)
    ensures Scan(d, src) == Ok([EofToken(1 + Occurrences(src, '\n'))])
  {
    LayoutLex(d, src);
    EmptyLexScan(d, src, 1 + Occurrences(src, '\n'));
  }

  /** A step from a digit is the number scan. */
  lemma DigitStartsNumber(d: Dialect, src: string, start: nat, line: nat)
    requires start < |src| && IsDigit(src[start])
    ensures ScanSingle(d, src, start, line) == ScanNumber(src, start, line)
  {
  }

  lemma DigitsRunToEnd(src: string, k: nat)
    requires k <= |src| && AllDigits(src)
    ensures DigitsEnd(src, k) == |src|
  {
  }

  lemma NumberOfDigits(src: string)
    requires |src| > 0 && AllDigits(src)
    ensures ScanNumber(src, 0, 1) == Ok(Step(|src|, 1, Some(Token(Number, src, Float(DigitsValue(src) as real), 1))))
  {
    DigitsRunToEnd(src, 1);
    assert src[0..|src|] == src;
    WholeDecimal(src);
  }

  /** A decimal without fraction is the value of its digits. */
  lemma WholeDecimal(s: string)
    requires AllDigits(s)
    ensures DecimalValue(s, "") == DigitsValue(s) as real
  {
    assert DigitsValue("") == 0 && Pow10(0) == 1;
  }

  /** A text of digits alone is one `Number` step whose value is the text's
      decimal value. */
  lemma DigitsScanToOneNumber(d: Dialect, src: string)
    requires |src| > 0 && AllDigits(src)
    ensures ScanSingle(d, src, 0, 1) == Ok(Step(|src|, 1, Some(Token(Number, src, Float(DigitsValue(src) as real), 1))))
  {
    DigitStartsNumber(d, src, 0, 1);
    NumberOfDigits(src);
  }

  /** Scanning the decimal text of a natural number gives one `Number` token
      whose value is that number, then the end marker. */
  lemma NumberRoundTrip(d: Dialect, n: nat)
    requires |NatToString(n)| < 255
    ensures Scan(d, NatToString(n)) == Ok([Token(Number, NatToString(n), Float(n as real), 1), EofToken(1)])
  {
    var src := NatToString(n);
    assert Supported(src) by {
      forall i | 0 <= i < |src| ensures src[i] as int < 128 {
        assert IsDigit(src[i]);
      }
    }
    NatToStringRoundTrip(n);
    DigitsScanToOneNumber(d, src);
    OneStepScan(d, src, Token(Number, src, Float(n as real), 1), 1);
  }

  /** A step the scanner takes, folded into the scan from its start. */
  lemma ScanFromStep(d: Dialect, src: string, curr: nat, line: nat, step: Step)
    requires curr < |src| && ScanSingle(d, src, curr, line) == Ok(step)
    ensures ScanFrom(d, src, curr, line) == Prefixed(StepItems(curr, step), ScanFrom(d, src, step.next, step.line))
  {
    ScanFromUnfold(d, src, curr, line);
  }

  /** A succeeding step ahead of a succeeding scan. */
  lemma ScanFromOk(d: Dialect, src: string, curr: nat, line: nat, step: Step, rest: Lexing)
    requires curr < |src| && ScanSingle(d, src, curr, line) == Ok(step)
    requires ScanFrom(d, src, step.next, step.line) == Ok(rest)
    ensures ScanFrom(d, src, curr, line) == Ok(Lexing(StepItems(curr, step) + rest.items, rest.line))
  {
    ScanFromUnfold(d, src, curr, line);
  }

  /** An aborting step aborts the scan from its start. */
  lemma ScanFromAbort(d: Dialect, src: string, curr: nat, line: nat, message: string)
    requires curr < |src| && ScanSingle(d, src, curr, line) == Panic(message)
    ensures ScanFrom(d, src, curr, line) == Panic(message)
  {
    ScanFromUnfold(d, src, curr, line);
  }

  /** A source whose first step consumes all of it scans to that step's
      token and the end marker. */
  lemma OneStepScan(d: Dialect, src: string, tok: Token, last: nat)
    requires Supported(src) && |src| > 0
    requires ScanSingle(d, src, 0, 1) == Ok(Step(|src|, last, Some(tok)))
    ensures Scan(d, src) == Ok([tok, EofToken(last)])
  {
    ScanFromStep(d, src, 0, 1, Step(|src|, last, Some(tok)));
    assert ScanFrom(d, src, |src|, last) == Ok(Lexing([], last));
    var one := [Lexed(tok, 0, |src|)];
    assert one + [] == one;
    assert TokensOf(one) + [EofToken(last)] == [tok, EofToken(last)];
  }

  /** A source that is one identifier-shaped word scans to one token, whose
      kind is the keyword the word spells or `Identifier`. */
  lemma WordScansToOneToken(d: Dialect, src: string)
    requires Supported(src) && |src| > 0 && IsAlpha(src[0])
    requires forall i :: 0 <= i < |src| ==> IsAlphaNumeric(src[i])
    ensures Scan(d, src) == Ok([Token(IdentifierKind(d, src), src, LiteralValue.None, 1), EofToken(1)])
  {
    var tok := Token(IdentifierKind(d, src), src, LiteralValue.None, 1);
    assert ScanSingle(d, src, 0, 1) == Ok(Step(|src|, 1, Some(tok))) by {
      AlphaStartsIdentifier(d, src, 0, 1);
      assert IdentifierEnd(src, 1) == |src|;
      assert src[0..|src|] == src;
    }
    OneStepScan(d, src, tok, 1);
  }
}

/** Worked scans of short sources. */
module ScannerExamples {
  import opened Wrappers
  import opened Chars
  import opened Common
  import opened Scanner
  import opened ScannerFacts

  /** A keyword is recognised only as a whole word: `classy` is an
      identifier, `class` the keyword, in both dialects. */
  lemma KeywordPrefixIsIdentifier()
    ensures Scan(Current, "classy") == Ok([Token(Identifier, "classy", LiteralValue.None, 1), EofToken(1)])
  {
    WordScansToOneToken(Current, "classy");
  }

  lemma KeywordIsKeyword(d: Dialect)
    ensures Scan(d, "class") == Ok([Token(Class, "class", LiteralValue.None, 1), EofToken(1)])
  {
    WordScansToOneToken(d, "class");
    KeywordTablesAgree("class");
  }

  /** `!` directly followed by `=` is one token. */
  lemma BangEqualIsOneToken()
    ensures Scan(Current, "!=") == Ok([Token(BangEqual, "!=", LiteralValue.None, 1), EofToken(1)])
  {
    var src := "!=";
    assert src[0] == '!' && src[1] == '=' && src[0..2] == src;
    OperatorLookahead(Current, src, 0, 1);
    OneStepScan(Current, src, Token(BangEqual, "!=", LiteralValue.None, 1), 1);
  }

  /** A `!` followed by anything else is `Bang` alone; the space adds nothing. */
  lemma BangSpaceIsBang()
    ensures Scan(Current, "! ") == Ok([Token(Bang, "!", LiteralValue.None, 1), EofToken(1)])
  {
    var src := "! ";
    assert src[0] == '!' && src[1] == ' ';
    BangThenBlank(src);
    ScanOfOne(Current, src, Lexed(Token(Bang, "!", LiteralValue.None, 1), 0, 1), 1);
  }

  /** `!` and a blank: the `!` alone, then nothing for the blank. */
  lemma BangThenBlank(src: string)
    requires |src| == 2 && src[0] == '!' && src[1] == ' '
    ensures Lex(Current, src) == Ok(Lexing([Lexed(Token(Bang, "!", LiteralValue.None, 1), 0, 1)], 1))
  {
    var bang := Token(Bang, "!", LiteralValue.None, 1);
    var none: seq<Lexed> := [];
    assert src[0..1] == "!";
    OperatorLookahead(Current, src, 0, 1);
    LayoutAndUnexpected(Current, src, 1, 1);
    assert ScanFrom(Current, src, 2, 1) == Ok(Lexing(none, 1));
    ScanFromOk(Current, src, 1, 1, Step(2, 1, Option.None), Lexing(none, 1));
    assert none + none == none;
    ScanFromOk(Current, src, 0, 1, Step(1, 1, Some(bang)), Lexing(none, 1));
    assert [Lexed(bang, 0, 1)] + none == [Lexed(bang, 0, 1)];
  }

  /** A string token carries the line of its closing quote, and its value
      is the text between the quotes, newline included. */
  lemma StringTakesClosingLine(d: Dialect)
    ensures Scan(d, "\"a\nb\"") == Ok([Token(String, "\"a\nb\"", Str("a\nb"), 2), EofToken(2)])
  {
    var src := "\"a\nb\"";
    assert src[0] == '"' && src[1] == 'a' && src[2] == '\n' && src[3] == 'b' && src[4] == '"';
    assert CountIn(src, '\n', 1, 4) == 1;
    assert src[0..5] == src && src[1..4] == "a\nb";
    OneStepScan(d, src, Token(String, src, Str("a\nb"), 2), 2);
  }

  /** A string that never closes aborts the whole scan. */
  lemma UnclosedStringAborts(d: Dialect)
    ensures Scan(d, "\"hello") == Panic(UnterminatedString)
  {
    var src := "\"hello";
    assert src[0] == '"' && forall i :: 1 <= i < |src| ==> src[i] != '"';
    ScanFromAbort(d, src, 0, 1, UnterminatedString);
  }

  // The block comment loop consumes one character before it first looks for
  // the close, so in slash-star-star-slash-x the star-slash right after the
  // opening is not seen and the comment runs to the end of the input.
  lemma EmptyBlockCommentRunsToEnd(d: Dialect)
    ensures Scan(d, "/**/x") == Ok([EofToken(1)])
  {
    var src := "/**/x";
    assert src[0] == '/' && src[1] == '*' && src[2] == '*' && src[3] == '/' && src[4] == 'x';
    SlashAndComments(d, src, 0, 1);
    ScanFromStep(d, src, 0, 1, Step(5, 1, Option.None));
    var none: seq<Lexed> := [];
    assert none + none == none;
    assert Lex(d, src) == Ok(Lexing(none, 1));
    EmptyLexScan(d, src, 1);
  }

  /** `&` is an unexpected character for the copy in src/main.rs... */
  lemma AmpersandAbortsLegacy()
    ensures Scan(Legacy, "a&b") == Panic(UnexpectedCharacter)
  {
    var src := "a&b";
    assert src[0] == 'a' && src[1] == '&' && src[0..1] == "a";
    var a := Token(Identifier, "a", LiteralValue.None, 1);
    IdentifierMaximalMunch(Legacy, src, 0, 1);
    KeywordTablesAgree("a");
    ScanFromStep(Legacy, src, 0, 1, Step(1, 1, Some(a)));
    ScanFromAbort(Legacy, src, 1, 1, UnexpectedCharacter);
  }

  lemma AmpersandTail()
    ensures ScanFrom(Current, "a&b", 1, 1) == Ok(Lexing([
              Lexed(Token(BitwiseAnd, "&", LiteralValue.None, 1), 1, 2),
              Lexed(Token(Identifier, "b", LiteralValue.None, 1), 2, 3)], 1))
  {
    var amp := Token(BitwiseAnd, "&", LiteralValue.None, 1);
    var lamp, lb := Lexed(amp, 1, 2), Lexed(Token(Identifier, "b", LiteralValue.None, 1), 2, 3);
    AmpersandStep();
    NameTail();
    ScanFromOk(Current, "a&b", 1, 1, Step(2, 1, Some(amp)), Lexing([lb], 1));
    assert [lamp] + [lb] == [lamp, lb];
  }

  /** The step over the `&` of `a&b` in src/scanner.rs. */
  lemma AmpersandStep()
    ensures ScanSingle(Current, "a&b", 1, 1) == Ok(Step(2, 1, Some(Token(BitwiseAnd, "&", LiteralValue.None, 1))))
  {
    var src := "a&b";
    assert src[1] == '&' && src[1..2] == "&";
  }

  /** The scan of the `b` at the end of `a&b`. */
  lemma NameTail()
    ensures ScanFrom(Current, "a&b", 2, 1) == Ok(Lexing([Lexed(Token(Identifier, "b", LiteralValue.None, 1), 2, 3)], 1))
  {
    var src := "a&b";
    assert src[2] == 'b' && src[2..3] == "b";
    var b := Token(Identifier, "b", LiteralValue.None, 1);
    IdentifierMaximalMunch(Current, src, 2, 1);
    KeywordTablesAgree("b");
    ScanFromStep(Current, src, 2, 1, Step(3, 1, Some(b)));
    var none: seq<Lexed> := [];
    assert ScanFrom(Current, src, 3, 1) == Ok(Lexing(none, 1));
    assert [Lexed(b, 2, 3)] + none == [Lexed(b, 2, 3)];
  }

  /** ... and a token of its own in src/scanner.rs. */
  lemma AmpersandIsTokenInCurrent()
    ensures Scan(Current, "a&b") == Ok([
              Token(Identifier, "a", LiteralValue.None, 1),
              Token(BitwiseAnd, "&", LiteralValue.None, 1),
              Token(Identifier, "b", LiteralValue.None, 1),
              EofToken(1)])
  {
    var a := Token(Identifier, "a", LiteralValue.None, 1);
    var amp := Token(BitwiseAnd, "&", LiteralValue.None, 1);
    var b := Token(Identifier, "b", LiteralValue.None, 1);
    AmpersandLex();
    ScanOfThree(Current, "a&b", Lexed(a, 0, 1), Lexed(amp, 1, 2), Lexed(b, 2, 3), 1);
  }

  /** A source that lexes to three items scans to their tokens and `EOF`. */
  lemma ScanOfThree(d: Dialect, src: string, x: Lexed, y: Lexed, z: Lexed, line: nat)
    requires Supported(src) && Lex(d, src) == Ok(Lexing([x, y, z], line))
    ensures Scan(d, src) == Ok([x.token, y.token, z.token, EofToken(line)])
  {
    ScanOfLexing(d, src, Lexing([x, y, z], line));
    var ts := TokensOf([x, y, z]);
    assert ts == [x.token, y.token, z.token];
    assert ts + [EofToken(line)] == [x.token, y.token, z.token, EofToken(line)];
  }

  /** A source that lexes to one item scans to its token and `EOF`. */
  lemma ScanOfOne(d: Dialect, src: string, x: Lexed, line: nat)
    requires Supported(src) && Lex(d, src) == Ok(Lexing([x], line))
    ensures Scan(d, src) == Ok([x.token, EofToken(line)])
  {
    ScanOfLexing(d, src, Lexing([x], line));
    assert TokensOf([x]) + [EofToken(line)] == [x.token, EofToken(line)];
  }

  /** A scan is the lexed tokens followed by `EOF`. */
  lemma ScanOfLexing(d: Dialect, src: string, lexing: Lexing)
    requires Supported(src) && Lex(d, src) == Ok(lexing)
    ensures Scan(d, src) == Ok(TokensOf(lexing.items) + [EofToken(lexing.line)])
  {
  }

  /** The three lexemes of `a&b` in src/scanner.rs. */
  lemma AmpersandLex()
    ensures Lex(Current, "a&b") == Ok(Lexing([
              Lexed(Token(Identifier, "a", LiteralValue.None, 1), 0, 1),
              Lexed(Token(BitwiseAnd, "&", LiteralValue.None, 1), 1, 2),
              Lexed(Token(Identifier, "b", LiteralValue.None, 1), 2, 3)], 1))
  {
    var src := "a&b";
    assert src[0] == 'a' && src[0..1] == "a";
    var a := Token(Identifier, "a", LiteralValue.None, 1);
    IdentifierMaximalMunch(Current, src, 0, 1);
    KeywordTablesAgree("a");
    ScanFromStep(Current, src, 0, 1, Step(1, 1, Some(a)));
    AmpersandTail();
    var la, lamp, lb := Lexed(a, 0, 1), Lexed(Token(BitwiseAnd, "&", LiteralValue.None, 1), 1, 2), Lexed(Token(Identifier, "b", LiteralValue.None, 1), 2, 3);
    assert [la] + [lamp, lb] == [la, lamp, lb];
  }
}
