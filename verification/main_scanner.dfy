/** The scanner copy in src/main.rs (`Parser::parse_tokens`): the `Legacy`
    dialect of the scanner model. It has no bitwise operators, its literal
    type has only none, string and number values, and on sources without
    `&` and `|` it produces exactly what src/scanner.rs produces. */
module MainScanner {
  import opened Wrappers
  import opened Chars
  import opened Common
  import opened Scanner
  import opened ScannerFacts

  /** A token the src/main.rs token type can hold: no `BitwiseAnd` or
      `BitwiseOr` kind, and a literal that is none, a string or a number. */
  predicate MainToken(t: Token) {
    && t.kind != BitwiseAnd && t.kind != BitwiseOr
    && (t.literal.None? || t.literal.Str? || t.literal.Float?)
  }

  /** Neither `&` nor `|` occurs in the source. */
  predicate NoBitwise(src: string) {
    forall i :: 0 <= i < |src| ==> src[i] != '&' && src[i] != '|'
  }

  /** Every step of either dialect adds only tokens `MainToken` admits,
      except the bitwise operators of src/scanner.rs. */
  lemma StepTokenShape(d: Dialect, src: string, start: nat, line: nat)
    requires start < |src|
    ensures var r := ScanSingle(d, src, start, line);
            r.Ok? && r.value.token.Some? ==>
              && (r.value.token.value.literal.None? || r.value.token.value.literal.Str? || r.value.token.value.literal.Float?)
              && (r.value.token.value.kind == BitwiseAnd ==> d == Current && src[start] == '&')
              && (r.value.token.value.kind == BitwiseOr ==> d == Current && src[start] == '|')
  {
    StepLiteralShape(d, src, start, line);
    StepBitwiseKinds(d, src, start, line);
  }

  /** A step's token carries no boolean or integer literal. */
  lemma StepLiteralShape(d: Dialect, src: string, start: nat, line: nat)
    requires start < |src|
    ensures var r := ScanSingle(d, src, start, line);
            r.Ok? && r.value.token.Some? ==>
              r.value.token.value.literal.None? || r.value.token.value.literal.Str? || r.value.token.value.literal.Float?
  {
    var c := src[start];
    if IsDigit(c) {
      DigitStartsNumber(d, src, start, line);
    } else if IsAlpha(c) {
      AlphaStartsIdentifier(d, src, start, line);
    }
  }

  /** Only src/scanner.rs makes bitwise tokens, each from its character. */
  lemma StepBitwiseKinds(d: Dialect, src: string, start: nat, line: nat)
    requires start < |src|
    ensures var r := ScanSingle(d, src, start, line);
            r.Ok? && r.value.token.Some? ==>
              && (r.value.token.value.kind == BitwiseAnd ==> d == Current && src[start] == '&')
              && (r.value.token.value.kind == BitwiseOr ==> d == Current && src[start] == '|')
  {
    var c := src[start];
    if IsDigit(c) {
      DigitStartsNumber(d, src, start, line);
    } else if IsAlpha(c) {
      AlphaStartsIdentifier(d, src, start, line);
    } else if c in "!=<>" {
      OperatorLookahead(d, src, start, line);
    }
  }

  /** The two dialects take the same step from any character but `&`
      and `|`. */
  lemma StepSameInBothDialects(src: string, start: nat, line: nat)
    requires start < |src| && src[start] != '&' && src[start] != '|'
    ensures ScanSingle(Legacy, src, start, line) == ScanSingle(Current, src, start, line)
  {
    var c := src[start];
    if IsDigit(c) {
      DigitStartsNumber(Legacy, src, start, line);
      DigitStartsNumber(Current, src, start, line);
    } else if IsAlpha(c) {
      AlphaStartsIdentifier(Legacy, src, start, line);
      AlphaStartsIdentifier(Current, src, start, line);
      IdentifierKindSameInBothDialects(src[start..IdentifierEnd(src, start + 1)]);
    }
  }

  lemma {:induction false} ScanFromSameInBothDialects(src: string, curr: nat, line: nat)
    requires curr <= |src| && NoBitwise(src)
    ensures ScanFrom(Legacy, src, curr, line) == ScanFrom(Current, src, curr, line)
    decreases |src| - curr
  {
    if curr < |src| {
      StepSameInBothDialects(src, curr, line);
      ScanFromUnfold(Legacy, src, curr, line);
      ScanFromUnfold(Current, src, curr, line);
      var step := ScanSingle(Current, src, curr, line);
      if step.Ok? {
        ScanFromSameInBothDialects(src, step.value.next, step.value.line);
      }
    }
  }

  lemma {:induction false} ScanFromMainTokens(d: Dialect, src: string, curr: nat, line: nat)
    requires curr <= |src|
    requires d == Legacy || NoBitwise(src)
    requires ScanFrom(d, src, curr, line).Ok?
    ensures forall i :: 0 <= i < |ScanFrom(d, src, curr, line).value.items| ==>
              MainToken(ScanFrom(d, src, curr, line).value.items[i].token)
    decreases |src| - curr
  {
    if curr < |src| {
      StepTokenShape(d, src, curr, line);
      ScanFromUnfold(d, src, curr, line);
      var step := ScanSingle(d, src, curr, line).value;
      ScanFromMainTokens(d, src, step.next, step.line);
    }
  }

  /** Every token of the src/main.rs scanner has a kind of its own token
      type, and on a source without `&` and `|` the two scanners give the
      same result, tokens and aborts alike. */
  lemma LegacyScanShape(src: string)
    requires Supported(src)
    ensures Scan(Legacy, src).Ok? ==> forall i :: 0 <= i < |Scan(Legacy, src).value| ==> MainToken(Scan(Legacy, src).value[i])
    ensures NoBitwise(src) ==> Scan(Legacy, src) == Scan(Current, src)
  {
    if Lex(Legacy, src).Ok? {
      ScanFromMainTokens(Legacy, src, 0, 1);
    }
    if NoBitwise(src) {
      ScanFromSameInBothDialects(src, 0, 1);
    }
  }

  /** `parse_tokens`: the tokens of the source and the end marker, all of
      them of the src/main.rs token type; on a source without `&` and `|`
      the same list src/scanner.rs produces. */
  function ParseTokens(src: string): (r: Outcome<seq<Token>, string>)
    requires Supported(src)
    ensures !r.Err?
    ensures r.Panic? ==> r.message == UnexpectedCharacter || r.message == UnterminatedString
    ensures r.Ok? ==> forall i :: 0 <= i < |r.value| ==> MainToken(r.value[i])
    ensures NoBitwise(src) ==> r == Scan(Current, src)
  {
    LegacyScanShape(src);
    Scan(Legacy, src)
  }
}
