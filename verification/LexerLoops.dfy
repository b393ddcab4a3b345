/** The lexer's scanning loops over byte offsets, against the token functions. */
module LexerLoops {
  import opened Prelude
  import opened Utf8
  import opened Lexer

  /** From here the walk ends at `goal`. */
  ghost predicate Ends(step: Text -> nat, text: Text, k: nat, goal: nat)
  {
    k <= |text| && k + Walk(step, text[k..]) == goal
  }

  lemma EndsStep(step: Text -> nat, text: Text, k: nat, goal: nat)
    requires Ends(step, text, k, goal)
    ensures var n := step(text[k..]);
            if 0 < n <= |text| - k then Ends(step, text, k + n, goal) else k == goal
  {
    var n := step(text[k..]);
    if 0 < n <= |text| - k {
      DropDrop(text, k, n);
    }
  }

  lemma ClassStep(p: int -> bool, ok: Text -> bool, text: Text, k: nat, goal: nat)
    requires Decodes(ok) && At(ok, text, k) && k < |text| && Ends(InClass(p), text, k, goal)
    ensures !FirstIs(text[k..], p) ==> k == goal
    ensures FirstIs(text[k..], p) ==> At(ok, text, k + CharLen(text[k..])) && Ends(InClass(p), text, k + CharLen(text[k..]), goal)
  {
    CharNext(ok, text, k);
    ClassTakes(p, text[k..]);
    EndsStep(InClass(p), text, k, goal);
  }

  lemma ClassTakes(p: int -> bool, t: Text)
    ensures InClass(p)(t) == if FirstIs(t, p) then CharLen(t) else 0
  {
  }

  /** One character of a run on the way to `goal`, or none at it. */
  method TakeOfClass(p: int -> bool, text: Text, start: nat, ghost ok: Text -> bool, ghost goal: nat) returns (offset: nat, done: bool)
    requires Decodes(ok) && At(ok, text, start) && start < |text| && Ends(InClass(p), text, start, goal)
    ensures done ==> offset == goal
    ensures !done ==> start < offset && At(ok, text, offset) && Ends(InClass(p), text, offset, goal)
  {
    ClassStep(p, ok, text, start, goal);
    var rest := text[start..];
    if !FirstIs(rest, p) {
      return start, true;
    }
    return start + CharLen(rest), false;
  }

  method ScanRun(p: int -> bool, text: Text, start: nat, ghost ok: Text -> bool) returns (offset: nat)
    requires Decodes(ok) && At(ok, text, start)
    ensures offset == start + RunLen(p, text[start..])
  {
    ghost var goal := start + RunLen(p, text[start..]);
    offset := start;
    while offset < |text|
      invariant At(ok, text, offset) && Ends(InClass(p), text, offset, goal)
      decreases |text| - offset
    {
      var done;
      offset, done := TakeOfClass(p, text, offset, ok, goal);
      if done {
        return;
      }
    }
    EndsAtEnd(InClass(p), text, goal);
  }

  /** Line comments step by bytes. */
  method ScanLine(text: Text, start: nat) returns (offset: nat)
    requires start <= |text|
    ensures offset == start + LineLen(text[start..])
  {
    offset := start;
    while offset < |text| && text[offset] != Newline
      invariant offset <= |text| && offset + LineLen(text[offset..]) == start + LineLen(text[start..])
    {
      assert text[offset..][1..] == text[offset + 1..];
      offset := offset + 1;
    }
  }

  /** One character of a block comment on the way to `goal`, or none at its end mark. */
  method TakeOfBlock(text: Text, start: nat, ghost ok: Text -> bool, ghost goal: nat) returns (offset: nat, done: bool)
    requires Decodes(ok) && At(ok, text, start) && start < |text| && Ends(InBlock(), text, start, goal)
    ensures done ==> offset == goal
    ensures !done ==> start < offset && At(ok, text, offset) && Ends(InBlock(), text, offset, goal)
  {
    CharNext(ok, text, start);
    EndsStep(InBlock(), text, start, goal);
    if Starts(text[start..], 0x2A, 0x2F) {
      return start, true;
    }
    return start + CharLen(text[start..]), false;
  }

  method ScanBlock(text: Text, start: nat, ghost ok: Text -> bool) returns (offset: nat)
    requires Decodes(ok) && At(ok, text, start)
    ensures offset == start + BlockLen(text[start..])
  {
    ghost var goal := start + BlockLen(text[start..]);
    offset := start;
    while offset < |text|
      invariant At(ok, text, offset) && Ends(InBlock(), text, offset, goal)
      decreases |text| - offset
    {
      var done;
      offset, done := TakeOfBlock(text, offset, ok, goal);
      if done {
        return;
      }
    }
    EndsAtEnd(InBlock(), text, goal);
  }

  /** A round either ends the literal here, or the walk goes on behind it. */
  lemma RoundStep(ok: Text -> bool, text: Text, k: nat, quote: Byte, goal: nat)
    requires Decodes(ok) && At(ok, text, k) && k < |text| && Ends(InQuotes(quote), text, k, goal)
    ensures CharLen(text[k..]) > 0 && RoundLen(text[k..]) > 0
    ensures RoundEnds(text[k..], quote) ==> k == goal
    ensures !RoundEnds(text[k..], quote) ==>
              At(ok, text, k + RoundLen(text[k..])) && Ends(InQuotes(quote), text, k + RoundLen(text[k..]), goal)
  {
    CharNext(ok, text, k);
    RoundNext(ok, text[k..]);
    DropDrop(text, k, RoundLen(text[k..]));
    EndsStep(InQuotes(quote), text, k, goal);
  }

  /** What one round of the quoted literal's loop takes, and whether the loop stops. */
  method QuotedRound(rest: Text, quote: Byte) returns (n: nat, done: bool, terminated: bool)
    requires CharLen(rest) > 0
    ensures n == RoundLen(rest) && done == RoundEnds(rest, quote)
    ensures if done then terminated == ClosesHere(rest, quote) else !terminated
  {
    var next := Decode(rest);
    n, done, terminated := CharLen(rest), false, false;
    if next == Backslash && n < |rest| {
      n := n + CharLen(rest[n..]);
    } else if next == quote {
      done, terminated := true, true;
    } else if next == Newline {
      done := true;
    }
  }

  lemma WalkThenGoal(step: Text -> nat, last: Text -> nat, text: Text, start: nat, goal: nat)
    requires Ends(step, text, start, goal)
    ensures goal <= |text| && start + WalkThen(step, last, text[start..]) == goal + last(text[goal..])
    ensures text[start..][Walk(step, text[start..])..] == text[goal..]
  {
    DropDrop(text, start, goal - start);
  }

  method ScanQuoted(text: Text, start: nat, quote: Byte, ghost ok: Text -> bool) returns (offset: nat, terminated: bool)
    requires Decodes(ok) && At(ok, text, start)
    ensures offset == start + ClosingLen(text[start..], quote) && terminated == Closed(text[start..], quote)
  {
    ghost var goal := start + Walk(InQuotes(quote), text[start..]);
    WalkThenGoal(InQuotes(quote), RoundLen, text, start, goal);
    offset, terminated := ScanRounds(text, start, quote, ok, goal);
  }

  /** One round on the way to `goal`: past it, or closer to it. */
  method TakeRound(text: Text, start: nat, quote: Byte, ghost ok: Text -> bool, ghost goal: nat)
    returns (offset: nat, done: bool, terminated: bool)
    requires Decodes(ok) && At(ok, text, start) && start < |text| && Ends(InQuotes(quote), text, start, goal)
    ensures done ==> goal <= |text| && offset == goal + RoundLen(text[goal..]) && terminated == ClosesHere(text[goal..], quote)
    ensures !done ==> start < offset && At(ok, text, offset) && Ends(InQuotes(quote), text, offset, goal) && !terminated
  {
    RoundStep(ok, text, start, quote, goal);
    var n;
    n, done, terminated := QuotedRound(text[start..], quote);
    offset := start + n;
  }

  method ScanRounds(text: Text, start: nat, quote: Byte, ghost ok: Text -> bool, ghost goal: nat) returns (offset: nat, terminated: bool)
    requires Decodes(ok) && At(ok, text, start) && Ends(InQuotes(quote), text, start, goal)
    ensures goal <= |text| && offset == goal + RoundLen(text[goal..]) && terminated == ClosesHere(text[goal..], quote)
  {
    offset, terminated := start, false;
    while offset < |text|
      invariant At(ok, text, offset) && Ends(InQuotes(quote), text, offset, goal) && !terminated
      decreases |text| - offset
    {
      var done;
      offset, done, terminated := TakeRound(text, offset, quote, ok, goal);
      if done {
        return;
      }
    }
    EndsAtEnd(InQuotes(quote), text, goal);
  }

  lemma EndsAtEnd(step: Text -> nat, text: Text, goal: nat)
    requires Ends(step, text, |text|, goal)
    ensures goal == |text| && text[goal..] == []
  {
  }

  // ----- One token. -----

  method ScanFraction(rest: Text, start: nat, ghost ok: Text -> bool) returns (offset: nat)
    requires Decodes(ok) && At(ok, rest, start)
    ensures offset == FractionEnd(rest, start)
  {
    offset := start;
    if offset + 1 < |rest| && rest[offset] == 0x2E && IsDigit(rest[offset + 1]) {
      AsciiNext(ok, rest, offset);
      offset := ScanRun(IsDigitPart, rest, offset + 1, ok);
    }
  }

  method ScanExponent(rest: Text, start: nat, ghost ok: Text -> bool) returns (offset: nat)
    requires Decodes(ok) && At(ok, rest, start)
    ensures offset == ExponentEnd(rest, start)
  {
    offset := start;
    if offset < |rest| && IsExponentMark(rest[offset]) {
      AsciiNext(ok, rest, offset);
      offset := offset + 1;
      SignAt(ok, rest, offset);
      if offset < |rest| && IsSign(rest[offset]) {
        offset := offset + 1;
      }
      offset := ScanRun(IsDigitPart, rest, offset, ok);
    }
  }

  method ScanNumber(rest: Text, ghost ok: Text -> bool) returns (x: Lexeme)
    requires Decodes(ok) && At(ok, rest, 0) && rest != [] && IsDigit(rest[0])
    ensures x == NumberLexeme(rest)
  {
    AsciiNext(ok, rest, 0);
    if |rest| > 1 && rest[0] == 0x30 && IsRadixPrefix(rest[1]) {
      AsciiNext(ok, rest, 1);
      var offset := ScanRun(IsRadixPart, rest, 2, ok);
      return Lexeme(IntLit, offset, None);
    }
    var whole := ScanRun(IsDigitPart, rest, 1, ok);
    DigitsAt(ok, rest, 1);
    var fraction := ScanFraction(rest, whole, ok);
    FractionAt(ok, rest, whole);
    var offset := ScanExponent(rest, fraction, ok);
    return Lexeme(if offset > whole then FloatLit else IntLit, offset, None);
  }

  method ScanQuotedToken(rest: Text, kind: TokenKind, problem: Problem, ghost ok: Text -> bool) returns (x: Lexeme)
    requires Decodes(ok) && At(ok, rest, 0) && rest != [] && rest[0] < 0x80
    ensures x == QuotedLexeme(rest, kind, problem)
  {
    AsciiNext(ok, rest, 0);
    var offset, terminated := ScanQuoted(rest, 1, rest[0], ok);
    return Lexeme(kind, offset, if terminated then None else Some(problem));
  }

  method ScanBlockComment(rest: Text, ghost ok: Text -> bool) returns (x: Lexeme)
    requires Decodes(ok) && At(ok, rest, 0) && Starts(rest, 0x2F, 0x2A)
    ensures x == BlockCommentLexeme(rest)
  {
    AsciiNext(ok, rest, 0);
    AsciiNext(ok, rest, 1);
    var offset := ScanBlock(rest, 2, ok);
    if offset < |rest| {
      return Lexeme(Comment(Block), offset + 2, None);
    }
    return Lexeme(Comment(Block), offset, Some(UnterminatedBlockComment));
  }

  /** The first character and the run of class characters behind it. */
  method ScanFirstAndRun(p: int -> bool, rest: Text, ghost ok: Text -> bool) returns (offset: nat)
    requires Decodes(ok) && At(ok, rest, 0) && rest != []
    ensures offset == CharLen(rest) + RunLen(p, rest[CharLen(rest)..])
  {
    assert rest[0..] == rest;
    CharNext(ok, rest, 0);
    offset := ScanRun(p, rest, CharLen(rest), ok);
  }

  method ScanLiteral(rest: Text, c: int, ghost ok: Text -> bool) returns (r: Lexeme)
    requires Decodes(ok) && At(ok, rest, 0) && rest != [] && (c < 0x80 ==> rest[0] == c)
    ensures r == LiteralLexeme(rest, c)
  {
    if IsDigit(c) {
      r := ScanNumber(rest, ok);
    } else if c == Quote {
      r := ScanQuotedToken(rest, StringLit, UnterminatedString, ok);
    } else if c == Apostrophe {
      r := ScanQuotedToken(rest, CharLit, InvalidLiteral, ok);
    } else {
      r := MarkLexeme(rest);
    }
  }

  method ScanToken(x: Classes, rest: Text, ghost ok: Text -> bool) returns (r: Lexeme)
    requires Decodes(ok) && At(ok, rest, 0) && CharLen(rest) > 0
    ensures r == Next(x, rest)
  {
    DecodeScalar(rest);
    var c := Decode(rest);
    if x.whitespace(c) {
      var offset := ScanFirstAndRun(x.whitespace, rest, ok);
      r := Lexeme(Whitespace, offset, None);
    } else if Starts(rest, 0x2F, 0x2F) {
      var offset := ScanLine(rest, 2);
      r := Lexeme(Comment(Line), offset, None);
    } else if Starts(rest, 0x2F, 0x2A) {
      r := ScanBlockComment(rest, ok);
    } else if IsIdentStart(x, c) {
      var offset := ScanFirstAndRun(IdentContinue(x), rest, ok);
      var entry := x.keyword(rest[..offset]);
      r := Lexeme(if entry.Some? then Keyword(entry.value) else Ident, offset, None);
    } else {
      r := ScanLiteral(rest, c, ok);
    }
  }

  // ----- The whole text. -----

  lemma ProblemsCons(f: Scanner, t: Text, base: nat)
    requires Scans(f) && f.valid(t) && t != []
    ensures var n := f.next(t);
            0 < n.len <= |t| && f.valid(t[n.len..])
            && Problems(f, t, base) == (if n.problem.Some? then [Diagnostic(n.problem.value, base, base + n.len)] else [])
                                     + Problems(f, t[n.len..], base + n.len)
  {
  }

  /** The state of the lexing loop at an offset: what was produced, and what is still to come. */
  ghost predicate Lexed(f: Scanner, text: Text, offset: nat, tokens: seq<Token>, found: seq<Diagnostic>)
    requires Scans(f) && f.valid(text)
  {
    && offset <= |text| && f.valid(text[offset..])
    && tokens + Lex(f, text[offset..], offset) == Lex(f, text, 0)
    && found + Problems(f, text[offset..], offset) == Problems(f, text, 0)
  }

  lemma LexedStep(f: Scanner, text: Text, offset: nat, tokens: seq<Token>, found: seq<Diagnostic>, n: Lexeme)
    requires Scans(f) && f.valid(text) && Lexed(f, text, offset, tokens, found) && offset < |text| && n == f.next(text[offset..])
    ensures n.len > 0
    ensures Lexed(f, text, offset + n.len, tokens + [Token(n.kind, offset, offset + n.len)],
                  if n.problem.Some? then found + [Diagnostic(n.problem.value, offset, offset + n.len)] else found)
  {
    LexCons(f, text[offset..], offset);
    ProblemsCons(f, text[offset..], offset);
    DropDrop(text, offset, n.len);
  }

  lemma LexedStart(f: Scanner, text: Text)
    requires Scans(f) && f.valid(text)
    ensures Lexed(f, text, 0, [], [])
  {
    assert text[0..] == text;
  }

  lemma LexedEnd(f: Scanner, text: Text, tokens: seq<Token>, found: seq<Diagnostic>)
    requires Scans(f) && f.valid(text) && Lexed(f, text, |text|, tokens, found)
    ensures tokens + [Token(Eof, |text|, |text|)] == Lex(f, text, 0) && found == Problems(f, text, 0)
  {
    assert text[|text|..] == [];
  }

  method ScanFrom(x: Classes, ghost f: Scanner, text: Text, offset: nat) returns (r: Lexeme)
    requires f == ScannerFor(x) && offset < |text| && f.valid(text[offset..])
    ensures r == f.next(text[offset..])
  {
    Utf8Decodes();
    var rest := text[offset..];
    assert rest[0..] == rest && CharLen(rest) > 0;
    r := ScanToken(x, rest, Valid);
  }

  /** Records one token, and its problem if it has one. */
  method PushToken(ghost f: Scanner, text: Text, start: nat, before: seq<Token>, found: seq<Diagnostic>, r: Lexeme)
    returns (offset: nat, tokens: seq<Token>, diagnostics: seq<Diagnostic>)
    requires Scans(f) && f.valid(text) && Lexed(f, text, start, before, found) && start < |text|
    requires r == f.next(text[start..])
    ensures start < offset && Lexed(f, text, offset, tokens, diagnostics)
  {
    LexedStep(f, text, start, before, found, r);
    offset := start + r.len;
    tokens := before + [Token(r.kind, start, offset)];
    diagnostics := found;
    if r.problem.Some? {
      diagnostics := diagnostics + [Diagnostic(r.problem.value, start, offset)];
    }
  }

  /** One round of the lexing loop. */
  method TakeToken(x: Classes, ghost f: Scanner, text: Text, start: nat, before: seq<Token>, found: seq<Diagnostic>)
    returns (offset: nat, tokens: seq<Token>, diagnostics: seq<Diagnostic>)
    requires f == ScannerFor(x) && Scans(f) && f.valid(text) && Lexed(f, text, start, before, found) && start < |text|
    ensures start < offset && Lexed(f, text, offset, tokens, diagnostics)
  {
    var r := ScanFrom(x, f, text, start);
    offset, tokens, diagnostics := PushToken(f, text, start, before, found, r);
  }

  /** The lexer produces exactly the tokens and diagnostics of the token functions, for every valid text. */
  method LexText(x: Classes, text: Text) returns (tokens: seq<Token>, diagnostics: seq<Diagnostic>)
    requires Valid(text)
    ensures Scans(ScannerFor(x))
    ensures tokens == Lex(ScannerFor(x), text, 0) && diagnostics == Problems(ScannerFor(x), text, 0)
  {
    ScannerForUtf8(x);
    tokens, diagnostics := LexLoop(x, ScannerFor(x), text);
  }

  method LexLoop(x: Classes, ghost f: Scanner, text: Text) returns (tokens: seq<Token>, diagnostics: seq<Diagnostic>)
    requires f == ScannerFor(x) && Scans(f) && f.valid(text)
    ensures tokens == Lex(f, text, 0) && diagnostics == Problems(f, text, 0)
  {
    var offset: nat := 0;
    tokens, diagnostics := [], [];
    LexedStart(f, text);
    while offset < |text|
      invariant Lexed(f, text, offset, tokens, diagnostics)
      decreases |text| - offset
    {
      offset, tokens, diagnostics := TakeToken(x, f, text, offset, tokens, diagnostics);
    }
    LexedEnd(f, text, tokens, diagnostics);
    tokens := tokens + [Token(Eof, |text|, |text|)];
  }
}
