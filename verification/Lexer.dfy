/** The lexer (crates/etas_syntax/src/lexer.rs), on UTF-8 bytes. */
module Lexer {
  import opened Prelude
  import opened Utf8

  datatype CommentKind = Line | Block

  /** A keyword is told by its table entry, a punctuation mark by its bytes. */
  datatype TokenKind =
    | Ident
    | IntLit
    | FloatLit
    | StringLit
    | CharLit
    | Keyword(entry: nat)
    | Punct(mark: Text)
    | Whitespace
    | Comment(comment: CommentKind)
    | Unknown
    | Eof

  datatype Token = Token(kind: TokenKind, start: nat, end: nat)

  datatype Problem = UnterminatedBlockComment | UnterminatedString | InvalidLiteral | UnexpectedToken

  datatype Diagnostic = Diagnostic(problem: Problem, start: nat, end: nat)

  /** The Unicode character classes and the keyword table. */
  datatype Classes = Classes(
    whitespace: int -> bool,
    alphabetic: int -> bool,
    alphanumeric: int -> bool,
    keyword: Text -> Option<nat>
  )

  const Newline: Byte := 0x0A
  const Quote: Byte := 0x22
  const Apostrophe: Byte := 0x27
  const Backslash: Byte := 0x5C
  const LBrace: TokenKind := Punct([0x7B])
  const RBrace: TokenKind := Punct([0x7D])

  predicate IsDigit(c: int)
  {
    0x30 <= c <= 0x39
  }

  predicate IsDigitPart(c: int)
  {
    IsDigit(c) || c == 0x5F
  }

  predicate IsRadixPart(c: int)
  {
    IsDigitPart(c) || 0x41 <= c <= 0x5A || 0x61 <= c <= 0x7A
  }

  /** One of x, X, o, O, b, B. */
  predicate IsRadixPrefix(c: int)
  {
    c in {0x78, 0x58, 0x6F, 0x4F, 0x62, 0x42}
  }

  predicate IsIdentStart(x: Classes, c: int)
  {
    c == 0x5F || x.alphabetic(c)
  }

  function IdentContinue(x: Classes): int -> bool
  {
    (c: int) => c == 0x5F || x.alphanumeric(c)
  }

  predicate Starts(t: Text, a: Byte, b: Byte)
  {
    |t| >= 2 && t[0] == a && t[1] == b
  }

  /** The text starts with a character of the class. */
  predicate FirstIs(t: Text, p: int -> bool)
  {
    CharLen(t) > 0 && p(Decode(t))
  }

  // ----- What each kind of token takes, as a function of the text that is left. -----

  /** Repeats a step while it takes something: the bytes taken in all. */
  function Walk(step: Text -> nat, t: Text): (n: nat)
    ensures n <= |t|
    decreases |t|
  {
    if 0 < step(t) <= |t| then step(t) + Walk(step, t[step(t)..]) else 0
  }

  /** One character of the class. */
  function InClass(p: int -> bool): Text -> nat
  {
    (t: Text) => if FirstIs(t, p) then CharLen(t) else 0
  }

  /** The bytes of the longest run of characters in the class. */
  function RunLen(p: int -> bool, t: Text): (n: nat)
    ensures n <= |t|
  {
    Walk(InClass(p), t)
  }

  /** Up to the first newline byte. */
  function LineLen(t: Text): (n: nat)
    ensures n <= |t| && (n < |t| ==> t[n] == Newline) && forall k :: 0 <= k < n ==> t[k] != Newline
  {
    if t == [] || t[0] == Newline then 0 else 1 + LineLen(t[1..])
  }

  /** One character of a block comment. */
  function InBlock(): Text -> nat
  {
    (t: Text) => if Starts(t, 0x2A, 0x2F) then 0 else CharLen(t)
  }

  /** Up to the next comment end, or all of it. */
  function BlockLen(t: Text): (n: nat)
    ensures n <= |t|
  {
    Walk(InBlock(), t)
  }

  /** The bytes one round of a quoted literal takes: an escaped pair or one character. */
  function RoundLen(t: Text): (n: nat)
    ensures CharLen(t) <= n <= |t|
  {
    var n := CharLen(t);
    if n > 0 && Decode(t) == Backslash && n < |t| then n + CharLen(t[n..]) else n
  }

  /** A round that is no escaped pair ends the literal on its quote or on a newline. */
  predicate RoundEnds(t: Text, quote: Byte)
  {
    CharLen(t) > 0 && !(Decode(t) == Backslash && CharLen(t) < |t|) && (Decode(t) == quote || Decode(t) == Newline)
  }

  /** One round that does not end the literal. */
  function InQuotes(quote: Byte): Text -> nat
  {
    (t: Text) => if RoundEnds(t, quote) then 0 else RoundLen(t)
  }

  /** A walk and one last step. */
  function WalkThen(step: Text -> nat, last: Text -> nat, t: Text): nat
  {
    Walk(step, t) + last(t[Walk(step, t)..])
  }

  /** What follows an opening quote: the rounds, and the one that ends them if there is one. */
  function ClosingLen(t: Text, quote: Byte): nat
  {
    WalkThen(InQuotes(quote), RoundLen, t)
  }

  predicate ClosesHere(t: Text, quote: Byte)
  {
    CharLen(t) > 0 && Decode(t) == quote
  }

  predicate Closed(t: Text, quote: Byte)
  {
    ClosesHere(t[Walk(InQuotes(quote), t)..], quote)
  }

  datatype Lexeme = Lexeme(kind: TokenKind, len: nat, problem: Option<Problem>)

  function QuotedLexeme(t: Text, kind: TokenKind, problem: Problem): Lexeme
    requires t != []
  {
    Lexeme(kind, 1 + ClosingLen(t[1..], t[0]), if Closed(t[1..], t[0]) then None else Some(problem))
  }

  /** The digits from an offset on. */
  function DigitsEnd(t: Text, n: nat): (r: nat)
    requires n <= |t|
    ensures n <= r <= |t|
  {
    n + RunLen(IsDigitPart, t[n..])
  }

  /** A fraction needs a dot and a digit right behind it. */
  function FractionEnd(t: Text, n: nat): (r: nat)
    requires n <= |t|
    ensures n <= r <= |t|
  {
    if n + 1 < |t| && t[n] == 0x2E && IsDigit(t[n + 1]) then DigitsEnd(t, n + 1) else n
  }

  predicate IsExponentMark(b: Byte)
  {
    b == 0x65 || b == 0x45
  }

  predicate IsSign(b: Byte)
  {
    b == 0x2B || b == 0x2D
  }

  function SignEnd(t: Text, n: nat): (r: nat)
    requires n <= |t|
    ensures n <= r <= |t|
  {
    if n < |t| && IsSign(t[n]) then n + 1 else n
  }

  /** An exponent needs only its letter. */
  function ExponentEnd(t: Text, n: nat): (r: nat)
    requires n <= |t|
    ensures n <= r <= |t|
  {
    if n < |t| && IsExponentMark(t[n]) then DigitsEnd(t, SignEnd(t, n + 1)) else n
  }

  function NumberLexeme(t: Text): Lexeme
    requires t != []
  {
    if |t| > 1 && t[0] == 0x30 && IsRadixPrefix(t[1]) then Lexeme(IntLit, 2 + RunLen(IsRadixPart, t[2..]), None)
    else
      var whole := DigitsEnd(t, 1);
      var end := ExponentEnd(t, FractionEnd(t, whole));
      Lexeme(if end > whole then FloatLit else IntLit, end, None)
  }

  const TwoByteMarks: set<(Byte, Byte)> := {
    (0x2D, 0x3E), (0x3D, 0x3E), (0x7E, 0x3E), (0x3A, 0x3A), (0x3D, 0x3D),
    (0x21, 0x3D), (0x3C, 0x3D), (0x3E, 0x3D), (0x26, 0x26), (0x7C, 0x7C)
  }

  const OneByteMarks: set<Byte> := {
    0x28, 0x29, 0x7B, 0x7D, 0x5B, 0x5D, 0x2C, 0x2E, 0x3A, 0x3B, 0x7C, 0x7E, 0x3D,
    0x21, 0x3C, 0x3E, 0x2B, 0x2D, 0x26, 0x2A, 0x2F, 0x25, 0x3F, 0x23, 0x40, 0x5E
  }

  /** Two-byte marks come first, anything unlisted is an unknown character. */
  function MarkLexeme(t: Text): Lexeme
    requires t != []
  {
    if |t| >= 2 && (t[0], t[1]) in TwoByteMarks then Lexeme(Punct([t[0], t[1]]), 2, None)
    else if t[0] in OneByteMarks then Lexeme(Punct([t[0]]), 1, None)
    else Lexeme(Unknown, CharLen(t), Some(UnexpectedToken))
  }

  function BlockCommentLexeme(t: Text): Lexeme
    requires |t| >= 2
  {
    var n := 2 + BlockLen(t[2..]);
    if n < |t| then Lexeme(Comment(Block), n + 2, None) else Lexeme(Comment(Block), n, Some(UnterminatedBlockComment))
  }

  function IdentLexeme(x: Classes, t: Text): Lexeme
  {
    var n := CharLen(t) + RunLen(IdentContinue(x), t[CharLen(t)..]);
    var entry := x.keyword(t[..n]);
    Lexeme(if entry.Some? then Keyword(entry.value) else Ident, n, None)
  }

  /** A number, a quoted literal or a mark. */
  function LiteralLexeme(t: Text, c: int): Lexeme
    requires t != []
  {
    if IsDigit(c) then NumberLexeme(t)
    else if c == Quote then QuotedLexeme(t, StringLit, UnterminatedString)
    else if c == Apostrophe then QuotedLexeme(t, CharLit, InvalidLiteral)
    else MarkLexeme(t)
  }

  /** The token at the start of the text that is left. */
  function Next(x: Classes, t: Text): Lexeme
    requires CharLen(t) > 0
  {
    var c := Decode(t);
    if x.whitespace(c) then Lexeme(Whitespace, CharLen(t) + RunLen(x.whitespace, t[CharLen(t)..]), None)
    else if Starts(t, 0x2F, 0x2F) then Lexeme(Comment(Line), 2 + LineLen(t[2..]), None)
    else if Starts(t, 0x2F, 0x2A) then BlockCommentLexeme(t)
    else if IsIdentStart(x, c) then IdentLexeme(x, t)
    else LiteralLexeme(t, c)
  }

  // ----- Every token ends on a character boundary. -----

  /** Well-formed text starts with a character, and what follows the character is well-formed. */
  ghost predicate Decodes(ok: Text -> bool)
  {
    forall t: Text {:trigger ok(t), CharLen(t)} :: ok(t) && t != [] ==> CharLen(t) > 0 && ok(t[CharLen(t)..])
  }

  /** A newline byte and the end of the text are always boundaries. */
  ghost predicate Resyncs(ok: Text -> bool)
  {
    forall t: Text, k: nat {:trigger ok(t[k..]), ok(t)} :: ok(t) && k <= |t| && (k < |t| ==> t[k] == Newline) ==> ok(t[k..])
  }

  lemma Utf8Decodes()
    ensures Decodes(Valid)
  {
    forall t: Text | Valid(t) && t != []
      ensures CharLen(t) > 0 && Valid(t[CharLen(t)..])
    {
      ValidRest(t);
    }
  }

  lemma Utf8Resyncs()
    ensures Resyncs(Valid)
  {
    forall t: Text, k: nat | Valid(t) && k <= |t| && (k < |t| ==> t[k] == Newline)
      ensures Valid(t[k..])
    {
      BoundaryExactly(t, k);
    }
  }

  /** The offset is a boundary. */
  ghost predicate At(ok: Text -> bool, t: Text, k: int)
  {
    0 <= k <= |t| && ok(t[k..])
  }

  lemma CharNext(ok: Text -> bool, t: Text, k: nat)
    requires Decodes(ok) && At(ok, t, k) && k < |t|
    ensures CharLen(t[k..]) > 0 && At(ok, t, k + CharLen(t[k..]))
  {
    DropDrop(t, k, CharLen(t[k..]));
  }

  lemma AsciiNext(ok: Text -> bool, t: Text, k: nat)
    requires Decodes(ok) && At(ok, t, k) && k < |t| && t[k] < 0x80
    ensures At(ok, t, k + 1)
  {
    CharNext(ok, t, k);
  }

  ghost predicate Keeps(step: Text -> nat, ok: Text -> bool)
  {
    forall t: Text {:trigger step(t)} :: ok(t) && 0 < step(t) <= |t| ==> ok(t[step(t)..])
  }

  /** A walk ends where its step takes nothing, and keeps what every step keeps. */
  lemma {:induction false} WalkStops(step: Text -> nat, ok: Text -> bool, t: Text)
    requires Keeps(step, ok) && ok(t)
    ensures var rest := t[Walk(step, t)..];
            ok(rest) && !(0 < step(rest) <= |rest|)
    decreases |t|
  {
    if 0 < step(t) <= |t| {
      WalkStops(step, ok, t[step(t)..]);
      DropDrop(t, step(t), Walk(step, t[step(t)..]));
    } else {
      assert t[0..] == t;
    }
  }

  lemma WalkAt(step: Text -> nat, ok: Text -> bool, t: Text, k: nat)
    requires Keeps(step, ok) && At(ok, t, k)
    ensures var n := k + Walk(step, t[k..]);
            At(ok, t, n) && !(0 < step(t[n..]) <= |t| - n)
  {
    WalkStops(step, ok, t[k..]);
    DropDrop(t, k, Walk(step, t[k..]));
  }

  lemma InClassKeeps(p: int -> bool, ok: Text -> bool)
    requires Decodes(ok)
    ensures Keeps(InClass(p), ok)
  {
    forall t: Text | ok(t) && 0 < InClass(p)(t) <= |t|
      ensures ok(t[InClass(p)(t)..])
    {
      assert CharLen(t) > 0;
    }
  }

  lemma InBlockKeeps(ok: Text -> bool)
    requires Decodes(ok)
    ensures Keeps(InBlock(), ok)
  {
    forall t: Text | ok(t) && 0 < InBlock()(t) <= |t|
      ensures ok(t[InBlock()(t)..])
    {
      assert CharLen(t) > 0;
    }
  }

  lemma RoundNext(ok: Text -> bool, t: Text)
    requires Decodes(ok) && ok(t)
    ensures ok(t[RoundLen(t)..]) && (t != [] ==> RoundLen(t) > 0)
  {
    if t == [] {
      assert t[0..] == t;
    } else {
      assert CharLen(t) > 0;
      var n := CharLen(t);
      if n < |t| {
        assert CharLen(t[n..]) > 0;
        DropDrop(t, n, CharLen(t[n..]));
      }
    }
  }

  lemma InQuotesKeeps(quote: Byte, ok: Text -> bool)
    requires Decodes(ok)
    ensures Keeps(InQuotes(quote), ok)
  {
    forall t: Text | ok(t) && 0 < InQuotes(quote)(t) <= |t|
      ensures ok(t[InQuotes(quote)(t)..])
    {
      RoundNext(ok, t);
    }
  }

  lemma RunAt(p: int -> bool, ok: Text -> bool, t: Text, k: nat)
    requires Decodes(ok) && At(ok, t, k)
    ensures At(ok, t, k + RunLen(p, t[k..]))
  {
    InClassKeeps(p, ok);
    WalkAt(InClass(p), ok, t, k);
  }

  /** A token is non-empty and ends on a boundary. */
  ghost predicate Fits(ok: Text -> bool, t: Text, x: Lexeme)
  {
    0 < x.len && At(ok, t, x.len) && x.kind != Eof
  }

  lemma DigitsAt(ok: Text -> bool, t: Text, n: nat)
    requires Decodes(ok) && At(ok, t, n)
    ensures At(ok, t, DigitsEnd(t, n))
  {
    RunAt(IsDigitPart, ok, t, n);
  }

  lemma SignAt(ok: Text -> bool, t: Text, n: nat)
    requires Decodes(ok) && At(ok, t, n)
    ensures At(ok, t, SignEnd(t, n))
  {
    if n < |t| && IsSign(t[n]) {
      AsciiNext(ok, t, n);
    }
  }

  lemma FractionAt(ok: Text -> bool, t: Text, n: nat)
    requires Decodes(ok) && At(ok, t, n)
    ensures At(ok, t, FractionEnd(t, n))
  {
    if n + 1 < |t| && t[n] == 0x2E && IsDigit(t[n + 1]) {
      AsciiNext(ok, t, n);
      DigitsAt(ok, t, n + 1);
    }
  }

  lemma ExponentAt(ok: Text -> bool, t: Text, n: nat)
    requires Decodes(ok) && At(ok, t, n)
    ensures At(ok, t, ExponentEnd(t, n))
  {
    if n < |t| && IsExponentMark(t[n]) {
      AsciiNext(ok, t, n);
      SignAt(ok, t, n + 1);
      DigitsAt(ok, t, SignEnd(t, n + 1));
    }
  }

  lemma NumberFits(ok: Text -> bool, t: Text)
    requires Decodes(ok) && At(ok, t, 0) && t != [] && IsDigit(t[0])
    ensures Fits(ok, t, NumberLexeme(t))
  {
    AsciiNext(ok, t, 0);
    if |t| > 1 && t[0] == 0x30 && IsRadixPrefix(t[1]) {
      AsciiNext(ok, t, 1);
      RunAt(IsRadixPart, ok, t, 2);
    } else {
      DigitsAt(ok, t, 1);
      FractionAt(ok, t, DigitsEnd(t, 1));
      ExponentAt(ok, t, FractionEnd(t, DigitsEnd(t, 1)));
    }
  }

  lemma WalkThenAt(step: Text -> nat, last: Text -> nat, ok: Text -> bool, t: Text)
    requires Keeps(step, ok) && ok(t)
    requires forall u: Text {:trigger last(u)} :: ok(u) ==> At(ok, u, last(u))
    ensures At(ok, t, WalkThen(step, last, t))
  {
    var n := Walk(step, t);
    WalkStops(step, ok, t);
    DropDrop(t, n, last(t[n..]));
  }

  lemma ClosingAt(ok: Text -> bool, t: Text, quote: Byte)
    requires Decodes(ok) && ok(t)
    ensures At(ok, t, ClosingLen(t, quote))
  {
    InQuotesKeeps(quote, ok);
    forall u: Text | ok(u)
      ensures At(ok, u, RoundLen(u))
    {
      RoundNext(ok, u);
    }
    WalkThenAt(InQuotes(quote), RoundLen, ok, t);
  }

  lemma QuotedFits(ok: Text -> bool, t: Text, kind: TokenKind, problem: Problem)
    requires Decodes(ok) && At(ok, t, 0) && t != [] && t[0] < 0x80 && kind != Eof
    ensures Fits(ok, t, QuotedLexeme(t, kind, problem))
  {
    AsciiNext(ok, t, 0);
    ClosingAt(ok, t[1..], t[0]);
    DropDrop(t, 1, ClosingLen(t[1..], t[0]));
  }

  lemma LineCommentFits(ok: Text -> bool, t: Text)
    requires Resyncs(ok) && ok(t) && Starts(t, 0x2F, 0x2F)
    ensures At(ok, t, 2 + LineLen(t[2..]))
  {
    var n := 2 + LineLen(t[2..]);
    assert n < |t| ==> t[n] == t[2..][n - 2];
  }

  lemma BlockCommentFits(ok: Text -> bool, t: Text)
    requires Decodes(ok) && At(ok, t, 0) && Starts(t, 0x2F, 0x2A)
    ensures Fits(ok, t, BlockCommentLexeme(t))
  {
    AsciiNext(ok, t, 0);
    AsciiNext(ok, t, 1);
    InBlockKeeps(ok);
    WalkAt(InBlock(), ok, t, 2);
    var n := 2 + BlockLen(t[2..]);
    if n < |t| {
      CharNext(ok, t, n);
      BlockStops(t, n);
      AsciiNext(ok, t, n);
      AsciiNext(ok, t, n + 1);
    }
  }

  lemma BlockStops(t: Text, n: nat)
    requires n <= |t| && CharLen(t[n..]) > 0 && !(0 < InBlock()(t[n..]) <= |t| - n)
    ensures n + 1 < |t| && t[n] == 0x2A && t[n + 1] == 0x2F
  {
    assert Starts(t[n..], 0x2A, 0x2F);
  }

  lemma RunFits(p: int -> bool, ok: Text -> bool, t: Text)
    requires Decodes(ok) && At(ok, t, 0) && t != []
    ensures CharLen(t) > 0 && At(ok, t, CharLen(t) + RunLen(p, t[CharLen(t)..]))
  {
    assert t[0..] == t;
    CharNext(ok, t, 0);
    RunAt(p, ok, t, CharLen(t));
  }

  lemma MarkFits(ok: Text -> bool, t: Text)
    requires Decodes(ok) && At(ok, t, 0) && t != []
    ensures Fits(ok, t, MarkLexeme(t))
  {
    assert t[0..] == t;
    CharNext(ok, t, 0);
    if |t| >= 2 && (t[0], t[1]) in TwoByteMarks {
      AsciiNext(ok, t, 0);
      AsciiNext(ok, t, 1);
    } else if t[0] in OneByteMarks {
      AsciiNext(ok, t, 0);
    }
  }

  lemma LiteralFits(ok: Text -> bool, t: Text, c: int)
    requires Decodes(ok) && At(ok, t, 0) && t != [] && (c < 0x80 ==> t[0] == c)
    ensures Fits(ok, t, LiteralLexeme(t, c))
  {
    if IsDigit(c) {
      NumberFits(ok, t);
    } else if c == Quote {
      QuotedFits(ok, t, StringLit, UnterminatedString);
    } else if c == Apostrophe {
      QuotedFits(ok, t, CharLit, InvalidLiteral);
    } else {
      MarkFits(ok, t);
    }
  }

  /** Every token of well-formed text is non-empty and leaves well-formed text. */
  lemma NextFits(ok: Text -> bool, x: Classes, t: Text)
    requires Decodes(ok) && Resyncs(ok) && ok(t) && t != []
    ensures CharLen(t) > 0 && Fits(ok, t, Next(x, t))
  {
    assert t[0..] == t && At(ok, t, 0);
    RunFits(x.whitespace, ok, t);
    DecodeScalar(t);
    var c := Decode(t);
    if x.whitespace(c) {
    } else if Starts(t, 0x2F, 0x2F) {
      LineCommentFits(ok, t);
    } else if Starts(t, 0x2F, 0x2A) {
      BlockCommentFits(ok, t);
    } else if IsIdentStart(x, c) {
      RunFits(IdentContinue(x), ok, t);
    } else {
      LiteralFits(ok, t, c);
    }
  }

  // ----- Whole texts. -----

  /** A way to take non-empty tokens off the front of well-formed text. */
  datatype Scanner = Scanner(valid: Text -> bool, next: Text -> Lexeme)

  ghost predicate Scans(f: Scanner)
  {
    forall t: Text {:trigger f.next(t)} :: f.valid(t) && t != [] ==>
      0 < f.next(t).len <= |t| && f.valid(t[f.next(t).len..]) && f.next(t).kind != Eof
  }

  /** The scanner's texts are the valid UTF-8 texts. */
  ghost predicate OnUtf8(f: Scanner)
  {
    Scans(f) && f.valid == Valid
  }

  function NextOf(x: Classes): Text -> Lexeme
  {
    (t: Text) => if CharLen(t) > 0 then Next(x, t) else Lexeme(Eof, 0, None)
  }

  function ScannerFor(x: Classes): Scanner
  {
    Scanner(Valid, NextOf(x))
  }

  lemma ScannerForUtf8(x: Classes)
    ensures OnUtf8(ScannerFor(x))
  {
    var f := ScannerFor(x);
    Utf8Decodes();
    Utf8Resyncs();
    forall t: Text | f.valid(t) && t != []
      ensures 0 < f.next(t).len <= |t| && f.valid(t[f.next(t).len..]) && f.next(t).kind != Eof
    {
      NextFits(Valid, x, t);
    }
  }

  /** The tokens of a text that starts at `base`, with the end-of-file token. */
  function Lex(f: Scanner, t: Text, base: nat): (r: seq<Token>)
    requires Scans(f) && f.valid(t)
    ensures r != []
    decreases |t|
  {
    if t == [] then [Token(Eof, base, base)]
    else
      var n := f.next(t);
      [Token(n.kind, base, base + n.len)] + Lex(f, t[n.len..], base + n.len)
  }

  function Problems(f: Scanner, t: Text, base: nat): seq<Diagnostic>
    requires Scans(f) && f.valid(t)
    decreases |t|
  {
    if t == [] then []
    else
      var n := f.next(t);
      (if n.problem.Some? then [Diagnostic(n.problem.value, base, base + n.len)] else []) + Problems(f, t[n.len..], base + n.len)
  }

  /** The tokens cover the range without gap or overlap and none is empty; end of file comes last. */
  predicate Tiles(tokens: seq<Token>, base: nat, end: nat)
  {
    && tokens != []
    && tokens[0].start == base
    && if |tokens| == 1 then base == end && tokens[0] == Token(Eof, end, end)
       else tokens[0].kind != Eof && base < tokens[0].end && Tiles(tokens[1..], tokens[0].end, end)
  }

  lemma LexCons(f: Scanner, t: Text, base: nat)
    requires Scans(f) && f.valid(t) && t != []
    ensures var n := f.next(t);
            0 < n.len <= |t| && f.valid(t[n.len..]) && n.kind != Eof
            && Lex(f, t, base) == [Token(n.kind, base, base + n.len)] + Lex(f, t[n.len..], base + n.len)
  {
  }

  /** Lexing is total and lossless: its tokens tile the text. */
  lemma {:induction false} LexTiles(f: Scanner, t: Text, base: nat)
    requires Scans(f) && f.valid(t)
    ensures Tiles(Lex(f, t, base), base, base + |t|)
    decreases |t|
  {
    if t != [] {
      var n := f.next(t);
      LexCons(f, t, base);
      var rest := Lex(f, t[n.len..], base + n.len);
      LexTiles(f, t[n.len..], base + n.len);
      assert Lex(f, t, base)[1..] == rest;
    }
  }

  /** The texts of the tokens, end to end. */
  function Glued(tokens: seq<Token>, t: Text): Text
  {
    if tokens == [] then []
    else (if tokens[0].start <= tokens[0].end <= |t| then t[tokens[0].start..tokens[0].end] else []) + Glued(tokens[1..], t)
  }

  /** Any stretch of tiling tokens has the text between its ends. */
  lemma {:induction false} GluedStretch(tokens: seq<Token>, base: nat, t: Text, k: nat)
    requires Tiles(tokens, base, |t|) && k < |tokens|
    ensures base <= tokens[k].start <= |t| && Glued(tokens[..k], t) == t[base..tokens[k].start]
    decreases k
  {
    TilesWithin(tokens, base, |t|);
    if k > 0 {
      TilesWithin(tokens[1..], tokens[0].end, |t|);
      GluedStretch(tokens[1..], tokens[0].end, t, k - 1);
      assert tokens[..k][1..] == tokens[1..][..k - 1];
      assert t[base..tokens[0].end] + t[tokens[0].end..tokens[k].start] == t[base..tokens[k].start];
    }
  }

  lemma {:induction false} TilesWithin(tokens: seq<Token>, base: nat, end: nat)
    requires Tiles(tokens, base, end)
    ensures base <= end && tokens[0].start <= tokens[0].end <= end
  {
    if |tokens| > 1 {
      TilesWithin(tokens[1..], tokens[0].end, end);
    }
  }

  /** Nothing is lost: the tokens of a text, end to end, are the text. */
  lemma LexLossless(f: Scanner, t: Text)
    requires Scans(f) && f.valid(t)
    ensures Glued(Lex(f, t, 0), t) == t
  {
    LexTiles(f, t, 0);
    TilesGlued(Lex(f, t, 0), t);
  }

  lemma TilesGlued(tokens: seq<Token>, t: Text)
    requires Tiles(tokens, 0, |t|)
    ensures Glued(tokens, t) == t
  {
    var last := |tokens| - 1;
    TilesLast(tokens, 0, |t|);
    GluedStretch(tokens, 0, t, last);
    assert tokens == tokens[..last] + [tokens[last]];
    GluedAppend(tokens[..last], [tokens[last]], t);
    GluedEof(|t|, t);
  }

  lemma GluedEof(n: nat, t: Text)
    ensures Glued([Token(Eof, n, n)], t) == []
  {
    assert [Token(Eof, n, n)][1..] == [];
  }

  lemma {:induction false} TilesLast(tokens: seq<Token>, base: nat, end: nat)
    requires Tiles(tokens, base, end)
    ensures tokens[|tokens| - 1] == Token(Eof, end, end)
  {
    if |tokens| > 1 {
      TilesLast(tokens[1..], tokens[0].end, end);
    }
  }

  lemma {:induction false} GluedAppend(a: seq<Token>, b: seq<Token>, t: Text)
    ensures Glued(a + b, t) == Glued(a, t) + Glued(b, t)
  {
    if a == [] {
      assert a + b == b;
    } else {
      assert (a + b)[1..] == a[1..] + b;
      GluedAppend(a[1..], b, t);
    }
  }

  function Shifted(tok: Token, d: nat): Token
  {
    Token(tok.kind, tok.start + d, tok.end + d)
  }

  function Shift(tokens: seq<Token>, d: nat): (r: seq<Token>)
  {
    if tokens == [] then [] else [Shifted(tokens[0], d)] + Shift(tokens[1..], d)
  }

  lemma ShiftCons(tok: Token, rest: seq<Token>, d: nat)
    ensures Shift([tok] + rest, d) == [Shifted(tok, d)] + Shift(rest, d)
  {
    assert ([tok] + rest)[1..] == rest;
  }

  lemma {:induction false} LexShifted(f: Scanner, t: Text, base: nat, d: nat)
    requires Scans(f) && f.valid(t)
    ensures Lex(f, t, base + d) == Shift(Lex(f, t, base), d)
    decreases |t|
  {
    if t != [] {
      var n := f.next(t);
      LexCons(f, t, base);
      LexCons(f, t, base + d);
      var rest := Lex(f, t[n.len..], base + n.len);
      LexShifted(f, t[n.len..], base + n.len, d);
      ShiftCons(Token(n.kind, base, base + n.len), rest, d);
    }
  }

  lemma LexTail(f: Scanner, t: Text, base: nat, i: nat)
    requires Scans(f) && f.valid(t) && 0 < i < |Lex(f, t, base)|
    ensures var n := f.next(t).len;
            t != [] && 0 < n <= |t| && f.valid(t[n..]) && i - 1 < |Lex(f, t[n..], base + n)|
            && Lex(f, t, base)[i..] == Lex(f, t[n..], base + n)[i - 1..] && Lex(f, t, base)[i] == Lex(f, t[n..], base + n)[i - 1]
  {
    if t != [] {
      LexCons(f, t, base);
    }
  }

  lemma {:induction false} LexFrom(f: Scanner, t: Text, base: nat, i: nat)
    requires Scans(f) && f.valid(t) && i < |Lex(f, t, base)|
    ensures var s := Lex(f, t, base)[i].start;
            base <= s <= base + |t| && f.valid(t[s - base..]) && Lex(f, t, base)[i..] == Lex(f, t[s - base..], s)
    decreases |t|
  {
    if i == 0 {
      LexTiles(f, t, base);
      assert t[0..] == t;
    } else {
      LexTail(f, t, base, i);
      var n := f.next(t).len;
      LexFrom(f, t[n..], base + n, i - 1);
      DropDrop(t, n, Lex(f, t[n..], base + n)[i - 1].start - base - n);
    }
  }

  /** Every token starts, and so every other token ends, on a character boundary: no slice can fail. */
  lemma LexBoundaries(f: Scanner, t: Text, i: nat)
    requires OnUtf8(f) && Valid(t) && i < |Lex(f, t, 0)|
    ensures var s := Lex(f, t, 0)[i].start;
            s <= |t| && (s == |t| || !IsTail(t[s]))
  {
    LexFrom(f, t, 0, i);
    BoundaryExactly(t, Lex(f, t, 0)[i].start);
  }

  /** Lexing the suffix at any token boundary gives the remaining tokens, shifted. */
  lemma RelexSuffix(f: Scanner, t: Text, i: nat)
    requires Scans(f) && f.valid(t) && i < |Lex(f, t, 0)|
    ensures var s := Lex(f, t, 0)[i].start;
            s <= |t| && f.valid(t[s..]) && Shift(Lex(f, t[s..], 0), s) == Lex(f, t, 0)[i..]
  {
    var s := Lex(f, t, 0)[i].start;
    LexFrom(f, t, 0, i);
    RelexShifted(f, t[s..], s);
  }

  lemma RelexShifted(f: Scanner, rest: Text, s: nat)
    requires Scans(f) && f.valid(rest)
    ensures Shift(Lex(f, rest, 0), s) == Lex(f, rest, s)
  {
    LexShifted(f, rest, 0, s);
  }
}
