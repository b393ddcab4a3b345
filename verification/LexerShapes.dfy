/** What the tokens of each kind look like, told without the scanning functions. */
module LexerShapes {
  import opened Prelude
  import opened Utf8
  import opened Lexer

  /** Every character of the text is in the class. */
  predicate AllOf(p: int -> bool, t: Text)
    decreases |t|
  {
    t == [] || (FirstIs(t, p) && AllOf(p, t[CharLen(t)..]))
  }

  lemma CharOfPrefix(t: Text, n: nat)
    requires 0 < CharLen(t) <= n <= |t|
    ensures CharLen(t[..n]) == CharLen(t) && Decode(t[..n]) == Decode(t)
  {
  }

  /** The run is the longest prefix of class characters. */
  lemma {:induction false} RunIsLongest(p: int -> bool, t: Text)
    ensures AllOf(p, t[..RunLen(p, t)]) && !FirstIs(t[RunLen(p, t)..], p)
    decreases |t|
  {
    if FirstIs(t, p) {
      var n := CharLen(t);
      var m := RunLen(p, t[n..]);
      RunOfFirst(p, t);
      RunIsLongest(p, t[n..]);
      CharOfPrefix(t, n + m);
      assert t[..n + m][n..] == t[n..][..m];
      DropDrop(t, n, m);
    } else {
      RunOfNone(p, t);
      assert t[..0] == [] && t[0..] == t;
    }
  }

  lemma RunOfFirst(p: int -> bool, t: Text)
    requires FirstIs(t, p)
    ensures RunLen(p, t) == CharLen(t) + RunLen(p, t[CharLen(t)..])
  {
    assert InClass(p)(t) == CharLen(t);
  }

  lemma RunOfNone(p: int -> bool, t: Text)
    requires !FirstIs(t, p)
    ensures RunLen(p, t) == 0
  {
    assert InClass(p)(t) == 0;
  }

  /** A first character and the longest run behind it. */
  ghost predicate LongestRun(p: int -> bool, t: Text, n: nat)
  {
    && 0 < CharLen(t) <= n <= |t|
    && AllOf(p, t[..n][CharLen(t)..])
    && !FirstIs(t[n..], p)
  }

  lemma RunShape(p: int -> bool, t: Text)
    requires CharLen(t) > 0
    ensures LongestRun(p, t, CharLen(t) + RunLen(p, t[CharLen(t)..]))
  {
    var n := CharLen(t);
    var m := RunLen(p, t[n..]);
    RunIsLongest(p, t[n..]);
    assert t[..n + m][n..] == t[n..][..m];
    DropDrop(t, n, m);
  }

  /** A line comment runs to the next newline or the end, and holds none. */
  ghost predicate LineShape(t: Text, n: nat)
  {
    2 <= n <= |t| && Starts(t, 0x2F, 0x2F) && (forall k :: 2 <= k < n ==> t[k] != Newline) && (n < |t| ==> t[n] == Newline)
  }

  lemma LineCommentShape(t: Text)
    requires Starts(t, 0x2F, 0x2F)
    ensures LineShape(t, 2 + LineLen(t[2..]))
  {
    var n := 2 + LineLen(t[2..]);
    assert forall k :: 2 <= k < n ==> t[k] == t[2..][k - 2];
    assert n < |t| ==> t[n] == t[2..][n - 2];
  }

  /** A mark is listed, and a one-byte mark is taken only when no two-byte mark fits. */
  ghost predicate MarkShape(t: Text, mark: Text)
  {
    || (|t| >= 2 && mark == [t[0], t[1]] && (t[0], t[1]) in TwoByteMarks)
    || (t != [] && mark == [t[0]] && t[0] in OneByteMarks && !(|t| >= 2 && (t[0], t[1]) in TwoByteMarks))
  }

  /** There is a comment end mark at the offset. */
  predicate MarkAt(t: Text, k: nat)
  {
    k + 1 < |t| && t[k] == 0x2A && t[k + 1] == 0x2F
  }

  /** A closed block comment ends with the first end mark behind its start; an open one has none. */
  ghost predicate BlockShape(t: Text, n: nat, problem: Option<Problem>)
  {
    && Starts(t, 0x2F, 0x2A)
    && (problem.None? ==> 4 <= n <= |t| && MarkAt(t, n - 2) && forall k :: 2 <= k < n - 2 ==> !MarkAt(t, k))
    && (problem.Some? ==> n == |t| && problem.value == UnterminatedBlockComment && forall k :: 2 <= k < |t| ==> !MarkAt(t, k))
  }

  /** The walk through a comment passes no end mark: neither at a character nor inside one. */
  lemma {:induction false} NoMarkPassed(t: Text, k: nat)
    requires k < BlockLen(t)
    ensures !MarkAt(t, k)
    decreases |t|
  {
    var n := CharLen(t);
    assert InBlock()(t) == n && n > 0;
    if k < n {
      CharBytes(t);
    } else {
      NoMarkPassed(t[n..], k - n);
    }
  }

  lemma BlockCommentShape(ok: Text -> bool, t: Text)
    requires Decodes(ok) && At(ok, t, 0) && Starts(t, 0x2F, 0x2A)
    ensures BlockShape(t, BlockCommentLexeme(t).len, BlockCommentLexeme(t).problem)
  {
    NoMarksBefore(t);
    BlockEnd(ok, t);
  }

  lemma NoMarksBefore(t: Text)
    requires |t| >= 2
    ensures forall k :: 2 <= k < 2 + BlockLen(t[2..]) ==> !MarkAt(t, k)
  {
    forall k | 2 <= k < 2 + BlockLen(t[2..])
      ensures !MarkAt(t, k)
    {
      NoMarkPassed(t[2..], k - 2);
    }
  }

  lemma BlockEnd(ok: Text -> bool, t: Text)
    requires Decodes(ok) && At(ok, t, 0) && Starts(t, 0x2F, 0x2A)
    ensures var n := 2 + BlockLen(t[2..]);
            n <= |t| && (n < |t| ==> MarkAt(t, n))
  {
    AsciiNext(ok, t, 0);
    AsciiNext(ok, t, 1);
    InBlockKeeps(ok);
    WalkAt(InBlock(), ok, t, 2);
    var n := 2 + BlockLen(t[2..]);
    if n < |t| {
      CharNext(ok, t, n);
      BlockStops(t, n);
    }
  }

  /** An unescaped backslash right before it escapes the byte. */
  predicate Escaped(t: Text, k: nat)
    requires k <= |t|
  {
    k > 0 && t[k - 1] == Backslash && !Escaped(t, k - 1)
  }

  /** The quote or a newline stands at the offset, unescaped. */
  predicate EndsAt(rest: Text, quote: Byte, k: nat)
  {
    k < |rest| && (rest[k] == quote || rest[k] == Newline) && !Escaped(rest, k)
  }

  /**
   * The text behind an opening quote is taken up to and with its first unescaped quote or newline, or to
   * its end when there is none; it is closed exactly when that is the quote.
   */
  ghost predicate EndShape(rest: Text, quote: Byte, n: nat, closed: bool)
  {
    && n <= |rest|
    && (forall k :: 0 <= k < n - 1 ==> !EndsAt(rest, quote, k))
    && (n < |rest| ==> n > 0 && EndsAt(rest, quote, n - 1))
    && (closed <==> n > 0 && EndsAt(rest, quote, n - 1) && rest[n - 1] == quote)
  }

  /** A literal is its opening quote and what follows it up to its end. */
  ghost predicate QuotedShape(t: Text, n: nat, closed: bool)
  {
    t != [] && n > 0 && EndShape(t[1..], t[0], n - 1, closed)
  }

  /** The last round closes the literal, or stops it at a newline, or there is none. */
  lemma LastRound(t: Text, quote: Byte)
    requires quote < 0x80 && (t == [] || (CharLen(t) > 0 && InQuotes(quote)(t) == 0))
    ensures ClosesHere(t, quote) ==> RoundLen(t) == 1 && t[0] == quote
    ensures !ClosesHere(t, quote) ==> t == [] || (RoundLen(t) == 1 && t[0] == Newline)
  {
    if t != [] {
      DecodeScalar(t);
      assert RoundEnds(t, quote);
    }
  }

  /** Where the rounds of a literal end, a round that ends it follows, or nothing. */
  lemma RoundsEnd(ok: Text -> bool, t: Text, quote: Byte)
    requires Decodes(ok) && ok(t)
    ensures var rest := t[Walk(InQuotes(quote), t)..];
            rest == [] || (CharLen(rest) > 0 && InQuotes(quote)(rest) == 0)
  {
    InQuotesKeeps(quote, ok);
    WalkStops(InQuotes(quote), ok, t);
    var rest := t[Walk(InQuotes(quote), t)..];
    if rest != [] {
      RoundNext(ok, rest);
      assert CharLen(rest) > 0;
    }
  }

  /** The bytes of a character of more than one byte are no ASCII bytes. */
  lemma WideBytes(u: Text, j: nat, k: nat)
    requires j <= k < |u| && k < j + CharLen(u[j..]) && (k > j || CharLen(u[j..]) > 1)
    ensures u[k] >= 0x80
  {
    CharBytes(u[j..]);
    assert u[k] == u[j..][k - j];
  }

  /** From `j` to `e` nothing at `k` would end a literal, and what stands at `e` is not escaped. */
  ghost predicate PassesTo(u: Text, j: nat, quote: Byte, k: nat, e: nat)
  {
    e <= |u| && (e == |u| || !Escaped(u, e)) && (j <= k < e ==> !EndsAt(u, quote, k))
  }

  lemma PairLen(ok: Text -> bool, u: Text, j: nat)
    requires Decodes(ok) && At(ok, u, j) && j + 1 < |u| && u[j] == Backslash
    ensures CharLen(u[j + 1..]) > 0 && RoundLen(u[j..]) == 1 + CharLen(u[j + 1..])
  {
    AsciiNext(ok, u, j);
    CharNext(ok, u, j + 1);
    var r := u[j..];
    assert r[0] == Backslash && r[1..] == u[j + 1..];
  }

  /** Behind an escaped pair nothing is escaped. */
  lemma PairEven(u: Text, j: nat)
    requires j + 1 < |u| && u[j] == Backslash && !Escaped(u, j) && CharLen(u[j + 1..]) > 0
    ensures var e := j + 1 + CharLen(u[j + 1..]);
            e <= |u| && !Escaped(u, e)
  {
    var m := CharLen(u[j + 1..]);
    assert Escaped(u, j + 1);
    if m > 1 {
      WideBytes(u, j + 1, j + m);
    }
  }

  /** An escaped pair holds nothing that would end the literal. */
  lemma PairClear(u: Text, j: nat, quote: Byte, k: nat)
    requires j + 1 < |u| && u[j] == Backslash && !Escaped(u, j) && quote < 0x80 && quote != Backslash
    requires j <= k < j + 1 + CharLen(u[j + 1..])
    ensures !EndsAt(u, quote, k)
  {
    if k == j + 1 {
      assert Escaped(u, k);
    } else if k > j + 1 {
      WideBytes(u, j + 1, k);
    }
  }

  lemma PairPasses(ok: Text -> bool, u: Text, j: nat, quote: Byte, k: nat)
    requires Decodes(ok) && At(ok, u, j) && j + 1 < |u| && u[j] == Backslash && !Escaped(u, j)
    requires quote < 0x80 && quote != Backslash
    ensures PassesTo(u, j, quote, k, j + RoundLen(u[j..]))
  {
    PairLen(ok, u, j);
    PairPassesTo(u, j, quote, k);
  }

  lemma PairPassesTo(u: Text, j: nat, quote: Byte, k: nat)
    requires j + 1 < |u| && u[j] == Backslash && !Escaped(u, j) && CharLen(u[j + 1..]) > 0
    requires quote < 0x80 && quote != Backslash
    ensures PassesTo(u, j, quote, k, j + 1 + CharLen(u[j + 1..]))
  {
    PairEven(u, j);
    if j <= k < j + 1 + CharLen(u[j + 1..]) {
      PairClear(u, j, quote, k);
    }
  }

  /** A single character that does not end the literal. */
  lemma CharacterPasses(u: Text, j: nat, quote: Byte, k: nat)
    requires j < |u| && CharLen(u[j..]) > 0 && !RoundEnds(u[j..], quote) && (u[j] == Backslash ==> j + 1 == |u|)
    requires quote < 0x80 && quote != Backslash
    ensures PassesTo(u, j, quote, k, j + RoundLen(u[j..]))
  {
    var n := CharLen(u[j..]);
    DecodeScalar(u[j..]);
    assert u[j..][0] == u[j];
    if n > 1 {
      WideBytes(u, j, j);
      WideBytes(u, j, j + n - 1);
    }
    if j < k < j + n {
      WideBytes(u, j, k);
    }
  }

  /** No unescaped quote or newline stands in the range. */
  ghost predicate Clear(u: Text, quote: Byte, a: nat, b: nat)
  {
    forall k: nat :: a <= k < b ==> !EndsAt(u, quote, k)
  }

  /** A round may start here: the offset is a boundary, and what stands there is not escaped. */
  ghost predicate RoundStart(ok: Text -> bool, u: Text, j: int)
  {
    At(ok, u, j) && (j == |u| || !Escaped(u, j))
  }

  lemma OneRound(ok: Text -> bool, u: Text, j: nat, quote: Byte)
    requires Decodes(ok) && RoundStart(ok, u, j) && j < |u| && quote < 0x80 && quote != Backslash && !RoundEnds(u[j..], quote)
    ensures RoundStart(ok, u, j + RoundLen(u[j..])) && Clear(u, quote, j, j + RoundLen(u[j..]))
  {
    CharNext(ok, u, j);
    RoundNext(ok, u[j..]);
    DropDrop(u, j, RoundLen(u[j..]));
    forall k: nat | j <= k < j + RoundLen(u[j..])
      ensures !EndsAt(u, quote, k)
    {
      RoundPasses(ok, u, j, quote, k);
    }
    RoundPasses(ok, u, j, quote, j);
  }

  lemma RoundPasses(ok: Text -> bool, u: Text, j: nat, quote: Byte, k: nat)
    requires Decodes(ok) && RoundStart(ok, u, j) && j < |u| && quote < 0x80 && quote != Backslash && !RoundEnds(u[j..], quote)
    ensures PassesTo(u, j, quote, k, j + RoundLen(u[j..]))
  {
    CharNext(ok, u, j);
    if u[j] == Backslash && j + 1 < |u| {
      PairPasses(ok, u, j, quote, k);
    } else {
      CharacterPasses(u, j, quote, k);
    }
  }

  /** Every step from a round start leads to a round start and passes nothing that would end the literal. */
  ghost predicate Passes(step: Text -> nat, ok: Text -> bool, u: Text, quote: Byte)
  {
    forall j: nat {:trigger RoundStart(ok, u, j)} :: j <= |u| && RoundStart(ok, u, j) && 0 < step(u[j..]) <= |u| - j ==>
      RoundStart(ok, u, j + step(u[j..])) && Clear(u, quote, j, j + step(u[j..]))
  }

  lemma {:induction false} WalkPasses(step: Text -> nat, ok: Text -> bool, u: Text, j: nat, quote: Byte)
    requires Passes(step, ok, u, quote) && j <= |u| && RoundStart(ok, u, j)
    ensures var e := j + Walk(step, u[j..]);
            e <= |u| && RoundStart(ok, u, e) && Clear(u, quote, j, e)
    decreases |u| - j
  {
    var n := step(u[j..]);
    if 0 < n <= |u| - j {
      assert RoundStart(ok, u, j + n) && Clear(u, quote, j, j + n);
      DropDrop(u, j, n);
      WalkPasses(step, ok, u, j + n, quote);
    }
  }

  lemma RoundsPass(ok: Text -> bool, u: Text, quote: Byte)
    requires Decodes(ok) && quote < 0x80 && quote != Backslash
    ensures Passes(InQuotes(quote), ok, u, quote)
  {
    forall j: nat | j <= |u| && RoundStart(ok, u, j) && 0 < InQuotes(quote)(u[j..]) <= |u| - j
      ensures RoundStart(ok, u, j + InQuotes(quote)(u[j..])) && Clear(u, quote, j, j + InQuotes(quote)(u[j..]))
    {
      assert !RoundEnds(u[j..], quote) && InQuotes(quote)(u[j..]) == RoundLen(u[j..]);
      OneRound(ok, u, j, quote);
    }
  }

  lemma RestPasses(ok: Text -> bool, rest: Text, quote: Byte)
    requires Decodes(ok) && ok(rest) && quote < 0x80 && quote != Backslash
    ensures var e := Walk(InQuotes(quote), rest);
            e <= |rest| && RoundStart(ok, rest, e) && Clear(rest, quote, 0, e)
  {
    RoundsPass(ok, rest, quote);
    WholeWalkPasses(InQuotes(quote), ok, rest, quote);
  }

  lemma WholeWalkPasses(step: Text -> nat, ok: Text -> bool, u: Text, quote: Byte)
    requires Passes(step, ok, u, quote) && ok(u)
    ensures Walk(step, u) <= |u| && RoundStart(ok, u, Walk(step, u)) && Clear(u, quote, 0, Walk(step, u))
  {
    assert u[0..] == u && RoundStart(ok, u, 0);
    WalkPasses(step, ok, u, 0, quote);
  }

  lemma LiteralEnd(ok: Text -> bool, rest: Text, quote: Byte)
    requires Decodes(ok) && ok(rest) && quote < 0x80 && quote != Backslash
    ensures EndShape(rest, quote, ClosingLen(rest, quote), Closed(rest, quote))
  {
    RoundsEnd(ok, rest, quote);
    RestPasses(ok, rest, quote);
    ClosingFrom(rest, Walk(InQuotes(quote), rest), quote);
  }

  lemma ClosingFrom(t: Text, e: nat, quote: Byte)
    requires quote < 0x80 && e <= |t| && Clear(t, quote, 0, e)
    requires t[e..] == [] || (CharLen(t[e..]) > 0 && InQuotes(quote)(t[e..]) == 0 && !Escaped(t, e))
    ensures EndShape(t, quote, e + RoundLen(t[e..]), ClosesHere(t[e..], quote))
  {
    LastRound(t[e..], quote);
    assert e < |t| ==> t[e..][0] == t[e];
  }

  lemma QuotedLiteralShape(ok: Text -> bool, t: Text, kind: TokenKind, problem: Problem)
    requires Decodes(ok) && At(ok, t, 0) && t != [] && t[0] < 0x80 && t[0] != Backslash
    ensures QuotedShape(t, QuotedLexeme(t, kind, problem).len, QuotedLexeme(t, kind, problem).problem.None?)
  {
    AsciiNext(ok, t, 0);
    LiteralEnd(ok, t[1..], t[0]);
  }

  /** Something behind the digits makes the number a float. */
  predicate GoesOn(t: Text, n: nat)
  {
    || (n + 1 < |t| && t[n] == 0x2E && IsDigit(t[n + 1]))
    || (n < |t| && IsExponentMark(t[n]))
  }

  predicate HasRadix(t: Text)
  {
    |t| > 1 && t[0] == 0x30 && IsRadixPrefix(t[1])
  }

  /** A radix literal, or a longest run of digits with neither fraction nor exponent behind it. */
  ghost predicate IntShape(t: Text, n: nat)
  {
    && t != [] && IsDigit(t[0]) && n <= |t|
    && (HasRadix(t) ==> 2 <= n && AllOf(IsRadixPart, t[2..n]) && !FirstIs(t[n..], IsRadixPart))
    && (!HasRadix(t) ==> LongestRun(IsDigitPart, t, n) && !GoesOn(t, n))
  }

  /** The digits from an offset, all of them and nothing else. */
  ghost predicate DigitsTo(t: Text, start: nat, end: nat)
  {
    start <= end <= |t| && AllOf(IsDigitPart, t[start..end]) && !FirstIs(t[end..], IsDigitPart)
  }

  ghost predicate FractionTo(t: Text, start: nat, end: nat)
  {
    if start + 1 < |t| && t[start] == 0x2E && IsDigit(t[start + 1]) then DigitsTo(t, start + 1, end) else end == start
  }

  ghost predicate ExponentTo(t: Text, start: nat, end: nat)
  {
    if start < |t| && IsExponentMark(t[start]) then
      DigitsTo(t, if start + 1 < |t| && IsSign(t[start + 1]) then start + 2 else start + 1, end)
    else end == start
  }

  /** A longest run of digits that goes on, with all of its fraction and all of its exponent. */
  ghost predicate FloatShape(t: Text, n: nat)
  {
    && t != [] && IsDigit(t[0]) && !HasRadix(t) && n <= |t|
    && exists whole: nat, fraction: nat ::
         LongestRun(IsDigitPart, t, whole) && GoesOn(t, whole) && FractionTo(t, whole, fraction) && ExponentTo(t, fraction, n)
  }

  lemma DigitsShape(t: Text, start: nat)
    requires start <= |t|
    ensures DigitsTo(t, start, DigitsEnd(t, start))
  {
    var m := RunLen(IsDigitPart, t[start..]);
    RunIsLongest(IsDigitPart, t[start..]);
    assert t[start..start + m] == t[start..][..m];
    DropDrop(t, start, m);
  }

  lemma FractionShape(t: Text, start: nat)
    requires start <= |t|
    ensures FractionTo(t, start, FractionEnd(t, start))
  {
    if start + 1 < |t| {
      DigitsShape(t, start + 1);
    }
  }

  lemma ExponentShape(t: Text, start: nat)
    requires start <= |t|
    ensures ExponentTo(t, start, ExponentEnd(t, start))
  {
    if start < |t| {
      DigitsShape(t, SignEnd(t, start + 1));
    }
  }

  lemma RadixShape(t: Text)
    requires HasRadix(t)
    ensures IntShape(t, NumberLexeme(t).len)
  {
    var m := RunLen(IsRadixPart, t[2..]);
    RunIsLongest(IsRadixPart, t[2..]);
    assert t[2..2 + m] == t[2..][..m];
    DropDrop(t, 2, m);
  }

  /** A token that goes on behind its digits is longer than them, any other is not. */
  lemma GoesOnExactly(t: Text, whole: nat)
    requires whole <= |t|
    ensures var end := ExponentEnd(t, FractionEnd(t, whole));
            whole <= end <= |t| && (end > whole <==> GoesOn(t, whole))
  {
  }

  lemma NumberShape(t: Text)
    requires CharLen(t) > 0 && IsDigit(t[0])
    ensures var r := NumberLexeme(t);
            r.problem.None? && (r.kind.IntLit? ==> IntShape(t, r.len)) && (r.kind.FloatLit? ==> FloatShape(t, r.len))
  {
    if HasRadix(t) {
      RadixShape(t);
    } else {
      assert CharLen(t) == 1;
      var whole := DigitsEnd(t, 1);
      var fraction := FractionEnd(t, whole);
      RunShape(IsDigitPart, t);
      assert LongestRun(IsDigitPart, t, whole);
      GoesOnExactly(t, whole);
      FractionShape(t, whole);
      ExponentShape(t, fraction);
    }
  }

  /** A comment starts here. */
  predicate CommentStart(t: Text)
  {
    Starts(t, 0x2F, 0x2F) || Starts(t, 0x2F, 0x2A)
  }

  /** The first character starts neither space nor a comment. */
  ghost predicate Substance(x: Classes, t: Text)
  {
    CharLen(t) > 0 && !x.whitespace(Decode(t)) && !CommentStart(t)
  }

  /** A name starts with a character that may start one and goes on as long as characters may continue it. */
  ghost predicate NameShape(x: Classes, t: Text, n: nat)
  {
    Substance(x, t) && IsIdentStart(x, Decode(t)) && n <= |t| && LongestRun(IdentContinue(x), t, n)
  }

  /** The first character starts neither space nor a comment nor a name. */
  ghost predicate Symbolic(x: Classes, t: Text)
  {
    Substance(x, t) && !IsIdentStart(x, Decode(t))
  }

  /** The first character starts no literal either. */
  ghost predicate Marked(x: Classes, t: Text)
  {
    Symbolic(x, t) && !IsDigit(Decode(t)) && t[0] != Quote && t[0] != Apostrophe
  }

  predicate SomeMark(t: Text)
  {
    (t != [] && t[0] in OneByteMarks) || (|t| >= 2 && (t[0], t[1]) in TwoByteMarks)
  }

  function ProblemUnless(closed: bool, problem: Problem): Option<Problem>
  {
    if closed then None else Some(problem)
  }

  ghost predicate LiteralShape(t: Text, r: Lexeme, quote: Byte, problem: Problem)
  {
    && t != [] && t[0] == quote && QuotedShape(t, r.len, r.problem.None?)
    && r.problem == ProblemUnless(r.problem.None?, problem)
  }

  /** Every token has the shape of its kind. */
  ghost predicate Shaped(x: Classes, t: Text, r: Lexeme)
  {
    match r.kind
    case Whitespace => FirstIs(t, x.whitespace) && LongestRun(x.whitespace, t, r.len) && r.problem.None?
    case Comment(Line) => CharLen(t) > 0 && !x.whitespace(Decode(t)) && LineShape(t, r.len) && r.problem.None?
    case Comment(Block) => CharLen(t) > 0 && !x.whitespace(Decode(t)) && BlockShape(t, r.len, r.problem)
    case Ident => NameShape(x, t, r.len) && x.keyword(t[..r.len]).None? && r.problem.None?
    case Keyword(entry) => NameShape(x, t, r.len) && x.keyword(t[..r.len]) == Some(entry) && r.problem.None?
    case Punct(mark) => Marked(x, t) && |mark| == r.len && MarkShape(t, mark) && r.problem.None?
    case StringLit => Symbolic(x, t) && LiteralShape(t, r, Quote, UnterminatedString)
    case CharLit => Symbolic(x, t) && LiteralShape(t, r, Apostrophe, InvalidLiteral)
    case IntLit => Symbolic(x, t) && IntShape(t, r.len) && r.problem.None?
    case FloatLit => Symbolic(x, t) && FloatShape(t, r.len) && r.problem.None?
    case Unknown => Marked(x, t) && !SomeMark(t) && r.len == CharLen(t) && r.problem == Some(UnexpectedToken)
    case Eof => false
  }

  lemma SymbolShape(ok: Text -> bool, x: Classes, t: Text, c: int)
    requires Decodes(ok) && At(ok, t, 0) && Symbolic(x, t) && c == Decode(t)
    ensures Shaped(x, t, LiteralLexeme(t, c))
  {
    DecodeScalar(t);
    if IsDigit(c) {
      NumberShape(t);
    } else if c == Quote {
      QuotedLiteralShape(ok, t, StringLit, UnterminatedString);
    } else if c == Apostrophe {
      QuotedLiteralShape(ok, t, CharLit, InvalidLiteral);
    }
  }

  lemma IdentShape(x: Classes, t: Text)
    requires Substance(x, t) && IsIdentStart(x, Decode(t))
    ensures Shaped(x, t, IdentLexeme(x, t))
  {
    RunShape(IdentContinue(x), t);
  }

  lemma SpaceShape(x: Classes, t: Text)
    requires FirstIs(t, x.whitespace)
    ensures Shaped(x, t, Lexeme(Whitespace, CharLen(t) + RunLen(x.whitespace, t[CharLen(t)..]), None))
  {
    RunShape(x.whitespace, t);
  }

  lemma CommentShape(ok: Text -> bool, x: Classes, t: Text)
    requires Decodes(ok) && At(ok, t, 0) && CharLen(t) > 0 && !x.whitespace(Decode(t))
    ensures Starts(t, 0x2F, 0x2F) ==> Shaped(x, t, Lexeme(Comment(Line), 2 + LineLen(t[2..]), None))
    ensures Starts(t, 0x2F, 0x2A) ==> Shaped(x, t, BlockCommentLexeme(t))
  {
    if Starts(t, 0x2F, 0x2F) {
      LineCommentShape(t);
    }
    if Starts(t, 0x2F, 0x2A) {
      BlockCommentShape(ok, t);
    }
  }

  /** The token at the start of any well-formed text has the shape of its kind. */
  lemma NextShape(ok: Text -> bool, x: Classes, t: Text)
    requires Decodes(ok) && ok(t) && t != []
    ensures CharLen(t) > 0 && Shaped(x, t, Next(x, t))
  {
    assert t[0..] == t && At(ok, t, 0);
    assert CharLen(t) > 0;
    DecodeScalar(t);
    var c := Decode(t);
    if x.whitespace(c) {
      SpaceShape(x, t);
    } else {
      CommentShape(ok, x, t);
      if !CommentStart(t) {
        if IsIdentStart(x, c) {
          IdentShape(x, t);
        } else {
          SymbolShape(ok, x, t, c);
        }
      }
    }
  }

  // ----- Only the right token has the shape. -----

  lemma {:induction false} RunUnique(p: int -> bool, t: Text, n: nat)
    requires n <= |t| && AllOf(p, t[..n]) && !FirstIs(t[n..], p)
    ensures n == RunLen(p, t)
    decreases |t|
  {
    if n == 0 {
      assert t[0..] == t;
      RunOfNone(p, t);
    } else {
      var c := CharLen(t[..n]);
      FirstOfPrefix(t, n);
      assert t[..n][c..] == t[c..][..n - c];
      DropDrop(t, c, n - c);
      RunUnique(p, t[c..], n - c);
      RunOfFirst(p, t);
    }
  }

  lemma FirstOfPrefix(t: Text, n: nat)
    requires n <= |t| && CharLen(t[..n]) > 0
    ensures CharLen(t) == CharLen(t[..n]) && Decode(t) == Decode(t[..n])
  {
  }

  lemma LongestUnique(p: int -> bool, t: Text, n: nat)
    requires LongestRun(p, t, n)
    ensures n == CharLen(t) + RunLen(p, t[CharLen(t)..])
  {
    var c := CharLen(t);
    assert t[..n][c..] == t[c..][..n - c];
    DropDrop(t, c, n - c);
    RunUnique(p, t[c..], n - c);
  }

  lemma DigitsUnique(t: Text, start: nat, end: nat)
    requires DigitsTo(t, start, end)
    ensures end == DigitsEnd(t, start)
  {
    assert t[start..end] == t[start..][..end - start];
    DropDrop(t, start, end - start);
    RunUnique(IsDigitPart, t[start..], end - start);
  }

  lemma IntUnique(t: Text, n: nat)
    requires CharLen(t) > 0 && IntShape(t, n)
    ensures NumberLexeme(t) == Lexeme(IntLit, n, None)
  {
    if HasRadix(t) {
      assert t[2..n] == t[2..][..n - 2];
      DropDrop(t, 2, n - 2);
      RunUnique(IsRadixPart, t[2..], n - 2);
    } else {
      assert CharLen(t) == 1;
      LongestUnique(IsDigitPart, t, n);
      GoesOnExactly(t, n);
    }
  }

  lemma FloatUnique(t: Text, n: nat)
    requires CharLen(t) > 0 && FloatShape(t, n)
    ensures NumberLexeme(t) == Lexeme(FloatLit, n, None)
  {
    var whole: nat, fraction: nat :|
      LongestRun(IsDigitPart, t, whole) && GoesOn(t, whole) && FractionTo(t, whole, fraction) && ExponentTo(t, fraction, n);
    assert CharLen(t) == 1;
    LongestUnique(IsDigitPart, t, whole);
    assert whole == DigitsEnd(t, 1);
    FloatEnd(t, whole, fraction, n);
  }

  lemma FloatEnd(t: Text, whole: nat, fraction: nat, n: nat)
    requires whole <= |t| && GoesOn(t, whole) && FractionTo(t, whole, fraction) && ExponentTo(t, fraction, n)
    ensures n == ExponentEnd(t, FractionEnd(t, whole)) && n > whole
  {
    FractionUnique(t, whole, fraction);
    ExponentUnique(t, fraction, n);
    GoesOnExactly(t, whole);
  }

  lemma FractionUnique(t: Text, start: nat, end: nat)
    requires start <= |t| && FractionTo(t, start, end)
    ensures end == FractionEnd(t, start)
  {
    if start + 1 < |t| && t[start] == 0x2E && IsDigit(t[start + 1]) {
      DigitsUnique(t, start + 1, end);
    }
  }

  lemma ExponentUnique(t: Text, start: nat, end: nat)
    requires start <= |t| && ExponentTo(t, start, end)
    ensures end == ExponentEnd(t, start)
  {
    if start < |t| && IsExponentMark(t[start]) {
      DigitsUnique(t, SignEnd(t, start + 1), end);
    }
  }

  lemma LineUnique(t: Text, m: nat, n: nat)
    requires LineShape(t, m) && LineShape(t, n)
    ensures m == n
  {
  }

  lemma BlockUnique(t: Text, m: nat, n: nat, p: Option<Problem>, q: Option<Problem>)
    requires BlockShape(t, m, p) && BlockShape(t, n, q)
    ensures m == n && p == q
  {
    if p.None? {
      assert MarkAt(t, m - 2);
    }
    if q.None? {
      assert MarkAt(t, n - 2);
    }
  }

  lemma EndUnique(rest: Text, quote: Byte, m: nat, n: nat, p: bool, q: bool)
    requires EndShape(rest, quote, m, p) && EndShape(rest, quote, n, q)
    ensures m == n && p == q
  {
    assert !(m < n) && !(n < m);
  }

  lemma QuotedUnique(ok: Text -> bool, t: Text, r: Lexeme, quote: Byte, problem: Problem)
    requires Decodes(ok) && At(ok, t, 0) && quote < 0x80 && quote != Backslash && LiteralShape(t, r, quote, problem)
    ensures r == QuotedLexeme(t, r.kind, problem)
  {
    QuotedLiteralShape(ok, t, r.kind, problem);
    var q := QuotedLexeme(t, r.kind, problem);
    EndUnique(t[1..], t[0], r.len - 1, q.len - 1, r.problem.None?, q.problem.None?);
  }

  lemma SymbolUnique(ok: Text -> bool, x: Classes, t: Text, r: Lexeme)
    requires Decodes(ok) && At(ok, t, 0) && Symbolic(x, t) && Shaped(x, t, r)
    ensures r == LiteralLexeme(t, Decode(t))
  {
    DecodeScalar(t);
    match r.kind
    case IntLit => IntUnique(t, r.len);
    case FloatLit => FloatUnique(t, r.len);
    case StringLit => QuotedUnique(ok, t, r, Quote, UnterminatedString);
    case CharLit => QuotedUnique(ok, t, r, Apostrophe, InvalidLiteral);
    case Punct(_) =>
    case Unknown =>
  }

  lemma SpaceUnique(x: Classes, t: Text, r: Lexeme)
    requires r.kind.Whitespace? && Shaped(x, t, r)
    ensures r == Next(x, t)
  {
    LongestUnique(x.whitespace, t, r.len);
  }

  lemma CommentUnique(ok: Text -> bool, x: Classes, t: Text, r: Lexeme)
    requires Decodes(ok) && At(ok, t, 0) && r.kind.Comment? && Shaped(x, t, r)
    ensures r == Next(x, t)
  {
    if r.kind.comment.Line? {
      LineCommentShape(t);
      LineUnique(t, r.len, 2 + LineLen(t[2..]));
    } else {
      BlockCommentShape(ok, t);
      BlockUnique(t, r.len, BlockCommentLexeme(t).len, r.problem, BlockCommentLexeme(t).problem);
    }
  }

  lemma NameUnique(x: Classes, t: Text, r: Lexeme)
    requires (r.kind.Ident? || r.kind.Keyword?) && Shaped(x, t, r)
    ensures r == Next(x, t)
  {
    LongestUnique(IdentContinue(x), t, r.len);
  }

  /** At the start of any well-formed text one token has the shape of its kind, and it is the one the lexer takes. */
  lemma NextExactly(ok: Text -> bool, x: Classes, t: Text, r: Lexeme)
    requires Decodes(ok) && ok(t) && t != []
    ensures CharLen(t) > 0 && (r == Next(x, t) <==> Shaped(x, t, r))
  {
    NextShape(ok, x, t);
    if Shaped(x, t, r) {
      assert t[0..] == t && At(ok, t, 0);
      if r.kind.Whitespace? {
        SpaceUnique(x, t, r);
      } else if r.kind.Comment? {
        CommentUnique(ok, x, t, r);
      } else if r.kind.Ident? || r.kind.Keyword? {
        NameUnique(x, t, r);
      } else {
        SymbolUnique(ok, x, t, r);
      }
    }
  }

  // ----- The vocabulary, written out. -----

  /** Which characters are digits, belong to numbers and set a radix, and which marks there are. */
  lemma Vocabulary(c: char, d: char)
    requires c as int < 0x80 && d as int < 0x80
    ensures IsDigit(c as int) <==> c in "0123456789"
    ensures IsDigitPart(c as int) <==> c in "0123456789_"
    ensures IsRadixPart(c as int) <==> c in "0123456789_" || 'a' <= c <= 'z' || 'A' <= c <= 'Z'
    ensures IsRadixPrefix(c as int) <==> c in "xXoObB"
    ensures IsExponentMark(c as int) <==> c in "eE"
    ensures IsSign(c as int) <==> c in "+-"
    ensures c as int in OneByteMarks <==> c in "(){}[],.:;|~=!<>+-&*/%?#@^"
    ensures (c as int, d as int) in TwoByteMarks <==>
              [c, d] in {"->", "=>", "~>", "::", "==", "!=", "<=", ">=", "&&", "||"}
    ensures c as int == Quote <==> c == '"'
    ensures c as int == Apostrophe <==> c == '\''
    ensures c as int == Backslash <==> c == '\\'
    ensures c as int == Newline <==> c == '\n'
  {
  }
}
