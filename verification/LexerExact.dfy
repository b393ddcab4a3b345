/** The token stream of a whole text, told by the shapes of its tokens alone. */
module LexerExact {
  import opened Prelude
  import opened Utf8
  import opened Lexer
  import LexerShapes

  /** What tokens may look like at the start of a text. */
  type Shape = (Text, Lexeme) -> bool

  /** At the start of a text the scanner takes the one token of the right shape. */
  ghost predicate Pins(f: Scanner, x: Shape)
  {
    Scans(f) && forall t: Text, r: Lexeme {:trigger x(t, r)} :: f.valid(t) && t != [] ==> (r == f.next(t) <==> x(t, r))
  }

  /** A token lies in the text that starts at `base`, and what stands there has its shape, with this problem. */
  ghost predicate ShapedAt(x: Shape, t: Text, base: nat, tok: Token, problem: Option<Problem>)
  {
    && base <= tok.start <= tok.end <= base + |t|
    && x(t[tok.start - base..], Lexeme(tok.kind, tok.end - tok.start, problem))
  }

  ghost predicate Recognized(x: Shape, t: Text, base: nat, tok: Token)
  {
    exists problem :: ShapedAt(x, t, base, tok, problem)
  }

  /** Every token but the last has the shape of its kind. */
  ghost predicate AllRecognized(x: Shape, t: Text, base: nat, tokens: seq<Token>)
  {
    forall i :: 0 <= i < |tokens| - 1 ==> Recognized(x, t, base, tokens[i])
  }

  /** The first token is recognized exactly when it is the one the scanner takes. */
  lemma FirstRecognized(f: Scanner, x: Shape, t: Text, base: nat, tok: Token, problem: Option<Problem>)
    requires Pins(f, x) && f.valid(t) && t != [] && tok.start == base
    ensures ShapedAt(x, t, base, tok, problem) <==>
              f.next(t).kind == tok.kind && tok.end == base + f.next(t).len && f.next(t).problem == problem
  {
    assert t[0..] == t;
    assert 0 < f.next(t).len <= |t|;
    if base <= tok.end {
      assert Lexeme(tok.kind, tok.end - base, problem) == f.next(t) <==> x(t, Lexeme(tok.kind, tok.end - base, problem));
    }
  }

  /** Past the first token the rest of the text decides. */
  lemma LaterShaped(x: Shape, t: Text, base: nat, n: nat, tok: Token, problem: Option<Problem>)
    requires n <= |t| && base + n <= tok.start
    ensures ShapedAt(x, t, base, tok, problem) <==> ShapedAt(x, t[n..], base + n, tok, problem)
  {
    if tok.start <= base + |t| {
      DropDrop(t, n, tok.start - base - n);
    }
  }

  lemma LaterRecognized(x: Shape, t: Text, base: nat, n: nat, tok: Token)
    requires n <= |t| && base + n <= tok.start
    ensures Recognized(x, t, base, tok) <==> Recognized(x, t[n..], base + n, tok)
  {
    if problem :| ShapedAt(x, t, base, tok, problem) {
      LaterShaped(x, t, base, n, tok, problem);
    }
    var rest, later := t[n..], base + n;
    if problem :| ShapedAt(x, rest, later, tok, problem) {
      LaterShaped(x, t, base, n, tok, problem);
    }
  }

  /** What tiling says of one token. */
  lemma {:induction false} TileAt(tokens: seq<Token>, base: nat, end: nat, i: nat)
    requires Tiles(tokens, base, end) && i < |tokens|
    ensures base <= tokens[i].start <= tokens[i].end <= end
    ensures if i == |tokens| - 1 then tokens[i] == Token(Eof, end, end)
            else tokens[i].kind != Eof && tokens[i].start < tokens[i].end && tokens[i].end == tokens[i + 1].start
    decreases i
  {
    TilesWithin(tokens, base, end);
    if i > 0 {
      TileAt(tokens[1..], tokens[0].end, end, i - 1);
    }
  }

  /** A recognized token is the one the scanner takes at its place. */
  lemma TokenFixed(f: Scanner, x: Shape, t: Text, base: nat, tok: Token)
    requires Pins(f, x) && base <= tok.start < base + |t| && f.valid(t[tok.start - base..])
    ensures var next := f.next(t[tok.start - base..]);
            Recognized(x, t, base, tok) <==> tok == Token(next.kind, tok.start, tok.start + next.len)
  {
    var rest := t[tok.start - base..];
    LaterRecognized(x, t, base, tok.start - base, tok);
    FirstToken(f, x, rest, tok.start, tok);
  }

  lemma LexedToken(f: Scanner, t: Text, base: nat, i: nat)
    requires Scans(f) && f.valid(t) && i < |Lex(f, t, base)|
    ensures var tok := Lex(f, t, base)[i];
            && base <= tok.start <= base + |t| && f.valid(t[tok.start - base..])
            && (tok.start < base + |t| ==>
                  tok == Token(f.next(t[tok.start - base..]).kind, tok.start, tok.start + f.next(t[tok.start - base..]).len))
  {
    LexFrom(f, t, base, i);
    var tokens := Lex(f, t, base);
    var s := tokens[i].start;
    assert tokens[i..][0] == tokens[i];
    if s < base + |t| {
      LexCons(f, t[s - base..], s);
    }
  }

  /** Tiling, told by positions. */
  ghost predicate Strung(tokens: seq<Token>, base: nat, end: nat)
  {
    && tokens != [] && tokens[0].start == base && tokens[|tokens| - 1] == Token(Eof, end, end)
    && forall i: nat {:trigger Linked(tokens, i, end)} :: i < |tokens| - 1 ==> Linked(tokens, i, end)
  }

  predicate Linked(tokens: seq<Token>, i: nat, end: nat)
    requires i < |tokens| - 1
  {
    tokens[i].kind != Eof && tokens[i].start < tokens[i].end <= end && tokens[i].end == tokens[i + 1].start
  }

  lemma TilesStrung(tokens: seq<Token>, base: nat, end: nat)
    requires Tiles(tokens, base, end)
    ensures Strung(tokens, base, end)
  {
    TileAt(tokens, base, end, |tokens| - 1);
    forall i: nat | i < |tokens| - 1
      ensures Linked(tokens, i, end)
    {
      TileAt(tokens, base, end, i);
    }
  }

  lemma LexedRecognized(f: Scanner, x: Shape, t: Text, tokens: seq<Token>)
    requires Pins(f, x) && f.valid(t) && tokens == Lex(f, t, 0) && Strung(tokens, 0, |t|)
    ensures AllRecognized(x, t, 0, tokens)
  {
    forall i | 0 <= i < |tokens| - 1
      ensures Recognized(x, t, 0, tokens[i])
    {
      assert Linked(tokens, i, |t|);
      LexedToken(f, t, 0, i);
      TokenFixed(f, x, t, 0, tokens[i]);
    }
  }

  /** The token is the one taken at its start, if anything is left there. */
  ghost predicate Taken(taken: nat -> Token, end: nat, tok: Token)
  {
    tok.start < end ==> tok == taken(tok.start)
  }

  /** Two strings of tokens in which every token is the one taken at its start are the same. */
  lemma {:induction false} SameToken(taken: nat -> Token, base: nat, end: nat, a: seq<Token>, b: seq<Token>, i: nat)
    requires Strung(a, base, end) && Strung(b, base, end) && i < |a|
    requires forall k :: 0 <= k < |a| ==> k >= |b| || a[..k] != b[..k] || Taken(taken, end, a[k])
    requires forall k :: 0 <= k < |b| ==> Taken(taken, end, b[k])
    ensures i < |b| && a[..i + 1] == b[..i + 1]
    decreases i
  {
    if i > 0 {
      SameToken(taken, base, end, a, b, i - 1);
      assert Linked(a, i - 1, end);
      assert a[i - 1] == a[..i][i - 1] == b[..i][i - 1] == b[i - 1];
      assert i < |b|;
      assert Linked(b, i - 1, end);
    }
    assert a[..i] == b[..i];
    assert a[i].start == b[i].start;
    assert i < |a| - 1 ==> Linked(a, i, end);
    assert i < |b| - 1 ==> Linked(b, i, end);
    assert a[i] == b[i];
    assert a[..i + 1] == a[..i] + [a[i]] && b[..i + 1] == b[..i] + [b[i]];
  }

  /** The tokens a pinned scanner cuts are the only ones that tile the text with tokens of the right shape. */
  lemma CutExactly(f: Scanner, x: Shape, t: Text, tokens: seq<Token>)
    requires Pins(f, x) && f.valid(t)
    ensures tokens == Lex(f, t, 0) <==> Tiles(tokens, 0, |t|) && AllRecognized(x, t, 0, tokens)
  {
    var lexed := Lex(f, t, 0);
    LexTiles(f, t, 0);
    TilesStrung(lexed, 0, |t|);
    LexedRecognized(f, x, t, lexed);
    if Tiles(tokens, 0, |t|) && AllRecognized(x, t, 0, tokens) {
      SameTokens(f, x, t, tokens, lexed);
    }
  }

  ghost function TakenBy(f: Scanner, t: Text): nat -> Token
  {
    (s: nat) => if s <= |t| then Token(f.next(t[s..]).kind, s, s + f.next(t[s..]).len) else Token(Eof, s, s)
  }

  lemma SameTokens(f: Scanner, x: Shape, t: Text, tokens: seq<Token>, lexed: seq<Token>)
    requires Pins(f, x) && f.valid(t) && lexed == Lex(f, t, 0)
    requires Tiles(tokens, 0, |t|) && Tiles(lexed, 0, |t|) && AllRecognized(x, t, 0, tokens)
    ensures tokens == lexed
  {
    var taken, last := TakenBy(f, t), |tokens| - 1;
    TilesStrung(tokens, 0, |t|);
    TilesStrung(lexed, 0, |t|);
    forall k | 0 <= k < |lexed|
      ensures Taken(taken, |t|, lexed[k])
    {
      LexedToken(f, t, 0, k);
    }
    forall k | 0 <= k < |tokens|
      ensures k >= |lexed| || tokens[..k] != lexed[..k] || Taken(taken, |t|, tokens[k])
    {
      if k < |lexed| && tokens[..k] == lexed[..k] {
        RecognizedTaken(f, x, t, tokens, lexed, k);
      }
    }
    SameToken(taken, 0, |t|, tokens, lexed, last);
    SameLength(tokens, lexed, |t|);
  }

  lemma SameLength(a: seq<Token>, b: seq<Token>, end: nat)
    requires Strung(a, 0, end) && Strung(b, 0, end) && |a| <= |b| && a[..|a|] == b[..|a|]
    ensures a == b
  {
    var last := |a| - 1;
    assert a[last] == a[..|a|][last] == b[..|a|][last] == b[last];
    assert last < |b| - 1 ==> Linked(b, last, end);
    assert a[..|a|] == a && b[..|b|] == b;
  }

  lemma StartsAgree(a: seq<Token>, b: seq<Token>, base: nat, end: nat, k: nat)
    requires Strung(a, base, end) && Strung(b, base, end) && k < |a| && k < |b| && a[..k] == b[..k]
    ensures a[k].start == b[k].start
  {
    if k > 0 {
      assert a[k - 1] == a[..k][k - 1] == b[..k][k - 1] == b[k - 1];
      assert Linked(a, k - 1, end) && Linked(b, k - 1, end);
    }
  }

  lemma RecognizedTaken(f: Scanner, x: Shape, t: Text, tokens: seq<Token>, lexed: seq<Token>, k: nat)
    requires Pins(f, x) && f.valid(t) && lexed == Lex(f, t, 0) && Strung(tokens, 0, |t|) && Strung(lexed, 0, |t|)
    requires AllRecognized(x, t, 0, tokens) && k < |tokens| && k < |lexed| && tokens[..k] == lexed[..k]
    ensures Taken(TakenBy(f, t), |t|, tokens[k])
  {
    StartsAgree(tokens, lexed, 0, |t|, k);
    LexedToken(f, t, 0, k);
    if tokens[k].start < |t| {
      TokenFixed(f, x, t, 0, tokens[k]);
    }
  }

  lemma TokensSplit(tokens: seq<Token>, first: Token, rest: seq<Token>)
    requires tokens != []
    ensures tokens == [first] + rest <==> tokens[0] == first && tokens[1..] == rest
  {
    assert tokens == [tokens[0]] + tokens[1..];
  }

  lemma FirstToken(f: Scanner, x: Shape, t: Text, base: nat, tok: Token)
    requires Pins(f, x) && f.valid(t) && t != [] && tok.start == base
    ensures Recognized(x, t, base, tok) <==> tok == Token(f.next(t).kind, base, base + f.next(t).len)
  {
    if problem :| ShapedAt(x, t, base, tok, problem) {
      FirstRecognized(f, x, t, base, tok, problem);
    }
    FirstRecognized(f, x, t, base, tok, f.next(t).problem);
  }

  // ----- Diagnostics. -----

  /** The diagnostic reports the problem of one of the tokens, at its place. */
  ghost predicate Reports(x: Shape, t: Text, base: nat, tokens: seq<Token>, d: Diagnostic)
  {
    exists i :: 0 <= i < |tokens| - 1 && tokens[i].start == d.start && tokens[i].end == d.end
                && ShapedAt(x, t, base, tokens[i], Some(d.problem))
  }

  lemma ReportsSplit(x: Shape, t: Text, base: nat, n: nat, tokens: seq<Token>, end: nat, d: Diagnostic)
    requires n <= |t| && |tokens| > 1 && tokens[0].end == base + n && Tiles(tokens, base, end)
    ensures Reports(x, t, base, tokens, d) <==>
              || (tokens[0].start == d.start && tokens[0].end == d.end && ShapedAt(x, t, base, tokens[0], Some(d.problem)))
              || Reports(x, t[n..], base + n, tokens[1..], d)
  {
    var tail := tokens[1..];
    forall i | 0 <= i < |tail|
      ensures tail[i] == tokens[i + 1]
      ensures ShapedAt(x, t, base, tail[i], Some(d.problem)) <==> ShapedAt(x, t[n..], base + n, tail[i], Some(d.problem))
    {
      TileAt(tail, tokens[0].end, end, i);
      LaterShaped(x, t, base, n, tail[i], Some(d.problem));
    }
    if i :| 0 <= i < |tokens| - 1 && tokens[i].start == d.start && tokens[i].end == d.end && ShapedAt(x, t, base, tokens[i], Some(d.problem)) {
      if i > 0 {
        assert tail[i - 1] == tokens[i];
      }
    }
  }

  /** Diagnostics come in the order of the text. */
  predicate InOrder(ds: seq<Diagnostic>, base: nat)
  {
    ds == [] || (base <= ds[0].start < ds[0].end && InOrder(ds[1..], ds[0].end))
  }

  lemma {:induction false} InOrderLater(ds: seq<Diagnostic>, base: nat, later: nat)
    requires InOrder(ds, later) && base <= later
    ensures InOrder(ds, base)
  {
  }

  lemma {:induction false} ReportedExactly(f: Scanner, x: Shape, t: Text, base: nat, d: Diagnostic)
    requires Pins(f, x) && f.valid(t)
    ensures d in Problems(f, t, base) <==> Reports(x, t, base, Lex(f, t, base), d)
    decreases |t|
  {
    if t != [] {
      var n := f.next(t);
      LexCons(f, t, base);
      LexTiles(f, t, base);
      var tokens, rest := Lex(f, t, base), Lex(f, t[n.len..], base + n.len);
      TokensSplit(tokens, Token(n.kind, base, base + n.len), rest);
      ReportedExactly(f, x, t[n.len..], base + n.len, d);
      ReportedFirst(f, x, t, base, tokens, d);
      ProblemsCons(f, t, base, d);
    }
  }

  lemma InOrderCons(d: Diagnostic, rest: seq<Diagnostic>)
    requires d.start < d.end && InOrder(rest, d.end)
    ensures InOrder([d] + rest, d.start)
  {
    assert ([d] + rest)[1..] == rest;
  }

  lemma {:induction false} ProblemsInOrder(f: Scanner, t: Text, base: nat)
    requires Scans(f) && f.valid(t)
    ensures InOrder(Problems(f, t, base), base)
    decreases |t|
  {
    if t != [] {
      var n := f.next(t);
      LexCons(f, t, base);
      var rest := Problems(f, t[n.len..], base + n.len);
      ProblemsInOrder(f, t[n.len..], base + n.len);
      if n.problem.Some? {
        InOrderCons(Diagnostic(n.problem.value, base, base + n.len), rest);
      } else {
        assert [] + rest == rest;
        InOrderLater(rest, base, base + n.len);
      }
    }
  }

  lemma ReportedFirst(f: Scanner, x: Shape, t: Text, base: nat, tokens: seq<Token>, d: Diagnostic)
    requires Pins(f, x) && f.valid(t) && t != [] && Tiles(tokens, base, base + |t|) && 0 < f.next(t).len <= |t|
    requires |tokens| > 1 && tokens[0] == Token(f.next(t).kind, base, base + f.next(t).len)
    ensures var n := f.next(t);
            Reports(x, t, base, tokens, d) <==>
              || (n.problem == Some(d.problem) && d.start == base && d.end == base + n.len)
              || Reports(x, t[n.len..], base + n.len, tokens[1..], d)
  {
    ReportsSplit(x, t, base, f.next(t).len, tokens, base + |t|, d);
    FirstRecognized(f, x, t, base, tokens[0], Some(d.problem));
  }

  lemma ProblemsCons(f: Scanner, t: Text, base: nat, d: Diagnostic)
    requires Scans(f) && f.valid(t) && t != []
    ensures var n := f.next(t);
            && 0 < n.len <= |t| && f.valid(t[n.len..])
            && var rest := Problems(f, t[n.len..], base + n.len);
               d in Problems(f, t, base) <==> (n.problem == Some(d.problem) && d.start == base && d.end == base + n.len) || d in rest
  {
    var n := f.next(t);
    LexCons(f, t, base);
    assert [] + Problems(f, t[n.len..], base + n.len) == Problems(f, t[n.len..], base + n.len);
  }

  // ----- The lexer itself. -----

  ghost function ShapeOf(x: Classes): Shape
  {
    (t: Text, r: Lexeme) => LexerShapes.Shaped(x, t, r)
  }

  lemma LexerPinned(x: Classes)
    ensures Pins(ScannerFor(x), ShapeOf(x))
  {
    ScannerForUtf8(x);
    Utf8Decodes();
    forall t: Text, r: Lexeme | Valid(t) && t != []
      ensures r == ScannerFor(x).next(t) <==> ShapeOf(x)(t, r)
    {
      LexerShapes.NextExactly(Valid, x, t, r);
    }
  }

  /**
   * The tokens of a valid text are the only ones that tile it with tokens of the right shape: no other
   * cutting, and no other choice of kinds, has both properties.
   */
  lemma LexExactly(x: Classes, t: Text, tokens: seq<Token>)
    requires Valid(t)
    ensures Scans(ScannerFor(x))
    ensures tokens == Lex(ScannerFor(x), t, 0) <==> Tiles(tokens, 0, |t|) && AllRecognized(ShapeOf(x), t, 0, tokens)
  {
    LexerPinned(x);
    CutExactly(ScannerFor(x), ShapeOf(x), t, tokens);
  }

  /** A problem is reported exactly where a token has it, once, and in the order of the text. */
  lemma ProblemsExactly(x: Classes, t: Text, d: Diagnostic)
    requires Valid(t)
    ensures Scans(ScannerFor(x))
    ensures d in Problems(ScannerFor(x), t, 0) <==> Reports(ShapeOf(x), t, 0, Lex(ScannerFor(x), t, 0), d)
    ensures InOrder(Problems(ScannerFor(x), t, 0), 0)
  {
    LexerPinned(x);
    ReportedExactly(ScannerFor(x), ShapeOf(x), t, 0, d);
    ProblemsInOrder(ScannerFor(x), t, 0);
  }
}
