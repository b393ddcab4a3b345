/** Retained source bodies (crates/etas_syntax/src/retained_body.rs). */
module RetainedBody {
  import opened Prelude
  import opened Utf8
  import opened Lexer

  datatype Span = Span(source: nat, start: nat, end: nat)

  datatype Body = BlockBody(span: Span) | ExpressionBody(span: Span)

  datatype FlowDecl = FlowDecl(body: Body, trailingHandler: Option<Span>)

  datatype Item =
    | Flow(flow: FlowDecl)
    | Agent(sourceBlock: Option<Span>)
    | Tool(body: Option<Body>)
    | Impl(members: seq<Option<FlowDecl>>)
    | OtherItem

  datatype Selection = Selection(item: nat, member: Option<nat>)

  /** A parsed program with the token stream of its source. */
  datatype Program = Program(span: Span, items: seq<Item>, hasErrors: bool, tokenSource: nat, tokens: seq<Token>)

  datatype SourceFile = SourceFile(id: nat, text: Text)

  datatype Limits = Limits(maxSourceBytes: nat, maxTokens: nat)

  datatype Resource = SourceBytes | Tokens

  datatype BodyError =
    | InvalidProgram
    | MissingBody
    | InvalidSourceReference
    | ResourceExceeded(kind: Resource, limit: nat)

  datatype Retained = Retained(tokenStart: nat, tokenEnd: nat, start: nat, end: nat)

  function Select(p: Program, s: Selection): Result<Body, BodyError>
  {
    if s.item >= |p.items| then Err(MissingBody)
    else
      var item := p.items[s.item];
      if s.member.Some? then
        if item.Impl? && s.member.value < |item.members| && item.members[s.member.value].Some?
        then Ok(item.members[s.member.value].value.body) else Err(MissingBody)
      else if item.Flow? then Ok(item.flow.body)
      else if item.Agent? && item.sourceBlock.Some? then Ok(BlockBody(item.sourceBlock.value))
      else if item.Tool? && item.body.Some? then Ok(item.body.value)
      else Err(MissingBody)
  }

  function SelectedHandler(p: Program, s: Selection): Option<Span>
  {
    if s.item >= |p.items| then None
    else
      var item := p.items[s.item];
      if item.Flow? && s.member.None? then item.flow.trailingHandler
      else if item.Impl? && s.member.Some? && s.member.value < |item.members| && item.members[s.member.value].Some?
      then item.members[s.member.value].value.trailingHandler
      else None
  }

  // ----- Partition points. -----

  function StartsBefore(bound: nat): Token -> bool
  {
    (tok: Token) => tok.start < bound
  }

  function EndsWithin(bound: nat): Token -> bool
  {
    (tok: Token) => tok.end <= bound && tok.kind != Eof
  }

  /** Everything that holds comes before everything that does not. */
  ghost predicate Partitioned(tokens: seq<Token>, p: Token -> bool)
  {
    forall i, j :: 0 <= i < j < |tokens| && p(tokens[j]) ==> p(tokens[i])
  }

  /** The linear scan. */
  function FirstFailing(tokens: seq<Token>, p: Token -> bool): (k: nat)
    ensures k <= |tokens| && (forall i :: 0 <= i < k ==> p(tokens[i])) && (k < |tokens| ==> !p(tokens[k]))
  {
    if tokens == [] || !p(tokens[0]) then 0 else 1 + FirstFailing(tokens[1..], p)
  }

  lemma {:induction false} FirstFailingUnique(tokens: seq<Token>, p: Token -> bool, k: nat)
    requires k <= |tokens| && (forall i :: 0 <= i < k ==> p(tokens[i])) && (k < |tokens| ==> !p(tokens[k]))
    ensures k == FirstFailing(tokens, p)
  {
    if k > 0 {
      FirstFailingUnique(tokens[1..], p, k - 1);
    }
  }

  /** Binary search finds what the linear scan finds, on partitioned tokens. */
  method PartitionPoint(tokens: seq<Token>, p: Token -> bool) returns (k: nat)
    requires Partitioned(tokens, p)
    ensures k == FirstFailing(tokens, p)
    ensures forall i :: 0 <= i < |tokens| ==> (i < k <==> p(tokens[i]))
  {
    var lo: nat, hi: nat := 0, |tokens|;
    while lo < hi
      invariant lo <= hi <= |tokens|
      invariant forall i :: 0 <= i < lo ==> p(tokens[i])
      invariant forall i :: hi <= i < |tokens| ==> !p(tokens[i])
    {
      var mid := lo + (hi - lo) / 2;
      if p(tokens[mid]) {
        lo := mid + 1;
      } else {
        hi := mid;
      }
    }
    FirstFailingUnique(tokens, p, lo);
    return lo;
  }

  /** Tokens that tile a text follow one another. */
  lemma {:induction false} TilesOrdered(tokens: seq<Token>, base: nat, end: nat, i: nat, j: nat)
    requires Tiles(tokens, base, end) && i < j < |tokens|
    ensures base <= tokens[i].start < tokens[i].end <= tokens[j].start <= tokens[j].end <= end && tokens[i].kind != Eof
    ensures tokens[j].kind == Eof <==> j == |tokens| - 1
    decreases |tokens|
  {
    TilesWithin(tokens, base, end);
    var tail := tokens[1..];
    TilesWithin(tail, tokens[0].end, end);
    assert tail[j - 1] == tokens[j];
    if i > 0 {
      assert tail[i - 1] == tokens[i];
      TilesOrdered(tail, tokens[0].end, end, i - 1, j - 1);
    } else if j > 1 {
      TilesOrdered(tail, tokens[0].end, end, 0, j - 1);
    }
  }

  /** Over lexer output both search predicates are monotone. */
  lemma LexerOutputPartitioned(tokens: seq<Token>, end: nat, bound: nat)
    requires Tiles(tokens, 0, end)
    ensures Partitioned(tokens, StartsBefore(bound)) && Partitioned(tokens, EndsWithin(bound))
  {
    forall i, j | 0 <= i < j < |tokens|
      ensures tokens[i].start < tokens[j].start && tokens[i].end <= tokens[j].end && tokens[i].kind != Eof
    {
      TilesOrdered(tokens, 0, end, i, j);
    }
  }

  // ----- Slicing the body. -----

  /** A string slice exists when the range is in order, in bounds and on character boundaries. */
  predicate Sliceable(t: Text, start: nat, end: nat)
  {
    start <= end <= |t| && (start == |t| || !IsTail(t[start])) && (end == |t| || !IsTail(t[end]))
  }

  /** The retained range between two partition points, before the limits are checked. */
  function Range(p: Program, body: Body, handler: Option<Span>, id: nat, first: nat, end: nat, handlerEnd: nat): Result<Retained, BodyError>
  {
    var span, tokens := body.span, p.tokens;
    if handler.Some? then
      if handler.value.source != id || handler.value.end > p.span.end then Err(InvalidSourceReference)
      else Ok(Retained(first, handlerEnd, span.start, handler.value.end))
    else if body.ExpressionBody? then Ok(Retained(first, end, span.start, span.end))
    else if first >= |tokens| || end == 0 || end > |tokens| then Err(InvalidSourceReference)
    else
      var left, right := tokens[first], tokens[end - 1];
      if left.kind != LBrace || right.kind != RBrace || left.start != span.start || right.end != span.end then Err(InvalidSourceReference)
      else Ok(Retained(first + 1, end - 1, left.end, right.start))
  }

  function Limited(p: Program, r: Retained, limits: Limits): Result<Retained, BodyError>
  {
    if r.tokenEnd < r.tokenStart || r.tokenEnd > |p.tokens| then Err(InvalidSourceReference)
    else if r.end - r.start > limits.maxSourceBytes then Err(ResourceExceeded(SourceBytes, limits.maxSourceBytes))
    else if r.tokenEnd - r.tokenStart > limits.maxTokens then Err(ResourceExceeded(Tokens, limits.maxTokens))
    else Ok(r)
  }

  /** What is retained, told with linear scans. */
  function Retain(f: SourceFile, p: Program, s: Selection, limits: Limits): Result<Retained, BodyError>
  {
    if p.hasErrors || p.span.source != f.id || p.tokenSource != f.id then Err(InvalidProgram)
    else
      var body :- Select(p, s);
      if body.span.source != f.id || !Sliceable(f.text, body.span.start, body.span.end) then Err(InvalidSourceReference)
      else
        var handler := SelectedHandler(p, s);
        var r :- Range(p, body, handler, f.id, FirstFailing(p.tokens, StartsBefore(body.span.start)),
                       FirstFailing(p.tokens, EndsWithin(body.span.end)),
                       if handler.Some? then FirstFailing(p.tokens, EndsWithin(handler.value.end)) else 0);
        Limited(p, r, limits)
  }

  /** The constructor's binary searches retain what the linear scans do, over lexer output. */
  method New(f: SourceFile, p: Program, s: Selection, limits: Limits) returns (r: Result<Retained, BodyError>)
    requires Tiles(p.tokens, 0, |f.text|)
    ensures r == Retain(f, p, s, limits)
  {
    if p.hasErrors || p.span.source != f.id || p.tokenSource != f.id {
      return Err(InvalidProgram);
    }
    var body :- Select(p, s);
    var span := body.span;
    if span.source != f.id || !Sliceable(f.text, span.start, span.end) {
      return Err(InvalidSourceReference);
    }
    LexerOutputPartitioned(p.tokens, |f.text|, span.start);
    LexerOutputPartitioned(p.tokens, |f.text|, span.end);
    var first := PartitionPoint(p.tokens, StartsBefore(span.start));
    var end := PartitionPoint(p.tokens, EndsWithin(span.end));
    var handler := SelectedHandler(p, s);
    var handlerEnd := 0;
    if handler.Some? {
      LexerOutputPartitioned(p.tokens, |f.text|, handler.value.end);
      handlerEnd := PartitionPoint(p.tokens, EndsWithin(handler.value.end));
    }
    var range :- Range(p, body, handler, f.id, first, end, handlerEnd);
    return Limited(p, range, limits);
  }

  /**
   * Over lexer output what is retained is in order: in particular a trailing handler that ends before
   * its body starts is refused, so the size of the content is never negative.
   */
  lemma RetainedInOrder(f: SourceFile, p: Program, s: Selection, limits: Limits)
    requires Tiles(p.tokens, 0, |f.text|) && Retain(f, p, s, limits).Ok?
    ensures var r := Retain(f, p, s, limits).value;
            r.start <= r.end && r.tokenStart <= r.tokenEnd <= |p.tokens|
  {
    var r, span := Retain(f, p, s, limits).value, Select(p, s).value.span;
    if SelectedHandler(p, s).Some? {
      if r.end < r.start {
        StraddlingToken(p.tokens, |f.text|, r.end, r.start);
      }
    } else if Select(p, s).value.BlockBody? {
      BlockRetained(f, p, s, limits);
      BracedText(p.tokens, f.text, span, r);
    }
  }

  /** Before a later offset starts more than ends within an earlier one. */
  lemma StraddlingToken(tokens: seq<Token>, length: nat, early: nat, late: nat)
    requires Tiles(tokens, 0, length) && early < late <= length
    ensures FirstFailing(tokens, EndsWithin(early)) < FirstFailing(tokens, StartsBefore(late))
  {
    LexerOutputPartitioned(tokens, length, early);
    LexerOutputPartitioned(tokens, length, late);
    var k := FirstFailing(tokens, EndsWithin(early));
    TilesLast(tokens, 0, length);
    assert k < |tokens| by {
      assert !EndsWithin(early)(tokens[|tokens| - 1]);
    }
    TilesFrom(tokens, 0, length, k);
    assert tokens[k].start <= early by {
      if k > 0 {
        assert EndsWithin(early)(tokens[k - 1]);
      }
    }
    assert StartsBefore(late)(tokens[k]);
    var a := FirstFailing(tokens, StartsBefore(late));
    assert a < |tokens| ==> !StartsBefore(late)(tokens[a]);
  }

  // ----- What is retained. -----

  /** A token lies inside a range of the text. */
  predicate Inside(tok: Token, start: nat, end: nat)
  {
    tok.kind != Eof && start <= tok.start && tok.end <= end
  }

  /** The tokens from the first that does not start before to the first that does not end within are those inside. */
  lemma BetweenPoints(tokens: seq<Token>, length: nat, start: nat, end: nat, i: nat)
    requires Tiles(tokens, 0, length) && i < |tokens|
    ensures FirstFailing(tokens, StartsBefore(start)) <= i < FirstFailing(tokens, EndsWithin(end)) <==> Inside(tokens[i], start, end)
  {
    LexerOutputPartitioned(tokens, length, start);
    LexerOutputPartitioned(tokens, length, end);
    var a, b := FirstFailing(tokens, StartsBefore(start)), FirstFailing(tokens, EndsWithin(end));
    if a <= i && a < i {
      assert !StartsBefore(start)(tokens[a]);
    }
    if b <= i && b < i {
      assert !EndsWithin(end)(tokens[b]);
    }
  }

  /** An expression body keeps exactly the tokens inside its span. */
  lemma ExpressionBodyExact(f: SourceFile, p: Program, s: Selection, limits: Limits, i: nat)
    requires Tiles(p.tokens, 0, |f.text|) && i < |p.tokens|
    requires Retain(f, p, s, limits).Ok? && SelectedHandler(p, s).None? && Select(p, s).value.ExpressionBody?
    ensures var r, span := Retain(f, p, s, limits).value, Select(p, s).value.span;
            r.start == span.start && r.end == span.end && (r.tokenStart <= i < r.tokenEnd <==> Inside(p.tokens[i], span.start, span.end))
  {
    BetweenPoints(p.tokens, |f.text|, Select(p, s).value.span.start, Select(p, s).value.span.end, i);
  }

  /** With a trailing handler the tokens run from the body's start to the handler's end. */
  lemma HandlerBodyExact(f: SourceFile, p: Program, s: Selection, limits: Limits, i: nat)
    requires Tiles(p.tokens, 0, |f.text|) && i < |p.tokens|
    requires Retain(f, p, s, limits).Ok? && SelectedHandler(p, s).Some?
    ensures var r, span, end := Retain(f, p, s, limits).value, Select(p, s).value.span, SelectedHandler(p, s).value.end;
            r.start == span.start && r.end == end && (r.tokenStart <= i < r.tokenEnd <==> Inside(p.tokens[i], span.start, end))
  {
    BetweenPoints(p.tokens, |f.text|, Select(p, s).value.span.start, SelectedHandler(p, s).value.end, i);
  }

  /** The retained tokens lie between the block's braces. */
  predicate Braced(tokens: seq<Token>, span: Span, r: Retained)
  {
    && 0 < r.tokenStart <= r.tokenEnd < |tokens|
    && tokens[r.tokenStart - 1].kind == LBrace && tokens[r.tokenStart - 1].start == span.start
    && tokens[r.tokenEnd].kind == RBrace && tokens[r.tokenEnd].end == span.end
    && r.start == tokens[r.tokenStart - 1].end && r.end == tokens[r.tokenEnd].start
  }

  lemma BracedExact(tokens: seq<Token>, length: nat, span: Span, r: Retained, i: nat)
    requires Tiles(tokens, 0, length) && Braced(tokens, span, r) && i < |tokens|
    ensures r.tokenStart <= i < r.tokenEnd <==> Inside(tokens[i], r.start, r.end)
  {
    var left, right := r.tokenStart - 1, r.tokenEnd;
    TilesOrdered(tokens, 0, length, left, right);
    TilesLast(tokens, 0, length);
    if i < left {
      TilesOrdered(tokens, 0, length, i, left);
    } else if left < i < right {
      TilesOrdered(tokens, 0, length, left, i);
      TilesOrdered(tokens, 0, length, i, right);
    } else if right < i {
      TilesOrdered(tokens, 0, length, right, i);
    } else if i == right {
      TilesOrdered(tokens, 0, length, right, right + 1);
    }
  }

  lemma BracedText(tokens: seq<Token>, t: Text, span: Span, r: Retained)
    requires Tiles(tokens, 0, |t|) && Braced(tokens, span, r)
    ensures r.start <= r.end <= |t| && Glued(tokens[r.tokenStart..r.tokenEnd], t) == t[r.start..r.end]
  {
    TilesFrom(tokens, 0, |t|, r.tokenStart);
    var rest := tokens[r.tokenStart..];
    TilesOrdered(tokens, 0, |t|, r.tokenStart - 1, r.tokenEnd);
    GluedStretch(rest, tokens[r.tokenStart].start, t, r.tokenEnd - r.tokenStart);
    assert rest[..r.tokenEnd - r.tokenStart] == tokens[r.tokenStart..r.tokenEnd];
  }

  lemma BlockRetained(f: SourceFile, p: Program, s: Selection, limits: Limits)
    requires Retain(f, p, s, limits).Ok? && SelectedHandler(p, s).None? && Select(p, s).value.BlockBody?
    ensures var r := Retain(f, p, s, limits).value;
            && Braced(p.tokens, Select(p, s).value.span, r)
            && r.end - r.start <= limits.maxSourceBytes && r.tokenEnd - r.tokenStart <= limits.maxTokens
  {
  }

  /**
   * An accepted block keeps exactly the tokens strictly between its braces; end to end they are its
   * content; and both sizes respect the limits.
   */
  lemma BlockBodyExact(f: SourceFile, p: Program, s: Selection, limits: Limits)
    requires Tiles(p.tokens, 0, |f.text|)
    requires Retain(f, p, s, limits).Ok? && SelectedHandler(p, s).None? && Select(p, s).value.BlockBody?
    ensures var r := Retain(f, p, s, limits).value;
            && Braced(p.tokens, Select(p, s).value.span, r)
            && (forall i :: 0 <= i < |p.tokens| ==> (r.tokenStart <= i < r.tokenEnd <==> Inside(p.tokens[i], r.start, r.end)))
            && r.start <= r.end <= |f.text|
            && Glued(p.tokens[r.tokenStart..r.tokenEnd], f.text) == f.text[r.start..r.end]
            && r.end - r.start <= limits.maxSourceBytes && r.tokenEnd - r.tokenStart <= limits.maxTokens
  {
    var r, span := Retain(f, p, s, limits).value, Select(p, s).value.span;
    BlockRetained(f, p, s, limits);
    BracedText(p.tokens, f.text, span, r);
    forall i | 0 <= i < |p.tokens|
      ensures r.tokenStart <= i < r.tokenEnd <==> Inside(p.tokens[i], r.start, r.end)
    {
      BracedExact(p.tokens, |f.text|, span, r, i);
    }
  }

  // ----- Exactly when something is retained, and what. -----

  /** The selection names a flow, a method, an agent's block or a tool's body, with the handler that trails it. */
  ghost predicate Selects(p: Program, s: Selection, body: Body, handler: Option<Span>)
  {
    s.item < |p.items| &&
    match (p.items[s.item], s.member)
    case (Flow(flow), None) => body == flow.body && handler == flow.trailingHandler
    case (Impl(members), Some(m)) =>
      m < |members| && members[m].Some? && body == members[m].value.body && handler == members[m].value.trailingHandler
    case (Agent(block), None) => block.Some? && body == BlockBody(block.value) && handler == None
    case (Tool(found), None) => found.Some? && body == found.value && handler == None
    case _ => false
  }

  /** Both places of the selection lie in the source, and the body on character boundaries. */
  predicate Placed(f: SourceFile, p: Program, body: Body, handler: Option<Span>)
  {
    && body.span.source == f.id && Sliceable(f.text, body.span.start, body.span.end)
    && (handler.Some? ==> handler.value.source == f.id && handler.value.end <= p.span.end)
  }

  predicate WholeProgram(f: SourceFile, p: Program)
  {
    !p.hasErrors && p.span.source == f.id && p.tokenSource == f.id
  }

  /** The tokens that do not start before `start`, up to those that no longer end within `end`. */
  predicate Stretch(tokens: seq<Token>, start: nat, end: nat, r: Retained)
  {
    && r.start == start && r.end == end && r.tokenStart <= r.tokenEnd <= |tokens|
    && (forall i :: 0 <= i < |tokens| ==> (i < r.tokenStart <==> tokens[i].start < start))
    && (forall i :: 0 <= i < |tokens| ==> (i < r.tokenEnd <==> tokens[i].end <= end && tokens[i].kind != Eof))
  }

  /** A block keeps what lies between its braces, an expression its span, a handled body all up to the handler's end. */
  predicate Keeps(tokens: seq<Token>, body: Body, handler: Option<Span>, r: Retained)
  {
    if handler.Some? then Stretch(tokens, body.span.start, handler.value.end, r)
    else if body.ExpressionBody? then Stretch(tokens, body.span.start, body.span.end, r)
    else Braced(tokens, body.span, r)
  }

  predicate WithinLimits(r: Retained, limits: Limits)
  {
    r.end - r.start <= limits.maxSourceBytes && r.tokenEnd - r.tokenStart <= limits.maxTokens
  }

  lemma SelectsExactly(p: Program, s: Selection, body: Body, handler: Option<Span>)
    ensures Selects(p, s, body, handler) <==> Select(p, s) == Ok(body) && SelectedHandler(p, s) == handler
  {
  }

  lemma StretchExactly(tokens: seq<Token>, length: nat, start: nat, end: nat, r: Retained)
    requires Tiles(tokens, 0, length)
    ensures var a, b := FirstFailing(tokens, StartsBefore(start)), FirstFailing(tokens, EndsWithin(end));
            Stretch(tokens, start, end, r) <==> r == Retained(a, b, start, end) && a <= b
  {
    LexerOutputPartitioned(tokens, length, start);
    LexerOutputPartitioned(tokens, length, end);
    Counted(tokens, StartsBefore(start), r.tokenStart);
    Counted(tokens, EndsWithin(end), r.tokenEnd);
  }

  /** On partitioned tokens the linear scan counts those that hold. */
  lemma Counted(tokens: seq<Token>, p: Token -> bool, k: nat)
    requires Partitioned(tokens, p)
    ensures k == FirstFailing(tokens, p) <==> k <= |tokens| && forall i :: 0 <= i < |tokens| ==> (i < k <==> p(tokens[i]))
  {
    if k <= |tokens| && forall i :: 0 <= i < |tokens| ==> (i < k <==> p(tokens[i])) {
      FirstFailingUnique(tokens, p, k);
    }
    var n := FirstFailing(tokens, p);
    forall i | 0 <= i < |tokens|
      ensures i < n <==> p(tokens[i])
    {
      if n < i {
        assert !p(tokens[n]);
      }
    }
  }

  lemma BracedAt(tokens: seq<Token>, length: nat, span: Span, r: Retained)
    requires Tiles(tokens, 0, length) && Braced(tokens, span, r)
    ensures FirstFailing(tokens, StartsBefore(span.start)) == r.tokenStart - 1
    ensures FirstFailing(tokens, EndsWithin(span.end)) == r.tokenEnd + 1
  {
    var left, right := r.tokenStart - 1, r.tokenEnd;
    forall i | 0 <= i < left
      ensures tokens[i].start < span.start
    {
      TilesOrdered(tokens, 0, length, i, left);
    }
    FirstFailingUnique(tokens, StartsBefore(span.start), left);
    forall i | 0 <= i <= right
      ensures tokens[i].end <= span.end && tokens[i].kind != Eof
    {
      if i < right {
        TilesOrdered(tokens, 0, length, i, right);
      }
    }
    if right + 1 < |tokens| {
      PastIsOutside(tokens, length, right);
    }
    FirstFailingUnique(tokens, EndsWithin(span.end), right + 1);
  }

  lemma PastIsOutside(tokens: seq<Token>, length: nat, right: nat)
    requires Tiles(tokens, 0, length) && right + 1 < |tokens|
    ensures tokens[right + 1].end > tokens[right].end || tokens[right + 1].kind == Eof
  {
    TilesOrdered(tokens, 0, length, right, right + 1);
    if right + 2 < |tokens| {
      TilesOrdered(tokens, 0, length, right + 1, right + 2);
    }
  }

  lemma RangeExactly(f: SourceFile, p: Program, body: Body, handler: Option<Span>, r: Retained, limits: Limits)
    requires Tiles(p.tokens, 0, |f.text|) && Placed(f, p, body, handler)
    ensures var range := Range(p, body, handler, f.id, FirstFailing(p.tokens, StartsBefore(body.span.start)),
                               FirstFailing(p.tokens, EndsWithin(body.span.end)),
                               if handler.Some? then FirstFailing(p.tokens, EndsWithin(handler.value.end)) else 0);
            (range.Ok? && Limited(p, range.value, limits) == Ok(r)) <==> Keeps(p.tokens, body, handler, r) && WithinLimits(r, limits)
  {
    if handler.Some? {
      StretchExactly(p.tokens, |f.text|, body.span.start, handler.value.end, r);
    } else if body.ExpressionBody? {
      StretchExactly(p.tokens, |f.text|, body.span.start, body.span.end, r);
    } else if Braced(p.tokens, body.span, r) {
      BracedAt(p.tokens, |f.text|, body.span, r);
    }
  }

  /**
   * Over lexer output a body is retained exactly when the program is whole, the selection names a body in
   * its source, there is a stretch of tokens it keeps, and that stretch is within the limits; it is that one.
   */
  lemma RetainExactly(f: SourceFile, p: Program, s: Selection, limits: Limits, r: Retained)
    requires Tiles(p.tokens, 0, |f.text|)
    ensures Retain(f, p, s, limits) == Ok(r) <==>
              && WholeProgram(f, p)
              && exists body, handler :: Selects(p, s, body, handler) && Placed(f, p, body, handler)
                                         && Keeps(p.tokens, body, handler, r) && WithinLimits(r, limits)
  {
    forall body, handler
      ensures Selects(p, s, body, handler) <==> Select(p, s) == Ok(body) && SelectedHandler(p, s) == handler
    {
      SelectsExactly(p, s, body, handler);
    }
    if Select(p, s).Ok? {
      var body, handler := Select(p, s).value, SelectedHandler(p, s);
      assert Selects(p, s, body, handler);
      if Placed(f, p, body, handler) {
        RangeExactly(f, p, body, handler, r, limits);
      }
    }
  }

  lemma {:induction false} TilesFrom(tokens: seq<Token>, base: nat, end: nat, k: nat)
    requires Tiles(tokens, base, end) && k < |tokens|
    ensures Tiles(tokens[k..], tokens[k].start, end) && (k > 0 ==> tokens[k - 1].end == tokens[k].start)
    decreases k
  {
    if k == 0 {
      assert tokens[0..] == tokens;
    } else {
      TilesFrom(tokens[1..], tokens[0].end, end, k - 1);
      assert tokens[1..][k - 1..] == tokens[k..];
      assert tokens[1..][k - 1] == tokens[k];
      if k > 1 {
        assert tokens[1..][k - 2] == tokens[k - 1];
      }
    }
  }
}
