/** What the lexer reads, byte by byte: a statement's tokens are the one way of cutting it that obeys these rules
    (internal/capdbdriver/encode.go:43-126 and 182-240). */
module SqlReading {
  import opened SqlLexer

  /** Bytes in which every single quote comes in a pair. */
  predicate Paired(s: string)
  {
    s == "" || (s[0] != '\'' && Paired(s[1..])) || (|s| > 1 && s[0] == '\'' && s[1] == '\'' && Paired(s[2..]))
  }

  predicate StartsWith(r: string, c: char) { r != "" && r[0] == c }

  predicate StartsWithDigit(r: string) { r != "" && r[0] in "0123456789" }

  /** A span from `open` to the first `close`, or to the end of the statement. */
  predicate IsSpan(x: string, r: string, open: char, close: char)
  {
    && x != "" && x[0] == open
    && (forall k :: 1 <= k < |x| - 1 ==> x[k] != close)
    && ((|x| > 1 && x[|x| - 1] == close) || (r == "" && forall k :: 1 <= k < |x| ==> x[k] != close))
  }

  predicate IsString(x: string, r: string)
  {
    && x != "" && x[0] == '\''
    && ((|x| > 1 && x[|x| - 1] == '\'' && Paired(x[1..|x| - 1]) && !StartsWith(r, '\'')) || (r == "" && Paired(x[1..])))
  }

  predicate IsLineComment(x: string, r: string)
  {
    && |x| > 1 && x[0] == '-' && x[1] == '-' && '\n' !in x && (r == "" || r[0] == '\n')
  }

  predicate ClosesAt(x: string, k: int) { 0 <= k < |x| - 1 && x[k] == '*' && x[k + 1] == '/' }

  predicate IsBlockComment(x: string, r: string)
  {
    && |x| > 1 && x[0] == '/' && x[1] == '*'
    && (forall k :: 2 <= k < |x| - 2 ==> !ClosesAt(x, k))
    && ((|x| > 3 && ClosesAt(x, |x| - 2)) || (r == "" && (|x| > 3 ==> !ClosesAt(x, |x| - 2))))
  }

  predicate IsPlain(x: string, r: string)
  {
    && |x| == 1 && x[0] !in {'\'', '"', '[', '?'}
    && !(x[0] == '-' && StartsWith(r, '-')) && !(x[0] == '/' && StartsWith(r, '*'))
  }

  /** `t` may be cut off in front of `r`. */
  predicate ReadsAs(t: Token, r: string)
  {
    match t.kind
    case Str => IsString(t.text, r)
    case Ident => IsSpan(t.text, r, '"', '"')
    case Bracket => IsSpan(t.text, r, '[', ']')
    case LineComment => IsLineComment(t.text, r)
    case BlockComment => IsBlockComment(t.text, r)
    case Placeholder => t.text == "?" && !StartsWithDigit(r)
    case Numbered => t.text == "?" && StartsWithDigit(r)
    case Other => IsPlain(t.text, r)
  }

  // ---------------------------------------------------------------- the lexer obeys the rules, and nothing else does

  /** What follows the opening quote of a string. */
  predicate IsStringTail(y: string, r: string)
  {
    (y != "" && y[|y| - 1] == '\'' && Paired(y[..|y| - 1]) && !StartsWith(r, '\'')) || (r == "" && Paired(y))
  }

  lemma {:induction false} StringTailIs(y: string, r: string)
    ensures QuoteTail(y + r, '\'') == |y| <==> IsStringTail(y, r)
    decreases |y|
  {
    if y == "" {
      assert y + r == r;
    } else if y[0] != '\'' {
      StringTailIs(y[1..], r);
      assert (y + r)[1..] == y[1..] + r;
      if |y| > 1 { assert y[1..][..|y| - 2] == y[..|y| - 1][1..]; }
    } else if |y| > 1 && y[1] == '\'' {
      StringTailIs(y[2..], r);
      assert (y + r)[2..] == y[2..] + r;
      if |y| > 2 { assert y[2..][..|y| - 3] == y[..|y| - 1][2..]; }
    } else if |y| == 1 {
      assert y[..0] == "" && (r != "" ==> (y + r)[1] == r[0]);
    }
  }

  lemma {:induction false} UpToIs(y: string, r: string, q: char)
    ensures UpTo(y + r, q) == |y| <==>
      (forall k :: 0 <= k < |y| - 1 ==> y[k] != q) && ((y != "" && y[|y| - 1] == q) || (r == "" && q !in y))
  {
    if y == "" {
      assert y + r == r;
    } else {
      assert (y + r)[1..] == y[1..] + r;
      UpToIs(y[1..], r, q);
      assert forall k :: 1 <= k < |y| - 1 ==> y[k] == y[1..][k - 1];
      assert forall k :: 0 <= k < |y| - 2 ==> y[1..][k] == y[k + 1];
    }
  }

  lemma {:induction false} BeforeIs(y: string, r: string)
    ensures Before(y + r, '\n') == |y| <==> '\n' !in y && (r == "" || r[0] == '\n')
  {
    if y == "" {
      assert y + r == r;
    } else {
      assert (y + r)[1..] == y[1..] + r;
      BeforeIs(y[1..], r);
    }
  }

  lemma {:induction false} BlockTailIs(y: string, r: string)
    ensures BlockTail(y + r) == |y| <==>
      (forall k :: 0 <= k < |y| - 2 ==> !ClosesAt(y, k)) &&
      ((|y| > 1 && ClosesAt(y, |y| - 2)) || (r == "" && (|y| > 1 ==> !ClosesAt(y, |y| - 2))))
  {
    if y == "" {
      assert y + r == r;
    } else {
      var t := y[1..];
      assert (y + r)[1..] == t + r;
      assert |y| > 1 ==> (ClosesComment(y + r) <==> ClosesAt(y, 0));
      assert |y| == 1 && ClosesComment(y + r) ==> r != "";
      if !ClosesComment(y + r) {
        BlockTailIs(t, r);
        assert forall k :: 0 <= k < |t| ==> ClosesAt(t, k) == ClosesAt(y, k + 1);
        assert forall k :: 1 <= k < |y| ==> ClosesAt(y, k) == ClosesAt(t, k - 1);
        hide BlockTail, ClosesComment;
      }
    }
  }

  lemma TailOf(x: string, k: nat, r: string)
    requires k <= |x|
    ensures (x + r)[k..] == x[k..] + r
  {}

  lemma SpanIs(x: string, r: string, open: char, close: char)
    requires x != "" && x[0] == open
    ensures IsSpan(x, r, open, close) <==> UpTo(x[1..] + r, close) == |x| - 1
  {
    UpToIs(x[1..], r, close);
    var y := x[1..];
    assert forall k :: 1 <= k < |x| ==> x[k] == y[k - 1];
    assert forall k :: 0 <= k < |y| ==> y[k] == x[k + 1];
    hide UpTo;
  }

  lemma StringIs(x: string, r: string)
    requires x != "" && x[0] == '\''
    ensures IsString(x, r) <==> QuoteTail(x[1..] + r, '\'') == |x| - 1
  {
    StringTailIs(x[1..], r);
    assert |x| > 1 ==> x[1..][..|x| - 2] == x[1..|x| - 1];
    hide QuoteTail, Paired;
  }

  lemma LineCommentIs(x: string, r: string)
    requires |x| > 1 && x[0] == '-' && x[1] == '-'
    ensures IsLineComment(x, r) <==> Before(x[2..] + r, '\n') == |x| - 2
  {
    BeforeIs(x[2..], r);
    assert x == [x[0], x[1]] + x[2..];
    hide Before;
  }

  lemma BlockCommentIs(x: string, r: string)
    requires |x| > 1 && x[0] == '/' && x[1] == '*'
    ensures IsBlockComment(x, r) <==> BlockTail(x[2..] + r) == |x| - 2
  {
    var y := x[2..];
    BlockTailIs(y, r);
    assert forall k :: 0 <= k < |y| ==> ClosesAt(y, k) == ClosesAt(x, k + 2);
    assert forall k :: 2 <= k < |x| ==> ClosesAt(x, k) == ClosesAt(y, k - 2);
    hide BlockTail;
  }

  lemma SpanKind(x: string, r: string, k: Kind)
    requires x != "" && (k == Ident || k == Bracket)
    ensures IsFirst(Token(k, x), r) <==> if k == Ident then IsSpan(x, r, '"', '"') else IsSpan(x, r, '[', ']')
  {
    TailOf(x, 1, r);
    assert (x + r)[0] == x[0];
    if x[0] == '"' { SpanIs(x, r, '"', '"'); }
    if x[0] == '[' { SpanIs(x, r, '[', ']'); }
    hide UpTo, QuoteTail, Before, BlockTail;
  }

  lemma StringKind(x: string, r: string)
    requires x != ""
    ensures IsFirst(Token(Str, x), r) <==> IsString(x, r)
  {
    TailOf(x, 1, r);
    assert (x + r)[0] == x[0];
    if x[0] == '\'' { StringIs(x, r); }
    hide UpTo, QuoteTail, Before, BlockTail, Paired;
  }

  lemma LineCommentKind(x: string, r: string)
    requires x != ""
    ensures IsFirst(Token(LineComment, x), r) <==> IsLineComment(x, r)
  {
    assert (x + r)[0] == x[0];
    if |x| > 1 {
      TailOf(x, 2, r);
      assert (x + r)[1] == x[1];
      if x[0] == '-' && x[1] == '-' { LineCommentIs(x, r); }
    }
    hide UpTo, QuoteTail, Before, BlockTail;
  }

  lemma BlockCommentKind(x: string, r: string)
    requires x != ""
    ensures IsFirst(Token(BlockComment, x), r) <==> IsBlockComment(x, r)
  {
    assert (x + r)[0] == x[0];
    if |x| > 1 {
      TailOf(x, 2, r);
      assert (x + r)[1] == x[1];
      if x[0] == '/' && x[1] == '*' { BlockCommentIs(x, r); }
    }
    hide UpTo, QuoteTail, Before, BlockTail, ClosesAt;
  }

  lemma ByteKind(t: Token, r: string)
    requires t.text != "" && t.kind in {Placeholder, Numbered, SqlLexer.Other}
    ensures IsFirst(t, r) <==> ReadsAs(t, r)
  {
    var x := t.text;
    assert (x + r)[0] == x[0] && (|x| == 1 && r != "" ==> (x + r)[1] == r[0]);
    hide UpTo, QuoteTail, Before, BlockTail;
  }

  /** The one-token rules are the lexer's. */
  lemma ReadsAsIs(t: Token, r: string)
    ensures ReadsAs(t, r) <==> IsFirst(t, r)
  {
    var x := t.text;
    if x != "" {
      match t.kind {
        case Str => StringKind(x, r);
        case Ident => SpanKind(x, r, Ident);
        case Bracket => SpanKind(x, r, Bracket);
        case LineComment => LineCommentKind(x, r);
        case BlockComment => BlockCommentKind(x, r);
        case _ => ByteKind(t, r);
      }
    }
    hide IsFirst, IsSpan, IsString, IsLineComment, IsBlockComment, IsPlain;
  }

  /** Each token may be cut off in front of the text behind it. */
  predicate IsReading(ts: seq<Token>) { forall k :: 0 <= k < |ts| ==> ReadsAs(ts[k], Text(ts[k + 1..])) }

  lemma IsReadingStep(ts: seq<Token>)
    requires ts != []
    ensures IsReading(ts) <==> ReadsAs(ts[0], Text(ts[1..])) && IsReading(ts[1..])
  {
    hide ReadsAs, Text;
    var rest := ts[1..];
    assert forall k :: 0 <= k < |rest| ==> rest[k] == ts[k + 1] && rest[k + 1..] == ts[k + 2..];
    if IsReading(rest) {
      forall k | 1 <= k < |ts|
        ensures ReadsAs(ts[k], Text(ts[k + 1..]))
      {
        assert ReadsAs(rest[k - 1], Text(rest[k..]));
      }
    }
  }

  lemma {:induction false} ReadingIsCanonical(ts: seq<Token>)
    ensures IsReading(ts) <==> Canonical(ts, "")
  {
    if ts != [] {
      var r := Text(ts[1..]);
      hide ReadsAs, IsFirst, Text;
      IsReadingStep(ts);
      ReadingIsCanonical(ts[1..]);
      ReadsAsIs(ts[0], r);
      LooksOneAhead(ts[0], r);
      assert r + "" == r;
    }
  }

  /** A statement's tokens are exactly the one way of cutting it up that obeys the byte rules. */
  lemma LexIsTheReading(query: string, ts: seq<Token>)
    ensures ts == Lex(query) <==> Text(ts) == query && IsReading(ts)
  {
    hide ReadsAs, IsFirst, Canonical, IsReading;
    LexKeepsText(query, OnePass);
    LexIsCanonical(query);
    ReadingIsCanonical(Lex(query));
    ReadingIsCanonical(ts);
    RoundTrip(ts);
  }
}
