/** The token structure of a CapDB statement, as the driver's two scanners see it
    (internal/capdbdriver/encode.go).  A string holds one byte per character.

    The scanners walk a statement with indices; this module says what they must find,
    as functions on the text that is left to read. */
module SqlLexer {

  datatype Kind = Str | Ident | Bracket | LineComment | BlockComment | Placeholder | Numbered | Other

  datatype Token = Token(kind: Kind, text: string)

  predicate IsDigit(c: char) { '0' <= c <= '9' }

  /** The first byte of `s`, or nothing. */
  function Head(s: string): (h: string)
    ensures |h| <= 1 && h <= s && (h == "" <==> s == "")
  {
    if s == "" then "" else s[..1]
  }

  // ---------------------------------------------------------------- spans

  /** What a span quoted by `q` still covers after its opening quote, when a doubled `q` stands for itself. */
  function QuoteTail(s: string, q: char): (n: nat)
    ensures n <= |s|
    ensures s != "" ==> n > 0
  {
    if s == "" then 0
    else if s[0] != q then 1 + QuoteTail(s[1..], q)
    else if |s| > 1 && s[1] == q then 2 + QuoteTail(s[2..], q)
    else 1
  }

  /** What a span still covers when it ends with the first `q`. */
  function UpTo(s: string, q: char): (n: nat)
    ensures n <= |s|
    ensures s != "" ==> n > 0
    ensures forall k :: 0 <= k < n - 1 ==> s[k] != q
    ensures if q in s then n > 0 && s[n - 1] == q else n == |s|
  {
    if s == "" then 0 else if s[0] == q then 1 else 1 + UpTo(s[1..], q)
  }

  /** What a line comment still covers: everything before the line feed. */
  function Before(s: string, q: char): (n: nat)
    ensures n <= |s| && q !in s[..n] && (n < |s| ==> s[n] == q)
  {
    if s == "" || s[0] == q then 0 else 1 + Before(s[1..], q)
  }

  predicate ClosesComment(s: string) { |s| > 1 && s[0] == '*' && s[1] == '/' }

  /** What a block comment still covers after its opening: up to the first closing pair, or everything. */
  function BlockTail(s: string): (n: nat)
    ensures n <= |s|
  {
    if s == "" then 0 else if ClosesComment(s) then 2 else 1 + BlockTail(s[1..])
  }

  lemma {:induction false} BlockTailIsFirstClose(s: string)
    ensures var n := BlockTail(s);
      (forall k :: 0 <= k < n - 2 ==> !ClosesComment(s[k..])) &&
      (n == |s| || (n >= 2 && ClosesComment(s[n - 2..])))
  {
    if s != "" && !ClosesComment(s) {
      BlockTailIsFirstClose(s[1..]);
      var n: int := BlockTail(s);
      forall k: int | 0 <= k < n - 2
        ensures !ClosesComment(s[k..])
      {
        if k > 0 { assert s[k..] == s[1..][k - 1..]; }
      }
      assert n >= 3 ==> s[n - 2..] == s[1..][n - 3..];
    }
  }

  // ---------------------------------------------------------------- one token

  function KindOf(s: string): Kind
    requires s != ""
  {
    if s[0] == '\'' then Str
    else if s[0] == '"' then Ident
    else if s[0] == '[' then Bracket
    else if |s| > 1 && s[0] == '-' && s[1] == '-' then LineComment
    else if |s| > 1 && s[0] == '/' && s[1] == '*' then BlockComment
    else if s[0] == '?' then if |s| > 1 && IsDigit(s[1]) then Numbered else Placeholder
    else Other
  }

  /** The two readings of a double-quoted identifier: the one-pass reading ends it at the next quote,
      the SQL-92 reading (section 5.2) takes a doubled quote as part of it. */
  datatype IdentRule = OnePass | Escaped

  function LenOf(s: string, rule: IdentRule): (n: nat)
    requires s != ""
    ensures 0 < n <= |s|
  {
    match KindOf(s)
    case Str => 1 + QuoteTail(s[1..], '\'')
    case Ident => 1 + if rule == OnePass then UpTo(s[1..], '"') else QuoteTail(s[1..], '"')
    case Bracket => 1 + UpTo(s[1..], ']')
    case LineComment => 2 + Before(s[2..], '\n')
    case BlockComment => 2 + BlockTail(s[2..])
    case _ => 1
  }

  function LexWith(s: string, rule: IdentRule): seq<Token>
  {
    if s == "" then [] else
    var n := LenOf(s, rule);
    [Token(KindOf(s), s[..n])] + LexWith(s[n..], rule)
  }

  /** The tokens of a statement under the driver's own, one-pass, reading. */
  function Lex(s: string): seq<Token> { LexWith(s, OnePass) }

  function Text(ts: seq<Token>): string
  {
    if ts == [] then "" else ts[0].text + Text(ts[1..])
  }

  // ---------------------------------------------------------------- one byte of look-ahead

  lemma {:induction false} QuoteTailLooksOneAhead(x: string, r: string, q: char)
    ensures QuoteTail(x + r, q) == |x| <==> QuoteTail(x + Head(r), q) == |x|
    decreases |x|
  {
    if x == "" {
      assert x + r == r && x + Head(r) == Head(r);
    } else if x[0] != q {
      assert (x + r)[1..] == x[1..] + r && (x + Head(r))[1..] == x[1..] + Head(r);
      QuoteTailLooksOneAhead(x[1..], r, q);
    } else if |x| > 1 && x[1] == q {
      assert (x + r)[2..] == x[2..] + r && (x + Head(r))[2..] == x[2..] + Head(r);
      QuoteTailLooksOneAhead(x[2..], r, q);
    }
  }

  lemma {:induction false} UpToLooksOneAhead(x: string, r: string, q: char)
    ensures UpTo(x + r, q) == |x| <==> UpTo(x + Head(r), q) == |x|
  {
    if x == "" {
      assert x + r == r && x + Head(r) == Head(r);
    } else {
      assert (x + r)[1..] == x[1..] + r && (x + Head(r))[1..] == x[1..] + Head(r);
      UpToLooksOneAhead(x[1..], r, q);
    }
  }

  lemma {:induction false} BeforeLooksOneAhead(x: string, r: string, q: char)
    ensures Before(x + r, q) == |x| <==> Before(x + Head(r), q) == |x|
  {
    if x == "" {
      assert x + r == r && x + Head(r) == Head(r);
    } else {
      assert (x + r)[1..] == x[1..] + r && (x + Head(r))[1..] == x[1..] + Head(r);
      BeforeLooksOneAhead(x[1..], r, q);
    }
  }

  lemma {:induction false} BlockTailLooksOneAhead(x: string, r: string)
    ensures BlockTail(x + r) == |x| <==> BlockTail(x + Head(r)) == |x|
  {
    if x == "" {
      assert x + r == r && x + Head(r) == Head(r);
    } else {
      assert (x + r)[1..] == x[1..] + r && (x + Head(r))[1..] == x[1..] + Head(r);
      BlockTailLooksOneAhead(x[1..], r);
    }
  }

  /** `t` is read off the front of its own text followed by `r`. */
  predicate IsFirst(t: Token, r: string)
  {
    t.text != "" && KindOf(t.text + r) == t.kind && LenOf(t.text + r, OnePass) == |t.text|
  }

  lemma KindLooksOneAhead(x: string, r: string)
    requires x != ""
    ensures KindOf(x + r) == KindOf(x + Head(r))
  {
    assert |x + r| > 1 <==> |x + Head(r)| > 1;
    assert |x + r| > 1 ==> (x + r)[1] == (x + Head(r))[1];
  }

  lemma AppendTail(x: string, k: nat, r: string)
    requires k <= |x|
    ensures (x + r)[k..] == x[k..] + r
  {}

  lemma LooksOneAhead(t: Token, r: string)
    ensures IsFirst(t, r) <==> IsFirst(t, Head(r))
  {
    hide Head, QuoteTail, UpTo, Before, BlockTail;
    if t.text != "" {
      var x := t.text;
      KindLooksOneAhead(x, r);
      AppendTail(x, 1, r);
      AppendTail(x, 1, Head(r));
      match KindOf(x + r) {
        case Str => QuoteTailLooksOneAhead(x[1..], r, '\'');
        case Ident => UpToLooksOneAhead(x[1..], r, '"');
        case Bracket => UpToLooksOneAhead(x[1..], r, ']');
        case LineComment =>
          if |x| > 1 {
            AppendTail(x, 2, r);
            AppendTail(x, 2, Head(r));
            BeforeLooksOneAhead(x[2..], r, '\n');
          }
        case BlockComment =>
          if |x| > 1 {
            AppendTail(x, 2, r);
            AppendTail(x, 2, Head(r));
            BlockTailLooksOneAhead(x[2..], r);
          }
        case _ =>
      }
    }
  }

  // ---------------------------------------------------------------- when a token list is what its text lexes to

  /** Every token ends where it should, given the one byte that comes next. */
  ghost predicate Canonical(ts: seq<Token>, next: string)
  {
    ts == [] || (IsFirst(ts[0], Head(Text(ts[1..]) + next)) && Canonical(ts[1..], next))
  }

  lemma {:induction false} LexKeepsText(s: string, rule: IdentRule)
    ensures Text(LexWith(s, rule)) == s
    decreases |s|
  {
    if s != "" {
      var n := LenOf(s, rule);
      LexKeepsText(s[n..], rule);
      assert s == s[..n] + s[n..];
    }
  }

  /** Reading one token off a print. */
  lemma FirstOfPrint(t: Token, rest: string)
    ensures IsFirst(t, rest) ==> Lex(t.text + rest) == [t] + Lex(rest)
    ensures !IsFirst(t, rest) && t.text != "" ==> Lex(t.text + rest)[..1] != [t]
  {
    var s := t.text + rest;
    if t.text != "" {
      var n := LenOf(s, OnePass);
      assert Lex(s) == [Token(KindOf(s), s[..n])] + Lex(s[n..]);
      if IsFirst(t, rest) {
        assert s[..n] == t.text && s[n..] == rest;
      } else {
        assert |s[..n]| == n;
        assert Lex(s)[..1] == [Token(KindOf(s), s[..n])];
        assert Lex(s)[..1][0] != t;
      }
    }
  }

  /** The round trip, exactly: printing tokens and lexing the print gives the tokens back
      if and only if each of them stays apart from the byte after it. */
  lemma {:induction false} RoundTrip(ts: seq<Token>)
    ensures Lex(Text(ts)) == ts <==> Canonical(ts, "")
  {
    if ts != [] {
      var t, rest := ts[0], Text(ts[1..]);
      assert ts == [t] + ts[1..] && ts[..1] == [t];
      assert Head(rest + "") == Head(rest);
      LooksOneAhead(t, rest);
      if t.text == "" {
        LexHasNoEmptyToken(Text(ts));
        assert t in ts;
      } else {
        RoundTrip(ts[1..]);
        FirstOfPrint(t, rest);
      }
    }
  }

  lemma {:induction false} LexHasNoEmptyToken(s: string)
    ensures forall t :: t in Lex(s) ==> t.text != ""
    decreases |s|
  {
    if s != "" {
      LexHasNoEmptyToken(s[LenOf(s, OnePass)..]);
    }
  }

  lemma LexIsCanonical(s: string)
    ensures Canonical(Lex(s), "")
  {
    LexKeepsText(s, OnePass);
    RoundTrip(Lex(s));
  }

  // ---------------------------------------------------------------- the two readings of "..." agree

  /** The kind of token that covers each byte. */
  function KindAt(ts: seq<Token>): (ks: seq<Kind>)
    ensures |ks| == |Text(ts)|
  {
    if ts == [] then [] else KindBytes(ts[0].kind, |ts[0].text|) + KindAt(ts[1..])
  }

  function KindBytes(k: Kind, n: nat): (ks: seq<Kind>)
    ensures |ks| == n
  {
    seq(n, _ => k)
  }

  lemma {:induction false} QuoteTailByPairs(s: string, q: char)
    ensures var n := UpTo(s, q);
            QuoteTail(s, q) == if n < |s| && s[n] == q then n + 1 + QuoteTail(s[n + 1..], q) else n
  {
    if s != "" && s[0] != q {
      QuoteTailByPairs(s[1..], q);
      var n := UpTo(s, q);
      assert n < |s| ==> s[n + 1..] == s[1..][n..];
    }
  }

  lemma KindStep(s: string, rule: IdentRule)
    requires s != ""
    ensures var n := LenOf(s, rule); KindAt(LexWith(s, rule)) == KindBytes(KindOf(s), n) + KindAt(LexWith(s[n..], rule))
  {
    hide KindOf, LenOf, KindBytes;
    var n := LenOf(s, rule);
    assert LexWith(s, rule) == [Token(KindOf(s), s[..n])] + LexWith(s[n..], rule);
  }

  lemma KindBytesAdd(m: nat, n: nat, ks: seq<Kind>)
    ensures KindBytes(Ident, m) + (KindBytes(Ident, n) + ks) == KindBytes(Ident, m + n) + ks
  {}

  /** The escape-aware identifier is the one-pass one, or that and another identifier right behind it. */
  lemma EscapedByPieces(s: string)
    requires s != "" && s[0] == '"'
    ensures var m, n := LenOf(s, Escaped), LenOf(s, OnePass);
            m == n || (n < |s| && s[n] == '"' && m == n + LenOf(s[n..], Escaped))
  {
    var n := LenOf(s, OnePass);
    QuoteTailByPairs(s[1..], '"');
    if n < |s| {
      assert s[n..][1..] == s[1..][n..];
    }
  }

  /** The one-pass tokens inside one escape-aware identifier are all identifiers. */
  lemma {:induction false} OnePassCoversEscaped(s: string)
    requires s != "" && s[0] == '"'
    ensures var m := LenOf(s, Escaped);
            KindAt(Lex(s)) == KindBytes(Ident, m) + KindAt(Lex(s[m..]))
    decreases |s|
  {
    hide KindOf, LenOf, LexWith, KindAt, KindBytes, QuoteTail, UpTo, Before, BlockTail;
    KindStep(s, OnePass);
    EscapedByPieces(s);
    QuoteStartsIdent(s);
    var m, n := LenOf(s, Escaped), LenOf(s, OnePass);
    if m != n {
      OnePassCoversEscaped(s[n..]);
      TailOfTail(s, n, m - n);
      KindBytesAdd(n, m - n, KindAt(Lex(s[m..])));
    }
  }

  lemma QuoteStartsIdent(s: string)
    requires s != "" && s[0] == '"'
    ensures KindOf(s) == Ident
  {}

  lemma TailOfTail(s: string, n: nat, k: nat)
    requires n + k <= |s|
    ensures s[n..][k..] == s[n + k..]
  {}

  /** For every byte of every statement the two readings agree on what covers it, so they find the same placeholders. */
  lemma {:induction false} IdentifierRulesAgree(s: string)
    ensures KindAt(LexWith(s, OnePass)) == KindAt(LexWith(s, Escaped))
    decreases |s|
  {
    if s != "" {
      hide QuoteTail, UpTo, Before, BlockTail, LexWith, KindAt, KindBytes;
      IdentifierRulesAgree(s[LenOf(s, Escaped)..]);
      KindStep(s, Escaped);
      if s[0] == '"' {
        OnePassCoversEscaped(s);
      } else {
        KindStep(s, OnePass);
      }
    }
  }
}
