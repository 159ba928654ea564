/** What substitution does to the meaning of a statement: the tokens the server reads back from the
    substituted text are those of the query with each placeholder replaced by the tokens of its literal,
    exactly when no literal runs into its neighbour. */
module Relexing {
  import opened Options
  import opened SqlLexer
  import opened SqlLiteral
  import opened Substitution

  /** A query token that is copied, or an argument that takes a placeholder's place. */
  datatype Piece = Tok(t: Token) | Arg(v: Value)

  predicate AllEncodable(args: seq<Value>) { forall k :: 0 <= k < |args| ==> Encodable(args[k]) }

  /** `args` has one encodable value for each placeholder of `ts`, and `ts` has no numbered placeholder. */
  predicate Fits(ts: seq<Token>, args: seq<Value>)
  {
    && |args| == CountOf(ts)
    && AllEncodable(args)
    && forall k :: 0 <= k < |ts| ==> ts[k].kind != Numbered
  }

  function Pieces(ts: seq<Token>, args: seq<Value>): (ps: seq<Piece>)
    requires Fits(ts, args)
    ensures |ps| == |ts|
  {
    if ts == [] then []
    else if ts[0].kind == Placeholder then [Arg(args[0])] + Pieces(ts[1..], args[1..])
    else [Tok(ts[0])] + Pieces(ts[1..], args)
  }

  /** The arguments left after the first token. */
  function ArgsAfter(ts: seq<Token>, args: seq<Value>): seq<Value>
    requires ts != [] && Fits(ts, args)
  {
    if ts[0].kind == Placeholder then args[1..] else args
  }

  lemma FitsTail(ts: seq<Token>, args: seq<Value>)
    requires ts != [] && Fits(ts, args)
    ensures Fits(ts[1..], ArgsAfter(ts, args))
  {
    assert forall k :: 0 <= k < |ts[1..]| ==> ts[1..][k] == ts[k + 1];
  }

  function PieceTokens(p: Piece): seq<Token>
    requires p.Arg? ==> Encodable(p.v)
  {
    match p
    case Tok(t) => [t]
    case Arg(v) => Lex(EncodeLiteral(v).value)
  }

  /** The query's tokens, each placeholder replaced by the tokens of its argument's literal. */
  function Replaced(ts: seq<Token>, args: seq<Value>): seq<Token>
    requires Fits(ts, args)
  {
    if ts == [] then []
    else if ts[0].kind == Placeholder then PieceTokens(Arg(args[0])) + Replaced(ts[1..], args[1..])
    else [ts[0]] + Replaced(ts[1..], args)
  }

  // ---------------------------------------------------------------- when substitution succeeds

  lemma FitsByParts(ts: seq<Token>, args: seq<Value>)
    requires ts != []
    ensures Fits(ts, args) <==>
      if ts[0].kind == Placeholder then args != [] && Encodable(args[0]) && Fits(ts[1..], args[1..])
      else ts[0].kind != Numbered && Fits(ts[1..], args)
  {
    var rest := ts[1..];
    assert forall k :: 0 <= k < |rest| ==> rest[k] == ts[k + 1];
    assert (forall k :: 0 <= k < |rest| ==> rest[k].kind != Numbered) ==> forall k :: 1 <= k < |ts| ==> ts[k] == rest[k - 1];
    if args != [] {
      assert forall k :: 0 <= k < |args[1..]| ==> args[1..][k] == args[k + 1];
      assert AllEncodable(args[1..]) ==> forall k :: 1 <= k < |args| ==> args[k] == args[1..][k - 1];
    }
  }

  lemma {:induction false} SpliceSucceeds(ts: seq<Token>, args: seq<Value>)
    ensures Splice(ts, args).Ok? <==> Fits(ts, args)
    ensures Fits(ts, args) ==> Splice(ts, args).sql == Text(Replaced(ts, args))
  {
    if ts != [] {
      FitsByParts(ts, args);
      if ts[0].kind == Placeholder {
        if args != [] && Encodable(args[0]) {
          SpliceSucceeds(ts[1..], args[1..]);
          if Fits(ts, args) {
            var lit := EncodeLiteral(args[0]).value;
            TextAppend(Lex(lit), Replaced(ts[1..], args[1..]));
            LexKeepsText(lit, OnePass);
          }
        }
      } else {
        SpliceSucceeds(ts[1..], args);
      }
    }
  }

  lemma {:induction false} TextAppend(a: seq<Token>, b: seq<Token>)
    ensures Text(a + b) == Text(a) + Text(b)
  {
    if a == [] {
      assert a + b == b;
    } else {
      assert (a + b)[1..] == a[1..] + b;
      TextAppend(a[1..], b);
    }
  }

  /** The two scanners agree: substitution accepts exactly the calls that supply one encodable
      value for each placeholder counted, and whose query has no NUL byte and no numbered placeholder. */
  lemma SubstituteAccepts(query: string, args: seq<Value>)
    ensures Substituted(query, args).Ok? <==>
      && NUL !in query
      && (forall t :: t in Lex(query) ==> t.kind != Numbered)
      && AllEncodable(args)
      && |args| == CountOf(Lex(query))
  {
    SpliceSucceeds(Lex(query), args);
  }

  lemma CountFront(ts: seq<Token>, k: nat)
    requires 0 < k <= |ts|
    ensures CountOf(ts[..k]) == (if ts[0].kind == Placeholder then 1 else 0) + CountOf(ts[1..][..k - 1])
  {
    assert ts[..k][1..] == ts[1..][..k - 1] && ts[..k][0] == ts[0];
  }

  /** The k-th placeholder gets the k-th argument, and every other token stays. */
  lemma {:induction false} PieceIs(ts: seq<Token>, args: seq<Value>, k: nat)
    requires Fits(ts, args) && k < |ts|
    ensures CountOf(ts[..k]) <= |args|
    ensures ts[k].kind == Placeholder ==> CountOf(ts[..k]) < |args| && Pieces(ts, args)[k] == Arg(args[CountOf(ts[..k])])
    ensures ts[k].kind != Placeholder ==> Pieces(ts, args)[k] == Tok(ts[k])
  {
    if k > 0 {
      FitsTail(ts, args);
      PieceIs(ts[1..], ArgsAfter(ts, args), k - 1);
      CountFront(ts, k);
      assert Pieces(ts, args)[1..] == Pieces(ts[1..], ArgsAfter(ts, args));
      hide Fits, Pieces, CountOf, Encodable;
    } else {
      assert ts[..0] == [];
    }
  }

  /** The pieces one after another: tokens as they are, arguments as their literals. */
  function Spelled(ps: seq<Piece>): string
  {
    if ps == [] then ""
    else (match ps[0]
          case Tok(t) => t.text
          case Arg(v) => if Encodable(v) then EncodeLiteral(v).value else "") + Spelled(ps[1..])
  }

  lemma {:induction false} SpliceSpells(ts: seq<Token>, args: seq<Value>)
    requires Fits(ts, args)
    ensures Splice(ts, args) == Ok(Spelled(Pieces(ts, args)))
  {
    if ts != [] {
      FitsTail(ts, args);
      SpliceSpells(ts[1..], ArgsAfter(ts, args));
      assert Pieces(ts, args)[1..] == Pieces(ts[1..], ArgsAfter(ts, args));
    }
  }

  /** What a successful substitution returns, byte for byte. */
  lemma OutputIsSpelled(query: string, args: seq<Value>)
    requires Substituted(query, args).Ok?
    ensures Fits(Lex(query), args) && Substituted(query, args).sql == Spelled(Pieces(Lex(query), args))
  {
    SpliceSucceeds(Lex(query), args);
    SpliceSpells(Lex(query), args);
  }

  // ---------------------------------------------------------------- seams

  predicate EndsInQuote(p: Piece) { match p case Tok(t) => t.kind == Str case Arg(v) => EndsQuoted(v) }
  predicate StartsWithQuote(p: Piece) { match p case Tok(t) => t.kind == Str case Arg(v) => Quoted(v) }

  /** An argument runs into its neighbour: two quotes meet and read as a doubled quote,
      or a minus sign meets a negative number and reads as a comment. */
  predicate Collides(p: Piece, q: Piece)
  {
    && (p.Arg? || q.Arg?)
    && ((EndsInQuote(p) && StartsWithQuote(q)) ||
        (p.Tok? && p.t.text == "-" && q.Arg? && Negative(q.v)))
  }

  predicate NoCollision(ps: seq<Piece>)
  {
    forall k :: 0 <= k < |ps| - 1 ==> !Collides(ps[k], ps[k + 1])
  }

  lemma {:induction false} CanonicalAppend(a: seq<Token>, b: seq<Token>, next: string)
    ensures Canonical(a + b, next) <==> Canonical(a, Head(Text(b) + next)) && Canonical(b, next)
  {
    if a == [] {
      assert a + b == b;
    } else {
      assert (a + b)[1..] == a[1..] + b;
      TextAppend(a[1..], b);
      assert Head(Text(a[1..]) + Head(Text(b) + next)) == Head(Text(a[1..]) + Text(b) + next);
      CanonicalAppend(a[1..], b, next);
    }
  }

  lemma CanonicalSingle(t: Token, next: string)
    requires |next| <= 1
    ensures Canonical([t], next) <==> IsFirst(t, next)
  {
    assert [t][1..] == [];
    assert Text([t][1..]) + next == next && Head(next) == next;
  }

  /** A finished token list stays finished before another byte exactly when its last token does. */
  lemma {:induction false} CanonicalBefore(a: seq<Token>, next: string)
    requires a != [] && Canonical(a, "") && |next| <= 1
    ensures Canonical(a, next) <==> IsFirst(a[|a| - 1], next)
  {
    hide KindOf, LenOf;
    if |a| == 1 {
      assert a == [a[0]];
      CanonicalSingle(a[0], next);
    } else {
      var rest := a[1..];
      CanonicalBefore(rest, next);
      assert rest[0].text != "" && Text(rest) != "";
      assert Head(Text(rest) + next) == Head(Text(rest) + "");
    }
  }

  /** Between a token and the literal behind it. */
  lemma SeamBefore(t: Token, v: Value)
    requires Encodable(v) && IsFirst(t, "?") && t.kind != Placeholder && t.kind != Numbered
    ensures IsFirst(t, Head(EncodeLiteral(v).value)) <==> !Collides(Tok(t), Arg(v))
  {
    LiteralStarts(v);
    var c := EncodeLiteral(v).value[0];
    assert Head(EncodeLiteral(v).value) == [c];
    SeamOfToken(t, c);
  }

  lemma KindBefore(x: string, c: char)
    requires x != "" && KindOf(x + "?") != Placeholder && KindOf(x + "?") != Numbered && c != '*'
    ensures KindOf(x + [c]) == KindOf(x + "?") <==> !(x == "-" && c == '-')
  {
    assert (x + "?")[0] == x[0] == (x + [c])[0];
    if |x| > 1 {
      assert (x + "?")[1] == x[1] == (x + [c])[1];
    } else {
      assert (x + "?")[1] == '?' && (x + [c])[1] == c;
    }
  }

  /** A token that ends before a `?` ends before any other byte that neither doubles its quote nor starts a comment. */
  lemma SeamOfToken(t: Token, c: char)
    requires IsFirst(t, "?") && t.kind != Placeholder && t.kind != Numbered && c != '*'
    ensures IsFirst(t, [c]) <==> !(t.kind == Str && c == '\'') && !(t.text == "-" && c == '-')
  {
    var x := t.text;
    KindBefore(x, c);
    if !(x == "-" && c == '-') {
      assert (x + "?")[1..] == x[1..] + "?" && (x + [c])[1..] == x[1..] + [c];
      match t.kind {
        case Str => QuoteTailBefore(x[1..], c);
        case Ident => UpToBefore(x[1..], '"', c);
        case Bracket => UpToBefore(x[1..], ']', c);
        case LineComment => NoLineCommentBefore(x);
        case BlockComment =>
          assert |x| > 1;
          assert (x + "?")[2..] == x[2..] + "?" && (x + [c])[2..] == x[2..] + [c];
          BlockTailBefore(x[2..], c);
        case Other =>
      }
    }
  }

  lemma NoLineCommentBefore(x: string)
    requires x != "" && KindOf(x + "?") == LineComment
    ensures LenOf(x + "?", OnePass) != |x|
  {
    assert |x| > 1;
    assert (x + "?")[2..] == x[2..] + "?";
    BeforeNeedsTheLineFeed(x[2..]);
  }

  lemma {:induction false} QuoteTailBefore(x: string, c: char)
    requires QuoteTail(x + "?", '\'') == |x|
    ensures QuoteTail(x + [c], '\'') == |x| <==> c != '\''
  {
    if x != "" {
      if x[0] != '\'' {
        assert (x + "?")[1..] == x[1..] + "?" && (x + [c])[1..] == x[1..] + [c];
        QuoteTailBefore(x[1..], c);
      } else if |x| > 1 && x[1] == '\'' {
        assert (x + "?")[2..] == x[2..] + "?" && (x + [c])[2..] == x[2..] + [c];
        QuoteTailBefore(x[2..], c);
      }
    }
  }

  lemma {:induction false} UpToBefore(x: string, q: char, c: char)
    requires UpTo(x + "?", q) == |x| && q != '?'
    ensures UpTo(x + [c], q) == |x|
  {
    if x != "" {
      assert (x + "?")[1..] == x[1..] + "?" && (x + [c])[1..] == x[1..] + [c];
      if x[0] != q { UpToBefore(x[1..], q, c); }
    }
  }

  lemma {:induction false} BlockTailBefore(x: string, c: char)
    requires BlockTail(x + "?") == |x|
    ensures BlockTail(x + [c]) == |x|
  {
    if x != "" {
      assert (x + "?")[1..] == x[1..] + "?" && (x + [c])[1..] == x[1..] + [c];
      if !ClosesComment(x + "?") { BlockTailBefore(x[1..], c); }
    }
  }

  lemma {:induction false} BeforeNeedsTheLineFeed(x: string)
    ensures Before(x + "?", '\n') != |x|
  {
    if x != "" {
      assert (x + "?")[1..] == x[1..] + "?";
      BeforeNeedsTheLineFeed(x[1..]);
    }
  }

  /** Between a literal and what follows it. */
  lemma SeamAfter(v: Value, next: string)
    requires Encodable(v) && |next| <= 1
    ensures Canonical(Lex(EncodeLiteral(v).value), next) <==> !(EndsQuoted(v) && next == "'")
  {
    LiteralEnds(v);
    var lit := EncodeLiteral(v).value;
    LexIsCanonical(lit);
    var ts := Lex(lit);
    assert ts != [] && Closing(ts[|ts| - 1], EndsQuoted(v));
    ClosingBefore(ts, EndsQuoted(v), next);
  }

  lemma ClosingBefore(ts: seq<Token>, quoted: bool, next: string)
    requires ts != [] && Canonical(ts, "") && Closing(ts[|ts| - 1], quoted) && |next| <= 1
    ensures Canonical(ts, next) <==> !(quoted && next == "'")
  {
    CanonicalBefore(ts, next);
    CanonicalBefore(ts, "");
    if next != "" {
      assert next == [next[0]];
      if quoted {
        StringBefore(ts[|ts| - 1], next[0]);
      } else {
        NumberByteBefore(ts[|ts| - 1], next[0]);
      }
    }
  }

  lemma StringBefore(t: Token, c: char)
    requires Closing(t, true)
    ensures IsFirst(t, [c]) <==> c != '\''
  {
    var x := t.text;
    assert (x + "?")[1..] == x[1..] + "?" && (x + [c])[1..] == x[1..] + [c];
    QuoteTailBefore(x[1..], c);
  }

  lemma NumberByteBefore(t: Token, c: char)
    requires Closing(t, false)
    ensures IsFirst(t, [c])
  {}

  // ---------------------------------------------------------------- the theorem

  lemma {:induction false} SeamsDecide(ts: seq<Token>, args: seq<Value>)
    requires Fits(ts, args) && Canonical(ts, "")
    ensures Canonical(Replaced(ts, args), "") <==> NoCollision(Pieces(ts, args))
  {
    if ts != [] {
      var t, rest := ts[0], ts[1..];
      FitsTail(ts, args);
      var args' := ArgsAfter(ts, args);
      SeamsDecide(rest, args');
      var ps, ps' := Pieces(ts, args), Pieces(rest, args');
      assert ps == [ps[0]] + ps';
      NoCollisionStep(ps);
      var next := Head(Text(Replaced(rest, args')) + "");
      CanonicalAppend(PieceTokens(ps[0]), Replaced(rest, args'), "");
      NextByte(rest, args');
      if t.kind == Placeholder {
        SeamAfter(ps[0].v, next);
      } else {
        CanonicalSingle(t, next);
        if rest != [] && rest[0].kind == Placeholder {
          SeamBefore(t, ps'[0].v);
        }
      }
    }
  }

  lemma NoCollisionStep(ps: seq<Piece>)
    requires ps != []
    ensures NoCollision(ps) <==> (|ps| > 1 ==> !Collides(ps[0], ps[1])) && NoCollision(ps[1..])
  {
    if NoCollision(ps[1..]) {
      forall k | 1 <= k < |ps| - 1
        ensures !Collides(ps[k], ps[k + 1])
      {
        assert !Collides(ps[1..][k - 1], ps[1..][k]);
      }
    }
    if NoCollision(ps) {
      forall k | 0 <= k < |ps[1..]| - 1
        ensures !Collides(ps[1..][k], ps[1..][k + 1])
      {
        assert !Collides(ps[k + 1], ps[k + 2]);
      }
    }
  }

  lemma HeadOfText(ts: seq<Token>)
    requires ts != [] && ts[0].text != ""
    ensures Head(Text(ts) + "") == [ts[0].text[0]]
  {}

  /** The byte a replaced token list starts with: a literal's first byte, or the query's own. */
  lemma NextByte(ts: seq<Token>, args: seq<Value>)
    requires Fits(ts, args) && Canonical(ts, "")
    ensures var next := Head(Text(Replaced(ts, args)) + "");
      if ts == [] then next == "" else
      && (ts[0].kind == Placeholder ==> Head(Text(ts) + "") == "?" && next == Head(EncodeLiteral(args[0]).value))
      && (ts[0].kind != Placeholder ==> next == Head(Text(ts) + ""))
      && (next == "'" <==> StartsWithQuote(Pieces(ts, args)[0]))
  {
    if ts != [] {
      HeadOfText(ts);
      QuoteStartsString(ts[0], Head(Text(ts[1..]) + ""));
      if ts[0].kind == Placeholder {
        HeadOfLiteral(args[0], Replaced(ts[1..], args[1..]));
      } else {
        HeadOfText(Replaced(ts, args));
      }
    }
  }

  lemma QuoteStartsString(t: Token, next: string)
    requires IsFirst(t, next)
    ensures t.text[0] == '\'' <==> t.kind == Str
    ensures t.text[0] == '?' <==> t.kind == Placeholder || t.kind == Numbered
  {
    assert (t.text + next)[0] == t.text[0];
  }

  lemma HeadOfLiteral(v: Value, rest: seq<Token>)
    requires Encodable(v)
    ensures Head(Text(PieceTokens(Arg(v)) + rest) + "") == Head(EncodeLiteral(v).value)
    ensures Head(EncodeLiteral(v).value) == "'" <==> Quoted(v)
  {
    var lit := EncodeLiteral(v).value;
    LiteralStarts(v);
    LexKeepsText(lit, OnePass);
    TextAppend(Lex(lit), rest);
    assert Head(lit + Text(rest) + "") == [lit[0]] == Head(lit);
  }

  /** Re-lexing the substituted statement gives the query's tokens with each placeholder replaced
      by the tokens of its literal, if and only if no literal collides with its neighbour. */
  lemma SubstitutionKeepsTokens(query: string, args: seq<Value>)
    requires Substituted(query, args).Ok?
    ensures Fits(Lex(query), args)
    ensures Lex(Substituted(query, args).sql) == Replaced(Lex(query), args)
       <==> NoCollision(Pieces(Lex(query), args))
  {
    var ts := Lex(query);
    SpliceSucceeds(ts, args);
    LexIsCanonical(query);
    SeamsDecide(ts, args);
    RoundTrip(Replaced(ts, args));
  }

  // ---------------------------------------------------------------- nothing is left to bind

  lemma {:induction false} ReplacedHasNoPlaceholder(ts: seq<Token>, args: seq<Value>)
    requires Fits(ts, args)
    ensures Fits(Replaced(ts, args), [])
  {
    if ts != [] {
      FitsTail(ts, args);
      var args' := ArgsAfter(ts, args);
      ReplacedHasNoPlaceholder(ts[1..], args');
      if ts[0].kind == Placeholder { LiteralEnds(args[0]); }
      CountAppend(PieceTokens(Pieces(ts, args)[0]), Replaced(ts[1..], args'));
    }
  }

  lemma {:induction false} CountAppend(a: seq<Token>, b: seq<Token>)
    requires forall k :: 0 <= k < |a| ==> a[k].kind != Placeholder
    ensures CountOf(a + b) == CountOf(b)
  {
    if a == [] {
      assert a + b == b;
    } else {
      assert (a + b)[1..] == a[1..] + b;
      CountAppend(a[1..], b);
    }
  }

  lemma {:induction false} ReplacedHasNoNul(ts: seq<Token>, args: seq<Value>)
    requires Fits(ts, args) && NUL !in Text(ts)
    ensures NUL !in Text(Replaced(ts, args))
  {
    if ts != [] {
      assert Text(ts) == ts[0].text + Text(ts[1..]);
      FitsTail(ts, args);
      var args' := ArgsAfter(ts, args);
      ReplacedHasNoNul(ts[1..], args');
      if ts[0].kind == Placeholder {
        var lit := EncodeLiteral(args[0]).value;
        LiteralHasNoNul(args[0]);
        LexKeepsText(lit, OnePass);
        TextAppend(Lex(lit), Replaced(ts[1..], args'));
      }
    }
  }

  lemma {:induction false} NothingToReplace(ts: seq<Token>)
    requires Fits(ts, [])
    ensures Replaced(ts, []) == ts
  {
    if ts != [] {
      FitsTail(ts, []);
      NothingToReplace(ts[1..]);
    }
  }

  /** Without collisions the substituted statement has no placeholder left: substituting
      no arguments into it succeeds and changes nothing. */
  lemma SubstitutionIsFinal(query: string, args: seq<Value>)
    requires Substituted(query, args).Ok? && NoCollisionIn(query, args)
    ensures var out := Substituted(query, args).sql;
      CountOf(Lex(out)) == 0 && Substituted(out, []) == Ok(out)
  {
    var ts, out := Lex(query), Substituted(query, args).sql;
    SubstitutionKeepsTokens(query, args);
    SpliceSucceeds(ts, args);
    LexKeepsText(query, OnePass);
    ReplacedHasNoPlaceholder(ts, args);
    ReplacedHasNoNul(ts, args);
    SpliceSucceeds(Lex(out), []);
    NothingToReplace(Lex(out));
  }

  predicate NoCollisionIn(query: string, args: seq<Value>)
  {
    Fits(Lex(query), args) && NoCollision(Pieces(Lex(query), args))
  }

  // ---------------------------------------------------------------- queries that are safe for every argument

  /** Some argument at the placeholder among `a` and `b` would run into the other. */
  predicate Risky(a: Token, b: Token)
  {
    if a.kind == Placeholder then b.kind == Placeholder || b.kind == Str
    else b.kind == Placeholder && (a.kind == Str || a.text == "-")
  }

  predicate SafeForAll(ts: seq<Token>)
  {
    forall k :: 0 <= k < |ts| - 1 ==> !Risky(ts[k], ts[k + 1])
  }

  lemma {:induction false} PieceAt(ts: seq<Token>, args: seq<Value>, k: nat)
    requires Fits(ts, args) && k < |ts|
    ensures var p := Pieces(ts, args)[k];
      if ts[k].kind == Placeholder then p.Arg? && p.v in args else p == Tok(ts[k])
  {
    if k > 0 {
      FitsTail(ts, args);
      PieceAt(ts[1..], ArgsAfter(ts, args), k - 1);
      assert Pieces(ts, args)[1..] == Pieces(ts[1..], ArgsAfter(ts, args));
    }
  }

  lemma SafeMeansNoCollision(ts: seq<Token>, args: seq<Value>)
    requires Fits(ts, args) && SafeForAll(ts)
    ensures NoCollision(Pieces(ts, args))
  {
    forall k | 0 <= k < |ts| - 1
      ensures !Collides(Pieces(ts, args)[k], Pieces(ts, args)[k + 1])
    {
      PieceAt(ts, args, k);
      PieceAt(ts, args, k + 1);
      assert !Risky(ts[k], ts[k + 1]);
    }
  }

  /** An argument list that makes a risky pair collide: negative numbers behind a minus, strings elsewhere. */
  lemma RiskyCollides(ts: seq<Token>, k: nat) returns (args: seq<Value>)
    requires k + 1 < |ts| && Risky(ts[k], ts[k + 1]) && forall i :: 0 <= i < |ts| ==> ts[i].kind != Numbered
    ensures Fits(ts, args) && !NoCollision(Pieces(ts, args))
  {
    var minus := ts[k].kind != Placeholder && ts[k].text == "-";
    var v := if minus then Int(-1) else String("");
    args := seq(CountOf(ts), _ => v);
    PieceAt(ts, args, k);
    PieceAt(ts, args, k + 1);
    assert FormatInt(-1)[0] == '-';
    assert Collides(Pieces(ts, args)[k], Pieces(ts, args)[k + 1]);
  }

  ghost predicate AlwaysKeepsTokens(query: string)
  {
    forall args :: Fits(Lex(query), args) ==>
      Substituted(query, args).Ok? && Lex(Substituted(query, args).sql) == Replaced(Lex(query), args)
  }

  /** A statement keeps its tokens under every argument list exactly when none of its placeholders stands right
      behind a string, a minus sign or another placeholder, or right before a string. */
  lemma SafeExactly(query: string)
    requires NUL !in query && forall t :: t in Lex(query) ==> t.kind != Numbered
    ensures AlwaysKeepsTokens(query) <==> SafeForAll(Lex(query))
  {
    var ts := Lex(query);
    if SafeForAll(ts) {
      forall args | Fits(ts, args)
        ensures Substituted(query, args).Ok? && Lex(Substituted(query, args).sql) == Replaced(ts, args)
      {
        SpliceSucceeds(ts, args);
        SafeMeansNoCollision(ts, args);
        SubstitutionKeepsTokens(query, args);
      }
    } else {
      var k :| 0 <= k < |ts| - 1 && Risky(ts[k], ts[k + 1]);
      var args := RiskyCollides(ts, k);
      SpliceSucceeds(ts, args);
      SubstitutionKeepsTokens(query, args);
    }
  }
}
