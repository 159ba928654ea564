/** The statement as a SQL reader groups it: neighbouring bytes of identifiers, keywords and numbers form one word,
    a word takes the string right behind it (as in x'00'), and a letter e the sign right behind it (as in 1e-5).
    Substitution can also go wrong here: a placeholder ends a word, a literal in its place need not. */
module SqlWords {
  import opened Options
  import opened SqlLexer
  import opened SqlLiteral
  import opened Substitution
  import opened Relexing

  /** Names may hold `_` and `$`, numbers a dot, and variables and temporary names start with `:`, `@` or `#`. */
  predicate WordByte(c: char) { AlnumByte(c) || c in { '_', '$', '.', ':', '@', '#' } || c as int >= 128 }

  predicate SignByte(c: char) { c == '+' || c == '-' }

  predicate ExponentByte(c: char) { c == 'e' || c == 'E' }

  predicate InWord(t: Token) { t.kind == SqlLexer.Other && t.text != "" && WordByte(t.text[0]) }

  predicate IsSign(t: Token) { t.kind == SqlLexer.Other && t.text != "" && SignByte(t.text[0]) }

  predicate IsExponent(t: Token) { t.kind == SqlLexer.Other && t.text != "" && ExponentByte(t.text[0]) }

  predicate Glued(a: Token, b: Token) { InWord(a) && (InWord(b) || b.kind == Str || (IsExponent(a) && IsSign(b))) }

  type Word = seq<Token>

  function Words(ts: seq<Token>): (ws: seq<Word>)
    ensures ws == [] <==> ts == []
    ensures ts != [] ==> |ws[0]| > 0 && ws[0][0] == ts[0]
  {
    if ts == [] then []
    else
      var rest := Words(ts[1..]);
      if |ts| == 1 || !Glued(ts[0], ts[1]) then [[ts[0]]] + rest
      else GlueOn(ts[0], rest)
  }

  /** A token joins the word behind it. */
  function GlueOn(t: Token, ws: seq<Word>): seq<Word>
    requires ws != []
  {
    [[t] + ws[0]] + ws[1..]
  }

  predicate IsHole(w: Word) { w != [] && w[0].kind == Placeholder }

  /** The words of a query with each placeholder replaced by the words of its literal. */
  function ReplacedWords(ws: seq<Word>, args: seq<Value>): seq<Word>
    requires AllEncodable(args)
  {
    if ws == [] then []
    else if IsHole(ws[0]) && args != [] then
      Words(Lex(EncodeLiteral(args[0]).value)) + ReplacedWords(ws[1..], args[1..])
    else [ws[0]] + ReplacedWords(ws[1..], args)
  }

  predicate WordEnd(p: Piece)
    requires p.Arg? ==> Encodable(p.v)
  {
    match p case Tok(t) => InWord(t) case Arg(v) => !EndsQuoted(v)
  }

  predicate WordStart(p: Piece)
    requires p.Arg? ==> Encodable(p.v)
  {
    match p case Tok(t) => InWord(t) case Arg(v) => EncodeLiteral(v).value != "" && WordByte(EncodeLiteral(v).value[0])
  }

  predicate ExponentEnd(p: Piece)
    requires p.Arg? ==> Encodable(p.v)
  {
    match p
    case Tok(t) => IsExponent(t)
    case Arg(v) => var lit := EncodeLiteral(v).value; lit != "" && ExponentByte(lit[|lit| - 1])
  }

  predicate SignStart(p: Piece)
    requires p.Arg? ==> Encodable(p.v)
  {
    match p case Tok(t) => IsSign(t) case Arg(v) => EncodeLiteral(v).value != "" && SignByte(EncodeLiteral(v).value[0])
  }

  /** A literal and its neighbour read as one word. */
  predicate Merges(p: Piece, q: Piece)
    requires (p.Arg? ==> Encodable(p.v)) && (q.Arg? ==> Encodable(q.v))
  {
    (p.Arg? || q.Arg?) && WordEnd(p) && (WordStart(q) || StartsWithQuote(q) || (ExponentEnd(p) && SignStart(q)))
  }

  predicate PiecesEncodable(ps: seq<Piece>) { forall k :: 0 <= k < |ps| ==> ps[k].Arg? ==> Encodable(ps[k].v) }

  predicate NoMerge(ps: seq<Piece>)
    requires PiecesEncodable(ps)
  {
    forall k :: 0 <= k < |ps| - 1 ==> !Merges(ps[k], ps[k + 1])
  }

  function Cons(t: Token, glue: bool, ws: seq<Word>): (r: seq<Word>)
    requires glue ==> ws != []
  {
    if glue then GlueOn(t, ws) else [[t]] + ws
  }

  lemma WordsCons(t: Token, rest: seq<Token>)
    ensures Words([t] + rest) == Cons(t, rest != [] && Glued(t, rest[0]), Words(rest))
  {
    var ts := [t] + rest;
    assert ts[1..] == rest && ts[0] == t && (rest != [] ==> ts[1] == rest[0]);
  }

  /** `xy` is what appending `x` and `y` gives, with or without a merge in the middle. */
  predicate Appended(merge: bool, x: seq<Word>, y: seq<Word>, xy: seq<Word>)
  {
    if merge then |xy| == |x| + |y| - 1 else xy == x + y
  }

  lemma ConsAppended(t: Token, glue: bool, merge: bool, x: seq<Word>, y: seq<Word>, xy: seq<Word>)
    requires x != [] && y != [] && Appended(merge, x, y, xy)
    ensures xy != [] && Appended(merge, Cons(t, glue, x), y, Cons(t, glue, xy))
  {
    if !merge {
      assert (x + y)[1..] == x[1..] + y && (x + y)[0] == x[0];
      assert [[t] + x[0]] + (x[1..] + y) == GlueOn(t, x) + y;
      assert [[t]] + (x + y) == [[t]] + x + y;
    }
  }

  lemma {:induction false} WordsAppend(a: seq<Token>, b: seq<Token>)
    requires a != [] && b != []
    ensures Appended(Glued(a[|a| - 1], b[0]), Words(a), Words(b), Words(a + b))
  {
    var t, rest := a[0], a[1..];
    assert a == [t] + rest;
    assert a + b == [t] + (rest + b);
    WordsCons(t, rest);
    WordsCons(t, rest + b);
    if rest == [] {
      WordsAppendOne(t, b);
    } else {
      WordsAppend(rest, b);
      assert (rest + b)[0] == rest[0] && a[|a| - 1] == rest[|rest| - 1];
      ConsAppended(t, Glued(t, rest[0]), Glued(a[|a| - 1], b[0]), Words(rest), Words(b), Words(rest + b));
    }
  }

  lemma WordsAppendOne(t: Token, b: seq<Token>)
    requires b != []
    ensures Appended(Glued(t, b[0]), Words([t]), Words(b), Words([t] + b))
  {
    WordsCons(t, b);
    WordsCons(t, []);
    assert [t] + [] == [t];
  }

  lemma PiecesAreEncodable(ts: seq<Token>, args: seq<Value>)
    requires Fits(ts, args)
    ensures PiecesEncodable(Pieces(ts, args))
  {
    forall k | 0 <= k < |ts|
      ensures var p := Pieces(ts, args)[k]; p.Arg? ==> Encodable(p.v)
    {
      PieceAt(ts, args, k);
    }
  }

  lemma LexFirst(s: string)
    requires s != ""
    ensures Lex(s) != [] && Lex(s)[0].kind == KindOf(s) && Lex(s)[0].text != "" && Lex(s)[0].text[0] == s[0]
  {}

  lemma FirstOfLiteral(v: Value)
    requires Encodable(v)
    ensures var lit := EncodeLiteral(v).value;
      Lex(lit) != [] && lit != "" &&
      (InWord(Lex(lit)[0]) || Lex(lit)[0].kind == Str <==> WordByte(lit[0]) || Quoted(v)) &&
      (IsSign(Lex(lit)[0]) <==> SignByte(lit[0]))
  {
    LiteralStarts(v);
    LiteralEnds(v);
    LexFirst(EncodeLiteral(v).value);
  }

  lemma LastOfLiteral(v: Value)
    requires Encodable(v)
    ensures var ts := Lex(EncodeLiteral(v).value);
      ts != [] && (InWord(ts[|ts| - 1]) <==> !EndsQuoted(v)) &&
      (!EndsQuoted(v) ==> (IsExponent(ts[|ts| - 1]) <==> ExponentEnd(Arg(v))))
  {
    LiteralEnds(v);
    if !EndsQuoted(v) {
      PlainIsNumber(v);
      NumberLiteral(EncodeLiteral(v).value);
    }
    hide Lex, EncodeLiteral, KindOf, LenOf, IsNumber;
  }

  lemma PlainIsNumber(v: Value)
    requires Encodable(v) && !EndsQuoted(v)
    ensures IsNumber(EncodeLiteral(v).value)
  {}

  /** The first token of a replaced list glues exactly when its piece starts a word or a string. */
  lemma FirstToken(ts: seq<Token>, args: seq<Value>)
    requires Fits(ts, args) && ts != []
    ensures Replaced(ts, args) != [] && PiecesEncodable(Pieces(ts, args))
    ensures var t, p := Replaced(ts, args)[0], Pieces(ts, args)[0];
      (InWord(t) || t.kind == Str <==> WordStart(p) || StartsWithQuote(p)) && (IsSign(t) <==> SignStart(p))
  {
    PiecesAreEncodable(ts, args);
    if ts[0].kind == Placeholder {
      FirstOfLiteral(args[0]);
    }
  }

  /** A seam between the first piece and what follows it. */
  lemma SeamGlues(ts: seq<Token>, args: seq<Value>)
    requires Fits(ts, args) && |ts| > 1 && Fits(ts[1..], ArgsAfter(ts, args))
    ensures PiecesEncodable(Pieces(ts, args)) && PieceTokens(Pieces(ts, args)[0]) != []
    ensures var ps, next := Pieces(ts, args), Replaced(ts[1..], ArgsAfter(ts, args)); var a := PieceTokens(ps[0]);
      next != [] && (ps[0].Arg? || ps[1].Arg? ==> (Glued(a[|a| - 1], next[0]) <==> Merges(ps[0], ps[1])))
  {
    PiecesAreEncodable(ts, args);
    FirstToken(ts[1..], ArgsAfter(ts, args));
    assert Pieces(ts, args)[1] == Pieces(ts[1..], ArgsAfter(ts, args))[0];
    if ts[0].kind == Placeholder {
      LastOfLiteral(args[0]);
    }
  }

  lemma NoMergeStep(ps: seq<Piece>)
    requires ps != [] && PiecesEncodable(ps)
    ensures PiecesEncodable(ps[1..])
    ensures NoMerge(ps) <==> (|ps| > 1 ==> !Merges(ps[0], ps[1])) && NoMerge(ps[1..])
  {
    assert forall k :: 0 <= k < |ps[1..]| ==> ps[1..][k] == ps[k + 1];
    if NoMerge(ps[1..]) {
      forall k | 1 <= k < |ps| - 1
        ensures !Merges(ps[k], ps[k + 1])
      {
        assert !Merges(ps[1..][k - 1], ps[1..][k]);
      }
    }
    if NoMerge(ps) {
      forall k | 0 <= k < |ps[1..]| - 1
        ensures !Merges(ps[1..][k], ps[1..][k + 1])
      {
        assert !Merges(ps[k + 1], ps[k + 2]);
      }
    }
  }

  function Got(ts: seq<Token>, args: seq<Value>): seq<Word>
    requires Fits(ts, args)
  {
    Words(Replaced(ts, args))
  }

  function Wanted(ts: seq<Token>, args: seq<Value>): seq<Word>
    requires Fits(ts, args)
  {
    ReplacedWords(Words(ts), args)
  }

  predicate MergesFirst(ts: seq<Token>, args: seq<Value>)
    requires Fits(ts, args) && PiecesEncodable(Pieces(ts, args))
  {
    |ts| > 1 && Merges(Pieces(ts, args)[0], Pieces(ts, args)[1])
  }

  /** How the first token changes the comparison of the rest. */
  predicate StepDecides(ts: seq<Token>, args: seq<Value>)
    requires Fits(ts, args) && ts != [] && PiecesEncodable(Pieces(ts, args)) && Fits(ts[1..], ArgsAfter(ts, args))
  {
    var got, want := Got(ts, args), Wanted(ts, args);
    var got', want' := Got(ts[1..], ArgsAfter(ts, args)), Wanted(ts[1..], ArgsAfter(ts, args));
    && |got| <= |want|
    && (if MergesFirst(ts, args) then |got| < |want| else (got == want <==> got' == want'))
  }

  lemma HoleWords(ts: seq<Token>, args: seq<Value>)
    requires Fits(ts, args) && ts != [] && ts[0].kind == Placeholder && Fits(ts[1..], args[1..])
    requires PiecesEncodable(Pieces(ts, args))
    ensures var lit, got' := Words(Lex(EncodeLiteral(args[0]).value)), Got(ts[1..], args[1..]);
      && Wanted(ts, args) == lit + Wanted(ts[1..], args[1..])
      && if MergesFirst(ts, args) then |Got(ts, args)| == |lit| + |got'| - 1 else Got(ts, args) == lit + got'
  {
    hide Words, Lex, Replaced, Pieces, ReplacedWords, Merges, Glued, Got, Wanted, MergesFirst;
    var lit, rest := Lex(EncodeLiteral(args[0]).value), Replaced(ts[1..], args[1..]);
    WantedAtHole(ts, args);
    GotAtHole(ts, args);
    hide *;
    if |ts| > 1 {
      WordsAppend(lit, rest);
      ByMerge(MergesFirst(ts, args), Words(lit), Words(rest), Words(lit + rest));
    } else {
      assert lit + rest == lit;
    }
  }

  lemma GotAtHole(ts: seq<Token>, args: seq<Value>)
    requires Fits(ts, args) && ts != [] && ts[0].kind == Placeholder && Fits(ts[1..], args[1..])
    requires PiecesEncodable(Pieces(ts, args))
    ensures var lit, rest := Lex(EncodeLiteral(args[0]).value), Replaced(ts[1..], args[1..]);
      && Got(ts, args) == Words(lit + rest) && Got(ts[1..], args[1..]) == Words(rest)
      && if |ts| > 1 then lit != [] && rest != [] && MergesFirst(ts, args) == Glued(lit[|lit| - 1], rest[0])
         else rest == [] && Words(rest) == [] && !MergesFirst(ts, args)
  {
    hide Lex, EncodeLiteral, Merges, Glued;
    if |ts| > 1 {
      SeamGlues(ts, args);
      assert PieceTokens(Pieces(ts, args)[0]) == Lex(EncodeLiteral(args[0]).value) && Pieces(ts, args)[0].Arg?;
    }
  }

  lemma ByMerge(merge: bool, x: seq<Word>, y: seq<Word>, xy: seq<Word>)
    requires Appended(merge, x, y, xy)
    ensures if merge then |xy| == |x| + |y| - 1 else xy == x + y
  {}

  lemma WantedAtHole(ts: seq<Token>, args: seq<Value>)
    requires Fits(ts, args) && ts != [] && ts[0].kind == Placeholder && Fits(ts[1..], args[1..])
    ensures Wanted(ts, args) == Words(Lex(EncodeLiteral(args[0]).value)) + Wanted(ts[1..], args[1..])
  {
    hide Lex, EncodeLiteral, Replaced;
    assert Words(ts) == [[ts[0]]] + Words(ts[1..]);
    assert Words(ts)[1..] == Words(ts[1..]);
  }

  lemma Cancel(a: seq<Word>, b: seq<Word>, c: seq<Word>)
    ensures a + b == a + c <==> b == c
  {
    if a + b == a + c {
      assert b == (a + b)[|a|..] == (a + c)[|a|..] == c;
    }
  }

  lemma HoleStep(ts: seq<Token>, args: seq<Value>)
    requires Fits(ts, args) && ts != [] && ts[0].kind == Placeholder && Fits(ts[1..], args[1..])
    requires PiecesEncodable(Pieces(ts, args))
    requires |Got(ts[1..], args[1..])| <= |Wanted(ts[1..], args[1..])|
    ensures StepDecides(ts, args)
  {
    HoleWords(ts, args);
    Cancel(Words(Lex(EncodeLiteral(args[0]).value)), Got(ts[1..], args[1..]), Wanted(ts[1..], args[1..]));
  }

  /** Gluing a token onto the first word loses nothing. */
  lemma GlueInjective(t: Token, a: seq<Word>, b: seq<Word>)
    requires a != [] && b != []
    ensures GlueOn(t, a) == GlueOn(t, b) <==> a == b
  {
    var x, y := GlueOn(t, a), GlueOn(t, b);
    if x == y {
      assert a[0] == x[0][1..] == y[0][1..] == b[0];
      assert a[1..] == x[1..] == y[1..] == b[1..];
      assert a == [a[0]] + a[1..] && b == [b[0]] + b[1..];
    }
  }

  lemma TokenWords(ts: seq<Token>, args: seq<Value>)
    requires Fits(ts, args) && |ts| > 1 && ts[0].kind != Placeholder && Fits(ts[1..], args)
    requires PiecesEncodable(Pieces(ts, args))
    ensures var t, got', want' := ts[0], Got(ts[1..], args), Wanted(ts[1..], args);
      && got' != [] && want' != []
      && Got(ts, args) == (if Glued(t, Replaced(ts[1..], args)[0]) then GlueOn(t, got') else [[t]] + got')
      && Wanted(ts, args) == (if Glued(t, ts[1]) then GlueOn(t, want') else [[t]] + want')
  {
    var t, w := ts[0], Words(ts[1..]);
    FirstToken(ts[1..], args);
    assert Replaced(ts, args) == [t] + Replaced(ts[1..], args);
    WordsCons(t, Replaced(ts[1..], args));
    WordsCons(t, ts[1..]);
    assert ts == [t] + ts[1..];
    if ts[1].kind == Placeholder {
      LastOfLiteral(args[0]);
    }
    hide Lex, Pieces, EncodeLiteral, Words;
    if Glued(t, ts[1]) {
      assert GlueOn(t, w)[1..] == w[1..];
    } else {
      assert ([[t]] + w)[1..] == w;
    }
  }

  lemma TokenStep(ts: seq<Token>, args: seq<Value>)
    requires Fits(ts, args) && ts != [] && ts[0].kind != Placeholder && Fits(ts[1..], args)
    requires PiecesEncodable(Pieces(ts, args))
    requires |Got(ts[1..], args)| <= |Wanted(ts[1..], args)|
    ensures StepDecides(ts, args)
  {
    if |ts| > 1 {
      TokenWords(ts, args);
      SeamGlues(ts, args);
      GlueInjective(ts[0], Got(ts[1..], args), Wanted(ts[1..], args));
      Cancel([[ts[0]]], Got(ts[1..], args), Wanted(ts[1..], args));
      if ts[1].kind != Placeholder {
        assert Replaced(ts[1..], args)[0] == ts[1];
      }
    } else {
      assert ts == [ts[0]];
    }
  }

  /** The words of the substituted token list are the query's, each placeholder replaced by the words of its literal,
      exactly when no literal merges with its neighbour. */
  lemma {:induction false} MergesDecide(ts: seq<Token>, args: seq<Value>)
    requires Fits(ts, args)
    ensures PiecesEncodable(Pieces(ts, args))
    ensures |Got(ts, args)| <= |Wanted(ts, args)|
    ensures Got(ts, args) == Wanted(ts, args) <==> NoMerge(Pieces(ts, args))
  {
    PiecesAreEncodable(ts, args);
    if ts != [] {
      FitsTail(ts, args);
      MergesDecide(ts[1..], ArgsAfter(ts, args));
      NoMergeStep(Pieces(ts, args));
      assert Pieces(ts, args)[1..] == Pieces(ts[1..], ArgsAfter(ts, args));
      if ts[0].kind == Placeholder {
        HoleStep(ts, args);
      } else {
        TokenStep(ts, args);
      }
    }
  }

  // ---------------------------------------------------------------- the substituted text

  function Flat(ws: seq<Word>): seq<Token> { if ws == [] then [] else ws[0] + Flat(ws[1..]) }

  lemma {:induction false} FlatAppend(a: seq<Word>, b: seq<Word>)
    ensures Flat(a + b) == Flat(a) + Flat(b)
  {
    if a == [] {
      assert a + b == b;
    } else {
      assert (a + b)[1..] == a[1..] + b;
      FlatAppend(a[1..], b);
    }
  }

  lemma FlatCons(t: Token, glue: bool, ws: seq<Word>)
    requires glue ==> ws != []
    ensures Flat(Cons(t, glue, ws)) == [t] + Flat(ws)
  {
    var r := Cons(t, glue, ws);
    assert r[1..] == if glue then ws[1..] else ws;
  }

  lemma {:induction false} WordsKeepTokens(ts: seq<Token>)
    ensures Flat(Words(ts)) == ts
  {
    if ts != [] {
      var rest := ts[1..];
      WordsKeepTokens(rest);
      WordsCons(ts[0], rest);
      assert ts == [ts[0]] + rest;
      FlatCons(ts[0], rest != [] && Glued(ts[0], rest[0]), Words(rest));
    }
  }

  /** The words wanted are made of the replaced tokens. */
  lemma {:induction false} WantedKeepsTokens(ts: seq<Token>, args: seq<Value>)
    requires Fits(ts, args)
    ensures Flat(Wanted(ts, args)) == Replaced(ts, args)
  {
    if ts != [] {
      FitsTail(ts, args);
      WantedKeepsTokens(ts[1..], ArgsAfter(ts, args));
      if ts[0].kind == Placeholder {
        HoleKeepsTokens(ts, args);
      } else {
        TokenKeepsTokens(ts, args);
      }
    }
  }

  lemma HoleKeepsTokens(ts: seq<Token>, args: seq<Value>)
    requires Fits(ts, args) && ts != [] && ts[0].kind == Placeholder && Fits(ts[1..], args[1..])
    requires Flat(Wanted(ts[1..], args[1..])) == Replaced(ts[1..], args[1..])
    ensures Flat(Wanted(ts, args)) == Replaced(ts, args)
  {
    hide Lex, EncodeLiteral, Words, Flat, Wanted;
    var lit := Lex(EncodeLiteral(args[0]).value);
    WantedAtHole(ts, args);
    FlatAppend(Words(lit), Wanted(ts[1..], args[1..]));
    WordsKeepTokens(lit);
  }

  lemma TokenKeepsTokens(ts: seq<Token>, args: seq<Value>)
    requires Fits(ts, args) && ts != [] && ts[0].kind != Placeholder && Fits(ts[1..], args)
    requires Flat(Wanted(ts[1..], args)) == Replaced(ts[1..], args)
    ensures Flat(Wanted(ts, args)) == Replaced(ts, args)
  {
    if |ts| > 1 {
      PiecesAreEncodable(ts, args);
      TokenWords(ts, args);
      assert Replaced(ts, args) == [ts[0]] + Replaced(ts[1..], args);
      hide Wanted, Flat, Replaced, Glued;
      FlatCons(ts[0], Glued(ts[0], ts[1]), Wanted(ts[1..], args));
    } else {
      assert ts == [ts[0]] && Words(ts) == [ts] && Words(ts)[1..] == [];
      assert ReplacedWords([], args) == [] && Wanted(ts, args) == [ts];
    }
  }

  /** The words of the substituted text are the statement's, placeholders replaced by their literals' words,
      if and only if no literal collides with a neighbour and none merges with one. */
  lemma SubstitutionKeepsWords(query: string, args: seq<Value>)
    requires Substituted(query, args).Ok?
    ensures Fits(Lex(query), args) && PiecesEncodable(Pieces(Lex(query), args))
    ensures Words(Lex(Substituted(query, args).sql)) == ReplacedWords(Words(Lex(query)), args) <==>
      NoCollision(Pieces(Lex(query), args)) && NoMerge(Pieces(Lex(query), args))
  {
    var ts, out := Lex(query), Lex(Substituted(query, args).sql);
    SubstitutionKeepsTokens(query, args);
    MergesDecide(ts, args);
    WordsKeepTokens(out);
    WantedKeepsTokens(ts, args);
    hide Lex, Substituted, NoCollision, NoMerge, Fits, Flat, Words, Replaced, ReplacedWords;
  }

  // ---------------------------------------------------------------- statements that keep their words

  /** Some argument at the placeholder among `a` and `b` would run into the other, or read as one word with it. */
  predicate WordRisky(a: Token, b: Token)
  {
    Risky(a, b) || (a.kind == Placeholder && InWord(b)) || (b.kind == Placeholder && InWord(a))
  }

  predicate WordSafe(ts: seq<Token>) { forall k :: 0 <= k < |ts| - 1 ==> !WordRisky(ts[k], ts[k + 1]) }

  /** No number, and not NULL, ends as if an exponent should follow. */
  lemma NoExponentEnd(v: Value)
    requires Encodable(v)
    ensures EndsQuoted(v) || !ExponentEnd(Arg(v))
  {
    if !EndsQuoted(v) {
      PlainIsNumber(v);
    }
  }

  lemma SafeDoesNotMerge(a: Token, b: Token, p: Piece, q: Piece)
    requires !WordRisky(a, b) && (p.Arg? ==> Encodable(p.v)) && (q.Arg? ==> Encodable(q.v))
    requires if a.kind == Placeholder then p.Arg? else p == Tok(a)
    requires if b.kind == Placeholder then q.Arg? else q == Tok(b)
    ensures !Merges(p, q)
  {
    if p.Arg? {
      NoExponentEnd(p.v);
    }
  }

  lemma WordSafeMeansNoMerge(ts: seq<Token>, args: seq<Value>)
    requires Fits(ts, args) && WordSafe(ts)
    ensures SafeForAll(ts)
    ensures PiecesEncodable(Pieces(ts, args)) && NoMerge(Pieces(ts, args))
  {
    PiecesAreEncodable(ts, args);
    assert forall a, b :: Risky(a, b) ==> WordRisky(a, b);
    assert SafeForAll(ts);
    hide Merges, WordRisky;
    forall k | 0 <= k < |ts| - 1
      ensures !Merges(Pieces(ts, args)[k], Pieces(ts, args)[k + 1])
    {
      PieceAt(ts, args, k);
      PieceAt(ts, args, k + 1);
      SafeDoesNotMerge(ts[k], ts[k + 1], Pieces(ts, args)[k], Pieces(ts, args)[k + 1]);
    }
  }

  /** Numbers merge with every word they touch. */
  lemma NumbersMerge(ts: seq<Token>, k: nat) returns (args: seq<Value>)
    requires k + 1 < |ts| && WordRisky(ts[k], ts[k + 1]) && !Risky(ts[k], ts[k + 1])
    requires forall i :: 0 <= i < |ts| ==> ts[i].kind != Numbered
    ensures Fits(ts, args) && PiecesEncodable(Pieces(ts, args)) && !NoMerge(Pieces(ts, args))
  {
    args := seq(CountOf(ts), _ => Int(5));
    PiecesAreEncodable(ts, args);
    PieceAt(ts, args, k);
    PieceAt(ts, args, k + 1);
    assert FormatInt(5) == "5" && EncodeLiteral(Int(5)) == Some("5");
    hide Fits, Digits;
    assert Merges(Pieces(ts, args)[k], Pieces(ts, args)[k + 1]);
  }

  predicate KeepsWords(query: string, args: seq<Value>)
    requires Fits(Lex(query), args)
  {
    && Substituted(query, args).Ok?
    && Words(Lex(Substituted(query, args).sql)) == ReplacedWords(Words(Lex(query)), args)
  }

  ghost predicate AlwaysKeepsWords(query: string)
  {
    forall args :: Fits(Lex(query), args) ==> KeepsWords(query, args)
  }

  predicate Bindable(query: string) { NUL !in query && forall t :: t in Lex(query) ==> t.kind != Numbered }

  lemma WordSafeKeeps(query: string, args: seq<Value>)
    requires Bindable(query) && WordSafe(Lex(query)) && Fits(Lex(query), args)
    ensures KeepsWords(query, args)
  {
    hide Lex, Words, ReplacedWords, Pieces, NoMerge, NoCollision, Substituted, CountOf, WordSafe, SafeForAll;
    SubstituteAccepts(query, args);
    WordSafeMeansNoMerge(Lex(query), args);
    SafeMeansNoCollision(Lex(query), args);
    SubstitutionKeepsWords(query, args);
  }

  lemma RiskyWordsBreak(query: string, k: nat) returns (args: seq<Value>)
    requires Bindable(query) && k + 1 < |Lex(query)| && WordRisky(Lex(query)[k], Lex(query)[k + 1])
    ensures Fits(Lex(query), args) && !KeepsWords(query, args)
  {
    hide Lex, Words, ReplacedWords, Pieces, NoMerge, NoCollision, Substituted, CountOf, WordRisky, Risky;
    var ts := Lex(query);
    if Risky(ts[k], ts[k + 1]) {
      args := RiskyCollides(ts, k);
    } else {
      args := NumbersMerge(ts, k);
    }
    SubstituteAccepts(query, args);
    SubstitutionKeepsWords(query, args);
  }

  /** A statement keeps its words under every argument list exactly when none of its placeholders touches a string,
      a word or another placeholder, or stands right behind a minus sign. */
  lemma WordSafeExactly(query: string)
    requires NUL !in query && forall t :: t in Lex(query) ==> t.kind != Numbered
    ensures AlwaysKeepsWords(query) <==> WordSafe(Lex(query))
  {
    hide Lex, Fits, KeepsWords, WordRisky;
    var ts := Lex(query);
    if WordSafe(ts) {
      forall args | Fits(ts, args)
        ensures KeepsWords(query, args)
      {
        WordSafeKeeps(query, args);
      }
    } else {
      var k :| 0 <= k < |ts| - 1 && WordRisky(ts[k], ts[k + 1]);
      var args := RiskyWordsBreak(query, k);
    }
  }

  // ---------------------------------------------------------------- delimited placeholders

  const DELIMITERS: set<char> := { ' ', '\t', '\n', '\r', ',', ';', '(', ')', '=', '<', '>' }

  predicate Delimiter(t: Token) { t.kind == SqlLexer.Other && t.text != "" && t.text[0] in DELIMITERS }

  /** Every placeholder stands between delimiters or at an end of the query. */
  predicate Delimited(ts: seq<Token>)
  {
    forall k :: 0 <= k < |ts| && ts[k].kind == Placeholder ==>
      (k == 0 || Delimiter(ts[k - 1])) && (k + 1 == |ts| || Delimiter(ts[k + 1]))
  }

  /** A query whose placeholders are delimited is read the same under every argument list: as the query's tokens and
      words with the literals' own in the placeholders' places, with nothing left to bind. */
  lemma DelimitedIsSafe(query: string, args: seq<Value>)
    requires Substituted(query, args).Ok? && Delimited(Lex(query))
    ensures Fits(Lex(query), args)
    ensures var ts, out := Lex(query), Substituted(query, args).sql;
      && Lex(out) == Replaced(ts, args)
      && Words(Lex(out)) == ReplacedWords(Words(ts), args)
      && Substituted(out, []) == Ok(out)
  {
    var ts := Lex(query);
    SubstitutionKeepsTokens(query, args);
    MergesDecide(ts, args);
    DelimitersSeparate(ts, args);
    SafeMeansNoCollision(ts, args);
    SubstitutionIsFinal(query, args);
  }

  lemma DelimiterStandsAlone(t: Token, p: Piece)
    requires Delimiter(t) && (p.Arg? ==> Encodable(p.v))
    ensures !Merges(p, Tok(t)) && !Merges(Tok(t), p)
  {}

  lemma DelimitersSeparate(ts: seq<Token>, args: seq<Value>)
    requires Fits(ts, args) && Delimited(ts)
    ensures SafeForAll(ts)
    ensures PiecesEncodable(Pieces(ts, args)) && NoMerge(Pieces(ts, args))
  {
    PiecesAreEncodable(ts, args);
    hide Merges;
    forall k | 0 <= k < |ts| - 1
      ensures !Merges(Pieces(ts, args)[k], Pieces(ts, args)[k + 1])
    {
      PieceAt(ts, args, k);
      PieceAt(ts, args, k + 1);
      var p, q := Pieces(ts, args)[k], Pieces(ts, args)[k + 1];
      hide Pieces, Fits, EncodeLiteral;
      if ts[k].kind == Placeholder {
        DelimiterStandsAlone(ts[k + 1], p);
      } else if ts[k + 1].kind == Placeholder {
        DelimiterStandsAlone(ts[k], q);
      } else {
        NothingToMerge(p, q);
      }
    }
  }

  lemma NothingToMerge(p: Piece, q: Piece)
    requires p.Tok? && q.Tok?
    ensures !Merges(p, q)
  {}

  // What goes wrong without delimiters, on four small queries.

  /** A single token that a placeholder does not change, and the placeholder. */
  lemma TokenThenHole(t: Token, v: Value)
    requires IsFirst(t, "?") && t.kind != Placeholder && t.kind != Numbered && NUL !in t.text && Encodable(v)
    ensures Substituted(t.text + "?", [v]) == Ok(t.text + EncodeLiteral(v).value)
  {
    var q, hole := t.text + "?", Token(Placeholder, "?");
    assert "?"[..1] == "?" && "?"[1..] == "";
    assert Lex("?") == [hole];
    FirstOfPrint(t, "?");
    hide Lex, EncodeLiteral;
    assert [t, hole][1..] == [hole] && [hole][1..] == [] && [v][1..] == [];
    var lit := EncodeLiteral(v).value;
    assert Splice([hole], [v]) == Ok(lit + "");
    assert lit + "" == lit;
  }

  lemma ByteThenHole(c: char, v: Value)
    requires c != NUL && c != '?' && KindOf([c]) == SqlLexer.Other && Encodable(v)
    ensures Substituted([c] + "?", [v]) == Ok([c] + EncodeLiteral(v).value)
  {
    assert KindOf([c] + "?") == SqlLexer.Other;
    TokenThenHole(Token(SqlLexer.Other, [c]), v);
  }

  lemma MinusMakesAComment()
    ensures Substituted("-?", [Int(-1)]) == Ok("--1")
    ensures KindOf("--1") == LineComment && LenOf("--1", OnePass) == 3
  {
    hide Substituted, Splice, Lex;
    ByteThenHole('-', Int(-1));
    assert FormatInt(-1) == "-1" && ['-'] + "?" == "-?" && ['-'] + "-1" == "--1";
    assert "--1"[2..] == "1";
  }

  lemma QuoteMakesOneString()
    ensures Substituted("'a'?", [String("b")]) == Ok("'a''b'")
    ensures KindOf("'a''b'") == Str && LenOf("'a''b'", OnePass) == 6
  {
    hide Substituted, Splice, Lex;
    QuotedTexts();
    var a, b, both := EncodeString("a"), EncodeString("b"), EncodeString("a'b");
    StringIsOneToken("a", "?");
    StringIsOneToken("a'b", "");
    hide EncodeString, Double, LenOf, KindOf;
    TokenThenHole(Token(Str, a), String("b"));
    assert a + "?" == "'a'?" && a + b == "'a''b'" && both + "" == both;
    OneString(both);
  }

  lemma QuotedTexts()
    ensures EncodeString("a") == "'a'" && EncodeString("b") == "'b'" && EncodeString("a'b") == "'a''b'"
    ensures EncodeLiteral(String("b")) == Some(EncodeString("b"))
  {
    assert "a'b"[1..] == "'b" && "'b"[1..] == "b" && Double("b") == "b" + Double("");
    assert Double("'b") == "''b" && Double("a'b") == "a''b";
  }

  lemma OneString(text: string)
    requires IsFirst(Token(Str, text), "")
    ensures KindOf(text) == Str && LenOf(text, OnePass) == |text|
  {
    assert text + "" == text;
  }

  lemma ExponentTakesTheSign()
    ensures Substituted("e?", [Int(-5)]) == Ok("e-5")
    ensures Merges(Tok(Token(SqlLexer.Other, "e")), Arg(Int(-5)))
  {
    hide Substituted, Splice, Lex;
    ByteThenHole('e', Int(-5));
    assert FormatInt(-5) == "-5" && ['e'] + "?" == "e?" && ['e'] + "-5" == "e-5";
  }

  lemma NameTakesTheNumber()
    ensures Substituted("N?", [Int(5)]) == Ok("N5")
    ensures Glued(Token(SqlLexer.Other, "N"), Token(SqlLexer.Other, "5"))
  {
    hide Substituted, Splice, Lex;
    ByteThenHole('N', Int(5));
    assert FormatInt(5) == "5" && ['N'] + "?" == "N?" && ['N'] + "5" == "N5";
  }

  // ---------------------------------------------------------------- what a word is

  predicate NameByte(c: char)
  {
    'a' <= c <= 'z' || 'A' <= c <= 'Z' || '0' <= c <= '9' || c in "_$.:@#" || c as int >= 128
  }

  lemma {:induction false} NameTokens(s: string)
    requires forall k :: 0 <= k < |s| ==> NameByte(s[k])
    ensures Lex(s) == Singles(s)
  {
    if s != "" {
      assert KindOf(s) == SqlLexer.Other && LenOf(s, OnePass) == 1;
      NameTokens(s[1..]);
    }
  }

  /** A text of letters, digits and name bytes is one word, however long. */
  lemma {:induction false} NameIsOneWord(s: string)
    requires s != "" && forall k :: 0 <= k < |s| ==> NameByte(s[k])
    ensures Words(Lex(s)) == [Lex(s)] && |Lex(s)| == |s|
  {
    NameTokens(s);
    var t, rest := Token(SqlLexer.Other, s[..1]), s[1..];
    assert Lex(s) == [t] + Lex(rest);
    assert InWord(t);
    WordsCons(t, Lex(rest));
    if rest == "" {
      assert [t] + [] == [t];
    } else {
      NameIsOneWord(rest);
      NameTokens(rest);
      assert Lex(rest)[0] == Token(SqlLexer.Other, rest[..1]) && InWord(Lex(rest)[0]);
    }
  }

  /** Any other byte, and any span but a string behind a name, keeps two words apart. */
  lemma OthersStandApart(a: Token, b: Token)
    requires (a.kind == SqlLexer.Other ==> |a.text| == 1) && (b.kind == SqlLexer.Other ==> |b.text| == 1)
    ensures Glued(a, b) <==> (
      && a.kind == SqlLexer.Other && NameByte(a.text[0])
      && (b.kind == Str || (b.kind == SqlLexer.Other && (NameByte(b.text[0]) || (a.text[0] in "eE" && b.text[0] in "+-")))))
  {}
}
