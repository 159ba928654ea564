/** Client-side parameter binding (internal/capdbdriver/encode.go:28-127 and 180-240):
    the two hand-written scanners, proved against one lexer. */
module Substitution {
  import opened Options
  import opened SqlLexer
  import opened SqlLiteral

  datatype Error = NulInQuery | NumberedPlaceholder | NotEnoughArgs | BadArgument | TooManyArgs
  datatype Result = Ok(sql: string) | Err(error: Error)

  function Prepend(text: string, r: Result): Result
  {
    match r
    case Ok(sql) => Ok(text + sql)
    case Err(e) => Err(e)
  }

  /** Each placeholder token gives way to the next literal; everything else is copied. */
  function Splice(ts: seq<Token>, args: seq<Value>): Result
  {
    if ts == [] then if args == [] then Ok("") else Err(TooManyArgs)
    else
      match ts[0].kind
      case Numbered => Err(NumberedPlaceholder)
      case Placeholder =>
        if args == [] then Err(NotEnoughArgs) else
        (match EncodeLiteral(args[0])
         case None => Err(BadArgument)
         case Some(lit) => Prepend(lit, Splice(ts[1..], args[1..])))
      case _ => Prepend(ts[0].text, Splice(ts[1..], args))
  }

  function Substituted(query: string, args: seq<Value>): Result
  {
    if NUL in query then Err(NulInQuery) else Splice(Lex(query), args)
  }

  function CountOf(ts: seq<Token>): nat
  {
    if ts == [] then 0 else (if ts[0].kind == Placeholder then 1 else 0) + CountOf(ts[1..])
  }

  // ---------------------------------------------------------------- the two scanners

  /** What is left of the query at index `i`; nothing, once the index has run past the end. */
  function From(query: string, i: nat): string { if i < |query| then query[i..] else "" }

  function KindFrom(query: string, i: nat): Kind
    requires i < |query|
  {
    KindOf(query[i..])
  }

  function TokenEnd(query: string, i: nat): (end: nat)
    requires i < |query|
    ensures i < end <= |query|
  {
    i + LenOf(query[i..], OnePass)
  }

  lemma LexStep(query: string, i: nat)
    requires i < |query|
    ensures Lex(From(query, i)) ==
      [Token(KindFrom(query, i), query[i..TokenEnd(query, i)])] + Lex(From(query, TokenEnd(query, i)))
  {
    hide Lex, KindOf, LenOf;
    LexUnfolds(query[i..]);
    Cut(query, i, LenOf(query[i..], OnePass));
  }

  lemma LexUnfolds(s: string)
    requires s != ""
    ensures Lex(s) == [Token(KindOf(s), s[..LenOf(s, OnePass)])] + Lex(s[LenOf(s, OnePass)..])
  {
    hide KindOf, LenOf;
  }

  lemma Cut(s: string, i: nat, n: nat)
    requires i + n <= |s|
    ensures s[i..][..n] == s[i..i + n] && s[i..][n..] == s[i + n..]
  {}

  /** What splicing from index `i` on yields. */
  function SpliceFrom(query: string, i: nat, args: seq<Value>): Result { Splice(Lex(From(query, i)), args) }

  /** A scanner step over anything but a `?`. */
  lemma SpliceCopy(b: string, query: string, i: nat, args: seq<Value>)
    requires i < |query| && KindFrom(query, i) != Placeholder && KindFrom(query, i) != Numbered
    ensures Prepend(b, SpliceFrom(query, i, args))
         == Prepend(b + query[i..TokenEnd(query, i)], SpliceFrom(query, TokenEnd(query, i), args))
  {
    LexStep(query, i);
    SplicePrepend(b, query[i..TokenEnd(query, i)], SpliceFrom(query, TokenEnd(query, i), args));
  }

  /** A scanner step over a `?`. */
  lemma SpliceArg(b: string, query: string, i: nat, args: seq<Value>)
    requires i < |query| && (KindFrom(query, i) == Placeholder || KindFrom(query, i) == Numbered)
    ensures TokenEnd(query, i) == i + 1
    ensures Prepend(b, SpliceFrom(query, i, args)) ==
      if KindFrom(query, i) == Numbered then Err(NumberedPlaceholder)
      else if args == [] then Err(NotEnoughArgs)
      else if !Encodable(args[0]) then Err(BadArgument)
      else Prepend(b + EncodeLiteral(args[0]).value, SpliceFrom(query, i + 1, args[1..]))
  {
    LexStep(query, i);
    if args != [] && Encodable(args[0]) {
      SplicePrepend(b, EncodeLiteral(args[0]).value, SpliceFrom(query, i + 1, args[1..]));
    }
  }

  lemma SplicePrepend(a: string, b: string, r: Result)
    ensures Prepend(a, Prepend(b, r)) == Prepend(a + b, r)
  {
    if r.Ok? { assert a + (b + r.sql) == a + b + r.sql; }
  }

  lemma SpliceEnd(b: string, query: string, args: seq<Value>)
    ensures Prepend(b, SpliceFrom(query, |query|, args)) == if args == [] then Ok(b) else Err(TooManyArgs)
  {
    assert b + "" == b;
  }

  function CountFrom(query: string, i: nat): nat { CountOf(Lex(From(query, i))) }

  /** Counting goes on from the end of a token, whether or not the index overshot the end of the query. */
  lemma CountOn(query: string, i: nat, next: nat)
    requires i < |query| && Reached(query, i, next)
    ensures CountFrom(query, i) == (if KindFrom(query, i) == Placeholder then 1 else 0) + CountFrom(query, next)
  {
    LexStep(query, i);
  }

  lemma OneByte(query: string, i: nat)
    requires i < |query| && KindFrom(query, i) in {Placeholder, Numbered, SqlLexer.Other}
    ensures Reached(query, i, i + 1)
  {}

  // The inner loops of the scanners, one method each.  The first scanner clamps an unclosed
  // span to the end of the query; the second lets its index run past it.

  /** The byte is at or past the end of the token at `i`; past it only when the query is over. */
  predicate Reached(query: string, i: nat, next: nat)
    requires i < |query|
  {
    next == TokenEnd(query, i) || next > |query| == TokenEnd(query, i)
  }

  method StringEnd(query: string, i: nat) returns (j: nat)
    requires i < |query| && KindFrom(query, i) == Str
    ensures j == TokenEnd(query, i)
  {
    j := i + 1;
    ghost var end := i + 1 + QuoteTail(query[i + 1..], '\'');
    while j < |query|
      invariant i < j <= |query| && j + QuoteTail(query[j..], '\'') == end
    {
      if query[j] == '\'' {
        if j + 1 < |query| && query[j + 1] == '\'' {
          j := j + 2;
          continue;
        }
        j := j + 1;
        break;
      }
      j := j + 1;
    }
    assert query[i..][1..] == query[i + 1..];
  }

  method IdentEnd(query: string, i: nat) returns (j: nat)
    requires i < |query| && KindFrom(query, i) == Ident
    ensures j == TokenEnd(query, i)
    ensures (forall k :: i < k < j - 1 ==> query[k] != '"') && (j < |query| ==> j > i + 1 && query[j - 1] == '"')
  {
    j := i + 1;
    ghost var end := i + 1 + UpTo(query[i + 1..], '"');
    while j < |query| && query[j] != '"'
      invariant i < j <= |query| && j + UpTo(query[j..], '"') == end
      invariant forall k :: i < k < j ==> query[k] != '"'
    {
      j := j + 1;
    }
    if j < |query| {
      j := j + 1;
    }
    assert query[i..][1..] == query[i + 1..];
  }

  method BracketEnd(query: string, i: nat) returns (j: nat)
    requires i < |query| && KindFrom(query, i) == Bracket
    ensures j == TokenEnd(query, i)
    ensures (forall k :: i < k < j - 1 ==> query[k] != ']') && (j < |query| ==> j > i + 1 && query[j - 1] == ']')
  {
    j := i + 1;
    ghost var end := i + 1 + UpTo(query[i + 1..], ']');
    while j < |query| && query[j] != ']'
      invariant i < j <= |query| && j + UpTo(query[j..], ']') == end
      invariant forall k :: i < k < j ==> query[k] != ']'
    {
      j := j + 1;
    }
    if j < |query| {
      j := j + 1;
    }
    assert query[i..][1..] == query[i + 1..];
  }

  method LineEnd(query: string, i: nat) returns (j: nat)
    requires i < |query| && KindFrom(query, i) == LineComment
    ensures j == TokenEnd(query, i)
    ensures i + 2 <= j && (forall k :: i + 2 <= k < j ==> query[k] != '\n') && (j < |query| ==> query[j] == '\n')
  {
    j := i + 2;
    ghost var end := i + 2 + Before(query[i + 2..], '\n');
    while j < |query| && query[j] != '\n'
      invariant i + 2 <= j <= |query| && j + Before(query[j..], '\n') == end
      invariant forall k :: i + 2 <= k < j ==> query[k] != '\n'
    {
      j := j + 1;
    }
    assert query[i..][2..] == query[i + 2..];
  }

  lemma BlockTailShort(s: string)
    requires |s| <= 1
    ensures BlockTail(s) == |s|
  {}

  method CommentEnd(query: string, i: nat) returns (j: nat)
    requires i < |query| && KindFrom(query, i) == BlockComment
    ensures j == TokenEnd(query, i)
  {
    j := i + 2;
    ghost var end := i + 2 + BlockTail(query[i + 2..]);
    while j + 1 < |query| && !(query[j] == '*' && query[j + 1] == '/')
      invariant i < j <= |query| && j + BlockTail(query[j..]) == end
    {
      assert query[j..][1..] == query[j + 1..];
      j := j + 1;
    }
    if j + 1 < |query| {
      j := j + 2;
    } else {
      BlockTailShort(query[j..]);
      j := |query|;
    }
    assert query[i..][2..] == query[i + 2..];
  }

  method PastIdent(query: string, i: nat) returns (next: nat)
    requires i < |query| && KindFrom(query, i) == Ident
    ensures Reached(query, i, next)
  {
    var j := i + 1;
    ghost var end := i + 1 + UpTo(query[i + 1..], '"');
    while j < |query| && query[j] != '"'
      invariant i < j <= |query| && j + UpTo(query[j..], '"') == end
    {
      j := j + 1;
    }
    assert query[i..][1..] == query[i + 1..];
    return j + 1;
  }

  method PastBracket(query: string, i: nat) returns (next: nat)
    requires i < |query| && KindFrom(query, i) == Bracket
    ensures Reached(query, i, next)
  {
    var j := i + 1;
    ghost var end := i + 1 + UpTo(query[i + 1..], ']');
    while j < |query| && query[j] != ']'
      invariant i < j <= |query| && j + UpTo(query[j..], ']') == end
    {
      j := j + 1;
    }
    assert query[i..][1..] == query[i + 1..];
    return j + 1;
  }

  method PastComment(query: string, i: nat) returns (next: nat)
    requires i < |query| && KindFrom(query, i) == BlockComment
    ensures Reached(query, i, next)
  {
    var j := i + 2;
    ghost var end := i + 2 + BlockTail(query[i + 2..]);
    while j + 1 < |query| && !(query[j] == '*' && query[j + 1] == '/')
      invariant i < j <= |query| && j + BlockTail(query[j..]) == end
    {
      assert query[j..][1..] == query[j + 1..];
      j := j + 1;
    }
    if j + 1 >= |query| {
      BlockTailShort(query[j..]);
    }
    assert query[i..][2..] == query[i + 2..];
    return j + 2;
  }

  method Substitute(query: string, args: seq<Value>) returns (r: Result)
    ensures r == Substituted(query, args)
  {
    hide QuoteTail, UpTo, Before, BlockTail, EncodeLiteral;
    if NUL in query {
      return Err(NulInQuery);
    }
    var b := "";
    var argi := 0;
    var i := 0;
    var n := |query|;
    ghost var goal := Prepend(b, SpliceFrom(query, 0, args));
    assert query[0..] == query && args[0..] == args;
    while i < n
      invariant 0 <= i <= n && 0 <= argi <= |args|
      invariant goal == Prepend(b, SpliceFrom(query, i, args[argi..]))
    {
      var c := query[i];
      if c == '?' {
        SpliceArg(b, query, i, args[argi..]);
        if i + 1 < n && query[i + 1] >= '0' && query[i + 1] <= '9' {
          return Err(NumberedPlaceholder);
        }
        if argi >= |args| {
          return Err(NotEnoughArgs);
        }
        var lit := EncodeLiteral(args[argi]);
        if lit.None? {
          return Err(BadArgument);
        }
        assert args[argi..][1..] == args[argi + 1..];
        b := b + lit.value;
        argi := argi + 1;
        i := i + 1;
      } else {
        var j := i + 1;
        if c == '\'' {
          j := StringEnd(query, i);
        } else if c == '"' {
          j := IdentEnd(query, i);
        } else if c == '[' {
          j := BracketEnd(query, i);
        } else if c == '-' && i + 1 < n && query[i + 1] == '-' {
          j := LineEnd(query, i);
        } else if c == '/' && i + 1 < n && query[i + 1] == '*' {
          j := CommentEnd(query, i);
        }
        assert j == TokenEnd(query, i);
        SpliceCopy(b, query, i, args[argi..]);
        b := b + query[i..j];
        i := j;
      }
    }
    SpliceEnd(b, query, args[argi..]);
    if argi != |args| {
      return Err(TooManyArgs);
    }
    return Ok(b);
  }

  method CountPlaceholders(query: string) returns (count: nat)
    ensures count == CountOf(Lex(query))
  {
    count := 0;
    var i := 0;
    var n := |query|;
    assert query[0..] == query && CountFrom(query, 0) == CountOf(Lex(query));
    assert forall k :: k >= n ==> CountFrom(query, k) == 0;
    hide LenOf, CountFrom, CountOf, Lex, TokenEnd, Reached;
    while i < n
      invariant 0 <= i
      invariant count + CountFrom(query, i) == CountFrom(query, 0)
    {
      var c := query[i];
      ghost var start := i;
      if c == '\'' {
        i := StringEnd(query, i);
        AtEnd(query, start, i);
      } else if c == '"' {
        i := PastIdent(query, i);
      } else if c == '[' {
        i := PastBracket(query, i);
      } else if c == '-' && i + 1 < n && query[i + 1] == '-' {
        i := LineEnd(query, i);
        AtEnd(query, start, i);
      } else if c == '/' && i + 1 < n && query[i + 1] == '*' {
        i := PastComment(query, i);
      } else {
        OneByte(query, i);
        if c == '?' {
          if i + 1 < n && query[i + 1] >= '0' && query[i + 1] <= '9' {
            i := i + 1;
            CountOn(query, start, i);
            continue;
          }
          count := count + 1;
        }
        i := i + 1;
      }
      CountOn(query, start, i);
    }
  }

  lemma AtEnd(query: string, i: nat, next: nat)
    requires i < |query| && next == TokenEnd(query, i)
    ensures Reached(query, i, next)
  {}

  // ---------------------------------------------------------------- what the two results are

  function PlaceholdersAt(ts: seq<Token>): set<nat> { set k: nat | k < |ts| && ts[k].kind == Placeholder }

  lemma {:induction false} CountSnoc(ts: seq<Token>, t: Token)
    ensures CountOf(ts + [t]) == CountOf(ts) + if t.kind == Placeholder then 1 else 0
  {
    if ts == [] {
      assert ts + [t] == [t] && [t][1..] == [];
    } else {
      assert (ts + [t])[1..] == ts[1..] + [t];
      CountSnoc(ts[1..], t);
    }
  }

  /** The count is the number of plain placeholders: numbered ones, and those in strings and comments, are not counted. */
  lemma {:induction false} CountIsCardinality(ts: seq<Token>)
    ensures CountOf(ts) == |PlaceholdersAt(ts)|
  {
    if ts == [] {
      assert PlaceholdersAt(ts) == {};
    } else {
      var n := |ts| - 1;
      var rest := ts[..n];
      CountIsCardinality(rest);
      CountSnoc(rest, ts[n]);
      assert ts == rest + [ts[n]];
      assert PlaceholdersAt(ts) == PlaceholdersAt(rest) + if ts[n].kind == Placeholder then {n} else {};
    }
  }

  /** The first `k` tokens bind to the first arguments without an error. */
  predicate BindsUpTo(ts: seq<Token>, args: seq<Value>, k: nat)
    requires k <= |ts|
  {
    && (forall i :: 0 <= i < k ==> ts[i].kind != Numbered)
    && CountOf(ts[..k]) <= |args|
    && forall i :: 0 <= i < CountOf(ts[..k]) ==> Encodable(args[i])
  }

  /** What the token behind them, or the end, makes of the arguments that are left. */
  predicate ErrorAt(ts: seq<Token>, args: seq<Value>, k: nat, e: Error)
    requires k <= |ts|
  {
    var c := CountOf(ts[..k]);
    match e
    case NulInQuery => false
    case NumberedPlaceholder => k < |ts| && ts[k].kind == Numbered
    case NotEnoughArgs => k < |ts| && ts[k].kind == Placeholder && c == |args|
    case BadArgument => k < |ts| && ts[k].kind == Placeholder && c < |args| && !Encodable(args[c])
    case TooManyArgs => k == |ts| && c < |args|
  }

  lemma {:induction false} FirstErrorIs(ts: seq<Token>, args: seq<Value>, k: nat, e: Error)
    requires k <= |ts| && BindsUpTo(ts, args, k) && ErrorAt(ts, args, k, e)
    ensures Splice(ts, args) == Err(e)
    decreases |ts|
  {
    if k > 0 {
      var rest := ts[1..];
      assert ts[..k][1..] == rest[..k - 1] && ts[..k][0] == ts[0];
      if ts[0].kind == Placeholder {
        assert Encodable(args[0]);
        FirstErrorIs(rest, args[1..], k - 1, e);
      } else {
        FirstErrorIs(rest, args, k - 1, e);
      }
    } else {
      assert ts[..0] == [];
    }
  }

  /** Substitution fails with the first error it meets, from the left; a NUL byte comes before all others. */
  lemma FirstErrorDecides(query: string, args: seq<Value>, k: nat, e: Error)
    requires k <= |Lex(query)| && BindsUpTo(Lex(query), args, k) && ErrorAt(Lex(query), args, k, e)
    ensures Substituted(query, args) == Err(if NUL in query then NulInQuery else e)
  {
    FirstErrorIs(Lex(query), args, k, e);
  }
}
