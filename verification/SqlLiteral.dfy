/** Values as SQL literals (internal/capdbdriver/encode.go:129-178): how they are written,
    how a reader gets the value back, and what the driver's lexer makes of them. */
module SqlLiteral {
  import opened Options
  import opened SqlLexer
  import opened Strings

  newtype byte = x: int | 0 <= x < 256
  type int64 = x: int | -0x8000_0000_0000_0000 <= x < 0x8000_0000_0000_0000

  predicate NumberByte(c: char) { AlnumByte(c) || c == '.' || c == '+' || c == '-' }

  predicate AlnumByte(c: char) { '0' <= c <= '9' || 'a' <= c <= 'z' || 'A' <= c <= 'Z' }

  /** All that is known of a formatted number: number bytes, no "--", and a digit or letter at the end,
      which is no exponent's e. */
  predicate IsNumber(s: string)
  {
    && s != ""
    && (forall k :: 0 <= k < |s| ==> NumberByte(s[k]))
    && (forall k :: 0 <= k < |s| - 1 && s[k] == '-' ==> s[k + 1] != '-')
    && AlnumByte(s[|s| - 1]) && s[|s| - 1] != 'e' && s[|s| - 1] != 'E'
  }

  const NUL := 0 as char

  type FloatText = s: string | IsNumber(s) witness "0"
  type TimeText = s: string | NUL !in s

  /** driver.Value, with `Other` for the types the driver refuses. */
  datatype Value = Nil | Int(i: int64) | Float(f: FloatText) | Bool(b: bool) | Blob(bytes: seq<byte>)
                 | String(s: string) | Time(t: TimeText) | Other

  // ---------------------------------------------------------------- encoders

  function Digits(n: nat): (s: string)
    ensures s != "" && forall k :: 0 <= k < |s| ==> IsDigit(s[k])
  {
    if n < 10 then [('0' as int + n) as char] else Digits(n / 10) + [('0' as int + n % 10) as char]
  }

  function FormatInt(i: int): (s: string)
    ensures IsNumber(s) && (s[0] == '-' <==> i < 0)
  {
    if i < 0 then "-" + Digits(-i) else Digits(i)
  }

  /** strings.ReplaceAll(s, "'", "''") */
  function Double(s: string): string
  {
    if s == "" then "" else (if s[0] == '\'' then "''" else [s[0]]) + Double(s[1..])
  }

  function EncodeString(s: string): string { "'" + Double(s) + "'" }

  function HexDigit(n: int): (c: char)
    requires 0 <= n < 16
    ensures '0' <= c <= '9' || 'a' <= c <= 'f'
  {
    "0123456789abcdef"[n]
  }

  function HexByte(b: byte): (s: string)
    ensures |s| == 2
  {
    [HexDigit(b as int / 16), HexDigit(b as int % 16)]
  }

  function Hex(bs: seq<byte>): (s: string)
    ensures |s| == 2 * |bs|
    ensures forall c :: c in s ==> NumberByte(c) && c != '-'
  {
    if bs == [] then "" else HexByte(bs[0]) + Hex(bs[1..])
  }

  function BlobLiteral(bs: seq<byte>): string { "x'" + Hex(bs) + "'" }

  lemma {:induction false} HexAppend(bs: seq<byte>, b: byte)
    ensures Hex(bs + [b]) == Hex(bs) + HexByte(b)
  {
    if bs == [] {
      assert bs + [b] == [b] && [b][1..] == [];
    } else {
      assert (bs + [b])[1..] == bs[1..] + [b];
      HexAppend(bs[1..], b);
    }
  }

  method EncodeBlob(b: seq<byte>) returns (out: string)
    ensures out == BlobLiteral(b)
    ensures |out| == 2 * |b| + 3
    ensures DecodeBlob(out) == Some(b)
  {
    out := "x'";
    var k := 0;
    while k < |b|
      invariant 0 <= k <= |b|
      invariant out == "x'" + Hex(b[..k])
    {
      var c := b[k];
      out := out + [HexDigit(c as int / 16)];
      out := out + [HexDigit(c as int % 16)];
      assert b[..k + 1] == b[..k] + [c];
      HexAppend(b[..k], c);
      k := k + 1;
    }
    assert b[..k] == b;
    out := out + "'";
    BlobReadsBack(b);
  }

  /** encodeLiteral: None stands for the error return. */
  function EncodeLiteral(v: Value): (r: Option<string>)
    ensures r.None? <==> v.Other? || (v.String? && NUL in v.s)
  {
    match v
    case Nil => Some("NULL")
    case Int(i) => Some(FormatInt(i))
    case Float(f) => Some(f)
    case Bool(b) => Some(if b then "1" else "0")
    case Blob(bs) => Some(BlobLiteral(bs))
    case String(s) => if NUL in s then None else Some(EncodeString(s))
    case Time(t) => Some(EncodeString(t))
    case Other => None
  }

  predicate Encodable(v: Value) { EncodeLiteral(v).Some? }

  // ---------------------------------------------------------------- reading literals back

  function Undouble(s: string): string
  {
    if s == "" then "" else [s[0]] + Undouble(if |s| > 1 && s[0] == s[1] == '\'' then s[2..] else s[1..])
  }

  /** A string literal, read by the lexer's single-quote rule: it must end exactly at its closing quote. */
  function DecodeString(lit: string): Option<string>
  {
    if |lit| >= 2 && lit[0] == '\'' && lit[|lit| - 1] == '\'' && LenOf(lit, OnePass) == |lit|
    then Some(Undouble(lit[1..|lit| - 1])) else None
  }

  function HexValue(c: char): Option<int>
  {
    if '0' <= c <= '9' then Some(c as int - '0' as int)
    else if 'a' <= c <= 'f' then Some(c as int - 'a' as int + 10)
    else None
  }

  function Unhex(s: string): Option<seq<byte>>
  {
    if s == "" then Some([])
    else if |s| == 1 then None
    else
      match (HexValue(s[0]), HexValue(s[1]), Unhex(s[2..]))
      case (Some(hi), Some(lo), Some(rest)) =>
        if 0 <= hi < 16 && 0 <= lo < 16 then Some([(16 * hi + lo) as byte] + rest) else None
      case _ => None
  }

  function DecodeBlob(lit: string): Option<seq<byte>>
  {
    if |lit| >= 3 && lit[..2] == "x'" && lit[|lit| - 1] == '\'' then Unhex(lit[2..|lit| - 1]) else None
  }

  lemma {:induction false} UndoubleDouble(s: string)
    ensures Undouble(Double(s)) == s
  {
    if s != "" {
      UndoubleDouble(s[1..]);
      var d := (if s[0] == '\'' then "''" else [s[0]]);
      assert (d + Double(s[1..]))[|d|..] == Double(s[1..]);
    }
  }

  lemma QuoteTailSkips(c: char, r: string)
    ensures QuoteTail("''" + r, '\'') == 2 + QuoteTail(r, '\'')
    ensures c != '\'' ==> QuoteTail([c] + r, '\'') == 1 + QuoteTail(r, '\'')
  {
    assert ("''" + r)[2..] == r && ([c] + r)[1..] == r;
  }

  /** The lexer walks over a doubled text in one go. */
  lemma {:induction false} QuoteTailOfDouble(s: string, r: string)
    ensures QuoteTail(Double(s) + r, '\'') == |Double(s)| + QuoteTail(r, '\'')
  {
    hide QuoteTail;
    if s == "" {
      assert Double(s) + r == r;
    } else {
      var d, rest := if s[0] == '\'' then "''" else [s[0]], Double(s[1..]);
      QuoteTailOfDouble(s[1..], r);
      QuoteTailSkips(s[0], rest + r);
      assert Double(s) == d + rest;
      hide Double;
      assert d + rest + r == d + (rest + r);
    }
  }

  /** A literal followed by anything but a quote is one string token, ending at the literal's own end. */
  lemma StringIsOneToken(s: string, r: string)
    requires r == "" || r[0] != '\''
    ensures IsFirst(Token(Str, EncodeString(s)), r)
  {
    var whole := EncodeString(s) + r;
    assert whole[1..] == Double(s) + ("'" + r);
    QuoteTailOfDouble(s, "'" + r);
  }

  lemma StringReadsBack(s: string)
    ensures DecodeString(EncodeString(s)) == Some(s)
  {
    StringIsOneToken(s, "");
    assert EncodeString(s) + "" == EncodeString(s);
    assert EncodeString(s)[1..|EncodeString(s)| - 1] == Double(s);
    UndoubleDouble(s);
  }

  lemma HexDigitReadsBack(d: int)
    requires 0 <= d < 16
    ensures HexValue(HexDigit(d)) == Some(d)
  {
    assert "0123456789abcdef"[d] == (if d < 10 then ('0' as int + d) as char else ('a' as int + d - 10) as char);
  }

  lemma {:induction false} UnhexHex(bs: seq<byte>)
    ensures Unhex(Hex(bs)) == Some(bs)
  {
    if bs != [] {
      UnhexHex(bs[1..]);
      var n := bs[0] as int;
      var s := Hex(bs);
      assert s[0] == HexDigit(n / 16) && s[1] == HexDigit(n % 16) && s[2..] == Hex(bs[1..]);
      HexDigitReadsBack(n / 16);
      HexDigitReadsBack(n % 16);
      assert (16 * (n / 16) + n % 16) as byte == bs[0];
      assert bs == [bs[0]] + bs[1..];
    }
  }

  lemma BlobReadsBack(bs: seq<byte>)
    ensures DecodeBlob(BlobLiteral(bs)) == Some(bs)
  {
    UnhexHex(bs);
    assert BlobLiteral(bs)[2..|BlobLiteral(bs)| - 1] == Hex(bs);
  }

  function ParseInt(s: string): int
  {
    if s != "" && s[0] == '-' then -DigitsValue(s[1..]) else DigitsValue(s)
  }

  lemma {:induction false} DigitsReadBack(n: nat)
    ensures DigitsValue(Digits(n)) == n
  {
    if n >= 10 {
      DigitsReadBack(n / 10);
      var s := Digits(n);
      assert s[..|s| - 1] == Digits(n / 10);
    } else {
      assert Digits(n)[..0] == "";
    }
  }

  lemma IntReadsBack(i: int)
    ensures ParseInt(FormatInt(i)) == i
  {
    if i < 0 {
      assert FormatInt(i)[1..] == Digits(-i);
      DigitsReadBack(-i);
    } else {
      assert Digits(i)[0] != '-';
      DigitsReadBack(i);
    }
  }

  /** No two values of one type share a literal, so what the server stores determines the argument. */
  lemma EncodersAreInjective(v: Value, w: Value)
    requires Encodable(v) && Encodable(w) && EncodeLiteral(v) == EncodeLiteral(w)
    requires (v.Int? && w.Int?) || (v.Blob? && w.Blob?) || (v.String? && w.String?) || (v.Bool? && w.Bool?)
    ensures v == w
  {
    match v {
      case Int(i) => IntReadsBack(i); IntReadsBack(w.i);
      case Blob(bs) => BlobReadsBack(bs); BlobReadsBack(w.bytes);
      case String(s) => StringReadsBack(s); StringReadsBack(w.s);
      case _ =>
    }
  }

  // ---------------------------------------------------------------- the tokens of a literal

  /** Strings and timestamps start with a quote; blobs too end with one. */
  predicate Quoted(v: Value) { v.String? || v.Time? }
  predicate EndsQuoted(v: Value) { Quoted(v) || v.Blob? }
  predicate Negative(v: Value) { (v.Int? && v.i < 0) || (v.Float? && v.f[0] == '-') }

  function Singles(s: string): seq<Token>
  {
    if s == "" then [] else [Token(SqlLexer.Other, s[..1])] + Singles(s[1..])
  }

  lemma {:induction false} NumberTokens(s: string)
    requires s == "" || IsNumber(s)
    ensures Lex(s) == Singles(s)
  {
    if s != "" {
      assert KindOf(s) == SqlLexer.Other;
      NumberTokens(s[1..]);
    }
  }

  lemma {:induction false} SinglesShape(s: string)
    requires s != ""
    ensures Singles(s) != [] && Singles(s)[|Singles(s)| - 1] == Token(SqlLexer.Other, [s[|s| - 1]])
    ensures forall t :: t in Singles(s) ==> t.kind == SqlLexer.Other
    ensures Text(Singles(s)) == s
  {
    if |s| > 1 {
      SinglesShape(s[1..]);
      assert s == s[..1] + s[1..];
    } else {
      assert s[1..] == "";
    }
  }

  /** How a literal meets the byte before it. */
  lemma LiteralStarts(v: Value)
    requires Encodable(v)
    ensures var lit := EncodeLiteral(v).value;
      lit != "" && (lit[0] == '\'' <==> Quoted(v)) && (lit[0] == '-' <==> Negative(v)) && (Quoted(v) || NumberByte(lit[0]))
  {
  }

  /** The closing token of a literal: a finished string, or a plain byte that begins nothing longer. */
  predicate Closing(t: Token, quoted: bool)
  {
    if quoted then t.kind == Str && IsFirst(t, "?")
    else t.kind == SqlLexer.Other && |t.text| == 1 && AlnumByte(t.text[0])
  }

  /** The tokens of `lit` are strings and plain bytes, the last of them closing it. */
  predicate EndsLike(lit: string, quoted: bool)
  {
    var ts := Lex(lit);
    && ts != []
    && Closing(ts[|ts| - 1], quoted)
    && forall k :: 0 <= k < |ts| ==> ts[k].kind == Str || ts[k].kind == SqlLexer.Other
  }

  /** How a literal meets the byte after it. */
  lemma LiteralEnds(v: Value)
    requires Encodable(v)
    ensures EndsLike(EncodeLiteral(v).value, EndsQuoted(v))
  {
    match v {
      case Blob(bs) => BlobTokens(bs);
      case String(s) => StringTokens(s);
      case Time(t) => StringTokens(t);
      case Nil | Int(_) | Float(_) | Bool(_) => NumberEnds(EncodeLiteral(v).value);
    }
  }

  lemma NumberEnds(lit: string)
    requires IsNumber(lit)
    ensures EndsLike(lit, false)
  {
    NumberLiteral(lit);
    var ts := Lex(lit);
    assert forall k :: 0 <= k < |ts| ==> ts[k] in ts;
  }

  lemma NumberLiteral(lit: string)
    requires IsNumber(lit)
    ensures Lex(lit) != [] && (forall t :: t in Lex(lit) ==> t.kind == SqlLexer.Other)
    ensures Lex(lit)[|Lex(lit)| - 1] == Token(SqlLexer.Other, [lit[|lit| - 1]])
  {
    NumberTokens(lit);
    SinglesShape(lit);
  }

  lemma StringTokens(s: string)
    ensures Lex(EncodeString(s)) == [Token(Str, EncodeString(s))] && IsFirst(Token(Str, EncodeString(s)), "?")
  {
    StringIsOneToken(s, "");
    StringIsOneToken(s, "?");
    FirstOfPrint(Token(Str, EncodeString(s)), "");
    assert EncodeString(s) + "" == EncodeString(s);
  }

  lemma HexNeedsNoDoubling(bs: seq<byte>)
    ensures Double(Hex(bs)) == Hex(bs)
  {
    NothingToDouble(Hex(bs));
  }

  lemma {:induction false} NothingToDouble(s: string)
    requires '\'' !in s
    ensures Double(s) == s
  {
    if s != "" {
      NothingToDouble(s[1..]);
      assert s == [s[0]] + s[1..];
    }
  }

  lemma BlobTokens(bs: seq<byte>)
    ensures var q := Token(Str, EncodeString(Hex(bs)));
      Lex(BlobLiteral(bs)) == [Token(SqlLexer.Other, "x"), q] && IsFirst(q, "?")
  {
    HexNeedsNoDoubling(bs);
    StringTokens(Hex(bs));
    assert BlobLiteral(bs) == "x" + EncodeString(Hex(bs));
    FirstOfPrint(Token(SqlLexer.Other, "x"), EncodeString(Hex(bs)));
  }

  lemma {:induction false} DoubleKeepsNul(s: string)
    ensures NUL in Double(s) <==> NUL in s
  {
    if s != "" { DoubleKeepsNul(s[1..]); }
  }

  /** A literal never brings a NUL byte into a statement. */
  lemma LiteralHasNoNul(v: Value)
    requires Encodable(v)
    ensures NUL !in EncodeLiteral(v).value
  {
    match v {
      case String(s) => DoubleKeepsNul(s);
      case Time(t) => DoubleKeepsNul(t);
      case _ => 
    }
  }

  // ---------------------------------------------------------------- the literals themselves

  lemma {:induction false} DigitsStart(n: nat)
    ensures Digits(n)[0] == '0' <==> n == 0
    ensures |Digits(n)| == 1 <==> n < 10
  {
    if n >= 10 {
      DigitsStart(n / 10);
    }
  }

  /** Integers are written without leading zeros, negative ones behind a minus sign. */
  lemma IntegerText(i: int64)
    ensures var s, n := EncodeLiteral(Int(i)).value, i as int; var digits := if n < 0 then s[1..] else s;
      && (n < 0 ==> s[0] == '-')
      && digits != "" && (forall k :: 0 <= k < |digits| ==> '0' <= digits[k] <= '9')
      && (digits[0] == '0' ==> |digits| == 1)
      && DigitsValue(digits) == if n < 0 then -n else n
  {
    var n: int := i;
    var m: nat := if n < 0 then -n else n;
    DigitsReadBack(m);
    DigitsStart(m);
    assert FormatInt(n) == (if n < 0 then "-" + Digits(m) else Digits(m));
    assert n < 0 ==> FormatInt(n)[1..] == Digits(m);
    hide Digits, DigitsValue, FormatInt, IsNumber;
  }

  /** A string without a NUL byte is read back from its literal, and so is the text of a time. */
  lemma TextReadsBack(s: string, t: TimeText)
    requires NUL !in s
    ensures EncodeLiteral(String(s)).Some? && DecodeString(EncodeLiteral(String(s)).value) == Some(s)
    ensures EncodeLiteral(Time(t)).Some? && DecodeString(EncodeLiteral(Time(t)).value) == Some(t)
  {
    StringReadsBack(s);
    StringReadsBack(t);
    hide DecodeString, EncodeString;
  }

  /** The literals of the other plain values. */
  lemma PlainText(f: FloatText, t: TimeText)
    requires '\'' !in t
    ensures EncodeLiteral(Nil) == Some("NULL")
    ensures EncodeLiteral(Bool(true)) == Some("1") && EncodeLiteral(Bool(false)) == Some("0")
    ensures EncodeLiteral(Float(f)) == Some(f)
    ensures EncodeLiteral(Time(t)) == Some("'" + t + "'")
  {
    NothingToDouble(t);
  }

  /** Every byte of a blob is written as its two hexadecimal digits, the high one first. */
  lemma BlobText(bs: seq<byte>, k: nat)
    requires k < |bs|
    ensures var lit := EncodeLiteral(Blob(bs)).value;
      && |lit| == 2 * |bs| + 3 && lit[..2] == "x'" && lit[|lit| - 1] == '\''
      && lit[2 + 2 * k] == "0123456789abcdef"[bs[k] as int / 16]
      && lit[3 + 2 * k] == "0123456789abcdef"[bs[k] as int % 16]
  {
    HexAt(bs, k);
  }

  lemma {:induction false} HexAt(bs: seq<byte>, k: nat)
    requires k < |bs|
    ensures Hex(bs)[2 * k] == "0123456789abcdef"[bs[k] as int / 16]
    ensures Hex(bs)[2 * k + 1] == "0123456789abcdef"[bs[k] as int % 16]
  {
    if k > 0 {
      HexAt(bs[1..], k - 1);
    }
  }
}
