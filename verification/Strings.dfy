/** The string functions the modelled code takes from Go's library, on strings of one byte per character. */
module Strings {

  /** The bytes strings.TrimSpace removes. */
  const SPACES: set<char> := {' ', '\t', '\n', 11 as char, 12 as char, '\r'}

  function TrimLeft(s: string, cut: set<char>): (r: string)
    ensures |r| <= |s| && (r != "" ==> r[0] !in cut)
  {
    if s != "" && s[0] in cut then TrimLeft(s[1..], cut) else s
  }

  function TrimRight(s: string, cut: set<char>): (r: string)
    ensures |r| <= |s| && (r != "" ==> r[|r| - 1] !in cut)
  {
    if s != "" && s[|s| - 1] in cut then TrimRight(s[..|s| - 1], cut) else s
  }

  /** strings.Trim, and strings.TrimSpace with SPACES. */
  function Trim(s: string, cut: set<char>): string { TrimRight(TrimLeft(s, cut), cut) }

  lemma TrimNothing(s: string, cut: set<char>)
    requires s != "" ==> s[0] !in cut && s[|s| - 1] !in cut
    ensures Trim(s, cut) == s
  {}

  lemma TrimRightStep(s: string, c: char, cut: set<char>)
    requires c in cut
    ensures TrimRight(s + [c], cut) == TrimRight(s, cut)
  {
    assert (s + [c])[..|s|] == s;
  }

  lemma TrimLeftStep(c: char, s: string, cut: set<char>)
    requires c in cut
    ensures TrimLeft([c] + s, cut) == TrimLeft(s, cut)
  {
    assert ([c] + s)[1..] == s;
  }

  /** One byte of the cut set on either side of a text that neither starts nor ends in it. */
  lemma TrimOne(a: char, s: string, b: char, cut: set<char>)
    requires a in cut && b in cut && s != "" && s[0] !in cut && s[|s| - 1] !in cut
    ensures Trim([a] + s + [b], cut) == s
  {
    assert [a] + s + [b] == [a] + (s + [b]) && (s + [b])[0] == s[0];
    TrimLeftStep(a, s + [b], cut);
    TrimRightStep(s, b, cut);
  }

  lemma {:induction false} TrimLeftAround(w: string, t: string, cut: set<char>)
    requires (forall k :: 0 <= k < |w| ==> w[k] in cut) && t != "" && t[0] !in cut
    ensures TrimLeft(w + t, cut) == t
  {
    if w == "" {
      assert w + t == t;
    } else {
      assert w + t == [w[0]] + (w[1..] + t);
      TrimLeftAround(w[1..], t, cut);
      TrimLeftStep(w[0], w[1..] + t, cut);
    }
  }

  lemma {:induction false} TrimRightAround(t: string, v: string, cut: set<char>)
    requires (forall k :: 0 <= k < |v| ==> v[k] in cut) && t != "" && t[|t| - 1] !in cut
    ensures TrimRight(t + v, cut) == t
    decreases |v|
  {
    if v == "" {
      assert t + v == t;
    } else {
      var n := |v| - 1;
      assert t + v == t + v[..n] + [v[n]];
      TrimRightAround(t, v[..n], cut);
      TrimRightStep(t + v[..n], v[n], cut);
    }
  }

  /** Trimming takes the cut bytes off both ends and nothing else. */
  lemma TrimAround(w: string, t: string, v: string, cut: set<char>)
    requires (forall k :: 0 <= k < |w| ==> w[k] in cut) && (forall k :: 0 <= k < |v| ==> v[k] in cut)
    requires t != "" && t[0] !in cut && t[|t| - 1] !in cut
    ensures Trim(w + t + v, cut) == t
  {
    assert w + t + v == w + (t + v) && (t + v)[0] == t[0];
    TrimLeftAround(w, t + v, cut);
    TrimRightAround(t, v, cut);
  }

  /** strings.Split with a one-byte separator. */
  function Split(s: string, sep: char): (parts: seq<string>)
    ensures |parts| > 0 && forall p :: p in parts ==> sep !in p
  {
    if s == "" then [""]
    else
      var rest := Split(s[1..], sep);
      if s[0] == sep then [""] + rest else [[s[0]] + rest[0]] + rest[1..]
  }

  function Join(parts: seq<string>, sep: char): string
  {
    if parts == [] then "" else if |parts| == 1 then parts[0] else parts[0] + [sep] + Join(parts[1..], sep)
  }

  lemma {:induction false} SplitPrefix(a: string, s: string, sep: char)
    requires sep !in a
    ensures Split(a + [sep] + s, sep) == [a] + Split(s, sep)
  {
    var t := a + [sep] + s;
    if a == "" {
      assert t[1..] == s;
    } else {
      assert t[1..] == a[1..] + [sep] + s && t[0] == a[0] && a[0] in a;
      SplitPrefix(a[1..], s, sep);
      assert a == [a[0]] + a[1..];
    }
  }

  lemma {:induction false} SplitPlain(a: string, sep: char)
    requires sep !in a
    ensures Split(a, sep) == [a]
  {
    if a != "" {
      assert a[0] in a;
      SplitPlain(a[1..], sep);
      assert a == [a[0]] + a[1..] && [a[1..]][1..] == [];
    }
  }

  /** Splitting what was joined gives the parts back, as long as none of them holds the separator. */
  lemma {:induction false} SplitJoin(parts: seq<string>, sep: char)
    requires parts != [] && forall p :: p in parts ==> sep !in p
    ensures Split(Join(parts, sep), sep) == parts
  {
    if |parts| == 1 {
      SplitPlain(parts[0], sep);
    } else {
      SplitJoin(parts[1..], sep);
      SplitPrefix(parts[0], Join(parts[1..], sep), sep);
      assert parts == [parts[0]] + parts[1..];
    }
  }

  lemma TailSlice(s: string, i: nat, a: nat, b: nat)
    requires i <= |s| && a <= b <= |s| - i
    ensures s[i..][a..b] == s[i + a..i + b]
  {
    var x, y := s[i..][a..b], s[i + a..i + b];
    forall k | 0 <= k < |x|
      ensures x[k] == y[k]
    {
      assert x[k] == s[i..][a + k] == s[i + a + k] == y[k];
    }
  }

  lemma HeadSlice(s: string, n: nat, a: nat, b: nat)
    requires a <= b <= n <= |s|
    ensures s[..n][a..b] == s[a..b]
  {
    var x, y := s[..n][a..b], s[a..b];
    forall k | 0 <= k < |x|
      ensures x[k] == y[k]
    {
      assert x[k] == s[..n][a + k] == s[a + k] == y[k];
    }
  }

  /** The number a run of decimal digits stands for. */
  function DigitsValue(s: string): int
  {
    if s == "" then 0 else 10 * DigitsValue(s[..|s| - 1]) + (s[|s| - 1] as int - '0' as int)
  }
}
