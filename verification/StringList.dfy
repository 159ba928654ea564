/** The string-list codec of the AI stores (internal/ai/secure.go:320-353). */
module StringList {
  import opened Strings

  const BRACKETS: set<char> := {'[', ']'}
  const QUOTES: set<char> := {'"'}

  /** strings.ReplaceAll(s, `"`, `\"`) */
  function Escape(s: string): string
  {
    if s == "" then "" else (if s[0] == '"' then "\\\"" else [s[0]]) + Escape(s[1..])
  }

  function Quoted(s: string): string { "\"" + Escape(s) + "\"" }

  function AllQuoted(ss: seq<string>): seq<string> { seq(|ss|, k requires 0 <= k < |ss| => Quoted(ss[k])) }

  function Marshalled(ss: seq<string>): string { "[" + Join(AllQuoted(ss), ',') + "]" }

  /** What becomes of one part: blanks and quotes go from its ends. */
  function Part(p: string): string { Trim(Trim(p, SPACES), QUOTES) }

  function NonEmpty(parts: seq<string>): seq<string>
  {
    if parts == [] then [] else
    NonEmpty(parts[..|parts| - 1]) + if Part(parts[|parts| - 1]) != "" then [Part(parts[|parts| - 1])] else []
  }

  function Unmarshalled(s: string): seq<string>
  {
    var t := Trim(s, SPACES);
    if t == "" || t == "[]" then [] else NonEmpty(Split(Trim(t, BRACKETS), ','))
  }

  lemma {:induction false} JoinSnoc(parts: seq<string>, p: string, sep: char)
    requires parts != []
    ensures Join(parts + [p], sep) == Join(parts, sep) + [sep] + p
  {
    var all := parts + [p];
    if |parts| == 1 {
      assert all[1..] == [p];
    } else {
      assert all[1..] == parts[1..] + [p];
      JoinSnoc(parts[1..], p, sep);
    }
  }

  method MarshalStringSlice(ss: seq<string>) returns (out: string)
    ensures out == Marshalled(ss)
  {
    if |ss| == 0 {
      return "[]";
    }
    out := "[";
    for i := 0 to |ss|
      invariant out == "[" + Join(AllQuoted(ss[..i]), ',')
    {
      assert AllQuoted(ss[..i + 1]) == AllQuoted(ss[..i]) + [Quoted(ss[i])];
      if i > 0 {
        JoinSnoc(AllQuoted(ss[..i]), Quoted(ss[i]), ',');
        out := out + ",";
      }
      out := out + "\"";
      out := out + Escape(ss[i]);
      out := out + "\"";
    }
    assert ss[..|ss|] == ss;
    out := out + "]";
  }

  method UnmarshalStringSlice(s: string) returns (out: seq<string>)
    ensures out == Unmarshalled(s)
  {
    var t := Trim(s, SPACES);
    if t == "" || t == "[]" {
      return [];
    }
    t := Trim(t, BRACKETS);
    out := [];
    var parts := Split(t, ',');
    for i := 0 to |parts|
      invariant out == NonEmpty(parts[..i])
    {
      assert parts[..i + 1][..i] == parts[..i];
      var part := Trim(parts[i], SPACES);
      part := Trim(part, QUOTES);
      if part != "" {
        out := out + [part];
      }
    }
    assert parts[..|parts|] == parts;
  }

  // ---------------------------------------------------------------- one element

  predicate Plain(s: string) { s != "" && '"' !in s && ',' !in s }

  function Count(s: string): nat { if s == "" then 0 else (if s[0] == '"' then 1 else 0) + Count(s[1..]) }

  lemma {:induction false} EscapeShape(s: string)
    ensures |Escape(s)| == |s| + Count(s)
    ensures Count(s) == 0 ==> Escape(s) == s
    ensures Count(s) == 0 <==> '"' !in s
    ensures ',' in Escape(s) <==> ',' in s
  {
    if s != "" {
      EscapeShape(s[1..]);
      assert s == [s[0]] + s[1..];
    }
  }

  lemma {:induction false} EscapeEnds(s: string)
    requires s != ""
    ensures Escape(s) != "" && Escape(s)[0] != '"' && Escape(s)[|Escape(s)| - 1] == s[|s| - 1]
    ensures s[|s| - 1] == '"' ==> |Escape(s)| >= 2 && Escape(s)[|Escape(s)| - 2] == '\\'
  {
    if s[1..] != "" {
      EscapeEnds(s[1..]);
    }
  }

  /** A quoted element loses its own quotes, and one more byte if it ended in a quote. */
  lemma PartOfQuoted(s: string)
    requires s != ""
    ensures Part(Quoted(s)) == if s[|s| - 1] == '"' then Escape(s)[..|Escape(s)| - 1] else Escape(s)
  {
    EscapeEnds(s);
    hide Escape;
    var e := Escape(s);
    TrimNothing(Quoted(s), SPACES);
    if s[|s| - 1] == '"' {
      var f := e[..|e| - 1];
      assert e == f + "\"" && f != "" && f[0] == e[0] && f[|f| - 1] == '\\';
      TrimThree(f);
    } else {
      TrimOne('"', e, '"', QUOTES);
    }
  }

  lemma TrimThree(f: string)
    requires f != "" && f[0] != '"' && f[|f| - 1] != '"'
    ensures Trim("\"" + (f + "\"") + "\"", QUOTES) == f
  {
    assert "\"" + (f + "\"") + "\"" == ['"'] + (f + ['"'] + ['"']);
    assert f + "\"" == f + ['"'];
    TrimLeftStep('"', f + ['"'] + ['"'], QUOTES);
    assert (f + ['"'] + ['"'])[0] == f[0];
    TrimRightStep(f + ['"'], '"', QUOTES);
    TrimRightStep(f, '"', QUOTES);
  }

  /** An element is read back as it was exactly when it holds no quote. */
  lemma ElementExactly(s: string)
    requires s != ""
    ensures Part(Quoted(s)) != "" && (Part(Quoted(s)) == s <==> '"' !in s)
  {
    hide Part, Quoted, Escape, Count;
    EscapeShape(s);
    EscapeEnds(s);
    PartOfQuoted(s);
    if s[|s| - 1] == '"' {
      assert Escape(s)[..|Escape(s)| - 1][|Escape(s)| - 2] == '\\';
    }
  }

  // ---------------------------------------------------------------- the whole list

  lemma {:induction false} NonEmptyShape(parts: seq<string>)
    ensures |NonEmpty(parts)| <= |parts|
    ensures forall p :: p in NonEmpty(parts) ==> p != ""
    ensures (forall k :: 0 <= k < |parts| ==> Part(parts[k]) != "") ==>
              |NonEmpty(parts)| == |parts| && forall k :: 0 <= k < |parts| ==> NonEmpty(parts)[k] == Part(parts[k])
  {
    hide Part;
    if parts != [] {
      NonEmptyShape(parts[..|parts| - 1]);
    }
  }

  lemma {:induction false} TrimKeepsOut(s: string, cut: set<char>, c: char)
    requires c !in s
    ensures c !in TrimLeft(s, cut) && c !in TrimRight(s, cut)
    decreases |s|
  {
    if s != "" {
      assert forall k :: 0 <= k < |s| - 1 ==> s[1..][k] in s && s[..|s| - 1][k] in s;
      TrimKeepsOut(s[1..], cut, c);
      TrimKeepsOut(s[..|s| - 1], cut, c);
    }
  }

  lemma PartKeepsOut(p: string, c: char)
    requires c !in p
    ensures c !in Part(p)
  {
    TrimKeepsOut(p, SPACES, c);
    TrimKeepsOut(TrimLeft(p, SPACES), SPACES, c);
    TrimKeepsOut(Trim(p, SPACES), QUOTES, c);
    TrimKeepsOut(TrimLeft(Trim(p, SPACES), QUOTES), QUOTES, c);
  }

  /** No list read back has an empty element or one with a comma. */
  lemma {:induction false} ReadBackShape(parts: seq<string>)
    requires forall p :: p in parts ==> ',' !in p
    ensures forall p :: p in NonEmpty(parts) ==> p != "" && ',' !in p
  {
    hide Part;
    if parts != [] {
      var n := |parts| - 1;
      assert parts[n] in parts && forall p :: p in parts[..n] ==> p in parts;
      ReadBackShape(parts[..n]);
      PartKeepsOut(parts[n], ',');
    }
  }

  lemma {:induction false} JoinEnds(parts: seq<string>)
    requires parts != [] && forall p :: p in parts ==> |p| >= 2 && p[0] == '"' && p[|p| - 1] == '"'
    ensures var j := Join(parts, ','); |j| >= 2 && j[0] == '"' && j[|j| - 1] == '"'
  {
    assert parts[0] in parts;
    if |parts| > 1 {
      assert forall p :: p in parts[1..] ==> p in parts;
      JoinEnds(parts[1..]);
    }
  }

  /** The brackets come off again, and nothing else. */
  lemma BracketsComeOff(ss: seq<string>)
    requires ss != []
    ensures Unmarshalled(Marshalled(ss)) == NonEmpty(Split(Join(AllQuoted(ss), ','), ','))
  {
    hide Split, Join, NonEmpty, Escape;
    var j := Join(AllQuoted(ss), ',');
    JoinEnds(AllQuoted(ss));
    TrimNothing(Marshalled(ss), SPACES);
    assert |Marshalled(ss)| >= 4;
    TrimOne('[', j, ']', BRACKETS);
    assert Marshalled(ss) == ['['] + j + [']'];
  }

  lemma PlainQuotes(ss: seq<string>)
    requires forall k :: 0 <= k < |ss| ==> ss[k] != "" && ',' !in ss[k]
    ensures forall p :: p in AllQuoted(ss) ==> ',' !in p
    ensures ss != [] ==> Split(Join(AllQuoted(ss), ','), ',') == AllQuoted(ss)
    ensures NonEmpty(AllQuoted(ss)) == seq(|ss|, k requires 0 <= k < |ss| => Part(Quoted(ss[k])))
  {
    hide Part, Split, Join, NonEmpty;
    var qs := AllQuoted(ss);
    forall k | 0 <= k < |ss|
      ensures ',' !in qs[k] && Part(qs[k]) != ""
    {
      EscapeShape(ss[k]);
      ElementExactly(ss[k]);
    }
    NonEmptyShape(qs);
    if ss != [] {
      SplitJoin(qs, ',');
    }
  }

  lemma OnlyQuotesHurt(ss: seq<string>)
    requires ss != [] && forall k :: 0 <= k < |ss| ==> ss[k] != "" && ',' !in ss[k]
    ensures Unmarshalled(Marshalled(ss)) == ss <==> forall k :: 0 <= k < |ss| ==> '"' !in ss[k]
  {
    hide Part, Split, Join, NonEmpty, Unmarshalled, Marshalled;
    var back := Unmarshalled(Marshalled(ss));
    BracketsComeOff(ss);
    PlainQuotes(ss);
    forall k | 0 <= k < |ss|
      ensures back[k] == ss[k] <==> '"' !in ss[k]
    {
      ElementExactly(ss[k]);
    }
    if back == ss {
      assert forall k :: 0 <= k < |ss| ==> back[k] == ss[k];
    }
  }

  lemma NothingElseSurvives(ss: seq<string>, k: nat)
    requires k < |ss| && (ss[k] == "" || ',' in ss[k])
    ensures Unmarshalled(Marshalled(ss)) != ss
  {
    hide Part, Split, Join, NonEmpty, Unmarshalled, Marshalled;
    BracketsComeOff(ss);
    ReadBackShape(Split(Join(AllQuoted(ss), ','), ','));
    assert ss[k] in ss;
  }

  /** Exactly when a list survives the codec: every element is non-empty and free of quotes and commas.
      Brackets, backslashes and blanks inside elements do no harm. */
  lemma RoundTripExactly(ss: seq<string>)
    ensures Unmarshalled(Marshalled(ss)) == ss <==> forall k :: 0 <= k < |ss| ==> Plain(ss[k])
  {
    if ss == [] {
      assert Join(AllQuoted(ss), ',') == "";
      assert Marshalled(ss) == "[]";
      TrimNothing("[]", SPACES);
    } else {
      hide Unmarshalled, Marshalled;
      if forall k :: 0 <= k < |ss| ==> ss[k] != "" && ',' !in ss[k] {
        OnlyQuotesHurt(ss);
      } else {
        var k :| 0 <= k < |ss| && (ss[k] == "" || ',' in ss[k]);
        NothingElseSurvives(ss, k);
      }
    }
  }

  // ---------------------------------------------------------------- the format, as it is written

  /** A list is printed between brackets, its elements in quotes ... */
  lemma MarshalledStarts(x: string)
    ensures Marshalled([]) == "[]"
    ensures Marshalled([x]) == "[" + ("\"" + Escape(x) + "\"") + "]"
  {
    hide Escape;
    assert AllQuoted([]) == [] && AllQuoted([x]) == [Quoted(x)];
  }

  /** ... and parted by commas. */
  lemma MarshalledGoesOn(ss: seq<string>, x: string)
    requires ss != []
    ensures Marshalled(ss + [x]) == Marshalled(ss)[..|Marshalled(ss)| - 1] + ("," + ("\"" + Escape(x) + "\"") + "]")
  {
    hide Escape, Join, Quoted;
    assert Quoted(x) == "\"" + Escape(x) + "\"" by { QuotedIs(x); }
    assert AllQuoted(ss + [x]) == AllQuoted(ss) + [Quoted(x)];
    JoinSnoc(AllQuoted(ss), Quoted(x), ',');
    Brackets(Join(AllQuoted(ss), ','), Quoted(x));
  }

  lemma QuotedIs(x: string)
    ensures Quoted(x) == "\"" + Escape(x) + "\""
  {}

  lemma Brackets(j: string, q: string)
    ensures "[" + (j + [','] + q) + "]" == ("[" + j + "]")[..|"[" + j + "]"| - 1] + ("," + q + "]")
  {
    assert ("[" + j + "]")[..|"[" + j + "]"| - 1] == "[" + j;
  }

  lemma EscapeStep(c: char, s: string)
    ensures Escape([c] + s) == (if c == '"' then "\\\"" else [c]) + Escape(s)
  {
    assert ([c] + s)[1..] == s;
  }

  /** Each quote in an element gets a backslash in front, and nothing else changes. */
  lemma {:induction false} EscapeIs(a: string, b: string)
    requires '"' !in a
    ensures Escape(a + ("\"" + b)) == a + ("\\\"" + Escape(b))
  {
    hide Escape;
    if a == "" {
      assert a + ("\"" + b) == ['"'] + b;
      EscapeStep('"', b);
    } else {
      EscapeIs(a[1..], b);
      assert a[0] in a && a == [a[0]] + a[1..];
      EscapeStep(a[0], a[1..] + ("\"" + b));
      assert a + ("\"" + b) == [a[0]] + (a[1..] + ("\"" + b));
    }
  }

  const BLANKS: set<char> := {' ', '\t', '\n', 11 as char, 12 as char, '\r'}

  /** An element without quotes is read from between its quotes, blanks around them or not. */
  lemma PartIs(w: string, e: string, v: string)
    requires (forall k :: 0 <= k < |w| ==> w[k] in BLANKS) && (forall k :: 0 <= k < |v| ==> v[k] in BLANKS)
    requires e != "" && '"' !in e
    ensures Part(w + ("\"" + e + "\"") + v) == e
  {
    assert SPACES == BLANKS;
    var q := "\"" + e + "\"";
    TrimAround(w, q, v, SPACES);
    assert "\"" == ['"'];
    TrimAround("\"", e, "\"", QUOTES);
  }

  /** Lists written by hand, with blanks around the list and around its elements, are read as well. */
  lemma BlanksAreSkipped(ss: seq<string>, ps: seq<string>, w: string, v: string)
    requires ss != [] && |ps| == |ss| && (forall k :: 0 <= k < |w| ==> w[k] in BLANKS) && (forall k :: 0 <= k < |v| ==> v[k] in BLANKS)
    requires forall k :: 0 <= k < |ss| ==> Plain(ss[k]) && Padded(ps[k], ss[k])
    ensures Unmarshalled(w + ("[" + Join(ps, ',') + "]") + v) == ss
  {
    hide Part, Padded, Join, Split, NonEmpty, Unmarshalled;
    PaddedEnds(ps, ss);
    BlanksComeOff(w, Join(ps, ','), v);
    forall k | 0 <= k < |ss|
      ensures ',' !in ps[k] && Part(ps[k]) == ss[k]
    {
      PaddedPart(ps[k], ss[k]);
    }
    SplitJoin(ps, ',');
    NonEmptyShape(ps);
  }

  lemma BlanksComeOff(w: string, j: string, v: string)
    requires (forall k :: 0 <= k < |w| ==> w[k] in BLANKS) && (forall k :: 0 <= k < |v| ==> v[k] in BLANKS)
    requires |j| > 2 && j[0] !in BRACKETS && j[|j| - 1] !in BRACKETS
    ensures Unmarshalled(w + ("[" + j + "]") + v) == NonEmpty(Split(j, ','))
  {
    hide Split, NonEmpty;
    assert SPACES == BLANKS;
    var t := "[" + j + "]";
    TrimAround(w, t, v, SPACES);
    TrimOne('[', j, ']', BRACKETS);
    assert ['['] + j + [']'] == t;
    assert |t| > 4;
    hide Trim;
  }

  ghost predicate Padded(p: string, e: string)
  {
    exists w: string, v: string ::
      && p == w + ("\"" + e + "\"") + v
      && (forall k :: 0 <= k < |w| ==> w[k] in BLANKS) && (forall k :: 0 <= k < |v| ==> v[k] in BLANKS)
  }

  lemma PaddedPart(p: string, e: string)
    requires Plain(e) && Padded(p, e)
    ensures ',' !in p && Part(p) == e
    ensures |p| > 2 && p[0] !in BRACKETS && p[|p| - 1] !in BRACKETS
  {
    var w: string, v: string :| p == w + ("\"" + e + "\"") + v
      && (forall k :: 0 <= k < |w| ==> w[k] in BLANKS) && (forall k :: 0 <= k < |v| ==> v[k] in BLANKS);
    PartIs(w, e, v);
    hide Part;
  }

  lemma {:induction false} PaddedEnds(ps: seq<string>, ss: seq<string>)
    requires ss != [] && |ps| == |ss| && forall k :: 0 <= k < |ss| ==> Plain(ss[k]) && Padded(ps[k], ss[k])
    ensures var j := Join(ps, ','); |j| > 2 && j[0] !in BRACKETS && j[|j| - 1] !in BRACKETS
  {
    hide Part, Padded;
    PaddedPart(ps[0], ss[0]);
    if |ps| > 1 {
      PaddedEnds(ps[1..], ss[1..]);
    }
  }
}
