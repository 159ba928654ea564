/** Bottle templates (internal/bottle/parser.go): `{{ key }}` placeholders, filled in a single pass. */
module Template {
  import opened Strings

  type Context = map<string, string>

  // ---------------------------------------------------------------- the placeholder pattern

  /** The blanks of the pattern's `\s`. */
  predicate Blank(c: char) { c == ' ' || c == '\t' || c == '\n' || c == '\r' || c as int == 12 }

  predicate AllBlank(s: string) { forall k :: 0 <= k < |s| ==> Blank(s[k]) }

  /** templateRe: two braces, blanks, at least one byte that is no closing brace, blanks, two braces. */
  ghost predicate Matches(text: string)
  {
    exists w: string, g: string, v: string :: MatchedBy(text, w, g, v)
  }

  predicate MatchedBy(text: string, w: string, g: string, v: string)
  {
    AllBlank(w) && AllBlank(v) && g != "" && '}' !in g && text == "{{" + (w + g + v) + "}}"
  }

  function UpToBrace(s: string): (n: nat)
    ensures n <= |s| && '}' !in s[..n] && (n < |s| ==> s[n] == '}')
  {
    if s == "" || s[0] == '}' then 0 else 1 + UpToBrace(s[1..])
  }

  /** The length of the placeholder that starts `s`, or 0. */
  function MatchLen(s: string): (n: nat)
    ensures n <= |s|
  {
    if |s| < 5 || s[0] != '{' || s[1] != '{' then 0 else
    var k := 2 + UpToBrace(s[2..]);
    if k > 2 && k + 1 < |s| && s[k + 1] == '}' then k + 2 else 0
  }

  lemma {:induction false} UpToBraceIs(s: string, m: nat)
    requires m < |s| && '}' !in s[..m] && s[m] == '}'
    ensures UpToBrace(s) == m
  {
    if m > 0 {
      assert s[0] == s[..m][0] && s[1..][..m - 1] == s[..m][1..];
      UpToBraceIs(s[1..], m - 1);
    }
  }

  lemma FoundMatches(s: string)
    requires MatchLen(s) > 0
    ensures Matches(s[..MatchLen(s)])
  {
    var k := MatchLen(s) - 2;
    var c := s[2..k];
    assert c == s[2..][..k - 2];
    assert s[..k + 2] == "{{" + c + "}}";
    assert "" + c + "" == c;
    assert MatchedBy(s[..k + 2], "", c, "");
  }

  lemma MatchingIsFound(s: string, n: nat)
    requires n <= |s| && Matches(s[..n])
    ensures MatchLen(s) == n
  {
    var w, g, v :| MatchedBy(s[..n], w, g, v);
    var c := w + g + v;
    assert '}' !in c by {
      assert '}' !in w && '}' !in v;
    }
    var rest := s[n..];
    assert s == "{{" + c + "}}" + rest;
    assert s[2..] == c + "}}" + rest;
    assert s[2..][..|c|] == c;
    UpToBraceIs(s[2..], |c|);
  }

  /** A prefix matches the pattern exactly when it is the one `MatchLen` finds. */
  lemma MatchLenIsThePattern(s: string, n: nat)
    requires 0 < n <= |s|
    ensures MatchLen(s) == n <==> Matches(s[..n])
  {
    if MatchLen(s) == n { FoundMatches(s); }
    if Matches(s[..n]) { MatchingIsFound(s, n); }
  }

  // ---------------------------------------------------------------- rendering

  function Key(s: string): string
    requires MatchLen(s) > 0
  {
    Trim(s[2..MatchLen(s) - 2], SPACES)
  }

  function Lookup(ctx: Context, key: string): string { if key in ctx then ctx[key] else "" }

  /** RenderTemplate: every placeholder, from the left, gives way to its key's value, or to nothing. */
  function Render(s: string, ctx: Context): string
  {
    if s == "" then ""
    else if MatchLen(s) > 0 then Lookup(ctx, Key(s)) + Render(s[MatchLen(s)..], ctx)
    else [s[0]] + Render(s[1..], ctx)
  }

  /** The keys a template mentions. */
  function Keys(s: string): set<string>
  {
    if s == "" then {}
    else if MatchLen(s) > 0 then {Key(s)} + Keys(s[MatchLen(s)..])
    else Keys(s[1..])
  }

  /** The bytes outside placeholders. */
  function Literal(s: string): string
  {
    if s == "" then ""
    else if MatchLen(s) > 0 then Literal(s[MatchLen(s)..])
    else [s[0]] + Literal(s[1..])
  }

  ghost predicate HasPlaceholder(s: string)
  {
    exists i, j :: 0 <= i < j <= |s| && Matches(s[i..j])
  }

  lemma PlaceholderBehind(s: string)
    requires s != "" && HasPlaceholder(s[1..])
    ensures HasPlaceholder(s)
  {
    var t := s[1..];
    var i, j :| 0 <= i < j <= |t| && Matches(t[i..j]);
    TailSlice(s, 1, i, j);
    assert Matches(s[i + 1..j + 1]);
  }

  lemma PlaceholderAhead(s: string)
    requires s != "" && MatchLen(s) == 0 && HasPlaceholder(s)
    ensures HasPlaceholder(s[1..])
  {
    var i, j :| 0 <= i < j <= |s| && Matches(s[i..j]);
    if i == 0 {
      assert s[..j] == s[0..j];
      MatchingIsFound(s, j);
    } else {
      var t := s[1..];
      TailSlice(s, 1, i - 1, j - 1);
      assert Matches(t[i - 1..j - 1]);
    }
  }

  lemma {:induction false} NoKeysNoPlaceholder(s: string)
    ensures Keys(s) == {} <==> !HasPlaceholder(s)
    decreases |s|
  {
    if s != "" {
      if MatchLen(s) > 0 {
        FoundMatches(s);
        assert s[0..MatchLen(s)] == s[..MatchLen(s)];
        assert Key(s) in Keys(s);
      } else {
        NoKeysNoPlaceholder(s[1..]);
        if HasPlaceholder(s[1..]) { PlaceholderBehind(s); }
        if HasPlaceholder(s) { PlaceholderAhead(s); }
      }
    }
  }

  /** A rendered template depends on the context only at the keys it mentions. */
  lemma {:induction false} RenderFrame(s: string, ctx: Context, other: Context)
    requires forall key :: key in Keys(s) ==> Lookup(ctx, key) == Lookup(other, key)
    ensures Render(s, ctx) == Render(s, other)
    decreases |s|
  {
    if s != "" {
      if MatchLen(s) > 0 {
        assert Key(s) in Keys(s);
        RenderFrame(s[MatchLen(s)..], ctx, other);
      } else {
        RenderFrame(s[1..], ctx, other);
      }
    }
  }

  lemma {:induction false} RenderWithoutKeys(s: string, ctx: Context)
    requires Keys(s) == {}
    ensures Render(s, ctx) == s
  {
    if s != "" {
      RenderWithoutKeys(s[1..], ctx);
    }
  }

  lemma {:induction false} RenderNothing(s: string)
    ensures |Render(s, map[])| == |Literal(s)|
    ensures Keys(s) != {} ==> |Literal(s)| < |s|
    ensures |Literal(s)| <= |s|
    decreases |s|
  {
    if s != "" {
      RenderNothing(if MatchLen(s) > 0 then s[MatchLen(s)..] else s[1..]);
    }
  }

  ghost predicate Inert(s: string) { forall ctx: Context :: Render(s, ctx) == s }

  /** A text comes through unchanged under every context exactly when no part of it matches the pattern;
      so rendering a rendered text again is harmless only where no value brought in a placeholder. */
  lemma UnchangedExactly(s: string)
    ensures Inert(s) <==> !HasPlaceholder(s)
  {
    NoKeysNoPlaceholder(s);
    if Keys(s) == {} {
      forall ctx: Context
        ensures Render(s, ctx) == s
      {
        RenderWithoutKeys(s, ctx);
      }
    } else {
      RenderNothing(s);
      assert Render(s, map[]) != s;
    }
  }

  /** A template taken apart: plain bytes, and placeholders as they are written. */
  datatype Chunk = Plain(c: char) | Hole(raw: string)

  function Written(c: Chunk): string { match c case Plain(b) => [b] case Hole(raw) => raw }

  /** Values go into the holes as they are. */
  function Filled(c: Chunk, ctx: Context): string
  {
    match c case Plain(b) => [b] case Hole(raw) => if |raw| < 4 then "" else Lookup(ctx, Trim(raw[2..|raw| - 2], SPACES))
  }

  function Source(cs: seq<Chunk>): string { if cs == [] then "" else Written(cs[0]) + Source(cs[1..]) }

  function Fill(cs: seq<Chunk>, ctx: Context): string { if cs == [] then "" else Filled(cs[0], ctx) + Fill(cs[1..], ctx) }

  function ChunkLen(s: string): (n: nat)
    requires s != ""
    ensures 0 < n <= |s|
  {
    if MatchLen(s) > 0 then MatchLen(s) else 1
  }

  function FirstChunk(s: string): Chunk
    requires s != ""
  {
    if MatchLen(s) > 0 then Hole(s[..MatchLen(s)]) else Plain(s[0])
  }

  function Chunks(s: string): seq<Chunk> { if s == "" then [] else [FirstChunk(s)] + Chunks(s[ChunkLen(s)..]) }

  lemma MatchIsLong(s: string)
    requires MatchLen(s) > 0
    ensures MatchLen(s) >= 5
  {}

  lemma RenderFirst(s: string, ctx: Context)
    requires s != ""
    ensures Render(s, ctx) == Filled(FirstChunk(s), ctx) + Render(s[ChunkLen(s)..], ctx)
  {
    var n := MatchLen(s);
    if n > 0 {
      MatchIsLong(s);
      HeadSlice(s, n, 2, n - 2);
    }
    hide MatchLen, Lookup;
  }

  lemma {:induction false} ChunksAreTheSource(s: string)
    ensures Source(Chunks(s)) == s
  {
    hide MatchLen;
    if s != "" {
      var n := ChunkLen(s);
      ChunksAreTheSource(s[n..]);
      assert s == s[..n] + s[n..];
      assert Chunks(s)[1..] == Chunks(s[n..]);
    }
  }

  lemma {:induction false} HolesMatch(s: string)
    ensures forall k :: 0 <= k < |Chunks(s)| && Chunks(s)[k].Hole? ==> Matches(Chunks(s)[k].raw)
  {
    hide MatchLen;
    if s != "" {
      HolesMatch(s[ChunkLen(s)..]);
      if MatchLen(s) > 0 {
        FoundMatches(s);
      }
    }
  }

  lemma {:induction false} RenderFills(s: string, ctx: Context)
    ensures Render(s, ctx) == Fill(Chunks(s), ctx)
  {
    if s != "" {
      RenderFills(s[ChunkLen(s)..], ctx);
      hide Render, MatchLen, FirstChunk, ChunkLen, Filled;
      RenderFirst(s, ctx);
      assert Chunks(s)[1..] == Chunks(s[ChunkLen(s)..]);
    }
  }

  /** `cs` spells out `s`, and every hole in it matches the pattern. */
  ghost predicate TakenApart(s: string, cs: seq<Chunk>)
  {
    Source(cs) == s && forall k :: 0 <= k < |cs| && cs[k].Hole? ==> Matches(cs[k].raw)
  }

  /** Single pass: one way of taking the template apart serves every context, so what is expanded are
      the template's own placeholders and never those of a value. */
  lemma SinglePass(s: string)
    ensures exists cs :: TakenApart(s, cs) && forall ctx :: Render(s, ctx) == Fill(cs, ctx)
  {
    ChunksAreTheSource(s);
    HolesMatch(s);
    forall ctx
      ensures Render(s, ctx) == Fill(Chunks(s), ctx)
    {
      RenderFills(s, ctx);
    }
    assert TakenApart(s, Chunks(s));
  }

  function SumOfLengths(s: string, ctx: Context): nat
  {
    if s == "" then 0
    else if MatchLen(s) > 0 then |Lookup(ctx, Key(s))| + SumOfLengths(s[MatchLen(s)..], ctx)
    else SumOfLengths(s[1..], ctx)
  }

  lemma {:induction false} RenderLength(s: string, ctx: Context)
    ensures |Render(s, ctx)| == |Literal(s)| + SumOfLengths(s, ctx)
    decreases |s|
  {
    if s != "" {
      RenderLength(if MatchLen(s) > 0 then s[MatchLen(s)..] else s[1..], ctx);
    }
  }

  /** Every value looked up is part of the output. */
  lemma {:induction false} SumCovers(s: string, ctx: Context, key: string)
    requires key in Keys(s)
    ensures SumOfLengths(s, ctx) >= |Lookup(ctx, key)|
    decreases |s|
  {
    if MatchLen(s) > 0 {
      if key != Key(s) {
        SumCovers(s[MatchLen(s)..], ctx, key);
      }
    } else {
      SumCovers(s[1..], ctx, key);
    }
  }

  lemma {:induction false} SumGrows(s: string, ctx: Context, more: Context)
    requires forall key :: key in Keys(s) ==> |Lookup(ctx, key)| <= |Lookup(more, key)|
    ensures SumOfLengths(s, ctx) <= SumOfLengths(s, more)
    ensures (exists key :: key in Keys(s) && |Lookup(ctx, key)| < |Lookup(more, key)|) ==>
              SumOfLengths(s, ctx) < SumOfLengths(s, more)
    decreases |s|
  {
    if s != "" {
      if MatchLen(s) > 0 {
        assert Key(s) in Keys(s);
        SumGrows(s[MatchLen(s)..], ctx, more);
      } else {
        SumGrows(s[1..], ctx, more);
      }
    }
  }

  /** Exactly when new keys change a rendered template: when it mentions one of them whose value is not empty. */
  lemma RenderExtendedExactly(s: string, base: Context, added: Context)
    requires base.Keys !! added.Keys
    ensures Render(s, base + added) == Render(s, base) <==> forall key :: key in Keys(s) && key in added ==> added[key] == ""
  {
    if forall key :: key in Keys(s) && key in added ==> added[key] == "" {
      RenderFrame(s, base, base + added);
    } else {
      SumGrows(s, base, base + added);
      RenderLength(s, base);
      RenderLength(s, base + added);
      var key :| key in Keys(s) && key in added && added[key] != "";
      assert |Lookup(base, key)| < |Lookup(base + added, key)|;
    }
  }

  // ---------------------------------------------------------------- unknown keys

  /** What the comment on RenderTemplate promises: a placeholder with an unknown key stays as it is written. */
  function Keep(s: string, ctx: Context): string
  {
    if s == "" then ""
    else if MatchLen(s) > 0 then
      (if Key(s) in ctx then ctx[Key(s)] else s[..MatchLen(s)]) + Keep(s[MatchLen(s)..], ctx)
    else [s[0]] + Keep(s[1..], ctx)
  }

  /** Exactly when the code does what its comment says: the context knows every key the template mentions. */
  lemma {:induction false} UnknownKeysExactly(s: string, ctx: Context)
    ensures |Render(s, ctx)| <= |Keep(s, ctx)|
    ensures Keep(s, ctx) == Render(s, ctx) <==> forall key :: key in Keys(s) ==> key in ctx
    decreases |s|
  {
    if s != "" {
      if MatchLen(s) > 0 {
        var rest := s[MatchLen(s)..];
        UnknownKeysExactly(rest, ctx);
        assert Key(s) in Keys(s) && forall key :: key in Keys(rest) ==> key in Keys(s);
        hide MatchLen, Key;
        var value, kept := Lookup(ctx, Key(s)), if Key(s) in ctx then ctx[Key(s)] else s[..MatchLen(s)];
        SameFront(value, kept, Render(rest, ctx), Keep(rest, ctx));
      } else {
        UnknownKeysExactly(s[1..], ctx);
        SameFront([s[0]], [s[0]], Render(s[1..], ctx), Keep(s[1..], ctx));
      }
    }
  }

  /** Texts in two parts, the second at least as long in each. */
  lemma SameFront(a: string, b: string, x: string, y: string)
    requires |a| < |b| || a == b
    requires |x| <= |y|
    ensures |a + x| <= |b + y| && (a + x == b + y <==> a == b && x == y)
  {
    if a == b && a + x == b + y {
      assert x == (a + x)[|a|..] == (b + y)[|b|..] == y;
    }
  }

  // ---------------------------------------------------------------- placeholders and text, as they are written

  const BLANKS: set<char> := {' ', '\t', '\n', '\r', 12 as char}
  const EDGES: set<char> := {' ', '\t', '\n', '\r', 11 as char, 12 as char}

  /** A key in double braces, with blanks around it or not, gives way to its value, or to nothing. */
  lemma PlaceholderIsReplaced(w: string, g: string, v: string, rest: string, ctx: Context)
    requires (forall k :: 0 <= k < |w| ==> w[k] in BLANKS) && (forall k :: 0 <= k < |v| ==> v[k] in BLANKS)
    requires g != "" && '}' !in g && g[0] !in EDGES && g[|g| - 1] !in EDGES
    ensures Render("{{" + w + g + v + "}}" + rest, ctx) == (if g in ctx then ctx[g] else "") + Render(rest, ctx)
  {
    var c := w + g + v;
    var s, n := "{{" + w + g + v + "}}" + rest, |c| + 4;
    assert s[..n] == "{{" + c + "}}" && s[n..] == rest && s[2..n - 2] == c;
    assert MatchedBy(s[..n], w, g, v);
    MatchingIsFound(s, n);
    assert SPACES == EDGES;
    TrimAround(w, g, v, SPACES);
    hide MatchLen, Trim;
    assert Key(s) == g;
  }

  lemma RenderByte(s: string, ctx: Context)
    requires s != "" && s[0] != '{'
    ensures Render(s, ctx) == [s[0]] + Render(s[1..], ctx)
  {}

  /** Text without an opening brace is copied. */
  lemma {:induction false} TextIsCopied(t: string, rest: string, ctx: Context)
    requires '{' !in t
    ensures Render(t + rest, ctx) == t + Render(rest, ctx)
  {
    hide Render, MatchLen;
    if t == "" {
      assert t + rest == rest;
    } else {
      TextIsCopied(t[1..], rest, ctx);
      assert (t + rest)[0] == t[0] && t[0] in t;
      RenderByte(t + rest, ctx);
      assert (t + rest)[1..] == t[1..] + rest;
      assert t == [t[0]] + t[1..];
    }
  }
}
