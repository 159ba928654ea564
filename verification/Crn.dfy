/** Capper resource names (internal/authz/authz.go:185-210), printed and parsed. */
module Crn {
  import opened Options

  datatype Crn = Crn(service: string, realm: string, region: string, account: string, resourceType: string, resourceId: string)

  /** The first `sep` in `s`, or its length. */
  function Index(s: string, sep: char): (i: nat)
    ensures i <= |s| && sep !in s[..i] && (i < |s| ==> s[i] == sep)
  {
    if s == "" || s[0] == sep then 0 else 1 + Index(s[1..], sep)
  }

  /** strings.SplitN: at most `n` parts, the last one unsplit. */
  function SplitN(s: string, sep: char, n: nat): (parts: seq<string>)
    requires n > 0
    ensures 0 < |parts| <= n
  {
    var i := Index(s, sep);
    if n == 1 || i == |s| then [s] else [s[..i]] + SplitN(s[i + 1..], sep, n - 1)
  }

  /** `heads`, each with a separator behind it, and then `last`. */
  function Printed(heads: seq<string>, last: string, sep: char): string
  {
    if heads == [] then last else heads[0] + [sep] + Printed(heads[1..], last, sep)
  }

  function Heads(c: Crn): seq<string> { ["crn", "capper", c.service, c.realm, c.region, c.account] }

  /** The format crn:capper:%s:%s:%s:%s:%s/%s. */
  function BuildCRN(c: Crn): string { Printed(Heads(c), c.resourceType + "/" + c.resourceId, ':') }

  function ParseCRN(crn: string): Option<Crn>
  {
    var parts := SplitN(crn, ':', 7);
    if |parts| < 7 || parts[0] != "crn" || parts[1] != "capper" then None else
    var rest := parts[6];
    var idx := Index(rest, '/');
    if idx < |rest| then Some(Crn(parts[2], parts[3], parts[4], parts[5], rest[..idx], rest[idx + 1..]))
    else Some(Crn(parts[2], parts[3], parts[4], parts[5], rest, ""))
  }

  lemma {:induction false} IndexIs(a: string, s: string, sep: char)
    requires sep !in a
    ensures Index(a + [sep] + s, sep) == |a|
  {
    var t := a + [sep] + s;
    if a != "" {
      assert t[0] == a[0] && a[0] in a && t[1..] == a[1..] + [sep] + s;
      IndexIs(a[1..], s, sep);
    }
  }

  lemma {:induction false} IndexWithin(a: string, s: string, sep: char)
    requires sep in a
    ensures Index(a + s, sep) < |a|
  {
    if a[0] != sep {
      assert (a + s)[1..] == a[1..] + s;
      IndexWithin(a[1..], s, sep);
    }
  }

  /** Splitting off the first part succeeds exactly when that part does not hold the separator. */
  lemma SplitFirstExactly(a: string, s: string, sep: char, n: nat)
    requires n > 1
    ensures var parts := SplitN(a + [sep] + s, sep, n);
      if sep in a then |parts[0]| < |a| else parts == [a] + SplitN(s, sep, n - 1)
  {
    var t := a + [sep] + s;
    if sep in a {
      IndexWithin(a, [sep] + s, sep);
      assert t == a + ([sep] + s);
    } else {
      IndexIs(a, s, sep);
      assert t[..|a|] == a && t[|a| + 1..] == s;
    }
  }

  predicate Plain(c: Crn)
  {
    ':' !in c.service && ':' !in c.realm && ':' !in c.region && ':' !in c.account && '/' !in c.resourceType
  }

  /** The seventh part, which is not split at colons, gives type and id back exactly when the type has no slash. */
  lemma RestExactly(t: string, id: string)
    ensures var rest := t + "/" + id; var i := Index(rest, '/');
      i < |rest| && (rest[..i] == t && rest[i + 1..] == id <==> '/' !in t)
  {
    var rest := t + "/" + id;
    if '/' in t {
      IndexWithin(t, "/" + id, '/');
      assert rest == t + ("/" + id);
    } else {
      IndexIs(t, id, '/');
    }
  }

  /** Printed parts split back exactly when no part but the last holds the separator. */
  lemma {:induction false} SplitPrintedExactly(heads: seq<string>, last: string, sep: char)
    ensures SplitN(Printed(heads, last, sep), sep, |heads| + 1) == heads + [last]
       <==> forall k :: 0 <= k < |heads| ==> sep !in heads[k]
  {
    if heads != [] {
      hide SplitN, Index, Printed;
      var h, rest := heads[0], heads[1..];
      var q := SplitN(Printed(rest, last, sep), sep, |heads|);
      assert heads == [h] + rest;
      PrintedHead(h, rest, last, sep);
      SplitPrintedExactly(rest, last, sep);
      SplitFirstExactly(h, Printed(rest, last, sep), sep, |heads| + 1);
      hide *;
      if sep in h {
        assert (heads + [last])[0] == h;
        assert sep in heads[0];
      } else {
        ConsExactly(h, rest, last, q, sep);
      }
    }
  }

  lemma PrintedHead(h: string, rest: seq<string>, last: string, sep: char)
    ensures Printed([h] + rest, last, sep) == h + [sep] + Printed(rest, last, sep)
  {
    assert ([h] + rest)[1..] == rest;
  }

  /** Prepending a part to a list of parts keeps both sides of the law above. */
  lemma ConsExactly(h: string, rest: seq<string>, last: string, q: seq<string>, sep: char)
    ensures [h] + q == [h] + rest + [last] <==> q == rest + [last]
    ensures (forall k :: 0 <= k < |rest| + 1 ==> sep !in ([h] + rest)[k])
       <==> sep !in h && forall k :: 0 <= k < |rest| ==> sep !in rest[k]
  {
    assert [h] + rest + [last] == [h] + (rest + [last]);
    assert ([h] + q)[1..] == q && ([h] + (rest + [last]))[1..] == rest + [last];
    assert ([h] + rest)[0] == h;
    assert forall k :: 0 <= k < |rest| ==> ([h] + rest)[k + 1] == rest[k];
    assert forall k :: 1 <= k < |rest| + 1 ==> ([h] + rest)[k] == rest[k - 1];
  }

  /** Whatever splits into the most parts allowed is those parts, printed. */
  lemma {:induction false} PrintedSplit(s: string, sep: char, n: nat)
    requires n > 0 && |SplitN(s, sep, n)| == n
    ensures IsPrint(s, SplitN(s, sep, n), sep)
  {
    if n > 1 {
      var i := Index(s, sep);
      assert i < |s|;
      var h, t := s[..i], s[i + 1..];
      var q := SplitN(t, sep, n - 1);
      assert SplitN(s, sep, n) == [h] + q;
      PrintedSplit(t, sep, n - 1);
      hide *;
      assert s == h + [sep] + t;
      PrintedCons(h, t, q, sep);
    }
  }

  /** `p` are the parts of `s`. */
  predicate IsPrint(s: string, p: seq<string>, sep: char)
    requires p != []
  {
    s == Printed(p[..|p| - 1], p[|p| - 1], sep)
  }

  lemma PrintedCons(h: string, t: string, q: seq<string>, sep: char)
    requires q != [] && IsPrint(t, q, sep)
    ensures IsPrint(h + [sep] + t, [h] + q, sep)
  {
    var p, n := [h] + q, |q|;
    assert p[..n] == [h] + q[..n - 1] && ([h] + q[..n - 1])[1..] == q[..n - 1];
    assert p[n] == q[n - 1];
  }

  lemma {:induction false} PrintedLength(heads: seq<string>, x: string, y: string, sep: char)
    ensures |Printed(heads, x, sep)| - |x| == |Printed(heads, y, sep)| - |y|
  {
    if heads != [] {
      PrintedLength(heads[1..], x, y, sep);
    }
  }

  /** What an accepted name's parts say of it. */
  lemma Accepted(crn: string)
    requires ParseCRN(crn).Some?
    ensures var p, c := SplitN(crn, ':', 7), ParseCRN(crn).value;
      && |p| == 7 && p[..6] == Heads(c) && crn == Printed(Heads(c), p[6], ':')
      && (if '/' in p[6] then p[6] == c.resourceType + "/" + c.resourceId else c.resourceType == p[6] && c.resourceId == "")
  {
    PrintedSplit(crn, ':', 7);
    hide SplitN, Printed;
    var p, c := SplitN(crn, ':', 7), ParseCRN(crn).value;
    assert p[..6] == [p[0], p[1], p[2], p[3], p[4], p[5]];
    var rest := p[6];
    var i := Index(rest, '/');
    if i < |rest| {
      assert rest == rest[..i] + "/" + rest[i + 1..];
    } else {
      assert rest[..i] == rest;
    }
  }

  /** Exactly when printing an accepted name gives it back byte for byte: its seventh part holds a slash. */
  lemma BuildParseExactly(crn: string)
    requires ParseCRN(crn).Some?
    ensures |SplitN(crn, ':', 7)| == 7 && (BuildCRN(ParseCRN(crn).value) == crn <==> '/' in SplitN(crn, ':', 7)[6])
  {
    Accepted(crn);
    hide SplitN, Printed, ParseCRN, Heads;
    var c := ParseCRN(crn).value;
    PrintedLength(Heads(c), c.resourceType + "/" + c.resourceId, SplitN(crn, ':', 7)[6], ':');
  }

  /** Exactly when parsing a printed name gives all six fields back. */
  lemma ParseBuildExactly(c: Crn)
    ensures ParseCRN(BuildCRN(c)) == Some(c) <==> Plain(c)
  {
    var crn, last := BuildCRN(c), c.resourceType + "/" + c.resourceId;
    SplitPrintedExactly(Heads(c), last, ':');
    RestExactly(c.resourceType, c.resourceId);
    hide SplitN, Printed, Index;
    if Plain(c) {
      PlainHeads(c);
    } else if ParseCRN(crn) == Some(c) {
      Accepted(crn);
      var p := SplitN(crn, ':', 7);
      PrintedLength(Heads(c), last, p[6], ':');
      assert p == p[..6] + [p[6]];
      PlainHeads(c);
    }
  }

  /** No head of a name holds a colon exactly when its four fields do not. */
  lemma PlainHeads(c: Crn)
    ensures (forall k :: 0 <= k < |Heads(c)| ==> ':' !in Heads(c)[k])
       <==> ':' !in c.service && ':' !in c.realm && ':' !in c.region && ':' !in c.account
  {
    var hs := Heads(c);
    assert "crn" == ['c', 'r', 'n'] && "capper" == ['c', 'a', 'p', 'p', 'e', 'r'];
    assert hs[2] == c.service && hs[3] == c.realm && hs[4] == c.region && hs[5] == c.account;
  }

  // ---------------------------------------------------------------- the format, as it is written

  function Colon(part: string, rest: string): string { part + ":" + rest }

  /** Four parts and a rest behind the fixed beginning. */
  function Spelled(service: string, realm: string, region: string, account: string, rest: string): string
  {
    "crn:capper:" + Colon(service, Colon(realm, Colon(region, Colon(account, rest))))
  }

  lemma SpelledIs(s: string, r: string, g: string, a: string, last: string)
    ensures Printed(["crn", "capper", s, r, g, a], last, ':') == Spelled(s, r, g, a, last)
  {
    hide Printed;
    PrintedHead("crn", ["capper", s, r, g, a], last, ':');
    PrintedHead("capper", [s, r, g, a], last, ':');
    FourParts(s, r, g, a, last);
    assert ["crn", "capper", s, r, g, a] == ["crn"] + ["capper", s, r, g, a];
    assert ["capper", s, r, g, a] == ["capper"] + [s, r, g, a];
    hide Colon;
    var t := Colon(s, Colon(r, Colon(g, Colon(a, last))));
    assert "crn" + ":" + ("capper" + ":" + t) == "crn:capper:" + t;
  }

  lemma FourParts(s: string, r: string, g: string, a: string, last: string)
    ensures Printed([s, r, g, a], last, ':') == Colon(s, Colon(r, Colon(g, Colon(a, last))))
  {
    hide Printed;
    assert [s, r, g, a] == [s] + [r, g, a] && [r, g, a] == [r] + [g, a] && [g, a] == [g] + [a] && [a] == [a] + [];
    PrintedHead(s, [r, g, a], last, ':');
    PrintedHead(r, [g, a], last, ':');
    PrintedHead(g, [a], last, ':');
    PrintedHead(a, [], last, ':');
    PrintedNothing(last);
  }

  lemma PrintedNothing(last: string)
    ensures Printed([], last, ':') == last
  {}

  /** A printed name, spelled out. */
  lemma BuildIs(c: Crn)
    ensures BuildCRN(c) == Spelled(c.service, c.realm, c.region, c.account, c.resourceType + "/" + c.resourceId)
  {
    SpelledIs(c.service, c.realm, c.region, c.account, c.resourceType + "/" + c.resourceId);
  }

  predicate NoColons(s: string, r: string, g: string, a: string) { ':' !in s && ':' !in r && ':' !in g && ':' !in a }

  /** What a name of that form is parsed to: what follows the fourth colon is type and id, parted by the first slash,
      or all of it the type. */
  lemma ParseIs(s: string, r: string, g: string, a: string, rest: string, t: string, id: string)
    requires NoColons(s, r, g, a) && '/' !in t && (rest == t + "/" + id || (rest == t && id == ""))
    ensures ParseCRN(Spelled(s, r, g, a, rest)) == Some(Crn(s, r, g, a, t, id))
  {
    var c := Crn(s, r, g, a, t, id);
    SpelledIs(s, r, g, a, rest);
    PlainHeads(c);
    SplitPrintedExactly(Heads(c), rest, ':');
    if rest == t + "/" + id {
      IndexIs(t, id, '/');
      assert rest == t + ['/'] + id && rest[..|t|] == t && rest[|t| + 1..] == id;
    } else {
      NoIndex(t, '/');
    }
    hide SplitN, Printed, Spelled, Index;
    var p := SplitN(Spelled(s, r, g, a, rest), ':', 7);
    assert p == ["crn", "capper", s, r, g, a, rest];
  }

  lemma {:induction false} NoIndex(s: string, sep: char)
    requires sep !in s
    ensures Index(s, sep) == |s|
  {
    if s != "" {
      NoIndex(s[1..], sep);
    }
  }

  /** Exactly which names are accepted. */
  lemma AcceptedExactly(crn: string)
    ensures ParseCRN(crn).Some? <==>
      exists s, r, g, a, rest :: NoColons(s, r, g, a) && crn == Spelled(s, r, g, a, rest)
  {
    if ParseCRN(crn).Some? {
      Accepted(crn);
      hide SplitN, Printed, Spelled, ParseCRN, Index;
      var c, p := ParseCRN(crn).value, SplitN(crn, ':', 7);
      SpelledIs(c.service, c.realm, c.region, c.account, p[6]);
      SplitPrintedExactly(Heads(c), p[6], ':');
      assert p == p[..6] + [p[6]];
      PlainHeads(c);
      assert NoColons(c.service, c.realm, c.region, c.account);
    }
    if s, r, g, a, rest :| NoColons(s, r, g, a) && crn == Spelled(s, r, g, a, rest) {
      hide SplitN, Printed, Spelled, ParseCRN;
      var i := Index(rest, '/');
      if i < |rest| {
        assert rest == rest[..i] + "/" + rest[i + 1..];
        ParseIs(s, r, g, a, rest, rest[..i], rest[i + 1..]);
      } else {
        assert rest[..i] == rest;
        ParseIs(s, r, g, a, rest, rest, "");
      }
    }
  }
}
