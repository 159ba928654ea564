/** Certificate reuse (internal/certmgr/manager.go:347-399): which names a certificate covers, and when one
    certificate can stand in for another. */
module Certificates {
  import opened Options

  datatype Status = Pending | Validating | Issued | Attached | Renewing | Renewed | Failed | Expired | Revoked | Imported

  /** NotAfter: empty, unreadable, or a time in seconds. */
  datatype NotAfter = Never | Unreadable | At(t: int)

  datatype Certificate = Certificate(commonName: string, sans: seq<string>, status: Status, notAfter: NotAfter)

  // ---------------------------------------------------------------- names

  predicate IsWildcard(san: string) { "*." <= san }

  /** The part of a wildcard behind its star. */
  function Suffix(san: string): string
    requires IsWildcard(san)
  {
    san[1..]
  }

  predicate HasSuffix(name: string, suffix: string)
  {
    |suffix| <= |name| && name[|name| - |suffix|..] == suffix
  }

  predicate WildcardCovers(san: string, name: string)
  {
    IsWildcard(san) && HasSuffix(name, Suffix(san)) && '.' !in name[..|name| - |Suffix(san)|]
  }

  predicate SanCovers(san: string, name: string) { san == name || WildcardCovers(san, name) }

  predicate Covers(c: Certificate, name: string)
  {
    c.commonName == name || exists k :: 0 <= k < |c.sans| && SanCovers(c.sans[k], name)
  }

  predicate CoversAll(c: Certificate, commonName: string, sans: seq<string>)
  {
    Covers(c, commonName) && forall k :: 0 <= k < |sans| ==> Covers(c, sans[k])
  }

  method Covered(c: Certificate, name: string) returns (ok: bool)
    ensures ok == Covers(c, name)
  {
    if c.commonName == name {
      return true;
    }
    for i := 0 to |c.sans|
      invariant forall k :: 0 <= k < i ==> !SanCovers(c.sans[k], name)
    {
      var san := c.sans[i];
      if san == name {
        return true;
      }
      if "*." <= san {
        var suffix := "." + san[2..];
        assert suffix == Suffix(san);
        if HasSuffix(name, suffix) && '.' !in name[..|name| - |suffix|] {
          return true;
        }
      }
    }
    return false;
  }

  method CertCoversAll(c: Certificate, commonName: string, sans: seq<string>) returns (ok: bool)
    ensures ok == CoversAll(c, commonName, sans)
  {
    var first := Covered(c, commonName);
    if !first {
      return false;
    }
    for i := 0 to |sans|
      invariant forall k :: 0 <= k < i ==> Covers(c, sans[k])
    {
      var next := Covered(c, sans[i]);
      if !next {
        return false;
      }
    }
    return true;
  }

  const MONTH := 30 * 24 * 60 * 60

  /** A certificate in use, with more than a month to run. */
  predicate Usable(c: Certificate, now: int)
  {
    && (c.status == Issued || c.status == Attached || c.status == Renewing)
    && (c.notAfter.At? ==> now <= c.notAfter.t - MONTH)
    && !c.notAfter.Unreadable?
  }

  /** The first usable certificate that covers the whole request, in the store's order. */
  method FindReusableCert(certs: seq<Certificate>, now: int, commonName: string, sans: seq<string>)
    returns (found: Option<nat>)
    ensures found.Some? ==> found.value < |certs| && Usable(certs[found.value], now) && CoversAll(certs[found.value], commonName, sans)
    ensures forall k :: 0 <= k < (if found.Some? then found.value else |certs|) ==>
              !(Usable(certs[k], now) && CoversAll(certs[k], commonName, sans))
  {
    for i := 0 to |certs|
      invariant forall k :: 0 <= k < i ==> !(Usable(certs[k], now) && CoversAll(certs[k], commonName, sans))
    {
      var c := certs[i];
      if c.status != Issued && c.status != Attached && c.status != Renewing {
        continue;
      }
      if c.notAfter != Never {
        // an unreadable time parses to the zero time, long past
        if c.notAfter.Unreadable? || now > c.notAfter.t - MONTH {
          continue;
        }
      }
      var ok := CertCoversAll(c, commonName, sans);
      if ok {
        return Some(i);
      }
    }
    return None;
  }

  // ---------------------------------------------------------------- what a wildcard covers

  /** A wildcard covers one label, possibly empty and without a dot, in front of its suffix
      (compare section 6.4.3 of RFC 6125), and nothing else. */
  lemma WildcardExactly(san: string, name: string)
    requires IsWildcard(san)
    ensures WildcardCovers(san, name) <==> exists front: string :: '.' !in front && name == front + Suffix(san)
  {
    if WildcardCovers(san, name) {
      var front := name[..|name| - |Suffix(san)|];
      assert name == front + Suffix(san);
    }
    if front: string :| '.' !in front && name == front + Suffix(san) {
      assert name[..|name| - |Suffix(san)|] == front;
    }
  }

  /** The first dot of `front + suffix` decides both parts. */
  lemma LabelUnique(a: string, x: string, b: string, y: string)
    requires '.' !in a && '.' !in b && a + x == b + y
    requires x != "" && x[0] == '.' && y != "" && y[0] == '.'
    ensures a == b && x == y
  {
    var s := a + x;
    assert s[|a|] == '.' && s[|b|] == '.';
    assert forall k :: 0 <= k < |a| ==> s[k] == a[k];
    assert forall k :: 0 <= k < |b| ==> s[k] == b[k];
    assert s[..|a|] == a && s[..|b|] == b && s[|a|..] == x && s[|b|..] == y;
  }

  /** Two wildcards that cover the same name, or one that covers the other, are the same. */
  lemma WildcardsMeet(v: string, w: string, front: string)
    requires IsWildcard(v) && IsWildcard(w) && '.' !in front
    requires WildcardCovers(v, front + Suffix(w))
    ensures v == w
  {
    var name := front + Suffix(w);
    var head := name[..|name| - |Suffix(v)|];
    assert name == head + Suffix(v);
    LabelUnique(head, Suffix(v), front, Suffix(w));
    assert v == "*" + Suffix(v) && w == "*" + Suffix(w);
  }

  /** All names a certificate covers: its common name, the names it lists, and one label, possibly empty, in front of
      what follows a listed star and dot. */
  lemma CoversExactly(c: Certificate, name: string)
    ensures Covers(c, name) <==>
      || name == c.commonName || name in c.sans
      || exists front: string, suffix: string :: '.' !in front && "*." + suffix in c.sans && name == front + "." + suffix
  {
    if k :| 0 <= k < |c.sans| && WildcardCovers(c.sans[k], name) {
      var san := c.sans[k];
      var front, suffix := name[..|name| - |Suffix(san)|], san[2..];
      assert san == "*." + suffix && Suffix(san) == "." + suffix;
      assert name == front + "." + suffix;
    }
    if front: string, suffix: string :| '.' !in front && "*." + suffix in c.sans && name == front + "." + suffix {
      var k :| 0 <= k < |c.sans| && c.sans[k] == "*." + suffix;
      assert Suffix(c.sans[k]) == "." + suffix;
      assert name == front + Suffix(c.sans[k]);
      WildcardExactly(c.sans[k], name);
      assert SanCovers(c.sans[k], name);
    }
  }

  /** The certificates that may be reused: issued, attached or renewing, with thirty days to run at least. */
  lemma UsableExactly(c: Certificate, now: int)
    ensures Usable(c, now) <==>
      && c.status !in {Pending, Validating, Renewed, Failed, Expired, Revoked, Imported}
      && (c.notAfter == Never || exists t :: c.notAfter == At(t) && t - now >= 2_592_000)
  {}

  // ---------------------------------------------------------------- standing in

  /** Longer than every name `c` carries. */
  function Longest(c: Certificate, k: nat): (n: nat)
    requires k <= |c.sans|
    ensures n >= |c.commonName| && forall i :: 0 <= i < k ==> n >= |c.sans[i]|
  {
    if k == 0 then |c.commonName|
    else if |c.sans[k - 1]| > Longest(c, k - 1) then |c.sans[k - 1]| else Longest(c, k - 1)
  }

  /** A name of `w` too long to be listed in `c` is covered by `c` only if `c` has that very wildcard. */
  lemma FreshNameNeedsWildcard(c: Certificate, w: string)
    requires IsWildcard(w)
    ensures var name := seq(Longest(c, |c.sans|) + 1, _ => 'a') + Suffix(w);
      WildcardCovers(w, name) && (Covers(c, name) ==> w in c.sans)
  {
    var front: string := seq(Longest(c, |c.sans|) + 1, _ => 'a');
    var name := front + Suffix(w);
    assert '.' !in front;
    WildcardExactly(w, name);
    if Covers(c, name) {
      assert |name| > Longest(c, |c.sans|);
      var k :| 0 <= k < |c.sans| && SanCovers(c.sans[k], name);
      WildcardsMeet(c.sans[k], w, front);
    }
  }

  ghost predicate StandsIn(a: Certificate, b: Certificate)
  {
    forall name :: Covers(b, name) ==> Covers(a, name)
  }

  /** Exactly when `a` covers every name `b` covers: it covers all names on `b`, and lists every wildcard `b` lists. */
  lemma StandsInExactly(a: Certificate, b: Certificate)
    ensures StandsIn(a, b) <==>
      CoversAll(a, b.commonName, b.sans) && forall k :: 0 <= k < |b.sans| && IsWildcard(b.sans[k]) ==> b.sans[k] in a.sans
  {
    if StandsIn(a, b) {
      assert Covers(b, b.commonName);
      forall k | 0 <= k < |b.sans|
        ensures Covers(a, b.sans[k])
      {
        assert SanCovers(b.sans[k], b.sans[k]);
      }
      forall k | 0 <= k < |b.sans| && IsWildcard(b.sans[k])
        ensures b.sans[k] in a.sans
      {
        FreshNameNeedsWildcard(a, b.sans[k]);
        var name := seq(Longest(a, |a.sans|) + 1, _ => 'a') + Suffix(b.sans[k]);
        assert SanCovers(b.sans[k], name);
        assert Covers(b, name);
      }
    }
    if CoversAll(a, b.commonName, b.sans) && forall k :: 0 <= k < |b.sans| && IsWildcard(b.sans[k]) ==> b.sans[k] in a.sans {
      forall name | Covers(b, name)
        ensures Covers(a, name)
      {
        if b.commonName != name {
          var k :| 0 <= k < |b.sans| && SanCovers(b.sans[k], name);
          if b.sans[k] != name {
            var j :| 0 <= j < |a.sans| && a.sans[j] == b.sans[k];
            assert SanCovers(a.sans[j], name);
          }
        }
      }
    }
  }

  /** So coverage is transitive where the covering certificate's common name is no wildcard, or is listed too. */
  lemma CoverageIsTransitive(a: Certificate, b: Certificate, commonName: string, sans: seq<string>)
    requires CoversAll(a, b.commonName, b.sans) && CoversAll(b, commonName, sans)
    requires IsWildcard(a.commonName) ==> a.commonName in a.sans
    ensures CoversAll(a, commonName, sans)
  {
    forall k | 0 <= k < |b.sans| && IsWildcard(b.sans[k])
      ensures b.sans[k] in a.sans
    {
      var w := b.sans[k];
      assert Covers(a, w);
      if a.commonName != w {
        var j :| 0 <= j < |a.sans| && SanCovers(a.sans[j], w);
        if a.sans[j] != w {
          assert w == "*" + Suffix(w);
          WildcardsMeet(a.sans[j], w, "*");
        }
      }
    }
    StandsInExactly(a, b);
  }

  /** Whatever `a` covers all names of, it can stand in for. */
  ghost predicate StandsInForAll(a: Certificate)
  {
    forall b: Certificate, name: string :: CoversAll(a, b.commonName, b.sans) && Covers(b, name) ==> Covers(a, name)
  }

  /** Exactly the certificates through which coverage is transitive. */
  lemma TransitiveExactly(a: Certificate)
    ensures StandsInForAll(a) <==> (IsWildcard(a.commonName) ==> a.commonName in a.sans)
  {
    var w := a.commonName;
    if IsWildcard(w) && w !in a.sans {
      var b := Certificate(w, [w], Issued, Never);
      var name := seq(Longest(a, |a.sans|) + 1, _ => 'a') + Suffix(w);
      FreshNameNeedsWildcard(a, w);
      assert SanCovers(b.sans[0], name);
      assert CoversAll(a, b.commonName, b.sans) && Covers(b, name) && !Covers(a, name);
    } else {
      forall b: Certificate, name: string | CoversAll(a, b.commonName, b.sans) && Covers(b, name)
        ensures Covers(a, name)
      {
        CoverageIsTransitive(a, b, name, []);
      }
    }
  }

  /** A wildcard in the common name alone is matched only literally: it covers the same wildcard on another certificate,
      but none of the names that one covers. */
  lemma CommonNameWildcardIsLiteral(a: Certificate, b: Certificate, name: string)
    requires a.commonName == "*.x" && a.sans == [] && b.commonName == "*.x" && b.sans == ["*.x"] && name == "a.x"
    ensures CoversAll(a, b.commonName, b.sans) && Covers(b, name) && !Covers(a, name)
  {
    assert Suffix("*.x") == ".x" && name[1..] == ".x" && name[..1] == "a";
    assert SanCovers(b.sans[0], name);
  }
}
