/** The authorization evaluator (internal/authz/authz.go:99-165 and 221-251): explicit denies win, order does not matter. */
module Authz {

  datatype Statement = Statement(effect: string, actions: seq<string>, resources: seq<string>)
  datatype Document = Document(statements: seq<Statement>)
  datatype Guardrail = Guardrail(effect: string, actions: seq<string>)

  datatype Auth = Auth(accountId: string, actingAccountId: string, principalType: string, isOrgRoot: bool, isAccountRoot: bool)
  datatype Request = Request(auth: Auth, action: string, crn: string, resource: map<string, string>)
  datatype Org = Org(orgStatus: string, accountStatus: string, guardrails: seq<Guardrail>)

  datatype Decision = Decision(allowed: bool, reason: string)

  // ---------------------------------------------------------------- matching

  /** A trailing star is a wildcard; anything else matches itself. */
  predicate MatchGlob(pattern: string, value: string)
  {
    if pattern == "*" then true
    else if pattern != "" && pattern[|pattern| - 1] == '*' then pattern[..|pattern| - 1] <= value
    else pattern == value
  }

  predicate Matches(patterns: seq<string>, value: string) { exists p :: p in patterns && MatchGlob(p, value) }

  predicate ResourceMatches(patterns: seq<string>, crn: string) { patterns == [] || Matches(patterns, crn) }

  method MatchesAny(patterns: seq<string>, value: string) returns (ok: bool)
    ensures ok == Matches(patterns, value)
  {
    for i := 0 to |patterns|
      invariant forall k :: 0 <= k < i ==> !MatchGlob(patterns[k], value)
    {
      if MatchGlob(patterns[i], value) {
        return true;
      }
    }
    return false;
  }

  method ResourceMatchesAny(patterns: seq<string>, crn: string) returns (ok: bool)
    ensures ok == ResourceMatches(patterns, crn)
  {
    if |patterns| == 0 {
      return true;
    }
    for i := 0 to |patterns|
      invariant forall k :: 0 <= k < i ==> !MatchGlob(patterns[k], crn)
    {
      assert patterns[i] in patterns;
      if patterns[i] == "*" || MatchGlob(patterns[i], crn) {
        return true;
      }
    }
    return false;
  }

  // ---------------------------------------------------------------- decisions, from what applies

  predicate Applies(s: Statement, req: Request) { Matches(s.actions, req.action) && ResourceMatches(s.resources, req.crn) }

  /** All statements of all documents. */
  function Statements(docs: seq<Document>): set<Statement> { set d, s | d in docs && s in d.statements :: s }

  predicate Guarded(gs: set<Guardrail>, req: Request) { exists g :: g in gs && g.effect == "deny" && Matches(g.actions, req.action) }

  predicate Denied(ss: set<Statement>, req: Request) { exists s :: s in ss && s.effect == "deny" && Applies(s, req) }

  predicate Granted(ss: set<Statement>, req: Request) { exists s :: s in ss && s.effect == "allow" && Applies(s, req) }

  predicate Active(org: Org) { org.orgStatus in {"", "active"} && org.accountStatus in {"", "active"} }

  predicate Bypasses(req: Request) { req.auth.isOrgRoot || req.auth.isAccountRoot || req.auth.principalType == "system" }

  predicate Owned(req: Request)
  {
    "account_id" in req.resource ==> req.resource["account_id"] in {req.auth.accountId, req.auth.actingAccountId}
  }

  /** The decision, from the sets of guardrails and statements. */
  function Decide(req: Request, org: Org, gs: set<Guardrail>, ss: set<Statement>): Decision
  {
    if org.orgStatus !in {"", "active"} then Decision(false, "denied-org-not-active")
    else if org.accountStatus !in {"", "active"} then Decision(false, "denied-account-not-active")
    else if req.auth.principalType == "" then Decision(false, "denied-no-principal")
    else if Guarded(gs, req) then Decision(false, "denied-by-guardrail")
    else if req.auth.isOrgRoot || req.auth.isAccountRoot then Decision(true, "allowed-root-user")
    else if req.auth.principalType == "system" then Decision(true, "allowed-system")
    else if Denied(ss, req) then Decision(false, "denied-by-policy")
    else if !Granted(ss, req) then Decision(false, "denied-no-matching-allow")
    else if !Owned(req) then Decision(false, "denied-by-ownership")
    else Decision(true, "allowed-by-policy")
  }

  function GuardrailSet(gs: seq<Guardrail>): set<Guardrail> { set g | g in gs }

  /** The pipeline, statement by statement, comes to what the sets decide: so its outcome and reason do not depend on
      the order, the repetition or the grouping of guardrails, documents and statements. */
  method Evaluate(req: Request, org: Org, docs: seq<Document>) returns (d: Decision)
    ensures d == Decide(req, org, GuardrailSet(org.guardrails), Statements(docs))
  {
    if org.orgStatus != "" && org.orgStatus != "active" {
      return Decision(false, "denied-org-not-active");
    }
    if org.accountStatus != "" && org.accountStatus != "active" {
      return Decision(false, "denied-account-not-active");
    }
    if req.auth.principalType == "" {
      return Decision(false, "denied-no-principal");
    }
    for i := 0 to |org.guardrails|
      invariant forall k :: 0 <= k < i ==> !(org.guardrails[k].effect == "deny" && Matches(org.guardrails[k].actions, req.action))
    {
      var g := org.guardrails[i];
      var hit := MatchesAny(g.actions, req.action);
      if g.effect == "deny" && hit {
        assert g in GuardrailSet(org.guardrails);
        return Decision(false, "denied-by-guardrail");
      }
    }
    if req.auth.isOrgRoot || req.auth.isAccountRoot {
      return Decision(true, "allowed-root-user");
    }
    if req.auth.principalType == "system" {
      return Decision(true, "allowed-system");
    }
    var explicitAllow := false;
    for i := 0 to |docs|
      invariant !Denied(Statements(docs[..i]), req)
      invariant explicitAllow == Granted(Statements(docs[..i]), req)
    {
      assert docs[..i + 1] == docs[..i] + [docs[i]];
      for j := 0 to |docs[i].statements|
        invariant forall k :: 0 <= k < j ==> !(docs[i].statements[k].effect == "deny" && Applies(docs[i].statements[k], req))
        invariant explicitAllow == (Granted(Statements(docs[..i]), req) ||
          exists k :: 0 <= k < j && docs[i].statements[k].effect == "allow" && Applies(docs[i].statements[k], req))
      {
        var stmt := docs[i].statements[j];
        var acts := MatchesAny(stmt.actions, req.action);
        if !acts {
          continue;
        }
        var on := ResourceMatchesAny(stmt.resources, req.crn);
        if !on {
          continue;
        }
        if stmt.effect == "deny" {
          assert docs[i] in docs && stmt in docs[i].statements;
          assert stmt in Statements(docs);
          return Decision(false, "denied-by-policy");
        }
        if stmt.effect == "allow" {
          explicitAllow := true;
        }
      }
      StatementsSnoc(docs[..i], docs[i]);
    }
    assert docs[..|docs|] == docs;
    if !explicitAllow {
      return Decision(false, "denied-no-matching-allow");
    }
    if "account_id" in req.resource {
      var accountId := req.resource["account_id"];
      if accountId != req.auth.accountId && accountId != req.auth.actingAccountId {
        return Decision(false, "denied-by-ownership");
      }
    }
    return Decision(true, "allowed-by-policy");
  }

  lemma StatementsSnoc(docs: seq<Document>, d: Document)
    ensures Statements(docs + [d]) == Statements(docs) + set s | s in d.statements
  {
    forall s
      ensures s in Statements(docs + [d]) <==> s in Statements(docs) || s in d.statements
    {
      assert d in docs + [d];
      assert forall e :: e in docs ==> e in docs + [d];
    }
  }

  // ---------------------------------------------------------------- what the sets decide

  /** Reordering guardrails, documents, or statements within or across documents changes neither outcome nor reason. */
  lemma OrderDoesNotMatter(req: Request, org: Org, org': Org, docs: seq<Document>, docs': seq<Document>)
    requires org'.orgStatus == org.orgStatus && org'.accountStatus == org.accountStatus
    requires multiset(org'.guardrails) == multiset(org.guardrails)
    requires AllStatements(docs') == AllStatements(docs)
    ensures Decide(req, org', GuardrailSet(org'.guardrails), Statements(docs'))
         == Decide(req, org, GuardrailSet(org.guardrails), Statements(docs))
  {
    assert GuardrailSet(org'.guardrails) == GuardrailSet(org.guardrails) by {
      assert forall g :: g in org'.guardrails <==> g in multiset(org'.guardrails);
      assert forall g :: g in org.guardrails <==> g in multiset(org.guardrails);
    }
    AllStatementsAre(docs);
    AllStatementsAre(docs');
  }

  function AllStatements(docs: seq<Document>): multiset<Statement>
  {
    if docs == [] then multiset{} else AllStatements(docs[..|docs| - 1]) + multiset(docs[|docs| - 1].statements)
  }

  lemma {:induction false} AllStatementsAre(docs: seq<Document>)
    ensures forall s :: s in Statements(docs) <==> s in AllStatements(docs)
  {
    if docs != [] {
      var n := |docs| - 1;
      AllStatementsAre(docs[..n]);
      StatementsSnoc(docs[..n], docs[n]);
      assert docs[..n] + [docs[n]] == docs;
    }
  }

  /** More guardrails, or statements that deny, never turn a denial into an allow; statements that allow
      never turn an allow into a denial. */
  lemma Monotone(req: Request, org: Org, gs: set<Guardrail>, more: set<Guardrail>, ss: set<Statement>, denies: set<Statement>, allows: set<Statement>)
    requires forall s :: s in denies ==> s.effect == "deny"
    requires forall s :: s in allows ==> s.effect == "allow"
    ensures Decide(req, org, gs + more, ss + denies).allowed ==> Decide(req, org, gs, ss).allowed
    ensures Decide(req, org, gs, ss).allowed ==> Decide(req, org, gs, ss + allows) == Decide(req, org, gs, ss)
  {
    assert forall s :: s in ss + denies && s.effect == "allow" ==> s in ss;
    assert forall s :: s in ss + allows && s.effect == "deny" ==> s in ss;
    assert Denied(ss + allows, req) ==> Denied(ss, req);
    assert Granted(ss, req) ==> Granted(ss + allows, req);
    assert Granted(ss + denies, req) ==> Granted(ss, req);
    assert Denied(ss, req) ==> Denied(ss + denies, req);
    assert Guarded(gs, req) ==> Guarded(gs + more, req);
  }

  /** Whom an explicit deny binds: a guardrail everyone, root users and system principals included; a policy statement
      exactly those who do not bypass account policies. */
  lemma WhoIsBound(req: Request, org: Org, gs: set<Guardrail>, ss: set<Statement>)
    requires Active(org) && req.auth.principalType != ""
    ensures Guarded(gs, req) ==> !Decide(req, org, gs, ss).allowed
    ensures Denied(ss, req) ==> (Decide(req, org, gs, ss).allowed <==> Bypasses(req) && !Guarded(gs, req))
    ensures Decide(req, org, gs, {}).allowed <==> Bypasses(req) && !Guarded(gs, req)
  {}

  // ---------------------------------------------------------------- what patterns and statements say, as they are written

  /** The pattern is the value, or all of its beginning and then a star. */
  predicate Names(pattern: string, value: string)
  {
    || (pattern != "" && pattern[|pattern| - 1] == '*' && |pattern| - 1 <= |value| &&
        forall k :: 0 <= k < |pattern| - 1 ==> value[k] == pattern[k])
    || ((pattern == "" || pattern[|pattern| - 1] != '*') && pattern == value)
  }

  lemma NamesIsGlob(pattern: string, value: string)
    ensures MatchGlob(pattern, value) <==> Names(pattern, value)
  {
    if pattern != "" && pattern[|pattern| - 1] == '*' {
      var p := pattern[..|pattern| - 1];
      assert pattern == "*" ==> p == "";
      assert p <= value <==> |p| <= |value| && forall k :: 0 <= k < |p| ==> value[k] == p[k];
    }
  }

  /** A star stands for any ending, the empty one included, and only a last one is special. */
  lemma StarIsAnyEnding(p: string, value: string)
    ensures MatchGlob(p + "*", value) <==> exists rest: string :: value == p + rest
  {
    NamesIsGlob(p + "*", value);
    if MatchGlob(p + "*", value) {
      assert value == p + value[|p|..];
    }
  }

  predicate NamesOne(patterns: seq<string>, value: string)
  {
    exists k :: 0 <= k < |patterns| && Names(patterns[k], value)
  }

  lemma NamesOneIs(patterns: seq<string>, value: string)
    ensures Matches(patterns, value) <==> NamesOne(patterns, value)
  {
    forall p
      ensures MatchGlob(p, value) <==> Names(p, value)
    {
      NamesIsGlob(p, value);
    }
    hide MatchGlob, Names;
    if NamesOne(patterns, value) {
      var k :| 0 <= k < |patterns| && Names(patterns[k], value);
      assert patterns[k] in patterns;
    }
  }

  /** A statement with this effect names the action, and the resource unless it is about all of them. */
  predicate Says(s: Statement, effect: string, req: Request)
  {
    s.effect == effect && NamesOne(s.actions, req.action) && (s.resources == [] || NamesOne(s.resources, req.crn))
  }

  ghost predicate Said(docs: seq<Document>, effect: string, req: Request)
  {
    exists d, s :: d in docs && s in d.statements && Says(s, effect, req)
  }

  ghost predicate Forbidden(org: Org, req: Request)
  {
    exists g :: g in org.guardrails && g.effect == "deny" && NamesOne(g.actions, req.action)
  }

  lemma AppliesIs(s: Statement, effect: string, req: Request)
    ensures s.effect == effect && Applies(s, req) <==> Says(s, effect, req)
  {
    NamesOneIs(s.actions, req.action);
    NamesOneIs(s.resources, req.crn);
  }

  lemma SaidBySome(docs: seq<Document>, effect: string, req: Request)
    ensures (exists s :: s in Statements(docs) && s.effect == effect && Applies(s, req)) <==> Said(docs, effect, req)
  {
    hide Says, Applies;
    if s :| s in Statements(docs) && s.effect == effect && Applies(s, req) {
      var d :| d in docs && s in d.statements;
      AppliesIs(s, effect, req);
    }
    if Said(docs, effect, req) {
      var d, s :| d in docs && s in d.statements && Says(s, effect, req);
      AppliesIs(s, effect, req);
      assert s in Statements(docs);
    }
  }

  lemma SaidIs(docs: seq<Document>, req: Request)
    ensures Denied(Statements(docs), req) <==> Said(docs, "deny", req)
    ensures Granted(Statements(docs), req) <==> Said(docs, "allow", req)
  {
    hide Statements, Said, Applies;
    SaidBySome(docs, "deny", req);
    SaidBySome(docs, "allow", req);
  }

  lemma ForbiddenIs(org: Org, req: Request)
    ensures Guarded(GuardrailSet(org.guardrails), req) <==> Forbidden(org, req)
  {
    forall g: Guardrail
      ensures Matches(g.actions, req.action) <==> NamesOne(g.actions, req.action)
    {
      NamesOneIs(g.actions, req.action);
    }
    hide Matches, NamesOne;
  }

  function Outcome(req: Request, org: Org, docs: seq<Document>): Decision
  {
    Decide(req, org, GuardrailSet(org.guardrails), Statements(docs))
  }

  predicate Root(req: Request) { req.auth.isOrgRoot || req.auth.isAccountRoot }

  predicate MayAct(req: Request, org: Org)
  {
    (org.orgStatus == "" || org.orgStatus == "active") && (org.accountStatus == "" || org.accountStatus == "active") &&
    req.auth.principalType != ""
  }

  predicate OnOwnAccount(req: Request)
  {
    "account_id" !in req.resource || req.resource["account_id"] == req.auth.accountId ||
    req.resource["account_id"] == req.auth.actingAccountId
  }

  /** Exactly which requests are allowed: those no guardrail forbids, of root users, of the system, or of principals that
      some statement allows and none denies, on resources of their own or the account they act in. */
  lemma AllowedExactly(req: Request, org: Org, docs: seq<Document>)
    ensures Outcome(req, org, docs).allowed <==>
      && MayAct(req, org) && !Forbidden(org, req)
      && (Root(req) || req.auth.principalType == "system" ||
          (!Said(docs, "deny", req) && Said(docs, "allow", req) && OnOwnAccount(req)))
  {
    SaidIs(docs, req);
    ForbiddenIs(org, req);
    hide Denied, Granted, Guarded, Said, Forbidden;
  }

  /** And why the others are not. */
  lemma DenialsExactly(req: Request, org: Org, docs: seq<Document>)
    requires MayAct(req, org)
    ensures var reason, bound := Outcome(req, org, docs).reason, !Root(req) && req.auth.principalType != "system";
      && (reason == "denied-by-guardrail" <==> Forbidden(org, req))
      && (!Forbidden(org, req) && bound ==>
            && (reason == "denied-by-policy" <==> Said(docs, "deny", req))
            && (reason == "denied-no-matching-allow" <==> !Said(docs, "deny", req) && !Said(docs, "allow", req))
            && (reason == "denied-by-ownership" <==> !Said(docs, "deny", req) && Said(docs, "allow", req) && !OnOwnAccount(req)))
  {
    SaidIs(docs, req);
    ForbiddenIs(org, req);
    hide Denied, Granted, Guarded, Said, Forbidden;
  }

  lemma NobodyActs(req: Request, org: Org, docs: seq<Document>)
    requires !MayAct(req, org)
    ensures var reason := Outcome(req, org, docs).reason;
      if org.orgStatus != "" && org.orgStatus != "active" then reason == "denied-org-not-active"
      else if org.accountStatus != "" && org.accountStatus != "active" then reason == "denied-account-not-active"
      else reason == "denied-no-principal"
  {}

  /** A deny on a prefix and a star binds every action that starts with the prefix, whatever is allowed besides. */
  lemma PrefixDenyBinds(req: Request, org: Org, docs: seq<Document>, d: Document, s: Statement, p: string, rest: string)
    requires d in docs && s in d.statements && s.effect == "deny" && p + "*" in s.actions
    requires s.resources == [] || NamesOne(s.resources, req.crn)
    requires req.action == p + rest && !Root(req) && req.auth.principalType != "system"
    ensures !Outcome(req, org, docs).allowed
  {
    var k :| 0 <= k < |s.actions| && s.actions[k] == p + "*";
    assert Names(s.actions[k], req.action);
    assert Says(s, "deny", req);
    AllowedExactly(req, org, docs);
  }
}
