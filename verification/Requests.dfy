/** What an apply asks for, records and remembers, item by item (internal/bottle/apply.go:56-159), and where
    the values it sends come from. */
module Requests {
  import opened Options
  import opened Strings
  import opened SqlLiteral
  import opened Template
  import opened Bottle
  import opened Deployment
  import opened Prediction

  // ---------------------------------------------------------------- one turn of each loop

  /** The run before its `k`-th turn. */
  function At(spec: Spec, params: map<string, string>, depl: string, deps: Deps, k: nat): Progress
    requires k <= Total(spec)
  {
    Reached(spec, params, depl, deps, k)
  }

  function First<T>(x: Option<T>, default: T): T { if x.Some? then x.value else default }

  /** `q` is `p` after a turn that asked for `r`: with the resources and the context it leaves on success, unchanged otherwise. */
  predicate Turned(p: Progress, q: Progress, r: Request, ok: bool, made: seq<Resource>, ctx: Context)
  {
    q == Progress(if ok then ctx else p.ctx, p.requests + [r], p.resources + if ok then made else [], ok)
  }

  /** A run starts with the base context, and nothing asked for. */
  lemma StartsEmpty(spec: Spec, params: map<string, string>, depl: string, deps: Deps)
    ensures At(spec, params, depl, deps, 0) == Progress(ContextOf(spec, params), [], [], true)
  {}

  lemma OneTurn(spec: Spec, params: map<string, string>, depl: string, deps: Deps, k: nat)
    requires k < Total(spec) && At(spec, params, depl, deps, k).ok
    ensures At(spec, params, depl, deps, k + 1) == Step(At(spec, params, depl, deps, k), ItemAt(spec, k), k, depl, deps)
  {
    hide Step, ItemAt, ContextOf;
  }

  lemma NetworkTurn(spec: Spec, params: map<string, string>, depl: string, deps: Deps, i: nat)
    requires i < |spec.networks| && At(spec, params, depl, deps, i).ok
    ensures var p, n, id := At(spec, params, depl, deps, i), spec.networks[i], deps.one(i);
      var name := depl + "-" + Render(n.name, p.ctx);
      Turned(p, At(spec, params, depl, deps, i + 1),
        CreateNetwork(name, if n.mode != "" then n.mode else "nat", if n.subnet == "auto" then "" else n.subnet),
        id.Some?, [Resource("network", name, First(id, ""))], p.ctx)
  {
    hide Render, At;
    OneTurn(spec, params, depl, deps, i);
  }

  lemma SecretTurn(spec: Spec, params: map<string, string>, depl: string, deps: Deps, i: nat)
    requires i < |spec.secrets| && At(spec, params, depl, deps, |spec.networks| + i).ok
    ensures var k := |spec.networks| + i; var p, s, id := At(spec, params, depl, deps, k), spec.secrets[i], deps.one(k);
      var name := depl + "-" + Render(s.name, p.ctx);
      Turned(p, At(spec, params, depl, deps, k + 1),
        CreateSecret(name,
          if s.valueFromParameter != "" then ParameterValue(spec, params, s.valueFromParameter)
          else if s.generate then deps.random(k) else ""),
        id.Some?, [Resource("secret", name, First(id, ""))], p.ctx["secrets." + Render(s.name, p.ctx) := First(id, "")])
  {
    hide Render, ContextOf, At, ParameterValue, Lookup;
    var k := |spec.networks| + i;
    ParameterSurvives(spec, params, depl, deps, k, spec.secrets[i].valueFromParameter);
    OneTurn(spec, params, depl, deps, k);
  }

  lemma GroupTurn(spec: Spec, params: map<string, string>, depl: string, deps: Deps, i: nat)
    requires i < |spec.services| && At(spec, params, depl, deps, |spec.networks| + |spec.secrets| + i).ok
    ensures var k := |spec.networks| + |spec.secrets| + i;
      var p, v, ids := At(spec, params, depl, deps, k), spec.services[i], deps.group(k);
      var name := depl + "-" + v.name;
      Turned(p, At(spec, params, depl, deps, k + 1),
        CreateGroup(name, Render(v.image, p.ctx), depl + "-" + v.network, Replicas(Render(v.replicas, p.ctx))),
        ids.Some?, seq(|First(ids, [])|, j requires 0 <= j < |First(ids, [])| => Resource("instance", name, First(ids, [])[j])),
        p.ctx["services." + v.name + ".name" := name])
  {
    hide Render, Replicas, At;
    OneTurn(spec, params, depl, deps, Services(spec) + i);
  }

  lemma LbTurn(spec: Spec, params: map<string, string>, depl: string, deps: Deps, i: nat)
    requires i < |spec.loadBalancers| && At(spec, params, depl, deps, Lbs(spec) + i).ok
    ensures var k := |spec.networks| + |spec.secrets| + |spec.services| + i;
      var p, l, id := At(spec, params, depl, deps, k), spec.loadBalancers[i], deps.one(k);
      var name, port := depl + "-" + Render(l.name, p.ctx), Render(l.listenPort, p.ctx);
      Turned(p, At(spec, params, depl, deps, k + 1),
        CreateLb(name, if l.mode != "" then l.mode else "tcp", port),
        id.Some?, [Resource("lb", name, First(id, ""))],
        p.ctx["resources.loadBalancers." + Render(l.name, p.ctx) + ".listenAddress" := port])
  {
    hide Render, At;
    OneTurn(spec, params, depl, deps, Lbs(spec) + i);
  }

  lemma DnsTurn(spec: Spec, params: map<string, string>, depl: string, deps: Deps, i: nat)
    requires i < |spec.dns| && At(spec, params, depl, deps, Hosts(spec) + i).ok
    ensures var k := |spec.networks| + |spec.secrets| + |spec.services| + |spec.loadBalancers| + i;
      var p, d, id := At(spec, params, depl, deps, k), spec.dns[i], deps.one(k);
      var host := if Render(d.host, p.ctx) != "" then Render(d.host, p.ctx) else d.name;
      Turned(p, At(spec, params, depl, deps, k + 1),
        CreateDns(depl + "-dns-" + d.name, host, Render(d.target, p.ctx)),
        id.Some?, [Resource("dns", host, First(id, ""))], p.ctx["resources.dns." + d.name + ".fqdn" := host])
  {
    hide Render, At;
    OneTurn(spec, params, depl, deps, Hosts(spec) + i);
    assert depl + "-" + ("dns-" + spec.dns[i].name) == depl + "-dns-" + spec.dns[i].name;
  }

  /** No entry of a run hides a parameter. */
  lemma ParameterSurvives(spec: Spec, params: map<string, string>, depl: string, deps: Deps, k: nat, p: string)
    requires k <= Total(spec)
    ensures Lookup(At(spec, params, depl, deps, k).ctx, "parameters." + p) == ParameterValue(spec, params, p)
  {
    ContextOfParameter(spec, params, p);
    ContextGrows(spec, params, depl, deps, k);
    var key := "parameters." + p;
    assert key[0] == 'p';
    if Runtime(key) { RuntimeStarts(key); }
    hide Run, ContextOf, Runtime;
  }

  // ---------------------------------------------------------------- whole runs

  lemma OkBack(spec: Spec, params: map<string, string>, depl: string, deps: Deps, k: nat)
    requires k < Total(spec) && At(spec, params, depl, deps, k + 1).ok
    ensures At(spec, params, depl, deps, k).ok
  {
    hide Step, ItemAt, ContextOf;
  }

  lemma RequestCount(spec: Spec, params: map<string, string>, depl: string, deps: Deps, k: nat)
    requires k <= Total(spec) && At(spec, params, depl, deps, k).ok
    ensures |At(spec, params, depl, deps, k).requests| == k
  {
    hide Run, ContextOf;
    RequestsMade(spec, params, depl, deps, k);
  }

  lemma OneRequest(spec: Spec, params: map<string, string>, depl: string, deps: Deps, k: nat)
    requires k < Total(spec) && At(spec, params, depl, deps, k).ok
    ensures var p, q := At(spec, params, depl, deps, k), At(spec, params, depl, deps, k + 1);
      |q.requests| == |p.requests| + 1 && q.requests[..|p.requests|] == p.requests
  {
    hide Step, ItemAt, At;
    OneTurn(spec, params, depl, deps, k);
    StepExtends(At(spec, params, depl, deps, k), ItemAt(spec, k), k, depl, deps);
  }

  /** The request a run has at position `k` is the one its turn made, to the end of the run. */
  lemma {:induction false} RequestStays(spec: Spec, params: map<string, string>, depl: string, deps: Deps, k: nat, n: nat)
    requires k < n <= Total(spec) && At(spec, params, depl, deps, n).ok
    ensures At(spec, params, depl, deps, k).ok && At(spec, params, depl, deps, k + 1).ok
    ensures |At(spec, params, depl, deps, k).requests| == k && |At(spec, params, depl, deps, k + 1).requests| == k + 1
    ensures |At(spec, params, depl, deps, n).requests| == n
    ensures At(spec, params, depl, deps, n).requests[k] == At(spec, params, depl, deps, k + 1).requests[k]
  {
    hide At;
    OkBack(spec, params, depl, deps, n - 1);
    RequestCount(spec, params, depl, deps, n);
    RequestCount(spec, params, depl, deps, n - 1);
    if k + 1 < n {
      RequestStays(spec, params, depl, deps, k, n - 1);
      OneRequest(spec, params, depl, deps, n - 1);
    }
  }

  /** The request for a secret, at the end of a successful apply. */
  lemma SecretRequest(spec: Spec, params: map<string, string>, depl: string, deps: Deps, i: nat)
    requires Applied(spec, params, depl, deps).ok && i < |spec.secrets|
    ensures var rs, k, s := Applied(spec, params, depl, deps).requests, |spec.networks| + i, spec.secrets[i];
      |rs| == Total(spec) && rs[k] ==
        CreateSecret(depl + "-" + Render(s.name, At(spec, params, depl, deps, k).ctx),
          if s.valueFromParameter != "" then ParameterValue(spec, params, s.valueFromParameter)
          else if s.generate then deps.random(k) else "")
  {
    hide Run, Render, ParameterValue;
    RequestStays(spec, params, depl, deps, |spec.networks| + i, Total(spec));
    SecretTurn(spec, params, depl, deps, i);
  }

  /** In every successful apply, a secret taken from a parameter is created with the caller's value for it, or else with its
      declared default, or else empty; a generated one with what was generated; any other one empty. */
  lemma SecretsCarryTheirValues(spec: Spec, params: map<string, string>, depl: string, deps: Deps, i: nat)
    requires Applied(spec, params, depl, deps).ok && i < |spec.secrets|
    ensures var rs, k, s := Applied(spec, params, depl, deps).requests, |spec.networks| + i, spec.secrets[i];
      var p := s.valueFromParameter;
      && |rs| == Total(spec) && rs[k].CreateSecret?
      && (p != "" && p in params ==> rs[k].value == params[p])
      && (p != "" && p !in params && p in spec.parameters ==> rs[k].value == spec.parameters[p].default)
      && (p != "" && p !in params && p !in spec.parameters ==> rs[k].value == "")
      && (p == "" ==> rs[k].value == if s.generate then deps.random(k) else "")
  {
    hide Applied, Render, At;
    SecretRequest(spec, params, depl, deps, i);
  }

  // ---------------------------------------------------------------- replicas and outputs

  /** A run of digits, with a sign or not, that stands for `n`. */
  predicate IsDecimal(text: string, digits: string, n: int)
  {
    && digits != "" && (forall k :: 0 <= k < |digits| ==> '0' <= digits[k] <= '9')
    && ((text == digits && n == DigitsValue(digits)) || (text == "+" + digits && n == DigitsValue(digits))
        || (text == "-" + digits && n == -DigitsValue(digits)))
  }

  const MIN := -0x8000_0000_0000_0000
  const MAX := 0x7fff_ffff_ffff_ffff

  /** The replicas of a group: the number its text stands for, if it is a decimal that fits 64 bits, and otherwise 1. */
  lemma ReplicasExactly(text: string)
    ensures forall digits, n :: IsDecimal(text, digits, n) ==> Replicas(text) == if MIN <= n <= MAX then n else 1
    ensures (forall digits, n :: !IsDecimal(text, digits, n)) ==> Replicas(text) == 1
  {
    var body := Unsigned(text);
    forall digits, n | IsDecimal(text, digits, n)
      ensures Replicas(text) == if MIN <= n <= MAX then n else 1
    {
      assert digits == body;
    }
    if body != "" && AllDigits(body) {
      var n := if text[0] == '-' then -DigitsValue(body) else DigitsValue(body);
      assert text == if text[0] == '+' then "+" + body else if text[0] == '-' then "-" + body else body;
      assert IsDecimal(text, body, n);
    }
  }

  /** Every 64-bit integer, as it is printed, is read as itself. */
  lemma ReplicasOfInteger(n: int64)
    ensures Replicas(FormatInt(n)) == n
  {
    IntegerText(n);
    var s, i := FormatInt(n), n as int;
    var digits := if i < 0 then s[1..] else s;
    assert i < 0 ==> s == "-" + digits;
    assert IsDecimal(s, digits, i);
    ReplicasExactly(s);
  }

  /** The outputs of an apply are its output templates, rendered with everything the run has entered. */
  lemma OutputsAreRendered(spec: Spec, params: map<string, string>, depl: string, deps: Deps, key: string)
    ensures var ctx := At(spec, params, depl, deps, Total(spec)).ctx;
      && Applied(spec, params, depl, deps) == At(spec, params, depl, deps, Total(spec))
      && (key in Outputs(spec, ctx) <==> key in spec.outputs)
      && (key in spec.outputs ==> Outputs(spec, ctx)[key] == Render(spec.outputs[key], ctx))
  {}
}
