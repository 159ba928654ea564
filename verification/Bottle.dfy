/** Bottle specs, plans and deployments (internal/bottle): what a plan announces and what an apply creates. */
module Bottle {
  import opened Options
  import opened Template

  datatype Parameter = Parameter(ptype: string, default: string, required: bool)
  datatype Network = Network(name: string, mode: string, subnet: string)
  datatype Secret = Secret(name: string, valueFromParameter: string, generate: bool)
  datatype Service = Service(name: string, image: string, replicas: string, network: string, volumes: seq<string>)
  datatype LoadBalancer = LoadBalancer(name: string, mode: string, listenPort: string)
  datatype Dns = Dns(name: string, host: string, target: string)

  datatype Capabilities = Capabilities(privileged: bool, hostNetwork: bool, downloads: bool)

  /** `unchecked` counts the build's download steps without a checksum. */
  datatype Build = Build(enabled: bool, outputImage: string, unchecked: nat)

  datatype Spec = Spec(
    kind: string, name: string, version: string, displayName: string,
    parameters: map<string, Parameter>, build: Option<Build>,
    networks: seq<Network>, volumes: seq<string>, secrets: seq<Secret>,
    loadBalancers: seq<LoadBalancer>, dns: seq<Dns>, services: seq<Service>,
    outputs: map<string, string>, caps: Capabilities)

  // ---------------------------------------------------------------- context

  function BaseContext(spec: Spec): Context
  {
    var ctx := map["metadata.name" := spec.name, "metadata.version" := spec.version, "metadata.displayName" := spec.displayName];
    if spec.build.Some? then ctx["build.outputImage" := spec.build.value.outputImage] else ctx
  }

  function ParamKey(key: string): string { "parameters." + key }

  /** What the context holds once all parameters are in, as a lookup rather than a sequence of updates. */
  ghost predicate IsContext(ctx: Context, spec: Spec, params: map<string, string>)
  {
    forall k: string :: (k in ctx <==> Binds(spec, params, k)) && (k in ctx ==> ctx[k] == Binding(spec, params, k))
  }

  predicate IsParam(k: string) { |k| >= 11 && k[..11] == "parameters." }

  predicate Binds(spec: Spec, params: map<string, string>, k: string)
  {
    if IsParam(k) then k[11..] in params || k[11..] in spec.parameters else k in BaseContext(spec)
  }

  /** A caller's value overrides a default, whatever order the maps are walked in. */
  function Binding(spec: Spec, params: map<string, string>, k: string): string
    requires Binds(spec, params, k)
  {
    if IsParam(k) then
      if k[11..] in params then params[k[11..]] else spec.parameters[k[11..]].default
    else BaseContext(spec)[k]
  }

  lemma ParamKeyParts(key: string)
    ensures IsParam(ParamKey(key)) && ParamKey(key)[11..] == key
  {}

  lemma ParamKeyOf(k: string)
    requires IsParam(k)
    ensures k == ParamKey(k[11..])
  {}

  lemma BaseHasNoParam(spec: Spec)
    ensures forall k :: k in BaseContext(spec) ==> !IsParam(k)
  {
    forall k | k in BaseContext(spec)
      ensures !IsParam(k)
    {
      assert k[0] != 'p';
    }
  }

  function ContextOf(spec: Spec, params: map<string, string>): Context
  {
    var keys := BaseContext(spec).Keys + set x | x in spec.parameters.Keys + params.Keys :: ParamKey(x);
    map k | k in keys && Binds(spec, params, k) :: Binding(spec, params, k)
  }

  lemma ContextBinds(spec: Spec, params: map<string, string>)
    ensures IsContext(ContextOf(spec, params), spec, params)
  {
    forall k | Binds(spec, params, k)
      ensures k in ContextOf(spec, params)
    {
      if IsParam(k) { ParamKeyOf(k); }
    }
  }

  // Both loops walk a map in an order the language does not fix; the result does not depend on it.

  /** Enters the values of `m` under their parameter keys. */
  method SetParams(base: Context, m: map<string, string>) returns (ctx: Context)
    ensures forall k: string :: k in ctx <==> k in base || (IsParam(k) && k[11..] in m)
    ensures forall k: string :: k in ctx ==> ctx[k] == if IsParam(k) && k[11..] in m then m[k[11..]] else base[k]
  {
    ctx := base;
    var todo := m.Keys;
    while todo != {}
      invariant todo <= m.Keys
      invariant forall k: string :: k in ctx <==> k in base || (IsParam(k) && k[11..] in m.Keys - todo)
      invariant forall k: string :: k in ctx ==> ctx[k] == if IsParam(k) && k[11..] in m.Keys - todo then m[k[11..]] else base[k]
      decreases |todo|
    {
      var key :| key in todo;
      ParamKeyParts(key);
      forall k | IsParam(k) ensures k == ParamKey(k[11..]) { ParamKeyOf(k); }
      ctx := ctx[ParamKey(key) := m[key]];
      todo := todo - {key};
    }
  }

  method BuildContext(spec: Spec, params: map<string, string>) returns (ctx: Context)
    ensures ctx == ContextOf(spec, params)
  {
    BaseHasNoParam(spec);
    ContextBinds(spec, params);
    var defaults := map key | key in spec.parameters :: spec.parameters[key].default;
    ctx := SetParams(BaseContext(spec), defaults);
    ctx := SetParams(ctx, params);
    assert IsContext(ctx, spec, params);
  }

  // ---------------------------------------------------------------- validation

  function Lower(s: string): string
  {
    if s == "" then "" else [if 'A' <= s[0] <= 'Z' then (s[0] as int + 32) as char else s[0]] + Lower(s[1..])
  }

  const PARAM_TYPES := { "string", "integer", "float", "boolean", "enum", "secret", "password", "path",
                         "size", "port", "cidr", "hostname", "email", "url", "" }

  /** ValidateSpec finds no error. */
  predicate Valid(spec: Spec, params: map<string, string>)
  {
    && (spec.kind == "bottle" || spec.kind == "Bottle")
    && spec.name != "" && spec.version != ""
    && (forall key :: key in spec.parameters ==>
          && (spec.parameters[key].required ==> key in params && params[key] != "")
          && Lower(spec.parameters[key].ptype) in PARAM_TYPES)
    && (forall k :: 0 <= k < |spec.services| ==> ValidService(spec, spec.services[k]))
    && (spec.build.Some? ==> spec.build.value.unchecked == 0)
  }

  predicate ValidService(spec: Spec, svc: Service)
  {
    && svc.name != ""
    && (svc.network != "" ==> exists n :: 0 <= n < |spec.networks| && spec.networks[n].name == svc.network)
    && forall v :: v in svc.volumes ==> v in spec.volumes
  }

  // ---------------------------------------------------------------- planning

  datatype Action = Action(verb: string, kind: string, name: string)

  function Name(depl: string, name: string): string { depl + "-" + name }

  function NetworkName(depl: string, n: Network, ctx: Context): string { Name(depl, Render(n.name, ctx)) }
  function SecretName(depl: string, s: Secret, ctx: Context): string { Name(depl, Render(s.name, ctx)) }
  function LbName(depl: string, lb: LoadBalancer, ctx: Context): string { Name(depl, Render(lb.name, ctx)) }

  function HostOf(d: Dns, ctx: Context): string
  {
    if Render(d.host, ctx) == "" then d.name else Render(d.host, ctx)
  }

  function NetworkActions(depl: string, ns: seq<Network>, ctx: Context): seq<Action>
  {
    seq(|ns|, k requires 0 <= k < |ns| => Action("create", "network", NetworkName(depl, ns[k], ctx)))
  }

  function VolumeActions(depl: string, vs: seq<string>, ctx: Context): seq<Action>
  {
    seq(|vs|, k requires 0 <= k < |vs| => Action("create", "volume", Name(depl, Render(vs[k], ctx))))
  }

  function SecretActions(depl: string, ss: seq<Secret>, ctx: Context): seq<Action>
  {
    seq(|ss|, k requires 0 <= k < |ss| => Action("create", "secret", SecretName(depl, ss[k], ctx)))
  }

  function ImageActions(spec: Spec, ctx: Context): seq<Action>
  {
    if spec.build.Some? && spec.build.value.enabled
    then [Action("build", "image", Render(spec.build.value.outputImage, ctx))] else []
  }

  function GroupActions(depl: string, ss: seq<Service>): seq<Action>
  {
    seq(|ss|, k requires 0 <= k < |ss| => Action("create", "instance-group", Name(depl, ss[k].name)))
  }

  function LbActions(depl: string, ls: seq<LoadBalancer>, ctx: Context): seq<Action>
  {
    seq(|ls|, k requires 0 <= k < |ls| => Action("create", "lb", LbName(depl, ls[k], ctx)))
  }

  function DnsActions(ds: seq<Dns>, ctx: Context): seq<Action>
  {
    seq(|ds|, k requires 0 <= k < |ds| => Action("create", "dns", HostOf(ds[k], ctx)))
  }

  function Warnings(c: Capabilities): seq<Action>
  {
    (if c.privileged then [Action("warn", "capability", "privileged")] else []) +
    (if c.hostNetwork then [Action("warn", "capability", "host-network")] else []) +
    (if c.downloads then [Action("warn", "capability", "external-downloads")] else [])
  }

  function Planned(spec: Spec, params: map<string, string>, depl: string): seq<Action>
  {
    var ctx := ContextOf(spec, params);
    NetworkActions(depl, spec.networks, ctx) + VolumeActions(depl, spec.volumes, ctx) +
    SecretActions(depl, spec.secrets, ctx) + ImageActions(spec, ctx) + GroupActions(depl, spec.services) +
    LbActions(depl, spec.loadBalancers, ctx) + DnsActions(spec.dns, ctx) + Warnings(spec.caps)
  }

  // The planner's loops, one method each.

  method PlanNetworks(plan: seq<Action>, depl: string, xs: seq<Network>, ctx: Context) returns (out: seq<Action>)
    ensures out == plan + NetworkActions(depl, xs, ctx)
  {
    out := plan;
    for k := 0 to |xs|
      invariant out == plan + NetworkActions(depl, xs[..k], ctx)
    {
      out := out + [Action("create", "network", NetworkName(depl, xs[k], ctx))];
    }
    assert xs[..|xs|] == xs;
  }

  method PlanVolumes(plan: seq<Action>, depl: string, xs: seq<string>, ctx: Context) returns (out: seq<Action>)
    ensures out == plan + VolumeActions(depl, xs, ctx)
  {
    out := plan;
    for k := 0 to |xs|
      invariant out == plan + VolumeActions(depl, xs[..k], ctx)
    {
      out := out + [Action("create", "volume", Name(depl, Render(xs[k], ctx)))];
    }
    assert xs[..|xs|] == xs;
  }

  method PlanSecrets(plan: seq<Action>, depl: string, xs: seq<Secret>, ctx: Context) returns (out: seq<Action>)
    ensures out == plan + SecretActions(depl, xs, ctx)
  {
    out := plan;
    for k := 0 to |xs|
      invariant out == plan + SecretActions(depl, xs[..k], ctx)
    {
      out := out + [Action("create", "secret", SecretName(depl, xs[k], ctx))];
    }
    assert xs[..|xs|] == xs;
  }

  method PlanGroups(plan: seq<Action>, depl: string, xs: seq<Service>) returns (out: seq<Action>)
    ensures out == plan + GroupActions(depl, xs)
  {
    out := plan;
    for k := 0 to |xs|
      invariant out == plan + GroupActions(depl, xs[..k])
    {
      out := out + [Action("create", "instance-group", Name(depl, xs[k].name))];
    }
    assert xs[..|xs|] == xs;
  }

  method PlanLbs(plan: seq<Action>, depl: string, xs: seq<LoadBalancer>, ctx: Context) returns (out: seq<Action>)
    ensures out == plan + LbActions(depl, xs, ctx)
  {
    out := plan;
    for k := 0 to |xs|
      invariant out == plan + LbActions(depl, xs[..k], ctx)
    {
      out := out + [Action("create", "lb", LbName(depl, xs[k], ctx))];
    }
    assert xs[..|xs|] == xs;
  }

  method PlanDns(plan: seq<Action>, xs: seq<Dns>, ctx: Context) returns (out: seq<Action>)
    ensures out == plan + DnsActions(xs, ctx)
  {
    hide Render;
    out := plan;
    for k := 0 to |xs|
      invariant out == plan + DnsActions(xs[..k], ctx)
    {
      var host := Render(xs[k].host, ctx);
      if host == "" {
        host := xs[k].name;
      }
      out := out + [Action("create", "dns", host)];
    }
    assert xs[..|xs|] == xs;
  }

  method PlanWarnings(plan: seq<Action>, c: Capabilities) returns (out: seq<Action>)
    ensures out == plan + Warnings(c)
  {
    out := plan;
    if c.privileged {
      out := out + [Action("warn", "capability", "privileged")];
    }
    if c.hostNetwork {
      out := out + [Action("warn", "capability", "host-network")];
    }
    if c.downloads {
      out := out + [Action("warn", "capability", "external-downloads")];
    }
  }

  /** None stands for a plan of blocking actions and the validation error. */
  method Plan(spec: Spec, params: map<string, string>, depl: string) returns (plan: Option<seq<Action>>)
    ensures plan == if Valid(spec, params) then Some(Planned(spec, params, depl)) else None
  {
    if !Valid(spec, params) {
      return None;
    }
    var ctx := BuildContext(spec, params);
    var out := PlanNetworks([], depl, spec.networks, ctx);
    assert out == NetworkActions(depl, spec.networks, ctx);
    out := PlanVolumes(out, depl, spec.volumes, ctx);
    out := PlanSecrets(out, depl, spec.secrets, ctx);
    if spec.build.Some? && spec.build.value.enabled {
      out := out + [Action("build", "image", Render(spec.build.value.outputImage, ctx))];
    }
    assert out == NetworkActions(depl, spec.networks, ctx) + VolumeActions(depl, spec.volumes, ctx) +
                  SecretActions(depl, spec.secrets, ctx) + ImageActions(spec, ctx);
    out := PlanGroups(out, depl, spec.services);
    out := PlanLbs(out, depl, spec.loadBalancers, ctx);
    out := PlanDns(out, spec.dns, ctx);
    out := PlanWarnings(out, spec.caps);
    return Some(out);
  }

  // ---------------------------------------------------------------- contexts, problems and plans, as they are written

  /** What the context says of the bottle itself. */
  lemma ContextOfBottle(spec: Spec, params: map<string, string>)
    ensures var ctx := ContextOf(spec, params);
      && "metadata.name" in ctx && ctx["metadata.name"] == spec.name
      && "metadata.version" in ctx && ctx["metadata.version"] == spec.version
      && "metadata.displayName" in ctx && ctx["metadata.displayName"] == spec.displayName
      && (if spec.build.Some? then "build.outputImage" in ctx && ctx["build.outputImage"] == spec.build.value.outputImage
          else "build.outputImage" !in ctx)
  {
    ContextBinds(spec, params);
    BaseHasNoParam(spec);
    BaseIs(spec);
    assert "build.outputImage"[..11][0] == 'b';
    hide ContextOf, BaseContext;
    ContextOfBase(spec, params, "metadata.name");
    ContextOfBase(spec, params, "metadata.version");
    ContextOfBase(spec, params, "metadata.displayName");
    ContextOfBase(spec, params, "build.outputImage");
  }

  lemma BaseIs(spec: Spec)
    ensures var ctx := BaseContext(spec);
      && "metadata.name" in ctx && ctx["metadata.name"] == spec.name
      && "metadata.version" in ctx && ctx["metadata.version"] == spec.version
      && "metadata.displayName" in ctx && ctx["metadata.displayName"] == spec.displayName
      && (if spec.build.Some? then "build.outputImage" in ctx && ctx["build.outputImage"] == spec.build.value.outputImage
          else "build.outputImage" !in ctx)
  {}

  lemma ContextOfBase(spec: Spec, params: map<string, string>, k: string)
    requires !IsParam(k)
    ensures k in ContextOf(spec, params) <==> k in BaseContext(spec)
    ensures k in BaseContext(spec) ==> ContextOf(spec, params)[k] == BaseContext(spec)[k]
  {
    ContextBinds(spec, params);
    hide ContextOf, BaseContext, IsParam;
  }

  /** What it says of any one parameter. */
  lemma ContextOfParameter(spec: Spec, params: map<string, string>, p: string)
    ensures Lookup(ContextOf(spec, params), "parameters." + p) == ParameterValue(spec, params, p)
  {
    ContextBinds(spec, params);
    ParamKeyParts(p);
    hide ContextOf, BaseContext, IsParam;
    assert Binds(spec, params, ParamKey(p)) <==> p in params || p in spec.parameters;
  }

  /** The caller's value, or else the declared default, or else nothing. */
  function ParameterValue(spec: Spec, params: map<string, string>, p: string): string
  {
    if p in params then params[p] else if p in spec.parameters then spec.parameters[p].default else ""
  }

  /** A validation error. */
  datatype Problem =
    | WrongKind
    | NoName
    | NoVersion
    | Missing(key: string)
    | UnknownType(key: string)
    | NamelessService(k: nat)
    | UndefinedNetwork(k: nat)
    | UndefinedVolume(k: nat, volume: string)
    | Unchecked

  predicate HasProblem(spec: Spec, params: map<string, string>, p: Problem)
  {
    match p
    case WrongKind => spec.kind != "bottle" && spec.kind != "Bottle"
    case NoName => spec.name == ""
    case NoVersion => spec.version == ""
    case Missing(key) => key in spec.parameters && spec.parameters[key].required && (key !in params || params[key] == "")
    case UnknownType(key) => key in spec.parameters && !KnownType(spec.parameters[key].ptype)
    case NamelessService(k) => k < |spec.services| && spec.services[k].name == ""
    case UndefinedNetwork(k) =>
      k < |spec.services| && spec.services[k].network != "" &&
      forall n :: 0 <= n < |spec.networks| ==> spec.networks[n].name != spec.services[k].network
    case UndefinedVolume(k, v) => k < |spec.services| && v in spec.services[k].volumes && v !in spec.volumes
    case Unchecked => spec.build.Some? && spec.build.value.unchecked > 0
  }

  predicate SameLetter(c: char, low: char) { c == low || ('A' <= c <= 'Z' && c as int + 32 == low as int) }

  /** The text is the name, in capitals or not. */
  predicate Spells(text: string, name: string)
  {
    |text| == |name| && forall k :: 0 <= k < |name| ==> SameLetter(text[k], name[k])
  }

  predicate KnownType(t: string) { exists name :: name in PARAM_TYPES && Spells(t, name) }

  lemma FifteenTypes()
    ensures PARAM_TYPES == { "", "string", "integer", "float", "boolean", "enum", "secret", "password", "path",
                             "size", "port", "cidr", "hostname", "email", "url" }
    ensures forall name :: name in PARAM_TYPES ==> NoCapital(name)
  {
    forall name | name in PARAM_TYPES
      ensures NoCapital(name)
    {}
  }

  predicate NoCapital(s: string) { forall k :: 0 <= k < |s| ==> !('A' <= s[k] <= 'Z') }

  lemma {:induction false} LowerIs(text: string, name: string)
    requires NoCapital(name)
    ensures Lower(text) == name <==> Spells(text, name)
  {
    if text != "" && name != "" {
      LowerIs(text[1..], name[1..]);
      assert Lower(text)[1..] == Lower(text[1..]);
      assert name == [name[0]] + name[1..];
      assert forall k :: 1 <= k < |name| ==> name[k] == name[1..][k - 1];
      assert |text| == |name| ==> forall k :: 1 <= k < |text| ==> text[k] == text[1..][k - 1];
      assert Spells(text, name) <==> SameLetter(text[0], name[0]) && Spells(text[1..], name[1..]) by {
        SpellsStep(text, name);
      }
    }
  }

  lemma SpellsStep(text: string, name: string)
    requires text != "" && name != ""
    ensures Spells(text, name) <==> SameLetter(text[0], name[0]) && Spells(text[1..], name[1..])
  {
    if Spells(text[1..], name[1..]) {
      assert forall k :: 1 <= k < |name| ==> text[k] == text[1..][k - 1] && name[k] == name[1..][k - 1];
    }
  }

  lemma {:induction false} LowerHasNoCapital(text: string)
    ensures NoCapital(Lower(text))
  {
    if text != "" {
      LowerHasNoCapital(text[1..]);
    }
  }

  lemma TypesAreKnown(t: string)
    ensures Lower(t) in PARAM_TYPES <==> KnownType(t)
  {
    LowerHasNoCapital(t);
    LowerIs(t, Lower(t));
    FifteenTypes();
    hide PARAM_TYPES, Lower, Spells, NoCapital;
    if KnownType(t) {
      var name :| name in PARAM_TYPES && Spells(t, name);
      LowerIs(t, name);
    }
  }

  /** A spec is valid exactly when it has none of the problems, each with its own message in the source. */
  lemma ValidExactly(spec: Spec, params: map<string, string>)
    ensures Valid(spec, params) <==> forall p :: !HasProblem(spec, params, p)
  {
    forall key | key in spec.parameters
      ensures Lower(spec.parameters[key].ptype) in PARAM_TYPES <==> KnownType(spec.parameters[key].ptype)
    {
      TypesAreKnown(spec.parameters[key].ptype);
    }
    hide Lower, KnownType, PARAM_TYPES;
    if !Valid(spec, params) {
      var p := FindProblem(spec, params);
    }
  }

  lemma FindProblem(spec: Spec, params: map<string, string>) returns (p: Problem)
    requires !Valid(spec, params)
    ensures HasProblem(spec, params, p)
  {
    if spec.kind != "bottle" && spec.kind != "Bottle" {
      return WrongKind;
    } else if spec.name == "" {
      return NoName;
    } else if spec.version == "" {
      return NoVersion;
    } else if spec.build.Some? && spec.build.value.unchecked > 0 {
      return Unchecked;
    } else if key :| key in spec.parameters && spec.parameters[key].required && (key !in params || params[key] == "") {
      return Missing(key);
    } else if key :| key in spec.parameters && Lower(spec.parameters[key].ptype) !in PARAM_TYPES {
      TypesAreKnown(spec.parameters[key].ptype);
      return UnknownType(key);
    }
    var k :| 0 <= k < |spec.services| && !ValidService(spec, spec.services[k]);
    hide Lower, PARAM_TYPES;
    if spec.services[k].name == "" {
      return NamelessService(k);
    } else if v :| v in spec.services[k].volumes && v !in spec.volumes {
      return UndefinedVolume(k, v);
    }
    return UndefinedNetwork(k);
  }

  /** The plan in order, each action with its name written out: networks, volumes, secrets, ... */
  lemma PlanStarts(spec: Spec, params: map<string, string>, depl: string, k: nat)
    ensures var plan, ctx, v := Planned(spec, params, depl), ContextOf(spec, params), |spec.networks|;
      var s := v + |spec.volumes|;
      && |plan| >= s + |spec.secrets|
      && (k < v ==> plan[k] == Action("create", "network", depl + "-" + Render(spec.networks[k].name, ctx)))
      && (k < |spec.volumes| ==> plan[v + k] == Action("create", "volume", depl + "-" + Render(spec.volumes[k], ctx)))
      && (k < |spec.secrets| ==> plan[s + k] == Action("create", "secret", depl + "-" + Render(spec.secrets[k].name, ctx)))
  {
    hide Render, ContextOf;
  }

  function GroupsAt(spec: Spec): nat
  {
    |spec.networks| + |spec.volumes| + |spec.secrets| + if spec.build.Some? && spec.build.value.enabled then 1 else 0
  }

  /** ... an enabled build and the groups ... */
  lemma PlanGoesOn(spec: Spec, params: map<string, string>, depl: string, k: nat)
    ensures var plan, ctx, g := Planned(spec, params, depl), ContextOf(spec, params), GroupsAt(spec);
      && |plan| >= g + |spec.services|
      && (spec.build.Some? && spec.build.value.enabled ==>
            plan[g - 1] == Action("build", "image", Render(spec.build.value.outputImage, ctx)))
      && (k < |spec.services| ==> plan[g + k] == Action("create", "instance-group", depl + "-" + spec.services[k].name))
  {
    hide Render, ContextOf, HostOf, NetworkName, SecretName, LbName;
  }

  /** ... and the load balancers and DNS records. */
  lemma PlanEnds(spec: Spec, params: map<string, string>, depl: string, k: nat)
    ensures var plan, ctx, l := Planned(spec, params, depl), ContextOf(spec, params), GroupsAt(spec) + |spec.services|;
      var d := l + |spec.loadBalancers|;
      && |plan| >= d + |spec.dns|
      && (k < |spec.loadBalancers| ==> plan[l + k] == Action("create", "lb", depl + "-" + Render(spec.loadBalancers[k].name, ctx)))
      && (k < |spec.dns| ==> plan[d + k] == Action("create", "dns",
            if Render(spec.dns[k].host, ctx) != "" then Render(spec.dns[k].host, ctx) else spec.dns[k].name))
  {
    hide Render, ContextOf, NetworkName, SecretName;
  }

  /** And then a warning for each of three capabilities, and nothing else. */
  lemma PlanWarns(spec: Spec, params: map<string, string>, depl: string, a: Action)
    ensures a in Planned(spec, params, depl) && a.verb != "create" && a.verb != "build" <==>
      || (a == Action("warn", "capability", "privileged") && spec.caps.privileged)
      || (a == Action("warn", "capability", "host-network") && spec.caps.hostNetwork)
      || (a == Action("warn", "capability", "external-downloads") && spec.caps.downloads)
  {
    hide Render, ContextOf, NetworkName, SecretName, LbName, HostOf, Name;
    var ctx := ContextOf(spec, params);
    assert a in Planned(spec, params, depl) && a.verb != "create" && a.verb != "build" <==>
           a in Warnings(spec.caps) && a.verb != "create" && a.verb != "build";
  }
}
