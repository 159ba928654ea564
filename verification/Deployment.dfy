/** Applying a bottle (internal/bottle/apply.go): five creation loops over one growing template context. */
module Deployment {
  import opened Options
  import opened Strings
  import opened Template
  import opened Bottle

  /** What Apply asks the platform to create. */
  datatype Request =
    | CreateNetwork(name: string, mode: string, subnet: string)
    | CreateSecret(name: string, value: string)
    | CreateGroup(name: string, image: string, network: string, replicas: int)
    | CreateLb(name: string, mode: string, port: string)
    | CreateDns(name: string, host: string, target: string)

  datatype Resource = Resource(kind: string, name: string, id: string)

  /** The platform's answers, by the position of the request; `saves` is the answer of UpdateDeploymentOutputs. */
  datatype Deps = Deps(one: nat -> Option<string>, group: nat -> Option<seq<string>>, random: nat -> string, saves: bool)

  /** The items the five loops visit, in their order. */
  datatype Item = NetItem(n: Network) | SecItem(s: Secret) | SvcItem(v: Service) | LbItem(l: LoadBalancer) | DnsItem(d: Dns)

  function Secrets(spec: Spec): nat { |spec.networks| }
  function Services(spec: Spec): nat { Secrets(spec) + |spec.secrets| }
  function Lbs(spec: Spec): nat { Services(spec) + |spec.services| }
  function Hosts(spec: Spec): nat { Lbs(spec) + |spec.loadBalancers| }
  function Total(spec: Spec): nat { Hosts(spec) + |spec.dns| }

  function ItemAt(spec: Spec, i: nat): Item
    requires i < Total(spec)
  {
    if i < Secrets(spec) then NetItem(spec.networks[i])
    else if i < Services(spec) then SecItem(spec.secrets[i - Secrets(spec)])
    else if i < Lbs(spec) then SvcItem(spec.services[i - Services(spec)])
    else if i < Hosts(spec) then LbItem(spec.loadBalancers[i - Lbs(spec)])
    else DnsItem(spec.dns[i - Hosts(spec)])
  }

  function Unsigned(s: string): string { if s != "" && (s[0] == '-' || s[0] == '+') then s[1..] else s }

  predicate AllDigits(s: string) { forall k :: 0 <= k < |s| ==> '0' <= s[k] <= '9' }

  /** strconv.Atoi on 64-bit integers. */
  function Atoi(s: string): Option<int>
  {
    if Unsigned(s) == "" || !AllDigits(Unsigned(s)) then None else
    var v := if s[0] == '-' then -DigitsValue(Unsigned(s)) else DigitsValue(Unsigned(s));
    if -0x8000_0000_0000_0000 <= v < 0x8000_0000_0000_0000 then Some(v) else None
  }

  function Replicas(text: string): int { if Atoi(text).Some? then Atoi(text).value else 1 }

  function OrElse(s: string, default: string): string { if s == "" then default else s }

  function RequestFor(item: Item, ctx: Context, depl: string, random: string): Request
  {
    match item
    case NetItem(n) => CreateNetwork(NetworkName(depl, n, ctx), OrElse(n.mode, "nat"), if n.subnet == "auto" then "" else n.subnet)
    case SecItem(s) =>
      CreateSecret(SecretName(depl, s, ctx),
                   if s.valueFromParameter != "" then Lookup(ctx, ParamKey(s.valueFromParameter))
                   else if s.generate then random else "")
    case SvcItem(v) =>
      CreateGroup(Name(depl, v.name), Render(v.image, ctx), Name(depl, v.network), Replicas(Render(v.replicas, ctx)))
    case LbItem(l) => CreateLb(LbName(depl, l, ctx), OrElse(l.mode, "tcp"), Render(l.listenPort, ctx))
    case DnsItem(d) => CreateDns(Name(depl, "dns-" + d.name), HostOf(d, ctx), Render(d.target, ctx))
  }

  /** How far an apply has come: context, requests made, resources recorded, and whether every callback succeeded. */
  datatype Progress = Progress(ctx: Context, requests: seq<Request>, resources: seq<Resource>, ok: bool)

  function AnswerTo(item: Item, pos: nat, deps: Deps): Option<seq<string>>
  {
    if item.SvcItem? then deps.group(pos)
    else if deps.one(pos).None? then None else Some([deps.one(pos).value])
  }

  function KindName(item: Item): string
  {
    match item
    case NetItem(_) => "network" case SecItem(_) => "secret" case SvcItem(_) => "instance"
    case LbItem(_) => "lb" case DnsItem(_) => "dns"
  }

  /** The name a resource is recorded under: the host for a DNS record. */
  function RecordName(item: Item, ctx: Context, depl: string): string
  {
    match item
    case NetItem(n) => NetworkName(depl, n, ctx)
    case SecItem(s) => SecretName(depl, s, ctx)
    case SvcItem(v) => Name(depl, v.name)
    case LbItem(l) => LbName(depl, l, ctx)
    case DnsItem(d) => HostOf(d, ctx)
  }

  function Records(kind: string, name: string, ids: seq<string>): seq<Resource>
  {
    seq(|ids|, k requires 0 <= k < |ids| => Resource(kind, name, ids[k]))
  }

  /** The entry a created item leaves in the context. */
  function Extend(ctx: Context, item: Item, depl: string, ids: seq<string>): Context
  {
    match item
    case NetItem(_) => ctx
    case SecItem(s) => ctx["secrets." + Render(s.name, ctx) := if ids == [] then "" else ids[0]]
    case SvcItem(v) => ctx["services." + v.name + ".name" := Name(depl, v.name)]
    case LbItem(l) => ctx["resources.loadBalancers." + Render(l.name, ctx) + ".listenAddress" := Render(l.listenPort, ctx)]
    case DnsItem(d) => ctx["resources.dns." + d.name + ".fqdn" := HostOf(d, ctx)]
  }

  /** One turn of whichever loop visits `item`, as request number `pos`. */
  function Step(p: Progress, item: Item, pos: nat, depl: string, deps: Deps): Progress
  {
    var requests := p.requests + [RequestFor(item, p.ctx, depl, deps.random(pos))];
    match AnswerTo(item, pos, deps)
    case None => p.(requests := requests, ok := false)
    case Some(ids) =>
      Progress(Extend(p.ctx, item, depl, ids), requests,
               p.resources + Records(KindName(item), RecordName(item, p.ctx, depl), ids), true)
  }

  /** The first `k` turns; the first failure ends the run. */
  function Run(p: Progress, spec: Spec, k: nat, depl: string, deps: Deps): Progress
    requires k <= Total(spec)
  {
    if k == 0 then p else
    var q := Run(p, spec, k - 1, depl, deps);
    if q.ok then Step(q, ItemAt(spec, k - 1), k - 1, depl, deps) else q
  }

  lemma {:induction false} RunStops(p: Progress, spec: Spec, k: nat, n: nat, depl: string, deps: Deps)
    requires k <= n <= Total(spec) && !Run(p, spec, k, depl, deps).ok
    ensures Run(p, spec, n, depl, deps) == Run(p, spec, k, depl, deps)
  {
    if k < n {
      RunStops(p, spec, k, n - 1, depl, deps);
    }
  }

  function Initial(spec: Spec, params: map<string, string>): Progress
  {
    Progress(ContextOf(spec, params), [], [], true)
  }

  function Applied(spec: Spec, params: map<string, string>, depl: string, deps: Deps): Progress
  {
    Run(Initial(spec, params), spec, Total(spec), depl, deps)
  }

  // ---------------------------------------------------------------- Apply

  datatype Status = Pending | Deploying | Running | Failed

  datatype BottleDeployment = BottleDeployment(
    name: string, status: Status, outputs: map<string, string>, resources: seq<Resource>)

  function Outputs(spec: Spec, ctx: Context): map<string, string>
  {
    map key | key in spec.outputs :: Render(spec.outputs[key], ctx)
  }

  /** The platform's request log, and the deployment store. */
  class Engine {
    var requests: seq<Request>
    var resources: seq<Resource>
    var tctx: Context
    var statuses: seq<Status>
    var saved: Option<(map<string, string>, seq<Resource>)>

    constructor ()
      ensures requests == [] && statuses == [] && saved == None
    {
      requests, resources, tctx, statuses, saved := [], [], map[], [], None;
    }

    function At(ok: bool): Progress
      reads this
    {
      Progress(tctx, requests, resources, ok)
    }

    /** A callback's error return: the deployment is marked failed. */
    method Fail()
      modifies this`statuses
      ensures statuses == old(statuses) + [Failed]
    {
      statuses := statuses + [Failed];
    }

    // One turn of each loop.

    method CreateNetwork(n: Network, pos: nat, depl: string, deps: Deps) returns (ok: bool)
      modifies this`requests, this`resources, this`tctx
      ensures At(ok) == Step(old(At(true)), NetItem(n), pos, depl, deps)
    {
      var netName := depl + "-" + Render(n.name, tctx);
      var mode := n.mode;
      if mode == "" {
        mode := "nat";
      }
      var subnet := n.subnet;
      if subnet == "" || subnet == "auto" {
        subnet := "";
      }
      requests := requests + [Request.CreateNetwork(netName, mode, subnet)];
      var id := deps.one(pos);
      if id.None? {
        return false;
      }
      resources := resources + [Resource("network", netName, id.value)];
      return true;
    }

    method CreateSecret(sec: Secret, pos: nat, depl: string, deps: Deps) returns (ok: bool)
      modifies this`requests, this`resources, this`tctx
      ensures At(ok) == Step(old(At(true)), SecItem(sec), pos, depl, deps)
    {
      var secName := depl + "-" + Render(sec.name, tctx);
      var val := "";
      if sec.valueFromParameter != "" {
        val := Lookup(tctx, "parameters." + sec.valueFromParameter);
      } else if sec.generate {
        val := deps.random(pos);
      }
      requests := requests + [Request.CreateSecret(secName, val)];
      var id := deps.one(pos);
      if id.None? {
        return false;
      }
      resources := resources + [Resource("secret", secName, id.value)];
      tctx := tctx["secrets." + Render(sec.name, tctx) := id.value];
      return true;
    }

    method CreateService(svc: Service, pos: nat, depl: string, deps: Deps) returns (ok: bool)
      modifies this`requests, this`resources, this`tctx
      ensures At(ok) == Step(old(At(true)), SvcItem(svc), pos, depl, deps)
    {
      var svcName := depl + "-" + svc.name;
      var image := Render(svc.image, tctx);
      var network := depl + "-" + svc.network;
      var replicas := 1;
      var r := Render(svc.replicas, tctx);
      if r != "" {
        var n := Atoi(r);
        if n.Some? {
          replicas := n.value;
        }
      }
      requests := requests + [CreateGroup(svcName, image, network, replicas)];
      var ids := deps.group(pos);
      if ids.None? {
        return false;
      }
      RecordInstances(svcName, ids.value);
      tctx := tctx["services." + svc.name + ".name" := svcName];
      return true;
    }

    method RecordInstances(svcName: string, ids: seq<string>)
      modifies this`resources
      ensures resources == old(resources) + Records("instance", svcName, ids)
    {
      for i := 0 to |ids|
        invariant resources == old(resources) + Records("instance", svcName, ids[..i])
      {
        resources := resources + [Resource("instance", svcName, ids[i])];
      }
      assert ids[..|ids|] == ids;
    }

    method CreateLb(lb: LoadBalancer, pos: nat, depl: string, deps: Deps) returns (ok: bool)
      modifies this`requests, this`resources, this`tctx
      ensures At(ok) == Step(old(At(true)), LbItem(lb), pos, depl, deps)
    {
      var lbName := depl + "-" + Render(lb.name, tctx);
      var listenPort := Render(lb.listenPort, tctx);
      var mode := lb.mode;
      if mode == "" {
        mode := "tcp";
      }
      requests := requests + [Request.CreateLb(lbName, mode, listenPort)];
      var id := deps.one(pos);
      if id.None? {
        return false;
      }
      resources := resources + [Resource("lb", lbName, id.value)];
      tctx := tctx["resources.loadBalancers." + Render(lb.name, tctx) + ".listenAddress" := listenPort];
      return true;
    }

    method CreateRecord(dns: Dns, pos: nat, depl: string, deps: Deps) returns (ok: bool)
      modifies this`requests, this`resources, this`tctx
      ensures At(ok) == Step(old(At(true)), DnsItem(dns), pos, depl, deps)
    {
      var host := Render(dns.host, tctx);
      if host == "" {
        host := dns.name;
      }
      var target := Render(dns.target, tctx);
      var dnsName := depl + "-dns-" + dns.name;
      assert dnsName == Name(depl, "dns-" + dns.name);
      requests := requests + [CreateDns(dnsName, host, target)];
      var id := deps.one(pos);
      if id.None? {
        return false;
      }
      resources := resources + [Resource("dns", host, id.value)];
      tctx := tctx["resources.dns." + dns.name + ".fqdn" := host];
      return true;
    }

    // The loops.

    method CreateNetworks(p: Progress, spec: Spec, depl: string, deps: Deps) returns (ok: bool)
      requires At(true) == Run(p, spec, 0, depl, deps)
      modifies this`requests, this`resources, this`tctx, this`statuses
      ensures At(ok) == Run(p, spec, Secrets(spec), depl, deps)
      ensures statuses == old(statuses) + if ok then [] else [Failed]
    {
      hide Step;
      for k := 0 to |spec.networks|
        invariant At(true) == Run(p, spec, k, depl, deps)
        invariant statuses == old(statuses)
      {
        assert ItemAt(spec, k) == NetItem(spec.networks[k]);
        ok := CreateNetwork(spec.networks[k], k, depl, deps);
        if !ok {
          RunStops(p, spec, k + 1, Secrets(spec), depl, deps);
          Fail();
          return;
        }
      }
      return true;
    }

    method CreateSecrets(p: Progress, spec: Spec, depl: string, deps: Deps) returns (ok: bool)
      requires At(true) == Run(p, spec, Secrets(spec), depl, deps)
      modifies this`requests, this`resources, this`tctx, this`statuses
      ensures At(ok) == Run(p, spec, Services(spec), depl, deps)
      ensures statuses == old(statuses) + if ok then [] else [Failed]
    {
      hide Step;
      for k := 0 to |spec.secrets|
        invariant At(true) == Run(p, spec, Secrets(spec) + k, depl, deps)
        invariant statuses == old(statuses)
      {
        assert ItemAt(spec, Secrets(spec) + k) == SecItem(spec.secrets[k]);
        ok := CreateSecret(spec.secrets[k], Secrets(spec) + k, depl, deps);
        if !ok {
          RunStops(p, spec, Secrets(spec) + k + 1, Services(spec), depl, deps);
          Fail();
          return;
        }
      }
      return true;
    }

    method CreateServices(p: Progress, spec: Spec, depl: string, deps: Deps) returns (ok: bool)
      requires At(true) == Run(p, spec, Services(spec), depl, deps)
      modifies this`requests, this`resources, this`tctx, this`statuses
      ensures At(ok) == Run(p, spec, Lbs(spec), depl, deps)
      ensures statuses == old(statuses) + if ok then [] else [Failed]
    {
      hide Step;
      for k := 0 to |spec.services|
        invariant At(true) == Run(p, spec, Services(spec) + k, depl, deps)
        invariant statuses == old(statuses)
      {
        assert ItemAt(spec, Services(spec) + k) == SvcItem(spec.services[k]);
        ok := CreateService(spec.services[k], Services(spec) + k, depl, deps);
        if !ok {
          RunStops(p, spec, Services(spec) + k + 1, Lbs(spec), depl, deps);
          Fail();
          return;
        }
      }
      return true;
    }

    method CreateLbs(p: Progress, spec: Spec, depl: string, deps: Deps) returns (ok: bool)
      requires At(true) == Run(p, spec, Lbs(spec), depl, deps)
      modifies this`requests, this`resources, this`tctx, this`statuses
      ensures At(ok) == Run(p, spec, Hosts(spec), depl, deps)
      ensures statuses == old(statuses) + if ok then [] else [Failed]
    {
      hide Step;
      for k := 0 to |spec.loadBalancers|
        invariant At(true) == Run(p, spec, Lbs(spec) + k, depl, deps)
        invariant statuses == old(statuses)
      {
        assert ItemAt(spec, Lbs(spec) + k) == LbItem(spec.loadBalancers[k]);
        ok := CreateLb(spec.loadBalancers[k], Lbs(spec) + k, depl, deps);
        if !ok {
          RunStops(p, spec, Lbs(spec) + k + 1, Hosts(spec), depl, deps);
          Fail();
          return;
        }
      }
      return true;
    }

    method CreateRecords(p: Progress, spec: Spec, depl: string, deps: Deps) returns (ok: bool)
      requires At(true) == Run(p, spec, Hosts(spec), depl, deps)
      modifies this`requests, this`resources, this`tctx, this`statuses
      ensures At(ok) == Run(p, spec, Total(spec), depl, deps)
      ensures statuses == old(statuses) + if ok then [] else [Failed]
    {
      hide Step;
      for k := 0 to |spec.dns|
        invariant At(true) == Run(p, spec, Hosts(spec) + k, depl, deps)
        invariant statuses == old(statuses)
      {
        assert ItemAt(spec, Hosts(spec) + k) == DnsItem(spec.dns[k]);
        ok := CreateRecord(spec.dns[k], Hosts(spec) + k, depl, deps);
        if !ok {
          RunStops(p, spec, Hosts(spec) + k + 1, Total(spec), depl, deps);
          Fail();
          return;
        }
      }
      return true;
    }

    method RenderOutputs(spec: Spec) returns (outputs: map<string, string>)
      ensures outputs == Outputs(spec, tctx)
    {
      outputs := map[];
      var todo := spec.outputs.Keys;
      while todo != {}
        invariant todo <= spec.outputs.Keys
        invariant outputs == map key | key in spec.outputs && key !in todo :: Render(spec.outputs[key], tctx)
        decreases |todo|
      {
        var key :| key in todo;
        outputs := outputs[key := Render(spec.outputs[key], tctx)];
        todo := todo - {key};
      }
    }

    /** The five loops, each entered only when the one before it succeeded. */
    method CreateAll(p: Progress, spec: Spec, depl: string, deps: Deps) returns (ok: bool)
      requires At(true) == p
      modifies this`requests, this`resources, this`tctx, this`statuses
      ensures At(ok) == Run(p, spec, Total(spec), depl, deps)
      ensures statuses == old(statuses) + if ok then [] else [Failed]
    {
      hide Step;
      ok := CreateNetworks(p, spec, depl, deps);
      if !ok {
        RunStops(p, spec, Secrets(spec), Total(spec), depl, deps);
        return;
      }
      ok := CreateSecrets(p, spec, depl, deps);
      if !ok {
        RunStops(p, spec, Services(spec), Total(spec), depl, deps);
        return;
      }
      ok := CreateServices(p, spec, depl, deps);
      if !ok {
        RunStops(p, spec, Lbs(spec), Total(spec), depl, deps);
        return;
      }
      ok := CreateLbs(p, spec, depl, deps);
      if !ok {
        RunStops(p, spec, Hosts(spec), Total(spec), depl, deps);
        return;
      }
      ok := CreateRecords(p, spec, depl, deps);
    }

    /** The deployment is returned unchanged on every error; on success it carries what was created. */
    method Apply(deployment: BottleDeployment, spec: Spec, params: map<string, string>, deps: Deps)
      returns (out: BottleDeployment, ok: bool)
      modifies this
      ensures var p := Applied(spec, params, deployment.name, deps);
        && At(p.ok) == p
        && ok == (p.ok && deps.saves)
        && out == (if !ok then deployment
                   else deployment.(status := Running, outputs := Outputs(spec, p.ctx), resources := p.resources))
        && saved == (if ok then Some((Outputs(spec, p.ctx), p.resources)) else old(saved))
        && statuses == old(statuses) + (if !p.ok then [Deploying, Failed] else if deps.saves then [Deploying, Running] else [Deploying])
    {
      hide Run;
      var ctx := BuildContext(spec, params);
      tctx, requests, resources := ctx, [], [];
      statuses := statuses + [Deploying];
      ok := CreateAll(Initial(spec, params), spec, deployment.name, deps);
      if !ok {
        return deployment, false;
      }
      var outputs := RenderOutputs(spec);
      if !deps.saves {
        return deployment, false;
      }
      saved := Some((outputs, resources));
      statuses := statuses + [Running];
      out := deployment.(status := Running, outputs := outputs, resources := resources);
    }
  }
}
