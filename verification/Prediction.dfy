/** What a bottle's plan foretells of its apply (internal/bottle/planner.go against internal/bottle/apply.go). */
module Prediction {
  import opened Options
  import opened Strings
  import opened Template
  import opened Bottle
  import opened Deployment

  // ---------------------------------------------------------------- the growing context

  /** The keys Apply itself enters. */
  predicate Runtime(key: string)
  {
    "secrets." <= key || "services." <= key || "resources." <= key
  }

  lemma BaseIsNotRuntime(spec: Spec, params: map<string, string>, key: string)
    requires key in ContextOf(spec, params)
    ensures !Runtime(key)
  {
    ContextBinds(spec, params);
    if IsParam(key) {
      assert key[0] == key[..11][0] == 'p';
    } else {
      assert key[0] == 'm' || key[0] == 'b';
    }
    if Runtime(key) {
      RuntimeStarts(key);
    }
  }

  lemma RuntimeStarts(key: string)
    requires Runtime(key)
    ensures key != "" && (key[0] == 's' || key[0] == 'r')
  {}

  ghost predicate Grown(base: Context, ctx: Context)
  {
    && (forall k :: k in base ==> k in ctx && ctx[k] == base[k])
    && (forall k :: k in ctx && k !in base ==> Runtime(k))
  }

  lemma ExtendGrows(base: Context, ctx: Context, item: Item, depl: string, ids: seq<string>)
    requires Grown(base, ctx) && forall k :: k in base ==> !Runtime(k)
    ensures Grown(base, Extend(ctx, item, depl, ids))
  {
    hide Render, HostOf, Name;
    match item {
      case NetItem(_) =>
      case SecItem(s) => assert Runtime("secrets." + Render(s.name, ctx));
      case SvcItem(v) => assert "services." <= "services." + v.name + ".name";
      case LbItem(l) => assert "resources." <= "resources.loadBalancers." + Render(l.name, ctx) + ".listenAddress";
      case DnsItem(d) => assert "resources." <= "resources.dns." + d.name + ".fqdn";
    }
  }

  function Reached(spec: Spec, params: map<string, string>, depl: string, deps: Deps, k: nat): Progress
    requires k <= Total(spec)
  {
    Run(Initial(spec, params), spec, k, depl, deps)
  }

  lemma StepExtends(p: Progress, item: Item, pos: nat, depl: string, deps: Deps)
    ensures var q := Step(p, item, pos, depl, deps);
      q.ctx == if q.ok then Extend(p.ctx, item, depl, AnswerTo(item, pos, deps).value) else p.ctx
    ensures Step(p, item, pos, depl, deps).ok <==> AnswerTo(item, pos, deps).Some?
    ensures Step(p, item, pos, depl, deps).requests == p.requests + [RequestFor(item, p.ctx, depl, deps.random(pos))]
  {
    hide RequestFor, Extend, RecordName;
  }

  /** The context never loses or changes an entry of the base context, and only runtime keys come in. */
  lemma {:induction false} ContextGrows(spec: Spec, params: map<string, string>, depl: string, deps: Deps, k: nat)
    requires k <= Total(spec)
    ensures Grown(ContextOf(spec, params), Reached(spec, params, depl, deps, k).ctx)
    ensures k <= |spec.networks| ==> Reached(spec, params, depl, deps, k).ctx == ContextOf(spec, params)
  {
    hide Step, ContextOf, Render;
    var base := ContextOf(spec, params);
    if k > 0 {
      ContextGrows(spec, params, depl, deps, k - 1);
      forall key | key in base ensures !Runtime(key) { BaseIsNotRuntime(spec, params, key); }
      var q, item := Reached(spec, params, depl, deps, k - 1), ItemAt(spec, k - 1);
      var answer := AnswerTo(item, k - 1, deps);
      StepExtends(q, item, k - 1, depl, deps);
      if q.ok && answer.Some? {
        ExtendGrows(base, q.ctx, item, depl, answer.value);
      }
    }
  }

  // ---------------------------------------------------------------- names

  /** The template an item's recorded name is rendered from. */
  function NameTemplate(item: Item): string
  {
    match item
    case NetItem(n) => n.name case SecItem(s) => s.name case SvcItem(_) => "" case LbItem(l) => l.name case DnsItem(d) => d.host
  }

  /** No entry of `ctx` that `base` lacks, and that is not empty, is mentioned. */
  ghost predicate MentionsNothingNew(template: string, base: Context, ctx: Context)
  {
    forall key :: key in Keys(template) && key in ctx && key !in base ==> ctx[key] == ""
  }

  lemma RenderGrownExactly(t: string, base: Context, ctx: Context)
    requires Grown(base, ctx)
    ensures Render(t, ctx) == Render(t, base) <==> MentionsNothingNew(t, base, ctx)
  {
    var added := map k | k in ctx && k !in base :: ctx[k];
    assert base + added == ctx;
    RenderExtendedExactly(t, base, added);
  }

  lemma RenderGrownLonger(t: string, base: Context, ctx: Context)
    requires Grown(base, ctx)
    ensures |Render(t, base)| <= |Render(t, ctx)|
  {
    SumGrows(t, base, ctx);
    RenderLength(t, base);
    RenderLength(t, ctx);
  }

  lemma NameExactly(depl: string, a: string, b: string)
    ensures Name(depl, a) == Name(depl, b) <==> a == b
  {
    if Name(depl, a) == Name(depl, b) {
      var n := |depl| + 1;
      assert a == (depl + "-" + a)[n..] == (depl + "-" + b)[n..] == b;
    }
  }

  /** A DNS record whose planned host is a fallback to its name, and whose rendered host happens to be that name. */
  predicate FallbackCoincides(item: Item, base: Context, ctx: Context)
  {
    item.DnsItem? && Render(item.d.host, base) == "" && Render(item.d.host, ctx) == item.d.name
  }

  /** The item's name comes out in `ctx` as it does in `base`, in terms of its template and the entries `ctx` has more. */
  ghost predicate SettledIn(item: Item, base: Context, ctx: Context)
  {
    MentionsNothingNew(NameTemplate(item), base, ctx) || FallbackCoincides(item, base, ctx)
  }

  /** Exactly when an item is recorded under its planned name. */
  lemma NameForetoldExactly(item: Item, base: Context, ctx: Context, depl: string)
    requires Grown(base, ctx)
    ensures RecordName(item, ctx, depl) == RecordName(item, base, depl) <==> SettledIn(item, base, ctx)
  {
    hide Render, Keys;
    var t := NameTemplate(item);
    RenderGrownExactly(t, base, ctx);
    RenderGrownLonger(t, base, ctx);
    NameExactly(depl, Render(t, ctx), Render(t, base));
    if item.SvcItem? {
      NoKeysInNothing();
    }
  }

  lemma NoKeysInNothing()
    ensures Keys("") == {}
  {}

  // ---------------------------------------------------------------- what is created, and what was planned

  function PlanKind(item: Item): string { if item.SvcItem? then "instance-group" else KindName(item) }

  /** A request by the kind and name a plan would list it under. */
  function Created(r: Request): (string, string)
  {
    match r
    case CreateNetwork(name, _, _) => ("network", name)
    case CreateSecret(name, _) => ("secret", name)
    case CreateGroup(name, _, _, _) => ("instance-group", name)
    case CreateLb(name, _, _) => ("lb", name)
    case CreateDns(_, host, _) => ("dns", host)
  }

  function AllCreated(rs: seq<Request>): seq<(string, string)>
  {
    seq(|rs|, k requires 0 <= k < |rs| => Created(rs[k]))
  }

  /** The creations a plan announces and Apply carries out: volumes are planned but never created. */
  function Announced(plan: seq<Action>): seq<(string, string)>
  {
    if plan == [] then []
    else (if plan[0].verb == "create" && plan[0].kind != "volume" then [(plan[0].kind, plan[0].name)] else [])
         + Announced(plan[1..])
  }

  /** The creations the base context foretells for the first `k` items. */
  function Foretold(spec: Spec, base: Context, depl: string, k: nat): seq<(string, string)>
    requires k <= Total(spec)
  {
    seq(k, i requires 0 <= i < k => (PlanKind(ItemAt(spec, i)), RecordName(ItemAt(spec, i), base, depl)))
  }

  lemma {:induction false} AnnouncedAppend(a: seq<Action>, b: seq<Action>)
    ensures Announced(a + b) == Announced(a) + Announced(b)
  {
    if a == [] {
      assert a + b == b;
    } else {
      assert (a + b)[1..] == a[1..] + b;
      AnnouncedAppend(a[1..], b);
    }
  }

  lemma {:induction false} AnnouncedAll(plan: seq<Action>)
    requires forall k :: 0 <= k < |plan| ==> plan[k].verb == "create" && plan[k].kind != "volume"
    ensures |Announced(plan)| == |plan| && forall k :: 0 <= k < |plan| ==> Announced(plan)[k] == (plan[k].kind, plan[k].name)
  {
    if plan != [] {
      AnnouncedAll(plan[1..]);
    }
  }

  lemma {:induction false} AnnouncedNone(plan: seq<Action>)
    requires forall k :: 0 <= k < |plan| ==> plan[k].verb != "create" || plan[k].kind == "volume"
    ensures Announced(plan) == []
  {
    if plan != [] {
      AnnouncedNone(plan[1..]);
    }
  }

  lemma AnnouncedSkips(a: seq<Action>, b: seq<Action>)
    requires forall k :: 0 <= k < |b| ==> b[k].verb != "create" || b[k].kind == "volume"
    ensures Announced(a + b) == Announced(a)
  {
    AnnouncedAppend(a, b);
    AnnouncedNone(b);
  }

  lemma AnnouncedParts(n: seq<Action>, v: seq<Action>, s: seq<Action>, i: seq<Action>,
                       g: seq<Action>, l: seq<Action>, d: seq<Action>, w: seq<Action>)
    requires forall k :: 0 <= k < |v| ==> v[k].kind == "volume"
    requires forall k :: 0 <= k < |i| ==> i[k].verb != "create"
    requires forall k :: 0 <= k < |w| ==> w[k].verb != "create"
    ensures Announced(n + v + s + i + g + l + d + w)
         == Announced(n) + Announced(s) + Announced(g) + Announced(l) + Announced(d)
  {
    hide Announced;
    AnnouncedSkips(n, v);
    AnnouncedAppend(n + v, s);
    AnnouncedSkips(n + v + s, i);
    AnnouncedAppend(n + v + s + i, g);
    AnnouncedAppend(n + v + s + i + g, l);
    AnnouncedAppend(n + v + s + i + g + l, d);
    AnnouncedSkips(n + v + s + i + g + l + d, w);
  }

  lemma PlanAnnounces(spec: Spec, params: map<string, string>, depl: string)
    ensures Announced(Planned(spec, params, depl)) == Foretold(spec, ContextOf(spec, params), depl, Total(spec))
  {
    hide Announced, Foretold, Render, HostOf, ContextOf, NetworkName, SecretName, LbName, Name;
    var ctx := ContextOf(spec, params);
    var n, v, s := NetworkActions(depl, spec.networks, ctx), VolumeActions(depl, spec.volumes, ctx), SecretActions(depl, spec.secrets, ctx);
    var i, g := ImageActions(spec, ctx), GroupActions(depl, spec.services);
    var l, d, w := LbActions(depl, spec.loadBalancers, ctx), DnsActions(spec.dns, ctx), Warnings(spec.caps);
    AnnouncedParts(n, v, s, i, g, l, d, w);
    AnnouncedAll(n);
    AnnouncedAll(s);
    AnnouncedAll(g);
    AnnouncedAll(l);
    AnnouncedAll(d);
    InOrder(spec, ctx, depl, Announced(n), Announced(s), Announced(g), Announced(l), Announced(d));
  }

  lemma InOrder(spec: Spec, ctx: Context, depl: string, n: seq<(string, string)>, s: seq<(string, string)>,
                g: seq<(string, string)>, l: seq<(string, string)>, d: seq<(string, string)>)
    requires |n| == |spec.networks| && forall k :: 0 <= k < |n| ==> n[k] == ("network", NetworkName(depl, spec.networks[k], ctx))
    requires |s| == |spec.secrets| && forall k :: 0 <= k < |s| ==> s[k] == ("secret", SecretName(depl, spec.secrets[k], ctx))
    requires |g| == |spec.services| && forall k :: 0 <= k < |g| ==> g[k] == ("instance-group", Name(depl, spec.services[k].name))
    requires |l| == |spec.loadBalancers| && forall k :: 0 <= k < |l| ==> l[k] == ("lb", LbName(depl, spec.loadBalancers[k], ctx))
    requires |d| == |spec.dns| && forall k :: 0 <= k < |d| ==> d[k] == ("dns", HostOf(spec.dns[k], ctx))
    ensures n + s + g + l + d == Foretold(spec, ctx, depl, Total(spec))
  {
    hide NetworkName, SecretName, LbName, HostOf, Name;
    var all := n + s + g + l + d;
    forall k | 0 <= k < Total(spec)
      ensures all[k] == (PlanKind(ItemAt(spec, k)), RecordName(ItemAt(spec, k), ctx, depl))
    {
      if k < Secrets(spec) {
        assert all[k] == n[k];
      } else if k < Services(spec) {
        assert all[k] == s[k - Secrets(spec)];
      } else if k < Lbs(spec) {
        assert all[k] == g[k - Services(spec)];
      } else if k < Hosts(spec) {
        assert all[k] == l[k - Lbs(spec)];
      } else {
        assert all[k] == d[k - Hosts(spec)];
      }
    }
  }

  /** Every request is for its item, under the name its context gives at that moment. */
  lemma {:induction false} RequestsMade(spec: Spec, params: map<string, string>, depl: string, deps: Deps, k: nat)
    requires k <= Total(spec) && Reached(spec, params, depl, deps, k).ok
    ensures var rs := Reached(spec, params, depl, deps, k).requests;
      |rs| == k && forall i :: 0 <= i < k ==>
        Created(rs[i]) == (PlanKind(ItemAt(spec, i)), RecordName(ItemAt(spec, i), Reached(spec, params, depl, deps, i).ctx, depl))
  {
    hide Step, ContextOf, Render, RequestFor, RecordName, Created, PlanKind;
    if k > 0 {
      var q, item := Reached(spec, params, depl, deps, k - 1), ItemAt(spec, k - 1);
      StepExtends(q, item, k - 1, depl, deps);
      RequestsMade(spec, params, depl, deps, k - 1);
      RequestCreates(item, q.ctx, depl, deps.random(k - 1));
    }
  }

  lemma RequestCreates(item: Item, ctx: Context, depl: string, random: string)
    ensures Created(RequestFor(item, ctx, depl, random)) == (PlanKind(item), RecordName(item, ctx, depl))
  {
    hide Render;
  }

  /** Item `i` is created under its planned name, in terms of its template and the entries made before its turn. */
  ghost predicate Settled(spec: Spec, params: map<string, string>, depl: string, deps: Deps, i: nat)
    requires i < Total(spec)
  {
    SettledIn(ItemAt(spec, i), ContextOf(spec, params), Reached(spec, params, depl, deps, i).ctx)
  }

  /** When every callback succeeds, Apply creates exactly what the plan announces, name for name and in its order,
      if and only if no name template mentions a non-empty entry that Apply made before its turn. */
  lemma PlanForetellsExactly(spec: Spec, params: map<string, string>, depl: string, deps: Deps)
    requires Applied(spec, params, depl, deps).ok
    ensures AllCreated(Applied(spec, params, depl, deps).requests) == Announced(Planned(spec, params, depl))
       <==> forall i :: 0 <= i < Total(spec) ==> Settled(spec, params, depl, deps, i)
  {
    var n, base := Total(spec), ContextOf(spec, params);
    RequestsMade(spec, params, depl, deps, n);
    PlanAnnounces(spec, params, depl);
    var made, planned := AllCreated(Applied(spec, params, depl, deps).requests), Foretold(spec, base, depl, n);
    assert |made| == |planned| == n;
    forall i | 0 <= i < n
      ensures made[i] == planned[i] <==> Settled(spec, params, depl, deps, i)
    {
      ContextGrows(spec, params, depl, deps, i);
      NameForetoldExactly(ItemAt(spec, i), base, Reached(spec, params, depl, deps, i).ctx, depl);
    }
    if made == planned {
      assert forall i :: 0 <= i < n ==> made[i] == planned[i];
    }
  }

  /** A spec whose secret, load balancer and host templates mention no runtime key can be trusted to its plan,
      whatever ids the callbacks return. */
  lemma PlanForetells(spec: Spec, params: map<string, string>, depl: string, deps: Deps)
    requires Applied(spec, params, depl, deps).ok
    requires forall i, key :: |spec.networks| <= i < Total(spec) && key in Keys(NameTemplate(ItemAt(spec, i))) ==> !Runtime(key)
    ensures AllCreated(Applied(spec, params, depl, deps).requests) == Announced(Planned(spec, params, depl))
  {
    forall i | 0 <= i < Total(spec)
      ensures Settled(spec, params, depl, deps, i)
    {
      ContextGrows(spec, params, depl, deps, i);
    }
    PlanForetellsExactly(spec, params, depl, deps);
  }

  // ---------------------------------------------------------------- one run decides

  function LongestName(ds: seq<Dns>): nat
  {
    if ds == [] then 0 else if |ds[0].name| > LongestName(ds[1..]) then |ds[0].name| else LongestName(ds[1..])
  }

  lemma {:induction false} LongestNameIs(ds: seq<Dns>, k: nat)
    requires k < |ds|
    ensures |ds[k].name| <= LongestName(ds)
  {
    if k > 0 {
      LongestNameIs(ds[1..], k - 1);
    }
  }

  function LongId(spec: Spec): string { seq(LongestName(spec.dns) + 1, _ => 'i') }

  /** An environment that tells: all callbacks succeed, with ids longer than every DNS record's own name. */
  function Telling(spec: Spec): Deps
  {
    var id := LongId(spec);
    Deps(_ => Some(id), _ => Some([]), _ => "", true)
  }

  lemma {:induction false} TellingSucceeds(spec: Spec, params: map<string, string>, depl: string, k: nat)
    requires k <= Total(spec)
    ensures Reached(spec, params, depl, Telling(spec), k).ok
  {
    hide Step, ContextOf;
    if k > 0 {
      TellingSucceeds(spec, params, depl, k - 1);
      StepExtends(Reached(spec, params, depl, Telling(spec), k - 1), ItemAt(spec, k - 1), k - 1, depl, Telling(spec));
    }
  }

  /** The same keys, with the same values but where the telling value is long. */
  ghost predicate Close(ctx: Context, telling: Context, max: nat)
  {
    && ctx.Keys == telling.Keys
    && forall k :: k in ctx ==> ctx[k] == telling[k] || |telling[k]| > max
  }

  lemma RenderClose(t: string, ctx: Context, telling: Context, max: nat)
    requires Close(ctx, telling, max)
    ensures Render(t, ctx) == Render(t, telling) || |Render(t, telling)| > max
  {
    hide Render, Keys, SumOfLengths;
    if key :| key in Keys(t) && Lookup(ctx, key) != Lookup(telling, key) {
      RenderLength(t, telling);
      SumCovers(t, telling, key);
    } else {
      RenderFrame(t, ctx, telling);
    }
  }

  /** What is settled in the telling context is settled in every context close to it. */
  lemma SettledClose(item: Item, base: Context, ctx: Context, telling: Context, max: nat)
    requires Close(ctx, telling, max) && (item.DnsItem? ==> |item.d.name| <= max) && SettledIn(item, base, telling)
    ensures SettledIn(item, base, ctx)
  {
    hide Render, Keys;
    if FallbackCoincides(item, base, telling) {
      RenderClose(item.d.host, ctx, telling, max);
    }
  }

  /** A settled item leaves an entry under the same key in both contexts. */
  lemma ExtendClose(item: Item, base: Context, ctx: Context, telling: Context, max: nat, depl: string, ids: seq<string>, id: string)
    requires Close(ctx, telling, max) && (item.DnsItem? ==> |item.d.name| <= max) && |id| > max
    requires Grown(base, ctx) && Grown(base, telling) && SettledIn(item, base, telling)
    ensures Close(Extend(ctx, item, depl, ids), Extend(telling, item, depl, [id]), max)
  {
    hide Render, Grown, SettledIn;
    SettledClose(item, base, ctx, telling, max);
    NameForetoldExactly(item, base, ctx, depl);
    NameForetoldExactly(item, base, telling, depl);
    match item {
      case NetItem(_) =>
      case SecItem(s) => NameExactly(depl, Render(s.name, ctx), Render(s.name, telling));
      case SvcItem(_) =>
      case LbItem(l) =>
        NameExactly(depl, Render(l.name, ctx), Render(l.name, telling));
        RenderClose(l.listenPort, ctx, telling, max);
      case DnsItem(_) =>
    }
  }

  /** While the telling run is settled, every run stays close to it, and settled. */
  lemma {:induction false} RunsClose(spec: Spec, params: map<string, string>, depl: string, deps: Deps, k: nat)
    requires k <= Total(spec) && Reached(spec, params, depl, deps, k).ok
    requires forall i :: 0 <= i < k ==> Settled(spec, params, depl, Telling(spec), i)
    ensures Close(Reached(spec, params, depl, deps, k).ctx, Reached(spec, params, depl, Telling(spec), k).ctx, LongestName(spec.dns))
    ensures forall i :: 0 <= i < k ==> Settled(spec, params, depl, deps, i)
  {
    hide Step, ContextOf, Close, SettledIn, LongestName, Grown, Telling, ItemAt;
    var tell, max := Telling(spec), LongestName(spec.dns);
    if k == 0 {
      SameIsClose(ContextOf(spec, params), max);
    } else {
      var q, t := Reached(spec, params, depl, deps, k - 1), Reached(spec, params, depl, tell, k - 1);
      StepExtends(q, ItemAt(spec, k - 1), k - 1, depl, deps);
      RunsClose(spec, params, depl, deps, k - 1);
      TellingSucceeds(spec, params, depl, k - 1);
      ContextGrows(spec, params, depl, deps, k - 1);
      ContextGrows(spec, params, depl, tell, k - 1);
      assert Settled(spec, params, depl, tell, k - 1);
      StepClose(spec, ContextOf(spec, params), q, t, depl, deps, k - 1);
      assert Settled(spec, params, depl, deps, k - 1);
      assert Reached(spec, params, depl, deps, k) == Step(q, ItemAt(spec, k - 1), k - 1, depl, deps);
      assert Reached(spec, params, depl, tell, k) == Step(t, ItemAt(spec, k - 1), k - 1, depl, tell);
      hide *;
    }
  }

  /** One turn in any run, and in the telling run. */
  lemma StepClose(spec: Spec, base: Context, q: Progress, t: Progress, depl: string, deps: Deps, k: nat)
    requires k < Total(spec) && Close(q.ctx, t.ctx, LongestName(spec.dns)) && Grown(base, q.ctx) && Grown(base, t.ctx)
    requires Step(q, ItemAt(spec, k), k, depl, deps).ok && SettledIn(ItemAt(spec, k), base, t.ctx)
    ensures SettledIn(ItemAt(spec, k), base, q.ctx)
    ensures Close(Step(q, ItemAt(spec, k), k, depl, deps).ctx, Step(t, ItemAt(spec, k), k, depl, Telling(spec)).ctx,
                  LongestName(spec.dns))
  {
    hide Step, Close, Grown, Extend, SettledIn, LongestName, LongId;
    var item, max, id := ItemAt(spec, k), LongestName(spec.dns), LongId(spec);
    if item.DnsItem? {
      LongestNameIs(spec.dns, k - Hosts(spec));
    }
    LongIdIsLong(spec);
    SettledClose(item, base, q.ctx, t.ctx, max);
    StepExtends(q, item, k, depl, deps);
    StepExtends(t, item, k, depl, Telling(spec));
    ExtendClose(item, base, q.ctx, t.ctx, max, depl, AnswerTo(item, k, deps).value, id);
    if item.SvcItem? {
      ServiceIdsDoNotMatter(t.ctx, item, depl, id);
    }
  }

  lemma SameIsClose(ctx: Context, max: nat)
    ensures Close(ctx, ctx, max)
  {}

  lemma LongIdIsLong(spec: Spec)
    ensures |LongId(spec)| > LongestName(spec.dns)
  {}

  lemma ServiceIdsDoNotMatter(ctx: Context, item: Item, depl: string, id: string)
    requires item.SvcItem?
    ensures Extend(ctx, item, depl, []) == Extend(ctx, item, depl, [id])
  {}

  /** Whatever the environment answers, what is created is what was announced. */
  ghost predicate AlwaysForetold(spec: Spec, params: map<string, string>, depl: string)
  {
    forall deps: Deps :: Applied(spec, params, depl, deps).ok ==>
      AllCreated(Applied(spec, params, depl, deps).requests) == Announced(Planned(spec, params, depl))
  }

  /** Exactly which specs their plan is right about under every environment: those for which the telling run finds
      no name or host template that mentions an entry an earlier item made with a value, host fallbacks aside. */
  lemma OneRunDecides(spec: Spec, params: map<string, string>, depl: string)
    ensures AlwaysForetold(spec, params, depl) <==>
      forall i :: 0 <= i < Total(spec) ==> Settled(spec, params, depl, Telling(spec), i)
  {
    hide Settled, AllCreated, Announced, Run;
    var tell := Telling(spec);
    TellingSucceeds(spec, params, depl, Total(spec));
    PlanForetellsExactly(spec, params, depl, tell);
    if forall i :: 0 <= i < Total(spec) ==> Settled(spec, params, depl, tell, i) {
      forall deps: Deps | Applied(spec, params, depl, deps).ok
        ensures AllCreated(Applied(spec, params, depl, deps).requests) == Announced(Planned(spec, params, depl))
      {
        RunsClose(spec, params, depl, deps, Total(spec));
        PlanForetellsExactly(spec, params, depl, deps);
      }
    }
  }

  // ---------------------------------------------------------------- the whole plan

  /** Everything a plan says will be created or built. */
  function Promised(plan: seq<Action>): seq<(string, string)>
  {
    if plan == [] then []
    else (if plan[0].verb == "create" || plan[0].verb == "build" then [(plan[0].kind, plan[0].name)] else [])
         + Promised(plan[1..])
  }

  /** A volume or an image build: Apply has no loop for these. */
  predicate Unkept(a: Action) { (a.verb == "create" && a.kind == "volume") || a.verb == "build" }

  lemma {:induction false} PromisedExactly(plan: seq<Action>)
    ensures if exists a :: a in plan && Unkept(a) then |Announced(plan)| < |Promised(plan)| else Announced(plan) == Promised(plan)
  {
    if plan != [] {
      var rest := plan[1..];
      PromisedExactly(rest);
      assert forall a :: a in plan <==> a == plan[0] || a in rest by {
        assert plan == [plan[0]] + rest;
      }
      assert Unkept(plan[0]) ==> plan[0] in plan;
      assert (exists a :: a in rest && Unkept(a)) ==> exists a :: a in plan && Unkept(a);
    }
  }

  lemma PlannedUnkept(spec: Spec, params: map<string, string>, depl: string)
    ensures (exists a :: a in Planned(spec, params, depl) && Unkept(a)) <==>
      spec.volumes != [] || (spec.build.Some? && spec.build.value.enabled)
  {
    hide Render, HostOf, ContextOf, NetworkName, SecretName, LbName, Name;
    var ctx, plan := ContextOf(spec, params), Planned(spec, params, depl);
    if spec.volumes != [] {
      var a := VolumeActions(depl, spec.volumes, ctx)[0];
      assert a in plan && Unkept(a);
    }
    if spec.build.Some? && spec.build.value.enabled {
      var a := ImageActions(spec, ctx)[0];
      assert a in plan && Unkept(a);
    }
  }

  /** When every callback succeeds, Apply carries out the whole plan if and only if the spec has no volumes,
      no build is enabled, and every item is created under its planned name. */
  lemma WholePlanExactly(spec: Spec, params: map<string, string>, depl: string, deps: Deps)
    requires Applied(spec, params, depl, deps).ok
    ensures AllCreated(Applied(spec, params, depl, deps).requests) == Promised(Planned(spec, params, depl)) <==>
      && spec.volumes == [] && !(spec.build.Some? && spec.build.value.enabled)
      && forall i :: 0 <= i < Total(spec) ==> Settled(spec, params, depl, deps, i)
  {
    PlanForetellsExactly(spec, params, depl, deps);
    PromisedExactly(Planned(spec, params, depl));
    PlannedUnkept(spec, params, depl);
    RequestsMade(spec, params, depl, deps, Total(spec));
    PlanAnnounces(spec, params, depl);
    hide Settled, Announced, Promised, Planned, Run, Unkept, ContextOf;
    assert |AllCreated(Applied(spec, params, depl, deps).requests)| == |Announced(Planned(spec, params, depl))|;
  }

  const WITH_VOLUME := Spec("bottle", "b", "1", "", map[], None, [], ["v"], [], [], [], [], map[], Capabilities(false, false, false))

  /** This bottle is valid, its apply succeeds in every environment, and the volume it announces is not created. */
  lemma VolumeIsNeverCreated(deps: Deps)
    ensures Valid(WITH_VOLUME, map[]) && Applied(WITH_VOLUME, map[], "d", deps).ok
    ensures Promised(Planned(WITH_VOLUME, map[], "d")) == [("volume", "d-v")]
    ensures AllCreated(Applied(WITH_VOLUME, map[], "d", deps).requests) == []
  {
    var ctx := ContextOf(WITH_VOLUME, map[]);
    PlainV(ctx);
    hide Render, ContextOf;
    assert Name("d", "v") == "d-v";
    var plan := Planned(WITH_VOLUME, map[], "d");
    assert plan == [Action("create", "volume", "d-v")];
    hide Planned;
    assert plan[1..] == [];
  }

  lemma PlainV(ctx: Context)
    ensures Render("v", ctx) == "v"
  {
    assert MatchLen("v") == 0 && "v"[1..] == "";
  }

  // ---------------------------------------------------------------- what is recorded

  function Recorded(rs: seq<Resource>, kind: string): seq<string>
  {
    if rs == [] then [] else
    Recorded(rs[..|rs| - 1], kind) + if rs[|rs| - 1].kind == kind then [rs[|rs| - 1].name] else []
  }

  /** The planned names of one kind among the first `k` items; a service's once for each instance launched for it. */
  function Names(spec: Spec, base: Context, depl: string, deps: Deps, kind: string, k: nat): seq<string>
    requires k <= Total(spec)
  {
    if k == 0 then [] else
    var item := ItemAt(spec, k - 1);
    var answer := AnswerTo(item, k - 1, deps);
    Names(spec, base, depl, deps, kind, k - 1) +
    if KindName(item) == kind && answer.Some? then seq(|answer.value|, _ => RecordName(item, base, depl)) else []
  }

  lemma {:induction false} RecordedAppend(rs: seq<Resource>, k: string, name: string, ids: seq<string>, kind: string)
    ensures Recorded(rs + Records(k, name, ids), kind) ==
            Recorded(rs, kind) + if k == kind then seq(|ids|, _ => name) else []
  {
    if ids == [] {
      assert rs + Records(k, name, ids) == rs;
    } else {
      var n := |ids| - 1;
      var all := rs + Records(k, name, ids);
      assert all[..|all| - 1] == rs + Records(k, name, ids[..n]);
      RecordedAppend(rs, k, name, ids[..n], kind);
      assert seq(|ids|, _ => name) == seq(n, _ => name) + [name];
    }
  }

  /** After a successful Apply of a spec the plan foretells, the resources recorded of each kind carry the planned names,
      in the planned order: one resource a network, secret, load balancer and DNS record, and for each service
      one instance for every id its group launched, all under the planned group's name. */
  lemma {:induction false} RecordedAsPlanned(spec: Spec, params: map<string, string>, depl: string, deps: Deps, kind: string, k: nat)
    requires k <= Total(spec) && Reached(spec, params, depl, deps, k).ok
    requires forall i :: 0 <= i < k ==> Settled(spec, params, depl, deps, i)
    ensures Recorded(Reached(spec, params, depl, deps, k).resources, kind)
         == Names(spec, ContextOf(spec, params), depl, deps, kind, k)
  {
    hide ContextOf, Render, RecordName, KindName, Step, ItemAt, AnswerTo, SettledIn, Recorded;
    if k > 0 {
      var q, item, base := Reached(spec, params, depl, deps, k - 1), ItemAt(spec, k - 1), ContextOf(spec, params);
      StepRecords(q, item, k - 1, depl, deps, kind);
      RecordedAsPlanned(spec, params, depl, deps, kind, k - 1);
      ContextGrows(spec, params, depl, deps, k - 1);
      assert Settled(spec, params, depl, deps, k - 1);
      NameForetoldExactly(item, base, q.ctx, depl);
    } else {
      assert Recorded([], kind) == [] by { NothingRecorded(kind); }
    }
  }

  lemma NothingRecorded(kind: string)
    ensures Recorded([], kind) == []
  {}

  /** What one turn adds to the record. */
  lemma StepRecords(q: Progress, item: Item, pos: nat, depl: string, deps: Deps, kind: string)
    ensures var t, answer := Step(q, item, pos, depl, deps), AnswerTo(item, pos, deps);
      && (t.ok <==> answer.Some?)
      && (t.ok ==>
            var added := if KindName(item) == kind then seq(|answer.value|, _ => RecordName(item, q.ctx, depl)) else [];
            Recorded(t.resources, kind) == Recorded(q.resources, kind) + added)
  {
    hide RequestFor, Extend, RecordName, KindName, AnswerTo, Recorded;
    var answer := AnswerTo(item, pos, deps);
    if answer.Some? {
      RecordedAppend(q.resources, KindName(item), RecordName(item, q.ctx, depl), answer.value, kind);
    }
  }

  /** The names under which a plan creates things of one kind. */
  function PlanNames(plan: seq<Action>, kind: string): seq<string>
  {
    if plan == [] then [] else
    var a := plan[|plan| - 1];
    PlanNames(plan[..|plan| - 1], kind) + if a.verb == "create" && a.kind == kind then [a.name] else []
  }

  function PairNames(ps: seq<(string, string)>, kind: string): seq<string>
  {
    if ps == [] then [] else
    PairNames(ps[..|ps| - 1], kind) + if ps[|ps| - 1].0 == kind then [ps[|ps| - 1].1] else []
  }

  lemma PairNamesSnoc(ps: seq<(string, string)>, p: (string, string), kind: string)
    ensures PairNames(ps + [p], kind) == PairNames(ps, kind) + if p.0 == kind then [p.1] else []
  {
    assert (ps + [p])[..|ps|] == ps;
  }

  lemma {:induction false} PlanNamesAnnounced(plan: seq<Action>, kind: string)
    requires kind != "volume"
    ensures PlanNames(plan, kind) == PairNames(Announced(plan), kind)
  {
    if plan != [] {
      var n := |plan| - 1;
      var a := plan[n];
      PlanNamesAnnounced(plan[..n], kind);
      AnnouncedAppend(plan[..n], [a]);
      assert plan == plan[..n] + [a];
      AnnouncedOne(a);
      PairNamesSnoc(Announced(plan[..n]), (a.kind, a.name), kind);
      assert Announced(plan[..n]) + [] == Announced(plan[..n]);
    }
  }

  lemma AnnouncedOne(a: Action)
    ensures Announced([a]) == if a.verb == "create" && a.kind != "volume" then [(a.kind, a.name)] else []
  {
    assert [a][1..] == [] && Announced([]) == [];
  }

  const SINGLE_KINDS := { "network", "secret", "lb", "dns" }

  lemma {:induction false} NamesForetold(spec: Spec, base: Context, depl: string, deps: Deps, kind: string, k: nat)
    requires k <= Total(spec) && kind in SINGLE_KINDS
    requires forall i :: 0 <= i < k ==> AnswerTo(ItemAt(spec, i), i, deps).Some?
    ensures Names(spec, base, depl, deps, kind, k) == PairNames(Foretold(spec, base, depl, k), kind)
  {
    hide RecordName, KindName, PairNames, ItemAt;
    if k > 0 {
      var item := ItemAt(spec, k - 1);
      var pair := (PlanKind(item), RecordName(item, base, depl));
      NamesForetold(spec, base, depl, deps, kind, k - 1);
      ForetoldSnoc(spec, base, depl, k);
      PairNamesSnoc(Foretold(spec, base, depl, k - 1), pair, kind);
      SingleKind(item, k - 1, deps, RecordName(item, base, depl), kind);
    } else {
      assert Foretold(spec, base, depl, 0) == [] && PairNames([], kind) == [] by {
        NoPairs(kind);
      }
    }
  }

  lemma NoPairs(kind: string)
    ensures PairNames([], kind) == []
  {}

  lemma ForetoldSnoc(spec: Spec, base: Context, depl: string, k: nat)
    requires 0 < k <= Total(spec)
    ensures Foretold(spec, base, depl, k) ==
            Foretold(spec, base, depl, k - 1) + [(PlanKind(ItemAt(spec, k - 1)), RecordName(ItemAt(spec, k - 1), base, depl))]
  {
    hide RecordName, ItemAt, PlanKind;
  }

  /** Everything but a service is planned under the kind it is recorded under, and answered with one id. */
  lemma SingleKind(item: Item, pos: nat, deps: Deps, name: string, kind: string)
    requires kind in SINGLE_KINDS && AnswerTo(item, pos, deps).Some?
    ensures PlanKind(item) == kind <==> KindName(item) == kind
    ensures KindName(item) == kind ==> seq(|AnswerTo(item, pos, deps).value|, _ => name) == [name]
  {}

  lemma {:induction false} AllAnswered(spec: Spec, params: map<string, string>, depl: string, deps: Deps, k: nat)
    requires k <= Total(spec) && Reached(spec, params, depl, deps, k).ok
    ensures forall i :: 0 <= i < k ==> AnswerTo(ItemAt(spec, i), i, deps).Some?
  {
    hide Step, ContextOf;
    if k > 0 {
      StepExtends(Reached(spec, params, depl, deps, k - 1), ItemAt(spec, k - 1), k - 1, depl, deps);
      AllAnswered(spec, params, depl, deps, k - 1);
    }
  }

  /** Where every item is settled, the networks, secrets, load balancers and DNS records recorded are, in order,
      the ones the plan lists. */
  lemma RecordedAreThePlans(spec: Spec, params: map<string, string>, depl: string, deps: Deps, kind: string)
    requires Applied(spec, params, depl, deps).ok && kind in SINGLE_KINDS
    requires forall i :: 0 <= i < Total(spec) ==> Settled(spec, params, depl, deps, i)
    ensures Recorded(Applied(spec, params, depl, deps).resources, kind) == PlanNames(Planned(spec, params, depl), kind)
  {
    hide Settled, Recorded, Names, PlanNames, PairNames, Announced, Planned, Foretold, Run, ContextOf;
    AllAnswered(spec, params, depl, deps, Total(spec));
    RecordedAsPlanned(spec, params, depl, deps, kind, Total(spec));
    NamesForetold(spec, ContextOf(spec, params), depl, deps, kind, Total(spec));
    PlanAnnounces(spec, params, depl);
    PlanNamesAnnounced(Planned(spec, params, depl), kind);
  }

  // ---------------------------------------------------------------- the networks services join

  /** The network service `i` is launched on is one that Apply created. */
  predicate Attached(rs: seq<Request>, spec: Spec, i: nat)
    requires i < |spec.services| && Services(spec) + i < |rs|
  {
    exists n :: 0 <= n < |spec.networks| && rs[n].name == Attachment(rs[Services(spec) + i])
  }

  function Attachment(r: Request): string { if r.CreateGroup? then r.network else "" }

  predicate NamesANetwork(spec: Spec, ctx: Context, network: string)
  {
    exists n :: 0 <= n < |spec.networks| && Render(spec.networks[n].name, ctx) == network
  }

  lemma {:induction false} RequestsKept(p: Progress, spec: Spec, k: nat, depl: string, deps: Deps)
    requires k <= Total(spec) && Run(p, spec, k, depl, deps).ok && p.requests == []
    ensures var rs := Run(p, spec, k, depl, deps).requests;
      |rs| == k && forall i :: 0 <= i < k ==>
        rs[i] == RequestFor(ItemAt(spec, i), Run(p, spec, i, depl, deps).ctx, depl, deps.random(i))
  {
    hide Step, RequestFor, Extend, ItemAt, AnswerTo;
    if k > 0 {
      var q := Run(p, spec, k - 1, depl, deps);
      StepExtends(q, ItemAt(spec, k - 1), k - 1, depl, deps);
      RequestsKept(p, spec, k - 1, depl, deps);
      assert Run(p, spec, k, depl, deps) == Step(q, ItemAt(spec, k - 1), k - 1, depl, deps);
      hide *;
    }
  }

  /** Exactly when the services of an applied bottle join networks it created: Apply renders a network's own name
      but not a service's reference to it, so the reference must equal the rendered name. */
  lemma AttachedExactly(spec: Spec, params: map<string, string>, depl: string, deps: Deps, i: nat)
    requires Applied(spec, params, depl, deps).ok && i < |spec.services|
    ensures var rs := Applied(spec, params, depl, deps).requests;
      |rs| == Total(spec) && (Attached(rs, spec, i) <==> NamesANetwork(spec, ContextOf(spec, params), spec.services[i].network))
  {
    hide ContextOf, Render, Run, Name;
    var p, base := Initial(spec, params), ContextOf(spec, params);
    var rs := Applied(spec, params, depl, deps).requests;
    RequestsKept(p, spec, Total(spec), depl, deps);
    assert rs[Services(spec) + i] == RequestFor(SvcItem(spec.services[i]), Run(p, spec, Services(spec) + i, depl, deps).ctx, depl, deps.random(Services(spec) + i));
    forall n | 0 <= n < |spec.networks|
      ensures rs[n].name == Attachment(rs[Services(spec) + i]) <==> Render(spec.networks[n].name, base) == spec.services[i].network
    {
      ContextGrows(spec, params, depl, deps, n);
      assert rs[n] == RequestFor(NetItem(spec.networks[n]), base, depl, deps.random(n));
      NameExactly(depl, Render(spec.networks[n].name, base), spec.services[i].network);
    }
  }

  /** Validation compares the raw names, so where no network name is a template, a validated bottle's service joins a network
      that was created exactly when it names one, or some network has the empty name ... */
  lemma PlainNetworksAttach(spec: Spec, params: map<string, string>, depl: string, deps: Deps, i: nat)
    requires Applied(spec, params, depl, deps).ok && Valid(spec, params) && i < |spec.services|
    requires forall n :: 0 <= n < |spec.networks| ==> !HasPlaceholder(spec.networks[n].name)
    ensures |Applied(spec, params, depl, deps).requests| == Total(spec)
    ensures Attached(Applied(spec, params, depl, deps).requests, spec, i) <==>
      spec.services[i].network != "" || exists n :: 0 <= n < |spec.networks| && spec.networks[n].name == ""
  {
    hide ContextOf, Render, Run;
    AttachedExactly(spec, params, depl, deps, i);
    forall n | 0 <= n < |spec.networks|
      ensures Render(spec.networks[n].name, ContextOf(spec, params)) == spec.networks[n].name
    {
      NoKeysNoPlaceholder(spec.networks[n].name);
      RenderWithoutKeys(spec.networks[n].name, ContextOf(spec, params));
    }
    assert ValidService(spec, spec.services[i]);
  }

  /** A service without a network is launched on the bare prefix, which was created only if some network renders to nothing. */
  lemma NoNetworkDangles(spec: Spec, params: map<string, string>, depl: string, deps: Deps, i: nat)
    requires Applied(spec, params, depl, deps).ok && i < |spec.services| && spec.services[i].network == ""
    ensures var rs := Applied(spec, params, depl, deps).requests;
      && |rs| == Total(spec) && Attachment(rs[Services(spec) + i]) == depl + "-"
      && (Attached(rs, spec, i) <==> NamesANetwork(spec, ContextOf(spec, params), ""))
  {
    hide ContextOf, Render, Run;
    AttachedExactly(spec, params, depl, deps, i);
    RequestsKept(Initial(spec, params), spec, Total(spec), depl, deps);
    assert ItemAt(spec, Services(spec) + i) == SvcItem(spec.services[i]);
    assert depl + "-" + "" == depl + "-";
  }

  /** ... but not elsewhere: this bottle is valid, and its service joins a network that was never created. */
  const DANGLING := Spec("bottle", "b", "1", "", map[], None, [Network("{{n}}", "nat", "")], [], [], [], [],
                         [Service("s", "i", "1", "{{n}}", [])], map[], Capabilities(false, false, false))

  lemma RenderUnknown(ctx: Context)
    requires "n" !in ctx
    ensures Render("{{n}}", ctx) == ""
  {
    assert "{{n}}"[2..] == "n}}" && "n}}"[1..] == "}}" && UpToBrace("}}") == 0 && UpToBrace("n}}") == 1;
    assert MatchLen("{{n}}") == 5 && "{{n}}"[2..3] == "n" && "{{n}}"[5..] == "";
    assert Trim("n", SPACES) == "n";
  }

  lemma DanglingNetwork(deps: Deps)
    requires Applied(DANGLING, map[], "d", deps).ok
    ensures Valid(DANGLING, map[])
    ensures |Applied(DANGLING, map[], "d", deps).requests| == Total(DANGLING)
    ensures !Attached(Applied(DANGLING, map[], "d", deps).requests, DANGLING, 0)
  {
    hide Run, Render, ContextOf;
    var ctx := ContextOf(DANGLING, map[]);
    ContextBinds(DANGLING, map[]);
    assert !Binds(DANGLING, map[], "n");
    RenderUnknown(ctx);
    assert DANGLING.networks[0].name == DANGLING.services[0].network;
    AttachedExactly(DANGLING, map[], "d", deps, 0);
  }
}
