/** The autoscale reconciler (internal/autoscale/reconciler.go): cooldowns, blocked changes and the audit log, over whole runs. */
module Autoscale {
  import opened Arithmetic
  import opened Clock
  import opened Options

  datatype Decision = ScaleOut | ScaleIn | Hold | Blocked | Disabled | Error

  /** What an evaluator says besides, for the log: its own count, the metric it looked at, and its reason. */
  datatype Note = Note(recommended: int, metric: string, value: real, target: real, reason: string)

  datatype Recommendation = Recommendation(decision: Decision, newReplicas: int, blocked: bool, note: Note)

  /** An evaluator's answer: a recommendation, alone or with an error. */
  datatype Answer = Advice(rec: Recommendation) | Failure(rec: Recommendation)

  /** `last` is the whole second of the last scaling; None for an empty or unreadable LastScaleAt. */
  datatype Policy = Policy(id: string, groupId: string, outCooldown: int, inCooldown: int, last: Option<int>)

  datatype Record = Record(policyId: string, groupId: string, oldReplicas: int, newReplicas: int, decision: Decision, blocked: bool, note: Note)

  /** What an evaluation meets outside: the clock, the evaluator (given the current count), and whether
      resolving it, reading the group, setting it and storing the scaling time succeed. */
  datatype Env = Env(now: nat, evaluate: int -> Answer, resolves: bool, readable: bool, sets: bool, stores: bool)

  datatype State = State(policies: map<string, Policy>, groups: map<string, int>, log: seq<Record>)

  predicate Scales(d: Decision) { d == ScaleOut || d == ScaleIn }

  /** In seconds. */
  function Cooldown(p: Policy, d: Decision): (c: int)
    ensures c > 0
  {
    if d == ScaleOut then if p.outCooldown <= 0 then 60 else p.outCooldown
    else if p.inCooldown <= 0 then 300 else p.inCooldown
  }

  predicate CoolingDown(p: Policy, d: Decision, now: int)
  {
    p.last.Some? && now - p.last.value * SECOND < Cooldown(p, d) * SECOND
  }

  function Count(s: State, group: string): int { if group in s.groups then s.groups[group] else 0 }

  function Refused(rec: Recommendation, current: int): Recommendation
  {
    rec.(decision := Blocked, newReplicas := current, blocked := true)
  }

  /** The recommendation after the cooldown check. */
  function Checked(p: Policy, rec: Recommendation, current: int, now: int): Recommendation
  {
    if Scales(rec.decision) && CoolingDown(p, rec.decision, now) then Refused(rec, current) else rec
  }

  predicate Wants(p: Policy, rec: Recommendation, current: int, now: int)
  {
    !Checked(p, rec, current, now).blocked && Checked(p, rec, current, now).newReplicas != current
  }

  function RecordOf(p: Policy, rec: Recommendation, current: int): Record
  {
    Record(p.id, p.groupId, current, rec.newReplicas, rec.decision, rec.blocked, rec.note)
  }

  function Stamp(s: State, id: string, now: nat): map<string, Policy>
  {
    if id in s.policies then s.policies[id := s.policies[id].(last := Some(now / SECOND))] else s.policies
  }

  /** One evaluation of `p`. */
  function Step(s: State, p: Policy, env: Env): State
  {
    if !env.resolves || !env.readable then s else
    var current := Count(s, p.groupId);
    match env.evaluate(current)
    case Failure(rec) => s.(log := s.log + [RecordOf(p, rec, current)])
    case Advice(rec) =>
      var checked := Checked(p, rec, current, env.now);
      if !Wants(p, rec, current, env.now) then s.(log := s.log + [RecordOf(p, checked, current)])
      else if !env.sets then s.(log := s.log + [RecordOf(p, Refused(checked, current), current)])
      else State(if env.stores then Stamp(s, p.id, env.now) else s.policies,
                 s.groups[p.groupId := checked.newReplicas],
                 s.log + [RecordOf(p, checked, current)])
  }

  class Reconciler {
    var policies: map<string, Policy>
    var groups: map<string, int>
    var log: seq<Record>

    constructor (policies: map<string, Policy>, groups: map<string, int>)
      ensures View() == State(policies, groups, [])
    {
      this.policies, this.groups, this.log := policies, groups, [];
    }

    function View(): State
      reads this
    {
      State(policies, groups, log)
    }

    method CooldownBlocked(p: Policy, d: Decision, now: nat) returns (blocked: bool)
      ensures blocked == CoolingDown(p, d, now)
    {
      if p.last.None? {
        return false;
      }
      var cooldown;
      if d == ScaleOut {
        cooldown := p.outCooldown;
        if cooldown <= 0 {
          cooldown := 60;
        }
      } else {
        cooldown := p.inCooldown;
        if cooldown <= 0 {
          cooldown := 300;
        }
      }
      var elapsed := now - p.last.value * SECOND;
      return elapsed < cooldown * SECOND;
    }

    method UpdateLastScale(id: string, now: nat)
      modifies this`policies
      ensures policies == Stamp(old(View()), id, now)
    {
      if id in policies {
        policies := policies[id := policies[id].(last := Some(now / SECOND))];
      }
    }

    method RecordDecision(p: Policy, rec: Recommendation, oldReplicas: int)
      modifies this`log
      ensures log == old(log) + [RecordOf(p, rec, oldReplicas)]
    {
      log := log + [Record(p.id, p.groupId, oldReplicas, rec.newReplicas, rec.decision, rec.blocked, rec.note)];
    }

    /** None is the error return without a recommendation. */
    method Evaluate(p: Policy, env: Env) returns (out: Option<Recommendation>)
      modifies this
      ensures View() == Step(old(View()), p, env)
      ensures out.None? <==> !env.resolves || !env.readable
      ensures out.Some? ==> log == old(log) + [RecordOf(p, out.value, Count(old(View()), p.groupId))]
    {
      if !env.resolves {
        return None;
      }
      if !env.readable {
        return None;
      }
      var current := if p.groupId in groups then groups[p.groupId] else 0;
      var answer := env.evaluate(current);
      var rec := answer.rec;
      if answer.Failure? {
        RecordDecision(p, rec, current);
        return Some(rec);
      }
      if rec.decision == ScaleOut || rec.decision == ScaleIn {
        var blocked := CooldownBlocked(p, rec.decision, env.now);
        if blocked {
          rec := rec.(blocked := true, decision := Blocked, newReplicas := current);
        }
      }
      if !rec.blocked && rec.newReplicas != current {
        if !env.sets {
          rec := rec.(blocked := true, decision := Blocked, newReplicas := current);
        } else {
          groups := groups[p.groupId := rec.newReplicas];
          if env.stores {
            UpdateLastScale(p.id, env.now);
          }
        }
      }
      RecordDecision(p, rec, current);
      return Some(rec);
    }

    /** One pass over the enabled policies, in the order the store lists them, each as it was when the pass began. */
    method Reconcile(order: seq<string>, envs: seq<Env>)
      requires |order| == |envs| && forall i, j :: 0 <= i < j < |order| ==> order[i] != order[j]
      requires forall i :: 0 <= i < |order| ==> order[i] in policies && policies[order[i]].id == order[i]
      modifies this
      ensures View() == After(old(View()), Events(order, envs))
    {
      var listed := policies;
      var events := Events(order, envs);
      assert events[..0] == [];
      for i := 0 to |order|
        invariant View() == After(old(View()), events[..i])
        invariant forall k :: i <= k < |order| ==> order[k] in policies && policies[order[k]] == listed[order[k]]
      {
        assert events[..i + 1][..i] == events[..i];
        var p := listed[order[i]];
        var _ := Evaluate(p, envs[i]);
      }
      assert events[..|order|] == events;
    }
  }

  // ---------------------------------------------------------------- runs

  /** One evaluation of the policy stored under `id`, as EvaluatePolicy does it. */
  datatype Event = Event(id: string, env: Env)

  function Events(order: seq<string>, envs: seq<Env>): seq<Event>
    requires |order| == |envs|
  {
    seq(|order|, k requires 0 <= k < |order| => Event(order[k], envs[k]))
  }

  function StepEvent(s: State, e: Event): State { if e.id in s.policies then Step(s, s.policies[e.id], e.env) else s }

  function After(s: State, es: seq<Event>): State
  {
    if es == [] then s else StepEvent(After(s, es[..|es| - 1]), es[|es| - 1])
  }

  // ---------------------------------------------------------------- what evaluators promise

  /** Advice is unblocked and changes the count only by scaling; an error leaves the count as it is. */
  predicate Sound(a: Answer, current: int)
  {
    match a
    case Advice(r) => !r.blocked && (r.newReplicas != current ==> Scales(r.decision))
    case Failure(r) => r.newReplicas == current
  }

  ghost predicate SoundEnv(env: Env) { forall current :: Sound(env.evaluate(current), current) }

  ghost predicate SoundRun(es: seq<Event>) { forall k :: 0 <= k < |es| ==> SoundEnv(es[k].env) }

  // ---------------------------------------------------------------- the audit log

  function GroupLog(log: seq<Record>, group: string): seq<Record>
  {
    if log == [] then []
    else GroupLog(log[..|log| - 1], group) + if log[|log| - 1].groupId == group then [log[|log| - 1]] else []
  }

  /** The records lead from `first` to `last`, each starting where the one before it ended. */
  predicate Chain(rs: seq<Record>, first: int, last: int)
  {
    if rs == [] then first == last
    else rs[|rs| - 1].newReplicas == last && Chain(rs[..|rs| - 1], first, rs[|rs| - 1].oldReplicas)
  }

  lemma GroupLogSnoc(log: seq<Record>, r: Record, group: string)
    ensures GroupLog(log + [r], group) == GroupLog(log, group) + if r.groupId == group then [r] else []
  {
    assert (log + [r])[..|log|] == log;
  }

  /** Exactly when an evaluation's record is true: it always starts at the group's count before, and it ends at
      the count after unless an error, or advice that came blocked, carried some other count. */
  lemma RecordTrueExactly(s: State, p: Policy, env: Env)
    requires env.resolves && env.readable
    ensures var t := Step(s, p, env); var current := Count(s, p.groupId); var a := env.evaluate(current);
      && |t.log| == |s.log| + 1 && t.log[..|s.log|] == s.log
      && var r := t.log[|s.log|];
      && r.policyId == p.id && r.groupId == p.groupId && r.oldReplicas == current && r.note == a.rec.note
      && (forall g :: g != p.groupId ==> Count(t, g) == Count(s, g))
      && (r.newReplicas == Count(t, p.groupId) <==>
            match a
            case Failure(rec) => rec.newReplicas == current
            case Advice(rec) => !rec.blocked || rec.newReplicas == current || Checked(p, rec, current, env.now) != rec)
  {
    var current := Count(s, p.groupId);
    assert Step(s, p, env).log[..|s.log|] == s.log;
  }

  /** `t` is `s` with one more record, which starts and ends at its group's counts. */
  ghost predicate Adds(s: State, t: State, r: Record)
  {
    && t.log == s.log + [r]
    && r.oldReplicas == Count(s, r.groupId) && r.newReplicas == Count(t, r.groupId)
    && forall g :: g != r.groupId ==> Count(t, g) == Count(s, g)
  }

  /** One event appends at most one record, and a true one. */
  lemma EventIsTrue(s: State, e: Event) returns (r: Record)
    requires SoundEnv(e.env)
    ensures StepEvent(s, e) == s || Adds(s, StepEvent(s, e), r)
  {
    r := Record("", "", 0, 0, Hold, false, Note(0, "", 0.0, 0.0, ""));
    if e.id in s.policies && e.env.resolves && e.env.readable {
      var p := s.policies[e.id];
      RecordTrueExactly(s, p, e.env);
      assert Sound(e.env.evaluate(Count(s, p.groupId)), Count(s, p.groupId));
      var t := Step(s, p, e.env);
      r := t.log[|s.log|];
      assert t.log == s.log + [r];
    }
  }

  lemma ChainSnoc(rs: seq<Record>, r: Record, first: int)
    requires Chain(rs, first, r.oldReplicas)
    ensures Chain(rs + [r], first, r.newReplicas)
  {
    assert (rs + [r])[..|rs|] == rs;
  }

  /** The records logged since the log was `logged` lead a group from `first` to its count. */
  predicate Replays(logged: seq<Record>, s: State, group: string, first: int)
  {
    logged <= s.log && Chain(GroupLog(s.log[|logged|..], group), first, Count(s, group))
  }

  lemma ReplayStep(logged: seq<Record>, s: State, t: State, r: Record, group: string, first: int)
    requires Replays(logged, s, group, first) && Adds(s, t, r)
    ensures Replays(logged, t, group, first)
  {
    hide Chain, GroupLog;
    var added := s.log[|logged|..];
    assert t.log[|logged|..] == added + [r];
    GroupLogSnoc(added, r, group);
    if r.groupId == group {
      ChainSnoc(GroupLog(added, group), r, first);
    } else {
      assert GroupLog(added, group) + [] == GroupLog(added, group);
    }
  }

  /** The records a run adds for a group lead from its count before the run to its count after it,
      whichever policies target it, and whether changes were made, blocked, refused or failed to evaluate. */
  lemma {:induction false} AuditReplays(s: State, es: seq<Event>, group: string)
    requires SoundRun(es)
    ensures Replays(s.log, After(s, es), group, Count(s, group))
  {
    if es == [] {
      assert s.log[|s.log|..] == [];
    } else {
      hide StepEvent, Replays;
      var n := |es| - 1;
      var q := After(s, es[..n]);
      AuditReplays(s, es[..n], group);
      var r := EventIsTrue(q, es[n]);
      if StepEvent(q, es[n]) != q {
        ReplayStep(s.log, q, StepEvent(q, es[n]), r, group, Count(s, group));
      }
    }
  }

  // ---------------------------------------------------------------- when a change is made

  /** The decision scales nothing, nothing was stored, or the direction's seconds (60 and 300 by default) have passed
      since the stored one. */
  predicate WaitedOut(p: Policy, d: Decision, now: nat)
  {
    var seconds := if d == ScaleOut then if p.outCooldown > 0 then p.outCooldown else 60
                   else if p.inCooldown > 0 then p.inCooldown else 300;
    (d != ScaleOut && d != ScaleIn) || p.last == None || now - p.last.value * 1_000_000_000 >= seconds * 1_000_000_000
  }

  /** Exactly when advice of another count is carried out, and logged as such: when it waited out its cooldown and the
      group can be set.  Then the policy remembers the second, and otherwise all stays as it was and the record says blocked. */
  lemma ChangeExactly(s: State, p: Policy, env: Env, current: int, rec: Recommendation)
    requires env.resolves && env.readable && current == (if p.groupId in s.groups then s.groups[p.groupId] else 0)
    requires env.evaluate(current) == Advice(rec) && !rec.blocked && rec.newReplicas != current
    ensures var t, made := Step(s, p, env), env.sets && WaitedOut(p, rec.decision, env.now);
      && |t.log| == |s.log| + 1
      && var r := t.log[|s.log|];
      && (made <==> Count(t, p.groupId) == rec.newReplicas) && (made <==> r.decision == rec.decision && !r.blocked)
      && (made ==> t.groups == s.groups[p.groupId := rec.newReplicas] &&
                   r == Record(p.id, p.groupId, current, rec.newReplicas, rec.decision, false, rec.note))
      && (!made ==> t.groups == s.groups && r == Record(p.id, p.groupId, current, current, Blocked, true, rec.note))
      && t.policies == (if made && env.stores && p.id in s.policies
                        then s.policies[p.id := s.policies[p.id].(last := Some(env.now / 1_000_000_000))] else s.policies)
  {}

  /** Nothing else changes a group: not an evaluation that cannot be made or fails, not blocked advice, not advice of the
      count there is.  The record of a failure, and of advice that need not wait, is the advice as it came. */
  lemma NoChangeExactly(s: State, p: Policy, env: Env, current: int)
    requires current == (if p.groupId in s.groups then s.groups[p.groupId] else 0)
    ensures var t := Step(s, p, env);
      && (!env.resolves || !env.readable ==> t == s)
      && (env.resolves && env.readable ==>
            match env.evaluate(current)
            case Failure(rec) =>
              t == s.(log := s.log + [Record(p.id, p.groupId, current, rec.newReplicas, rec.decision, rec.blocked, rec.note)])
            case Advice(rec) =>
              rec.blocked || rec.newReplicas == current ==>
                t == s.(log := s.log + [if WaitedOut(p, rec.decision, env.now)
                          then Record(p.id, p.groupId, current, rec.newReplicas, rec.decision, rec.blocked, rec.note)
                          else Record(p.id, p.groupId, current, current, Blocked, true, rec.note)]))
  {}

  lemma {:induction false} RunsCompose(s: State, a: seq<Event>, b: seq<Event>)
    ensures After(s, a + b) == After(After(s, a), b)
    decreases |b|
  {
    if b == [] {
      assert a + b == a;
    } else {
      var n := |b| - 1;
      assert (a + b)[..|a + b| - 1] == a + b[..n];
      RunsCompose(s, a, b[..n]);
    }
  }

  /** A pass evaluates its policies in the order they are listed. */
  lemma PassGoesOn(s: State, id: string, env: Env, order: seq<string>, envs: seq<Env>)
    requires |order| == |envs| && id in s.policies
    ensures After(s, Events([id] + order, [env] + envs)) == After(Step(s, s.policies[id], env), Events(order, envs))
  {
    hide Step;
    var first := [Event(id, env)];
    assert Events([id] + order, [env] + envs) == first + Events(order, envs);
    RunsCompose(s, first, Events(order, envs));
    assert first[..0] == [] && After(s, []) == s && After(s, first) == StepEvent(s, first[0]);
  }

  // ---------------------------------------------------------------- cooldowns

  /** A change a policy made to its group: when, and by which decision. */
  datatype Change = Change(now: nat, decision: Decision)

  /** The change event `e` makes in state `s`, if any. */
  function ChangeBy(s: State, e: Event): Option<Change>
  {
    if e.id !in s.policies || !e.env.resolves || !e.env.readable then None else
    var p := s.policies[e.id];
    var current := Count(s, p.groupId);
    match e.env.evaluate(current)
    case Failure(_) => None
    case Advice(rec) =>
      if Wants(p, rec, current, e.env.now) && e.env.sets then Some(Change(e.env.now, rec.decision)) else None
  }

  /** The changes policy `id` made during a run. */
  function Changes(s: State, es: seq<Event>, id: string): seq<Change>
  {
    if es == [] then [] else
    var n := |es| - 1;
    Changes(s, es[..n], id) +
    if es[n].id == id && ChangeBy(After(s, es[..n]), es[n]).Some? then [ChangeBy(After(s, es[..n]), es[n]).value] else []
  }

  function Seconds(c: Change): int { c.now / SECOND }

  /** Every change comes at least its direction's cooldown after the second in which the one before it was made. */
  predicate Spaced(p: Policy, cs: seq<Change>)
  {
    forall k :: 0 < k < |cs| ==>
      Scales(cs[k].decision) && cs[k].now - Seconds(cs[k - 1]) * SECOND >= Cooldown(p, cs[k].decision) * SECOND
  }

  /** The stored policy, but for the time of its last scaling. */
  predicate SamePolicy(p: Policy, q: Policy) { p.(last := None) == q.(last := None) }

  lemma {:induction false} RunKeepsPolicies(s: State, es: seq<Event>, id: string)
    requires id in s.policies && forall i :: i in s.policies ==> s.policies[i].id == i
    ensures id in After(s, es).policies && SamePolicy(After(s, es).policies[id], s.policies[id])
    ensures After(s, es).policies.Keys == s.policies.Keys
    ensures forall i :: i in After(s, es).policies ==> After(s, es).policies[i].id == i
  {
    if es != [] {
      RunKeepsPolicies(s, es[..|es| - 1], id);
    }
  }

  /** `cs` are the changes that took policy `p` to its state `now`, each after the cooldown of the one before
      (the first after that of the scaling `p` remembers),
      and `now` remembers the last of them to the second. */
  predicate Tracks(p: Policy, cs: seq<Change>, now: Policy)
  {
    && Spaced(p, cs)
    && SamePolicy(now, p)
    && now.last == (if cs == [] then p.last else Some(Seconds(cs[|cs| - 1])))
    && (cs != [] ==> !CoolingDown(p, cs[0].decision, cs[0].now))
    && forall k :: 0 <= k < |cs| ==> Scales(cs[k].decision)
  }

  /** In every run of sound evaluators, whatever the clock does, each change a policy makes comes at least
      its cooldown after the second in which that policy's previous change was made. */
  lemma {:induction false} CooldownHolds(s: State, es: seq<Event>, id: string)
    requires id in s.policies && forall i :: i in s.policies ==> s.policies[i].id == i
    requires SoundRun(es) && forall k :: 0 <= k < |es| ==> es[k].env.stores
    ensures id in After(s, es).policies && Tracks(s.policies[id], Changes(s, es, id), After(s, es).policies[id])
  {
    hide StepEvent, ChangeBy, Tracks;
    RunKeepsPolicies(s, es, id);
    if es == [] {
      Untouched(s.policies[id]);
    } else {
      var n := |es| - 1;
      var q, e := After(s, es[..n]), es[n];
      RunKeepsPolicies(s, es[..n], id);
      CooldownHolds(s, es[..n], id);
      StepStamps(q, e, id);
      var c := if e.id == id then ChangeBy(q, e) else None;
      TracksOn(s.policies[id], Changes(s, es[..n], id), q.policies[id], c, After(s, es).policies[id], e.env.now);
    }
  }

  lemma Untouched(p: Policy)
    ensures Tracks(p, [], p)
  {}

  lemma TracksOn(p: Policy, cs: seq<Change>, q: Policy, c: Option<Change>, r: Policy, now: int)
    requires Tracks(p, cs, q) && SamePolicy(r, q)
    requires c.None? ==> r.last == q.last
    requires c.Some? ==> r.last == Some(Seconds(c.value)) && c.value.now == now
    requires c.Some? ==> Scales(c.value.decision) && !CoolingDown(q, c.value.decision, now)
    ensures Tracks(p, cs + if c.Some? then [c.value] else [], r)
  {
    if c.None? {
      assert cs + [] == cs;
    }
  }

  /** How one event moves a policy's last scaling time. */
  lemma StepStamps(s: State, e: Event, id: string)
    requires id in s.policies && forall i :: i in s.policies ==> s.policies[i].id == i
    requires e.env.stores && SoundEnv(e.env)
    ensures var t, c := StepEvent(s, e), ChangeBy(s, e);
      && id in t.policies && SamePolicy(t.policies[id], s.policies[id])
      && t.policies[id].last == (if e.id == id && c.Some? then Some(Seconds(c.value)) else s.policies[id].last)
      && (e.id == id && c.Some? ==> c.value.now == e.env.now && Scales(c.value.decision) && !CoolingDown(s.policies[id], c.value.decision, e.env.now))
  {
    if e.id in s.policies {
      var current := Count(s, s.policies[e.id].groupId);
      assert Sound(e.env.evaluate(current), current);
    }
  }

  /** The policy as it is stored once it has scaled at `prev`. */
  function Scaled(p: Policy, prev: nat): Policy { p.(last := Some(prev / SECOND)) }

  /** Exactly which waits the check lets through: the cooldown, less the fraction of a second that was not stored. */
  lemma AllowedExactly(p: Policy, d: Decision, prev: nat, t: int)
    ensures !CoolingDown(Scaled(p, prev), d, t) <==> t - prev >= Cooldown(p, d) * SECOND - prev % SECOND
  {
    assert prev == (prev / SECOND) * SECOND + prev % SECOND;
  }

  /** No change that comes after one at `prev` gets through before its cooldown is over. */
  ghost predicate FullCooldown(p: Policy, d: Decision, prev: nat)
  {
    forall t: nat :: t >= prev && !CoolingDown(Scaled(p, prev), d, t) ==> t - prev >= Cooldown(p, d) * SECOND
  }

  /** Exactly when the cooldown is kept in full: when the change before fell on a whole second. */
  lemma FullCooldownExactly(p: Policy, d: Decision, prev: nat)
    ensures FullCooldown(p, d, prev) <==> prev % SECOND == 0
  {
    if prev % SECOND == 0 {
      forall t: nat | t >= prev && !CoolingDown(Scaled(p, prev), d, t)
        ensures t - prev >= Cooldown(p, d) * SECOND
      {
        AllowedExactly(p, d, prev, t);
      }
    } else {
      var t: nat := prev + Cooldown(p, d) * SECOND - prev % SECOND;
      AllowedExactly(p, d, prev, t);
    }
  }

  /** So over a run a change comes less than one second short of its cooldown, never short of it by the stored
      seconds, and not short at all where the change before fell on a whole second. */
  lemma CooldownInRealTime(p: Policy, cs: seq<Change>, k: nat)
    requires Spaced(p, cs) && 0 < k < |cs|
    ensures cs[k].now - cs[k - 1].now > (Cooldown(p, cs[k].decision) - 1) * SECOND
    ensures Seconds(cs[k]) - Seconds(cs[k - 1]) >= Cooldown(p, cs[k].decision)
    ensures cs[k - 1].now % SECOND == 0 ==> cs[k].now - cs[k - 1].now >= Cooldown(p, cs[k].decision) * SECOND
  {
    var prev, next := cs[k - 1], cs[k];
    AllowedExactly(p, next.decision, prev.now, next.now);
    FullCooldownExactly(p, next.decision, prev.now);
    assert next.now == Seconds(next) * SECOND + next.now % SECOND;
  }

  /** One nanosecond before a whole second, and a change 59 seconds and a nanosecond later passes a cooldown of 60. */
  lemma CooldownFallsShort()
    ensures var p := Policy("p", "g", 60, 300, None);
      && !FullCooldown(p, ScaleOut, SECOND - 1)
      && !CoolingDown(Scaled(p, SECOND - 1), ScaleOut, SECOND - 1 + 59 * SECOND + 1)
  {
    var p := Policy("p", "g", 60, 300, None);
    FullCooldownExactly(p, ScaleOut, SECOND - 1);
    AllowedExactly(p, ScaleOut, SECOND - 1, SECOND - 1 + 59 * SECOND + 1);
  }

  function ScaleOuts(cs: seq<Change>): nat
  {
    if cs == [] then 0 else ScaleOuts(cs[..|cs| - 1]) + if cs[|cs| - 1].decision == ScaleOut then 1 else 0
  }

  lemma {:induction false} ScaleOutsTakeTime(p: Policy, cs: seq<Change>)
    requires Spaced(p, cs) && cs != []
    ensures (ScaleOuts(cs) - 1) * Cooldown(p, ScaleOut) <= Seconds(cs[|cs| - 1]) - Seconds(cs[0])
  {
    var n := |cs| - 1;
    if n > 0 {
      var before := cs[..n];
      SpacedSlice(p, cs, 0, n);
      ScaleOutsTakeTime(p, before);
      SecondsApart(p, cs, n);
      hide Spaced, Cooldown, Seconds;
      assert before[0] == cs[0] && before[n - 1] == cs[n - 1];
      OneMore(ScaleOuts(before), Cooldown(p, ScaleOut));
    } else {
      assert cs[..0] == [];
    }
  }

  lemma SecondsApart(p: Policy, cs: seq<Change>, k: nat)
    requires Spaced(p, cs) && 0 < k < |cs|
    ensures Seconds(cs[k]) - Seconds(cs[k - 1]) >= Cooldown(p, cs[k].decision)
  {
    CooldownInRealTime(p, cs, k);
  }

  lemma OneMore(outs: nat, c: int)
    ensures (outs + 1 - 1) * c == (outs - 1) * c + c
  {}

  /** A stretch of a policy's changes that spans at most `t` seconds holds at most t/cooldown + 1 scale-outs. */
  lemma ScaleOutsInWindow(p: Policy, cs: seq<Change>, i: nat, j: nat, t: nat)
    requires Spaced(p, cs) && i < j <= |cs| && Seconds(cs[j - 1]) - Seconds(cs[i]) <= t
    ensures ScaleOuts(cs[i..j]) <= t / Cooldown(p, ScaleOut) + 1
  {
    SpacedSlice(p, cs, i, j);
    ScaleOutsTakeTime(p, cs[i..j]);
    Quotient(ScaleOuts(cs[i..j]) - 1, Cooldown(p, ScaleOut), t);
  }

  lemma SpacedSlice(p: Policy, cs: seq<Change>, i: nat, j: nat)
    requires Spaced(p, cs) && i <= j <= |cs|
    ensures Spaced(p, cs[i..j])
  {
    var w := cs[i..j];
    forall k | 0 < k < |w|
      ensures Scales(w[k].decision) && w[k].now - Seconds(w[k - 1]) * SECOND >= Cooldown(p, w[k].decision) * SECOND
    {
      assert w[k] == cs[i + k] && w[k - 1] == cs[i + k - 1];
    }
  }

  lemma Quotient(n: int, c: int, t: nat)
    requires c > 0 && n * c <= t
    ensures n <= t / c
  {
    var q := t / c;
    assert t < q * c + c == (q + 1) * c;
    if q + 1 <= n {
      Mono(q + 1, n, c);
    }
  }

  // ---------------------------------------------------------------- the evaluators that ship

  datatype Limits = Limits(min: int, max: int)

  function Clamp(v: int, l: Limits): int { if v < l.min then l.min else if l.max > 0 && v > l.max then l.max else v }

  function Ceil(x: real): int { -((-x).Floor) }

  /** What a group carries when each of its replicas carries `metric`. */
  function Load(replicas: int, metric: real): real { replicas as real * metric }

  /** The quotient, rounded up. */
  function Rounds(a: real, b: real): int
    requires b != 0.0
  {
    Ceil(a / b)
  }

  function Towards(desired: int, current: int, note: Note): Answer
  {
    Advice(Recommendation(if desired > current then ScaleOut else if desired < current then ScaleIn else Hold, desired, false, note))
  }

  function Stay(d: Decision, current: int, note: Note): Recommendation { Recommendation(d, current, false, note) }

  /** Target tracking; a missing metric is a failed query. */
  function TargetAnswer(enabled: bool, metric: Option<real>, target: real, l: Limits, current: int, note: Note): Answer
  {
    if !enabled then Advice(Stay(Disabled, current, note))
    else if metric.None? then Failure(Stay(Error, current, note))
    else if target <= 0.0 then Advice(Stay(Hold, current, note))
    else
      var raw := if current == 0 && metric.value > 0.0 then l.min else Rounds(Load(current, metric.value), target);
      Towards(Clamp(raw, l), current, note)
  }

  function StepOr1(step: int): int { if step <= 0 then 1 else step }

  function ThresholdAnswer(enabled: bool, metric: Option<real>, outAt: real, inAt: real, outStep: int, inStep: int,
                           l: Limits, current: int, note: Note): Answer
  {
    if !enabled then Advice(Stay(Disabled, current, note))
    else if metric.None? then Failure(Stay(Error, current, note))
    else if outAt > 0.0 && metric.value >= outAt then
      Advice(Recommendation(ScaleOut, Clamp(current + StepOr1(outStep), l), false, note))
    else if inAt > 0.0 && metric.value <= inAt then
      Advice(Recommendation(ScaleIn, Clamp(current - StepOr1(inStep), l), false, note))
    else Advice(Stay(Hold, current, note))
  }

  /** Queue depth; a missing name or depth is an error. */
  function QueueAnswer(enabled: bool, named: bool, depth: Option<nat>, target: real, l: Limits, current: int, note: Note): Answer
  {
    if !enabled then Advice(Stay(Disabled, current, note))
    else if !named || depth.None? then Failure(Stay(Error, current, note))
    else
      var per := if target <= 0.0 then 50.0 else target;
      Towards(Clamp(if depth.value == 0 then l.min else Rounds(depth.value as real, per), l), current, note)
  }

  /** A schedule's best entry: Failure for unreadable entries, None where no entry has fired. */
  function ScheduleAnswer(enabled: bool, readable: bool, desired: Option<int>, l: Limits, current: int, note: Note): Answer
  {
    if !enabled then Advice(Stay(Disabled, current, note))
    else if !readable then Failure(Stay(Error, current, note))
    else if desired.None? then Advice(Stay(Hold, current, note))
    else Towards(Clamp(desired.value, l), current, note)
  }

  /** `n` is `raw`, or the limit it is beyond; a maximum of nothing or less is none. */
  predicate Limited(raw: int, n: int, l: Limits)
  {
    if raw < l.min then n == l.min else if l.max > 0 && raw > l.max then n == l.max else n == raw
  }

  lemma CeilIs(x: real)
    ensures (Ceil(x) - 1) as real < x <= Ceil(x) as real
  {}

  lemma QuotientBelow(a: real, b: real, y: real)
    requires b > 0.0 && y < a / b
    ensures y * b < a
  {
    assert a / b * b == a;
    assert (a / b - y) * b > 0.0;
  }

  lemma QuotientAbove(a: real, b: real, y: real)
    requires b > 0.0 && a / b <= y
    ensures a <= y * b
  {
    assert a / b * b == a;
    assert (y - a / b) * b >= 0.0;
  }

  lemma RoundsIs(a: real, b: real)
    requires b > 0.0
    ensures (Rounds(a, b) - 1) as real * b < a <= Rounds(a, b) as real * b
  {
    var n := Rounds(a, b);
    CeilIs(a / b);
    QuotientBelow(a, b, (n - 1) as real);
    QuotientAbove(a, b, n as real);
  }

  /** Target tracking advises the fewest replicas that carry the load at the target, within the limits. */
  lemma TargetFollowsLoad(metric: real, target: real, l: Limits, current: int, note: Note) returns (raw: int)
    requires target > 0.0 && !(current == 0 && metric > 0.0)
    ensures (raw - 1) as real * target < current as real * metric <= raw as real * target
    ensures var r := TargetAnswer(true, Some(metric), target, l, current, note).rec;
      Limited(raw, r.newReplicas, l) && (r.decision == ScaleOut <==> r.newReplicas > current) && (r.decision == ScaleIn <==> r.newReplicas < current)
  {
    hide Rounds;
    raw := Rounds(Load(current, metric), target);
    RoundsIs(Load(current, metric), target);
  }

  /** A queue gets the fewest workers with at most the target of jobs each (50 by default), within the limits. */
  lemma QueueFollowsDepth(depth: nat, target: real, l: Limits, current: int, note: Note) returns (raw: int)
    requires depth > 0
    ensures var per := if target > 0.0 then target else 50.0; (raw - 1) as real * per < depth as real <= raw as real * per
    ensures var r := QueueAnswer(true, true, Some(depth), target, l, current, note).rec;
      Limited(raw, r.newReplicas, l) && (r.decision == ScaleOut <==> r.newReplicas > current) && (r.decision == ScaleIn <==> r.newReplicas < current)
  {
    hide Rounds;
    var per := if target <= 0.0 then 50.0 else target;
    raw := Rounds(depth as real, per);
    RoundsIs(depth as real, per);
  }

  /** Thresholds step out at the upper one, in at the lower one (by one by default), and hold in between. */
  lemma ThresholdSteps(metric: real, outAt: real, inAt: real, outStep: int, inStep: int, l: Limits, current: int, note: Note)
    ensures var r := ThresholdAnswer(true, Some(metric), outAt, inAt, outStep, inStep, l, current, note).rec;
      if outAt > 0.0 && metric >= outAt then
        r.decision == ScaleOut && Limited(current + (if outStep > 0 then outStep else 1), r.newReplicas, l)
      else if inAt > 0.0 && metric <= inAt then
        r.decision == ScaleIn && Limited(current - (if inStep > 0 then inStep else 1), r.newReplicas, l)
      else r.decision == Hold && r.newReplicas == current
  {}

  /** Where the limits leave room, advice to scale or stay put by the metric keeps within them. */
  lemma AdviceWithinLimits(metric: real, target: real, depth: nat, desired: int, l: Limits, current: int, note: Note)
    requires l.min <= l.max && l.max > 0 && target > 0.0
    ensures l.min <= TargetAnswer(true, Some(metric), target, l, current, note).rec.newReplicas <= l.max
    ensures l.min <= QueueAnswer(true, true, Some(depth), target, l, current, note).rec.newReplicas <= l.max
    ensures l.min <= ScheduleAnswer(true, true, Some(desired), l, current, note).rec.newReplicas <= l.max
  {
    hide Rounds;
  }

  /** All four evaluators are sound, so the audit and cooldown results hold of every run with them. */
  lemma ShippedEvaluatorsAreSound(enabled: bool, named: bool, metric: Option<real>, depth: Option<nat>, desired: Option<int>,
                                  x: real, y: real, m: int, n: int, l: Limits, current: int, note: Note)
    ensures Sound(TargetAnswer(enabled, metric, x, l, current, note), current)
    ensures Sound(ThresholdAnswer(enabled, metric, x, y, m, n, l, current, note), current)
    ensures Sound(QueueAnswer(enabled, named, depth, x, l, current, note), current)
    ensures Sound(ScheduleAnswer(enabled, named, desired, l, current, note), current)
  {}

  /** The threshold evaluator's scale-out lowers the count exactly when the group stands above its maximum. */
  lemma ScaleOutDirection(metric: real, outAt: real, inAt: real, outStep: int, inStep: int, l: Limits, current: int, note: Note)
    requires outAt > 0.0 && metric >= outAt
    ensures var r := ThresholdAnswer(true, Some(metric), outAt, inAt, outStep, inStep, l, current, note).rec;
      r.decision == ScaleOut &&
      (r.newReplicas < current <==> current + StepOr1(outStep) >= l.min && 0 < l.max < current)
  {}
}
