/** The usage ledger and project quotas (internal/billing/types.go), and the instance launches that use them. */
module Billing {
  import opened Arithmetic

  datatype Usage = Usage(project: string, resource: string, id: string, unitType: string, units: int)

  /** What a quota is set on. */
  datatype Scope = Scope(project: string, resource: string)

  predicate In(u: Usage, s: Scope) { u.project == s.project && u.resource == s.resource }

  /** SELECT COALESCE(SUM(units), 0) for one scope, and for one resource id in it. */
  function Total(log: seq<Usage>, s: Scope): int
  {
    if log == [] then 0 else
    Total(log[..|log| - 1], s) + if In(log[|log| - 1], s) then log[|log| - 1].units else 0
  }

  function Balance(log: seq<Usage>, s: Scope, id: string): int
  {
    if log == [] then 0 else
    var u := log[|log| - 1];
    Balance(log[..|log| - 1], s, id) + if In(u, s) && u.id == id then u.units else 0
  }

  /** CheckQuota passes: no quota row, an unlimited quota, an unreadable usage table, or room left. */
  predicate Admits(log: seq<Usage>, quotas: map<Scope, int>, s: Scope, readable: bool)
  {
    s !in quotas || quotas[s] <= 0 || !readable || Total(log, s) < quotas[s]
  }

  class Manager {
    var log: seq<Usage>
    var quotas: map<Scope, int>

    constructor ()
      ensures log == [] && quotas == map[]
    {
      log, quotas := [], map[];
    }

    method SetQuota(s: Scope, limit: int)
      modifies this`quotas
      ensures quotas == old(quotas)[s := limit]
    {
      quotas := quotas[s := limit];
    }

    method RecordUsage(s: Scope, id: string, unitType: string, units: int)
      modifies this`log
      ensures log == old(log) + [Usage(s.project, s.resource, id, unitType, units)]
      ensures Total(log, s) == old(Total(log, s)) + units
      ensures forall t :: t != s ==> Total(log, t) == old(Total(log, t))
      ensures forall t, i :: Balance(log, t, i) == old(Balance(log, t, i)) + if t == s && i == id then units else 0
    {
      var u := Usage(s.project, s.resource, id, unitType, units);
      log := log + [u];
      assert log[..|log| - 1] == old(log);
    }

    /** A release lowers the scope's total by the id's balance, and touches no other id; a second one adds nothing. */
    method ReleaseUsage(s: Scope, id: string)
      modifies this`log
      ensures old(Balance(log, s, id)) <= 0 ==> log == old(log)
      ensures var b := old(Balance(log, s, id));
        b > 0 ==> log == old(log) + [Usage(s.project, s.resource, id, "release", -b)]
      ensures var b := old(Balance(log, s, id));
        Total(log, s) == old(Total(log, s)) - (if b > 0 then b else 0) && Balance(log, s, id) == if b > 0 then 0 else b
      ensures forall t :: t != s ==> Total(log, t) == old(Total(log, t))
      ensures forall t, i :: t != s || i != id ==> Balance(log, t, i) == old(Balance(log, t, i))
    {
      var total := Balance(log, s, id);
      if total <= 0 {
        return;
      }
      RecordUsage(s, id, "release", -total);
    }

    method CheckQuota(s: Scope, readable: bool) returns (ok: bool)
      ensures ok == Admits(log, quotas, s, readable)
    {
      if s !in quotas {
        return true;
      }
      if quotas[s] <= 0 {
        return true;
      }
      if !readable {
        return true;
      }
      var used := Total(log, s);
      return used < quotas[s];
    }

    method ReleaseTwice(s: Scope, id: string)
      modifies this`log
      ensures Balance(log, s, id) <= 0
    {
      ReleaseUsage(s, id);
      label Once:
      ReleaseUsage(s, id);
      assert log == old@Once(log);
    }
  }

  /** A check passes exactly when the count after one more unit is within the limit; a limit of nothing or less,
      no limit, and a table that cannot be read let everything pass. */
  lemma AdmitsExactly(log: seq<Usage>, quotas: map<Scope, int>, s: Scope, readable: bool, one: Usage)
    requires one.project == s.project && one.resource == s.resource && one.units == 1
    ensures s in quotas && quotas[s] > 0 && readable ==> (Admits(log, quotas, s, readable) <==> Total(log + [one], s) <= quotas[s])
    ensures s in quotas && quotas[s] <= 0 ==> Admits(log, quotas, s, readable)
    ensures s !in quotas || !readable ==> Admits(log, quotas, s, readable)
  {
    TotalSnoc(log, one, s);
  }

  // ---------------------------------------------------------------- the total is the sum of the balances

  ghost function Sum(m: map<string, int>): int
  {
    if m == map[] then 0 else
    var k :| k in m;
    m[k] + Sum(m - {k})
  }

  lemma {:induction false} SumWithout(m: map<string, int>, k: string)
    requires k in m
    ensures Sum(m) == m[k] + Sum(m - {k})
    decreases |m|
  {
    var j :| j in m && Sum(m) == m[j] + Sum(m - {j});
    if j != k {
      SumWithout(m - {j}, k);
      SumWithout(m - {k}, j);
      assert m - {j} - {k} == m - {k} - {j};
    }
  }

  lemma SumUpdate(m: map<string, int>, k: string, v: int)
    ensures Sum(m[k := v]) == Sum(m) - (if k in m then m[k] else 0) + v
  {
    SumWithout(m[k := v], k);
    if k in m {
      SumWithout(m, k);
      assert m[k := v] - {k} == m - {k};
    } else {
      assert m[k := v] - {k} == m;
    }
  }

  function Ids(log: seq<Usage>, s: Scope): set<string> { set k | 0 <= k < |log| && In(log[k], s) :: log[k].id }

  function Balances(log: seq<Usage>, s: Scope): map<string, int> { map id | id in Ids(log, s) :: Balance(log, s, id) }

  lemma {:induction false} NoUsageNoBalance(log: seq<Usage>, s: Scope, id: string)
    requires id !in Ids(log, s)
    ensures Balance(log, s, id) == 0
  {
    if log != [] {
      var rest := log[..|log| - 1];
      assert forall k :: 0 <= k < |rest| && In(rest[k], s) ==> log[k] == rest[k] && rest[k].id in Ids(log, s);
      NoUsageNoBalance(rest, s, id);
      assert In(log[|log| - 1], s) ==> log[|log| - 1].id in Ids(log, s);
    }
  }

  lemma TotalSnoc(log: seq<Usage>, u: Usage, s: Scope)
    ensures Total(log + [u], s) == Total(log, s) + if In(u, s) then u.units else 0
    ensures forall id :: Balance(log + [u], s, id) == Balance(log, s, id) + if In(u, s) && u.id == id then u.units else 0
  {
    assert (log + [u])[..|log|] == log;
  }

  lemma BalanceListed(log: seq<Usage>, s: Scope, id: string)
    ensures Balance(log, s, id) == if id in Balances(log, s) then Balances(log, s)[id] else 0
  {
    if id !in Ids(log, s) {
      NoUsageNoBalance(log, s, id);
    }
  }

  lemma BalancesSnoc(log: seq<Usage>, u: Usage, s: Scope)
    requires In(u, s)
    ensures Balances(log + [u], s) == Balances(log, s)[u.id := Balance(log, s, u.id) + u.units]
  {
    hide Balance;
    TotalSnoc(log, u, s);
    var all := log + [u];
    forall id
      ensures id in Ids(all, s) <==> id in Ids(log, s) || id == u.id
    {
      if id in Ids(log, s) {
        var k :| 0 <= k < |log| && In(log[k], s) && log[k].id == id;
        assert all[k] == log[k];
      }
      assert all[|log|] == u;
    }
  }

  lemma BalancesOther(log: seq<Usage>, u: Usage, s: Scope)
    requires !In(u, s)
    ensures Balances(log + [u], s) == Balances(log, s)
  {
    hide Balance;
    TotalSnoc(log, u, s);
    var all := log + [u];
    forall id
      ensures id in Ids(all, s) <==> id in Ids(log, s)
    {
      if id in Ids(log, s) {
        var k :| 0 <= k < |log| && In(log[k], s) && log[k].id == id;
        assert all[k] == log[k];
      }
    }
  }

  lemma TotalStep(log: seq<Usage>, u: Usage, s: Scope)
    requires Total(log, s) == Sum(Balances(log, s))
    ensures Total(log + [u], s) == Sum(Balances(log + [u], s))
  {
    hide Total, Balance, Balances, Ids, Sum;
    TotalSnoc(log, u, s);
    if In(u, s) {
      BalancesSnoc(log, u, s);
      SumUpdate(Balances(log, s), u.id, Balance(log, s, u.id) + u.units);
      BalanceListed(log, s, u.id);
    } else {
      BalancesOther(log, u, s);
    }
  }

  /** In every ledger, the usage counted against a quota is the sum of what is outstanding for each resource id. */
  lemma {:induction false} TotalIsSumOfBalances(log: seq<Usage>, s: Scope)
    ensures Total(log, s) == Sum(Balances(log, s))
  {
    if log == [] {
      assert Balances(log, s) == map[];
    } else {
      hide *;
      var n := |log| - 1;
      TotalIsSumOfBalances(log[..n], s);
      TotalStep(log[..n], log[n], s);
      assert log[..n] + [log[n]] == log;
    }
  }

  // ---------------------------------------------------------------- launches

  /** Launches against one quota: the ledger, units still to be recorded for each launch in progress, units recorded
      and not released for each id, the instances that exist, and the deletions whose handler has still to return. */
  datatype State = State(log: seq<Usage>, due: map<string, int>, used: map<string, int>, live: set<string>, closing: set<string>)

  /** A launch passes its check and then records its units one at a time: one unit in the instance manager, and from the
      API handler a second one.  It may fail before any of them, and its instance may be deleted before any of them.
      A deletion releases in the instance manager, and may release again in the handler that called it.
      Traffic in other scopes goes on beside all this. */
  datatype Event =
    | Begin(id: string, units: int)
    | Record(id: string)
    | Abort(id: string)
    | Delete(id: string)
    | Again(id: string)
    | Foreign(u: Usage)

  /** At most `width` launches at a time, each to record one of `costs` units, at most `most`, under a limit. */
  datatype Setting = Setting(s: Scope, limit: int, width: nat, costs: set<int>, most: int)

  predicate Proper(c: Setting)
  {
    c.limit > 0 && c.width > 0 && c.most in c.costs && forall n :: n in c.costs ==> 0 < n <= c.most
  }

  predicate Enabled(c: Setting, st: State, e: Event)
  {
    match e
    case Begin(id, units) => id !in st.due && id !in st.used && id !in st.live && id !in st.closing &&
                             units in c.costs && |st.due| < c.width && Admits(st.log, map[c.s := c.limit], c.s, true)
    case Record(id) => id in st.due
    case Abort(id) => id in st.due
    case Delete(id) => id in st.live
    case Again(id) => id in st.closing
    case Foreign(u) => !In(u, c.s)
  }

  function Unit(c: Setting, id: string, units: int): Usage
  {
    Usage(c.s.project, c.s.resource, id, if units < 0 then "release" else "count", units)
  }

  function Got(m: map<string, int>, id: string): int { if id in m then m[id] else 0 }

  /** ReleaseUsage in this scope. */
  function Released(c: Setting, st: State, id: string): State
  {
    var b := Balance(st.log, c.s, id);
    if b > 0 then st.(log := st.log + [Unit(c, id, -b)], used := st.used - {id}) else st
  }

  function Next(c: Setting, st: State, e: Event): State
    requires Enabled(c, st, e)
  {
    match e
    case Begin(id, units) => st.(due := st.due[id := units], live := st.live + {id})
    case Record(id) =>
      st.(log := st.log + [Unit(c, id, 1)],
          due := if st.due[id] <= 1 then st.due - {id} else st.due[id := st.due[id] - 1],
          used := st.used[id := Got(st.used, id) + 1])
    case Abort(id) => st.(due := st.due - {id}, live := if id in st.used then st.live else st.live - {id})
    case Delete(id) => Released(c, st, id).(live := st.live - {id}, closing := st.closing + {id})
    case Again(id) => Released(c, st, id).(closing := st.closing - {id})
    case Foreign(u) => st.(log := st.log + [u])
  }

  predicate Possible(c: Setting, st: State, run: seq<Event>)
    decreases |run|
  {
    run == [] || (Enabled(c, st, run[0]) && Possible(c, Next(c, st, run[0]), run[1..]))
  }

  function After(c: Setting, st: State, run: seq<Event>): State
    requires Possible(c, st, run)
    decreases |run|
  {
    if run == [] then st else After(c, Next(c, st, run[0]), run[1..])
  }

  const START := State([], map[], map[], {}, {})

  /** The ledger's balances are the units recorded and not released, and what is counted and still due stays
      under the limit and one full set of launches. */
  ghost predicate Inv(c: Setting, st: State)
  {
    && (forall id :: Balance(st.log, c.s, id) == Got(st.used, id))
    && Total(st.log, c.s) == Sum(st.used)
    && (forall id :: id in st.due ==> 1 <= st.due[id] <= c.most)
    && (forall id :: id in st.used ==> 1 <= st.used[id])
    && |st.due| <= c.width
    && Total(st.log, c.s) + Sum(st.due) <= c.limit - 1 + c.width * c.most
  }

  lemma {:induction false} SumAtMost(m: map<string, int>, bound: int)
    requires forall k :: k in m ==> m[k] <= bound
    ensures Sum(m) <= |m| * bound
    decreases |m|
  {
    if m != map[] {
      var k :| k in m;
      SumWithout(m, k);
      SumAtMost(m - {k}, bound);
      assert |m - {k}| == |m| - 1;
      Pred(|m|, bound);
    }
  }

  lemma {:induction false} SumEqual(m: map<string, int>, v: int)
    requires forall k :: k in m ==> m[k] == v
    ensures Sum(m) == |m| * v
    decreases |m|
  {
    if m != map[] {
      var k :| k in m;
      SumWithout(m, k);
      SumEqual(m - {k}, v);
      assert |m - {k}| == |m| - 1;
      Pred(|m|, v);
    }
  }

  lemma {:induction false} NeverNegative(m: map<string, int>)
    requires forall k :: k in m ==> m[k] >= 0
    ensures Sum(m) >= 0
    decreases |m|
  {
    if m != map[] {
      var k :| k in m;
      SumWithout(m, k);
      NeverNegative(m - {k});
    }
  }

  lemma Pred(n: int, c: int)
    ensures (n - 1) * c + c == n * c
  {}

  lemma BeginKeeps(c: Setting, st: State, id: string, units: int)
    requires Proper(c) && Inv(c, st) && Enabled(c, st, Begin(id, units))
    ensures Inv(c, Next(c, st, Begin(id, units)))
  {
    hide Sum, Total, Balance;
    var t := Next(c, st, Begin(id, units));
    assert |t.due| == |st.due| + 1;
    SumAtMost(t.due, c.most);
    Mono(|t.due|, c.width, c.most);
  }

  /** A record moves one unit from due to used. */
  lemma RecordMoves(c: Setting, st: State, id: string)
    requires Enabled(c, st, Record(id)) && st.due[id] >= 1
    ensures var t := Next(c, st, Record(id));
      Sum(t.used) == Sum(st.used) + 1 && Sum(t.due) == Sum(st.due) - 1 && |t.due| <= |st.due|
  {
    hide Sum;
    var t := Next(c, st, Record(id));
    SumUpdate(st.used, id, Got(st.used, id) + 1);
    if st.due[id] <= 1 {
      SumWithout(st.due, id);
      assert |t.due| == |st.due| - 1;
    } else {
      SumUpdate(st.due, id, st.due[id] - 1);
      assert t.due.Keys == st.due.Keys;
      assert |t.due.Keys| == |st.due.Keys|;
    }
  }

  lemma RecordKeeps(c: Setting, st: State, id: string)
    requires Proper(c) && Inv(c, st) && Enabled(c, st, Record(id))
    ensures Inv(c, Next(c, st, Record(id)))
  {
    hide Sum, Total, Balance;
    RecordMoves(c, st, id);
    TotalSnoc(st.log, Unit(c, id, 1), c.s);
  }

  lemma AbortKeeps(c: Setting, st: State, id: string)
    requires Proper(c) && Inv(c, st) && Enabled(c, st, Abort(id))
    ensures Inv(c, Next(c, st, Abort(id)))
  {
    hide Sum, Total, Balance;
    SumWithout(st.due, id);
    assert |st.due - {id}| == |st.due| - 1;
  }

  /** Inv looks at the ledger and the launches alone. */
  lemma InvOf(c: Setting, st: State, t: State)
    requires Inv(c, st) && t.log == st.log && t.used == st.used && t.due == st.due
    ensures Inv(c, t)
  {}

  /** A release clears one id. */
  lemma ReleaseClears(c: Setting, st: State, id: string)
    requires Proper(c) && Inv(c, st)
    ensures var t := Released(c, st, id); Inv(c, t) && t.used == st.used - {id} && t.due == st.due
  {
    hide *;
    ReleasedIs(c, st, id);
    BalanceIs(c, st, id);
    var t := Released(c, st, id);
    if id in st.used {
      Cleared(c, st, id);
      InvOf(c, st.(log := st.log + [Unit(c, id, -Balance(st.log, c.s, id))], used := st.used - {id}), t);
    } else {
      assert st.used - {id} == st.used;
      InvOf(c, st, t);
    }
  }

  lemma BalanceIs(c: Setting, st: State, id: string)
    requires Inv(c, st)
    ensures Balance(st.log, c.s, id) > 0 <==> id in st.used
  {}

  lemma Cleared(c: Setting, st: State, id: string)
    requires Inv(c, st) && id in st.used
    ensures Inv(c, st.(log := st.log + [Unit(c, id, -Balance(st.log, c.s, id))], used := st.used - {id}))
  {
    hide Sum, Total, Balance;
    TotalSnoc(st.log, Unit(c, id, -Balance(st.log, c.s, id)), c.s);
    SumWithout(st.used, id);
  }

  lemma ReleasedIs(c: Setting, st: State, id: string)
    ensures var b, t := Balance(st.log, c.s, id), Released(c, st, id);
      && t.log == (if b > 0 then st.log + [Unit(c, id, -b)] else st.log)
      && t.used == (if b > 0 then st.used - {id} else st.used)
      && t.due == st.due && t.live == st.live && t.closing == st.closing
  {}

  lemma ClosingKeeps(c: Setting, st: State, e: Event)
    requires Proper(c) && Inv(c, st) && Enabled(c, st, e) && (e.Delete? || e.Again?)
    ensures Inv(c, Next(c, st, e))
  {
    ReleaseClears(c, st, e.id);
    hide Released, Inv, Admits;
    InvOf(c, Released(c, st, e.id), Next(c, st, e));
  }

  lemma ForeignKeeps(c: Setting, st: State, u: Usage)
    requires Inv(c, st) && !In(u, c.s)
    ensures Inv(c, Next(c, st, Foreign(u)))
  {
    hide Sum, Total, Balance;
    TotalSnoc(st.log, u, c.s);
  }

  lemma StepKeepsInv(c: Setting, st: State, e: Event)
    requires Proper(c) && Inv(c, st) && Enabled(c, st, e)
    ensures Inv(c, Next(c, st, e))
  {
    hide Inv, Next, Admits;
    match e {
      case Begin(id, units) => BeginKeeps(c, st, id, units);
      case Record(id) => RecordKeeps(c, st, id);
      case Abort(id) => AbortKeeps(c, st, id);
      case Delete(id) => ClosingKeeps(c, st, e);
      case Again(id) => ClosingKeeps(c, st, e);
      case Foreign(u) => ForeignKeeps(c, st, u);
    }
  }

  lemma {:induction false} RunKeepsInv(c: Setting, st: State, run: seq<Event>)
    requires Proper(c) && Inv(c, st) && Possible(c, st, run)
    ensures Inv(c, After(c, st, run))
    decreases |run|
  {
    if run != [] {
      hide Next, Inv, Enabled;
      StepKeepsInv(c, st, run[0]);
      RunKeepsInv(c, Next(c, st, run[0]), run[1..]);
    }
  }

  lemma StartHolds(c: Setting)
    requires Proper(c)
    ensures Inv(c, START)
  {
    Mono(0, c.width, c.most);
  }

  /** Every run, in any interleaving of launches, failures, deletions and other traffic: each id's balance is what was
      recorded for it and not released, the usage counted is their sum, and it never exceeds the limit by more
      than the launches in progress can add. */
  lemma QuotaBound(c: Setting, run: seq<Event>)
    requires Proper(c) && Possible(c, START, run)
    ensures var st := After(c, START, run);
      && Total(st.log, c.s) <= c.limit - 1 + c.width * c.most
      && Total(st.log, c.s) == Sum(st.used)
      && (forall id :: Balance(st.log, c.s, id) == Got(st.used, id))
  {
    StartHolds(c);
    RunKeepsInv(c, START, run);
    NeverNegative(After(c, START, run).due);
  }

  // ---------------------------------------------------------------- the bound is the best there is

  ghost predicate Reachable(c: Setting, st: State)
  {
    exists run :: Possible(c, START, run) && After(c, START, run) == st
  }

  lemma {:induction false} Chained(c: Setting, st: State, run: seq<Event>, e: Event)
    requires Possible(c, st, run) && Enabled(c, After(c, st, run), e)
    ensures Possible(c, st, run + [e]) && After(c, st, run + [e]) == Next(c, After(c, st, run), e)
    decreases |run|
  {
    hide Next, Enabled;
    if run == [] {
      assert run + [e] == [e] && [e][1..] == [];
    } else {
      assert (run + [e])[0] == run[0] && (run + [e])[1..] == run[1..] + [e];
      Chained(c, Next(c, st, run[0]), run[1..], e);
    }
  }

  lemma ReachesStart(c: Setting)
    ensures Reachable(c, START)
  {
    assert Possible(c, START, []) && After(c, START, []) == START;
  }

  lemma Reaches(c: Setting, st: State, e: Event)
    requires Reachable(c, st) && Enabled(c, st, e)
    ensures Reachable(c, Next(c, st, e))
  {
    hide Next, Enabled, Possible, After;
    var run :| Possible(c, START, run) && After(c, START, run) == st;
    Chained(c, START, run, e);
  }

  function NewId(n: nat): string { seq(n, _ => 'i') }

  lemma NewIdsDiffer(m: nat, n: nat)
    requires m != n
    ensures NewId(m) != NewId(n)
  {
    assert |NewId(m)| == m && |NewId(n)| == n;
  }

  /** The ids from the n-th on have not been seen. */
  ghost predicate Fresh(st: State, n: nat)
  {
    forall k: nat :: k >= n ==> NewId(k) !in st.due && NewId(k) !in st.used && NewId(k) !in st.live && NewId(k) !in st.closing
  }

  /** `n` launches, one after another, that recorded one unit each and then ended or failed. */
  lemma {:induction false} Fill(c: Setting, n: nat) returns (st: State)
    requires Proper(c) && n <= c.limit
    ensures Reachable(c, st) && Fresh(st, n) && st.due == map[] && Total(st.log, c.s) == n
    decreases n
  {
    if n == 0 {
      ReachesStart(c);
      return START;
    }
    var s0 := Fill(c, n - 1);
    st := RecordOnce(c, s0, NewId(n - 1));
    forall k: nat | k >= n
      ensures NewId(k) != NewId(n - 1)
    {
      NewIdsDiffer(k, n - 1);
    }
  }

  /** A launch that records one unit, and then ends or fails. */
  lemma EndEarly(c: Setting, s1: State, id: string) returns (st: State)
    requires Proper(c) && Reachable(c, s1) && s1.due == map[id := c.most] && id !in s1.used
    ensures Reachable(c, st) && Total(st.log, c.s) == Total(s1.log, c.s) + 1
    ensures st.due == map[] && st.used == s1.used[id := 1] && st.live == s1.live && st.closing == s1.closing
  {
    hide Reachable, Total, Balance, Admits;
    Reaches(c, s1, Record(id));
    st := Next(c, s1, Record(id));
    TotalSnoc(s1.log, Unit(c, id, 1), c.s);
    if c.most > 1 {
      assert st.due == map[id := c.most - 1];
      Reaches(c, st, Abort(id));
      st := Next(c, st, Abort(id));
    }
    assert st.due == map[];
  }

  /** One launch that records one unit. */
  lemma RecordOnce(c: Setting, s0: State, id: string) returns (st: State)
    requires Proper(c) && Reachable(c, s0) && s0.due == map[] && Total(s0.log, c.s) < c.limit
    requires id !in s0.used && id !in s0.live && id !in s0.closing
    ensures Reachable(c, st) && st.due == map[] && Total(st.log, c.s) == Total(s0.log, c.s) + 1
    ensures st.used == s0.used[id := 1] && st.live == s0.live + {id} && st.closing == s0.closing
  {
    hide Reachable, Total;
    Reaches(c, s0, Begin(id, c.most));
    var s1 := s0.(due := map[id := c.most], live := s0.live + {id});
    assert s1 == Next(c, s0, Begin(id, c.most));
    st := EndEarly(c, s1, id);
  }

  /** `w` launches that pass the check together, one unit below the limit. */
  lemma {:induction false} Crowd(c: Setting, w: nat) returns (st: State)
    requires Proper(c) && w <= c.width
    ensures Reachable(c, st) && Fresh(st, c.limit - 1 + w) && Total(st.log, c.s) == c.limit - 1
    ensures |st.due| == w && forall id :: id in st.due ==> st.due[id] == c.most
    decreases w
  {
    hide Reachable, Total;
    if w == 0 {
      st := Fill(c, c.limit - 1);
    } else {
      var s0 := Crowd(c, w - 1);
      var id := NewId(c.limit - 2 + w);
      Reaches(c, s0, Begin(id, c.most));
      st := Next(c, s0, Begin(id, c.most));
      forall k: nat | k >= c.limit - 1 + w
        ensures NewId(k) != id
      {
        NewIdsDiffer(k, c.limit - 2 + w);
      }
    }
  }

  /** All launches in progress record what they have left. */
  lemma {:induction false} Drain(c: Setting, st: State) returns (t: State)
    requires Reachable(c, st) && forall id :: id in st.due ==> st.due[id] >= 1
    ensures Reachable(c, t) && Total(t.log, c.s) == Total(st.log, c.s) + Sum(st.due)
    decreases Sum(st.due)
  {
    NeverNegative(st.due);
    if st.due == map[] {
      return st;
    }
    hide Reachable, Total, Balance, Sum, Admits;
    var id :| id in st.due;
    Reaches(c, st, Record(id));
    RecordMoves(c, st, id);
    RecordCounts(c, st, id);
    var s1 := Next(c, st, Record(id));
    hide Next, Enabled;
    NeverNegative(s1.due);
    t := Drain(c, s1);
  }

  lemma RecordCounts(c: Setting, st: State, id: string)
    requires Enabled(c, st, Record(id)) && forall i :: i in st.due ==> st.due[i] >= 1
    ensures var t := Next(c, st, Record(id));
      Total(t.log, c.s) == Total(st.log, c.s) + 1 && forall i :: i in t.due ==> t.due[i] >= 1
  {
    TotalSnoc(st.log, Unit(c, id, 1), c.s);
  }

  ghost predicate NeverAbove(c: Setting, bound: int)
  {
    forall run :: Possible(c, START, run) ==> Total(After(c, START, run).log, c.s) <= bound
  }

  /** Exactly which bounds hold over all runs: the limit less one, and one full set of launches on top. */
  lemma QuotaBoundExactly(c: Setting, bound: int)
    requires Proper(c)
    ensures NeverAbove(c, bound) <==> c.limit - 1 + c.width * c.most <= bound
  {
    hide Possible, After, Total, Sum;
    if c.limit - 1 + c.width * c.most <= bound {
      forall run | Possible(c, START, run)
        ensures Total(After(c, START, run).log, c.s) <= bound
      {
        QuotaBound(c, run);
      }
    } else {
      var crowd := Crowd(c, c.width);
      SumEqual(crowd.due, c.most);
      var over := Drain(c, crowd);
      var run :| Possible(c, START, run) && After(c, START, run) == over;
    }
  }

  /** Exactly when a quota is never overrun: launches come one at a time, and none records more than one unit.
      Two units a launch, as through the API, overrun every limit. */
  lemma QuotaHoldsExactly(c: Setting)
    requires Proper(c)
    ensures NeverAbove(c, c.limit) <==> c.width == 1 && c.most == 1
  {
    hide NeverAbove;
    QuotaBoundExactly(c, c.limit);
    if c.width >= 2 {
      Mono(2, c.width, c.most);
    } else {
      assert c.width * c.most == c.most;
    }
  }

  // ---------------------------------------------------------------- counting what lives

  /** No instance is deleted while its launch is still in progress. */
  predicate Orderly(c: Setting, st: State, run: seq<Event>)
    requires Possible(c, st, run)
    decreases |run|
  {
    run == [] || (!(run[0].Delete? && run[0].id in st.due) && Orderly(c, Next(c, st, run[0]), run[1..]))
  }

  /** With one unit a launch: an instance lives from its launch's check on, and has its unit once the launch is over. */
  ghost predicate Counted(st: State)
  {
    && st.live == st.used.Keys + st.due.Keys && st.used.Keys !! st.due.Keys && st.live !! st.closing
    && (forall id :: id in st.used ==> st.used[id] == 1)
    && (forall id :: id in st.due ==> st.due[id] == 1)
  }

  lemma SetKey(m: map<string, int>, k: string, v: int)
    ensures m[k := v].Keys == m.Keys + {k}
  {}

  lemma DropKey(m: map<string, int>, k: string)
    ensures (m - {k}).Keys == m.Keys - {k}
  {}

  lemma BeginKeepsCounted(st: State, id: string)
    requires Counted(st) && id !in st.live && id !in st.closing
    ensures Counted(st.(due := st.due[id := 1], live := st.live + {id}))
  {
    SetKey(st.due, id, 1);
  }

  lemma RecordKeepsCounted(st: State, log: seq<Usage>, id: string)
    requires Counted(st) && id in st.due
    ensures Counted(st.(log := log, due := st.due - {id}, used := st.used[id := 1]))
  {
    SetKey(st.used, id, 1);
    DropKey(st.due, id);
  }

  lemma AbortKeepsCounted(st: State, id: string)
    requires Counted(st) && id in st.due
    ensures Counted(st.(due := st.due - {id}, live := st.live - {id}))
  {
    DropKey(st.due, id);
  }

  lemma CountedOnce(st: State, id: string)
    requires Counted(st) && id in st.due
    ensures st.due[id] == 1 && id !in st.used
  {}

  lemma LogDoesNotCount(st: State, log: seq<Usage>)
    requires Counted(st)
    ensures Counted(st.(log := log))
  {}

  lemma DeleteKeepsCounted(st: State, log: seq<Usage>, id: string)
    requires Counted(st) && id in st.live && id !in st.due
    ensures Counted(State(log, st.due, st.used - {id}, st.live - {id}, st.closing + {id}))
  {
    DropKey(st.used, id);
  }

  lemma AgainKeepsCounted(st: State, log: seq<Usage>, id: string)
    requires Counted(st) && id in st.closing
    ensures st.used - {id} == st.used && Counted(State(log, st.due, st.used, st.live, st.closing - {id}))
  {
    assert id !in st.live;
  }

  lemma CountedRelease(c: Setting, st: State, id: string)
    requires Proper(c) && Inv(c, st)
    ensures var t := Released(c, st, id);
      t.used == st.used - {id} && t.due == st.due && t.live == st.live && t.closing == st.closing
  {
    ReleasedIs(c, st, id);
    ReleaseClears(c, st, id);
  }

  /** A deletion, or the second release behind one. */
  lemma ClosingKeepsCounted(c: Setting, st: State, e: Event)
    requires Proper(c) && Inv(c, st) && Enabled(c, st, e) && Counted(st)
    requires (e.Delete? && e.id !in st.due) || e.Again?
    ensures Counted(Next(c, st, e))
  {
    CountedRelease(c, st, e.id);
    hide Counted, Inv, Released, Admits;
    if e.Delete? {
      DeleteKeepsCounted(st, Next(c, st, e).log, e.id);
    } else {
      AgainKeepsCounted(st, Next(c, st, e).log, e.id);
    }
  }

  lemma StepKeepsCounted(c: Setting, st: State, e: Event)
    requires Proper(c) && c.most == 1 && Inv(c, st) && Enabled(c, st, e) && Counted(st) && !(e.Delete? && e.id in st.due)
    ensures Counted(Next(c, st, e))
  {
    if e.Delete? || e.Again? {
      ClosingKeepsCounted(c, st, e);
    } else if e.Begin? {
      hide Counted, Inv, Released, Admits;
      BeginKeepsCounted(st, e.id);
    } else if e.Foreign? {
      hide Counted, Inv, Released, Admits;
      LogDoesNotCount(st, Next(c, st, e).log);
    } else {
      CountedOnce(st, e.id);
      hide Counted, Inv, Released, Admits;
      if e.Record? {
        RecordKeepsCounted(st, Next(c, st, e).log, e.id);
      } else {
        AbortKeepsCounted(st, e.id);
      }
    }
  }

  lemma {:induction false} RunKeepsCounted(c: Setting, st: State, run: seq<Event>)
    requires Proper(c) && c.most == 1 && Inv(c, st) && Counted(st) && Possible(c, st, run) && Orderly(c, st, run)
    ensures Counted(After(c, st, run))
    decreases |run|
  {
    if run != [] {
      hide Next, Inv, Enabled, Counted;
      StepKeepsInv(c, st, run[0]);
      StepKeepsCounted(c, st, run[0]);
      RunKeepsCounted(c, Next(c, st, run[0]), run[1..]);
    }
  }

  /** One unit a launch, as from the command line, and no deletion during a launch: the usage counted is the number of
      instances whose launch is over; and with one launch at a time the limit holds. */
  lemma SequentialQuota(c: Setting, run: seq<Event>)
    requires Proper(c) && c.most == 1 && Possible(c, START, run) && Orderly(c, START, run)
    ensures var st := After(c, START, run);
      Total(st.log, c.s) == |st.live| - |st.due| && (c.width == 1 ==> Total(st.log, c.s) <= c.limit)
  {
    QuotaBound(c, run);
    StartHolds(c);
    RunKeepsCounted(c, START, run);
    hide Possible, After, Orderly, Sum, Total, Balance;
    var st := After(c, START, run);
    SumEqual(st.used, 1);
    assert |st.live| == |st.used.Keys| + |st.due.Keys|;
    assert |st.used.Keys| == |st.used| && |st.due.Keys| == |st.due|;
    assert c.width == 1 ==> c.width * c.most == 1;
  }

  /** Units are counted for `id` although it does not live, and no deletion of it is still to release them. */
  predicate Lost(st: State, id: string) { id in st.used && id !in st.live && id !in st.closing }

  /** A launch records a unit for an instance that is gone by then. */
  predicate LateRecord(st: State, e: Event, id: string) { e == Record(id) && id !in st.live && id !in st.closing }

  predicate RecordsLate(c: Setting, st: State, run: seq<Event>, id: string)
    requires Possible(c, st, run)
    decreases |run|
  {
    run != [] && (LateRecord(st, run[0], id) || RecordsLate(c, Next(c, st, run[0]), run[1..], id))
  }

  lemma StepLoses(c: Setting, st: State, e: Event, id: string)
    requires Proper(c) && Inv(c, st) && Enabled(c, st, e)
    ensures Lost(Next(c, st, e), id) <==> Lost(st, id) || LateRecord(st, e, id)
  {
    hide Sum, Total, Balance, Released, Admits;
    if e.Delete? || e.Again? {
      CountedRelease(c, st, e.id);
    }
    hide Inv;
  }

  lemma {:induction false} RunLoses(c: Setting, st: State, run: seq<Event>, id: string)
    requires Proper(c) && Inv(c, st) && Possible(c, st, run)
    ensures Lost(After(c, st, run), id) <==> Lost(st, id) || RecordsLate(c, st, run, id)
    decreases |run|
  {
    if run != [] {
      hide Next, Inv, Enabled, Lost, LateRecord;
      StepKeepsInv(c, st, run[0]);
      StepLoses(c, st, run[0], id);
      RunLoses(c, Next(c, st, run[0]), run[1..], id);
    }
  }

  /** Exactly when units are lost on an id: when a launch records one after the instance was deleted and every handler
      of the deletion has returned. */
  lemma LostExactly(c: Setting, run: seq<Event>, id: string)
    requires Proper(c) && Possible(c, START, run)
    ensures Lost(After(c, START, run), id) <==> RecordsLate(c, START, run, id)
  {
    StartHolds(c);
    RunLoses(c, START, run, id);
  }

  lemma StepKeepsDueLive(c: Setting, st: State, e: Event)
    requires Enabled(c, st, e) && st.due.Keys <= st.live && !(e.Delete? && e.id in st.due)
    ensures Next(c, st, e).due.Keys <= Next(c, st, e).live
  {
    if e.Delete? || e.Again? {
      ReleasedIs(c, st, e.id);
    }
    hide Released, Admits, Balance;
  }

  lemma {:induction false} OrderlyRecordsInTime(c: Setting, st: State, run: seq<Event>, id: string)
    requires Possible(c, st, run) && Orderly(c, st, run) && st.due.Keys <= st.live
    ensures !RecordsLate(c, st, run, id)
    decreases |run|
  {
    if run != [] {
      assert !LateRecord(st, run[0], id);
      hide Next, LateRecord;
      StepKeepsDueLive(c, st, run[0]);
      OrderlyRecordsInTime(c, Next(c, st, run[0]), run[1..], id);
    }
  }

  /** Runs that delete no instance during its launch lose nothing, whatever launches cost and whichever of them fail. */
  lemma OrderlyLosesNothing(c: Setting, run: seq<Event>, id: string)
    requires Proper(c) && Possible(c, START, run) && Orderly(c, START, run)
    ensures !Lost(After(c, START, run), id)
  {
    OrderlyRecordsInTime(c, START, run, id);
    LostExactly(c, run, id);
  }

  /** Nothing is left that could release `id`, and units are counted for it. */
  predicate Orphan(st: State, id: string)
  {
    Lost(st, id) && id !in st.due
  }

  /** An instance that is deleted during its launch leaves a unit behind ... */
  lemma OrphanArises(c: Setting, id: string) returns (st: State)
    requires Proper(c)
    ensures Reachable(c, st) && Orphan(st, id) && st.live == {} && st.due == map[] && Total(st.log, c.s) == 1
  {
    hide Reachable, Total;
    ReachesStart(c);
    NothingCounted(c.s, id);
    Reaches(c, START, Begin(id, c.most));
    var begun := Next(c, START, Begin(id, c.most));
    Reaches(c, begun, Delete(id));
    var deleted := Next(c, begun, Delete(id));
    assert deleted.log == [] && deleted.used == map[] && deleted.due == map[id := c.most];
    Reaches(c, deleted, Again(id));
    var closed := Next(c, deleted, Again(id));
    assert closed == deleted.(closing := {});
    st := EndEarly(c, closed, id);
  }

  lemma NothingCounted(s: Scope, id: string)
    ensures Total([], s) == 0 && Balance([], s, id) == 0
  {}

  lemma StepKeepsOrphan(c: Setting, st: State, e: Event, id: string)
    requires Proper(c) && Inv(c, st) && Enabled(c, st, e) && Orphan(st, id)
    ensures Orphan(Next(c, st, e), id) && Next(c, st, e).used[id] == st.used[id]
  {
    hide Sum, Total, Balance, Released;
    if e.Delete? || e.Again? {
      ReleaseClears(c, st, e.id);
      ReleasedIs(c, st, e.id);
    }
  }

  /** ... that no later run ever releases: it counts against the quota for good. */
  lemma {:induction false} OrphanIsForever(c: Setting, st: State, run: seq<Event>, id: string)
    requires Proper(c) && Inv(c, st) && Orphan(st, id) && Possible(c, st, run)
    ensures Balance(After(c, st, run).log, c.s, id) == Balance(st.log, c.s, id) > 0
    decreases |run|
  {
    if run != [] {
      hide Next, Enabled, Sum, Total, Balance;
      StepKeepsInv(c, st, run[0]);
      StepKeepsOrphan(c, st, run[0], id);
      OrphanIsForever(c, Next(c, st, run[0]), run[1..], id);
    }
  }
}
