/** The CapDB connection (internal/capdbdriver/driver.go): error classification and retries,
    and the cancellation watcher that runs beside every call. */
module Driver {
  import opened Options

  // ================================================================ errors and retries

  const NET_OK := 0
  const NET_BUSY := 5

  datatype Error = ConnectionLost | BadConn | Server(rc: int) | Context | Encoding

  /** What one round trip did on the server, what it returned, and whether the socket survived it. */
  datatype Outcome = Outcome(ran: bool, rc: int, alive: bool)

  /** The server's side of the bargain: an answered BUSY means the statement did not run, an OK that it did. */
  predicate Honest(o: Outcome)
  {
    (o.alive && o.rc == NET_BUSY ==> !o.ran) && (o.rc == NET_OK ==> o.ran)
  }

  /** One ExecContext call: the context before and after, whether the arguments encode, and the round trip. */
  datatype Call = Call(doneBefore: bool, doneAfter: bool, encodes: bool, o: Outcome)

  datatype Reply = Done | Failed(e: Error)

  class Conn {
    var open: bool
    var dead: bool

    constructor ()
      ensures open && !dead && IsValid()
    {
      open, dead := true, false;
    }

    predicate IsValid()
      reads this
    {
      !dead && open
    }

    /** conn.err: a lost connection is tested before BUSY. */
    method Err(o: Outcome) returns (e: Error)
      modifies this`dead
      ensures dead == (old(dead) || !open || !o.alive)
      ensures e == BadConn <==> open && o.alive && o.rc == 5
      ensures e == ConnectionLost <==> !open || !o.alive
      ensures e == Server(o.rc) <==> open && o.alive && o.rc != 5
    {
      if !open || !o.alive {
        dead := true;
        return ConnectionLost;
      }
      if o.rc == NET_BUSY {
        return BadConn;
      }
      return Server(o.rc);
    }

    /** stmt.ExecContext on this connection, without the watcher. */
    method ExecContext(call: Call) returns (reply: Reply, ran: bool)
      modifies this`dead
      ensures reply == Answer(open, call) && ran == Reached(call)
      ensures ran <==> !call.doneBefore && call.encodes && call.o.ran
      ensures reply == Failed(Context) <==> call.doneBefore || call.doneAfter
      ensures !call.doneBefore && !call.doneAfter && !call.encodes ==> reply == Failed(Encoding)
      ensures !call.doneBefore && !call.doneAfter && call.encodes ==>
        && (reply == Done <==> call.o.rc == 0)
        && (reply == Failed(ConnectionLost) <==> call.o.rc != 0 && !(open && call.o.alive))
        && (reply == Failed(BadConn) <==> call.o.rc == 5 && open && call.o.alive)
        && (reply == Failed(Server(call.o.rc)) <==> call.o.rc != 0 && call.o.rc != 5 && open && call.o.alive)
      ensures dead == (old(dead) || (!call.doneBefore && call.encodes && call.o.rc != NET_OK && !(open && call.o.alive)))
      ensures reply == Failed(ConnectionLost) ==> dead && !IsValid()
    {
      if call.doneBefore {
        return Failed(Context), false;
      }
      if !call.encodes {
        if call.doneAfter {
          return Failed(Context), false;
        }
        return Failed(Encoding), false;
      }
      ran := call.o.ran;
      reply := Done;
      if call.o.rc != NET_OK {
        var e := Err(call.o);
        reply := Failed(e);
      }
      if call.doneAfter {
        reply := Failed(Context);
      }
    }

    method Close()
      modifies this`open
      ensures !open && !IsValid()
    {
      open := false;
    }
  }

  /** Whether the call executed its statement on the server. */
  predicate Reached(call: Call) { !call.doneBefore && call.encodes && call.o.ran }

  function Answer(open: bool, call: Call): Reply
  {
    if call.doneBefore || call.doneAfter then Failed(Context)
    else if !call.encodes then Failed(Encoding)
    else if call.o.rc == NET_OK then Done
    else if !open || !call.o.alive then Failed(ConnectionLost)
    else if call.o.rc == NET_BUSY then Failed(BadConn)
    else Failed(Server(call.o.rc))
  }

  /** A caller's attempts at one statement, each on some connection: another one follows only a BadConn. */
  datatype Attempt = Attempt(open: bool, call: Call)

  predicate Retries(run: seq<Attempt>)
  {
    && (forall k :: 0 <= k < |run| ==> Honest(run[k].call.o))
    && (forall k :: 0 <= k < |run| - 1 ==> Answer(run[k].open, run[k].call) == Failed(BadConn))
  }

  function Executions(run: seq<Attempt>): nat
  {
    if run == [] then 0 else Executions(run[..|run| - 1]) + (if Reached(run[|run| - 1].call) then 1 else 0)
  }

  lemma {:induction false} RetriedDidNotRun(run: seq<Attempt>)
    requires forall k :: 0 <= k < |run| ==> Honest(run[k].call.o) && Answer(run[k].open, run[k].call) == Failed(BadConn)
    ensures Executions(run) == 0
  {
    if run != [] {
      RetriedDidNotRun(run[..|run| - 1]);
      assert Honest(run[|run| - 1].call.o);
    }
  }

  /** However often BUSY makes the caller retry, the server executes the statement at most once:
      exactly once when the last attempt reports success, not at all when it reports BadConn. */
  lemma RetryIsSafe(run: seq<Attempt>)
    requires run != [] && Retries(run)
    ensures Executions(run) == if Reached(run[|run| - 1].call) then 1 else 0
    ensures Answer(run[|run| - 1].open, run[|run| - 1].call) == Done ==> Executions(run) == 1
    ensures Answer(run[|run| - 1].open, run[|run| - 1].call) == Failed(BadConn) ==> Executions(run) == 0
  {
    RetriedDidNotRun(run[..|run| - 1]);
    assert Honest(run[|run| - 1].call.o);
  }

  // ================================================================ the watcher

  /** A watcher goroutine: waiting, past the context branch, past `dead.Store`, past the cancel (of a handle
      that was closed by then, or not), or stopped. */
  datatype Phase = Waiting | Firing | Marked | Fired(onClosed: bool) | Stopped

  /** One watcher, whether its context is done, and how often its stop channel was closed. */
  datatype Watcher = Watcher(phase: Phase, done: bool, closes: nat)

  /** An open result set holds its watcher's stop function and a statement handle until they are given up. */
  datatype Rows = Rows(stop: Option<nat>, stmt: Option<nat>)

  /** The call that holds the connection's mutex, with its watcher if its context can be cancelled. */
  datatype Op = Exec(w: Option<nat>) | Query(w: Option<nat>)

  datatype State = State(
    dead: bool,
    closed: bool,
    op: Option<Op>,
    watchers: seq<Watcher>,
    rows: seq<Rows>,
    finalized: seq<nat>)   // per statement handle, how often it was finalized

  datatype Step =
    | BeginExec(cancellable: bool)
    | BeginQuery(cancellable: bool)
    | EndExec
    | EndQuery(prepared: bool, ctxErr: bool)
    | CallLost
    | CloseRows(r: nat)
    | ContextDone(i: nat)
    | TakeDone(i: nat)
    | TakeStop(i: nat)
    | StoreDead(i: nat)
    | Cancel(i: nat)
    | CloseConn

  const START := State(false, false, None, [], [], [])

  predicate Enabled(s: State, a: Step)
  {
    match a
    case BeginExec(_) => s.op.None?
    case BeginQuery(_) => s.op.None?
    case EndExec => s.op.Some? && s.op.value.Exec? && InRange(s, s.op.value.w)
    case EndQuery(_, _) => s.op.Some? && s.op.value.Query? && InRange(s, s.op.value.w)
    case CallLost => s.op.Some?
    case CloseRows(r) => r < |s.rows| && InRange(s, s.rows[r].stop) &&
                         (s.rows[r].stmt.Some? ==> s.rows[r].stmt.value < |s.finalized|)
    case ContextDone(i) => i < |s.watchers|
    case TakeDone(i) => i < |s.watchers| && s.watchers[i].phase == Waiting && s.watchers[i].done
    case TakeStop(i) => i < |s.watchers| && s.watchers[i].phase == Waiting && s.watchers[i].closes > 0
    case StoreDead(i) => i < |s.watchers| && s.watchers[i].phase == Firing
    case Cancel(i) => i < |s.watchers| && s.watchers[i].phase == Marked
    case CloseConn => s.op.None?
  }

  predicate InRange(s: State, w: Option<nat>) { w.Some? ==> w.value < |s.watchers| }

  /** Calling a stop function: closes the channel, or nothing for a context that cannot be cancelled. */
  function Stop(s: State, w: Option<nat>): State
    requires InRange(s, w)
  {
    if w.None? then s
    else s.(watchers := s.watchers[w.value := s.watchers[w.value].(closes := s.watchers[w.value].closes + 1)])
  }

  function Spawn(s: State, cancellable: bool): State
  {
    if cancellable then s.(watchers := s.watchers + [Watcher(Waiting, false, 0)]) else s
  }

  function Spawned(s: State, cancellable: bool): Option<nat>
  {
    if cancellable then Some(|s.watchers|) else None
  }

  function SetPhase(s: State, i: nat, p: Phase): State
    requires i < |s.watchers|
  {
    s.(watchers := s.watchers[i := s.watchers[i].(phase := p)])
  }

  function Next(s: State, a: Step): State
    requires Enabled(s, a)
  {
    match a
    case BeginExec(c) => Spawn(s, c).(op := Some(Exec(Spawned(s, c))))
    case BeginQuery(c) => Spawn(s, c).(op := Some(Query(Spawned(s, c))))
    case EndExec => Stop(s, s.op.value.w).(op := None)
    case EndQuery(prepared, ctxErr) =>
      var made := if prepared then s.(finalized := s.finalized + [0]) else s;
      if ctxErr || !prepared then Stop(made, s.op.value.w).(op := None)
      else made.(op := None, rows := s.rows + [Rows(s.op.value.w, Some(|s.finalized|))])
    case CallLost => s.(dead := true)
    case CloseRows(r) =>
      var row := s.rows[r];
      var stopped := Stop(s, row.stop);
      var done := if row.stmt.None? then stopped
                  else stopped.(finalized := s.finalized[row.stmt.value := s.finalized[row.stmt.value] + 1]);
      done.(rows := s.rows[r := Rows(None, None)])
    case ContextDone(i) => s.(watchers := s.watchers[i := s.watchers[i].(done := true)])
    case TakeDone(i) => SetPhase(s, i, Firing)
    case TakeStop(i) => SetPhase(s, i, Stopped)
    case StoreDead(i) => SetPhase(s, i, Marked).(dead := true)
    case Cancel(i) => SetPhase(s, i, Fired(s.closed))
    case CloseConn => s.(closed := true)
  }

  /** The interleavings: every step enabled where it is taken. */
  predicate Possible(s: State, run: seq<Step>)
    decreases |run|
  {
    run == [] || (Enabled(s, run[0]) && Possible(Next(s, run[0]), run[1..]))
  }

  function After(s: State, run: seq<Step>): State
    requires Possible(s, run)
    decreases |run|
  {
    if run == [] then s else After(Next(s, run[0]), run[1..])
  }

  // ---------------------------------------------------------------- the code behind two of the steps

  /** rows: what an open result set has to give up. */
  class Cursor {
    var stop: Option<nat>
    var stmt: Option<nat>

    constructor (stop: Option<nat>, stmt: Option<nat>)
      ensures View() == Rows(stop, stmt)
    {
      this.stop, this.stmt := stop, stmt;
    }

    function View(): Rows
      reads this
    {
      Rows(stop, stmt)
    }

    /** Calls the stop function and finalizes the handle, if it still has them. */
    method Close() returns (gaveUp: Rows)
      modifies this
      ensures gaveUp == old(View()) && View() == Rows(None, None)
    {
      gaveUp := Rows(None, None);
      if stop != None {
        gaveUp := gaveUp.(stop := stop);
        stop := None;
      }
      if stmt != None {
        gaveUp := gaveUp.(stmt := stmt);
        stmt := None;
      }
    }
  }

  /** One QueryContext call; `stmt` is the handle it prepares, if it gets that far. */
  datatype QueryCall = QueryCall(doneBefore: bool, doneAfter: bool, encodes: bool, stmt: Option<nat>)

  /** The rows handed out, and the stop function called on the spot otherwise. */
  method QueryContext(call: QueryCall, w: Option<nat>) returns (rows: Option<Cursor>, stopped: Option<nat>)
    ensures rows.Some? <==> !call.doneBefore && !call.doneAfter && call.encodes && call.stmt.Some?
    ensures rows.Some? ==> fresh(rows.value) && rows.value.View() == Rows(w, call.stmt) && stopped == None
    ensures rows.None? && !call.doneBefore ==> stopped == w
  {
    rows, stopped := None, None;
    if call.doneBefore {
      return;
    }
    if call.encodes && call.stmt.Some? {
      var r := new Cursor(None, call.stmt);
      if !call.doneAfter {
        r.stop := w;
        return Some(r), None;
      }
    }
    stopped := w;
  }

  // ---------------------------------------------------------------- the invariant

  predicate HeldByOp(s: State, w: nat) { s.op.Some? && s.op.value.w == Some(w) }

  predicate HeldByRows(s: State, w: nat) { exists r :: 0 <= r < |s.rows| && s.rows[r].stop == Some(w) }

  /** Stop functions are linear: the call in progress or one result set holds it, or it has been called once. */
  predicate StopsLinear(s: State)
  {
    && (s.op.Some? ==> InRange(s, s.op.value.w))
    && (forall r :: 0 <= r < |s.rows| ==> InRange(s, s.rows[r].stop))
    && (forall q, r :: 0 <= q < r < |s.rows| && s.rows[q].stop.Some? ==> s.rows[q].stop != s.rows[r].stop)
    && (forall w :: 0 <= w < |s.watchers| ==> !(HeldByOp(s, w) && HeldByRows(s, w)))
    && (forall w :: 0 <= w < |s.watchers| ==>
          s.watchers[w].closes == if HeldByOp(s, w) || HeldByRows(s, w) then 0 else 1)
  }

  /** A handle some open result set holds has not been finalized, and no handle is finalized twice. */
  predicate HandlesLinear(s: State)
  {
    && (forall r :: 0 <= r < |s.rows| && s.rows[r].stmt.Some? ==>
          s.rows[r].stmt.value < |s.finalized| && s.finalized[s.rows[r].stmt.value] == 0)
    && (forall q, r :: 0 <= q < r < |s.rows| && s.rows[q].stmt.Some? ==> s.rows[q].stmt != s.rows[r].stmt)
    && (forall k :: 0 <= k < |s.finalized| ==> s.finalized[k] <= 1)
  }

  /** A watcher fires only for a finished context, and marks the connection dead before it cancels. */
  predicate WatcherHonest(s: State, w: nat)
    requires w < |s.watchers|
  {
    var x := s.watchers[w];
    && (x.phase in {Firing, Marked} || x.phase.Fired? ==> x.done)
    && (x.phase == Marked || x.phase.Fired? ==> s.dead)
    && (x.phase == Stopped ==> x.closes == 1)
  }

  predicate WatchersHonest(s: State) { forall w :: 0 <= w < |s.watchers| ==> WatcherHonest(s, w) }

  predicate Inv(s: State) { StopsLinear(s) && HandlesLinear(s) && WatchersHonest(s) }

  lemma SameRowsSameHolders(s: State, t: State)
    requires s.rows == t.rows
    ensures forall w :: HeldByRows(s, w) == HeldByRows(t, w)
  {
    assert forall w :: HeldByRows(s, w) ==> HeldByRows(t, w);
  }

  lemma BeginKeepsStops(s: State, query: bool, cancellable: bool)
    requires StopsLinear(s) && s.op.None?
    ensures StopsLinear(Next(s, if query then BeginQuery(cancellable) else BeginExec(cancellable)))
  {
    var t := Next(s, if query then BeginQuery(cancellable) else BeginExec(cancellable));
    SameRowsSameHolders(s, t);
    assert !HeldByRows(s, |s.watchers|);
  }

  /** Ending a call by calling its stop function. */
  lemma StopKeepsStops(s: State)
    requires StopsLinear(s) && s.op.Some?
    ensures StopsLinear(Stop(s, s.op.value.w).(op := None))
  {
    var t := Stop(s, s.op.value.w).(op := None);
    SameRowsSameHolders(s, t);
    forall w | 0 <= w < |t.watchers|
      ensures t.watchers[w].closes == if HeldByOp(t, w) || HeldByRows(t, w) then 0 else 1
    {
      assert s.watchers[w].closes == if HeldByOp(s, w) || HeldByRows(s, w) then 0 else 1;
    }
  }

  /** Ending a query by handing its stop function to the rows. */
  lemma HandOverKeepsStops(s: State, stmt: nat)
    requires StopsLinear(s) && s.op.Some?
    ensures StopsLinear(s.(op := None, rows := s.rows + [Rows(s.op.value.w, Some(stmt))]))
  {
    var t := s.(op := None, rows := s.rows + [Rows(s.op.value.w, Some(stmt))]);
    forall w | 0 <= w < |t.watchers|
      ensures HeldByRows(t, w) <==> HeldByOp(s, w) || HeldByRows(s, w)
    {
      if HeldByOp(s, w) {
        assert t.rows[|s.rows|].stop == Some(w);
      }
      if HeldByRows(s, w) {
        var r :| 0 <= r < |s.rows| && s.rows[r].stop == Some(w);
        assert t.rows[r].stop == Some(w);
      }
    }
    forall q, r | 0 <= q < r < |t.rows| && t.rows[q].stop.Some?
      ensures t.rows[q].stop != t.rows[r].stop
    {
      if r == |s.rows| && t.rows[q].stop == t.rows[r].stop {
        assert HeldByRows(s, t.rows[q].stop.value);
        assert false;
      }
    }
  }

  lemma CloseKeepsStops(s: State, r: nat)
    requires StopsLinear(s) && r < |s.rows|
    ensures StopsLinear(Stop(s, s.rows[r].stop).(rows := s.rows[r := Rows(None, None)]))
  {
    var t := Stop(s, s.rows[r].stop).(rows := s.rows[r := Rows(None, None)]);
    forall w | 0 <= w < |t.watchers|
      ensures HeldByRows(t, w) <==> HeldByRows(s, w) && s.rows[r].stop != Some(w)
    {
      if HeldByRows(s, w) && s.rows[r].stop != Some(w) {
        var q :| 0 <= q < |s.rows| && s.rows[q].stop == Some(w);
        assert t.rows[q].stop == Some(w);
      }
      if s.rows[r].stop == Some(w) {
        assert HeldByRows(s, w);
      }
    }
  }

  lemma PhaseKeepsStops(s: State, t: State)
    requires StopsLinear(s) && t.rows == s.rows && t.op == s.op && |t.watchers| == |s.watchers|
    requires forall w :: 0 <= w < |s.watchers| ==> t.watchers[w].closes == s.watchers[w].closes
    ensures StopsLinear(t)
  {
    SameRowsSameHolders(s, t);
    assert forall w :: HeldByOp(s, w) == HeldByOp(t, w);
  }

  lemma StepKeepsStops(s: State, a: Step)
    requires StopsLinear(s) && Enabled(s, a)
    ensures StopsLinear(Next(s, a))
  {
    hide StopsLinear;
    match a {
      case BeginExec(c) => BeginKeepsStops(s, false, c);
      case BeginQuery(c) => BeginKeepsStops(s, true, c);
      case EndExec => StopKeepsStops(s);
      case EndQuery(prepared, ctxErr) =>
        var made := if prepared then s.(finalized := s.finalized + [0]) else s;
        PhaseKeepsStops(s, made);
        if ctxErr || !prepared {
          StopKeepsStops(made);
        } else {
          HandOverKeepsStops(made, |s.finalized|);
        }
      case CloseRows(r) =>
        CloseKeepsStops(s, r);
        PhaseKeepsStops(Stop(s, s.rows[r].stop).(rows := s.rows[r := Rows(None, None)]), Next(s, a));
      case _ => PhaseKeepsStops(s, Next(s, a));
    }
  }

  lemma StepKeepsHandles(s: State, a: Step)
    requires HandlesLinear(s) && Enabled(s, a)
    ensures HandlesLinear(Next(s, a))
  {
    var t := Next(s, a);
    if a.CloseRows? {
      var stmt := s.rows[a.r].stmt;
      assert t.rows == s.rows[a.r := Rows(None, None)];
      assert t.finalized == if stmt.None? then s.finalized else s.finalized[stmt.value := s.finalized[stmt.value] + 1];
      hide Next, Stop, InRange;
      assert forall q :: 0 <= q < |t.rows| && t.rows[q].stmt.Some? ==> q != a.r && t.rows[q] == s.rows[q];
    } else if a.EndQuery? {
      assert t.finalized == if a.prepared then s.finalized + [0] else s.finalized;
      assert t.rows == s.rows || (a.prepared && t.rows == s.rows + [Rows(s.op.value.w, Some(|s.finalized|))]);
      hide Next, Stop, InRange;
    } else {
      assert t.rows == s.rows && t.finalized == s.finalized;
    }
  }

  /** What one step can do to one watcher. */
  lemma WatcherMoves(s: State, a: Step, w: nat)
    requires Enabled(s, a) && w < |s.watchers|
    ensures var t := Next(s, a); w < |t.watchers| && (s.dead ==> t.dead)
    ensures var t, x, y := Next(s, a), s.watchers[w], Next(s, a).watchers[w];
      && (y.done == x.done || (a == ContextDone(w) && y.done))
      && match (x.phase, y.phase)
         case (Waiting, Firing) => x.done
         case (Waiting, Stopped) => x.closes > 0
         case (Firing, Marked) => t.dead
         case (Marked, Fired(_)) => true
         case _ => y.phase == x.phase
    ensures var x, y := s.watchers[w], Next(s, a).watchers[w];
      y.closes == x.closes || (y.phase == x.phase && (HeldByOp(s, w) || HeldByRows(s, w)))
  {}

  lemma StepKeepsWatchers(s: State, a: Step)
    requires WatchersHonest(s) && StopsLinear(s) && Enabled(s, a)
    ensures WatchersHonest(Next(s, a))
  {
    var t := Next(s, a);
    assert forall w :: |s.watchers| <= w < |t.watchers| ==> t.watchers[w] == Watcher(Waiting, false, 0);
    hide Next, Enabled, HeldByOp, HeldByRows, InRange;
    forall w | 0 <= w < |s.watchers|
      ensures WatcherHonest(t, w)
    {
      WatcherMoves(s, a, w);
      assert WatcherHonest(s, w);
    }
  }

  lemma StepKeepsInv(s: State, a: Step)
    requires Inv(s) && Enabled(s, a)
    ensures Inv(Next(s, a))
  {
    StepKeepsStops(s, a);
    StepKeepsHandles(s, a);
    StepKeepsWatchers(s, a);
  }

  lemma {:induction false} RunKeepsInv(s: State, run: seq<Step>)
    requires Inv(s) && Possible(s, run)
    ensures Inv(After(s, run))
    decreases |run|
  {
    if run != [] {
      StepKeepsInv(s, run[0]);
      RunKeepsInv(Next(s, run[0]), run[1..]);
    }
  }

  /** In every interleaving of calls, closes, cancellations and watcher steps: no stop channel is closed twice,
      no handle is finalized twice, a watcher whose stop function nobody holds any more has been told to stop,
      and a connection on which cancel was called is already dead. */
  lemma EveryRunIsLinear(run: seq<Step>)
    requires Possible(START, run)
    ensures var s := After(START, run);
      && (forall w :: 0 <= w < |s.watchers| ==> s.watchers[w].closes <= 1)
      && (forall w :: 0 <= w < |s.watchers| && !HeldByOp(s, w) && !HeldByRows(s, w) ==> s.watchers[w].closes == 1)
      && (forall k :: 0 <= k < |s.finalized| ==> s.finalized[k] <= 1)
      && (forall w :: 0 <= w < |s.watchers| && s.watchers[w].phase.Fired? ==> s.dead && s.watchers[w].done)
  {
    RunKeepsInv(START, run);
    var s := After(START, run);
    forall w | 0 <= w < |s.watchers| && s.watchers[w].phase.Fired?
      ensures s.dead && s.watchers[w].done
    {
      assert WatcherHonest(s, w);
    }
  }

  /** Nothing revives a connection. */
  lemma {:induction false} DeadStaysDead(s: State, run: seq<Step>)
    requires s.dead && Possible(s, run)
    ensures After(s, run).dead
    decreases |run|
  {
    if run != [] {
      DeadStaysDead(Next(s, run[0]), run[1..]);
    }
  }

  /** Closing rows again does nothing. */
  lemma CloseTwice(s: State, r: nat)
    requires Enabled(s, CloseRows(r))
    ensures Enabled(Next(s, CloseRows(r)), CloseRows(r))
    ensures Next(Next(s, CloseRows(r)), CloseRows(r)) == Next(s, CloseRows(r))
  {
    var t := Next(s, CloseRows(r));
    assert t.rows[r := Rows(None, None)] == t.rows;
  }

  // ---------------------------------------------------------------- what the protocol does not guarantee

  predicate Abandoned(s: State, k: nat)
  {
    k < |s.finalized| && s.finalized[k] == 0 && forall r :: 0 <= r < |s.rows| ==> s.rows[r].stmt != Some(k)
  }

  /** A query that is prepared but finds its context done drops its statement handle ... */
  lemma CancelledQueryAbandons(s: State)
    requires Inv(s) && Enabled(s, EndQuery(true, true))
    ensures Abandoned(Next(s, EndQuery(true, true)), |s.finalized|)
  {}

  /** ... and no later step finalizes it. */
  lemma {:induction false} AbandonedIsNeverFinalized(s: State, run: seq<Step>, k: nat)
    requires Abandoned(s, k) && Possible(s, run)
    ensures Abandoned(After(s, run), k)
    decreases |run|
  {
    if run != [] {
      AbandonedIsNeverFinalized(Next(s, run[0]), run[1..], k);
    }
  }

  /** These are the only handles lost: in every run a handle is finalized once, held by open rows, or was abandoned
      by a step that ended a prepared query with a context error. */
  lemma {:induction false} OnlyCancelledQueriesAbandon(s: State, run: seq<Step>, k: nat)
    requires Inv(s) && Possible(s, run) && Abandoned(After(s, run), k) && !Abandoned(s, k)
    ensures EndQuery(true, true) in run
    decreases |run|
  {
    if run != [] {
      var t := Next(s, run[0]);
      StepKeepsInv(s, run[0]);
      if run[0] != EndQuery(true, true) {
        StepAbandonsNothing(s, run[0], k);
        OnlyCancelledQueriesAbandon(t, run[1..], k);
        assert EndQuery(true, true) in run[1..];
      }
    }
  }

  /** So a run loses a statement handle exactly when one of its queries was prepared and then found its context done. */
  lemma HandleLostExactly(run: seq<Step>)
    requires Possible(START, run)
    ensures (exists k: nat :: Abandoned(After(START, run), k)) <==> EndQuery(true, true) in run
  {
    if EndQuery(true, true) in run {
      var k := CancelledQueryLoses(START, run);
      assert Abandoned(After(START, run), k);
    } else {
      forall k: nat
        ensures !Abandoned(After(START, run), k)
      {
        if Abandoned(After(START, run), k) {
          OnlyCancelledQueriesAbandon(START, run, k);
        }
      }
    }
  }

  lemma {:induction false} CancelledQueryLoses(s: State, run: seq<Step>) returns (k: nat)
    requires Inv(s) && Possible(s, run) && EndQuery(true, true) in run
    ensures Abandoned(After(s, run), k)
    decreases |run|
  {
    var t := Next(s, run[0]);
    if run[0] == EndQuery(true, true) {
      k := |s.finalized|;
      CancelledQueryAbandons(s);
      AbandonedIsNeverFinalized(t, run[1..], k);
    } else {
      StepKeepsInv(s, run[0]);
      assert run == [run[0]] + run[1..];
      k := CancelledQueryLoses(t, run[1..]);
    }
  }

  lemma StepAbandonsNothing(s: State, a: Step, k: nat)
    requires Inv(s) && Enabled(s, a) && a != EndQuery(true, true) && !Abandoned(s, k)
    ensures !Abandoned(Next(s, a), k)
  {
    var t := Next(s, a);
    if k < |s.finalized| && s.finalized[k] == 0 {
      var r :| 0 <= r < |s.rows| && s.rows[r].stmt == Some(k);
      if !(a.CloseRows? && a.r == r) {
        assert t.rows[r].stmt == Some(k);
      }
    } else if k == |s.finalized| && a.EndQuery? && a.prepared {
      assert t.rows[|s.rows|].stmt == Some(k);
    }
  }

  /** A connection in a call, beside a watcher of an earlier call that is in phase `p`. */
  function Beside(p: Phase, dead: bool): State { State(dead, false, Some(Exec(None)), [Watcher(p, true, 1)], [], []) }

  /** A stop function does not recall a watcher: after the call it guards has returned and closed the channel,
      a context that ends then (as a deferred cancel does) can still bring the watcher to cancel, with the next call
      already on the connection. */
  lemma LateCancel() returns (run: seq<Step>)
    ensures Reaches(START, run, Beside(Marked, true)) && Enabled(Beside(Marked, true), Cancel(0))
    ensures Next(Beside(Marked, true), Cancel(0)) == Beside(Fired(false), true)
  {
    var called := State(false, false, Some(Exec(Some(0))), [Watcher(Waiting, false, 0)], [], []);
    var returned := State(false, false, None, [Watcher(Waiting, false, 1)], [], []);
    var done := State(false, false, None, [Watcher(Waiting, true, 1)], [], []);
    run := WatcherRunsOn();
    hide Reaches, Possible, After;
    run := ReachBack(done, BeginExec(false), Beside(Waiting, false), run, Beside(Marked, true));
    run := ReachBack(returned, ContextDone(0), done, run, Beside(Marked, true));
    run := ReachBack(called, EndExec, returned, run, Beside(Marked, true));
    run := ReachBack(START, BeginExec(true), called, run, Beside(Marked, true));
  }

  lemma WatcherRunsOn() returns (run: seq<Step>)
    ensures Reaches(Beside(Waiting, false), run, Beside(Marked, true))
  {
    run := [];
    run := ReachBack(Beside(Firing, false), StoreDead(0), Beside(Marked, true), run, Beside(Marked, true));
    run := ReachBack(Beside(Waiting, false), TakeDone(0), Beside(Firing, false), run, Beside(Marked, true));
  }

  predicate Reaches(s: State, run: seq<Step>, t: State) { Possible(s, run) && After(s, run) == t }

  lemma ReachBack(s: State, a: Step, t: State, run: seq<Step>, end: State) returns (longer: seq<Step>)
    requires Enabled(s, a) && Next(s, a) == t && Reaches(t, run, end)
    ensures longer == [a] + run && Reaches(s, longer, end)
  {
    longer := [a] + run;
    assert longer[1..] == run;
  }

  lemma {:induction false} StoppedStaysStopped(s: State, run: seq<Step>, i: nat)
    requires Possible(s, run) && i < |s.watchers| && s.watchers[i].phase == Stopped
    ensures i < |After(s, run).watchers| && After(s, run).watchers[i].phase == Stopped
    decreases |run|
  {
    if run != [] {
      WatcherMoves(s, run[0], i);
      hide Next, Enabled, HeldByOp, HeldByRows;
      StoppedStaysStopped(Next(s, run[0]), run[1..], i);
    }
  }

  predicate FiresIn(s: State, run: seq<Step>, i: nat)
  {
    Possible(s, run) && i < |After(s, run).watchers| && After(s, run).watchers[i].phase.Fired?
  }

  lemma FirstThen(s: State, a: Step, run: seq<Step>, i: nat)
    requires Enabled(s, a) && FiresIn(Next(s, a), run, i)
    ensures FiresIn(s, [a] + run, i)
  {
    assert ([a] + run)[1..] == run;
  }

  /** Exactly when: however often its stop function was called, a watcher can still fire
      if and only if it has not itself taken the stop branch. */
  lemma FiresUnlessStopped(s: State, i: nat)
    requires i < |s.watchers|
    ensures (exists run :: FiresIn(s, run, i)) <==> s.watchers[i].phase != Stopped
  {
    var p := s.watchers[i].phase;
    if p == Stopped {
      forall run | Possible(s, run)
        ensures !FiresIn(s, run, i)
      {
        StoppedStaysStopped(s, run, i);
      }
    } else {
      var s1 := if p == Waiting then Next(s, ContextDone(i)) else s;
      var s2 := if p == Waiting then Next(s1, TakeDone(i)) else s1;
      var s3 := if p in {Waiting, Firing} then Next(s2, StoreDead(i)) else s2;
      var s4 := if p in {Waiting, Firing, Marked} then Next(s3, Cancel(i)) else s3;
      assert FiresIn(s4, [], i);
      if p in {Waiting, Firing, Marked} { FirstThen(s3, Cancel(i), [], i); }
      if p in {Waiting, Firing} { FirstThen(s2, StoreDead(i), [Cancel(i)] + [], i); }
      if p == Waiting {
        FirstThen(s1, TakeDone(i), [StoreDead(i)] + ([Cancel(i)] + []), i);
        FirstThen(s, ContextDone(i), [TakeDone(i)] + ([StoreDead(i)] + ([Cancel(i)] + [])), i);
      }
    }
  }

  // A caller sees neither phases nor channels: what it knows is whether its context has ended.

  /** A run, without the end of its context, that brings watcher `i` to where its next step is the cancel. */
  predicate AboutToCancel(s: State, run: seq<Step>, i: nat)
  {
    Possible(s, run) && ContextDone(i) !in run && Enabled(After(s, run), Cancel(i))
  }

  /** At that moment another call, begun in the run, is on the open connection. */
  predicate CancelsLaterCall(s: State, run: seq<Step>, i: nat)
    requires s.op.None?
  {
    AboutToCancel(s, run, i) && After(s, run).op.Some? && !After(s, run).closed
  }

  /** At that moment the handle has been closed. */
  predicate CancelsClosed(s: State, run: seq<Step>, i: nat)
    requires !s.closed
  {
    AboutToCancel(s, run, i) && After(s, run).closed
  }

  lemma {:induction false} LiveContextIsSafe(s: State, run: seq<Step>, i: nat)
    requires Possible(s, run) && ContextDone(i) !in run
    requires i < |s.watchers| && !s.watchers[i].done && s.watchers[i].phase in {Waiting, Stopped}
    ensures !FiresIn(s, run, i) && !AboutToCancel(s, run, i)
    decreases |run|
  {
    if run != [] {
      assert run[0] in run && forall a :: a in run[1..] ==> a in run;
      StaysQuiet(s, run[0], i);
      LiveContextIsSafe(Next(s, run[0]), run[1..], i);
    }
  }

  lemma StaysQuiet(s: State, a: Step, i: nat)
    requires Enabled(s, a) && a != ContextDone(i)
    requires i < |s.watchers| && !s.watchers[i].done && s.watchers[i].phase in {Waiting, Stopped}
    ensures var t := Next(s, a); i < |t.watchers| && !t.watchers[i].done && t.watchers[i].phase in {Waiting, Stopped}
  {
    WatcherMoves(s, a, i);
    hide Next, Enabled, HeldByOp, HeldByRows;
  }

  /** The watcher's own steps up to the cancel, from a state in which its context has ended. */
  lemma GoesOff(s: State, i: nat) returns (run: seq<Step>, t: State)
    requires i < |s.watchers| && s.watchers[i].phase == Waiting && s.watchers[i].done
    ensures Reaches(s, run, t) && ContextDone(i) !in run && Enabled(t, Cancel(i))
    ensures t.op == s.op && t.closed == s.closed
  {
    var s1 := Next(s, TakeDone(i));
    t := Next(s1, StoreDead(i));
    run := [];
    assert Reaches(t, run, t);
    hide Reaches, Possible, After;
    run := ReachBack(s1, StoreDead(i), t, run, t);
    run := ReachBack(s, TakeDone(i), s1, run, t);
  }

  /** Exactly when a watcher whose call is over can still do harm, whether or not it was told to stop: when its context
      ended before it took the stop.  Then it can shut down the connection under a later call, and reach for
      a handle that has been closed; with a context that stays alive it can do neither. */
  lemma LateCancelExactly(s: State, i: nat)
    requires i < |s.watchers| && s.watchers[i].phase == Waiting && s.op.None? && !s.closed
    ensures (exists run :: CancelsLaterCall(s, run, i)) <==> s.watchers[i].done
    ensures (exists run :: CancelsClosed(s, run, i)) <==> s.watchers[i].done
  {
    if s.watchers[i].done {
      var run := LaterCall(s, i);
      assert CancelsLaterCall(s, run, i);
      run := AfterClose(s, i);
      assert CancelsClosed(s, run, i);
    } else {
      forall run | Possible(s, run) && ContextDone(i) !in run
        ensures !AboutToCancel(s, run, i)
      {
        LiveContextIsSafe(s, run, i);
      }
    }
  }

  lemma LaterCall(s: State, i: nat) returns (run: seq<Step>)
    requires i < |s.watchers| && s.watchers[i].phase == Waiting && s.watchers[i].done && s.op.None? && !s.closed
    ensures CancelsLaterCall(s, run, i)
  {
    var called, t := Next(s, BeginExec(false)), s;
    run, t := GoesOff(called, i);
    run := ReachBack(s, BeginExec(false), called, run, t);
  }

  lemma AfterClose(s: State, i: nat) returns (run: seq<Step>)
    requires i < |s.watchers| && s.watchers[i].phase == Waiting && s.watchers[i].done && s.op.None? && !s.closed
    ensures CancelsClosed(s, run, i)
  {
    var closed, t := Next(s, CloseConn), s;
    run, t := GoesOff(closed, i);
    run := ReachBack(s, CloseConn, closed, run, t);
  }
}
