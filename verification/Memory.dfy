/** Agent memory (internal/ai/manager.go:299-380): a list that is searched, updated and compacted in place,
    and must behave as a map whose entries expire. */
module Memory {
  import opened Clock
  import opened Options

  datatype Scope = Session | Agent | Project

  /** `expires` and `created` are whole seconds; None is for an entry without a time to live. */
  datatype Entry = Entry(key: string, value: string, scope: Scope, agent: string, expires: Option<int>, created: int)

  datatype Id = Id(agent: string, key: string, scope: Scope)

  function IdOf(e: Entry): Id { Id(e.agent, e.key, e.scope) }

  predicate Expired(e: Entry, now: int) { e.expires.Some? && now > e.expires.value * SECOND }

  function NewEntry(id: Id, value: string, ttl: int, now: int): Entry
  {
    Entry(id.key, value, id.scope, id.agent, if ttl > 0 then Some((now + ttl) / SECOND) else None, now / SECOND)
  }

  // ---------------------------------------------------------------- the list

  /** Where `id` is first listed, or the length of the list. */
  function IndexOf(es: seq<Entry>, id: Id): (i: nat)
    ensures i <= |es| && (i < |es| ==> IdOf(es[i]) == id)
    ensures forall k :: 0 <= k < i ==> IdOf(es[k]) != id
  {
    if es == [] then 0 else if IdOf(es[0]) == id then 0 else 1 + IndexOf(es[1..], id)
  }

  function Written(es: seq<Entry>, e: Entry): seq<Entry>
  {
    var i := IndexOf(es, IdOf(e));
    if i < |es| then es[i := e] else es + [e]
  }

  predicate Purges(agent: string, id: Id) { id.agent == agent && id.scope == Session }

  /** The entries that survive a purge, in their order. */
  function Purged(es: seq<Entry>, agent: string): seq<Entry>
  {
    if es == [] then [] else
    Purged(es[..|es| - 1], agent) + if Purges(agent, IdOf(es[|es| - 1])) then [] else [es[|es| - 1]]
  }

  lemma PurgedSnoc(es: seq<Entry>, i: nat, agent: string)
    requires i < |es|
    ensures Purged(es[..i + 1], agent) == Purged(es[..i], agent) + if Purges(agent, IdOf(es[i])) then [] else [es[i]]
  {
    assert es[..i + 1][..i] == es[..i];
  }

  function Read(es: seq<Entry>, id: Id, now: int): Option<string>
  {
    var i := IndexOf(es, id);
    if i < |es| && !Expired(es[i], now) then Some(es[i].value) else None
  }

  lemma IndexOfIs(es: seq<Entry>, id: Id, i: nat)
    requires i <= |es| && (i < |es| ==> IdOf(es[i]) == id)
    requires forall k :: 0 <= k < i ==> IdOf(es[k]) != id
    ensures IndexOf(es, id) == i
  {}

  class Store {
    var buf: array<Entry>
    var len: nat

    ghost predicate Valid()
      reads this
    {
      len <= buf.Length
    }

    function Entries(): seq<Entry>
      requires Valid()
      reads this, buf
    {
      buf[..len]
    }

    constructor ()
      ensures Valid() && Entries() == [] && fresh(buf)
    {
      buf := new Entry[0];
      len := 0;
    }

    method WriteMemory(id: Id, value: string, ttl: int, now: int) returns (e: Entry)
      requires Valid()
      modifies this, buf
      ensures Valid() && (buf == old(buf) || fresh(buf))
      ensures e == NewEntry(id, value, ttl, now)
      ensures Entries() == Written(old(Entries()), e)
    {
      var exp := None;
      if ttl > 0 {
        exp := Some((now + ttl) / SECOND);
      }
      e := Entry(id.key, value, id.scope, id.agent, exp, now / SECOND);
      for i := 0 to len
        invariant unchanged(this) && unchanged(buf)
        invariant forall k :: 0 <= k < i ==> IdOf(buf[k]) != id
      {
        if buf[i].agent == id.agent && buf[i].key == id.key && buf[i].scope == id.scope {
          IndexOfIs(Entries(), id, i);
          buf[i] := e;
          return;
        }
      }
      IndexOfIs(Entries(), id, len);
      if len == buf.Length {
        Grow(e);
      }
      buf[len] := e;
      len := len + 1;
    }

    /** What append does at capacity: a larger array with the same entries. */
    method Grow(filler: Entry)
      requires Valid()
      modifies this`buf
      ensures Valid() && fresh(buf) && buf.Length > old(buf.Length)
      ensures buf[..len] == old(buf[..len])
    {
      var bigger := new Entry[2 * buf.Length + 1](_ => filler);
      for i := 0 to len
        invariant buf == old(buf) && bigger != buf && buf[..] == old(buf[..])
        invariant bigger[..i] == buf[..i]
      {
        bigger[i] := buf[i];
      }
      buf := bigger;
    }

    method ReadMemory(id: Id, now: int) returns (value: Option<string>)
      requires Valid()
      ensures value == Read(Entries(), id, now)
    {
      for i := 0 to len
        invariant forall k :: 0 <= k < i ==> IdOf(buf[k]) != id
      {
        if buf[i].agent != id.agent || buf[i].key != id.key || buf[i].scope != id.scope {
          continue;
        }
        IndexOfIs(Entries(), id, i);
        if buf[i].expires.Some? && now > buf[i].expires.value * SECOND {
          return None;
        }
        return Some(buf[i].value);
      }
      IndexOfIs(Entries(), id, len);
      return None;
    }

    /** Compacts the list in place: the write index never passes the read index. */
    method PurgeSessionMemory(agent: string)
      requires Valid()
      modifies this`len, buf
      ensures Valid() && Entries() == Purged(old(Entries()), agent)
      ensures forall k :: old(len) <= k < buf.Length ==> buf[k] == old(buf[k])
    {
      var kept := 0;
      ghost var was := Entries();
      assert Purged(was[..0], agent) == [];
      hide Purged;
      for i := 0 to len
        invariant kept <= i && len == old(len)
        invariant buf[..kept] == Purged(was[..i], agent)
        invariant forall k :: i <= k < buf.Length ==> buf[k] == old(buf[k])
      {
        var e := buf[i];
        assert e == was[i];
        PurgedSnoc(was, i, agent);
        if !(e.agent == agent && e.scope == Session) {
          ghost var before := buf[..kept];
          buf[kept] := e;
          kept := kept + 1;
          assert buf[..kept] == before + [e];
        }
      }
      assert was[..len] == was;
      len := kept;
    }
  }

  // ---------------------------------------------------------------- histories

  datatype Op = Write(e: Entry) | Purge(agent: string)

  function Apply(es: seq<Entry>, op: Op): seq<Entry>
  {
    match op case Write(e) => Written(es, e) case Purge(agent) => Purged(es, agent)
  }

  function After(ops: seq<Op>): seq<Entry>
  {
    if ops == [] then [] else Apply(After(ops[..|ops| - 1]), ops[|ops| - 1])
  }

  /** What a map would hold: the last write to `id`, unless a purge that takes it came later. */
  function Latest(ops: seq<Op>, id: Id): Option<Entry>
  {
    if ops == [] then None else
    match ops[|ops| - 1]
    case Write(e) => if IdOf(e) == id then Some(e) else Latest(ops[..|ops| - 1], id)
    case Purge(agent) => if Purges(agent, id) then None else Latest(ops[..|ops| - 1], id)
  }

  /** No id is listed twice. */
  predicate Distinct(es: seq<Entry>) { forall i, j :: 0 <= i < j < |es| ==> IdOf(es[i]) != IdOf(es[j]) }

  function Find(es: seq<Entry>, id: Id): Option<Entry>
  {
    var i := IndexOf(es, id);
    if i < |es| then Some(es[i]) else None
  }

  lemma WrittenFinds(es: seq<Entry>, e: Entry, id: Id)
    requires Distinct(es)
    ensures Distinct(Written(es, e))
    ensures Find(Written(es, e), id) == if id == IdOf(e) then Some(e) else Find(es, id)
  {
    var i, t := IndexOf(es, IdOf(e)), Written(es, e);
    IndexOfIs(t, IdOf(e), i);
    if id != IdOf(e) {
      var j := IndexOf(es, id);
      if j < |es| {
        IndexOfIs(t, id, j);
      } else {
        IndexOfIs(t, id, |t|);
      }
    }
  }

  /** An id is listed at most once, so finding it is membership. */
  lemma FindIsMembership(es: seq<Entry>, id: Id, e: Entry)
    requires Distinct(es) && IdOf(e) == id
    ensures Find(es, id) == Some(e) <==> e in es
  {
    if e in es {
      var k :| 0 <= k < |es| && es[k] == e;
      IndexOfIs(es, id, k);
    }
  }

  lemma {:induction false} PurgedKeeps(es: seq<Entry>, agent: string)
    ensures forall e :: e in Purged(es, agent) <==> e in es && !Purges(agent, IdOf(e))
    ensures Distinct(es) ==> Distinct(Purged(es, agent))
  {
    if es != [] {
      var n := |es| - 1;
      PurgedKeeps(es[..n], agent);
      assert es == es[..n] + [es[n]];
      if Distinct(es) {
        forall e | e in Purged(es[..n], agent)
          ensures IdOf(e) != IdOf(es[n])
        {
          assert e in es[..n];
        }
      }
    }
  }

  lemma PurgedFinds(es: seq<Entry>, agent: string, id: Id)
    requires Distinct(es)
    ensures Distinct(Purged(es, agent))
    ensures Find(Purged(es, agent), id) == if Purges(agent, id) then None else Find(es, id)
  {
    PurgedKeeps(es, agent);
    var t := Purged(es, agent);
    if Find(t, id).Some? {
      var e := Find(t, id).value;
      assert e in t;
      FindIsMembership(es, id, e);
    } else if Find(es, id).Some? && !Purges(agent, id) {
      var e := Find(es, id).value;
      assert e in es;
      FindIsMembership(t, id, e);
    }
  }

  /** The list refines a map: after every sequence of writes and purges it lists each id at most once,
      with exactly its latest write that was not purged. */
  lemma {:induction false} ListRefinesMap(ops: seq<Op>, id: Id)
    ensures Distinct(After(ops)) && Find(After(ops), id) == Latest(ops, id)
  {
    if ops != [] {
      var n := |ops| - 1;
      ListRefinesMap(ops[..n], id);
      match ops[n] {
        case Write(e) => WrittenFinds(After(ops[..n]), e, id);
        case Purge(agent) => PurgedFinds(After(ops[..n]), agent, id);
      }
    }
  }

  /** So a read returns the value of the latest write to its id, unless that was purged or has expired. */
  lemma ReadsLatest(ops: seq<Op>, id: Id, now: int)
    ensures Read(After(ops), id, now) ==
      match Latest(ops, id)
      case None => None
      case Some(e) => if Expired(e, now) then None else Some(e.value)
  {
    ListRefinesMap(ops, id);
  }

  /** How long a time to live lasts: never longer than asked for, and less than a second shorter. */
  lemma TtlIsKept(id: Id, value: string, ttl: int, written: int, now: int)
    requires ttl > 0
    ensures var e := NewEntry(id, value, ttl, written);
      && (now > written + ttl ==> Expired(e, now))
      && (now <= written + ttl - SECOND ==> !Expired(e, now))
  {
    var end := written + ttl;
    assert end == (end / SECOND) * SECOND + end % SECOND;
  }

  // ---------------------------------------------------------------- one write, one read, one purge

  /** What a write stores, another read gives back until its last whole second is over, whatever was listed before. */
  lemma WriteThenRead(es: seq<Entry>, agent: string, key: string, scope: Scope, value: string, ttl: int, now: int, later: int)
    requires Distinct(es)
    ensures var t := Written(es, NewEntry(Id(agent, key, scope), value, ttl, now));
      Read(t, Id(agent, key, scope), later) ==
        if ttl > 0 && later > (now + ttl) / 1_000_000_000 * 1_000_000_000 then None else Some(value)
  {
    WrittenFinds(es, NewEntry(Id(agent, key, scope), value, ttl, now), Id(agent, key, scope));
  }

  /** Everything listed keeps its place, or is the one entry of the same agent, key and scope. */
  lemma WriteKeepsOthers(es: seq<Entry>, e: Entry, k: nat)
    requires Distinct(es) && k < |es|
    ensures k < |Written(es, e)|
    ensures Written(es, e)[k] ==
      if es[k].agent == e.agent && es[k].key == e.key && es[k].scope == e.scope then e else es[k]
    ensures |Written(es, e)| == |es| + if exists i :: 0 <= i < |es| && IdOf(es[i]) == IdOf(e) then 0 else 1
  {
    var i := IndexOf(es, IdOf(e));
    if IdOf(es[k]) == IdOf(e) {
      IndexOfIs(es, IdOf(e), k);
    }
  }

  /** A purge takes exactly the session entries of the agent. */
  lemma PurgeTakesSessions(es: seq<Entry>, agent: string, e: Entry)
    ensures e in Purged(es, agent) <==> e in es && (e.agent != agent || e.scope == Agent || e.scope == Project)
  {
    PurgedKeeps(es, agent);
  }

  /** And it leaves the others in their order. */
  lemma {:induction false} PurgeKeepsOrder(a: seq<Entry>, b: seq<Entry>, agent: string)
    ensures Purged(a + b, agent) == Purged(a, agent) + Purged(b, agent)
    decreases |b|
  {
    if b == [] {
      assert a + b == a;
    } else {
      var n := |b| - 1;
      PurgeKeepsOrder(a, b[..n], agent);
      assert (a + b)[..|a + b| - 1] == a + b[..n] && (a + b)[|a + b| - 1] == b[n];
    }
  }
}
