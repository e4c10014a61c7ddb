/**
 The idle stack both client pools keep behind their lock, its eviction, and who owns which
 connection.

 A connection is given back with the time it became idle, and is taken from the same end.
 Reserving and giving back evict first what has been idle too long, wherever it stands in the
 stack, and lower the count by what they evicted. A connection is in one place at most: idle
 once, or held by one client. The count also covers those being opened, which are nowhere
 yet; that is why it is kept apart from the stack and may be lowered without touching it.
 */
module IdleConnections {
  import opened Wrappers

  type Conn = nat
  type Millis = nat

  datatype Entry = Entry(conn: Conn, lastUsed: Millis)

  /** Entries at least this recent stay; None keeps everything. When the clock is younger
      than the time to live, the cutoff is the present. */
  function Cutoff(ttl: Millis, now: Millis, later: Millis): Option<Millis> {
    if ttl == 0 then None else if ttl <= now then Some(now - ttl) else Some(later)
  }

  predicate Keeps(cutoff: Option<Millis>, e: Entry) {
    cutoff.Some? ==> cutoff.value <= e.lastUsed
  }

  /** The entries that stay, in order. */
  function Fresh(idle: seq<Entry>, cutoff: Option<Millis>): seq<Entry> {
    if idle == [] then []
    else
      var last := idle[|idle| - 1];
      Fresh(idle[..|idle| - 1], cutoff) + if Keeps(cutoff, last) then [last] else []
  }

  lemma {:induction false} FreshLength(idle: seq<Entry>, cutoff: Option<Millis>)
    ensures |Fresh(idle, cutoff)| <= |idle|
    ensures cutoff.None? ==> Fresh(idle, cutoff) == idle
  {
    if idle != [] {
      FreshLength(idle[..|idle| - 1], cutoff);
    }
  }

  lemma {:induction false} CountLast(s: seq<Entry>, last: Entry, e: Entry)
    ensures multiset(s + [last])[e] == multiset(s)[e] + if last == e then 1 else 0
  {
  }

  /** Eviction keeps exactly the fresh entries, each as often as it was there. */
  lemma {:induction false} FreshExactly(idle: seq<Entry>, cutoff: Option<Millis>, e: Entry)
    ensures multiset(Fresh(idle, cutoff))[e] == if Keeps(cutoff, e) then multiset(idle)[e] else 0
  {
    if idle != [] {
      var before := idle[..|idle| - 1];
      var last := idle[|idle| - 1];
      FreshExactly(before, cutoff, e);
      CountLast(before, last, e);
      CountLast(Fresh(before, cutoff), last, e);
      assert idle == before + [last];
      assert Fresh(before, cutoff) + [] == Fresh(before, cutoff);
    }
  }

  /** The survivors are the connections used within the time to live, all of them when that is
      zero; when the clock is younger than it, those used since the clock was read again. */
  lemma {:induction false} SurvivorsAreRecent(idle: seq<Entry>, ttl: Millis, now: Millis, later: Millis, e: Entry)
    ensures multiset(Fresh(idle, Cutoff(ttl, now, later)))[e]
         == if ttl == 0 || (ttl <= now && now - e.lastUsed <= ttl) || (now < ttl && later <= e.lastUsed)
            then multiset(idle)[e] else 0
  {
    FreshExactly(idle, Cutoff(ttl, now, later), e);
  }

  /** Eviction keeps the order: the survivors sit at increasing places of the old stack. */
  lemma {:induction false} FreshPlaces(idle: seq<Entry>, cutoff: Option<Millis>) returns (places: seq<nat>)
    ensures |places| == |Fresh(idle, cutoff)|
    ensures forall i :: 0 <= i < |places| ==> places[i] < |idle| && Fresh(idle, cutoff)[i] == idle[places[i]]
    ensures forall i, j :: 0 <= i < j < |places| ==> places[i] < places[j]
  {
    places := [];
    if idle != [] {
      places := FreshPlaces(idle[..|idle| - 1], cutoff);
      if Keeps(cutoff, idle[|idle| - 1]) {
        places := places + [|idle| - 1];
      }
    }
  }

  // --- The counter and the stack ---

  datatype Core = Core(max: nat, total: int, idle: seq<Entry>)
  {
    function Evict(cutoff: Option<Millis>): Core {
      var kept := Fresh(idle, cutoff);
      Core(max, total - (|idle| - |kept|), kept)
    }

    function Forget(): Core {
      Core(max, total - 1, idle)
    }

    function GiveBack(conn: Conn, now: Millis, cutoff: Option<Millis>): Core {
      var core := Evict(cutoff);
      core.(idle := core.idle + [Entry(conn, now)])
    }

    /** A reused connection, leave to create one, or neither. */
    function Reserve(cutoff: Option<Millis>): (Core, Reservation) {
      var core := Evict(cutoff);
      if core.idle != [] then
        var last := |core.idle| - 1;
        (core.(idle := core.idle[..last]), Reused(core.idle[last].conn))
      else if core.total < max then (core.(total := core.total + 1), MayCreate)
      else (core, Full)
    }
  }

  datatype Reservation = Reused(conn: Conn) | MayCreate | Full

  /** The pool object; each method is one region under its lock, or one atomic update. */
  class PoolInner {
    const max: nat
    var total: int
    var idle: seq<Entry>

    function State(): Core
      reads this
    {
      Core(max, total, idle)
    }

    constructor (max: nat)
      ensures State() == Core(max, 0, [])
    {
      this.max := max;
      total, idle := 0, [];
    }

    /** `now` and `later` are the two readings of the clock. */
    method EvictIdle(ttl: Millis, now: Millis, later: Millis)
      modifies this
      ensures State() == old(State()).Evict(Cutoff(ttl, now, later))
    {
      if ttl == 0 {
        FreshLength(idle, None);
        return;
      }
      var cutoff := if ttl <= now then now - ttl else later;
      ghost var before := idle;
      var kept: seq<Entry> := [];
      var removed := 0;
      for i := 0 to |idle|
        invariant idle == before && total == old(total)
        invariant kept == Fresh(before[..i], Some(cutoff))
        invariant removed + |kept| == i
      {
        assert before[..i + 1][..i] == before[..i];
        if cutoff <= idle[i].lastUsed {
          kept := kept + [idle[i]];
        } else {
          removed := removed + 1;
        }
      }
      assert before[..|before|] == before;
      idle := kept;
      if removed > 0 {
        total := total - removed;
      }
    }

    method ReserveConnection(ttl: Millis, now: Millis, later: Millis) returns (r: Reservation)
      modifies this
      ensures (State(), r) == old(State()).Reserve(Cutoff(ttl, now, later))
    {
      EvictIdle(ttl, now, later);
      if idle != [] {
        r := Reused(idle[|idle| - 1].conn);
        idle := idle[..|idle| - 1];
      } else if total < max {
        total := total + 1;
        r := MayCreate;
      } else {
        r := Full;
      }
    }

    method ReleaseConnection(conn: Conn, ttl: Millis, now: Millis, later: Millis, used: Millis)
      modifies this
      ensures State() == old(State()).GiveBack(conn, used, Cutoff(ttl, now, later))
    {
      EvictIdle(ttl, now, later);
      idle := idle + [Entry(conn, used)];
    }

    method DropConnection()
      modifies this
      ensures State() == old(State()).Forget()
    {
      total := total - 1;
    }
  }

  /** The connection given back last is the one reused next, and the others stay as they are. */
  lemma {:induction false} LastInFirstOut(core: Core, conn: Conn, now: Millis, cutoff: Option<Millis>)
    requires cutoff.Some? ==> cutoff.value <= now
    ensures var (after, r) := core.GiveBack(conn, now, cutoff).Reserve(cutoff);
            r == Reused(conn) && after == core.Evict(cutoff)
  {
    var kept := Fresh(core.idle, cutoff);
    FreshTwice(core.idle, cutoff);
    var pushed := kept + [Entry(conn, now)];
    assert pushed[..|kept|] == kept;
    assert Fresh(pushed, cutoff) == pushed;
  }

  lemma {:induction false} FreshTwice(idle: seq<Entry>, cutoff: Option<Millis>)
    ensures Fresh(Fresh(idle, cutoff), cutoff) == Fresh(idle, cutoff)
  {
    if idle != [] {
      var before, last := idle[..|idle| - 1], idle[|idle| - 1];
      FreshTwice(before, cutoff);
      var kept := Fresh(before, cutoff);
      if Keeps(cutoff, last) {
        assert (kept + [last])[..|kept|] == kept;
      } else {
        assert kept + [] == kept;
      }
    }
  }

  /** With nothing recent idle, a connection may be created exactly below the limit. */
  lemma {:induction false} NothingIdle(core: Core, cutoff: Option<Millis>)
    requires Fresh(core.idle, cutoff) == []
    ensures var (after, r) := core.Reserve(cutoff);
            var left := core.total - |core.idle|;
            && (r == MayCreate <==> left < core.max)
            && (r == Full <==> left >= core.max)
            && after == Core(core.max, if r == MayCreate then left + 1 else left, [])
  {
  }

  // --- Who owns which connection ---

  /** No connection is idle twice, held twice, or both; numbers from `next` on are unused. */
  ghost predicate Owned(idle: seq<Entry>, held: seq<Option<Conn>>, next: Conn) {
    && (forall i, j :: 0 <= i < j < |idle| ==> idle[i].conn != idle[j].conn)
    && (forall t, u :: 0 <= t < u < |held| && held[t].Some? ==> held[t] != held[u])
    && (forall i, t :: 0 <= i < |idle| && 0 <= t < |held| ==> held[t] != Some(idle[i].conn))
    && (forall i :: 0 <= i < |idle| ==> idle[i].conn < next)
    && (forall t :: 0 <= t < |held| && held[t].Some? ==> held[t].value < next)
  }

  lemma {:induction false} OwnedEvict(idle: seq<Entry>, held: seq<Option<Conn>>, next: Conn, cutoff: Option<Millis>)
    requires Owned(idle, held, next)
    ensures Owned(Fresh(idle, cutoff), held, next)
  {
    var places := FreshPlaces(idle, cutoff);
  }

  lemma {:induction false} OwnedPop(idle: seq<Entry>, held: seq<Option<Conn>>, next: Conn, t: nat)
    requires Owned(idle, held, next) && idle != [] && t < |held| && held[t].None?
    ensures Owned(idle[..|idle| - 1], held[t := Some(idle[|idle| - 1].conn)], next)
  {
  }

  lemma {:induction false} OwnedPush(idle: seq<Entry>, held: seq<Option<Conn>>, next: Conn, t: nat, now: Millis)
    requires Owned(idle, held, next) && t < |held| && held[t].Some?
    ensures Owned(idle + [Entry(held[t].value, now)], held[t := None], next)
  {
  }

  lemma {:induction false} OwnedCreate(idle: seq<Entry>, held: seq<Option<Conn>>, next: Conn, t: nat)
    requires Owned(idle, held, next) && t < |held| && held[t].None?
    ensures Owned(idle, held[t := Some(next)], next + 1)
  {
  }

  lemma {:induction false} OwnedLose(idle: seq<Entry>, held: seq<Option<Conn>>, next: Conn, t: nat)
    requires Owned(idle, held, next) && t < |held|
    ensures Owned(idle, held[t := None], next)
  {
  }

  lemma {:induction false} OwnedArrive(idle: seq<Entry>, held: seq<Option<Conn>>, next: Conn)
    requires Owned(idle, held, next)
    ensures Owned(idle, held + [None], next)
  {
  }
}
