/**
 Request cancellation over shared connections: every mutex-held region is one step, and
 everything else interleaves freely.
 */
module Cancellation {
  import opened Wrappers

  type ConnId = nat
  type RequestId = nat

  // --- The mutex-guarded state of one request ---

  datatype Cell = Cell(cancelled: bool, interrupt: Option<ConnId>)

  const FRESH := Cell(false, None)

  /** None when the request was already cancelled. */
  function ActivateCell(cell: Cell, conn: ConnId): Option<Cell> {
    if cell.cancelled then None else Some(cell.(interrupt := Some(conn)))
  }

  /** The new state, and whether the interrupt task must be spawned. */
  function CancelCell(cell: Cell): (Cell, bool) {
    (cell.(cancelled := true), !cell.cancelled && cell.interrupt.Some?)
  }

  function ReleaseCell(cell: Cell): Cell {
    cell.(interrupt := None)
  }

  /** The object whose fields the mutex guards; each method is one critical section. */
  class RequestCancellation {
    var cancelled: bool
    var interrupt: Option<ConnId>

    function State(): Cell
      reads this
    {
      Cell(cancelled, interrupt)
    }

    constructor ()
      ensures State() == FRESH
    {
      cancelled, interrupt := false, None;
    }

    method Check() returns (ok: bool)
      ensures ok == !cancelled
    {
      ok := !cancelled;
    }

    method Activate(conn: ConnId) returns (ok: bool)
      modifies this
      ensures ok == ActivateCell(old(State()), conn).Some?
      ensures ok <==> !old(cancelled)
      ensures cancelled == old(cancelled) && interrupt == if ok then Some(conn) else old(interrupt)
      ensures State() == if ok then ActivateCell(old(State()), conn).value else old(State())
    {
      if cancelled {
        return false;
      }
      interrupt := Some(conn);
      return true;
    }

    method Cancel() returns (spawn: bool)
      modifies this
      ensures (State(), spawn) == CancelCell(old(State()))
      ensures spawn <==> !old(cancelled) && old(interrupt).Some?
      ensures cancelled && interrupt == old(interrupt)
    {
      if cancelled {
        return false;
      }
      cancelled := true;
      if interrupt.None? {
        return false;
      }
      return true;
    }

    /** One tick of the interrupt task: the connection it hits, or None to stop. */
    method InterruptActive() returns (hit: Option<ConnId>)
      ensures hit == interrupt
    {
      hit := interrupt;
    }

    /** Dropping the guard. */
    method Release()
      modifies this
      ensures State() == ReleaseCell(old(State()))
      ensures interrupt.None? && cancelled == old(cancelled)
    {
      interrupt := None;
    }
  }

  // --- Any number of requests over any number of connections ---

  datatype Phase =
    | Queued     // waiting for the connection lock
    | Locked     // holds the lock, guard not up
    | Armed      // holds the lock, guard up, statement not started
    | Running    // holds the lock, guard up, past the check before execution
    | Disarmed   // holds the lock, guard down, about to unlock
    | Finished

  /** `cancellable` is false for callers that lock the connection without a cell.
      `spawning` counts cancel calls between their critical section and the spawn,
      `loops` the live interrupt tasks, `executed` the statements started. */
  datatype Request = Request(
    conn: ConnId, cancellable: bool, phase: Phase, cell: Cell, spawning: nat, loops: nat, executed: nat)
  {
    predicate HoldsLock() {
      phase in {Locked, Armed, Running, Disarmed}
    }

    predicate GuardUp() {
      phase in {Armed, Running} && cancellable
    }
  }

  /** One interrupt: the request whose task fired it, the connection it hit, and who owned
      that connection at that moment. */
  datatype Hit = Hit(sender: RequestId, conn: ConnId, owner: Option<RequestId>)

  datatype State = State(requests: map<RequestId, Request>, owner: map<ConnId, RequestId>, hits: seq<Hit>)

  const INIT := State(map[], map[], [])

  datatype Step =
    | Arrive(r: RequestId, conn: ConnId, cancellable: bool)
    | GiveUp(r: RequestId)      // the check before queueing fails
    | Lock(r: RequestId)
    | Activate(r: RequestId)
    | CheckBeforeRun(r: RequestId)
    | Execute(r: RequestId)
    | Disarm(r: RequestId)
    | Unlock(r: RequestId, retry: bool)
    | Cancel(r: RequestId)
    | Spawn(r: RequestId)
    | Tick(r: RequestId)

  function OwnerOf(s: State, c: ConnId): Option<RequestId> {
    if c in s.owner then Some(s.owner[c]) else None
  }

  /** What a step makes of its own request, whose connection is `free` or not; None when the
      step cannot happen. */
  function Advance(q: Request, step: Step, free: bool): Option<Request> {
    match step
    case Arrive(_, _, _) => None
    case GiveUp(_) =>
      if q.phase == Queued && q.cell.cancelled then Some(q.(phase := Finished)) else None
    case Lock(_) =>
      if q.phase == Queued && free then Some(q.(phase := Locked)) else None
    case Activate(_) =>
      if q.phase != Locked then None
      else if !q.cancellable then Some(q.(phase := Armed))
      else if ActivateCell(q.cell, q.conn).None? then Some(q.(phase := Disarmed))
      else Some(q.(phase := Armed, cell := ActivateCell(q.cell, q.conn).value))
    case CheckBeforeRun(_) =>
      if q.phase != Armed || (q.cancellable && q.cell.cancelled) then None
      else Some(q.(phase := Running))
    case Execute(_) =>
      if q.phase == Running then Some(q.(executed := q.executed + 1)) else None
    case Disarm(_) =>
      if q.phase in {Armed, Running} then Some(q.(phase := Disarmed, cell := ReleaseCell(q.cell))) else None
    case Unlock(_, retry) =>
      if q.phase == Disarmed then Some(q.(phase := if retry then Queued else Finished)) else None
    case Cancel(_) =>
      var (cell, spawn) := CancelCell(q.cell);
      Some(q.(cell := cell, spawning := q.spawning + if spawn then 1 else 0))
    case Spawn(_) =>
      if q.spawning > 0 then Some(q.(spawning := q.spawning - 1, loops := q.loops + 1)) else None
    case Tick(_) =>
      if q.loops == 0 then None
      else if q.cell.interrupt.Some? then Some(q)
      else Some(q.(loops := q.loops - 1))
  }

  /** The interrupt a step fires, if any. */
  function Fired(s: State, step: Step): seq<Hit> {
    if step.Tick? && step.r in s.requests && s.requests[step.r].cell.interrupt.Some? then
      var conn := s.requests[step.r].cell.interrupt.value;
      [Hit(step.r, conn, OwnerOf(s, conn))]
    else []
  }

  /** The state after a step, or None when the step cannot happen. */
  function Apply(s: State, step: Step): Option<State> {
    if step.Arrive? then
      if step.r in s.requests then None
      else Some(s.(requests := s.requests[step.r := Request(step.conn, step.cancellable, Queued, FRESH, 0, 0, 0)]))
    else if step.r !in s.requests then None
    else
      var q := s.requests[step.r];
      var next := Advance(q, step, q.conn !in s.owner);
      if next.None? then None
      else
        var owner := if step.Lock? then s.owner[q.conn := step.r]
                     else if step.Unlock? then s.owner - {q.conn}
                     else s.owner;
        Some(State(s.requests[step.r := next.value], owner, s.hits + Fired(s, step)))
  }

  /** The state after a whole run, or None when some step could not happen. */
  function Exec(s: State, steps: seq<Step>): Option<State>
    decreases |steps|
  {
    if steps == [] then Some(s)
    else if Apply(s, steps[0]).None? then None
    else Exec(Apply(s, steps[0]).value, steps[1..])
  }

  // --- The inductive invariant ---

  /** What holds of one request, given who owns its connection. */
  predicate RequestInv(r: RequestId, q: Request, owner: Option<RequestId>) {
    && (q.HoldsLock() <==> owner == Some(r))
    && q.cell.interrupt == (if q.GuardUp() then Some(q.conn) else None)
    && q.spawning + q.loops <= (if q.cell.cancelled then 1 else 0)
    && (q.cell.cancelled && q.GuardUp() ==> q.spawning + q.loops == 1)
  }

  /** The interrupt hit its sender, which is cancelled. */
  ghost predicate HitInv(s: State, hit: Hit) {
    && hit.owner == Some(hit.sender)
    && hit.sender in s.requests
    && s.requests[hit.sender].conn == hit.conn
    && s.requests[hit.sender].cell.cancelled
  }

  ghost predicate Inv(s: State) {
    && (forall r :: r in s.requests ==> RequestInv(r, s.requests[r], OwnerOf(s, s.requests[r].conn)))
    && (forall c :: c in s.owner ==> s.owner[c] in s.requests && s.requests[s.owner[c]].conn == c)
    && (forall i :: 0 <= i < |s.hits| ==> HitInv(s, s.hits[i]))
  }

  /** A step keeps the invariant of its own request and never lowers the cancelled flag. */
  lemma {:induction false} AdvanceInv(r: RequestId, q: Request, step: Step, owner: Option<RequestId>)
    requires RequestInv(r, q, owner) && Advance(q, step, owner.None?).Some?
    ensures var q' := Advance(q, step, owner.None?).value;
            && RequestInv(r, q', if step.Lock? then Some(r) else if step.Unlock? then None else owner)
            && q'.conn == q.conn && q'.cancellable == q.cancellable
            && (q.cell.cancelled ==> q'.cell.cancelled)
  {
  }

  lemma {:induction false} ApplyInv(s: State, step: Step)
    requires Inv(s) && Apply(s, step).Some?
    ensures Inv(Apply(s, step).value)
    ensures forall r :: r in s.requests ==>
              && r in Apply(s, step).value.requests
              && (s.requests[r].cell.cancelled ==> Apply(s, step).value.requests[r].cell.cancelled)
  {
    var s' := Apply(s, step).value;
    OwnRequest(s, step);
    OwnersInv(s, step);
    HitsInv(s, step);
    hide Advance, RequestInv;
    forall r | r in s'.requests && r != step.r
      ensures RequestInv(r, s'.requests[r], OwnerOf(s', s'.requests[r].conn))
    {
      OthersInv(s, step, r);
    }
  }

  lemma {:induction false} OwnRequest(s: State, step: Step)
    requires Inv(s) && Apply(s, step).Some?
    ensures var s' := Apply(s, step).value;
            && step.r in s'.requests
            && RequestInv(step.r, s'.requests[step.r], OwnerOf(s', s'.requests[step.r].conn))
            && (step.r in s.requests && s.requests[step.r].cell.cancelled ==> s'.requests[step.r].cell.cancelled)
            && (step.r in s.requests ==> s'.requests[step.r].conn == s.requests[step.r].conn)
  {
    if !step.Arrive? {
      var q := s.requests[step.r];
      assert RequestInv(step.r, q, OwnerOf(s, q.conn));
      AdvanceInv(step.r, q, step, OwnerOf(s, q.conn));
      hide Advance, RequestInv;
    }
  }

  lemma {:induction false} OwnersInv(s: State, step: Step)
    requires Inv(s) && Apply(s, step).Some?
    ensures var s' := Apply(s, step).value;
            forall c :: c in s'.owner ==> s'.owner[c] in s'.requests && s'.requests[s'.owner[c]].conn == c
  {
    OwnRequest(s, step);
    hide Advance, RequestInv;
  }

  lemma {:induction false} HitsInv(s: State, step: Step)
    requires Inv(s) && Apply(s, step).Some?
    ensures var s' := Apply(s, step).value; forall i :: 0 <= i < |s'.hits| ==> HitInv(s', s'.hits[i])
  {
    OwnRequest(s, step);
    assert step.r in s.requests ==> RequestInv(step.r, s.requests[step.r], OwnerOf(s, s.requests[step.r].conn));
    hide Advance;
    var s' := Apply(s, step).value;
    forall i | 0 <= i < |s.hits| ensures HitInv(s', s.hits[i]) {
      assert HitInv(s, s.hits[i]);
    }
  }

  lemma {:induction false} OthersInv(s: State, step: Step, r: RequestId)
    requires Inv(s) && Apply(s, step).Some? && r in s.requests && r != step.r
    ensures var s' := Apply(s, step).value; RequestInv(r, s.requests[r], OwnerOf(s', s.requests[r].conn))
  {
    assert !step.Arrive? ==> RequestInv(step.r, s.requests[step.r], OwnerOf(s, s.requests[step.r].conn));
    assert RequestInv(r, s.requests[r], OwnerOf(s, s.requests[r].conn));
  }

  /** Every run keeps the invariant, and cancellation is permanent. */
  lemma {:induction false} ExecInv(s: State, steps: seq<Step>)
    requires Inv(s) && Exec(s, steps).Some?
    ensures Inv(Exec(s, steps).value)
    ensures forall r :: r in s.requests ==>
              && r in Exec(s, steps).value.requests
              && (s.requests[r].cell.cancelled ==> Exec(s, steps).value.requests[r].cell.cancelled)
    decreases |steps|
  {
    if steps != [] {
      ApplyInv(s, steps[0]);
      ExecInv(Apply(s, steps[0]).value, steps[1..]);
    }
  }

  // --- Safety over whole runs ---

  /** No interrupt reaches a successor: whatever the interleaving, each interrupt hits a
      connection that the cancelled request itself owns at that moment. */
  lemma {:induction false} InterruptsHitTheirOwnRequest(steps: seq<Step>, i: nat)
    requires Exec(INIT, steps).Some? && i < |Exec(INIT, steps).value.hits|
    ensures var s := Exec(INIT, steps).value;
            var hit := s.hits[i];
            && hit.owner == Some(hit.sender)
            && hit.sender in s.requests && s.requests[hit.sender].conn == hit.conn
            && s.requests[hit.sender].cell.cancelled
  {
    ExecInv(INIT, steps);
    assert HitInv(Exec(INIT, steps).value, Exec(INIT, steps).value.hits[i]);
  }

  /** At most one interrupt task is ever alive or about to be spawned per request. */
  lemma {:induction false} OneInterruptTask(steps: seq<Step>, r: RequestId)
    requires Exec(INIT, steps).Some? && r in Exec(INIT, steps).value.requests
    ensures var q := Exec(INIT, steps).value.requests[r]; q.spawning + q.loops <= 1
  {
    ExecInv(INIT, steps);
    var s := Exec(INIT, steps).value;
    assert RequestInv(r, s.requests[r], OwnerOf(s, s.requests[r].conn));
  }

  // --- Interrupts do come ---

  /** A request that is cancelled while its guard is up has exactly one interrupt task, alive or
      about to be spawned; and each tick of a live one hits its connection. */
  lemma {:induction false} CancelledIsInterrupted(steps: seq<Step>, r: RequestId)
    requires Exec(INIT, steps).Some?
    requires var s := Exec(INIT, steps).value;
             r in s.requests && s.requests[r].cell.cancelled && s.requests[r].GuardUp()
    ensures var s := Exec(INIT, steps).value;
            var q := s.requests[r];
            && q.spawning + q.loops == 1
            && (q.spawning == 1 ==> Apply(s, Spawn(r)).Some? && Apply(s, Spawn(r)).value.requests[r].loops == 1)
            && (q.loops == 1 ==>
                  && Apply(s, Tick(r)).Some?
                  && Apply(s, Tick(r)).value.hits == s.hits + [Hit(r, q.conn, Some(r))]
                  && Apply(s, Tick(r)).value.requests[r] == q)
  {
    ExecInv(INIT, steps);
    var s := Exec(INIT, steps).value;
    hide Exec;
    assert RequestInv(r, s.requests[r], OwnerOf(s, s.requests[r].conn));
  }

  /** A request that is not cancelled gets through: once its connection is free it locks, raises
      its guard, passes the check and starts its statement. */
  lemma {:induction false} UncancelledRuns(steps: seq<Step>, r: RequestId)
    requires Exec(INIT, steps).Some?
    requires var s := Exec(INIT, steps).value;
             && r in s.requests && s.requests[r].phase == Queued && !s.requests[r].cell.cancelled
             && s.requests[r].conn !in s.owner
    ensures var s := Exec(INIT, steps).value;
            var end := Exec(s, [Lock(r), Activate(r), CheckBeforeRun(r), Execute(r)]);
            && end.Some? && r in end.value.requests
            && end.value.requests[r].executed == s.requests[r].executed + 1
            && OwnerOf(end.value, s.requests[r].conn) == Some(r)
  {
    var s := Exec(INIT, steps).value;
    var run := [Lock(r), Activate(r), CheckBeforeRun(r), Execute(r)];
    var s1 := Apply(s, Lock(r)).value;
    var s2 := Apply(s1, Activate(r)).value;
    var s3 := Apply(s2, CheckBeforeRun(r)).value;
    var s4 := Apply(s3, Execute(r)).value;
    hide Apply;
    assert run[1..] == [Activate(r), CheckBeforeRun(r), Execute(r)];
    assert run[1..][1..] == [CheckBeforeRun(r), Execute(r)] && run[1..][1..][1..] == [Execute(r)];
    assert Exec(s4, []) == Some(s4);
    assert Exec(s3, [Execute(r)]) == Some(s4);
    assert Exec(s2, [CheckBeforeRun(r), Execute(r)]) == Some(s4);
  }

  /** A request that is over and was never cancelled unlocked its connection for the last time. */
  lemma {:induction false} FinishedIsUnlocked(s: State, steps: seq<Step>, r: RequestId)
    requires Exec(s, steps).Some? && (r in s.requests ==> s.requests[r].phase != Finished)
    requires var s' := Exec(s, steps).value;
             r in s'.requests && s'.requests[r].phase == Finished && !s'.requests[r].cell.cancelled
    ensures Unlock(r, false) in steps
    decreases |steps|
  {
    var s1 := Apply(s, steps[0]).value;
    if r in s1.requests && s1.requests[r].phase == Finished {
      if steps[0] != Unlock(r, false) {
        assert r in s.requests && steps[0] == GiveUp(r) && s1.requests[r].cell.cancelled;
        StaysCancelled(s1, steps[1..], r);
      }
    } else {
      FinishedIsUnlocked(s1, steps[1..], r);
    }
  }

  lemma {:induction false} StaysCancelled(s: State, steps: seq<Step>, r: RequestId)
    requires Exec(s, steps).Some? && r in s.requests && s.requests[r].cell.cancelled
    ensures r in Exec(s, steps).value.requests && Exec(s, steps).value.requests[r].cell.cancelled
    decreases |steps|
  {
    if steps != [] {
      StaysCancelled(Apply(s, steps[0]).value, steps[1..], r);
    }
  }

  /** Whoever raised a guard can drop it and unlock, whatever happened meanwhile, and so free the
      connection; a retry queues the request again. */
  lemma {:induction false} AlwaysReleasable(s: State, r: RequestId, retry: bool)
    requires Inv(s) && r in s.requests && s.requests[r].phase in {Armed, Running}
    ensures var q := s.requests[r];
            && Apply(s, Disarm(r)).Some?
            && Apply(Apply(s, Disarm(r)).value, Unlock(r, retry)).Some?
            && var end := Apply(Apply(s, Disarm(r)).value, Unlock(r, retry)).value;
               && q.conn !in end.owner && end.requests[r].cell.interrupt.None?
               && end.requests[r].phase == if retry then Queued else Finished
  {
  }

  /** A cancelled request whose guard is down. */
  ghost predicate Stopped(s: State, r: RequestId) {
    r in s.requests && s.requests[r].cancellable && s.requests[r].cell.cancelled && !s.requests[r].GuardUp()
  }

  /** How many interrupts the tasks of `r` have fired. */
  function HitsBy(hits: seq<Hit>, r: RequestId): nat {
    if hits == [] then 0
    else HitsBy(hits[..|hits| - 1], r) + if hits[|hits| - 1].sender == r then 1 else 0
  }

  /** A cancelled request with its guard down: its own steps start nothing and raise nothing,
      and a tick ends a task. */
  lemma {:induction false} AdvanceStopped(r: RequestId, q: Request, step: Step, owner: Option<RequestId>)
    requires RequestInv(r, q, owner) && Advance(q, step, owner.None?).Some?
    requires q.cancellable && q.cell.cancelled && !q.GuardUp()
    ensures var q' := Advance(q, step, owner.None?).value;
            && q'.cancellable && q'.cell.cancelled && !q'.GuardUp()
            && q'.executed == q.executed
            && q'.spawning + q'.loops <= q.spawning + q.loops
            && (step.Tick? ==> q'.loops == q.loops - 1)
    ensures q.cell.interrupt.None?
  {
  }

  lemma {:induction false} SnocHits(hits: seq<Hit>, hit: Hit, r: RequestId)
    ensures HitsBy(hits + [hit], r) == HitsBy(hits, r) + if hit.sender == r then 1 else 0
  {
    assert (hits + [hit])[..|hits|] == hits;
  }

  lemma {:induction false} ApplyStopped(s: State, step: Step, r: RequestId)
    requires Inv(s) && Stopped(s, r) && Apply(s, step).Some?
    ensures var s' := Apply(s, step).value;
            && Stopped(s', r)
            && s'.requests[r].executed == s.requests[r].executed
            && HitsBy(s'.hits, r) == HitsBy(s.hits, r)
            && s'.requests[r].spawning + s'.requests[r].loops <= s.requests[r].spawning + s.requests[r].loops
            && (step == Tick(r) ==> s'.requests[r].loops == s.requests[r].loops - 1)
  {
    assert RequestInv(r, s.requests[r], OwnerOf(s, s.requests[r].conn));
    hide Advance, HitsBy;
    if step.r == r && !step.Arrive? {
      AdvanceStopped(r, s.requests[r], step, OwnerOf(s, s.requests[r].conn));
    }
    if Fired(s, step) != [] {
      SnocHits(s.hits, Fired(s, step)[0], r);
    } else {
      assert s.hits + [] == s.hits;
    }
  }

  /** From the moment a request is cancelled with its guard down, in every continuation it
      stays cancelled, starts no statement and fires no interrupt; each tick of its task
      ends the task, so the task stops at its first tick. */
  lemma {:induction false} CancelledStaysStopped(s: State, steps: seq<Step>, r: RequestId)
    requires Inv(s) && Stopped(s, r) && Exec(s, steps).Some?
    ensures var s' := Exec(s, steps).value;
            && Stopped(s', r)
            && s'.requests[r].executed == s.requests[r].executed
            && HitsBy(s'.hits, r) == HitsBy(s.hits, r)
    ensures (exists i :: 0 <= i < |steps| && steps[i] == Tick(r)) && s.requests[r].spawning + s.requests[r].loops == 1
            ==> Exec(s, steps).value.requests[r].loops == 0
    decreases |steps|
  {
    if steps != [] {
      var s1 := Apply(s, steps[0]).value;
      ApplyInv(s, steps[0]);
      ApplyStopped(s, steps[0], r);
      CancelledStaysStopped(s1, steps[1..], r);
      if s1.requests[r].spawning + s1.requests[r].loops == 0 {
        NoTaskReturns(s1, steps[1..], r);
      }
      if exists i :: 0 <= i < |steps| && steps[i] == Tick(r) {
        if steps[0] != Tick(r) {
          var i :| 0 <= i < |steps| && steps[i] == Tick(r);
          assert steps[1..][i - 1] == Tick(r);
        }
      }
    }
  }

  lemma {:induction false} NoTaskReturns(s: State, steps: seq<Step>, r: RequestId)
    requires Inv(s) && Stopped(s, r) && Exec(s, steps).Some?
    requires s.requests[r].spawning + s.requests[r].loops == 0
    ensures r in Exec(s, steps).value.requests && Exec(s, steps).value.requests[r].loops == 0
    decreases |steps|
  {
    if steps != [] {
      ApplyInv(s, steps[0]);
      ApplyStopped(s, steps[0], r);
      NoTaskReturns(Apply(s, steps[0]).value, steps[1..], r);
    }
  }

  /** A request cancelled while it queues, or holds the lock with no guard yet, never starts
      another statement: not ever, if it had started none. */
  lemma {:induction false} CancelledBeforeActivation(before: seq<Step>, after: seq<Step>, r: RequestId)
    requires Exec(INIT, before).Some?
    requires var s := Exec(INIT, before).value;
             && r in s.requests && s.requests[r].cancellable && s.requests[r].phase in {Queued, Locked}
             && Exec(s, [Cancel(r)] + after).Some?
    ensures var s := Exec(INIT, before).value;
            var s' := Exec(s, [Cancel(r)] + after).value;
            r in s'.requests && s'.requests[r].executed == s.requests[r].executed
  {
    var s := Exec(INIT, before).value;
    ExecInv(INIT, before);
    ApplyInv(s, Cancel(r));
    assert ([Cancel(r)] + after)[1..] == after;
    CancelledStaysStopped(Apply(s, Cancel(r)).value, after, r);
  }
}
