/** The async client pool: semaphore permits, a count, and the idle stack. */
module AsyncPool {
  import opened Wrappers
  import opened Counting
  import opened IdleConnections

  datatype Purpose = Query(retry: bool) | Update | Session

  /** What the holder of a connection does next. */
  datatype Next = Use | Check | Finish | Retry

  datatype Stage =
    | Queued                                    // waiting for a permit
    | Granted                                   // permit in hand, before the lock
    | Creating                                  // permit and count taken, connecting
    | Lent(conn: Conn, hadError: bool, next: Next)
    | Working(conn: Conn, hadError: bool, checking: bool) // the connection is in a blocking task
    | Lost(again: bool)                         // task died: permit gone, count still to be lowered
    | Returned(again: bool)                     // connection gone, permit still held
    | Gone
  {
    function Held(): Option<Conn> {
      if Lent? || Working? then Some(conn) else None
    }
  }

  datatype Client = Client(purpose: Purpose, attempts: nat, stage: Stage)

  datatype State = State(
    core: Core, permits: int, clients: seq<Client>, next: Conn, refusals: nat, oneStepLoss: bool)

  /** `warm` connections were opened before the pool was handed out. With `oneStepLoss` the
      bookkeeping of a dead task is taken as a single step, which the code does not ensure. */
  function Init(max: nat, warm: nat, oneStepLoss: bool): State
    requires warm <= max
  {
    State(Core(max, warm, seq(warm, i requires 0 <= i => Entry(i, 0))), max, [], warm, 0, oneStepLoss)
  }

  /** Futures are not dropped half-way. */
  datatype Step =
    | Arrive(purpose: Purpose)
    | Timeout(t: nat)
    | Grant(t: nat)
    | Reserve(t: nat, cutoff: Option<Millis>)
    | Create(t: nat, ok: bool)
    | Begin(t: nat)
    | Work(t: nat, ok: bool)
    | Die(t: nat)
    | Lower(t: nat)
    | GiveUp(t: nat)                            // a session handle is dropped
    | Return(t: nat, now: Millis, cutoff: Option<Millis>)
    | Release(t: nat)

  /** Where a holder goes when its work returned. */
  function AfterWork(c: Client, ok: bool): Next
    requires c.stage.Working?
  {
    if c.purpose.Session? then Use
    else if c.stage.checking then (if ok then Finish else Retry)
    else if ok then Finish
    else if c.purpose.Query? && c.purpose.retry && c.attempts == 1 then Check
    else Finish
  }

  /** Whether work that returned leaves the connection marked as failed. */
  function Marks(c: Client, ok: bool): bool
    requires c.stage.Working?
  {
    c.stage.hadError || (!c.purpose.Session? && (c.stage.checking || (!ok && AfterWork(c, ok) == Finish)))
  }

  /** Whether a query starts over when its task died: the health check then has no connection
      left and fails. */
  predicate StartsOver(c: Client)
    requires c.stage.Working?
  {
    c.purpose.Query? && (c.stage.checking || (c.purpose.retry && c.attempts == 1))
  }

  function With(s: State, t: nat, stage: Stage): State
    requires t < |s.clients|
  {
    s.(clients := s.clients[t := s.clients[t].(stage := stage)])
  }

  /** The state after a step, or None when the step cannot happen. */
  function Apply(s: State, step: Step): Option<State> {
    if step.Arrive? then Some(s.(clients := s.clients + [Client(step.purpose, 0, Queued)]))
    else if step.t >= |s.clients| then None
    else
      var t := step.t;
      var c := s.clients[t];
      var stage := c.stage;
      match step
      case Timeout(_) => if stage.Queued? then Some(With(s, t, Gone)) else None
      case Grant(_) =>
        if stage.Queued? && s.permits > 0 then Some(With(s, t, Granted).(permits := s.permits - 1)) else None
      case Reserve(_, cutoff) =>
        if !stage.Granted? then None
        else
          var (core, r) := s.core.Reserve(cutoff);
          (match r
           case Reused(conn) => Some(With(s, t, Lent(conn, false, Use)).(core := core))
           case MayCreate => Some(With(s, t, Creating).(core := core))
           case Full => Some(With(s, t, Returned(false)).(core := core, refusals := s.refusals + 1)))
      case Create(_, ok) =>
        if !stage.Creating? then None
        else if ok then Some(With(s, t, Lent(s.next, false, Use)).(next := s.next + 1))
        else Some(With(s, t, Returned(false)).(core := s.core.Forget()))
      case Begin(_) =>
        if stage.Lent? && stage.next in {Use, Check} then
          var attempts := c.attempts + if stage.next == Use && !c.purpose.Session? then 1 else 0;
          Some(s.(clients := s.clients[t := Client(c.purpose, attempts,
                                                   Working(stage.conn, stage.hadError, stage.next == Check))]))
        else None
      case Work(_, ok) =>
        if !stage.Working? then None
        else Some(With(s, t, Lent(stage.conn, Marks(c, ok), AfterWork(c, ok))))
      case Die(_) =>
        if !stage.Working? then None
        else
          var freed := s.(permits := s.permits + 1);
          if s.oneStepLoss then
            Some(With(freed, t, if StartsOver(c) then Queued else Gone).(core := s.core.Forget()))
          else Some(With(freed, t, Lost(StartsOver(c))))
      case Lower(_) =>
        if !stage.Lost? then None
        else Some(With(s, t, if stage.again then Queued else Gone).(core := s.core.Forget()))
      case GiveUp(_) =>
        if stage.Lent? && stage.next == Use && c.purpose.Session? then
          Some(With(s, t, Lent(stage.conn, stage.hadError, Finish)))
        else None
      case Return(_, now, cutoff) =>
        if !stage.Lent? || stage.next in {Use, Check} then None
        else
          var core := if stage.hadError then s.core.Forget() else s.core.GiveBack(stage.conn, now, cutoff);
          Some(With(s, t, Returned(stage.next == Retry)).(core := core))
      case Release(_) =>
        if !stage.Returned? then None
        else Some(With(s, t, if stage.again then Queued else Gone).(permits := s.permits + 1))
  }

  /** The state after a whole run from `s`, or None when some step could not happen. */
  function Exec(s: State, steps: seq<Step>): Option<State>
    decreases |steps|
  {
    if steps == [] then Some(s)
    else
      var next := Apply(s, steps[0]);
      if next.None? then None else Exec(next.value, steps[1..])
  }

  // --- Accounting ---

  /** Holds a permit and counts as a connection. */
  function Busy(c: Client): nat {
    if c.stage.Creating? || c.stage.Lent? || c.stage.Working? then 1 else 0
  }

  /** Holds a permit only. */
  function Spare(c: Client): nat {
    if c.stage.Granted? || c.stage.Returned? then 1 else 0
  }

  /** Counts as a connection only. */
  function Owing(c: Client): nat {
    if c.stage.Lost? then 1 else 0
  }

  function Held(clients: seq<Client>): (held: seq<Option<Conn>>)
    ensures |held| == |clients| && forall t :: 0 <= t < |held| ==> held[t] == clients[t].stage.Held()
  {
    seq(|clients|, t requires 0 <= t < |clients| => clients[t].stage.Held())
  }

  /** A query that may still run has run at most once; nothing else ever runs twice. */
  predicate AttemptsInv(c: Client) {
    && c.attempts <= (if c.purpose.Query? && c.purpose.retry then 2 else if c.purpose.Session? then 0 else 1)
    && (c.stage.Queued? || c.stage.Granted? || c.stage.Creating? || (c.stage.Lent? && c.stage.next == Use)
        ==> c.attempts <= (if c.purpose.Query? && c.purpose.retry then 1 else 0))
    && (c.stage.Lent? && c.stage.next in {Check, Retry} ==> c.purpose.Query? && c.purpose.retry && c.attempts == 1)
    && (c.stage.Working? && c.stage.checking ==> c.purpose.Query? && c.purpose.retry && c.attempts == 1)
    && (c.stage.Lost? || c.stage.Returned? ==>
          c.stage.again ==> c.purpose.Query? && c.purpose.retry && c.attempts == 1)
  }

  predicate CountInv(s: State) {
    && s.permits + Sum(s.clients, Busy) + Sum(s.clients, Spare) == s.core.max
    && s.core.total == |s.core.idle| + Sum(s.clients, Busy) + Sum(s.clients, Owing)
    && s.core.total <= s.core.max
    && s.permits >= 0
  }

  ghost predicate Inv(s: State) {
    && CountInv(s)
    && Owned(s.core.idle, Held(s.clients), s.next)
    && (forall t :: 0 <= t < |s.clients| ==> AttemptsInv(s.clients[t]))
    && (s.oneStepLoss ==> s.refusals == 0 && Sum(s.clients, Owing) == 0)
  }

  lemma {:induction false} ReplacedSums(clients: seq<Client>, t: nat, c: Client)
    requires t < |clients|
    ensures var clients' := clients[t := c];
            && Sum(clients', Busy) + Busy(clients[t]) == Sum(clients, Busy) + Busy(c)
            && Sum(clients', Spare) + Spare(clients[t]) == Sum(clients, Spare) + Spare(c)
            && Sum(clients', Owing) + Owing(clients[t]) == Sum(clients, Owing) + Owing(c)
            && Busy(clients[t]) <= Sum(clients, Busy) && Spare(clients[t]) <= Sum(clients, Spare)
            && Owing(clients[t]) <= Sum(clients, Owing)
  {
    SumUpdate(clients, t, c, Busy);
    SumUpdate(clients, t, c, Spare);
    SumUpdate(clients, t, c, Owing);
  }

  /** The client a step leaves at its place. */
  function After(s: State, step: Step): Client
    requires !step.Arrive? && Apply(s, step).Some?
  {
    Apply(s, step).value.clients[step.t]
  }

  lemma {:induction false} OneClient(s: State, step: Step)
    requires !step.Arrive? && Apply(s, step).Some?
    ensures Apply(s, step).value.clients == s.clients[step.t := After(s, step)]
  {
  }

  /** What a step of one client moves: permits against `Busy` and `Spare`, the count against
      the idle stack, `Busy` and `Owing`. */
  lemma {:induction false} StepDeltas(s: State, step: Step)
    requires !step.Arrive? && Apply(s, step).Some? && s.permits >= 0 && s.core.total <= s.core.max
    ensures var s' := Apply(s, step).value;
            var c, c' := s.clients[step.t], After(s, step);
            && s'.permits + Busy(c') + Spare(c') == s.permits + Busy(c) + Spare(c)
            && s'.core.total - |s'.core.idle| - Busy(c') - Owing(c')
               == s.core.total - |s.core.idle| - Busy(c) - Owing(c)
            && s'.permits >= 0 && s'.core.total <= s'.core.max == s.core.max
            && (s.oneStepLoss && s.refusals < s'.refusals ==>
                  c.stage.Granted? && s'.core.idle == [] && s'.core.total == s.core.max)
            && (s.oneStepLoss && Owing(c) == 0 ==> Owing(c') == 0)
            && s.refusals <= s'.refusals && s'.oneStepLoss == s.oneStepLoss
  {
    hide Fresh, AfterWork, Marks, StartsOver;
    if step.Reserve? || step.Return? {
      FreshLength(s.core.idle, step.cutoff);
    }
  }

  lemma {:induction false} CountStep(s: State, step: Step)
    requires CountInv(s) && Apply(s, step).Some?
    requires s.oneStepLoss ==> s.refusals == 0 && Sum(s.clients, Owing) == 0
    ensures CountInv(Apply(s, step).value)
    ensures s.oneStepLoss ==>
              && Apply(s, step).value.refusals == 0
              && Sum(Apply(s, step).value.clients, Owing) == 0
  {
    if step.Arrive? {
      var c := Client(step.purpose, 0, Queued);
      SumSnoc(s.clients, c, Busy);
      SumSnoc(s.clients, c, Spare);
      SumSnoc(s.clients, c, Owing);
      hide Sum;
    } else {
      StepDeltas(s, step);
      OneClient(s, step);
      ReplacedSums(s.clients, step.t, After(s, step));
      hide Sum, Apply, After;
    }
  }

  lemma {:induction false} OwnedStep(s: State, step: Step)
    requires Owned(s.core.idle, Held(s.clients), s.next) && Apply(s, step).Some?
    ensures var s' := Apply(s, step).value; Owned(s'.core.idle, Held(s'.clients), s'.next)
  {
    var s' := Apply(s, step).value;
    var held := Held(s.clients);
    hide Fresh, Owned, Marks, AfterWork, StartsOver;
    if step.Arrive? {
      assert Held(s'.clients) == held + [None];
      OwnedArrive(s.core.idle, held, s.next);
    } else {
      OneClient(s, step);
      var t := step.t;
      hide Held;
      assert Held(s'.clients) == held[t := After(s, step).stage.Held()];
      assert held == held[t := held[t]];
      match step
      case Reserve(_, cutoff) =>
        OwnedEvict(s.core.idle, held, s.next, cutoff);
        if Fresh(s.core.idle, cutoff) != [] {
          OwnedPop(Fresh(s.core.idle, cutoff), held, s.next, t);
        }
      case Create(_, ok) =>
        OwnedCreate(s.core.idle, held, s.next, t);
      case Return(_, now, cutoff) =>
        if s.clients[t].stage.hadError {
          OwnedLose(s.core.idle, held, s.next, t);
        } else {
          OwnedEvict(s.core.idle, held, s.next, cutoff);
          OwnedPush(Fresh(s.core.idle, cutoff), held, s.next, t, now);
        }
      case Die(_) =>
        OwnedLose(s.core.idle, held, s.next, t);
      case _ =>
    }
  }

  lemma {:induction false} AttemptsStep(s: State, step: Step)
    requires forall t :: 0 <= t < |s.clients| ==> AttemptsInv(s.clients[t])
    requires Apply(s, step).Some?
    ensures forall t :: 0 <= t < |Apply(s, step).value.clients| ==> AttemptsInv(Apply(s, step).value.clients[t])
  {
    if !step.Arrive? {
      OneClient(s, step);
      assert AttemptsInv(s.clients[step.t]);
      assert AttemptsInv(After(s, step));
    }
  }

  lemma {:induction false} ApplyInv(s: State, step: Step)
    requires Inv(s) && Apply(s, step).Some?
    ensures Inv(Apply(s, step).value)
  {
    hide Apply, CountInv, Owned, AttemptsInv;
    CountStep(s, step);
    OwnedStep(s, step);
    AttemptsStep(s, step);
    assert Apply(s, step).value.oneStepLoss == s.oneStepLoss by {
      Constants(s, step);
    }
  }

  lemma {:induction false} Constants(s: State, step: Step)
    requires Apply(s, step).Some?
    ensures Apply(s, step).value.oneStepLoss == s.oneStepLoss && Apply(s, step).value.core.max == s.core.max
  {
  }

  lemma {:induction false} ExecInv(s: State, steps: seq<Step>)
    requires Inv(s) && Exec(s, steps).Some?
    ensures Inv(Exec(s, steps).value)
    ensures Exec(s, steps).value.core.max == s.core.max && Exec(s, steps).value.oneStepLoss == s.oneStepLoss
    decreases |steps|
  {
    if steps != [] {
      hide Apply, Inv;
      ApplyInv(s, steps[0]);
      Constants(s, steps[0]);
      ExecInv(Apply(s, steps[0]).value, steps[1..]);
    }
  }

  lemma {:induction false} InitInv(max: nat, warm: nat, oneStepLoss: bool)
    requires warm <= max
    ensures Inv(Init(max, warm, oneStepLoss))
  {
  }

  // --- Over every run ---

  /** The count is the idle connections, those lent, those being created and those whose dead
      task still owes its decrement; it never exceeds the limit or falls below zero, permits
      add up, and no connection has two holders. */
  lemma {:induction false} Accounting(max: nat, warm: nat, oneStepLoss: bool, steps: seq<Step>)
    requires warm <= max && Exec(Init(max, warm, oneStepLoss), steps).Some?
    ensures var s := Exec(Init(max, warm, oneStepLoss), steps).value;
            && s.core.total == |s.core.idle| + Sum(s.clients, Busy) + Sum(s.clients, Owing)
            && 0 <= s.core.total <= max
            && 0 <= s.permits == max - Sum(s.clients, Busy) - Sum(s.clients, Spare)
            && Owned(s.core.idle, Held(s.clients), s.next)
  {
    InitInv(max, warm, oneStepLoss);
    ExecInv(Init(max, warm, oneStepLoss), steps);
  }

  /** Were a dead task's permit and count given back in one step, no permit holder would ever
      be told that the pool is exhausted. */
  lemma {:induction false} NeverExhausted(max: nat, warm: nat, steps: seq<Step>)
    requires warm <= max && Exec(Init(max, warm, true), steps).Some?
    ensures Exec(Init(max, warm, true), steps).value.refusals == 0
  {
    InitInv(max, warm, true);
    ExecInv(Init(max, warm, true), steps);
  }

  /** As it is, a permit holder is told so exactly when nothing fresh is idle and the count
      stands at its limit, and then some dead task owes its decrement. */
  lemma {:induction false} ExhaustedNeedsLoss(s: State, t: nat, cutoff: Option<Millis>)
    requires Inv(s) && t < |s.clients| && s.clients[t].stage.Granted?
    ensures Apply(s, Reserve(t, cutoff)).Some?
    ensures Apply(s, Reserve(t, cutoff)).value.refusals > s.refusals
       <==> s.core.Evict(cutoff).idle == [] && s.core.Evict(cutoff).total == s.core.max
    ensures Apply(s, Reserve(t, cutoff)).value.refusals > s.refusals ==> Sum(s.clients, Owing) > 0
  {
    ReplacedSums(s.clients, t, s.clients[t]);
    FreshLength(s.core.idle, cutoff);
    hide Sum, Fresh, Owned, AttemptsInv;
  }

  /** A retried query runs at most twice, any other query or update at most once. */
  lemma {:induction false} AttemptsBounded(max: nat, warm: nat, oneStepLoss: bool, steps: seq<Step>, t: nat)
    requires warm <= max && Exec(Init(max, warm, oneStepLoss), steps).Some?
    requires t < |Exec(Init(max, warm, oneStepLoss), steps).value.clients|
    ensures var c := Exec(Init(max, warm, oneStepLoss), steps).value.clients[t];
            c.attempts <= if c.purpose.Query? && c.purpose.retry then 2 else 1
  {
    InitInv(max, warm, oneStepLoss);
    ExecInv(Init(max, warm, oneStepLoss), steps);
    assert AttemptsInv(Exec(Init(max, warm, oneStepLoss), steps).value.clients[t]);
  }

  /** A first client opens the only connection and its task dies. */
  const DYING: seq<Step> := [Arrive(Update), Grant(0), Reserve(0, None), Create(0, true), Begin(0), Die(0)]

  /** A second client takes the permit that is already back. */
  const REFUSED: seq<Step> := [Arrive(Update), Grant(1), Reserve(1, None)]

  /** Whenever no connection is idle, the count is at its limit and a permit is free, the client
      that takes it is refused. */
  lemma {:induction false} NextIsRefused(s: State)
    requires |s.clients| == 1 && s.core.idle == [] && s.core.total >= s.core.max && s.permits > 0
    ensures Exec(s, REFUSED).Some? && Exec(s, REFUSED).value.refusals == s.refusals + 1
  {
    var s1 := Apply(s, REFUSED[0]).value;
    var s2 := Apply(s1, REFUSED[1]).value;
    assert REFUSED[1..] == [Grant(1), Reserve(1, None)] && REFUSED[1..][1..] == [Reserve(1, None)];
    assert Exec(s2, [Reserve(1, None)]) == Exec(Apply(s2, Reserve(1, None)).value, []);
  }

  /** The window is real: between the two halves of the bookkeeping, a client that holds a
      permit is refused although no other connection is open. */
  lemma {:induction false} ExhaustedIsReachable()
    ensures var s := Exec(Init(1, 0, false), DYING);
            && s.Some?
            && Exec(s.value, REFUSED).Some?
            && Exec(s.value, REFUSED).value.refusals == 1
  {
    var s := Exec(Init(1, 0, false), DYING);
    assert s.Some? && |s.value.clients| == 1 && s.value.core.idle == [] && s.value.core.total == 1 == s.value.core.max
           && s.value.permits == 1 && s.value.refusals == 0;
    hide Exec, Apply;
    NextIsRefused(s.value);
  }

  // --- Failed connections ---

  /** The connection is not idle, and a client that holds it will not give it back. */
  predicate Tainted(s: State, conn: Conn) {
    && (forall i :: 0 <= i < |s.core.idle| ==> s.core.idle[i].conn != conn)
    && conn < s.next
    && forall t :: 0 <= t < |s.clients| && s.clients[t].stage.Held() == Some(conn) ==> Doomed(s.clients[t])
  }

  predicate Doomed(c: Client) {
    || (c.stage.Lent? && (c.stage.hadError || (!c.purpose.Session? && c.stage.next == Check)))
    || (c.stage.Working? && (c.stage.hadError || (!c.purpose.Session? && c.stage.checking)))
  }

  lemma {:induction false} TaintedIdle(idle: seq<Entry>, cutoff: Option<Millis>, conn: Conn)
    requires forall i :: 0 <= i < |idle| ==> idle[i].conn != conn
    ensures forall i :: 0 <= i < |Fresh(idle, cutoff)| ==> Fresh(idle, cutoff)[i].conn != conn
  {
    var places := FreshPlaces(idle, cutoff);
  }

  /** What a step makes of the idle stack and of its client. */
  lemma {:induction false} TaintedOwn(s: State, step: Step, conn: Conn)
    requires Tainted(s, conn) && !step.Arrive? && Apply(s, step).Some?
    ensures var s' := Apply(s, step).value;
            && (forall i :: 0 <= i < |s'.core.idle| ==> s'.core.idle[i].conn != conn)
            && s.next <= s'.next
            && (After(s, step).stage.Held() == Some(conn) ==> Doomed(After(s, step)))
  {
    hide Fresh;
    if step.Reserve? || step.Return? {
      TaintedIdle(s.core.idle, step.cutoff, conn);
      var kept := Fresh(s.core.idle, step.cutoff);
      assert kept != [] ==> kept[|kept| - 1].conn != conn;
    }
    assert s.clients[step.t].stage.Held() == Some(conn) ==> Doomed(s.clients[step.t]);
  }

  lemma {:induction false} TaintedStep(s: State, step: Step, conn: Conn)
    requires Tainted(s, conn) && Apply(s, step).Some?
    ensures Tainted(Apply(s, step).value, conn)
  {
    if !step.Arrive? {
      OneClient(s, step);
      TaintedOwn(s, step, conn);
      hide Apply, After, Doomed;
    }
  }

  lemma {:induction false} TaintedStays(s: State, steps: seq<Step>, conn: Conn)
    requires Tainted(s, conn) && Exec(s, steps).Some?
    ensures Tainted(Exec(s, steps).value, conn)
    decreases |steps|
  {
    if steps != [] {
      hide Apply, Tainted;
      TaintedStep(s, steps[0], conn);
      TaintedStays(Apply(s, steps[0]).value, steps[1..], conn);
    }
  }

  /** A connection on which a query, an update or a health check failed is never idle again. */
  lemma {:induction false} FailedIsNeverIdle(s: State, t: nat, steps: seq<Step>)
    requires Inv(s) && t < |s.clients| && s.clients[t].stage.Working? && !s.clients[t].purpose.Session?
    requires Exec(Apply(s, Work(t, false)).value, steps).Some?
    ensures var s' := Exec(Apply(s, Work(t, false)).value, steps).value;
            forall i :: 0 <= i < |s'.core.idle| ==> s'.core.idle[i].conn != s.clients[t].stage.conn
  {
    var conn := s.clients[t].stage.conn;
    var s1 := Apply(s, Work(t, false)).value;
    assert Held(s.clients)[t] == Some(conn);
    assert Tainted(s1, conn) by {
      assert forall u :: 0 <= u < |s.clients| && u != t ==> s1.clients[u] == s.clients[u];
      assert forall u :: 0 <= u < |s.clients| ==> Held(s.clients)[u] == s.clients[u].stage.Held();
    }
    hide Exec, Apply, Inv;
    TaintedStays(s1, steps, conn);
  }

  /** A connection whose work succeeded at once is given back. */
  lemma {:induction false} GoodIsGivenBack(s: State, t: nat, now: Millis, cutoff: Option<Millis>)
    requires t < |s.clients| && !s.clients[t].purpose.Session?
    requires s.clients[t].stage.Working? && !s.clients[t].stage.hadError && !s.clients[t].stage.checking
    ensures var worked := Apply(s, Work(t, true)).value;
            Apply(worked, Return(t, now, cutoff)).Some?
            && Apply(worked, Return(t, now, cutoff)).value.core.idle
               == Fresh(s.core.idle, cutoff) + [Entry(s.clients[t].stage.conn, now)]
  {
    hide Fresh;
  }

  // --- Retries ---

  /** A failed first attempt of a retried query: the connection is checked, and the query starts
      over exactly when the check fails. */
  lemma {:induction false} RetriedIff(s: State, t: nat, healthy: bool, now: Millis, cutoff: Option<Millis>)
    requires t < |s.clients| && s.clients[t].stage.Working? && !s.clients[t].stage.checking
    requires s.clients[t].purpose == Query(true) && s.clients[t].attempts == 1
    ensures var failed := Apply(s, Work(t, false)).value;
            && Apply(failed, Begin(t)).Some?
            && var checking := Apply(failed, Begin(t)).value;
               && Apply(checking, Work(t, healthy)).Some?
               && var checked := Apply(checking, Work(t, healthy)).value;
                  && Apply(checked, Return(t, now, cutoff)).Some?
                  && var returned := Apply(checked, Return(t, now, cutoff)).value;
                     && returned.core == s.core.Forget()
                     && Apply(returned, Release(t)).Some?
                     && Apply(returned, Release(t)).value.clients[t].stage == if healthy then Gone else Queued
  {
  }

  /** Any other failure of a query or an update is final: the connection is dropped. */
  lemma {:induction false} FailureIsFinal(s: State, t: nat, now: Millis, cutoff: Option<Millis>)
    requires t < |s.clients| && s.clients[t].stage.Working? && !s.clients[t].stage.checking
    requires !s.clients[t].purpose.Session? && !(s.clients[t].purpose == Query(true) && s.clients[t].attempts == 1)
    ensures var failed := Apply(s, Work(t, false)).value;
            && Apply(failed, Return(t, now, cutoff)).Some?
            && Apply(failed, Return(t, now, cutoff)).value.core == s.core.Forget()
            && Apply(failed, Return(t, now, cutoff)).value.clients[t].stage == Returned(false)
  {
  }

  /** When the blocking task died, a query starts over if it was being checked or may run again;
      anything else is over. The count is lowered once. */
  lemma {:induction false} DeadTaskRetriedIff(s: State, t: nat)
    requires !s.oneStepLoss && t < |s.clients| && s.clients[t].stage.Working?
    ensures var c := s.clients[t];
            var died := Apply(s, Die(t)).value;
            && Apply(died, Lower(t)).Some?
            && Apply(died, Lower(t)).value.core == s.core.Forget()
            && Apply(died, Lower(t)).value.permits == s.permits + 1
            && (Apply(died, Lower(t)).value.clients[t].stage == Queued
                <==> c.purpose.Query? && (c.stage.checking || (c.purpose.retry && c.attempts == 1)))
            && (Apply(died, Lower(t)).value.clients[t].stage in {Queued, Gone})
  {
  }

  /** A session keeps its connection through its failures, until its handle is dropped. */
  lemma {:induction false} SessionsGoOn(s: State, t: nat, ok: bool, now: Millis, cutoff: Option<Millis>)
    requires t < |s.clients| && s.clients[t].stage.Working? && s.clients[t].purpose.Session?
    requires !s.clients[t].stage.hadError
    ensures var worked := Apply(s, Work(t, ok)).value;
            && worked.clients[t].stage == Lent(s.clients[t].stage.conn, false, Use)
            && Apply(worked, GiveUp(t)).Some?
            && Apply(Apply(worked, GiveUp(t)).value, Return(t, now, cutoff)).Some?
            && Apply(Apply(worked, GiveUp(t)).value, Return(t, now, cutoff)).value.core
               == s.core.GiveBack(s.clients[t].stage.conn, now, cutoff)
  {
  }

  /** A refused client and one whose connection could not be opened give their permit back and are
      gone. */
  lemma {:induction false} UnservedIsOver(s: State, t: nat, cutoff: Option<Millis>)
    requires t < |s.clients|
    ensures s.clients[t].stage.Granted? && s.core.Reserve(cutoff).1.Full? ==>
              var refused := Apply(s, Reserve(t, cutoff)).value;
              && Apply(refused, Release(t)).Some?
              && Apply(refused, Release(t)).value.clients[t].stage.Gone?
              && Apply(refused, Release(t)).value.permits == s.permits + 1
    ensures s.clients[t].stage.Creating? ==>
              var failed := Apply(s, Create(t, false)).value;
              && failed.core == s.core.Forget() && Apply(failed, Release(t)).Some?
              && Apply(failed, Release(t)).value.clients[t].stage.Gone?
  {
    hide Fresh;
  }
}
