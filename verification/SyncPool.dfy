/** The blocking client pool: an atomic count, the idle stack, and one retry. */
module SyncPool {
  import opened Wrappers
  import opened Counting
  import opened IdleConnections

  datatype Purpose = Query(retry: bool) | Update | Session

  /** What the holder of a connection does next. */
  datatype Next = Use | Check | Finish

  datatype Stage =
    | Waiting                                  // in the acquire loop
    | Creating                                 // count taken, connecting outside the lock
    | Lent(conn: Conn, hadError: bool, next: Next)
    | Gone
  {
    function Held(): Option<Conn> {
      if Lent? then Some(conn) else None
    }
  }

  datatype Client = Client(purpose: Purpose, attempts: nat, stage: Stage)

  /** `made` numbers the connections ever opened; `closed` counts those evicted or dropped. */
  datatype State = State(core: Core, clients: seq<Client>, made: Conn, closed: nat)

  function Init(max: nat, warm: nat): State
    requires warm <= max
  {
    State(Core(max, warm, seq(warm, i requires 0 <= i => Entry(i, 0))), [], warm, 0)
  }

  datatype Step =
    | Arrive(purpose: Purpose)
    | Reserve(t: nat, cutoff: Option<Millis>)   // one turn of the acquire loop
    | Timeout(t: nat)
    | Create(t: nat, ok: bool)
    | Work(t: nat, ok: bool)
    | HealthCheck(t: nat, healthy: bool)
    | GiveUp(t: nat)
    | Return(t: nat, healthy: bool, now: Millis, cutoff: Option<Millis>)

  function With(s: State, t: nat, stage: Stage): State
    requires t < |s.clients|
  {
    s.(clients := s.clients[t := s.clients[t].(stage := stage)])
  }

  function Evicted(core: Core, cutoff: Option<Millis>): nat {
    FreshLength(core.idle, cutoff);
    |core.idle| - |Fresh(core.idle, cutoff)|
  }

  /** The state after a step, or None when the step cannot happen. */
  function Apply(s: State, step: Step): Option<State> {
    if step.Arrive? then Some(s.(clients := s.clients + [Client(step.purpose, 0, Waiting)]))
    else if step.t >= |s.clients| then None
    else
      var t := step.t;
      var c := s.clients[t];
      var stage := c.stage;
      match step
      case Reserve(_, cutoff) =>
        if !stage.Waiting? then None
        else
          var (core, r) := s.core.Reserve(cutoff);
          var stage' := match r
                        case Reused(conn) => Lent(conn, false, Use)
                        case MayCreate => Creating
                        case Full => Waiting;
          Some(With(s, t, stage').(core := core, closed := s.closed + Evicted(s.core, cutoff)))
      case Timeout(_) => if stage.Waiting? then Some(With(s, t, Gone)) else None
      case Create(_, ok) =>
        if !stage.Creating? then None
        else if ok then Some(With(s, t, Lent(s.made, false, Use)).(made := s.made + 1))
        else Some(With(s, t, Gone).(core := s.core.Forget()))
      case Work(_, ok) =>
        if !stage.Lent? || stage.next != Use then None
        else if c.purpose.Session? then Some(s)
        else
          var next := if !ok && c.purpose.Query? && c.purpose.retry && c.attempts == 0 then Check else Finish;
          var stage' := Lent(stage.conn, stage.hadError || (!ok && next == Finish), next);
          Some(s.(clients := s.clients[t := Client(c.purpose, c.attempts + 1, stage')]))
      case HealthCheck(_, healthy) =>
        if !stage.Lent? || stage.next != Check then None
        else if healthy then Some(With(s, t, Lent(stage.conn, true, Finish)))
        else Some(With(s, t, Waiting).(core := s.core.Forget(), closed := s.closed + 1))
      case GiveUp(_) =>
        if stage.Lent? && stage.next == Use && c.purpose.Session? then
          Some(With(s, t, Lent(stage.conn, stage.hadError, Finish)))
        else None
      case Return(_, healthy, now, cutoff) =>
        if !stage.Lent? || stage.next != Finish then None
        else if stage.hadError && !healthy then
          Some(With(s, t, Gone).(core := s.core.Forget(), closed := s.closed + 1))
        else
          Some(With(s, t, Gone).(core := s.core.GiveBack(stage.conn, now, cutoff),
                                 closed := s.closed + Evicted(s.core, cutoff)))
  }

  /** The state after a whole run from `s`, or None when some step could not happen. */
  function Exec(s: State, steps: seq<Step>): Option<State>
    decreases |steps|
  {
    if steps == [] then Some(s)
    else
      var next := Apply(s, steps[0]);
      if next.None? then None else Exec(next.value, steps[1..])
  }

  // --- Accounting ---

  function Lending(c: Client): nat {
    if c.stage.Lent? then 1 else 0
  }

  function Connecting(c: Client): nat {
    if c.stage.Creating? then 1 else 0
  }

  function Held(clients: seq<Client>): (held: seq<Option<Conn>>)
    ensures |held| == |clients| && forall t :: 0 <= t < |held| ==> held[t] == clients[t].stage.Held()
  {
    seq(|clients|, t requires 0 <= t < |clients| => clients[t].stage.Held())
  }

  /** A query that may still run has run at most once; nothing else ever runs twice. */
  predicate AttemptsInv(c: Client) {
    var retried := c.purpose.Query? && c.purpose.retry;
    && c.attempts <= (if retried then 2 else if c.purpose.Session? then 0 else 1)
    && (c.stage.Waiting? || c.stage.Creating? || (c.stage.Lent? && c.stage.next == Use) ==>
          c.attempts <= if retried then 1 else 0)
    && (c.stage.Lent? && c.stage.next == Check ==> retried && c.attempts == 1)
  }

  predicate CountInv(s: State) {
    && s.core.total == |s.core.idle| + Sum(s.clients, Lending) + Sum(s.clients, Connecting)
    && s.core.total <= s.core.max
    && s.made - s.closed == |s.core.idle| + Sum(s.clients, Lending)
  }

  ghost predicate Inv(s: State) {
    && CountInv(s)
    && Owned(s.core.idle, Held(s.clients), s.made)
    && forall t :: 0 <= t < |s.clients| ==> AttemptsInv(s.clients[t])
  }

  lemma {:induction false} ReplacedSums(clients: seq<Client>, t: nat, c: Client)
    requires t < |clients|
    ensures var clients' := clients[t := c];
            && Sum(clients', Lending) + Lending(clients[t]) == Sum(clients, Lending) + Lending(c)
            && Sum(clients', Connecting) + Connecting(clients[t]) == Sum(clients, Connecting) + Connecting(c)
  {
    SumUpdate(clients, t, c, Lending);
    SumUpdate(clients, t, c, Connecting);
  }

  /** The client a step leaves at its place. */
  function After(s: State, step: Step): Client
    requires !step.Arrive? && Apply(s, step).Some?
  {
    Apply(s, step).value.clients[step.t]
  }

  lemma {:induction false} OneClient(s: State, step: Step)
    requires !step.Arrive? && Apply(s, step).Some?
    ensures Apply(s, step).value.clients == s.clients[step.t := After(s, step)]
  {
  }

  lemma {:induction false} StepDeltas(s: State, step: Step)
    requires !step.Arrive? && Apply(s, step).Some? && s.core.total <= s.core.max
    ensures var s' := Apply(s, step).value;
            var c, c' := s.clients[step.t], After(s, step);
            && s'.core.total - |s'.core.idle| - Lending(c') - Connecting(c')
               == s.core.total - |s.core.idle| - Lending(c) - Connecting(c)
            && s'.made - s'.closed - |s'.core.idle| - Lending(c')
               == s.made - s.closed - |s.core.idle| - Lending(c)
            && s'.core.total <= s'.core.max == s.core.max
  {
    hide Fresh;
    if step.Reserve? || step.Return? {
      FreshLength(s.core.idle, step.cutoff);
    }
  }

  lemma {:induction false} CountStep(s: State, step: Step)
    requires CountInv(s) && Apply(s, step).Some?
    ensures CountInv(Apply(s, step).value)
  {
    if step.Arrive? {
      var c := Client(step.purpose, 0, Waiting);
      SumSnoc(s.clients, c, Lending);
      SumSnoc(s.clients, c, Connecting);
      hide Sum;
    } else {
      StepDeltas(s, step);
      OneClient(s, step);
      ReplacedSums(s.clients, step.t, After(s, step));
      hide Sum, Apply, After;
    }
  }

  lemma {:induction false} OwnedStep(s: State, step: Step)
    requires Owned(s.core.idle, Held(s.clients), s.made) && Apply(s, step).Some?
    ensures var s' := Apply(s, step).value; Owned(s'.core.idle, Held(s'.clients), s'.made)
  {
    var s' := Apply(s, step).value;
    var held := Held(s.clients);
    hide Fresh;
    if !step.Arrive? {
      OneClient(s, step);
      var t := step.t;
      hide Held;
      assert Held(s'.clients) == held[t := After(s, step).stage.Held()];
      assert held == held[t := held[t]];
      match step
      case Reserve(_, cutoff) =>
        OwnedEvict(s.core.idle, held, s.made, cutoff);
        if Fresh(s.core.idle, cutoff) != [] {
          OwnedPop(Fresh(s.core.idle, cutoff), held, s.made, t);
        }
      case Create(_, ok) =>
        OwnedCreate(s.core.idle, held, s.made, t);
      case HealthCheck(_, _) =>
        OwnedLose(s.core.idle, held, s.made, t);
      case Return(_, healthy, now, cutoff) =>
        OwnedLose(s.core.idle, held, s.made, t);
        OwnedEvict(s.core.idle, held, s.made, cutoff);
        OwnedPush(Fresh(s.core.idle, cutoff), held, s.made, t, now);
      case _ =>
    }
  }

  lemma {:induction false} AttemptsStep(s: State, step: Step)
    requires forall t :: 0 <= t < |s.clients| ==> AttemptsInv(s.clients[t])
    requires Apply(s, step).Some?
    ensures forall t :: 0 <= t < |Apply(s, step).value.clients| ==> AttemptsInv(Apply(s, step).value.clients[t])
  {
    hide Fresh;
    if !step.Arrive? {
      OneClient(s, step);
      assert AttemptsInv(s.clients[step.t]);
      assert AttemptsInv(After(s, step));
    }
  }

  lemma {:induction false} ApplyInv(s: State, step: Step)
    requires Inv(s) && Apply(s, step).Some?
    ensures Inv(Apply(s, step).value) && Apply(s, step).value.core.max == s.core.max
  {
    CountStep(s, step);
    OwnedStep(s, step);
    AttemptsStep(s, step);
    assert Apply(s, step).value.core.max == s.core.max by {
      hide Fresh;
    }
    hide Apply, CountInv, Owned, AttemptsInv;
  }

  lemma {:induction false} ExecInv(s: State, steps: seq<Step>)
    requires Inv(s) && Exec(s, steps).Some?
    ensures Inv(Exec(s, steps).value) && Exec(s, steps).value.core.max == s.core.max
    decreases |steps|
  {
    if steps != [] {
      hide Apply, Inv;
      ApplyInv(s, steps[0]);
      ExecInv(Apply(s, steps[0]).value, steps[1..]);
    }
  }

  // --- Over every run ---

  /** The count is the idle connections, those lent and those being created; it stays within
      the limit; every connection opened and gone was taken off it once; none has two holders. */
  lemma {:induction false} Accounting(max: nat, warm: nat, steps: seq<Step>)
    requires warm <= max && Exec(Init(max, warm), steps).Some?
    ensures var s := Exec(Init(max, warm), steps).value;
            && s.core.total == |s.core.idle| + Sum(s.clients, Lending) + Sum(s.clients, Connecting)
            && s.core.total == s.made - s.closed + Sum(s.clients, Connecting)
            && 0 <= s.core.total <= max
            && Owned(s.core.idle, Held(s.clients), s.made)
  {
    ExecInv(Init(max, warm), steps);
  }

  /** A retried query runs at most twice, any other query or update at most once. */
  lemma {:induction false} AttemptsBounded(max: nat, warm: nat, steps: seq<Step>, t: nat)
    requires warm <= max && Exec(Init(max, warm), steps).Some?
    requires t < |Exec(Init(max, warm), steps).value.clients|
    ensures var c := Exec(Init(max, warm), steps).value.clients[t];
            c.attempts <= if c.purpose.Query? && c.purpose.retry then 2 else 1
  {
    ExecInv(Init(max, warm), steps);
    assert AttemptsInv(Exec(Init(max, warm), steps).value.clients[t]);
  }

  // --- A failed reacquire among other clients ---

  /** In this run client `t` only takes turns that find the pool full and evict nothing. */
  predicate Waits(s: State, steps: seq<Step>, t: nat)
    requires Exec(s, steps).Some?
    decreases |steps|
  {
    steps == [] ||
    var next := Apply(s, steps[0]).value;
    && (steps[0].Arrive? || steps[0].t != t || (steps[0].Reserve? && next == s))
    && Waits(next, steps[1..], t)
  }

  /** The steps of the others. */
  function Others(steps: seq<Step>, t: nat): seq<Step> {
    if steps == [] then []
    else (if steps[0].Arrive? || steps[0].t != t then [steps[0]] else []) + Others(steps[1..], t)
  }

  lemma {:induction false} OtherStep(s: State, step: Step, t: nat, stage: Stage)
    requires t < |s.clients| && Apply(s, step).Some? && (step.Arrive? || step.t != t)
    ensures var s' := Apply(s, step).value;
            t < |s'.clients| && s'.clients[t] == s.clients[t]
            && Apply(With(s, t, stage), step) == Some(With(s', t, stage))
  {
    hide Fresh;
    var left := Apply(With(s, t, stage), step).value;
    var right := With(Apply(s, step).value, t, stage);
    if step.Arrive? {
      assert left.clients == right.clients;
    } else {
      assert left.clients == right.clients;
    }
  }

  lemma {:induction false} WaitingLeavesNoTrace(s: State, steps: seq<Step>, t: nat)
    requires t < |s.clients| && Exec(s, steps).Some? && Waits(s, steps, t)
    ensures var s' := Exec(s, steps).value;
            t < |s'.clients| && s'.clients[t] == s.clients[t]
            && Exec(With(s, t, Gone), Others(steps, t)) == Some(With(s', t, Gone))
    decreases |steps|
  {
    if steps != [] {
      var next, rest := Apply(s, steps[0]).value, steps[1..];
      if steps[0].Arrive? || steps[0].t != t {
        OtherStep(s, steps[0], t, Gone);
        assert Others(steps, t)[0] == steps[0] && Others(steps, t)[1..] == Others(rest, t);
      } else {
        assert [] + Others(rest, t) == Others(rest, t);
      }
      hide Apply, With;
      WaitingLeavesNoTrace(next, rest, t);
    }
  }

  /** Losing the connection to a failed health check, waiting while the others go on, and then
      timing out: the count was lowered once, at the health check, and the pool and the other
      clients end as if the client had left then. */
  lemma {:induction false} FailedReacquire(s: State, steps: seq<Step>, t: nat)
    requires t < |s.clients| && s.clients[t].stage.Lent? && s.clients[t].stage.next == Check
    requires var lost := Apply(s, HealthCheck(t, false)).value;
             Exec(lost, steps).Some? && Waits(lost, steps, t)
    ensures var lost := Apply(s, HealthCheck(t, false)).value;
            && lost.core == s.core.Forget() && lost.closed == s.closed + 1
            && lost.clients == s.clients[t := s.clients[t].(stage := Waiting)]
            && Apply(Exec(lost, steps).value, Timeout(t)).Some?
            && Apply(Exec(lost, steps).value, Timeout(t)) == Exec(With(lost, t, Gone), Others(steps, t))
  {
    var lost := Apply(s, HealthCheck(t, false)).value;
    WaitingLeavesNoTrace(lost, steps, t);
    hide Exec;
  }

  // --- Failed connections ---

  /** The connection is not idle, and a client that holds it has seen it fail. */
  predicate Suspect(s: State, conn: Conn) {
    && (forall i :: 0 <= i < |s.core.idle| ==> s.core.idle[i].conn != conn)
    && conn < s.made
    && forall t :: 0 <= t < |s.clients| && s.clients[t].stage.Held() == Some(conn) ==> Failing(s.clients[t].stage)
  }

  predicate Failing(stage: Stage) {
    stage.Lent? && (stage.hadError || stage.next == Check)
  }

  /** The step gives this connection back after a health check that succeeded. */
  predicate HealthyReturn(s: State, step: Step, conn: Conn) {
    step.Return? && step.healthy && step.t < |s.clients| && s.clients[step.t].stage.Held() == Some(conn)
  }

  lemma {:induction false} SuspectIdle(idle: seq<Entry>, cutoff: Option<Millis>, conn: Conn)
    requires forall i :: 0 <= i < |idle| ==> idle[i].conn != conn
    ensures forall i :: 0 <= i < |Fresh(idle, cutoff)| ==> Fresh(idle, cutoff)[i].conn != conn
  {
    var places := FreshPlaces(idle, cutoff);
  }

  lemma {:induction false} SuspectOwn(s: State, step: Step, conn: Conn)
    requires Suspect(s, conn) && !step.Arrive? && Apply(s, step).Some? && !HealthyReturn(s, step, conn)
    ensures var s' := Apply(s, step).value;
            && (forall i :: 0 <= i < |s'.core.idle| ==> s'.core.idle[i].conn != conn)
            && s.made <= s'.made
            && (After(s, step).stage.Held() == Some(conn) ==> Failing(After(s, step).stage))
  {
    hide Fresh;
    if step.Reserve? || step.Return? {
      SuspectIdle(s.core.idle, step.cutoff, conn);
    }
    assert s.clients[step.t].stage.Held() == Some(conn) ==> Failing(s.clients[step.t].stage);
  }

  lemma {:induction false} SuspectStep(s: State, step: Step, conn: Conn)
    requires Suspect(s, conn) && Apply(s, step).Some? && !HealthyReturn(s, step, conn)
    ensures Suspect(Apply(s, step).value, conn)
  {
    if !step.Arrive? {
      OneClient(s, step);
      SuspectOwn(s, step, conn);
      hide Apply, After, Failing;
    }
  }

  lemma {:induction false} SuspectNeedsHealth(s: State, steps: seq<Step>, conn: Conn)
    requires Suspect(s, conn) && Exec(s, steps).Some? && !Suspect(Exec(s, steps).value, conn)
    ensures exists k :: 0 <= k < |steps| && Exec(s, steps[..k]).Some?
                     && HealthyReturn(Exec(s, steps[..k]).value, steps[k], conn)
    decreases |steps|
  {
    var s1 := Apply(s, steps[0]).value;
    hide Apply, Suspect, HealthyReturn;
    if HealthyReturn(s, steps[0], conn) {
      assert steps[..0] == [] && Exec(s, []) == Some(s);
      assert HealthyReturn(Exec(s, steps[..0]).value, steps[0], conn);
    } else {
      SuspectStep(s, steps[0], conn);
      SuspectNeedsHealth(s1, steps[1..], conn);
      var k :| 0 <= k < |steps| - 1 && Exec(s1, steps[1..][..k]).Some?
               && HealthyReturn(Exec(s1, steps[1..][..k]).value, steps[1..][k], conn);
      assert steps[..k + 1][1..] == steps[1..][..k] && steps[k + 1] == steps[1..][k];
      assert Exec(s, steps[..k + 1]) == Exec(s1, steps[1..][..k]);
    }
  }

  /** A connection on which a query or an update failed is idle again only after a health check
      of it succeeded, as its holder gave it back. */
  lemma {:induction false} FailedNeedsHealth(s: State, t: nat, steps: seq<Step>)
    requires Inv(s) && t < |s.clients| && !s.clients[t].purpose.Session?
    requires s.clients[t].stage.Lent? && s.clients[t].stage.next == Use
    requires Exec(Apply(s, Work(t, false)).value, steps).Some?
    requires var s' := Exec(Apply(s, Work(t, false)).value, steps).value;
             exists i :: 0 <= i < |s'.core.idle| && s'.core.idle[i].conn == s.clients[t].stage.conn
    ensures var failed := Apply(s, Work(t, false)).value;
            exists k :: 0 <= k < |steps| && Exec(failed, steps[..k]).Some?
                     && HealthyReturn(Exec(failed, steps[..k]).value, steps[k], s.clients[t].stage.conn)
  {
    var conn := s.clients[t].stage.conn;
    var s1 := Apply(s, Work(t, false)).value;
    assert Held(s.clients)[t] == Some(conn);
    assert Suspect(s1, conn) by {
      assert forall u :: 0 <= u < |s.clients| && u != t ==> s1.clients[u] == s.clients[u];
      assert forall u :: 0 <= u < |s.clients| ==> Held(s.clients)[u] == s.clients[u].stage.Held();
    }
    hide Exec, Apply, Inv, HealthyReturn;
    SuspectNeedsHealth(s1, steps, conn);
  }

  /** A connection whose work succeeded is given back without one. */
  lemma {:induction false} GoodIsGivenBack(s: State, t: nat, healthy: bool, now: Millis, cutoff: Option<Millis>)
    requires t < |s.clients| && !s.clients[t].purpose.Session?
    requires s.clients[t].stage.Lent? && s.clients[t].stage.next == Use && !s.clients[t].stage.hadError
    ensures var worked := Apply(s, Work(t, true)).value;
            Apply(worked, Return(t, healthy, now, cutoff)).Some?
            && Apply(worked, Return(t, healthy, now, cutoff)).value.core.idle
               == Fresh(s.core.idle, cutoff) + [Entry(s.clients[t].stage.conn, now)]
  {
    hide Fresh;
  }

  // --- Retries ---

  /** A failed first attempt of a retried query: the connection is checked; when that fails it is
      lost and the query waits for another; when it succeeds the failure is final. */
  lemma {:induction false} RetriedIff(s: State, t: nat, healthy: bool)
    requires t < |s.clients| && s.clients[t].stage.Lent? && s.clients[t].stage.next == Use
    requires s.clients[t].purpose == Query(true) && s.clients[t].attempts == 0
    ensures var failed := Apply(s, Work(t, false)).value;
            && Apply(failed, HealthCheck(t, healthy)).Some?
            && Apply(failed, HealthCheck(t, healthy)).value.clients[t]
               == Client(Query(true), 1, if healthy then Lent(s.clients[t].stage.conn, true, Finish) else Waiting)
            && Apply(failed, HealthCheck(t, healthy)).value.core == if healthy then s.core else s.core.Forget()
  {
  }

  /** Any other failure of a query or an update is final. */
  lemma {:induction false} FailureIsFinal(s: State, t: nat)
    requires t < |s.clients| && s.clients[t].stage.Lent? && s.clients[t].stage.next == Use
    requires !s.clients[t].purpose.Session? && !(s.clients[t].purpose == Query(true) && s.clients[t].attempts == 0)
    ensures Apply(s, Work(t, false)).value.clients[t].stage == Lent(s.clients[t].stage.conn, true, Finish)
  {
  }

  /** A connection that had an error is given back exactly when it is found healthy, and lowers the
      count otherwise. */
  lemma {:induction false} ErrorReturns(s: State, t: nat, healthy: bool, now: Millis, cutoff: Option<Millis>)
    requires t < |s.clients| && s.clients[t].stage.Lent? && s.clients[t].stage.next == Finish
    requires s.clients[t].stage.hadError
    ensures Apply(s, Return(t, healthy, now, cutoff)).Some?
    ensures Apply(s, Return(t, healthy, now, cutoff)).value.core
         == if healthy then s.core.GiveBack(s.clients[t].stage.conn, now, cutoff) else s.core.Forget()
  {
  }

  /** A client that finds the pool full goes on waiting; a session keeps its connection. */
  lemma {:induction false} FullWaits(s: State, t: nat, cutoff: Option<Millis>, ok: bool)
    requires t < |s.clients|
    ensures s.clients[t].stage.Waiting? && s.core.Reserve(cutoff).1.Full? ==>
              Apply(s, Reserve(t, cutoff)).value.clients[t] == s.clients[t]
    ensures s.clients[t].purpose.Session? && s.clients[t].stage.Lent? && s.clients[t].stage.next == Use ==>
              Apply(s, Work(t, ok)) == Some(s)
  {
    hide Fresh;
  }

  /** A client whose connection could not be opened and one that waited too long hold nothing, leave the
      count as it was without them, and take no step any more. */
  lemma {:induction false} UnservedIsOver(s: State, t: nat, step: Step)
    requires t < |s.clients| && !step.Arrive? && step.t == t
    ensures s.clients[t].stage.Creating? ==>
              var failed := Apply(s, Create(t, false)).value;
              failed.core == s.core.Forget() && failed.clients[t].stage.Held().None? && Apply(failed, step).None?
    ensures s.clients[t].stage.Waiting? ==>
              var late := Apply(s, Timeout(t)).value;
              late.core == s.core && late.clients[t].stage.Held().None? && Apply(late, step).None?
  {
    hide Fresh;
  }
}
