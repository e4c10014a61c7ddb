/** The session registry and its bind gate. A session's number stands for its nonce. */
module Registry {
  import opened Wrappers
  import opened Counting

  type Id = nat
  type Nonce = nat
  type Subject = nat
  type Project = nat

  datatype Auth = Auth(subject: Subject, project: Project, writer: bool)

  datatype Session = Session(id: Id, auth: Option<Auth>)

  // --- The registry object ---

  /** `dropping` counts entries taken out whose permit is not yet back. */
  datatype Registry = Registry(sessions: map<Id, Nonce>, free: nat, dropping: nat)
  {
    function Get(id: Id): Option<Nonce> {
      if id in sessions then Some(sessions[id]) else None
    }

    function Remove(id: Id, nonce: Nonce): Registry {
      if Get(id) == Some(nonce) then this.(sessions := sessions - {id}, dropping := dropping + 1) else this
    }

    function Sweep(idle: set<Id>): Registry {
      this.(sessions := sessions - idle, dropping := dropping + |sessions.Keys * idle|)
    }

    /** The session registered afterwards: the given one, unless another came first. */
    function Register(id: Id, nonce: Nonce): Registry {
      if id in sessions then this else this.(sessions := sessions[id := nonce])
    }
  }

  class SessionRegistry {
    var sessions: map<Id, Nonce>
    var free: nat
    var dropping: nat

    function State(): Registry
      reads this
    {
      Registry(sessions, free, dropping)
    }

    constructor (max: nat)
      ensures State() == Registry(map[], max, 0)
    {
      sessions, free, dropping := map[], max, 0;
    }

    method GetById(id: Id) returns (found: Option<Nonce>)
      ensures found == State().Get(id)
    {
      if id in sessions {
        return Some(sessions[id]);
      }
      return None;
    }

    method RemoveSession(id: Id, nonce: Nonce) returns (removed: bool)
      modifies this
      ensures State() == old(State()).Remove(id, nonce)
      ensures removed <==> old(State()).Get(id) == Some(nonce)
    {
      if id in sessions && sessions[id] == nonce {
        sessions := sessions - {id};
        dropping := dropping + 1;
        return true;
      }
      return false;
    }

    method TryAcquire() returns (ok: bool)
      modifies this
      ensures ok == (old(free) > 0)
      ensures State() == if ok then old(State()).(free := old(free) - 1) else old(State())
    {
      if free == 0 {
        return false;
      }
      free := free - 1;
      return true;
    }

    /** The second look under the write lock. */
    method RegisterSession(id: Id, nonce: Nonce) returns (registered: Nonce, inserted: bool)
      modifies this
      ensures State() == old(State()).Register(id, nonce)
      ensures State().Get(id) == Some(registered)
      ensures inserted <==> old(State()).Get(id).None?
    {
      if id in sessions {
        return sessions[id], false;
      }
      sessions := sessions[id := nonce];
      return nonce, true;
    }

    /** Drops the sessions among `idle`, whatever order the table is walked in. */
    method CleanupIdleSessions(idle: set<Id>) returns (removed: nat)
      modifies this
      ensures State() == old(State()).Sweep(idle)
      ensures removed == |old(sessions)| - |sessions|
    {
      ghost var before := sessions;
      ghost var gone: set<Id> := {};
      var todo := sessions.Keys;
      removed := 0;
      while todo != {}
        invariant todo <= before.Keys
        invariant gone == (before.Keys - todo) * idle
        invariant removed == |gone|
        invariant sessions == before - gone
        invariant free == old(free) && dropping == old(dropping) + removed
        decreases todo
      {
        var id :| id in todo;
        SweepTurn(before, todo, gone, idle, id);
        if id in idle {
          sessions := sessions - {id};
          removed := removed + 1;
          dropping := dropping + 1;
          gone := gone + {id};
        }
        todo := todo - {id};
      }
      assert gone == before.Keys * idle;
      assert before - gone == before - idle;
      SweepSize(before, idle);
    }
  }

  lemma {:induction false} SweepTurn(before: map<Id, Nonce>, todo: set<Id>, gone: set<Id>, idle: set<Id>, id: Id)
    requires id in todo && todo <= before.Keys && gone == (before.Keys - todo) * idle
    ensures (before.Keys - (todo - {id})) * idle == if id in idle then gone + {id} else gone
    ensures |gone + {id}| == |gone| + 1
    ensures before - gone - {id} == before - (gone + {id})
  {
    assert before.Keys - (todo - {id}) == (before.Keys - todo) + {id};
  }

  lemma {:induction false} SweepSize(sessions: map<Id, Nonce>, idle: set<Id>)
    ensures |sessions - idle| + |sessions.Keys * idle| == |sessions|
  {
    assert sessions.Keys == (sessions - idle).Keys + sessions.Keys * idle;
    assert (sessions - idle).Keys !! sessions.Keys * idle;
  }

  // --- Requests ---

  /** `bearer` is the subject of a valid token; `expected` a readable expected nonce. */
  datatype Headers = Headers(id: Id, bearer: Option<Subject>, project: Option<Project>, expected: Option<Nonce>)

  datatype Stage =
    | Arrived
    | Asking(subject: Subject, project: Project)
    | AskingWriter(subject: Subject, project: Project)
    | Binding(auth: Option<Auth>)               // about to look the id up once more
    | Unpermitted(auth: Option<Auth>)
    | Connecting(auth: Option<Auth>)            // permit held from here on
    | Registering(auth: Option<Auth>, made: Nonce)
    | Releasing(auth: Option<Auth>, result: Option<Nonce>)
    | Verifying(auth: Option<Auth>, session: Nonce)
    | Bound(session: Nonce)                     // the expected nonce is still unchecked
    | Served(session: Nonce)
    | Refused

  datatype Request = Request(headers: Headers, stage: Stage)

  /** `gated` servers authenticate; `readOnly` ones never ask for the writer capability. */
  datatype State = State(
    gated: bool, readOnly: bool, max: nat, registry: Registry, made: seq<Session>, requests: seq<Request>)

  function Init(gated: bool, readOnly: bool, max: nat): State {
    State(gated, readOnly, max, Registry(map[], max, 0), [], [])
  }

  /** Every region under the lock is one step, and so is every answer. */
  datatype Step =
    | Arrive(headers: Headers)
    | Lookup(r: nat)
    | Decide(r: nat, allowed: Option<bool>)     // None when the service is unavailable
    | LookAgain(r: nat)
    | Acquire(r: nat)
    | Connect(r: nat, ok: bool)
    | Register(r: nat)
    | Release(r: nat)
    | Verify(r: nat)
    | CheckNonce(r: nat)
    | Remove(id: Id, nonce: Nonce)
    | Sweep(idle: set<Id>)
    | DropEntry

  /** The gate's first look: bind to an existing session, refuse, or go on to ask. */
  function Gate(s: State, h: Headers): Stage {
    if !s.gated then Binding(None)
    else if h.bearer.None? then Refused
    else
      match s.registry.Get(h.id)
      case Some(n) =>
        if n >= |s.made| || s.made[n].auth.None? then Refused
        else
          var auth := s.made[n].auth.value;
          if auth.subject != h.bearer.value then Refused
          else if h.project.Some? && h.project.value != auth.project then Refused
          else Bound(n)
      case None =>
        if h.expected.Some? || h.project.None? then Refused else Asking(h.bearer.value, h.project.value)
  }

  function Decided(s: State, stage: Stage, allowed: bool): Stage
    requires stage.Asking? || stage.AskingWriter?
  {
    if stage.AskingWriter? then Binding(Some(Auth(stage.subject, stage.project, allowed)))
    else if !allowed then Refused
    else if s.readOnly then Binding(Some(Auth(stage.subject, stage.project, false)))
    else AskingWriter(stage.subject, stage.project)
  }

  function With(s: State, r: nat, stage: Stage): State
    requires r < |s.requests|
  {
    s.(requests := s.requests[r := s.requests[r].(stage := stage)])
  }

  /** A step of one request, or None when it cannot happen. */
  function Serve(s: State, r: nat, step: Step): Option<State>
    requires r < |s.requests|
  {
    var h := s.requests[r].headers;
    var stage := s.requests[r].stage;
    match step
    case Lookup(_) => if stage.Arrived? then Some(With(s, r, Gate(s, h))) else None
    case Decide(_, allowed) =>
      if !stage.Asking? && !stage.AskingWriter? then None
      else Some(With(s, r, if allowed.None? then Refused else Decided(s, stage, allowed.value)))
    case LookAgain(_) =>
      if !stage.Binding? then None
      else
        var found := s.registry.Get(h.id);
        Some(With(s, r, if found.Some? then Verifying(stage.auth, found.value) else Unpermitted(stage.auth)))
    case Acquire(_) =>
      if !stage.Unpermitted? then None
      else if s.registry.free == 0 then Some(With(s, r, Refused))
      else Some(With(s, r, Connecting(stage.auth)).(registry := s.registry.(free := s.registry.free - 1)))
    case Connect(_, ok) =>
      if !stage.Connecting? then None
      else if !ok then Some(With(s, r, Releasing(stage.auth, None)))
      else Some(With(s, r, Registering(stage.auth, |s.made|)).(made := s.made + [Session(h.id, stage.auth)]))
    case Register(_) =>
      if !stage.Registering? then None
      else
        var found := s.registry.Get(h.id);
        Some(With(s, r, if found.Some? then Releasing(stage.auth, found) else Verifying(stage.auth, stage.made))
             .(registry := s.registry.Register(h.id, stage.made)))
    case Release(_) =>
      if !stage.Releasing? then None
      else
        Some(With(s, r, if stage.result.Some? then Verifying(stage.auth, stage.result.value) else Refused)
             .(registry := s.registry.(free := s.registry.free + 1)))
    case Verify(_) =>
      if !stage.Verifying? then None
      else
        var ok := !s.gated || (stage.session < |s.made| && s.made[stage.session].auth == stage.auth);
        Some(With(s, r, if ok then Bound(stage.session) else Refused))
    case CheckNonce(_) =>
      if !stage.Bound? then None
      else
        var ok := h.expected.None? || h.expected.value == stage.session;
        Some(With(s, r, if ok then Served(stage.session) else Refused))
    case _ => None
  }

  /** The state after a step, or None when the step cannot happen. */
  function Apply(s: State, step: Step): Option<State> {
    match step
    case Arrive(h) => Some(s.(requests := s.requests + [Request(h, Arrived)]))
    case Remove(id, nonce) => Some(s.(registry := s.registry.Remove(id, nonce)))
    case Sweep(idle) => Some(s.(registry := s.registry.Sweep(idle)))
    case DropEntry =>
      var reg := s.registry;
      if reg.dropping == 0 then None
      else Some(s.(registry := reg.(free := reg.free + 1, dropping := reg.dropping - 1)))
    case _ => if step.r < |s.requests| then Serve(s, step.r, step) else None
  }

  /** The state after a whole run from `s`, or None when some step could not happen. */
  function Exec(s: State, steps: seq<Step>): Option<State>
    decreases |steps|
  {
    if steps == [] then Some(s)
    else
      var next := Apply(s, steps[0]);
      if next.None? then None else Exec(next.value, steps[1..])
  }

  // --- The invariant ---

  /** Holds a permit that no registered session holds. */
  function InFlight(q: Request): nat {
    if q.stage.Connecting? || q.stage.Registering? || q.stage.Releasing? then 1 else 0
  }

  predicate Permits(s: State) {
    s.registry.free + |s.registry.sessions| + Sum(s.requests, InFlight) + s.registry.dropping == s.max
  }

  /** An auth that this server may bind for these headers. */
  predicate Grantable(s: State, h: Headers, auth: Option<Auth>) {
    if s.gated then
      auth.Some? && h.bearer == Some(auth.value.subject) && h.project == Some(auth.value.project)
      && (s.readOnly ==> !auth.value.writer)
    else auth.None?
  }

  predicate Session?(s: State, n: Nonce, id: Id) {
    n < |s.made| && s.made[n].id == id
  }

  /** What the gate promises of a session it hands to a request. */
  predicate Admits(s: State, h: Headers, n: Nonce) {
    && Session?(s, n, h.id)
    && (s.gated ==>
          && s.made[n].auth.Some?
          && h.bearer == Some(s.made[n].auth.value.subject)
          && (h.project.Some? ==> h.project.value == s.made[n].auth.value.project))
  }

  predicate RequestInv(s: State, q: Request) {
    var h := q.headers;
    match q.stage
    case Arrived => true
    case Asking(subject, project) => s.gated && h.bearer == Some(subject) && h.project == Some(project)
    case AskingWriter(subject, project) =>
      s.gated && !s.readOnly && h.bearer == Some(subject) && h.project == Some(project)
    case Binding(auth) => Grantable(s, h, auth)
    case Unpermitted(auth) => Grantable(s, h, auth)
    case Connecting(auth) => Grantable(s, h, auth)
    case Registering(auth, n) => Grantable(s, h, auth) && Session?(s, n, h.id) && s.made[n].auth == auth
    case Releasing(auth, result) => Grantable(s, h, auth) && (result.Some? ==> Session?(s, result.value, h.id))
    case Verifying(auth, n) => Grantable(s, h, auth) && Session?(s, n, h.id)
    case Bound(n) => Admits(s, h, n)
    case Served(n) => Admits(s, h, n) && (h.expected.Some? ==> h.expected.value == n)
    case Refused => true
  }

  predicate MadeInv(s: State) {
    && (forall id :: id in s.registry.sessions ==> Session?(s, s.registry.sessions[id], id))
    && (forall n :: 0 <= n < |s.made| ==>
          if s.gated then s.made[n].auth.Some? && (s.readOnly ==> !s.made[n].auth.value.writer)
          else s.made[n].auth.None?)
  }

  predicate Inv(s: State) {
    && Permits(s)
    && MadeInv(s)
    && (forall r :: 0 <= r < |s.requests| ==> RequestInv(s, s.requests[r]))
  }

  lemma {:induction false} SumReplaced(requests: seq<Request>, r: nat, q: Request)
    requires r < |requests|
    ensures Sum(requests[r := q], InFlight) + InFlight(requests[r]) == Sum(requests, InFlight) + InFlight(q)
  {
    SumUpdate(requests, r, q, InFlight);
  }

  /** The request a step leaves at its place. */
  function After(s: State, r: nat, step: Step): Request
    requires r < |s.requests| && Serve(s, r, step).Some?
  {
    Serve(s, r, step).value.requests[r]
  }

  lemma {:induction false} OneRequest(s: State, r: nat, step: Step)
    requires r < |s.requests| && Serve(s, r, step).Some?
    ensures var s' := Serve(s, r, step).value;
            && s'.requests == s.requests[r := After(s, r, step)]
            && After(s, r, step).headers == s.requests[r].headers
            && (s'.gated, s'.readOnly, s'.max) == (s.gated, s.readOnly, s.max)
            && s.made <= s'.made
  {
  }

  lemma {:induction false} RegisterSize(sessions: map<Id, Nonce>, id: Id, n: Nonce)
    ensures |sessions[id := n]| == |sessions| + if id in sessions then 0 else 1
  {
    assert sessions[id := n].Keys == sessions.Keys + {id};
  }

  lemma {:induction false} PermitDelta(s: State, r: nat, step: Step)
    requires r < |s.requests| && Serve(s, r, step).Some?
    ensures var reg, reg' := s.registry, Serve(s, r, step).value.registry;
            reg'.free + |reg'.sessions| + InFlight(After(s, r, step)) + reg'.dropping
            == reg.free + |reg.sessions| + InFlight(s.requests[r]) + reg.dropping
  {
    if step.Register? && s.requests[r].stage.Registering? {
      RegisterSize(s.registry.sessions, s.requests[r].headers.id, s.requests[r].stage.made);
    }
  }

  lemma {:induction false} RemoveDelta(reg: Registry, id: Id, nonce: Nonce)
    ensures var reg' := reg.Remove(id, nonce);
            reg'.free + |reg'.sessions| + reg'.dropping == reg.free + |reg.sessions| + reg.dropping
  {
    if reg.Get(id) == Some(nonce) {
      assert reg.sessions.Keys * {id} == {id};
      SweepSize(reg.sessions, {id});
    }
  }

  lemma {:induction false} PermitsStep(s: State, step: Step)
    requires Permits(s) && Apply(s, step).Some?
    ensures Permits(Apply(s, step).value)
  {
    hide Sum, Serve, After;
    match step
    case Arrive(h) =>
      SumSnoc(s.requests, Request(h, Arrived), InFlight);
    case Remove(id, nonce) =>
      RemoveDelta(s.registry, id, nonce);
    case Sweep(idle) =>
      SweepSize(s.registry.sessions, idle);
    case DropEntry =>
    case _ =>
      OneRequest(s, step.r, step);
      PermitDelta(s, step.r, step);
      SumReplaced(s.requests, step.r, After(s, step.r, step));
  }

  /** Later states know every session earlier ones knew, with the same binding. */
  lemma {:induction false} RequestKept(s: State, s': State, q: Request)
    requires RequestInv(s, q) && s.made <= s'.made && (s'.gated, s'.readOnly) == (s.gated, s.readOnly)
    ensures RequestInv(s', q)
  {
  }

  lemma {:induction false} GateStep(s: State, r: nat, step: Step)
    requires r < |s.requests| && Serve(s, r, step).Some? && (step.Lookup? || step.Decide?)
    requires MadeInv(s) && RequestInv(s, s.requests[r])
    ensures RequestInv(Serve(s, r, step).value, After(s, r, step))
  {
  }

  lemma {:induction false} CreateStep(s: State, r: nat, step: Step)
    requires r < |s.requests| && Serve(s, r, step).Some?
    requires step.LookAgain? || step.Register? || step.Connect?
    requires MadeInv(s) && RequestInv(s, s.requests[r])
    ensures RequestInv(Serve(s, r, step).value, After(s, r, step))
  {
    hide Gate, Decided;
  }

  lemma {:induction false} RequestStep(s: State, r: nat, step: Step)
    requires r < |s.requests| && Serve(s, r, step).Some?
    requires MadeInv(s) && RequestInv(s, s.requests[r])
    ensures RequestInv(Serve(s, r, step).value, After(s, r, step))
  {
    if step.Lookup? || step.Decide? {
      GateStep(s, r, step);
    } else if step.LookAgain? || step.Register? || step.Connect? {
      CreateStep(s, r, step);
    } else {
      hide Gate, Decided;
    }
  }

  lemma {:induction false} MadeStep(s: State, r: nat, step: Step)
    requires r < |s.requests| && Serve(s, r, step).Some?
    requires MadeInv(s) && RequestInv(s, s.requests[r])
    ensures MadeInv(Serve(s, r, step).value)
  {
    SessionsStep(s, r, step);
    if step.Connect? || step.Register? {
    } else {
      assert Serve(s, r, step).value.made == s.made;
      hide Serve, RequestInv;
    }
  }

  /** How serving changes the table and the sessions about to enter it. */
  lemma {:induction false} SessionsStep(s: State, r: nat, step: Step)
    requires r < |s.requests| && Serve(s, r, step).Some?
    ensures var s' := Serve(s, r, step).value;
            var stage, stage' := s.requests[r].stage, After(s, r, step).stage;
            var id := s.requests[r].headers.id;
            && (if stage.Registering? then
                  && !stage'.Registering?
                  && s'.registry.sessions == (if id in s.registry.sessions then s.registry.sessions
                                              else s.registry.sessions[id := stage.made])
                else s'.registry.sessions == s.registry.sessions)
            && (stage'.Registering? ==> stage'.made == |s.made| && |s'.made| == |s.made| + 1)
  {
  }

  lemma {:induction false} OthersKept(s: State, s': State, r: nat)
    requires forall i :: 0 <= i < |s.requests| ==> RequestInv(s, s.requests[i])
    requires s.made <= s'.made && (s'.gated, s'.readOnly) == (s.gated, s.readOnly)
    requires |s.requests| <= |s'.requests|
    requires forall i :: 0 <= i < |s.requests| && i != r ==> s'.requests[i] == s.requests[i]
    ensures forall i :: 0 <= i < |s.requests| && i != r ==> RequestInv(s', s'.requests[i])
  {
    hide RequestInv;
    forall i | 0 <= i < |s.requests| && i != r
      ensures RequestInv(s', s'.requests[i])
    {
      RequestKept(s, s', s.requests[i]);
    }
  }

  lemma {:induction false} ServeInv(s: State, r: nat, step: Step)
    requires Inv(s) && r < |s.requests| && Serve(s, r, step).Some?
    ensures var s' := Serve(s, r, step).value;
            MadeInv(s') && forall i :: 0 <= i < |s'.requests| ==> RequestInv(s', s'.requests[i])
  {
    var s' := Serve(s, r, step).value;
    OneRequest(s, r, step);
    assert RequestInv(s, s.requests[r]);
    RequestStep(s, r, step);
    MadeStep(s, r, step);
    hide Serve, After, RequestInv, MadeInv, Permits;
    OthersKept(s, s', r);
  }

  predicate Background(step: Step) {
    step.Arrive? || step.Remove? || step.Sweep? || step.DropEntry?
  }

  lemma {:induction false} BackgroundInv(s: State, step: Step)
    requires Inv(s) && Background(step) && Apply(s, step).Some?
    ensures var s' := Apply(s, step).value;
            && MadeInv(s')
            && (forall i :: 0 <= i < |s'.requests| ==> RequestInv(s', s'.requests[i]))
            && (s'.gated, s'.readOnly, s'.max) == (s.gated, s.readOnly, s.max)
            && s'.made == s.made
  {
    var s' := Apply(s, step).value;
    OthersKept(s, s', |s.requests|);
    if step.Arrive? {
      assert RequestInv(s', s'.requests[|s.requests|]);
    }
    hide RequestInv;
  }

  lemma {:induction false} ApplyInv(s: State, step: Step)
    requires Inv(s) && Apply(s, step).Some?
    ensures var s' := Apply(s, step).value;
            && Inv(s')
            && (s'.gated, s'.readOnly, s'.max) == (s.gated, s.readOnly, s.max)
            && s.made <= s'.made
  {
    PermitsStep(s, step);
    if Background(step) {
      BackgroundInv(s, step);
    } else {
      ServeInv(s, step.r, step);
      OneRequest(s, step.r, step);
    }
    hide Serve, After, RequestInv, MadeInv, Permits;
  }

  lemma {:induction false} ExecInv(s: State, steps: seq<Step>)
    requires Inv(s) && Exec(s, steps).Some?
    ensures var s' := Exec(s, steps).value;
            && Inv(s')
            && (s'.gated, s'.readOnly, s'.max) == (s.gated, s.readOnly, s.max)
            && s.made <= s'.made
    decreases |steps|
  {
    if steps != [] {
      hide Apply, Inv;
      ApplyInv(s, steps[0]);
      ExecInv(Apply(s, steps[0]).value, steps[1..]);
    }
  }

  // --- Over every run ---

  /** Free permits, registered sessions, in-flight creators and entries being dropped always
      add up to the limit; so there are never more sessions than that. */
  lemma {:induction false} PermitConservation(gated: bool, readOnly: bool, max: nat, steps: seq<Step>)
    requires Exec(Init(gated, readOnly, max), steps).Some?
    ensures var s := Exec(Init(gated, readOnly, max), steps).value;
            && s.registry.free + |s.registry.sessions| + Sum(s.requests, InFlight) + s.registry.dropping == max
            && |s.registry.sessions| <= max
  {
    InitInv(gated, readOnly, max);
    ExecInv(Init(gated, readOnly, max), steps);
  }

  lemma {:induction false} InitInv(gated: bool, readOnly: bool, max: nat)
    ensures Inv(Init(gated, readOnly, max))
  {
  }

  /** A request that is served has a session of its own id with the nonce it expected, if
      any. On a gated server its token was valid, and the session is bound to its subject and
      to the project it named, if any; a read-only instance serves non-writers only. */
  lemma {:induction false} ServedIsBound(gated: bool, readOnly: bool, max: nat, steps: seq<Step>, r: nat)
    requires Exec(Init(gated, readOnly, max), steps).Some?
    requires var s := Exec(Init(gated, readOnly, max), steps).value;
             r < |s.requests| && s.requests[r].stage.Served?
    ensures var s := Exec(Init(gated, readOnly, max), steps).value;
            var h := s.requests[r].headers;
            var n := s.requests[r].stage.session;
            && n < |s.made| && s.made[n].id == h.id
            && (h.expected.Some? ==> h.expected.value == n)
            && (gated ==>
                  && s.made[n].auth.Some?
                  && h.bearer == Some(s.made[n].auth.value.subject)
                  && (h.project.Some? ==> h.project.value == s.made[n].auth.value.project)
                  && (readOnly ==> !s.made[n].auth.value.writer))
  {
    InitInv(gated, readOnly, max);
    ExecInv(Init(gated, readOnly, max), steps);
    var s := Exec(Init(gated, readOnly, max), steps).value;
    assert RequestInv(s, s.requests[r]);
  }

  /** A session keeps its id and its binding for ever, whatever happens after it was made. */
  lemma {:induction false} BindingsAreFixed(
    gated: bool, readOnly: bool, max: nat, before: seq<Step>, after: seq<Step>, n: nat)
    requires Exec(Init(gated, readOnly, max), before).Some?
    requires var s := Exec(Init(gated, readOnly, max), before).value;
             n < |s.made| && Exec(s, after).Some?
    ensures var s := Exec(Init(gated, readOnly, max), before).value;
            var s' := Exec(s, after).value;
            n < |s'.made| && s'.made[n] == s.made[n]
  {
    InitInv(gated, readOnly, max);
    ExecInv(Init(gated, readOnly, max), before);
    ExecInv(Exec(Init(gated, readOnly, max), before).value, after);
  }

  // --- Incarnations ---

  /** Neither registered nor about to be. */
  predicate Retired(s: State, n: Nonce) {
    && n < |s.made|
    && (forall id :: id in s.registry.sessions ==> s.registry.sessions[id] != n)
    && (forall r :: 0 <= r < |s.requests| && s.requests[r].stage.Registering? ==> s.requests[r].stage.made != n)
  }

  /** Sessions not yet registered are all different, and none is registered. */
  predicate Unregistered(s: State) {
    && (forall r :: 0 <= r < |s.requests| && s.requests[r].stage.Registering? ==>
          && s.requests[r].stage.made < |s.made|
          && forall id :: id in s.registry.sessions ==> s.registry.sessions[id] != s.requests[r].stage.made)
    && (forall r, u :: 0 <= r < u < |s.requests| && s.requests[r].stage.Registering? && s.requests[u].stage.Registering?
          ==> s.requests[r].stage.made != s.requests[u].stage.made)
    && (forall id :: id in s.registry.sessions ==> Session?(s, s.registry.sessions[id], id))
  }

  lemma {:induction false} UnregisteredServe(s: State, r: nat, step: Step)
    requires Unregistered(s) && r < |s.requests| && Serve(s, r, step).Some?
    requires MadeInv(Serve(s, r, step).value)
    ensures Unregistered(Serve(s, r, step).value)
  {
    OneRequest(s, r, step);
    SessionsStep(s, r, step);
    hide Serve, After;
  }

  lemma {:induction false} UnregisteredBackground(s: State, step: Step)
    requires Unregistered(s) && Background(step) && Apply(s, step).Some?
    ensures Unregistered(Apply(s, step).value)
  {
    hide Serve;
  }

  lemma {:induction false} UnregisteredStep(s: State, step: Step)
    requires Unregistered(s) && Inv(s) && Apply(s, step).Some?
    ensures Unregistered(Apply(s, step).value)
  {
    ApplyInv(s, step);
    hide Permits, RequestInv, Serve, Unregistered;
    if Background(step) {
      UnregisteredBackground(s, step);
    } else {
      UnregisteredServe(s, step.r, step);
    }
  }

  lemma {:induction false} ExecUnregistered(s: State, steps: seq<Step>)
    requires Unregistered(s) && Inv(s) && Exec(s, steps).Some?
    ensures Unregistered(Exec(s, steps).value)
    decreases |steps|
  {
    if steps != [] {
      hide Apply, Unregistered, Inv;
      UnregisteredStep(s, steps[0]);
      ApplyInv(s, steps[0]);
      ExecUnregistered(Apply(s, steps[0]).value, steps[1..]);
    }
  }

  /** Closing a session, or sweeping it away, retires its nonce. */
  lemma {:induction false} ClosedIsRetired(gated: bool, readOnly: bool, max: nat, steps: seq<Step>, id: Id, close: Step)
    requires Exec(Init(gated, readOnly, max), steps).Some?
    requires var s := Exec(Init(gated, readOnly, max), steps).value;
             id in s.registry.sessions
             && (close == Remove(id, s.registry.sessions[id]) || (close.Sweep? && id in close.idle))
    ensures var s := Exec(Init(gated, readOnly, max), steps).value;
            Apply(s, close).Some? && Retired(Apply(s, close).value, s.registry.sessions[id])
  {
    InitInv(gated, readOnly, max);
    ExecUnregistered(Init(gated, readOnly, max), steps);
    hide Exec, Inv, Unregistered, Retired, Apply;
    CloseRetires(Exec(Init(gated, readOnly, max), steps).value, id, close);
  }

  lemma {:induction false} CloseRetires(s: State, id: Id, close: Step)
    requires Unregistered(s) && id in s.registry.sessions
    requires close == Remove(id, s.registry.sessions[id]) || (close.Sweep? && id in close.idle)
    ensures Apply(s, close).Some? && Retired(Apply(s, close).value, s.registry.sessions[id])
  {
    hide Serve;
    assert Session?(s, s.registry.sessions[id], id);
  }

  lemma {:induction false} RetiredStep(s: State, step: Step, n: Nonce)
    requires Retired(s, n) && Apply(s, step).Some?
    ensures Retired(Apply(s, step).value, n)
  {
    if !Background(step) {
      OneRequest(s, step.r, step);
    }
  }

  /** A nonce once gone from the registry never returns; closing with it changes nothing, in
      particular it never removes a later incarnation of the same id. */
  lemma {:induction false} OldNonceIsHarmless(s: State, steps: seq<Step>, id: Id, n: Nonce)
    requires Retired(s, n) && Exec(s, steps).Some?
    ensures var s' := Exec(s, steps).value;
            && Retired(s', n)
            && Apply(s', Remove(id, n)) == Some(s')
    decreases |steps|
  {
    if steps != [] {
      hide Apply, Retired;
      RetiredStep(s, steps[0], n);
      OldNonceIsHarmless(Apply(s, steps[0]).value, steps[1..], id, n);
    }
  }

  /** Steps that take no session of this id away. */
  predicate Keeps(step: Step, id: Id) {
    !(step.Remove? && step.id == id) && !(step.Sweep? && id in step.idle)
  }

  /** The session a request has got so far, if any. */
  function Got(stage: Stage): Option<Nonce> {
    match stage
    case Releasing(_, result) => result
    case Verifying(_, n) => Some(n)
    case Bound(n) => Some(n)
    case Served(n) => Some(n)
    case _ => None
  }

  /** `id` is registered as `n`, and what this request has got, if anything, is that. */
  predicate Follows(s: State, r: nat, id: Id, n: Nonce) {
    && s.registry.Get(id) == Some(n)
    && r < |s.requests| && s.requests[r].headers.id == id
    && (Got(s.requests[r].stage).Some? ==> Got(s.requests[r].stage) == Some(n))
  }

  lemma {:induction false} FollowsServe(s: State, u: nat, step: Step, r: nat, id: Id, n: Nonce)
    requires Follows(s, r, id, n) && u < |s.requests| && Serve(s, u, step).Some?
    ensures Follows(Serve(s, u, step).value, r, id, n)
  {
    OneRequest(s, u, step);
    SessionsStep(s, u, step);
    if u == r {
      GotStep(s, r, step);
    }
    hide Serve, After, Got;
  }

  /** What a request gets, it keeps; and the moment it gets a session, that session is the
      registered one. */
  lemma {:induction false} GotStep(s: State, r: nat, step: Step)
    requires r < |s.requests| && Serve(s, r, step).Some?
    ensures var s' := Serve(s, r, step).value;
            var got, got' := Got(s.requests[r].stage), Got(After(s, r, step).stage);
            && (got.Some? && got'.Some? ==> got' == got)
            && (got.None? && got'.Some? ==> got' == s'.registry.Get(s.requests[r].headers.id))
  {
  }

  lemma {:induction false} FollowsStep(s: State, step: Step, r: nat, id: Id, n: Nonce)
    requires Follows(s, r, id, n) && Keeps(step, id) && Apply(s, step).Some?
    ensures Follows(Apply(s, step).value, r, id, n)
  {
    hide Serve;
    if !Background(step) {
      FollowsServe(s, step.r, step, r, id, n);
    }
  }

  /** Racing creators agree: while the session registered for an id is not taken away, every
      request for that id that had got no session yet gets that one, if it gets any. */
  lemma {:induction false} RacersAgree(s: State, steps: seq<Step>, r: nat, id: Id, n: Nonce)
    requires Follows(s, r, id, n) && Exec(s, steps).Some?
    requires forall i :: 0 <= i < |steps| ==> Keeps(steps[i], id)
    ensures Follows(Exec(s, steps).value, r, id, n)
    decreases |steps|
  {
    if steps != [] {
      hide Apply, Follows, Keeps;
      assert forall i :: 0 <= i < |steps[1..]| ==> steps[1..][i] == steps[i + 1];
      FollowsStep(s, steps[0], r, id, n);
      RacersAgree(Apply(s, steps[0]).value, steps[1..], r, id, n);
    }
  }
}
