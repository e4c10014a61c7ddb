/** Sessions are granted as the authorization service answered, and refused otherwise. */
module Grants {
  import opened Wrappers
  import opened Registry

  lemma {:induction false} ExecSnoc(s: State, before: seq<Step>, step: Step)
    requires Exec(s, before).Some?
    ensures Exec(s, before + [step]) == Apply(Exec(s, before).value, step)
    decreases |before|
  {
    if before == [] {
      assert before + [step] == [step] && [step][1..] == [];
      assert Apply(s, step).Some? ==> Exec(Apply(s, step).value, []) == Apply(s, step);
    } else {
      assert (before + [step])[1..] == before[1..] + [step];
      hide Apply;
      ExecSnoc(Apply(s, before[0]).value, before[1..], step);
    }
  }

  lemma {:induction false} ExecPrefix(s: State, steps: seq<Step>, k: nat)
    requires Exec(s, steps).Some? && k <= |steps|
    ensures Exec(s, steps[..k]).Some?
    decreases |steps|
  {
    if k > 0 {
      hide Apply;
      assert steps[..k][1..] == steps[1..][..k - 1];
      ExecPrefix(Apply(s, steps[0]).value, steps[1..], k - 1);
    }
  }

  // --- What was answered ---

  /** Step `j` of the run is this answer to request `r`, which then stood at `stage`. */
  ghost predicate Answered(start: State, steps: seq<Step>, j: int, r: nat, stage: Stage, allowed: bool) {
    && 0 <= j < |steps| && steps[j] == Decide(r, Some(allowed))
    && Exec(start, steps[..j]).Some?
    && var s := Exec(start, steps[..j]).value;
       r < |s.requests| && s.requests[r].stage == stage
  }

  /** Request `r` was allowed the project, and then asked for the writer capability with this
      answer; a read-only server does not ask, and makes no writer. */
  ghost predicate Vouched(start: State, steps: seq<Step>, r: nat, a: Auth) {
    exists j :: Answered(start, steps, j, r, Asking(a.subject, a.project), true)
      && if start.readOnly then !a.writer
         else exists k :: j < k && Answered(start, steps, k, r, AskingWriter(a.subject, a.project), a.writer)
  }

  lemma {:induction false} AnsweredStays(
    start: State, steps: seq<Step>, j: int, r: nat, stage: Stage, allowed: bool, step: Step)
    requires Answered(start, steps, j, r, stage, allowed)
    ensures Answered(start, steps + [step], j, r, stage, allowed)
  {
    assert (steps + [step])[..j] == steps[..j];
  }

  lemma {:induction false} VouchedStays(start: State, steps: seq<Step>, r: nat, a: Auth, step: Step)
    requires Vouched(start, steps, r, a)
    ensures Vouched(start, steps + [step], r, a)
  {
    hide Answered;
    var asking, writing := Asking(a.subject, a.project), AskingWriter(a.subject, a.project);
    var j :| Answered(start, steps, j, r, asking, true)
             && if start.readOnly then !a.writer
                else exists k :: j < k && Answered(start, steps, k, r, writing, a.writer);
    AnsweredStays(start, steps, j, r, asking, true, step);
    if !start.readOnly {
      var k :| j < k && Answered(start, steps, k, r, writing, a.writer);
      AnsweredStays(start, steps, k, r, writing, a.writer, step);
    }
  }

  // --- One step ---

  /** The auth a request carries, once it has one. */
  function AuthOf(stage: Stage): Option<Auth> {
    match stage
    case Binding(auth) => auth
    case Unpermitted(auth) => auth
    case Connecting(auth) => auth
    case Registering(auth, _) => auth
    case Releasing(auth, _) => auth
    case Verifying(auth, _) => auth
    case _ => None
  }

  /** An auth is carried on, or comes from an answer. */
  lemma {:induction false} AuthStep(s: State, r: nat, step: Step)
    requires r < |s.requests| && Serve(s, r, step).Some?
    ensures var stage, stage' := s.requests[r].stage, After(s, r, step).stage;
            && (AuthOf(stage').Some? && AuthOf(stage') != AuthOf(stage) ==>
                  var a := AuthOf(stage').value;
                  && step.Decide? && step.allowed.Some?
                  && if s.readOnly && stage.Asking? then
                       stage == Asking(a.subject, a.project) && step.allowed.value && !a.writer
                     else stage == AskingWriter(a.subject, a.project) && step.allowed.value == a.writer)
            && (stage'.AskingWriter? ==>
                  && stage == Asking(stage'.subject, stage'.project) && !s.readOnly
                  && step.Decide? && step.allowed == Some(true))
  {
  }

  /** What a step adds to the sessions made. */
  lemma {:induction false} MadeStepOf(s: State, step: Step)
    requires Apply(s, step).Some?
    ensures var s' := Apply(s, step).value;
            || s'.made == s.made
            || (&& step.Connect? && step.ok && step.r < |s.requests| && |s'.made| == |s.made| + 1
                && s'.made[..|s.made|] == s.made
                && s.requests[step.r].stage.Connecting?
                && s'.made[|s.made|] == Session(s.requests[step.r].headers.id, s.requests[step.r].stage.auth))
  {
  }

  // --- Over every run ---

  ghost predicate RequestVouched(start: State, steps: seq<Step>, r: nat, stage: Stage) {
    && (AuthOf(stage).Some? ==> Vouched(start, steps, r, AuthOf(stage).value))
    && (stage.AskingWriter? ==>
          && !start.readOnly
          && exists j :: Answered(start, steps, j, r, Asking(stage.subject, stage.project), true))
  }

  /** Session `n` was made for a request that had been granted its auth before. */
  ghost predicate MadeVouched(start: State, steps: seq<Step>, n: nat, a: Auth) {
    exists c, r :: 0 <= c < |steps| && steps[c] == Connect(r, true)
      && Exec(start, steps[..c]).Some? && |Exec(start, steps[..c]).value.made| == n
      && Vouched(start, steps[..c], r, a)
  }

  ghost predicate Granted(start: State, steps: seq<Step>, s: State) {
    && s.readOnly == start.readOnly
    && (forall r :: 0 <= r < |s.requests| ==> RequestVouched(start, steps, r, s.requests[r].stage))
    && (forall n :: 0 <= n < |s.made| && s.made[n].auth.Some? ==> MadeVouched(start, steps, n, s.made[n].auth.value))
  }

  lemma {:induction false} RequestStays(start: State, steps: seq<Step>, r: nat, stage: Stage, step: Step)
    requires RequestVouched(start, steps, r, stage)
    ensures RequestVouched(start, steps + [step], r, stage)
  {
    hide Answered, Vouched;
    if AuthOf(stage).Some? {
      VouchedStays(start, steps, r, AuthOf(stage).value, step);
    }
    if stage.AskingWriter? {
      var j :| Answered(start, steps, j, r, Asking(stage.subject, stage.project), true);
      AnsweredStays(start, steps, j, r, Asking(stage.subject, stage.project), true, step);
    }
  }

  lemma {:induction false} MadeStays(start: State, steps: seq<Step>, n: nat, a: Auth, step: Step)
    requires MadeVouched(start, steps, n, a)
    ensures MadeVouched(start, steps + [step], n, a)
  {
    hide Vouched;
    var c, r :| 0 <= c < |steps| && steps[c] == Connect(r, true)
      && Exec(start, steps[..c]).Some? && |Exec(start, steps[..c]).value.made| == n
      && Vouched(start, steps[..c], r, a);
    assert (steps + [step])[..c] == steps[..c] && (steps + [step])[c] == Connect(r, true);
  }

  /** The request that steps. */
  lemma {:induction false} OwnVouched(start: State, steps: seq<Step>, s: State, r: nat, step: Step)
    requires Exec(start, steps) == Some(s) && s.readOnly == start.readOnly
    requires r < |s.requests| && Serve(s, r, step).Some? && RequestVouched(start, steps, r, s.requests[r].stage)
    requires step.Decide? ==> step.r == r
    ensures RequestVouched(start, steps + [step], r, After(s, r, step).stage)
  {
    var stage, stage' := s.requests[r].stage, After(s, r, step).stage;
    AuthStep(s, r, step);
    RequestStays(start, steps, r, stage, step);
    var all := steps + [step];
    assert step.Decide? && step.allowed.Some? ==> Answered(start, all, |steps|, r, stage, step.allowed.value) by {
      assert all[..|steps|] == steps;
    }
    hide Answered, Serve, After, Exec;
    if AuthOf(stage').Some? && AuthOf(stage') != AuthOf(stage) {
      var a := AuthOf(stage').value;
      if stage.AskingWriter? {
        var j :| Answered(start, steps, j, r, Asking(a.subject, a.project), true);
        AnsweredStays(start, steps, j, r, Asking(a.subject, a.project), true, step);
        EarlierAnswer(start, steps, j, r, Asking(a.subject, a.project), true);
      }
    }
  }

  lemma {:induction false} EarlierAnswer(start: State, steps: seq<Step>, j: int, r: nat, stage: Stage, allowed: bool)
    requires Answered(start, steps, j, r, stage, allowed)
    ensures 0 <= j < |steps|
  {
  }

  lemma {:induction false} GrantedStep(start: State, steps: seq<Step>, s: State, step: Step)
    requires Exec(start, steps) == Some(s) && Granted(start, steps, s) && Apply(s, step).Some?
    ensures Granted(start, steps + [step], Apply(s, step).value)
  {
    var s' := Apply(s, step).value;
    var all := steps + [step];
    MadeStepOf(s, step);
    forall r | 0 <= r < |s'.requests|
      ensures RequestVouched(start, all, r, s'.requests[r].stage)
    {
      RequestGranted(start, steps, s, step, r);
    }
    forall n | 0 <= n < |s'.made| && s'.made[n].auth.Some?
      ensures MadeVouched(start, all, n, s'.made[n].auth.value)
    {
      MadeGranted(start, steps, s, step, n);
    }
    assert s'.readOnly == s.readOnly by {
      if !Background(step) {
        OneRequest(s, step.r, step);
      }
    }
  }

  lemma {:induction false} RequestGranted(start: State, steps: seq<Step>, s: State, step: Step, r: nat)
    requires Exec(start, steps) == Some(s) && Granted(start, steps, s) && Apply(s, step).Some?
    requires r < |Apply(s, step).value.requests|
    ensures RequestVouched(start, steps + [step], r, Apply(s, step).value.requests[r].stage)
  {
    hide Exec, RequestVouched, MadeVouched;
    if r < |s.requests| {
      RequestStays(start, steps, r, s.requests[r].stage, step);
    }
    if Background(step) {
      assert r == |s.requests| ==> Apply(s, step).value.requests[r].stage == Arrived;
      NothingYet(start, steps + [step], r);
    } else {
      OneRequest(s, step.r, step);
      OwnVouched(start, steps, s, step.r, step);
      hide Serve, After;
    }
  }

  lemma {:induction false} NothingYet(start: State, steps: seq<Step>, r: nat)
    ensures RequestVouched(start, steps, r, Arrived)
  {
  }

  lemma {:induction false} MadeGranted(start: State, steps: seq<Step>, s: State, step: Step, n: nat)
    requires Exec(start, steps) == Some(s) && Granted(start, steps, s) && Apply(s, step).Some?
    requires n < |Apply(s, step).value.made| && Apply(s, step).value.made[n].auth.Some?
    ensures MadeVouched(start, steps + [step], n, Apply(s, step).value.made[n].auth.value)
  {
    var s' := Apply(s, step).value;
    MadeStepOf(s, step);
    hide Apply, Vouched, Exec;
    if n < |s.made| {
      assert s'.made[n] == s.made[n];
      MadeStays(start, steps, n, s.made[n].auth.value, step);
    } else {
      var all := steps + [step];
      assert RequestVouched(start, steps, step.r, s.requests[step.r].stage);
      assert all[..|steps|] == steps && all[|steps|] == Connect(step.r, true);
    }
  }

  lemma {:induction false} ExecGranted(start: State, steps: seq<Step>)
    requires start.requests == [] && start.made == [] && Exec(start, steps).Some?
    ensures Granted(start, steps, Exec(start, steps).value)
    decreases |steps|
  {
    if steps != [] {
      var before, step := steps[..|steps| - 1], steps[|steps| - 1];
      assert steps == before + [step];
      ExecPrefix(start, steps, |steps| - 1);
      ExecSnoc(start, before, step);
      hide Apply, Exec, Granted;
      ExecGranted(start, before);
      GrantedStep(start, before, Exec(start, before).value, step);
    }
  }

  /** Every session of a gated server was made for a request that the service had allowed the
      session's project to the session's subject. It is a writer exactly when the service also
      allowed that, on a server that asks. */
  lemma {:induction false} SessionsAreGranted(readOnly: bool, max: nat, steps: seq<Step>, n: nat)
    requires var start := Init(true, readOnly, max);
             Exec(start, steps).Some? && n < |Exec(start, steps).value.made|
    ensures var start := Init(true, readOnly, max);
            var s := Exec(start, steps).value;
            s.made[n].auth.Some? && MadeVouched(start, steps, n, s.made[n].auth.value)
  {
    var start := Init(true, readOnly, max);
    InitInv(true, readOnly, max);
    ExecInv(start, steps);
    ExecGranted(start, steps);
    hide Exec, Permits, RequestInv, RequestVouched, MadeVouched;
  }

  /** A request that is refused stays so. */
  lemma {:induction false} RefusedStays(s: State, steps: seq<Step>, r: nat)
    requires r < |s.requests| && s.requests[r].stage.Refused? && Exec(s, steps).Some?
    ensures var s' := Exec(s, steps).value; r < |s'.requests| && s'.requests[r].stage.Refused?
    decreases |steps|
  {
    if steps != [] {
      var s' := Apply(s, steps[0]).value;
      if !Background(steps[0]) {
        OneRequest(s, steps[0].r, steps[0]);
      }
      RefusedStays(s', steps[1..], r);
    }
  }

  /** A subject that is denied the project is refused for good. */
  lemma {:induction false} DeniedIsRefused(s: State, steps: seq<Step>, r: nat)
    requires r < |s.requests| && s.requests[r].stage.Asking?
    requires Exec(s, [Decide(r, Some(false))] + steps).Some?
    ensures var s' := Exec(s, [Decide(r, Some(false))] + steps).value;
            r < |s'.requests| && s'.requests[r].stage.Refused?
  {
    var all := [Decide(r, Some(false))] + steps;
    assert all[1..] == steps;
    RefusedStays(Apply(s, all[0]).value, steps, r);
  }

  // --- Who is served ---

  /** The stage of request `r` after some steps of it, if they can happen. */
  function StageOf(s: Option<State>, r: nat): Option<Stage> {
    if s.None? || r >= |s.value.requests| then None else Some(s.value.requests[r].stage)
  }

  lemma {:induction false} ExecTwo(s: State, a: Step, b: Step)
    requires Apply(s, a).Some?
    ensures Exec(s, [a, b]) == Apply(Apply(s, a).value, b)
  {
    hide Apply;
    var s1 := Apply(s, a).value;
    assert [a, b][1..] == [b] && [b][1..] == [];
    assert Exec(s1, [b]) == if Apply(s1, b).None? then None else Exec(Apply(s1, b).value, []);
  }

  /** With a registered session and a valid token a request is served exactly when the subject is
      the session's, and the project and the nonce it names, if any, are too. */
  lemma {:induction false} ExistingServedIff(s: State, r: nat)
    requires s.gated && Inv(s) && r < |s.requests| && s.requests[r].stage.Arrived?
    requires var h := s.requests[r].headers; h.bearer.Some? && h.id in s.registry.sessions
    ensures var h := s.requests[r].headers;
            var n := s.registry.sessions[h.id];
            && n < |s.made| && s.made[n].auth.Some?
            && var a := s.made[n].auth.value;
               StageOf(Exec(s, [Lookup(r), CheckNonce(r)]), r) == Some(Served(n))
               <==> && h.bearer == Some(a.subject)
                    && (h.project.Some? ==> h.project == Some(a.project))
                    && (h.expected.Some? ==> h.expected == Some(n))
  {
    assert Session?(s, s.registry.sessions[s.requests[r].headers.id], s.requests[r].headers.id);
    ExecTwo(s, Lookup(r), CheckNonce(r));
    hide Inv, Exec;
  }

  /** The steps of a request that no session waits for, once it has its auth. */
  function Creation(r: nat): seq<Step> {
    [LookAgain(r), Acquire(r), Connect(r, true), Register(r), Verify(r), CheckNonce(r)]
  }

  lemma {:induction false} CreationSteps(s: State, r: nat)
    requires r < |s.requests| && s.requests[r].stage.Binding? && s.requests[r].headers.id !in s.registry.sessions
    requires s.registry.free > 0 && s.requests[r].headers.expected.None?
    ensures Apply(s, LookAgain(r)).Some?
    ensures Apply(Apply(s, LookAgain(r)).value, Acquire(r)).Some?
    ensures var s2 := Apply(Apply(s, LookAgain(r)).value, Acquire(r)).value;
            && Apply(s2, Connect(r, true)).Some?
            && Apply(Apply(s2, Connect(r, true)).value, Register(r)).Some?
            && var s4 := Apply(Apply(s2, Connect(r, true)).value, Register(r)).value;
               && Apply(s4, Verify(r)).Some?
               && Apply(Apply(s4, Verify(r)).value, CheckNonce(r)).Some?
               && var s6 := Apply(Apply(s4, Verify(r)).value, CheckNonce(r)).value;
                  var h, auth := s.requests[r].headers, s.requests[r].stage.auth;
                  && StageOf(Some(s6), r) == Some(Served(|s.made|))
                  && s6.made == s.made + [Session(h.id, auth)]
                  && s6.registry.sessions == s.registry.sessions[h.id := |s.made|]
                  && s6.registry.free == s.registry.free - 1 && s6.registry.dropping == s.registry.dropping
  {
  }

  /** With a permit free and no session registered, a request that is bound to an auth gets a new
      session with it. */
  lemma {:induction false} BoundIsServed(s: State, r: nat)
    requires r < |s.requests| && s.requests[r].stage.Binding? && s.requests[r].headers.id !in s.registry.sessions
    requires s.registry.free > 0 && s.requests[r].headers.expected.None?
    ensures var h, auth := s.requests[r].headers, s.requests[r].stage.auth;
            var end := Exec(s, Creation(r));
            && StageOf(end, r) == Some(Served(|s.made|))
            && end.value.made == s.made + [Session(h.id, auth)]
            && end.value.registry.sessions == s.registry.sessions[h.id := |s.made|]
            && end.value.registry.free == s.registry.free - 1
  {
    hide Apply, StageOf;
    CreationSteps(s, r);
    var s1 := Apply(s, LookAgain(r)).value;
    var s2 := Apply(s1, Acquire(r)).value;
    var s3 := Apply(s2, Connect(r, true)).value;
    var s4 := Apply(s3, Register(r)).value;
    var s5 := Apply(s4, Verify(r)).value;
    var s6 := Apply(s5, CheckNonce(r)).value;
    var t5 := [CheckNonce(r)];
    var t4 := [Verify(r)] + t5;
    var t3 := [Register(r)] + t4;
    var t2 := [Connect(r, true)] + t3;
    var t1 := [Acquire(r)] + t2;
    assert Creation(r) == [LookAgain(r)] + t1;
    assert t5[1..] == [] && t4[1..] == t5 && t3[1..] == t4 && t2[1..] == t3 && t1[1..] == t2 && Creation(r)[1..] == t1;
    assert Exec(s6, []) == Some(s6);
    assert Exec(s5, t5) == Some(s6);
    assert Exec(s4, t4) == Some(s6);
    assert Exec(s3, t3) == Some(s6);
    assert Exec(s2, t2) == Some(s6);
    assert Exec(s1, t1) == Some(s6);
  }

  /** The first contact of a subject that is allowed the project: it comes to the auth that the
      answers say. */
  lemma {:induction false} AllowedIsBound(s: State, r: nat, writer: bool)
    requires s.gated && r < |s.requests| && s.requests[r].stage.Arrived?
    requires var h := s.requests[r].headers;
             h.bearer.Some? && h.project.Some? && h.expected.None? && h.id !in s.registry.sessions
    ensures var h := s.requests[r].headers;
            var asked := Exec(s, [Lookup(r), Decide(r, Some(true))]);
            asked.Some?
            && if s.readOnly then StageOf(asked, r) == Some(Binding(Some(Auth(h.bearer.value, h.project.value, false))))
               else StageOf(Apply(asked.value, Decide(r, Some(writer))), r)
                    == Some(Binding(Some(Auth(h.bearer.value, h.project.value, writer))))
  {
    ExecTwo(s, Lookup(r), Decide(r, Some(true)));
    hide Exec;
  }

  /** A client that names a session the registry no longer has is told so at once, before any
      question about the project is asked. */
  lemma {:induction false} LostSessionIsRefused(s: State, r: nat)
    requires s.gated && r < |s.requests| && s.requests[r].stage.Arrived?
    requires s.requests[r].headers.id !in s.registry.sessions && s.requests[r].headers.expected.Some?
    ensures StageOf(Apply(s, Lookup(r)), r) == Some(Refused)
  {
  }

  /** A server without a gate serves the registered session of an id to every request whose nonce
      fits, and binds any other request to no auth. */
  lemma {:induction false} UngatedIsServed(s: State, r: nat)
    requires !s.gated && r < |s.requests| && s.requests[r].stage.Arrived?
    ensures StageOf(Apply(s, Lookup(r)), r) == Some(Binding(None))
    ensures var h := s.requests[r].headers;
            h.id in s.registry.sessions ==>
              var looked := Exec(s, [Lookup(r), LookAgain(r)]);
              && looked.Some?
              && (StageOf(Exec(looked.value, [Verify(r), CheckNonce(r)]), r) == Some(Served(s.registry.sessions[h.id]))
                  <==> (h.expected.Some? ==> h.expected == Some(s.registry.sessions[h.id])))
  {
    ExecTwo(s, Lookup(r), LookAgain(r));
    if s.requests[r].headers.id in s.registry.sessions {
      ExecTwo(Exec(s, [Lookup(r), LookAgain(r)]).value, Verify(r), CheckNonce(r));
    }
    hide Exec;
  }

  /** Two creators race: the one that registers second drops its own session, gives its permit
      back, and is served with the first one's, if that has the same auth. */
  lemma {:induction false} LoserIsServed(s: State, r: nat, n: Nonce)
    requires Inv(s) && r < |s.requests| && s.requests[r].stage.Registering?
    requires s.registry.Get(s.requests[r].headers.id) == Some(n) && s.requests[r].headers.expected.None?
    requires s.made[n].auth == s.requests[r].stage.auth
    ensures var registered := Exec(s, [Register(r), Release(r)]);
            && registered.Some?
            && registered.value.registry == s.registry.(free := s.registry.free + 1)
            && StageOf(Exec(registered.value, [Verify(r), CheckNonce(r)]), r) == Some(Served(n))
  {
    assert Session?(s, n, s.requests[r].headers.id);
    ExecTwo(s, Register(r), Release(r));
    ExecTwo(Exec(s, [Register(r), Release(r)]).value, Verify(r), CheckNonce(r));
    hide Inv, Exec;
  }
}
