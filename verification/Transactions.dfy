/** Transaction bookkeeping of a session, interleaved at every lock it takes. */
module Transactions {
  import opened Wrappers

  type Id = nat

  // --- The two guarded sets ---

  datatype Book = Book(active: set<Id>, aborted: set<Id>, next: Id)
  {
    /** A fresh id; it is not active yet. */
    function Draw(): (Book, Id) {
      (this.(next := next + 1), next)
    }

    function Insert(id: Id): Book {
      this.(active := active + {id})
    }

    /** Takes all active ids away. */
    function Clear(): (Book, set<Id>) {
      (this.(active := {}), active)
    }

    function Mark(ids: set<Id>): Book {
      this.(aborted := aborted + ids)
    }

    /** Whether the id was aborted; it is forgotten then. */
    function Absent(id: Id): (Book, bool) {
      (this.(aborted := aborted - {id}), id in aborted)
    }

    function Close(id: Id): Book {
      this.(active := active - {id})
    }

    function Forget(id: Id): Book {
      this.(aborted := aborted - {id})
    }
  }

  const FRESH := Book({}, {}, 0)

  class TransactionBook {
    var active: set<Id>
    var aborted: set<Id>
    var next: Id

    function State(): Book
      reads this
    {
      Book(active, aborted, next)
    }

    constructor ()
      ensures State() == FRESH
    {
      active, aborted, next := {}, {}, 0;
    }

    method DrawId() returns (id: Id)
      modifies this
      ensures (State(), id) == old(State()).Draw()
    {
      id := next;
      next := next + 1;
    }

    method InsertActive(id: Id)
      modifies this
      ensures State() == old(State()).Insert(id)
    {
      active := active + {id};
    }

    method ClearActive() returns (ids: set<Id>)
      modifies this
      ensures (State(), ids) == old(State()).Clear()
    {
      ids := active;
      active := {};
    }

    /** Inserts the ids one by one. */
    method MarkAborted(ids: set<Id>)
      modifies this
      ensures State() == old(State()).Mark(ids)
    {
      var todo := ids;
      while todo != {}
        invariant todo <= ids
        invariant active == old(active) && next == old(next)
        invariant aborted + todo == old(aborted) + ids
      {
        var id :| id in todo;
        aborted := aborted + {id};
        todo := todo - {id};
      }
    }

    method TransactionAbsent(id: Id) returns (wasAborted: bool)
      modifies this
      ensures (State(), wasAborted) == old(State()).Absent(id)
    {
      wasAborted := id in aborted;
      aborted := aborted - {id};
    }

    method CloseActive(id: Id)
      modifies this
      ensures State() == old(State()).Close(id)
    {
      active := active - {id};
    }

    method ForgetAborted(id: Id)
      modifies this
      ensures State() == old(State()).Forget(id)
    {
      aborted := aborted - {id};
    }
  }

  // --- Calls ---

  datatype Call = Begin | End(id: Id) | Use

  datatype Answer = Done | NoOp | ReportedAborted | Failed

  datatype Stage =
    | Starting
    | Missing                       // an end whose id is not active
    | Running                       // about to run the statement on the engine
    | Rolling                       // the statement found its transaction aborted
    | Clearing                      // rolled back
    | Marking(ids: set<Id>)         // the ids taken from the active set
    | Drawing
    | Inserting(id: Id)
    | Closing
    | Forgetting
    | Answered(answer: Answer)

  /** `runs` counts how often the statement was run; `retry` whether it may run again. */
  datatype Thread = Thread(call: Call, retry: bool, runs: nat, stage: Stage)
  {
    /** Ids that only this call knows of. */
    function Holds(): set<Id> {
      if stage.Marking? then stage.ids else if stage.Inserting? then {stage.id} else {}
    }
  }

  datatype Outcome = Fine | AbortError | OtherError

  datatype State = State(book: Book, threads: seq<Thread>, reports: seq<Id>)

  const INIT := State(FRESH, [], [])

  datatype Step =
    | Arrive(call: Call, retry: bool)
    | Check(t: nat)
    | Lookup(t: nat)
    | Run(t: nat, outcome: Outcome)
    | Rollback(t: nat, ok: bool)
    | Clear(t: nat)
    | Mark(t: nat)
    | Draw(t: nat)
    | Insert(t: nat)
    | Close(t: nat)
    | Forget(t: nat)

  function With(s: State, t: nat, stage: Stage): State
    requires t < |s.threads|
  {
    s.(threads := s.threads[t := s.threads[t].(stage := stage)])
  }

  function AfterFine(call: Call): Stage {
    match call
    case Begin => Drawing
    case End(_) => Closing
    case Use => Answered(Done)
  }

  function AfterRun(th: Thread, outcome: Outcome): Stage {
    if outcome.Fine? then AfterFine(th.call)
    else if outcome.AbortError? && th.runs == 0 then Rolling
    else Answered(Failed)
  }

  function AfterRecovery(th: Thread): Stage {
    if th.retry then Running else Answered(Failed)
  }

  /** The state after a step, or None when the step cannot happen. */
  function Apply(s: State, step: Step): Option<State> {
    if step.Arrive? then Some(s.(threads := s.threads + [Thread(step.call, step.retry, 0, Starting)]))
    else if step.t >= |s.threads| then None
    else
      var t := step.t;
      var th := s.threads[t];
      var stage := th.stage;
      match step
      case Check(_) =>
        if !stage.Starting? then None
        else Some(With(s, t, if th.call.End? && th.call.id !in s.book.active then Missing else Running))
      case Lookup(_) =>
        if !stage.Missing? || !th.call.End? then None
        else
          var (book, reported) := s.book.Absent(th.call.id);
          Some(With(s, t, Answered(if reported then ReportedAborted else NoOp))
               .(book := book, reports := if reported then s.reports + [th.call.id] else s.reports))
      case Run(_, outcome) =>
        if !stage.Running? then None
        else Some(s.(threads := s.threads[t := Thread(th.call, th.retry, th.runs + 1, AfterRun(th, outcome))]))
      case Rollback(_, ok) =>
        if !stage.Rolling? then None else Some(With(s, t, if ok then Clearing else AfterRecovery(th)))
      case Clear(_) =>
        if !stage.Clearing? then None
        else
          var (book, ids) := s.book.Clear();
          Some(With(s, t, Marking(ids)).(book := book))
      case Mark(_) =>
        if !stage.Marking? then None
        else Some(With(s, t, AfterRecovery(th)).(book := s.book.Mark(stage.ids)))
      case Draw(_) =>
        if !stage.Drawing? then None
        else
          var (book, id) := s.book.Draw();
          Some(With(s, t, Inserting(id)).(book := book))
      case Insert(_) =>
        if !stage.Inserting? then None
        else Some(With(s, t, Answered(Done)).(book := s.book.Insert(stage.id)))
      case Close(_) =>
        if !stage.Closing? || !th.call.End? then None
        else Some(With(s, t, Forgetting).(book := s.book.Close(th.call.id)))
      case Forget(_) =>
        if !stage.Forgetting? || !th.call.End? then None
        else Some(With(s, t, Answered(Done)).(book := s.book.Forget(th.call.id)))
  }

  /** The state after a whole run from `s`, or None when some step could not happen. */
  function Exec(s: State, steps: seq<Step>): Option<State>
    decreases |steps|
  {
    if steps == [] then Some(s)
    else
      var next := Apply(s, steps[0]);
      if next.None? then None else Exec(next.value, steps[1..])
  }

  // --- Every id is in one place ---

  function Reported(s: State): set<Id> {
    set id | id in s.reports
  }

  /** The ids that are not with a call. */
  function Settled(s: State): set<Id> {
    s.book.active + s.book.aborted + Reported(s)
  }

  predicate Places(s: State) {
    && s.book.active !! s.book.aborted
    && s.book.active !! Reported(s)
    && s.book.aborted !! Reported(s)
    && (forall id :: id in Settled(s) ==> id < s.book.next)
    && (forall i, j :: 0 <= i < j < |s.reports| ==> s.reports[i] != s.reports[j])
  }

  predicate Held(s: State, th: Thread) {
    th.Holds() !! Settled(s) && forall id :: id in th.Holds() ==> id < s.book.next
  }

  predicate Runs(th: Thread) {
    && th.runs <= 2
    && (th.stage.Starting? || th.stage.Missing? ==> th.runs == 0)
    && (th.stage.Running? ==> th.runs <= 1)
    && (th.stage.Rolling? || th.stage.Clearing? || th.stage.Marking? ==> th.runs == 1)
  }

  predicate Inv(s: State) {
    && Places(s)
    && (forall t :: 0 <= t < |s.threads| ==> Held(s, s.threads[t]) && Runs(s.threads[t]))
    && (forall t, u :: 0 <= t < u < |s.threads| ==> s.threads[t].Holds() !! s.threads[u].Holds())
  }

  /** The thread a step leaves at its place. */
  function After(s: State, step: Step): Thread
    requires !step.Arrive? && Apply(s, step).Some?
  {
    Apply(s, step).value.threads[step.t]
  }

  lemma {:induction false} OneThread(s: State, step: Step)
    requires !step.Arrive? && Apply(s, step).Some?
    ensures Apply(s, step).value.threads == s.threads[step.t := After(s, step)]
  {
  }

  /** What a step moves: ids go between the call and the settled places, and new ones come in. */
  lemma {:induction false} StepMoves(s: State, step: Step)
    requires !step.Arrive? && Apply(s, step).Some?
    requires Places(s) && Held(s, s.threads[step.t]) && Runs(s.threads[step.t])
    ensures var s' := Apply(s, step).value;
            var th, th' := s.threads[step.t], After(s, step);
            && Places(s') && Held(s', th') && Runs(th')
            && s.book.next <= s'.book.next
            && (forall id :: id in th'.Holds() ==> id in th.Holds() || id in Settled(s) || id >= s.book.next)
            && (forall id :: id in Settled(s') ==> id in Settled(s) || id in th.Holds())
  {
  }

  lemma {:induction false} ApplyInv(s: State, step: Step)
    requires Inv(s) && Apply(s, step).Some?
    ensures Inv(Apply(s, step).value)
  {
    var s' := Apply(s, step).value;
    if step.Arrive? {
      assert Thread(step.call, step.retry, 0, Starting).Holds() == {};
      hide Places;
    } else {
      OneThread(s, step);
      StepMoves(s, step);
      hide Apply, After, Places, Runs;
      assert forall t :: 0 <= t < |s.threads| ==> Held(s, s.threads[t]);
    }
  }

  lemma {:induction false} ExecInv(s: State, steps: seq<Step>)
    requires Inv(s) && Exec(s, steps).Some?
    ensures Inv(Exec(s, steps).value)
    decreases |steps|
  {
    if steps != [] {
      hide Apply, Inv;
      ApplyInv(s, steps[0]);
      ExecInv(Apply(s, steps[0]).value, steps[1..]);
    }
  }

  // --- Over every run ---

  /** The active and the aborted ids are disjoint, every id was drawn, no id is reported as
      aborted twice, and no statement is run more than twice. */
  lemma {:induction false} Bookkeeping(steps: seq<Step>)
    requires Exec(INIT, steps).Some?
    ensures var s := Exec(INIT, steps).value;
            && s.book.active !! s.book.aborted
            && (forall id :: id in s.book.active + s.book.aborted ==> id < s.book.next && id !in s.reports)
            && (forall i, j :: 0 <= i < j < |s.reports| ==> s.reports[i] != s.reports[j])
            && (forall t :: 0 <= t < |s.threads| ==> s.threads[t].runs <= 2)
  {
    ExecInv(INIT, steps);
    var s := Exec(INIT, steps).value;
    hide Exec;
    assert forall id :: id in s.book.active + s.book.aborted ==> id in Settled(s);
  }

  /** A drawn id is new: it is neither settled nor with any call, and was never reported. */
  lemma {:induction false} DrawnIdIsNew(steps: seq<Step>, t: nat)
    requires Exec(INIT, steps).Some?
    requires Apply(Exec(INIT, steps).value, Draw(t)).Some?
    ensures var s := Exec(INIT, steps).value;
            var id := s.book.next;
            && After(s, Draw(t)).stage == Inserting(id)
            && id !in Settled(s) && id !in s.reports
            && (forall u :: 0 <= u < |s.threads| ==> id !in s.threads[u].Holds())
            && Apply(s, Draw(t)).value.book.next > id
  {
    ExecInv(INIT, steps);
    var s := Exec(INIT, steps).value;
    hide Exec;
    assert forall u :: 0 <= u < |s.threads| ==> Held(s, s.threads[u]);
    assert forall id :: id in s.reports ==> id in Settled(s);
  }

  lemma {:induction false} ReportsGrow(s: State, step: Step)
    requires Apply(s, step).Some?
    ensures s.reports <= Apply(s, step).value.reports
  {
  }

  /** Once an id was reported as aborted, it never becomes active or aborted again, and every
      later end of it is a no-op that never reaches the engine. */
  lemma {:induction false} LaterEndsAreNoOps(s: State, steps: seq<Step>, id: Id)
    requires Inv(s) && id in s.reports && Exec(s, steps).Some?
    ensures var s' := Exec(s, steps).value;
            && id in s'.reports && id !in s'.book.active && id !in s'.book.aborted
            && (forall t :: 0 <= t < |s'.threads| && s'.threads[t].call == End(id) && s'.threads[t].stage.Starting? ==>
                  StageAfter(s', Check(t)) == Some(Missing))
            && (forall t :: 0 <= t < |s'.threads| && s'.threads[t].call == End(id) && s'.threads[t].stage.Missing? ==>
                  StageAfter(s', Lookup(t)) == Some(Answered(NoOp)))
    decreases |steps|
  {
    if steps == [] {
      assert id in Reported(s);
    } else {
      ApplyInv(s, steps[0]);
      ReportsGrow(s, steps[0]);
      hide Apply, Inv;
      LaterEndsAreNoOps(Apply(s, steps[0]).value, steps[1..], id);
    }
  }

  /** The stage a step leads its call to, if it can happen. */
  function StageAfter(s: State, step: Step): Option<Stage>
    requires !step.Arrive?
  {
    if Apply(s, step).Some? then Some(After(s, step).stage) else None
  }

  // --- No id is lost ---

  /** The call has ended the id, or is about to. */
  predicate Ends(th: Thread, id: Id) {
    th.call == Call.End(id) && (th.stage.Forgetting? || th.stage == Answered(Done))
  }

  /** Where a drawn id can be: active, aborted, reported, with a call, or ended. */
  ghost predicate Accounted(s: State, id: Id) {
    || id in Settled(s)
    || (exists t :: 0 <= t < |s.threads| && id in s.threads[t].Holds())
    || (exists t :: 0 <= t < |s.threads| && Ends(s.threads[t], id))
  }

  lemma {:induction false} StillAccounted(s: State, step: Step, id: Id)
    requires Apply(s, step).Some?
    requires Accounted(s, id) || id == s.book.next < Apply(s, step).value.book.next
    ensures Accounted(Apply(s, step).value, id)
  {
    var s' := Apply(s, step).value;
    if step.Arrive? {
      assert forall t :: 0 <= t < |s.threads| ==> s'.threads[t] == s.threads[t];
    } else {
      OneThread(s, step);
      IdMoves(s, step, id);
      hide Apply, After, Settled, Ends;
      assert s'.threads[step.t] == After(s, step);
      assert forall t :: 0 <= t < |s.threads| && t != step.t ==> s'.threads[t] == s.threads[t];
    }
  }

  ghost predicate WithAnother(s: State, t: nat, id: Id) {
    exists u :: 0 <= u < |s.threads| && u != t && (id in s.threads[u].Holds() || Ends(s.threads[u], id))
  }

  /** Where one step takes an id from its thread or from the settled places. */
  lemma {:induction false} IdMoves(s: State, step: Step, id: Id)
    requires !step.Arrive? && Apply(s, step).Some?
    requires var th := s.threads[step.t];
             || id in Settled(s) || id in th.Holds() || Ends(th, id)
             || id == s.book.next < Apply(s, step).value.book.next || WithAnother(s, step.t, id)
    ensures var s', th' := Apply(s, step).value, After(s, step);
            id in Settled(s') || id in th'.Holds() || Ends(th', id) || WithAnother(s, step.t, id)
  {
  }

  /** Every id ever drawn is accounted for after every run. */
  lemma {:induction false} NoIdIsLost(s: State, steps: seq<Step>, id: Id)
    requires Exec(s, steps).Some? && id < Exec(s, steps).value.book.next
    requires id < s.book.next ==> Accounted(s, id)
    ensures Accounted(Exec(s, steps).value, id)
    decreases |steps|
  {
    if steps != [] {
      var s' := Apply(s, steps[0]).value;
      DrawsOne(s, steps[0]);
      if id < s'.book.next {
        StillAccounted(s, steps[0], id);
      }
      hide Apply, Accounted;
      NoIdIsLost(s', steps[1..], id);
    }
  }

  lemma {:induction false} DrawsOne(s: State, step: Step)
    requires Apply(s, step).Some?
    ensures s.book.next <= Apply(s, step).value.book.next <= s.book.next + 1
  {
  }

  // --- Recovery among other calls ---

  predicate OthersOnly(steps: seq<Step>, t: nat) {
    forall i :: 0 <= i < |steps| ==> steps[i].Arrive? || steps[i].t != t
  }

  /** While other calls step, the ids a recovering call has taken stay with it alone. */
  lemma {:induction false} TakenIdsStay(s: State, others: seq<Step>, t: nat)
    requires Inv(s) && t < |s.threads| && OthersOnly(others, t) && Exec(s, others).Some?
    ensures var s' := Exec(s, others).value;
            Inv(s') && t < |s'.threads| && s'.threads[t] == s.threads[t] && s.threads[t].Holds() !! Settled(s')
    decreases |others|
  {
    if others == [] {
      assert Held(s, s.threads[t]);
    } else {
      ApplyInv(s, others[0]);
      assert Apply(s, others[0]).value.threads[t] == s.threads[t];
      assert forall i :: 0 <= i < |others[1..]| ==> others[1..][i] == others[i + 1];
      hide Apply, Inv, Settled;
      TakenIdsStay(Apply(s, others[0]).value, others[1..], t);
    }
  }

  /** Whatever other calls do between the two steps of a recovery, every id that was active at
      the first is aborted after the second, and neither active nor reported; the ids aborted
      meanwhile stay so, and those made active meanwhile too. */
  lemma {:induction false} RecoveryMovesAll(s: State, others: seq<Step>, t: nat)
    requires Inv(s) && t < |s.threads| && s.threads[t].stage.Clearing? && OthersOnly(others, t)
    requires Exec(Apply(s, Clear(t)).value, others).Some?
    ensures Apply(s, Clear(t)).value.book.active == {}
    ensures var s1 := Exec(Apply(s, Clear(t)).value, others).value;
            Apply(s1, Mark(t)).Some?
            && var s2 := Apply(s1, Mark(t)).value;
               && s2.book == Book(s1.book.active, s1.book.aborted + s.book.active, s1.book.next)
               && s.book.active !! s1.book.active + Reported(s2)
               && StageAfter(s1, Mark(t)) == Some(AfterRecovery(s.threads[t]))
  {
    var s0 := Apply(s, Clear(t)).value;
    ApplyInv(s, Clear(t));
    assert s0.threads[t] == s.threads[t].(stage := Marking(s.book.active));
    TakenIdsStay(s0, others, t);
    hide Inv, Exec;
  }

  /** An end that comes between the two steps misses: its id is in neither set, and it answers
      as if the transaction had never been. */
  lemma {:induction false} EndDuringRecovery(s: State, others: seq<Step>, t: nat, u: nat, id: Id)
    requires Inv(s) && t < |s.threads| && s.threads[t].stage.Clearing? && id in s.book.active
    requires OthersOnly(others, t) && Exec(Apply(s, Clear(t)).value, others).Some?
    requires var s1 := Exec(Apply(s, Clear(t)).value, others).value;
             u < |s1.threads| && s1.threads[u].call == Call.End(id)
    ensures var s1 := Exec(Apply(s, Clear(t)).value, others).value;
            && (s1.threads[u].stage.Starting? ==> StageAfter(s1, Check(u)) == Some(Missing))
            && (s1.threads[u].stage.Missing? ==> StageAfter(s1, Lookup(u)) == Some(Answered(NoOp)))
  {
    var s0 := Apply(s, Clear(t)).value;
    ApplyInv(s, Clear(t));
    assert s0.threads[t] == s.threads[t].(stage := Marking(s.book.active));
    TakenIdsStay(s0, others, t);
    hide Inv, Exec;
  }

  // --- What a late end answers ---

  ghost predicate HeldBySome(s: State, id: Id) {
    exists t :: 0 <= t < |s.threads| && id in s.threads[t].Holds()
  }

  ghost predicate EndedBySome(s: State, id: Id) {
    exists t :: 0 <= t < |s.threads| && Ends(s.threads[t], id)
  }

  /** After any run, an end of a drawn id that is no longer active, and that no end has taken or
      reported, answers a no-op exactly while a recovery has the id in hand, and that it was
      aborted otherwise. */
  lemma {:induction false} AbsentEndIff(steps: seq<Step>, u: nat, id: Id)
    requires Exec(INIT, steps).Some?
    requires var s := Exec(INIT, steps).value;
             && u < |s.threads| && s.threads[u].call == Call.End(id) && s.threads[u].stage.Missing?
             && id < s.book.next && id !in s.book.active && id !in s.reports && !EndedBySome(s, id)
    ensures var s := Exec(INIT, steps).value;
            && (StageAfter(s, Lookup(u)) == Some(Answered(NoOp)) <==> HeldBySome(s, id))
            && (StageAfter(s, Lookup(u)) == Some(Answered(ReportedAborted)) <==> !HeldBySome(s, id))
  {
    ExecInv(INIT, steps);
    NoIdIsLost(INIT, steps, id);
    var s := Exec(INIT, steps).value;
    hide Exec;
    assert forall t :: 0 <= t < |s.threads| ==> Held(s, s.threads[t]);
  }

  lemma {:induction false} ExecConcat(s: State, a: seq<Step>, b: seq<Step>)
    requires Exec(s, a).Some?
    ensures Exec(s, a + b) == Exec(Exec(s, a).value, b)
    decreases |a|
  {
    if a == [] {
      assert a + b == b;
    } else {
      assert (a + b)[1..] == a[1..] + b;
      hide Apply;
      ExecConcat(Apply(s, a[0]).value, a[1..], b);
    }
  }

  /** A transaction begins. */
  const BEGUN: seq<Step> := [Arrive(Begin, false), Check(0), Run(0, Fine), Draw(0), Insert(0)]

  /** A statement finds it aborted; its recovery has taken the id and not marked it yet. */
  const CLEARED: seq<Step> := [Arrive(Use, false), Check(1), Run(1, AbortError), Rollback(1, true), Clear(1)]

  /** The end of the transaction comes now. */
  const MISSED: seq<Step> := [Arrive(Call.End(0), false), Check(2), Lookup(2)]

  lemma {:induction false} AfterBegun()
    ensures Exec(INIT, BEGUN) == Some(State(Book({0}, {}, 1), [Thread(Begin, false, 1, Answered(Done))], []))
  {
    var end := Exec(INIT, BEGUN);
    assert end.Some? && |end.value.threads| == 1 && end.value.threads[0] == Thread(Begin, false, 1, Answered(Done));
    assert end.value.threads == [Thread(Begin, false, 1, Answered(Done))];
    assert end.value.book.active == {0} && end.value.book.aborted == {} && end.value.book.next == 1;
  }

  lemma {:induction false} AfterCleared()
    ensures Exec(State(Book({0}, {}, 1), [Thread(Begin, false, 1, Answered(Done))], []), CLEARED)
         == Some(State(Book({}, {}, 1),
                       [Thread(Begin, false, 1, Answered(Done)), Thread(Use, false, 1, Marking({0}))], []))
  {
    var begun := Thread(Begin, false, 1, Answered(Done));
    var end := Exec(State(Book({0}, {}, 1), [begun], []), CLEARED);
    assert end.Some? && |end.value.threads| == 2 && end.value.threads[0] == begun;
    assert end.value.threads[1] == Thread(Use, false, 1, Marking({0}));
    assert end.value.threads == [begun, Thread(Use, false, 1, Marking({0}))];
  }

  /** So the no-op is reached: the transaction was aborted, its end is not told, and the id is
      then marked with nobody left to ask for it. */
  lemma {:induction false} AbortedEndIsNoOp()
    ensures var s := Exec(INIT, BEGUN + CLEARED + MISSED);
            && s.Some? && |s.value.threads| == 3
            && s.value.threads[2] == Thread(Call.End(0), false, 0, Answered(NoOp))
            && s.value.threads[1].stage == Marking({0})
  {
    AfterBegun();
    AfterCleared();
    hide Apply;
    ExecConcat(INIT, BEGUN, CLEARED);
    ExecConcat(INIT, BEGUN + CLEARED, MISSED);
    AfterMissed();
  }

  lemma {:induction false} AfterMissed()
    ensures var s := Exec(State(Book({}, {}, 1),
                       [Thread(Begin, false, 1, Answered(Done)), Thread(Use, false, 1, Marking({0}))], []), MISSED);
            && s.Some? && |s.value.threads| == 3
            && s.value.threads[2] == Thread(Call.End(0), false, 0, Answered(NoOp))
            && s.value.threads[1].stage == Marking({0})
  {
  }

  // --- What goes through ---

  lemma {:induction false} ExecOne(s: State, step: Step, rest: seq<Step>)
    requires Apply(s, step).Some?
    ensures Exec(s, [step] + rest) == Exec(Apply(s, step).value, rest)
  {
    assert ([step] + rest)[1..] == rest;
  }

  /** A call whose statement succeeds: a begin leaves a new id active, an end closes its id, and
      any other is done. */
  lemma {:induction false} BeginIsActive(s: State, t: nat)
    requires t < |s.threads| && s.threads[t].call.Begin? && s.threads[t].stage.Starting?
    ensures var end := Exec(s, [Check(t)] + ([Run(t, Fine)] + ([Draw(t)] + ([Insert(t)] + []))));
            && end.Some? && t < |end.value.threads| && end.value.threads[t].stage == Answered(Done)
            && end.value.book == Book(s.book.active + {s.book.next}, s.book.aborted, s.book.next + 1)
  {
    var s1 := Apply(s, Check(t)).value;
    var s2 := Apply(s1, Run(t, Fine)).value;
    var s3 := Apply(s2, Draw(t)).value;
    var s4 := Apply(s3, Insert(t)).value;
    hide Apply;
    ExecOne(s, Check(t), [Run(t, Fine)] + ([Draw(t)] + ([Insert(t)] + [])));
    ExecOne(s1, Run(t, Fine), [Draw(t)] + ([Insert(t)] + []));
    ExecOne(s2, Draw(t), [Insert(t)] + []);
    ExecOne(s3, Insert(t), []);
  }

  lemma {:induction false} EndCloses(s: State, t: nat)
    requires t < |s.threads| && s.threads[t].call.End? && s.threads[t].stage.Starting?
    requires s.threads[t].call.id in s.book.active
    ensures var id := s.threads[t].call.id;
            var end := Exec(s, [Check(t)] + ([Run(t, Fine)] + ([Close(t)] + ([Forget(t)] + []))));
            && end.Some? && t < |end.value.threads| && end.value.threads[t].stage == Answered(Done)
            && end.value.book == Book(s.book.active - {id}, s.book.aborted - {id}, s.book.next)
  {
    var s1 := Apply(s, Check(t)).value;
    var s2 := Apply(s1, Run(t, Fine)).value;
    var s3 := Apply(s2, Close(t)).value;
    var s4 := Apply(s3, Forget(t)).value;
    hide Apply;
    ExecOne(s, Check(t), [Run(t, Fine)] + ([Close(t)] + ([Forget(t)] + [])));
    ExecOne(s1, Run(t, Fine), [Close(t)] + ([Forget(t)] + []));
    ExecOne(s2, Close(t), [Forget(t)] + []);
    ExecOne(s3, Forget(t), []);
  }

  /** A statement that finds its transaction aborted: the engine is rolled back, and then, whether
      that worked or not, the statement runs once more exactly when its caller wants that; a
      statement that succeeds is done, and any other error is final. */
  lemma {:induction false} AbortedRunsAgainIff(s: State, t: nat, ok: bool)
    requires t < |s.threads| && s.threads[t].stage.Running? && s.threads[t].runs == 0
    ensures StageAfter(s, Run(t, AbortError)) == Some(Rolling)
    ensures var rolling := Apply(s, Run(t, AbortError)).value;
            && Apply(rolling, Rollback(t, ok)).Some?
            && var rolled := Apply(rolling, Rollback(t, ok)).value;
               && (!ok ==> rolled.book == s.book
                           && rolled.threads[t].stage == if s.threads[t].retry then Running else Answered(Failed))
               && (ok ==>
                     && Apply(rolled, Clear(t)).Some?
                     && Apply(Apply(rolled, Clear(t)).value, Mark(t)).Some?
                     && var marked := Apply(Apply(rolled, Clear(t)).value, Mark(t)).value;
                        && marked.book == Book({}, s.book.aborted + s.book.active, s.book.next)
                        && marked.threads[t].stage == if s.threads[t].retry then Running else Answered(Failed))
    ensures StageAfter(s, Run(t, OtherError)) == Some(Answered(Failed))
    ensures s.threads[t].call.Use? ==> StageAfter(s, Run(t, Fine)) == Some(Answered(Done))
  {
  }
}
