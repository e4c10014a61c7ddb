/** The one-shot engine lockdown of a session. The engine answers as it likes. */
module Lockdown {
  import opened Wrappers

  type Dir = nat
  type Catalog = nat

  /** The directories the block allows: the roots in some order, then the scratch one; None
      for a writer, who keeps external access. */
  type Allowed = Option<seq<Dir>>

  // --- The guarded state ---

  datatype Guarded = Guarded(applied: bool, roots: set<Dir>)

  const FRESH := Guarded(false, {})

  function Arm(g: Guarded, confined: bool, found: set<Dir>): Guarded {
    if confined && !g.applied then g.(roots := g.roots + found) else g
  }

  predicate Lists(listing: seq<Dir>, roots: set<Dir>) {
    && (forall i, j :: 0 <= i < j < |listing| ==> listing[i] != listing[j])
    && (set d | d in listing) == roots
  }

  function AllowedBy(writer: bool, listing: seq<Dir>, scratch: Dir): Allowed {
    if writer then None else Some(listing + [scratch])
  }

  /** The session's lockdown fields. */
  class LockdownState {
    var applied: bool
    var roots: set<Dir>

    function State(): Guarded
      reads this
    {
      Guarded(applied, roots)
    }

    constructor ()
      ensures State() == FRESH
    {
      applied, roots := false, {};
    }

    /** `succeeds` says whether the directory could be made and the block ran through. */
    method EnsureLockdown(writer: bool, listing: seq<Dir>, scratch: Dir, succeeds: bool)
      returns (ok: bool, block: Option<Allowed>)
      requires Lists(listing, roots)
      modifies this
      ensures State() == old(State()).(applied := ok)
      ensures ok == (old(applied) || succeeds)
      ensures block == if old(applied) then None else Some(AllowedBy(writer, listing, scratch))
    {
      if applied {
        return true, None;
      }
      block := Some(AllowedBy(writer, listing, scratch));
      if !succeeds {
        return false, block;
      }
      applied := true;
      ok := true;
    }

    method ArmRoots(confined: bool, found: set<Dir>)
      modifies this
      ensures State() == Arm(old(State()), confined, found)
    {
      if confined && !applied {
        roots := roots + found;
      }
    }
  }

  // --- A session ---

  datatype Event =
    | Block(allowed: Allowed)           // the block ran through
    | Statement(user: nat)              // a user statement reached the engine
    | Armed(found: set<Dir>)            // roots taken from an attachment
    | Attached(catalog: Catalog)

  datatype Stage = Admitted | Ensured | Over

  /** The attachment that holds the mutex, and how far it is. */
  datatype Holder = Free | Attaching(catalog: Catalog) | Reading(catalog: Catalog)

  datatype Session = Session(
    writer: bool, scratch: Dir, guarded: Guarded, holder: Holder,
    users: seq<Stage>, catalogs: set<Catalog>, frozen: Option<set<Catalog>>, log: seq<Event>)
  {
    predicate Confined() {
      !writer
    }
  }

  function Init(writer: bool, scratch: Dir, catalogs: set<Catalog>): Session {
    Session(writer, scratch, FRESH, Free, [], catalogs, None, [])
  }

  /** Attaching holds the mutex over several steps. An admitted user statement attaches no
      catalog; `dropped` are those it detaches. */
  datatype Step =
    | Admit
    | Ensure(u: nat, listing: seq<Dir>, succeeds: bool)
    | Execute(u: nat, dropped: set<Catalog>)
    | AttachStart(catalog: Catalog)
    | AttachFails                              // a secret or the statement itself fails
    | AttachRuns(path: Option<Dir>)
    | AttachEnds(metadata: Option<set<Dir>>)   // None when the catalog lists no roots

  /** The state after a step, or None when the step cannot happen. */
  function Apply(s: Session, step: Step): Option<Session> {
    match step
    case Admit => Some(s.(users := s.users + [Admitted]))
    case Ensure(u, listing, succeeds) =>
      if u >= |s.users| || !s.users[u].Admitted? || !s.holder.Free? || !Lists(listing, s.guarded.roots) then None
      else if s.guarded.applied then Some(s.(users := s.users[u := Ensured]))
      else if !succeeds then Some(s.(users := s.users[u := Over]))
      else
        Some(s.(users := s.users[u := Ensured], guarded := s.guarded.(applied := true),
                frozen := Some(s.catalogs),
                log := s.log + [Block(AllowedBy(s.writer, listing, s.scratch))]))
    case Execute(u, dropped) =>
      if u >= |s.users| || !s.users[u].Ensured? then None
      else Some(s.(users := s.users[u := Over], catalogs := s.catalogs - dropped, log := s.log + [Statement(u)]))
    case AttachStart(catalog) =>
      if !s.holder.Free? then None
      else if s.Confined() && s.guarded.applied && catalog !in s.catalogs then Some(s)
      else Some(s.(holder := Attaching(catalog)))
    case AttachFails => if s.holder.Attaching? then Some(s.(holder := Free)) else None
    case AttachRuns(path) =>
      if !s.holder.Attaching? then None
      else
        var found := if path.Some? then {path.value} else {};
        var log := s.log + [Attached(s.holder.catalog)];
        Some(s.(holder := Reading(s.holder.catalog), catalogs := s.catalogs + {s.holder.catalog},
                guarded := Arm(s.guarded, s.Confined(), found),
                log := if s.Confined() && !s.guarded.applied then log + [Armed(found)] else log))
    case AttachEnds(metadata) =>
      if !s.holder.Reading? then None
      else
        var found := if metadata.Some? then metadata.value else {};
        Some(s.(holder := Free, guarded := Arm(s.guarded, s.Confined(), found),
                log := if s.Confined() && !s.guarded.applied then s.log + [Armed(found)] else s.log))
  }

  /** The state after a whole run from `s`, or None when some step could not happen. */
  function Exec(s: Session, steps: seq<Step>): Option<Session>
    decreases |steps|
  {
    if steps == [] then Some(s)
    else
      var next := Apply(s, steps[0]);
      if next.None? then None else Exec(next.value, steps[1..])
  }

  // --- The invariant ---

  /** All roots taken so far. */
  function ArmedIn(log: seq<Event>): set<Dir> {
    if log == [] then {}
    else ArmedIn(log[..|log| - 1]) + if log[|log| - 1].Armed? then log[|log| - 1].found else {}
  }

  function Blocks(log: seq<Event>): nat {
    if log == [] then 0 else Blocks(log[..|log| - 1]) + if log[|log| - 1].Block? then 1 else 0
  }

  lemma {:induction false} SnocLog(log: seq<Event>, e: Event)
    ensures ArmedIn(log + [e]) == ArmedIn(log) + if e.Armed? then e.found else {}
    ensures Blocks(log + [e]) == Blocks(log) + if e.Block? then 1 else 0
  {
    assert (log + [e])[..|log|] == log;
  }

  /** The block at `i` allows what was armed before it. */
  predicate BlockAt(s: Session, i: nat)
    requires i < |s.log| && s.log[i].Block?
  {
    if s.writer then s.log[i].allowed.None?
    else
      s.log[i].allowed.Some?
      && var dirs := s.log[i].allowed.value;
         dirs != [] && dirs[|dirs| - 1] == s.scratch && Lists(dirs[..|dirs| - 1], ArmedIn(s.log[..i]))
  }

  /** The log so far: user statements after the one block, and the block as it should be. */
  predicate HistoryInv(s: Session) {
    && (forall i :: 0 <= i < |s.log| && s.log[i].Statement? ==> Blocks(s.log[..i]) == 1)
    && (forall i :: 0 <= i < |s.log| && s.log[i].Block? ==> BlockAt(s, i))
  }

  predicate StateInv(s: Session) {
    && Blocks(s.log) == (if s.guarded.applied then 1 else 0)
    && (s.guarded.applied <==> s.frozen.Some?)
    && (!s.writer ==> ArmedIn(s.log) == s.guarded.roots)
    && (forall u :: 0 <= u < |s.users| && s.users[u].Ensured? ==> s.guarded.applied)
    && (!s.writer && s.frozen.Some? ==>
          s.catalogs <= s.frozen.value && (!s.holder.Free? ==> s.holder.catalog in s.frozen.value))
  }

  predicate Inv(s: Session) {
    StateInv(s) && HistoryInv(s)
  }

  /** What an extended log still says of its earlier part. */
  lemma {:induction false} LogKept(s: Session, s': Session)
    requires Inv(s) && s.log <= s'.log && (s'.writer, s'.scratch) == (s.writer, s.scratch)
    ensures forall i :: 0 <= i < |s.log| && s.log[i].Statement? ==> Blocks(s'.log[..i]) == 1
    ensures forall i :: 0 <= i < |s.log| && s.log[i].Block? ==> BlockAt(s', i)
  {
    assert forall i :: 0 <= i < |s.log| ==> s'.log[..i] == s.log[..i];
  }

  lemma {:induction false} SnocHistory(s: Session, s': Session, e: Event)
    requires Inv(s) && s'.log == s.log + [e] && (s'.writer, s'.scratch) == (s.writer, s.scratch)
    requires e.Statement? ==> Blocks(s.log) == 1
    requires e.Block? ==> BlockAt(s', |s.log|)
    ensures HistoryInv(s')
  {
    LogKept(s, s');
    hide BlockAt, Blocks, StateInv;
    assert s'.log[..|s.log|] == s.log;
  }

  /** The new block allows what has been armed. */
  lemma {:induction false} NewBlock(s: Session, s': Session, listing: seq<Dir>)
    requires StateInv(s) && Lists(listing, s.guarded.roots) && (s'.writer, s'.scratch) == (s.writer, s.scratch)
    requires s'.log == s.log + [Block(AllowedBy(s.writer, listing, s.scratch))]
    ensures BlockAt(s', |s.log|)
  {
    hide Blocks, ArmedIn, Lists;
    assert s'.log[..|s.log|] == s.log;
    assert (listing + [s.scratch])[..|listing|] == listing;
  }

  lemma {:induction false} EnsureInv(s: Session, step: Step)
    requires Inv(s) && step.Ensure? && Apply(s, step).Some?
    ensures Inv(Apply(s, step).value)
  {
    var s' := Apply(s, step).value;
    var block := Block(AllowedBy(s.writer, step.listing, s.scratch));
    SnocLog(s.log, block);
    if !s.guarded.applied && step.succeeds {
      NewBlock(s, s', step.listing);
      SnocHistory(s, s', block);
    } else {
      LogKept(s, s');
    }
    hide ArmedIn, Blocks, BlockAt, Lists, HistoryInv;
    if s.guarded.applied || !step.succeeds {
      assert s'.log == s.log;
      SameHistory(s, s');
    }
  }

  lemma {:induction false} SameHistory(s: Session, s': Session)
    requires Inv(s) && s'.log == s.log && (s'.writer, s'.scratch) == (s.writer, s.scratch)
    ensures HistoryInv(s')
  {
    LogKept(s, s');
    hide BlockAt, Blocks, StateInv;
  }

  lemma {:induction false} ExecuteInv(s: Session, step: Step)
    requires Inv(s) && step.Execute? && Apply(s, step).Some?
    ensures Inv(Apply(s, step).value)
  {
    SnocLog(s.log, Statement(step.u));
    SnocHistory(s, Apply(s, step).value, Statement(step.u));
    hide ArmedIn, Blocks, BlockAt, HistoryInv;
  }

  lemma {:induction false} ArmInv(s: Session, found: set<Dir>, holder: Holder)
    requires Inv(s) && !s.holder.Free? && (holder.Free? || holder == Reading(s.holder.catalog))
    ensures Inv(s.(guarded := Arm(s.guarded, s.Confined(), found), holder := holder,
                   log := if s.Confined() && !s.guarded.applied then s.log + [Armed(found)] else s.log))
  {
    SnocLog(s.log, Armed(found));
    var s' := s.(guarded := Arm(s.guarded, s.Confined(), found), holder := holder,
                 log := if s.Confined() && !s.guarded.applied then s.log + [Armed(found)] else s.log);
    if s'.log == s.log {
      SameHistory(s, s');
    } else {
      SnocHistory(s, s', Armed(found));
    }
    hide ArmedIn, Blocks, BlockAt, HistoryInv;
  }

  lemma {:induction false} AttachedInv(s: Session)
    requires Inv(s) && s.holder.Attaching?
    ensures Inv(s.(catalogs := s.catalogs + {s.holder.catalog}, log := s.log + [Attached(s.holder.catalog)]))
  {
    SnocLog(s.log, Attached(s.holder.catalog));
    SnocHistory(s, s.(catalogs := s.catalogs + {s.holder.catalog}, log := s.log + [Attached(s.holder.catalog)]),
                Attached(s.holder.catalog));
    hide ArmedIn, Blocks, BlockAt, HistoryInv;
  }

  lemma {:induction false} AttachInv(s: Session, step: Step)
    requires Inv(s) && (step.AttachRuns? || step.AttachEnds?) && Apply(s, step).Some?
    ensures Inv(Apply(s, step).value)
  {
    hide Inv;
    if step.AttachRuns? {
      var attached := s.(catalogs := s.catalogs + {s.holder.catalog}, log := s.log + [Attached(s.holder.catalog)]);
      AttachedInv(s);
      ArmInv(attached, if step.path.Some? then {step.path.value} else {}, Reading(s.holder.catalog));
    } else {
      ArmInv(s, if step.metadata.Some? then step.metadata.value else {}, Free);
    }
  }

  lemma {:induction false} ApplyInv(s: Session, step: Step)
    requires Inv(s) && Apply(s, step).Some?
    ensures Inv(Apply(s, step).value)
    ensures Apply(s, step).value.writer == s.writer && Apply(s, step).value.scratch == s.scratch
    ensures s.log <= Apply(s, step).value.log
  {
    if step.Ensure? {
      EnsureInv(s, step);
    } else if step.Execute? {
      ExecuteInv(s, step);
    } else if step.AttachRuns? || step.AttachEnds? {
      AttachInv(s, step);
    } else {
      SameHistory(s, Apply(s, step).value);
      hide ArmedIn, Blocks, BlockAt, HistoryInv;
    }
  }

  lemma {:induction false} ExecInv(s: Session, steps: seq<Step>)
    requires Inv(s) && Exec(s, steps).Some?
    ensures var s' := Exec(s, steps).value;
            Inv(s') && s'.writer == s.writer && s'.scratch == s.scratch && s.log <= s'.log
    decreases |steps|
  {
    if steps != [] {
      hide Apply, Inv;
      ApplyInv(s, steps[0]);
      ExecInv(Apply(s, steps[0]).value, steps[1..]);
    }
  }

  // --- Over every run ---

  lemma {:induction false} OneBlock(log: seq<Event>, i: nat)
    requires i < |log| && log[i].Block?
    ensures Blocks(log) >= Blocks(log[..i]) + 1
  {
    if i < |log| - 1 {
      OneBlock(log[..|log| - 1], i);
      assert log[..|log| - 1][..i] == log[..i];
    }
  }

  lemma {:induction false} BlockExists(log: seq<Event>)
    requires Blocks(log) > 0
    ensures exists i :: 0 <= i < |log| && log[i].Block?
  {
    if !log[|log| - 1].Block? {
      BlockExists(log[..|log| - 1]);
      var i :| 0 <= i < |log| - 1 && log[..|log| - 1][i].Block?;
      assert log[i].Block?;
    }
  }

  /** No user statement reaches the engine before the block ran through; the block runs
      through once; and for a non-writer it allows exactly the roots armed before it, and the
      scratch directory. */
  lemma {:induction false} LockdownComesFirst(writer: bool, scratch: Dir, catalogs: set<Catalog>, steps: seq<Step>)
    requires Exec(Init(writer, scratch, catalogs), steps).Some?
    ensures var s := Exec(Init(writer, scratch, catalogs), steps).value;
            && (forall u :: 0 <= u < |s.log| && s.log[u].Statement? ==> exists i :: 0 <= i < u && s.log[i].Block?)
            && (forall i, j :: 0 <= i < |s.log| && 0 <= j < |s.log| && s.log[i].Block? && s.log[j].Block? ==> i == j)
            && (forall i :: 0 <= i < |s.log| && s.log[i].Block? ==>
                  if writer then s.log[i].allowed.None?
                  else
                    s.log[i].allowed.Some?
                    && (set d | d in s.log[i].allowed.value) == ArmedIn(s.log[..i]) + {scratch})
  {
    InitInv(writer, scratch, catalogs);
    ExecInv(Init(writer, scratch, catalogs), steps);
    var s := Exec(Init(writer, scratch, catalogs), steps).value;
    hide Exec, Apply;
    StatementsAfterBlock(s);
    BlocksAgree(s);
    BlockAllows(s);
    hide Inv, ArmedIn, Blocks;
  }

  lemma {:induction false} InitInv(writer: bool, scratch: Dir, catalogs: set<Catalog>)
    ensures Inv(Init(writer, scratch, catalogs))
  {
  }

  lemma {:induction false} StatementsAfterBlock(s: Session)
    requires Inv(s)
    ensures forall u :: 0 <= u < |s.log| && s.log[u].Statement? ==> exists i :: 0 <= i < u && s.log[i].Block?
  {
    hide BlockAt, ArmedIn, Blocks;
    forall u | 0 <= u < |s.log| && s.log[u].Statement?
      ensures exists i :: 0 <= i < u && s.log[i].Block?
    {
      BlockExists(s.log[..u]);
      var i :| 0 <= i < u && s.log[..u][i].Block?;
      assert s.log[i].Block?;
    }
  }

  lemma {:induction false} BlocksAgree(s: Session)
    requires Inv(s)
    ensures forall i, j :: 0 <= i < |s.log| && 0 <= j < |s.log| && s.log[i].Block? && s.log[j].Block? ==> i == j
  {
    hide BlockAt, ArmedIn;
    forall i, j | 0 <= i < j < |s.log| && s.log[i].Block? && s.log[j].Block?
      ensures false
    {
      OneBlock(s.log, j);
      OneBlock(s.log[..j], i);
    }
  }

  lemma {:induction false} BlockAllows(s: Session)
    requires Inv(s)
    ensures forall i :: 0 <= i < |s.log| && s.log[i].Block? ==>
              if s.writer then s.log[i].allowed.None?
              else
                s.log[i].allowed.Some?
                && (set d | d in s.log[i].allowed.value) == ArmedIn(s.log[..i]) + {s.scratch}
  {
    hide ArmedIn, Blocks;
    forall i | 0 <= i < |s.log| && s.log[i].Block? && !s.writer
      ensures s.log[i].allowed.Some?
      ensures (set d | d in s.log[i].allowed.value) == ArmedIn(s.log[..i]) + {s.scratch}
    {
      assert BlockAt(s, i);
      var dirs := s.log[i].allowed.value;
      assert dirs == dirs[..|dirs| - 1] + [s.scratch];
    }
  }

  /** Once the block has run, the roots are frozen, and a non-writer's attached catalogs never
      go beyond those attached at that moment. */
  lemma {:induction false} AfterLockdown(s: Session, steps: seq<Step>)
    requires Inv(s) && s.guarded.applied && Exec(s, steps).Some?
    ensures var s' := Exec(s, steps).value;
            && s'.guarded == s.guarded && s'.frozen == s.frozen
            && (!s.writer ==> s'.catalogs <= s.frozen.value)
    decreases |steps|
  {
    if steps != [] {
      var s1 := Apply(s, steps[0]).value;
      ApplyInv(s, steps[0]);
      FrozenStep(s, steps[0]);
      hide Apply, Inv;
      AfterLockdown(s1, steps[1..]);
    }
  }

  lemma {:induction false} FrozenStep(s: Session, step: Step)
    requires s.guarded.applied && Apply(s, step).Some?
    ensures Apply(s, step).value.guarded == s.guarded && Apply(s, step).value.frozen == s.frozen
  {
  }

  // --- What goes through ---

  lemma {:induction false} ExecThree(s: Session, a: Step, b: Step, c: Step)
    requires Apply(s, a).Some? && Apply(Apply(s, a).value, b).Some?
    ensures Exec(s, [a, b, c]) == Apply(Apply(Apply(s, a).value, b).value, c)
  {
    hide Apply;
    var s2 := Apply(Apply(s, a).value, b).value;
    assert [a, b, c][1..] == [b, c] && [b, c][1..] == [c] && [c][1..] == [];
    assert Exec(s2, [c]) == if Apply(s2, c).None? then None else Exec(Apply(s2, c).value, []);
    assert Exec(Apply(s, a).value, [b, c]) == Exec(s2, [c]);
  }

  /** An admitted statement reaches the engine when the block runs through, or ran through before;
      the block is run at most this once. */
  lemma {:induction false} AdmittedRuns(s: Session, listing: seq<Dir>, dropped: set<Catalog>)
    requires s.holder.Free? && Lists(listing, s.guarded.roots)
    ensures var u := |s.users|;
            var end := Exec(s, [Admit, Ensure(u, listing, true), Execute(u, dropped)]);
            && end.Some? && end.value.guarded == s.guarded.(applied := true)
            && end.value.catalogs == s.catalogs - dropped
            && end.value.log
               == s.log + ((if s.guarded.applied then [] else [Block(AllowedBy(s.writer, listing, s.scratch))])
                           + [Statement(u)])
  {
    var u := |s.users|;
    hide Lists, AllowedBy;
    ExecThree(s, Admit, Ensure(u, listing, true), Execute(u, dropped));
    hide Exec;
    assert s.log + [] == s.log && [] + [Statement(u)] == [Statement(u)];
  }

  /** When the block fails the statement is over, nothing is remembered, and the next statement
      tries the block again. */
  lemma {:induction false} FailedBlockIsForgotten(s: Session, u: nat, listing: seq<Dir>)
    requires u < |s.users| && s.users[u].Admitted? && s.holder.Free? && Lists(listing, s.guarded.roots)
    requires !s.guarded.applied
    ensures Apply(s, Ensure(u, listing, false)) == Some(s.(users := s.users[u := Over]))
  {
  }

  /** Attaching, to the end: a confined session whose block ran can only attach a catalog again
      that it has; any other attaches, and before the block its roots are armed if it is
      confined. */
  lemma {:induction false} AttachesIff(s: Session, catalog: Catalog, path: Option<Dir>, metadata: Option<set<Dir>>)
    requires s.holder.Free?
    ensures var end := Exec(s, [AttachStart(catalog), AttachRuns(path), AttachEnds(metadata)]);
            && (end.Some? <==> s.writer || !s.guarded.applied || catalog in s.catalogs)
            && (end.Some? ==>
                  && end.value.catalogs == s.catalogs + {catalog} && end.value.holder.Free?
                  && end.value.guarded.roots
                     == if s.writer || s.guarded.applied then s.guarded.roots
                        else s.guarded.roots + (if path.Some? then {path.value} else {})
                             + (if metadata.Some? then metadata.value else {}))
  {
    var start := AttachStart(catalog);
    var all := [start, AttachRuns(path), AttachEnds(metadata)];
    assert all[1..] == [AttachRuns(path), AttachEnds(metadata)];
    if s.writer || !s.guarded.applied || catalog in s.catalogs {
      ExecThree(s, start, AttachRuns(path), AttachEnds(metadata));
    } else {
      assert Apply(s, start) == Some(s) && Apply(s, AttachRuns(path)).None?;
    }
  }

  /** A refused attachment and one that fails leave the session as it was. */
  lemma {:induction false} FailedAttachmentLeavesNothing(s: Session, catalog: Catalog)
    requires s.holder.Free?
    ensures var started := Apply(s, AttachStart(catalog));
            started.Some? && (started == Some(s) || Apply(started.value, AttachFails) == Some(s))
  {
  }

  // --- The roots are those that were brought ---

  /** The roots that attachments brought in a run. */
  function Brought(steps: seq<Step>): set<Dir> {
    if steps == [] then {}
    else
      (match steps[0]
       case AttachRuns(path) => if path.Some? then {path.value} else {}
       case AttachEnds(metadata) => if metadata.Some? then metadata.value else {}
       case _ => {})
      + Brought(steps[1..])
  }

  /** As long as the block has not run, a confined session has armed all the roots that were
      brought, and no others. */
  lemma {:induction false} RootsAreBrought(s: Session, steps: seq<Step>)
    requires !s.writer && Exec(s, steps).Some? && !Exec(s, steps).value.guarded.applied
    ensures Exec(s, steps).value.guarded.roots == s.guarded.roots + Brought(steps)
    ensures !s.guarded.applied
    decreases |steps|
  {
    if steps != [] {
      var s1 := Apply(s, steps[0]).value;
      RootsAreBrought(s1, steps[1..]);
      assert s.guarded.applied ==> s1.guarded.applied;
    }
  }
}
