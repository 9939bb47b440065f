// Any number of processes on one root, kept apart only by the non-blocking file lock
// (internal/provision/lock_unix.go and prepareRoot).
module Concurrency {
  import opened Common
  import opened Prune
  import opened Disk
  import opened Plans
  import opened CrashSafety

  // What a process knows. Sweeping: holds the lock and runs prepareRoot. Working: has read the root
  // (seen) and carries out the calls it decided on. Undoing: a call failed and is being made good.
  datatype Local =
    | Out
    | Wanting(op: Op)
    | Sweeping(op: Op, done: nat)
    | Working(op: Op, seen: Disk, done: nat)
    | Undoing(op: Op, seen: Disk, done: nat, undone: bool)

  datatype System = System(disk: Disk, holder: Option<nat>, locals: map<nat, Local>)

  const START := System(EMPTY, None, map[])

  // Fail is a failing call that the source makes good by another one, Undo. Crash also stands for a return with
  // an error and nothing to make good, or whose Undo fails: the lock is released and nothing else happens.
  datatype Action =
    | Begin(p: nat, op: Op)
    | TryLock(p: nat, sweep: seq<string>)
    | Sweep(p: nat)
    | Read(p: nat, removed: seq<string>)
    | Call(p: nat)
    | Fail(p: nat)
    | Undo(p: nat)
    | Unlock(p: nat)
    | Crash(p: nat)

  function At(s: System, p: nat): Local {
    if p in s.locals then s.locals[p] else Out
  }

  predicate Holding(s: System, p: nat) {
    At(s, p).Sweeping? || At(s, p).Working? || At(s, p).Undoing?
  }

  /** The call that makes good the failure of a step: the set-aside version put back, current.new removed. */
  function UndoOf(seen: Disk, step: Step): Option<Step> {
    match step
    case Publish(v) => if v in seen.versions then Some(PutBack(v)) else None
    case RenameNext => Some(RemoveNext)
    case _ => None
  }

  /** The action fits the process's own state; nothing here looks at the lock. */
  ghost predicate Can(w: World, s: System, a: Action) {
    match a
    case Begin(p, op) => At(s, p).Out? && Launchable(w, op)
    case TryLock(p, sweep) => At(s, p).Wanting? && Listing(sweep, Staged(s.disk))
    case Sweep(p) => At(s, p).Sweeping? && At(s, p).done < |Prepare(At(s, p).op.sweep)|
    case Read(p, removed) =>
      && At(s, p).Sweeping? && At(s, p).done == |Prepare(At(s, p).op.sweep)|
      && (At(s, p).op.Install? && Decide(w, s.disk, At(s, p).op).Commit? ==>
            Listing(removed, PruneList(w, s.disk, At(s, p).op)))
    case Call(p) => At(s, p).Working? && At(s, p).done < |Steps(w, At(s, p).seen, At(s, p).op)|
    case Fail(p) =>
      && At(s, p).Working? && At(s, p).done < |Steps(w, At(s, p).seen, At(s, p).op)|
      && UndoOf(At(s, p).seen, Steps(w, At(s, p).seen, At(s, p).op)[At(s, p).done]).Some?
    case Undo(p) => At(s, p).Undoing? && !At(s, p).undone && UndoStep(w, At(s, p)).Some?
    case Unlock(p) =>
      || (At(s, p).Working? && At(s, p).done == |Steps(w, At(s, p).seen, At(s, p).op)|)
      || (At(s, p).Undoing? && At(s, p).undone)
    case Crash(p) => true
  }

  /** What a process whose call failed does about it. */
  function UndoStep(w: World, l: Local): Option<Step>
    requires l.Undoing?
  {
    if l.done < |Steps(w, l.seen, l.op)| then UndoOf(l.seen, Steps(w, l.seen, l.op)[l.done]) else None
  }

  function Leave(s: System, p: nat): System {
    s.(locals := s.locals[p := Out], holder := if s.holder == Some(p) then None else s.holder)
  }

  function WithSweep(op: Op, sweep: seq<string>): Op {
    op.(sweep := sweep)
  }

  function WithRemoved(op: Op, removed: seq<string>): Op {
    if op.Install? then op.(removed := removed) else op
  }

  /** The operation as it was asked for, without the orders it met. */
  function Asked(op: Op): Op {
    WithRemoved(WithSweep(op, []), [])
  }

  ghost function Next(w: World, s: System, a: Action): System
    requires Can(w, s, a)
  {
    match a
    case Begin(p, op) => s.(locals := s.locals[p := Wanting(op)])
    case TryLock(p, sweep) =>
      if s.holder.Some? then Leave(s, p) // EWOULDBLOCK
      else s.(holder := Some(p), locals := s.locals[p := Sweeping(WithSweep(At(s, p).op, sweep), 0)])
    case Sweep(p) =>
      var l := At(s, p);
      s.(disk := Apply(s.disk, Prepare(l.op.sweep)[l.done]), locals := s.locals[p := Sweeping(l.op, l.done + 1)])
    case Read(p, removed) =>
      var l := At(s, p);
      s.(locals := s.locals[p := Working(WithRemoved(l.op, removed), s.disk, l.done)])
    case Call(p) =>
      var l := At(s, p);
      s.(disk := Apply(s.disk, Steps(w, l.seen, l.op)[l.done]),
          locals := s.locals[p := Working(l.op, l.seen, l.done + 1)])
    case Fail(p) =>
      var l := At(s, p);
      s.(locals := s.locals[p := Undoing(l.op, l.seen, l.done, false)])
    case Undo(p) =>
      var l := At(s, p);
      s.(disk := Apply(s.disk, UndoStep(w, l).value), locals := s.locals[p := l.(undone := true)])
    case Unlock(p) => Leave(s, p)
    case Crash(p) => Leave(s, p)
  }

  ghost predicate PossibleTrace(w: World, acts: seq<Action>) {
    acts == [] || (
      && PossibleTrace(w, acts[..|acts| - 1])
      && Can(w, Reached(w, acts[..|acts| - 1]), acts[|acts| - 1]))
  }

  ghost function Reached(w: World, acts: seq<Action>): System
  {
    if acts == [] then START
    else
      var s := Reached(w, acts[..|acts| - 1]);
      if Can(w, s, acts[|acts| - 1]) then Next(w, s, acts[|acts| - 1]) else s
  }

  // ---------------------------------------------------------------------
  // The sequential history behind an interleaving
  // ---------------------------------------------------------------------

  ghost predicate Launchable(w: World, op: Op) {
    op.Install? ==> w.valid(op.version) && op.archive !in {BINARY, CANDIDATE, BACKUP}
                    && (op.approved ==> w.vetted(op.version, op.binary))
  }

  /** Whoever has got past prepareRoot's lock call holds the lock, and every operation was well formed. */
  ghost predicate Locked(w: World, s: System) {
    && (forall p: nat :: Holding(s, p) <==> s.holder == Some(p))
    && (forall p: nat :: !At(s, p).Out? ==> Launchable(w, At(s, p).op))
  }

  /** The operations that got the lock, in that order, each with the process that began it. */
  ghost function Acquired(w: World, acts: seq<Action>): seq<(nat, Op)> {
    if acts == [] then []
    else
      var s, a := Reached(w, acts[..|acts| - 1]), acts[|acts| - 1];
      Acquired(w, acts[..|acts| - 1]) + Gets(s, a)
  }

  ghost predicate BegunBy(acts: seq<Action>, p: nat, op: Op) {
    exists j :: 0 <= j < |acts| && acts[j] == Begin(p, op)
  }

  /** es names the operations of got, as they were asked for, one each and in order. */
  ghost predicate Names(es: seq<Event>, got: seq<(nat, Op)>) {
    |es| == |got| && forall i :: 0 <= i < |es| ==> Asked(es[i].op) == Asked(got[i].1)
  }

  /**
   * es explains every finished operation up to the content of staging/, and the lock holder is part way through one
   * more on top of base.
   */
  ghost predicate Explains(w: World, s: System, got: seq<(nat, Op)>, es: seq<Event>, base: Disk) {
    && Locked(w, s)
    && PossibleRun(w, EMPTY, es) && SameInstallation(base, After(w, EMPTY, es))
    && (s.holder.None? ==> s.disk == base && Names(es, got))
    && (s.holder.Some? ==>
          && InProgress(w, s.disk, At(s, s.holder.value), base)
          && got != [] && Names(es, got[..|got| - 1]) && Asked(At(s, s.holder.value).op) == Asked(got[|got| - 1].1))
  }

  ghost predicate InProgress(w: World, disk: Disk, l: Local, base: Disk) {
    match l
    case Sweeping(op, i) =>
      && Listing(op.sweep, Staged(base)) && i <= |Prepare(op.sweep)|
      && disk == Run(base, Prepare(op.sweep)[..i])
    case Working(op, seen, i) =>
      && Planned(w, op, seen, base) && i <= |Steps(w, base, op)|
      && disk == Run(base, Steps(w, base, op)[..i])
    case Undoing(op, seen, i, undone) =>
      && Planned(w, op, seen, base) && i < |Steps(w, base, op)|
      && if undone then exists j :: 0 <= j <= i && SameInstallation(disk, Run(base, Steps(w, base, op)[..j]))
         else disk == Run(base, Steps(w, base, op)[..i])
    case _ => false
  }

  /** The plan made from what was read is the plan for the root the operation started on. */
  ghost predicate Planned(w: World, op: Op, seen: Disk, base: Disk) {
    Feasible(w, base, op) && SameInstallation(seen, base) && Steps(w, seen, op) == Steps(w, base, op)
  }

  lemma {:induction false} ListingExists(s: set<string>) returns (xs: seq<string>)
    ensures Listing(xs, s)
    decreases |s|
  {
    if s == {} {
      xs := [];
    } else {
      var x :| x in s;
      xs := ListingExists(s - {x});
      xs := xs + [x];
    }
  }

  lemma RunExtends(d: Disk, steps: seq<Step>, i: nat)
    requires i < |steps|
    ensures Run(d, steps[..i + 1]) == Apply(Run(d, steps[..i]), steps[i])
  {
    assert steps[..i + 1][..i] == steps[..i];
  }

  lemma PrepareComesFirst(w: World, d: Disk, op: Op, i: nat)
    requires Launchable(w, op) && i <= |Prepare(op.sweep)|
    ensures |Prepare(op.sweep)| <= |Steps(w, d, op)|
    ensures Steps(w, d, op)[..i] == Prepare(op.sweep)[..i]
  {
    var rest := Steps(w, d, op)[|Prepare(op.sweep)|..];
    assert Steps(w, d, op) == Prepare(op.sweep) + rest;
  }

  /** The operation the lock holder is in, as one event on the root it started on. */
  lemma PendingEvent(w: World, disk: Disk, l: Local, base: Disk) returns (e: Event)
    requires InProgress(w, disk, l, base) && Launchable(w, l.op)
    ensures Possible(w, base, e) && SameInstallation(Cut(w, base, e.op, e.cut), disk) && Asked(e.op) == Asked(l.op)
  {
    if l.Sweeping? {
      var op := l.op;
      if op.Install? && Decide(w, base, op).Commit? {
        var removed := ListingExists(PruneList(w, base, op));
        op := op.(removed := removed);
      }
      assert Decide(w, base, op) == Decide(w, base, l.op);
      assert op.Install? && Decide(w, base, op).Commit? ==> PruneList(w, base, op) == PruneList(w, base, l.op);
      PrepareComesFirst(w, base, op, l.done);
      e := Event(op, l.done);
    } else if l.Working? || !l.undone {
      e := Event(l.op, l.done);
    } else {
      hide Steps, Run, Decide;
      var j :| 0 <= j <= l.done && SameInstallation(disk, Run(base, Steps(w, base, l.op)[..j]));
      e := Event(l.op, j);
    }
  }

  /** The same event on a root that differs in staging/ only, with the sweep that fits it. */
  lemma Resweep(w: World, d: Disk, f: Disk, e: Event) returns (g: Event)
    requires Possible(w, d, e) && SameInstallation(d, f)
    ensures Possible(w, f, g) && SameInstallation(Cut(w, f, g.op, g.cut), Cut(w, d, e.op, e.cut))
            && Asked(g.op) == Asked(e.op)
  {
    var sweep := ListingExists(Staged(f));
    assert Feasible(w, d, e.op) && e.cut <= |Steps(w, d, e.op)|;
    hide Decide, Feasible, Steps, Run, Cut, Listing, SwitchAt, SameInstallation, Commits;
    g := Event(WithSweep(e.op, sweep), SweptCut(w, d, e, sweep));
    if Commits(w, d, e.op) {
      SweptCommit(w, d, f, e, sweep);
    } else {
      SweptRefusal(w, d, f, e, sweep);
    }
  }

  /** Where the same cut falls with another sweep; 0 stands for all cuts that change nothing. */
  function SweptCut(w: World, d: Disk, e: Event, sweep: seq<string>): nat {
    var n, m := SwitchAt(e.op), SwitchAt(WithSweep(e.op, sweep));
    if !Commits(w, d, e.op) || e.cut < (if e.op.Install? then n - 1 else n) || e.cut - n + m < 0 then 0
    else e.cut - n + m
  }

  lemma SweptRefusal(w: World, d: Disk, f: Disk, e: Event, sweep: seq<string>)
    requires Possible(w, d, e) && SameInstallation(d, f) && !Commits(w, d, e.op)
    requires Feasible(w, f, WithSweep(e.op, sweep)) && !Commits(w, f, WithSweep(e.op, sweep))
    ensures SameInstallation(Cut(w, f, WithSweep(e.op, sweep), 0), Cut(w, d, e.op, e.cut))
  {
    DiskAtCut(w, d, e.op, e.cut);
    DiskAtCut(w, f, WithSweep(e.op, sweep), 0);
    hide Decide, Feasible, Steps, Run, Cut, Commits;
  }

  lemma SweptCommit(w: World, d: Disk, f: Disk, e: Event, sweep: seq<string>)
    requires Possible(w, d, e) && SameInstallation(d, f) && Commits(w, d, e.op)
    requires Feasible(w, f, WithSweep(e.op, sweep)) && Commits(w, f, WithSweep(e.op, sweep))
    requires Decide(w, f, WithSweep(e.op, sweep)) == Decide(w, d, e.op)
    ensures SweptCut(w, d, e, sweep) <= |Steps(w, f, WithSweep(e.op, sweep))|
    ensures SameInstallation(Cut(w, f, WithSweep(e.op, sweep), SweptCut(w, d, e, sweep)), Cut(w, d, e.op, e.cut))
  {
    assert e.cut <= |Steps(w, d, e.op)|;
    hide Decide, Feasible, Steps, Run, Cut, VersionsAlong, SwitchAt, Commits;
    SweepShiftsPlan(w, d, f, e.op, sweep);
    ShiftedVersions(d.versions, e.op, sweep, e.cut);
    DiskAtCut(w, d, e.op, e.cut);
    DiskAtCut(w, f, WithSweep(e.op, sweep), SweptCut(w, d, e, sweep));
  }

  lemma SweepShiftsPlan(w: World, d: Disk, f: Disk, op: Op, sweep: seq<string>)
    requires Commits(w, d, op) && Commits(w, f, WithSweep(op, sweep))
    ensures |Steps(w, d, op)| - SwitchAt(op) == |Steps(w, f, WithSweep(op, sweep))| - SwitchAt(WithSweep(op, sweep))
    ensures SwitchAt(op) - |op.sweep| == SwitchAt(WithSweep(op, sweep)) - |sweep| >= 2
    ensures op.Install? ==> |Groundwork(op)| == SwitchAt(op) - 2
    ensures op.Install? ==> |Groundwork(WithSweep(op, sweep))| == SwitchAt(WithSweep(op, sweep)) - 2
  {
    FrontIsLead(w, d, op);
    FrontIsLead(w, f, WithSweep(op, sweep));
  }

  lemma ShiftedVersions(vs: map<string, Option<Bytes>>, op: Op, sweep: seq<string>, k: nat)
    ensures
      var n, m := SwitchAt(op), SwitchAt(WithSweep(op, sweep));
      if k < (if op.Install? then n - 1 else n) then
        VersionsAlong(vs, op, k) == vs == VersionsAlong(vs, WithSweep(op, sweep), 0)
      else k - n + m >= 0 && VersionsAlong(vs, op, k) == VersionsAlong(vs, WithSweep(op, sweep), k - n + m)
  {
  }

  lemma AppendEvent(w: World, es: seq<Event>, e: Event)
    requires PossibleRun(w, EMPTY, es) && Possible(w, After(w, EMPTY, es), e)
    ensures PossibleRun(w, EMPTY, es + [e])
    ensures After(w, EMPTY, es + [e]) == Cut(w, After(w, EMPTY, es), e.op, e.cut)
  {
    assert (es + [e])[..|es|] == es;
  }

  /** The calls depend only on state.json and versions/, and the removal order only on the read. */
  lemma StepsDependOnCore(w: World, d: Disk, e: Disk, op: Op)
    requires d.stateFile == e.stateFile && d.versions == e.versions
    ensures Steps(w, d, op) == Steps(w, e, op)
    ensures Decide(w, d, op) == Decide(w, e, op)
    ensures op.Install? && Decide(w, d, op).Commit? ==> PruneList(w, d, op) == PruneList(w, e, op)
  {
    assert Decide(w, d, op) == Decide(w, e, op);
    assert Front(w, d, op) == Front(w, e, op);
  }

  lemma DecisionIgnoresOrder(w: World, d: Disk, op: Op, removed: seq<string>)
    ensures Decide(w, d, WithRemoved(op, removed)) == Decide(w, d, op)
    ensures op.Install? && Decide(w, d, op).Commit? ==> PruneList(w, d, WithRemoved(op, removed)) == PruneList(w, d, op)
  {
  }

  lemma ReadFixesThePlan(w: World, disk: Disk, l: Local, base: Disk, removed: seq<string>)
    requires l.Sweeping? && InProgress(w, disk, l, base) && Launchable(w, l.op) && l.done == |Prepare(l.op.sweep)|
    requires l.op.Install? && Decide(w, disk, l.op).Commit? ==> Listing(removed, PruneList(w, disk, l.op))
    ensures InProgress(w, disk, Working(WithRemoved(l.op, removed), disk, l.done), base)
  {
    var op := WithRemoved(l.op, removed);
    var all := Prepare(l.op.sweep);
    assert all[..l.done] == all;
    PrepareRun(base, l.op.sweep);
    StepsDependOnCore(w, base, disk, op);
    StepsDependOnCore(w, base, disk, l.op);
    DecisionIgnoresOrder(w, base, l.op, removed);
    PrepareComesFirst(w, base, op, l.done);
  }

  lemma RemoveNextKeepsInstallation(d: Disk, log: seq<Step>)
    ensures SameInstallation(Run(d, log + [RemoveNext]), Run(d, log))
  {
    RunConcat(d, log, [RemoveNext]);
    RunOne(Run(d, log), RemoveNext);
  }

  /** Setting a version aside and putting it back restores versions/. */
  lemma AsideAndBack(d: Disk, v: string)
    requires v in d.versions && Enabled(d, SetAside(v))
    ensures SameInstallation(Apply(Apply(d, SetAside(v)), PutBack(v)), d)
  {
    assert (d.versions - {v})[v := d.versions[v]] == d.versions;
  }

  lemma PuttingBack(d: Disk, log: seq<Step>, v: string)
    requires v in Run(d, log).versions && Runs(d, log + [SetAside(v)])
    ensures SameInstallation(Run(d, log + [SetAside(v)] + [PutBack(v)]), Run(d, log))
  {
    RunConcat(d, log, [SetAside(v), PutBack(v)]);
    RunTwo(Run(d, log), SetAside(v), PutBack(v));
    assert log + [SetAside(v)] + [PutBack(v)] == log + [SetAside(v), PutBack(v)];
    RunConcat(d, log, [SetAside(v)]);
    RunOne(Run(d, log), SetAside(v));
    AsideAndBack(Run(d, log), v);
  }

  /** Making good a failed call leads back to the installation after some earlier call, or keeps it. */
  lemma UndoGoesBack(w: World, disk: Disk, l: Local, base: Disk)
    requires l.Undoing? && !l.undone && InProgress(w, disk, l, base) && UndoStep(w, l).Some?
    ensures InProgress(w, Apply(disk, UndoStep(w, l).value), l.(undone := true), base)
  {
    var steps, i := Steps(w, base, l.op), l.done;
    var undo := UndoStep(w, l).value;
    assert steps == Steps(w, l.seen, l.op) && Planned(w, l.op, l.seen, base);
    hide Steps, Run, Runs, Apply, Decide, Feasible;
    RunConcat(base, steps[..i], [undo]);
    RunOne(disk, undo);
    if undo.RemoveNext? {
      RemoveNextKeepsInstallation(base, steps[..i]);
      assert SameInstallation(Apply(disk, undo), Run(base, steps[..i]));
    } else {
      PutBackRestores(w, base, l.op, i, undo.v);
      assert SameInstallation(Apply(disk, undo), Run(base, steps[..i - 1]));
    }
  }

  lemma PutBackIsComplete(w: World, disk: Disk, l: Local, base: Disk)
    requires l.Working? && InProgress(w, disk, l, base) && l.done < |Steps(w, l.seen, l.op)|
    requires Steps(w, l.seen, l.op)[l.done].Publish? && Steps(w, l.seen, l.op)[l.done].v in base.versions
    ensures Steps(w, l.seen, l.op)[l.done].v in l.seen.versions
    ensures
      var undone := Apply(disk, PutBack(Steps(w, l.seen, l.op)[l.done].v));
      SameInstallation(undone, disk.(versions := base.versions))
  {
    var steps, i := Steps(w, base, l.op), l.done;
    var v := Steps(w, l.seen, l.op)[l.done].v;
    assert steps == Steps(w, l.seen, l.op) && Planned(w, l.op, l.seen, base);
    hide Steps, Run, Runs, Decide, Feasible, Apply, InProgress, Commits, SwitchAt;
    RunConcat(base, steps[..i], [PutBack(v)]);
    RunOne(disk, PutBack(v));
    PutBackRestores(w, base, l.op, i, v);
    PublishFollowsSetAside(w, base, l.op, i);
    BeforePublishNothingMoved(w, base, l.op, i);
    PutBackTouchesVersions(disk, v);
  }

  lemma PutBackTouchesVersions(d: Disk, v: string)
    ensures Apply(d, PutBack(v)).link == d.link && Apply(d, PutBack(v)).stateFile == d.stateFile
  {
  }

  lemma PutBackRestores(w: World, base: Disk, op: Op, i: nat, v: string)
    requires Feasible(w, base, op) && i < |Steps(w, base, op)| && Steps(w, base, op)[i] == Publish(v)
             && v in base.versions
    ensures i > 0
    ensures SameInstallation(Run(base, Steps(w, base, op)[..i] + [PutBack(v)]), Run(base, Steps(w, base, op)[..i - 1]))
  {
    hide Steps, Run, Runs, Apply, Decide, Feasible, Commits, SwitchAt, SameInstallation;
    var steps := Steps(w, base, op);
    PublishFollowsSetAside(w, base, op, i);
    PlanNeverStalls(w, base, op);
    RunsPrefix(base, steps, i);
    BeforePublishNothingMoved(w, base, op, i);
    var log := steps[..i - 1];
    assert steps[..i] == log + [SetAside(v)];
    PuttingBack(base, log, v);
  }

  /** Publish is the second rename of an install that commits. */
  lemma PublishFollowsSetAside(w: World, base: Disk, op: Op, i: nat)
    requires i < |Steps(w, base, op)| && Steps(w, base, op)[i].Publish?
    ensures op.Install? && Commits(w, base, op) && i == SwitchAt(op) - 1 && i > 0
    ensures Steps(w, base, op)[i] == Publish(op.version) && Steps(w, base, op)[i - 1] == SetAside(op.version)
  {
    if Commits(w, base, op) {
      FrontIsLead(w, base, op);
    }
  }

  lemma BeforePublishNothingMoved(w: World, base: Disk, op: Op, i: nat)
    requires Feasible(w, base, op) && op.Install? && Commits(w, base, op) && i == SwitchAt(op) - 1
             && 0 < i <= |Steps(w, base, op)|
    ensures Run(base, Steps(w, base, op)[..i - 1]).versions == base.versions
  {
    DiskAtCut(w, base, op, i - 1);
  }

  lemma NextKeepsLocked(w: World, s: System, a: Action)
    requires Locked(w, s) && Can(w, s, a)
    ensures Locked(w, Next(w, s, a))
  {
    var t := Next(w, s, a);
    forall q: nat ensures Holding(t, q) <==> t.holder == Some(q) {
      assert Holding(s, q) <==> s.holder == Some(q);
      assert Holding(s, a.p) <==> s.holder == Some(a.p);
      assert q != a.p ==> At(t, q) == At(s, q);
    }
    forall q: nat | !At(t, q).Out? ensures Launchable(w, At(t, q).op) {
      assert q != a.p ==> At(t, q) == At(s, q);
    }
  }

  /** A process at work is the lock holder. */
  lemma WorkerHolds(w: World, s: System, p: nat)
    requires Locked(w, s) && !At(s, p).Out? && !At(s, p).Wanting?
    ensures s.holder == Some(p) && Launchable(w, At(s, p).op)
  {
    assert Holding(s, p);
  }

  /** One more call by the lock holder. */
  lemma ProgressExtends(w: World, disk: Disk, l: Local, base: Disk)
    requires InProgress(w, disk, l, base)
    ensures l.Sweeping? && l.done < |Prepare(l.op.sweep)| ==>
              InProgress(w, Apply(disk, Prepare(l.op.sweep)[l.done]), Sweeping(l.op, l.done + 1), base)
    ensures l.Working? && l.done < |Steps(w, l.seen, l.op)| ==>
              && InProgress(w, Apply(disk, Steps(w, l.seen, l.op)[l.done]), Working(l.op, l.seen, l.done + 1), base)
              && InProgress(w, disk, Undoing(l.op, l.seen, l.done, false), base)
  {
    hide Steps, Run, Feasible, Prepare, Apply;
    if l.Sweeping? && l.done < |Prepare(l.op.sweep)| {
      RunExtends(base, Prepare(l.op.sweep), l.done);
    } else if l.Working? && l.done < |Steps(w, l.seen, l.op)| {
      RunExtends(base, Steps(w, base, l.op), l.done);
    }
  }

  lemma CallIsExplained(w: World, s: System, got: seq<(nat, Op)>, es: seq<Event>, base: Disk, a: Action)
    requires Explains(w, s, got, es, base) && Can(w, s, a) && (a.Sweep? || a.Read? || a.Call? || a.Fail? || a.Undo?)
    ensures Explains(w, Next(w, s, a), got, es, base)
  {
    hide Apply, Run, Runs, Enabled, Decide, Steps, InProgress, PossibleRun, After, Names;
    NextKeepsLocked(w, s, a);
    WorkerHolds(w, s, a.p);
    if a.Read? {
      ReadFixesThePlan(w, s.disk, At(s, a.p), base, a.removed);
    } else if a.Undo? {
      UndoGoesBack(w, s.disk, At(s, a.p), base);
    } else {
      ProgressExtends(w, s.disk, At(s, a.p), base);
    }
  }

  /** The holder leaves: its operation becomes the last event of the history. */
  lemma LeavingIsExplained(w: World, s: System, got: seq<(nat, Op)>, es: seq<Event>, base: Disk)
      returns (fs: seq<Event>)
    requires Explains(w, s, got, es, base) && s.holder.Some?
    ensures PossibleRun(w, EMPTY, fs) && SameInstallation(s.disk, After(w, EMPTY, fs)) && Names(fs, got)
  {
    assert Holding(s, s.holder.value);
    WorkerHolds(w, s, s.holder.value);
    hide Cut, InProgress, PossibleRun, After, Possible, Names, Asked, Locked, Launchable, Explains;
    var e := PendingEvent(w, s.disk, At(s, s.holder.value), base);
    var g := Resweep(w, base, After(w, EMPTY, es), e);
    AppendEvent(w, es, g);
    fs := es + [g];
  }

  /** A process gets the free lock. */
  lemma LockingIsExplained(w: World, s: System, got: seq<(nat, Op)>, es: seq<Event>, base: Disk, p: nat,
                           sweep: seq<string>)
    requires Explains(w, s, got, es, base) && Can(w, s, TryLock(p, sweep)) && s.holder.None?
    ensures Explains(w, Next(w, s, TryLock(p, sweep)), got + [(p, At(s, p).op)], es, base)
  {
    NextKeepsLocked(w, s, TryLock(p, sweep));
    hide PossibleRun, After, Names, Locked;
    var l := Sweeping(WithSweep(At(s, p).op, sweep), 0);
    assert Prepare(sweep)[..0] == [];
    assert InProgress(w, s.disk, l, base);
    assert (got + [(p, At(s, p).op)])[..|got|] == got;
  }

  /** What others do while the lock is held, or before they have it, changes nothing of the explanation. */
  lemma BystanderIsExplained(w: World, s: System, got: seq<(nat, Op)>, es: seq<Event>, base: Disk, a: Action)
    requires Explains(w, s, got, es, base) && Can(w, s, a) && s.holder != Some(a.p)
    requires a.Begin? || a.Unlock? || a.Crash? || (a.TryLock? && s.holder.Some?)
    ensures Explains(w, Next(w, s, a), got, es, base)
  {
    NextKeepsLocked(w, s, a);
    hide PossibleRun, After, Names, Locked, InProgress, SameInstallation;
  }

  lemma NextIsExplained(w: World, s: System, got: seq<(nat, Op)>, es: seq<Event>, base: Disk, a: Action)
    returns (fs: seq<Event>, newBase: Disk)
    requires Explains(w, s, got, es, base) && Can(w, s, a)
    ensures Explains(w, Next(w, s, a), got + Gets(s, a), fs, newBase)
  {
    fs, newBase := es, base;
    assert got + [] == got;
    if a.Sweep? || a.Read? || a.Call? || a.Fail? || a.Undo? {
      hide Explains;
      CallIsExplained(w, s, got, es, base, a);
    } else if s.holder == Some(a.p) {
      fs := LeavingIsExplained(w, s, got, es, base);
      newBase := s.disk;
      NextKeepsLocked(w, s, a);
      hide PossibleRun, After, Names, Locked;
    } else if a.TryLock? && s.holder.None? {
      hide Explains;
      LockingIsExplained(w, s, got, es, base, a.p, a.sweep);
    } else {
      hide Explains;
      BystanderIsExplained(w, s, got, es, base, a);
    }
  }

  /** The operation an action gets the lock for, if it does. */
  function Gets(s: System, a: Action): seq<(nat, Op)> {
    if a.TryLock? && At(s, a.p).Wanting? && s.holder.None? then [(a.p, At(s, a.p).op)] else []
  }

  lemma {:induction false} TraceIsExplained(w: World, acts: seq<Action>) returns (es: seq<Event>, base: Disk)
    requires PossibleTrace(w, acts)
    ensures Explains(w, Reached(w, acts), Acquired(w, acts), es, base)
  {
    if acts == [] {
      es, base := [], EMPTY;
    } else {
      es, base := TraceIsExplained(w, acts[..|acts| - 1]);
      hide Explains, Next;
      es, base := NextIsExplained(w, Reached(w, acts[..|acts| - 1]), Acquired(w, acts[..|acts| - 1]), es, base,
          acts[|acts| - 1]);
    }
  }

  /** Whoever waits for the lock, or got it, began that very operation. */
  lemma {:induction false} WantedWasBegun(w: World, acts: seq<Action>)
    requires PossibleTrace(w, acts)
    ensures forall p: nat :: At(Reached(w, acts), p).Wanting? ==> BegunBy(acts, p, At(Reached(w, acts), p).op)
    ensures forall i :: 0 <= i < |Acquired(w, acts)| ==> BegunBy(acts, Acquired(w, acts)[i].0, Acquired(w, acts)[i].1)
  {
    if acts != [] {
      var front, a := acts[..|acts| - 1], acts[|acts| - 1];
      WantedWasBegun(w, front);
      var s, t := Reached(w, front), Reached(w, acts);
      forall p: nat | At(t, p).Wanting? ensures BegunBy(acts, p, At(t, p).op) {
        if a == Begin(p, At(t, p).op) {
          assert acts[|acts| - 1] == Begin(p, At(t, p).op);
        } else {
          assert At(s, p) == At(t, p);
          BegunStays(front, a, p, At(t, p).op);
        }
      }
      var got := Acquired(w, acts);
      forall i | 0 <= i < |got| ensures BegunBy(acts, got[i].0, got[i].1) {
        BegunStays(front, a, got[i].0, got[i].1);
      }
    }
  }

  lemma BegunStays(front: seq<Action>, a: Action, p: nat, op: Op)
    requires BegunBy(front, p, op)
    ensures BegunBy(front + [a], p, op)
    ensures forall acts :: acts == front + [a] ==> BegunBy(acts, p, op)
  {
    var j :| 0 <= j < |front| && front[j] == Begin(p, op);
    assert (front + [a])[j] == Begin(p, op);
  }

  // ---------------------------------------------------------------------
  // Theorems about every interleaving
  // ---------------------------------------------------------------------

  /**
   * Whatever N interleaved processes do, crashing, failing and making good, one run of the operations that got the
   * lock, in that order and each begun by its process, leaves the same link, state.json and versions/.
   */
  lemma InterleavingsAreSerializable(w: World, acts: seq<Action>) returns (es: seq<Event>)
    requires PossibleTrace(w, acts)
    ensures PossibleRun(w, EMPTY, es) && SameInstallation(Reached(w, acts).disk, After(w, EMPTY, es))
    ensures Names(es, Acquired(w, acts))
    ensures forall i :: 0 <= i < |Acquired(w, acts)| ==> BegunBy(acts, Acquired(w, acts)[i].0, Acquired(w, acts)[i].1)
  {
    WantedWasBegun(w, acts);
    var base;
    es, base := TraceIsExplained(w, acts);
    hide Reached, Acquired, PossibleTrace, PossibleRun, After;
    if Reached(w, acts).holder.Some? {
      es := LeavingIsExplained(w, Reached(w, acts), Acquired(w, acts), es, base);
    }
  }

  lemma InterleavingsKeepInv(w: World, acts: seq<Action>)
    requires !w.valid("") && PossibleTrace(w, acts)
    ensures Inv(w, Reached(w, acts).disk)
  {
    hide Reached, Acquired, PossibleTrace, PossibleRun, After, Inv;
    var es := InterleavingsAreSerializable(w, acts);
    EveryRunKeepsInv(w, es);
    SameInstallationKeepsInv(w, Reached(w, acts).disk, After(w, EMPTY, es));
  }

  /** At most one process is between prepareRoot and unlock, and no other process can change the disk. */
  lemma OnlyTheHolderActs(w: World, acts: seq<Action>, a: Action)
    requires PossibleTrace(w, acts) && Can(w, Reached(w, acts), a)
    ensures
      var s := Reached(w, acts);
      && (forall p: nat, q: nat :: Holding(s, p) && Holding(s, q) ==> p == q)
      && (forall p: nat :: Holding(s, p) && a.p != p ==>
          Next(w, s, a).disk == s.disk && At(Next(w, s, a), p) == At(s, p))
      && (a.TryLock? ==>
            && Next(w, s, a).disk == s.disk
            && if exists p: nat :: Holding(s, p) then At(Next(w, s, a), a.p).Out? else Holding(Next(w, s, a), a.p))
  {
    var s := Reached(w, acts);
    var es, base := TraceIsExplained(w, acts);
    hide InProgress, PossibleRun, After, Apply, Reached, Acquired, Decide, Steps;
    forall p: nat | Holding(s, p) ensures s.holder == Some(p) {}
    if a.Sweep? || a.Call? || a.Undo? { WorkerHolds(w, s, a.p); }
  }

  /** A process whose next call fails where the source makes good, and the two actions that do it. */
  ghost predicate MakesGood(w: World, s: System, p: nat, after: System) {
    && Can(w, s, Fail(p)) && Can(w, Next(w, s, Fail(p)), Undo(p))
    && after == Next(w, Next(w, s, Fail(p)), Undo(p))
  }

  lemma MakingGood(w: World, s: System, p: nat) returns (after: System)
    requires At(s, p).Working? && At(s, p).done < |Steps(w, At(s, p).seen, At(s, p).op)|
    requires UndoOf(At(s, p).seen, Steps(w, At(s, p).seen, At(s, p).op)[At(s, p).done]).Some?
    ensures MakesGood(w, s, p, after)
    ensures
      var l := At(s, p);
      after.disk == Apply(s.disk, UndoOf(l.seen, Steps(w, l.seen, l.op)[l.done]).value)
  {
    hide Steps, Apply, UndoOf, Decide, Feasible;
    after := Next(w, Next(w, s, Fail(p)), Undo(p));
  }

  /**
   * In every interleaving: when the rename of current.new fails, it is removed; when the second rename fails, the
   * version that was set aside is back as the operation found it. Nothing else changes.
   */
  lemma FailedRenamesAreMadeGood(w: World, acts: seq<Action>, p: nat) returns (after: System)
    requires PossibleTrace(w, acts) && At(Reached(w, acts), p).Working?
    requires
      var l := At(Reached(w, acts), p);
      l.done < |Steps(w, l.seen, l.op)| &&
      var step := Steps(w, l.seen, l.op)[l.done];
      step.RenameNext? || (step.Publish? && step.v in l.seen.versions)
    ensures
      var s := Reached(w, acts);
      var l := At(s, p);
      && MakesGood(w, s, p, after)
      && (if Steps(w, l.seen, l.op)[l.done].RenameNext? then after.disk == s.disk.(next := None)
          else SameInstallation(after.disk, s.disk.(versions := l.seen.versions)))
  {
    hide Reached, Acquired, PossibleTrace, Steps, Decide, InProgress, Feasible, Can, Next, MakesGood, Locked, Apply, At;
    var base := WorkerIsOnTheWay(w, acts, p);
    var s := Reached(w, acts);
    after := MakingGood(w, s, p);
    RemovingNext(s.disk);
    if Steps(w, At(s, p).seen, At(s, p).op)[At(s, p).done].Publish? {
      SeenIsBase(w, s.disk, At(s, p), base);
      PutBackIsComplete(w, s.disk, At(s, p), base);
    }
  }

  lemma WorkerIsOnTheWay(w: World, acts: seq<Action>, p: nat) returns (base: Disk)
    requires PossibleTrace(w, acts) && At(Reached(w, acts), p).Working?
    ensures InProgress(w, Reached(w, acts).disk, At(Reached(w, acts), p), base)
  {
    var es;
    es, base := TraceIsExplained(w, acts);
    hide Reached, Acquired, PossibleTrace, PossibleRun, After, InProgress;
    WorkerHolds(w, Reached(w, acts), p);
  }

  lemma RemovingNext(d: Disk)
    ensures Apply(d, RemoveNext) == d.(next := None)
  {
  }

  lemma SeenIsBase(w: World, disk: Disk, l: Local, base: Disk)
    requires l.Working? && InProgress(w, disk, l, base)
    ensures SameInstallation(l.seen, base)
  {
  }

  /** The state an operation derives from the one it read. */
  function Successor(w: World, s: State, op: Op): State {
    match op
    case Install(version, _, keep, now, _, _, binary, _, _, _) => Pruned(Recorded(w, s, version, binary, now), keep)
    case Rollback(_) => Swapped(s)
  }

  lemma DecidedState(w: World, d: Disk, op: Op)
    requires Commits(w, d, op)
    ensures ReadState(w, d.stateFile).Ok?
    ensures Decide(w, d, op).state == Successor(w, Stored(w, d), op)
  {
  }

  /** One call of a plan either leaves state.json alone or replaces it by the successor of what it holds. */
  lemma CallReplacesState(w: World, d: Disk, op: Op, i: nat)
    requires Inv(w, d) && Feasible(w, d, op) && i < |Steps(w, d, op)|
    ensures
      var before, after := Run(d, Steps(w, d, op)[..i]), Run(d, Steps(w, d, op)[..i + 1]);
      after.stateFile != before.stateFile ==>
        && before.stateFile == d.stateFile
        && after.stateFile == Saved(STATE_SCHEMA, Successor(w, Stored(w, d), op))
  {
    DiskAtCut(w, d, op, i);
    DiskAtCut(w, d, op, i + 1);
    if Commits(w, d, op) { DecidedState(w, d, op); }
  }

  lemma WorkingCallReplacesState(w: World, disk: Disk, l: Local, base: Disk)
    requires Inv(w, base) && l.Working? && InProgress(w, disk, l, base) && l.done < |Steps(w, l.seen, l.op)|
    ensures
      var after := Apply(disk, Steps(w, l.seen, l.op)[l.done]);
      after.stateFile != disk.stateFile ==>
        && disk.stateFile == base.stateFile
        && after.stateFile == Saved(STATE_SCHEMA, Successor(w, Stored(w, base), l.op))
  {
    hide Steps, Decide, Apply, Run;
    RunExtends(base, Steps(w, base, l.op), l.done);
    CallReplacesState(w, base, l.op, l.done);
  }

  /** Neither clearing staging/ nor making good a failed call touches state.json. */
  lemma SmallStepsKeepState(d: Disk, step: Step)
    requires step.DropStaged? || step.RemoveStaging? || step.MakeStaging? || step.PutBack? || step.RemoveNext?
    ensures Apply(d, step).stateFile == d.stateFile
  {
  }

  /** No lost update: state.json is only ever replaced by a successor of what it holds at that moment. */
  lemma CommitsBuildOnTheLatestState(w: World, acts: seq<Action>, a: Action)
    requires !w.valid("") && PossibleTrace(w, acts) && Can(w, Reached(w, acts), a)
    ensures
      var s := Reached(w, acts);
      var t := Next(w, s, a);
      && ReadState(w, s.disk.stateFile).Ok?
      && (t.disk.stateFile != s.disk.stateFile ==>
            && a.Call? && s.holder == Some(a.p) && At(s, a.p).Working?
            && t.disk.stateFile == Saved(STATE_SCHEMA, Successor(w, Stored(w, s.disk), At(s, a.p).op)))
  {
    hide Apply, Reached, Acquired, Decide, Steps, Inv, InProgress, Successor, ReadState, Explains, PossibleTrace,
        Locked;
    var s := Reached(w, acts);
    InterleavingsKeepInv(w, acts);
    InvReads(w, s.disk);
    var es, base := TraceIsExplained(w, acts);
    ExplainedBaseIsOk(w, s, Acquired(w, acts), es, base);
    OnlyCallsReplaceState(w, s, a);
    if a.Call? {
      WorkerHolds(w, s, a.p);
      WorkingCallReplacesState(w, s.disk, At(s, a.p), base);
    }
  }

  lemma OnlyCallsReplaceState(w: World, s: System, a: Action)
    requires Can(w, s, a)
    ensures Next(w, s, a).disk.stateFile != s.disk.stateFile ==> a.Call?
  {
    hide Apply, Steps, Decide, Listing;
    if a.Sweep? {
      SmallStepsKeepState(s.disk, Prepare(At(s, a.p).op.sweep)[At(s, a.p).done]);
    } else if a.Undo? {
      SmallStepsKeepState(s.disk, UndoStep(w, At(s, a.p)).value);
    }
  }

  lemma ExplainedBaseIsOk(w: World, s: System, got: seq<(nat, Op)>, es: seq<Event>, base: Disk)
    requires !w.valid("") && Explains(w, s, got, es, base)
    ensures Inv(w, base) && Locked(w, s)
    ensures s.holder.Some? ==> InProgress(w, s.disk, At(s, s.holder.value), base)
  {
    EveryRunKeepsInv(w, es);
    SameInstallationKeepsInv(w, base, After(w, EMPTY, es));
    hide PossibleRun, After, Inv, InProgress, Names;
  }
}
