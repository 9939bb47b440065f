// install, rollback and status as the source runs them: one file-system call after another, any of which
// may fail (internal/provision/provision.go and store.go).
module Provisioner {
  import opened Common
  import opened Prune
  import opened Disk
  import opened Plans
  import opened CrashSafety
  import opened Concurrency
  import opened Outcomes

  class Root {
    var disk: Disk
    var calls: nat
    const faulty: nat -> bool // which calls the operating system fails
    ghost var start: Disk     // the disk at the beginning of the operation
    ghost var log: seq<Step>  // the calls that took effect since

    constructor (d: Disk, faulty: nat -> bool)
      ensures disk == d && start == d && log == [] && Valid() && this.faulty == faulty
    {
      disk, start, log, calls := d, d, [], 0;
      this.faulty := faulty;
    }

    ghost predicate Valid()
      reads this
    {
      disk == Run(start, log) && Runs(start, log)
    }

    ghost predicate Reliable() {
      forall i :: !faulty(i)
    }

    /** One file-system call. */
    method Do(step: Step) returns (ok: bool)
      requires Valid()
      modifies this
      ensures Valid() && start == old(start) && calls == old(calls) + 1
      ensures ok <==> Enabled(old(disk), step) && !faulty(old(calls))
      ensures !ok ==> disk == old(disk)
      ensures log == if ok then old(log) + [step] else old(log)
    {
      ok := Enabled(disk, step) && !faulty(calls);
      calls := calls + 1;
      if ok {
        RunConcat(start, log, [step]);
        RunOne(disk, step);
        disk := Apply(disk, step);
        log := log + [step];
      }
    }

    /** fsync of a directory: may fail, changes nothing in the process-crash model. */
    method Sync() returns (ok: bool)
      modifies this`calls
      ensures calls == old(calls) + 1 && (ok <==> !faulty(old(calls)))
    {
      ok := !faulty(calls);
      calls := calls + 1;
    }

    /** A call the source does not make because it would change nothing. */
    ghost method Skip(step: Step)
      requires Valid() && Enabled(disk, step) && Apply(disk, step) == disk
      modifies this`log
      ensures Valid() && log == old(log) + [step]
    {
      RunConcat(start, log, [step]);
      RunOne(disk, step);
      log := log + [step];
    }

    /** os.RemoveAll on staging/, entry by entry in directory order. */
    method ClearStaging() returns (ok: bool, ghost sweep: seq<string>)
      requires Valid() && log == [] && start == disk
      modifies this
      ensures Valid() && start == old(start)
      ensures Listing(sweep, Staged(start))
      ensures log <= DropEach(sweep) && (ok ==> log == DropEach(sweep))
      ensures Reliable() ==> ok
    {
      ok := true;
      var todo := Staged(disk);
      ghost var all, done: seq<string> := todo, [];
      assert Listing(done, all - todo);
      hide Run, Runs, Apply, Listing, Staged;
      while ok && todo != {}
        invariant Valid() && start == old(start)
        invariant todo <= all && Listing(done, all - todo)
        invariant log == DropEach(done)
        invariant Reliable() ==> ok
        decreases |todo|, ok
      {
        var name :| name in todo;
        ok := Do(DropStaged(name));
        if ok {
          todo, done := todo - {name}, done + [name];
        }
      }
      sweep := SweepRest(done, all, todo);
    }

    /** prepareRoot after the lock: clear and recreate staging/. */
    method PrepareRoot() returns (ok: bool, ghost sweep: seq<string>)
      requires Valid() && log == [] && start == disk
      modifies this
      ensures Valid() && start == old(start)
      ensures Listing(sweep, Staged(start))
      ensures log <= Prepare(sweep) && (ok ==> log == Prepare(sweep))
      ensures Reliable() ==> ok
    {
      ok, sweep := ClearStaging();
      if !ok { return; }
      PrepareRun(start, sweep);
      SweepLeavesNothing(start, sweep);
      ok := Do(RemoveStaging);
      if !ok { return; }
      ok := Do(MakeStaging);
    }

    /** Makes current.new point at v, after trying to remove a stale one. */
    method LinkNew(v: string) returns (ok: bool, ghost j: nat)
      requires Valid()
      modifies this
      ensures Valid() && start == old(start) && j <= 2
      ensures log == old(log) + [RemoveNext, LinkNext(v)][..j] && (ok ==> j == 2)
      ensures Reliable() && Runs(start, old(log) + [RemoveNext, LinkNext(v)]) ==> ok
    {
      StepByStep(start, log, [RemoveNext, LinkNext(v)]);
      hide Run, Runs, Apply;
      j := 0;
      var removed := Do(RemoveNext);
      if !removed && disk.next.None? {
        RemovingNothing(disk);
        Skip(RemoveNext);
        removed := true;
      }
      if removed { j := 1; }
      ok := Do(LinkNext(v));
      if ok { j := 2; }
    }

    /** Renames current.new over current; when that fails, removes it again. */
    method RenameNew() returns (ok: bool)
      requires Valid()
      modifies this
      ensures Valid() && start == old(start)
      ensures ok ==> log == old(log) + [RenameNext]
      ensures SameInstallation(disk, Run(start, if ok then old(log) + [RenameNext] else old(log)))
      ensures Reliable() && Enabled(old(disk), RenameNext) ==> ok
    {
      hide Run, Runs, Apply;
      ok := Do(RenameNext);
      if !ok {
        RemoveNextKeepsInstallation(start, log);
        var _ := Do(RemoveNext);
      }
    }

    /** activate: point current at v through current.new. */
    method Activate(v: string) returns (ok: bool, ghost j: nat)
      requires Valid()
      modifies this
      ensures Valid() && start == old(start) && j <= 3
      ensures ok ==> j == 3 && log == old(log) + ActivateCalls(v)
      ensures SameInstallation(disk, Run(start, old(log) + ActivateCalls(v)[..j]))
      ensures Reliable() ==> ok
    {
      ghost var base, calls := log, ActivateCalls(v);
      ActivateRuns(start, log, v);
      hide Run, Runs, Apply, Enabled, ActivateCalls;
      ok, j := LinkNew(v);
      if !ok { return; }
      ok := RenameNew();
      if !ok { return; }
      j := 3;
      ok := Sync();
    }

    /** writeState: write a temporary file, then rename it over state.json. */
    method WriteState(s: State) returns (ok: bool, ghost j: nat)
      requires Valid()
      modifies this
      ensures Valid() && start == old(start) && j <= 3
      ensures ok ==> j == 3
      ensures log == old(log) + WriteStateCalls(s)[..j]
      ensures Reliable() ==> ok
    {
      WriteStateRun(disk, s, 3);
      RunConcat(start, log, WriteStateCalls(s));
      StepByStep(start, log, WriteStateCalls(s));
      j := 0;
      ok := Do(CreateTemp);
      if !ok { return; }
      j := 1;
      ok := Do(FillTemp(s));
      if !ok { return; }
      j := 2;
      ok := Do(RenameTemp);
      if !ok { return; }
      j := 3;
      ok := Sync();
    }

    /** os.RemoveAll on versions/v: the binary, then the directory. */
    method RemoveVersion(v: string) returns (ok: bool, ghost j: nat)
      requires Valid()
      modifies this
      ensures Valid() && start == old(start) && j <= 2
      ensures log == old(log) + [DropBinary(v), DropFolder(v)][..j] && (ok ==> j == 2)
      ensures Reliable() ==> ok
    {
      StepByStep(start, log, [DropBinary(v), DropFolder(v)]);
      RemovalRuns(start, log, v);
      j := 0;
      ok := Do(DropBinary(v));
      if !ok { return; }
      j := 1;
      ok := Do(DropFolder(v));
      if ok { j := 2; }
    }

    /** removePruned. */
    method RemovePruned(removed: seq<string>) returns (ok: bool, ghost j: nat)
      requires Valid()
      modifies this
      ensures Valid() && start == old(start) && j <= 2 * |removed|
      ensures log == old(log) + Drops(removed)[..j] && (ok ==> j == 2 * |removed|)
      ensures Reliable() ==> ok
    {
      j := 0;
      var i := 0;
      while i < |removed|
        invariant 0 <= i <= |removed| && j == 2 * i
        invariant Valid() && start == old(start)
        invariant log == old(log) + Drops(removed)[..2 * i]
      {
        ghost var m;
        ok, m := RemoveVersion(removed[i]);
        DropsGrow(old(log), removed, i, m);
        j := 2 * i + m;
        if !ok { return; }
        i := i + 1;
      }
      ok := true;
      if |removed| > 0 {
        ok := Sync();
      }
    }

    /** mkdir of the candidate directory and the move of the staged binary into it. */
    method FillCandidate() returns (ok: bool, ghost j: nat)
      requires Valid()
      modifies this
      ensures Valid() && start == old(start) && j <= 2
      ensures log == old(log) + [MakeCandidate, MoveBinary][..j] && (ok ==> j == 2)
      ensures Reliable() && Runs(start, old(log) + [MakeCandidate, MoveBinary]) ==> ok
    {
      StepByStep(start, log, [MakeCandidate, MoveBinary]);
      j := 0;
      ok := Do(MakeCandidate);
      if !ok { return; }
      j := 1;
      ok := Do(MoveBinary);
      if ok { j := 2; }
    }

    /** The first rename under versions/: sets an installed version aside, and leaves a new one alone. */
    method SetOldAside(v: string) returns (ok: bool, existed: bool)
      requires Valid() && disk.staging.Some?
      modifies this
      ensures Valid() && start == old(start) && existed == (v in old(disk).versions)
      ensures log == if ok then old(log) + [SetAside(v)] else old(log)
      ensures Reliable() && Enabled(old(disk), SetAside(v)) ==> ok
    {
      existed := v in disk.versions;
      ok := true;
      if existed {
        ok := Do(SetAside(v));
      } else {
        Skip(SetAside(v));
      }
    }

    /** Puts a set-aside version back, if that call succeeds. */
    method TryPutBack(v: string, ghost base: seq<Step>) returns (restored: bool)
      requires Valid() && log == base + [SetAside(v)] && v in Run(start, base).versions
      modifies this
      ensures Valid() && start == old(start)
      ensures SameInstallation(disk, Run(start, if restored then base else base + [SetAside(v)]))
    {
      PuttingBack(start, base, v);
      hide Run, Runs, Apply;
      restored := Do(PutBack(v));
    }

    /** The two renames under versions/, with the set-aside version put back if the second fails. */
    method SwapIn(v: string) returns (ok: bool, ghost j: nat)
      requires Valid() && disk.staging.Some?
      modifies this
      ensures Valid() && start == old(start) && j <= 2
      ensures ok ==> j == 2 && log == old(log) + [SetAside(v), Publish(v)]
      ensures SameInstallation(disk, Run(start, old(log) + [SetAside(v), Publish(v)][..j]))
      ensures Reliable() && Runs(start, old(log) + [SetAside(v), Publish(v)]) ==> ok
    {
      ghost var base, steps := log, [SetAside(v), Publish(v)];
      StepByStep(start, log, steps);
      assert steps[..1] == [SetAside(v)] && steps[..2] == steps;
      hide Run, Runs, Apply, Enabled;
      j := 0;
      var existed;
      ok, existed := SetOldAside(v);
      if !ok {
        assert base + steps[..0] == base;
        return;
      }
      j := 1;
      ok := Do(Publish(v));
      if !ok {
        assert log == base + steps[..1];
        if existed {
          var restored := TryPutBack(v, base);
          if restored {
            assert base + steps[..0] == base;
            j := 0;
          }
        }
        return;
      }
      j := 2;
      ok := Sync();
    }

    /** cleanStaging: remove what is left in staging/; failures are only logged. */
    method CleanStaging()
      requires Valid()
      modifies this
      ensures Valid() && start == old(start)
      ensures SameInstallation(disk, old(disk))
      ensures Reliable() && disk.staging.Some? ==> disk.staging == Some(map[])
    {
      var todo := Staged(disk);
      ghost var had := disk.staging.Some?;
      while todo != {}
        invariant Valid() && start == old(start) && SameInstallation(disk, old(disk))
        invariant disk.staging.Some? == had
        invariant Reliable() ==> Staged(disk) <= todo
        decreases |todo|
      {
        var name :| name in todo;
        DroppingStaged(start, log, name);
        var _ := Do(DropStaged(name));
        todo := todo - {name};
      }
    }

    /** commitInstall up to activate: place the staged binary and switch the link to it. */
    method PlaceAndActivate(version: string, ghost op: Op) returns (ok: bool, ghost k: nat)
      requires Valid() && Placeable(op) && op.version == version && Listing(op.sweep, Staged(start))
      requires log == Prepare(op.sweep) + Deliver(op)
      modifies this
      ensures Valid() && start == old(start)
      ensures k <= |Activation(op)| && SameInstallation(disk, Run(start, Activation(op)[..k]))
      ensures ok ==> k == |Activation(op)| && log == Activation(op)
      ensures Reliable() ==> ok
    {
      hide Run, Runs, Apply, Activation, Prepare, Deliver, ActivateCalls, Listing;
      ghost var all := Activation(op);
      ghost var a, b, c := log, Groundwork(op), Groundwork(op) + [SetAside(version), Publish(version)];
      ghost var j;
      ActivationSplits(start, op);
      ok, j := FillCandidate();
      Partway(all, a, [MakeCandidate, MoveBinary], j);
      k := |a| + j;
      if !ok { return; }
      assert log == b;
      ok, j := SwapIn(version);
      Partway(all, b, [SetAside(version), Publish(version)], j);
      k := |b| + j;
      if !ok { return; }
      assert log == c;
      ok, j := Activate(version);
      Partway(all, c, ActivateCalls(version), j);
      k := |c| + j;
    }

    /** commitInstall from the state.json write on: record s, prune, tidy up. */
    method RecordAndPrune(s: State, removed: seq<string>, ghost op: Op) returns (ok: bool, ghost k: nat)
      requires Valid() && op.Install? && log == Activation(op)
      modifies this
      ensures Valid() && start == old(start)
      ensures
        var all := CommitPlan(op, s, removed);
        k <= |all| && SameInstallation(disk, Run(start, all[..k])) && (ok ==> k == |all|)
      ensures Reliable() ==> ok
    {
      hide Run, Runs, Apply, Activation, Drops, CommitPlan;
      ghost var all := CommitPlan(op, s, removed);
      ghost var j;
      PlanSplits(start, op, s, removed);
      ok, j := WriteState(s);
      Partway(all, old(log), WriteStateCalls(s), j);
      k := |old(log)| + j;
      if !ok { return; }
      ghost var base := log;
      ok, j := RemovePruned(removed);
      Partway(all, base, Drops(removed), j);
      k := |base| + j;
      if !ok { return; }
      assert log == base + Drops(removed);
      Tidy();
      k := |all|;
    }

    /** The removal of the set-aside version and cleanStaging, whose errors are ignored. */
    method Tidy()
      requires Valid()
      modifies this
      ensures Valid() && start == old(start)
      ensures SameInstallation(disk, old(disk))
      ensures Reliable() && disk.staging.Some? ==> disk.staging == Some(map[])
    {
      DroppingStaged(start, log, BACKUP);
      var _ := Do(DropStaged(BACKUP));
      CleanStaging();
    }

    /** commitInstall. */
    method CommitInstall(w: World, record: StateRecord, wish: Op, digest: string, ghost op: Op)
      returns (ok: bool, ghost removed: seq<string>, ghost k: nat)
      requires Valid() && Placeable(op) && Listing(op.sweep, Staged(start))
      requires wish.Install? && op == wish.(sweep := op.sweep, removed := op.removed)
      requires log == Prepare(op.sweep) + Deliver(op) && digest == w.digest(op.binary)
      modifies this, record
      ensures Valid() && start == old(start)
      ensures
        var recorded := Recorded(w, old(record.Value()), op.version, op.binary, op.now);
        var all := CommitPlan(op, Pruned(recorded, op.keep), removed);
        && Listing(removed, recorded.versions.Keys - Survivors(recorded, op.keep))
        && k <= |all| && SameInstallation(disk, Run(start, all[..k]))
        && (ok ==> k == |all| && record.Value() == Pruned(recorded, op.keep))
      ensures ok && op.version != "" && WellRecorded(old(record.Value())) ==>
                Follows(w, old(record.Value()), record.Value(), op.version, op.binary, op.now, op.keep)
      ensures Reliable() ==> ok
    {
      hide Follows, Pruned, Survivors, CommitPlan, WellRecorded, Run, Runs, Listing;
      ghost var recorded := Recorded(w, record.Value(), op.version, op.binary, op.now);
      if op.version != "" && WellRecorded(record.Value()) {
        CommittedRecordFollows(w, record.Value(), op.version, op.binary, op.now, op.keep);
      }
      ok, k := PlaceAndActivate(wish.version, op);
      if !ok {
        removed := ListingExists(recorded.versions.Keys - Survivors(recorded, op.keep));
        ActivationIsPrefix(op, Pruned(recorded, op.keep), removed, k);
        return;
      }
      if record.current != "" && record.current != wish.version {
        record.previous := record.current;
      }
      record.current := wish.version;
      record.versions := record.versions[wish.version := VersionInfo(digest, wish.now)];
      var names := record.PlanPrune(wish.keep);
      removed := names;
      ok, k := RecordAndPrune(record.Value(), names, op);
    }

    /** fetchRelease and extractBinary: two files in staging/. */
    method StageDelivery(op: Op) returns (ok: bool, ghost j: nat)
      requires Valid() && Placeable(op) && Runs(start, log + Deliver(op))
      modifies this
      ensures Valid() && start == old(start) && j <= 2
      ensures log == old(log) + Deliver(op)[..j] && (ok ==> j == 2)
      ensures Reliable() ==> ok
    {
      StepByStep(start, log, Deliver(op));
      j := 0;
      ok := Do(WriteArchive(op.archive, op.package));
      if !ok { return; }
      j := 1;
      ok := Do(WriteBinary(op.binary));
      if ok { j := 2; }
    }

    /**
     * install and update. wish carries the request and what delivery will produce; the answer is the same
     * operation with the orders that were actually met, and how many of its calls the root ends up with.
     */
    method Install(w: World, wish: Op, digest: string) returns (ok: bool, ghost op: Op, ghost k: nat)
      requires Valid() && log == [] && start == disk
      requires Placeable(wish) && (wish.approved ==> w.vetted(wish.version, wish.binary))
      requires digest == w.digest(wish.binary)
      modifies this
      ensures op.Install? && op == wish.(sweep := op.sweep, removed := op.removed)
      ensures Feasible(w, old(disk), op) && k <= |Steps(w, old(disk), op)|
      ensures SameInstallation(disk, Cut(w, old(disk), op, k))
      ensures ok ==> Commits(w, old(disk), op) && k == |Steps(w, old(disk), op)|
      ensures ok && !w.valid("") ==>
                && Readable(w, old(disk)) && Readable(w, disk)
                && Installed(w, old(disk), disk, wish.version, wish.binary, wish.now, wish.keep)
      ensures Reliable() && Commits(w, old(disk), op) ==> ok
    {
      var state;
      ghost var sweep;
      state, sweep := Begin(w, wish.version, wish.update);
      op := WithSomeRemovals(w, start, wish.(sweep := sweep));
      k := |log|;
      BeginIsPrefix(w, start, op, log);
      if state.None? { return false, op, k; }
      ok, op, k := DeliverAndCommit(w, wish, state.value, digest, op);
      if ok && !w.valid("") { CompletedInstall(w, start, disk, op, k); }
    }

    /** install up to the version check: nothing is downloaded for a change that is refused. */
    method Begin(w: World, version: string, update: bool) returns (state: Option<State>, ghost sweep: seq<string>)
      requires Valid() && log == [] && start == disk
      modifies this
      ensures Valid() && start == old(start) && Listing(sweep, Staged(start))
      ensures log <= Prepare(sweep) && (!w.valid(version) ==> log == [])
      ensures SameInstallation(disk, start)
      ensures state.Some? ==>
                && log == Prepare(sweep) && Allowed(w, start, version, update)
                && Ok(state.value) == ReadState(w, start.stateFile)
      ensures Reliable() && Allowed(w, start, version, update) ==> state.Some?
    {
      if !w.valid(version) {
        sweep := ListingExists(Staged(disk));
        return None, sweep;
      }
      var ready;
      ready, sweep := PrepareRoot();
      PrepareKeepsInstallation(start, sweep, log);
      if !ready { return None, sweep; }
      PrepareRun(start, sweep);
      var read := ReadState(w, disk.stateFile);
      if read.Err? || !VersionChangeAllowed(w, read.value.current, version, update) { return None, sweep; }
      state := Some(read.value);
    }

    /** install from the download on. */
    method DeliverAndCommit(w: World, wish: Op, state: State, digest: string, ghost given: Op)
      returns (ok: bool, ghost op: Op, ghost k: nat)
      requires Valid() && Placeable(wish) && given.Install?
               && given == wish.(sweep := given.sweep, removed := given.removed)
      requires Feasible(w, start, given) && w.valid(wish.version) && digest == w.digest(wish.binary)
      requires ReadState(w, start.stateFile) == Ok(state)
      requires VersionChangeAllowed(w, state.current, wish.version, wish.update)
      requires log == Prepare(given.sweep)
      modifies this
      ensures op.Install? && op == wish.(sweep := op.sweep, removed := op.removed)
      ensures Feasible(w, start, op) && k <= |Steps(w, start, op)| && start == old(start)
      ensures SameInstallation(disk, Run(start, Steps(w, start, op)[..k]))
      ensures ok ==> Commits(w, start, op) && k == |Steps(w, start, op)|
      ensures Reliable() && wish.approved ==> ok
    {
      ghost var j;
      op := given;
      assert Deliver(op) == Deliver(wish) && |Deliver(op)| == 2 && Deliver(op)[..2] == Deliver(op);
      hide Run, Runs, Apply, Prepare, Deliver, Listing, Enabled, Steps;
      DeliveryFollows(w, start, op);
      ok, j := StageDelivery(wish);
      Partway(Steps(w, start, op), Prepare(op.sweep), Deliver(op), j);
      k := |Prepare(op.sweep)| + j;
      if !ok { return; }
      if !wish.approved { ok := false; return; }
      assert log == Prepare(op.sweep) + Deliver(op);
      var record := new StateRecord(state);
      ghost var removed;
      ok, removed, k := CommitInstall(w, record, wish, digest, op);
      CommitPlanIsSteps(w, start, op, removed);
      RemovalOrderFits(w, start, op, removed);
      op := WithRemoved(op, removed);
    }

    /** Rollback. */
    method Rollback(w: World) returns (ok: bool, ghost op: Op, ghost k: nat)
      requires Valid() && log == [] && start == disk
      modifies this
      ensures op.Rollback? && Feasible(w, old(disk), op) && k <= |Steps(w, old(disk), op)|
      ensures SameInstallation(disk, Cut(w, old(disk), op, k))
      ensures ok ==> Commits(w, old(disk), op) && k == |Steps(w, old(disk), op)|
      ensures ok ==> Readable(w, old(disk)) && Readable(w, disk) && RolledBack(w, old(disk), disk)
      ensures !Restorable(w, old(disk)) ==> !ok && SameInstallation(disk, old(disk))
      ensures Reliable() && Restorable(w, old(disk)) ==> ok
    {
      hide Run, Runs, Apply, Prepare, Listing, ActivateCalls, WriteStateCalls;
      ok := false;
      var ready: bool;
      ghost var sweep;
      ready, sweep := PrepareRoot();
      op := Op.Rollback(sweep);
      k := |log|;
      PrepareOnly(w, start, op, log);
      PrepareKeepsInstallation(start, sweep, log);
      RollbackCommitsIff(w, start, op);
      if !ready { return; }
      PrepareRun(start, sweep);
      var read := ReadState(w, disk.stateFile);
      if read.Err? || !RollbackAllowed(w, disk, read.value) { return; }
      ok, k := CommitRollback(w, read.value, op);
      if ok { CompletedRollback(w, start, disk, op, k); }
    }

    /** activate and writeState, the rest of the calls planned. */
    method SwitchTo(s: State, ghost all: seq<Step>) returns (ok: bool, ghost k: nat)
      requires Valid() && log + ActivateCalls(s.current) <= all
      requires log + ActivateCalls(s.current) + WriteStateCalls(s) == all
      modifies this
      ensures Valid() && start == old(start) && k <= |all|
      ensures SameInstallation(disk, Run(start, all[..k]))
      ensures ok ==> k == |all|
      ensures Reliable() ==> ok
    {
      hide Run, Runs, Apply, ActivateCalls, WriteStateCalls;
      ghost var base, j := log, 0;
      ok, j := Activate(s.current);
      Partway(all, base, ActivateCalls(s.current), j);
      k := |base| + j;
      if !ok { return; }
      base := log;
      ok, j := WriteState(s);
      Partway(all, base, WriteStateCalls(s), j);
      k := |base| + j;
    }

    /** Rollback from the swap of current and previous on. */
    method CommitRollback(w: World, state: State, ghost op: Op) returns (ok: bool, ghost k: nat)
      requires Valid() && op.Rollback? && Commits(w, start, op) && log == Prepare(op.sweep)
      requires Ok(state) == ReadState(w, start.stateFile)
      modifies this
      ensures Valid() && start == old(start) && k <= |Steps(w, start, op)|
      ensures SameInstallation(disk, Run(start, Steps(w, start, op)[..k]))
      ensures ok ==> k == |Steps(w, start, op)|
      ensures Reliable() ==> ok
    {
      RollbackSplits(w, start, op);
      hide Run, Runs, Apply, Prepare, ActivateCalls, WriteStateCalls, Steps, Decide, ReadState, Commits;
      var record := new StateRecord(state);
      record.current, record.previous := record.previous, record.current;
      ok, k := SwitchTo(record.Value(), Steps(w, start, op));
      if ok { CleanStaging(); }
    }

    /** Status: reads state.json, then without a lock the binary behind the link of a root that may have moved on. */
    method ReportStatus(w: World, later: Root) returns (r: Result<Report, ReadError>)
      ensures r == Status(w, disk, later.disk)
    {
      var read := ReadState(w, disk.stateFile);
      if read.Err? { return Err(read.error); }
      var s := read.value;
      var drift := false;
      if s.current != "" {
        drift := later.disk.link.None? || !HasBinary(later.disk, later.disk.link.value) || s.current !in s.versions;
        if !drift {
          drift := w.digest(later.disk.versions[later.disk.link.value].value) != s.versions[s.current].sha256;
        }
      }
      r := Ok(Report(s.current, s.previous, s.versions, drift));
    }
  }

  /** A previous version is recorded and its binary is genuine. */
  predicate Restorable(w: World, d: Disk) {
    && Readable(w, d) && Stored(w, d).previous != ""
    && Genuine(w, Stored(w, d), d, Stored(w, d).previous)
  }

  lemma CompletedInstall(w: World, before: Disk, after: Disk, op: Op, k: nat)
    requires !w.valid("") && op.Install? && Feasible(w, before, op) && Commits(w, before, op)
    requires k == |Steps(w, before, op)| && SameInstallation(after, Cut(w, before, op, k))
    ensures Readable(w, before) && Readable(w, after)
    ensures Installed(w, before, after, op.version, op.binary, op.now, op.keep)
  {
    InstallCommitsIff(w, before, op);
    BackIsDrops(w, before, op);
    hide Steps, Cut, Decide, Feasible, ReadState, Commits;
    InstallOutcome(w, before, op, k);
  }

  lemma CompletedRollback(w: World, before: Disk, after: Disk, op: Op, k: nat)
    requires op.Rollback? && Feasible(w, before, op) && Commits(w, before, op)
    requires k == |Steps(w, before, op)| && SameInstallation(after, Cut(w, before, op, k))
    ensures Readable(w, before) && Readable(w, after) && RolledBack(w, before, after)
  {
    RollbackCommitsIff(w, before, op);
    hide Steps, Cut, Decide, Feasible, ReadState, Commits;
    RollbackOutcome(w, before, op, k);
  }

  /** The version is well formed and the recorded state allows the change. */
  predicate Allowed(w: World, d: Disk, version: string, update: bool) {
    && w.valid(version) && ReadState(w, d.stateFile).Ok?
    && VersionChangeAllowed(w, ReadState(w, d.stateFile).value.current, version, update)
  }

  lemma PrepareKeepsInstallation(d: Disk, sweep: seq<string>, log: seq<Step>)
    requires log <= Prepare(sweep)
    ensures SameInstallation(Run(d, log), d)
  {
    forall s | s in log ensures Quiet(s) {
      var i :| 0 <= i < |log| && log[i] == s;
      assert Prepare(sweep)[i] == s;
    }
    QuietRun(d, log);
  }

  /** What Begin did is a prefix of the plan. */
  lemma BeginIsPrefix(w: World, d: Disk, op: Op, log: seq<Step>)
    requires op.Install? && op.archive !in {BINARY, CANDIDATE, BACKUP}
             && (op.approved ==> w.vetted(op.version, op.binary))
    requires log <= Prepare(op.sweep) && (!w.valid(op.version) ==> log == [])
    ensures |log| <= |Steps(w, d, op)| && Steps(w, d, op)[..|log|] == log
  {
    if w.valid(op.version) {
      PrepareOnly(w, d, op, log);
    }
  }

  /** Some removal order that fits, should the operation commit. */
  lemma WithSomeRemovals(w: World, d: Disk, wish: Op) returns (op: Op)
    requires Placeable(wish) && Listing(wish.sweep, Staged(d))
             && (wish.approved ==> w.vetted(wish.version, wish.binary))
    ensures op.Install? && op == wish.(removed := op.removed) && Feasible(w, d, op)
  {
    op := wish;
    if Decide(w, d, wish).Commit? {
      var removed := ListingExists(PruneList(w, d, wish));
      RemovalOrderFits(w, d, wish, removed);
      op := WithRemoved(wish, removed);
    }
  }

  lemma RemovalOrderFits(w: World, d: Disk, op: Op, removed: seq<string>)
    requires Placeable(op) && Listing(op.sweep, Staged(d)) && (op.approved ==> w.vetted(op.version, op.binary))
    requires Decide(w, d, op).Commit? && Listing(removed, PruneList(w, d, op))
    ensures Feasible(w, d, WithRemoved(op, removed))
  {
    DecisionIgnoresOrder(w, d, op, removed);
  }

  /** A prefix of Prepare is a prefix of the plan, and the whole plan of a refused operation. */
  lemma PrepareOnly(w: World, d: Disk, op: Op, log: seq<Step>)
    requires Launchable(w, op) && log <= Prepare(op.sweep)
    ensures |log| <= |Steps(w, d, op)| && Steps(w, d, op)[..|log|] == log
  {
    PrepareComesFirst(w, d, op, |log|);
    assert Prepare(op.sweep)[..|log|] == log;
  }

  lemma DeliveryFollows(w: World, d: Disk, op: Op)
    requires op.Install? && Feasible(w, d, op) && w.valid(op.version) && !Decide(w, d, op).Refused?
    ensures Prepare(op.sweep) + Deliver(op) <= Steps(w, d, op)
    ensures Runs(d, Prepare(op.sweep) + Deliver(op))
  {
    var opening := Prepare(op.sweep) + Deliver(op);
    assert Steps(w, d, op)[..|opening|] == opening;
    PlanNeverStalls(w, d, op);
    RunsPrefix(d, Steps(w, d, op), |opening|);
  }

  lemma RollbackSplits(w: World, d: Disk, op: Op)
    requires op.Rollback? && Commits(w, d, op)
    ensures
      var s := Decide(w, d, op).state;
      var a := Prepare(op.sweep) + ActivateCalls(s.current);
      && s == Swapped(ReadState(w, d.stateFile).value)
      && a <= Steps(w, d, op) && a + WriteStateCalls(s) == Steps(w, d, op)
  {
  }

  /** Everything up to and including activate. */
  function Activation(op: Op): seq<Step>
    requires op.Install?
  {
    Prepare(op.sweep) + Deliver(op) + [MakeCandidate, MoveBinary] + [SetAside(op.version), Publish(op.version)]
    + ActivateCalls(op.version)
  }

  /** The whole plan of an install that commits state s. */
  function CommitPlan(op: Op, s: State, removed: seq<string>): seq<Step>
    requires op.Install?
  {
    Activation(op) + WriteStateCalls(s) + Drops(removed) + [DropStaged(BACKUP), DropStaged(op.archive)]
  }

  lemma Partway(all: seq<Step>, base: seq<Step>, part: seq<Step>, j: nat)
    requires base + part <= all && j <= |part|
    ensures |base| + j <= |all| && all[..|base| + j] == base + part[..j]
    ensures j == |part| ==> base + part[..j] == base + part
  {
    assert all[..|base + part|] == base + part;
    assert all[..|base| + j] == (base + part)[..|base| + j];
  }

  lemma ActivationSplits(d: Disk, op: Op)
    requires Placeable(op) && Listing(op.sweep, Staged(d))
    ensures
      var a := Prepare(op.sweep) + Deliver(op);
      var b := Groundwork(op);
      var c := b + [SetAside(op.version), Publish(op.version)];
      && b == a + [MakeCandidate, MoveBinary]
      && b <= Activation(op) && c <= Activation(op) && c + ActivateCalls(op.version) == Activation(op)
      && Runs(d, b) && Runs(d, c) && Run(d, b).staging.Some?
  {
    GroundworkRun(d, op);
    PlaceCut(d, op, 0);
  }

  lemma PlanSplits(d: Disk, op: Op, s: State, removed: seq<string>)
    requires op.Install?
    ensures
      var all := CommitPlan(op, s, removed);
      var a := Activation(op) + WriteStateCalls(s);
      var b := a + Drops(removed);
      && a <= all && b <= all && |all| == |b| + 2 && all[..|all|] == all
      && SameInstallation(Run(d, all), Run(d, b))
  {
    var b := Activation(op) + WriteStateCalls(s) + Drops(removed);
    var tidy := [DropStaged(BACKUP), DropStaged(op.archive)];
    RunConcat(d, b, tidy);
    TidyRun(Run(d, b), op.archive, 2);
    assert tidy[..2] == tidy;
  }

  lemma ActivationIsPrefix(op: Op, s: State, removed: seq<string>, k: nat)
    requires op.Install? && k <= |Activation(op)|
    ensures k <= |CommitPlan(op, s, removed)| && CommitPlan(op, s, removed)[..k] == Activation(op)[..k]
  {
  }

  /** CommitPlan is the plan of Plans.Steps. */
  lemma CommitPlanIsSteps(w: World, d: Disk, op: Op, removed: seq<string>)
    requires op.Install? && Commits(w, d, op)
    ensures Steps(w, d, WithRemoved(op, removed)) == CommitPlan(op, Decide(w, d, op).state, removed)
  {
    DecisionIgnoresOrder(w, d, op, removed);
  }

  function ActivateCalls(v: string): (calls: seq<Step>)
    ensures |calls| == 3
  {
    [RemoveNext, LinkNext(v), RenameNext]
  }

  function WriteStateCalls(s: State): (calls: seq<Step>)
    ensures |calls| == 3
  {
    [CreateTemp, FillTemp(s), RenameTemp]
  }

  /** activate can always be carried out; its calls in two parts. */
  lemma ActivateRuns(d: Disk, base: seq<Step>, v: string)
    requires Runs(d, base)
    ensures Runs(d, base + [RemoveNext, LinkNext(v)]) && Enabled(Run(d, base + [RemoveNext, LinkNext(v)]), RenameNext)
    ensures base + [RemoveNext, LinkNext(v)] + [RenameNext] == base + ActivateCalls(v)
    ensures ActivateCalls(v)[..3] == ActivateCalls(v) && [RemoveNext, LinkNext(v)][..2] == [RemoveNext, LinkNext(v)]
    ensures forall j :: 0 <= j <= 2 ==> ActivateCalls(v)[..j] == [RemoveNext, LinkNext(v)][..j]
  {
    assert ActivateCalls(v)[2] == RenameNext;
    hide Run, Runs, Apply, Enabled;
    ActivateRun(Run(d, base), v, 3);
    RunConcat(d, base, ActivateCalls(v));
    StepByStep(d, base, ActivateCalls(v));
    RunsPrefix(d, base + ActivateCalls(v), |base| + 2);
    assert (base + ActivateCalls(v))[..|base| + 2] == base + [RemoveNext, LinkNext(v)];
    assert ActivateCalls(v)[..2] == [RemoveNext, LinkNext(v)];
  }

  /** The prefixes of a short list of calls behind base, spelled out. */
  lemma StepByStep(d: Disk, base: seq<Step>, steps: seq<Step>)
    ensures steps[..0] == [] && base + [] == base && steps[..|steps|] == steps
    ensures forall i :: 0 <= i < |steps| ==> base + steps[..i + 1] == base + steps[..i] + [steps[i]]
    ensures Runs(d, base + steps) ==>
              forall i :: 0 <= i < |steps| ==> Enabled(Run(d, base + steps[..i]), steps[i])
  {
    forall i | 0 <= i < |steps|
      ensures base + steps[..i + 1] == base + steps[..i] + [steps[i]]
      ensures Runs(d, base + steps) ==> Enabled(Run(d, base + steps[..i]), steps[i])
    {
      var all := base + steps;
      assert all[..|base| + i] == base + steps[..i];
      RunFirst(d, all, |base| + i);
    }
  }

  lemma DroppingStaged(d: Disk, log: seq<Step>, name: string)
    ensures SameInstallation(Run(d, log + [DropStaged(name)]), Run(d, log))
    ensures Staged(Run(d, log + [DropStaged(name)])) == Staged(Run(d, log)) - {name}
    ensures Run(d, log + [DropStaged(name)]).staging.Some? == Run(d, log).staging.Some?
  {
    RunConcat(d, log, [DropStaged(name)]);
    RunOne(Run(d, log), DropStaged(name));
  }

  lemma RemovingNothing(d: Disk)
    requires d.next.None?
    ensures Enabled(d, RemoveNext) && Apply(d, RemoveNext) == d
  {
  }

  /** Some order for the entries that are still there completes the order of those already gone. */
  lemma SweepRest(done: seq<string>, all: set<string>, todo: set<string>) returns (sweep: seq<string>)
    requires todo <= all && Listing(done, all - todo)
    ensures Listing(sweep, all) && DropEach(done) <= DropEach(sweep)
    ensures todo == {} ==> sweep == done
  {
    var rest := ListingExists(todo);
    ListingSize(rest, todo);
    ListingConcat(done, all - todo, rest, todo);
    assert (all - todo) + todo == all;
    sweep := done + rest;
  }

  lemma DropsGrow(base: seq<Step>, removed: seq<string>, i: nat, m: nat)
    requires i < |removed| && m <= 2
    ensures base + Drops(removed)[..2 * i] + [DropBinary(removed[i]), DropFolder(removed[i])][..m]
         == base + Drops(removed)[..2 * i + m]
  {
  }

  lemma RemovalRuns(d: Disk, log: seq<Step>, v: string)
    requires Runs(d, log)
    ensures Runs(d, log + [DropBinary(v), DropFolder(v)])
  {
    RunConcat(d, log, [DropBinary(v), DropFolder(v)]);
    RunTwo(Run(d, log), DropBinary(v), DropFolder(v));
  }

  lemma SweepLeavesNothing(d: Disk, sweep: seq<string>)
    requires Runs(d, Prepare(sweep))
    ensures Enabled(Run(d, DropEach(sweep)), RemoveStaging)
    ensures Enabled(Apply(Run(d, DropEach(sweep)), RemoveStaging), MakeStaging)
  {
    RunConcat(d, DropEach(sweep), [RemoveStaging, MakeStaging]);
    RunTwo(Run(d, DropEach(sweep)), RemoveStaging, MakeStaging);
  }

  /** After i steps of a list that started in d. */
  lemma RunFirst(d: Disk, steps: seq<Step>, i: nat)
    requires i < |steps|
    ensures steps[..i + 1] == steps[..i] + [steps[i]]
    ensures Run(d, steps[..i + 1]) == Apply(Run(d, steps[..i]), steps[i])
    ensures Runs(d, steps) ==> Enabled(Run(d, steps[..i]), steps[i])
  {
    RunConcat(d, steps[..i], [steps[i]]);
    RunOne(Run(d, steps[..i]), steps[i]);
    if Runs(d, steps) { RunsPrefix(d, steps, i + 1); }
  }
}
