// What running an operation again does after it was cut.
module Recovery {
  import opened Common
  import opened Prune
  import opened Disk
  import opened Plans
  import opened CrashSafety

  // ---------------------------------------------------------------------
  // Uninterrupted outcomes
  // ---------------------------------------------------------------------

  lemma FullOutcome(w: World, d: Disk, op: Op)
    requires Inv(w, d) && !w.valid("") && Feasible(w, d, op) && Commits(w, d, op)
    ensures
      var u := Full(w, d, op);
      && u.link == Some(Decide(w, d, op).target)
      && u.stateFile == Saved(STATE_SCHEMA, Decide(w, d, op).state)
      && ReadState(w, u.stateFile) == Ok(Decide(w, d, op).state)
      && Inv(w, u)
      && (op.Rollback? ==> u.versions == d.versions)
      && (op.Install? ==> u.versions == d.versions[op.version := Some(op.binary)] - PruneList(w, d, op))
  {
    hide Run, Survivors, Recorded, StateOk, Pruned, CheckVersion;
    var k := |Steps(w, d, op)|;
    var u := Full(w, d, op);
    assert Steps(w, d, op)[..k] == Steps(w, d, op);
    DiskAtCut(w, d, op, k);
    CutKeepsInv(w, d, op, k);
    CommittedStateOk(w, d, op);
    if op.Install? {
      assert op.removed[..|op.removed|] == op.removed;
      assert u.versions == DropAt(d.versions[op.version := Some(op.binary)], op.removed, 2 * |op.removed|);
    }
  }

  // ---------------------------------------------------------------------
  // Install again after a cut install
  // ---------------------------------------------------------------------

  /** The installation time of the current version plays no part in retention. */
  lemma PruneIgnoresCurrentMetadata(s: State, info: VersionInfo, keep: int)
    requires s.current in s.versions
    ensures
      var t := s.(versions := s.versions[s.current := info]);
      && Survivors(t, keep) == Survivors(s, keep)
      && Pruned(t, keep) == Pruned(s, keep).(versions := Pruned(s, keep).versions[s.current := info])
  {
    var t := s.(versions := s.versions[s.current := info]);
    assert t.versions.Keys == s.versions.Keys;
    assert Extras(t, keep) == Extras(s, keep);
    forall e | e in Extras(s, keep)
      ensures Ahead(t.versions, Extras(t, keep), e) == Ahead(s.versions, Extras(s, keep), e)
    {
    }
    assert Best(t.versions, Extras(t, keep), Granted(Budget(t, keep)))
        == Best(s.versions, Extras(s, keep), Granted(Budget(s, keep)));
  }

  /** Recording and pruning v again on top of a committed state for v changes only v's installation time. */
  lemma RecordAgain(w: World, s: State, v: string, b: Bytes, now: int, later: int, keep: int)
    requires v != ""
    ensures
      var t := Pruned(Recorded(w, s, v, b, now), keep);
      var again := Recorded(w, t, v, b, later);
      && Pruned(again, keep) == t.(versions := t.versions[v := VersionInfo(w.digest(b), later)])
      && again.versions.Keys - Survivors(again, keep) == {}
  {
    var r := Recorded(w, s, v, b, now);
    var t := Pruned(r, keep);
    PruneKeepsPinned(r, keep);
    PruneIsIdempotent(r, keep);
    PruneIgnoresCurrentMetadata(t, VersionInfo(w.digest(b), later), keep);
  }

  /** op2 is a plain install of the same release with the same retention as op1. */
  predicate SameInstall(op1: Op, op2: Op) {
    && op1.Install? && op2.Install?
    && op2.version == op1.version && op2.binary == op1.binary && op2.keep == op1.keep
    && !op2.update && op2.approved
  }

  /** The second state differs from the first only in the installation time of version v. */
  predicate SameButTime(w: World, s: State, t: State, v: string, b: Bytes, now: int) {
    t == s.(versions := s.versions[v := VersionInfo(w.digest(b), now)]) && v in s.versions
  }

  lemma RetryCommits(w: World, d: Disk, op1: Op, k: nat, op2: Op)
    requires Inv(w, d) && !w.valid("") && Feasible(w, d, op1) && Commits(w, d, op1) && k <= |Steps(w, d, op1)|
    requires SameInstall(op1, op2)
    ensures Commits(w, Cut(w, d, op1, k), op2)
  {
    SwitchIsAtomic(w, d, op1, k);
    CommittedStateOk(w, d, op1);
  }

  /** Recording the same binary later changes neither what is pruned nor anything but the time. */
  lemma RecordLater(w: World, s: State, v: string, b: Bytes, now: int, later: int, keep: int)
    ensures
      var r, t := Recorded(w, s, v, b, now), Recorded(w, s, v, b, later);
      && SameButTime(w, Pruned(r, keep), Pruned(t, keep), v, b, later)
      && t.versions.Keys - Survivors(t, keep) == r.versions.Keys - Survivors(r, keep)
  {
    var r := Recorded(w, s, v, b, now);
    PruneIgnoresCurrentMetadata(r, VersionInfo(w.digest(b), later), keep);
    assert r.(versions := r.versions[v := VersionInfo(w.digest(b), later)]) == Recorded(w, s, v, b, later);
    PruneKeepsPinned(r, keep);
  }

  lemma PlacedAnyway(vs: map<string, Option<Bytes>>, op: Op, k: nat)
    requires op.Install?
    ensures PlacedAt(vs, op, k)[op.version := Some(op.binary)] == vs[op.version := Some(op.binary)]
  {
  }

  lemma RetryBeforeStateWrite(w: World, d: Disk, op1: Op, k: nat, op2: Op)
    requires Inv(w, d) && !w.valid("") && Feasible(w, d, op1) && Commits(w, d, op1)
    requires SameInstall(op1, op2) && k < SwitchAt(op1) + 6
    requires Feasible(w, Cut(w, d, op1, k), op2) && Commits(w, Cut(w, d, op1, k), op2)
    ensures
      var c := Cut(w, d, op1, k);
      && SameButTime(w, Decide(w, d, op1).state, Decide(w, c, op2).state, op1.version, op1.binary, op2.now)
      && PruneList(w, c, op2) == PruneList(w, d, op1)
      && c.versions[op1.version := Some(op1.binary)] == d.versions[op1.version := Some(op1.binary)]
  {
    DiskAtCut(w, d, op1, k);
    PlacedAnyway(d.versions, op1, k);
    RecordLater(w, Stored(w, d), op1.version, op1.binary, op1.now, op2.now, op1.keep);
  }

  /** Behind the state write the installed version has its binary and is not among the pruned ones. */
  lemma InstalledStays(w: World, d: Disk, op: Op, k: nat)
    requires Inv(w, d) && !w.valid("") && Feasible(w, d, op) && Commits(w, d, op) && op.Install?
    requires SwitchAt(op) + 6 <= k <= |Steps(w, d, op)|
    ensures HasBinary(Cut(w, d, op, k), op.version)
            && Cut(w, d, op, k).versions[op.version] == Some(op.binary)
  {
    hide Decide, Cut, Steps, Inv, Feasible, Run, Commits;
    DiskAtCut(w, d, op, k);
    InstallCutAt(w, d, op, k, op.version);
  }

  lemma RetryAfterStateWrite(w: World, d: Disk, op1: Op, k: nat, op2: Op)
    requires Inv(w, d) && !w.valid("") && Feasible(w, d, op1) && Commits(w, d, op1)
    requires SameInstall(op1, op2) && SwitchAt(op1) + 6 <= k <= |Steps(w, d, op1)|
    requires Feasible(w, Cut(w, d, op1, k), op2) && Commits(w, Cut(w, d, op1, k), op2)
    ensures
      var c := Cut(w, d, op1, k);
      && SameButTime(w, Decide(w, d, op1).state, Decide(w, c, op2).state, op1.version, op1.binary, op2.now)
      && PruneList(w, c, op2) == {}
      && c.versions[op1.version := Some(op1.binary)] == c.versions
  {
    InstalledStays(w, d, op1, k);
    CommittedStateOk(w, d, op1);
    DiskAtCut(w, d, op1, k);
    hide Run, Steps, Survivors, Pruned, Recorded;
    RecordAgain(w, Stored(w, d), op1.version, op1.binary, op1.now, op2.now, op1.keep);
  }

  /** Every pruned directory that was there is gone after k calls: removePruned had not begun too late. */
  predicate PruneDone(d: Disk, op: Op, k: nat)
    requires op.Install? && k >= SwitchAt(op) + 6
  {
    forall i :: DropIndex(op, k - SwitchAt(op) - 6) / 2 <= i < |op.removed| ==> op.removed[i] !in d.versions
  }

  /**
   * Retry convergence: cut an install or update of v anywhere and let a fresh install of v complete.
   * Current, previous, the recorded versions and the link end as if nothing had happened. versions/ does too iff the
   * cut fell before the state write or left no directory to prune.
   */
  lemma RetryConverges(w: World, d: Disk, op1: Op, k: nat, op2: Op)
    requires Inv(w, d) && !w.valid("") && Feasible(w, d, op1) && Commits(w, d, op1) && k <= |Steps(w, d, op1)|
    requires SameInstall(op1, op2) && Feasible(w, Cut(w, d, op1, k), op2)
    ensures
      var c := Cut(w, d, op1, k);
      var u := Full(w, d, op1);
      var r := Full(w, c, op2);
      && Inv(w, u) && Inv(w, r)
      && SameButTime(w, Stored(w, u), Stored(w, r), op1.version, op1.binary, op2.now)
      && r.link == u.link
      && r.versions == (if k < SwitchAt(op1) + 6 then u.versions else c.versions)
      && (r.versions == u.versions <==> k < SwitchAt(op1) + 6 || PruneDone(d, op1, k))
  {
    hide SameButTime, Run, Steps, PruneDone, Inv, Decide, Commits, Cut, Full, Feasible, PruneList, ReadState, SwitchAt;
    var c := Cut(w, d, op1, k);
    CutKeepsInv(w, d, op1, k);
    RetryCommits(w, d, op1, k, op2);
    SameTarget(w, d, op1, c, op2);
    FullOutcome(w, d, op1);
    FullOutcome(w, c, op2);
    if k < SwitchAt(op1) + 6 {
      RetryBeforeStateWrite(w, d, op1, k, op2);
    } else {
      RetryAfterStateWrite(w, d, op1, k, op2);
      assert c.versions - {} == c.versions;
      PruneDoneIff(w, d, op1, k);
    }
  }

  lemma SameTarget(w: World, d: Disk, op1: Op, c: Disk, op2: Op)
    requires SameInstall(op1, op2) && Commits(w, d, op1) && Commits(w, c, op2)
    ensures Decide(w, d, op1).target == Decide(w, c, op2).target
  {
  }

  lemma PruneDoneIff(w: World, d: Disk, op: Op, k: nat)
    requires Inv(w, d) && !w.valid("") && Feasible(w, d, op) && op.Install? && Commits(w, d, op)
    requires SwitchAt(op) + 6 <= k <= |Steps(w, d, op)|
    ensures Cut(w, d, op, k).versions == Full(w, d, op).versions <==> PruneDone(d, op, k)
  {
    hide Run, Steps, Inv, Survivors, Recorded, ReadState;
    var m := DropIndex(op, k - SwitchAt(op) - 6);
    var vs := d.versions[op.version := Some(op.binary)];
    FullOutcome(w, d, op);
    DiskAtCut(w, d, op, k);
    InstallCutAt(w, d, op, k, op.version);
    if k == SwitchAt(op) + 6 {
      assert DropAt(vs, op.removed, 0) == vs;
    }
    assert Cut(w, d, op, k).versions == DropAt(vs, op.removed, m);
    assert forall v :: v in op.removed <==> v in PruneList(w, d, op);
    RemainingDrops(vs, op.removed, m);
  }

  /** A partly carried out removal equals the finished one iff nothing that is left to remove is there. */
  lemma RemainingDrops(vs: map<string, Option<Bytes>>, removed: seq<string>, m: nat)
    requires m <= 2 * |removed| && forall i, j :: 0 <= i < j < |removed| ==> removed[i] != removed[j]
    ensures DropAt(vs, removed, m) == vs - Elements(removed) <==>
              forall i :: m / 2 <= i < |removed| ==> removed[i] !in vs
  {
    var all := vs - Elements(removed);
    forall i | m / 2 <= i < |removed| ensures removed[i] in DropAt(vs, removed, m) <==> removed[i] in vs {
      assert forall j :: 0 <= j < m / 2 ==> removed[..m / 2][j] == removed[j];
    }
    if forall i :: m / 2 <= i < |removed| ==> removed[i] !in vs {
      forall v | v in vs ensures v in removed <==> v in removed[..m / 2] {
        if v in removed {
          var i :| 0 <= i < |removed| && removed[i] == v;
          assert i < m / 2 && removed[..m / 2][i] == v;
        }
      }
      assert DropAt(vs, removed, m) == all;
    } else {
      var i :| m / 2 <= i < |removed| && removed[i] in vs;
      assert removed[i] in Elements(removed) && removed[i] !in all;
    }
  }

  /** The cut of one attempt fell before its state write, or left it no directory to prune. */
  predicate CleanlyCut(d: Disk, e: Event)
    requires e.op.Install?
  {
    e.cut < SwitchAt(e.op) + 6 || PruneDone(d, e.op, e.cut)
  }

  /** Attempts to install one release: the first may be an update, the retries are plain installs. */
  ghost predicate Attempts(w: World, d: Disk, es: seq<Event>) {
    && es != [] && PossibleRun(w, d, es) && es[0].op.Install? && Commits(w, d, es[0].op)
    && forall i :: 1 <= i < |es| ==> SameInstall(es[0].op, es[i].op)
  }

  predicate AllInstalls(es: seq<Event>) {
    forall e :: e in es ==> e.op.Install?
  }

  ghost predicate AllCleanlyCut(w: World, d: Disk, es: seq<Event>)
    requires AllInstalls(es)
  {
    forall i :: 0 <= i < |es| ==> CleanlyCut(After(w, d, es[..i]), es[i])
  }

  lemma AttemptsAreInstalls(w: World, d: Disk, es: seq<Event>)
    requires Attempts(w, d, es)
    ensures AllInstalls(es)
  {
  }

  /** r is u up to versions/ and the installation time of v. */
  predicate SameOutcome(w: World, u: Disk, r: Disk, v: string, b: Bytes, now: int)
    requires ReadState(w, u.stateFile).Ok? && ReadState(w, r.stateFile).Ok?
  {
    SameButTime(w, Stored(w, u), Stored(w, r), v, b, now) && r.link == u.link
  }

  lemma SameOutcomeChains(w: World, u: Disk, x: Disk, r: Disk, v: string, b: Bytes, t1: int, t2: int)
    requires ReadState(w, u.stateFile).Ok? && ReadState(w, x.stateFile).Ok? && ReadState(w, r.stateFile).Ok?
    requires SameOutcome(w, u, x, v, b, t1) && SameOutcome(w, x, r, v, b, t2)
    ensures SameOutcome(w, u, r, v, b, t2)
  {
    hide ReadState;
  }

  /** What a retry after any number of cut attempts finds and leaves. */
  ghost predicate Converged(w: World, d: Disk, es: seq<Event>, last: Op)
    requires AllInstalls(es)
    requires es != [] && last.Install?
  {
    var c, first := After(w, d, es), es[0].op;
    var u, r := Full(w, d, first), Full(w, c, last);
    && Inv(w, c) && Commits(w, c, last)
    && Inv(w, u) && Inv(w, r)
    && SameOutcome(w, u, r, first.version, first.binary, last.now)
    && (r.versions == u.versions <==> AllCleanlyCut(w, d, es))
    && (AllCleanlyCut(w, d, es) || PruneList(w, c, last) == {})
  }

  lemma AllCleanlyCutSnoc(w: World, d: Disk, front: seq<Event>, e: Event)
    requires e.op.Install? && AllInstalls(front)
    ensures AllCleanlyCut(w, d, front + [e]) <==> AllCleanlyCut(w, d, front) && CleanlyCut(After(w, d, front), e)
  {
    hide After, CleanlyCut;
    var es := front + [e];
    assert es[..|front|] == front;
    forall i | 0 <= i < |front| ensures es[..i] == front[..i] && es[i] == front[i] {}
  }

  /** Nothing to prune is pruned cleanly. */
  lemma EmptyPruneIsClean(w: World, d: Disk, e: Event)
    requires e.op.Install? && Possible(w, d, e) && Commits(w, d, e.op) && PruneList(w, d, e.op) == {}
    ensures CleanlyCut(d, e)
  {
    NothingRemoved(w, d, e.op);
    hide Decide, PruneList, SwitchAt;
  }

  lemma NothingRemoved(w: World, d: Disk, op: Op)
    requires op.Install? && Feasible(w, d, op) && Commits(w, d, op) && PruneList(w, d, op) == {}
    ensures op.removed == []
  {
    ListingSize(op.removed, {});
  }

  /** One more cut attempt, and then the completed one. */
  lemma OneMoreAttempt(w: World, d: Disk, e: Event, last: Op)
    requires Inv(w, d) && !w.valid("") && Possible(w, d, e) && e.op.Install? && Commits(w, d, e.op)
    requires SameInstall(e.op, last) && Feasible(w, Cut(w, d, e.op, e.cut), last)
    ensures
      var c := Cut(w, d, e.op, e.cut);
      var u, r := Full(w, d, e.op), Full(w, c, last);
      && Inv(w, c) && Commits(w, c, last) && Inv(w, u) && Inv(w, r)
      && SameOutcome(w, u, r, e.op.version, e.op.binary, last.now)
      && (r.versions == u.versions <==> CleanlyCut(d, e))
      && (PruneList(w, c, last) == {} || (e.cut < SwitchAt(e.op) + 6 && PruneList(w, c, last) == PruneList(w, d, e.op)))
  {
    hide SameButTime, Run, Steps, PruneDone, Inv, Decide, PruneList, Full;
    CutKeepsInv(w, d, e.op, e.cut);
    RetryCommits(w, d, e.op, e.cut, last);
    RetryConverges(w, d, e.op, e.cut, last);
    if e.cut < SwitchAt(e.op) + 6 {
      RetryBeforeStateWrite(w, d, e.op, e.cut, last);
    } else {
      RetryAfterStateWrite(w, d, e.op, e.cut, last);
    }
  }

  lemma AttemptsFront(w: World, d: Disk, front: seq<Event>, e: Event)
    requires Attempts(w, d, front + [e])
    ensures Possible(w, After(w, d, front), e) && After(w, d, front + [e]) == Cut(w, After(w, d, front), e.op, e.cut)
    ensures front == [] ==> e.op.Install? && Commits(w, d, e.op)
    ensures front != [] ==> (front + [e])[0] == front[0] && Attempts(w, d, front) && SameInstall(front[0].op, e.op)
  {
    var es := front + [e];
    assert es[..|front|] == front && es[|front|] == e;
    if front != [] {
      assert es[0] == front[0];
      assert SameInstall(es[0].op, es[|front|].op);
      assert forall i :: 1 <= i < |front| ==> es[i] == front[i];
    }
  }

  lemma FirstAttempt(w: World, d: Disk, e: Event, last: Op)
    requires Inv(w, d) && !w.valid("") && Possible(w, d, e) && e.op.Install? && Commits(w, d, e.op)
    requires SameInstall(e.op, last) && After(w, d, [e]) == Cut(w, d, e.op, e.cut)
             && Feasible(w, Cut(w, d, e.op, e.cut), last)
    ensures Converged(w, d, [e], last)
  {
    AllCleanlyCutSnoc(w, d, [], e);
    assert [] + [e] == [e] && AllCleanlyCut(w, d, []) && After(w, d, []) == d;
    hide Full, Run, Steps, Decide, Inv, PruneList, CleanlyCut, AllCleanlyCut, Feasible, SameOutcome, After;
    OneMoreAttempt(w, d, e, last);
    assert PruneList(w, Cut(w, d, e.op, e.cut), last) == {} || e.cut < SwitchAt(e.op) + 6;
    EarlyCutIsClean(d, e);
  }

  lemma EarlyCutIsClean(d: Disk, e: Event)
    requires e.op.Install?
    ensures e.cut < SwitchAt(e.op) + 6 ==> CleanlyCut(d, e)
  {
  }

  lemma ChainOneMore(w: World, d: Disk, front: seq<Event>, e: Event, last: Op)
    requires !w.valid("") && front != [] && AllInstalls(front + [e])
    requires (front + [e])[0] == front[0] && SameInstall(front[0].op, e.op) && SameInstall(front[0].op, last)
    requires Possible(w, After(w, d, front), e)
    requires AllInstalls(front) && Converged(w, d, front, e.op)
    requires After(w, d, front + [e]) == Cut(w, After(w, d, front), e.op, e.cut)
    requires Feasible(w, Cut(w, After(w, d, front), e.op, e.cut), last)
    ensures Converged(w, d, front + [e], last)
  {
    AllCleanlyCutSnoc(w, d, front, e);
    hide After, Full, Run, Steps, Decide, ReadState, PruneList, CleanlyCut, AllCleanlyCut, Feasible, SameOutcome;
    var c := After(w, d, front);
    OneMoreAttempt(w, c, e, last);
    SameOutcomeChains(w, Full(w, d, front[0].op), Full(w, c, e.op), Full(w, Cut(w, c, e.op, e.cut), last),
                      e.op.version, e.op.binary, e.op.now, last.now);
    EarlyCutIsClean(c, e);
    if !AllCleanlyCut(w, d, front) {
      EmptyPruneIsClean(w, c, e);
    }
  }

  /**
   * Retry convergence over whole runs: after any number of cut attempts, a completed one leaves current, previous, the
   * recorded versions and the link as if nothing had happened; versions/ too iff every cut fell before its state write
   * or left nothing to prune.
   */
  lemma {:induction false} RetriesConverge(w: World, d: Disk, es: seq<Event>, last: Op)
    requires Inv(w, d) && !w.valid("") && Attempts(w, d, es)
    requires SameInstall(es[0].op, last) && Feasible(w, After(w, d, es), last)
    ensures AllInstalls(es) && Converged(w, d, es, last)
  {
    NonEmpty(w, d, es);
    hide *;
    if |es| == 1 {
      assert es == [es[0]];
      OneAttempt(w, d, es[0], last);
    } else {
      var front, e := es[..|es| - 1], es[|es| - 1];
      assert es == front + [e];
      FrontOfAttempts(w, d, front, e, last);
      RetriesConverge(w, d, front, e.op);
      AnotherAttempt(w, d, front, e, last);
    }
  }

  lemma OneAttempt(w: World, d: Disk, e: Event, last: Op)
    requires Inv(w, d) && !w.valid("") && Attempts(w, d, [e])
    requires SameInstall(e.op, last) && Feasible(w, After(w, d, [e]), last)
    ensures AllInstalls([e]) && Converged(w, d, [e], last)
  {
    AttemptsAreInstalls(w, d, [e]);
    AttemptsFront(w, d, [], e);
    assert [] + [e] == [e];
    hide Attempts, Converged, After, Feasible, Inv, Decide, Cut, Possible, Commits;
    FirstAttempt(w, d, e, last);
  }

  lemma FrontOfAttempts(w: World, d: Disk, front: seq<Event>, e: Event, last: Op)
    requires Attempts(w, d, front + [e]) && front != [] && SameInstall((front + [e])[0].op, last)
    ensures Attempts(w, d, front) && SameInstall(front[0].op, e.op) && SameInstall(front[0].op, last)
    ensures Feasible(w, After(w, d, front), e.op)
  {
    AttemptsFront(w, d, front, e);
    hide Attempts, After, Feasible;
  }

  lemma AnotherAttempt(w: World, d: Disk, front: seq<Event>, e: Event, last: Op)
    requires !w.valid("") && Attempts(w, d, front + [e]) && front != [] && SameInstall(front[0].op, last)
    requires Feasible(w, After(w, d, front + [e]), last)
    requires AllInstalls(front) && e.op.Install? && Converged(w, d, front, e.op)
    ensures AllInstalls(front + [e]) && Converged(w, d, front + [e], last)
  {
    AttemptsAreInstalls(w, d, front + [e]);
    AttemptsFront(w, d, front, e);
    hide Attempts, Converged, After, Feasible, Inv, Decide, Cut, Possible;
    ChainOneMore(w, d, front, e, last);
  }

  lemma NonEmpty(w: World, d: Disk, es: seq<Event>)
    requires Attempts(w, d, es)
    ensures es != [] && es[0].op.Install?
  {
  }

  // ---------------------------------------------------------------------
  // Directories that a cut prune leaves behind
  // ---------------------------------------------------------------------

  /** v has a directory, but no record. */
  predicate Orphan(w: World, d: Disk, v: string)
    requires ReadState(w, d.stateFile).Ok?
  {
    v in d.versions && v !in Stored(w, d).versions
  }

  /** Committing neither records nor prunes a version that is neither recorded nor installed. */
  lemma CommitIgnoresOrphan(w: World, d: Disk, op: Op, v: string)
    requires Inv(w, d) && Feasible(w, d, op) && Commits(w, d, op) && v !in Stored(w, d).versions
    requires op.Install? ==> op.version != v
    ensures v !in Decide(w, d, op).state.versions
    ensures op.Install? ==> v !in op.removed
  {
    if op.Install? {
      var recorded := Recorded(w, Stored(w, d), op.version, op.binary, op.now);
      PruneKeepsPinned(recorded, op.keep);
      assert v !in recorded.versions && v !in PruneList(w, d, op);
    }
  }

  lemma OrphanDirectoryStays(w: World, d: Disk, op: Op, k: nat, v: string)
    requires v in d.versions
    requires op.Install? ==> op.version != v && (Commits(w, d, op) ==> v !in op.removed)
    ensures v in VersionsAt(w, d, op, k) && VersionsAt(w, d, op, k)[v] == d.versions[v]
  {
  }

  lemma OrphanStays(w: World, d: Disk, e: Event, v: string)
    requires Inv(w, d) && !w.valid("") && Possible(w, d, e) && Orphan(w, d, v)
    requires e.op.Install? ==> e.op.version != v
    ensures Inv(w, Cut(w, d, e.op, e.cut))
    ensures Orphan(w, Cut(w, d, e.op, e.cut), v) && Cut(w, d, e.op, e.cut).versions[v] == d.versions[v]
  {
    hide Decide, VersionsAt, Survivors, Run;
    CutKeepsInv(w, d, e.op, e.cut);
    DiskAtCut(w, d, e.op, e.cut);
    if Commits(w, d, e.op) {
      CommittedStateOk(w, d, e.op);
      CommitIgnoresOrphan(w, d, e.op, v);
    }
    OrphanDirectoryStays(w, d, e.op, e.cut, v);
  }

  /** No later install of another version, update or rollback ever removes an orphan, or records it again. */
  lemma {:induction false} OrphansAreNeverRemoved(w: World, d: Disk, es: seq<Event>, v: string)
    requires Inv(w, d) && !w.valid("") && PossibleRun(w, d, es) && Orphan(w, d, v)
    requires forall e :: e in es && e.op.Install? ==> e.op.version != v
    ensures Inv(w, After(w, d, es))
    ensures Orphan(w, After(w, d, es), v) && After(w, d, es).versions[v] == d.versions[v]
  {
    if es != [] {
      OrphansAreNeverRemoved(w, d, es[..|es| - 1], v);
      OrphanStays(w, After(w, d, es[..|es| - 1]), es[|es| - 1], v);
    }
  }

  /** A cut behind the state write leaves orphans exactly where the prune was not done. */
  lemma CutPruneLeavesOrphans(w: World, d: Disk, op: Op, k: nat)
    requires Inv(w, d) && !w.valid("") && Feasible(w, d, op) && op.Install? && Commits(w, d, op)
    requires SwitchAt(op) + 6 <= k <= |Steps(w, d, op)|
    ensures Inv(w, Cut(w, d, op, k))
    ensures PruneDone(d, op, k) <==> forall v :: v in op.removed ==> !Orphan(w, Cut(w, d, op, k), v)
  {
    hide Run, Recorded, Survivors, Decide;
    CutKeepsInv(w, d, op, k);
    CommittedStateOk(w, d, op);
    DiskAtCut(w, d, op, k);
    InstallCutAt(w, d, op, k, op.version);
    var c := Cut(w, d, op, k);
    var m := DropIndex(op, k - SwitchAt(op) - 6);
    forall i | 0 <= i < |op.removed|
      ensures Orphan(w, c, op.removed[i]) <==> m / 2 <= i && op.removed[i] in d.versions
    {
      PrunedIsUnrecorded(w, d, op, op.removed[i]);
      RemovedAt(w, d, op, k, i);
    }
    assert forall v :: v in op.removed ==> exists i :: 0 <= i < |op.removed| && op.removed[i] == v;
  }

  lemma PrunedIsUnrecorded(w: World, d: Disk, op: Op, v: string)
    requires Inv(w, d) && Feasible(w, d, op) && op.Install? && Commits(w, d, op) && v in op.removed
    ensures v !in Decide(w, d, op).state.versions && v != op.version
  {
    assert v in PruneList(w, d, op);
    PruneKeepsPinned(Recorded(w, Stored(w, d), op.version, op.binary, op.now), op.keep);
  }

  /** Pruned directory i is there behind the state write iff it was there and its removal has not ended. */
  lemma RemovedAt(w: World, d: Disk, op: Op, k: nat, i: nat)
    requires Inv(w, d) && Feasible(w, d, op) && op.Install? && Commits(w, d, op)
    requires SwitchAt(op) + 6 <= k && i < |op.removed| && op.removed[i] != op.version
    ensures op.removed[i] in VersionsAt(w, d, op, k) <==>
              DropIndex(op, k - SwitchAt(op) - 6) / 2 <= i && op.removed[i] in d.versions
  {
    var m := DropIndex(op, k - SwitchAt(op) - 6);
    assert Listing(op.removed, PruneList(w, d, op));
    hide Decide, PruneList;
    if k == SwitchAt(op) + 6 {
      assert PlacedAt(d.versions, op, k) == d.versions[op.version := Some(op.binary)];
    }
    if i < m / 2 { assert op.removed[..m / 2][i] == op.removed[i]; }
    assert forall j :: 0 <= j < m / 2 ==> op.removed[..m / 2][j] == op.removed[j];
  }

  // ---------------------------------------------------------------------
  // Rollback
  // ---------------------------------------------------------------------

  /** Two completed rollbacks restore state, link and versions/. */
  lemma TwoRollbacksRestore(w: World, d: Disk, op1: Op, op2: Op)
    requires Inv(w, d) && !w.valid("") && d.link == Some(Stored(w, d).current)
    requires op1.Rollback? && Feasible(w, d, op1) && Commits(w, d, op1)
    requires op2.Rollback? && Feasible(w, Full(w, d, op1), op2) && Commits(w, Full(w, d, op1), op2)
    ensures
      var e := Full(w, Full(w, d, op1), op2);
      Inv(w, e) && Stored(w, e) == Stored(w, d) && e.link == d.link && e.versions == d.versions
  {
    FullOutcome(w, d, op1);
    FullOutcome(w, Full(w, d, op1), op2);
  }

  /** Running a cut rollback again ends like an uninterrupted one exactly when state.json was not yet renamed. */
  lemma RollbackAgainIff(w: World, d: Disk, op1: Op, k: nat, op2: Op)
    requires Inv(w, d) && !w.valid("") && k <= |Steps(w, d, op1)|
    requires op1.Rollback? && Feasible(w, d, op1) && Commits(w, d, op1)
    requires op2.Rollback? && Feasible(w, Cut(w, d, op1, k), op2)
    ensures
      var c := Cut(w, d, op1, k);
      var u := Full(w, d, op1);
      var r := Full(w, c, op2);
      (r.link == u.link && r.stateFile == u.stateFile && r.versions == u.versions)
      <==> k < SwitchAt(op1) + 6 || !Commits(w, c, op2)
  {
    var c := Cut(w, d, op1, k);
    var r := Full(w, c, op2);
    FullOutcome(w, d, op1);
    DiskAtCut(w, d, op1, k);
    CutKeepsInv(w, d, op1, k);
    if Commits(w, c, op2) {
      FullOutcome(w, c, op2);
    } else {
      assert Steps(w, c, op2)[..|Steps(w, c, op2)|] == Steps(w, c, op2);
      DiskAtCut(w, c, op2, |Steps(w, c, op2)|);
      assert RollbackAllowed(w, d, Stored(w, d));
    }
  }

  /** An operation cut between the link rename and the state.json rename. */
  predicate CutInsideSwitch(w: World, d: Disk, op: Op, k: nat) {
    Commits(w, d, op) && SwitchAt(op) + 3 <= k < SwitchAt(op) + 6
  }

  /** Link and state name the same version, and its binary is there. */
  predicate Healed(w: World, d: Disk)
    requires ReadState(w, d.stateFile).Ok?
  {
    d.link == Some(Stored(w, d).current) && LinkResolves(d)
  }

  /**
   * The documented repair, installing or updating to the version the link now names, is refused exactly as a
   * downgrade: after an interrupted rollback to an older version. Link and state agree afterwards iff it is not
   * refused or nothing was torn (a reinstallation of the current version).
   */
  lemma RepairByInstallIff(w: World, d: Disk, op: Op, k: nat, repair: Op)
    requires Inv(w, d) && !w.valid("") && Feasible(w, d, op) && CutInsideSwitch(w, d, op, k) && k <= |Steps(w, d, op)|
    requires repair.Install? && repair.approved && w.valid(repair.version)
    requires Cut(w, d, op, k).link == Some(repair.version) && Feasible(w, Cut(w, d, op, k), repair)
    ensures
      var c, current := Cut(w, d, op, k), Stored(w, d).current;
      var allowed := if repair.update then current == "" || w.rank(repair.version) > w.rank(current)
                     else op.Install? || w.rank(repair.version) >= w.rank(current);
      var r := Full(w, c, repair);
      && (Commits(w, c, repair) <==> allowed)
      && Inv(w, r) && (Healed(w, r) <==> allowed || repair.version == current)
      && (SingleBinary(w) && DistinctDigests(w) && Healed(w, r) ==> Status(w, r, r).Ok? && !Status(w, r, r).value.drift)
  {
    hide Run, Feasible, Steps;
    var c := Cut(w, d, op, k);
    SwitchIsAtomic(w, d, op, k);
    CutKeepsInv(w, d, op, k);
    SwitchedLinkResolves(w, d, op, k);
    var n := |Steps(w, c, repair)|;
    CutKeepsInv(w, c, repair, n);
    FullIsCut(w, c, repair);
    if Commits(w, c, repair) {
      FullOutcome(w, c, repair);
      CommittedStateOk(w, c, repair);
      LastCallIsBehindSwitch(w, c, repair);
      InstallCutAt(w, c, repair, n, repair.version);
    } else {
      DiskAtCut(w, c, repair, n);
    }
    var r := Full(w, c, repair);
    if SingleBinary(w) && DistinctDigests(w) {
      DriftIsExact(w, r, r);
    }
  }

  lemma LastCallIsBehindSwitch(w: World, d: Disk, op: Op)
    requires Commits(w, d, op)
    ensures |Steps(w, d, op)| >= SwitchAt(op) + 6
  {
    FrontIsLead(w, d, op);
  }

  lemma SwitchedLinkResolves(w: World, d: Disk, op: Op, k: nat)
    requires Inv(w, d) && !w.valid("") && Feasible(w, d, op) && CutInsideSwitch(w, d, op, k) && k <= |Steps(w, d, op)|
    ensures LinkResolves(Cut(w, d, op, k))
  {
    DiskAtCut(w, d, op, k);
    if op.Install? {
      InstallCutAt(w, d, op, k, op.version);
    }
  }
}
