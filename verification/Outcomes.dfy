// What a completed install or rollback leaves on the root and in state.json, and when it is refused, said of the
// records and binaries themselves (internal/provision/provision.go and store.go).
module Outcomes {
  import opened Common
  import opened Prune
  import opened Disk
  import opened Plans
  import opened CrashSafety

  // ---------------------------------------------------------------------
  // Reading state.json
  // ---------------------------------------------------------------------

  /** current or previous: none, or a well-formed version that has a record. */
  predicate NamesRecord(w: World, s: State, v: string) {
    v == "" || (w.valid(v) && v in s.versions)
  }

  /**
   * Exactly the readable state files: no file at all, or one of the known schema whose versions are all well formed
   * and whose current and previous have records.
   */
  lemma ReadableIff(w: World, f: StateFile)
    ensures ReadState(w, f).Ok? <==>
      || f.Missing?
      || (f.Saved? && f.schema == "spectra-proxy.provision/1"
          && NamesRecord(w, f.state, f.state.current) && NamesRecord(w, f.state, f.state.previous)
          && forall v :: v in f.state.versions ==> w.valid(v))
    ensures ReadState(w, f).Ok? ==>
              ReadState(w, f).value == if f.Missing? then State("", "", map[]) else f.state
  {
  }

  predicate Readable(w: World, d: Disk) {
    ReadState(w, d.stateFile).Ok?
  }

  // ---------------------------------------------------------------------
  // Install
  // ---------------------------------------------------------------------

  /** An approved install goes through on any root unless it would downgrade, or as an update stay where it is. */
  lemma InstallCommitsIff(w: World, d: Disk, op: Op)
    requires op.Install?
    ensures Commits(w, d, op) <==>
      && w.valid(op.version) && op.approved && Readable(w, d)
      && var current := Stored(w, d).current;
         current == "" || w.rank(op.version) > w.rank(current)
             || (w.rank(op.version) == w.rank(current) && !op.update)
  {
  }

  /** The record t follows s by an install of version: what becomes of current, previous and the metadata. */
  predicate Follows(w: World, s: State, t: State, version: string, binary: Bytes, now: int, keep: int) {
    && t.current == version
    && version in t.versions && t.versions[version] == VersionInfo(w.digest(binary), now)
    && (keep <= 1 ==> t.previous == "" && t.versions.Keys == {version})
    && (keep > 1 && s.current !in {"", version} ==> t.previous == s.current)
    && (keep > 1 && s.current in {"", version} ==> t.previous == s.previous)
    && (forall v :: v in t.versions && v != version ==> v in s.versions && t.versions[v] == s.versions[v])
  }

  /** after is before with version installed: what the link, versions/ and the records of the two roots tell. */
  predicate Installed(w: World, before: Disk, after: Disk, version: string, binary: Bytes, now: int, keep: int)
    requires Readable(w, before) && Readable(w, after)
  {
    && after.link == Some(version)
    && version in after.versions && after.versions[version] == Some(binary)
    && Follows(w, Stored(w, before), Stored(w, after), version, binary, now, keep)
  }

  /** The records of a state file that can be read. */
  predicate WellRecorded(s: State) {
    (s.current == "" || s.current in s.versions) && (s.previous == "" || s.previous in s.versions)
  }

  lemma CommittedRecordFollows(w: World, s: State, version: string, binary: Bytes, now: int, keep: int)
    requires version != "" && WellRecorded(s)
    ensures
      var r := Recorded(w, s, version, binary, now);
      var t := Pruned(r, keep);
      && r.versions.Keys == s.versions.Keys + {version}
      && Follows(w, s, t, version, binary, now, keep) && WellRecorded(t)
  {
    PruneKeepsPinned(Recorded(w, s, version, binary, now), keep);
    hide Pruned, Survivors;
  }

  /** The state an install writes can be read back and follows the one that was stored. */
  lemma CommittedRecordReads(w: World, d: Disk, op: Op)
    requires Readable(w, d) && !w.valid("") && op.Install? && Commits(w, d, op)
    ensures
      var s := Stored(w, d);
      var r := Recorded(w, s, op.version, op.binary, op.now);
      var t := Pruned(r, op.keep);
      && ReadState(w, Saved(STATE_SCHEMA, t)) == Ok(t)
      && r.versions.Keys == s.versions.Keys + {op.version}
      && Follows(w, s, t, op.version, op.binary, op.now, op.keep)
  {
    var s := Stored(w, d);
    ReadableIff(w, d.stateFile);
    assert w.valid(op.version) && op.version != "";
    CommittedRecordFollows(w, s, op.version, op.binary, op.now, op.keep);
    ReadableIff(w, Saved(STATE_SCHEMA, Pruned(Recorded(w, s, op.version, op.binary, op.now), op.keep)));
    hide Recorded, Pruned, ReadState;
  }

  /** The link, state.json and versions/ from the state write on. */
  lemma InstallDisk(w: World, d: Disk, op: Op, k: nat)
    requires Readable(w, d) && Feasible(w, d, op) && op.Install? && Commits(w, d, op)
    requires SwitchAt(op) + 6 <= k <= |Steps(w, d, op)|
    ensures
      var s, c := Stored(w, d), Cut(w, d, op, k);
      var t := Pruned(Recorded(w, s, op.version, op.binary, op.now), op.keep);
      && c.link == Some(op.version) && c.stateFile == Saved(STATE_SCHEMA, t)
      && (op.version !in op.removed ==> op.version in c.versions && c.versions[op.version] == Some(op.binary))
      && (k == |Steps(w, d, op)| ==> forall v :: v != op.version ==>
            if v in op.removed then v !in c.versions
            else (v in c.versions <==> v in d.versions) && (v in d.versions ==> c.versions[v] == d.versions[v]))
  {
    DiskAtCut(w, d, op, k);
    BackIsDrops(w, d, op);
    hide Run, Steps, Recorded, Survivors, CheckVersion, Feasible;
    if k == |Steps(w, d, op)| {
      assert op.removed[..|op.removed|] == op.removed;
    }
  }

  /**
   * From its state write on, an install leaves the link on the version, with the delivered binary and its record, and
   * the version it replaced as previous, unless only one version is kept. Versions without a record any more are
   * gone in the end, and no other directory is touched.
   */
  lemma InstallOutcome(w: World, d: Disk, op: Op, k: nat)
    requires Readable(w, d) && !w.valid("") && Feasible(w, d, op) && op.Install? && Commits(w, d, op)
    requires SwitchAt(op) + 6 <= k <= |Steps(w, d, op)|
    ensures
      var c := Cut(w, d, op, k);
      && Readable(w, c) && Installed(w, d, c, op.version, op.binary, op.now, op.keep)
      && (k == |Steps(w, d, op)| ==> forall v :: v != op.version ==>
            if v in Stored(w, d).versions && v !in Stored(w, c).versions then v !in c.versions
            else (v in c.versions <==> v in d.versions) && (v in d.versions ==> c.versions[v] == d.versions[v]))
  {
    InstallDisk(w, d, op, k);
    CommittedRecordReads(w, d, op);
    hide Run, Steps, Cut, Decide, Feasible, Commits, Recorded, Pruned, CheckVersion, SwitchAt, ReadState;
  }

  lemma BackIsDrops(w: World, d: Disk, op: Op)
    requires op.Install? && Commits(w, d, op)
    ensures |Steps(w, d, op)| == SwitchAt(op) + 6 + 2 * |op.removed| + 2
  {
    FrontIsLead(w, d, op);
  }

  // ---------------------------------------------------------------------
  // Rollback
  // ---------------------------------------------------------------------

  /** versions/v holds a binary of the digest recorded for v, and it still passes the compatibility check. */
  predicate Genuine(w: World, s: State, d: Disk, v: string) {
    && v in s.versions && v in d.versions && d.versions[v].Some?
    && w.digest(d.versions[v].value) == s.versions[v].sha256
    && w.fits(v, d.versions[v].value)
  }

  /** A rollback goes through exactly when a previous version is recorded and its binary is genuine. */
  lemma RollbackCommitsIff(w: World, d: Disk, op: Op)
    requires op.Rollback?
    ensures Commits(w, d, op) <==>
      && Readable(w, d) && Stored(w, d).previous != ""
      && Genuine(w, Stored(w, d), d, Stored(w, d).previous)
  {
  }

  /** after is before rolled back: current and previous have changed places, and the link leads to a genuine binary. */
  predicate RolledBack(w: World, before: Disk, after: Disk)
    requires Readable(w, before) && Readable(w, after)
  {
    var s, t := Stored(w, before), Stored(w, after);
    && t.current == s.previous && t.previous == s.current && t.versions == s.versions
    && after.link == Some(s.previous) && after.versions == before.versions
    && Genuine(w, t, after, t.current)
  }

  /**
   * On any readable root: a rollback whose target is missing, has another digest than the recorded one or does not fit
   * leaves the installation alone at every cut; otherwise a completed one swaps current and previous, the link leads
   * to the genuine binary, and no drift is reported.
   */
  lemma RollbackOutcome(w: World, d: Disk, op: Op, k: nat)
    requires Readable(w, d) && op.Rollback? && Feasible(w, d, op) && k <= |Steps(w, d, op)|
    ensures
      var s, c := Stored(w, d), Cut(w, d, op, k);
      if s.previous == "" || !Genuine(w, s, d, s.previous) then SameInstallation(c, d)
      else k == |Steps(w, d, op)| ==>
        && Readable(w, c) && RolledBack(w, d, c)
        && Status(w, c, c) == Ok(Report(s.previous, s.current, s.versions, false))
  {
    RollbackCommitsIff(w, d, op);
    DiskAtCut(w, d, op, k);
    if Commits(w, d, op) {
      FrontIsLead(w, d, op);
    }
  }

  /** An unreadable state.json stops every operation before it touches the installation. */
  lemma UnreadableRootIsLeftAlone(w: World, d: Disk, op: Op, k: nat)
    requires !Readable(w, d) && Feasible(w, d, op) && k <= |Steps(w, d, op)|
    ensures SameInstallation(Cut(w, d, op, k), d)
  {
    DiskAtCut(w, d, op, k);
  }

  // ---------------------------------------------------------------------
  // Install, then rollback
  // ---------------------------------------------------------------------

  /** The version an install replaced keeps its directory and its record when more than one is kept. */
  lemma ReplacedVersionStays(w: World, d: Disk, op: Op)
    requires Readable(w, d) && !w.valid("") && Feasible(w, d, op) && op.Install? && Commits(w, d, op)
    requires op.keep > 1 && Stored(w, d).current !in {"", op.version}
    ensures
      var u, v := Full(w, d, op), Stored(w, d).current;
      && Readable(w, u) && Installed(w, d, u, op.version, op.binary, op.now, op.keep)
      && v in Stored(w, u).versions && Stored(w, u).versions[v] == Stored(w, d).versions[v]
      && (v in u.versions <==> v in d.versions) && (v in d.versions ==> u.versions[v] == d.versions[v])
  {
    FullIsCut(w, d, op);
    BackIsDrops(w, d, op);
    hide Steps, Cut, Full, Decide, CheckVersion;
    InstallOutcome(w, d, op, |Steps(w, d, op)|);
    ReadableIff(w, Full(w, d, op).stateFile);
    ReadableIff(w, d.stateFile);
  }

  /**
   * Installing v over u and rolling back goes exactly one version back: current u, previous v, the link on u's binary,
   * if u's binary was genuine; otherwise the rollback is refused and v stays.
   */
  lemma RollbackUndoesInstall(w: World, d: Disk, op: Op, back: Op)
    requires Readable(w, d) && !w.valid("") && Feasible(w, d, op) && op.Install? && Commits(w, d, op)
    requires op.keep > 1 && Stored(w, d).current !in {"", op.version}
    requires back.Rollback? && Feasible(w, Full(w, d, op), back)
    ensures
      var s, u := Stored(w, d), Full(w, d, op);
      var r := Full(w, u, back);
      if Genuine(w, s, d, s.current) then
        && Readable(w, r) && Stored(w, r).current == s.current && Stored(w, r).previous == op.version
        && r.link == Some(s.current) && HasBinary(r, s.current) && r.versions[s.current] == d.versions[s.current]
      else
        SameInstallation(r, u)
  {
    var u := Full(w, d, op);
    ReplacedVersionStays(w, d, op);
    FullIsCut(w, u, back);
    hide Full, Cut, Steps, Decide, Feasible, ReadState;
    RollbackOutcome(w, u, back, |Steps(w, u, back)|);
  }
}
