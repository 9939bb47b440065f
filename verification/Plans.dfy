// What install, update and rollback do to the provisioning root, as lists of file-system calls
// (internal/provision/provision.go and store.go).
module Plans {
  import opened Common
  import opened Prune
  import opened Disk

  // Everything decided outside this package: version parsing and order, SHA-256, and the two gates a
  // binary passes before it is used.
  datatype World = World(
    valid: string -> bool,            // release.ParseVersion succeeds
    rank: string -> int,              // release.CompareVersions compares these
    digest: Bytes -> string,          // digestFile
    fits: (string, Bytes) -> bool,    // compatible, for rollback
    ghost vetted: (string, Bytes) -> bool)  // fetched, verified, extracted and compatible, for install

  datatype ReadError = Unparsable | WrongSchema | InvalidVersion | MissingMetadata

  const NO_STATE := State("", "", map[])

  function CheckVersion(w: World, s: State, v: string): Result<(), ReadError> {
    if v == "" then Ok(())
    else if !w.valid(v) then Err(InvalidVersion)
    else if v !in s.versions then Err(MissingMetadata)
    else Ok(())
  }

  function ReadState(w: World, f: StateFile): Result<State, ReadError> {
    match f
    case Missing => Ok(NO_STATE)
    case Garbage => Err(Unparsable)
    case Saved(schema, s) =>
      if schema != STATE_SCHEMA then Err(WrongSchema)
      else if CheckVersion(w, s, s.current).Err? then Err(CheckVersion(w, s, s.current).error)
      else if CheckVersion(w, s, s.previous).Err? then Err(CheckVersion(w, s, s.previous).error)
      else if exists v :: v in s.versions && !w.valid(v) then Err(InvalidVersion)
      else Ok(s)
  }

  // The names an operation meets in an unspecified order (sweep: staging entries, removed: pruned
  // versions) are part of the operation, so that every order is covered.
  datatype Op =
    | Install(version: string, update: bool, keep: int, now: int, archive: string, package: Bytes,
              binary: Bytes, approved: bool, sweep: seq<string>, removed: seq<string>)
    | Rollback(sweep: seq<string>)

  predicate VersionChangeAllowed(w: World, current: string, target: string, update: bool) {
    current == "" || (w.rank(target) >= w.rank(current) && (update ==> w.rank(target) > w.rank(current)))
  }

  predicate RollbackAllowed(w: World, d: Disk, s: State) {
    && s.previous != ""
    && s.previous in s.versions
    && s.previous in d.versions && d.versions[s.previous].Some?
    && w.digest(d.versions[s.previous].value) == s.versions[s.previous].sha256
    && w.fits(s.previous, d.versions[s.previous].value)
  }

  /** The state commitInstall builds before pruning it. */
  function Recorded(w: World, s: State, version: string, binary: Bytes, now: int): State {
    State(version, if s.current != "" && s.current != version then s.current else s.previous,
          s.versions[version := VersionInfo(w.digest(binary), now)])
  }

  function Swapped(s: State): State {
    State(s.previous, s.current, s.versions)
  }

  // Refused: stopped after reading state. Abandoned: stopped before commit. Commit: switch to target.
  datatype Decision = Refused | Abandoned | Commit(target: string, state: State)

  function Decide(w: World, d: Disk, op: Op): Decision {
    match ReadState(w, d.stateFile)
    case Err(_) => Refused
    case Ok(s) =>
      match op
      case Install(version, update, keep, now, _, _, binary, approved, _, _) =>
        if !VersionChangeAllowed(w, s.current, version, update) then Refused
        else if !approved then Abandoned
        else Commit(version, Pruned(Recorded(w, s, version, binary, now), keep))
      case Rollback(_) =>
        if RollbackAllowed(w, d, s) then Commit(s.previous, Swapped(s)) else Refused
  }

  // ---------------------------------------------------------------------
  // The calls, in program order
  // ---------------------------------------------------------------------

  /** prepareRoot: clear staging/ entry by entry, then recreate it. */
  function Prepare(sweep: seq<string>): seq<Step> {
    DropEach(sweep) + [RemoveStaging, MakeStaging]
  }

  function DropEach(names: seq<string>): seq<Step> {
    seq(|names|, i requires 0 <= i < |names| => DropStaged(names[i]))
  }

  /** fetchRelease leaves the archive in staging/, extractBinary the binary next to it. */
  function Deliver(op: Op): seq<Step>
    requires op.Install?
  {
    [WriteArchive(op.archive, op.package), WriteBinary(op.binary)]
  }

  /** commitInstall up to the rename of the candidate directory. */
  function Place(v: string): seq<Step> {
    [MakeCandidate, MoveBinary, SetAside(v), Publish(v)]
  }

  /** activate followed by writeState. */
  function Switch(v: string, s: State): (calls: seq<Step>)
    ensures |calls| == 6
  {
    [RemoveNext, LinkNext(v), RenameNext, CreateTemp, FillTemp(s), RenameTemp]
  }

  /** removePruned: each version loses its binary, then its directory. */
  function Drops(removed: seq<string>): (calls: seq<Step>)
    ensures |calls| == 2 * |removed|
  {
    seq(2 * |removed|, i requires 0 <= i < 2 * |removed| =>
      if i % 2 == 0 then DropBinary(removed[i / 2]) else DropFolder(removed[i / 2]))
  }

  function Front(w: World, d: Disk, op: Op): seq<Step> {
    var choice := Decide(w, d, op);
    Prepare(op.sweep)
    + (if op.Install? && !choice.Refused? then Deliver(op) else [])
    + (if op.Install? && choice.Commit? then Place(op.version) else [])
  }

  function Back(op: Op): seq<Step> {
    if op.Install? then Drops(op.removed) + [DropStaged(BACKUP), DropStaged(op.archive)] else []
  }

  function Steps(w: World, d: Disk, op: Op): seq<Step> {
    if op.Install? && !w.valid(op.version) then []
    else
      match Decide(w, d, op)
      case Commit(target, s) => Front(w, d, op) + Switch(target, s) + Back(op)
      case _ => Front(w, d, op)
  }

  /** The disk when the operation is cut after its first k calls. */
  function Cut(w: World, d: Disk, op: Op, k: nat): Disk {
    var steps := Steps(w, d, op);
    Run(d, if k <= |steps| then steps[..k] else steps)
  }

  function Full(w: World, d: Disk, op: Op): Disk {
    Run(d, Steps(w, d, op))
  }

  function Staged(d: Disk): set<string> {
    if d.staging.None? then {} else d.staging.value.Keys
  }

  /** The unspecified parts of the operation fit this disk. */
  ghost predicate Feasible(w: World, d: Disk, op: Op) {
    && Listing(op.sweep, Staged(d))
    && (op.Install? ==>
          && op.archive !in {BINARY, CANDIDATE, BACKUP}
          && (op.approved ==> w.vetted(op.version, op.binary))
          && (Decide(w, d, op).Commit? ==> Listing(op.removed, PruneList(w, d, op))))
  }

  function PruneList(w: World, d: Disk, op: Op): set<string>
    requires op.Install? && Decide(w, d, op).Commit?
  {
    var s := Recorded(w, ReadState(w, d.stateFile).value, op.version, op.binary, op.now);
    s.versions.Keys - Survivors(s, op.keep)
  }

  /** The operation gets as far as switching the installation. */
  predicate Commits(w: World, d: Disk, op: Op) {
    (op.Install? ==> w.valid(op.version)) && Decide(w, d, op).Commit?
  }

  /** Index of the first call of activate. */
  function SwitchAt(op: Op): nat {
    |Lead(op)|
  }

  /** Everything before activate, when the operation gets that far. */
  function Lead(op: Op): seq<Step> {
    if op.Install? then Groundwork(op) + [SetAside(op.version), Publish(op.version)] else Prepare(op.sweep)
  }

  /** Everything of an install's Lead except the two renames under versions/. */
  function Groundwork(op: Op): seq<Step>
    requires op.Install?
  {
    Prepare(op.sweep) + (Deliver(op) + [MakeCandidate, MoveBinary])
  }

  // ---------------------------------------------------------------------
  // Segment by segment
  // ---------------------------------------------------------------------

  lemma {:induction false} SweepRun(d: Disk, sweep: seq<string>, area: StagingArea, i: nat)
    requires d.staging == Some(area) && i <= |sweep|
    ensures Run(d, Prepare(sweep)[..i]) == d.(staging := Some(area - Elements(sweep[..i])))
    ensures Runs(d, Prepare(sweep)[..i])
  {
    if i > 0 {
      SweepRun(d, sweep, area, i - 1);
      assert Prepare(sweep)[..i][..i - 1] == Prepare(sweep)[..i - 1];
      assert sweep[..i] == sweep[..i - 1] + [sweep[i - 1]];
      assert area - Elements(sweep[..i]) == area - Elements(sweep[..i - 1]) - {sweep[i - 1]};
    } else {
      assert area - Elements(sweep[..0]) == area;
    }
  }

  lemma PrepareRun(d: Disk, sweep: seq<string>)
    requires Listing(sweep, Staged(d))
    ensures Run(d, Prepare(sweep)) == d.(staging := Some(map[]))
    ensures Runs(d, Prepare(sweep))
  {
    var swept := Prepare(sweep)[..|sweep|];
    assert Prepare(sweep) == swept + [RemoveStaging, MakeStaging];
    if d.staging.Some? {
      SweepRun(d, sweep, d.staging.value, |sweep|);
      assert sweep[..|sweep|] == sweep;
      assert d.staging.value - Elements(sweep) == map[];
    } else {
      ListingSize(sweep, Staged(d));
      assert swept == [];
    }
    RunConcat(d, swept, [RemoveStaging, MakeStaging]);
    RunTwo(Run(d, swept), RemoveStaging, MakeStaging);
  }

  lemma RunTwo(d: Disk, a: Step, b: Step)
    ensures Run(d, [a, b]) == Apply(Apply(d, a), b)
    ensures Runs(d, [a, b]) <==> Enabled(d, a) && Enabled(Apply(d, a), b)
  {
    assert [a, b] == [a] + [b];
    RunCons(d, a, [b]);
    RunOne(Apply(d, a), b);
  }

  /** Staging and binary placement, up to but not including the two renames under versions/. */
  lemma StageRun(d: Disk, op: Op)
    requires op.Install? && d.staging == Some(map[]) && op.archive !in {BINARY, CANDIDATE, BACKUP}
    ensures
      var steps := Deliver(op) + [MakeCandidate, MoveBinary];
      var area := map[op.archive := File(op.package), CANDIDATE := Folder(Some(op.binary))];
      Run(d, steps) == d.(staging := Some(area)) && Runs(d, steps)
  {
    var a := map[op.archive := File(op.package)];
    var d2 := d.(staging := Some(a[BINARY := File(op.binary)]));
    RunConcat(d, Deliver(op), [MakeCandidate, MoveBinary]);
    RunTwo(d, WriteArchive(op.archive, op.package), WriteBinary(op.binary));
    assert Run(d, Deliver(op)) == d2;
    RunTwo(d2, MakeCandidate, MoveBinary);
    var moved := (d2.staging.value[CANDIDATE := Folder(None)] - {BINARY})[CANDIDATE := Folder(Some(op.binary))];
    assert moved == map[op.archive := File(op.package), CANDIDATE := Folder(Some(op.binary))];
  }

  /** The two renames that put a candidate in place. */
  lemma RenamesRun(d: Disk, v: string, b: Bytes, area: StagingArea)
    requires d.staging == Some(area) && CANDIDATE in area && area[CANDIDATE] == Folder(Some(b)) && BACKUP !in area
    ensures Run(d, [SetAside(v)]).versions == d.versions - {v}
    ensures Run(d, [SetAside(v), Publish(v)]).versions == d.versions[v := Some(b)]
    ensures Runs(d, [SetAside(v), Publish(v)])
  {
    RunOne(d, SetAside(v));
    RunTwo(d, SetAside(v), Publish(v));
    assert (d.versions - {v})[v := Some(b)] == d.versions[v := Some(b)];
  }

  predicate Placeable(op: Op) {
    op.Install? && op.archive !in {BINARY, CANDIDATE, BACKUP}
  }

  lemma GroundworkRun(d: Disk, op: Op)
    requires Placeable(op) && Listing(op.sweep, Staged(d))
    ensures
      var area := map[op.archive := File(op.package), CANDIDATE := Folder(Some(op.binary))];
      Run(d, Groundwork(op)) == d.(staging := Some(area)) && Runs(d, Groundwork(op))
    ensures forall s :: s in Groundwork(op) ==> Quiet(s)
  {
    PrepareRun(d, op.sweep);
    RunConcat(d, Prepare(op.sweep), Deliver(op) + [MakeCandidate, MoveBinary]);
    StageRun(d.(staging := Some(map[])), op);
  }

  /** versions/ after the first k calls of Groundwork + [SetAside, Publish]. */
  function PlacedAt(vs: map<string, Option<Bytes>>, op: Op, k: nat): map<string, Option<Bytes>>
    requires op.Install?
  {
    if k <= |Groundwork(op)| then vs
    else if k == |Groundwork(op)| + 1 then vs - {op.version}
    else vs[op.version := Some(op.binary)]
  }

  lemma PlaceCut(d: Disk, op: Op, k: nat)
    requires Placeable(op) && Listing(op.sweep, Staged(d)) && k <= |Groundwork(op)| + 2
    ensures
      var c := Run(d, (Groundwork(op) + [SetAside(op.version), Publish(op.version)])[..k]);
      c == d.(versions := PlacedAt(d.versions, op, k), staging := c.staging)
    ensures Runs(d, Groundwork(op) + [SetAside(op.version), Publish(op.version)])
  {
    var base := Groundwork(op);
    var renames := [SetAside(op.version), Publish(op.version)];
    GroundworkRun(d, op);
    RenamesRun(Run(d, base), op.version, op.binary, Run(d, base).staging.value);
    RunConcat(d, base, renames);
    if k <= |base| {
      assert (base + renames)[..k] == base[..k];
      QuietRun(d, base[..k]);
    } else {
      assert (base + renames)[..k] == base + renames[..k - |base|];
      RunConcat(d, base, renames[..k - |base|]);
      AsideRun(Run(d, base), renames[..k - |base|]);
      assert renames[..1] == [SetAside(op.version)] && renames[..2] == renames;
    }
  }

  lemma FrontIsLead(w: World, d: Disk, op: Op)
    requires Decide(w, d, op).Commit?
    ensures Front(w, d, op) == Lead(op)
  {
  }

  lemma DropOneMore(vs: map<string, Option<Bytes>>, removed: seq<string>, i: nat)
    requires 0 < i <= |removed|
    ensures DropAt(vs, removed, 2 * i) == DropAt(vs, removed, 2 * (i - 1)) - {removed[i - 1]}
  {
    assert removed[..i] == removed[..i - 1] + [removed[i - 1]];
  }

  lemma RemovalRun(d: Disk, v: string)
    ensures Run(d, [DropBinary(v), DropFolder(v)]) == d.(versions := d.versions - {v})
    ensures Runs(d, [DropBinary(v), DropFolder(v)])
  {
    RunTwo(d, DropBinary(v), DropFolder(v));
    RemovalApplies(d, v);
    hide Run, Runs, Apply, Enabled;
  }

  lemma RemovalApplies(d: Disk, v: string)
    ensures Enabled(d, DropBinary(v)) && Enabled(Apply(d, DropBinary(v)), DropFolder(v))
    ensures Apply(Apply(d, DropBinary(v)), DropFolder(v)) == d.(versions := d.versions - {v})
  {
    assert d.versions[v := None] - {v} == d.versions - {v};
  }

  lemma DropsSnocTwo(removed: seq<string>, i: nat)
    requires i < |removed|
    ensures Drops(removed)[..2 * (i + 1)] == Drops(removed)[..2 * i] + [DropBinary(removed[i]), DropFolder(removed[i])]
  {
    assert Drops(removed)[2 * i] == DropBinary(removed[i]) && Drops(removed)[2 * i + 1] == DropFolder(removed[i]);
  }

  lemma {:induction false} DropsRun(d: Disk, removed: seq<string>, i: nat)
    requires i <= |removed|
    ensures Run(d, Drops(removed)[..2 * i]) == d.(versions := DropAt(d.versions, removed, 2 * i))
    ensures Runs(d, Drops(removed)[..2 * i])
  {
    if i == 0 {
      assert DropAt(d.versions, removed, 0) == d.versions;
    } else {
      DropsRun(d, removed, i - 1);
      var before := Drops(removed)[..2 * (i - 1)];
      var v := removed[i - 1];
      hide Run, Runs, Drops, DropAt;
      DropsSnocTwo(removed, i - 1);
      RunConcat(d, before, [DropBinary(v), DropFolder(v)]);
      RemovalRun(Run(d, before), v);
      DropOneMore(d.versions, removed, i);
    }
  }

  lemma DropHalf(vs: map<string, Option<Bytes>>, removed: seq<string>, i: nat)
    requires i < |removed|
    ensures
      var before := DropAt(vs, removed, 2 * i);
      DropAt(vs, removed, 2 * i + 1) == if removed[i] in before then before[removed[i] := None] else before
  {
  }

  lemma DropsSnoc(removed: seq<string>, i: nat)
    requires i < |removed|
    ensures Drops(removed)[..2 * i + 1] == Drops(removed)[..2 * i] + [DropBinary(removed[i])]
  {
    assert Drops(removed)[2 * i] == DropBinary(removed[i]);
  }

  lemma DropsCut(d: Disk, removed: seq<string>, m: nat)
    requires m <= 2 * |removed|
    ensures Run(d, Drops(removed)[..m]) == d.(versions := DropAt(d.versions, removed, m))
  {
    hide Run, Runs, Drops, DropAt;
    var i := m / 2;
    DropsRun(d, removed, i);
    if m == 2 * i + 1 {
      var before := Drops(removed)[..2 * i];
      DropsSnoc(removed, i);
      DropHalf(d.versions, removed, i);
      RunConcat(d, before, [DropBinary(removed[i])]);
      RunOne(Run(d, before), DropBinary(removed[i]));
    }
  }

  /** versions/ after the first m calls of removePruned. */
  function DropAt(vs: map<string, Option<Bytes>>, removed: seq<string>, m: nat): map<string, Option<Bytes>>
    requires m <= 2 * |removed|
  {
    map v | v in vs && v !in removed[..m / 2] ::
      if m % 2 == 1 && v == removed[m / 2] then None else vs[v]
  }

  lemma RunThree(d: Disk, a: Step, b: Step, c: Step)
    ensures [a, b, c][..0] == [] && [a, b, c][..3] == [a, b, c]
    ensures Run(d, [a, b, c][..1]) == Apply(d, a)
    ensures Run(d, [a, b, c][..2]) == Apply(Apply(d, a), b)
    ensures Run(d, [a, b, c]) == Apply(Apply(Apply(d, a), b), c)
    ensures Runs(d, [a, b, c])
            <==> Enabled(d, a) && Enabled(Apply(d, a), b) && Enabled(Apply(Apply(d, a), b), c)
  {
    assert [a, b, c][..1] == [a] && [a, b, c][..2] == [a, b] && [a, b, c] == [a] + [b, c];
    RunOne(d, a);
    RunTwo(d, a, b);
    RunCons(d, a, [b, c]);
    RunTwo(Apply(d, a), b, c);
  }

  lemma ActivateRun(d: Disk, v: string, j: nat)
    requires j <= 3
    ensures
      var e := Run(d, [RemoveNext, LinkNext(v), RenameNext][..j]);
      e == d.(link := if j == 3 then Some(v) else d.link, next := e.next)
    ensures Runs(d, [RemoveNext, LinkNext(v), RenameNext])
  {
    assert Run(d, []) == d;
    ActivateApplies(d, v);
    hide Run, Runs, Apply, Enabled;
    RunThree(d, RemoveNext, LinkNext(v), RenameNext);
  }

  lemma ActivateApplies(d: Disk, v: string)
    ensures
      var removed := d.(next := None);
      var linked := d.(next := Some(v));
      var renamed := d.(link := Some(v), next := None);
      && Enabled(d, RemoveNext) && Apply(d, RemoveNext) == removed
      && Enabled(removed, LinkNext(v)) && Apply(removed, LinkNext(v)) == linked
      && Enabled(linked, RenameNext) && Apply(linked, RenameNext) == renamed
  {
  }

  lemma WriteStateApplies(d: Disk, s: State)
    ensures
      var created := d.(temp := Some(Garbage));
      var filled := d.(temp := Some(Saved(STATE_SCHEMA, s)));
      var renamed := d.(stateFile := Saved(STATE_SCHEMA, s), temp := None);
      && Enabled(d, CreateTemp) && Apply(d, CreateTemp) == created
      && Enabled(created, FillTemp(s)) && Apply(created, FillTemp(s)) == filled
      && Enabled(filled, RenameTemp) && Apply(filled, RenameTemp) == renamed
  {
  }

  lemma WriteStateRun(d: Disk, s: State, j: nat)
    requires j <= 3
    ensures
      var e := Run(d, [CreateTemp, FillTemp(s), RenameTemp][..j]);
      e == d.(stateFile := if j == 3 then Saved(STATE_SCHEMA, s) else d.stateFile, temp := e.temp)
    ensures Runs(d, [CreateTemp, FillTemp(s), RenameTemp])
  {
    assert Run(d, []) == d;
    WriteStateApplies(d, s);
    hide Run, Runs, Apply, Enabled;
    RunThree(d, CreateTemp, FillTemp(s), RenameTemp);
  }

  lemma SwitchRun(d: Disk, v: string, s: State, j: nat)
    requires j <= 6
    ensures
      var e := Run(d, Switch(v, s)[..j]);
      && e.versions == d.versions && e.staging == d.staging
      && e.link == (if j >= 3 then Some(v) else d.link)
      && e.stateFile == (if j >= 6 then Saved(STATE_SCHEMA, s) else d.stateFile)
    ensures Runs(d, Switch(v, s))
  {
    var activate := [RemoveNext, LinkNext(v), RenameNext];
    var write := [CreateTemp, FillTemp(s), RenameTemp];
    assert Switch(v, s) == activate + write;
    ActivateRun(d, v, if j < 3 then j else 3);
    ActivateRun(d, v, 3);
    assert activate[..3] == activate;
    RunConcat(d, activate, write);
    WriteStateRun(Run(d, activate), s, if j < 3 then 0 else j - 3);
    if j < 3 {
      assert Switch(v, s)[..j] == activate[..j];
    } else {
      assert Switch(v, s)[..j] == activate + write[..j - 3];
      RunConcat(d, activate, write[..j - 3]);
    }
  }

  // ---------------------------------------------------------------------
  // The disk at every cut
  // ---------------------------------------------------------------------

  /** versions/ after the first k calls of an operation that commits. */
  function VersionsAlong(vs: map<string, Option<Bytes>>, op: Op, k: nat): map<string, Option<Bytes>> {
    if !op.Install? then vs
    else if k <= SwitchAt(op) + 6 then PlacedAt(vs, op, k)
    else DropAt(vs[op.version := Some(op.binary)], op.removed, DropIndex(op, k - SwitchAt(op) - 6))
  }

  /** How many of m calls behind the switch belong to removePruned. */
  function DropIndex(op: Op, m: nat): (i: nat)
    requires op.Install?
    ensures i <= 2 * |op.removed|
  {
    if m < 2 * |op.removed| then m else 2 * |op.removed|
  }

  function VersionsAt(w: World, d: Disk, op: Op, k: nat): map<string, Option<Bytes>> {
    if Commits(w, d, op) then VersionsAlong(d.versions, op, k) else d.versions
  }

  function LinkAt(w: World, d: Disk, op: Op, k: nat): Option<string> {
    if Commits(w, d, op) && k >= SwitchAt(op) + 3 then Some(Decide(w, d, op).target) else d.link
  }

  function StateAt(w: World, d: Disk, op: Op, k: nat): StateFile {
    if Commits(w, d, op) && k >= SwitchAt(op) + 6 then Saved(STATE_SCHEMA, Decide(w, d, op).state) else d.stateFile
  }

  lemma QuietFrontCut(w: World, d: Disk, op: Op, k: nat)
    requires Feasible(w, d, op) && k <= |Front(w, d, op)|
    requires !Decide(w, d, op).Commit?
    ensures
      var c := Run(d, Front(w, d, op)[..k]);
      c == d.(staging := c.staging)
    ensures Runs(d, Front(w, d, op))
  {
    var front := Front(w, d, op);
    PrepareRun(d, op.sweep);
    if op.Install? && Decide(w, d, op).Abandoned? {
      assert front == Prepare(op.sweep) + Deliver(op);
      GroundworkRun(d, op);
      assert front == Groundwork(op)[..|front|];
      RunsPrefix(d, Groundwork(op), |front|);
    } else {
      assert front == Prepare(op.sweep);
    }
    QuietRun(d, front[..k]);
  }

  lemma LeadCut(d: Disk, op: Op, k: nat)
    requires Listing(op.sweep, Staged(d)) && (op.Install? ==> Placeable(op)) && k <= |Lead(op)|
    ensures
      var c := Run(d, Lead(op)[..k]);
      c == d.(versions := VersionsAlong(d.versions, op, k), staging := c.staging)
    ensures Runs(d, Lead(op))
  {
    if op.Install? {
      PlaceCut(d, op, k);
    } else {
      PrepareRun(d, op.sweep);
      QuietRun(d, Lead(op)[..k]);
    }
  }

  lemma TidyRun(d: Disk, archive: string, m: nat)
    requires m <= 2
    ensures
      var c := Run(d, [DropStaged(BACKUP), DropStaged(archive)][..m]);
      c == d.(staging := c.staging)
    ensures Runs(d, [DropStaged(BACKUP), DropStaged(archive)])
  {
    QuietRun(d, [DropStaged(BACKUP), DropStaged(archive)][..m]);
    RunTwo(d, DropStaged(BACKUP), DropStaged(archive));
  }

  lemma BackCut(d: Disk, op: Op, m: nat)
    requires op.Install? && m <= |Back(op)|
    ensures
      var c := Run(d, Back(op)[..m]);
      c == d.(versions := DropAt(d.versions, op.removed, DropIndex(op, m)), staging := c.staging)
    ensures Runs(d, Back(op))
  {
    var drops := Drops(op.removed);
    var tidy := [DropStaged(BACKUP), DropStaged(op.archive)];
    assert drops[..2 * |op.removed|] == drops;
    DropsRun(d, op.removed, |op.removed|);
    RunConcat(d, drops, tidy);
    TidyRun(Run(d, drops), op.archive, if m <= |drops| then 0 else m - |drops|);
    if m <= |drops| {
      assert Back(op)[..m] == drops[..m];
      DropsCut(d, op.removed, m);
    } else {
      assert Back(op)[..m] == drops + tidy[..m - |drops|];
      RunConcat(d, drops, tidy[..m - |drops|]);
    }
  }

  /** A cut of front + Switch + back, whatever front and back are. */
  lemma ThreePartCut(d: Disk, front: seq<Step>, v: string, s: State, back: seq<Step>, k: nat)
    requires k <= |front| + 6 + |back|
    ensures
      var n := |front|;
      var c := Run(d, (front + Switch(v, s) + back)[..k]);
      if k <= n then c == Run(d, front[..k])
      else
        var e := Run(Run(d, front), Switch(v, s)[..if k - n < 6 then k - n else 6]);
        c == if k <= n + 6 then e else Run(e, back[..k - n - 6])
    ensures Runs(d, front + Switch(v, s) + back)
            <==> Runs(d, front) && Runs(Run(d, front), Switch(v, s)) && Runs(Run(Run(d, front), Switch(v, s)), back)
  {
    var n, sw := |front|, Switch(v, s);
    var steps := front + sw + back;
    assert sw[..6] == sw;
    RunConcat(d, front, sw);
    RunConcat(d, front + sw, back);
    if k <= n {
      assert steps[..k] == front[..k];
    } else if k <= n + 6 {
      assert steps[..k] == front + sw[..k - n];
      RunConcat(d, front, sw[..k - n]);
    } else {
      assert steps[..k] == front + sw + back[..k - n - 6];
      RunConcat(d, front + sw, back[..k - n - 6]);
    }
  }

  /** The plan of an operation that switches to v and records s. */
  function Script(op: Op, v: string, s: State): seq<Step> {
    Lead(op) + Switch(v, s) + Back(op)
  }

  lemma ScriptCutBehind(d: Disk, op: Op, v: string, s: State, k: nat)
    requires Listing(op.sweep, Staged(d)) && (op.Install? ==> Placeable(op))
    requires SwitchAt(op) <= k <= |Script(op, v, s)|
    ensures
      var c := Run(d, Script(op, v, s)[..k]);
      && c.link == (if k >= SwitchAt(op) + 3 then Some(v) else d.link)
      && c.stateFile == (if k >= SwitchAt(op) + 6 then Saved(STATE_SCHEMA, s) else d.stateFile)
      && c.versions == VersionsAlong(d.versions, op, k)
  {
    hide Run, Runs, Drops, Switch;
    var lead, n := Lead(op), SwitchAt(op);
    ThreePartCut(d, lead, v, s, Back(op), k);
    LeadCut(d, op, n);
    assert lead[..n] == lead;
    SwitchRun(Run(d, lead), v, s, if k - n < 6 then k - n else 6);
    if k > n + 6 && op.Install? {
      BackCut(Run(Run(d, lead), Switch(v, s)[..6]), op, k - n - 6);
    }
  }

  lemma ScriptCut(d: Disk, op: Op, v: string, s: State, k: nat)
    requires Listing(op.sweep, Staged(d)) && (op.Install? ==> Placeable(op))
    requires k <= |Script(op, v, s)|
    ensures
      var c := Run(d, Script(op, v, s)[..k]);
      && c.link == (if k >= SwitchAt(op) + 3 then Some(v) else d.link)
      && c.stateFile == (if k >= SwitchAt(op) + 6 then Saved(STATE_SCHEMA, s) else d.stateFile)
      && c.versions == VersionsAlong(d.versions, op, k)
    ensures Runs(d, Script(op, v, s))
  {
    if k < SwitchAt(op) {
      ThreePartCut(d, Lead(op), v, s, Back(op), k);
      LeadCut(d, op, k);
    } else {
      ScriptCutBehind(d, op, v, s, k);
    }
    LeadCut(d, op, 0);
    SwitchRun(Run(d, Lead(op)), v, s, 0);
    if op.Install? { BackCut(Run(Run(d, Lead(op)), Switch(v, s)), op, 0); }
    ThreePartCut(d, Lead(op), v, s, Back(op), 0);
  }

  /** At every cut the link, state.json and versions/ are exactly what these three definitions say. */
  lemma DiskAtCut(w: World, d: Disk, op: Op, k: nat)
    requires Feasible(w, d, op) && k <= |Steps(w, d, op)|
    ensures Cut(w, d, op, k).link == LinkAt(w, d, op, k)
    ensures Cut(w, d, op, k).stateFile == StateAt(w, d, op, k)
    ensures Cut(w, d, op, k).versions == VersionsAt(w, d, op, k)
  {
    if Commits(w, d, op) {
      FrontIsLead(w, d, op);
      ScriptCut(d, op, Decide(w, d, op).target, Decide(w, d, op).state, k);
    } else if !(op.Install? && !w.valid(op.version)) {
      QuietFrontCut(w, d, op, k);
    }
  }

  /** No call of an operation fails because of what the earlier ones left behind. */
  lemma PlanNeverStalls(w: World, d: Disk, op: Op)
    requires Feasible(w, d, op)
    ensures Runs(d, Steps(w, d, op))
  {
    if Commits(w, d, op) {
      FrontIsLead(w, d, op);
      ScriptCut(d, op, Decide(w, d, op).target, Decide(w, d, op).state, 0);
    } else if !(op.Install? && !w.valid(op.version)) {
      QuietFrontCut(w, d, op, 0);
    }
  }
}
