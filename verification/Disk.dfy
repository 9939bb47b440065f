// The provisioning root as a value, and the file-system calls that change it, each taking effect at once.
module Disk {
  import opened Common
  import opened Prune

  // An entry of <root>/staging: a plain file, or a directory that may hold one binary.
  datatype Node = File(content: Bytes) | Folder(binary: Option<Bytes>)

  type StagingArea = map<string, Node>

  // Decoded content of state.json or of a state-* temporary file.
  datatype StateFile = Missing | Garbage | Saved(schema: string, state: State)

  const STATE_SCHEMA := "spectra-proxy.provision/1"
  const BINARY := "spectra"
  const CANDIDATE := "candidate"
  const BACKUP := "replaced-version"

  datatype Disk = Disk(
    versions: map<string, Option<Bytes>>, // versions/<v>, with its binary unless a removal was cut half way
    link: Option<string>,                 // the version named by the current symlink
    next: Option<string>,                 // current.new
    stateFile: StateFile,
    temp: Option<StateFile>,              // the newest state-* file
    staging: Option<StagingArea>)

  const EMPTY := Disk(map[], None, None, Missing, None, None)

  /** The parts of the root that outlive one operation. */
  predicate SameInstallation(a: Disk, b: Disk) {
    a.versions == b.versions && a.link == b.link && a.stateFile == b.stateFile
  }

  datatype Step =
    | DropStaged(name: string) | RemoveStaging | MakeStaging
    | WriteArchive(name: string, content: Bytes) | WriteBinary(content: Bytes)
    | MakeCandidate | MoveBinary
    | SetAside(v: string) | Publish(v: string) | PutBack(v: string)
    | RemoveNext | LinkNext(v: string) | RenameNext
    | CreateTemp | FillTemp(s: State) | RenameTemp
    | DropBinary(v: string) | DropFolder(v: string)

  /** The call succeeds in this directory state. */
  predicate Enabled(d: Disk, step: Step) {
    match step
    case DropStaged(_) => true
    case RemoveStaging => d.staging.None? || d.staging.value == map[]
    case MakeStaging => d.staging.None?
    case WriteArchive(name, _) => d.staging.Some? && name !in d.staging.value
    case WriteBinary(_) => d.staging.Some? && BINARY !in d.staging.value
    case MakeCandidate => d.staging.Some? && CANDIDATE !in d.staging.value
    case MoveBinary =>
      && d.staging.Some? && BINARY in d.staging.value && d.staging.value[BINARY].File?
      && CANDIDATE in d.staging.value && d.staging.value[CANDIDATE].Folder?
    case SetAside(v) => d.staging.Some? && (v in d.versions ==> BACKUP !in d.staging.value)
    case Publish(v) =>
      d.staging.Some? && CANDIDATE in d.staging.value && d.staging.value[CANDIDATE].Folder? && v !in d.versions
    case PutBack(v) =>
      d.staging.Some? && BACKUP in d.staging.value && d.staging.value[BACKUP].Folder? && v !in d.versions
    case RemoveNext => true
    case LinkNext(_) => d.next.None?
    case RenameNext => d.next.Some?
    case CreateTemp => true
    case FillTemp(_) => d.temp.Some?
    case RenameTemp => d.temp.Some?
    case DropBinary(_) => true
    case DropFolder(v) => v in d.versions ==> d.versions[v].None?
  }

  /** A call that cannot succeed reports an error and changes nothing. */
  function Apply(d: Disk, step: Step): Disk {
    if !Enabled(d, step) then d
    else
      match step
      case DropStaged(name) => if d.staging.Some? then d.(staging := Some(d.staging.value - {name})) else d
      case RemoveStaging => d.(staging := None)
      case MakeStaging => d.(staging := Some(map[]))
      case WriteArchive(name, content) => d.(staging := Some(d.staging.value[name := File(content)]))
      case WriteBinary(content) => d.(staging := Some(d.staging.value[BINARY := File(content)]))
      case MakeCandidate => d.(staging := Some(d.staging.value[CANDIDATE := Folder(None)]))
      case MoveBinary =>
        var area := d.staging.value;
        d.(staging := Some((area - {BINARY})[CANDIDATE := Folder(Some(area[BINARY].content))]))
      case SetAside(v) =>
        if v in d.versions then
          d.(versions := d.versions - {v}, staging := Some(d.staging.value[BACKUP := Folder(d.versions[v])]))
        else d
      case Publish(v) =>
        var area := d.staging.value;
        d.(versions := d.versions[v := area[CANDIDATE].binary], staging := Some(area - {CANDIDATE}))
      case PutBack(v) =>
        var area := d.staging.value;
        d.(versions := d.versions[v := area[BACKUP].binary], staging := Some(area - {BACKUP}))
      case RemoveNext => d.(next := None)
      case LinkNext(v) => d.(next := Some(v))
      case RenameNext => d.(link := d.next, next := None)
      case CreateTemp => d.(temp := Some(Garbage))
      case FillTemp(s) => d.(temp := Some(Saved(STATE_SCHEMA, s)))
      case RenameTemp => d.(stateFile := d.temp.value, temp := None)
      case DropBinary(v) => if v in d.versions then d.(versions := d.versions[v := None]) else d
      case DropFolder(v) => d.(versions := d.versions - {v})
  }

  /** The disk after the steps, in order; a crash in the middle of a longer list leaves a prefix. */
  function Run(d: Disk, steps: seq<Step>): Disk {
    if steps == [] then d else Apply(Run(d, steps[..|steps| - 1]), steps[|steps| - 1])
  }

  /** No step of the list fails. */
  predicate Runs(d: Disk, steps: seq<Step>) {
    steps == [] || (Runs(d, steps[..|steps| - 1]) && Enabled(Run(d, steps[..|steps| - 1]), steps[|steps| - 1]))
  }

  lemma {:induction false} RunConcat(d: Disk, xs: seq<Step>, ys: seq<Step>)
    ensures Run(d, xs + ys) == Run(Run(d, xs), ys)
    ensures Runs(d, xs + ys) <==> Runs(d, xs) && Runs(Run(d, xs), ys)
  {
    if ys == [] {
      assert xs + ys == xs;
    } else {
      var front := ys[..|ys| - 1];
      assert (xs + ys)[..|xs + ys| - 1] == xs + front;
      RunConcat(d, xs, front);
    }
  }

  lemma RunOne(d: Disk, step: Step)
    ensures Run(d, [step]) == Apply(d, step)
    ensures Runs(d, [step]) <==> Enabled(d, step)
  {
    assert [step][..0] == [];
  }

  lemma RunCons(d: Disk, step: Step, rest: seq<Step>)
    ensures Run(d, [step] + rest) == Run(Apply(d, step), rest)
    ensures Runs(d, [step] + rest) <==> Enabled(d, step) && Runs(Apply(d, step), rest)
  {
    RunConcat(d, [step], rest);
    RunOne(d, step);
  }

  lemma {:induction false} RunsPrefix(d: Disk, steps: seq<Step>, k: nat)
    requires Runs(d, steps) && k <= |steps|
    ensures Runs(d, steps[..k])
  {
    assert steps == steps[..k] + steps[k..];
    RunConcat(d, steps[..k], steps[k..]);
  }

  // ---------------------------------------------------------------------
  // Which steps can reach which part of the disk
  // ---------------------------------------------------------------------

  /** Works inside staging/ only. */
  predicate Quiet(step: Step) {
    step.DropStaged? || step.RemoveStaging? || step.MakeStaging? || step.WriteArchive? || step.WriteBinary?
    || step.MakeCandidate? || step.MoveBinary?
  }

  /** Touches neither the link, nor state.json, nor the files they are renamed from. */
  predicate AsideFromSwitch(step: Step) {
    Quiet(step) || step.SetAside? || step.Publish? || step.PutBack? || step.DropBinary? || step.DropFolder?
  }

  lemma {:induction false} QuietRun(d: Disk, steps: seq<Step>)
    requires forall s :: s in steps ==> Quiet(s)
    ensures Run(d, steps) == d.(staging := Run(d, steps).staging)
  {
    if steps != [] {
      QuietRun(d, steps[..|steps| - 1]);
      assert Quiet(steps[|steps| - 1]);
    }
  }

  lemma {:induction false} AsideRun(d: Disk, steps: seq<Step>)
    requires forall s :: s in steps ==> AsideFromSwitch(s)
    ensures Run(d, steps) == d.(versions := Run(d, steps).versions, staging := Run(d, steps).staging)
  {
    if steps != [] {
      AsideRun(d, steps[..|steps| - 1]);
      assert AsideFromSwitch(steps[|steps| - 1]);
    }
  }
}
