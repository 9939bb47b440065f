// The two halves of install put together: what the network delivers is what the root commits
// (internal/provision/provision.go, install).
module Installer {
  import opened Common
  import opened Disk
  import opened Plans
  import opened CrashSafety
  import opened Delivery
  import opened Outcomes
  import opened Provisioner

  type Network = (string, string, string) -> Answer

  // The machine's fixed configuration: verification, keys, and the version and digest functions.
  datatype Setup = Setup(o: Outside, trusted: seq<string>, valid: string -> bool, rank: string -> int,
                         digest: Bytes -> string)

  ghost function Keys(s: Setup): seq<string> {
    if ParsedKeys(s.o, s.trusted).Some? then ParsedKeys(s.o, s.trusted).value else []
  }

  function WorldOf(s: Setup): World {
    ProvisioningWorld(s.o, Keys(s), s.valid, s.rank, s.digest)
  }

  // One request of a user, what the network serves while it is carried out, the times and names the system
  // chooses, and which file-system calls fail; all calls failing from some point on is a crash there.
  datatype Request =
    | Get(version: string, update: bool, keep: int, now: int, archive: string, sources: seq<string>, net: Network,
        faulty: nat -> bool)
    | GoBack(faulty: nat -> bool)

  /** What the network delivers for a request, if anything usable. */
  ghost predicate Delivers(s: Setup, r: Request, binary: Bytes)
    requires r.Get?
  {
    var o := s.o.(get := r.net);
    s.trusted != [] && ParsedKeys(s.o, s.trusted).Some? &&
    exists i, f :: FirstToServe(o, r.sources, r.version, Keys(s), i, f) && Usable(o, r.version, f, binary)
  }

  /** Delivery for a request: a binary comes out iff the network delivers it, and it is vetted. */
  method Fetch(s: Setup, r: Request) returns (got: Option<Bytes>, package: Bytes)
    requires r.Get?
    ensures forall b :: got == Some(b) <==> Delivers(s, r, b)
    ensures got.Some? ==> WorldOf(s).vetted(r.version, got.value)
  {
    var o := s.o.(get := r.net);
    KeysIgnoreNetwork(s.o, r.net, s.trusted);
    got, package := Delivery.Deliver(o, r.sources, r.version, s.trusted);
    if got.Some? {
      VettedIgnoresNetwork(s.o, r.net, Keys(s), r.version, got.value);
    }
  }

  /**
   * install and update from the request to the committed root, whatever the network serves and whichever calls fail.
   * Nothing is downloaded unless the recorded state allows the change; otherwise the root ends at a cut of the plan
   * that installs what the network delivered, and keeps its invariant. Nothing is assumed of the binary.
   */
  method InstallRelease(root: Root, s: Setup, r: Request) returns (ok: bool, fetched: bool, ghost op: Op, ghost k: nat)
    requires r.Get? && r.archive !in {BINARY, CANDIDATE, BACKUP}
    requires root.Valid() && root.log == [] && root.start == root.disk
    modifies root
    ensures op.Install? && op.version == r.version && op.update == r.update && op.keep == r.keep && op.now == r.now
    ensures fetched ==> Allowed(WorldOf(s), old(root.disk), r.version, r.update)
    ensures !fetched ==> SameInstallation(root.disk, old(root.disk)) && !op.approved
    ensures op.approved ==> Delivers(s, r, op.binary)
    ensures fetched && !op.approved ==> forall b :: !Delivers(s, r, b)
    ensures Feasible(WorldOf(s), old(root.disk), op) && k <= |Steps(WorldOf(s), old(root.disk), op)|
    ensures SameInstallation(root.disk, Cut(WorldOf(s), old(root.disk), op, k))
    ensures ok ==> Commits(WorldOf(s), old(root.disk), op) && k == |Steps(WorldOf(s), old(root.disk), op)|
    ensures ok && !s.valid("") ==>
              && Readable(WorldOf(s), old(root.disk)) && Readable(WorldOf(s), root.disk)
              && Installed(WorldOf(s), old(root.disk), root.disk, r.version, op.binary, r.now, r.keep)
    ensures root.Reliable() && Allowed(WorldOf(s), old(root.disk), r.version, r.update) ==>
              fetched && (ok <==> exists b :: Delivers(s, r, b))
    ensures !s.valid("") && Inv(WorldOf(s), old(root.disk)) ==> Inv(WorldOf(s), root.disk)
  {
    var w := WorldOf(s);
    ghost var before := root.disk;
    var state;
    ghost var sweep;
    state, sweep := root.Begin(w, r.version, r.update);
    if state.None? {
      op := WithSomeRemovals(w, before, WishFor(r, None, [], sweep));
      k := |root.log|;
      BeginIsPrefix(w, before, op, root.log);
      CutKeepsInvAfter(s, root.disk, before, op, k);
      return false, false, op, k;
    }
    var got, package := Fetch(s, r);
    fetched := true;
    var wish := WishFor(r, got, package, []);
    op := WithSomeRemovals(w, before, wish.(sweep := sweep));
    ok, op, k := root.DeliverAndCommit(w, wish, state.value, w.digest(wish.binary), op);
    CutKeepsInvAfter(s, root.disk, before, op, k);
    if ok && !s.valid("") { CompletedInstall(w, before, root.disk, op, k); }
  }

  function WishFor(r: Request, got: Option<Bytes>, package: Bytes, sweep: seq<string>): Op
    requires r.Get?
  {
    Op.Install(r.version, r.update, r.keep, r.now, r.archive, package,
               if got.Some? then got.value else [], got.Some?, sweep, [])
  }

  lemma CutKeepsInvAfter(s: Setup, disk: Disk, before: Disk, op: Op, k: nat)
    requires Feasible(WorldOf(s), before, op) && k <= |Steps(WorldOf(s), before, op)|
    requires SameInstallation(disk, Cut(WorldOf(s), before, op, k))
    ensures !s.valid("") && Inv(WorldOf(s), before) ==> Inv(WorldOf(s), disk)
  {
    if !s.valid("") && Inv(WorldOf(s), before) {
      CutKeepsInv(WorldOf(s), before, op, k);
      SameInstallationKeepsInv(WorldOf(s), disk, Cut(WorldOf(s), before, op, k));
    }
  }

  /** Rollback on a root: a completed one leads to a binary that passes the probe of this very machine. */
  method RollbackRelease(root: Root, s: Setup) returns (ok: bool)
    requires root.Valid() && root.log == [] && root.start == root.disk
    modifies root
    ensures ok ==>
              && Readable(WorldOf(s), old(root.disk)) && Readable(WorldOf(s), root.disk)
              && RolledBack(WorldOf(s), old(root.disk), root.disk)
              && var current := Stored(WorldOf(s), root.disk).current;
                 root.disk.link == Some(current) && HasBinary(root.disk, current)
                     && Suits(s.o, current, root.disk.versions[current].value)
    ensures !Restorable(WorldOf(s), old(root.disk)) ==> !ok && SameInstallation(root.disk, old(root.disk))
    ensures !s.valid("") && Inv(WorldOf(s), old(root.disk)) ==> Inv(WorldOf(s), root.disk)
  {
    var w := WorldOf(s);
    ghost var before := root.disk;
    ghost var op, k;
    ok, op, k := root.Rollback(w);
    CutKeepsInvAfter(s, root.disk, before, op, k);
    if ok {
      var current := Stored(w, root.disk).current;
      PassesCheckIff(s.o, root.disk.versions[current].value, current, CAPABILITIES_SCHEMA);
    }
  }

  /**
   * Any sequence of requests on an empty root, over any network and with any calls failing: every binary that ends
   * up under versions/ was signed, verified, extracted and found compatible for that version.
   */
  method Maintain(s: Setup, requests: seq<Request>) returns (disk: Disk)
    requires !s.valid("")
    requires forall r :: r in requests && r.Get? ==> r.archive !in {BINARY, CANDIDATE, BACKUP}
    ensures Inv(WorldOf(s), disk)
    ensures forall v :: HasBinary(disk, v) ==>
              Vetted(s.o, Keys(s), v, disk.versions[v].value) && Authentic(s.o, Keys(s), v, disk.versions[v].value)
  {
    disk := EMPTY;
    for i := 0 to |requests|
      invariant Inv(WorldOf(s), disk)
    {
      var root := new Root(disk, requests[i].faulty);
      if requests[i].Get? {
        assert requests[i] in requests;
        var _, _, _, _ := InstallRelease(root, s, requests[i]);
      } else {
        var _ := RollbackRelease(root, s);
      }
      disk := root.disk;
    }
    forall v | HasBinary(disk, v)
      ensures Vetted(s.o, Keys(s), v, disk.versions[v].value) && Authentic(s.o, Keys(s), v, disk.versions[v].value)
    {
      assert WorldOf(s).vetted(v, disk.versions[v].value);
      VettedIffAuthentic(s.o, Keys(s), v, disk.versions[v].value);
    }
  }
}
