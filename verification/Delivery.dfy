// From a version name to a binary that may be installed: download with source fallback, signature and
// digest verification, extraction and the compatibility probe
// (internal/provision/fetch.go, compat.go and the middle of install).
module Delivery {
  import opened Common
  import opened GoText
  import opened Extract
  import Disk
  import Plans
  import CrashSafety

  // ---------------------------------------------------------------------
  // The outside world
  // ---------------------------------------------------------------------

  // A GET as seen by the caller: a body that ends cleanly or breaks off; a connection error, 404 or 5xx;
  // or a policy violation or any other status.
  datatype Answer = Received(content: Bytes, complete: bool) | Unavailable | Denied

  datatype Artifact = Artifact(path: string, size: nat)

  datatype Manifest = Manifest(version: string, capabilitiesSchema: int, body: Bytes)

  datatype Capabilities = Capabilities(
    schemaVersion: int, spectraVersion: string, os: string, arch: string,
    hasInspect: bool,        // the inspect interface is listed
    inspectSchemaOk: bool,   // ResultSchemaFor(inspect) succeeds
    snapshotSchemaOk: bool)  // ResultSchemaFor(snapshot.create) succeeds

  // The release and protocol libraries, the network and the installed binary, as functions.
  datatype Outside = Outside(
    get: (string, string, string) -> Answer,            // source, version, file name
    parseKey: string -> Option<string>,
    verify: (Bytes, Bytes, seq<string>) -> Option<Manifest>,
    artifactFor: Manifest -> Option<Artifact>,
    digestMatches: (Bytes, Artifact) -> bool,
    untar: Bytes -> Archive,
    probe: Bytes -> Option<Capabilities>,               // run capabilities --json, bounded and decoded
    os: string, arch: string, maxManifest: nat)

  const MANIFEST_NAME := "spectra-release.json"
  const SIGNATURE_NAME := "spectra-release.json.sig"
  const CAPABILITIES_SCHEMA := 1

  // Transport failures let the next source be tried, fatal ones do not.
  datatype Failure = Transport | Fatal

  predicate SafeName(name: string) {
    && name != "" && name[0] != '.'
    && forall c :: c in name ==> 'A' <= c <= 'Z' || 'a' <= c <= 'z' || '0' <= c <= '9' || c in "._-"
  }

  // ---------------------------------------------------------------------
  // One source
  // ---------------------------------------------------------------------

  function Get(o: Outside, source: string, version: string, name: string): Result<Answer, Failure> {
    if !SafeName(name) then Err(Fatal)
    else
      match o.get(source, version, name)
      case Received(content, complete) => Ok(Received(content, complete))
      case Unavailable => Err(Transport)
      case Denied => Err(Fatal)
  }

  /** A name that could leave the release directory is never asked for, whatever the network would say. */
  lemma UnsafeNamesAreRefused(o: Outside, source: string, version: string, name: string)
    requires name == "" || name[0] == '.' || '/' in name || '%' in name || '?' in name || '#' in name
    ensures Get(o, source, version, name) == Err(Fatal)
  {
  }

  /** Reading at most limit+1 bytes: a body that breaks off later than that is simply too large. */
  function ReadBounded(a: Answer, limit: nat): Result<Bytes, Failure>
    requires a.Received?
  {
    if |a.content| > limit then Err(Fatal)
    else if !a.complete then Err(Transport)
    else Ok(a.content)
  }

  /** One file, up to a limit. */
  function FetchFile(o: Outside, source: string, version: string, name: string, limit: nat): Result<Bytes, Failure> {
    match Get(o, source, version, name)
    case Err(f) => Err(f)
    case Ok(a) => if a.Received? then ReadBounded(a, limit) else Err(Fatal)
  }

  function FetchSmall(o: Outside, source: string, version: string, name: string): Result<Bytes, Failure> {
    FetchFile(o, source, version, name, o.maxManifest)
  }

  datatype Fetched = Fetched(manifest: Manifest, artifact: Artifact, archive: Bytes)

  /** The archive is what a release signed by a trusted key says it is, for this version and platform. */
  ghost predicate Released(o: Outside, keys: seq<string>, version: string, f: Fetched) {
    && (exists m, s :: o.verify(m, s, keys) == Some(f.manifest))
    && f.manifest.version == version
    && o.artifactFor(f.manifest) == Some(f.artifact)
    && |f.archive| <= f.artifact.size && o.digestMatches(f.archive, f.artifact)
  }

  /** The signed manifest of a source, if it passes every check that precedes the download. */
  function TrustedManifest(o: Outside, source: string, version: string, keys: seq<string>): Option<Manifest> {
    var m, s := FetchSmall(o, source, version, MANIFEST_NAME), FetchSmall(o, source, version, SIGNATURE_NAME);
    if m.Err? || s.Err? then None
    else
      var manifest := o.verify(m.value, s.value, keys);
      if manifest.Some? && manifest.value.version == version then manifest else None
  }

  /**
   * fetchSource. The names asked of the server are returned too: nothing but the two metadata files is
   * requested before the manifest is trusted.
   */
  method FetchSource(o: Outside, source: string, version: string, keys: seq<string>)
    returns (r: Result<Fetched, Failure>, asked: seq<string>)
    ensures r.Ok? ==> Released(o, keys, version, r.value)
    ensures r == SourceOutcome(o, source, version, keys)
    ensures forall name :: name in asked && name != MANIFEST_NAME && name != SIGNATURE_NAME ==>
              var m := TrustedManifest(o, source, version, keys);
              m.Some? && o.artifactFor(m.value).Some? && name == o.artifactFor(m.value).value.path
  {
    asked := [MANIFEST_NAME];
    var m := FetchSmall(o, source, version, MANIFEST_NAME);
    if m.Err? { return Err(m.error), asked; }
    asked := asked + [SIGNATURE_NAME];
    var s := FetchSmall(o, source, version, SIGNATURE_NAME);
    if s.Err? { return Err(s.error), asked; }
    var manifest := o.verify(m.value, s.value, keys);
    if manifest.None? || manifest.value.version != version { return Err(Fatal), asked; }
    var artifact := o.artifactFor(manifest.value);
    if artifact.None? { return Err(Fatal), asked; }
    asked := asked + [artifact.value.path];
    var a := Get(o, source, version, artifact.value.path);
    if a.Err? { return Err(a.error), asked; }
    if !a.value.Received? { return Err(Fatal), asked; }
    var data := ReadBounded(a.value, artifact.value.size);
    if data.Err? { return Err(data.error), asked; }
    if !o.digestMatches(data.value, artifact.value) { return Err(Fatal), asked; }
    r := Ok(Fetched(manifest.value, artifact.value, data.value));
  }

  /** The outcome of one source as a function, for stating what the fallback loop selects. */
  function SourceOutcome(o: Outside, source: string, version: string, keys: seq<string>): Result<Fetched, Failure> {
    var m := FetchSmall(o, source, version, MANIFEST_NAME);
    if m.Err? then Err(m.error)
    else
      var s := FetchSmall(o, source, version, SIGNATURE_NAME);
      if s.Err? then Err(s.error)
      else
        match TrustedManifest(o, source, version, keys)
        case None => Err(Fatal)
        case Some(manifest) => ArtifactOutcome(o, source, version, manifest)
  }

  function ArtifactOutcome(o: Outside, source: string, version: string, manifest: Manifest): Result<Fetched, Failure> {
    match o.artifactFor(manifest)
    case None => Err(Fatal)
    case Some(artifact) =>
      match FetchFile(o, source, version, artifact.path, artifact.size)
      case Err(f) => Err(f)
      case Ok(data) => if o.digestMatches(data, artifact) then Ok(Fetched(manifest, artifact, data)) else Err(Fatal)
  }

  /** The source serves the file, whole and within the limit. */
  predicate Serves(o: Outside, source: string, version: string, name: string, limit: nat, content: Bytes) {
    SafeName(name) && o.get(source, version, name) == Received(content, true) && |content| <= limit
  }

  /** The file cannot be had for now: no connection, not found, a server error, or a body that breaks off. */
  predicate Lost(o: Outside, source: string, version: string, name: string, limit: nat) {
    var a := o.get(source, version, name);
    SafeName(name) && (a.Unavailable? || (a.Received? && !a.complete && |a.content| <= limit))
  }

  /** The source's metadata, served whole, name artifact a of a release of the version signed by a trusted key. */
  predicate Announces(o: Outside, source: string, version: string, keys: seq<string>, m: Bytes, s: Bytes,
                      manifest: Manifest, a: Artifact) {
    && Serves(o, source, version, MANIFEST_NAME, o.maxManifest, m)
    && Serves(o, source, version, SIGNATURE_NAME, o.maxManifest, s)
    && o.verify(m, s, keys) == Some(manifest) && manifest.version == version
    && o.artifactFor(manifest) == Some(a)
  }

  lemma FileOutcome(o: Outside, source: string, version: string, name: string, limit: nat)
    ensures forall content :: FetchFile(o, source, version, name, limit) == Ok(content) <==>
                              Serves(o, source, version, name, limit, content)
    ensures FetchFile(o, source, version, name, limit) == Err(Transport) <==> Lost(o, source, version, name, limit)
  {
  }

  /** A source serves a release exactly when metadata and archive come whole, signed, and of the announced digest. */
  lemma SourceServesIff(o: Outside, source: string, version: string, keys: seq<string>, f: Fetched)
    ensures SourceOutcome(o, source, version, keys) == Ok(f) <==>
      && (exists m, s :: Announces(o, source, version, keys, m, s, f.manifest, f.artifact))
      && Serves(o, source, version, f.artifact.path, f.artifact.size, f.archive)
      && o.digestMatches(f.archive, f.artifact)
  {
    FileOutcome(o, source, version, MANIFEST_NAME, o.maxManifest);
    FileOutcome(o, source, version, SIGNATURE_NAME, o.maxManifest);
    FileOutcome(o, source, version, f.artifact.path, f.artifact.size);
    hide SafeName, Serves, Lost, FetchFile;
    var m, s := FetchSmall(o, source, version, MANIFEST_NAME), FetchSmall(o, source, version, SIGNATURE_NAME);
    if SourceOutcome(o, source, version, keys) == Ok(f) {
      assert Announces(o, source, version, keys, m.value, s.value, f.manifest, f.artifact);
    }
    if exists m, s :: Announces(o, source, version, keys, m, s, f.manifest, f.artifact) {
      var mb, sb :| Announces(o, source, version, keys, mb, sb, f.manifest, f.artifact);
      assert m == Ok(mb) && s == Ok(sb);
    }
  }

  /**
   * Only these failures let the next source be tried: a file that cannot be had for now, after everything before it
   * was in order.
   */
  lemma SourceUnreachableIff(o: Outside, source: string, version: string, keys: seq<string>)
    ensures SourceOutcome(o, source, version, keys) == Err(Transport) <==>
      || Lost(o, source, version, MANIFEST_NAME, o.maxManifest)
      || ((exists m :: Serves(o, source, version, MANIFEST_NAME, o.maxManifest, m))
          && Lost(o, source, version, SIGNATURE_NAME, o.maxManifest))
      || exists m, s, manifest, a ::
           Announces(o, source, version, keys, m, s, manifest, a) && Lost(o, source, version, a.path, a.size)
  {
    FileOutcome(o, source, version, MANIFEST_NAME, o.maxManifest);
    FileOutcome(o, source, version, SIGNATURE_NAME, o.maxManifest);
    hide SafeName, Serves, Lost, FetchFile;
    var m, s := FetchSmall(o, source, version, MANIFEST_NAME), FetchSmall(o, source, version, SIGNATURE_NAME);
    var manifest := TrustedManifest(o, source, version, keys);
    if m.Ok? && s.Ok? && manifest.Some? && o.artifactFor(manifest.value).Some? {
      var a := o.artifactFor(manifest.value).value;
      FileOutcome(o, source, version, a.path, a.size);
      assert Announces(o, source, version, keys, m.value, s.value, manifest.value, a);
    }
    forall mb, sb, other, a | Announces(o, source, version, keys, mb, sb, other, a)
      ensures m == Ok(mb) && s == Ok(sb) && manifest == Some(other) && o.artifactFor(other) == Some(a)
    {
    }
  }

  // ---------------------------------------------------------------------
  // Source fallback
  // ---------------------------------------------------------------------

  datatype FetchError = NoKeys | BadKey | SourceRejected(index: nat) | AllSourcesFailed

  /** Every source before i was merely unreachable. */
  ghost predicate UnreachableBefore(o: Outside, sources: seq<string>, version: string, keys: seq<string>, i: nat)
    requires i <= |sources|
  {
    forall j :: 0 <= j < i ==> SourceOutcome(o, sources[j], version, keys) == Err(Transport)
  }

  /** All trusted keys, if every one of them parses. */
  function ParsedKeys(o: Outside, raw: seq<string>): Option<seq<string>> {
    if raw == [] then Some([])
    else
      var rest, last := ParsedKeys(o, raw[..|raw| - 1]), o.parseKey(raw[|raw| - 1]);
      if rest.None? || last.None? then None else Some(rest.value + [last.value])
  }

  lemma {:induction false} ParsedKeysIff(o: Outside, raw: seq<string>)
    ensures ParsedKeys(o, raw).Some? <==> forall k :: 0 <= k < |raw| ==> o.parseKey(raw[k]).Some?
    ensures ParsedKeys(o, raw).Some? ==>
              |ParsedKeys(o, raw).value| == |raw| && forall k :: 0 <= k < |raw| ==>
                  o.parseKey(raw[k]) == Some(ParsedKeys(o, raw).value[k])
  {
    if raw != [] {
      var front := raw[..|raw| - 1];
      ParsedKeysIff(o, front);
      assert forall k :: 0 <= k < |front| ==> raw[k] == front[k];
    }
  }

  method ParseKeys(o: Outside, raw: seq<string>) returns (keys: Option<seq<string>>)
    ensures keys == ParsedKeys(o, raw)
  {
    ParsedKeysIff(o, raw);
    var parsed := [];
    for i := 0 to |raw|
      invariant ParsedKeys(o, raw[..i]) == Some(parsed)
    {
      var key := o.parseKey(raw[i]);
      if key.None? { return None; }
      assert raw[..i + 1][..i] == raw[..i];
      parsed := parsed + [key.value];
    }
    assert raw[..|raw|] == raw;
    keys := Some(parsed);
  }

  /** Source i is the first that is not merely unreachable, and it serves f. */
  ghost predicate FirstToServe(o: Outside, sources: seq<string>, version: string, keys: seq<string>, i: nat,
                               f: Fetched) {
    i < |sources| && UnreachableBefore(o, sources, version, keys, i)
        && SourceOutcome(o, sources[i], version, keys) == Ok(f)
  }

  /** fetchRelease: the first source that is not merely unreachable decides. */
  method FetchRelease(o: Outside, sources: seq<string>, version: string, trusted: seq<string>)
      returns (r: Result<Fetched, FetchError>)
    ensures r == Err(NoKeys) <==> trusted == []
    ensures r == Err(BadKey) <==> ParsedKeys(o, trusted).None?
    ensures r.Ok? ==> ParsedKeys(o, trusted).Some? && Released(o, ParsedKeys(o, trusted).value, version, r.value)
    ensures trusted != [] && ParsedKeys(o, trusted).Some? ==>
      var keys := ParsedKeys(o, trusted).value;
      && (forall f :: r == Ok(f) <==> exists i :: FirstToServe(o, sources, version, keys, i, f))
      && (forall i: nat :: r == Err(SourceRejected(i)) <==>
            i < |sources| && UnreachableBefore(o, sources, version, keys, i)
                && SourceOutcome(o, sources[i], version, keys) == Err(Fatal))
      && (r == Err(AllSourcesFailed) <==> UnreachableBefore(o, sources, version, keys, |sources|))
  {
    if |trusted| == 0 { return Err(NoKeys); }
    var parsed := ParseKeys(o, trusted);
    if parsed.None? { return Err(BadKey); }
    for i := 0 to |sources|
      invariant UnreachableBefore(o, sources, version, parsed.value, i)
    {
      var outcome, _ := FetchSource(o, sources[i], version, parsed.value);
      if outcome.Ok? {
        assert FirstToServe(o, sources, version, parsed.value, i, outcome.value);
        return Ok(outcome.value);
      }
      if outcome.error.Fatal? { return Err(SourceRejected(i)); }
    }
    r := Err(AllSourcesFailed);
  }

  // ---------------------------------------------------------------------
  // Compatibility
  // ---------------------------------------------------------------------

  /** checkCapabilities: the probed binary speaks the supported schema for exactly this version and platform. */
  function CheckCapabilities(o: Outside, binary: Bytes, version: string, schemaVersion: int): bool {
    match o.probe(binary)
    case None => false
    case Some(c) =>
      if c.schemaVersion != schemaVersion || c.schemaVersion != CAPABILITIES_SCHEMA then false
      else if c.spectraVersion != version then false
      else if c.os != o.os then false
      else if c.arch != o.arch then false
      else if !c.snapshotSchemaOk then false
      else if o.os == "darwin" then c.inspectSchemaOk
      else c.hasInspect ==> c.inspectSchemaOk
  }

  /** What a probe must answer for a binary to be this version on this machine. */
  predicate RunsHere(o: Outside, version: string, c: Capabilities) {
    && c.schemaVersion == 1 && c.spectraVersion == version
    && c.os == o.os && c.arch == o.arch
    && c.snapshotSchemaOk
    && (o.os == "darwin" || c.hasInspect ==> c.inspectSchemaOk)
  }

  predicate Suits(o: Outside, version: string, binary: Bytes) {
    o.probe(binary).Some? && RunsHere(o, version, o.probe(binary).value)
  }

  /** The compatibility check lets a binary pass exactly when its probe says all of this. */
  lemma PassesCheckIff(o: Outside, binary: Bytes, version: string, schemaVersion: int)
    ensures CheckCapabilities(o, binary, version, schemaVersion) <==> schemaVersion == 1 && Suits(o, version, binary)
  {
  }

  // ---------------------------------------------------------------------
  // The whole delivery
  // ---------------------------------------------------------------------

  function Top(a: Artifact): string {
    TrimSuffix(a.path, ".tar.gz")
  }

  /** The archive holds one acceptable binary, and that binary passes the probe. */
  predicate Usable(o: Outside, version: string, f: Fetched, binary: Bytes) {
    && Acceptable(o.untar(f.archive), Top(f.artifact), MAX_BINARY_BYTES)
    && Wanted(o.untar(f.archive).entries, Top(f.artifact))[0].body == Some(binary)
    && CheckCapabilities(o, binary, version, f.manifest.capabilitiesSchema)
  }

  /** Everything that must have happened before binary may be installed as version. */
  ghost predicate VettedBy(o: Outside, keys: seq<string>, version: string, binary: Bytes, f: Fetched) {
    Released(o, keys, version, f) && Usable(o, version, f, binary)
  }

  ghost predicate Vetted(o: Outside, keys: seq<string>, version: string, binary: Bytes) {
    exists f :: VettedBy(o, keys, version, binary, f)
  }

  /** binary came out of a release of this version that a trusted key signed, and runs here as this version. */
  ghost predicate Authentic(o: Outside, keys: seq<string>, version: string, binary: Bytes) {
    && Suits(o, version, binary)
    && exists f :: Released(o, keys, version, f) && f.manifest.capabilitiesSchema == 1
                && Holds(o.untar(f.archive), Top(f.artifact), 256 * 1024 * 1024, binary)
  }

  lemma UsableIff(o: Outside, version: string, f: Fetched, binary: Bytes)
    ensures Usable(o, version, f, binary) <==>
      && Holds(o.untar(f.archive), Top(f.artifact), 256 * 1024 * 1024, binary)
      && f.manifest.capabilitiesSchema == 1 && Suits(o, version, binary)
  {
    AcceptableIffHolds(o.untar(f.archive), Top(f.artifact), MAX_BINARY_BYTES, binary);
    PassesCheckIff(o, binary, version, f.manifest.capabilitiesSchema);
  }

  lemma VettedIffAuthentic(o: Outside, keys: seq<string>, version: string, binary: Bytes)
    ensures Vetted(o, keys, version, binary) <==> Authentic(o, keys, version, binary)
  {
    forall f ensures VettedBy(o, keys, version, binary, f) <==>
        && Released(o, keys, version, f) && f.manifest.capabilitiesSchema == 1
        && Holds(o.untar(f.archive), Top(f.artifact), 256 * 1024 * 1024, binary) && Suits(o, version, binary)
    {
      UsableIff(o, version, f, binary);
    }
    hide Released, Holds, Usable;
  }

  /** The middle of install: download, extract, probe. */
  method Deliver(o: Outside, sources: seq<string>, version: string, trusted: seq<string>)
    returns (r: Option<Bytes>, package: Bytes)
    ensures r.Some? ==>
              && trusted != [] && ParsedKeys(o, trusted).Some?
              && Vetted(o, ParsedKeys(o, trusted).value, version, r.value)
    ensures trusted != [] && ParsedKeys(o, trusted).Some? ==>
      forall b :: r == Some(b) <==>
        exists i, f :: FirstToServe(o, sources, version, ParsedKeys(o, trusted).value, i, f) && Usable(o, version, f, b)
    ensures trusted != [] && ParsedKeys(o, trusted).Some? ==>
      forall b :: r == Some(b) <==>
        exists i, f :: FirstToServe(o, sources, version, ParsedKeys(o, trusted).value, i, f)
                    && Holds(o.untar(f.archive), Top(f.artifact), 256 * 1024 * 1024, b)
                    && f.manifest.capabilitiesSchema == 1 && Suits(o, version, b)
    ensures r.Some? ==>
      exists i, f :: FirstToServe(o, sources, version, ParsedKeys(o, trusted).value, i, f) && package == f.archive
  {
    package := [];
    forall f, b ensures Usable(o, version, f, b) <==>
        && Holds(o.untar(f.archive), Top(f.artifact), 256 * 1024 * 1024, b)
        && f.manifest.capabilitiesSchema == 1 && Suits(o, version, b)
    {
      UsableIff(o, version, f, b);
    }
    hide Suits, Released, SourceOutcome, ParsedKeys;
    var got := FetchRelease(o, sources, version, trusted);
    if got.Err? { return None, package; }
    var f := got.value;
    package := f.archive;
    var binary := ExtractBinary(o.untar(f.archive), f.artifact.path, MAX_BINARY_BYTES);
    if binary.Err? { return None, package; }
    if !CheckCapabilities(o, binary.value, version, f.manifest.capabilitiesSchema) { return None, package; }
    assert VettedBy(o, ParsedKeys(o, trusted).value, version, binary.value, f);
    r := Some(binary.value);
  }

  // ---------------------------------------------------------------------
  // What this means for the installed root
  // ---------------------------------------------------------------------

  /** The world of the commit protocol, with both gates spelled out by this module. */
  function ProvisioningWorld(o: Outside, ghost keys: seq<string>, valid: string -> bool, rank: string -> int,
                             digest: Bytes -> string): Plans.World
  {
    Plans.World(valid, rank, digest,
                (v: string, b: Bytes) => CheckCapabilities(o, b, v, CAPABILITIES_SCHEMA),
                (v: string, b: Bytes) => Vetted(o, keys, v, b))
  }

  /** Nothing in the verdict on a binary depends on what the network serves. */
  lemma VettedIgnoresNetwork(o: Outside, get: (string, string, string) -> Answer, keys: seq<string>, version: string,
                             binary: Bytes)
    requires Vetted(o.(get := get), keys, version, binary)
    ensures Vetted(o, keys, version, binary)
  {
    var f :| VettedBy(o.(get := get), keys, version, binary, f);
    assert VettedBy(o, keys, version, binary, f);
  }

  lemma {:induction false} KeysIgnoreNetwork(o: Outside, get: (string, string, string) -> Answer, raw: seq<string>)
    ensures ParsedKeys(o.(get := get), raw) == ParsedKeys(o, raw)
  {
    if raw != [] {
      KeysIgnoreNetwork(o, get, raw[..|raw| - 1]);
    }
  }

  /** Every binary under versions/, after any run with any crashes, passed verification and the probe. */
  lemma EveryInstalledBinaryIsVetted(o: Outside, keys: seq<string>, valid: string -> bool, rank: string -> int,
                                     digest: Bytes -> string, es: seq<CrashSafety.Event>, v: string)
    requires !valid("")
    requires CrashSafety.PossibleRun(ProvisioningWorld(o, keys, valid, rank, digest), Disk.EMPTY, es)
    requires
      CrashSafety.HasBinary(CrashSafety.After(ProvisioningWorld(o, keys, valid, rank, digest), Disk.EMPTY, es), v)
    ensures
      var d := CrashSafety.After(ProvisioningWorld(o, keys, valid, rank, digest), Disk.EMPTY, es);
      && Vetted(o, keys, v, d.versions[v].value)
      && CheckCapabilities(o, d.versions[v].value, v, CAPABILITIES_SCHEMA)
      && Authentic(o, keys, v, d.versions[v].value)
  {
    var w := ProvisioningWorld(o, keys, valid, rank, digest);
    CrashSafety.EveryRunKeepsInv(w, es);
    var d := CrashSafety.After(w, Disk.EMPTY, es);
    assert w.vetted(v, d.versions[v].value);
    VettedIffAuthentic(o, keys, v, d.versions[v].value);
  }

  /** A deterministic probe means that what could be installed can be rolled back to. */
  lemma PreviousCanBeRestored(o: Outside, keys: seq<string>, valid: string -> bool, rank: string -> int,
                              digest: Bytes -> string, es: seq<CrashSafety.Event>)
    requires
      var w := ProvisioningWorld(o, keys, valid, rank, digest);
      && !valid("") && CrashSafety.SingleBinary(w)
      && CrashSafety.PossibleRun(w, Disk.EMPTY, es)
    ensures
      var w := ProvisioningWorld(o, keys, valid, rank, digest);
      var d := CrashSafety.After(w, Disk.EMPTY, es);
      && CrashSafety.Inv(w, d)
      && (Plans.RollbackAllowed(w, d, CrashSafety.Stored(w, d)) <==>
            CrashSafety.Stored(w, d).previous != "" && !CrashSafety.StillAway(w, es, CrashSafety.Stored(w, d).previous))
  {
    var w := ProvisioningWorld(o, keys, valid, rank, digest);
    forall v, b | w.vetted(v, b) ensures w.fits(v, b) {
      assert Vetted(o, keys, v, b);
    }
    CrashSafety.RollbackIsAvailable(w, es);
  }
}
