// The agent's command line (cmd/spectra-remote-agent/main.go) and the start of its server.
module AgentCommand {
  import opened Common
  import opened GoText
  import opened FlagSet
  import opened Plist
  import opened LaunchAgent

  const DEFAULT_ADDR := ":7878"
  const DEFAULT_MAX_CONNECTIONS := 8

  // What the command line reads from the user's account: the default paths, if there is a home directory, and
  // what resolveSpectraPath finds for an omitted --spectra (a path, maybe empty, or an exit code).
  datatype Host = Host(stateDir: Option<string>, auditLog: Option<string>, provisioned: string -> Result<string, int>)

  function Defaults(stateDir: string, auditLog: string): Settings {
    Settings("", "", DEFAULT_ADDR, "spectra-remote-agent", stateDir, auditLog,
             DEFAULT_MAX_CONNECTIONS, DEFAULT_MAX_RUN_DURATION,
             false, [], [], [], [], false, false, false)
  }

  predicate MaxRunDurationOk(d: Duration, capTSNet: bool, maxTimeoutMS: int) {
    0 < d <= maxTimeoutMS * MILLISECOND && (capTSNet ==> d < DEFAULT_SESSION_TIMEOUT)
  }

  function ResolveSpectraPath(host: Host, s: Settings): Result<Settings, int> {
    if s.spectraPath != "" then Ok(s)
    else
      match host.provisioned(s.provisionRoot)
      case Ok(path) => Ok(s.(spectraPath := path))
      case Err(code) => Err(code)
  }

  /** What parseTSNetOptions does with the parsed flags. */
  function Checked(host: Host, maxTimeoutMS: int, p: Parsing): Result<Settings, int> {
    if p.None? then Err(2)
    else
      var (s, positional) := p.value;
      if positional != [] then Err(2)
      else if s.allowSnapshotApps && !s.allowSnapshot then Err(2)
      else if s.maxConnections < 1 then Err(2)
      else if !MaxRunDurationOk(s.maxRunDuration, true, maxTimeoutMS) then Err(2)
      else ResolveSpectraPath(host, s)
  }

  function TSNetOptions(go: Syntax, host: Host, maxTimeoutMS: int, args: seq<string>,
                        allowNoLoad: bool): Result<Settings, int> {
    if host.stateDir.None? || host.auditLog.None? then Err(1)
    else
      Checked(host, maxTimeoutMS,
              Parse(go, Formal(allowNoLoad), Defaults(host.stateDir.value, host.auditLog.value), args))
  }

  /** parseTSNetOptions: the exit code on failure. */
  method ParseTSNetOptions(go: Syntax, host: Host, maxTimeoutMS: int, args: seq<string>, allowNoLoad: bool)
      returns (r: Result<Settings, int>)
    ensures r == TSNetOptions(go, host, maxTimeoutMS, args, allowNoLoad)
  {
    hide Parse, Formal;
    if host.stateDir.None? || host.auditLog.None? { return Err(1); }
    var parsed := ParseFlags(go, Formal(allowNoLoad), Defaults(host.stateDir.value, host.auditLog.value), args);
    if parsed.None? { return Err(2); }
    var (s, positional) := parsed.value;
    if |positional| != 0 { return Err(2); }
    if s.allowSnapshotApps && !s.allowSnapshot { return Err(2); }
    if s.maxConnections < 1 { return Err(2); }
    if !MaxRunDurationOk(s.maxRunDuration, true, maxTimeoutMS) { return Err(2); }
    r := ResolveSpectraPath(host, s);
  }

  /** What the parsed flags must be for the server to be started at all. */
  predicate Acceptable(s: Settings, maxTimeoutMS: int) {
    && (s.allowSnapshotApps ==> s.allowSnapshot)
    && s.maxConnections >= 1
    && 1 <= s.maxRunDuration <= maxTimeoutMS * 1_000_000 && s.maxRunDuration < 300 * 1_000_000_000
  }

  /**
   * The command line is accepted exactly when it parses completely to acceptable flags and the path to spectra is
   * given or found; its exit code tells a missing home directory from a bad command line.
   */
  lemma CommandLineIff(go: Syntax, host: Host, maxTimeoutMS: int, args: seq<string>, allowNoLoad: bool)
    ensures
      var r := TSNetOptions(go, host, maxTimeoutMS, args, allowNoLoad);
      if host.stateDir.None? || host.auditLog.None? then r == Err(1)
      else
        var p := Parse(go, Formal(allowNoLoad), Defaults(host.stateDir.value, host.auditLog.value), args);
        if p.None? || p.value.1 != [] || !Acceptable(p.value.0, maxTimeoutMS) then r == Err(2)
        else
          var s := p.value.0;
          var found := host.provisioned(s.provisionRoot);
          && (s.spectraPath != "" ==> r == Ok(s))
          && (s.spectraPath == "" && found.Ok? ==>
                r.Ok? && r.value.spectraPath == found.value && r.value.(spectraPath := "") == s)
          && (s.spectraPath == "" && found.Err? ==> r == Err(found.error))
  {
    hide Parse, Formal;
  }

  // ---------------------------------------------------------------------
  // Starting the server
  // ---------------------------------------------------------------------

  datatype AgentConfig = AgentConfig(
    spectraPath: string, appRoots: seq<string>, auditLog: string, maxRunDuration: Duration,
    allowSnapshot: bool, allowSnapshotApps: bool)

  datatype Node = Node(stateDir: string, hostname: string, ephemeral: bool, tags: seq<string>)

  datatype Running = Running(
    agent: AgentConfig, slots: nat, node: Node, allowLogins: seq<string>, allowNodes: seq<string>, addr: string)

  /** newAgent and NewJSONLAuditor. */
  function NewAgent(s: Settings): Option<AgentConfig> {
    if s.spectraPath == "" || !HasPrefix(s.spectraPath, "/") then None
    else if !IsAbs(s.auditLog) then None
    else Some(AgentConfig(s.spectraPath, s.appRoots, s.auditLog, s.maxRunDuration, s.allowSnapshot,
        s.allowSnapshotApps))
  }

  /** newConnectionLimiter: the number of slots. */
  function NewConnectionLimiter(limit: int): Option<nat> {
    var n := if limit == 0 then DEFAULT_MAX_CONNECTIONS else limit;
    if n < 1 then None else Some(n)
  }

  /** newServer, as far as its own checks go. */
  function NewServer(s: Settings): Option<Node> {
    if s.stateDir == "" then None
    else if TrimSpace(s.hostname) == "" then None
    else Some(Node(s.stateDir, TrimSpace(s.hostname), s.ephemeral, s.tags))
  }

  /** runTSNet and the start of Serve, once the settings are known. */
  function Serve(s: Settings): Option<Running> {
    var agent, slots, node := NewAgent(s), NewConnectionLimiter(s.maxConnections), NewServer(s);
    if agent.None? || slots.None? || node.None? then None
    else Some(Running(agent.value, slots.value, node.value, s.allowLogins, s.allowNodes,
                      if s.listenAddr == "" then DEFAULT_ADDR else s.listenAddr))
  }

  // The launched program and the settings it parses.
  datatype Launched = Launched(program: string, settings: Settings)

  /** What launchd and the agent make of the document: the program, and the settings serve-tsnet parses. */
  function Launch(go: Syntax, host: Host, maxTimeoutMS: int, doc: string): Option<Launched> {
    match ReadJob(doc)
    case None => None
    case Some(job) =>
      if |job.args| < 2 || job.args[1] != "serve-tsnet" then None
      else
        match TSNetOptions(go, host, maxTimeoutMS, job.args[2..], false)
        case Ok(s) => Some(Launched(job.args[0], s))
        case Err(_) => None
  }

  // ---------------------------------------------------------------------
  // The round trip
  // ---------------------------------------------------------------------

  predicate AllClean(vs: seq<string>) {
    forall v :: v in vs ==> IsClean(v)
  }

  /** Every text option survives XML: XML characters only, no carriage return. */
  predicate OptionsAreClean(o: Options) {
    && IsClean(o.program) && IsClean(o.spectraPath) && IsClean(o.listenAddr) && IsClean(o.hostname)
    && IsClean(o.stateDir) && IsClean(o.auditLog)
    && AllClean(o.appRoots) && AllClean(o.tags) && AllClean(o.allowLogins) && AllClean(o.allowNodes)
  }

  /** The options with the line ends of their texts normalised. */
  function NormalizeOptions(o: Options): Options {
    o.(program := Normalize(o.program), spectraPath := Normalize(o.spectraPath), listenAddr := Normalize(o.listenAddr),
       hostname := Normalize(o.hostname), stateDir := Normalize(o.stateDir), auditLog := Normalize(o.auditLog),
       appRoots := NormalizeAll(o.appRoots), tags := NormalizeAll(o.tags),
       allowLogins := NormalizeAll(o.allowLogins), allowNodes := NormalizeAll(o.allowNodes))
  }

  predicate OptionsAreXml(o: Options) {
    && AllXml(o.program) && AllXml(o.spectraPath) && AllXml(o.listenAddr) && AllXml(o.hostname)
    && AllXml(o.stateDir) && AllXml(o.auditLog)
    && AllXmlIn(o.appRoots) && AllXmlIn(o.tags) && AllXmlIn(o.allowLogins) && AllXmlIn(o.allowNodes)
  }

  predicate AllXmlIn(vs: seq<string>) {
    forall v :: v in vs ==> AllXml(v)
  }

  ghost predicate DurationsAreClean(go: Syntax) {
    forall d: Duration :: IsClean(go.showDuration(d))
  }

  function NormalizePrinted(ps: seq<Printed>): (r: seq<Printed>)
    ensures |r| == |ps|
  {
    seq(|ps|, i requires 0 <= i < |ps| => if ps[i].With? then With(ps[i].f, Normalize(ps[i].v)) else ps[i])
  }

  lemma NameIsClean(f: Flag)
    ensures IsClean("--" + NameOf(f))
  {
    NamesArePlain(f);
    hide NameOf;
    forall c | IsNameChar(c) ensures IsXmlChar(c) && c != '\r' {}
    ConcatIsClean("--", NameOf(f));
  }

  lemma NormalizeAllConcat(a: seq<string>, b: seq<string>)
    ensures NormalizeAll(a + b) == NormalizeAll(a) + NormalizeAll(b)
  {
  }

  lemma NormalizeTokens(p: Printed)
    ensures NormalizeAll(Tokens(p)) == Tokens(if p.With? then With(p.f, Normalize(p.v)) else p)
    ensures AllXmlIn(Tokens(p)) <==> (p.With? ==> AllXml(p.v))
  {
    NameIsClean(p.f);
    hide NameOf;
    NormalizeIsIdentityIff("--" + NameOf(p.f));
    if p.With? {
      assert Tokens(p)[1] == p.v;
    }
  }

  predicate PrintedIsXml(ps: seq<Printed>) {
    forall i :: 0 <= i < |ps| && ps[i].With? ==> AllXml(ps[i].v)
  }

  /** Line ends change in the values only, flag by flag. */
  lemma {:induction false} NormalizePrint(ps: seq<Printed>)
    ensures NormalizeAll(Print(ps)) == Print(NormalizePrinted(ps))
    ensures AllXmlIn(Print(ps)) <==> PrintedIsXml(ps)
  {
    hide Tokens;
    if ps != [] {
      NormalizePrint(ps[1..]);
      NormalizeTokens(ps[0]);
      NormalizeAllConcat(Tokens(ps[0]), Print(ps[1..]));
      assert NormalizePrinted(ps)[1..] == NormalizePrinted(ps[1..]);
      assert AllXmlIn(Print(ps)) <==> AllXmlIn(Tokens(ps[0])) && AllXmlIn(Print(ps[1..])) by {
        assert forall v :: v in Print(ps) <==> v in Tokens(ps[0]) || v in Print(ps[1..]);
      }
      assert forall i :: 1 <= i < |ps| ==> ps[i] == ps[1..][i - 1];
    }
  }

  lemma ShownIntIsClean(n: int)
    ensures IsClean(ShowInt(n))
  {
    forall c | IsDigit(c) ensures IsXmlChar(c) && c != '\r' {}
    ConcatIsClean("-", if n < 0 then ShowNat(-n) else "");
  }

  lemma NormalizeRepeat(f: Flag, vs: seq<string>)
    ensures NormalizePrinted(Repeat(f, vs)) == Repeat(f, NormalizeAll(vs))
    ensures PrintedIsXml(Repeat(f, vs)) <==> AllXmlIn(vs)
  {
    if PrintedIsXml(Repeat(f, vs)) {
      forall i | 0 <= i < |vs| ensures AllXml(vs[i]) {
        assert Repeat(f, vs)[i].v == vs[i];
      }
    }
  }

  lemma NormalizePrintedConcat(a: seq<Printed>, b: seq<Printed>)
    ensures NormalizePrinted(a + b) == NormalizePrinted(a) + NormalizePrinted(b)
    ensures PrintedIsXml(a + b) <==> PrintedIsXml(a) && PrintedIsXml(b)
  {
    if PrintedIsXml(a + b) {
      forall i | 0 <= i < |a| && a[i].With? ensures AllXml(a[i].v) {
        assert (a + b)[i] == a[i];
      }
      forall i | 0 <= i < |b| && b[i].With? ensures AllXml(b[i].v) {
        assert (a + b)[|a| + i] == b[i];
      }
    }
  }

  lemma NormalizeFixed(o: Options)
    ensures NormalizePrinted(Fixed(o)) == Fixed(NormalizeOptions(o))
    ensures PrintedIsXml(Fixed(o)) <==>
      AllXml(o.spectraPath) && AllXml(o.listenAddr) && AllXml(o.hostname) && AllXml(o.stateDir) && AllXml(o.auditLog)
  {
    ShownIntIsClean(o.maxConnections);
    NormalizeIsIdentityIff(ShowInt(o.maxConnections));
    hide ShowInt, AllXml, Normalize;
    var p := Fixed(o);
    assert p[0].v == o.spectraPath && p[1].v == o.listenAddr && p[2].v == o.hostname && p[3].v == o.stateDir
        && p[4].v == o.auditLog && p[5].v == ShowInt(o.maxConnections);
  }

  lemma NormalizeRest(go: Syntax, o: Options)
    requires DurationsAreClean(go)
    ensures NormalizePrinted(Capped(go, o)) == Capped(go, NormalizeOptions(o)) && PrintedIsXml(Capped(go, o))
    ensures NormalizePrinted(Switches(o)) == Switches(NormalizeOptions(o)) && PrintedIsXml(Switches(o))
  {
    NormalizeIsIdentityIff(go.showDuration(o.maxRunDuration));
  }

  lemma NormalizeLists(o: Options)
    ensures NormalizePrinted(Lists(o)) == Lists(NormalizeOptions(o))
    ensures PrintedIsXml(Lists(o)) <==>
              AllXmlIn(o.appRoots) && AllXmlIn(o.tags) && AllXmlIn(o.allowLogins) && AllXmlIn(o.allowNodes)
  {
    hide Repeat, NormalizePrinted, PrintedIsXml, AllXmlIn;
    var roots, tags := Repeat(AllowAppRoot, o.appRoots), Repeat(TsnetTag, o.tags);
    var logins, nodes := Repeat(TsnetAllowLogin, o.allowLogins), Repeat(TsnetAllowNode, o.allowNodes);
    NormalizePrintedConcat(roots, tags + (logins + nodes));
    NormalizePrintedConcat(tags, logins + nodes);
    NormalizePrintedConcat(logins, nodes);
    NormalizeRepeat(AllowAppRoot, o.appRoots);
    NormalizeRepeat(TsnetTag, o.tags);
    NormalizeRepeat(TsnetAllowLogin, o.allowLogins);
    NormalizeRepeat(TsnetAllowNode, o.allowNodes);
  }

  /** A reader sees the arguments of the normalised options. */
  lemma NormalizeArguments(go: Syntax, o: Options)
    requires DurationsAreClean(go)
    ensures NormalizeAll(Arguments(go, o)) == Arguments(go, NormalizeOptions(o))
    ensures AllXmlIn(Arguments(go, o)) <==> OptionsAreXml(o)
  {
    hide Fixed, Capped, Switches, Lists, Print, NormalizePrinted, PrintedIsXml;
    NormalizeFixed(o);
    NormalizeRest(go, o);
    NormalizeLists(o);
    NormalizePrintedConcat(Fixed(o), Capped(go, o) + (Switches(o) + Lists(o)));
    NormalizePrintedConcat(Capped(go, o), Switches(o) + Lists(o));
    NormalizePrintedConcat(Switches(o), Lists(o));
    NormalizePrint(Flagged(go, o));
    WithCommand(o.program, Print(Flagged(go, o)));
  }

  lemma WithCommand(program: string, rest: seq<string>)
    ensures NormalizeAll([program, "serve-tsnet"] + rest) == [Normalize(program), "serve-tsnet"] + NormalizeAll(rest)
    ensures AllXmlIn([program, "serve-tsnet"] + rest) <==> AllXml(program) && AllXmlIn(rest)
  {
    CommandIsClean();
    var command := "serve-tsnet";
    var all := [program, command] + rest;
    hide Normalize, AllXml;
    assert forall v :: v in all <==> v == program || v == command || v in rest;
    assert NormalizeAll(all) == [Normalize(program), command] + NormalizeAll(rest);
  }

  lemma CommandIsClean()
    ensures Normalize("serve-tsnet") == "serve-tsnet" && AllXml("serve-tsnet")
  {
    NormalizeIsIdentityIff("serve-tsnet");
  }

  lemma {:induction false} NormalizeKeepsShape(s: string)
    ensures IsAbs(Normalize(s)) <==> IsAbs(s)
    ensures Normalize(s) == "" <==> s == ""
  {
    if s != "" && s[0] != '\r' {
      assert s[..1] == [s[0]] && Normalize(s)[..1] == [s[0]];
    } else if s != "" {
      assert s[..1] == "\r" && Normalize(s)[..1] == "\n";
    }
  }

  /**
   * A launch of validated options yields the settings of their normalised form, or nothing when a text has no XML
   * form.
   */
  lemma LaunchNormalizes(go: Syntax, host: Host, maxTimeoutMS: int, o: Options, out: string, err: string)
    requires SyntaxOk(go) && DurationsAreClean(go) && AllXml(out) && AllXml(err)
    requires host.stateDir.Some? && host.auditLog.Some?
    requires Validate(o, maxTimeoutMS) && o.maxConnections <= MAX_INT
    ensures Launch(go, host, maxTimeoutMS, Document(Job(Arguments(go, o), out, err)))
         == if OptionsAreXml(o) then Some(Launched(Normalize(o.program), SettingsOf(NormalizeOptions(o)))) else None
  {
    hide Parse, Formal, Document, ReadJob, Print, Flagged, Normalize, OptionsAreXml, AllXml;
    var job := Job(Arguments(go, o), out, err);
    var n := NormalizeOptions(o);
    DocumentReadsAs(job);
    NormalizeArguments(go, o);
    NormalizeKeepsShape(o.spectraPath);
    forall i | 0 <= i < |o.appRoots| ensures IsAbs(n.appRoots[i]) {
      NormalizeKeepsShape(o.appRoots[i]);
      assert o.appRoots[i] in o.appRoots;
    }
    ArgumentsParseBack(go, Defaults(host.stateDir.value, host.auditLog.value), n);
  }

  lemma CleanIffNormal(vs: seq<string>)
    requires AllXmlIn(vs)
    ensures NormalizeAll(vs) == vs <==> AllClean(vs)
  {
    forall i | 0 <= i < |vs| ensures NormalizeAll(vs)[i] == vs[i] <==> IsClean(vs[i]) {
      NormalizeIsIdentityIff(vs[i]);
      assert vs[i] in vs;
    }
    assert NormalizeAll(vs) == vs <==> forall i :: 0 <= i < |vs| ==> NormalizeAll(vs)[i] == vs[i];
    assert AllClean(vs) <==> forall i :: 0 <= i < |vs| ==> IsClean(vs[i]);
  }

  lemma CleanTextIffNormal(s: string)
    requires AllXml(s)
    ensures Normalize(s) == s <==> IsClean(s)
  {
    NormalizeIsIdentityIff(s);
  }

  /**
   * The installed agent comes up with exactly the options that were installed, for all validated options, if and
   * only if their texts are clean.
   */
  lemma OptionsRoundTripIffClean(go: Syntax, host: Host, maxTimeoutMS: int, o: Options, out: string, err: string)
    requires SyntaxOk(go) && DurationsAreClean(go) && AllXml(out) && AllXml(err)
    requires host.stateDir.Some? && host.auditLog.Some?
    requires Validate(o, maxTimeoutMS) && o.maxConnections <= MAX_INT
    ensures Launch(go, host, maxTimeoutMS, Document(Job(Arguments(go, o), out, err)))
            == Some(Launched(o.program, SettingsOf(o)))
            <==> OptionsAreClean(o)
  {
    hide Launch, Document, Arguments, Normalize, AllXml, AllXmlIn, NormalizeAll, NoReturn, AllClean;
    LaunchNormalizes(go, host, maxTimeoutMS, o, out, err);
    CleanListIsXml(o.appRoots);
    CleanListIsXml(o.tags);
    CleanListIsXml(o.allowLogins);
    CleanListIsXml(o.allowNodes);
    if OptionsAreXml(o) {
      CleanTextIffNormal(o.program);
      CleanTextIffNormal(o.spectraPath);
      CleanTextIffNormal(o.listenAddr);
      CleanTextIffNormal(o.hostname);
      CleanTextIffNormal(o.stateDir);
      CleanTextIffNormal(o.auditLog);
      CleanIffNormal(o.appRoots);
      CleanIffNormal(o.tags);
      CleanIffNormal(o.allowLogins);
      CleanIffNormal(o.allowNodes);
    }
  }

  lemma CleanListIsXml(vs: seq<string>)
    ensures AllClean(vs) ==> AllXmlIn(vs)
  {
  }

  // ---------------------------------------------------------------------
  // Validated options always start
  // ---------------------------------------------------------------------

  /** maxTimeoutMS of an agent whose run cap is d. */
  function AdvertisedTimeoutMS(d: Duration, maxTimeoutMS: int): int {
    var cap := if d <= 0 then DEFAULT_MAX_RUN_DURATION else d;
    if cap > maxTimeoutMS * MILLISECOND then maxTimeoutMS
    else if cap / MILLISECOND < 1 then 1
    else cap / MILLISECOND
  }

  /** Multiplication of Durations wraps around. */
  function Wrap64(x: int): int {
    (x + 0x8000_0000_0000_0000) % 0x1_0000_0000_0000_0000 - 0x8000_0000_0000_0000
  }

  /** requestTimeout for a request asking for timeoutMS. */
  function RequestTimeout(d: Duration, maxTimeoutMS: int, timeoutMS: int): Duration {
    var max := AdvertisedTimeoutMS(d, maxTimeoutMS) * MILLISECOND;
    if timeoutMS <= 0 then max
    else
      var want := Wrap64(timeoutMS * MILLISECOND);
      if want < max then want else max
  }

  /**
   * With a validated cap no request outlives the session. The cap itself is exceeded exactly when it is below a
   * millisecond and the request does not ask for less.
   */
  lemma RequestsEndBeforeTheSession(o: Options, maxTimeoutMS: int, timeoutMS: int)
    requires Validate(o, maxTimeoutMS)
    ensures RequestTimeout(o.maxRunDuration, maxTimeoutMS, timeoutMS)
            <= AdvertisedTimeoutMS(o.maxRunDuration, maxTimeoutMS) * MILLISECOND < DEFAULT_SESSION_TIMEOUT
    ensures RequestTimeout(o.maxRunDuration, maxTimeoutMS, timeoutMS) > o.maxRunDuration <==>
            o.maxRunDuration < MILLISECOND && (timeoutMS <= 0 || Wrap64(timeoutMS * MILLISECOND) > o.maxRunDuration)
    ensures timeoutMS <= 0 && o.maxRunDuration >= MILLISECOND ==>
              var given := RequestTimeout(o.maxRunDuration, maxTimeoutMS, timeoutMS);
              given <= o.maxRunDuration < given + MILLISECOND && given % MILLISECOND == 0
  {
    var d := o.maxRunDuration;
    assert d == (d / MILLISECOND) * MILLISECOND + d % MILLISECOND;
  }

  /** An agent without a cap gives three minutes, one with an excessive cap the protocol's limit. */
  lemma UnusualCaps(d: Duration, maxTimeoutMS: int)
    requires maxTimeoutMS >= 180_000
    ensures d <= 0 ==> RequestTimeout(d, maxTimeoutMS, 0) == 180 * SECOND
    ensures d > maxTimeoutMS * MILLISECOND ==> RequestTimeout(d, maxTimeoutMS, 0) == maxTimeoutMS * MILLISECOND
  {
  }

  /** No limit given means eight slots, a negative one none. */
  lemma UnusualLimits(limit: int)
    ensures NewConnectionLimiter(0) == Some(8)
    ensures limit < 0 ==> NewConnectionLimiter(limit) == None
  {
  }

  /** A request's own timeout is honoured to the millisecond whenever it is below the advertised one. */
  lemma ShorterTimeoutsAreHonoured(o: Options, maxTimeoutMS: int, timeoutMS: int)
    requires Validate(o, maxTimeoutMS) && 0 < timeoutMS < AdvertisedTimeoutMS(o.maxRunDuration, maxTimeoutMS)
    ensures RequestTimeout(o.maxRunDuration, maxTimeoutMS, timeoutMS) == timeoutMS * MILLISECOND
  {
    assert timeoutMS * MILLISECOND < DEFAULT_SESSION_TIMEOUT by {
      RequestsEndBeforeTheSession(o, maxTimeoutMS, timeoutMS);
    }
    assert Wrap64(timeoutMS * MILLISECOND) == timeoutMS * MILLISECOND;
  }

  /**
   * Clean validated options pass every check of the launched agent, which then runs with the installed policy,
   * slots and identity and a run cap below the session timeout.
   */
  lemma ValidatedOptionsStart(go: Syntax, host: Host, maxTimeoutMS: int, o: Options, out: string, err: string)
    requires SyntaxOk(go) && DurationsAreClean(go) && AllXml(out) && AllXml(err)
    requires host.stateDir.Some? && host.auditLog.Some?
    requires Validate(o, maxTimeoutMS) && o.maxConnections <= MAX_INT && OptionsAreClean(o)
    ensures
      var launched := Launch(go, host, maxTimeoutMS, Document(Job(Arguments(go, o), out, err)));
      && launched.Some? && launched.value.program == o.program
      && Serve(launched.value.settings) == Some(Running(
           AgentConfig(o.spectraPath, o.appRoots, o.auditLog, o.maxRunDuration, o.allowSnapshot, o.allowSnapshotApps),
           o.maxConnections,
           Node(o.stateDir, TrimSpace(o.hostname), o.ephemeral, o.tags),
           o.allowLogins, o.allowNodes, if o.listenAddr == "" then DEFAULT_ADDR else o.listenAddr))
      && 0 < o.maxRunDuration < DEFAULT_SESSION_TIMEOUT
  {
    hide Launch, Document, Arguments, OptionsAreClean;
    OptionsRoundTripIffClean(go, host, maxTimeoutMS, o, out, err);
  }

  lemma {:induction false} TrimsToNothingIff(s: string)
    ensures TrimSpace(s) == "" <==> forall c :: c in s ==> IsSpace(c)
  {
    TrimLeftRemovesSpaces(s);
    TrimRightRemovesSpaces(TrimLeft(s));
  }

  lemma {:induction false} TrimLeftRemovesSpaces(s: string)
    ensures (forall c :: c in TrimLeft(s) ==> IsSpace(c)) <==> forall c :: c in s ==> IsSpace(c)
  {
    hide IsSpace;
    if s != "" && IsSpace(s[0]) {
      TrimLeftRemovesSpaces(s[1..]);
      assert s == [s[0]] + s[1..];
    }
  }

  lemma {:induction false} TrimRightRemovesSpaces(s: string)
    ensures TrimRight(s) == "" <==> forall c :: c in s ==> IsSpace(c)
  {
    hide IsSpace;
    if s != "" {
      var front, last := s[..|s| - 1], s[|s| - 1];
      assert s == front + [last];
      assert last in s;
      if IsSpace(last) {
        TrimRightRemovesSpaces(front);
      }
    }
  }

  lemma {:induction false} NormalizeKeepsBlankness(s: string)
    ensures (forall c :: c in Normalize(s) ==> IsSpace(c)) <==> forall c :: c in s ==> IsSpace(c)
    decreases |s|
  {
    assert IsSpace('\r') && IsSpace('\n');
    hide IsSpace;
    if s != "" {
      NormalizeKeepsBlankness(s[1..]);
      assert s == [s[0]] + s[1..];
      if s[0] == '\r' && |s| > 1 && s[1] == '\n' {
        NormalizeKeepsBlankness(s[2..]);
        assert s[1..] == [s[1]] + s[2..];
        assert Normalize(s) == ['\n'] + Normalize(s[2..]);
      } else {
        assert Normalize(s) == [if s[0] == '\r' then '\n' else s[0]] + Normalize(s[1..]);
      }
    }
  }

  /** Validated options come up as a running agent exactly when their texts can be written in XML at all. */
  lemma ValidatedOptionsStartIffXml(go: Syntax, host: Host, maxTimeoutMS: int, o: Options, out: string, err: string)
    requires SyntaxOk(go) && DurationsAreClean(go) && AllXml(out) && AllXml(err)
    requires host.stateDir.Some? && host.auditLog.Some?
    requires Validate(o, maxTimeoutMS) && o.maxConnections <= MAX_INT
    ensures
      var launched := Launch(go, host, maxTimeoutMS, Document(Job(Arguments(go, o), out, err)));
      launched.Some? && Serve(launched.value.settings).Some? <==> OptionsAreXml(o)
  {
    hide Launch, Document, Arguments, OptionsAreXml, Normalize, TrimSpace, IsSpace;
    LaunchNormalizes(go, host, maxTimeoutMS, o, out, err);
    NormalizeKeepsShape(o.spectraPath);
    NormalizeKeepsShape(o.auditLog);
    NormalizeKeepsShape(o.stateDir);
    TrimsToNothingIff(o.hostname);
    TrimsToNothingIff(Normalize(o.hostname));
    NormalizeKeepsBlankness(o.hostname);
  }

  lemma CleanOptionsAreNormal(o: Options)
    requires OptionsAreClean(o)
    ensures NormalizeOptions(o) == o && OptionsAreXml(o)
  {
    hide Normalize, AllXml, NormalizeAll, NoReturn, AllClean, AllXmlIn;
    CleanListIsXml(o.appRoots);
    CleanListIsXml(o.tags);
    CleanListIsXml(o.allowLogins);
    CleanListIsXml(o.allowNodes);
    CleanTextIffNormal(o.program);
    CleanTextIffNormal(o.spectraPath);
    CleanTextIffNormal(o.listenAddr);
    CleanTextIffNormal(o.hostname);
    CleanTextIffNormal(o.stateDir);
    CleanTextIffNormal(o.auditLog);
    CleanIffNormal(o.appRoots);
    CleanIffNormal(o.tags);
    CleanIffNormal(o.allowLogins);
    CleanIffNormal(o.allowNodes);
  }

  /** The launched agent parses exactly what was installed, valid or not. */
  lemma CleanOptionsReachTheAgent(go: Syntax, o: Options, out: string, err: string)
    requires DurationsAreClean(go) && AllXml(out) && AllXml(err) && OptionsAreClean(o)
    ensures ReadJob(Document(Job(Arguments(go, o), out, err))).Some?
    ensures ReadJob(Document(Job(Arguments(go, o), out, err))).value.args == Arguments(go, o)
  {
    hide Document, ReadJob, Print, Flagged, Normalize, AllXml, OptionsAreClean;
    CleanOptionsAreNormal(o);
    NormalizeArguments(go, o);
    DocumentReadsAs(Job(Arguments(go, o), out, err));
  }

  /**
   * Validation demands no more than the start does: of clean options with absolute program and state paths, a path to
   * spectra and a positive cap, exactly the valid ones come up as a running agent.
   */
  lemma ValidationIsExact(go: Syntax, host: Host, maxTimeoutMS: int, o: Options, out: string, err: string)
    requires SyntaxOk(go) && DurationsAreClean(go) && AllXml(out) && AllXml(err)
    requires host.stateDir.Some? && host.auditLog.Some? && OptionsAreClean(o)
    requires IsAbs(o.program) && IsAbs(o.stateDir) && o.spectraPath != ""
    requires 0 <= o.maxConnections <= MAX_INT && 0 < o.maxRunDuration
    ensures
      var launched := Launch(go, host, maxTimeoutMS, Document(Job(Arguments(go, o), out, err)));
      launched.Some? && Serve(launched.value.settings).Some? <==> Validate(o, maxTimeoutMS)
  {
    hide Parse, Formal, Document, ReadJob, Print, Flagged, OptionsAreClean, TrimSpace, AllXml;
    CleanOptionsReachTheAgent(go, o, out, err);
    var defaults := Defaults(host.stateDir.value, host.auditLog.value);
    if exists root :: root in o.appRoots && !IsAbs(root) {
      RelativeRootIsRefused(go, defaults, o);
    } else {
      ArgumentsParseBack(go, defaults, o);
    }
  }
}
