// The installer: validating options and printing them as a LaunchAgent (internal/agentinstall/install.go).
module LaunchAgent {
  import opened Common
  import opened GoText
  import opened FlagSet
  import opened Plist

  const MILLISECOND: Duration := 1_000_000
  const SECOND: Duration := 1_000_000_000
  const DEFAULT_MAX_RUN_DURATION: Duration := 180 * SECOND
  const DEFAULT_SESSION_TIMEOUT: Duration := 300 * SECOND

  datatype Options = Options(
    program: string, spectraPath: string, listenAddr: string, hostname: string, stateDir: string, auditLog: string,
    maxConnections: int, maxRunDuration: Duration, ephemeral: bool, allowSnapshot: bool, allowSnapshotApps: bool,
    appRoots: seq<string>, tags: seq<string>, allowLogins: seq<string>, allowNodes: seq<string>)

  /** Options.Validate; maxTimeoutMS is the protocol's limit. */
  predicate Validate(o: Options, maxTimeoutMS: int) {
    && IsAbs(o.program) && IsAbs(o.spectraPath)
    && TrimSpace(o.hostname) != ""
    && IsAbs(o.stateDir) && IsAbs(o.auditLog)
    && (o.allowSnapshotApps ==> o.allowSnapshot)
    && o.maxConnections >= 1
    && 0 < o.maxRunDuration <= maxTimeoutMS * MILLISECOND
    && o.maxRunDuration < DEFAULT_SESSION_TIMEOUT
    && forall root :: root in o.appRoots ==> IsAbs(root)
  }

  // ---------------------------------------------------------------------
  // The arguments
  // ---------------------------------------------------------------------

  function Repeat(f: Flag, vs: seq<string>): (r: seq<Printed>)
    ensures |r| == |vs|
  {
    seq(|vs|, i requires 0 <= i < |vs| => With(f, vs[i]))
  }

  function Fixed(o: Options): seq<Printed> {
    [With(Spectra, o.spectraPath), With(TsnetAddr, o.listenAddr), With(TsnetHostname, o.hostname),
     With(TsnetStateDir, o.stateDir), With(AuditLog, o.auditLog), With(MaxConnections, ShowInt(o.maxConnections))]
  }

  function Capped(go: Syntax, o: Options): seq<Printed> {
    if o.maxRunDuration != 0 && o.maxRunDuration != DEFAULT_MAX_RUN_DURATION
    then [With(MaxRunDuration, go.showDuration(o.maxRunDuration))] else []
  }

  function Switches(o: Options): seq<Printed> {
    (if o.allowSnapshot then [Switch(AllowSnapshot)] else [])
    + (if o.allowSnapshotApps then [Switch(AllowSnapshotApps)] else [])
    + (if o.ephemeral then [Switch(TsnetEphemeral)] else [])
  }

  function Lists(o: Options): seq<Printed> {
    Repeat(AllowAppRoot, o.appRoots)
    + (Repeat(TsnetTag, o.tags) + (Repeat(TsnetAllowLogin, o.allowLogins) + Repeat(TsnetAllowNode, o.allowNodes)))
  }

  function Flagged(go: Syntax, o: Options): seq<Printed> {
    Fixed(o) + (Capped(go, o) + (Switches(o) + Lists(o)))
  }

  function Arguments(go: Syntax, o: Options): seq<string> {
    [o.program, "serve-tsnet"] + Print(Flagged(go, o))
  }

  method AppendAll(args: seq<string>, f: Flag, vs: seq<string>) returns (r: seq<string>)
    ensures r == args + Print(Repeat(f, vs))
  {
    hide NameOf;
    r := args;
    var i := 0;
    while i < |vs|
      invariant 0 <= i <= |vs|
      invariant r == args + Print(Repeat(f, vs[..i]))
    {
      r := r + ["--" + NameOf(f), vs[i]];
      assert Repeat(f, vs[..i + 1]) == Repeat(f, vs[..i]) + [With(f, vs[i])];
      PrintConcat(Repeat(f, vs[..i]), [With(f, vs[i])]);
      assert Print([With(f, vs[i])]) == ["--" + NameOf(f), vs[i]];
      i := i + 1;
    }
    assert vs[..i] == vs;
  }

  method AppendIf(args: seq<string>, on: bool, p: Printed) returns (r: seq<string>)
    ensures r == args + Print(if on then [p] else [])
  {
    hide Tokens;
    assert Print([p]) == Tokens(p);
    r := if on then args + Tokens(p) else args;
  }

  function FixedArguments(o: Options): seq<string> {
    ["--" + NameOf(Spectra), o.spectraPath, "--" + NameOf(TsnetAddr), o.listenAddr,
     "--" + NameOf(TsnetHostname), o.hostname, "--" + NameOf(TsnetStateDir), o.stateDir,
     "--" + NameOf(AuditLog), o.auditLog, "--" + NameOf(MaxConnections), ShowInt(o.maxConnections)]
  }

  lemma PrintFixed(o: Options)
    ensures Print(Fixed(o)) == FixedArguments(o)
  {
    hide NameOf;
    var p := Fixed(o);
    assert Print(p[5..]) == Tokens(p[5]);
    assert Print(p[4..]) == Tokens(p[4]) + Print(p[5..]) by { assert p[4..][1..] == p[5..]; }
    assert Print(p[3..]) == Tokens(p[3]) + Print(p[4..]) by { assert p[3..][1..] == p[4..]; }
    assert Print(p[2..]) == Tokens(p[2]) + Print(p[3..]) by { assert p[2..][1..] == p[3..]; }
    assert Print(p[1..]) == Tokens(p[1]) + Print(p[2..]) by { assert p[1..][1..] == p[2..]; }
  }

  /** The argument list of Plist. */
  method ProgramArguments(go: Syntax, o: Options) returns (args: seq<string>)
    ensures args == Arguments(go, o)
  {
    hide Print, Repeat, Fixed, FixedArguments, Flagged;
    PrintFixed(o);
    PrintParts(go, o);
    args := FixedArguments(o);
    args := AppendIf(args, o.maxRunDuration != 0 && o.maxRunDuration != DEFAULT_MAX_RUN_DURATION,
                     With(MaxRunDuration, go.showDuration(o.maxRunDuration)));
    assert args == Print(Fixed(o)) + Print(Capped(go, o));
    args := AppendIf(args, o.allowSnapshot, Switch(AllowSnapshot));
    args := AppendIf(args, o.allowSnapshotApps, Switch(AllowSnapshotApps));
    args := AppendIf(args, o.ephemeral, Switch(TsnetEphemeral));
    args := AppendAll(args, AllowAppRoot, o.appRoots);
    args := AppendAll(args, TsnetTag, o.tags);
    args := AppendAll(args, TsnetAllowLogin, o.allowLogins);
    args := AppendAll(args, TsnetAllowNode, o.allowNodes);
    args := [o.program, "serve-tsnet"] + args;
  }

  lemma PrintParts(go: Syntax, o: Options)
    ensures Print(Flagged(go, o)) ==
      Print(Fixed(o)) + Print(Capped(go, o))
      + Print(if o.allowSnapshot then [Switch(AllowSnapshot)] else [])
      + Print(if o.allowSnapshotApps then [Switch(AllowSnapshotApps)] else [])
      + Print(if o.ephemeral then [Switch(TsnetEphemeral)] else [])
      + Print(Repeat(AllowAppRoot, o.appRoots)) + Print(Repeat(TsnetTag, o.tags))
      + Print(Repeat(TsnetAllowLogin, o.allowLogins)) + Print(Repeat(TsnetAllowNode, o.allowNodes))
  {
    hide Print, Repeat, Fixed, Capped, Switches, Lists;
    PrintConcat(Fixed(o), Capped(go, o) + (Switches(o) + Lists(o)));
    PrintConcat(Capped(go, o), Switches(o) + Lists(o));
    PrintConcat(Switches(o), Lists(o));
    PrintSwitches(o);
    PrintLists(o);
  }

  lemma PrintSwitches(o: Options)
    ensures Print(Switches(o)) ==
      Print(if o.allowSnapshot then [Switch(AllowSnapshot)] else [])
      + Print(if o.allowSnapshotApps then [Switch(AllowSnapshotApps)] else [])
      + Print(if o.ephemeral then [Switch(TsnetEphemeral)] else [])
  {
    hide Print;
    var snapshot := if o.allowSnapshot then [Switch(AllowSnapshot)] else [];
    var apps := if o.allowSnapshotApps then [Switch(AllowSnapshotApps)] else [];
    PrintConcat(snapshot + apps, if o.ephemeral then [Switch(TsnetEphemeral)] else []);
    PrintConcat(snapshot, apps);
  }

  lemma PrintLists(o: Options)
    ensures Print(Lists(o)) ==
      Print(Repeat(AllowAppRoot, o.appRoots)) + Print(Repeat(TsnetTag, o.tags))
      + Print(Repeat(TsnetAllowLogin, o.allowLogins)) + Print(Repeat(TsnetAllowNode, o.allowNodes))
  {
    hide Print, Repeat;
    var tags, logins, nodes := Repeat(TsnetTag, o.tags), Repeat(TsnetAllowLogin, o.allowLogins),
        Repeat(TsnetAllowNode, o.allowNodes);
    PrintConcat(Repeat(AllowAppRoot, o.appRoots), tags + (logins + nodes));
    PrintConcat(tags, logins + nodes);
    PrintConcat(logins, nodes);
  }

  /** Plist. */
  method WritePlist(go: Syntax, o: Options, out: string, err: string) returns (doc: string)
    ensures doc == Document(Job(Arguments(go, o), out, err))
  {
    var args := ProgramArguments(go, o);
    doc := WriteDocument(args, out, err);
  }

  // ---------------------------------------------------------------------
  // Applying what was printed
  // ---------------------------------------------------------------------

  /** The settings the options stand for. */
  function SettingsOf(o: Options): Settings {
    Settings(o.spectraPath, "", o.listenAddr, o.hostname, o.stateDir, o.auditLog, o.maxConnections, o.maxRunDuration,
             o.ephemeral, o.appRoots, o.tags, o.allowLogins, o.allowNodes, false, o.allowSnapshot, o.allowSnapshotApps)
  }

  lemma FlaggedIsPrintable(go: Syntax, o: Options)
    ensures Printable(Formal(false), Flagged(go, o))
  {
    assert Formal(false) == SERVE_FLAGS;
    hide Fixed, Capped, Switches, Lists;
    forall p | p in Flagged(go, o) ensures p.f in SERVE_FLAGS && (p.Switch? <==> IsBoolFlag(p.f)) {
      PartsArePrintable(go, o, p);
    }
  }

  lemma PartsArePrintable(go: Syntax, o: Options, p: Printed)
    ensures p in Fixed(o) || p in Capped(go, o) || p in Lists(o) ==> p.f in SERVE_FLAGS && p.With? && !IsBoolFlag(p.f)
    ensures p in Switches(o) ==> p.f in SERVE_FLAGS && p.Switch? && IsBoolFlag(p.f)
  {
    hide ShowInt;
    hide SERVE_FLAGS;
    assert p in Fixed(o) ==>
        p.With? && p.f in {Spectra, TsnetAddr, TsnetHostname, TsnetStateDir, AuditLog, MaxConnections};
    assert p in Lists(o) ==> p.With? && p.f in {AllowAppRoot, TsnetTag, TsnetAllowLogin, TsnetAllowNode};
    IsServeFlag(p.f);
  }

  lemma IsServeFlag(f: Flag)
    ensures f in SERVE_FLAGS <==> f != NoLoad
  {
    var s := SERVE_FLAGS;
    assert s[0] == Spectra && s[2] == TsnetAddr && s[3] == TsnetHostname && s[4] == TsnetStateDir && s[5] == AuditLog
        && s[6] == MaxConnections;
    assert s[7] == MaxRunDuration && s[8] == TsnetEphemeral && s[9] == AllowSnapshot && s[10] == AllowSnapshotApps;
    assert s[1] == ProvisionRoot && s[11] == AllowAppRoot && s[12] == TsnetTag && s[13] == TsnetAllowLogin
        && s[14] == TsnetAllowNode;
  }

  /** A list flag appends its values in order. */
  lemma {:induction false} ApplyRepeat(go: Syntax, s: Settings, f: Flag, vs: seq<string>)
    requires f in {AllowAppRoot, TsnetTag, TsnetAllowLogin, TsnetAllowNode}
    requires f == AllowAppRoot ==> forall v :: v in vs ==> IsAbs(v)
    ensures ApplyAll(go, s, Repeat(f, vs)) == Some(
      match f
      case AllowAppRoot => s.(appRoots := s.appRoots + vs)
      case TsnetTag => s.(tags := s.tags + vs)
      case TsnetAllowLogin => s.(allowLogins := s.allowLogins + vs)
      case _ => s.(allowNodes := s.allowNodes + vs))
    decreases |vs|
  {
    if vs == [] {
      assert s.appRoots + vs == s.appRoots && s.tags + vs == s.tags && s.allowLogins + vs == s.allowLogins
          && s.allowNodes + vs == s.allowNodes;
    } else {
      assert Repeat(f, vs)[1..] == Repeat(f, vs[1..]);
      assert vs == [vs[0]] + vs[1..];
      var next := SetFlag(go, s, f, vs[0]).value;
      ApplyRepeat(go, next, f, vs[1..]);
      assert s.appRoots + [vs[0]] + vs[1..] == s.appRoots + vs;
      assert s.tags + [vs[0]] + vs[1..] == s.tags + vs;
      assert s.allowLogins + [vs[0]] + vs[1..] == s.allowLogins + vs;
      assert s.allowNodes + [vs[0]] + vs[1..] == s.allowNodes + vs;
    }
  }

  lemma ApplyFixed(go: Syntax, s: Settings, o: Options)
    requires 0 <= o.maxConnections <= MAX_INT
    ensures ApplyAll(go, s, Fixed(o)) == Some(s.(
      spectraPath := o.spectraPath, listenAddr := o.listenAddr, hostname := o.hostname,
      stateDir := o.stateDir, auditLog := o.auditLog, maxConnections := o.maxConnections))
  {
    IntRoundTrip(go, o.maxConnections);
    hide ReadInt, ShowInt;
    var p := Fixed(o);
    var s1 := s.(spectraPath := o.spectraPath);
    var s2 := s1.(listenAddr := o.listenAddr);
    var s3 := s2.(hostname := o.hostname);
    var s4 := s3.(stateDir := o.stateDir);
    var s5 := s4.(auditLog := o.auditLog);
    var s6 := s5.(maxConnections := o.maxConnections);
    assert ApplyAll(go, s5, p[5..]) == Some(s6) by { assert p[5..][1..] == []; }
    assert ApplyAll(go, s4, p[4..]) == Some(s6) by { assert p[4..][1..] == p[5..]; }
    assert ApplyAll(go, s3, p[3..]) == Some(s6) by { assert p[3..][1..] == p[4..]; }
    assert ApplyAll(go, s2, p[2..]) == Some(s6) by { assert p[2..][1..] == p[3..]; }
    assert ApplyAll(go, s1, p[1..]) == Some(s6) by { assert p[1..][1..] == p[2..]; }
  }

  lemma ApplySwitches(go: Syntax, s: Settings, o: Options)
    requires !s.ephemeral && !s.allowSnapshot && !s.allowSnapshotApps
    ensures ApplyAll(go, s, Switches(o)) == Some(s.(
      ephemeral := o.ephemeral, allowSnapshot := o.allowSnapshot, allowSnapshotApps := o.allowSnapshotApps))
  {
    var a := if o.allowSnapshot then [Switch(AllowSnapshot)] else [];
    var b := if o.allowSnapshotApps then [Switch(AllowSnapshotApps)] else [];
    var c := if o.ephemeral then [Switch(TsnetEphemeral)] else [];
    var s1 := s.(allowSnapshot := o.allowSnapshot);
    var s2 := s1.(allowSnapshotApps := o.allowSnapshotApps);
    ApplyConcat(go, s, a + b, c);
    ApplyConcat(go, s, a, b);
    assert ApplyAll(go, s, a) == Some(s1);
    assert ApplyAll(go, s1, b) == Some(s2);
  }

  lemma ApplyLists(go: Syntax, s: Settings, o: Options)
    requires s.appRoots == s.tags == s.allowLogins == s.allowNodes == []
    requires forall root :: root in o.appRoots ==> IsAbs(root)
    ensures ApplyAll(go, s, Lists(o)) == Some(s.(
      appRoots := o.appRoots, tags := o.tags, allowLogins := o.allowLogins, allowNodes := o.allowNodes))
  {
    hide Repeat, ApplyAll;
    var roots, tags := Repeat(AllowAppRoot, o.appRoots), Repeat(TsnetTag, o.tags);
    var logins, nodes := Repeat(TsnetAllowLogin, o.allowLogins), Repeat(TsnetAllowNode, o.allowNodes);
    assert [] + o.appRoots == o.appRoots && [] + o.tags == o.tags && [] + o.allowLogins == o.allowLogins
        && [] + o.allowNodes == o.allowNodes;
    var s1 := s.(appRoots := o.appRoots);
    var s2 := s1.(tags := o.tags);
    var s3 := s2.(allowLogins := o.allowLogins);
    ApplyRepeat(go, s, AllowAppRoot, o.appRoots);
    ApplyRepeat(go, s1, TsnetTag, o.tags);
    ApplyRepeat(go, s2, TsnetAllowLogin, o.allowLogins);
    ApplyRepeat(go, s3, TsnetAllowNode, o.allowNodes);
    ApplyConcat(go, s, roots, tags + (logins + nodes));
    ApplyConcat(go, s1, tags, logins + nodes);
    ApplyConcat(go, s2, logins, nodes);
  }

  // What the flags start from: nothing given, the default cap.
  predicate IsFresh(s: Settings) {
    && s.spectraPath == s.provisionRoot == "" && s.maxRunDuration == DEFAULT_MAX_RUN_DURATION
    && !s.ephemeral && !s.noLoad && !s.allowSnapshot && !s.allowSnapshotApps
    && s.appRoots == s.tags == s.allowLogins == s.allowNodes == []
  }

  /** Parsing the printed arguments gives the options back: lists in order, defaults filled in. */
  lemma ArgumentsParseBack(go: Syntax, s: Settings, o: Options)
    requires SyntaxOk(go) && IsFresh(s)
    requires 0 <= o.maxConnections <= MAX_INT && 0 < o.maxRunDuration
    requires forall root :: root in o.appRoots ==> IsAbs(root)
    ensures Parse(go, Formal(false), s, Arguments(go, o)[2..]) == Some((SettingsOf(o), []))
  {
    hide Fixed, Switches, Lists, Print, ApplyAll, Printable, Formal, Parse;
    assert Arguments(go, o)[2..] == Print(Flagged(go, o));
    FlaggedIsPrintable(go, o);
    PrintedParsesBack(go, Formal(false), s, Flagged(go, o));
    var rest := Switches(o) + Lists(o);
    ApplyConcat(go, s, Fixed(o), Capped(go, o) + rest);
    ApplyFixed(go, s, o);
    var s1 := ApplyAll(go, s, Fixed(o)).value;
    ApplyCapped(go, s1, o);
    ApplyConcat(go, s1, Capped(go, o), rest);
    var s2 := s1.(maxRunDuration := o.maxRunDuration);
    ApplySwitches(go, s2, o);
    ApplyConcat(go, s2, Switches(o), Lists(o));
    var s3 := ApplyAll(go, s2, Switches(o)).value;
    ApplyLists(go, s3, o);
  }

  lemma ApplyCapped(go: Syntax, s: Settings, o: Options)
    requires SyntaxOk(go) && s.maxRunDuration == DEFAULT_MAX_RUN_DURATION && 0 < o.maxRunDuration
    ensures ApplyAll(go, s, Capped(go, o)) == Some(s.(maxRunDuration := o.maxRunDuration))
  {
  }

  /** A root that is not absolute stops the parser. */
  lemma {:induction false} RelativeRootFails(go: Syntax, s: Settings, ps: seq<Printed>)
    requires exists p :: p in ps && p.With? && p.f == AllowAppRoot && !IsAbs(p.v)
    ensures ApplyAll(go, s, ps).None?
    decreases |ps|
  {
    var p :| p in ps && p.With? && p.f == AllowAppRoot && !IsAbs(p.v);
    var next := ApplyOne(go, s, ps[0]);
    if ps[0] != p && next.Some? {
      assert p in ps[1..];
      RelativeRootFails(go, next.value, ps[1..]);
    }
  }

  lemma RelativeRootIsRefused(go: Syntax, s: Settings, o: Options)
    requires exists root :: root in o.appRoots && !IsAbs(root)
    ensures Parse(go, Formal(false), s, Arguments(go, o)[2..]).None?
  {
    hide Fixed, Switches, Print, ApplyAll, Printable, Formal, Parse, Capped;
    assert Arguments(go, o)[2..] == Print(Flagged(go, o));
    FlaggedIsPrintable(go, o);
    PrintedParsesBack(go, Formal(false), s, Flagged(go, o));
    var i :| 0 <= i < |o.appRoots| && !IsAbs(o.appRoots[i]);
    var p := Repeat(AllowAppRoot, o.appRoots)[i];
    assert p in Lists(o);
    RelativeRootFails(go, s, Flagged(go, o));
  }
}
