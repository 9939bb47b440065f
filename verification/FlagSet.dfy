// Go's flag package as the agent uses it, and the flags of serve-tsnet and install.
module FlagSet {
  import opened Common
  import opened GoText

  type Duration = int   // nanoseconds

  // What Go's number and duration syntax does, as far as it is not spelled out below.
  datatype Syntax = Syntax(
    showDuration: Duration -> string,
    readDuration: string -> Option<Duration>,
    readOtherInt: string -> Option<int>)     // strconv.ParseInt on texts that are not plain decimals

  ghost predicate SyntaxOk(go: Syntax) {
    forall d: Duration :: 0 < d ==> go.readDuration(go.showDuration(d)) == Some(d)
  }

  const MAX_INT := 0x7fff_ffff_ffff_ffff

  // ---------------------------------------------------------------------
  // Decimal numbers
  // ---------------------------------------------------------------------

  function Digit(d: nat): char
    requires d < 10
  {
    "0123456789"[d]
  }

  function ShowNat(n: nat): (s: string)
    ensures s != "" && forall c :: c in s ==> IsDigit(c)
  {
    if n < 10 then [Digit(n)] else ShowNat(n / 10) + [Digit(n % 10)]
  }

  /** fmt.Sprint on an int. */
  function ShowInt(n: int): string {
    if n < 0 then "-" + ShowNat(-n) else ShowNat(n)
  }

  predicate IsDigit(c: char) {
    '0' <= c <= '9'
  }

  /** A plain decimal: digits without a leading zero. */
  predicate IsPlain(s: string) {
    s != "" && (forall c :: c in s ==> IsDigit(c)) && (s[0] == '0' ==> |s| == 1)
  }

  function Value(s: string): nat
    requires forall c :: c in s ==> IsDigit(c)
  {
    if s == "" then 0
    else
      assert IsDigit(s[|s| - 1]);
      10 * Value(s[..|s| - 1]) + (s[|s| - 1] as int - '0' as int)
  }

  function ReadInt(go: Syntax, s: string): Option<int> {
    if IsPlain(s) then if Value(s) <= MAX_INT then Some(Value(s)) else None
    else go.readOtherInt(s)
  }

  lemma {:induction false} NatRoundTrip(n: nat)
    ensures IsPlain(ShowNat(n)) && Value(ShowNat(n)) == n
    ensures n > 0 ==> ShowNat(n)[0] != '0'
  {
    if n >= 10 {
      NatRoundTrip(n / 10);
      var s := ShowNat(n);
      assert s[..|s| - 1] == ShowNat(n / 10);
      assert s[0] == ShowNat(n / 10)[0];
    } else {
      assert ShowNat(n)[..0] == "";
    }
  }

  /** A positive int is read back from its decimal. */
  lemma IntRoundTrip(go: Syntax, n: int)
    requires 0 <= n <= MAX_INT
    ensures ReadInt(go, ShowInt(n)) == Some(n)
  {
    NatRoundTrip(n);
  }

  lemma LargeIntsAreRefused(go: Syntax, n: int)
    requires n > MAX_INT
    ensures ReadInt(go, ShowInt(n)) == None
  {
    NatRoundTrip(n);
  }

  // ---------------------------------------------------------------------
  // The flags
  // ---------------------------------------------------------------------

  datatype Flag =
    | Spectra | ProvisionRoot | TsnetAddr | TsnetHostname | TsnetStateDir | AuditLog
    | MaxConnections | MaxRunDuration
    | TsnetEphemeral | AllowSnapshot | AllowSnapshotApps | NoLoad
    | AllowAppRoot | TsnetTag | TsnetAllowLogin | TsnetAllowNode

  function NameOf(f: Flag): string {
    match f
    case Spectra => "spectra"
    case ProvisionRoot => "provision-root"
    case TsnetAddr => "tsnet-addr"
    case TsnetHostname => "tsnet-hostname"
    case TsnetStateDir => "tsnet-state-dir"
    case AuditLog => "audit-log"
    case MaxConnections => "max-connections"
    case MaxRunDuration => "max-run-duration"
    case TsnetEphemeral => "tsnet-ephemeral"
    case AllowSnapshot => "allow-snapshot"
    case AllowSnapshotApps => "allow-snapshot-apps"
    case NoLoad => "no-load"
    case AllowAppRoot => "allow-app-root"
    case TsnetTag => "tsnet-tag"
    case TsnetAllowLogin => "tsnet-allow-login"
    case TsnetAllowNode => "tsnet-allow-node"
  }

  predicate IsBoolFlag(f: Flag) {
    f in {TsnetEphemeral, AllowSnapshot, AllowSnapshotApps, NoLoad}
  }

  const SERVE_FLAGS := [
    Spectra, ProvisionRoot, TsnetAddr, TsnetHostname, TsnetStateDir, AuditLog, MaxConnections, MaxRunDuration,
    TsnetEphemeral, AllowSnapshot, AllowSnapshotApps, AllowAppRoot, TsnetTag, TsnetAllowLogin, TsnetAllowNode]

  /** The flags a command defines; install also has --no-load. */
  function Formal(allowNoLoad: bool): seq<Flag> {
    SERVE_FLAGS + if allowNoLoad then [NoLoad] else []
  }

  function Find(flags: seq<Flag>, name: string): Option<Flag> {
    if flags == [] then None else if NameOf(flags[0]) == name then Some(flags[0]) else Find(flags[1..], name)
  }

  lemma NamesAreDistinct(f: Flag, g: Flag)
    requires NameOf(f) == NameOf(g)
    ensures f == g
  {
    var a, b := NameOf(f), NameOf(g);
    assert |a| == |b| && a[0] == b[0] && a[1] == b[1] && a[6] == b[6];
  }

  predicate IsNameChar(c: char) {
    'a' <= c <= 'z' || c == '-'
  }

  predicate IsName(s: string) {
    forall c :: c in s ==> IsNameChar(c)
  }

  lemma ShortNames(f: Flag)
    requires f in {Spectra, NoLoad, AuditLog, TsnetTag, TsnetAddr}
    ensures IsName(NameOf(f))
  {
  }

  lemma TsnetNames(f: Flag)
    requires f in {TsnetHostname, TsnetStateDir, TsnetEphemeral, TsnetAllowLogin, TsnetAllowNode}
    ensures IsName(NameOf(f))
  {
  }

  lemma OtherNames(f: Flag)
    requires f in {ProvisionRoot, MaxConnections, MaxRunDuration, AllowSnapshot, AllowSnapshotApps, AllowAppRoot}
    ensures IsName(NameOf(f))
  {
  }

  /** Every name consists of lower-case letters and dashes. */
  lemma NamesArePlain(f: Flag)
    ensures IsName(NameOf(f))
  {
    hide IsName, NameOf;
    if f in {Spectra, NoLoad, AuditLog, TsnetTag, TsnetAddr} {
      ShortNames(f);
    } else if f in {TsnetHostname, TsnetStateDir, TsnetEphemeral, TsnetAllowLogin, TsnetAllowNode} {
      TsnetNames(f);
    } else {
      OtherNames(f);
    }
  }

  lemma NameStart(f: Flag)
    ensures NameOf(f) != "" && NameOf(f)[0] != '-'
  {
  }

  /** A name looks like a flag name to the parser: no dash or equals sign in front, no equals sign in it. */
  lemma NameIsToken(f: Flag)
    ensures NameOf(f) != "" && NameOf(f)[0] !in "-=" && '=' !in NameOf(f)
  {
    NamesArePlain(f);
    NameStart(f);
    hide NameOf;
    assert NameOf(f)[0] in NameOf(f);
  }

  lemma {:induction false} FindsByName(flags: seq<Flag>, f: Flag)
    requires f in flags
    ensures Find(flags, NameOf(f)) == Some(f)
  {
    if NameOf(flags[0]) == NameOf(f) {
      NamesAreDistinct(flags[0], f);
    } else {
      assert f in flags[1..];
      FindsByName(flags[1..], f);
    }
  }

  // ---------------------------------------------------------------------
  // Settings
  // ---------------------------------------------------------------------

  // tsnetOptions.
  datatype Settings = Settings(
    spectraPath: string, provisionRoot: string, listenAddr: string, hostname: string,
    stateDir: string, auditLog: string,
    maxConnections: int, maxRunDuration: Duration, ephemeral: bool,
    appRoots: seq<string>, tags: seq<string>, allowLogins: seq<string>, allowNodes: seq<string>,
    noLoad: bool, allowSnapshot: bool, allowSnapshotApps: bool)

  /** strconv.ParseBool. */
  function ReadBool(s: string): Option<bool> {
    if s in {"1", "t", "T", "true", "TRUE", "True"} then Some(true)
    else if s in {"0", "f", "F", "false", "FALSE", "False"} then Some(false)
    else None
  }

  /** The Set method of the flag's value. */
  function SetFlag(go: Syntax, o: Settings, f: Flag, v: string): Option<Settings> {
    match f
    case Spectra => Some(o.(spectraPath := v))
    case ProvisionRoot => Some(o.(provisionRoot := v))
    case TsnetAddr => Some(o.(listenAddr := v))
    case TsnetHostname => Some(o.(hostname := v))
    case TsnetStateDir => Some(o.(stateDir := v))
    case AuditLog => Some(o.(auditLog := v))
    case MaxConnections => (match ReadInt(go, v) case Some(n) => Some(o.(maxConnections := n)) case None => None)
    case MaxRunDuration => (match go.readDuration(v) case Some(d) => Some(o.(maxRunDuration := d)) case None => None)
    case TsnetEphemeral => (match ReadBool(v) case Some(b) => Some(o.(ephemeral := b)) case None => None)
    case AllowSnapshot => (match ReadBool(v) case Some(b) => Some(o.(allowSnapshot := b)) case None => None)
    case AllowSnapshotApps => (match ReadBool(v) case Some(b) => Some(o.(allowSnapshotApps := b)) case None => None)
    case NoLoad => (match ReadBool(v) case Some(b) => Some(o.(noLoad := b)) case None => None)
    case AllowAppRoot => if IsAbs(v) then Some(o.(appRoots := o.appRoots + [v])) else None
    case TsnetTag => Some(o.(tags := o.tags + [v]))
    case TsnetAllowLogin => Some(o.(allowLogins := o.allowLogins + [v]))
    case TsnetAllowNode => Some(o.(allowNodes := o.allowNodes + [v]))
  }

  // ---------------------------------------------------------------------
  // Parsing
  // ---------------------------------------------------------------------

  /** Splits name=value at the first equals sign after the first character. */
  function SplitName(name: string, i: nat): (string, Option<string>)
    requires 1 <= i
    decreases |name| - i
  {
    if i >= |name| then (name, None)
    else if name[i] == '=' then (name[..i], Some(name[i + 1..]))
    else SplitName(name, i + 1)
  }

  lemma SplitWithoutEquals(name: string, i: nat)
    requires 1 <= i && '=' !in name
    ensures SplitName(name, i) == (name, None)
    decreases |name| - i
  {
  }

  // One step of the parser: no more flags, one flag taken, or an error (including -help).
  datatype Step = Stop(rest: seq<string>) | Took(o: Settings, rest: seq<string>) | Bad

  /** FlagSet.parseOne. */
  function ParseOne(go: Syntax, flags: seq<Flag>, o: Settings, args: seq<string>): (r: Step)
    ensures r.Took? ==> |r.rest| < |args|
  {
    if args == [] || |args[0]| < 2 || args[0][0] != '-' then Stop(args)
    else if args[0] == "--" then Stop(args[1..])
    else
      var token := if args[0][1] == '-' then args[0][2..] else args[0][1..];
      if token == "" || token[0] == '-' || token[0] == '=' then Bad
      else
        var (name, value) := SplitName(token, 1);
        ParseNamed(go, flags, o, name, value, args)
  }

  /** The second half of parseOne, once the first argument is known to name a flag. */
  function ParseNamed(go: Syntax, flags: seq<Flag>, o: Settings, name: string, value: Option<string>,
                      args: seq<string>): (r: Step)
    requires args != []
    ensures r.Took? ==> |r.rest| < |args|
  {
    match Find(flags, name)
    case None => Bad
    case Some(f) =>
      if IsBoolFlag(f) then Assign(go, o, f, if value.Some? then value.value else "true", args[1..])
      else if value.Some? then Assign(go, o, f, value.value, args[1..])
      else if |args| < 2 then Bad
      else Assign(go, o, f, args[1], args[2..])
  }

  function Assign(go: Syntax, o: Settings, f: Flag, v: string, rest: seq<string>): (r: Step)
    ensures r.Took? ==> r.rest == rest
  {
    match SetFlag(go, o, f, v)
    case Some(next) => Took(next, rest)
    case None => Bad
  }

  // The settings and the positional arguments.
  type Parsing = Option<(Settings, seq<string>)>

  function Parse(go: Syntax, flags: seq<Flag>, o: Settings, args: seq<string>): Parsing
    decreases |args|
  {
    match ParseOne(go, flags, o, args)
    case Stop(rest) => Some((o, rest))
    case Took(next, rest) => Parse(go, flags, next, rest)
    case Bad => None
  }

  /** FlagSet.Parse. */
  method ParseFlags(go: Syntax, flags: seq<Flag>, defaults: Settings, args: seq<string>) returns (r: Parsing)
    ensures r == Parse(go, flags, defaults, args)
  {
    var o, rest := defaults, args;
    while true
      invariant Parse(go, flags, o, rest) == Parse(go, flags, defaults, args)
      decreases |rest|
    {
      match ParseOne(go, flags, o, rest)
      case Stop(positional) => return Some((o, positional));
      case Took(next, tail) => o, rest := next, tail;
      case Bad => return None;
    }
  }

  lemma {:induction false} SplitAtEquals(name: string, v: string, i: nat)
    requires 1 <= i <= |name| && '=' !in name
    ensures SplitName(name + "=" + v, i) == (name, Some(v))
    decreases |name| - i
  {
    var s := name + "=" + v;
    if i < |name| {
      assert s[i] == name[i] && name[i] in name;
      SplitAtEquals(name, v, i + 1);
    } else {
      assert s[i] == '=' && s[..i] == name && s[i + 1..] == v;
    }
  }

  lemma DashesAreStripped(go: Syntax, flags: seq<Flag>, o: Settings, dashes: string, token: string, args: seq<string>)
    requires dashes in {"-", "--"} && token != "" && token[0] !in "-="
    requires args != [] && args[0] == dashes + token
    ensures
      var (name, value) := SplitName(token, 1);
      ParseOne(go, flags, o, args) == ParseNamed(go, flags, o, name, value, args)
  {
    var s := args[0];
    assert s[0] == '-' && s[|dashes|] == token[0] && s[|dashes|..] == token;
  }

  /** One or two dashes, and the value in the same argument or in the next, mean the same. */
  lemma FlagFormsAgree(go: Syntax, flags: seq<Flag>, o: Settings, f: Flag, v: string, rest: seq<string>, dashes: string)
    requires f in flags && dashes in {"-", "--"}
    ensures
      var next := SetFlag(go, o, f, v);
      var expected := if next.Some? then Took(next.value, rest) else Bad;
      && ParseOne(go, flags, o, [dashes + (NameOf(f) + "=" + v)] + rest) == expected
      && (!IsBoolFlag(f) ==> ParseOne(go, flags, o, [dashes + NameOf(f), v] + rest) == expected)
      && (!IsBoolFlag(f) ==> ParseOne(go, flags, o, [dashes + NameOf(f)]) == Bad)
  {
    NameIsToken(f);
    FindsByName(flags, f);
    var name := NameOf(f);
    hide NameOf, SetFlag, ReadBool, ParseOne, SplitName;
    SplitAtEquals(name, v, 1);
    SplitWithoutEquals(name, 1);
    var joined, apart := [dashes + (name + "=" + v)] + rest, [dashes + name, v] + rest;
    DashesAreStripped(go, flags, o, dashes, name + "=" + v, joined);
    DashesAreStripped(go, flags, o, dashes, name, apart);
    DashesAreStripped(go, flags, o, dashes, name, [dashes + name]);
    assert joined[1..] == rest && apart[1] == v && apart[2..] == rest;
  }

  /** A bool flag alone is set; a name that no flag has is an error. */
  lemma BareFlags(go: Syntax, flags: seq<Flag>, o: Settings, name: string, rest: seq<string>, dashes: string)
    requires dashes in {"-", "--"} && name != "" && name[0] !in "-=" && '=' !in name
    ensures (forall f :: f in flags ==> NameOf(f) != name) ==>
              ParseOne(go, flags, o, [dashes + name] + rest) == Bad
    ensures forall f :: f in flags && IsBoolFlag(f) && NameOf(f) == name ==>
              ParseOne(go, flags, o, [dashes + name] + rest) == Assign(go, o, f, "true", rest)
  {
    hide NameOf, SetFlag, ReadBool, ParseOne, SplitName, Assign;
    SplitWithoutEquals(name, 1);
    var args := [dashes + name] + rest;
    DashesAreStripped(go, flags, o, dashes, name, args);
    assert args[1..] == rest;
    if forall f :: f in flags ==> NameOf(f) != name { FindsNothing(flags, name); }
    forall f | f in flags && NameOf(f) == name ensures Find(flags, name) == Some(f) {
      FindsByName(flags, f);
    }
  }

  lemma {:induction false} FindsNothing(flags: seq<Flag>, name: string)
    requires forall f :: f in flags ==> NameOf(f) != name
    ensures Find(flags, name) == None
  {
    hide NameOf;
    if flags != [] {
      FindsNothing(flags[1..], name);
    }
  }

  /** Parsing stops at the first argument that is no flag; a double dash is swallowed. */
  lemma FlagsEnd(go: Syntax, flags: seq<Flag>, o: Settings, arg: string, rest: seq<string>)
    ensures Parse(go, flags, o, []) == Some((o, []))
    ensures arg == "" || arg == "-" || arg[0] != '-' ==>
              Parse(go, flags, o, [arg] + rest) == Some((o, [arg] + rest))
    ensures Parse(go, flags, o, ["--"] + rest) == Some((o, rest))
  {
    assert (["--"] + rest)[1..] == rest;
  }

  // ---------------------------------------------------------------------
  // Printing and parsing a list of settings
  // ---------------------------------------------------------------------

  // One printed flag; only bool flags are printed without a value.
  datatype Printed = Switch(f: Flag) | With(f: Flag, v: string)

  function Tokens(p: Printed): seq<string> {
    match p
    case Switch(f) => ["--" + NameOf(f)]
    case With(f, v) => ["--" + NameOf(f), v]
  }

  function Print(ps: seq<Printed>): seq<string> {
    if ps == [] then [] else Tokens(ps[0]) + Print(ps[1..])
  }

  function ApplyOne(go: Syntax, o: Settings, p: Printed): Option<Settings> {
    match p
    case Switch(f) => SetFlag(go, o, f, "true")
    case With(f, v) => SetFlag(go, o, f, v)
  }

  function ApplyAll(go: Syntax, o: Settings, ps: seq<Printed>): Option<Settings>
    decreases |ps|
  {
    if ps == [] then Some(o)
    else
      match ApplyOne(go, o, ps[0])
      case None => None
      case Some(next) => ApplyAll(go, next, ps[1..])
  }

  predicate Printable(flags: seq<Flag>, ps: seq<Printed>) {
    forall p :: p in ps ==> p.f in flags && (p.Switch? <==> IsBoolFlag(p.f))
  }

  lemma TokenStart(f: Flag)
    ensures
      var t := "--" + NameOf(f);
      |t| >= 3 && t[0] == '-' && t[1] == '-' && t[2..] == NameOf(f) && t != "--"
      && NameOf(f)[0] !in "-=" && '=' !in NameOf(f)
  {
    NameIsToken(f);
  }

  lemma ParseOnePrinted(go: Syntax, flags: seq<Flag>, o: Settings, p: Printed, rest: seq<string>)
    requires p.f in flags && (p.Switch? <==> IsBoolFlag(p.f))
    ensures
      var next := ApplyOne(go, o, p);
      ParseOne(go, flags, o, Tokens(p) + rest) == if next.Some? then Took(next.value, rest) else Bad
  {
    hide NameOf;
    TokenStart(p.f);
    FindsByName(flags, p.f);
    SplitWithoutEquals(NameOf(p.f), 1);
    var args := Tokens(p) + rest;
    assert args[0] == "--" + NameOf(p.f);
    assert p.Switch? ==> args[1..] == rest;
    assert p.With? ==> args[1] == p.v && args[2..] == rest;
  }

  /** Whatever is printed, its values included, parses back to the settings it assigns, in order. */
  lemma {:induction false} PrintedParsesBack(go: Syntax, flags: seq<Flag>, o: Settings, ps: seq<Printed>)
    requires Printable(flags, ps)
    ensures
      var r := ApplyAll(go, o, ps);
      Parse(go, flags, o, Print(ps)) == if r.Some? then Some((r.value, [])) else None
    decreases |ps|
  {
    if ps != [] {
      ParseOnePrinted(go, flags, o, ps[0], Print(ps[1..]));
      var next := ApplyOne(go, o, ps[0]);
      if next.Some? {
        PrintedParsesBack(go, flags, next.value, ps[1..]);
      }
    }
  }

  lemma {:induction false} PrintConcat(a: seq<Printed>, b: seq<Printed>)
    ensures Print(a + b) == Print(a) + Print(b)
  {
    hide Tokens;
    if a == [] {
      assert a + b == b;
    } else {
      PrintConcat(a[1..], b);
      assert (a + b)[1..] == a[1..] + b;
      assert Tokens(a[0]) + (Print(a[1..]) + Print(b)) == Print(a) + Print(b);
    }
  }

  lemma {:induction false} ApplyConcat(go: Syntax, o: Settings, a: seq<Printed>, b: seq<Printed>)
    ensures
      var first := ApplyAll(go, o, a);
      ApplyAll(go, o, a + b) == if first.Some? then ApplyAll(go, first.value, b) else None
    decreases |a|
  {
    if a == [] {
      assert a + b == b;
    } else {
      assert (a + b)[1..] == a[1..] + b;
      var next := ApplyOne(go, o, a[0]);
      if next.Some? {
        ApplyConcat(go, next.value, a[1..], b);
      }
    }
  }
}
