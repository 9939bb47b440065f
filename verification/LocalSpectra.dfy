// The argument vectors the agent may execute (internal/agent/local_spectra.go).
module LocalSpectra {
  import opened Common
  import opened GoText

  // The component list of a cleaned absolute path.
  type Path = seq<string>

  predicate IsComponent(c: string) {
    c != "" && '/' !in c && c != "." && c != ".."
  }

  predicate IsClean(p: Path) {
    forall c :: c in p ==> IsComponent(c)
  }

  function Render(p: Path): string {
    "/" + Join(p)
  }

  // The local file system as path validation sees it.
  datatype Files = Files(
    evalSymlinks: string -> Option<Path>, // of an absolute path
    isDir: Path -> Option<bool>)          // os.Stat

  ghost predicate FilesOk(fs: Files) {
    forall s :: fs.evalSymlinks(s).Some? ==> IsClean(fs.evalSymlinks(s).value)
  }

  // ---------------------------------------------------------------------
  // filepath.Ext and filepath.Rel
  // ---------------------------------------------------------------------

  function Ext(path: string): string {
    if path == "" || path[|path| - 1] == '/' then ""
    else if path[|path| - 1] == '.' then "."
    else
      var e := Ext(path[..|path| - 1]);
      if e == "" then "" else e + [path[|path| - 1]]
  }

  function CommonLength(a: Path, b: Path): (n: nat)
    ensures n <= |a| && n <= |b| && a[..n] == b[..n]
    ensures n < |a| && n < |b| ==> a[n] != b[n]
  {
    if a == [] || b == [] || a[0] != b[0] then 0
    else
      var n := CommonLength(a[1..], b[1..]);
      assert a[..n + 1] == [a[0]] + a[1..][..n] && b[..n + 1] == [b[0]] + b[1..][..n];
      n + 1
  }

  function Ups(n: nat): seq<string> {
    seq(n, _ => "..")
  }

  /** filepath.Rel on cleaned absolute paths: climb out of base, then descend to target. */
  function Rel(base: Path, target: Path): string {
    var n := CommonLength(base, target);
    if n == |base| && n == |target| then "." else Join(Ups(|base| - n) + target[n..])
  }

  /** The test of validateAppPath. */
  predicate StaysInside(rel: string) {
    rel != ".." && !HasPrefix(rel, "../")
  }

  lemma JoinStart(first: string, rest: seq<string>)
    ensures Join([first] + rest) == if rest == [] then first else first + "/" + Join(rest)
  {
    assert ([first] + rest)[1..] == rest;
  }

  lemma CleanStartStaysInside(first: string, tail: string)
    requires IsComponent(first)
    ensures StaysInside(first) && StaysInside(first + "/" + tail)
  {
    var s := first + "/" + tail;
    DotDotSlash(s);
    DotDotSlash(first);
    assert s[|first|] == '/' && s[..|first|] == first;
    assert |first| == 2 ==> first == [first[0], first[1]];
    assert |first| >= 3 ==> s[2] == first[2] && first[2] in first;
  }

  lemma DotDotSlash(s: string)
    ensures HasPrefix(s, "../") <==> |s| >= 3 && s[0] == '.' && s[1] == '.' && s[2] == '/'
  {
    assert |s| >= 3 ==> s[..3] == [s[0], s[1], s[2]];
  }

  /** The Rel test accepts exactly the paths below base, component by component, whatever their names. */
  lemma RelTestIsPrefix(base: Path, target: Path)
    requires IsClean(base) && IsClean(target)
    ensures StaysInside(Rel(base, target)) <==> base <= target
  {
    var n := CommonLength(base, target);
    var parts := Ups(|base| - n) + target[n..];
    if n == |base| {
      assert base == target[..n];
      if n < |target| {
        assert parts == [target[n]] + target[n + 1..];
        JoinStart(target[n], target[n + 1..]);
        CleanStartStaysInside(target[n], Join(target[n + 1..]));
      }
    } else {
      assert parts == [".."] + parts[1..];
      JoinStart("..", parts[1..]);
      assert n < |target| ==> base[n] != target[n];
    }
  }

  /** Ext is ".app" exactly for names that end in it. */
  lemma ExtIsApp(path: string)
    ensures Ext(path) == ".app" <==> HasSuffix(path, ".app")
  {
    ExtSuffix(path, "app");
  }

  lemma {:induction false} ExtSuffix(path: string, name: string)
    requires '.' !in name && '/' !in name
    ensures Ext(path) == "." + name <==> HasSuffix(path, "." + name)
  {
    if path != "" {
      var front, last := path[..|path| - 1], path[|path| - 1];
      assert path == front + [last];
      if name == "" {
        SuffixSnoc(front, last, "", '.');
        assert "" + ['.'] == ".";
        ExtStartsWithDot(front);
      } else {
        var n, c := name[..|name| - 1], name[|name| - 1];
        ExtSuffix(front, n);
        assert "." + name == "." + n + [c];
        SuffixSnoc(front, last, "." + n, c);
        assert c in name;
        assert Ext(front) + [last] == "." + n + [c] <==> Ext(front) == "." + n && last == c by {
          SnocInjective(Ext(front), last, "." + n, c);
        }
      }
    }
  }

  lemma SnocInjective(a: string, x: char, b: string, y: char)
    ensures a + [x] == b + [y] <==> a == b && x == y
  {
    assert (a + [x])[..|a|] == a && (a + [x])[|a|] == x;
    assert (b + [y])[..|b|] == b && (b + [y])[|b|] == y;
  }

  lemma SuffixSnoc(front: string, last: char, suffix: string, c: char)
    ensures HasSuffix(front + [last], suffix + [c]) <==> last == c && HasSuffix(front, suffix)
  {
    if |suffix| <= |front| {
      var k := |front| - |suffix|;
      assert (front + [last])[k..] == front[k..] + [last];
      SnocInjective(front[k..], last, suffix, c);
    }
  }

  lemma {:induction false} ExtStartsWithDot(path: string)
    ensures Ext(path) == "" || Ext(path)[0] == '.'
  {
    if path != "" {
      ExtStartsWithDot(path[..|path| - 1]);
    }
  }

  // ---------------------------------------------------------------------
  // App path validation
  // ---------------------------------------------------------------------

  /** p lies under one of the configured roots, component by component. */
  ghost predicate UnderSomeRoot(fs: Files, roots: seq<string>, p: Path) {
    exists root :: root in roots && fs.evalSymlinks(root).Some? && fs.evalSymlinks(root).value <= p
  }

  /** What a path must be to reach the command line. */
  ghost predicate Admissible(fs: Files, roots: seq<string>, path: string, p: Path) {
    && IsAbs(path) && fs.evalSymlinks(path) == Some(p)
    && HasSuffix(Render(p), ".app")
    && fs.isDir(p) == Some(true)
    && UnderSomeRoot(fs, roots, p)
  }

  method ValidateAppPath(fs: Files, roots: seq<string>, path: string) returns (r: Option<Path>)
    requires FilesOk(fs)
    ensures r.Some? ==> Admissible(fs, roots, path, r.value)
    ensures r.None? ==> forall p :: !Admissible(fs, roots, path, p)
  {
    if !IsAbs(path) { return None; }
    var resolved := fs.evalSymlinks(path);
    if resolved.None? { return None; }
    var p := resolved.value;
    ExtIsApp(Render(p));
    if Ext(Render(p)) != ".app" { return None; }
    if fs.isDir(p) != Some(true) { return None; }
    for i := 0 to |roots|
      invariant forall j :: 0 <= j < i ==>
                  !(fs.evalSymlinks(roots[j]).Some? && fs.evalSymlinks(roots[j]).value <= p)
    {
      var allowed := fs.evalSymlinks(roots[i]);
      if allowed.Some? {
        RelTestIsPrefix(allowed.value, p);
        if StaysInside(Rel(allowed.value, p)) {
          assert roots[i] in roots;
          return Some(p);
        }
      }
    }
    r := None;
  }

  // ---------------------------------------------------------------------
  // The three commands
  // ---------------------------------------------------------------------

  const CAPABILITIES_ARGV := ["capabilities", "--json"]

  function SnapshotArgv(includeApps: bool): seq<string> {
    ["snapshot", "--json"] + if includeApps then [] else ["--no-apps"]
  }

  ghost predicate IsArgument(fs: Files, roots: seq<string>, path: string, arg: string) {
    exists p :: Admissible(fs, roots, path, p) && arg == Render(p)
  }

  /** An inspect command: --json followed by one admissible path per requested path. */
  ghost predicate IsInspectArgv(fs: Files, roots: seq<string>, paths: seq<string>, argv: seq<string>) {
    && |argv| == |paths| + 1 && argv[0] == "--json"
    && forall i :: 0 <= i < |paths| ==> IsArgument(fs, roots, paths[i], argv[i + 1])
  }

  /** Builds the inspect command, or nothing when one path is refused. */
  method InspectArgv(fs: Files, roots: seq<string>, paths: seq<string>) returns (argv: Option<seq<string>>)
    requires FilesOk(fs)
    ensures argv.Some? ==> IsInspectArgv(fs, roots, paths, argv.value)
    ensures argv == InspectCommand(fs, roots, paths)
  {
    var args := ["--json"];
    var i := 0;
    while i < |paths|
      invariant 0 <= i <= |paths|
      invariant IsInspectArgv(fs, roots, paths[..i], args)
    {
      var p := ValidateAppPath(fs, roots, paths[i]);
      if p.None? {
        assert !(fs.evalSymlinks(paths[i]).Some? && Admissible(fs, roots, paths[i], fs.evalSymlinks(paths[i]).value));
        argv := None;
        return;
      }
      args := args + [Render(p.value)];
      i := i + 1;
      assert Admissible(fs, roots, paths[i - 1], p.value) && args[i] == Render(p.value);
      assert forall j :: 0 <= j < i - 1 ==> paths[..i][j] == paths[..i - 1][j];
    }
    assert paths[..i] == paths;
    argv := Some(args);
    InspectCommandUnique(fs, roots, paths, args);
  }

  /** The command as a function of the request: the path each requested path resolves to, if all are admissible. */
  ghost function InspectCommand(fs: Files, roots: seq<string>, paths: seq<string>): Option<seq<string>> {
    if forall i :: 0 <= i < |paths| ==>
         fs.evalSymlinks(paths[i]).Some? && Admissible(fs, roots, paths[i], fs.evalSymlinks(paths[i]).value)
    then Some(["--json"] + seq(|paths|, i requires 0 <= i < |paths| && fs.evalSymlinks(paths[i]).Some? =>
                                          Render(fs.evalSymlinks(paths[i]).value)))
    else None
  }

  lemma InspectCommandUnique(fs: Files, roots: seq<string>, paths: seq<string>, argv: seq<string>)
    requires IsInspectArgv(fs, roots, paths, argv)
    ensures InspectCommand(fs, roots, paths) == Some(argv)
  {
    forall i | 0 <= i < |paths|
      ensures fs.evalSymlinks(paths[i]).Some? && Admissible(fs, roots, paths[i], fs.evalSymlinks(paths[i]).value)
      ensures argv[i + 1] == Render(fs.evalSymlinks(paths[i]).value)
    {
      var p :| Admissible(fs, roots, paths[i], p) && argv[i + 1] == Render(p);
    }
    var command := InspectCommand(fs, roots, paths);
    assert command.Some? && |command.value| == |argv|;
    assert forall i :: 0 <= i < |argv| ==> argv[i] == command.value[i];
    assert argv == command.value;
  }
}
