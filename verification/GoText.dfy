// The parts of Go's strings and path packages the agent relies on.
module GoText {

  predicate HasPrefix(s: string, prefix: string) {
    prefix <= s
  }

  predicate HasSuffix(s: string, suffix: string) {
    |suffix| <= |s| && s[|s| - |suffix|..] == suffix
  }

  function TrimSuffix(s: string, suffix: string): string {
    if HasSuffix(s, suffix) then s[..|s| - |suffix|] else s
  }

  /** TrimSuffix takes the suffix off once if it is there. */
  lemma TrimSuffixLaw(s: string, suffix: string)
    ensures TrimSuffix(s + suffix, suffix) == s
    ensures (forall front: string :: s != front + suffix) ==> TrimSuffix(s, suffix) == s
  {
    if HasSuffix(s, suffix) {
      assert s == s[..|s| - |suffix|] + suffix;
    }
  }

  /** strings.Split(s, "/"). */
  function Split(s: string): (parts: seq<string>)
    ensures |parts| > 0
  {
    if s == "" then [""]
    else
      var rest := Split(s[1..]);
      if s[0] == '/' then [""] + rest else [[s[0]] + rest[0]] + rest[1..]
  }

  /** strings.Join(parts, "/"). */
  function Join(parts: seq<string>): string {
    if parts == [] then ""
    else if |parts| == 1 then parts[0]
    else parts[0] + "/" + Join(parts[1..])
  }

  lemma {:induction false} JoinSplit(s: string)
    ensures Join(Split(s)) == s
  {
    if s != "" {
      JoinSplit(s[1..]);
      var rest := Split(s[1..]);
      assert s == [s[0]] + s[1..];
      if s[0] == '/' {
        assert ([""] + rest)[1..] == rest;
      } else {
        assert ([[s[0]] + rest[0]] + rest[1..])[1..] == rest[1..];
      }
    }
  }

  lemma {:induction false} PartsHaveNoSlash(s: string)
    ensures forall part :: part in Split(s) ==> '/' !in part
  {
    if s != "" {
      PartsHaveNoSlash(s[1..]);
      var rest := Split(s[1..]);
      assert forall part :: part in rest[1..] ==> part in rest;
    }
  }

  lemma {:induction false} SplitConcat(a: string, b: string)
    ensures Split(a + "/" + b) == Split(a) + Split(b)
  {
    var s := a + "/" + b;
    if a == "" {
      assert s[1..] == b;
    } else {
      assert s[1..] == a[1..] + "/" + b;
      SplitConcat(a[1..], b);
    }
  }

  lemma {:induction false} JoinConcat(a: seq<string>, b: seq<string>)
    requires a != [] && b != []
    ensures Join(a + b) == Join(a) + "/" + Join(b)
  {
    if |a| == 1 {
      assert (a + b)[1..] == b;
    } else {
      assert (a + b)[1..] == a[1..] + b;
      JoinConcat(a[1..], b);
      assert a[0] + "/" + (Join(a[1..]) + "/" + Join(b)) == (a[0] + "/" + Join(a[1..])) + "/" + Join(b);
    }
  }

  /** Below a directory by its text is below it component by component. */
  lemma BelowIsPrefix(name: string, top: string)
    ensures name == top || HasPrefix(name, top + "/") <==> Split(top) <= Split(name)
  {
    hide Split, Join;
    if HasPrefix(name, top + "/") {
      assert name == top + "/" + name[|top| + 1..];
      SplitConcat(top, name[|top| + 1..]);
    }
    if Split(top) <= Split(name) {
      JoinSplit(name);
      JoinSplit(top);
      var rest := Split(name)[|Split(top)|..];
      assert Split(name) == Split(top) + rest;
      if rest == [] {
        assert Split(name) == Split(top);
      } else {
        JoinConcat(Split(top), rest);
      }
    }
  }

  /** filepath.IsAbs on Unix. */
  predicate IsAbs(path: string) {
    HasPrefix(path, "/")
  }

  /** unicode.IsSpace. */
  predicate IsSpace(c: char) {
    c in "\t\n\U{000B}\U{000C}\r \U{0085}\U{00A0}\U{1680}\U{2028}\U{2029}\U{202F}\U{205F}\U{3000}"
    || '\U{2000}' <= c <= '\U{200A}'
  }

  function TrimLeft(s: string): string {
    if s != "" && IsSpace(s[0]) then TrimLeft(s[1..]) else s
  }

  function TrimRight(s: string): string {
    if s != "" && IsSpace(s[|s| - 1]) then TrimRight(s[..|s| - 1]) else s
  }

  /** strings.TrimSpace. */
  function TrimSpace(s: string): string {
    TrimRight(TrimLeft(s))
  }

  predicate AllSpace(s: string) {
    forall c :: c in s ==> IsSpace(c)
  }

  /** TrimSpace takes off exactly the white space around a text. */
  lemma TrimSpaceLaw(s: string) returns (before: string, after: string)
    ensures s == before + TrimSpace(s) + after && AllSpace(before) && AllSpace(after)
    ensures TrimSpace(s) != "" ==> !IsSpace(TrimSpace(s)[0]) && !IsSpace(TrimSpace(s)[|TrimSpace(s)| - 1])
  {
    before := TrimLeftLaw(s);
    after := TrimRightLaw(TrimLeft(s));
    var t := TrimSpace(s);
    assert s == before + (t + after);
    if t != "" { assert TrimLeft(s)[0] == t[0]; }
  }

  lemma {:induction false} TrimLeftLaw(s: string) returns (before: string)
    ensures s == before + TrimLeft(s) && AllSpace(before)
    ensures TrimLeft(s) != "" ==> !IsSpace(TrimLeft(s)[0])
  {
    hide IsSpace;
    before := "";
    if s != "" && IsSpace(s[0]) {
      var rest := TrimLeftLaw(s[1..]);
      before := [s[0]] + rest;
    }
  }

  lemma {:induction false} TrimRightLaw(s: string) returns (after: string)
    ensures s == TrimRight(s) + after && AllSpace(after)
    ensures TrimRight(s) != "" ==> !IsSpace(TrimRight(s)[|TrimRight(s)| - 1])
  {
    hide IsSpace;
    after := "";
    if s != "" && IsSpace(s[|s| - 1]) {
      var rest := TrimRightLaw(s[..|s| - 1]);
      after := rest + [s[|s| - 1]];
    }
  }
}
