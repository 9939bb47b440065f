// Extraction of the one wanted binary from a release archive (internal/provision/extract.go).
module Extract {
  import opened Common
  import opened GoText

  newtype int64 = x: int | -0x8000_0000_0000_0000 <= x < 0x8000_0000_0000_0000

  const MAX_EXTRACTED_BYTES: int64 := 0x4000_0000
  const MAX_BINARY_BYTES: int64 := 0x1000_0000

  datatype Kind = Reg | RegA | Dir | OtherKind

  // A tar entry as the reader delivers it; no body when reading it to its end fails.
  datatype Entry = Entry(name: string, kind: Kind, size: int64, body: Option<Bytes>)

  // What gzip and tar make of the archive file: unreadable from the start, or entries up to a clean end
  // of archive (intact) or a read error.
  datatype Archive = Unreadable | Entries(entries: seq<Entry>, intact: bool)

  datatype ExtractError =
    | BadArchive | UnsafeName | DotDot | OutsideTop | UnsupportedKind | TooLarge | Duplicate | BinaryTooLarge | Missing

  function ValidateEntry(name: string, top: string, kind: Kind): Option<ExtractError> {
    if name == "" || IsAbs(name) || HasPrefix(name, "/") then Some(UnsafeName)
    else if ".." in Split(name) then Some(DotDot)
    else if name != top && !HasPrefix(name, top + "/") then Some(OutsideTop)
    else if kind != Reg && kind != RegA && kind != Dir then Some(UnsupportedKind)
    else None
  }

  // ---------------------------------------------------------------------
  // Declarative acceptance
  // ---------------------------------------------------------------------

  predicate EntryOk(e: Entry, top: string) {
    ValidateEntry(TrimSuffix(e.name, "/"), top, e.kind).None? && e.size >= 0 && e.body.Some?
  }

  predicate IsWanted(e: Entry, top: string) {
    TrimSuffix(e.name, "/") == top + "/bin/spectra" && e.kind != Dir
  }

  function Total(es: seq<Entry>): int {
    if es == [] then 0 else Total(es[..|es| - 1]) + es[|es| - 1].size as int
  }

  function Wanted(es: seq<Entry>, top: string): seq<Entry> {
    if es == [] then []
    else
      var last := es[|es| - 1];
      Wanted(es[..|es| - 1], top) + if IsWanted(last, top) then [last] else []
  }

  predicate Readable(archive: Archive, top: string) {
    && archive.Entries? && archive.intact
    && (forall e :: e in archive.entries ==> EntryOk(e, top))
    && Total(archive.entries) <= MAX_EXTRACTED_BYTES as int
  }

  /** Every entry is valid, the sizes sum to at most 1 GiB, and exactly one wanted entry fits the limit. */
  predicate Acceptable(archive: Archive, top: string, limit: int64) {
    && Readable(archive, top)
    && |Wanted(archive.entries, top)| == 1
    && Wanted(archive.entries, top)[0].size <= limit
  }

  lemma {:induction false} WantedComesFromEntries(es: seq<Entry>, top: string)
    ensures forall e :: e in Wanted(es, top) ==> e in es && IsWanted(e, top)
  {
    if es != [] {
      WantedComesFromEntries(es[..|es| - 1], top);
    }
  }

  lemma {:induction false} PrefixBounds(es: seq<Entry>, top: string, i: nat)
    requires i <= |es|
    requires forall e :: e in es ==> e.size >= 0
    ensures Total(es[..i]) <= Total(es) && Wanted(es[..i], top) <= Wanted(es, top)
  {
    if i < |es| {
      PrefixBounds(es[..|es| - 1], top, i);
      assert es[..|es| - 1][..i] == es[..i];
    } else {
      assert es[..i] == es;
    }
  }

  // ---------------------------------------------------------------------
  // Acceptance, path component by path component
  // ---------------------------------------------------------------------

  function Components(e: Entry): (parts: seq<string>)
    ensures |parts| > 0
  {
    Split(TrimSuffix(e.name, "/"))
  }

  /**
   * A regular file or directory whose path is neither empty nor absolute, climbs nowhere, and is the expected
   * directory or lies below it.
   */
  predicate SafeEntry(e: Entry, top: string) {
    && e.kind in {Reg, RegA, Dir}
    && Components(e)[0] != ""
    && ".." !in Components(e)
    && Split(top) <= Components(e)
  }

  /** The file bin/spectra below the expected directory. */
  predicate IsBinary(e: Entry, top: string) {
    Components(e) == Split(top) + ["bin", "spectra"] && e.kind != Dir
  }

  /** Entry i, and no other, is the binary. */
  ghost predicate SoleBinary(es: seq<Entry>, top: string, i: nat) {
    i < |es| && IsBinary(es[i], top) && forall j :: 0 <= j < |es| && j != i ==> !IsBinary(es[j], top)
  }

  /** Every entry is safe and readable, up to a clean end, and they are at most 1 GiB. */
  predicate AllSafe(archive: Archive, top: string) {
    && archive.Entries? && archive.intact
    && (forall e :: e in archive.entries ==> SafeEntry(e, top) && e.size >= 0 && e.body.Some?)
    && Total(archive.entries) <= 1024 * 1024 * 1024
  }

  /** What an archive must be for b to come out of it: all safe, and b is its only binary, within the limit. */
  ghost predicate Holds(archive: Archive, top: string, limit: int, b: Bytes) {
    AllSafe(archive, top) &&
    exists i: nat :: SoleBinary(archive.entries, top, i) && archive.entries[i].size as int <= limit
                  && archive.entries[i].body == Some(b)
  }

  lemma FirstComponentIsEmptyIff(name: string)
    ensures Split(name)[0] == "" <==> name == "" || name[0] == '/'
  {
  }

  lemma ValidIffSafe(e: Entry, top: string)
    ensures ValidateEntry(TrimSuffix(e.name, "/"), top, e.kind).None? <==> SafeEntry(e, top)
  {
    var name := TrimSuffix(e.name, "/");
    FirstComponentIsEmptyIff(name);
    assert HasPrefix(name, "/") <==> name != "" && name[0] == '/';
    hide Split;
    BelowIsPrefix(name, top);
  }

  /** Each refusal of an entry for its own cause, in the order of the checks. */
  lemma EntryRefusals(e: Entry, top: string)
    ensures
      var error, parts := ValidateEntry(TrimSuffix(e.name, "/"), top, e.kind), Components(e);
      && (error == Some(UnsafeName) <==> parts[0] == "")
      && (error == Some(DotDot) <==> parts[0] != "" && ".." in parts)
      && (error == Some(OutsideTop) <==> parts[0] != "" && ".." !in parts && !(Split(top) <= parts))
      && (error == Some(UnsupportedKind) <==>
            parts[0] != "" && ".." !in parts && Split(top) <= parts && e.kind !in {Reg, RegA, Dir})
  {
    var name := TrimSuffix(e.name, "/");
    FirstComponentIsEmptyIff(name);
    assert HasPrefix(name, "/") <==> name != "" && name[0] == '/';
    hide Split;
    BelowIsPrefix(name, top);
  }

  lemma {:induction false} NoSlashIsOnePart(s: string)
    requires '/' !in s
    ensures Split(s) == [s]
  {
    if s != "" {
      NoSlashIsOnePart(s[1..]);
      assert s == [s[0]] + s[1..];
    }
  }

  lemma TwoBelow(top: string, a: string, b: string)
    requires '/' !in a && '/' !in b
    ensures Split(top + "/" + (a + "/" + b)) == Split(top) + [a, b]
  {
    hide Split;
    NoSlashIsOnePart(a);
    NoSlashIsOnePart(b);
    SplitConcat(a, b);
    SplitConcat(top, a + "/" + b);
    assert [a] + [b] == [a, b];
  }

  lemma BinaryComponents(top: string)
    ensures Split(top + "/bin/spectra") == Split(top) + ["bin", "spectra"]
  {
    hide Split;
    TwoBelow(top, "bin", "spectra");
    assert "bin" + "/" + "spectra" == "bin/spectra";
    assert "/" + "bin/spectra" == "/bin/spectra";
    SlashFirst(top, "bin/spectra");
  }

  lemma SlashFirst(top: string, tail: string)
    ensures top + "/" + tail == top + ("/" + tail)
  {
  }

  lemma WantedIffBinary(e: Entry, top: string)
    ensures IsWanted(e, top) <==> IsBinary(e, top)
  {
    BinaryComponents(top);
    JoinSplit(TrimSuffix(e.name, "/"));
    JoinSplit(top + "/bin/spectra");
    hide Split, Join, TrimSuffix;
  }

  /** For a directory name without slashes, lying below it means having it as the first component. */
  lemma FirstComponentDecides(e: Entry, top: string)
    requires '/' !in top
    ensures Split(top) <= Components(e) <==> Components(e)[0] == top
  {
    NoSlashIsOnePart(top);
  }

  lemma {:induction false} NothingWanted(es: seq<Entry>, top: string)
    ensures Wanted(es, top) == [] <==> forall j :: 0 <= j < |es| ==> !IsBinary(es[j], top)
  {
    hide IsBinary, IsWanted;
    if es != [] {
      var front, last := es[..|es| - 1], es[|es| - 1];
      NothingWanted(front, top);
      WantedIffBinary(last, top);
      assert es == front + [last];
    }
  }

  lemma {:induction false} SoleIsWanted(es: seq<Entry>, top: string, i: nat)
    requires SoleBinary(es, top, i)
    ensures Wanted(es, top) == [es[i]]
  {
    hide IsBinary, IsWanted;
    var n := |es| - 1;
    var front := es[..n];
    WantedIffBinary(es[n], top);
    if i == n {
      NothingWanted(front, top);
    } else {
      SoleIsWanted(front, top, i);
    }
  }

  lemma {:induction false} OneWantedIsSole(es: seq<Entry>, top: string) returns (i: nat)
    requires |Wanted(es, top)| == 1
    ensures SoleBinary(es, top, i)
  {
    hide IsBinary, IsWanted;
    var n := |es| - 1;
    var front := es[..n];
    WantedIffBinary(es[n], top);
    if IsBinary(es[n], top) {
      NothingWanted(front, top);
      assert forall j :: 0 <= j < n ==> es[j] == front[j];
      i := n;
    } else {
      i := OneWantedIsSole(front, top);
      assert forall j :: 0 <= j < n ==> es[j] == front[j];
    }
  }

  lemma ReadableIffSafe(archive: Archive, top: string)
    ensures Readable(archive, top) <==> AllSafe(archive, top)
    ensures AllSafe(archive, top) ==> archive.Entries?
  {
    if archive.Entries? {
      forall e | e in archive.entries
        ensures EntryOk(e, top) <==> SafeEntry(e, top) && e.size >= 0 && e.body.Some?
      {
        ValidIffSafe(e, top);
      }
      hide EntryOk, SafeEntry, Total;
    }
  }

  /** The two descriptions of acceptance agree, and so do the binaries. */
  lemma AcceptableIffHolds(archive: Archive, top: string, limit: int64, b: Bytes)
    ensures Acceptable(archive, top, limit) && Wanted(archive.entries, top)[0].body == Some(b)
            <==> Holds(archive, top, limit as int, b)
  {
    hide Readable, AllSafe, IsBinary, Wanted;
    ReadableIffSafe(archive, top);
    if archive.Entries? {
      var es := archive.entries;
      if Acceptable(archive, top, limit) && Wanted(es, top)[0].body == Some(b) {
        var i := OneWantedIsSole(es, top);
        SoleIsWanted(es, top, i);
      }
      if Holds(archive, top, limit as int, b) {
        var i: nat :| SoleBinary(es, top, i) && es[i].size as int <= limit as int && es[i].body == Some(b);
        SoleIsWanted(es, top, i);
      }
    }
  }

  // The lexical part of path.Clean: empty and "." components vanish, ".." takes the one before it away.
  function Cleaned(parts: seq<string>): seq<string> {
    if parts == [] then []
    else
      var front, last := Cleaned(parts[..|parts| - 1]), parts[|parts| - 1];
      if last == "" || last == "." then front
      else if last == ".." && front != [] && front[|front| - 1] != ".." then front[..|front| - 1]
      else front + [last]
  }

  lemma {:induction false} CleanedGrows(a: seq<string>, b: seq<string>)
    requires ".." !in b
    ensures Cleaned(a) <= Cleaned(a + b)
  {
    if b == [] {
      assert a + b == a;
    } else {
      assert (a + b)[..|a + b| - 1] == a + b[..|b| - 1];
      CleanedGrows(a, b[..|b| - 1]);
    }
  }

  /** No entry of an accepted archive leads outside the expected directory, however its path is cleaned. */
  lemma AcceptedPathsStayBelow(archive: Archive, top: string, limit: int64, e: Entry)
    requires Acceptable(archive, top, limit) && e in archive.entries
    ensures Cleaned(Split(top)) <= Cleaned(Components(e))
    ensures e.kind in {Reg, RegA, Dir}
  {
    assert EntryOk(e, top);
    ValidIffSafe(e, top);
    var rest := Components(e)[|Split(top)|..];
    assert Components(e) == Split(top) + rest;
    CleanedGrows(Split(top), rest);
  }

  // ---------------------------------------------------------------------
  // The streaming loop
  // ---------------------------------------------------------------------

  /** The staged binary after the entries read so far. */
  predicate Consumed(es: seq<Entry>, top: string, limit: int64, total: int64, staged: Option<Bytes>) {
    && (forall e :: e in es ==> EntryOk(e, top))
    && 0 <= total <= MAX_EXTRACTED_BYTES && total as int == Total(es)
    && (match staged
        case None => Wanted(es, top) == []
        case Some(b) =>
          && |Wanted(es, top)| == 1
          && Wanted(es, top)[0].size <= limit && Wanted(es, top)[0].body == Some(b))
  }

  method ConsumeEntry(e: Entry, top: string, limit: int64, total: int64, staged: Option<Bytes>, ghost seen: seq<Entry>)
    returns (error: Option<ExtractError>, newTotal: int64, newStaged: Option<Bytes>)
    requires Consumed(seen, top, limit, total, staged)
    ensures error.None? ==> Consumed(seen + [e], top, limit, newTotal, newStaged)
    ensures error.Some? ==>
              || !EntryOk(e, top)
              || Total(seen + [e]) > MAX_EXTRACTED_BYTES as int
              || |Wanted(seen + [e], top)| > 1
              || (IsWanted(e, top) && e.size > limit && Wanted(seen + [e], top) == [e])
    ensures error.Some? ==>
              match error.value
              case TooLarge => e.size < 0 || Total(seen + [e]) > MAX_EXTRACTED_BYTES as int
              case Duplicate => IsWanted(e, top) && |Wanted(seen, top)| == 1
              case BinaryTooLarge => IsWanted(e, top) && e.size > limit && Wanted(seen, top) == []
              case BadArchive => e.body.None?
              case Missing => false
              case invalid => ValidateEntry(TrimSuffix(e.name, "/"), top, e.kind) == Some(invalid)
  {
    newTotal, newStaged := total, staged;
    assert (seen + [e])[..|seen|] == seen;
    var name := TrimSuffix(e.name, "/");
    error := ValidateEntry(name, top, e.kind);
    if error.Some? { return; }
    if e.size < 0 || e.size > MAX_EXTRACTED_BYTES - total {
      return Some(TooLarge), total, staged;
    }
    newTotal := total + e.size;
    if name == top + "/bin/spectra" && e.kind != Dir {
      if staged.Some? {
        return Some(Duplicate), newTotal, staged;
      }
      if e.size > limit {
        return Some(BinaryTooLarge), newTotal, staged;
      }
      if e.body.None? {
        return Some(BadArchive), newTotal, staged;
      }
      newStaged := e.body;
    } else if e.body.None? {
      return Some(BadArchive), newTotal, staged;
    }
  }

  /** One pass with early exits accepts exactly the acceptable archives and yields the wanted body. */
  method ExtractBinary(archive: Archive, artifactPath: string, limit: int64) returns (r: Result<Bytes, ExtractError>)
    ensures
      var top := TrimSuffix(artifactPath, ".tar.gz");
      && (r.Ok? <==> Acceptable(archive, top, limit))
      && (r.Ok? ==> Wanted(archive.entries, top)[0].body == Some(r.value))
      && (forall b :: r == Ok(b) <==> Holds(archive, top, limit as int, b))
      && (r == Err(Missing) <==> Readable(archive, top) && Wanted(archive.entries, top) == [])
  {
    if archive.Unreadable? { return Err(BadArchive); }
    var top := TrimSuffix(artifactPath, ".tar.gz");
    var es := archive.entries;
    forall b
      ensures Acceptable(archive, top, limit) && Wanted(es, top)[0].body == Some(b)
              <==> Holds(archive, top, limit as int, b)
    {
      AcceptableIffHolds(archive, top, limit, b);
    }
    hide ValidateEntry, IsWanted, Holds;
    var total: int64 := 0;
    var staged: Option<Bytes> := None;
    var i := 0;
    while i < |es|
      invariant 0 <= i <= |es|
      invariant Consumed(es[..i], top, limit, total, staged)
    {
      var error;
      assert es[..i + 1] == es[..i] + [es[i]];
      error, total, staged := ConsumeEntry(es[i], top, limit, total, staged, es[..i]);
      if error.Some? {
        NeverAcceptable(archive, top, limit, i);
        return Err(error.value);
      }
      i := i + 1;
    }
    assert es[..i] == es;
    if !archive.intact { return Err(BadArchive); }
    r := if staged.None? then Err(Missing) else Ok(staged.value);
  }

  lemma NeverAcceptable(archive: Archive, top: string, limit: int64, i: nat)
    requires archive.Entries? && i < |archive.entries|
    requires
      var seen, e := archive.entries[..i], archive.entries[i];
      || !EntryOk(e, top)
      || Total(seen + [e]) > MAX_EXTRACTED_BYTES as int
      || |Wanted(seen + [e], top)| > 1
      || (e.size > limit && Wanted(seen + [e], top) == [e])
    ensures !Acceptable(archive, top, limit)
    ensures !(Readable(archive, top) && Wanted(archive.entries, top) == [])
  {
    if Readable(archive, top) {
      assert archive.entries[..i + 1] == archive.entries[..i] + [archive.entries[i]];
      assert archive.entries[i] in archive.entries;
      PrefixBounds(archive.entries, top, i + 1);
    }
  }

  // ---------------------------------------------------------------------
  // Entry order does not matter
  // ---------------------------------------------------------------------

  lemma {:induction false} WantedCounts(es: seq<Entry>, top: string, e: Entry)
    ensures multiset(Wanted(es, top))[e] == if IsWanted(e, top) then multiset(es)[e] else 0
  {
    if es != [] {
      WantedCounts(es[..|es| - 1], top, e);
      assert es == es[..|es| - 1] + [es[|es| - 1]];
    }
  }

  lemma {:induction false} TotalConcat(es: seq<Entry>, fs: seq<Entry>)
    ensures Total(es + fs) == Total(es) + Total(fs)
  {
    if fs == [] {
      assert es + fs == es;
    } else {
      assert (es + fs)[..|es + fs| - 1] == es + fs[..|fs| - 1];
      TotalConcat(es, fs[..|fs| - 1]);
    }
  }

  lemma {:induction false} TotalPermutes(es: seq<Entry>, fs: seq<Entry>)
    requires multiset(es) == multiset(fs)
    ensures Total(es) == Total(fs)
  {
    if es == [] {
      assert |multiset(fs)| == 0;
    } else {
      var front, last := es[..|es| - 1], es[|es| - 1];
      var rest := WithoutOne(front, last, fs, es);
      TotalPermutes(front, rest);
    }
  }

  /** fs with one occurrence of the last entry of es taken out. */
  lemma WithoutOne(front: seq<Entry>, last: Entry, fs: seq<Entry>, es: seq<Entry>) returns (rest: seq<Entry>)
    requires es != [] && front == es[..|es| - 1] && last == es[|es| - 1] && multiset(es) == multiset(fs)
    ensures multiset(rest) == multiset(front) && Total(fs) == Total(rest) + last.size as int
  {
    assert es == front + [last];
    assert last in multiset(fs);
    var i :| 0 <= i < |fs| && fs[i] == last;
    var before, after := fs[..i], fs[i + 1..];
    rest := before + after;
    assert fs == before + ([last] + after);
    assert multiset(fs) == multiset(before) + multiset(after) + multiset{last};
    Cancel(multiset(front), multiset(before) + multiset(after), last);
    TotalConcat(before, after);
    TotalConcat(before, [last] + after);
    TotalConcat([last], after);
    assert [last][..0] == [];
  }

  lemma Cancel(a: multiset<Entry>, b: multiset<Entry>, x: Entry)
    requires a + multiset{x} == b + multiset{x}
    ensures a == b
  {
    forall e ensures a[e] == b[e] {
      assert (a + multiset{x})[e] == (b + multiset{x})[e];
    }
  }

  lemma WantedPermutes(es: seq<Entry>, fs: seq<Entry>, top: string)
    requires multiset(es) == multiset(fs)
    ensures |Wanted(es, top)| == |Wanted(fs, top)|
    ensures |Wanted(es, top)| == 1 ==> Wanted(es, top) == Wanted(fs, top)
  {
    var a, b := Wanted(es, top), Wanted(fs, top);
    hide Wanted, IsWanted;
    forall e ensures multiset(a)[e] == multiset(b)[e] {
      WantedCounts(es, top, e);
      WantedCounts(fs, top, e);
    }
    assert multiset(a) == multiset(b);
    assert |a| == |multiset(a)| && |b| == |multiset(b)|;
    if |a| == 1 {
      assert a[0] in multiset(b);
    }
  }

  lemma SameMembers(es: seq<Entry>, fs: seq<Entry>, e: Entry)
    requires multiset(es) == multiset(fs)
    ensures e in es <==> e in fs
  {
    assert e in es <==> e in multiset(es);
    assert e in fs <==> e in multiset(fs);
  }

  /** Permuting the entries changes neither acceptance nor the extracted binary. */
  lemma AcceptancePermutes(es: seq<Entry>, fs: seq<Entry>, top: string, limit: int64)
    requires multiset(es) == multiset(fs)
    ensures Acceptable(Entries(es, true), top, limit) <==> Acceptable(Entries(fs, true), top, limit)
    ensures Acceptable(Entries(es, true), top, limit) ==> Wanted(es, top) == Wanted(fs, top)
  {
    TotalPermutes(es, fs);
    WantedPermutes(es, fs, top);
    forall e ensures e in es <==> e in fs {
      SameMembers(es, fs, e);
    }
  }
}
