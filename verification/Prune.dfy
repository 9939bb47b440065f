// Retention: which installed versions survive a commit (internal/provision/store.go, planPrune).
module Prune {
  import opened Common
  import opened Ordering

  datatype VersionInfo = VersionInfo(sha256: string, installedAt: int)

  // The decoded state.json; the empty string stands for "no version", as in the source.
  datatype State = State(current: string, previous: string, versions: map<string, VersionInfo>)

  type Metadata = map<string, VersionInfo>

  // ---------------------------------------------------------------------
  // Declarative specification
  // ---------------------------------------------------------------------

  /** The retention order: later installation first, ties broken by the greater name. */
  predicate Newer(m: Metadata, x: string, y: string)
    requires x in m && y in m
  {
    m[x].installedAt > m[y].installedAt || (m[x].installedAt == m[y].installedAt && Less(y, x))
  }

  function Effective(keep: int): (k: int)
    ensures k >= 1
  {
    if keep < 1 then 1 else keep
  }

  function Pinned(s: State, keep: int): set<string> {
    {s.current} + (if Effective(keep) > 1 && s.previous != "" then {s.previous} else {})
  }

  function Extras(s: State, keep: int): set<string> {
    s.versions.Keys - Pinned(s, keep)
  }

  function Budget(s: State, keep: int): int {
    Effective(keep) - |Pinned(s, keep)|
  }

  /** Half of the budget, rounded up: what the loop that re-reads len(wanted) really grants. */
  function Granted(budget: int): (n: nat)
    ensures budget <= 0 ==> n == 0
    ensures budget > 0 ==> 2 * n == budget || 2 * n == budget + 1
  {
    if budget <= 0 then 0 else (budget + 1) / 2
  }

  /** The members of es that come before e in the retention order. */
  function Ahead(m: Metadata, es: set<string>, e: string): set<string>
    requires es <= m.Keys && e in m
  {
    set x | x in es && Newer(m, x, e)
  }

  /** The n best members of es. */
  function Best(m: Metadata, es: set<string>, n: int): set<string>
    requires es <= m.Keys
  {
    set e | e in es && |Ahead(m, es, e)| < n
  }

  function Survivors(s: State, keep: int): set<string> {
    s.versions.Keys * Pinned(s, keep) + Best(s.versions, Extras(s, keep), Granted(Budget(s, keep)))
  }

  function Restrict(m: Metadata, names: set<string>): Metadata {
    map v | v in m && v in names :: m[v]
  }

  function Retain(s: State, names: set<string>, keep: int): State {
    State(s.current, if Effective(keep) == 1 then "" else s.previous, Restrict(s.versions, names))
  }

  function Pruned(s: State, keep: int): State {
    Retain(s, Survivors(s, keep), keep)
  }

  /** The policy the documentation describes: fill the whole budget with the newest extras. */
  function PrunedFixedBudget(s: State, keep: int): State {
    Retain(s, s.versions.Keys * Pinned(s, keep) + Best(s.versions, Extras(s, keep), Budget(s, keep)), keep)
  }

  // ---------------------------------------------------------------------
  // Rankings
  // ---------------------------------------------------------------------

  lemma NewerIsTotal(m: Metadata, x: string, y: string)
    requires x in m && y in m
    ensures x != y ==> Newer(m, x, y) || Newer(m, y, x)
    ensures !(Newer(m, x, y) && Newer(m, y, x))
  {
    LessIsTotal(x, y);
  }

  lemma NewerIsTransitive(m: Metadata, x: string, y: string, z: string)
    requires x in m && y in m && z in m && Newer(m, x, y) && Newer(m, y, z)
    ensures Newer(m, x, z)
  {
    if m[x].installedAt == m[y].installedAt == m[z].installedAt {
      LessIsTransitive(z, y, x);
    }
  }

  predicate Ranked(m: Metadata, xs: seq<string>) {
    && (forall x :: x in xs ==> x in m)
    && (forall i, j :: 0 <= i < j < |xs| ==> Newer(m, xs[i], xs[j]))
  }

  function Insert(m: Metadata, x: string, xs: seq<string>): (r: seq<string>)
    requires x in m && x !in xs && Ranked(m, xs)
    ensures Ranked(m, r)
    ensures forall y :: y in r <==> y == x || y in xs
  {
    if xs == [] then [x]
    else if Newer(m, x, xs[0]) then
      assert forall j :: 0 <= j < |xs| ==> Newer(m, x, xs[j]) by {
        forall j | 0 < j < |xs| ensures Newer(m, x, xs[j]) { NewerIsTransitive(m, x, xs[0], xs[j]); }
      }
      [x] + xs
    else
      NewerIsTotal(m, x, xs[0]);
      var tail := Insert(m, x, xs[1..]);
      assert xs == [xs[0]] + xs[1..];
      assert forall y :: y in tail ==> Newer(m, xs[0], y);
      [xs[0]] + tail
  }

  /** sort.Slice with the source's comparison. */
  function SortNewest(m: Metadata, xs: seq<string>): (r: seq<string>)
    requires forall x :: x in xs ==> x in m
    requires forall i, j :: 0 <= i < j < |xs| ==> xs[i] != xs[j]
    ensures Ranked(m, r)
    ensures forall y :: y in r <==> y in xs
  {
    if xs == [] then []
    else
      assert xs == [xs[0]] + xs[1..];
      Insert(m, xs[0], SortNewest(m, xs[1..]))
  }

  ghost predicate IsRanking(m: Metadata, es: set<string>, xs: seq<string>) {
    es <= m.Keys && Ranked(m, xs) && forall x :: x in xs <==> x in es
  }

  lemma RankedIsListing(m: Metadata, es: set<string>, xs: seq<string>)
    requires IsRanking(m, es, xs)
    ensures Listing(xs, es) && |xs| == |es|
  {
    forall i, j | 0 <= i < j < |xs| ensures xs[i] != xs[j] { NewerIsTotal(m, xs[i], xs[j]); }
    ListingSize(xs, es);
  }

  /** In a ranking, the position of an element is the number of elements ahead of it. */
  lemma PositionIsRank(m: Metadata, es: set<string>, xs: seq<string>, j: nat)
    requires IsRanking(m, es, xs) && j < |xs|
    ensures Ahead(m, es, xs[j]) == Elements(xs[..j])
    ensures |Ahead(m, es, xs[j])| == j
  {
    RankedIsListing(m, es, xs);
    forall x | x in es ensures Newer(m, x, xs[j]) <==> x in xs[..j] {
      var i :| 0 <= i < |xs| && xs[i] == x;
      NewerIsTotal(m, xs[i], xs[j]);
    }
    assert Listing(xs[..j], Elements(xs[..j]));
    ListingSize(xs[..j], Elements(xs[..j]));
  }

  lemma BestIsPrefix(m: Metadata, es: set<string>, xs: seq<string>, n: nat)
    requires IsRanking(m, es, xs)
    ensures Best(m, es, n) == Elements(xs[..if n < |xs| then n else |xs|])
    ensures |Best(m, es, n)| == if n < |es| then n else |es|
  {
    RankedIsListing(m, es, xs);
    var k := if n < |xs| then n else |xs|;
    forall e | e in es ensures |Ahead(m, es, e)| < n <==> e in xs[..k] {
      var j :| 0 <= j < |xs| && xs[j] == e;
      PositionIsRank(m, es, xs, j);
    }
    assert Listing(xs[..k], Elements(xs[..k]));
    ListingSize(xs[..k], Elements(xs[..k]));
  }

  lemma RankingExists(m: Metadata, es: set<string>) returns (xs: seq<string>)
    requires es <= m.Keys
    ensures IsRanking(m, es, xs)
  {
    xs := [];
    var rest := es;
    while rest != {}
      invariant rest <= es && IsRanking(m, es - rest, xs)
      decreases |rest|
    {
      var e :| e in rest;
      xs := Insert(m, e, xs);
      rest := rest - {e};
    }
  }

  // ---------------------------------------------------------------------
  // The source's loops
  // ---------------------------------------------------------------------

  /** Keeping what the granting loop wanted is the declarative Pruned. */
  lemma WantedIsPruned(s: State, keep: int, wanted: set<string>, names: Metadata)
    requires wanted == Pinned(s, keep) + Best(s.versions, Extras(s, keep), Granted(Budget(s, keep)))
    requires names == Restrict(s.versions, wanted)
    ensures State(s.current, if Effective(keep) == 1 then "" else s.previous, names) == Pruned(s, keep)
    ensures s.versions.Keys - wanted == s.versions.Keys - Survivors(s, keep)
  {
  }

  /** Collects the names outside wanted in map iteration order, then sorts them. */
  method RankExtras(m: Metadata, wanted: set<string>) returns (extras: seq<string>)
    ensures IsRanking(m, m.Keys - wanted, extras)
    ensures Listing(extras, m.Keys - wanted)
  {
    extras := [];
    var todo := m.Keys;
    while todo != {}
      invariant todo <= m.Keys
      invariant Listing(extras, m.Keys - wanted - todo)
      decreases |todo|
    {
      var name :| name in todo;
      todo := todo - {name};
      if name !in wanted {
        extras := extras + [name];
      }
    }
    extras := SortNewest(m, extras);
    RankedIsListing(m, m.Keys - wanted, extras);
  }

  function Least(a: nat, b: nat): nat {
    if a < b then a else b
  }

  lemma GrantOne(xs: seq<string>, s: set<string>, pinned: set<string>, n: nat)
    requires Listing(xs, s) && s !! pinned && n < |xs|
    ensures pinned + Elements(xs[..n]) + {xs[n]} == pinned + Elements(xs[..n + 1])
    ensures xs[n] !in pinned + Elements(xs[..n])
  {
    assert xs[..n + 1] == xs[..n] + [xs[n]];
    assert xs[n] in s;
  }

  lemma GrantedAlready(granted: nat, i: nat)
    ensures Least(granted, i + 1) == if i < granted then Least(granted, i) + 1 else Least(granted, i)
    ensures i < granted ==> Least(granted, i) == i
  {
  }

  /** The loop whose bound keep-len(wanted) shrinks while wanted grows. */
  method GrantExtras(pinned: set<string>, extras: seq<string>, limit: int, ghost candidates: set<string>)
    returns (wanted: set<string>)
    requires Listing(extras, candidates) && candidates !! pinned
    ensures wanted == pinned + Elements(extras[..Least(Granted(limit - |pinned|), |extras|)])
  {
    ghost var granted := Granted(limit - |pinned|);
    assert pinned + Elements(extras[..0]) == pinned;
    hide Elements, Listing;
    wanted := pinned;
    var i := 0;
    while i < |extras|
      invariant 0 <= i <= |extras|
      invariant wanted == pinned + Elements(extras[..Least(granted, i)])
      invariant |wanted| == |pinned| + Least(granted, i)
    {
      GrantedAlready(granted, i);
      if i < limit - |wanted| {
        assert i < granted;
        GrantOne(extras, candidates, pinned, i);
        wanted := wanted + {extras[i]};
      } else {
        assert i >= granted;
      }
      i := i + 1;
    }
  }

  /** Current, previous and the extras the granting loop lets in. */
  method ChooseWanted(s: State, limit: int) returns (wanted: set<string>)
    requires limit >= 1
    ensures wanted == Pinned(s, limit) + Best(s.versions, Extras(s, limit), Granted(Budget(s, limit)))
  {
    var pinned := {s.current};
    if limit > 1 && s.previous != "" {
      pinned := pinned + {s.previous};
    }
    wanted := GrantNewest(s.versions, pinned, limit);
  }

  method GrantNewest(m: Metadata, pinned: set<string>, limit: int) returns (wanted: set<string>)
    ensures wanted == pinned + Best(m, m.Keys - pinned, Granted(limit - |pinned|))
  {
    var extras := RankExtras(m, pinned);
    wanted := GrantExtras(pinned, extras, limit, m.Keys - pinned);
    BestIsPrefix(m, m.Keys - pinned, extras, Granted(limit - |pinned|));
  }

  // The state record that commitInstall holds and planPrune edits in place.
  class StateRecord {
    var current: string
    var previous: string
    var versions: map<string, VersionInfo>

    constructor (s: State)
      ensures Value() == s
    {
      current, previous, versions := s.current, s.previous, s.versions;
    }

    function Value(): State
      reads this
    {
      State(current, previous, versions)
    }

    /** Deletes what retention gives up and returns the deleted names in some order. */
    method PlanPrune(keep: int) returns (removed: seq<string>)
      modifies this
      ensures Value() == Pruned(old(Value()), keep)
      ensures Listing(removed, old(versions).Keys - Survivors(old(Value()), keep))
    {
      ghost var s := Value();
      var limit := if keep < 1 then 1 else keep;
      var wanted := ChooseWanted(Value(), limit);
      removed := DropUnwanted(wanted);
      if limit == 1 {
        previous := "";
      }
      WantedIsPruned(s, limit, wanted, versions);
      assert Pruned(s, limit) == Pruned(s, keep);
    }

    /** Deletes every entry outside wanted, visiting the map in iteration order. */
    method DropUnwanted(wanted: set<string>) returns (removed: seq<string>)
      modifies this`versions
      ensures versions == Restrict(old(versions), wanted)
      ensures Listing(removed, old(versions).Keys - wanted)
    {
      removed := [];
      var todo := versions.Keys;
      ghost var all := versions;
      while todo != {}
        invariant todo <= all.Keys
        invariant versions == Restrict(all, todo + wanted)
        invariant Listing(removed, all.Keys - wanted - todo)
        decreases |todo|
      {
        var name :| name in todo;
        todo := todo - {name};
        if name !in wanted {
          removed := removed + [name];
          versions := versions - {name};
        }
      }
    }
  }

  // ---------------------------------------------------------------------
  // What retention guarantees
  // ---------------------------------------------------------------------

  /** Current always survives, previous too when more than one version is kept, and nothing is invented. */
  lemma PruneKeepsPinned(s: State, keep: int)
    ensures Pruned(s, keep).current == s.current
    ensures Pruned(s, keep).versions.Keys <= s.versions.Keys
    ensures forall v :: v in Pruned(s, keep).versions ==> Pruned(s, keep).versions[v] == s.versions[v]
    ensures s.current in s.versions ==> s.current in Pruned(s, keep).versions
    ensures keep > 1 && s.previous != "" && s.previous in s.versions ==> s.previous in Pruned(s, keep).versions
    ensures keep <= 1 ==> Pruned(s, keep).versions.Keys <= {s.current} && Pruned(s, keep).previous == ""
    ensures keep > 1 ==> Pruned(s, keep).previous == s.previous
  {
  }

  lemma BestBeatsRest(m: Metadata, es: set<string>, n: nat, x: string, y: string)
    requires es <= m.Keys && x in Best(m, es, n) && y in es - Best(m, es, n)
    ensures Newer(m, x, y)
  {
    var xs := RankingExists(m, es);
    var i :| 0 <= i < |xs| && xs[i] == x;
    var j :| 0 <= j < |xs| && xs[j] == y;
    PositionIsRank(m, es, xs, i);
    PositionIsRank(m, es, xs, j);
  }

  lemma BestSize(m: Metadata, es: set<string>, n: nat)
    requires es <= m.Keys
    ensures |Best(m, es, n)| == if n < |es| then n else |es|
  {
    var xs := RankingExists(m, es);
    BestIsPrefix(m, es, xs, n);
  }

  /** The extras that survive are exactly the newest ceil(budget / 2) of them. */
  lemma PruneKeepsNewestHalf(s: State, keep: int)
    ensures
      var extras := Extras(s, keep);
      var kept := Pruned(s, keep).versions.Keys * extras;
      && |kept| == (if Granted(Budget(s, keep)) < |extras| then Granted(Budget(s, keep)) else |extras|)
      && (forall x, y :: x in kept && y in extras - kept ==>
            && s.versions[x].installedAt >= s.versions[y].installedAt
            && (s.versions[x].installedAt == s.versions[y].installedAt ==> Less(y, x)))
  {
    var extras := Extras(s, keep);
    var n := Granted(Budget(s, keep));
    hide Pruned, Best, Extras, Budget, Granted, Newer, Less;
    KeptExtrasAreBest(s, keep);
    BestSize(s.versions, extras, n);
    forall x, y | x in Best(s.versions, extras, n) && y in extras - Best(s.versions, extras, n)
      ensures s.versions[x].installedAt >= s.versions[y].installedAt
      ensures s.versions[x].installedAt == s.versions[y].installedAt ==> Less(y, x)
    {
      BestBeatsRest(s.versions, extras, n, x, y);
    }
  }

  lemma KeptExtrasAreBest(s: State, keep: int)
    ensures Pruned(s, keep).versions.Keys * Extras(s, keep)
         == Best(s.versions, Extras(s, keep), Granted(Budget(s, keep)))
    ensures Extras(s, keep) <= s.versions.Keys
  {
  }

  /** Retention never leaves more versions than were asked for. */
  lemma PruneNeverExceedsKeep(s: State, keep: int)
    ensures |Pruned(s, keep).versions| <= Effective(keep)
  {
    var extras := Extras(s, keep);
    var n := Granted(Budget(s, keep));
    var pinned := s.versions.Keys * Pinned(s, keep);
    BestSize(s.versions, extras, n);
    SubsetSize(pinned, Pinned(s, keep));
    var all := Pruned(s, keep).versions;
    assert all.Keys == pinned + Best(s.versions, extras, n);
    assert |all.Keys| == |pinned| + |Best(s.versions, extras, n)|;
    assert |all| == |all.Keys|;
  }

  /** Pruning twice is pruning once: the second pass removes nothing. */
  lemma PruneIsIdempotent(s: State, keep: int)
    ensures Pruned(Pruned(s, keep), keep) == Pruned(s, keep)
    ensures Survivors(Pruned(s, keep), keep) == Pruned(s, keep).versions.Keys
  {
    var t := Pruned(s, keep);
    var n := Granted(Budget(s, keep));
    assert Pinned(t, keep) == Pinned(s, keep);
    forall e | e in Extras(t, keep) ensures |Ahead(t.versions, Extras(t, keep), e)| < n {
      SubsetSize(Ahead(t.versions, Extras(t, keep), e), Ahead(s.versions, Extras(s, keep), e));
    }
    assert Survivors(t, keep) == t.versions.Keys;
  }

  /** The loop as written agrees with the documented fixed-budget policy exactly in these cases. */
  lemma PruneMeetsFixedBudgetIff(s: State, keep: int)
    ensures Pruned(s, keep) == PrunedFixedBudget(s, keep)
            <==> Budget(s, keep) <= 1 || |Extras(s, keep)| <= Granted(Budget(s, keep))
  {
    var extras := Extras(s, keep);
    var b := Budget(s, keep);
    var n := Granted(b);
    if b > 1 {
      BestSize(s.versions, extras, n);
      BestSize(s.versions, extras, b);
      if |extras| <= n {
        SubsetSize(Best(s.versions, extras, n), extras);
        SubsetSize(Best(s.versions, extras, b), extras);
      } else {
        assert Pruned(s, keep).versions.Keys * extras == Best(s.versions, extras, n);
        assert PrunedFixedBudget(s, keep).versions.Keys * extras == Best(s.versions, extras, b);
      }
    } else {
      assert Best(s.versions, extras, n) == Best(s.versions, extras, b);
    }
  }
}
