/** Planning of schema migrations against an append-only history (src/adapters/cockroach_schema.rs). */
module Migrations {
  import opened Common

  /** Identity of a migration: shipped ones carry the checksum of their SQL text. */
  datatype Migration = Migration(version: int, name: string, checksum: string)

  datatype SchemaError =
    | DuplicateVersion(version: int)
    | UnsupportedHistoricalVersion(version: int, firstSupported: int)
    | FutureVersion(version: int, latestSupported: int)
    | MigrationGap(missing: int, present: int)
    | ChecksumDrift(version: int)

  ghost predicate Increasing(s: seq<int>) {
    forall i, j :: 0 <= i < j < |s| ==> s[i] < s[j]
  }

  function Versions(ms: seq<Migration>): (r: seq<int>)
    ensures |r| == |ms| && forall i :: 0 <= i < |ms| ==> r[i] == ms[i].version
  {
    seq(|ms|, i requires 0 <= i < |ms| => ms[i].version)
  }

  // ----- the ordered map of seen versions, as its keys -----

  function Enter(s: seq<int>, v: int): (t: seq<int>)
    ensures |t| == |s| + 1
  {
    if s == [] || v < s[0] then [v] + s else [s[0]] + Enter(s[1..], v)
  }

  lemma {:induction false} EnterMembers(s: seq<int>, v: int, x: int)
    ensures x in Enter(s, v) <==> x in s || x == v
  {
    if s != [] && s[0] <= v { EnterMembers(s[1..], v, x); }
  }

  lemma {:induction false} EnterIncreasing(s: seq<int>, v: int)
    requires Increasing(s) && v !in s
    ensures Increasing(Enter(s, v))
  {
    if s != [] && s[0] <= v {
      EnterIncreasing(s[1..], v);
      var t := Enter(s[1..], v);
      forall j | 0 <= j < |t| ensures s[0] < t[j] {
        assert t[j] in t;
        EnterMembers(s[1..], v, t[j]);
      }
    }
  }

  function Seen(applied: seq<Migration>): (r: seq<int>)
    ensures |r| == |applied|
  {
    if applied == [] then [] else Enter(Seen(applied[..|applied| - 1]), applied[|applied| - 1].version)
  }

  lemma {:induction false} SeenMembers(applied: seq<Migration>, v: int)
    ensures v in Seen(applied) <==> v in Versions(applied)
  {
    if applied != [] {
      var init := applied[..|applied| - 1];
      SeenMembers(init, v);
      EnterMembers(Seen(init), applied[|applied| - 1].version, v);
      assert Versions(applied) == Versions(init) + [applied[|applied| - 1].version];
    }
  }

  lemma {:induction false} SeenIncreasing(applied: seq<Migration>)
    requires NoDuplicates(Versions(applied))
    ensures Increasing(Seen(applied))
  {
    if applied != [] {
      var init, last := applied[..|applied| - 1], applied[|applied| - 1];
      assert Versions(applied) == Versions(init) + [last.version];
      SeenIncreasing(init);
      SeenMembers(init, last.version);
      EnterIncreasing(Seen(init), last.version);
    }
  }

  // ----- histories -----

  ghost predicate NoDuplicates<T>(s: seq<T>) {
    forall i, j :: 0 <= i < j < |s| ==> s[i] != s[j]
  }

  /** The history is, in some order, exactly a prefix of what the binary ships. */
  ghost predicate Prefix(migrations: seq<Migration>, applied: seq<Migration>) {
    |applied| <= |migrations| && multiset(applied) == multiset(migrations[..|applied|])
  }

  lemma {:induction false} CountOnce<T>(s: seq<T>, x: T)
    requires NoDuplicates(s)
    ensures multiset(s)[x] == if x in s then 1 else 0
  {
    if s != [] {
      var init := s[..|s| - 1];
      CountOnce(init, x);
      assert s == init + [s[|s| - 1]];
    }
  }

  lemma {:induction false} CountTwice<T>(s: seq<T>, i: nat, j: nat)
    requires i < j < |s| && s[i] == s[j]
    ensures multiset(s)[s[i]] >= 2
  {
    var a, b := s[..j], s[j..];
    assert s == a + b && s[i] in a && s[i] in b by { assert a[i] == s[i] && b[0] == s[j]; }
    assert multiset(s) == multiset(a) + multiset(b);
  }

  lemma SameMultiset<T>(s: seq<T>, t: seq<T>)
    requires NoDuplicates(s) && NoDuplicates(t) && forall x :: x in s <==> x in t
    ensures multiset(s) == multiset(t)
  {
    forall x | x in multiset(s) + multiset(t) ensures multiset(s)[x] == multiset(t)[x] {
      CountOnce(s, x);
      CountOnce(t, x);
    }
    assert forall x :: x !in multiset(s) + multiset(t) ==> multiset(s)[x] == 0 == multiset(t)[x];
  }

  /** Strictly increasing lists with the same elements are the same list. */
  lemma {:induction false} SameIncreasing(s: seq<int>, t: seq<int>)
    requires Increasing(s) && Increasing(t) && forall x :: x in s <==> x in t
    ensures s == t
    decreases |s|
  {
    assert |s| > 0 ==> s[0] in s;
    assert |t| > 0 ==> t[0] in t;
    if s != [] {
      assert s[0] in t && t[0] in s;
      assert s[0] == t[0];
      forall x ensures x in s[1..] <==> x in t[1..] {
        assert x in s <==> x == s[0] || x in s[1..];
        assert x in t <==> x == t[0] || x in t[1..];
        assert s[0] !in s[1..] && t[0] !in t[1..];
      }
      SameIncreasing(s[1..], t[1..]);
      assert s == [s[0]] + s[1..] && t == [t[0]] + t[1..];
    }
  }

  lemma VersionIndex(ms: seq<Migration>, v: int) returns (i: nat)
    requires v in Versions(ms)
    ensures i < |ms| && ms[i].version == v
  {
    var j :| 0 <= j < |Versions(ms)| && Versions(ms)[j] == v;
    i := j;
  }

  lemma SameVersion(migrations: seq<Migration>, i: nat, j: nat)
    requires Increasing(Versions(migrations)) && i < |migrations| && j < |migrations|
    requires migrations[i].version == migrations[j].version
    ensures i == j
  {
    assert Versions(migrations)[i] == Versions(migrations)[j];
  }

  lemma PrefixDistinct(migrations: seq<Migration>, n: nat)
    requires Increasing(Versions(migrations)) && n <= |migrations|
    ensures NoDuplicates(migrations[..n])
  {
    forall i, j | 0 <= i < j < n ensures migrations[i] != migrations[j] {
      assert Versions(migrations)[i] < Versions(migrations)[j];
    }
  }

  lemma PrefixMembers(migrations: seq<Migration>, applied: seq<Migration>)
    requires Increasing(Versions(migrations)) && Prefix(migrations, applied)
    ensures forall m :: m in applied <==> m in migrations[..|applied|]
    ensures NoDuplicates(Versions(applied))
  {
    var p := migrations[..|applied|];
    forall m ensures m in applied <==> m in p { assert m in applied <==> m in multiset(applied); }
    forall i, j | 0 <= i < j < |applied| ensures applied[i].version != applied[j].version {
      VersionsDiffer(migrations, applied, i, j);
    }
  }

  lemma VersionsDiffer(migrations: seq<Migration>, applied: seq<Migration>, i: nat, j: nat)
    requires Increasing(Versions(migrations)) && Prefix(migrations, applied) && i < j < |applied|
    ensures applied[i].version != applied[j].version
  {
    var p := migrations[..|applied|];
    assert applied[i] in multiset(p) && applied[j] in multiset(p);
    var a :| 0 <= a < |p| && p[a] == applied[i];
    var b :| 0 <= b < |p| && p[b] == applied[j];
    if applied[i].version == applied[j].version {
      SameVersion(migrations, a, b);
      CountTwice(applied, i, j);
      PrefixDistinct(migrations, |applied|);
      CountOnce(p, applied[i]);
    }
  }

  /** In a prefix history the seen versions are the first shipped ones, in order. */
  lemma PrefixSeen(migrations: seq<Migration>, applied: seq<Migration>)
    requires Increasing(Versions(migrations)) && Prefix(migrations, applied)
    ensures Seen(applied) == Versions(migrations)[..|applied|]
  {
    PrefixMembers(migrations, applied);
    SeenIncreasing(applied);
    var (p, vs) := (migrations[..|applied|], Versions(migrations)[..|applied|]);
    forall v ensures v in Seen(applied) <==> v in vs {
      SeenMembers(applied, v);
      if v in Versions(applied) {
        var i :| 0 <= i < |applied| && applied[i].version == v;
        assert applied[i] in p;
        var j :| 0 <= j < |p| && p[j] == applied[i];
        assert vs[j] == v;
      }
      if v in vs {
        var j :| 0 <= j < |vs| && vs[j] == v;
        assert p[j] in applied;
        var i :| 0 <= i < |applied| && applied[i] == p[j];
        assert Versions(applied)[i] == v;
      }
    }
    SameIncreasing(Seen(applied), vs);
  }

  lemma DistinctByVersion(applied: seq<Migration>)
    requires NoDuplicates(Versions(applied))
    ensures NoDuplicates(applied)
  {
    forall i, j | 0 <= i < j < |applied| ensures applied[i] != applied[j] { assert Versions(applied)[i] != Versions(applied)[j]; }
  }

  /** Conversely, known migrations whose versions are the first shipped ones form a prefix. */
  lemma SeenPrefix(migrations: seq<Migration>, applied: seq<Migration>)
    requires Increasing(Versions(migrations)) && NoDuplicates(Versions(applied))
    requires forall m :: m in applied ==> m in migrations
    requires |applied| <= |migrations| && Seen(applied) == Versions(migrations)[..|applied|]
    ensures Prefix(migrations, applied)
  {
    DistinctByVersion(applied);
    PrefixDistinct(migrations, |applied|);
    KnownAreFirst(migrations, applied);
    SameMultiset(applied, migrations[..|applied|]);
  }

  lemma KnownAreFirst(migrations: seq<Migration>, applied: seq<Migration>)
    requires Increasing(Versions(migrations)) && forall n :: n in applied ==> n in migrations
    requires |applied| <= |migrations| && Seen(applied) == Versions(migrations)[..|applied|]
    ensures forall m :: m in applied <==> m in migrations[..|applied|]
  {
    forall m ensures m in applied <==> m in migrations[..|applied|] { KnownIffFirst(migrations, applied, m); }
  }

  lemma KnownIffFirst(migrations: seq<Migration>, applied: seq<Migration>, m: Migration)
    requires Increasing(Versions(migrations)) && forall n :: n in applied ==> n in migrations
    requires |applied| <= |migrations| && Seen(applied) == Versions(migrations)[..|applied|]
    ensures m in applied <==> m in migrations[..|applied|]
  {
    if m in applied { KnownIsFirst(migrations, applied, m); }
    if m in migrations[..|applied|] { FirstIsKnown(migrations, applied, m); }
  }

  lemma KnownIsFirst(migrations: seq<Migration>, applied: seq<Migration>, m: Migration)
    requires Increasing(Versions(migrations)) && m in applied && m in migrations
    requires |applied| <= |migrations| && Seen(applied) == Versions(migrations)[..|applied|]
    ensures m in migrations[..|applied|]
  {
    var p := migrations[..|applied|];
    var i :| 0 <= i < |applied| && applied[i] == m;
    assert Versions(applied)[i] == m.version;
    SeenMembers(applied, m.version);
    assert Versions(p) == Seen(applied);
    var k := VersionIndex(p, m.version);
    var j :| 0 <= j < |migrations| && migrations[j] == m;
    SameVersion(migrations, k, j);
  }

  lemma FirstIsKnown(migrations: seq<Migration>, applied: seq<Migration>, m: Migration)
    requires Increasing(Versions(migrations)) && forall n :: n in applied ==> n in migrations
    requires |applied| <= |migrations| && Seen(applied) == Versions(migrations)[..|applied|] && m in migrations[..|applied|]
    ensures m in applied
  {
    var p := migrations[..|applied|];
    var k :| 0 <= k < |p| && p[k] == m;
    assert Versions(p) == Seen(applied) && Versions(p)[k] == m.version;
    SeenMembers(applied, m.version);
    var i := VersionIndex(applied, m.version);
    assert applied[i] in migrations;
    var j :| 0 <= j < |migrations| && migrations[j] == applied[i];
    SameVersion(migrations, k, j);
  }

  // ----- the planner -----

  function Find(migrations: seq<Migration>, version: int): (r: Option<Migration>)
    ensures r.Some? ==> r.value in migrations && r.value.version == version
    ensures r.None? ==> forall m :: m in migrations ==> m.version != version
  {
    if migrations == [] then None
    else if migrations[0].version == version then Some(migrations[0])
    else Find(migrations[1..], version)
  }

  function FirstAbove(migrations: seq<Migration>, version: int): int {
    if migrations == [] then version
    else if migrations[0].version > version then migrations[0].version
    else FirstAbove(migrations[1..], version)
  }

  /** What an error says about the history is so. */
  ghost predicate Justified(migrations: seq<Migration>, applied: seq<Migration>, e: SchemaError)
    requires migrations != []
  {
    match e
    case DuplicateVersion(v) => exists i, j :: 0 <= i < j < |applied| && applied[i].version == applied[j].version == v
    case UnsupportedHistoricalVersion(v, first) => v in Versions(applied) && v < first == migrations[0].version
    case FutureVersion(v, latest) => v in Versions(applied) && v > latest == migrations[|migrations| - 1].version
    case ChecksumDrift(v) => exists m, n :: m in applied && n in migrations && m.version == n.version == v && m != n
    case MigrationGap(missing, present) =>
      && present in Versions(applied) && missing in Versions(migrations)
      && if present in Versions(migrations) then missing < present && missing !in Versions(applied) else present < missing
  }

  lemma {:induction false} FirstAboveShipped(migrations: seq<Migration>, version: int)
    requires migrations != [] && version < migrations[|migrations| - 1].version
    ensures FirstAbove(migrations, version) in Versions(migrations) && FirstAbove(migrations, version) > version
  {
    if migrations[0].version > version {
      assert Versions(migrations)[0] == migrations[0].version;
    } else {
      FirstAboveShipped(migrations[1..], version);
      assert Versions(migrations)[1..] == Versions(migrations[1..]);
    }
  }

  /** Distinct known versions are never more than the shipped ones, and never run ahead of them. */
  lemma {:induction false} SeenWithin(vs: seq<int>, seen: seq<int>)
    requires Increasing(vs) && Increasing(seen) && forall v :: v in seen ==> v in vs
    ensures |seen| <= |vs|
    ensures forall i :: 0 <= i < |seen| ==> vs[i] <= seen[i]
    decreases |vs|
  {
    if seen != [] {
      assert seen[0] in seen;
      assert vs[0] <= seen[0];
      var rest := seen[1..];
      forall v | v in rest ensures v in vs[1..] {
        assert v in seen && v > seen[0];
        assert v in vs ==> v == vs[0] || v in vs[1..];
      }
      SeenWithin(vs[1..], rest);
      forall i | 1 <= i < |seen| ensures vs[i] <= seen[i] { assert vs[1..][i - 1] <= rest[i - 1]; }
    }
  }

  /** The shipped migrations whose version is not among the seen ones. */
  function Unseen(migrations: seq<Migration>, seen: seq<int>): seq<Migration> {
    if migrations == [] then []
    else (if migrations[0].version in seen then [] else [migrations[0]]) + Unseen(migrations[1..], seen)
  }

  lemma {:induction false} UnseenIsRest(migrations: seq<Migration>, seen: seq<int>, n: nat)
    requires n <= |migrations|
    requires forall i :: 0 <= i < |migrations| ==> (migrations[i].version in seen <==> i < n)
    ensures Unseen(migrations, seen) == migrations[n..]
  {
    if migrations != [] {
      UnseenIsRest(migrations[1..], seen, if n == 0 then 0 else n - 1);
    }
  }

  lemma SeenIffFirst(migrations: seq<Migration>, n: nat, i: nat)
    requires Increasing(Versions(migrations)) && n <= |migrations| && i < |migrations|
    ensures migrations[i].version in Versions(migrations)[..n] <==> i < n
  {
    var vs := Versions(migrations);
    if i < n { assert vs[..n][i] == migrations[i].version; }
    if vs[i] in vs[..n] {
      var j :| 0 <= j < n && vs[..n][j] == vs[i];
      assert vs[j] == vs[i];
    }
  }

  // Why each refusal is right.

  lemma RepeatRefused(migrations: seq<Migration>, applied: seq<Migration>, i: nat)
    requires Increasing(Versions(migrations)) && i < |applied| && applied[i].version in Seen(applied[..i])
    ensures !Prefix(migrations, applied)
    ensures exists j :: 0 <= j < i && applied[j].version == applied[i].version
  {
    SeenMembers(applied[..i], applied[i].version);
    var j := VersionIndex(applied[..i], applied[i].version);
    assert applied[j].version == applied[i].version;
    if Prefix(migrations, applied) { VersionsDiffer(migrations, applied, j, i); }
  }

  lemma StrangerRefused(migrations: seq<Migration>, applied: seq<Migration>, i: nat)
    requires Increasing(Versions(migrations)) && i < |applied| && applied[i] !in migrations
    ensures !Prefix(migrations, applied) && applied[i].version in Versions(applied)
  {
    assert Versions(applied)[i] == applied[i].version && applied[i] in applied;
    if Prefix(migrations, applied) { PrefixMembers(migrations, applied); }
  }

  lemma ShippedWithin(migrations: seq<Migration>, m: Migration)
    requires migrations != [] && Increasing(Versions(migrations))
    ensures m in migrations ==> migrations[0].version <= m.version <= migrations[|migrations| - 1].version
  {
    if m in migrations {
      var j :| 0 <= j < |migrations| && migrations[j] == m;
      assert Versions(migrations)[0] <= Versions(migrations)[j] <= Versions(migrations)[|migrations| - 1];
    }
  }

  lemma OneShippedPerVersion(migrations: seq<Migration>, m: Migration, n: Migration)
    requires Increasing(Versions(migrations)) && n in migrations && n.version == m.version
    ensures m in migrations ==> m == n
  {
    var i :| 0 <= i < |migrations| && migrations[i] == n;
    if m in migrations {
      var j :| 0 <= j < |migrations| && migrations[j] == m;
      SameVersion(migrations, i, j);
    }
  }

  lemma SeenIsShipped(migrations: seq<Migration>, applied: seq<Migration>, v: int)
    requires (forall m :: m in applied ==> m in migrations) && v in Seen(applied)
    ensures v in Versions(migrations) && v in Versions(applied)
  {
    SeenMembers(applied, v);
    var i := VersionIndex(applied, v);
    assert applied[i] in migrations;
    var j :| 0 <= j < |migrations| && migrations[j] == applied[i];
    assert Versions(migrations)[j] == v;
  }

  lemma AllSeenShipped(migrations: seq<Migration>, applied: seq<Migration>)
    requires forall m :: m in applied ==> m in migrations
    ensures forall v :: v in Seen(applied) ==> v in Versions(migrations) && v in Versions(applied)
  {
    forall v | v in Seen(applied) ensures v in Versions(migrations) && v in Versions(applied) { SeenIsShipped(migrations, applied, v); }
  }

  /** Which error a version that is not simply the shipped one gets. */
  function Objection(migrations: seq<Migration>, m: Migration, shipped: Option<Migration>): SchemaError
    requires migrations != []
  {
    var first, latest := migrations[0].version, migrations[|migrations| - 1].version;
    if m.version < first then UnsupportedHistoricalVersion(m.version, first)
    else if m.version > latest then FutureVersion(m.version, latest)
    else if shipped.None? then MigrationGap(FirstAbove(migrations, m.version), m.version)
    else ChecksumDrift(m.version)
  }

  // ----- the planner as a function of the history -----

  /** Whether reading one more entry ends in an error, after the ones seen so far were accepted. */
  function Refusal(migrations: seq<Migration>, seen: seq<int>, m: Migration): Option<SchemaError>
    requires migrations != []
  {
    var shipped := Find(migrations, m.version);
    if m.version in seen then Some(DuplicateVersion(m.version))
    else if m.version < migrations[0].version || m.version > migrations[|migrations| - 1].version || shipped != Some(m) then
      Some(Objection(migrations, m, shipped))
    else None
  }

  /** The first error met when the history is read in order. */
  function Scan(migrations: seq<Migration>, applied: seq<Migration>): Option<SchemaError>
    requires migrations != []
  {
    if applied == [] then None
    else
      var init := applied[..|applied| - 1];
      var earlier := Scan(migrations, init);
      if earlier.Some? then earlier else Refusal(migrations, Seen(init), applied[|applied| - 1])
  }

  /** The first place from `i` on where the seen versions leave the shipped order. */
  function GapFrom(migrations: seq<Migration>, seen: seq<int>, i: nat): Option<SchemaError>
    decreases |seen| - i
  {
    if i >= |seen| || i >= |migrations| then None
    else if seen[i] != migrations[i].version then Some(MigrationGap(migrations[i].version, seen[i]))
    else GapFrom(migrations, seen, i + 1)
  }

  function Plan(migrations: seq<Migration>, applied: seq<Migration>): Result<seq<Migration>, SchemaError>
    requires migrations != []
  {
    match Scan(migrations, applied)
    case Some(e) => Err(e)
    case None =>
      match GapFrom(migrations, Seen(applied), 0)
      case Some(e) => Err(e)
      case None => Ok(Unseen(migrations, Seen(applied)))
  }

  lemma {:induction false} ScanStops(migrations: seq<Migration>, applied: seq<Migration>, n: nat)
    requires migrations != [] && n <= |applied| && Scan(migrations, applied[..n]).Some?
    ensures Scan(migrations, applied) == Scan(migrations, applied[..n])
  {
    if n == |applied| {
      assert applied[..n] == applied;
    } else {
      var init := applied[..|applied| - 1];
      assert init[..n] == applied[..n];
      ScanStops(migrations, init, n);
    }
  }

  /** Where the first error of a history is met. */
  lemma {:induction false} ScanIndex(migrations: seq<Migration>, applied: seq<Migration>) returns (i: nat)
    requires migrations != [] && Scan(migrations, applied).Some?
    ensures i < |applied| && Scan(migrations, applied) == Refusal(migrations, Seen(applied[..i]), applied[i])
  {
    var init := applied[..|applied| - 1];
    if Scan(migrations, init).Some? {
      i := ScanIndex(migrations, init);
      assert init[..i] == applied[..i];
    } else {
      i := |applied| - 1;
    }
  }

  lemma ScanRefuses(migrations: seq<Migration>, applied: seq<Migration>)
    requires migrations != [] && Increasing(Versions(migrations)) && Scan(migrations, applied).Some?
    ensures !Prefix(migrations, applied) && Justified(migrations, applied, Scan(migrations, applied).value)
  {
    var i := ScanIndex(migrations, applied);
    if applied[i].version in Seen(applied[..i]) {
      RepeatRefused(migrations, applied, i);
    } else {
      ObjectionIsRight(migrations, applied, i, Find(migrations, applied[i].version));
    }
  }

  lemma {:induction false} ScanAccepts(migrations: seq<Migration>, applied: seq<Migration>)
    requires migrations != [] && Scan(migrations, applied).None?
    ensures forall m :: m in applied ==> m in migrations
    ensures NoDuplicates(Versions(applied))
  {
    if applied != [] {
      var n := |applied| - 1;
      assert applied[..n + 1] == applied;
      ScanAccepts(migrations, applied[..n]);
      AcceptOne(applied, n);
    }
  }

  /** An accepted history is no longer than what is shipped and nowhere ahead of it. */
  lemma ScanBounds(migrations: seq<Migration>, applied: seq<Migration>)
    requires migrations != [] && Increasing(Versions(migrations)) && Scan(migrations, applied).None?
    ensures |applied| <= |migrations| && Increasing(Seen(applied))
    ensures forall i :: 0 <= i < |applied| ==> migrations[i].version <= Seen(applied)[i]
    ensures forall v :: v in Seen(applied) ==> v in Versions(applied)
  {
    ScanAccepts(migrations, applied);
    SeenIncreasing(applied);
    AllSeenShipped(migrations, applied);
    SeenWithin(Versions(migrations), Seen(applied));
  }

  lemma {:induction false} GapIndex(migrations: seq<Migration>, seen: seq<int>, i: nat) returns (k: nat)
    requires i <= |seen| <= |migrations| && forall j :: 0 <= j < i ==> seen[j] == migrations[j].version
    ensures k <= |seen| && forall j :: 0 <= j < k ==> seen[j] == migrations[j].version
    ensures GapFrom(migrations, seen, i) ==
            if k < |seen| then Some(MigrationGap(migrations[k].version, seen[k])) else None
    ensures k < |seen| ==> seen[k] != migrations[k].version
    decreases |seen| - i
  {
    if i < |seen| && seen[i] == migrations[i].version {
      k := GapIndex(migrations, seen, i + 1);
    } else {
      k := i;
    }
  }

  /** The version reported missing at the first gap is below the one present and not in the history. */
  lemma GapIsAbsent(vs: seq<int>, seen: seq<int>, k: nat)
    requires Increasing(vs) && Increasing(seen) && k < |seen| <= |vs| && vs[k] < seen[k]
    requires forall j :: 0 <= j < k ==> seen[j] == vs[j]
    ensures vs[k] !in seen
  {
    assert forall j :: 0 <= j < |seen| ==> (j < k ==> vs[j] < vs[k]) && (k < j ==> seen[k] < seen[j]);
  }

  lemma GapFacts(migrations: seq<Migration>, applied: seq<Migration>) returns (k: nat)
    requires migrations != [] && Increasing(Versions(migrations)) && Scan(migrations, applied).None?
    requires GapFrom(migrations, Seen(applied), 0).Some?
    ensures k < |applied| <= |migrations| && migrations[k].version < Seen(applied)[k]
    ensures GapFrom(migrations, Seen(applied), 0) == Some(MigrationGap(migrations[k].version, Seen(applied)[k]))
    ensures migrations[k].version !in Seen(applied) && Seen(applied)[k] in Versions(applied)
  {
    ScanBounds(migrations, applied);
    k := GapIndex(migrations, Seen(applied), 0);
    assert Seen(applied)[k] in Seen(applied);
    GapIsAbsent(Versions(migrations), Seen(applied), k);
  }

  lemma GapRefuses(migrations: seq<Migration>, applied: seq<Migration>)
    requires migrations != [] && Increasing(Versions(migrations)) && Scan(migrations, applied).None?
    requires GapFrom(migrations, Seen(applied), 0).Some?
    ensures !Prefix(migrations, applied) && Justified(migrations, applied, GapFrom(migrations, Seen(applied), 0).value)
  {
    var k := GapFacts(migrations, applied);
    SeenMembers(applied, migrations[k].version);
    ScanAccepts(migrations, applied);
    SeenMembers(applied, Seen(applied)[k]);
    SeenIsShipped(migrations, applied, Seen(applied)[k]);
    assert Versions(migrations)[k] == migrations[k].version;
    if Prefix(migrations, applied) { PrefixSeen(migrations, applied); }
  }

  lemma NoGapIsPrefix(migrations: seq<Migration>, applied: seq<Migration>)
    requires migrations != [] && Increasing(Versions(migrations)) && Scan(migrations, applied).None?
    requires GapFrom(migrations, Seen(applied), 0).None?
    ensures Prefix(migrations, applied) && Unseen(migrations, Seen(applied)) == migrations[|applied|..]
  {
    var seen := Seen(applied);
    ScanBounds(migrations, applied);
    ScanAccepts(migrations, applied);
    var k := GapIndex(migrations, seen, 0);
    assert seen == Versions(migrations)[..|applied|];
    SeenPrefix(migrations, applied);
    forall j: nat | j < |migrations| ensures migrations[j].version in seen <==> j < |applied| { SeenIffFirst(migrations, |applied|, j); }
    UnseenIsRest(migrations, seen, |applied|);
  }

  /**
   Planning succeeds exactly when the history is, in some order, a duplicate-free prefix of the shipped
   migrations with matching identities, and then returns the rest in order. What an error says of the history is so.
   */
  lemma PlanIsRight(migrations: seq<Migration>, applied: seq<Migration>)
    requires migrations != [] && Increasing(Versions(migrations))
    ensures Plan(migrations, applied).Ok? <==> Prefix(migrations, applied)
    ensures Prefix(migrations, applied) ==> Plan(migrations, applied) == Ok(migrations[|applied|..])
    ensures Plan(migrations, applied).Err? ==> Justified(migrations, applied, Plan(migrations, applied).error)
  {
    if Scan(migrations, applied).Some? {
      ScanRefuses(migrations, applied);
    } else if GapFrom(migrations, Seen(applied), 0).Some? {
      GapRefuses(migrations, applied);
    } else {
      NoGapIsPrefix(migrations, applied);
    }
  }

  /** The loop over the history: the versions seen, or the first error. */
  method ReadHistory(migrations: seq<Migration>, applied: seq<Migration>) returns (seen: seq<int>, refused: Option<SchemaError>)
    requires migrations != []
    ensures refused == Scan(migrations, applied)
    ensures refused.None? ==> seen == Seen(applied)
  {
    seen := [];
    var i := 0;
    while i < |applied|
      invariant 0 <= i <= |applied| && seen == Seen(applied[..i]) && Scan(migrations, applied[..i]).None?
    {
      var m := applied[i];
      assert applied[..i + 1][..i] == applied[..i];
      if m.version in seen {
        ScanStops(migrations, applied, i + 1);
        return seen, Some(DuplicateVersion(m.version));
      }
      var shipped := Find(migrations, m.version);
      if m.version < migrations[0].version || m.version > migrations[|migrations| - 1].version || shipped != Some(m) {
        ScanStops(migrations, applied, i + 1);
        return seen, Some(Objection(migrations, m, shipped));
      }
      seen := Enter(seen, m.version);
      i := i + 1;
    }
    assert applied[..i] == applied;
    refused := None;
  }

  method PlanMigrations(migrations: seq<Migration>, applied: seq<Migration>) returns (r: Result<seq<Migration>, SchemaError>)
    requires migrations != [] && Increasing(Versions(migrations))
    ensures r.Ok? <==> Prefix(migrations, applied)
    ensures r.Ok? ==> r.value == migrations[|applied|..]
    ensures r.Err? ==> Justified(migrations, applied, r.error)
    ensures r == Plan(migrations, applied)
  {
    PlanIsRight(migrations, applied);
    var seen, refused := ReadHistory(migrations, applied);
    if refused.Some? {
      return Err(refused.value);
    }
    ScanBounds(migrations, applied);
    var i := 0;
    while i < |seen|
      invariant 0 <= i <= |seen| && GapFrom(migrations, seen, 0) == GapFrom(migrations, seen, i)
    {
      if seen[i] != migrations[i].version {
        return Err(MigrationGap(migrations[i].version, seen[i]));
      }
      i := i + 1;
    }
    r := Ok(Unseen(migrations, seen));
  }

  // ----- what a gap error means -----

  /** A reported gap is one: the missing version comes before the present one and is not in the history. */
  ghost predicate GapIsTrue(migrations: seq<Migration>, applied: seq<Migration>)
    requires migrations != []
  {
    var r := Plan(migrations, applied);
    r.Err? && r.error.MigrationGap? ==> r.error.missing < r.error.present && r.error.missing !in Versions(applied)
  }

  /** Every history version strictly between the first and the latest shipped one is shipped. */
  ghost predicate NoStrangersInside(migrations: seq<Migration>, applied: seq<Migration>)
    requires migrations != []
  {
    forall m :: m in applied && migrations[0].version < m.version < migrations[|migrations| - 1].version ==>
      m.version in Versions(migrations)
  }

  /** With such a version in front the reported gap is the wrong way round. */
  lemma StrangerFirst(migrations: seq<Migration>, applied: seq<Migration>)
    requires migrations != [] && applied != [] && applied[0].version !in Versions(migrations)
    requires migrations[0].version < applied[0].version < migrations[|migrations| - 1].version
    ensures !GapIsTrue(migrations, applied)
  {
    var m := applied[0];
    var one := applied[..1];
    assert one[..0] == [] && one[0] == m;
    FoundIsShipped(migrations, m.version);
    assert Scan(migrations, one) == Some(MigrationGap(FirstAbove(migrations, m.version), m.version));
    ScanStops(migrations, applied, 1);
    FirstAboveShipped(migrations, m.version);
  }

  lemma FoundIsShipped(migrations: seq<Migration>, v: int)
    ensures Find(migrations, v).Some? ==> v in Versions(migrations)
  {
    if Find(migrations, v).Some? {
      var i :| 0 <= i < |migrations| && migrations[i] == Find(migrations, v).value;
      assert Versions(migrations)[i] == v;
    }
  }

  /** Without one every gap error is true. */
  lemma GapTrueWithoutStrangers(migrations: seq<Migration>, applied: seq<Migration>)
    requires migrations != [] && Increasing(Versions(migrations)) && NoStrangersInside(migrations, applied)
    ensures GapIsTrue(migrations, applied)
  {
    PlanIsRight(migrations, applied);
    var r := Plan(migrations, applied);
    if r.Err? && r.error.MigrationGap? {
      var present := r.error.present;
      var i := VersionIndex(applied, present);
      assert applied[i] in applied;
      GapWithinShipped(migrations, applied, present);
    }
  }

  /** The version a gap error finds present lies between the shipped ones. */
  lemma GapWithinShipped(migrations: seq<Migration>, applied: seq<Migration>, present: int)
    requires migrations != [] && Increasing(Versions(migrations))
    requires Plan(migrations, applied).Err? && Plan(migrations, applied).error.MigrationGap?
    requires Plan(migrations, applied).error.present == present
    ensures migrations[0].version <= present <= migrations[|migrations| - 1].version
  {
    if Scan(migrations, applied).Some? {
      var i := ScanIndex(migrations, applied);
    } else {
      ScanAccepts(migrations, applied);
      ScanBounds(migrations, applied);
      var k := GapIndex(migrations, Seen(applied), 0);
      assert Seen(applied)[k] in Seen(applied);
      SeenIsShipped(migrations, applied, present);
      var j := VersionIndex(migrations, present);
      ShippedWithin(migrations, migrations[j]);
    }
  }

  /**
   In whatever order a history is read, a reported gap names a missing version below the present one, if and
   only if every history version strictly inside the shipped range is shipped.
   */
  lemma GapsTrueIffNoStrangers(migrations: seq<Migration>, applied: seq<Migration>)
    requires migrations != [] && Increasing(Versions(migrations))
    ensures (forall history :: multiset(history) == multiset(applied) ==> GapIsTrue(migrations, history)) <==>
            NoStrangersInside(migrations, applied)
  {
    if NoStrangersInside(migrations, applied) {
      forall history | multiset(history) == multiset(applied) ensures GapIsTrue(migrations, history) {
        forall m | m in history ensures m in applied { assert m in multiset(history); }
        GapTrueWithoutStrangers(migrations, history);
      }
    } else {
      var m :| m in applied && migrations[0].version < m.version < migrations[|migrations| - 1].version
               && m.version !in Versions(migrations);
      var i :| 0 <= i < |applied| && applied[i] == m;
      var history := [m] + (applied[..i] + applied[i + 1..]);
      assert applied == applied[..i] + [m] + applied[i + 1..];
      assert multiset(history) == multiset(applied);
      StrangerFirst(migrations, history);
    }
  }

  /** Shipped versions 4 and 6, history 6 then 5: version 6 is reported missing before 5, though it is applied. */
  lemma AppliedVersionReportedMissing(four: Migration, six: Migration, five: Migration)
    requires four.version == 4 && six.version == 6 && five.version == 5
    ensures Plan([four, six], [six, five]) == Err(MigrationGap(6, 5))
  {
    var shipped, history := [four, six], [six, five];
    assert history[..1] == [six] && [six][..0] == [];
    assert shipped[1..] == [six] && [six][1..] == [];
    assert Find([six], 6) == Some(six) && Find([six], 5) == None && FirstAbove([six], 5) == 6;
    assert Scan(shipped, [six]) == None;
    assert Seen([six]) == [6];
  }

  lemma ObjectionIsRight(migrations: seq<Migration>, applied: seq<Migration>, i: nat, shipped: Option<Migration>)
    requires migrations != [] && Increasing(Versions(migrations)) && i < |applied| && shipped == Find(migrations, applied[i].version)
    requires || applied[i].version < migrations[0].version
             || applied[i].version > migrations[|migrations| - 1].version
             || shipped != Some(applied[i])
    ensures !Prefix(migrations, applied) && Justified(migrations, applied, Objection(migrations, applied[i], shipped))
  {
    var m := applied[i];
    if m.version < migrations[0].version || m.version > migrations[|migrations| - 1].version {
      ShippedWithin(migrations, m);
    } else if shipped.Some? {
      OneShippedPerVersion(migrations, m, shipped.value);
    } else {
      VersionIsShipped(migrations, m.version);
      assert migrations[|migrations| - 1] in migrations;
      FirstAboveShipped(migrations, m.version);
    }
    StrangerRefused(migrations, applied, i);
  }

  lemma VersionIsShipped(migrations: seq<Migration>, v: int)
    ensures v in Versions(migrations) ==> exists m :: m in migrations && m.version == v
  {
    if v in Versions(migrations) {
      var i := VersionIndex(migrations, v);
      assert migrations[i] in migrations;
    }
  }

  lemma AcceptOne(applied: seq<Migration>, i: nat)
    requires i < |applied| && applied[i].version !in Seen(applied[..i]) && NoDuplicates(Versions(applied[..i]))
    ensures Seen(applied[..i + 1]) == Enter(Seen(applied[..i]), applied[i].version)
    ensures NoDuplicates(Versions(applied[..i + 1]))
    ensures applied[..i + 1] == applied[..i] + [applied[i]]
  {
    assert applied[..i + 1][..i] == applied[..i];
    SeenMembers(applied[..i], applied[i].version);
    assert Versions(applied[..i + 1]) == Versions(applied[..i]) + [applied[i].version];
  }

  /** After the planned migrations are applied there is nothing left to plan, whatever order the history is read in. */
  lemma ReplanIsEmpty(migrations: seq<Migration>, applied: seq<Migration>, history: seq<Migration>)
    requires Prefix(migrations, applied)
    requires multiset(history) == multiset(applied + migrations[|applied|..])
    ensures Prefix(migrations, history) && migrations[|history|..] == []
  {
    var rest := migrations[|applied|..];
    assert multiset(applied + rest) == multiset(applied) + multiset(rest);
    assert migrations == migrations[..|applied|] + rest;
    assert multiset(migrations) == multiset(migrations[..|applied|]) + multiset(rest);
    assert |multiset(history)| == |history| && |multiset(migrations)| == |migrations|;
    assert migrations[..|history|] == migrations;
  }
}
