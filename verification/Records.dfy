/**
 Records, their clustering order `(event_time, sort_key)`, and stable sorting by it
 (src/domain/model.rs). Instants are integers counting nanoseconds from the Unix epoch.
 */
module Records {
  import opened Common

  datatype Record = Record(partitionKey: Bytes, eventTime: int, sortKey: Bytes, value: Bytes)

  /** A continuation token; also the clustering key of a record. */
  datatype Cursor = Cursor(eventTime: int, sortKey: Bytes)

  /** Inclusive start, exclusive end. */
  datatype TimeRange = TimeRange(start: int, end: int)

  function CursorOf(r: Record): Cursor {
    Cursor(r.eventTime, r.sortKey)
  }

  predicate InRange(range: TimeRange, t: int) {
    range.start <= t < range.end
  }

  // ----- the clustering order -----

  predicate BytesPrecede(a: Bytes, b: Bytes) {
    b != [] && (a == [] || a[0] < b[0] || (a[0] == b[0] && BytesPrecede(a[1..], b[1..])))
  }

  lemma {:induction false} BytesTrichotomy(a: Bytes, b: Bytes)
    ensures BytesPrecede(a, b) || a == b || BytesPrecede(b, a)
    ensures !(BytesPrecede(a, b) && BytesPrecede(b, a))
    ensures a == b ==> !BytesPrecede(a, b)
  {
    if a != [] && b != [] {
      BytesTrichotomy(a[1..], b[1..]);
      assert a[0] == b[0] && a[1..] == b[1..] ==> a == b by {
        assert a == [a[0]] + a[1..] && b == [b[0]] + b[1..];
      }
    }
  }

  lemma {:induction false} BytesTransitive(a: Bytes, b: Bytes, c: Bytes)
    requires BytesPrecede(a, b) && BytesPrecede(b, c)
    ensures BytesPrecede(a, c)
  {
    if a != [] && a[0] == b[0] == c[0] {
      BytesTransitive(a[1..], b[1..], c[1..]);
    }
  }

  predicate Precedes(a: Cursor, b: Cursor) {
    a.eventTime < b.eventTime || (a.eventTime == b.eventTime && BytesPrecede(a.sortKey, b.sortKey))
  }

  /** `a` does not come after `b`. */
  predicate AtMost(a: Cursor, b: Cursor) {
    !Precedes(b, a)
  }

  lemma Trichotomy(a: Cursor, b: Cursor)
    ensures Precedes(a, b) || a == b || Precedes(b, a)
    ensures !(Precedes(a, b) && Precedes(b, a))
    ensures a == b ==> !Precedes(a, b)
  {
    BytesTrichotomy(a.sortKey, b.sortKey);
  }

  lemma Transitive(a: Cursor, b: Cursor, c: Cursor)
    requires Precedes(a, b) && Precedes(b, c)
    ensures Precedes(a, c)
  {
    if a.eventTime == b.eventTime == c.eventTime {
      BytesTransitive(a.sortKey, b.sortKey, c.sortKey);
    }
  }

  lemma AtMostTransitive(a: Cursor, b: Cursor, c: Cursor)
    requires AtMost(a, b) && AtMost(b, c)
    ensures AtMost(a, c)
    ensures Precedes(a, b) || Precedes(b, c) ==> Precedes(a, c)
  {
    Trichotomy(a, b);
    Trichotomy(b, c);
    Trichotomy(a, c);
    if Precedes(a, b) && Precedes(b, c) { Transitive(a, b, c); }
  }

  ghost predicate Sorted(s: seq<Record>) {
    forall i, j :: 0 <= i < j < |s| ==> AtMost(CursorOf(s[i]), CursorOf(s[j]))
  }

  /** Sorted with no two equal clustering keys: what the SQL primary key guarantees of one bucket. */
  ghost predicate StrictlySorted(s: seq<Record>) {
    forall i, j :: 0 <= i < j < |s| ==> Precedes(CursorOf(s[i]), CursorOf(s[j]))
  }

  ghost predicate UniqueKeys(s: seq<Record>) {
    forall i, j :: 0 <= i < j < |s| ==> CursorOf(s[i]) != CursorOf(s[j])
  }

  // ----- filtering -----

  function Filter(s: seq<Record>, p: Record -> bool): seq<Record> {
    if s == [] then []
    else if p(s[|s| - 1]) then Filter(s[..|s| - 1], p) + [s[|s| - 1]]
    else Filter(s[..|s| - 1], p)
  }

  lemma {:induction false} FilterMembers(s: seq<Record>, p: Record -> bool)
    ensures forall r :: r in Filter(s, p) <==> r in s && p(r)
  {
    if s != [] {
      FilterMembers(s[..|s| - 1], p);
      assert s == s[..|s| - 1] + [s[|s| - 1]];
    }
  }

  lemma {:induction false} FilterConcat(a: seq<Record>, b: seq<Record>, p: Record -> bool)
    ensures Filter(a + b, p) == Filter(a, p) + Filter(b, p)
  {
    if b == [] {
      assert a + b == a;
    } else {
      assert (a + b)[..|a + b| - 1] == a + b[..|b| - 1];
      FilterConcat(a, b[..|b| - 1], p);
    }
  }

  lemma {:induction false} FilterAll(s: seq<Record>, p: Record -> bool)
    requires forall r :: r in s ==> p(r)
    ensures Filter(s, p) == s
  {
    if s != [] {
      assert s == s[..|s| - 1] + [s[|s| - 1]];
      FilterAll(s[..|s| - 1], p);
    }
  }

  lemma {:induction false} FilterNone(s: seq<Record>, p: Record -> bool)
    requires forall r :: r in s ==> !p(r)
    ensures Filter(s, p) == []
  {
    if s != [] {
      FilterNone(s[..|s| - 1], p);
    }
  }

  lemma {:induction false} FilterKeepsOrder(s: seq<Record>, p: Record -> bool)
    ensures Sorted(s) ==> Sorted(Filter(s, p))
    ensures StrictlySorted(s) ==> StrictlySorted(Filter(s, p))
  {
    if s != [] {
      var init, last := s[..|s| - 1], s[|s| - 1];
      FilterKeepsOrder(init, p);
      FilterMembers(init, p);
      var f := Filter(init, p);
      forall i | 0 <= i < |f|
        ensures Sorted(s) ==> AtMost(CursorOf(f[i]), CursorOf(last))
        ensures StrictlySorted(s) ==> Precedes(CursorOf(f[i]), CursorOf(last))
      {
        assert f[i] in f;
        var j :| 0 <= j < |init| && init[j] == f[i];
      }
    }
  }

  /** The records carrying exactly the clustering key `c`, in their original order. */
  function WithKey(s: seq<Record>, c: Cursor): seq<Record> {
    Filter(s, r => CursorOf(r) == c)
  }

  lemma WithKeyConcat(a: seq<Record>, b: seq<Record>, c: Cursor)
    ensures WithKey(a + b, c) == WithKey(a, c) + WithKey(b, c)
  {
    FilterConcat(a, b, r => CursorOf(r) == c);
  }

  // ----- stable sorting -----

  /** Places `r` after every record of `s` whose key does not exceed its own. */
  function Insert(s: seq<Record>, r: Record): (t: seq<Record>)
    ensures |t| == |s| + 1
    ensures multiset(t) == multiset(s) + multiset{r}
  {
    if s == [] then [r] else
      var init, last := s[..|s| - 1], s[|s| - 1];
      assert s == init + [last];
      if Precedes(CursorOf(r), CursorOf(last)) then Insert(init, r) + [last] else s + [r]
  }

  /** The effect of a stable `sort_by` on `(event_time, sort_key)`. */
  function StableSort(s: seq<Record>): (t: seq<Record>)
    ensures |t| == |s|
    ensures multiset(t) == multiset(s)
  {
    if s == [] then [] else
      assert s == s[..|s| - 1] + [s[|s| - 1]];
      Insert(StableSort(s[..|s| - 1]), s[|s| - 1])
  }

  lemma {:induction false} InsertSorted(s: seq<Record>, r: Record)
    requires Sorted(s)
    ensures Sorted(Insert(s, r))
  {
    if s != [] {
      var init, last := s[..|s| - 1], s[|s| - 1];
      if Precedes(CursorOf(r), CursorOf(last)) {
        InsertSorted(init, r);
        var t := Insert(init, r);
        forall i | 0 <= i < |t| ensures AtMost(CursorOf(t[i]), CursorOf(last)) {
          assert t[i] in multiset(t);
          Trichotomy(CursorOf(r), CursorOf(last));
          if t[i] != r {
            assert t[i] in init;
          }
        }
      } else {
        forall i | 0 <= i < |s| ensures AtMost(CursorOf(s[i]), CursorOf(r)) {
          if i < |s| - 1 { AtMostTransitive(CursorOf(s[i]), CursorOf(last), CursorOf(r)); }
        }
      }
    }
  }

  lemma {:induction false} InsertKeepsKeyOrder(s: seq<Record>, r: Record, c: Cursor)
    requires Sorted(s)
    ensures WithKey(Insert(s, r), c) == WithKey(s + [r], c)
  {
    if s != [] {
      var init, last := s[..|s| - 1], s[|s| - 1];
      if Precedes(CursorOf(r), CursorOf(last)) {
        InsertKeepsKeyOrder(init, r, c);
        Trichotomy(CursorOf(r), CursorOf(last));
        WithKeyConcat(Insert(init, r), [last], c);
        WithKeyConcat(init, [r], c);
        WithKeyConcat(s, [r], c);
        assert s == init + [last];
        WithKeyConcat(init, [last], c);
      }
    }
  }

  /** `t` is sorted and keeps the relative order of records with equal keys. */
  ghost predicate IsStableSortOf(t: seq<Record>, s: seq<Record>) {
    Sorted(t) && forall c :: WithKey(t, c) == WithKey(s, c)
  }

  lemma {:induction false} SortSorted(s: seq<Record>)
    ensures Sorted(StableSort(s))
  {
    if s != [] {
      SortSorted(s[..|s| - 1]);
      InsertSorted(StableSort(s[..|s| - 1]), s[|s| - 1]);
    }
  }

  lemma SortPush(s: seq<Record>, r: Record)
    ensures StableSort(s + [r]) == Insert(StableSort(s), r)
  {
    assert (s + [r])[..|s + [r]| - 1] == s;
  }

  lemma PushKeepsKeyOrder(s: seq<Record>, r: Record, w: seq<Record>, c: Cursor)
    requires w == s + [r] && WithKey(StableSort(s), c) == WithKey(s, c)
    ensures WithKey(StableSort(w), c) == WithKey(w, c)
  {
    var t := StableSort(s);
    SortSorted(s);
    SortPush(s, r);
    InsertKeepsKeyOrder(t, r, c);
    WithKeyConcat(t, [r], c);
    WithKeyConcat(s, [r], c);
  }

  lemma {:induction false} SortKeepsKeyOrder(s: seq<Record>, c: Cursor)
    ensures WithKey(StableSort(s), c) == WithKey(s, c)
  {
    if s != [] {
      SortKeepsKeyOrder(s[..|s| - 1], c);
      PushKeepsKeyOrder(s[..|s| - 1], s[|s| - 1], s, c);
    }
  }

  lemma StableSortIsStableSort(s: seq<Record>)
    ensures IsStableSortOf(StableSort(s), s)
  {
    SortSorted(s);
    forall c ensures WithKey(StableSort(s), c) == WithKey(s, c) { SortKeepsKeyOrder(s, c); }
  }

  lemma WithKeyMembers(s: seq<Record>, c: Cursor)
    ensures forall r :: r in WithKey(s, c) <==> r in s && CursorOf(r) == c
  {
    FilterMembers(s, r => CursorOf(r) == c);
  }

  /** A sorted sequence ends in its greatest key, so the last record is the last of its key group. */
  lemma LastOfGroup(t: seq<Record>, c: Cursor)
    requires t != []
    ensures WithKey(t, c) == WithKey(t[..|t| - 1], c) + if c == CursorOf(t[|t| - 1]) then [t[|t| - 1]] else []
  {
  }

  lemma SameLastKey(t: seq<Record>, u: seq<Record>)
    requires Sorted(t) && Sorted(u) && t != [] && u != []
    requires forall c :: WithKey(t, c) == WithKey(u, c)
    ensures CursorOf(t[|t| - 1]) == CursorOf(u[|u| - 1])
  {
    var x, y := t[|t| - 1], u[|u| - 1];
    WithKeyMembers(t, CursorOf(x));
    WithKeyMembers(u, CursorOf(x));
    WithKeyMembers(t, CursorOf(y));
    WithKeyMembers(u, CursorOf(y));
    assert x in u && y in t;
    Trichotomy(CursorOf(x), CursorOf(y));
  }

  lemma SameInit(t: seq<Record>, x: Record, u: seq<Record>, y: Record, c: Cursor)
    requires WithKey(t + [x], c) == WithKey(u + [y], c) && CursorOf(x) == CursorOf(y)
    ensures WithKey(t, c) == WithKey(u, c)
    ensures c == CursorOf(x) ==> x == y
  {
    WithKeyConcat(t, [x], c);
    WithKeyConcat(u, [y], c);
    if c == CursorOf(x) {
      assert WithKey([x], c) == [x] && WithKey([y], c) == [y];
      PushInjective(WithKey(t, c), x, WithKey(u, c), y);
    } else {
      assert WithKey([x], c) == [] && WithKey([y], c) == [];
    }
  }

  /** A stable sort is determined by its specification alone. */
  lemma {:induction false} StableSortUnique(t: seq<Record>, u: seq<Record>)
    requires Sorted(t) && Sorted(u)
    requires forall c :: WithKey(t, c) == WithKey(u, c)
    ensures t == u
  {
    if t != [] { WithKeyMembers(t, CursorOf(t[0])); assert t[0] in WithKey(t, CursorOf(t[0])); }
    if u != [] { WithKeyMembers(u, CursorOf(u[0])); assert u[0] in WithKey(u, CursorOf(u[0])); }
    if t != [] && u != [] {
      SameLastKey(t, u);
      var t', x, u', y := t[..|t| - 1], t[|t| - 1], u[..|u| - 1], u[|u| - 1];
      assert t == t' + [x] && u == u' + [y];
      forall c ensures WithKey(t', c) == WithKey(u', c) && (c == CursorOf(x) ==> x == y) {
        SameInit(t', x, u', y, c);
      }
      StableSortUnique(t', u');
      assert x == y by { SameInit(t', x, u', y, CursorOf(x)); }
    }
  }

  lemma StableSortSpec(s: seq<Record>, t: seq<Record>)
    ensures t == StableSort(s) <==> IsStableSortOf(t, s)
  {
    StableSortIsStableSort(s);
    if IsStableSortOf(t, s) {
      forall c ensures WithKey(t, c) == WithKey(StableSort(s), c) {
        assert WithKey(StableSort(s), c) == WithKey(s, c);
      }
      StableSortUnique(t, StableSort(s));
    }
  }

  lemma SortedIsFixed(s: seq<Record>)
    requires Sorted(s)
    ensures StableSort(s) == s
  {
    StableSortSpec(s, s);
  }

  /** Sorting after a push onto sorted rows only inserts the new row. */
  lemma SortAfterPush(s: seq<Record>, r: Record)
    requires Sorted(s)
    ensures StableSort(s + [r]) == Insert(s, r)
  {
    SortedIsFixed(s);
    SortPush(s, r);
  }

  lemma SortSameElements(s: seq<Record>)
    ensures forall r :: r in StableSort(s) <==> r in s
  {
    forall r ensures r in StableSort(s) <==> r in s {
      assert r in multiset(StableSort(s)) <==> r in multiset(s);
    }
  }

  lemma {:induction false} FiltersCommute(s: seq<Record>, p: Record -> bool, q: Record -> bool)
    ensures Filter(Filter(s, p), q) == Filter(Filter(s, q), p)
  {
    if s != [] {
      var init, last := s[..|s| - 1], s[|s| - 1];
      FiltersCommute(init, p, q);
      FilterConcat(Filter(init, p), [last], q);
      FilterConcat(Filter(init, q), [last], p);
    }
  }

  /** Selecting rows and sorting them may be done in either order. */
  lemma SortCommutesWithFilter(s: seq<Record>, p: Record -> bool)
    ensures StableSort(Filter(s, p)) == Filter(StableSort(s), p)
  {
    StableSortIsStableSort(s);
    StableSortIsStableSort(Filter(s, p));
    FilterKeepsOrder(StableSort(s), p);
    forall c ensures WithKey(StableSort(Filter(s, p)), c) == WithKey(Filter(StableSort(s), p), c) {
      var q := r => CursorOf(r) == c;
      SortKeepsKeyOrder(Filter(s, p), c);
      SortKeepsKeyOrder(s, c);
      FiltersCommute(s, p, q);
      FiltersCommute(StableSort(s), p, q);
      assert WithKey(s, c) == Filter(s, q) && WithKey(StableSort(s), c) == Filter(StableSort(s), q);
    }
    StableSortUnique(StableSort(Filter(s, p)), Filter(StableSort(s), p));
  }

  lemma UniqueSortedIsStrict(s: seq<Record>)
    requires Sorted(s) && UniqueKeys(s)
    ensures StrictlySorted(s)
  {
    forall i, j | 0 <= i < j < |s| ensures Precedes(CursorOf(s[i]), CursorOf(s[j])) {
      Trichotomy(CursorOf(s[i]), CursorOf(s[j]));
    }
  }

  ghost predicate AtMostOnePerKey(s: seq<Record>) {
    forall c :: |WithKey(s, c)| <= 1
  }

  lemma {:induction false} UniqueKeysByGroups(s: seq<Record>)
    ensures UniqueKeys(s) <==> AtMostOnePerKey(s)
  {
    if s != [] {
      var init, last := s[..|s| - 1], s[|s| - 1];
      forall c ensures WithKey(s, c) == WithKey(init, c) + if c == CursorOf(last) then [last] else [] {
        LastOfGroup(s, c);
      }
      UniqueKeysByGroups(init);
      var g := WithKey(init, CursorOf(last));
      WithKeyMembers(init, CursorOf(last));
      assert UniqueKeys(s) <==> UniqueKeys(init) && forall r :: r in init ==> CursorOf(r) != CursorOf(last);
      assert AtMostOnePerKey(s) ==> AtMostOnePerKey(init) && g == [] by {
        if AtMostOnePerKey(s) {
          assert |WithKey(s, CursorOf(last))| <= 1;
          forall c ensures |WithKey(init, c)| <= 1 { assert |WithKey(s, c)| <= 1; }
        }
      }
      if g != [] { assert g[0] in g; }
    }
  }

  lemma SortKeepsUnique(s: seq<Record>)
    requires UniqueKeys(s)
    ensures StrictlySorted(StableSort(s))
  {
    StableSortIsStableSort(s);
    UniqueKeysByGroups(s);
    UniqueKeysByGroups(StableSort(s));
    forall c ensures |WithKey(StableSort(s), c)| <= 1 { assert |WithKey(s, c)| <= 1; }
    UniqueSortedIsStrict(StableSort(s));
  }
}
