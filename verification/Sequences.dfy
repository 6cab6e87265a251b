/** Sequence vocabulary shared by the models: duplicate-freeness, suffix windows,
    filtering, and the stable sort that the repository's list sorts rely on. */
module Sequences {

  predicate NoDup<T(==)>(s: seq<T>) {
    forall i, j :: 0 <= i < j < |s| ==> s[i] != s[j]
  }

  function ToSet<T(==)>(s: seq<T>): set<T> {
    set x | x in s
  }

  lemma {:induction false} NoDupCard<T>(s: seq<T>)
    requires NoDup(s)
    ensures |ToSet(s)| == |s|
  {
    if s == [] {
    } else {
      NoDupCard(s[1..]);
      assert ToSet(s) == {s[0]} + ToSet(s[1..]);
    }
  }

  lemma NoDupConcat<T>(a: seq<T>, b: seq<T>)
    requires NoDup(a) && NoDup(b)
    requires forall x :: x in b ==> x !in a
    ensures NoDup(a + b)
  {
    forall i, j | 0 <= i < j < |a + b| ensures (a + b)[i] != (a + b)[j] {
      if i < |a| <= j {
        assert b[j - |a|] in b;
      }
    }
  }

  lemma {:induction false} SubsetCard<T>(a: set<T>, b: set<T>)
    requires a <= b
    ensures |a| <= |b|
    ensures a != b ==> |a| < |b|
  {
    assert b == a + (b - a);
    if a != b {
      assert b - a != {};
    }
  }

  /** The last n entries of s, or all of s when it is shorter: a Python s[-n:] with n > 0. */
  function LastN<T>(s: seq<T>, n: nat): seq<T> {
    if |s| <= n then s else s[|s| - n..]
  }

  lemma LastNHas<T>(s: seq<T>, n: nat, i: nat)
    requires |s| - n <= i < |s|
    ensures s[i] in LastN(s, n)
  {
    assert s[i] == LastN(s, n)[i - (|s| - |LastN(s, n)|)];
  }

  function Take<T>(s: seq<T>, n: nat): (r: seq<T>)
    ensures |r| <= n && r <= s && (|r| < n ==> r == s)
  {
    if |s| <= n then s else s[..n]
  }

  lemma TakeIn<T>(s: seq<T>, n: nat)
    ensures forall x :: x in Take(s, n) ==> x in s
  {
    if |s| > n {
      forall i | 0 <= i < n ensures Take(s, n)[i] == s[i] {}
    }
  }

  function Filter<T(!new)>(s: seq<T>, p: T -> bool): seq<T> {
    if s == [] then []
    else (if p(s[0]) then [s[0]] else []) + Filter(s[1..], p)
  }

  lemma {:induction false} FilterIn<T(!new)>(s: seq<T>, p: T -> bool)
    ensures forall x :: x in Filter(s, p) <==> x in s && p(x)
  {
    if s != [] {
      FilterIn(s[1..], p);
    }
  }

  lemma FilterCons<T(!new)>(x: T, s: seq<T>, p: T -> bool)
    ensures Filter([x] + s, p) == if p(x) then [x] + Filter(s, p) else Filter(s, p)
  {
    assert ([x] + s)[1..] == s;
  }

  lemma {:induction false} FilterConcat<T(!new)>(a: seq<T>, b: seq<T>, p: T -> bool)
    ensures Filter(a + b, p) == Filter(a, p) + Filter(b, p)
  {
    if a == [] {
      assert a + b == b;
    } else {
      assert (a + b)[0] == a[0] && (a + b)[1..] == a[1..] + b;
      FilterConcat(a[1..], b, p);
      var head := if p(a[0]) then [a[0]] else [];
      assert head + (Filter(a[1..], p) + Filter(b, p)) == head + Filter(a[1..], p) + Filter(b, p);
    }
  }

  lemma {:induction false} FilterAll<T(!new)>(s: seq<T>, p: T -> bool)
    requires forall x :: x in s ==> p(x)
    ensures Filter(s, p) == s
  {
    if s != [] {
      FilterAll(s[1..], p);
    }
  }

  lemma {:induction false} FilterNoDup<T(!new)>(s: seq<T>, p: T -> bool)
    requires NoDup(s)
    ensures NoDup(Filter(s, p))
  {
    if s != [] {
      FilterNoDup(s[1..], p);
      FilterIn(s[1..], p);
      assert s[0] !in s[1..];
    }
  }

  lemma FilterAround<T(!new)>(a: seq<T>, x: T, b: seq<T>, p: T -> bool)
    ensures Filter(a + ([x] + b), p) == Filter(a, p) + ((if p(x) then [x] else []) + Filter(b, p))
  {
    FilterConcat(a, [x] + b, p);
    FilterCons(x, b, p);
  }

  lemma FilterAt<T(!new)>(s: seq<T>, p: T -> bool, j: nat)
    requires j < |s| && p(s[j])
    ensures |Filter(s[..j], p)| < |Filter(s, p)| && Filter(s, p)[|Filter(s[..j], p)|] == s[j]
  {
    assert s == s[..j] + ([s[j]] + s[j + 1..]);
    FilterAround(s[..j], s[j], s[j + 1..], p);
  }

  lemma {:induction false} FilterFrom<T(!new)>(s: seq<T>, p: T -> bool, k: nat) returns (j: nat)
    requires k < |Filter(s, p)|
    ensures j < |s| && p(s[j]) && |Filter(s[..j], p)| == k && Filter(s, p)[k] == s[j]
    decreases |s|
  {
    var n := |s| - 1;
    assert s == s[..n] + [s[n]];
    FilterConcat(s[..n], [s[n]], p);
    FilterCons(s[n], [], p);
    if k < |Filter(s[..n], p)| {
      j := FilterFrom(s[..n], p, k);
      assert s[..n][..j] == s[..j];
    } else {
      j := n;
    }
  }

  /** Replacing one entry by one that p rejects drops it from the entries p keeps, and nothing else. */
  lemma FilterWithout<T(!new)>(s: seq<T>, i: nat, e: T, p: T -> bool, others: T -> bool)
    requires i < |s| && !p(e) && !others(s[i])
    requires forall j :: 0 <= j < |s| && j != i ==> others(s[j])
    ensures Filter(s[i := e], p) == Filter(Filter(s, p), others)
  {
    hide Filter;
    var a, b := s[..i], s[i + 1..];
    assert s == a + ([s[i]] + b) && s[i := e] == a + ([e] + b);
    FilterAround(a, s[i], b, p);
    FilterAround(a, e, b, p);
    FilterIn(a, p);
    FilterIn(b, p);
    FilterAll(Filter(a, p), others);
    FilterAll(Filter(b, p), others);
    if p(s[i]) {
      FilterAround(Filter(a, p), s[i], Filter(b, p), others);
    } else {
      FilterConcat(Filter(a, p), Filter(b, p), others);
      assert [] + Filter(b, p) == Filter(b, p);
    }
    assert [] + Filter(Filter(b, p), others) == Filter(b, p);
  }

  // ------------------------------------------------------------------ stable sort

  ghost predicate TotalPreorder<T(!new)>(le: (T, T) -> bool) {
    && (forall x, y :: le(x, y) || le(y, x))
    && (forall x, y, z :: le(x, y) && le(y, z) ==> le(x, z))
  }

  predicate Sorted<T>(s: seq<T>, le: (T, T) -> bool) {
    forall i, j :: 0 <= i < j < |s| ==> le(s[i], s[j])
  }

  function Insert<T>(x: T, s: seq<T>, le: (T, T) -> bool): seq<T> {
    if s == [] then [x]
    else if le(x, s[0]) then [x] + s
    else [s[0]] + Insert(x, s[1..], le)
  }

  /** Python's list.sort for the ordering `le`. */
  function StableSort<T>(s: seq<T>, le: (T, T) -> bool): seq<T> {
    if s == [] then [] else Insert(s[0], StableSort(s[1..], le), le)
  }

  lemma {:induction false} InsertElements<T(!new)>(x: T, s: seq<T>, le: (T, T) -> bool)
    ensures multiset(Insert(x, s, le)) == multiset([x]) + multiset(s)
    ensures forall y :: y in Insert(x, s, le) <==> y == x || y in s
  {
    if s != [] && !le(x, s[0]) {
      InsertElements(x, s[1..], le);
      assert s == [s[0]] + s[1..];
    }
  }

  /** Sorting permutes: nothing is lost, invented or duplicated. */
  lemma {:induction false} SortElements<T(!new)>(s: seq<T>, le: (T, T) -> bool)
    ensures multiset(StableSort(s, le)) == multiset(s)
    ensures forall y :: y in StableSort(s, le) <==> y in s
    ensures |StableSort(s, le)| == |s|
  {
    if s != [] {
      SortElements(s[1..], le);
      InsertElements(s[0], StableSort(s[1..], le), le);
      assert s == [s[0]] + s[1..];
      assert |multiset(StableSort(s, le))| == |multiset(s)|;
    }
  }

  lemma {:induction false} InsertSorted<T(!new)>(x: T, s: seq<T>, le: (T, T) -> bool)
    requires TotalPreorder(le) && Sorted(s, le)
    ensures Sorted(Insert(x, s, le), le)
  {
    if s != [] && !le(x, s[0]) {
      InsertSorted(x, s[1..], le);
      var rest := Insert(x, s[1..], le);
      InsertElements(x, s[1..], le);
      forall j | 0 <= j < |rest| ensures le(s[0], rest[j]) {
        assert rest[j] in rest;
      }
    }
  }

  lemma {:induction false} SortSorted<T(!new)>(s: seq<T>, le: (T, T) -> bool)
    requires TotalPreorder(le)
    ensures Sorted(StableSort(s, le), le)
  {
    if s != [] {
      SortSorted(s[1..], le);
      InsertSorted(s[0], StableSort(s[1..], le), le);
    }
  }

  lemma {:induction false} InsertFilter<T(!new)>(x: T, s: seq<T>, le: (T, T) -> bool, p: T -> bool)
    requires TotalPreorder(le) && Sorted(s, le)
    ensures Filter(Insert(x, s, le), p) == if p(x) then Insert(x, Filter(s, p), le) else Filter(s, p)
  {
    if s == [] {
    } else if le(x, s[0]) {
      FilterCons(x, s, p);
      FilterIn(s, p);
      var kept := Filter(s, p);
      if kept != [] {
        assert kept[0] in s;
      }
    } else {
      var t := s[1..];
      assert s == [s[0]] + t;
      InsertFilter(x, t, le, p);
      FilterCons(s[0], t, p);
      FilterCons(s[0], Insert(x, t, le), p);
      if p(s[0]) && p(x) {
        assert ([s[0]] + Filter(t, p))[1..] == Filter(t, p);
      }
    }
  }

  /** Sorting commutes with filtering: dropping entries never reorders the others. */
  lemma {:induction false} SortFilter<T(!new)>(s: seq<T>, le: (T, T) -> bool, p: T -> bool)
    requires TotalPreorder(le)
    ensures Filter(StableSort(s, le), p) == StableSort(Filter(s, p), le)
  {
    if s != [] {
      SortFilter(s[1..], le, p);
      SortSorted(s[1..], le);
      InsertFilter(s[0], StableSort(s[1..], le), le, p);
      assert s == [s[0]] + s[1..];
      FilterCons(s[0], s[1..], p);
      if p(s[0]) {
        assert ([s[0]] + Filter(s[1..], p))[1..] == Filter(s[1..], p);
      }
    }
  }

  /** A list whose entries all tie is left as it is. */
  lemma {:induction false} SortTies<T(!new)>(s: seq<T>, le: (T, T) -> bool)
    requires forall x, y :: x in s && y in s ==> le(x, y)
    ensures StableSort(s, le) == s
  {
    if s != [] {
      SortTies(s[1..], le);
    }
  }

  /** The entries that sort neither before nor after x. */
  function Tied<T(!new)>(le: (T, T) -> bool, x: T): T -> bool {
    y => le(x, y) && le(y, x)
  }

  /** r is s in order, with entries that tie left in their original relative order. */
  ghost predicate StablySorted<T(!new)>(s: seq<T>, r: seq<T>, le: (T, T) -> bool) {
    && Sorted(r, le)
    && multiset(r) == multiset(s)
    && forall x :: Filter(r, Tied(le, x)) == Filter(s, Tied(le, x))
  }

  lemma SortIsStable<T(!new)>(s: seq<T>, le: (T, T) -> bool)
    requires TotalPreorder(le)
    ensures StablySorted(s, StableSort(s, le), le)
  {
    SortSorted(s, le);
    SortElements(s, le);
    forall x ensures Filter(StableSort(s, le), Tied(le, x)) == Filter(s, Tied(le, x)) {
      SortFilter(s, le, Tied(le, x));
      FilterIn(s, Tied(le, x));
      SortTies(Filter(s, Tied(le, x)), le);
    }
  }

  /** Taking one more entry and dropping the single entry p rejects fills the freed slot. */
  lemma {:induction false} TakeBackfill<T(!new)>(s: seq<T>, n: nat, k: nat, p: T -> bool)
    requires k < n && k < |s|
    requires forall i :: 0 <= i < |s| ==> (p(s[i]) <==> i != k)
    ensures Take(Filter(s, p), n) == Filter(Take(s, n + 1), p)
    ensures Filter(Take(s, n + 1), p) == Take(s, n + 1)[..k] + Take(s, n + 1)[k + 1..]
  {
    var t := Take(s, n + 1);
    FilterSkipOne(s, k, p);
    FilterSkipOne(t, k, p);
    var all := s[..k] + s[k + 1..];
    assert t[..k] == s[..k];
    if |s| > n + 1 {
      assert t[k + 1..] == s[k + 1..n + 1];
      assert all[..n] == s[..k] + s[k + 1..n + 1];
    }
  }

  lemma FilterSkipOne<T(!new)>(s: seq<T>, k: nat, p: T -> bool)
    requires k < |s|
    requires forall i :: 0 <= i < |s| ==> (p(s[i]) <==> i != k)
    ensures Filter(s, p) == s[..k] + s[k + 1..]
  {
    var front, back := s[..k], s[k + 1..];
    assert s == front + ([s[k]] + back);
    FilterConcat(front, [s[k]] + back, p);
    FilterCons(s[k], back, p);
    assert forall i :: 0 <= i < |back| ==> back[i] == s[k + 1 + i];
    FilterAll(front, p);
    FilterAll(back, p);
  }

  // ------------------------------------------------------------------ strings in order

  /** Python's a < b on strings. */
  predicate Less(a: string, b: string) {
    if a == "" || b == "" then a == "" && b != ""
    else a[0] < b[0] || (a[0] == b[0] && Less(a[1..], b[1..]))
  }

  lemma {:induction false} LessIsTotal(a: string, b: string)
    ensures !(Less(a, b) && Less(b, a))
    ensures Less(a, b) || Less(b, a) || a == b
  {
    if a != "" && b != "" {
      LessIsTotal(a[1..], b[1..]);
      assert a == [a[0]] + a[1..] && b == [b[0]] + b[1..];
    }
  }

  /** One string is less than another where it is a proper prefix of it, or has the smaller character at the first
      difference. */
  lemma {:induction false} LessIff(a: string, b: string)
    ensures Less(a, b) <==> a < b || exists k: nat :: FirstDifference(a, b, k) && a[k] < b[k]
  {
    if a != "" && b != "" && a[0] == b[0] {
      LessIff(a[1..], b[1..]);
      assert a == [a[0]] + a[1..] && b == [b[0]] + b[1..];
      if k: nat :| FirstDifference(a, b, k) && a[k] < b[k] {
        assert a[1..k] == a[..k][1..] == b[..k][1..] == b[1..k];
        assert a[1..][..k - 1] == a[1..k] && b[1..][..k - 1] == b[1..k];
        assert FirstDifference(a[1..], b[1..], k - 1);
      }
      if k: nat :| FirstDifference(a[1..], b[1..], k) && a[1..][k] < b[1..][k] {
        assert a[..k + 1] == [a[0]] + a[1..][..k] && b[..k + 1] == [b[0]] + b[1..][..k];
        assert FirstDifference(a, b, k + 1);
      }
    } else if a != "" && b != "" {
      assert FirstDifference(a, b, 0);
      forall k: nat | FirstDifference(a, b, k) ensures k == 0 {
        SameFirst(a, b, k);
      }
    }
  }

  lemma SameFirst(a: string, b: string, k: nat)
    requires k <= |a| && k <= |b| && a[..k] == b[..k]
    ensures k > 0 ==> a[0] == b[0]
  {
    if k > 0 {
      assert a[..k][0] == b[..k][0];
    }
  }

  predicate FirstDifference(a: string, b: string, k: nat) { k < |a| && k < |b| && a[..k] == b[..k] && a[k] != b[k] }

  lemma {:induction false} LessTransitive(a: string, b: string, c: string)
    requires Less(a, b) && !Less(c, b)
    ensures Less(a, c)
  {
    LessIsTotal(b, c);
    if a != "" && b != "" && c != "" && b != c && a[0] == b[0] && b[0] == c[0] {
      LessTransitive(a[1..], b[1..], c[1..]);
    }
  }

  predicate Ascending(s: seq<string>) {
    forall i, j :: 0 <= i < j < |s| ==> Less(s[i], s[j])
  }

  /** s is what Python's sorted makes of the set. */
  predicate SortedFrom(s: seq<string>, ids: set<string>) { Ascending(s) && ToSet(s) == ids }

  lemma {:induction false} SortedFromUnique(s: seq<string>, t: seq<string>, ids: set<string>)
    requires SortedFrom(s, ids) && SortedFrom(t, ids)
    ensures s == t
    decreases |s|
  {
    hide Less;
    EmptyFrom(s, ids);
    EmptyFrom(t, ids);
    if s != [] {
      FirstIsLeast(s, t, ids);
      FirstIsLeast(t, s, ids);
      LessIsTotal(s[0], t[0]);
      RestSorted(s, ids);
      RestSorted(t, ids);
      SortedFromUnique(s[1..], t[1..], ids - {s[0]});
      assert s == [s[0]] + s[1..] && t == [t[0]] + t[1..];
    }
  }

  lemma EmptyFrom(s: seq<string>, ids: set<string>)
    requires SortedFrom(s, ids)
    ensures s == [] <==> ids == {}
  {
    if s != [] {
      assert s[0] in ToSet(s);
    }
  }

  lemma FirstIsLeast(s: seq<string>, t: seq<string>, ids: set<string>)
    requires SortedFrom(s, ids) && SortedFrom(t, ids) && s != [] && t != []
    ensures s[0] == t[0] || Less(s[0], t[0])
  {
    hide Less;
    assert t[0] in ToSet(t);
    var i :| 0 <= i < |s| && s[i] == t[0];
  }

  lemma RestSorted(s: seq<string>, ids: set<string>)
    requires SortedFrom(s, ids) && s != []
    ensures SortedFrom(s[1..], ids - {s[0]})
  {
    hide Less;
    LessIsTotal(s[0], s[0]);
    assert s == [s[0]] + s[1..];
    forall j | 0 <= j < |s[1..]| ensures s[1..][j] != s[0] {
      assert Less(s[0], s[j + 1]);
    }
  }

  predicate NotGreater(a: string, b: string) { !Less(b, a) }

  lemma {:induction false} InsertAscending(x: string, s: seq<string>)
    requires Ascending(s) && x !in s
    ensures Ascending(Insert(x, s, NotGreater)) && ToSet(Insert(x, s, NotGreater)) == ToSet(s) + {x}
  {
    hide Less;
    InsertElements(x, s, NotGreater);
    if s != [] {
      LessIsTotal(x, s[0]);
      if NotGreater(x, s[0]) {
        forall j | 0 < j < |s| ensures Less(x, s[j]) {
          LessIsTotal(s[0], s[j]);
          LessTransitive(x, s[0], s[j]);
        }
      } else {
        InsertAscending(x, s[1..]);
        var rest := Insert(x, s[1..], NotGreater);
        forall j | 0 <= j < |rest| ensures Less(s[0], rest[j]) {
          assert rest[j] in ToSet(rest);
          if rest[j] != x {
            var k :| 0 <= k < |s[1..]| && s[1..][k] == rest[j];
          }
        }
      }
    }
  }

  lemma {:induction false} SortedFromExists(ids: set<string>)
    ensures exists s :: SortedFrom(s, ids)
  {
    if ids == {} {
      assert SortedFrom([], ids);
    } else {
      var x :| x in ids;
      SortedFromExists(ids - {x});
      var s :| SortedFrom(s, ids - {x});
      assert x !in ToSet(s);
      InsertAscending(x, s);
      assert SortedFrom(Insert(x, s, NotGreater), ids);
    }
  }

  ghost function SortedSet(ids: set<string>): (s: seq<string>)
    ensures SortedFrom(s, ids)
  {
    SortedFromExists(ids);
    var s :| SortedFrom(s, ids);
    s
  }

  method SortSet(ids: set<string>) returns (s: seq<string>)
    ensures s == SortedSet(ids)
  {
    hide Less;
    s := [];
    var todo := ids;
    while todo != {}
      invariant todo <= ids && SortedFrom(s, ids - todo)
      decreases |todo|
    {
      var x :| x in todo;
      assert x !in ToSet(s);
      InsertAscending(x, s);
      s := Insert(x, s, NotGreater);
      todo := todo - {x};
    }
    assert ids - todo == ids;
    SortedFromUnique(s, SortedSet(ids), ids);
  }
}
