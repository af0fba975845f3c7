/**
 * `cleanupOldSummaries(days = 7, maxEntries = 100)`: the maintenance pass over
 * the store. Among the entries whose key starts with `summary_`, it removes
 * those whose time stamp is set and older than the cutoff; then, if the
 * number of those entries, counted before the age removals, exceeds
 * `maxEntries`, it sorts them newest first (a stable sort on `ts || 0`) and
 * removes every entry after the first `maxEntries`.
 */
module Maintenance {
  import opened Strings
  import opened SummaryCache

  const DefaultDays := 7
  const DefaultMaxEntries := 100
  const MsPerDay := 24 * 60 * 60 * 1000

  /** `[k, v]` as listed by `Object.entries`. */
  type Entry = (string, Record)

  /** `Date.now() - days * 24 * 60 * 60 * 1000` */
  function Cutoff(now: int, days: int): (cutoff: int)
    ensures cutoff == now - days * 86400000
  {
    now - days * MsPerDay
  }

  predicate DistinctKeys(s: seq<Entry>)
  {
    forall i, j :: 0 <= i < j < |s| ==> s[i].0 != s[j].0
  }

  /** The keys of the store that lie in the extension's namespace. */
  function NamespacedKeys(items: map<string, Record>): set<string>
  {
    set k | k in items && StartsWith(k, Prefix)
  }

  // ----- Sets of keys -----

  lemma SubsetCard<T>(a: set<T>, b: set<T>)
    requires a <= b
    ensures |a| <= |b|
  {
    assert b == a + (b - a);
    assert a * (b - a) == {};
  }

  lemma KeysOfCons(s: seq<Entry>)
    requires |s| > 0
    ensures KeysOf(s) == {s[0].0} + KeysOf(s[1..])
  {
    forall k | k in KeysOf(s) ensures k in {s[0].0} + KeysOf(s[1..]) {
      var i :| 0 <= i < |s| && s[i].0 == k;
      if i > 0 { assert s[1..][i - 1] == s[i]; }
    }
    forall k | k in KeysOf(s[1..]) ensures k in KeysOf(s) {
      var i :| 0 <= i < |s[1..]| && s[1..][i].0 == k;
      assert s[i + 1] == s[1..][i];
    }
  }

  lemma KeysOfAppend(a: seq<Entry>, b: seq<Entry>)
    ensures KeysOf(a + b) == KeysOf(a) + KeysOf(b)
  {
    var s := a + b;
    forall k | k in KeysOf(s) ensures k in KeysOf(a) + KeysOf(b) {
      var i :| 0 <= i < |s| && s[i].0 == k;
      if i < |a| { assert s[i] == a[i]; } else { assert s[i] == b[i - |a|]; }
    }
    forall k | k in KeysOf(a) ensures k in KeysOf(s) {
      var i :| 0 <= i < |a| && a[i].0 == k;
      assert s[i] == a[i];
    }
    forall k | k in KeysOf(b) ensures k in KeysOf(s) {
      var i :| 0 <= i < |b| && b[i].0 == k;
      assert s[|a| + i] == b[i];
    }
  }

  lemma {:induction false} KeysOfCard(s: seq<Entry>)
    ensures |KeysOf(s)| <= |s|
    ensures DistinctKeys(s) ==> |KeysOf(s)| == |s|
    decreases |s|
  {
    if s != [] {
      KeysOfCons(s);
      KeysOfCard(s[1..]);
      if DistinctKeys(s) {
        assert DistinctKeys(s[1..]) by {
          forall i, j | 0 <= i < j < |s[1..]| ensures s[1..][i].0 != s[1..][j].0 {
            assert s[1..][i] == s[i + 1] && s[1..][j] == s[j + 1];
          }
        }
        assert s[0].0 !in KeysOf(s[1..]) by {
          forall i | 0 <= i < |s[1..]| ensures s[1..][i].0 != s[0].0 {
            assert s[1..][i] == s[i + 1];
          }
        }
      }
    } else {
      assert KeysOf(s) == {};
    }
  }

  lemma KeysOfSingleton(e: Entry)
    ensures KeysOf([e]) == {e.0}
  {
    assert [e][0] == e;
  }

  /** Two sequences with the same elements have the same keys. */
  lemma KeysOfSameElements(a: seq<Entry>, b: seq<Entry>)
    requires forall x :: x in a <==> x in b
    ensures KeysOf(a) == KeysOf(b)
  {
    forall k | k in KeysOf(a) ensures k in KeysOf(b) {
      var i :| 0 <= i < |a| && a[i].0 == k;
      assert a[i] in b;
      var j :| 0 <= j < |b| && b[j] == a[i];
    }
    forall k | k in KeysOf(b) ensures k in KeysOf(a) {
      var i :| 0 <= i < |b| && b[i].0 == k;
      assert b[i] in a;
      var j :| 0 <= j < |a| && a[j] == b[i];
    }
  }

  // ----- filter, sort and slice -----

  /** `s.filter(keep)` */
  function Filter(s: seq<Entry>, keep: Entry -> bool): (r: seq<Entry>)
    ensures |r| <= |s|
    ensures forall e :: e in r <==> e in s && keep(e)
    ensures DistinctKeys(s) ==> DistinctKeys(r)
  {
    if s == [] then []
    else
      var rest := Filter(s[1..], keep);
      assert forall e :: e in s <==> e == s[0] || e in s[1..];
      if keep(s[0]) then
        var r := [s[0]] + rest;
        assert DistinctKeys(s) ==> DistinctKeys(r) by {
          if DistinctKeys(s) {
            forall i | 0 <= i < |rest| ensures rest[i].0 != s[0].0 {
              assert rest[i] in s[1..];
              var j :| 0 <= j < |s[1..]| && s[1..][j] == rest[i];
              assert s[j + 1] == s[1..][j];
            }
            forall i, j | 0 <= i < j < |r| ensures r[i].0 != r[j].0 {
              if i > 0 { assert r[i] == rest[i - 1] && r[j] == rest[j - 1]; }
              else { assert r[j] == rest[j - 1]; }
            }
          }
        }
        r
      else rest
  }

  predicate InNamespace(e: Entry)
  {
    StartsWith(e.0, Prefix)
  }

  /** `Object.entries(all).filter(([k, v]) => k.startsWith('summary_'))` */
  function Namespaced(all: seq<Entry>): seq<Entry>
  {
    Filter(all, InNamespace)
  }

  /** A sequence of namespaced entries passes the namespace filter unchanged. */
  lemma {:induction false} NamespacedKeepsAll(s: seq<Entry>)
    requires forall i :: 0 <= i < |s| ==> InNamespace(s[i])
    ensures Namespaced(s) == s
    decreases |s|
  {
    if s != [] {
      assert forall i :: 0 <= i < |s[1..]| ==> s[1..][i] == s[i + 1];
      NamespacedKeepsAll(s[1..]);
      assert InNamespace(s[0]);
      assert s == [s[0]] + s[1..];
    }
  }

  /** `v.ts && v.ts < cutoff`: a missing or zero time stamp never expires. */
  predicate Expired(r: Record, cutoff: int)
  {
    r.ts != 0 && r.ts < cutoff
  }

  /** `pairs.filter(([_, v]) => v.ts && v.ts < cutoff)` */
  function ExpiredEntries(pairs: seq<Entry>, cutoff: int): seq<Entry>
  {
    Filter(pairs, (e: Entry) => Expired(e.1, cutoff))
  }

  /** The comparator's order: `(b[1].ts || 0) - (a[1].ts || 0)` puts larger time stamps first. */
  predicate NewestFirstOrder(s: seq<Entry>)
  {
    forall i, j :: 0 <= i < j < |s| ==> s[i].1.ts >= s[j].1.ts
  }

  /** The entries of `s` with time stamp `t`, in order: what a stable sort must not reorder. */
  function WithTs(s: seq<Entry>, t: int): seq<Entry>
  {
    if s == [] then []
    else (if s[0].1.ts == t then [s[0]] else []) + WithTs(s[1..], t)
  }

  lemma WithTsCons(e: Entry, s: seq<Entry>, t: int)
    ensures WithTs([e] + s, t) == (if e.1.ts == t then [e] else []) + WithTs(s, t)
  {
    assert ([e] + s)[1..] == s;
  }

  /** Inserts `e` before the first entry that is not newer, so that it stays ahead of its ties. */
  function Insert(e: Entry, s: seq<Entry>): (r: seq<Entry>)
    ensures multiset(r) == multiset(s) + multiset{e}
  {
    if s == [] || e.1.ts >= s[0].1.ts then [e] + s
    else
      assert s == [s[0]] + s[1..];
      [s[0]] + Insert(e, s[1..])
  }

  lemma InsertElements(e: Entry, s: seq<Entry>)
    ensures forall x :: x in Insert(e, s) <==> x == e || x in s
  {
    forall x ensures x in Insert(e, s) <==> x == e || x in s {
      assert x in Insert(e, s) <==> x in multiset(Insert(e, s));
      assert x in s <==> x in multiset(s);
    }
  }

  lemma {:induction false} InsertOrdered(e: Entry, s: seq<Entry>)
    requires NewestFirstOrder(s)
    ensures NewestFirstOrder(Insert(e, s))
    decreases |s|
  {
    if !(s == [] || e.1.ts >= s[0].1.ts) {
      var rest := Insert(e, s[1..]);
      var r := [s[0]] + rest;
      InsertOrdered(e, s[1..]);
      InsertElements(e, s[1..]);
      forall i, j | 0 <= i < j < |r| ensures r[i].1.ts >= r[j].1.ts {
        if i == 0 {
          assert r[j] in rest;
          if r[j] != e {
            var m :| 0 <= m < |s[1..]| && s[1..][m] == r[j];
            assert s[m + 1] == r[j];
          }
        } else {
          assert r[i] == rest[i - 1] && r[j] == rest[j - 1];
        }
      }
    }
  }

  lemma {:induction false} InsertDistinct(e: Entry, s: seq<Entry>)
    requires DistinctKeys(s) && e.0 !in KeysOf(s)
    ensures DistinctKeys(Insert(e, s))
    decreases |s|
  {
    var r := Insert(e, s);
    if s == [] || e.1.ts >= s[0].1.ts {
      forall i, j | 0 <= i < j < |r| ensures r[i].0 != r[j].0 {
        assert r[j] == s[j - 1];
        if i > 0 { assert r[i] == s[i - 1]; }
      }
    } else {
      var rest := Insert(e, s[1..]);
      KeysOfCons(s);
      assert DistinctKeys(s[1..]) by {
        forall i, j | 0 <= i < j < |s[1..]| ensures s[1..][i].0 != s[1..][j].0 {
          assert s[1..][i] == s[i + 1] && s[1..][j] == s[j + 1];
        }
      }
      InsertDistinct(e, s[1..]);
      InsertElements(e, s[1..]);
      forall i, j | 0 <= i < j < |r| ensures r[i].0 != r[j].0 {
        if i == 0 {
          assert r[j] in rest;
          if r[j] != e {
            var m :| 0 <= m < |s[1..]| && s[1..][m] == r[j];
            assert s[m + 1] == r[j];
          }
        } else {
          assert r[i] == rest[i - 1] && r[j] == rest[j - 1];
        }
      }
    }
  }

  /** `e` lands ahead of every entry with its own time stamp. */
  lemma {:induction false} InsertStable(e: Entry, s: seq<Entry>, t: int)
    ensures WithTs(Insert(e, s), t) == (if e.1.ts == t then [e] else []) + WithTs(s, t)
    decreases |s|
  {
    if s == [] || e.1.ts >= s[0].1.ts {
      WithTsCons(e, s, t);
    } else {
      var rest := s[1..];
      InsertStable(e, rest, t);
      assert Insert(e, s) == [s[0]] + Insert(e, rest);
      WithTsCons(s[0], Insert(e, rest), t);
      assert s == [s[0]] + rest;
      WithTsCons(s[0], rest, t);
      if e.1.ts == t {
        assert s[0].1.ts != t;
      } else {
        assert (if e.1.ts == t then [e] else []) == [];
      }
    }
  }

  /** `pairs.sort((a, b) => (b[1].ts || 0) - (a[1].ts || 0))`, as an insertion sort. */
  function NewestFirst(ps: seq<Entry>): (r: seq<Entry>)
    ensures multiset(r) == multiset(ps)
  {
    if ps == [] then []
    else
      assert ps == [ps[0]] + ps[1..];
      Insert(ps[0], NewestFirst(ps[1..]))
  }

  lemma NewestFirstSameElements(ps: seq<Entry>)
    ensures forall x :: x in NewestFirst(ps) <==> x in ps
    ensures |NewestFirst(ps)| == |ps|
  {
    var r := NewestFirst(ps);
    forall x ensures x in r <==> x in ps {
      assert x in r <==> x in multiset(r);
      assert x in ps <==> x in multiset(ps);
    }
    assert |r| == |multiset(r)| == |multiset(ps)| == |ps|;
  }

  /** The sort puts larger time stamps first, a missing one counting as 0. */
  lemma {:induction false} NewestFirstOrdered(ps: seq<Entry>)
    ensures NewestFirstOrder(NewestFirst(ps))
    decreases |ps|
  {
    if ps != [] {
      NewestFirstOrdered(ps[1..]);
      InsertOrdered(ps[0], NewestFirst(ps[1..]));
    }
  }

  /** Sorting keeps the keys distinct. */
  lemma {:induction false} NewestFirstDistinct(ps: seq<Entry>)
    requires DistinctKeys(ps)
    ensures DistinctKeys(NewestFirst(ps))
    decreases |ps|
  {
    if ps != [] {
      var rest := NewestFirst(ps[1..]);
      assert DistinctKeys(ps[1..]) by {
        forall i, j | 0 <= i < j < |ps[1..]| ensures ps[1..][i].0 != ps[1..][j].0 {
          assert ps[1..][i] == ps[i + 1] && ps[1..][j] == ps[j + 1];
        }
      }
      NewestFirstDistinct(ps[1..]);
      NewestFirstSameElements(ps[1..]);
      KeysOfSameElements(rest, ps[1..]);
      forall i | 0 <= i < |ps[1..]| ensures ps[1..][i].0 != ps[0].0 {
        assert ps[1..][i] == ps[i + 1];
      }
      InsertDistinct(ps[0], rest);
    }
  }

  /** The sort is stable (ES2019): entries with equal time stamps keep their relative order. */
  lemma {:induction false} NewestFirstStable(ps: seq<Entry>, t: int)
    ensures WithTs(NewestFirst(ps), t) == WithTs(ps, t)
    decreases |ps|
  {
    if ps != [] {
      NewestFirstStable(ps[1..], t);
      InsertStable(ps[0], NewestFirst(ps[1..]), t);
      assert ps == [ps[0]] + ps[1..];
      WithTsCons(ps[0], ps[1..], t);
    }
  }

  /** `s.slice(start)`, with JavaScript's reading of a negative start as counted from the end. */
  function Slice(s: seq<Entry>, start: int): (r: seq<Entry>)
    ensures |r| <= |s| && r == s[|s| - |r|..]
    ensures 0 <= start ==> |r| == if start <= |s| then |s| - start else 0
    ensures start < 0 ==> |r| == if -start <= |s| then -start else |s|
  {
    if start < 0 then s[if |s| + start < 0 then 0 else |s| + start..]
    else if start <= |s| then s[start..]
    else []
  }

  // ----- the removal sets and the resulting store -----

  /** Keys that the age step removes. */
  function ExpiredKeys(all: seq<Entry>, cutoff: int): set<string>
  {
    KeysOf(ExpiredEntries(Namespaced(all), cutoff))
  }

  /** Keys that the size step removes; the test uses the count taken before the age step. */
  function OverflowKeys(all: seq<Entry>, maxEntries: int): set<string>
  {
    var pairs := Namespaced(all);
    if |pairs| > maxEntries then KeysOf(Slice(NewestFirst(pairs), maxEntries)) else {}
  }

  /** The store after one cleanup pass that enumerated it as `all`. */
  function Cleaned(items: map<string, Record>, all: seq<Entry>, cutoff: int, maxEntries: int): map<string, Record>
  {
    items - ExpiredKeys(all, cutoff) - OverflowKeys(all, maxEntries)
  }

  /** The namespaced entries of an enumeration are the namespaced keys of the store, one entry per key. */
  lemma NamespacedOfEnumeration(all: seq<Entry>, items: map<string, Record>)
    requires Enumerates(all, items)
    ensures DistinctKeys(Namespaced(all))
    ensures KeysOf(Namespaced(all)) == NamespacedKeys(items)
    ensures |Namespaced(all)| == |NamespacedKeys(items)|
    ensures forall e :: e in Namespaced(all) ==> e.0 in items && items[e.0] == e.1
  {
    var p := Namespaced(all);
    forall k | k in NamespacedKeys(items) ensures k in KeysOf(p) {
      var i :| 0 <= i < |all| && all[i].0 == k;
      assert all[i] in p;
      var j :| 0 <= j < |p| && p[j] == all[i];
    }
    forall k | k in KeysOf(p) ensures k in NamespacedKeys(items) {
      var j :| 0 <= j < |p| && p[j].0 == k;
      assert p[j] in all;
    }
    KeysOfCard(p);
  }

  /** The age step removes exactly the namespaced entries whose time stamp is set and before the cutoff. */
  lemma ExpiredKeysExact(all: seq<Entry>, items: map<string, Record>, cutoff: int)
    requires Enumerates(all, items)
    ensures forall k :: k in ExpiredKeys(all, cutoff) <==> k in items && StartsWith(k, Prefix) && Expired(items[k], cutoff)
  {
    var p := Namespaced(all);
    var x := ExpiredEntries(p, cutoff);
    NamespacedOfEnumeration(all, items);
    forall k ensures k in KeysOf(x) <==> k in items && StartsWith(k, Prefix) && Expired(items[k], cutoff) {
      if k in KeysOf(x) {
        var i :| 0 <= i < |x| && x[i].0 == k;
        assert x[i] in p;
      }
      if k in items && StartsWith(k, Prefix) && Expired(items[k], cutoff) {
        assert k in KeysOf(p);
        var j :| 0 <= j < |p| && p[j].0 == k;
        assert p[j] in x;
        var i :| 0 <= i < |x| && x[i] == p[j];
      }
    }
  }

  /** The sorted namespaced entries carry each namespaced key of the store once. */
  lemma SortedKeys(all: seq<Entry>, items: map<string, Record>)
    requires Enumerates(all, items)
    ensures DistinctKeys(NewestFirst(Namespaced(all)))
    ensures KeysOf(NewestFirst(Namespaced(all))) == NamespacedKeys(items)
  {
    var p := Namespaced(all);
    NamespacedOfEnumeration(all, items);
    NewestFirstSameElements(p);
    NewestFirstDistinct(p);
    KeysOfSameElements(NewestFirst(p), p);
  }

  lemma SortedOfEnumeration(all: seq<Entry>, items: map<string, Record>)
    requires Enumerates(all, items)
    ensures DistinctKeys(NewestFirst(Namespaced(all)))
    ensures NewestFirstOrder(NewestFirst(Namespaced(all)))
    ensures KeysOf(NewestFirst(Namespaced(all))) == NamespacedKeys(items)
    ensures |NewestFirst(Namespaced(all))| == |NamespacedKeys(items)|
    ensures forall i :: 0 <= i < |NewestFirst(Namespaced(all))| ==>
              NewestFirst(Namespaced(all))[i].0 in items &&
              items[NewestFirst(Namespaced(all))[i].0] == NewestFirst(Namespaced(all))[i].1
  {
    var p := Namespaced(all);
    var s := NewestFirst(p);
    NamespacedOfEnumeration(all, items);
    NewestFirstSameElements(p);
    NewestFirstDistinct(p);
    NewestFirstOrdered(p);
    KeysOfSameElements(s, p);
    forall i | 0 <= i < |s| ensures s[i].0 in items && items[s[i].0] == s[i].1 {
      assert s[i] in p;
    }
  }

  /** The size step removes only namespaced keys. */
  lemma OverflowKeysNamespaced(all: seq<Entry>, items: map<string, Record>, maxEntries: int)
    requires Enumerates(all, items)
    ensures OverflowKeys(all, maxEntries) <= NamespacedKeys(items)
  {
    var s := NewestFirst(Namespaced(all));
    SortedOfEnumeration(all, items);
    var o := Slice(s, maxEntries);
    assert o == s[|s| - |o|..];
    KeysSplit(s, |s| - |o|);
  }

  lemma KeyIndex(s: seq<Entry>, k: string) returns (i: int)
    requires k in KeysOf(s)
    ensures 0 <= i < |s| && s[i].0 == k
  {
    i :| 0 <= i < |s| && s[i].0 == k;
  }

  /** Cutting a sequence with distinct keys splits its keys into two disjoint sets. */
  lemma KeysSplit(s: seq<Entry>, q: int)
    requires DistinctKeys(s) && 0 <= q <= |s|
    ensures KeysOf(s) == KeysOf(s[..q]) + KeysOf(s[q..])
    ensures KeysOf(s[..q]) !! KeysOf(s[q..])
    ensures |KeysOf(s[..q])| == q
  {
    assert s == s[..q] + s[q..];
    KeysOfAppend(s[..q], s[q..]);
    forall k | k in KeysOf(s[..q]) ensures k !in KeysOf(s[q..]) {
      var i := KeyIndex(s[..q], k);
      assert s[..q][i] == s[i];
      forall j | 0 <= j < |s[q..]| ensures s[q..][j].0 != k {
        assert s[q..][j] == s[q + j];
      }
    }
    assert DistinctKeys(s[..q]) by {
      forall i, j | 0 <= i < j < q ensures s[..q][i].0 != s[..q][j].0 {
        assert s[..q][i] == s[i] && s[..q][j] == s[j];
      }
    }
    KeysOfCard(s[..q]);
  }

  /** The namespaced keys left by a pass are those not removed by either step. */
  lemma NamespacedKeysCleaned(items: map<string, Record>, all: seq<Entry>, cutoff: int, maxEntries: int)
    ensures NamespacedKeys(Cleaned(items, all, cutoff, maxEntries)) ==
            NamespacedKeys(items) - ExpiredKeys(all, cutoff) - OverflowKeys(all, maxEntries)
  {
  }

  // ----- what one pass guarantees -----

  /** The pass only removes entries, and never one outside the `summary_` namespace. */
  lemma CleanupOnlyNamespace(items: map<string, Record>, all: seq<Entry>, cutoff: int, maxEntries: int)
    requires Enumerates(all, items)
    ensures forall k :: k in Cleaned(items, all, cutoff, maxEntries) ==> k in items && Cleaned(items, all, cutoff, maxEntries)[k] == items[k]
    ensures forall k :: k in items && !StartsWith(k, Prefix) ==>
              k in Cleaned(items, all, cutoff, maxEntries) && Cleaned(items, all, cutoff, maxEntries)[k] == items[k]
  {
    ExpiredKeysExact(all, items, cutoff);
    OverflowKeysNamespaced(all, items, maxEntries);
  }

  /** Every namespaced entry whose time stamp is set and older than the cutoff is gone. */
  lemma CleanupRemovesExpired(items: map<string, Record>, all: seq<Entry>, cutoff: int, maxEntries: int, k: string)
    requires Enumerates(all, items)
    requires k in items && StartsWith(k, Prefix) && Expired(items[k], cutoff)
    ensures k !in Cleaned(items, all, cutoff, maxEntries)
  {
    ExpiredKeysExact(all, items, cutoff);
  }

  /**
   * When the namespace held at most `maxEntries` entries before the pass, only
   * the age step removes anything: exactly the expired namespaced entries go,
   * and entries with a missing or zero time stamp stay.
   */
  lemma CleanupWithoutOverflow(items: map<string, Record>, all: seq<Entry>, cutoff: int, maxEntries: int)
    requires Enumerates(all, items)
    requires |NamespacedKeys(items)| <= maxEntries
    ensures forall k :: k in Cleaned(items, all, cutoff, maxEntries) <==>
              k in items && !(StartsWith(k, Prefix) && Expired(items[k], cutoff))
  {
    ExpiredKeysExact(all, items, cutoff);
    NamespacedOfEnumeration(all, items);
  }

  /** After one pass at most `maxEntries` namespaced entries remain. */
  lemma CleanupBound(items: map<string, Record>, all: seq<Entry>, cutoff: int, maxEntries: int)
    requires Enumerates(all, items) && maxEntries >= 0
    ensures |NamespacedKeys(Cleaned(items, all, cutoff, maxEntries))| <= maxEntries
  {
    var result := Cleaned(items, all, cutoff, maxEntries);
    var p := Namespaced(all);
    var s := NewestFirst(p);
    NamespacedOfEnumeration(all, items);
    SortedOfEnumeration(all, items);
    assert NamespacedKeys(result) <= NamespacedKeys(items);
    if |p| > maxEntries {
      assert Slice(s, maxEntries) == s[maxEntries..];
      assert s == s[..maxEntries] + s[maxEntries..];
      KeysOfAppend(s[..maxEntries], s[maxEntries..]);
      assert NamespacedKeys(result) <= KeysOf(s[..maxEntries]);
      SubsetCard(NamespacedKeys(result), KeysOf(s[..maxEntries]));
      KeysOfCard(s[..maxEntries]);
    } else {
      SubsetCard(NamespacedKeys(result), NamespacedKeys(items));
    }
  }

  /**
   * The size step keeps the newest: a namespaced entry that was removed
   * without having expired is no newer than any namespaced entry that remains.
   */
  lemma CleanupKeepsNewest(items: map<string, Record>, all: seq<Entry>, cutoff: int, maxEntries: int, gone: string, kept: string)
    requires Enumerates(all, items)
    requires gone in items && StartsWith(gone, Prefix) && !Expired(items[gone], cutoff)
    requires gone !in Cleaned(items, all, cutoff, maxEntries)
    requires kept in Cleaned(items, all, cutoff, maxEntries) && StartsWith(kept, Prefix)
    ensures items[kept].ts >= items[gone].ts
  {
    var s := NewestFirst(Namespaced(all));
    ExpiredKeysExact(all, items, cutoff);
    SortedOfEnumeration(all, items);
    assert gone in OverflowKeys(all, maxEntries);
    var o := Slice(s, maxEntries);
    var q := |s| - |o|;
    assert o == s[q..];
    KeysSplit(s, q);
    assert kept in NamespacedKeys(items);
    assert kept !in KeysOf(s[q..]);
    var j := KeyIndex(s[q..], gone);
    var i := KeyIndex(s[..q], kept);
    assert s[q + j] == s[q..][j];
    assert s[i] == s[..q][i];
  }

  /**
   * When more than `maxEntries` namespaced entries were present and none had
   * expired, exactly `maxEntries` of them remain.
   */
  lemma CleanupOverflowExact(items: map<string, Record>, all: seq<Entry>, cutoff: int, maxEntries: int)
    requires Enumerates(all, items) && maxEntries >= 0
    requires |NamespacedKeys(items)| > maxEntries
    requires forall k :: k in items && StartsWith(k, Prefix) ==> !Expired(items[k], cutoff)
    ensures |NamespacedKeys(Cleaned(items, all, cutoff, maxEntries))| == maxEntries
  {
    var s := NewestFirst(Namespaced(all));
    SortedKeys(all, items);
    NoneExpired(all, items, cutoff);
    OverflowKeysTail(all, items, maxEntries);
    KeysSplit(s, maxEntries);
    NamespacedKeysCleaned(items, all, cutoff, maxEntries);
    SplitRemainder(NamespacedKeys(items), ExpiredKeys(all, cutoff), KeysOf(s[..maxEntries]), KeysOf(s[maxEntries..]));
  }

  /** Removing nothing and then one part of a disjoint split leaves the other part. */
  lemma SplitRemainder(whole: set<string>, none: set<string>, kept: set<string>, dropped: set<string>)
    requires whole == kept + dropped && kept !! dropped && none == {}
    ensures whole - none - dropped == kept
  {
  }

  /** When no namespaced record is old, the age step removes nothing. */
  lemma NoneExpired(all: seq<Entry>, items: map<string, Record>, cutoff: int)
    requires Enumerates(all, items)
    requires forall k :: k in items && StartsWith(k, Prefix) ==> !Expired(items[k], cutoff)
    ensures ExpiredKeys(all, cutoff) == {}
  {
    ExpiredKeysExact(all, items, cutoff);
  }

  /** Over the limit, the size step removes the keys of the sorted entries past the limit. */
  lemma OverflowKeysTail(all: seq<Entry>, items: map<string, Record>, maxEntries: int)
    requires Enumerates(all, items)
    requires 0 <= maxEntries < |NamespacedKeys(items)|
    ensures |NewestFirst(Namespaced(all))| == |NamespacedKeys(items)|
    ensures OverflowKeys(all, maxEntries) == KeysOf(NewestFirst(Namespaced(all))[maxEntries..])
  {
    var s := NewestFirst(Namespaced(all));
    NamespacedOfEnumeration(all, items);
    NewestFirstSameElements(Namespaced(all));
    assert Slice(s, maxEntries) == s[maxEntries..];
  }

  /**
   * A second pass with the same clock and limit, however the store lists its
   * entries this time, changes nothing.
   */
  lemma CleanupIdempotent(items: map<string, Record>, all: seq<Entry>, all2: seq<Entry>, cutoff: int, maxEntries: int)
    requires Enumerates(all, items) && maxEntries >= 0
    requires Enumerates(all2, Cleaned(items, all, cutoff, maxEntries))
    ensures Cleaned(Cleaned(items, all, cutoff, maxEntries), all2, cutoff, maxEntries) == Cleaned(items, all, cutoff, maxEntries)
  {
    var once := Cleaned(items, all, cutoff, maxEntries);
    CleanupBound(items, all, cutoff, maxEntries);
    CleanupOnlyNamespace(items, all, cutoff, maxEntries);
    CleanupWithoutOverflow(once, all2, cutoff, maxEntries);
    forall k | k in once && StartsWith(k, Prefix) ensures !Expired(once[k], cutoff) {
      if Expired(once[k], cutoff) {
        CleanupRemovesExpired(items, all, cutoff, maxEntries, k);
      }
    }
  }

  // ----- the pass over the store -----

  /** `es.forEach(([k]) => chrome.storage.local.remove(k))` */
  method RemoveEach(storage: LocalStorage, es: seq<Entry>)
    modifies storage
    ensures storage.items == old(storage.items) - KeysOf(es)
  {
    var i := 0;
    while i < |es|
      invariant 0 <= i <= |es|
      invariant storage.items == old(storage.items) - KeysOf(es[..i])
    {
      storage.Remove(es[i].0);
      assert es[..i + 1] == es[..i] + [es[i]];
      KeysOfAppend(es[..i], [es[i]]);
      assert KeysOf([es[i]]) == {es[i].0};
      i := i + 1;
    }
    assert es[..i] == es;
  }

  /**
   * `cleanupOldSummaries(days, maxEntries)` with the clock reading `now`.
   * Without storage it does nothing; otherwise the store ends up as `Cleaned`
   * of its contents under the enumeration `all` it listed them in.
   */
  method CleanupOldSummaries(storage: LocalStorage?, days: int, maxEntries: int, now: int) returns (ghost all: seq<Entry>)
    modifies storage
    ensures storage != null ==> Enumerates(all, old(storage.items))
    ensures storage != null ==> storage.items == Cleaned(old(storage.items), all, Cutoff(now, days), maxEntries)
  {
    if storage == null {
      all := [];
      return;
    }
    var cutoff := Cutoff(now, days);
    var entries := storage.GetAll();
    all := entries;
    var pairs := Namespaced(entries);
    RemoveEach(storage, ExpiredEntries(pairs, cutoff));
    if |pairs| > maxEntries {
      RemoveEach(storage, Slice(NewestFirst(pairs), maxEntries));
    }
  }

  // ----- examples -----

  /**
   * With the default week, a summary stamped eight days ago goes, one stamped
   * yesterday and an unrelated preference stay, whatever the enumeration order.
   */
  lemma DefaultWeekScenario(all: seq<Entry>, now: int, ka: string, kb: string, kt: string,
                             old_: Record, recent: Record, pref: Record)
    requires StartsWith(ka, Prefix) && StartsWith(kb, Prefix) && !StartsWith(kt, Prefix) && ka != kb
    requires old_.ts == now - 8 * MsPerDay && recent.ts == now - MsPerDay && now > 8 * MsPerDay
    requires Enumerates(all, map[ka := old_, kb := recent, kt := pref])
    ensures Cleaned(map[ka := old_, kb := recent, kt := pref], all, Cutoff(now, DefaultDays), DefaultMaxEntries)
            == map[kb := recent, kt := pref]
  {
    var items := map[ka := old_, kb := recent, kt := pref];
    var cutoff := Cutoff(now, DefaultDays);
    assert ka != kt && kb != kt;
    OnlyFirstExpired(all, items, cutoff, ka, kb, kt);
    NamespacedOfEnumeration(all, items);
    assert OverflowKeys(all, DefaultMaxEntries) == {};
    RemoveFirstOfThree(ka, kb, kt, old_, recent, pref);
  }

  /** In a store of two namespaced entries and one foreign one, the age step removes the old namespaced entry alone. */
  lemma OnlyFirstExpired(all: seq<Entry>, items: map<string, Record>, cutoff: int, ka: string, kb: string, kt: string)
    requires items.Keys == {ka, kb, kt} && Enumerates(all, items)
    requires StartsWith(ka, Prefix) && StartsWith(kb, Prefix) && !StartsWith(kt, Prefix)
    requires Expired(items[ka], cutoff) && !Expired(items[kb], cutoff)
    ensures NamespacedKeys(items) == {ka, kb}
    ensures ExpiredKeys(all, cutoff) == {ka}
  {
    ExpiredKeysExact(all, items, cutoff);
  }

  lemma RemoveFirstOfThree(a: string, b: string, c: string, x: Record, y: Record, z: Record)
    requires a != b && a != c
    ensures map[a := x, b := y, c := z] - {a} == map[b := y, c := z]
  {
    var m := map[a := x, b := y, c := z] - {a};
    assert a !in m && b in m && c in m;
    assert m.Keys == {b, c};
  }

  lemma SortAlreadyOrdered(a: Entry, b: Entry, c: Entry)
    requires a.1.ts >= b.1.ts >= c.1.ts
    ensures NewestFirst([a, b, c]) == [a, b, c]
  {
    assert [a, b, c][1..] == [b, c] && [b, c][1..] == [c] && [c][1..] == [];
    assert NewestFirst([c]) == Insert(c, []) == [c];
    assert NewestFirst([b, c]) == Insert(b, [c]) == [b, c];
  }

  /** On a namespaced enumeration already newest first, the size step drops exactly the tail past the limit. */
  lemma OverflowOfOrdered(all: seq<Entry>, maxEntries: int)
    requires Namespaced(all) == all && NewestFirst(all) == all
    requires 0 <= maxEntries < |all|
    ensures OverflowKeys(all, maxEntries) == KeysOf(all[maxEntries..])
  {
    assert Slice(all, maxEntries) == all[maxEntries..];
  }

  /** Of three namespaced entries already newest first, a limit of two marks the last as overflow. */
  lemma OverflowOfThree(x: Entry, y: Entry, z: Entry)
    requires InNamespace(x) && InNamespace(y) && InNamespace(z)
    requires x.1.ts >= y.1.ts >= z.1.ts
    ensures OverflowKeys([x, y, z], 2) == {z.0}
  {
    var all := [x, y, z];
    assert all[0] == x && all[1] == y && all[2] == z;
    NamespacedKeepsAll(all);
    SortAlreadyOrdered(x, y, z);
    OverflowOfOrdered(all, 2);
    assert all[2..] == [z];
    KeysOfSingleton(z);
  }

  /**
   * The size test counts the namespace before the age step: with a limit of
   * two and three entries stamped 100, 5 and never, with the cutoff at 50, the
   * entry stamped 5 expires and the undated one is removed as overflow, although
   * only two entries survive the age step.
   */
  lemma CountTakenBeforeAgePruning(ka: string, kb: string, kc: string, a: Record, b: Record, c: Record)
    requires StartsWith(ka, Prefix) && StartsWith(kb, Prefix) && StartsWith(kc, Prefix)
    requires ka != kb && kb != kc && ka != kc
    requires a.ts == 100 && b.ts == 5 && c.ts == 0
    ensures var items := map[ka := a, kb := b, kc := c];
            var all := [(ka, a), (kb, b), (kc, c)];
            && Enumerates(all, items)
            && |NamespacedKeys(items) - ExpiredKeys(all, 50)| == 2
            && !Expired(c, 50)
            && Cleaned(items, all, 50, 2) == map[ka := a]
  {
    var items := map[ka := a, kb := b, kc := c];
    var all := [(ka, a), (kb, b), (kc, c)];
    ThreeEnumerate(ka, kb, kc, a, b, c);
    ThreeExpired(ka, kb, kc, a, b, c);
    OverflowOfThree((ka, a), (kb, b), (kc, c));
    assert NamespacedKeys(items) - ExpiredKeys(all, 50) == {ka, kc};
    assert Cleaned(items, all, 50, 2) == items - {kb} - {kc};
  }

  /** Three entries with distinct keys enumerate the store they make up. */
  lemma ThreeEnumerate(ka: string, kb: string, kc: string, a: Record, b: Record, c: Record)
    requires ka != kb && kb != kc && ka != kc
    ensures Enumerates([(ka, a), (kb, b), (kc, c)], map[ka := a, kb := b, kc := c])
  {
    var all := [(ka, a), (kb, b), (kc, c)];
    assert all[0].0 == ka && all[1].0 == kb && all[2].0 == kc;
  }

  /** Of records stamped 100, 5 and 0, only the one stamped 5 is older than 50. */
  lemma ThreeExpired(ka: string, kb: string, kc: string, a: Record, b: Record, c: Record)
    requires StartsWith(ka, Prefix) && StartsWith(kb, Prefix) && StartsWith(kc, Prefix)
    requires ka != kb && kb != kc && ka != kc
    requires a.ts == 100 && b.ts == 5 && c.ts == 0
    ensures NamespacedKeys(map[ka := a, kb := b, kc := c]) == {ka, kb, kc}
    ensures ExpiredKeys([(ka, a), (kb, b), (kc, c)], 50) == {kb}
  {
    var items := map[ka := a, kb := b, kc := c];
    ThreeEnumerate(ka, kb, kc, a, b, c);
    ExpiredKeysExact([(ka, a), (kb, b), (kc, c)], items, 50);
    assert items.Keys == {ka, kb, kc};
  }

}
