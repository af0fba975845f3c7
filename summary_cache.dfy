/**
 * The summary cache shared by the popup and the page overlay: the key policy
 * (`summary_` followed by the exact page URL), the stored record, and
 * `chrome.storage.local` as an in-memory map whose get, set, remove and
 * list-all are each one atomic step.
 */
module SummaryCache {
  import opened Wrappers
  import opened Strings
  import opened Links

  /** The namespace that marks this extension's entries in the store. */
  const Prefix := "summary_"

  /** `{ summary, links, ts }`: an absent `links` is [] and an absent `ts` is 0, as the readers treat them. */
  datatype Record = Record(summary: string, links: seq<Link>, ts: int)

  /** `summary_${url}`: the URL is used verbatim, without normalisation. */
  function SummaryKey(url: string): (key: string)
    ensures StartsWith(key, Prefix)
    ensures |key| == |Prefix| + |url| && key[|Prefix|..] == url
  {
    Prefix + url
  }

  /** The URL a namespaced key was derived from. */
  function UrlOfKey(key: string): (url: string)
    requires StartsWith(key, Prefix)
    ensures |url| == |key| - |Prefix|
  {
    key[|Prefix|..]
  }

  /** Deriving a key and reading the URL back gives the URL. */
  lemma UrlOfKeyRoundTrip(url: string)
    ensures UrlOfKey(SummaryKey(url)) == url
  {
  }

  /** Every namespaced key is the key of exactly the URL that follows the prefix. */
  lemma SummaryKeyOfUrl(key: string)
    requires StartsWith(key, Prefix)
    ensures SummaryKey(UrlOfKey(key)) == key
  {
    assert key == key[..|Prefix|] + key[|Prefix|..];
  }

  /** Two URLs share a key exactly when they are the same URL. */
  lemma SummaryKeyInjective(u1: string, u2: string)
    ensures SummaryKey(u1) == SummaryKey(u2) <==> u1 == u2
  {
    UrlOfKeyRoundTrip(u1);
    UrlOfKeyRoundTrip(u2);
  }

  /** `res[key] || null` over the store's contents. */
  function Lookup(items: map<string, Record>, key: string): Option<Record>
  {
    if key in items then Some(items[key]) else None
  }

  /** The record `saveSummaryToCache` writes, stamped with `Date.now()`. */
  function Stamped(summary: string, links: seq<Link>, now: int): Record
  {
    Record(summary, links, now)
  }

  /** The store after `saveSummaryToCache(url, summary, links)` at time `now`. */
  function Saved(items: map<string, Record>, url: string, summary: string, links: seq<Link>, now: int): map<string, Record>
  {
    items[SummaryKey(url) := Stamped(summary, links, now)]
  }

  /** Reading right after a write returns the written summary, links and time stamp. */
  lemma SaveThenGet(items: map<string, Record>, url: string, summary: string, links: seq<Link>, now: int)
    ensures Lookup(Saved(items, url, summary, links, now), SummaryKey(url)) == Some(Record(summary, links, now))
  {
  }

  /** Last write wins: a second save for the same URL replaces the first entirely. */
  lemma LastWriteWins(items: map<string, Record>, url: string, s1: string, l1: seq<Link>, t1: int,
                      s2: string, l2: seq<Link>, t2: int)
    ensures Saved(Saved(items, url, s1, l1, t1), url, s2, l2, t2) == Saved(items, url, s2, l2, t2)
  {
  }

  /** A save for one URL leaves the record of every other URL, and every other key, as it was. */
  lemma SaveIsolated(items: map<string, Record>, url: string, summary: string, links: seq<Link>, now: int, key: string)
    requires key != SummaryKey(url)
    ensures Lookup(Saved(items, url, summary, links, now), key) == Lookup(items, key)
  {
  }

  /** A save for one URL is invisible to a read for any other URL. */
  lemma SaveOtherUrl(items: map<string, Record>, url: string, summary: string, links: seq<Link>, now: int, other: string)
    requires other != url
    ensures Lookup(Saved(items, url, summary, links, now), SummaryKey(other)) == Lookup(items, SummaryKey(other))
  {
    SummaryKeyInjective(url, other);
  }

  /** The keys of an enumeration of store entries. */
  function KeysOf(all: seq<(string, Record)>): set<string>
  {
    set i | 0 <= i < |all| :: all[i].0
  }

  /** `all` lists every entry of `items` once, in some order. */
  ghost predicate Enumerates(all: seq<(string, Record)>, items: map<string, Record>)
  {
    && (forall i, j :: 0 <= i < j < |all| ==> all[i].0 != all[j].0)
    && (forall i :: 0 <= i < |all| ==> all[i].0 in items && items[all[i].0] == all[i].1)
    && KeysOf(all) == items.Keys
  }

  /** `chrome.storage.local`: one extension-wide key-value store. */
  class LocalStorage {
    var items: map<string, Record>

    constructor (initial: map<string, Record>)
      ensures items == initial
    {
      items := initial;
    }

    /** `get(key, cb)`: the stored value, or nothing for a missing key. */
    method Get(key: string) returns (r: Option<Record>)
      ensures r == Lookup(items, key)
    {
      r := if key in items then Some(items[key]) else None;
    }

    /** `set({[key]: value})`: overwrites. */
    method Set(key: string, value: Record)
      modifies this
      ensures items == old(items)[key := value]
    {
      items := items[key := value];
    }

    /** `remove(key)`: removing a missing key does nothing. */
    method Remove(key: string)
      modifies this
      ensures items == old(items) - {key}
    {
      items := items - {key};
    }

    /** `get(null, cb)`: every entry, in the store's own enumeration order. */
    method GetAll() returns (all: seq<(string, Record)>)
      ensures Enumerates(all, items)
    {
      all := [];
      var rest := items.Keys;
      while rest != {}
        invariant rest <= items.Keys
        invariant forall i, j :: 0 <= i < j < |all| ==> all[i].0 != all[j].0
        invariant forall i :: 0 <= i < |all| ==> all[i].0 in items && items[all[i].0] == all[i].1
        invariant KeysOf(all) == items.Keys - rest
        decreases rest
      {
        var k :| k in rest;
        assert k !in KeysOf(all);
        ghost var prev := all;
        all := all + [(k, items[k])];
        assert KeysOf(all) == KeysOf(prev) + {k} by {
          forall x | x in KeysOf(all) ensures x in KeysOf(prev) + {k} {
            var i :| 0 <= i < |all| && all[i].0 == x;
            if i < |prev| { assert prev[i] == all[i]; }
          }
          forall x | x in KeysOf(prev) ensures x in KeysOf(all) {
            var i :| 0 <= i < |prev| && prev[i].0 == x;
            assert all[i] == prev[i];
          }
          assert all[|prev|].0 == k;
        }
        rest := rest - {k};
      }
    }
  }
}
