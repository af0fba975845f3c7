/**
 * External-link filtering of the popup (`isExternalLink`, `extractExternalLinks`)
 * and of the script it injects into the page. The DOM is abstracted to the
 * sequence of `<a href>` elements of the assignment, in document order.
 */
module Links {
  import opened Strings

  /** One `<a href>` element: its href, its text and its title (an absent title is ""). */
  datatype Anchor = Anchor(href: string, text: string, title: string)

  /** A link as stored in the cache and listed in the popup: `{url, text, title}`. */
  datatype Link = Link(url: string, text: string, title: string)

  /** Substrings that mark an href as internal to the learning platform. */
  const InternalPatterns: seq<string> := [
    "/courses/", "/modules/", "/assignments/", "/discussion_topics/", "/quizzes/", "/gradebook/",
    "/calendar/", "/groups/", "/users/", "#", "mailto:", "tel:"
  ]

  /** `isExternalLink(href)` */
  predicate IsExternalLink(href: string)
  {
    if href == "" then false
    else if ContainsAny(href, InternalPatterns) then false
    else StartsWith(href, "http://") || StartsWith(href, "https://") || (Contains(href, ".") && !StartsWith(href, "/"))
  }

  /**
   * An href is external exactly when it is non-empty, contains none of the
   * internal patterns, and either has an http(s) scheme or contains a dot
   * without starting with a slash.
   */
  lemma IsExternalLinkIff(href: string)
    ensures IsExternalLink(href) <==>
      && href != ""
      && (forall i :: 0 <= i < |InternalPatterns| ==> !Contains(href, InternalPatterns[i]))
      && (StartsWith(href, "http://") || StartsWith(href, "https://") || ('.' in href && !StartsWith(href, "/")))
  {
    ContainsChar(href, '.');
  }

  /** A fragment, mail or phone link is never external, whatever else it contains. */
  lemma FragmentsAreInternal(href: string)
    requires '#' in href || Contains(href, "mailto:") || Contains(href, "tel:")
    ensures !IsExternalLink(href)
  {
    ContainsChar(href, '#');
    assert InternalPatterns[9] == "#" && InternalPatterns[10] == "mailto:" && InternalPatterns[11] == "tel:";
  }

  /**
   * A link into the platform's own course pages is not external, even with an
   * http(s) scheme, for instance `https://school.instructure.com/courses/1`.
   */
  lemma CourseLinkIsInternal(href: string)
    requires Contains(href, "/courses/")
    ensures !IsExternalLink(href)
  {
    assert Contains(href, InternalPatterns[0]);
  }

  /** A site-relative path is not external: it has no scheme and starts with a slash. */
  lemma RelativePathIsInternal(href: string)
    requires StartsWith(href, "/")
    ensures !IsExternalLink(href)
  {
    assert href[0] == '/';
  }

  /** The entry recorded for an anchor: its text, trimmed, falls back to the href. */
  function LinkOf(a: Anchor): Link
  {
    Link(a.href, if Trim(a.text) == "" then a.href else Trim(a.text), a.title)
  }

  predicate HasUrl(links: seq<Link>, url: string)
  {
    exists k :: 0 <= k < |links| && links[k].url == url
  }

  predicate HasHref(anchors: seq<Anchor>, href: string)
  {
    exists j :: 0 <= j < |anchors| && anchors[j].href == href
  }

  /** The position of the first anchor whose href is `href`. */
  function FirstIndex(anchors: seq<Anchor>, href: string): (j: nat)
    requires HasHref(anchors, href)
    ensures j < |anchors| && anchors[j].href == href
    ensures forall i :: 0 <= i < j ==> anchors[i].href != href
  {
    if anchors[0].href == href then 0
    else
      assert HasHref(anchors[1..], href) by {
        var j :| 0 <= j < |anchors| && anchors[j].href == href;
        assert anchors[1..][j - 1] == anchors[j];
      }
      1 + FirstIndex(anchors[1..], href)
  }

  /** The first anchor of a prefix with a given href is the first anchor of the whole sequence with it. */
  lemma FirstIndexPrefix(anchors: seq<Anchor>, n: nat, href: string)
    requires n <= |anchors| && HasHref(anchors[..n], href)
    ensures HasHref(anchors, href)
    ensures FirstIndex(anchors[..n], href) == FirstIndex(anchors, href)
  {
    var j := FirstIndex(anchors[..n], href);
    assert anchors[j] == anchors[..n][j];
  }

  /** Every entry of `r` is external. */
  ghost predicate AllExternal(r: seq<Link>)
  {
    forall k :: 0 <= k < |r| ==> IsExternalLink(r[k].url)
  }

  /** No two entries of `r` share a URL. */
  ghost predicate DistinctUrls(r: seq<Link>)
  {
    forall k1, k2 :: 0 <= k1 < k2 < |r| ==> r[k1].url != r[k2].url
  }

  /** Each entry of `r` is the entry of the first anchor with its URL. */
  ghost predicate FromFirstAnchors(anchors: seq<Anchor>, r: seq<Link>)
  {
    forall k :: 0 <= k < |r| ==> HasHref(anchors, r[k].url) && r[k] == LinkOf(anchors[FirstIndex(anchors, r[k].url)])
  }

  /** The entries of `r` follow the order of their first anchors. */
  ghost predicate InAnchorOrder(anchors: seq<Anchor>, r: seq<Link>)
    requires FromFirstAnchors(anchors, r)
  {
    forall k1, k2 :: 0 <= k1 < k2 < |r| ==> FirstIndex(anchors, r[k1].url) < FirstIndex(anchors, r[k2].url)
  }

  /**
   * Every entry of `r` is external, no two entries share a URL, each entry is
   * the entry of the first anchor with its URL, and the entries follow the
   * order of those first anchors.
   */
  ghost predicate Sound(anchors: seq<Anchor>, r: seq<Link>)
  {
    AllExternal(r) && DistinctUrls(r) && FromFirstAnchors(anchors, r) && InAnchorOrder(anchors, r)
  }

  /** Every external anchor has an entry with its URL in `r`. */
  ghost predicate Complete(anchors: seq<Anchor>, r: seq<Link>)
  {
    forall j :: 0 <= j < |anchors| && IsExternalLink(anchors[j].href) ==> HasUrl(r, anchors[j].href)
  }

  /**
   * What `extractExternalLinks` collects from the anchors of an element: the
   * external anchors, one entry per URL, the first occurrence winning.
   * Defined on the last anchor so that it follows the `forEach` loop.
   */
  function ExternalLinks(anchors: seq<Anchor>): seq<Link>
    decreases |anchors|
  {
    if anchors == [] then []
    else
      var n := |anchors| - 1;
      Step(ExternalLinks(anchors[..n]), anchors[n])
  }

  /** `extractExternalLinks` keeps exactly the external anchors, once per URL, in first-occurrence order. */
  lemma {:induction false} ExternalLinksCorrect(anchors: seq<Anchor>)
    ensures Sound(anchors, ExternalLinks(anchors)) && Complete(anchors, ExternalLinks(anchors))
    decreases |anchors|
  {
    if anchors != [] {
      var n := |anchors| - 1;
      ExternalLinksCorrect(anchors[..n]);
      ExternalLinksStep(anchors, ExternalLinks(anchors[..n]));
    }
  }

  /** The result of one step of `extractExternalLinks`'s loop, for the anchor at the end. */
  function Step(acc: seq<Link>, a: Anchor): seq<Link>
  {
    if IsExternalLink(a.href) && !HasUrl(acc, a.href) then acc + [LinkOf(a)] else acc
  }

  /** The entries collected from a prefix keep their first anchors in the longer sequence. */
  lemma SoundExtend(anchors: seq<Anchor>, acc: seq<Link>)
    requires |anchors| > 0 && Sound(anchors[..|anchors| - 1], acc)
    ensures Sound(anchors, acc)
    ensures forall k :: 0 <= k < |acc| ==> FirstIndex(anchors, acc[k].url) < |anchors| - 1
  {
    ExtendFromFirstAnchors(anchors, acc);
    ExtendInAnchorOrder(anchors, acc);
    assert AllExternal(acc) && DistinctUrls(acc);
  }

  lemma ExtendFromFirstAnchors(anchors: seq<Anchor>, acc: seq<Link>)
    requires |anchors| > 0 && FromFirstAnchors(anchors[..|anchors| - 1], acc)
    ensures FromFirstAnchors(anchors, acc)
    ensures forall k :: 0 <= k < |acc| ==>
              FirstIndex(anchors, acc[k].url) == FirstIndex(anchors[..|anchors| - 1], acc[k].url) < |anchors| - 1
  {
    var n := |anchors| - 1;
    forall k | 0 <= k < |acc|
      ensures HasHref(anchors, acc[k].url)
      ensures FirstIndex(anchors, acc[k].url) == FirstIndex(anchors[..n], acc[k].url) < n
      ensures acc[k] == LinkOf(anchors[FirstIndex(anchors, acc[k].url)])
    {
      EntryExtend(anchors, n, acc[k]);
    }
  }

  /** An entry of the first `n` anchors' first anchor is the entry of the whole sequence's first anchor. */
  lemma EntryExtend(anchors: seq<Anchor>, n: nat, x: Link)
    requires n <= |anchors| && HasHref(anchors[..n], x.url)
    requires x == LinkOf(anchors[..n][FirstIndex(anchors[..n], x.url)])
    ensures HasHref(anchors, x.url)
    ensures FirstIndex(anchors, x.url) == FirstIndex(anchors[..n], x.url) < n
    ensures x == LinkOf(anchors[FirstIndex(anchors, x.url)])
  {
    FirstIndexPrefix(anchors, n, x.url);
    var j := FirstIndex(anchors[..n], x.url);
    assert anchors[..n][j] == anchors[j];
  }

  lemma ExtendInAnchorOrder(anchors: seq<Anchor>, acc: seq<Link>)
    requires |anchors| > 0
    requires FromFirstAnchors(anchors[..|anchors| - 1], acc) && InAnchorOrder(anchors[..|anchors| - 1], acc)
    requires FromFirstAnchors(anchors, acc)
    requires forall k :: 0 <= k < |acc| ==> FirstIndex(anchors, acc[k].url) == FirstIndex(anchors[..|anchors| - 1], acc[k].url)
    ensures InAnchorOrder(anchors, acc)
  {
  }

  /** Appending an entry with a new URL whose first anchor comes after all others keeps `Sound`. */
  lemma SoundSnoc(anchors: seq<Anchor>, acc: seq<Link>, l: Link)
    requires Sound(anchors, acc)
    requires IsExternalLink(l.url) && !HasUrl(acc, l.url)
    requires HasHref(anchors, l.url) && l == LinkOf(anchors[FirstIndex(anchors, l.url)])
    requires forall k :: 0 <= k < |acc| ==> FirstIndex(anchors, acc[k].url) < FirstIndex(anchors, l.url)
    ensures Sound(anchors, acc + [l])
  {
    SnocAllExternal(acc, l);
    SnocDistinctUrls(acc, l);
    SnocFromFirstAnchors(anchors, acc, l);
    SnocInAnchorOrder(anchors, acc, l);
  }

  lemma SnocAllExternal(acc: seq<Link>, l: Link)
    requires AllExternal(acc) && IsExternalLink(l.url)
    ensures AllExternal(acc + [l])
  {
    var r := acc + [l];
    forall k | 0 <= k < |r| ensures IsExternalLink(r[k].url) {
      if k < |acc| {
        assert r[k] == acc[k];
      }
    }
  }

  lemma SnocDistinctUrls(acc: seq<Link>, l: Link)
    requires DistinctUrls(acc) && !HasUrl(acc, l.url)
    ensures DistinctUrls(acc + [l])
  {
    var r := acc + [l];
    forall k1, k2 | 0 <= k1 < k2 < |r| ensures r[k1].url != r[k2].url {
      assert r[k1] == acc[k1];
      if k2 == |acc| {
        assert acc[k1].url != l.url;
      } else {
        assert r[k2] == acc[k2];
      }
    }
  }

  lemma SnocFromFirstAnchors(anchors: seq<Anchor>, acc: seq<Link>, l: Link)
    requires FromFirstAnchors(anchors, acc)
    requires HasHref(anchors, l.url) && l == LinkOf(anchors[FirstIndex(anchors, l.url)])
    ensures FromFirstAnchors(anchors, acc + [l])
  {
    var r := acc + [l];
    forall k | 0 <= k < |r|
      ensures HasHref(anchors, r[k].url) && r[k] == LinkOf(anchors[FirstIndex(anchors, r[k].url)])
    {
      if k < |acc| {
        assert r[k] == acc[k];
      }
    }
  }

  lemma SnocInAnchorOrder(anchors: seq<Anchor>, acc: seq<Link>, l: Link)
    requires FromFirstAnchors(anchors, acc) && InAnchorOrder(anchors, acc)
    requires HasHref(anchors, l.url) && l == LinkOf(anchors[FirstIndex(anchors, l.url)])
    requires forall k :: 0 <= k < |acc| ==> FirstIndex(anchors, acc[k].url) < FirstIndex(anchors, l.url)
    ensures FromFirstAnchors(anchors, acc + [l]) && InAnchorOrder(anchors, acc + [l])
  {
    var r := acc + [l];
    SnocFromFirstAnchors(anchors, acc, l);
    forall k1, k2 | 0 <= k1 < k2 < |r|
      ensures FirstIndex(anchors, r[k1].url) < FirstIndex(anchors, r[k2].url)
    {
      assert r[k1] == acc[k1];
      if k2 < |acc| {
        assert r[k2] == acc[k2];
      }
    }
  }

  /** Appending the entry of a new external URL keeps the result sound and complete. */
  lemma StepAppends(anchors: seq<Anchor>, acc: seq<Link>)
    requires |anchors| > 0
    requires Sound(anchors[..|anchors| - 1], acc) && Complete(anchors[..|anchors| - 1], acc)
    requires IsExternalLink(anchors[|anchors| - 1].href) && !HasUrl(acc, anchors[|anchors| - 1].href)
    ensures Sound(anchors, acc + [LinkOf(anchors[|anchors| - 1])])
    ensures Complete(anchors, acc + [LinkOf(anchors[|anchors| - 1])])
  {
    var n := |anchors| - 1;
    var init := anchors[..n];
    var a := anchors[n];
    SoundExtend(anchors, acc);
    assert HasHref(anchors, a.href) by { assert anchors[n].href == a.href; }
    assert FirstIndex(anchors, a.href) == n;
    SoundSnoc(anchors, acc, LinkOf(a));
    CompleteSnoc(anchors, acc);
  }

  lemma CompleteSnoc(anchors: seq<Anchor>, acc: seq<Link>)
    requires |anchors| > 0 && Complete(anchors[..|anchors| - 1], acc)
    ensures Complete(anchors, acc + [LinkOf(anchors[|anchors| - 1])])
  {
    var n := |anchors| - 1;
    var r := acc + [LinkOf(anchors[n])];
    forall j | 0 <= j < |anchors| && IsExternalLink(anchors[j].href)
      ensures HasUrl(r, anchors[j].href)
    {
      if j < n {
        assert anchors[..n][j] == anchors[j];
        var k :| 0 <= k < |acc| && acc[k].url == anchors[j].href;
        assert r[k] == acc[k];
      } else {
        assert r[|acc|].url == anchors[j].href;
      }
    }
  }

  /** Skipping an internal link or a URL already collected keeps the result sound and complete. */
  lemma StepSkips(anchors: seq<Anchor>, acc: seq<Link>)
    requires |anchors| > 0
    requires Sound(anchors[..|anchors| - 1], acc) && Complete(anchors[..|anchors| - 1], acc)
    requires !(IsExternalLink(anchors[|anchors| - 1].href) && !HasUrl(acc, anchors[|anchors| - 1].href))
    ensures Sound(anchors, acc) && Complete(anchors, acc)
  {
    var n := |anchors| - 1;
    SoundExtend(anchors, acc);
    forall j | 0 <= j < |anchors| && IsExternalLink(anchors[j].href)
      ensures HasUrl(acc, anchors[j].href)
    {
      if j < n {
        assert anchors[..n][j] == anchors[j];
      }
    }
  }

  lemma ExternalLinksStep(anchors: seq<Anchor>, acc: seq<Link>)
    requires |anchors| > 0
    requires Sound(anchors[..|anchors| - 1], acc) && Complete(anchors[..|anchors| - 1], acc)
    ensures Sound(anchors, Step(acc, anchors[|anchors| - 1]))
    ensures Complete(anchors, Step(acc, anchors[|anchors| - 1]))
  {
    var a := anchors[|anchors| - 1];
    if IsExternalLink(a.href) && !HasUrl(acc, a.href) {
      StepAppends(anchors, acc);
    } else {
      StepSkips(anchors, acc);
    }
  }

  /** One more anchor of the page is one more step of the scan. */
  lemma ExternalLinksPrefix(anchors: seq<Anchor>, i: nat)
    requires i < |anchors|
    ensures ExternalLinks(anchors[..i + 1]) == Step(ExternalLinks(anchors[..i]), anchors[i])
  {
    var s := anchors[..i + 1];
    assert s[..|s| - 1] == anchors[..i];
  }

  /**
   * The links the injected page script returns: every anchor mapped to its
   * entry, the external ones kept, in document order and without removing
   * duplicates.
   */
  function PageLinks(anchors: seq<Anchor>): seq<Link>
  {
    if anchors == [] then []
    else
      var rest := PageLinks(anchors[1..]);
      if IsExternalLink(anchors[0].href) then [LinkOf(anchors[0])] + rest else rest
  }

  /** The page script keeps no more entries than anchors, only external ones, and every external anchor's entry. */
  lemma PageLinksExternal(anchors: seq<Anchor>)
    ensures |PageLinks(anchors)| <= |anchors|
    ensures AllExternal(PageLinks(anchors))
    ensures forall j :: 0 <= j < |anchors| && IsExternalLink(anchors[j].href) ==> LinkOf(anchors[j]) in PageLinks(anchors)
  {
    PageLinksLength(anchors);
    PageLinksAllExternal(anchors);
    PageLinksComplete(anchors);
  }

  lemma {:induction false} PageLinksLength(anchors: seq<Anchor>)
    ensures |PageLinks(anchors)| <= |anchors|
    decreases |anchors|
  {
    if anchors != [] {
      PageLinksLength(anchors[1..]);
    }
  }

  lemma {:induction false} PageLinksAllExternal(anchors: seq<Anchor>)
    ensures AllExternal(PageLinks(anchors))
    decreases |anchors|
  {
    if anchors != [] {
      PageLinksAllExternal(anchors[1..]);
      var rest := PageLinks(anchors[1..]);
      if IsExternalLink(anchors[0].href) {
        var r := [LinkOf(anchors[0])] + rest;
        forall k | 0 <= k < |r| ensures IsExternalLink(r[k].url) {
          if k > 0 {
            assert r[k] == rest[k - 1];
          }
        }
      }
    }
  }

  lemma {:induction false} PageLinksComplete(anchors: seq<Anchor>)
    ensures forall j :: 0 <= j < |anchors| && IsExternalLink(anchors[j].href) ==> LinkOf(anchors[j]) in PageLinks(anchors)
    decreases |anchors|
  {
    if anchors != [] {
      PageLinksComplete(anchors[1..]);
      forall j | 1 <= j < |anchors| && IsExternalLink(anchors[j].href) ensures LinkOf(anchors[j]) in PageLinks(anchors) {
        assert anchors[j] == anchors[1..][j - 1];
      }
    }
  }
}
