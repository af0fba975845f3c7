/**
 * `extractKeyTopics`: the keywords named in the demonstration summary. It
 * lists the first one or two keywords, in the order of the keyword list, that
 * occur in the lower-cased content, or "academic work" when none occurs.
 */
module Topics {
  import opened Strings

  const Keywords: seq<string> := ["analysis", "research", "writing", "presentation", "project", "essay", "report", "study"]

  const DefaultTopic := "academic work"

  /** `ks.filter(k => lower.includes(k))` */
  function Found(lower: string, ks: seq<string>): (r: seq<string>)
    ensures |r| <= |ks|
    ensures forall k :: k in r <==> k in ks && Contains(lower, k)
  {
    if ks == [] then []
    else
      var rest := Found(lower, ks[1..]);
      assert forall k :: k in ks <==> k == ks[0] || k in ks[1..];
      if Contains(lower, ks[0]) then [ks[0]] + rest else rest
  }

  /** When `ks[i]` and `ks[j]` are the first two patterns that occur, they head the filter, in that order. */
  lemma {:induction false} FoundFirstTwo(lower: string, ks: seq<string>, i: nat, j: nat)
    requires i < j < |ks| && Contains(lower, ks[i]) && Contains(lower, ks[j])
    requires forall m :: 0 <= m < j && m != i ==> !Contains(lower, ks[m])
    ensures |Found(lower, ks)| >= 2 && Found(lower, ks)[0] == ks[i] && Found(lower, ks)[1] == ks[j]
    decreases i
  {
    if i > 0 {
      assert !Contains(lower, ks[0]);
      forall m | 0 <= m < j - 1 && m != i - 1 ensures !Contains(lower, ks[1..][m]) {
        assert ks[1..][m] == ks[m + 1];
      }
      FoundFirstTwo(lower, ks[1..], i - 1, j - 1);
    } else {
      FoundFirst(lower, ks[1..], j - 1);
    }
  }

  /** When `ks[j]` is the first pattern that occurs, it heads the filter. */
  lemma {:induction false} FoundFirst(lower: string, ks: seq<string>, j: nat)
    requires j < |ks| && Contains(lower, ks[j])
    requires forall m :: 0 <= m < j ==> !Contains(lower, ks[m])
    ensures |Found(lower, ks)| >= 1 && Found(lower, ks)[0] == ks[j]
    decreases j
  {
    if j > 0 {
      assert !Contains(lower, ks[0]);
      forall m | 0 <= m < j - 1 ensures !Contains(lower, ks[1..][m]) {
        assert ks[1..][m] == ks[m + 1];
      }
      FoundFirst(lower, ks[1..], j - 1);
    }
  }

  /** `extractKeyTopics(content)` */
  function ExtractKeyTopics(content: string): string
  {
    var found := Found(ToLower(content), Keywords);
    if |found| > 0 then
      assert found[0] in Keywords;
      if 2 <= |found| then
        assert found[1] in Keywords;
        Join(found[..2], " and ")
      else
        Join(found, " and ")
    else
      DefaultTopic
  }

  /** The default topic is named exactly when no keyword occurs in the lower-cased content. */
  lemma KeyTopicsDefault(content: string)
    ensures ExtractKeyTopics(content) == DefaultTopic <==>
            forall i :: 0 <= i < |Keywords| ==> !Contains(ToLower(content), Keywords[i])
  {
    var found := Found(ToLower(content), Keywords);
    if |found| > 0 {
      assert found[0] in Keywords;
      if 2 <= |found| {
        assert found[1] in Keywords;
        assert found[..2] == [found[0], found[1]];
        JoinTwo(found[0], found[1], " and ");
        assert |found[0] + " and " + found[1]| > |DefaultTopic|;
      }
    } else {
      assert forall i :: 0 <= i < |Keywords| ==> Keywords[i] in Keywords;
    }
  }

  /** The topics named are the first two keywords, in list order, that occur in the content. */
  lemma KeyTopicsFirstTwo(content: string, i: nat, j: nat)
    requires i < j < |Keywords|
    requires Contains(ToLower(content), Keywords[i]) && Contains(ToLower(content), Keywords[j])
    requires forall m :: 0 <= m < j && m != i ==> !Contains(ToLower(content), Keywords[m])
    ensures ExtractKeyTopics(content) == Keywords[i] + " and " + Keywords[j]
  {
    var found := Found(ToLower(content), Keywords);
    FoundFirstTwo(ToLower(content), Keywords, i, j);
    TopicsOfTwoOrMore(found);
  }

  /** With two or more keywords found, the topics are the first two joined by " and ". */
  lemma TopicsOfTwoOrMore(found: seq<string>)
    requires |found| >= 2
    ensures Join(found[..2], " and ") == found[0] + " and " + found[1]
  {
    assert found[..2] == [found[0], found[1]];
    JoinTwo(found[0], found[1], " and ");
  }

  /** A single keyword that occurs, when no other does, is the whole topic. */
  lemma KeyTopicsOne(content: string, i: nat)
    requires i < |Keywords| && Contains(ToLower(content), Keywords[i])
    requires forall m :: 0 <= m < |Keywords| && m != i ==> !Contains(ToLower(content), Keywords[m])
    ensures ExtractKeyTopics(content) == Keywords[i]
  {
    var found := Found(ToLower(content), Keywords);
    FoundFirst(ToLower(content), Keywords, i);
    assert |found| == 1 by {
      if |found| >= 2 {
        assert found[1] in Keywords && Contains(ToLower(content), found[1]);
        var m :| 0 <= m < |Keywords| && Keywords[m] == found[1];
        if m == i {
          assert found[0] == found[1];
          NoRepeat(ToLower(content), Keywords);
        }
      }
    }
  }

  /** The keyword list has no repeats, so neither has its filter. */
  lemma NoRepeat(lower: string, ks: seq<string>)
    requires ks == Keywords
    ensures forall a, b :: 0 <= a < b < |Found(lower, ks)| ==> Found(lower, ks)[a] != Found(lower, ks)[b]
  {
    FoundDistinct(lower, ks);
  }

  lemma {:induction false} FoundDistinct(lower: string, ks: seq<string>)
    requires forall a, b :: 0 <= a < b < |ks| ==> ks[a] != ks[b]
    ensures forall a, b :: 0 <= a < b < |Found(lower, ks)| ==> Found(lower, ks)[a] != Found(lower, ks)[b]
  {
    if ks != [] {
      forall a, b | 0 <= a < b < |ks[1..]| ensures ks[1..][a] != ks[1..][b] {
        assert ks[1..][a] == ks[a + 1] && ks[1..][b] == ks[b + 1];
      }
      FoundDistinct(lower, ks[1..]);
      assert ks[0] !in ks[1..] by {
        forall m | 0 <= m < |ks[1..]| ensures ks[1..][m] != ks[0] {
          assert ks[1..][m] == ks[m + 1];
        }
      }
    }
  }
}
