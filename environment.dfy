/**
 * Whether the popup offers summarisation for the active tab
 * (`detectCanvasEnvironment`, `isAssignmentPage`, `checkCanvasEnvironment`).
 * `new URL(...)` is a foreign parser: it appears as its result, the hostname
 * and pathname of the URL, or nothing when it throws.
 */
module Environment {
  import opened Wrappers
  import opened Strings

  /** The parts of a parsed URL that the popup inspects. */
  datatype UrlParts = UrlParts(hostname: string, pathname: string)

  /** Hostname fragments of the learning platforms the extension recognises. */
  const CanvasPatterns: seq<string> := [
    "instructure.com", "canvas.", ".instructure.", "learn.", "lms.", "blackboard.com", "brightspace.com"
  ]

  const AssignmentSegment := "/assignments/"

  const NotCanvasMessage := "Not on a Canvas page"
  const NotAssignmentMessage := "Not on an assignment page"
  const ReadyMessage := "Ready to summarize assignment"

  /** `url || this.activeTabUrl || window.location.href`: the first non-empty candidate. */
  function UrlToParse(url: string, activeTabUrl: string, location: string): (u: string)
    ensures u == url || u == activeTabUrl || u == location
    ensures url != "" ==> u == url
    ensures url == "" && activeTabUrl != "" ==> u == activeTabUrl
    ensures url == "" && activeTabUrl == "" ==> u == location
  {
    if url != "" then url else if activeTabUrl != "" then activeTabUrl else location
  }

  /** `detectCanvasEnvironment`: a URL that does not parse is not a platform page. */
  predicate DetectCanvasEnvironment(parsed: Option<UrlParts>)
  {
    parsed.Some? && ContainsAny(ToLower(parsed.value.hostname), CanvasPatterns)
  }

  /** `isAssignmentPage`: the lower-cased path contains `/assignments/`. */
  predicate IsAssignmentPage(parsed: Option<UrlParts>)
  {
    parsed.Some? && Contains(ToLower(parsed.value.pathname), AssignmentSegment)
  }

  /** What `checkCanvasEnvironment` does with the toggle. */
  datatype ToggleDecision = Enable(message: string) | Disable(message: string)

  /** `checkCanvasEnvironment`: the platform test comes first, then the assignment test. */
  function Decide(parsed: Option<UrlParts>): (d: ToggleDecision)
    ensures d.Enable? <==> DetectCanvasEnvironment(parsed) && IsAssignmentPage(parsed)
    ensures d.Enable? ==> d.message == ReadyMessage
    ensures d.Disable? ==> (d.message == NotCanvasMessage <==> !DetectCanvasEnvironment(parsed))
    ensures d.Disable? ==> (d.message == NotAssignmentMessage <==> DetectCanvasEnvironment(parsed))
  {
    if !DetectCanvasEnvironment(parsed) then Disable(NotCanvasMessage)
    else if !IsAssignmentPage(parsed) then Disable(NotAssignmentMessage)
    else Enable(ReadyMessage)
  }

  /** Lower-casing leaves a string without upper-case ASCII letters as it is. */
  lemma ToLowerUnchanged(s: string)
    requires forall i :: 0 <= i < |s| ==> !('A' <= s[i] <= 'Z')
    ensures ToLower(s) == s
  {
  }

  /**
   * A hostname that contains one of the platform patterns, in any position and
   * with any text around it, is a platform page: the patterns are lower case,
   * so lower-casing the hostname keeps them.
   */
  lemma HostWithPatternRecognised(pre: string, k: nat, post: string, pathname: string)
    requires k < |CanvasPatterns|
    ensures DetectCanvasEnvironment(Some(UrlParts(pre + CanvasPatterns[k] + post, pathname)))
  {
    var p := CanvasPatterns[k];
    PatternsLowerCase(k);
    ToLowerAppend(pre + p, post);
    ToLowerAppend(pre, p);
    ContainsInfix(ToLower(pre), p, ToLower(post));
    assert ToLower(pre + p + post) == ToLower(pre) + p + ToLower(post);
  }

  /** Every platform pattern is already lower case. */
  lemma PatternsLowerCase(k: nat)
    requires k < |CanvasPatterns|
    ensures ToLower(CanvasPatterns[k]) == CanvasPatterns[k]
  {
    ToLowerUnchanged(CanvasPatterns[k]);
  }

  /** A path with an `/assignments/` segment anywhere is an assignment page, whatever its hostname. */
  lemma AssignmentPathRecognised(hostname: string, pre: string, post: string)
    ensures IsAssignmentPage(Some(UrlParts(hostname, pre + AssignmentSegment + post)))
  {
    ToLowerUnchanged(AssignmentSegment);
    ToLowerAppend(pre + AssignmentSegment, post);
    ToLowerAppend(pre, AssignmentSegment);
    ContainsInfix(ToLower(pre), AssignmentSegment, ToLower(post));
  }

  /**
   * An assignment path on a hostname of any recognised platform enables the
   * toggle, for instance `school.instructure.com/courses/1/assignments/2`.
   */
  lemma PlatformAssignmentEnabled(hpre: string, k: nat, hpost: string, ppre: string, ppost: string)
    requires k < |CanvasPatterns|
    ensures Decide(Some(UrlParts(hpre + CanvasPatterns[k] + hpost, ppre + AssignmentSegment + ppost))) == Enable(ReadyMessage)
  {
    HostWithPatternRecognised(hpre, k, hpost, ppre + AssignmentSegment + ppost);
    AssignmentPathRecognised(hpre + CanvasPatterns[k] + hpost, ppre, ppost);
  }

  /** A URL that does not parse never enables the toggle. */
  lemma UnparsableDisabled()
    ensures Decide(None) == Disable(NotCanvasMessage)
  {
  }
}
