/**
 * The decisions the lesson view takes from its props: whether to scroll the
 * newest text into view, which status indicators to show, and the language
 * label of a code block, which the view finds with the regular expression
 * `language-(\w+)` in the block's class name.
 */
module LessonView {

  import opened Wrappers

  /** Auto-scroll only when the reader is less than this far from the bottom. */
  const ScrollThreshold: int := 200

  /** The scroll metrics of the content container, as integers. */
  datatype ScrollMetrics = ScrollMetrics(scrollHeight: int, scrollTop: int, clientHeight: int)

  function DistanceFromBottom(p: ScrollMetrics): int
  {
    p.scrollHeight - p.scrollTop - p.clientHeight
  }

  /**
   * The auto-scroll effect after a content update: only while generating, only
   * when the bottom marker has a parent element, and only when the parent is
   * scrolled to strictly less than the threshold from its bottom.
   */
  function ShouldAutoScroll(isGenerating: bool, parent: Option<ScrollMetrics>): (r: bool)
    ensures r ==> isGenerating && parent.Some?
    ensures r ==> DistanceFromBottom(parent.value) < ScrollThreshold
    ensures isGenerating && parent.Some? && DistanceFromBottom(parent.value) < ScrollThreshold ==> r
  {
    isGenerating && parent.Some? && DistanceFromBottom(parent.value) < ScrollThreshold
  }

  /**
   * The bound is strict, nothing scrolls once generation is over or when the
   * bottom marker has no parent, and a reader closer to the bottom is scrolled too.
   */
  lemma AutoScrollBoundary(p: ScrollMetrics, q: ScrollMetrics, isGenerating: bool)
    ensures DistanceFromBottom(p) == 200 ==> !ShouldAutoScroll(true, Some(p))
    ensures !ShouldAutoScroll(isGenerating, None)
    ensures DistanceFromBottom(p) == 199 ==> ShouldAutoScroll(true, Some(p))
    ensures !ShouldAutoScroll(false, Some(p))
    ensures ShouldAutoScroll(true, Some(p)) && DistanceFromBottom(q) <= DistanceFromBottom(p) ==> ShouldAutoScroll(true, Some(q))
  {
  }

  /** The control at the right of the header. */
  datatype HeaderControl = StreamingBadge | RestartButton

  /** The parts of the view that depend on isGenerating, and the markdown handed to the renderer. */
  datatype Indicators = Indicators(status: string, control: HeaderControl, bottomLoader: bool, markdown: string)

  function Indicate(content: string, isGenerating: bool): Indicators
  {
    Indicators(
      if isGenerating then "Generating curriculum..." else "Lesson Complete",
      if isGenerating then StreamingBadge else RestartButton,
      isGenerating,
      content)
  }

  /**
   * While generating: the generating status, the streaming badge and the
   * bottom loader; otherwise the completion status and the restart button,
   * so restart is reachable exactly when not generating. The buffer goes to
   * the renderer unchanged.
   */
  lemma IndicatorsFollowGenerating(content: string, isGenerating: bool)
    ensures Indicate(content, isGenerating).status == (if isGenerating then "Generating curriculum..." else "Lesson Complete")
    ensures Indicate(content, isGenerating).control == RestartButton <==> !isGenerating
    ensures Indicate(content, isGenerating).control == StreamingBadge <==> isGenerating
    ensures Indicate(content, isGenerating).bottomLoader <==> isGenerating
    ensures Indicate(content, isGenerating).markdown == content
    ensures Indicate(content, true).status != Indicate(content, false).status
  {
  }

  /** The regular expression class \w without the unicode flag: ASCII letters, digits and underscore. */
  predicate IsWordChar(c: char)
  {
    ('a' <= c <= 'z') || ('A' <= c <= 'Z') || ('0' <= c <= '9') || c == '_'
  }

  const LanguagePrefix: string := "language-"

  /** The pattern `language-\w` starts at index i of s. */
  predicate MatchesAt(s: string, i: nat)
  {
    i + |LanguagePrefix| < |s| && s[i..i + |LanguagePrefix|] == LanguagePrefix && IsWordChar(s[i + |LanguagePrefix|])
  }

  /** The greedy `\w+` at index j: the longest run of word characters starting there. */
  function WordRun(s: string, j: nat): (r: string)
    requires j <= |s|
    ensures j + |r| <= |s| && r == s[j..j + |r|]
    ensures forall k :: 0 <= k < |r| ==> IsWordChar(r[k])
    ensures j + |r| == |s| || !IsWordChar(s[j + |r|])
    decreases |s| - j
  {
    if j < |s| && IsWordChar(s[j]) then [s[j]] + WordRun(s, j + 1) else ""
  }

  /** The leftmost start at or after i where the pattern matches, as the regex engine scans. */
  function FindMatch(s: string, i: nat): (r: Option<nat>)
    ensures r.Some? ==> i <= r.value && MatchesAt(s, r.value)
    ensures r.Some? ==> forall k :: i <= k < r.value ==> !MatchesAt(s, k)
    ensures r.None? ==> forall k :: i <= k ==> !MatchesAt(s, k)
    decreases |s| - i
  {
    if i >= |s| then None
    else if MatchesAt(s, i) then Some(i)
    else FindMatch(s, i + 1)
  }

  /**
   * The label of a code element: None for inline code; for a block, the first
   * capture group of `language-(\w+)` in the class name (a missing class name
   * read as ""), or "ASCII" when nothing matches.
   */
  function CodeLabel(inline: bool, className: Option<string>): (r: Option<string>)
    ensures inline <==> r.None?
    ensures r.Some? ==> r.value != ""
  {
    if inline then None
    else
      var s := if className.Some? then className.value else "";
      match FindMatch(s, 0)
      case Some(k) => Some(WordRun(s, k + |LanguagePrefix|))
      case None => Some("ASCII")
  }

  /**
   * The label of a block is the maximal word run after the leftmost
   * `language-` that is followed by a word character; when there is none, it
   * is "ASCII".
   */
  lemma BlockLabelIsLeftmostMatch(className: string)
    ensures var r := CodeLabel(false, Some(className)).value;
      (exists i: nat :: MatchesAt(className, i)) ==>
        exists i: nat :: MatchesAt(className, i) && (forall k :: 0 <= k < i ==> !MatchesAt(className, k)) &&
          r == WordRun(className, i + |LanguagePrefix|)
    ensures (forall i: nat :: !MatchesAt(className, i)) ==> CodeLabel(false, Some(className)) == Some("ASCII")
    ensures CodeLabel(false, None) == Some("ASCII")
  {
    var m := FindMatch(className, 0);
    if m.None? {
      assert forall i: nat :: !MatchesAt(className, i);
    }
    assert FindMatch("", 0) == None;
  }

  /** Example: the usual fence class name yields the language. */
  lemma FenceClassLabel()
    ensures CodeLabel(false, Some("language-python")) == Some("python")
  {
    var p := "language-python";
    assert MatchesAt(p, 0);
    assert WordRun(p, 15) == "";
    assert WordRun(p, 12) == "hon";
    assert WordRun(p, 9) == "python";
  }

  /** Example: a prefix with no word character after it does not match, so the label is the fallback. */
  lemma BarePrefixLabel()
    ensures CodeLabel(false, Some("language-")) == Some("ASCII")
  {
  }

  /** Example: the match may start later in the class name, and the run stops at the first non-word character. */
  lemma LaterClassLabel()
    ensures CodeLabel(false, Some("hl language-c++")) == Some("c")
  {
    var c := "hl language-c++";
    assert c[0..9][0] == 'h' && c[1..10][1] == ' ' && c[2..11][0] == ' ';
    assert !MatchesAt(c, 0) && !MatchesAt(c, 1) && !MatchesAt(c, 2);
    assert MatchesAt(c, 3);
    assert FindMatch(c, 0) == Some(3);
    assert WordRun(c, 13) == "";
    assert WordRun(c, 12) == "c";
  }
}
