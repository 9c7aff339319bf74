/**
 * The two console notes as the host's log renderer applies them to a line
 * of text: EasyAntOutcomeNote colours the whole verdict line, EasyAntTargetNote
 * makes the target name bold. `annotate` adds markup spans to the rendered
 * line and installs no follow-up annotator (it returns null), so each note is
 * modelled by the spans it adds, in the order it adds them.
 */
module ConsoleNotes {
  import opened Wrappers
  import opened Text

  /** One `addMarkup(start, end, startTag, endTag)` call. */
  datatype Markup = Markup(start: nat, end: nat, startTag: string, endTag: string)

  const FailureTag := "<span class=easyant-outcome-failure>"
  const SuccessTag := "<span class=easyant-outcome-success>"
  const SpanEnd := "</span>"
  const TargetTag := "<b class=easyant-target>"
  const BoldEnd := "</b>"
  /** The system property that switches target markup off. */
  const DisabledProperty := "hudson.plugins.easyant.EasyAntTargetNote.disabled"

  /** `EasyAntOutcomeNote.annotate`: two independent substring tests over the whole line. */
  function OutcomeMarkup(text: string): (r: seq<Markup>)
    ensures Markup(0, |text|, FailureTag, SpanEnd) in r <==> Contains(text, "FAIL")
    ensures Markup(0, |text|, SuccessTag, SpanEnd) in r <==> Contains(text, "SUCCESS")
    ensures forall m :: m in r ==> m == Markup(0, |text|, FailureTag, SpanEnd) || m == Markup(0, |text|, SuccessTag, SpanEnd)
    ensures |r| <= 2 && (|r| == 2 ==> r[0].startTag == FailureTag && r[1].startTag == SuccessTag)
  {
    (if Contains(text, "FAIL") then [Markup(0, |text|, FailureTag, SpanEnd)] else [])
    + (if Contains(text, "SUCCESS") then [Markup(0, |text|, SuccessTag, SpanEnd)] else [])
  }

  /** The characters `.` does not match in a java.util.regex pattern compiled without flags. */
  predicate IsRegexLineTerminator(c: char)
  {
    c == '\n' || c == '\r' || c == '\U{0085}' || c == '\U{2028}' || c == '\U{2029}'
  }

  /** `s[i..j]` holds no line terminator, so `.*` can run across it. */
  predicate OnOneLine(s: string, i: nat, j: nat)
    requires i <= j <= |s|
  {
    forall t :: i <= t < j ==> !IsRegexLineTerminator(s[t])
  }

  /** Where the line holding offset `k` starts: just after the last terminator before `k`. */
  function LineStart(s: string, k: nat): (r: nat)
    requires k <= |s|
    ensures r <= k && OnOneLine(s, r, k)
    ensures r == 0 || IsRegexLineTerminator(s[r - 1])
    decreases k
  {
    if k == 0 || IsRegexLineTerminator(s[k - 1]) then k else LineStart(s, k - 1)
  }

  /** Where the line holding offset `k` ends: at the first terminator from `k` on, or at the end. */
  function LineEnd(s: string, k: nat): (r: nat)
    requires k <= |s|
    ensures k <= r <= |s| && OnOneLine(s, k, r)
    ensures r == |s| || IsRegexLineTerminator(s[r])
    decreases |s| - k
  {
    if k == |s| || IsRegexLineTerminator(s[k]) then k else LineEnd(s, k + 1)
  }

  /**
   * `[a, k)` is the match `find()` reports for `.*(?=:)`: a colon follows at
   * `k` and no terminator lies in between; no start before `a` reaches a
   * colon (there is none before `a`, and `a` begins a line); and `.*` is
   * greedy, so every later colon lies beyond a terminator.
   */
  predicate IsTargetToken(text: string, a: nat, k: nat)
  {
    && a <= k < |text| && text[k] == ':'
    && OnOneLine(text, a, k)
    && ':' !in text[..a] && (a == 0 || IsRegexLineTerminator(text[a - 1]))
    && forall j :: k < j < |text| && text[j] == ':' ==> !OnOneLine(text, a, j)
  }

  /** The first match of `.*(?=:)`: from the start of the first colon's line to the last colon on that line. */
  function TargetToken(text: string): (r: Option<Markup>)
    ensures r.None? <==> ':' !in text
    ensures r.Some? ==> IsTargetToken(text, r.value.start, r.value.end)
                        && r.value.startTag == TargetTag && r.value.endTag == BoldEnd
  {
    match IndexOf(text, ':')
    case None => None
    case Some(c) =>
      var a, e := LineStart(text, c), LineEnd(text, c);
      var k := LastColonBefore(text, c, e);
      TargetTokenFound(text, c, a, e, k);
      Some(Markup(a, k, TargetTag, BoldEnd))
  }

  /** The last colon in `text[c..e]`, given the one at `c`: where greedy `.*` backs off to. */
  function LastColonBefore(text: string, c: nat, e: nat): (r: nat)
    requires c < e <= |text| && text[c] == ':'
    ensures c <= r < e && text[r] == ':'
    ensures forall j :: r < j < e ==> text[j] != ':'
    decreases e
  {
    if text[e - 1] == ':' then e - 1 else LastColonBefore(text, c, e - 1)
  }

  lemma OnOneLineJoin(s: string, i: nat, j: nat, k: nat)
    requires i <= j <= k <= |s| && OnOneLine(s, i, j) && OnOneLine(s, j, k)
    ensures OnOneLine(s, i, k)
  {
  }

  /** A terminator inside `s[i..j]` stops `.*`. */
  lemma TerminatorBreaksLine(s: string, i: nat, t: nat, j: nat)
    requires i <= t < j <= |s| && IsRegexLineTerminator(s[t])
    ensures !OnOneLine(s, i, j)
  {
  }

  lemma TargetTokenFound(text: string, c: nat, a: nat, e: nat, k: nat)
    requires a <= c < e <= |text| && text[c] == ':' && ':' !in text[..c]
    requires OnOneLine(text, a, c) && OnOneLine(text, c, e)
    requires a == 0 || IsRegexLineTerminator(text[a - 1])
    requires e == |text| || IsRegexLineTerminator(text[e])
    requires c <= k < e && text[k] == ':' && forall j :: k < j < e ==> text[j] != ':'
    ensures IsTargetToken(text, a, k)
  {
    OnOneLineJoin(text, a, c, e);
    assert ':' !in text[..a] by {
      assert forall t :: 0 <= t < a ==> text[..a][t] == text[..c][t];
    }
    forall j | k < j < |text| && text[j] == ':'
      ensures !OnOneLine(text, a, j)
    {
      if j >= e {
        TerminatorBreaksLine(text, a, e, j);
      }
    }
  }

  /**
   * `EasyAntTargetNote.annotate`: when enabled, the first match of
   * `.*(?=:)` is made bold; without a colon nothing is.
   */
  function TargetMarkup(enabled: bool, text: string): (r: seq<Markup>)
    ensures !enabled ==> r == []
    ensures enabled ==> (r != [] <==> ':' in text)
    ensures |r| <= 1
    ensures forall m :: m in r ==> IsTargetToken(text, m.start, m.end) && m.startTag == TargetTag && m.endTag == BoldEnd
  {
    if !enabled then []
    else match TargetToken(text)
      case None => []
      case Some(m) => [m]
  }

  /** On a single line the span runs from its start to its last colon, the colon left outside. */
  lemma TargetMarkupOnOneLine(text: string)
    requires OnOneLine(text, 0, |text|) && ':' in text
    ensures TargetMarkup(true, text) == [Markup(0, LastIndexOf(text, ':').value, TargetTag, BoldEnd)]
  {
    var m := TargetToken(text).value;
    var last := LastIndexOf(text, ':').value;
    assert m.start == 0;
    assert !(m.end < last) by {
      assert OnOneLine(text, 0, last);
    }
    assert !(last < m.end) by {
      assert ':' !in text[last + 1..];
    }
  }

  /** `.` does not cross a line terminator: in `a\rb:` only `b` is bold. */
  lemma TargetMarkupStopsAtLineBreak()
    ensures TargetMarkup(true, "a\rb:") == [Markup(2, 3, TargetTag, BoldEnd)]
  {
    var text := "a\rb:";
    var m := TargetToken(text).value;
    assert text[1] == '\r' && text[2] == 'b' && text[3] == ':';
    assert m.end == 3;
    assert m.start == 2;
  }

  function ToLower(c: char): char
  {
    if 'A' <= c <= 'Z' then (c as int + 32) as char else c
  }

  /** `"true".equalsIgnoreCase(s)`. */
  predicate IsTrueIgnoringCase(s: string)
  {
    |s| == 4 && ToLower(s[0]) == 't' && ToLower(s[1]) == 'r' && ToLower(s[2]) == 'u' && ToLower(s[3]) == 'e'
  }

  /**
   * `EasyAntTargetNote.ENABLED`: on unless the system property
   * `...EasyAntTargetNote.disabled` reads "true" in any case (`Boolean.getBoolean`).
   */
  function TargetNoteEnabled(systemProperties: map<string, string>): (r: bool)
    ensures DisabledProperty !in systemProperties ==> r
    ensures !r <==> DisabledProperty in systemProperties && IsTrueIgnoringCase(systemProperties[DisabledProperty])
  {
    !(DisabledProperty in systemProperties && IsTrueIgnoringCase(systemProperties[DisabledProperty]))
  }

  /** Only a value reading "true" switches the markup off. */
  lemma TargetNoteSwitch()
    ensures TargetNoteEnabled(map[])
    ensures !TargetNoteEnabled(map[DisabledProperty := "TRUE"])
    ensures TargetNoteEnabled(map[DisabledProperty := "yes"])
  {
  }

  /**
   * A line the console annotator marks with an outcome note is styled by it:
   * "BUILD FAILED" contains "FAIL" and "BUILD SUCCESSFUL" contains "SUCCESS".
   */
  lemma {:induction false} VerdictLinesAreStyled(line: string)
    ensures StartsWith(line, "BUILD FAILED") ==> Markup(0, |line|, FailureTag, SpanEnd) in OutcomeMarkup(line)
    ensures StartsWith(line, "BUILD SUCCESSFUL") ==> Markup(0, |line|, SuccessTag, SpanEnd) in OutcomeMarkup(line)
  {
    if StartsWith(line, "BUILD FAILED") {
      assert line[6..][..4] == line[..12][6..10] == "FAIL";
      ContainsAt(line, "FAIL", 6);
    }
    if StartsWith(line, "BUILD SUCCESSFUL") {
      assert line[6..][..7] == line[..16][6..13] == "SUCCESS";
      ContainsAt(line, "SUCCESS", 6);
    }
  }

  /**
   * A line the console annotator marks as a target (`compile:`), when it
   * holds no line terminator, is rendered with everything but its final
   * colon in bold.
   */
  lemma TargetLineIsStyled(line: string)
    requires EndsWithChar(line, ':') && OnOneLine(line, 0, |line|)
    ensures TargetMarkup(true, line) == [Markup(0, |line| - 1, TargetTag, BoldEnd)]
  {
    assert line[|line| - 1] in line;
    TargetMarkupOnOneLine(line);
  }

  /**
   * The substring tests are case-sensitive: a line without capital letters,
   * such as a lower-case verdict, is never styled.
   */
  lemma LowerCaseLineIsNotStyled(s: string)
    requires forall i :: 0 <= i < |s| ==> !('A' <= s[i] <= 'Z')
    ensures OutcomeMarkup(s) == []
  {
    assert 'F' !in s && 'S' !in s;
    AbsentFirstChar(s, "FAIL");
    AbsentFirstChar(s, "SUCCESS");
  }
}
