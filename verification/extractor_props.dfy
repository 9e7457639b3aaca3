/** What the field extractor promises: `extract_between` finds the leftmost
    start marker with an end marker after it and captures the shortest text
    between them; the payee follows the ordered rule table; the purpose does
    not depend on whitespace around the description.
 */
module ExtractorProps {
  import opened Wrappers
  import opened Strings
  import opened Extractor

  /** The span found by the search is the only span that is a match, leftmost
      among matches, and shortest for its start. */
  ghost predicate IsFirstMatch(t: string, start: string, end: string, i: int, j: int) {
    && IsMatch(t, start, end, i, j)
    && (forall i', j' :: 0 <= i' < i ==> !IsMatch(t, start, end, i', j'))
    && (forall j' :: i + |start| <= j' < j ==> !OccursAt(t, end, j'))
  }

  lemma {:induction false} SearchFindsFirstMatch(t: string, start: string, end: string, i: int, j: int)
    requires IsFirstMatch(t, start, end, i, j)
    ensures SearchFrom(t, start, end, 0) == Some(Span(i, j))
  {
    SearchFromSpec(t, start, end, 0);
  }

  /** The converse: what the search returns is the first match. */
  lemma {:induction false} SearchGivesFirstMatch(t: string, start: string, end: string)
    requires SearchFrom(t, start, end, 0).Some?
    ensures IsFirstMatch(t, start, end, SearchFrom(t, start, end, 0).value.at, SearchFrom(t, start, end, 0).value.end)
  {
    SearchFromSpec(t, start, end, 0);
  }

  /** `extract_between` returns `None` exactly when no occurrence of `start`
      is followed, on the same line, by an occurrence of `end`. */
  lemma {:induction false} ExtractBetweenNoneIff(t: string, start: string, end: string)
    ensures ExtractBetween(t, start, end).None? <==> forall i, j :: !IsMatch(t, start, end, i, j)
  {
    SearchFromSpec(t, start, end, 0);
    var r := SearchFrom(t, start, end, 0);
    if r.Some? {
      assert IsMatch(t, start, end, r.value.at, r.value.end);
    } else {
      forall i, j ensures !IsMatch(t, start, end, i, j) {
        if 0 > i {
          assert !OccursAt(t, start, i);
        }
      }
    }
  }

  /** On success the result is the stripped text between the leftmost start
      marker that has an end marker after it and the first such end marker. */
  lemma {:induction false} ExtractBetweenSome(t: string, start: string, end: string)
    requires ExtractBetween(t, start, end).Some?
    ensures exists i, j :: IsFirstMatch(t, start, end, i, j)
              && ExtractBetween(t, start, end).value == Strip(t[i + |start|..j])
  {
    SearchGivesFirstMatch(t, start, end);
    var m := SearchFrom(t, start, end, 0).value;
    assert IsFirstMatch(t, start, end, m.at, m.end);
  }

  /** A capture with no occurrence of `end` inside keeps none after stripping. */
  lemma {:induction false} NoEndInCapture(t: string, end: string, a: int, b: int)
    requires 0 <= a <= b <= |t| && |end| > 0
    requires forall j :: a <= j < b ==> !OccursAt(t, end, j)
    ensures !Contains(Strip(t[a..b]), end)
  {
    var c := t[a..b];
    var x := Strip(c);
    if Contains(x, end) {
      var k :| 0 <= k <= |x| && OccursAt(x, end, k);
      OccursInStrip(c, end, k);
      StripIsSlice(c);
      OccursInSlice(t, a, b, end, StripOffset(c) + k);
    }
  }

  /** On success the result is the stripped capture of the search's span,
      and the capture holds no occurrence of `end`. */
  lemma {:induction false} ExtractBetweenCapture(t: string, start: string, end: string)
    requires ExtractBetween(t, start, end).Some?
    ensures var m := SearchFrom(t, start, end, 0).value;
            && 0 <= m.at + |start| <= m.end <= |t|
            && ExtractBetween(t, start, end).value == Strip(t[m.at + |start|..m.end])
            && forall j :: m.at + |start| <= j < m.end ==> !OccursAt(t, end, j)
  {
    SearchFromSpec(t, start, end, 0);
  }

  /** A stripped capture with no occurrence of `end` inside has neither
      surrounding whitespace nor an occurrence of `end`. */
  lemma {:induction false} CaptureShape(t: string, end: string, a: int, b: int)
    requires 0 <= a <= b <= |t| && |end| > 0
    requires forall j :: a <= j < b ==> !OccursAt(t, end, j)
    ensures var x := Strip(t[a..b]);
            (|x| > 0 ==> !IsSpace(x[0]) && !IsSpace(x[|x| - 1])) && !Contains(x, end)
  {
    StripEnds(t[a..b]);
    NoEndInCapture(t, end, a, b);
  }

  /** The result has no surrounding whitespace and, for a non-empty end
      marker, contains no occurrence of it. */
  lemma {:induction false} ExtractBetweenResultShape(t: string, start: string, end: string)
    requires ExtractBetween(t, start, end).Some?
    ensures var x := ExtractBetween(t, start, end).value;
            |x| > 0 ==> !IsSpace(x[0]) && !IsSpace(x[|x| - 1])
    ensures |end| > 0 ==> !Contains(ExtractBetween(t, start, end).value, end)
  {
    ExtractBetweenCapture(t, start, end);
    var m := SearchFrom(t, start, end, 0).value;
    var x := Strip(t[m.at + |start|..m.end]);
    assert ExtractBetween(t, start, end).value == x;
    if |end| > 0 {
      CaptureShape(t, end, m.at + |start|, m.end);
    } else {
      StripEnds(t[m.at + |start|..m.end]);
    }
  }

  /** The search for the first occurrence of `start` and then the first
      occurrence of `end` after it. */
  function FirstThenFirst(t: string, start: string, end: string): Option<Span> {
    match FindFrom(t, start, 0)
    case None => None
    case Some(i) =>
      match FindFrom(t, end, i + |start|)
      case None => None
      case Some(j) => Some(Span(i, j))
  }

  /** On a single line the regular-expression search finds the first
      occurrence of `start`, then the first occurrence of `end` after it. */
  lemma {:induction false} SingleLineSearch(t: string, start: string, end: string)
    requires forall k :: 0 <= k < |t| ==> t[k] != '\n'
    ensures SearchFrom(t, start, end, 0) == FirstThenFirst(t, start, end)
  {
    SearchFromSpec(t, start, end, 0);
    match FindFrom(t, start, 0)
    case None =>
    case Some(i) =>
      match FindFrom(t, end, i + |start|)
      case None =>
      case Some(j) =>
        assert IsMatch(t, start, end, i, j);
        SearchFindsFirstMatch(t, start, end, i, j);
  }

  // ---------------------------------------------------------------------------
  // Surrounding whitespace

  predicate NoWhitespace(s: string) {
    forall k :: 0 <= k < |s| ==> !IsSpace(s[k])
  }

  /** A marker without whitespace that occurs in `t` lies inside the slice. */
  lemma {:induction false} MarkerInsideSlice(t: string, a: int, b: int, pat: string, i: int)
    requires SpaceOutside(t, a, b) && |pat| > 0 && NoWhitespace(pat) && OccursAt(t, pat, i)
    ensures a <= i && i + |pat| <= b
  {
    assert t[i] == pat[0];
    assert t[i + |pat| - 1] == pat[|pat| - 1];
  }

  lemma {:induction false} MatchInsideSlice(t: string, a: int, b: int, start: string, end: string, i: int, j: int)
    requires SpaceOutside(t, a, b)
    requires |start| > 0 && NoWhitespace(start) && |end| > 0 && NoWhitespace(end)
    ensures IsMatch(t, start, end, i, j) <==> IsMatch(t[a..b], start, end, i - a, j - a)
  {
    var u := t[a..b];
    if IsMatch(t, start, end, i, j) {
      MarkerInsideSlice(t, a, b, start, i);
      MarkerInsideSlice(t, a, b, end, j);
      OccursInsideSlice(t, a, b, start, i);
      OccursInsideSlice(t, a, b, end, j);
      forall k | i - a + |start| <= k < j - a ensures 0 <= k < |u| && u[k] != '\n' {
        assert u[k] == t[k + a];
      }
    }
    if IsMatch(u, start, end, i - a, j - a) {
      OccursInSlice(t, a, b, start, i - a);
      OccursInSlice(t, a, b, end, j - a);
      forall k | i + |start| <= k < j ensures 0 <= k < |t| && t[k] != '\n' {
        assert t[k] == u[k - a];
      }
    }
  }

  /** The first match in a padded text is the first match in its slice. */
  lemma {:induction false} FirstMatchInsideSlice(t: string, a: int, b: int, start: string, end: string, i: int, j: int)
    requires SpaceOutside(t, a, b)
    requires |start| > 0 && NoWhitespace(start) && |end| > 0 && NoWhitespace(end)
    requires IsFirstMatch(t, start, end, i, j)
    ensures a <= i && j + |end| <= b
    ensures IsFirstMatch(t[a..b], start, end, i - a, j - a)
  {
    var u := t[a..b];
    MatchInsideSlice(t, a, b, start, end, i, j);
    MarkerInsideSlice(t, a, b, start, i);
    MarkerInsideSlice(t, a, b, end, j);
    forall i', j' | 0 <= i' < i - a ensures !IsMatch(u, start, end, i', j') {
      MatchInsideSlice(t, a, b, start, end, i' + a, j' + a);
    }
    forall j' | i - a + |start| <= j' < j - a ensures !OccursAt(u, end, j') {
      if OccursAt(u, end, j') {
        OccursInSlice(t, a, b, end, j');
      }
    }
  }

  lemma {:induction false} NoMatchInsideSlice(t: string, a: int, b: int, start: string, end: string)
    requires SpaceOutside(t, a, b)
    requires |start| > 0 && NoWhitespace(start) && |end| > 0 && NoWhitespace(end)
    requires SearchFrom(t, start, end, 0).None?
    ensures SearchFrom(t[a..b], start, end, 0).None?
  {
    var u := t[a..b];
    SearchFromSpec(t, start, end, 0);
    SearchFromSpec(u, start, end, 0);
    forall i, j ensures !IsMatch(u, start, end, i, j) {
      MatchInsideSlice(t, a, b, start, end, i + a, j + a);
    }
  }

  lemma {:induction false} SearchInsideSlice(t: string, a: int, b: int, start: string, end: string, i: int, j: int)
    requires SpaceOutside(t, a, b)
    requires |start| > 0 && NoWhitespace(start) && |end| > 0 && NoWhitespace(end)
    requires IsFirstMatch(t, start, end, i, j)
    ensures a <= i && j <= b
    ensures SearchFrom(t[a..b], start, end, 0) == Some(Span(i - a, j - a))
  {
    FirstMatchInsideSlice(t, a, b, start, end, i, j);
    SearchFindsFirstMatch(t[a..b], start, end, i - a, j - a);
  }

  /** `extract_between` strips the capture `t[lo..hi]` of the span the
      search returns. */
  lemma {:induction false} ExtractBetweenOfSpan(t: string, start: string, end: string, m: Span, lo: int, hi: int)
    requires SearchFrom(t, start, end, 0) == Some(m)
    requires lo == m.at + |start| && hi == m.end
    ensures 0 <= lo <= hi <= |t|
    ensures ExtractBetween(t, start, end) == Some(Strip(t[lo..hi]))
  {
  }

  /** The same span, shifted into a slice, captures the same text. */
  lemma {:induction false} ShiftedCaptureSameResult(t: string, a: int, b: int, start: string, end: string, m: Span)
    requires 0 <= a <= m.at && m.end <= b <= |t|
    requires SearchFrom(t, start, end, 0) == Some(m)
    requires SearchFrom(t[a..b], start, end, 0) == Some(Span(m.at - a, m.end - a))
    ensures ExtractBetween(t, start, end) == ExtractBetween(t[a..b], start, end)
  {
    var i, j := m.at + |start|, m.end;
    ExtractBetweenOfSpan(t, start, end, m, i, j);
    ExtractBetweenOfSpan(t[a..b], start, end, Span(m.at - a, m.end - a), i - a, j - a);
    SliceAt(t, a, b, i, j);
  }

  /** Markers without whitespace extract the same text whether or not the
      description is stripped first. */
  lemma {:induction false} ExtractIgnoresPadding(t: string, a: int, b: int, start: string, end: string)
    requires SpaceOutside(t, a, b)
    requires |start| > 0 && NoWhitespace(start) && |end| > 0 && NoWhitespace(end)
    ensures ExtractBetween(t, start, end) == ExtractBetween(t[a..b], start, end)
  {
    match SearchFrom(t, start, end, 0)
    case None =>
      NoMatchInsideSlice(t, a, b, start, end);
    case Some(m) =>
      SearchGivesFirstMatch(t, start, end);
      SearchInsideSlice(t, a, b, start, end, m.at, m.end);
      ShiftedCaptureSameResult(t, a, b, start, end, m);
  }

  lemma {:induction false} PurposeMarkersHaveNoWhitespace()
    ensures NoWhitespace("Buchungstext:") && NoWhitespace("Ref.")
  {
  }

  /** Markers without whitespace extract the same text from a string and
      from the string stripped. */
  lemma {:induction false} ExtractOfStripped(raw: string, start: string, end: string)
    requires |start| > 0 && NoWhitespace(start) && |end| > 0 && NoWhitespace(end)
    ensures ExtractBetween(raw, start, end) == ExtractBetween(Strip(raw), start, end)
  {
    var a := StripOffset(raw);
    var b := a + |Strip(raw)|;
    StripDropsOnlyWhitespace(raw);
    ExtractIgnoresPadding(raw, a, b, start, end);
    assert raw[a..b] == Strip(raw);
  }

  /** The purpose reads the raw description, yet equals the search over the
      stripped one. */
  lemma {:induction false} PurposeOfStrippedDescription(row: Row)
    ensures GetPurpose(row) == ExtractBetween(GetDescription(row), "Buchungstext:", "Ref.")
  {
    PurposeMarkersHaveNoWhitespace();
    ExtractOfStripped(row[Column(Description)], "Buchungstext:", "Ref.");
  }

  // ---------------------------------------------------------------------------
  // Payee rules

  /** Which payee rule comes first for a description and an event. */
  lemma {:induction false} FirstPayeeRule(desc: string, event: string)
    ensures FirstApplying(PayeeRules, desc, event)
            == Some(if StartsWith(desc, "Auftraggeber") then
                      if StartsWith(event, "\U{DC}bertrag") then 0 else 1
                    else if StartsWith(desc, "Empf\U{E4}nger") then 2
                    else 3)
  {
    var rules := PayeeRules;
    assert StartsWith(desc, "") && StartsWith(event, "");
    assert Applies(rules[3], desc, event);
    if StartsWith(desc, "Auftraggeber") {
      assert Applies(rules[0], desc, event) <==> StartsWith(event, "\U{DC}bertrag");
      assert Applies(rules[1], desc, event);
    } else {
      assert !Applies(rules[0], desc, event) && !Applies(rules[1], desc, event);
      assert Applies(rules[2], desc, event) <==> StartsWith(desc, "Empf\U{E4}nger");
    }
  }

  /** `get_payee` is the ordered rule table with first-match-wins: some rule
      always applies (the last one has empty prefixes), and the payee is the
      text between the markers of the first rule that applies. */
  lemma {:induction false} PayeeFollowsRuleTable(row: Row)
    ensures FirstApplying(PayeeRules, GetDescription(row), GetEvent(row)).Some?
    ensures var rule := PayeeRules[FirstApplying(PayeeRules, GetDescription(row), GetEvent(row)).value];
            GetPayee(row) == ExtractBetween(GetDescription(row), rule.startMarker, rule.endMarker)
  {
    FirstPayeeRule(GetDescription(row), GetEvent(row));
  }

  /** When neither an `Auftraggeber` nor an `Empfänger` description is seen,
      the payee is the purpose. */
  lemma {:induction false} FallbackPayeeIsPurpose(row: Row)
    requires !StartsWith(GetDescription(row), "Auftraggeber")
    requires !StartsWith(GetDescription(row), "Empf\U{E4}nger")
    ensures GetPayee(row) == GetPurpose(row)
  {
    PurposeOfStrippedDescription(row);
  }

  // ---------------------------------------------------------------------------
  // Texts assembled from pieces

  /** No occurrence of `pat` begins inside `s` when `pat` is written after `s`. */
  predicate NotBefore(s: string, pat: string) {
    forall k :: 0 <= k < |s| ==> !OccursAt(s + pat, pat, k)
  }

  /** No line feed anywhere in `s` (`NoLineFeed` over the whole string). */
  predicate OneLine(s: string) {
    forall k :: 0 <= k < |s| ==> s[k] != '\n'
  }

  /** `s` is one line, and every first character of `pat` in it is followed,
      inside `s`, by a character other than the second one of `pat`. */
  predicate Filler(s: string, pat: string)
    requires |pat| > 1
  {
    && OneLine(s)
    && forall k :: 0 <= k < |s| && s[k] == pat[0] ==> k + 1 < |s| && s[k + 1] != pat[1]
  }

  /** Two fillers written one after another make a filler. */
  lemma {:induction false} FillerJoin(x: string, y: string, pat: string)
    requires |pat| > 1 && Filler(x, pat) && Filler(y, pat)
    ensures Filler(x + y, pat)
  {
    var s := x + y;
    forall k | 0 <= k < |s| ensures s[k] != '\n' {
      if k < |x| {
        assert s[k] == x[k];
      } else {
        assert s[k] == y[k - |x|];
      }
    }
    forall k | 0 <= k < |s| && s[k] == pat[0] ensures k + 1 < |s| && s[k + 1] != pat[1] {
      if k < |x| {
        assert s[k] == x[k] && s[k + 1] == x[k + 1];
      } else {
        assert s[k] == y[k - |x|] && s[k + 1] == y[k + 1 - |x|];
      }
    }
  }

  /** `pat` begins nowhere inside five pieces written one after another. */
  lemma {:induction false} NotBeforeOfPieces(a: string, b: string, c: string, d: string, e: string, pat: string)
    requires |pat| > 1
    requires Filler(a, pat) && Filler(b, pat) && Filler(c, pat)
    requires Filler(d, pat) && Filler(e, pat)
    ensures NotBefore(a + b + c + d + e, pat) && OneLine(a + b + c + d + e)
  {
    FillerJoin(a, b, pat);
    FillerJoin(a + b, c, pat);
    FillerJoin(a + b + c, d, pat);
    FillerJoin(a + b + c + d, e, pat);
    NotBeforeOfFiller(a + b + c + d + e, pat);
  }

  /** `pat` begins nowhere inside a filler. */
  lemma {:induction false} NotBeforeOfFiller(s: string, pat: string)
    requires |pat| > 1 && Filler(s, pat)
    ensures NotBefore(s, pat)
  {
    var t := s + pat;
    forall k | 0 <= k < |s| ensures !OccursAt(t, pat, k) {
      if k + |pat| <= |t| {
        assert t[k..k + |pat|][0] == s[k];
        assert t[k..k + |pat|][1] == t[k + 1];
      }
    }
  }

  /** A text written as `pre`, the start marker, `mid`, the end marker and
      `post`, where the start marker does not begin inside `pre` and the end
      marker does not begin inside the one-line `mid`: the search captures
      `mid`, stripped. */
  lemma {:induction false} ExtractFromParts(pre: string, start: string, mid: string, end: string, post: string)
    requires NotBefore(pre, start) && NotBefore(mid, end)
    requires OneLine(mid)
    ensures ExtractBetween(pre + start + mid + end + post, start, end) == Some(Strip(mid))
  {
    var ps := pre + start;
    var me := mid + end;
    var text := ps + me + post;
    assert pre + start + mid + end + post == text;
    var i := |pre|;
    var a := |ps|;
    var j := a + |mid|;
    var b := a + |me|;
    ConcatSlices(ps, me, post);
    OccursAfter(pre, start);
    OccursAfter(mid, end);
    OccursInSlice(text, 0, a, start, i);
    OccursInSlice(text, a, b, end, |mid|);
    forall k | a <= k < j ensures 0 <= k < |text| && text[k] != '\n' {
      assert text[k] == text[a..b][k - a] == mid[k - a];
    }
    assert IsMatch(text, start, end, i, j);
    forall i', j' | 0 <= i' < i ensures !IsMatch(text, start, end, i', j') {
      if OccursAt(text, start, i') {
        OccursInsideSlice(text, 0, a, start, i');
      }
    }
    forall j' | a <= j' < j ensures !OccursAt(text, end, j') {
      if OccursAt(text, end, j') {
        OccursInsideSlice(text, a, b, end, j');
      }
    }
    SearchFindsFirstMatch(text, start, end, i, j);
    ExtractBetweenOfSpan(text, start, end, Span(i, j), a, j);
    SliceAt(text, a, b, a, j);
    assert text[a..b][0..|mid|] == mid;
  }
}
