/** Input guard: crisis keywords in what the user said. */
module InputGuard {
  import opened Text
  import opened Keywords

  datatype Action = Block | Pass
  datatype CrisisResult = CrisisResult(matched: bool, matchedKeyword: Option<string>, action: Action)

  function CheckCrisis(text: string): (r: CrisisResult)
    ensures r.matched <==> r.action == Block
    ensures r.matched <==> r.matchedKeyword.Some?
  {
    match Scan(CRISIS_KEYWORDS, text)
    case Some(k) => CrisisResult(true, Some(k), Block)
    case None => CrisisResult(false, None, Pass)
  }

  /** The keyword reported is the first, in tuple order, that occurs; none means none occurs. */
  lemma CheckCrisisSpec(text: string)
    ensures IsFirstHit(CRISIS_KEYWORDS, text, CheckCrisis(text).matchedKeyword)
  {
    ScanSpec(CRISIS_KEYWORDS, text);
  }

  lemma CrisisIgnoresBlanks(a: string, w: string, b: string)
    requires AllBlank(w)
    ensures CheckCrisis(a + w + b) == CheckCrisis(a + b)
  {
    ScanIgnoresBlanks(CRISIS_KEYWORDS, a, w, b);
  }

  lemma CrisisSurvivesContext(before: string, text: string, after: string)
    requires CheckCrisis(text).matched
    ensures CheckCrisis(before + text + after).matched
  {
    ScanSurvivesContext(CRISIS_KEYWORDS, before, text, after);
  }

  /** Each of the fifteen keywords blocks, wherever it stands in the text. */
  lemma CrisisKeywordBlocks(i: nat, before: string, after: string)
    requires i < 15
    ensures i < |CRISIS_KEYWORDS| && CheckCrisis(before + CRISIS_KEYWORDS[i] + after).action == Block
  {
    assert |CRISIS_KEYWORDS| == 15;
    ConfiguredKeywordsBeginHangul();
    KeywordIsCaught(CRISIS_KEYWORDS, i, before, after);
  }

  /** Whichever way letters of other scripts are lowered, the guard reports the same keyword. */
  lemma CrisisIgnoresLowering(text: string, lowered: string)
    requires text != "" && Lowers(Bare(text), lowered)
    ensures CheckCrisis(text).matchedKeyword == FirstMatch(CRISIS_KEYWORDS, 0, lowered)
  {
    ConfiguredKeywordsAreHangul();
    AnyLoweringAgrees(CRISIS_KEYWORDS, 0, text, lowered);
  }
}

/** Output guard: forbidden topics in what the model answered. */
module OutputGuard {
  import opened Text
  import opened Keywords

  datatype FilteredResponse = FilteredResponse(
    text: string, matched: bool, matchedKeyword: Option<string>, category: Option<string>)

  function FilterResponse(text: string): (r: FilteredResponse)
    ensures r.text == text
    ensures r.matched <==> r.matchedKeyword.Some?
    ensures r.matched <==> r.category == Some("forbidden_topic")
  {
    match Scan(FORBIDDEN_TOPIC_KEYWORDS, text)
    case Some(k) => FilteredResponse(text, true, Some(k), Some("forbidden_topic"))
    case None => FilteredResponse(text, false, None, None)
  }

  lemma FilterResponseSpec(text: string)
    ensures IsFirstHit(FORBIDDEN_TOPIC_KEYWORDS, text, FilterResponse(text).matchedKeyword)
  {
    ScanSpec(FORBIDDEN_TOPIC_KEYWORDS, text);
  }

  lemma FilterIgnoresBlanks(a: string, w: string, b: string)
    requires AllBlank(w)
    ensures FilterResponse(a + w + b) == FilterResponse(a + b).(text := a + w + b)
  {
    ScanIgnoresBlanks(FORBIDDEN_TOPIC_KEYWORDS, a, w, b);
  }

  lemma FilterSurvivesContext(before: string, text: string, after: string)
    requires FilterResponse(text).matched
    ensures FilterResponse(before + text + after).matched
  {
    ScanSurvivesContext(FORBIDDEN_TOPIC_KEYWORDS, before, text, after);
  }

  /** Each of the eight keywords is caught, wherever it stands in the answer. */
  lemma ForbiddenKeywordCaught(i: nat, before: string, after: string)
    requires i < 8
    ensures i < |FORBIDDEN_TOPIC_KEYWORDS| && FilterResponse(before + FORBIDDEN_TOPIC_KEYWORDS[i] + after).matched
  {
    assert |FORBIDDEN_TOPIC_KEYWORDS| == 8;
    ConfiguredKeywordsBeginHangul();
    KeywordIsCaught(FORBIDDEN_TOPIC_KEYWORDS, i, before, after);
  }

  lemma FilterIgnoresLowering(text: string, lowered: string)
    requires text != "" && Lowers(Bare(text), lowered)
    ensures FilterResponse(text).matchedKeyword == FirstMatch(FORBIDDEN_TOPIC_KEYWORDS, 0, lowered)
  {
    ConfiguredKeywordsAreHangul();
    AnyLoweringAgrees(FORBIDDEN_TOPIC_KEYWORDS, 0, text, lowered);
  }

  lemma EveryTopicCompares(i: nat)
    requires i < |FORBIDDEN_TOPIC_KEYWORDS|
    ensures '보' in FORBIDDEN_TOPIC_KEYWORDS[i]
  {
    assert FORBIDDEN_TOPIC_KEYWORDS[i][if i == 0 then 1 else if i == 7 then 3 else 2] == '보';
  }

  /** A text without the syllable 보 passes: every forbidden keyword contains it. */
  lemma NoComparisonNoMatch(text: string)
    requires '보' !in text
    ensures !FilterResponse(text).matched
  {
    FilterResponseSpec(text);
    if FilterResponse(text).matched {
      var i :| 0 <= i < |FORBIDDEN_TOPIC_KEYWORDS| && Hits(FORBIDDEN_TOPIC_KEYWORDS[i], text);
      EveryTopicCompares(i);
      HitLetters(FORBIDDEN_TOPIC_KEYWORDS[i], text, '보');
    }
  }
}
