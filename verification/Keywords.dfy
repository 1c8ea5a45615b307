/** Keyword constants and the normalised substring match shared by both safety guards. */
module Keywords {
  import opened Text

  const CRISIS_KEYWORDS: seq<string> := [
    "죽고 싶", "죽어버리", "죽을래", "자살", "자해", "끝내고 싶", "사라지고 싶", "살 가치",
    "살 이유", "목숨을 끊", "생을 마감", "극단적 선택", "목매", "투신", "안락사"
  ]

  const FORBIDDEN_TOPIC_KEYWORDS: seq<string> := [
    "형보다", "누나보다", "동생보다", "언니보다",
    "오빠보다", "남편보다", "아내보다", "와이프보다"
  ]

  /** `s.replace(c, "")` for a one-character pattern. */
  function Without(s: string, c: char): (r: string)
    ensures c !in r
    ensures forall d | d in r :: d in s
  {
    if s == "" then "" else (if s[0] == c then "" else [s[0]]) + Without(s[1..], c)
  }

  /** `text.replace(" ", "").replace("\t", "")`. */
  function Bare(text: string): string
  {
    Without(Without(text, ' '), '\t')
  }

  function Normalize(text: string): (r: string)
    ensures ' ' !in r && '\t' !in r
  {
    Lower(Bare(text))
  }

  /** Python's `needle in hay`. */
  predicate Occurs(needle: string, hay: string)
  {
    needle <= hay || (hay != "" && Occurs(needle, hay[1..]))
  }

  /** The reference meaning of a substring: `hay` splits around `needle`. */
  ghost predicate SplitsAround(needle: string, hay: string)
  {
    exists before: string, after: string :: hay == before + needle + after
  }

  lemma {:induction false} OccursSplits(needle: string, hay: string) returns (before: string, after: string)
    requires Occurs(needle, hay)
    ensures hay == before + needle + after
  {
    if needle <= hay {
      before, after := "", hay[|needle|..];
    } else {
      before, after := OccursSplits(needle, hay[1..]);
      before := [hay[0]] + before;
    }
  }

  lemma {:induction false} SplitOccurs(before: string, needle: string, after: string)
    ensures Occurs(needle, before + needle + after)
  {
    var hay := before + needle + after;
    if before == "" {
      assert needle <= hay;
    } else {
      assert hay[1..] == before[1..] + needle + after;
      SplitOccurs(before[1..], needle, after);
    }
  }

  lemma OccursIffSplits(needle: string, hay: string)
    ensures Occurs(needle, hay) <==> SplitsAround(needle, hay)
  {
    if Occurs(needle, hay) {
      var before, after := OccursSplits(needle, hay);
    }
    if SplitsAround(needle, hay) {
      var before: string, after: string :| hay == before + needle + after;
      SplitOccurs(before, needle, after);
    }
  }

  /** The first keyword from index `i` on, in tuple order, whose normal form occurs in the normalised text. */
  function FirstMatch(keywords: seq<string>, i: nat, haystack: string): Option<string>
    requires i <= |keywords|
    decreases |keywords| - i, haystack
  {
    if i == |keywords| then None
    else
      var needle := Normalize(keywords[i]);
      if needle != "" && Occurs(needle, haystack) then Some(keywords[i])
      else FirstMatch(keywords, i + 1, haystack)
  }

  /** Keyword `k` is found in `text`. */
  ghost predicate Hits(k: string, text: string)
  {
    Normalize(k) != "" && SplitsAround(Normalize(k), Normalize(text))
  }

  /**
    * `m` is the right answer for `text`: a keyword that hits and comes before every other
    * one that does, or nothing because none hits.
    */
  ghost predicate IsFirstHit(keywords: seq<string>, text: string, m: Option<string>)
  {
    match m
    case None => forall j | 0 <= j < |keywords| :: !Hits(keywords[j], text)
    case Some(k) => exists i :: 0 <= i < |keywords| && k == keywords[i] && FirstHitAt(keywords, text, i)
  }

  ghost predicate FirstHitAt(keywords: seq<string>, text: string, i: nat)
    requires i < |keywords|
  {
    Hits(keywords[i], text) && forall j | 0 <= j < i :: !Hits(keywords[j], text)
  }

  lemma {:induction false} FirstMatchSpec(keywords: seq<string>, i: nat, text: string)
    requires i <= |keywords| && forall j | 0 <= j < i :: !Hits(keywords[j], text)
    ensures IsFirstHit(keywords, text, FirstMatch(keywords, i, Normalize(text)))
    decreases |keywords| - i
  {
    if i < |keywords| {
      OccursIffSplits(Normalize(keywords[i]), Normalize(text));
      if Hits(keywords[i], text) {
        assert FirstHitAt(keywords, text, i);
      } else {
        FirstMatchSpec(keywords, i + 1, text);
      }
    }
  }

  /** The scan both guards make: an empty text is passed without looking at the keywords. */
  function Scan(keywords: seq<string>, text: string): Option<string>
  {
    if text == "" then None else FirstMatch(keywords, 0, Normalize(text))
  }

  /** A guard matches exactly when some keyword hits, and reports the first that does. */
  lemma ScanSpec(keywords: seq<string>, text: string)
    ensures IsFirstHit(keywords, text, Scan(keywords, text))
  {
    FirstMatchSpec(keywords, 0, text);
    EmptyNeverMatches(keywords, 0);
  }

  /** The early return for an empty text agrees with the scan: nothing matches "". */
  lemma {:induction false} EmptyNeverMatches(keywords: seq<string>, i: nat)
    requires i <= |keywords|
    ensures FirstMatch(keywords, i, Normalize("")).None?
    decreases |keywords| - i
  {
    if i < |keywords| {
      assert Normalize("") == "";
      EmptyNeverMatches(keywords, i + 1);
    }
  }

  lemma {:induction false} WithoutConcat(a: string, b: string, c: char)
    ensures Without(a + b, c) == Without(a, c) + Without(b, c)
  {
    if a == "" {
      assert a + b == b;
    } else {
      assert (a + b)[1..] == a[1..] + b;
      WithoutConcat(a[1..], b, c);
      var first := if a[0] == c then "" else [a[0]];
      PlusAssociative(first, Without(a[1..], c), Without(b, c));
      assert Without(a + b, c) == first + Without(a[1..] + b, c);
    }
  }

  lemma {:induction false} WithoutFixpoint(s: string, c: char)
    requires c !in s
    ensures Without(s, c) == s
  {
    if s != "" { WithoutFixpoint(s[1..], c); }
  }

  /** Lower-casing letter by letter, where a letter may become several. */
  function LowerBy(lower: char -> string, s: string): string
  {
    if s == "" then "" else lower(s[0]) + LowerBy(lower, s[1..])
  }

  /** `normalize` with any lower-casing of letters. */
  function NormalizeBy(lower: char -> string, text: string): string
  {
    LowerBy(lower, Bare(text))
  }

  lemma {:induction false} LowerByConcat(lower: char -> string, a: string, b: string)
    ensures LowerBy(lower, a + b) == LowerBy(lower, a) + LowerBy(lower, b)
  {
    if a == "" {
      assert a + b == b;
    } else {
      assert (a + b)[1..] == a[1..] + b;
      LowerByConcat(lower, a[1..], b);
      PlusAssociative(lower(a[0]), LowerBy(lower, a[1..]), LowerBy(lower, b));
    }
  }

  /** `normalize` is a homomorphism for concatenation, whatever lower-casing does to a letter. */
  lemma NormalizeByConcat(lower: char -> string, a: string, b: string)
    ensures NormalizeBy(lower, a + b) == NormalizeBy(lower, a) + NormalizeBy(lower, b)
  {
    WithoutConcat(a, b, ' ');
    WithoutConcat(Without(a, ' '), Without(b, ' '), '\t');
    LowerByConcat(lower, Bare(a), Bare(b));
  }

  /** Lower-casing makes no blanks, and leaves alone what it has made. */
  ghost predicate Settles(lower: char -> string)
  {
    forall c: char | c != ' ' && c != '\t' ::
      ' ' !in lower(c) && '\t' !in lower(c) && LowerBy(lower, lower(c)) == lower(c)
  }

  lemma {:induction false} LowerBySettles(lower: char -> string, s: string)
    requires Settles(lower) && ' ' !in s && '\t' !in s
    ensures ' ' !in LowerBy(lower, s) && '\t' !in LowerBy(lower, s)
    ensures LowerBy(lower, LowerBy(lower, s)) == LowerBy(lower, s)
  {
    if s != "" {
      LowerBySettles(lower, s[1..]);
      LowerByConcat(lower, lower(s[0]), LowerBy(lower, s[1..]));
    }
  }

  /** Normalising twice is normalising once. */
  lemma NormalizeByIdempotent(lower: char -> string, text: string)
    requires Settles(lower)
    ensures NormalizeBy(lower, NormalizeBy(lower, text)) == NormalizeBy(lower, text)
  {
    var n := NormalizeBy(lower, text);
    LowerBySettles(lower, Bare(text));
    WithoutFixpoint(n, ' ');
    WithoutFixpoint(n, '\t');
  }

  function AsciiLetter(c: char): string { [LowerChar(c)] }

  lemma {:induction false} LowerIsAscii(s: string)
    ensures Lower(s) == LowerBy(AsciiLetter, s)
  {
    if s != "" {
      assert Lower(s) == [LowerChar(s[0])] + Lower(s[1..]);
      LowerIsAscii(s[1..]);
    }
  }

  /** `Normalize` is one of these, and one that settles. */
  lemma NormalizeIsAscii(text: string)
    ensures Normalize(text) == NormalizeBy(AsciiLetter, text) && Settles(AsciiLetter)
  {
    LowerIsAscii(Bare(text));
    forall c: char | c != ' ' && c != '\t' ensures LowerBy(AsciiLetter, AsciiLetter(c)) == AsciiLetter(c) {
      assert LowerBy(AsciiLetter, [LowerChar(c)][1..]) == "";
    }
  }

  lemma NormalizeConcat(a: string, b: string)
    ensures Normalize(a + b) == Normalize(a) + Normalize(b)
  {
    NormalizeByConcat(AsciiLetter, a, b);
    NormalizeIsAscii(a + b);
    NormalizeIsAscii(a);
    NormalizeIsAscii(b);
  }

  ghost predicate AllBlank(w: string)
  {
    forall i | 0 <= i < |w| :: w[i] == ' ' || w[i] == '\t'
  }

  lemma {:induction false} WithoutKeeps(s: string, c: char, d: char)
    requires d in s && d != c
    ensures d in Without(s, c)
  {
    if s[0] != d {
      assert d in s[1..];
      WithoutKeeps(s[1..], c, d);
    }
  }

  lemma {:induction false} NormalizeBlank(w: string)
    requires AllBlank(w)
    ensures Normalize(w) == ""
  {
    if w != "" {
      assert w == w[..1] + w[1..];
      NormalizeConcat(w[..1], w[1..]);
      NormalizeBlank(w[1..]);
      assert w[..1] == [w[0]] && Without(w[..1][1..], ' ') == "";
    }
  }

  /** Inserting (or, read backwards, deleting) spaces and tabs anywhere changes nothing. */
  lemma BlanksAreInvisible(a: string, w: string, b: string)
    requires AllBlank(w)
    ensures Normalize(a + w + b) == Normalize(a + b)
  {
    NormalizeConcat(a + w, b);
    NormalizeConcat(a, w);
    NormalizeConcat(a, b);
    NormalizeBlank(w);
  }

  lemma SplitSurvivesContext(needle: string, before: string, hay: string, after: string)
    requires SplitsAround(needle, hay)
    ensures SplitsAround(needle, before + hay + after)
  {
    var x: string, y: string :| hay == x + needle + y;
    assert before + hay + after == (before + x) + needle + (y + after);
  }

  /** A hit survives any text put before and after. */
  lemma HitSurvivesContext(k: string, before: string, text: string, after: string)
    requires Hits(k, text)
    ensures Hits(k, before + text + after)
  {
    NormalizeConcat(before + text, after);
    NormalizeConcat(before, text);
    SplitSurvivesContext(Normalize(k), Normalize(before), Normalize(text), Normalize(after));
  }

  /** Spaces and tabs typed anywhere neither hide nor create a match, nor change the keyword. */
  lemma ScanIgnoresBlanks(keywords: seq<string>, a: string, w: string, b: string)
    requires AllBlank(w)
    ensures Scan(keywords, a + w + b) == Scan(keywords, a + b)
  {
    BlanksAreInvisible(a, w, b);
    EmptyNeverMatches(keywords, 0);
  }

  /** Nothing put before or after a match can take the match away. */
  lemma ScanSurvivesContext(keywords: seq<string>, before: string, text: string, after: string)
    requires Scan(keywords, text).Some?
    ensures Scan(keywords, before + text + after).Some?
  {
    ScanSpec(keywords, text);
    var i :| 0 <= i < |keywords| && Hits(keywords[i], text);
    HitSurvivesContext(keywords[i], before, text, after);
    ScanSpec(keywords, before + text + after);
  }

  lemma SplitKeepsLetter(needle: string, hay: string, d: char)
    requires SplitsAround(needle, hay) && d in needle
    ensures d in hay
  {
    var x: string, y: string :| hay == x + needle + y;
    var i :| 0 <= i < |needle| && needle[i] == d;
    assert hay[|x| + i] == d;
  }

  ghost predicate Uncased(d: char)
  {
    d != ' ' && d != '\t' && !('a' <= d <= 'z') && !('A' <= d <= 'Z')
  }

  /** `normalize` neither adds nor drops letters that have no case. */
  lemma NormalizeLetter(text: string, d: char)
    requires Uncased(d)
    ensures d in Normalize(text) <==> d in text
  {
    var bare := Bare(text);
    if d in text {
      WithoutKeeps(text, ' ', d);
      WithoutKeeps(Without(text, ' '), '\t', d);
      var i :| 0 <= i < |bare| && bare[i] == d;
      assert Normalize(text)[i] == d;
    }
    if d in Normalize(text) {
      var i :| 0 <= i < |bare| && LowerChar(bare[i]) == d;
      assert bare[i] == d && d in bare && d in Without(text, ' ');
    }
  }

  /** Every uncased letter of a keyword that hits is a letter of the text. */
  lemma HitLetters(k: string, text: string, d: char)
    requires Hits(k, text) && Uncased(d) && d in k
    ensures d in text
  {
    NormalizeLetter(k, d);
    SplitKeepsLetter(Normalize(k), Normalize(text), d);
    NormalizeLetter(text, d);
  }

  // ------------------------------------------------------------------ any way of lowering letters

  /** The Hangul syllables, which have no case. */
  predicate Hangul(c: char)
  {
    '가' <= c <= '힣'
  }

  ghost predicate HangulAndBlanks(s: string)
  {
    forall i | 0 <= i < |s| :: Hangul(s[i]) || s[i] == ' ' || s[i] == '\t'
  }

  ghost predicate LowersLetter(c: char, v: string)
  {
    if Hangul(c) then v == [c] else v != "" && forall i | 0 <= i < |v| :: !Hangul(v[i])
  }

  /**
    * `u` is a lower-casing of `t`, in whatever script: Hangul stays, and any other letter becomes
    * one or more letters that are not Hangul, which may depend on what stands around it.
    */
  ghost predicate Lowers(t: string, u: string)
    decreases |t|
  {
    if t == "" then u == ""
    else exists n: nat :: n <= |u| && LowersLetter(t[0], u[..n]) && Lowers(t[1..], u[n..])
  }

  lemma {:induction false} LowersPrefix(k: string, t: string, u: string)
    requires Lowers(t, u) && forall i | 0 <= i < |k| :: Hangul(k[i])
    ensures k <= u <==> k <= t
    decreases |t|
  {
    if k != "" && t != "" {
      var n: nat :| n <= |u| && LowersLetter(t[0], u[..n]) && Lowers(t[1..], u[n..]);
      assert u[0] == u[..n][0];
      if Hangul(t[0]) {
        LowersPrefix(k[1..], t[1..], u[1..]);
        assert k <= u <==> k[0] == u[0] && k[1..] <= u[1..];
        assert k <= t <==> k[0] == t[0] && k[1..] <= t[1..];
      }
    }
  }

  lemma {:induction false} SkipOthers(k: string, u: string, n: nat)
    requires n <= |u| && k != "" && Hangul(k[0]) && forall i | 0 <= i < n :: !Hangul(u[i])
    ensures Occurs(k, u) <==> Occurs(k, u[n..])
  {
    if n == 0 {
      assert u[n..] == u;
    } else {
      SkipOthers(k, u[1..], n - 1);
      assert u[1..][n - 1..] == u[n..];
    }
  }

  /** Lower-casing neither hides nor makes a Hangul keyword. */
  lemma {:induction false} LowersOccurs(k: string, t: string, u: string)
    requires Lowers(t, u) && k != "" && forall i | 0 <= i < |k| :: Hangul(k[i])
    ensures Occurs(k, u) <==> Occurs(k, t)
    decreases |t|
  {
    if t != "" {
      var n: nat :| n <= |u| && LowersLetter(t[0], u[..n]) && Lowers(t[1..], u[n..]);
      LowersPrefix(k, t, u);
      LowersOccurs(k, t[1..], u[n..]);
      if !Hangul(t[0]) {
        assert forall i | 0 <= i < n :: u[i] == u[..n][i];
        SkipOthers(k, u, n);
      }
    }
  }

  lemma {:induction false} LowerLowers(t: string)
    ensures Lowers(t, Lower(t))
  {
    if t != "" {
      var u := Lower(t);
      assert u[1..] == Lower(t[1..]);
      LowerLowers(t[1..]);
      assert LowersLetter(t[0], u[..1]);
    }
  }

  lemma HangulNormalForm(k: string)
    requires HangulAndBlanks(k)
    ensures forall i | 0 <= i < |Normalize(k)| :: Hangul(Normalize(k)[i])
  {
    var bare := Bare(k);
    forall i | 0 <= i < |bare| ensures Hangul(bare[i]) {
      assert bare[i] in bare && bare[i] in Without(k, ' ') && bare[i] in k;
    }
  }

  /** The scan finds the same keyword, however the letters of the text are lowered. */
  lemma {:induction false} AnyLoweringAgrees(keywords: seq<string>, i: nat, text: string, lowered: string)
    requires i <= |keywords| && forall j | 0 <= j < |keywords| :: HangulAndBlanks(keywords[j])
    requires Lowers(Bare(text), lowered)
    ensures FirstMatch(keywords, i, lowered) == FirstMatch(keywords, i, Normalize(text))
    decreases |keywords| - i
  {
    if i < |keywords| {
      var k := Normalize(keywords[i]);
      HangulNormalForm(keywords[i]);
      if k != "" {
        LowerLowers(Bare(text));
        LowersOccurs(k, Bare(text), lowered);
        LowersOccurs(k, Bare(text), Normalize(text));
      }
      AnyLoweringAgrees(keywords, i + 1, text, lowered);
    }
  }

  /** A text that contains a keyword is caught, whatever stands around it. */
  lemma KeywordIsCaught(keywords: seq<string>, i: nat, before: string, after: string)
    requires i < |keywords| && keywords[i] != "" && Hangul(keywords[i][0])
    ensures Scan(keywords, before + keywords[i] + after).Some?
  {
    var k := keywords[i];
    NormalizeLetter(k, k[0]);
    assert Normalize(k) == "" + Normalize(k) + "";
    assert Hits(k, k);
    ScanSpec(keywords, k);
    ScanSurvivesContext(keywords, before, k, after);
  }

  /** The same letters, of which some may differ in case. */
  ghost predicate SameButCase(a: string, b: string)
  {
    |a| == |b| && forall i | 0 <= i < |a| ::
      a[i] == b[i] || ('A' <= a[i] <= 'Z' && b[i] as int == a[i] as int + 32)
                   || ('A' <= b[i] <= 'Z' && a[i] as int == b[i] as int + 32)
  }

  lemma SameButCaseConcat(a: string, b: string, c: string, d: string)
    requires SameButCase(a, b) && SameButCase(c, d)
    ensures SameButCase(a + c, b + d)
  {
    forall i | |a| <= i < |a + c| ensures (a + c)[i] == c[i - |a|] && (b + d)[i] == d[i - |a|] {
    }
  }

  lemma {:induction false} WithoutCase(a: string, b: string, c: char)
    requires SameButCase(a, b) && (c == ' ' || c == '\t')
    ensures SameButCase(Without(a, c), Without(b, c))
  {
    if a != "" {
      assert a[0] == c <==> b[0] == c;
      WithoutCase(a[1..], b[1..], c);
      if a[0] != c { SameButCaseConcat([a[0]], [b[0]], Without(a[1..], c), Without(b[1..], c)); }
    }
  }

  /** Upper and lower case make no difference to the scan. */
  lemma ScanIgnoresCase(keywords: seq<string>, a: string, b: string)
    requires SameButCase(a, b)
    ensures Scan(keywords, a) == Scan(keywords, b)
  {
    WithoutCase(a, b, ' ');
    WithoutCase(Without(a, ' '), Without(b, ' '), '\t');
    assert Normalize(a) == Normalize(b);
  }

  lemma ConfiguredKeywordsAreHangul()
    ensures forall j | 0 <= j < |CRISIS_KEYWORDS| :: HangulAndBlanks(CRISIS_KEYWORDS[j])
    ensures forall j | 0 <= j < |FORBIDDEN_TOPIC_KEYWORDS| :: HangulAndBlanks(FORBIDDEN_TOPIC_KEYWORDS[j])
  {
  }

  lemma ConfiguredKeywordsBeginHangul()
    ensures forall j | 0 <= j < |CRISIS_KEYWORDS| :: CRISIS_KEYWORDS[j] != "" && Hangul(CRISIS_KEYWORDS[j][0])
    ensures forall j | 0 <= j < |FORBIDDEN_TOPIC_KEYWORDS| ::
              FORBIDDEN_TOPIC_KEYWORDS[j] != "" && Hangul(FORBIDDEN_TOPIC_KEYWORDS[j][0])
  {
  }
}
