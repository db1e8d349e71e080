/** The motivation-intent detector: a query is motivational when, after
    lower-casing, one of eleven fixed keywords matches the regular expression
    `\bkeyword\b` somewhere in it (chatbot.py:155-162). */
module Intent {
  import opened Text

  /** The keywords of `MOTIVATION_PATTERNS`, in the source's order; each
      pattern is the keyword wrapped in `\b` on both sides. */
  const MotivationPatterns: seq<string> := [
    "motivasi", "inspirasi", "semangat", "down",
    "capek", "burnout", "ditolak", "reject",
    "target", "closing", "stuck"
  ]

  /** Python's `\b` at position `p` of `s` (0 <= p <= |s|): the characters on
      the two sides differ in being word characters, a string edge counting as
      a non-word character. */
  predicate BoundaryAt(s: string, p: nat)
    requires p <= |s|
  {
    (0 < p && IsWordChar(s[p - 1])) != (p < |s| && IsWordChar(s[p]))
  }

  /** The pattern `\bw\b` matches `s` at index `i`. */
  predicate MatchAt(s: string, w: string, i: nat) {
    OccursAt(s, w, i) && BoundaryAt(s, i) && BoundaryAt(s, i + |w|)
  }

  /** `re.search(r"\bw\b", s)` finds a match. */
  ghost predicate Matches(s: string, w: string) {
    exists i: nat :: MatchAt(s, w, i)
  }

  /** `re.search` for `\bw\b`, scanning from index `from`: the leftmost match
      at or after `from`, or None when there is none. */
  function Search(s: string, w: string, from: nat): (r: Option<nat>)
    ensures r.Some? ==> from <= r.value && MatchAt(s, w, r.value)
    ensures r.Some? ==> forall j: nat :: from <= j < r.value ==> !MatchAt(s, w, j)
    ensures r.None? <==> forall j: nat :: from <= j ==> !MatchAt(s, w, j)
    decreases |s| + 1 - from
  {
    if from + |w| > |s| then None
    else if MatchAt(s, w, from) then Some(from)
    else Search(s, w, from + 1)
  }

  /** `any(re.search(p, s) for p in patterns)`: short-circuit disjunction over
      the patterns in order. */
  function AnyPattern(s: string, patterns: seq<string>): bool {
    if patterns == [] then false
    else Search(s, patterns[0], 0).Some? || AnyPattern(s, patterns[1..])
  }

  /** Some pattern of the list matches somewhere in `s`. */
  ghost predicate SomeMatch(s: string, patterns: seq<string>) {
    exists k: nat, i: nat :: k < |patterns| && MatchAt(s, patterns[k], i)
  }

  /** `AnyPattern` is true exactly when some pattern matches at some index. */
  lemma {:induction false} AnyPatternIff(s: string, patterns: seq<string>)
    ensures AnyPattern(s, patterns) <==> SomeMatch(s, patterns)
  {
    if patterns != [] {
      var head := Search(s, patterns[0], 0);
      AnyPatternIff(s, patterns[1..]);
      if head.Some? {
        assert MatchAt(s, patterns[0], head.value);
      } else if SomeMatch(s, patterns) {
        var k: nat, i: nat :| k < |patterns| && MatchAt(s, patterns[k], i);
        assert k != 0;
        assert patterns[1..][k - 1] == patterns[k];
      }
      if SomeMatch(s, patterns[1..]) {
        var k: nat, i: nat :| k < |patterns| - 1 && MatchAt(s, patterns[1..][k], i);
        assert MatchAt(s, patterns[k + 1], i);
      }
    }
  }

  /** `is_motivation_intent(text)`. */
  function IsMotivationIntent(text: string): bool {
    AnyPattern(Lower(text), MotivationPatterns)
  }

  /** Keyword `w` occurs in `s` at `i` as a whole word: the character before it
      is the string start or a non-word character, and the character after it
      is the string end or a non-word character. */
  predicate WholeWordAt(s: string, w: string, i: nat) {
    OccursAt(s, w, i) &&
    (i == 0 || !IsWordChar(s[i - 1])) &&
    (i + |w| == |s| || !IsWordChar(s[i + |w|]))
  }

  /** Some pattern of the list occurs in `s` as a whole word. */
  ghost predicate SomeWholeWord(s: string, patterns: seq<string>) {
    exists k: nat, i: nat :: k < |patterns| && WholeWordAt(s, patterns[k], i)
  }

  /** All characters of `w` are word characters, and there is at least one. */
  predicate IsToken(w: string) {
    |w| > 0 && forall i :: 0 <= i < |w| ==> IsWordChar(w[i])
  }

  /** Every pattern is a lower-case token. */
  predicate AllLowerTokens(patterns: seq<string>) {
    forall k :: 0 <= k < |patterns| ==> IsToken(patterns[k]) && IsLowerCase(patterns[k])
  }

  /** For a keyword that starts and ends with a word character, `\b` on both
      sides means exactly "string edge or non-word character on both sides". */
  lemma MatchAtIsWholeWord(s: string, w: string, i: nat)
    requires IsToken(w)
    ensures MatchAt(s, w, i) <==> WholeWordAt(s, w, i)
  {
    if OccursAt(s, w, i) {
      assert s[i] == w[0];
      assert s[i + |w| - 1] == w[|w| - 1];
    }
  }

  /** Every keyword is a non-empty lower-case run of word characters. */
  lemma PatternsAreLowerTokens()
    ensures AllLowerTokens(MotivationPatterns)
  {
  }

  /** `MOTIVATION_PATTERNS` holds eleven different keywords, each a non-empty
      lower-case run of word characters. */
  lemma MotivationPatternsShape()
    ensures |MotivationPatterns| == 11
    ensures forall j, k :: 0 <= j < k < |MotivationPatterns| ==> MotivationPatterns[j] != MotivationPatterns[k]
    ensures AllLowerTokens(MotivationPatterns)
  {
    PatternsAreLowerTokens();
  }

  /** For token patterns, some pattern matching with `\b` on both sides is the
      same as some pattern occurring as a whole word. */
  lemma SomeMatchIffWholeWord(s: string, patterns: seq<string>)
    requires AllLowerTokens(patterns)
    ensures SomeMatch(s, patterns) <==> SomeWholeWord(s, patterns)
  {
    forall k: nat, i: nat | k < |patterns|
      ensures MatchAt(s, patterns[k], i) <==> WholeWordAt(s, patterns[k], i)
    {
      MatchAtIsWholeWord(s, patterns[k], i);
    }
  }

  /** The classifier is true exactly when some keyword occurs as a whole word
      in the lower-cased query. */
  lemma MotivationIntentIff(text: string)
    ensures IsMotivationIntent(text) <==> SomeWholeWord(Lower(text), MotivationPatterns)
  {
    AnyPatternIff(Lower(text), MotivationPatterns);
    PatternsAreLowerTokens();
    SomeMatchIffWholeWord(Lower(text), MotivationPatterns);
  }

  /** Classification ignores case: lower-casing the query first changes nothing. */
  lemma IgnoresCase(text: string)
    ensures IsMotivationIntent(Lower(text)) == IsMotivationIntent(text)
  {
    LowerIdempotent(text);
  }

  /** Upper-case keywords trigger too. */
  lemma UpperCaseKeywordTriggers()
    ensures IsMotivationIntent("TARGET")
  {
    assert Lower("TARGET") == "target";
    assert MatchAt("target", MotivationPatterns[8], 0);
    AnyPatternIff("target", MotivationPatterns);
  }

  /** No token pattern matches in the empty string. */
  lemma NoMatchInEmpty(patterns: seq<string>)
    requires AllLowerTokens(patterns)
    ensures !SomeMatch("", patterns)
  {
  }

  /** The empty query is classified as standard. */
  lemma EmptyIsStandard()
    ensures !IsMotivationIntent("")
  {
    assert Lower("") == "";
    PatternsAreLowerTokens();
    NoMatchInEmpty(MotivationPatterns);
    AnyPatternIff("", MotivationPatterns);
  }

  /** In a string made of word characters only, the only place where `\b`
      holds is at the two ends, so a keyword matches only if it is the whole
      string. */
  lemma SingleWordMatches(s: string, w: string)
    requires forall i :: 0 <= i < |s| ==> IsWordChar(s[i])
    requires IsToken(w)
    ensures (exists i: nat :: MatchAt(s, w, i)) <==> s == w
  {
    if exists i: nat :: MatchAt(s, w, i) {
      var i: nat :| MatchAt(s, w, i);
      assert s[0..|s|] == s;
    }
    if s == w {
      assert s[0..|w|] == s;
      assert MatchAt(s, w, 0);
    }
  }

  /** With a query made of word characters only, some pattern matches exactly
      when the query equals one of the patterns. */
  lemma SingleWordSomeMatch(s: string, patterns: seq<string>)
    requires forall i :: 0 <= i < |s| ==> IsWordChar(s[i])
    requires AllLowerTokens(patterns)
    ensures SomeMatch(s, patterns) <==> s in patterns
  {
    forall k | 0 <= k < |patterns|
      ensures (exists i: nat :: MatchAt(s, patterns[k], i)) <==> s == patterns[k]
    {
      SingleWordMatches(s, patterns[k]);
    }
  }

  /** A one-word query is motivational exactly when its lower-cased form is one
      of the keywords; a keyword embedded in a longer word does not trigger. */
  lemma SingleWordIntent(text: string)
    requires forall i :: 0 <= i < |text| ==> IsWordChar(text[i])
    ensures IsMotivationIntent(text) <==> Lower(text) in MotivationPatterns
  {
    PatternsAreLowerTokens();
    SingleWordSomeMatch(Lower(text), MotivationPatterns);
    AnyPatternIff(Lower(text), MotivationPatterns);
  }

  /** "motivasinya" holds the keyword "motivasi" with no word boundary after
      it, so it is classified as standard. */
  lemma EmbeddedMotivasiIsStandard()
    ensures !IsMotivationIntent("motivasinya")
  {
    var t := "motivasinya";
    assert forall i :: 0 <= i < |t| ==> IsWordChar(t[i]) && !('A' <= t[i] <= 'Z');
    assert t !in MotivationPatterns;
    SingleWordIntent(t);
    LowerOfLowerCase(t);
  }

  /** "targeting" holds the keyword "target" with no word boundary after it,
      so it is classified as standard. */
  lemma EmbeddedTargetIsStandard()
    ensures !IsMotivationIntent("targeting")
  {
    var t := "targeting";
    assert forall i :: 0 <= i < |t| ==> IsWordChar(t[i]) && !('A' <= t[i] <= 'Z');
    assert t !in MotivationPatterns;
    SingleWordIntent(t);
    LowerOfLowerCase(t);
  }

  /** A keyword between spaces triggers, whatever else the query says. */
  lemma SpacedKeywordTriggers(before: string, k: nat, after: string)
    requires k < |MotivationPatterns|
    ensures IsMotivationIntent(before + " " + MotivationPatterns[k] + " " + after)
  {
    var w := MotivationPatterns[k];
    var t := before + " " + w + " " + after;
    PatternsAreLowerTokens();
    assert IsLowerCase(w);
    var i := |before| + 1;
    assert t[i..i + |w|] == w;
    var s := Lower(t);
    assert s[i - 1] == ' ' && s[i + |w|] == ' ';
    forall p | 0 <= p < |w|
      ensures s[i + p] == w[p]
    {
      assert t[i + p] == w[p];
    }
    assert s[i..i + |w|] == w;
    assert WholeWordAt(s, w, i);
    assert SomeWholeWord(s, MotivationPatterns);
    MotivationIntentIff(t);
  }

  /** An occurrence of a token covers word characters only. */
  lemma OccurrenceIsWordChars(s: string, w: string, i: nat)
    requires IsToken(w) && OccursAt(s, w, i)
    ensures forall p :: i <= p < i + |w| ==> IsWordChar(s[p])
  {
    forall p | i <= p < i + |w|
      ensures IsWordChar(s[p])
    {
      assert s[p] == s[i..i + |w|][p - i] == w[p - i];
    }
  }

  /** A separator that is not a word character can lie neither inside nor at
      the edge of a token match: a whole-word occurrence in `a + [c] + b` is
      one in `a` or one in `b`, shifted. */
  lemma WholeWordSplit(a: string, c: char, b: string, w: string, i: nat)
    requires !IsWordChar(c) && IsToken(w)
    ensures WholeWordAt(a + [c] + b, w, i) <==>
      (i + |w| <= |a| && WholeWordAt(a, w, i)) ||
      (i >= |a| + 1 && WholeWordAt(b, w, i - |a| - 1))
  {
    var s := a + [c] + b;
    assert s[|a|] == c;
    if OccursAt(s, w, i) {
      OccurrenceIsWordChars(s, w, i);
    }
    if i + |w| <= |a| {
      assert s[i..i + |w|] == a[i..i + |w|];
      if i + |w| < |a| {
        assert s[i + |w|] == a[i + |w|];
      }
      if i > 0 {
        assert s[i - 1] == a[i - 1];
      }
    }
    if i >= |a| + 1 {
      var j := i - |a| - 1;
      if i + |w| <= |s| {
        assert s[i..i + |w|] == b[j..j + |w|];
        if i + |w| < |s| {
          assert s[i + |w|] == b[j + |w|];
        }
      }
      if 0 < j <= |b| {
        assert s[i - 1] == b[j - 1];
      }
    }
  }

  /** The whole-word form of the split, over all token patterns. */
  lemma SomeWholeWordSplit(a: string, c: char, b: string, patterns: seq<string>)
    requires !IsWordChar(c) && AllLowerTokens(patterns)
    ensures SomeWholeWord(a + [c] + b, patterns) <==> SomeWholeWord(a, patterns) || SomeWholeWord(b, patterns)
  {
    var s := a + [c] + b;
    if SomeWholeWord(s, patterns) {
      var k: nat, i: nat :| k < |patterns| && WholeWordAt(s, patterns[k], i);
      WholeWordSplit(a, c, b, patterns[k], i);
      if i >= |a| + 1 {
        assert WholeWordAt(b, patterns[k], i - |a| - 1);
      }
    }
    if SomeWholeWord(a, patterns) {
      var k: nat, i: nat :| k < |patterns| && WholeWordAt(a, patterns[k], i);
      WholeWordSplit(a, c, b, patterns[k], i);
    }
    if SomeWholeWord(b, patterns) {
      var k: nat, j: nat :| k < |patterns| && WholeWordAt(b, patterns[k], j);
      WholeWordSplit(a, c, b, patterns[k], j + |a| + 1);
      assert WholeWordAt(s, patterns[k], j + |a| + 1);
    }
  }

  /** Splitting a query at a non-word character (a space, a question mark)
      splits the classification: the query is motivational exactly when one
      of the two sides is. */
  lemma SeparatorSplitsIntent(a: string, c: char, b: string)
    requires !IsWordChar(c)
    ensures IsMotivationIntent(a + [c] + b) <==> IsMotivationIntent(a) || IsMotivationIntent(b)
  {
    LowerConcat(a + [c], b);
    LowerConcat(a, [c]);
    assert Lower([c]) == [c];
    PatternsAreLowerTokens();
    SomeWholeWordSplit(Lower(a), c, Lower(b), MotivationPatterns);
    MotivationIntentIff(a + [c] + b);
    MotivationIntentIff(a);
    MotivationIntentIff(b);
  }

  /** A worked example: a complaint about being rejected is motivational. */
  lemma ExampleMotivational()
    ensures IsMotivationIntent("saya capek ditolak terus")
  {
    SpacedKeywordTriggers("saya", 4, "ditolak terus");
    ExampleMotivationalSpelled();
  }

  /** The example query, spelled around its keyword. */
  lemma ExampleMotivationalSpelled()
    ensures "saya capek ditolak terus" == "saya" + " " + MotivationPatterns[4] + " " + "ditolak terus"
  {
  }

  /** Parts joined by a non-word character (a space, a question mark) make a
      motivational query exactly when one of the parts is motivational. */
  lemma {:induction false} JoinedIntent(c: char, parts: seq<string>)
    requires !IsWordChar(c)
    ensures IsMotivationIntent(Join([c], parts)) <==>
      exists k :: 0 <= k < |parts| && IsMotivationIntent(parts[k])
    decreases |parts|
  {
    if |parts| == 0 {
      EmptyIsStandard();
    } else if |parts| > 1 {
      JoinedIntent(c, parts[1..]);
      SeparatorSplitsIntent(parts[0], c, Join([c], parts[1..]));
      if IsMotivationIntent(Join([c], parts[1..])) {
        var k :| 0 <= k < |parts[1..]| && IsMotivationIntent(parts[1..][k]);
        assert IsMotivationIntent(parts[k + 1]);
      }
      if exists k :: 0 <= k < |parts| && IsMotivationIntent(parts[k]) {
        var k :| 0 <= k < |parts| && IsMotivationIntent(parts[k]);
        if k > 0 {
          assert parts[1..][k - 1] == parts[k];
        }
      }
    }
  }

  /** Parts that are all standard, joined by a non-word character, make a
      standard query. */
  lemma JoinedStandard(c: char, parts: seq<string>)
    requires !IsWordChar(c)
    requires forall w | w in parts :: !IsMotivationIntent(w)
    ensures !IsMotivationIntent(Join([c], parts))
  {
    JoinedIntent(c, parts);
  }

  /** A worked example: the product question "apa syarat kartu kredit
      Mandiri?" is standard, since none of its words is a keyword. */
  lemma ExampleStandard()
    ensures !IsMotivationIntent(Join(" ", ["apa", "syarat", "kartu", "kredit", "Mandiri?"]))
  {
    StandardWords();
    assert " " == [' '];
    JoinedStandard(' ', ["apa", "syarat", "kartu", "kredit", "Mandiri?"]);
  }

  /** The last word with its question mark is standard too. */
  lemma StandardFromMandiri()
    ensures !IsMotivationIntent("Mandiri?")
  {
    MandiriIsStandard();
    EmptyIsStandard();
    SeparatorSplitsIntent("Mandiri", '?', "");
    assert "Mandiri" + ['?'] + "" == "Mandiri?";
  }

  /** A one-word lower-case query that is no keyword is standard. */
  lemma NonKeywordWord(text: string)
    requires forall i :: 0 <= i < |text| ==> IsWordChar(text[i]) && !('A' <= text[i] <= 'Z')
    requires text !in MotivationPatterns
    ensures !IsMotivationIntent(text)
  {
    LowerOfLowerCase(text);
    SingleWordIntent(text);
  }

  /** "Mandiri" is no keyword, capitalised or not. */
  lemma MandiriIsStandard()
    ensures !IsMotivationIntent("Mandiri")
  {
    NonKeywordWord("mandiri");
    LowerMandiri();
    IgnoresCase("Mandiri");
  }

  /** The words of the product question are no keywords. */
  lemma StandardWords()
    ensures forall w | w in ["apa", "syarat", "kartu", "kredit", "Mandiri?"] :: !IsMotivationIntent(w)
  {
    forall w | w in ["apa", "syarat", "kartu", "kredit"]
      ensures !IsMotivationIntent(w)
    {
      NonKeywordWord(w);
    }
    StandardFromMandiri();
  }

  /** Lower-casing the capitalised word. */
  lemma LowerMandiri()
    ensures Lower("Mandiri") == "mandiri"
  {
  }
}
