/**
 * Rule matching. A marking-scheme rule is free text such as "Mentions the
 * chain rule" or "Contains keywords derivative and limit". `match_rule`
 * classifies each rule by the instruction words it contains, then matches a
 * student answer against it: by an exact phrase lifted out of the rule, by
 * the overlap of key concepts, or by semantic similarity.
 *
 * Sentence embeddings and the lemmatiser are outside the model: an `Oracle`
 * supplies the cosine similarity of two texts and the lemma of a word.
 */
module Rules {

  import opened Wrappers
  import opened Text

  // ------------------------------------------------------------ rule types

  datatype RuleType = Semantic | ExactPhrase | ContainsKeywords

  function RuleTypeName(k: RuleType): (name: string)
    ensures name in {"semantic", "exact_phrase", "contains_keywords"}
  {
    match k
    case Semantic => "semantic"
    case ExactPhrase => "exact_phrase"
    case ContainsKeywords => "contains_keywords"
  }

  /** `s` contains `w` at some position, independently of how the search is carried out. */
  ghost predicate Mentions(s: string, w: string) {
    exists i: nat :: OccursAt(s, w, i)
  }

  /** `detect_rule_type`: classification by case-insensitive instruction words. */
  function DetectRuleType(rule: string): (k: RuleType)
    ensures rule == [] ==> k == Semantic
  {
    if rule == [] then Semantic
    else
      var l := Lower(rule);
      if Contains(l, "mentions") || Contains(l, "formula") || Contains(l, "equation") then ExactPhrase
      else if Contains(l, "contains") || Contains(l, "has") || Contains(l, "includes") then ContainsKeywords
      else Semantic
  }

  /**
   * The classification in terms of where the words occur: "mentions",
   * "formula" or "equation" anywhere in the lower-cased rule make it an
   * exact-phrase rule, whatever else it contains; otherwise "contains",
   * "has" or "includes" make it a keyword rule; everything else is semantic.
   */
  lemma DetectRuleTypeByOccurrence(rule: string)
    ensures var k := DetectRuleType(rule);
      (k == ExactPhrase <==>
        rule != [] && (Mentions(Lower(rule), "mentions") || Mentions(Lower(rule), "formula")
                       || Mentions(Lower(rule), "equation")))
      && (k == ContainsKeywords <==>
        rule != [] && !Mentions(Lower(rule), "mentions") && !Mentions(Lower(rule), "formula")
        && !Mentions(Lower(rule), "equation")
        && (Mentions(Lower(rule), "contains") || Mentions(Lower(rule), "has")
            || Mentions(Lower(rule), "includes")))
  {
    var l := Lower(rule);
    ContainsMeansOccurs(l, "mentions");
    ContainsMeansOccurs(l, "formula");
    ContainsMeansOccurs(l, "equation");
    ContainsMeansOccurs(l, "contains");
    ContainsMeansOccurs(l, "has");
    ContainsMeansOccurs(l, "includes");
  }

  /** Classification ignores case: a rule and its lower-cased form get the same type. */
  lemma DetectIgnoresCase(rule: string)
    ensures DetectRuleType(Lower(rule)) == DetectRuleType(rule)
  {
    LowerIdempotent(rule);
  }

  // ------------------------------------------------------- key concepts

  /** Python's `\w` on the ASCII range: letters, digits and the underscore. */
  predicate IsWordChar(c: char) {
    ('a' <= c <= 'z') || ('A' <= c <= 'Z') || ('0' <= c <= '9') || c == '_'
  }

  /** Lower-case the text, then turn every character that is neither a word character nor whitespace into a space. */
  function Normalize(text: string): (r: string)
    ensures |r| == |text|
    ensures forall i :: 0 <= i < |r| ==> !IsUpper(r[i]) && (IsWordChar(r[i]) || IsSpace(r[i]))
    ensures forall i :: 0 <= i < |r| ==> r[i] == LowerChar(text[i]) || (r[i] == ' ' && !IsWordChar(LowerChar(text[i])))
  {
    seq(|text|, i requires 0 <= i < |text| =>
      var c := LowerChar(text[i]);
      if IsWordChar(c) || IsSpace(c) then c else ' ')
  }

  const StopWords: set<string> :=
    {"the", "a", "an", "and", "or", "but", "in", "on", "at", "to", "for", "of", "with", "by"}

  /** The words kept: longer than two characters and not stop words, in order. */
  function Keep(ws: seq<string>): (r: seq<string>)
    ensures forall w :: w in r <==> w in ws && |w| > 2 && w !in StopWords
    ensures |r| <= |ws|
  {
    if ws == [] then []
    else
      assert forall w :: w in ws <==> w == ws[0] || w in ws[1..];
      (if |ws[0]| > 2 && ws[0] !in StopWords then [ws[0]] else []) + Keep(ws[1..])
  }

  /** The words of the normalised text that `extract_key_concepts` keeps, before lemmatising. */
  function KeyWords(text: string): seq<string> {
    Keep(Split(Normalize(text)))
  }

  /**
   * Every kept word is a non-empty run of lower-case word characters (no
   * punctuation, no whitespace), longer than two characters and not a stop
   * word; and every such word of the normalised text is kept.
   */
  lemma KeyWordsShape(text: string)
    ensures forall w :: w in KeyWords(text) ==>
      |w| > 2 && w !in StopWords && forall i :: 0 <= i < |w| ==> IsWordChar(w[i]) && !IsUpper(w[i])
    ensures forall w :: w in Split(Normalize(text)) && |w| > 2 && w !in StopWords ==> w in KeyWords(text)
  {
    var n := Normalize(text);
    var ws := Split(n);
    forall w | w in KeyWords(text)
      ensures forall i :: 0 <= i < |w| ==> IsWordChar(w[i]) && !IsUpper(w[i])
    {
      var k :| 0 <= k < |ws| && ws[k] == w;
      forall i | 0 <= i < |w| ensures IsWordChar(w[i]) && !IsUpper(w[i]) {
        assert ws[k][i] in n;
        assert !IsSpace(w[i]);
      }
    }
  }

  /** Sentence embeddings and the lemmatiser, as functions supplied from outside. */
  datatype Oracle = Oracle(cosine: (string, string) -> real, lemmatize: string -> string)

  /** A cosine similarity lies in [-1, 1]. */
  ghost predicate ValidOracle(o: Oracle) {
    forall a, b :: -1.0 <= o.cosine(a, b) <= 1.0
  }

  /** `extract_key_concepts`: the set of lemmas of the kept words. */
  function KeyConcepts(o: Oracle, text: string): (r: set<string>)
    ensures forall w :: w in KeyWords(text) ==> o.lemmatize(w) in r
    ensures forall c :: c in r ==> exists w :: w in KeyWords(text) && o.lemmatize(w) == c
  {
    set w | w in KeyWords(text) :: o.lemmatize(w)
  }

  lemma {:induction false} SubsetCard(a: set<string>, b: set<string>)
    requires a <= b
    ensures |a| <= |b|
    ensures |a| == |b| ==> a == b
    decreases |b|
  {
    if b != {} {
      var x :| x in b;
      SubsetCard(a - {x}, b - {x});
      if x in a {
        assert |a - {x}| == |a| - 1;
        if |a| == |b| {
          assert a == (a - {x}) + {x} && b == (b - {x}) + {x};
        }
      } else {
        assert a - {x} == a;
      }
    }
  }

  /** The share of the rule's concepts that the answer also has. */
  function Overlap(student: set<string>, rule: set<string>): (r: real)
    requires rule != {}
    ensures 0.0 <= r <= 1.0
    ensures r == 1.0 <==> rule <= student
    ensures r == 0.0 <==> student * rule == {}
  {
    var common := student * rule;
    SubsetCard(common, rule);
    var r := (|common| as real) / (|rule| as real);
    assert r * (|rule| as real) == |common| as real;
    assert r == 1.0 <==> |common| == |rule|;
    assert common == rule <==> rule <= student;
    r
  }

  /** `calculate_semantic_similarity`: 70% cosine, 30% concept overlap, matched at the threshold. */
  function SemanticSimilarity(o: Oracle, student: string, rule: string, threshold: real := 0.2): (r: (bool, real))
    ensures r.0 <==> r.1 >= threshold
    ensures ValidOracle(o) ==> -0.7 <= r.1 <= 1.0
    ensures ValidOracle(o) && KeyConcepts(o, rule) == {} ==> r.1 <= 0.7
  {
    var studentConcepts := KeyConcepts(o, student);
    var ruleConcepts := KeyConcepts(o, rule);
    var overlap := if ruleConcepts != {} then Overlap(studentConcepts, ruleConcepts) else 0.0;
    var similarity := o.cosine(student, rule) * 0.7 + overlap * 0.3;
    (similarity >= threshold, similarity)
  }

  // ------------------------------------------------------ key phrases

  /**
   * One of the phrase patterns `<stem>s?\s+(?:the\s+)?(.+)`: the stem, whether
   * a trailing "s" is optional, and whether the optional "the" group is present.
   */
  datatype Pattern = Pattern(stem: string, optionalS: bool, optionalThe: bool)

  /** `mentions?`, `contains?` (both with the optional "the"), `formula`, `equation`. */
  const ExactPatterns: seq<Pattern> := [
    Pattern("mention", true, true), Pattern("contain", true, true),
    Pattern("formula", false, false), Pattern("equation", false, false)]

  /** `contains?`, `has`, `includes?`, all with the optional "the". */
  const KeywordPatterns: seq<Pattern> := [
    Pattern("contain", true, true), Pattern("has", false, true), Pattern("include", true, true)]

  /** End of the line that starts at or before `i`: the next newline, or the end of the text. */
  function LineEnd(t: string, i: nat): (e: nat)
    requires i <= |t|
    ensures i <= e <= |t|
    ensures forall k :: i <= k < e ==> t[k] != '\n'
    ensures e < |t| ==> t[e] == '\n'
    decreases |t| - i
  {
    if i == |t| || t[i] == '\n' then i else LineEnd(t, i + 1)
  }

  /** The last position in `[lo, hi)` that does not hold a newline. */
  function LastNonNewline(t: string, lo: nat, hi: nat): (r: Option<nat>)
    requires hi <= |t|
    ensures r.Some? ==> lo <= r.value < hi && t[r.value] != '\n'
    ensures r.Some? ==> forall k :: r.value < k < hi ==> t[k] == '\n'
    ensures r.None? ==> forall k :: lo <= k < hi ==> t[k] == '\n'
  {
    if hi <= lo then None
    else if t[hi - 1] != '\n' then Some(hi - 1)
    else LastNonNewline(t, lo, hi - 1)
  }

  /**
   * Where the capture group starts when the pattern is tried at position `p`,
   * following the regex engine's backtracking: the whitespace run is greedy,
   * the optional "the " is tried before skipping it, and `.` matches
   * anything but a newline, so the capture must start on a non-newline
   * character. `None` when the pattern does not match at `p`.
   */
  function CaptureStart(t: string, pat: Pattern, p: nat): (r: Option<nat>)
    ensures r.Some? ==> OccursAt(t, pat.stem, p)
    ensures r.Some? ==> p + |pat.stem| < r.value < |t| && t[r.value] != '\n'
  {
    if !OccursAt(t, pat.stem, p) then None
    else
      var q := p + |pat.stem|;
      var pos := if pat.optionalS && q < |t| && t[q] == 's' then q + 1 else q;
      if pos >= |t| || !IsSpace(t[pos]) then None
      else
        var x := SpanEnd(t, pos);
        var afterThe :=
          if pat.optionalThe && OccursAt(t, "the", x) && x + 3 < |t| && IsSpace(t[x + 3]) then
            var y := SpanEnd(t, x + 3);
            if y < |t| then Some(y) else LastNonNewline(t, x + 4, |t|)
          else None;
        if afterThe.Some? then afterThe
        else if x < |t| then Some(x)
        else LastNonNewline(t, pos + 1, x)
  }

  /** `t[i..j]` for some bounds. */
  ghost predicate IsSlice(s: string, t: string) {
    exists i, j :: 0 <= i <= j <= |t| && s == t[i..j]
  }

  /**
   * `re.findall(pattern, t[from..])` for a pattern with one group: the
   * leftmost match, its capture running greedily to the end of the line,
   * then the search resumes where that match ended.
   */
  function FindAll(t: string, pat: Pattern, from: nat): (caps: seq<string>)
    requires from <= |t|
    ensures forall k :: 0 <= k < |caps| ==> |caps[k]| > 0
    decreases |t| - from
  {
    if from == |t| then []
    else
      match CaptureStart(t, pat, from)
      case None => FindAll(t, pat, from + 1)
      case Some(st) =>
        var e := LineEnd(t, st);
        [t[st..e]] + FindAll(t, pat, e)
  }

  /** Every capture is a piece of one line of the text. */
  lemma {:induction false} FindAllShape(t: string, pat: Pattern, from: nat)
    requires from <= |t|
    ensures forall c :: c in FindAll(t, pat, from) ==> '\n' !in c && IsSlice(c, t)
    decreases |t| - from
  {
    if from < |t| {
      match CaptureStart(t, pat, from)
      case None =>
        FindAllShape(t, pat, from + 1);
      case Some(st) =>
        var e := LineEnd(t, st);
        FindAllShape(t, pat, e);
        var c := t[st..e];
        assert forall m :: 0 <= m < |c| ==> c[m] == t[st + m];
        assert FindAll(t, pat, from) == [c] + FindAll(t, pat, e);
    }
  }

  /**
   * `match.strip().rstrip('.')`, computed on positions: from the first
   * non-space character to the start of the run of dots that ends at the
   * last non-space character.
   */
  function Clean(capture: string): (ph: string)
    ensures |ph| <= |capture|
    ensures ph != [] ==> !IsSpace(ph[0]) && ph[|ph| - 1] != '.'
  {
    var i := SpanEnd(capture, 0);
    var j := SpanStart(capture, |capture|);
    if j <= i then []
    else
      var k := RunStart(capture, '.', j);
      if k <= i then [] else capture[i..k]
  }

  lemma {:induction false} RunStartOfSlice(s: string, c: char, i: nat, j: nat, m: nat)
    requires i <= j <= m <= |s|
    ensures RunStart(s[i..m], c, j - i) == if RunStart(s, c, j) <= i then 0 else RunStart(s, c, j) - i
  {
    if j > i && s[j - 1] == c {
      assert s[i..m][j - i - 1] == s[j - 1];
      RunStartOfSlice(s, c, i, j - 1, m);
    } else if j > i {
      assert s[i..m][j - i - 1] == s[j - 1];
    }
  }

  lemma RStripOfSlice(capture: string, i: nat, j: nat)
    requires i < j <= |capture|
    ensures var k := RunStart(capture, '.', j);
      RStripChar(capture[i..j], '.') == if k <= i then [] else capture[i..k]
  {
    var s := capture[i..j];
    var k := RunStart(capture, '.', j);
    var m := RunStart(s, '.', |s|);
    assert m == (if k <= i then 0 else k - i) by {
      RunStartOfSlice(capture, '.', i, j, j);
    }
    if i < k {
      assert s[..m] == capture[i..k];
    }
  }

  /** The positional definition is the string-method one. */
  lemma CleanIsStripThenRStrip(capture: string)
    ensures Clean(capture) == RStripChar(Strip(capture), '.')
  {
    var i := SpanEnd(capture, 0);
    var j := SpanStart(capture, |capture|);
    if i < j {
      RStripOfSlice(capture, i, j);
    }
  }

  lemma CleanSlice(capture: string)
    ensures IsSlice(Clean(capture), capture)
  {
    var i := SpanEnd(capture, 0);
    var j := SpanStart(capture, |capture|);
    if j <= i || RunStart(capture, '.', j) <= i {
      assert Clean(capture) == capture[0..0];
    }
  }

  /** Every capture cleaned, in order. */
  function Cleaned(caps: seq<string>): (phs: seq<string>)
    ensures |phs| == |caps|
  {
    seq(|caps|, i requires 0 <= i < |caps| => Clean(caps[i]))
  }

  /** The phrases longer than two characters, in order. */
  function LongOnes(phs: seq<string>): seq<string> {
    if phs == [] then []
    else
      var ph := phs[|phs| - 1];
      LongOnes(phs[..|phs| - 1]) + (if |ph| > 2 then [ph] else [])
  }

  /** The cleaned captures longer than two characters, in order. */
  function Kept(caps: seq<string>): seq<string> {
    LongOnes(Cleaned(caps))
  }

  lemma {:induction false} LongOnesKeep(phs: seq<string>)
    ensures forall ph :: ph in LongOnes(phs) ==> ph in phs && |ph| > 2
  {
    if phs != [] {
      LongOnesKeep(phs[..|phs| - 1]);
      assert forall ph :: ph in phs[..|phs| - 1] ==> ph in phs;
    }
  }

  /** The key phrases found by `pats` in `t`, pattern by pattern, in order. */
  function KeyPhrases(t: string, pats: seq<Pattern>): seq<string> {
    if pats == [] then []
    else KeyPhrases(t, pats[..|pats| - 1]) + Kept(FindAll(t, pats[|pats| - 1], 0))
  }

  /** A slice of a slice of `t` is a slice of `t`. */
  lemma SliceOfSlice(a: string, b: string, t: string)
    requires IsSlice(a, b) && IsSlice(b, t)
    ensures IsSlice(a, t)
  {
    var i, j :| 0 <= i <= j <= |b| && a == b[i..j];
    var k, l :| 0 <= k <= l <= |t| && b == t[k..l];
    forall m | 0 <= m < j - i ensures a[m] == t[k + i + m] {
      assert a[m] == b[i + m];
    }
    assert a == t[k + i..k + j];
  }

  /** A phrase has the shape the cleaning and the length filter give it. */
  ghost predicate PhraseShape(ph: string, t: string) {
    |ph| > 2 && '\n' !in ph && IsSlice(ph, t) && !IsSpace(ph[0]) && ph[|ph| - 1] != '.'
  }

  lemma CleanShape(c: string, t: string)
    requires '\n' !in c && IsSlice(c, t) && |Clean(c)| > 2
    ensures PhraseShape(Clean(c), t)
  {
    var ph := Clean(c);
    CleanSlice(c);
    SliceOfSlice(ph, c, t);
    var i, j :| 0 <= i <= j <= |c| && ph == c[i..j];
    assert forall x :: x in ph ==> x in c;
  }

  lemma KeptShape(caps: seq<string>, t: string)
    requires forall c :: c in caps ==> '\n' !in c && IsSlice(c, t)
    ensures forall ph :: ph in Kept(caps) ==> PhraseShape(ph, t)
  {
    var phs := Cleaned(caps);
    LongOnesKeep(phs);
    forall ph | ph in Kept(caps) ensures PhraseShape(ph, t) {
      var i :| 0 <= i < |phs| && phs[i] == ph;
      CleanShape(caps[i], t);
    }
  }

  /**
   * Every key phrase lies within the rule text on one line, is longer than
   * two characters, starts with a non-space and does not end with '.'.
   */
  lemma {:induction false} KeyPhrasesShape(t: string, pats: seq<Pattern>)
    ensures forall ph :: ph in KeyPhrases(t, pats) ==> PhraseShape(ph, t)
  {
    if pats != [] {
      KeyPhrasesShape(t, pats[..|pats| - 1]);
      FindAllShape(t, pats[|pats| - 1], 0);
      KeptShape(FindAll(t, pats[|pats| - 1], 0), t);
    }
  }

  lemma LongOnesStep(phs: seq<string>, j: nat)
    requires j < |phs|
    ensures LongOnes(phs[..j + 1]) == LongOnes(phs[..j]) + (if |phs[j]| > 2 then [phs[j]] else [])
  {
    assert phs[..j + 1][..j] == phs[..j];
  }

  /** The inner phrase loop: clean each capture of one pattern and keep those longer than two characters. */
  method AppendKept(caps: seq<string>, prefix: seq<string>) returns (phrases: seq<string>)
    ensures phrases == prefix + Kept(caps)
  {
    ghost var cleaned := Cleaned(caps);
    phrases := prefix;
    var j := 0;
    while j < |caps|
      invariant 0 <= j <= |caps|
      invariant phrases == prefix + LongOnes(cleaned[..j])
    {
      var phrase := Clean(caps[j]);
      assert phrase == cleaned[j];
      LongOnesStep(cleaned, j);
      if |phrase| > 2 {
        phrases := phrases + [phrase];
      }
      j := j + 1;
    }
    assert cleaned[..j] == cleaned;
  }

  /** The phrase loops of `match_rule`: the key phrases of every pattern, in pattern order. */
  method ExtractPhrases(t: string, pats: seq<Pattern>) returns (phrases: seq<string>)
    ensures phrases == KeyPhrases(t, pats)
  {
    phrases := [];
    var i := 0;
    while i < |pats|
      invariant 0 <= i <= |pats|
      invariant phrases == KeyPhrases(t, pats[..i])
    {
      var caps := FindAll(t, pats[i], 0);
      phrases := AppendKept(caps, phrases);
      assert pats[..i + 1][..i] == pats[..i];
      i := i + 1;
    }
    assert pats[..i] == pats;
  }

  /** Some phrase of the list occurs in the text. */
  predicate PhraseFound(phrases: seq<string>, text: string) {
    exists k :: 0 <= k < |phrases| && Contains(text, phrases[k])
  }

  /** The early-return search over the phrases. */
  method FindPhrase(phrases: seq<string>, text: string) returns (found: bool)
    ensures found <==> PhraseFound(phrases, text)
  {
    var k := 0;
    while k < |phrases|
      invariant 0 <= k <= |phrases|
      invariant forall m :: 0 <= m < k ==> !Contains(text, phrases[m])
    {
      if Contains(text, phrases[k]) {
        return true;
      }
      k := k + 1;
    }
    return false;
  }

  // ---------------------------------------------------------- match_rule

  /** The exact-phrase branch of `match_rule`: full marks when a key phrase of the rule occurs in the answer. */
  function ExactOutcome(student: string, rule: string): (bool, real) {
    if PhraseFound(KeyPhrases(Lower(rule), ExactPatterns), Lower(student)) then (true, 1.0) else (false, 0.0)
  }

  /**
   * The keyword branch of `match_rule`: semantic similarity when the rule has
   * no key concepts, full marks for a key phrase found in the answer, and
   * otherwise the concept overlap, matched from 0.8.
   */
  function KeywordOutcome(o: Oracle, student: string, rule: string): (bool, real) {
    var ruleConcepts := KeyConcepts(o, rule);
    if ruleConcepts == {} then SemanticSimilarity(o, student, rule)
    else if PhraseFound(KeyPhrases(Lower(rule), KeywordPatterns), Lower(student)) then (true, 1.0)
    else
      var score := Overlap(KeyConcepts(o, student), ruleConcepts);
      (score >= 0.8, score)
  }

  /** What `match_rule` returns for an answer, a rule and the rule's type. */
  function MatchOutcome(o: Oracle, student: string, rule: string, kind: RuleType): (bool, real) {
    match kind
    case ExactPhrase => ExactOutcome(student, rule)
    case ContainsKeywords => KeywordOutcome(o, student, rule)
    case Semantic => SemanticSimilarity(o, student, rule)
  }

  method MatchExactPhrase(student: string, rule: string) returns (matched: bool, score: real)
    ensures (matched, score) == ExactOutcome(student, rule)
    ensures matched <==> PhraseFound(KeyPhrases(Lower(rule), ExactPatterns), Lower(student))
    ensures score == (if matched then 1.0 else 0.0)
  {
    var phrases := ExtractPhrases(Lower(rule), ExactPatterns);
    var found := FindPhrase(phrases, Lower(student));
    if found {
      return true, 1.0;
    }
    return false, 0.0;
  }

  method MatchKeywords(o: Oracle, student: string, rule: string) returns (matched: bool, score: real)
    ensures (matched, score) == KeywordOutcome(o, student, rule)
  {
    var ruleConcepts := KeyConcepts(o, rule);
    var studentConcepts := KeyConcepts(o, student);
    if ruleConcepts == {} {
      var r := SemanticSimilarity(o, student, rule);
      return r.0, r.1;
    }
    var phrases := ExtractPhrases(Lower(rule), KeywordPatterns);
    var found := FindPhrase(phrases, Lower(student));
    if found {
      return true, 1.0;
    }
    score := Overlap(studentConcepts, ruleConcepts);
    matched := score >= 0.8;
  }

  /** `match_rule`. */
  method MatchRule(o: Oracle, student: string, rule: string, kind: RuleType) returns (matched: bool, score: real)
    ensures (matched, score) == MatchOutcome(o, student, rule, kind)
  {
    match kind {
      case ExactPhrase =>
        matched, score := MatchExactPhrase(student, rule);
      case ContainsKeywords =>
        matched, score := MatchKeywords(o, student, rule);
      case Semantic =>
        var r := SemanticSimilarity(o, student, rule);
        matched, score := r.0, r.1;
    }
  }

  /**
   * A matched rule scores between 0.2 and 1.0, whatever its type; an unmatched
   * one scores at most 1.0 and no less than the weighted cosine floor.
   */
  lemma MatchScoreRange(o: Oracle, student: string, rule: string, kind: RuleType)
    requires ValidOracle(o)
    ensures var r := MatchOutcome(o, student, rule, kind);
      -0.7 <= r.1 <= 1.0 && (r.0 ==> 0.2 <= r.1)
  {
  }

  /** A keyword rule whose concepts all appear in the answer is matched with full score. */
  lemma AllConceptsMatch(o: Oracle, student: string, rule: string)
    requires KeyConcepts(o, rule) != {} && KeyConcepts(o, rule) <= KeyConcepts(o, student)
    ensures MatchOutcome(o, student, rule, ContainsKeywords) == (true, 1.0)
  {
  }
}
