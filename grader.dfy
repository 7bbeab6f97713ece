/**
 * Grading one answer: every rule of the marking scheme is matched against
 * the answer, the matched scores are averaged over all rules, a bonus from
 * the similarity to the sample answer is added to good answers (capped at
 * 1.0), and the result is turned into a letter grade.
 */
module Grader {

  import opened Text
  import opened Rules
  import opened GradeScale

  datatype Outcome = Outcome(score: real, grade: string, matchedRules: seq<string>, missedRules: seq<string>)

  /** Whether and how well the answer meets one rule, the rule's type detected from its text. */
  function RuleOutcome(o: Oracle, student: string, rule: string): (bool, real) {
    MatchOutcome(o, student, rule, DetectRuleType(rule))
  }

  /** The per-rule verdicts on one answer. */
  function Judge(o: Oracle, student: string): string -> (bool, real) {
    rule => RuleOutcome(o, student, rule)
  }

  /** A matched rule earns between 0.2 and 1.0. */
  ghost predicate Bounded(judge: string -> (bool, real)) {
    forall rule :: judge(rule).0 ==> 0.2 <= judge(rule).1 <= 1.0
  }

  lemma JudgeBounded(o: Oracle, student: string)
    requires ValidOracle(o)
    ensures Bounded(Judge(o, student))
  {
    forall rule | Judge(o, student)(rule).0 ensures 0.2 <= Judge(o, student)(rule).1 <= 1.0 {
      MatchScoreRange(o, student, rule, DetectRuleType(rule));
    }
  }

  /** The matched rules, the missed rules and the running total of matched scores after the given rules. */
  function Tally(judge: string -> (bool, real), rules: seq<string>): (seq<string>, seq<string>, real) {
    if rules == [] then ([], [], 0.0)
    else
      var prev := Tally(judge, rules[..|rules| - 1]);
      var rule := rules[|rules| - 1];
      var r := judge(rule);
      if r.0 then (prev.0 + [rule], prev.1, prev.2 + r.1)
      else (prev.0, prev.1 + [rule], prev.2)
  }

  lemma TallyStep(judge: string -> (bool, real), rules: seq<string>, i: nat)
    requires i < |rules|
    ensures var prev := Tally(judge, rules[..i]);
      Tally(judge, rules[..i + 1]) ==
        if judge(rules[i]).0 then (prev.0 + [rules[i]], prev.1, prev.2 + judge(rules[i]).1)
        else (prev.0, prev.1 + [rules[i]], prev.2)
  {
    assert rules[..i + 1][..i] == rules[..i];
  }

  /** The bonus for an answer close to the sample answer: a fifth of their similarity. */
  function SampleBonus(o: Oracle, student: string, sample: string): real {
    SemanticSimilarity(o, student, sample).1 * 0.2
  }

  /** The average score, raised by the bonus (up to 1.0) when it reaches 0.5. */
  function FinalScore(average: real, bonus: real): real {
    if average >= 0.5 then (if 1.0 < average + bonus then 1.0 else average + bonus) else average
  }

  /** What `grade_answer` returns. */
  function AnswerOutcome(o: Oracle, student: string, sample: string, rules: seq<string>, table: Table): Outcome {
    if rules == [] then Outcome(0.0, "F", [], [])
    else
      var t := Tally(Judge(o, student), rules);
      var score := FinalScore(t.2 / (|rules| as real), SampleBonus(o, student, sample));
      Outcome(score, AssignGrade(score, table), t.0, t.1)
  }

  /** `grade_answer`. */
  method GradeAnswer(o: Oracle, student: string, sample: string, rules: seq<string>, table: Table)
    returns (out: Outcome)
    ensures out == AnswerOutcome(o, student, sample, rules, table)
    ensures rules == [] ==> out == Outcome(0.0, "F", [], [])
  {
    if |rules| == 0 {
      return Outcome(0.0, "F", [], []);
    }
    var matched: seq<string> := [];
    var missed: seq<string> := [];
    var total := 0.0;
    var i := 0;
    ghost var judge := Judge(o, student);
    while i < |rules|
      invariant 0 <= i <= |rules|
      invariant (matched, missed, total) == Tally(judge, rules[..i])
    {
      var kind := DetectRuleType(rules[i]);
      var isMatched, score := MatchRule(o, student, rules[i], kind);
      assert (isMatched, score) == judge(rules[i]);
      TallyStep(judge, rules, i);
      if isMatched {
        matched := matched + [rules[i]];
        total := total + score;
      } else {
        missed := missed + [rules[i]];
      }
      i := i + 1;
    }
    assert rules[..i] == rules;
    var finalScore := total / (|rules| as real);
    if finalScore >= 0.5 {
      var sampleSimilarity := SemanticSimilarity(o, student, sample).1;
      var bonus := sampleSimilarity * 0.2;
      finalScore := if 1.0 < finalScore + bonus then 1.0 else finalScore + bonus;
    }
    var grade := AssignGrade(finalScore, table);
    return Outcome(finalScore, grade, matched, missed);
  }

  // ------------------------------------------------- reference definitions

  /** The rules the judge accepts, in their original order. */
  function MatchedRules(judge: string -> (bool, real), rules: seq<string>): seq<string> {
    if rules == [] then []
    else (if judge(rules[0]).0 then [rules[0]] else []) + MatchedRules(judge, rules[1..])
  }

  /** The rules the judge rejects, in their original order. */
  function MissedRules(judge: string -> (bool, real), rules: seq<string>): seq<string> {
    if rules == [] then []
    else (if judge(rules[0]).0 then [] else [rules[0]]) + MissedRules(judge, rules[1..])
  }

  /** The sum of the scores the judge gives the rules. */
  function SumScores(judge: string -> (bool, real), rules: seq<string>): real {
    if rules == [] then 0.0 else judge(rules[0]).1 + SumScores(judge, rules[1..])
  }

  lemma {:induction false} FiltersAppend(judge: string -> (bool, real), rules: seq<string>, rule: string)
    ensures MatchedRules(judge, rules + [rule]) == MatchedRules(judge, rules) + (if judge(rule).0 then [rule] else [])
    ensures MissedRules(judge, rules + [rule]) == MissedRules(judge, rules) + (if judge(rule).0 then [] else [rule])
  {
    if rules == [] {
      assert rules + [rule] == [rule];
    } else {
      assert (rules + [rule])[1..] == rules[1..] + [rule];
      FiltersAppend(judge, rules[1..], rule);
    }
  }

  lemma {:induction false} SumAppend(judge: string -> (bool, real), rules: seq<string>, rule: string)
    ensures SumScores(judge, rules + [rule]) == SumScores(judge, rules) + judge(rule).1
  {
    if rules == [] {
      assert rules + [rule] == [rule];
    } else {
      assert (rules + [rule])[1..] == rules[1..] + [rule];
      SumAppend(judge, rules[1..], rule);
    }
  }

  /**
   * The loop sorts the rules into matched and missed without reordering
   * them, and its total is the sum of the matched rules' scores.
   */
  lemma {:induction false} TallyIsPartition(judge: string -> (bool, real), rules: seq<string>)
    ensures Tally(judge, rules).0 == MatchedRules(judge, rules)
    ensures Tally(judge, rules).1 == MissedRules(judge, rules)
    ensures Tally(judge, rules).2 == SumScores(judge, MatchedRules(judge, rules))
  {
    if rules != [] {
      var init, rule := rules[..|rules| - 1], rules[|rules| - 1];
      assert rules == init + [rule];
      TallyIsPartition(judge, init);
      FiltersAppend(judge, init, rule);
      if judge(rule).0 {
        SumAppend(judge, MatchedRules(judge, init), rule);
      }
    }
  }

  /** Every rule lands in exactly one of the two lists, as many times as it occurs in the scheme. */
  lemma {:induction false} PartitionKeepsRules(judge: string -> (bool, real), rules: seq<string>)
    ensures multiset(MatchedRules(judge, rules)) + multiset(MissedRules(judge, rules)) == multiset(rules)
    ensures forall r :: r in MatchedRules(judge, rules) ==> judge(r).0
    ensures forall r :: r in MissedRules(judge, rules) ==> !judge(r).0
  {
    if rules != [] {
      PartitionKeepsRules(judge, rules[1..]);
      assert rules == [rules[0]] + rules[1..];
    }
  }

  // --------------------------------------------------------------- bounds

  lemma {:induction false} SumBounds(judge: string -> (bool, real), rules: seq<string>)
    requires Bounded(judge)
    ensures 0.0 <= SumScores(judge, MatchedRules(judge, rules)) <= |MatchedRules(judge, rules)| as real
    ensures |MatchedRules(judge, rules)| <= |rules|
  {
    if rules != [] {
      var rest := MatchedRules(judge, rules[1..]);
      SumBounds(judge, rules[1..]);
      if judge(rules[0]).0 {
        assert MatchedRules(judge, rules) == [rules[0]] + rest;
        assert ([rules[0]] + rest)[1..] == rest;
      } else {
        assert MatchedRules(judge, rules) == rest;
      }
    }
  }

  lemma RatioInUnitRange(a: real, n: real)
    requires 0.0 <= a <= n && n > 0.0
    ensures 0.0 <= a / n <= 1.0
  {
    assert a / n * n == a;
  }

  /** The bonus of the sample answer lies in [-0.14, 0.2]. */
  lemma SampleBonusRange(o: Oracle, student: string, sample: string)
    requires ValidOracle(o)
    ensures -0.14 <= SampleBonus(o, student, sample) <= 0.2
  {
  }

  /**
   * Below 0.5 the average is kept as it is; from 0.5 on the bonus moves it
   * by at most 0.14 down and never above 1.0.
   */
  lemma FinalScoreRange(average: real, bonus: real)
    requires 0.0 <= average <= 1.0 && -0.14 <= bonus <= 0.2
    ensures 0.0 <= FinalScore(average, bonus) <= 1.0
    ensures average < 0.5 ==> FinalScore(average, bonus) == average
    ensures average >= 0.5 ==> average - 0.14 <= FinalScore(average, bonus) && 0.36 <= FinalScore(average, bonus)
  {
  }

  /** With every matched rule earning at most 1.0, the average over all rules lies in [0, 1]. */
  lemma TallyAverageInUnitRange(judge: string -> (bool, real), rules: seq<string>)
    requires Bounded(judge) && rules != []
    ensures 0.0 <= Tally(judge, rules).2 / (|rules| as real) <= 1.0
  {
    TallyIsPartition(judge, rules);
    SumBounds(judge, rules);
    RatioInUnitRange(Tally(judge, rules).2, |rules| as real);
  }

  /** With a similarity in [-1, 1], the score of a graded answer lies in [0, 1]. */
  lemma ScoreInUnitRange(o: Oracle, student: string, sample: string, rules: seq<string>, table: Table)
    requires ValidOracle(o)
    ensures 0.0 <= AnswerOutcome(o, student, sample, rules, table).score <= 1.0
  {
    if rules != [] {
      JudgeBounded(o, student);
      TallyAverageInUnitRange(Judge(o, student), rules);
      SampleBonusRange(o, student, sample);
      FinalScoreRange(Tally(Judge(o, student), rules).2 / (|rules| as real), SampleBonus(o, student, sample));
    }
  }
}
