/** FAQ answers with placeholder substitution (`question_answer.py`). The
    replacement dictionary is given as its entries in dictionary order, each
    with the value its producer function returns at response time. */
module QuestionAnswer {
  import opened Common
  import opened Constants
  import opened Text
  import opened Matcher

  const AnswerColumn: string := "answer"

  /** The answer of the row of `question_answer.csv` matched on its
      "question" column with the default threshold. */
  function MatchedAnswer(scores: seq<real>, rows: seq<Row>): (r: Result<string, MatchError>)
    requires |scores| == |rows|
    ensures |rows| == 0 ==> r == Err(EmptyCorpus)
    ensures |rows| > 0 && scores[ArgMax(scores)] >= DefaultSimilarityThreshold && AnswerColumn in rows[ArgMax(scores)] ==>
      r == Ok(rows[ArgMax(scores)][AnswerColumn])
    ensures |rows| > 0 && scores[ArgMax(scores)] < DefaultSimilarityThreshold && AnswerColumn in rows[0] ==>
      r == Ok(rows[0][AnswerColumn])
  {
    assert |rows| > 0 && scores[ArgMax(scores)] >= DefaultSimilarityThreshold ==> SelectedIndex(scores, None) == ArgMax(scores) by {
      if |rows| > 0 {
        MatchUsesBestRowOrFallbackAt(scores, rows);
      }
    }
    match GetSimilarResult(scores, rows, Single(AnswerColumn), None)
    case Ok(payload) => Ok(payload.value)
    case Err(e) => Err(e)
  }

  lemma MatchUsesBestRowOrFallbackAt(scores: seq<real>, rows: seq<Row>)
    requires |scores| == |rows| > 0
    ensures scores[ArgMax(scores)] >= DefaultSimilarityThreshold ==> SelectedIndex(scores, None) == ArgMax(scores)
  {
    if scores[ArgMax(scores)] >= DefaultSimilarityThreshold {
      FirstMaxIsUnique(scores, SelectedIndex(scores, None), ArgMax(scores));
    }
  }

  /** The substitution loop: for each key in order, if it occurs in the
      current answer, all its occurrences are replaced by its value. */
  function Substitute(answer: string, replacements: seq<(string, string)>): string
    decreases |replacements|
  {
    if |replacements| == 0 then answer
    else
      var (key, value) := replacements[0];
      var next := if Contains(answer, key) then ReplaceAll(answer, key, value) else answer;
      Substitute(next, replacements[1..])
  }

  /** The same loop without the `if key in matched_answer` test. */
  function SubstituteUnguarded(answer: string, replacements: seq<(string, string)>): string
    decreases |replacements|
  {
    if |replacements| == 0 then answer
    else SubstituteUnguarded(ReplaceAll(answer, replacements[0].0, replacements[0].1), replacements[1..])
  }

  /** The membership test only skips work: without it the answer is the same. */
  lemma {:induction false} GuardIsRedundant(answer: string, replacements: seq<(string, string)>)
    ensures Substitute(answer, replacements) == SubstituteUnguarded(answer, replacements)
    decreases |replacements|
  {
    if |replacements| > 0 {
      var (key, value) := replacements[0];
      if !Contains(answer, key) {
        ReplaceAbsent(answer, key, value);
      }
      GuardIsRedundant(if Contains(answer, key) then ReplaceAll(answer, key, value) else answer, replacements[1..]);
    }
  }

  /** When no key occurs in the answer, the answer is returned as matched. */
  lemma {:induction false} NoKeyLeavesAnswer(answer: string, replacements: seq<(string, string)>)
    requires forall i :: 0 <= i < |replacements| ==> !Contains(answer, replacements[i].0)
    ensures Substitute(answer, replacements) == answer
  {
    if |replacements| > 0 {
      NoKeyLeavesAnswer(answer, replacements[1..]);
    }
  }

  /** Keys are applied one after another, each to the result of the earlier
      ones. */
  lemma {:induction false} SubstituteInSequence(answer: string, first: seq<(string, string)>, second: seq<(string, string)>)
    ensures Substitute(answer, first + second) == Substitute(Substitute(answer, first), second)
    decreases |first|
  {
    if |first| == 0 {
      assert first + second == second;
    } else {
      var (key, value) := first[0];
      var next := if Contains(answer, key) then ReplaceAll(answer, key, value) else answer;
      assert (first + second)[1..] == first[1..] + second;
      SubstituteInSequence(next, first[1..], second);
    }
  }

  /** `process_user_query`: the matched answer with its placeholders
      substituted; a matcher exception propagates. */
  method ProcessUserQuery(scores: seq<real>, rows: seq<Row>, replacements: seq<(string, string)>)
    returns (r: Result<string, MatchError>)
    requires |scores| == |rows|
    ensures MatchedAnswer(scores, rows).Err? ==> r == MatchedAnswer(scores, rows)
    ensures MatchedAnswer(scores, rows).Ok? ==> r == Ok(Substitute(MatchedAnswer(scores, rows).value, replacements))
  {
    var matched := MatchedAnswer(scores, rows);
    if matched.Err? {
      return matched;
    }
    var answer := matched.value;
    var i := 0;
    while i < |replacements|
      invariant 0 <= i <= |replacements|
      invariant Substitute(answer, replacements[i..]) == Substitute(matched.value, replacements)
    {
      var (key, value) := replacements[i];
      if Contains(answer, key) {
        answer := ReplaceAll(answer, key, value);
      }
      assert replacements[i..][1..] == replacements[i + 1..];
      i := i + 1;
    }
    r := Ok(answer);
  }
}
