/** Intent classification and canned responses (`intent_matching.py`). */
module IntentMatching {
  import opened Common
  import opened Constants
  import opened Matcher

  /** A row of `intent_response.csv`. */
  datatype IntentResponse = IntentResponse(intent: string, response: string)

  const IntentColumn: string := "intent"

  const OutOfScope: string := "Apologies, I won't be able to answer this as it is out of my scope"

  /** `get_intent`: the "intent" cell of the row of `intent.csv` matched on
      its "value" column, with the default threshold. */
  function GetIntent(scores: seq<real>, rows: seq<Row>): (r: Result<string, MatchError>)
    requires |scores| == |rows|
    ensures |rows| == 0 ==> r == Err(EmptyCorpus)
    ensures |rows| > 0 && scores[ArgMax(scores)] >= DefaultSimilarityThreshold ==>
      (r.Ok? <==> IntentColumn in rows[ArgMax(scores)]) &&
      (r.Ok? ==> r.value == rows[ArgMax(scores)][IntentColumn])
    ensures |rows| > 0 && scores[ArgMax(scores)] < DefaultSimilarityThreshold ==>
      (r.Ok? <==> IntentColumn in rows[0]) &&
      (r.Ok? ==> r.value == rows[0][IntentColumn])
  {
    var k := if |rows| > 0 then SelectedIndex(scores, None) else 0;
    assert |rows| > 0 && scores[ArgMax(scores)] >= DefaultSimilarityThreshold ==> k == ArgMax(scores) by {
      if |rows| > 0 && scores[ArgMax(scores)] >= DefaultSimilarityThreshold {
        FirstMaxIsUnique(scores, k, ArgMax(scores));
      }
    }
    match GetSimilarResult(scores, rows, Single(IntentColumn), None)
    case Ok(payload) => Ok(payload.value)
    case Err(e) => Err(e)
  }

  /** The responses of the rows whose intent equals `intent`, in file order. */
  function ResponsesFor(rows: seq<IntentResponse>, intent: string): (r: seq<string>)
    ensures |r| == 0 <==> forall i :: 0 <= i < |rows| ==> rows[i].intent != intent
    ensures forall x :: x in r ==> exists i :: 0 <= i < |rows| && rows[i].intent == intent && rows[i].response == x
  {
    if |rows| == 0 then []
    else
      var rest := ResponsesFor(rows[1..], intent);
      assert forall x :: x in rest ==> exists i :: 1 <= i < |rows| && rows[i].intent == intent && rows[i].response == x by {
        forall x | x in rest
          ensures exists i :: 1 <= i < |rows| && rows[i].intent == intent && rows[i].response == x
        {
          var i :| 0 <= i < |rows[1..]| && rows[1..][i].intent == intent && rows[1..][i].response == x;
          assert rows[i + 1] == rows[1..][i];
        }
      }
      if rows[0].intent == intent then [rows[0].response] + rest else rest
  }

  /** `get_intent_response`: a response of one of the rows carrying the
      intent, or the fixed apology when no row does. The choice of
      `random.choice` is the `pick`-th candidate, counted cyclically. */
  function GetIntentResponse(intent: string, rows: seq<IntentResponse>, pick: nat): (r: string)
    ensures (forall i :: 0 <= i < |rows| ==> rows[i].intent != intent) ==> r == OutOfScope
    ensures (exists i :: 0 <= i < |rows| && rows[i].intent == intent) ==>
      exists i :: 0 <= i < |rows| && rows[i].intent == intent && rows[i].response == r
  {
    var candidates := ResponsesFor(rows, intent);
    if |candidates| > 0 then
      var chosen := candidates[pick % |candidates|];
      assert chosen in candidates;
      chosen
    else OutOfScope
  }

  lemma {:induction false} ResponsesForConcat(a: seq<IntentResponse>, b: seq<IntentResponse>, intent: string)
    ensures ResponsesFor(a + b, intent) == ResponsesFor(a, intent) + ResponsesFor(b, intent)
  {
    if |a| > 0 {
      ResponsesForConcat(a[1..], b, intent);
      assert (a + b)[1..] == a[1..] + b;
    } else {
      assert a + b == b;
    }
  }

  /** A row with another intent contributes no candidate response. */
  lemma OtherIntentHasNoResponse(a: seq<IntentResponse>, row: IntentResponse, b: seq<IntentResponse>, intent: string)
    requires row.intent != intent
    ensures ResponsesFor(a + [row] + b, intent) == ResponsesFor(a + b, intent)
  {
    ResponsesForConcat(a + [row], b, intent);
    ResponsesForConcat(a, [row], intent);
    ResponsesForConcat(a, b, intent);
    assert ResponsesFor([row], intent) == [];
    assert ResponsesFor(a, intent) + [] == ResponsesFor(a, intent);
  }

  /** A row with another intent never influences the response, whatever
      the random pick. */
  lemma OtherIntentIsIgnored(a: seq<IntentResponse>, row: IntentResponse, b: seq<IntentResponse>, intent: string, pick: nat)
    requires row.intent != intent
    ensures GetIntentResponse(intent, a + [row] + b, pick) == GetIntentResponse(intent, a + b, pick)
  {
    OtherIntentHasNoResponse(a, row, b, intent);
  }
}
