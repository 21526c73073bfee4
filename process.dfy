/** The dispatch of one user message (`process.py`, `chatbot_response`):
    the recognised intent decides the reply, and whether some dialogue is
    deferred to the console loop. */
module Process {
  import opened Common
  import opened Constants
  import opened Matcher
  import opened Preference
  import IntentMatching
  import QuestionAnswer
  import GameSearch
  import GameFact
  import Text

  const ChangeNameIntent: string := "change_name"
  const AnnounceNameIntent: string := "announce_name"
  const GeneralIntent: string := "general"
  const GameSearchIntent: string := "game_search"
  const PlatformRecommendationIntent: string := "platform_recommendation"
  const GenreExplorationIntent: string := "genre_exploration"

  const NameAgainMessage: string := "Can you please provide your name again?"
  const WentWrongMessage: string := "Something went wrong! Could you please restart the program?"

  /** Intents answered from the FAQ table. */
  predicate IsAnswerIntent(intent: string)
  {
    intent == AnnounceNameIntent || intent == GeneralIntent
  }

  /** Intents that start a game search. */
  predicate IsSearchIntent(intent: string)
  {
    intent == GameSearchIntent || intent == PlatformRecommendationIntent || intent == GenreExplorationIntent
  }

  /** Intents whose reply defers a dialogue to the console loop. */
  predicate DefersWork(intent: string)
  {
    intent == ChangeNameIntent || IsSearchIntent(intent) || GameFact.IsFactIntent(intent)
  }

  /** The work a reply defers (`function_to_execute`): capturing the user's
      name again, the search dialogue with the genre and platform captured
      from the message, or the fact dialogue on the message and its intent. */
  datatype Action =
    | CaptureUsername
    | SearchGames(genre: Option<string>, platform: Option<string>)
    | FindFact(query: Utterance, intent: string)

  /** `ChatbotResponse`: the message, the recognised intent (none when an
      exception was caught) and the deferred work, if any. */
  datatype ChatbotResponse = ChatbotResponse(message: string, intent: Option<string>, action: Option<Action>)
  {
    /** `__str__`: a response prints as its message. */
    function ToString(): (s: string)
      ensures s == message
    {
      message
    }
  }

  /** The data files the dispatch consults: `intent.csv`, `question_answer.csv`,
      `intent_response.csv`, the entries of the replacement dictionary with
      the values their producers return, and the English stopwords. */
  datatype Tables = Tables(
    intents: seq<Row>,
    faq: seq<Row>,
    responses: seq<IntentMatching.IntentResponse>,
    replacements: seq<(string, string)>,
    stopwords: set<string>)

  /** The message carries one similarity per row of the intent and FAQ
      tables. */
  predicate ScoredFor(query: Utterance, t: Tables)
  {
    |query.intentScores| == |t.intents| && |query.answerScores| == |t.faq|
  }

  /** The genre and platform `extract_genre_platform` captures from the
      message tokens. */
  function CapturedGenre(query: Utterance, t: Tables): Option<string>
  {
    GameSearch.Joined(GameSearch.Captured(query.tokens, t.stopwords, AvailableGenres))
  }

  function CapturedPlatform(query: Utterance, t: Tables): Option<string>
  {
    GameSearch.Joined(GameSearch.Captured(query.tokens, t.stopwords, AvailablePlatforms))
  }

  /** The reply to a message whose intent is `intent`; `pick` stands for
      the choice of `random.choice`. Only a failed FAQ match loses the
      intent, and then the reply is the fixed apology; otherwise it reports
      `intent`, and it defers work exactly for the name, search and fact
      intents, with the message and intent for a fact. */
  function Dispatch(intent: string, query: Utterance, t: Tables, pick: nat): (r: ChatbotResponse)
    requires ScoredFor(query, t)
    ensures r.intent.None? <==> IsAnswerIntent(intent) && QuestionAnswer.MatchedAnswer(query.answerScores, t.faq).Err?
    ensures r.intent.None? ==> r.message == WentWrongMessage && r.action.None?
    ensures r.intent.Some? ==> r.intent == Some(intent)
    ensures r.action.Some? <==> r.intent.Some? && DefersWork(intent)
    ensures r.action.Some? ==>
      (r.action.value.CaptureUsername? <==> intent == ChangeNameIntent) &&
      (r.action.value.SearchGames? <==> IsSearchIntent(intent)) &&
      (r.action.value.FindFact? <==> GameFact.IsFactIntent(intent)) &&
      (r.action.value.FindFact? ==> r.action.value == FindFact(query, intent))
  {
    if intent == ChangeNameIntent then
      ChatbotResponse(NameAgainMessage, Some(intent), Some(CaptureUsername))
    else if IsAnswerIntent(intent) then
      match QuestionAnswer.MatchedAnswer(query.answerScores, t.faq)
      case Err(_) => ChatbotResponse(WentWrongMessage, None, None)
      case Ok(answer) => ChatbotResponse(QuestionAnswer.Substitute(answer, t.replacements), Some(intent), None)
    else if IsSearchIntent(intent) then
      var genre, platform := CapturedGenre(query, t), CapturedPlatform(query, t);
      ChatbotResponse(GameSearch.GetGameSearchMessage(genre, platform), Some(intent), Some(SearchGames(genre, platform)))
    else if GameFact.IsFactIntent(intent) then
      ChatbotResponse(GameSearch.PleaseWait, Some(intent), Some(FindFact(query, intent)))
    else
      ChatbotResponse(IntentMatching.GetIntentResponse(intent, t.responses, pick), Some(intent), None)
  }

  /** `chatbot_response`: the reply to a message. A matcher exception,
      raised while recognising the intent or while matching the FAQ
      question, is caught and gives the fixed apology with neither intent
      nor deferred work; otherwise the reply reports the recognised intent,
      and it defers work exactly for the name, search and fact intents. */
  function Respond(query: Utterance, t: Tables, pick: nat): (r: ChatbotResponse)
    requires ScoredFor(query, t)
    ensures var found := IntentMatching.GetIntent(query.intentScores, t.intents);
      r.intent.None? <==>
        found.Err? || (IsAnswerIntent(found.value) && QuestionAnswer.MatchedAnswer(query.answerScores, t.faq).Err?)
    ensures r.intent.None? ==> r.message == WentWrongMessage && r.action.None?
    ensures r.intent.Some? ==> IntentMatching.GetIntent(query.intentScores, t.intents) == Ok(r.intent.value)
    ensures r.action.Some? <==> r.intent.Some? && DefersWork(r.intent.value)
  {
    match IntentMatching.GetIntent(query.intentScores, t.intents)
    case Err(_) => ChatbotResponse(WentWrongMessage, None, None)
    case Ok(intent) => Dispatch(intent, query, t, pick)
  }

  /** Only a search intent touches the preferences. */
  predicate ClearsPreferences(query: Utterance, t: Tables)
    requires ScoredFor(query, t)
  {
    var found := IntentMatching.GetIntent(query.intentScores, t.intents);
    found.Ok? && IsSearchIntent(found.value)
  }

  /** `chatbot_response` on the preference store: a search intent first
      clears every preference but the username. */
  method ChatbotRespond(query: Utterance, t: Tables, pick: nat, store: PreferenceStore) returns (r: ChatbotResponse)
    requires ScoredFor(query, t)
    modifies store
    ensures r == Respond(query, t, pick)
    ensures store.prefs == if ClearsPreferences(query, t) then ClearedExceptUsername(old(store.prefs)) else old(store.prefs)
  {
    var found := IntentMatching.GetIntent(query.intentScores, t.intents);
    if found.Err? {
      return ChatbotResponse(WentWrongMessage, None, None);
    }
    var intent := found.value;
    if intent == ChangeNameIntent {
      r := ChatbotResponse(NameAgainMessage, Some(intent), Some(CaptureUsername));
    } else if intent == AnnounceNameIntent || intent == GeneralIntent {
      var answer := QuestionAnswer.ProcessUserQuery(query.answerScores, t.faq, t.replacements);
      if answer.Err? {
        return ChatbotResponse(WentWrongMessage, None, None);
      }
      r := ChatbotResponse(answer.value, Some(intent), None);
    } else if intent == GameSearchIntent || intent == PlatformRecommendationIntent || intent == GenreExplorationIntent {
      store.ClearExceptUsername();
      var genre, platform := GameSearch.ExtractGenrePlatform(query.tokens, t.stopwords);
      r := ChatbotResponse(GameSearch.GetGameSearchMessage(genre, platform), Some(intent), Some(SearchGames(genre, platform)));
    } else if GameFact.IsFactIntent(intent) {
      r := ChatbotResponse(GameSearch.PleaseWait, Some(intent), Some(FindFact(query, intent)));
    } else {
      r := ChatbotResponse(IntentMatching.GetIntentResponse(intent, t.responses, pick), Some(intent), None);
    }
  }

  /** `change_name` asks for the name again and defers the name capture. */
  lemma ChangeNameDefersCapture(query: Utterance, t: Tables, pick: nat)
    requires ScoredFor(query, t)
    requires IntentMatching.GetIntent(query.intentScores, t.intents) == Ok(ChangeNameIntent)
    ensures Respond(query, t, pick) == ChatbotResponse(NameAgainMessage, Some(ChangeNameIntent), Some(CaptureUsername))
  {
  }

  /** `announce_name` and `general` reply with the matched FAQ answer, its
      placeholders substituted, and defer nothing; an answer without any
      placeholder key is returned as matched. */
  lemma AnswerIntentRepliesWithAnswer(query: Utterance, t: Tables, pick: nat, intent: string)
    requires ScoredFor(query, t)
    requires IntentMatching.GetIntent(query.intentScores, t.intents) == Ok(intent) && IsAnswerIntent(intent)
    requires QuestionAnswer.MatchedAnswer(query.answerScores, t.faq).Ok?
    ensures var answer := QuestionAnswer.MatchedAnswer(query.answerScores, t.faq).value;
      Respond(query, t, pick) == ChatbotResponse(QuestionAnswer.Substitute(answer, t.replacements), Some(intent), None)
    ensures var answer := QuestionAnswer.MatchedAnswer(query.answerScores, t.faq).value;
      (forall i :: 0 <= i < |t.replacements| ==> !Text.Contains(answer, t.replacements[i].0)) ==>
        Respond(query, t, pick).message == answer
  {
    var answer := QuestionAnswer.MatchedAnswer(query.answerScores, t.faq).value;
    if forall i :: 0 <= i < |t.replacements| ==> !Text.Contains(answer, t.replacements[i].0) {
      QuestionAnswer.NoKeyLeavesAnswer(answer, t.replacements);
    }
  }

  /** A search intent defers the search with the genre and platform
      captured from the message, and its message says what that search
      asks first: "Please wait..." exactly when both were captured, the
      platform question when only the genre was, the genre question when
      the genre was not. */
  lemma SearchIntentDefersSearch(query: Utterance, t: Tables, pick: nat, intent: string)
    requires ScoredFor(query, t)
    requires IntentMatching.GetIntent(query.intentScores, t.intents) == Ok(intent) && IsSearchIntent(intent)
    ensures var r := Respond(query, t, pick);
      r.intent == Some(intent) &&
      r.action == Some(SearchGames(CapturedGenre(query, t), CapturedPlatform(query, t)))
    ensures var r := Respond(query, t, pick);
      var genre, platform := CapturedGenre(query, t), CapturedPlatform(query, t);
      (r.message == GameSearch.PleaseWait <==> genre.Some? && platform.Some?) &&
      (r.message == GameSearch.PlatformMessage <==> genre.Some? && platform.None?) &&
      (r.message == GameSearch.GenreMessage <==> genre.None?)
    ensures ClearsPreferences(query, t)
  {
    GameSearch.ExtractedIsNeverEmptyString(query.tokens, t.stopwords);
  }

  /** The three fact intents reply "Please wait..." and defer the fact
      dialogue on the same message and intent. */
  lemma FactIntentDefersFact(query: Utterance, t: Tables, pick: nat, intent: string)
    requires ScoredFor(query, t)
    requires IntentMatching.GetIntent(query.intentScores, t.intents) == Ok(intent) && GameFact.IsFactIntent(intent)
    ensures Respond(query, t, pick) == ChatbotResponse(GameSearch.PleaseWait, Some(intent), Some(FindFact(query, intent)))
    ensures !ClearsPreferences(query, t)
  {
  }

  /** Any other intent replies with one of the responses listed for it, or
      the out-of-scope apology when none is, and defers nothing. */
  lemma OtherIntentGetsResponse(query: Utterance, t: Tables, pick: nat, intent: string)
    requires ScoredFor(query, t)
    requires IntentMatching.GetIntent(query.intentScores, t.intents) == Ok(intent)
    requires !DefersWork(intent) && !IsAnswerIntent(intent)
    ensures var r := Respond(query, t, pick);
      r.intent == Some(intent) && r.action.None? &&
      ((exists i :: 0 <= i < |t.responses| && t.responses[i].intent == intent && t.responses[i].response == r.message) ||
       ((forall i :: 0 <= i < |t.responses| ==> t.responses[i].intent != intent) && r.message == IntentMatching.OutOfScope))
  {
  }
}
