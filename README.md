# Gamebox chatbot ("Beetle Juice") — a Dafny model of its core

The chatbot answers a console user about the games of a small store. Each
message is classified into an intent by similarity against `intent.csv`,
and `chatbot_response` (`process.py`) dispatches on it:

- `change_name` asks for the name again;
- `announce_name` and `general` reply with an FAQ answer whose placeholders
  are substituted;
- the three search intents clear the preferences except the username, and
  capture a genre and a platform from the message;
- the three fact intents answer "Please wait...";
- every other intent gets a canned response from `intent_response.csv`.

The name, search and fact intents also defer a dialogue to the console loop.
The model has one module per source file:

| module | source |
|---|---|
| `Matcher` | `get_similar_result` |
| `IntentMatching` | intent recognition and canned responses |
| `QuestionAnswer` | FAQ answers and placeholder substitution |
| `Identity` | name capture from named-entity chunks |
| `Preference` | the preference store (`preferences.json`) |
| `GameSearch` | genre and platform capture, the reprompt loops, the catalogue search and the listing |
| `GameFact` | resolving a game name by confidence tier, the yes/no confirmation, the game in context and the requested catalogue column |
| `Process` | the dispatch |

Supporting modules: `Text` (the Python string operations used: `lower`,
`strip`, `in`, `split`, `join`, `replace`, `str(n)`), `Catalog` (the rows of
`games.csv`), `Constants` and `Common`.

How the model stands for the running program:

- **Similarity.** TF-IDF and cosine similarity are not modelled. A console
  line is an `Utterance`: its text, its tokens, and its similarity to every
  row of each corpus the chatbot matches against (the catalogue names, the
  search keywords, the intents and the FAQ questions). The matcher decides
  from those scores, as `get_similar_result` does after `argmax`: it takes
  the first best row, or row 0 when the best score is below the threshold.
  It then projects the requested column or columns, and models its
  exceptions as `MatchError`.
- **Console input.** The dialogues read `lines: seq<Utterance>` from index
  `from` on. Each dialogue is a specification function that returns how it
  ended, how many lines it read and what it printed:
  - `Finished`;
  - `OutOfInput`, where the program would wait for more input;
  - `Raised`, where an exception escapes.

  Printed lines are symbolic (`Line` constructors), and `Render` gives their
  text. Each dialogue loop is also a method with a `while` loop proved equal
  to its specification function. Properties are proved about those functions.
- **Preferences.** The store is a class whose `prefs` map is the in-memory
  image of `preferences.json`; its methods loop over the keys as the source
  does.
- **Game in context.** The source stores the committed game and leaves the
  loop at once. The model returns the game from the loop and stores it
  right after, which is the same.
- **Absent key.** An absent `game_in_context` key (`None`) is distinguished
  from the empty string. In `handle_game_fact`, `None != ""` leads a
  low-score question without a game name to `get_game_data(None, …)`, whose
  `str.contains(None)` raises. The model ends that run with `Raised`.
- **Dead branch.** The last `else` of the low-score chain
  (game_fact.py:313-316) cannot be reached. Its condition negates the
  first test, and `DifficultyIsUnreachable` proves this.

## Model

| member | source | states |
|---|---|---|
| Catalog.Cell | game_fact.py:32 | a catalogue row has exactly the five CSV columns; any other column name has no cell (the `KeyError` that falls to the apology) |
| Catalog.FormatInjective | game_search.py:120 | a result line `(name) short_description` gives back the name and the short description of its game, when the name holds no `)` |
| Matcher.ArgMax | utils/helpers.py:47 | `argmax` gives an index of the score vector |
| Matcher.ArgMaxBelow | utils/helpers.py:47 | the left-to-right scan over a prefix stays inside that prefix |
| Matcher.ArgMaxBelowIsFirstMax | utils/helpers.py:47 | the scan ends on a largest score of the prefix and every earlier score is strictly smaller |
| Matcher.ArgMaxIsFirstMax | utils/helpers.py:47 | `argmax` returns the first index holding the maximum |
| Matcher.FirstMaxIsUnique | utils/helpers.py:47 | the first-maximum property determines a single index |
| Matcher.EffectiveThreshold | utils/helpers.py:50 | a missing or `0.0` threshold (both falsy) becomes the default 0.65; any other given threshold is used as is |
| Matcher.SelectedIndex | utils/helpers.py:53 | when some score reaches the threshold the selected row is the first best one; when none does it is the fallback row 0 |
| Matcher.ScoreAtThresholdMatches | utils/helpers.py:53 | a best score exactly equal to the threshold counts as a match (`>=`) |
| Matcher.ZeroScoresSelectFallback | utils/helpers.py:50-53 | an all-zero similarity vector selects row 0 under any non-negative threshold |
| Matcher.FirstMissing | utils/helpers.py:63-70 | reports a requested column the row lacks exactly when one is missing |
| Matcher.Project | utils/helpers.py:57-73 | a `str` header gives that cell or `MissingColumn`; a list gives the cells in the requested order or names a missing column; any other header type is the `ValueError` |
| Matcher.GetSimilarResult | utils/helpers.py:7-76 | an empty corpus raises; otherwise the result is the projection of the selected row |
| Matcher.MatchUsesBestRowOrFallback | utils/helpers.py:47-61 | with the column present, the best row's cell is returned when its score reaches the threshold, row 0's otherwise |
| IntentMatching.GetIntent | intent_matching.py:5-26 | the intent is the "intent" cell of the best `intent.csv` row at threshold 0.65, or of row 0 below it; an empty table or missing column raises |
| IntentMatching.ResponsesFor | intent_matching.py:47 | the candidates are empty exactly when no row carries the intent, and each candidate is the response of a row carrying it |
| IntentMatching.GetIntentResponse | intent_matching.py:28-54 | without a row for the intent the reply is the out-of-scope apology; with one it is the response of some row carrying the intent |
| IntentMatching.ResponsesForConcat | intent_matching.py:47 | filtering the rows distributes over concatenation and keeps file order |
| IntentMatching.OtherIntentHasNoResponse | intent_matching.py:47 | inserting a row of another intent leaves the candidates unchanged |
| IntentMatching.OtherIntentIsIgnored | intent_matching.py:44-54 | a row of another intent never changes the reply, whatever the random pick |
| QuestionAnswer.MatchedAnswer | question_answer.py:19-25 | the answer of the best FAQ row at the default threshold, or of row 0 below it; an empty table raises |
| QuestionAnswer.MatchUsesBestRowOrFallbackAt | question_answer.py:19-25 | with no threshold given, a best score reaching 0.65 selects the `argmax` row |
| QuestionAnswer.GuardIsRedundant | question_answer.py:28-30 | the `key in matched_answer` test never changes the result: substituting without it gives the same answer |
| QuestionAnswer.NoKeyLeavesAnswer | question_answer.py:28-33 | an answer containing no placeholder key comes back unchanged |
| QuestionAnswer.SubstituteInSequence | question_answer.py:28-30 | the keys apply one after another, each to the result of the earlier ones |
| QuestionAnswer.ProcessUserQuery | question_answer.py:4-33 | returns the matched answer with every key replaced in dictionary order, and lets a matcher exception through |
| Identity.Words | identity_management.py:35 | the words of an entity are its leaves' words, one per leaf, in order |
| Identity.CollectNamesConcat | identity_management.py:32-38 | the names collected over two chunk lists are those of the first followed by those of the second |
| Identity.NonNameChunkIsIgnored | identity_management.py:32-38 | a chunk that is neither a PERSON/GPE/ORGANIZATION entity nor an NNP token contributes nothing wherever it stands |
| Identity.LastName | identity_management.py:41-47 | the returned name is the last collected one, and none exactly when nothing was collected |
| Identity.CollectNames | identity_management.py:32-38 | a name is collected exactly when some chunk contributes it: a leaf word of a PERSON, GPE or ORGANIZATION entity, or an NNP-tagged token |
| Identity.CollectNamesAsWritten | identity_management.py:32-38 | the loop as written raises exactly when some chunk is a one-leaf entity of another label; otherwise it collects exactly the intended names |
| Identity.SingleLeafLocationRaises | identity_management.py:37 | the one-word LOCATION entity "Paris" makes the loop as written raise, where the intended collection is empty |
| Identity.CaptureUserName | identity_management.py:4-47 | returns the last collected name; stores it under "username" when there is one and leaves the store alone otherwise |
| Preference.Lookup | utils/preference.py:37 | `dict.get`: a value exactly for a present key, and it is the stored one |
| Preference.ClearedAll | utils/preference.py:72-74 | clearing keeps every key and sets every value to "" |
| Preference.ClearedExceptUsername | utils/preference.py:91-94 | clearing keeps every key and the username's value, and sets every other value to "" |
| Preference.GetAfterUpdate | utils/preference.py:39-58 | a key reads back the value just written; every other key reads as before |
| Preference.ClearAllIdempotent | utils/preference.py:60-77 | clearing twice is clearing once |
| Preference.ClearExceptUsernameIdempotent | utils/preference.py:79-97 | clearing all but the username twice is doing it once |
| Preference.GetAfterClear | utils/preference.py:60-77 | after a full clear every existing key is still present and reads "" |
| Preference.PreferenceStore.constructor | utils/preference.py:4-20 | the store holds the loaded dictionary |
| Preference.PreferenceStore.Get | utils/preference.py:22-37 | a value exactly for a stored key, the stored one |
| Preference.PreferenceStore.Update | utils/preference.py:39-58 | adds or overwrites the key and changes nothing else |
| Preference.PreferenceStore.Clear | utils/preference.py:60-77 | the loop over the keys leaves the fully cleared dictionary |
| Preference.PreferenceStore.ClearExceptUsername | utils/preference.py:79-97 | the loop over the keys leaves every value but the username's cleared |
| GameSearch.GetGameSearchMessage | game_search.py:13-39 | "Please wait..." exactly when both values are truthy; the platform question exactly when only the genre is; the genre question exactly when the genre is not |
| GameSearch.Captured | game_search.py:56-67 | every capture is a lowercased non-stopword of the vocabulary, at most one per token |
| GameSearch.CapturedConcat | game_search.py:63-67 | capturing distributes over concatenated token lists |
| GameSearch.CapturedKeepsOrder | game_search.py:56-67 | a token is captured in place, in its lowercase form, exactly when that form is a non-stopword of the vocabulary; order and repeats are kept |
| GameSearch.Joined | game_search.py:70-71 | the joined capture is `None` exactly when nothing was captured |
| GameSearch.ExtractGenrePlatform | game_search.py:41-74 | the single pass returns the comma-joined genre captures and platform captures, `None` for none |
| GameSearch.ExtractedIsNeverEmptyString | game_search.py:70-71 | an extracted genre or platform is absent or non-empty, so truthiness is presence |
| GameSearch.ExtractedKeywordsRoundTrip | game_search.py:70-71 | splitting an extracted value on "," gives back exactly the captured keywords |
| GameSearch.MatchIndices | game_search.py:99-112 | the surviving row indices are in range and strictly increasing (catalogue order) |
| GameSearch.KeywordsMatchAll | game_search.py:99-112 | a filter on comma-joined keywords keeps a row exactly when every keyword occurs in its lowercased cell; "na" keeps every row |
| GameSearch.MatchIndicesAreKept | game_search.py:99-112 | the indices listed are exactly the rows both filters keep |
| GameSearch.Draw | game_search.py:119 | sampling without replacement: `min(k, pool size)` distinct elements of the pool |
| GameSearch.SearchGame | game_search.py:78-124 | at most five result lines |
| GameSearch.SearchGameReturnsMatches | game_search.py:115-124 | up to five matches are all listed, formatted, in catalogue order; beyond five, exactly five distinct matching rows are listed |
| GameSearch.Listing | game_search.py:126-148 | an empty list prints the apology; otherwise the header and one line per game, numbered from 1 in list order |
| GameSearch.ListedOnce | game_search.py:144-145 | each game of the list appears on exactly one numbered line |
| GameSearch.ListLinesDiffer | game_search.py:145 | lines with different numbers differ |
| GameSearch.ListGames | game_search.py:126-148 | the printing loop prints the listing |
| GameSearch.KeywordLookup | game_search.py:174-180 | an empty keyword table raises; otherwise the result is the (value, response, type) of the row the matcher selects with threshold 0.6 (the first best row, or row 0 when no row reaches 0.6), or the missing-column error when that row lacks one of the three |
| GameSearch.Lookups | game_search.py:171-180 | one lookup per console line |
| GameSearch.ResolveRun | game_search.py:170-189 | the reprompt loop stays within the input, reads it all when it runs out, and reads at least one line otherwise |
| GameSearch.ResolveRunStopsAtFirstAccepted | game_search.py:183-189 | every rejected line was a successful lookup of the wrong kind or "not_found"; the loop stops on the first accepted line or the first exception |
| GameSearch.RepromptUntilValid | game_search.py:170-210 | the loop method ends as the reprompt-loop function says and prints one reprompt per rejected line |
| GameSearch.AskFor | game_search.py:170-210 | a captured value skips the loop and reads nothing; otherwise the stage stays within the input |
| GameSearch.AskForEndsOnLastLine | game_search.py:170-210 | a stage that went on accepted its last line after rejecting all the others; one that raised did so on its last line |
| GameSearch.Ask | game_search.py:170-210 | the stage method agrees with the stage function |
| GameSearch.GameSearchRun | game_search.py:150-216 | the whole dialogue reads no more lines than there are |
| GameSearch.AfterGenre | game_search.py:192-216 | the platform stage, search and listing read no more lines than there are |
| GameSearch.BothCapturedSearchesAtOnce | game_search.py:170-216 | with both values captured no line is read, and only the listing of the search on them is printed, with an empty header response |
| GameSearch.SearchUsesAcceptedGenre | game_search.py:170-213 | a finished search without a captured genre searched the non-empty value of a line `j` whose lookup found a "genre" row, after lines whose lookups were rejected; its last printed line is the listing of that genre with the platform stage that reads from line `j + 1` |
| GameSearch.GameSearchFinishesWithListing | game_search.py:150-216 | the search finishes exactly when both stages go on and both search arguments are set; it then reads the two stages' lines and prints their output, the genre confirmation, and last the listing of `search_game` on the preferred genre and platform under the platform row's response (empty when the platform was captured or is "na") |
| GameSearch.PreferAcceptedValue | game_search.py:213 | a search argument is the accepted row's value when that is non-empty, and the captured value otherwise |
| GameSearch.HandleGameSearch | game_search.py:150-216 | the dialogue method reads and prints what the dialogue function says |
| GameSearch.SearchAfterGenre | game_search.py:192-216 | the method for the platform stage, search and listing agrees with its function |
| GameFact.FirstContaining | game_fact.py:29 | finds the first row whose lowercased name contains the lowercased query, or reports that none does |
| GameFact.GetGameData | game_fact.py:9-38 | no matching row or an unknown column gives the apology; otherwise the first matching row's cell |
| GameFact.GetIntentBasedGameData | game_fact.py:40-67 | each fact intent gives its sentence about the game's description, genre or platform; any other intent gives the unrecognised-intent apology |
| GameFact.FactReplyNamesGame | game_fact.py:56-65 | every fact reply starts with the game's name in parentheses |
| GameFact.GameWords | game_fact.py:98 | filtering keeps at most as many words as there are tokens |
| GameFact.GameWordsDropStopwords | game_fact.py:98-101 | no kept word is an English or custom stopword; nothing is kept exactly when every token is one |
| GameFact.IsGameInInput | game_fact.py:70-101 | the input names a game exactly when some lowercased token is neither an English nor a custom stopword |
| GameFact.ExtractGame | game_fact.py:104-145 | fails (the vectorizer raises) exactly on an empty catalogue |
| GameFact.ExtractGameIsFirstBest | game_fact.py:119-145 | the score is the best one and the name is that of the first row reaching it |
| GameFact.TierOf | game_fact.py:221-230 | the bands below 0.45, from 0.45 to below 0.80, and 0.80 and above, each exactly |
| GameFact.NormalizeIsStripLower | game_fact.py:173-182 | the reply is read as `strip().lower()` |
| GameFact.FirstDecisiveFromIsFirst | game_fact.py:165-190 | the line found is "yes" or "no" and none before it is; when none is found no line is |
| GameFact.ConfirmRun | game_fact.py:165-192 | the confirmation never raises, stays within the input, and reads a line when it finishes |
| GameFact.ConfirmRunStopsAtFirstAnswer | game_fact.py:165-192 | it stops at the first "yes" or "no" after repeating the question; without one it reads everything and confirms nothing; it confirms exactly on "yes" |
| GameFact.ConfirmRunAnsweredAt | game_fact.py:165-192 | when line `k` is the first "yes" or "no", the confirmation finishes having read through line `k`, printed the question before each line it read and the apology for not understanding after each earlier line, and confirms exactly on "yes" |
| GameFact.ConfirmRunUnanswered | game_fact.py:165-192 | when no line left is a "yes" or "no", the confirmation runs out of input, having read every line, printed the question and the apology for each, and asked the question once more; it confirms nothing |
| GameFact.ConfirmedIffFirstAnswerIsYes | game_fact.py:165-192 | the guess is confirmed exactly when the first "yes"/"no" line is "yes" |
| GameFact.HandleIntermediateConfidence | game_fact.py:147-192 | the loop method ends, reads, prints and confirms as the confirmation function says |
| GameFact.ContextRound | game_fact.py:211-262 | a pass reads at least one line when it goes round again, and commits a game exactly when it finishes |
| GameFact.ContextLoop | game_fact.py:210-262 | the name loop stays within the input and commits a game exactly when it finishes |
| GameFact.ContextRoundCommitsCatalogGame | game_fact.py:230-262 | a pass only commits the name of a catalogue row |
| GameFact.ContextLoopCommitsCatalogGame | game_fact.py:210-262 | the name loop only stores a game of the catalogue as the game in context |
| GameFact.ContextRoundFollowsTier | game_fact.py:210-262 | one pass of the name loop, by tier of the best match: no catalogue raises; a low score prints "not stocked" when a game word is in the input and asks for the name again otherwise, and goes round; an uncertain match is put to the user, then stored and described with thanks when confirmed, asked for again when denied, and the dialogue stops when the confirmation does; a certain match is stored and described at once |
| GameFact.ContextRoundCommitsOn | game_fact.py:230-262 | a pass of the name loop that stores a game stores the best match of the name it read, with a certain score or confirmed by the user in the lines it read |
| GameFact.ContextLoopCommitsMatchedGame | game_fact.py:210-262 | the game the name loop stores is the best match of the name read on some line `k` of the lines it read, certain or confirmed in the lines up to where it stops |
| GameFact.GameInContextRun | game_fact.py:194-262 | the dialogue first asks for the name, stays within the input and commits a game exactly when it finishes |
| GameFact.GameInContextCommitsMatchedGame | game_fact.py:194-262 | the game `handle_game_in_context` stores is the best match of a name it read, certain or confirmed by the user |
| GameFact.HandleGameInContext | game_fact.py:194-262 | reads and prints what the dialogue function says; the store gains the committed game in context, and is otherwise unchanged |
| GameFact.ContextDialogue | game_fact.py:207-262 | the loop method ends, reads, prints and commits as the dialogue function says |
| GameFact.ContextPass | game_fact.py:210-262 | one pass either ends the whole run or leaves the run continuing after the lines it read |
| GameFact.ContextStep | game_fact.py:211-262 | the loop body acts on the tier of the line read, as the pass function says |
| GameFact.DifficultyIsUnreachable | game_fact.py:292-316 | the final `else` of the low-score chain is dead: an empty game in context asks for the game; otherwise a game-looking input is "not stocked" and any other input uses the game in context |
| GameFact.FactRound | game_fact.py:283-350 | a pass stays within the input, commits only when it finishes, and hands over exactly for a low score with an empty game in context |
| GameFact.FactLoop | game_fact.py:283-350 | the fact loop stays within the input and commits only when it finishes |
| GameFact.GameFactRun | game_fact.py:264-350 | the whole dialogue, with any hand-over, stays within the input and commits only when it finishes |
| GameFact.FactRoundCommitsCatalogGame | game_fact.py:336-350 | a pass of the fact loop only commits a catalogue game |
| GameFact.FactLoopCommitsCatalogGame | game_fact.py:283-350 | the fact loop only stores a catalogue game |
| GameFact.GameFactCommitsCatalogGame | game_fact.py:264-350 | `handle_game_fact`, including the dialogue it hands over to, only ever stores a catalogue game as the game in context |
| GameFact.FactRoundFollowsTier | game_fact.py:289-350 | one pass of the fact loop, by tier of the best match for its query: no catalogue raises; a low score hands over or answers at once and stores nothing; an uncertain match is put to the user, then stored and described with thanks when confirmed, and when denied the game is asked for again and the pass goes round on the next input (or stops when there is none); a certain match is stored and described at once |
| GameFact.FactRoundCommitsOn | game_fact.py:317-350 | a pass of the fact loop that stores a game stores the best match for its query, with a certain score or confirmed by the user in the lines it read |
| GameFact.FactLastPass | game_fact.py:283-334 | the last pass of the fact loop runs on its first query, or on the input read last by the pass before it, after a denied guess |
| GameFact.FactLoopCommitsMatchedGame | game_fact.py:283-350 | the game the fact loop stores is the best match for the query of its last pass, certain or confirmed in the lines up to where it stops |
| GameFact.FactLoopCommitsQueryOrLine | game_fact.py:283-350 | when the fact loop ends with a stored game, that game is the best match for the first query, or for the input on some line `k` it read, certain or confirmed in the lines after `k` up to where it stops |
| GameFact.GameFactCommitsMatchedGame | game_fact.py:264-350 | the game `handle_game_fact` stores, itself or through `handle_game_in_context`, is the best match for the query or for the input read on some line `k`, certain or confirmed by the user |
| GameFact.ContextAnswersQuestionWithoutGame | game_fact.py:292-311 | a low-score question without a game name, with a stored game in context, reads no line and prints that game's details |
| GameFact.EmptyContextAsksForGame | game_fact.py:292-299 | a low score with an empty game in context runs exactly the `handle_game_in_context` dialogue |
| GameFact.HandleGameFact | game_fact.py:264-350 | reads and prints what the dialogue function says, given the stored game in context; the store gains the committed game and is otherwise unchanged |
| GameFact.FactDialogue | game_fact.py:280-350 | the loop method ends or hands over, reads, prints and commits as the fact-loop function says |
| GameFact.FactStep | game_fact.py:286-350 | the loop body with the game in context read from the store acts as the pass function says |
| Text.Lower | game_fact.py:98 | `str.lower`: same length, each letter lowercased |
| Text.Split | game_search.py:101-109 | `str.split` gives at least one piece, and no piece holds the separator |
| Text.SplitJoin | game_search.py:70-112 | splitting what was joined gives the pieces back when none holds the separator |
| Text.JoinSplit | game_search.py:70-112 | joining what was split gives the string back |
| Text.ReplaceAbsent | question_answer.py:29-30 | `replace` of a key that does not occur changes nothing |
| Text.ReplaceBySelf | question_answer.py:30 | replacing a key by itself changes nothing |
| Text.NatToString | game_search.py:145 | `str(n)` is a non-empty string of decimal digits, one digit exactly for `n < 10` |
| Text.NatToStringRoundTrip | game_search.py:145 | reading the numeral back gives the number |
| Text.NatToStringInjective | game_search.py:145 | distinct numbers print as distinct numerals |
| Process.ChatbotResponse.ToString | process.py:20-21 | a response prints as its message |
| Process.Dispatch | process.py:46-77 | for a recognised intent, only a failed FAQ match loses the intent and gives the fixed apology; otherwise the reply reports the intent and defers work exactly for the name, search and fact intents: capturing the name for `change_name`, a search for the search intents, and the fact dialogue on the same message and intent for the fact intents |
| Process.Respond | process.py:24-79 | the reply has no intent exactly when recognising the intent raises, or when an FAQ intent's answer lookup raises; it then carries the fixed apology and no deferred work; otherwise it reports the recognised intent and defers work exactly for the name, search and fact intents |
| Process.ChatbotRespond | process.py:38-79 | the method replies as `Respond`; a recognised search intent clears every preference but the username, and nothing else touches the store |
| Process.ChangeNameDefersCapture | process.py:46-51 | `change_name` asks for the name again and defers the name capture |
| Process.AnswerIntentRepliesWithAnswer | process.py:53-55 | `announce_name` and `general` reply with the substituted FAQ answer and defer nothing; an answer without any key is returned as matched |
| Process.SearchIntentDefersSearch | process.py:58-69 | a search intent defers the search on the captured genre and platform; its message is "Please wait...", the platform question or the genre question as they were captured; it clears the preferences |
| Process.FactIntentDefersFact | process.py:70-75 | a fact intent replies "Please wait..." and defers the fact dialogue on the same message and intent, without touching the preferences |
| Process.OtherIntentGetsResponse | process.py:76-77 | any other intent replies with a response listed for it, or the out-of-scope apology when none is, and defers nothing |

## Left out

- TF-IDF vectorisation and cosine similarity (scikit-learn) are not modelled. Each console line comes with its similarity vectors (`Utterance`).
- Tokenising, part-of-speech tagging and named-entity chunking (NLTK) are not modelled. Tokens and chunk lists are inputs; the English stopword list is the `stopwords` parameter.
- `preprocess_text` (preprocessing.py) is not modelled: it only feeds the similarity scores.
- `main.py` is not modelled: the console loop, the greeting and the final `clear_preferences` belong to it. The deferred dialogues are modelled as their own operations, not wired into a loop.
- `handle_capture_username` (utils/helpers.py:78-100) is not modelled. It is a read-until-captured loop around `capture_user_name`, which is modelled. `process.py` imports it from `identity_management`, which does not define it. The model keeps only the deferred `CaptureUsername` action.
- utils/game_search.py is not part of this model: it is an older variant of game_search.py and nothing in the core uses it.
- File and JSON I/O are not modelled: loading and dumping `preferences.json` are a read and an assignment of the store's map. Reading the CSV files is the sequences of rows passed in. A missing or corrupt file is not modelled.
- Deferred work is the symbolic `Action` value, not a closure.
- `str.contains(..., case=False)` is read as a plain substring test, not a regular expression.
- `str.lower` and `str.strip` cover the ASCII letters and the ASCII and Latin-1 white space; other Unicode case mappings and spaces are not modelled.
- `random.choice` is the `pick` argument, counted cyclically over the candidates.
- `DataFrame.sample(n=5)` is the `draws` argument, a draw without replacement. Only the properties of a sample are proved, not its distribution; the five rows are listed in draw order.
- The placeholder producers of `string_replacement_dict` are the (key, value) entries they return at reply time, in dictionary order.
- The program blocking on a console that has no more input is the `OutOfInput` ending.
- Cells are never `NaN`: the `na=False` of game_fact.py:29 has nothing to act on.
- A list-valued header of `get_similar_result` yields a lazy generator. Every caller unpacks it at once, so a missing column is reported when the matcher returns.
- GameSearch.SearchGame: its own contract only bounds the list to five lines; which lines are listed is stated in `SearchGameReturnsMatches`.
- GameSearch.GameSearchRun: its own contract only bounds the lines read. When it finishes and what it prints last is stated in `GameSearchFinishesWithListing`; the lines the genre stage reads, in `AskForEndsOnLastLine` and `SearchUsesAcceptedGenre`.
- GameFact.FactRound: its own contract gives bounds, the commit rule and the hand-over condition. Its branches by confidence tier are stated in `FactRoundFollowsTier`, the low-score branches in `ContextAnswersQuestionWithoutGame`, `EmptyContextAsksForGame` and `DifficultyIsUnreachable`.
- GameFact.ContextRound: its own contract gives bounds and the commit rule. Its branches by confidence tier are stated in `ContextRoundFollowsTier`.
- GameFact.FactRoundFollowsTier: for a low score it says only that the pass hands over or ends at once without storing a game; which of the three answers it gives is stated in `ContextAnswersQuestionWithoutGame`, `EmptyContextAsksForGame` and `DifficultyIsUnreachable`.

## Findings

| source | as written | input that shows it | evidently intended | confidence | as-written member | corrected member |
|---|---|---|---|---|---|---|
| identity_management.py:37 | the `elif chunk[1] == "NNP"` test also runs on entity subtrees of labels other than PERSON, GPE and ORGANIZATION; on a one-leaf subtree the index raises `IndexError` | the chunk list `[(LOCATION Paris/NNP)]`, a one-word LOCATION entity | such entities contribute no name and do not raise (`Identity.CollectNames`, which `CaptureUserName` uses) | not executed | Identity.SingleLeafLocationRaises | Identity.NonNameChunkIsIgnored |
