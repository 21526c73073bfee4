/** Answering questions about one game (`game_fact.py`): resolving the game
    name by similarity, confirming uncertain matches, remembering the game
    in context, and reading the requested column of the catalogue. */
module GameFact {
  import opened Common
  import opened Constants
  import opened Text
  import opened Matcher
  import opened Catalog
  import opened Preference

  const NotFoundData: string := "Sorry, I Couldn't find the data which you were looking for"
  const UnrecognisedMessage: string := "I am sorry, but I am not able to recognize the intent of the statement. Please try rephrasing your request?"
  const FactIntent: string := "game_fact"
  const GenreFactIntent: string := "game_genre_fact"
  const PlatformFactIntent: string := "game_platform_fact"

  /** Words that are not taken as part of a game name. */
  const CustomStopwords: set<string> := {
    "i", "information", "game", "opinion", "review", "interest", "read", "type",
    "provide", "description", "detail", "insight", "fact", "tell", "give", "how",
    "more", "info", "about", "learn", "understand", "explain", "platform",
    "genre", "available", "compatible", "play", "show", "platforms", "support", "run",
    "?", ".", "!"}

  const LowConfidence: real := 0.45
  const HighConfidence: real := 0.80

  predicate IsFactIntent(intent: string)
  {
    intent == FactIntent || intent == GenreFactIntent || intent == PlatformFactIntent
  }

  // ---------------------------------------------------------------------
  // Catalogue lookups

  /** The first row whose lowercased name contains the lowercased query
      (`str.contains(..., case=False)`, read as a plain substring test). */
  function FirstContaining(catalog: seq<Game>, name: string): (r: Option<nat>)
    ensures r.Some? ==> r.value < |catalog| && Contains(Lower(catalog[r.value].name), Lower(name))
    ensures r.Some? ==> forall i :: 0 <= i < r.value ==> !Contains(Lower(catalog[i].name), Lower(name))
    ensures r.None? ==> forall i :: 0 <= i < |catalog| ==> !Contains(Lower(catalog[i].name), Lower(name))
    decreases |catalog|
  {
    if |catalog| == 0 then None
    else if Contains(Lower(catalog[0].name), Lower(name)) then Some(0)
    else
      var rest := FirstContaining(catalog[1..], name);
      assert forall i :: 1 <= i < |catalog| ==> catalog[1..][i - 1] == catalog[i];
      match rest
      case None => None
      case Some(k) => Some(k + 1)
  }

  /** `get_game_data`: the column of the first matching row; no matching
      row or no such column gives the fixed apology. */
  function GetGameData(name: string, column: string, catalog: seq<Game>): (r: string)
    ensures FirstContaining(catalog, name).None? ==> r == NotFoundData
    ensures Cell(Game("", "", "", "", ""), column).None? ==> r == NotFoundData
    ensures forall k :: FirstContaining(catalog, name) == Some(k) && Cell(catalog[k], column).Some? ==>
      r == Cell(catalog[k], column).value
  {
    match FirstContaining(catalog, name)
    case None => NotFoundData
    case Some(k) =>
      match Cell(catalog[k], column)
      case None => NotFoundData
      case Some(data) => data
  }

  /** `get_intent_based_game_data`: a reply naming the game for each of
      the three fact intents, the fixed apology for every other intent. */
  function GetIntentBasedGameData(name: string, intent: string, catalog: seq<Game>): (r: string)
    ensures intent == FactIntent ==> r == "(" + name + ") " + GetGameData(name, "description", catalog)
    ensures intent == GenreFactIntent ==> r == "(" + name + ") " + ("This game belongs to " + GetGameData(name, "genre", catalog) + " genre.")
    ensures intent == PlatformFactIntent ==> r == "(" + name + ") " + ("The game is available on " + GetGameData(name, "platform", catalog) + ".")
    ensures !IsFactIntent(intent) ==> r == UnrecognisedMessage
  {
    var prefix := "(" + name + ") ";
    if intent == FactIntent then prefix + GetGameData(name, "description", catalog)
    else if intent == GenreFactIntent then prefix + ("This game belongs to " + GetGameData(name, "genre", catalog) + " genre.")
    else if intent == PlatformFactIntent then prefix + ("The game is available on " + GetGameData(name, "platform", catalog) + ".")
    else UnrecognisedMessage
  }

  /** Every reply to a fact intent starts with the game's name in
      parentheses. */
  lemma FactReplyNamesGame(name: string, intent: string, catalog: seq<Game>)
    requires IsFactIntent(intent)
    ensures StartsWith(GetIntentBasedGameData(name, intent, catalog), "(" + name + ") ")
  {
    var prefix := "(" + name + ") ";
    var r := GetIntentBasedGameData(name, intent, catalog);
    var rest := if intent == FactIntent then GetGameData(name, "description", catalog)
      else if intent == GenreFactIntent then "This game belongs to " + GetGameData(name, "genre", catalog) + " genre."
      else "The game is available on " + GetGameData(name, "platform", catalog) + ".";
    assert r == prefix + rest;
    assert (prefix + rest)[..|prefix|] == prefix;
  }

  /** The lowercased tokens left after removing English and custom
      stopwords. */
  function GameWords(tokens: seq<string>, stopwords: set<string>): (r: seq<string>)
    ensures |r| <= |tokens|
  {
    GameWordsFrom(tokens, 0, stopwords)
  }

  /** The kept words of `tokens` from position `i` on. */
  function GameWordsFrom(tokens: seq<string>, i: nat, stopwords: set<string>): (r: seq<string>)
    requires i <= |tokens|
    ensures |r| <= |tokens| - i
    decreases |tokens| - i
  {
    if i == |tokens| then []
    else
      var word := Lower(tokens[i]);
      var rest := GameWordsFrom(tokens, i + 1, stopwords);
      if word !in stopwords && word !in CustomStopwords then [word] + rest else rest
  }

  /** No kept word is a stopword, and nothing is kept exactly when every
      token is one. */
  lemma {:induction false} GameWordsDropStopwords(tokens: seq<string>, i: nat, stopwords: set<string>)
    requires i <= |tokens|
    ensures forall j :: 0 <= j < |GameWordsFrom(tokens, i, stopwords)| ==>
      GameWordsFrom(tokens, i, stopwords)[j] !in stopwords && GameWordsFrom(tokens, i, stopwords)[j] !in CustomStopwords
    ensures GameWordsFrom(tokens, i, stopwords) == [] <==>
      forall k :: i <= k < |tokens| ==> Lower(tokens[k]) in stopwords || Lower(tokens[k]) in CustomStopwords
    decreases |tokens| - i
  {
    if i < |tokens| {
      GameWordsDropStopwords(tokens, i + 1, stopwords);
      var word := Lower(tokens[i]);
      var rest := GameWordsFrom(tokens, i + 1, stopwords);
      if word !in stopwords && word !in CustomStopwords {
        assert GameWordsFrom(tokens, i, stopwords) == [word] + rest;
      } else {
        assert GameWordsFrom(tokens, i, stopwords) == rest;
      }
    }
  }

  /** `is_game_in_input`: whether any word is left once the stopwords are
      removed, which is exactly when some token is neither an English nor a
      custom stopword. */
  predicate IsGameInInput(tokens: seq<string>, stopwords: set<string>)
    ensures IsGameInInput(tokens, stopwords) <==>
      exists i :: 0 <= i < |tokens| && Lower(tokens[i]) !in stopwords && Lower(tokens[i]) !in CustomStopwords
  {
    GameWordsDropStopwords(tokens, 0, stopwords);
    GameWords(tokens, stopwords) != []
  }

  /** `extract_game`: the best similarity and the name of the first row
      reaching it, with no threshold applied. Fitting the vectorizer on an
      empty name column raises, which is `None` here. */
  function ExtractGame(scores: seq<real>, catalog: seq<Game>): (r: Option<(real, string)>)
    requires |scores| == |catalog|
    ensures r.None? <==> |catalog| == 0
  {
    if |catalog| == 0 then None
    else
      var k := ArgMax(scores);
      Some((scores[k], catalog[k].name))
  }

  /** The extracted score is the best one, and the name is that of the
      first row reaching it. */
  lemma ExtractGameIsFirstBest(scores: seq<real>, catalog: seq<Game>)
    requires |scores| == |catalog| > 0
    ensures forall i :: 0 <= i < |scores| ==> scores[i] <= ExtractGame(scores, catalog).value.0
    ensures exists k :: (0 <= k < |catalog| && scores[k] == ExtractGame(scores, catalog).value.0 &&
      catalog[k].name == ExtractGame(scores, catalog).value.1 &&
      forall i :: 0 <= i < k ==> scores[i] < ExtractGame(scores, catalog).value.0)
  {
    var k := ArgMax(scores);
    ArgMaxIsFirstMax(scores);
    assert catalog[k].name == ExtractGame(scores, catalog).value.1;
  }

  // ---------------------------------------------------------------------
  // Console lines

  /** Every console line carries a similarity for each catalogue row. */
  predicate ScoredOn(lines: seq<Utterance>, catalog: seq<Game>)
  {
    forall j {:trigger lines[j].gameScores} :: 0 <= j < |lines| ==> |lines[j].gameScores| == |catalog|
  }

  /** The lines the dialogues of this module print, one constructor per
      message; `Render` gives the console text of each. */
  datatype Line =
    | AskName
    | NotInCatalog
    | NameAgain
    | DidYouMean(game: string)
    | NotUnderstood
    | Thanks
    | AskAgain
    | NoSuchGame
    | Unrecognised
    | Rephrase
    | Details(game: string, intent: string)

  /** The console text of a line; the requested details are read from the
      catalogue. */
  function Render(l: Line, catalog: seq<Game>): string
  {
    Say(match l
      case AskName => "Could you please tell me the name of the game you are looking for?"
      case NotInCatalog => "I'm sorry, we don't have the game which you are looking for? Can you please provide a different game name?"
      case NameAgain => "I'm sorry, I didn't get that. Could you please provide me the name of the game again?"
      case DidYouMean(game) => "Did you mean '" + game + "'? (yes/no)"
      case NotUnderstood => "I'm sorry, I didn't understand that."
      case Thanks => "Thanks for the confirmation. Here are the details you requested for."
      case AskAgain => "Ok, could you please tell me the name of the game again?"
      case NoSuchGame => "I am sorry! We currently don't have the game you're looking for. Could you please specify another game?"
      case Unrecognised => UnrecognisedMessage
      case Rephrase => "Ugghh! Looks like I am having difficulty processing your request. Could you please rephrase your request again?"
      case Details(game, intent) => GetIntentBasedGameData(game, intent, catalog))
  }

  // ---------------------------------------------------------------------
  // Confidence tiers

  datatype Tier = Unresolved | Uncertain | Certain

  /** The three half-open bands of the similarity score. */
  function TierOf(score: real): (t: Tier)
    ensures t == Unresolved <==> score < LowConfidence
    ensures t == Uncertain <==> LowConfidence <= score < HighConfidence
    ensures t == Certain <==> HighConfidence <= score
  {
    if score < LowConfidence then Unresolved
    else if score >= LowConfidence && score < HighConfidence then Uncertain
    else Certain
  }

  // ---------------------------------------------------------------------
  // handle_intermediate_confidence

  /** `s[i..j]` with its letters lowercased. */
  function LowerRange(s: string, i: nat, j: nat): (r: string)
    requires i <= j <= |s|
    ensures |r| == j - i
    decreases j - i
  {
    if i == j then [] else [LowerChar(s[i])] + LowerRange(s, i + 1, j)
  }

  lemma {:induction false} LowerRangeIsLower(s: string, i: nat, j: nat)
    requires i <= j <= |s|
    ensures LowerRange(s, i, j) == Lower(s[i..j])
    decreases j - i
  {
    if i < j {
      LowerRangeIsLower(s, i + 1, j);
      var rest := Lower(s[i + 1..j]);
      assert s[i..j] == [s[i]] + s[i + 1..j];
      assert Lower(s[i..j]) == [LowerChar(s[i])] + rest by {
        assert |Lower(s[i..j])| == 1 + |rest|;
        forall k | 0 <= k < |Lower(s[i..j])| ensures Lower(s[i..j])[k] == ([LowerChar(s[i])] + rest)[k] {
          if k > 0 {
            assert s[i..j][k] == s[i + 1..j][k - 1];
          }
        }
      }
    }
  }

  /** A reply with surrounding white space dropped and letters lowercased,
      read off the line in one pass. */
  function Normalize(line: string): string
  {
    var start := SkipSpaces(line, 0);
    LowerRange(line, start, SkipSpacesBack(line, start, |line|))
  }

  /** The reply is `input().strip().lower()`. */
  lemma NormalizeIsStripLower(line: string)
    ensures Normalize(line) == Lower(Strip(line))
  {
    var start := SkipSpaces(line, 0);
    LowerRangeIsLower(line, start, SkipSpacesBack(line, start, |line|));
  }

  datatype Reply = Yes | No | Other

  /** A confirmation line, stripped and lowercased. */
  function ReplyOf(line: string): Reply
  {
    var answer := Normalize(line);
    if answer == "yes" then Yes else if answer == "no" then No else Other
  }

  /** The index of the first line at or after `start` that reads "yes" or
      "no" (see `FirstDecisiveFromIsFirst`). */
  function FirstDecisiveFrom(lines: seq<Utterance>, start: nat): (r: Option<nat>)
    requires start <= |lines|
    ensures r.Some? ==> start <= r.value < |lines|
    decreases |lines| - start
  {
    if start == |lines| then None
    else if ReplyOf(lines[start].text) != Other then Some(start)
    else FirstDecisiveFrom(lines, start + 1)
  }

  /** The line found reads "yes" or "no" and no line before it does; when
      none is found, no line does. */
  lemma {:induction false} FirstDecisiveFromIsFirst(lines: seq<Utterance>, start: nat)
    requires start <= |lines|
    ensures var r := FirstDecisiveFrom(lines, start);
      r.Some? ==> (ReplyOf(lines[r.value].text) != Other &&
                   forall j {:trigger ReplyOf(lines[j].text)} :: start <= j < r.value ==> ReplyOf(lines[j].text) == Other)
    ensures FirstDecisiveFrom(lines, start).None? ==>
      forall j {:trigger ReplyOf(lines[j].text)} :: start <= j < |lines| ==> ReplyOf(lines[j].text) == Other
    decreases |lines| - start
  {
    if start < |lines| && ReplyOf(lines[start].text) == Other {
      FirstDecisiveFromIsFirst(lines, start + 1);
    }
  }

  /** A line that reads "yes" or "no" after lines that read neither is the
      one found. */
  lemma {:induction false} FirstDecisiveFromAt(lines: seq<Utterance>, start: nat, k: nat)
    requires start <= k < |lines|
    requires forall j {:trigger ReplyOf(lines[j].text)} :: start <= j < k ==> ReplyOf(lines[j].text) == Other
    requires ReplyOf(lines[k].text) != Other
    ensures FirstDecisiveFrom(lines, start) == Some(k)
    decreases k - start
  {
    if start < k {
      assert ReplyOf(lines[start].text) == Other;
      FirstDecisiveFromAt(lines, start + 1, k);
    }
  }

  /** Without a line that reads "yes" or "no" nothing is found. */
  lemma {:induction false} FirstDecisiveFromNone(lines: seq<Utterance>, start: nat)
    requires start <= |lines|
    requires forall j {:trigger ReplyOf(lines[j].text)} :: start <= j < |lines| ==> ReplyOf(lines[j].text) == Other
    ensures FirstDecisiveFrom(lines, start).None?
    decreases |lines| - start
  {
    if start < |lines| {
      assert ReplyOf(lines[start].text) == Other;
      FirstDecisiveFromNone(lines, start + 1);
    }
  }

  /** What the confirmation loop leaves: how it ended, the lines it read,
      what it printed and whether the guess was confirmed. */
  datatype Confirmation = Confirmation(ending: Ending, used: nat, out: seq<Line>, confirmed: bool)

  /** The loop asks, reads a line, and repeats the question after every
      line that is neither "yes" nor "no". It reads the console input
      `lines` from line `from` on. */
  function ConfirmRun(game: string, lines: seq<Utterance>, from: nat): (c: Confirmation)
    requires from <= |lines|
    ensures from + c.used <= |lines|
    ensures c.ending != Raised
    ensures c.ending == Finished ==> 0 < c.used
  {
    var block := [DidYouMean(game), NotUnderstood];
    match FirstDecisiveFrom(lines, from)
    case None => Confirmation(OutOfInput, |lines| - from, Repeat(block, |lines| - from) + [DidYouMean(game)], false)
    case Some(k) => Confirmation(Finished, k + 1 - from, Repeat(block, k - from) + [DidYouMean(game)], ReplyOf(lines[k].text) == Yes)
  }

  /** The loop stops at the first "yes" or "no", having repeated the
      question after every line before it; without one it reads every
      line and confirms nothing. */
  lemma ConfirmRunStopsAtFirstAnswer(game: string, lines: seq<Utterance>, from: nat)
    requires from <= |lines|
    ensures var c := ConfirmRun(game, lines, from);
      c.ending == OutOfInput ==>
        from + c.used == |lines| && !c.confirmed && forall j :: from <= j < |lines| ==> ReplyOf(lines[j].text) == Other
    ensures var c := ConfirmRun(game, lines, from);
      c.ending == Finished ==>
        ReplyOf(lines[from + c.used - 1].text) != Other && forall j :: from <= j < from + c.used - 1 ==> ReplyOf(lines[j].text) == Other
    ensures var c := ConfirmRun(game, lines, from);
      c.ending == Finished ==> (c.confirmed <==> ReplyOf(lines[from + c.used - 1].text) == Yes)
  {
    FirstDecisiveFromIsFirst(lines, from);
  }

  /** The guess is confirmed exactly when the first line that is "yes" or
      "no" (stripped, any case) is "yes". */
  lemma ConfirmedIffFirstAnswerIsYes(game: string, lines: seq<Utterance>, from: nat)
    requires from <= |lines|
    ensures ConfirmRun(game, lines, from).confirmed <==>
      exists k :: from <= k < |lines| && ReplyOf(lines[k].text) == Yes && forall j :: from <= j < k ==> ReplyOf(lines[j].text) == Other
  {
    var c := ConfirmRun(game, lines, from);
    ConfirmRunStopsAtFirstAnswer(game, lines, from);
    if c.confirmed {
      assert ReplyOf(lines[from + c.used - 1].text) == Yes;
    } else if k :| from <= k < |lines| && ReplyOf(lines[k].text) == Yes && forall j :: from <= j < k ==> ReplyOf(lines[j].text) == Other {
      assert false;
    }
  }

  /** A first "yes" or "no" on line `k` ends the loop there, after the
      question was repeated for every line before it. */
  lemma ConfirmRunAnsweredAt(game: string, lines: seq<Utterance>, from: nat, k: nat)
    requires from <= k < |lines|
    requires forall j {:trigger ReplyOf(lines[j].text)} :: from <= j < k ==> ReplyOf(lines[j].text) == Other
    requires ReplyOf(lines[k].text) != Other
    ensures ConfirmRun(game, lines, from) ==
      Confirmation(Finished, k + 1 - from, Repeat([DidYouMean(game), NotUnderstood], k - from) + [DidYouMean(game)],
                   ReplyOf(lines[k].text) == Yes)
  {
    FirstDecisiveFromAt(lines, from, k);
  }

  /** Without a "yes" or a "no" the loop reads every line. */
  lemma ConfirmRunUnanswered(game: string, lines: seq<Utterance>, from: nat)
    requires from <= |lines|
    requires forall j {:trigger ReplyOf(lines[j].text)} :: from <= j < |lines| ==> ReplyOf(lines[j].text) == Other
    ensures ConfirmRun(game, lines, from) ==
      Confirmation(OutOfInput, |lines| - from, Repeat([DidYouMean(game), NotUnderstood], |lines| - from) + [DidYouMean(game)], false)
  {
    FirstDecisiveFromNone(lines, from);
  }

  /** `handle_intermediate_confidence`, reading `lines` from line `from` on. */
  method HandleIntermediateConfidence(game: string, lines: seq<Utterance>, from: nat)
    returns (ending: Ending, used: nat, out: seq<Line>, confirmed: bool)
    requires from <= |lines|
    ensures Confirmation(ending, used, out, confirmed) == ConfirmRun(game, lines, from)
  {
    var block := [DidYouMean(game), NotUnderstood];
    confirmed := false;
    used := 0;
    out := [];
    while from + used < |lines|
      invariant from + used <= |lines|
      invariant forall j {:trigger ReplyOf(lines[j].text)} :: from <= j < from + used ==> ReplyOf(lines[j].text) == Other
      invariant out == Repeat(block, used)
      invariant !confirmed
    {
      out := out + [DidYouMean(game)];
      var k := from + used;
      var reply := ReplyOf(lines[k].text);
      used := used + 1;
      if reply == Yes {
        confirmed := true;
        ConfirmRunAnsweredAt(game, lines, from, k);
        return Finished, used, out, confirmed;
      } else if reply == No {
        ConfirmRunAnsweredAt(game, lines, from, k);
        return Finished, used, out, confirmed;
      } else {
        out := out + [NotUnderstood];
        RepeatAppend(block, used - 1);
      }
    }
    ConfirmRunUnanswered(game, lines, from);
    out := out + [DidYouMean(game)];
    ending := OutOfInput;
  }

  // ---------------------------------------------------------------------
  // handle_game_in_context

  /** The trace of a name-resolving dialogue, with the game it stored as
      the game in context, if any. */
  datatype Run = Run(ending: Ending, used: nat, out: seq<Line>, committed: Option<string>)

  /** `rest`, after `n` lines that printed `out`. */
  function Then(n: nat, out: seq<Line>, rest: Run): Run
  {
    Run(rest.ending, n + rest.used, out + rest.out, rest.committed)
  }

  lemma ThenThen(m: nat, a: seq<Line>, n: nat, b: seq<Line>, rest: Run)
    ensures Then(m, a, Then(n, b, rest)) == Then(m + n, a + b, rest)
  {
    assert a + (b + rest.out) == (a + b) + rest.out;
  }

  /** How one pass of a dialogue loop ends: it goes round again after
      reading `used` lines and printing `out` (the fact loop with the tokens
      of the line it read last), the dialogue is over (with the game stored
      as the game in context, if any), or the question is handed over to
      `handle_game_in_context`. */
  datatype Round =
    | Again(used: nat, out: seq<Line>)
    | Done(ending: Ending, used: nat, out: seq<Line>, commit: Option<string>)
    | HandOver

  /** One pass of the `handle_game_in_context` loop on the name read from
      line `from`. */
  function ContextRound(intent: string, lines: seq<Utterance>, from: nat, stopwords: set<string>, catalog: seq<Game>): (r: Round)
    requires ScoredOn(lines, catalog)
    requires from < |lines|
    ensures r.Again? ==> from + r.used <= |lines| && r.used > 0
    ensures r.Done? ==> from + r.used <= |lines| && (r.commit.Some? <==> r.ending == Finished)
    ensures !r.HandOver?
  {
    var u := lines[from];
    match ExtractGame(u.gameScores, catalog)
    case None => Done(Raised, 1, [], None)
    case Some((score, game)) =>
      match TierOf(score)
      case Unresolved =>
        Again(1, [if IsGameInInput(u.tokens, stopwords) then NotInCatalog else NameAgain])
      case Uncertain =>
        var c := ConfirmRun(game, lines, from + 1);
        if c.ending != Finished then Done(c.ending, 1 + c.used, c.out, None)
        else if c.confirmed then Done(Finished, 1 + c.used, c.out + [Thanks, Details(game, intent)], Some(game))
        else Again(1 + c.used, c.out + [AskAgain])
      case Certain => Done(Finished, 1, [Details(game, intent)], Some(game))
  }

  /** The loop of `handle_game_in_context`: read a name and act on its tier
      until a game is committed or the console runs out. */
  function ContextLoop(intent: string, lines: seq<Utterance>, from: nat, stopwords: set<string>, catalog: seq<Game>): (r: Run)
    requires ScoredOn(lines, catalog)
    requires from <= |lines|
    ensures from + r.used <= |lines|
    ensures r.committed.Some? <==> r.ending == Finished
    decreases |lines| - from
  {
    if from == |lines| then Run(OutOfInput, 0, [], None)
    else
      match ContextRound(intent, lines, from, stopwords, catalog)
      case Again(n, out) => Then(n, out, ContextLoop(intent, lines, from + n, stopwords, catalog))
      case Done(ending, n, out, commit) => Run(ending, n, out, commit)
  }

  /** A loop that has read `n` lines and printed `out` and now makes a
      pass on line `from + n` that ends, ends with that pass, having read
      `next` lines and printed `out'`. */
  lemma ContextLoopEnds(intent: string, lines: seq<Utterance>, from: nat, n: nat, stopwords: set<string>,
                        catalog: seq<Game>, round: Round, out: seq<Line>, total: Run, next: nat, out': seq<Line>)
    requires ScoredOn(lines, catalog)
    requires from + n < |lines|
    requires round == ContextRound(intent, lines, from + n, stopwords, catalog)
    requires round.Done?
    requires total == Then(n, out, ContextLoop(intent, lines, from + n, stopwords, catalog))
    requires next == n + round.used && out' == out + round.out
    ensures total == Run(round.ending, next, out', round.commit)
  {
    assert out + (round.out + []) == out + round.out;
  }

  /** A loop that has read `n` lines and printed `out` and now makes a
      pass on line `from + n` that goes round again, continues after the
      lines that pass read, having read `next` lines and printed `out'`. */
  lemma ContextLoopAgain(intent: string, lines: seq<Utterance>, from: nat, n: nat, stopwords: set<string>,
                         catalog: seq<Game>, round: Round, out: seq<Line>, total: Run, next: nat, out': seq<Line>)
    requires ScoredOn(lines, catalog)
    requires from + n < |lines|
    requires round == ContextRound(intent, lines, from + n, stopwords, catalog)
    requires !round.Done?
    requires total == Then(n, out, ContextLoop(intent, lines, from + n, stopwords, catalog))
    requires next == n + round.used && out' == out + round.out
    ensures n < next && from + next <= |lines|
    ensures total == Then(next, out', ContextLoop(intent, lines, from + next, stopwords, catalog))
  {
    var rest := ContextLoop(intent, lines, from + next, stopwords, catalog);
    assert ContextLoop(intent, lines, from + n, stopwords, catalog) == Then(round.used, round.out, rest);
    ThenThen(n, out, round.used, round.out, rest);
  }

  /** Some catalogue row carries this name. */
  predicate InCatalog(name: string, catalog: seq<Game>)
  {
    exists k :: 0 <= k < |catalog| && catalog[k].name == name
  }

  /** A pass of the name loop only ever commits a game of the catalogue. */
  lemma ContextRoundCommitsCatalogGame(intent: string, lines: seq<Utterance>, from: nat, stopwords: set<string>, catalog: seq<Game>)
    requires ScoredOn(lines, catalog)
    requires from < |lines|
    ensures ContextRound(intent, lines, from, stopwords, catalog).Done? && ContextRound(intent, lines, from, stopwords, catalog).commit.Some? ==>
      InCatalog(ContextRound(intent, lines, from, stopwords, catalog).commit.value, catalog)
  {
    if |catalog| > 0 {
      ExtractGameIsFirstBest(lines[from].gameScores, catalog);
    }
  }

  /** Only a game of the catalogue is ever stored as the game in context. */
  lemma {:induction false} ContextLoopCommitsCatalogGame(intent: string, lines: seq<Utterance>, from: nat, stopwords: set<string>,
                                                         catalog: seq<Game>)
    requires ScoredOn(lines, catalog)
    requires from <= |lines|
    ensures ContextLoop(intent, lines, from, stopwords, catalog).committed.Some? ==>
      InCatalog(ContextLoop(intent, lines, from, stopwords, catalog).committed.value, catalog)
    decreases |lines| - from
  {
    if from < |lines| {
      var round := ContextRound(intent, lines, from, stopwords, catalog);
      ContextRoundCommitsCatalogGame(intent, lines, from, stopwords, catalog);
      if round.Again? {
        ContextLoopCommitsCatalogGame(intent, lines, from + round.used, stopwords, catalog);
      }
    }
  }

  /** `name` is read as `game`, and the pass on it stores that game and
      ends its dialogue before line `end`: a certain match at once, before
      line `at`, and an uncertain one once the user confirms it from line
      `at` on. */
  predicate CommitsOn(name: Utterance, lines: seq<Utterance>, at: nat, end: nat, catalog: seq<Game>, game: string)
    requires |name.gameScores| == |catalog|
    requires at <= |lines|
  {
    var m := ExtractGame(name.gameScores, catalog);
    m.Some? && m.value.1 == game &&
    ((TierOf(m.value.0) == Certain && end == at) ||
     (TierOf(m.value.0) == Uncertain && ConfirmRun(game, lines, at).ending == Finished && ConfirmRun(game, lines, at).confirmed &&
      end == at + ConfirmRun(game, lines, at).used))
  }

  /** A pass of the name loop acts on the tier of the best match for the
      name on line `from`: a certain match is stored and described at once;
      an uncertain one is put to the user, then stored and described when
      they confirm it and asked for again when they deny it; a low score
      asks for the name again. Only the stored game ends the loop on a
      finished console. */
  lemma ContextRoundFollowsTier(intent: string, lines: seq<Utterance>, from: nat, stopwords: set<string>, catalog: seq<Game>)
    requires ScoredOn(lines, catalog)
    requires from < |lines|
    ensures var r := ContextRound(intent, lines, from, stopwords, catalog);
      var m := ExtractGame(lines[from].gameScores, catalog);
      var game := if m.Some? then m.value.1 else "";
      var c := ConfirmRun(game, lines, from + 1);
      && (m.None? ==> r == Done(Raised, 1, [], None))
      && (m.Some? && TierOf(m.value.0) == Unresolved ==>
            r == Again(1, [if IsGameInInput(lines[from].tokens, stopwords) then NotInCatalog else NameAgain]))
      && (m.Some? && TierOf(m.value.0) == Uncertain && c.ending == Finished && c.confirmed ==>
            r == Done(Finished, 1 + c.used, c.out + [Thanks, Details(game, intent)], Some(game)))
      && (m.Some? && TierOf(m.value.0) == Uncertain && c.ending == Finished && !c.confirmed ==>
            r == Again(1 + c.used, c.out + [AskAgain]))
      && (m.Some? && TierOf(m.value.0) == Uncertain && c.ending != Finished ==> r == Done(c.ending, 1 + c.used, c.out, None))
      && (m.Some? && TierOf(m.value.0) == Certain ==> r == Done(Finished, 1, [Details(game, intent)], Some(game)))
  {
  }

  /** A name read off line `k` whose pass confirms from line `at` on is
      line `k`'s, confirmed from the next line on. */
  lemma CommitsOnLine(name: Utterance, lines: seq<Utterance>, k: nat, at: nat, end: nat, catalog: seq<Game>, game: string)
    requires ScoredOn(lines, catalog)
    requires k < at == k + 1 <= |lines|
    requires name == lines[k]
    requires CommitsOn(name, lines, at, end, catalog, game)
    ensures CommitsOn(lines[k], lines, k + 1, end, catalog, game)
  {
  }

  /** A pass of the name loop that stores a game stores the one read off
      its name. */
  lemma ContextRoundCommitsOn(intent: string, lines: seq<Utterance>, from: nat, stopwords: set<string>, catalog: seq<Game>)
    requires ScoredOn(lines, catalog)
    requires from < |lines|
    ensures var r := ContextRound(intent, lines, from, stopwords, catalog);
      r.Done? && r.commit.Some? ==> CommitsOn(lines[from], lines, from + 1, from + r.used, catalog, r.commit.value)
  {
  }

  /** The game the name loop stores is the one read off the name on the
      line `k` of its last pass, with a certain score or confirmed by the
      user. */
  lemma {:induction false} ContextLoopCommitsMatchedGame(intent: string, lines: seq<Utterance>, from: nat, stopwords: set<string>,
                                                         catalog: seq<Game>)
    returns (k: nat)
    requires ScoredOn(lines, catalog)
    requires from <= |lines|
    ensures var r := ContextLoop(intent, lines, from, stopwords, catalog);
      r.committed.Some? ==> from <= k < from + r.used && CommitsOn(lines[k], lines, k + 1, from + r.used, catalog, r.committed.value)
    decreases |lines| - from
  {
    k := from;
    if from < |lines| {
      var round := ContextRound(intent, lines, from, stopwords, catalog);
      var r := ContextLoop(intent, lines, from, stopwords, catalog);
      if round.Again? {
        var rest := ContextLoop(intent, lines, from + round.used, stopwords, catalog);
        assert r == Then(round.used, round.out, rest);
        assert from + r.used == from + round.used + rest.used;
        k := ContextLoopCommitsMatchedGame(intent, lines, from + round.used, stopwords, catalog);
      } else {
        assert r == Run(round.ending, round.used, round.out, round.commit);
        ContextRoundCommitsOn(intent, lines, from, stopwords, catalog);
      }
    }
  }

  /** Everything `handle_game_in_context` reads and prints. */
  function GameInContextRun(intent: string, lines: seq<Utterance>, from: nat, stopwords: set<string>, catalog: seq<Game>): (r: Run)
    requires ScoredOn(lines, catalog)
    requires from <= |lines|
    ensures from + r.used <= |lines|
    ensures r.committed.Some? <==> r.ending == Finished
    ensures r.out != [] && r.out[0] == AskName
  {
    Then(0, [AskName], ContextLoop(intent, lines, from, stopwords, catalog))
  }

  /** The game `handle_game_in_context` stores is the one read off the name
      of its last pass, with a certain score or confirmed by the user. */
  lemma GameInContextCommitsMatchedGame(intent: string, lines: seq<Utterance>, from: nat, stopwords: set<string>, catalog: seq<Game>)
    requires ScoredOn(lines, catalog)
    requires from <= |lines|
    ensures var r := GameInContextRun(intent, lines, from, stopwords, catalog);
      r.committed.Some? ==>
        exists k :: from <= k < from + r.used && CommitsOn(lines[k], lines, k + 1, from + r.used, catalog, r.committed.value)
  {
    var k := ContextLoopCommitsMatchedGame(intent, lines, from, stopwords, catalog);
  }

  /** The preferences after a dialogue: the game in context is set to the
      committed game, and nothing changes without a commit. */
  predicate Stored(after: map<string, string>, before: map<string, string>, committed: Option<string>)
  {
    if committed.Some? then after == before[GameInContextKey := committed.value] else after == before
  }

  /** `handle_game_in_context`, reading `lines` from line `from` on. */
  method HandleGameInContext(intent: string, lines: seq<Utterance>, from: nat, stopwords: set<string>, catalog: seq<Game>,
                             store: PreferenceStore)
    returns (ending: Ending, used: nat, out: seq<Line>)
    requires ScoredOn(lines, catalog)
    requires from <= |lines|
    modifies store
    ensures var r := GameInContextRun(intent, lines, from, stopwords, catalog);
      r == Run(ending, used, out, r.committed) && Stored(store.prefs, old(store.prefs), r.committed)
  {
    var commit;
    ending, used, out, commit := ContextDialogue(intent, lines, from, stopwords, catalog);
    if commit.Some? {
      store.Update(GameInContextKey, commit.value);
    }
  }

  /** The loop of `handle_game_in_context`, with the game it commits. The
      source stores that game and leaves the loop at once, so storing it
      after the loop, as the caller does, is the same. */
  method ContextDialogue(intent: string, lines: seq<Utterance>, from: nat, stopwords: set<string>, catalog: seq<Game>)
    returns (ending: Ending, used: nat, out: seq<Line>, commit: Option<string>)
    requires ScoredOn(lines, catalog)
    requires from <= |lines|
    ensures Run(ending, used, out, commit) == GameInContextRun(intent, lines, from, stopwords, catalog)
  {
    ghost var total := GameInContextRun(intent, lines, from, stopwords, catalog);
    out := [AskName];
    used := 0;
    while from + used < |lines|
      invariant from + used <= |lines|
      invariant total == Then(used, out, ContextLoop(intent, lines, from + used, stopwords, catalog))
      decreases |lines| - used
    {
      var done, ending', used', out', commit' := ContextPass(intent, lines, from, used, stopwords, catalog, out, total);
      if done {
        return ending', used', out', commit';
      }
      used, out := used', out';
    }
    assert out + [] == out;
    ending, commit := OutOfInput, None;
  }

  /** A pass of the `handle_game_in_context` loop after `n` lines that
      printed `out`: it ends the whole run, or the run goes on after the
      lines it read. */
  method ContextPass(intent: string, lines: seq<Utterance>, from: nat, n: nat, stopwords: set<string>, catalog: seq<Game>,
                     out: seq<Line>, ghost total: Run)
    returns (done: bool, ending: Ending, used: nat, out': seq<Line>, commit: Option<string>)
    requires ScoredOn(lines, catalog)
    requires from + n < |lines|
    requires total == Then(n, out, ContextLoop(intent, lines, from + n, stopwords, catalog))
    ensures done ==> total == Run(ending, used, out', commit)
    ensures !done ==> n < used && from + used <= |lines|
    ensures !done ==> total == Then(used, out', ContextLoop(intent, lines, from + used, stopwords, catalog))
  {
    var round := ContextStep(intent, lines, from + n, stopwords, catalog);
    done, used, out' := round.Done?, n + round.used, out + round.out;
    if done {
      ContextLoopEnds(intent, lines, from, n, stopwords, catalog, round, out, total, used, out');
      ending, commit := round.ending, round.commit;
    } else {
      ContextLoopAgain(intent, lines, from, n, stopwords, catalog, round, out, total, used, out');
      ending, commit := OutOfInput, None;
    }
  }

  /** The body of the `handle_game_in_context` loop, on line `at`. */
  method ContextStep(intent: string, lines: seq<Utterance>, at: nat, stopwords: set<string>, catalog: seq<Game>) returns (round: Round)
    requires ScoredOn(lines, catalog)
    requires at < |lines|
    ensures round == ContextRound(intent, lines, at, stopwords, catalog)
  {
    var u := lines[at];
    var found := ExtractGame(u.gameScores, catalog);
    if found.None? {
      return Done(Raised, 1, [], None);
    }
    var (score, game) := found.value;
    var tier := TierOf(score);
    if tier == Unresolved {
      if IsGameInInput(u.tokens, stopwords) {
        return Again(1, [NotInCatalog]);
      }
      return Again(1, [NameAgain]);
    } else if tier == Uncertain {
      var ending, used, printed, confirmed := HandleIntermediateConfidence(game, lines, at + 1);
      if ending != Finished {
        return Done(ending, 1 + used, printed, None);
      }
      if confirmed {
        return Done(Finished, 1 + used, printed + [Thanks, Details(game, intent)], Some(game));
      }
      return Again(1 + used, printed + [AskAgain]);
    } else {
      return Done(Finished, 1, [Details(game, intent)], Some(game));
    }
  }

  // ---------------------------------------------------------------------
  // handle_game_fact

  /** The branches of the low-score `if`/`elif` chain of `handle_game_fact`. */
  datatype LowBranch = AskForGame | GameNotStocked | UseContext | Difficulty

  /** The branch taken on the stored game in context (`None` when the key is
      absent) and on whether the input looks like it names a game: an empty
      game in context first, then a game-looking input, then a game in
      context other than "" (which an absent one is too, as `None != ""`),
      and only otherwise the apology for a request that cannot be
      processed. */
  function LowScoreBranch(context: Option<string>, gameInInput: bool): LowBranch
  {
    if context == Some("") then AskForGame
    else if gameInInput then GameNotStocked
    else if context != Some("") then UseContext
    else Difficulty
  }

  /** The pass that ends with the apology for a request that cannot be
      processed, after reading no line. */
  const CannotProcess: Round := Done(Finished, 0, [Rephrase], None)

  /** The last branch of the chain is dead: its condition is the negation
      of the first one's. */
  lemma DifficultyIsUnreachable(context: Option<string>, gameInInput: bool)
    ensures LowScoreBranch(context, gameInInput) != Difficulty
    ensures LowScoreBranch(context, gameInInput) == AskForGame <==> context == Some("")
    ensures LowScoreBranch(context, gameInInput) == GameNotStocked <==> context != Some("") && gameInInput
    ensures LowScoreBranch(context, gameInInput) == UseContext <==> context != Some("") && !gameInInput
  {
  }

  /** One pass of the `handle_game_fact` loop's body on the query of the
      current input, reading the console from line `from` on. `context` is
      the stored game in context, which only a commit changes, and a commit
      ends the loop. */
  function FactRound(query: Utterance, intent: string, lines: seq<Utterance>, from: nat, stopwords: set<string>, catalog: seq<Game>,
                     context: Option<string>): (r: Round)
    requires |query.gameScores| == |catalog|
    requires ScoredOn(lines, catalog)
    requires from <= |lines|
    ensures r.Again? ==> from + r.used <= |lines| && r.used > 0
    ensures r.Done? ==> from + r.used <= |lines| && (r.commit.Some? ==> r.ending == Finished)
    ensures r.HandOver? <==> (|catalog| > 0 && context == Some("") &&
      TierOf(ExtractGame(query.gameScores, catalog).value.0) == Unresolved)
  {
    match ExtractGame(query.gameScores, catalog)
    case None => Done(Raised, 0, [], None)
    case Some((score, game)) =>
      match TierOf(score)
      case Unresolved =>
        (match LowScoreBranch(context, IsGameInInput(query.tokens, stopwords))
         case AskForGame => HandOver
         case GameNotStocked => Done(Finished, 0, [NoSuchGame], None)
         case UseContext =>
           // An absent game in context reaches `get_game_data(None, ...)`,
           // whose `str.contains(None)` raises.
           if context.None? && IsFactIntent(intent) then Done(Raised, 0, [], None)
           else if context.None? then Done(Finished, 0, [Unrecognised], None)
           else Done(Finished, 0, [Details(context.value, intent)], None)
         case Difficulty => CannotProcess)
      case Uncertain =>
        var c := ConfirmRun(game, lines, from);
        if c.ending != Finished then Done(c.ending, c.used, c.out, None)
        else if c.confirmed then Done(Finished, c.used, c.out + [Thanks, Details(game, intent)], Some(game))
        else if from + c.used == |lines| then Done(OutOfInput, c.used, c.out + [AskAgain], None)
        else Again(c.used + 1, c.out + [AskAgain])
      case Certain => Done(Finished, 0, [Details(game, intent)], Some(game))
  }

  /** Where the `handle_game_fact` loop leaves off: a finished run, or the
      question handed over to `handle_game_in_context` after `used` lines
      were read and `out` printed. */
  datatype FactEnd = Ended(run: Run) | HandedOver(used: nat, out: seq<Line>)

  /** `rest`, after `n` lines that printed `out`. */
  function ThenFact(n: nat, out: seq<Line>, rest: FactEnd): FactEnd
  {
    match rest
    case Ended(run) => Ended(Then(n, out, run))
    case HandedOver(m, more) => HandedOver(n + m, out + more)
  }

  lemma ThenFactThen(m: nat, a: seq<Line>, n: nat, b: seq<Line>, rest: FactEnd)
    ensures ThenFact(m, a, ThenFact(n, b, rest)) == ThenFact(m + n, a + b, rest)
  {
    match rest
    case Ended(run) => assert a + (b + run.out) == (a + b) + run.out;
    case HandedOver(_, more) => assert a + (b + more) == (a + b) + more;
  }

  /** The loop of `handle_game_fact`: a pass, then another one on the next
      input when it reprompts, until it ends or hands over. */
  function FactLoop(query: Utterance, intent: string, lines: seq<Utterance>, from: nat, stopwords: set<string>, catalog: seq<Game>,
                    context: Option<string>): (r: FactEnd)
    requires |query.gameScores| == |catalog|
    requires ScoredOn(lines, catalog)
    requires from <= |lines|
    ensures r.Ended? ==> from + r.run.used <= |lines| && (r.run.committed.Some? ==> r.run.ending == Finished)
    ensures r.HandedOver? ==> from + r.used <= |lines|
    decreases |lines| - from
  {
    match FactRound(query, intent, lines, from, stopwords, catalog, context)
    case Again(n, out) => ThenFact(n, out, FactLoop(lines[from + n - 1], intent, lines, from + n, stopwords, catalog, context))
    case Done(ending, n, out, commit) => Ended(Run(ending, n, out, commit))
    case HandOver => HandedOver(0, [])
  }

  /** Everything `handle_game_fact` reads and prints: its own loop, then
      `handle_game_in_context` if it hands over. */
  function GameFactRun(query: Utterance, intent: string, lines: seq<Utterance>, stopwords: set<string>, catalog: seq<Game>,
                       context: Option<string>): (r: Run)
    requires |query.gameScores| == |catalog|
    requires ScoredOn(lines, catalog)
    ensures r.used <= |lines|
    ensures r.committed.Some? ==> r.ending == Finished
  {
    match FactLoop(query, intent, lines, 0, stopwords, catalog, context)
    case Ended(run) => run
    case HandedOver(n, out) => Then(n, out, GameInContextRun(intent, lines, n, stopwords, catalog))
  }

  lemma ThenFactNothing(rest: FactEnd)
    ensures ThenFact(0, [], rest) == rest
  {
    match rest
    case Ended(run) => assert [] + run.out == run.out;
    case HandedOver(_, more) => assert [] + more == more;
  }

  /** A loop that has read `at` lines and printed `out` and now makes a
      pass that ends or hands over ends with that pass. */
  lemma FactLoopEnds(query: Utterance, intent: string, lines: seq<Utterance>, at: nat, stopwords: set<string>,
                     catalog: seq<Game>, context: Option<string>, round: Round, out: seq<Line>, total: FactEnd)
    requires |query.gameScores| == |catalog|
    requires ScoredOn(lines, catalog)
    requires at <= |lines|
    requires round == FactRound(query, intent, lines, at, stopwords, catalog, context)
    requires total == ThenFact(at, out, FactLoop(query, intent, lines, at, stopwords, catalog, context))
    ensures round.HandOver? ==> total == HandedOver(at, out)
    ensures round.Done? ==> total == Ended(Run(round.ending, at + round.used, out + round.out, round.commit))
  {
    if round.HandOver? {
      assert out + [] == out;
    }
  }

  /** A loop that has read `at` lines and printed `out` and now makes a
      pass that goes round again continues on the line that pass read
      last. */
  lemma FactLoopAgain(query: Utterance, intent: string, lines: seq<Utterance>, at: nat, stopwords: set<string>,
                      catalog: seq<Game>, context: Option<string>, round: Round, out: seq<Line>, total: FactEnd)
    requires |query.gameScores| == |catalog|
    requires ScoredOn(lines, catalog)
    requires at <= |lines|
    requires round == FactRound(query, intent, lines, at, stopwords, catalog, context)
    requires round.Again?
    requires total == ThenFact(at, out, FactLoop(query, intent, lines, at, stopwords, catalog, context))
    ensures 0 < round.used && at + round.used <= |lines|
    ensures |lines[at + round.used - 1].gameScores| == |catalog|
    ensures total == ThenFact(at + round.used, out + round.out,
      FactLoop(lines[at + round.used - 1], intent, lines, at + round.used, stopwords, catalog, context))
  {
    var rest := FactLoop(lines[at + round.used - 1], intent, lines, at + round.used, stopwords, catalog, context);
    assert FactLoop(query, intent, lines, at, stopwords, catalog, context) == ThenFact(round.used, round.out, rest);
    ThenFactThen(at, out, round.used, round.out, rest);
  }

  /** A pass of the fact loop only ever commits a game of the catalogue. */
  lemma FactRoundCommitsCatalogGame(query: Utterance, intent: string, lines: seq<Utterance>, from: nat, stopwords: set<string>,
                                    catalog: seq<Game>, context: Option<string>)
    requires |query.gameScores| == |catalog|
    requires ScoredOn(lines, catalog)
    requires from <= |lines|
    ensures (FactRound(query, intent, lines, from, stopwords, catalog, context).Done? &&
             FactRound(query, intent, lines, from, stopwords, catalog, context).commit.Some?) ==>
      InCatalog(FactRound(query, intent, lines, from, stopwords, catalog, context).commit.value, catalog)
  {
    if |catalog| > 0 {
      ExtractGameIsFirstBest(query.gameScores, catalog);
    }
  }

  /** The fact loop only ever commits a game of the catalogue. */
  lemma {:induction false} FactLoopCommitsCatalogGame(query: Utterance, intent: string, lines: seq<Utterance>, from: nat,
                                                      stopwords: set<string>, catalog: seq<Game>, context: Option<string>)
    requires |query.gameScores| == |catalog|
    requires ScoredOn(lines, catalog)
    requires from <= |lines|
    ensures FactLoop(query, intent, lines, from, stopwords, catalog, context).Ended? &&
            FactLoop(query, intent, lines, from, stopwords, catalog, context).run.committed.Some? ==>
      InCatalog(FactLoop(query, intent, lines, from, stopwords, catalog, context).run.committed.value, catalog)
    decreases |lines| - from
  {
    var round := FactRound(query, intent, lines, from, stopwords, catalog, context);
    FactRoundCommitsCatalogGame(query, intent, lines, from, stopwords, catalog, context);
    if round.Again? {
      FactLoopCommitsCatalogGame(lines[from + round.used - 1], intent, lines, from + round.used, stopwords, catalog, context);
    }
  }

  /** A pass of the fact loop acts on the tier of the best match for the
      query: a certain match is stored and described at once; an uncertain
      one is put to the user, then stored and described when they confirm
      it, and when they deny it the game is asked for again and the pass
      goes round on the next input (or stops when there is none); a low
      score stores nothing, answering at once or handing over. */
  lemma FactRoundFollowsTier(query: Utterance, intent: string, lines: seq<Utterance>, from: nat, stopwords: set<string>,
                             catalog: seq<Game>, context: Option<string>)
    requires |query.gameScores| == |catalog|
    requires ScoredOn(lines, catalog)
    requires from <= |lines|
    ensures var r := FactRound(query, intent, lines, from, stopwords, catalog, context);
      var m := ExtractGame(query.gameScores, catalog);
      var game := if m.Some? then m.value.1 else "";
      var c := ConfirmRun(game, lines, from);
      && (m.None? ==> r == Done(Raised, 0, [], None))
      && (m.Some? && TierOf(m.value.0) == Unresolved ==> r.HandOver? || (r.Done? && r.used == 0 && r.commit.None?))
      && (m.Some? && TierOf(m.value.0) == Uncertain && c.ending == Finished && c.confirmed ==>
            r == Done(Finished, c.used, c.out + [Thanks, Details(game, intent)], Some(game)))
      && (m.Some? && TierOf(m.value.0) == Uncertain && c.ending == Finished && !c.confirmed && from + c.used < |lines| ==>
            r == Again(c.used + 1, c.out + [AskAgain]))
      && (m.Some? && TierOf(m.value.0) == Uncertain && c.ending == Finished && !c.confirmed && from + c.used == |lines| ==>
            r == Done(OutOfInput, c.used, c.out + [AskAgain], None))
      && (m.Some? && TierOf(m.value.0) == Uncertain && c.ending != Finished ==> r == Done(c.ending, c.used, c.out, None))
      && (m.Some? && TierOf(m.value.0) == Certain ==> r == Done(Finished, 0, [Details(game, intent)], Some(game)))
  {
  }

  /** A pass of the fact loop that stores a game stores the one read off
      its query. */
  lemma FactRoundCommitsOn(query: Utterance, intent: string, lines: seq<Utterance>, from: nat, stopwords: set<string>,
                           catalog: seq<Game>, context: Option<string>)
    requires |query.gameScores| == |catalog|
    requires ScoredOn(lines, catalog)
    requires from <= |lines|
    ensures var r := FactRound(query, intent, lines, from, stopwords, catalog, context);
      r.Done? && r.commit.Some? ==> CommitsOn(query, lines, from, from + r.used, catalog, r.commit.value)
  {
  }

  /** The query and the position of the last pass of the fact loop: the
      query at `from`, or the input read last by a pass that goes round
      again. */
  function FactLastPass(query: Utterance, intent: string, lines: seq<Utterance>, from: nat,
                        stopwords: set<string>, catalog: seq<Game>, context: Option<string>): (r: (Utterance, nat))
    requires |query.gameScores| == |catalog|
    requires ScoredOn(lines, catalog)
    requires from <= |lines|
    ensures from <= r.1 <= |lines| && |r.0.gameScores| == |catalog|
    ensures r.1 == from ==> r.0 == query
    ensures r.1 > from ==> r.0 == lines[r.1 - 1]
    decreases |lines| - from
  {
    var round := FactRound(query, intent, lines, from, stopwords, catalog, context);
    if round.Again? then FactLastPass(lines[from + round.used - 1], intent, lines, from + round.used, stopwords, catalog, context)
    else (query, from)
  }

  /** The game the fact loop stores is the one read off the query of its
      last pass, with a certain score or confirmed by the user. */
  lemma {:induction false} FactLoopCommitsMatchedGame(query: Utterance, intent: string, lines: seq<Utterance>, from: nat,
                                                      stopwords: set<string>, catalog: seq<Game>, context: Option<string>)
    requires |query.gameScores| == |catalog|
    requires ScoredOn(lines, catalog)
    requires from <= |lines|
    ensures var e := FactLoop(query, intent, lines, from, stopwords, catalog, context);
      var last := FactLastPass(query, intent, lines, from, stopwords, catalog, context);
      e.Ended? && e.run.committed.Some? ==> CommitsOn(last.0, lines, last.1, from + e.run.used, catalog, e.run.committed.value)
    decreases |lines| - from
  {
    var round := FactRound(query, intent, lines, from, stopwords, catalog, context);
    if round.Again? {
      var next := lines[from + round.used - 1];
      var rest := FactLoop(next, intent, lines, from + round.used, stopwords, catalog, context);
      var e := FactLoop(query, intent, lines, from, stopwords, catalog, context);
      assert e == ThenFact(round.used, round.out, rest);
      var last := FactLastPass(query, intent, lines, from, stopwords, catalog, context);
      assert last == FactLastPass(next, intent, lines, from + round.used, stopwords, catalog, context);
      FactLoopCommitsMatchedGame(next, intent, lines, from + round.used, stopwords, catalog, context);
      if e.Ended? && e.run.committed.Some? {
        assert e.run.committed == rest.run.committed;
        assert from + e.run.used == (from + round.used) + rest.run.used;
        assert CommitsOn(last.0, lines, last.1, from + e.run.used, catalog, e.run.committed.value);
      }
    } else {
      FactRoundCommitsOn(query, intent, lines, from, stopwords, catalog, context);
    }
  }

  /** A game stored on the query at line 0, or on the input read on the
      line before `at`, was stored on the query or on some line `k`. */
  lemma CommitsOnQueryOrLine(query: Utterance, e: FactEnd, last: (Utterance, nat), lines: seq<Utterance>, catalog: seq<Game>)
    requires |query.gameScores| == |catalog| && |last.0.gameScores| == |catalog|
    requires ScoredOn(lines, catalog)
    requires last.1 <= |lines|
    requires last.1 == 0 ==> last.0 == query
    requires last.1 > 0 ==> last.0 == lines[last.1 - 1]
    requires e.Ended? && e.run.committed.Some? ==> CommitsOn(last.0, lines, last.1, e.run.used, catalog, e.run.committed.value)
    ensures e.Ended? && e.run.committed.Some? ==>
      CommitsOn(query, lines, 0, e.run.used, catalog, e.run.committed.value) ||
      exists k :: 0 <= k < e.run.used && CommitsOn(lines[k], lines, k + 1, e.run.used, catalog, e.run.committed.value)
  {
    if e.Ended? && e.run.committed.Some? && last.1 > 0 {
      CommitsOnLine(last.0, lines, last.1 - 1, last.1, e.run.used, catalog, e.run.committed.value);
    }
  }

  /** The game the fact loop stores is the best match for the first query
      or for the input read on a line `k`. */
  lemma FactLoopCommitsQueryOrLine(query: Utterance, intent: string, lines: seq<Utterance>, stopwords: set<string>,
                                   catalog: seq<Game>, context: Option<string>)
    requires |query.gameScores| == |catalog|
    requires ScoredOn(lines, catalog)
    ensures var e := FactLoop(query, intent, lines, 0, stopwords, catalog, context);
      e.Ended? && e.run.committed.Some? ==>
        CommitsOn(query, lines, 0, e.run.used, catalog, e.run.committed.value) ||
        exists k :: 0 <= k < e.run.used && CommitsOn(lines[k], lines, k + 1, e.run.used, catalog, e.run.committed.value)
  {
    FactLoopCommitsMatchedGame(query, intent, lines, 0, stopwords, catalog, context);
    CommitsOnQueryOrLine(query, FactLoop(query, intent, lines, 0, stopwords, catalog, context),
                         FactLastPass(query, intent, lines, 0, stopwords, catalog, context), lines, catalog);
  }

  /** The game `handle_game_fact` stores, itself or through the dialogue it
      hands over to, is the one read off the query or the input of its last
      pass, with a certain score or confirmed by the user. */
  lemma GameFactCommitsMatchedGame(query: Utterance, intent: string, lines: seq<Utterance>, stopwords: set<string>, catalog: seq<Game>,
                                   context: Option<string>)
    requires |query.gameScores| == |catalog|
    requires ScoredOn(lines, catalog)
    ensures var r := GameFactRun(query, intent, lines, stopwords, catalog, context);
      r.committed.Some? ==>
        CommitsOn(query, lines, 0, r.used, catalog, r.committed.value) ||
        exists k :: 0 <= k < r.used && CommitsOn(lines[k], lines, k + 1, r.used, catalog, r.committed.value)
  {
    var e := FactLoop(query, intent, lines, 0, stopwords, catalog, context);
    var r := GameFactRun(query, intent, lines, stopwords, catalog, context);
    if e.HandedOver? {
      var loop := ContextLoop(intent, lines, e.used, stopwords, catalog);
      assert r == Then(e.used, e.out, GameInContextRun(intent, lines, e.used, stopwords, catalog));
      var k := ContextLoopCommitsMatchedGame(intent, lines, e.used, stopwords, catalog);
      if r.committed.Some? {
        assert r.used == e.used + loop.used && r.committed == loop.committed;
        assert CommitsOn(lines[k], lines, k + 1, r.used, catalog, r.committed.value);
      }
    } else {
      assert r == e.run;
      FactLoopCommitsQueryOrLine(query, intent, lines, stopwords, catalog, context);
    }
  }

  /** Only a game of the catalogue is ever stored as the game in context by
      `handle_game_fact`, including the dialogue it hands over to. */
  lemma GameFactCommitsCatalogGame(query: Utterance, intent: string, lines: seq<Utterance>, stopwords: set<string>, catalog: seq<Game>,
                                   context: Option<string>)
    requires |query.gameScores| == |catalog|
    requires ScoredOn(lines, catalog)
    ensures GameFactRun(query, intent, lines, stopwords, catalog, context).committed.Some? ==>
      InCatalog(GameFactRun(query, intent, lines, stopwords, catalog, context).committed.value, catalog)
  {
    FactLoopCommitsCatalogGame(query, intent, lines, 0, stopwords, catalog, context);
    var e := FactLoop(query, intent, lines, 0, stopwords, catalog, context);
    if e.HandedOver? {
      ContextLoopCommitsCatalogGame(intent, lines, e.used, stopwords, catalog);
    }
  }

  /** A stored game in context is used as the subject of a question that
      names no game. */
  lemma ContextAnswersQuestionWithoutGame(query: Utterance, intent: string, lines: seq<Utterance>, from: nat, stopwords: set<string>,
                                          catalog: seq<Game>, game: string)
    requires |query.gameScores| == |catalog|
    requires ScoredOn(lines, catalog)
    requires from <= |lines|
    requires game != ""
    requires |catalog| > 0
    requires TierOf(ExtractGame(query.gameScores, catalog).value.0) == Unresolved
    requires forall i :: 0 <= i < |query.tokens| ==> Lower(query.tokens[i]) in stopwords || Lower(query.tokens[i]) in CustomStopwords
    ensures FactLoop(query, intent, lines, from, stopwords, catalog, Some(game)) ==
      Ended(Run(Finished, 0, [Details(game, intent)], None))
  {
  }

  /** With an empty game in context a low score hands over to
      `handle_game_in_context` before any line is read. */
  lemma EmptyContextAsksForGame(query: Utterance, intent: string, lines: seq<Utterance>, stopwords: set<string>, catalog: seq<Game>)
    requires |query.gameScores| == |catalog|
    requires ScoredOn(lines, catalog)
    requires |catalog| > 0
    requires TierOf(ExtractGame(query.gameScores, catalog).value.0) == Unresolved
    ensures GameFactRun(query, intent, lines, stopwords, catalog, Some("")) == GameInContextRun(intent, lines, 0, stopwords, catalog)
  {
  }

  /** `handle_game_fact`, on the query of the input that raised the intent
      and the console lines read after it. */
  method HandleGameFact(query: Utterance, intent: string, lines: seq<Utterance>, stopwords: set<string>, catalog: seq<Game>,
                        store: PreferenceStore)
    returns (ending: Ending, used: nat, out: seq<Line>)
    requires |query.gameScores| == |catalog|
    requires ScoredOn(lines, catalog)
    modifies store
    ensures var r := GameFactRun(query, intent, lines, stopwords, catalog, Lookup(old(store.prefs), GameInContextKey));
      r == Run(ending, used, out, r.committed) && Stored(store.prefs, old(store.prefs), r.committed)
  {
    var handOver, commit;
    handOver, ending, used, out, commit := FactDialogue(query, intent, lines, stopwords, catalog, store);
    if handOver {
      var e, n, asked := HandleGameInContext(intent, lines, used, stopwords, catalog, store);
      ending, used, out := e, used + n, out + asked;
    } else if commit.Some? {
      store.Update(GameInContextKey, commit.value);
    }
  }

  /** The loop of `handle_game_fact` up to the point where it hands over to
      `handle_game_in_context` or ends, with the game it commits. The game
      in context is read from the preferences on every pass; nothing here
      changes them, as a commit ends the loop and is stored by the caller. */
  method FactDialogue(query: Utterance, intent: string, lines: seq<Utterance>, stopwords: set<string>, catalog: seq<Game>,
                      store: PreferenceStore)
    returns (handOver: bool, ending: Ending, used: nat, out: seq<Line>, commit: Option<string>)
    requires |query.gameScores| == |catalog|
    requires ScoredOn(lines, catalog)
    ensures var r := FactLoop(query, intent, lines, 0, stopwords, catalog, Lookup(store.prefs, GameInContextKey));
      if handOver then r == HandedOver(used, out) else r == Ended(Run(ending, used, out, commit))
  {
    ghost var context := Lookup(store.prefs, GameInContextKey);
    ghost var total := FactLoop(query, intent, lines, 0, stopwords, catalog, context);
    var current := query;
    handOver, ending, used, out, commit := false, Finished, 0, [], None;
    ThenFactNothing(total);
    while true
      invariant used <= |lines|
      invariant |current.gameScores| == |catalog|
      invariant total == ThenFact(used, out, FactLoop(current, intent, lines, used, stopwords, catalog, context))
      decreases |lines| - used
    {
      var round := FactStep(current, intent, lines, used, stopwords, catalog, store, context);
      if !round.Again? {
        FactLoopEnds(current, intent, lines, used, stopwords, catalog, context, round, out, total);
        if round.HandOver? {
          handOver := true;
        } else {
          ending, used, out, commit := round.ending, used + round.used, out + round.out, round.commit;
        }
        break;
      }
      FactLoopAgain(current, intent, lines, used, stopwords, catalog, context, round, out, total);
      used, out, current := used + round.used, out + round.out, lines[used + round.used - 1];
    }
  }

  /** The body of the `handle_game_fact` loop, from line `at`; the game in
      context is read from the preferences. */
  method FactStep(query: Utterance, intent: string, lines: seq<Utterance>, at: nat, stopwords: set<string>, catalog: seq<Game>,
                  store: PreferenceStore, ghost context: Option<string>)
    returns (round: Round)
    requires |query.gameScores| == |catalog|
    requires ScoredOn(lines, catalog)
    requires at <= |lines|
    requires Lookup(store.prefs, GameInContextKey) == context
    ensures round == FactRound(query, intent, lines, at, stopwords, catalog, context)
  {
    var found := ExtractGame(query.gameScores, catalog);
    if found.None? {
      return Done(Raised, 0, [], None);
    }
    var (score, game) := found.value;
    var tier := TierOf(score);
    if tier == Unresolved {
      var gameInContext := store.Get(GameInContextKey);
      var branch := LowScoreBranch(gameInContext, IsGameInInput(query.tokens, stopwords));
      if branch == AskForGame {
        return HandOver;
      } else if branch == GameNotStocked {
        return Done(Finished, 0, [NoSuchGame], None);
      } else if branch == UseContext {
        if gameInContext.None? && IsFactIntent(intent) {
          return Done(Raised, 0, [], None);
        } else if gameInContext.None? {
          return Done(Finished, 0, [Unrecognised], None);
        }
        return Done(Finished, 0, [Details(gameInContext.value, intent)], None);
      }
      return CannotProcess;
    } else if tier == Uncertain {
      var ending, used, printed, confirmed := HandleIntermediateConfidence(game, lines, at);
      if ending != Finished {
        return Done(ending, used, printed, None);
      }
      if !confirmed {
        if at + used == |lines| {
          return Done(OutOfInput, used, printed + [AskAgain], None);
        }
        return Again(used + 1, printed + [AskAgain]);
      }
      return Done(Finished, used, printed + [Thanks, Details(game, intent)], Some(game));
    } else {
      return Done(Finished, 0, [Details(game, intent)], Some(game));
    }
  }
}
