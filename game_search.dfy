/** Searching the catalogue by genre and platform (`game_search.py`). */
module GameSearch {
  import opened Common
  import opened Constants
  import opened Text
  import opened Matcher
  import opened Catalog

  const PleaseWait: string := "Please wait..."
  const GenreMessage: string := "Certainly! Could you please tell me what genre are you looking for? Currently, we only have Action, Adventure, Puzzle games."
  const GenreReprompt: string := "Sorry, I couldn't understand. Could you please provide me with the genre? Genre can be either Action, Adventure, Puzzle."
  const PlatformMessage: string := "Could you please tell me what platform are you currently using? Currently, we only have PC, Xbox and PlayStation games."
  const PlatformReprompt: string := "Sorry, I couldn't understand. Could you please provide me with the platform? Platform can be either PC, Xbox, PlayStation."
  const NoGames: string := "Hmmm, looks like we don't have any games matching your criteria."

  /** The "na" value that switches a filter off. */
  const AnyValue: string := "na"
  const NotFound: string := "not_found"
  const MaxResults: nat := 5
  const KeywordThreshold: real := 0.6
  const KeywordColumns: seq<string> := ["value", "response", "type"]

  /** Python truthiness of a `str | None`. */
  predicate Truthy(s: Option<string>)
  {
    s.Some? && s.value != ""
  }

  /** `get_game_search_message`. */
  function GetGameSearchMessage(genre: Option<string>, platform: Option<string>): (m: string)
    ensures m == PleaseWait <==> Truthy(genre) && Truthy(platform)
    ensures m == PlatformMessage <==> Truthy(genre) && !Truthy(platform)
    ensures m == GenreMessage <==> !Truthy(genre)
  {
    if Truthy(genre) && Truthy(platform) then PleaseWait
    else if Truthy(genre) && !Truthy(platform) then PlatformMessage
    else GenreMessage
  }

  // ---------------------------------------------------------------------
  // Extracting genre and platform keywords from the input tokens

  /** The lowercased tokens that are not stopwords and belong to `vocab`,
      in input order, duplicates kept. */
  function Captured(tokens: seq<string>, stopwords: set<string>, vocab: seq<string>): (r: seq<string>)
    ensures |r| <= |tokens|
    ensures forall i :: 0 <= i < |r| ==> r[i] in vocab && r[i] !in stopwords
    decreases |tokens|
  {
    if |tokens| == 0 then []
    else
      var word := Lower(tokens[|tokens| - 1]);
      Captured(tokens[..|tokens| - 1], stopwords, vocab) + (if word !in stopwords && word in vocab then [word] else [])
  }

  lemma {:induction false} CapturedConcat(a: seq<string>, b: seq<string>, stopwords: set<string>, vocab: seq<string>)
    ensures Captured(a + b, stopwords, vocab) == Captured(a, stopwords, vocab) + Captured(b, stopwords, vocab)
    decreases |b|
  {
    if |b| == 0 {
      assert a + b == a;
    } else {
      assert (a + b)[..|a + b| - 1] == a + b[..|b| - 1];
      CapturedConcat(a, b[..|b| - 1], stopwords, vocab);
    }
  }

  /** Captures keep input order and repetitions: a token is captured, in
      place, exactly when its lowercase form is a non-stopword of `vocab`. */
  lemma CapturedKeepsOrder(a: seq<string>, token: string, b: seq<string>, stopwords: set<string>, vocab: seq<string>)
    ensures Captured(a + [token] + b, stopwords, vocab) ==
      Captured(a, stopwords, vocab)
      + (if Lower(token) !in stopwords && Lower(token) in vocab then [Lower(token)] else [])
      + Captured(b, stopwords, vocab)
  {
    CapturedConcat(a + [token], b, stopwords, vocab);
    CapturedConcat(a, [token], stopwords, vocab);
    assert [token][..0] == [];
  }

  /** The captures joined with ",", or `None` when there are none. */
  function Joined(captures: seq<string>): (r: Option<string>)
    ensures r.None? <==> captures == []
  {
    if captures == [] then None else Some(Join(captures, ','))
  }

  /** `extract_genre_platform`: one pass over the tokens collecting genres
      and platforms. */
  method ExtractGenrePlatform(tokens: seq<string>, stopwords: set<string>)
    returns (genre: Option<string>, platform: Option<string>)
    ensures genre == Joined(Captured(tokens, stopwords, AvailableGenres))
    ensures platform == Joined(Captured(tokens, stopwords, AvailablePlatforms))
  {
    var platforms: seq<string> := [];
    var genres: seq<string> := [];
    for i := 0 to |tokens|
      invariant platforms == Captured(tokens[..i], stopwords, AvailablePlatforms)
      invariant genres == Captured(tokens[..i], stopwords, AvailableGenres)
    {
      var word := Lower(tokens[i]);
      if word !in stopwords {
        if word in AvailablePlatforms {
          platforms := platforms + [word];
        }
        if word in AvailableGenres {
          genres := genres + [word];
        }
      }
      assert tokens[..i + 1][..i] == tokens[..i];
    }
    assert tokens[..|tokens|] == tokens;
    platform := if platforms != [] then Some(Join(platforms, ',')) else None;
    genre := if genres != [] then Some(Join(genres, ',')) else None;
  }

  lemma {:induction false} JoinNonEmpty(xs: seq<string>, sep: char)
    requires |xs| > 0 && xs[0] != []
    ensures Join(xs, sep) != []
  {
  }

  /** A capture is never the empty string: it is absent or non-empty. */
  lemma ExtractedIsNeverEmptyString(tokens: seq<string>, stopwords: set<string>)
    ensures Joined(Captured(tokens, stopwords, AvailableGenres)) != Some("")
    ensures Joined(Captured(tokens, stopwords, AvailablePlatforms)) != Some("")
  {
    var g := Captured(tokens, stopwords, AvailableGenres);
    var p := Captured(tokens, stopwords, AvailablePlatforms);
    if g != [] {
      assert g[0] in AvailableGenres;
      JoinNonEmpty(g, ',');
    }
    if p != [] {
      assert p[0] in AvailablePlatforms;
      JoinNonEmpty(p, ',');
    }
  }

  /** The search splits a capture on "," and gets back exactly the captured
      keywords, since no genre or platform name holds a comma. */
  lemma ExtractedKeywordsRoundTrip(tokens: seq<string>, stopwords: set<string>)
    ensures Joined(Captured(tokens, stopwords, AvailableGenres)).Some? ==>
      Split(Joined(Captured(tokens, stopwords, AvailableGenres)).value, ',') == Captured(tokens, stopwords, AvailableGenres)
    ensures Joined(Captured(tokens, stopwords, AvailablePlatforms)).Some? ==>
      Split(Joined(Captured(tokens, stopwords, AvailablePlatforms)).value, ',') == Captured(tokens, stopwords, AvailablePlatforms)
  {
    var g := Captured(tokens, stopwords, AvailableGenres);
    var p := Captured(tokens, stopwords, AvailablePlatforms);
    assert forall v :: v in AvailableGenres ==> ',' !in v;
    assert forall v :: v in AvailablePlatforms ==> ',' !in v;
    if g != [] {
      SplitJoin(g, ',');
    }
    if p != [] {
      SplitJoin(p, ',');
    }
  }

  // ---------------------------------------------------------------------
  // Filtering the catalogue

  /** One filter of `search_game`: off for "na", otherwise every
      comma-separated keyword must occur in the lowercased cell. */
  predicate KeywordsMatch(cell: string, wanted: string)
  {
    wanted == AnyValue || forall k :: 0 <= k < |Split(wanted, ',')| ==> Contains(Lower(cell), Split(wanted, ',')[k])
  }

  predicate Keep(g: Game, genre: string, platform: string)
  {
    KeywordsMatch(g.genre, genre) && KeywordsMatch(g.platform, platform)
  }

  /** A filter on the comma-joined keywords `keywords` keeps a cell
      exactly when every keyword occurs in the lowercased cell; "na" keeps
      every cell. */
  lemma KeywordsMatchAll(cell: string, keywords: seq<string>)
    requires |keywords| >= 1
    requires forall i :: 0 <= i < |keywords| ==> ',' !in keywords[i]
    requires Join(keywords, ',') != AnyValue
    ensures KeywordsMatch(cell, Join(keywords, ',')) <==> forall i :: 0 <= i < |keywords| ==> Contains(Lower(cell), keywords[i])
    ensures KeywordsMatch(cell, AnyValue)
  {
    SplitJoin(keywords, ',');
  }

  /** The indices of the rows both filters keep, in catalogue order. */
  function MatchIndices(catalog: seq<Game>, genre: string, platform: string): (r: seq<nat>)
    ensures forall j :: 0 <= j < |r| ==> r[j] < |catalog|
    ensures forall j, k :: 0 <= j < k < |r| ==> r[j] < r[k]
    decreases |catalog|
  {
    if |catalog| == 0 then []
    else
      var n := |catalog| - 1;
      MatchIndices(catalog[..n], genre, platform) + (if Keep(catalog[n], genre, platform) then [n] else [])
  }

  /** The indices listed are exactly those of the rows both filters keep. */
  lemma {:induction false} MatchIndicesAreKept(catalog: seq<Game>, genre: string, platform: string)
    ensures forall j :: 0 <= j < |MatchIndices(catalog, genre, platform)| ==>
      Keep(catalog[MatchIndices(catalog, genre, platform)[j]], genre, platform)
    ensures forall i :: 0 <= i < |catalog| && Keep(catalog[i], genre, platform) ==> i in MatchIndices(catalog, genre, platform)
    decreases |catalog|
  {
    if |catalog| > 0 {
      var n := |catalog| - 1;
      var front := MatchIndices(catalog[..n], genre, platform);
      MatchIndicesAreKept(catalog[..n], genre, platform);
      var r := MatchIndices(catalog, genre, platform);
      var last := if Keep(catalog[n], genre, platform) then [n] else [];
      assert r == front + last;
      forall j | 0 <= j < |r| ensures Keep(catalog[r[j]], genre, platform) {
        if j < |front| {
          assert r[j] == front[j] && catalog[..n][front[j]] == catalog[front[j]];
        }
      }
      forall i | 0 <= i < |catalog| && Keep(catalog[i], genre, platform) ensures i in r {
        if i < n {
          assert catalog[..n][i] == catalog[i];
        } else {
          assert r[|front|] == n;
        }
      }
    }
  }

  /** Drawing `k` rows without replacement from `pool`: each draw takes
      the element at the drawn number modulo the size of what is left. The
      draws stand for the random state of `DataFrame.sample`. */
  function Draw(pool: seq<nat>, k: nat, draws: seq<nat>): (r: seq<nat>)
    requires Distinct(pool)
    ensures |r| == if k <= |pool| then k else |pool|
    ensures forall i :: 0 <= i < |r| ==> r[i] in pool
    ensures Distinct(r)
    decreases k
  {
    if k == 0 || |pool| == 0 then []
    else
      var d := if |draws| > 0 then draws[0] else 0;
      var j := d % |pool|;
      var rest := pool[..j] + pool[j + 1..];
      assert forall x :: x in rest ==> x in pool && x != pool[j] by {
        forall x | x in rest ensures x in pool && x != pool[j] {
          if x in pool[..j] {
            var i :| 0 <= i < j && pool[i] == x;
          } else {
            var i :| 0 <= i < |pool| - j - 1 && pool[j + 1..][i] == x;
            assert pool[j + 1 + i] == x;
          }
        }
      }
      assert Distinct(rest) by {
        forall a, b | 0 <= a < b < |rest| ensures rest[a] != rest[b] {
          var pa := if a < j then a else a + 1;
          var pb := if b < j then b else b + 1;
          assert rest[a] == pool[pa] && rest[b] == pool[pb];
        }
      }
      var tail := Draw(rest, k - 1, if |draws| > 0 then draws[1..] else []);
      [pool[j]] + tail
  }

  /** The result lines of the first `n` picked rows. */
  function FormatPicks(catalog: seq<Game>, picks: seq<nat>, n: nat): (r: seq<string>)
    requires n <= |picks|
    requires forall i :: 0 <= i < |picks| ==> picks[i] < |catalog|
    ensures |r| == n
  {
    if n == 0 then [] else FormatPicks(catalog, picks, n - 1) + [Format(catalog[picks[n - 1]])]
  }

  lemma {:induction false} FormatPicksAt(catalog: seq<Game>, picks: seq<nat>, n: nat)
    requires n <= |picks|
    requires forall i :: 0 <= i < |picks| ==> picks[i] < |catalog|
    ensures forall i :: 0 <= i < n ==> FormatPicks(catalog, picks, n)[i] == Format(catalog[picks[i]])
  {
    if n > 0 {
      FormatPicksAt(catalog, picks, n - 1);
    }
  }

  /** `search_game`: the formatted matches when there are at most five,
      otherwise five matches chosen by the draws. */
  function SearchGame(genre: string, platform: string, catalog: seq<Game>, draws: seq<nat>): (r: seq<string>)
    ensures |r| <= MaxResults
  {
    var m := MatchIndices(catalog, genre, platform);
    var picks := if |m| > MaxResults then Draw(m, MaxResults, draws) else m;
    FormatPicks(catalog, picks, |picks|)
  }

  /** Up to five matches are all listed in catalogue order; beyond five,
      five distinct matching rows are listed. */
  lemma SearchGameReturnsMatches(genre: string, platform: string, catalog: seq<Game>, draws: seq<nat>)
    ensures var r := SearchGame(genre, platform, catalog, draws);
      |MatchIndices(catalog, genre, platform)| <= MaxResults ==>
        |r| == |MatchIndices(catalog, genre, platform)| &&
        forall i :: 0 <= i < |r| ==> r[i] == Format(catalog[MatchIndices(catalog, genre, platform)[i]])
    ensures var r := SearchGame(genre, platform, catalog, draws);
      |MatchIndices(catalog, genre, platform)| > MaxResults ==>
        |r| == MaxResults &&
        exists picks: seq<nat> :: |picks| == MaxResults && Distinct(picks) &&
          forall i :: 0 <= i < MaxResults ==>
            picks[i] < |catalog| && Keep(catalog[picks[i]], genre, platform) && r[i] == Format(catalog[picks[i]])
  {
    var m := MatchIndices(catalog, genre, platform);
    var picks := if |m| > MaxResults then Draw(m, MaxResults, draws) else m;
    MatchIndicesAreKept(catalog, genre, platform);
    FormatPicksAt(catalog, picks, |picks|);
    if |m| > MaxResults {
      assert forall i :: 0 <= i < MaxResults ==> picks[i] in m;
    }
  }

  // ---------------------------------------------------------------------
  // Listing the results

  function ListHeader(platformResponse: string): string
  {
    Say("Alright! Here is a list of games " + platformResponse + ":")
  }

  /** The line printed for the `n`-th game. */
  function ListLine(n: nat, game: string): string
  {
    "\n" + NatToString(n) + ". " + game + "\n"
  }

  /** What `list_games` prints: a header and the games numbered from 1 in
      list order, or the apology for an empty list. */
  function Listing(games: seq<string>, platformResponse: string): (r: seq<string>)
    ensures games == [] ==> r == [Say(NoGames)]
    ensures games != [] ==>
      |r| == |games| + 1 && r[0] == ListHeader(platformResponse) &&
      forall i :: 0 <= i < |games| ==> r[i + 1] == ListLine(i + 1, games[i])
  {
    if games == [] then [Say(NoGames)]
    else [ListHeader(platformResponse)] + seq(|games|, (i: int) requires 0 <= i < |games| => ListLine(i + 1, games[i]))
  }

  /** Every game of a non-empty list is printed on exactly one line, whose
      number is its position counted from 1. */
  lemma ListedOnce(games: seq<string>, platformResponse: string, i: nat)
    requires i < |games|
    ensures Listing(games, platformResponse)[i + 1] == ListLine(i + 1, games[i])
    ensures forall j :: 1 <= j < |games| + 1 && j != i + 1 ==> Listing(games, platformResponse)[j] != ListLine(i + 1, games[i])
  {
    forall j | 1 <= j < |games| + 1 && j != i + 1
      ensures Listing(games, platformResponse)[j] != ListLine(i + 1, games[i])
    {
      ListLinesDiffer(j, games[j - 1], i + 1, games[i]);
    }
  }

  /** Lines for different numbers differ: the numerals differ and are
      followed by the same ". ". */
  lemma ListLinesDiffer(m: nat, x: string, n: nat, y: string)
    requires m != n
    ensures ListLine(m, x) != ListLine(n, y)
  {
    var a := NatToString(m);
    var b := NatToString(n);
    NatToStringInjective(m, n);
    var s := ListLine(m, x);
    var t := ListLine(n, y);
    assert s == "\n" + a + ". " + x + "\n";
    assert t == "\n" + b + ". " + y + "\n";
    if |a| < |b| {
      assert s[1 + |a|] == '.';
      assert t[1 + |a|] == b[|a|];
    } else if |b| < |a| {
      assert t[1 + |b|] == '.';
      assert s[1 + |b|] == a[|b|];
    } else {
      var k :| 0 <= k < |a| && a[k] != b[k];
      assert s[1 + k] == a[k];
      assert t[1 + k] == b[k];
    }
  }

  /** `list_games`: the header, then one numbered line per game. */
  method ListGames(games: seq<string>, platformResponse: string) returns (out: seq<string>)
    ensures out == Listing(games, platformResponse)
  {
    if games == [] {
      out := [Say(NoGames)];
      return;
    }
    out := [ListHeader(platformResponse)];
    var index := 0;
    while index < |games|
      invariant 0 <= index <= |games|
      invariant |out| == index + 1
      invariant out[0] == ListHeader(platformResponse)
      invariant forall i :: 0 <= i < index ==> out[i + 1] == ListLine(i + 1, games[i])
    {
      out := out + [ListLine(index + 1, games[index])];
      index := index + 1;
    }
    var expected := Listing(games, platformResponse);
    assert forall i :: 0 <= i < |out| ==> out[i] == expected[i] by {
      forall i | 0 <= i < |out| ensures out[i] == expected[i] {
        if i > 0 {
          assert out[i] == ListLine(i, games[i - 1]);
        }
      }
    }
  }

  // ---------------------------------------------------------------------
  // Console lines

  /** What the search dialogue prints, one constructor per message;
      `Render` gives the console text. `Results` is the whole output of
      `list_games`. */
  datatype Line =
    | GenreAgain
    | PlatformAgain
    | Acknowledged(response: string, askPlatform: bool)
    | Results(games: seq<string>, response: string)

  function Render(l: Line): seq<string>
  {
    match l
    case GenreAgain => [Say(GenreReprompt)]
    case PlatformAgain => [Say(PlatformReprompt)]
    case Acknowledged(response, askPlatform) => [Say(response + ". " + (if askPlatform then PlatformMessage else ""))]
    case Results(games, response) => Listing(games, response)
  }

  // ---------------------------------------------------------------------
  // The reprompt-until-valid loops of handle_game_search

  /** The (value, response, type) of a row of `game_search.csv`. */
  datatype Keyword = Keyword(value: string, response: string, kind: string)

  /** One line matched against `game_search.csv` on its "keyword" column
      with threshold 0.6: the (value, response, type) of the row the
      matcher selects, or the error it raises. */
  function KeywordLookup(line: Utterance, rows: seq<Row>): (r: Result<Keyword, MatchError>)
    requires |line.keywordScores| == |rows|
    ensures |rows| == 0 ==> r == Err(EmptyCorpus)
    ensures |rows| > 0 ==> var k := SelectedIndex(line.keywordScores, Some(KeywordThreshold));
      && (r.Ok? <==> "value" in rows[k] && "response" in rows[k] && "type" in rows[k])
      && (r.Ok? ==> r.value == Keyword(rows[k]["value"], rows[k]["response"], rows[k]["type"]))
      && (r.Err? ==> r.error.MissingColumn? && r.error.column !in rows[k])
    ensures r.Ok? ==> exists i :: (0 <= i < |rows| && "value" in rows[i] && "response" in rows[i] && "type" in rows[i] &&
      rows[i]["value"] == r.value.value && rows[i]["response"] == r.value.response && rows[i]["type"] == r.value.kind)
  {
    var scores := line.keywordScores;
    match GetSimilarResult(scores, rows, Multiple(KeywordColumns), Some(KeywordThreshold))
    case Ok(payload) =>
      var i := SelectedIndex(scores, Some(KeywordThreshold));
      assert rows[i]["value"] == payload.values[0];
      Ok(Keyword(payload.values[0], payload.values[1], payload.values[2]))
    case Err(e) => Err(e)
  }

  /** Every console line carries a similarity for each keyword row. */
  predicate KeywordScoredOn(lines: seq<Utterance>, rows: seq<Row>)
  {
    forall j {:trigger lines[j].keywordScores} :: 0 <= j < |lines| ==> |lines[j].keywordScores| == |rows|
  }

  /** What the keyword lookup makes of each console line, in order. */
  function Lookups(lines: seq<Utterance>, rows: seq<Row>): (r: seq<Result<Keyword, MatchError>>)
    requires KeywordScoredOn(lines, rows)
    ensures |r| == |lines|
    decreases |lines|
  {
    if |lines| == 0 then [] else Lookups(lines[..|lines| - 1], rows) + [KeywordLookup(lines[|lines| - 1], rows)]
  }

  /** Entry `j` is the lookup of line `j`. */
  lemma {:induction false} LookupsAt(lines: seq<Utterance>, rows: seq<Row>, j: nat)
    requires KeywordScoredOn(lines, rows)
    requires j < |lines|
    ensures Lookups(lines, rows)[j] == KeywordLookup(lines[j], rows)
    decreases |lines|
  {
    if j < |lines| - 1 {
      var front := lines[..|lines| - 1];
      assert front[j] == lines[j];
      LookupsAt(front, rows, j);
    }
  }

  /** A lookup ends the loop when it found something of the wanted kind. */
  predicate Accepts(kind: string, k: Keyword)
  {
    k.value != NotFound && Contains(k.kind, kind)
  }

  /** A lookup that makes the loop reprompt. */
  predicate Rejects(kind: string, found: Result<Keyword, MatchError>)
  {
    found.Ok? && !Accepts(kind, found.value)
  }

  datatype Resolution = Resolved(keyword: Keyword) | Exhausted | Failed(error: MatchError)

  /** How a reprompt loop ended and how many lines it read. */
  datatype Attempt = Attempt(outcome: Resolution, used: nat)

  /** The lines the loop rejected: all it read, except the last one when
      that line ended the loop. */
  function Rejected(a: Attempt): nat
  {
    if a.outcome.Exhausted? || a.used == 0 then a.used else a.used - 1
  }

  /** The loop on the console lines from `from` on, given the lookup of
      each line: read a line, accept it or reprompt. Input running out is
      `Exhausted`; a matcher exception is `Failed`. */
  function ResolveRun(kind: string, found: seq<Result<Keyword, MatchError>>, from: nat): (r: Attempt)
    requires from <= |found|
    ensures from + r.used <= |found|
    ensures r.outcome.Exhausted? ==> from + r.used == |found|
    ensures !r.outcome.Exhausted? ==> 0 < r.used
    decreases |found| - from
  {
    if from == |found| then Attempt(Exhausted, 0)
    else
      match found[from]
      case Err(e) => Attempt(Failed(e), 1)
      case Ok(k) =>
        if Accepts(kind, k) then Attempt(Resolved(k), 1)
        else
          var rest := ResolveRun(kind, found, from + 1);
          Attempt(rest.outcome, rest.used + 1)
  }

  /** Every line the loop rejected was a successful lookup of the wrong
      kind; it stops at the first accepted line or the first exception. */
  lemma {:induction false} ResolveRunStopsAtFirstAccepted(kind: string, found: seq<Result<Keyword, MatchError>>, from: nat)
    requires from <= |found|
    ensures var r := ResolveRun(kind, found, from);
      forall j :: from <= j < from + Rejected(r) ==> Rejects(kind, found[j])
    ensures var r := ResolveRun(kind, found, from);
      r.outcome.Resolved? ==> found[from + r.used - 1] == Ok(r.outcome.keyword) && Accepts(kind, r.outcome.keyword)
    ensures var r := ResolveRun(kind, found, from);
      r.outcome.Failed? ==> found[from + r.used - 1] == Err(r.outcome.error)
    decreases |found| - from
  {
    if from < |found| && found[from].Ok? && !Accepts(kind, found[from].value) {
      ResolveRunStopsAtFirstAccepted(kind, found, from + 1);
    }
  }

  /** One reprompt loop of `handle_game_search` (`kind` is "genre" or
      "platform") on the console lines from `from` on; each rejected line
      prints the reprompt. */
  method RepromptUntilValid(kind: string, reprompt: Line, lines: seq<Utterance>, rows: seq<Row>, from: nat)
    returns (outcome: Resolution, used: nat, out: seq<Line>)
    requires KeywordScoredOn(lines, rows)
    requires from <= |lines|
    ensures Attempt(outcome, used) == ResolveRun(kind, Lookups(lines, rows), from)
    ensures out == Repeat([reprompt], Rejected(Attempt(outcome, used)))
  {
    ghost var found := Lookups(lines, rows);
    var at := from;
    used := 0;
    out := [];
    while at < |lines|
      invariant at == from + used <= |lines|
      invariant ResolveRun(kind, found, from) ==
        Attempt(ResolveRun(kind, found, at).outcome, used + ResolveRun(kind, found, at).used)
      invariant out == Repeat([reprompt], used)
      decreases |lines| - at
    {
      var result := KeywordLookup(lines[at], rows);
      LookupsAt(lines, rows, at);
      if result.Err? {
        return Failed(result.error), used + 1, out;
      }
      if Accepts(kind, result.value) {
        return Resolved(result.value), used + 1, out;
      }
      RepeatAppend([reprompt], used);
      out := out + [reprompt];
      at := at + 1;
      used := used + 1;
    }
    outcome := Exhausted;
  }

  // ---------------------------------------------------------------------
  // handle_game_search

  /** What one reprompt stage leaves: how it ended (`Finished` when the
      dialogue goes on), the lines it read, what it printed, and the
      accepted row when the loop ran. */
  datatype Stage = Stage(ending: Ending, used: nat, out: seq<Line>, accepted: Option<Keyword>)

  /** A stage: skipped when the value was captured, otherwise the loop on
      the lines from `from` on. */
  function AskFor(kind: string, reprompt: Line, captured: Option<string>, found: seq<Result<Keyword, MatchError>>,
                  from: nat): (s: Stage)
    requires from <= |found|
    ensures from + s.used <= |found|
    ensures Truthy(captured) ==> s == Stage(Finished, 0, [], None)
  {
    if Truthy(captured) then Stage(Finished, 0, [], None)
    else
      var a := ResolveRun(kind, found, from);
      var out := Repeat([reprompt], Rejected(a));
      match a.outcome
      case Exhausted => Stage(OutOfInput, a.used, out, None)
      case Failed(_) => Stage(Raised, a.used, out, None)
      case Resolved(k) => Stage(Finished, a.used, out, Some(k))
  }

  /** A stage that ran its loop and goes on accepted its last line, after
      rejecting all the others; one that raised did so on its last line. */
  lemma AskForEndsOnLastLine(kind: string, reprompt: Line, captured: Option<string>, found: seq<Result<Keyword, MatchError>>,
                             from: nat)
    requires from <= |found|
    ensures var s := AskFor(kind, reprompt, captured, found, from);
      !Truthy(captured) && s.ending == Finished ==>
        s.accepted.Some? && Accepts(kind, s.accepted.value) && 0 < s.used &&
        found[from + s.used - 1] == Ok(s.accepted.value) &&
        forall j :: from <= j < from + s.used - 1 ==> Rejects(kind, found[j])
    ensures var s := AskFor(kind, reprompt, captured, found, from);
      !Truthy(captured) && s.ending == Raised ==> 0 < s.used && found[from + s.used - 1].Err?
  {
    ResolveRunStopsAtFirstAccepted(kind, found, from);
  }

  method Ask(kind: string, reprompt: Line, captured: Option<string>, lines: seq<Utterance>, rows: seq<Row>, from: nat)
    returns (s: Stage)
    requires KeywordScoredOn(lines, rows)
    requires from <= |lines|
    ensures s == AskFor(kind, reprompt, captured, Lookups(lines, rows), from)
  {
    if Truthy(captured) {
      return Stage(Finished, 0, [], None);
    }
    var outcome, used, out := RepromptUntilValid(kind, reprompt, lines, rows, from);
    match outcome {
      case Exhausted => s := Stage(OutOfInput, used, out, None);
      case Failed(_) => s := Stage(Raised, used, out, None);
      case Resolved(k) => s := Stage(Finished, used, out, Some(k));
    }
  }

  /** The search argument: the loop's value when truthy, else the value
      captured from the first input (`None` when neither). */
  function Prefer(accepted: Option<Keyword>, captured: Option<string>): Option<string>
  {
    if accepted.Some? && accepted.value.value != "" then Some(accepted.value.value) else captured
  }

  /** The genre stage's confirmation line, printed when its loop ran. */
  function Confirmation(g: Stage, capturedPlatform: Option<string>): seq<Line>
  {
    if g.accepted.Some? then [Acknowledged(g.accepted.value.response, !Truthy(capturedPlatform))] else []
  }

  /** The response shown in the list header: the platform row's, when the
      platform loop accepted a value other than "na". */
  function HeaderResponse(p: Stage): string
  {
    if p.accepted.Some? && p.accepted.value.value != "" && p.accepted.value.value != AnyValue then p.accepted.value.response else ""
  }

  /** Everything `handle_game_search` reads and prints. */
  function GameSearchRun(capturedGenre: Option<string>, capturedPlatform: Option<string>, lines: seq<Utterance>,
                         rows: seq<Row>, catalog: seq<Game>, draws: seq<nat>): (r: Transcript<Line>)
    requires KeywordScoredOn(lines, rows)
    ensures r.used <= |lines|
  {
    var found := Lookups(lines, rows);
    var g := AskFor("genre", GenreAgain, capturedGenre, found, 0);
    if g.ending != Finished then Transcript(g.ending, g.used, g.out)
    else AfterGenre(g, capturedGenre, capturedPlatform, found, catalog, draws)
  }

  /** What follows a genre stage that goes on: the platform stage, then the
      search and the listing. */
  function AfterGenre(g: Stage, capturedGenre: Option<string>, capturedPlatform: Option<string>,
                      found: seq<Result<Keyword, MatchError>>, catalog: seq<Game>, draws: seq<nat>): (r: Transcript<Line>)
    requires g.used <= |found|
    ensures r.used <= |found|
  {
    var p := AskFor("platform", PlatformAgain, capturedPlatform, found, g.used);
    var used := g.used + p.used;
    var out := g.out + Confirmation(g, capturedPlatform) + p.out;
    if p.ending != Finished then Transcript(p.ending, used, out)
    // `None.split(",")` raises.
    else if Prefer(g.accepted, capturedGenre).None? || Prefer(p.accepted, capturedPlatform).None? then Transcript(Raised, used, out)
    else
      var games := SearchGame(Prefer(g.accepted, capturedGenre).value, Prefer(p.accepted, capturedPlatform).value, catalog, draws);
      Transcript(Finished, used, out + [Results(games, HeaderResponse(p))])
  }

  /** With both genre and platform captured, no line is read and the
      listing of the search on the captured values is printed at once. */
  lemma BothCapturedSearchesAtOnce(genre: string, platform: string, lines: seq<Utterance>, rows: seq<Row>,
                                   catalog: seq<Game>, draws: seq<nat>)
    requires KeywordScoredOn(lines, rows)
    requires genre != "" && platform != ""
    ensures GameSearchRun(Some(genre), Some(platform), lines, rows, catalog, draws) ==
      Transcript(Finished, 0, [Results(SearchGame(genre, platform, catalog, draws), "")])
  {
    var found := Lookups(lines, rows);
    var g := AskFor("genre", GenreAgain, Some(genre), found, 0);
    var p := AskFor("platform", PlatformAgain, Some(platform), found, 0);
    assert g == Stage(Finished, 0, [], None) && p == Stage(Finished, 0, [], None);
    assert g.out + Confirmation(g, Some(platform)) + p.out == [];
  }

  /** `handle_game_search` finishes exactly when both stages go on and
      both search arguments are set; it then reads the lines of the two
      stages and prints their output, the genre confirmation, and last the
      listing of the search on the preferred genre and platform under the
      platform row's response. */
  lemma GameSearchFinishesWithListing(capturedGenre: Option<string>, capturedPlatform: Option<string>, lines: seq<Utterance>,
                                      rows: seq<Row>, catalog: seq<Game>, draws: seq<nat>)
    requires KeywordScoredOn(lines, rows)
    ensures var r := GameSearchRun(capturedGenre, capturedPlatform, lines, rows, catalog, draws);
      var found := Lookups(lines, rows);
      var g := AskFor("genre", GenreAgain, capturedGenre, found, 0);
      var p := AskFor("platform", PlatformAgain, capturedPlatform, found, g.used);
      var genre := Prefer(g.accepted, capturedGenre);
      var platform := Prefer(p.accepted, capturedPlatform);
      && (r.ending == Finished <==> g.ending == Finished && p.ending == Finished && genre.Some? && platform.Some?)
      && (r.ending == Finished ==>
            r.used == g.used + p.used &&
            r.out == g.out + Confirmation(g, capturedPlatform) + p.out +
                     [Results(SearchGame(genre.value, platform.value, catalog, draws), HeaderResponse(p))])
  {
  }

  /** The argument passed for a stage is the value of its accepted row
      when that is non-empty, and the captured value otherwise. */
  lemma PreferAcceptedValue(accepted: Option<Keyword>, captured: Option<string>)
    ensures accepted.Some? && accepted.value.value != "" ==> Prefer(accepted, captured) == Some(accepted.value.value)
    ensures (accepted.None? || accepted.value.value == "") ==> Prefer(accepted, captured) == captured
  {
  }

  /** A finished search on an uncaptured genre searched the genre of an
      accepted line `j`, one whose lookup found a "genre" row with a
      non-empty value, after lines whose lookups found rows of other kinds;
      the platform stage read on from the next line. */
  lemma SearchUsesAcceptedGenre(platform: Option<string>, lines: seq<Utterance>, rows: seq<Row>, catalog: seq<Game>,
                                draws: seq<nat>)
    requires KeywordScoredOn(lines, rows)
    ensures var r := GameSearchRun(None, platform, lines, rows, catalog, draws);
      r.ending == Finished ==>
      exists j :: (0 <= j < |lines| && KeywordLookup(lines[j], rows).Ok? && Accepts("genre", KeywordLookup(lines[j], rows).value) &&
        (forall i :: 0 <= i < j ==> Rejects("genre", KeywordLookup(lines[i], rows))) &&
        KeywordLookup(lines[j], rows).value.value != "" &&
        var p := AskFor("platform", PlatformAgain, platform, Lookups(lines, rows), j + 1);
        Prefer(p.accepted, platform).Some? && |r.out| > 0 &&
        r.out[|r.out| - 1] ==
          Results(SearchGame(KeywordLookup(lines[j], rows).value.value, Prefer(p.accepted, platform).value, catalog, draws),
                  HeaderResponse(p)))
  {
    var r := GameSearchRun(None, platform, lines, rows, catalog, draws);
    if r.ending != Finished {
      return;
    }
    GameSearchFinishesWithListing(None, platform, lines, rows, catalog, draws);
    var found := Lookups(lines, rows);
    var g := AskFor("genre", GenreAgain, None, found, 0);
    AskForEndsOnLastLine("genre", GenreAgain, None, found, 0);
    var j := g.used - 1;
    LookupsAt(lines, rows, j);
    forall i | 0 <= i < j
      ensures Rejects("genre", KeywordLookup(lines[i], rows))
    {
      LookupsAt(lines, rows, i);
    }
    assert g.accepted == Some(KeywordLookup(lines[j], rows).value);
  }

  /** `handle_game_search`: the two loops, the search and the listing. */
  method HandleGameSearch(capturedGenre: Option<string>, capturedPlatform: Option<string>, lines: seq<Utterance>,
                          rows: seq<Row>, catalog: seq<Game>, draws: seq<nat>)
    returns (ending: Ending, used: nat, out: seq<Line>)
    requires KeywordScoredOn(lines, rows)
    ensures Transcript(ending, used, out) == GameSearchRun(capturedGenre, capturedPlatform, lines, rows, catalog, draws)
  {
    var g := Ask("genre", GenreAgain, capturedGenre, lines, rows, 0);
    if g.ending != Finished {
      return g.ending, g.used, g.out;
    }
    ending, used, out := SearchAfterGenre(g, capturedGenre, capturedPlatform, lines, rows, catalog, draws);
  }

  /** The platform loop, the search and the listing, after a genre stage
      that goes on. */
  method SearchAfterGenre(g: Stage, capturedGenre: Option<string>, capturedPlatform: Option<string>, lines: seq<Utterance>,
                          rows: seq<Row>, catalog: seq<Game>, draws: seq<nat>)
    returns (ending: Ending, used: nat, out: seq<Line>)
    requires KeywordScoredOn(lines, rows)
    requires g.used <= |lines|
    ensures Transcript(ending, used, out) == AfterGenre(g, capturedGenre, capturedPlatform, Lookups(lines, rows), catalog, draws)
  {
    var p := Ask("platform", PlatformAgain, capturedPlatform, lines, rows, g.used);
    used := g.used + p.used;
    out := g.out;
    if g.accepted.Some? {
      out := out + [Acknowledged(g.accepted.value.response, !Truthy(capturedPlatform))];
    }
    assert out == g.out + Confirmation(g, capturedPlatform);
    out := out + p.out;
    if p.ending != Finished {
      return p.ending, used, out;
    }
    var genreArg := Prefer(g.accepted, capturedGenre);
    var platformArg := Prefer(p.accepted, capturedPlatform);
    if genreArg.None? || platformArg.None? {
      return Raised, used, out;
    }
    var games := SearchGame(genreArg.value, platformArg.value, catalog, draws);
    ending := Finished;
    out := out + [Results(games, HeaderResponse(p))];
  }
}
