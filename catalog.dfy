/** The game catalogue (`data/games.csv`) as an in-memory sequence of
    records. */
module Catalog {
  import opened Common

  datatype Game = Game(name: string, description: string, genre: string, platform: string, shortDescription: string)

  /** `row[column]` on a catalogue row: the five columns of the file, and
      nothing for any other column name. */
  function Cell(g: Game, column: string): (r: Option<string>)
    ensures r.Some? <==> column in {"name", "description", "genre", "platform", "short_description"}
  {
    match column
    case "name" => Some(g.name)
    case "description" => Some(g.description)
    case "genre" => Some(g.genre)
    case "platform" => Some(g.platform)
    case "short_description" => Some(g.shortDescription)
    case _ => None
  }

  /** A search result line: `(name) short_description`. */
  function Format(g: Game): string
  {
    "(" + g.name + ") " + g.shortDescription
  }

  /** A result line gives back the name and the short description of its
      game, when the name has no closing parenthesis: the name runs up to
      the first `)`. */
  lemma FormatInjective(g: Game, h: Game)
    requires ')' !in g.name && ')' !in h.name
    requires Format(g) == Format(h)
    ensures g.name == h.name && g.shortDescription == h.shortDescription
  {
    var s := Format(g);
    var m, n := |g.name|, |h.name|;
    assert s[m + 1] == ')' && Format(h)[n + 1] == ')';
    if m < n {
      assert false;
    } else if n < m {
      assert false;
    }
    assert g.name == s[1..m + 1] == h.name;
    assert g.shortDescription == s[m + 3..] == h.shortDescription;
  }

  predicate Distinct<T(==)>(s: seq<T>)
  {
    forall i, j :: 0 <= i < j < |s| ==> s[i] != s[j]
  }
}
