/** The similarity matcher of `utils/helpers.py` (`get_similar_result`).
    The TF-IDF vectorisation and cosine similarity are not modelled: the
    matcher receives the similarity of the query to every corpus row and
    models what is decided from them: the first best row, the threshold
    fallback to row 0, and the projection of the requested column(s). */
module Matcher {
  import opened Common
  import opened Constants

  /** The `result_header_name` argument: one column name (a `str`), a list
      of column names, or a value of any other Python type. */
  datatype Header = Single(name: string) | Multiple(names: seq<string>) | Unsupported

  /** A single cell, or the cells of several columns in the requested order. */
  datatype Payload = Scalar(value: string) | Fields(values: seq<string>)

  /** Exceptions the matcher lets escape: fitting the vectorizer on an
      empty corpus, the `ValueError` for an unsupported header type, and
      the `KeyError` of a column the corpus lacks. */
  datatype MatchError = EmptyCorpus | UnsupportedHeaderType | MissingColumn(column: string)

  /** `k` is the first index holding the largest score. */
  predicate IsFirstMax(scores: seq<real>, k: nat)
  {
    && k < |scores|
    && (forall j :: 0 <= j < |scores| ==> scores[j] <= scores[k])
    && (forall j :: 0 <= j < k ==> scores[j] < scores[k])
  }

  /** `numpy.argmax`: ties go to the earliest row (see `ArgMaxIsFirstMax`). */
  function ArgMax(scores: seq<real>): (k: nat)
    requires |scores| > 0
    ensures k < |scores|
  {
    ArgMaxBelow(scores, |scores|)
  }

  /** The scan of `numpy.argmax` over the first `n` scores: a later score
      replaces the best so far only when it is strictly larger. */
  function ArgMaxBelow(scores: seq<real>, n: nat): (k: nat)
    requires 0 < n <= |scores|
    ensures k < n
  {
    if n == 1 then 0
    else
      var k := ArgMaxBelow(scores, n - 1);
      if scores[n - 1] > scores[k] then n - 1 else k
  }

  /** The scan ends on the first index holding the largest of the first
      `n` scores. */
  lemma {:induction false} ArgMaxBelowIsFirstMax(scores: seq<real>, n: nat)
    requires 0 < n <= |scores|
    ensures forall j :: 0 <= j < n ==> scores[j] <= scores[ArgMaxBelow(scores, n)]
    ensures forall j :: 0 <= j < ArgMaxBelow(scores, n) ==> scores[j] < scores[ArgMaxBelow(scores, n)]
  {
    if n > 1 {
      ArgMaxBelowIsFirstMax(scores, n - 1);
    }
  }

  lemma ArgMaxIsFirstMax(scores: seq<real>)
    requires |scores| > 0
    ensures IsFirstMax(scores, ArgMax(scores))
  {
    ArgMaxBelowIsFirstMax(scores, |scores|);
  }

  /** The first-maximum property determines the index completely. */
  lemma FirstMaxIsUnique(scores: seq<real>, k: nat, k': nat)
    requires IsFirstMax(scores, k) && IsFirstMax(scores, k')
    ensures k == k'
  {
    assert scores[k] == scores[k'];
  }

  /** `threshold if threshold else DEFAULT_SIMILARITY_THRESHOLD`: both a
      missing threshold and `0.0` are falsy and give the default. */
  function EffectiveThreshold(threshold: Option<real>): (t: real)
    ensures threshold == None || threshold == Some(0.0) <==> t == DefaultSimilarityThreshold && threshold != Some(DefaultSimilarityThreshold)
    ensures threshold != None && threshold != Some(0.0) ==> t == threshold.value
  {
    if threshold.Some? && threshold.value != 0.0 then threshold.value else DefaultSimilarityThreshold
  }

  /** The row whose payload is returned: the first best row when some row
      reaches the threshold, the fallback row 0 when none does. */
  function SelectedIndex(scores: seq<real>, threshold: Option<real>): (k: nat)
    requires |scores| > 0
    ensures k < |scores|
    ensures (exists j :: 0 <= j < |scores| && scores[j] >= EffectiveThreshold(threshold)) ==> IsFirstMax(scores, k)
    ensures (forall j :: 0 <= j < |scores| ==> scores[j] < EffectiveThreshold(threshold)) ==> k == 0
  {
    ArgMaxIsFirstMax(scores);
    var best := ArgMax(scores);
    if scores[best] >= EffectiveThreshold(threshold) then best else 0
  }

  /** A score exactly equal to the threshold is a match. */
  lemma ScoreAtThresholdMatches(scores: seq<real>, threshold: Option<real>, j: nat)
    requires j < |scores| && scores[j] == EffectiveThreshold(threshold)
    requires forall i :: 0 <= i < |scores| ==> scores[i] <= scores[j]
    requires forall i :: 0 <= i < j ==> scores[i] < scores[j]
    ensures SelectedIndex(scores, threshold) == j
  {
    FirstMaxIsUnique(scores, SelectedIndex(scores, threshold), j);
  }

  /** An all-zero similarity vector (for instance an empty query) selects
      the fallback row whenever the threshold is positive. */
  lemma ZeroScoresSelectFallback(scores: seq<real>, threshold: Option<real>)
    requires |scores| > 0
    requires forall i :: 0 <= i < |scores| ==> scores[i] == 0.0
    requires threshold.Some? ==> threshold.value >= 0.0
    ensures SelectedIndex(scores, threshold) == 0
  {
  }

  /** The first column of `names` that `row` lacks, if any. */
  function FirstMissing(row: Row, names: seq<string>): (m: Option<string>)
    ensures m.None? <==> forall i :: 0 <= i < |names| ==> names[i] in row
    ensures m.Some? ==> exists i :: 0 <= i < |names| && names[i] == m.value && m.value !in row
  {
    if |names| == 0 then None
    else if names[0] !in row then Some(names[0])
    else FirstMissing(row, names[1..])
  }

  /** `df.loc[index, header]` for one column, or the generator over a list
      of columns. */
  function Project(row: Row, header: Header): (r: Result<Payload, MatchError>)
    ensures header.Unsupported? ==> r == Err(UnsupportedHeaderType)
    ensures header.Single? ==>
      (header.name in row <==> r.Ok?) &&
      (r.Ok? ==> r.value == Scalar(row[header.name])) &&
      (r.Err? ==> r.error == MissingColumn(header.name))
    ensures header.Multiple? ==>
      ((forall i :: 0 <= i < |header.names| ==> header.names[i] in row) <==> r.Ok?) &&
      (r.Ok? ==> r.value.Fields? && |r.value.values| == |header.names| &&
                 forall i :: 0 <= i < |header.names| ==> r.value.values[i] == row[header.names[i]]) &&
      (r.Err? ==> r.error.MissingColumn? && r.error.column !in row)
  {
    match header
    case Single(name) =>
      if name in row then Ok(Scalar(row[name])) else Err(MissingColumn(name))
    case Multiple(names) =>
      (match FirstMissing(row, names)
       case Some(name) => Err(MissingColumn(name))
       case None => Ok(Fields(seq(|names|, (i: int) requires 0 <= i < |names| => row[names[i]]))))
    case Unsupported => Err(UnsupportedHeaderType)
  }

  /** `get_similar_result`, given the similarity of the query to each row. */
  function GetSimilarResult(scores: seq<real>, rows: seq<Row>, header: Header, threshold: Option<real>): (r: Result<Payload, MatchError>)
    requires |scores| == |rows|
    ensures |rows| == 0 ==> r == Err(EmptyCorpus)
    ensures |rows| > 0 ==> r == Project(rows[SelectedIndex(scores, threshold)], header)
  {
    if |rows| == 0 then Err(EmptyCorpus)
    else Project(rows[SelectedIndex(scores, threshold)], header)
  }

  /** The winning score decides between the best row and the fallback row. */
  lemma {:induction false} MatchUsesBestRowOrFallback(scores: seq<real>, rows: seq<Row>, column: string, threshold: Option<real>)
    requires |scores| == |rows| > 0
    requires forall i :: 0 <= i < |rows| ==> column in rows[i]
    ensures scores[ArgMax(scores)] >= EffectiveThreshold(threshold) ==>
      GetSimilarResult(scores, rows, Single(column), threshold) == Ok(Scalar(rows[ArgMax(scores)][column]))
    ensures scores[ArgMax(scores)] < EffectiveThreshold(threshold) ==>
      GetSimilarResult(scores, rows, Single(column), threshold) == Ok(Scalar(rows[0][column]))
  {
    var k := SelectedIndex(scores, threshold);
    if scores[ArgMax(scores)] >= EffectiveThreshold(threshold) {
      FirstMaxIsUnique(scores, k, ArgMax(scores));
    }
  }
}
