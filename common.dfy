/** Shared value types: optional values, results with an error side,
    dialogue traces, and console input as the natural-language collaborators
    (tokenizer, similarity scorer), which are not modelled themselves,
    present it. */
module Common {

  datatype Option<T> = None | Some(value: T)

  datatype Result<T, E> = Ok(value: T) | Err(error: E)

  /** How a dialogue that reads console lines came to an end: it finished
      normally, it needed another line than the input supplied, or an
      exception escaped it. */
  datatype Ending = Finished | OutOfInput | Raised

  /** The trace of a dialogue: how it ended, how many input lines it
      consumed and the lines it printed. */
  datatype Transcript<L> = Transcript(ending: Ending, used: nat, out: seq<L>)

  /** `block` printed `n` times over. */
  function Repeat<T>(block: seq<T>, n: nat): (r: seq<T>)
    ensures |r| == n * |block|
  {
    if n == 0 then [] else block + Repeat(block, n - 1)
  }

  /** One more repetition is one more block at the end. */
  lemma {:induction false} RepeatAppend<T>(block: seq<T>, n: nat)
    ensures Repeat(block, n + 1) == Repeat(block, n) + block
  {
    if n > 0 {
      RepeatAppend(block, n - 1);
    }
  }

  /** The last element of a concatenation with a non-empty right part
      comes from that part. */
  lemma DropLastOfConcat<T>(a: seq<T>, b: seq<T>)
    requires |b| > 0
    ensures (a + b)[..|a + b| - 1] == a + b[..|b| - 1]
    ensures (a + b)[|a + b| - 1] == b[|b| - 1]
  {
  }

  lemma AppendAssoc<T>(x: seq<T>, y: seq<T>, z: seq<T>)
    ensures (x + y) + z == x + (y + z)
  {
  }

  /** A row of a CSV corpus: column name to cell text. */
  type Row = map<string, string>

  /** A line typed at the console, with what the natural-language
      collaborators make of it: its tokens, and for each corpus the chatbot
      matches against, the cosine similarity, in the TF-IDF space fitted on
      that corpus, between the tokens and each of its rows — the name column
      of the game catalogue, the keyword column of the search table, the
      intent table and the question column of the FAQ table. */
  datatype Utterance = Utterance(
    text: string,
    tokens: seq<string>,
    gameScores: seq<real>,
    keywordScores: seq<real>,
    intentScores: seq<real>,
    answerScores: seq<real>)
}
