/** Name capture (`identity_management.py`, `capture_user_name`). Tokenising,
    part-of-speech tagging and named-entity chunking are NLTK's; the model
    starts from the chunk list that `ne_chunk` returns. */
module Identity {
  import opened Common
  import opened Constants
  import opened Preference

  /** One top-level element of the `ne_chunk` tree: a labelled entity
      subtree with its (word, tag) leaves, or a plain (word, tag) token. */
  datatype Chunk = Entity(entityType: string, leaves: seq<(string, string)>) | Tagged(word: string, tag: string)

  const NameLabels: seq<string> := ["PERSON", "GPE", "ORGANIZATION"]
  const ProperNounTag: string := "NNP"

  function Words(leaves: seq<(string, string)>): (r: seq<string>)
    ensures |r| == |leaves|
    ensures forall i :: 0 <= i < |leaves| ==> r[i] == leaves[i].0
  {
    seq(|leaves|, (i: int) requires 0 <= i < |leaves| => leaves[i].0)
  }

  /** What one chunk contributes: every leaf word of a PERSON, GPE or
      ORGANIZATION entity, the word of a token tagged NNP, nothing else. */
  function ChunkNames(c: Chunk): seq<string>
  {
    match c
    case Entity(entityType, leaves) => if entityType in NameLabels then Words(leaves) else []
    case Tagged(word, tag) => if tag == ProperNounTag then [word] else []
  }

  /** The names collected over the chunks, in chunk order: exactly the
      names some chunk contributes. */
  function CollectNames(chunks: seq<Chunk>): (r: seq<string>)
    ensures forall n :: n in r ==> exists i :: 0 <= i < |chunks| && n in ChunkNames(chunks[i])
    ensures forall i, n :: 0 <= i < |chunks| && n in ChunkNames(chunks[i]) ==> n in r
    decreases |chunks|
  {
    if |chunks| == 0 then [] else CollectNames(chunks[..|chunks| - 1]) + ChunkNames(chunks[|chunks| - 1])
  }

  lemma {:induction false} CollectNamesConcat(a: seq<Chunk>, b: seq<Chunk>)
    ensures CollectNames(a + b) == CollectNames(a) + CollectNames(b)
    decreases |b|
  {
    if |b| == 0 {
      assert a + b == a;
    } else {
      var front, last := b[..|b| - 1], b[|b| - 1];
      DropLastOfConcat(a, b);
      CollectNamesConcat(a, front);
      AppendAssoc(CollectNames(a), CollectNames(front), ChunkNames(last));
    }
  }

  /** A chunk that is neither a name entity nor an NNP token contributes
      nothing, wherever it stands. */
  lemma NonNameChunkIsIgnored(a: seq<Chunk>, c: Chunk, b: seq<Chunk>)
    requires c.Entity? ==> c.entityType !in NameLabels
    requires c.Tagged? ==> c.tag != ProperNounTag
    ensures CollectNames(a + [c] + b) == CollectNames(a + b)
  {
    var ac := a + [c];
    assert ac[..|ac| - 1] == a && ac[|ac| - 1] == c;
    assert CollectNames(ac) == CollectNames(a) + [];
    assert CollectNames(a) + [] == CollectNames(a);
    CollectNamesConcat(ac, b);
    CollectNamesConcat(a, b);
  }

  /** The returned name: the last one collected, if any. */
  function LastName(names: seq<string>): (r: Option<string>)
    ensures r.None? <==> names == []
    ensures r.Some? ==> r.value == names[|names| - 1]
  {
    if names == [] then None else Some(names[|names| - 1])
  }

  /** The loop as written: for an entity of another label the test
      `chunk[1] == "NNP"` indexes the subtree, which raises `IndexError`
      (`None` here) when the subtree has fewer than two leaves; with two or
      more it compares a (word, tag) pair with a string, which is false. */
  function ChunkNamesAsWritten(c: Chunk): Option<seq<string>>
  {
    match c
    case Entity(entityType, leaves) =>
      if entityType in NameLabels then Some(Words(leaves))
      else if |leaves| >= 2 then Some([])
      else None
    case Tagged(word, tag) => if tag == ProperNounTag then Some([word]) else Some([])
  }

  /** The loop as written raises exactly when some chunk is a one-leaf
      entity of another label; otherwise it collects the intended names. */
  function CollectNamesAsWritten(chunks: seq<Chunk>): (r: Option<seq<string>>)
    ensures r.None? <==> exists i :: 0 <= i < |chunks| && ChunkNamesAsWritten(chunks[i]).None?
    ensures r.Some? ==> r.value == CollectNames(chunks)
    decreases |chunks|
  {
    if |chunks| == 0 then Some([])
    else
      match (CollectNamesAsWritten(chunks[..|chunks| - 1]), ChunkNamesAsWritten(chunks[|chunks| - 1]))
      case (Some(front), Some(last)) => Some(front + last)
      case _ => None
  }

  /** A one-word LOCATION entity, such as "Paris", makes the code as written
      raise, where it evidently should contribute nothing. */
  lemma SingleLeafLocationRaises()
    ensures CollectNamesAsWritten([Entity("LOCATION", [("Paris", "NNP")])]) == None
    ensures CollectNames([Entity("LOCATION", [("Paris", "NNP")])]) == []
  {
    assert [Entity("LOCATION", [("Paris", "NNP")])][..0] == [];
  }

  /** `capture_user_name`: collects the names, returns the last one, and
      stores it as the username when there is one. */
  method CaptureUserName(chunks: seq<Chunk>, store: PreferenceStore) returns (name: Option<string>)
    modifies store
    ensures name == LastName(CollectNames(chunks))
    ensures name.Some? ==> store.prefs == old(store.prefs)[UsernameKey := name.value]
    ensures name.None? ==> store.prefs == old(store.prefs)
  {
    var extracted: seq<string> := [];
    var i := 0;
    while i < |chunks|
      invariant 0 <= i <= |chunks|
      invariant extracted == CollectNames(chunks[..i])
    {
      var chunk := chunks[i];
      match chunk {
        case Entity(entityType, leaves) =>
          if entityType in NameLabels {
            extracted := extracted + Words(leaves);
          }
        case Tagged(word, tag) =>
          if tag == ProperNounTag {
            extracted := extracted + [word];
          }
      }
      assert chunks[..i + 1][..i] == chunks[..i];
      i := i + 1;
    }
    assert chunks[..i] == chunks;
    if extracted != [] {
      name := Some(extracted[|extracted| - 1]);
      store.Update(UsernameKey, name.value);
    } else {
      name := None;
    }
  }
}
