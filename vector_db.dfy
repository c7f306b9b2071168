/** The in-memory vector store and the retrieval engine around it: the list of
    (chunk, embedding) records, adding a chunk, the bootstrap loop that adds every
    line of the corpus, `retrieve`, and the `/ask` pipeline built on it.
    The embedding service, the similarity measure and the chat service are
    parameters: `embed` maps a text to its embedding, `similarity` stands for the
    cosine similarity of two embeddings, `chat` maps the request messages to the
    streamed reply. */
module VectorDb {
  import opened Text
  import opened Corpus
  import opened Ranking
  import opened Prompt

  /** An embedding as the embedding service returns it; its length is never checked. */
  type Embedding = seq<real>

  /** One entry of `VECTOR_DB`. */
  datatype Record = Record(chunk: string, embedding: Embedding)

  /** The default `top_n` of `retrieve`, the value both routes use. */
  const DefaultTopN := 3

  // ----- ingestion -----

  /** The records that adding the lines of `dataset` one by one appends. */
  function Ingested(dataset: seq<string>, embed: string -> Embedding): seq<Record>
    decreases |dataset|
  {
    if dataset == [] then []
    else
      var last := dataset[|dataset| - 1];
      Ingested(dataset[..|dataset| - 1], embed) + [Record(last, embed(last))]
  }

  /** The chunks of the records, in store order. */
  function Chunks(records: seq<Record>): seq<string>
  {
    seq(|records|, i requires 0 <= i < |records| => records[i].chunk)
  }

  /** Ingestion appends one record per line, in dataset order, each paired with
      the embedding of that very line: no line is skipped, merged or reordered. */
  lemma {:induction false} IngestedKeepsEveryLine(dataset: seq<string>, embed: string -> Embedding)
    ensures |Ingested(dataset, embed)| == |dataset|
    ensures forall i :: 0 <= i < |dataset| ==>
              Ingested(dataset, embed)[i] == Record(dataset[i], embed(dataset[i]))
    decreases |dataset|
  {
    if dataset != [] {
      IngestedKeepsEveryLine(dataset[..|dataset| - 1], embed);
    }
  }

  /** The store built from a corpus file holds the file itself: its chunks are
      the lines of the file, in order, and concatenated they give back the file. */
  lemma IngestedCorpus(text: string, embed: string -> Embedding)
    ensures Chunks(Ingested(ReadLines(text), embed)) == ReadLines(text)
    ensures Concat(Chunks(Ingested(ReadLines(text), embed))) == text
  {
    var lines := ReadLines(text);
    IngestedKeepsEveryLine(lines, embed);
    assert Chunks(Ingested(lines, embed)) == lines;
    ReadLinesConcat(text);
  }

  /** Each chunk of the store is one line of the file with its line break (a
      blank line is the chunk "\n"); only the last chunk may lack the '\n',
      when the file does not end with one. */
  lemma IngestedChunksAreLines(text: string, embed: string -> Embedding)
    ensures forall i :: 0 <= i < |Ingested(ReadLines(text), embed)| ==>
              IsLine(Ingested(ReadLines(text), embed)[i].chunk)
    ensures forall i :: 0 <= i < |Ingested(ReadLines(text), embed)| - 1 ==>
              EndsWithNewline(Ingested(ReadLines(text), embed)[i].chunk)
  {
    IngestedKeepsEveryLine(ReadLines(text), embed);
    ReadLinesShape(text);
  }

  // ----- retrieval -----

  /** `similarities` before the sort: every record's chunk with its similarity
      to the query, in store order. */
  function Scored(records: seq<Record>, queryEmbedding: Embedding,
                  similarity: (Embedding, Embedding) -> real): seq<ScoredChunk>
  {
    seq(|records|, i requires 0 <= i < |records| =>
      ScoredChunk(records[i].chunk, similarity(queryEmbedding, records[i].embedding)))
  }

  /** `similarities` after the sort: a permutation of the scored records. */
  function Ranked(records: seq<Record>, queryEmbedding: Embedding,
                  similarity: (Embedding, Embedding) -> real): (ranked: seq<ScoredChunk>)
    ensures |ranked| == |records|
    ensures multiset(ranked) == multiset(Scored(records, queryEmbedding, similarity))
  {
    SortDescPermutes(Scored(records, queryEmbedding, similarity));
    SortDesc(Scored(records, queryEmbedding, similarity))
  }

  /** What `retrieve` returns: the first `topN` of the ranking. */
  function Retrieved(records: seq<Record>, queryEmbedding: Embedding,
                     similarity: (Embedding, Embedding) -> real, topN: int): seq<ScoredChunk>
  {
    Take(Ranked(records, queryEmbedding, similarity), topN)
  }

  /** Before truncation the ranking holds exactly the store's records, each
      chunk paired with its similarity to the query. */
  lemma RankedEntries(records: seq<Record>, queryEmbedding: Embedding,
                      similarity: (Embedding, Embedding) -> real)
    ensures forall e :: e in Ranked(records, queryEmbedding, similarity) <==>
              exists i :: 0 <= i < |records| &&
                e == ScoredChunk(records[i].chunk, similarity(queryEmbedding, records[i].embedding))
  {
    var scored := Scored(records, queryEmbedding, similarity);
    var ranked := Ranked(records, queryEmbedding, similarity);
    forall e
      ensures e in ranked <==>
        exists i :: 0 <= i < |records| &&
          e == ScoredChunk(records[i].chunk, similarity(queryEmbedding, records[i].embedding))
    {
      assert e in ranked <==> e in multiset(ranked);
      assert e in scored <==> e in multiset(scored);
      if e in scored {
        var i :| 0 <= i < |scored| && scored[i] == e;
        assert e == ScoredChunk(records[i].chunk, similarity(queryEmbedding, records[i].embedding));
      }
      if exists i :: 0 <= i < |records| &&
           e == ScoredChunk(records[i].chunk, similarity(queryEmbedding, records[i].embedding)) {
        var i :| 0 <= i < |records| &&
           e == ScoredChunk(records[i].chunk, similarity(queryEmbedding, records[i].embedding));
        assert scored[i] == e;
      }
    }
  }

  /** The result has `min(top_n, |store|)` entries for `top_n >= 0` (Python's
      slice drops the last `-top_n` entries for a negative one); an empty store
      gives an empty result, not an error. */
  lemma RetrievedLength(records: seq<Record>, queryEmbedding: Embedding,
                        similarity: (Embedding, Embedding) -> real, topN: int)
    ensures topN >= 0 ==> |Retrieved(records, queryEmbedding, similarity, topN)| == Min(topN, |records|)
    ensures topN < 0 ==> |Retrieved(records, queryEmbedding, similarity, topN)| == Max(0, |records| + topN)
    ensures records == [] ==> Retrieved(records, queryEmbedding, similarity, topN) == []
  {
  }

  /** The result is a prefix of the ranking, ordered by non-increasing score, and
      entries of equal score appear in store order: those of each score are the
      earliest-stored ones with that score. */
  lemma RetrievedOrder(records: seq<Record>, queryEmbedding: Embedding,
                       similarity: (Embedding, Embedding) -> real, topN: int)
    ensures Retrieved(records, queryEmbedding, similarity, topN) <= Ranked(records, queryEmbedding, similarity)
    ensures SortedDesc(Retrieved(records, queryEmbedding, similarity, topN))
    ensures forall x :: WithScore(Retrieved(records, queryEmbedding, similarity, topN), x)
                        <= WithScore(Scored(records, queryEmbedding, similarity), x)
  {
    var scored := Scored(records, queryEmbedding, similarity);
    var ranked := Ranked(records, queryEmbedding, similarity);
    var r := Retrieved(records, queryEmbedding, similarity, topN);
    SortDescSorted(scored);
    SortDescStable(scored);
    assert ranked == r + ranked[|r|..];
    forall x ensures WithScore(r, x) <= WithScore(scored, x) {
      WithScoreAppend(r, ranked[|r|..], x);
    }
  }

  /** Top-N optimality: every returned entry scores at least as much as every
      stored entry that was not returned. */
  lemma RetrievedIsBest(records: seq<Record>, queryEmbedding: Embedding,
                        similarity: (Embedding, Embedding) -> real, topN: int)
    ensures multiset(Retrieved(records, queryEmbedding, similarity, topN))
            <= multiset(Scored(records, queryEmbedding, similarity))
    ensures forall e, i :: e in multiset(Scored(records, queryEmbedding, similarity))
                             - multiset(Retrieved(records, queryEmbedding, similarity, topN))
                           && 0 <= i < |Retrieved(records, queryEmbedding, similarity, topN)|
                           ==> Retrieved(records, queryEmbedding, similarity, topN)[i].score >= e.score
  {
    var ranked := Ranked(records, queryEmbedding, similarity);
    var r := Retrieved(records, queryEmbedding, similarity, topN);
    SortDescSorted(Scored(records, queryEmbedding, similarity));
    HeadOfSortedIsBest(ranked, |r|);
    assert ranked[..|r|] == r;
  }

  /** A record that scores strictly higher than every other is returned first. */
  lemma StrictBestRanksFirst(records: seq<Record>, queryEmbedding: Embedding,
                             similarity: (Embedding, Embedding) -> real, topN: int, k: nat)
    requires topN >= 1 && k < |records|
    requires forall j :: 0 <= j < |records| && j != k ==>
               similarity(queryEmbedding, records[j].embedding)
               < similarity(queryEmbedding, records[k].embedding)
    ensures |Retrieved(records, queryEmbedding, similarity, topN)| >= 1
    ensures Retrieved(records, queryEmbedding, similarity, topN)[0]
            == ScoredChunk(records[k].chunk, similarity(queryEmbedding, records[k].embedding))
  {
    var scored := Scored(records, queryEmbedding, similarity);
    var ranked := Ranked(records, queryEmbedding, similarity);
    SortDescSorted(scored);
    RankedEntries(records, queryEmbedding, similarity);
    var best := ScoredChunk(records[k].chunk, similarity(queryEmbedding, records[k].embedding));
    assert best in ranked;
    var p :| 0 <= p < |ranked| && ranked[p] == best;
    assert ranked[0].score >= best.score;
    assert ranked[0] in ranked;
    var j :| 0 <= j < |records| &&
      ranked[0] == ScoredChunk(records[j].chunk, similarity(queryEmbedding, records[j].embedding));
  }

  // ----- the store -----

  /** `VECTOR_DB` with the operations on it. */
  class VectorStore {
    var records: seq<Record>

    /** `VECTOR_DB = []` */
    constructor ()
      ensures records == []
    {
      records := [];
    }

    /** `add_chunk_to_database`: appends the chunk with its embedding and changes
        nothing else. */
    method Add(chunk: string, embed: string -> Embedding)
      modifies this
      ensures records == old(records) + [Record(chunk, embed(chunk))]
    {
      var embedding := embed(chunk);
      records := records + [Record(chunk, embedding)];
    }

    /** `retrieve(query, top_n)`: scores every record against the query embedding,
        sorts the scores stably by non-increasing score and keeps the first
        `topN`; the store is only read. */
    method Retrieve(query: string, embed: string -> Embedding,
                    similarity: (Embedding, Embedding) -> real, topN: int)
      returns (result: seq<ScoredChunk>)
      ensures result == Retrieved(records, embed(query), similarity, topN)
    {
      var queryEmbedding := embed(query);
      var similarities := new ScoredChunk[|records|];
      for i := 0 to |records|
        invariant forall k :: 0 <= k < i ==>
          similarities[k] == ScoredChunk(records[k].chunk, similarity(queryEmbedding, records[k].embedding))
      {
        similarities[i] := ScoredChunk(records[i].chunk, similarity(queryEmbedding, records[i].embedding));
      }
      assert similarities[..] == Scored(records, queryEmbedding, similarity);
      SortByScoreDescending(similarities);
      result := Take(similarities[..], topN);
    }

    /** The `/ask` route: retrieves with the default `top_n`, sends the
        instruction prompt and the query to the chat model, and replies with the
        joined answer and the retrieved chunks in rank order. */
    method Ask(query: string, embed: string -> Embedding,
               similarity: (Embedding, Embedding) -> real,
               chat: seq<Message> -> seq<StreamChunk>)
      returns (reply: AskReply)
      ensures var retrieved := Retrieved(records, embed(query), similarity, DefaultTopN);
              reply.answer == Answer(chat(ChatMessages(InstructionPrompt(retrieved), query)))
      ensures |reply.context| == Min(DefaultTopN, |records|)
      ensures forall i :: 0 <= i < |reply.context| ==>
                reply.context[i] == Ranked(records, embed(query), similarity)[i].chunk
    {
      var retrieved := Retrieve(query, embed, similarity, DefaultTopN);
      var instruction := InstructionPrompt(retrieved);
      var stream := chat(ChatMessages(instruction, query));
      var answer := Answer(stream);
      RetrievedLength(records, embed(query), similarity, DefaultTopN);
      RetrievedOrder(records, embed(query), similarity, DefaultTopN);
      reply := AskReply(answer, ContextList(retrieved));
    }
  }

  /** The bootstrap loop: adds every line of `dataset` to the store, in order. */
  method Ingest(db: VectorStore, dataset: seq<string>, embed: string -> Embedding)
    modifies db
    ensures db.records == old(db.records) + Ingested(dataset, embed)
  {
    for i := 0 to |dataset|
      invariant db.records == old(db.records) + Ingested(dataset[..i], embed)
    {
      db.Add(dataset[i], embed);
      assert dataset[..i + 1][..i] == dataset[..i];
    }
    assert dataset[..|dataset|] == dataset;
  }

  /** Start-up: an empty store filled with the lines of the corpus file. */
  method Bootstrap(text: string, embed: string -> Embedding) returns (db: VectorStore)
    ensures fresh(db)
    ensures db.records == Ingested(ReadLines(text), embed)
  {
    var dataset := ReadLines(text);
    db := new VectorStore();
    Ingest(db, dataset, embed);
  }
}
