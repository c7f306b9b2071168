# Cat-facts RAG chatbot: retrieval core in Dafny

This project models the retrieval engine of a small retrieval-augmented chatbot
(`app.py`). The Python code works like this:

- At start-up it reads the corpus file with `readlines()`.
- It embeds every line and appends `(chunk, embedding)` to the in-memory list
  `VECTOR_DB`.
- For each question, `retrieve` scores every stored chunk against the query
  embedding and sorts the scores in descending order with Python's stable
  `list.sort`. It returns the first `top_n` entries (3 by default).
- The retrieved chunks are formatted into an instruction prompt as lines of the
  form ` - chunk`. The chat model's streamed answer is joined into one string.
- The `/ask` route replies with that answer and the retrieved chunks.

The model has five modules:

- `Text` (`text.dfy`): `sep.join(parts)` as `Join`. Plain concatenation
  (`Concat`) and `str.split` (`Split`) are reference definitions to relate it to.
- `Corpus` (`corpus.dfy`): `readlines()` on the decoded file contents.
- `Ranking` (`ranking.dfy`): the scored entries and the sort.
  - `SortDesc` is a specification function: the list that a stable sort by
    non-increasing score leaves behind.
  - `SortByScoreDescending` performs that sort in place on an array.
  - `SortDescUnique` proves that a list ordered by non-increasing score that
    keeps equal-score entries in input order is exactly `SortDesc`. So the
    model agrees with Python's sort (Timsort) whatever algorithm it uses.
  - `Take` is Python's `s[:n]`, negative `n` included.
- `Prompt` (`prompt.dfy`): the instruction f-string, the chat messages, the
  answer join and the `context` list.
- `VectorDb` (`vector_db.dfy`): the records and the `VectorStore` class.
  - The class's field `records` is `VECTOR_DB`. It has `Add`, `Retrieve` and
    the `/ask` pipeline `Ask`.
  - `Ingest` is the start-up loop and `Bootstrap` is the whole start-up.
  - The specification functions `Ingested`, `Scored`, `Ranked` and `Retrieved`
    have lemmas about them.

Things outside this code become parameters:

- The embedding service is `embed: string -> Embedding`.
- `cosine_similarity` is `similarity: (Embedding, Embedding) -> real`.
- The streaming chat service is `chat: seq<Message> -> seq<StreamChunk>`.

`Retrieve` and `Ask` have no `modifies` clause, so Dafny checks that they only
read the store.

The code has none of the following guards or filters, and the model follows it:

- `add_chunk_to_database` does not check that embeddings have the same length
  (what retrieval then does is under "## Left out").
- Blank lines are not filtered out: a blank line of the corpus becomes the
  chunk `"\n"`.
- Line breaks are not stripped: every chunk keeps its own.
- An empty store is not rejected: retrieval then gives an empty result.
- Duplicate records are not rejected.

## Model

| member | source | states |
|---|---|---|
| Corpus.ReadLines | app.py:7 | definition of `file.readlines()` on the decoded text: cut off the first line, `'\n'` included, and repeat; its properties are stated by `FirstLineLength`, `ReadLinesConcat`, `ReadLinesShape` and `BlankLineKept` |
| Corpus.FirstLineLength | app.py:7 | the first line of non-empty text ends just after its first line break, or at the end of the text; no line break comes before that |
| Corpus.ReadLinesConcat | app.py:7 | concatenating the lines `readlines()` returns gives back the whole file |
| Corpus.ReadLinesShape | app.py:7 | each line is non-empty and has a line break only at its end; every line but the last ends with `'\n'` |
| Corpus.BlankLineKept | app.py:7 | for every text, a blank line (a `'\n'` at the start or right after another `'\n'`) is returned as its own line `"\n"`, at the index equal to the number of line breaks before it; it is not dropped |
| VectorDb.VectorStore.constructor | app.py:14 | the store starts empty |
| VectorDb.VectorStore.Add | app.py:16-18 | appends exactly one record, `(chunk, embed(chunk))`, at the end; earlier records are unchanged |
| VectorDb.Ingest | app.py:20-21 | the store afterwards is the old store followed by `Ingested(dataset)` |
| VectorDb.IngestedKeepsEveryLine | app.py:20-21 | ingestion appends one record per line, in dataset order, each with that line's embedding; no line is skipped or merged |
| VectorDb.Bootstrap | app.py:5-21 | start-up yields a fresh store holding exactly the ingested lines of the corpus file |
| VectorDb.IngestedCorpus | app.py:6-21 | the store's chunks are exactly the lines `readlines()` returns, in order; concatenated they are the corpus file |
| VectorDb.IngestedChunksAreLines | app.py:6-21 | every chunk of the store is one line with `'\n'` only at its end, and every chunk but the last ends in `'\n'` |
| VectorDb.VectorStore.Retrieve | app.py:30-37 | the result is the first `topN` entries of the stable descending sort of every record's (chunk, similarity) pair; the store is only read |
| VectorDb.Ranked | app.py:32-36 | the sorted `similarities` has one entry per record and is a permutation of the scored records |
| VectorDb.RankedEntries | app.py:33-35 | an entry is in the ranking iff it is some record's chunk paired with that record's similarity to the query |
| VectorDb.RetrievedLength | app.py:37 | the result has `min(top_n, store size)` entries for `top_n >= 0` and `max(0, size + top_n)` for negative `top_n`; an empty store gives `[]` |
| VectorDb.RetrievedOrder | app.py:36-37 | the result is a prefix of the ranking and is ordered by non-increasing score; for every score, its entries are the earliest-stored entries with that score, in store order |
| VectorDb.RetrievedIsBest | app.py:36-37 | the result is a sub-multiset of the scored records; every returned entry scores at least as much as every entry left out |
| VectorDb.StrictBestRanksFirst | app.py:36-37 | a record that scores strictly above all others is returned first, for any `top_n >= 1` |
| VectorDb.VectorStore.Ask | app.py:171-189 | the answer is the joined stream of the chat model's reply to the prompt over the top 3 entries; `context` has `min(3, size)` entries, the chunks of the ranking in rank order |
| Ranking.SortByScoreDescending | app.py:36 | the array afterwards is `SortDesc` of its old contents |
| Ranking.SortDescSorted | app.py:36 | the sorted list is ordered by non-increasing score |
| Ranking.SortDescPermutes | app.py:36 | the sorted list is a permutation of its input |
| Ranking.SortDescStable | app.py:36 | the sort is stable under `reverse=True`: for every score, the entries with that score appear in input order |
| Ranking.SortDescUnique | app.py:36 | any list that is ordered by non-increasing score and keeps ties in input order equals `SortDesc` of the input |
| Prompt.InstructionPrompt | app.py:52-55 | definition of the instruction f-string (also app.py:176-179); its properties are stated by `PromptIsJoin`, `PromptLines` and `ContextBlockOfLines` |
| Prompt.ChatMessages | app.py:58-61 | definition of the `messages` list (also app.py:182-185): the instruction as the system message, then the query as the user message; `VectorStore.Ask` states that the chat model receives exactly this |
| Prompt.Answer | app.py:64 | definition of the `"".join` over the streamed contents (also app.py:188); its properties are stated by `AnswerIsConcat` and `AnswerAppend` |
| Prompt.ContextList | app.py:189 | definition of `[c for c, _ in retrieved_knowledge]`; `VectorStore.Ask` states the resulting `context` entry by entry |
| Prompt.PromptIsJoin | app.py:52-55 | the instruction prompt is the line-break join of the two header lines, the bullets (an empty line if none) and a final empty piece |
| Prompt.PromptLines | app.py:52-55 | split at line breaks, the prompt is the two header lines, then one ` - chunk` line per retrieved chunk in rank order, then an empty last piece (chunks without line breaks) |
| Prompt.ContextBlockOfLines | app.py:54 | for any non-empty list of chunks that all end in `'\n'`, as `readlines()` gives every line but possibly the file's last, the context block is the ` - line` bullets joined with an empty line between consecutive bullets, then one final line break |
| Prompt.AnswerIsConcat | app.py:64 | the answer is the in-order concatenation of the fragment contents |
| Prompt.AnswerAppend | app.py:64 | the answer of a stream is the answer of its first part followed by the answer of the rest, so later fragments only extend it |
| Text.JoinEmptyIsConcat | app.py:64 | `"".join(parts)` is the plain concatenation of the parts |
| Text.JoinAppend | app.py:54 | joining two non-empty lists is joining each and putting the separator between |
| Text.SplitJoin | app.py:54 | splitting a `'\n'`-join of pieces without line breaks at `'\n'` gives back the pieces |
| Text.JoinSplit | app.py:54 | joining the pieces of any split with the separator gives back the original string |

## Left out

- `cosine_similarity` (app.py:26-28) is the `similarity` parameter. Floating-point
  rounding is not modelled. Neither is the NaN that a zero-norm vector produces,
  or what Python's sort does with NaN keys. Scores are `real`, so they are
  totally ordered.
- `similarity` is taken to be defined on every pair of embeddings. In the code,
  `np.dot` (app.py:28) raises `ValueError` when the query embedding and a stored
  embedding differ in length, so `retrieve` fails at app.py:34. The model does not
  capture this failure: `Retrieved` always returns a ranking.
- The `ollama.embed` and `ollama.chat` calls (app.py:17, 31, 56-63, 180-187) are
  network services and become the `embed` and `chat` parameters. Their failures,
  the model names and the `['embeddings'][0]` lookup are not modelled.
- Opening and decoding the corpus file (app.py:6) is I/O. `ReadLines` starts from
  the decoded text, so universal-newline translation (`"\r\n"` to `"\n"`) is not
  modelled.
- The progress `print`s (app.py:8, 22) are output only. Line 8 prints the length
  of the unused list `df`, which is always 0.
- Flask plumbing is not modelled: routing, `request.form`/`request.json` parsing,
  `jsonify`, the HTML template and `chat_history` (app.py:40-48, 66-167,
  171-174, 191-192). The query is a `string`, so a missing `"query"` field
  (`None`) is not modelled.
- The `/` route's answer (app.py:51-64) is computed exactly as `Ask` computes it
  (app.py:175-188). Only its appending to `chat_history` and the page rendering
  are not modelled.
- `similarities` is a fixed-size array filled by index rather than a Python list
  grown by `append`. The contents after the loop are the same.
- Timsort is replaced by an insertion sort. `SortDescUnique` shows that both give
  the same list.
- Prompt.PromptLines: the line-by-line reading of the prompt is stated only for
  chunks without line breaks. Every line `readlines()` returns, except possibly
  the file's last, ends in `'\n'`, and `ContextBlockOfLines` states the
  resulting layout when every retrieved chunk does.
- Prompt.ContextBlockOfLines: a retrieval that contains the file's last line,
  when the file does not end with a line break, has one chunk without `'\n'`
  among chunks with one. No lemma gives its layout line by line; only
  `PromptIsJoin` describes that prompt.
