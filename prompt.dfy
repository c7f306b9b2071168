/** What is sent to and taken from the chat model: the instruction prompt built
    from the retrieved chunks, the two chat messages, the answer joined from the
    streamed fragments, and the `context` list of the `/ask` reply. */
module Prompt {
  import opened Text
  import opened Ranking

  const HeaderLine1 := "You are a helpful chatbot."
  /** The second header line, kept in three literals so that the verifier can
      check each piece for line breaks; their concatenation is the source's
      single literal. */
  const HeaderLine2 := Instruction1 + Instruction2 + Instruction3
  const Instruction1 := "Use only the following pieces of context "
  const Instruction2 := "to answer the question. "
  const Instruction3 := "Don't make up any new information:"

  /** One role/content pair of the chat request or of a streamed fragment. */
  datatype Message = Message(role: string, content: string)

  /** One fragment of the streamed reply: `{"message": {"content": ...}}`. */
  datatype StreamChunk = StreamChunk(message: Message)

  /** The JSON body of the `/ask` reply. */
  datatype AskReply = AskReply(answer: string, context: seq<string>)

  /** `f' - {chunk}'` for each retrieved chunk, in rank order. */
  function Bullets(retrieved: seq<ScoredChunk>): seq<string>
  {
    seq(|retrieved|, i requires 0 <= i < |retrieved| => " - " + retrieved[i].chunk)
  }

  /** `chr(10).join(...)` over the bullets. */
  function ContextBlock(retrieved: seq<ScoredChunk>): string
  {
    Join("\n", Bullets(retrieved))
  }

  /** The instruction f-string: two header lines, the context block, a final line break. */
  function InstructionPrompt(retrieved: seq<ScoredChunk>): string
  {
    HeaderLine1 + "\n" + HeaderLine2 + "\n" + ContextBlock(retrieved) + "\n"
  }

  /** The request to the chat model: the instruction as system message, then the query. */
  function ChatMessages(instruction: string, query: string): seq<Message>
  {
    [Message("system", instruction), Message("user", query)]
  }

  /** The contents of the streamed fragments, in arrival order. */
  function Contents(stream: seq<StreamChunk>): seq<string>
  {
    seq(|stream|, i requires 0 <= i < |stream| => stream[i].message.content)
  }

  /** `"".join(chunk["message"]["content"] for chunk in stream)`. */
  function Answer(stream: seq<StreamChunk>): string
  {
    Join("", Contents(stream))
  }

  /** `[c for c, _ in retrieved_knowledge]`. */
  function ContextList(retrieved: seq<ScoredChunk>): seq<string>
  {
    seq(|retrieved|, i requires 0 <= i < |retrieved| => retrieved[i].chunk)
  }

  /** The bullets between the header and the final line break: an empty line
      when nothing was retrieved. */
  function BulletLines(retrieved: seq<ScoredChunk>): seq<string>
  {
    if retrieved == [] then [""] else Bullets(retrieved)
  }

  lemma HeaderHasNoLineBreak()
    ensures '\n' !in HeaderLine1 && '\n' !in HeaderLine2
  {
    Instruction1HasNoLineBreak();
    Instruction2HasNoLineBreak();
    Instruction3HasNoLineBreak();
  }

  lemma Instruction1HasNoLineBreak() ensures '\n' !in Instruction1 {}
  lemma Instruction2HasNoLineBreak() ensures '\n' !in Instruction2 {}
  lemma Instruction3HasNoLineBreak() ensures '\n' !in Instruction3 {}

  /** The prompt is the line-break join of its lines. */
  lemma PromptIsJoin(retrieved: seq<ScoredChunk>)
    ensures InstructionPrompt(retrieved) == Join("\n", [HeaderLine1, HeaderLine2] + BulletLines(retrieved) + [""])
  {
    var middle := BulletLines(retrieved);
    assert Join("\n", middle) == ContextBlock(retrieved);
    JoinAppend("\n", [HeaderLine1, HeaderLine2], middle);
    JoinAppend("\n", [HeaderLine1, HeaderLine2] + middle, [""]);
    assert Join("\n", [HeaderLine1, HeaderLine2]) == HeaderLine1 + "\n" + HeaderLine2;
  }

  /** Line by line, the prompt is the two header lines, one bullet per retrieved
      chunk in rank order, and an empty last piece after the final line break
      (an empty line stands in for the bullets when nothing was retrieved),
      provided no chunk contains a line break. */
  lemma PromptLines(retrieved: seq<ScoredChunk>)
    requires forall i :: 0 <= i < |retrieved| ==> '\n' !in retrieved[i].chunk
    ensures retrieved != [] ==>
      Split(InstructionPrompt(retrieved), '\n') == [HeaderLine1, HeaderLine2] + Bullets(retrieved) + [""]
    ensures retrieved == [] ==>
      Split(InstructionPrompt(retrieved), '\n') == [HeaderLine1, HeaderLine2, "", ""]
  {
    var lines := [HeaderLine1, HeaderLine2] + BulletLines(retrieved) + [""];
    HeaderHasNoLineBreak();
    var bullets := Bullets(retrieved);
    forall i | 0 <= i < |bullets| ensures '\n' !in bullets[i] {
      assert bullets[i] == " - " + retrieved[i].chunk;
    }
    forall i | 0 <= i < |lines| ensures '\n' !in lines[i] {
      if 2 <= i < |lines| - 1 && retrieved != [] {
        assert lines[i] == bullets[i - 2];
      }
    }
    PromptIsJoin(retrieved);
    SplitJoin(lines, '\n');
  }

  /** A chunk without its final character: the text of a line read by
      `readlines()` without its line break. */
  function LineText(chunk: string): string
  {
    if chunk == [] then [] else chunk[..|chunk| - 1]
  }

  /** `f' - {line}'` for each retrieved chunk with its final line break dropped. */
  function LineBullets(retrieved: seq<ScoredChunk>): seq<string>
  {
    seq(|retrieved|, i requires 0 <= i < |retrieved| => " - " + LineText(retrieved[i].chunk))
  }

  lemma BulletsOfTail(retrieved: seq<ScoredChunk>)
    requires retrieved != []
    ensures Bullets(retrieved[1..]) == Bullets(retrieved)[1..]
    ensures LineBullets(retrieved[1..]) == LineBullets(retrieved)[1..]
  {
  }

  /** Chunks read with `readlines()` keep their '\n', so the context block is
      the bullets of the line texts separated by an empty line, followed by
      the last chunk's own line break. */
  lemma {:induction false} ContextBlockOfLines(retrieved: seq<ScoredChunk>)
    requires retrieved != []
    requires forall i :: 0 <= i < |retrieved| ==> retrieved[i].chunk != [] && retrieved[i].chunk[|retrieved[i].chunk| - 1] == '\n'
    ensures ContextBlock(retrieved) == Join("\n\n", LineBullets(retrieved)) + "\n"
    decreases |retrieved|
  {
    var texts, bullets := LineBullets(retrieved), Bullets(retrieved);
    var first := retrieved[0].chunk;
    assert first == LineText(first) + "\n";
    assert bullets[0] == texts[0] + "\n";
    if |retrieved| > 1 {
      var tail := retrieved[1..];
      BulletsOfTail(retrieved);
      calc {
        ContextBlock(retrieved);
        bullets[0] + "\n" + ContextBlock(tail);
        { ContextBlockOfLines(tail); }
        texts[0] + "\n" + "\n" + (Join("\n\n", texts[1..]) + "\n");
        (texts[0] + "\n\n" + Join("\n\n", texts[1..])) + "\n";
        Join("\n\n", texts) + "\n";
      }
    }
  }

  /** The answer is the plain concatenation of the fragment contents, in order. */
  lemma AnswerIsConcat(stream: seq<StreamChunk>)
    ensures Answer(stream) == Concat(Contents(stream))
  {
    JoinEmptyIsConcat(Contents(stream));
  }

  /** Fragments that arrive later only extend the answer: the answer of a stream
      is the answer of its first part followed by that of the rest. */
  lemma AnswerAppend(first: seq<StreamChunk>, rest: seq<StreamChunk>)
    ensures Answer(first + rest) == Answer(first) + Answer(rest)
  {
    assert Contents(first + rest) == Contents(first) + Contents(rest);
    AnswerIsConcat(first + rest);
    AnswerIsConcat(first);
    AnswerIsConcat(rest);
    ConcatAppend(Contents(first), Contents(rest));
  }
}
