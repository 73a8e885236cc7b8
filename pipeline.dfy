/**
 * `answer_question` of backend/rag_pipeline.py: compose the system prompt,
 * rewrite the question, retrieve chunks, turn them into source records,
 * score confidence, ask for a grounded answer and follow-ups, and assemble
 * the result. The hosted model, the index and Python's rendering of a
 * score are parameters (`Services`).
 */
module Pipeline {
  import opened Wrappers
  import opened Text
  import opened Filtering
  import opened Prompts
  import opened Confidence
  import opened Followups

  /** A retrieved node with its similarity score; `text` and `metadata` may be missing. */
  datatype Node = Node(text: Option<string>, score: Option<real>, metadata: Option<map<string, string>>)

  /** A `{text, score, doc_id}` source record. */
  datatype Chunk = Chunk(text: string, score: Option<real>, docId: string)

  /** The dictionary `answer_question` returns: five fields always set, `debug_chunks` a list or `None`. */
  datatype AnswerResult = AnswerResult(
    answer: string,
    rewrittenQuery: string,
    sources: seq<Chunk>,
    confidence: Tier,
    followups: seq<string>,
    debugChunks: Option<seq<Chunk>>)

  /**
   * The collaborators the pipeline calls: one completion of the hosted model
   * for a one-message prompt, the index's query (None when the response has no
   * `source_nodes`), and the text Python writes for a score in `score={...}`.
   */
  datatype Services = Services(
    complete: string -> string,
    query: string -> Option<seq<Node>>,
    showScore: Option<real> -> string)

  const UnknownDocument: string := "Unknown document"

  /** `meta.get(key)` taken as a truth value: the value when present and non-empty. */
  predicate HasValue(meta: map<string, string>, key: string)
  {
    key in meta && meta[key] != ""
  }

  /** `meta.get("file_name") or meta.get("source") or "Unknown document"`. */
  function DocId(meta: map<string, string>): (id: string)
    ensures id != ""
    ensures id == UnknownDocument || (HasValue(meta, "file_name") && id == meta["file_name"])
                                  || (HasValue(meta, "source") && id == meta["source"])
  {
    if HasValue(meta, "file_name") then meta["file_name"]
    else if HasValue(meta, "source") then meta["source"]
    else UnknownDocument
  }

  /** The fallback order of the document id, with a missing metadata map read as `{}`. */
  lemma DocIdFallback(metadata: Option<map<string, string>>)
    ensures var meta := metadata.GetOr(map[]);
            && (HasValue(meta, "file_name") ==> DocId(meta) == meta["file_name"])
            && (!HasValue(meta, "file_name") && HasValue(meta, "source") ==> DocId(meta) == meta["source"])
            && (!HasValue(meta, "file_name") && !HasValue(meta, "source") ==> DocId(meta) == UnknownDocument)
    ensures metadata.None? ==> DocId(metadata.GetOr(map[])) == UnknownDocument
  {
  }

  /** The record built for one node (lines 100-111 of the loop). */
  function ToChunk(n: Node): (c: Chunk)
    ensures c.score == n.score
    ensures c.text == n.text.GetOr("")
    ensures c.docId == DocId(n.metadata.GetOr(map[]))
  {
    Chunk(n.text.GetOr(""), n.score, DocId(n.metadata.GetOr(map[])))
  }

  /** The records built for `nodes`, one per node, in order. */
  function Records(nodes: seq<Node>): (chunks: seq<Chunk>)
    ensures |chunks| == |nodes|
    ensures forall k :: 0 <= k < |nodes| ==> chunks[k] == ToChunk(nodes[k])
    decreases |nodes|
  {
    if nodes == [] then [] else Records(nodes[..|nodes| - 1]) + [ToChunk(nodes[|nodes| - 1])]
  }

  /** Growing a prefix of `nodes` by one node adds that node's record: the loop step. */
  lemma RecordsPrefix(nodes: seq<Node>, i: nat)
    requires i < |nodes|
    ensures Records(nodes[..i + 1]) == Records(nodes[..i]) + [ToChunk(nodes[i])]
  {
    assert nodes[..i + 1][..i] == nodes[..i];
  }

  /** `getattr(response, "source_nodes", [])`. */
  function RetrievedNodes(response: Option<seq<Node>>): (nodes: seq<Node>)
    ensures response.None? ==> nodes == []
    ensures response.Some? ==> nodes == response.value
  {
    response.GetOr([])
  }

  function NodeScore(n: Node): Option<real> { n.score }

  function ChunkScore(c: Chunk): Option<real> { c.score }

  /** The scores of the records that have one, in order: what `compute_confidence` is given. */
  function Scores(chunks: seq<Chunk>): (scores: seq<real>)
    ensures |scores| <= |chunks|
  {
    FilterMap(chunks, ChunkScore)
  }

  /** One line of the context block: `[doc_id, score=...] text`. */
  function ChunkLine(c: Chunk, showScore: Option<real> -> string): string
  {
    "[" + c.docId + ", score=" + showScore(c.score) + "] " + c.text
  }

  const ChunkSeparator: string := "\n\n---\n\n"

  /** `context_chunks`: the chunk lines joined by a horizontal rule. */
  function ContextBlock(chunks: seq<Chunk>, showScore: Option<real> -> string): string
  {
    Join(ChunkSeparator, seq(|chunks|, k requires 0 <= k < |chunks| => ChunkLine(chunks[k], showScore)))
  }

  /** The fixed text of the `rewrite_query` prompt before the question. */
  const RewriteIntro: string :=
    "\nRewrite the following user query to be clearer and more specific for document search.\n"
     + "Return only the rewritten query text.\n\nOriginal query:\n"

  /** The pieces of the `rewrite_query` prompt, in order. */
  function RewritePromptPieces(question: string): seq<string>
  {
    [RewriteIntro, question, "\n"]
  }

  /** The prompt of `rewrite_query`. */
  function RewritePrompt(question: string): string
  {
    Join("", RewritePromptPieces(question))
  }

  /** The rewrite prompt carries the question. */
  lemma RewritePromptMentions(question: string)
    ensures Occurs(question, RewritePrompt(question))
  {
    OccursInJoin("", RewritePromptPieces(question), 1);
  }

  /** `rewrite_query`: the model's stripped reply to the rewrite prompt. */
  function RewriteQuery(svc: Services, question: string): (r: string)
    ensures Stripped(r)
  {
    Strip(svc.complete(RewritePrompt(question)))
  }

  /** The fixed texts of the `final_prompt` f-string. */
  const QuestionHeading: string := "\n\nUser question:\n"
  const RewrittenHeading: string := "\n\nRewritten query:\n"
  const ExcerptsHeading: string := "\n\nRelevant document excerpts:\n"

  const AnswerInstructions: string :=
    "\n\nInstructions:\n- Answer the user's question using ONLY the excerpts above.\n"
    + "- If the answer is unclear or missing, say you are unsure and suggest contacting a human.\n"
    + "- End with a \"Sources:\" section listing the document names you used.\n"

  /** The pieces of the `final_prompt` f-string, in order. */
  function FinalPromptPieces(systemPrompt: string, question: string, rewritten: string, context: string): seq<string>
  {
    ["\n", systemPrompt, QuestionHeading, question, RewrittenHeading, rewritten,
     ExcerptsHeading, context, AnswerInstructions]
  }

  /** `final_prompt`: system prompt, both forms of the question, the excerpts and the grounding rules. */
  function FinalPrompt(systemPrompt: string, question: string, rewritten: string, context: string): string
  {
    Join("", FinalPromptPieces(systemPrompt, question, rewritten, context))
  }

  /** The fixed texts of the `generate_followups` prompt around the question and the answer. */
  const FollowupIntro: string := "\nYou are helping generate follow-up questions for a Q&A agent.\n\nOriginal question: "
  const FollowupOutro: string := "\n\nSuggest 3 short follow-up questions the user might ask next.\nReturn them as a numbered list.\n"

  /** The pieces of the `generate_followups` prompt, in order. */
  function FollowupPromptPieces(answer: string, question: string): seq<string>
  {
    [FollowupIntro, question, "\nAnswer: ", answer, FollowupOutro]
  }

  /** The prompt of `generate_followups`. */
  function FollowupPrompt(answer: string, question: string): string
  {
    Join("", FollowupPromptPieces(answer, question))
  }

  /** The follow-up prompt carries the original question and the answer. */
  lemma FollowupPromptMentions(answer: string, question: string)
    ensures Occurs(question, FollowupPrompt(answer, question)) && Occurs(answer, FollowupPrompt(answer, question))
  {
    OccursInJoin("", FollowupPromptPieces(answer, question), 1);
    OccursInJoin("", FollowupPromptPieces(answer, question), 3);
  }

  /** A chunk line carries the record's document id and its text. */
  lemma ChunkLineMentions(c: Chunk, showScore: Option<real> -> string)
    ensures Occurs(c.text, ChunkLine(c, showScore)) && Occurs(c.docId, ChunkLine(c, showScore))
  {
    OccursIn("[" + c.docId + ", score=" + showScore(c.score) + "] ", c.text, "");
    assert "[" + c.docId + ", score=" + showScore(c.score) + "] " + c.text + "" == ChunkLine(c, showScore);
    OccursIn("[", c.docId, ", score=" + showScore(c.score) + "] " + c.text);
    assert "[" + c.docId + (", score=" + showScore(c.score) + "] " + c.text) == ChunkLine(c, showScore);
  }

  /** The context block names every record's document and carries every record's text. */
  lemma ContextMentionsSources(chunks: seq<Chunk>, showScore: Option<real> -> string, k: nat)
    requires k < |chunks|
    ensures Occurs(chunks[k].text, ContextBlock(chunks, showScore))
    ensures Occurs(chunks[k].docId, ContextBlock(chunks, showScore))
  {
    var c := chunks[k];
    var lines := seq(|chunks|, j requires 0 <= j < |chunks| => ChunkLine(chunks[j], showScore));
    OccursInJoin(ChunkSeparator, lines, k);
    ChunkLineMentions(c, showScore);
    OccursTrans(c.text, lines[k], ContextBlock(chunks, showScore));
    OccursTrans(c.docId, lines[k], ContextBlock(chunks, showScore));
  }

  /** The grounding prompt carries the system prompt, the question, the rewritten query and the excerpts. */
  lemma FinalPromptMentions(systemPrompt: string, question: string, rewritten: string, context: string)
    ensures var p := FinalPrompt(systemPrompt, question, rewritten, context);
            Occurs(systemPrompt, p) && Occurs(question, p) && Occurs(rewritten, p) && Occurs(context, p)
  {
    var pieces := FinalPromptPieces(systemPrompt, question, rewritten, context);
    OccursInJoin("", pieces, 1);
    OccursInJoin("", pieces, 3);
    OccursInJoin("", pieces, 5);
    OccursInJoin("", pieces, 7);
  }

  /** Every record's text and document id reach the model in the grounding prompt. */
  lemma GroundingPromptCarriesSources(systemPrompt: string, question: string, rewritten: string,
                                      chunks: seq<Chunk>, showScore: Option<real> -> string, k: nat)
    requires k < |chunks|
    ensures var p := FinalPrompt(systemPrompt, question, rewritten, ContextBlock(chunks, showScore));
            Occurs(chunks[k].text, p) && Occurs(chunks[k].docId, p)
  {
    var context := ContextBlock(chunks, showScore);
    FinalPromptMentions(systemPrompt, question, rewritten, context);
    ContextMentionsSources(chunks, showScore, k);
    OccursTrans(chunks[k].text, context, FinalPrompt(systemPrompt, question, rewritten, context));
    OccursTrans(chunks[k].docId, context, FinalPrompt(systemPrompt, question, rewritten, context));
  }

  /** The records' scores are the nodes' non-null scores, in order: confidence depends only on `sources`. */
  lemma ScoresOfRecords(nodes: seq<Node>)
    ensures Scores(Records(nodes)) == FilterMap(nodes, NodeScore)
  {
    FilterMapCongruent(Records(nodes), ChunkScore, nodes, NodeScore);
  }

  /** The confidence is "Low" exactly when no node has a score or the mean of the present scores is below 0.6. */
  lemma LowIff(nodes: seq<Node>)
    ensures var scores := FilterMap(nodes, NodeScore);
            && (scores == [] <==> forall k :: 0 <= k < |nodes| ==> nodes[k].score.None?)
            && (ComputeConfidence(scores) == Low <==> scores == [] || Mean(scores) < MediumThreshold)
  {
    FilterMapEmptyIff(nodes, NodeScore);
  }

  /** No retrieved node with a score (in particular, no node at all) gives "Low". */
  lemma NoScoresIsLow(nodes: seq<Node>)
    requires forall k :: 0 <= k < |nodes| ==> nodes[k].score.None?
    ensures ComputeConfidence(FilterMap(nodes, NodeScore)) == Low
  {
    LowIff(nodes);
  }

  /** Two chunks scored 0.9 and 0.85 give "High". */
  lemma TwoStrongChunks(n1: Node, n2: Node)
    requires n1.score == Some(0.9) && n2.score == Some(0.85)
    ensures FilterMap([n1, n2], NodeScore) == [0.9, 0.85]
    ensures ComputeConfidence(FilterMap([n1, n2], NodeScore)) == High
  {
    FilterMapTwo(n1, n2, NodeScore);
    assert Sum([0.9, 0.85]) == Sum([0.9]) + 0.85;
    assert [0.9, 0.85][..1] == [0.9];
  }

  /** Scores 0.5 and null are averaged over [0.5] alone, which gives "Low". */
  lemma HalfAndNull(n1: Node, n2: Node)
    requires n1.score == Some(0.5) && n2.score == None
    ensures FilterMap([n1, n2], NodeScore) == [0.5]
    ensures ComputeConfidence(FilterMap([n1, n2], NodeScore)) == Low
  {
    FilterMapTwo(n1, n2, NodeScore);
    assert Sum([0.5]) == Sum([]) + 0.5;
  }

  /** The loop of lines 96-113: one record per node, in order, and the present scores. */
  method CollectSources(nodes: seq<Node>) returns (sources: seq<Chunk>, scores: seq<real>)
    ensures sources == Records(nodes)
    ensures scores == FilterMap(nodes, NodeScore)
    ensures scores == Scores(sources)
  {
    sources := [];
    scores := [];
    for i := 0 to |nodes|
      invariant sources == Records(nodes[..i])
      invariant scores == FilterMap(nodes[..i], NodeScore)
    {
      var node := nodes[i];
      var score := node.score;
      var meta := node.metadata.GetOr(map[]);
      var docId := DocId(meta);
      var text := node.text.GetOr("");
      RecordsPrefix(nodes, i);
      sources := sources + [Chunk(text, score, docId)];
      FilterMapPrefix(nodes, i, NodeScore);
      if score.Some? {
        scores := scores + [score.value];
      }
    }
    assert nodes[..|nodes|] == nodes;
    assert scores == Scores(sources) by {
      ScoresOfRecords(nodes);
    }
  }

  /** One question/answer cycle of `answer_question`, from start to the assembled result. */
  method AnswerQuestion(svc: Services, question: string, mode: string, debug: bool)
    returns (result: AnswerResult)
    ensures var nodes := RetrievedNodes(svc.query(result.rewrittenQuery));
            && result.sources == Records(nodes)
            && result.confidence == ComputeConfidence(FilterMap(nodes, NodeScore))
    ensures result.rewrittenQuery == RewriteQuery(svc, question)
    ensures result.confidence == ComputeConfidence(Scores(result.sources))
    ensures result.answer == Strip(svc.complete(FinalPrompt(BuildSystemPrompt(mode), question,
                                     result.rewrittenQuery, ContextBlock(result.sources, svc.showScore))))
    ensures result.followups == CleanReply(svc.complete(FollowupPrompt(result.answer, question)))
    ensures result.debugChunks == if debug then Some(result.sources) else None
    ensures Stripped(result.answer) && Stripped(result.rewrittenQuery)
    ensures forall k :: 0 <= k < |result.followups| ==> result.followups[k] != "" && Stripped(result.followups[k])
    ensures result.sources == [] ==> result.confidence == Low
  {
    var systemPrompt := BuildSystemPrompt(mode);
    var rewritten := RewriteQuery(svc, question);
    var nodes := RetrievedNodes(svc.query(rewritten));
    var sources, scores := CollectSources(nodes);

    var context := ContextBlock(sources, svc.showScore);
    var answer := Strip(svc.complete(FinalPrompt(systemPrompt, question, rewritten, context)));
    var confidence := ComputeConfidence(scores);
    var followups := CleanFollowups(svc.complete(FollowupPrompt(answer, question)));

    result := AnswerResult(answer, rewritten, sources, confidence, followups, None);
    if debug {
      result := result.(debugChunks := Some(sources));
    } else {
      result := result.(debugChunks := None);
    }
  }
}
