# OrgBrain answer pipeline in Dafny

This project models the core of OrgBrain, a question-answering assistant over an
organization's documents. One question/answer cycle works like this:

1. A system prompt is composed for the selected mode (General, HR, Support, Operations).
2. The question is rewritten by the hosted model.
3. Up to four chunks are retrieved from the vector index.
4. The chunks become `{text, score, doc_id}` source records.
5. The non-null similarity scores are reduced to a High/Medium/Low confidence.
6. The model answers from a prompt that carries the excerpts.
7. The model's suggested follow-up questions are cleaned into a list.

The model also covers the document-preparation helpers:

- the join of PDF page texts;
- the choice of a reader by file extension;
- the blank-text guard and the 6000-character truncation in front of the summary request.

Modules, one per concern:

- `Wrappers`: `Option`.
- `Text`: Python's `strip`, `lstrip`, `split`, `join`, `rfind` and `lower` on strings. `strip` uses the full `str.isspace` set.
- `Filtering`: a generic filter-and-map that stands for the comprehensions and conditional-append loops. It comes with the index witnesses that prove order is kept.
- `Prompts`: backend/prompts.py.
- `Confidence`: `compute_confidence`.
- `Followups`: the cleaning half of `generate_followups`, as a function and as the source's imperative loop.
- `Pipeline`: `answer_question`, `rewrite_query` and the prompt texts.
- `Documents`: backend/utils.py.

The hosted model, the index query, the PDF parser, the file read and Python's
rendering of a float are parameters. `Pipeline.Services` groups them for the
pipeline; `Documents.GetTextFromFile` and `Documents.SummarizeDocument` take
them as function arguments.

The loops of the source are methods proved against specification functions:

- `Followups.CleanFollowups` against `Followups.CleanReply`;
- `Pipeline.CollectSources` against `Pipeline.Records` and `Filtering.FilterMap`;
- `Documents.GetTextFromPdf` against `Text.Join` of `Filtering.FilterMap`.

The properties are proved about those functions.

## Model

| member | source | states |
|---|---|---|
| Confidence.ComputeConfidence | backend/rag_pipeline.py:62-72 | no scores give Low; otherwise High iff the mean is at least 0.8, Medium iff it is in [0.6, 0.8), Low iff it is below 0.6 |
| Confidence.TierOf | backend/rag_pipeline.py:67-72 | each tier holds exactly on its band of the mean |
| Confidence.Label | backend/rag_pipeline.py:65-72 | the strings "High", "Medium" and "Low" returned for the three tiers |
| Confidence.TierMonotone | backend/rag_pipeline.py:66-72 | a larger mean never gives a lower tier (Low < Medium < High) |
| Confidence.SumMonotone | backend/rag_pipeline.py:66 | a pointwise larger score list of the same length has a larger sum |
| Confidence.ConfidenceMonotone | backend/rag_pipeline.py:62-72 | raising scores while keeping their number never lowers the tier |
| Confidence.Sum | backend/rag_pipeline.py:66 | `sum(scores)`, added left to right; SumMonotone, SumAtLeast and SumAtMost state its order properties |
| Confidence.Mean | backend/rag_pipeline.py:66 | `sum(scores) / len(scores)`, defined only for a non-empty list; MeanBounds and UniformScores state its bounds |
| Confidence.SumAtMost | backend/rag_pipeline.py:66 | an upper bound on every score bounds the sum by count times that bound |
| Confidence.MeanBounds | backend/rag_pipeline.py:66 | the mean lies between any lower and upper bound of the scores |
| Confidence.SumAtLeast | backend/rag_pipeline.py:66 | a lower bound on every score bounds the sum from below |
| Confidence.LowerThanMediumMean | backend/rag_pipeline.py:66-72 | scores all below 0.6 have a sum below count times 0.6 |
| Confidence.UniformScores | backend/rag_pipeline.py:62-72 | all scores at least 0.8 give High; all scores below 0.6 give Low |
| Text.TrimLeft | backend/rag_pipeline.py:56 | `lstrip(chars)` never lengthens the text; TrimLeftSpec states it drops exactly the longest prefix of dropped characters |
| Text.FirstIndex | backend/rag_pipeline.py:55 | where `split(".", 1)` cuts: an index of '.' with no '.' before it |
| Text.Split | backend/rag_pipeline.py:50 | `split("\n")` always yields at least one part; SplitParts, SplitJoin and JoinSplit pin it down |
| Text.Join | backend/rag_pipeline.py:116-118 | `sep.join(parts)`; SplitJoin and JoinSplit state it is the inverse of Split, OccursInJoin that every part occurs in it |
| Text.Strip | backend/rag_pipeline.py:50 | `str.strip` leaves no whitespace at either end and never lengthens |
| Text.StripSpec | backend/rag_pipeline.py:50 | the stripped text is an infix with only whitespace before and after it |
| Text.StripEmptyIff | backend/utils.py:50 | a text strips to "" exactly when every character is whitespace |
| Text.SplitParts | backend/rag_pipeline.py:50 | no part of `split("\n")` contains a newline |
| Text.SplitJoin | backend/rag_pipeline.py:50 | splitting the join of newline-free lines gives the lines back |
| Text.JoinSplit | backend/rag_pipeline.py:50 | joining the parts of a split gives the text back |
| Text.LastIndex | backend/utils.py:35 | `rfind`: -1 or the index of the last occurrence, with none after it |
| Text.Lower | backend/utils.py:35 | `lower` maps each character by itself and keeps the length |
| Text.LowerKeepsOther | backend/utils.py:35 | a stretch of the path holds a character other than '.' (or '/') iff its lowering does |
| Text.LastIndexLower | backend/utils.py:35 | lower-casing keeps the position of the last '.' and the last '/' |
| Followups.NonBlankLines | backend/rag_pipeline.py:50 | the comprehension keeps at most one line per part of the split; NonBlankLinesClean and FollowupsBound state what it keeps |
| Followups.CleanLine | backend/rag_pipeline.py:54-56 | the loop body's cleaned line has no whitespace at either end and is never longer than the line |
| Followups.CleanReply | backend/rag_pipeline.py:50-59 | the cleaner returns at most one follow-up per kept line; FollowupsClean, SourceLines and FollowupsOfPlainLines state the rest |
| Followups.NonBlank | backend/rag_pipeline.py:50 | a line is kept, stripped, exactly when its strip is non-empty |
| Followups.Cleaned | backend/rag_pipeline.py:54-58 | a line is appended, cleaned, exactly when its cleaned form is non-empty |
| Followups.NonBlankLinesClean | backend/rag_pipeline.py:50 | every line the comprehension keeps is non-empty and stripped |
| Followups.FollowupsClean | backend/rag_pipeline.py:50-59 | every follow-up is non-empty with no whitespace at either end |
| Followups.FollowupsBound | backend/rag_pipeline.py:50-58 | no more follow-ups than non-blank lines, and the number of non-blank lines is the count of lines that do not strip to "" |
| Followups.SourceLines | backend/rag_pipeline.py:50-58 | each follow-up is the cleaning of a line of the reply, and those line indices strictly increase (order kept) |
| Followups.FollowupsComplete | backend/rag_pipeline.py:50-58 | a line of the reply gives a follow-up iff its strip is non-empty and cleans to something non-empty, so no such line is dropped |
| Followups.NumberedLine | backend/rag_pipeline.py:54-56 | a line starting with a digit and holding a '.' keeps only the stripped text after its first '.' (when that has no bullet) |
| Followups.PlainLineClean | backend/rag_pipeline.py:54-56 | a stripped, non-empty line not starting with a digit, '-' or a bullet is left unchanged |
| Followups.FollowupsOfPlainLines | backend/rag_pipeline.py:50-58 | the cleaner returns exactly the lines whose newline-join it is given, for such lines |
| Followups.NumberedQuestionLine | backend/rag_pipeline.py:50-57 | "N. question" is kept by the comprehension and cleaned to the question |
| Followups.SplitTwoLines | backend/rag_pipeline.py:50 | two newline-free lines, each ending in a newline, split into the two lines and an empty last part |
| Followups.NonBlankTwoLines | backend/rag_pipeline.py:50 | the comprehension keeps exactly two such lines when it keeps each unchanged |
| Followups.CleanTwoLines | backend/rag_pipeline.py:50-59 | such a reply cleans to the two lines' cleaned forms |
| Followups.TwoNumberedQuestions | backend/rag_pipeline.py:50-59 | a reply of two numbered questions, each ending in a newline, cleans to the two questions |
| Followups.NumberedListExample | backend/rag_pipeline.py:54-55 | "1. What is X?\n2. How about Y?\n" cleans to ["What is X?", "How about Y?"] |
| Followups.CleanOne | backend/rag_pipeline.py:54-56 | one pass of the loop body on a kept (non-empty) line gives the line's cleaned form |
| Followups.CleanFollowups | backend/rag_pipeline.py:50-59 | the loop returns the cleaner's result: no more items than non-blank lines, each non-empty and stripped |
| Filtering.FilterMap | backend/rag_pipeline.py:50-58 | the kept values in the order of their elements, at most one per element; Origins and OriginsComplete name the element each comes from |
| Prompts.EffectiveMode | backend/prompts.py:43 | the lookup key is the mode when recognized, "General" otherwise, and always in the table |
| Prompts.BuildSystemPrompt | backend/prompts.py:41-44 | the prompt starts with the base policy and ends with the effective mode's overlay |
| Prompts.ModeTableShape | backend/prompts.py:11-38 | the table has exactly the keys General, HR, Support and Operations |
| Prompts.UnknownModeIsGeneral | backend/prompts.py:43 | an unrecognized mode composes the same prompt as "General" |
| Prompts.KnownModeComposition | backend/prompts.py:44 | a recognized mode composes base policy + "\n\nMode:\n" + its overlay |
| Prompts.TailMarkInjective | backend/prompts.py:11-38 | the four overlays differ in their fourth character from the end |
| Prompts.EndsWithExactlyOneOverlay | backend/prompts.py:11-44 | a composed prompt ends with an overlay iff it is the effective mode's |
| Prompts.DistinctModesDistinctPrompts | backend/prompts.py:11-44 | distinct recognized modes compose distinct prompts |
| Pipeline.DocId | backend/rag_pipeline.py:103 | the id is non-empty: a non-empty file_name, else a non-empty source, else "Unknown document" |
| Pipeline.DocIdFallback | backend/rag_pipeline.py:102-103 | that fallback order, with missing metadata read as an empty map |
| Pipeline.ToChunk | backend/rag_pipeline.py:100-111 | a record carries the node's text (or ""), its score and its document id |
| Pipeline.RetrievedNodes | backend/rag_pipeline.py:99 | a response without source nodes yields no nodes |
| Pipeline.RewriteQuery | backend/rag_pipeline.py:14-29 | the rewritten query has no whitespace at either end |
| Pipeline.RewritePrompt | backend/rag_pipeline.py:16-22 | the rewrite f-string around the question; RewritePromptMentions states it carries the question |
| Pipeline.RewritePromptMentions | backend/rag_pipeline.py:16-22 | the rewrite prompt carries the question |
| Pipeline.FollowupPrompt | backend/rag_pipeline.py:34-42 | the follow-up f-string around the question and the answer; FollowupPromptMentions states it carries both |
| Pipeline.FollowupPromptMentions | backend/rag_pipeline.py:34-42 | the follow-up prompt carries the question and the answer |
| Pipeline.Scores | backend/rag_pipeline.py:112-113 | the present scores of the records, at most one per record; ScoresOfRecords ties them to the nodes |
| Pipeline.ChunkLine | backend/rag_pipeline.py:117 | `[doc_id, score=...] text`; ChunkLineMentions states it carries the id and the text |
| Pipeline.ContextBlock | backend/rag_pipeline.py:116-118 | the chunk lines joined by "\n\n---\n\n"; ContextMentionsSources states it carries every record |
| Pipeline.FinalPrompt | backend/rag_pipeline.py:120-136 | the grounding prompt; FinalPromptMentions states it carries its four inserted pieces |
| Pipeline.ChunkLineMentions | backend/rag_pipeline.py:117 | a context line carries its record's document id and text |
| Pipeline.ContextMentionsSources | backend/rag_pipeline.py:116-118 | the context block carries every record's text and document id |
| Pipeline.FinalPromptMentions | backend/rag_pipeline.py:120-136 | the grounding prompt carries the system prompt, the question, the rewritten query and the excerpts |
| Pipeline.GroundingPromptCarriesSources | backend/rag_pipeline.py:116-136 | every record's text and document id reach the model |
| Pipeline.ScoresOfRecords | backend/rag_pipeline.py:107-113 | the records' present scores are the nodes' present scores, in order |
| Pipeline.NoScoresIsLow | backend/rag_pipeline.py:99-113 | no node with a score (including no node at all) gives Low |
| Pipeline.LowIff | backend/rag_pipeline.py:62-72 | no scores iff every node's score is null; Low iff no scores or a mean below 0.6 |
| Pipeline.TwoStrongChunks | backend/rag_pipeline.py:62-72 | scores 0.9 and 0.85 give High |
| Pipeline.HalfAndNull | backend/rag_pipeline.py:112-113 | scores 0.5 and null average over [0.5] and give Low |
| Pipeline.Records | backend/rag_pipeline.py:99-111 | one record per node, the k-th record built from the k-th node |
| Pipeline.CollectSources | backend/rag_pipeline.py:96-113 | the records are `Records` of the nodes, in retrieval order; the scores are exactly the non-null node scores, which are the records' scores |
| Pipeline.AnswerQuestion | backend/rag_pipeline.py:89-162 | every result field is tied to its computation step; debug_chunks is the sources when debug is set and None otherwise; answer, query and follow-ups are stripped; no sources give Low |
| Documents.PageText | backend/utils.py:26-29 | a failed page contributes nothing, a page with no text contributes "" |
| Documents.GetTextFromPdf | backend/utils.py:21-30 | the result is the newline-join, in page order, of the texts of the pages that did not fail |
| Documents.PdfSegments | backend/utils.py:24-30 | one segment per page that did not fail, each that page's text, in page order |
| Documents.PdfAllPagesRead | backend/utils.py:24-30 | with no failing page there is one segment per page |
| Documents.PdfAllPagesFail | backend/utils.py:24-30 | when every page fails the text is "" |
| Documents.Extension | backend/utils.py:35 | the extension is "" or a '.'-led suffix of the path without '/' |
| Documents.ExtensionHasOneDot | backend/utils.py:35 | an extension holds no '.' after its first character |
| Documents.ExtensionOfName | backend/utils.py:35 | `stem + "." + suffix` has extension "." + suffix |
| Documents.NoDotNoExtension | backend/utils.py:35 | a path without '.' has no extension |
| Documents.ExtensionLower | backend/utils.py:35 | the extension of the lower-cased path is the lower-cased extension |
| Documents.ReaderFor | backend/utils.py:35-43 | PDF reader iff the lower-cased extension is ".pdf", text reader iff it is ".txt" |
| Documents.ReaderIgnoresCase | backend/utils.py:35-38 | the reader does not depend on the case of the path |
| Documents.ReaderOfName | backend/utils.py:35-38 | a name with suffix s is read as a PDF iff lower(s) is "pdf", as text iff it is "txt" |
| Documents.NoExtension | backend/utils.py:35-43 | a path without '.' is read by no reader |
| Documents.GetTextFromFile | backend/utils.py:33-43 | PDFs give the joined page texts, text files their contents, anything else "" |
| Documents.Truncate | backend/utils.py:53 | a prefix of the text of length min(length, 6000) |
| Documents.ShortDocumentSentWhole | backend/utils.py:53 | a text of at most 6000 characters is kept whole |
| Documents.SummaryPrompt | backend/utils.py:55-66 | the summary f-string around the file name and the truncated text; ReadableDocument states it carries both |
| Documents.SummaryRequest | backend/utils.py:50-66 | no request iff the text strips to ""; otherwise the prompt over the truncated text |
| Documents.SummarizeDocument | backend/utils.py:46-74 | `summarize_document`; BlankDocument and ReadableDocument state its two outcomes |
| Documents.BlankDocument | backend/utils.py:50-51 | a whitespace-only text gives the fixed message whatever the model would answer |
| Documents.ReadableDocument | backend/utils.py:50-74 | a readable text sends a prompt holding the file name and the truncated text, and returns the model's stripped reply |

## Left out

- The hosted language model, the vector index, the PDF parser and file reading are parameters. Their behaviour, failures and exceptions are not modelled. Any exception aborts the cycle in the source, and the model has no such path.
- `Pipeline.AnswerQuestion`: the index is asked for four chunks (`similarity_top_k=4`), but the model takes the returned nodes as they are. It does not assume or enforce that there are at most four.
- `Pipeline.Node`: metadata values are strings. A non-string `file_name` or `source` value, and Python falsiness of such values, are not modelled.
- `Pipeline.Node`: the `isinstance(node, dict)` branch of line 105 is not modelled. It cannot be reached: for a dict node, `node.metadata` on line 102 raises AttributeError first. A node is a record with an optional `text` field.
- `Pipeline.ChunkLine`: Python's rendering of a score, including `None`, is the `showScore` parameter.
- Confidence: scores are exact reals. Floating-point rounding in `sum(scores) / len(scores)` is not modelled, so a mean that rounds across 0.8 or 0.6 may be classified differently by the source.
- `Confidence.ComputeConfidence` returns a tier. `Confidence.Label` gives the string the source returns for it.
- `Text.IsDigit` accepts the ASCII digits only. Python's `isdigit` also accepts other Unicode digits, such as "²" or "٣". A reply line that starts with such a digit and holds a '.' keeps its number in `Followups.CleanLine`, while the source cuts it off at its first '.'.
- `Text.Lower` folds ASCII letters only, while Python's `lower` also folds non-ASCII letters. This does not change the ".pdf"/".txt" decision, which compares against ASCII text.
- `Documents.Extension` follows POSIX `os.path.splitext`. Windows separators and drive letters are not modelled.
- Strings are sequences of Unicode scalar values. A Python string holding a lone surrogate code point cannot be written as a Dafny string and is not modelled.
- A `None` message content from the model (where `.strip()` would raise) is not modelled: replies are strings.
- `Documents.SummarizeDocument`, `Text.Join`, `Confidence.Sum`, `Confidence.Mean`, `Pipeline.ChunkLine`, `Pipeline.ContextBlock`, `Pipeline.FinalPrompt`, `Pipeline.RewritePrompt`, `Pipeline.FollowupPrompt` and `Documents.SummaryPrompt` have no contract of their own. Their properties are the lemmas named in their rows.
- `list_document_paths`, the client set-up and the model name are outside the core: they are directory listing and configuration. The Streamlit interface (app.py) and index building are outside it too.
