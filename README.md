# Scrapbox RAG pipeline: chunking, batching, retrieval and answer synthesis

This project models the sequential core of a retrieval-augmented question-answering pipeline
over a Scrapbox project:

- **Ingestion processor** (`Processor`): cuts a page's text into overlapping windows of fixed
  size and turns one page into documents. The lines are joined by newlines, each chunk is
  encoded into a sparse vector, and every chunk with a non-empty vector becomes a document
  carrying the page's title, URL and update time in milliseconds.
- **Ingestion batch** (`Ingestion`): creates the index, fetches every page, and processes the
  pages in order into a buffer. The buffer is bulk-indexed whenever it holds 50 documents or
  more, and a non-empty remainder is flushed at the end. An exception from index creation, the
  page fetch or a bulk call ends the batch with exit status 1; a failed encoder request only
  drops its chunk.
- **Sparse retrieval** (`Search`): an empty vector gives no results and no request. Otherwise
  the vector becomes one boosted `rank_feature` clause per entry inside a `bool`/`should`
  query, the store is asked for `top_k` hits (5 by default), and the hits are mapped one to one,
  in order, to ranked passages. A store error is passed on unchanged.
- **Answer synthesis** (`Llm`): no passages give a fixed "no information" answer. Otherwise
  the passages are cut into consecutive groups. The first group is answered from an initial
  prompt. Every later group refines the running answer from a refine prompt, after a
  rate-limit wait. Each generation call makes at most three attempts.

Two shared modules support them. `Slicing` holds the generic overlapping-window function the
splitter is proved against; the passage groups are proved to be its windows with no overlap.
`Text` holds Python-style slicing and `str.join`, flattening, ceiling division and infix search.

The network collaborators are parameters of the model:

- the encoder service is `(chunk text, page number, chunk number) -> EncodeReply`, so each
  request gets its own reply, and two chunks with the same text can get different replies;
- the search store is `StoreRequest -> StoreReply`;
- the generation model is `(prompt, attempt number) -> Reply`;
- the index creation outcome is a `bool`, the page fetch a `Result`, and the success of the
  k-th bulk call `nat -> bool`;
- the URL quoting function is `string -> string`.

The synthesis result records every generation call: the wait before it, its prompt, its
attempt count and its last reply. Call counts, wait placement and prompt contents are stated
over that record.

For a non-empty text of length n with 0 < n <= overlap, the splitter gives one chunk, while
ceil((n - overlap) / (size - overlap)) would give 0 or less. More generally, the splitter gives
exactly one chunk whenever n <= size. `Slicing.WindowsCount` states the splitter's count.

## Model

| member | source | states |
|---|---|---|
| Processor.SplitText | ingestion-batch/batch/processor.py:15-31 | the splitter loop yields exactly the overlapping windows of the text; an empty text yields no chunks |
| Slicing.WindowsCount | ingestion-batch/batch/processor.py:20-30 | no chunks for an empty text, the whole text as the one chunk when it fits, and otherwise ceil((n - overlap) / (size - overlap)) chunks |
| Slicing.WindowAt | ingestion-batch/batch/processor.py:24-30 | chunk k starts inside the text at k * (size - overlap) and is `text[k*(size-overlap) : k*(size-overlap)+size]`, clipped at the end |
| Slicing.WindowsFull | ingestion-batch/batch/processor.py:26-29 | every chunk but the last holds exactly `size` characters |
| Slicing.WindowsLast | ingestion-batch/batch/processor.py:25-29 | the last chunk is non-empty, at most `size` long, and is the whole rest of the text from its start, so it ends at the text's end |
| Slicing.WindowsOverlap | ingestion-batch/batch/processor.py:26-30 | consecutive chunks share exactly `overlap` characters: the tail of chunk k is the head of chunk k + 1 |
| Slicing.WindowsReassemble | ingestion-batch/batch/processor.py:24-30 | the first chunk followed by every later chunk without its first `overlap` characters gives back the text |
| Processor.SplitThousand | ingestion-batch/tests/test_processor.py:4-16 | with size 500 and overlap 50, a 1000-character text gives three chunks, 0-500, 450-950 and 900-1000, of lengths 500, 500 and 100 |
| Processor.FullText | ingestion-batch/batch/processor.py:55-56 | every line's text appears in the full text |
| Processor.ProcessPage | ingestion-batch/batch/processor.py:45-77 | the chunk loop produces exactly the page's documents: the chunks of the newline-joined lines, each encoded by a request of its own, in order, empty vectors skipped |
| Processor.KeptChunksSpec | ingestion-batch/batch/processor.py:58-77 | the kept chunk positions are strictly increasing positions of chunks whose vector is non-empty, and every chunk with a non-empty vector is kept |
| Processor.ChunkDocsSpec | ingestion-batch/batch/processor.py:58-77 | exactly one document per kept chunk, in chunk order: document m is built from the m-th kept chunk, with the given title, URL and time, that chunk's text and that chunk's own vector |
| Processor.ChunkDocsAllKept | ingestion-batch/batch/processor.py:60-75 | when every chunk's request gives a non-empty vector, the document texts are exactly the chunks, in order |
| Processor.ChunkDocsNoneKept | ingestion-batch/batch/processor.py:63-66 | when every chunk's request gives an empty vector (for instance, every encoder request failed), the page gives no documents |
| Processor.PageDocsMetadata | ingestion-batch/batch/processor.py:49-77 | every document of a page has the page's title (default ""), the URL `https://scrapbox.io/{project}/{quote(title)}`, the update time times 1000 (default 0), a chunk of the newline-joined lines as its text, and a non-empty vector |
| Ingestion.RunIngestion | ingestion-batch/batch/main.py:17-43 | a failed index creation ends with status 1 and nothing else done; a failed fetch ends with status 1 after creating the index; otherwise the bulk calls are the flushes of the page documents in order, up to and including the first failing one, and the status is 0 exactly when none fails |
| Ingestion.IndexPages | ingestion-batch/batch/main.py:25-37 | the page loop makes exactly the flushes of the pages' documents, page by page, up to and including the first failing bulk call, and reports success exactly when no bulk call fails |
| Ingestion.FlushesConserve | ingestion-batch/batch/main.py:25-37 | the flushed batches put end to end are every page's documents in page order, so each document is indexed exactly once |
| Ingestion.FlushesSizes | ingestion-batch/batch/main.py:31-37 | every in-loop flush holds at least 50 documents; the remainder flush, if any, is the last and holds 1 to 49, so no bulk call is empty |
| Ingestion.FirstFailedSpec | ingestion-batch/batch/main.py:31-43 | the batch stops at the first bulk call that fails: every earlier call succeeded and that one failed |
| Search.ShouldClauses | search-api/api/search.py:23-26 | one clause per vector entry, each on a field starting with "sparse_vector." |
| Search.ClausesRoundTrip | search-api/api/search.py:23-26 | clause i is on field "sparse_vector." + token i and is boosted by weight i: the clauses give back the vector entry by entry, in order |
| Search.CollectResults | search-api/api/search.py:35-46 | one result per hit, in the same order, with text, title and URL from the hit's source and its score; so the store's ranking is kept |
| Search.Search | search-api/api/search.py:16-49 | an empty vector gives [] with no store request; otherwise one request with a `bool` query of exactly the should clauses and size `top_k`; a store error is returned unchanged with no partial list, and hits become results one to one |
| Search.SearchDefault | search-api/api/search.py:17 | without `top_k`, the store is asked for 5 hits |
| Llm.AttemptsSpec | search-api/api/llm.py:20-27 | a generation call makes one to three attempts, stopping at the first success; its last attempt fails exactly when all three fail, and then all three were made |
| Llm.GenerateWithRetry | search-api/api/llm.py:20-32 | the retry loop makes the number of attempts that AttemptsSpec describes and returns the reply of its last attempt |
| Llm.GroupsSpec | search-api/api/llm.py:39-42 | there are ceil(n / size) groups, none empty, all but the last of exactly `size` passages, and putting them end to end gives back the passages in order |
| Llm.GroupsAreWindows | search-api/api/llm.py:40-42 | the groups are the non-overlapping windows of `size` passages |
| Llm.PassageInGroup | search-api/api/llm.py:40-42 | passage k * size + r is passage r of group k |
| Llm.ContextTextHasPassage | search-api/api/llm.py:51-53 | each passage of a group appears in the group's context text as "--- Source: title (url) ---\ntext", with its title, URL and text |
| Llm.InitialPromptContents | search-api/api/llm.py:55-66 | the initial prompt holds the passages under "# コンテキスト" and the question under "# ユーザーの質問"; every character of it comes from the template, the passages or the question |
| Llm.RefinePromptContents | search-api/api/llm.py:67-82 | a refine prompt holds the question, the running answer under "# 既存の回答" and the new passages under "# 追加のコンテキスト" |
| Llm.InitialPromptHasContextHeading | search-api/api/llm.py:55-66 | an initial prompt carries the "# コンテキスト" heading |
| Llm.InitialPromptLacksAnswer | search-api/api/llm.py:55-66 | the initial prompt contains no "# 既存の回答" heading (given the character 既 is in neither the passages nor the question) |
| Llm.PromptModesDiffer | search-api/api/llm.py:55-82 | no initial prompt equals any refine prompt |
| Llm.GenerateAnswer | search-api/api/llm.py:34-87 | the synthesis: no passages give the fixed "関連する情報が見つかりませんでした。" with no call; a group size of 0 fails with no call; a negative size answers "" with no call; otherwise the run is the group-by-group refinement |
| Llm.CallGroup | search-api/api/llm.py:46-85 | one loop iteration: the wait, the prompt chosen by the group's index and the retried generation make the call for that group |
| Llm.RefineGroups | search-api/api/llm.py:44-87 | the loop over the groups makes the calls of the refinement in order and stops at the first call that failed three times |
| Llm.RefineShape | search-api/api/llm.py:44-87 | at most one call per group, the first for the first group; success means a call for every group and the last reply as the answer; failure comes only from a failed last call, with its error |
| Llm.RefineTrace | search-api/api/llm.py:44-87 | call k is made for group k with the reply of call k - 1 as the running answer, and every call but the last got a generated reply |
| Llm.RefineCallAt | search-api/api/llm.py:44-85 | call k follows a successful call k - 1, for group k, with that call's reply as the running answer |
| Llm.CallForSpec | search-api/api/llm.py:46-85 | a call waits only when it is not the first; the first prompt holds the group's passages and the question, later prompts the question, the running answer and the passages; one to three attempts, failing only when all three fail |
| Llm.CallFaultExhausts | search-api/api/llm.py:20-27 | a call fails only after three attempts |
| Llm.SynthesisTrace | search-api/api/llm.py:34-87 | one call per group in group order until one fails, each with the previous reply as the running answer; success has ceil(n / size) calls and the last reply as the answer; failure is the last call's error after three attempts |
| Llm.SynthesisCallPrompt | search-api/api/llm.py:51-82 | the prompt of call k holds the question and every passage of group k; the first call holds the first group's passages under "# コンテキスト", and every later call the reply before it under "# 既存の回答" |
| Llm.FirstCallPrompt | search-api/api/llm.py:44-66 | the first call is made and its prompt is the initial prompt for the first group's passages and the question |
| Llm.FirstGroupIsPrefix | search-api/api/llm.py:40-42 | the first group is the first passages, in order |
| Llm.ContextTextMembers | search-api/api/llm.py:51-53 | every character of a context text comes from the source-line decorations, the blank-line separator or a passage's title, URL or text |
| Llm.ContextTextLacksExisting | search-api/api/llm.py:51-53 | passages without the character 既 give a context text without it |
| Llm.FirstGroupLacksExisting | search-api/api/llm.py:40-53 | when no passage contains 既, neither does the first group's context text |
| Llm.FirstPromptIsInitial | search-api/api/llm.py:44-66 | the first prompt is the initial prompt for the first group; it carries "# コンテキスト", and it carries no "# 既存の回答" when 既 is in neither the passages nor the question |
| Llm.PassageShown | search-api/api/llm.py:40-82 | passage k * size + r is shown in call k, and a successful synthesis made that call, so every passage is shown |
| Llm.SuccessCallsEveryGroup | search-api/api/llm.py:44-87 | a successful synthesis made one call per group |
| Llm.SynthesisCallWait | search-api/api/llm.py:47-49 | the first call is made without waiting and every later call after a wait of `delay`, so a synthesis waits once per group but the first |
| Llm.SynthesisNeverFails | search-api/api/llm.py:44-87 | when generation never fails, the synthesis succeeds with exactly ceil(n / size) calls |
| Llm.SecondGroupShown | search-api/api/llm.py:67-82 | the second call's prompt shows the first passage of the second group |
| Llm.FourPassagesTwoCalls | search-api/tests/test_llm.py:38-57 | four passages in groups of three give two calls, one wait before the second, and the second reply as the answer |
| Llm.FourPassagesFirstPrompt | search-api/tests/test_llm.py:59-64 | the first prompt shows passages 0, 1 and 2 under "# コンテキスト", and has no "# 既存の回答" when 既 occurs in neither the passages nor the question |
| Llm.FourPassagesSecondPrompt | search-api/tests/test_llm.py:66-70 | the second prompt shows passage 3 and the first reply under "# 既存の回答" |

## Left out

- The encoder service's numerics (log(1 + ReLU), masking, max pooling) are floating-point work over a foreign model. The encoder is a parameter, and weights and scores are opaque values that are only copied.
- The HTTP, Elasticsearch and Scrapbox clients are not modelled. Their outcomes are parameters: the encoder reply, the store reply, index creation, the page fetch, and bulk-call success by call number.
- The retry policy's exponential back-off waits between attempts are not recorded: a call with n attempts waited n - 1 times, which the model implies only through the attempt count. Their durations, the length of the rate-limit wait and all logging are left out. The model records attempt counts and where the rate-limit waits occur.
- `requests.utils.quote` is a parameter (an opaque function of the title).
- Processor.SplitText: requires 0 <= overlap < size. The source also accepts a negative overlap: the loop then advances by more than `size` and leaves gaps between the chunks. That case is not modelled, and neither is overlap >= size, where the source loop does not terminate on a text longer than `size`.
- Processor.ProcessPage: does not model a page whose JSON holds `updated` or a line's `text` as null, or any exception other than a failed encoder request. A present null is a `TypeError` in the source. The model treats only a missing key as its default.
- Search.CollectResults: does not model hits missing `_source` fields. Those raise `KeyError` in the source.
- The synthesis reads its group size and wait from `GEMINI_CONTEXT_CHUNK_SIZE` and `GEMINI_RPM_DELAY`. `search-api/api/config.py` defines neither; it defines `LLM_CONTEXT_CHUNK_SIZE` = 3. Both are parameters of the model.
- A generated reply whose `text` is `None` is not modelled: a reply is either text or an error.
- The generator is a function of the prompt and the global attempt number, so it can answer each attempt differently. It cannot depend on other hidden state.
- The prompt templates are held in a `Template` record so that the prompt lemmas are stated over the template's lines. The synthesis always uses the source's fixed texts.
- Llm.InitialPromptLacksAnswer: holds only when the character 既 occurs in neither the passages nor the question, because otherwise the passages could contain the heading. Llm.FirstPromptIsInitial and Llm.FourPassagesFirstPrompt state the absence of the heading under the same condition.
- Llm.FourPassagesFirstPrompt: does not prove that passage 3 is absent from the first prompt, because a passage's text could occur inside another's.
- Llm.CallGroup and Llm.RefineGroups split the one source loop into its body and the loop itself. This is a proof decomposition; the behaviour is that of the single loop.
- Concurrency (the async event loop) is left out: every call is awaited in turn, so the model is sequential.
- The FastAPI routing, dependency injection, configuration loading, the `gemma-api` wrapper and the web UI are not part of this model.
