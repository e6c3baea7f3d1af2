# Eino agent: the algorithms behind the service, with proofs

A retrieval-augmented chat service is mostly wiring around models and stores. This project models the parts of it
that carry state, branching or arithmetic, and proves what each of them is for:

- the streaming filter that removes `<think>` blocks from text that arrives in arbitrary pieces, and its one-shot
  sibling (`ThinkFilter`, `ThinkStrip`);
- the approval protocol in front of high-risk tools, as a class and as a state machine over every interleaving of
  its callers (`Approval`, `ApprovalRuns`, `ApprovalExpiry`), and the tracker of repeated tool calls (`ToolTracker`);
- the token-bucket rate limiter with its clean-up loop (`RateLimiter`);
- the incremental synchronisation of a document with a row store and a vector store (`IncrementalSync`,
  `SyncStores`);
- the text chunkers: recursive splitting, fixed windows in three implementations, semantic grouping (`Chunker`,
  `Windows`, `Semantic`);
- rank fusion, scoped search, and the retrieval metrics of two evaluators (`RankFusion`, `ScopedSearch`, `Metrics`,
  `Percentile`);
- the retrieval cache with its inverted index (`RetrievalCache`) and the clean-up of extracted graphs
  (`GraphRebuild`).

`Text`, `Subsequence`, `Counting`, `OrderStatistics` and `Wrappers` hold what several of them share.

Objects the program updates in place are classes with the same fields; loops are methods with loops, proved against
a specification function or predicate, about which the lemmas then speak. Strings are `seq<char>`, durations,
scores and clocks are `real`. `dafny verify dfyconfig.toml` checks everything.

Where the code does not do what its comments or names suggest, the code is modelled and the difference is stated:

- `Wait` answers "expire" from its timer branch even when another caller has just approved: `TimerExpiresIffUndecided`
  says exactly when the stored status is then expired. Two waiters of one approval give the same verdict exactly when
  both or neither have it from their timer, or the approval is recorded as expired (`WaitsAgreeIff`);
  `TwoWaitsCanDisagree` is a run in which they differ.
- Inside a think block the filter keeps its whole buffer whenever the text may end in a part of the closing tag; its
  comment speaks of keeping only that part. The output is the same.
- The two think filters agree, whitespace aside, exactly on texts whose blocks are all closed.
- The limiter's clean-up is invisible, and its rate bound holds, exactly when a bucket refills within one clean-up
  interval; both configurations in use satisfy this.
- `Decide` does not look at the expiry, and the gate does not look at the clock once it has its answer. A tool can
  still run after its approval has expired exactly while an approving answer can reach its gate: before the snapshot
  as long as nobody has rejected or expired the approval; in the select as long as nobody has decided, or the approving
  value is in the channel or still to be sent; afterwards if the answer was an approval (`CanRunLateIff`).
- The nDCG clamp of one evaluator is dead code; the BEIR evaluator, which counts a document as often as it is
  retrieved, stays within 1 under all falling discounts exactly when the gold documents fill no more of the retrieved
  places than there are gold documents.
- In fused rankings agreement of both sources beats any single hit exactly up to 49 candidates per source, and after
  the graph boost exactly up to 31.
- The Python reader is documented to chunk as the Go reader does. It does so exactly on texts without the characters
  U+001C to U+001F, which Python's `strip` takes for blanks and Go's `TrimSpace` does not.
- The text splitter keeps all text exactly for overlaps that are not negative. Its window loop ends exactly on the
  empty text and, for a size that is not negative, when the overlap is below the size or the text fits one window;
  on longer texts an overlap equal to the size never ends, and a larger one indexes below zero.
- The semantic chunker cuts with a fixed overlap of 50. It can take every document exactly with a maximum above 50;
  with a maximum of 50, which the settings accept, a block of 51 characters without separators is never cut to an end.
- A sync repairs stores that have drifted apart only in the rows it removes; a full re-index repairs all of it.
- A cached result can outlive the index that lists it when lifetimes shrink; with lifetimes that never shrink it
  cannot.

## Model

| member | source | states |
|---|---|---|
| `ThinkFilter.ThinkTagStreamFilter.Filter` | internal/filter/think.go:47-94 | For every chunk and every state: output plus what is still held reads, under any continuation, as the one pass over the old buffer and the chunk; outside a block only a proper prefix of the opening tag is held back, inside one no closing tag is |
| `ThinkFilter.ThinkTagStreamFilter.Flush` | internal/filter/think.go:97-106 | Returns exactly what the one pass makes of the held text: the buffer outside a block, nothing inside; the buffer is empty afterwards |
| `ThinkFilter.RunStream` | internal/filter/think.go:29-106 | However a text is cut into chunks, the outputs and the flush together equal the one-pass removal of blocks; after every chunk the output so far is the longest text that is certain whatever comes next |
| `ThinkFilter.OutputIsLongest` | internal/filter/think.go:70-91 | Holding back is never needless: what is withheld (at most six characters) some continuation turns into a block |
| `ThinkFilter.NoStraddle` | internal/filter/think.go:59-84 | A tag can hide across the boundary only if the buffer ends in a proper prefix of it, whatever text follows |
| `ThinkFilter.OnePartialOpen` | internal/filter/think.go:123-131 | At most one proper prefix of the opening tag ends a text, so the order of the search does not matter |
| `ThinkStrip.FirstMatchIsLeftmostShortest` | internal/filter/think.go:16-16 | The pattern's match is the leftmost and then the shortest; without a match no opening tag is followed by a closing one |
| `ThinkStrip.ReplaceVersusOnePass` | internal/filter/think.go:16-23 | Whitespace aside, the one-shot filter equals the one pass on texts whose blocks are closed and keeps strictly more on all others |
| `ThinkStrip.StripAgreesIffClosed` | internal/filter/think.go:21-23 | Stream and one-shot filter agree up to whitespace if and only if every block is closed |
| `ThinkStrip.StripKeepsTheTextAround` | internal/filter/think.go:16-23 | To the character: every text is a row of closed blocks with text around them and whitespace behind them, and what the one-shot filter leaves is the text around them, trimmed |
| `ThinkStrip.StripIsAround` | internal/filter/think.go:16-23 | The same for every way to write a text as such a row |
| `ThinkStrip.StreamKeepsTheTextAround` | internal/filter/think.go:47-106 | Of the same row the one pass, and so the stream, leaves the text around the blocks with their whitespace, up to a block that is never closed |
| `Approval.RecordRoundTrip` | internal/approval/manager.go:244-283 | A decision read back from the record is the one that was written, and everything else in the record survives |
| `Approval.Manager.Create` | internal/approval/manager.go:99-127 | Rejects an empty action; otherwise adds one pending approval of that request with an empty channel, which expires one lifetime from now and whose hash no request has but those for the same action; nothing else is touched |
| `Approval.HashIffSameAction` | internal/approval/manager.go:216-235 | Two requests have the same hash if and only if tenant, user, source, action, tool and tool input are all the same |
| `Approval.OtherInputOtherHash` | internal/approval/manager.go:216-235 | Other arguments give another hash; another session or reason does not |
| `Approval.Manager.SetDecisionLocked` | internal/approval/manager.go:244-259 | The locked part: only a pending, known approval is changed, and the result says which of the cases it was |
| `Approval.Manager.SetDecisionSend` | internal/approval/manager.go:261-266 | The send after the unlock fills an empty channel and is dropped on a full one |
| `Approval.Manager.Decide` | internal/approval/manager.go:157-169 | Anything but approve and reject is refused without a change; otherwise the record, with the decision, its decider, reason and time, and then the channel are written exactly when the approval is pending |
| `Approval.Manager.Snapshot` | internal/approval/manager.go:129-142 | Wait's snapshot: a decision exactly when the approval is decided, and then the recorded one |
| `Approval.Manager.Receive` | internal/approval/manager.go:146-149 | The receive branch takes the value out of the channel |
| `Approval.Manager.ValidateApproved` | internal/approval/manager.go:199-214 | Accepted if and only if known, approved, not past its expiry, and made for the same action: the same six fields, the tool input among them; otherwise the error of the first of these, in the source's order, that fails |
| `ApprovalRuns.StepKeepsInv` | internal/approval/manager.go:129-283 | Every single step of every caller keeps the protocol invariant: records and channels consistent, every waiter and gate justified |
| `ApprovalRuns.ExecKeepsInv` | internal/approval/manager.go:99-283 | So does every interleaving, and it never undoes a decision, a record or a tool run |
| `ApprovalRuns.DecidedForever` | internal/approval/manager.go:244-259 | In every interleaving an approval leaves pending at most once, and its record never changes afterwards |
| `ApprovalRuns.OneSendCarriesTheDecision` | internal/approval/manager.go:244-267 | Each channel gets at most one value, that value is the recorded decision, whoever is about to send finds the channel empty, and a decision that has not been sent has somebody about to send it |
| `ApprovalRuns.WaitReturnsTheStoredDecision` | internal/approval/manager.go:129-155 | What Wait takes from the record or the channel, and every approve or reject it returns, is the stored decision, for ever |
| `ApprovalRuns.ToolRunsOnlyApproved` | internal/service/runtime_agent.go:296-387 | Where there is an approval manager, a high-risk tool body runs only after the approval created by that very call, for its own arguments and with a hash that no other arguments have, is recorded approved, and it stays so; without a manager or an action no approval is made |
| `ApprovalRuns.WaitCanAlwaysReturn` | internal/approval/manager.go:129-155 | No waiter is ever stuck: from every reachable state it can return by its own steps and the clock |
| `ApprovalRuns.TimerExpiresIffUndecided` | internal/approval/manager.go:150-153 | After the timer branch the stored status is, and stays, expired if and only if it was neither approved nor rejected before |
| `ApprovalRuns.TwoWaitsCanDisagree` | internal/approval/manager.go:144-154 | A run in which one waiter returns the approval and another one "expire", while the record says approved |
| `ApprovalExpiry.WaitsAgreeIff` | internal/approval/manager.go:129-155 | In every run two finished waits of one approval have the same verdict if and only if both or neither come from a timer, or the approval is recorded as expired |
| `ApprovalExpiry.CanRunLateIff` | internal/service/runtime_agent.go:350-387 | From every reachable state some continuation runs a gate's tool, on its approval, after the expiry if and only if an approving answer can still reach the gate |
| `ApprovalExpiry.ExecKeepsClosed` | internal/approval/manager.go:129-267 | Once no approving answer can reach a gate, none ever can, whatever all callers do |
| `ApprovalExpiry.NeverExpiresEarly` | internal/approval/manager.go:144-154 | In every run no wait answers "expire", whether from its timer, the channel or the record, and no record says so, before one lifetime has gone by since the approval was created |
| `ApprovalExpiry.ToolCanRunLate` | internal/service/runtime_agent.go:350-387 | A run in which the tool body executes, on its own approval, after that approval has expired |
| `ApprovalExpiry.ClockDoesNotDecide` | internal/approval/manager.go:244-267 | In every state, the locked write of a decision and its result are the same however much time has passed, expiry or not |
| `ApprovalExpiry.OneRunPerApproval` | internal/service/runtime_agent.go:296-387 | In every run one approval lets at most one tool body run, and one call runs its body at most once |
| `ToolTracker.TenAreEnough` | internal/service/runtime_agent.go:493-536 | Ten remembered calls decide both repetition rules as the whole history does, and count the first repetition in full |
| `ToolTracker.FirstWarningOnly` | internal/service/runtime_agent.go:503-533 | With all calls remembered there is one warning between resets, at the first repetition, and it counts exactly three or five calls |
| `ToolTracker.WarnsIff` | internal/service/runtime_agent.go:503-533 | A call is warned of if and only if it completes, for the first time since the reset, three calls of one tool with the same arguments but for blanks around them, or five calls of one tool; the first rule goes first |
| `ToolTracker.ToolCallTracker.Record` | internal/service/runtime_agent.go:493-536 | The answer of the bounded tracker is the one all calls since the last reset give |
| `ToolTracker.ToolCallTracker.CountBack` | internal/service/runtime_agent.go:504-512 | The backward loop finds the length of the agreeing run at the end |
| `ToolTracker.ToolCallTracker.Reset` | internal/service/runtime_agent.go:538-543 | Forgets all calls and the warning |
| `RateLimiter.TokenBucket.Allow` | internal/handler/rate_limiter.go:35-49 | Refills up to the maximum, then takes one token exactly when one is there |
| `RateLimiter.Limiter.Allow` | internal/handler/rate_limiter.go:66-81 | Creates the key's bucket when missing and serves it; no other key's bucket changes |
| `RateLimiter.Limiter.Cleanup` | internal/handler/rate_limiter.go:83-97 | Removes exactly the buckets idle for longer than the interval, whatever the iteration order |
| `RateLimiter.TokensInRange` | internal/handler/rate_limiter.go:35-49 | On every trace, with or without sweeps, tokens stay between 0 and the burst size |
| `RateLimiter.SweepsInvisibleIff` | internal/handler/rate_limiter.go:35-97 | The answers on all traces with sweeps anywhere equal those of a limiter that never sweeps if and only if requests per minute times the interval is at least sixty times the burst size |
| `RateLimiter.ConfigurationsAreInvisible` | internal/handler/rate_limiter.go:117-122 | Both configurations in use meet that |
| `RateLimiter.RateBound` | internal/handler/rate_limiter.go:35-97 | Whatever happened before, sixty times the requests of a key let through between s and t are at most sixty bursts plus requests per minute times (t - s), sweeps included |
| `RateLimiter.PassesIff` | internal/handler/rate_limiter.go:35-81 | After every trace a request passes if and only if its key has no bucket, or sixty times the tokens left plus requests per minute times the time since make up sixty |
| `RateLimiter.AfterBurst` | internal/handler/rate_limiter.go:35-81 | A burst passes in full, and the next request if and only if requests per minute times the time since is at least sixty |
| `RateLimiter.RateBoundedIff` | internal/handler/rate_limiter.go:35-97 | That bound holds on all traces if and only if the burst size is not negative and a bucket refills within one interval |
| `Counting.OccInjective` | internal/handler/api.go:3446-3454 | No two chunks of one list get the same (hash, occurrence) key |
| `IncrementalSync.NumberedIff` | internal/handler/api.go:3450-3468 | A (hash, occurrence) key exists exactly when the occurrence number is below the count of the hash |
| `IncrementalSync.DiffChunksByOccurrence` | internal/handler/api.go:3445-3481 | Of every hash the first min(old, new) stored chunks are retained, the later ones removed, the later new ones added, in any order the maps give; a row without a hash is reported |
| `SyncStores.CountKept` | internal/handler/api.go:3445-3481 | Per content, exactly min(old, new) stored rows survive |
| `SyncStores.CountNew` | internal/handler/api.go:3471-3480 | Per content, exactly the missing number of new ids is given out |
| `SyncStores.ContentsMatch` | internal/handler/api.go:3484-3618 | Survivors and new rows together hold every content exactly as often as the new text does |
| `SyncStores.NothingToDo` | internal/handler/api.go:3445-3481 | Stored chunks that match the contents as a multiset give an empty diff |
| `SyncStores.SecondDiffIsEmpty` | internal/handler/api.go:3484-3618 | After a sync, the diff against the same contents adds and removes nothing |
| `SyncStores.Stores.IncrementalSync` | internal/handler/api.go:3484-3618 | Afterwards the document's rows equal the new contents as a multiset, every new row and its vector carry the position and the content of a new chunk, no two the same position, other documents are untouched, no more was written or deleted than needed, stores that agreed on the contents still do, and the ids that only one store has are exactly the earlier ones less the removed rows: none, if there were none |
| `SyncStores.Stores.FullReindex` | internal/handler/api.go:3621-3639 | From stores that may disagree: the new contents, under the same ids and with the same contents and positions in both stores, and every old row of the document gone |
| `Chunker.RecursiveCharacterChunker.Run` | internal/document/loader.go:249-301 | For every size and overlap, wherever all window loops it comes to end, the recursive merging loop returns the greedy split: runs of consecutive pieces joined with the separator, each as long as fits, with pieces that are too long cut again |
| `Chunker.SplitTextIsTheGreedySplit` | internal/document/loader.go:262-296 | There is exactly one way to group the pieces into runs in which every piece fits behind those before it and none could have taken the first piece of the next; its texts, with the overlap added, are the result, and nothing else is |
| `Chunker.ShortTextIsKept` | internal/document/loader.go:249-301 | With the separators in use a text that fits the chunk size comes back as one chunk, without the empty lines in front of it |
| `Chunker.SplitRoundTrip` | internal/document/loader.go:262-262 | Splitting and joining give the text back, and no piece holds the separator |
| `Chunker.AlwaysEndsIff` | internal/document/loader.go:249-320 | For a positive size and separators that end with the empty one, splitText ends on every text if and only if the overlap is below the size |
| `Chunker.RecursiveCharacterChunker.Overlapped` | internal/document/loader.go:323-339 | Every chunk but the first is preceded by the last characters of the one before it, as many as the overlap or all |
| `Chunker.NoTextLost` | internal/document/loader.go:249-339 | Through all levels, for every overlap that is not negative: but for characters of separators the input is a subsequence of the concatenated chunks, and equals it when the overlap is 0 |
| `Chunker.KeepsTextIff` | internal/document/loader.go:249-339 | With separators that end with the empty one, splitText keeps every text on which it ends, but for characters of separators, if and only if the overlap is not negative |
| `Chunker.SplitTextSizes` | internal/document/loader.go:249-339 | With the empty separator last, no chunk is empty or longer than the size plus one overlap per separator, a negative overlap adding nothing |
| `Chunker.DefaultSizes` | internal/document/loader.go:162-168 | The separators in use bound chunks by the size plus eleven overlaps |
| `Chunker.WindowsKeepTextIff` | internal/document/loader.go:304-320 | The bare window loop keeps every text on which it ends if and only if the overlap is not negative |
| `Windows.SpansShape` | internal/docreader/local_engine.go:325-347 | The windows start one step apart, all but the last are full, and only the last one reaches the end |
| `Windows.NeighboursShare` | internal/docreader/local_engine.go:325-347 | Neighbouring windows share exactly the overlap |
| `Windows.DroppingOverlapRebuilds` | internal/docreader/local_engine.go:325-347 | Dropping the shared part of every window rebuilds the text |
| `Windows.ChunkText` | internal/docreader/local_engine.go:307-348 | For every integer size and overlap the loop ends and gives the windows of the normalised parameters that are not blank, trimmed, in order, numbered and with their positions |
| `Windows.ChunkTextPython` | docker/mineru/app.py:226-254 | The Python reader gives the contents of the same windows under Python's strip |
| `Windows.ReadersAgreeIff` | docker/mineru/app.py:226-254 | Both readers give the same contents for every size and overlap if and only if the text holds none of U+001C to U+001F |
| `Windows.ReadersDisagree` | docker/mineru/app.py:228-229 | A text of one such character with the sizes in use: one chunk from Go, none from Python |
| `Windows.SplitByCharCount` | internal/document/loader.go:304-320 | For every size and overlap, wherever the loop ends, the untrimmed windows of that size and step: blanks for a size of 0 |
| `Windows.LoopEndsIff` | internal/document/loader.go:308-317 | For every size and overlap the loop leaves normally after some number of rounds if and only if the text is empty, or the size is not negative and the overlap is below it or the text fits one window |
| `OrderStatistics.OrderStatistic` | internal/document/semantic_chunker.go:202-208 | The value at a position of the sorted list, in terms of counts over the unsorted one |
| `Semantic.SemanticChunker.FindBreakpoints` | internal/document/semantic_chunker.go:190-218 | The breakpoints are the positions, in order, with a similarity at most the threshold; the percentile one is a similarity and yields at least its rank plus one of them, and at most the rank plus its multiplicity |
| `Semantic.GroupSentences` | internal/document/semantic_chunker.go:221-244 | Sorted breakpoints cut the sentences into consecutive runs, and joining the groups gives the joined sentences |
| `Semantic.GroupsCut` | internal/document/semantic_chunker.go:221-244 | The groups are exactly what lies before the first, between neighbouring and behind the last of the breakpoints inside the list |
| `Semantic.JoinJoined` | internal/document/semantic_chunker.go:221-271 | Joining joined consecutive runs with single blanks gives the joined parts |
| `Semantic.MergeSmall` | internal/document/semantic_chunker.go:248-267 | Every merged block but the last reaches the minimum; no text but blanks is lost; without empty groups the joined text is kept exactly and the blocks are the greedy runs, none longer than it takes |
| `Semantic.SemanticChunker.BalanceChunks` | internal/document/semantic_chunker.go:247-284 | Block by block: a merged block that fits stays, and one that does not becomes exactly the chunks of the text splitter that are not blank; where every block fits, the result is the greedy blocks and no text but blanks is lost; every block is bounded |
| `Semantic.SemanticChunker.Chunk` | internal/document/semantic_chunker.go:42-100 | The documents are exactly the balanced blocks of the sentences cut at the breakpoints that are not blank, trimmed, each once and in order; with fewer than three sentences they are the chunks of the text splitter that are not blank; text is kept, in order, but for blanks and separators, and documents are bounded |
| `Text.TrimSpaceIs` | internal/document/semantic_chunker.go:76-76 | Trimming takes blanks, and only blanks, off both ends until none is left there |
| `Semantic.SplittableIff` | internal/document/semantic_chunker.go:273-277 | The splitter that cuts large blocks ends on every text if and only if the maximum is above its fixed overlap of 50 |
| `Semantic.FiftyCannotCut` | internal/handler/api.go:4311-4316 | A block of 51 characters without separators that the smallest accepted chunk size never cuts to an end |
| `Semantic.ChunksEverythingIff` | internal/document/semantic_chunker.go:42-100 | The chunker can take every document if and only if its maximum is above 50 |
| `RankFusion.Fuse` | internal/container/retriever_provider.go:333-453 | The result is sorted by score, has distinct eligible documents with their RRF scores, has topK of them if there are that many, and no dropped eligible document beats a kept one; each was found twice or is not blank, and has the first content found for it |
| `RankFusion.ScoreOfRanks` | internal/container/retriever_provider.go:328-379 | Rank i of the vector results is worth 1/(60 + i) and rank j of the keyword results 0.8/(60 + j), and a document found by both has the sum |
| `RankFusion.EligibleIff` | internal/container/retriever_provider.go:369-408 | A document may be returned if and only if it was found twice, or the first content found for it, vector results first, is not blank |
| `RankFusion.AheadInBoth` | internal/container/retriever_provider.go:333-453 | A document ranked ahead of another in both sources scores strictly higher |
| `RankFusion.AgreementWinsIff` | internal/container/retriever_provider.go:333-453 | For sources of at most L distinct documents, every document found by both outscores every document found by one if and only if L <= 49 |
| `RankFusion.BothComeFirst` | internal/container/retriever_provider.go:129-147 | With twice topK <= 24 candidates per source, every document found by both stands before every one found by only one, and is not crowded out |
| `RankFusion.ScoreRange` | internal/container/retriever_provider.go:333-453 | RRF scores of distinct lists lie between 0 and 2/61 |
| `RankFusion.Boost` | internal/container/retriever_provider.go:189-206 | The second sort gives a sorted permutation of the boosted documents |
| `RankFusion.ClampIsDead` | internal/container/retriever_provider.go:566-574 | On fused scores the clamp never acts, and a confirmed document never falls behind one it was not behind |
| `RankFusion.AgreementOutlastsBoostIff` | internal/container/retriever_provider.go:189-206 | Whatever the graph confirms, every document found by both keeps outscoring every document found by one if and only if the sources have at most 31 documents |
| `RankFusion.BothStayFirst` | internal/container/retriever_provider.go:129-206 | So for topK <= 15 every document found by both stands before every one found by only one in the boosted ranking too |
| `ScopedSearch.ScopedVectorDb.Search` | internal/container/retriever_provider.go:671-693 | The growing candidate windows give the documents of the allowed knowledge bases in the last window, in order, each as often as it occurs, up to topK of them; a topK that is not positive gives all of the first window |
| `ScopedSearch.ScopedVectorDb.SearchKeyword` | internal/container/retriever_provider.go:695-712 | The same for one window of max(100, 20 * topK) |
| `ScopedSearch.ScopedVectorDb.FilterDocs` | internal/container/retriever_provider.go:714-745 | Keeps the documents that name an allowed knowledge base, and no others, in order, and stops at topK |
| `ScopedSearch.PickIsUnique` | internal/container/retriever_provider.go:714-745 | Told by the knowledge bases of the documents alone there is only one such result, and it is the one returned |
| `ScopedSearch.SearchVersusIdeal` | internal/container/retriever_provider.go:671-745 | For every topK the scoped search is a prefix of the ideal scoped ranking, and all of it if and only if the deciding window holds topK matches or no match lies beyond it |
| `ScopedSearch.KeywordVersusIdeal` | internal/container/retriever_provider.go:695-745 | The same of the keyword search and its one window |
| `ScopedSearch.SmallCorpusIsExact` | internal/container/retriever_provider.go:671-693 | A corpus of at most 5000 documents, or of 50 * topK, is searched completely |
| `Metrics.DcgOverIdcg` | cmd/beir_eval/main.go:428-451 | The loops compute discounted gain over ideal gain |
| `Metrics.CalcNdcg` | cmd/eval/main.go:553-580 | The same quotient, cut at 1 |
| `Metrics.DcgAtMostIdeal` | cmd/eval/main.go:553-580 | h hits are worth at most h hits at the top, and as much only there |
| `Metrics.NdcgBounds` | cmd/eval/main.go:553-580 | With no more hits than relevant documents nDCG lies in [0, 1], and is 1 exactly for an ideal list |
| `Metrics.NdcgBoundedIff` | cmd/eval/main.go:553-580 | It is at most 1 under every falling discount if and only if no more hits are counted than there are relevant documents |
| `Metrics.HitsConsumeGold` | cmd/eval/main.go:373-396 | Each counted hit uses up a gold item, so there are never more hits than gold items |
| `Metrics.RelevanceIff` | cmd/eval/main.go:373-396 | A reference counts if and only if it matches a gold item that no reference before it matches |
| `Metrics.MatchGoldToReference` | cmd/eval/main.go:433-452 | Exactly the gold items that stand in the normalised id, source or content of the reference |
| `Metrics.Deduplicate` | cmd/eval/main.go:356-369 | Keeps the references with a key that none before them has, in order; keys are bytes, a long content cut after 256 of them |
| `Metrics.DistinctKeys` | cmd/eval/main.go:356-369 | Of every key but the empty one exactly one reference is kept |
| `Metrics.KeyTellsApart` | cmd/eval/main.go:414-431 | References named in the same way have the same key if and only if their ids agree, or without ids their sources, or without both their contents in the first 256 bytes |
| `Metrics.RetrievalMetrics` | cmd/eval/main.go:340-408 | Recall, precision, hit and reciprocal rank of the first match as defined, all within [0, 1]; the nDCG is the unclamped one |
| `Metrics.BeirMetrics` | cmd/beir_eval/main.go:381-422 | The same measures over ids, a repeated document counting once for all but nDCG |
| `Metrics.BeirNdcgBoundedIff` | cmd/beir_eval/main.go:399-451 | The BEIR nDCG is at most 1 under every falling discount if and only if gold ids fill no more of the retrieved places than there are gold ids |
| `Metrics.BeirNdcgExactIff` | cmd/beir_eval/main.go:399-451 | It equals the deduplicated one, which is at most 1, if and only if no gold id is retrieved twice; otherwise it is larger |
| `Metrics.BeirNdcgCanExceedOne` | cmd/beir_eval/main.go:399-451 | One gold document retrieved twice scores above 1 |
| `Percentile.PercentileEval` | cmd/eval/main.go:582-603 | The nearest-rank percentile for every integer p, the smallest or largest value outside 1 to 100 |
| `Percentile.PercentileBeir` | cmd/beir_eval/main.go:453-467 | The same percentile from different branches |
| `Percentile.NearestRankIsUnique` | cmd/eval/main.go:582-603 | There is only one such value, so both evaluators agree on all inputs |
| `RetrievalCache.RetrievalCacheStore.GetRetrievalResult` | internal/rediscache/retrieval_cache.go:55-68 | A hit exactly when a live entry is stored under the trimmed key, and then its result |
| `RetrievalCache.RetrievalCacheStore.SetRetrievalResult` | internal/rediscache/retrieval_cache.go:70-87 | Stores the result and lists its key under every knowledge base it mentions, in any order of the ids; nil changes nothing |
| `RetrievalCache.RetrievalCacheStore.InvalidateKnowledgeBase` | internal/rediscache/retrieval_cache.go:89-106 | Deletes the listed results and the index, nothing for a blank id |
| `RetrievalCache.RetrievalCacheStore.KnowledgeBaseIdsFromResult` | internal/rediscache/retrieval_cache.go:108-129 | The trimmed non-empty ids that the documents mention, each once |
| `RetrievalCache.CoveredIff` | internal/rediscache/retrieval_cache.go:89-106 | Every later invalidation leaves no live result of its knowledge base if and only if every live result is listed in a live, no earlier expiring index of every base it mentions |
| `RetrievalCache.SetKeepsCoveredIff` | internal/rediscache/retrieval_cache.go:70-87 | Storing keeps that invariant if and only if the result mentions no base, or its lifetime is positive and no live result sharing a base outlasts it |
| `RetrievalCache.InvalidateKeepsCovered` | internal/rediscache/retrieval_cache.go:89-106 | Invalidating a base keeps the invariant for all others |
| `RetrievalCache.ReachableIsCovered` | internal/rediscache/retrieval_cache.go:70-106 | With positive lifetimes that never shrink (one fixed lifetime among them) every reachable state has it |
| `RetrievalCache.InvalidationIsComplete` | internal/rediscache/retrieval_cache.go:89-106 | So after an invalidation no live result mentions the base, whatever was stored, overwritten or expired before |
| `RetrievalCache.HitIsFresh` | internal/rediscache/retrieval_cache.go:55-106 | In every such run a hit is the latest result stored under its key, within its lifetime, and no base it mentions has been invalidated since |
| `RetrievalCache.UntouchedIsHit` | internal/rediscache/retrieval_cache.go:55-106 | Conversely the latest result is found within its lifetime unless a base has been invalidated that some result under the key mentioned |
| `RetrievalCache.ShrinkingLifetimeLeavesStale` | internal/rediscache/retrieval_cache.go:70-106 | A run with a shrinking lifetime after which an invalidated base is still mentioned by a live result |
| `GraphRebuild.GatheredIsAll` | internal/graphrag/extractor.go:324-336 | Of distinct node objects, each kept one ends with the attributes of all nodes of its name, in order |
| `GraphRebuild.FirstsInOrder` | internal/graphrag/extractor.go:325-336 | The nodes kept are exactly those whose name no node before them has, in order |
| `GraphRebuild.LooplessInOrder` | internal/graphrag/extractor.go:339-342 | The relations kept are exactly those that are not self-loops, in order |
| `GraphRebuild.UnknownInOrder` | internal/graphrag/extractor.go:344-354 | The nodes added stand for exactly the names without a node, in the order in which they are mentioned first |
| `GraphRebuild.EndsInOrder` | internal/graphrag/extractor.go:344-354 | Relation after relation, the first end is mentioned before the second |
| `GraphRebuild.RebuildGraph` | internal/graphrag/extractor.go:324-358 | In place: first nodes of each name kept in order with their merged attributes, one empty node per missing endpoint in order of mention, self-loops dropped, other relations in order; names unique and both ends of every relation present |
| `GraphRebuild.MergeDuplicates` | internal/graphrag/extractor.go:325-336 | The node loop, for any node objects, aliased ones included |
| `GraphRebuild.AddMissing` | internal/graphrag/extractor.go:338-357 | The relation loop: the relations that are not self-loops, and a new node for every unknown end |
| `GraphRebuild.CleanIff` | internal/graphrag/extractor.go:324-358 | The clean-up leaves a graph alone if and only if it is clean, so a second run changes nothing |

## Left out

- `RateLimiter.RateBound`: the condition on rate, interval and burst is needed, as `RateBoundedIff` shows; requests per minute below zero are not modelled.
- `Approval.Manager.Decide`: the method runs both halves of `setDecision` without a break; all interleavings are in `ApprovalRuns`.
- `ApprovalRuns.ToolRunsOnlyApproved`: events, tracing and what the tool body does are not modelled; a cancelled context is one more step a waiter may take.
- `Chunker.RecursiveCharacterChunker.Run`: the ways in which a window loop fails to end, on texts longer than the size: for an overlap equal to the size it repeats its first window for ever, for a larger one it indexes below zero, and a negative size ends a window before it begins. `Ends` says on which texts that happens.
- `Windows.SplitByCharCount`: likewise; `LoopEndsIff` shows that nothing else is left out.
- `Semantic.SemanticChunker.Chunk`: sentence splitting, embedding and cosine similarity are inputs; blocks that its fixed overlap of 50 leaves no way to cut, maxima that are not positive where something has to be cut, and a percentile so negative that the source indexes out of range are excluded; an empty group that would start a block is lost with its blank.
- `Semantic.GroupSentences`: breakpoints below zero, on which the source panics, are excluded.
- `SyncStores.Stores.IncrementalSync`: store calls succeed, new ids are fresh, and an id in both stores belongs to one document; embedding batches and the order of the added indices are not modelled, rows may come in any order, and nothing is stated about the order of the document's chunks afterwards.
- `RankFusion.Fuse`: documents are values, so sharing and the in-place score update of one document object are not captured; metadata, match types and the graph context document are not modelled; a nil document is one with an empty id.
- `ScopedSearch.ScopedVectorDb.Search`: the base ranking for the query is fixed during one search; the similarity search of the store itself is not part of this model.
- `Metrics.RetrievalMetrics`: log2 discounts are any positive strictly falling function, and normalisation of names is a parameter.
- `Percentile.PercentileEval`: values are any reals; the rounding of p / 100 in floating point is not modelled.
- `RetrievalCache.RetrievalCacheStore.SetRetrievalResult`: operations are atomic (the source reads the index and deletes in separate round trips); JSON is taken as faithful; a result key that spells an index key, the client library's rounding of durations and its KeepTTL value are not modelled.
- `GraphRebuild.RebuildGraph`: backing arrays shared by the attribute slices of different nodes, and nil nodes or relations, are not modelled.
- `ToolTracker.ToolCallTracker.Record`: the mutex, the time stamps and the wording of the warnings are left out.
- SHA-256 and the JSON it is taken of are injective, UUIDs are fresh, clock readings are parameters that never decrease.
- Floating-point rounding: scores, durations and thresholds are reals.
- HTTP handlers, authentication, configuration, logging, metrics export, the frontend, and calls to models, databases and brokers: wiring without deep invariants.
- Equality of the streaming and the blocking pipeline is not claimed: only one of them applies the evidence gate.
- Vector, keyword and graph retrieval inside the stores (foreign engines), the Markdown chunker (one pass over the lines that starts a chunk at each heading and prefixes the others), URL and prompt rules (keyword tables).
