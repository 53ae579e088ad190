# Verified model of IndicRAG's cores

IndicRAG answers questions over a corpus of scientific papers. This project models the parts of
it that keep their own state or follow a protocol, and proves what they promise. Each Dafny file
is one component; a loop or an object of the Python source is a method or a class here, proved
against a specification function whose properties are then lemmas.

| files | component |
|---|---|
| `Bm25Spec`, `Bm25Ranking`, `Bm25Index` | the BM25 inverted index and its ranking, with tombstones, document frequencies, compaction and a cache file; stated over one map from live chunk id to token bag |
| `VectorStore`, `ThreeStores`, `Reconcile`, `Reindex`, `ChunkIds`, `ChromaBreaker` | the system of record and its derived views: batched upserts with rollback, the delete cascade, ingest, refresh, the reconciler, replay and backfill, and the breaker before ChromaDB |
| `Transactions`, `WatchClaims` | SQLite: batches, savepoints and commits; the mirror of the ingest log; the compare-and-set claim of due watches |
| `Numbering`, `Citations`, `Report` | one paper, one citation number, from the prompt through compaction to a whole report |
| `Ndcg` | the evaluation metric and its bound |
| `RateLimiter`, `Attempts`, `Failover`, `Thinking` | the sliding-window limiter, the list of paths to try, the circuit breaker and streaming failover, Gemini's thinking-config ladder |
| `Interleave`, `ToolExecutor`, `AgentGraph` | fair interleaving of passages, their collection, and the agent loop |
| `JsonScanner` | the scanner for the first balanced JSON object, against objects as sections 4 and 7 of RFC 8259 have them |

How the outside world appears. The tokenizer, the logarithm of idf (only: positive above 1, and
increasing where documents are compared), the rank discount of nDCG (only: positive and falling), what a backend, a tool or ChromaDB answers,
and every reading of a clock are parameters, so that each theorem holds for all of them. A call
that may fail comes with the description of its failure: which upsert fails, which of its rows
land anyway and when, which try of a cascade step raises and whether it did its work first.
Workers and threads are sequences of the steps that the source takes under its locks. Reals stand
for floating point. Ids, titles, texts and names are types of which only equality is known.

Where the code does less than its comments say, the code is modelled, the failing input is given,
and the exact condition is proved, both ways:

- batches are atomic under every failure exactly when no swallowed nested batch may raise after a
  write (`Transactions.AtomicExactly`, `SwallowedInnerBatchIsKept`);
- the index mirror is lost exactly by a deletion stopped between its two statements
  (`Transactions.MirrorLostExactly`, `HalfDeletionIsCommitted`);
- an ingest or a delete keeps log, ChromaDB and lexical index in step exactly under its condition
  on what failed (`ThreeStores.IngestKeepsExactly`, `DeleteKeepsExactly`, `SwallowedDeleteWitness`),
  and for a failed add on its upsert, probe and rollback (`HowAddsFail`);
- a failed add leaves the ids as they were exactly when its rollback missed no new id and took no
  old one for good (`VectorStore.FailedAddIsExact`, `ThreeStores.StrayChunkWitness`,
  `BlindRollbackWitness`);
- a cached lexical index has the corpus of a build exactly when it was written from the same texts
  (`Bm25Index.GetOrBuildIndex`, `OldTextIsServed`);
- a call to Gemini may send a level known to be refused exactly when one lies ahead of its first
  config (`Thinking.ResentExactly`, `KnownLevelIsResent`);
- claims of a watch are exclusive exactly when the lease is positive (`WatchClaims.ExclusiveExactly`,
  `WithoutLeaseBothWin`);
- an agent run ends in the finalizer exactly when it meets no reply of three malformed kinds
  (`AgentGraph.EveryRunEndsInTheFinalizer`, one witness run each);
- a draft found unfaithful ships without its caveat exactly when the model accepts it, or it shows
  progress on its third verdict, on an action off the list or at the end of the budget
  (`AgentGraph.UnverifiedShipsExactly`, `ThirdVerdictShipsUnverified`, `FirstVerdictShipsUnverified`);
- a report's reference list has no paper twice exactly when sections agree on its stored title
  (`Report.ReferencesAreDistinctExactly`, `OnePaperListedTwice`);
- a replay that completes restores the log exactly when its batch size is positive and the reset
  left only logged ids (`Reindex.ReplayRestoresExactly`, `SurvivorWitness`);
- chunk ids of different papers collide exactly when `ChunkIds.WhenPapersCollide` says
  (`PapersDoCollide`).

`dafny verify dfyconfig.toml` checks the project.

## Model

| member | source | states |
|---|---|---|
| `Bm25Index.Run` | bm25_search.py:82-203 | Incremental equals rebuild: after any sequence of build, add (re-added and in-batch duplicate ids included), remove, compact and save-then-load, the index stands for exactly the id-to-bag map those operations denote |
| `Bm25Index.Perform` | bm25_search.py:82-203 | Each single operation takes the denoted corpus of the index to the operation's denotation of it, and keeps the six tables consistent |
| `Bm25Index.FreshBuildSpellsTheCorpus` | bm25_search.py:82-92 | Building from scratch from the surviving documents, in any order, denotes the same corpus the incremental index has |
| `Bm25Index.LastTextCounts` | bm25_search.py:103-123 | Of the pairs with one id the last one counts, and documents whose id is not among the pairs stay as they were |
| `Bm25Index.OperationsMean` | bm25_search.py:82-203 | What each operation does to the set of live ids, id by id |
| `Bm25Index.BM25Index.constructor` | bm25_search.py:47-65 | A new index is consistent and stands for the empty corpus |
| `Bm25Index.BM25Index.CountsAreTheCorpus` | bm25_search.py:68-75 | The live count, the average length, the running total and every df entry are those of the corpus: df[t] is the number of live documents containing t |
| `Bm25Index.BM25Index.Tombstone` | bm25_search.py:140-148 | Removes exactly one document from the corpus and keeps every table consistent |
| `Bm25Index.BM25Index.DecrementDf` | bm25_search.py:146-148 | Takes one from df for exactly the terms of the dead slot; the guard of the source is never false |
| `Bm25Index.BM25Index.Append` | bm25_search.py:109-123 | Adds one document whose id is not live, leaving all others as they were |
| `Bm25Index.BM25Index.PostTerms` | bm25_search.py:113-122 | Every distinct token gains one posting with its multiplicity and one document in df |
| `Bm25Index.BM25Index.LiveSlots` | bm25_search.py:104 | The id-to-slot dictionary an add starts from has every live id at its only live slot |
| `Bm25Index.BM25Index.AddUnlocked` | bm25_search.py:103-123 | Adding pairs one by one is adding them to the corpus, later pairs winning over earlier and live ones |
| `Bm25Index.BM25Index.Replace` | bm25_search.py:105-123 | One turn of the add loop: the old copy goes, the new one stands under the same id |
| `Bm25Index.BM25Index.Build` | bm25_search.py:82-92 | Forgets everything and stands for the given pairs, the last of equal ids winning |
| `Bm25Index.BM25Index.RemoveDocuments` | bm25_search.py:125-138 | Removes exactly the given ids, and returns how many of them were live |
| `Bm25Index.BM25Index.RebuildDerived` | bm25_search.py:150-163 | df and the per-slot term sets are recovered from the postings alone: if the stored tables are right, the loaded index is consistent |
| `Bm25Index.BM25Index.Derive` | bm25_search.py:150-163 | The recomputed df counts live documents and the recomputed term sets are the documents' own |
| `Bm25Index.BM25Index.Compact` | bm25_search.py:169-203 | No tombstone is left, the corpus is unchanged, and the number of freed slots is returned |
| `Bm25Index.BM25Index.MoveLiveSlots` | bm25_search.py:181-189 | Survivors keep their order and each live slot is sent to its rank among them |
| `Bm25Index.BM25Index.RenumberPostings` | bm25_search.py:191-197 | Every postings list loses exactly its dead entries, the others renumbered, and df is its length |
| `Bm25Index.BM25Index.Search` | bm25_search.py:206-239 | The hits are a top-k by naive BM25 among exactly the live documents sharing a query term, with their exact scores, all positive, and no omitted document outscores a returned one; whatever outranks a hit in counts alone, with no query term less often, no more words and one of these strictly, or with a rarer query term as often in as many words, is returned before it |
| `Bm25Ranking.ContributionFormula` | bm25_search.py:224-233 | A term that occurs contributes, multiplied out, exactly ln(idf) times its multiplicity times k1 + 1 over the multiplicity plus k1 times the length norm, in counts of the corpus |
| `Bm25Ranking.IdfLaw` | bm25_search.py:227 | The argument of the logarithm times df + 1/2 is n + 1 |
| `Bm25Ranking.TermOrder` | bm25_search.py:224-233 | Which of two documents a term favours: exactly the one with the larger multiplicity relative to its length norm |
| `Bm25Ranking.MoreAndShorter` | bm25_search.py:224-233 | A contribution grows with the multiplicity and does not grow with the length; it falls with the length when b and k1 are positive |
| `Bm25Ranking.RarerCountsMore` | bm25_search.py:226-233 | At equal length and multiplicity the term in fewer documents contributes strictly more, for every increasing logarithm |
| `Bm25Ranking.OutranksScores` | bm25_search.py:217-239 | A document that outranks another in counts has the higher score |
| `Bm25Ranking.TopIsBestFirst` | bm25_search.py:235-239 | In a top-k answer an outranked document is never returned without, or before, the one that outranks it |
| `Bm25Index.BM25Index.SlotScore` | bm25_search.py:223-233 | Wherever idf is computed 1 <= df <= n and the average length is positive, and the summand is the document's contribution to naive BM25 |
| `Bm25Index.BM25Index.PostedDocs` | bm25_search.py:221-228 | A term the search skips is in no live document; otherwise its postings name exactly the slots that hold it |
| `Bm25Index.BM25Index.Save` | bm25_search.py:342-354 | The payload holds the stored tables and a fingerprint of exactly the live ids |
| `Bm25Index.BM25Index.FromPayload` | bm25_search.py:291-301 | Any payload loads; one that an index saved gives a consistent index for the corpus that was saved |
| `Bm25Index.BM25Index.RemoveFromIndex` | bm25_search.py:439-461 | Deleting through the live index removes exactly those ids; the index is compacted if and only if more than a fifth of the slots would be dead, so at most a fifth stay dead |
| `Bm25Index.LoadCached` | bm25_search.py:275-312 | A cache file is used if and only if its fingerprint is that of the live ids; one that an index wrote is used exactly when its live ids are those, and then serves the saved corpus |
| `Bm25Index.GetOrBuildIndex` | bm25_search.py:366-411 | No index if and only if the collection is empty; a fresh build of it if the file is refused; given a file that an index wrote, the index has exactly the collection's ids and equals a fresh build if and only if the file was refused or written from a corpus with these texts; its constants are the file's or the default ones accordingly |
| `Bm25Index.OldTextIsServed` | bm25_search.py:468-481 | The concrete case: a text edited under an unchanged id, whose surviving cache file is accepted and serves the old text |
| `Bm25Spec.AnswersAgree` | bm25_search.py:235-239 | Any two indexes that stand for the same corpus give a query the same scores in the same places; only ties may name other documents |
| `Bm25Spec.CutRanking` | bm25_search.py:238-239 | Slicing a full ranking, negative cut-offs included, leaves a top-k that nothing omitted outscores |
| `Bm25Spec.EveryMatchIsFound` | bm25_search.py:217-239 | With a cut-off no smaller than the corpus, the hits are exactly the documents that hold a term of the query |
| `Bm25Spec.NaiveScoreSplit` | bm25_search.py:217-233 | The sum over the query terms does not depend on the order in which they are visited |
| `Bm25Spec.NaiveScorePositive` | bm25_search.py:217-239 | A document's score is positive if and only if it shares a term with the query |
| `Bm25Spec.ContributionSign` | bm25_search.py:224-233 | Every summand is positive where its term occurs: 1 <= df <= n and the logarithm's argument is above 1 |
| `Bm25Spec.AvgLenPositive` | bm25_search.py:72-75 | A document that holds any token keeps the average length, a divisor, above zero |
| `Bm25Spec.SlotsCountTheCorpus` | bm25_search.py:58-59 | Counting live slots that hold a term is counting the documents of the corpus that contain it |
| `Bm25Spec.SlotsMeasureTheCorpus` | bm25_search.py:64 | The live lengths add up to the length of the corpus |
| `Bm25Spec.LiveCount` | bm25_search.py:68-70 | Slots minus tombstones is the number of live ids |
| `Bm25Spec.KillSlot` | bm25_search.py:140-148 | Killing a live slot changes the document frequency of exactly its own terms, by one |
| `Bm25Spec.CompactPostings` | bm25_search.py:191-194 | The renumbered postings of a term are the postings of the surviving documents |
| `Bm25Spec.CompactSlots` | bm25_search.py:178-189 | Moving the live slots to their ranks keeps every live id at one live slot with its own tokens |
| `Numbering.CitationNumberMap` | rag.py:20-37 | The dictionary has exactly the numbers 1 to M and each names the first chunk of a distinct title |
| `Numbering.FormatContext` | rag.py:501-546 | The longest run of leading chunks within both limits, each printed under the number of its paper |
| `Numbering.PaperChunkMap` | verify.py:47-74 | Under each number exactly the chunks of that paper, with their positions, in order; without metadata each chunk is its own paper |
| `Numbering.OnePaperOneNumber` | rag.py:20-37 | One paper, one number: the number printed for a kept chunk is the one the panel of the shown chunks gives its title, the only one the faithfulness check of any number of chunks files it under, and the same among all retrieved chunks |
| `Numbering.NumberAnAnswer` | rag.py:1018-1053 | The three loops run as an answer runs them: each printed number is in the citation map with the title of its chunk, each citation is printed, and the faithfulness check files each printed chunk under its printed number alone |
| `Numbering.PanelOfPrefix` | rag.py:20-37 | Numbering the shown chunks alone and numbering all retrieved ones give the shown chunks the same panel |
| `Numbering.NumbersAreStable` | rag.py:20-37 | Later chunks neither renumber a title nor take its number away |
| `Numbering.PanelIsDistinct` | rag.py:20-37 | No title is numbered twice |
| `Numbering.PanelIsFirstShown` | rag.py:20-37 | The panel is exactly the chunks that are the first to show their title, each once and in order, with the metadata of that first chunk |
| `Numbering.WidthsAddUp` | rag.py:521-541 | Each entry adds its own width, under the number its paper has among all retrieved chunks |
| `Numbering.FiledInOrder` | verify.py:47-74 | The chunks filed under a number carry their own positions and texts, in ascending order |
| `Citations.ExtractCitations` | rag.py:55-132 | The citations are the cited papers of the visible chunks, by ascending number, and nothing else |
| `Citations.CompactCitations` | rag.py:143-183 | Every marker is sent through the dense renumbering and the returned list is 1 to M, the cited papers in panel order; each text stays as it was at its place, a marker with a number on the panel stays a marker behind its blanks, and any other leaves a newline exactly when it swallowed one and the line would go on |
| `Citations.RewritingKeepsPlaces` | rag.py:160-183 | The same for any renumbering: no text, blank or line break moves, no marker that resolves is lost |
| `Citations.EndsLineMeans` | rag.py:160-183 | A dropped marker is at the end of its line exactly when the next thing printed after it, if any, begins with a newline |
| `Citations.RenumberedInOrder` | rag.py:160-183 | A rewritten marker has the images of its numbers, each once, in the order of their first place |
| `Citations.MeaningInOrder` | rag.py:160-183 | The meaning that the passes keep is, for each marker with a number on the panel and in order, the distinct titles it names |
| `Citations.VisibleMeans` | rag.py:81-84 | The panel is that of all chunks, or of those the prompt showed |
| `Citations.RankCounts` | rag.py:157-158 | The dense number of a cited paper is how many cited numbers there are up to its own |
| `Citations.CompactionKeepsMeaning` | rag.py:143-183 | Each new number names the paper its old number named; numbers that name none vanish; markers keep their order |
| `Citations.CompactionIsDense` | rag.py:143-183 | The compacted answer uses exactly the numbers 1 to M |
| `Citations.CompactionIsIdempotent` | rag.py:143-183 | Compacting again against the returned panel changes neither the answer nor the panel |
| `Citations.RewriteMarkers` | rag.py:160-183 | Text stays in place; a marker is renumbered without repeats, or leaves only the newline its line needs |
| `Citations.RenumberingKeepsMeaning` | rag.py:160-183 | Any renumbering that sends each used number to one with the same title keeps what every marker means |
| `Citations.CitedAfterRewrite` | rag.py:160-183 | The numbers left are exactly the images of the resolvable ones |
| `Citations.RankIsOnto` | rag.py:157-158 | The dense numbers leave no gap: each is the rank of one cited paper |
| `Report.RunReport` | report_runner.py:159-202 | Every section of the assembled review keeps the text of its answer segment by segment, a failed one being its note, and every marker still names the titles it named; a title is in the References list, once, if and only if some section cites it, in the order of first sighting, and a number is cited if and only if the list has it |
| `Report.AddSection` | report_runner.py:172-186 | A section keeps its text, and its meaning in document-wide numbers, earlier titles keep theirs, the titles registered are those it cites, in order of first sighting, and the number of every newly registered title is cited |
| `Report.Registry.constructor` | report_runner.py:170 | An empty registry numbers nothing |
| `Report.Registry.RemapMarkers` | report_runner.py:113-148 | Titles get numbers in order of first sighting, and the section is rewritten through them |
| `Report.Registry.NumberTitle` | report_runner.py:124-129 | A title gets the next number on first sighting and no number already given changes |
| `Report.Registry.References` | report_runner.py:151-156 | The References list is the titles in the order of their numbers |
| `Report.RemapKeepsMeaning` | report_runner.py:113-148 | The document-wide remap keeps what every marker means |
| `Report.SectionKeepsPlaces` | report_runner.py:113-148 | Compaction and remap together leave every text and gap at its place and drop no further marker |
| `Report.ReadsAsDrafted` | report_runner.py:113-202 | What it means that a section says what its draft says: every text is the same, a marker stands wherever one resolved, and any other leaves the gap it owes |
| `Report.RegisterByFirstSight` | report_runner.py:124-129 | Registering a section appends its new titles in the order it cites them |
| `Report.LaterSectionsDoNotDisturb` | report_runner.py:168-185 | Numbers are stable: titles registered later do not change what an earlier section says |
| `Report.RegisterGrows` | report_runner.py:124-129 | The registry only grows, and never repeats a title |
| `Report.SectionUsesItsTitles` | report_runner.py:113-148 | A section uses only registered numbers, and the number of every title it registers |
| `Report.ReferencesAreDistinctExactly` | report_runner.py:124-156 | The registry keys on stored titles: the References list names each normalised title once if and only if no two sections cite it under different stored titles |
| `Report.OneSectionDoesNotClash` | rag.py:20-37 | Within one section two cited papers never share a normalised title |
| `Report.OnePaperListedTwice` | report_runner.py:124-156 | The concrete case: two sections that cite one paper under two stored titles give a list with both |
| `Ndcg.DcgAtK` | docs/Eval/evaluate.py:92-109 | The discounted grades of the first k distinct documents, each counted at its first occurrence |
| `Ndcg.Rank` | docs/Eval/evaluate.py:115 | A ranking of all graded documents from best to worst, none missing, none twice |
| `Ndcg.NdcgAtK` | docs/Eval/evaluate.py:112-117 | Actual over ideal DCG, for whichever descending ranking is taken as the ideal: the value times the score of that ranking is the score of the list, and it is 0 when there is nothing to find or the cut-off is not positive |
| `Ndcg.RunIsTheList` | docs/Eval/evaluate.py:99-104 | The documents scored are exactly those retrieved, none twice, in the order of their first occurrence; a list without repeats is scored as it is |
| `Ndcg.NothingRetrieved` | docs/Eval/evaluate.py:92-109 | An empty list scores 0 |
| `Ndcg.OneMoreDocument` | docs/Eval/evaluate.py:99-109 | Appending a document adds its grade under the discount of its place if it is new and within the cut-off, and nothing otherwise |
| `Ndcg.NdcgIsTheQuotient` | docs/Eval/evaluate.py:112-117 | nDCG is the score of the list over the score of the ideal order |
| `Ndcg.LedByTheBest` | docs/Eval/evaluate.py:112-117 | A list led by the graded documents in descending order of grade scores 1 |
| `Ndcg.RankingDoesNotMatter` | docs/Eval/evaluate.py:115-117 | The value does not depend on how the sort breaks ties |
| `Ndcg.NdcgIsNormalised` | docs/Eval/evaluate.py:92-117 | nDCG lies in [0, 1] for every retrieved list, repeats included, every grade map, every cut-off and every positive non-increasing discount |
| `Ndcg.PerfectScore` | docs/Eval/evaluate.py:112-117 | With a strictly falling discount, as 1/log2 is, the score is 1 if and only if the first k distinct documents carry the grades of the ideal order |
| `Ndcg.PrefixDominance` | docs/Eval/evaluate.py:92-109 | No n distinct documents carry more grade than the first n of a descending ranking |
| `Ndcg.DiscountedLead` | docs/Eval/evaluate.py:92-117 | Rearrangement: a list whose every prefix sum leads still leads after discounting |
| `Ndcg.DiscountedTie` | docs/Eval/evaluate.py:92-117 | A discounted tie under a strictly falling discount forces equal grades at every place |
| `Ndcg.TopIsBest` | docs/Eval/evaluate.py:115 | Any set of documents is outweighed by as many leading documents of the ranking |
| `Ndcg.RankingsAgree` | docs/Eval/evaluate.py:115 | Two descending rankings carry the same grade at every place |
| `RateLimiter.RpmLimiter.constructor` | providers/openrouter.py:93-96 | A fresh limiter with a positive rate has granted nothing |
| `RateLimiter.RpmLimiter.Attempt` | providers/openrouter.py:101-108 | A turn with the lock is granted if and only if fewer than rpm grants are under a minute old; otherwise the wait is exactly until the oldest of them is |
| `RateLimiter.NoMinuteHoldsMore` | providers/openrouter.py:98-111 | In every reachable state, every half-open 60-second window holds at most rpm grants |
| `RateLimiter.WindowBound` | providers/openrouter.py:101-108 | Grants rpm places apart are a minute apart, so no window, wherever it starts, holds more than rpm |
| `RateLimiter.Acquire` | providers/openrouter.py:98-111 | The deadline is the first clock reading plus the allowed wait; with any number of other threads' turns in between, the wait ends in a grant of its own or gives up at once when the next slot opens after that deadline, and no sleep is longer than half a second or ends after it |
| `RateLimiter.NapsAreShort` | providers/openrouter.py:106-111 | No sleep is longer than half a second, nor outlasts the minute of the oldest grant or the deadline |
| `RateLimiter.Turn` | providers/openrouter.py:100-111 | If a slot is free when the turn begins, because fewer than rpm are taken or the oldest has expired, someone is granted one in it |
| `RateLimiter.OthersTry` | providers/openrouter.py:98-111 | Other threads' turns only add grants, and leave the queue alone unless one was granted |
| `RateLimiter.GrantsFit` | providers/openrouter.py:101-108 | Only so many grants fit into a stretch of time, which is what bounds the wait |
| `Thinking.GeminiBackend.constructor` | providers/gemini.py:107-111 | A new backend knows of no refusal |
| `Thinking.GeminiBackend.SkipRejectedLevels` | providers/gemini.py:181-194 | The bounded walk up the ladder reaches the lowest config whose level is not known to be refused, and never returns a refused one |
| `Thinking.GeminiBackend.PrepConfig` | providers/gemini.py:254-267 | A model that refuses budgets is never sent one, nor a level it is known to refuse, nor anything when it cannot think |
| `Thinking.GeminiBackend.NextConfig` | providers/gemini.py:287-300 | Exactly the refusals of this config are retried, one step up, and exactly what was refused is remembered |
| `Thinking.GeminiBackend.Learn` | providers/gemini.py:308-315 | After a failed attempt the backend knows what it knew and this lesson, no more and no less |
| `Thinking.GeminiBackend.Generate` | providers/gemini.py:302-316 | Whatever the service answers, the loop ends with its answer or its error within the rungs left plus one, so "did not converge" is unreachable; each attempt is the retry of a refused one |
| `Thinking.GeminiBackend.GenerateStream` | providers/gemini.py:318-362 | The text sent on is that of the last upstream stream alone, retried only before any text, with the truncation note only after a normal end; the same bound and lessons as the other loop |
| `Thinking.RetryClimbs` | providers/gemini.py:159-179 | Every refusal leaves strictly fewer rungs, and no config has more than five |
| `Thinking.RetriedExactly` | providers/gemini.py:287-316 | An attempt is followed by another if and only if it failed as an invalid argument before any text, with a budget set, or with a level set that the error names |
| `Thinking.RetriedWith` | providers/gemini.py:122-179 | What the retry is sent with: for a budget the level it stands for, 1024 and less being Low, and for a level the next rung, if the SDK knows it, and otherwise no thinking config |
| `Thinking.SkipsExactly` | providers/gemini.py:181-194 | The walk past refused levels ends on a rung if and only if all rungs below it from the first on are refused, it is not, and the SDK knows it and those between |
| `Thinking.SentFirst` | providers/gemini.py:254-267 | The first config sent: none for a model that cannot think, a refused budget as its level, past the refused levels, and otherwise what was asked |
| `Thinking.LearnedExactly` | providers/gemini.py:196-214 | What a call teaches: the budget, or the level, of each refused attempt, and nothing else |
| `Thinking.GeminiBackend.KnowsExactly` | providers/gemini.py:196-214 | After a call the backend knows what it knew before and what the refused attempts taught, no more and no less |
| `Thinking.ClimbGoesOn` | providers/gemini.py:302-316 | A refused attempt keeps the retry chain within its bound, any other ends it |
| `Thinking.BudgetsTranslateInOrder` | providers/gemini.py:122-134 | Whatever levels the SDK knows, a larger budget never translates to less thinking, "off" is the least there is, and a level is missing only when the SDK lacks it or the model is to decide |
| `Thinking.EscalationClimbsOneRung` | providers/gemini.py:159-179 | A refused level is answered with the lowest higher one the SDK knows exactly when that is the next rung; otherwise thinking is dropped, past known rungs if there are any |
| `Thinking.SixAttemptsAreNeeded` | providers/gemini.py:302-316 | The bound is met: a zero budget refused and then every level in turn takes all six attempts |
| `Thinking.ResentExactly` | providers/gemini.py:262-316 | Retries do not consult what is known: there is a service against which a call sends a level known to be refused if and only if such a level lies ahead of its first config on the ladder |
| `Thinking.GenerateKnowing` | providers/gemini.py:302-316 | The same on runs of the backend: whatever the service, no known level is sent again but one ahead, and a service that refuses everything is sent one if there is one |
| `Thinking.KnownLevelIsResent` | providers/gemini.py:262-316 | The concrete case: Low is known to be refused, Minimal is refused, and Low is sent again |
| `Attempts.PathsFor` | llm_client.py:191-221 | The exact list: the requested path, Gemini's own other model, then the usable providers of the preference order, or without one the fallback provider and Gemini as a last resort, unless they are there already |
| `Attempts.PreferredAreUsable` | llm_client.py:198-209 | Of a preference order exactly the other providers that have a model and are configured are tried, each with its default model |
| `Attempts.PreferredInOrder` | llm_client.py:198-209 | They are tried in the order of preference |
| `Failover.Dispatcher.constructor` | llm_client.py:24-33 | No circuit is open at the start |
| `Failover.Dispatcher.Blocked` | llm_client.py:36-38 | A path is skipped exactly while its circuit is open |
| `Failover.Dispatcher.Fail` | llm_client.py:41-54 | The failure is recorded, counted unless it is our own rate limit, and the two dictionaries stay in step with the history |
| `Failover.Dispatcher.Clear` | llm_client.py:57-60 | A success closes the circuit and forgets the failures of that path alone |
| `Failover.Dispatcher.Attempt` | llm_client.py:304-335 | One path of the chain: skipped if and only if open, otherwise streamed once, with exactly the right event recorded |
| `Failover.Dispatcher.OutOfTime` | llm_client.py:305-308 | Whether too little time is left to start an attempt |
| `Failover.Dispatcher.Stream` | llm_client.py:287-341 | Paths are taken in order, in time and never while open; a path is left only if it failed before its first chunk and not for good; what is sent is one attempt's text; the outcome is its end, the last error, an expired deadline or all circuits open, in exactly those cases |
| `Failover.OneVoice` | llm_client.py:287-341 | No spliced and no lost answer: what was sent is all that any backend streamed, and it came from one attempt |
| `Failover.OneUpstreamStream` | llm_client.py:287-341 | Through both layers, for every service, set of open circuits and refusals: of all upstream calls of a dispatch only the last one streamed any text; if Gemini answered it, the user sees exactly its texts, with the note only after its normal end, and the dispatch completes exactly when that call did with a text |
| `Failover.Dispatcher.Serve` | llm_client.py:313-324 | An attempt on a Gemini path runs the Gemini backend, retries included, and hands on what its last upstream call streamed; any other path streams what its own backend gives |
| `Failover.GeminiHandsOn` | providers/gemini.py:318-362 | What a Gemini attempt hands on, and whether it counts as done, is read off its last upstream call; the refused calls before it streamed nothing |
| `Failover.OpenCircuitHadThreeFailures` | llm_client.py:41-54 | An open circuit means three counted failures of that path, no success since the first of them, and less than a cooldown since the last |
| `Failover.TrippedStaysOpen` | llm_client.py:36-54 | A tripped circuit is open for exactly one cooldown unless the path succeeds or trips again |
| `Failover.ThirdFailureTrips` | llm_client.py:41-54 | Three counted failures of a path with no success between them, none of the first two a trip, always make the third one |
| `Failover.NoAttemptWhileOpen` | llm_client.py:304-312 | No path is attempted within a cooldown of its last trip unless it succeeded in between |
| `Failover.TallyStep` | llm_client.py:36-60 | Every event keeps the dictionaries telling, for each path, the failures since its last success or trip |
| `Failover.TakeStep` | llm_client.py:304-341 | One more path either continues the search with nothing sent or concludes the dispatch with what was sent |
| `Failover.GoesOnExactly` | llm_client.py:318-341 | A further path is tried, time permitting, if and only if the one before failed before its first chunk and not for good; any other ends the dispatch with its own end |
| `Failover.LooksInTime` | llm_client.py:305-308 | A path is looked at only while the deadline leaves the time an attempt needs |
| `Failover.OthersStreamTheirOwn` | llm_client.py:313-324 | A path without a Gemini model streams what its own backend gives |
| `Failover.BreakerHears` | llm_client.py:311-335 | What the breaker is told of each path: nothing when it was skipped, broke off in mid-answer or failed for good, a success when it finished, and otherwise one failure, counted unless it is our own rate limit |
| `Failover.EndsAs` | llm_client.py:337-341 | The outcome is the error of the last path tried, all later ones having been skipped; only when none was tried is it an expired deadline, if paths were left, or all circuits open |
| `Interleave.GroupByRetriever` | agent/nodes/tool_executor_node.py:62-67 | One queue per retriever in order of first sighting, each with its passages in order |
| `Interleave.TakeHeads` | agent/nodes/tool_executor_node.py:68-71 | One round takes the head of every queue and keeps the queues that have more |
| `Interleave.InterleaveByRetriever` | agent/nodes/tool_executor_node.py:51-72 | The loop computes the round-robin order |
| `Interleave.TurnsByRank` | agent/nodes/tool_executor_node.py:51-72 | The order without queues and rounds: passages come by their rank within their own retriever, and at equal rank by which retriever was seen first |
| `Interleave.KeepsEachOrder` | agent/nodes/tool_executor_node.py:51-72 | Every retriever's passages come out in the order they went in |
| `Interleave.IsPermutation` | agent/nodes/tool_executor_node.py:51-72 | No passage is lost, added or repeated |
| `Interleave.FairShares` | agent/nodes/tool_executor_node.py:51-72 | Among the first K passages every retriever has at least m, or all it found, for every m up to K / R |
| `Interleave.IsIdempotent` | agent/nodes/tool_executor_node.py:51-72 | Interleaving twice is interleaving once |
| `Interleave.SameNames` | agent/nodes/tool_executor_node.py:51-72 | The retrievers keep their order of first sighting |
| `ToolExecutor.CollectResult` | agent/nodes/tool_executor_node.py:75-99 | Exactly the offered passages whose text is new are appended, in order, after what was there, and every passage appended names its retriever |
| `ToolExecutor.OfferedAreTagged` | agent/nodes/tool_executor_node.py:77-90 | Whatever a tool returns, it offers its passages, each under its own retriever or else the tool's name, or its text as one passage, or one that reports its failure |
| `ToolExecutor.ToolExecutorNode` | agent/nodes/tool_executor_node.py:102-135 | All calls up to the limit are run, and its first ones beyond it; the passages come back as the interleaving of what was there and what is new, in the order the calls finish; no text appears twice, no passage gathered before is lost, and each kept call is logged once |
| `ToolExecutor.MergedExactly` | agent/nodes/tool_executor_node.py:77-99 | Of equal texts the first is kept, unless it was there already, at the place of its turn |
| `ToolExecutor.OffersInTurn` | agent/nodes/tool_executor_node.py:117-129 | Each finished call adds its passages behind those of the calls that finished before it |
| `ToolExecutor.OrderDoesNotMatter` | agent/nodes/tool_executor_node.py:123-129 | Which texts are gathered does not depend on which tool finished first |
| `AgentGraph.EveryRunEndsInTheFinalizer` | agent/graph.py:33-80 | Whatever the models answer, every run is over within 16 node executions and 3 evaluations and can go on until then; a run that is over ended in the finalizer if and only if no verdict sent back had an action that cannot be a dictionary key, no stuck and unfaithful one had aspects that cannot be joined, and no abstention had gaps that cannot be listed |
| `AgentGraph.LastStep` | agent/graph.py:33-48 | A step ends the run in an exception exactly when such a reply is met at that node, and otherwise a run is over only after the finalizer, with an answer |
| `AgentGraph.UnhashableActionDerails` | agent/graph.py:43-48 | The concrete run for the router: a first verdict whose action is a list or an object |
| `AgentGraph.UnjoinableAspectsDerail` | agent/nodes/reflexion_evaluator.py:230-236 | The concrete run for the evaluator: a second verdict, stuck and unfaithful, whose missing aspects are null |
| `AgentGraph.UnlistableGapsDerail` | agent/nodes/finalizer.py:58-66 | The concrete run for the finalizer: an accepted answer below the abstention floor whose missing aspects are the bare value true |
| `AgentGraph.NoPassageIsLost` | agent/nodes/query_planner.py:172-176 | From the first planning on, passages never repeat a text and none gathered is ever lost |
| `AgentGraph.EveryStepBurnsFuel` | agent/graph.py:33-80 | Every node execution strictly lowers a bound on those left |
| `AgentGraph.CountIsEvaluations` | agent/graph.py:33-47 | The loop counter is the number of evaluations so far, at most 3, and below 3 outside the finalizer |
| `AgentGraph.EvaluationCounts` | agent/nodes/reflexion_evaluator.py:81-296 | Every branch of the cascade counts one evaluation and leaves the passages and the draft alone, and exactly those that ask the model add its verdict to the history |
| `AgentGraph.FaithfulnessIsTheShare` | agent/nodes/reflexion_evaluator.py:130-147 | k grounded claims of n score k / n; no claims score 1 and a crashed check 0 |
| `AgentGraph.JudgedExactly` | agent/nodes/reflexion_evaluator.py:202-227 | The action is the model's own, retrieving more where it names none, except that a draft whose grounded share and completeness reach both thresholds is accepted; without a verdict nothing is |
| `AgentGraph.StopsMeans` | agent/nodes/reflexion_evaluator.py:81-296 | The stops in numbers: the third evaluation, an improvement of one twentieth or less, less than the reserve left, more than the budget used |
| `AgentGraph.AlwaysANextStep` | agent/graph.py:60-79 | No node is ever stuck: every point of a run that is not over has a next one |
| `AgentGraph.SixteenNodesAreNeeded` | agent/graph.py:33-80 | The bound is met by a model that keeps asking for new plans, whatever it drafts |
| `AgentGraph.WhenTheLoopStops` | agent/graph.py:33-48 | On any run, an evaluation is followed by the finalizer if and only if its caveat can be joined and the clock stopped it before, or the verdict is the third, accepts, or names an action off the list, or there is no progress or no time left and something to ship |
| `AgentGraph.UnverifiedShipsExactly` | agent/nodes/reflexion_evaluator.py:184-296 | On any run, a draft found unfaithful goes to the finalizer without its caveat if and only if the model accepts it all the same, or it shows progress and meets the third verdict, an action off the list, or the end of the budget |
| `AgentGraph.WhatShips` | agent/nodes/finalizer.py:41-72 | The text of any run that ends: the last draft, with its caveat exactly when it was evaluated, not accepted, unfaithful and no better than the one before; an empty draft is replaced by the apology, and an abstention is put around exactly when the last verdict, even one on an earlier draft, calls for it |
| `AgentGraph.NotFinalYet` | agent/graph.py:33-48 | On any run, before the finalizer no final answer is set but an empty one |
| `AgentGraph.ThirdVerdictShipsUnverified` | agent/graph.py:33-36 | The concrete run: three verdicts on unfaithful drafts, each with progress, and the third draft ships bare |
| `AgentGraph.FirstVerdictShipsUnverified` | agent/graph.py:43-48 | The concrete run: an unfaithful first draft ships bare because the model accepts it or names an action off the list |
| `AgentGraph.EmptyDraftGoesOn` | agent/graph.py:33-48 | The concrete run: an empty draft without progress is made final and then rewritten, since an empty final answer is falsy |
| `AgentGraph.RetriesLeadBack` | agent/graph.py:33-80 | A rewrite sees the passages of the draft it replaces, more retrieval skips planning, a reformulation goes through the planner, and each comes back to the evaluator |
| `JsonScanner.ScanObject` | agent/json_utils.py:14-37 | The first brace, and the first place after it where the object closes, or that there is none |
| `JsonScanner.ScanStopsAtTheClosingBrace` | agent/json_utils.py:18-37 | For every JSON object as RFC 8259 writes it, any brace-free text before it and any text after it, the scan stops exactly at its closing brace |
| `JsonScanner.HandsOverTheObject` | agent/json_utils.py:9-37 | After stripping, what is handed to the JSON parser is that object, character for character |
| `JsonScanner.ValueIsInvisible` | agent/json_utils.py:18-33 | Reading any JSON value inside an object leaves the scanner's state as it was |
| `JsonScanner.StringIsInvisible` | agent/json_utils.py:20-28 | So does any string, whatever braces, quotes and escapes it holds |
| `JsonScanner.PieceStaysInString` | agent/json_utils.py:20-28 | No legal character or escape ends a string |
| `JsonScanner.WhatCounts` | agent/json_utils.py:20-33 | On any text: outside a string only quotes and braces count, inside one only the backslash and the quote, behind a backslash nothing |
| `Transactions.Database.constructor` | persistence.py:225 | An empty database is consistent, with no batch open |
| `Transactions.Database.Execute` | persistence.py:228-268 | For any nesting of batches and any failing statement: what the connection sees and what is committed go through exactly what the command means, nothing is committed inside a batch, and outside one at most one commit is made, of all there is |
| `Transactions.Database.ExecuteAll` | persistence.py:228-268 | A body of commands stops at the first exception and what it did before stays done |
| `Transactions.Database.BatchWrites` | persistence.py:228-256 | An outermost batch that raises leaves every committed state as it was and the connection back at the last of them; one that returns commits once, with all its writes; an inner one commits nothing |
| `Transactions.Database.Serve` | persistence.py:228-268 | Any run of commands outside batches: if every deletion that fails half way stands in a batch that fails with it, every state ever committed has one index row per logged paper, with its title and chunk count |
| `Transactions.Database.WriteElsewhere` | persistence.py:259-268 | Any other write commits what it finds pending, unless a batch is open |
| `Transactions.Database.RecordIngest` | persistence.py:643-690 | Whichever statement fails, both rows are written, the index row with the title, the year and the number of ids of the log row, or neither; outside a batch the disk has them when it returns, and inside one nothing is committed |
| `Transactions.Database.DeleteIngestEvents` | persistence.py:782-793 | The paper leaves the log and its mirror together when both statements work, and then the disk too outside a batch; when the second fails, the half-done deletion stays in the open transaction |
| `Transactions.Database.ClearIngestLog` | persistence.py:764-775 | Log and mirror are emptied together, or the log alone when the second statement fails |
| `Transactions.Database.OpenSavepoint` | persistence.py:659-661 | A savepoint outside a transaction opens one |
| `Transactions.Database.Release` | persistence.py:659-689 | Releasing the savepoint that opened the transaction would commit it |
| `Transactions.Database.MaybeCommit` | persistence.py:259-268 | Commits if and only if no batch is open |
| `Transactions.MirrorIsKept` | persistence.py:643-690 | Whatever fails, a command keeps one index row per logged paper in what is committed and in what the connection sees, as long as no deletion fails half way, or each that does takes its outermost batch down with it |
| `Transactions.SingleWrite` | persistence.py:643-793 | Outside a batch, in the tables themselves: what each write leaves in the log and the index, and that it commits all that is pending if and only if it returns |
| `Transactions.BodyStopsAtTheFirst` | persistence.py:228-256 | A body runs up to its first exception, which ends it, and what it did until then is what the commands did one after the other |
| `Transactions.MirrorLostExactly` | persistence.py:782-793 | For every history of writes: the mirror is lost if and only if some deletion stopped after its first statement on a paper that was logged, and that paper was neither written nor deleted whole since |
| `Transactions.OrphanExactly` | persistence.py:782-793 | The same for one paper: it has an index row and no log row exactly when a half deletion of it was never settled |
| `Transactions.LoggedIsIndexed` | persistence.py:643-690 | A logged paper always has its index row, with its title and chunk count, whatever failed |
| `Transactions.HalfDeletionExactly` | persistence.py:782-793 | Outside a batch, after a deletion and the next write of any kind, the committed mirror is lost if and only if the second statement failed and the paper was logged |
| `Transactions.HalfClearExactly` | persistence.py:764-775 | The same for emptying the log: lost if and only if the second statement failed and the log was not empty |
| `Transactions.HalfDeletionIsCommitted` | persistence.py:782-793 | The concrete run: one paper recorded, its deletion stopped half way, another write committing an index row without a log row |
| `Transactions.OtherRowsSurvive` | ingest.py:619-623 | In a bulk ingest a failed row leaves no trace and every other row of its batch is committed |
| `Transactions.LastGoodRowWins` | ingest.py:619-623 | The row of a paper that went through last is the one in the log, whatever failed before or after it |
| `Transactions.AtomicExactly` | persistence.py:228-256 | Code has atomic batches under every choice of failing statements, each batch taking effect whole or not at all, if and only if no nested batch whose exceptions are swallowed contains a deletion or a write that a step which may raise follows |
| `Transactions.MakeTear` | persistence.py:228-256 | Code that breaks this condition has faults under which it returns with more done than atomic batches would have |
| `Transactions.SwallowedInnerBatchIsKept` | persistence.py:228-256 | The smallest case: a swallowed inner batch whose first row is committed although its second step failed |
| `WatchClaims.WatchTable.constructor` | persistence.py:570-583 | An empty table has an empty history |
| `WatchClaims.WatchTable.SaveWatch` | persistence.py:570-583 | Writes both copies of next_run |
| `WatchClaims.WatchTable.DeleteWatch` | persistence.py:823-826 | Removes the row |
| `WatchClaims.WatchTable.Sweep` | persistence.py:630-637 | Exactly the due watches, with the JSON copy of their next_run |
| `WatchClaims.WatchTable.ClaimWatch` | persistence.py:796-820 | Won if and only if next_run is still what the sweep read; then both copies move to the lease |
| `WatchClaims.CopiesAgree` | persistence.py:570-583 | In every state of every interleaving the column and the JSON copy of next_run agree |
| `WatchClaims.OneWinnerPerLease` | watch_runner.py:155-184 | Two wins of a watch with no save or deletion in between were for different values of next_run, and their sweeps began at least a lease apart |
| `WatchClaims.LeaseHolds` | persistence.py:796-820 | After a win next_run never falls below the lease until the watch is saved or deleted |
| `WatchClaims.WinnerWasDue` | watch_runner.py:168-177 | A winner found what it expected, and it was due when its sweep looked |
| `WatchClaims.WithoutLeaseBothWin` | watch_runner.py:168-177 | With any lease that is zero or negative two workers can both win the same value: the concrete history |
| `WatchClaims.ExclusiveExactly` | watch_runner.py:168-177 | No value is won twice without a save or a deletion in between, on any history, if and only if the lease is positive |
| `WatchClaims.LeaseExpires` | watch_runner.py:178-183 | A failed run is not lost: once the lease has passed the watch is due again |
| `VectorStore.Stores.constructor` | vector_store.py:123-170 | Empty stores |
| `VectorStore.Stores.AddDocuments` | vector_store.py:328-387 | For every batch size and list of ids: all rows land if no batch fails, otherwise the rows are those left by the first failing batch, the rollback and what lands late; it returns normally exactly when all landed and the closing count works |
| `VectorStore.RollbackIsExact` | vector_store.py:333-385 | When probe and rollback work, a failed upsert leaves the ids exactly as before if and only if nothing new lands after the rollback |
| `VectorStore.FailedAddLeaves` | vector_store.py:333-385 | Whatever fails in a failed call, its probe and its rollback, it leaves the old ids but for those a blind rollback took for good, and the ids the rollback missed |
| `VectorStore.FailedAddIsExact` | vector_store.py:333-385 | It leaves the ids exactly as before if and only if the rollback missed no new id and took no old one for good |
| `VectorStore.OldIdsSurvive` | vector_store.py:333-385 | When the probe works, no id that was there is ever lost, whatever else fails |
| `VectorStore.BlindRollbackDeletesOldIds` | vector_store.py:336-339 | When the probe fails, a working rollback deletes every attempted id, old ones too |
| `VectorStore.OtherRowsAreUntouched` | vector_store.py:341-385 | Rows outside the attempted batches are unchanged, the others hold old or given content |
| `VectorStore.Stores.DeleteByPaperId` | vector_store.py:508-574 | Exactly the paper's rows go; the cascade runs if and only if there were any; the result names exactly the steps that failed twice |
| `VectorStore.Stores.Compensate` | vector_store.py:524-552 | A step is tried twice, and failing twice is reported; its effect is that of the try that worked |
| `VectorStore.PutSplits` | vector_store.py:343-356 | Upserting in batches is upserting at once |
| `VectorStore.LastLandedWins` | vector_store.py:343-356 | Of the items with one id the last that lands gives the row |
| `VectorStore.OverwrittenRowStays` | vector_store.py:341-385 | Nothing restores the rows a failed call has overwritten: an old id keeps the row of the last item that landed for it |
| `ChromaBreaker.Breaker.constructor` | vector_store.py:33-34 | The circuit starts closed |
| `ChromaBreaker.Breaker.Call` | vector_store.py:71-89 | An open circuit answers by itself and makes no call; otherwise the call is made and only a timeout counts |
| `ChromaBreaker.OpenMeansThreeTimeouts` | vector_store.py:42-68 | An open circuit means three timeouts with no success between them, the last less than a cooldown ago |
| `ChromaBreaker.ThirdTimeoutTrips` | vector_store.py:48-68 | Three timeouts with no success between them always make the third a trip, and keep the circuit open for 60 seconds |
| `ChromaBreaker.TallyStep` | vector_store.py:48-68 | Every call keeps the counter telling the timeouts since the last success or trip |
| `ChunkIds.BuildChunks` | ingest.py:98-125 | The chunks of the kept sections, in order, numbered by their places |
| `ChunkIds.BuildPaperChunks` | ingest.py:93-176 | References are left out unless nothing else is left; figures come last; ids are pairwise distinct; None if and only if there is nothing to store |
| `ChunkIds.SectionsInOrder` | ingest.py:98-125 | The chunks of each section that is long enough, and not a reference list to be skipped, follow those of the kept sections before it |
| `ChunkIds.ReferencesAreALastResort` | ingest.py:130-141 | Reference lists are chunked if and only if no other section has a chunk to keep |
| `ChunkIds.CountersTellApart` | ingest.py:124 | Two chunks of one paper never share an id, whatever their sections are called |
| `ChunkIds.WhenPapersCollide` | ingest.py:124 | Ids of two papers collide if and only if counters agree and paper and section run together to the same text |
| `ChunkIds.PapersDoCollide` | ingest.py:124 | They can: the concrete case |
| `ChunkIds.DecimalReadsBack` | ingest.py:124 | Decimal numerals determine their numbers |
| `ThreeStores.Run` | ingest.py:576-628 | Any run of ingests, deletes, refreshes and rebuilds, whatever fails in it, is the model run; if each failure is recoverable, at the end every paper's logged ids are its ChromaDB ids and the lexical index serves a subset, and all of them after a refresh and its rebuild |
| `ThreeStores.InStepThroughout` | ingest.py:576-628 | A run stays in step all along if and only if every command meets the condition on its failures at the state it finds |
| `ThreeStores.RecoverableRunsStayInStep` | ingest.py:576-628 | Runs whose failures are all recoverable are in step after every command |
| `ThreeStores.IngestDirectory` | ingest.py:576-628 | The bulk path leaves exactly the stores that its deletes, its one add and its log rows leave, each as far as it worked; it returns normally exactly when everything landed and the closing count worked |
| `ThreeStores.IngestPaper` | ingest.py:225-290 | The single path does to the stores what the bulk path does to a batch of one; it returns the number of chunks added, 0 and nothing changed for a skipped paper, or raises |
| `ThreeStores.IngestKeepsExactly` | ingest.py:576-628 | Whatever fails, an ingest keeps the stores in step if and only if each paper meets its condition. Logged: its old rows are gone or overwritten. Not logged: its log row is still there and right. Add failed: with the log row dropped nothing strays and nothing of it is served; with the rows gone but logged just they strayed back; otherwise only old ids stray and none is lost |
| `ThreeStores.IngestedView` | ingest.py:576-628 | What an ingest leaves of one of its papers is determined by what the stores had of it, what it brings and how its delete, add and log row ended; for a failed add, by what its rollback missed and what it cost |
| `ThreeStores.WhatAnIngestLeaves` | ingest.py:576-628 | An add that lands, field by field: the old rows go unless their delete failed, the old ids are served until the cascade takes them, and the log has the new ids unless the count or the log write failed |
| `ThreeStores.WhatIsStored` | ingest.py:576-628 | Every landed chunk is stored as it was prepared |
| `ThreeStores.OtherViewsStay` | ingest.py:576-628 | Papers outside the batch are untouched in all three stores, however the ingest ends |
| `ThreeStores.RolledBackKeeps` | vector_store.py:359-385 | An add that fails and is rolled back keeps a paper in step exactly when its delete would have |
| `ThreeStores.HowAddsFail` | vector_store.py:333-385 | What a failed add leaves astray and costs a paper, read off the failing upsert, the probe and the rollback alone, in all four cases |
| `ThreeStores.LateRowsDiverge` | vector_store.py:314-350 | With probe and rollback working, an ingest whose add failed is in step if and only if what lands of each paper after the rollback is what its condition allows |
| `ThreeStores.BlindRollbackDiverges` | vector_store.py:333-339 | Without the probe a working rollback takes old rows too: in step if and only if each paper meets the condition with what lands late as strays and every other tried id as lost |
| `ThreeStores.BrokenRollbackDiverges` | vector_store.py:374-385 | With a rollback that breaks: in step if and only if what it did not delete, and what lands after it, is what each paper's condition allows |
| `ThreeStores.StrayChunkWitness` | vector_store.py:314-385 | The concrete cases: a first chunk that lands after its rollback, or that a broken rollback left, stays with no log row |
| `ThreeStores.BlindRollbackWitness` | vector_store.py:333-339 | The concrete case: a re-ingest whose delete and probe fail and whose rollback takes the logged chunk |
| `ThreeStores.SwallowedDeletesDiverge` | ingest.py:588-593 | If the deletes of old chunks fail and are only logged, a completed ingest leaves the stores in step if and only if every paper's new version has every old id |
| `ThreeStores.LandedDeletesServeStaleIds` | ingest.py:588-593 | If they raise but land, it does if and only if the lexical index served no old id that the new versions lack |
| `ThreeStores.SwallowedDeleteWitness` | ingest.py:265-269 | The concrete case of either: one chunk replaced by another |
| `ThreeStores.NeedDeletion` | ingest.py:59-68 | A paper needs deletion exactly when the collection has rows of it, which in step means when it is logged |
| `ThreeStores.Delete` | vector_store.py:508-574 | A delete leaves the rows, the lexical index and the log row each gone or there as its fate says; one that returns normally left no row of the paper and completed the cascade |
| `ThreeStores.DeleteKeepsExactly` | vector_store.py:508-574 | Whatever fails, a delete keeps the stores in step if and only if the paper had no rows, or its rows and its log row went or stayed together and the lexical index serves none of it that is gone |
| `ThreeStores.DeleteLandsAnyway` | vector_store.py:519-520 | A ChromaDB delete that times out but lands skips the cascade: the stores stay in step if and only if the paper was not logged |
| `ThreeStores.Refresh` | cache_refresh.py:11-34 | A refresh without ids drops the lexical index |
| `ThreeStores.Rebuild` | bm25_search.py:399-411 | A rebuild after it serves exactly the collection |
| `ThreeStores.RefreshRepairs` | cache_refresh.py:11-34 | A refresh leaves the stores in step if and only if every paper's logged ids are its ChromaDB ids, whatever the lexical index served |
| `ThreeStores.InStepMeans` | check_db.py:64-144 | In step means exactly: every paper's logged ids are its ChromaDB ids and only ids ChromaDB has are served |
| `Reconcile.ReconcileStores` | check_db.py:64-144 | The findings are exactly the divergences there are, each with its exact ids, and the report is consistent if and only if each paper's log ids are its ChromaDB ids and the lexical index serves their union |
| `Reconcile.FindingsMean` | check_db.py:105-129 | Each kind of finding id by id: logged but not stored, stored but not logged, stored by a paper without a log row, stored but not served, served but attributed to no paper |
| `Reconcile.AgreementMeans` | check_db.py:64-144 | Agreement id by id: an id is logged for a paper if and only if it is stored for it, and served if and only if it is attributed |
| `Reconcile.ChromaIdsByPaper` | check_db.py:29-39 | The attributed ids of each paper, and no empty entries |
| `Reconcile.LogIdsByPaper` | check_db.py:84-88 | The logged ids of each paper, merged over its events |
| `Reconcile.FindLogged` | check_db.py:105-119 | The findings about logged papers, all of them |
| `Reconcile.FindUnlogged` | check_db.py:121-123 | The findings about papers the log has never heard of, all of them |
| `Reconcile.NothingReportedIsAgreement` | check_db.py:105-129 | If no divergence can be reported, the stores agree |
| `Reconcile.AgreementReportsNothing` | check_db.py:105-129 | If the stores agree, no divergence can be reported |
| `Reindex.ReplayLog` | reindex.py:122-185 | A completed replay leaves the logged contents over what survived the reset, for every positive batch size; refusals, dry runs and an empty log change nothing; an aborted one leaves, over the survivors, the log rows before the one it stopped in, the slices before the failing one, and of that one nothing, all, or what its failed add left |
| `Reindex.ReplayAgrees` | reindex.py:162-179 | What is logged, and a lexical index rebuilt from it, agree with the log |
| `Reindex.LastLoggedWins` | reindex.py:161-171 | A replayed id has the chunk that was logged last under it |
| `Reindex.ListedInOrder` | reindex.py:60-69 | A backfilled log row has exactly the rows that name the paper, as they are stored and in listed order |
| `Reindex.ReplayRestoresExactly` | vector_store.py:143-148 | A completed replay brings the three stores into agreement if and only if, with a positive batch size, only logged ids survived the reset, or, with a negative one, the survivors agree as they are |
| `Reindex.SurvivorWitness` | vector_store.py:143-148 | The concrete case: a reset that fails silently, a replay that completes, and a chunk the log no longer has |
| `Reindex.ReplayNeedsAPositiveStep` | reindex.py:165-171 | After a reset that worked, if anything was logged, a completed replay agrees with the log if and only if the batch size is positive |
| `Reindex.BackfillLog` | reindex.py:36-86 | Every paper the collection holds is logged as it is stored, the others keep their rows, and the number of papers the collection holds is returned |
| `Reindex.GroupByPaper` | reindex.py:60-69 | Each paper's rows in the order they are listed |
| `Reindex.BackfillThenReplay` | reindex.py:60-179 | Backfill then replay brings back every attributed row with its text, and otherwise only rows of papers the log alone knew |
| `Reindex.PutSlice` | reindex.py:165-171 | Adding a slice of the logged chunks is adding those chunks |
| `Reindex.PutOver` | reindex.py:161-171 | Adding to a collection that was not emptied is adding to an empty one, laid over the rows that were there |
| `Reindex.InStepIsConsistent` | check_db.py:64-144 | Stores that a run kept in step, with the lexical index rebuilt, are what the reconciler calls consistent |

## Left out

Components:

- FastAPI routes, auth, UI, PDF parsing, section chunking, captioning, translation, the NLI, reranking and embedding models, HTTP clients and the code sandbox are not part of this model; their answers are parameters.
- Reciprocal rank fusion, caches, session trimming, confidence weights, precision and recall would only add easy members.
- `generate_with_failover` of llm_client.py, which runs the same loop as the streaming dispatcher with one reply in place of chunks; the parsing of model names.
- The repair of truncated JSON and the removal of code fences in agent/json_utils.py: the scanner is proved on text without fences, and what happens after an unbalanced scan is not modelled.
- Schema migrations, snapshots and the other tables of persistence.py; the dedup checks of ingest.py, whose verdict only decides whether a paper is ingested at all; drift reports of reindex.py.
- Operations that break the equality of log and collection by design: `/purge/database`, `ingest_directory` with `reset=True`, which wipes the collection and leaves the log, metadata edits, a log write that fails for good, a delete of a paper that has no ChromaDB rows (its log row stays). `Reconcile.ReconcileStores` reports those that change ids.

Idealisations:

- Bm25Index.BM25Index.Search: the order of equal scores is not claimed, and concurrent search during compaction, which takes no lock, is not modelled; reals stand for floats; k1 >= 0 and 0 <= b <= 1, as every construction in the source has.
- Bm25Index.LoadCached: the fingerprint is the multiset of live ids, so hash collisions are left out; files that do not parse read as missing, and nothing is promised about the content of an accepted file that no index wrote.
- Bm25Index.GetOrBuildIndex: likewise; the index already in memory, which is returned as it is, is not part of the call.
- Citations.CompactCitations: an answer is a sequence of segments, so dropping a marker from raw text that then forms a new one is left out; sections and figure links of a citation are not modelled, markers are compared as numbers, and an empty metadata dictionary, which the source drops as falsy, does not occur.
- Numbering.FormatContext: bounds the sum of the entries' lengths; the joined string adds separators.
- Numbering.OnePaperOneNumber: holds before compaction; the faithfulness check on compacted answers still gets metadata in retrieval order.
- Report.RunReport: the blanks that the runner strips off the ends of a section's answer count as part of its text here.
- RateLimiter.Acquire: the clock never goes back, and other threads take finitely many turns between two of its own.
- Thinking.GeminiBackend.Generate: other threads teaching the same backend meanwhile only add to what it knows; the lessons stated are those of this call. The context cache leaves the thinking config alone.
- Failover.Dispatcher.Stream: one dispatch at a time; the breaker's own operations keep `Valid` under any interleaving.
- Interleave.InterleaveByRetriever: a passage is its text, its retriever and the rest as one value.
- ToolExecutor.ToolExecutorNode: equal hashes mean equal texts; arguments and latencies in the log are dropped.
- AgentGraph.EveryRunEndsInTheFinalizer: what models and tools answer is unconstrained in the verdict's action and missing aspects, which are the values the graph itself acts on; scores are numbers, passages are well-formed, exceptions that a model call, a tool or a node raises for other reasons and the timeout that kills a run are left out.
- AgentGraph.WhatShips: stripping blanks and the texts of caveat, abstention and apology are parameters; the confidence figure beside the text is not modelled.
- Transactions.Database.Execute: event ids are paper ids, as every caller passes them; commits and rollbacks do not fail, interrupts that are not exceptions are left out, and of the other tables only the commit that their writes make is modelled.
- Transactions.AtomicExactly: compares which writes to the two tables were done and committed; two runs that differ in them may still leave equal tables, and writes to other tables are not compared.
- WatchClaims.WatchTable.ClaimWatch: times are numbers; the stored ISO strings compare the same way.
- VectorStore.Stores.AddDocuments: embeddings and provenance stamps are left out; duplicate ids within a batch take the last row.
- VectorStore.Stores.DeleteByPaperId: a cascade step that raises has either done its work or none of it.
- ThreeStores.Run: chunk ids have one owner and the papers of a batch are distinct; a timed-out ChromaDB delete lands before the next call or never. One that lands after a later ingest is a delete without its cascade, as in `ThreeStores.DeleteLandsAnyway`.
- ChunkIds.BuildPaperChunks: the lower-casing of section names is a parameter, and caller-supplied metadata does not override the paper id.
- Reconcile.ReconcileStores: the order and the sampling of findings are dropped.
- Reindex.ReplayLog: a logged chunk, its metadata and its id are one item, so rows whose lists differ in length are left out; of embedding, only whether it works is modelled. The reset of a new collection sets its index parameters, which are not modelled.
- Reindex.BackfillLog: only ids, papers and texts are kept; hashes and paths, which the source leaves empty, are not modelled.
