# A verified model of Ryvix's in-memory AI core

The backend of Ryvix leans on a set of small in-memory engines under `ai/src`: they decode provider
streams, fail over between model providers, search an infrastructure graph, cache and retrieve
answers by embedding, plan with simulations, find the origin of an outage, correlate attack signals,
classify threats and decide whether retrained weights may be used. This project models those engines
in Dafny and proves what callers rely on. Objects that change in place are classes, loops are loops;
each method is proved to compute a mathematical function of its inputs or of the old state, and the
theorems are about those functions.

| module | what it models |
|---|---|
| `ProviderStream`, `StreamEvents` | the incremental decoder of event streams, against a parser of the whole text and against the events themselves |
| `ModelGateway` | provider failover: cooldowns, attempt log, quota errors, `complete` and `stream` |
| `Walks`, `TopologyGraph` | the two breadth-first searches of the topology graph |
| `Vectors`, `Embedding`, `SemanticCache`, `RagEngine` | the shared embedder, the answer cache, hybrid retrieval |
| `MctsPlanner`, `RiskOrder`, `Sorting` | the tree-search planner, its ranking, and when that follows risk |
| `CascadingRootCause` | the origin of an alert wave |
| `KillChainCorrelator` | the sliding window of signals and its score |
| `NeuralClassifier`, `NetworkLaws`, `TextFeatures` | the network, its prediction, loading of weights, what each tensor does, hashed text features |
| `Evaluation`, `Sums` | the gates, confusion tables and scores of both evaluations |
| `ExperienceLedger` | weights of remedies from recorded trials |
| `Text`, `UnifiedDiff` | `split`/`join`, and the diff with its reader |
| `LearningEvent` | recursive redaction of learning events |
| `Numbers`, `Selections` | `Math.round` and rounding to decimals; filtering and counting stated without loops |

How the outside world appears: clocks, random draws, provider outcomes, model predictions and parsed
events are parameters. `exp` and `sqrt` are parameters with the properties a proof uses
(`IsExp`, `IsSqrt`); lower-casing, trimming, text sanitising and the secret-key pattern are arbitrary
functions. Timestamps are integers, scores exact reals.

Properties found false of the code, with the exact condition under which they hold:

- Decoding a stream chunk by chunk depends on where the chunks are cut when the text contains CR CR LF.
  Folding line ends is independent of the cuts exactly when it does not (`FoldingIgnoresCutsIff`), and
  then so is everything the decoder shows; `CrCrLfShowsTheCut` gives a family of texts whose data differ.
- The retry time of a quota error is no promise once another call has come at or after it
  (`RetryCanComeTooLate`). A retry finds a provider exactly when one is ready by then (`RetryHelpsIff`),
  which calls before the retry time cannot prevent (`RetryTimeHelps`).
- Confidences along a planned trajectory need not fall: an untried candidate shows 0.75
  (`ConfidencesCanRise`). With too few simulations they fall exactly when every rollout shows at least
  that (`FewSimulationsDescendIff`), and for all draws exactly when the candidates simulated are all but
  riskless (`AlwaysDescendIff`).
- The root of an alert wave can depend on another failing service through a silent one
  (`SilentServiceHidesOrigin`); the exact condition is `RootIsTrueOriginIff`.
- Setting an answer for a query that is already stored does not replace the old answer
  (`SecondSetIsShadowed`); a stored entry answers exactly when no earlier entry with its embedding is left
  (`StoredAnswerIsFound`).
- A failed trial can raise the weight of its action, because the sample grows; it does not exactly from
  five trials on, or with enough earlier successes (`FailureNeverRaisesIff`).
- A diff need not read back when the path contains a line end. Added and common lines do exactly for
  `ReadablePath` (`RoundTripIff`): no line end, or a single one not followed by a plus or a space; with two
  or more, the second header line itself is read as an added line. The lines of one mark alone read back
  exactly for `NoneMarkedInPath` (`RemovedLinesIff`, `AddedLinesIff`, `CommonLinesIff`): no line end is
  followed by that mark, and for the plus there is at most one line end.
- An exported file of weights is refused by the loader exactly when a weight exceeds a million in
  magnitude (`ExportThenLoad`).

Where the code and its documentation differ, the model follows the code:

- The header of `ai/src/cascading-root-cause.ts` promises a topologically sorted recovery; the plan
  puts the root first and everything else in the order of the events.
- The keyword score of `ai/src/rag-engine.ts` is called BM25; it is the share of query tokens that
  occur in the document.
- The header of `ai/src/mcts-planner.ts` guarantees optimal, risk-minimized plans. A riskier candidate can
  be ranked first, untried safer ones last (`RiskierCanRankFirst`); the exact condition under which the
  ranking follows risk whatever is drawn is `RanksByRiskIff`. Once every candidate is tried it is that any
  two different risks are at least 0.2 apart (`EnoughSimulationsRankByRiskIff`).
- Against sections 9.2.5 and 9.2.6 of the WHATWG HTML standard, the decoder does not end a line at a
  lone CR and strips all leading white space after `data:`.

## Model

| member | source | states |
|---|---|---|
| ProviderStream.StreamProvider | ai/src/provider-stream.ts:32-62 | the decode loop, with its buffer, byte total and early exits, shows exactly what the step-by-step specification shows: texts, observed usage, outcome |
| ProviderStream.FoldingIgnoresCutsIff | ai/src/provider-stream.ts:40-41 | folding CR LF buffer by buffer equals folding the whole text for every way of cutting it, if and only if the text has no CR CR LF |
| ProviderStream.FoldAgain | ai/src/provider-stream.ts:41 | folding an already folded buffer plus new text is folding all of it, without CR CR LF |
| ProviderStream.FramesPartition | ai/src/provider-stream.ts:43-44 | frames and the carried-over rest make up the buffer again, and neither contains a blank line |
| ProviderStream.RunAgrees | ai/src/provider-stream.ts:35-61 | the decoder resumed in the middle of a text agrees with the parser of the whole text |
| ProviderStream.DecodeMatchesReference | ai/src/provider-stream.ts:32-62 | any chunking of a text without CR CR LF gives exactly the result of parsing the text at once, or stops at a size limit having shown a prefix of it |
| ProviderStream.ChunkingIsInvisible | ai/src/provider-stream.ts:32-62 | two chunkings of the same text give the same result unless a limit fires |
| ProviderStream.SmallStreamsMeetNoLimit | ai/src/provider-stream.ts:38-60 | a stream within 2 MiB whose text fits one event buffer never meets a limit |
| ProviderStream.CrCrLfShowsTheCut | ai/src/provider-stream.ts:40-45 | a family of texts with CR CR LF whose handed-over data depends on the cut |
| ProviderStream.OneDataLine | ai/src/provider-stream.ts:43-46 | a frame of one data line dispatches what follows the field name and leaves an empty buffer |
| ProviderStream.UsageKeeps | ai/src/token-usage.ts:4-13 | an event never makes a known usage counter unknown |
| ProviderStream.FinalUsageIsLastObserved | ai/src/provider-stream.ts:33-63 | whatever arrives, no empty text is shown, a usage counter once known stays known, and the usage reported at the end is the last one observed, on success only |
| StreamEvents.DecodeOnEvents | ai/src/provider-stream.ts:32-63 | for any frames written with LF or CR LF, any cuts and any data in them: the texts shown are, in order, the non-empty ones of the events up to the first that stops the stream, each text being the field the provider's kind names; that event alone decides how the stream ends; usage is observed with every event once any is reported, each counter being the one last reported; a limit shows a part of that |
| StreamEvents.FramesOfWritten | ai/src/provider-stream.ts:41-44 | the frames found are the frames written, whichever line end is used, and the rest waits |
| StreamEvents.FoldWritten | ai/src/provider-stream.ts:41 | folding leaves LF where CR LF was written and nothing else changed |
| StreamEvents.DataOnLines | ai/src/provider-stream.ts:45 | the data of a frame are its data lines without field name and leading blanks, joined by LF; all other lines are dropped |
| StreamEvents.DispatchOnData | ai/src/provider-stream.ts:46-58 | which data ends the stream, which fails it with what error, which shows a text and which, by the fields of the event |
| StreamEvents.UsageOnFields | ai/src/token-usage.ts:4-13 | an event's report replaces exactly the counters it gives; Claude's prompt count adds what was read from and written to its cache |
| StreamEvents.EndedEarlyIff | ai/src/provider-stream.ts:32-62 | a stream runs out unstopped exactly when nothing in its text stops it, its bytes are within 2097152, and never more than 262144 characters of an unfinished frame are waiting, however it is cut |
| TopologyGraph.SystemTopologyGraph.AddNode | ai/src/graph-rag.ts:66-68 | the node is stored under its id, all else unchanged |
| TopologyGraph.SystemTopologyGraph.AddEdge | ai/src/graph-rag.ts:70-78 | an edge is added at the end unless an equal one is stored |
| TopologyGraph.SystemTopologyGraph.FindDependencyChain | ai/src/graph-rag.ts:150-173 | the result is a walk over stored edges no longer than any other walk; nothing is returned exactly when there is no walk |
| TopologyGraph.SystemTopologyGraph.GetBlastRadius | ai/src/graph-rag.ts:95-145 | exactly the registered nodes other than the root within the depth over the undirected relations, each once, in order of distance; critical count and furthest level to match; one shortest path to each, every hop over a stored edge of the relation named, written out with it |
| TopologyGraph.ReportIsBlastRadius | ai/src/graph-rag.ts:106-144 | what a finished exploration has collected is the blast radius as defined by walks |
| TopologyGraph.ImpactGrows | ai/src/graph-rag.ts:95-145 | a larger depth keeps every impacted node and never lowers the critical count or the depth reached |
| TopologyGraph.ImpactIsMutual | ai/src/graph-rag.ts:115-122 | of two registered nodes each impacts the other or neither does |
| TopologyGraph.CountIsCardinality | ai/src/graph-rag.ts:125-129 | the counter is the number of critical nodes in the result |
| TopologyGraph.CouplingsOnEdges | ai/src/graph-rag.ts:115-122 | failures travel exactly along stored edges of the relations depends on, connects to and reverse proxies, either way |
| TopologyGraph.ArrowsOnEdges | ai/src/graph-rag.ts:161-164 | a chain follows stored edges from source to target |
| TopologyGraph.CriticalOnKinds | ai/src/graph-rag.ts:127 | critical are exactly reverse proxies, databases and services |
| TopologyGraph.TextOnHops | ai/src/graph-rag.ts:131 | a path is written out hop by hop with the name of each relation |
| Walks.LevelMet | ai/src/graph-rag.ts:153-169 | breadth-first levels: once the waiting nodes are at least k hops away, every node within k hops has been met |
| Walks.NextLevel | ai/src/graph-rag.ts:161-168 | a node first met across a link is exactly one hop further than the node it was met from |
| Walks.AllMet | ai/src/graph-rag.ts:157-172 | with nothing left to expand, every node reachable within the limit has been met |
| Walks.WithinSymmetric | ai/src/graph-rag.ts:115-121 | reach over an undirected relation is symmetric |
| Embedding.RollingHash | ai/src/semantic-cache.ts:56-60 | the loop computes the masked hash, and its bucket is that of the unmasked polynomial |
| Embedding.BucketIgnoresMask | ai/src/semantic-cache.ts:56-60 | cutting to 31 bits after every character never changes the bucket, for any base |
| Embedding.AddWord | ai/src/rag-engine.ts:449-468 | one word adds one to its bucket and a half for each trigram, nothing else |
| Embedding.NormalizeInPlace | ai/src/rag-engine.ts:470-481 | the vector is divided by its norm, or left alone when that is zero |
| Embedding.EmbedText | ai/src/semantic-cache.ts:49-83 | the embedder computes the embedding of the words of the text |
| Sums.TotalPermutes | ai/src/semantic-cache.ts:55-72 | a sum over words, or over any elements, does not depend on their order |
| Embedding.EmbeddingIgnoresOrder | ai/src/semantic-cache.ts:49-83 | permuting the words gives the same vector |
| Embedding.EmbeddingIsUnit | ai/src/semantic-cache.ts:74-82 | embeddings are non-negative, of norm one unless there are no words, and zero exactly then |
| Embedding.WordsOnText | ai/src/rag-engine.ts:448 | the text is cut at every character but a-z, digits, underscore and dot; runs of two or more are the words |
| Embedding.BucketOnCharacters | ai/src/rag-engine.ts:451-455 | a word's bucket is that of its characters as digits in base 31 |
| Embedding.WordWeightOnCharacters | ai/src/rag-engine.ts:450-468 | one for the word's bucket and a half for each place at which three characters, as digits in base 37, fall into a bucket |
| Vectors.DotBound | ai/src/semantic-cache.ts:85-89 | a dot product never exceeds the mean of the square norms, with equality exactly between equal vectors |
| Vectors.CosineRange | ai/src/semantic-cache.ts:85-89 | between embeddings the dot product is in [0,1] before clamping, and 1 exactly for equal nonzero ones |
| Vectors.NormalizeIsUnit | ai/src/semantic-cache.ts:74-80 | dividing by the norm gives a unit vector, and keeps exactly the zero vectors zero |
| SemanticCache.SemanticVectorCache.ComputeCosineSimilarity | ai/src/semantic-cache.ts:85-89 | the loop computes the clamped dot product |
| SemanticCache.SemanticVectorCache.Get | ai/src/semantic-cache.ts:119-159 | answers from the first live entry of greatest similarity when that meets the threshold; exactly the expired entries are dropped, the chosen one is counted, and one of the two totals rises by one |
| SemanticCache.SemanticVectorCache.FindBest | ai/src/semantic-cache.ts:124-138 | the scan leaves exactly the live entries and finds the first of greatest similarity |
| SemanticCache.SemanticVectorCache.Set | ai/src/semantic-cache.ts:161-185 | appends an entry with the embedding of the query and the given lifetime |
| SemanticCache.SemanticVectorCache.GetStats | ai/src/semantic-cache.ts:192-205 | the totals, and a hit ratio between 0 and 1 |
| SemanticCache.LiveMembers | ai/src/semantic-cache.ts:127-131 | pruning keeps exactly the entries that expire later |
| SemanticCache.BestIsFirstMaximum | ai/src/semantic-cache.ts:133-137 | the chosen entry has maximal similarity and every earlier entry strictly less |
| SemanticCache.LiveOnFields | ai/src/semantic-cache.ts:127-131 | what is kept are exactly the entries that expire later, in their order |
| SemanticCache.LookupOnEntries | ai/src/semantic-cache.ts:119-159 | a lookup hits exactly when some entry that has not expired has a dot product with the query, cut off at 0 and 1, of at least the threshold; then the first of greatest similarity answers and it alone is counted, and otherwise nothing but pruning happens |
| SemanticCache.SimilarityRange | ai/src/semantic-cache.ts:85-89 | the clamp changes nothing between embeddings; similarity 1 means the same nonzero embedding |
| SemanticCache.HitIff | ai/src/semantic-cache.ts:119-159 | with a live entry of the query's embedding a lookup hits exactly for thresholds up to 1, or up to 0 for a query without words |
| SemanticCache.StoredQueryHits | ai/src/semantic-cache.ts:119-185 | the same after any run of lookups and insertions before the entry expires |
| SemanticCache.AnswerIsTheFirst | ai/src/semantic-cache.ts:124-152 | for a query with words and a threshold up to 1 the first live entry with the query's embedding answers, with similarity 1 |
| SemanticCache.SecondSetIsShadowed | ai/src/semantic-cache.ts:119-185 | of two answers set for the same query the first is returned until it expires, then the second |
| SemanticCache.StoredAnswerIsFound | ai/src/semantic-cache.ts:119-185 | after any run of lookups and insertions before a stored entry expires, a lookup of its query hits with similarity 1, and this very entry answers exactly when no earlier entry with its embedding is left |
| RagEngine.RagEngine.LoadStored | ai/src/rag-engine.ts:406-410 | chunks read from the store, with or without an embedding, keep the place of their first occurrence and the value of their last |
| RagEngine.IdsOnList | ai/src/rag-engine.ts:406-410 | ids stand in the order in which they first occur, behind those known before |
| RagEngine.ChunksOnList | ai/src/rag-engine.ts:406-410 | each id read has the chunk read last for it, every other the chunk it had |
| RagEngine.RagEngine.Store | ai/src/rag-engine.ts:524 | a new id goes last, a known one is replaced in place; ids stay distinct |
| RagEngine.RagEngine.IndexDocument | ai/src/rag-engine.ts:517-526 | the chunk is stored with the embedding of its text |
| RagEngine.RagEngine.ComputeSparseScore | ai/src/rag-engine.ts:500-512 | the share of distinct query tokens that occur in the document |
| RagEngine.SparseRange | ai/src/rag-engine.ts:500-512 | the share is in [0,1]; 1 exactly when there are tokens and all occur, 0 exactly when none does |
| RagEngine.ScoreOnInputs | ai/src/rag-engine.ts:535-546 | to the thousandth: the dot product cut off at 0 and 1, the number of tokens found in the text over the number of tokens, and the first weighted with the weight and the second with the rest |
| RagEngine.TokensOnText | ai/src/rag-engine.ts:501 | the query is cut at every character but a-z, digits, underscore and dot; runs of three or more are its tokens, each once |
| RagEngine.TextsHoldParts | ai/src/rag-engine.ts:504-536 | title, content and every tag are in the text embedded and in the text searched; title and content in the one used where no embedding is stored |
| RagEngine.SliceIsPrefix | ai/src/rag-engine.ts:550 | at most the given number from the front, or for a negative number all but that many |
| RagEngine.RagEngine.Score | ai/src/rag-engine.ts:535-546 | one chunk's dense, sparse and weighted score, rounded; a chunk stored without an embedding is embedded from title and content |
| RagEngine.RagEngine.Search | ai/src/rag-engine.ts:531-551 | the first `topK` of the stably sorted scores of all chunks |
| RagEngine.SearchReturnsTheBest | ai/src/rag-engine.ts:535-550 | nothing left out scores higher than anything returned, and equal scores keep the order of indexing |
| RagEngine.CombinedRange | ai/src/rag-engine.ts:537-545 | for a weight between 0 and 1 the combined score is between 0 and 1 |
| RagEngine.OwnTextIsNearest | ai/src/rag-engine.ts:489-519 | searching for the indexed text itself gives dense similarity 1, and only an equal embedding does |
| RagEngine.IndexedTextIsAnswered | ai/src/rag-engine.ts:531-551 | such a search ranks first a result that scores at least the dense weight |
| RagEngine.RagEngine.Query | ai/src/rag-engine.ts:556-594 | the results of enough confidence are a prefix of the ranking; the commands are exactly theirs, each once, in order of first occurrence; source and confidence are those of the first |
| RagEngine.DistinctIsSet | ai/src/rag-engine.ts:564-571 | collecting first occurrences keeps every element and repeats none |
| RagEngine.DistinctInOrder | ai/src/rag-engine.ts:564-571 | they stand in the order of first occurrence |
| RagEngine.CommandsOnResults | ai/src/rag-engine.ts:565-569 | the commands are those of the results, one list behind the other |
| RagEngine.RelevantIsPrefix | ai/src/rag-engine.ts:561-562 | filtering a ranking by confidence cuts it at one place |
| ModelGateway.Gateway.constructor | ai/src/model-gateway.ts:157-220 | the default providers with priorities 1 to 6, none cooling down, keys as configured |
| ModelGateway.Gateway.RegisterProvider | ai/src/model-gateway.ts:225-233 | replaces the provider of that id or adds it and keeps all others; ids stay distinct and the order is by priority |
| ModelGateway.Gateway.VisitProvider | ai/src/model-gateway.ts:259-324 | one provider's turn in `complete` changes its cooldown, key and the log as specified |
| ModelGateway.Gateway.StreamProvider | ai/src/model-gateway.ts:80-114 | one provider's turn in `stream`, likewise, with the chunks handed on |
| ModelGateway.Gateway.ThrowIfQuotaLimited | ai/src/model-gateway.ts:122-125 | the quota error of the selected providers and the clock read for each |
| ModelGateway.Gateway.CompleteRequest | ai/src/model-gateway.ts:238-347 | a whole `complete` call on the mutable providers refines the specification, configuration errors included |
| ModelGateway.Gateway.StreamRequest | ai/src/model-gateway.ts:75-117 | a whole `stream` call refines the specification |
| ModelGateway.SelectionIsOrdered | ai/src/model-gateway.ts:50-73 | a selection has each provider once, all registered and eligible; a fallback chain in its own order, otherwise by priority with ties in order of registration |
| ModelGateway.DefaultSelection | ai/src/model-gateway.ts:67-73 | without configuration the selection is all providers in the gateway's own order |
| ModelGateway.ChosenIff | ai/src/model-gateway.ts:50-73 | exactly which configurations give a selection: a chain of distinct allowed ids, each registered and with a model, in line with the selected and chat provider; or without a chain a selected provider that is registered and has a model; that provider is then the only one |
| ModelGateway.VisitsAreManyTurns | ai/src/model-gateway.ts:259-324 | the attempts of a `complete` come in started/ended pairs of providers not cooling down, in order, a completion only last; cooldowns only move later |
| ModelGateway.TurnsAreManyTurns | ai/src/model-gateway.ts:80-114 | the same for `stream`, with the clock read at each provider |
| ModelGateway.StartIsFollowedByEnd | ai/src/model-gateway.ts:88-112 | in such a log every started attempt is followed at once by its own end |
| ModelGateway.VisitsAccount | ai/src/model-gateway.ts:259-324 | the failures listed are those of the providers before the one that answers, one each, with `cooling down` exactly for those that were |
| ModelGateway.CompleteIsSound | ai/src/model-gateway.ts:238-347 | all of this for a whole `complete`, and the answer is what that provider replied; a quota error exactly when the error check says so, the local answer only without configuration and outside production |
| ModelGateway.AnsweredIff | ai/src/model-gateway.ts:259-324 | a `complete` not aborted answers from a provider exactly when one that is not cooling down, has a key or needs none, and meets no simulated error has a call that replies; the first such one gives provider, reply and usage, and the log ends with its completion |
| ModelGateway.VisitOnInputs | ai/src/model-gateway.ts:259-324 | of one provider: when it answers, and for every other case the failure named, the cooldown set and the attempts logged |
| ModelGateway.AbortOnInputs | ai/src/model-gateway.ts:259-324 | an abort before or during a call ends `complete`, logged as aborted only if the call had begun |
| ModelGateway.StreamIsSound | ai/src/model-gateway.ts:75-117 | all of this for a whole `stream`; every chunk comes from one provider, in the order it sent them, and so does the usage reported at the end |
| ModelGateway.StreamedIff | ai/src/model-gateway.ts:80-117 | a `stream` not aborted ends with the first provider that sends a chunk or completes, among those that may be called; it completes, breaks off or reports that none is left accordingly, with that provider's chunks |
| ModelGateway.TurnOnInputs | ai/src/model-gateway.ts:80-114 | of one provider: its chunks, the way its turn ends, the cooldown set and the attempts logged, by what it sends |
| ModelGateway.AbortedTurn | ai/src/model-gateway.ts:80-114 | an aborted turn ends the stream |
| ModelGateway.QuotaErrorIff | ai/src/model-gateway.ts:122-125 | raised exactly when there are selected providers and all are cooling down; carries the earliest end, the first moment at which one is ready |
| ModelGateway.CallsKeepCooling | ai/src/model-gateway.ts:75-347 | over any sequence of calls whose clock readings come before the end of a provider's cooldown, that end does not move |
| ModelGateway.RetryTimeHelps | ai/src/model-gateway.ts:122-125 | whatever calls read the clock before the retry time of a quota error, a `complete` on the same providers from that time on skips fewer of them for cooling down than there are |
| ModelGateway.SkipsAllIff | ai/src/model-gateway.ts:259-267 | a pass not aborted between providers skips all of them for cooling down exactly when all of them are |
| ModelGateway.RetryHelpsIff | ai/src/model-gateway.ts:122-125 | after any calls at all, such a pass from the retry time on skips fewer providers exactly when one is ready by then; calls before the retry time always leave one |
| ModelGateway.RetryCanComeTooLate | ai/src/model-gateway.ts:254-310 | a call at the retry time that meets the limit again makes the next one skip its only provider once more |
| ModelGateway.StreamTriesIff | ai/src/model-gateway.ts:80-114 | a `stream` not aborted beforehand makes an attempt exactly when some provider may be called and is not cooling down when its clock is read |
| ModelGateway.StreamRetryTimeHelps | ai/src/model-gateway.ts:80-125 | whatever calls come before the retry time of a quota error, a `stream` from that time on makes an attempt if a provider ready by then may be called |
| ModelGateway.RunsKeepCooldowns | ai/src/model-gateway.ts:75-347 | over any sequence of calls the log only grows and stays paired, and no cooldown moves earlier |
| MctsPlanner.VisitsAndRewardsAreConserved | ai/src/mcts-planner.ts:91-101 | after k simulations the root has k+1 visits and the children k in all, the root's reward is the sum of theirs, and each child's reward is between 0.1 and 1 a visit |
| MctsPlanner.FirstOnesVisitedOnce | ai/src/mcts-planner.ts:135-139 | with at most as many simulations as candidates exactly the first ones are visited, once, with their own rollout |
| MctsPlanner.AllVisited | ai/src/mcts-planner.ts:91-139 | with at least as many, every candidate is visited |
| MctsPlanner.SelectsHighestScore | ai/src/mcts-planner.ts:131-153 | once all are visited the selected child has the highest mean reward plus bonus less 0.4 times the risk, the first on equality |
| MctsPlanner.TrajectoryRanksAll | ai/src/mcts-planner.ts:176-205 | the trajectory is a stable descending arrangement of all candidates by mean reward, numbered from 1, confidences in [0.2, 0.99] |
| MctsPlanner.TrajectoryOnArms | ai/src/mcts-planner.ts:194-203 | a step repeats its candidate; confidence 0.75 for one not tried, else its mean reward to the hundredth within [0.2, 0.99] |
| MctsPlanner.RolloutOnInputs | ai/src/mcts-planner.ts:155-163 | a rollout is 0.85 less half the risk and 0.05 a level, 0.05 more or less by the draw, kept within [0.1, 1] |
| MctsPlanner.RewardsFollowRisk | ai/src/mcts-planner.ts:155-174 | for risks and draws between 0 and 1, whatever is selected, the rewards of a candidate average to within 0.05 of what its risk alone gives |
| MctsPlanner.SaferRanksFirst | ai/src/mcts-planner.ts:91-191 | for risks and draws between 0 and 1, a tried candidate is never ranked behind a tried one riskier by more than 0.2 |
| RiskOrder.RanksByRiskIff | ai/src/mcts-planner.ts:91-191 | for risks between 0 and 1, the trajectory lists candidates by rising risk for every draw sequence of a length exactly when no candidate can come before a safer one: tried ones by being less than 0.2 riskier, or at exactly 0.2 by a tie and an earlier place where 1 can be drawn; any tried one before untried ones; untried ones by their place |
| RiskOrder.EnoughSimulationsRankByRiskIff | ai/src/mcts-planner.ts:91-191 | with as many simulations as candidates or more and draws below 1, that is the case exactly when any two different risks are at least 0.2 apart |
| RiskOrder.UnsafeOrderBroken | ai/src/mcts-planner.ts:91-191 | otherwise there are draws for which a riskier candidate comes before a safer one |
| RiskOrder.RiskierCanRankFirst | ai/src/mcts-planner.ts:91-191 | searches of two candidates that rank the riskier one first, with the other untried and with both tried |
| MctsPlanner.ConfidencesDescendIff | ai/src/mcts-planner.ts:194-202 | the statistics of a finished search for which confidences fall along the trajectory |
| MctsPlanner.FewSimulationsDescendIff | ai/src/mcts-planner.ts:91-202 | with fewer simulations than candidates they fall exactly when every first rollout, from the risk and its draw, rounds to at least 0.75 |
| MctsPlanner.AlwaysDescendIff | ai/src/mcts-planner.ts:91-202 | they fall for all draws exactly when the candidates to be simulated have a risk of at most 0.01 |
| MctsPlanner.ConfidencesCanRise | ai/src/mcts-planner.ts:91-202 | one simulation of two candidates that ranks a confidence of 0.55 before one of 0.75 |
| MctsPlanner.EnoughSimulationsOrderConfidences | ai/src/mcts-planner.ts:91-202 | with at least one simulation per candidate they do |
| MctsPlanner.PlanConfidenceRange | ai/src/mcts-planner.ts:112-121 | a plan with candidates has confidence in [0.2, 0.99] and risk in [0.01, 0.8] |
| MctsPlanner.PlanConfidenceIsMean | ai/src/mcts-planner.ts:108-122 | a plan's confidence is the mean of those of all its steps to the hundredth, its risk the rest to one; nodes and depth counted; a plan without steps is sure |
| MctsPlanner.SelectNode | ai/src/mcts-planner.ts:125-153 | the recursive selection over the node map picks the child the specification picks |
| MctsPlanner.Backpropagate | ai/src/mcts-planner.ts:165-174 | exactly the node and its ancestors gain a visit and the reward |
| MctsPlanner.Populate | ai/src/mcts-planner.ts:60-89 | the initial tree: a root visited once and one unvisited child per candidate |
| MctsPlanner.RunSimulations | ai/src/mcts-planner.ts:91-101 | the loop over the mutable tree refines the simulations of the specification |
| MctsPlanner.ExtractBestTrajectory | ai/src/mcts-planner.ts:176-205 | the ranked steps of the tree's children |
| MctsPlanner.SearchOptimalPlan | ai/src/mcts-planner.ts:52-123 | a whole search returns the plan of the simulated state |
| Sorting.SortIsStable | ai/src/mcts-planner.ts:185-191 | sorting by descending key: a permutation, descending, equal keys in their original order |
| Sorting.SortedBefore | ai/src/mcts-planner.ts:185-191 | of two elements the one of higher key comes first, and with equal keys the one that came first before |
| CascadingRootCause.CascadingRootCauseAnalyzer.constructor | ai/src/cascading-root-cause.ts:42-72 | the registered services are the default topology |
| CascadingRootCause.CascadingRootCauseAnalyzer.RegisterService | ai/src/cascading-root-cause.ts:77-79 | stores the service under its id, all else unchanged |
| CascadingRootCause.CascadingRootCauseAnalyzer.DiagnoseAlertWave | ai/src/cascading-root-cause.ts:84-160 | the diagnosis of the wave, the empty one refused |
| CascadingRootCause.RootIndexIsFirstMinimum | ai/src/cascading-root-cause.ts:113-124 | the chosen event has the fewest failing dependencies, every earlier one strictly more |
| CascadingRootCause.FindSink | ai/src/cascading-root-cause.ts:113-124 | in a finite set of nodes without a cycle some node has no link inside the set |
| CascadingRootCause.AcyclicRootHasNoFailingDependency | ai/src/cascading-root-cause.ts:84-160 | with acyclic dependencies no direct dependency of the root of any wave is failing |
| CascadingRootCause.RootIsTrueOriginIff | ai/src/cascading-root-cause.ts:80-124 | with acyclic dependencies the root reaches no failing service even through silent ones, in whatever order the alerts come, exactly when no failing service without failing direct dependencies reaches one |
| CascadingRootCause.SilentServiceHidesOrigin | ai/src/cascading-root-cause.ts:46-124 | in the default topology the proxy is called the root while it depends, through a silent backend, on the failing database |
| CascadingRootCause.RootIsOriginIff | ai/src/cascading-root-cause.ts:113-124 | in general the root has no failing dependency exactly when some failing service has none |
| CascadingRootCause.DefaultTopologyIsAcyclic | ai/src/cascading-root-cause.ts:46-72 | the default dependencies have no cycle |
| CascadingRootCause.PlanStartsAtRoot | ai/src/cascading-root-cause.ts:126-150 | steps are numbered from 1, the first alone is about the root, and exactly the failing services occur |
| CascadingRootCause.DiagnosisOnEvents | ai/src/cascading-root-cause.ts:84-160 | root and root failure are those of the first event with the fewest dependencies named in the wave; downstream are the other services in event order; the actions are to remediate a single one, to fix the root, and to drain every other |
| KillChainCorrelator.HistoryIsWindow | ai/src/kill-chain-correlator.ts:69-70 | for arbitrary timestamps and window the stored history is exactly the signals that no later signal has pushed out, in order |
| KillChainCorrelator.Correlator.RecordSignal | ai/src/kill-chain-correlator.ts:51-73 | the history becomes that of one signal more, and its evaluation is returned |
| KillChainCorrelator.Correlator.EvaluateChain | ai/src/kill-chain-correlator.ts:129-170 | the loops compute the progression of the matching signals |
| KillChainCorrelator.Correlator.PruneOldEvents | ai/src/kill-chain-correlator.ts:201-204 | exactly the signals from the cutoff on remain, in order |
| KillChainCorrelator.RelevantOnFields | ai/src/kill-chain-correlator.ts:130-132 | counted are exactly the signals of that address on that host, or on any host for "*", in their order |
| KillChainCorrelator.OthersDoNotCount | ai/src/kill-chain-correlator.ts:129-170 | a signal of another address or another host, anywhere in the history, leaves the evaluation as it is |
| KillChainCorrelator.ScoreTable | ai/src/kill-chain-correlator.ts:150-154 | 12, 23, 35, 47, 58 or 70 by stage and six for each of the first five events, at most 100 |
| KillChainCorrelator.SinceAll | ai/src/kill-chain-correlator.ts:201-204 | pruning keeps the length of the history exactly when it keeps every signal |
| KillChainCorrelator.NothingPrunedIff | ai/src/kill-chain-correlator.ts:69-70 | recording further signals prunes nothing exactly when no stored signal and none of them falls behind a later one by more than the window |
| KillChainCorrelator.ActiveStages | ai/src/kill-chain-correlator.ts:139-148 | the active stages are the matched ones, once each, in canonical order |
| KillChainCorrelator.CurrentIsFurthest | ai/src/kill-chain-correlator.ts:148-151 | the current stage is the furthest one matched |
| KillChainCorrelator.PreemptedExactlyWhen | ai/src/kill-chain-correlator.ts:151-166 | scores are between 12 and 100, and preemption holds exactly at stage index 4 or above, 3 with three events, or 2 with five |
| KillChainCorrelator.ScoreNeverFalls | ai/src/kill-chain-correlator.ts:51-73 | while no matching signal leaves the window, recording further signals never lowers the score, drops a stage or lifts a preemption, whatever else is pruned |
| NeuralClassifier.Softmax | ai/src/neural-classifier.ts:367-387 | the loops compute the shifted, floored and normalised exponentials |
| NeuralClassifier.SoftmaxIsDistribution | ai/src/neural-classifier.ts:367-387 | probabilities are positive and sum to one; the most probable index is the first maximal logit, with at least one in n |
| NeuralClassifier.PredictsLargestLogit | ai/src/neural-classifier.ts:703-724 | the predicted class is that of the first maximal logit, its confidence is its probability and at least one in the number of classes |
| NeuralClassifier.LayerNormCenters | ai/src/neural-classifier.ts:347-365 | a normalised layer has mean zero and mean square below one |
| NeuralClassifier.NormalizeLayer | ai/src/neural-classifier.ts:347-365 | the three loops compute the normalised layer, never dividing by zero |
| NeuralClassifier.DenseLayer | ai/src/neural-classifier.ts:641-645 | each output is its bias plus its column against the input |
| NeuralClassifier.ResidualLayer | ai/src/neural-classifier.ts:649-657 | a dense layer, activated, plus its input |
| NeuralClassifier.GatedLayer | ai/src/neural-classifier.ts:659-668 | a dense layer used as a gate on its input, plus the input |
| NeuralClassifier.NeuralThreatClassifier.Predict | ai/src/neural-classifier.ts:636-725 | the stages over the stored arrays compute the classification of the logits |
| NetworkLaws.NarrowLogit | ai/src/neural-classifier.ts:636-701 | the network of one channel written out: layer, residual block, gate, second residual block, bottleneck, each with its own weight and bias; the logit is the output bias plus the output weight times a number of the bottleneck's sign |
| NetworkLaws.NarrowHidden | ai/src/neural-classifier.ts:640-678 | the five hidden stages on one channel, and nothing on any other |
| NetworkLaws.EveryTensorMatters | ai/src/neural-classifier.ts:636-701 | for each of the twelve tensors two sets of weights that differ in it alone give some input different logits |
| NetworkLaws.BlocksDiffer | ai/src/neural-classifier.ts:649-678 | exchanging the tensors of the two residual blocks changes the logits |
| NetworkLaws.BlocksWithoutWeights | ai/src/neural-classifier.ts:649-668 | without weights a residual block is the identity and the gate multiplies by 1.5 |
| NetworkLaws.DenseIsAffine | ai/src/neural-classifier.ts:641-645 | an input with one entry meets its row of the matrix; the effects of inputs add up |
| NetworkLaws.LeakyReluOnInputs | ai/src/neural-classifier.ts:331-333 | positive values pass, negative ones are divided by 100 |
| NetworkLaws.SigmoidOnInputs | ai/src/neural-classifier.ts:339-341 | the gate is in (0,1), a half at zero, given by its odds up to 10 either way, constant beyond |
| NetworkLaws.SigmoidRises | ai/src/neural-classifier.ts:339-341 | it rises strictly from -10 to 10 |
| NetworkLaws.LayerNormOnInputs | ai/src/neural-classifier.ts:347-365 | normalising takes off the mean and divides by the root of the mean square deviation plus 0.00001 |
| NetworkLaws.SoftmaxOdds | ai/src/neural-classifier.ts:367-387 | a probability is that of the first maximal logit times the exponential of the difference, not below -20 |
| NeuralClassifier.NeuralThreatClassifier.constructor | ai/src/neural-classifier.ts:244-329 | twelve separate tensors of the sizes of the layers, biases 0.01 |
| NeuralClassifier.NeuralThreatClassifier.ExportWeights | ai/src/neural-classifier.ts:939-959 | dimensions, classes and a copy of every tensor under its name |
| NeuralClassifier.NeuralThreatClassifier.LoadWeights | ai/src/neural-classifier.ts:961-996 | accepts exactly the files of matching dimensions, classes, lengths and bounded finite numbers; then every tensor is the file's, otherwise none has changed |
| NeuralClassifier.AcceptsOnFields | ai/src/neural-classifier.ts:961-969 | the files accepted, by field: 64 inputs, 64 and 48 channels, the classes in order, and twelve tensors by name and size, all entries finite and at most 1000000 in size |
| NeuralClassifier.ExportThenLoad | ai/src/neural-classifier.ts:939-969 | exported weights are accepted exactly when all are within the bound, and read back as they were |
| NeuralClassifier.Reload | ai/src/neural-classifier.ts:939-996 | weights exported by one classifier load into another exactly when the classes agree and all weights are within the bound, and then both predict the same for every input |
| NeuralClassifier.ByClassFinds | ai/src/neural-classifier.ts:708-712 | with distinct class names every class, and nothing else, has its own probability |
| TextFeatures.HashText | ai/src/neural-classifier.ts:609-628 | the 44 text features become those of the words; no other feature changes |
| TextFeatures.SaturatesOnce | ai/src/neural-classifier.ts:625 | cutting off at one after every word equals cutting off once at the end |
| TextFeatures.FeatureOnWords | ai/src/neural-classifier.ts:619-626 | a feature is a quarter for each word whose hash falls there, at most one |
| TextFeatures.FeatureWordsOnText | ai/src/neural-classifier.ts:617-619 | the text is cut at every character but a-z, digits and underscore; runs of three or more count |
| TextFeatures.HashOnCharacters | ai/src/neural-classifier.ts:620-623 | the hash is the characters as digits in base 31, cut to 31 bits after each |
| TextFeatures.FeaturesIgnoreOrder | ai/src/neural-classifier.ts:609-628 | text features are in [0,1] and do not depend on the order of the words |
| Evaluation.CountOutcomes | ai/src/reviewed-training.ts:13-18 | the loop's counters and table are the counts of the outcomes |
| Evaluation.CountsAreNumbers | ai/src/reviewed-training.ts:13-18 | each counter is the number of outcomes with these labels |
| Evaluation.ScoresOnOutcomes | ai/src/reviewed-training.ts:19-22 | precision, recall, F1 and support of a label by the numbers of outcomes, zero where there are none |
| Evaluation.Evaluate | ai/src/reviewed-training.ts:12-26 | the report of a partition, its averages over the labels with support |
| Evaluation.ConfusionIsConserved | ai/src/reviewed-training.ts:13-18 | rows sum to label totals, columns to predicted totals, the diagonal to the correct ones, each margin to all samples |
| Evaluation.AccuracyIsWeightedRecall | ai/src/reviewed-training.ts:19-25 | accuracy is the mean recall weighted by support |
| Evaluation.AveragesAreProportions | ai/src/reviewed-training.ts:19-25 | accuracy and both averages are in [0,1] |
| Evaluation.F1FormulasAgree | scripts/evaluate-classifier.ts:20-26 | the harmonic mean equals 2tp/(predicted+actual) for every label seen |
| Evaluation.EvaluateSaved | scripts/evaluate-classifier.ts:10-28 | the script's accuracy, table and per-class scores are those of the outcomes |
| Evaluation.EvaluateFile | scripts/evaluate-classifier.ts:7-28 | nothing is reported exactly without validated weights, or for a dataset that is empty, larger than 10000, or has an unknown label or an event that is no object; otherwise the report is that of the predictions |
| Evaluation.RowTotal | scripts/evaluate-classifier.ts:23 | summing a row of the table gives the samples with that label |
| Evaluation.ColumnTotal | scripts/evaluate-classifier.ts:22 | summing a column over all rows gives the samples predicted so |
| Evaluation.EvaluationsAgree | scripts/evaluate-classifier.ts:19-26 | on the same outcomes both evaluations have the same accuracy and list the same labels with the same F1 and support, and the same precision and recall where the script gives one |
| Evaluation.GatesMakeAveragesComparable | ai/src/reviewed-training.ts:5-10 | past the gates every partition is non-empty and has exactly the labels of the dataset, so all averages are over the same labels |
| Evaluation.GateIff | ai/src/reviewed-training.ts:5-10 | a dataset passes exactly with at most 2000 samples, all approved, reviewed and of known classes, no event twice, 20, 10 and 10 samples in the partitions and every label in each; the first of these that fails is the reason |
| Evaluation.PartOnFields | ai/src/reviewed-training.ts:7 | a partition holds exactly the samples marked with it, in their order |
| Evaluation.GatesPreventLeakage | ai/src/reviewed-training.ts:5-10 | past the gates every sample is in one partition and no event in two, so nothing measured was trained on |
| Evaluation.TrainReviewedExamples | ai/src/reviewed-training.ts:4-33 | refused exactly by the first gate that fails or, past them, by a baseline the weight loader rejects; otherwise eligible exactly when good on both held-out partitions and no less accurate than before |
| ExperienceLedger.ExperienceReplayLedger.RecordTrial | ai/src/experience-ledger.ts:43-48 | appends the trial with the clock's time |
| ExperienceLedger.ExperienceReplayLedger.EvaluateRemedyWeights | ai/src/experience-ledger.ts:50-88 | filtering, grouping and scoring loops compute the ranked scores |
| ExperienceLedger.GroupsPartition | ai/src/experience-ledger.ts:59-64 | the groups by action add up to all matching trials |
| ExperienceLedger.ScoresAccountForAllTrials | ai/src/experience-ledger.ts:50-88 | one score per action tried, totals adding up to the matching trials, weights in [0.06, 1], best first |
| ExperienceLedger.ScoreOnTrials | ai/src/experience-ledger.ts:50-84 | every score is of the trials of that fingerprint, that archetype or any for "*", and that action: its share of successes, its mean duration, and its weight of seven tenths of that share and 0.06 for each of up to five trials, to the hundredth |
| ExperienceLedger.ActionsInOrder | ai/src/experience-ledger.ts:59-66 | actions are listed in the order in which they were first tried |
| ExperienceLedger.SuccessNeverLowers | ai/src/experience-ledger.ts:74-76 | a further success never lowers the rounded weight |
| ExperienceLedger.FailureNeverRaisesIff | ai/src/experience-ledger.ts:74-76 | the exact counts for which a further failure does not raise it |
| ExperienceLedger.NewTrialMovesOneWeight | ai/src/experience-ledger.ts:43-88 | recording a matching trial changes the group of its action only, in the direction just stated |
| Text.JoinSplit | ai/src/coding-assistant.ts:342-343 | joining what was split gives the text back |
| Text.SplitJoin | ai/src/coding-assistant.ts:342-343 | splitting what was joined from pieces without the separator gives the pieces back |
| UnifiedDiff.SynthesizeUnifiedDiff | ai/src/coding-assistant.ts:341-359 | the two loops write the header, the removals and the new lines |
| UnifiedDiff.DiffLines | ai/src/coding-assistant.ts:345-357 | split into lines, a diff is its header, its body, and an empty last piece |
| UnifiedDiff.RoundTripIff | ai/src/coding-assistant.ts:341-359 | keeping the added and common lines after the header gives the modified text for all texts, exactly when the path is readable |
| UnifiedDiff.RemovedLinesIff | ai/src/coding-assistant.ts:346-350 | the removed lines read back are exactly the original lines absent from the modified text, in order, if and only if no continuation line of the path starts with a minus |
| UnifiedDiff.AddedLinesIff | ai/src/coding-assistant.ts:351-357 | the lines read back with a plus are exactly the modified lines that are not among the original ones, in order, if and only if the path has at most one line end, not followed by a plus |
| UnifiedDiff.CommonLinesIff | ai/src/coding-assistant.ts:351-357 | the lines read back with a space are exactly the modified lines that are among the original ones, in order, if and only if no continuation line of the path starts with a space |
| UnifiedDiff.DecimalReadsBack | ai/src/coding-assistant.ts:345 | the counts in the hunk header read back as the numbers they are |
| LearningEvent.RefusedIffExposed | ai/src/learning-event.ts:5-14 | refused exactly when a value not under a secret-named key is nested too deeply or is a non-finite number |
| LearningEvent.CleanIsCleaned | ai/src/learning-event.ts:7-13 | a cleaned value keeps shape, lengths and keys; text is sanitised and secret-named entries redacted |
| LearningEvent.SanitizingIsFaithful | ai/src/learning-event.ts:4-16 | an event is either refused for that reason or cleaned in that way |
| LearningEvent.SanitizingIsIdempotentIff | ai/src/learning-event.ts:4-16 | sanitising twice is sanitising once for all accepted events, which are objects, exactly when the text sanitiser is idempotent or every key counts as secret |
| LearningEvent.CleaningIsIdempotentIff | ai/src/learning-event.ts:5-14 | for accepted values of any kind, exactly when the text sanitiser is idempotent |

## Left out

- ProviderStream.ChunkingIsInvisible: assumes no CR CR LF; necessity is shown for folding (`FoldingIgnoresCutsIff`) and by a family of streams, not for every text, since some cuts of such a text still show the same data.
- SemanticCache.SemanticVectorCache.Set: the random id is taken to be fresh; the creation time and saving to disk are not modelled.
- NeuralClassifier.NeuralThreatClassifier.Predict: the latency is not modelled.
- NeuralClassifier.NeuralThreatClassifier.LoadWeights: the last branch of the code, for files with fewer outputs, is never reached behind the dimension check and has no counterpart.
- RagEngine.RagEngine.LoadStored: a stored embedding of fewer than 64 numbers, which makes its scores NaN, is excluded; reading the file and adding the default playbooks are not modelled.
- RagEngine.RagEngine.Query: the answer is given by the document it is written from, not as text; the latency is not modelled.
- CascadingRootCause.PlanStartsAtRoot: no order beyond the root is claimed; the code follows the events.
- CascadingRootCause.CascadingRootCauseAnalyzer.DiagnoseAlertWave: explanation, commands and rationales are texts built from the results modelled and are left out.
- KillChainCorrelator.Correlator.RecordSignal: the stage is given; the keyword table that derives it from the threat text is left out.
- KillChainCorrelator.Correlator.EvaluateChain: narrative and remedy commands are texts built from the results modelled and are left out.
- MctsPlanner.SearchOptimalPlan: child ids are taken to be distinct and different from the root's; the exploration bonus is an arbitrary function of the two visit counts.
- ModelGateway.Gateway.CompleteRequest: the model name of the answer and the latency are not modelled; the answer of the local fallback is not either.
- ModelGateway.Gateway.StreamProvider: the provider told to the consumer is the label of the chunks.
- Floating point: all arithmetic is exact, so rounding of doubles and of `Float32Array` is not captured.
- HTTP, JSON parsing and UTF-8 decoding: chunks are characters with a byte count, events the result of an arbitrary parse.
- Calls to the gateway that overlap in time: a slower call may overwrite a longer cooldown.
- Model names, message compaction, latency fields, simulated failure texts, exceptions thrown by observers, and the refusal of production calls without one, in the gateway.
- Loading and saving of the cache, saving of the retrieval store, and the seeded topology.
- The preference pairs of the experience ledger: pushing and counting only.
- The old-side line count in the diff's hunk header, which is not the count of the body in general.
- Training by backpropagation: predictions before and after it are arbitrary functions.
- The hand-set metric features of the classifier's input vector: one branch settles each.
- Keyword cascades, signature normalisation, import analysis, worker and migration scripts, and the user interface.
