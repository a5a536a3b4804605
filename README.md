# Temporal document graph: a verified Dafny model

This project models the core of a temporal document graph. It has three layers.

- **The graph.** `totg_core_fixed.py` stores documents as nodes keyed by id.
  - Each node has an integer timestamp and a weekly layer label.
  - Typed edges are filed under their source and, in a reverse index, under their target.
  - A list of `(timestamp, id)` entries is kept sorted with `bisect.insort`.
  - The graph answers time-range lookups, hop- and time-bounded breadth-first reachability in both directions, `has_path` / `get_shortest_path`, direct successors and predecessors, and adjacent layers.
- **The Markovian chunked analyzer.** `totg_markovian.py` tiles the span between two documents into chunks of `chunk_size_days`. For each chunk it:
  - gathers the documents in the window by a multi-source traversal seeded from the previous state;
  - scores critical events;
  - links documents that reach each other;
  - counts repeated words as entities;
  - folds the chunk into a bounded `TemporalCarryover`: top-N events, the most recent chains, the top-N entities and seeded attention scores.
- **Semantic similarity and bidirectional attention.** `totg_attention_fixed.py` keeps a TF-IDF corpus: a tokenizer, document frequencies, term frequencies, IDF and cosine similarity. Four attention heads weigh the reachable documents before and after a node by `similarity * temporal decay * keyword boost`. The results are aggregated, ranked and kept in a time-to-live cache.

## How the model is built

- Timestamps are whole seconds, and `timedelta(days=w)` is `w * 86400`.
- `.days` of a difference rounds toward negative infinity (`FloorDiv`).
- Python's order-preserving dicts become item sequences with distinct keys (module `Assoc`).
- Sets stay sets.
- Python slicing is modelled literally:
  - `s[:n]` is `PyStd.Prefix`;
  - `s[-n:]` is `PyStd.SuffixAsWritten`, which returns the whole list when `n == 0`.
- The graph and the two stateful classes of the attention file are Dafny classes whose methods change their fields. Their loops are Dafny loops with invariants.
- `has_path` is a breadth-first search, proved against a reachability definition (`BfsTheory.Reach`) by an invariant over its hop-ordered FIFO queue.
- `_get_docs_in_window` is proved against `Markovian.ReachedBy`: each visited id is a start point or a neighbour of an id visited before it.
  - Its FIFO order is pinned for the start points, which are popped first when they are distinct.
  - The documents are the visited stored ids inside the window, in visit order.
- The result of a traversal of a Python `set` depends on iteration order, so `get_forward_nodes` / `get_backward_nodes` are specified relationally.
  - The result holds distinct candidates, sorted by time.
  - It has the length the slice keeps.
  - Every candidate it cuts lies beyond every one it keeps.
- `math.log` and `math.sqrt` are parameters (`Semantic.RealMath`), constrained only by `Semantic.Lawful`: `log` is non-negative from 1 on, and `sqrt` is non-negative, zero exactly at 0 and squares back to its argument. `pow` with a whole exponent is computed by recursion.
- The clock ("now") is a parameter.

## Behaviour worth noting

- The attention score of a candidate is the sum of the applicable heads' weights divided by the number of ALL heads (four), not by the applicable ones (`totg_attention_fixed.py:317`).
- The 0.01 threshold applies to each head's weight before aggregation, not to the combined score (`totg_attention_fixed.py:434-435`).
- `chunk_index` grows by two per chunk: once in `_extract_carryover` and once in the loop of `analyze_long_chain` (`totg_markovian.py:594,325`).
- The attention cache is emptied only by `invalidate_cache` (`totg_attention_fixed.py:494-496`). Adding a node or an edge to the graph (`totg_core_fixed.py:121-176`) leaves cached results in place.
- The relation type of a causal link is always `"sequential"` (`totg_markovian.py:672`). `graph.edges` is keyed by a single node id, so the tuple lookup at `totg_markovian.py:675-678` never matches.
- The layer label is `days_since_epoch // 7` whatever `layer_duration_days` is (`totg_core_fixed.py:63-64`).
- A node's `temporal_index` is the index length minus one at the time it was added (`totg_core_fixed.py:133`). After an insertion that is not the latest in time, that value is not the entry's position in the sorted index.

## Model

| member | source | states |
|---|---|---|
| TemporalTypes.DaysSinceEpoch | totg_core_fixed.py:63 | whole days since the epoch, rounded toward negative infinity as `timedelta.days` is |
| TemporalTypes.MakeNode | totg_core_fixed.py:42-56 | a new node has temporal index -1, keeps a given layer label and otherwise gets the computed weekly label |
| TemporalTypes.LayerIsWeek | totg_core_fixed.py:58-64 | the computed layer label reads back as the week `floor(ts / 604800)` containing the timestamp, independent of the layer duration |
| TemporalTypes.LayerLabelRoundTrip | totg_core_fixed.py:441-447 | reading back the label `layer_{w}` gives `w` for every integer `w`, negative included |
| TemporalTypes.ParseIntRoundTrip | totg_core_fixed.py:444 | `int(str(n)) == n` for every integer |
| TemporalTypes.SecondField | totg_core_fixed.py:444 | `s.split(c)[1]` fails exactly when `c` does not occur, and the field never contains `c` |
| TemporalTypes.EntryLeTotal | totg_core_fixed.py:132 | tuple comparison of index entries is total, so the index can be kept sorted |
| TemporalTypes.EntryLeTrans | totg_core_fixed.py:132 | tuple comparison of index entries is transitive |
| Bisect.BisectLeft | totg_core_fixed.py:192 | the returned position splits the index into entries below `x` and entries not below it |
| Bisect.BisectRight | totg_core_fixed.py:193 | the returned position splits the index into entries not above `x` and entries above it |
| Bisect.BisectRightTime | totg_core_fixed.py:193 | the timestamp-only upper bound used by the corrected range query: the position splits a sorted index into the entries at or before `t` and those after it |
| Graph.InsertKeepsSorted | totg_core_fixed.py:132 | inserting at the `bisect_right` position keeps the index sorted by `(timestamp, id)` |
| Graph.TemporalGraph.constructor | totg_core_fixed.py:93-111 | a new graph is empty and satisfies the graph invariant |
| Graph.TemporalGraph.AddNode | totg_core_fixed.py:121-145 | returns true; the node, with `temporal_index` set to the new index length minus one, replaces any node of the same id; the index grows by exactly one entry and stays sorted even for a duplicate id; the id is appended to its layer; edges are unchanged |
| Graph.AddNodeKeepsInv | totg_core_fixed.py:129-136 | adding a node keeps the graph invariant: index sorted and naming stored nodes, adjacency between stored nodes, layers naming stored nodes |
| Graph.TemporalGraph.AddEdge | totg_core_fixed.py:147-180 | fails and changes nothing when an endpoint is missing; otherwise appends the edge to exactly the forward list of its source and the reverse list of its target; warns exactly for a sequential or causal edge going back in time |
| Graph.AddEdgeKeepsInv | totg_core_fixed.py:170-172 | appending an edge between stored nodes keeps the graph invariant |
| Graph.TemporalGraph.GetNodesInTimerangeAsWritten | totg_core_fixed.py:186-196 | the query as written returns the index ids between the two bisection bounds |
| Graph.AsWrittenBounds | totg_core_fixed.py:192-193 | the written bounds keep exactly the entries in `[start, end]` except those at `end` whose id sorts above the sentinel |
| Graph.SentinelDropsId | totg_core_fixed.py:193 | an id starting above U+00FF, stored at exactly the end time, is dropped as written and returned as intended |
| Graph.TemporalGraph.GetNodesInTimerange | totg_core_fixed.py:186-196 | returns exactly the ids of the index entries whose timestamp lies in `[start, end]`, in index order, all of them stored nodes |
| Graph.SelectWindow | totg_core_fixed.py:195 | when exactly the positions between two bounds qualify, selecting them is slicing the index |
| Graph.TemporalGraph.GetDirectSuccessors | totg_core_fixed.py:356-358 | one target per edge filed under the id, each a stored node |
| Graph.TemporalGraph.GetDirectPredecessors | totg_core_fixed.py:360-362 | one source per edge filed in the reverse index under the id, each a stored node |
| Graph.TemporalGraph.SuccessorsMirrorPredecessors | totg_core_fixed.py:170-172 | `v` is a direct successor of `u` exactly when `u` is a direct predecessor of `v` |
| Graph.TemporalGraph.HasEdge | totg_core_fixed.py:364-369 | true exactly when `to` is among the direct successors of `from` |
| Graph.TemporalGraph.Traverse | totg_core_fixed.py:290-319 | the traversal terminates on cyclic graphs and visits exactly the nodes reachable within the hop limit, where nodes beyond the time bound are visited but not expanded |
| Graph.TemporalGraph.Visit | totg_core_fixed.py:303-317 | one dequeued node is visited once, its unvisited neighbours are queued one hop further, and fewer nodes remain unvisited |
| Graph.TemporalGraph.BfsForward | totg_core_fixed.py:290-319 | visits exactly the nodes reachable forward within the hop limit, expanding only nodes not later than the end time |
| Graph.TemporalGraph.BfsBackward | totg_core_fixed.py:321-350 | visits exactly the nodes reaching the target within the hop limit, expanding only nodes not earlier than the start time |
| Graph.PushNeighbours | totg_core_fixed.py:312-317 | appends, in edge order, one entry per neighbour not yet visited, one hop further |
| Graph.CollectSet | totg_core_fixed.py:227-235 | the collected list has no repetition and holds exactly the members of the set that pass the filter |
| Graph.TimestampRanked | totg_core_fixed.py:237-242 | sorting the candidates by timestamp and slicing keeps a time-ordered prefix that is as long as the slice allows and beats every candidate cut |
| Graph.TemporalGraph.GetForwardNodes | totg_core_fixed.py:198-242 | unknown id gives nothing; otherwise distinct ids other than the source, reachable within the hop limit, strictly later and within the window, in ascending time, as many as `max_results` allows, none later than one it dropped |
| Graph.TemporalGraph.GetBackwardNodes | totg_core_fixed.py:244-288 | unknown id gives nothing; otherwise distinct ids reaching the target within the hop limit, strictly earlier and within the window, in descending time, as many as `max_results` allows, none earlier than one it dropped |
| Graph.TemporalGraph.HasPath | totg_core_fixed.py:371-397 | true exactly when both ids are stored and they are equal or joined by a forward path of at most `max_hops + 1` edges |
| Graph.TemporalGraph.PathWitness | totg_core_fixed.py:371-397 | any forward walk of at most `max_hops + 1` edges between stored nodes makes `has_path` true |
| Graph.TemporalGraph.GetShortestPath | totg_core_fixed.py:399-431 | a path is returned exactly when `has_path` holds; it starts at `from`, ends at `to`, follows forward edges, repeats no node, is `[from]` when the ids are equal and has at most `max_hops + 2` nodes |
| Graph.SearchPath | totg_core_fixed.py:410-431 | the path search finds a path exactly when `to` is reachable within `max_hops + 1` steps, and the path is a repetition-free walk |
| Graph.Advance | totg_core_fixed.py:414-429 | one dequeue of the path search keeps its invariant and makes progress |
| Graph.VisitHead | totg_core_fixed.py:424-429 | visiting a new head queues the extended paths to its unvisited targets |
| Graph.TemporalGraph.GetLayerNodes | totg_core_fixed.py:437-439 | an unknown layer gives nothing; the ids listed are stored nodes |
| Graph.TemporalGraph.GetAdjacentLayers | totg_core_fixed.py:441-454 | an unreadable label gives nothing; otherwise exactly the existing layers of the previous week (for a positive week) and the next week |
| Graph.TemporalGraph.AdjacentWeeks | totg_core_fixed.py:441-454 | the layers adjacent to a node's layer are those of the weeks before and after the one containing its timestamp |
| Graph.TemporalGraph.ExistingLayers | totg_core_fixed.py:449-452 | keeps exactly the labels that name a layer |
| BfsTheory.Complete | totg_core_fixed.py:300-317 | when the queue runs empty, the visited set is exactly the set reachable within the hop limit |
| BfsTheory.VisitStep | totg_core_fixed.py:303-317 | visiting the head of the queue keeps the search invariant: visited nodes are reachable, the queue is ordered by hop count, and unvisited neighbours of expanded nodes are queued |
| BfsTheory.ReachLast | totg_core_fixed.py:312-317 | a node reached in `k + 1` steps was reached in `k`, or neighbours an unblocked node reached in `k` |
| BfsTheory.TargetFound | totg_core_fixed.py:387-388 | popping the target means it lies within `max_hops + 1` steps of the source |
| BfsTheory.TargetUnreached | totg_core_fixed.py:397 | an exhausted search means the target is not within `max_hops + 1` steps of the source |
| BfsTheory.WalkReaches | totg_core_fixed.py:371-397 | a walk of `k` edges ends at a node reachable in `k` steps |
| PathSearch.PushPaths | totg_core_fixed.py:424-429 | queues `path + [t]` one hop further for each edge to an unvisited target `t` |
| PathSearch.PathsVisit | totg_core_fixed.py:418-429 | each queued path is a repetition-free walk from the source to its last node, of the recorded hop count |
| PathSearch.SearchExhausted | totg_core_fixed.py:431 | an exhausted path search means the target is not reachable within the hop limit |
| MarkovState.GetSize | totg_markovian.py:96-104 | the size of a carryover: the entry count of its five collections |
| MarkovState.IsEmptyIff | totg_markovian.py:106-108 | a carryover is empty exactly when all five collections are empty |
| MarkovState.Summary | totg_markovian.py:649 | short content is kept; longer content becomes its first 100 characters followed by "..." |
| MarkovState.CriticalIff | totg_markovian.py:619-638 | a document is critical exactly when it is the chunk's first, reaches more than two documents, or had a previous attention above 1/3 |
| MarkovState.CriticalEventsSound | totg_markovian.py:603-652 | at most one event per document, each for a document of the chunk with its computed importance above 0.6 |
| MarkovState.FirstIsCritical | totg_markovian.py:622-624 | the first document of a non-empty chunk always yields the first event |
| Markovian.MarkovianAnalyzer.IdentifyCriticalEvents | totg_markovian.py:603-652 | the events are those of the critical documents in document order, scored from the previous attention and each document's reach degree |
| Markovian.ScoreDoc | totg_markovian.py:620-636 | the accumulated importance equals the scoring formula |
| Markovian.MarkovianAnalyzer.ReachDegree | totg_markovian.py:631-634 | the connectivity count is the number of nodes `get_forward_nodes` plus `get_backward_nodes` return with their default arguments |
| Markovian.MarkovianAnalyzer.IdentifyCausalRelationships | totg_markovian.py:655-681 | every link joins a chunk document to a chunk document it reaches forward with fewer than 50 other forward candidates strictly earlier, and is `"sequential"`; every target the default query is sure to return (fewer than 50 other candidates as early) is linked; for distinct documents no triple repeats, the triples come grouped by source in document order, and each group's targets are in time order |
| Markovian.LinksSorted | totg_markovian.py:666-679 | links to distinct targets in time order are distinct and in time order |
| Markovian.LinksOrdered | totg_markovian.py:664-679 | appending one more document's links keeps the triples distinct, grouped by source in document order and time-ordered within a group |
| Markovian.LinksFacts | totg_markovian.py:666-679 | one document's links are exactly the triples to its forward results that lie in the chunk |
| Markovian.MarkovianAnalyzer.LinksSound | totg_markovian.py:664-679 | extending the link list with one more document's links keeps every link sound: both ends are chunk documents, and the target is a forward candidate of the source with fewer than 50 others strictly earlier, so one the 50-result query can return |
| Markovian.MarkovianAnalyzer.LinksComplete | totg_markovian.py:664-679 | after one more document, every forward pair from the documents so far is linked |
| MarkovState.TallyDocsFacts | totg_markovian.py:697-715 | the tally counts every whitespace word longer than four characters by its number of occurrences over all documents, and records exactly those words |
| MarkovState.KeyEntitiesFacts | totg_markovian.py:684-720 | the entities are exactly the long words occurring at least twice in the chunk, each with its occurrence count; keys are distinct |
| Markovian.ExtractKeyEntities | totg_markovian.py:684-720 | the loop over documents and words computes the key entities |
| MarkovState.StartPointsFacts | totg_markovian.py:465-480 | the frontier is `[starting_doc]` when given; otherwise exactly the first 10 attention keys and the ids of the first 5 critical events, without repetition, at most 15 |
| MarkovState.AddMissingFacts | totg_markovian.py:477-479 | appending the ids not yet present keeps the old frontier as a prefix, adds no repetition and covers both lists |
| Markovian.ComputeStartPoints | totg_markovian.py:465-480 | the loop computes the frontier |
| Markovian.MarkovianAnalyzer.Search | totg_markovian.py:484-525 | the traversal terminates; every frontier id is visited, distinct frontier ids first and in order; each visited id is a frontier id or one the 50-result queries can return for an earlier one (fewer than 50 candidates of its direction strictly nearer in time); every sure neighbour of a visited id is visited; the returned documents are the visited stored ids in the window, in visit order |
| Markovian.StartsVisit | totg_markovian.py:489-497 | while frontier ids are pending, the id popped is the next of them and the queue still begins with the rest |
| Markovian.StartsSkip | totg_markovian.py:494-496 | with distinct frontier ids, an already visited id is never popped before all of them are visited |
| Markovian.WindowIdsPrefix | totg_markovian.py:509-510 | a prefix of the visit order keeps a prefix of the window's documents |
| Markovian.MarkovianAnalyzer.BfsStep | totg_markovian.py:491-523 | one dequeue keeps the traversal invariant and makes progress |
| Markovian.MarkovianAnalyzer.NeighboursQueued | totg_markovian.py:514-523 | every id the default forward and backward queries return is a candidate of its direction with fewer than 50 others strictly nearer in time, and every candidate with fewer than 50 others of its direction as near in time is returned |
| Graph.SureKept | totg_core_fixed.py:237-242 | a time-sorted slice to `n` keeps every candidate with fewer than `n` others at or before its time (ascending) or at or after it (descending), whatever the order of ties |
| Graph.PossibleOnly | totg_core_fixed.py:237-242 | a time-sorted slice keeps only candidates with fewer others strictly nearer in time than the slice is long |
| Graph.FewAreSure | totg_core_fixed.py:242 | when there are at most `n` candidates the slice is sure to keep all of them |
| Markovian.ReachedByIff | totg_markovian.py:514-523 | a node is reached by an order of visits exactly when it neighbours one of the visited nodes |
| Markovian.VisitDocs | totg_markovian.py:509-510 | a visited document is kept exactly when its timestamp lies in the window, so the documents stay the window ids of the visit order |
| Markovian.BfsDone | totg_markovian.py:491 | an empty queue means every neighbour of a visited node was visited |
| Markovian.Enqueue | totg_markovian.py:515-523 | the queue gains exactly the neighbours not yet visited |
| Markovian.MarkovianAnalyzer.DocsInWindow | totg_markovian.py:452-525 | meets `Search`'s specification for the frontier ids: the documents are the visited stored nodes in the window, each once, in visit order; distinct frontier ids are visited first; an empty frontier visits nothing and gives no documents |
| Markovian.MarkovianAnalyzer.ProcessChunk | totg_markovian.py:374-449 | the chunk's documents are the result of a traversal meeting `Search`'s specification from the frontier ids (so an empty frontier gives an empty chunk); the chunk holds their ids, critical events, ordered links and key entities, with the chunk index of the previous state; the frontier ids inside the window come first among its documents, in frontier order; an empty window gives an empty chunk |
| Markovian.MarkovianAnalyzer.EmptyFrontierEmptyChunk | totg_markovian.py:482-483 | a chunk whose start-point list is empty holds no documents and no ids, as the search returns nothing for an empty frontier |
| MarkovState.CarryoverEventsAndChains | totg_markovian.py:546-576 | the kept events are the `max_events` most important of previous and current, in non-increasing importance, outranking every dropped one; the chains are the most recent `max_chains` of previous and current |
| MarkovState.MergeEntitiesFacts | totg_markovian.py:554-564 | merging keeps each key's record, replaces it by the combination for shared keys and inserts new ones; keys stay distinct |
| MarkovState.MergeMentions | totg_markovian.py:557-561 | after a merge, each key's mentions are the sum of its mentions on both sides |
| MarkovState.CarryoverEntities | totg_markovian.py:553-572 | the kept entities are the `max_entities` most mentioned of the merged dict, in non-increasing mentions, with distinct keys |
| MarkovState.SeedAttentionFacts | totg_markovian.py:578-586 | every retained event id scores 1.0, every other id among the chunk's last 10 ids scores 0.8, and there are no other keys |
| MarkovState.CarryoverBookkeeping | totg_markovian.py:588-600 | open questions pass through; chunk index +1; document count grows by the chunk's documents; the time range keeps its start and ends at the chunk end |
| MarkovState.CarryoverSizeBound | totg_markovian.py:96-104 | the new carryover's size is at most `max_events + max_entities + max_chains + (10 + max_events)` plus the open questions |
| MarkovState.DefaultSizeBelow100 | totg_markovian.py:212-214 | with the default limits and no open questions the size is at most 65, below 100 |
| MarkovState.TrimChainsAsWritten | totg_markovian.py:576 | the chain trim as written keeps every chain when the limit is 0 |
| MarkovState.ZeroLimitKeepsChains | totg_markovian.py:576 | with `max_carryover_chains == 0` the written trim keeps a chain that the intended trim drops |
| Markovian.MarkovianAnalyzer.NextCarryover | totg_markovian.py:528-600 | the loops compute the new carryover |
| Markovian.MergeInto | totg_markovian.py:555-564 | the merge loop computes the merged entities |
| Markovian.PutEach | totg_markovian.py:581-586 | the assignment loop sets each listed id to the value |
| MarkovState.NextStateBound | totg_markovian.py:324-326 | one loop step keeps the state's dicts well formed, advances the chunk index by two and keeps the size bound |
| MarkovState.NextStateFields | totg_markovian.py:324-326 | after one loop step the chunk index has grown by two, the document count is the running total, and the time range ends at the chunk end |
| MarkovState.CarryoverAfterCounts | totg_markovian.py:305-328 | after `n` chunks the state's chunk index is `2n`, its document count the total over the chunks and it has no open questions |
| MarkovState.CarryoverAfterRange | totg_markovian.py:296 | the state's time range starts at the start time and ends at the last chunk's end |
| MarkovState.CarryoverAfterBound | totg_markovian.py:96-104 | every state of the loop has size at most `2 * max_events + max_entities + max_chains + 10`, however many chunks |
| MarkovState.ChunkCountCeil | totg_markovian.py:305-328 | the number of chunks is the least number of steps covering the span |
| MarkovState.CutStep | totg_markovian.py:305-309 | one more chunk from the current time to `min(current + step, end)` extends a contiguous tiling |
| MarkovState.TiledStarts | totg_markovian.py:305-328 | chunk `k` starts `k` steps after the start |
| Markovian.MarkovianAnalyzer.Advance | totg_markovian.py:305-328 | one loop iteration processes a chunk, carries the state forward and moves the current time strictly forward |
| Markovian.MarkovianAnalyzer.Carry | totg_markovian.py:321-326 | the new state is the carryover extracted from the chunk, with chunk index +1 and document count set to the running total |
| Markovian.MarkovianAnalyzer.ChunkLoop | totg_markovian.py:300-328 | for a positive step or an empty span, the loop ends past the end time with contiguous chunks of at most `chunk_size_days` tiling the span (none for an empty span), each processed from the state before it |
| Markovian.Aggregate | totg_markovian.py:333-349 | the results concatenate all chunk events and chains; each entity's mentions are summed over the chunks, as intended; the source as written counts a carried entity's later mentions twice (see Findings) |
| MarkovState.AggregateFacts | totg_markovian.py:338-349 | the aggregated entities have distinct keys, are exactly the entities of some chunk, and carry the mentions summed over the chunks: the intended aggregate, which the source's shared records overshoot (see Findings) |
| Markovian.Synthesize | totg_markovian.py:330-371 | the result records the chunks, their count, the aggregates, the final state, the total documents and the average chunk size |
| Markovian.MarkovianAnalyzer.AnalyzeLongChain | totg_markovian.py:237-371 | fails with the source's message when the start or end document is missing, and otherwise returns the analysis of the chunks tiling the span; callable whenever the source's loop ends: a positive chunk size, a missing document or an empty span |
| Markovian.MarkovianAnalyzer.Run | totg_markovian.py:274-371 | with both documents present and a positive chunk size or an empty span, the span runs from the start document to the end document or `max_days` later, and the analysis meets its specification |
| Markovian.MarkovianAnalyzer.StartDocInFirstChunk | totg_markovian.py:312-318 | the start document is the first document of the first chunk |
| Markovian.MarkovianAnalyzer.FirstDocument | totg_markovian.py:488-510 | a chunk processed from a starting document whose time lies in the chunk begins with that document |
| Markovian.MarkovianAnalyzer.AnalysisBounded | totg_markovian.py:96-104 | every carried state and the final one respect the size bound; the final chunk index is twice the chunk count and its document count is the total |
| MarkovState.SummaryChunkDays | totg_markovian.py:788-789 | the summary's chunk size is at least one day |
| MarkovState.SummaryOf | totg_markovian.py:808-814 | a chunk summary lists the summaries of at most the first three events |
| Markovian.Summarise | totg_markovian.py:806-814 | one summary per chunk, in order |
| Markovian.MarkovianAnalyzer.GetTemporalSummary | totg_markovian.py:752-816 | a missing document gives an empty list; `num_chunks == 0` fails with a division by zero; otherwise one summary per chunk of an analysis with chunk size `max(1, days // num_chunks)`, and the analyzer's chunk size is restored |
| Attention.ComputeTemporalDecay | totg_attention_fixed.py:45-59 | 1 for no positive distance; otherwise `decay^days`, raised to 0.01 when below |
| Attention.DecayBounds | totg_attention_fixed.py:45-59 | with a decay factor in `[0, 1]` the decay lies in `[0.01, 1]` |
| Attention.DecayNonIncreasing | totg_attention_fixed.py:45-59 | with a decay factor in `[0, 1]` farther nodes never weigh more |
| Attention.PowAntitone | totg_attention_fixed.py:58 | powers of a factor in `[0, 1]` shrink as the exponent grows |
| Semantic.TokensClean | totg_attention_fixed.py:84-95 | every token is lower-case, made of word characters, longer than two characters and not a stopword |
| Semantic.KeepTokens | totg_attention_fixed.py:94-95 | keeps exactly the words longer than two characters that are not stopwords |
| Semantic.CountOnce | totg_attention_fixed.py:101-103 | each distinct token's document frequency grows by exactly one, and no other changes |
| Semantic.SemanticSimilarity.AddDocument | totg_attention_fixed.py:97-103 | one more document; each distinct token's document frequency grows by one however often it repeats; no frequency exceeds the document count |
| Semantic.ComputeTf | totg_attention_fixed.py:105-118 | no tokens give nothing; otherwise the keys are the distinct tokens in order of first occurrence, each with count over total |
| Semantic.TfSumsToOne | totg_attention_fixed.py:105-118 | the term frequencies of a non-empty token list add up to one |
| Semantic.ComputeIdf | totg_attention_fixed.py:120-133 | zero for an empty corpus or unseen term; otherwise `log(N / df)`, never negative |
| Semantic.TfidfFacts | totg_attention_fixed.py:135-145 | one weight per distinct token, in order of first occurrence, never negative |
| Semantic.SemanticSimilarity.ComputeTfidfVector | totg_attention_fixed.py:135-145 | the loop computes the TF-IDF vector, leaving the corpus unchanged |
| Semantic.CosineSimilarity | totg_attention_fixed.py:147-167 | zero when either vector is empty or has zero magnitude |
| Semantic.DotSymmetric | totg_attention_fixed.py:153-156 | the dot product over shared keys does not depend on the argument order |
| Semantic.CosineSymmetric | totg_attention_fixed.py:147-167 | cosine similarity is symmetric |
| Semantic.CosineNonNeg | totg_attention_fixed.py:147-167 | between vectors without negative weights the cosine is never negative |
| Semantic.CauchySchwarz | totg_attention_fixed.py:157-163 | for vectors with distinct keys the squared dot product is at most the product of the two sums of squares |
| Semantic.CosineBounded | totg_attention_fixed.py:147-167 | for vectors with distinct keys the cosine lies between -1 and 1 |
| Semantic.SimilaritySymmetric | totg_attention_fixed.py:169-179 | similarity does not depend on the order of the texts |
| Semantic.SimilarityNonNeg | totg_attention_fixed.py:169-179 | with a consistent corpus similarity is never negative |
| Semantic.SimilarityAtMostOne | totg_attention_fixed.py:169-179 | similarity is at most 1 |
| Semantic.SemanticSimilarity.Similarity | totg_attention_fixed.py:169-179 | the cosine of the two TF-IDF vectors; zero when either text has no token; a score between 0 and 1; the corpus is unchanged |
| Attention.SeedCorpus | totg_attention_fixed.py:221-225 | the corpus gains one document per stored node with content, and each token's document frequency grows by the number of those nodes whose content has it |
| Attention.HoldersAdd | totg_attention_fixed.py:223-225 | one more node counts for a token exactly when it has content containing the token |
| Attention.BidirectionalAttention.constructor | totg_attention_fixed.py:192-219 | the corpus counts one document per stored node with content and, for each token, the number of such nodes containing it; the four default heads are installed; the cache is empty and stamped `now`; the counters are zero |
| Attention.DefaultWindow | totg_attention_fixed.py:227-263 | the widest window of the default heads is 90 days |
| Attention.MaxWindow | totg_attention_fixed.py:297 | the widest window is one of the heads' windows and no head's is wider |
| Attention.KeywordMatches | totg_attention_fixed.py:427 | counts the keywords found: all of them exactly when each occurs, none exactly when none does |
| Attention.FocusBoost | totg_attention_fixed.py:424-428 | 1 except for a semantic-focus head with keywords, where it lies between 1 and `1 + 0.2 * |keywords|` |
| Attention.BidirectionalAttention.CandidateWeight | totg_attention_fixed.py:411-431 | the candidate's weight is similarity times decay over the days apart times keyword boost |
| Attention.KeepSignificantFacts | totg_attention_fixed.py:407-437 | the kept candidates are exactly those with a weight above 0.01, each with its weight, keys distinct |
| Attention.BidirectionalAttention.ComputeHeadAttention | totg_attention_fixed.py:395-437 | computes the head's weights over the stored candidates |
| Attention.AddScaledValue | totg_attention_fixed.py:314-317 | adding a head's weights adds each id's weight divided by the head count to its score |
| Attention.AggregateValue | totg_attention_fixed.py:307-317 | each id's score is the sum of its weights over the head lists divided by the head count |
| Attention.ScoreIsShare | totg_attention_fixed.py:307-317 | each candidate's score is the sum over the applicable heads divided by the number of all heads |
| Attention.ApplicableDistinct | totg_attention_fixed.py:308 | each applicable head's weights form a dict |
| Attention.AddHeadWeights | totg_attention_fixed.py:314-317 | the inner loop computes the scaled sum |
| Attention.BidirectionalAttention.AggregateScores | totg_attention_fixed.py:305-317 | the loops over heads and weights compute the aggregated scores of the applicable heads |
| Assoc.SortDescStable | totg_markovian.py:550 | the descending sort is stable: items of equal key keep their input order |
| Assoc.InsertDescTies | totg_markovian.py:550 | inserting into a sorted sequence puts the item behind every item tying with it |
| Attention.RankFacts | totg_attention_fixed.py:320 | the ranked scores are at most `max_nodes` items of the scores, in non-increasing order, keys distinct, none dropped outranking one kept |
| Attention.BidirectionalAttention.Attend | totg_attention_fixed.py:292-320 | the candidates are the `2 * max_nodes` reachable nodes in the widest window nearest in time (earliest later ones forward, latest earlier ones backward), distinct and time-ordered; nothing when none; otherwise the ranked scores |
| Attention.BidirectionalAttention.ComputeAttention | totg_attention_fixed.py:265-328 | unknown id gives nothing and changes nothing; with the cache on, a valid entry is returned and only the hit counter changes; otherwise a miss of its direction: the scores are those of `Attend` over the old graph and corpus and, when non-empty, counted and cached if `use_cache`; the stamp never changes |
| Attention.CachedReplay | totg_attention_fixed.py:280-284 | a query answered from the cache, or computed non-empty with the cache on, is answered again with the same result, as a hit, while the cache is younger than its time to live |
| Attention.BidirectionalAttention.Record | totg_attention_fixed.py:322-326 | a miss is counted; a computed result is counted and cached only under `use_cache` |
| Attention.BidirectionalAttention.ComputeBidirectionalAttention | totg_attention_fixed.py:439-462 | the forward query then the backward query, each with the cache on and stated as `ComputeAttention` states it, from the state the previous one left; totals are the sums of the weights, the balance is forward over `max(0.001, backward)`, and the most attended item of each direction is the first of largest weight; an unknown id gives nothing and changes nothing |
| Attention.ArgMax | totg_attention_fixed.py:460-461 | the position of the first item of largest weight |
| Attention.MostAttended | totg_attention_fixed.py:460-461 | nothing for no items; otherwise an item whose weight no other exceeds |
| Attention.Floor001 | totg_attention_fixed.py:459 | `max(0.001, x)` is at least 0.001 and at least `x` |
| Attention.BidirectionalAttention.InvalidateCache | totg_attention_fixed.py:494-497 | every entry goes, the cache is stamped `now`, no key is valid afterwards and the counters are unchanged |
| EntityAliasing.MergeOne | totg_markovian.py:555-564 | merging one record as written updates the shared record in place when the key is present, and stores the chunk's own record otherwise |
| EntityAliasing.RunTwo | totg_markovian.py:305-349 | as written, over two chunks naming the same entity, the first chunk's record takes the second's mentions twice, and the carryover and the aggregate both point at it |
| EntityAliasing.AliasingDoubleCounts | totg_markovian.py:341-349 | as written, 2 then 3 mentions of one entity are reported as 8 in the aggregate, the final carryover and the first chunk; the intended aggregate gives 5 |
| PyStd.FloorDiv | totg_core_fixed.py:64 | Python's `//`: the quotient rounds toward negative infinity |
| PyStd.SuffixAsWritten | totg_markovian.py:576 | Python's `s[-n:]`: the whole list when `n == 0`, otherwise the last `n` elements (or all) |
| PyStd.Prefix | totg_markovian.py:551 | Python's `s[:n]`: a prefix of the slice's length |

## Left out

- totg_api.py, totg_mcp_server.py, the demos and the test scripts are not part of this model. The first is a façade, the second an async protocol server, and the rest are scripted runs.
- Timezone normalisation and ISO-8601 parsing: timestamps are integers already in UTC seconds.
- Wall-clock time: processing times are not modelled, and the cache's clock is a `now` parameter.
- `math.log` and `math.sqrt` are abstract. Only non-negativity from 1 on, non-negativity of the root, a zero root exactly at zero, and a root that squares back to its argument are assumed of them. Floating-point rounding is not modelled: weights are exact reals.
- The graph's `stats` counters, `get_statistics`, `print_summary`, `get_summary` and `get_attention_summary` are left out. They are diagnostic formatting over values the model already computes.
- `_estimate_nonmarkovian_time`, the speed-up factor, `memory_used` and the average chunk time are left out. They are timing estimates.
- The unused `chunk_cache` / `carryover_cache` and the `enable_cache` / `detailed_output` flags are left out; they change no result.
- Node and edge metadata dicts and edge weights are left out; no modelled operation reads them.
- The analysis itself uses entity records as values, the evidently intended behaviour. The source shares the records through a shallow copy (`totg_markovian.py:554-564`, `341-349`), so a carried entity's later mentions are counted twice, and earlier chunks' records and `last_seen` values are overwritten. `EntityAliasing` models this as written; see Findings.
- Dates in `get_temporal_summary` are kept as timestamps rather than formatted as `date()` strings.
- The regex `\w` is the ASCII word characters, and `str.lower()` lowers only ASCII letters.
- Markovian.MarkovianAnalyzer.AnalyzeLongChain: requires a positive `chunk_size_days`, a missing document or an empty span. Otherwise the source does not return normally: with a zero chunk size it loops forever, and with a negative one it walks back until the date leaves `datetime`'s range.
- Dates outside `datetime`'s range (years 1 to 9999) are not modelled: timestamps are unbounded integers, so there is no `OverflowError`. The source raises it at `totg_markovian.py:286` for a large `max_days` and at `totg_markovian.py:307` for a large `chunk_size_days`.
- Graph.TemporalGraph.GetShortestPath: does not state that the path is a shortest one, only that it is a repetition-free forward path within the hop limit. The path queue's invariant (`PathSearch.PathsVisit`) records each path's hop count but not that it is least. Minimality would need `BfsTheory`'s hop-ordered queue argument carried over to paths, and this model does not do that.
- Markovian.MarkovianAnalyzer.Search: which neighbours are queued is pinned only up to the ties at the cut. The query sorts by timestamp before slicing, so a candidate with fewer than 50 others as near in time is always returned, and one with 50 or more strictly nearer never is. A candidate between the two is tied at the cut timestamp, and set order decides whether it is kept.
- IdentifyCausalRelationships: a target tied at the 50th forward candidate's timestamp is stated neither to be linked nor to be left out, for the same reason as for `Search`. A target with fewer than 50 others as early is linked, and one with 50 or more strictly earlier is not. The ordering of the triples is stated for distinct documents, which is what a chunk holds.
- Markovian.MarkovianAnalyzer.DocsInWindow: the visit order is fixed only for the start points, which come first. After them, each visited id is stated only to neighbour an earlier one, not to follow FIFO order. So the order of the later documents is not fixed, and neither are the chunk's last 10 ids that seed the next attention scores.
- TemporalTypes.ParseInt: accepts only ASCII digits and no underscores. Python's `int()` also accepts other Unicode decimal digits and single underscores between digits. Layer labels are written with `str()` of an integer, so they never hold either.
- Semantic.CosineSimilarity: states zero on empty or zero-magnitude vectors but not the exact value of `dot / (|v1| * |v2|)`, which depends on the abstract square root.
- The iteration order of Python sets (the traversal results before sorting) is not fixed. Results are stated up to that order.

## Findings

| source | as written | input that shows it | evidently intended | confidence | as-written member | corrected member |
|---|---|---|---|---|---|---|
| totg_core_fixed.py:193 | the upper bound pairs `end_time` with the sentinel `chr(255) * 100`, so an id at exactly `end_time` that sorts above the sentinel is dropped | index `[(5, "ф")]`, range `[0, 5]`: the result is `[]` | every id whose timestamp lies in `[start, end]` | not executed | Graph.TemporalGraph.GetNodesInTimerangeAsWritten | Graph.TemporalGraph.GetNodesInTimerange |
| totg_markovian.py:576 | `causal_chains[-self.max_carryover_chains:]` keeps every chain when the limit is 0, since `-0 == 0` | `max_carryover_chains = 0` with one chain: the chain is kept | keep the most recent `max(limit, 0)` chains, none for 0 | not executed | MarkovState.TrimChainsAsWritten | MarkovState.ExtractCarryover |
| totg_markovian.py:554-564 | `dict(previous_state.key_entities)` copies only the outer dict: the carryover merge adds to the chunk's own record in place, and the aggregation stores and adds to that same record | `alpha` with 2 mentions in chunk 1 and 3 in chunk 2: `all_key_entities`, `final_carryover` and `chunks_processed[0].key_entities` all report 8 mentions, and chunk 1's `last_seen` becomes chunk 2's | mentions summed once over the chunks (5), each chunk keeping its own record | not executed | EntityAliasing.AliasingDoubleCounts | MarkovState.AggregateFacts |
