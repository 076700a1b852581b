# Pomai Search in Dafny

A model of the index, shard, merge and persistence layers of Pomai Search, an in-memory vector
search engine, with proofs about them. `dafny verify dfyconfig.toml` checks all of it.

What each group of files models:

- `Ranking`, `Candidates`: ranked lists under a strict total order, and the order of candidates.
- `VisitedList`, `Graph`, `HnswRows`, `HnswBeam`, `HnswInsertion`, `Hnsw`: the HNSW index. The flat
  sentinel-terminated link array, the upper layers and the tables are fields that the methods
  rewrite; the ghost field `graph` is the layered graph they stand for, and `Valid()` is what every
  history of upserts and deletes keeps.
- `Centroids`, `ScoreQueue`, `Postings`, `IvfScan`, `IvfFlat`: the IVF-Flat index with its
  generation-stamped postings, training and compaction.
- `Quantizer`, `Sq8Lists`, `IvfSq8`: the scalar quantizer with its error bound, the code blobs, and
  the two-pass search with its recall guarantee.
- `Crc32`, `Codec`, `Snapshot`: the checksum on 32-bit registers, and the snapshot file with what
  damage its reader notices.
- `Slots`, `VectorStore`: slot reuse, and the block arithmetic that implements it.
- `ShardProtocol`: the optimistic reader against upserts, deletes and sweeps as a state machine with
  one step per lock-protected section, over every interleaving.
- `ShardState`, `ShardEffects`, `TtlSweep`, `Shard`: one shard, its doc table, store, index and
  keyword index together, what its operations do to them, and the TTL sweep's bounded response.
- `ShardSearch`, `Engine`: the shard's candidate search, and the engine's search over all shards.
- `Tokens`, `KeywordIndex`: the inverted index and its TF-IDF search.
- `FlatIndex`: the full scan with a bounded heap.
- `Merge`, `Fusion`: the merge of the shards' results and reciprocal-rank fusion.
- `Streams`, `StoreImage`, `KeywordImage`, `FlatImage`, `ShardImage`: the byte streams of Save and Load.

Conventions. Scores, components and centroids are reals. The dot product, the logarithm and the
square root are function parameters where nothing depends on how they are computed. The vector
store is a function from offsets to vectors where an index only reads it. The level of a new HNSW
node, the centroids that k-means returns and the clock are inputs. Files are byte sequences. The
bounded priority queues are lists kept best first or sets, whichever the loop needs; a heap is
specified by which element is in front, not by its array order.

Where the code does not do what one might expect of it, the code is followed:

- Storing a key whose doc was deleted or has expired writes to a slot that is still on the free
  list (`ShardProtocol.ReuseTears`). The conditions under which an upsert or a delete is safe are
  `ShardProtocol.UpsertKeepsOwnersIff`, `ShardProtocol.DeleteKeepsOwnersIff`,
  `ShardState.UpsertKeepsIff` and `ShardState.DropKeepsIff`. Since an upsert sweeps first, storing
  an expired key to refresh it can run into this by itself.
- When the index refuses an upsert of a known doc, the slot has already been overwritten and stays
  so under the old generation (`ShardProtocol.RefusalKeepsStoreIff`, `ShardProtocol.RefusedRunTears`).
  `FlatIndex.FlatIndex.Upsert` and `Hnsw.HnswIndex.Upsert` accept every id they know. The IVF
  indexes refuse exactly when `Refuses` in `IvfFlat` and `IvfSq8` holds before the call: no
  centroid takes the vector, or the buffer is full and too few of its docs are live.
- A shard that is saved with expired docs still in it comes back with a live count that a later
  sweep makes wrong (`ShardImage.ReloadKeepsIff`).
- An id upserted twice before IVF training gets two live postings
  (`IvfFlat.UpsertedTwiceBeforeTraining`).
- Back links of the HNSW graph are added twice when there is room.
- A layer search with ef 0 behaves as with ef 1.

## Model

| member | source | states |
|---|---|---|
| `Visited.VisitedList.Advance` | pomai_search/core/index/hnsw_index.cc:26-33 | After a new generation nothing is visited, also when the tag counter wraps around and the tags are cleared. |
| `Visited.VisitedList.IsVisited` | pomai_search/core/index/hnsw_index.cc:35-38 | Answers exactly whether the node was marked in the current generation. |
| `Visited.VisitedList.Mark` | pomai_search/core/index/hnsw_index.cc:40-42 | Adds one node to the visited set and no other. |
| `HnswRows.RowIs` | pomai_search/core/index/hnsw_index.cc:269-280 | The links of a row are the cells before its first sentinel, and nothing else about the row matters. |
| `HnswRows.FilledRows` | pomai_search/core/index/hnsw_index.cc:448-459 | Writing into the first free cell appends the target to that row, drops it when the row is full, and leaves every other row of the flat array as it was. |
| `HnswRows.ClearedRows` | pomai_search/core/index/hnsw_index.cc:436-439 | One sentinel in the first cell empties that row and no other. |
| `HnswInsertion.AppendStored` | pomai_search/core/index/hnsw_index.cc:159-175 | Storing one more node keeps levels, the flat array and the upper layers in step with the graph they stand for. |
| `Hnsw.HnswIndex.constructor` | pomai_search/core/index/hnsw_index.cc:58-75 | An empty index satisfies every invariant, with or without preallocated rows. |
| `Hnsw.HnswIndex.GetLinks` | pomai_search/core/index/hnsw_index.cc:269-286 | Reads exactly the graph's links of a node on a layer, from the flat array or the upper layers. |
| `Hnsw.HnswIndex.ClearLinks` | pomai_search/core/index/hnsw_index.cc:436-446 | Empties one node's links on one layer; the rest of the graph is unchanged. |
| `Hnsw.HnswIndex.AddLink` | pomai_search/core/index/hnsw_index.cc:448-463 | Appends one link; on layer 0 a full row silently drops it. The rest of the graph is unchanged. |
| `Hnsw.HnswIndex.SearchLayer` | pomai_search/core/index/hnsw_index.cc:289-359 | Terminates with at most max(ef, 1) distinct nodes reachable from the entry on that layer, best first, none below the entry at the front; a neighbour of a returned node is returned or scores no better than the worst returned; fewer than ef means the whole reachable set came back. |
| `Hnsw.HnswIndex.RunBeam` | pomai_search/core/index/hnsw_index.cc:299-346 | The loop over the two queues keeps: everything seen is reachable, everything discarded is dominated by a full result queue, and the links of every returned node were seen. |
| `HnswBeam.VisitNeighbors` | pomai_search/core/index/hnsw_index.cc:333-345 | One popped node's links: the unseen ones are marked, offered to both queues, and the weakest result leaves when there are too many. |
| `HnswBeam.BeamSorted` | pomai_search/core/index/hnsw_index.cc:348-358 | The result queue at the end of the loop, sorted by score, is a beam in the sense above. |
| `HnswBeam.SortByScore` | pomai_search/core/index/hnsw_index.cc:348-358 | The same nodes, in non-increasing score order. |
| `Graph.ReachableClosed` | pomai_search/core/index/hnsw_index.cc:304-346 | Following links never leaves the set of reachable nodes. |
| `Graph.BeamOnCompleteNodes` | pomai_search/core/index/hnsw_index.cc:289-359 | On nodes that all link to each other, a beam at least as wide as their number that stays among them returns all of them. |
| `Hnsw.HnswIndex.PruneNeighbors` | pomai_search/core/index/hnsw_index.cc:361-434 | Returns the candidates unchanged if they fit; otherwise the greedy diverse selection from the candidates and their links without the node itself: best first, no kept member closer to an earlier kept one than to the target, and every skipped member closer to some kept one or shut out by a full selection. |
| `Graph.DiverseUnique` | pomai_search/core/index/hnsw_index.cc:406-433 | There is only one such selection, so the clause above determines the result. |
| `Hnsw.HnswIndex.ExtendPool` | pomai_search/core/index/hnsw_index.cc:369-392 | The pool is the candidates together with their links on the layer, each once. |
| `HnswBeam.SelectDiverse` | pomai_search/core/index/hnsw_index.cc:406-433 | The scan in descending order builds the diverse selection of what it has scanned. |
| `Hnsw.HnswIndex.ReplaceLinks` | pomai_search/core/index/hnsw_index.cc:207-212 | Clearing and re-adding leaves exactly the given links in that row. |
| `Hnsw.HnswIndex.AddBackLink` | pomai_search/core/index/hnsw_index.cc:215-244 | A row with room gets the new node twice; a row that is full is replaced by what pruning keeps of it and the new node; links stay well formed and within their limits. |
| `Hnsw.HnswIndex.LinkBothWays` | pomai_search/core/index/hnsw_index.cc:207-245 | The new node links to the selected ones, and each of them, in order, links back: its row gains the new node twice or is what pruning keeps; no other row changes. |
| `Hnsw.HnswIndex.ConnectLayer` | pomai_search/core/index/hnsw_index.cc:195-251 | One layer of an insertion: the new node's row is not empty and is what pruning keeps of a beam over the layer, its members link back, and its first member is the next entry. |
| `Hnsw.HnswIndex.Descend` | pomai_search/core/index/hnsw_index.cc:187-193 | Greedy descent: on every layer above the target a beam of one is entered where the layer above left off. |
| `Hnsw.HnswIndex.LinkLayers` | pomai_search/core/index/hnsw_index.cc:195-251 | The layers from the top one down to 0 are each linked in that way, each entered where the one above left off. |
| `Hnsw.HnswIndex.LinkNewNode` | pomai_search/core/index/hnsw_index.cc:177-251 | An insertion descends from the entry node and links the new node on every layer l with l <= level and l <= max_level, with a row there that is not empty; the very first node links to nothing. |
| `HnswInsertion.PruneKeeps` | pomai_search/core/index/hnsw_index.cc:235-241 | Replacing an overflowing row by what pruning kept leaves every link on its layer and every row within its limit. |
| `HnswInsertion.StaysComplete` | pomai_search/core/index/hnsw_index.cc:195-251 | Linking a new node to all earlier ones and back keeps layer 0 complete, with doubled back links and no row pruned. |
| `HnswInsertion.ChosenIsDiverse` | pomai_search/core/index/hnsw_index.cc:361-434 | What pruning keeps of too many candidates, in similarities: at most k distinct nodes from the candidates and their links, best first, none more similar to an earlier kept one than to the node; one is dropped only when k at least as similar ones are kept, or when it is more similar to a kept one than to the node. |
| `HnswInsertion.PoolIs` | pomai_search/core/index/hnsw_index.cc:369-392 | The pool is exactly the candidates and the nodes they link to. |
| `HnswInsertion.DescentStops` | pomai_search/core/index/hnsw_index.cc:187-193 | A descent leaves on every layer a node reached from where it entered, scoring no less than that one and no less than any of its neighbours there. |
| `HnswInsertion.AppendedTable` | pomai_search/core/index/hnsw_index.cc:156-163 | A new node extends the id tables consistently, and the entry node still has the highest level. |
| `Hnsw.HnswIndex.LinksKept` | pomai_search/core/index/hnsw_index.cc:142-259 | In every state the methods leave: rows hold at most 2m links on layer 0 and m above, every link of a layer joins two different nodes of that layer, and the entry node has the highest level. |
| `Hnsw.HnswIndex.Upsert` | pomai_search/core/index/hnsw_index.cc:142-259 | Over every history and any levels the link invariants hold (LinksKept above, and while there are at most m+1 nodes layer 0 links each to every other); a known id only gets its new offset and norm and is live again, a full index refuses a new id and changes nothing. A new id becomes a node x with just these entries, and for every layer l with l <= level and l <= the old max_level x's row on l is not empty and is what pruning keeps of a beam for x over the layer as it was, entered where the descent towards x ends (topmost l) or at the first node linked one layer up; the nodes of that row link back and no other row of the layer changes. |
| `Hnsw.HnswIndex.Delete` | pomai_search/core/index/hnsw_index.cc:261-267 | Marks exactly that node deleted; an unknown id is reported and changes nothing. |
| `Hnsw.HnswIndex.Search` | pomai_search/core/index/hnsw_index.cc:465-503 | At most topk candidates with distinct ids, by descending score then ascending id, each for a node that is not deleted, with that node's id and its dot product with the query, over its norm for cosine. They are the best of a layer-0 beam entered at the last of the stops of a descent, each stop at least as good as all its neighbours on its layer. With at most m+1 nodes, ef_construction >= m and ef_search >= m+1 a live node is missing only when topk better ones are returned. |
| `Hnsw.ExactWhenSmall` | pomai_search/core/index/hnsw_index.cc:475-500 | A wide enough beam over a small graph gives the same sorted live candidates as a scan of all nodes. |
| `Ranking.TopKIsBest` | pomai_search/core/index/flat_index.cc:106-129 | Sorting and cutting at k returns k elements of the input, ranked, none of them beaten by one left out. |
| `Ranking.RankedUnique` | pomai_search/core/index/flat_index.cc:122-129 | A ranked list is determined by its elements. |
| `Ranking.OfferToFull` | pomai_search/core/index/flat_index.cc:111-115 | Offering an element to a full list of the best replaces the last one or changes nothing. |
| `Ranking.TopKAbsorbs` | pomai_search/src/search_engine.cc:171-190 | Cutting one part of the input to its best k first does not change the best k of the whole. |
| `Centroids.AssignOne` | pomai_search/core/clustering/kmeans.cc:135-148 | Computes the assignment below by its running best. |
| `Centroids.AssignIsFirstBest` | pomai_search/core/clustering/kmeans.cc:135-148 | The assignment is the first centroid with the highest score, and is -1 only if no score exceeds the lowest float. |
| `ScoreQueue.KeptIsBest` | pomai_search/core/index/ivf_flat_index.cc:207-240 | The bounded queue ends with k entries of the stream, best pair first, none scoring lower than one left out. |
| `ScoreQueue.KeptScores` | pomai_search/core/index/ivf_flat_index.cc:207-240 | Its scores are exactly the k highest of the stream. |
| `Postings.StaleStaysStale` | pomai_search/core/index/ivf_flat_index.cc:108-112 | One step of the doc table does not make a stale posting live: generations only grow and a deleted doc comes back only under a new one. |
| `Postings.StaleForever` | pomai_search/core/index/ivf_flat_index.cc:22-59 | Over every run a posting is live later only if it was live all along since it was made. |
| `Postings.UpsertKeeps` | pomai_search/core/index/ivf_flat_index.cc:22-43 | After a trained upsert each live doc still has a live posting in the list of its vector, and one only if that held before. |
| `Postings.DeleteKeeps` | pomai_search/core/index/ivf_flat_index.cc:52-59 | A delete leaves the doc without a live posting and the other docs as they were. |
| `Postings.CompactedHas` | pomai_search/core/index/ivf_flat_index.cc:132-152 | Compaction keeps exactly the live postings, in their order. |
| `Postings.CompactKeeps` | pomai_search/core/index/ivf_flat_index.cc:132-152 | Compacting a list keeps every doc's placement, and single postings single. |
| `Postings.DistributedPlaces` | pomai_search/core/index/ivf_flat_index.cc:83-93 | Training places every live buffered doc in the list of its vector; each has one live posting exactly when each placeable one was buffered once. |
| `IvfFlat.TrainingPoints` | pomai_search/core/index/ivf_flat_index.cc:68-75 | Training reads as many points as places in the buffer name a live doc. |
| `IvfFlat.TrainingReads` | pomai_search/core/index/ivf_flat_index.cc:68-75 | And they are the offsets of exactly those docs. |
| `IvfFlat.IvfFlatIndex.DueIff` | pomai_search/core/index/ivf_flat_index.cc:114-130 | A list is due exactly when it is not empty and has too many postings, too many bytes at 8 a posting, or too large a share of stale ones among those checked. |
| `IvfFlat.UpsertedTwiceBeforeTraining` | pomai_search/core/index/ivf_flat_index.cc:43-48 | The input on which one-posting-per-doc fails: an id upserted twice before training is live twice after it. |
| `IvfFlat.IvfFlatIndex.Upsert` | pomai_search/core/index/ivf_flat_index.cc:22-50 | The doc becomes live at its offset under the next generation and no other doc changes; once trained, its posting is pushed on the list of its vector and that list compacted exactly when it is then due, so that its postings are all live or within every limit; before, the id is buffered and the index trains at the threshold if k-means gets enough points. Reports an error exactly when Refuses says so, known id or not. Single postings stay single unless an id is buffered twice. |
| `IvfFlat.IvfFlatIndex.Delete` | pomai_search/core/index/ivf_flat_index.cc:52-59 | Marks the doc deleted under the next generation and changes no other; an unknown id is reported and changes nothing. |
| `IvfFlat.IvfFlatIndex.Train` | pomai_search/core/index/ivf_flat_index.cc:61-65 | Does nothing once trained. |
| `IvfFlat.IvfFlatIndex.TrainImpl` | pomai_search/core/index/ivf_flat_index.cc:67-97 | Distributes the buffer over the new centroids, or changes nothing when there are too few live points; postings are single if and only if the buffer was. |
| `IvfFlat.Distribute` | pomai_search/core/index/ivf_flat_index.cc:85-93 | The loop over the buffer builds exactly those lists. |
| `IvfFlat.IvfFlatIndex.OneLivePosting` | pomai_search/core/index/ivf_flat_index.cc:99-112 | Once trained, a live doc has exactly one live posting, in the list its current vector is assigned to, and a deleted doc has none. |
| `IvfFlat.IvfFlatIndex.CompactList` | pomai_search/core/index/ivf_flat_index.cc:132-152 | Replaces one list by its live postings and resets its counters; an index out of range changes nothing. |
| `IvfFlat.IvfFlatIndex.Compact` | pomai_search/core/index/ivf_flat_index.cc:114-161 | Compacts exactly the lists that are due and resets their counters, after which the postings of every list are all live or within every limit; every search, for any query, store and topk, returns what it returned before. |
| `IvfScan.ProbesAreBest` | pomai_search/core/index/ivf_flat_index.cc:211-225 | The probed centroids are distinct and no other centroid scores higher than a probed one. |
| `IvfScan.CompactionInvisible` | pomai_search/core/index/ivf_flat_index.cc:132-161 | Compacting any of the lists at any time leaves what a scan of any probes reads unchanged, in content and order. |
| `IvfScan.ScanDistinct` | pomai_search/core/index/ivf_flat_index.cc:213-232 | With single postings a scan of distinct lists reads each doc at most once. |
| `IvfScan.ScanReadsPlaced` | pomai_search/core/index/ivf_flat_index.cc:213-232 | A scan reads exactly the live docs assigned to the probed lists, with their exact scores. |
| `IvfFlat.IvfFlatIndex.Search` | pomai_search/core/index/ivf_flat_index.cc:163-240 | With single postings and the vectors the index was given: at most topk distinct live docs (of the nprobe best lists once trained, any before) with their exact dot products, by descending score then id, and such a doc is missing only when topk others score at least as much. The counters of every probed list grow by its number of stale postings and by its length. |
| `IvfFlat.IvfFlatIndex.SearchIsExact` | pomai_search/core/index/ivf_flat_index.cc:163-240 | That result is an exact top k: it holds live docs of the probed lists with their exact scores, and a doc is missing only when k others score at least as much. |
| `IvfFlat.IvfFlatIndex.FoundIsExact` | pomai_search/core/index/ivf_flat_index.cc:163-240 | The guarantee of Search on the value it returns, trained or not. |
| `IvfFlat.IvfFlatIndex.BufferSearchIsBruteForce` | pomai_search/core/index/ivf_flat_index.cc:196-209 | Before training the score sequence is that of a brute-force scan of all live docs. |
| `IvfFlat.CountedAllTallies` | pomai_search/core/index/ivf_flat_index.cc:163-195 | The counters of each probed list grow by the number of its stale postings and by its length; no others change. |
| `IvfFlat.IvfFlatIndex.SearchAllListsIsBruteForce` | pomai_search/core/index/ivf_flat_index.cc:163-240 | With nprobe >= nlist the score sequence is that of a brute-force scan of all live docs. |
| `Quantizer.RoundTripError` | pomai_search/core/quantization/scalar_quantizer.cc:36-53 | Decoding the code of a component within the trained range is off by at most half a step. |
| `Quantizer.VectorError` | pomai_search/core/quantization/scalar_quantizer.cc:36-53 | So is every component of an encoded and decoded vector. |
| `Quantizer.ClampedCode` | pomai_search/core/quantization/scalar_quantizer.cc:36-46 | A component below the range gets code 0, one above it 255. |
| `Quantizer.DotError` | pomai_search/core/quantization/scalar_quantizer.cc:71-83 | Componentwise errors of half a step move a dot product by at most half the sum of |q_d| times the step. |
| `Quantizer.ScoreError` | pomai_search/core/quantization/scalar_quantizer.cc:71-83 | The score computed from the codes differs from the exact one by at most that much. |
| `Quantizer.DotSplits` | pomai_search/core/quantization/scalar_quantizer.cc:71-83 | The dot product of two stretches of dimensions is the sum of theirs, and of one dimension the product; so it is the sum of products. |
| `Quantizer.BlockOf` | pomai_search/core/quantization/scalar_quantizer.cc:71-76 | Block j of a code blob is the code of the j-th vector. |
| `Quantizer.ScalarQuantizer.Train` | pomai_search/core/quantization/scalar_quantizer.cc:11-34 | The minimum of every dimension is that of the training vectors, the width is max - min but at least 0.000001, the step is the width over 255, and all training vectors are within the trained range. |
| `Quantizer.ScalarQuantizer.Encode` | pomai_search/core/quantization/scalar_quantizer.cc:36-46 | Writes the code of each component, clamped to a byte; an untrained quantizer writes nothing. |
| `Quantizer.ScalarQuantizer.ComputeDotProducts` | pomai_search/core/quantization/scalar_quantizer.cc:71-83 | Scores every block of the blob by its decoded vector. |
| `Sq8Lists.UpsertKeepsBlobs` | pomai_search/core/index/ivf_sq8_index.cc:98-110 | Appending a posting and its codes keeps every blob the encodings of its list's postings, block by block. |
| `Sq8Lists.CompactBlob` | pomai_search/core/index/ivf_sq8_index.cc:136-166 | The loop keeps the live postings in order and copies exactly their blocks. |
| `Sq8Lists.CompactKeepsBlobs` | pomai_search/core/index/ivf_sq8_index.cc:136-166 | After compaction the blob still has one block per posting, each the encoding of that posting's vector. |
| `Sq8Lists.CodeCompactionInvisible` | pomai_search/core/index/ivf_sq8_index.cc:136-175 | Compacting any of the lists with their blobs leaves what the quantized pass reads unchanged, in content and order. |
| `IvfSq8.IvfSq8Index.Upsert` | pomai_search/core/index/ivf_sq8_index.cc:22-48 | As for IVF-Flat, with the codes of the vector appended beside the posting and the blob counted when a list is checked for compaction. |
| `IvfSq8.IvfSq8Index.Delete` | pomai_search/core/index/ivf_sq8_index.cc:50-57 | As for IVF-Flat; the blobs stay the encodings of their postings. |
| `IvfSq8.IvfSq8Index.TrainImpl` | pomai_search/core/index/ivf_sq8_index.cc:65-96 | Trains the quantizer on the live buffered vectors, which are then in range, and distributes the buffer with its codes. |
| `IvfSq8.IvfSq8Index.CompactList` | pomai_search/core/index/ivf_sq8_index.cc:136-166 | Replaces one list and its blob by the live postings and their blocks and resets its counters; an index out of range changes nothing. |
| `IvfSq8.IvfSq8Index.Compact` | pomai_search/core/index/ivf_sq8_index.cc:118-175 | Compacts exactly the lists that are due, with their blobs, after which the postings of every list are all live or list and blob within every limit; every search returns what it returned before. |
| `IvfSq8.IvfSq8Index.QuantizedPass` | pomai_search/core/index/ivf_sq8_index.cc:215-243 | Keeps the refine_k best approximate scores of the live postings of the probed lists. |
| `IvfSq8.ExactPass` | pomai_search/core/index/ivf_sq8_index.cc:251-274 | Rescores the survivors exactly and keeps the topk best. |
| `IvfSq8.IvfSq8Index.Search` | pomai_search/core/index/ivf_sq8_index.cc:177-277 | With single postings and the vectors the index was given: at most topk distinct live docs (of the nprobe best lists once trained, any before) with their exact dot products, by descending score then id. With refine_factor >= 1, and always before training, their number is the smaller of topk and the number of such docs; before training one is missing only when topk others score at least as much. Once trained the result is the exact pass over the floor(topk * refine_factor) survivors of the quantized one. |
| `IvfSq8.RecallFirst` | pomai_search/core/index/ivf_sq8_index.cc:215-249 | A probed doc survives the quantized pass if fewer than refine_k others score within the error slack of it. |
| `IvfSq8.RecallSecond` | pomai_search/core/index/ivf_sq8_index.cc:251-274 | A survivor is returned if fewer than topk others score at least as much. |
| `IvfSq8.IvfSq8Index.BufferSearchIsBruteForce` | pomai_search/core/index/ivf_sq8_index.cc:183-200 | Before training the score sequence is that of a brute-force scan of all live docs. |
| `IvfSq8.IvfSq8Index.ListsFound` | pomai_search/core/index/ivf_sq8_index.cc:211-277 | Once trained the result holds live docs of the probed lists with their exact scores, with refine_factor >= 1 as many as there are up to topk. |
| `Sq8Lists.TwoPassesKeep` | pomai_search/core/index/ivf_sq8_index.cc:211-277 | The two passes return live docs of the stream, each once, with exact scores, and lose none for want of room. |
| `IvfSq8.IvfSq8Index.DueIff` | pomai_search/core/index/ivf_sq8_index.cc:118-134 | A list is due as for IVF-Flat, with the bytes of its blob counted. |
| `IvfSq8.IvfSq8Index.Recall` | pomai_search/core/index/ivf_sq8_index.cc:177-277 | Recall guarantee: a probed live doc x comes back with its exact score whenever fewer than floor(topk * refine_factor) other probed docs score at least score(x) minus the sum of |q_d|*step_d, and fewer than topk others score at least score(x). |
| `Crc32.BitStepInjective` | pomai_search/core/serialize/snapshot.cc:31-33 | One bit step of the register can be undone. |
| `Crc32.TableStep` | pomai_search/core/serialize/snapshot.cc:29-41 | The table-driven byte step equals eight bit steps on the whole register. |
| `Crc32.BuildTable` | pomai_search/core/serialize/snapshot.cc:26-36 | Every table entry is eight bit steps of its index. |
| `Crc32.Crc32Update` | pomai_search/core/serialize/snapshot.cc:25-43 | The table-driven loop computes the bitwise checksum update. |
| `Crc32.FeedConcat` | pomai_search/core/serialize/snapshot.cc:38-42 | Feeding a concatenation is feeding its parts in turn. |
| `Crc32.UpdateConcat` | pomai_search/core/serialize/snapshot.cc:131-140 | Updating chunk by chunk is one pass over the whole, for any chunking. |
| `Crc32.CheckValue` | pomai_search/core/serialize/snapshot.cc:25-43 | The checksum of the digits 123456789 is 0xCBF43926, the published check value of this CRC. |
| `Crc32.FeedInjective` | pomai_search/core/serialize/snapshot.cc:38-42 | Two different registers stay different whatever is fed to both. |
| `Crc32.FeedAsBits` | pomai_search/core/serialize/snapshot.cc:38-42 | Feeding bytes is feeding their bits one by one, lowest bit of each byte first. |
| `Crc32.MeetingIsNear` | pomai_search/core/serialize/snapshot.cc:25-43 | Two registers that m <= 32 bits each bring to the same value differed in their m lowest bits only. |
| `Crc32.ShortInjective` | pomai_search/core/serialize/snapshot.cc:25-43 | The register tells any two strings of at most 32 bits apart, whatever it held before. |
| `Crc32.BurstDetected` | pomai_search/core/serialize/snapshot.cc:210-224 | Two different payloads of one length that differ only inside at most 32 consecutive bits, wherever these start, have different checksums. |
| `Crc32.FourBytesDetected` | pomai_search/core/serialize/snapshot.cc:210-224 | In particular those that differ only inside at most four consecutive bytes. |
| `Codec.NatOfPut` | pomai_search/core/serialize/snapshot.cc:45-53 | An integer that fits its width is read back from its bytes. |
| `Codec.NatOfInjective` | pomai_search/core/serialize/snapshot.cc:45-53 | Different bytes stand for different integers. |
| `Snapshot.ChecksumInChunks` | pomai_search/core/serialize/snapshot.cc:128-140 | The loop with the 64 KiB buffer and the remaining counter computes the checksum of the whole payload. |
| `Snapshot.Write` | pomai_search/core/serialize/snapshot.cc:64-151 | Leaves magic, version, payload size, payload checksum and payload, the header being patched at the end. |
| `Snapshot.Read` | pomai_search/core/serialize/snapshot.cc:171-224 | Accepts a file if and only if it is what the writer would leave for its payload, and hands on exactly that payload. |
| `Snapshot.HeaderFields` | pomai_search/core/serialize/snapshot.cc:179-208 | An accepted file is one whose four header fields are right for the bytes behind them. |
| `Snapshot.AcceptedBytes` | pomai_search/core/serialize/snapshot.cc:171-224 | The accepted files byte by byte: POMAI_SNAP and a zero, version 3, then payload size in eight and checksum in four bytes, least byte first. |
| `Snapshot.WrittenIsAccepted` | pomai_search/core/serialize/snapshot.cc:96-165 | The writer's own file is accepted and its payload comes back. |
| `Snapshot.LengthDamageCaught` | pomai_search/core/serialize/snapshot.cc:196-206 | A file cut short or extended is never accepted. |
| `Snapshot.BurstCaught` | pomai_search/core/serialize/snapshot.cc:210-224 | No change of the payload inside at most 32 consecutive bits is accepted. |
| `Snapshot.FourBytesCaught` | pomai_search/core/serialize/snapshot.cc:210-224 | No change inside four consecutive payload bytes is accepted. |
| `Snapshot.ByteDamageCaught` | pomai_search/core/serialize/snapshot.cc:171-224 | No file with one damaged byte, anywhere in it, is accepted. |
| `Slots.InsertKeeps` | pomai_search/core/vectorstore/vector_store.cc:36-58 | An insertion takes a slot that was not live, writes only that slot, and keeps the free list exactly the dead slots, each once. |
| `Slots.ReleaseKeeps` | pomai_search/core/vectorstore/vector_store.cc:75-84 | A release frees a live slot once and ignores any other. |
| `Slots.UpdateKeepsIff` | pomai_search/core/vectorstore/vector_store.cc:60-73 | An update keeps the free list right if and only if its slot is live or the next new one; on a freed slot it does not. |
| `Slots.Conserved` | pomai_search/core/vectorstore/vector_store.cc:102-111 | Live slots plus free slots are all slots. |
| `Slots.TotalIsPeak` | pomai_search/core/vectorstore/vector_store.cc:36-84 | In every run that updates only live slots the number of slots is the largest number live at once. |
| `Slots.ReadsLastWritten` | pomai_search/core/vectorstore/vector_store.cc:86-94 | In every such run a slot reads back the vector last written to it. |
| `VectorStore.WriteOneSlot` | pomai_search/core/vectorstore/vector_store.cc:45-49 | With the block and offset arithmetic, writing one slot's floats changes that slot's vector and no other. |
| `VectorStore.VectorStore.EnsureBlock` | pomai_search/core/vectorstore/vector_store.cc:25-34 | Adds zeroed blocks until the index exists and keeps the ones there are. |
| `VectorStore.VectorStore.WriteAt` | pomai_search/core/vectorstore/vector_store.cc:45-49 | Only the addressed slot's floats change, whatever blocks had to be added. |
| `VectorStore.VectorStore.Insert` | pomai_search/core/vectorstore/vector_store.cc:36-58 | Takes the slot freed last, or a new one if none is free, and puts it in use with this vector; no other slot's vector or use changes. Refines the slot table's insertion. |
| `VectorStore.VectorStore.Update` | pomai_search/core/vectorstore/vector_store.cc:60-73 | Puts the slot in use with this vector and changes no other; refines the slot table's update, also beyond the last slot, where the gap reads as zeros. |
| `VectorStore.VectorStore.Release` | pomai_search/core/vectorstore/vector_store.cc:75-84 | Refines the slot table's release. |
| `VectorStore.VectorStore.Get` | pomai_search/core/vectorstore/vector_store.cc:86-94 | Reads the slot's vector. |
| `VectorStore.VectorStore.GetStats` | pomai_search/core/vectorstore/vector_store.cc:102-111 | Live, total and free counts, the first and last adding up to the second. |
| `ShardProtocol.TablesKept` | pomai_search/src/search_engine_impl.h:239-308 | Every step of every writer and reader keeps keys, ids and doc table naming each other. |
| `ShardProtocol.OwnersKept` | pomai_search/src/search_engine_impl.h:239-333 | Every step that does not use a deleted key, a refusal by the index included, keeps each live slot owned exactly once: by a live doc, by a release still to come, or by the open upsert. No slot leaks. |
| `ShardProtocol.StoreKept` | pomai_search/src/search_engine_impl.h:253-304 | The store holds each live doc's vector, or the one an upsert has written but not yet committed, after every step that neither uses a deleted key nor refuses a known doc another vector. |
| `ShardProtocol.RefusalKeepsStoreIff` | pomai_search/src/search_engine_impl.h:256-281 | When the index refuses an upsert the store stays right if and only if the doc is new or the refused vector is the one the doc had: the written slot of a known doc is not restored and its generation not raised. |
| `ShardProtocol.DocsOnlyAdvance` | pomai_search/src/search_engine_impl.h:285-321 | A doc is only ever replaced under a larger generation. |
| `ShardProtocol.GuardFreezesStore` | pomai_search/src/search_engine_impl.h:431-434 | While a reader holds the read guard no step changes the store. |
| `ShardProtocol.ReadersKept` | pomai_search/src/search_engine_impl.h:416-446 | What a reader copied is an earlier generation or the doc as it is now, and what it read is what the store still holds. |
| `ShardProtocol.InvariantHolds` | pomai_search/src/search_engine_impl.h:227-333 | All of this after every run, in any interleaving, that uses no deleted key again and in which no known doc is refused another vector. |
| `ShardProtocol.NoTornReads` | pomai_search/src/search_engine_impl.h:391-454 | In every such run each returned item has the key, the metadata and the score its doc had at the validation step, and the doc was live then. |
| `ShardProtocol.UpsertStores` | pomai_search/src/search_engine_impl.h:239-308 | An upsert that runs alone leaves its key's doc live with just its metadata and expiry, under the next generation, its vector in the doc's slot; no other doc and no other slot's vector changes. |
| `ShardProtocol.RefusalTears` | pomai_search/src/search_engine_impl.h:274-281 | Any run, otherwise as above, that ends in such a refusal of an unexpired doc can be continued by one search that returns the old doc with the score of the refused vector. |
| `ShardProtocol.RefusedRunTears` | pomai_search/src/search_engine_impl.h:274-281 | Such a run: "a" is stored, then stored again with a vector the index refuses; no key is reused and a search returns a torn "a". |
| `ShardProtocol.UpsertKeepsOwnersIff` | pomai_search/src/search_engine_impl.h:241-292 | An upsert leaves every slot with exactly one owner if and only if its key is not that of a deleted doc. |
| `ShardProtocol.DeleteKeepsOwnersIff` | pomai_search/src/search_engine_impl.h:313-333 | A delete does if and only if the doc was not deleted already. |
| `ShardProtocol.ReuseTears` | pomai_search/src/search_engine_impl.h:256-258 | The run on which the claim fails without that condition: delete "a", store it again, store "b"; a search returns "a" with the score of "b". |
| `ShardState.PurgedDoc` | pomai_search/src/search_engine_impl.h:635-660 | A sweep marks exactly the live docs that have expired when it looks at them, each once, under the next generation; the clock is read anew for each doc. |
| `ShardEffects.SweepKeeps` | pomai_search/src/search_engine_impl.h:635-674 | A sweep takes out only live docs found expired at one of its readings of the clock, and writes no vector. |
| `TtlSweep.BoundedResponse` | pomai_search/src/search_engine_impl.h:635-674 | Wherever the cursor starts, ceil(n/32) successive sweeps over a table of n docs take out every live doc whose expiry had come at the first of them. Exactly one of them does: it raises the generation by one, removes the keywords and marks the index entry, and frees the slot, which was in use and off the free list until then; from then on the doc stays out of every part. |
| `ShardState.DropKeepsIff` | pomai_search/src/search_engine_impl.h:319-330 | Taking out a doc keeps table, index, keywords, slots and live count in agreement if and only if the doc was live, or no doc is. |
| `ShardState.PurgeKeeps` | pomai_search/src/search_engine_impl.h:635-674 | A sweep keeps that agreement. |
| `ShardState.StoreKeepsIff` | pomai_search/src/search_engine_impl.h:239-311 | Storing a doc keeps it if and only if the key is not that of a deleted doc; a refused insertion gives its slot back. |
| `ShardState.UpsertKeepsIff` | pomai_search/src/search_engine_impl.h:227-311 | A whole upsert, which sweeps first, keeps it if and only if the key is new or names a doc neither deleted nor expired within the sweep's reach. |
| `ShardEffects.UpsertTakes` | pomai_search/src/search_engine_impl.h:227-311 | What Shard.Upsert promises of an upsert, on values. |
| `ShardEffects.StoredIsFound` | pomai_search/src/search_engine_impl.h:253-304 | The stored doc is among the hits of the shard's live docs, scored by the stored vector. |
| `ShardEffects.DeleteRemoves` | pomai_search/src/search_engine_impl.h:313-333 | What Shard.Delete promises of a delete, on values. |
| `Shard.PurgedParts` | pomai_search/src/search_engine_impl.h:666-673 | Marking all victims first and cleaning up afterwards is the same as taking them out one by one. |
| `Shard.Shard.constructor` | pomai_search/src/search_engine_impl.h:192-225 | An empty shard, all parts in agreement. |
| `Shard.Shard.PurgeExpired` | pomai_search/src/search_engine_impl.h:635-674 | Performs the sweep on doc table, index, keywords and store, reading the clock once per doc; a doc changes only by being marked deleted under the next generation, live and with its expiry reached at one of the readings. |
| `Shard.Shard.MarkExpired` | pomai_search/src/search_engine_impl.h:638-660 | The loop under the lock: cursor, docs, live count and the list of victims, in order. |
| `Shard.Shard.CleanUp` | pomai_search/src/search_engine_impl.h:666-673 | Takes the victims out of keywords and index, then releases their slots. |
| `Shard.Shard.Upsert` | pomai_search/src/search_engine_impl.h:227-311 | In a shard whose parts agree: a known key is accepted, a new one unless max_points docs are in the table; then the key's doc is live with just this metadata, expiry and text, its slot holds this vector, the index and the keywords have it there with its words, and a known doc keeps id and slot under a larger generation. If the key is new or its doc neither deleted nor about to be swept, every other doc is as before or swept out for its expiry, a live one keeps its slot's vector, and the parts still agree; otherwise they do not. |
| `Shard.Shard.Delete` | pomai_search/src/search_engine_impl.h:313-333 | In a shard whose parts agree: the key's doc is deleted under the next generation, gone from the keywords, marked in the index and its slot free; every other doc is as before or swept out; an unknown key is reported and changes nothing. |
| `Shard.Shard.Exists` | pomai_search/src/search_engine_impl.h:335-345 | Whether the key names a doc neither deleted nor expired. |
| `Tokens.Tokenize` | pomai_search/src/search_engine_impl.h:37-52 | Computes the words below in one pass. |
| `Tokens.WordsSplit` | pomai_search/src/search_engine_impl.h:37-52 | A character that is neither letter nor digit separates: the two sides are split on their own. |
| `Tokens.WordsOfWord` | pomai_search/src/search_engine_impl.h:37-52 | ASCII letters and digits in a row are one word, its capitals 32 code points up. With the row above this fixes the words of every text. |
| `KeywordIndex.TransposeUnique` | pomai_search/src/search_engine_impl.h:174-175 | The postings are a function of the documents' terms. |
| `KeywordIndex.PostOne` | pomai_search/src/search_engine_impl.h:92-95 | Entering one posting is one more term of one document. |
| `KeywordIndex.UnpostOne` | pomai_search/src/search_engine_impl.h:156-165 | Erasing one, and the term with its last posting, is one term less. |
| `KeywordIndex.KeywordIndex.Upsert` | pomai_search/src/search_engine_impl.h:76-99 | After any history the postings are the exact transpose of the documents' terms with none empty, the frequencies their sizes, the count the number of documents; the document's terms are those of its new text, and a text without words removes it. |
| `KeywordIndex.KeywordIndex.DeleteInternal` | pomai_search/src/search_engine_impl.h:151-171 | Removes one document and keeps all of that. |
| `KeywordIndex.KeywordIndex.ScoreAll` | pomai_search/src/search_engine_impl.h:112-127 | Accumulating posting by posting gives every matching document its brute-force TF-IDF score. |
| `KeywordIndex.TermScored` | pomai_search/src/search_engine_impl.h:113-127 | One query term's posting adds to each document what the term contributes to it. |
| `KeywordIndex.SumsIff` | pomai_search/src/search_engine_impl.h:112-127 | A document's score is the one sum of count times log(1 + documents / documents with the word) over the query's words. |
| `KeywordIndex.KeywordIndex.Search` | pomai_search/src/search_engine_impl.h:106-145 | At most topk documents that have a word of the query, each once, by descending score then id; the score is a running sum over the query's words of the word's count times log(1 + documents / documents with it); and a matching document is missing only when topk better ones are returned. |
| `FlatIndex.Offer` | pomai_search/core/index/flat_index.cc:105-115 | The bounded heap with its worst element in front holds the best k of what was scanned. |
| `FlatIndex.FlatIndex.Upsert` | pomai_search/core/index/flat_index.cc:18-39 | Sets the id's entry, or reports a full index and changes nothing. |
| `FlatIndex.FlatIndex.Delete` | pomai_search/core/index/flat_index.cc:41-49 | Marks exactly that entry deleted, or reports an unknown id. |
| `FlatIndex.FlatIndex.Search` | pomai_search/core/index/flat_index.cc:65-131 | At most topk live entries, each once, by descending score then id, with their dot products, over both norms for cosine; a live entry is missing only when topk better ones are returned. With its two error cases, and exactly the first topk of the full sort. |
| `FlatIndex.FlatIndex.LiveIsEntries` | pomai_search/core/index/flat_index.cc:90-105 | The scanned items are the live entries with their scores. |
| `FlatIndex.FlatIndex.LiveDistinct` | pomai_search/core/index/flat_index.cc:90-105 | No id is scanned twice. |
| `FlatIndex.FlatIndex.SquaresAdd` | pomai_search/core/index/flat_index.cc:84-87 | The squared norm of two stretches is the sum of theirs, of one number its square. |
| `Merge.BetterTotal` | pomai_search/src/search_engine.cc:175-185 | Score, then key, then id is a strict total order. |
| `Merge.KeyLessIff` | pomai_search/src/search_engine.cc:175-185 | One key is less exactly when the keys agree up to a place where it ends or has the smaller character. |
| `Merge.BetterIff` | pomai_search/src/search_engine.cc:175-185 | One item precedes exactly when its score is higher, or the same with a smaller key, or both the same with a smaller id. |
| `Merge.MergeShards` | pomai_search/src/search_engine.cc:171-190 | Concatenating, selecting, cutting and sorting gives the topk best of everything the shards sent. |
| `Merge.TruncateFirst` | pomai_search/src/search_engine_impl.h:465-467 | Truncating every shard to k first does not change the merged top k. |
| `Merge.GatherExactIff` | pomai_search/src/search_engine_impl.h:400-401 | With shards bounded by max_candidates the merged result is the global top k on every input if and only if topk <= max_candidates. |
| `Merge.TopKOfHits` | pomai_search/src/search_engine_impl.h:400-426 | Attaching keys to the index's best is taking the best after attaching keys. |
| `ShardSearch.SendsShardHits` | pomai_search/src/search_engine_impl.h:405-467 | Copying, scoring and checking an exact index's candidates, sorting and cutting gives the best of the shard's live docs. |
| `ShardSearch.EmittedAre` | pomai_search/src/search_engine_impl.h:428-454 | What passes both checks names a live doc, unexpired at a reading of each clock, with its key and the score of its slot. |
| `Shard.Shard.SearchCandidates` | pomai_search/src/search_engine_impl.h:391-467 | At most topk and max_candidates items in the engine's order. If the parts agree, each names a live doc by its key, unexpired at a reading of each clock, with the query's dot product with the numbers in the doc's slot; and if no live doc expires meanwhile they are exactly the best of the live docs in the table. With its error cases. |
| `Shard.Shard.Search` | pomai_search/src/search_engine_impl.h:347-380 | The same items, their keys read again and sorted again, with the same guarantees. |
| `Merge.CandidateCount` | pomai_search/src/search_engine_impl.h:400-401 | The count is the bound max_candidates or topk times the rerank factor, whichever is less. |
| `Merge.LeftOutByShard` | pomai_search/src/search_engine_impl.h:400-467 | A live doc its shard does not send is matched by k docs the shard sends, each scoring at least as much. |
| `Merge.MergedAreLive` | pomai_search/src/search_engine.cc:171-190 | The merge returns live docs' hits only, none more often than it is there, best first, and as many as asked for if there are as many. |
| `Engine.Search` | pomai_search/src/search_engine.cc:134-195 | Asks every shard in turn and merges, with the default topk and the error case: at most topk items in the engine's order. Over shards whose parts agree each is a live doc's of some shard, unexpired at a reading of each clock, with its key and exact score; and while no live doc expires the result is the answer below. |
| `Engine.NoneOmittedOutscores` | pomai_search/src/search_engine.cc:171-190 | For topk <= max_candidates the answer over any shards consists of live docs with their keys and the query's dot products with the numbers in their slots, in order; its size is the smaller of topk and their number; and a live doc of any shard is missing only when topk others fill the answer, none of which it outscores. |
| `Fusion.CombinedIds` | pomai_search/src/search_engine.cc:502-520 | Every id of either list is combined exactly once. |
| `Fusion.Ranks` | pomai_search/src/search_engine.cc:522-529 | The rank map gives each id its position, counted from 1. |
| `Fusion.ScoreIsFused` | pomai_search/src/search_engine.cc:555-559 | The fused score is 1/(60+v) + 1/(60+k) of the last places in the lists, an absent id ranking one after the number of distinct ids. |
| `Fusion.FusedKeys` | pomai_search/src/search_engine.cc:502-520 | A fused item carries the last key the keyword list has for its id, else the first one of the vector list. |
| `Fusion.Fuse` | pomai_search/src/search_engine.cc:502-605 | Ids of either list, each once, at most topk: the key is the keyword list's if it has one, the score is 1/(60+v) + 1/(60+k) for the places v and k in the two lists, an absent id counting as one place after all ids there are; in order, and an id is missing only when the answer is full and nothing in it scores less. |
| `Fusion.PresentBeatsAbsent` | pomai_search/src/search_engine.cc:556-557 | A doc that is in a list ranks above every doc that is not. |
| `Fusion.DominanceRaises` | pomai_search/src/search_engine.cc:555-559 | Ranked no worse in both lists and better in one is a strictly higher fused score. |
| `Fusion.DominatorFirst` | pomai_search/src/search_engine.cc:567-577 | Such a doc comes first in the fused order. |
| `Fusion.DominatorReturned` | pomai_search/src/search_engine.cc:583-605 | And is returned whenever the other one is. |
| `Streams.TakePutString` | pomai_search/src/search_engine.cc:714-727 | A length-prefixed string is read back, and the rest of the stream is left alone. |
| `Streams.TakePutList` | pomai_search/src/search_engine.cc:843-875 | So is a counted list of anything that is. |
| `Streams.IterationRebuilds` | pomai_search/src/search_engine.cc:783-798 | Entering the pairs of any iteration of a map into an empty one rebuilds it. |
| `Streams.ReadAll` | pomai_search/src/search_engine.cc:783-798 | The loop stops with an error where the stream ends and otherwise reads every element. |
| `StoreImage.StoreRoundTrip` | pomai_search/core/vectorstore/vector_store.cc:113-217 | What was saved is read back, whatever the block size, and the stream stands right behind it. |
| `StoreImage.Save` | pomai_search/core/vectorstore/vector_store.cc:113-146 | Appends exactly the image of the store. |
| `StoreImage.Load` | pomai_search/core/vectorstore/vector_store.cc:148-217 | Fails exactly on a short stream, another dimension, block size 0, a wrong float count or a wrong live count; otherwise every slot and flag is as saved and the free list is exactly the dead slots. |
| `StoreImage.SavedSlotsRestored` | pomai_search/core/vectorstore/vector_store.cc:113-217 | For a consistent store the rebuilt free list has the same slots as the saved one. |
| `KeywordImage.KeywordRoundTrip` | pomai_search/src/search_engine.cc:729-835 | Whatever order the maps were iterated in when writing, reading gives the same maps and stops where the writer stopped. |
| `KeywordImage.Save` | pomai_search/src/search_engine.cc:729-772 | Appends the image of one iteration of the index's maps. |
| `KeywordImage.Load` | pomai_search/src/search_engine.cc:774-835 | Reads exactly what the stream says, or reports a stream that ended too soon. |
| `FlatImage.FlatRoundTrip` | pomai_search/core/index/flat_index.cc:145-204 | What was saved is read back, and the stream stands right behind it. |
| `FlatImage.Load` | pomai_search/core/index/flat_index.cc:172-204 | Restores ids and items and rebuilds the id table, valid again when ids are distinct. |
| `FlatImage.SameEntries` | pomai_search/core/index/flat_index.cc:198-201 | The rebuilt id table is the saved one. |
| `ShardImage.ShardRoundTrip` | pomai_search/src/search_engine.cc:837-975 | The nested stream of docs, keys, store, index and keywords comes apart where it was put together. |
| `ShardImage.Save` | pomai_search/src/search_engine.cc:837-897 | Appends exactly that stream. |
| `ShardImage.Load` | pomai_search/src/search_engine.cc:899-975 | Restores every part, recounts the live docs and resets the cursor; a stream that ends too soon is an error. |
| `ShardImage.SavedShardRestored` | pomai_search/src/search_engine.cc:837-975 | For any iteration of its maps a saved shard comes back with the same keys, slots, flags, index and keywords and the same docs, except that generations start again; the free list is rebuilt from the same slots. |
| `ShardImage.LoadedIsReloaded` | pomai_search/src/search_engine.cc:837-975 | Loading what was saved of a valid shard gives a valid shard in exactly the reloaded state. |
| `ShardImage.ReloadKeepsIff` | pomai_search/src/search_engine.cc:940-950 | A shard whose parts agree comes back in agreement if and only if every doc that has expired when it is loaded had been taken out before it was saved: the recount leaves expired docs out and a later sweep takes them off once more. |

## Left out

- Floating-point rounding, NaN and infinities: scores and components are reals, so SanitizeScore is the identity.
- Normalisation of vectors for cosine similarity: vectors are taken as already normalised, as the shard stores them.
- K-means training and the random level generator: their results are inputs.
- Metadata filters: a filter only removes candidates after the candidate bound, so a filtered query may return fewer than k matches.
- Deadlock freedom: the protocol's steps are only claimed to be safe, not to be always enabled.
- Wrap-around of 32-bit doc and posting generations: generations are natural numbers.
- Save and Load of the HNSW and the two IVF indexes: straight lists of fields like those of the flat index.
- Whole-engine snapshots: the header does not carry every setting, so round trips are stated per shard with an equal configuration; opening, syncing and renaming files is left out.
- Bursts that straddle the checksum field and the payload: no claim is made about them.
- Weighted-sum fusion, SearchHybrid and the explain records: no property beyond the order of results, which fusion shares.
- HTTP server, command line, C interface, thread pool, JSON and metrics.
- Hnsw.HnswIndex.Upsert: m >= 1 is required of the configuration, because the flat rows have no cell otherwise.
- Hnsw.HnswIndex.SearchLayer: scores of all nodes are taken at the start of the search; the code computes them one by one under the same locks.
- IvfSq8.IvfSq8Index.Search: requires topk * refine_factor >= 1, because the code reads the top of an empty queue otherwise.
- IvfSq8.IvfSq8Index.Upsert: requires of the vectors it reads the index's dimension and, when it may train, finite components, as every stored float vector that passed the dimension check has unless it holds an infinity.
- ShardProtocol.NoTornReads: about SearchCandidates; Shard::Search reads metadata again after validation.
- Shard.Shard.Upsert: sequential, with the flat index underneath; concurrency is in the protocol.
- Shard.Shard.SearchCandidates: over the flat index by dot product, on a shard at rest, and without the items' metadata.
- Engine.Search: at least one shard, which opening an engine demands; they are asked in turn, as without a thread pool.
- Engine.NoneOmittedOutscores: over the flat index by dot product and with no filter.
- Fusion.Fuse: one shard, because ids are local to a shard.
- KeywordImage.Load: a failing load leaves the object half loaded; nothing is stated about it then.
