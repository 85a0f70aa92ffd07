# NewsStream AI core, modelled in Dafny

NewsStream AI collects news articles, enriches them with a chat model, stores
them in MongoDB and answers questions against them. This project models the
decision logic around the foreign calls:

- `RAGEngine.retrieve` and `RAGEngine.answer_query` (`rag.dfy`, module `RagEngine`);
- `ArticleProcessor.process_article` and `process_batch` (`enrichment.dfy`, module `Enrichment`);
- `MongoStore.store_articles`, `get_recent_articles` and `get_stats` (`store.dfy`, module `CorpusStore`);
- the `repair_embeddings` pass (`repair.dfy`, module `Repair`).

Three support modules sit underneath them:

- `values.dfy` (`Values`): JSON/BSON values, records as `map<string, Value>`, and Python truthiness, `dict.get`, `or` and slicing.
- `sorting.dfy` (`Sorting`): a stable descending insertion sort. It stands for `list.sort(key=..., reverse=True)` and for MongoDB's `sort(field, -1)`.
- `counting.dfy` (`Counting`): counting the entries of a sequence that lie in a set.

Foreign calls become function parameters (oracles):

| oracle | stands for | notes |
|---|---|---|
| `embed: Value -> Option<seq<real>>` | `get_embedding` | `None` when it raises |
| `llm: Value -> Option<Record>` | chat call plus `json.loads` in `process_article` | `None` when either raises, or when the JSON is not an object |
| `score: (seq<real>, Value) -> Option<real>` | `cosine_similarity` | `None` when it raises |
| `complete: (string, string) -> Result<string, string>` | chat call of `answer_query` | |
| `showNum: real -> string` | Python's `str` of a float | |

The MongoDB collection is the class `CorpusStore.Collection`. Its fields are:

- `docs`: the documents, keyed by `link`;
- `order`: the links in natural (first-insertion) order.

Its methods `UpdateOneUpsert` and `SetEmbedding` change those fields in place. `store_articles` and `repair_embeddings` are loops over them. `process_article` is a method that updates a local record step by step. `retrieve` is a method with a scoring loop, a sort and a slice. Each of these methods is proved equal to a specification function, and the properties are proved about those functions. The queries `retrieve`, `get_recent_articles` and `get_stats` take `docs: seq<Record>`, which stands for `Docs(c)`, the `find()` listing of the collection in natural order.

## Model

| member | source | states |
|---|---|---|
| Values.Or | src/process_llm.py:30 | `x or y` is truthy iff one operand is; it returns the first operand when that operand is truthy and the second operand otherwise |
| Values.SliceTo | src/process_llm.py:32 | `v[:n]` is defined exactly on strings and lists; the result is the prefix of `v` of length `min(len(v), n)`, and equals `v` iff `v` is no longer than `n` |
| Values.Take | src/rag_engine.py:59 | `s[:k]` is a prefix of `s`; its length is `min(k, len(s))`, or `len(s) + k` (at least 0) for negative `k` |
| Enrichment.SourceText | src/process_llm.py:30 | the text is `full_text` when it is present and truthy, otherwise `summary_rss` (default `''`) |
| Enrichment.AnalysedText | src/process_llm.py:30-32 | slicing succeeds exactly when the chosen text is a string or a list; the analysed text is that value cut to its first 6000 elements |
| Enrichment.Enriched | src/process_llm.py:26-90 | as written: `None` (the `TypeError` escapes) iff slicing fails. Otherwise `llm_summary`, `category` and `sentiment` always hold the sentinels `Processing Failed`, `Unclassified`, `Neutral`. `processed_at` and every key outside the enrichment keys keep their old value. `embedding` is the vector (or `[]` after a caught embedding failure) exactly when the `try` got past the title log and the chat call; otherwise it is untouched |
| Enrichment.ProcessArticle | src/process_llm.py:26-90 | the in-place updates of the dict, followed by the outer `except` after the `NameError` at line 81, produce exactly `Enriched` |
| Enrichment.EnrichedIntended | src/process_llm.py:52-83 | with the timestamp written, a parsed answer keeps `summary`, `category` and `sentiment` with the defaults `Error generating summary`, `Unclassified` and `Neutral`, plus the embedding and `processed_at`. Every failure path equals `Enriched`, and other keys are unchanged |
| Enrichment.ParsedAnswerDiscarded | src/process_llm.py:70-90 | on one concrete article whose answer parses, the as-written result holds the sentinel summary and no `processed_at`; the intended result holds the parsed summary and the timestamp |
| Enrichment.ProcessBatch | src/process_llm.py:92-105 | succeeds iff no article raises `TypeError`; it then returns one record per article, in order, with element `i` equal to `Enriched(articles[i])`, and every category is `Unclassified` |
| RagEngine.CandidatesSpec | src/rag_engine.py:41-47 | the fetched candidates are exactly the stored documents with a non-empty `embedding` whose `published` contains the active date filter; each carries `embedding`, and there are no more of them than stored documents |
| RagEngine.CandidatesConcat | src/rag_engine.py:41-47 | fetching the documents of `a + b` gives the candidates of `a` followed by those of `b`, so candidates keep the stored order |
| RagEngine.CandidatesSingle | src/rag_engine.py:41-47 | one stored document is fetched iff it is eligible |
| RagEngine.ScoreAll | src/rag_engine.py:49-55 | the scoring loop yields no more entries than there are candidates |
| RagEngine.ScoreAllExact | src/rag_engine.py:49-55 | every scored entry is a candidate with its own position and a score the oracle computed, positions strictly increase, and every candidate whose scoring does not raise is present |
| RagEngine.ScoreAllStep | src/rag_engine.py:50-55 | one more iteration appends the candidate with its score, or nothing when scoring raises |
| RagEngine.ScoreCandidates | src/rag_engine.py:49-55 | the imperative loop builds exactly `ScoreAll` |
| RagEngine.DocsOf | src/rag_engine.py:59 | `[item[1] for item in ...]` keeps length and order |
| RagEngine.Retrieved | src/rag_engine.py:28-63 | a failed or empty query embedding gives `[]`; at most `top_k` documents (for `top_k >= 0`); every returned document is stored, has a non-empty embedding and matches the date filter |
| RagEngine.RankingFromCandidates | src/rag_engine.py:47-58 | every ranked entry is a fetched candidate |
| RagEngine.Retrieve | src/rag_engine.py:28-63 | the method built from loop, sort and slice equals `Retrieved`, with the same guarantees |
| RagEngine.ByScoreTotalPreorder | src/rag_engine.py:58 | the score key is a total preorder |
| RagEngine.RankingOrdered | src/rag_engine.py:58 | the sorted list is a permutation of the scored list, in non-increasing score order, and equal scores keep fetch order (stability under `reverse=True`) |
| RagEngine.RetrievedDominates | src/rag_engine.py:58-59 | every entry cut off by the `[:top_k]` slice scores no higher than every returned entry |
| RagEngine.FindDateFrom | src/rag_engine.py:71-72 | the scan returns the leftmost index from `from` onward where `DDDD-DD-DD` matches, or `None` when there is none |
| RagEngine.DateToken | src/rag_engine.py:70-73 | `date_filter` is `None` iff no date token occurs; otherwise it is the leftmost one |
| RagEngine.ContextConcat | src/rag_engine.py:82 | the context of a concatenation is the two contexts joined by `"\n\n"`, so there is one block per document, in retrieval order |
| RagEngine.AnswerQuery | src/rag_engine.py:65-115 | when retrieval is empty, the reply names a date exactly when the query held one, and then the same date: scanning the reply finds the query's date token (or none); non-empty retrieval gives the chat answer on the context of the retrieved documents, or `Error: e` |
| RagEngine.NoDigitsInPrefix | src/rag_engine.py:78 | the fixed prefix of the dated message has no digit |
| RagEngine.NoDigitsInNoResult | src/rag_engine.py:79 | the undated message has no digit |
| RagEngine.NoDateMessageNamesDate | src/rag_engine.py:72-78 | the dated message names its date: scanning it finds exactly that date |
| RagEngine.NoResultMessageHasNoDate | src/rag_engine.py:72-79 | the undated message names no date |
| Sorting.Insert | src/rag_engine.py:58 | insertion adds exactly one element, as a multiset |
| Sorting.SortDesc | src/rag_engine.py:58 | the sort is a permutation of its input |
| Sorting.InsertSorted | src/rag_engine.py:58 | inserting into a sorted list under a total preorder keeps it sorted |
| Sorting.SortDescSorted | src/rag_engine.py:58 | the sort's result is in non-increasing order |
| Sorting.InsertMembers | src/rag_engine.py:58 | insertion adds no element other than the inserted one |
| Sorting.InsertStable | src/rag_engine.py:58 | insertion in front of the first element it ties with or outranks keeps ties in input order |
| Sorting.SortDescStable | src/rag_engine.py:58 | the sort is stable: tied elements leave in input order |
| CorpusStore.Docs | src/store_mongo.py:56 | `find()` lists every stored document once, in natural order |
| CorpusStore.DocsUniqueLinks | src/store_mongo.py:27 | with the unique index, no two listed documents share a `link` |
| CorpusStore.Upsert | src/store_mongo.py:44-48 | the document at the article's link holds every field of the article; fields absent from the article keep their old values (`$set` merge); an absent link inserts the article and appends it to natural order; other links are unchanged; the unique index is kept |
| CorpusStore.UpsertIdempotent | src/store_mongo.py:44-48 | upserting the same article twice is the same as once |
| CorpusStore.Linked | src/store_mongo.py:40-51 | the number of articles with a `link` is at most the number of articles |
| CorpusStore.StoreAll | src/store_mongo.py:40-53 | the stored links are the old ones plus the articles' links; documents at links no article names are unchanged; the unique index is kept |
| CorpusStore.StoreAllLastWins | src/store_mongo.py:41-48 | a field's stored value comes from the last article with that link that carries the field |
| CorpusStore.Collection.constructor | src/store_mongo.py:20-27 | a new collection is empty and satisfies the unique index |
| CorpusStore.Collection.UpdateOneUpsert | src/store_mongo.py:44-48 | the in-place `update_one` with `upsert=True` performs `Upsert` |
| CorpusStore.Collection.SetEmbedding | src/repair_embeddings.py:53-56 | `$set` of `embedding` replaces that one field of that one document and nothing else |
| CorpusStore.StoreArticles | src/store_mongo.py:32-53 | the loop leaves the collection equal to `StoreAll` of the articles; `count` is the number of articles with a `link`, at most their number |
| CorpusStore.StrLeqTotal | src/store_mongo.py:56 | binary string order is total |
| CorpusStore.StrLeqTransitive | src/store_mongo.py:56 | binary string order is transitive |
| CorpusStore.NewerOrSameTotalPreorder | src/store_mongo.py:56 | the `published` sort key (BSON type order, then value) is a total preorder |
| CorpusStore.LimitCount | src/store_mongo.py:56 | `limit(n)` lets through `min(|n|, available)` documents, and all of them when `n == 0` |
| CorpusStore.GetRecentArticles | src/store_mongo.py:55-56 | the result has `LimitCount` documents drawn from the collection, is non-increasing by `published`, and every document not returned is no newer than every returned one |
| CorpusStore.BumpTotals | src/store_mongo.py:59-62 | adding a document to the groups adds its key and one to the total, and keeps counts positive |
| CorpusStore.BumpShape | src/store_mongo.py:59-62 | adding a document increments a group in place or appends a new group of count 1 for an unseen key |
| CorpusStore.BumpDistinct | src/store_mongo.py:59-62 | adding a document never creates a second group for a key |
| CorpusStore.BumpLookup | src/store_mongo.py:59-62 | adding a document with key `v` raises the count of `v` by one and no other |
| CorpusStore.GetStats | src/store_mongo.py:58-62 | one group per distinct `category` (missing counts as `null`); each counts exactly the documents with that category, counts are positive and sum to the number of documents |
| CorpusStore.LookupIsCount | src/store_mongo.py:59-62 | every group's `count` is the recorded count of its `_id` |
| Counting.CountIn | src/repair_embeddings.py:38-57 | a counter bumped once per listed key in a set never exceeds the number of keys |
| Counting.ElemsInMembers | src/repair_embeddings.py:40-57 | the keys counted are exactly those listed and in the set |
| Counting.CountInDistinct | src/repair_embeddings.py:38-57 | over distinct keys, the counter equals the number of distinct keys in the set |
| Repair.NeedsRepair | src/repair_embeddings.py:27-33 | the selection query selects exactly the documents the retrieval filter leaves out: `embedding` absent or empty |
| Repair.NewEmbeddingSpec | src/repair_embeddings.py:43-57 | a vector is written iff the document is selected, its fallback text (`full_text`, `summary_rss`, `title`, `''`) is truthy, and `get_embedding` returns a non-empty list; the vector is that list |
| Repair.Repaired | src/repair_embeddings.py:40-64 | a pass keeps the stored links and natural order |
| Repair.RepairedOnlyEmbedding | src/repair_embeddings.py:52-56 | a pass changes no field but `embedding`, and no document it does not write |
| Repair.RepairedFixes | src/repair_embeddings.py:27-33 | a written document gets its non-empty vector, so retrieval considers it; a document a second pass would select was not changed by the first |
| Repair.RepairedValid | src/repair_embeddings.py:52-56 | a pass keeps the unique index |
| Repair.SelectedKeysMembers | src/repair_embeddings.py:27-35 | `docs_to_repair` lists exactly the selected documents, and no more than are stored |
| Repair.SelectedKeysDistinct | src/repair_embeddings.py:27-35 | with the unique index, `docs_to_repair` lists each selected document once |
| Repair.SelectedKeysConcat | src/repair_embeddings.py:27-35 | selecting from `a + b` lists the selected keys of `a` followed by those of `b`, so the list keeps natural order |
| Repair.SelectedKeysSingle | src/repair_embeddings.py:27-33 | one stored document is listed iff it needs repair |
| Repair.CountedIsWritten | src/repair_embeddings.py:38-66 | the final counter is the number of distinct documents written |
| Repair.AfterVisiting | src/repair_embeddings.py:40-57 | the writes of the loop keep the set of stored links |
| Repair.AfterVisitingPointwise | src/repair_embeddings.py:40-57 | after visiting some keys, a visited document is repaired and an unvisited one untouched |
| Repair.AfterVisitingAll | src/repair_embeddings.py:27-57 | once every selected document is visited, the collection is `Repaired` |
| Repair.RepairOne | src/repair_embeddings.py:41-61 | one loop iteration writes iff the text is truthy and the embedding non-empty, and then writes just that vector into `embedding`; otherwise nothing changes |
| Repair.VisitNext | src/repair_embeddings.py:40-57 | one more iteration applies exactly the write the loop body performs, and bumps the counter exactly when it writes |
| Repair.RepairEmbeddings | src/repair_embeddings.py:20-66 | the loop leaves the collection equal to `Repaired`; `updated_count` is the number of documents written, at most the number selected |

## Left out

- Cosine similarity (src/rag_engine.py:19-20) is the oracle `score`. Its floating-point arithmetic, NaN on zero vectors and NaN's effect on sorting are not modelled.
- The embedding model, the Groq chat calls and `json.loads` of their output are oracles. Prompt texts are not modelled, since only the oracles see them.
- Python's float formatting inside the f-strings is the oracle `showNum`.
- `Num(x: real)` stands for both Python `int` and `float`, so `RagEngine.Render` cannot tell `str(5)` from `str(5.0)` in the context f-string (src/rag_engine.py:82).
- Values are null, booleans, numbers, strings and lists of numbers. Nested objects and lists of other values are not modelled.
- MongoDB array semantics are not modelled: matching `[]` inside an array, and sorting an array by its largest element. Neither are collation, or an ObjectId `_id` distinct from `link`. `repair_embeddings` updates by `_id`; the model keys documents by `link`, which the unique index makes equivalent.
- Natural order is modelled as first-insertion order. MongoDB does not promise it, and the model relies on it only for tie order.
- `$regex` with `$options: "i"` is modelled as literal, case-sensitive substring containment. The tokens `answer_query` produces are digits and hyphens, for which the two agree. Regex metacharacters in a caller-given `date_filter` are not modelled.
- `\d` is modelled as ASCII `0`-`9`. Python's `re` also matches other Unicode decimal digits.
- `RagEngine.Retrieved`: exceptions from `find()` itself (connection failures, bad regex) are not modelled. The `except` at src/rag_engine.py:61-63 returns `[]` for them.
- `CorpusStore.StoreArticles`: storage errors other than the missing `link` (a duplicate-key race or a connection failure) are not modelled. The JSON file read and the "file not found" return are left out; the articles are a parameter.
- `CorpusStore.GetRecentArticles`: the contract does not state the tie order. The model breaks ties by natural order; the server leaves it unspecified.
- `Enrichment.ProcessBatch`: `import pandas` failing, and the JSON file read and write, are not modelled. The articles are a parameter and the list is the result.
- `Enrichment.ProcessArticle`: modelled on values. The caller never observes aliasing of the dict, because `process_batch` only appends the returned object.
- `Repair.RepairEmbeddings`: a failing `update_one` is not modelled. Neither are the client connection and the progress prints.
- Logging, prints, the `processed_at` / `ingested_at` clock values and `__main__` blocks are not modelled. The intended timestamp is the parameter `now`.
- `src/dashboard_ui.py`, `src/ingest_rss.py`, `debug_system.py` and `src/utils_embeddings.py` are not part of this model. They are UI, HTTP scraping, diagnostics and the embedding-model wrapper.
- `CATEGORIES` (src/config.py:6-11) is the constant `Enrichment.Categories`. The code never checks a category against it, and neither does the model.

## Findings

| source | as written | input that shows it | evidently intended | confidence | as-written member | corrected member |
|---|---|---|---|---|---|---|
| src/process_llm.py:81 | `pd.Timestamp.now()` runs inside `process_article`, but `pd` is bound only by the local `import pandas as pd` in `process_batch` (line 93). So line 81 always raises `NameError`, and the outer `except` replaces the parsed summary, category and sentiment with the sentinels. No `processed_at` is ever written. | an article with title `India wins cricket series` and `summary_rss` `Report`, whose chat answer parses to summary `India won.` | keep the parsed fields and write `processed_at` | not executed | Enrichment.ParsedAnswerDiscarded | Enrichment.EnrichedIntended |

`Enrichment.Enriched` is the as-written behaviour. `Enrichment.ProcessArticle` and `Enrichment.ProcessBatch` follow it, because that is what the repository computes. `Enrichment.EnrichedIntended` is the corrected definition, and its contract proves the intended outcome.
