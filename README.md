# PaperLens core, modelled in Dafny

PaperLens recommends arXiv papers. A user's interactions with papers
(like, dislike, view, bookmark, share, delete) update two kinds of state:

- a profile **embedding**, kept by `UserEmbeddingService`, which is updated with an
  exponential moving average, decayed over time and normalised;
- a **category preference** map, kept by `update_user_preferences`, which holds at
  most 30 categories whose weights are normalised to sum to one.

Recommendations rank candidate papers by the cosine similarity between the paper
and the profile, mapped onto [0, 1].

Other parts of the repository that are modelled:

- A multimodal RAG agent retrieves text chunks and figures from FAISS flat indices.
  It formats them into a prompt and sends that prompt, with the images, to a chat model.
- The paper-processing route sanitises titles into file names.
- A word-window chunker splits extracted text.
- The React front end truncates abstracts, toggles likes, filters the feed and
  edits interests and search filters.

The project holds these modules:

| module | models |
|---|---|
| `Embedding` | `agents/data/embedding.py`, the profile service (`class UserEmbeddingService`) |
| `Indexing` | `agents/data/indexing.py`, the FAISS wrapper (`class FaissIndex`) and the exact L2 search |
| `Chunker` | `agents/lib/chunker.py` (`class TextChunker`) |
| `Interactions` | `backend/app/services/handle_interaction.py`, interaction weights and per-category deltas |
| `Preferences` | `update_user_preferences` in `backend/app/services/db_service.py` (`class UserPreferences`) |
| `Rag` | retrieval, context formatting, prompt and response in `agents/system_agents/papers_rag.py` |
| `PapersApi` | title sanitising, paths and `process_paper` in `backend/app/routes/papers_api.py` |
| `PaperCard`, `PaperFeed`, `PaperSearch`, `SettingsPage` | the matching components under `frontend/components/` |
| `Wrappers`, `Records`, `Text`, `Vectors`, `Lists`, `PaperTypes` | the vocabulary these modules share |

The vocabulary modules cover results and errors, JSON-like records with Python
truthiness, Python and JavaScript string functions, vector arithmetic, list
filters, and the `Paper` type of `frontend/lib/api.ts`.

Floating-point numbers are modelled as `real`. NumPy's `sqrt` and `**` are not
definable over the reals in Dafny. They are fields of the embedding service, and
the members that use them require the `IsSqrt` and `IsPow` predicates. Time,
randomness, the model, the database and the file system are parameters:

- days since the last update;
- the random initial profile;
- the embedding lookup;
- the image encoder and validator;
- the chat model's reply;
- whether an API call succeeded.

## Model

| member | source | states |
|---|---|---|
| `Embedding.ParseInteraction` | agents/data/embedding.py:397-408 | An interaction name parses to a type exactly when the type's name equals the lower-cased input. Any other name is a ValueError. |
| `Embedding.WeightTable` | agents/data/embedding.py:23-29 | The six names parse to like 1.0, dislike -0.5, view 0.1, bookmark 0.8, share 0.6 and delete -0.9. |
| `Embedding.ParseIgnoresCase` | agents/data/embedding.py:406-410 | Two spellings that agree after lower-casing parse to the same outcome. |
| `Embedding.SortByScore` | agents/data/embedding.py:463-464 | The result is sorted by descending relevance and is a permutation of its input. |
| `Embedding.AsRecords` | agents/data/embedding.py:454-457 | Each scored paper becomes its record with `relevance_score` added and every other key kept. |
| `Embedding.UserEmbeddingService.constructor` | agents/data/embedding.py:35-44 | The service keeps the given dimension, learning rate, decay factor and minimum-interaction count. |
| `Embedding.UserEmbeddingService.GetUserEmbedding` | agents/data/embedding.py:90-103 | The stored profile is used when there is a non-empty one of the right dimension, and the fallback vector otherwise. The result always has the service's dimension. |
| `Embedding.UserEmbeddingService.WeightedEmptyIff` | agents/data/embedding.py:115-126 | The weighted list is empty exactly when no embedding has the service's dimension. |
| `Embedding.UserEmbeddingService.CalculateWeightedEmbeddings` | agents/data/embedding.py:106-126 | Mismatched lengths raise ValueError. Otherwise the result is the weighted list: each same-dimension embedding scaled by its interaction weight, at most one per input. |
| `Embedding.UserEmbeddingService.EmaUpdate` | agents/data/embedding.py:129-149 | Keeps the current vector's length. It returns the current vector unchanged when there are no new embeddings or their dimension differs. |
| `Embedding.UserEmbeddingService.EmaBlendsComponents` | agents/data/embedding.py:138-147 | Each component is (1 - α)·current + α·mean of the new embeddings. |
| `Embedding.UserEmbeddingService.EmaIsConvex` | agents/data/embedding.py:145-147 | For 0 ≤ α ≤ 1, each updated component lies between the current component and the mean. |
| `Embedding.UserEmbeddingService.EmaFullRateIsMean` | agents/data/embedding.py:145-147 | With α = 1 the update is exactly the mean of the new embeddings. |
| `Embedding.UserEmbeddingService.DecayMultiplier` | agents/data/embedding.py:159-169 | `max(0.1, decay_factor ** (days / 30))` with Python's float power. A positive factor gives exactly `max(0.1, pow(factor, days / 30))`. A zero factor with positive days gives the 0.1 floor. It raises exactly for a zero factor with negative days, or a negative factor with days not a multiple of 30. Any multiplier is at least 0.1, is exactly 1 on day 0, and is at most 1 for non-negative days and a factor in [0, 1]. |
| `Embedding.UserEmbeddingService.ApplyTemporalDecay` | agents/data/embedding.py:152-174 | Without an update time, or when the power raises, the vector is unchanged. A positive factor scales it by exactly `max(0.1, pow(factor, days / 30))`, and a zero factor with positive days by 0.1. Any scaling multiplier is at least 0.1, and at most 1 for non-negative days and a factor in [0, 1]. |
| `Embedding.UserEmbeddingService.NormalizeEmbedding` | agents/data/embedding.py:176-181 | A vector whose norm is above 1e-8 becomes v / ‖v‖, a unit vector. Smaller vectors are returned unchanged. |
| `Embedding.UserEmbeddingService.CalculateUserSimilarity` | agents/data/embedding.py:183-202 | The similarity is in [-1, 1]. It is 0 for different lengths or a near-zero norm. |
| `Embedding.UserEmbeddingService.SelfSimilarity` | agents/data/embedding.py:192-202 | A vector of non-negligible norm has similarity 1 with itself. |
| `Embedding.UserEmbeddingService.GetPaperRelevanceScore` | agents/data/embedding.py:204-219 | The relevance is (similarity + 1) / 2, in [0, 1]. It is 0 when the lengths differ. |
| `Embedding.UserEmbeddingService.RelevanceOrdersLikeSimilarity` | agents/data/embedding.py:213-219 | Relevance ranks papers in the same order as similarity, and the profile itself scores 1. |
| `Embedding.UserEmbeddingService.FullRateForgetsProfile` | agents/data/embedding.py:70-83 | With α = 1 and no update time, the new profile is the normalised mean of the weighted embeddings, whatever the old profile was. |
| `Embedding.UserEmbeddingService.UpdateUserEmbedding` | agents/data/embedding.py:46-87 | Mismatched lengths raise ValueError. With no usable embedding the current profile is returned. Otherwise the result is normalise(decay(EMA(current, weighted))), with the service's dimension. |
| `Embedding.UserEmbeddingService.HandlePaperInteraction` | agents/data/embedding.py:383-429 | A missing user id, paper or interaction name is a ValueError. A paper without a truthy id, a paper with no embedding, or an unknown interaction is an error. Otherwise the profile handed to persistence is the one-item update of the stored profile: the paper's embedding weighted by its interaction, blended, decayed and normalised. |
| `Embedding.UserEmbeddingService.ScoreOf` | agents/data/embedding.py:443-457 | A candidate is scored exactly when it has an id with a known embedding, and then keeps its fields with its relevance to the profile. |
| `Embedding.UserEmbeddingService.ScoreCandidates` | agents/data/embedding.py:442-461 | At most one entry per candidate. Each entry is a candidate with an id and a known embedding, with its relevance to the profile. |
| `Embedding.UserEmbeddingService.ScoreCandidatesInOrder` | agents/data/embedding.py:442-461 | The scored list is the outcome of `ScoreOf` for each candidate that has one: every scorable candidate, exactly once, in candidate order, and no other. |
| `Embedding.UserEmbeddingService.ScoreAll` | agents/data/embedding.py:442-461 | The scoring loop computes exactly the scored candidates above. |
| `Embedding.UserEmbeddingService.RecommendsEveryScorable` | agents/data/embedding.py:443-464 | Every candidate with an id and a known embedding is in the ranked result, with its original fields and its relevance score. |
| `Embedding.UserEmbeddingService.GetPaperRecommendations` | agents/data/embedding.py:431-468 | No user or no candidates gives []. Otherwise the result is the scored candidates, each with a relevance score in [0, 1], in non-increasing order of relevance. |
| `Indexing.FaissIndex.constructor` | agents/data/indexing.py:11-15 | A new index is empty, with the given dimension and path. |
| `Indexing.FaissIndex.AddEmbeddings` | agents/data/indexing.py:17-22 | A non-empty batch is appended to the vectors and its metadata to the metadata. An empty batch changes nothing. |
| `Indexing.FaissIndex.FlatSearch` | agents/data/indexing.py:26 | The labels are the k nearest stored vectors by squared L2 distance, ascending. Missing places are padded with label -1 and distance FLT_MAX. |
| `Indexing.FaissIndex.Search` | agents/data/indexing.py:24-33 | The result is the collected metadata of a flat search and has at most top_k records. With no metadata and padding, it raises IndexError. |
| `Indexing.FaissIndex.Save` | agents/data/indexing.py:35-36 | The saved file holds exactly the stored vectors. |
| `Indexing.FaissIndex.Load` | agents/data/indexing.py:38-39 | Loading replaces the vectors and the dimension with the file's, whatever the dimension was, and leaves the metadata as it was. |
| `Indexing.CollectAllValid` | agents/data/indexing.py:28-32 | When every label indexes the metadata, each hit is that metadata record with its distance as `score`. |
| `Indexing.AlignedSearch` | agents/data/indexing.py:24-33 | With aligned metadata and k ≤ the number of vectors, the search returns k records of the k nearest vectors, scored in ascending distance. |
| `Indexing.EmptyMetadataPadding` | agents/data/indexing.py:28-32 | With no metadata, the result is [] when no padding occurs and IndexError when it does. |
| `Indexing.PaddingRepeatsLast` | agents/data/indexing.py:29-30 | As written: every padded place returns the last metadata record with score FLT_MAX. |
| `Indexing.GuardedSearchHasNoPadding` | agents/data/indexing.py:28-32 | Corrected guard: the search returns exactly min(k, n) records, those of the real nearest vectors. |
| `Chunker.SplitEmptyIff` | agents/lib/chunker.py:18 | `str.split()` gives no words exactly when the text is all whitespace. |
| `Chunker.NumChunksCountsStarts` | agents/lib/chunker.py:24-29 | Chunk k exists exactly when its start k·(size - overlap) is before the end of the word list. |
| `Chunker.TextChunker.constructor` | agents/lib/chunker.py:9-12 | The chunker keeps its chunk size and overlap (500 and 50 by default). |
| `Chunker.TextChunker.ChunkText` | agents/lib/chunker.py:15-31 | Text without words gives no chunks, whatever the sizes. With chunk_size > overlap there is one chunk per window start, and chunk k is words[k·step : k·step + size] joined by single spaces. |
| `Chunker.TextChunker.ChunkWords` | agents/lib/chunker.py:20-31 | No words give no chunks. With chunk_size > overlap there is one chunk per window start, and chunk k is words[k·step : k·step + size] joined by single spaces. |
| `Chunker.TextChunker.ChunkWordsLoop` | agents/lib/chunker.py:20-29 | As written, over the words: round k appends words[k·step : k·step + size]. With chunk_size ≤ overlap and a word, every round keeps the guard true. |
| `Chunker.TextChunker.ChunkLoop` | agents/lib/chunker.py:20-29 | As written: round k appends words[k·step : k·step + size]. With chunk_size ≤ overlap, text with a word keeps the loop running after any number of rounds. |
| `Chunker.TextChunker.CheckedChunkText` | agents/lib/chunker.py:15-31 | Corrected: chunk_size ≤ overlap is a ValueError. Otherwise the result is the chunks of `ChunkText`. |
| `Chunker.EmptyTextNoChunks` | agents/lib/chunker.py:18-24 | There are no chunks exactly when the text is all whitespace. |
| `Chunker.ChunkBounds` | agents/lib/chunker.py:24-26 | Every chunk has between 1 and chunk_size words and is a non-empty string. |
| `Chunker.EveryWordCovered` | agents/lib/chunker.py:24-29 | Every word lies in some chunk. |
| `Chunker.ConsecutiveChunksOverlap` | agents/lib/chunker.py:24-29 | Two consecutive full chunks share exactly `overlap` words. |
| `Interactions.UserInteraction` | backend/app/services/handle_interaction.py:17-26 | The six names map to non-zero values in (-1, 1]. Any other name raises KeyError with that name. |
| `Interactions.WeightsAgree` | backend/app/services/handle_interaction.py:8-14 | The backend table and the agents' table give every interaction the same weight. |
| `Interactions.UserPaperInteraction` | backend/app/services/handle_interaction.py:29-53 | The deltas have one key per category of the paper (primary and listed), each with the interaction's value. An unknown interaction is an error. |
| `Interactions.NoCategoriesNoDeltas` | backend/app/services/handle_interaction.py:44-53 | A paper with no categories produces no deltas. |
| `Interactions.DuplicateCategoryCollapses` | backend/app/services/handle_interaction.py:45-51 | A category listed twice gets a single delta, not a doubled one. |
| `Preferences.Apply` | backend/app/services/db_service.py:106-117 | Each existing category gains its delta. A new category is added only for a positive delta. |
| `Preferences.Prune` | backend/app/services/db_service.py:126-128 | Exactly the categories with a positive weight stay, with their weights. |
| `Preferences.KeepTop` | backend/app/services/db_service.py:136-142 | At most 30 categories are kept. Every kept weight is at least every dropped one, and all are kept when there are at most 30. |
| `Preferences.Total` | backend/app/services/db_service.py:145 | The loop total equals the sum of the weights. |
| `Preferences.NormalizedIsDistribution` | backend/app/services/db_service.py:145-148 | Dividing positive weights by their total gives weights in (0, 1] that sum to 1. |
| `Preferences.UserPreferences.constructor` | backend/app/services/db_service.py:93-97 | A user without preferences starts with an empty map. |
| `Preferences.UserPreferences.UpdateUserPreferences` | backend/app/services/db_service.py:84-153 | The new weights are the applied, pruned, top-30 selected and normalised update of the old ones. They are stored and returned. |
| `Preferences.UserPreferences.InteractWithPaper` | backend/app/services/handle_interaction.py:55-60 | An unknown interaction is an error and changes nothing. Otherwise the paper's category deltas are applied as an update. |
| `Preferences.UpdateIsBoundedDistribution` | backend/app/services/db_service.py:126-148 | After any update there are at most 30 categories, each weight is in (0, 1], and a non-empty map sums to 1. |
| `Preferences.NonPositiveIsDeleted` | backend/app/services/db_service.py:126-128 | A category whose weight drops to 0 or below is deleted. |
| `Preferences.NewPositiveCategorySurvives` | backend/app/services/db_service.py:109-117 | A new category with a positive delta is kept when the top-30 cut does not apply. |
| `Rag.B64ToUrl` | agents/system_agents/papers_rag.py:49-53 | The result is a data URL ending in the payload. It is the identity exactly on inputs that already start with `data:image`. |
| `Rag.B64ToUrlIdempotent` | agents/system_agents/papers_rag.py:49-53 | Converting twice gives the same URL as converting once. |
| `Rag.ScoreAbove` | agents/system_agents/papers_rag.py:131 | A result passes exactly when its `score` is a number above 0.5. A missing score counts as 0. A non-numeric score raises. |
| `Rag.FilterByScore` | agents/system_agents/papers_rag.py:129-134 | Unless some comparison raises, the kept results are the list filter of the passing results: all of them, in order, each once. |
| `Rag.RetrieveImages` | agents/system_agents/papers_rag.py:123-138 | The loop returns the filtered results. A failed search or comparison returns []. |
| `Rag.ExactMatchImageDropped` | agents/system_agents/papers_rag.py:131 | An image at distance 0 (an exact match) is filtered out. |
| `Rag.AsDocument` | agents/system_agents/papers_rag.py:108-115 | A result with `content` becomes a Document with that content and its metadata, or {}. Any other result is skipped. |
| `Rag.Documents` | agents/system_agents/papers_rag.py:106-117 | Documents exist exactly when `Document` accepts every result. Then there are at most as many as results, each comes from a result, and every result with `content` contributes its document. |
| `Rag.DocumentsInOrder` | agents/system_agents/papers_rag.py:106-117 | The documents are those of the results that have `content`: document k is that of the k-th such result, so all of them, in order, each once. |
| `Rag.RetrieveTextContext` | agents/system_agents/papers_rag.py:99-121 | The loop returns those documents. A failed search, or a result that `Document` rejects, returns []. |
| `Rag.ImagePath` | agents/system_agents/papers_rag.py:154 | The path is the first truthy value among `filename`, `path` and `content`. |
| `Rag.EncodedImages` | agents/system_agents/papers_rag.py:152-163 | At most one image per result, and every image is a non-empty string the validator accepts. |
| `Rag.EncodedImagesInOrder` | agents/system_agents/papers_rag.py:152-163 | Image k is the encoding of the k-th result whose path encodes to a non-empty, valid string: every such result contributes exactly one, in order, and no other does. |
| `Rag.EncodeImages` | agents/system_agents/papers_rag.py:152-163 | The loop keeps, in order, exactly the encodings the specification function selects. |
| `Rag.RetrieveAll` | agents/system_agents/papers_rag.py:140-172 | The text documents and encoded images are those of the two searches. A failed search contributes nothing. |
| `Rag.Sources` | agents/system_agents/papers_rag.py:211-213 | The source text is empty exactly when there are no documents. |
| `Rag.SourceEntryPlaced` | agents/system_agents/papers_rag.py:212-213 | Document i appears as "[Source i+1]" with its content, right after the entries before it. |
| `Rag.ImagesInfo` | agents/system_agents/papers_rag.py:216-222 | With no images, the text says none were found. Otherwise it starts with the count header. |
| `Rag.FigureEntryPlaced` | agents/system_agents/papers_rag.py:218-220 | Figure i is listed after the header and the figures before it. |
| `Rag.FormatContext` | agents/system_agents/papers_rag.py:207-224 | The loops build exactly the source text and the figure summary. |
| `Rag.PromptLayout` | agents/system_agents/papers_rag.py:190-205 | The prompt starts with the system prompt, then the context and the visual sections, and ends with the question and the closing instruction. |
| `Rag.ContentParts` | agents/system_agents/papers_rag.py:236-240 | The message is the prompt text followed by one image URL part per image, in order. |
| `Rag.GenerateResponse` | agents/system_agents/papers_rag.py:226-261 | A reply is returned with the numbers of documents and images used. A failure becomes the error text with counts 0. |
| `PapersApi.ReplaceForbidden` | backend/app/routes/papers_api.py:54 | Each of `<>:"/\|?*` becomes `_` and every other character is kept, at the same length. |
| `PapersApi.SanitizeTitle` | backend/app/routes/papers_api.py:54-55 | The safe title has no forbidden character and no leading whitespace. Its length is that of the stripped, replaced title, cut to 100. |
| `PapersApi.SanitizeKeepsCharacters` | backend/app/routes/papers_api.py:54-55 | Every character of the safe title is the replaced title's character at the position after the stripped prefix. |
| `PapersApi.SanitizeNotIdempotent` | backend/app/routes/papers_api.py:55 | Sanitising twice can differ from sanitising once, because the cut to 100 can leave trailing whitespace. |
| `PapersApi.PathJoin` | backend/app/routes/papers_api.py:59 | `os.path.join`: an absolute second part wins. Otherwise the result is the first part, at most one separator, then the second part. |
| `PapersApi.PdfPath` | backend/app/routes/papers_api.py:57-59 | The PDF path starts with the download directory and ends in the slash-free "<safe title>.pdf". |
| `PapersApi.ArxivId` | backend/app/routes/papers_api.py:121 | The id is the slash-free last segment of the URL. |
| `PapersApi.ArxivIdOfJoinedUrl` | backend/app/routes/papers_api.py:121 | The id taken from "<prefix>/<id>" is `id`. |
| `PapersApi.ProcessedDir` | backend/app/routes/papers_api.py:86 | As written, the processed directory is the prefix followed by the raw title. |
| `PapersApi.RawTitleNestsDirectory` | backend/app/routes/papers_api.py:86 | As written, some title puts a `/` after the prefix and so escapes the single directory. |
| `PapersApi.SafeProcessedDir` | backend/app/routes/papers_api.py:86 | Corrected: the directory name after the prefix contains no `/`. |
| `PapersApi.ProcessPaper` | backend/app/routes/papers_api.py:69-92 | An empty id gives 400 and a failed download gives 500. Otherwise the paper is processed from its PDF path into the corrected directory, not the raw-title one of line 86. |
| `Lists.FilterInOrder` | frontend/components/paper-feed.tsx:76 | `filter` keeps exactly the elements that pass, in their original order, each once. |
| `Lists.Without` | frontend/components/settings-page.tsx:65 | The removed value is gone, and every other element stays, in its original order, once per occurrence. The list shrinks when the value was present. |
| `PaperCard.TruncateAbstract` | frontend/components/paper-card.tsx:38-41 | Text within the limit is kept. Longer text becomes its first 200 characters plus "...". |
| `PaperCard.ReadMoreIffTruncated` | frontend/components/paper-card.tsx:117-120 | "Read more" shows exactly when the collapsed text has 203 characters, and is hidden exactly when it has at most 200. |
| `PaperCard.ReadMoreWithUnchangedText` | frontend/components/paper-card.tsx:117-120 | An abstract of 203 characters ending in "..." shows "Read more" although truncation changes nothing. |
| `PaperCard.Byline` | frontend/components/paper-card.tsx:64-65 | Up to two authors are joined by ", ". More authors give exactly the first two joined by ", ", then " +n more" with n the number of other authors. |
| `Text.NatToStringValue` | frontend/components/paper-card.tsx:65 | The decimal text of n reads back as n, with no leading zero except for "0". |
| `PaperCard.BylineOfTwo` | frontend/components/paper-card.tsx:64 | Two authors read "a, b". |
| `PaperCard.FirstMatch` | frontend/components/paper-card.tsx:45 | The regex `\d{4}\.\d{4,5}` is found at its leftmost position, and there is none exactly when no position matches. |
| `PaperCard.ArxivBadge` | frontend/components/paper-card.tsx:43-49 | A non-arXiv URL shows "Paper", an arXiv URL without an id shows "arXiv", and otherwise "arxiv:" and the id. |
| `PaperCard.ArxivBadgeOfAbsUrl` | frontend/components/paper-card.tsx:43-49 | An abs URL with a well-formed id shows "arxiv:" and that id. |
| `PaperCard.LikeAction` | frontend/components/paper-card.tsx:91 | The like button sends "dislike" exactly for a liked paper, and never "delete". |
| `SettingsPage.AddedInterests` | frontend/components/settings-page.tsx:57-62 | The trimmed input is appended when it is non-empty and new. Otherwise the list is unchanged. |
| `SettingsPage.AddKeepsDistinct` | frontend/components/settings-page.tsx:58-59 | Adding keeps the interests free of duplicates. |
| `SettingsPage.AddThenRemove` | frontend/components/settings-page.tsx:57-66 | Removing a newly added interest restores the list. |
| `SettingsPage.InterestEditor.constructor` | frontend/components/settings-page.tsx:14-15 | The editor starts with the loaded interests and an empty input. |
| `SettingsPage.InterestEditor.SetNewInterest` | frontend/components/settings-page.tsx:185 | Typing sets the input and leaves the interests. |
| `SettingsPage.InterestEditor.AddInterest` | frontend/components/settings-page.tsx:57-62 | The interests become the added list. The input clears exactly when something was added. |
| `SettingsPage.InterestEditor.RemoveInterest` | frontend/components/settings-page.tsx:64-66 | The interests lose every copy of the interest, and the input is kept. |
| `PaperSearch.Toggled` | frontend/components/paper-search.tsx:60-66 | A selected category is removed and the others keep their order. An unselected one is appended. No other category changes. |
| `PaperSearch.ToggleTwice` | frontend/components/paper-search.tsx:60-66 | Toggling a new category twice restores the selection. |
| `PaperSearch.HasActiveFilters` | frontend/components/paper-search.tsx:69 | The filters are active exactly when, authors aside, they differ from the cleared filters. |
| `PaperSearch.ActiveFiltersAfterToggle` | frontend/components/paper-search.tsx:60-69 | Selecting a new category always makes the filters active. Deselecting one makes them inactive exactly when it was the only selected category and the date range is "all". |
| `PaperSearch.SearchState.constructor` | frontend/components/paper-search.tsx:36-42 | The search starts with an empty query and no filters. |
| `PaperSearch.SearchState.SetQuery` | frontend/components/paper-search.tsx:81 | Typing sets the query and leaves the filters. |
| `PaperSearch.SearchState.ToggleCategory` | frontend/components/paper-search.tsx:60-67 | Only the categories change, by one toggle. |
| `PaperSearch.SearchState.HandleSearch` | frontend/components/paper-search.tsx:44-48 | The search is sent, with the query and filters, exactly when the trimmed query is non-empty or a category is selected. |
| `PaperSearch.SearchState.HandleClear` | frontend/components/paper-search.tsx:50-58 | Clearing resets the query and the filters. |
| `PaperFeed.SetLiked` | frontend/components/paper-feed.tsx:70-72 | The papers with the id get the new liked state. The others and the order are unchanged. |
| `PaperFeed.RemovePaper` | frontend/components/paper-feed.tsx:76 | The papers with the id are removed. Every other paper is kept, in its original order. |
| `PaperFeed.RequestFiltersFor` | frontend/components/paper-feed.tsx:26-29 | `recent` is set exactly for the recent tab, and category "liked" exactly for the liked tab. |
| `PaperFeed.LikeButtonFlips` | frontend/components/paper-feed.tsx:67-72 | Committing the like button's action flips the paper's liked state. |
| `PaperFeed.Feed.constructor` | frontend/components/paper-feed.tsx:14-16 | The feed starts empty, on the "all" tab. |
| `PaperFeed.Feed.SetFilter` | frontend/components/paper-feed.tsx:126-133 | A tab click sets the filter, keeps the list, and asks for that tab's request filters. |
| `PaperFeed.Feed.HandlePaperAction` | frontend/components/paper-feed.tsx:65-82 | A failed call changes nothing. Like and dislike set `liked`, delete removes the paper, and the filter is kept. |
| `PaperFeed.Feed.FilteredPapers` | frontend/components/paper-feed.tsx:99-103 | The "all" tab shows every paper. The liked and recent tabs show exactly the papers that pass their test, in their original order, each once. |

## Left out

- `Embedding.UserEmbeddingService`: `np.sqrt` and `**` are injected, as fields constrained by `IsSqrt` and `IsPow`, because the real square root cannot be defined in Dafny. Floating-point rounding is not modelled: every number is a real.
- `Embedding.ToLower`: folds ASCII letters only. Python's `str.lower` also folds other scripts.
- `Embedding.UserEmbeddingService.ApplyTemporalDecay`: overflow of the float power for large negative day counts is not modelled, because `pow` is an injected function on the reals.
- `Embedding.UserEmbeddingService.HandlePaperInteraction`: the category-preference call made inside it is the separate `Preferences.UserPreferences.InteractWithPaper`, and persisting the new profile is left out with the database. That persistence raises AttributeError when the user has no embedding row (`backend/app/services/db_service.py:75-76`), and `handle_paper_interaction` re-raises it; the model returns the computed profile there.
- `Embedding.SortByScore` and `Preferences.KeepTop`: tie order is not modelled. Python's `sorted` is stable, and the model only guarantees sortedness and a permutation, or a valid top-30 selection.
- `Embedding.UserEmbeddingService.GetPaperRecommendations`: the outer `try/except` returning `[]` is not modelled, because nothing in the modelled body raises.
- Database and storage are left out: the profile and preference tables, sessions, commits and the timestamps written on update. The stored profile and the days since its update are inputs.
- FAISS file I/O is modelled as a value: `Save` returns the vectors, and `Load` takes them with the dimension the file records. Metadata is not persisted by the source.
- `Indexing.FaissIndex.Search`: requires top_k > 0 and a query of the index's dimension. FAISS's Python wrapper raises otherwise, and the RAG callers catch that and return [].
- `Indexing.FaissIndex.AddEmbeddings`: requires every embedding to have the index's dimension. A batch of another dimension, or a ragged one, makes `np.array` or `index.add` raise, and that error path is not modelled.
- The multimodal embedder (CLIP and text models), `get_paper_embedding`, `get_image_base64`, `validate_image` and the chat model are parameters. Their behaviour is not part of this model.
- `PAPER_RAG_PROMPT` and the agents' constructors are not part of this model: they only wire clients together.
- `Rag.AsDocument`: LangChain's `Document` validation is modelled as requiring a string `content` and a dict `metadata`. Any other value raises, and the search then returns [].
- `Interactions.UserPaperInteraction`: category values are modelled as strings. Non-string values are not.
- `PapersApi.ProcessPaper`: uses the sanitised directory `SafeProcessedDir`, not line 86's raw-title directory `ProcessedDir`. The raw-title behaviour is kept as the as-written half of the directory finding below.
- `Chunker.TextChunker.ChunkText`: requires chunk_size > overlap for text with words, because the source loop never ends otherwise. That non-termination is `ChunkLoop`, listed under findings.
- `PaperFeed.Feed.FilteredPapers`: the "recent" filter reads the clock, so it is the parameter `isRecent`. The mock papers used when the API fails are not modelled.
- Front-end string lengths count characters, not UTF-16 code units. This differs only outside the Basic Multilingual Plane.
- Loading flags, toasts, console logging, routing, rendering and the arXiv crawler's network loop are left out.

## Findings

| source | as written | input that shows it | evidently intended | confidence | as-written member | corrected member |
|---|---|---|---|---|---|---|
| agents/data/indexing.py:29-30 | The guard `if idx < len(metadata)` lets FAISS's padding label -1 through, and `metadata[-1]` is the last record. | top_k = 3 with two stored vectors and their metadata: the third hit is the last record again, with score FLT_MAX. | Skip negative labels, so a search returns only real hits. | high (not executed) | `Indexing.PaddingRepeatsLast` | `Indexing.GuardedSearchHasNoPadding` |
| agents/lib/chunker.py:24-29 | `start` advances by chunk_size - overlap, which is not positive when overlap ≥ chunk_size. | `TextChunker(chunk_size=50, overlap=50)` on the text "a": `start` stays 0 and the loop never ends. | Reject overlap ≥ chunk_size with ValueError. | high (not executed) | `Chunker.TextChunker.ChunkLoop` | `Chunker.TextChunker.CheckedChunkText` |
| backend/app/routes/papers_api.py:86 | The processed directory is built from the raw paper title. | The title "A/B" gives `./storage/processed/paper_A/B`, a nested directory. Titles with `:` or `?` are also unsafe on some systems. | Use the sanitised title, as the PDF name does. | medium (not executed) | `PapersApi.RawTitleNestsDirectory` | `PapersApi.SafeProcessedDir` |

`Indexing.FaissIndex.Search` keeps the as-written behaviour, because the RAG agent
consumes exactly that. `PapersApi.ProcessPaper` uses the corrected directory.
