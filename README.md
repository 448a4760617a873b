# MeowFacts client: a verified model of its update logic

`MeowFactsClient` collects cat facts per language from the MeowFacts web
API and merges them into a JSON dataset on disk. Under its HTTP and file
plumbing sit three pieces of deterministic logic, and this project models
them in Dafny and proves what they do:

- **Language discovery** (`discover_languages`). The `lang` entries of the
  `/options` response are folded into the catalog `languages_info`. The
  catalog maps an ISO code to a fact count. A missing `fact_count` counts
  as 1000. A repeated code has its counts summed. A request error logs one
  error and replaces the catalog by `{"eng": 1000}`.
- **Bounded-retry fetch** (`fetch_facts`). The client makes at most
  `iterations` attempts (5 by default). A failed attempt is logged and
  retried. The first answered attempt ends the loop. Its batch is returned
  unless it is empty or `[null]`, in which case nothing is returned.
- **Merge** (the loop of `run_daily_update`). For each catalog language,
  in catalog order, the stored list is replaced by
  `list(set(stored + fetched))`, and the line `count_before`,
  `count_after - count_before` is reported.

Module layout:

- `common.dfy` (`Common`) holds `Option`, `Item` (a JSON array element:
  a string or null), the set view `Elems` of a list, and `NoDuplicates`.
- `catalog.dfy` (`Catalog`) specifies the discovery fold as functions
  (`Accumulate`, plus `ExtendOrder` for the dict's key order). It also
  gives an independent per-code sum, `SumFor`, and the lemmas that relate
  the two.
- `fetch.dfy` (`Fetch`) specifies the retry loop as recursive functions
  that take one attempt per step (`Fetched`, `AttemptsMade`, `FetchLog`).
  The lemmas show that all three are decided by the first answered
  attempt (`FirstAnswer`).
- `merge.dfy` (`Merge`) states `list(set(s))` as "any duplicate-free list
  with the elements of `s`" (`IsUniqueListOf`). It also proves what the
  reported count then means.
- `client.dfy` (`MeowFacts`) holds the class `Client`, with the fields
  `languagesInfo`, `languageOrder` (the dict's insertion order) and
  `errors`. Its methods update those fields in place, with loops as in the
  source, and each is proved against the functions above.
  `DailyUpdateExample` calls `RunDailyUpdate` once and proves that one
  language, an empty dataset and one fetched fact give the dataset `{"eng": [fact]}` and the
  report line `eng | 0 | 1`.

The network is an input. The discovery request is a `Response`:
`RequestFailed(reason)` or `Options(entries)`. The facts endpoint is a
`Network`: for each language, the outcomes of its successive attempts
(`Failed(reason)` or `Answered(batch)`). The loaded dataset is a
parameter, and the merged dataset and the report lines are results.

Fetching stops at the first *answered* attempt. Failed attempts before it
are logged and retried and do not end the loop (meowfacts_api.py:55-56,
61-62). An empty or `[null]` answer then ends it with nothing.
`Fetch.StopsAtFirstAnswer` states this.

The order of `list(set(...))` is not fixed by Python. `UpdateDataset`
therefore picks any list that satisfies `IsUniqueListOf`, and every
contract is stated at the level of sets and counts. `Merge.Dedup` only
shows that such a list exists.

## Model

| member | source | states |
|---|---|---|
| `Catalog.AccumulateStep` | meowfacts_api.py:21-27 | one pass of the loop adds the entry's count to a known code or inserts a new code, and the key order still lists every key exactly once |
| `Catalog.AccumulateSums` | meowfacts_api.py:20-27 | folding entries onto any catalog adds exactly the codes of the entries, and each code's count grows by the sum of its entries' counts, with 1000 for a missing `fact_count` |
| `Catalog.DiscoveredCounts` | meowfacts_api.py:11-27 | from the empty catalog of a new client, the keys are exactly the response's codes, and a repeated code gets the sum of its counts, not the last one |
| `Catalog.ExtendOrderEnumerates` | meowfacts_api.py:24-27 | the dict's key order stays duplicate-free, lists exactly the old keys plus the new codes, and keeps the old keys in front |
| `Fetch.FirstAnswer` | meowfacts_api.py:45-59 | the index of the first answered attempt within the budget (or the budget): every earlier attempt failed and that one was answered |
| `Fetch.DecidedByFirstAnswer` | meowfacts_api.py:43-63 | the fetch returns the first answered batch unless it is empty or `[null]`, makes k+1 requests (all of them if none was answered), and logs one error per failure before it, with the failure's text |
| `Fetch.FetchedIsOneBatch` | meowfacts_api.py:45-59 | at most `iterations` requests are made; the result is empty or exactly one answered batch that follows only failures, never a concatenation of batches |
| `Fetch.StopsAtFirstAnswer` | meowfacts_api.py:55-59 | after k failures, an empty or `[null]` answer returns nothing and a usable one is returned as it is; either way k+1 requests are made and k errors logged |
| `Fetch.AllAttemptsFail` | meowfacts_api.py:45-63 | if every attempt fails, nothing is returned, all `iterations` requests are made and exactly `iterations` errors are logged |
| `Fetch.RetryThenSucceed` | meowfacts_api.py:45-62 | two failures and then a batch: the batch is returned, 3 requests are made and the two errors are logged in order |
| `Merge.Dedup` | meowfacts_api.py:81 | a duplicate-free list with exactly the elements of `stored + fetched` always exists |
| `Merge.NewUniqueFacts` | meowfacts_api.py:77-84 | when the stored list is duplicate-free, `count_after - count_before` is the number of distinct fetched facts not stored yet |
| `Merge.MergeAddsNothing` | meowfacts_api.py:81-84 | an empty fetch, or one whose facts are all stored, leaves the element set and the count unchanged |
| `Merge.StoredDuplicatesReportNegative` | meowfacts_api.py:77-84 | a stored list that holds one fact twice, merged with nothing, reports -1 new facts |
| `MeowFacts.ProcessedStep` | meowfacts_api.py:72-86 | handling one more language keeps the loop invariant: that key is added and merged, every other key keeps its list, and the report gains that language's line |
| `MeowFacts.Client.constructor` | meowfacts_api.py:7-12 | a new client has an empty catalog and an empty error log |
| `MeowFacts.Client.DiscoverLanguages` | meowfacts_api.py:14-32 | on a request error the catalog becomes exactly `{"eng": 1000}` whatever it held, and exactly one error is appended; otherwise the catalog is the fold of the entries onto the old one and no error is logged |
| `MeowFacts.Client.AddEntries` | meowfacts_api.py:20-27 | the in-place loop leaves the catalog and its key order equal to the fold of the entries onto their old values |
| `MeowFacts.Client.FetchFacts` | meowfacts_api.py:43-63 | the bounded loop returns `Fetched` and makes `AttemptsMade` requests, and the error log grows by exactly `FetchLog` |
| `MeowFacts.Client.MergeLanguage` | meowfacts_api.py:76-87 | the new list is duplicate-free with elements stored ∪ fetched; the report line is the stored count and the count difference; the log grows by this fetch's errors |
| `MeowFacts.Client.UpdateDataset` | meowfacts_api.py:72-87 | the keys become the loaded keys plus the catalog keys; keys outside the catalog keep their lists; each catalog language holds stored ∪ fetched without duplicates; one report line per language in catalog order; the fetch errors are logged in that order |
| `MeowFacts.Client.RunDailyUpdate` | meowfacts_api.py:65-89 | discovery followed by the merge: the catalog and its key order are `{"eng": 1000}` and `["eng"]` after a failed discovery, or the fold of the entries onto the old ones; then the dataset, one report line per language in that key order, and the error log with the discovery error first and the fetch errors in key order |

## Left out

- Network access, HTTP status checks, JSON decoding and the 0.2 s sleep are left out. Their outcomes are inputs, and any request error is one `RequestFailed` or `Failed` outcome.
- `load_existing_data` and `save_files` are file I/O over the `json` library and are not modelled. The loaded dataset is a parameter and the merged one a result. Only a missing file, an unreadable one or a JSON syntax error gives `{}` (meowfacts_api.py:39). A file with invalid UTF-8 raises an uncaught `UnicodeDecodeError`. Other shapes are not modelled. Python fails only when the loop reaches a catalog language: a top level that is not an object at meowfacts_api.py:73-76, a number, boolean or null value at :77, a string or object value at :81, and an object or array item at :81. Values of languages outside the catalog are saved back unchanged. The model assumes the file holds an object whose values are lists of strings or nulls.
- Stored or fetched items that are numbers, booleans or objects are not modelled. Python merges numbers and booleans by equality, so 1, 1.0 and true collapse into one, and it fails on objects and arrays. Items are `Option<string>`.
- An entry without `iso_code` (a `None` key), a `lang` or `data` field that is not a list, a `fact_count` that is `null` or not an integer, and a response body or `lang` entry that is not a JSON object are not modelled. The last raises an AttributeError at meowfacts_api.py:19, :21 or :52, which is not a `RequestException`, so nothing catches it and the run ends. A float `fact_count` is summed by Python at meowfacts_api.py:22 and 25. `Entry.factCount` is `Option<int>`, so the model assumes integer counts.
- The `__main__` entry point and the `base_url` and `data_file` constants are not modelled.
- `MeowFacts.Client.FetchFacts`: `factCount` is only a request parameter, so its effect is already in the given outcomes. The returned attempt count is an observation the source does not return.
- `MeowFacts.Client.FetchFacts` requires an outcome for every attempt. The spec functions `Fetched`, `AttemptsMade` and `FetchLog` stop when the outcomes run out, which never happens under that requirement.
- `MeowFacts.Client.UpdateDataset`: meowfacts_api.py:73-76 insert an empty list for a new language and read it back. The model reads the stored list, or an empty one, directly. The final dataset is the same, because that entry is overwritten right afterwards.
- `MeowFacts.Client.UpdateDataset` fixes no order for `list(set(...))`: only the element set, the absence of duplicates and the counts are stated.
