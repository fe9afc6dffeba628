# FireKey in Dafny

This project models the core of FireKey, a tool that generates stock-image metadata (title,
description, keywords) with an OpenAI model, caches the answers per file, tracks token usage
and cost, and writes the results to CSV files. Each core file of the repository is one module.

- `Processor` (`firekey/processor.py`) is the file-processing pipeline.
  - It skips missing files, answers from the per-file JSON cache unless reprocessing is forced, and otherwise calls a client.
  - The client is retried on network and API errors up to `max_retries` times.
  - Every failure is appended to an error log.
  - The class `FireKeyProcessor` holds the cache, the log and the number of client calls made. Its methods are proved against the functions `Retry` (one file) and `Run` (a batch).
- `Tracker` (`firekey/tracker.py`) is the token-usage tracker.
  - It keeps pending calls under single-use ids and a list of call records that only grows.
  - Its running totals always equal the sums over the records; this is the class invariant `Valid`.
  - It also models the token estimate, the usage-inference rules and per-model pricing. Costs are `real`.
- `TrackedClient` (`firekey/tracked_client.py`) wraps a sender with exactly one `start_call`/`finish_call` pair per call. It also models the mapping case of `default_usage_extractor`.
- `CsvLogger` (`firekey/csv_logger.py`) queues one row per call record and lays the file out: header, rows, and optionally the tracker's summary as a comment.
- `KeywordProcessing` (`firekey/keyword_processing.py`) does the keyword cleaning.
  - It splits strings on `;`, `,` and the bar character, then strips and drops empty pieces.
  - It lower-cases, de-duplicates in first-occurrence order and caps at a limit.
  - It partitions the result against a controlled vocabulary.
  - It also covers vocabulary loading and the row-sequence branch of `append_keyword_columns`.
- `Profiles` (`firekey/profiles.py`) covers context profiles.
  - It slugifies names and chooses the first free path among `base`, `base-2`, `base-3`, …
  - It saves, deletes and loads profiles. The profiles directory is a map from path to file content.
- `MetadataCsv` (`firekey/metadata.py`) appends metadata rows to a CSV file, writing the header only when the file is missing or empty.
- `Config` (`firekey/config.py`) covers the JSON configuration.
  - Defaults are merged under the file's keys, and the file is rewritten only when the merge changes it.
  - The lazy `config` property and the API-key prompt loop are modelled too.
- `ModelOutput` (root `metadata.py`) extracts a JSON object from model text, normalises keywords and applies the model-name guard of `generate_metadata`. JSON parsing is a parameter.
- `UpdatePlist` (`scripts/update_plist.py`) ensures the FireKEY keys in an `Info.plist`.
  - Its merge loop is proved against the function `Merged`.
  - It is proved idempotent, and the file is written exactly when something changed.
- `Base` and `Strings` hold shared values (Option, Result, JSON values, rendered text) and the string functions Python provides: `strip`, ASCII `lower`, `split`, `join` and decimal rendering.

## Model

| member | source | states |
|---|---|---|
| `Processor.ClampRetries` | firekey/processor.py:71 | The retry count is at least 1, and a count of at least 1 is kept as given |
| `Processor.ClampDelay` | firekey/processor.py:72 | The delay is never negative, and a non-negative delay is kept as given |
| `Processor.FireKeyProcessor.constructor` | firekey/processor.py:56-72 | The settings are stored with `max_retries >= 1` and `retry_delay >= 0`; the processor starts from the given cache and log with no client call made |
| `Processor.BaseNameIsLastComponent` | firekey/processor.py:104 | `Path.name` is the end of the path after its last `/` (the whole path without one) and holds no `/` |
| `Processor.RetryUnfold` | firekey/processor.py:135-151 | One attempt ends in one of three ways. A payload is returned. A retryable error logs one "Attempt n" line and either re-raises (last attempt) or tries again. Any other error logs one "Unrecoverable" line and surfaces as `FireKeyError` |
| `Processor.RetryAfterFailures` | firekey/processor.py:135-146 | k retryable failures before the last attempt are logged one line each and lead to attempt k+1 |
| `Processor.RetryBounds` | firekey/processor.py:117-151 | A retry loop makes between 1 and `max_retries` client calls and logs one line per failed call. It keeps earlier log lines and never writes the cache. Every error it ends with is a `FireKeyError`, so `process_files` catches it |
| `Processor.RetryThenSucceed` | firekey/processor.py:135-146 | k < max_retries retryable failures and then a success return that payload, after exactly k log lines and k+1 calls |
| `Processor.RetryExhausted` | firekey/processor.py:140-145 | After `max_retries` retryable failures the last error is re-raised, with one log line per attempt |
| `Processor.FatalNotRetried` | firekey/processor.py:147-151 | A non-retryable error is logged once, not retried, and surfaces as `FireKeyError` carrying its message |
| `Processor.StepResults` | firekey/processor.py:96-128 | One loop iteration adds at most one result and does not depend on the earlier results |
| `Processor.StepFetches` | firekey/processor.py:115-128 | A path that exists and is not answered from the cache goes through the retry loop. On success the payload is cached and reported with `was_reprocessed == force`; on failure there is no cache entry and no result |
| `Processor.StepCalls` | firekey/processor.py:98-119 | A missing path or a cache hit makes no client call; any other path makes between 1 and `max_retries` |
| `Processor.RunConcat` | firekey/processor.py:96-130 | A batch is its first part followed by the rest: a skipped or failed file does not stop or change the files after it |
| `Processor.RunInvariants` | firekey/processor.py:94-130 | A run only adds cache entries, only appends to the log and only increases the call count. Results exist only for existing inputs; each one is cached, points at `<cache_dir>/<name>.json` and has `was_reprocessed == force` |
| `Processor.RunCalls` | firekey/processor.py:96-130 | A run makes at most `max_retries` calls per existing path, and with `force` at least one per existing path |
| `Processor.RunFromCacheMakesNoCalls` | firekey/processor.py:104-113 | When every existing path is cached, a run without `force` makes no client call and writes no cache entry |
| `Processor.SecondRunMakesNoCalls` | firekey/processor.py:104-113 | A second run without `force`, after a run that processed every existing path, makes zero client calls |
| `Processor.ForcedRunsCallEveryTime` | firekey/processor.py:106 | Two forced runs over one file call the client exactly twice |
| `Processor.MissingPathSkipped` | firekey/processor.py:98-102 | A path that does not exist adds one log line and nothing else: no call, no cache entry, no result |
| `Processor.CacheHitAnswersFromCache` | firekey/processor.py:104-113 | A cache hit without `force` makes no call, changes no state and reports the cache path, not reprocessed |
| `Processor.RetriedFileIsCached` | firekey/processor.py:115-128 | k retryable failures then a payload: the payload is cached, the log gains exactly k lines and the file is in the results |
| `Processor.FailedFileSkipped` | firekey/processor.py:115-119 | A file whose retries fail gets no cache entry and no result; only the log and the call count change |
| `Processor.SameNameHitsFreshCache` | firekey/processor.py:104-128 | Within one run without `force`, a later path with the same base name is answered from the entry just written |
| `Processor.FireKeyProcessor.LogError` | firekey/processor.py:174-179 | One line is appended to the log; nothing else changes |
| `Processor.FireKeyProcessor.ProcessWithRetries` | firekey/processor.py:132-151 | The attempt loop computes exactly `Retry`: the same result, cache, log and call count |
| `Processor.FireKeyProcessor.ProcessFiles` | firekey/processor.py:74-130 | The path loop computes exactly `Run`, about which the lemmas above are proved |
| `Tracker.ModelPricing.CostFor` | firekey/tracker.py:22-26 | Non-negative prices and token counts give a non-negative cost, and no tokens cost nothing |
| `Tracker.CostAdditive` | firekey/tracker.py:22-26 | The cost of two batches of tokens is the sum of their costs |
| `Tracker.EstimateTokens` | firekey/tracker.py:85-94 | Empty text has 0 tokens; other text has the least n with `len <= 4n`, at least 1 |
| `Tracker.Account` | firekey/tracker.py:131-143 | Without usage, the completion is the estimate of the text and the total is their sum. With usage, missing keys default to the estimate, 0 and prompt+completion. A zero completion is inferred as `max(total - prompt, 0)` when total and prompt are non-zero |
| `Tracker.InferredCompletionAddsUp` | firekey/tracker.py:136-140 | When the completion is inferred from a total at least the prompt, prompt + completion == total |
| `Tracker.InferenceExample` | firekey/tracker.py:136-140 | `prompt_tokens=100, total_tokens=160` books 60 completion tokens |
| `Tracker.PricingFor` | firekey/tracker.py:145 | A model's own pricing, else the default |
| `Tracker.RecordFor` | firekey/tracker.py:129-159 | The record keeps the file name, uses the override model else the pending one, and books the accounted tokens at that model's price |
| `Tracker.SumsAppend` | firekey/tracker.py:148-149 | Appending a record adds its tokens and its cost to the sums |
| `Tracker.TokenUsageTracker.constructor` | firekey/tracker.py:53-65 | The tracker starts with no pending call, no record and zero totals. A missing pricing table is empty and a missing default pricing is 0.00015/0.0006 per 1,000 tokens |
| `Tracker.TokenUsageTracker.StartCall` | firekey/tracker.py:96-107 | Exactly one pending entry is added, under an id no pending call has, with the given model else the default and the prompt's estimate. Records and totals are unchanged |
| `Tracker.TokenUsageTracker.FinishCall` | firekey/tracker.py:109-167 | The id is popped and its record is appended at the end. The totals stay the sums over the records. An id that is not pending fails with `KeyError` and changes nothing |
| `Tracker.TokenUsageTracker.PrintSummary` | firekey/tracker.py:177-180 | One summary line is printed; the tracker is otherwise unchanged |
| `Tracker.TokenUsageTracker.SummaryReportsRecords` | firekey/tracker.py:169-185 | The summary and the CSV footer (`# ` then the summary) show the token and cost sums over the records |
| `TrackedClient.ResolveModel` | firekey/tracked_client.py:48 | The per-call model when it is given and non-empty, else the client default |
| `TrackedClient.TrackedAPIClient.constructor` | firekey/tracked_client.py:12-21 | The sender, the tracker and the default model are stored |
| `TrackedClient.TrackedAPIClient.Call` | firekey/tracked_client.py:23-73 | When nothing raises, pending calls are as before, one record is appended and its finish line is printed. The record is for the resolved model, with no usage or `""` when an extractor is missing. It is returned with the response exactly when asked, and is handed to the callback. When the sender or an extractor raises, the exception is passed on and the call stays pending under a fresh id, with no record, no total change and no line printed |
| `TrackedClient.ExtractUsage` | firekey/tracked_client.py:102-118 | Only the three recognised keys with a value are kept, each with its value. The result is `None` without usage or when no key has a value |
| `TrackedClient.DefaultUsageExtractor` | firekey/tracked_client.py:111-118 | The key loop computes `ExtractUsage` |
| `CsvLogger.RowOf` | firekey/csv_logger.py:30-39 | A queued row has one field per default header |
| `CsvLogger.RowOfFollowsHeaders` | firekey/csv_logger.py:17-39 | Each field sits under its header: file name, model, the three token counts and the cost, in that order |
| `CsvLogger.Layout` | firekey/csv_logger.py:51-58 | The file is the header, every queued row in order, and with a footer a blank line, the footer and a line end |
| `CsvLogger.CSVLogger.constructor` | firekey/csv_logger.py:12-25 | The logger starts with no rows and the default headers unless others are given |
| `CsvLogger.CSVLogger.AddRecord` | firekey/csv_logger.py:27-39 | Exactly one row is appended and earlier rows are unchanged |
| `CsvLogger.CSVLogger.Extend` | firekey/csv_logger.py:41-45 | The same as one `add_record` per record, in order |
| `CsvLogger.CSVLogger.Write` | firekey/csv_logger.py:47-58 | The written file is exactly `Layout` of the queued rows, with the tracker's footer comment when a summary is included |
| `KeywordProcessing.NonEmpty` | firekey/keyword_processing.py:111 | Only non-empty tokens remain, and no token is added |
| `KeywordProcessing.NonEmptyMembers` | firekey/keyword_processing.py:111 | Exactly the non-empty tokens survive the filter |
| `KeywordProcessing.SplitStringKeywords` | firekey/keyword_processing.py:98-111 | The three passes and the final filter compute `SplitTokens` |
| `KeywordProcessing.SplitOn` | firekey/keyword_processing.py:103-110 | One pass splits every item holding the separator into its stripped parts and keeps the others |
| `KeywordProcessing.DropEmpty` | firekey/keyword_processing.py:111 | The filter keeps the non-empty tokens in order |
| `KeywordProcessing.SplitPassAvoids` | firekey/keyword_processing.py:104-110 | After a pass on a separator no item holds it, and no item gains a character the input lacked |
| `KeywordProcessing.SplitPassesAvoid` | firekey/keyword_processing.py:103-110 | After the passes no item holds any of the separators |
| `KeywordProcessing.SplitTokensClean` | firekey/keyword_processing.py:98-111 | Every token is non-empty and holds none of `;`, `,` and the bar character |
| `KeywordProcessing.NoSeparatorOneToken` | firekey/keyword_processing.py:105-111 | A non-empty string without separators is one token, as it is |
| `KeywordProcessing.JoinedTokens` | firekey/keyword_processing.py:98-111 | Keywords joined with `"; "` split back into exactly those keywords, when each is non-empty, stripped and free of separators |
| `KeywordProcessing.KeepStripped` | firekey/keyword_processing.py:76-82 | The kept items are non-empty and no more numerous than the input |
| `KeywordProcessing.Normalised` | firekey/keyword_processing.py:60-95 | Every normalised keyword is non-empty, and `None` gives none |
| `KeywordProcessing.NormalisedStripped` | firekey/keyword_processing.py:68-95 | Every normalised keyword has no surrounding whitespace |
| `KeywordProcessing.ScalarStripped` | firekey/keyword_processing.py:94-95 | Any other object gives its stripped text, or nothing when that is blank |
| `KeywordProcessing.ItemsKeepOrder` | firekey/keyword_processing.py:74-82 | Present non-blank items become keywords one for one, stripped, in order |
| `KeywordProcessing.JoinedReadBack` | firekey/keyword_processing.py:60-72 | A `"; "`-joined list of storable keywords normalises back to the list |
| `KeywordProcessing.NormaliseKeywords` | firekey/keyword_processing.py:60-95 | The method computes `Normalised` |
| `KeywordProcessing.StripItems` | firekey/keyword_processing.py:76-82 | The item loop skips `None`, strips each item and drops the empty ones |
| `KeywordProcessing.Distinct` | firekey/keyword_processing.py:135-144 | The de-duplicated keywords are non-empty, lower-case and pairwise distinct |
| `KeywordProcessing.DistinctStep` | firekey/keyword_processing.py:137-142 | A keyword is appended exactly when its lower-case form is non-empty and unseen |
| `KeywordProcessing.DistinctCovers` | firekey/keyword_processing.py:135-144 | The de-duplicated keywords are exactly the non-empty lower-cased inputs |
| `KeywordProcessing.Filter` | firekey/keyword_processing.py:147-153 | Exactly the keywords inside (or outside) the vocabulary are kept |
| `KeywordProcessing.FilterPartition` | firekey/keyword_processing.py:147-155 | Valid and review together are a permutation of the cleaned list |
| `KeywordProcessing.CleanProperties` | firekey/keyword_processing.py:135-155 | Every output is lower-case and non-empty, with no repeats in either list or across them. Valid keywords are in the vocabulary and review keywords are not. Together they are the capped list. Their number is `min(distinct inputs, max(limit, 1))` |
| `KeywordProcessing.CleanKeepsAllUnderLimit` | firekey/keyword_processing.py:135-144 | Below the limit every non-blank keyword is kept, lower-cased |
| `KeywordProcessing.CleanKeywords` | firekey/keyword_processing.py:114-155 | `clean_keywords` computes `Clean` of the normalised keywords |
| `KeywordProcessing.CleanNormalised` | firekey/keyword_processing.py:135-155 | The two loops compute `Clean` |
| `KeywordProcessing.CollectDistinct` | firekey/keyword_processing.py:135-144 | The first loop, with its early `break`, computes the capped de-duplicated list |
| `KeywordProcessing.SortByVocabulary` | firekey/keyword_processing.py:146-155 | The second loop sends each keyword to valid or to review by vocabulary membership |
| `KeywordProcessing.Vocabulary` | firekey/keyword_processing.py:50-57 | The vocabulary is exactly the words of the lines that are neither blank nor comments: stripped and lower-cased |
| `KeywordProcessing.LoadVocabulary` | firekey/keyword_processing.py:46-57 | A missing file fails with `FileNotFoundError`; otherwise the line loop computes `Vocabulary` |
| `KeywordProcessing.AsStringsReadBack` | firekey/keyword_processing.py:30-35 | Both joined strings read back through the normalisation as the lists they were made from |
| `KeywordProcessing.AnnotatedColumns` | firekey/keyword_processing.py:207-212 | The copy keeps every other column and holds the cleaned keywords under the two new names |
| `KeywordProcessing.AnnotateRow` | firekey/keyword_processing.py:207-212 | The loop body builds the annotated copy of one row |
| `KeywordProcessing.AppendKeywordColumns` | firekey/keyword_processing.py:200-217 | Every row yields an annotated copy, in order, and the input rows stay as they were. A row that is not a mapping or a container that is not a sequence raises `TypeError` |
| `Profiles.DropLeadingDashes` | firekey/profiles.py:98 | `lstrip("-")`: a suffix with no leading dash, with only dashes removed |
| `Profiles.DropTrailingDashes` | firekey/profiles.py:98 | `rstrip("-")`: a prefix with no trailing dash, with only dashes removed |
| `Profiles.CollapseShape` | firekey/profiles.py:98 | After substitution the text holds only letters, digits and single dashes |
| `Profiles.SlugifyIsSlug` | firekey/profiles.py:97-99 | A slug holds only `a-z`, `0-9` and `-`, starts and ends without `-` and has no `--` |
| `Profiles.CollapseKeepsAlnum` | firekey/profiles.py:98 | Substitution keeps every letter and digit in order |
| `Profiles.SlugifyKeepsAlnum` | firekey/profiles.py:97-99 | The slug keeps exactly the lower-cased name's letters and digits, in order |
| `Profiles.SlugEmptyIff` | firekey/profiles.py:83-84 | The slug is empty exactly when the name has no ASCII letter or digit |
| `Profiles.BaseFor` | firekey/profiles.py:83-84 | The base stem is never empty: the slug, or `profile` |
| `Profiles.CandidateInjective` | firekey/profiles.py:93-94 | Different turns try different stems |
| `Profiles.LaterCandidatesDiffer` | firekey/profiles.py:87-94 | No later turn retries an earlier path, so the probing loop ends |
| `Profiles.NoMinusOne` | firekey/profiles.py:86-94 | No turn tries the stem `base-1` |
| `Profiles.ProfileAt` | firekey/profiles.py:41-52 | One file fails the load exactly when its text cannot be read (`OSError`, `UnicodeDecodeError`) or it parses to something that is not an object, with an error naming that file; a profile read from it carries that file's path |
| `Profiles.LoadedErrorSticks` | firekey/profiles.py:40-54 | Once a prefix of the listing fails, the whole load fails with the same error |
| `Profiles.LoadedFailsOnBadFile` | firekey/profiles.py:40-54 | A listed file that cannot be read or is not an object aborts the whole load, with its own error when the files before it loaded |
| `Profiles.LoadedFromListing` | firekey/profiles.py:40-54 | Every loaded profile comes from a listed file whose content gives it, and has a stripped name |
| `Profiles.LoadedKeepsProfiles` | firekey/profiles.py:40-54 | Every listed file that holds a profile shows up in a successful load |
| `Profiles.ListingUnique` | firekey/profiles.py:40 | Two sorted listings of the same directory are equal, so the load depends on the files alone |
| `Profiles.LoadedInPathOrder` | firekey/profiles.py:40-54 | Over a sorted listing, the loaded profiles come in increasing path order |
| `Profiles.LoadedHasEveryProfile` | firekey/profiles.py:36-54 | Over the directory's sorted listing, a successful load holds every profile file of the directory, and only those, in path order |
| `Profiles.LoadSaved` | firekey/profiles.py:20-23 | The file written for a profile loads back as that profile, with its name stripped and its path |
| `Profiles.ProfileManager.constructor` | firekey/profiles.py:29-31 | The manager starts over the given directory and files |
| `Profiles.ProfileManager.PathForName` | firekey/profiles.py:80-94 | The path is the first of `base`, `base-2`, … that is the existing path or free; it is never `base-1` |
| `Profiles.ProfileManager.FirstFreePath` | firekey/profiles.py:85-94 | The probing loop returns the first acceptable candidate; every earlier one was taken |
| `Profiles.ProfileManager.NoMinusOneAt` | firekey/profiles.py:86-94 | No probed path is the `-1` path |
| `Profiles.ProfileManager.SaveProfile` | firekey/profiles.py:59-69 | `{name, context}` is written at the first candidate path that was acceptable before the write: every earlier candidate was taken. The original file is removed only when it is elsewhere and exists. The result is the profile at its new path |
| `Profiles.ProfileManager.DeleteProfile` | firekey/profiles.py:71-75 | The profile's file is removed when it has one; otherwise nothing changes |
| `Profiles.ProfileManager.LoadProfiles` | firekey/profiles.py:36-54 | The loop over the sorted listing of the directory's `.json` entries computes `Loaded`, including the uncaught read and attribute errors |
| `MetadataCsv.NormaliseKeywords` | firekey/metadata.py:117-126 | A string passes unchanged, and only a value that is neither a string nor iterable raises `TypeError` |
| `MetadataCsv.KeywordsReadBack` | firekey/metadata.py:117-126 | Storable keywords joined with `"; "` read back through the keyword cleaner as the same list |
| `MetadataCsv.AsRow` | firekey/metadata.py:41-53 | The row has exactly the six field names, or fails exactly when the keywords are unusable |
| `MetadataCsv.AsRowFields` | firekey/metadata.py:41-53 | Each column holds its field; the date is the explicit time when given, else the clock |
| `MetadataCsv.ExplicitTimeIgnoresClock` | firekey/metadata.py:44-51 | With an explicit time the row does not depend on the clock |
| `MetadataCsv.Line` | firekey/metadata.py:109-112 | A written row holds the values in header order |
| `MetadataCsv.AppendedShape` | firekey/metadata.py:104-112 | Earlier lines are kept. The header is added exactly when the file was missing or empty. Exactly one data row follows unless the keywords raise |
| `MetadataCsv.TwoAppendsFromMissing` | firekey/metadata.py:104-112 | Two appends to a missing file give the header and both rows, in order |
| `MetadataCsv.MetadataFile.AppendMetadata` | firekey/metadata.py:56-114 | The file afterwards is exactly `Appended` of its old state and the entry |
| `Config.MergeKeeps` | firekey/config.py:77-78 | Every file key keeps its value; every default key the file lacks has its default |
| `Config.MergeChangesIff` | firekey/config.py:77-80 | The merge changes the file's mapping exactly when a default key is missing from it |
| `Config.Loaded` | firekey/config.py:49-86 | A file that is not UTF-8 raises `UnicodeDecodeError`, and only such a file does; any other loaded configuration has every default key |
| `Config.MissingGivesDefaults` | firekey/config.py:52-56 | A missing file gives exactly the defaults, which are written |
| `Config.UnusableGivesDefaults` | firekey/config.py:58-75 | A file whose reading raises `OSError` or `JSONDecodeError`, or a non-object, loads as the defaults and is overwritten with them, on a path that can still be written |
| `Config.RewriteIff` | firekey/config.py:52-84 | The file is rewritten exactly when it is missing, unusable, or lacks a default key; a file that is not UTF-8 is never rewritten (writes are taken to succeed) |
| `Config.LoadSettles` | firekey/config.py:49-86 | Loading again what a load left behind gives the same configuration and writes nothing |
| `Config.FirstNonBlank` | firekey/config.py:109-111 | The first answer that is not blank after stripping, if any |
| `Config.StoredKeyKept` | firekey/config.py:104-107 | A non-blank stored key is returned stripped, with nothing asked or changed |
| `Config.EnteredKeyStored` | firekey/config.py:109-114 | The first non-blank answer, stripped, is stored and returned, and reads back as the stored key |
| `Config.NoKeyWithoutAnswer` | firekey/config.py:109-115 | The prompt fails exactly when every answer is blank, and then nothing changes |
| `Config.PromptsUntilValue` | firekey/config.py:109-115 | Two blank answers and then `secret-key` store and return `secret-key` |
| `Config.ConfigManager.constructor` | firekey/config.py:36-38 | The manager starts with nothing loaded |
| `Config.ConfigManager.Save` | firekey/config.py:88-96 | The loaded configuration is written; before a load nothing happens |
| `Config.ConfigManager.Load` | firekey/config.py:49-86 | The result is `Loaded` of the file and the file becomes `FileAfterLoad`. On success the configuration is set; on the decoding error it is left as it was |
| `Config.ConfigManager.GetConfig` | firekey/config.py:40-47 | The first use loads, passing on the decoding error; later uses return the loaded configuration untouched |
| `Config.ConfigManager.EnsureApiKey` | firekey/config.py:98-115 | A first load of a file that is not UTF-8 raises and changes nothing. Otherwise the prompt loop ends with `KeyOutcome` of the loaded configuration, and the file is saved only when a typed key is stored |
| `ModelOutput.FindFirst` | metadata.py:43 | `find`: -1 exactly when the character is absent, else its first index |
| `ModelOutput.FindLast` | metadata.py:44 | `rfind`: -1 exactly when the character is absent, else its last index |
| `ModelOutput.ExtractJsonObject` | metadata.py:35-52 | Stripped text that parses is the answer; every failure is `ValueError` |
| `ModelOutput.ExtractSnippet` | metadata.py:43-52 | When the whole text does not parse, the slice from the first `{` to the last `}` is what gets parsed |
| `ModelOutput.ExtractNoSnippet` | metadata.py:43-52 | With no `{` before a `}` the result is `ValueError` |
| `ModelOutput.ProseAroundObject` | metadata.py:35-52 | An object surrounded by prose without braces is extracted |
| `ModelOutput.NormaliseKeywords` | metadata.py:55-63 | `None` gives none; a list or string gives only non-blank keywords; any other value gives its stripped text, even when empty |
| `ModelOutput.TextKeywords` | metadata.py:61-62 | Keywords of a string are non-empty, stripped and hold no comma |
| `ModelOutput.NoCommaOneKeyword` | metadata.py:61-62 | A string without commas is one keyword (its stripped text) unless blank |
| `ModelOutput.ListKeepsOrder` | metadata.py:59-60 | Non-blank list items become keywords one for one, stripped, in order |
| `ModelOutput.CommaJoinedReadBack` | metadata.py:61-62 | Stripped comma-free keywords joined with `", "` read back as the same list |
| `ModelOutput.GenerateMetadata` | metadata.py:73-126 | An unknown model is refused. Otherwise an empty reply is an error. A result exists exactly when the reply holds a JSON object |
| `ModelOutput.GuardIgnoresReply` | metadata.py:73-74 | A refused model is refused whatever the reply would have been |
| `ModelOutput.GeneratedFields` | metadata.py:116-126 | Title and description are stripped and keywords normalised; missing keys give `""` and `[]` |
| `UpdatePlist.RequiredKeysListed` | scripts/update_plist.py:10-19 | The visiting order lists each required key exactly once |
| `UpdatePlist.MergedHasRequired` | scripts/update_plist.py:35-39 | After the merge every required key holds a value equal to the required one |
| `UpdatePlist.MergedKeepsOthers` | scripts/update_plist.py:35-39 | Keys outside the required set are neither added, removed nor changed |
| `UpdatePlist.MergeChangesIff` | scripts/update_plist.py:35-46 | The merge changes the dictionary exactly when some required key was missing or different |
| `UpdatePlist.MergeIdempotent` | scripts/update_plist.py:35-46 | A second run on the script's own output finds nothing to update |
| `UpdatePlist.MergedUpToStep` | scripts/update_plist.py:36-39 | One loop turn stores its key exactly when it did not match, and sets the flag accordingly |
| `UpdatePlist.MergedUpToAll` | scripts/update_plist.py:35-39 | After every key is visited the loop state is the full merge and its flag |
| `UpdatePlist.MergeRequired` | scripts/update_plist.py:35-39 | The loop computes `Merged`, and `updated` is true exactly when an update was needed |
| `UpdatePlist.Run` | scripts/update_plist.py:22-48 | A wrong argument count gives exit status 2 and a path that is not a file gives 1, both with no change. Otherwise the status is 0, the data is merged, and the file is written exactly when the merge changed something |

## Left out

- File-system and terminal effects are modelled as state, not performed. The cache and log of the processor, the profiles directory, the configuration file, the CSV files and the plist are values in fields, and `mkdir` is not modelled. Printed messages are modelled only for the tracker, as rendered lines.
- `time.sleep(retry_delay)`, the log's timestamp and `datetime.now`: the delay is stored but not waited, log lines are values without their timestamp, and the clock is a parameter.
- `_default_client` in `firekey/processor.py` reads the disk and is not part of this model. The client is a function of the path and the number of calls made so far, which covers scripted sequences of outcomes.
- `uuid4` call ids: ids come from a counter, so they are fresh.
- Floating point: costs are exact `real`s, and `:.6f` renderings are kept as the number they print.
- JSON, CSV and plist libraries:
  - parsing is a parameter (`ModelOutput`) or the content is given already parsed;
  - quoting, `indent` and byte formats are not modelled;
  - a plist that fails to parse, or whose top level is not a dictionary, is not modelled.
- `UpdatePlist.PyEquals` models Python `==` only for the values that meet the required strings and `True`. Dates, data, arrays and nested dictionaries are opaque and equal to none of them.
- Python's `str.lower` and `str.strip` are ASCII only. `str()` of containers in configuration values is a placeholder.
- `default_completion_extractor` (`getattr` probing of SDK objects), and the attribute case of `default_usage_extractor`: only the mapping case is modelled.
- The pandas branch of `append_keyword_columns`, and the `lru_cache` and file reading of `_load_vocabulary`: the vocabulary's lines or the vocabulary set are given.
- In `generate_metadata`, the image encoding, the OpenAI request, the `context` text and the structured-content fallback (metadata.py:76-112) are left out. The reply text is a parameter.
- `default_config_path` (environment variable) and the prompt's text are left out. Input running out is the error `EndOfInput`.
- `append_metadata` returns the destination path; the model returns only success or the `TypeError`.
- Keyword-forwarding `**kwargs` of `TrackedAPIClient.__call__` and the `dict(usage)` copy are left out.
- TrackedAPIClient.Call: the record callback is assumed not to raise. It runs after the record is booked, so an exception there would only be passed on.
- ExtractUsage: the usage values are given as integers or absent. The `int(value)` conversion of `default_usage_extractor` is not modelled: truncating floats, parsing numeric text and the `ValueError` on other text are all lost.
- UnusableGivesDefaults: write failures are not modelled. For a read `OSError` whose cause also blocks writing, such as a directory at the path or a file without permissions, `save()` at `firekey/config.py:94` raises and `load` does not return the defaults. Every write of the model succeeds.
- FireKeyProcessor.ProcessFiles: the results are a map from file name to result, so the insertion order of the Python dict is not kept. That order is the processing order that `firekey/cli.py` prints.
- ProfileManager.LoadProfiles: `glob("*.json")` and `sorted` are not computed. The listing is a parameter that must be the directory's `.json` files, each once, in increasing path order (`IsListing`); `ListingUnique` shows that only one listing qualifies.
- Paths are compared as strings: `Path` normalisation is not modelled.
