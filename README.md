# Image-dataset pipeline: a verified Dafny model

The modelled system collects food photographs, records them in a small
database, downloads and normalises them, labels them (by hand, or with a
classifier whose labels are reviewed later) and lays them out as training
folders. This project models its core as Dafny functions, classes and
methods, with the I/O taken out:

- **Record store** (`Records`): the `images` table with its unique `url`
  column, and the `ImageStore` class that inserts, filters, updates and
  counts its rows.
- **Downloader and normaliser** (`Downloader`, `Processor`): the status
  transitions of one image, the chunked batch loops with their counters, the
  "cover" geometry, and the descending-quality JPEG search with its single
  rescale fallback.
- **Label store and HTTP handlers** (`Labels`, `LabelApi`): saving, listing,
  deleting and reviewing labels, the lookup-or-create of image rows, the
  label defaults, and the loop that persists batch-classification results.
- **Classifier bookkeeping** (`Classifier`): top-K ranking of a probability
  vector, per-item error capture in batches, prefix-sum weight offsets, and
  the class-name and model caches.
- **Small helpers** (`Config`, `RateLimiting`, `Strings`): the
  keyword-to-country table, the one-hour sliding window of API requests, and
  the string functions of Node's `path` module and of JavaScript strings that
  the source relies on.
- **Food/other review UI** (`FoodOther`, over the `Catalog` tables): the
  get-or-create of label rows, the image-path parser, the "replace label"
  transaction, and the `/unclassified` and `/classified` groupings.
- **Dataset organisation** (`Training`, `DatasetPrep`, `FolderSync`):
  - grouping labelled images into per-label training folders;
  - first-wins deduplication by content hash in the two prepare scripts;
  - the idempotent find-or-create-then-link sync of dataset folders.

The outside world is passed in as parameters:

- a network fetch becomes a `FetchOutcome`;
- the JPEG encoder and image metadata reader become functions returning a
  `Result`;
- the clock becomes a `now` value or a `clock: nat -> nat`;
- file existence becomes a set or a predicate;
- file contents become a map from path to content hash.

SQLite tables are sequences of rows in id order. Ids start at 1 and are
never reused; id 0 stands for JavaScript's falsy "missing id".

The one `images` table is seen through three row types, one per group of
scripts: `Records.Image` (the downloader, the normaliser and
database-helper.ts), `Labels.ImageRecord` (image-label-helper.ts, with the
search keyword) and `Catalog.CatalogImage` (the folder sync and the
food/other UI, with the country and the absolute file path). Each keeps
only the columns its scripts read and write, and each module keeps its own
store. No property here relates the stores to each other: the scripts run
as separate processes, and none reads a column that another group writes
in a way the model would need.

Batches that the source runs concurrently (`Promise.all` inside a chunk) are
modelled as running in input order. Each method that loops in the source is
a Dafny `while` loop, proved equal to a recursive specification function;
the properties are proved about that function.

Behaviour modelled exactly as written, with the lemma that exhibits it:

- `createImageRecordIfNotExists` always stores an empty `url`. Under the
  UNIQUE constraint, the second new local record is rejected
  (`Labels.SecondLocalRecordRejected`).
- A row created that way has `keyword` = country and `file_name` =
  `country/file`. The training path built from it therefore repeats the
  country (`Labels.LocalRecordTrainingPath`).
- An image id is split at its first `_`. A country name containing `_` is
  therefore misread (`LabelApi.UnderscoreCountryMisread`).
- Dictionaries are plain objects (`{}`), which already answer the names
  of `Object.prototype` (`constructor`, `toString`, `__proto__`, …; module
  `JsObject`). A label or a folder with such a name is taken as an
  existing group, and pushing onto it throws a `TypeError`. The training
  set then fails with that error (`Training.PrepareTrainingDataset`), and
  `/unclassified` answers 500 (`FoodOther.Unclassified`).

## Model

| member | source | states |
|---|---|---|
| Records.Apply | src/database-helper.ts:62-66 | the update merge: each of file name, statuses, size, width, height and error message takes the patch's value when given and keeps the old one otherwise; id, url, alt text and creation time are kept; `updated_at` becomes `now` |
| Records.Inserted | src/database-helper.ts:12-26 | the batch insert only appends: old rows are kept as a prefix, `count` new rows are added, `count <= |images|`, and the next id advances by `count` |
| Records.InsertedStoresEveryUrl | src/database-helper.ts:12-26 | after the batch, every url of the batch is stored, whether it was new or skipped as a duplicate |
| Records.InsertedWellFormed | src/database-helper.ts:12-26 | the batch insert keeps urls unique and ids distinct and below the next id |
| Records.FreshBatchFullyInserted | src/database-helper.ts:12-26 | a batch of distinct urls that are not yet stored is inserted completely |
| Records.InsertedRowsComeFromBatch | src/database-helper.ts:12-26 | every appended row carries the url of some image of the batch |
| Records.SelectedMembership | src/database-helper.ts:39-46 | a row is selected iff it is in the table and passes both status filters; an empty filter is no restriction |
| Records.TwoFiltersSelect | src/database-helper.ts:39-46 | applying the download filter and then the process filter, each only when given, selects exactly the reference selection |
| Records.SliceEnd | src/database-helper.ts:49-51 | the end index of `slice(0, limit)`: `min(limit, n)` for a non-negative limit, and `n + limit` clamped at 0 for a negative one |
| Records.GetImagesByStatus | src/database-helper.ts:31-54 | the result is a prefix of the filtered rows in table order, cut to `limit` unless the limit is 0; every row returned matches both filters |
| Records.SelectedNumberedDistinct | src/database-helper.ts:31-54 | a selection from a well-formed table names each database id at most once |
| Records.GetImagesByStatusNumberedDistinct | src/database-helper.ts:31-54 | the same holds for the limited result |
| Records.IndexOfId | src/database-helper.ts:60 | `findIndex`: the first row with the id, or -1 exactly when no row has it |
| Records.Updated | src/database-helper.ts:59-68 | only the first row with the id changes, and it becomes `Apply(row, patch, now)`; ids and urls stay as they were; an unknown id changes nothing |
| Records.UpdatedWellFormed | src/database-helper.ts:59-68 | an update keeps the table's constraints |
| Records.DownloadCountsPartition | src/database-helper.ts:76-79 | the four download-status counts add up to the row count |
| Records.ProcessCountsPartition | src/database-helper.ts:76-79 | the four process-status counts add up to the row count |
| Records.PositiveSizeSumBounds | src/database-helper.ts:81-83 | with every size at most a bound, the sum of the positive sizes lies between their count and their count times the bound |
| Records.Average | src/database-helper.ts:85-88 | with a positive count, the mean times the count is the sum; with no count it is 0; it is at least 1 when the sum is at least the count |
| Records.GetStatistics | src/database-helper.ts:73-98 | `totalCollected` is the row count; each of the four status counts is the size of the set of row positions holding that status; with some positive size the average is the sum of the positive sizes divided by their number, otherwise 0 (and at least 1 when there is one); downloaded plus download-failed, and processed plus process-failed, never exceed the row count |
| Records.CountDownload | src/database-helper.ts:76-79 | the count of a download status is the size of the set of row positions with that status |
| Records.CountProcess | src/database-helper.ts:76-79 | the count of a process status is the size of the set of row positions with that status |
| Records.PositiveSizeCount | src/database-helper.ts:81-83 | the number of kept file sizes is the size of the set of row positions with a positive size |
| Records.MeanSize | src/database-helper.ts:85-88 | the mean of the positive sizes is their sum divided by their number, 0 iff there are none, and at least 1 otherwise |
| Records.AverageWithinBound | src/database-helper.ts:81-88 | the average file size never exceeds any bound on the file sizes |
| Records.ImageStore.constructor | src/database-helper.ts:12-16 | the store starts empty, with next id 1 |
| Records.ImageStore.Push | src/database-helper.ts:16 | a push succeeds iff the url is not stored yet; it then appends the row with the next id; otherwise the table is unchanged |
| Records.ImageStore.InsertImagesBatch | src/database-helper.ts:12-26 | the loop leaves exactly the table of `Inserted` and returns its count; the total count grows by that number |
| Records.ImageStore.UpdateImage | src/database-helper.ts:59-68 | the table becomes `Updated(old table, id, patch, now)` |
| Records.ImageStore.GetTotalCount | src/database-helper.ts:103-105 | the count never reaches the next id: a valid store never holds more rows than the ids it has handed out |
| Records.RowsBelowNextId | src/database-helper.ts:103-105 | a well-formed table, whose rows hold distinct ids from 1 up to below the next id, has fewer rows than that next id |
| RateLimiting.Recent | src/RateLimiter.ts:19-22 | the one-hour filter keeps exactly the timestamps newer than `now - 3600000` |
| RateLimiting.RecentAppend | src/RateLimiter.ts:16-22 | filtering a log with one more entry adds that entry iff it is recent |
| RateLimiting.Oldest | src/RateLimiter.ts:80 | `Math.min` over a non-empty log is an entry of the log and no later than any entry |
| RateLimiting.RateLimiter.constructor | src/RateLimiter.ts:7 | the request log starts empty |
| RateLimiting.RateLimiter.RecordRequest | src/RateLimiter.ts:14-23 | the log becomes the recent part of the old log plus `now`; its last entry is `now`, and every entry is newer than one hour before `now` |
| RateLimiting.RateLimiter.CanMakeRequest | src/RateLimiter.ts:28-38 | a request may be made iff fewer than 200 entries fall in the last hour |
| RateLimiting.RateLimiter.GetHourlyStats | src/RateLimiter.ts:43-63 | `count` is the recent entries, `count + remaining == limit == 200`, `remaining > 0` iff a request may be made, and the percentage is `count / 2` |
| RateLimiting.RateLimiter.Reset | src/RateLimiter.ts:146-148 | the log is emptied, after which a request may always be made |
| RateLimiting.RateLimiter.WaitAndExecute | src/RateLimiter.ts:69-114 | exactly one request is recorded, at a time no earlier than `now`, at least 1000 ms after the previous entry, and past the oldest entry's hour when the limit was reached; then the call's result is returned |
| RateLimiting.SameInstantCountsTwice | src/RateLimiter.ts:14-23 | two requests recorded at the same instant both count |
| RateLimiting.RecentIdempotent | src/RateLimiter.ts:20-22 | filtering the log twice is the same as filtering it once |
| Strings.ContainsAt | src/config.ts:134 | `includes` holds whenever the substring occurs at some index |
| Strings.NotContainsWithoutFirstChar | src/config.ts:134 | a string that lacks the first character of a key does not include the key |
| Strings.Split | src/server.ts:298-299 | `split` yields at least one part, no part holds the separator, and joining the parts with it gives back the string |
| Strings.SplitNoSeparator | src/simple-classification-ui.ts:317 | a string without the separator splits into itself alone |
| Strings.SplitAfterFirst | src/server.ts:298-299 | splitting `a + sep + b`, where `a` has no separator, gives `a` followed by the parts of `b` |
| Strings.TrimStart | src/server.ts:290 | the leading whitespace (JavaScript's set) is removed and nothing else |
| Strings.Trim | src/server.ts:290 | `trim()` removes a whitespace prefix and a whitespace suffix and nothing else: the result is the contiguous piece of `s` between them |
| Strings.TrimEnd | src/server.ts:290 | the trailing whitespace is removed and nothing else |
| Strings.TrimEmptyIffBlank | src/server.ts:290 | `trim()` is empty iff every character is whitespace |
| Strings.TrimmedEnds | src/server.ts:327 | a non-empty trimmed string starts and ends with non-whitespace |
| Strings.NatToString | src/ImageDownloader.ts:33 | the decimal text of a number is non-empty and all digits |
| Strings.ParseMagnitude | src/server.ts:544 | the digits `parseInt` reads after the sign: NaN exactly when `0x`/`0X` is followed by no hexadecimal digit, or, without that prefix, when no decimal digit comes first |
| Strings.ParseInt | src/server.ts:544 | `parseInt` without a radix fails exactly when no digit follows the leading whitespace and optional sign, reading hexadecimal digits after `0x`/`0X` and decimal ones otherwise; the value is that magnitude, negated exactly when a `-` led |
| Strings.DigitsValueOfNatToString | src/server.ts:544 | reading back the digits of a number's decimal text gives the number |
| Strings.ParseIntOfNatToString | src/server.ts:563 | `parseInt` of a number's decimal text is that number |
| Strings.HexRouteIds | src/server.ts:544 | `"0x1f"` reads as 31, and `"0x"` with no hexadecimal digit is NaN |
| Strings.DecimalRouteIdStopsAtLetter | src/server.ts:544 | without the `0x` prefix reading stops at the first non-digit: `"1f"` is 1 |
| Strings.Basename | src/prepare-dataset.ts:122 | `basename` is a suffix of the path and holds no `/` |
| Strings.JoinPathParts | src/train-helper.ts:73-75 | `path.join(a, b)` starts with `a/` and ends with `b`; a plain name `b` is its base name |
| Strings.HasExtensionSuffix | src/prepare-dataset.ts:93-95 | with no empty extension listed, a file has one of the extensions iff its `extname`, a `.` suffix without `/`, lower-cases to one of them |
| Strings.BasenameAfterSlash | src/train-helper.ts:73-75 | the base name does not depend on the directories before it |
| Strings.Extname | src/train-helper.ts:77 | `extname` is empty, or a suffix of the path that starts with `.` and holds no `/` |
| Strings.ToLowerAscii | src/sync-dataset-from-folders.ts:50 | lower-casing keeps the length and lowers each ASCII capital |
| Config.FirstMatchFrom | src/config.ts:133-137 | the first table key from a given position that the keyword includes, or none when no later key is included |
| Config.GetCountryFromKeyword | src/config.ts:132-139 | the result is "Others" iff no key is included; otherwise it is the country of the first included key in declaration order |
| Config.FindFirstMatch | src/config.ts:133-137 | the loop with its early return finds the same index as `FirstMatchFrom` |
| Config.FindCountry | src/config.ts:132-139 | the loop over the table returns `GetCountryFromKeyword(keyword)` |
| Config.CountriesAreNotDefault | src/config.ts:72-88 | no entry of the table maps to "Others" |
| Config.SearchKeywordsStartWithKeys | src/config.ts:46-62 | each search phrase starts with the key in the same position of the country table |
| Config.SearchKeywordsHaveCountries | src/config.ts:46-88 | every search phrase maps to a country other than "Others" |
| Config.KeysStartUpperCase | src/config.ts:72-88 | every key starts with an upper-case ASCII letter, and none of the first twelve starts with `B` |
| Config.FirstMatchDecides | src/config.ts:132-137 | when key `i` is included and no earlier key is, the country is that of key `i` |
| Config.NoEarlierKeyInBrazilianPhrase | src/config.ts:72-84 | "Brazilian feijoada traditional food" includes none of the first twelve keys |
| Config.BrazilianPhraseMapsToBrazil | src/config.ts:132-137 | "Brazilian feijoada traditional food" maps to "Brazil" |
| Config.LowerCasePhraseMapsToOthers | src/config.ts:134 | matching is case-sensitive: "chinese cuisine" maps to "Others" |
| Config.QualityStepsFitAttemptBound | src/config.ts:93-99 | `jpegQualityMin <= jpegQualityMax`, and the 30-point gap is six steps of 5, fewer than the 10 attempts |
| Downloader.DownloadFile | src/ImageDownloader.ts:62-118 | the download succeeds iff the status is 200, the content type starts with `image/` and the write succeeds; a timeout, request error, bad status or bad content type rejects with its own message |
| Downloader.RawFileName | src/ImageDownloader.ts:33 | the raw file name starts with `image_` and ends with `.jpg` |
| Downloader.NatToStringInjective | src/ImageDownloader.ts:33 | distinct numbers have distinct decimal texts |
| Downloader.RawFileNamesDistinct | src/ImageDownloader.ts:33 | images with different ids never get the same raw file name, whatever the timestamps |
| Downloader.DownloadPatch | src/ImageDownloader.ts:25-57 | no update without an id; otherwise the status becomes downloaded or failed as the fetch was accepted; success sets only the raw file name, failure only the error message of `downloadFile`; size, dimensions and process status are untouched |
| Downloader.BatchRows | src/ImageDownloader.ts:123-162 | the batch keeps the table's length, ids and urls |
| Downloader.SuccessCount | src/ImageDownloader.ts:145-152 | the successes of a batch number at most its size |
| Downloader.BatchStep | src/ImageDownloader.ts:137-159 | one more image updates the table by that image's step, adds its raw file on success, and adds one success iff it had an id and was accepted |
| Downloader.BatchSettlesEveryRow | src/ImageDownloader.ts:123-162 | with distinct non-zero ids, every row the batch names ends "downloaded" or "failed" according to its own fetch; none stays pending |
| Downloader.ImageDownloader.constructor | src/ImageDownloader.ts:14-20 | the raw-file directory starts with the given files |
| Downloader.ImageDownloader.DownloadImage | src/ImageDownloader.ts:25-57 | returns true iff the image has an id and the fetch is accepted; the table gets exactly the step's update, and the raw file appears only on success |
| Downloader.ImageDownloader.DownloadImagesBatch | src/ImageDownloader.ts:123-162 | the chunk loop leaves the table of `BatchRows` and the files of `BatchFiles`; `completed == |images|` and `succeeded + failed == completed` |
| Downloader.BatchFilesExactly | src/ImageDownloader.ts:25-57 | a raw file is written by a batch iff a numbered image of it was accepted, under that image's id and time |
| Downloader.ImageDownloader.DownloadChunk | src/ImageDownloader.ts:137-159 | settling one chunk `[i, end)` extends the progress invariant from `i` to `end` |
| Downloader.ImageDownloader.DownloadNext | src/ImageDownloader.ts:140-152 | settling one image extends the progress invariant by one position |
| Downloader.ImageDownloader.DownloadPendingImages | src/ImageDownloader.ts:167-180 | only the rows selected as pending (with the limit) are downloaded, each of them ends "downloaded" or "failed", and the raw files gained are those of `BatchFiles` over that selection |
| Processor.CalculateResizeAndCrop | src/ImageProcessor.ts:146-168 | an image inside the box keeps its size; any other image comes out exactly the box size |
| Processor.CoverReachesBox | src/ImageProcessor.ts:158-166 | scaling by the larger ratio and rounding reaches at least the box side |
| Processor.Isqrt | src/ImageProcessor.ts:94-96 | the integer square root `r` satisfies `r*r <= n < (r+1)*(r+1)` |
| Processor.ShrinkSide | src/ImageProcessor.ts:94-96 | the rescaled side is exactly `floor(side * sqrt(maxFileSize / fileSize))` |
| Processor.ShrinkSideAtMost | src/ImageProcessor.ts:94-96 | an over-budget file is never rescaled to a larger side |
| Processor.Compress | src/ImageProcessor.ts:56-125 | a fitting result is within the size limit, at a quality no higher than the start, and is exactly the encoder's output at that quality; a shrunk result has non-negative sides and is the encoder's output at the minimum quality |
| Processor.CompressNeverExhausted | src/ImageProcessor.ts:56-125 | from the maximum quality the loop always returns before the tenth attempt, so the "cannot compress" throw is unreachable |
| Processor.FitsWithinLimit | src/ImageProcessor.ts:74-86 | an accepted encoding is within the byte budget, was made at one of the qualities 80, 75, …, 50, and is the first that fit: every higher quality encoded a file over budget |
| Processor.ShrunkOnlyAfterAllQualities | src/ImageProcessor.ts:90-119 | the rescale happens only after every quality from 80 down to 50 was encoded and over budget |
| Processor.ShrunkWithinDimensions | src/ImageProcessor.ts:93-96 | the rescaled dimensions never exceed the target dimensions |
| Processor.EncodeFailedComesFromEncoder | src/ImageProcessor.ts:62-68 | an encoding failure carries a message the encoder produced |
| Processor.ProcessOutcome | src/ImageProcessor.ts:24-141 | not eligible iff the id or file name is missing; a missing raw file, a metadata error and missing dimensions each fail with their message; otherwise a fitting or shrunk encoding succeeds with that encoding and an encoder error fails with the encoder's message |
| Processor.SucceededFitsOrShrunkLast | src/ImageProcessor.ts:74-119 | a processed image fits the byte budget, or it is the rescaled fallback tried only after every quality from 80 to 50 was over budget |
| Processor.NeverCannotCompress | src/ImageProcessor.ts:122-125 | the "cannot compress" failure is never raised by the loop itself, only passed on from the metadata reader or encoder |
| Processor.OutcomePatch | src/ImageProcessor.ts:78-84 | no update for an ineligible image; otherwise the process status becomes processed or failed and the download status is untouched; success records `processed_` + name, the new size and dimensions and no error; failure records only the message |
| Processor.BatchRows | src/ImageProcessor.ts:173-197 | the batch keeps the table's length, ids and urls |
| Processor.SuccessCount | src/ImageProcessor.ts:180-188 | the count is the number of images whose processing succeeded (the size of that set of positions), at most the batch size |
| Processor.BatchSettlesEveryRow | src/ImageProcessor.ts:173-197 | with distinct non-zero ids, each named row with a file name ends "processed" or "failed" as its own outcome says |
| Processor.ImageProcessor.constructor | src/ImageProcessor.ts:13-19 | the processed-file directory starts with the given files |
| Processor.ImageProcessor.ProcessImage | src/ImageProcessor.ts:24-141 | returns true iff the outcome succeeded; the table gets exactly the outcome's update; the processed file is written on success and removed on failure |
| Processor.StepFiles | src/ImageProcessor.ts:68-138 | success leaves the `processed_` file in the directory, failure removes it, and no other file changes |
| Processor.BatchProcessedFilesFromSuccesses | src/ImageProcessor.ts:173-197 | every file a batch adds to the processed directory is the output of one of its images that succeeded |
| Processor.SuccessfulOutputKept | src/ImageProcessor.ts:173-197 | the output of an image that succeeded is still there after the batch unless a later image has the same file name |
| Processor.ImageProcessor.Reencode | src/ImageProcessor.ts:56-125 | the quality loop returns the result of `Compress` from quality 80; an accepted encoding is within budget, and the attempts never run out |
| Processor.ImageProcessor.ProcessImagesBatch | src/ImageProcessor.ts:173-197 | the loop leaves the table of `BatchRows` and the processed files of `BatchProcessedFiles`; `completed == |images|` and `succeeded + failed == completed` |
| Processor.ImageProcessor.ProcessPendingImages | src/ImageProcessor.ts:202-211 | only rows that are downloaded and pending processing are processed, each named row ends processed or failed as its outcome says, and the processed directory is that of `BatchProcessedFiles` over the selection |
| Labels.LabelsOf | src/image-label-helper.ts:44-50 | the labels of one image are exactly the table's rows with that image id |
| Labels.NewLabel | src/image-label-helper.ts:20-36 | the inserted row carries the given fields, the new id, and `now` as both timestamps |
| Labels.SaveAddsOneLabel | src/image-label-helper.ts:20-39 | saving adds one label to that image's list and none to any other image's |
| Labels.InsertByRankSorted | src/image-label-helper.ts:49 | inserting into a list ordered manual-first, then by confidence descending, keeps it ordered |
| Labels.SortByRank | src/image-label-helper.ts:49 | the ordering is sorted and a permutation of its input |
| Labels.GetImageLabels | src/image-label-helper.ts:44-61 | the listing is exactly that image's rows, as a permutation, ordered manual first and then by confidence descending |
| Labels.WithoutLabel | src/image-label-helper.ts:66-70 | the delete keeps exactly the rows with a different id; an unknown id changes nothing |
| Labels.WithoutLabelCount | src/image-label-helper.ts:66-70 | with distinct ids, the delete removes one row iff the id existed |
| Labels.MarkReviewed | src/image-label-helper.ts:75-83 | only rows with the id become reviewed with the new time; all other rows are unchanged |
| Labels.MarkReviewedTwice | src/image-label-helper.ts:75-83 | marking again still finds the id and gives the same table as marking once |
| Labels.FirstWhere | src/image-label-helper.ts:95-113 | `LIMIT 1`: the first row satisfying the condition, or -1 when none does |
| Labels.GetImageIdFromPath | src/image-label-helper.ts:92-117 | a returned id belongs to a row matching the exact path or the file name; null iff no row matches either; an exact-path row wins whenever one exists |
| Labels.CreateImageRecord | src/image-label-helper.ts:126-162 | the existing id is returned unchanged; otherwise a row with an empty url is appended with the next id, or the UNIQUE url constraint rejects it when an empty url is already stored |
| Labels.CreateImageRecordIdempotent | src/image-label-helper.ts:131-134 | a second call with the same arguments returns the same id and changes nothing |
| Labels.SecondLocalRecordRejected | src/image-label-helper.ts:146-148 | after one local record was created, a different new local record fails on the UNIQUE url constraint |
| Labels.ManualPlusAI | src/image-label-helper.ts:176-177 | the manual and AI counts add up to the row count |
| Labels.LabeledImageIdsBound | src/image-label-helper.ts:175 | there are no more distinct labelled images than rows, and at least one when there is a row |
| Labels.GetLabeledStats | src/image-label-helper.ts:167-188 | `totalManual`, `totalAI` and `totalReviewed` are the numbers of manual, predicted and reviewed rows (manual plus AI is the row count); `totalLabeled` is the number of distinct image ids, zero iff there are no rows |
| Labels.CountManualRows | src/image-label-helper.ts:176-177 | the running manual/predicted count equals the number of rows of that kind |
| Labels.CountReviewedRows | src/image-label-helper.ts:178 | the running reviewed count equals the number of reviewed rows |
| Labels.TrustedJoin | src/image-label-helper.ts:199-210 | the join holds exactly the entries of manual or reviewed labels whose image exists |
| Labels.Distinct | src/image-label-helper.ts:200 | `SELECT DISTINCT` keeps the same members without repeats |
| Labels.InsertByIdSorted | src/image-label-helper.ts:209 | inserting into a list ordered by image id keeps it ordered |
| Labels.SortById | src/image-label-helper.ts:209 | the ordering by image id is sorted and a permutation |
| Labels.GetLabeledImagesForTraining | src/image-label-helper.ts:193-219 | the training list has exactly the members of the trusted join, without repeats, ordered by image id |
| Labels.TrainingUsesTrustedLabels | src/image-label-helper.ts:208 | every training entry comes from a manual or reviewed label with the same image and text |
| Labels.LocalRecordTrainingPath | src/image-label-helper.ts:137-150 | a locally created record's training path is `country/country/filename` |
| Labels.Unlabeled | src/image-label-helper.ts:230-236 | only images without any label are listed, and every such image is listed |
| Labels.Limit | src/image-label-helper.ts:235 | `LIMIT` keeps a prefix of length `min(limit, n)`; a negative limit keeps everything |
| Labels.GetUnlabeledImages | src/image-label-helper.ts:224-245 | a prefix of the unlabeled images, none with a label: all of them without a limit or when they fit, exactly `limit` of them otherwise |
| Labels.UnlabeledPlusLabeled | src/image-label-helper.ts:224-245 | with distinct image ids, the unlabeled images plus the images whose id is labelled make up the whole table |
| Labels.LabelDb.constructor | src/image-label-helper.ts:5 | both tables start empty |
| Labels.LabelDb.SaveImageLabel | src/image-label-helper.ts:20-39 | appends exactly one row with the next id and returns that id; the images are unchanged |
| Labels.LabelDb.DeleteImageLabel | src/image-label-helper.ts:66-70 | returns true iff the id existed; the table becomes `WithoutLabel` and shrinks by one exactly then |
| Labels.LabelDb.MarkLabelAsReviewed | src/image-label-helper.ts:75-83 | returns true iff the id exists; the table becomes `MarkReviewed` |
| Labels.LabelDb.CreateImageRecordIfNotExists | src/image-label-helper.ts:126-162 | the tables and the result are those of `CreateImageRecord`; labels are unchanged |
| LabelApi.SplitImageId | src/server.ts:298-299 | the country holds no `_`; with a `_` the id is country + `_` + filename, without one the filename is empty |
| LabelApi.SplitImageIdRoundTrip | src/server.ts:298-299 | an id built from a country without `_` splits back into that country and file |
| LabelApi.UnderscoreCountryMisread | src/server.ts:298 | a country with `_` in its name is misread ("South_Korea" gives "South") |
| LabelApi.LabelDefaults | src/server.ts:319-322 | a non-boolean `isManual` counts as manual; a non-number confidence is 1.0 when manual and 0.0 otherwise; manual labels are saved as reviewed |
| LabelApi.BareLabelIsManual | src/server.ts:319-322 | a body with only a label gives a manual, reviewed label of confidence 1.0 |
| LabelApi.StoredLabelTrimmed | src/server.ts:327 | an accepted label is stored trimmed: non-empty, with no whitespace at either end |
| LabelApi.PostLabel | src/server.ts:285-350 | an empty or blank label is a 400 with no change; no row and no file is a 404 with no change; a valid label is saved iff the row is found or the file exists and creating its row succeeds, appending exactly one label with the defaults; a failed creation is a 500 with the database's message and no label |
| LabelApi.ValidLabel | src/server.ts:290 | a label passes the check iff it is present, a string, and not made of whitespace only |
| LabelApi.GetLabels | src/server.ts:353-397 | labels are never changed; a found image gives its ordered labels, a missing file gives an empty list, and an existing file first creates the image row |
| LabelApi.ClassifyEndpoint | src/server.ts:400-452 | 503 iff there is no model; 404 iff the model exists and the file is missing; otherwise the predictions or the error message the classifier returned for that path and the body's `topK`, or 3 when the body has none |
| LabelApi.ImageFiles | src/server.ts:510-513 | the filter keeps exactly the files with an image extension |
| LabelApi.CountImageFiles | src/server.ts:501-515 | the loop sums the image files of all folders, never more than their files |
| LabelApi.UnlabeledCount | src/server.ts:521 | `max(0, totalImages - totalLabeled)`: the difference when labels do not outnumber images, otherwise 0 |
| LabelApi.UnlabeledCountMatchesList | src/server.ts:496-538 | when the counted images are the table's rows and every label refers to one of them, `max(0, total - labelled)` is the length of the unlabeled list |
| LabelApi.DeleteLabel | src/server.ts:541-557 | success is exactly the helper's answer for the id `parseInt` reads (decimal or `0x` hexadecimal); an unparsable id deletes nothing |
| LabelApi.ReviewLabel | src/server.ts:560-576 | success is exactly the helper's answer for the id `parseInt` reads (decimal or `0x` hexadecimal); an unparsable id reviews nothing |
| LabelApi.RouteIdRoundTrip | src/server.ts:544 | the id of an existing label, written in the route and parsed back, finds that label |
| LabelApi.Present | src/server.ts:734-736 | an image is kept iff it is among the unlabeled ones and its file exists |
| LabelApi.PresentAppend | src/server.ts:734-736 | the filter keeps order: filtering a concatenation is concatenating the filtered parts |
| LabelApi.ImagePaths | src/server.ts:734-736 | one path per present image, in the same order |
| LabelApi.SavedData | src/server.ts:779-785 | a saved result is an AI label, unreviewed, on the image at the same index |
| LabelApi.PersistedData | src/server.ts:763-790 | no more labels are saved than results, and each is an unreviewed AI label |
| LabelApi.SavedRows | src/server.ts:779-785 | the k-th saved label gets the k-th next id |
| LabelApi.SavedFromPrefix | src/server.ts:763-790 | a label saved from the first results is saved from all results |
| LabelApi.PersistedDataFrom | src/server.ts:763-790 | every saved label comes from a usable result at some index, paired with the image at that index |
| LabelApi.PersistStep | src/server.ts:763-790 | one more result adds its label iff it is usable |
| LabelApi.PersistPredictions | src/server.ts:761-795 | the loop appends exactly the rows of `SavedRows(PersistedData(...))`, counts them, and saves no more than there are results |
| LabelApi.PersistOne | src/server.ts:764-789 | a result is skipped iff it has an error, no predictions or an unusable top prediction; otherwise its top prediction is saved with the next id |
| LabelApi.BatchClassify | src/server.ts:701-807 | 503 without a model; nothing to do without unlabeled images; 404 iff no file exists; otherwise the existing files are classified and the usable results are saved, paired by index with the unlabeled list |
| LabelApi.MisalignedPairing | src/server.ts:734-765 | with the first image's file missing, the prediction for the second image is saved on the first image |
| LabelApi.AlignedPairingLabelsClassifiedImage | src/server.ts:763-790 | pairing with the images whose files exist saves every label on the image whose file produced it |
| LabelApi.BatchClassifyAligned | src/server.ts:701-807 | the batch endpoint with that corrected pairing, otherwise the same responses and counts |
| Classifier.Paired | src/classifier.ts:256-260 | probability `i` is paired with class name `i`, or no name when the list is shorter |
| Classifier.InsertByConfidence | src/classifier.ts:261 | insertion adds exactly one element |
| Classifier.InsertByConfidenceSorted | src/classifier.ts:261 | inserting into a list ordered by confidence descending keeps it ordered |
| Classifier.SortByConfidence | src/classifier.ts:261 | the sort is ordered by confidence descending and a permutation of its input |
| Classifier.RankPredictions | src/classifier.ts:256-262 | `min(topK, n)` predictions, ordered, each a real pairing, and none left out that beats a kept one |
| Classifier.RankingKeepsEveryPrediction | src/classifier.ts:256-262 | with `topK == n` the ranking is a permutation of all pairings |
| Classifier.ItemResult | src/classifier.ts:292-301 | one path's result keeps the path; a failure gives no predictions and the error; a success gives the predictions |
| Classifier.BatchResults | src/classifier.ts:278-316 | one result per path, in input order, with its path; an item has an error iff its own classification failed |
| Classifier.ClassifyImagesBatch | src/classifier.ts:278-316 | the chunked loop returns `BatchResults`: each item's result depends only on its own path |
| Classifier.ValidShape | src/classifier.ts:114 | the filter keeps each non-null dimension as often as the shape has it (multiset), drops every null, and so has the shape's length minus its nulls |
| Classifier.ProductZero | src/classifier.ts:131 | `reduce((a, b) => a * b, 1)` is zero exactly when some dimension is zero |
| Classifier.ProductNonNegative | src/classifier.ts:131 | with non-negative dimensions the product is non-negative |
| Classifier.WeightBytesZero | src/classifier.ts:114-131 | a tensor takes no bytes exactly when one of its given dimensions is zero |
| Classifier.WeightBytesNonNegative | src/classifier.ts:114-131 | with non-negative dimensions a tensor's byte size is non-negative |
| Classifier.TotalBytesAligned | src/classifier.ts:124-133 | the total (and so every offset) is a multiple of 4, a whole number of float32 values |
| Classifier.PrefixOfPermutation | src/classifier.ts:261-262 | every prediction kept by the `slice` is one of the pairings |
| Classifier.WeightOffsets | src/classifier.ts:124-133 | offset `k` is the byte total of the first `k` tensors, and `totalSize` is the total of all |
| Classifier.OffsetsChain | src/classifier.ts:128-133 | the first offset is 0, and each next offset adds the tensor's `4 * product(shape)` |
| Classifier.NonNegativeTotal | src/classifier.ts:124-133 | with non-negative dimensions the total size is non-negative |
| Classifier.TensorsFitBuffer | src/classifier.ts:136-145 | every offset lies within `[0, totalSize]` |
| Classifier.ModelCache.constructor | src/classifier.ts:17-18 | both caches start empty |
| Classifier.ModelCache.LoadClassNames | src/classifier.ts:204-224 | a cached list is returned unchanged; otherwise the read result is returned and cached on success |
| Classifier.ModelCache.LoadClassifierModel | src/classifier.ts:23-58 | a cached model is returned unchanged; otherwise the load result is returned and cached on success |
| Classifier.ModelCache.ClearModelCache | src/classifier.ts:321-328 | both caches become empty |
| Classifier.LoadTwice | src/classifier.ts:204-207 | after a successful load, a second load returns the same class names |
| FoodOther.FirstLabelNamed | src/simple-classification-ui.ts:152 | the id of a row with the name that no earlier row shares (the first match), or none iff no row has it |
| FoodOther.FirstLabelNamedAppend | src/simple-classification-ui.ts:152 | appending a row does not change an earlier match |
| FoodOther.EnsureLabel | src/simple-classification-ui.ts:150-163 | get-or-create: the first row of that name with a non-zero id is returned with the table unchanged; otherwise exactly the row `(nextId, name, name, "food-other")` is appended and its id returned |
| FoodOther.EnsureLabelIdempotent | src/simple-classification-ui.ts:150-163 | a second call returns the same id and leaves the table as it is |
| FoodOther.GetFoodOtherLabelIds | src/simple-classification-ui.ts:165-169 | the food and other ids are valid and different |
| FoodOther.EnsuredNamesDiffer | src/simple-classification-ui.ts:165-169 | two different names get two different ids |
| FoodOther.EnsureLabelRow | src/simple-classification-ui.ts:150-163 | the label table becomes that of `EnsureLabel`; no other table changes |
| FoodOther.EnsureFoodOtherLabels | src/simple-classification-ui.ts:165-169 | both label rows are ensured; the ids differ; no other table changes |
| FoodOther.ImageById | src/simple-classification-ui.ts:187 | the image with the id, or none iff no image has it |
| FoodOther.FoodOtherOf | src/simple-classification-ui.ts:188-192 | the food/other labels of one image; non-empty iff the `NOT EXISTS` test fails |
| FoodOther.NotFoodOther | src/simple-classification-ui.ts:359-361 | the labels that are neither food nor other |
| FoodOther.ParseImagePath | src/simple-classification-ui.ts:300-335 | for a non-URL path, null iff it starts with `/` under neither known prefix; a parsed folder holds no `/` |
| FoodOther.SplitFolderFile | src/simple-classification-ui.ts:317-318 | `folder/file` splits into the folder and the rest re-joined |
| FoodOther.UnclassifiedPathRoundTrip | src/simple-classification-ui.ts:315-319 | `/unclassified/` + the path built by `/unclassified` parses back to its folder and file |
| FoodOther.ClassifiedPathRoundTrip | src/simple-classification-ui.ts:320-325 | `/classified/label/folder/file` drops the label and gives the folder and file |
| FoodOther.RelativePathRoundTrip | src/simple-classification-ui.ts:327-330 | a relative `folder/file` gives the folder and file, for any folder other than `http:` and `https:` |
| FoodOther.FindImage | src/simple-classification-ui.ts:344-353 | a found image is linked from that folder and has that file name, and nothing is found iff no link of that folder leads to an image of that file name |
| FoodOther.Resolutions | src/simple-classification-ui.ts:339-356 | one lookup per source string, in order |
| FoodOther.Resolve | src/simple-classification-ui.ts:339-355 | a resolved id is non-zero and names an existing image of the parsed file name linked from the parsed folder; with non-zero ids, a parsed path with a folder resolves iff such a linked image exists; an unparsed path or one without a folder resolves to nothing |
| FoodOther.ResolvedIds | src/simple-classification-ui.ts:339-356 | no more images are resolved than strings given |
| FoodOther.SomesFrom | src/simple-classification-ui.ts:341-355 | every resolved id comes from a successful lookup |
| FoodOther.ResolvedImagesExist | src/simple-classification-ui.ts:344-356 | every resolved id names an existing, linked image |
| FoodOther.WithoutFoodOther | src/simple-classification-ui.ts:359-361 | the delete removes exactly that image's food/other labels and keeps every other label |
| FoodOther.Relabel | src/simple-classification-ui.ts:359-371 | one iteration uses exactly one new label id |
| FoodOther.RelabelWellFormed | src/simple-classification-ui.ts:359-371 | one iteration keeps the label ids valid |
| FoodOther.Corrections | src/simple-classification-ui.ts:338-373 | the transaction uses one new label id per resolved image |
| FoodOther.CorrectionsWellFormed | src/simple-classification-ui.ts:338-373 | the transaction keeps the label ids valid |
| FoodOther.RelabelEffect | src/simple-classification-ui.ts:359-370 | one relabelling leaves that image with only the new label, and changes no other image and no other kind of label |
| FoodOther.CorrectionsLeaveOneLabel | src/simple-classification-ui.ts:359-370 | after the transaction each resolved image has exactly one food/other label, the target, manual, reviewed, confidence 1.0; other images and other labels are unchanged |
| FoodOther.CorrectTransaction | src/simple-classification-ui.ts:337-374 | the loop leaves the table of `Corrections` and counts exactly the images that parsed and matched |
| FoodOther.Correct | src/simple-classification-ui.ts:281-388 | a class name other than food/other, or no images, is a 400 with no change; otherwise both label rows are ensured and the transaction's table and count are committed |
| FoodOther.UnclassifiedRows | src/simple-classification-ui.ts:178-200 | the rows listed are exactly those of the links whose image exists and has no food/other label |
| FoodOther.CorrectedImagesLeaveUnclassified | src/simple-classification-ui.ts:178-200 | an image just corrected no longer appears among the unclassified |
| FoodOther.IndexOfClass | src/simple-classification-ui.ts:211 | where a class sits in the listing, or -1 iff it is absent |
| FoodOther.AddToClass | src/simple-classification-ui.ts:211-217 | adding a path keeps the class names distinct |
| FoodOther.Grouped | src/simple-classification-ui.ts:207-225 | the grouping lists each class once |
| FoodOther.GroupedByClass | src/simple-classification-ui.ts:207-225 | each class holds exactly the paths of its rows in order, and a class is listed iff some row belongs to it |
| FoodOther.GroupUnclassified | src/simple-classification-ui.ts:202-225 | fails iff some row's class is a name `{}` inherits; otherwise the loop builds `Grouped(rows)` |
| FoodOther.CollectClasses | src/simple-classification-ui.ts:202-218 | throws iff some row's class is a name `{}` inherits from `Object.prototype`; otherwise the dictionary and its key order match `Grouped(rows)` |
| FoodOther.GroupedHasEveryClass | src/simple-classification-ui.ts:207-218 | every row's class names a group of the listing |
| FoodOther.AddToClassKeeps | src/simple-classification-ui.ts:211-217 | adding a path creates or keeps its class and keeps every other class |
| FoodOther.Unclassified | src/simple-classification-ui.ts:174-228 | both label rows are ensured, even when the handler then fails; the answer is a 500 iff some unclassified row's class is a name `{}` inherits, and otherwise the grouping of the unclassified rows; images, links and labels are unchanged |
| FoodOther.LinkRows | src/simple-classification-ui.ts:245 | the joined rows are exactly one per link of the image, each carrying the label's id |
| FoodOther.ClassifiedRows | src/simple-classification-ui.ts:236-253 | every joined row has the food or the other label, and the rows are exactly the link rows of the food/other labels whose image exists |
| FoodOther.BucketsPartitionRows | src/simple-classification-ui.ts:261-265 | every row lands in exactly one of the two buckets |
| FoodOther.BucketClassified | src/simple-classification-ui.ts:261-265 | rows with the food id go to food, all others to other, and none is lost |
| FoodOther.Classified | src/simple-classification-ui.ts:233-272 | both label rows are ensured and the answer is the food and other buckets, in that order |
| Catalog.CatalogDb.constructor | src/sync-dataset-from-folders.ts:18 | all tables start empty |
| Catalog.CatalogDb.SetDatasets | src/sync-dataset-from-folders.ts:29-46 | commits the datasets table and changes no other table |
| Catalog.CatalogDb.SetImagesAndLinks | src/sync-dataset-from-folders.ts:78-197 | commits the images and links tables and changes no other table |
| Catalog.CatalogDb.SetImageLabels | src/simple-classification-ui.ts:337-377 | commits the image labels table and changes no other table |
| Training.LabelOrder | src/train-helper.ts:42-50 | the labels in order of first appearance, each once, and exactly the labels used |
| Training.Group | src/train-helper.ts:42-50 | a label's group is empty iff no image has that label |
| Training.GroupConcat | src/train-helper.ts:42-50 | grouping keeps input order: the group of a concatenation is the concatenation of the groups |
| Training.GroupSizesCoverInput | src/train-helper.ts:42-50 | the group sizes add up to the number of images |
| Training.GroupsMatchStep | src/train-helper.ts:42-50 | one more image extends its label's group, or opens a new one |
| Training.GroupByLabel | src/train-helper.ts:37-50 | throws iff some label is a name `{}` inherits from `Object.prototype`; otherwise the loop builds exactly the groups and key order of the reference grouping |
| Training.SourcePathKeepsFileName | src/train-helper.ts:73-75 | the source path always ends with the stored path's own file name |
| Training.SourcePath | src/train-helper.ts:73-75 | the source path lies under the images directory, whether the stored path has a folder or not |
| Training.CopyExtension | src/train-helper.ts:77 | the extension starts with `.`; the file's own extension when it has one, `.jpg` otherwise |
| Training.DestFileName | src/train-helper.ts:78 | the destination name starts with `label_` and ends with the extension |
| Training.DestPath | src/train-helper.ts:77-79 | the destination lies in the label's folder, under a name that starts with `label_` and ends with the copy's extension |
| Training.DestPathShape | src/train-helper.ts:78-79 | the destination lies in the label's folder and ends with the extension |
| Training.CopyDestination | src/train-helper.ts:71-79 | each member's copy goes from its source path into its label folder |
| Training.LabelCopies | src/train-helper.ts:71-89 | only members whose source exists are copied |
| Training.LabelCopiesExactly | src/train-helper.ts:82-88 | a member is copied iff its source file exists |
| Training.LabelCopiesIncludes | src/train-helper.ts:82-88 | every member whose source file exists is copied, with its position in the group as index |
| Training.AllCopies | src/train-helper.ts:62-92 | no more copies than images in the groups, each from an existing source |
| Training.Categories | src/train-helper.ts:91 | the categories are exactly the labels used |
| Training.CopyGroup | src/train-helper.ts:71-89 | the loop makes exactly the copies of `LabelCopies` |
| Training.CopyAll | src/train-helper.ts:62-92 | the loop over labels makes all copies, counts them, and records each group's size |
| Training.PrepareTrainingDataset | src/train-helper.ts:17-108 | no labelled images gives failure with 0 images and no categories; a label `{}` inherits gives the caught `TypeError` as failure, with no copies; otherwise success, with the copies made as the total and each label's group size |
| Training.CopiesWithinCategories | src/train-helper.ts:85-91 | the copies made never exceed the sum of the category sizes, which is the number of images |
| Training.StatsImageCount | src/train-helper.ts:134-137 | the count is the number of entries whose lower-cased extension is one of the five (the size of that set of positions) |
| Training.LabelDirs | src/train-helper.ts:127-130 | an entry is kept iff it is a directory of the listing |
| Training.Tally | src/train-helper.ts:132-141 | one count per label folder, its image-file count |
| Training.TallyStep | src/train-helper.ts:139-140 | one more folder adds its count to the total and its entry to the categories |
| Training.GetDatasetStats | src/train-helper.ts:113-147 | no dataset folder gives zero and no categories; otherwise the total and categories of the tally |
| Training.TotalIsSumOfCategories | src/train-helper.ts:139-140 | with distinct folder names, the total equals the sum of the category counts |
| Training.IsDatasetReady | src/train-helper.ts:152-159 | ready iff the folder exists, the total is positive and some category exists |
| Training.TotalPositiveHasCount | src/train-helper.ts:152-158 | the total is positive iff some folder has an image, and then a category exists |
| Training.ReadyIffSomeImage | src/train-helper.ts:152-158 | ready iff the folder exists and some label folder holds an image |
| DatasetPrep.TargetMirrorsSource | src/prepare-dataset-for-classification.ts:100-101 | the per-country layout keeps the folder and file name; the flat layout puts `country_file` in `other` (src/prepare-dataset.ts:122-124) |
| DatasetPrep.ImageFiles | src/prepare-dataset-for-classification.ts:87-91 | a name is kept iff it is in the listing and its lower-cased extension is one of the four |
| DatasetPrep.CountryDirs | src/prepare-dataset-for-classification.ts:53-55 | a folder is listed iff some entry of the listing is a directory with that name and contents |
| DatasetPrep.SourcePath | src/prepare-dataset-for-classification.ts:77-100 | the source lies in the country's folder of the processed directory and ends with the file name |
| DatasetPrep.TargetPath | src/prepare-dataset-for-classification.ts:78-101 | the per-country target lies in the country's folder of the dataset and ends with the file name; the flat target, built at src/prepare-dataset.ts:121-124, lies in `other` |
| DatasetPrep.ImageFilesAreImages | src/prepare-dataset.ts:92-96 | every kept file has a `.jpg/.jpeg/.png/.webp` extension |
| DatasetPrep.Step | src/prepare-dataset-for-classification.ts:103-134 | one file keeps all recorded hashes, adds at most one copy and counts it for the country, and copies plus duplicates grow by at most one |
| DatasetPrep.Pass | src/prepare-dataset-for-classification.ts:99-135 | one folder's files keep recorded hashes, and copies plus duplicates grow by at most the number of files |
| DatasetPrep.FolderStep | src/prepare-dataset-for-classification.ts:76-141 | one folder keeps recorded hashes and earlier copies |
| DatasetPrep.Prep | src/prepare-dataset-for-classification.ts:76-141 | the folder loop keeps recorded hashes and earlier copies |
| DatasetPrep.Initial | src/prepare-dataset-for-classification.ts:68-73 | the empty start state is consistent |
| DatasetPrep.StepConsistent | src/prepare-dataset-for-classification.ts:103-134 | one file keeps the invariant: the counters equal the copies, copied hashes are distinct, and each copy's hash is recorded with its source |
| DatasetPrep.PassConsistent | src/prepare-dataset-for-classification.ts:99-135 | one folder keeps that invariant |
| DatasetPrep.PrepConsistent | src/prepare-dataset.ts:87-151 | the whole run keeps that invariant: first wins, each content hash is copied at most once across all countries |
| DatasetPrep.StepOutcome | src/prepare-dataset-for-classification.ts:108-131 | a known hash is only a duplicate; a new hash is recorded, and the file is copied iff the target does not exist yet |
| DatasetPrep.CopiedPlusDuplicatesBound | src/prepare-dataset-for-classification.ts:99-135 | copies plus duplicates never exceed the files scanned |
| DatasetPrep.StatsSumToCopies | src/prepare-dataset.ts:147 | the per-country counts add up to the copies made |
| DatasetPrep.PassFiles | src/prepare-dataset-for-classification.ts:99-135 | the file loop computes `Pass` |
| DatasetPrep.PrepFolder | src/prepare-dataset-for-classification.ts:76-141 | one folder iteration computes `FolderStep` |
| DatasetPrep.PrepFolders | src/prepare-dataset-for-classification.ts:76-141 | the folder loop computes `Prep` |
| DatasetPrep.PrepareDataset | src/prepare-dataset.ts:30-178 | no processed folder and no country folder are reported; otherwise the result of `Prep` from the empty state |
| DatasetPrep.PreparedReport | src/prepare-dataset.ts:139-147 | `copiedCount == totalImages ==` copies, copied hashes are distinct, and the per-country counts add up to `copiedCount` |
| FolderSync.ImageFileByExtension | src/sync-dataset-from-folders.ts:49-52 | a name with an image extension, in any case, is an image file |
| FolderSync.IsImageFile | src/sync-dataset-from-folders.ts:49-52 | an image file's name ends with a `.` suffix that lower-cases to `.jpg`, `.jpeg`, `.png` or `.webp` |
| FolderSync.NoExtensionIsNotImage | src/sync-dataset-from-folders.ts:49-52 | a name without a dot is not an image file |
| FolderSync.FirstDatasetNamed | src/sync-dataset-from-folders.ts:24-26 | the id of a dataset with the name that no earlier dataset shares (the first match), or none iff there is none |
| FolderSync.EnsureDataset | src/sync-dataset-from-folders.ts:22-47 | get-or-create of `main`: the first `main` row with a non-zero id is returned with the table unchanged; otherwise exactly one `main` row with the next id is appended and that id returned |
| FolderSync.EnsureDatasetIdempotent | src/sync-dataset-from-folders.ts:22-47 | a second call returns the same id and changes nothing |
| FolderSync.EnsureMainDataset | src/sync-dataset-from-folders.ts:22-47 | the datasets table becomes that of `EnsureDataset`; no other table changes |
| FolderSync.ImageFileNames | src/sync-dataset-from-folders.ts:81-84 | a name is kept iff the listing has a file entry of that name and it is an image file |
| FolderSync.Folders | src/sync-dataset-from-folders.ts:63-66 | an entry is kept iff it is a directory of the listing |
| FolderSync.FolderItems | src/sync-dataset-from-folders.ts:90 | one item per file, tagged with its folder |
| FolderSync.FindByCountryFile | src/sync-dataset-from-folders.ts:93-100 | a found id belongs to a row with that country and file name; none iff no row has them |
| FolderSync.FindByPath | src/sync-dataset-from-folders.ts:105-114 | a found id belongs to a row with that file path; none iff no row has it |
| FolderSync.LinkImage | src/sync-dataset-from-folders.ts:172-192 | linking keeps the tables well formed |
| FolderSync.AbsPath | src/sync-dataset-from-folders.ts:80-102 | the absolute path lies in the folder's directory under the root and ends with the file name |
| FolderSync.NewImageRow | src/sync-dataset-from-folders.ts:122-162 | the inserted row has the given id, `url == file_path ==` the absolute path, the folder as country, the file name, and statuses downloaded/processed; it matches its file |
| FolderSync.SyncStep | src/sync-dataset-from-folders.ts:90-193 | one file keeps the tables well formed; a file found by either lookup leaves images, the id counter and the missing list unchanged; only when both lookups miss is it reported missing and exactly `NewImageRow` under the next id appended, failing (url conflict, the only failure) iff its absolute path is already a url |
| FolderSync.Sync | src/sync-dataset-from-folders.ts:78-195 | the transaction keeps the tables well formed; the only failure is the url conflict |
| FolderSync.GrowsStep | src/sync-dataset-from-folders.ts:117-192 | one file only appends: each new image row is `NewImageRow` of a file reported as missing, under consecutive new ids, and each new link is to this dataset and counted |
| FolderSync.SyncReportsWhatItInserted | src/sync-dataset-from-folders.ts:117-118 | over a whole run, the rows inserted are exactly the `NewImageRow`s of the files reported as missing, in order and under consecutive ids, and `linkedCount` is the number of new links |
| FolderSync.LookupStable | src/sync-dataset-from-folders.ts:93-114 | inserting a row for one file does not change another file's lookup |
| FolderSync.Lookup | src/sync-dataset-from-folders.ts:93-114 | a hit is a non-zero id of a row that matches the country and file name or the absolute path; with non-zero ids, a miss happens iff no row matches either way |
| FolderSync.StepKeepsCovered | src/sync-dataset-from-folders.ts:90-193 | a file already linked stays linked after another file is processed |
| FolderSync.LinkCovers | src/sync-dataset-from-folders.ts:172-192 | after linking, the image is linked to the dataset |
| FolderSync.StepCoversItem | src/sync-dataset-from-folders.ts:90-193 | after its step, a file resolves to a row linked to the dataset |
| FolderSync.SyncCoversEveryFile | src/sync-dataset-from-folders.ts:78-195 | after a successful run every listed file resolves to a row linked to the dataset |
| FolderSync.SyncCoveredIsNoop | src/sync-dataset-from-folders.ts:93-183 | files that are all covered insert nothing and link nothing |
| FolderSync.SyncIdempotent | src/sync-dataset-from-folders.ts:93-183 | a second run over unchanged folders inserts no rows and no links, so `linkedCount == 0` |
| FolderSync.ListingGivesDistinctItems | src/sync-dataset-from-folders.ts:63-84 | a directory listing yields each folder/file pair once |
| FolderSync.SyncAbortsAll | src/sync-dataset-from-folders.ts:78-195 | once the transaction has failed, later files do not change its outcome |
| FolderSync.SyncConcat | src/sync-dataset-from-folders.ts:79-194 | running over two lists of files is running over the first and then the second |
| FolderSync.SyncFolderFiles | src/sync-dataset-from-folders.ts:90-193 | the file loop computes `Sync` over the folder's items, stopping at the first failure |
| FolderSync.SyncTransaction | src/sync-dataset-from-folders.ts:78-195 | the folder loop computes `Sync` over all items |
| FolderSync.SyncDatasetFromFolders | src/sync-dataset-from-folders.ts:54-214 | no root changes nothing; the main dataset is ensured; no folders or a failed transaction leaves images and links unchanged; success commits the tables and reports the counts and missing images |

## Left out

- Express routing, static files and response headers are not modelled, nor the legacy food/other endpoints of `src/simple-classification-ui.ts:35-136`. Neither are `/api/countries` or the training and model-info routes of `src/server.ts`. Responses are datatypes.
- `new URL(src).pathname` in `parseImagePath` (src/simple-classification-ui.ts:310-313) is a function parameter.
- `getUnlabeledImagesPerCountry` is imported by `src/server.ts` but is not part of this model. Its result is a parameter of `LabelApi.BatchClassify`.
- The HTTP stream mechanics of `downloadFile` are reduced to a `FetchOutcome`: status, content type, write error, timeout or request error. Deleting the partial file after a write error is not modelled: the model's raw-file set only gains a file on success.
- The JPEG encoder, image metadata, file sizes, MD5 hashes and file contents are parameters: functions, maps and sets.
- `fs.mkdirSync` of output folders is not modelled. A folder is assumed to exist once it is written to.
- In the prepare scripts, the hard-link-then-copy fallback counts as one copy. A copy that throws after its hash was recorded is not modelled, because the caught error only logs.
- Concurrency is not modelled. `Promise.all` chunks run one item after another in input order, and the batch-classify background job runs before the method returns.
- `Downloader.ImageDownloader.DownloadImagesBatch` and `Classifier.ClassifyImagesBatch` require `concurrency >= 1` and `batchSize >= 1`. With 0 the source loops for ever.
- `LabelApi.BatchClassify` requires a batch size of at least 1 for the same reason.
- Logging, progress output and `RateLimiter.showDetailedStats` are not modelled.
- `RateLimiter.sleep` is not modelled. `WaitAndExecute` chooses the time of the recorded request.
- Floating point is not modelled:
  - `Math.round` in the cover geometry is `floor(x + 0.5)` over reals.
  - `Math.sqrt` and `Math.floor` in the fallback are the exact integer square root of `side² · budget / size`.
  - Probabilities and confidences are reals.
- `Records.Average` is the exact real mean, not a double.
- SQL `LIKE` in `getImageIdFromPath` is read literally, as a suffix match. Its `_`/`%` wildcards and ASCII case-insensitivity are not modelled.
- JavaScript's key order for objects used as dictionaries is modelled as insertion order. Integer-like keys are not moved to the front.
- `Training.PrepareTrainingDataset`: of the errors its `catch` turns into a failure, only the `TypeError` of the grouping loop is modelled. `mkdirSync` and `copyFileSync` errors are not: copying is a set membership test.
- `Training.GetDatasetStats`: `categories[label] = n` for a label folder named `__proto__` is ignored by JavaScript, so that folder's images count in the total but its category is missing, and `isDatasetReady` can answer false for a dataset whose only image folder has that name. The model keeps the key.
- `DatasetPrep.FolderStep`: `stats[country] = n` for a country folder named `__proto__` is ignored by JavaScript, so the logged per-country counts miss it. The model records it, so `DatasetPrep.PreparedReport`'s sum holds for the model's counts, not for the logged ones.
- The inherited names in `JsObject` are the twelve `Object.prototype` properties Node.js gives a plain object. The text of a `TypeError` is engine text, and the model uses Node's.
- `FolderSync.SyncStep` covers only the url conflict among SQLite's failures; the other constraints of the tables do not arise in the model.
- `DatasetPrep.Prep`: in the flat layout two countries could produce the same `country_file` target name. The model treats it like any existing target, skipped and not counted.
- `Strings.ToLowerAscii` lower-cases ASCII letters only. Non-ASCII case folding does not affect the extension tests.
- `DOWNLOAD_CONFIG.retryAttempts` is never used by the source, and there is no retry logic to model.
- `Strings.JoinPath` is plain concatenation with `/`. The normalisation `path.join` does (`.`, `..`, repeated `/`) is not modelled.
- `Strings.ParseInt` reads the magnitude as an unbounded integer. JavaScript loses precision above 2^53 and gives `Infinity` for very long digit runs; neither is modelled.
- `FoodOther.FindImage` reads the `/correct` lookup in link order, while the query's outer table is `images`. The two orders pick different rows only when two linked images of one folder share a file name.

## Findings

| source | as written | input that shows it | evidently intended | confidence | as-written member | corrected member |
|---|---|---|---|---|---|---|
| src/server.ts:734-765 | results of the existence-filtered `imagePaths` are paired with `unlabeledImages[i]` by index | unlabeled images A (file missing) and B (file present): B's prediction is saved with A's image id | pair each result with the image its path was built from | high (not executed) | LabelApi.MisalignedPairing | LabelApi.AlignedPairingLabelsClassifiedImage |
