# fahren-lernen-dumper, media core

A model of the media part of the fahren-lernen dumper, a one-file command-line
program that logs in to the fahren-lernen learning service, saves the question
catalog and downloads every media file it lists. The model covers:

- **configuration** (`Config`): credentials come from the `EMAIL`/`PASSWORD`
  variables, falling back to `--email`/`--password` only when a variable is
  unset (`??` keeps an empty string). A missing email, then a missing password,
  then an unknown non-empty `--quality` stops the program. `--quality`,
  `--media-types` and `--directory` default to `both`, `both` and `./dump`.
  `--media-types` is never validated.
- **selection** (`Catalog`): the manifest's media groups are filtered by the
  quality and media-type preferences (one early `return false` per excluding
  condition). They are then flattened into one download list, each item tagged
  with its group's quality in lower case. The total size is the left fold of the
  sizes.
- **destinations** (`MediaPaths`): an item is stored at
  `<directory>/media/<quality>/<last '/'-segment of its URL>`.
- **sync** (`MediaSync`): the loop over the download list, as an imperative
  method over an abstract filesystem (a map from paths to bytes). An item whose
  destination exists is skipped and counted as done. Otherwise its URL is fetched
  and the digest of the bytes compared with the manifest hash. A mismatch stops
  the whole run. A match writes the file. The method is proved equal to a
  recursive specification `Run`, which returns the result, the ghost log of
  fetched URLs and the progress.
- **end to end** (`Dumper`): resolve, select, total, sync. There are also
  one-item scenarios.
- **progress bar units** (`ProgressBar`): the rounding the bar applies to sizes.

Fetching a URL and computing the MD5/base64 digest are function parameters
(`fetch`, `digest`). The filesystem is a value passed in and returned.

## Model

| member | source | states |
|---|---|---|
| Config.Resolve | index.ts:21-45 | Each fatal error occurs exactly when its condition holds, in the order email, password, quality. The invalid-quality error carries the given flag. On success both credentials are non-empty, each is the variable when set and the flag otherwise, the quality is one of high/low/both or empty, and every preference is its flag or its default. |
| Config.EnvironmentOverridesFlags | index.ts:21-22 | When both variables are set, changing `--email`/`--password` does not change the outcome. |
| Config.MediaTypeNeverRejected | index.ts:34-44 | Whether resolution succeeds does not depend on `--media-types`. |
| Config.AcceptedInputsResolve | index.ts:24-45 | Both credentials given and an accepted or empty quality always resolve. |
| Catalog.FilterGroups | index.ts:106-115 | The kept groups are an order-preserving subsequence of the input. A group is in the result if and only if it is in the input and passes the filter callback. |
| Catalog.FilterKeepsAll | index.ts:107-115 | The filter leaves a list unchanged when every group in it passes. |
| Catalog.FilterIdempotent | index.ts:107-115 | Filtering twice with the same preferences is the same as filtering once. |
| Catalog.FilterAppend | index.ts:107-115 | The filter decides each group on its own, so it distributes over concatenation. |
| Catalog.QualityHighExcludesLow | index.ts:108 | With quality "high" no kept group is tagged "Low". |
| Catalog.QualityLowExcludesHigh | index.ts:109 | With quality "low" no kept group is tagged "High". |
| Catalog.ImageKeepsOnlyImages | index.ts:110-111 | With media type "image" every kept group is a "QuestionImage" group. |
| Catalog.VideoKeepsOnlyVideos | index.ts:112-113 | With media type "video" every kept group is a "QuestionVideo" group. |
| Catalog.QualityAxisOpen | index.ts:108-109 | Any quality other than "high"/"low" (including the empty one) filters exactly like "both". |
| Catalog.MediaTypeAxisOpen | index.ts:110-113 | Any media type other than "image"/"video" (including unvalidated values) filters exactly like "both". |
| Catalog.NoRestrictionKeepsAll | index.ts:107-115 | With neither axis restricted, every group is kept. |
| Catalog.Flatten | index.ts:116-122 | The flattened list has one entry per item of all groups. |
| Catalog.ItemCountAppend | index.ts:116-122 | Item counts add up over concatenated group lists. |
| Catalog.FlattenAppend | index.ts:116-122 | Flattening distributes over concatenation of group lists. |
| Catalog.FlattenAt | index.ts:116-122 | Item j of group i is at position (items of groups before i) + j, tagged with group i's lower-cased quality. |
| Catalog.FlattenOrigin | index.ts:116-122 | Every flattened entry is some group's item tagged with that group's lower-cased quality. |
| Catalog.FoldSizesIsSum | index.ts:123-126 | The left fold of sizes from an accumulator is the accumulator plus the sum of sizes. |
| Catalog.TotalIsSum | index.ts:123-126 | The total download size is the sum of the selected items' sizes. |
| Catalog.SumSizesAppend | index.ts:123-126 | The size sum is additive over concatenation. |
| Catalog.AnnotatedSize | index.ts:117-120 | Tagging keeps every item's size. |
| Catalog.FlattenSize | index.ts:116-126 | The sum of sizes over the flattened list equals the sum over every item of every group. |
| Catalog.SelectMedia | index.ts:106-122 | The selected list has one entry per item of the kept groups. |
| MediaPaths.Split | index.ts:136 | `split('/')` always yields at least one piece. |
| MediaPaths.SplitPiecesSlashFree | index.ts:136 | No piece of a split contains '/'. |
| MediaPaths.JoinSplit | index.ts:136 | Joining the pieces of a split with '/' gives back the input. |
| MediaPaths.JoinLast | index.ts:132-137 | A join of two or more pieces is the join of all but the last, then '/', then the last. |
| MediaPaths.LastSegmentSpec | index.ts:136 | The last piece is slash-free, is a suffix of the URL, and is either the whole URL or preceded by '/'. |
| MediaPaths.LastSegmentUnique | index.ts:136 | Only one text can follow the last '/'. |
| MediaPaths.DestinationShape | index.ts:132-137 | The destination is directory + "/media/" + quality + "/" + the URL's last segment, and its own last segment is the file name. |
| MediaPaths.DestinationDetermines | index.ts:132-137 | In one directory, equal destinations mean equal quality and equal file name. |
| MediaSync.Step | index.ts:138-156 | An item is skipped if and only if its destination exists. It is written if and only if the destination is absent and the digest matches, and then the write puts the fetched bytes at the destination. Otherwise it is a mismatch carrying the id, the expected hash and the differing digest. |
| MediaSync.SyncMedia | index.ts:131-158 | The loop's result, fetch log and progress are exactly the specification run's. On completion the progress equals the total download size. |
| MediaSync.RunAppendAborted | index.ts:147-155 | Once a prefix aborts, the items after it are never reached. |
| MediaSync.RunAppendDone | index.ts:131-158 | After a completed prefix, the run continues on the files that prefix left, and the progress adds up. |
| MediaSync.RunAppendFetched | index.ts:142 | After a completed prefix, the fetch log is the prefix's log followed by the rest's. |
| MediaSync.LaterDuplicateSkipped | index.ts:132-141 | A later item whose destination an earlier item already produced fetches nothing, and the run goes on. |
| MediaSync.RunDoneProgress | index.ts:139-157 | A completed run advances progress by the sum of all sizes. |
| MediaSync.RunKeepsExistingFiles | index.ts:138-141 | Files present before the run are never overwritten. |
| MediaSync.RunWritesOnlyVerified | index.ts:142-156 | Every new file is some item's destination, holds the bytes fetched from that item's URL, and those bytes passed the hash check. |
| MediaSync.RunDoneComplete | index.ts:131-158 | A completed run leaves a file at every item's destination. |
| MediaSync.RunDoneFileCount | index.ts:142-156 | In a completed run each fetch creates exactly one new file. |
| MediaSync.RunFetchesInOrder | index.ts:131-142 | The fetched URLs are a subsequence of the items' URLs, in item order. |
| MediaSync.RunAllPresent | index.ts:138-141 | When every destination exists, the run fetches and writes nothing, and the progress reaches the total. |
| MediaSync.RerunIsNoOp | index.ts:131-158 | Rerunning on the files a completed run left fetches nothing and changes nothing. |
| MediaSync.RunAbortedAt | index.ts:144-155 | An aborted run stopped at one item k. Items before k completed. The files are what they left. Item k's digest differs from its hash, and its destination was not written. Its URL was the last one fetched. |
| MediaSync.AbortedOneLater | index.ts:144-155 | An abort at k in the rest of the list, after a non-aborting first item, is an abort at k + 1 in the whole list. |
| Dumper.DumpMedia | index.ts:21-158 | A configuration error ends the run before anything is fetched. Otherwise the outcome is the run over the selected media with the total fixed beforehand, and on completion the progress equals that total. |
| Dumper.ItemUrlLastSegment | index.ts:136 | The last segment of "https://x/y/a.jpg" is "a.jpg". |
| Dumper.HighImageIsSelected | index.ts:106-122 | A "High" "QuestionImage" group with one item is selected under high/image, and the item is tagged "high". |
| Dumper.HighImageIsWritten | index.ts:131-158 | If that item's digest matches, syncing into an empty directory fetches its URL once, writes `./dump/media/high/a.jpg`, and the progress is its size. |
| Dumper.LowQualitySelectsNothing | index.ts:106-158 | Under quality "low" that catalog selects nothing, and the sync does nothing. |
| ProgressBar.BarUnits | index.ts:129 | Bar units are a multiple of ten, the nearest to size / 10^6, with halves rounded up. |
| ProgressBar.BarOvershootsTotal | index.ts:129-157 | Two items of 5 000 000 are 20 units of increments against a bar total of 10. |

## Findings

| source | as written | input that shows it | evidently intended | confidence | as-written member | corrected member |
|---|---|---|---|---|---|---|
| index.ts:129, 139, 157 | The bar starts at the rounded total, and each item adds its own rounded size. A sum of rounded sizes is not the rounded sum. | Two items of 5 000 000 bytes: each adds 10 units, so 20 in all, against a total of 10. | The bar ends exactly at its total. | medium, not executed | ProgressBar.BarOvershootsTotal | MediaSync.SyncMedia |

The sync model counts progress in raw size units. On those units, a completed
run's progress equals the total (`MediaSync.SyncMedia`, `MediaSync.RunDoneProgress`).

## Left out

- Login, the manifest request and its error path (index.ts:47-80) are network I/O. The manifest is an input value of `Dumper.DumpMedia`.
- Saving the questions and the text lists (index.ts:82-92) is file output with no logic worth a contract. As written, it always writes to `dump/questions.json`, whatever `--directory` says, and the content it writes is a path joined with the JSON text.
- MD5 and base64 are the `digest` parameter, and HTTP fetching is the `fetch` parameter. Both are total functions, so fetch failures, write failures and thrown exceptions are not modelled.
- The progress bar display, spinner, colours and messages are not modelled. The end results are `SyncResult`/`DumpOutcome` values instead of `process.exit(1)` and "Done.".
- MediaSync.SyncMedia: its progress is in raw size units, not the bar's rounded units (see Findings); `ProgressBar` models the rounding on its own.
- MediaPaths.Destination: `path.join` normalisation (collapsing `./`, `..` and repeated separators) is not modelled. The path is a plain `/`-join, so the default directory gives `./dump/media/...` rather than `dump/media/...`.
- Catalog.Lower: JavaScript's `toLowerCase` uses Unicode case mapping; the model lowers ASCII letters only.
- Manifest fields are typed (strings and integer sizes); the source treats the JSON as untyped and would also accept other values.
- The `await`s are sequential in the source; there is no concurrency to model.
