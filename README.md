# FetchGrxml harvesting core, modelled in Dafny

FetchGrxml harvests `.grxml` grammar files from a remote file server. It
works per business unit (BU). For each BU it walks the BU's remote
directory tree from `/` and skips folders that an exclusion list names.
Every `.grxml` file it finds is downloaded to `<output>/BUS<n>/...`, and
it counts the downloads that succeed. The configuration comes from a few
line-oriented text files and from the command line.

This project models that core and proves properties of the model:

- `ExclusionMatcher.dfy` covers the exclusion test. A pattern without `*` names a folder and everything below it. A pattern with `*` is an anchored glob. The regular expression is replaced by a recursive `Glob`, and `Glob` is proved equal to a reference meaning: the pattern with each `*` replaced by some string.
- `ConfigHelper.dfy` covers the readers over the lines of their files:
  - the quote-aware CSV splitter, which is a loop proved against a fold over the line;
  - the cluster-to-BU map builder, which is a loop over lines that mutates a map, proved against a fold;
  - the exclusion-list filter;
  - the endpoint lookup in a cluster properties file, with its two error cases.
- `FileScanner.dfy` covers the depth-first scan. The remote side is a tree in `FileServer.dfy`: each folder carries the outcome of listing it, which is a failure, a null result or entries. `ScanDirectory` states which paths a scan finds and which listings it requests. The `Scanner` class walks the tree the way the source does, appending to a shared list, and is proved to agree with it.
- `FileDownloader.dfy` covers the local path layout, directory creation on a set of existing directories, the transfers and the success count. Creating a missing directory may fail. A file whose directory is neither there nor creatable gets no transfer and counts as not downloaded.
- `WorkflowOrchestrator.dfy` covers the loop over BUs. Each BU is scanned, exactly the found files are downloaded, and the counts are summed.
- `AppConfig.dfy` covers the mapping from positional arguments to configuration fields.
- `Text.dfy` holds the .NET string operations these rely on: `Trim`, `TrimStart(c)`, `Split`, `Replace`, `IndexOf`, `int.TryParse`, `int.ToString` and `Path.Combine`.
- `Wrappers.dfy` and `Seqs.dfy` are small utility modules.

The file server client is a `Client` object. Its listing and transfer
outcomes are fixed functions, and it keeps ghost logs of every listing
request and every transfer request in order. Properties such as "an
excluded folder is never listed" and "one transfer per file" are stated
over these logs.

Points of behaviour worth knowing:

- The scan returns an ordered list in depth-first pre-order. Duplicates are kept.
- The request scheduler only bounds concurrency to 2. It has no rolling rate window.
- `TrimStart('/')` strips every leading `/` of a remote path, not just one.
- The orchestrator writes below the output directory it is given. Any per-cluster subdirectory above `BUS{n}` is chosen by the program's entry point, which is not part of this model.

## Model

| member | source | states |
|---|---|---|
| ExclusionMatcher.ShouldExclude | FetchGrxml/Config/ExclusionMatcher.cs:10-22 | An empty pattern list excludes nothing. Otherwise a path is excluded iff at least one pattern of the list matches it. |
| ExclusionMatcher.MatchesExactOrPrefix | FetchGrxml/Config/ExclusionMatcher.cs:44-49 | A literal pattern matches iff it is a prefix of the path and the path either ends there or continues with `/`. |
| ExclusionMatcher.MatchesPattern | FetchGrxml/Config/ExclusionMatcher.cs:24-35 | Dispatches on whether the pattern holds `*`: a glob match, otherwise the literal folder test. Its meaning is stated by `ShouldExclude`, `GlobMeaning` and `LiteralPattern`. |
| ExclusionMatcher.MatchesWildcard | FetchGrxml/Config/ExclusionMatcher.cs:37-42 | The anchored regular expression built from the escaped pattern with `*` turned into `.*`. It is the recursive `Glob`, characterised by `GlobMeaning`. |
| ExclusionMatcher.Glob | FetchGrxml/Config/ExclusionMatcher.cs:40 | Matches `^…$` with only `*` special. Its meaning is stated by `GlobComplete`, `Fills` and `GlobMeaning`. |
| ExclusionMatcher.Fills | FetchGrxml/Config/ExclusionMatcher.cs:37-42 | From any glob match it constructs the strings the stars consume. Putting them in place of the stars gives back the path, so `Glob` accepts only expansions of the pattern. |
| ExclusionMatcher.GlobComplete | FetchGrxml/Config/ExclusionMatcher.cs:37-42 | Every expansion of the pattern (each `*` replaced by any string, `/` included) matches it. |
| ExclusionMatcher.GlobMeaning | FetchGrxml/Config/ExclusionMatcher.cs:37-42 | Both directions: a path matches a wildcard pattern iff it is the pattern with each `*` replaced by some string. The match is anchored at both ends, and every other character stands for itself. |
| ExclusionMatcher.GlobLiteral | FetchGrxml/Config/ExclusionMatcher.cs:40 | A glob without `*` matches only its own text, because escaped characters match literally. |
| ExclusionMatcher.GlobLiteralHead | FetchGrxml/Config/ExclusionMatcher.cs:40 | A star-free head of a glob must be a prefix of the path, and the rest of the glob must match the rest of the path (the `^` anchor). |
| ExclusionMatcher.GlobLeadingStar | FetchGrxml/Config/ExclusionMatcher.cs:40 | A leading `*` matches iff the rest of the glob matches some suffix of the path. |
| ExclusionMatcher.WildcardBetween | FetchGrxml/Config/ExclusionMatcher.cs:37-42 | With star-free `a` and `b`, `a*b` matches iff the path starts with `a`, ends with `b` and is long enough for both. |
| ExclusionMatcher.WildcardAtEnd | FetchGrxml/Config/ExclusionMatcher.cs:37-42 | With star-free `a`, `a*` matches exactly the paths that start with `a`. |
| ExclusionMatcher.WildcardAround | FetchGrxml/Config/ExclusionMatcher.cs:37-42 | With star-free `m`, `*m*` matches exactly the paths in which `m` occurs. |
| ExclusionMatcher.LiteralPattern | FetchGrxml/Config/ExclusionMatcher.cs:44-49 | A literal pattern `q` excludes `p` iff `p == q` or `p` starts with `q + "/"`. |
| ExclusionMatcher.LiteralDescendant | FetchGrxml/Config/ExclusionMatcher.cs:47-48 | A path excluded by a literal pattern stays excluded with `"/" + child` appended, for any child. |
| ExclusionMatcher.PatternOrderIrrelevant | FetchGrxml/Config/ExclusionMatcher.cs:15-21 | Two pattern lists holding the same patterns give the same verdict, whatever their order and repetitions. |
| ExclusionMatcher.LogsPattern | FetchGrxml.Tests/ExclusionMatcherTests.cs:7-16 | `*/logs/*` excludes exactly the paths in which `/logs/` occurs. |
| ExclusionMatcher.LogsPatternMatches | FetchGrxml.Tests/ExclusionMatcherTests.cs:12-13 | `*/logs/*` excludes `/app/logs/debug` and `/system/logs/error.log`. |
| ExclusionMatcher.LogsPatternRejects | FetchGrxml.Tests/ExclusionMatcherTests.cs:14-15 | `*/logs/*` excludes neither `/app/data/logs` nor `/logs`. |
| ExclusionMatcher.LiteralPatternBelow | FetchGrxml.Tests/ExclusionMatcherTests.cs:18-26 | `/temp` excludes `/temp/subfolder`. |
| ExclusionMatcher.LiteralPatternSibling | FetchGrxml.Tests/ExclusionMatcherTests.cs:18-26 | `/temp` does not exclude `/temporary`. |
| ExclusionMatcher.PrefixWildcard | FetchGrxml.Tests/ExclusionMatcherTests.cs:57-66 | `/temp*` excludes `/temporary` but not `/data/temp`. |
| ConfigHelper.SplitCsvLine | FetchGrxml/Config/ConfigHelper.cs:49-76 | The character loop returns the fold `CsvFields`. There is always one field more than the number of commas outside quotes. No field holds a `"`. Joining the fields with `,` gives back the line with its quotes removed. |
| ConfigHelper.CsvFields | FetchGrxml/Config/ConfigHelper.cs:49-76 | The fields of a line as the quote-toggling character fold gives them. Its meaning is stated by `CsvScanInvariant` and `SplitCsvLine`. |
| ConfigHelper.CsvScanShape | FetchGrxml/Config/ConfigHelper.cs:55-72 | The loop invariant: after any prefix, the quote flag is set iff an odd number of `"` has been read, the count of finished fields is the count of unquoted commas, and no field holds a quote. |
| ConfigHelper.CsvScanJoin | FetchGrxml/Config/ConfigHelper.cs:55-75 | Joining the splitter's fields with `,` is the input with every `"` removed. |
| ConfigHelper.CsvScanInvariant | FetchGrxml/Config/ConfigHelper.cs:55-75 | The two properties above together, as the method uses them. |
| ConfigHelper.ClusterNamesTrimmed | FetchGrxml/Config/ConfigHelper.cs:29-32 | Every cluster name kept is non-empty and already trimmed. |
| ConfigHelper.ClusterNamesFromPieces | FetchGrxml/Config/ConfigHelper.cs:29-32 | Every cluster name kept is the trimmed text of one of the comma-separated pieces. |
| ConfigHelper.ClusterNamesComplete | FetchGrxml/Config/ConfigHelper.cs:29-32 | Every piece that is not blank contributes its trimmed text. |
| ConfigHelper.ClusterNamesMeaning | FetchGrxml/Config/ConfigHelper.cs:29-32 | The cluster names are exactly the trimmed, non-blank pieces. |
| ConfigHelper.ClusterNames | FetchGrxml/Config/ConfigHelper.cs:29-32 | The `Select(Trim).Where(not blank)` over the comma pieces. Its meaning is stated by `ClusterNamesMeaning`. |
| ConfigHelper.ClusterField | FetchGrxml/Config/ConfigHelper.cs:26-32 | The cluster names of the second field: `Trim('"')`, `Split(',')`, then the trimmed non-blank pieces. Stated by `ClusterFieldNames` and `QuoteTrimIsNoOp`. |
| ConfigHelper.ParseBuLine | FetchGrxml/Config/ConfigHelper.cs:11-32 | One line's BU and clusters, or nothing for a blank, `#`, short or non-numeric line. Stated by `ParseBuLineNames` and `SkippedLineIgnored`. |
| ConfigHelper.AddBusinessUnit | FetchGrxml/Config/ConfigHelper.cs:34-41 | Adds the BU under each cluster of a line. Stated by `AddBusinessUnitMeaning`. |
| ConfigHelper.FoldEntries | FetchGrxml/Config/ConfigHelper.cs:9-44 | The map built line by line. Stated by `FoldEntriesMeaning`. |
| ConfigHelper.BusinessUnits | FetchGrxml/Config/ConfigHelper.cs:5-47 | The cluster-to-BU map of a file's lines. Stated by `BusinessUnitsMeaning`, and computed by `ReadBusinessUnits`. |
| ConfigHelper.QuoteTrimIsNoOp | FetchGrxml/Config/ConfigHelper.cs:26 | The `Trim('"')` on the cluster field never removes anything, because no field returned by the splitter holds a quote. |
| ConfigHelper.ClusterFieldNames | FetchGrxml/Config/ConfigHelper.cs:26-32 | The names taken from a cluster field are trimmed, non-empty, and free of commas and quotes. |
| ConfigHelper.ParseBuLineNames | FetchGrxml/Config/ConfigHelper.cs:11-32 | An accepted line yields a BU number in the 32-bit range and well-formed cluster names. |
| ConfigHelper.PieceHasNoQuote | FetchGrxml/Config/ConfigHelper.cs:29 | A piece of a quote-free text split on `,` holds no quote. |
| ConfigHelper.AddBusinessUnitMeaning | FetchGrxml/Config/ConfigHelper.cs:34-41 | Adding a BU under a list of clusters creates exactly the listed keys that are missing. It adds the BU to those clusters' sets and to no other set. |
| ConfigHelper.ListedInSnoc | FetchGrxml/Config/ConfigHelper.cs:9-44 | A pair is listed by the lines plus one more iff it is listed by the earlier lines or by the new one. |
| ConfigHelper.FoldEntriesMeaning | FetchGrxml/Config/ConfigHelper.cs:9-44 | The map holds exactly the (cluster, BU) pairs some line lists. A key exists only if some line lists it. Repeated pairs collapse into one. |
| ConfigHelper.SamePairsSameMap | FetchGrxml/Config/ConfigHelper.cs:7 | Two cluster-to-BU maps with the same keys and the same pairs are equal. |
| ConfigHelper.SameListingsSameMap | FetchGrxml/Config/ConfigHelper.cs:9-44 | Line sequences that list the same pairs build the same map, whatever their order or repetitions. |
| ConfigHelper.BusinessUnitsMeaning | FetchGrxml/Config/ConfigHelper.cs:5-47 | Both directions: the result records BU `b` under cluster `c` iff some line lists `b` under `c`. Every key is a trimmed, non-empty name with a non-empty set of 32-bit BU numbers. |
| ConfigHelper.ParseBuLines | FetchGrxml/Config/ConfigHelper.cs:9-11 | There is one entry per line, and it is that line's parse. |
| ConfigHelper.ParseBuLinesAppend | FetchGrxml/Config/ConfigHelper.cs:9 | Lines are parsed independently of one another. |
| ConfigHelper.AddBusinessUnitSnoc | FetchGrxml/Config/ConfigHelper.cs:34-41 | One more cluster adds the BU to that cluster's set, creating the set if needed. |
| ConfigHelper.AddToClusterSet | FetchGrxml/Config/ConfigHelper.cs:36-40 | Creating an empty set when the key is missing and then adding to it is the same as adding to the possibly missing set. |
| ConfigHelper.FoldSnoc | FetchGrxml/Config/ConfigHelper.cs:9-44 | One more line changes the map only by what that line lists. |
| ConfigHelper.FoldSkipsNone | FetchGrxml/Config/ConfigHelper.cs:14-24 | A skipped line anywhere in the file leaves the map unchanged. |
| ConfigHelper.SkippedLineIgnored | FetchGrxml/Config/ConfigHelper.cs:14-24 | Blank lines, `#` comments, lines with fewer than two fields and lines whose first field is not an `int` contribute nothing: the map is the one built without them. |
| ConfigHelper.BusinessUnitsSnoc | FetchGrxml/Config/ConfigHelper.cs:9-44 | The map after one more line is the earlier map updated by that line. |
| ConfigHelper.ReadBusinessUnits | FetchGrxml/Config/ConfigHelper.cs:5-47 | The mutating loop over lines builds exactly `BusinessUnits(lines)`, whose meaning `BusinessUnitsMeaning` states. |
| ConfigHelper.AddToClusters | FetchGrxml/Config/ConfigHelper.cs:34-41 | The inner loop over clusters adds the BU under every listed cluster. |
| ConfigHelper.PatternLines | FetchGrxml/Config/ConfigHelper.cs:110-113 | It keeps at most as many lines as it is given. Each one kept is trimmed, non-empty and does not start with `#`. |
| ConfigHelper.ReadExclusionPatterns | FetchGrxml/Config/ConfigHelper.cs:104-117 | A missing or empty path, or a file that does not exist, gives no patterns. |
| ConfigHelper.PatternLinesAppend | FetchGrxml/Config/ConfigHelper.cs:110-113 | Filtering respects concatenation, so kept lines stay in their original order. |
| ConfigHelper.PatternLineSingle | FetchGrxml/Config/ConfigHelper.cs:111-112 | A single line is kept, trimmed, iff its trimmed text is neither blank nor a `#` comment. |
| ConfigHelper.KeyHasNoEquals | FetchGrxml/Config/ConfigHelper.cs:91-94 | In a line that starts with the endpoint key, the first `=` is past position 0. |
| ConfigHelper.ReadClusterEndpoint | FetchGrxml/Config/ConfigHelper.cs:78-102 | A missing file gives `FileNotFound` with the properties path. Otherwise the result is the trimmed text after the first `=` of the first line that starts with the key and holds an `=`. If there is no such line, the result is `InvalidData`. |
| FileScanner.BuildFullPathShape | FetchGrxml/Core/FileScanner.cs:73-83 | The joined path is the parent with trailing `/` removed (empty for the root), then exactly one `/`, then the name with leading `/` removed. |
| FileScanner.BuildFullPathRooted | FetchGrxml/Core/FileScanner.cs:73-83 | Joining onto a path that starts with `/` gives a non-empty path that starts with `/`. |
| FileScanner.BuildFullPath | FetchGrxml/Core/FileScanner.cs:73-83 | Joins a listed name onto its parent path. Stated by `BuildFullPathShape` and `BuildFullPathRooted`. |
| FileScanner.IsGrxmlFile | FetchGrxml/Core/FileScanner.cs:85-88 | A case-insensitive `.grxml` suffix test. |
| FileScanner.ScanDirectory | FetchGrxml/Core/FileScanner.cs:28-60 | The paths found and the listings requested by a scan from one directory. Stated by `ScanDirectoryOk`, `ScanDirectoryUnfold` and `FailedFolderIsolated`. |
| FileScanner.ScanEntries | FetchGrxml/Core/FileScanner.cs:42-54 | The loop over one listing's entries. Stated by `ScanEntriesOk`, `ScanEntriesSnoc` and `ScanEntriesAppend`. |
| FileScanner.ScanEntry | FetchGrxml/Core/FileScanner.cs:44-53 | One entry: a file is kept when it is `.grxml`, a folder is visited. Stated by `ScanEntryOk` and `SingleFileFound`. |
| FileScanner.VisitFolder | FetchGrxml/Core/FileScanner.cs:62-71 | A folder is skipped when excluded and scanned otherwise. Stated by `VisitFolderOk` and `ExcludedFolderSkipped`. |
| FileScanner.ScanEntriesSnoc | FetchGrxml/Core/FileScanner.cs:42-54 | One more entry appends its contribution after those of the entries before it. |
| FileScanner.ScanDirectoryUnfold | FetchGrxml/Core/FileScanner.cs:33-40 | A scan requests its own listing first. A failed or null listing then contributes nothing more. |
| FileScanner.ExcludedFolderSkipped | FetchGrxml/Core/FileScanner.cs:64-68 | An excluded folder costs no listing request and yields no path, whatever lies beneath it. |
| FileScanner.ThenOk | FetchGrxml/Core/FileScanner.cs:42-54 | Concatenating two well-formed scan results gives a well-formed result. |
| FileScanner.ScanDirectoryOk | FetchGrxml/Core/FileScanner.cs:28-71 | From a rooted path, every found path is a non-empty `.grxml` path starting with `/`. The first request is for the scan's own path. Every later request is for this BU and for a folder that no exclusion pattern matches. |
| FileScanner.ScanEntriesOk | FetchGrxml/Core/FileScanner.cs:42-54 | The same guarantees for the loop over one listing's entries. |
| FileScanner.ScanEntryOk | FetchGrxml/Core/FileScanner.cs:44-53 | The same guarantees for one entry. |
| FileScanner.VisitFolderOk | FetchGrxml/Core/FileScanner.cs:62-71 | The same guarantees for a folder visit, excluded or not. |
| FileScanner.NoRequestBelowLiteralExclusion | FetchGrxml/Core/FileScanner.cs:64-70 | In a scan from `/`, no request after the first names a literal pattern's folder or any path below it. |
| FileScanner.ThenAssociative | FetchGrxml/Core/FileScanner.cs:42-54 | Accumulating results is associative. |
| FileScanner.ScanEntriesAppend | FetchGrxml/Core/FileScanner.cs:42-54 | Scanning entries in two parts gives the parts' results in order: depth-first pre-order following the listing order, with no deduplication. |
| FileScanner.FailedFolderIsolated | FetchGrxml/Core/FileScanner.cs:28-60 | A folder whose listing fails or is null costs its siblings nothing. The entries before and after it contribute exactly what they would alone, and the folder adds only its own listing request. |
| FileScanner.FailedFolderAlone | FetchGrxml/Core/FileScanner.cs:39-40 | A folder whose listing fails or is null yields no path and at most its own request. |
| FileScanner.ExcludedFolderExample | FetchGrxml.Tests/FileScannerTests.cs:73-111 | Pattern `/temp`, with folders `temp` and `data/file.grxml` at the root, finds `/data/file.grxml` and lists only `/` and `/data`. |
| FileScanner.ExampleTempSkipped | FetchGrxml.Tests/FileScannerTests.cs:73-111 | In that example, `temp` contributes nothing. |
| FileScanner.ExampleDataScanned | FetchGrxml.Tests/FileScannerTests.cs:73-111 | In that example, `data` is listed and contributes its one file. |
| FileScanner.ExampleDataKept | FetchGrxml.Tests/FileScannerTests.cs:73-111 | `/temp` does not exclude `/data`. |
| FileScanner.SingleFileFound | FetchGrxml/Core/FileScanner.cs:50-53 | A listing with one `.grxml` file yields that file's full path and no request. |
| FileScanner.PathList.constructor | FetchGrxml/Core/FileScanner.cs:23 | The accumulator starts empty. |
| FileScanner.PathList.Add | FetchGrxml/Core/FileScanner.cs:52 | Appends one path at the end. |
| FileScanner.Scanner.constructor | FetchGrxml/Core/FileScanner.cs:14-19 | Keeps the client and the exclusion patterns. |
| FileScanner.Scanner.ScanForGrxmlFiles | FetchGrxml/Core/FileScanner.cs:21-26 | Returns exactly the paths `ScanDirectory` finds, in order. It logs exactly the listing requests `ScanDirectory` makes and issues no transfer. |
| FileScanner.Scanner.ScanDirectoryRecursive | FetchGrxml/Core/FileScanner.cs:28-60 | Appends the scan's found paths to the shared accumulator, keeps what was already in it, and logs exactly the scan's listing requests. |
| FileScanner.Scanner.ProcessFolder | FetchGrxml/Core/FileScanner.cs:62-71 | Does nothing for an excluded folder. Otherwise it scans the folder as above. |
| FileServer.Client.GetDirectoryListing | FetchGrxml/Core/FileScanner.cs:33-37 | Returns the directory's listing outcome and logs one listing request. |
| FileServer.Client.GetFileFromServer | FetchGrxml/Core/FileDownloader.cs:40-41 | Returns the file's transfer outcome and logs one transfer request. |
| FileDownloader.IntToStringEndsInDigit | FetchGrxml/Core/FileDownloader.cs:24 | `BUS{n}` ends in a digit, so it is never separator-terminated. |
| FileDownloader.BuOutputDirectoryLayout | FetchGrxml/Core/FileDownloader.cs:24 | The BU directory is the output directory, one separator, then `BUS` and the BU number. |
| FileDownloader.BuOutputDirectory | FetchGrxml/Core/FileDownloader.cs:24 | `Path.Combine(output, "BUS{n}")`. Stated by `BuOutputDirectoryLayout`. |
| FileDownloader.BuildLocalPath | FetchGrxml/Core/FileDownloader.cs:60-63 | The mirrored local path of a remote file. Stated by `LocalPathLayout` and `LocalPathInjective`. |
| FileDownloader.LocalPathLayout | FetchGrxml/Core/FileDownloader.cs:60-63 | The local path is the output directory, one separator, then the remote path without leading `/` and with `/` turned into the separator. |
| FileDownloader.DownloadLayout | FetchGrxml/Core/FileDownloader.cs:22-63 | The complete layout is output directory, `BUS{n}`, then the mirrored remote path. |
| FileDownloader.LocalPathInjective | FetchGrxml/Core/FileDownloader.cs:60-63 | Two remote paths map to the same local file only if they agree after their leading `/` are removed. |
| FileDownloader.ReplaceCharChild | FetchGrxml/Core/FileDownloader.cs:62 | Replacing `/` in `folders/name` replaces it in `folders` and at the join. |
| FileDownloader.LocalDirectoryLayout | FetchGrxml.Tests/FileDownloaderTests.cs:62-78 | The directory created for `/folders/name` is `BUS{n}` below the output directory, followed by the folders joined by the separator. |
| FileDownloader.LastSeparator | FetchGrxml/Core/FileDownloader.cs:67 | Finds the last separator. `None` means there is no separator at all. |
| FileDownloader.DirectoryName | FetchGrxml/Core/FileDownloader.cs:67 | The directory name is a prefix of the path and shorter than any non-empty path. |
| FileDownloader.DirectoryNameOfChild | FetchGrxml/Core/FileDownloader.cs:67 | The directory of `dir + sep + name` is `dir` when the name holds no separator. |
| FileDownloader.EnsureDirectory | FetchGrxml/Core/FileDownloader.cs:65-72 | Afterwards the file's directory is recorded iff it was recorded before or it is non-empty and creatable. No other directory is recorded, and none is removed. |
| FileDownloader.EnsureDirectoryIdempotent | FetchGrxml/Core/FileDownloader.cs:65-72 | Ensuring the same directory twice is the same as ensuring it once. |
| FileDownloader.Placeable | FetchGrxml/Core/FileDownloader.cs:35-41 | The file's directory is there for the transfer: it is empty, it exists, or creating it does not throw. |
| FileDownloader.EnsureDirectoryPlaces | FetchGrxml/Core/FileDownloader.cs:65-72 | After ensuring, the file's directory is present (or empty) iff `Placeable` held before. |
| FileDownloader.EnsureAll | FetchGrxml/Core/FileDownloader.cs:26-27 | The directories after ensuring each file's directory in turn. Stated by `EnsureAllMeaning`. |
| FileDownloader.NamedBySnoc | FetchGrxml/Core/FileDownloader.cs:26-27 | Some path of the list plus one more lies in `d` iff some earlier path does or the new one does. |
| FileDownloader.EnsureAllMeaning | FetchGrxml/Core/FileDownloader.cs:26-27 | Both directions: after the downloads, a directory is recorded iff it was recorded before, or it is the non-empty, creatable parent of some local path. |
| FileDownloader.PlaceableAfterAll | FetchGrxml/Core/FileDownloader.cs:26-29 | Whether a file can be placed does not depend on which files were placed before it. So the concurrent downloads can be taken in any order. |
| FileDownloader.EnsureAllSnoc | FetchGrxml/Core/FileDownloader.cs:26-27 | One more file ensures one more directory. |
| FileDownloader.EnsureAllAppend | FetchGrxml/Core/FileDownloader.cs:26-27 | Ensuring the directories of two lists one after the other is the same as ensuring those of their concatenation. |
| FileDownloader.LocalDisk.EnsureDirectoryExists | FetchGrxml/Core/FileDownloader.cs:65-72 | Creates the file's directory unless its name is empty or it already exists. It reports failure exactly when the directory is missing and cannot be created, and then changes nothing. |
| FileDownloader.CountTrue | FetchGrxml/Core/FileDownloader.cs:30 | The count lies between 0 and the number of results. It equals the number of results iff all are true, and it is 0 iff none is. |
| FileDownloader.CountTrueMultiplicity | FetchGrxml/Core/FileDownloader.cs:29-30 | The count is the multiplicity of `true` among the gathered results. |
| FileDownloader.CountTruePermutation | FetchGrxml/Core/FileDownloader.cs:29-30 | The count does not depend on the order in which results are gathered. |
| FileDownloader.CountTrueAppend | FetchGrxml/Core/FileDownloader.cs:30 | Counting two batches and adding gives the count of both. |
| FileDownloader.Outcomes | FetchGrxml/Core/FileDownloader.cs:26-27 | There is one result per file, in list order. A result is true iff the file's directory can be placed and its transfer completes with `Success`. |
| FileDownloader.SuccessCount | FetchGrxml/Core/FileDownloader.cs:22-31 | The number of true per-file results. Stated by `SuccessCountBounds` and `SuccessCountAppend`. |
| FileDownloader.SuccessCountBounds | FetchGrxml/Core/FileDownloader.cs:22-58 | 0 ≤ count ≤ the number of files. The count equals the number of files iff every file's directory can be placed and every transfer succeeds. It is 0 iff no file gets both. |
| FileDownloader.OutcomesAppend | FetchGrxml/Core/FileDownloader.cs:26-27 | Results for two lists concatenate. |
| FileDownloader.SuccessCountAppend | FetchGrxml/Core/FileDownloader.cs:22-31 | The count over two lists is the sum of their counts. |
| FileDownloader.SomeFailuresExample | FetchGrxml.Tests/FileDownloaderTests.cs:39-60 | Three files where the second is `FileNotFound`, all directories creatable, give a count of 2. |
| FileDownloader.AllCreatableDownloads | FetchGrxml/Core/FileDownloader.cs:35-51 | When every directory is creatable, a file is downloaded iff its transfer succeeds. |
| FileDownloader.BlockedDirectoryExample | FetchGrxml/Core/FileDownloader.cs:53-57 | A file whose directory is missing and not creatable counts 0, whatever the server would answer. |
| FileDownloader.LocalPaths | FetchGrxml/Core/FileDownloader.cs:37 | There is one local path per file, in order. |
| FileDownloader.Transfers | FetchGrxml/Core/FileDownloader.cs:26-41 | At most one transfer per list entry, duplicates included, in list order. An entry is transferred iff its directory can be placed. |
| FileDownloader.TransfersSnoc | FetchGrxml/Core/FileDownloader.cs:35-41 | One more file adds its transfer iff its directory can be placed. |
| FileDownloader.TransfersAllPlaceable | FetchGrxml/Core/FileDownloader.cs:26-41 | When every directory can be placed, there is exactly one transfer per file, in order, each to the file's local path. |
| FileDownloader.TransfersNonePlaceable | FetchGrxml/Core/FileDownloader.cs:35-41 | When no directory can be placed, nothing is transferred. |
| FileDownloader.TransfersLandInDirectories | FetchGrxml/Core/FileDownloader.cs:37-41 | Every transfer is for this BU, to the local path of its remote file, and into a directory that exists after the downloads (or an empty one). |
| FileDownloader.TransfersAfterAll | FetchGrxml/Core/FileDownloader.cs:26-29 | Directories created for other files do not change the transfers. |
| FileDownloader.OutcomesAfterAll | FetchGrxml/Core/FileDownloader.cs:26-29 | Directories created for other files do not change the per-file results. |
| FileDownloader.Downloader.constructor | FetchGrxml/Core/FileDownloader.cs:15-20 | Keeps the client, the disk and the output directory. |
| FileDownloader.Downloader.DownloadFiles | FetchGrxml/Core/FileDownloader.cs:22-31 | Returns `SuccessCount`, which `SuccessCountBounds` characterises. It issues exactly `Transfers` into `BUS{n}`, one per placeable file, and no listing. It leaves the directory set as `EnsureAll` (see `EnsureAllMeaning`) says. An empty list gives 0 and no transfer. |
| FileDownloader.Downloader.DownloadSingleFile | FetchGrxml/Core/FileDownloader.cs:33-58 | Ensures the local directory first. When that fails it returns false with no transfer. Otherwise it makes one logged transfer and returns true iff the transfer completed with `Success`. Any other code or a throw gives false, and nothing propagates. |
| WorkflowOrchestrator.Downloaded | FetchGrxml/Core/WorkflowOrchestrator.cs:41-60 | A BU downloads at most as many files as its scan found, and none when the scan found none. |
| WorkflowOrchestrator.ScanOf | FetchGrxml/Core/WorkflowOrchestrator.cs:47 | The scan of a BU from `/`. Stated by `FileScanner.ScanDirectoryOk`. |
| WorkflowOrchestrator.Total | FetchGrxml/Core/WorkflowOrchestrator.cs:26-39 | The sum, in BU order, of what each BU downloads. Stated by `TotalAppend`, `TotalAtMostDiscovered` and `TotalWhenAllSucceed`. |
| WorkflowOrchestrator.DownloadsAfterEarlierBus | FetchGrxml/Core/WorkflowOrchestrator.cs:32-36 | Directories created for earlier BUs change neither what a later BU downloads nor its transfers. |
| WorkflowOrchestrator.TotalAppend | FetchGrxml/Core/WorkflowOrchestrator.cs:30-38 | The total over two lists of BUs is the sum of their totals. |
| WorkflowOrchestrator.TotalAtMostDiscovered | FetchGrxml/Core/WorkflowOrchestrator.cs:47-53 | The total is at most the number of files the scans found. |
| WorkflowOrchestrator.TotalWhenAllSucceed | FetchGrxml/Core/WorkflowOrchestrator.cs:30-53 | When every directory is creatable and every transfer succeeds, the total is the number of files found. |
| WorkflowOrchestrator.AllTransfersWhenCreatable | FetchGrxml/Core/WorkflowOrchestrator.cs:30-53 | When every directory is creatable, the run issues one transfer per file found. |
| WorkflowOrchestrator.ListingsAppend | FetchGrxml/Core/WorkflowOrchestrator.cs:32-36 | The listing log over two lists of BUs is the two logs in order. |
| WorkflowOrchestrator.ListingsInBuOrder | FetchGrxml/Core/WorkflowOrchestrator.cs:32-36 | BUs are processed one at a time, in the given order. The listing log splits into consecutive blocks, and block `i` starts with BU `i`'s request for `/` and holds only that BU's requests. |
| WorkflowOrchestrator.FoldsSnoc | FetchGrxml/Core/WorkflowOrchestrator.cs:32-36 | One more BU appends its count, listings, transfers and local paths. |
| WorkflowOrchestrator.Orchestrator.constructor | FetchGrxml/Core/WorkflowOrchestrator.cs:15-24 | Keeps the client, the output directory and the exclusion patterns. |
| WorkflowOrchestrator.Orchestrator.ProcessBusinessUnits | FetchGrxml/Core/WorkflowOrchestrator.cs:26-39 | Returns `Total`, the sum of each BU's downloads in the given order (0 for no BUs). It logs each BU's listings in BU order, issues each BU's transfers, and creates their directories. |
| WorkflowOrchestrator.Orchestrator.ProcessSingleBU | FetchGrxml/Core/WorkflowOrchestrator.cs:41-60 | Scans the BU once from `/` and hands exactly the found list to the downloader. Its result is `Downloaded`. |
| AppConfig.DefaultOutputDirectory | FetchGrxml/Config/AppConfig.cs:20 | The default is `.`, a separator, then `output`. |
| AppConfig.FromArgs | FetchGrxml/Config/AppConfig.cs:13-22 | The configuration read from positional arguments. Stated by `FromArgsFields` and `ArgsRoundTrip`. |
| AppConfig.FromArgsFields | FetchGrxml/Config/AppConfig.cs:13-22 | The first two arguments are the two paths. The exclusion path is set iff a third argument is given. The output directory is the fourth argument when given, and the default otherwise. |
| AppConfig.ExtraArgsIgnored | FetchGrxml/Config/AppConfig.cs:13-22 | Arguments after the fourth are ignored. |
| AppConfig.ToArgs | FetchGrxml/Config/AppConfig.cs:13-22 | The argument list written for a configuration has 2 to 4 entries. |
| AppConfig.FromArgsRepresentable | FetchGrxml/Config/AppConfig.cs:19-20 | Every parsed configuration names an exclusion path or uses the default output directory, because the output directory comes after the exclusion path. |
| AppConfig.ArgsRoundTrip | FetchGrxml/Config/AppConfig.cs:13-22 | Writing a representable configuration as arguments and parsing them gives it back. |
| AppConfig.ArgsCanonical | FetchGrxml/Config/AppConfig.cs:13-22 | Parsing 2 to 4 arguments and writing them back gives the same list, unless the fourth argument spells out the default. |
| Text.TrimStart | FetchGrxml/Config/ConfigHelper.cs:11 | The result is no longer than the input and does not start with white space. |
| Text.TrimEnd | FetchGrxml/Config/ConfigHelper.cs:11 | The result is no longer than the input and does not end with white space. |
| Text.Trim | FetchGrxml/Config/ConfigHelper.cs:11 | The result is no longer than the input and has no white space at either end. |
| Text.TrimStartFacts | FetchGrxml/Config/ConfigHelper.cs:11 | `TrimStart` removes only white space and keeps a suffix of the input. |
| Text.TrimEndFacts | FetchGrxml/Config/ConfigHelper.cs:11 | `TrimEnd` removes only white space and keeps a prefix of the input. |
| Text.TrimEndKeepsStart | FetchGrxml/Config/ConfigHelper.cs:11 | `TrimEnd` keeps a first character that is not white space. |
| Text.TrimEmptyIffBlank | FetchGrxml/Config/ConfigHelper.cs:14 | Trimming gives the empty string iff the input is blank. |
| Text.TrimIdempotent | FetchGrxml/Config/ConfigHelper.cs:111 | Trimming twice is the same as trimming once. |
| Text.TrimIsSlice | FetchGrxml/Config/ConfigHelper.cs:11 | The trimmed text is a contiguous slice of the input. |
| Text.TrimStartChar | FetchGrxml/Core/FileScanner.cs:77 | The result is no longer than the input and does not start with `c`. |
| Text.TrimEndChar | FetchGrxml/Core/FileScanner.cs:81 | The result is no longer than the input and does not end with `c`. |
| Text.TrimStartCharFacts | FetchGrxml/Core/FileScanner.cs:77 | `TrimStart(c)` removes only copies of `c` and keeps a suffix. |
| Text.TrimEndCharFacts | FetchGrxml/Core/FileScanner.cs:81 | `TrimEnd(c)` removes only copies of `c` and keeps a prefix. |
| Text.TrimCharAbsent | FetchGrxml/Config/ConfigHelper.cs:26 | `Trim(c)` leaves a text without `c` unchanged. |
| Text.IndexOf | FetchGrxml/Config/ConfigHelper.cs:93 | Returns the position of the first `c`, or `None` iff `c` does not occur. |
| Text.JoinCons | FetchGrxml/Config/ConfigHelper.cs:29 | Joining a list with a head element is the head, the separator, then the joined rest. |
| Text.SplitOn | FetchGrxml/Config/ConfigHelper.cs:29 | There is one piece more than there are separators. No piece holds the separator, and joining the pieces gives the input back. |
| Text.CutAtFirst | FetchGrxml/Config/ConfigHelper.cs:29 | Cutting at the first separator leaves one separator fewer in the rest. |
| Text.SplitJoin | FetchGrxml/Config/ConfigHelper.cs:29 | Splitting undoes joining when no piece holds the separator. |
| Text.ReplaceChar | FetchGrxml/Core/FileDownloader.cs:62 | Every `from` becomes `to`, and every other character is unchanged. |
| Text.ReplaceCharBack | FetchGrxml/Core/FileDownloader.cs:62 | Replacing back restores the text when `to` did not occur in it. |
| Text.RemoveChar | FetchGrxml/Config/ConfigHelper.cs:59-61 | Every `c` is removed, and every other character keeps its multiplicity. |
| Text.DecimalString | FetchGrxml/Core/FileDownloader.cs:24 | The digits of a natural number form a non-empty string of decimal digits. |
| Text.DecimalRoundTrip | FetchGrxml/Config/ConfigHelper.cs:24 | Reading back the printed digits gives the number. |
| Text.IntToString | FetchGrxml/Core/FileDownloader.cs:24 | The printed number is non-empty. |
| Text.ParseInt32 | FetchGrxml/Config/ConfigHelper.cs:24 | Parsing succeeds only within the 32-bit range and only on text that starts with a digit or a sign. |
| Text.ParseIntToString | FetchGrxml/Config/ConfigHelper.cs:24 | Every 32-bit number that is printed parses back to itself. |
| Text.Combine | FetchGrxml/Core/FileDownloader.cs:24 | Two non-empty parts that do not meet at a separator are joined with exactly one separator. |

## Left out

- Request throttling: the semaphore in `RequestThrottler.cs` only bounds concurrency. The model runs every remote call directly and returns its result.
- Console output: every `ConsoleUI` call is dropped.
- File I/O: the readers take the lines of their file and a flag saying whether the file exists. The command line is taken as a sequence of arguments. The program's entry point, its file checks and its SDK setup are not part of this model.
- The file server SDK: it is replaced by the `Client` object, which holds a fixed listing outcome per directory and a fixed transfer outcome per file. The listing arguments `"*"` and the three `false` flags are implicit. Transport errors are modelled as outcomes: a failed listing, or a transfer that throws.
- Concurrency: `Task.WhenAll` over the downloads is modelled as a sequential loop. The result is an order-insensitive count (`CountTruePermutation`). Concurrent creation of the same directory is not modelled.
- WorkflowOrchestrator.Orchestrator.ProcessSingleBU: the `catch` that makes a throwing BU contribute 0 is not modelled. In the model, scanning and downloading cannot throw, because each of them catches every remote failure itself.
- FileScanner.Scanner.ScanDirectoryRecursive: the `catch` also covers failures inside the entry loop. In the model those cannot happen. Only the listing can fail, and it is caught.
- FileDownloader.LocalDisk.EnsureDirectoryExists: `Directory.CreateDirectory` also creates missing ancestors. The model records only the file's own directory. Whether a missing directory can be created is a fixed predicate of the disk. A creation that fails halfway, leaving some ancestors behind, is not modelled.
- FileDownloader.EnsureDirectory: the result is the set of recorded directories. Ancestors that `Directory.CreateDirectory` creates as well are not in it.
- FileDownloader.EnsureAllMeaning: it speaks of recorded directories. Ancestors created along the way are not included.
- FileDownloader.Placeable: other failures in `DownloadSingleFile` before the transfer, such as `Path` methods throwing on invalid characters, are not modelled.
- FileDownloader.DirectoryName: the special handling of root paths in `Path.GetDirectoryName`, including drive roots, and its collapsing of repeated separators are not modelled.
- Text.Combine: drive-letter and volume rules of `Path.Combine` are not modelled. A second part that starts with a separator replaces the first.
- Text.ParseInt32: culture-specific signs, white space and thousands separators of `int.TryParse` are not modelled. The model accepts an optional `+` or `-` followed by ASCII digits, within 32 bits.
- Text.IsWhiteSpace: `char.IsWhiteSpace` is the fixed Unicode White_Space set of the Basic Multilingual Plane. Culture-sensitive `StartsWith` is modelled as an ordinal prefix test. This holds both for `StartsWith("#")` in the readers and for the endpoint key test in `ReadClusterEndpoint`.
- Regular expressions: `.` not matching a newline, and `$` matching before a final newline, are not modelled. Paths are taken to contain no newline.
- Nulls: a null pattern list, a null entry name, a null path and a `null` exclusion path have no counterpart here. The last one is `None`. A null listing result and a null `Files` list are the same outcome, `Missing`.
- WorkflowOrchestrator.Orchestrator.ProcessBusinessUnits: `totalFiles` is an unbounded `nat`. The 32-bit overflow of the source's `int` is not modelled.
- AppConfig.FromArgs: the caller's check for at least two arguments is a precondition.
