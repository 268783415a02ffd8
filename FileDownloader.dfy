/**
  The download half of the pipeline: every discovered remote path of a BU is
  fetched to a local path under `BUS{n}` in the output directory, the file's
  parent directory is created first, and the transfers that end in `Success`
  are counted. The concurrent fan-out only feeds an order-insensitive count,
  so the transfers are issued one after another here.
*/
module FileDownloader {
  import opened Wrappers
  import opened Text
  import opened FileServer
  import opened Seqs

  // ---------------------------------------------------------------------------
  // Local paths

  /** `Path.Combine(outputDirectory, $"BUS{busNo}")`. */
  function BuOutputDirectory(outputDirectory: string, busNo: int, sep: char): string {
    Combine(outputDirectory, "BUS" + IntToString(busNo), sep)
  }

  /**
    `BuildLocalPath(fileName, outputDir)`: the remote path without its leading
    slashes, with `/` turned into the platform separator, under `outputDir`.
  */
  function BuildLocalPath(fileName: string, outputDir: string, sep: char): string {
    Combine(outputDir, ReplaceChar(TrimStartChar(fileName, '/'), '/', sep), sep)
  }

  lemma IntToStringEndsInDigit(n: int)
    ensures IsDigit(IntToString(n)[|IntToString(n)| - 1])
  {
    var d := if n < 0 then DecimalString(-n) else DecimalString(n);
    assert IntToString(n)[|IntToString(n)| - 1] == d[|d| - 1];
  }

  /** The BU directory is the output directory, one separator, and `BUS` with the BU number. */
  lemma BuOutputDirectoryLayout(outputDirectory: string, busNo: int, sep: char)
    requires ValidSeparator(sep)
    requires outputDirectory != [] && !IsSeparator(outputDirectory[|outputDirectory| - 1], sep)
    ensures var r := BuOutputDirectory(outputDirectory, busNo, sep);
      r == outputDirectory + [sep] + "BUS" + IntToString(busNo) && r != [] && !IsSeparator(r[|r| - 1], sep)
  {
    IntToStringEndsInDigit(busNo);
    var name := "BUS" + IntToString(busNo);
    assert name[|name| - 1] == IntToString(busNo)[|IntToString(busNo)| - 1];
    assert (outputDirectory + [sep] + name)[|outputDirectory + [sep] + name| - 1] == name[|name| - 1];
  }

  /** The part of a local path below the output directory. */
  function RelativeLocalPath(fileName: string, sep: char): string {
    ReplaceChar(TrimStartChar(fileName, '/'), '/', sep)
  }

  /**
    When the remote path names something below the root and holds no platform
    separator, the local path is the output directory, one separator, and the
    relative part; that part starts with neither kind of separator.
  */
  lemma LocalPathLayout(fileName: string, outputDir: string, sep: char)
    requires ValidSeparator(sep)
    requires outputDir != [] && !IsSeparator(outputDir[|outputDir| - 1], sep)
    requires TrimStartChar(fileName, '/') != [] && (sep == '/' || sep !in fileName)
    ensures var rel := RelativeLocalPath(fileName, sep);
      rel != [] && !IsSeparator(rel[0], sep) && BuildLocalPath(fileName, outputDir, sep) == outputDir + [sep] + rel
  {
    var t := TrimStartChar(fileName, '/');
    TrimStartCharFacts(fileName, '/');
    assert t[0] == fileName[|fileName| - |t|];
  }

  /**
    The whole layout: output directory, `BUS{n}`, then the remote path's
    folders, each joined by the platform separator.
  */
  lemma DownloadLayout(outputDirectory: string, busNo: int, fileName: string, sep: char)
    requires ValidSeparator(sep)
    requires outputDirectory != [] && !IsSeparator(outputDirectory[|outputDirectory| - 1], sep)
    requires TrimStartChar(fileName, '/') != [] && (sep == '/' || sep !in fileName)
    ensures BuildLocalPath(fileName, BuOutputDirectory(outputDirectory, busNo, sep), sep) ==
      outputDirectory + [sep] + "BUS" + IntToString(busNo) + [sep] + RelativeLocalPath(fileName, sep)
  {
    BuOutputDirectoryLayout(outputDirectory, busNo, sep);
    LocalPathLayout(fileName, BuOutputDirectory(outputDirectory, busNo, sep), sep);
  }

  lemma ReplaceSameChar(s: string, c: char)
    ensures ReplaceChar(s, c, c) == s
  {
  }

  /**
    Two remote paths land on the same local file only if they agree once
    their leading slashes are removed: downloads of different files never
    overwrite each other.
  */
  lemma LocalPathInjective(f1: string, f2: string, outputDir: string, sep: char)
    requires ValidSeparator(sep)
    requires outputDir != [] && !IsSeparator(outputDir[|outputDir| - 1], sep)
    requires TrimStartChar(f1, '/') != [] && (sep == '/' || sep !in f1)
    requires TrimStartChar(f2, '/') != [] && (sep == '/' || sep !in f2)
    requires BuildLocalPath(f1, outputDir, sep) == BuildLocalPath(f2, outputDir, sep)
    ensures TrimStartChar(f1, '/') == TrimStartChar(f2, '/')
  {
    LocalPathLayout(f1, outputDir, sep);
    LocalPathLayout(f2, outputDir, sep);
    var prefix := outputDir + [sep];
    var r1 := RelativeLocalPath(f1, sep);
    var r2 := RelativeLocalPath(f2, sep);
    assert r1 == (prefix + r1)[|prefix|..];
    assert r2 == (prefix + r2)[|prefix|..];
    var t1 := TrimStartChar(f1, '/');
    var t2 := TrimStartChar(f2, '/');
    if sep == '/' {
      ReplaceSameChar(t1, '/');
      ReplaceSameChar(t2, '/');
    } else {
      TrimStartCharFacts(f1, '/');
      TrimStartCharFacts(f2, '/');
      assert sep !in t1 by {
        forall k | 0 <= k < |t1| ensures t1[k] != sep {
          assert t1[k] == f1[|f1| - |t1| + k];
        }
      }
      assert sep !in t2 by {
        forall k | 0 <= k < |t2| ensures t2[k] != sep {
          assert t2[k] == f2[|f2| - |t2| + k];
        }
      }
      ReplaceCharBack(t1, '/', sep);
      ReplaceCharBack(t2, '/', sep);
    }
  }

  // ---------------------------------------------------------------------------
  // Directories

  /** The position of the last separator in `path`, if any. */
  function LastSeparator(path: string, sep: char): (r: Option<nat>)
    ensures r.None? ==> forall k :: 0 <= k < |path| ==> !IsSeparator(path[k], sep)
    ensures r.Some? ==> r.value < |path| && IsSeparator(path[r.value], sep)
    ensures r.Some? ==> forall k :: r.value < k < |path| ==> !IsSeparator(path[k], sep)
  {
    if path == [] then None
    else if IsSeparator(path[|path| - 1], sep) then Some(|path| - 1)
    else LastSeparator(path[..|path| - 1], sep)
  }

  /** `Path.GetDirectoryName`: everything before the last separator, or empty when there is none. */
  function DirectoryName(path: string, sep: char): (r: string)
    ensures r <= path && (path == [] || |r| < |path|)
  {
    match LastSeparator(path, sep)
    case None => []
    case Some(i) => path[..i]
  }

  /** The directory of `dir + sep + name`, for a plain file name, is `dir`. */
  lemma {:induction false} DirectoryNameOfChild(dir: string, name: string, sep: char)
    requires forall k :: 0 <= k < |name| ==> !IsSeparator(name[k], sep)
    ensures DirectoryName(dir + [sep] + name, sep) == dir
    decreases |name|
  {
    var p := dir + [sep] + name;
    if name == [] {
      assert p[..|p| - 1] == dir;
    } else {
      assert p[..|p| - 1] == dir + [sep] + name[..|name| - 1];
      DirectoryNameOfChild(dir, name[..|name| - 1], sep);
    }
  }

  /**
    Whether the directory of `filePath` is there when the transfer starts:
    the path has no directory part, the directory exists, or
    `Directory.CreateDirectory` succeeds for it. `creatable` tells which
    missing directories can be created; for the others creation throws (a
    file of that name exists, access is denied, the name is too long).
  */
  predicate Placeable(directories: set<string>, creatable: string -> bool, filePath: string, sep: char) {
    var directory := DirectoryName(filePath, sep);
    directory == [] || directory in directories || creatable(directory)
  }

  /** `EnsureDirectoryExists(filePath)` on the set of existing directories. */
  function EnsureDirectory(directories: set<string>, creatable: string -> bool, filePath: string, sep: char): (r: set<string>)
    ensures directories <= r <= directories + {DirectoryName(filePath, sep)}
    ensures DirectoryName(filePath, sep) in r <==>
      DirectoryName(filePath, sep) in directories || (DirectoryName(filePath, sep) != [] && creatable(DirectoryName(filePath, sep)))
    ensures [] in r ==> [] in directories
  {
    var directory := DirectoryName(filePath, sep);
    if directory != [] && directory !in directories && creatable(directory) then directories + {directory} else directories
  }

  /** Ensuring the same file's directory twice changes nothing the second time. */
  lemma EnsureDirectoryIdempotent(directories: set<string>, creatable: string -> bool, filePath: string, sep: char)
    ensures EnsureDirectory(EnsureDirectory(directories, creatable, filePath, sep), creatable, filePath, sep) ==
      EnsureDirectory(directories, creatable, filePath, sep)
  {
  }

  /**
    Once a file's directory is ensured it is there for the transfer exactly
    when `Placeable` said so beforehand.
  */
  lemma EnsureDirectoryPlaces(directories: set<string>, creatable: string -> bool, filePath: string, sep: char)
    ensures var d := DirectoryName(filePath, sep);
      Placeable(directories, creatable, filePath, sep) <==> d == [] || d in EnsureDirectory(directories, creatable, filePath, sep)
  {
  }

  /** The directories after ensuring those of `paths`, one after another. */
  function EnsureAll(directories: set<string>, creatable: string -> bool, paths: seq<string>, sep: char): set<string> {
    if paths == [] then directories
    else EnsureDirectory(EnsureAll(directories, creatable, paths[..|paths| - 1], sep), creatable, paths[|paths| - 1], sep)
  }

  /** Some path of `paths` lies directly in directory `d`. */
  predicate NamedBy(paths: seq<string>, sep: char, d: string) {
    exists k :: 0 <= k < |paths| && DirectoryName(paths[k], sep) == d
  }

  lemma NamedBySnoc(paths: seq<string>, sep: char, d: string)
    requires paths != []
    ensures NamedBy(paths, sep, d) <==>
      NamedBy(paths[..|paths| - 1], sep, d) || DirectoryName(paths[|paths| - 1], sep) == d
  {
    var front := paths[..|paths| - 1];
    if NamedBy(front, sep, d) {
      var k :| 0 <= k < |front| && DirectoryName(front[k], sep) == d;
      assert paths[k] == front[k];
    }
    if NamedBy(paths, sep, d) {
      var k :| 0 <= k < |paths| && DirectoryName(paths[k], sep) == d;
      if k < |front| {
        assert front[k] == paths[k];
      }
    }
  }

  /**
    After the downloads a directory is recorded iff it was there before, or
    it is the non-empty parent of some local path and could be created.
  */
  lemma {:induction false} EnsureAllMeaning(directories: set<string>, creatable: string -> bool, paths: seq<string>, sep: char, d: string)
    ensures d in EnsureAll(directories, creatable, paths, sep) <==>
      d in directories || (d != [] && creatable(d) && exists k :: 0 <= k < |paths| && DirectoryName(paths[k], sep) == d)
  {
    if paths != [] {
      EnsureAllMeaning(directories, creatable, paths[..|paths| - 1], sep, d);
      NamedBySnoc(paths, sep, d);
    }
  }

  /**
    Whether a file can be placed does not depend on which other files were
    placed first: creating directories never makes another one creatable or
    uncreatable. This is why the concurrent downloads may be taken one after
    another.
  */
  lemma PlaceableAfterAll(directories: set<string>, creatable: string -> bool, paths: seq<string>, filePath: string, sep: char)
    ensures Placeable(EnsureAll(directories, creatable, paths, sep), creatable, filePath, sep) ==
      Placeable(directories, creatable, filePath, sep)
  {
    EnsureAllMeaning(directories, creatable, paths, sep, DirectoryName(filePath, sep));
  }

  lemma EnsureAllSnoc(directories: set<string>, creatable: string -> bool, paths: seq<string>, sep: char, i: nat)
    requires i < |paths|
    ensures EnsureAll(directories, creatable, paths[..i + 1], sep) ==
      EnsureDirectory(EnsureAll(directories, creatable, paths[..i], sep), creatable, paths[i], sep)
  {
    assert paths[..i + 1][..i] == paths[..i];
  }

  /** Ensuring the directories of two lists in turn is ensuring those of their concatenation. */
  lemma {:induction false} EnsureAllAppend(directories: set<string>, creatable: string -> bool, a: seq<string>, b: seq<string>, sep: char)
    ensures EnsureAll(directories, creatable, a + b, sep) == EnsureAll(EnsureAll(directories, creatable, a, sep), creatable, b, sep)
    decreases |b|
  {
    if b == [] {
      assert a + b == a;
    } else {
      assert (a + b)[..|a + b| - 1] == a + b[..|b| - 1];
      assert (a + b)[|a + b| - 1] == b[|b| - 1];
      EnsureAllAppend(directories, creatable, a, b[..|b| - 1], sep);
    }
  }

  /**
    The local disk: the set of directories that exist and the missing ones
    `Directory.CreateDirectory` can create.
  */
  class LocalDisk {
    const sep: char
    const creatable: string -> bool
    var directories: set<string>

    constructor (sep: char, creatable: string -> bool, directories: set<string>)
      ensures this.sep == sep && this.creatable == creatable && this.directories == directories
    {
      this.sep := sep;
      this.creatable := creatable;
      this.directories := directories;
    }

    /**
      `EnsureDirectoryExists(filePath)`: creates the file's directory unless it
      is empty or exists; `ok` is false when the creation throws.
    */
    method EnsureDirectoryExists(filePath: string) returns (ok: bool)
      modifies this
      ensures ok == Placeable(old(directories), creatable, filePath, sep)
      ensures directories == EnsureDirectory(old(directories), creatable, filePath, sep)
    {
      var directory := DirectoryName(filePath, sep);
      ok := true;
      if directory != [] && directory !in directories {
        if creatable(directory) {
          directories := directories + {directory};
        } else {
          ok := false;
        }
      }
    }
  }

  // ---------------------------------------------------------------------------
  // Counting successes

  /** A transfer counts as downloaded when it completes with `Success`; another code or a throw does not. */
  predicate Succeeded(outcome: TransferOutcome) {
    outcome == Completed(Success)
  }

  /** `results.Count(success => success)`. */
  function CountTrue(results: seq<bool>): (r: nat)
    ensures r <= |results|
    ensures r == |results| <==> forall k :: 0 <= k < |results| ==> results[k]
    ensures r == 0 <==> forall k :: 0 <= k < |results| ==> !results[k]
  {
    if results == [] then 0
    else CountTrue(results[..|results| - 1]) + (if results[|results| - 1] then 1 else 0)
  }

  /** The count is the number of `true`s in the gathered results, however they are ordered. */
  lemma {:induction false} CountTrueMultiplicity(results: seq<bool>)
    ensures CountTrue(results) == multiset(results)[true]
  {
    if results != [] {
      var front := results[..|results| - 1];
      assert results == front + [results[|results| - 1]];
      CountTrueMultiplicity(front);
    }
  }

  /** Gathering the same results in another order gives the same count. */
  lemma CountTruePermutation(a: seq<bool>, b: seq<bool>)
    requires multiset(a) == multiset(b)
    ensures CountTrue(a) == CountTrue(b)
  {
    CountTrueMultiplicity(a);
    CountTrueMultiplicity(b);
  }

  /** Counting two batches of results separately and adding gives the count of both. */
  lemma CountTrueAppend(a: seq<bool>, b: seq<bool>)
    ensures CountTrue(a + b) == CountTrue(a) + CountTrue(b)
  {
    CountTrueMultiplicity(a);
    CountTrueMultiplicity(b);
    CountTrueMultiplicity(a + b);
  }

  /** A file is downloaded when its directory can be placed and its transfer then succeeds. */
  predicate Downloads(transfers: (int, string) -> TransferOutcome, busNo: int, fileName: string, outputDir: string,
                      directories: set<string>, creatable: string -> bool, sep: char) {
    Placeable(directories, creatable, BuildLocalPath(fileName, outputDir, sep), sep) && Succeeded(transfers(busNo, fileName))
  }

  /** The per-file results `DownloadSingleFile` gives, in the order of `files`. */
  function Outcomes(transfers: (int, string) -> TransferOutcome, busNo: int, files: seq<string>, outputDir: string,
                    directories: set<string>, creatable: string -> bool, sep: char): (r: seq<bool>)
    ensures |r| == |files|
    ensures forall k :: 0 <= k < |files| ==>
      (r[k] <==> Downloads(transfers, busNo, files[k], outputDir, directories, creatable, sep))
  {
    seq(|files|, k requires 0 <= k < |files| => Downloads(transfers, busNo, files[k], outputDir, directories, creatable, sep))
  }

  /** What `DownloadFiles(busNo, files)` returns. */
  function SuccessCount(transfers: (int, string) -> TransferOutcome, busNo: int, files: seq<string>, outputDir: string,
                        directories: set<string>, creatable: string -> bool, sep: char): nat {
    CountTrue(Outcomes(transfers, busNo, files, outputDir, directories, creatable, sep))
  }

  /**
    The count lies between 0 and the number of files; it is the number of
    files when every file's directory can be placed and every transfer
    succeeds, and 0 when no file gets both.
  */
  lemma SuccessCountBounds(transfers: (int, string) -> TransferOutcome, busNo: int, files: seq<string>, outputDir: string,
                           directories: set<string>, creatable: string -> bool, sep: char)
    ensures SuccessCount(transfers, busNo, files, outputDir, directories, creatable, sep) <= |files|
    ensures SuccessCount(transfers, busNo, files, outputDir, directories, creatable, sep) == |files| <==>
      forall k :: 0 <= k < |files| ==>
        Placeable(directories, creatable, BuildLocalPath(files[k], outputDir, sep), sep) && Succeeded(transfers(busNo, files[k]))
    ensures SuccessCount(transfers, busNo, files, outputDir, directories, creatable, sep) == 0 <==>
      forall k :: 0 <= k < |files| ==>
        !(Placeable(directories, creatable, BuildLocalPath(files[k], outputDir, sep), sep) && Succeeded(transfers(busNo, files[k])))
  {
    var r := Outcomes(transfers, busNo, files, outputDir, directories, creatable, sep);
    assert forall k :: 0 <= k < |files| ==> (r[k] <==> Downloads(transfers, busNo, files[k], outputDir, directories, creatable, sep));
  }

  lemma OutcomesAppend(transfers: (int, string) -> TransferOutcome, busNo: int, a: seq<string>, b: seq<string>, outputDir: string,
                       directories: set<string>, creatable: string -> bool, sep: char)
    ensures Outcomes(transfers, busNo, a + b, outputDir, directories, creatable, sep) ==
      Outcomes(transfers, busNo, a, outputDir, directories, creatable, sep) + Outcomes(transfers, busNo, b, outputDir, directories, creatable, sep)
  {
    var r := Outcomes(transfers, busNo, a + b, outputDir, directories, creatable, sep);
    var ra := Outcomes(transfers, busNo, a, outputDir, directories, creatable, sep);
    var rb := Outcomes(transfers, busNo, b, outputDir, directories, creatable, sep);
    assert forall k :: 0 <= k < |r| ==> r[k] == (ra + rb)[k] by {
      forall k | 0 <= k < |r| ensures r[k] == (ra + rb)[k] {
        if k < |a| {
          assert (a + b)[k] == a[k];
        } else {
          assert (a + b)[k] == b[k - |a|];
        }
      }
    }
  }

  /** Downloading two lists one after the other counts as downloading their concatenation. */
  lemma SuccessCountAppend(transfers: (int, string) -> TransferOutcome, busNo: int, a: seq<string>, b: seq<string>, outputDir: string,
                           directories: set<string>, creatable: string -> bool, sep: char)
    ensures SuccessCount(transfers, busNo, a + b, outputDir, directories, creatable, sep) ==
      SuccessCount(transfers, busNo, a, outputDir, directories, creatable, sep) +
      SuccessCount(transfers, busNo, b, outputDir, directories, creatable, sep)
  {
    OutcomesAppend(transfers, busNo, a, b, outputDir, directories, creatable, sep);
    CountTrueAppend(Outcomes(transfers, busNo, a, outputDir, directories, creatable, sep),
                    Outcomes(transfers, busNo, b, outputDir, directories, creatable, sep));
  }

  /** With every directory creatable, a file is downloaded exactly when its transfer succeeds. */
  lemma AllCreatableDownloads(transfers: (int, string) -> TransferOutcome, busNo: int, fileName: string, outputDir: string,
                              directories: set<string>, creatable: string -> bool, sep: char)
    requires forall d :: creatable(d)
    ensures Downloads(transfers, busNo, fileName, outputDir, directories, creatable, sep) <==> Succeeded(transfers(busNo, fileName))
  {
    assert creatable(DirectoryName(BuildLocalPath(fileName, outputDir, sep), sep));
  }

  /**
    Three files of which the second is not found on the server, with every
    directory creatable: two are downloaded.
  */
  lemma SomeFailuresExample(transfers: (int, string) -> TransferOutcome, outputDir: string,
                            directories: set<string>, creatable: string -> bool, sep: char,
                            f1: string, f2: string, f3: string)
    requires f1 == "/file1.grxml" && f2 == "/file2.grxml" && f3 == "/file3.grxml"
    requires forall d :: creatable(d)
    requires transfers(123, f1) == Completed(Success)
    requires transfers(123, f2) == Completed(FileNotFound)
    requires transfers(123, f3) == Completed(Success)
    ensures SuccessCount(transfers, 123, [f1, f2, f3], outputDir, directories, creatable, sep) == 2
  {
    var files := [f1, f2, f3];
    AllCreatableDownloads(transfers, 123, f1, outputDir, directories, creatable, sep);
    AllCreatableDownloads(transfers, 123, f2, outputDir, directories, creatable, sep);
    AllCreatableDownloads(transfers, 123, f3, outputDir, directories, creatable, sep);
    var r := Outcomes(transfers, 123, files, outputDir, directories, creatable, sep);
    assert r == [true, false, true];
    CountTrueMultiplicity(r);
    assert multiset(r) == multiset{true, true, false};
  }

  /**
    A file whose directory is missing and cannot be created is not
    downloaded, whatever the server would have answered.
  */
  lemma BlockedDirectoryExample(transfers: (int, string) -> TransferOutcome, busNo: int, fileName: string, outputDir: string,
                                directories: set<string>, creatable: string -> bool, sep: char)
    requires DirectoryName(BuildLocalPath(fileName, outputDir, sep), sep) !in directories
    requires !creatable(DirectoryName(BuildLocalPath(fileName, outputDir, sep), sep))
    requires DirectoryName(BuildLocalPath(fileName, outputDir, sep), sep) != []
    ensures SuccessCount(transfers, busNo, [fileName], outputDir, directories, creatable, sep) == 0
  {
    var r := Outcomes(transfers, busNo, [fileName], outputDir, directories, creatable, sep);
    assert !r[0];
  }

  /** The local path of each file, in order. */
  function LocalPaths(files: seq<string>, outputDir: string, sep: char): (r: seq<string>)
    ensures |r| == |files|
    ensures forall k :: 0 <= k < |files| ==> r[k] == BuildLocalPath(files[k], outputDir, sep)
  {
    seq(|files|, k requires 0 <= k < |files| => BuildLocalPath(files[k], outputDir, sep))
  }

  /** The transfer request for one remote file. */
  function Request(busNo: int, fileName: string, outputDir: string, sep: char): TransferRequest {
    TransferRequest(busNo, fileName, BuildLocalPath(fileName, outputDir, sep))
  }

  /**
    The transfers `DownloadFiles` issues: one per list entry whose directory
    can be placed, duplicates included, in list order.
  */
  function Transfers(busNo: int, files: seq<string>, outputDir: string,
                     directories: set<string>, creatable: string -> bool, sep: char): (r: seq<TransferRequest>)
    ensures |r| <= |files|
  {
    if files == [] then []
    else
      var fileName := files[|files| - 1];
      Transfers(busNo, files[..|files| - 1], outputDir, directories, creatable, sep) +
        (if Placeable(directories, creatable, BuildLocalPath(fileName, outputDir, sep), sep)
         then [Request(busNo, fileName, outputDir, sep)] else [])
  }

  lemma TransfersSnoc(busNo: int, files: seq<string>, outputDir: string,
                      directories: set<string>, creatable: string -> bool, sep: char, i: nat)
    requires i < |files|
    ensures Transfers(busNo, files[..i + 1], outputDir, directories, creatable, sep) ==
      Transfers(busNo, files[..i], outputDir, directories, creatable, sep) +
        (if Placeable(directories, creatable, BuildLocalPath(files[i], outputDir, sep), sep)
         then [Request(busNo, files[i], outputDir, sep)] else [])
  {
    assert files[..i + 1][..i] == files[..i];
  }

  /** When every file's directory can be placed, there is exactly one transfer per file, in list order. */
  lemma {:induction false} TransfersAllPlaceable(busNo: int, files: seq<string>, outputDir: string,
                                                 directories: set<string>, creatable: string -> bool, sep: char)
    requires forall k :: 0 <= k < |files| ==> Placeable(directories, creatable, BuildLocalPath(files[k], outputDir, sep), sep)
    ensures var r := Transfers(busNo, files, outputDir, directories, creatable, sep);
      |r| == |files| && forall k :: 0 <= k < |files| ==> r[k] == Request(busNo, files[k], outputDir, sep)
  {
    if files != [] {
      var n := |files| - 1;
      var front := files[..n];
      forall k | 0 <= k < |front|
        ensures Placeable(directories, creatable, BuildLocalPath(front[k], outputDir, sep), sep)
      {
        assert front[k] == files[k];
      }
      TransfersAllPlaceable(busNo, front, outputDir, directories, creatable, sep);
      var rf := Transfers(busNo, front, outputDir, directories, creatable, sep);
      var r := rf + [Request(busNo, files[n], outputDir, sep)];
      assert Transfers(busNo, files, outputDir, directories, creatable, sep) == r;
      forall k | 0 <= k < |files| ensures r[k] == Request(busNo, files[k], outputDir, sep) {
        if k < n {
          assert r[k] == rf[k] && front[k] == files[k];
        }
      }
    }
  }

  /** When no file's directory can be placed, nothing is transferred. */
  lemma {:induction false} TransfersNonePlaceable(busNo: int, files: seq<string>, outputDir: string,
                                                  directories: set<string>, creatable: string -> bool, sep: char)
    requires forall k :: 0 <= k < |files| ==> !Placeable(directories, creatable, BuildLocalPath(files[k], outputDir, sep), sep)
    ensures Transfers(busNo, files, outputDir, directories, creatable, sep) == []
  {
    if files != [] {
      var front := files[..|files| - 1];
      assert forall k :: 0 <= k < |front| ==> front[k] == files[k];
      TransfersNonePlaceable(busNo, front, outputDir, directories, creatable, sep);
    }
  }

  /**
    Every transfer issued writes into a directory that the downloads leave
    in place: the directory is created before the transfer starts.
  */
  lemma {:induction false} TransfersLandInDirectories(busNo: int, files: seq<string>, outputDir: string,
                                                      directories: set<string>, creatable: string -> bool, sep: char, t: TransferRequest)
    requires t in Transfers(busNo, files, outputDir, directories, creatable, sep)
    ensures t.busNo == busNo && t.localPath == BuildLocalPath(t.remotePath, outputDir, sep)
    ensures var d := DirectoryName(t.localPath, sep);
      d == [] || d in EnsureAll(directories, creatable, LocalPaths(files, outputDir, sep), sep)
  {
    var front := files[..|files| - 1];
    var last := files[|files| - 1];
    var paths := LocalPaths(files, outputDir, sep);
    var d := DirectoryName(t.localPath, sep);
    assert LocalPaths(front, outputDir, sep) == paths[..|files| - 1];
    if t in Transfers(busNo, front, outputDir, directories, creatable, sep) {
      TransfersLandInDirectories(busNo, front, outputDir, directories, creatable, sep, t);
    } else {
      assert t == Request(busNo, last, outputDir, sep);
      assert paths[|files| - 1] == t.localPath;
    }
    EnsureAllMeaning(directories, creatable, paths[..|files| - 1], sep, d);
  }

  /** Placing files first does not change which later files can be placed, so neither does it change their transfers. */
  lemma {:induction false} TransfersAfterAll(busNo: int, files: seq<string>, outputDir: string, directories: set<string>,
                                             creatable: string -> bool, paths: seq<string>, sep: char)
    ensures Transfers(busNo, files, outputDir, EnsureAll(directories, creatable, paths, sep), creatable, sep) ==
      Transfers(busNo, files, outputDir, directories, creatable, sep)
  {
    if files != [] {
      TransfersAfterAll(busNo, files[..|files| - 1], outputDir, directories, creatable, paths, sep);
      PlaceableAfterAll(directories, creatable, paths, BuildLocalPath(files[|files| - 1], outputDir, sep), sep);
    }
  }

  /** Likewise for the per-file results. */
  lemma OutcomesAfterAll(transfers: (int, string) -> TransferOutcome, busNo: int, files: seq<string>, outputDir: string,
                         directories: set<string>, creatable: string -> bool, paths: seq<string>, sep: char)
    ensures Outcomes(transfers, busNo, files, outputDir, EnsureAll(directories, creatable, paths, sep), creatable, sep) ==
      Outcomes(transfers, busNo, files, outputDir, directories, creatable, sep)
  {
    forall k | 0 <= k < |files|
      ensures Placeable(EnsureAll(directories, creatable, paths, sep), creatable, BuildLocalPath(files[k], outputDir, sep), sep) ==
        Placeable(directories, creatable, BuildLocalPath(files[k], outputDir, sep), sep)
    {
      PlaceableAfterAll(directories, creatable, paths, BuildLocalPath(files[k], outputDir, sep), sep);
    }
  }

  lemma ReplaceCharChild(folders: string, name: string, sep: char)
    requires '/' !in name
    ensures ReplaceChar(folders + "/" + name, '/', sep) == ReplaceChar(folders, '/', sep) + [sep] + name
  {
    var l := ReplaceChar(folders + "/" + name, '/', sep);
    var r := ReplaceChar(folders, '/', sep) + [sep] + name;
    forall k | 0 <= k < |l| ensures l[k] == r[k] {
      if k < |folders| {
        assert (folders + "/" + name)[k] == folders[k];
      } else if k > |folders| {
        assert (folders + "/" + name)[k] == name[k - |folders| - 1];
      }
    }
  }

  /**
    The directory created for a remote file `/folders/name` is the BU
    directory, one separator, and `folders` with `/` turned into the platform
    separator (for example `BUS123/folder1/folder2` for
    `/folder1/folder2/deep.grxml`).
  */
  lemma LocalDirectoryLayout(outputDirectory: string, busNo: int, folders: string, name: string, sep: char)
    requires ValidSeparator(sep)
    requires outputDirectory != [] && !IsSeparator(outputDirectory[|outputDirectory| - 1], sep)
    requires folders != [] && folders[0] != '/' && sep !in folders && '/' !in name && sep !in name
    ensures DirectoryName(BuildLocalPath("/" + folders + "/" + name, BuOutputDirectory(outputDirectory, busNo, sep), sep), sep) ==
      BuOutputDirectory(outputDirectory, busNo, sep) + [sep] + ReplaceChar(folders, '/', sep)
  {
    var file := "/" + folders + "/" + name;
    var rel := folders + "/" + name;
    assert file == ['/'] + rel && file[1..] == rel;
    assert TrimStartChar(file, '/') == TrimStartChar(rel, '/');
    assert TrimStartChar(rel, '/') == rel by {
      assert rel[0] == folders[0];
    }
    assert sep == '/' || sep !in file by {
      if sep != '/' {
        forall k | 0 <= k < |file| ensures file[k] != sep {
          if 1 <= k <= |folders| {
            assert file[k] == folders[k - 1];
          } else if k > |folders| + 1 {
            assert file[k] == name[k - |folders| - 2];
          }
        }
      }
    }
    var bu := BuOutputDirectory(outputDirectory, busNo, sep);
    BuOutputDirectoryLayout(outputDirectory, busNo, sep);
    LocalPathLayout(file, bu, sep);
    ReplaceCharChild(folders, name, sep);
    var dir := bu + [sep] + ReplaceChar(folders, '/', sep);
    assert bu + [sep] + (ReplaceChar(folders, '/', sep) + [sep] + name) == dir + [sep] + name;
    DirectoryNameOfChild(dir, name, sep);
  }


  // ---------------------------------------------------------------------------
  // The downloader

  class Downloader {
    const client: Client
    const disk: LocalDisk
    const outputDirectory: string

    constructor (client: Client, disk: LocalDisk, outputDirectory: string)
      ensures this.client == client && this.disk == disk && this.outputDirectory == outputDirectory
    {
      this.client := client;
      this.disk := disk;
      this.outputDirectory := outputDirectory;
    }

    /**
      `DownloadFiles(busNo, files)`: one transfer per file whose directory can
      be placed, into the BU's directory, returning how many ended in `Success`.
    */
    method DownloadFiles(busNo: int, files: seq<string>) returns (count: nat)
      modifies client, disk
      ensures var buOutputDir := BuOutputDirectory(outputDirectory, busNo, disk.sep);
        && count == SuccessCount(client.transfers, busNo, files, buOutputDir, old(disk.directories), disk.creatable, disk.sep)
        && client.transferLog == old(client.transferLog) +
             Transfers(busNo, files, buOutputDir, old(disk.directories), disk.creatable, disk.sep)
        && disk.directories == EnsureAll(old(disk.directories), disk.creatable, LocalPaths(files, buOutputDir, disk.sep), disk.sep)
      ensures client.listingLog == old(client.listingLog)
    {
      var buOutputDir := BuOutputDirectory(outputDirectory, busNo, disk.sep);
      ghost var dirs0 := disk.directories;
      ghost var creatable := disk.creatable;
      ghost var sep := disk.sep;
      ghost var paths := LocalPaths(files, buOutputDir, sep);
      ghost var outcomes := Outcomes(client.transfers, busNo, files, buOutputDir, dirs0, creatable, sep);
      ghost var log0 := client.transferLog;
      var results: seq<bool> := [];
      for i := 0 to |files|
        invariant results == outcomes[..i]
        invariant client.transferLog == log0 + Transfers(busNo, files[..i], buOutputDir, dirs0, creatable, sep)
        invariant client.listingLog == old(client.listingLog)
        invariant disk.directories == EnsureAll(dirs0, creatable, paths[..i], sep)
      {
        ghost var log := client.transferLog;
        PlaceableAfterAll(dirs0, creatable, paths[..i], paths[i], sep);
        var ok := DownloadSingleFile(busNo, files[i], buOutputDir);
        assert ok == outcomes[i];
        results := results + [ok];
        SliceSnoc(outcomes, i);
        TransfersSnoc(busNo, files, buOutputDir, dirs0, creatable, sep, i);
        AppendAssociative(log0, Transfers(busNo, files[..i], buOutputDir, dirs0, creatable, sep), client.transferLog[|log|..]);
        EnsureAllSnoc(dirs0, creatable, paths, sep, i);
      }
      SliceAll(outcomes);
      SliceAll(files);
      SliceAll(paths);
      count := CountTrue(results);
    }

    /**
      `DownloadSingleFile`: creates the local file's directory, then issues the
      transfer; only a completed transfer with `Success` counts. A throw from
      the directory creation or from the transfer is caught here; when the
      creation throws, no transfer is made.
    */
    method DownloadSingleFile(busNo: int, fileName: string, outputDir: string) returns (ok: bool)
      modifies client, disk
      ensures var localPath := BuildLocalPath(fileName, outputDir, disk.sep);
        var placed := Placeable(old(disk.directories), disk.creatable, localPath, disk.sep);
        && (ok <==> placed && Succeeded(client.transfers(busNo, fileName)))
        && client.transferLog == old(client.transferLog) + (if placed then [Request(busNo, fileName, outputDir, disk.sep)] else [])
        && disk.directories == EnsureDirectory(old(disk.directories), disk.creatable, localPath, disk.sep)
      ensures client.listingLog == old(client.listingLog)
    {
      var localPath := BuildLocalPath(fileName, outputDir, disk.sep);
      var placed := disk.EnsureDirectoryExists(localPath);
      if !placed {
        ok := false;
        return;
      }
      var result := client.GetFileFromServer(busNo, fileName, localPath);
      match result {
        case Completed(code) =>
          ok := code == Success;
        case Threw =>
          ok := false;
      }
    }
  }
}
