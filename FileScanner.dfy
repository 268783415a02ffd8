/**
  The depth-first scan of one BU's remote directory tree for `.grxml` files.
  `ScanDirectory` and its companions state what a scan finds and which
  listings it requests; the `Scanner` class walks the tree the way the
  source does, appending to a shared accumulator, and is proved to agree.
*/
module FileScanner {
  import opened Text
  import opened ExclusionMatcher
  import opened FileServer
  import opened Seqs

  // ---------------------------------------------------------------------------
  // Paths

  /** `BuildFullPath`: the parent without trailing `/`, one `/`, the name without leading `/`. */
  function BuildFullPath(parentPath: string, fileName: string): string {
    if parentPath == "/" then "/" + TrimStartChar(fileName, '/')
    else TrimEndChar(parentPath, '/') + "/" + TrimStartChar(fileName, '/')
  }

  /**
    The joined path is `head + "/" + tail`, where `head` is the parent with its
    trailing slashes removed (empty for the root) and `tail` is the name with
    its leading slashes removed: there is exactly one `/` at the join.
  */
  lemma BuildFullPathShape(parentPath: string, fileName: string) returns (head: string, tail: string)
    ensures BuildFullPath(parentPath, fileName) == head + "/" + tail
    ensures head == [] || head[|head| - 1] != '/'
    ensures tail == [] || tail[0] != '/'
    ensures head <= parentPath && forall k :: |head| <= k < |parentPath| ==> parentPath[k] == '/'
    ensures |tail| <= |fileName| && tail == fileName[|fileName| - |tail|..] && forall k :: 0 <= k < |fileName| - |tail| ==> fileName[k] == '/'
  {
    TrimEndCharFacts(parentPath, '/');
    TrimStartCharFacts(fileName, '/');
    tail := TrimStartChar(fileName, '/');
    head := TrimEndChar(parentPath, '/');
    assert head == parentPath[..|head|];
    if parentPath == "/" {
      assert head == TrimEndChar([], '/') == [];
      assert BuildFullPath(parentPath, fileName) == "/" + tail == head + "/" + tail;
    } else {
      assert BuildFullPath(parentPath, fileName) == head + "/" + tail;
    }
  }

  /** A path that is empty or starts with `/` joins to a path that starts with `/`. */
  lemma BuildFullPathRooted(parentPath: string, fileName: string)
    requires parentPath == [] || parentPath[0] == '/'
    ensures var r := BuildFullPath(parentPath, fileName); r != [] && r[0] == '/'
  {
    var head, tail := BuildFullPathShape(parentPath, fileName);
    if head != [] {
      assert head[0] == parentPath[0];
    }
  }

  /** `IsGrxmlFile`: the path ends in `.grxml`, ignoring ASCII case. */
  predicate IsGrxmlFile(path: string) {
    EndsWithIgnoreCase(path, ".grxml")
  }

  // ---------------------------------------------------------------------------
  // What a scan finds and requests

  /** The paths a scan appends to the accumulator and the listings it requests, in order. */
  datatype ScanResult = ScanResult(found: seq<string>, listed: seq<ListingRequest>)

  const NothingFound := ScanResult([], [])

  function Then(first: ScanResult, second: ScanResult): ScanResult {
    ScanResult(first.found + second.found, first.listed + second.listed)
  }

  /**
    `ScanDirectoryRecursive(busNo, path, ...)` on the remote directory `dir`: one
    listing request for `path`, then the entries in listing order. A failed or
    missing listing contributes nothing further.
  */
  function ScanDirectory(patterns: seq<string>, busNo: int, path: string, dir: Listing): ScanResult
    decreases dir, 1
  {
    Then(ScanResult([], [ListingRequest(busNo, path)]),
         match dir
         case Entries(items) => ScanEntries(patterns, busNo, path, items)
         case _ => NothingFound)
  }

  /** The loop over the entries of one listing. */
  function ScanEntries(patterns: seq<string>, busNo: int, path: string, items: seq<Node>): ScanResult
    decreases items
  {
    if items == [] then NothingFound
    else Then(ScanEntries(patterns, busNo, path, items[..|items| - 1]),
              ScanEntry(patterns, busNo, path, items[|items| - 1]))
  }

  /** One entry: a folder is visited unless excluded, a `.grxml` file is found, other files are ignored. */
  function ScanEntry(patterns: seq<string>, busNo: int, path: string, item: Node): ScanResult
    decreases item
  {
    var fullPath := BuildFullPath(path, item.name);
    match item
    case FolderEntry(_, contents) => VisitFolder(patterns, busNo, fullPath, contents)
    case FileEntry(_) => if IsGrxmlFile(fullPath) then ScanResult([fullPath], []) else NothingFound
  }

  /** `ProcessFolder`: an excluded folder is neither listed nor searched. */
  function VisitFolder(patterns: seq<string>, busNo: int, folderPath: string, dir: Listing): ScanResult
    decreases dir, 2
  {
    if ShouldExclude(folderPath, patterns) then NothingFound
    else ScanDirectory(patterns, busNo, folderPath, dir)
  }

  /** An excluded folder costs no request and yields no path, whatever lies beneath it. */
  lemma ExcludedFolderSkipped(patterns: seq<string>, busNo: int, path: string, name: string, dir: Listing)
    requires ShouldExclude(BuildFullPath(path, name), patterns)
    ensures ScanEntry(patterns, busNo, path, FolderEntry(name, dir)) == NothingFound
  {
  }

  /** One more entry: its contribution follows those of the entries before it. */
  lemma ScanEntriesSnoc(patterns: seq<string>, busNo: int, path: string, items: seq<Node>, i: nat)
    requires i < |items|
    ensures ScanEntries(patterns, busNo, path, items[..i + 1]) ==
      Then(ScanEntries(patterns, busNo, path, items[..i]), ScanEntry(patterns, busNo, path, items[i]))
  {
    assert items[..i + 1][..i] == items[..i];
  }

  /** A scan is its own listing request followed by what the entries give, if any. */
  lemma ScanDirectoryUnfold(patterns: seq<string>, busNo: int, path: string, dir: Listing)
    ensures var rest := match dir case Entries(items) => ScanEntries(patterns, busNo, path, items) case _ => NothingFound;
      ScanDirectory(patterns, busNo, path, dir) == ScanResult(rest.found, [ListingRequest(busNo, path)] + rest.listed)
  {
  }

  // ---------------------------------------------------------------------------
  // Properties of a scan

  /** Empty, or starting with `/`: the start path `/` and every path `BuildFullPath` makes. */
  predicate Rooted(path: string) {
    path == [] || path[0] == '/'
  }

  /** Every found path is a `.grxml` file and starts with `/`. */
  predicate FoundOk(found: seq<string>) {
    forall k :: 0 <= k < |found| ==> IsGrxmlFile(found[k]) && Rooted(found[k]) && found[k] != []
  }

  /** Every request is for this BU and for a path no exclusion pattern matches. */
  predicate RequestsOk(listed: seq<ListingRequest>, busNo: int, patterns: seq<string>) {
    forall k :: 0 <= k < |listed| ==> listed[k].busNo == busNo && !ShouldExclude(listed[k].path, patterns)
  }

  lemma ThenOk(first: ScanResult, second: ScanResult, busNo: int, patterns: seq<string>)
    requires FoundOk(first.found) && FoundOk(second.found)
    requires RequestsOk(first.listed, busNo, patterns) && RequestsOk(second.listed, busNo, patterns)
    ensures FoundOk(Then(first, second).found) && RequestsOk(Then(first, second).listed, busNo, patterns)
  {
    var r := Then(first, second);
    assert forall k :: |first.found| <= k < |r.found| ==> r.found[k] == second.found[k - |first.found|];
    assert forall k :: |first.listed| <= k < |r.listed| ==> r.listed[k] == second.listed[k - |first.listed|];
  }

  /**
    A scan from a rooted path finds only `.grxml` files, all rooted; its first
    request is for its own path and every later request is for a folder of the
    same BU that no exclusion pattern matches.
  */
  lemma {:induction false} ScanDirectoryOk(patterns: seq<string>, busNo: int, path: string, dir: Listing)
    requires Rooted(path)
    ensures var r := ScanDirectory(patterns, busNo, path, dir);
      FoundOk(r.found) && r.listed != [] && r.listed[0] == ListingRequest(busNo, path) &&
      RequestsOk(r.listed[1..], busNo, patterns)
    decreases dir, 1
  {
    var rest := match dir case Entries(items) => ScanEntries(patterns, busNo, path, items) case _ => NothingFound;
    if dir.Entries? {
      ScanEntriesOk(patterns, busNo, path, dir.items);
    }
    var r := ScanDirectory(patterns, busNo, path, dir);
    assert r.found == rest.found;
    assert r.listed[1..] == rest.listed;
  }

  lemma {:induction false} ScanEntriesOk(patterns: seq<string>, busNo: int, path: string, items: seq<Node>)
    requires Rooted(path)
    ensures var r := ScanEntries(patterns, busNo, path, items);
      FoundOk(r.found) && RequestsOk(r.listed, busNo, patterns)
    decreases items
  {
    if items != [] {
      ScanEntriesOk(patterns, busNo, path, items[..|items| - 1]);
      ScanEntryOk(patterns, busNo, path, items[|items| - 1]);
      ThenOk(ScanEntries(patterns, busNo, path, items[..|items| - 1]),
             ScanEntry(patterns, busNo, path, items[|items| - 1]), busNo, patterns);
    }
  }

  lemma {:induction false} ScanEntryOk(patterns: seq<string>, busNo: int, path: string, item: Node)
    requires Rooted(path)
    ensures var r := ScanEntry(patterns, busNo, path, item);
      FoundOk(r.found) && RequestsOk(r.listed, busNo, patterns)
    decreases item
  {
    var fullPath := BuildFullPath(path, item.name);
    BuildFullPathRooted(path, item.name);
    if item.FolderEntry? {
      VisitFolderOk(patterns, busNo, fullPath, item.contents);
    }
  }

  lemma {:induction false} VisitFolderOk(patterns: seq<string>, busNo: int, folderPath: string, dir: Listing)
    requires Rooted(folderPath)
    ensures var r := VisitFolder(patterns, busNo, folderPath, dir);
      FoundOk(r.found) && RequestsOk(r.listed, busNo, patterns)
    decreases dir, 2
  {
    if !ShouldExclude(folderPath, patterns) {
      ScanDirectoryOk(patterns, busNo, folderPath, dir);
      var r := ScanDirectory(patterns, busNo, folderPath, dir);
      assert r.listed == [r.listed[0]] + r.listed[1..];
    }
  }

  /**
    Nothing at or beneath a folder that a literal pattern excludes is listed:
    after the start path, no request names the pattern's path or a path below it.
  */
  lemma NoRequestBelowLiteralExclusion(patterns: seq<string>, busNo: int, dir: Listing, k: nat, q: string)
    requires q in patterns && '*' !in q
    requires 1 <= k < |ScanDirectory(patterns, busNo, "/", dir).listed|
    ensures var p := ScanDirectory(patterns, busNo, "/", dir).listed[k].path;
      p != q && !(q + "/" <= p)
  {
    ScanDirectoryOk(patterns, busNo, "/", dir);
    var r := ScanDirectory(patterns, busNo, "/", dir);
    var p := r.listed[k].path;
    assert r.listed[1..][k - 1] == r.listed[k];
  }

  lemma ThenAssociative(x: ScanResult, y: ScanResult, z: ScanResult)
    ensures Then(Then(x, y), z) == Then(x, Then(y, z))
  {
    assert x.found + y.found + z.found == x.found + (y.found + z.found);
    assert x.listed + y.listed + z.listed == x.listed + (y.listed + z.listed);
  }

  /** Scanning the entries of a listing in two parts gives the two parts' results in order. */
  lemma {:induction false} ScanEntriesAppend(patterns: seq<string>, busNo: int, path: string, a: seq<Node>, b: seq<Node>)
    ensures ScanEntries(patterns, busNo, path, a + b) ==
      Then(ScanEntries(patterns, busNo, path, a), ScanEntries(patterns, busNo, path, b))
    decreases |b|
  {
    if b == [] {
      assert a + b == a;
      assert ScanEntries(patterns, busNo, path, b) == NothingFound;
      var sa := ScanEntries(patterns, busNo, path, a);
      assert sa.found + [] == sa.found && sa.listed + [] == sa.listed;
    } else {
      var ab := a + b;
      var front := b[..|b| - 1];
      assert ab[..|ab| - 1] == a + front;
      assert ab[|ab| - 1] == b[|b| - 1];
      ScanEntriesAppend(patterns, busNo, path, a, front);
      ThenAssociative(ScanEntries(patterns, busNo, path, a), ScanEntries(patterns, busNo, path, front),
                      ScanEntry(patterns, busNo, path, b[|b| - 1]));
    }
  }

  /**
    A folder whose listing fails (or is null) costs its siblings nothing: the
    entries before and after it contribute exactly what they would alone, and
    the folder adds at most its own listing request.
  */
  lemma FailedFolderIsolated(patterns: seq<string>, busNo: int, path: string,
                             before: seq<Node>, name: string, dir: Listing, after: seq<Node>)
    requires !dir.Entries?
    ensures var r := ScanEntries(patterns, busNo, path, before + [FolderEntry(name, dir)] + after);
      var folderPath := BuildFullPath(path, name);
      && r.found == ScanEntries(patterns, busNo, path, before).found + ScanEntries(patterns, busNo, path, after).found
      && r.listed == ScanEntries(patterns, busNo, path, before).listed
           + (if ShouldExclude(folderPath, patterns) then [] else [ListingRequest(busNo, folderPath)])
           + ScanEntries(patterns, busNo, path, after).listed
  {
    var single := [FolderEntry(name, dir)];
    ScanEntriesAppend(patterns, busNo, path, before + single, after);
    ScanEntriesAppend(patterns, busNo, path, before, single);
    FailedFolderAlone(patterns, busNo, path, name, dir);
    var b := ScanEntries(patterns, busNo, path, before);
    var own := ScanEntries(patterns, busNo, path, single);
    var a := ScanEntries(patterns, busNo, path, after);
    var r := ScanEntries(patterns, busNo, path, before + single + after);
    assert r == Then(Then(b, own), a);
    assert r.found == b.found + own.found + a.found;
    assert r.listed == b.listed + own.listed + a.listed;
    assert own.found == [];
    assert b.found + [] == b.found;
  }

  /** A folder whose listing fails contributes at most its own listing request. */
  lemma FailedFolderAlone(patterns: seq<string>, busNo: int, path: string, name: string, dir: Listing)
    requires !dir.Entries?
    ensures var folderPath := BuildFullPath(path, name);
      ScanEntries(patterns, busNo, path, [FolderEntry(name, dir)]) ==
        ScanResult([], if ShouldExclude(folderPath, patterns) then [] else [ListingRequest(busNo, folderPath)])
  {
    var folderPath := BuildFullPath(path, name);
    assert [FolderEntry(name, dir)][..0] == [];
    var visit := VisitFolder(patterns, busNo, folderPath, dir);
    assert ScanEntries(patterns, busNo, path, [FolderEntry(name, dir)]) == Then(NothingFound, visit);
    if !ShouldExclude(folderPath, patterns) {
      assert visit == Then(ScanResult([], [ListingRequest(busNo, folderPath)]), NothingFound);
      assert [ListingRequest(busNo, folderPath)] + [] == [ListingRequest(busNo, folderPath)];
    }
    assert [] + visit.found == visit.found && [] + visit.listed == visit.listed;
  }

  /**
    The excluded-folder example: from `/` holding folders `temp` (excluded by
    the pattern `/temp`) and `data` (holding `file.grxml`), the scan finds
    `/data/file.grxml` and never lists `/temp`.
  */
  lemma ExcludedFolderExample(tempListing: Listing)
    ensures var root := Entries([FolderEntry("temp", tempListing),
                                 FolderEntry("data", Entries([FileEntry("file.grxml")]))]);
      ScanDirectory(["/temp"], 123, "/", root) ==
        ScanResult(["/data/file.grxml"], [ListingRequest(123, "/"), ListingRequest(123, "/data")])
  {
    var patterns := ["/temp"];
    var temp := FolderEntry("temp", tempListing);
    var data := FolderEntry("data", Entries([FileEntry("file.grxml")]));
    var tempPart := ScanEntry(patterns, 123, "/", temp);
    var dataPart := ScanEntry(patterns, 123, "/", data);
    ExampleTempSkipped(tempListing);
    ExampleDataScanned();
    assert [temp, data][..1] == [temp];
    assert [temp][..0] == [];
    assert ScanEntries(patterns, 123, "/", [temp]) == Then(NothingFound, tempPart);
    assert ScanEntries(patterns, 123, "/", [temp, data]) == Then(ScanEntries(patterns, 123, "/", [temp]), dataPart);
  }

  lemma ExampleTempSkipped(tempListing: Listing)
    ensures ScanEntry(["/temp"], 123, "/", FolderEntry("temp", tempListing)) == NothingFound
  {
    assert BuildFullPath("/", "temp") == "/temp";
    assert MatchesPattern("/temp", ["/temp"][0]);
  }

  lemma ExampleDataScanned()
    ensures ScanEntry(["/temp"], 123, "/", FolderEntry("data", Entries([FileEntry("file.grxml")]))) ==
      ScanResult(["/data/file.grxml"], [ListingRequest(123, "/data")])
  {
    ExampleDataPath();
    ExampleFilePath();
    ExampleDataKept();
    SingleFileFound(["/temp"], 123, "/data", "file.grxml");
  }

  lemma ExampleDataPath()
    ensures BuildFullPath("/", "data") == "/data"
  {
  }

  lemma ExampleFilePath()
    ensures BuildFullPath("/data", "file.grxml") == "/data/file.grxml"
    ensures IsGrxmlFile("/data/file.grxml")
  {
  }

  lemma ExampleDataKept()
    ensures !ShouldExclude("/data", ["/temp"])
  {
    assert !MatchesPattern("/data", "/temp");
  }

  /** A listing holding one `.grxml` file yields that file and no request. */
  lemma SingleFileFound(patterns: seq<string>, busNo: int, path: string, name: string)
    requires IsGrxmlFile(BuildFullPath(path, name))
    ensures ScanEntries(patterns, busNo, path, [FileEntry(name)]) == ScanResult([BuildFullPath(path, name)], [])
  {
    assert [FileEntry(name)][..0] == [];
  }

  // ---------------------------------------------------------------------------
  // The scanner

  /** The `List<string>` accumulator shared by the recursive calls. */
  class PathList {
    var items: seq<string>

    constructor ()
      ensures items == []
    {
      items := [];
    }

    method Add(path: string)
      modifies this
      ensures items == old(items) + [path]
    {
      items := items + [path];
    }
  }

  class Scanner {
    const client: Client
    const exclusionPatterns: seq<string>

    constructor (client: Client, exclusionPatterns: seq<string>)
      ensures this.client == client && this.exclusionPatterns == exclusionPatterns
    {
      this.client := client;
      this.exclusionPatterns := exclusionPatterns;
    }

    /** `ScanForGrxmlFiles(busNo, startPath)`, where `dir` is the remote directory at `startPath`. */
    method ScanForGrxmlFiles(busNo: int, startPath: string, dir: Listing) returns (allFiles: seq<string>)
      modifies client
      ensures allFiles == ScanDirectory(exclusionPatterns, busNo, startPath, dir).found
      ensures client.listingLog == old(client.listingLog) + ScanDirectory(exclusionPatterns, busNo, startPath, dir).listed
      ensures client.transferLog == old(client.transferLog)
    {
      var accumulator := new PathList();
      ScanDirectoryRecursive(busNo, startPath, dir, accumulator);
      allFiles := accumulator.items;
    }

    /**
      `ScanDirectoryRecursive`: lists `path`, then walks the entries, descending
      into folders and appending `.grxml` files. A listing that throws is caught
      here and ends this directory's scan only.
    */
    method ScanDirectoryRecursive(busNo: int, path: string, dir: Listing, accumulator: PathList)
      modifies client, accumulator
      ensures accumulator.items == old(accumulator.items) + ScanDirectory(exclusionPatterns, busNo, path, dir).found
      ensures client.listingLog == old(client.listingLog) + ScanDirectory(exclusionPatterns, busNo, path, dir).listed
      ensures client.transferLog == old(client.transferLog)
      decreases dir, 1
    {
      ghost var found00 := accumulator.items;
      ghost var log00 := client.listingLog;
      var result := client.GetDirectoryListing(busNo, path, dir);
      ScanDirectoryUnfold(exclusionPatterns, busNo, path, dir);
      match result {
        case Failed =>
          return;
        case Missing =>
          return;
        case Entries(items) =>
          ghost var found0 := accumulator.items;
          ghost var log0 := client.listingLog;
          for i := 0 to |items|
            invariant accumulator.items == found0 + ScanEntries(exclusionPatterns, busNo, path, items[..i]).found
            invariant client.listingLog == log0 + ScanEntries(exclusionPatterns, busNo, path, items[..i]).listed
            invariant client.transferLog == old(client.transferLog)
          {
            ScanEntriesSnoc(exclusionPatterns, busNo, path, items, i);
            ghost var done := ScanEntries(exclusionPatterns, busNo, path, items[..i]);
            var item := items[i];
            var fullPath := BuildFullPath(path, item.name);
            ghost var step := ScanEntry(exclusionPatterns, busNo, path, item);
            if item.FolderEntry? {
              assert step == VisitFolder(exclusionPatterns, busNo, fullPath, item.contents);
              ProcessFolder(busNo, fullPath, item.contents, accumulator);
            } else if IsGrxmlFile(fullPath) {
              accumulator.Add(fullPath);
              assert step.found == [fullPath] && step.listed == [];
            } else {
              assert step == NothingFound;
            }
            assert accumulator.items == found0 + done.found + step.found;
            assert client.listingLog == log0 + done.listed + step.listed;
            AppendAssociative(found0, done.found, step.found);
            AppendAssociative(log0, done.listed, step.listed);
          }
          SliceAll(items);
          AppendAssociative(log00, [ListingRequest(busNo, path)], ScanEntries(exclusionPatterns, busNo, path, items).listed);
      }
    }

    /** `ProcessFolder`: skips an excluded folder, otherwise scans it. */
    method ProcessFolder(busNo: int, folderPath: string, dir: Listing, accumulator: PathList)
      modifies client, accumulator
      ensures accumulator.items == old(accumulator.items) + VisitFolder(exclusionPatterns, busNo, folderPath, dir).found
      ensures client.listingLog == old(client.listingLog) + VisitFolder(exclusionPatterns, busNo, folderPath, dir).listed
      ensures client.transferLog == old(client.transferLog)
      decreases dir, 2
    {
      if ShouldExclude(folderPath, exclusionPatterns) {
        return;
      }
      ScanDirectoryRecursive(busNo, folderPath, dir, accumulator);
    }
  }
}
