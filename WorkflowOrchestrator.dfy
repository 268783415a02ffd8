/**
  The per-BU workflow: for each business unit in turn, scan its remote tree
  from `/` for `.grxml` files, download exactly the files found, and add the
  number downloaded to the total. One scanner and one downloader, sharing
  the client, serve all BUs.
*/
module WorkflowOrchestrator {
  import opened FileServer
  import opened FileScanner
  import opened FileDownloader
  import opened Seqs

  /**
    What a run depends on besides its BU list: the server's listings and
    transfer outcomes, the exclusion patterns, the output directory, and the
    local disk as the run finds it (the directories that exist, the missing
    ones that can be created, the platform separator).
  */
  datatype Run = Run(roots: int -> Listing, transfers: (int, string) -> TransferOutcome, patterns: seq<string>,
                     outputDirectory: string, directories: set<string>, creatable: string -> bool, sep: char)

  // ---------------------------------------------------------------------------
  // One BU

  /** The scan of one BU, from its root `/`. */
  function ScanOf(run: Run, busNo: int): ScanResult {
    ScanDirectory(run.patterns, busNo, "/", run.roots(busNo))
  }

  /** The local directory of one BU's downloads. */
  function BuDirectory(run: Run, busNo: int): string {
    BuOutputDirectory(run.outputDirectory, busNo, run.sep)
  }

  /** What `ProcessSingleBU(busNo, ...)` returns: the downloads of the files its scan found. */
  function Downloaded(run: Run, busNo: int): (r: nat)
    ensures r <= |ScanOf(run, busNo).found|
    ensures ScanOf(run, busNo).found == [] ==> r == 0
  {
    SuccessCountBounds(run.transfers, busNo, ScanOf(run, busNo).found, BuDirectory(run, busNo), run.directories, run.creatable, run.sep);
    SuccessCount(run.transfers, busNo, ScanOf(run, busNo).found, BuDirectory(run, busNo), run.directories, run.creatable, run.sep)
  }

  /** The local paths the downloads of one BU write to. */
  function BuLocalPaths(run: Run, busNo: int): seq<string> {
    LocalPaths(ScanOf(run, busNo).found, BuDirectory(run, busNo), run.sep)
  }

  /** The transfers the downloads of one BU issue. */
  function BuTransfers(run: Run, busNo: int): seq<TransferRequest> {
    Transfers(busNo, ScanOf(run, busNo).found, BuDirectory(run, busNo), run.directories, run.creatable, run.sep)
  }

  /**
    The directories created by earlier BUs change neither what a later BU
    downloads nor which transfers it issues.
  */
  lemma DownloadsAfterEarlierBus(run: Run, paths: seq<string>, busNo: int)
    ensures var later := run.(directories := EnsureAll(run.directories, run.creatable, paths, run.sep));
      Downloaded(later, busNo) == Downloaded(run, busNo) && BuTransfers(later, busNo) == BuTransfers(run, busNo)
  {
    var found := ScanOf(run, busNo).found;
    OutcomesAfterAll(run.transfers, busNo, found, BuDirectory(run, busNo), run.directories, run.creatable, paths, run.sep);
    TransfersAfterAll(busNo, found, BuDirectory(run, busNo), run.directories, run.creatable, paths, run.sep);
  }

  // ---------------------------------------------------------------------------
  // A sequence of BUs, processed in order

  /** What `ProcessBusinessUnits(businessUnits)` returns. */
  function Total(run: Run, businessUnits: seq<int>): nat
  {
    if businessUnits == [] then 0
    else Total(run, businessUnits[..|businessUnits| - 1]) + Downloaded(run, businessUnits[|businessUnits| - 1])
  }

  /** How many files the scans of all the BUs find. */
  function DiscoveredCount(run: Run, businessUnits: seq<int>): nat
  {
    if businessUnits == [] then 0
    else DiscoveredCount(run, businessUnits[..|businessUnits| - 1]) + |ScanOf(run, businessUnits[|businessUnits| - 1]).found|
  }

  /** The listing requests of all the BUs, one BU's block after another. */
  function Listings(run: Run, businessUnits: seq<int>): seq<ListingRequest>
  {
    if businessUnits == [] then []
    else Listings(run, businessUnits[..|businessUnits| - 1]) + ScanOf(run, businessUnits[|businessUnits| - 1]).listed
  }

  /** The transfers of all the BUs, in BU order. */
  function AllTransfers(run: Run, businessUnits: seq<int>): seq<TransferRequest>
  {
    if businessUnits == [] then []
    else AllTransfers(run, businessUnits[..|businessUnits| - 1]) + BuTransfers(run, businessUnits[|businessUnits| - 1])
  }

  /** The local paths of all the BUs' downloads, in BU order. */
  function AllLocalPaths(run: Run, businessUnits: seq<int>): seq<string>
  {
    if businessUnits == [] then []
    else AllLocalPaths(run, businessUnits[..|businessUnits| - 1]) + BuLocalPaths(run, businessUnits[|businessUnits| - 1])
  }

  /** Processing two lists of BUs one after the other adds their totals. */
  lemma {:induction false} TotalAppend(run: Run, a: seq<int>, b: seq<int>)
    ensures Total(run, a + b) == Total(run, a) + Total(run, b)
    decreases |b|
  {
    if b == [] {
      assert a + b == a;
    } else {
      assert (a + b)[..|a + b| - 1] == a + b[..|b| - 1];
      assert (a + b)[|a + b| - 1] == b[|b| - 1];
      TotalAppend(run, a, b[..|b| - 1]);
    }
  }

  /** No BU downloads more files than its scan found, so neither does the whole run. */
  lemma {:induction false} TotalAtMostDiscovered(run: Run, businessUnits: seq<int>)
    ensures Total(run, businessUnits) <= DiscoveredCount(run, businessUnits)
  {
    if businessUnits != [] {
      TotalAtMostDiscovered(run, businessUnits[..|businessUnits| - 1]);
    }
  }

  /**
    When every directory can be created and every transfer succeeds, the
    total is the number of files found.
  */
  lemma {:induction false} TotalWhenAllSucceed(run: Run, businessUnits: seq<int>)
    requires forall d :: run.creatable(d)
    requires forall busNo: int, path: string :: run.transfers(busNo, path) == Completed(Success)
    ensures Total(run, businessUnits) == DiscoveredCount(run, businessUnits)
  {
    if businessUnits != [] {
      var busNo := businessUnits[|businessUnits| - 1];
      var found := ScanOf(run, busNo).found;
      TotalWhenAllSucceed(run, businessUnits[..|businessUnits| - 1]);
      forall k | 0 <= k < |found|
        ensures Placeable(run.directories, run.creatable, BuildLocalPath(found[k], BuDirectory(run, busNo), run.sep), run.sep)
      {
        assert run.creatable(DirectoryName(BuildLocalPath(found[k], BuDirectory(run, busNo), run.sep), run.sep));
      }
      SuccessCountBounds(run.transfers, busNo, found, BuDirectory(run, busNo), run.directories, run.creatable, run.sep);
    }
  }

  /** When every directory can be created, every file found is transferred, BU by BU. */
  lemma {:induction false} AllTransfersWhenCreatable(run: Run, businessUnits: seq<int>)
    requires forall d :: run.creatable(d)
    ensures |AllTransfers(run, businessUnits)| == DiscoveredCount(run, businessUnits)
  {
    if businessUnits != [] {
      var busNo := businessUnits[|businessUnits| - 1];
      var found := ScanOf(run, busNo).found;
      AllTransfersWhenCreatable(run, businessUnits[..|businessUnits| - 1]);
      forall k | 0 <= k < |found|
        ensures Placeable(run.directories, run.creatable, BuildLocalPath(found[k], BuDirectory(run, busNo), run.sep), run.sep)
      {
        assert run.creatable(DirectoryName(BuildLocalPath(found[k], BuDirectory(run, busNo), run.sep), run.sep));
      }
      TransfersAllPlaceable(busNo, found, BuDirectory(run, busNo), run.directories, run.creatable, run.sep);
    }
  }

  lemma {:induction false} ListingsAppend(run: Run, a: seq<int>, b: seq<int>)
    ensures Listings(run, a + b) == Listings(run, a) + Listings(run, b)
    decreases |b|
  {
    if b == [] {
      assert a + b == a;
    } else {
      var front := b[..|b| - 1];
      assert (a + b)[..|a + b| - 1] == a + front;
      assert (a + b)[|a + b| - 1] == b[|b| - 1];
      ListingsAppend(run, a, front);
      var la := Listings(run, a);
      var lf := Listings(run, front);
      var last := ScanOf(run, b[|b| - 1]).listed;
      assert la + lf + last == la + (lf + last);
    }
  }

  /**
    BUs are processed one at a time in the given order: the listing requests
    fall into consecutive blocks, the `i`-th block is non-empty, starts with
    the request for BU `businessUnits[i]`'s root `/`, and holds only that
    BU's requests.
  */
  lemma ListingsInBuOrder(run: Run, businessUnits: seq<int>, i: nat)
    requires i < |businessUnits|
    ensures var all := Listings(run, businessUnits);
      var lo := |Listings(run, businessUnits[..i])|;
      var hi := |Listings(run, businessUnits[..i + 1])|;
      && lo < hi <= |all|
      && all[lo] == ListingRequest(businessUnits[i], "/")
      && forall k :: lo <= k < hi ==> all[k].busNo == businessUnits[i]
  {
    var busNo := businessUnits[i];
    var upto := businessUnits[..i + 1];
    assert upto[..i] == businessUnits[..i];
    assert businessUnits == upto + businessUnits[i + 1..];
    ListingsAppend(run, upto, businessUnits[i + 1..]);
    var all := Listings(run, businessUnits);
    var before := Listings(run, businessUnits[..i]);
    var block := ScanOf(run, busNo).listed;
    assert Listings(run, upto) == before + block;
    ScanDirectoryOk(run.patterns, busNo, "/", run.roots(busNo));
    forall k | |before| <= k < |before| + |block| ensures all[k].busNo == busNo {
      assert all[k] == block[k - |before|];
      if k > |before| {
        assert block[k - |before|] == block[1..][k - |before| - 1];
      }
    }
  }

  /** One more BU: each fold gains that BU's part at its end. */
  lemma FoldsSnoc(run: Run, businessUnits: seq<int>, i: nat)
    requires i < |businessUnits|
    ensures var upto := businessUnits[..i + 1]; var before := businessUnits[..i]; var busNo := businessUnits[i];
      && Total(run, upto) == Total(run, before) + Downloaded(run, busNo)
      && Listings(run, upto) == Listings(run, before) + ScanOf(run, busNo).listed
      && AllTransfers(run, upto) == AllTransfers(run, before) + BuTransfers(run, busNo)
      && AllLocalPaths(run, upto) == AllLocalPaths(run, before) + BuLocalPaths(run, busNo)
  {
    assert businessUnits[..i + 1][..i] == businessUnits[..i];
  }

  // ---------------------------------------------------------------------------
  // The orchestrator

  class Orchestrator {
    const client: Client
    const disk: LocalDisk
    const outputDirectory: string
    const exclusionPatterns: seq<string>

    constructor (client: Client, disk: LocalDisk, outputDirectory: string, exclusionPatterns: seq<string>)
      ensures this.client == client && this.disk == disk
      ensures this.outputDirectory == outputDirectory && this.exclusionPatterns == exclusionPatterns
    {
      this.client := client;
      this.disk := disk;
      this.outputDirectory := outputDirectory;
      this.exclusionPatterns := exclusionPatterns;
    }

    /** The run this orchestrator makes when the disk holds `directories`. */
    function RunFrom(directories: set<string>): Run
      reads this, client, disk
    {
      Run(client.roots, client.transfers, exclusionPatterns, outputDirectory, directories, disk.creatable, disk.sep)
    }

    /** `ProcessBusinessUnits(businessUnits)`: the BUs in order, summing what each downloads. */
    method ProcessBusinessUnits(businessUnits: seq<int>) returns (totalFiles: nat)
      modifies client, disk
      ensures var run := RunFrom(old(disk.directories));
        && totalFiles == Total(run, businessUnits)
        && client.listingLog == old(client.listingLog) + Listings(run, businessUnits)
        && client.transferLog == old(client.transferLog) + AllTransfers(run, businessUnits)
        && disk.directories == EnsureAll(old(disk.directories), disk.creatable, AllLocalPaths(run, businessUnits), disk.sep)
    {
      var scanner := new Scanner(client, exclusionPatterns);
      var downloader := new Downloader(client, disk, outputDirectory);
      ghost var run := RunFrom(disk.directories);
      totalFiles := 0;
      for i := 0 to |businessUnits|
        invariant RunFrom(run.directories) == run
        invariant totalFiles == Total(run, businessUnits[..i])
        invariant client.listingLog == old(client.listingLog) + Listings(run, businessUnits[..i])
        invariant client.transferLog == old(client.transferLog) + AllTransfers(run, businessUnits[..i])
        invariant disk.directories == EnsureAll(run.directories, run.creatable, AllLocalPaths(run, businessUnits[..i]), run.sep)
      {
        var busNo := businessUnits[i];
        ghost var before := businessUnits[..i];
        ghost var listed := client.listingLog;
        ghost var transferred := client.transferLog;
        ghost var dirs := disk.directories;
        ghost var now := RunFrom(dirs);
        var downloaded := ProcessSingleBU(busNo, scanner, downloader);
        assert now == run.(directories := dirs);
        DownloadsAfterEarlierBus(run, AllLocalPaths(run, before), busNo);
        assert ScanOf(now, busNo) == ScanOf(run, busNo);
        assert BuLocalPaths(now, busNo) == BuLocalPaths(run, busNo);
        totalFiles := totalFiles + downloaded;
        FoldsSnoc(run, businessUnits, i);
        AppendAssociative(old(client.listingLog), Listings(run, before), ScanOf(run, busNo).listed);
        AppendAssociative(old(client.transferLog), AllTransfers(run, before), BuTransfers(run, busNo));
        EnsureAllAppend(run.directories, run.creatable, AllLocalPaths(run, before), BuLocalPaths(run, busNo), run.sep);
      }
      assert businessUnits[..|businessUnits|] == businessUnits;
    }

    /**
      `ProcessSingleBU(busNo, scanner, downloader)`: scans the BU from `/`
      and hands exactly the files found to the downloader.
    */
    method ProcessSingleBU(busNo: int, scanner: Scanner, downloader: Downloader) returns (downloaded: nat)
      requires scanner.client == client && scanner.exclusionPatterns == exclusionPatterns
      requires downloader.client == client && downloader.disk == disk && downloader.outputDirectory == outputDirectory
      modifies client, disk
      ensures var run := RunFrom(old(disk.directories));
        && downloaded == Downloaded(run, busNo)
        && client.listingLog == old(client.listingLog) + ScanOf(run, busNo).listed
        && client.transferLog == old(client.transferLog) + BuTransfers(run, busNo)
        && disk.directories == EnsureAll(old(disk.directories), disk.creatable, BuLocalPaths(run, busNo), disk.sep)
    {
      var files := scanner.ScanForGrxmlFiles(busNo, "/", client.roots(busNo));
      downloaded := downloader.DownloadFiles(busNo, files);
    }
  }
}
