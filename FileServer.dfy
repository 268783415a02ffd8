/**
  The remote file server as the harvesting pipeline sees it through its
  client interface: per business unit (BU), a tree of directories whose
  listings may fail, and a transfer outcome per remote file. The client keeps
  a ghost log of every request it receives, in order.
*/
module FileServer {

  /**
    What a directory listing request gives back: the client threw (`Failed`),
    the result or its `Files` list was null (`Missing`), or the entries in
    server order.
  */
  datatype Listing = Failed | Missing | Entries(items: seq<Node>)

  /** A listing entry; a folder carries the listing the server gives for it. */
  datatype Node = FileEntry(name: string) | FolderEntry(name: string, contents: Listing)

  /** The status codes of a completed transfer that the downloader tells apart. */
  datatype FileServerCode = Success | FileNotFound | OtherCode(code: int)

  /** A transfer either completes with a status code or throws. */
  datatype TransferOutcome = Completed(actionResult: FileServerCode) | Threw

  datatype ListingRequest = ListingRequest(busNo: int, path: string)

  datatype TransferRequest = TransferRequest(busNo: int, remotePath: string, localPath: string)

  /**
    The client. `roots` gives the listing of each BU's root directory (the
    folders in it carry theirs), `transfers` the outcome of fetching a remote
    file of a BU.
  */
  class Client {
    const roots: int -> Listing
    const transfers: (int, string) -> TransferOutcome
    ghost var listingLog: seq<ListingRequest>
    ghost var transferLog: seq<TransferRequest>

    constructor (roots: int -> Listing, transfers: (int, string) -> TransferOutcome)
      ensures this.roots == roots && this.transfers == transfers
      ensures listingLog == [] && transferLog == []
    {
      this.roots := roots;
      this.transfers := transfers;
      listingLog := [];
      transferLog := [];
    }

    /**
      `GetDirectoryListing(busNo, path, "*", false, false, false)`: `dir` is the
      remote directory found at `path`; the request is logged whatever the outcome.
    */
    method GetDirectoryListing(busNo: int, path: string, dir: Listing) returns (result: Listing)
      modifies this
      ensures result == dir
      ensures listingLog == old(listingLog) + [ListingRequest(busNo, path)]
      ensures transferLog == old(transferLog)
    {
      listingLog := listingLog + [ListingRequest(busNo, path)];
      result := dir;
    }

    /** `GetFileFromServer(busNo, remotePath, localPath)`: one logged transfer. */
    method GetFileFromServer(busNo: int, remotePath: string, localPath: string) returns (result: TransferOutcome)
      modifies this
      ensures result == transfers(busNo, remotePath)
      ensures transferLog == old(transferLog) + [TransferRequest(busNo, remotePath, localPath)]
      ensures listingLog == old(listingLog)
    {
      transferLog := transferLog + [TransferRequest(busNo, remotePath, localPath)];
      result := transfers(busNo, remotePath);
    }
  }
}
