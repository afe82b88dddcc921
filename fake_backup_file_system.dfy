/**
 * FakeBackupFileSystem: the in-memory backup store used by the backup and
 * restore tests. It keeps an ordered list of parsed backup paths, the keys
 * it was asked to download, the local files it was asked to upload, and
 * the scope (baseDir, region, clusterName) the last `list` call set, which
 * persists from one call to the next.
 */
module FakeBackup {
  import opened Wrappers
  import opened BackupPaths
  import opened Listing
  import opened Manifest

  datatype FsError =
    | IndexOutOfBounds(index: nat)   // ArrayIndexOutOfBoundsException from the scope split
    | BackupRestore(message: string) // BackupRestoreException wrapping an IOException

  datatype Result<T> = Ok(value: T) | Err(error: FsError)

  class FakeBackupFileSystem {
    /** `pathProvider.get().parseRemote(file)`: how a remote key becomes a backup path. */
    const parse: string -> BackupPath

    /** False until `setupTest` runs: until then the list and both sets are null in the source. */
    var isSetUp: bool
    var flist: seq<BackupPath>
    var downloadedFiles: set<string>
    var uploadedFiles: set<string>
    var baseDir: Option<string>
    var region: Option<string>
    var clusterName: Option<string>

    function CurrentScope(): Scope
      reads this
    {
      Scope(baseDir, region, clusterName)
    }

    constructor (parse: string -> BackupPath)
      ensures this.parse == parse && !isSetUp
      ensures flist == [] && downloadedFiles == {} && uploadedFiles == {}
      ensures CurrentScope() == Unset
    {
      this.parse := parse;
      isSetUp := false;
      flist, downloadedFiles, uploadedFiles := [], {}, {};
      baseDir, region, clusterName := None, None, None;
    }

    /** Empties the list and the downloaded set when they exist; the uploaded set is left alone. */
    method ClearTest()
      modifies this`flist, this`downloadedFiles
      ensures flist == (if isSetUp then [] else old(flist))
      ensures downloadedFiles == (if isSetUp then {} else old(downloadedFiles))
    {
      if isSetUp {
        flist := [];
        downloadedFiles := {};
      }
    }

    /** Starts a test whose store holds the parsed `files`, in the given order. */
    method SetupTest(files: seq<string>)
      modifies this`isSetUp, this`flist, this`downloadedFiles, this`uploadedFiles
      ensures isSetUp
      ensures |flist| == |files| && forall i :: 0 <= i < |files| ==> flist[i] == parse(files[i])
      ensures downloadedFiles == {} && uploadedFiles == {}
    {
      ClearTest();
      flist := [];
      for i := 0 to |files|
        invariant |flist| == i
        invariant forall k :: 0 <= k < i ==> flist[k] == parse(files[k])
      {
        var path := parse(files[i]);
        flist := flist + [path];
      }
      downloadedFiles := {};
      uploadedFiles := {};
      isSetUp := true;
    }

    /** Starts a test with an empty store. */
    method SetupEmptyTest()
      modifies this`isSetUp, this`flist, this`downloadedFiles, this`uploadedFiles
      ensures isSetUp
      ensures flist == [] && downloadedFiles == {} && uploadedFiles == {}
    {
      ClearTest();
      flist := [];
      downloadedFiles := {};
      uploadedFiles := {};
      isSetUp := true;
    }

    /** Appends one parsed entry to the store. */
    method AddFile(file: string)
      requires isSetUp
      modifies this`flist
      ensures flist == old(flist) + [parse(file)]
    {
      var path := parse(file);
      flist := flist + [path];
    }

    /**
     * Lists the store for the scope given as the segments of the bucket
     * string split at the path separator, over the window (start, till).
     * More than one segment sets the scope from segments 1, 2 and 3 first;
     * with two or three segments the split runs off the end after the
     * fields before the missing one are set.
     */
    method List(segments: seq<string>, start: int, till: int) returns (r: Result<seq<BackupPath>>)
      requires isSetUp
      modifies this`baseDir, this`region, this`clusterName
      ensures |segments| <= 1 ==> CurrentScope() == old(CurrentScope())
      ensures |segments| == 2 ==>
                CurrentScope() == old(CurrentScope()).(baseDir := Some(segments[1]))
                && r == Err(IndexOutOfBounds(2))
      ensures |segments| == 3 ==>
                CurrentScope() == old(CurrentScope()).(baseDir := Some(segments[1]), region := Some(segments[2]))
                && r == Err(IndexOutOfBounds(3))
      ensures |segments| >= 4 ==>
                CurrentScope() == Scope(Some(segments[1]), Some(segments[2]), Some(segments[3]))
      ensures r.Ok? <==> |segments| <= 1 || |segments| >= 4
      ensures r.Ok? ==> r.value == Filter(flist, start, till, CurrentScope())
    {
      if |segments| > 1 {
        baseDir := Some(segments[1]);
        if |segments| <= 2 {
          return Err(IndexOutOfBounds(2));
        }
        region := Some(segments[2]);
        if |segments| <= 3 {
          return Err(IndexOutOfBounds(3));
        }
        clusterName := Some(segments[3]);
      }

      ghost var scope := CurrentScope();
      var tmpList := [];
      for i := 0 to |flist|
        invariant CurrentScope() == scope
        invariant tmpList == Filter(flist[..i], start, till, scope)
      {
        var path := flist[i];
        if (start < path.time && path.time < till) || (path.time == start
            && Some(path.baseDir) == baseDir && Some(path.clusterName) == clusterName && Some(path.region) == region) {
          tmpList := tmpList + [path];
        }
        FilterSnoc(flist[..i], path, start, till, scope);
        assert flist[..i + 1] == flist[..i] + [path];
      }
      assert flist[..|flist|] == flist;
      return Ok(tmpList);
    }

    /** The fake holds no bytes: every size is 0. */
    method GetFileSize(remotePath: string) returns (size: int)
      ensures size == 0
    {
      return 0;
    }

    /**
     * Writes the manifest of the store's SNAP entries to the local file
     * (returned here as its list of remote paths) whatever `remotePath`
     * names, then records `remotePath` as downloaded. `ioError` is the
     * outcome of opening, writing and flushing the local file.
     */
    method DownloadFileImpl(remotePath: string, ioError: Option<string>) returns (r: Result<seq<string>>)
      requires isSetUp
      modifies this`downloadedFiles
      ensures ioError.Some? ==> r == Err(BackupRestore(ioError.value)) && downloadedFiles == old(downloadedFiles)
      ensures ioError.None? ==> r == Ok(SnapManifest(flist)) && downloadedFiles == old(downloadedFiles) + {remotePath}
    {
      var jsonObj := [];
      for i := 0 to |flist|
        invariant downloadedFiles == old(downloadedFiles)
        invariant jsonObj == SnapManifest(flist[..i])
      {
        var filePath := flist[i];
        if filePath.fileType == SNAP {
          jsonObj := jsonObj + [filePath.remotePath];
        }
        ManifestSnoc(flist[..i], filePath);
        assert flist[..i + 1] == flist[..i] + [filePath];
      }
      assert flist[..|flist|] == flist;
      if ioError.Some? {
        return Err(BackupRestore(ioError.value));
      }
      downloadedFiles := downloadedFiles + {remotePath};
      return Ok(jsonObj);
    }

    /**
     * Records the upload of the local file whose absolute path and length
     * are given, and reports that length as the bytes transferred.
     */
    method UploadFileImpl(localAbsolutePath: string, localLength: nat, remotePath: string) returns (n: nat)
      requires isSetUp
      modifies this`uploadedFiles
      ensures uploadedFiles == old(uploadedFiles) + {localAbsolutePath}
      ensures n == localLength
    {
      uploadedFiles := uploadedFiles + {localAbsolutePath};
      return localLength;
    }
  }
}
