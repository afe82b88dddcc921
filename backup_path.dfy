/**
 * A backup artifact as the fake store keeps it: the fields of an
 * S3BackupPath after `parseRemote`, with the time as milliseconds
 * (the resolution of java.util.Date).
 */
module BackupPaths {

  /** Artifact kinds; only SNAP is singled out by the store. */
  datatype FileType = SNAP | SST | CL | META

  datatype BackupPath = BackupPath(
    baseDir: string,
    region: string,
    clusterName: string,
    time: int,
    fileType: FileType,
    remotePath: string)

  /** The remote paths of `s`, position by position. */
  function RemotePaths(s: seq<BackupPath>): (r: seq<string>)
    ensures |r| == |s|
  {
    seq(|s|, i requires 0 <= i < |s| => s[i].remotePath)
  }
}
