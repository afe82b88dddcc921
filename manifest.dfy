/**
 * The manifest that FakeBackupFileSystem.downloadFileImpl writes: the
 * remote paths of the SNAP entries of the store, in store order.
 */
module Manifest {
  import opened BackupPaths
  import opened Sequences

  predicate IsSnap(p: BackupPath) {
    p.fileType == SNAP
  }

  function SnapManifest(fl: seq<BackupPath>): seq<string> {
    RemotePaths(KeepIf(fl, IsSnap))
  }

  /** The manifest grows entry by entry, as the loop in `downloadFileImpl` builds it. */
  lemma ManifestSnoc(fl: seq<BackupPath>, p: BackupPath)
    ensures SnapManifest([]) == []
    ensures SnapManifest(fl + [p]) == SnapManifest(fl) + (if IsSnap(p) then [p.remotePath] else [])
  {
    KeepIfSnoc(fl, p, IsSnap);
    var k := KeepIf(fl, IsSnap);
    if IsSnap(p) {
      assert RemotePaths(k + [p]) == RemotePaths(k) + [p.remotePath];
    }
  }

  /** A string is in the manifest exactly when some SNAP entry of the store has it as remote path. */
  lemma ManifestMember(fl: seq<BackupPath>, x: string)
    ensures x in SnapManifest(fl) <==> exists p :: p in fl && IsSnap(p) && p.remotePath == x
  {
    var k := KeepIf(fl, IsSnap);
    if x in SnapManifest(fl) {
      var i :| 0 <= i < |k| && RemotePaths(k)[i] == x;
      KeepIfMember(fl, IsSnap, k[i]);
    }
    if exists p :: p in fl && IsSnap(p) && p.remotePath == x {
      var p :| p in fl && IsSnap(p) && p.remotePath == x;
      KeepIfMember(fl, IsSnap, p);
      var i :| 0 <= i < |k| && k[i] == p;
      assert RemotePaths(k)[i] == x;
    }
  }

  lemma {:induction false} RemotePathsKeepOrder(a: seq<BackupPath>, b: seq<BackupPath>)
    requires IsSubsequence(a, b)
    ensures IsSubsequence(RemotePaths(a), RemotePaths(b))
    decreases |b|
  {
    if a != [] {
      assert RemotePaths(a)[1..] == RemotePaths(a[1..]);
      assert RemotePaths(b)[1..] == RemotePaths(b[1..]);
      if a[0] == b[0] && IsSubsequence(a[1..], b[1..]) {
        RemotePathsKeepOrder(a[1..], b[1..]);
      } else {
        RemotePathsKeepOrder(a, b[1..]);
      }
    }
  }

  /** The manifest lists remote paths in the order their entries have in the store. */
  lemma ManifestInStoreOrder(fl: seq<BackupPath>)
    ensures IsSubsequence(SnapManifest(fl), RemotePaths(fl))
  {
    KeepIfIsSubsequence(fl, IsSnap);
    RemotePathsKeepOrder(KeepIf(fl, IsSnap), fl);
  }

  /** A store without SNAP entries yields an empty manifest, whatever else it holds. */
  lemma ManifestEmptyWithoutSnaps(fl: seq<BackupPath>)
    requires forall i :: 0 <= i < |fl| ==> !IsSnap(fl[i])
    ensures SnapManifest(fl) == []
  {
    if SnapManifest(fl) != [] {
      ManifestMember(fl, SnapManifest(fl)[0]);
    }
  }
}
