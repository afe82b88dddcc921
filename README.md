# Fake backup file system (Priam), modelled in Dafny

Priam's backup tests run against `FakeBackupFileSystem`, an in-memory backup
store. It keeps an ordered list of backup paths (`flist`), the set of remote
keys it was asked to download, the set of local files it was asked to upload,
and a current scope (`baseDir`, `region`, `clusterName`) that each `list` call
may overwrite and that persists between calls. This project models that class
and proves what its listing, manifest and bookkeeping do.

Files and modules:

- `wrappers.dfy` (`Wrappers`): `Option`, standing for a Java reference that may be null.
- `sequences.dfy` (`Sequences`): `KeepIf`, an order-preserving selection, and
  `IsSubsequence`, with lemmas on concatenation, order, multiplicity and membership.
- `backup_path.dfy` (`BackupPaths`): a backup path as the store holds it after
  `parseRemote`: baseDir, region, clusterName, time in milliseconds, file type
  and remote path.
- `listing.dfy` (`Listing`): the selection rule of `list` and its properties.
- `manifest.dfy` (`Manifest`): the manifest `downloadFileImpl` writes.
- `fake_backup_file_system.dfy` (`FakeBackup`): the class
  `FakeBackupFileSystem`, its fields and its methods, each proved against the
  functions above.

The listing condition in the source, `after(start) && before(till) ||
equals(start) && <scope matches>`, groups as `A || (B && C)`. The model keeps
that grouping. An entry strictly between `start` and `till` is listed whatever
its scope. The scope is checked only for an entry stamped exactly `start`.
`Listing.ScopedSelected` is the other reading, which applies the scope to every
entry over `[start, till)`. Two lemmas relate it to the rule as written. The
class uses the rule as written.

The scope string is taken already split into its segments. When there are two
or three segments, `list` assigns the fields it can and then fails with an
index out of bounds error. The model returns `Err(IndexOutOfBounds(i))` after
making the same partial assignment.

Scope fields that were never set are `None`. A `None` field never matches,
because `equals(null)` is false in Java. Until `setupTest` runs, the list and
both sets are null in the source. The model tracks this with `isSetUp`, and the
methods that would dereference them require it.

## Model

| member | source | states |
|---|---|---|
| FakeBackup.FakeBackupFileSystem.constructor | priam/src/test/java/com/netflix/priam/backup/FakeBackupFileSystem.java:39-52 | a new store is not set up, holds nothing, and has its three scope fields unset |
| FakeBackup.FakeBackupFileSystem.ClearTest | priam/src/test/java/com/netflix/priam/backup/FakeBackupFileSystem.java:73-78 | once set up, the list and the downloaded set are emptied; the uploaded set, the scope and everything before setup are left as they were |
| FakeBackup.FakeBackupFileSystem.SetupTest | priam/src/test/java/com/netflix/priam/backup/FakeBackupFileSystem.java:54-64 | afterwards the list holds the parsed files in the given order, one per file, and both sets are empty |
| FakeBackup.FakeBackupFileSystem.SetupEmptyTest | priam/src/test/java/com/netflix/priam/backup/FakeBackupFileSystem.java:66-71 | afterwards the list and both sets are empty |
| FakeBackup.FakeBackupFileSystem.AddFile | priam/src/test/java/com/netflix/priam/backup/FakeBackupFileSystem.java:80-84 | exactly one parsed entry is appended at the end; earlier entries, the sets and the scope do not change |
| FakeBackup.FakeBackupFileSystem.List | priam/src/test/java/com/netflix/priam/backup/FakeBackupFileSystem.java:87-105 | with one segment or none the scope persists; with four or more it becomes segments 1 to 3; with two or three the fields before the missing segment are set and the call fails; on success the result is the listing of the store under the new scope; the list and both sets never change |
| FakeBackup.FakeBackupFileSystem.GetFileSize | priam/src/test/java/com/netflix/priam/backup/FakeBackupFileSystem.java:111-114 | the size of any key is 0 |
| FakeBackup.FakeBackupFileSystem.DownloadFileImpl | priam/src/test/java/com/netflix/priam/backup/FakeBackupFileSystem.java:127-146 | for any requested key, the manifest written is the remote paths of the store's SNAP entries in store order, and the key joins the downloaded set; on an I/O failure the error carries its message and the downloaded set is unchanged; the list and the scope never change |
| FakeBackup.FakeBackupFileSystem.UploadFileImpl | priam/src/test/java/com/netflix/priam/backup/FakeBackupFileSystem.java:148-152 | the local absolute path joins the uploaded set and the local length is returned; the list and the downloaded set do not change |
| Listing.FilterExact | priam/src/test/java/com/netflix/priam/backup/FakeBackupFileSystem.java:96-104 | the listing is a subsequence of the store, and holds every occurrence of each entry that satisfies the rule as written and no occurrence of any other entry |
| Listing.FilterMember | priam/src/test/java/com/netflix/priam/backup/FakeBackupFileSystem.java:97-102 | an entry is listed if and only if it is in the store and satisfies the rule as written |
| Listing.FilterSnoc | priam/src/test/java/com/netflix/priam/backup/FakeBackupFileSystem.java:96-103 | an empty store lists nothing, and appending an entry (as addFile does) extends the listing by that entry exactly when the rule admits it |
| Listing.InsideWindowListedWhateverScope | priam/src/test/java/com/netflix/priam/backup/FakeBackupFileSystem.java:99-100 | an entry strictly between start and till is listed even when its baseDir, region or clusterName differ from the scope |
| Listing.AtStartListedIffInScope | priam/src/test/java/com/netflix/priam/backup/FakeBackupFileSystem.java:99-100 | an entry stamped exactly start is listed if and only if baseDir, region and clusterName all match the scope |
| Listing.OutsideWindowNeverListed | priam/src/test/java/com/netflix/priam/backup/FakeBackupFileSystem.java:99-100 | an entry before start, or at or after till without being at start, is never listed |
| Listing.UnsetScopeListsInsideOnly | priam/src/test/java/com/netflix/priam/backup/FakeBackupFileSystem.java:99-100 | while the scope fields are unset, only entries strictly inside the window are listed |
| Listing.SelectedVersusScoped | priam/src/test/java/com/netflix/priam/backup/FakeBackupFileSystem.java:99-100 | the rule as written admits what the scoped reading admits, plus out-of-scope entries strictly inside the window, plus in-scope entries at start when till is not after start |
| Listing.FilterContainsScoped | priam/src/test/java/com/netflix/priam/backup/FakeBackupFileSystem.java:96-104 | the listing as written contains the scoped listing, in the same order |
| Listing.PrecedenceExample | priam/src/test/java/com/netflix/priam/backup/FakeBackupFileSystem.java:99-100 | with entries at times 1, 2 and 3, the one at 2 from another cluster, listing over (1, 3) returns the entries at 1 and 2 |
| Manifest.ManifestSnoc | priam/src/test/java/com/netflix/priam/backup/FakeBackupFileSystem.java:133-137 | an empty store gives an empty manifest, and appending an entry adds its remote path at the end exactly when it is SNAP |
| Manifest.ManifestMember | priam/src/test/java/com/netflix/priam/backup/FakeBackupFileSystem.java:134-137 | a string is in the manifest if and only if it is the remote path of some SNAP entry of the store |
| Manifest.ManifestInStoreOrder | priam/src/test/java/com/netflix/priam/backup/FakeBackupFileSystem.java:134-137 | the manifest is a subsequence of the store's remote paths, so it keeps store order |
| Manifest.ManifestEmptyWithoutSnaps | priam/src/test/java/com/netflix/priam/backup/FakeBackupFileSystem.java:129-137 | a store with no SNAP entry gives an empty manifest, even when the requested key is a META file |

## Left out

- `S3BackupPath.parseRemote` and `AbstractBackupPath` are not part of this model. Parsing is the `parse` function given to the constructor, and a backup path is a record.
- `AbstractBackupPath.BackupFileType` is not part of this model. `FileType` lists SNAP, SST, CL and META. The store only tells SNAP apart from the rest.
- `String.split` is left out, including how it drops trailing empty strings. `List` takes the segments directly.
- `java.util.Date` is left out. Times are milliseconds as integers, compared with `<` and `==`.
- `File.length()` and `getAbsolutePath()` are filesystem calls. `UploadFileImpl` takes their results as parameters.
- `FileWriter` and `JSONArray.toJSONString` are left out. `DownloadFileImpl` returns the list of remote paths it would write. `ioError` is the outcome of opening, writing and flushing the file. The local destination is not a parameter.
- `System.out.println` in `downloadFileImpl` is console output and is left out.
- `listPrefixes` always returns null. `cleanup` and `shutdown` do nothing. None of them is modelled.
- Guice injection, the superclass constructor, and the metrics and notifications of `AbstractFileSystem` are wiring. They are not part of this model.
- Aliasing is not modelled. In the source, `clearTest` empties the old list and downloaded-set objects before `setupTest` replaces them, so a test holding the old set sees it emptied. In the model, fields are values.
- A null `baseDir`, `region` or `clusterName` inside a stored path would raise a NullPointerException in `list`. This is not modelled, because parsed paths carry all three fields.
