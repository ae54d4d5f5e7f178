# Verification of the upload, bucket tree and watcher cores

This project models the stateful parts of the upload, directory and user services and proves what they keep.

- **Upload** (`UploadStream`, `UploadBuffer`, `Upload`): the multipart token stream, the 8 KiB write
  buffer and the five-state poll machine. The machine is compared with unbuffered writing, and that with
  the form itself. The multipart parser is a script of answers; a file may answer Pending, fail, or take
  any part of what it is given, at every call, and the disk keeps an account of what it answered, so that no
  Pending and no failure of the machine goes without one of theirs.
- **Bucket tree and document store** (`Keys`, `BucketMap`, `Paths`, `Names`, `LocalStorage`, `Agreement`,
  `Manager`, `Build`, `BuildLaws`, `CleanBuild`, `ChildMaps`): the tree of maps is compared with its flat meaning, a
  partial function from (bucket, path) to objects, with panics as outcomes; the store is a map with the
  unique index; the agreement of the two is characterised change by change; and building is compared with
  the disk.
- **Watcher** (`RenameControl`, `Skipper`, `Handlers`, `EventWatcher`, `Convergence`, `Dashes`, `Reports`): the
  actors as steps over mailboxes and timers, each proved alone, then composed at bucket level with a disk;
  below bucket level, what each event makes of the tree (`Reports`).
- **Side cores**: the SQL builder (`Queries`) read back by a small reader of its own texts, and the
  observer protocol (`Broker`).

Classes stand for the objects the program changes in place; each method is proved against a function on
values, and the laws are lemmas about that function. `requires` clauses of laws say which inputs a law is
about; the functions and methods take all inputs the program takes.

Where the code does not do what its names or logs suggest, the code is modelled and the exact condition
is proved:

- `bucket_map.rs:189, 203, 264, 281, 324, 338` unwrap a child map that a new entry does not have
  (`PanicsExactly`), and no change ever gives it one (`FirstKeyPanics`, `FirstKeySinceBuild`).
- `local_storage/mod.rs:179, 209-210, 231` let the store fall behind the tree (`StepAgreement`,
  `StoreFallsBehind`).
- `bucket_map.rs:394-402` does not record the ids of inserted documents, so the clean-up deletes them
  again and a file without a document never gets one from a build (`BuiltStore`, `BuiltAgreement`).
- `bucket/utils/mod.rs:59-66` keeps the path from before the rename, so building panics after it
  (`BuildPanics`).
- `key.rs:48` cuts at the first occurrence of the bucket's name in the whole path (`FromBucketExact`).
- `manager/utils/mod.rs:209-215` marks the key before it is cleaned (`NestedEcho`); line 245 unwraps a key
  that a file directly below the root does not have (`RootFilePanics`).
- Below bucket level the tree follows the disk for some events only: a renamed file exactly if it stays in its
  directory (`manager/utils/mod.rs:244-266`, `FileRenameFollowed`), a renamed directory exactly if it stays in
  its parent (`mod.rs:178-182`, `DirRenameFollowed`), a new directory with an unclean name exactly if its
  clean name is its bucket's (`mod.rs:61`, `UncleanDirectoryLost`). A file renamed to an unclean name
  keeps its old name in the tree (`mod.rs:280-285`, `UncleanFileRenameLost`), a removed file stays in it
  (`event_watcher/mod.rs:249`, `RemovedFileStays`), and a removal that is reported because nothing came back has
  lost its path (`event_watcher/mod.rs:277, 282`, `TimedOutRemovalLost`). A directory whose second rename the
  disk refuses is reported all the same (`manager/utils/mod.rs:190-192`, `RefusedDirRename`).
- `normalizeds.rs:58` makes a fallback name that is not clean, and the first directory of dashes only parts
  tree and disk for the rest of the run (`DirSettles`, `Converges`, `AllDashDiverges`, `OneCreation`).
- `rename_control.rs:71` and `81` insert and remove by path, so a second From replaces the handle of a live
  timer (`OlderTimer`) and an old Expire drops a newer handle (`StaleExpire`); a Decline then does not keep
  its path from being reported (`DeclineExact`). The accounting and the absence of leaks hold all the same.
- `queries.rs:234-243` gives all conditions of an UPDATE the same placeholder and the word WHERE
  (`UpdateOwn.Query`); calling `from` twice shifts the values against the placeholders (`UpdateOwn.From`).

## Model

| member | source | states |
|---|---|---|
| Upload.Serve | upload_files/src/handlers/api_v1/file.rs:57-97 | Whole requests, for every number of polls: however the polls answer (waiting, short writes, failures), the log is a first part of what the form itself says, one result per field in order and at most one failure; every reported file was on disk in full after the poll that reported it; a run that ends without failure leaves exactly the files of the form. One poll for each wait of disk or parser, for each result and for the end always finishes the request, with one more if the disk failed; and only a failure of the disk parts log and form |
| Upload.HandleUpload | upload_files/src/handlers/api_v1/file.rs:42-97 | One request from the form, with its two allowed media types and two directories: while the disk has not failed the results are a first part of what the form says, and with as many polls as results, waits and one more they are all of it and the request is done |
| Upload.Upload.PollNext | upload_files/src/stream_upload/mod.rs:187-288 | One poll against unbuffered writing: Pending is invisible to it and is exactly one wait of the disk or of the parser; a result is its next result, with the disk equal to its files, after exactly one flush; a failure is its own, or exactly one failure of the disk handed on, and ends the stream; after an error only None follows; the poll always returns |
| Upload.PlainIsExpected | upload_files/src/stream_upload/mod.rs:218-283 | Unbuffered writing of a form's tokens gives what the form says: per field one file holding the concatenation of its chunks, its length and its name, in order, up to the first error |
| Upload.PlainBody | upload_files/src/stream_upload/mod.rs:227-229 | One field: its chunks, however they are cut, add up to the concatenation behind what the file already holds |
| Upload.PlainWrite | upload_files/src/stream_upload/mod.rs:203-211 | Writing a first part of a chunk and carrying the rest is writing the chunk |
| Upload.Upload.constructor | upload_files/src/stream_upload/mod.rs:166-176 | A new machine's whole future is what the form says |
| Upload.Upload.Turn | upload_files/src/stream_upload/mod.rs:193-286 | Every turn of the loop answers or comes closer to an answer (events left, state, bytes in hand, zero-byte answers left), shows plain writing nothing else than its answer, and its Pending or failure is one wait or failure of disk or parser |
| Upload.Upload.WriteStep | upload_files/src/stream_upload/mod.rs:195-217 | Handing a chunk to the buffer, also if it takes only part of it or fails, keeps disk ++ buffer ++ chunk in hand ++ unread chunks equal to the field's payload; it waits or fails only with the disk |
| Upload.Upload.ReadStep | upload_files/src/stream_upload/mod.rs:218-241 | Every token, error or end of the stream leads to the right state; a chunk never arrives without an open buffer; Pending takes exactly one wait off the script |
| Upload.Upload.CreateStep | upload_files/src/stream_upload/mod.rs:242-251 | The new file replaces the buffer; a failed creation ends the stream with the disk's error |
| Upload.Upload.FlushStep | upload_files/src/stream_upload/mod.rs:252-284 | A field is reported only after its buffer is empty and its file flushed once, with its size and name; it waits or fails only with the disk; a missing buffer cannot occur |
| Upload.CreatedFile | upload_files/src/stream_upload/mod.rs:243-246 | The buffer replaced at Create holds nothing, so no byte is lost |
| Upload.ClosedFile | upload_files/src/stream_upload/mod.rs:258-278 | When a field is reported its file is its payload and `written` its length |
| Upload.FlushedBytes | upload_files/src/stream_upload/mod.rs:94-107 | Moving bytes from buffer to disk, also interrupted, shows nowhere but on the disk: the file stays a first part of the payload |
| Upload.TookBytes | upload_files/src/stream_upload/mod.rs:203-211 | Taking n bytes of the chunk in hand moves the file and buffer along the payload by those bytes |
| Upload.TookToken | upload_files/src/stream_upload/mod.rs:219-232 | Taking a token off the stream keeps the conserved payload and what plain writing would still deliver |
| Upload.StreamEnded | upload_files/src/stream_upload/mod.rs:233-240 | An error or the end of the stream finishes the machine with the open file a first part of its payload |
| Upload.ServedOnce | upload_files/src/handlers/api_v1/file.rs:58-74 | One more poll keeps log, trace and remaining results in step |
| UploadBuffer.Buffer.WriteFlush | upload_files/src/stream_upload/mod.rs:81-112 | Disk ++ buffer is conserved for every answer of the file; Ok only with an empty buffer; zero bytes are an error; Pending and errors are the file's own, one each |
| UploadBuffer.Buffer.PollWrite | upload_files/src/stream_upload/mod.rs:116-132 | What fits beside the buffer is buffered whole without touching the disk; otherwise the buffer is written out first, and a part as large as the buffer goes straight to the file. Ok(n) adds exactly the first n bytes to disk ++ buffer, anything else adds none; Pending and errors are the file's own, one each |
| UploadBuffer.Buffer.PollFlush | upload_files/src/stream_upload/mod.rs:134-150 | Disk ++ buffer is conserved; Ok only with an empty buffer and after one flush of the file; Pending and errors are the file's own, one each |
| UploadBuffer.Buffer.constructor | upload_files/src/stream_upload/mod.rs:71-77 | A new buffer is empty, holds 8 KiB, and is over the file it is given |
| UploadBuffer.Disk.PollCreate | upload_files/src/stream_upload/mod.rs:242-251 | Creating a file waits, fails, or leaves an empty file in the place of whatever was there, and the account says which |
| UploadBuffer.ToUploadError | upload_files/src/stream_upload/error.rs:22-31 | The three kinds of failure keep their meaning, all others their message |
| UploadStream.StreamUpload.PollNext | upload_files/src/stream_upload/stream.rs:53-111 | One poll delivers the first of the remaining tokens and leaves the rest; Pending leaves them all and takes one wait off the script; None only when nothing remains |
| UploadStream.AllowedExactly | upload_files/src/stream_upload/stream.rs:69-74 | A media type passes if and only if everything does, or it, its type or its subtype is listed |
| UploadStream.ErrorsEnd | upload_files/src/stream_upload/stream.rs:60-95 | An error ends the stream, except that of a part without a content type, after which the parts behind it go on |
| UploadStream.TokenGrammar | upload_files/src/stream_upload/stream.rs:57-109 | Up to the first error the tokens are (New Chunk* Eof)*, from every reachable state; a stream without error closes every field |
| UploadStream.PartGrammar | upload_files/src/stream_upload/stream.rs:58-97 | The same for every list of parts, with missing names, missing and refused types and failures |
| UploadStream.BodyGrammar | upload_files/src/stream_upload/stream.rs:98-108 | The same for an open field and whatever obeys the grammar behind it |
| UploadStream.StreamUpload.constructor | upload_files/src/stream_upload/stream.rs:41-47 | A new stream waits for its first field |
| BucketMap.Refines | directory/src/bucket/bucket_map.rs:166-356 | Every change that does not panic does to the flat view, at every (bucket, path), exactly its simple meaning; all other paths keep their objects |
| BucketMap.RefinesObjects | directory/src/bucket/bucket_map.rs:168-178 | The object changes touch the objects of one path only and never panic |
| BucketMap.Renamed | directory/src/bucket/bucket_map.rs:218-239 | The list keeps its length; the first object of the name gets the new name and keeps all else it holds; every other object stays, and all do if none has the name |
| BucketMap.RefinesKeys | directory/src/bucket/bucket_map.rs:253-292 | The key changes move, add or drop exactly one prefix |
| BucketMap.RefinesBelow | directory/src/bucket/bucket_map.rs:314-344 | The paths below the edited entry |
| BucketMap.DeadParent | directory/src/bucket/bucket_map.rs:259-262 | A key change below a dead path changes nothing |
| BucketMap.EditedBelow | directory/src/bucket/bucket_map.rs:264-274 | What adding, moving and dropping a child means at every path below |
| BucketMap.ViewPut | directory/src/bucket/bucket_map.rs:103-110 | A write through a looked-up entry shows at and below its path and nowhere else |
| BucketMap.PrefixClosed | directory/src/bucket/bucket_map.rs:88-92 | The live paths are closed under taking prefixes |
| BucketMap.PanicsExactly | directory/src/bucket/bucket_map.rs:185-190 | A change panics exactly when it edits the children of a live entry that has no child map |
| ChildMaps.FirstKeyPanics | directory/src/bucket/bucket_map.rs:179-207 | After any run of changes, adding, renaming or removing a key panics if and only if the entry above it is live and was announced since the start of the run, or had no child map at the start, wherever it has been moved since |
| ChildMaps.FirstKeySinceBuild | directory/src/bucket/bucket_map.rs:179-207 | Since a build: the first key below an entry panics if and only if the entry is live and is not one that was built from a directory with directories in it |
| ChildMaps.MapsComeFromTheStart | directory/src/bucket/bucket_map.rs:166-356 | Over every run the entries with a child map are exactly those that had one at the start, each where it is now |
| ChildMaps.MapsMove | directory/src/bucket/bucket_map.rs:166-356 | No change that returns normally gives a child map to an entry, new or old, or takes one away from an entry it leaves in the tree |
| ChildMaps.OriginShows | directory/src/bucket/bucket_map.rs:242-292 | Where an entry comes from: it brings its files along, and what comes from nowhere is dead or has none |
| ChildMaps.BuiltMaps | directory/src/bucket/bucket_map.rs:474-478 | A built tree has child maps exactly for the directories that hold directories |
| BucketMap.NameKeyBack | directory/src/bucket/bucket_map.rs:253-292 | Renaming a directory and back restores the tree if and only if the directory was there |
| BucketMap.NameBucketBack | directory/src/bucket/bucket_map.rs:242-252 | Renaming a bucket and back restores the tree if and only if no other bucket had the new name |
| BucketMap.NameKeyMoves | directory/src/bucket/bucket_map.rs:273-274 | A moved directory keeps every object at its place relative to the directory |
| BucketMap.Deleted | directory/src/bucket/bucket_map.rs:304-306 | Deleting by name takes out exactly the first object of that name, in whatever order the rest is left, or nothing |
| BucketMap.SwapRemove | directory/src/bucket/bucket_map.rs:305 | Removing by swapping with the last keeps all other objects |
| BucketMap.BucketMap.Change | directory/src/bucket/bucket_map.rs:166-356 | The method in place does what the change says, and a panic leaves the tree as it was |
| BucketMap.BucketMap.GetMutEntry | directory/src/bucket/bucket_map.rs:95-112 | The segment loop finds the entry the path leads to |
| BucketMap.FirstNamed | directory/src/bucket/bucket_map.rs:222 | The first object of a name, or none if no object has it |
| BucketMap.BucketMap.Position | directory/src/bucket/bucket_map.rs:304 | The search finds the first object of a name |
| Keys.JoinSplit | directory/src/bucket/key.rs:131-142 | Splitting a key and joining the segments gives the key |
| Keys.SplitJoin | directory/src/bucket/key.rs:131-142 | Joining segments and splitting gives the segments |
| Keys.RSplitOnceAt | directory/src/bucket/bucket_map.rs:181-183 | Splitting at the last separator finds the last segment |
| Keys.WalkKeyOf | directory/src/bucket/key.rs:28-30 | A path of segments other than the root's own name is found again from its key |
| Keys.KeyOfWalk | directory/src/bucket/key.rs:23-42 | Every key is the key of the path it leads to |
| Keys.EditIsWalk | directory/src/bucket/bucket_map.rs:254-257 | Edits and lookups of a key lead to the same path unless the key is "." or starts with "./" |
| Paths.FindBucket | directory/src/bucket/mod.rs:45-57 | The climbing loop ends with the component just below the root, or with none outside the root |
| Paths.FromBucketExact | directory/src/bucket/key.rs:44-51 | The key of a path is the part below its bucket if and only if the bucket's name occurs in no component of the root |
| Paths.FirstInRoot | directory/src/bucket/key.rs:48 | The name is found before its own component exactly if the root mentions it |
| Paths.OwnKey | directory/src/bucket/key.rs:48-50 | Cut at its own place, the key is the rest of the path |
| Paths.FirstAtExact | directory/src/bucket/key.rs:48 | The split is at the first occurrence |
| Paths.EarlyKey | directory/src/bucket/key.rs:48-50 | Cut at an earlier occurrence, the key is a different one |
| Paths.Decomposes | directory/src/bucket/mod.rs:45-57 | Bucket and key rebuild the path |
| Paths.WhatIsExact | directory/src/manager/mod.rs:94-110 | Below bucket level the answer is IsDir exactly for the directories of the tree; directly below the root always; outside the root it panics |
| Names.DirDecision | directory/src/bucket/utils/normalizeds.rs:23-63 | A directory keeps its name exactly if it is clean and is asked back exactly if it is all dashes and not new; every name with another character becomes clean |
| Names.DirSettles | directory/src/bucket/utils/normalizeds.rs:23-63 | At most two renames settle a directory, one if and only if its name has a character other than a dash |
| Names.FileDecision | directory/src/bucket/utils/normalizeds.rs:70-92 | The same decision for files, with its own fallback |
| Names.FileSettles | directory/src/bucket/utils/normalizeds.rs:75-90 | At most two renames settle a file; one if and only if its name has a character other than a dash or the fallback is clean |
| Names.FallbackName | directory/src/bucket/utils/normalizeds.rs:58 | The random directory name is itself not clean |
| Names.UncleanChanges | directory/src/bucket/utils/normalizeds.rs:29-36 | An unclean name changes, and into a clean one |
| Names.CleanedNames | directory/src/bucket/utils/normalizeds.rs:29-36 | The clean name is the name without its leading dashes, with an underscore for every character that a directory, or a file, may not have and every other character as it was |
| LocalStorage.UpdatedAll | directory/src/state/local_storage/mod.rs:184-197 | If no new place is taken, an update moves every matching document and no other, in every order |
| LocalStorage.UpdatedBounds | directory/src/state/local_storage/mod.rs:199-213 | In every case documents that do not match stay, and only new places of matching ones are added |
| LocalStorage.UpdateStops | directory/src/state/local_storage/mod.rs:285-290 | If a new place was taken, the unique index leaves some document behind, in every order |
| LocalStorage.UpdatedContents | directory/src/state/local_storage/mod.rs:184-213 | The documents visited before the first taken place, and no others, are moved, each with everything it held; every other document stays what it was; all are moved if and only if the update succeeds |
| LocalStorage.StoredContents | directory/src/manager/utils/mod.rs:298-352 | What every document holds after each of the nine changes: fields written, fields kept, documents gone |
| LocalStorage.LocalStorage.UpdateManyInPlace | directory/src/state/local_storage/mod.rs:184-213 | One update of many documents in place, one by one up to the first taken place (its documents: `UpdatedContents`) |
| LocalStorage.LocalStorage.NewObject | directory/src/state/local_storage/mod.rs:133-146 | An insertion is refused exactly if the place is taken |
| LocalStorage.LocalStorage.ChangeStorage | directory/src/manager/utils/mod.rs:298-352 | The store's answer to each of the nine changes in place (its documents: `StoredContents`) |
| Agreement.StepAgreement | directory/src/manager/mod.rs:87-92 | From an agreeing state, tree and store agree after a change that does not panic, in every order of the updates, if and only if the change is safe, a condition on the tree before the change |
| Agreement.RunAgreement | directory/src/manager/mod.rs:87-92 | Every run of safe changes keeps tree and store listing the same (bucket, key, file name) triples, each as often |
| Agreement.StoreFallsBehind | directory/src/state/local_storage/mod.rs:167-233 | Renaming a file, renaming a nested directory and deleting a directory with one below it leave the store behind the tree |
| Agreement.FileRenameBreaks | directory/src/state/local_storage/mod.rs:179 | Renaming a file writes another field than the name in the index |
| Agreement.NestedRenameBreaks | directory/src/state/local_storage/mod.rs:209-210 | Renaming a nested directory stores only its last segment |
| Agreement.ParentDeleteBreaks | directory/src/state/local_storage/mod.rs:231 | Deleting a directory leaves the documents below it |
| Agreement.ObjectAgreement | directory/src/manager/utils/mod.rs:300-326 | Object changes agree exactly if they are safe |
| Agreement.DeleteKeyAgreement | directory/src/manager/utils/mod.rs:345-349 | Deleting a key agrees exactly if no object lies below it |
| Agreement.NameBucketKeeps | directory/src/manager/utils/mod.rs:332-336 | Renaming a bucket agrees if the source is absent or nothing lies under the new name |
| Agreement.NameBucketBreaks | directory/src/manager/utils/mod.rs:332-336 | Otherwise it disagrees |
| Agreement.NameKeyFree | directory/src/manager/utils/mod.rs:337-344 | Renaming a directory to a free name agrees if it is at top level or empty, with nothing below |
| Agreement.NameKeyTaken | directory/src/bucket/bucket_map.rs:266-271 | Renaming to a taken name agrees if the store has nothing it could move |
| Agreement.NameKeyBreaks | directory/src/manager/utils/mod.rs:337-344 | Every other renaming of a directory breaks the agreement for some order of the updates |
| Agreement.QuietAgreement | directory/src/manager/utils/mod.rs:327-331 | Changes that concern no object, and deleting a bucket, always agree |
| Manager.Manager.HandleChange | directory/src/manager/mod.rs:87-92 | Store first, then tree; a panic of the tree comes after the store has changed; safe changes keep the agreement |
| Manager.Manager.HandleAsk | directory/src/manager/mod.rs:94-110 | The answer in place |
| BuildLaws.BuiltTree | directory/src/bucket/bucket_map.rs:441-481 | After a build, lookups succeed exactly for the directories of the listing and give exactly their files, in listing order; of entries that settle under one name the last directory counts and every file is shown, with the contents of the listing |
| CleanBuild.BuiltCleanTree | directory/src/bucket/bucket_map.rs:358-481 | For clean listings, told from the listing itself: lookups succeed exactly where its names lead and give its files in order, under their own names, each with the contents of its earlier document or, without one, its own |
| CleanBuild.CleanDirAt | directory/src/bucket/bucket_map.rs:450-479 | The directory a path leads to is the one its names lead to in the listing |
| CleanBuild.CleanFiles | directory/src/bucket/bucket_map.rs:409-432 | Clean files are taken over in order, by name and contents |
| CleanBuild.MetWith | directory/src/bucket/bucket_map.rs:452-468 | A file is met at its own place with its own contents |
| CleanBuild.InsertedRest | directory/src/bucket/bucket_map.rs:391-404 | A document inserted for a file met once holds what the file held |
| BuildLaws.BuiltStore | directory/src/bucket/bucket_map.rs:483-515 | After the clean-up the store holds exactly the documents it had before for files on disk, unchanged; documents inserted for new files are deleted again |
| BuildLaws.BuiltAgreement | directory/src/bucket/bucket_map.rs:358-371 | Tree and store agree after a build if and only if every file had its document before |
| BuildLaws.BuiltShown | directory/src/bucket/bucket_map.rs:465-479 | The tree shows a file at a place as often as the listing has it |
| BuildLaws.MetAllTimes | directory/src/bucket/bucket_map.rs:363-366 | The walk meets every file exactly once, at its own bucket and key |
| BuildLaws.MetThere | directory/src/bucket/bucket_map.rs:452-468 | A place is met below a directory on its way as often as the disk has it |
| BuildLaws.MetElsewhere | directory/src/bucket/bucket_map.rs:468 | No place is met below a directory that is not on its way |
| Build.Build | directory/src/bucket/bucket_map.rs:358-371 | Builds all buckets or panics; the tree mirrors the disk with what the store says of each file; the store is what the clean-up leaves |
| Build.BuildBuckets | directory/src/bucket/bucket_map.rs:359-366 | Panics exactly if some entry of the root is not buildable |
| Build.BuildKeyEntry | directory/src/bucket/bucket_map.rs:441-481 | The entry mirrors its directory at every depth; panics exactly if the path does not mention the bucket |
| Build.ReadDirectory | directory/src/bucket/bucket_map.rs:450-463 | Files are put aside under their settled names, directories get their entries at once |
| Build.SyncObjects | directory/src/bucket/bucket_map.rs:374-407 | A file's document is found, and its id recorded, or inserted |
| Build.ListBuckets | directory/src/bucket/utils/mod.rs:48-76 | Every entry of the root with its settled name and its path before the rename |
| Build.KeptNames | directory/src/bucket/bucket_map.rs:409-439 | An entry keeps its name if and only if it is clean, by the rule for files or for directories; otherwise it is left out if and only if the rename fails, and else has its cleaned name, or its fallback if the name is dashes only |
| Build.BucketNames | directory/src/bucket/utils/mod.rs:48-76 | A bucket has its directory's name if and only if that is clean, and else the cleaned or the fallback name |
| Build.BuildPanics | directory/src/bucket/bucket_map.rs:359-366 | With renames that succeed, building panics if and only if the root holds a file or a directory with an unclean name |
| Build.CleanedExact | directory/src/bucket/bucket_map.rs:483-515 | Exactly the documents stay that were there when their file was met |
| Build.SyncedRecords | directory/src/bucket/bucket_map.rs:391-399 | An id is recorded exactly if the document was there when a file was met |
| RenameControl.TimerAccounting | directory/src/manager/watcher/event_watcher/rename_control.rs:56-86 | In every interleaving, per path: From messages handled = timers sleeping + timers aborted + removals posted; removals come from distinct, earlier, never aborted timers |
| RenameControl.AbortedForever | directory/src/manager/watcher/event_watcher/rename_control.rs:74-76 | An aborted timer never posts a removal |
| RenameControl.NoLeakedTasks | directory/src/manager/watcher/event_watcher/rename_control.rs:59-85 | A path in `tasks` has its own timer live or its own Expire under way; nothing is left once all is drained |
| RenameControl.DrainsAway | directory/src/manager/watcher/event_watcher/rename_control.rs:63-69 | Every internal step leaves less work, and some step is possible until all is drained |
| RenameControl.DeclineExact | directory/src/manager/watcher/event_watcher/rename_control.rs:73-80 | In every run, once a Decline has been handled, some way on still reports its path as removed without a new From of it if and only if some sleeping timer of the path was not the one its handle led to |
| RenameControl.DeclineLeaves | directory/src/manager/watcher/event_watcher/rename_control.rs:73-80 | Declining calls off the newest timer of the path, if its handle still leads to it and it sleeps, and no other |
| RenameControl.OlderTimer | directory/src/manager/watcher/event_watcher/rename_control.rs:71 | A reachable run in which a second From replaces the handle, so a Decline leaves the first timer asleep |
| RenameControl.QuietRun | directory/src/manager/watcher/event_watcher/rename_control.rs:63-69 | Over every run a path without sleeping timers is not reported until a new From of it is handled |
| RenameControl.StaleExpire | directory/src/manager/watcher/event_watcher/rename_control.rs:81-84 | A reachable run in which a stale Expire drops the newer handle, so a Decline finds nothing and the timer sleeps on |
| RenameControl.ReceiveKeeps | directory/src/manager/watcher/event_watcher/rename_control.rs:58-85 | Each message keeps handles, timers and removals accounted for |
| RenameControl.NewestKeeps | directory/src/manager/watcher/event_watcher/rename_control.rs:59-85 | The handle of a path always leads to its newest timer, apart from one just spawned |
| RenameControl.WakeKeeps | directory/src/manager/watcher/event_watcher/rename_control.rs:63-67 | A timer that posts its removal keeps them accounted for |
| RenameControl.FinishKeeps | directory/src/manager/watcher/event_watcher/rename_control.rs:68 | A timer that sends its Expire keeps them accounted for |
| RenameControl.NextKeeps | directory/src/manager/watcher/event_watcher/rename_control.rs:41-49 | Every step of every interleaving keeps the invariant |
| RenameControl.RenameControl.Handle | directory/src/manager/watcher/event_watcher/rename_control.rs:56-86 | The handler in place |
| Skipper.BucketTracker.Skipped | directory/src/manager/utils/skipper.rs:42-44 | A mark is consumed once and only if it is there |
| Skipper.BucketTracker.ToSkip | directory/src/manager/utils/skipper.rs:38-40 | One mark more |
| Skipper.KeyTracker.Skipped | directory/src/manager/utils/skipper.rs:60-67 | The nested sets behave as one set of (bucket, key) marks |
| Skipper.KeyTracker.ToSkip | directory/src/manager/utils/skipper.rs:51-58 | One mark more |
| Skipper.ObjectTracker.Skipped | directory/src/manager/utils/skipper.rs:90-102 | The nested maps behave as one set of (bucket, key, name) marks |
| Skipper.ObjectTracker.ToSkip | directory/src/manager/utils/skipper.rs:74-88 | One mark more |
| Handlers.BucketEcho | directory/src/manager/utils/mod.rs:48-65 | A bucket directory renamed by the handlers echoes without a change, consumes exactly its mark, and gives back the earlier marks exactly if the mark was not there already |
| Handlers.FileEcho | directory/src/manager/utils/mod.rs:97-119 | The same for a file created under an unclean name |
| Handlers.NestedEcho | directory/src/manager/utils/mod.rs:209-221 | Below bucket level the mark is made for the unclean key, so the echo is reported as a second change if and only if the clean key was not marked by chance |
| Handlers.RootFilePanics | directory/src/manager/utils/mod.rs:244-245 | Renaming a file directly below the root panics if and only if the root's text does not hold its name |
| Handlers.BucketCleaned | directory/src/manager/utils/mod.rs:185-204 | The reaction to an unclean bucket name: rename, mark, report |
| Handlers.BucketSkipped | directory/src/manager/utils/mod.rs:151-154 | A marked rename is swallowed |
| Handlers.BucketKept | directory/src/manager/utils/mod.rs:156-160 | A clean rename is reported |
| Handlers.BucketRestored | directory/src/manager/utils/mod.rs:224-232 | A rename to dashes only is taken back |
| Handlers.Handlers.HandleNewDirectory | directory/src/manager/utils/mod.rs:22-85 | The handler in place, with its trackers |
| Handlers.Handlers.HandleNewFile | directory/src/manager/utils/mod.rs:87-138 | The handler in place, with its trackers, and a rename that a later panic does not undo |
| Handlers.Handlers.HandleRenamedDirectory | directory/src/manager/utils/mod.rs:140-236 | The handler in place, with its trackers, and a rename that a later panic does not undo |
| Handlers.Handlers.HandleRenamedFile | directory/src/manager/utils/mod.rs:238-296 | The handler in place, with its tracker; what its report makes of the tree: `FileRenameFollowed`, `UncleanFileRenameLost` |
| EventWatcher.EventWatcher.Handle | directory/src/manager/watcher/event_watcher/mod.rs:120-290 | The messages each event causes, in order |
| Convergence.Converges | directory/src/manager/watcher/event_watcher/mod.rs:120-241 | Over every run and interleaving of watcher, manager, rename control and kernel: whenever all is drained, the buckets of the tree are the directories of the root if and only if no directory of dashes only was ever made; the directories are clean, no timer entry is left, and exactly the buckets the disk does not have, all of them fallback names, have a mark left |
| Convergence.RunKeeps | directory/src/manager/watcher/event_watcher/mod.rs:102-113 | The invariant of all runs, with what tree and disk have lost of each other |
| Convergence.Settles | directory/src/manager/watcher/event_watcher/mod.rs:120-290 | Every step of the actors leaves less to do, so activity ends |
| Convergence.NeverStuck | directory/src/manager/watcher/event_watcher/mod.rs:120-290 | It ends only when all is drained: no panic and no deadlock |
| Convergence.WatchKeeps | directory/src/manager/watcher/event_watcher/mod.rs:120-290 | Each event the watcher handles keeps the invariant |
| Convergence.MattersKeeps | directory/src/manager/watcher/event_watcher/mod.rs:124-241 | Creations, renames and removals are handled without panic and lead to the next phase |
| Convergence.PhaseLeads | directory/src/manager/utils/mod.rs:22-232 | Each phase, also one with a fallback name under way, leads to another, with less work handed out than there was |
| Convergence.InternalKeeps | directory/src/manager/watcher/event_watcher/mod.rs:102-290 | Every step of an actor keeps the invariant |
| Convergence.BothLeads | directory/src/manager/watcher/event_watcher/mod.rs:184-217 | Every rename that can be under way is handled in its phase |
| Convergence.ExternalKeeps | directory/src/manager/watcher/event_watcher/mod.rs:124-241 | Making, renaming or removing a directory starts a phase |
| Convergence.ControlKeeps | directory/src/manager/watcher/event_watcher/rename_control.rs:56-86 | Rename control and its timers change nothing that counts |
| Convergence.ManageKeeps | directory/src/manager/mod.rs:87-92 | The manager applies a change without panic; what the tree will be stays the same |
| Convergence.ReactToCreated | directory/src/manager/utils/mod.rs:27-66 | The reaction to a new directory |
| Convergence.ReactToDashes | directory/src/manager/utils/mod.rs:48-65 | The reaction to a new directory of dashes only: announced under a name that is not clean |
| Convergence.ReactToMoved | directory/src/manager/utils/mod.rs:146-232 | The reaction to a renamed directory: report, rename once more, or give back |
| Convergence.ReactToEcho | directory/src/manager/utils/mod.rs:151-154 | The echo is swallowed |
| Dashes.AllDashDiverges | directory/src/manager/utils/mod.rs:48-65 | In every run that makes a directory of dashes only in a tree in order, at the next drained point the tree has the fallback name, the disk the cleaned fallback name, and the mark for the fallback name is left over |
| Dashes.OneCreation | directory/src/manager/utils/mod.rs:22-66 | After one creation in a tree in order, at the next drained point the buckets are the directories if and only if the name has a character other than a dash |
| Dashes.DivergenceReached | directory/src/manager/utils/mod.rs:48-65 | For every name of dashes only there is a run that reaches such a drained point |
| Dashes.ComesToRest | directory/src/manager/watcher/event_watcher/mod.rs:102-113 | From every world of every run the actors alone reach a drained point |
| Dashes.BurstAdvances | directory/src/manager/utils/mod.rs:48-204 | The three reactions from the creation to the skipped echo |
| Reports.FileRenameFollowed | directory/src/manager/utils/mod.rs:244-266 | A file renamed to a clean unmarked name: the tree shows it once at its new place, not at the old one, and all else as before, if and only if bucket and directory stay the same |
| Reports.FileRenameReported | directory/src/manager/utils/mod.rs:247-266 | The report: old and new name, in the directory of the new path |
| Reports.FileRenamedAt | directory/src/bucket/bucket_map.rs:212-240 | What a renaming in a directory does to what every place shows |
| Reports.UncleanFileRenameReported | directory/src/manager/utils/mod.rs:268-286 | A file renamed to an unclean name is renamed, marked under its clean name and reported from the unclean name to the clean one |
| Reports.UncleanFileRenameLost | directory/src/manager/utils/mod.rs:280-285 | So the tree shows the file where it was, under its old name |
| Reports.NewFileFollowed | directory/src/manager/utils/mod.rs:92-131 | A new file is shown once, under its own or its cleaned name, last in its directory and with its contents, all else as before, if and only if the tree has its directory |
| Reports.NewFileReported | directory/src/manager/utils/mod.rs:97-131 | The report: the name the file ends up under, in its bucket and directory |
| Reports.NewFileShown | directory/src/bucket/bucket_map.rs:168-178 | An added object is shown exactly if its directory is there |
| Reports.RemovedFileStays | directory/src/manager/watcher/event_watcher/mod.rs:242-264 | A removed file is looked for one directory too deep and stays in the tree |
| Reports.NewDirectoryFollowed | directory/src/manager/utils/mod.rs:38-45 | A new clean directory is shown, empty, with all else as before, unless the entry above it has no child map, and then, and only then, the tree panics |
| Reports.NewDirectoryReported | directory/src/manager/utils/mod.rs:28-46 | The report: its bucket and its key |
| Reports.UncleanDirectoryReported | directory/src/manager/utils/mod.rs:48-78 | A new unclean directory is renamed, and its clean name reported and marked as if it were the bucket |
| Reports.UncleanDirectoryLost | directory/src/manager/utils/mod.rs:61-77 | It comes to be shown if and only if its clean name is its bucket's name |
| Reports.DirRenameFollowed | directory/src/manager/utils/mod.rs:161-183 | A directory renamed within its bucket to a clean unmarked name moves in the tree with all below it, all else as before, if and only if it stays in its parent |
| Reports.DirRenameReported | directory/src/manager/utils/mod.rs:161-183 | The report: the old key and the new last segment |
| Reports.UncleanDirRenameFollowed | directory/src/manager/utils/mod.rs:185-222 | The same for an unclean name, shown under its clean one |
| Reports.SecondReportIgnored | directory/src/manager/utils/mod.rs:177-182 | The second report of that rename changes nothing |
| Reports.StrayRename | directory/src/bucket/bucket_map.rs:253-292 | Moved to another parent, a directory does not come to be shown there |
| Reports.RefusedDirRename | directory/src/manager/utils/mod.rs:190-222 | A refused rename to the clean name is reported and marked as if it had gone well |
| Reports.RemovedDirectoryFollowed | directory/src/manager/watcher/event_watcher/mod.rs:218-241 | A directory removed below a bucket goes with all below it, all else as before |
| Reports.RemovalReported | directory/src/manager/watcher/event_watcher/mod.rs:224-263 | The report of a removal below a bucket, for directories and for files |
| Reports.TimedOutRemovalLost | directory/src/manager/watcher/event_watcher/mod.rs:265-287 | A removal reported by rename control causes one event without a path, which changes nothing |
| Reports.Told | directory/src/manager/watcher/event_watcher/mod.rs:124-216 | Each event goes to the handler of its kind, and its report to the manager; renames also to rename control |
| Queries.QueryOwn.Build | auth/src/state/queries.rs:96-129 | In every order of the maps, the SELECT read with its bound values is exactly the builder's table, conditions and groups |
| Queries.UpdateOwn.Query | auth/src/state/queries.rs:229-248 | Whatever text and values `from` has left: the UPDATE can be read if and only if it assigns something and has at most one condition; it then assigns every column the value at its position, which is its own if text and values belong together, under that condition |
| Queries.UpdateOwn.From | auth/src/state/queries.rs:202-219 | The text assigns the map's columns, the values go behind those already there; the two belong together if and only if there were none |
| Queries.ReadsComparisons | auth/src/state/queries.rs:102-116 | Numbered comparisons are read back one by one, each with its own value |
| Queries.ReadsSelect | auth/src/state/queries.rs:96-129 | Reading undoes writing for a whole SELECT |
| Queries.ReadsUpdate | auth/src/state/queries.rs:229-248 | Reading undoes writing for an UPDATE that assigns something under at most one condition and fails otherwise |
| Queries.ReadsFirst | auth/src/state/queries.rs:235-243 | Of conditions that repeat WHERE and the placeholder only the first can be read |
| Queries.LastValueCounts | auth/src/state/queries.rs:70-81 | Of several values for a column the last one counts |
| Queries.QueryOwn.Wh | auth/src/state/queries.rs:70-81 | A condition replaces an earlier one for its column |
| Queries.QueryOwn.WhVecAny | auth/src/state/queries.rs:83-94 | The same for a permission list |
| Queries.UpdateOwn.Wh | auth/src/state/queries.rs:221-227 | A condition replaces an earlier one for its column |
| Broker.BroadcastReaches | directory/src/manager/websocket/broker.rs:31-71 | In every interleaving a broadcast is offered to exactly the ids that joined and did not leave among the messages handled before it |
| Broker.ExitedAreGone | directory/src/manager/websocket/mod.rs:35-59 | Once the mailbox is drained the observers are exactly the handlers still serving; whoever exited is gone |
| Broker.MembersAre | directory/src/manager/websocket/broker.rs:34-57 | Membership is: joined, and not left since |
| Broker.RunKeeps | directory/src/manager/websocket/broker.rs:31-70 | The invariant of all interleavings of handlers and broker |
| Broker.WSBroker.Handle | directory/src/manager/websocket/broker.rs:32-69 | One message in place; a broadcast goes to every observer once |
| Broker.WebSocketHandler.Serve | directory/src/manager/websocket/mod.rs:39-57 | Messages reach the user one by one, in order, up to the first that cannot be sent, the end of the mailbox or the shutdown; then one unsubscription is sent, and only then |

## Left out

- Elapsed times, logging, checksums, sizes, owners and time stamps of files: opaque values.
- A file that takes zero bytes of a non-empty write for ever: two of the three write loops
  (`upload_files/src/stream_upload/mod.rs:126-127` and `142-147`) have no check for it and would not end.
  Every disk has a finite, arbitrary number of such answers (`stalls`); any number of Pending answers,
  failures and short writes is allowed.
- The buffering inside tokio's own file, and `poll_shutdown` (`upload_files/src/stream_upload/mod.rs:152-159`).
- Upload.Serve: polls at most a given number of times, for any number; the program waits between polls.
- Multipart parsing, inotify, the MongoDB and PostgreSQL servers and tokio's scheduler: scripts of answers, an
  event queue, a map with a unique index, a reader of SQL words, and steps in every order. Database calls
  fail only through the unique index.
- Names that are not valid UTF-8 arrive with the replacement character already in them.
- Reading a directory: the listing, the random names and whether each rename succeeds are inputs. Two entries
  that settle under one name keep the contents they had in the listing; what the tree shows is stated for such
  listings too (`BuiltTree`, `BuiltShown`), what the store keeps only for listings without such twins.
- Convergence.Converges: is about directories directly below the root, made, renamed or removed one at a time once
  everything before is dealt with, whose cleaned names are free, with renames that succeed and random names
  whose cleaned forms are free. Files and nested directories get their claims event by event (`Reports`) and
  none over whole runs: the events that `Reports` shows to be lost would part tree and disk in most of them.
- Reports.DirRenameFollowed: is about renames within one bucket. A nested directory moved to another bucket, or
  to or from bucket level, is reported by the same arms but has no claim of its own.
- Reports.FileRenameFollowed: asks that the tree shows the file once at its old place and none at the new one;
  what a renaming makes of other trees is `FileRenamedAt`.
- Agreement.RunAgreement: is about changes as the watcher reports them, whose keys come from paths; a key "." or
  one that starts with "./" is looked up and edited at different places (`EditIsWalk`).
- The broker's channel holds 32 messages and a full one makes senders wait; mailboxes here are unbounded. A
  subscriber message that nobody waits for is ignored by the broker and does not occur here.
- The brokers that tree entries carry, and subscribing to them (`bucket_map.rs:114-164`): plumbing.
- `InsertOwn`, HTTP and gRPC handlers, TLS, tokens, middleware, the file tree for display (`fhs.rs`) and the
  command line: short branches over libraries, with no state to keep.
- The lock around the tree: changes and questions reach the manager one at a time, so the model has no lock.
