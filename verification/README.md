# Artipod: a verified model

Artipod treats a workspace as version-controlled state. This project models, in Dafny, the parts of it where
that promise is made, and proves what they promise:

- **Snapshots.** A snapshot is a tar layer holding the difference to its parent, deletions as whiteouts. The
  model goes from the walk of a live tree down to tar bytes and back up: create, validate, restore in place,
  compact and collect. The filesystem is a finite map from path to file, directory or symlink, with the owner
  permission bits that decide whether a step may happen.
- **Convergence of heads.** Two diverged heads are joined per path, last writer wins, against the nearest common
  ancestor; an overlay's upper files become a new head; blobs move between stores under a byte budget.
- **The terminal.** The line discipline is run against a one-row terminal that interprets what it writes.
- **Two protocols and encrypted transfer.** The checkpoint gate, the suspend/resume handshake, chunked
  encryption, and refs pushed and pulled through a relay that holds only envelopes.

What the source computes in loops over mutable state is written as methods and classes that are proved against
specification functions; the theorems are lemmas about those functions. The two protocols are step relations over
events, and their theorems hold in every run.

Conventions. A pod path is a sequence of components; `PathText` relates it to the rendered string. Strings are
their UTF-8 bytes, except terminal text, which is UTF-16 code units. SHA-256 is an injective datatype or function,
AES-GCM and JSON are ideal: what was sealed or encoded comes back. Clocks, random ids and nonces, the content of
commands and of other blobs are parameters. Where a claim of the source holds only under a condition, the
condition is part of the theorem and a lemma with a concrete input shows it is needed.

`dafny verify dfyconfig.toml` checks the whole project.

## Model

| member | source | states |
|---|---|---|
| Workspace.Visit | src/oci/snapshot.ts:188-223 | the recursive visit succeeds exactly when every captured entry below the directory is acceptable, and adds exactly the captured entries below it |
| Workspace.WalkTree | src/oci/snapshot.ts:169-226 | the walk of all roots succeeds exactly when roots are real, readable directories and every captured entry is acceptable; it returns the captured slice of the tree and every directory that excluded entries keep in place |
| RestorePlan.MayRemove | src/oci/snapshot.ts:619-629 | deepest first, each removed path is still there, reachable with a writable parent, and a directory is empty when its turn comes |
| RestorePlan.MayCreate | src/oci/snapshot.ts:630-642 | shallowest first, each target path's ancestors are searchable directories and its parent writable, and the path is absent unless it was kept |
| RestorePlan.MaySettle | src/oci/snapshot.ts:643-646 | deepest first, each directory is still reachable when its final mode is set |
| RestorePlan.MayWriteHead | src/oci/snapshot.ts:647-648 | HEAD is as writable after the restore's steps as before them, and not a captured path |
| RestorePlan.MayFinish | src/oci/snapshot.ts:649-650 | roots and their ancestors can be given their last modes, deepest first |
| RestorePlan.FinishedIsReached | src/oci/snapshot.ts:571-652 | the tree after all steps has exactly the target's captured entries with exact modes, HEAD rewritten, and everything outside the capture as before |
| Restore.EnsureDirectory | src/oci/snapshot.ts:148-161 | the component loop creates nothing but missing components, never goes through a link, and succeeds wherever ancestors are searchable and the parent writable |
| Restore.ListChanges | src/oci/snapshot.ts:593-604 | lists each difference between the live capture and the target once, and nothing else |
| Restore.OpenRoots | src/oci/snapshot.ts:605-611 | every root is widened; its last mode is the saved one, else the one found on its last turn; a root is reported when the mode found on some turn is not the saved one, roots listed twice included |
| Restore.Delete | src/oci/snapshot.ts:623-629 | the removal loop never fails on a plan that lists its roots, and leaves the pruned tree |
| Restore.Populate | src/oci/snapshot.ts:630-642 | the creation loop never fails and leaves every target entry in place, with no write over an existing path |
| Restore.Settle | src/oci/snapshot.ts:643-646 | every directory but roots and their ancestors gets its saved mode |
| Restore.ApplyModes | src/oci/snapshot.ts:649-650 | the last modes are applied in order without being blocked by one another |
| Restore.RestoreInPlace | src/oci/snapshot.ts:571-652 | a refused walk or a conflict with an excluded entry changes nothing; otherwise the restore reaches its target if and only if the target lists every live captured root and root ancestor; changes and deferred modes are exact |
| RestoreFacts.ReachedMeans | src/oci/snapshot.ts:571-652 | after a reached restore: saved entries are back, what else is inside the capture is a directory an excluded entry needs, excluded entries are untouched |
| RestoreFacts.NodesAre | src/oci/snapshot.ts:605-652 | after a reached restore every root has its last mode, every other saved entry is exactly as saved, whatever is neither captured nor a root is untouched, and HEAD is a file that holds the snapshot's name |
| RestoreFacts.RootsComeBack | src/oci/snapshot.ts:605-650 | restored with the root modes recorded at its creation, a snapshot gives every root back the mode it had then |
| RestoreFacts.ChangesAreTheDifference | src/oci/snapshot.ts:593-611 | a captured path that is not a root or above one is reported if and only if it is not the same before and after |
| RestoreFacts.RootReport | src/oci/snapshot.ts:605-611 | the report on any root, nested or repeated ones included, against the mode it ends with: with a saved mode it is wrong exactly when the root had that mode and was seen wider on a later turn or is listed as an entry; without one, exactly when only one of those two holds |
| RestoreFacts.NestedRootUnlisted | src/oci/snapshot.ts:526-546 | a root inside a root, absent from the saved tree, passes every preflight and still cannot be restored |
| View.WhiteoutRoundTrip | src/oci/tar.ts:180-196 | a whiteout marker names its path again exactly when the base name is not the tail of the opaque marker |
| View.MarkersAre | src/oci/tar.ts:178-188 | exactly which paths are the opaque marker of a directory, and exactly which delete a path |
| View.OpaqueEmpties | src/oci/view.ts:52-56 | an opaque marker takes exactly what lies below its own directory and leaves the directory and everything else |
| View.MarkerDeletes | src/oci/view.ts:40-58 | a delete marker takes exactly its path and what lies below |
| View.EntryPlaces | src/oci/view.ts:61-67 | any other entry takes its path, a file over a directory takes along what was below, and nothing else changes |
| View.MergeLayerEntries | src/oci/view.ts:37-72 | the loops over layers and entries compute the replay of delete and opaque whiteouts and of files replacing directories |
| Replay.AllShown | src/oci/view.ts:37-72 | with one file per path, every file of a replayed stack shows if and only if no item touches the path of a file placed before it |
| Replay.SameWithoutIff | src/oci/view.ts:37-72 | leaving layers out of a stack leaves a path as it was if and only if the last item that touches it does not tell the two apart |
| Diff.DiffApplies | src/oci/view.ts:37-72 | replaying changed entries and then whiteouts over the parent's view yields exactly the new tree's paths, new entries from this layer, the others from below |
| PathText.SplitRender | src/oci/snapshot.ts:228-235 | a valid path survives being rendered and split |
| PathText.PrefixIsAbove | src/oci/view.ts:40-46 | the string test for a prefix with a slash is the ancestor relation, both ways |
| Layers.DiffDecodes | src/oci/snapshot.ts:322-354 | the tar written for a diff with legible names indexes to items that are the changed nodes, byte for byte and mode for mode but for a leading U+FEFF of a short link target, followed by the markers |
| Layers.LegibleIs | src/oci/tar.ts:43-50 | a name is legible unless its first component starts with U+FEFF and it fits the header field; where a node is legible so is its marker |
| Readings.MarkedReads | src/oci/tar.ts:43-69 | a name that is not legible is read without its mark, without a first component that was nothing else or only a dot, and not at all when nothing is left |
| Readings.WrittenReads | src/oci/snapshot.ts:742-772 | whatever its names, a layer written from nodes can be indexed, and each of its entries is a node that can be written again where it is read |
| History.SameRecordIsSameNode | src/oci/snapshot.ts:324-329 | the five compared fields agree exactly when the nodes are equal, digests being injective |
| History.Chain | src/oci/snapshot.ts:377-389 | succeeds exactly when parents lead down to a first snapshot without a gap or a cycle, and returns that chain |
| History.ChainUnique | src/oci/snapshot.ts:377-389 | a snapshot has one chain |
| History.ChainDistinct | src/oci/snapshot.ts:377-389 | no snapshot occurs twice on a chain |
| History.DiffHolds | src/oci/snapshot.ts:322-354 | a chain that replays to the parent's tree, extended by the diff's tar bytes, replays to the new tree, given legible names; link targets come out as they were or without their marks |
| History.FadesIs | src/oci/snapshot.ts:548-552 | what a chain replays to is the walked tree exactly when no link target of at most 100 bytes starts with U+FEFF |
| History.FaithfulAdd | src/oci/snapshot.ts:351-371 | adding a snapshot on an intact head keeps every chain replaying to what it shows, and disturbs no other chain |
| History.FaithfulRemove | src/oci/snapshot.ts:784-787 | removing manifests keeps every remaining chain faithful |
| Snapshots.ValidateSnapshot | src/oci/snapshot.ts:507-560 | returns a tree exactly when the chain's bytes replay to one that passes every path, topology, link, mode and index check |
| Snapshots.IntactIsAcceptable | src/oci/snapshot.ts:507-560 | the validation accepts the tree walked at creation for an intact chain if and only if it opens: with legible names, when no snapshot on it deleted a path whose marker is an excluded path and no link target loses a mark; otherwise it accepts no tree |
| Snapshots.DiffAccepted | src/oci/snapshot.ts:228-235 | with legible names, the layer of a diff passes the path check if and only if no deleted path's marker is excluded |
| Snapshots.OpensAdd | src/oci/snapshot.ts:310-373 | a new snapshot with legible names opens if and only if HEAD's markers and its own pass and its links are legible; older ones open as before |
| Snapshots.FirstOpensIff | src/oci/snapshot.ts:507-560 | a first snapshot opens if and only if every name and link target of its tree is legible |
| HiddenMarkers.AcceptedIff | src/oci/snapshot.ts:228-235 | every diff between captures of live trees, first ones included, passes the path check if and only if no excluded path is the marker of a path that can be captured and deleted, and no name or marker that can be written is read, without its mark, under a refused path |
| HiddenMarkers.LayerPasses | src/oci/snapshot.ts:515 | the path check passes a layer if and only if it passes each entry written to it, under the path it is read |
| HiddenMarkers.NothingMisread | src/oci/snapshot.ts:228-235 | where no root is "/" or starts with U+FEFF, nothing is misread |
| HiddenMarkers.IntactOpens | src/oci/snapshot.ts:507-560 | without excluded markers, an intact snapshot with legible names on its chain opens if and only if its link targets are legible |
| HiddenMarkers.PlainOpens | src/oci/snapshot.ts:507-560 | where no root is "/" or starts with U+FEFF, that decides every intact snapshot |
| HiddenMarkers.Closed | src/oci/snapshot.ts:310-373 | two captures whose diff fails the check, or a first one that does, make an intact snapshot that no restore opens |
| HiddenMarkers.Unread | src/oci/snapshot.ts:310-373 | so does one capture with a name or link target that is not legible |
| HiddenMarkers.LinkUnread | src/oci/tar.ts:43-50 | wherever a link to U+FEFF and "a" can be captured there is such a capture |
| HiddenMarkers.DotsMisread | src/oci/tar.ts:43-69 | under root "/" a file named U+FEFF and two dots is read as "/..", which the check refuses |
| HiddenMarkers.MarkerExcluded | src/oci/snapshot.ts:128-130 | root "/w" with "/w/.wh.x" excluded is such a configuration |
| Snapshots.ListsAreDiff | src/oci/snapshot.ts:320-349 | the changed and deleted lists are the difference to the parent's index, empty exactly when nothing changed |
| Snapshots.CreateKeeps | src/oci/snapshot.ts:310-373 | recording a diff on HEAD keeps the whole invariant of the store and which snapshots are intact, for any roots and excluded paths |
| Snapshots.SnapshotManager.Create | src/oci/snapshot.ts:310-373 | fails exactly on a refused walk, is skipped exactly when skipping was asked for and tree and root modes are HEAD's, else saves an intact snapshot holding the diff to HEAD's tree; says exactly when that snapshot opens, for a first one and for one with legible names |
| Snapshots.SnapshotManager.RestoreSnapshot | src/oci/snapshot.ts:571-652 | succeeds exactly for intact snapshots that open, a live tree that can be walked and no conflict with excluded entries; afterwards a capture gives the saved tree plus retained directories, HEAD moves, changes are exact |
| Snapshots.SnapshotManager.Compact | src/oci/snapshot.ts:742-789 | a chain of one is left alone; otherwise HEAD is a new first snapshot of the same tree with the old HEAD's root modes, the chain's manifests are gone, the invariant holds, and if the old HEAD opened, the new one does if and only if its names and link targets are legible |
| Compaction.CompactRestoresAlike | src/oci/snapshot.ts:562-652 | over every live tree, where the old HEAD could be restored the compacted one can exactly when names and link targets are legible; both restores end with the same tree, root modes included, but for the name in HEAD, hold back the same modes and report the same changes |
| Snapshots.CompactKeepsBranches | src/oci/snapshot.ts:784-787 | after compaction a snapshot is intact if and only if it is the new one or its chain shares nothing with HEAD's old chain |
| Snapshots.ShapeListsRoots | src/oci/snapshot.ts:169-226 | a tree that a walk collected lists its nested roots, so restoring it meets the condition of RestoreInPlace |
| Snapshots.RestoredCapture | src/oci/snapshot.ts:571-652 | capturing a restored tree gives the saved tree extended by retained directories |
| Numerals.OctalRoundTrip | src/oci/tar.ts:210-214 | an octal field of k bytes reads back as its number if and only if the number is below 8 to the k-1 |
| Tar.PaxLengthLeast | src/oci/tar.ts:250-257 | the record length counts itself: it is the least length equal to size plus its own digits plus one |
| TarCodec.TarHeader | src/oci/tar.ts:216-235 | filling the block in place, checksum included, gives the header the specification describes |
| TarCodec.PaxLengthLoop | src/oci/tar.ts:250-257 | the loop stops, at that fixed point |
| TarCodec.WriteTarBuffer | src/oci/tar.ts:241-281 | the buffer copy yields the blocks of all entries in order, padded, with two zero blocks |
| TarCodec.ParsePaxLoop | src/oci/tar.ts:71-85 | the loop computes the record map of the specification on any bytes, malformed ones included |
| TarCodec.IndexTarLoop | src/oci/tar.ts:93-165 | the loop over any bytes computes the specified index, or reports that a negative size stops progress; what the index is of written and of foreign archives is stated by `TarRoundTrip.IndexOfWritten` and `ForeignTar.IndexOfForeign` |
| ForeignTar.IndexOfForeign | src/oci/tar.ts:93-165 | an archive of any writer, members with ustar prefixes, long names and links and PAX records in any order, indexes to exactly its members: a record in force comes before a long name, a long name before prefix and name; long names, long links and own records serve one entry, shared records all that follow; devices, pipes and the root are dropped |
| ForeignTar.NumberReads | src/oci/tar.ts:50-59 | a number field, octal or base 256, is read back exactly when the number is in the field's range |
| ForeignTar.SamePath | src/oci/tar.ts:61-66 | with or without a leading slash or "./", and however many slashes behind it, a name is the same absolute path |
| TarRoundTrip.IndexOfWritten | src/oci/tar.ts:93-281 | indexing a written tar reports its entries in order: path of any length, type, masked mode, whole-second clock, link and data range, names and links as their header fields or PAX records carry them |
| TarRoundTrip.FaithfulIff | src/oci/tar.ts:43-281 | an entry comes back with its own path and link if and only if neither its name nor a link it reports starts with U+FEFF in a header field |
| TarRoundTrip.ReadBackPaths | src/oci/tar.ts:119-157 | the paths reported are exactly those read from the written entries that have any path left |
| TarRoundTrip.ContentsOfWritten | src/oci/tar.ts:241-281 | the reported range of entry i holds exactly its content, where every entry is reported |
| TarRoundTrip.OverridesRead | src/oci/tar.ts:71-85 | parsing the written PAX records gives the long path and link back, whatever spaces, equals signs or newlines they hold |
| TarRoundTrip.NormalPathsSurvive | src/oci/tar.ts:64-69 | a stored path is reported unchanged if and only if it is normal |
| TarRoundTrip.ChecksumReads | src/oci/tar.ts:228-234 | the checksum field reads back as the sum of the header with that field blank |
| Gc.CheckParents | src/oci/snapshot.ts:802-818 | passes exactly when every snapshot's parents lead to a first snapshot without gap or cycle |
| Gc.MarkAudits | src/oci/snapshot.ts:825-839 | passes exactly when every audit chain ends, and marks the least closed set |
| Gc.MarkImages | src/oci/snapshot.ts:841-867 | passes exactly when some readable, parent-closed set contains every image ref, and marks the least one with all it names |
| Gc.MarkAliases | src/oci/snapshot.ts:868-872 | adds exactly the ciphertexts behind marked aliases |
| Gc.Store.Collect | src/oci/snapshot.ts:792-899 | deletes nothing unless the whole graph was marked; then what is left is exactly the least reachable set, and the count is right |
| Gc.SweepIsSafe | src/oci/snapshot.ts:868-898 | after a sweep to a closed set every ref, image parent, audit chain and snapshot layer reads as before |
| Collection.CollectKeeps | src/oci/snapshot.ts:868-898 | the manager's invariant survives a sweep, with the same snapshots intact and openable, so each restores as before |
| Collection.ChecksIntact | src/oci/snapshot.ts:802-818 | the collector's parent check passes if and only if every saved snapshot is intact |
| Ancestry.IsAncestor | src/manager/merge.ts:81-102 | true only for ancestors, and for every ancestor when the history fits the walk |
| Ancestry.Reach | src/manager/merge.ts:112-126 | breadth-first depths are shortest, found in order of depth, and complete when the history fits |
| Ancestry.CommonAncestor | src/manager/merge.ts:105-136 | a common ancestor least in the larger depth, among equals one closest to the first head; none exactly when none exists |
| Order.LessTotal | src/manager/merge.ts:208-213 | the string order is total and strict |
| Order.SortedUnique | src/manager/merge.ts:330 | a set of paths has one sorted listing, so sorting makes layer order canonical |
| MergeHeads.LoadHeadView | src/manager/merge.ts:169-202 | the loops compute the merged registers with their soleness, and the latest clock of every whiteout |
| MergeHeads.NewerIsGreater | src/manager/merge.ts:207-213 | the choice is the greater (mtime, actor, digest, offset) key, the first register on a tie |
| MergeHeads.DecideAll | src/manager/merge.ts:264-316 | the first loop settles every path as specified and reports conflicts in path order |
| MergeHeads.BuildLayers | src/manager/merge.ts:330-349 | the second loop appends one layer per winner, reused or built |
| MergeHeads.MergeHeads | src/manager/merge.ts:227-372 | every outcome is a fast-forward to a head that contains the other, or the canonical join of the two views over the chosen base |
| Descent.JoinDescends | src/manager/merge.ts:357-371 | the history of a published head is itself and exactly what the two heads had behind them |
| Symmetry.SymmetricIff | src/manager/merge.ts:264-296 | without a content merger, swapping the sides leaves a path's outcome unchanged if and only if equal keys mean equal registers |
| Symmetry.BothSidesSymmetric | src/manager/merge.ts:280-291 | the canonical argument order makes content merges symmetric for any merger, commutative or not |
| Symmetry.MergeSymmetric | src/manager/merge.ts:227-372 | in either order the same digest, store and reports, given one nearest ancestor and telling registers, content mergers included |
| Ties.OneSideIff | src/manager/merge.ts:299-314 | two ancestors settle a path that one head lacks alike exactly when both lack it, both hold it with the same edited or clock answer, or the one that holds it sees an unclocked edit |
| Ties.PartsTell | src/manager/merge.ts:330-337 | two reusable registers of a path put the same layer and diff id into a manifest exactly when they are equal |
| Ties.JoinOrdersIff | src/manager/merge.ts:250-372 | joining from any two ancestors in the two orders gives the same outcome if and only if both fail, or tied registers contribute alike, kept or content-merged, and the ancestors agree on every path one head lacks |
| Ties.MergeOrdersIff | src/manager/merge.ts:227-372 | the same, for the ancestors that the two calls choose |
| Deletions.StampIsLatest | src/manager/merge.ts:178-184 | the deletion clock of a path is the latest of its whiteouts over all layers, zero without any |
| Deletions.DeletedUnlessEditedLater | src/manager/merge.ts:299-314 | a base path that one head lacks survives if and only if the other edited it after every deletion recorded, and then unchanged |
| Deletions.DeletionReported | src/manager/merge.ts:307-315 | such a path is reported exactly when a deletion is clocked or an edit lost to one |
| Reports.ConflictsReported | src/manager/merge.ts:262-316 | a path that both heads hold is reported as settled by the clocks if and only if its entries differ and no merger applies, as merged by content if and only if they differ and one does; a path that one head lacks if and only if it was in the base and its deletion is clocked or won over an edit; each list is strictly sorted and holds nothing else |
| Reports.WinnersSettled | src/manager/merge.ts:262-316 | what survives a merge, on the two views: of two registers the newer, or the merger's output on older and newer bytes with the newer clock and mode and both actors in order; a lone file if it is new or was edited after every deletion |
| CrissCross.OrderMatters | src/manager/merge.ts:127-134 | a concrete history with two nearest ancestors where one order keeps a file that the other loses |
| MergedView.StackIsFlat | src/manager/merge.ts:330-349 | stacking single-file layers of distinct paths shows exactly those files |
| MergedView.JoinShows | src/manager/merge.ts:318-372 | the published head shows exactly the winners, a reused one with its register, a rebuilt one with its bytes, actor, mode and clock, if and only if no entry of the layers to be named, the reusable winners' own and one file for each other winner, in path order, touches a file placed before it; it never shows anything else |
| MergedView.JoinPairs | src/manager/merge.ts:318-348 | each layer of the published head stands beside its own diff id: the pair is one of a head's, or of one build |
| Replay.UndisturbedSketch | src/oci/view.ts:37-72 | whether a stack leaves its files alone depends on paths and directory flags only |
| MergedView.StackShows | src/manager/merge.ts:186-196 | layers that hold one file each, beside directories and whiteouts, show all their files if and only if none is touched |
| MergedView.WhiteoutRidesAlong | src/manager/merge.ts:186-196 | a layer counted as sole that also holds a whiteout deletes another winner when reused |
| Convergence.EveryPathWins | src/manager/merge.ts:265-316 | with nothing deleted every path survives with the newer of its registers, whatever base was found |
| Convergence.TidyMerge | src/manager/merge.ts:227-372 | in a store of per-file layers a merge never fails, keeps the store so, and its head shows the pointwise maximum of both, fast-forwards included |
| Convergence.RunPeaks | src/manager/merge.ts:227-372 | any run of merges, in any order and grouping, shows the pointwise maximum of the heads it merged |
| Convergence.Converges | src/manager/merge.ts:1-22 | two runs over the same heads show the same files |
| Grouping.JoinMeets | src/manager/merge.ts:227-372 | joining two heads whose files come from layers of their own, deletions included, shows at each path the meet of what base and heads have there, and forgets the clocks of deletions |
| Grouping.GroupingIff | src/manager/merge.ts:299-314 | three such heads over one base: both groupings succeed, and they show the same register at a path if and only if the guard on presence, edits and deletion clocks of the three holds |
| Regrouping.GroupingMatters | src/manager/merge.ts:299-314 | a history where the guard fails: an edit, a head without the file and a later deletion lose the file in one grouping and keep it in the other |
| Overlay.Pod.BuildOverlayHead | src/manager/overlay-sync.ts:101-201 | new manifest, ref and result are those of the specified push; nothing else changes |
| OverlayFacts.AppendedAre | src/manager/overlay-sync.ts:154-178 | one layer per upper file in path order, with its content, mode, clock, actor and annotations, then one layer of markers with the latest clock; nothing else |
| Descent.PushDescends | src/manager/overlay-sync.ts:186-199 | after a push that changed something the ref is on a stored head whose history is itself and exactly what the old head had behind it |
| Descent.PushFastForwards | src/manager/overlay-sync.ts:193 | merging the old head with the pushed one, in either order, moves on to the pushed one |
| Descent.PushesJoin | src/manager/overlay-sync.ts:101-201 | two pods that push over one basis, each in its own store: a merge of their heads is a three-way join against that basis |
| Descent.Retries | src/manager/overlay-sync.ts:211-234 | a push that changed nothing is sent only where the remote has no head or one that the pushed head goes beyond, and always there |
| Overlay.KeepLayers | src/manager/overlay-sync.ts:128-137 | the loop keeps exactly the layers that are not superseded, beside their diff ids |
| Overlay.AppendLayers | src/manager/overlay-sync.ts:153-171 | one layer per upper file in path order, then one of whiteouts, counted |
| OverlayFacts.OthersKept | src/manager/overlay-sync.ts:128-137 | layers of other actors and unannotated ones keep their order and diff ids; a layer is dropped if and only if it is own and superseded |
| OverlayFacts.MarkersAre | src/manager/overlay-sync.ts:162-171 | one marker per deletion with its clock; the layer carries the latest clock |
| OverlayFacts.RePush | src/manager/overlay-sync.ts:178-183 | pushing the same edit again changes something if and only if its layers are permanent or its actor has no name, and the first push changed something |
| OverlayFacts.NamelessRePush | src/manager/overlay-sync.ts:128-137 | an actor without a name pushes a file, and pushes it again |
| OverlayView.KeptAgree | src/manager/overlay-sync.ts:128-137 | dropping superseded layers leaves a path as it was if and only if no entry of the head's layers decides it: the last one to touch it, dropped, and showing or hiding what the others below do not |
| OverlayView.CleanUndecided | src/manager/overlay-sync.ts:119-127 | no untouched path is decided when own superseded layers hold only superseded files and covered whiteouts |
| OverlayView.PushedView | src/manager/overlay-sync.ts:119-171 | what the new head shows at every path: nothing that a deletion's marker strikes, the upper's plain files unless a later name deletes them, nothing that an upper file named like a whiteout deletes or that lies below an upper file replacing a directory, else what the layers that stay show; an untouched path is as before if and only if no entry decides it |
| OverlayView.UncoveredWhiteoutReturns | src/manager/overlay-sync.ts:131-134 | an earlier own whiteout that the current deletions do not cover: the file comes back |
| Sync.WalkImageDigests | src/manager/sync.ts:25-35 | the walk is the specified list, which `SyncFacts.ImageDigestsAre` ties to the parsed manifest |
| SyncFacts.ImageDigestsAre | src/manager/sync.ts:23-35 | the walk of a manifest starts with the manifest and its config, goes on with every layer in order, each before its index, and holds exactly these |
| SyncFacts.WalkIs | src/manager/sync.ts:23-35 | a walk succeeds exactly when the manifest, or every record of the audit chain, can be read, and lists exactly what loading the ref asks for |
| Sync.WalkAuditDigests | src/manager/audit.ts:71-80 | the chain from head to genesis |
| SyncFacts.AuditDigestsAre | src/manager/audit.ts:71-80 | the walk lists the chain record by record from the head down to the first one; without one, some record cannot be read |
| Sync.SyncRef | src/manager/sync.ts:62-92 | the destination and the counts are those of the specified pass; the ref is written if and only if nothing remains |
| SyncFacts.PassAccounts | src/manager/sync.ts:75-91 | every digest is moved, skipped or remaining; blobs are only added; the budget holds but for a first blob; something remains exactly when a digest is absent |
| SyncFacts.PassTotal | src/manager/sync.ts:75-91 | a pass fails only for a blob that neither side has |
| SyncFacts.PassesSuffice | src/manager/sync.ts:48-59 | n passes leave at most the missing blobs less n, so as many passes as missing blobs complete |
| SyncFacts.Stuck | src/manager/sync.ts:81-84 | a blob over budget that is not first in the walk never moves, in any number of passes |
| SyncFacts.CompletesIff | src/manager/sync.ts:48-92 | repeating the pass completes if and only if every missing blob but the first of the walk fits the budget |
| SyncFacts.RefsStayClosed | src/manager/sync.ts:62-92 | a pass keeps every ref closed whose manifest, config, layers, indexes or audit records are all there, and completes exactly when everything that loading its own ref asks for is at the destination |
| Screen.DrawSequence | src/host/terminal-session.ts:265-278 | the terminal reads a counted cursor sequence back as that many columns |
| Terminal.SplitKeys | src/host/terminal-session.ts:54-78 | the index loop yields the keys of the specification |
| Terminal.LongestPrefix | src/host/terminal-session.ts:85-91 | the nested loops compute the common prefix of the specification |
| Terminal.TerminalSession.HandleKey | src/host/terminal-session.ts:226-427 | every field and all written text change as the key's specified effect says, and the indices stay in range |
| Terminal.TerminalSession.HandleData | src/host/terminal-session.ts:216-224 | a chunk acts as its keys in order; a cut escape is held back |
| Terminal.KeyKeepsValid | src/host/terminal-session.ts:226-427 | cursor within the buffer, history index and search match within the history, after any key |
| Editing.CommonPrefixIs | src/host/terminal-session.ts:84-91 | every candidate starts with the common prefix, and nothing longer does |
| Editing.NewestMatch | src/host/terminal-session.ts:161-168 | the search finds the newest line at or before the start that includes the query, or none when there is none |
| Typing.KeyRefines | src/host/terminal-session.ts:226-409 | every editing key outside of a search changes the session exactly as it changes a typist's picture of text left and right of the cursor and of older and newer commands, and nothing else |
| Typing.KeysRefine | src/host/terminal-session.ts:226-409 | so does every sequence of such keys |
| Typing.UpRecalls | src/host/terminal-session.ts:343-350 | pressing Up n times recalls the n-th command before, the cursor behind it |
| Typing.DownReturns | src/host/terminal-session.ts:352-359 | pressing Down n times comes n commands forward, and behind the newest to an empty line |
| Typing.EnterRefines | src/host/terminal-session.ts:361-379 | a line that is run joins the history as it was typed, as its newest command; a blank, refused or exit line leaves the history alone |
| Typing.LastComesBack | src/host/terminal-session.ts:343-379 | after a command was run, Up brings it back |
| Typing.CompletionReplaces | src/host/terminal-session.ts:308-341 | where candidates start with the token, completion replaces it by the one candidate or by all that they have in common |
| Typing.SearchLooks | src/host/terminal-session.ts:161-213 | more text looks for the longer query from the match shown, erasing looks anew, Ctrl+R looks further back and stays when nothing is there; the line shown always includes the query |
| Typing.SearchEnds | src/host/terminal-session.ts:170-213 | any other control key ends the search with the line found, or with the line there was before |
| Typing.SearchSubmits | src/host/terminal-session.ts:170-254 | Enter in a search acts as it would on the line found, or on the line there was before; Ctrl+C drops search and line |
| Typing.EndOfInput | src/host/terminal-session.ts:245-250 | Ctrl+D ends the session on an empty line where the host can be left, and does nothing otherwise |
| Agreement.DrawTail | src/host/terminal-session.ts:298-306 | writing a tail and stepping back shows the edited line with the cursor in place |
| Agreement.KeyKeeps | src/host/terminal-session.ts:226-427 | one key, from any state, keeps the screen in agreement with prompt, buffer and cursor |
| Agreement.ScreenAgrees | src/host/terminal-session.ts:117-427 | from the banner on, over every sequence of keys, the screen shows prompt and buffer with the cursor at its place whenever no search is open |
| Chunking.RunByUnits | src/host/terminal-session.ts:420-426 | a run of printable text does what its units do one by one |
| Chunking.ChunkIsUnits | src/host/terminal-session.ts:216-224 | splitting and handling a chunk equals feeding its units to a machine that has no chunks |
| Cuts.CutsDoNotMatter | src/host/terminal-session.ts:216-224 | from any state, two ways of cutting the same input, between CR and LF or inside an escape too, give the same session and pending escape unless a cut falls inside a printable run while a search is open |
| Cuts.WholeOutsideSearch | src/host/terminal-session.ts:216-224 | without Ctrl+R no cut is of that kind |
| Cuts.SearchCutIff | src/host/terminal-session.ts:161-212 | a query typed in two pieces ends elsewhere than typed at once if and only if there is a match that is not the newest line, no line from it down includes the first piece, and a newer line includes the whole |
| Cuts.NextKeyIff | src/host/terminal-session.ts:161-212 | after one more key but text or Enter the difference is still there if and only if the key neither clears the line nor shortens the query, and, for Ctrl+R, an older line matches, else the line found is not the saved one |
| Cuts.CutIff | src/host/terminal-session.ts:209-224 | a cut before a printable rest changes the result if and only if it splits a run in an open search and the first piece misses in that way |
| Chunking.SearchSeesCuts | src/host/terminal-session.ts:209-212 | in a reverse search a query in two chunks can match where the whole query does not |
| Gate.StepKeeps | vscode-extension/pod-terminal.js:8-152 | every event keeps the gate's invariant |
| Gate.CheckpointAlone | vscode-extension/pod-terminal.js:10-29 | in every run, while a checkpoint runs it is the only one and no live worker runs a command but the one that asked for it |
| Gate.NothingPosted | vscode-extension/pod-terminal.js:115-122 | no step between a checkpoint's start and end posts an input |
| Gate.InputsInOrder | vscode-extension/pod-terminal.js:109-122 | inputs of an open terminal are posted in order under rising ids, none left waiting while the worker is ready and no checkpoint runs |
| Gate.NeverDroppedAlive | vscode-extension/pod-terminal.js:124-152 | a terminal with a live worker stays in the gate, its running commands pending |
| Gate.PendingIs | vscode-extension/pod-terminal.js:109-122 | in every run an input counts as running exactly from its posting to its acknowledgement |
| Gate.AdmittedIff | vscode-extension/pod-terminal.js:10-29 | in every run the next checkpoint runs if and only if no terminal in the gate is stopping and every posted input but the asking one is acknowledged, that one still running in an open terminal; otherwise it is refused at once |
| Gate.HeldUntilCompleted | vscode-extension/pod-terminal.js:85-107 | a checkpoint that a command asked for may end exactly once its worker reports completion or is gone |
| Lifecycle.StepKeeps | src/apps/lifecycle.ts:37-104 | every host, app, timer and channel event keeps the handshake's invariant |
| Lifecycle.Agreement | src/apps/lifecycle.ts:29-82 | in every run, what an undisposed host reports as running or suspended is the app's state, and a request is pending exactly in transit |
| Lifecycle.AcksConfirm | src/apps/lifecycle.ts:57-64 | an acknowledgement that answers the pending request always confirms it, with this app |
| Lifecycle.HandshakeCompletes | src/apps/lifecycle.ts:37-82 | in every run a request whose message and answer get through is obeyed by the app, and the host hears of it |
| Lifecycle.QueryAnswers | src/apps/lifecycle.ts:52-94 | in every run a host that does not know its app learns that it runs from one query that gets through |
| Lifecycle.ErrorIsFinal | src/apps/lifecycle.ts:66-92 | no event leaves the error state |
| Lifecycle.ClockCountsRunning | examples/lifecycle-app/main.js:18-64 | the app's elapsed time is exactly the time it was not suspended, over every run |
| Cipher.EncryptBlob | src/oci/cipher.ts:48-86 | the chunk loop and the framing in place give the specified envelope, one nonce per chunk |
| Cipher.DecryptBlob | src/oci/cipher.ts:98-133 | the chunk loop computes the specified opening on any bytes, refusing what does not parse, open, fit or hash |
| Cipher.RoundTrip | src/oci/cipher.ts:48-133 | an envelope opens to its plaintext, for any chunk size of at least one and the empty plaintext, while the header's length fits its 32-bit field |
| EncryptedStore.OciStore.PutBlob | src/oci/store.ts:198-210 | a wrong digest changes nothing; otherwise the blob or its envelope and alias are stored as specified |
| EncryptedStore.OciStore.GetBlob | src/oci/store.ts:225-245 | reads directly or through the alias, every path verified |
| EncryptedStore.ReadIsVerified | src/oci/store.ts:225-245 | whatever the store holds, a read gives bytes of the digest asked for, or what is inside an envelope of that digest |
| EncryptedStore.WithBlobSound | src/oci/store.ts:198-210 | putting a blob keeps every blob under its digest and every alias opening to its plaintext |
| EncryptedStore.ServesIff | src/oci/store.ts:225-245 | a blob is served if and only if the store has it and does not misread it: held directly it starts like an envelope and a key is there, or held by alias without a key |
| EncryptedStore.WithBlobServes | src/oci/store.ts:198-245 | a put blob is served unless it was there and misread; what was served before still is, but for an aliased blob that equals the new envelope |
| EncryptedStore.EnvelopeMisread | src/oci/store.ts:235-240 | a keyed store that holds an envelope as it is serves what is inside it |
| EncryptedSync.PushEncryptedRef | src/manager/encrypted-sync.ts:43-73 | relay blobs and ref are those of the specified push, or the ref is untouched |
| EncryptedFacts.PushesIff | src/manager/encrypted-sync.ts:43-73 | a push goes through if and only if the manifest can be read and everything it names is kept encrypted |
| EncryptedFacts.PushIsHonest | src/manager/encrypted-sync.ts:43-73 | even out of a damaged store a push brings no blob to the relay under a digest not its own |
| EncryptedSync.PullEncryptedRef | src/manager/encrypted-sync.ts:81-106 | the store after a pull is the specified one, or its refs are untouched |
| EncryptedFacts.TakesAllIff | src/manager/encrypted-sync.ts:90-103 | a pull takes all entries if and only if each, in its turn, is there or comes under its digest and opens to its plaintext |
| EncryptedFacts.PullIsSound | src/manager/encrypted-sync.ts:75-106 | whatever the relay holds, a pull that succeeds leaves every blob under its own digest and has every blob its listing names |
| EncryptedFacts.RelaySeesEnvelopes | src/manager/encrypted-sync.ts:43-73 | every blob a push adds to the relay is an envelope, and none is overwritten |
| EncryptedFacts.PullAfterPush | src/manager/encrypted-sync.ts:43-106 | after a push, a pull with the same key succeeds and installs the same ref; the manifest and everything it names are delivered, and such a blob is served with the source's plaintext if and only if the destination did not misread it before and no envelope that it seals for the pull has that digest, unless it held such a blob |

## Where the source promises more

- Any path may be excluded (`src/oci/snapshot.ts:72-73`), but excluding the whiteout marker of a path that is captured
  and then deleted makes every later snapshot unrestorable until compaction: `HiddenMarkers.AcceptedIff` says exactly
  when, `HiddenMarkers.Closed` runs into it, `HiddenMarkers.MarkerExcluded` is one such configuration.
- What `create` saves is to be restored (`src/oci/snapshot.ts:562-580`), but the header decoder drops a leading U+FEFF
  (`src/oci/tar.ts:43-50`): `TarRoundTrip.FaithfulIff`. A captured link whose short target starts with it is saved and
  then never restored, `HiddenMarkers.LinkUnread`; `Snapshots.IntactIsAcceptable`, `Snapshots.FirstOpensIff` and
  `HiddenMarkers.PlainOpens` say what opens.
- Merge symmetry (`src/manager/merge.ts:14-17`) holds for one nearest common ancestor and registers that differ in their
  key. With several nearest ancestors the order can matter, `CrissCross.OrderMatters`; it does not exactly when
  `Ties.MergeOrdersIff` says so.
- Convergence is proved for stores without deletions, with no bound on the walk; with them the grouping of merges can
  matter: `Grouping.GroupingIff` says exactly where, `Regrouping.GroupingMatters` is one such history.
- Zero-copy reuse is documented as "holds exactly this file" (`src/manager/merge.ts:143-144`) but counts files only:
  `MergedView.WhiteoutRidesAlong`, with the exact condition in `MergedView.JoinShows`.
- A push replaces "only our overlay layers the upper actually supersedes" (`src/manager/overlay-sync.ts:119-122`), and can
  still change a path the edit does not mention: `OverlayView.UncoveredWhiteoutReturns`, with the exact condition in
  `OverlayView.KeptAgree`.
- "The first blob always moves, guaranteeing progress" (`src/manager/sync.ts:50-54`) fails once anything was skipped:
  `SyncFacts.Stuck`, with the exact condition in `SyncFacts.CompletesIff`.
- "A re-push is a no-op" (`src/manager/overlay-sync.ts:96-100`) holds for layers that are not permanent and an actor
  with a name: `OverlayFacts.RePush`, `OverlayFacts.NamelessRePush`.
- A root inside a root that the saved tree does not list defeats a restore that passed its preflight:
  `RestoreFacts.NestedRootUnlisted`. Trees captured by `create` always list them: `Snapshots.ShapeListsRoots`.
- A root can be reported as changed when it is not, or not reported when it is, if it is listed twice or is an entry of
  another root: `RestoreFacts.RootReport`.
- Keys run in order however the input arrives (`src/host/terminal-session.ts:216`), but a query cut in a reverse search
  can find another line: `Chunking.SearchSeesCuts`, exactly when in `Cuts.SearchCutIff`, and for how long in
  `Cuts.NextKeyIff`.
- A pulled image is not served as pushed where the destination holds one of its blobs, itself an envelope, under its own
  digest: `EncryptedStore.EnvelopeMisread`, exactly when in `EncryptedFacts.PullAfterPush`.

## Left out

- Symlink modes, inode and mtime change detection, native case or Unicode aliasing of paths: distinct paths are distinct entries and writers are quiet during an operation.
- The ordering of siblings by `localeCompare` in restore, and of all entries in compaction, which writes shallow entries first here: any order that respects depth is allowed, and the theorems hold for each.
- `Order.Less` compares UTF-8 bytes, JavaScript UTF-16 code units; the two orders differ where characters above U+FFFF meet ones above the surrogates.
- Case folding in the reserved-root test is ASCII only.
- HEAD is written to the same tree that is walked; its reserved root keeps it outside every capture.
- TextDecoder's replacement of malformed UTF-8, and floating-point rounding of base-256 sizes above 2^53.
- Snapshots.IntactIsAcceptable: where a name on the chain is not legible and the snapshot is not a first one written by `create`, whether it opens is left as the outcome of the check itself; entries may then be read in place of others and be deleted again.
- Names that start with U+FEFF in merges and overlays: the per-file layer builder is taken to index the path it was given.
- Malformed mtime annotations in merges, which the source reads as NaN, so that `newerOf` prefers its second argument: clocks are natural numbers here.
- ForeignTar.IndexOfForeign: takes PAX keys that start with a printable ASCII character, as all that the indexer looks up do, and number fields that are written as numbers.
- Tar sizes below zero, which make the indexer's offset stand still or go back: the model reports that it makes no progress.
- Snapshot diff listing, mount, checkout, copyTo and commit, labels, origins and timestamps.
- Tar modes above 0o777 in compaction: the model's nodes have the nine permission bits.
- Deriving a layer's index from a stored artifact instead of the tar: the model reads one index per layer blob.
- Hardlink and symlink winners of a merge, which the source rewrites as plain files.
- Gc.Store.Collect: does not model malformed digests, unrecognised file names, non-file records or objects that vanish during the sweep, all of which only make the source stop or skip.
- MergeHeads.MergeHeads: models the manifest, its layers and diff ids and the ref's digest, not the JSON bytes of config and manifest.
- Convergence.Converges: is stated for stores whose layers each hold one file and where no content merger is registered; with deletions it is false, and `Grouping.GroupingIff` takes three heads over one base.
- Grouping.GroupingIff: is stated for heads whose files each come from a layer of their own and where no content merger applies.
- OverlayView.PushedView: takes the upper to be files of one tree, none below another.
- MergedView.JoinShows: is stated over content-addressed layers, where a digest determines the layer's entries and bytes.
- Overlay.Pod.BuildOverlayHead: takes the upper as a map of files; the directory walk that lists it is not modelled.
- syncAllRefs, the transport adapter and materializeImage.
- Agreement.ScreenAgrees: assumes prompts and completions of printable text, command output that does not end inside an escape sequence, one column per code unit and a row wide enough.
- Typing while a command runs, aborting it with Ctrl+C, tool-call echo and the help banner: keys are handled one after the other and what a command writes is one parameter.
- `onExit` is taken to dispose of the session.
- Terminal.LongestPrefix: ties the loops to a function on candidate lists; which candidates a sandbox offers is a parameter.
- Gate and Lifecycle are step relations on values: the objects' identities, promises and event emitters are not modelled, and each handler is one step.
- Error responses to invalid checkpoint requests, terminal output events and worker spawning failures.
- A second app instance in the frame (a reload), for which the handshake makes no promise.
- Key custody: a locked or expired key is an absent one. The header of an envelope is not authenticated in the source; the round trip is stated for envelopes as written.
- EncryptedSync.PullEncryptedRef: leaves out the index build after the ref is written.
- EncryptedFacts.PullAfterPush: assumes headers below 4 GiB.
- OPFS, IndexedDB, ZenFS mounts, registries, policy, approvals, keyring and the command line.
