# Verified models of four kernel plugins and a page-table tool

This project models the parts of the repository that hold their own algorithms and state, and proves what they are for.
`dafny verify dfyconfig.toml` checks the whole project.

## What is modelled

**The in-memory volume of SceVfsMountPoC.** Entries are linked by `next` (siblings) and `next_dir` (first child).
`PathTree` gives the tree as a value (sibling lists and, for every entry, the chain of entries that leads to it) and the
meaning of paths; `TreeSteps` is what linking, unlinking and moving do to it, `TreePaths` where every path leads
afterwards, and `FlatFs` the volume as its users see it: a map from paths to bytes and a set of directory paths.
`FlatFs.RunRefines` shows every run on the linked tree to be the run of the obvious operations on that flat volume, and
`Refusals` says what each operation returns, in terms of the paths there are.
`Entries`, `Volumes` and `VolumeOps` are the heap: objects with the program's fields, loops that walk a list with a
pointer to the place where the current pointer is stored, and stores over that place; each call takes the volume the
step that `FlatFs` reasons about. `FileSpec` is one file with its open offsets as a value, `FileLaws` what its
replies mean to a user, `FileIo` the calls on the buffer, vnode and file objects; `DirCursor` and `DirIo` are directory reading while the tree changes.

**The file system at work.** `World` puts all of that into one value: the tree and, for every entry, its bytes, the
offsets of the handles on it and the cursors of the directory handles; an entry removed while open stays behind without
a path. A request creates, makes, removes or renames by path, opens a file or a directory, writes, reads, seeks, writes
or reads at a position, closes, changes a size, or reads a directory. `WorldRuns`, `DirRuns` and `HandleRuns` say what
whole runs of requests mean for paths, for each file, for each directory handle and for the descriptors, and `WorldLaws`
that ordinary requests are passed on, with the answer each of them gets. On the heap,
`FileRuns` and `DirTables` are the calls on the objects of one open file or directory, and `Desks`, `DeskCalls`,
`DeskChanges` and `DeskRuns` serve requests against the linked entries, with any number of files and directories open at
once. The main result is `DeskRuns.Run` with `DeskRuns.Session`: from mounting on, for every sequence of requests and
every answer of the kernel, the heap goes through the run of `World` and gives its answers. Nothing is assumed of the
requests: what the virtual file system would not pass on is refused. So every theorem about runs of the value is one
about the heap; `DeskRuns.FileOnHeap` and `DeskRuns.HandlesOnHeap` spell two of them out.

**The copy into executable memory of SceVfsMountPoC_old.** `Arm` is the little of the instruction set that is needed:
32-bit words, flags, flag-setting arithmetic. `ArmMemcpy` is the unrolled copy with its biased counters; `CacheLines` the
loops over lines and pages, each recording what it issues; `CacheStates` what recorded operations do to the caches (which
lines they hold, which of these are dirty, which instruction lines are stale), and `MemcpyRx` the composition.

**The translation tables of SceTTBRParser** (`PageTables`): the reader that translates an address and the dumper that
lists the tables, two readings of the short-descriptor format (section B3.5 of the ARMv7-A Architecture Reference Manual).

**CMAC and buffer reversal of act_verifier** (`Cmac`, `CmacIo`, `SwapData`): RFC 4493 over any block cipher, and the
routine over byte arrays that may be the same array.

**Two small stateful cores**: the doubly linked object list (`ItemList`) and the buffered logger (`BufferedLog`).

`Words` and `Lists` hold what several of these share.

## How state is modelled

- An entry's name pointer that is null is the name `""`. Copying a name never yields an empty string, so nothing else is.
- A handle record is keyed by its file object. The program stores the object's address in an `int`.
- What the kernel answers (memory, new vnodes, descriptors, the block cipher) is a parameter, so every outcome is covered.
  Each heap allocation has its own: a new entry makes three.
- A call of the virtual file system passes `path = directory path + "/" + name` with a name free of `/` and NUL; that is
  what it promises the plugin. `FlatFs.Legal` says what else it promises for a change of the tree, `FileSpec.CallOk` for a
  call on a handle, and `World.Proper` puts both together. Single calls are stated without these promises wherever the
  code does something definite.
- What the virtual file system holds (vnodes, file objects and the descriptors that requests name) is the value `Desks.Desk`,
  handed from request to request; the objects themselves are on the heap.
- A copy that would leave its buffer is not carried out: the routine stops in front of it and says so (`inside`).
- File sizes and offsets are integers; the 32-bit and 64-bit truncations the code performs are written out
  (`Low32`, `Signed32`, `Signed64`), as are the 32-bit registers of the assembly (`u32`, `SubS`, `AddS`, `LslS`).
- Contents that the code leaves uninitialised (the rest of a grown buffer, a file lengthened by chstat) are arbitrary.

## Where the code falls short, exactly

- `Cmac.ConformsIff`: the CMAC routine is that of RFC 4493 for every cipher and message of a length if and only if the
  length is a positive number of whole blocks. A short last block is padded into the second subkey and then combined with
  itself, so it does not enter the result (`Cmac.TailIgnored`). Both callers pass whole blocks.
- `TreeSteps.MoveIsTreeIff`: renaming leaves a tree if and only if the target directory is not in the moved subtree, and
  `TreeSteps.MoveNamesIff`: names stay unambiguous if and only if no other child of the target has the new name. The code
  checks neither. `TreeSteps.IntoItsChild` and `TreeSteps.OntoTakenName` are such renames; `Volumes.Volume.Rename` has the
  same two conditions for the heap.
- `LostCursors.LostCursorIff`: after an entry has been removed or renamed, every directory handle still points into the
  list of its directory if and only if none was about to return that entry, or it was renamed within its directory.
  `LostCursors.CursorLost` is a removal that leaves a handle pointing at a freed entry.
- `VolumeOps.VopCreate`, `VopMkdir`, `VopRename` and `Volumes.SetRoot`: the copy of the name that is kept is not tested;
  all names stay usable if and only if that copy succeeds (and, for a rename, the name fits).
- `FileIo.Pwrite`, `FileIo.Pread`: once past the tests, a positional copy stays in the buffer if and only if the offset is
  not negative (and, for a write, the file then ends at or below 0xFFFFFE00). `FileIo.NegativeOffsetStrays` is the input:
  offset -1 in a file of one byte.
- `FileSpec.FitsIff`: at an offset that is not past the end, the copies of a write stay in their buffers if and only if
  the offset is not negative and the file then ends at or below 0xFFFFFE00, where `FileSpec.RoomIff` puts the limit of the
  32-bit rounded size; `FileSpec.EveryWriteFitsIff`: writes of every length at an offset do if and only if the offset is in
  the file. `FileIo.Write` says for each write whether its copies stay.
- `FileIo.SetSize`: moving the file into the new buffer stays inside it if and only if the new size is not smaller (or
  zero), and room for whole blocks is kept if and only if the new size is a whole number of blocks.
- `CacheLines.RoundsIff`: a line loop acts on exactly the lines of its range if and only if the range is not empty, and
  `MemcpyRx.EmptyRounds`: on an empty range at the start of a line it goes through all lines there are, 32 times over
  unless it starts at 0. So `MemcpyRx.Copy` issues exactly what its range calls for if and only if there is a byte to copy.
- `PageTables.PrintedBaseIff`: the base printed for a record is the base of its 4 KiB except for the last fifteen of the
  sixteen records of a large page, which all print the base of the 64 KiB.
- `BufferedLog.VerbatimIff`: the file grows by the messages as they are if and only if none is longer than 0x1FE bytes;
  of a longer one the rest becomes NUL bytes. `BufferedLog.Logger.LogWrite`: the copy out of the scratch buffer stays
  inside it if and only if the message is no longer than 0x200 bytes, and `BufferedLog.Logger.Perform`: a run goes through
  if and only if no longer message meets an open log.
- `BufferedLog.StuckForGood`: after an open that fails, the logger never opens or writes again, although the failing call
  and every later write return 0.

## Model

| member | source | states |
|---|---|---|
| PathTree.ResolveIff | kernel/SceVfsMountPoC/src/fs_tool.c:80-134 | path resolution is sound and complete: a lookup finds an entry exactly when the path is the printed path of that entry |
| PathTree.PathsAreUnique | kernel/SceVfsMountPoC/src/fs_tool.c:80-134 | two entries never have the same path |
| PathTree.EmptyComponentIff | kernel/SceVfsMountPoC/src/fs_tool.c:93-102 | the empty-component error is returned exactly when some prefix that resolves is followed by a `/` with nothing after it |
| PathTree.OnlyCleanPathsResolve | kernel/SceVfsMountPoC/src/fs_tool.c:82-102 | a path that resolves starts with `/`, does not end with one and has no `//` |
| PathTree.FailureCodes | kernel/SceVfsMountPoC/src/fs_tool.c:82-134 | each way for a lookup to fail has its own code, for paths of its own: no leading `/`, an empty component where the scan still has an entry, or, for a clean path, an entry that is not there |
| TreeSteps.LinkKeepsShape | kernel/SceVfsMountPoC/src/main.c:146-147 | pushing a new entry at the head of a directory's list keeps the finite tree with one incoming link per entry |
| TreeSteps.LinkKeepsNames | kernel/SceVfsMountPoC/src/main.c:137-147 | and keeps sibling names distinct when the name was free |
| TreeSteps.UnlinkKeepsShape | kernel/SceVfsMountPoC/src/main.c:421-433 | unlinking an entry without children keeps the tree |
| TreeSteps.UnlinkKeepsNames | kernel/SceVfsMountPoC/src/main.c:421-433 | and keeps sibling names distinct |
| TreeSteps.MoveKeepsShape | kernel/SceVfsMountPoC/src/main.c:681-700 | moving an entry to a directory outside its subtree, the same list included, keeps the tree |
| TreeSteps.MoveIsTreeIff | kernel/SceVfsMountPoC/src/main.c:681-700 | the relinked pointers form a tree exactly when the target directory is not in the moved subtree: otherwise no chains from the root fit them |
| TreeSteps.MoveNamesIff | kernel/SceVfsMountPoC/src/main.c:697-703 | names stay usable and distinct exactly when the new name is a name and no other child of the target has it |
| TreeSteps.IntoItsChild | kernel/SceVfsMountPoC/src/main.c:681-700 | a directory renamed into its own child: no chains from the root fit the links it leaves |
| TreeSteps.OntoTakenName | kernel/SceVfsMountPoC/src/main.c:697-703 | an entry renamed to a name that is taken: the tree stays one, its names do not |
| TreePaths.UnderIff | kernel/SceVfsMountPoC/src/fs_tool.c:80-134 | being below in the tree is being below in the paths |
| TreePaths.FreeIff | kernel/SceVfsMountPoC/src/main.c:137-139 | the path of a name in a directory is free exactly when no child of the directory has the name |
| TreePaths.AfterLink | kernel/SceVfsMountPoC/src/main.c:137-147 | after a create the new path leads to the new entry and every other path leads where it led |
| TreePaths.AfterUnlink | kernel/SceVfsMountPoC/src/main.c:421-433 | after a remove the path of the entry leads nowhere and every other path leads where it led |
| TreePaths.AfterMove | kernel/SceVfsMountPoC/src/main.c:677-703 | after a rename, for every path: below the new path it leads where the same rest behind the old path led, below the old path it leads nowhere, elsewhere it leads where it led |
| TreePaths.MovePaths | kernel/SceVfsMountPoC/src/main.c:697-703 | the path of every entry after a rename |
| FlatFs.StepRefines | kernel/SceVfsMountPoC/src/main.c:125-522 | each operation on the linked tree is the flat operation on paths and bytes, and keeps the tree well formed |
| FlatFs.RunRefines | kernel/SceVfsMountPoC/src/main.c:125-728 | over every run the linked tree stays well formed and shows exactly the files and directories of the flat volume |
| FlatFs.EmptyIff | kernel/SceVfsMountPoC/src/main.c:501-502 | a directory has no first child exactly when no path lies below it |
| FlatFs.MountedIsFlat | kernel/SceVfsMountPoC/src/main.c:59-93 | a mounted volume is the directory /md and no file |
| FlatFs.CreateIsStep | kernel/SceVfsMountPoC/src/main.c:137-147 | a create in a directory entry is the create at the directory's path |
| FlatFs.RemoveIsStep | kernel/SceVfsMountPoC/src/main.c:414-435 | remove and rmdir at "directory path / name" act on a child of that directory, so the search for the link cannot fail |
| FlatFs.RenameIsStep | kernel/SceVfsMountPoC/src/main.c:677-727 | the same for a rename |
| Entries.Entry.CreateCtl | kernel/SceVfsMountPoC/src/fs_tool.c:287-303 | puts a record at the head of the list and counts it; without memory nothing changes |
| Entries.Entry.SearchCtl | kernel/SceVfsMountPoC/src/fs_tool.c:328-341 | finds the newest record with the key, and none exactly when there is none |
| Entries.Entry.FindSlot | kernel/SceVfsMountPoC/src/fs_tool.c:307-323 | the walk with a pointer to a pointer stops at the first record with the key |
| Entries.Entry.DeleteCtl | kernel/SceVfsMountPoC/src/fs_tool.c:305-326 | takes out exactly the newest record with the key and keeps the count equal to the number of records |
| Volumes.SetRoot | kernel/SceVfsMountPoC/src/main.c:59-93 | every outcome of setting the root: null arguments, no memory, a root already set, a root without a name; otherwise the heap is the mounted volume |
| Volumes.Volume.GetFsEntry | kernel/SceVfsMountPoC/src/fs_tool.c:80-145 | the pointer-moving scan returns what path resolution returns, with the same error codes |
| Volumes.Volume.SearchLevel | kernel/SceVfsMountPoC/src/fs_tool.c:112-118 | the sibling walk finds the first entry with the name |
| Volumes.NameMatchesIff | kernel/SceVfsMountPoC/src/fs_tool.c:113 | comparing the component's bytes and the terminator is comparing names |
| Volumes.CreateInfo | kernel/SceVfsMountPoC/src/fs_tool.c:202-262 | which of the three allocations must succeed, and the entry made |
| Volumes.Volume.LinkEntry | kernel/SceVfsMountPoC/src/main.c:146-147 | two stores at the head of the list are the link step of the tree |
| Volumes.Volume.AddEntry | kernel/SceVfsMountPoC/src/main.c:137-158 | create in full: result code of every branch, the new tree, and that it stays linked when no vnode can be had |
| Volumes.Volume.FindSlot | kernel/SceVfsMountPoC/src/main.c:421-433 | the walk with a pointer to a pointer finds the place that stores the entry, exactly when it is in the list |
| Volumes.Volume.UnlinkEntry | kernel/SceVfsMountPoC/src/main.c:424 | storing the next link over that place is the unlink step of the tree |
| Volumes.Volume.DeleteInfo | kernel/SceVfsMountPoC/src/fs_tool.c:264-285 | an entry with handles is kept with its bytes, one without is released |
| Volumes.Volume.Remove | kernel/SceVfsMountPoC/src/main.c:405-436 | every branch of remove, with the new tree; when it acts the result is what releasing the entry returns |
| Volumes.Volume.Rmdir | kernel/SceVfsMountPoC/src/main.c:489-522 | every branch of rmdir, with the new tree; the codes are said of the paths by VolumeOps.VopRmdir |
| Volumes.Volume.MoveEntry | kernel/SceVfsMountPoC/src/main.c:697-703 | the four stores of a rename are the move step of the tree, the same list included, and leave a tree exactly when the target is not in the moved subtree |
| Volumes.Volume.Rename | kernel/SceVfsMountPoC/src/main.c:656-728 | every branch of rename, with the links it leaves for any target; they are a tree exactly when the target is clear of what was moved, and names stay usable exactly when the new one was copied and fits |
| Volumes.NewNameIff | kernel/SceVfsMountPoC/src/fs_tool.c:211-224 | a created entry keeps all names usable exactly when the second copy of its name succeeded |
| VolumeOps.VopCreate | kernel/SceVfsMountPoC/src/main.c:125-177 | on the heap, tree and contents take the create step; on failure nothing changes; 0x80010011 exactly when the path is taken, -1 exactly when memory is missing for a free one |
| VolumeOps.VopMkdir | kernel/SceVfsMountPoC/src/main.c:438-487 | the same for mkdir; 0x80010014 in place of the rest when the parent is a file |
| VolumeOps.VopRemove | kernel/SceVfsMountPoC/src/main.c:405-436 | takes the remove step; an open file leaves the tree and keeps bytes, size and handles; 0x80010002 exactly when nothing has the path, -1 for a directory |
| VolumeOps.VopRmdir | kernel/SceVfsMountPoC/src/main.c:489-522 | takes the rmdir step; 0x80010002 exactly when nothing has the path, 0x80010011 exactly when some path lies strictly below it, 0x80010014 exactly when it is a file |
| VolumeOps.VopRename | kernel/SceVfsMountPoC/src/main.c:656-728 | takes the rename step, bytes and descendants moving along, for any target; exactly when links and names stay in order; 0x80010001 for another mount, 0x80010002 exactly when nothing has the old path, or the code of the vnode that cannot be had |
| VolumeOps.VopWrite | kernel/SceVfsMountPoC/src/main.c:323-375 | for any offset and length, changes the bytes of one file of the volume and no other |
| Refusals.NothingThere | kernel/SceVfsMountPoC/src/fs_tool.c:80-145 | looking up a name in a directory finds its child, a file or a directory with or without paths below, or fails with 0x80010002 exactly when nothing has the path |
| Refusals.RmdirCode | kernel/SceVfsMountPoC/src/main.c:494-522 | what rmdir decides on the tree gives the codes said of the paths |
| Refusals.RemoveCode | kernel/SceVfsMountPoC/src/main.c:408-436 | the same for remove |
| Refusals.RenameCode | kernel/SceVfsMountPoC/src/main.c:664-728 | the same for rename |
| Refusals.CreateCode | kernel/SceVfsMountPoC/src/main.c:137-177 | the same for create |
| Refusals.MkdirCode | kernel/SceVfsMountPoC/src/main.c:444-487 | the same for mkdir |
| FileSpec.RoomIff | kernel/SceVfsMountPoC/src/main.c:273-274 | the 32-bit rounded size has room for the file exactly up to 0xFFFFFE00 |
| FileSpec.GrowsIff | kernel/SceVfsMountPoC/src/main.c:348-350 | a write needs memory exactly when a multiple of 0x200 lies from the end of the file to below the end of the data |
| FileSpec.FitsIff | kernel/SceVfsMountPoC/src/main.c:350-365 | at an offset not past the end the copies of a write stay in their buffers exactly when the offset is not negative and the file then ends at or below 0xFFFFFE00 |
| FileSpec.EveryWriteFitsIff | kernel/SceVfsMountPoC/src/main.c:350-365 | growth computed from the size covers every write at an offset exactly when the offset is not past the end |
| FileSpec.ExecInFile | kernel/SceVfsMountPoC/src/main.c:276-399 | every call keeps all open offsets inside the file |
| FileSpec.RunFile | kernel/SceVfsMountPoC/src/main.c:276-399 | so does every run, so no holes can arise |
| FileSpec.LastWriteWins | kernel/SceVfsMountPoC/src/main.c:276-375 | over every run of calls, size changes included, each byte is the one put last at its position and every position below the end has been put |
| FileIo.Grow | kernel/SceVfsMountPoC/src/main.c:350-363 | growing keeps the bytes and gives room, without memory changes nothing, and moves the file inside the new buffer exactly when it fits the 32-bit rounded size |
| FileIo.Poke | kernel/SceVfsMountPoC/src/main.c:365-372 | the copy stays in the buffer, the content is the splice, and vnode and entry sizes stay equal |
| FileIo.Write | kernel/SceVfsMountPoC/src/main.c:323-375 | every branch of write for any offset and length: the data laid over the file at the offset, the offset moved behind it, the number of bytes given (signed, in 32 bits) as the result, and exactly when its copies stay in their buffers |
| FileIo.Pwrite | kernel/SceVfsMountPoC/src/main.c:764-816 | every branch of the positional write for any offset, likewise, the offset of the handle left alone |
| FileIo.Read | kernel/SceVfsMountPoC/src/main.c:276-321 | every branch of read: as many bytes as asked for and there are, byte `i` the one at offset + `i`; the offset moves past them |
| FileIo.Pread | kernel/SceVfsMountPoC/src/main.c:730-762 | every branch of the positional read for any offset, byte by byte, and exactly when its copy stays in the buffer |
| FileIo.Lseek | kernel/SceVfsMountPoC/src/main.c:377-399 | the target is the argument, the offset plus it, or the size plus it (in 64 bits); exactly when it lies in the file the offset and the result are the target, otherwise 0x80010016 and nothing moves |
| FileIo.OpenFile | kernel/SceVfsMountPoC/src/main.c:102-123 | a handle record more, and in append mode the offset at the end |
| FileIo.CloseFile | kernel/SceVfsMountPoC/src/main.c:179-198 | the file object's newest record goes, the others stay |
| FileIo.SetSize | kernel/SceVfsMountPoC/src/main.c:619-642 | every branch of a size change to any size; the move stays in the new buffer exactly when that is not smaller, and room for whole blocks is kept exactly for whole blocks |
| FileIo.PwriteIsSeekWrite | kernel/SceVfsMountPoC/src/main.c:764-816 | of two files with the same bytes one is written at a position, the other sought and written: same result, same bytes, and only the second offset moves |
| FileIo.PreadIsSeekRead | kernel/SceVfsMountPoC/src/main.c:730-762 | the same for reading: the same bytes and result, and neither file changes |
| FileLaws.ReadsLastPut | kernel/SceVfsMountPoC/src/main.c:276-321 | after every run of calls a read returns as many bytes as it asks for and there are, each the byte put last at its position, and moves its own offset past them and no other |
| FileLaws.PreadsLastPut | kernel/SceVfsMountPoC/src/main.c:730-762 | a positional read likewise, moving nothing |
| FileLaws.WrittenIsReadBack | kernel/SceVfsMountPoC/src/main.c:276-399 | write, seek back by as much, read as much: the data, and the offset where the write left it |
| FileLaws.PutIsReadBack | kernel/SceVfsMountPoC/src/main.c:730-816 | what is written at a position is read at it through any handle |
| FileLaws.ReadsJoin | kernel/SceVfsMountPoC/src/main.c:276-321 | reads one after the other return the content piece by piece |
| FileLaws.WriteReply | kernel/SceVfsMountPoC/src/main.c:348-374 | a write returns its length; without memory it is refused exactly when it crosses a block boundary at or past the end |
| FileLaws.SeekTells | kernel/SceVfsMountPoC/src/main.c:377-399 | seeking by nothing from the end tells the length, from the offset tells the offset and moves nothing |
| FileLaws.SeeksAdd | kernel/SceVfsMountPoC/src/main.c:377-399 | two relative seeks inside the file are the seek by their sum |
| FileLaws.SeekRefused | kernel/SceVfsMountPoC/src/main.c:377-399 | a seek out of the file or with another origin is refused and moves nothing |
| FileLaws.OffsetsAreOwn | kernel/SceVfsMountPoC/src/main.c:276-399 | whatever is done through other handles, an offset is moved only by calls on its own |
| FileIo.NegativeOffsetStrays | kernel/SceVfsMountPoC/src/main.c:741-789 | a file of one byte read and written at -1: both copies leave the buffer |
| FileRuns.Perform | kernel/SceVfsMountPoC/src/main.c:276-399 | any call on the vnode, the file objects, the handle records and the buffer of an open file takes it the step of the file as a value, with the same reply; all offsets stay in the file and the vnode shows its size |
| FileRuns.RunCalls | kernel/SceVfsMountPoC/src/main.c:276-399 | so does every run of calls on any number of handles of the file |
| World.StepOk | kernel/SceVfsMountPoC/src/main.c:276-584 | every request, whatever it is, keeps the tree well formed, offsets inside files, cursors inside the lists of their directories, and each descriptor the handle of one entry |
| WorldRuns.RunShown | kernel/SceVfsMountPoC/src/main.c:405-522 | over every run of requests, on handles and on paths, the paths show what the flat volume shows after the effects of the run |
| WorldRuns.FileFollows | kernel/SceVfsMountPoC/src/main.c:276-399 | over every run of requests a file goes through exactly the calls made on it, on whatever handle, under whatever path, and also after it has been removed |
| WorldRuns.FileIsMade | kernel/SceVfsMountPoC/src/main.c:276-375 | so its content is made by exactly the puts that took effect on it in the run |
| WorldLaws.RunReads | kernel/SceVfsMountPoC/src/main.c:276-321 | after every run of requests the answer to a read holds the bytes put last at their positions by the calls of the run on that file, whatever has happened to its path |
| WorldLaws.CallIsMade | kernel/SceVfsMountPoC/src/main.c:276-399 | a call that suits an open file is made on it, and its reply is the answer |
| WorldLaws.WriteServed | kernel/SceVfsMountPoC/src/main.c:323-375 | a write with memory that keeps the file at or below 0xFFFFFE00 is answered its length, and lays its data over the file |
| WorldLaws.ReadServed | kernel/SceVfsMountPoC/src/main.c:276-321 | a read is answered the bytes there are from the offset on |
| WorldLaws.ShownIsRead | kernel/SceVfsMountPoC/src/main.c:276-321 | a file opened by path and read to its end gives what its path shows |
| WorldLaws.CreateServed | kernel/SceVfsMountPoC/src/main.c:125-177 | a free name in a directory can be used for a file or a directory and paths show it, also when no vnode can be had; the answer is 0 or the vnode's error |
| WorldLaws.CreateRefused | kernel/SceVfsMountPoC/src/main.c:141-144 | without memory nothing is created, and the answer is -1 |
| WorldLaws.RemoveServed | kernel/SceVfsMountPoC/src/main.c:405-436 | a file no directory handle is about to return can be removed: paths show it no longer, and it is freed with answer 0 exactly when it has no handle, and the answer is -1 with fewer than 2^32 |
| WorldLaws.RmdirServed | kernel/SceVfsMountPoC/src/main.c:489-522 | an empty directory likewise |
| WorldLaws.RenameServed | kernel/SceVfsMountPoC/src/main.c:656-728 | a rename to a free name not below the entry is answered 0; the entry and all below it are at the new path with their bytes |
| WorldLaws.RenameRefused | kernel/SceVfsMountPoC/src/main.c:683-695 | without a vnode nothing is renamed, and the answer is the vnode's error |
| WorldLaws.ResizeServed | kernel/SceVfsMountPoC/src/main.c:619-642 | a size change to whole blocks keeps the bytes, to nothing drops them |
| WorldLaws.OpenDirServed | kernel/SceVfsMountPoC/src/main.c:524-541 | a directory can be opened and stands at its first child |
| WorldLaws.ReadDirServed | kernel/SceVfsMountPoC/src/main.c:563-584 | reading gives the name of the entry at hand up to 255 characters, its size and kind, and 0 at the end |
| HandleRuns.OpenHandles | kernel/SceVfsMountPoC/src/fs_tool.c:287-326 | after every run the descriptors in use are those opened and not closed since, each a handle of one entry that has not been freed |
| HandleRuns.FreedIsIdle | kernel/SceVfsMountPoC/src/fs_tool.c:264-285 | an entry is freed only by leaving the tree and only without a handle on it |
| DirCursor.ChangeKeepsCursor | kernel/SceVfsMountPoC/src/main.c:563-584 | any change of the tree that spares the cursor leaves it at the head of what is left to read |
| DirCursor.ReadIsReadList | kernel/SceVfsMountPoC/src/main.c:524-584 | reading along live links is reading the list as it was at opening, less what has been taken out |
| DirCursor.EnumerationIsComplete | kernel/SceVfsMountPoC/src/main.c:524-584 | reading to the end returns the children present at opening, each once, in order, whatever is created meanwhile |
| DirRuns.ReturnedIsRead | kernel/SceVfsMountPoC/src/main.c:563-584 | over every run of requests the reads of a directory handle return what following the links of the changing tree from its cursor returns |
| DirRuns.Enumerates | kernel/SceVfsMountPoC/src/main.c:524-584 | a handle just opened and read to the end is answered the names of the children there were at opening, each once, in order, whatever else is opened, written, read, closed, created or made meanwhile |
| LostCursors.LostCursorIff | kernel/SceVfsMountPoC/src/main.c:405-436 | after a removal or rename every cursor is still in the list of its directory exactly when none was at that entry or the entry stays in its directory |
| LostCursors.CursorLost | kernel/SceVfsMountPoC/src/main.c:489-522 | a removal that leaves a handle pointing at a freed entry |
| DirIo.VopDopen | kernel/SceVfsMountPoC/src/main.c:524-541 | the cursor starts at the first child |
| DirIo.VopDread | kernel/SceVfsMountPoC/src/main.c:563-584 | returns the entry at the cursor, its name cut at 255, and moves to the next; 0 at the end, for good |
| DirIo.VopDclose | kernel/SceVfsMountPoC/src/main.c:543-561 | removes the newest record of the file object |
| DirTables.DirPerform | kernel/SceVfsMountPoC/src/main.c:524-584 | opening, reading and closing through the records of a directory moves the cursors of its descriptors and answers as the value does |
| Desks.IoAt | kernel/SceVfsMountPoC/src/main.c:276-399 | a call through one handle, with any others open on any entries, changes the file of its entry and nothing else |
| Desks.CursorAt | kernel/SceVfsMountPoC/src/main.c:524-584 | a directory call changes the cursors of its directory and nothing else |
| DeskChanges.ServeNew | kernel/SceVfsMountPoC/src/main.c:125-177 | create and mkdir by path with anything open are the step of the file system as a value, and return the code it answers |
| DeskChanges.ServeGone | kernel/SceVfsMountPoC/src/main.c:405-436 | remove and rmdir likewise: an entry with handles stays without a path, one without is freed |
| DeskChanges.ServeRename | kernel/SceVfsMountPoC/src/main.c:656-728 | rename likewise: every entry keeps its bytes, offsets and cursors |
| DeskCalls.ServeResize | kernel/SceVfsMountPoC/src/main.c:601-642 | a size change by path, with handles open on the file |
| DeskRuns.Passes | kernel/SceVfsMountPoC/src/main.c:276-584 | whether a request is passed on can be decided from the entries and the objects |
| DeskRuns.Serve | kernel/SceVfsMountPoC/src/main.c:405-436 | any request takes the heap the step of the value or is refused without a change, and no entry with a handle record is freed |
| DeskRuns.Run | kernel/SceVfsMountPoC/src/main.c:276-584 | over every run of requests, whatever they are and whatever the kernel answers, the heap goes through the run of the file system as a value and gives its answers, the codes of tree changes included |
| DeskRuns.Session | kernel/SceVfsMountPoC/src/main.c:59-93 | the same from setting the root on, and the paths show what the flat volume shows after the effects of the run |
| DeskRuns.FileOnHeap | kernel/SceVfsMountPoC/src/main.c:276-399 | after every run the buffer of a file holds the bytes, and its file objects the offsets, that the calls made on it leave; entry and vnode sizes agree and every descriptor has its handle record |
| DeskRuns.HandlesOnHeap | kernel/SceVfsMountPoC/src/fs_tool.c:287-326 | after every run an entry has one handle record for each of its open descriptors and counts them in 32 bits, and the open descriptors are those opened and not closed since |
| ArmMemcpy.MyMemcpy | kernel/SceVfsMountPoC_old/src/cpu.S:21-87 | for every alignment and length exactly the bytes at the destination change, to those that were at the source, overlap with the destination below the source included; returns the destination |
| ArmMemcpy.AlignHead | kernel/SceVfsMountPoC_old/src/cpu.S:28-42 | byte and word steps end at a multiple of 32 after fewer than 32 bytes |
| ArmMemcpy.AlignedBlocks | kernel/SceVfsMountPoC_old/src/cpu.S:48-55 | multiple loads only at word-aligned addresses; stops with fewer than 32 bytes left and the counter 32 too low |
| ArmMemcpy.VectorBlocks | kernel/SceVfsMountPoC_old/src/cpu.S:81-86 | the same with any source |
| ArmMemcpy.Tail | kernel/SceVfsMountPoC_old/src/cpu.S:57-76 | words, then half-word and byte by the low bits of the biased counter, finish the copy |
| ArmMemcpy.StepDown | kernel/SceVfsMountPoC_old/src/cpu.S:52-55 | the biased counter borrows exactly when fewer bytes than a step are left |
| ArmMemcpy.LowBits | kernel/SceVfsMountPoC_old/src/cpu.S:68-74 | carry and sign of one shift are the two low bits of what is left |
| ArmMemcpy.CopiedMore | kernel/SceVfsMountPoC_old/src/cpu.S:32-55 | a step copies more even when the ranges overlap, because the source ahead is still unwritten |
| CacheLines.RangeLinesMeet | kernel/SceVfsMountPoC_old/src/cpu.S:95-147 | the lines of a range are those some byte of it lies on, each once |
| CacheLines.RoundsIff | kernel/SceVfsMountPoC_old/src/cpu.S:97-107 | the line loop acts on exactly those lines, in order, if and only if the range is not empty |
| CacheLines.Cpu.ByLines | kernel/SceVfsMountPoC_old/src/cpu.S:97-107 | what the loop issues for any range, the empty one included |
| CacheLines.Cpu.WriteL2 | kernel/SceVfsMountPoC_old/src/cpu.S:391-409 | the byte-counting loop writes exactly the lines of the range |
| CacheLines.Cpu.ByPages | kernel/SceVfsMountPoC_old/src/cpu.S:505-530 | splitting at pages writes every line of the range once at its physical place, or stops behind the last line before the first page that is not mapped, exactly when one is not |
| CacheLines.OnePage | kernel/SceVfsMountPoC_old/src/cpu.S:517-527 | inside one page the physical lines are those of the physical range |
| CacheLines.Continues | kernel/SceVfsMountPoC_old/src/cpu.S:512-529 | parts that meet on page boundaries give the lines of the whole, none twice |
| CacheStates.CleansDropNone | kernel/SceVfsMountPoC_old/src/cpu.S:88-107 | whatever is issued, operations that only clean drop no line from either cache and make no data line dirty |
| CacheStates.ReplayLosesNothing | kernel/SceVfsMountPoC_old/src/cpu.S:88-147 | no operation drops newer data: what is dirty stays held |
| MemcpyRx.WritebackRange | kernel/SceVfsMountPoC_old/src/cpu.S:301-376 | for any flags: which parts of the address space bit 0 leaves alone; otherwise data lines cleaned, and second-level lines too unless bit 5 is set; no operation issued invalidates |
| MemcpyRx.WritebackDropsNone | kernel/SceVfsMountPoC_old/src/cpu.S:298-376 | whatever the caches held, both still hold it afterwards and the data lines of the range are clean; the second-level lines too unless bit 5 is set |
| MemcpyRx.IcacheAndL2WritebackInvalidateRange | kernel/SceVfsMountPoC_old/src/cpu.S:494-541 | second-level lines first, then instruction lines |
| MemcpyRx.RoundedSame | kernel/SceVfsMountPoC_old/src/sce_cpu.c:38-43 | rounding a range to whole lines changes neither its lines nor its pages |
| MemcpyRx.EmptyRounds | kernel/SceVfsMountPoC_old/src/cpu.S:97-107 | on an empty range at the start of a line the loop makes 2^32 rounds, or 2^27 from address 0 |
| MemcpyRx.CacheFlush | kernel/SceVfsMountPoC_old/src/sce_cpu.c:36-49 | the three maintenance steps of a range in order, the data lines invalidated, and what a size of zero issues |
| MemcpyRx.FlushDrops | kernel/SceVfsMountPoC_old/src/sce_cpu.c:36-49 | whatever the caches held, after the flush neither holds a line of the range, none is stale, and no other line was dropped or written out |
| MemcpyRx.FlushHoldsNone | kernel/SceVfsMountPoC_old/src/sce_cpu.c:36-49 | the same for each line that some byte of the range lies on |
| MemcpyRx.UnrestrictedMemcpy | kernel/SceVfsMountPoC_old/src/sce_cpu.c:51-71 | copies, cleans the data lines, the line it starts inside for an empty range, and puts the access control back |
| MemcpyRx.Copy | kernel/SceVfsMountPoC_old/src/sce_cpu.c:73-78 | the bytes copied and everything issued for any length; exactly what the lines of the range call for if and only if there is a byte to copy |
| MemcpyRx.CopyIsCoherent | kernel/SceVfsMountPoC_old/src/sce_cpu.c:73-78 | whatever the caches held, afterwards no line of the range is held or dirty in either level or stale for instruction fetch, and nothing else was affected |
| PageTables.MmuRead8 | tzs/SceTTBRParser/src/main.c:22-63 | the reader finds a byte exactly where the dump of `ttbr0`, for an address below 0x40000000, or of `ttbr1`, for any other, lists a record that covers it, and then the byte the record sends it to; no value where the program reports an error and stops |
| PageTables.MmuRead16 | tzs/SceTTBRParser/src/main.c:65-73 | two bytes, the first lowest, each translated by itself |
| PageTables.MmuRead32 | tzs/SceTTBRParser/src/main.c:75-83 | four bytes likewise, across any page boundary |
| PageTables.FourIsTwoTwos | tzs/SceTTBRParser/src/main.c:75-83 | a word is its two halves |
| PageTables.ParsePageTable | tzs/SceTTBRParser/src/main.c:102-121 | the lines a second-level table is listed as |
| PageTables.ParseTtbr | tzs/SceTTBRParser/src/main.c:123-149 | the lines a first-level table is listed as |
| PageTables.WalkerAgreesWithDump | tzs/SceTTBRParser/src/main.c:22-149 | for every address, the reader reaches memory exactly when the dump lists a record that covers the address, and reads where the record sends it |
| PageTables.OneRecordEach | tzs/SceTTBRParser/src/main.c:102-149 | no address is covered by two records |
| PageTables.PrintedBaseIff | tzs/SceTTBRParser/src/main.c:113-117 | the printed base is the base of the record's 4 KiB exactly for all but the later records of a large page |
| PageTables.LargePageIsContiguous | tzs/SceTTBRParser/src/main.c:44-46 | with equal entries a large page maps 64 KiB to one contiguous block |
| PageTables.SectionIsRead | tzs/SceTTBRParser/src/main.c:22-63 | a section put into the first-level table is read: address `a` gives the byte at its base plus `a` within 1 MiB |
| PageTables.SmallPageIsRead | tzs/SceTTBRParser/src/main.c:35-57 | so is a small page put into a second-level table, little-endian in memory |
| PageTables.LargePageIsRead | tzs/SceTTBRParser/src/main.c:35-57 | and a large page |
| PageTables.DumpAscends | tzs/SceTTBRParser/src/main.c:102-149 | a dump lists its records in ascending order of their addresses |
| PageTables.EntriesShown | tzs/SceTTBRParser/src/main.c:102-149 | and with each the first-level entry its address belongs to |
| PageTables.OthersListed | tzs/SceTTBRParser/src/main.c:123-149 | faults and super sections are listed exactly when some entry has low bits 00 but is not 0x1E0, or low bits 11 |
| Cmac.DoubleIsTimesX | kernel/act_verifier/src/aes256cmac.c:46-58 | shifting with carry and folding back is multiplication by x modulo x^128 + x^7 + x^2 + x + 1 |
| Cmac.SubkeysAreProducts | kernel/act_verifier/src/aes256cmac.c:40-59 | the subkeys are x and x squared times the encryption of zero |
| Cmac.ChainedFrom | kernel/act_verifier/src/aes256cmac.c:88-93 | the loop over whole blocks is the recursive chaining definition |
| Cmac.WholeBlocksConform | kernel/act_verifier/src/aes256cmac.c:61-99 | for whole blocks the result is that of section 2.4 of RFC 4493 |
| Cmac.LastBlocks | kernel/act_verifier/src/aes256cmac.c:71-86 | for one block the definition combines a full one with x times the encryption of zero, and a short one, closed by a one bit, with x squared times it |
| Cmac.OneBlock | kernel/act_verifier/src/aes256cmac.c:61-99 | what the routine computes for one block |
| Cmac.TwoBlocks | kernel/act_verifier/src/aes256cmac.c:61-99 | and for two: the first is encrypted, then combined with the last and its subkey |
| Cmac.TailIgnored | kernel/act_verifier/src/aes256cmac.c:79-84 | a short last block does not enter the result: whatever it is and however long, the routine computes the same |
| Cmac.ConformsIff | kernel/act_verifier/src/aes256cmac.c:61-99 | and for no other length, in the sense of every cipher and message |
| CmacIo.ShiftLOne | kernel/act_verifier/src/aes256cmac.c:14-23 | the carry loop shifts the block, in place or not |
| CmacIo.WordXor | kernel/act_verifier/src/aes256cmac.c:25-30 | combining words is combining their bytes |
| CmacIo.XorBlocks | kernel/act_verifier/src/aes256cmac.c:25-30 | word-by-word combination is byte-by-byte combination, also when the output is an operand |
| CmacIo.Padding | kernel/act_verifier/src/aes256cmac.c:32-38 | the tail, one bit and zeros |
| CmacIo.GenSubKey | kernel/act_verifier/src/aes256cmac.c:40-59 | both subkeys |
| CmacIo.Aes256cmac | kernel/act_verifier/src/aes256cmac.c:61-99 | the routine's result for every length, and that it is the MAC of RFC 4493 for whole blocks |
| SwapData.SwappedIsReversal | kernel/act_verifier/src/main.c:98-113 | exchanging words and turning each round reverses the buffer byte by byte |
| SwapData.SwappedWords | kernel/act_verifier/src/main.c:98-113 | each word comes from its mirror position, its last byte first |
| SwapData.SwappedTwice | kernel/act_verifier/src/main.c:98-113 | doing it twice gives the buffer back |
| SwapData.SwapData32 | kernel/act_verifier/src/main.c:98-113 | in place or into another buffer, an odd number of words included, and nothing beyond is written |
| ItemList.ItemList.InitPatch | kernel/SceVfsMountPoC_old/src/item_mgr.c:20-33 | a created object is put in front |
| ItemList.ItemList.FreePatch | kernel/SceVfsMountPoC_old/src/item_mgr.c:35-48 | a deleted object, and no other, goes out of both chains |
| ItemList.ItemList.GetFileEntryByNode | kernel/SceVfsMountPoC_old/src/item_mgr.c:50-63 | the newest live object with the node, and none exactly when there is none |
| ItemList.ItemList.CreateFileItem | kernel/SceVfsMountPoC_old/src/item_mgr.c:65-82 | creation with its node, or the kernel's error and nothing |
| ItemList.LiveIff | kernel/SceVfsMountPoC_old/src/item_mgr.c:20-48 | an object is in the list exactly when the last event about it is its creation, for every history that creates only dead and deletes only live objects |
| ItemList.LiveIsNewestFirst | kernel/SceVfsMountPoC_old/src/item_mgr.c:20-48 | after every history the list is in order of creation, newest first, each object once |
| BufferedLog.Logger.LogOpen | kernel/SceExfatfsAnalysis/src/log.c:26-36 | the step of the log without a buffer; the result does not tell a failed open |
| BufferedLog.Logger.LogWrite | kernel/SceExfatfsAnalysis/src/log.c:38-62 | for any message: file and buffer together grow by what formatting keeps of it; it waits behind what waits as long as that is less than 0x400 bytes in all, otherwise what waits is sent first; the copy out of the scratch buffer stays inside exactly up to 0x200 bytes |
| BufferedLog.Logger.LogClose | kernel/SceExfatfsAnalysis/src/log.c:64-76 | everything is in the file |
| BufferedLog.Logger.Perform | kernel/SceExfatfsAnalysis/src/log.c:26-76 | any run of calls is the run of the log without a buffer and goes through exactly when no message above 0x200 bytes meets an open log; whenever the log is not open the files are equal |
| BufferedLog.SessionAppends | kernel/SceExfatfsAnalysis/src/log.c:26-76 | open, messages, close: the file has grown by what is kept of the messages, in their order, and no other file has changed |
| BufferedLog.KeptIff | kernel/SceExfatfsAnalysis/src/log.c:45-48 | the first 0x1FE bytes of a message are kept and NUL bytes follow, so it is kept as it is exactly when it holds nothing but NUL bytes from there on |
| BufferedLog.VerbatimIff | kernel/SceExfatfsAnalysis/src/log.c:38-62 | the file grows by the messages as they are exactly when none is longer than 0x1FE bytes |
| BufferedLog.StuckForGood | kernel/SceExfatfsAnalysis/src/log.c:26-62 | after a failed open nothing is ever opened or written again |
| BufferedLog.OpenStays | kernel/SceExfatfsAnalysis/src/log.c:26-36 | while it is open the log stays on its file whatever is called but close, and no other file changes |

## Left out

- vnode lifetime: looking a vnode up, making one inactive, and entries that outlive the vnode pointing at them. A vnode is assumed to show its entry's size, one vnode to an entry, made when the entry is first opened.
- Heap conservation: creating an entry copies the name twice and keeps one copy, so the heap is not conserved and no such claim is made. Freed memory is not modelled beyond the cleared fields.
- Dates, modes other than regular file and directory, attributes, stat copies and debug output.
- The kernel's own work: heap, vnodes, event flags, files, descriptors and AES are parameters.
- VolumeOps.VopCreate: with a second name copy that fails the step is stated on links and names only (the entry is linked with a null name), not as a step of the flat volume.
- VolumeOps.VopRename: for a target inside the moved subtree the links and that they are no tree are stated, not a step of the flat volume, which has none.
- DeskRuns.Run: requests are refused, not carried on, from where the code falls short: a kept name copy that fails, a rename to a taken name or into what is moved, a cursor at the entry, and calls that would leave a buffer, room for less than whole blocks or an offset behind the end. What the single call does then is stated by the members listed above.
- DirRuns.Enumerates: the exact names are stated for runs that remove and rename nothing; DirRuns.ReturnedIsRead with DirCursor.ReadIsReadList gives what is read in every other run.
- HandleRuns.OpenHandles: a file object has at most one handle; the list operations themselves are stated for any keys.
- CacheLines.Cpu.GetPaddr: address translation is a map of pages that keeps the position in the page; a page without translation stops the program, here it returns false.
- MemcpyRx.WritebackRange: what translating the address reports is a parameter; barriers and the register save area are not recorded.
- MemcpyRx.Copy: the range ends 32 bytes short of a full turn of the address space, so the rounded size does not wrap.
- ArmMemcpy.MyMemcpy: prefetches are dropped; a destination above an overlapping source is outside its promise.
- PageTables.WalkerAgreesWithDump: supersections are read as sections by the reader and the dumper alike; the string copy built on the reader is not modelled.
- SwapData.SwapData32: buffers that overlap without being the same are not covered.
- CmacIo.XorBlocks: an output that overlaps an operand other than exactly is not covered.
- BufferedLog.Logger.LogWrite: formatting reports no error and device writes are complete.
- The prefix-matching file manager of SceVfsMountPoC_old and the message handlers of SceVfsMountPoC's dmass_process.c: superseded or commented out.
- Dumpers, hooks, allocator timings and the samples around other libraries: they hold no algorithm of their own.
