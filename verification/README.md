# Verified model of the browser WASI host

This project models the stateful and codec-like parts of the browser host under `apps/web` and
proves what they keep. `dafny verify dfyconfig.toml` checks all of it.

* **Kernel state** (`apps/web/src/wasi-module.js`). `Descriptors` has the descriptor tables of a
  root runtime and its copied-fork children and the pipes they share; `Namespace` the writable
  `/workspace` with its records, open descriptors and dirty flag; `Processes` the fork, vfork, exec
  and join protocol. Each is a step function over values, with theorems over every run in
  `DescriptorRuns`, `NamespaceRuns`, `NamespaceExport`, `FileContents` and `ProcessRuns`, and with what each
  call answers and leaves behind, told without those functions, in `DescriptorCalls`, `NamespaceCalls` and
  `ProcessReplies`; the classes `Kernel`, `Workspace` and `ProcessTable` update fields in place as the runtime
  does, and every method is proved to do exactly what the step function says, so the theorems hold of them.
  `Names` resolves guest paths, `Readdir`, `Listing` and `Directories` list directories, `WasmImports` scans a
  module's import section, and `WasmModules` has the format of its own (sections 5.2.2, 5.3 and 5.5.5 of the
  WebAssembly Core Specification).
* **Workspace store** (`apps/web/src/workspace.js`). `StorePaths`, `Store`, `StoreRuns`, `StoreCalls`,
  `StoreSnapshots` and the class `MemoryStore`; `WorkspaceMount` and
  `WorkspaceRemount` make a run's workspace from a snapshot, and `WorkspaceImport` joins the kernel's export to the store's import. A call
  reads the clock once for each record it makes; its readings are told apart by the paths of the
  records, so that they may all differ.
* **WebC and CBOR** (`apps/web/src/webc-metadata.js`, `apps/web/fixtures/webc-metadata-fixture.js`,
  `apps/web/src/webc-wasix.js`). `Cbor` and `CborReader` (section 3 of RFC 8949), `WebcVolume` (the
  back-patching writer), `WebcHeader` and `WebcParser` (the header walk), `WebcRoundTrip`,
  `WebcPaths`, `WebcPackage` and `WebcPackageRoundTrip`; `CborLayout` and `WebcLayout` give the bytes in
  numerals.
* **Streams**. `Gateway` (`apps/web/src/http.js`) and `CommandInput`
  (`apps/web/src/command-worker.js`).

Heap objects that are shared (pipes, file records) are indices into a sequence. Some predicates have
the form `forall u :: AskX(u) ==> P`: they mean `P`, and keep the solver from unfolding it until a
proof says `assert AskX(0)`.

Where a law turned out not to hold of the code as it is, the code is modelled as it is, a lemma
gives the input, and the law is proved to hold if and only if a condition on the input holds:

* CBOR: integers outside [-2^32, 2^32) lose their high bits, a leading byte-order mark and a
  `__proto__` entry are dropped, `undefined` and fractional numbers come back as something else
  (`Cbor.RoundTrip`, with `Cbor.LossyInteger`, `LossyText` and `LossyProto`).
* WebC: a file under a name that starts with a byte-order mark is found under another path, and a
  top-level atom or a volume called `__proto__` is lost (`WebcPaths.FilesExactly`, with
  `MarkedNameLost`; `WebcPackageRoundTrip.PackageRoundTrip`).
* Descriptors: after a `dup2` to -1 the next opened file is reported to the guest as descriptor 0
  (`DescriptorRuns.OpenReaches`, with `WrapsToStdin`).
* Workspace: renaming a file onto a packaged file that has no parent directory puts an exported file
  where none may be (`NamespaceRuns.RunTree`, with `WorkspaceImport.MisplacedFileRefused`). `rmdir`
  protects only the directory the call is relative to, so the root can be removed from any other
  directory and a file put in its place; the store then refuses the whole run
  (`WorkspaceImport.RunImports`, with `RootFileLosesRun`). Mounting loads a snapshot into
  a fresh store and normalizes the paths of that store's export once more, so a directory that it
  loaded with white space at its end leaves its children without a parent (`WorkspaceMount.MountTree`,
  with `WorkspaceImport.SpacedDirectoryUproots`).
* Names: the text decoder drops a byte-order mark, so a memory import is found under another name
  (`WasmModules.ScanExactly`, with `MarkedImportRenamed`), and a listed name that starts with one does
  not lead back to its child (`Directories.ListedOpens`).
* Store: renaming a file while the clock is wrong throws after the file is gone, and recursive
  creation whose clock goes wrong midway throws after a directory was made
  (`StoreRuns.ThrowsAtomically`, with `RenameLosesFile` and `CreationLeavesDirectory`); a path that
  ends in white space can be created, is exported, and does not come back
  (`StoreSnapshots.SnapshotRoundTrip`, with `SlashHidesSpace`).
* Gateway: the frame limit is compared before lines are taken off, so whether it fires depends on the
  chunks (`Gateway.LimitFires`, with `LimitDependsOnChunks`).

## Model

| member | source | states |
|---|---|---|
| `Cbor.RoundTrip` | apps/web/fixtures/webc-metadata-fixture.js:277-332 | Written before any suffix, every value is read back with the reader stopping exactly at the suffix, if and only if it is built from null, booleans, integers in [-2^32, 2^32), bytes, texts without a byte-order mark, arrays and objects without a `__proto__` key, nested at most 128 deep |
| `Cbor.LossyInteger` | apps/web/fixtures/webc-metadata-fixture.js:314-332 | 2^32 is read back as 0 |
| `Cbor.LossyText` | apps/web/src/webc-metadata.js:443-444 | A text that is a byte-order mark is read back empty |
| `Cbor.LossyProto` | apps/web/src/webc-metadata.js:469-476 | An object whose only entry is `__proto__` is read back empty |
| `CborLayout.EncodeIs` | apps/web/fixtures/webc-metadata-fixture.js:277-332 | What the encoder writes, byte for byte: the heads of all major types with their arguments in 0, 1, 2 or 4 bytes, and the simple values |
| `CborLayout.EightByteArgument` | apps/web/src/webc-metadata.js:501-548 | An argument of eight bytes is read most significant byte first, refused past 2^53 - 1 or when cut off; the additional information 28 to 31 is refused |
| `CborLayout.SimpleValues` | apps/web/src/webc-metadata.js:478-499 | What every additional information of major type 7 is read as, or refused |
| `CborLayout.HeadsRead` | apps/web/src/webc-metadata.js:429-459 | The split of a first byte, and a tag with the value it is for |
| `CborReader.Reader.ReadByte` | apps/web/src/webc-metadata.js:519-522 | Takes one byte and moves the offset, or throws at the end |
| `CborReader.Reader.ReadBytes` | apps/web/src/webc-metadata.js:524-529 | Takes exactly that many bytes, or throws and leaves the offset alone |
| `CborReader.Reader.ReadUnsigned` | apps/web/src/webc-metadata.js:531-548 | The big-endian value of the next bytes; past 2^53 - 1 it is refused |
| `CborReader.Reader.ReadArgument` | apps/web/src/webc-metadata.js:501-517 | The argument of a head, in place, agreeing with the reader function of the round trip |
| `CborReader.Reader.ReadSimple` | apps/web/src/webc-metadata.js:478-499 | The simple values and numbers of major type 7, likewise |
| `CborReader.Reader.ReadValue` | apps/web/src/webc-metadata.js:429-459 | The recursive reader that advances one offset returns and stops as the function of `Cbor.RoundTrip` does, on every byte string, errors included |
| `CborReader.Reader.ReadArray` | apps/web/src/webc-metadata.js:461-467 | The loop over the items reads what the recursive form reads |
| `CborReader.Reader.ReadMap` | apps/web/src/webc-metadata.js:469-476 | The loop over the entries builds the object the recursive form builds, later keys replacing earlier ones |
| `WebcVolume.Writer.PatchU64` | apps/web/fixtures/webc-metadata-fixture.js:348-353 | Replaces exactly the eight bytes at the offset |
| `WebcVolume.Writer.SerializeFile` | apps/web/fixtures/webc-metadata-fixture.js:227-241 | Appends the content to the data, and a file entry with its range to the header |
| `WebcVolume.Writer.WriteEntries` | apps/web/fixtures/webc-metadata-fixture.js:198-212 | One blank entry per child, and the offset of each blank |
| `WebcVolume.Writer.WriteFront` | apps/web/fixtures/webc-metadata-fixture.js:189-213 | The directory with its length patched in and its entries still blank |
| `WebcVolume.Writer.WriteChildren` | apps/web/fixtures/webc-metadata-fixture.js:214-216 | Once every child is written and its offset patched into its blank, the header is the one in which each entry points at its child |
| `WebcVolume.Writer.SerializeDirectory` | apps/web/fixtures/webc-metadata-fixture.js:189-218 | What the buffers grow by, after all patching, is the recursive layout of the directory in which every entry holds the absolute offset of its child |
| `WebcVolume.Writer.SerializeEntry` | apps/web/fixtures/webc-metadata-fixture.js:220-225 | The same for any tree |
| `WebcParser.Uint64Le` | apps/web/src/webc-metadata.js:573-588 | The little-endian value of eight bytes, refused past 2^53 - 1 or past the end |
| `WebcParser.Parser.ParseHeaderEntry` | apps/web/src/webc-metadata.js:299-359 | The walk that fills `files` and `seenOffsets` in place ends, on every header, with the files, the offsets or the error the recursive walk gives; it terminates because each entry uses up an unseen offset |
| `WebcParser.Parser.ParseDirectory` | apps/web/src/webc-metadata.js:311-333 | The same for the loop over a directory's entries |
| `WebcHeader.VolumeVisits` | apps/web/src/webc-metadata.js:299-310 | On every header, cyclic ones included, the walk visits at most one offset more than the header has bytes |
| `WebcHeader.VolumeSpans` | apps/web/src/webc-metadata.js:334-359 | On every header, each parsed file's span holds the bytes attached to it |
| `WebcHeader.FileExactly` | apps/web/src/webc-metadata.js:334-359 | On any header, a file entry is read if and only if all of it is there, with the times of version 3, and its range lies in the data |
| `WebcRoundTrip.VolumeRoundTrip` | apps/web/src/webc-metadata.js:288-359 | For every tree and both versions, parsing what the writer left succeeds, reports no loop, and gives the tree's files |
| `WebcPaths.FilesExactly` | apps/web/src/webc-metadata.js:288-298 | For every tree with distinct, non-empty, slash-free names the parse succeeds, and its map is exactly the tree's map from paths to bytes if and only if no file is at a path with a name that starts with a byte-order mark and, under an empty prefix, no top-level file is called `__proto__` |
| `WebcPaths.PathText` | apps/web/src/webc-metadata.js:318-330 | The path of a file is its names with slashes between them, and under the root with one in front |
| `WebcPaths.MarkedNameLost` | apps/web/src/webc-metadata.js:318-330 | In either version, what is parsed from the volume written for one file, called a byte-order mark and `a`, is not that tree |
| `WebcPackage.ReadWebcSections` | apps/web/src/webc-metadata.js:62-106 | The section loop collects what the recursive reading collects, on every byte string |
| `WebcPackage.PackageSpans` | apps/web/src/webc-wasix.js:277-295 | For every byte string the section reader accepts, each atom's and each volume file's span, cut from the whole package, succeeds and equals the bytes the parser attached |
| `WebcPackageRoundTrip.PackageRoundTrip` | apps/web/fixtures/webc-metadata-fixture.js:106-174 | A package built from a manifest, atoms and volumes with distinct names is read back, in both versions: with that manifest if and only if it survives `Cbor.RoundTrip`, with exactly its atoms if and only if no atom's path has a name that starts with a byte-order mark and no top-level one is called `__proto__`, with exactly its volumes if and only if no volume is called `__proto__` and no mark starts a volume's name or a name on a file's path |
| `WebcLayout.PackageIsLaid` | apps/web/fixtures/webc-metadata-fixture.js:106-241 | Every package of that round trip byte for byte, in both versions: magic, version, tags, checksums and times by their sizes, little-endian lengths and offsets |
| `Descriptors.AllocateDynamicFileFd` | apps/web/src/wasi-module.js:2663-2672 | The lowest free number from the minimum on, the minimum taken modulo 2^32, and where the counter goes |
| `Kernel.Kernel.constructor` | apps/web/src/wasi-module.js:1080-1087 | No descriptor and no pipe; numbers start at the first dynamic one |
| `Kernel.Kernel.RetainOpenFile` | apps/web/src/wasi-module.js:2674-2683 | One more of exactly that end of that pipe |
| `Kernel.Kernel.CloseOpenFile` | apps/web/src/wasi-module.js:2685-2694 | One fewer, never below zero |
| `Kernel.Kernel.InheritOpenFiles` | apps/web/src/wasi-module.js:1631-1646 | The child's table is its parent's, and every pipe counts every inherited end |
| `Kernel.Kernel.CloseAllOpenFiles` | apps/web/src/wasi-module.js:1648-1654 | The table is gone and every pipe has forgotten its ends |
| `Kernel.Kernel.FdClose` | apps/web/src/wasi-module.js:2441-2451 | Closes an open number, refuses any other, as the step of the run theorems |
| `Kernel.Kernel.FdRenumber` | apps/web/src/wasi-module.js:2453-2491 | Moves a descriptor, closing what was at the target; the refusals |
| `Kernel.Kernel.DuplicateFd` | apps/web/src/wasi-module.js:2503-2522 | A duplicate at the lowest free number, retained |
| `Kernel.Kernel.DuplicateFdTo` | apps/web/src/wasi-module.js:2524-2571 | A duplicate at the given number modulo 2^32, what was there closed first; the refusals |
| `Kernel.Kernel.OpenAtLowest` | apps/web/src/wasi-module.js:2641-2657 | Puts one end of a pipe at the lowest free number |
| `Kernel.Kernel.FdPipe` | apps/web/src/wasi-module.js:2631-2661 | The two ends of a new pipe at the lowest free number and the lowest after it, as the step of the run theorems |
| `Kernel.Kernel.InstallOpened` | apps/web/src/wasi-module.js:3687-3698 | An open takes the counter's number, whatever is free below it, and moves the counter on |
| `Kernel.Kernel.FdFdstatSetRights` | apps/web/src/wasi-module.js:2415-2439 | The right to transfer can be given up and never taken back |
| `Kernel.Gather` | apps/web/src/wasi-module.js:2089-2096 | The new buffer is the old bytes and then the chunks in order |
| `Kernel.ReadIntoIovs` | apps/web/src/wasi-module.js:2258-2277 | Scatters exactly the longest part of the input that the buffers hold, each filled before the next |
| `Kernel.Kernel.FdWritePipe` | apps/web/src/wasi-module.js:2072-2099 | All chunks are appended in order, or none and an error |
| `Kernel.Kernel.FdReadPipe` | apps/web/src/wasi-module.js:2205-2221 | What the buffers get is what leaves the front of the pipe |
| `Kernel.Kernel.ReadPipeInputBytes` | apps/web/src/wasi-module.js:1602-1614 | An exec's standard input takes all the pipe holds |
| `Kernel.Kernel.WriteBytesToPipe` | apps/web/src/wasi-module.js:2011-2040 | Captured output is appended whole or throws |
| `DescriptorRuns.RunKeeps` | apps/web/src/wasi-module.js:2441-2694 | In every run of open, pipe, dup, dup2, renumber, close, fork, exit and transfer calls of any number of runtimes, each pipe's `readers` and `writers` equal the read and write ends in all live tables, descriptors are numbered below the counter, and no buffer exceeds 1 MiB |
| `DescriptorRuns.ClampIdle` | apps/web/src/wasi-module.js:2685-2694 | The `Math.max(0, ...)` never acts: the counter is positive whenever an end is closed |
| `Kernel.ClampIdleMidway` | apps/web/src/wasi-module.js:1648-1654 | Nor does it act on any close in the middle of `closeAllOpenFiles`, however many ends of one pipe are closed already |
| `DescriptorRuns.IssuedFresh` | apps/web/src/wasi-module.js:2503-2522 | No number is issued by open, dup or pipe while it is in use, and exactly the issued ones are added |
| `DescriptorRuns.OpenReaches` | apps/web/src/wasi-module.js:3687-3700 | The number a guest gets from an open reaches the new descriptor if and only if the counter is below 2^31 |
| `DescriptorRuns.WrapsToStdin` | apps/web/src/wasi-module.js:2524-2571 | Duplicating to -1 makes the next open report descriptor 0 |
| `DescriptorRuns.RunConserves` | apps/web/src/wasi-module.js:2072-2099 | Over any run, what a pipe held and everything written to it is everything read or drained from it, in the same order, followed by what it holds |
| `DescriptorRuns.EndOfFile` | apps/web/src/wasi-module.js:2205-2221 | Reading an empty pipe is end-of-file exactly when no table anywhere holds a write end |
| `DescriptorRuns.Broken` | apps/web/src/wasi-module.js:2072-2082 | Writing is a broken pipe exactly when no table anywhere holds a read end |
| `DescriptorCalls.DupCopies` | apps/web/src/wasi-module.js:2503-2522 | A duplicate of exactly what is at the number, one of the first six included, is put at the lowest free number from 5 on and the rest of the table and every other table stay; or there is nothing at the number |
| `DescriptorCalls.Dup2Copies` | apps/web/src/wasi-module.js:2524-2571 | The same at the target modulo 2^32; 3 and 4 are never targets, and a packaged file never goes to a standard number |
| `DescriptorCalls.RenumberMoves` | apps/web/src/wasi-module.js:2453-2491 | The descriptor is at the target and no longer at its old number, and nothing else changes; the refusals |
| `DescriptorCalls.CloseRemoves` | apps/web/src/wasi-module.js:2441-2451 | Exactly that number is gone |
| `DescriptorCalls.OpenAdds` | apps/web/src/wasi-module.js:3687-3698 | Exactly the counter's number is added, and the counter moves past it |
| `DescriptorCalls.PipeAdds` | apps/web/src/wasi-module.js:2631-2661 | The two ends of a new, empty pipe, counted once each, at the lowest free number and the lowest after it, and no other table changes |
| `DescriptorCalls.RightsGiveUp` | apps/web/src/wasi-module.js:2415-2439 | Only the right changes, and only to none when it was none |
| `DescriptorCalls.ForkCopies` | apps/web/src/wasi-module.js:1631-1654 | The child's table is exactly its parent's, a table that ends is gone, and every other stays |
| `DescriptorCalls.ReadTakes` | apps/web/src/wasi-module.js:2205-2221 | A read is given the front of what the pipe holds, never more than there is room for and less only when it takes all; with room, nothing is received if and only if the pipe is empty and no table anywhere holds a write end |
| `DescriptorCalls.DrainTakes` | apps/web/src/wasi-module.js:1602-1614 | An exec's standard input is all the pipe holds, and the pipe is empty after it |
| `DescriptorCalls.WriteAdds` | apps/web/src/wasi-module.js:2072-2099 | All of a write is appended if and only if some table holds a read end and the pipe then holds at most 1048576 bytes; otherwise nothing changes |
| `DescriptorCalls.WrongEnds` | apps/web/src/wasi-module.js:2205-2213 | Reads and writes of the wrong end, or without the right, are refused and change nothing |
| `DescriptorCalls.CaptureAdds` | apps/web/src/wasi-module.js:2011-2040 | Captured output is appended whole under the same condition, whatever the right; nothing always succeeds |
| `NamespaceRuns.RunCoherent` | apps/web/src/wasi-module.js:4560-4683 | In every run, an open descriptor with a path holds exactly the record at that path, a detached one holds a record at no path, and no two paths share a record |
| `NamespaceRuns.StepTree` | apps/web/src/wasi-module.js:3596-3701 | A call keeps parents directories and the kinds apart if and only if it does not rename a file onto a misplaced packaged file |
| `NamespaceRuns.RenameFileTree` | apps/web/src/wasi-module.js:4560-4580 | Renaming a file keeps the tree if and only if a file may be at the target |
| `NamespaceRuns.RunTree` | apps/web/src/wasi-module.js:4088-4190 | Every state of a run is a tree if and only if no call renames a file onto a misplaced packaged file |
| `NamespaceRuns.RunAllFit` | apps/web/src/wasi-module.js:924-931 | If the packaged files are where files may be, nothing is ever misplaced and every state of every run is a tree |
| `NamespaceExport.CleanRun` | apps/web/src/wasi-module.js:972-981 | A run that ends with the dirty flag down exports the directories and file contents that were mounted, so skipping the store import loses nothing |
| `NamespaceExport.RenameMovesFiles` | apps/web/src/wasi-module.js:4632-4644 | After a directory rename each path holds the file of its origin and no other path holds any |
| `NamespaceExport.RenameSubstitutes` | apps/web/src/wasi-module.js:4618-4655 | In any coherent workspace, a tree or not, a successful directory rename is exactly prefix substitution, contents included: nothing else changes, nothing is overwritten or lost |
| `NamespaceExport.RenameBack` | apps/web/src/wasi-module.js:6162-6166 | Substituting the prefix back gives every path it moved again |
| `NamespaceCalls.RefusedExplained` | apps/web/src/wasi-module.js:3596-4190 | A call that is refused changes nothing, and for each error what must be the case |
| `NamespaceCalls.OpenDoes` | apps/web/src/wasi-module.js:3596-3701 | When an open succeeds; a file that is there keeps its bytes unless it is truncated, one that is not is made empty, and every other path stays |
| `NamespaceCalls.OpenDirectoryDoes` | apps/web/src/wasi-module.js:3703-3743 | When a directory can be opened; only the descriptor is new |
| `NamespaceCalls.MakeDirectoryDoes` | apps/web/src/wasi-module.js:3821-3845 | When a directory can be made; it is there and every other path stays |
| `NamespaceCalls.UnlinkDoes` | apps/web/src/wasi-module.js:3882-3905 | When a file can be removed; exactly that path is absent after it, and exactly its descriptors lose their path |
| `NamespaceCalls.RemoveDirectoryDoes` | apps/web/src/wasi-module.js:3958-3997 | The same for a directory, which has to be empty and not the base |
| `NamespaceCalls.RenameGoesAhead` | apps/web/src/wasi-module.js:4088-4190 | Exactly when a rename succeeds, for files and directories |
| `NamespaceCalls.RenameFileDoes` | apps/web/src/wasi-module.js:4560-4580 | The target holds the old bytes of the source as a file of the workspace, the source holds no file, every other path stays, and descriptors follow |
| `NamespaceCalls.RenameDirectoryDoes` | apps/web/src/wasi-module.js:4618-4655 | Text for text: whatever was at the old prefix is at the new one, nothing is at the old one, and every other path stays |
| `NamespaceCalls.RenameDirectoryOpens` | apps/web/src/wasi-module.js:4645-4655 | Descriptors of what was moved follow it, an open directory at the target loses its path, and the others stay |
| `NamespaceCalls.WriteDoes` | apps/web/src/wasi-module.js:2101-2135 | When a write succeeds; the file the descriptor holds has the written bytes at the offset, zeros in a gap and the old bytes elsewhere, the file at the descriptor's path with it, and no other path changes |
| `NamespaceCalls.ResizeDoes` | apps/web/src/wasi-module.js:2716-2742 | The same for a new size: the old bytes up to it, then zeros |
| `NamespaceCalls.AllocateDoes` | apps/web/src/wasi-module.js:2766-2797 | The same for an allocated range: the old bytes, then zeros up to its end |
| `Workspace.Workspace.PathHasChildren` | apps/web/src/wasi-module.js:6147-6160 | True exactly when a directory or a file is strictly below the path |
| `Workspace.Workspace.OpenWorkspaceFile` | apps/web/src/wasi-module.js:3596-3701 | Creation, exclusion, truncation, the refusals, the dirty flag and the new descriptor, as the step of the run theorems |
| `Workspace.Workspace.CreateWorkspaceDirectory` | apps/web/src/wasi-module.js:3821-3845 | Adds exactly that directory, or refuses |
| `Workspace.Workspace.UnlinkWorkspaceFile` | apps/web/src/wasi-module.js:3882-3905 | Removes the file and detaches its descriptors, or refuses |
| `Workspace.Workspace.RemoveWorkspaceDirectory` | apps/web/src/wasi-module.js:3958-3997 | Removes a childless directory other than the base and detaches its descriptors, or refuses |
| `Workspace.Workspace.DetachOpenWorkspaceFile` | apps/web/src/wasi-module.js:4673-4683 | Exactly the file descriptors at the path lose it |
| `Workspace.Workspace.DetachOpenWorkspaceDirectory` | apps/web/src/wasi-module.js:4665-4671 | Exactly the directory descriptors at the path lose it |
| `Workspace.Workspace.RetargetOpenFiles` | apps/web/src/wasi-module.js:4570-4579 | Descriptors of the moved record get the new path, those of the replaced one none |
| `Workspace.Workspace.RenameWorkspaceFile` | apps/web/src/wasi-module.js:4560-4580 | The record moves, the replaced one is detached, descriptors follow |
| `Workspace.Workspace.MoveFiles` | apps/web/src/wasi-module.js:4632-4644 | The loop over the files builds the map with the prefix replaced and tells the records |
| `Workspace.Workspace.RenameWorkspaceDirectory` | apps/web/src/wasi-module.js:4618-4655 | Directories, files, records and descriptors with the prefix replaced |
| `Workspace.Workspace.RenameWorkspacePath` | apps/web/src/wasi-module.js:4088-4190 | All the checks of a rename, in order, and its effect |
| `Workspace.Workspace.WriteOpenFileAt` | apps/web/src/wasi-module.js:2287-2305 | The chunks overlaid one after the other, zeros in gaps, and the dirty flag exactly when something was written |
| `Workspace.Workspace.FdPwrite` | apps/web/src/wasi-module.js:2101-2135 | The refusals of a write, and otherwise its effect on the record the descriptor holds |
| `Workspace.Workspace.ResizeOpenFile` | apps/web/src/wasi-module.js:5992-6000 | The size is exactly the one asked for, and whether it was another |
| `Workspace.Workspace.MarkOpenFileDirty` | apps/web/src/wasi-module.js:4700-4705 | The record joins the workspace and the flag goes up |
| `Workspace.Workspace.FdFilestatSetSize` | apps/web/src/wasi-module.js:2716-2742 | The refusals, the new size, and the flag only if the size changed |
| `Workspace.Workspace.FdAllocate` | apps/web/src/wasi-module.js:2766-2797 | The refusals, growth and never shrinking, and the flag only if it grew |
| `Workspace.Workspace.OpenWorkspaceDirectory` | apps/web/src/wasi-module.js:3703-3743 | A directory descriptor, or the refusals |
| `FileContents.OverlaidAt` | apps/web/src/wasi-module.js:2291-2297 | A write changes exactly the bytes it covers, and a gap before it reads as zeros |
| `FileContents.WrittenAtOnce` | apps/web/src/wasi-module.js:2287-2305 | Writing chunk after chunk, growing the file as needed, is writing their concatenation at once |
| `FileContents.ChangedExactly` | apps/web/src/wasi-module.js:2287-2305 | The `changed` flag is raised if and only if bytes were written or the file grew; otherwise the contents are as they were |
| `FileContents.WriteReaches` | apps/web/src/wasi-module.js:2287-2305 | A write through a descriptor reaches the file at the descriptor's path and no other path, and none at all through a detached one |
| `FileContents.ResizedAt` | apps/web/src/wasi-module.js:5992-6000 | Setting the size keeps the bytes up to it and fills with zeros |
| `Names.KeepParts` | apps/web/src/wasi-module.js:6717-6732 | The parts that name something, in order, or a refusal when a part climbs |
| `Names.ResolveConfined` | apps/web/src/wasi-module.js:6183-6204 | Whatever the guest's text, what it resolves to is a well-formed path, inside the base directory unless the text is absolute |
| `Names.NamesResolve` | apps/web/src/wasi-module.js:6183-6204 | A path of plain names is taken below the base directory, and after `/workspace/` or `/workspace%/` from the root of the workspace |
| `Names.DotsResolve` | apps/web/src/wasi-module.js:6702-6715 | A dot is the base directory; `/workspace` and `/workspace%` are the root |
| `Names.OthersRefused` | apps/web/src/wasi-module.js:6183-6204 | Nothing else that starts with a slash, no relative text that climbs and no empty text is resolved |
| `Names.KeptConcat` | apps/web/src/wasi-module.js:6717-6732 | Which parts are kept is decided part by part |
| `StorePaths.NormalizeWorkspacePath` | apps/web/src/workspace.js:485-513 | The relative path of a text, or a refusal |
| `StorePaths.ReadsAsReread` | apps/web/src/workspace.js:485-513 | What every stored path is read as: its last name trimmed, its parent when nothing is left of that name, nothing when it climbs |
| `StorePaths.SlashedReads` | apps/web/src/workspace.js:485-513 | With a slash after it, the text of any key is read as that key, whatever it ends in |
| `StorePaths.NormalizesBackExactly` | apps/web/src/workspace.js:485-513 | A stored path is read back as its own key if and only if it does not end in white space, and otherwise, if at all, as a shorter one |
| `StorePaths.KernelPathReadsBack` | apps/web/src/workspace.js:485-491 | Of the kernel's paths, the store reads back exactly those without a backslash and without white space at the end |
| `MemoryStore.MemoryStore.constructor` | apps/web/src/workspace.js:19-27 | Only the root |
| `MemoryStore.MemoryStore.WriteFile` | apps/web/src/workspace.js:29-46 | The file with its content and time, or the error and no change |
| `MemoryStore.MemoryStore.DeleteFile` | apps/web/src/workspace.js:60-68 | Without that file, or the error |
| `MemoryStore.MemoryStore.EnsureDirectory` | apps/web/src/workspace.js:225-239 | The loop from the top makes the missing directories the recursive form makes, with a reading of the clock for each, or throws where it does |
| `MemoryStore.MemoryStore.CreateDirectory` | apps/web/src/workspace.js:70-94 | The directory, recursively or not, or the error |
| `MemoryStore.MemoryStore.DeleteDirectoryTree` | apps/web/src/workspace.js:260-271 | Exactly what is at or below the path is gone |
| `MemoryStore.MemoryStore.DeleteDirectory` | apps/web/src/workspace.js:96-108 | An empty directory, or with everything in it, or the error |
| `MemoryStore.MemoryStore.RenameDirectory` | apps/web/src/workspace.js:273-311 | Both maps rebuilt with the prefix replaced, a reading of the clock for each record, and taken over together; a wrong reading anywhere changes nothing |
| `MemoryStore.MemoryStore.Rename` | apps/web/src/workspace.js:139-164 | All the checks of a rename, in order, and its effect |
| `MemoryStore.MemoryStore.ExportSnapshot` | apps/web/src/workspace.js:166-181 | Lists every record once under its own path, and nothing else |
| `MemoryStore.MemoryStore.ImportSnapshot` | apps/web/src/workspace.js:183-219 | Takes a snapshot over only if every entry and the graph are valid, otherwise changes nothing |
| `Store.FreshIsVacant` | apps/web/src/workspace.js:139-164 | In a valid store a path that is not there has nothing below it |
| `StoreRuns.RunKeeps` | apps/web/src/workspace.js:29-311 | Every sequence of calls, imports included, keeps the root, one kind per path, a directory above every path, and records that name their own keys |
| `StoreRuns.RunFromFresh` | apps/web/src/workspace.js:19-27 | The same of every store that began with its root only |
| `StoreRuns.EnsureAtomic` | apps/web/src/workspace.js:225-239 | Recursive creation that throws changed nothing, if and only if it is not the case that the first missing directory could be made and the clock was wrong for a later one |
| `StoreRuns.ThrowsAtomically` | apps/web/src/workspace.js:29-164 | A call that throws changes nothing, if and only if it is neither a file rename with a wrong clock nor a recursive creation whose clock goes wrong after the first directory it makes |
| `StoreRuns.RenameLosesFile` | apps/web/src/workspace.js:149-157 | The first: one file, renamed while the clock says -1, leaves an empty store |
| `StoreRuns.CreationLeavesDirectory` | apps/web/src/workspace.js:225-239 | The second: `a/b` made in an empty store, with the clock right for `a` and wrong for `a/b`, throws and leaves `a` |
| `StoreRuns.RenameSubstitutes` | apps/web/src/workspace.js:273-311 | Renaming a directory is exactly prefix substitution, and records that did not move keep their times |
| `StoreCalls.WriteDoes` | apps/web/src/workspace.js:29-46 | When a write returns; the path holds the content with its time and full path, and nothing else changes |
| `StoreCalls.DeleteDoes` | apps/web/src/workspace.js:60-68 | Exactly that file is gone, or the error |
| `StoreCalls.CreateDoes` | apps/web/src/workspace.js:70-94 | When a directory is made; exactly that record is added |
| `StoreCalls.CreateAllDoes` | apps/web/src/workspace.js:225-239 | Recursive creation returns if and only if no path down to the last is a file and the clock is right for the missing ones, and then exactly those are added |
| `StoreCalls.DeleteDirectoryDoes` | apps/web/src/workspace.js:96-108 | Exactly what is at or under the directory is gone, or the error |
| `StoreCalls.RenameReturns` | apps/web/src/workspace.js:139-164 | Exactly when a rename returns |
| `StoreCalls.RenameFileDoes` | apps/web/src/workspace.js:149-157 | The target holds the old content with a new time and full path, the source is gone, nothing else changes |
| `StoreCalls.RenameDirectoryDoes` | apps/web/src/workspace.js:273-311 | Text for text: what was under the old path is under the new one with new times and full paths, and the records elsewhere stay |
| `StoreCalls.ImportDoes` | apps/web/src/workspace.js:183-219 | An import returns if and only if every entry is acceptable and together they give a tree; every path then holds what its last entry says |
| `StoreSnapshots.SnapshotRoundTrip` | apps/web/src/workspace.js:166-219 | Importing an export restores the same paths, contents and times, if and only if no path ends in white space |
| `StoreSnapshots.SlashHidesSpace` | apps/web/src/workspace.js:485-487 | Such a path is one call away |
| `WorkspaceMount.MountSnapshot` | apps/web/src/wasi-module.js:907-942 | A fresh store takes the snapshot or the mount fails; its export goes through the loops over directories, files and packaged files, each path normalized again |
| `WorkspaceRemount.RemountSnapshot` | apps/web/src/wasi-module.js:910-932 | Those loops, as the function the theorems are about |
| `WorkspaceMount.MountCoherent` | apps/web/src/wasi-module.js:907-942 | A mounted workspace is coherent, clean and has nothing open |
| `WorkspaceMount.MountLands` | apps/web/src/wasi-module.js:907-923 | A mount succeeds if and only if the fresh store loads the snapshot and every path it then holds is read again; the directories and exported files are exactly what those paths are read as |
| `WorkspaceMount.MountExactly` | apps/web/src/wasi-module.js:874-942 | Mounting what a store exports gives a workspace with the store's directories, files and contents, if and only if no path in the store ends in white space |
| `WorkspaceMount.MountTree` | apps/web/src/wasi-module.js:907-942 | A mounted workspace is a tree if and only if, of what the fresh store loaded, every path that keeps its parent finds it mounted and no file is mounted where a directory is |
| `WorkspaceRemount.PlainDirectoriesMount` | apps/web/src/wasi-module.js:907-942 | When no loaded directory ends in white space, that is so if and only if no file is trimmed to a directory's path |
| `WorkspaceMount.PlainStoreMountsWell` | apps/web/src/wasi-module.js:907-942 | A store in which no path ends in white space is loaded as it is and mounts well |
| `WorkspaceImport.ExportImports` | apps/web/src/wasi-module.js:1027-1045 | The store takes an export exactly, with its directories, files and contents, if and only if it passes the graph check and every path in it is free of backslashes and of white space at the end; and when every path is, it takes it at all only then |
| `WorkspaceImport.RunImports` | apps/web/src/workspace.js:464-483 | From any snapshot that mounts and whose loaded contents mount well, after every run of calls that does not misplace a file, removals of the root included, the store takes the export exactly if and only if no file is at the root and every exported path is one it reads back |
| `WorkspaceImport.MisplacedFileRefused` | apps/web/src/wasi-module.js:4560-4580 | With a packaged `pkg/x` and no `pkg`, renaming `y` to `pkg/x` succeeds, is no tree any more, and the store refuses the export |
| `WorkspaceImport.SpacedDirectoryUproots` | apps/web/src/wasi-module.js:907-923 | The snapshot with the directory `/workspace/a /` and the file `/workspace/a /x` is loaded, mounts as no tree, and the store refuses what the run exports |
| `WorkspaceImport.RootFileLosesRun` | apps/web/src/wasi-module.js:3958-3997 | From any directory but the root, removing the root succeeds, then creating a file there does, and then the store refuses every export |
| `Processes.ProcessTable.constructor` | apps/web/src/wasi-module.js:1095-1110 | Only the root process, the next pid is 2 |
| `Processes.ProcessTable.Fork` | apps/web/src/wasi-module.js:5275-5299 | Resumes a pending fork, refuses a second vfork, or records a child and unwinds |
| `Processes.ProcessTable.Exit2` | apps/web/src/wasi-module.js:1276-1288 | Records a vfork child's exit and unwinds, or ends the run |
| `Processes.ProcessTable.Exec` | apps/web/src/wasi-module.js:1290-1298 | Records a vfork child's exit and rewinds its parent, or ends the run |
| `Processes.ProcessTable.MarkProcessExited` | apps/web/src/wasi-module.js:1676-1683 | Records the exit of a known pid |
| `Processes.ProcessTable.BeginForkRewind` | apps/web/src/wasi-module.js:1408-1430 | What the fork is to return, and in which process |
| `Processes.ProcessTable.BeginVforkParentRewind` | apps/web/src/wasi-module.js:1432-1444 | Rewinds the parent of the active vfork child, and refuses any other |
| `Processes.ProcessTable.FinishContinuationTurn` | apps/web/src/wasi-module.js:1300-1364 | What each kind of unwind leads to |
| `Processes.ProcessTable.FindExitedChild` | apps/web/src/wasi-module.js:1689-1696 | The earliest child that has exited, if any |
| `Processes.ProcessTable.WriteJoinedChild` | apps/web/src/wasi-module.js:5372-5376 | The exit code modulo 65536, and the record is gone |
| `Processes.ProcessTable.ProcessJoin` | apps/web/src/wasi-module.js:5325-5370 | A join of any child or of a given one, blocking or not |
| `ProcessRuns.LivesInOrder` | apps/web/src/wasi-module.js:1217-1444 | In every run of a root runtime, every pid is forked new, resumed with 0, recorded exited, the process that forked it resumed with the pid, and that process given its status: in this order and each at most once |
| `ProcessRuns.ForkIsFresh` | apps/web/src/wasi-module.js:1217-1255 | At any reachable point, a fork issues a pid that no earlier event knows, and none while a vfork child is active |
| `ProcessRuns.ResumedAfterExit` | apps/web/src/wasi-module.js:1432-1444 | The process resumed with a pid is the one that forked it, after that child's exit was recorded |
| `ProcessRuns.JoinedOnce` | apps/web/src/wasi-module.js:1707-1711 | A child's status is handed over at most once |
| `ProcessRuns.JoinedStatus` | apps/web/src/wasi-module.js:5372-5376 | The process given a status is the one that forked the child, and the status is the recorded exit code modulo 65536 |
| `ProcessReplies.RepliesAreLogged` | apps/web/src/wasi-module.js:1257-1267 | At every point of every run, a fork returns a value to the guest if and only if the log gains exactly that the process then running was resumed with it, and a join answers with a status if and only if the log gains exactly that hand-over |
| `ProcessReplies.CodesAreRecorded` | apps/web/src/wasi-module.js:1276-1298 | What is recorded of a vfork child that exits or execs is its code modulo 2^32, of a copied child the code it ended with; elsewhere an exit or exec ends the run |
| `ProcessReplies.JoinOfOne` | apps/web/src/wasi-module.js:5325-5376 | A join of a pid hands over the status of a child that the log says has exited and not been joined, and knows no other |
| `ProcessReplies.JoinOfAny` | apps/web/src/wasi-module.js:5325-5376 | A join of any hands over the first such child, and knows none if there is none |
| `ProcessReplies.VforkResumesChild` | apps/web/src/wasi-module.js:1217-1267 | From wherever no fork is in progress, a vfork ends in a new child that goes on with 0 |
| `ProcessReplies.ExitResumesParent` | apps/web/src/wasi-module.js:1276-1364 | When that child exits, its parent goes on with its pid, after the exit was recorded |
| `ProcessReplies.ExecResumesParent` | apps/web/src/wasi-module.js:1290-1298 | The same when it execs |
| `ProcessReplies.CopyResumesParent` | apps/web/src/wasi-module.js:1237-1267 | A copying fork runs its child to the end and then goes on in the parent with the child's pid |
| `ProcessReplies.ThenJoined` | apps/web/src/wasi-module.js:5325-5376 | A child that can be joined is handed over once and then unknown |
| `WasmImports.ReadWasmVarUint32` | apps/web/src/wasi-module.js:6542-6561 | The value of the seven-bit groups modulo 2^32, at most five of them, within the section |
| `WasmImports.ParseWasmImportSection` | apps/web/src/wasi-module.js:6451-6476 | The loop appends what the recursive reading finds, errors included |
| `WasmImports.ImportedMemoryImports` | apps/web/src/wasi-module.js:6431-6449 | The loop over the sections, on every byte string |
| `WasmModules.ScanExactly` | apps/web/src/wasi-module.js:6431-6578 | For every module with any sections in any order and integers padded up to five bytes, none of its memories a 64-bit one, the scanner returns exactly its memory imports, in order, with names, limits and whether the format marks them shared, if and only if no memory import has a module or field name that starts with a byte-order mark; a 64-bit memory makes it refuse |
| `WasmModules.MarkedImportRenamed` | apps/web/src/wasi-module.js:6532-6540 | A memory import `e` `m` with a mark before the `m` is found as `e` `m` |
| `WasmModules.PaddedOk` | apps/web/src/wasi-module.js:6542-6561 | Every padding of an integer to one to five bytes is such an encoding |
| `WasmModules.VarExactly` | apps/web/src/wasi-module.js:6542-6561 | On any bytes, an integer is read if and only if one of one to five bytes ends within the section; otherwise it is refused |
| `WasmModules.DescriptorNeeds` | apps/web/src/wasi-module.js:6478-6500 | A descriptor that is cut off or of a sixth kind is refused, and as what |
| `WasmModules.SectionNeeds` | apps/web/src/wasi-module.js:6436-6442 | A section that is longer than what is left of the module is refused |
| `Readdir.FdReaddir` | apps/web/src/wasi-module.js:2307-2340 | From a cookie, exactly the longest buffer-sized prefix of the serialized entries from there on |
| `Readdir.BufferParses` | apps/web/src/wasi-module.js:6075-6102 | A buffer holds exactly the entries that fit, in order, each with the cookie to resume at |
| `Readdir.EntryInBytes` | apps/web/src/wasi-module.js:6075-6084 | An entry byte for byte: the cookie after it twice, the length of its name, its type and the name |
| `Readdir.ListsEveryChild` | apps/web/src/wasi-module.js:2307-2340 | Resuming at the last complete cookie lists every child of an unchanged directory once and in order, if and only if every single entry fits the buffer |
| `Listing.DirectoryEntries` | apps/web/src/wasi-module.js:6104-6141 | The two loops list a name as a directory or as a file exactly when a key says so |
| `Listing.SortNames` | apps/web/src/wasi-module.js:6142-6145 | The listed names, each once, in order |
| `Listing.ListingAgrees` | apps/web/src/wasi-module.js:6236-6254 | The listing and `statPath` agree on existence and type of every child |
| `Listing.SortedUnique` | apps/web/src/wasi-module.js:6141-6145 | Two sorted listings of the same names are equal, so cookies keep their meaning |
| `Directories.ListsChildren` | apps/web/src/wasi-module.js:2307-2340 | End to end: resuming `fd_readdir` over the sorted listing with a buffer that holds any one entry gives one record for every child that a stat finds, in order, with the stat's type |
| `Directories.ListedOpens` | apps/web/src/wasi-module.js:6183-6204 | Passed back to the runtime, a listed name resolves to the listed child if and only if it does not start with a byte-order mark, which the text decoder drops |
| `Gateway.ReadGatewayStreamResponse` | apps/web/src/http.js:350-464 | The loop over the chunks, as the function the theorems are about |
| `Gateway.DrainLines` | apps/web/src/http.js:434-448 | The inner loop applies every complete line, up to the first that fails |
| `Gateway.LimitFires` | apps/web/src/http.js:423-433 | The frame limit fires if and only if some chunk together with the unfinished line before it exceeds it and no frame completed before that chunk fails |
| `Gateway.ChunkingIrrelevant` | apps/web/src/http.js:422-449 | However the stream is cut, if no chunk overflows the frame limit the reader does what it does with the stream in one piece, and fails as it does |
| `Gateway.SameStreamSameReading` | apps/web/src/http.js:422-449 | Two chunkings of one stream, neither of which overflows, give the same actions and the same failure |
| `Gateway.LimitDependsOnChunks` | apps/web/src/http.js:426-433 | One stream, two chunkings: the limit fires on one only |
| `Gateway.SucceedsExactly` | apps/web/src/http.js:350-464 | The reader succeeds if and only if the frames are a response, its chunks and its end, within the body limit, with only white space after the last line |
| `Gateway.SuccessActions` | apps/web/src/http.js:350-464 | It then starts the response, writes the chunk bodies in order and finishes once |
| `Gateway.ReadingKeepsTo` | apps/web/src/http.js:662-671 | On every stream and chunking, no more is written than the body limit allows, and the response is finished only as the last action of a reading that did not fail |
| `Gateway.FramesExactly` | apps/web/src/http.js:434-448 | The frames of any lines, each with its newline and perhaps a carriage return, are the parses of those that are not all white space |
| `Gateway.StreamIsLines` | apps/web/src/http.js:434-448 | Every stream is such lines and a tail |
| `Gateway.SucceedsOnLines` | apps/web/src/http.js:350-464 | The same condition for success on the lines of the stream |
| `Gateway.FailsAsItShould` | apps/web/src/http.js:361-420 | After a response and chunks within the limit, the next frame is wrong exactly if it is a second response, malformed, an error or past the body limit; it then decides the failure, and exactly the chunks before it are written |
| `Gateway.FailsAfterEnd` | apps/web/src/http.js:363-368 | After the end every further frame fails, and nothing more is done |
| `Gateway.EndsAsItShould` | apps/web/src/http.js:451-463 | A stream of good frames fails for what follows its last line, or else for want of an end, and otherwise succeeds |
| `CommandInput.CommandInputStream.constructor` | apps/web/src/command-worker.js:961-966 | Nothing queued, nobody waiting, open |
| `CommandInput.CommandInputStream.PushChunk` | apps/web/src/command-worker.js:968-989 | The oldest waiter gets the chunk, or it is queued; empty chunks vanish, late ones are refused |
| `CommandInput.CommandInputStream.Close` | apps/web/src/command-worker.js:991-1001 | Every waiter learns that the stream is over |
| `CommandInput.CommandInputStream.Abort` | apps/web/src/command-worker.js:1003-1009 | The first error is kept and every waiter rejected with it; what is queued can still be read |
| `CommandInput.CommandInputStream.Read` | apps/web/src/command-worker.js:1015-1038 | The oldest chunk, the error, the end, or a place in the queue |
| `CommandInput.RunKeeps` | apps/web/src/command-worker.js:960-1053 | In every interleaving, readers wait only on an open, error-free and empty stream |
| `CommandInput.ReadersSeePushes` | apps/web/src/command-worker.js:960-1053 | The k-th read that delivers data delivers the k-th non-empty accepted chunk, and null is only answered after the end with every chunk delivered |
| `CommandInput.AnswerStays` | apps/web/src/command-worker.js:1015-1053 | A promise is settled once |
| `CommandInput.RepliesExactly` | apps/web/src/command-worker.js:968-1038 | After any calls, what each call is told: whether a push is accepted, with which failure it is refused, and that a read gets the promise of its own number |
| `CommandInput.ReadAnswered` | apps/web/src/command-worker.js:1015-1038 | What a new read is answered: the oldest undelivered chunk, else the first failure, else null after the end, else nothing yet |
| `CommandInput.WaitersAnswered` | apps/web/src/command-worker.js:968-1053 | What every other call does to every waiting read, and that no other answer changes |

## Left out

- The scratch mount `/tmp` and the read-only package root: they repeat the workspace's code with fewer guarantees.
- An exec's import of the child's snapshot and `rebindOpenWorkspaceFiles`: the latter can recreate a file whose parent directory is gone, so the tree theorems are about runs without it.
- The namespace caches of copied-fork children: a directory rename replaces the maps of one runtime only, so `Namespace` is one runtime.
- The process tables of copied-fork children, which number their own children from 2 again: `Processes` is the root runtime, and a copied child's life is one step of its parent's.
- `stack_checkpoint` and `stack_restore`, which share the unwind slot with the forks, `proc_exit` outside a vfork child other than as the end of the run, and the bytes of the saved stacks.
- Processes.ProcessTable.FinishContinuationTurn: does not model the turns of `stack_checkpoint` and `stack_restore`, because they start no process.
- Kernel.Kernel.FdFdstatSetRights: does not model rights other than the one to read or write the pipe, because no other right has an effect on one.
- Guest memory: pointers, bounds and fault results of the calls; rights other than those that let a descriptor read, write, resize or allocate; descriptor flags.
- Workspace.Workspace.FdPwrite: does not model the refusal of offsets that are negative or not safe integers, nor the answers for the preopened directories and standard streams, because they are single comparisons before the write.
- Workspace.Workspace.FdFilestatSetSize: does not model the refusal of sizes that are negative or not safe integers, for the same reason.
- Workspace.Workspace.FdAllocate: does not model the refusal of ranges that are negative or not safe integers, for the same reason.
- CborReader.Reader.ReadMap: does not model that a key that is not text can collide with a text key it prints as, and that integer-like keys come first in a JavaScript object, because a non-text key is represented by its own bytes and an object by its entries in order.
- CborReader.Reader.ReadSimple: does not model that a floating-point number that is an integer is that integer to a script, because it is kept as its bytes; `Cbor.RoundTrip` is about values in which no such number occurs as its bytes.
- WebcVolume.Writer.WriteEntries: does not model the sort by `localeCompare`, because the theorems hold for the entries in any order.
- MemoryStore.MemoryStore.ExportSnapshot: does not model the order of the entries, because the import does not depend on it.
- Listing.SortNames: does not model that names are compared by UTF-16 units, which orders characters beyond U+FFFF before some below them, because texts are sequences of characters.
- UTF-8 decoding of malformed bytes, base64 and JSON are given functions; the byte-order mark is modelled. Strings with lone surrogates, which no UTF-8 text expresses, do not survive an encoder and are not in the model.
- The IndexedDB store, manifest interpretation, `readWebcRootFiles`, cancellation and time-outs of the gateway reader.
- Server-sent events, sockets, clocks, terminals, the user interface, secrets, the app server and the Rust, C, Go and Python bindings.
