# WebOS simulator core in Dafny

This project models the logic of a browser-hosted desktop simulator, WebOS, and proves properties of that model. It covers five parts:

- **The virtual file tree** (`FileSystem`). Directories hold an insertion-ordered list of named children. Every operation reports failure with `false` or `null` instead of throwing. Tree nodes are the `Tree.Node` datatype. The operations are total functions on trees (`FileOps`). The `Vfs.FileSystem` class holds the tree in a `root` field and reassigns it; each of its methods is proved equal to the matching function.
- **The shell interpreter** (`TerminalCommands`). It trims and tokenises a line, records it in `history`, resolves arguments against `currentPath`, and runs `ls`, `cd`, `pwd`, `cat`, `echo`, `mkdir`, `touch`, `rm`, `clear`, `help`, `whoami`, `hostname`, `date` and `history`. `Commands.Exec` is the whole interpreter step as a function. `Shell.TerminalCommands` is the object with its two fields; its `Execute` is proved to agree with `Exec`.
- **The desktop session** (`DesktopProvider`). It holds the window list with its cap of ten, the z-order counter, the shared current directory, the power state and the saved tree. The window updaters are list functions (`Windows`). The power transitions are functions on a `Desktop.Desk` value. `Desktop.Session` holds the same state in fields.
- **The terminal window.** It holds the screen lines, the prompt text and the history cursor that ArrowUp and ArrowDown move (`TerminalApp`).
- **The browser window.** It holds a back/forward history with a cursor (`BrowserApp`).

The clock, random window ids, the `date` text and URL parsing are parameters. Timers are explicit entries in a pending list, which the event loop fires earliest first (`Desktop.Session.Fire`).

Behaviour kept as the code has it:
- `joinPath` puts a second slash in front of an absolute first part. So `cd test` in `/home/user` stores `//home/user/test`.
- A copy gives every node of the copied subtree the new name and the id `<destination id>-<name>-<clock reading>`, built from that node's own reading of the clock. With the one clock reading per operation that the model takes, that is one shared id for the whole copy. The child keys are left as they were.
- A copy overwrites an existing entry of the same name.
- `focusWindow` never advances the z-order counter, so z values can collide.
- The seeded `welcome.txt` records size 200 although its text is 235 characters long.
- `moveNode` onto the node's own place deletes it.
- `shutdown` and `sleep` do not cancel a pending boot.
- `echo CLEAR` clears the terminal screen, as `clear` does.

## Model

| member | source | states |
|---|---|---|
| Text.Split | src/lib/fileSystem.ts:280 | `split` on a separator always yields at least one piece |
| Text.SplitPieces | src/lib/fileSystem.ts:280 | no piece produced by `split` contains a separator |
| Text.NonEmpty | src/lib/fileSystem.ts:280 | `filter(Boolean)` never yields more strings than it was given |
| Text.NonEmptySpec | src/lib/fileSystem.ts:280 | `filter(Boolean)` keeps only non-empty strings, all taken from the input |
| Text.NonEmptyAppend | src/lib/fileSystem.ts:280 | filtering distributes over concatenation |
| Text.NonEmptyAllEmpty | src/lib/fileSystem.ts:280 | filtering a list of empty strings leaves nothing |
| Text.NonEmptyKeeps | src/lib/fileSystem.ts:280 | filtering a list with no empty string changes nothing |
| Text.SplitAppend | src/lib/fileSystem.ts:280 | splitting at a separator character is splitting each side and concatenating |
| Text.SplitFree | src/lib/fileSystem.ts:280 | a string without separators splits into itself |
| Text.SplitAllSeps | src/lib/fileSystem.ts:280 | a string made only of separators splits into empty pieces only |
| Text.SplitJoin | src/lib/fileSystem.ts:286 | splitting a join of separator-free pieces gives the pieces back |
| Text.Join | src/lib/fileSystem.ts:286 | `Array.prototype.join`, the empty array giving ""; `SplitJoin` proves `Split` its inverse on separator-free pieces |
| Text.TrimStart | src/lib/terminalCommands.ts:36 | the result is no longer than the input and does not start with whitespace |
| Text.TrimStartDrops | src/lib/terminalCommands.ts:36 | removes exactly the leading whitespace: the result is a suffix and everything removed is whitespace |
| Text.TrimEnd | src/lib/terminalCommands.ts:36 | the result is no longer than the input, keeps its first character and does not end with whitespace |
| Text.TrimEndDrops | src/lib/terminalCommands.ts:36 | removes exactly the trailing whitespace: the result is a prefix and everything removed is whitespace |
| Text.Trim | src/lib/terminalCommands.ts:36-38 | a non-empty trimmed line has non-whitespace at both ends |
| Text.TrimBlank | src/lib/terminalCommands.ts:36-38 | the trimmed line is empty exactly for all-whitespace input |
| Text.TrimNoop | src/lib/terminalCommands.ts:36 | trimming a line with non-whitespace ends changes nothing |
| Text.WordsAreTokens | src/lib/terminalCommands.ts:43 | splitting a trimmed line on whitespace runs gives non-empty, whitespace-free tokens |
| Text.Words | src/lib/terminalCommands.ts:43 | `split(/\s+/)` on the trimmed line: the maximal runs of non-white-space, in order; stated by `WordsAreTokens`, `WordsOfTwo` and `WordsOfJoin` |
| Text.WordsOfNonBlank | src/lib/terminalCommands.ts:43-44 | a line that is not blank yields a command word |
| Text.WordsOfTwo | src/lib/terminalCommands.ts:43-45 | `cmd arg` tokenises to the command and its one argument |
| Text.WordsOfOne | src/lib/terminalCommands.ts:43-45 | a single word tokenises to itself |
| Text.WordsOfJoin | src/lib/terminalCommands.ts:164-166 | joining tokens with single spaces and tokenising again gives the tokens back |
| Text.NatToString | src/lib/terminalCommands.ts:75 | decimal rendering: non-empty, digits only, no leading zero |
| Text.NatToStringRoundTrip | src/lib/terminalCommands.ts:75 | reading the decimal rendering back gives the number |
| Paths.PartsAreSegments | src/lib/fileSystem.ts:279-281 | every part is a non-empty, slash-free segment |
| Paths.GetPathParts | src/lib/fileSystem.ts:279-281 | `split('/').filter(Boolean)`: the non-empty pieces between slashes, in order; what they are is stated by `PartsAreSegments` and the `PartsOf…` lemmas |
| Paths.JoinPath | src/lib/fileSystem.ts:283-287 | the joined path always starts with `/` |
| Paths.GetParentPath | src/lib/fileSystem.ts:289-294 | the parent path always starts with `/` |
| Paths.GetFileName | src/lib/fileSystem.ts:296-299 | the file name is never empty |
| Paths.PartsOfSegment | src/lib/fileSystem.ts:279-281 | a segment is its own only part |
| Paths.PartsOfRoot | src/lib/fileSystem.ts:279-281 | `/` and the empty path have no parts |
| Paths.PartsOfConcat | src/lib/fileSystem.ts:279-281 | parts of `a/b` are the parts of `a` then those of `b`, so repeated slashes are ignored |
| Paths.PartsOfAbsolute | src/lib/fileSystem.ts:279-281 | a leading slash is ignored |
| Paths.PartsOfRebuilt | src/lib/fileSystem.ts:279-293 | `/` plus segments joined by `/` splits back into the segments |
| Paths.PartsOfJoinPath | src/lib/fileSystem.ts:283-287 | the parts of `joinPath(a, b)` are those of `a` then those of `b` |
| Paths.JoinPathDoubleSlash | src/lib/fileSystem.ts:283-287 | `joinPath('/home/user', 'test')` is `//home/user/test` |
| Paths.PartsOfParent | src/lib/fileSystem.ts:289-294 | the parent has the parts of the path minus the last |
| Paths.FileNameIsLast | src/lib/fileSystem.ts:296-299 | the file name is the last part, and `/` exactly when there is none |
| Paths.ParentOfJoin | src/lib/fileSystem.ts:283-294 | the parent of `joinPath(dir, name)` has the parts of `dir` |
| Paths.ParentOfHomeUserTest | src/lib/fileSystem.ts:289-294 | every spelling of `/home/user/test` has parent `/home/user` |
| Paths.ParentOfJoinText | src/lib/fileSystem.ts:283-294 | as text, the parent of `joinPath(dir, name)` is `dir` rebuilt with single slashes, so the parent of `//home/user/test` is `/home/user` |
| Tree.Keys | src/lib/types.ts:8 | one key per entry |
| Tree.KeysValuesAt | src/lib/fileSystem.ts:210 | keys and nodes line up with the entries, position by position |
| Tree.Values | src/lib/fileSystem.ts:210 | `Object.values`: one node per entry |
| Tree.Lookup | src/lib/fileSystem.ts:98-101 | a lookup among a directory's own entries fails iff the key is absent (inherited object names: see Left out) |
| Tree.LookupFound | src/lib/fileSystem.ts:98-101 | a found node is stored under that key |
| Tree.PutFrom | src/lib/fileSystem.ts:122 | assigning a key leaves only old entries and the new one |
| Tree.RemoveFrom | src/lib/fileSystem.ts:175 | `delete` leaves only old entries, none under the key |
| Tree.Put | src/lib/fileSystem.ts:122 | `children[key] = node`: an existing key is overwritten in its place, a new key appended; stated by `PutFrom`, `PutLookup` and `PutKeys` |
| Tree.Remove | src/lib/fileSystem.ts:175 | `delete children[key]`: the entry under the key is dropped, the others keep their order; stated by `RemoveFrom` and `RemoveLookup` |
| Tree.PutLookup | src/lib/fileSystem.ts:122 | after an assignment the key gives the new node and every other key what it gave before |
| Tree.PutKeys | src/lib/fileSystem.ts:122 | assignment keeps an existing key in its place and appends a new key at the end |
| Tree.RemoveLookup | src/lib/fileSystem.ts:175 | after `delete` the key is gone and every other key gives what it gave before |
| Tree.PutNew | src/lib/fileSystem.ts:122 | assigning an absent key appends one entry |
| Tree.RemoveAbsent | src/lib/fileSystem.ts:175 | deleting an absent key changes nothing |
| Tree.RemoveAppend | src/lib/fileSystem.ts:175 | deletion distributes over concatenation |
| Tree.PutUnique | src/lib/fileSystem.ts:122 | assignment keeps keys distinct |
| Tree.RemoveUnique | src/lib/fileSystem.ts:175 | deletion keeps keys distinct |
| Tree.Resolve | src/lib/fileSystem.ts:89-105 | the node the segments lead to from the root, none when a segment is missing or passes a file; stated by `ResolveAppend`, `ResolveBelowFile` and `ResolveValid` |
| Tree.ReplaceAt | src/lib/fileSystem.ts:122-130 | an in-place update of the node a path reaches, as the rebuilt tree; stated by `ReplaceAtStep` and the `ResolveReplace…` lemmas |
| Tree.ResolveAppend | src/lib/fileSystem.ts:89-105 | resolving `p + q` is resolving `q` from the node at `p` |
| Tree.ResolveValid | src/lib/fileSystem.ts:89-105 | every node reached in a well-formed tree is well-formed |
| Tree.ResolveBelowFile | src/lib/fileSystem.ts:97-100 | no path resolves below a file |
| Tree.ReplaceAtStep | src/lib/fileSystem.ts:122-130 | updating a node in place changes one child of the root and none of the root's own fields |
| Tree.ResolveReplaceInside | src/lib/fileSystem.ts:122-130 | below the updated node, paths resolve in the new node |
| Tree.ResolveReplaceBeside | src/lib/fileSystem.ts:122-130 | paths beside the updated node resolve as before |
| Tree.ResolveReplaceAbove | src/lib/fileSystem.ts:122-130 | nodes above the updated one keep their fields |
| Tree.ResolveReplaced | src/lib/fileSystem.ts:122-130 | the updated path resolves to the new node |
| Tree.ResolveReplacedBelow | src/lib/fileSystem.ts:122-130 | below the updated path, resolution goes through the new node's children |
| Tree.ResolveBelow | src/lib/fileSystem.ts:89-105 | resolving below a directory goes through its child list |
| Tree.ReplaceAtValid | src/lib/fileSystem.ts:122-130 | an in-place update with a well-formed node keeps the tree well-formed |
| Tree.ReplaceDirFrame | src/lib/fileSystem.ts:122-130 | changing a directory's entries outside a key set changes nothing else in the tree |
| Tree.ReplaceDirKeeps | src/lib/fileSystem.ts:122-130 | paths through an untouched key resolve as before |
| Tree.DirAbove | src/lib/fileSystem.ts:89-105 | everything above a resolved node is a directory |
| FileOps.CreateFileAt | src/lib/fileSystem.ts:107-134 | succeeds iff the parent is a directory without that key among its own entries; on failure the tree is unchanged |
| FileOps.CreateDirectoryAt | src/lib/fileSystem.ts:136-163 | succeeds iff the parent is a directory without that key among its own entries; on failure the tree is unchanged |
| FileOps.DeleteAt | src/lib/fileSystem.ts:165-178 | succeeds iff the parent directory holds the key among its own entries; on failure the tree is unchanged |
| FileOps.WriteFileAt | src/lib/fileSystem.ts:180-190 | succeeds iff the path names a file; on failure the tree is unchanged |
| FileOps.ReadFileAt | src/lib/fileSystem.ts:192-198 | gives a value iff the path names a file, and then that file's content |
| FileOps.ListDirectoryAt | src/lib/fileSystem.ts:200-211 | gives a list iff the path names a directory, with one item per child |
| FileOps.RenameAt | src/lib/fileSystem.ts:213-229 | succeeds iff the old key is among the parent's own entries and the new one is not, so never for the same name; on failure the tree is unchanged |
| FileOps.CopyAt | src/lib/fileSystem.ts:231-266 | succeeds iff the source resolves and the destination is a directory; on failure the tree is unchanged |
| FileOps.ResolveJoinPath | src/lib/fileSystem.ts:283-287 | resolving `joinPath(dir, name)` looks `name` up among the children of `dir` |
| FileOps.NewFile | src/lib/fileSystem.ts:122-130 | the file `createFile` stores, its id derived from the parent's; stated by `CreateFileEffect` |
| FileOps.NewDirectory | src/lib/fileSystem.ts:151-159 | the empty directory `createDirectory` stores; stated by `CreateDirectoryEffect` |
| FileOps.SetChild | src/lib/fileSystem.ts:122-132 | storing a child under a key and setting the parent's `modified`; stated by `SetChildEffect`, `SetChildFrame`, `SetChildKeeps` and `SetChildValid` |
| FileOps.SetChildEffect | src/lib/fileSystem.ts:122-130 | storing a child updates the parent's entry list and `modified` |
| FileOps.SetChildFrame | src/lib/fileSystem.ts:122-130 | storing a child changes nothing outside that key |
| FileOps.SetChildKeeps | src/lib/fileSystem.ts:122-130 | paths outside the stored child resolve as before |
| FileOps.SetChildValid | src/lib/fileSystem.ts:122-130 | storing a well-formed child keeps the tree well-formed |
| FileOps.ValuesAppend | src/lib/fileSystem.ts:210 | the listing of a directory with an appended entry ends with that entry |
| FileOps.CreateFileEffect | src/lib/fileSystem.ts:107-134 | the new file ends its parent's listing, reads back as its content with `size` its length, and the parent is modified now |
| FileOps.CreateDirectoryEffect | src/lib/fileSystem.ts:136-163 | the new directory ends its parent's entries and lists as empty |
| FileOps.CreateFrame | src/lib/fileSystem.ts:107-163 | a creation changes nothing outside the new key and keeps the tree well-formed |
| FileOps.DeleteEffect | src/lib/fileSystem.ts:165-178 | after a delete the entry is gone from its parent and no path through it resolves |
| FileOps.DeleteFrame | src/lib/fileSystem.ts:165-178 | a delete changes nothing outside the key and keeps the tree well-formed |
| FileOps.DeleteKeeps | src/lib/fileSystem.ts:165-178 | paths outside the deleted entry resolve as before |
| FileOps.WriteEffect | src/lib/fileSystem.ts:180-198 | after a write, reading gives the written text, `size` is its length and `modified` is now |
| FileOps.WriteFrame | src/lib/fileSystem.ts:180-190 | a write creates and removes no path, changes only the file and keeps the tree well-formed |
| FileOps.WriteTwice | src/lib/fileSystem.ts:180-190 | writing the same text twice is writing it once at the later time |
| FileOps.ReplaceTwice | src/lib/fileSystem.ts:122-130 | a second in-place update of a path overrides the first |
| FileOps.PutTwice | src/lib/fileSystem.ts:122 | a second assignment of a key overrides the first |
| FileOps.RenameEffect | src/lib/fileSystem.ts:213-229 | after a rename the node, with its `name` updated, ends the parent's entries under the new key, and the old key is gone |
| FileOps.RenameMoves | src/lib/fileSystem.ts:213-229 | everything below the renamed node is reached through the new name unchanged |
| FileOps.RenameGone | src/lib/fileSystem.ts:213-229 | nothing resolves through the old name any more |
| FileOps.RenameFrame | src/lib/fileSystem.ts:213-229 | a rename changes nothing outside the two keys and keeps the tree well-formed |
| FileOps.DeepCopy | src/lib/fileSystem.ts:243-261 | the copy `deepCopy` builds, recursively over the children; stated by `DeepCopySpec` |
| FileOps.CopyId | src/lib/fileSystem.ts:245 | the id template `<destination id>-<name>-<clock reading>`; `DeepCopySpec` proves every copied node carries it |
| FileOps.DeepCopySpec | src/lib/fileSystem.ts:243-261 | the copy has the source's shape and keys, every node carries the new id, name and time, and well-formedness carries over |
| FileOps.CopyEffect | src/lib/fileSystem.ts:231-266 | the destination holds the deep copy under `name`, overwriting in place or appending, and was modified now |
| FileOps.CopyFrame | src/lib/fileSystem.ts:231-266 | a copy changes nothing outside the destination key and keeps the tree well-formed |
| FileOps.MoveAt | src/lib/fileSystem.ts:268-277 | `copyNode` and, only when it succeeds, `deleteNode` of the source's last segment from the given parent; stated by `MoveDisjoint` and `MoveOntoItself` |
| FileOps.MoveDisjoint | src/lib/fileSystem.ts:268-277 | a move between unrelated places succeeds, leaves the copy at the destination and removes the source |
| FileOps.MoveOntoItself | src/lib/fileSystem.ts:268-277 | moving a node onto its own place under its own name deletes it |
| FileOps.InitialTree | src/lib/fileSystem.ts:14-83 | the seeded tree; stated by `InitialTreeSpec`, `UserDirectory`, `InitialWelcome` and `InitialDownloads` |
| FileOps.InitialTreeSpec | src/lib/fileSystem.ts:14-83 | the seeded tree is well-formed, and `/home/user` holds Documents, Downloads and Pictures in that order |
| FileOps.InitialTreeValid | src/lib/fileSystem.ts:14-83 | the seeded tree is well-formed |
| FileOps.UserDirectory | src/lib/fileSystem.ts:14-83 | `/home/user` is the seeded home directory node |
| FileOps.InitialWelcome | src/lib/fileSystem.ts:48-56 | welcome.txt reads as the welcome text, records size 200 and is 235 characters long |
| FileOps.InitialDownloads | src/lib/fileSystem.ts:14-83 | Downloads lists as empty |
| Vfs.FileSystem.constructor | src/lib/fileSystem.ts:6-12 | a saved tree is adopted as is; otherwise the seeded tree, which is well-formed |
| Vfs.FileSystem.ResolvePath | src/lib/fileSystem.ts:89-105 | the loop finds the node the path's segments lead to, and `/` or `""` give the root |
| Vfs.FileSystem.CreateFile | src/lib/fileSystem.ts:107-134 | the result and the new tree are those of `CreateFileAt`, and well-formedness is kept |
| Vfs.FileSystem.CreateDirectory | src/lib/fileSystem.ts:136-163 | the result and the new tree are those of `CreateDirectoryAt`, and well-formedness is kept |
| Vfs.FileSystem.DeleteNode | src/lib/fileSystem.ts:165-178 | the result and the new tree are those of `DeleteAt`, and well-formedness is kept |
| Vfs.FileSystem.WriteFile | src/lib/fileSystem.ts:180-190 | the result and the new tree are those of `WriteFileAt`, and well-formedness is kept |
| Vfs.FileSystem.ReadFile | src/lib/fileSystem.ts:192-198 | gives `ReadFileAt` of the current tree |
| Vfs.FileSystem.ListDirectory | src/lib/fileSystem.ts:200-211 | gives `ListDirectoryAt` of the current tree |
| Vfs.FileSystem.RenameNode | src/lib/fileSystem.ts:213-229 | the result and the new tree are those of `RenameAt`, and well-formedness is kept |
| Vfs.FileSystem.CopyNode | src/lib/fileSystem.ts:231-266 | the result and the new tree are those of `CopyAt`, and well-formedness is kept |
| Vfs.FileSystem.MoveNode | src/lib/fileSystem.ts:268-277 | the result and the new tree are those of `MoveAt`, and well-formedness is kept |
| Commands.ResolveArgParts | src/lib/terminalCommands.ts:81-98 | the six argument cases in order: absolute, `~`, `~/rest`, `..`, `.`, relative |
| Commands.ResolveArg | src/lib/terminalCommands.ts:81-98 | every argument but `.` resolves to a path string starting with `/` |
| Commands.HomeParts | src/lib/terminalCommands.ts:12-16 | HOME is `/home/user` |
| Commands.ResolveArgRelative | src/lib/terminalCommands.ts:97 | a plain name resolves to `joinPath(cwd, name)`, one segment below cwd, so `test` from HOME is `//home/user/test` |
| Commands.NameLeq | src/lib/terminalCommands.ts:116 | the code-point order on names standing in for `localeCompare`; `NameLeqTotal` proves it total |
| Commands.NameLeqTotal | src/lib/terminalCommands.ts:116 | the name order used to sort is total |
| Commands.ItemLeqTotal | src/lib/terminalCommands.ts:113-117 | the listing order, directories first and then by name, is total |
| Commands.ItemLeq | src/lib/terminalCommands.ts:113-117 | the `ls` comparator: directories before files, then by name; total by `ItemLeqTotal`, and `DirectoriesFirst` gives its meaning for a sorted listing |
| Commands.SortedCons | src/lib/terminalCommands.ts:113-117 | an item no greater than the head of a sorted list extends it |
| Commands.Insert | src/lib/terminalCommands.ts:113-117 | inserting adds exactly one item; `InsertSpec` proves the result sorted and a permutation |
| Commands.SortItems | src/lib/terminalCommands.ts:113-117 | sorting keeps the number of items; `SortItemsSpec` proves the result a sorted permutation |
| Commands.InsertSpec | src/lib/terminalCommands.ts:113-117 | insertion keeps a list sorted and adds exactly the one item |
| Commands.SortItemsSpec | src/lib/terminalCommands.ts:113-117 | sorting yields a sorted permutation of the items |
| Commands.DirectoriesFirst | src/lib/terminalCommands.ts:114-115 | in a sorted listing every item before a directory is a directory |
| Commands.RenderedAt | src/lib/terminalCommands.ts:118 | each item renders as its name, with `/` after directories |
| Commands.Render | src/lib/terminalCommands.ts:118 | an item shows as its name, with `/` after a directory; used through `RenderedAt` |
| Commands.Rendered | src/lib/terminalCommands.ts:118 | the `.map` over the sorted items; `RenderedAt` proves one rendering per item, in order |
| Commands.LsOutput | src/lib/terminalCommands.ts:100-122 | the result of `ls`; stated by `LsSpec` |
| Commands.LsSpec | src/lib/terminalCommands.ts:100-122 | `ls` fails iff its target is not a directory; an empty directory gives ""; otherwise a sorted permutation of the children, rendered and joined by two spaces |
| Commands.CdStep | src/lib/terminalCommands.ts:124-143 | the result of `cd` and the new directory; stated by `CdSpec` |
| Commands.CdSpec | src/lib/terminalCommands.ts:124-143 | no argument goes HOME; otherwise `cd` fails iff the target is not a directory, keeping cwd, and on success cwd becomes the resolved string |
| Commands.HistoryLines | src/lib/terminalCommands.ts:75 | one numbered line per history entry |
| Commands.Dispatch | src/lib/terminalCommands.ts:47-78 | the `switch` on the command word; what each case may change is stated by `DispatchFrame` |
| Commands.Classify | src/lib/terminalCommands.ts:47-78 | the `case` label a command word selects, `Unknown` for any other word; stated through `DispatchFrame`, `ExecUnknown` and `ExecFixedOutputs` |
| Commands.Exec | src/lib/terminalCommands.ts:35-79 | `execute` on a whole line; stated by `ExecHistory`, `ExecNonBlank`, `ExecFrame` and `ExecKeepsValid` |
| Commands.ExecHistory | src/lib/terminalCommands.ts:35-45 | blank input gives "" and changes nothing; other input is recorded trimmed, once, whatever the command does |
| Commands.LineSays | src/lib/terminalCommands.ts:43-47 | `cmd arg` dispatches to the command named `cmd` with the one argument `arg` |
| Commands.ExecNonBlank | src/lib/terminalCommands.ts:36-46 | a non-blank line is recorded trimmed and its first word selects the command run on the remaining words |
| Commands.DispatchFrame | src/lib/terminalCommands.ts:47-78 | within the `switch`, only mkdir, touch and rm change the tree, each to its step's result, and only cd the directory |
| Commands.ExecFrame | src/lib/terminalCommands.ts:47-78 | only mkdir, touch and rm change the tree, and only cd changes the directory |
| Commands.StepsKeepValid | src/lib/terminalCommands.ts:168-211 | mkdir, touch and rm keep the tree well-formed |
| Commands.ExecRoot | src/lib/terminalCommands.ts:58-63 | mkdir, touch and rm act with their arguments on the tree |
| Commands.ExecKeepsValid | src/lib/terminalCommands.ts:35-79 | every command line keeps the tree well-formed |
| Commands.EchoRoundTrip | src/lib/terminalCommands.ts:164-166 | echo prints its arguments joined by single spaces, which tokenise back to the arguments |
| Commands.ExecUnknown | src/lib/terminalCommands.ts:76-77 | an unknown command fails with the `Command not found` message and changes nothing but the history |
| Commands.ExecFixedOutputs | src/lib/terminalCommands.ts:52-73 | clear, pwd, whoami, hostname, help and date print `CLEAR`, cwd, `user`, `webos`, the help text and the date, and change nothing but the history |
| Commands.CatOutput | src/lib/terminalCommands.ts:149-162 | the result of `cat`; stated by `CatSpec` |
| Commands.MkdirStep | src/lib/terminalCommands.ts:168-181 | the result of `mkdir` and the new tree; stated by `StepOutcomes` |
| Commands.TouchStep | src/lib/terminalCommands.ts:183-196 | the result of `touch` and the new tree; stated by `StepOutcomes` |
| Commands.RmStep | src/lib/terminalCommands.ts:198-211 | the result of `rm` and the new tree; stated by `StepOutcomes` |
| Commands.CatSpec | src/lib/terminalCommands.ts:149-162 | no argument is an error; otherwise `cat` fails iff its first argument names no file, and otherwise prints the content |
| Commands.StepOutcomes | src/lib/terminalCommands.ts:168-211 | mkdir, touch and rm need an operand and use only the first; they fail iff the directory cannot take or does not hold the name among its own entries; failures leave the tree; success prints "" |
| Commands.HistoryListsItself | src/lib/terminalCommands.ts:74-75 | `history` lists every entry numbered from 1, the `history` line itself last |
| Commands.MkdirThenCd | src/lib/terminalCommands.ts:124-181 | after a successful `mkdir name`, `cd name` succeeds into an empty directory |
| Commands.TouchThenCat | src/lib/terminalCommands.ts:149-196 | after a successful `touch name`, `cat name` prints "" |
| Commands.RmThenGone | src/lib/terminalCommands.ts:124-211 | after a successful `rm name`, both `cat name` and `cd name` fail |
| Commands.RmGone | src/lib/terminalCommands.ts:198-211 | after `rm name` nothing resolves at the name, so cat and cd fail |
| Commands.CdIntoName | src/lib/terminalCommands.ts:124-143 | a successful `cd name` moves one directory down, to `joinPath(cwd, name)` |
| Commands.CdUp | src/lib/terminalCommands.ts:124-143 | `cd ..` succeeds when the parent exists, and drops the last segment |
| Commands.CdRoundTrip | src/lib/terminalCommands.ts:124-143 | `cd name` then `cd ..` returns to the same directory |
| Commands.CdThereAndBack | src/lib/terminalCommands.ts:35-143 | the same round trip, as two command lines |
| Shell.TerminalCommands.constructor | src/lib/terminalCommands.ts:18-21 | the interpreter starts on the shared tree at the given path with empty history |
| Shell.TerminalCommands.SetPath | src/lib/terminalCommands.ts:23-25 | sets the directory and keeps the history |
| Shell.TerminalCommands.GetPath | src/lib/terminalCommands.ts:27-29 | gives the directory |
| Shell.TerminalCommands.GetHistory | src/lib/terminalCommands.ts:31-33 | gives the history |
| Shell.TerminalCommands.Execute | src/lib/terminalCommands.ts:35-79 | the result and the new directory, history and tree are those of `Exec` |
| Shell.TerminalCommands.Ls | src/lib/terminalCommands.ts:100-122 | gives the listing of `LsOutput` |
| Shell.TerminalCommands.Cd | src/lib/terminalCommands.ts:124-143 | result and new directory as `CdStep`; the history is kept |
| Shell.TerminalCommands.Cat | src/lib/terminalCommands.ts:149-162 | gives the output of `CatOutput` |
| Shell.TerminalCommands.Mkdir | src/lib/terminalCommands.ts:168-181 | result and new tree as `MkdirStep` |
| Shell.TerminalCommands.Touch | src/lib/terminalCommands.ts:183-196 | result and new tree as `TouchStep` |
| Shell.TerminalCommands.Rm | src/lib/terminalCommands.ts:198-211 | result and new tree as `RmStep` |
| Windows.AddWindow | src/lib/DesktopContext.tsx:55-71 | at ten windows nothing changes; otherwise one window with the given id and z = counter is appended, the others are kept and the counter goes up by one |
| Windows.RemoveWindow | src/lib/DesktopContext.tsx:73-76 | exactly the windows with other ids remain |
| Windows.UpdateWindow | src/lib/DesktopContext.tsx:78-82 | the patch is merged into the matching windows only; the length and the others are kept |
| Windows.Toggle | src/lib/DesktopContext.tsx:98-108 | one flag flips on the matching windows only; the length and the others are kept |
| Windows.Toggled | src/lib/DesktopContext.tsx:100-106 | one window with one flag flipped; `ToggleTwice` proves flipping twice restores the list |
| Windows.Find | src/lib/DesktopContext.tsx:86 | a found window has the id |
| Windows.FindFirst | src/lib/DesktopContext.tsx:86 | nothing is found iff no window has the id; otherwise the first such window is found |
| Windows.MaxZ | src/lib/DesktopContext.tsx:89 | no window's z exceeds the maximum |
| Windows.MaxZAttained | src/lib/DesktopContext.tsx:89 | some window has the maximum z |
| Windows.FocusWindow | src/lib/DesktopContext.tsx:84-96 | focusing keeps the number of windows |
| Windows.RemoveAppend | src/lib/DesktopContext.tsx:74 | removal distributes over concatenation |
| Windows.RemoveAbsent | src/lib/DesktopContext.tsx:74 | removing an unknown id changes nothing |
| Windows.AddThenRemove | src/lib/DesktopContext.tsx:55-76 | closing a just-opened window with a fresh id restores the list |
| Windows.UpdateAbsent | src/lib/DesktopContext.tsx:78-82 | updating an unknown id changes nothing |
| Windows.ToggleTwice | src/lib/DesktopContext.tsx:98-108 | toggling a flag twice restores the list |
| Windows.FocusNoop | src/lib/DesktopContext.tsx:84-96 | focusing changes nothing iff the id is unknown or already has the maximum z |
| Windows.RaiseAbove | src/lib/DesktopContext.tsx:92-94 | raising to a z above all others makes the window strictly topmost and not minimised |
| Windows.Raise | src/lib/DesktopContext.tsx:93 | the patch `{zIndex: maxZ + 1, minimized: false}` focusing applies; stated by `RaiseAbove` and `FocusRaises` |
| Windows.FocusIsRaise | src/lib/DesktopContext.tsx:89-94 | focusing a window below the top raises it to the maximum plus one |
| Windows.FocusRaises | src/lib/DesktopContext.tsx:84-96 | a focused window becomes strictly topmost and not minimised; the other windows are unchanged |
| Windows.FocusIdempotent | src/lib/DesktopContext.tsx:84-96 | focusing twice is focusing once |
| Windows.FocusThenAddCollides | src/lib/DesktopContext.tsx:55-96 | focusing does not advance the counter, so a later window can get the focused window's z |
| Windows.Merge | src/lib/DesktopContext.tsx:80 | `{...w, ...p}`: each field the patch carries replaces the window's; used by `UpdateWindow` |
| Windows.Opened | src/lib/DesktopContext.tsx:61-66 | the new window: the caller's data with the desktop's id and z; used by `AddWindow` |
| Desktop.RestartSequence | src/lib/DesktopContext.tsx:116-126 | restart closes all windows, saves and shows shutdown, then booting after 500 ms, then running 2000 ms later |
| Desktop.BootSequence | src/lib/DesktopContext.tsx:136-141 | boot shows booting and then running when its timer fires, with the windows kept |
| Desktop.PendingBootWins | src/lib/DesktopContext.tsx:110-141 | a shutdown or sleep during booting is overridden by running when the boot timer fires |
| Desktop.BootStep | src/lib/DesktopContext.tsx:136-141 | `boot`: booting, with a timer to run 2000 ms later; stated by `BootSequence` |
| Desktop.ShutdownStep | src/lib/DesktopContext.tsx:110-114 | `shutdown`: saves, closes every window, shows shutdown, and cancels no timer; stated by `PendingBootWins` |
| Desktop.RestartStep | src/lib/DesktopContext.tsx:116-126 | `restart`: a shutdown with a timer to boot 500 ms later; stated by `RestartSequence` |
| Desktop.SleepStep | src/lib/DesktopContext.tsx:128-130 | `sleep`: sleeping from any state, timers kept; stated by `PendingBootWins` |
| Desktop.WakeUpStep | src/lib/DesktopContext.tsx:132-134 | `wakeUp`: running from any state |
| Desktop.FireStep | src/lib/DesktopContext.tsx:120-140 | the earliest timer runs and leaves the queue; the restart's timer schedules the boot's completion; stated by `RestartSequence` and `BootSequence` |
| Desktop.Session.constructor | src/lib/DesktopContext.tsx:39-44 | the file system is built from the stored tree or seeded; no windows, counter 1000, HOME, booting, and the mount effect's boot timer pending |
| Desktop.Session.SaveFileSystem | src/lib/DesktopContext.tsx:46-53 | the store receives the current tree; nothing else changes |
| Desktop.Session.SetCurrentPath | src/lib/DesktopContext.tsx:43 | sets the shared directory only |
| Desktop.Session.AddWindow | src/lib/DesktopContext.tsx:55-71 | the windows and counter become those of `AddWindow`, within the cap |
| Desktop.Session.RemoveWindow | src/lib/DesktopContext.tsx:73-76 | removes the window and saves the tree |
| Desktop.Session.UpdateWindow | src/lib/DesktopContext.tsx:78-82 | applies `UpdateWindow` to the windows only |
| Desktop.Session.FocusWindow | src/lib/DesktopContext.tsx:84-96 | applies `FocusWindow` to the windows only |
| Desktop.Session.MinimizeWindow | src/lib/DesktopContext.tsx:98-102 | toggles `minimized` on the window only |
| Desktop.Session.MaximizeWindow | src/lib/DesktopContext.tsx:104-108 | toggles `maximized` on the window only |
| Desktop.Session.ShutDown | src/lib/DesktopContext.tsx:110-114 | saves, closes every window, shows shutdown |
| Desktop.Session.Restart | src/lib/DesktopContext.tsx:116-126 | as shutdown, with the boot scheduled 500 ms later |
| Desktop.Session.Sleep | src/lib/DesktopContext.tsx:128-130 | shows sleeping from any state |
| Desktop.Session.WakeUp | src/lib/DesktopContext.tsx:132-134 | shows running from any state |
| Desktop.Session.Boot | src/lib/DesktopContext.tsx:136-141 | shows booting and schedules running 2000 ms later |
| Desktop.Session.Fire | src/lib/DesktopContext.tsx:120-125 | the earliest timer runs and leaves the queue; the restart's timer schedules the boot's completion |
| TerminalApp.Shown | src/components/apps/Terminal.tsx:38-49 | output `CLEAR` empties the screen, echo included; otherwise the echo line follows the old lines, then any non-empty output as one line marked as an error exactly for errors |
| TerminalApp.Echoed | src/components/apps/Terminal.tsx:38 | the echo line: directory, ` $ `, then the command as typed |
| TerminalApp.EchoClearClears | src/components/apps/Terminal.tsx:42-43 | `echo CLEAR` clears the screen |
| TerminalApp.Up | src/components/apps/Terminal.tsx:69-74 | ArrowUp keeps the cursor in range and, with history present, lands on an entry |
| TerminalApp.Down | src/components/apps/Terminal.tsx:75-86 | ArrowDown keeps the cursor in range |
| TerminalApp.DownUndoesUp | src/components/apps/Terminal.tsx:66-87 | ArrowDown undoes ArrowUp except at the oldest entry, where ArrowUp stays |
| TerminalApp.Ups | src/components/apps/Terminal.tsx:69-74 | repeated ArrowUp presses keep the cursor in range; `UpsWalkBack` says where it lands |
| TerminalApp.UpsWalkBack | src/components/apps/Terminal.tsx:69-74 | k presses of ArrowUp show the k-th most recent entry, stopping at the oldest |
| TerminalApp.TerminalView.constructor | src/components/apps/Terminal.tsx:13-22 | the banner, an empty prompt, no browsing, and an interpreter on the desktop's tree and directory |
| TerminalApp.TerminalView.PathChanged | src/components/apps/Terminal.tsx:24-26 | the interpreter follows the desktop's directory |
| TerminalApp.TerminalView.SetInput | src/components/apps/Terminal.tsx:116 | typing changes only the prompt |
| TerminalApp.TerminalView.ExecuteCommand | src/components/apps/Terminal.tsx:37-55 | the interpreter steps as `Exec`, the screen becomes `Shown`, and the desktop takes the interpreter's directory |
| TerminalApp.TerminalView.HandleSubmit | src/components/apps/Terminal.tsx:57-64 | blank input changes nothing; otherwise the command runs and the prompt and cursor reset |
| TerminalApp.TerminalView.ArrowUp | src/components/apps/Terminal.tsx:66-74 | the cursor moves as `Up` and the prompt shows that entry |
| TerminalApp.TerminalView.ArrowDown | src/components/apps/Terminal.tsx:75-86 | the cursor moves as `Down` and the prompt shows that entry, or "" past the newest |
| BrowserApp.WithScheme | src/components/apps/Browser.tsx:16 | text starting with `http` is kept; anything else gets `https://` in front |
| BrowserApp.Visit | src/components/apps/Browser.tsx:14-29 | a URL that does not parse changes nothing |
| BrowserApp.NavigateSpec | src/components/apps/Browser.tsx:14-29 | a navigation keeps the history up to the cursor, appends the URL, ends at the newest entry and shows it in both places |
| BrowserApp.NavigateDropsForward | src/components/apps/Browser.tsx:21-22 | after a navigation there is nothing to go forward to |
| BrowserApp.Back | src/components/apps/Browser.tsx:36-44 | going back keeps the history and a valid cursor |
| BrowserApp.Forward | src/components/apps/Browser.tsx:46-54 | going forward keeps the history and a valid cursor |
| BrowserApp.MovesKeepValid | src/components/apps/Browser.tsx:36-54 | back and forward keep the cursor valid and the history unchanged, and are no-ops exactly at the ends |
| BrowserApp.BackThenForward | src/components/apps/Browser.tsx:36-54 | back then forward returns to the page shown |
| BrowserApp.ForwardThenBack | src/components/apps/Browser.tsx:36-54 | forward then back returns to the page shown |
| BrowserApp.BrowserView.constructor | src/components/apps/Browser.tsx:8-11 | starts on the home page with a one-entry history |
| BrowserApp.BrowserView.SetUrl | src/components/apps/Browser.tsx:88 | typing changes only the address bar |
| BrowserApp.BrowserView.Navigate | src/components/apps/Browser.tsx:14-29 | the state becomes that of `Visit` and the cursor stays valid |
| BrowserApp.BrowserView.HandleSubmit | src/components/apps/Browser.tsx:31-34 | navigates to the address bar's text |
| BrowserApp.BrowserView.GoBack | src/components/apps/Browser.tsx:36-44 | the state becomes that of `Back` |
| BrowserApp.BrowserView.GoForward | src/components/apps/Browser.tsx:46-54 | the state becomes that of `Forward` |
| BrowserApp.BrowserView.GoHome | src/components/apps/Browser.tsx:61-63 | navigates to the home page |

## Left out

- Real time. `setTimeout` and `setInterval` become explicit pending timers that the event loop fires earliest first. The order of two timers due at the same instant is left open.
- The five-second save interval is `Desktop.Session.SaveFileSystem`, which the event loop may call at any time. The key/value store itself is foreign code; only the last tree handed to it is kept.
- Clock readings, random window ids and the `date` text are parameters with no claims about their values. Each file-system operation takes one clock reading. `deepCopy` reads the clock once per node, so its nodes may differ in time and, since the id embeds the reading, in id; the model stamps one instant, and so one id, on the whole copy.
- `localeCompare` in `ls` is replaced by code-point order on names (`Commands.NameLeq`). Locale collation is foreign.
- `Object.values` orders integer-like keys first in JavaScript. The model lists children in plain insertion order.
- URL parsing and normalisation by `new URL` is a parameter that may reject its input. The error toast is left out.
- The browser's `loading` flag and `refresh` only drive a spinner through timers, so they are not modelled.
- The window `data` field holds opaque app data and is not modelled.
- React batching and stale closures are not modelled. Each handler runs as one atomic step on the current state.
- The terminal's scroll effect, focus handling and all rendering are not modelled.
- The other apps are not modelled: the calculator (floating point), settings, file manager, text editor and media player. The file manager and text editor only call the modelled file operations.
- An absent `content` or `children` field is modelled as the empty string or the empty list, which `readFile` and `listDirectory` treat the same way.
- Windows.FocusWindow: its own contract states only that the number of windows is kept; the effect is stated by `Windows.FocusNoop`, `Windows.FocusRaises` and `Windows.FocusIdempotent`.
- BrowserApp.Visit: its own contract covers only the rejected URL; the accepted case is stated by `BrowserApp.NavigateSpec`.
- Strings are sequences of Unicode code points. JavaScript strings are sequences of UTF-16 code units, so `length` and any order by code units are not modelled: a character outside the Basic Multilingual Plane counts 1 here and 2 in the source.
- FileOps.CreateFileEffect: `size` is the content's length in code points, where `content.length` in the source counts UTF-16 code units.
- FileOps.WriteEffect: `size` is the content's length in code points, where `content.length` in the source counts UTF-16 code units.
- Names that JavaScript objects inherit. A directory's children are a plain object, and `children[name]` also finds the properties every object inherits (`constructor`, `toString`, `valueOf`, `hasOwnProperty`, `__proto__` and the others), even in an empty directory. The model looks only at a directory's own entries, so every operation below behaves as the source does only for names that are not inherited. The `Vfs.FileSystem` methods and the command lemmas built on these functions share the restriction.
- Tree.Lookup: an inherited name counts as absent, where the source's lookup finds a value that is neither a file nor a directory.
- Tree.Resolve: a path through an inherited name resolves to nothing, where the source reaches that value; `cd valueOf` prints "Not a directory" in the source and "No such file or directory" in the model.
- FileOps.CreateFileAt: with an inherited name the source finds the name taken and fails, so `touch constructor` prints "File exists"; the model creates the file.
- FileOps.CreateDirectoryAt: with an inherited name the source fails as for a taken name; the model creates the directory.
- FileOps.DeleteAt: with an inherited name the source deletes nothing, sets the parent's `modified` and returns true, so `rm toString` prints nothing; the model fails and leaves the tree unchanged.
- FileOps.RenameAt: an inherited new name makes the source fail, and an inherited old name makes it act on the inherited value; the model treats both names as absent.
- FileOps.CopyAt: a copy stored under `__proto__` replaces the destination object's prototype in the source instead of adding an entry; the model adds an entry.
- Commands.StepOutcomes: `mkdir`, `touch` and `rm` with an inherited name behave as in the `FileOps` lines above, so "fail iff the directory cannot take or does not hold the name" holds of the source only for names that are not inherited.
- Commands.CdStep: `cd` to an inherited name prints "Not a directory" in the source and "No such file or directory" in the model.
