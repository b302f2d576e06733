# File-tree scripts, modelled in Dafny

Two variants of one interactive script write a directory tree as indented
text lines. `file-tree-maker-v5.py` writes to `file_list.txt` and a PDF.
`create-file-tree.py` writes to `file_list.txt`, or to the first free
`file_list-NN.txt` when that name is already taken.

Both scripts work the same way:

- The user picks a root directory.
- Once, the user is asked whether image sequences should be condensed:
  `y` means condense, anything else means list every file.
- The tree is walked from indent `"  "`:
  - each level lists its visible subdirectories first, in sorted order, each followed by its own walk two spaces deeper;
  - it then lists its visible files.
- The lines are written to the output file.
- Two leading spaces are stripped from every line that has them.

A name is hidden when it starts with `.`, is `.DS_Store`, or is one of the
script's output names. Those are `file_list.txt` and `file_list.pdf` in v5,
and only `file_list.txt` in create-file-tree.

The files of one level are listed in one of two modes.

**List-all mode.** Every file gets one line. In v5, a `.zip` file shows its
archive entries under it, or a `[Corrupted ZIP]` marker.

**Condensed mode.** A name such as `shot.0001.exr` matches the frame pattern
`(.*?)(\d{4})\.(\w+)$`. Matching names are grouped by `(base, ext)` in order
of first appearance, and each group becomes one line
`base[image sequence].ext`.

- v5 condenses only groups with two or more files. A single-file group is
  listed like any other file, after the condensed lines, in sorted order.
- create-file-tree condenses every group, and lists the non-matching names
  after the condensed lines, in listing order.

The model has these parts:

- **The directory tree.** It is a datatype (`FileSystem.Node`).
  - A `Dir` carries a `found` flag. It is false when the directory's
    listing raises `FileNotFoundError` during the walk.
  - A `File` carries what `zipfile` finds in it (`FileSystem.Archive`).
- **`output_lines`.** It is the class `Output.LineBuffer`, whose `lines`
  field every listing method appends to.
- **Listing methods.** Each function of the scripts that appends to
  `output_lines` is a method. Each method is proved to append exactly the
  lines of a pure rendering function:
  - `Walk.Render` and `Walk.RenderDirs` for the walk;
  - `TreeMakerV5.FileOrZipLines`, `TreeMakerV5.CondensedListing` and
    `CreateFileTree.CondensedListing` for one level's files.
- **Lemmas.** The properties of the scripts are lemmas about these
  functions:
  - hidden names never show, at any depth;
  - directories come before files;
  - how each frame group and each file is listed;
  - the indent pass equals a walk from indent `""`;
  - the choice is made once;
  - the output name is free.

Modules:

- `Strings`: prefix and suffix tests, ASCII `\d` and `\w`, Python's
  code-point order on `str`.
- `FileSystem`: the tree, and `sorted` as an insertion sort by name.
- `Listing`: the hidden-name test, the split of a sorted listing into
  directories and files, and pruning of hidden entries.
- `FramePattern`: the frame pattern as a unique split of a name, grouping in
  first-appearance order, and the condensed line.
- `Output`: `output_lines`, and the indent pass.
- `Session`: the y/n choice.
- `Decimal`: `int(...)`, `str(...)` and `:02d`.
- `TreeMakerV5`: the file lister of file-tree-maker-v5.py and its fixed
  output name.
- `CreateFileTree`: the file lister of create-file-tree.py and its unique
  output name.
- `Walk`: `list_directory_as_tree` for either script, chosen by
  `Walk.Script`, and one pass of `run_script`.

## Model

| member | source | states |
|---|---|---|
| Strings.NameLeTotal | file-tree-maker-v5.py:16 | any two names are ordered one way or the other by Python's string order |
| Strings.NameLeTransitive | file-tree-maker-v5.py:16 | Python's string order is transitive |
| Strings.NameLeAntisymmetric | file-tree-maker-v5.py:16 | two names ordered both ways are equal |
| FileSystem.SortByNamePermutes | file-tree-maker-v5.py:16 | `sorted` returns a permutation of the listing (same multiset) |
| FileSystem.SortByNameSorted | file-tree-maker-v5.py:16 | `sorted` returns the entries in ascending name order |
| FileSystem.SortByNameMembers | create-file-tree.py:14 | an entry is in the sorted listing exactly when it is in the listing |
| FileSystem.InsertByNamePermutes | file-tree-maker-v5.py:16 | one insertion step adds exactly the inserted entry |
| FileSystem.InsertByNameSorted | file-tree-maker-v5.py:16 | inserting into a sorted listing keeps it sorted |
| Listing.SplitEntries | file-tree-maker-v5.py:22-33 | the entry loop returns `dirs` and `files` equal to the non-hidden directories and the non-hidden files of the listing, each in listing order |
| Listing.PartitionStep | file-tree-maker-v5.py:26-33 | one iteration appends the entry to `dirs` if it is a visible directory, to `files` if it is a visible file, and to neither if it is hidden |
| Listing.SubdirsMembers | file-tree-maker-v5.py:26-31 | an entry is in `dirs` exactly when it is in the listing, is a directory and is not hidden (both directions) |
| Listing.FilesMembers | file-tree-maker-v5.py:26-33 | an entry is in `files` exactly when it is in the listing, is a file and is not hidden (both directions) |
| Listing.VisibleEntries | create-file-tree.py:24-31 | for a directory's sorted listing, membership in `dirs` and `files` is exactly "visible directory" and "visible file" |
| Listing.SubdirsSorted | file-tree-maker-v5.py:26-31 | filtering a sorted listing keeps `dirs` sorted |
| Listing.FilesSorted | file-tree-maker-v5.py:26-33 | filtering a sorted listing keeps `files` sorted |
| Listing.ListingSorted | create-file-tree.py:14-31 | the `dirs` and `files` of a level are both in sorted order |
| Listing.SortPruneAll | file-tree-maker-v5.py:16-28 | sorting and then dropping hidden entries gives the same list as dropping them and then sorting |
| Listing.SubdirsPruneAll | file-tree-maker-v5.py:26-31 | after the hidden entries are pruned, `dirs` has the same length and holds the pruned subdirectories in the same order |
| Listing.FilesPruneAll | file-tree-maker-v5.py:26-33 | pruning hidden entries leaves `files` unchanged |
| Listing.PruneListing | create-file-tree.py:24-31 | a level's `dirs` and `files` after pruning are the pruned `dirs` and the same `files` |
| Listing.PruneAllMembers | file-tree-maker-v5.py:26-28 | every entry left by pruning is visible and is the pruned form of an original entry |
| Listing.PruneHidesSkipped | file-tree-maker-v5.py:26-28 | the pruned tree contains no hidden name at any depth |
| FramePattern.LastDotExact | file-tree-maker-v5.py:55 | the split point is a dot with no dot after it, or there is no dot at all (`\w` excludes `.`) |
| FramePattern.SplitFrameSound | file-tree-maker-v5.py:55-64 | when the pattern matches, the name is `base + 4 digits + "." + ext` with ext non-empty word characters |
| FramePattern.SplitFrameComplete | create-file-tree.py:53-62 | any split of a name as `base + 4 digits + "." + word chars` is the one the pattern returns |
| FramePattern.SplitFrameMatches | file-tree-maker-v5.py:55-63 | the pattern matches exactly when such a split exists (both directions) |
| FramePattern.MembersExact | file-tree-maker-v5.py:61-65 | a file is in the list of key `(base, ext)` exactly when it matches with that key |
| FramePattern.UnmatchedExact | file-tree-maker-v5.py:61-67 | a file is put in `other_files` by the first loop exactly when it does not match |
| FramePattern.FilesPartition | create-file-tree.py:59-65 | each file is either unmatched or a member of exactly its own key's group |
| FramePattern.GroupOrderDistinct | file-tree-maker-v5.py:65-71 | the dictionary's keys are iterated without repetition |
| FramePattern.GroupOrderKeys | file-tree-maker-v5.py:65-71 | a key is iterated exactly when at least one file matched with it, and every key's extension is non-empty word characters |
| FramePattern.GroupStep | file-tree-maker-v5.py:61-67 | one iteration either appends to `other_files` or appends to the key's list, inserting the key last when it is new |
| FramePattern.GroupsAt | file-tree-maker-v5.py:54-65 | the `defaultdict(list)` has exactly the iterated keys, each holding all of its matching files in listing order |
| FramePattern.GroupOrderPrefix | file-tree-maker-v5.py:65 | later files never reorder the keys already inserted (first-appearance order) |
| FramePattern.SequenceLineInjective | file-tree-maker-v5.py:73 | two different keys never produce the same condensed line |
| FramePattern.DottedBaseExample | file-tree-maker-v5.py:55-73 | `a.0001.exr` matches with base `a.` and ext `exr`, and its condensed line is `a.[image sequence].exr` |
| Output.LineBuffer.constructor | file-tree-maker-v5.py:217 | a new `output_lines` is empty |
| Output.LineBuffer.Append | file-tree-maker-v5.py:40 | `append` adds the line at the end and changes nothing else |
| Output.AdjustLine | file-tree-maker-v5.py:146 | a line starting with two spaces is those two spaces plus the result; any other line is returned unchanged |
| Output.AdjustIndentation | create-file-tree.py:115 | the indent pass keeps the number of lines, removes exactly two leading spaces from each line that has them, and keeps every other line |
| Output.AdjustUndoesPrefix | file-tree-maker-v5.py:146 | stripping two spaces from lines that were all given two extra spaces gives back the original lines |
| Output.AdjustKeepsUnindented | create-file-tree.py:115 | a line that does not start with two spaces survives any number of indent passes unchanged |
| Session.StripLeft | file-tree-maker-v5.py:204 | `lstrip` removes exactly the leading whitespace |
| Session.StripRight | file-tree-maker-v5.py:204 | `rstrip` removes exactly the trailing whitespace |
| Session.NextChoice | file-tree-maker-v5.py:202-214 | a choice already made is kept; otherwise the choice is condensed (`list_all_files = False`) exactly when the normalised answer is `y`, and list-all for `n` or anything else |
| Session.ChoiceSetOnce | create-file-tree.py:136-148 | once the choice is made, no later pass changes it, whatever is answered |
| Session.FirstAnswerDecides | file-tree-maker-v5.py:199-214 | over many passes, the choice is decided by the answer of the first pass whose path exists |
| Session.UpperCaseYes | create-file-tree.py:138-143 | the answer `" Y \n"` is normalised to `y` and selects condensed mode |
| Decimal.TextCanonical | create-file-tree.py:101 | `str(n)` starts with `0` exactly when n is 0, and is one digit exactly when n < 10; with `ValueText` this pins the text |
| Decimal.Pad2Canonical | create-file-tree.py:101 | `:02d` gives exactly two digits below 100 and no leading zero when longer; with `ValuePad2` this pins the text |
| Decimal.Pad2Digits | create-file-tree.py:101 | below 100, `:02d` is the tens digit followed by the units digit, so counter 2 gives `02` |
| Decimal.ValueText | create-file-tree.py:63 | `int(str(n)) == n` |
| Decimal.ValueLeadingZero | create-file-tree.py:63 | `int` ignores a leading zero, as in frame `0007` |
| Decimal.ValuePad2 | create-file-tree.py:101 | reading back the `:02d` text gives the counter |
| Decimal.Pad2Injective | create-file-tree.py:101 | different counters give different `:02d` texts |
| TreeMakerV5.FileOrZipOutcomes | file-tree-maker-v5.py:94-114 | a non-zip name gives `indent + name`; a readable zip gives a header line and then one line per entry; a corrupted zip gives exactly one line with the `[Corrupted ZIP]` marker |
| TreeMakerV5.ListFileOrZip | file-tree-maker-v5.py:94-114 | `list_file_or_zip` appends exactly the file's lines to `output_lines` |
| TreeMakerV5.FileOrZipBlockStep | file-tree-maker-v5.py:89-90 | listing one more file appends exactly that file's lines |
| TreeMakerV5.ListAllFiles | file-tree-maker-v5.py:87-90 | `list_all_files_func` appends each file's lines in listing order |
| TreeMakerV5.GroupFrames | file-tree-maker-v5.py:54-67 | the first loop builds the key order, the dictionary of groups and the unmatched `other_files` |
| TreeMakerV5.EmitStep | file-tree-maker-v5.py:71-78 | one key adds one condensed line when its group has 2 or more files; otherwise it adds no line and moves its single file to `other_files` |
| TreeMakerV5.EmitGroup | file-tree-maker-v5.py:72-78 | one iteration of the second loop keeps `output_lines` and `other_files` equal to their specification after one more key |
| TreeMakerV5.EmitGroups | file-tree-maker-v5.py:71-78 | the second loop appends the condensed lines of all keys and extends `other_files` with all single-file groups |
| TreeMakerV5.FormatImageSequences | file-tree-maker-v5.py:52-83 | `format_image_sequences` appends the condensed lines in first-appearance order, then the lines of all other files in sorted order |
| TreeMakerV5.SingletonsIn | file-tree-maker-v5.py:76-78 | every file moved to `other_files` by the second loop is one of the level's files |
| TreeMakerV5.SingletonsExact | file-tree-maker-v5.py:71-78 | a file is moved to `other_files` by the second loop exactly when it matches and its group has one file |
| TreeMakerV5.CondensedFile | file-tree-maker-v5.py:61-83 | a file is listed individually exactly when it does not match or is alone in its group; a matching file's group line appears exactly when the group has 2 or more files |
| TreeMakerV5.CondensedLinesLength | file-tree-maker-v5.py:71-75 | there is one condensed line per group with 2 or more files |
| TreeMakerV5.CondensedLinesAt | file-tree-maker-v5.py:71-75 | a group with 2 or more files has its line at the position given by the number of such groups before it |
| TreeMakerV5.CondensedOrder | file-tree-maker-v5.py:71-75 | condensed lines appear in the order their groups were first met |
| TreeMakerV5.CondensedLinesFrom | file-tree-maker-v5.py:71-75 | every condensed line is the line of a group with 2 or more files |
| TreeMakerV5.CondensedLinesDistinct | file-tree-maker-v5.py:71-75 | no condensed line is written twice |
| TreeMakerV5.DistinctKeysLines | file-tree-maker-v5.py:73 | distinct keys give distinct condensed lines |
| TreeMakerV5.ZipEntryLinesShift | file-tree-maker-v5.py:104 | archive entry lines at a deeper indent are the same lines with the extra indent in front |
| TreeMakerV5.FileOrZipLinesShift | file-tree-maker-v5.py:94-114 | a file's lines at a deeper indent are the same lines with the extra indent in front |
| TreeMakerV5.FileOrZipBlockShift | file-tree-maker-v5.py:87-90 | the list-all lines at a deeper indent carry the extra indent in front |
| TreeMakerV5.CondensedLinesShift | file-tree-maker-v5.py:73 | condensed lines at a deeper indent carry the extra indent in front |
| TreeMakerV5.FileLinesShift | file-tree-maker-v5.py:45-48 | a level's file lines, in either mode, at a deeper indent carry the extra indent in front |
| TreeMakerV5.OutputFile | file-tree-maker-v5.py:133-135 | the fixed output name is one the walk skips |
| CreateFileTree.NameLines | create-file-tree.py:83-88 | one line per file |
| CreateFileTree.NameLinesAt | create-file-tree.py:85-88 | the i-th line is `indent + name` of the i-th file |
| CreateFileTree.NameLinesStep | create-file-tree.py:85-88 | one more file appends exactly `indent + name` |
| CreateFileTree.ListAllFiles | create-file-tree.py:83-88 | `list_all_files_func` appends `indent + name` for each file, in listing order |
| CreateFileTree.FrameSetsStep | create-file-tree.py:59-65 | one iteration adds the frame number to its key's set, creating the key when it is new |
| CreateFileTree.FramesOfStep | create-file-tree.py:63 | one more file adds its frame number to exactly its own key's set |
| CreateFileTree.FrameSetsAt | create-file-tree.py:52-63 | the `defaultdict(set)` has exactly the keys met, each holding the `int` frame numbers of its matching files |
| CreateFileTree.GroupFrames | create-file-tree.py:52-65 | the first loop builds the key order, the frame-number sets and the unmatched `other_files` |
| CreateFileTree.SequenceLines | create-file-tree.py:69-72 | one condensed line per key |
| CreateFileTree.SequenceLinesAt | create-file-tree.py:69-72 | the i-th condensed line is the line of the i-th key |
| CreateFileTree.SequenceLinesStep | create-file-tree.py:69-72 | one more key appends exactly its condensed line |
| CreateFileTree.EmitGroups | create-file-tree.py:69-72 | the second loop appends one condensed line per key, in first-appearance order |
| CreateFileTree.FormatImageSequences | create-file-tree.py:50-79 | `format_image_sequences` appends the condensed lines, then `indent + name` for each non-matching file in listing order |
| CreateFileTree.CondensedFile | create-file-tree.py:59-79 | a file is listed individually exactly when it does not match; a matching file's group line is always listed, even for a one-file group |
| CreateFileTree.GroupLineListed | create-file-tree.py:69-72 | every matching file's group line is among the condensed lines |
| CreateFileTree.UnmatchedListed | create-file-tree.py:76-79 | every non-matching file's `indent + name` line is listed |
| CreateFileTree.CondensedLinesDistinct | create-file-tree.py:69-72 | no condensed line is written twice |
| CreateFileTree.CondensedListingLength | create-file-tree.py:50-79 | condensed mode writes one line per group plus one per non-matching file |
| CreateFileTree.NameLinesShift | create-file-tree.py:86 | list-all lines at a deeper indent carry the extra indent in front |
| CreateFileTree.SequenceLinesShift | create-file-tree.py:70 | condensed lines at a deeper indent carry the extra indent in front |
| CreateFileTree.FileLinesShift | create-file-tree.py:43-46 | a level's file lines, in either mode, at a deeper indent carry the extra indent in front |
| CreateFileTree.FirstNumberedName | create-file-tree.py:99-101 | the first numbered name tried is `file_list-02.txt` |
| CreateFileTree.NumberedNameInjective | create-file-tree.py:101 | different counters give different `file_list-NN.txt` names |
| CreateFileTree.NotTried | create-file-tree.py:99-104 | the name for a counter was not among the names tried before it |
| CreateFileTree.UniqueOutputFile | create-file-tree.py:92-104 | the result never exists; it is `file_list.txt` when that is free; otherwise it is `file_list-NN.txt` for a counter of at least 2, and every smaller counter from 2 was taken |
| CreateFileTree.LaterScansListOutputs | create-file-tree.py:25 | only `file_list.txt` is hidden: a numbered output file and `file_list.pdf` are listed by a later scan |
| Walk.FileLinesShift | file-tree-maker-v5.py:43-48 | the script's file lines at a deeper indent carry the extra indent in front |
| Walk.RenderDirsStep | file-tree-maker-v5.py:37-41 | each subdirectory adds its line `indent + name + "/"` followed by its own walk at `indent + "  "` |
| Walk.ListSubdirectory | file-tree-maker-v5.py:38-41 | one iteration of the directory loop appends exactly that subdirectory's line and its subtree |
| Walk.ListSubdirectories | create-file-tree.py:35-39 | the directory loop appends every subdirectory's line and subtree, in sorted order |
| Walk.ListDirectoryAsTree | file-tree-maker-v5.py:13-48 | `list_directory_as_tree` appends exactly the rendering of the directory: nothing when it is not found, else its subdirectories and then its files |
| Walk.RenderShift | file-tree-maker-v5.py:38-41 | walking at a deeper indent gives the same lines with the extra indent in front |
| Walk.RenderDirsShift | create-file-tree.py:35-39 | the subdirectory block at a deeper indent carries the extra indent in front |
| Walk.SubtreeShift | file-tree-maker-v5.py:41 | a subtree walked from a deeper indent carries the extra indent in front |
| Walk.PruneRender | file-tree-maker-v5.py:26-28 | the walk's lines are the same when every hidden entry is removed from the tree at every depth, so no hidden entry gives a line |
| Walk.PruneRenderDirs | create-file-tree.py:24-39 | the subdirectory block is the same over the pruned subdirectories |
| Walk.RenderIndented | file-tree-maker-v5.py:36-48 | every line the walk writes at `indent` starts with `indent` |
| Walk.RenderDirsSplit | file-tree-maker-v5.py:37-41 | the subdirectory block is the lines of the first j subdirectories followed by those of the rest |
| Walk.RenderLevel | create-file-tree.py:34-46 | a found directory's lines are its subdirectory block followed by its file lines |
| Walk.DirectoriesFirst | file-tree-maker-v5.py:36-48 | within a level's subdirectory block, the j-th directory's line sits right after the blocks of the earlier directories, followed by its whole subtree, all before the level's files |
| Walk.MissingDirectory | file-tree-maker-v5.py:15-19 | a subdirectory that is not found adds only its own line, and the next siblings still follow |
| Walk.AdjustedWalk | file-tree-maker-v5.py:222 | the indent pass over a walk started at `"  "` gives the walk started at `""` |
| Walk.Scan | file-tree-maker-v5.py:202-231 | one pass: the choice is asked only while unset and means condensed exactly for `y`; the lines written are the walk from `"  "`; after the indent pass they are the walk from `""`; v5 writes `file_list.txt`, and create-file-tree (lines 136-166 of create-file-tree.py) writes a name that is not in the root |

## Left out

- Console output, `input` prompts and the unconditional self-call of `run_script` are left out. They are interactive I/O with no end. The answer is a parameter of `Session.NextChoice` and `Walk.Scan`.
- The path-does-not-exist branch of `run_script` is left out. `Session.ChoiceAfterScan` models only its effect on the choice.
- The filesystem is replaced by `FileSystem.Node`.
  - `os.listdir`, `os.path.isdir`, `os.path.exists` and `os.path.join` are not modelled.
  - Paths are not modelled.
  - Only `FileNotFoundError` from a listing is modelled, by the `found` flag.
  - `PermissionError` and other OS errors are out of scope; the scripts do not catch them.
- A child list may hold two entries with the same name, which a real directory cannot. The model sorts entries by name, which matches Python sorting the names whenever the names are distinct.
- `zipfile.ZipFile` is modelled only by its outcome (`FileSystem.Archive`). A file that is not a zip and a damaged zip both raise `BadZipFile`; other exceptions are out of scope.
- `create_pdf` is left out because it is a foreign PDF library and page layout.
- The commented-out `get_unique_output_file` of file-tree-maker-v5.py is left out because it is not code.
- Writing the text file with `"\n".join` and reading it back with `readlines` are left out. The indent pass is modelled directly on the list of lines, which assumes that no name contains a newline.
- Walk.Scan: create-file-tree's `os.path.exists` of the output path is modelled as the set of entry names of the root.
- A root that is a file is left out: `os.listdir` then raises `NotADirectoryError`, which the scripts do not catch. `Walk.Scan` requires a directory.
- TreeMakerV5.OutputFile: returns the bare name `file_list.txt`, because joining it to the root path is not modelled.
- CreateFileTree.UniqueOutputFile: returns a bare name, because joining it to the root path is not modelled.
- FramePattern.SplitFrame: `\d` and `\w` are ASCII only, because Python's Unicode digit and word classes are not modelled.
- Session.Normalize: `.lower()` is ASCII only, and `.strip()` uses Python's ASCII whitespace, because Unicode case mapping and Unicode spaces are not modelled.
- Integer width is not an issue: Python integers are unbounded, and so are Dafny's.
- The lazy `(.*?)` keeps the dot before the four digits in the base, so `a.0001.exr` and `a.0002.exr` condense to `a.[image sequence].exr` (`FramePattern.DottedBaseExample`).
