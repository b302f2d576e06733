/** `list_directory_as_tree`, the same walk in both scripts: each directory
    level lists its visible subdirectories, each followed by its own walk two
    spaces deeper, then hands its visible files to the script's own file
    lister. The scripts differ in the names they skip and in that lister,
    so everything here takes the script as a parameter. */
module Walk {
  import opened Strings
  import opened Wrappers
  import opened FileSystem
  import opened Listing
  import opened Output
  import opened Session
  import TreeMakerV5
  import CreateFileTree

  /** Which of the two scripts runs. */
  datatype Script = FileTreeMakerV5 | CreateFileTree

  /** The names the walk skips besides hidden ones and `.DS_Store`. */
  function Reserved(script: Script): set<string> {
    match script
    case FileTreeMakerV5 => TreeMakerV5.Reserved
    case CreateFileTree => CreateFileTree.Reserved
  }

  /** The lines of the files of one level, as the script's lister writes
      them under the chosen mode. */
  function FileLines(script: Script, files: seq<Node>, indent: string, listAllFiles: bool): seq<string>
    requires AllFiles(files)
  {
    match script
    case FileTreeMakerV5 => TreeMakerV5.FileLines(files, indent, listAllFiles)
    case CreateFileTree => CreateFileTree.FileLines(files, indent, listAllFiles)
  }

  lemma FileLinesShift(script: Script, files: seq<Node>, pre: string, indent: string, listAllFiles: bool)
    requires AllFiles(files)
    ensures FileLines(script, files, pre + indent, listAllFiles) == Prefixed(pre, FileLines(script, files, indent, listAllFiles))
  {
    match script
    case FileTreeMakerV5 => TreeMakerV5.FileLinesShift(files, pre, indent, listAllFiles);
    case CreateFileTree => CreateFileTree.FileLinesShift(files, pre, indent, listAllFiles);
  }

  /** Everything the walk appends for directory `d` at `indent`: nothing
      when its listing is not found; otherwise each visible subdirectory's
      line and subtree, in sorted order, then the visible files. */
  function Render(script: Script, d: Node, indent: string, listAllFiles: bool): seq<string>
    requires d.Dir?
    decreases d, 1, 0
  {
    if !d.found then []
    else
      VisibleEntries(d, Reserved(script));
      RenderDirs(script, d, VisibleDirs(d, Reserved(script)), |VisibleDirs(d, Reserved(script))|, indent, listAllFiles) +
      FileLines(script, VisibleFiles(d, Reserved(script)), indent, listAllFiles)
  }

  /** The lines of the first `k` subdirectories of `dirs`: for each,
      `indent + name + "/"` followed by its own walk two spaces deeper. */
  function RenderDirs(script: Script, d: Node, dirs: seq<Node>, k: nat, indent: string, listAllFiles: bool): seq<string>
    requires d.Dir? && Subdirectories(d, dirs) && k <= |dirs|
    decreases d, 0, k
  {
    if k == 0 then []
    else
      var sub := dirs[k - 1];
      RenderDirs(script, d, dirs, k - 1, indent, listAllFiles) + [indent + (sub.name + "/")] +
      Render(script, sub, indent + "  ", listAllFiles)
  }

  lemma RenderDirsStep(script: Script, d: Node, dirs: seq<Node>, j: nat, indent: string, listAllFiles: bool)
    requires d.Dir? && Subdirectories(d, dirs) && j < |dirs|
    ensures dirs[j].Dir? &&
            RenderDirs(script, d, dirs, j + 1, indent, listAllFiles) ==
            RenderDirs(script, d, dirs, j, indent, listAllFiles) + [indent + (dirs[j].name + "/")] +
            Render(script, dirs[j], indent + "  ", listAllFiles)
  {
    assert dirs[j] in dirs;
  }

  /** The body of that loop for the `j`-th subdirectory: its line, then its
      own walk two spaces deeper, which extends what the loop has written
      since `start` by one more subdirectory. */
  method ListSubdirectory(script: Script, d: Node, dirs: seq<Node>, ghost j: nat, directory: Node, indent: string, out: LineBuffer,
                          listAllFiles: bool, ghost start: seq<string>)
    requires d.Dir? && Subdirectories(d, dirs) && j < |dirs| && directory == dirs[j]
    requires out.lines == start + RenderDirs(script, d, dirs, j, indent, listAllFiles)
    modifies out
    ensures out.lines == start + RenderDirs(script, d, dirs, j + 1, indent, listAllFiles)
    decreases d, 0, 0
  {
    RenderDirsStep(script, d, dirs, j, indent, listAllFiles);
    assert directory in d.children;
    var line := indent + (directory.name + "/");
    out.Append(line);
    ListDirectoryAsTree(script, directory, indent + "  ", out, listAllFiles);
    AppendJoin(start, RenderDirs(script, d, dirs, j + 1, indent, listAllFiles), RenderDirs(script, d, dirs, j, indent, listAllFiles),
               line, Render(script, directory, indent + "  ", listAllFiles));
  }

  /** The loop of `list_directory_as_tree` over the visible subdirectories:
      each one's line, then its own walk two spaces deeper. */
  method ListSubdirectories(script: Script, d: Node, dirs: seq<Node>, indent: string, out: LineBuffer, listAllFiles: bool)
    requires d.Dir? && Subdirectories(d, dirs)
    modifies out
    ensures out.lines == old(out.lines) + RenderDirs(script, d, dirs, |dirs|, indent, listAllFiles)
    decreases d, 0
  {
    var j := 0;
    while j < |dirs|
      invariant 0 <= j <= |dirs|
      invariant out.lines == old(out.lines) + RenderDirs(script, d, dirs, j, indent, listAllFiles)
    {
      ListSubdirectory(script, d, dirs, j, dirs[j], indent, out, listAllFiles, old(out.lines));
      j := j + 1;
    }
  }

  method ListDirectoryAsTree(script: Script, d: Node, indent: string, out: LineBuffer, listAllFiles: bool)
    requires d.Dir?
    modifies out
    ensures out.lines == old(out.lines) + Render(script, d, indent, listAllFiles)
    decreases d, 1
  {
    if !d.found {
      assert old(out.lines) + Render(script, d, indent, listAllFiles) == old(out.lines);
      return;  // "Error: Directory not found", printed only
    }
    var dirs, files := SplitEntries(SortByName(d.children), Reserved(script));
    assert dirs == VisibleDirs(d, Reserved(script)) && files == VisibleFiles(d, Reserved(script));
    VisibleEntries(d, Reserved(script));
    ghost var subtrees := RenderDirs(script, d, dirs, |dirs|, indent, listAllFiles);
    ghost var fileLines := FileLines(script, files, indent, listAllFiles);
    assert Render(script, d, indent, listAllFiles) == subtrees + fileLines;
    ListSubdirectories(script, d, dirs, indent, out, listAllFiles);
    match script {
      case FileTreeMakerV5 =>
        if listAllFiles {
          TreeMakerV5.ListAllFiles(files, indent, out);
        } else {
          TreeMakerV5.FormatImageSequences(files, indent, out);
        }
      case CreateFileTree =>
        if listAllFiles {
          CreateFileTree.ListAllFiles(files, indent, out);
        } else {
          CreateFileTree.FormatImageSequences(files, indent, out);
        }
    }
    AppendAssoc(old(out.lines), subtrees, fileLines);
  }

  /** Walking at `pre + indent` gives the lines of the walk at `indent`,
      each with `pre` in front. */
  lemma {:induction false} RenderShift(script: Script, d: Node, pre: string, indent: string, listAllFiles: bool)
    requires d.Dir?
    ensures Render(script, d, pre + indent, listAllFiles) == Prefixed(pre, Render(script, d, indent, listAllFiles))
    decreases d, 1, 0
  {
    if d.found {
      var dirs := VisibleDirs(d, Reserved(script));
      VisibleEntries(d, Reserved(script));
      RenderDirsShift(script, d, dirs, |dirs|, pre, indent, listAllFiles);
      FileLinesShift(script, VisibleFiles(d, Reserved(script)), pre, indent, listAllFiles);
      PrefixedConcat(pre, RenderDirs(script, d, dirs, |dirs|, indent, listAllFiles), FileLines(script, VisibleFiles(d, Reserved(script)), indent, listAllFiles));
    }
  }

  lemma {:induction false} RenderDirsShift(script: Script, d: Node, dirs: seq<Node>, k: nat, pre: string, indent: string, listAllFiles: bool)
    requires d.Dir? && Subdirectories(d, dirs) && k <= |dirs|
    ensures RenderDirs(script, d, dirs, k, pre + indent, listAllFiles) == Prefixed(pre, RenderDirs(script, d, dirs, k, indent, listAllFiles))
    decreases d, 0, k
  {
    if k > 0 {
      var j := k - 1;
      var sub := dirs[j];
      RenderDirsStep(script, d, dirs, j, indent, listAllFiles);
      RenderDirsStep(script, d, dirs, j, pre + indent, listAllFiles);
      RenderDirsShift(script, d, dirs, j, pre, indent, listAllFiles);
      assert sub in d.children by {
        assert sub in dirs;
      }
      SubtreeShift(script, sub, pre, indent, listAllFiles);
      PrefixedJoin(pre, RenderDirs(script, d, dirs, j + 1, indent, listAllFiles),
                   RenderDirs(script, d, dirs, j, indent, listAllFiles), indent + (sub.name + "/"), Render(script, sub, indent + "  ", listAllFiles),
                   RenderDirs(script, d, dirs, j + 1, pre + indent, listAllFiles),
                   RenderDirs(script, d, dirs, j, pre + indent, listAllFiles), (pre + indent) + (sub.name + "/"),
                   Render(script, sub, (pre + indent) + "  ", listAllFiles));
    }
  }

  /** One subdirectory's line and subtree under the extra indent. */
  lemma {:induction false} SubtreeShift(script: Script, sub: Node, pre: string, indent: string, listAllFiles: bool)
    requires sub.Dir?
    ensures (pre + indent) + (sub.name + "/") == pre + (indent + (sub.name + "/"))
    ensures Render(script, sub, (pre + indent) + "  ", listAllFiles) == Prefixed(pre, Render(script, sub, indent + "  ", listAllFiles))
    decreases sub, 1, 1
  {
    assert (pre + indent) + "  " == pre + (indent + "  ");
    RenderShift(script, sub, pre, indent + "  ", listAllFiles);
  }

  // ---------------------------------------------------------------------
  // Skipped entries, at every depth

  /** The walk of a tree is the walk of the same tree with every skipped
      entry removed at every depth, a tree in which no skipped name is left
      (`Listing.PruneHidesSkipped`): no hidden entry, `.DS_Store`,
      `file_list.txt` or `file_list.pdf` contributes any line. */
  lemma {:induction false} PruneRender(script: Script, d: Node, indent: string, listAllFiles: bool)
    requires d.Dir?
    ensures Render(script, Prune(d, Reserved(script)), indent, listAllFiles) == Render(script, d, indent, listAllFiles)
    decreases d, 1
  {
    if d.found {
      var pd := Prune(d, Reserved(script));
      PruneListing(d, Reserved(script));
      VisibleEntries(d, Reserved(script));
      VisibleEntries(pd, Reserved(script));
      PruneRenderDirs(script, d, VisibleDirs(d, Reserved(script)), pd, VisibleDirs(pd, Reserved(script)),
                      |VisibleDirs(d, Reserved(script))|, indent, listAllFiles);
    }
  }

  lemma {:induction false} PruneRenderDirs(script: Script, d: Node, dirs: seq<Node>, pd: Node, pdirs: seq<Node>, k: nat,
                                           indent: string, listAllFiles: bool)
    requires d.Dir? && Subdirectories(d, dirs) && pd.Dir? && Subdirectories(pd, pdirs)
    requires k <= |dirs| == |pdirs|
    requires forall i :: 0 <= i < |dirs| ==> pdirs[i] == Prune(dirs[i], Reserved(script))
    ensures RenderDirs(script, pd, pdirs, k, indent, listAllFiles) == RenderDirs(script, d, dirs, k, indent, listAllFiles)
    decreases d, 0, k
  {
    if k > 0 {
      var j := k - 1;
      PruneRenderDirs(script, d, dirs, pd, pdirs, j, indent, listAllFiles);
      PruneRenderDirsStep(script, d, dirs, pd, pdirs, j, k, indent, listAllFiles);
    }
  }

  lemma PruneRenderDirsStep(script: Script, d: Node, dirs: seq<Node>, pd: Node, pdirs: seq<Node>, j: nat, k: nat,
                            indent: string, listAllFiles: bool)
    requires d.Dir? && Subdirectories(d, dirs) && pd.Dir? && Subdirectories(pd, pdirs)
    requires j < |dirs| == |pdirs| && k == j + 1
    requires forall i :: 0 <= i < |dirs| ==> pdirs[i] == Prune(dirs[i], Reserved(script))
    requires RenderDirs(script, pd, pdirs, j, indent, listAllFiles) == RenderDirs(script, d, dirs, j, indent, listAllFiles)
    ensures RenderDirs(script, pd, pdirs, k, indent, listAllFiles) == RenderDirs(script, d, dirs, k, indent, listAllFiles)
    decreases d, 0, j
  {
    var sub := dirs[j];
    var psub := pdirs[j];
    assert psub == Prune(sub, Reserved(script));
    assert sub in d.children;
    var deeper := indent + "  ";
    PruneRender(script, sub, deeper, listAllFiles);
    RenderDirsStep(script, d, dirs, j, indent, listAllFiles);
    RenderDirsStep(script, pd, pdirs, j, indent, listAllFiles);
    JoinEqual(RenderDirs(script, pd, pdirs, k, indent, listAllFiles), RenderDirs(script, pd, pdirs, j, indent, listAllFiles),
              indent + (psub.name + "/"), Render(script, psub, deeper, listAllFiles),
              RenderDirs(script, d, dirs, k, indent, listAllFiles), RenderDirs(script, d, dirs, j, indent, listAllFiles),
              indent + (sub.name + "/"), Render(script, sub, deeper, listAllFiles));
  }

  // ---------------------------------------------------------------------
  // Shape of one level

  /** Every line of the walk at `indent` starts with `indent`. */
  lemma RenderIndented(script: Script, d: Node, indent: string, listAllFiles: bool)
    requires d.Dir?
    ensures forall i :: 0 <= i < |Render(script, d, indent, listAllFiles)| ==> StartsWith(Render(script, d, indent, listAllFiles)[i], indent)
  {
    RenderShift(script, d, indent, "", listAllFiles);
    assert indent + "" == indent;
    var ls := Render(script, d, "", listAllFiles);
    forall i | 0 <= i < |ls| ensures StartsWith(Prefixed(indent, ls)[i], indent) {
      PrefixedIndex(indent, ls, i);
      assert (indent + ls[i])[..|indent|] == indent;
    }
  }

  /** The file lines that close the level of a found directory `d`. */
  function LevelFileLines(script: Script, d: Node, indent: string, listAllFiles: bool): seq<string>
    requires d.Dir?
  {
    VisibleEntries(d, Reserved(script));
    FileLines(script, VisibleFiles(d, Reserved(script)), indent, listAllFiles)
  }

  /** The lines of the subdirectories `dirs[j..k]`, each with its walk. */
  function RenderDirsBetween(script: Script, d: Node, dirs: seq<Node>, j: nat, k: nat, indent: string, listAllFiles: bool): seq<string>
    requires d.Dir? && Subdirectories(d, dirs) && j <= k <= |dirs|
    decreases k
  {
    if j == k then []
    else
      var sub := dirs[k - 1];
      RenderDirsBetween(script, d, dirs, j, k - 1, indent, listAllFiles) + [indent + (sub.name + "/")] +
      Render(script, sub, indent + "  ", listAllFiles)
  }

  /** The walk over the first `k` subdirectories is the walk over the
      first `j` followed by the walk over the ones between. */
  lemma {:induction false} RenderDirsSplit(script: Script, d: Node, dirs: seq<Node>, j: nat, k: nat, indent: string, listAllFiles: bool)
    requires d.Dir? && Subdirectories(d, dirs) && j <= k <= |dirs|
    ensures RenderDirs(script, d, dirs, k, indent, listAllFiles) ==
            RenderDirs(script, d, dirs, j, indent, listAllFiles) + RenderDirsBetween(script, d, dirs, j, k, indent, listAllFiles)
    decreases k - j
  {
    if j == k {
      AppendNothing(RenderDirs(script, d, dirs, j, indent, listAllFiles), RenderDirsBetween(script, d, dirs, j, k, indent, listAllFiles));
    } else {
      var i := k - 1;
      RenderDirsSplit(script, d, dirs, j, i, indent, listAllFiles);
      RenderDirsSplitStep(script, d, dirs, j, i, indent, listAllFiles);
    }
  }

  lemma RenderDirsSplitStep(script: Script, d: Node, dirs: seq<Node>, j: nat, i: nat, indent: string, listAllFiles: bool)
    requires d.Dir? && Subdirectories(d, dirs) && j <= i < |dirs|
    requires RenderDirs(script, d, dirs, i, indent, listAllFiles) ==
             RenderDirs(script, d, dirs, j, indent, listAllFiles) + RenderDirsBetween(script, d, dirs, j, i, indent, listAllFiles)
    ensures RenderDirs(script, d, dirs, i + 1, indent, listAllFiles) ==
            RenderDirs(script, d, dirs, j, indent, listAllFiles) + RenderDirsBetween(script, d, dirs, j, i + 1, indent, listAllFiles)
  {
    var sub := dirs[i];
    JoinRegroup(RenderDirs(script, d, dirs, i + 1, indent, listAllFiles), RenderDirs(script, d, dirs, i, indent, listAllFiles),
                indent + (sub.name + "/"), Render(script, sub, indent + "  ", listAllFiles),
                RenderDirs(script, d, dirs, j, indent, listAllFiles), RenderDirsBetween(script, d, dirs, j, i, indent, listAllFiles),
                RenderDirsBetween(script, d, dirs, j, i + 1, indent, listAllFiles));
  }

  /** The level of a found directory: the walk over its visible
      subdirectories, then its visible files. */
  lemma RenderLevel(script: Script, d: Node, indent: string, listAllFiles: bool)
    requires d.Dir? && d.found
    ensures Subdirectories(d, VisibleDirs(d, Reserved(script)))
    ensures Render(script, d, indent, listAllFiles) ==
            RenderDirs(script, d, VisibleDirs(d, Reserved(script)), |VisibleDirs(d, Reserved(script))|, indent, listAllFiles) +
            LevelFileLines(script, d, indent, listAllFiles)
  {
    VisibleEntries(d, Reserved(script));
  }

  /** Directories before files, within one level: in the walk over all of
      `dirs`, the line `indent + name + "/"` of `dirs[j]` sits right after
      the walk over the subdirectories before it and is followed by its own
      walk two spaces deeper. With `RenderLevel`, all of it comes before the
      level's file lines. */
  lemma DirectoriesFirst(script: Script, d: Node, dirs: seq<Node>, j: nat, indent: string, listAllFiles: bool)
    requires d.Dir? && Subdirectories(d, dirs) && j < |dirs|
    ensures dirs[j].Dir?
    ensures |RenderDirs(script, d, dirs, j, indent, listAllFiles)| + 1 + |Render(script, dirs[j], indent + "  ", listAllFiles)| <=
            |RenderDirs(script, d, dirs, |dirs|, indent, listAllFiles)|
    ensures RenderDirs(script, d, dirs, |dirs|, indent, listAllFiles)[|RenderDirs(script, d, dirs, j, indent, listAllFiles)|] ==
            indent + (dirs[j].name + "/")
    ensures RenderDirs(script, d, dirs, |dirs|, indent, listAllFiles)[|RenderDirs(script, d, dirs, j, indent, listAllFiles)| + 1..
                                                             |RenderDirs(script, d, dirs, j, indent, listAllFiles)| + 1 +
                                                             |Render(script, dirs[j], indent + "  ", listAllFiles)|] ==
            Render(script, dirs[j], indent + "  ", listAllFiles)
  {
    var next := j + 1;
    var n := |dirs|;
    RenderDirsStep(script, d, dirs, j, indent, listAllFiles);
    RenderDirsSplit(script, d, dirs, next, n, indent, listAllFiles);
    PartsAt(RenderDirs(script, d, dirs, n, indent, listAllFiles), RenderDirs(script, d, dirs, next, indent, listAllFiles),
            RenderDirs(script, d, dirs, j, indent, listAllFiles), indent + (dirs[j].name + "/"),
            Render(script, dirs[j], indent + "  ", listAllFiles), RenderDirsBetween(script, d, dirs, next, n, indent, listAllFiles));
  }

  /** A subdirectory whose listing is not found keeps its own line and
      contributes nothing below it, so the next sibling's line follows at
      once. */
  lemma MissingDirectory(script: Script, d: Node, dirs: seq<Node>, j: nat, indent: string, listAllFiles: bool)
    requires d.Dir? && Subdirectories(d, dirs) && j < |dirs|
    requires dirs[j].Dir? && !dirs[j].found
    ensures RenderDirs(script, d, dirs, j + 1, indent, listAllFiles) ==
            RenderDirs(script, d, dirs, j, indent, listAllFiles) + [indent + (dirs[j].name + "/")]
  {
    RenderDirsStep(script, d, dirs, j, indent, listAllFiles);
  }

  // The indent pass and one pass of run_script

  /** The pass `adjust_indentation_in_file` makes over the written file turns
      the walk from `"  "` into the walk from `""`. */
  lemma AdjustedWalk(script: Script, d: Node, listAllFiles: bool)
    requires d.Dir?
    ensures AdjustIndentation(Render(script, d, "  ", listAllFiles)) == Render(script, d, "", listAllFiles)
  {
    RenderShift(script, d, "  ", "", listAllFiles);
    assert "  " + "" == "  ";
    AdjustUndoesPrefix(Render(script, d, "", listAllFiles));
  }

  /** One pass of `run_script` over a path that exists: the choice block,
      the walk from `"  "` into a new `output_lines`, the name of the output
      file in the scanned directory, the lines written to it, and the same
      lines after the indent pass. */
  method Scan(script: Script, root: Node, listAllFiles: Option<bool>, answer: string)
    returns (choice: Option<bool>, outputFile: string, written: seq<string>, adjusted: seq<string>)
    requires root.Dir?
    ensures choice.Some? && (listAllFiles.Some? ==> choice == listAllFiles)
    ensures listAllFiles.None? ==> (choice.value == false <==> Normalize(answer) == "y")
    ensures script == FileTreeMakerV5 ==> outputFile == "file_list.txt"
    ensures script == CreateFileTree ==> forall c | c in root.children :: c.name != outputFile
    ensures written == Render(script, root, "  ", choice.value)
    ensures adjusted == Render(script, root, "", choice.value)
  {
    choice := NextChoice(listAllFiles, answer);
    var outputLines := new LineBuffer();
    ListDirectoryAsTree(script, root, "  ", outputLines, choice.value);
    match script {
      case FileTreeMakerV5 =>
        outputFile := TreeMakerV5.OutputFile();
      case CreateFileTree =>
        var existing := set c | c in root.children :: c.name;
        outputFile := CreateFileTree.UniqueOutputFile(existing);
    }
    written := outputLines.lines;
    adjusted := AdjustIndentation(written);
    AdjustedWalk(script, root, choice.value);
  }
}
