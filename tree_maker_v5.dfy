/** What `file-tree-maker-v5.py` does with the files of one directory
    level: zip inspection, frame sequences condensed only when a group has
    two or more files; and its fixed output name. The walk itself is in
    `Walk`.

    Each function of the script that appends to `output_lines` is a method
    on a `LineBuffer`, proved to append exactly what a pure rendering
    function of this module describes; the lemmas are about those
    rendering functions. */
module TreeMakerV5 {
  import opened Strings
  import opened Wrappers
  import opened FileSystem
  import opened Listing
  import opened FramePattern
  import opened Output

  /** The names the walk skips besides hidden ones: both outputs. */
  const Reserved: set<string> := {"file_list.txt", "file_list.pdf"}

  // ---------------------------------------------------------------------
  // list_file_or_zip

  /** The indented entry names of an archive, in archive order. */
  function ZipEntryLines(entries: seq<string>, indent: string): seq<string> {
    seq(|entries|, i requires 0 <= i < |entries| => indent + ("  " + entries[i]))
  }

  /** The lines `list_file_or_zip` appends for one file. */
  function FileOrZipLines(f: Node, indent: string): seq<string>
    requires f.File?
  {
    if EndsWith(f.name, ".zip") then
      match f.archive
      case Readable(entries) => [indent + (f.name + " [ZIP Contents]:")] + ZipEntryLines(entries, indent)
      case _ => [indent + (f.name + " [Corrupted ZIP]")]
    else [indent + f.name]
  }

  /** The three outcomes of one file: an archive that opens gives its header
      and one line per entry, a `.zip` that does not open gives exactly one
      marker line, any other name gives just the name. */
  lemma FileOrZipOutcomes(f: Node, indent: string)
    requires f.File?
    ensures !EndsWith(f.name, ".zip") ==> FileOrZipLines(f, indent) == [indent + f.name]
    ensures EndsWith(f.name, ".zip") && f.archive.Readable? ==>
              |FileOrZipLines(f, indent)| == 1 + |f.archive.entries| &&
              FileOrZipLines(f, indent)[0] == indent + f.name + " [ZIP Contents]:" &&
              forall i :: 0 <= i < |f.archive.entries| ==>
                FileOrZipLines(f, indent)[i + 1] == indent + "  " + f.archive.entries[i]
    ensures EndsWith(f.name, ".zip") && !f.archive.Readable? ==>
              FileOrZipLines(f, indent) == [indent + f.name + " [Corrupted ZIP]"]
  {
    assert indent + (f.name + " [ZIP Contents]:") == indent + f.name + " [ZIP Contents]:";
    assert indent + (f.name + " [Corrupted ZIP]") == indent + f.name + " [Corrupted ZIP]";
    forall e: string ensures indent + ("  " + e) == indent + "  " + e {
    }
  }

  method ListFileOrZip(f: Node, indent: string, out: LineBuffer)
    requires f.File?
    modifies out
    ensures out.lines == old(out.lines) + FileOrZipLines(f, indent)
  {
    if EndsWith(f.name, ".zip") {
      match f.archive {
        case Readable(entries) =>
          out.Append(indent + (f.name + " [ZIP Contents]:"));
          var i := 0;
          while i < |entries|
            invariant 0 <= i <= |entries|
            invariant out.lines == old(out.lines) + [indent + (f.name + " [ZIP Contents]:")] +
                                   ZipEntryLines(entries[..i], indent)
          {
            out.Append(indent + ("  " + entries[i]));
            i := i + 1;
          }
          assert entries[..i] == entries;
        case _ =>
          out.Append(indent + (f.name + " [Corrupted ZIP]"));
      }
    } else {
      out.Append(indent + f.name);
    }
  }

  /** The lines of `list_file_or_zip` for each file of `fs`, in order. */
  function FileOrZipBlock(fs: seq<Node>, indent: string): seq<string>
    requires AllFiles(fs)
  {
    if fs == [] then []
    else FileOrZipBlock(fs[..|fs| - 1], indent) + FileOrZipLines(fs[|fs| - 1], indent)
  }

  lemma FileOrZipBlockStep(fs: seq<Node>, k: nat, indent: string)
    requires AllFiles(fs) && k < |fs|
    ensures AllFiles(fs[..k]) && AllFiles(fs[..k + 1])
    ensures FileOrZipBlock(fs[..k + 1], indent) == FileOrZipBlock(fs[..k], indent) + FileOrZipLines(fs[k], indent)
  {
    assert fs[..k + 1][..k] == fs[..k];
  }

  // ---------------------------------------------------------------------
  // list_all_files_func

  method ListAllFiles(files: seq<Node>, indent: string, out: LineBuffer)
    requires AllFiles(files)
    modifies out
    ensures out.lines == old(out.lines) + FileOrZipBlock(files, indent)
  {
    var i := 0;
    while i < |files|
      invariant 0 <= i <= |files|
      invariant out.lines == old(out.lines) + FileOrZipBlock(files[..i], indent)
    {
      FileOrZipBlockStep(files, i, indent);
      AppendAssoc(old(out.lines), FileOrZipBlock(files[..i], indent), FileOrZipLines(files[i], indent));
      ListFileOrZip(files[i], indent, out);
      i := i + 1;
    }
    assert files[..i] == files;
  }

  // ---------------------------------------------------------------------
  // format_image_sequences

  /** The condensed lines printed while iterating over `keys`: one per group
      of more than one file. */
  function CondensedLines(files: seq<Node>, keys: seq<Key>, indent: string): seq<string> {
    if keys == [] then []
    else
      var k := keys[|keys| - 1];
      var rest := CondensedLines(files, keys[..|keys| - 1], indent);
      if |Members(files, k)| > 1 then rest + [SequenceLine(indent, k)] else rest
  }

  /** The files moved to `other_files` while iterating over `keys`: those of
      groups with a single file. */
  function Singletons(files: seq<Node>, keys: seq<Key>): seq<Node> {
    if keys == [] then []
    else
      var k := keys[|keys| - 1];
      var rest := Singletons(files, keys[..|keys| - 1]);
      if |Members(files, k)| > 1 then rest else rest + Members(files, k)
  }

  /** `other_files` once both loops are done. */
  function OtherFiles(files: seq<Node>): seq<Node> {
    Unmatched(files) + Singletons(files, GroupOrder(files))
  }

  /** What `format_image_sequences` appends: condensed lines in the order
      the groups were first met, then every other file in sorted order. */
  function CondensedListing(files: seq<Node>, indent: string): seq<string>
    requires AllFiles(files)
  {
    OtherFilesAreFiles(files);
    CondensedLines(files, GroupOrder(files), indent) + FileOrZipBlock(SortByName(OtherFiles(files)), indent)
  }

  lemma {:induction false} SingletonsIn(files: seq<Node>, keys: seq<Key>)
    ensures forall x | x in Singletons(files, keys) :: x in files
  {
    if keys != [] {
      SingletonsIn(files, keys[..|keys| - 1]);
      MembersExact(files, keys[|keys| - 1]);
    }
  }

  lemma OtherFilesAreFiles(files: seq<Node>)
    requires AllFiles(files)
    ensures AllFiles(SortByName(OtherFiles(files)))
  {
    UnmatchedExact(files);
    SingletonsIn(files, GroupOrder(files));
    SortByNameMembers(OtherFiles(files));
  }

  /** One more key of the second loop: its condensed line when the group
      has more than one file, otherwise its files go to `other_files`.
      `start` and `head` stand for what the buffer and `other_files` held
      before the loop. */
  lemma EmitStep(files: seq<Node>, keys: seq<Key>, k: Key, indent: string, start: seq<string>, head: seq<Node>)
    ensures |Members(files, k)| > 1 ==>
              start + CondensedLines(files, keys + [k], indent) == start + CondensedLines(files, keys, indent) + [SequenceLine(indent, k)] &&
              head + Singletons(files, keys + [k]) == head + Singletons(files, keys)
    ensures |Members(files, k)| <= 1 ==>
              start + CondensedLines(files, keys + [k], indent) == start + CondensedLines(files, keys, indent) &&
              head + Singletons(files, keys + [k]) == head + Singletons(files, keys) + Members(files, k)
  {
    assert (keys + [k])[..|keys + [k]| - 1] == keys;
    AppendAssoc(start, CondensedLines(files, keys, indent), [SequenceLine(indent, k)]);
    AppendNodes(head, Singletons(files, keys), Members(files, k));
  }

  /** The first loop of `format_image_sequences`: the `frame_sequences`
      dictionary (its key order and its lists) and the unmatched files. */
  method GroupFrames(files: seq<Node>) returns (order: seq<Key>, frameSequences: map<Key, seq<Node>>, otherFiles: seq<Node>)
    ensures order == GroupOrder(files)
    ensures frameSequences == Groups(files)
    ensures otherFiles == Unmatched(files)
  {
    order, frameSequences, otherFiles := [], map[], [];
    ghost var seen: seq<Node> := [];
    var i := 0;
    while i < |files|
      invariant 0 <= i <= |files| && seen == files[..i]
      invariant order == GroupOrder(seen)
      invariant frameSequences == Groups(seen)
      invariant otherFiles == Unmatched(seen)
    {
      var filename := files[i];
      GroupStep(seen, filename);
      match SplitFrame(filename.name) {
        case Some(key) =>
          GroupsAt(seen, key);
          var frames := if key in frameSequences then frameSequences[key] else [];
          if key !in frameSequences {
            order := order + [key];
          }
          frameSequences := frameSequences[key := frames + [filename]];
        case None =>
          otherFiles := otherFiles + [filename];
      }
      assert files[..i + 1] == files[..i] + [filename];
      seen := seen + [filename];
      i := i + 1;
    }
    assert files[..i] == files;
  }

  /** One pass of the second loop, for the group of `key`: its condensed
      line when it has more than one file, otherwise its file moved to
      `other_files`. `start` and `unmatched` stand for what the buffer and
      `other_files` held before the loop, `done` for the keys already seen. */
  method EmitGroup(files: seq<Node>, ghost done: seq<Key>, key: Key, frames: seq<Node>, indent: string,
                   out: LineBuffer, ghost start: seq<string>, ghost unmatched: seq<Node>, otherFiles: seq<Node>)
    returns (others: seq<Node>)
    requires frames == Members(files, key)
    requires out.lines == start + CondensedLines(files, done, indent)
    requires otherFiles == unmatched + Singletons(files, done)
    modifies out
    ensures out.lines == start + CondensedLines(files, done + [key], indent)
    ensures others == unmatched + Singletons(files, done + [key])
  {
    EmitStep(files, done, key, indent, start, unmatched);
    others := otherFiles;
    if |frames| > 1 {
      out.Append(SequenceLine(indent, key));
    } else {
      others := otherFiles + frames;
    }
  }

  /** The second loop of `format_image_sequences`: a condensed line for
      every group of more than one file, in dictionary order, and the files
      of single-file groups moved to `other_files`. */
  method EmitGroups(files: seq<Node>, order: seq<Key>, frameSequences: map<Key, seq<Node>>,
                    unmatched: seq<Node>, indent: string, out: LineBuffer)
    returns (otherFiles: seq<Node>)
    requires forall k | k in order :: k in frameSequences && frameSequences[k] == Members(files, k)
    modifies out
    ensures otherFiles == unmatched + Singletons(files, order)
    ensures out.lines == old(out.lines) + CondensedLines(files, order, indent)
  {
    otherFiles := unmatched;
    ghost var done: seq<Key> := [];
    var j := 0;
    while j < |order|
      invariant 0 <= j <= |order| && done == order[..j]
      invariant otherFiles == unmatched + Singletons(files, done)
      invariant out.lines == old(out.lines) + CondensedLines(files, done, indent)
    {
      var key := order[j];
      assert key in order;
      otherFiles := EmitGroup(files, done, key, frameSequences[key], indent, out, old(out.lines), unmatched, otherFiles);
      assert order[..j + 1] == order[..j] + [key];
      done := done + [key];
      j := j + 1;
    }
    assert order[..j] == order;
  }

  method FormatImageSequences(files: seq<Node>, indent: string, out: LineBuffer)
    requires AllFiles(files)
    modifies out
    ensures out.lines == old(out.lines) + CondensedListing(files, indent)
  {
    var order, frameSequences, unmatched := GroupFrames(files);
    forall k | k in order ensures k in frameSequences && frameSequences[k] == Members(files, k) {
      GroupsAt(files, k);
    }
    var otherFiles := EmitGroups(files, order, frameSequences, unmatched, indent, out);

    assert otherFiles == OtherFiles(files);
    OtherFilesAreFiles(files);
    // `for filename in sorted(other_files): list_file_or_zip(...)` is the
    // loop of `list_all_files_func` run over the sorted list.
    ListAllFiles(SortByName(otherFiles), indent, out);
    AppendAssoc(old(out.lines), CondensedLines(files, order, indent), FileOrZipBlock(SortByName(otherFiles), indent));
  }

  // ---------------------------------------------------------------------
  /** The file lines of one directory level under the chosen mode. */
  function FileLines(files: seq<Node>, indent: string, listAllFiles: bool): seq<string>
    requires AllFiles(files)
  {
    if listAllFiles then FileOrZipBlock(files, indent) else CondensedListing(files, indent)
  }

  // ---------------------------------------------------------------------
  // Indentation: the walk at a deeper indent is the same walk with the
  // extra indent put in front of every line.

  lemma ZipEntryLinesShift(entries: seq<string>, pre: string, indent: string)
    ensures ZipEntryLines(entries, pre + indent) == Prefixed(pre, ZipEntryLines(entries, indent))
  {
    forall i | 0 <= i < |entries|
      ensures ZipEntryLines(entries, pre + indent)[i] == Prefixed(pre, ZipEntryLines(entries, indent))[i]
    {
      PrefixedIndex(pre, ZipEntryLines(entries, indent), i);
      assert (pre + indent) + ("  " + entries[i]) == pre + (indent + ("  " + entries[i]));
    }
  }

  lemma FileOrZipLinesShift(f: Node, pre: string, indent: string)
    requires f.File?
    ensures FileOrZipLines(f, pre + indent) == Prefixed(pre, FileOrZipLines(f, indent))
  {
    if EndsWith(f.name, ".zip") {
      match f.archive
      case Readable(entries) =>
        ZipEntryLinesShift(entries, pre, indent);
        var header := indent + (f.name + " [ZIP Contents]:");
        assert (pre + indent) + (f.name + " [ZIP Contents]:") == pre + header;
        PrefixedConcat(pre, [header], ZipEntryLines(entries, indent));
      case _ =>
        assert (pre + indent) + (f.name + " [Corrupted ZIP]") == pre + (indent + (f.name + " [Corrupted ZIP]"));
    } else {
      assert (pre + indent) + f.name == pre + (indent + f.name);
    }
  }

  lemma {:induction false} FileOrZipBlockShift(fs: seq<Node>, pre: string, indent: string)
    requires AllFiles(fs)
    ensures FileOrZipBlock(fs, pre + indent) == Prefixed(pre, FileOrZipBlock(fs, indent))
  {
    if fs != [] {
      var init := fs[..|fs| - 1];
      FileOrZipBlockShift(init, pre, indent);
      FileOrZipLinesShift(fs[|fs| - 1], pre, indent);
      PrefixedConcat(pre, FileOrZipBlock(init, indent), FileOrZipLines(fs[|fs| - 1], indent));
    }
  }

  lemma {:induction false} CondensedLinesShift(files: seq<Node>, keys: seq<Key>, pre: string, indent: string)
    ensures CondensedLines(files, keys, pre + indent) == Prefixed(pre, CondensedLines(files, keys, indent))
  {
    if keys != [] {
      var k := keys[|keys| - 1];
      var rest := CondensedLines(files, keys[..|keys| - 1], indent);
      CondensedLinesShift(files, keys[..|keys| - 1], pre, indent);
      assert SequenceLine(pre + indent, k) == pre + SequenceLine(indent, k);
      PrefixedConcat(pre, rest, [SequenceLine(indent, k)]);
    }
  }

  lemma FileLinesShift(files: seq<Node>, pre: string, indent: string, listAllFiles: bool)
    requires AllFiles(files)
    ensures FileLines(files, pre + indent, listAllFiles) == Prefixed(pre, FileLines(files, indent, listAllFiles))
  {
    if listAllFiles {
      FileOrZipBlockShift(files, pre, indent);
    } else {
      OtherFilesAreFiles(files);
      var others := SortByName(OtherFiles(files));
      CondensedLinesShift(files, GroupOrder(files), pre, indent);
      FileOrZipBlockShift(others, pre, indent);
      PrefixedConcat(pre, CondensedLines(files, GroupOrder(files), indent), FileOrZipBlock(others, indent));
    }
  }

  // ---------------------------------------------------------------------
  // Condensed mode

  /** The number of keys of `keys` whose group has two or more files. */
  function CondensedCount(files: seq<Node>, keys: seq<Key>): nat {
    if keys == [] then 0
    else CondensedCount(files, keys[..|keys| - 1]) + (if |Members(files, keys[|keys| - 1])| > 1 then 1 else 0)
  }

  /** One condensed line per group of two or more files. */
  lemma {:induction false} CondensedLinesLength(files: seq<Node>, keys: seq<Key>, indent: string)
    ensures |CondensedLines(files, keys, indent)| == CondensedCount(files, keys)
  {
    if keys != [] {
      CondensedLinesLength(files, keys[..|keys| - 1], indent);
    }
  }

  /** The line of the `i`-th key, when its group has two or more files,
      comes after exactly the lines of the earlier such keys. */
  lemma {:induction false} CondensedLinesAt(files: seq<Node>, keys: seq<Key>, indent: string, i: nat)
    requires i < |keys| && |Members(files, keys[i])| > 1
    ensures CondensedCount(files, keys[..i]) < |CondensedLines(files, keys, indent)|
    ensures CondensedLines(files, keys, indent)[CondensedCount(files, keys[..i])] == SequenceLine(indent, keys[i])
  {
    var n := |keys| - 1;
    var init := keys[..n];
    CondensedLinesLength(files, init, indent);
    if i == n {
      assert keys[..i] == init;
    } else {
      CondensedLinesAt(files, init, indent, i);
      assert init[..i] == keys[..i];
    }
  }

  /** Groups keep the order in which they were first met. */
  lemma CondensedOrder(files: seq<Node>, keys: seq<Key>, indent: string, i: nat, j: nat)
    requires i < j < |keys| && |Members(files, keys[i])| > 1 && |Members(files, keys[j])| > 1
    ensures CondensedCount(files, keys[..i]) < CondensedCount(files, keys[..j])
  {
    CondensedLinesAt(files, keys[..j], indent, i);
    CondensedLinesLength(files, keys[..j], indent);
    assert keys[..j][..i] == keys[..i];
  }

  /** Every condensed line is the line of a key whose group has two or more
      files. */
  lemma {:induction false} CondensedLinesFrom(files: seq<Node>, keys: seq<Key>, indent: string)
    ensures forall l | l in CondensedLines(files, keys, indent) ::
              exists k :: k in keys && |Members(files, k)| > 1 && l == SequenceLine(indent, k)
  {
    if keys != [] {
      var init := keys[..|keys| - 1];
      CondensedLinesFrom(files, init, indent);
      forall l | l in CondensedLines(files, keys, indent)
        ensures exists k :: k in keys && |Members(files, k)| > 1 && l == SequenceLine(indent, k)
      {
        if l in CondensedLines(files, init, indent) {
          var k :| k in init && |Members(files, k)| > 1 && l == SequenceLine(indent, k);
          assert k in keys;
        } else {
          assert keys[|keys| - 1] in keys;
        }
      }
    }
  }

  /** No two condensed lines are equal: each group has exactly one. */
  lemma {:induction false} CondensedLinesDistinct(files: seq<Node>, indent: string)
    ensures forall i, j :: 0 <= i < j < |CondensedLines(files, GroupOrder(files), indent)| ==>
              CondensedLines(files, GroupOrder(files), indent)[i] != CondensedLines(files, GroupOrder(files), indent)[j]
  {
    GroupOrderDistinct(files);
    GroupOrderKeys(files);
    DistinctKeysLines(files, GroupOrder(files), indent);
  }

  lemma {:induction false} DistinctKeysLines(files: seq<Node>, keys: seq<Key>, indent: string)
    requires forall i, j :: 0 <= i < j < |keys| ==> keys[i] != keys[j]
    requires forall k | k in keys :: AllWordChars(k.1)
    ensures forall i, j :: 0 <= i < j < |CondensedLines(files, keys, indent)| ==>
              CondensedLines(files, keys, indent)[i] != CondensedLines(files, keys, indent)[j]
  {
    if keys != [] {
      var init := keys[..|keys| - 1];
      var k := keys[|keys| - 1];
      var rest := CondensedLines(files, init, indent);
      DistinctKeysLines(files, init, indent);
      if |Members(files, k)| > 1 {
        CondensedLinesFrom(files, init, indent);
        forall l | l in rest ensures l != SequenceLine(indent, k) {
          var k' :| k' in init && |Members(files, k')| > 1 && l == SequenceLine(indent, k');
          var i :| 0 <= i < |init| && init[i] == k';
          assert keys[i] != keys[|keys| - 1];
          SequenceLineInjective(indent, k, k');
        }
        var ls := rest + [SequenceLine(indent, k)];
        assert CondensedLines(files, keys, indent) == ls;
        forall i, j | 0 <= i < j < |ls| ensures ls[i] != ls[j] {
          assert ls[i] == rest[i] && rest[i] in rest;
          if j < |rest| {
            assert ls[j] == rest[j];
            assert rest[i] != rest[j];
          }
        }
      }
    }
  }

  lemma {:induction false} SingletonsExact(files: seq<Node>, keys: seq<Key>, x: Node)
    ensures x in Singletons(files, keys) <==>
              x in files && SplitFrame(x.name).Some? && SplitFrame(x.name).value in keys &&
              |Members(files, SplitFrame(x.name).value)| <= 1
  {
    if keys != [] {
      var k := keys[|keys| - 1];
      SingletonsExact(files, keys[..|keys| - 1], x);
      MembersExact(files, k);
    }
  }

  /** Where a file of one level ends up in condensed mode. It is among the
      files listed one by one exactly when the pattern does not match its
      name or its group has no other file; when the pattern matches, its
      group's line is printed exactly when the group has two or more
      files. */
  lemma CondensedFile(files: seq<Node>, x: Node, indent: string)
    requires x in files
    ensures x in OtherFiles(files) <==> SplitFrame(x.name).None? || |Members(files, SplitFrame(x.name).value)| == 1
    ensures SplitFrame(x.name).Some? ==>
              (SequenceLine(indent, SplitFrame(x.name).value) in CondensedLines(files, GroupOrder(files), indent) <==>
               |Members(files, SplitFrame(x.name).value)| > 1)
  {
    var order := GroupOrder(files);
    FilesPartition(files, x);
    SingletonsExact(files, order, x);
    GroupOrderKeys(files);
    if SplitFrame(x.name).Some? {
      var k := SplitFrame(x.name).value;
      assert k in order by {
        MembersExact(files, k);
        assert x in Members(files, k);
      }
      var line := SequenceLine(indent, k);
      if |Members(files, k)| > 1 {
        var i :| 0 <= i < |order| && order[i] == k;
        CondensedLinesAt(files, order, indent, i);
      }
      if line in CondensedLines(files, order, indent) {
        CondensedLinesFrom(files, order, indent);
        var k' :| k' in order && |Members(files, k')| > 1 && line == SequenceLine(indent, k');
        SequenceLineInjective(indent, k, k');
      }
    }
  }

  // ---------------------------------------------------------------------
  // get_output_file

  /** The output file, inside the scanned directory: a name the walk skips,
      so the next scan of the same directory does not list it. */
  function OutputFile(): (r: string)
    ensures r in Reserved
  {
    "file_list.txt"
  }
}
