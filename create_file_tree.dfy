/** What `create-file-tree.py` does with the files of one directory level:
    every frame sequence condensed, other files listed by name with no zip
    inspection; and its choice of an output name that does not overwrite an
    earlier list. The walk itself is in `Walk`.

    As in `TreeMakerV5`, the functions that append to `output_lines` are
    methods on a `LineBuffer` proved against pure rendering functions. */
module CreateFileTree {
  import opened Wrappers
  import opened FileSystem
  import opened Listing
  import opened FramePattern
  import opened Output
  import opened Decimal

  /** The only name the walk skips besides hidden ones. */
  const Reserved: set<string> := {"file_list.txt"}

  // ---------------------------------------------------------------------
  // list_all_files_func

  /** `f"{indent}{filename}"` for each file of `fs`, in order. */
  function NameLines(fs: seq<Node>, indent: string): (r: seq<string>)
    ensures |r| == |fs|
  {
    if fs == [] then [] else NameLines(fs[..|fs| - 1], indent) + [indent + fs[|fs| - 1].name]
  }

  /** Exactly one line per file, in listing order: the `i`-th line is the
      `i`-th name after the indent. */
  lemma {:induction false} NameLinesAt(fs: seq<Node>, indent: string, i: nat)
    requires i < |fs|
    ensures NameLines(fs, indent)[i] == indent + fs[i].name
  {
    if i < |fs| - 1 {
      NameLinesAt(fs[..|fs| - 1], indent, i);
    }
  }

  lemma NameLinesStep(fs: seq<Node>, k: nat, indent: string)
    requires k < |fs|
    ensures NameLines(fs[..k + 1], indent) == NameLines(fs[..k], indent) + [indent + fs[k].name]
  {
    assert fs[..k + 1][..k] == fs[..k];
  }

  method ListAllFiles(files: seq<Node>, indent: string, out: LineBuffer)
    modifies out
    ensures out.lines == old(out.lines) + NameLines(files, indent)
  {
    var i := 0;
    while i < |files|
      invariant 0 <= i <= |files|
      invariant out.lines == old(out.lines) + NameLines(files[..i], indent)
    {
      NameLinesStep(files, i, indent);
      out.Append(indent + files[i].name);
      i := i + 1;
    }
    assert files[..i] == files;
  }

  // ---------------------------------------------------------------------
  // format_image_sequences

  /** `int(frame)`: the value of the four digits of a matching name. */
  function FrameNumber(name: string): nat
    requires SplitFrame(name).Some?
  {
    SplitFrameSound(name);
    var base := SplitFrame(name).value.0;
    Value(name[|base|..|base| + 4])
  }

  /** The `frame_sequences` dictionary once `files` have been seen: the
      frame numbers of each key, a new key starting from the empty set. */
  function FrameSets(files: seq<Node>): map<Key, set<nat>> {
    if files == [] then map[]
    else
      var f := files[|files| - 1];
      var g := FrameSets(files[..|files| - 1]);
      match SplitFrame(f.name)
      case None => g
      case Some(k) => g[k := (if k in g then g[k] else {}) + {FrameNumber(f.name)}]
  }

  lemma FrameSetsStep(seen: seq<Node>, f: Node)
    ensures FrameSets(seen + [f]) ==
            match SplitFrame(f.name)
            case None => FrameSets(seen)
            case Some(k) => FrameSets(seen)[k := (if k in FrameSets(seen) then FrameSets(seen)[k] else {}) +
                                                {FrameNumber(f.name)}]
  {
    assert (seen + [f])[..|seen + [f]| - 1] == seen;
  }

  /** The frame numbers of the files of `files` whose key is `k`. */
  function FramesOf(files: seq<Node>, k: Key): set<nat> {
    set f | f in files && SplitFrame(f.name) == Some(k) :: FrameNumber(f.name)
  }

  lemma FramesOfStep(init: seq<Node>, f: Node, k: Key)
    ensures FramesOf(init + [f], k) ==
            FramesOf(init, k) + (if SplitFrame(f.name) == Some(k) then {FrameNumber(f.name)} else {})
  {
    var files := init + [f];
    forall n | n in FramesOf(files, k)
      ensures n in FramesOf(init, k) + (if SplitFrame(f.name) == Some(k) then {FrameNumber(f.name)} else {})
    {
      var g :| g in files && SplitFrame(g.name) == Some(k) && FrameNumber(g.name) == n;
      if g != f {
        assert g in init;
      }
    }
  }

  /** The dictionary's keys are the keys met, in `GroupOrder`, and the set
      of a key holds exactly the frame numbers of the files that produced
      it. */
  lemma {:induction false} FrameSetsAt(files: seq<Node>, k: Key)
    ensures k in FrameSets(files) <==> k in GroupOrder(files)
    ensures k in FrameSets(files) ==> FrameSets(files)[k] == FramesOf(files, k)
  {
    if files != [] {
      var f := files[|files| - 1];
      var init := files[..|files| - 1];
      FrameSetsAt(init, k);
      assert files == init + [f];
      FramesOfStep(init, f, k);
      if k !in FrameSets(init) {
        MembersExact(init, k);
        GroupOrderKeys(init);
        NoFrames(init, k);
      }
    }
  }

  lemma NoFrames(files: seq<Node>, k: Key)
    requires forall g | g in files :: SplitFrame(g.name) != Some(k)
    ensures FramesOf(files, k) == {}
  {
  }

  /** The first loop of `format_image_sequences`: the key order and the
      frame sets of the `defaultdict(set)`, and the unmatched files. */
  method GroupFrames(files: seq<Node>) returns (order: seq<Key>, frameSequences: map<Key, set<nat>>, otherFiles: seq<Node>)
    ensures order == GroupOrder(files)
    ensures frameSequences == FrameSets(files)
    ensures otherFiles == Unmatched(files)
  {
    order, frameSequences, otherFiles := [], map[], [];
    ghost var seen: seq<Node> := [];
    var i := 0;
    while i < |files|
      invariant 0 <= i <= |files| && seen == files[..i]
      invariant order == GroupOrder(seen)
      invariant frameSequences == FrameSets(seen)
      invariant otherFiles == Unmatched(seen)
    {
      var filename := files[i];
      GroupStep(seen, filename);
      FrameSetsStep(seen, filename);
      match SplitFrame(filename.name) {
        case Some(key) =>
          FrameSetsAt(seen, key);
          var frames := if key in frameSequences then frameSequences[key] else {};
          if key !in frameSequences {
            order := order + [key];
          }
          frameSequences := frameSequences[key := frames + {FrameNumber(filename.name)}];
        case None =>
          otherFiles := otherFiles + [filename];
      }
      assert files[..i + 1] == files[..i] + [filename];
      seen := seen + [filename];
      i := i + 1;
    }
    assert files[..i] == files;
  }

  /** One condensed line per key, in the order given. */
  function SequenceLines(keys: seq<Key>, indent: string): (r: seq<string>)
    ensures |r| == |keys|
  {
    if keys == [] then [] else SequenceLines(keys[..|keys| - 1], indent) + [SequenceLine(indent, keys[|keys| - 1])]
  }

  lemma {:induction false} SequenceLinesAt(keys: seq<Key>, indent: string, i: nat)
    requires i < |keys|
    ensures SequenceLines(keys, indent)[i] == SequenceLine(indent, keys[i])
  {
    if i < |keys| - 1 {
      SequenceLinesAt(keys[..|keys| - 1], indent, i);
    }
  }

  lemma SequenceLinesStep(keys: seq<Key>, k: nat, indent: string)
    requires k < |keys|
    ensures SequenceLines(keys[..k + 1], indent) == SequenceLines(keys[..k], indent) + [SequenceLine(indent, keys[k])]
  {
    assert keys[..k + 1][..k] == keys[..k];
  }

  /** The second loop: the condensed line of every key of the dictionary,
      in insertion order, whatever its set of frames holds. */
  method EmitGroups(order: seq<Key>, indent: string, out: LineBuffer)
    modifies out
    ensures out.lines == old(out.lines) + SequenceLines(order, indent)
  {
    var j := 0;
    while j < |order|
      invariant 0 <= j <= |order|
      invariant out.lines == old(out.lines) + SequenceLines(order[..j], indent)
    {
      SequenceLinesStep(order, j, indent);
      out.Append(SequenceLine(indent, order[j]));
      j := j + 1;
    }
    assert order[..j] == order;
  }

  /** What `format_image_sequences` appends: a condensed line for every
      group in the order the groups were first met, then the unmatched files
      by name in listing order. */
  function CondensedListing(files: seq<Node>, indent: string): seq<string> {
    SequenceLines(GroupOrder(files), indent) + NameLines(Unmatched(files), indent)
  }

  method FormatImageSequences(files: seq<Node>, indent: string, out: LineBuffer)
    modifies out
    ensures out.lines == old(out.lines) + CondensedListing(files, indent)
  {
    var order, frameSequences, otherFiles := GroupFrames(files);
    EmitGroups(order, indent, out);
    // The third loop writes `indent + filename` for each unmatched file, as
    // the loop of `list_all_files_func` does.
    ListAllFiles(otherFiles, indent, out);
    AppendAssoc(old(out.lines), SequenceLines(order, indent), NameLines(otherFiles, indent));
  }

  /** Where a file of one level ends up in condensed mode. A file the
      pattern matches never gets a line of its own, and its group's
      condensed line is printed even when the group has no other file; a
      file the pattern does not match is listed by name. */
  lemma CondensedFile(files: seq<Node>, x: Node, indent: string)
    requires x in files
    ensures x in Unmatched(files) <==> SplitFrame(x.name).None?
    ensures SplitFrame(x.name).Some? ==> SequenceLine(indent, SplitFrame(x.name).value) in CondensedListing(files, indent)
    ensures SplitFrame(x.name).None? ==> indent + x.name in CondensedListing(files, indent)
  {
    FilesPartition(files, x);
    var groupLines := SequenceLines(GroupOrder(files), indent);
    var nameLines := NameLines(Unmatched(files), indent);
    if SplitFrame(x.name).Some? {
      GroupLineListed(files, x, indent);
      InFirst(SequenceLine(indent, SplitFrame(x.name).value), groupLines, nameLines);
    } else {
      UnmatchedListed(files, x, indent);
      InSecond(indent + x.name, groupLines, nameLines);
    }
  }

  lemma InFirst(line: string, a: seq<string>, b: seq<string>)
    requires line in a
    ensures line in a + b
  {
  }

  lemma InSecond(line: string, a: seq<string>, b: seq<string>)
    requires line in b
    ensures line in a + b
  {
  }

  /** A matched file's group has its condensed line. */
  lemma GroupLineListed(files: seq<Node>, x: Node, indent: string)
    requires x in files && SplitFrame(x.name).Some?
    ensures SequenceLine(indent, SplitFrame(x.name).value) in SequenceLines(GroupOrder(files), indent)
  {
    var order := GroupOrder(files);
    var k := SplitFrame(x.name).value;
    GroupOrderKeys(files);
    MembersExact(files, k);
    assert x in Members(files, k);
    var i :| 0 <= i < |order| && order[i] == k;
    SequenceLinesAt(order, indent, i);
  }

  /** An unmatched file has its name line. */
  lemma UnmatchedListed(files: seq<Node>, x: Node, indent: string)
    requires x in Unmatched(files)
    ensures indent + x.name in NameLines(Unmatched(files), indent)
  {
    var others := Unmatched(files);
    var i :| 0 <= i < |others| && others[i] == x;
    NameLinesAt(others, indent, i);
  }

  /** Every condensed line stands for a group met in the listing, and no
      two condensed lines are equal. */
  lemma CondensedLinesDistinct(files: seq<Node>, indent: string)
    ensures forall i, j :: 0 <= i < j < |GroupOrder(files)| ==>
              SequenceLines(GroupOrder(files), indent)[i] != SequenceLines(GroupOrder(files), indent)[j]
  {
    var order := GroupOrder(files);
    GroupOrderDistinct(files);
    GroupOrderKeys(files);
    forall i, j | 0 <= i < j < |order|
      ensures SequenceLines(order, indent)[i] != SequenceLines(order, indent)[j]
    {
      SequenceLinesAt(order, indent, i);
      SequenceLinesAt(order, indent, j);
      assert order[i] in order && order[j] in order;
      SequenceLineInjective(indent, order[i], order[j]);
    }
  }

  /** The lines of one level in condensed mode: as many as there are
      groups plus unmatched files. */
  lemma CondensedListingLength(files: seq<Node>, indent: string)
    ensures |CondensedListing(files, indent)| == |GroupOrder(files)| + |Unmatched(files)|
  {
  }

  /** Shifting the indent of a level's name lines. */
  lemma {:induction false} NameLinesShift(fs: seq<Node>, pre: string, indent: string)
    ensures NameLines(fs, pre + indent) == Prefixed(pre, NameLines(fs, indent))
  {
    if fs != [] {
      var init := fs[..|fs| - 1];
      NameLinesShift(init, pre, indent);
      assert (pre + indent) + fs[|fs| - 1].name == pre + (indent + fs[|fs| - 1].name);
      PrefixedConcat(pre, NameLines(init, indent), [indent + fs[|fs| - 1].name]);
    }
  }

  lemma {:induction false} SequenceLinesShift(keys: seq<Key>, pre: string, indent: string)
    ensures SequenceLines(keys, pre + indent) == Prefixed(pre, SequenceLines(keys, indent))
  {
    if keys != [] {
      var init := keys[..|keys| - 1];
      var k := keys[|keys| - 1];
      SequenceLinesShift(init, pre, indent);
      assert SequenceLine(pre + indent, k) == pre + SequenceLine(indent, k);
      PrefixedConcat(pre, SequenceLines(init, indent), [SequenceLine(indent, k)]);
    }
  }

  // ---------------------------------------------------------------------
  // The file lines of one level

  /** The file lines of one directory level under the chosen mode. */
  function FileLines(files: seq<Node>, indent: string, listAllFiles: bool): seq<string> {
    if listAllFiles then NameLines(files, indent) else CondensedListing(files, indent)
  }

  lemma FileLinesShift(files: seq<Node>, pre: string, indent: string, listAllFiles: bool)
    ensures FileLines(files, pre + indent, listAllFiles) == Prefixed(pre, FileLines(files, indent, listAllFiles))
  {
    if listAllFiles {
      NameLinesShift(files, pre, indent);
    } else {
      NameLinesShift(Unmatched(files), pre, indent);
      SequenceLinesShift(GroupOrder(files), pre, indent);
      PrefixedConcat(pre, SequenceLines(GroupOrder(files), indent), NameLines(Unmatched(files), indent));
    }
  }

  // ---------------------------------------------------------------------
  // get_unique_output_file

  /** `f"file_list-{counter:02d}.txt"` */
  function NumberedName(counter: nat): string {
    "file_list-" + Pad2(counter) + ".txt"
  }

  /** The first numbered name is `file_list-02.txt`. */
  lemma FirstNumberedName()
    ensures NumberedName(2) == "file_list-02.txt"
  {
    Pad2Digits(2);
  }

  /** Different counters give different names. */
  lemma NumberedNameInjective(m: nat, n: nat)
    ensures NumberedName(m) == NumberedName(n) ==> m == n
  {
    if NumberedName(m) == NumberedName(n) {
      var a := NumberedName(m);
      assert Pad2(m) == a[10..|a| - 4];
      assert Pad2(n) == NumberedName(n)[10..|NumberedName(n)| - 4];
      Pad2Injective(m, n);
    }
  }

  /** The names tried before `counter`. */
  function Tried(counter: nat): set<string>
    requires counter >= 2
  {
    if counter == 2 then {} else Tried(counter - 1) + {NumberedName(counter - 1)}
  }

  /** The name for `counter` is not among those tried before it. */
  lemma {:induction false} NotTried(earlier: nat, counter: nat)
    requires 2 <= earlier <= counter
    ensures NumberedName(counter) !in Tried(earlier)
  {
    if earlier > 2 {
      var before := earlier - 1;
      NotTried(before, counter);
      NumberedNameInjective(before, counter);
    }
  }

  lemma {:induction false} SubsetSize(a: set<string>, b: set<string>)
    requires a <= b
    ensures |a| <= |b|
  {
    if a != {} {
      var x :| x in a;
      SubsetSize(a - {x}, b - {x});
    }
  }

  /** A taken name joins the names tried, which stay inside `existing` and
      grow by one. */
  lemma TriedStep(counter: nat, next: nat, existing: set<string>)
    requires counter >= 2 && next == counter + 1
    requires Tried(counter) <= existing && NumberedName(counter) in existing
    ensures Tried(next) <= existing
    ensures |Tried(counter)| < |Tried(next)| <= |existing|
  {
    NotTried(counter, counter);
    assert Tried(next) == Tried(counter) + {NumberedName(counter)};
    SubsetSize(Tried(next), existing);
  }

  /** `get_unique_output_file`, with `existing` the names present in the
      scanned directory: `file_list.txt` when it is free, otherwise
      `file_list-NN.txt` for the smallest counter from 2 up whose name is
      free. The loop ends because every name it passes over is a distinct
      member of the finite set `existing`. */
  method UniqueOutputFile(existing: set<string>) returns (r: string)
    ensures r !in existing
    ensures "file_list.txt" !in existing ==> r == "file_list.txt"
    ensures "file_list.txt" in existing ==>
              exists counter :: counter >= 2 && r == NumberedName(counter) &&
                forall i :: 2 <= i < counter ==> NumberedName(i) in existing
  {
    if "file_list.txt" !in existing {
      return "file_list.txt";
    }
    var counter := 2;
    while true
      invariant counter >= 2
      invariant Tried(counter) <= existing
      invariant forall i :: 2 <= i < counter ==> NumberedName(i) in existing
      decreases |existing| - |Tried(counter)|
    {
      var newOutputFile := NumberedName(counter);
      if newOutputFile !in existing {
        return newOutputFile;
      }
      var next := counter + 1;
      TriedStep(counter, next, existing);
      counter := next;
    }
  }

  /** The names this script writes are listed by its own later scans: only
      `file_list.txt` is skipped, so `file_list-NN.txt` and a
      `file_list.pdf` left by the other script are ordinary files here. */
  lemma LaterScansListOutputs(counter: nat)
    ensures !Skipped(NumberedName(counter), Reserved)
    ensures !Skipped("file_list.pdf", Reserved)
    ensures Skipped("file_list.txt", Reserved)
  {
    assert NumberedName(counter)[0] == 'f';
    assert "file_list.pdf"[0] == 'f';
    assert NumberedName(counter) != "file_list.txt" by {
      assert NumberedName(counter)[9] == '-';
    }
  }
}
