/** The frame-sequence pattern `(.*?)(\d{4})\.(\w+)$` used with `re.match`,
    and the grouping of matching names by `(base, ext)` in a dictionary that
    keeps the order in which each key was first inserted. Both scripts share
    this part; they differ in what they print for a group. */
module FramePattern {
  import opened Strings
  import opened Wrappers
  import opened FileSystem

  /** A group key: the text before the four digits and the text after the
      last dot. */
  type Key = (string, string)

  /** A well-formed split of `name`: `base`, then four digits, then a dot,
      then one or more word characters up to the end. */
  predicate FrameSplit(name: string, base: string, digits: string, ext: string) {
    name == base + digits + "." + ext && |digits| == 4 && AllDigits(digits) &&
    |ext| > 0 && AllWordChars(ext)
  }

  /** Index of the last dot in `s`, if any. */
  function LastDot(s: string): (r: Option<nat>)
    ensures r.Some? ==> r.value < |s|
  {
    if |s| == 0 then None
    else if s[|s| - 1] == '.' then Some(|s| - 1)
    else LastDot(s[..|s| - 1])
  }

  /** The index found holds a dot and no dot follows it; without one, `s`
      has no dot at all. */
  lemma {:induction false} LastDotExact(s: string)
    ensures LastDot(s).Some? ==> s[LastDot(s).value] == '.' &&
                                 forall j :: LastDot(s).value < j < |s| ==> s[j] != '.'
    ensures LastDot(s).None? ==> forall j :: 0 <= j < |s| ==> s[j] != '.'
  {
    if |s| > 0 && s[|s| - 1] != '.' {
      LastDotExact(s[..|s| - 1]);
    }
  }

  /** The groups `(base, ext)` of a match, or None when the pattern does not
      match. `\w` never matches a dot, so the extension is what follows the
      last dot and the split is unique. */
  function SplitFrame(name: string): Option<Key> {
    match LastDot(name)
    case None => None
    case Some(p) =>
      if p >= 4 && AllDigits(name[p - 4..p]) && p + 1 < |name| && AllWordChars(name[p + 1..]) then
        Some((name[..p - 4], name[p + 1..]))
      else None
  }

  /** A match is a well-formed split of the name. */
  lemma SplitFrameSound(name: string)
    ensures SplitFrame(name).Some? ==>
              var k := SplitFrame(name).value;
              |k.0| + 4 <= |name| && FrameSplit(name, k.0, name[|k.0|..|k.0| + 4], k.1)
  {
    if SplitFrame(name).Some? {
      var p := LastDot(name).value;
      LastDotExact(name);
      assert name == name[..p - 4] + name[p - 4..p] + "." + name[p + 1..];
    }
  }

  /** Every well-formed split is the one the pattern finds. */
  lemma SplitFrameComplete(name: string, base: string, digits: string, ext: string)
    requires FrameSplit(name, base, digits, ext)
    ensures SplitFrame(name) == Some((base, ext))
  {
    var q := |base| + 4;
    LastDotExact(name);
    assert name[q] == '.';
    forall j | q < j < |name| ensures name[j] != '.' {
      assert name[j] == ext[j - q - 1];
    }
    var p := LastDot(name).value;
    assert p == q;
    assert name[p - 4..p] == digits;
    assert name[..p - 4] == base;
    assert name[p + 1..] == ext;
  }

  /** The pattern matches exactly the names that have a well-formed split. */
  lemma SplitFrameMatches(name: string)
    ensures SplitFrame(name).Some? <==> exists b, d, e :: FrameSplit(name, b, d, e)
  {
    SplitFrameSound(name);
    if exists b, d, e :: FrameSplit(name, b, d, e) {
      var b, d, e :| FrameSplit(name, b, d, e);
      SplitFrameComplete(name, b, d, e);
    }
  }

  /** The files of `files` whose key is `k`, in order: the list stored under
      `k` by `frame_sequences[(base, ext)].append(filename)`. */
  function Members(files: seq<Node>, k: Key): (r: seq<Node>)
    ensures |r| <= |files|
  {
    if files == [] then []
    else
      var f := files[|files| - 1];
      var rest := Members(files[..|files| - 1], k);
      if SplitFrame(f.name) == Some(k) then rest + [f] else rest
  }

  /** A group holds exactly the files whose match gives its key. */
  lemma {:induction false} MembersExact(files: seq<Node>, k: Key)
    ensures forall x :: x in Members(files, k) <==> x in files && SplitFrame(x.name) == Some(k)
  {
    if files != [] {
      var init := files[..|files| - 1];
      MembersExact(init, k);
      assert files == init + [files[|files| - 1]];
    }
  }

  /** The files the pattern does not match, in order (`other_files` after the
      first loop). */
  function Unmatched(files: seq<Node>): (r: seq<Node>)
    ensures |r| <= |files|
  {
    if files == [] then []
    else
      var f := files[|files| - 1];
      var rest := Unmatched(files[..|files| - 1]);
      if SplitFrame(f.name).None? then rest + [f] else rest
  }

  /** `other_files` after the first loop holds exactly the unmatched files. */
  lemma {:induction false} UnmatchedExact(files: seq<Node>)
    ensures forall x :: x in Unmatched(files) <==> x in files && SplitFrame(x.name).None?
  {
    if files != [] {
      var init := files[..|files| - 1];
      UnmatchedExact(init);
      assert files == init + [files[|files| - 1]];
    }
  }

  /** Every file lands in exactly one place: a file is unmatched or in the
      group of its own key, and in no other group. */
  lemma FilesPartition(files: seq<Node>, x: Node)
    requires x in files
    ensures x in Unmatched(files) <==> SplitFrame(x.name).None?
    ensures forall k :: x in Members(files, k) <==> SplitFrame(x.name) == Some(k)
  {
    UnmatchedExact(files);
    forall k ensures x in Members(files, k) <==> SplitFrame(x.name) == Some(k) {
      MembersExact(files, k);
    }
  }

  /** The keys of the `frame_sequences` dictionary in insertion order: each
      key once, at the place where a file first produced it. */
  function GroupOrder(files: seq<Node>): seq<Key> {
    if files == [] then []
    else
      var f := files[|files| - 1];
      var rest := GroupOrder(files[..|files| - 1]);
      match SplitFrame(f.name)
      case None => rest
      case Some(k) => if k in rest then rest else rest + [k]
  }

  /** No key is inserted twice. */
  lemma {:induction false} GroupOrderDistinct(files: seq<Node>)
    ensures forall i, j :: 0 <= i < j < |GroupOrder(files)| ==> GroupOrder(files)[i] != GroupOrder(files)[j]
  {
    if files != [] {
      GroupOrderDistinct(files[..|files| - 1]);
    }
  }

  /** A key is in the dictionary exactly when some file produced it, that
      is when its group is not empty; and its extension is non-empty
      word characters. */
  lemma {:induction false} GroupOrderKeys(files: seq<Node>)
    ensures forall k :: k in GroupOrder(files) <==> |Members(files, k)| > 0
    ensures forall k | k in GroupOrder(files) :: AllWordChars(k.1) && |k.1| > 0
  {
    if files != [] {
      var f := files[|files| - 1];
      var init := files[..|files| - 1];
      GroupOrderKeys(init);
      forall k ensures k in GroupOrder(files) <==> |Members(files, k)| > 0 {
        assert |Members(files, k)| == |Members(init, k)| + (if SplitFrame(f.name) == Some(k) then 1 else 0);
      }
    }
  }

  /** One step of the grouping loop: what the key order, the dictionary
      and `other_files` become when one more file `f` has been seen. */
  lemma GroupStep(seen: seq<Node>, f: Node)
    ensures Unmatched(seen + [f]) == Unmatched(seen) + (if SplitFrame(f.name).None? then [f] else [])
    ensures GroupOrder(seen + [f]) ==
            match SplitFrame(f.name)
            case None => GroupOrder(seen)
            case Some(k) => if k in GroupOrder(seen) then GroupOrder(seen) else GroupOrder(seen) + [k]
    ensures Groups(seen + [f]) ==
            match SplitFrame(f.name)
            case None => Groups(seen)
            case Some(k) => Groups(seen)[k := (if k in Groups(seen) then Groups(seen)[k] else []) + [f]]
  {
    assert (seen + [f])[..|seen + [f]| - 1] == seen;
  }

  /** The `frame_sequences` dictionary once `files` have been seen: a file
      the pattern does not match leaves it alone, a matched one is appended
      to the list of its key, which starts empty when the key is new. */
  function Groups(files: seq<Node>): map<Key, seq<Node>> {
    if files == [] then map[]
    else
      var f := files[|files| - 1];
      var g := Groups(files[..|files| - 1]);
      match SplitFrame(f.name)
      case None => g
      case Some(k) => g[k := (if k in g then g[k] else []) + [f]]
  }

  /** The dictionary's keys are the inserted keys, and each holds its whole
      group. */
  lemma {:induction false} GroupsAt(files: seq<Node>, k: Key)
    ensures k in Groups(files) <==> k in GroupOrder(files)
    ensures k in Groups(files) ==> Groups(files)[k] == Members(files, k)
  {
    if files != [] {
      var f := files[|files| - 1];
      var init := files[..|files| - 1];
      GroupsAt(init, k);
      if SplitFrame(f.name) == Some(k) && k !in Groups(init) {
        GroupOrderKeys(init);
        assert Members(init, k) == [];
      }
    }
  }

  /** Insertion order: the keys met in `a` keep their places, and keys first
      met in `b` come after them. */
  lemma {:induction false} GroupOrderPrefix(a: seq<Node>, b: seq<Node>)
    ensures |GroupOrder(a)| <= |GroupOrder(a + b)|
    ensures GroupOrder(a + b)[..|GroupOrder(a)|] == GroupOrder(a)
    decreases |b|
  {
    if b == [] {
      assert a + b == a;
    } else {
      var init := b[..|b| - 1];
      assert (a + b)[..|a + b| - 1] == a + init;
      GroupOrderPrefix(a, init);
    }
  }

  /** The condensed line of a group: `f"{indent}{base}[image sequence].{ext}"`. */
  function SequenceLine(indent: string, k: Key): string {
    indent + (k.0 + "[image sequence]." + k.1)
  }

  /** Two strings that split as `prefix + "." + suffix` with a dot-free
      suffix split the same way. */
  lemma LastDotSplit(a1: string, e1: string, a2: string, e2: string)
    requires a1 + "." + e1 == a2 + "." + e2
    requires forall j :: 0 <= j < |e1| ==> e1[j] != '.'
    requires forall j :: 0 <= j < |e2| ==> e2[j] != '.'
    ensures a1 == a2 && e1 == e2
  {
    var s := a1 + "." + e1;
    DotBeforeSuffix(s, a1, e1);
    DotBeforeSuffix(s, a2, e2);
    assert |a1| == |a2|;
    assert a1 == s[..|a1|] == a2;
    assert e1 == s[|a1| + 1..] == e2;
  }

  lemma DotBeforeSuffix(s: string, a: string, e: string)
    requires s == a + "." + e
    requires forall j :: 0 <= j < |e| ==> e[j] != '.'
    ensures s[|a|] == '.'
    ensures forall j :: |a| < j < |s| ==> s[j] != '.'
  {
    forall j | |a| < j < |s| ensures s[j] != '.' {
      assert s[j] == e[j - |a| - 1];
    }
  }

  /** Different groups never share a condensed line. */
  lemma SequenceLineInjective(indent: string, k1: Key, k2: Key)
    requires AllWordChars(k1.1) && AllWordChars(k2.1)
    ensures SequenceLine(indent, k1) == SequenceLine(indent, k2) ==> k1 == k2
  {
    if SequenceLine(indent, k1) == SequenceLine(indent, k2) {
      var a1 := indent + k1.0 + "[image sequence]";
      var a2 := indent + k2.0 + "[image sequence]";
      assert SequenceLine(indent, k1) == a1 + "." + k1.1;
      assert SequenceLine(indent, k2) == a2 + "." + k2.1;
      LastDotSplit(a1, k1.1, a2, k2.1);
      assert k1.0 == a1[|indent|..|a1| - 16] == a2[|indent|..|a2| - 16] == k2.0;
    }
  }

  /** `a.0001.exr`: the lazy `(.*?)` keeps the dot before the digits in the
      base, so the condensed line is `a.[image sequence].exr`. */
  lemma DottedBaseExample(name: string)
    requires name == "a.0001.exr"
    ensures SplitFrame(name) == Some(("a.", "exr"))
    ensures SequenceLine("", ("a.", "exr")) == "a.[image sequence].exr"
  {
    DottedBaseSplit(name, "a.", "0001", "exr");
    SplitFrameComplete(name, "a.", "0001", "exr");
  }

  lemma DottedBaseSplit(name: string, base: string, digits: string, ext: string)
    requires name == "a.0001.exr" && base == "a." && digits == "0001" && ext == "exr"
    ensures FrameSplit(name, base, digits, ext)
  {
    assert name == base + digits + "." + ext;
  }
}
