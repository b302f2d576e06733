/** The first half of `list_directory_as_tree`, common to both scripts: the
    entries of one listing are sorted, entries with a hidden or reserved name
    are skipped, and the rest are split into directories and files, each part
    keeping the sorted order. */
module Listing {
  import opened Strings
  import opened FileSystem

  /** The skip test of the entry loop. The scripts differ only in `reserved`. */
  predicate Skipped(name: string, reserved: set<string>) {
    StartsWith(name, ".") || name == ".DS_Store" || name in reserved
  }

  /** `dirs` after the entry loop has seen `entries`. */
  function Subdirs(entries: seq<Node>, reserved: set<string>): (r: seq<Node>)
    ensures |r| <= |entries|
  {
    if entries == [] then []
    else
      var e := entries[|entries| - 1];
      var rest := Subdirs(entries[..|entries| - 1], reserved);
      if e.Dir? && !Skipped(e.name, reserved) then rest + [e] else rest
  }

  /** `files` after the entry loop has seen `entries`. */
  function Files(entries: seq<Node>, reserved: set<string>): (r: seq<Node>)
    ensures |r| <= |entries|
  {
    if entries == [] then []
    else
      var e := entries[|entries| - 1];
      var rest := Files(entries[..|entries| - 1], reserved);
      if e.File? && !Skipped(e.name, reserved) then rest + [e] else rest
  }

  /** `dirs` holds exactly the entries that are directories and not skipped. */
  lemma {:induction false} SubdirsMembers(entries: seq<Node>, reserved: set<string>)
    ensures forall x :: x in Subdirs(entries, reserved) <==> x in entries && x.Dir? && !Skipped(x.name, reserved)
  {
    if entries != [] {
      var init := entries[..|entries| - 1];
      SubdirsMembers(init, reserved);
      assert entries == init + [entries[|entries| - 1]];
    }
  }

  /** `files` holds exactly the entries that are files and not skipped. */
  lemma {:induction false} FilesMembers(entries: seq<Node>, reserved: set<string>)
    ensures forall x :: x in Files(entries, reserved) <==> x in entries && x.File? && !Skipped(x.name, reserved)
  {
    if entries != [] {
      var init := entries[..|entries| - 1];
      FilesMembers(init, reserved);
      assert entries == init + [entries[|entries| - 1]];
    }
  }

  /** One step of the entry loop. */
  lemma PartitionStep(entries: seq<Node>, i: nat, reserved: set<string>)
    requires i < |entries|
    ensures Subdirs(entries[..i + 1], reserved) ==
            Subdirs(entries[..i], reserved) +
            (if entries[i].Dir? && !Skipped(entries[i].name, reserved) then [entries[i]] else [])
    ensures Files(entries[..i + 1], reserved) ==
            Files(entries[..i], reserved) +
            (if entries[i].File? && !Skipped(entries[i].name, reserved) then [entries[i]] else [])
  {
    assert entries[..i + 1][..i] == entries[..i];
  }

  /** The entry loop of `list_directory_as_tree`: the entries of a sorted
      listing that are not skipped, split into directories and files, each
      part keeping the listing order. */
  method SplitEntries(entries: seq<Node>, reserved: set<string>) returns (dirs: seq<Node>, files: seq<Node>)
    ensures dirs == Subdirs(entries, reserved)
    ensures files == Files(entries, reserved)
  {
    dirs, files := [], [];
    var i := 0;
    while i < |entries|
      invariant 0 <= i <= |entries|
      invariant dirs == Subdirs(entries[..i], reserved)
      invariant files == Files(entries[..i], reserved)
    {
      var entry := entries[i];
      PartitionStep(entries, i, reserved);
      if !Skipped(entry.name, reserved) {
        if entry.Dir? {
          dirs := dirs + [entry];
        } else {
          files := files + [entry];
        }
      }
      i := i + 1;
    }
    assert entries[..i] == entries;
  }

  /** `dirs` are subdirectories of `d`. */
  predicate Subdirectories(d: Node, dirs: seq<Node>)
    requires d.Dir?
  {
    forall i :: 0 <= i < |dirs| ==> dirs[i] in d.children && dirs[i].Dir?
  }

  /** The directories the walker descends into below `d`, in listing order. */
  function VisibleDirs(d: Node, reserved: set<string>): seq<Node>
    requires d.Dir?
  {
    Subdirs(SortByName(d.children), reserved)
  }

  /** The files the walker hands to the file renderer below `d`, in listing order. */
  function VisibleFiles(d: Node, reserved: set<string>): seq<Node>
    requires d.Dir?
  {
    Files(SortByName(d.children), reserved)
  }

  /** The walk descends into exactly the directory entries of `d` that are
      not skipped, and lists as files exactly its file entries that are not
      skipped. */
  lemma VisibleEntries(d: Node, reserved: set<string>)
    requires d.Dir?
    ensures forall x :: x in VisibleDirs(d, reserved) <==> x in d.children && x.Dir? && !Skipped(x.name, reserved)
    ensures forall x :: x in VisibleFiles(d, reserved) <==> x in d.children && x.File? && !Skipped(x.name, reserved)
  {
    SortByNameMembers(d.children);
    SubdirsMembers(SortByName(d.children), reserved);
    FilesMembers(SortByName(d.children), reserved);
  }

  lemma {:induction false} SubdirsSorted(entries: seq<Node>, reserved: set<string>)
    requires SortedByName(entries)
    ensures SortedByName(Subdirs(entries, reserved))
  {
    if entries != [] {
      var init := entries[..|entries| - 1];
      var e := entries[|entries| - 1];
      SubdirsSorted(init, reserved);
      SubdirsMembers(init, reserved);
      var rest := Subdirs(init, reserved);
      forall x | x in rest ensures NameLe(x.name, e.name) {
        var k :| 0 <= k < |init| && init[k] == x;
      }
    }
  }

  lemma {:induction false} FilesSorted(entries: seq<Node>, reserved: set<string>)
    requires SortedByName(entries)
    ensures SortedByName(Files(entries, reserved))
  {
    if entries != [] {
      var init := entries[..|entries| - 1];
      var e := entries[|entries| - 1];
      FilesSorted(init, reserved);
      FilesMembers(init, reserved);
      var rest := Files(init, reserved);
      forall x | x in rest ensures NameLe(x.name, e.name) {
        var k :| 0 <= k < |init| && init[k] == x;
      }
    }
  }

  /** Both parts of a directory's listing come out in `sorted` order. */
  lemma ListingSorted(d: Node, reserved: set<string>)
    requires d.Dir?
    ensures SortedByName(VisibleDirs(d, reserved)) && SortedByName(VisibleFiles(d, reserved))
  {
    SortByNameSorted(d.children);
    SubdirsSorted(SortByName(d.children), reserved);
    FilesSorted(SortByName(d.children), reserved);
  }

  // ---------------------------------------------------------------------
  // Removing every skipped entry, at every depth, changes nothing the
  // walker sees.

  /** The tree with every skipped entry removed, at every depth. */
  function Prune(n: Node, reserved: set<string>): (r: Node)
    ensures r.name == n.name && r.Dir? == n.Dir?
    ensures n.Dir? ==> r.found == n.found
    ensures n.File? ==> r == n
    decreases n
  {
    match n
    case File(_, _) => n
    case Dir(name, cs, found) => Dir(name, PruneAll(cs, reserved), found)
  }

  function PruneAll(cs: seq<Node>, reserved: set<string>): seq<Node>
    decreases cs
  {
    if cs == [] then []
    else
      var last := cs[|cs| - 1];
      var rest := PruneAll(cs[..|cs| - 1], reserved);
      if Skipped(last.name, reserved) then rest else rest + [Prune(last, reserved)]
  }

  /** No entry at any depth below `n` has a skipped name. */
  ghost predicate NothingSkipped(n: Node, reserved: set<string>) {
    match n
    case File(_, _) => true
    case Dir(_, cs, _) =>
      forall i :: 0 <= i < |cs| ==> !Skipped(cs[i].name, reserved) && NothingSkipped(cs[i], reserved)
  }

  lemma {:induction false} PruneAllConcat(a: seq<Node>, b: seq<Node>, reserved: set<string>)
    ensures PruneAll(a + b, reserved) == PruneAll(a, reserved) + PruneAll(b, reserved)
    decreases |b|
  {
    if b == [] {
      assert a + b == a;
    } else {
      var init := b[..|b| - 1];
      assert a + b == (a + init) + [b[|b| - 1]];
      assert (a + b)[..|a + b| - 1] == a + init;
      PruneAllConcat(a, init, reserved);
    }
  }

  lemma {:induction false} PruneAllSingle(x: Node, reserved: set<string>)
    ensures PruneAll([x], reserved) == if Skipped(x.name, reserved) then [] else [Prune(x, reserved)]
  {
    assert [x][..0] == [];
  }

  /** Inserting a skipped entry into a listing leaves no trace once pruned. */
  lemma {:induction false} InsertSkipped(x: Node, s: seq<Node>, reserved: set<string>)
    requires Skipped(x.name, reserved)
    ensures PruneAll(InsertByName(x, s), reserved) == PruneAll(s, reserved)
  {
    PruneAllSingle(x, reserved);
    if s == [] || NameLe(x.name, s[0].name) {
      PruneAllConcat([x], s, reserved);
    } else {
      InsertSkipped(x, s[1..], reserved);
      PruneAllConcat([s[0]], InsertByName(x, s[1..]), reserved);
      PruneAllConcat([s[0]], s[1..], reserved);
      assert s == [s[0]] + s[1..];
    }
  }

  /** Inserting a kept entry commutes with pruning, on a sorted listing. */
  lemma {:induction false} InsertKept(x: Node, s: seq<Node>, reserved: set<string>)
    requires !Skipped(x.name, reserved) && SortedByName(s)
    ensures PruneAll(InsertByName(x, s), reserved) == InsertByName(Prune(x, reserved), PruneAll(s, reserved))
    decreases |s|, 1
  {
    if s == [] {
      PruneAllSingle(x, reserved);
      assert PruneAll(s, reserved) == [];
    } else if NameLe(x.name, s[0].name) {
      InsertLeading(x, s, reserved);
    } else {
      InsertBehind(x, s, reserved);
    }
  }

  /** The case of `InsertKept` where `x` goes after the first entry. */
  lemma {:induction false} InsertBehind(x: Node, s: seq<Node>, reserved: set<string>)
    requires !Skipped(x.name, reserved) && SortedByName(s)
    requires s != [] && !NameLe(x.name, s[0].name)
    ensures PruneAll(InsertByName(x, s), reserved) == InsertByName(Prune(x, reserved), PruneAll(s, reserved))
    decreases |s|, 0
  {
    var s0 := s[0];
    var t := s[1..];
    assert s == [s0] + t;
    assert SortedByName(t);
    InsertKept(x, t, reserved);
    assert InsertByName(x, s) == [s0] + InsertByName(x, t);
    PruneAllConcat([s0], InsertByName(x, t), reserved);
    PruneAllConcat([s0], t, reserved);
    PruneAllSingle(s0, reserved);
    if !Skipped(s0.name, reserved) {
      InsertBehindKept(x, s0, t, reserved);
    } else {
      assert PruneAll(s, reserved) == PruneAll(t, reserved);
    }
  }

  lemma InsertBehindKept(x: Node, s0: Node, t: seq<Node>, reserved: set<string>)
    requires !Skipped(s0.name, reserved) && !NameLe(x.name, s0.name)
    ensures InsertByName(Prune(x, reserved), [Prune(s0, reserved)] + PruneAll(t, reserved)) ==
            [Prune(s0, reserved)] + InsertByName(Prune(x, reserved), PruneAll(t, reserved))
  {
    var u := [Prune(s0, reserved)] + PruneAll(t, reserved);
    assert u[0] == Prune(s0, reserved) && u[1..] == PruneAll(t, reserved);
  }

  /** The case of `InsertKept` where `x` goes in front of the listing. */
  lemma InsertLeading(x: Node, s: seq<Node>, reserved: set<string>)
    requires !Skipped(x.name, reserved) && SortedByName(s)
    requires s != [] && NameLe(x.name, s[0].name)
    ensures PruneAll(InsertByName(x, s), reserved) == InsertByName(Prune(x, reserved), PruneAll(s, reserved))
  {
    var px := Prune(x, reserved);
    var u := PruneAll(s, reserved);
    assert InsertByName(x, s) == [x] + s;
    PruneAllSingle(x, reserved);
    PruneAllConcat([x], s, reserved);
    if u != [] {
      PruneAllMembers(s, reserved);
      assert u[0] in u;
      var z :| z in s && u[0] == Prune(z, reserved);
      var i :| 0 <= i < |s| && s[i] == z;
      if i > 0 {
        NameLeTransitive(x.name, s[0].name, s[i].name);
      }
      assert NameLe(px.name, u[0].name);
    }
  }

  /** Sorting and pruning commute: pruning a listing before `sorted` or
      after it gives the same sequence. */
  lemma {:induction false} SortPruneAll(cs: seq<Node>, reserved: set<string>)
    ensures SortByName(PruneAll(cs, reserved)) == PruneAll(SortByName(cs), reserved)
  {
    if cs == [] {
      assert PruneAll(cs, reserved) == [];
    } else {
      var x := cs[0];
      var t := cs[1..];
      assert cs == [x] + t;
      PruneAllConcat([x], t, reserved);
      PruneAllSingle(x, reserved);
      SortPruneAll(t, reserved);
      SortByNameSorted(t);
      assert SortByName(cs) == InsertByName(x, SortByName(t));
      if Skipped(x.name, reserved) {
        assert PruneAll(cs, reserved) == PruneAll(t, reserved);
        InsertSkipped(x, SortByName(t), reserved);
      } else {
        var u := PruneAll(cs, reserved);
        assert u == [Prune(x, reserved)] + PruneAll(t, reserved);
        assert u[0] == Prune(x, reserved) && u[1..] == PruneAll(t, reserved);
        assert SortByName(u) == InsertByName(u[0], SortByName(u[1..]));
        InsertKept(x, SortByName(t), reserved);
      }
    }
  }

  lemma {:induction false} SubdirsPruneAll(entries: seq<Node>, reserved: set<string>)
    ensures |Subdirs(PruneAll(entries, reserved), reserved)| == |Subdirs(entries, reserved)|
    ensures forall i :: 0 <= i < |Subdirs(entries, reserved)| ==>
              Subdirs(PruneAll(entries, reserved), reserved)[i] == Prune(Subdirs(entries, reserved)[i], reserved)
  {
    if entries != [] {
      var init := entries[..|entries| - 1];
      var e := entries[|entries| - 1];
      SubdirsPruneAll(init, reserved);
      var u := PruneAll(init, reserved);
      if !Skipped(e.name, reserved) {
        var y := Prune(e, reserved);
        assert PruneAll(entries, reserved) == u + [y];
        assert (u + [y])[..|u + [y]| - 1] == u;
      }
    }
  }

  lemma {:induction false} FilesPruneAll(entries: seq<Node>, reserved: set<string>)
    ensures Files(PruneAll(entries, reserved), reserved) == Files(entries, reserved)
  {
    if entries != [] {
      var init := entries[..|entries| - 1];
      var e := entries[|entries| - 1];
      FilesPruneAll(init, reserved);
      var u := PruneAll(init, reserved);
      if !Skipped(e.name, reserved) {
        var y := Prune(e, reserved);
        assert PruneAll(entries, reserved) == u + [y];
        assert (u + [y])[..|u + [y]| - 1] == u;
      }
    }
  }

  /** What the walker sees of a pruned directory: the pruned subdirectories,
      in the same order, and exactly the same files. */
  lemma PruneListing(d: Node, reserved: set<string>)
    requires d.Dir?
    ensures |VisibleDirs(Prune(d, reserved), reserved)| == |VisibleDirs(d, reserved)|
    ensures forall i :: 0 <= i < |VisibleDirs(d, reserved)| ==>
              VisibleDirs(Prune(d, reserved), reserved)[i] == Prune(VisibleDirs(d, reserved)[i], reserved)
    ensures VisibleFiles(Prune(d, reserved), reserved) == VisibleFiles(d, reserved)
  {
    SortPruneAll(d.children, reserved);
    SubdirsPruneAll(SortByName(d.children), reserved);
    FilesPruneAll(SortByName(d.children), reserved);
  }

  lemma {:induction false} PruneAllMembers(cs: seq<Node>, reserved: set<string>)
    ensures forall y | y in PruneAll(cs, reserved) ::
              !Skipped(y.name, reserved) && exists x :: x in cs && y == Prune(x, reserved)
  {
    if cs != [] {
      PruneAllMembers(cs[..|cs| - 1], reserved);
      var x := cs[|cs| - 1];
      forall y | y in PruneAll(cs, reserved)
        ensures !Skipped(y.name, reserved) && exists x :: x in cs && y == Prune(x, reserved)
      {
        if y in PruneAll(cs[..|cs| - 1], reserved) {
          var z :| z in cs[..|cs| - 1] && y == Prune(z, reserved);
          assert z in cs;
        } else {
          assert y == Prune(x, reserved);
        }
      }
    }
  }

  /** Pruning leaves no skipped name at any depth. */
  lemma {:induction false} PruneHidesSkipped(n: Node, reserved: set<string>)
    ensures NothingSkipped(Prune(n, reserved), reserved)
    decreases n
  {
    if n.Dir? {
      var cs := PruneAll(n.children, reserved);
      PruneAllMembers(n.children, reserved);
      forall i | 0 <= i < |cs| ensures !Skipped(cs[i].name, reserved) && NothingSkipped(cs[i], reserved) {
        assert cs[i] in cs;
        var x :| x in n.children && cs[i] == Prune(x, reserved);
        PruneHidesSkipped(x, reserved);
      }
    }
  }
}
