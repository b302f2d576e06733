/** The directory tree both scripts walk, standing in for `os.listdir`,
    `os.path.isdir` and `zipfile.ZipFile`, and the `sorted(...)` applied to
    every listing. */
module FileSystem {
  import opened Strings

  /** What `zipfile.ZipFile` finds when it opens a file's bytes. */
  datatype Archive =
    | NotAnArchive                 // not a zip at all: ZipFile raises BadZipFile
    | Readable(entries: seq<string>) // the names of `infolist()`, in archive order
    | Corrupted                    // a damaged zip: ZipFile raises BadZipFile

  /** An entry of a directory listing. `found` is false for a directory whose
      listing raises FileNotFoundError when the walk reaches it. */
  datatype Node =
    | Dir(name: string, children: seq<Node>, found: bool)
    | File(name: string, archive: Archive)

  predicate AllFiles(fs: seq<Node>) {
    forall f | f in fs :: f.File?
  }

  predicate SortedByName(s: seq<Node>) {
    forall i, j :: 0 <= i < j < |s| ==> NameLe(s[i].name, s[j].name)
  }

  /** Regrouping appended lists of entries. */
  lemma AppendNodes(a: seq<Node>, b: seq<Node>, c: seq<Node>)
    ensures a + b + c == a + (b + c)
  {
  }

  /** Puts `x` in front of the first element whose name is not below it. */
  function InsertByName(x: Node, s: seq<Node>): (r: seq<Node>)
    ensures |r| == |s| + 1
  {
    if s == [] || NameLe(x.name, s[0].name) then [x] + s
    else [s[0]] + InsertByName(x, s[1..])
  }

  /** `sorted(...)` of a listing, comparing names. */
  function SortByName(s: seq<Node>): (r: seq<Node>)
    ensures |r| == |s|
  {
    if s == [] then []
    else InsertByName(s[0], SortByName(s[1..]))
  }

  lemma {:induction false} InsertByNamePermutes(x: Node, s: seq<Node>)
    ensures multiset(InsertByName(x, s)) == multiset(s) + multiset{x}
  {
    if !(s == [] || NameLe(x.name, s[0].name)) {
      InsertByNamePermutes(x, s[1..]);
      assert s == [s[0]] + s[1..];
    }
  }

  /** Sorting neither loses nor adds entries. */
  lemma {:induction false} SortByNamePermutes(s: seq<Node>)
    ensures multiset(SortByName(s)) == multiset(s)
  {
    if s != [] {
      SortByNamePermutes(s[1..]);
      InsertByNamePermutes(s[0], SortByName(s[1..]));
      assert s == [s[0]] + s[1..];
    }
  }

  lemma {:induction false} InsertByNameSorted(x: Node, s: seq<Node>)
    requires SortedByName(s)
    ensures SortedByName(InsertByName(x, s))
  {
    if s == [] || NameLe(x.name, s[0].name) {
      var r := [x] + s;
      forall i, j | 0 <= i < j < |r| ensures NameLe(r[i].name, r[j].name) {
        if i == 0 && j > 1 {
          NameLeTransitive(x.name, s[0].name, s[j - 1].name);
        }
      }
    } else {
      InsertByNameSorted(x, s[1..]);
      var t := InsertByName(x, s[1..]);
      var r := [s[0]] + t;
      InsertByNamePermutes(x, s[1..]);
      NameLeTotal(x.name, s[0].name);
      forall j | 0 <= j < |t| ensures NameLe(s[0].name, t[j].name) {
        assert t[j] in multiset(t);
        if t[j] != x {
          assert t[j] in multiset(s[1..]);
          var k :| 0 <= k < |s[1..]| && s[1..][k] == t[j];
          assert s[k + 1] == t[j];
        }
      }
      assert SortedByName(r);
    }
  }

  lemma {:induction false} SortByNameSorted(s: seq<Node>)
    ensures SortedByName(SortByName(s))
  {
    if s != [] {
      SortByNameSorted(s[1..]);
      InsertByNameSorted(s[0], SortByName(s[1..]));
    }
  }

  lemma SortByNameMembers(s: seq<Node>)
    ensures forall x :: x in SortByName(s) <==> x in s
  {
    SortByNamePermutes(s);
    forall x ensures x in SortByName(s) <==> x in s {
      assert x in SortByName(s) <==> x in multiset(SortByName(s));
      assert x in s <==> x in multiset(s);
    }
  }
}
