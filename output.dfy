/** The `output_lines` list that every rendering step appends to, and the
    indent-stripping pass `adjust_indentation_in_file` run over the written
    lines. */
module Output {
  import opened Strings

  /** `output_lines`: one list shared by every recursive call of a scan. */
  class LineBuffer {
    var lines: seq<string>

    constructor ()
      ensures lines == []
    {
      lines := [];
    }

    /** `output_lines.append(line)` */
    method Append(line: string)
      modifies this
      ensures lines == old(lines) + [line]
    {
      lines := lines + [line];
    }
  }

  /** Regrouping appended lines; stated apart so that the proofs using it
      need not search for it. */
  lemma AppendAssoc(a: seq<string>, b: seq<string>, c: seq<string>)
    ensures a + b + c == a + (b + c)
  {
  }

  /** Appending a line and then a block extends a buffer by the joined block. */
  lemma AppendJoin(start: seq<string>, whole: seq<string>, before: seq<string>, line: string, after: seq<string>)
    requires whole == before + [line] + after
    ensures start + before + [line] + after == start + whole
  {
  }

  lemma AppendNothing(a: seq<string>, b: seq<string>)
    requires b == []
    ensures a == a + b
  {
  }

  /** Two blocks built the same way from equal parts are equal. */
  lemma JoinEqual(w: seq<string>, a: seq<string>, line: string, s: seq<string>,
                  w': seq<string>, a': seq<string>, line': string, s': seq<string>)
    requires w == a + [line] + s && w' == a' + [line'] + s'
    requires a == a' && line == line' && s == s'
    ensures w == w'
  {
  }

  /** A block that extends `head + mid` by a line and more lines is `head`
      followed by `mid` extended the same way. */
  lemma JoinRegroup(w: seq<string>, before: seq<string>, line: string, s: seq<string>,
                    head: seq<string>, mid: seq<string>, between: seq<string>)
    requires w == before + [line] + s && before == head + mid && between == mid + [line] + s
    ensures w == head + between
  {
  }

  /** Where a line and the lines after it sit in a block that starts with
      `before`, that line and those lines. */
  lemma PartsAt(all: seq<string>, upto: seq<string>, before: seq<string>, line: string, sub: seq<string>,
                rest: seq<string>)
    requires all == upto + rest && upto == before + [line] + sub
    ensures |before| + 1 + |sub| <= |all|
    ensures all[|before|] == line
    ensures all[|before| + 1..|before| + 1 + |sub|] == sub
  {
    assert all[|before|] == upto[|before|];
    assert all[|before| + 1..|before| + 1 + |sub|] == upto[|before| + 1..|before| + 1 + |sub|];
  }

  /** Every line of `ls` with `pre` put in front of it. */
  function Prefixed(pre: string, ls: seq<string>): (r: seq<string>)
    ensures |r| == |ls|
  {
    if ls == [] then [] else Prefixed(pre, ls[..|ls| - 1]) + [pre + ls[|ls| - 1]]
  }

  lemma {:induction false} PrefixedIndex(pre: string, ls: seq<string>, i: nat)
    requires i < |ls|
    ensures Prefixed(pre, ls)[i] == pre + ls[i]
  {
    if i < |ls| - 1 {
      PrefixedIndex(pre, ls[..|ls| - 1], i);
    }
  }

  lemma {:induction false} PrefixedConcat(pre: string, a: seq<string>, b: seq<string>)
    ensures Prefixed(pre, a + b) == Prefixed(pre, a) + Prefixed(pre, b)
    decreases |b|
  {
    if b == [] {
      assert a + b == a;
    } else {
      var init := b[..|b| - 1];
      assert (a + b)[..|a + b| - 1] == a + init;
      PrefixedConcat(pre, a, init);
      AppendAssoc(Prefixed(pre, a), Prefixed(pre, init), [pre + b[|b| - 1]]);
    }
  }

  lemma PrefixedAround(pre: string, before: seq<string>, line: string, after: seq<string>)
    ensures Prefixed(pre, before + [line] + after) == Prefixed(pre, before) + [pre + line] + Prefixed(pre, after)
  {
    PrefixedConcat(pre, before, [line]);
    PrefixedConcat(pre, before + [line], after);
  }

  /** A block made of a prefixed head, a prefixed line and a prefixed tail
      is the prefixed block. */
  lemma PrefixedJoin(pre: string, whole: seq<string>, before: seq<string>, line: string, after: seq<string>,
                     wholeP: seq<string>, beforeP: seq<string>, lineP: string, afterP: seq<string>)
    requires whole == before + [line] + after
    requires wholeP == beforeP + [lineP] + afterP
    requires beforeP == Prefixed(pre, before) && lineP == pre + line && afterP == Prefixed(pre, after)
    ensures wholeP == Prefixed(pre, whole)
  {
    PrefixedAround(pre, before, line, after);
  }

  /** One line of the adjusted file: the first two characters go when they
      are two spaces. */
  function AdjustLine(line: string): (r: string)
    ensures StartsWith(line, "  ") ==> line == "  " + r
    ensures !StartsWith(line, "  ") ==> r == line
  {
    if StartsWith(line, "  ") then line[2..] else line
  }

  /** The list comprehension of `adjust_indentation_in_file`, on the lines of
      the file rather than on its text. */
  function AdjustIndentation(lines: seq<string>): (r: seq<string>)
    ensures |r| == |lines|
    ensures forall i :: 0 <= i < |lines| && StartsWith(lines[i], "  ") ==> lines[i] == "  " + r[i]
    ensures forall i :: 0 <= i < |lines| && !StartsWith(lines[i], "  ") ==> r[i] == lines[i]
  {
    seq(|lines|, i requires 0 <= i < |lines| => AdjustLine(lines[i]))
  }

  /** The pass undoes a two-space indent put in front of every line. */
  lemma AdjustUndoesPrefix(ls: seq<string>)
    ensures AdjustIndentation(Prefixed("  ", ls)) == ls
  {
    var p := Prefixed("  ", ls);
    forall i | 0 <= i < |ls| ensures AdjustIndentation(p)[i] == ls[i] {
      PrefixedIndex("  ", ls, i);
      assert StartsWith(p[i], "  ");
      assert p[i][2..] == ls[i];
    }
  }

  /** A line with fewer than two leading spaces survives any number of
      passes unchanged. */
  lemma {:induction false} AdjustKeepsUnindented(lines: seq<string>, passes: nat, i: nat)
    requires i < |lines| && !StartsWith(lines[i], "  ")
    ensures |AdjustRepeated(lines, passes)| == |lines|
    ensures AdjustRepeated(lines, passes)[i] == lines[i]
  {
    if passes > 0 {
      AdjustKeepsUnindented(lines, passes - 1, i);
    }
  }

  function AdjustRepeated(lines: seq<string>, passes: nat): seq<string> {
    if passes == 0 then lines else AdjustIndentation(AdjustRepeated(lines, passes - 1))
  }
}
