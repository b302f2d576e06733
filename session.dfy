/** The listing choice of `run_script`, identical in both scripts: asked at
    most once per process, through `input(...).strip().lower()`, and kept in
    the module-level `list_all_files` for every later scan. */
module Session {
  import opened Wrappers

  /** `str.isspace` on ASCII: space, tab, line feed, vertical tab, form feed,
      carriage return and the four separators 0x1c to 0x1f. */
  predicate IsSpace(c: char) {
    c == ' ' || (9 <= c as int <= 13) || (28 <= c as int <= 31)
  }

  /** `s.lstrip()` */
  function StripLeft(s: string): (r: string)
    ensures |r| <= |s| && r == s[|s| - |r|..]
    ensures forall i :: 0 <= i < |s| - |r| ==> IsSpace(s[i])
    ensures r == [] || !IsSpace(r[0])
  {
    if |s| > 0 && IsSpace(s[0]) then StripLeft(s[1..]) else s
  }

  /** `s.rstrip()` */
  function StripRight(s: string): (r: string)
    ensures |r| <= |s| && r == s[..|r|]
    ensures forall i :: |r| <= i < |s| ==> IsSpace(s[i])
    ensures r == [] || !IsSpace(r[|r| - 1])
  {
    if |s| > 0 && IsSpace(s[|s| - 1]) then StripRight(s[..|s| - 1]) else s
  }

  /** `c.lower()` on ASCII letters; every other character is kept. */
  function LowerChar(c: char): char {
    if 'A' <= c <= 'Z' then (c as int - 'A' as int + 'a' as int) as char else c
  }

  /** `input(...).strip().lower()` */
  function Normalize(answer: string): (r: string)
    ensures |r| <= |answer|
  {
    var t := StripRight(StripLeft(answer));
    seq(|t|, i requires 0 <= i < |t| => LowerChar(t[i]))
  }

  /** The value of `list_all_files` after the choice block of one scan:
      unchanged when already set (the question is not asked); otherwise
      "y" selects the condensed listing (False) and "n" or anything else
      the full listing (True). */
  function NextChoice(listAllFiles: Option<bool>, answer: string): (r: Option<bool>)
    ensures r.Some?
    ensures listAllFiles.Some? ==> r == listAllFiles
    ensures listAllFiles.None? ==> (r.value == false <==> Normalize(answer) == "y")
  {
    if listAllFiles.Some? then listAllFiles
    else if Normalize(answer) == "y" then Some(false)
    else if Normalize(answer) == "n" then Some(true)
    else Some(true)
  }

  /** One pass of `run_script`: the choice block runs only when the entered
      path exists. */
  function ChoiceAfterScan(listAllFiles: Option<bool>, pathExists: bool, answer: string): Option<bool> {
    if pathExists then NextChoice(listAllFiles, answer) else listAllFiles
  }

  /** The choice after a sequence of passes, each given by whether its path
      existed and what would be answered if asked. */
  function ChoiceAfterScans(listAllFiles: Option<bool>, scans: seq<(bool, string)>): Option<bool>
    decreases |scans|
  {
    if scans == [] then listAllFiles
    else ChoiceAfterScans(ChoiceAfterScan(listAllFiles, scans[0].0, scans[0].1), scans[1..])
  }

  /** Once set, the choice never changes, whatever is entered later. */
  lemma {:induction false} ChoiceSetOnce(listAllFiles: Option<bool>, scans: seq<(bool, string)>)
    requires listAllFiles.Some?
    ensures ChoiceAfterScans(listAllFiles, scans) == listAllFiles
    decreases |scans|
  {
    if scans != [] {
      ChoiceSetOnce(ChoiceAfterScan(listAllFiles, scans[0].0, scans[0].1), scans[1..]);
    }
  }

  /** From an unset choice, the answer given at the first pass whose path
      exists decides every later scan. */
  lemma {:induction false} FirstAnswerDecides(scans: seq<(bool, string)>, i: nat)
    requires i < |scans| && scans[i].0
    requires forall j :: 0 <= j < i ==> !scans[j].0
    ensures ChoiceAfterScans(None, scans) == Some(Normalize(scans[i].1) != "y")
    decreases i
  {
    if i == 0 {
      ChoiceSetOnce(ChoiceAfterScan(None, scans[0].0, scans[0].1), scans[1..]);
    } else {
      assert ChoiceAfterScan(None, scans[0].0, scans[0].1) == None;
      FirstAnswerDecides(scans[1..], i - 1);
    }
  }

  /** Surrounding blanks and letter case do not matter: " Y " selects the
      condensed listing. */
  lemma UpperCaseYes()
    ensures NextChoice(None, " Y \n") == Some(false)
  {
    assert StripLeft(" Y \n") == "Y \n";
    assert StripRight("Y \n") == "Y";
    assert Normalize(" Y \n") == "y";
  }
}
