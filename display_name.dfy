/** Level.GenerateDisplayName: the human-readable level name taken from the two
    title pages' text, "Level 3 BLAST POWER" becoming "BLAST POWER". String search
    is ordinal here and a digit is an ASCII digit. */
module DisplayNames {

  const LevelWord: string := "Level "

  predicate OccursAt(s: string, pat: string, i: int)
  {
    0 <= i && i + |pat| <= |s| && s[i..i + |pat|] == pat
  }

  /** The last start of `pat` at or below i, or -1. */
  function LastFrom(s: string, pat: string, i: int): (r: int)
    ensures r == -1 || 0 <= r <= i
    ensures r >= 0 ==> OccursAt(s, pat, r)
    ensures forall j :: r < j <= i ==> !OccursAt(s, pat, j)
    decreases i + 1
  {
    if i < 0 then -1 else if OccursAt(s, pat, i) then i else LastFrom(s, pat, i - 1)
  }

  /** String.LastIndexOf: the last start of `pat` in `s`, or -1. */
  function LastIndexOf(s: string, pat: string): (r: int)
    ensures -1 <= r
    ensures r >= 0 ==> OccursAt(s, pat, r)
    ensures forall j :: r < j ==> !OccursAt(s, pat, j)
  {
    LastFrom(s, pat, |s| - |pat|)
  }

  /** String.IndexOf(pat, from): the first start of `pat` at or after `from`, or -1. */
  function IndexOf(s: string, pat: string, from: nat): (r: int)
    ensures r == -1 || (from <= r && OccursAt(s, pat, r))
    ensures forall j :: from <= j && (r == -1 || j < r) ==> !OccursAt(s, pat, j)
    decreases |s| - from
  {
    if from + |pat| > |s| then -1
    else if OccursAt(s, pat, from) then from
    else IndexOf(s, pat, from + 1)
  }

  predicate IsDigit(c: char)
  {
    '0' <= c <= '9'
  }

  /** The name after the last "Level "; a level number right after it is skipped up
      to and including the next space, and with no space left the name is empty.
      Without a "Level " followed by some text the name is left as it is. */
  function GenerateDisplayName(name: string): (r: string)
    ensures |r| <= |name| && r == name[|name| - |r|..]
  {
    var start := LastIndexOf(name, LevelWord);
    if start < 0 || start + 6 >= |name| then name
    else if IsDigit(name[start + 6]) then
      var space := IndexOf(name, " ", start + 6);
      if space < 0 then "" else name[space + 1..]
    else name[start + 6..]
  }

  /** The joined text of the two title pages, separated by a space. */
  function DisplayName(title1: string, title2: string): string
  {
    GenerateDisplayName(title1 + " " + title2)
  }

  /** The name is returned unchanged exactly when it holds no "Level " or its last
      "Level " ends the string. */
  lemma UnchangedExactly(name: string)
    ensures GenerateDisplayName(name) == name <==>
      LastIndexOf(name, LevelWord) < 0 || LastIndexOf(name, LevelWord) + 6 >= |name|
  {
    var start := LastIndexOf(name, LevelWord);
    if start >= 0 && start + 6 < |name| && IsDigit(name[start + 6]) {
      var space := IndexOf(name, " ", start + 6);
      if space >= 0 {
        assert |name[space + 1..]| < |name|;
      }
    }
  }

  /** Otherwise the result is a suffix of the text after the last "Level ", so it
      holds no "Level " of its own; without a level number it is all of that text. */
  lemma LevelWordRemoved(name: string)
    requires 0 <= LastIndexOf(name, LevelWord) && LastIndexOf(name, LevelWord) + 6 < |name|
    ensures var r := GenerateDisplayName(name);
      |name| - |r| >= LastIndexOf(name, LevelWord) + 6 && forall j :: !OccursAt(r, LevelWord, j)
    ensures !IsDigit(name[LastIndexOf(name, LevelWord) + 6]) ==>
      GenerateDisplayName(name) == name[LastIndexOf(name, LevelWord) + 6..]
  {
    var start := LastIndexOf(name, LevelWord);
    var r := GenerateDisplayName(name);
    var k := |name| - |r|;
    assert k >= start + 6 by {
      if IsDigit(name[start + 6]) {
        var space := IndexOf(name, " ", start + 6);
        if space >= 0 {
          assert k == space + 1;
        }
      }
    }
    forall j: nat
      ensures !OccursAt(r, LevelWord, j)
    {
      OccursInSuffix(name, k, LevelWord, j);
    }
  }

  /** An occurrence at j in the suffix from k is one at k + j in the whole string. */
  lemma OccursInSuffix(s: string, k: nat, pat: string, j: nat)
    requires k <= |s|
    ensures OccursAt(s[k..], pat, j) <==> OccursAt(s, pat, k + j)
  {
    if j + |pat| <= |s| - k {
      assert s[k..][j..j + |pat|] == s[k + j..k + j + |pat|];
    }
  }

  /** With a digit after the last "Level ", the skipped text runs from that digit to
      the first space after it, which is skipped too; with no such space nothing is
      left. */
  lemma LevelNumberSkipped(name: string)
    requires 0 <= LastIndexOf(name, LevelWord) && LastIndexOf(name, LevelWord) + 6 < |name|
    requires IsDigit(name[LastIndexOf(name, LevelWord) + 6])
    ensures var start := LastIndexOf(name, LevelWord) + 6;
      var r := GenerateDisplayName(name);
      var k := |name| - |r|;
      (r == [] && forall i :: start <= i < |name| ==> name[i] != ' ') ||
      (start < k && name[k - 1] == ' ' && forall i :: start <= i < k - 1 ==> name[i] != ' ')
  {
    var start := LastIndexOf(name, LevelWord) + 6;
    var space := IndexOf(name, " ", start);
    var r := GenerateDisplayName(name);
    assert r == if space < 0 then "" else name[space + 1..];
    forall i | start <= i < |name| && (space < 0 || i < space)
      ensures name[i] != ' '
    {
      if name[i] == ' ' {
        assert OccursAt(name, " ", i) by {
          assert name[i..i + 1] == [name[i]];
        }
      }
    }
    if space >= 0 {
      assert name[space..space + 1] == " ";
      assert |name| - |r| == space + 1;
    }
  }
}
