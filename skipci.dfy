/** Detection of the "[ci skip]" / "[skip ci]" markers (check.go), matched
    anywhere in a string and without regard to (ASCII) letter case. */
module SkipMarker {

  /** Both markers are nine characters long. */
  const MarkerLength := 9

  /** ASCII case folding: upper-case letters to lower case, everything else unchanged. */
  function Lower(c: char): char {
    if 'A' <= c <= 'Z' then (c as int + 32) as char else c
  }

  /** s and t are equal up to letter case. */
  predicate FoldEquals(s: string, t: string) {
    |s| == |t| && forall i :: 0 <= i < |s| ==> Lower(s[i]) == Lower(t[i])
  }

  predicate IsMarker(w: string) {
    FoldEquals(w, "[ci skip]") || FoldEquals(w, "[skip ci]")
  }

  /** A marker starts at position i of s. */
  predicate MarkerAt(s: string, i: int) {
    0 <= i && i + MarkerLength <= |s| && IsMarker(s[i..i + MarkerLength])
  }

  /** ContainsSkipCI: whether some position of s starts a marker. The scan tries
      each starting position from the front. */
  function ContainsSkipCI(s: string): (found: bool)
    ensures found <==> exists i :: MarkerAt(s, i)
    decreases |s|
  {
    if |s| < MarkerLength then
      assert forall i :: !MarkerAt(s, i);
      false
    else if IsMarker(s[..MarkerLength]) then
      assert MarkerAt(s, 0);
      true
    else
      var rest := ContainsSkipCI(s[1..]);
      MarkerShift(s);
      rest
  }

  /** Markers of s other than at position 0 are exactly the markers of s[1..], shifted. */
  lemma MarkerShift(s: string)
    requires |s| >= 1 && !MarkerAt(s, 0)
    ensures (exists i :: MarkerAt(s, i)) <==> (exists i :: MarkerAt(s[1..], i))
  {
    forall i | MarkerAt(s, i) ensures MarkerAt(s[1..], i - 1) {
      assert s[1..][i - 1..i - 1 + MarkerLength] == s[i..i + MarkerLength];
    }
    forall i | MarkerAt(s[1..], i) ensures MarkerAt(s, i + 1) {
      assert s[1..][i..i + MarkerLength] == s[i + 1..i + 1 + MarkerLength];
    }
  }

  /** The examples: plain text and a lone bracket are not markers; both markers
      are found alone, at the start and at the end. */
  lemma ContainsSkipCIExamples()
    ensures !ContainsSkipCI("(")
    ensures !ContainsSkipCI("test")
    ensures ContainsSkipCI("[ci skip]")
    ensures ContainsSkipCI("[skip ci]")
    ensures ContainsSkipCI("trailing [skip ci]")
    ensures ContainsSkipCI("[skip ci] leading")
  {
    assert FoldEquals("[ci skip]", "[ci skip]");
    assert MarkerAt("[ci skip]", 0);
    assert FoldEquals("[skip ci]", "[skip ci]");
    assert MarkerAt("[skip ci]", 0);
    assert "trailing [skip ci]"[9..18] == "[skip ci]";
    assert MarkerAt("trailing [skip ci]", 9);
    assert "[skip ci] leading"[0..9] == "[skip ci]";
    assert MarkerAt("[skip ci] leading", 0);
  }

  /** Letter case does not matter: a marker written in capitals in the middle
      of a word is found. */
  lemma ContainsSkipCIIgnoresCase()
    ensures ContainsSkipCI("case[Skip CI]insensitive")
    ensures ContainsSkipCI("[CI SKIP]")
  {
    var w := "case[Skip CI]insensitive"[4..13];
    assert w == "[Skip CI]";
    assert FoldEquals(w, "[skip ci]") by {
      assert Lower('S') == 's' && Lower('C') == 'c' && Lower('I') == 'i';
    }
    assert MarkerAt("case[Skip CI]insensitive", 4);
    assert FoldEquals("[CI SKIP]", "[ci skip]") by {
      assert Lower('C') == 'c' && Lower('I') == 'i' && Lower('S') == 's';
      assert Lower('K') == 'k' && Lower('P') == 'p';
    }
    assert MarkerAt("[CI SKIP]", 0);
  }
}
