/** Path matching for the `paths` and `ignore_paths` options (check.go):
    a file is selected by a pattern when it matches the pattern as a glob or
    lies inside the directory the pattern names. */
module PathFilter {
  import opened Results

  /** The path separator (filepath.Separator on the platforms the resource runs on). */
  const Separator := '/'

  /** filepath.Match(pattern, name): whether name matches the shell pattern, or
      an error for a malformed pattern (which may depend on the name, since the
      matcher reads the pattern only as far as it needs). */
  type Glob = (string, string) -> Result<bool>

  predicate HasPrefix(s: string, prefix: string) {
    |prefix| <= |s| && s[..|prefix|] == prefix
  }

  predicate EndsWithSeparator(s: string) {
    |s| > 0 && s[|s| - 1] == Separator
  }

  /** Whether child is parent itself or lies below it. The parent is made to end
      in one separator before the prefix test, so that a name which merely
      starts with the parent's last component is not inside it. */
  function IsInsidePath(parent: string, child: string): (inside: bool)
    ensures inside <==> child == parent
                        || (&& |parent| < |child|
                            && child[..|parent|] == parent
                            && (EndsWithSeparator(parent) || child[|parent|] == Separator))
  {
    if parent == child then true
    else
      var withSeparator := if EndsWithSeparator(parent) then parent else parent + [Separator];
      assert EndsWithSeparator(parent) || withSeparator[..|parent|] == parent;
      HasPrefix(child, withSeparator)
  }

  /** Every path is inside itself; a shorter path is never inside a longer one. */
  lemma IsInsidePathBasics(parent: string, child: string)
    ensures IsInsidePath(parent, parent)
    ensures |child| < |parent| ==> !IsInsidePath(parent, child)
  {
  }

  /** A name that continues the parent's last component without a separator is
      not inside it (`foo/barbar` is not inside `foo/bar`), and a directory
      written with its trailing separator does not contain the bare name
      (`foo` is not inside `foo/`). */
  lemma IsInsidePathNoNamePrefix(parent: string, rest: string)
    requires !EndsWithSeparator(parent)
    requires rest != [] && rest[0] != Separator
    ensures !IsInsidePath(parent, parent + rest)
    ensures !IsInsidePath(parent + [Separator], parent)
  {
    assert (parent + rest)[|parent|] == rest[0];
  }

  /** Anything below the parent, reached through a separator, is inside it. */
  lemma IsInsidePathBelow(parent: string, rest: string)
    ensures IsInsidePath(parent, parent + [Separator] + rest)
  {
    var child := parent + [Separator] + rest;
    assert child[..|parent|] == parent;
    assert child[|parent|] == Separator;
  }

  /** The examples the path matcher is meant to satisfy. */
  lemma IsInsidePathExamples()
    ensures IsInsidePath("foo/bar", "foo/bar/baz")
    ensures !IsInsidePath("foo/bar", "foo/barbar")
    ensures !IsInsidePath("foo/bar", "foo/baz/bar")
    ensures IsInsidePath("foo/", "foo/bar")
    ensures !IsInsidePath("foo/", "foo")
    ensures !IsInsidePath("foo/bar/baz", "foo/bar")
  {
    IsInsidePathBelow("foo/bar", "baz");
    assert "foo/bar" + [Separator] + "baz" == "foo/bar/baz";
    IsInsidePathNoNamePrefix("foo/bar", "bar");
    assert "foo/bar" + "bar" == "foo/barbar";
    assert "foo/baz/bar"[..7] != "foo/bar" by { assert "foo/baz/bar"[6] == 'z'; }
    assert "foo/bar"[..4] == "foo/";
  }

  /** Whether the pattern selects the file (only when the glob reports no error). */
  predicate Selects(glob: Glob, pattern: string, file: string)
    requires glob(pattern, file).Ok?
  {
    glob(pattern, file).value || IsInsidePath(pattern, file)
  }

  /** The files that the pattern selects (keep == true) or does not select
      (keep == false), in their original order, or the first glob error met
      while going through the files from the front. */
  function Filtered(glob: Glob, pattern: string, files: seq<string>, keep: bool): Result<seq<string>>
    decreases |files|
  {
    if files == [] then Ok([])
    else
      var file := files[|files| - 1];
      match Filtered(glob, pattern, files[..|files| - 1], keep)
      case Err(e) => Err(e)
      case Ok(out) =>
        match glob(pattern, file)
        case Err(e) => Err(e)
        case Ok(m) => if (m || IsInsidePath(pattern, file)) == keep then Ok(out + [file]) else Ok(out)
  }

  /** Once a prefix of the files reaches a glob error, the whole list reports it. */
  lemma {:induction false} FilteredErrorPersists(glob: Glob, pattern: string, files: seq<string>,
                                                 keep: bool, i: nat)
    requires i <= |files| && Filtered(glob, pattern, files[..i], keep).Err?
    ensures Filtered(glob, pattern, files, keep) == Filtered(glob, pattern, files[..i], keep)
    decreases |files| - i
  {
    if i < |files| {
      assert files[..i + 1][..i] == files[..i];
      FilteredErrorPersists(glob, pattern, files, keep, i + 1);
    } else {
      assert files[..i] == files;
    }
  }

  /** FilterPath: the files the pattern selects, in order; a glob error aborts. */
  method FilterPath(files: seq<string>, pattern: string, glob: Glob) returns (r: Result<seq<string>>)
    ensures r == Filtered(glob, pattern, files, true)
  {
    var out: seq<string> := [];
    for i := 0 to |files|
      invariant Filtered(glob, pattern, files[..i], true) == Ok(out)
    {
      var file := files[i];
      assert files[..i + 1][..i] == files[..i];
      var match_ := glob(pattern, file);
      if match_.Err? {
        FilteredErrorPersists(glob, pattern, files, true, i + 1);
        return Err(match_.error);
      }
      if match_.value || IsInsidePath(pattern, file) {
        out := out + [file];
      }
    }
    assert files[..|files|] == files;
    return Ok(out);
  }

  /** FilterIgnorePath: the files the pattern does not select, in order; a glob
      error aborts. */
  method FilterIgnorePath(files: seq<string>, pattern: string, glob: Glob) returns (r: Result<seq<string>>)
    ensures r == Filtered(glob, pattern, files, false)
  {
    var out: seq<string> := [];
    for i := 0 to |files|
      invariant Filtered(glob, pattern, files[..i], false) == Ok(out)
    {
      var file := files[i];
      assert files[..i + 1][..i] == files[..i];
      var match_ := glob(pattern, file);
      if match_.Err? {
        FilteredErrorPersists(glob, pattern, files, false, i + 1);
        return Err(match_.error);
      }
      if !match_.value && !IsInsidePath(pattern, file) {
        out := out + [file];
      }
    }
    assert files[..|files|] == files;
    return Ok(out);
  }

  /** a is s with some elements left out, the rest in their order. */
  predicate IsSubsequence(a: seq<string>, s: seq<string>)
    decreases |s|
  {
    if a == [] then true
    else if s == [] then false
    else if a[|a| - 1] == s[|s| - 1] && IsSubsequence(a[..|a| - 1], s[..|s| - 1]) then true
    else IsSubsequence(a, s[..|s| - 1])
  }

  /** A glob error on some file is exactly what makes filtering fail, whichever
      half is kept; an empty list of files never fails, whatever the pattern. */
  lemma {:induction false} FilteredFailsIffGlobFails(glob: Glob, pattern: string, files: seq<string>, keep: bool)
    ensures Filtered(glob, pattern, files, keep).Err?
            <==> exists i :: 0 <= i < |files| && glob(pattern, files[i]).Err?
    ensures Filtered(glob, pattern, files, keep).Err? ==>
              Filtered(glob, pattern, files, !keep) == Filtered(glob, pattern, files, keep)
    ensures Filtered(glob, pattern, [], keep) == Ok([])
    decreases |files|
  {
    if files != [] {
      var init := files[..|files| - 1];
      FilteredFailsIffGlobFails(glob, pattern, init, keep);
      FilteredFailsIffGlobFails(glob, pattern, init, !keep);
      assert forall i :: 0 <= i < |init| ==> init[i] == files[i];
      if Filtered(glob, pattern, init, keep).Ok? {
        var i := |files| - 1;
        assert (exists i :: 0 <= i < |files| && glob(pattern, files[i]).Err?)
               <==> glob(pattern, files[i]).Err?;
      }
    }
  }

  /** Every file in s has no glob error and is (sel) or is not (!sel) selected. */
  predicate AllClassified(glob: Glob, pattern: string, s: seq<string>, sel: bool) {
    forall k :: 0 <= k < |s| ==> glob(pattern, s[k]).Ok? && Selects(glob, pattern, s[k]) == sel
  }

  /** One more file at the end: it is appended to the output exactly when its
      selection agrees with keep. */
  lemma FilteredSnoc(glob: Glob, pattern: string, init: seq<string>, file: string, keep: bool)
    requires Filtered(glob, pattern, init, keep).Ok? && glob(pattern, file).Ok?
    ensures Filtered(glob, pattern, init + [file], keep)
         == if Selects(glob, pattern, file) == keep
            then Ok(Filtered(glob, pattern, init, keep).value + [file])
            else Filtered(glob, pattern, init, keep)
  {
    assert (init + [file])[..|init|] == init;
  }

  /** For a pattern that reports no error, the two filters split the files: each
      file lands in exactly one output, according to whether it is selected, and
      both outputs keep the input's order. */
  lemma FilterPartition(glob: Glob, pattern: string, files: seq<string>)
    requires forall i :: 0 <= i < |files| ==> glob(pattern, files[i]).Ok?
    ensures Filtered(glob, pattern, files, true).Ok? && Filtered(glob, pattern, files, false).Ok?
    ensures var kept := Filtered(glob, pattern, files, true).value;
            var dropped := Filtered(glob, pattern, files, false).value;
            && multiset(kept) + multiset(dropped) == multiset(files)
            && AllClassified(glob, pattern, kept, true)
            && AllClassified(glob, pattern, dropped, false)
            && IsSubsequence(kept, files) && IsSubsequence(dropped, files)
  {
    FilterSplitsMultiset(glob, pattern, files);
    FilterKeepsOrder(glob, pattern, files, true);
    FilterKeepsOrder(glob, pattern, files, false);
  }

  lemma {:induction false} FilterSplitsMultiset(glob: Glob, pattern: string, files: seq<string>)
    requires forall i :: 0 <= i < |files| ==> glob(pattern, files[i]).Ok?
    ensures Filtered(glob, pattern, files, true).Ok? && Filtered(glob, pattern, files, false).Ok?
    ensures multiset(Filtered(glob, pattern, files, true).value)
            + multiset(Filtered(glob, pattern, files, false).value) == multiset(files)
    decreases |files|
  {
    if files != [] {
      var init := files[..|files| - 1];
      var file := files[|files| - 1];
      assert files == init + [file];
      assert forall i :: 0 <= i < |init| ==> init[i] == files[i];
      FilterSplitsMultiset(glob, pattern, init);
      FilteredSnoc(glob, pattern, init, file, true);
      FilteredSnoc(glob, pattern, init, file, false);
    }
  }

  lemma {:induction false} FilterKeepsOrder(glob: Glob, pattern: string, files: seq<string>, keep: bool)
    requires forall i :: 0 <= i < |files| ==> glob(pattern, files[i]).Ok?
    ensures Filtered(glob, pattern, files, keep).Ok?
    ensures AllClassified(glob, pattern, Filtered(glob, pattern, files, keep).value, keep)
    ensures IsSubsequence(Filtered(glob, pattern, files, keep).value, files)
    decreases |files|
  {
    if files != [] {
      var init := files[..|files| - 1];
      var file := files[|files| - 1];
      assert files == init + [file];
      assert forall i :: 0 <= i < |init| ==> init[i] == files[i];
      FilterKeepsOrder(glob, pattern, init, keep);
      var out := Filtered(glob, pattern, init, keep).value;
      FilteredSnoc(glob, pattern, init, file, keep);
      if Selects(glob, pattern, file) == keep {
        SubsequenceExtend(out, init, file);
        ClassifiedExtend(glob, pattern, out, file, keep);
      } else {
        SubsequenceSkip(out, init, file);
      }
    }
  }

  lemma ClassifiedExtend(glob: Glob, pattern: string, s: seq<string>, file: string, sel: bool)
    requires AllClassified(glob, pattern, s, sel)
    requires glob(pattern, file).Ok? && Selects(glob, pattern, file) == sel
    ensures AllClassified(glob, pattern, s + [file], sel)
  {
    forall k | 0 <= k < |s + [file]|
      ensures glob(pattern, (s + [file])[k]).Ok? && Selects(glob, pattern, (s + [file])[k]) == sel
    {
      if k < |s| { assert (s + [file])[k] == s[k]; }
    }
  }

  lemma SubsequenceExtend(a: seq<string>, s: seq<string>, x: string)
    requires IsSubsequence(a, s)
    ensures IsSubsequence(a + [x], s + [x])
  {
    assert (a + [x])[..|a|] == a;
    assert (s + [x])[..|s|] == s;
  }

  lemma {:induction false} SubsequenceSkip(a: seq<string>, s: seq<string>, x: string)
    requires IsSubsequence(a, s)
    ensures IsSubsequence(a, s + [x])
    decreases |s|
  {
    assert (s + [x])[..|s|] == s;
    if a != [] {
      if a[|a| - 1] == x && IsSubsequence(a[..|a| - 1], s) {
      } else {
        assert IsSubsequence(a, s);
      }
    }
  }

  /** The directory-prefix examples: with a pattern that names a directory and
      matches no file as a glob, the two filters split the files by location. */
  lemma FilterPrefixExample(glob: Glob)
    requires glob("foo/", "foo/a") == Ok(false) && glob("foo/", "foo/a.txt") == Ok(false)
    requires glob("foo/", "foo/a/b/c/d.txt") == Ok(false) && glob("foo/", "foo") == Ok(false)
    requires glob("foo/", "bar") == Ok(false) && glob("foo/", "bar/a.txt") == Ok(false)
    ensures Filtered(glob, "foo/", ["foo/a", "foo/a.txt", "foo/a/b/c/d.txt", "foo", "bar", "bar/a.txt"], true)
         == Ok(["foo/a", "foo/a.txt", "foo/a/b/c/d.txt"])
    ensures Filtered(glob, "foo/", ["foo/a", "foo/a.txt", "foo/a/b/c/d.txt", "foo", "bar", "bar/a.txt"], false)
         == Ok(["foo", "bar", "bar/a.txt"])
  {
    var f1 := ["foo/a"];
    var f2 := f1 + ["foo/a.txt"];
    var f3 := f2 + ["foo/a/b/c/d.txt"];
    var f4 := f3 + ["foo"];
    var f5 := f4 + ["bar"];
    var f6 := f5 + ["bar/a.txt"];
    assert f6 == ["foo/a", "foo/a.txt", "foo/a/b/c/d.txt", "foo", "bar", "bar/a.txt"];
    assert f1[..0] == [] && f2[..1] == f1 && f3[..2] == f2;
    assert f4[..3] == f3 && f5[..4] == f4 && f6[..5] == f5;
    assert IsInsidePath("foo/", "foo/a") && IsInsidePath("foo/", "foo/a.txt");
    assert IsInsidePath("foo/", "foo/a/b/c/d.txt");
    assert !IsInsidePath("foo/", "foo") && !IsInsidePath("foo/", "bar");
    assert !IsInsidePath("foo/", "bar/a.txt") by { assert "bar/a.txt"[0] == 'b'; }
    assert Filtered(glob, "foo/", [], true) == Ok([]) && Filtered(glob, "foo/", [], false) == Ok([]);
    FilteredSnoc(glob, "foo/", [], "foo/a", true);
    FilteredSnoc(glob, "foo/", [], "foo/a", false);
    assert [] + ["foo/a"] == f1;
    assert Filtered(glob, "foo/", f1, true) == Ok(f1) && Filtered(glob, "foo/", f1, false) == Ok([]);
    FilteredSnoc(glob, "foo/", f1, "foo/a.txt", true);
    FilteredSnoc(glob, "foo/", f1, "foo/a.txt", false);
    assert Filtered(glob, "foo/", f2, true) == Ok(f2) && Filtered(glob, "foo/", f2, false) == Ok([]);
    FilteredSnoc(glob, "foo/", f2, "foo/a/b/c/d.txt", true);
    FilteredSnoc(glob, "foo/", f2, "foo/a/b/c/d.txt", false);
    assert Filtered(glob, "foo/", f3, true) == Ok(f3) && Filtered(glob, "foo/", f3, false) == Ok([]);
    FilteredSnoc(glob, "foo/", f3, "foo", true);
    FilteredSnoc(glob, "foo/", f3, "foo", false);
    assert [] + ["foo"] == ["foo"] && ["foo"] + ["bar"] == ["foo", "bar"];
    assert ["foo", "bar"] + ["bar/a.txt"] == ["foo", "bar", "bar/a.txt"];
    assert f3 == ["foo/a", "foo/a.txt", "foo/a/b/c/d.txt"];
    assert Filtered(glob, "foo/", f4, true) == Ok(f3) && Filtered(glob, "foo/", f4, false) == Ok(["foo"]);
    FilteredSnoc(glob, "foo/", f4, "bar", true);
    FilteredSnoc(glob, "foo/", f4, "bar", false);
    assert Filtered(glob, "foo/", f5, true) == Ok(f3) && Filtered(glob, "foo/", f5, false) == Ok(["foo", "bar"]);
    FilteredSnoc(glob, "foo/", f5, "bar/a.txt", true);
    FilteredSnoc(glob, "foo/", f5, "bar/a.txt", false);
    assert Filtered(glob, "foo/", f6, true) == Ok(f3);
    assert Filtered(glob, "foo/", f6, false) == Ok(["foo", "bar", "bar/a.txt"]);
  }
}
