/** The filter chain that Check (check.go) runs over each candidate pull
    request: skip markers, base branch, staleness or status, labels, forks,
    drafts, approvals, and finally the path filters over the lazily fetched
    list of modified files. The first failing predicate drops the candidate;
    a fetch or pattern error aborts the whole check. */
module Chain {
  import opened Results
  import opened Models
  import opened PathFilter
  import opened SkipMarker

  /** ListModifiedFiles: the files a pull request (by number) changes, or an error. */
  type ListFiles = int -> Result<seq<string>>

  /** Why a candidate was dropped, one reason per predicate, in chain order. */
  datatype SkipReason =
    | SkipMarkerInTitle
    | SkipMarkerInMessage
    | BaseBranchMismatch
    | TooOld
    | AlreadyHasStatus
    | MissingLabel
    | Fork
    | Draft
    | TooFewApprovals
    | NoPathMatched
    | AllPathsIgnored

  /** The outcome of the chain for one candidate. */
  datatype Verdict = Keep | Skip(reason: SkipReason) | Abort(error: string)

  // ---------------------------------------------------------------------
  // Labels

  /** Some label of the pull request is named like some wanted label. */
  predicate LabelMatch(wanted: seq<string>, labels: seq<Label>) {
    exists i, j :: 0 <= i < |wanted| && 0 <= j < |labels| && labels[j].name == wanted[i]
  }

  /** The label search: every wanted label against every label of the pull
      request, leaving both loops at the first match. */
  method HasWantedLabel(wanted: seq<string>, labels: seq<Label>) returns (found: bool)
    ensures found == LabelMatch(wanted, labels)
  {
    found := false;
    label LabelLoop:
    for i := 0 to |wanted|
      invariant !found
      invariant forall a, b :: 0 <= a < i && 0 <= b < |labels| ==> labels[b].name != wanted[a]
    {
      for j := 0 to |labels|
        invariant forall b :: 0 <= b < j ==> labels[b].name != wanted[i]
      {
        if labels[j].name == wanted[i] {
          found := true;
          break LabelLoop;
        }
      }
    }
  }

  // ---------------------------------------------------------------------
  // Path filters over the modified files

  /** The files selected by the `paths` patterns: the FilterPath results of
      every pattern, concatenated in pattern order, or the first error. */
  function PathsWanted(files: seq<string>, paths: seq<string>, glob: Glob): Result<seq<string>>
    decreases |paths|
  {
    if paths == [] then Ok([])
    else match PathsWanted(files, paths[..|paths| - 1], glob)
      case Err(e) => Err(e)
      case Ok(w) =>
        match Filtered(glob, paths[|paths| - 1], files, true)
        case Err(e) => Err(e)
        case Ok(x) => Ok(w + x)
  }

  /** The files left after removing, one pattern after another, those each
      `ignore_paths` pattern selects, or the first error. */
  function IgnoreNarrowed(files: seq<string>, ignorePaths: seq<string>, glob: Glob): Result<seq<string>>
    decreases |ignorePaths|
  {
    if ignorePaths == [] then Ok(files)
    else match IgnoreNarrowed(files, ignorePaths[..|ignorePaths| - 1], glob)
      case Err(e) => Err(e)
      case Ok(w) => Filtered(glob, ignorePaths[|ignorePaths| - 1], w, false)
  }

  lemma {:induction false} PathsWantedErrorPersists(files: seq<string>, paths: seq<string>, glob: Glob, k: nat)
    requires k <= |paths| && PathsWanted(files, paths[..k], glob).Err?
    ensures PathsWanted(files, paths, glob) == PathsWanted(files, paths[..k], glob)
    decreases |paths| - k
  {
    if k < |paths| {
      assert paths[..k + 1][..k] == paths[..k];
      PathsWantedErrorPersists(files, paths, glob, k + 1);
    } else {
      assert paths[..k] == paths;
    }
  }

  lemma {:induction false} IgnoreNarrowedErrorPersists(files: seq<string>, ignorePaths: seq<string>,
                                                       glob: Glob, k: nat)
    requires k <= |ignorePaths| && IgnoreNarrowed(files, ignorePaths[..k], glob).Err?
    ensures IgnoreNarrowed(files, ignorePaths, glob) == IgnoreNarrowed(files, ignorePaths[..k], glob)
    decreases |ignorePaths| - k
  {
    if k < |ignorePaths| {
      assert ignorePaths[..k + 1][..k] == ignorePaths[..k];
      IgnoreNarrowedErrorPersists(files, ignorePaths, glob, k + 1);
    } else {
      assert ignorePaths[..k] == ignorePaths;
    }
  }

  /** The `paths` loop: FilterPath per pattern, results appended. */
  method CollectWanted(files: seq<string>, paths: seq<string>, glob: Glob) returns (r: Result<seq<string>>)
    ensures r == PathsWanted(files, paths, glob)
  {
    var wanted: seq<string> := [];
    for k := 0 to |paths|
      invariant PathsWanted(files, paths[..k], glob) == Ok(wanted)
    {
      assert paths[..k + 1][..k] == paths[..k];
      var w := FilterPath(files, paths[k], glob);
      if w.Err? {
        PathsWantedErrorPersists(files, paths, glob, k + 1);
        return Err(w.error);
      }
      wanted := wanted + w.value;
    }
    assert paths[..|paths|] == paths;
    return Ok(wanted);
  }

  /** The `ignore_paths` loop: FilterIgnorePath per pattern, each applied to
      what the previous ones left. */
  method NarrowIgnored(files: seq<string>, ignorePaths: seq<string>, glob: Glob) returns (r: Result<seq<string>>)
    ensures r == IgnoreNarrowed(files, ignorePaths, glob)
  {
    var wanted := files;
    for k := 0 to |ignorePaths|
      invariant IgnoreNarrowed(files, ignorePaths[..k], glob) == Ok(wanted)
    {
      assert ignorePaths[..k + 1][..k] == ignorePaths[..k];
      var w := FilterIgnorePath(wanted, ignorePaths[k], glob);
      if w.Err? {
        IgnoreNarrowedErrorPersists(files, ignorePaths, glob, k + 1);
        return Err(w.error);
      }
      wanted := w.value;
    }
    assert ignorePaths[..|ignorePaths|] == ignorePaths;
    return Ok(wanted);
  }

  /** A successful filter keeps exactly the files whose selection agrees with keep. */
  lemma {:induction false} FilteredMembership(glob: Glob, pattern: string, files: seq<string>, keep: bool)
    requires Filtered(glob, pattern, files, keep).Ok?
    ensures forall i :: 0 <= i < |files| ==> glob(pattern, files[i]).Ok?
    ensures forall x :: x in Filtered(glob, pattern, files, keep).value <==>
                        x in files && glob(pattern, x).Ok? && Selects(glob, pattern, x) == keep
    decreases |files|
  {
    FilteredFailsIffGlobFails(glob, pattern, files, keep);
    if files != [] {
      var init := files[..|files| - 1];
      var file := files[|files| - 1];
      assert files == init + [file];
      FilteredMembership(glob, pattern, init, keep);
      FilteredSnoc(glob, pattern, init, file, keep);
    }
  }

  /** The `paths` stage drops a candidate exactly when no pattern selects any
      of its files; a successful result implies the glob accepted every pair. */
  lemma {:induction false} PathsWantedEmptyIff(files: seq<string>, paths: seq<string>, glob: Glob)
    requires PathsWanted(files, paths, glob).Ok?
    ensures forall k, i :: 0 <= k < |paths| && 0 <= i < |files| ==> glob(paths[k], files[i]).Ok?
    ensures |PathsWanted(files, paths, glob).value| == 0 <==>
            forall k, i :: 0 <= k < |paths| && 0 <= i < |files| && glob(paths[k], files[i]).Ok?
                           ==> !Selects(glob, paths[k], files[i])
    decreases |paths|
  {
    if paths != [] {
      var init := paths[..|paths| - 1];
      var last := paths[|paths| - 1];
      assert forall k :: 0 <= k < |init| ==> init[k] == paths[k];
      PathsWantedEmptyIff(files, init, glob);
      FilteredMembership(glob, last, files, true);
      var x := Filtered(glob, last, files, true).value;
      if |x| > 0 {
        assert x[0] in x;
      }
    }
  }

  /** A file passes all ignore patterns: each of them accepts it without error
      and none selects it. */
  predicate Survives(glob: Glob, ignorePaths: seq<string>, file: string) {
    forall k :: 0 <= k < |ignorePaths| ==>
      glob(ignorePaths[k], file).Ok? && !Selects(glob, ignorePaths[k], file)
  }

  /** After the `ignore_paths` stage exactly the files that no ignore pattern
      selects remain, so the candidate is dropped exactly when every modified
      file is selected by some ignore pattern. */
  lemma {:induction false} IgnoreNarrowedMembership(files: seq<string>, ignorePaths: seq<string>, glob: Glob)
    requires IgnoreNarrowed(files, ignorePaths, glob).Ok?
    ensures forall x :: x in IgnoreNarrowed(files, ignorePaths, glob).value <==>
                        x in files && Survives(glob, ignorePaths, x)
    decreases |ignorePaths|
  {
    if ignorePaths != [] {
      var init := ignorePaths[..|ignorePaths| - 1];
      var last := ignorePaths[|ignorePaths| - 1];
      assert forall k :: 0 <= k < |init| ==> init[k] == ignorePaths[k];
      IgnoreNarrowedMembership(files, init, glob);
      var w := IgnoreNarrowed(files, init, glob).value;
      FilteredMembership(glob, last, w, false);
      forall x ensures Survives(glob, ignorePaths, x) <==>
                       Survives(glob, init, x) && glob(last, x).Ok? && !Selects(glob, last, x)
      {
        if Survives(glob, init, x) && glob(last, x).Ok? && !Selects(glob, last, x) {
          forall k | 0 <= k < |ignorePaths|
            ensures glob(ignorePaths[k], x).Ok? && !Selects(glob, ignorePaths[k], x)
          {
            if k < |init| { assert ignorePaths[k] == init[k]; }
          }
        }
      }
    }
  }

  // ---------------------------------------------------------------------
  // The chain

  /** All the predicates before the path stage hold, stated as a conjunction. */
  predicate PassesPreFilters(src: Source, prev: Version, p: PullRequest) {
    && (!src.disableCISkip ==> !ContainsSkipCI(p.title) && !ContainsSkipCI(p.tip.message))
    && (src.baseBranch != "" ==> p.baseRefName == src.baseBranch)
    && (src.statusContext == "" ==> p.tip.committedDate > prev.committedDate)
    && (src.statusContext != "" ==> !p.hasStatus)
    && (|src.labels| > 0 ==> LabelMatch(src.labels, p.labels))
    && (src.disableForks ==> !p.isCrossRepository)
    && (src.ignoreDrafts ==> !p.isDraft)
    && p.approvedReviewCount >= src.requiredReviewApprovals
  }

  /** The predicates before the path stage, evaluated in order: the first one
      that fails names the reason. */
  function PreFileVerdict(src: Source, prev: Version, p: PullRequest): (r: Option<SkipReason>)
    ensures r.None? <==> PassesPreFilters(src, prev, p)
  {
    if !src.disableCISkip && ContainsSkipCI(p.title) then Some(SkipMarkerInTitle)
    else if !src.disableCISkip && ContainsSkipCI(p.tip.message) then Some(SkipMarkerInMessage)
    else if src.baseBranch != "" && p.baseRefName != src.baseBranch then Some(BaseBranchMismatch)
    else if src.statusContext == "" && !(p.tip.committedDate > prev.committedDate) then Some(TooOld)
    else if src.statusContext != "" && p.hasStatus then Some(AlreadyHasStatus)
    else if |src.labels| > 0 && !LabelMatch(src.labels, p.labels) then Some(MissingLabel)
    else if src.disableForks && p.isCrossRepository then Some(Fork)
    else if src.ignoreDrafts && p.isDraft then Some(Draft)
    else if p.approvedReviewCount < src.requiredReviewApprovals then Some(TooFewApprovals)
    else None
  }

  /** Path filters are configured, so the modified files are needed. */
  predicate UsesPathFilters(src: Source) {
    |src.paths| > 0 || |src.ignorePaths| > 0
  }

  /** The path stage over an already fetched file list. */
  function FilesVerdict(src: Source, files: seq<string>, glob: Glob): Verdict {
    if |src.paths| > 0 && PathsWanted(files, src.paths, glob).Err? then
      Abort("path match failed: " + PathsWanted(files, src.paths, glob).error)
    else if |src.paths| > 0 && |PathsWanted(files, src.paths, glob).value| == 0 then
      Skip(NoPathMatched)
    else if |src.ignorePaths| > 0 && IgnoreNarrowed(files, src.ignorePaths, glob).Err? then
      Abort("ignore path match failed: " + IgnoreNarrowed(files, src.ignorePaths, glob).error)
    else if |src.ignorePaths| > 0 && |IgnoreNarrowed(files, src.ignorePaths, glob).value| == 0 then
      Skip(AllPathsIgnored)
    else
      Keep
  }

  /** The path stage: the file list is fetched only when path filters are configured. */
  function PathVerdict(src: Source, p: PullRequest, listFiles: ListFiles, glob: Glob): Verdict {
    if !UsesPathFilters(src) then Keep
    else match listFiles(p.number)
      case Err(e) => Abort("failed to list modified files: " + e)
      case Ok(files) => FilesVerdict(src, files, glob)
  }

  /** The whole chain for one candidate. */
  function ScreenSpec(src: Source, prev: Version, p: PullRequest, listFiles: ListFiles, glob: Glob): Verdict {
    match PreFileVerdict(src, prev, p)
    case Some(reason) => Skip(reason)
    case None => PathVerdict(src, p, listFiles, glob)
  }

  /** The candidate's modified files are fetched: it passed every earlier
      predicate and path filters are configured. */
  predicate FetchesFiles(src: Source, prev: Version, p: PullRequest) {
    PassesPreFilters(src, prev, p) && UsesPathFilters(src)
  }

  /** One pass of the body of Check's candidate loop; each early return is a
      `continue` there (Skip) or an error return from Check (Abort). The ghost
      result says whether ListModifiedFiles was called. */
  method Screen(src: Source, prev: Version, p: PullRequest, listFiles: ListFiles, glob: Glob)
    returns (v: Verdict, ghost fetched: bool)
    ensures v == ScreenSpec(src, prev, p, listFiles, glob)
    ensures fetched == FetchesFiles(src, prev, p)
  {
    fetched := false;
    if !src.disableCISkip && ContainsSkipCI(p.title) {
      return Skip(SkipMarkerInTitle), false;
    }
    if !src.disableCISkip && ContainsSkipCI(p.tip.message) {
      return Skip(SkipMarkerInMessage), false;
    }
    if src.baseBranch != "" && p.baseRefName != src.baseBranch {
      return Skip(BaseBranchMismatch), false;
    }
    // The tip commit's own date, not the effective date of the version.
    if src.statusContext == "" && !(p.tip.committedDate > prev.committedDate) {
      return Skip(TooOld), false;
    }
    if src.statusContext != "" && p.hasStatus {
      return Skip(AlreadyHasStatus), false;
    }
    if |src.labels| > 0 {
      var labelFound := HasWantedLabel(src.labels, p.labels);
      if !labelFound {
        return Skip(MissingLabel), false;
      }
    }
    if src.disableForks && p.isCrossRepository {
      return Skip(Fork), false;
    }
    if src.ignoreDrafts && p.isDraft {
      return Skip(Draft), false;
    }
    if p.approvedReviewCount < src.requiredReviewApprovals {
      return Skip(TooFewApprovals), false;
    }

    var files: seq<string> := [];
    if |src.paths| > 0 || |src.ignorePaths| > 0 {
      fetched := true;
      var listed := listFiles(p.number);
      if listed.Err? {
        return Abort("failed to list modified files: " + listed.error), fetched;
      }
      files := listed.value;
    }

    if |src.paths| > 0 {
      var wanted := CollectWanted(files, src.paths, glob);
      if wanted.Err? {
        return Abort("path match failed: " + wanted.error), fetched;
      }
      if |wanted.value| == 0 {
        return Skip(NoPathMatched), fetched;
      }
    }

    if |src.ignorePaths| > 0 {
      var wanted := NarrowIgnored(files, src.ignorePaths, glob);
      if wanted.Err? {
        return Abort("ignore path match failed: " + wanted.error), fetched;
      }
      if |wanted.value| == 0 {
        return Skip(AllPathsIgnored), fetched;
      }
    }

    return Keep, fetched;
  }

  // ---------------------------------------------------------------------
  // Properties of the chain

  /** A candidate is kept exactly when it passes every predicate before the
      path stage and, if path filters are configured, its files could be
      listed and pass them; errors can only arise once the files are fetched. */
  lemma ScreenKeepIff(src: Source, prev: Version, p: PullRequest, listFiles: ListFiles, glob: Glob)
    ensures ScreenSpec(src, prev, p, listFiles, glob) == Keep <==>
            && PassesPreFilters(src, prev, p)
            && (UsesPathFilters(src) ==>
                  listFiles(p.number).Ok? && FilesVerdict(src, listFiles(p.number).value, glob) == Keep)
    ensures ScreenSpec(src, prev, p, listFiles, glob).Abort? ==> FetchesFiles(src, prev, p)
    ensures !PassesPreFilters(src, prev, p) ==> ScreenSpec(src, prev, p, listFiles, glob).Skip?
  {
  }

  /** Errors are not swallowed, with one exception. A failed file listing
      aborts. A `paths` glob error aborts. An `ignore_paths` glob error aborts
      once the `paths` stage has let the candidate through. But when the
      `paths` stage has already dropped the candidate, the `ignore_paths`
      patterns are never tried, so their errors go unreported. */
  lemma ScreenErrorsAbort(src: Source, prev: Version, p: PullRequest, listFiles: ListFiles, glob: Glob)
    ensures FetchesFiles(src, prev, p) && listFiles(p.number).Err? ==>
              ScreenSpec(src, prev, p, listFiles, glob)
              == Abort("failed to list modified files: " + listFiles(p.number).error)
    ensures FetchesFiles(src, prev, p) && listFiles(p.number).Ok? ==>
              var files := listFiles(p.number).value;
              && (|src.paths| > 0 && PathsWanted(files, src.paths, glob).Err? ==>
                    ScreenSpec(src, prev, p, listFiles, glob)
                    == Abort("path match failed: " + PathsWanted(files, src.paths, glob).error))
              && ((|src.paths| == 0 || (PathsWanted(files, src.paths, glob).Ok?
                                        && |PathsWanted(files, src.paths, glob).value| > 0))
                  && |src.ignorePaths| > 0 && IgnoreNarrowed(files, src.ignorePaths, glob).Err? ==>
                    ScreenSpec(src, prev, p, listFiles, glob)
                    == Abort("ignore path match failed: " + IgnoreNarrowed(files, src.ignorePaths, glob).error))
              && (PathsWanted(files, src.paths, glob) == Ok([]) && |src.paths| > 0 ==>
                    ScreenSpec(src, prev, p, listFiles, glob) == Skip(NoPathMatched))
  {
  }

  /** With files fetched, the path stage keeps the candidate exactly when some
      `paths` pattern selects some file (if `paths` is set) and some file
      escapes every `ignore_paths` pattern (if `ignore_paths` is set). */
  lemma FilesVerdictKeepIff(src: Source, files: seq<string>, glob: Glob)
    ensures FilesVerdict(src, files, glob) == Keep <==>
            && (|src.paths| > 0 ==>
                  && PathsWanted(files, src.paths, glob).Ok?
                  && exists k, i :: 0 <= k < |src.paths| && 0 <= i < |files|
                                   && glob(src.paths[k], files[i]).Ok? && Selects(glob, src.paths[k], files[i]))
            && (|src.ignorePaths| > 0 ==>
                  && IgnoreNarrowed(files, src.ignorePaths, glob).Ok?
                  && exists i :: 0 <= i < |files| && Survives(glob, src.ignorePaths, files[i]))
  {
    if |src.paths| > 0 && PathsWanted(files, src.paths, glob).Ok? {
      PathsWantedEmptyIff(files, src.paths, glob);
    }
    if |src.ignorePaths| > 0 && IgnoreNarrowed(files, src.ignorePaths, glob).Ok? {
      IgnoreNarrowedMembership(files, src.ignorePaths, glob);
      var w := IgnoreNarrowed(files, src.ignorePaths, glob).value;
      if |w| > 0 {
        assert w[0] in w;
        var i :| 0 <= i < |files| && files[i] == w[0];
      }
      if exists i :: 0 <= i < |files| && Survives(glob, src.ignorePaths, files[i]) {
        var i :| 0 <= i < |files| && Survives(glob, src.ignorePaths, files[i]);
        assert files[i] in w;
      }
    }
  }

  /** Without a status context, a kept candidate's tip commit is strictly newer
      than the previous version; with one, the previous version plays no part
      and a candidate already carrying the status is dropped. */
  lemma StalenessOrStatus(src: Source, prev: Version, prev': Version, p: PullRequest,
                          listFiles: ListFiles, glob: Glob)
    ensures src.statusContext == "" && ScreenSpec(src, prev, p, listFiles, glob) == Keep ==>
              p.tip.committedDate > prev.committedDate
    ensures src.statusContext != "" ==>
              ScreenSpec(src, prev, p, listFiles, glob) == ScreenSpec(src, prev', p, listFiles, glob)
    ensures src.statusContext != "" && p.hasStatus ==>
              ScreenSpec(src, prev, p, listFiles, glob).Skip?
  {
  }

  /** The staleness test reads the tip commit's date, not the effective date: a
      closed pull request whose closing is newer than the previous version is
      still dropped when its tip commit is not. */
  lemma StalenessUsesTipDate(src: Source, listFiles: ListFiles, glob: Glob)
    requires src.statusContext == "" && src.baseBranch == ""
    ensures var p := PullRequest(10, "t", "master", "feature", false, false, CLOSED, 20, 0,
                                 Commit("abc", 5, "m"), 0, [], false);
            var prev := Version("9", "def", 10, "0", OPEN);
            && NewVersion(p).committedDate > prev.committedDate
            && ScreenSpec(src, prev, p, listFiles, glob) == Skip(TooOld)
  {
  }

  /** The chain does no state filtering of its own: the state of a candidate
      never changes its verdict (states are filtered by the listing request). */
  lemma ScreenIgnoresState(src: Source, prev: Version, p: PullRequest, state: string,
                           listFiles: ListFiles, glob: Glob)
    ensures ScreenSpec(src, prev, p, listFiles, glob) == ScreenSpec(src, prev, p.(state := state), listFiles, glob)
  {
  }
}
