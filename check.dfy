/** Check (check.go): list the candidate pull requests in the requested
    states, run each through the filter chain in listing order, stop at the
    first error, then sort the survivors by date and collapse them against the
    previous version. */
module Checker {
  import opened Results
  import opened Models
  import opened PathFilter
  import opened Chain
  import opened Resolve

  /** ListPullRequests: the candidates in the given states, or an error. */
  type ListPulls = seq<string> -> Result<seq<PullRequest>>

  /** The states asked of the listing: the configured ones, or only OPEN when none are. */
  function RequestedStates(states: seq<string>): (r: seq<string>)
    ensures r != []
    ensures |states| > 0 ==> r == states
    ensures states == [] ==> r == [OPEN]
  {
    if |states| > 0 then states else [OPEN]
  }

  /** The versions of the candidates the chain keeps, in listing order, or the
      error of the first candidate on which it aborts. */
  function Survivors(src: Source, prev: Version, pulls: seq<PullRequest>,
                     listFiles: ListFiles, glob: Glob): Result<seq<Version>>
    decreases |pulls|
  {
    if pulls == [] then Ok([])
    else match Survivors(src, prev, pulls[..|pulls| - 1], listFiles, glob)
      case Err(e) => Err(e)
      case Ok(vs) =>
        match ScreenSpec(src, prev, pulls[|pulls| - 1], listFiles, glob)
        case Abort(e) => Err(e)
        case Skip(_) => Ok(vs)
        case Keep => Ok(vs + [NewVersion(pulls[|pulls| - 1])])
  }

  /** The numbers of the candidates whose modified files are fetched, in order,
      up to and including the candidate on which the chain aborts. */
  ghost function FetchLog(src: Source, prev: Version, pulls: seq<PullRequest>,
                          listFiles: ListFiles, glob: Glob): seq<int>
    decreases |pulls|
  {
    if pulls == [] then []
    else
      var init := pulls[..|pulls| - 1];
      if Survivors(src, prev, init, listFiles, glob).Err? then FetchLog(src, prev, init, listFiles, glob)
      else FetchLog(src, prev, init, listFiles, glob)
           + (if FetchesFiles(src, prev, pulls[|pulls| - 1]) then [pulls[|pulls| - 1].number] else [])
  }

  lemma {:induction false} SurvivorsErrorPersists(src: Source, prev: Version, pulls: seq<PullRequest>,
                                                  listFiles: ListFiles, glob: Glob, k: nat)
    requires k <= |pulls| && Survivors(src, prev, pulls[..k], listFiles, glob).Err?
    ensures Survivors(src, prev, pulls, listFiles, glob) == Survivors(src, prev, pulls[..k], listFiles, glob)
    ensures FetchLog(src, prev, pulls, listFiles, glob) == FetchLog(src, prev, pulls[..k], listFiles, glob)
    decreases |pulls| - k
  {
    if k < |pulls| {
      assert pulls[..k + 1][..k] == pulls[..k];
      SurvivorsErrorPersists(src, prev, pulls, listFiles, glob, k + 1);
    } else {
      assert pulls[..k] == pulls;
    }
  }

  /** Check's candidate loop: every candidate, in listing order, through the
      chain; a kept candidate's version is appended, a skipped one is passed
      over and an abort ends the check with its error. */
  method ScreenAll(src: Source, version: Version, pulls: seq<PullRequest>, listFiles: ListFiles, glob: Glob)
    returns (r: Result<seq<Version>>, ghost fetched: seq<int>)
    ensures r == Survivors(src, version, pulls, listFiles, glob)
    ensures fetched == FetchLog(src, version, pulls, listFiles, glob)
  {
    var response: seq<Version> := [];
    fetched := [];
    for k := 0 to |pulls|
      invariant Survivors(src, version, pulls[..k], listFiles, glob) == Ok(response)
      invariant fetched == FetchLog(src, version, pulls[..k], listFiles, glob)
    {
      assert pulls[..k + 1][..k] == pulls[..k];
      var v;
      ghost var f;
      v, f := Screen(src, version, pulls[k], listFiles, glob);
      if f {
        fetched := fetched + [pulls[k].number];
      }
      match v
      case Abort(e) =>
        SurvivorsErrorPersists(src, version, pulls, listFiles, glob, k + 1);
        return Err(e), fetched;
      case Skip(_) =>
      case Keep =>
        response := response + [NewVersion(pulls[k])];
    }
    assert pulls[..|pulls|] == pulls;
    return Ok(response), fetched;
  }

  /** Check. The ghost results expose the sorted order, which sort.Sort leaves
      unspecified among equal dates, and the calls made to ListModifiedFiles. */
  method Check(src: Source, version: Version, listPulls: ListPulls, listFiles: ListFiles, glob: Glob)
    returns (r: Result<seq<Version>>, ghost sorted: seq<Version>, ghost fetched: seq<int>)
    ensures listPulls(RequestedStates(src.states)).Err? ==>
              r == Err("failed to get last commits: " + listPulls(RequestedStates(src.states)).error)
    ensures listPulls(RequestedStates(src.states)).Err? ==> fetched == []
    ensures listPulls(RequestedStates(src.states)).Ok? ==>
              fetched == FetchLog(src, version, listPulls(RequestedStates(src.states)).value, listFiles, glob)
    ensures listPulls(RequestedStates(src.states)).Ok? ==>
              var survivors := Survivors(src, version, listPulls(RequestedStates(src.states)).value, listFiles, glob);
              && (survivors.Err? ==> r == Err(survivors.error))
              && (survivors.Ok? ==>
                    var s := survivors.value;
                    && r.Ok?
                    && (|s| == 0 ==> r.value == (if version.pr != "" then [version] else []))
                    && (|s| > 0 && version.pr == "" ==>
                          && |r.value| == 1 && r.value[0] in s
                          && forall v :: v in s ==> v.committedDate <= r.value[0].committedDate)
                    && (|s| > 0 && version.pr != "" ==>
                          SortedByDate(r.value) && multiset(r.value) == multiset(s)))
    ensures listPulls(RequestedStates(src.states)).Ok? ==>
              var survivors := Survivors(src, version, listPulls(RequestedStates(src.states)).value, listFiles, glob);
              survivors.Ok? ==>
                && SortedByDate(sorted) && multiset(sorted) == multiset(survivors.value)
                && r == Ok(Collapse(sorted, version))
  {
    var filterStates := [OPEN];
    if |src.states| > 0 {
      filterStates := src.states;
    }
    var listed := listPulls(filterStates);
    if listed.Err? {
      return Err("failed to get last commits: " + listed.error), [], [];
    }

    var survivors;
    survivors, fetched := ScreenAll(src, version, listed.value, listFiles, glob);
    if survivors.Err? {
      return Err(survivors.error), [], fetched;
    }
    var out;
    out, sorted := SortAndCollapse(survivors.value, version);
    return Ok(out), sorted, fetched;
  }

  // ---------------------------------------------------------------------
  // Properties of the candidate loop

  /** The loop fails exactly when the chain aborts on some candidate, and then
      with the error of the first such candidate. */
  lemma {:induction false} SurvivorsFailIffSomeAbort(src: Source, prev: Version, pulls: seq<PullRequest>,
                                                     listFiles: ListFiles, glob: Glob)
    ensures Survivors(src, prev, pulls, listFiles, glob).Err? <==>
            exists k :: 0 <= k < |pulls| && ScreenSpec(src, prev, pulls[k], listFiles, glob).Abort?
    ensures Survivors(src, prev, pulls, listFiles, glob).Err? ==>
            exists k :: && 0 <= k < |pulls|
                        && ScreenSpec(src, prev, pulls[k], listFiles, glob)
                           == Abort(Survivors(src, prev, pulls, listFiles, glob).error)
                        && forall j :: 0 <= j < k ==> !ScreenSpec(src, prev, pulls[j], listFiles, glob).Abort?
    decreases |pulls|
  {
    if pulls != [] {
      var init := pulls[..|pulls| - 1];
      assert forall j :: 0 <= j < |init| ==> init[j] == pulls[j];
      SurvivorsFailIffSomeAbort(src, prev, init, listFiles, glob);
    }
  }

  /** A successful loop yields exactly the versions of the kept candidates,
      in listing order. */
  lemma {:induction false} SurvivorsAreKept(src: Source, prev: Version, pulls: seq<PullRequest>,
                                            listFiles: ListFiles, glob: Glob)
    requires Survivors(src, prev, pulls, listFiles, glob).Ok?
    ensures Survivors(src, prev, pulls, listFiles, glob).value
         == KeptVersions(KeptByChain(src, prev, listFiles, glob), pulls)
    decreases |pulls|
  {
    if pulls != [] {
      SurvivorsAreKept(src, prev, pulls[..|pulls| - 1], listFiles, glob);
      KeptVersionsSnoc(KeptByChain(src, prev, listFiles, glob), pulls);
    }
  }

  /** A version survives exactly when it is the version of a kept candidate. */
  lemma {:induction false} SurvivorsMembership(src: Source, prev: Version, pulls: seq<PullRequest>,
                                               listFiles: ListFiles, glob: Glob)
    requires Survivors(src, prev, pulls, listFiles, glob).Ok?
    ensures forall v :: v in Survivors(src, prev, pulls, listFiles, glob).value <==>
                        exists k :: 0 <= k < |pulls| && ScreenSpec(src, prev, pulls[k], listFiles, glob) == Keep
                                    && v == NewVersion(pulls[k])
    decreases |pulls|
  {
    if pulls != [] {
      var init := pulls[..|pulls| - 1];
      assert forall j :: 0 <= j < |init| ==> init[j] == pulls[j];
      SurvivorsMembership(src, prev, init, listFiles, glob);
    }
  }

  /** The reference definition: the versions of the candidates that `kept`
      accepts, in listing order, built front to back. */
  function KeptVersions(kept: PullRequest -> bool, pulls: seq<PullRequest>): seq<Version> {
    if pulls == [] then []
    else (if kept(pulls[0]) then [NewVersion(pulls[0])] else []) + KeptVersions(kept, pulls[1..])
  }

  /** The chain's verdict as a keep predicate over candidates. */
  function KeptByChain(src: Source, prev: Version, listFiles: ListFiles, glob: Glob): PullRequest -> bool {
    p => ScreenSpec(src, prev, p, listFiles, glob) == Keep
  }

  /** KeptVersions read from the back, matching the loop's direction. */
  lemma {:induction false} KeptVersionsSnoc(kept: PullRequest -> bool, pulls: seq<PullRequest>)
    requires pulls != []
    ensures KeptVersions(kept, pulls)
         == KeptVersions(kept, pulls[..|pulls| - 1])
            + (if kept(pulls[|pulls| - 1]) then [NewVersion(pulls[|pulls| - 1])] else [])
    decreases |pulls|
  {
    var n := |pulls|;
    var last := if kept(pulls[n - 1]) then [NewVersion(pulls[n - 1])] else [];
    if n == 1 {
      assert pulls[..0] == [] && pulls[1..] == [];
    } else {
      var head := if kept(pulls[0]) then [NewVersion(pulls[0])] else [];
      var tail, init := pulls[1..], pulls[..n - 1];
      assert tail[..|tail| - 1] == init[1..] && tail[|tail| - 1] == pulls[n - 1];
      assert init != [] && init[0] == pulls[0];
      KeptVersionsSnoc(kept, tail);
      calc {
        KeptVersions(kept, pulls);
        head + KeptVersions(kept, tail);
        head + (KeptVersions(kept, init[1..]) + last);
        (head + KeptVersions(kept, init[1..])) + last;
        KeptVersions(kept, init) + last;
      }
    }
  }

  /** Without a status context, every surviving version that is neither closed
      nor merged is strictly newer than the previous version. */
  lemma SurvivorsNewerThanPrevious(src: Source, prev: Version, pulls: seq<PullRequest>,
                                   listFiles: ListFiles, glob: Glob)
    requires src.statusContext == "" && Survivors(src, prev, pulls, listFiles, glob).Ok?
    ensures forall v :: (v in Survivors(src, prev, pulls, listFiles, glob).value
                         && v.state != CLOSED && v.state != MERGED) ==> v.committedDate > prev.committedDate
  {
    SurvivorsMembership(src, prev, pulls, listFiles, glob);
    forall v | v in Survivors(src, prev, pulls, listFiles, glob).value && v.state != CLOSED && v.state != MERGED
      ensures v.committedDate > prev.committedDate
    {
      var k :| 0 <= k < |pulls| && ScreenSpec(src, prev, pulls[k], listFiles, glob) == Keep
               && v == NewVersion(pulls[k]);
      ScreenKeepIff(src, prev, pulls[k], listFiles, glob);
    }
  }

  /** Modified files are fetched only for candidates that passed every earlier
      predicate, and never when no path filters are configured. */
  lemma {:induction false} FetchLogOnlyForPathFilters(src: Source, prev: Version, pulls: seq<PullRequest>,
                                                      listFiles: ListFiles, glob: Glob)
    ensures !UsesPathFilters(src) ==> FetchLog(src, prev, pulls, listFiles, glob) == []
    ensures forall n :: n in FetchLog(src, prev, pulls, listFiles, glob) ==>
              exists k :: 0 <= k < |pulls| && pulls[k].number == n && PassesPreFilters(src, prev, pulls[k])
    decreases |pulls|
  {
    if pulls != [] {
      var init := pulls[..|pulls| - 1];
      assert forall j :: 0 <= j < |init| ==> init[j] == pulls[j];
      FetchLogOnlyForPathFilters(src, prev, init, listFiles, glob);
    }
  }
}
