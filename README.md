# github-pr-resource: change detection, modelled in Dafny

This project models the part of the github-pr-resource that decides which
versions of pull requests a pipeline sees. It covers three things:

- the `check` step's filter chain;
- the sorting and collapsing of the surviving versions;
- the validation of the source configuration and its page settings.

The model is written as Dafny modules that follow the Go files:

| module | models |
|---|---|
| `Results` | the `Result`/`Option`/`Outcome` wrappers used for Go's `(value, error)` returns |
| `Decimal` | `strconv.Itoa`, together with a decimal parser that serves as its inverse |
| `Models` | models.go: `PullRequest.UpdatedDate`, `NewVersion`, `Page` (a class whose `Validate` normalises the fields in place), `Source` (a class whose `Validate` checks credentials, endpoints and states, then validates its page), `Metadata` (a class whose `Add` appends a field) |
| `PathFilter` | check.go's `IsInsidePath`, `FilterPath` and `FilterIgnorePath`, over an arbitrary glob oracle standing in for `filepath.Match` |
| `SkipMarker` | check.go's `ContainsSkipCI` |
| `Chain` | the body of Check's candidate loop, as an ordered, short-circuiting list of predicates, followed by the lazy fetch of modified files and the path filters |
| `Resolve` | `CheckResponse.Less`/`Swap`, `sort.Sort` as an in-place insertion sort through `Swap`, and the two collapse rules |
| `Checker` | `Check` itself: the listing request, the candidate loop, the sort and the collapse |

Each imperative piece of the Go code is modelled as a Dafny method with
loops and, where the Go code mutates state, a class. These are the loops of
`Check`, `FilterPath` and `FilterIgnorePath`, the nested label search, the
state loop of `Source.Validate`, the field updates of `Page.Validate` and the
in-place sort. Each method is proved equal to a specification function
(`Filtered`, `ScreenSpec`, `Survivors`, `NormalizePage`, `SourceRules`, ...).
The properties are then proved about those functions.

The two collaborators and the glob are parameters of type function:

- `ListPullRequests` is `seq<string> -> Result<seq<PullRequest>>`;
- `ListModifiedFiles` is `int -> Result<seq<string>>`;
- `filepath.Match` is `(pattern, name) -> Result<bool>`.

Every property holds for every choice of these three.

## Model

| member | source | states |
|---|---|---|
| Decimal.NatDigits | models.go:95-98 | the decimal digits of a natural number: non-empty, digits only, no leading zero |
| Decimal.Itoa | models.go:95-98 | `strconv.Itoa` yields a well-formed decimal numeral, with a minus sign exactly for negative numbers and no leading zero |
| Decimal.NatDigitsRoundTrip | models.go:95-98 | reading the digits back gives the number (proved by induction) |
| Decimal.ItoaRoundTrip | models.go:95-98 | parsing `Itoa(n)` gives back `n`, so the rendering loses nothing |
| Decimal.ItoaInjective | models.go:95-98 | different integers render differently |
| Models.PullRequest.UpdatedDate | models.go:131-142 | the close time for CLOSED, the merge time for MERGED, the tip commit's date for every other state |
| Models.NewVersion | models.go:92-101 | `pr` is never empty and parses back to the number; the approval count parses back; commit and state are copied; the date is `UpdatedDate()` |
| Models.NewVersionDistinguishesNumbers | models.go:92-101 | versions of pull requests with different numbers differ |
| Models.NormalizeNumeric | models.go:191-214 | after the numeric half of validation, `1 <= MaxPRs <= 2000`, `1 <= PageSize <= 100`, `MaxRetries >= 1` and `DelayBetweenPages >= 1`; the enums are untouched |
| Models.NormalizePage | models.go:190-235 | numeric bounds always hold afterwards; validation passes exactly when each enum is empty or valid; on success every field is in bounds and valid |
| Models.Page.NormalizeCounts | models.go:191-214 | the in-place numeric updates leave the fields equal to `NormalizeNumeric` of the old fields |
| Models.Page.Validate | models.go:190-235 | leaves the fields equal to `NormalizePage(old).0` and returns `NormalizePage(old).1`, including fields already normalised when an enum error is returned |
| Models.NormalizePageDefaults | models.go:191-228 | empty input gives PageSize 50, MaxPRs 100, UPDATED_AT, DESC, 4 retries and a delay of 500 |
| Models.NormalizePageEnumDefaults | models.go:216-233 | for every input, an empty sort field becomes UPDATED_AT and a valid one is kept; once the field is accepted, an empty direction becomes DESC and a valid one is kept, and validation passes |
| Models.NormalizePageKeepsGivenValues | models.go:191-233 | in-range values and valid enums pass through unchanged, with no upper bound on retries or delay |
| Models.NormalizePageNumericRules | models.go:191-214 | how each numeric field is defaulted, clamped to 2000 or 100, lowered to MaxPRs (only when given) or passed through |
| Models.NormalizePageExamples | check_test.go:582-658 | the worked examples: 7000 ms delay kept, 2001 clamped to 2000, page size 20 lowered to MaxPRs 10, page size kept when MaxPRs is omitted |
| Models.NormalizePageNotIdempotent | models.go:198-202 | with MaxPRs 10 and no page size the result has page size 50, and validating again lowers it to 10 |
| Models.NormalizePageSortFieldError | models.go:216-224 | an invalid sort field gives the exact `sort_field ... not valid` text, with the numeric fields already normalised |
| Models.NormalizePageSortDirectionError | models.go:226-233 | an invalid direction gives the exact `sort_dir ... not valid` text, with the sort field already defaulted |
| Models.FirstInvalidState | models.go:50-58 | none exactly when every state is OPEN, CLOSED or MERGED; otherwise a state that is invalid, with every earlier state valid |
| Models.Source.Validate | models.go:37-67 | the result and the new page settings are `SourceRules` of the old page settings; only the page is modified |
| Models.SourceRules | models.go:37-67 | passes exactly when the token and repository are set, the endpoints are both set or both empty, every state is valid and page validation passes; success implies page settings in bounds |
| Models.SourceRulesOrder | models.go:37-66 | the first failing check wins, with its exact message, in the order token, repository, v3 without v4, v4 without v3, states, page; page settings are untouched unless all earlier checks pass |
| Models.Metadata.Add | models.go:73-75 | appends exactly one `{name, value}` field at the end; earlier fields unchanged |
| PathFilter.IsInsidePath | check.go:248-265 | child is inside exactly when it equals the parent, or extends it while the parent ends in `/` or the next character is `/` |
| PathFilter.IsInsidePathBasics | check.go:252-265 | every path is inside itself; a shorter child is never inside |
| PathFilter.IsInsidePathNoNamePrefix | check.go:248-265 | `foo/barbar` is not inside `foo/bar`; `foo` is not inside `foo/` |
| PathFilter.IsInsidePathBelow | check.go:257-264 | anything reached from the parent through a `/` is inside it |
| PathFilter.IsInsidePathExamples | check_test.go:518-555 | the worked examples, children and non-children both |
| PathFilter.FilterPath | check.go:233-246 | equals `Filtered(..., keep = true)`: the selected files in order, or the first glob error |
| PathFilter.FilterIgnorePath | check.go:218-231 | equals `Filtered(..., keep = false)`: the unselected files in order, or the first glob error |
| PathFilter.FilteredFailsIffGlobFails | check.go:219-246 | filtering fails exactly when the glob fails on some file, with the same error for both filters; an empty file list gives an empty result whatever the pattern |
| PathFilter.FilterPartition | check.go:219-246 | for a pattern without errors the two filters split the files: multisets add up to the input, each output holds only files classified its way, and both are order-preserving subsequences |
| PathFilter.FilterSplitsMultiset | check.go:219-246 | every file lands in exactly one of the two outputs (proved by induction) |
| PathFilter.FilterKeepsOrder | check.go:219-246 | each output is a subsequence of the input and every file in it is classified its way (proved by induction) |
| PathFilter.FilterPrefixExample | check_test.go:413-427 | with the pattern `foo/`, the files under `foo/` are selected and `foo`, `bar`, `bar/a.txt` are not, as in the prefix-match examples of both filters |
| SkipMarker.ContainsSkipCI | check.go:212-216 | true exactly when some position starts `[ci skip]` or `[skip ci]`, ignoring letter case |
| SkipMarker.ContainsSkipCIExamples | check_test.go:327-361 | the worked examples: `(` and `test` carry no marker; both markers are found alone, at the start and at the end |
| SkipMarker.ContainsSkipCIIgnoresCase | check.go:212-216 | `case[Skip CI]insensitive` and `[CI SKIP]` carry a marker: letter case does not matter and the marker may sit inside a word |
| Chain.HasWantedLabel | check.go:98-118 | the nested label loop finds a label exactly when some label name equals some wanted label |
| Chain.CollectWanted | check.go:155-163 | equals `PathsWanted`: the concatenated `FilterPath` results over all `paths` patterns, or the first error |
| Chain.NarrowIgnored | check.go:173-180 | equals `IgnoreNarrowed`: `FilterIgnorePath` applied successively over all `ignore_paths` patterns, or the first error |
| Chain.FilteredMembership | check.go:219-246 | a successful filter keeps exactly the files whose selection agrees with the filter (proved by induction) |
| Chain.PathsWantedEmptyIff | check.go:154-169 | the `paths` stage finds nothing exactly when no pattern selects any modified file (proved by induction) |
| Chain.IgnoreNarrowedMembership | check.go:171-187 | after the `ignore_paths` stage exactly the files that no ignore pattern selects remain (proved by induction) |
| Chain.PreFileVerdict | check.go:57-142 | the ordered predicates let a candidate through exactly when it passes all of them (skip markers, base branch, staleness or status, labels, forks, drafts, approvals) |
| Chain.Screen | check.go:51-187 | one pass of the loop body equals `ScreenSpec`; the modified files are fetched exactly when the candidate passed every earlier predicate and `paths` or `ignore_paths` is set |
| Chain.ScreenKeepIff | check.go:57-187 | a candidate is kept exactly when it passes the earlier predicates and, with path filters, its files are listed and pass them; an abort happens only after a fetch; a failing predicate always means skip |
| Chain.ScreenErrorsAbort | check.go:144-187 | a failed file listing aborts with `failed to list modified files: ...`; a `paths` glob error aborts with `path match failed: ...`; an `ignore_paths` glob error aborts with `ignore path match failed: ...` once the `paths` stage let the candidate through; when no `paths` pattern selects a file the candidate is skipped, so later `ignore_paths` errors go unreported |
| Chain.FilesVerdictKeepIff | check.go:144-187 | the path stage keeps a candidate exactly when some `paths` pattern selects some file, if `paths` is set, and some file escapes every ignore pattern, if `ignore_paths` is set |
| Chain.StalenessOrStatus | check.go:80-96 | with no status context a kept candidate's tip commit is strictly newer than the previous version; with one, the previous version plays no part and a candidate that already has the status is dropped |
| Chain.StalenessUsesTipDate | check.go:80-87 | a closed pull request closed after the previous version but with an older tip commit is dropped as too old |
| Chain.ScreenIgnoresState | check.go:36-42 | the chain does no state filtering of its own: changing a candidate's state never changes its verdict |
| Resolve.Less | check.go:280-282 | `Less` is strict: it never holds between an element and itself, or between two versions with the same date |
| Resolve.LessIsStrictWeakOrder | check.go:280-282 | `Less` is irreflexive and transitive, and two versions are incomparable exactly when their dates are equal |
| Resolve.Swap | check.go:284-286 | exchanges the two elements in place, changes nothing else and so keeps the multiset of versions |
| Resolve.InsertAt | check.go:193-194 | one insertion pass through adjacent swaps extends the date-sorted prefix by one element, keeps the multiset of versions and leaves the elements after it unchanged |
| Resolve.SortByDate | check.go:193-194 | the array ends up sorted by date and is a permutation of its old contents |
| Resolve.SortAndCollapse | check.go:193-205 | the result is the collapse of some date-sorted permutation of the survivors: with none, the previous version alone (or nothing on a first run); on a first run one survivor with the latest date; otherwise all survivors sorted by date |
| Resolve.Collapse | check.go:198-205 | the collapsed list holds only survivors or the previous version; it is non-empty whenever a previous version is given; on a first run it is at most the last survivor; with a previous version and survivors it is the survivors unchanged; a sorted input gives a sorted result |
| Resolve.LastIsLatest | check.go:202-205 | the last element of a sorted sequence is at least as late as all the others |
| Resolve.CollapseMeaning | check.go:198-205 | with no previous version: nothing, or exactly one survivor with the latest date; with a previous version and no survivors: that version alone; otherwise all survivors in date order; the result stays sorted |
| Checker.RequestedStates | check.go:36-40 | the states asked of the listing are never empty: the configured states when there are any, `[OPEN]` otherwise |
| Checker.ScreenAll | check.go:50-191 | the candidate loop equals `Survivors`: the versions of the kept candidates in listing order, or the first abort's error; the candidates whose files were fetched equal `FetchLog` |
| Checker.Check | check.go:30-210 | requests `[OPEN]` or the configured states; a listing error becomes `failed to get last commits: ...` and no files are fetched; the first abort's error is returned; otherwise a sorted permutation of the survivors is collapsed: with none, the previous version alone (or nothing on a first run); on a first run one survivor with the latest date; otherwise all survivors sorted by date; the candidates whose files were fetched are recorded |
| Checker.SurvivorsFailIffSomeAbort | check.go:144-187 | the loop fails exactly when the chain aborts on some candidate, and then with the error of the first such candidate (proved by induction) |
| Checker.SurvivorsAreKept | check.go:51-191 | a successful loop yields exactly `KeptVersions` of the chain's keep verdict: the versions of the kept candidates, in listing order (proved by induction) |
| Checker.KeptVersionsSnoc | check.go:51-191 | the front-to-back reference definition of the kept versions, for any keep predicate, agrees with the loop's back-to-front build-up |
| Checker.SurvivorsNewerThanPrevious | check.go:80-87 | with no status context, every surviving version that is neither closed nor merged is newer than the previous version |
| Checker.FetchLogOnlyForPathFilters | check.go:144-150 | modified files are fetched only for candidates that passed every earlier predicate, and never without path filters (proved by induction) |

## Masked ignore-pattern errors

A malformed `ignore_paths` pattern is not reported for a candidate that the
`paths` stage already dropped. The `continue Loop` at check.go:164-168 runs
before the ignore loop at check.go:173-180, so for such a candidate the
ignore patterns are never tried. `Chain.ScreenErrorsAbort` states this.

## Left out

- Logging (`PrintLog`, `LogSkipped`, the `verbose` environment variable set by `Check` and `Source.Validate`, the `fmt.Println` warnings of `Page.Validate`): it has no effect on results.
- `ListPullRequests` and `ListModifiedFiles` do network I/O against GitHub. They are function-typed parameters that may return an error.
- `filepath.Match` is an abstract glob oracle that may report an error. Its pattern syntax (`*`, `?`, classes, escapes, when `ErrBadPattern` fires) is not modelled. The separator is `/`.
- SkipMarker.ContainsSkipCI: folds ASCII letters only. Go's `(?i)` would also match Unicode case variants such as the Kelvin sign for `K` or the long s for `s`.
- Resolve.SortByDate: promises a sorted permutation only. `sort.Sort` is not stable, and its algorithm is replaced by an insertion sort over the same `Less` and `Swap`. Which version of several sharing the latest date a first run keeps is therefore not stated.
- Dates (`time.Time`, `githubv4.DateTime`) are integers, and `After` is `>`. Time zones and monotonic readings are not modelled.
- States and sort enums (`githubv4` types) are strings, so invalid values can reach validation.
- JSON tags and serialisation of `Source`, `Version` and `Metadata` are not modelled.
- `CheckResponse.Len` is the length of the sequence (`|r|`) and has no member of its own.
- Unused fields are left out. On `Source`: `DisableGitLFS`, `SkipSSLVerification`, `GitCryptKey`, `Verbose`. On pull requests and commits: `ID`, `URL`, `Repository`, the commit `ID` and `Author`. The `StatusObject` and `ChangedFileObject` types are also left out. None of them affects `Check` or validation.
- Models.Source: `page` is a reference to a `Page` object, whereas in Go `Source.Page` is a value field. Two sources could share one page in the model but never in Go. Nothing in the model creates such sharing.
- `Metadata` holds pointers to fields in Go. Here the fields are values, so sharing between entries is not modelled.
- `Check` sorts its response slice in place. The model collects the survivors in a sequence and sorts an array built from it.
- Integers are unbounded. In the core, Go's `int` only takes part in comparisons and clamps, so no overflow can occur there.
- The table-driven `Check` scenarios of check_test.go depend on a helper `createTestPR` that builds the fixtures, which is not part of this model. The general lemmas in `Chain`, `Resolve` and `Checker` state the behaviour those scenarios exercise.
