/** The resource's data model and configuration validation (models.go):
    pull-request snapshots, the Version record exchanged with the pipeline,
    the effective-date rule, pagination settings and their normalisation,
    the source configuration and its checks, and step metadata. */
module Models {
  import opened Results
  import Decimal

  // Pull-request states (githubv4.PullRequestState) and ordering enums, kept
  // as their wire strings because validation has to see unrecognised values.
  const OPEN := "OPEN"
  const CLOSED := "CLOSED"
  const MERGED := "MERGED"

  const UPDATED_AT := "UPDATED_AT"
  const CREATED_AT := "CREATED_AT"
  const COMMENTS := "COMMENTS"

  const ASC := "ASC"
  const DESC := "DESC"

  /** The tip commit of a pull request. Dates are instants on an integer clock. */
  datatype Commit = Commit(oid: string, committedDate: int, message: string)

  datatype Label = Label(name: string)

  /** One pull-request snapshot as delivered by the listing collaborator. */
  datatype PullRequest = PullRequest(
    number: int,
    title: string,
    baseRefName: string,
    headRefName: string,
    isCrossRepository: bool,
    isDraft: bool,
    state: string,
    closedAt: int,
    mergedAt: int,
    tip: Commit,
    approvedReviewCount: int,
    labels: seq<Label>,
    hasStatus: bool)
  {
    /** The last time the pull request changed: its close or merge time once it
        left the open state, its tip commit's date otherwise. */
    function UpdatedDate(): (date: int)
      ensures state == CLOSED ==> date == closedAt
      ensures state == MERGED ==> date == mergedAt
      ensures state != CLOSED && state != MERGED ==> date == tip.committedDate
    {
      if state == CLOSED then closedAt
      else if state == MERGED then mergedAt
      else tip.committedDate
    }
  }

  /** The unit of change reported to the pipeline. An empty `pr` marks "no
      previous version". */
  datatype Version = Version(
    pr: string,
    commit: string,
    committedDate: int,
    approvedReviewCount: string,
    state: string)

  /** The version of a pull request: its number and approval count rendered in
      decimal, its tip commit, its effective date and its state. */
  function NewVersion(p: PullRequest): (v: Version)
    ensures v.pr != ""
    ensures Decimal.IsDecimal(v.pr) && Decimal.ParseDecimal(v.pr) == p.number
    ensures Decimal.IsDecimal(v.approvedReviewCount)
    ensures Decimal.ParseDecimal(v.approvedReviewCount) == p.approvedReviewCount
    ensures v.commit == p.tip.oid && v.state == p.state
    ensures v.committedDate == p.UpdatedDate()
  {
    Decimal.ItoaRoundTrip(p.number);
    Decimal.ItoaRoundTrip(p.approvedReviewCount);
    Version(
      Decimal.Itoa(p.number),
      p.tip.oid,
      p.UpdatedDate(),
      Decimal.Itoa(p.approvedReviewCount),
      p.state)
  }

  /** Versions of two pull requests with different numbers always differ. */
  lemma NewVersionDistinguishesNumbers(p: PullRequest, q: PullRequest)
    requires NewVersion(p) == NewVersion(q)
    ensures p.number == q.number
  {
    Decimal.ItoaInjective(p.number, q.number);
  }

  // ---------------------------------------------------------------------
  // Pagination settings

  /** The value of a Page's fields at one moment. */
  datatype PageParams = PageParams(
    pageSize: int,
    maxPRs: int,
    sortField: string,
    sortDirection: string,
    maxRetries: int,
    delayBetweenPages: int)

  predicate IsSortField(f: string) {
    f == UPDATED_AT || f == CREATED_AT || f == COMMENTS
  }

  predicate IsSortDirection(d: string) {
    d == ASC || d == DESC
  }

  function SortFieldError(f: string): string {
    "sort_field '" + f + "' not valid, please choose one of 'UPDATED_AT', 'CREATED_AT' or 'COMMENTS'"
  }

  function SortDirectionError(d: string): string {
    "sort_dir '" + d + "' not valid, please choose one of 'ASC' or 'DESC'"
  }

  /** The bounds every numeric field satisfies after normalisation. */
  predicate NumericInBounds(p: PageParams) {
    && 1 <= p.maxPRs <= 2000
    && 1 <= p.pageSize <= 100
    && p.maxRetries >= 1
    && p.delayBetweenPages >= 1
  }

  /** Everything a successfully validated Page promises to the fetch collaborator. */
  predicate PageInBounds(p: PageParams) {
    NumericInBounds(p) && IsSortField(p.sortField) && IsSortDirection(p.sortDirection)
  }

  function Min(a: int, b: int): int {
    if a <= b then a else b
  }

  /** The numeric half of Page.Validate: each field defaulted or clamped on its
      own, the page size also against the already-clamped maximum, but only
      when it was given. */
  function NormalizeNumeric(v: PageParams): (r: PageParams)
    ensures NumericInBounds(r)
    ensures r.sortField == v.sortField && r.sortDirection == v.sortDirection
  {
    var maxPRs := if v.maxPRs <= 0 then 100 else Min(v.maxPRs, 2000);
    var pageSize := if v.pageSize <= 0 then 50 else Min(Min(v.pageSize, maxPRs), 100);
    var maxRetries := if v.maxRetries <= 0 then 4 else v.maxRetries;
    var delay := if v.delayBetweenPages <= 0 then 500 else v.delayBetweenPages;
    PageParams(pageSize, maxPRs, v.sortField, v.sortDirection, maxRetries, delay)
  }

  /** What Page.Validate leaves in the fields and what it returns, in closed
      form: the numeric fields normalised first, then the sort field and the
      sort direction defaulted or rejected, in that order. */
  function NormalizePage(v: PageParams): (r: (PageParams, Outcome))
    ensures NumericInBounds(r.0)
    ensures r.1.Pass? <==> (v.sortField == "" || IsSortField(v.sortField))
                           && (v.sortDirection == "" || IsSortDirection(v.sortDirection))
    ensures r.1.Pass? ==> PageInBounds(r.0)
  {
    var numeric := NormalizeNumeric(v);
    if v.sortField != "" && !IsSortField(v.sortField) then
      (numeric, Fail(SortFieldError(v.sortField)))
    else
      var withField := numeric.(sortField := if v.sortField == "" then UPDATED_AT else v.sortField);
      if v.sortDirection != "" && !IsSortDirection(v.sortDirection) then
        (withField, Fail(SortDirectionError(v.sortDirection)))
      else
        (withField.(sortDirection := if v.sortDirection == "" then DESC else v.sortDirection), Pass)
  }

  /** Pagination settings for the fetch collaborator; Validate normalises them in place. */
  class Page {
    var pageSize: int
    var maxPRs: int
    var sortField: string
    var sortDirection: string
    var maxRetries: int
    var delayBetweenPages: int

    function Params(): PageParams
      reads this
    {
      PageParams(pageSize, maxPRs, sortField, sortDirection, maxRetries, delayBetweenPages)
    }

    constructor (pageSize: int, maxPRs: int, sortField: string, sortDirection: string,
                 maxRetries: int, delayBetweenPages: int)
      ensures Params() == PageParams(pageSize, maxPRs, sortField, sortDirection,
                                     maxRetries, delayBetweenPages)
    {
      this.pageSize := pageSize;
      this.maxPRs := maxPRs;
      this.sortField := sortField;
      this.sortDirection := sortDirection;
      this.maxRetries := maxRetries;
      this.delayBetweenPages := delayBetweenPages;
    }

    /** The numeric steps of Validate, in the order the fields are visited. */
    method NormalizeCounts()
      modifies this
      ensures Params() == NormalizeNumeric(old(Params()))
    {
      if maxPRs <= 0 {
        maxPRs := 100;
      } else if maxPRs > 2000 {
        maxPRs := 2000;
      }

      if pageSize <= 0 {
        pageSize := 50;
      } else if pageSize > maxPRs {
        pageSize := maxPRs;
      }
      if pageSize > 100 {
        pageSize := 100;
      }

      if maxRetries <= 0 {
        maxRetries := 4;
      }

      if delayBetweenPages <= 0 {
        delayBetweenPages := 500;
      }
    }

    /** Defaults and clamps the fields one after another, then checks the two
        enums; an enum error is returned after the earlier fields were updated. */
    method Validate() returns (err: Outcome)
      modifies this
      ensures Params() == NormalizePage(old(Params())).0
      ensures err == NormalizePage(old(Params())).1
    {
      NormalizeCounts();

      if sortField == "" {
        sortField := UPDATED_AT;
      } else if !IsSortField(sortField) {
        return Fail(SortFieldError(sortField));
      }

      if sortDirection == "" {
        sortDirection := DESC;
      } else if !IsSortDirection(sortDirection) {
        return Fail(SortDirectionError(sortDirection));
      }

      return Pass;
    }
  }

  /** With nothing given, every field takes its default. */
  lemma NormalizePageDefaults()
    ensures NormalizePage(PageParams(0, 0, "", "", 0, 0))
         == (PageParams(50, 100, UPDATED_AT, DESC, 4, 500), Pass)
  {
  }

  /** The sort field defaults to UPDATED_AT and the direction to DESC whatever
      the other fields hold; a given valid field or direction is kept. The
      direction is defaulted only once the field was accepted. */
  lemma NormalizePageEnumDefaults(v: PageParams)
    ensures v.sortField == "" ==> NormalizePage(v).0.sortField == UPDATED_AT
    ensures IsSortField(v.sortField) ==> NormalizePage(v).0.sortField == v.sortField
    ensures (v.sortField == "" || IsSortField(v.sortField)) && v.sortDirection == "" ==>
              NormalizePage(v).0.sortDirection == DESC && NormalizePage(v).1 == Pass
    ensures (v.sortField == "" || IsSortField(v.sortField)) && IsSortDirection(v.sortDirection) ==>
              NormalizePage(v).0.sortDirection == v.sortDirection && NormalizePage(v).1 == Pass
  {
  }

  /** Positive, in-range values and valid enums pass through untouched; retries
      and the page delay have no upper bound. */
  lemma NormalizePageKeepsGivenValues(v: PageParams)
    requires 1 <= v.maxPRs <= 2000 && 1 <= v.pageSize <= Min(v.maxPRs, 100)
    requires v.maxRetries >= 1 && v.delayBetweenPages >= 1
    requires IsSortField(v.sortField) && IsSortDirection(v.sortDirection)
    ensures NormalizePage(v) == (v, Pass)
  {
  }

  /** How each numeric field is derived from its input. */
  lemma NormalizePageNumericRules(v: PageParams)
    ensures var r := NormalizePage(v).0;
      && (v.maxPRs <= 0 ==> r.maxPRs == 100)
      && (v.maxPRs > 2000 ==> r.maxPRs == 2000)
      && (1 <= v.maxPRs <= 2000 ==> r.maxPRs == v.maxPRs)
      && (v.pageSize <= 0 ==> r.pageSize == 50)
      && (v.pageSize > 0 ==> r.pageSize == Min(Min(v.pageSize, r.maxPRs), 100))
      && (v.maxRetries > 0 ==> r.maxRetries == v.maxRetries)
      && (v.maxRetries <= 0 ==> r.maxRetries == 4)
      && (v.delayBetweenPages > 0 ==> r.delayBetweenPages == v.delayBetweenPages)
      && (v.delayBetweenPages <= 0 ==> r.delayBetweenPages == 500)
  {
  }

  /** The worked examples: an explicit page size above the maximum is lowered to
      it, a maximum above 2000 is clamped, and a page size given without a
      maximum is kept. */
  lemma NormalizePageExamples()
    ensures NormalizePage(PageParams(10, 40, CREATED_AT, ASC, 2, 7000))
         == (PageParams(10, 40, CREATED_AT, ASC, 2, 7000), Pass)
    ensures NormalizePage(PageParams(0, 2001, "", "", 0, 0))
         == (PageParams(50, 2000, UPDATED_AT, DESC, 4, 500), Pass)
    ensures NormalizePage(PageParams(20, 10, "", "", 0, 0))
         == (PageParams(10, 10, UPDATED_AT, DESC, 4, 500), Pass)
    ensures NormalizePage(PageParams(20, 0, "", "", 0, 0))
         == (PageParams(20, 100, UPDATED_AT, DESC, 4, 500), Pass)
  {
  }

  /** The defaulted page size is not lowered to a smaller maximum, so a second
      pass over the result changes it again: validation is not idempotent. */
  lemma NormalizePageNotIdempotent()
    ensures var once := NormalizePage(PageParams(0, 10, "", "", 0, 0)).0;
      && once.pageSize == 50 && once.maxPRs == 10
      && NormalizePage(once).0.pageSize == 10
      && NormalizePage(once).0 != once
  {
  }

  /** An invalid sort field is reported with its exact text, after the numeric
      fields were normalised and with both enums still as given. */
  lemma NormalizePageSortFieldError(v: PageParams)
    requires v.sortField != "" && !IsSortField(v.sortField)
    ensures NormalizePage(v).1 == Fail(SortFieldError(v.sortField))
    ensures NormalizePage(v).0.sortField == v.sortField
    ensures NormalizePage(v).0.sortDirection == v.sortDirection
  {
  }

  /** An invalid sort direction (with an acceptable field) is reported with its
      exact text; by then the sort field has been defaulted as well. */
  lemma NormalizePageSortDirectionError(v: PageParams)
    requires v.sortField == "" || IsSortField(v.sortField)
    requires v.sortDirection != "" && !IsSortDirection(v.sortDirection)
    ensures NormalizePage(v).1 == Fail(SortDirectionError(v.sortDirection))
    ensures NormalizePage(v).0.sortField == (if v.sortField == "" then UPDATED_AT else v.sortField)
    ensures NormalizePage(v).0.sortDirection == v.sortDirection
  {
  }

  // ---------------------------------------------------------------------
  // Source configuration

  predicate IsState(s: string) {
    s == OPEN || s == CLOSED || s == MERGED
  }

  function StateError(s: string): string {
    "states value \"" + s + "\" must be one of: OPEN, MERGED, CLOSED"
  }

  /** The first configured state that is not a pull-request state, if any. */
  function FirstInvalidState(states: seq<string>): (r: Option<string>)
    ensures r.None? <==> forall i :: 0 <= i < |states| ==> IsState(states[i])
    ensures r.Some? ==> exists i :: 0 <= i < |states| && states[i] == r.value
                                 && !IsState(states[i])
                                 && forall k :: 0 <= k < i ==> IsState(states[k])
  {
    if states == [] then None
    else if !IsState(states[0]) then Some(states[0])
    else
      var r := FirstInvalidState(states[1..]);
      assert forall i :: 1 <= i < |states| ==> states[i] == states[1..][i - 1];
      if r.Some? then
        ghost var j :| 0 <= j < |states[1..]| && states[1..][j] == r.value
                       && !IsState(states[1..][j])
                       && forall k :: 0 <= k < j ==> IsState(states[1..][k]);
        assert states[j + 1] == r.value && !IsState(states[j + 1]);
        assert forall k :: 0 <= k < j + 1 ==> IsState(states[k]) by {
          forall k | 0 <= k < j + 1 ensures IsState(states[k]) {
            if k > 0 { assert states[k] == states[1..][k - 1]; }
          }
        }
        r
      else
        r
  }

  /** The resource's source configuration. Only Validate changes anything, and
      only the embedded page settings; the other fields are fixed. */
  class Source {
    const repository: string
    const accessToken: string
    const v3Endpoint: string
    const v4Endpoint: string
    const paths: seq<string>
    const ignorePaths: seq<string>
    const disableCISkip: bool
    const disableForks: bool
    const ignoreDrafts: bool
    const baseBranch: string
    const requiredReviewApprovals: int
    const labels: seq<string>
    const states: seq<string>
    const statusContext: string
    const page: Page

    constructor (repository: string, accessToken: string, v3Endpoint: string,
                 v4Endpoint: string, paths: seq<string>, ignorePaths: seq<string>,
                 disableCISkip: bool, disableForks: bool, ignoreDrafts: bool,
                 baseBranch: string, requiredReviewApprovals: int, labels: seq<string>,
                 states: seq<string>, statusContext: string, page: Page)
      ensures this.repository == repository && this.accessToken == accessToken
      ensures this.v3Endpoint == v3Endpoint && this.v4Endpoint == v4Endpoint
      ensures this.paths == paths && this.ignorePaths == ignorePaths
      ensures this.disableCISkip == disableCISkip && this.disableForks == disableForks
      ensures this.ignoreDrafts == ignoreDrafts && this.baseBranch == baseBranch
      ensures this.requiredReviewApprovals == requiredReviewApprovals
      ensures this.labels == labels && this.states == states
      ensures this.statusContext == statusContext && this.page == page
    {
      this.repository := repository;
      this.accessToken := accessToken;
      this.v3Endpoint := v3Endpoint;
      this.v4Endpoint := v4Endpoint;
      this.paths := paths;
      this.ignorePaths := ignorePaths;
      this.disableCISkip := disableCISkip;
      this.disableForks := disableForks;
      this.ignoreDrafts := ignoreDrafts;
      this.baseBranch := baseBranch;
      this.requiredReviewApprovals := requiredReviewApprovals;
      this.labels := labels;
      this.states := states;
      this.statusContext := statusContext;
      this.page := page;
    }

    /** Checks credentials, endpoints and states, in that order, stopping at the
        first failure; only when all pass does it validate (and so update) the
        page settings. */
    method Validate() returns (err: Outcome)
      modifies page
      ensures (page.Params(), err) == SourceRules(this, old(page.Params()))
    {
      if accessToken == "" {
        return Fail("access_token must be set");
      }
      if repository == "" {
        return Fail("repository must be set");
      }
      if v3Endpoint != "" && v4Endpoint == "" {
        return Fail("v4_endpoint must be set together with v3_endpoint");
      }
      if v4Endpoint != "" && v3Endpoint == "" {
        return Fail("v3_endpoint must be set together with v4_endpoint");
      }
      for i := 0 to |states|
        invariant forall k :: 0 <= k < i ==> IsState(states[k])
      {
        if !IsState(states[i]) {
          return Fail(StateError(states[i]));
        }
      }
      err := page.Validate();
    }
  }

  /** What Source.Validate returns and leaves in the page settings, given the
      page settings it started from. */
  function SourceRules(s: Source, page: PageParams): (r: (PageParams, Outcome))
    ensures r.1.Pass? <==> && s.accessToken != "" && s.repository != ""
                           && (s.v3Endpoint == "" <==> s.v4Endpoint == "")
                           && (forall i :: 0 <= i < |s.states| ==> IsState(s.states[i]))
                           && NormalizePage(page).1.Pass?
    ensures r.1.Pass? ==> PageInBounds(r.0)
  {
    if s.accessToken == "" then (page, Fail("access_token must be set"))
    else if s.repository == "" then (page, Fail("repository must be set"))
    else if s.v3Endpoint != "" && s.v4Endpoint == "" then
      (page, Fail("v4_endpoint must be set together with v3_endpoint"))
    else if s.v4Endpoint != "" && s.v3Endpoint == "" then
      (page, Fail("v3_endpoint must be set together with v4_endpoint"))
    else match FirstInvalidState(s.states)
      case Some(st) => (page, Fail(StateError(st)))
      case None => NormalizePage(page)
  }

  /** The checks run in order and the first failure wins; the page settings are
      left untouched unless every earlier check passed. */
  lemma SourceRulesOrder(s: Source, page: PageParams)
    ensures s.accessToken == "" ==> SourceRules(s, page) == (page, Fail("access_token must be set"))
    ensures s.accessToken != "" && s.repository == "" ==>
              SourceRules(s, page) == (page, Fail("repository must be set"))
    ensures s.accessToken != "" && s.repository != "" && s.v3Endpoint != "" && s.v4Endpoint == "" ==>
              SourceRules(s, page) == (page, Fail("v4_endpoint must be set together with v3_endpoint"))
    ensures s.accessToken != "" && s.repository != "" && s.v4Endpoint != "" && s.v3Endpoint == "" ==>
              SourceRules(s, page) == (page, Fail("v3_endpoint must be set together with v4_endpoint"))
    ensures && s.accessToken != "" && s.repository != ""
            && (s.v3Endpoint == "" <==> s.v4Endpoint == "")
            && (exists i :: 0 <= i < |s.states| && !IsState(s.states[i])) ==>
              SourceRules(s, page).0 == page
              && SourceRules(s, page).1 == Fail(StateError(FirstInvalidState(s.states).value))
    ensures && s.accessToken != "" && s.repository != ""
            && (s.v3Endpoint == "" <==> s.v4Endpoint == "")
            && (forall i :: 0 <= i < |s.states| ==> IsState(s.states[i])) ==>
              SourceRules(s, page) == NormalizePage(page)
  {
  }

  // ---------------------------------------------------------------------
  // Metadata of get/put steps

  datatype MetadataField = MetadataField(name: string, value: string)

  /** An ordered list of name/value pairs that grows at the end. */
  class Metadata {
    var fields: seq<MetadataField>

    constructor ()
      ensures fields == []
    {
      fields := [];
    }

    /** Appends one field; the earlier ones stay as they were. */
    method Add(name: string, value: string)
      modifies this
      ensures fields == old(fields) + [MetadataField(name, value)]
      ensures |fields| == |old(fields)| + 1 && fields[..|old(fields)|] == old(fields)
    {
      fields := fields + [MetadataField(name, value)];
    }
  }
}
