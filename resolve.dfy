/** The end of Check (check.go): the surviving versions are sorted by date
    through the CheckResponse sort interface and then collapsed according to
    whether a previous version was given. */
module Resolve {
  import opened Models

  /** CheckResponse.Less: the version at j is strictly later than the one at i. */
  predicate Less(r: seq<Version>, i: int, j: int)
    requires 0 <= i < |r| && 0 <= j < |r|
    ensures Less(r, i, j) ==> i != j && r[i] != r[j] && r[i].committedDate != r[j].committedDate
  {
    r[j].committedDate > r[i].committedDate
  }

  /** Less is a strict weak ordering, as the sort interface requires: it is
      irreflexive and transitive, and being incomparable means having the same
      date, which is itself transitive. */
  lemma LessIsStrictWeakOrder(r: seq<Version>, i: int, j: int, k: int)
    requires 0 <= i < |r| && 0 <= j < |r| && 0 <= k < |r|
    ensures !Less(r, i, i)
    ensures Less(r, i, j) && Less(r, j, k) ==> Less(r, i, k)
    ensures (!Less(r, i, j) && !Less(r, j, i)) <==> r[i].committedDate == r[j].committedDate
  {
  }

  /** What sort.Sort promises: no later element is Less than an earlier one. */
  predicate SortedByDate(s: seq<Version>) {
    forall i, j :: 0 <= i < j < |s| ==> !Less(s, j, i)
  }

  /** CheckResponse.Swap: exchanges two elements, in place. */
  method Swap(a: array<Version>, i: int, j: int)
    requires 0 <= i < a.Length && 0 <= j < a.Length
    modifies a
    ensures a[..] == old(a[..])[i := old(a[j])][j := old(a[i])]
    ensures multiset(a[..]) == multiset(old(a[..]))
  {
    a[i], a[j] := a[j], a[i];
  }

  /** The first n elements are in date order. */
  predicate SortedPrefix(s: seq<Version>, n: int)
    requires n <= |s|
  {
    forall p, q :: 0 <= p < q < n ==> s[p].committedDate <= s[q].committedDate
  }

  /** One insertion step: the element at i moves down through adjacent swaps
      until no earlier element is later than it, extending the sorted prefix
      by one. */
  method InsertAt(a: array<Version>, i: int)
    requires 0 <= i < a.Length && SortedPrefix(a[..], i)
    modifies a
    ensures SortedPrefix(a[..], i + 1)
    ensures multiset(a[..]) == multiset(old(a[..]))
    ensures a[i + 1..] == old(a[i + 1..])
  {
    var j := i;
    while j > 0 && Less(a[..], j, j - 1)
      invariant 0 <= j <= i
      invariant forall p, q :: 0 <= p < q <= i && q != j && p != j ==> a[p].committedDate <= a[q].committedDate
      invariant forall p, q :: 0 <= p < j < q <= i ==> a[p].committedDate <= a[q].committedDate
      invariant forall q :: j < q <= i ==> a[j].committedDate <= a[q].committedDate
      invariant multiset(a[..]) == multiset(old(a[..]))
      invariant a[i + 1..] == old(a[i + 1..])
      decreases j
    {
      Swap(a, j - 1, j);
      j := j - 1;
    }
  }

  /** sort.Sort(response), by insertion through adjacent swaps: the array ends
      up sorted by date and holds the same versions. Only this much is promised;
      the order of versions with equal dates is not. */
  method SortByDate(a: array<Version>)
    modifies a
    ensures SortedByDate(a[..])
    ensures multiset(a[..]) == multiset(old(a[..]))
  {
    for i := 0 to a.Length
      invariant SortedPrefix(a[..], i)
      invariant multiset(a[..]) == multiset(old(a[..]))
    {
      InsertAt(a, i);
    }
  }

  /** The two rules after sorting: with no new version but a previous one, the
      previous one is returned; with new versions but no previous one, only the
      last (latest) of them. */
  function Collapse(sorted: seq<Version>, prev: Version): (r: seq<Version>)
    ensures forall v :: v in r ==> v in sorted || v == prev
    ensures prev.pr != "" ==> r != []
    ensures prev.pr == "" ==> |r| <= 1 && (sorted != [] ==> r == [sorted[|sorted| - 1]])
    ensures prev.pr != "" && sorted != [] ==> r == sorted
    ensures SortedByDate(sorted) ==> SortedByDate(r)
  {
    if |sorted| == 0 && prev.pr != "" then [prev]
    else if |sorted| != 0 && prev.pr == "" then [sorted[|sorted| - 1]]
    else sorted
  }

  /** The tail of Check: the survivors copied into a slice, sorted in place
      by date and collapsed against the previous version. The ghost result is
      the sorted order, which sort.Sort leaves open among equal dates. */
  method SortAndCollapse(response: seq<Version>, prev: Version)
    returns (out: seq<Version>, ghost sorted: seq<Version>)
    ensures SortedByDate(sorted) && multiset(sorted) == multiset(response)
    ensures out == Collapse(sorted, prev)
    ensures |response| == 0 ==> out == (if prev.pr != "" then [prev] else [])
    ensures |response| > 0 && prev.pr == "" ==>
              && |out| == 1 && out[0] in response
              && forall v :: v in response ==> v.committedDate <= out[0].committedDate
    ensures |response| > 0 && prev.pr != "" ==>
              SortedByDate(out) && multiset(out) == multiset(response)
  {
    var a := new Version[|response|](i requires 0 <= i < |response| => response[i]);
    assert a[..] == response;
    SortByDate(a);
    sorted := a[..];

    out := a[..];
    if |out| == 0 && prev.pr != "" {
      out := out + [prev];
    }
    if |out| != 0 && prev.pr == "" {
      out := [out[|out| - 1]];
    }
    CollapseMeaning(response, sorted, prev);
  }

  /** The last element of a sorted sequence is at least as late as every element. */
  lemma LastIsLatest(sorted: seq<Version>, v: Version)
    requires SortedByDate(sorted) && v in sorted
    ensures v.committedDate <= sorted[|sorted| - 1].committedDate
  {
    var k :| 0 <= k < |sorted| && sorted[k] == v;
    if k < |sorted| - 1 {
      assert !Less(sorted, |sorted| - 1, k);
    }
  }

  /** The meaning of the result, for any sorted arrangement of the survivors
      s: on a first run (no previous version) exactly one version, a latest
      survivor, or nothing; with a previous version and nothing new, the
      previous version alone; otherwise all survivors in date order. */
  lemma CollapseMeaning(s: seq<Version>, sorted: seq<Version>, prev: Version)
    requires SortedByDate(sorted) && multiset(sorted) == multiset(s)
    ensures prev.pr == "" && |s| == 0 ==> Collapse(sorted, prev) == []
    ensures prev.pr == "" && |s| > 0 ==>
              && |Collapse(sorted, prev)| == 1
              && Collapse(sorted, prev)[0] in s
              && forall v :: v in s ==> v.committedDate <= Collapse(sorted, prev)[0].committedDate
    ensures prev.pr != "" && |s| == 0 ==> Collapse(sorted, prev) == [prev]
    ensures prev.pr != "" && |s| > 0 ==> Collapse(sorted, prev) == sorted
    ensures SortedByDate(Collapse(sorted, prev))
    ensures prev.pr != "" ==> |Collapse(sorted, prev)| >= 1
  {
    assert |sorted| == |multiset(sorted)| == |multiset(s)| == |s|;
    if prev.pr == "" && |s| > 0 {
      var last := sorted[|sorted| - 1];
      assert last in multiset(sorted);
      forall v | v in s ensures v.committedDate <= last.committedDate {
        assert v in multiset(s);
        LastIsLatest(sorted, v);
      }
    }
  }
}
