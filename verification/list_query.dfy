/** The list-view logic the Vehicles, SlotRequests, ParkingSlots and
    UserManagement pages each repeat: filter the rows, cut out one fixed-size
    page with `Array.prototype.slice`, and move between pages. */
module ListQuery {

  /** `itemsPerPage` on every list page. */
  const ITEMS_PER_PAGE: int := 10

  function Min(a: int, b: int): int { if a <= b then a else b }

  function Max(a: int, b: int): int { if a >= b then a else b }

  /** `a` is `b` with some elements dropped, the rest in their original order. */
  ghost predicate SubsequenceOf<T>(a: seq<T>, b: seq<T>)
    decreases |b|
  {
    if a == [] then true
    else if b == [] then false
    else (a[0] == b[0] && SubsequenceOf(a[1..], b[1..])) || SubsequenceOf(a, b[1..])
  }

  /** `xs.filter(keep)`. */
  function Filter<T>(xs: seq<T>, keep: T -> bool): (r: seq<T>)
    ensures |r| <= |xs|
    ensures forall i :: 0 <= i < |r| ==> keep(r[i])
    ensures forall i :: 0 <= i < |r| ==> r[i] in xs
    ensures forall i :: 0 <= i < |xs| && keep(xs[i]) ==> xs[i] in r
    ensures SubsequenceOf(r, xs)
    ensures forall i {:trigger multiset(r)[xs[i]]} :: 0 <= i < |xs| && keep(xs[i]) ==>
      multiset(r)[xs[i]] == multiset(xs)[xs[i]]
  {
    if xs == [] then []
    else
      var rest := Filter(xs[1..], keep);
      var res := if keep(xs[0]) then [xs[0]] + rest else rest;
      FilterStep(xs, rest, res, keep);
      res
  }

  /** One step of `Filter`: what the filtered tail `rest` satisfies for
      `xs[1..]`, the list `res` satisfies for `xs`. */
  lemma FilterStep<T>(xs: seq<T>, rest: seq<T>, res: seq<T>, keep: T -> bool)
    requires xs != []
    requires res == if keep(xs[0]) then [xs[0]] + rest else rest
    requires |rest| <= |xs[1..]|
    requires forall i :: 0 <= i < |rest| ==> keep(rest[i])
    requires forall i :: 0 <= i < |rest| ==> rest[i] in xs[1..]
    requires forall i :: 0 <= i < |xs[1..]| && keep(xs[1..][i]) ==> xs[1..][i] in rest
    requires SubsequenceOf(rest, xs[1..])
    requires forall i :: 0 <= i < |xs[1..]| && keep(xs[1..][i]) ==>
      multiset(rest)[xs[1..][i]] == multiset(xs[1..])[xs[1..][i]]
    ensures |res| <= |xs|
    ensures forall i :: 0 <= i < |res| ==> keep(res[i])
    ensures forall i :: 0 <= i < |res| ==> res[i] in xs
    ensures forall i :: 0 <= i < |xs| && keep(xs[i]) ==> xs[i] in res
    ensures SubsequenceOf(res, xs)
    ensures forall i :: 0 <= i < |xs| && keep(xs[i]) ==> multiset(res)[xs[i]] == multiset(xs)[xs[i]]
  {
    FilterStepMembers(xs, rest, res, keep);
    FilterStepCounts(xs[0], xs[1..], rest, res, keep);
    assert xs == [xs[0]] + xs[1..];
  }

  lemma FilterStepMembers<T>(xs: seq<T>, rest: seq<T>, res: seq<T>, keep: T -> bool)
    requires xs != []
    requires res == if keep(xs[0]) then [xs[0]] + rest else rest
    requires forall i :: 0 <= i < |rest| ==> keep(rest[i])
    requires forall i :: 0 <= i < |rest| ==> rest[i] in xs[1..]
    requires forall i :: 0 <= i < |xs[1..]| && keep(xs[1..][i]) ==> xs[1..][i] in rest
    requires SubsequenceOf(rest, xs[1..])
    ensures forall i :: 0 <= i < |res| ==> keep(res[i])
    ensures forall i :: 0 <= i < |res| ==> res[i] in xs
    ensures forall i :: 0 <= i < |xs| && keep(xs[i]) ==> xs[i] in res
    ensures SubsequenceOf(res, xs)
  {
    forall i | 0 <= i < |res|
      ensures keep(res[i]) && res[i] in xs
    {
      if keep(xs[0]) && i > 0 {
        assert res[i] == rest[i - 1];
      }
    }
    forall i | 0 <= i < |xs| && keep(xs[i])
      ensures xs[i] in res
    {
      if i > 0 {
        assert xs[i] == xs[1..][i - 1];
      }
    }
    if keep(xs[0]) {
      assert res[0] == xs[0] && res[1..] == rest;
    }
  }

  /** The count half of `FilterStep`, over `[x] + t`. */
  lemma FilterStepCounts<T>(x: T, t: seq<T>, rest: seq<T>, res: seq<T>, keep: T -> bool)
    requires res == if keep(x) then [x] + rest else rest
    requires forall k :: 0 <= k < |rest| ==> rest[k] in t
    requires forall k :: 0 <= k < |t| && keep(t[k]) ==> multiset(rest)[t[k]] == multiset(t)[t[k]]
    ensures forall i :: 0 <= i < |[x] + t| && keep(([x] + t)[i]) ==>
      multiset(res)[([x] + t)[i]] == multiset([x] + t)[([x] + t)[i]]
  {
    var xs := [x] + t;
    forall i | 0 <= i < |xs| && keep(xs[i])
      ensures multiset(res)[xs[i]] == multiset(xs)[xs[i]]
    {
      var y := xs[i];
      if y in t {
        var j :| 0 <= j < |t| && t[j] == y;
        assert multiset(rest)[y] == multiset(t)[y];
      } else {
        assert y !in rest;
        assert multiset(rest)[y] == 0 && multiset(t)[y] == 0;
      }
    }
  }

  /** A predicate every row passes keeps the whole list, in order. */
  lemma {:induction false} FilterKeepsAll<T>(xs: seq<T>, keep: T -> bool)
    requires forall i :: 0 <= i < |xs| ==> keep(xs[i])
    ensures Filter(xs, keep) == xs
  {
    if xs != [] {
      FilterKeepsAll(xs[1..], keep);
    }
  }

  /** `Filter` on a non-empty list, one row at a time. */
  lemma FilterCons<T>(xs: seq<T>, keep: T -> bool)
    requires xs != []
    ensures Filter(xs, keep)
      == if keep(xs[0]) then [xs[0]] + Filter(xs[1..], keep) else Filter(xs[1..], keep)
  {
  }

  /** Filtering a concatenation filters each part. */
  lemma {:induction false} FilterAppend<T>(a: seq<T>, b: seq<T>, keep: T -> bool)
    ensures Filter(a + b, keep) == Filter(a, keep) + Filter(b, keep)
    decreases |a|
  {
    if a == [] {
      assert a + b == b;
    } else {
      assert (a + b)[0] == a[0] && (a + b)[1..] == a[1..] + b;
      FilterAppend(a[1..], b, keep);
      FilterCons(a + b, keep);
      FilterCons(a, keep);
      ConsAppend(a[0], keep(a[0]), Filter(a[1..], keep), Filter(b, keep));
    }
  }

  /** Putting a row in front, or not, commutes with appending a tail. */
  lemma ConsAppend<T>(x: T, kept: bool, fa: seq<T>, fb: seq<T>)
    ensures (if kept then [x] + (fa + fb) else fa + fb) == (if kept then [x] + fa else fa) + fb
  {
    if kept {
      assert [x] + (fa + fb) == ([x] + fa) + fb;
    }
  }

  /** Two predicates that agree on every row filter the list alike. */
  lemma {:induction false} FilterCongruent<T>(xs: seq<T>, keep1: T -> bool, keep2: T -> bool)
    requires forall i :: 0 <= i < |xs| ==> keep1(xs[i]) == keep2(xs[i])
    ensures Filter(xs, keep1) == Filter(xs, keep2)
  {
    if xs != [] {
      FilterCongruent(xs[1..], keep1, keep2);
    }
  }

  /** `Math.ceil(n / itemsPerPage)`: the fewest pages that hold `n` rows. */
  function TotalPages(n: nat): (r: nat)
    ensures r * ITEMS_PER_PAGE >= n
    ensures r > 0 ==> (r - 1) * ITEMS_PER_PAGE < n
    ensures r == 0 <==> n == 0
  {
    (n + ITEMS_PER_PAGE - 1) / ITEMS_PER_PAGE
  }

  /** How `Array.prototype.slice` reads one of its bounds: a negative bound
      counts back from the end, and every bound is clamped to `[0, len]`. */
  function SliceBound(i: int, len: nat): (r: nat)
    ensures r <= len
    ensures 0 <= i ==> r == Min(i, len)
    ensures i < 0 ==> r == Max(len + i, 0)
  {
    if i < 0 then Max(len + i, 0) else Min(i, len)
  }

  /** `xs.slice(start, end)`. */
  function JsSlice<T>(xs: seq<T>, start: int, end: int): (r: seq<T>)
    ensures |r| <= |xs|
    ensures |r| == Max(SliceBound(end, |xs|) - SliceBound(start, |xs|), 0)
    ensures forall k :: 0 <= k < |r| ==> r[k] == xs[SliceBound(start, |xs|) + k]
  {
    var s, e := SliceBound(start, |xs|), SliceBound(end, |xs|);
    if s < e then xs[s..e] else []
  }

  /** The rows shown on `page`:
      `filtered.slice((page - 1) * itemsPerPage, page * itemsPerPage)`. */
  function PageSlice<T>(xs: seq<T>, page: int): (r: seq<T>)
    ensures |r| <= ITEMS_PER_PAGE
    ensures page >= 1 && |r| > 0 ==> (page - 1) * ITEMS_PER_PAGE + |r| <= |xs|
    ensures page >= 1 ==>
      forall k :: 0 <= k < |r| ==> r[k] == xs[(page - 1) * ITEMS_PER_PAGE + k]
    ensures page >= 1 ==> (|r| == 0 <==> (page - 1) * ITEMS_PER_PAGE >= |xs|)
    ensures page >= 1 && page * ITEMS_PER_PAGE <= |xs| ==> |r| == ITEMS_PER_PAGE
    ensures page >= 1 && (page - 1) * ITEMS_PER_PAGE < |xs| < page * ITEMS_PER_PAGE ==>
      |r| == |xs| - (page - 1) * ITEMS_PER_PAGE
  {
    JsSlice(xs, (page - 1) * ITEMS_PER_PAGE, page * ITEMS_PER_PAGE)
  }

  /** The pages `1..k` laid end to end. */
  ghost function ConcatPages<T>(xs: seq<T>, k: nat): seq<T>
  {
    if k == 0 then [] else ConcatPages(xs, k - 1) + PageSlice(xs, k)
  }

  lemma {:induction false} ConcatPagesIsPrefix<T>(xs: seq<T>, k: nat)
    ensures ConcatPages(xs, k) == xs[..Min(k * ITEMS_PER_PAGE, |xs|)]
  {
    if k > 0 {
      ConcatPagesIsPrefix(xs, k - 1);
      var lo, hi := Min((k - 1) * ITEMS_PER_PAGE, |xs|), Min(k * ITEMS_PER_PAGE, |xs|);
      var p := PageSlice(xs, k);
      assert p == xs[lo..hi] by {
        assert |p| == hi - lo;
        forall j | 0 <= j < |p|
          ensures p[j] == xs[lo..hi][j]
        {
        }
      }
      assert xs[..lo] + xs[lo..hi] == xs[..hi];
    }
  }

  /** Pages `1..totalPages` partition the filtered list: every row is on exactly
      one page, in order, and nothing else is. */
  lemma PagesPartitionList<T>(xs: seq<T>)
    ensures ConcatPages(xs, TotalPages(|xs|)) == xs
  {
    ConcatPagesIsPrefix(xs, TotalPages(|xs|));
    assert xs[..|xs|] == xs;
  }

  /** The "Showing first to last of n" caption:
      `(page - 1) * itemsPerPage + 1` and
      `Math.min(page * itemsPerPage, n)`. */
  function ShowingRange(page: int, n: nat): (r: (int, int))
    ensures r.1 <= n
    ensures page >= 1 ==> r.0 >= 1
  {
    ((page - 1) * ITEMS_PER_PAGE + 1, Min(page * ITEMS_PER_PAGE, n))
  }

  /** On any existing page the caption names exactly the rows shown, counted
      from 1. */
  lemma ShowingRangeMatchesPage<T>(xs: seq<T>, page: int)
    requires 1 <= page <= TotalPages(|xs|)
    ensures 1 <= ShowingRange(page, |xs|).0 <= ShowingRange(page, |xs|).1 <= |xs|
    ensures PageSlice(xs, page)
      == xs[ShowingRange(page, |xs|).0 - 1..ShowingRange(page, |xs|).1]
  {
    var (first, last) := ShowingRange(page, |xs|);
    var p := PageSlice(xs, page);
    assert |p| == last - first + 1;
    forall j | 0 <= j < |p|
      ensures p[j] == xs[first - 1..last][j]
    {
    }
  }

  /** Past the last page the caption runs backwards ("Showing 21 to 15"). */
  lemma ShowingRangePastEnd(page: int, n: nat)
    requires page > TotalPages(n)
    ensures ShowingRange(page, n).0 > ShowingRange(page, n).1
  {
  }

  /** The pager is drawn when `n > 0 && totalPages > 1`. */
  predicate PaginationVisible(n: nat) {
    n > 0 && TotalPages(n) > 1
  }

  /** ... which is exactly when the rows do not fit on one page. */
  lemma PaginationVisibleIff(n: nat)
    ensures PaginationVisible(n) <==> n > ITEMS_PER_PAGE
  {
  }

  /** Previous on the SlotRequests, ParkingSlots and UserManagement pagers:
      not clickable on page 1 or below, otherwise `Math.max(page - 1, 1)`. */
  function PreviousPage(page: int): (r: int)
    ensures page >= 1 ==> 1 <= r <= page
    ensures page > 1 ==> r == page - 1
    ensures page <= 1 ==> r == page
  {
    if page <= 1 then page else Max(page - 1, 1)
  }

  /** Next on the same pagers: not clickable on or past the last page,
      otherwise `Math.min(page + 1, totalPages)`. */
  function NextPage(page: int, total: nat): (r: int)
    ensures page <= total ==> page <= r <= total
    ensures page < total ==> r == page + 1
    ensures page >= total ==> r == page
  {
    if page >= total then page else Min(page + 1, total)
  }

  /** Both buttons keep the page inside `[1, totalPages]`. */
  lemma PagerStaysInRange(page: int, total: nat)
    requires 1 <= page <= total
    ensures 1 <= PreviousPage(page) <= total
    ensures 1 <= NextPage(page, total) <= total
  {
  }

  /** Next undoes Previous and Previous undoes Next away from the ends. */
  lemma PagerRoundTrip(page: int, total: nat)
    ensures 1 < page <= total ==> NextPage(PreviousPage(page), total) == page
    ensures 1 <= page < total ==> PreviousPage(NextPage(page, total)) == page
  {
  }

  /** The search box and the page number of one list view. */
  datatype ListView = ListView(searchTerm: string, currentPage: int)

  /** `onChange={(e) => setSearchTerm(e.target.value)}` as written: the page
      number is left where it was. */
  function SetSearchTerm(v: ListView, term: string): (r: ListView)
    ensures r.searchTerm == term
    ensures r.currentPage == v.currentPage
  {
    v.(searchTerm := term)
  }

  /** Typing a narrower term on a later page shows an empty table although rows
      match: with at most ten matches, page 2 is empty. */
  lemma StaleSearchPageIsEmpty<T>(term: string, matching: seq<T>)
    requires 0 < |matching| <= ITEMS_PER_PAGE
    ensures PageSlice(matching, SetSearchTerm(ListView("", 2), term).currentPage) == []
    ensures PaginationVisible(|matching|) == false
  {
  }

  /** The search change the list pages evidently intend: a new term starts
      over on page 1. */
  function SetSearchTermResetting(v: ListView, term: string): (r: ListView)
    ensures r.searchTerm == term
    ensures r.currentPage == 1
  {
    ListView(term, 1)
  }

  /** After the corrected search change the table shows the first rows that
      match, so it is never empty while something matches. */
  lemma ResettingSearchShowsFirstRows<T>(v: ListView, term: string, matching: seq<T>)
    ensures var p := PageSlice(matching, SetSearchTermResetting(v, term).currentPage);
      p == matching[..Min(ITEMS_PER_PAGE, |matching|)] && (|matching| > 0 ==> |p| > 0)
  {
    var p := PageSlice(matching, 1);
    assert |p| == Min(ITEMS_PER_PAGE, |matching|);
    forall j | 0 <= j < |p|
      ensures p[j] == matching[..Min(ITEMS_PER_PAGE, |matching|)][j]
    {
    }
  }
}
