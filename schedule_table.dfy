/**
 * The revenue schedule table of the dashboard (frontend/src/components/dashboard/RevenueSchedule.tsx):
 * which entries the current page shows, the Total and Recognized sums, the pagination
 * controls and the per-row fallbacks. Currency and date rendering stay with the caller.
 */
module ScheduleTable {
  import opened Common
  import opened Text
  import opened ApiTypes

  /** A bound of `Array.prototype.slice`: a negative one counts back from the end, and every one is clipped to `0..n`. */
  function RelativeIndex(i: int, n: nat): (r: nat)
    ensures r <= n
    ensures 0 <= i ==> r == Min(i, n)
    ensures i < 0 ==> r == n - Min(-i, n)
  {
    if i < 0 then (if n + i < 0 then 0 else n + i) else (if i > n then n else i)
  }

  /** `Array.prototype.slice(start, end)`: the entries from the resolved start up to the resolved end, none when they cross. */
  function JsSlice<T>(xs: seq<T>, start: int, end: int): (r: seq<T>)
    ensures var s, e := RelativeIndex(start, |xs|), RelativeIndex(end, |xs|);
      |r| == (if e <= s then 0 else e - s) && forall i :: 0 <= i < |r| ==> r[i] == xs[s + i]
  {
    var s := RelativeIndex(start, |xs|);
    var e := RelativeIndex(end, |xs|);
    if e <= s then [] else xs[s..e]
  }

  /** `startIndex`. */
  function StartIndex(currentPage: int, itemsPerPage: int): int {
    (currentPage - 1) * itemsPerPage
  }

  /** The start of page `p` and the start of the page after it. */
  lemma MulStep(p: int, k: int)
    requires p >= 1 && k >= 0
    ensures 0 <= (p - 1) * k && (p - 1) * k + k == p * k
  {
  }

  /** `currentRevenueSchedules`: the entries the table shows for one page. */
  function VisiblePage<T>(entries: seq<T>, currentPage: int, itemsPerPage: int): seq<T> {
    var startIndex := StartIndex(currentPage, itemsPerPage);
    JsSlice(entries, startIndex, startIndex + itemsPerPage)
  }

  /** Page `p` of a list cut into pages of `k` is the stretch from `(p-1)·k` to `(p-1)·k + k`, clipped to the list. */
  lemma VisiblePageIsClippedStretch<T>(entries: seq<T>, p: int, k: int)
    requires p >= 1 && k >= 1
    ensures var s := (p - 1) * k;
      VisiblePage(entries, p, k) == entries[Min(s, |entries|)..Min(s + k, |entries|)]
  {
    MulStep(p, k);
    var s := (p - 1) * k;
    var page := JsSlice(entries, s, s + k);
    var stretch := entries[Min(s, |entries|)..Min(s + k, |entries|)];
    assert |page| == |stretch|;
    assert forall i :: 0 <= i < |page| ==> page[i] == stretch[i];
  }

  /** The number of pages a list of `n` entries fills: `ceil(n / k)`. */
  function PageCount(n: nat, k: nat): (m: nat)
    requires k >= 1
    ensures (m - 1) * k < n <= m * k || (n == 0 && m == 0)
  {
    (n + k - 1) / k
  }

  /** The visible slices of pages 1 to m, in order. */
  function PagesUpTo<T>(entries: seq<T>, k: int, m: nat): seq<T> {
    if m == 0 then [] else PagesUpTo(entries, k, m - 1) + VisiblePage(entries, m, k)
  }

  lemma {:induction false} PagesUpToPrefix<T>(entries: seq<T>, k: int, m: nat)
    requires k >= 1
    ensures PagesUpTo(entries, k, m) == entries[..Min(m * k, |entries|)]
  {
    if m > 0 {
      var n := |entries|;
      var lo := (m - 1) * k;
      var hi := lo + k;
      MulStep(m, k);
      PagesUpToPrefix(entries, k, m - 1);
      VisiblePageIsClippedStretch(entries, m, k);
      AdjacentSlices(entries, Min(lo, n), Min(hi, n));
    }
  }

  lemma AdjacentSlices<T>(xs: seq<T>, a: int, b: int)
    requires 0 <= a <= b <= |xs|
    ensures xs[..a] + xs[a..b] == xs[..b]
  {
  }

  /** Reading the pages from 1 to `ceil(n / k)` in order gives back the whole list. */
  lemma PagesReproduceList<T>(entries: seq<T>, k: int)
    requires k >= 1
    ensures PagesUpTo(entries, k, PageCount(|entries|, k)) == entries
  {
    var m := PageCount(|entries|, k);
    PagesUpToPrefix(entries, k, m);
    assert Min(m * k, |entries|) == |entries|;
  }

  lemma MulMonotone(a: int, b: int, k: int)
    requires a <= b && k >= 0
    ensures a * k <= b * k
  {
    assert b * k - a * k == (b - a) * k;
  }

  /** Where page `p` of `m` starts and where the next page starts, when the `m` pages just hold `n` entries. */
  lemma PageStarts(n: nat, k: int, p: int, m: int)
    requires k >= 1 && 1 <= p <= m && (m - 1) * k < n
    ensures 0 <= (p - 1) * k < n && (p - 1) * k + k == p * k
    ensures p < m ==> p * k < n
  {
    MulStep(p, k);
    MulMonotone(p - 1, m - 1, k);
    if p < m {
      MulMonotone(p, m - 1, k);
    }
  }

  /** A stretch of `k` entries from inside the list, clipped to it, holds 1 to `k` entries, and `k` when it fits. */
  lemma SliceLength<T>(entries: seq<T>, s: int, k: int)
    requires 0 <= s < |entries| && k >= 1
    ensures 1 <= |JsSlice(entries, s, s + k)| <= k
    ensures s + k <= |entries| ==> |JsSlice(entries, s, s + k)| == k
  {
  }

  /** Page sizes for any page count `m` with `(m-1)·k < n`. */
  lemma PageSizesOf<T>(entries: seq<T>, k: int, p: int, m: int)
    requires k >= 1 && 1 <= p <= m && (m - 1) * k < |entries|
    ensures p < m ==> |VisiblePage(entries, p, k)| == k
    ensures 1 <= |VisiblePage(entries, p, k)| <= k
  {
    var s := StartIndex(p, k);
    assert VisiblePage(entries, p, k) == JsSlice(entries, s, s + k);
    PageStarts(|entries|, k, p, m);
    SliceLength(entries, s, k);
  }

  /** Every page before the last holds exactly `k` entries; the last holds between 1 and `k`. */
  lemma PageSizes<T>(entries: seq<T>, k: int, p: int)
    requires k >= 1 && 1 <= p <= PageCount(|entries|, k)
    ensures p < PageCount(|entries|, k) ==> |VisiblePage(entries, p, k)| == k
    ensures 1 <= |VisiblePage(entries, p, k)| <= k
  {
    var m := PageCount(|entries|, k);
    assert (m - 1) * k < |entries|;
    PageSizesOf(entries, k, p, m);
  }

  /** `revenueSchedules.reduce((sum, s) => sum + (s.amount || 0), 0)`. */
  function Total(entries: seq<ScheduleView>): real {
    if entries == [] then 0.0 else Total(entries[..|entries| - 1]) + AmountOrZero(entries[|entries| - 1].amount)
  }

  /** `revenueSchedules.filter((s) => s.recognized)`. */
  function Recognized(entries: seq<ScheduleView>): (r: seq<ScheduleView>)
    ensures forall e :: e in r ==> e in entries && e.recognized
    ensures forall e :: e in entries && e.recognized ==> e in r
  {
    if entries == [] then []
    else
      var rest := Recognized(entries[..|entries| - 1]);
      var e := entries[|entries| - 1];
      if e.recognized then rest + [e] else rest
  }

  /** The entries still pending. */
  function Pending(entries: seq<ScheduleView>): (r: seq<ScheduleView>)
    ensures forall e :: e in r ==> e in entries && !e.recognized
    ensures forall e :: e in entries && !e.recognized ==> e in r
  {
    if entries == [] then []
    else
      var rest := Pending(entries[..|entries| - 1]);
      var e := entries[|entries| - 1];
      if !e.recognized then rest + [e] else rest
  }

  /** Recognized and Pending split the list: every entry lands in exactly one, as often as it occurs. */
  lemma {:induction false} RecognizedAndPendingPartition(entries: seq<ScheduleView>)
    ensures multiset(Recognized(entries)) + multiset(Pending(entries)) == multiset(entries)
    decreases |entries|
  {
    if entries != [] {
      var init := entries[..|entries| - 1];
      var e := entries[|entries| - 1];
      assert entries == init + [e];
      RecognizedAndPendingPartition(init);
    }
  }

  lemma {:induction false} TotalAppend(a: seq<ScheduleView>, b: seq<ScheduleView>)
    ensures Total(a + b) == Total(a) + Total(b)
    decreases |b|
  {
    if b == [] {
      assert a + b == a;
    } else {
      var init := b[..|b| - 1];
      assert (a + b)[..|a + b| - 1] == a + init;
      TotalAppend(a, init);
    }
  }

  /** The Total shown is the Recognized sum plus the sum of the pending entries. */
  lemma {:induction false} TotalSplitsByStatus(entries: seq<ScheduleView>)
    ensures Total(entries) == Total(Recognized(entries)) + Total(Pending(entries))
    decreases |entries|
  {
    if entries != [] {
      var init := entries[..|entries| - 1];
      var e := entries[|entries| - 1];
      TotalSplitsByStatus(init);
      if e.recognized {
        TotalAppend(Recognized(init), [e]);
      } else {
        TotalAppend(Pending(init), [e]);
      }
    }
  }

  /** With no negative amounts, the Recognized sum never exceeds the Total. */
  lemma {:induction false} RecognizedAtMostTotal(entries: seq<ScheduleView>)
    requires forall i :: 0 <= i < |entries| ==> AmountOrZero(entries[i].amount) >= 0.0
    ensures 0.0 <= Total(Pending(entries)) && Total(Recognized(entries)) <= Total(entries)
    decreases |entries|
  {
    if entries != [] {
      var init := entries[..|entries| - 1];
      var e := entries[|entries| - 1];
      assert forall i :: 0 <= i < |init| ==> init[i] == entries[i];
      RecognizedAtMostTotal(init);
      TotalSplitsByStatus(entries);
      TotalSplitsByStatus(init);
      if !e.recognized {
        TotalAppend(Pending(init), [e]);
      }
    }
  }

  /** The pagination bar is drawn only when the list is longer than one page. */
  predicate ShowsPagination(n: nat, itemsPerPage: int) {
    n > itemsPerPage
  }

  /** The pagination bar is drawn exactly when the entries fill more than one page. */
  lemma ShowsPaginationIffSeveralPages(n: nat, k: nat)
    requires k >= 1
    ensures ShowsPagination(n, k) <==> PageCount(n, k) > 1
  {
    var m := PageCount(n, k);
    if m >= 2 {
      MulMonotone(1, m - 1, k);
    }
  }

  /** "Showing a to b of n entries". */
  datatype ShowingLabel = ShowingLabel(first: int, last: int, total: nat)

  function Showing(n: nat, currentPage: int, itemsPerPage: int): (l: ShowingLabel)
    ensures l.first == StartIndex(currentPage, itemsPerPage) + 1 && l.total == n
    ensures l.last == Min(StartIndex(currentPage, itemsPerPage) + itemsPerPage, n)
  {
    var startIndex := StartIndex(currentPage, itemsPerPage);
    ShowingLabel(startIndex + 1, Min(startIndex + itemsPerPage, n), n)
  }

  /** On a page inside the list, the label counts exactly the entries shown. */
  lemma ShowingCountsVisible<T>(entries: seq<T>, p: int, k: int)
    requires k >= 1 && 1 <= p <= PageCount(|entries|, k)
    ensures var l := Showing(|entries|, p, k);
      l.last - l.first + 1 == |VisiblePage(entries, p, k)| && 1 <= l.first <= l.last <= l.total
  {
    VisiblePageIsClippedStretch(entries, p, k);
    PageSizes(entries, k, p);
    MulMonotone(p - 1, PageCount(|entries|, k) - 1, k);
  }

  /** A pagination button: the page it requests and whether it is disabled. */
  datatype PageButton = PageButton(target: int, disabled: bool)

  function PreviousButton(currentPage: int): (b: PageButton)
    ensures b.target == currentPage - 1 && (b.disabled <==> currentPage == 1)
  {
    PageButton(currentPage - 1, currentPage == 1)
  }

  function NextButton(currentPage: int, totalPages: int): (b: PageButton)
    ensures b.target == currentPage + 1 && (b.disabled <==> currentPage == totalPages)
  {
    PageButton(currentPage + 1, currentPage == totalPages)
  }

  /** `Array.from({ length: totalPages }, (_, i) => i + 1)`. */
  function PageNumbers(totalPages: int): (ps: seq<int>)
    ensures |ps| == if totalPages < 0 then 0 else totalPages
    ensures forall i :: 0 <= i < |ps| ==> ps[i] == i + 1
  {
    var n := if totalPages < 0 then 0 else totalPages;
    seq(n, i => i + 1)
  }

  /** Between the two disabled ends, the buttons never request a page outside 1 to `totalPages`. */
  lemma ButtonsStayInRange(currentPage: int, totalPages: int)
    requires 1 <= currentPage <= totalPages
    ensures !PreviousButton(currentPage).disabled ==> PreviousButton(currentPage).target in PageNumbers(totalPages)
    ensures !NextButton(currentPage, totalPages).disabled ==> NextButton(currentPage, totalPages).target in PageNumbers(totalPages)
  {
    var ps := PageNumbers(totalPages);
    if currentPage > 1 {
      assert ps[currentPage - 2] == currentPage - 1;
    }
    if currentPage < totalPages {
      assert ps[currentPage] == currentPage + 1;
    }
  }

  /** The cells of one row, before currency and date rendering. */
  datatype RowCells = RowCells(name: string, kind: string, methodLabel: Option<string>, statusLabel: string)

  /** `obligation?.field || fallback` for one field. */
  function ObligationField(o: Option<ObligationView>, field: ObligationView -> Option<string>, fallback: string): string {
    if o.Some? then OrElse(field(o.value), fallback) else fallback
  }

  function Row(s: ScheduleView): (c: RowCells)
    ensures c.name == if s.obligation.Some? && Truthy(s.obligation.value.name) then s.obligation.value.name.value
                      else "Unknown Obligation"
    ensures c.kind == if s.obligation.Some? && Truthy(s.obligation.value.kind) then s.obligation.value.kind.value
                      else "N/A"
    ensures c.methodLabel.Some? <==> s.obligation.Some? && Truthy(s.obligation.value.recognitionMethod)
    ensures c.methodLabel.Some? ==> c.methodLabel.value == ReplaceFirst(s.obligation.value.recognitionMethod.value, '_', ' ')
    ensures c.statusLabel == if s.recognized then "Recognized" else "Pending"
  {
    var methodLabel := if s.obligation.Some? && Truthy(s.obligation.value.recognitionMethod)
                  then Some(ReplaceFirst(s.obligation.value.recognitionMethod.value, '_', ' ')) else None;
    RowCells(ObligationField(s.obligation, (o: ObligationView) => o.name, "Unknown Obligation"),
             ObligationField(s.obligation, (o: ObligationView) => o.kind, "N/A"),
             methodLabel,
             if s.recognized then "Recognized" else "Pending")
  }

  /** Only the first underscore of a recognition method becomes a space. */
  lemma MethodReplacesFirstUnderscoreOnly(m: string)
    requires IndexOf(m, '_') >= 0
    ensures var r := ReplaceFirst(m, '_', ' '); var k := IndexOf(m, '_');
      r[k] == ' ' && r[..k] == m[..k] && r[k + 1..] == m[k + 1..] && '_' !in r[..k]
  {
    var r := ReplaceFirst(m, '_', ' ');
    var k := IndexOf(m, '_');
    assert forall i :: 0 <= i < k ==> r[i] == m[i] && m[i] != '_';
  }
}
