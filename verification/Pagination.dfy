/** The cursor loop `Api::pages` of desktop/src/api.rs, against any server. */
module Pagination {
  import opened Prelude
  import opened ConsoleData

  const PAGE_LIMIT := 1000

  datatype Failure = RequestFailed | EmptyPage | RepeatedCursor | TooManyPages

  datatype Outcome = Rows(rows: seq<Resource>) | Failed(failure: Failure)

  /** What the server answers to the k-th request, which may carry a cursor; None when it fails. */
  type Server = (nat, Option<Id>) -> Option<Page>

  /** The rows whose ids were not listed before. */
  function Unseen(rows: seq<Resource>, page: seq<Resource>): seq<Resource>
    decreases |page|
  {
    if page == [] then []
    else if page[0].id in Ids(rows) then Unseen(rows, page[1..])
    else [page[0]] + Unseen(rows + [page[0]], page[1..])
  }

  function LastId(page: Page): Option<Id> {
    if page.data == [] then None else Some(page.data[|page.data| - 1].id)
  }

  /** What is left to do from the k-th request on. */
  function From(server: Server, limit: nat, k: nat, after: Option<Id>, rows: seq<Resource>, cursors: set<Id>): Outcome
    decreases limit - k
  {
    if k >= limit then Failed(TooManyPages)
    else
      var page := server(k, after);
      if page.None? then Failed(RequestFailed)
      else
        var more := rows + Unseen(rows, page.value.data);
        if !page.value.hasMore then Rows(more)
        else
          var last := LastId(page.value);
          if last.None? then Failed(EmptyPage)
          else if last.value in cursors then Failed(RepeatedCursor)
          else From(server, limit, k + 1, last, more, cursors + {last.value})
  }

  /** A successful walk: one request and page after another, each cursor the end of the page before. */
  predicate Walk(server: Server, requests: seq<Option<Id>>, pages: seq<Page>) {
    && |requests| == |pages|
    && (forall k :: 0 <= k < |pages| ==> server(k, requests[k]) == Some(pages[k]))
    && (forall k :: 0 <= k < |pages| ==> requests[k] == if k == 0 then None else LastId(pages[k - 1]))
  }

  function Listed(pages: seq<Page>): seq<Resource> {
    if pages == [] then [] else Listed(pages[..|pages| - 1]) + pages[|pages| - 1].data
  }

  /** The first occurrence of each id, in order. */
  function FirstOccurrences(rows: seq<Resource>): seq<Resource> {
    if rows == [] then []
    else
      var before := FirstOccurrences(rows[..|rows| - 1]);
      if rows[|rows| - 1].id in Ids(before) then before else before + [rows[|rows| - 1]]
  }

  lemma OccurrencesOne(rows: seq<Resource>, row: Resource)
    ensures FirstOccurrences(rows + [row]) ==
            if row.id in Ids(FirstOccurrences(rows)) then FirstOccurrences(rows) else FirstOccurrences(rows) + [row]
  {
    assert (rows + [row])[..|rows + [row]| - 1] == rows;
  }

  lemma {:induction false} OccurrencesGrow(rows: seq<Resource>, page: seq<Resource>)
    ensures FirstOccurrences(rows + page) == FirstOccurrences(rows) + Unseen(FirstOccurrences(rows), page)
    decreases |page|
  {
    if page == [] {
      assert rows + page == rows;
    } else {
      var row, rest := page[0], page[1..];
      assert rows + page == rows + [row] + rest;
      OccurrencesOne(rows, row);
      OccurrencesGrow(rows + [row], rest);
      hide FirstOccurrences, Ids;
      var before := FirstOccurrences(rows);
      Regroup(before, [row], Unseen(before + [row], rest));
    }
  }

  /** The row at j is the earliest with its id. */
  predicate EarliestAt(rows: seq<Resource>, j: nat, row: Resource) {
    j < |rows| && rows[j] == row && forall l :: 0 <= l < j ==> rows[l].id != row.id
  }

  ghost predicate HasEarliest(rows: seq<Resource>, row: Resource) {
    exists j: nat :: EarliestAt(rows, j, row)
  }

  /** What first occurrences are: every id once, nothing else, and each row the earliest with its id. */
  lemma {:induction false} OccurrencesAre(rows: seq<Resource>)
    ensures var r := FirstOccurrences(rows);
            && DistinctIds(r) && Ids(r) == Ids(rows)
            && forall i :: 0 <= i < |r| ==> HasEarliest(rows, r[i])
  {
    if rows == [] {
    } else {
      var n := |rows| - 1;
      var before, row := FirstOccurrences(rows[..n]), rows[n];
      OccurrencesAre(rows[..n]);
      assert rows == rows[..n] + [row];
      EarliestStays(rows, n, before);
      OneMore(before, row);
      OneMore(rows[..n], row);
      if row.id !in Ids(before) {
        NewIsEarliest(rows, n);
      }
    }
  }

  lemma OneMore(rows: seq<Resource>, row: Resource)
    ensures Ids(rows + [row]) == Ids(rows) + {row.id}
    ensures DistinctIds(rows) && row.id !in Ids(rows) ==> DistinctIds(rows + [row])
  {
    IdsConcat(rows, [row]);
    assert [row][0] == row;
    if DistinctIds(rows) && row.id !in Ids(rows) {
      DistinctConcat(rows, [row]);
    }
  }

  lemma NewIsEarliest(rows: seq<Resource>, n: nat)
    requires n < |rows| && rows[n].id !in Ids(rows[..n])
    ensures EarliestAt(rows, n, rows[n])
  {
    assert forall l :: 0 <= l < n ==> rows[..n][l] == rows[l];
  }

  lemma EarliestLonger(rows: seq<Resource>, n: nat, j: nat, row: Resource)
    requires n < |rows| && EarliestAt(rows[..n], j, row)
    ensures EarliestAt(rows, j, row)
  {
    assert forall l :: 0 <= l <= j ==> rows[l] == rows[..n][l];
  }

  lemma EarliestStays(rows: seq<Resource>, n: nat, before: seq<Resource>)
    requires n < |rows| && forall i :: 0 <= i < |before| ==> HasEarliest(rows[..n], before[i])
    ensures forall i :: 0 <= i < |before| ==> HasEarliest(rows, before[i])
  {
    forall i | 0 <= i < |before| ensures HasEarliest(rows, before[i]) {
      var j: nat :| EarliestAt(rows[..n], j, before[i]);
      EarliestLonger(rows, n, j, before[i]);
    }
  }

  predicate AllMore(pages: seq<Page>) {
    forall k :: 0 <= k < |pages| ==> pages[k].hasMore
  }

  predicate NoReuse(requests: seq<Option<Id>>) {
    forall i, j :: 0 <= i < j < |requests| ==> requests[i] != requests[j]
  }

  /** Where the loop stands: the walk so far, and the next cursor, which is new. */
  predicate Progress(server: Server, requests: seq<Option<Id>>, pages: seq<Page>, after: Option<Id>, cursors: set<Id>) {
    && Walk(server, requests, pages) && AllMore(pages) && NoReuse(requests + [after])
    && after == (if pages == [] then None else LastId(pages[|pages| - 1]))
    && (pages != [] ==> after.Some? && after.value in cursors)
    && forall i :: 0 <= i < |requests| ==> requests[i] == None || requests[i].value in cursors
  }

  lemma WalkGrows(server: Server, requests: seq<Option<Id>>, pages: seq<Page>, after: Option<Id>, page: Page)
    requires Walk(server, requests, pages) && server(|requests|, after) == Some(page)
    requires after == if pages == [] then None else LastId(pages[|pages| - 1])
    ensures Walk(server, requests + [after], pages + [page])
  {
    hide LastId;
    var r, p := requests + [after], pages + [page];
    forall k | 0 <= k < |p| ensures server(k, r[k]) == Some(p[k]) && r[k] == if k == 0 then None else LastId(p[k - 1]) {
      assert k < |pages| ==> p[k] == pages[k] && r[k] == requests[k];
      assert k > 0 ==> p[k - 1] == pages[k - 1];
    }
  }

  lemma ProgressGrows(server: Server, requests: seq<Option<Id>>, pages: seq<Page>, after: Option<Id>, cursors: set<Id>,
                      page: Page)
    requires Progress(server, requests, pages, after, cursors) && server(|requests|, after) == Some(page) &&
             page.hasMore
    requires LastId(page).Some? && LastId(page).value !in cursors
    ensures Progress(server, requests + [after], pages + [page], LastId(page), cursors + {LastId(page).value})
  {
    hide Walk, LastId, NoReuse;
    WalkGrows(server, requests, pages, after, page);
    NewCursor(requests + [after], LastId(page), cursors);
  }

  lemma NewCursor(requests: seq<Option<Id>>, next: Option<Id>, cursors: set<Id>)
    requires NoReuse(requests) && next.Some? && next.value !in cursors
    requires forall i :: 0 <= i < |requests| ==> requests[i] == None || requests[i].value in cursors
    ensures NoReuse(requests + [next])
  {
  }

  /** Any server: at most a thousand requests, no cursor used twice, and on success the first
      occurrences of the pages in order, of which only the last says it is the last. */
  method Pages(server: Server) returns (result: Outcome, requests: seq<Option<Id>>, pages: seq<Page>)
    ensures result == From(server, PAGE_LIMIT, 0, None, [], {})
    ensures |requests| <= 1000 && NoReuse(requests)
    ensures result.Rows? ==>
              && Walk(server, requests, pages) && pages != [] && result.rows == FirstOccurrences(Listed(pages))
              && AllMore(pages[..|pages| - 1]) && !pages[|pages| - 1].hasMore
    ensures result == Failed(TooManyPages) ==>
              |requests| == 1000 && Walk(server, requests, pages) && AllMore(pages)
  {
    hide FirstOccurrences, Unseen, Ids, DistinctIds, Progress, Walk, AllMore, NoReuse, LastId, Listed;
    var rows: seq<Resource>, cursors: set<Id>, after: Option<Id> := [], {}, None;
    requests, pages := [], [];
    NoOccurrences();
    Beginning(server);
    for k := 0 to PAGE_LIMIT
      invariant |requests| == k && Progress(server, requests, pages, after, cursors)
      invariant From(server, PAGE_LIMIT, k, after, rows, cursors) == From(server, PAGE_LIMIT, 0, None, [], {})
      invariant rows == FirstOccurrences(Listed(pages))
    {
      Reached(server, requests, pages, after, cursors);
      var page := server(k, after);
      if page.None? {
        return Failed(RequestFailed), requests + [after], pages;
      }
      ListedGrows(pages, page.value);
      OccurrencesGrow(Listed(pages), page.value.data);
      rows := rows + Unseen(rows, page.value.data);
      var last := LastId(page.value);
      if !page.value.hasMore {
        WalkGrows(server, requests, pages, after, page.value);
        assert (pages + [page.value])[..|pages|] == pages;
        return Rows(rows), requests + [after], pages + [page.value];
      }
      if last.None? {
        return Failed(EmptyPage), requests + [after], pages + [page.value];
      }
      if last.value in cursors {
        return Failed(RepeatedCursor), requests + [after], pages + [page.value];
      }
      ProgressGrows(server, requests, pages, after, cursors, page.value);
      requests, pages := requests + [after], pages + [page.value];
      cursors := cursors + {last.value};
      after := last;
    }
    Reached(server, requests, pages, after, cursors);
    result := Failed(TooManyPages);
  }

  lemma Beginning(server: Server)
    ensures Progress(server, [], [], None, {})
  {
  }

  lemma Reached(server: Server, requests: seq<Option<Id>>, pages: seq<Page>, after: Option<Id>, cursors: set<Id>)
    requires Progress(server, requests, pages, after, cursors)
    ensures Walk(server, requests, pages) && |requests| == |pages| && AllMore(pages) && NoReuse(requests + [after]) &&
            NoReuse(requests)
    ensures after == if pages == [] then None else LastId(pages[|pages| - 1])
  {
    assert forall i :: 0 <= i < |requests| ==> (requests + [after])[i] == requests[i];
  }

  lemma NoOccurrences()
    ensures FirstOccurrences(Listed([])) == []
  {
  }

  lemma ListedGrows(pages: seq<Page>, page: Page)
    ensures Listed(pages + [page]) == Listed(pages) + page.data
  {
    assert (pages + [page])[..|pages + [page]| - 1] == pages;
  }

  // ---------------------------------------------------------------- a server that pages one list

  /** Where the k-th page starts when the pages have these sizes, each at least one. */
  function StartOf(sizes: nat -> nat, k: nat): nat {
    if k == 0 then 0 else StartOf(sizes, k - 1) + sizes(k - 1) + 1
  }

  function Min(a: nat, b: nat): nat {
    if a < b then a else b
  }

  /** The position after the row with the cursor's id. */
  function After(all: seq<Resource>, after: Option<Id>): (n: nat)
    ensures n <= |all|
  {
    if after.None? || all == [] then 0
    else if all[|all| - 1].id == after.value then |all|
    else After(all[..|all| - 1], after)
  }

  /** Pages a fixed list, page k holding at most one more than sizes(k) rows, never an empty page
      before the last. */
  function Paging(all: seq<Resource>, sizes: nat -> nat): Server {
    (k: nat, after: Option<Id>) =>
      var lo := After(all, after);
      var hi := Min(lo + sizes(k) + 1, |all|);
      Some(Page(all[lo..hi], hi < |all|))
  }

  lemma {:induction false} AfterIs(all: seq<Resource>, n: nat)
    requires DistinctIds(all) && 0 < n <= |all|
    ensures After(all, Some(all[n - 1].id)) == n
  {
    if n < |all| {
      AfterIs(all[..|all| - 1], n);
    }
  }

  lemma {:induction false} AllUnseen(rows: seq<Resource>, page: seq<Resource>)
    requires DistinctIds(rows + page)
    ensures Unseen(rows, page) == page
    decreases |page|
  {
    if page == [] {
    } else {
      var row, rest := page[0], page[1..];
      assert rows + page == rows + [row] + rest;
      AllUnseen(rows + [row], rest);
      assert (rows + page)[|rows|] == row;
      assert forall i :: 0 <= i < |rows| ==> (rows + page)[i] == rows[i];
      assert row.id !in Ids(rows);
    }
  }

  lemma {:induction false} StartsGrow(sizes: nat -> nat, k: nat, n: nat)
    requires k <= n
    ensures StartOf(sizes, k) <= StartOf(sizes, n)
    decreases n - k
  {
    if k < n {
      StartsGrow(sizes, k, n - 1);
    }
  }

  lemma LastOfPage(all: seq<Resource>, lo: nat, hi: nat, cursors: set<Id>)
    requires DistinctIds(all) && lo < hi <= |all| && cursors <= Ids(all[..lo])
    ensures all[hi - 1].id !in cursors && cursors + {all[hi - 1].id} <= Ids(all[..hi])
  {
    assert forall i :: 0 <= i < lo ==> all[..lo][i] == all[i];
    assert forall i :: 0 <= i < hi ==> all[..hi][i] == all[i];
  }

  /** The cursor that ends where the k-th page starts. */
  function CursorAt(all: seq<Resource>, lo: nat, k: nat): Option<Id> {
    if k == 0 || lo == 0 || lo > |all| then None else Some(all[lo - 1].id)
  }

  lemma PageAt(all: seq<Resource>, sizes: nat -> nat, k: nat, lo: nat, hi: nat)
    requires DistinctIds(all) && lo <= |all| && (k == 0 <==> lo == 0) && hi == Min(lo + sizes(k) + 1, |all|)
    ensures Paging(all, sizes)(k, CursorAt(all, lo, k)) == Some(Page(all[lo..hi], hi < |all|))
    ensures lo < hi ==> LastId(Page(all[lo..hi], hi < |all|)) == CursorAt(all, hi, k + 1) == Some(all[hi - 1].id)
  {
    hide Ids, DistinctIds;
    if k > 0 {
      AfterIs(all, lo);
    }
  }

  lemma PageRows(all: seq<Resource>, lo: nat, hi: nat)
    requires DistinctIds(all) && lo <= hi <= |all|
    ensures all[..lo] + Unseen(all[..lo], all[lo..hi]) == all[..hi]
  {
    hide Ids, DistinctIds, Unseen;
    assert all[..lo] + all[lo..hi] == all[..hi];
    Prefix(all, hi);
    AllUnseen(all[..lo], all[lo..hi]);
  }

  /** One request of the walk. */
  lemma FromStep(server: Server, limit: nat, k: nat, after: Option<Id>, rows: seq<Resource>, cursors: set<Id>,
                 page: Page, last: Option<Id>)
    requires k < limit && server(k, after) == Some(page)
    requires page.hasMore ==> last.Some? && LastId(page) == last && last.value !in cursors
    ensures var more := rows + Unseen(rows, page.data);
            From(server, limit, k, after, rows, cursors) ==
            if page.hasMore then From(server, limit, k + 1, last, more, cursors + {last.value}) else Rows(more)
  {
  }

  /** The walk from the k-th page on, which starts at row lo. */
  function WalkFrom(all: seq<Resource>, sizes: nat -> nat, limit: nat, k: nat, lo: nat, cursors: set<Id>): Outcome
    requires lo <= |all|
  {
    From(Paging(all, sizes), limit, k, CursorAt(all, lo, k), all[..lo], cursors)
  }

  lemma PagingStep(all: seq<Resource>, sizes: nat -> nat, limit: nat, k: nat, lo: nat, hi: nat, cursors: set<Id>)
    requires DistinctIds(all) && k < limit && lo <= |all| && (k == 0 <==> lo == 0) && (k == 0 || lo < |all|)
    requires hi == Min(lo + sizes(k) + 1, |all|) && cursors <= Ids(all[..lo])
    ensures WalkFrom(all, sizes, limit, k, lo, cursors) ==
            if hi == |all| then Rows(all) else WalkFrom(all, sizes, limit, k + 1, hi, cursors + {all[hi - 1].id})
    ensures hi < |all| ==> cursors + {all[hi - 1].id} <= Ids(all[..hi])
  {
    hide Ids, DistinctIds, Unseen, Paging, LastId, CursorAt, From;
    var page := Page(all[lo..hi], hi < |all|);
    PageAt(all, sizes, k, lo, hi);
    PageRows(all, lo, hi);
    if hi < |all| {
      LastOfPage(all, lo, hi, cursors);
    }
    FromStep(Paging(all, sizes), limit, k, CursorAt(all, lo, k), all[..lo], cursors, page, CursorAt(all, hi, k + 1));
    assert hi == |all| ==> all[..hi] == all;
  }

  lemma PagingStops(all: seq<Resource>, sizes: nat -> nat, limit: nat, lo: nat, cursors: set<Id>)
    requires lo <= |all|
    ensures WalkFrom(all, sizes, limit, limit, lo, cursors) == Failed(TooManyPages)
  {
  }

  lemma {:induction false} PagingFrom(all: seq<Resource>, sizes: nat -> nat, limit: nat, k: nat, lo: nat,
                                      cursors: set<Id>)
    requires DistinctIds(all) && k < limit && lo == StartOf(sizes, k) && (k == 0 || lo < |all|)
    requires lo <= |all| && cursors <= Ids(all[..lo])
    ensures WalkFrom(all, sizes, limit, k, lo, cursors) ==
            if StartOf(sizes, limit) >= |all| then Rows(all) else Failed(TooManyPages)
    decreases limit - k
  {
    hide Ids, DistinctIds, WalkFrom;
    StartPositive(sizes, k);
    var hi := Min(lo + sizes(k) + 1, |all|);
    StartsGrow(sizes, k + 1, limit);
    PagingStep(all, sizes, limit, k, lo, hi, cursors);
    if hi < |all| {
      var more := cursors + {all[hi - 1].id};
      if k + 1 < limit {
        PagingFrom(all, sizes, limit, k + 1, hi, more);
      } else {
        PagingStops(all, sizes, limit, hi, more);
      }
    }
  }

  lemma StartPositive(sizes: nat -> nat, k: nat)
    ensures StartOf(sizes, k) == 0 <==> k == 0
  {
  }

  lemma Prefix(all: seq<Resource>, n: nat)
    requires DistinctIds(all) && n <= |all|
    ensures DistinctIds(all[..n])
  {
  }

  /** Against a server that pages a fixed list without duplicates, the walk returns exactly the list,
      if and only if the pages within the limit reach its end. */
  lemma PagedListReturned(all: seq<Resource>, sizes: nat -> nat)
    requires DistinctIds(all)
    ensures From(Paging(all, sizes), PAGE_LIMIT, 0, None, [], {}) == Rows(all) <==> StartOf(sizes, PAGE_LIMIT) >= |all|
  {
    assert all[..0] == [];
    hide From;
    PagingFrom(all, sizes, PAGE_LIMIT, 0, 0, {});
  }
}
