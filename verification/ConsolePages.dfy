/** The Sessions list of the console of desktop/src/app.rs against a server that pages one list. */
module ConsolePages {
  import opened Prelude
  import opened SessionCopy
  import opened ConsoleData
  import opened ConsoleState
  import opened ConsoleBrowse
  import opened ConsoleReceive
  import opened ConsoleRun
  import opened ConsoleProperties

  /** The rows of the pages, one page after another. */
  function Rows(log: seq<Link>): seq<Resource> {
    if log == [] then [] else Rows(log[..|log| - 1]) + log[|log| - 1].page.data
  }

  /** The page holds the rows from a to b of the list, those behind the row that the cursor names, or the
      first ones; and it says whether there are more. */
  predicate PageOf(all: seq<Resource>, link: Link, a: nat, b: nat) {
    && a <= b <= |all| && link.page.data == all[a..b] && (link.page.hasMore <==> b < |all|)
    && if link.cursor.None? then a == 0 else a > 0 && all[a - 1].id == link.cursor.value
  }

  ghost predicate Paged(all: seq<Resource>, link: Link) {
    exists a: nat, b: nat :: PageOf(all, link, a, b)
  }

  /** The server pages this list. */
  ghost predicate Serves(all: seq<Resource>, log: seq<Link>) {
    forall k :: 0 <= k < |log| ==> Paged(all, log[k])
  }

  /** An unbroken chain of pages of one list without duplicates is that list, up to where the last page
      ends; and that is its end exactly if the last page says so. */
  lemma {:induction false} ChainIsPrefix(all: seq<Resource>, log: seq<Link>)
    requires DistinctIds(all) && Unbroken(log) && Serves(all, log) && log != []
    ensures |Rows(log)| <= |all| && Rows(log) == all[..|Rows(log)|]
    ensures log[|log| - 1].page.hasMore <==> |Rows(log)| < |all|
    decreases |log|
  {
    var n := |log| - 1;
    var before := log[..n];
    assert Paged(all, log[n]);
    var a: nat, b: nat :| PageOf(all, log[n], a, b);
    if n == 0 {
      assert Rows(before) == [];
      assert Rows(log) == all[..b];
    } else {
      ServesBefore(all, log);
      ChainIsPrefix(all, before);
      assert before[n - 1] == log[n - 1] && Continues(log[n - 1].page, log[n].cursor);
      LastRow(before);
      var m := |Rows(before)|;
      assert Rows(before)[m - 1] == all[m - 1];
      assert a == m;
      assert all[..m] + all[m..b] == all[..b];
    }
  }

  lemma ServesBefore(all: seq<Resource>, log: seq<Link>)
    requires Unbroken(log) && Serves(all, log) && |log| > 1
    ensures var before := log[..|log| - 1]; Unbroken(before) && Serves(all, before)
  {
    UnbrokenBefore(log);
    hide Paged, Unbroken;
  }

  lemma LastRow(log: seq<Link>)
    requires log != [] && log[|log| - 1].page.data != []
    ensures var data, rows := log[|log| - 1].page.data, Rows(log); rows != [] && rows[|rows| - 1] == data[|data| - 1]
  {
  }

  lemma {:induction false} RowIds(log: seq<Link>)
    ensures Ids(Rows(log)) == ChainIds(log)
  {
    if log != [] {
      RowIds(log[..|log| - 1]);
      IdsConcat(Rows(log[..|log| - 1]), log[|log| - 1].page.data);
    }
  }

  /** The pages are the list up to where the last one ends, each of their ids is shown once, and they are
      all that there are exactly if the server says that there is no more. */
  ghost predicate ShowsServed(all: seq<Resource>, log: seq<Link>, shown: seq<Resource>) {
    && log != [] && |Rows(log)| <= |all| && Rows(log) == all[..|Rows(log)|]
    && Ids(shown) == Ids(Rows(log)) && DistinctIds(shown)
    && (Ids(shown) == Ids(all) <==> !log[|log| - 1].page.hasMore)
  }

  lemma ServedIsShown(all: seq<Resource>, log: seq<Link>, shown: seq<Resource>)
    requires DistinctIds(all) && Unbroken(log) && Serves(all, log) && log != []
    requires Ids(shown) == ChainIds(log) && DistinctIds(shown)
    ensures ShowsServed(all, log, shown)
  {
    hide Serves, Unbroken;
    ChainIsPrefix(all, log);
    RowIds(log);
    if |Rows(log)| < |all| {
      NotYetListed(all, |Rows(log)|);
    } else {
      assert all[..|all|] == all;
    }
  }

  /** When the last page arrives from a server that pages one list without duplicates, whatever came
      between the pages, the console shows what was served. */
  lemma ListIsServed(states: seq<State>, inputs: seq<Input>, first: Queue, matches: Matching, k: nat,
                     all: seq<Resource>)
    ensures Run(states, inputs, first, matches) && k < |inputs| && DistinctIds(all) &&
            LastArrives(states[k], inputs[k], states[k + 1], matches) &&
            Serves(all, Delivered(states, inputs, first, matches, k + 1)) ==>
            ShowsServed(all, Delivered(states, inputs, first, matches, k + 1), states[k + 1].list.resources)
  {
    hide LastArrives, Delivered, Serves, Unbroken, ShowsServed, Follows, Start, DistinctIds, Ids, ChainIds;
    if Run(states, inputs, first, matches) && k < |inputs| && DistinctIds(all) &&
      LastArrives(states[k], inputs[k], states[k + 1], matches) &&
      Serves(all, Delivered(states, inputs, first, matches, k + 1)) {
      PageChain(states, inputs, first, matches, k);
      ServedIsShown(all, Delivered(states, inputs, first, matches, k + 1), states[k + 1].list.resources);
    }
  }

  lemma NotYetListed(all: seq<Resource>, n: nat)
    requires DistinctIds(all) && n < |all|
    ensures all[n].id in Ids(all) && all[n].id !in Ids(all[..n])
  {
  }

  // ---------------------------------------------------------------- the order of rows

  /** The list after these pages were accepted one after another, with nothing between them. */
  function AcceptAll(list: Listing, log: seq<Link>): Listing {
    if log == [] then list
    else
      var link := log[|log| - 1];
      AcceptPage(AcceptAll(list, log[..|log| - 1]), link.cursor.Some?, link.page, link.cursor)
  }

  lemma {:induction false} UpsertAppends(rows: seq<Resource>, row: Resource)
    requires row.id !in Ids(rows)
    ensures Upsert(rows, row) == rows + [row]
  {
    if rows != [] {
      IdsOfCons(rows[0], rows[1..]);
      assert rows == [rows[0]] + rows[1..];
      UpsertAppends(rows[1..], row);
    }
  }

  lemma {:induction false} UpsertAllAppends(rows: seq<Resource>, page: seq<Resource>)
    requires DistinctIds(rows + page)
    ensures UpsertAll(rows, page) == rows + page
    decreases page
  {
    if page == [] {
      assert rows + page == rows;
    } else {
      var all := rows + page;
      assert page == [page[0]] + page[1..] && all[|rows|] == page[0];
      assert forall i :: 0 <= i < |rows| ==> all[i] == rows[i];
      assert rows + [page[0]] + page[1..] == all;
      UpsertAppends(rows, page[0]);
      UpsertAllAppends(rows + [page[0]], page[1..]);
    }
  }

  lemma {:induction false} RetainsAll(rows: seq<Resource>, index: set<Id>)
    requires Ids(rows) <= index
    ensures Retain(rows, index, true) == rows
  {
    if rows != [] {
      IdsOfCons(rows[0], rows[1..]);
      assert rows == [rows[0]] + rows[1..];
      RetainsAll(rows[1..], index);
    }
  }

  lemma OnlyFirstStarts(log: seq<Link>)
    requires Unbroken(log) && log != []
    ensures log[|log| - 1].cursor.None? <==> |log| == 1
  {
    if |log| > 1 {
      assert Continues(log[|log| - 2].page, log[|log| - 1].cursor);
    }
  }

  lemma UnbrokenBefore(log: seq<Link>)
    requires Unbroken(log) && log != []
    ensures Unbroken(log[..|log| - 1])
  {
    hide Continues;
  }

  /** Pages of distinct rows build up exactly those rows, in their order, where no row was listed before. */
  lemma {:induction false} FreshList(list: Listing, log: seq<Link>)
    requires list.collection.Sessions? && list.resources == []
    requires Unbroken(log) && DistinctIds(Rows(log))
    ensures var t := AcceptAll(list, log);
            t.collection.Sessions? && t.resources == Rows(log) && (log != [] ==> t.sessionIndex == Ids(Rows(log)))
    decreases |log|
  {
    hide Retain, UpsertAll, NextCursor, Ids, Continues;
    if log != [] {
      var n := |log| - 1;
      var before, page := log[..n], log[n].page;
      UnbrokenBefore(log);
      OnlyFirstStarts(log);
      DistinctBefore(Rows(before), page.data);
      FreshList(list, before);
      IdsConcat(Rows(before), page.data);
      UpsertAllAppends(Rows(before), page.data);
      RetainsAll(Rows(log), Ids(Rows(log)));
      if n == 0 {
        NothingRetained({} + Ids(page.data));
        assert Rows(before) == [] && [] + page.data == page.data && page.data + [] == page.data;
        assert {} + Ids(page.data) == Ids(page.data);
      }
    }
  }

  lemma NothingRetained(index: set<Id>)
    ensures Retain([], index, false) == []
  {
  }

  lemma DistinctBefore(rows: seq<Resource>, more: seq<Resource>)
    requires DistinctIds(rows + more)
    ensures DistinctIds(rows)
  {
    assert forall i :: 0 <= i < |rows| ==> (rows + more)[i] == rows[i];
  }
}
