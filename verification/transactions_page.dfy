/** `pages/transactions/index.tsx`: the transactions page fetches one page of ten from the server
    and filters that page on the client by a search term and a date range. The page count comes
    from the server's pagination. */
module TransactionsPage {
  import opened Seqs
  import opened Text
  import opened Wrappers
  import opened StringOrder
  import opened Paging
  import TransactionService

  type Transaction = TransactionService.Transaction

  /** The date-range picker; an empty end is unset. */
  datatype DateRange = DateRange(from: string, to: string)

  const ITEMS_PER_PAGE: nat := 10

  /** The description contains the term, ignoring case. */
  predicate DescriptionMatches(t: Transaction, term: string) {
    Contains(Lower(t.description), Lower(term))
  }

  /** The search as intended: the description matches, or the decimal text of the id contains
      the term as typed. */
  predicate MatchesSearch(t: Transaction, term: string) {
    DescriptionMatches(t, term) || Contains(NatToString(t.id), term)
  }

  /** With both ends set, the date lies between them, comparing the date texts; with an end unset
      every transaction matches. */
  predicate MatchesDate(t: Transaction, range: DateRange) {
    range.from == "" || range.to == "" || (LessEq(range.from, t.date) && LessEq(t.date, range.to))
  }

  predicate Shown(t: Transaction, term: string, range: DateRange) {
    MatchesSearch(t, term) && MatchesDate(t, range)
  }

  /** `filteredTransactions`. */
  function Filtered(rows: seq<Transaction>, term: string, range: DateRange): (r: seq<Transaction>)
    ensures |r| <= |rows|
    ensures forall i :: 0 <= i < |r| ==> Shown(r[i], term, range)
  {
    Filter(rows, t => Shown(t, term, range))
  }

  /** `filteredTransactions` as written: the server sends the id as a number, which has no
      `includes`, so the id test throws a `TypeError` (`None`) at the first row whose description
      does not match. The rows are visited in order, and the date test is reached only after the
      search test. */
  function FilteredAsWritten(rows: seq<Transaction>, term: string, range: DateRange): (r: Option<seq<Transaction>>)
    ensures r.None? <==> exists i :: 0 <= i < |rows| && !DescriptionMatches(rows[i], term)
    ensures r.Some? ==> r.value == Filtered(rows, term, range)
    decreases |rows|
  {
    if |rows| == 0 then Some([])
    else if !DescriptionMatches(rows[0], term) then None
    else
      var rest := FilteredAsWritten(rows[1..], term, range);
      assert forall i :: 0 <= i < |rows[1..]| ==> rows[1..][i] == rows[i + 1];
      if rest.None? then None
      else Some((if MatchesDate(rows[0], range) then [rows[0]] else []) + rest.value)
  }

  /** The discrepancy: on a page holding transaction 7 with an empty description, searching for
      "7" throws as written, while the intended search shows the row. */
  lemma SearchByIdThrows(t: Transaction)
    requires t.id == 7 && t.description == ""
    ensures FilteredAsWritten([t], "7", DateRange("", "")).None?
    ensures Filtered([t], "7", DateRange("", "")) == [t]
  {
    assert Lower("7") == "7";
    assert !Contains("", "7");
    assert NatToString(7) == "7";
    assert "7"[..1] == "7";
    assert Shown(t, "7", DateRange("", ""));
  }

  /** With an empty search every description matches, so the as-written filter does not throw. */
  lemma EmptySearchDoesNotThrow(rows: seq<Transaction>, range: DateRange)
    ensures FilteredAsWritten(rows, "", range) == Some(Filtered(rows, "", range))
  {
    forall i | 0 <= i < |rows| ensures DescriptionMatches(rows[i], "") {
      ContainsEmpty(Lower(rows[i].description));
    }
  }

  /** The filter keeps exactly the transactions that match both conditions, in their order. */
  lemma FilteredExactly(rows: seq<Transaction>, term: string, range: DateRange)
    ensures IsSubsequence(Filtered(rows, term, range), rows)
    ensures forall i :: 0 <= i < |Filtered(rows, term, range)| ==> Filtered(rows, term, range)[i] in rows
    ensures forall i :: 0 <= i < |rows| && Shown(rows[i], term, range) ==> rows[i] in Filtered(rows, term, range)
  {
    FilterMembers(rows, t => Shown(t, term, range));
  }

  /** An empty search with an unset range shows the whole fetched page. */
  lemma NoFilterShowsAll(rows: seq<Transaction>, range: DateRange)
    requires range.from == "" || range.to == ""
    ensures Filtered(rows, "", range) == rows
  {
    forall i | 0 <= i < |rows| ensures Shown(rows[i], "", range) {
      ContainsEmpty(Lower(rows[i].description));
    }
  }

  /** The rows the page shows for page `currentPage` are stored transactions of that server
      page, at most ten. */
  lemma ShownStored(s: TransactionService.TransactionTable, currentPage: nat, term: string, range: DateRange)
    requires currentPage >= 1
    ensures var shown := Filtered(TransactionService.GetAll(s, currentPage, ITEMS_PER_PAGE).data, term, range);
              && |shown| <= ITEMS_PER_PAGE
              && (forall i :: 0 <= i < |shown| ==> TransactionService.Stored(s, shown[i]))
  {
    var data := TransactionService.GetAll(s, currentPage, ITEMS_PER_PAGE).data;
    TransactionService.GetAllStored(s, currentPage, ITEMS_PER_PAGE);
    FilterKeeps(data, t => Shown(t, term, range), t => TransactionService.Stored(s, t));
  }

  /** The filter keeps the server's newest-first order. */
  lemma ShownNewestFirst(s: TransactionService.TransactionTable, currentPage: nat, term: string, range: DateRange)
    requires currentPage >= 1
    ensures var shown := Filtered(TransactionService.GetAll(s, currentPage, ITEMS_PER_PAGE).data, term, range);
              forall i, j :: 0 <= i < j < |shown| ==> TransactionService.NotOlder(shown[i], shown[j])
  {
    var data := TransactionService.GetAll(s, currentPage, ITEMS_PER_PAGE).data;
    TransactionService.GetAllSorted(s, currentPage, ITEMS_PER_PAGE);
    FilterOrdered(data, t => Shown(t, term, range), TransactionService.NotOlder);
  }

  /** `pagination?.totalPages || 1`: the server's page count, and 1 when it is missing or 0. */
  function PageCount(pagination: Option<Paged<Transaction>>): (n: nat)
    ensures n >= 1
    ensures pagination.Some? && pagination.value.totalPages > 0 ==> n == pagination.value.totalPages
    ensures pagination.None? || pagination.value.totalPages == 0 ==> n == 1
  {
    if pagination.Some? && pagination.value.totalPages > 0 then pagination.value.totalPages else 1
  }

  /** With the server's answer in hand the count is the number of pages of ten over all stored
      transactions, and 1 for an empty table. */
  lemma PageCountOfServer(s: TransactionService.TransactionTable, currentPage: nat)
    requires currentPage >= 1
    ensures var n := PageCount(Some(TransactionService.GetAll(s, currentPage, ITEMS_PER_PAGE)));
              && (|s.rows| == 0 ==> n == 1)
              && (|s.rows| > 0 ==> n == TotalPages(|s.rows|, ITEMS_PER_PAGE))
  {
  }
}
