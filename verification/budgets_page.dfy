/** `pages/budgets/index.tsx`: the budgets page filters its budget list by a search term and a
    date range and shows it ten at a time, paging on the client. */
module BudgetsPage {
  import opened Seqs
  import opened Text
  import opened Js
  import opened StringOrder
  import opened Paging

  /** The client's `Budget`; the id is text. */
  datatype ClientBudget = ClientBudget(
    id: string,
    name: string,
    category: string,
    fund: string,
    amount: int,
    spent: int,
    startDate: string,
    endDate: string,
    status: string,
    note: string)

  /** The date-range picker; an empty end is unset. */
  datatype DateRange = DateRange(from: string, to: string)

  const ITEMS_PER_PAGE: nat := 10

  /** The name or the category contains the term, ignoring case, or the id contains it as typed. */
  predicate MatchesSearch(b: ClientBudget, term: string) {
    || Contains(Lower(b.name), Lower(term))
    || Contains(b.id, term)
    || Contains(Lower(b.category), Lower(term))
  }

  /** With both ends set, the budget runs inside the range: it starts no earlier than `from` and
      ends no later than `to`, comparing the date texts. With an end unset every budget matches. */
  predicate MatchesDate(b: ClientBudget, range: DateRange) {
    range.from == "" || range.to == "" || (LessEq(range.from, b.startDate) && LessEq(b.endDate, range.to))
  }

  predicate Shown(b: ClientBudget, term: string, range: DateRange) {
    MatchesSearch(b, term) && MatchesDate(b, range)
  }

  /** `filteredBudgets`. */
  function Filtered(budgets: seq<ClientBudget>, term: string, range: DateRange): (r: seq<ClientBudget>)
    ensures |r| <= |budgets|
    ensures forall i :: 0 <= i < |r| ==> Shown(r[i], term, range)
  {
    Filter(budgets, b => Shown(b, term, range))
  }

  /** The filter keeps exactly the budgets that match both conditions, in their order. */
  lemma FilteredExactly(budgets: seq<ClientBudget>, term: string, range: DateRange)
    ensures IsSubsequence(Filtered(budgets, term, range), budgets)
    ensures forall i :: 0 <= i < |Filtered(budgets, term, range)| ==> Filtered(budgets, term, range)[i] in budgets
    ensures forall i :: 0 <= i < |budgets| && Shown(budgets[i], term, range) ==> budgets[i] in Filtered(budgets, term, range)
  {
    FilterMembers(budgets, b => Shown(b, term, range));
  }

  /** An empty search with an unset range shows every budget. */
  lemma NoFilterShowsAll(budgets: seq<ClientBudget>, range: DateRange)
    requires range.from == "" || range.to == ""
    ensures Filtered(budgets, "", range) == budgets
  {
    forall i | 0 <= i < |budgets| ensures Shown(budgets[i], "", range) {
      ContainsEmpty(budgets[i].id);
    }
  }

  /** A range with only one end set filters nothing by date. */
  lemma HalfRangeIgnored(budgets: seq<ClientBudget>, term: string, range: DateRange)
    requires range.from == "" || range.to == ""
    ensures Filtered(budgets, term, range) == Filtered(budgets, term, DateRange("", ""))
  {
    FilterSame(budgets, term, range, DateRange("", ""));
  }

  lemma {:induction false} FilterSame(budgets: seq<ClientBudget>, term: string, a: DateRange, b: DateRange)
    requires forall i :: 0 <= i < |budgets| ==> (Shown(budgets[i], term, a) <==> Shown(budgets[i], term, b))
    ensures Filtered(budgets, term, a) == Filtered(budgets, term, b)
    decreases |budgets|
  {
    if |budgets| > 0 {
      FilterSame(budgets[1..], term, a, b);
    }
  }

  /** `Math.ceil(filteredBudgets.length / itemsPerPage)`. */
  function PageCount(filtered: seq<ClientBudget>): (n: nat)
    ensures |filtered| <= n * ITEMS_PER_PAGE
    ensures n == 0 || (n - 1) * ITEMS_PER_PAGE < |filtered|
  {
    TotalPages(|filtered|, ITEMS_PER_PAGE)
  }

  /** `filteredBudgets.slice(startIndex, startIndex + itemsPerPage)` for the current page. */
  function PageOf(filtered: seq<ClientBudget>, currentPage: int): (r: seq<ClientBudget>)
    ensures |r| <= ITEMS_PER_PAGE
  {
    var start := (currentPage - 1) * ITEMS_PER_PAGE;
    Slice(filtered, start, start + ITEMS_PER_PAGE)
  }

  /** For a page number of at least 1 the client's slice is the page the server's pagination
      would give, so it has rows exactly up to the last page and every row is on its page. */
  lemma PageOfIsPaginate(filtered: seq<ClientBudget>, currentPage: nat)
    requires currentPage >= 1
    ensures PageOf(filtered, currentPage) == Paginate(filtered, currentPage, ITEMS_PER_PAGE).data
    ensures |PageOf(filtered, currentPage)| > 0 <==> currentPage <= PageCount(filtered)
  {
    var start := (currentPage - 1) * ITEMS_PER_PAGE;
    assert start == Offset(currentPage, ITEMS_PER_PAGE);
    var a, b := PageOf(filtered, currentPage), Paginate(filtered, currentPage, ITEMS_PER_PAGE).data;
    assert |a| == Max(0, Min(start + ITEMS_PER_PAGE, |filtered|) - start);
    assert |a| == |b|;
    PageNonEmptyIff(filtered, currentPage, ITEMS_PER_PAGE);
  }
}
