/** `LIMIT pageSize OFFSET (page - 1) * pageSize` and `totalPages = Math.ceil(total / pageSize)`,
    the pagination arithmetic shared by the list endpoints and the budgets page. */
module Paging {
  import opened Js

  /** `Math.ceil(total / pageSize)`: the fewest pages of `pageSize` rows that hold `total` rows. */
  function TotalPages(total: nat, pageSize: nat): (r: nat)
    requires pageSize >= 1
    ensures total <= r * pageSize
    ensures r == 0 || (r - 1) * pageSize < total
  {
    var r := (total + pageSize - 1) / pageSize;
    assert r * pageSize + (total + pageSize - 1) % pageSize == total + pageSize - 1;
    r
  }

  /** The rows an SQL `LIMIT limit OFFSET offset` clause lets through. */
  function LimitOffset<T>(rows: seq<T>, limit: nat, offset: nat): (r: seq<T>)
    ensures |r| == Max(0, Min(limit, |rows| - offset))
    ensures forall i :: 0 <= i < |r| ==> offset + i < |rows| && r[i] == rows[offset + i]
  {
    if offset >= |rows| then [] else rows[offset..Min(offset + limit, |rows|)]
  }

  /** The `{ data, pagination: { total, page, pageSize, totalPages } }` response of a list call. */
  datatype Paged<T> = Paged(data: seq<T>, total: nat, page: nat, pageSize: nat, totalPages: nat)

  /** `(page - 1) * pageSize`: the rows on the earlier pages. */
  function Offset(page: nat, pageSize: nat): nat
    requires page >= 1
  {
    (page - 1) * pageSize
  }

  /** `r` is page `page` of `ordered`: the metadata describe the whole listing, and the rows are
      the run of `pageSize` rows, or of what is left, that starts after the `page - 1` earlier
      pages. */
  ghost predicate IsPageOf<T>(r: Paged<T>, ordered: seq<T>, page: nat, pageSize: nat)
    requires page >= 1 && pageSize >= 1
  {
    && r.total == |ordered| && r.page == page && r.pageSize == pageSize
    && r.totalPages * pageSize >= |ordered|
    && (r.totalPages == 0 || (r.totalPages - 1) * pageSize < |ordered|)
    && |r.data| == Max(0, Min(pageSize, |ordered| - Offset(page, pageSize)))
    && (forall i :: 0 <= i < |r.data| ==>
          Offset(page, pageSize) + i < |ordered| && r.data[i] == ordered[Offset(page, pageSize) + i])
  }

  /** One page of the already ordered rows, with its pagination metadata. */
  function Paginate<T>(ordered: seq<T>, page: nat, pageSize: nat): (r: Paged<T>)
    requires page >= 1 && pageSize >= 1
    ensures IsPageOf(r, ordered, page, pageSize)
  {
    Paged(LimitOffset(ordered, pageSize, Offset(page, pageSize)), |ordered|, page, pageSize,
          TotalPages(|ordered|, pageSize))
  }

  /** A page has rows exactly when its number is at most `totalPages`. */
  lemma PageNonEmptyIff<T>(ordered: seq<T>, page: nat, pageSize: nat)
    requires page >= 1 && pageSize >= 1
    ensures |Paginate(ordered, page, pageSize).data| > 0 <==> page <= TotalPages(|ordered|, pageSize)
  {
    var n := |ordered|;
    var t := TotalPages(n, pageSize);
    var off := Offset(page, pageSize);
    if page <= t {
      MulMonotone(page - 1, t - 1, pageSize);
      assert off < n;
    } else {
      MulMonotone(t, page - 1, pageSize);
      assert off >= n;
    }
  }

  /** Row `i` of the ordering is entry `i % pageSize` of page `i / pageSize + 1`. */
  lemma RowOnItsPage<T>(ordered: seq<T>, pageSize: nat, i: nat)
    requires pageSize >= 1 && i < |ordered|
    ensures i % pageSize < |Paginate(ordered, i / pageSize + 1, pageSize).data|
    ensures Paginate(ordered, i / pageSize + 1, pageSize).data[i % pageSize] == ordered[i]
  {
    var q := i / pageSize;
    assert q * pageSize + i % pageSize == i;
    assert (q + 1 - 1) * pageSize == q * pageSize;
  }

  /** Row `k` of the listing is on a page that exists. */
  lemma ListedAt<T>(ordered: seq<T>, pageSize: nat, k: nat) returns (page: nat, i: nat)
    requires pageSize >= 1 && k < |ordered|
    ensures 1 <= page <= TotalPages(|ordered|, pageSize)
    ensures i < |Paginate(ordered, page, pageSize).data| && Paginate(ordered, page, pageSize).data[i] == ordered[k]
  {
    RowOnItsPage(ordered, pageSize, k);
    page, i := k / pageSize + 1, k % pageSize;
    PageNonEmptyIff(ordered, page, pageSize);
  }

  /** A page holds only rows of the listing, so it keeps any property all of them have. */
  lemma PageKeeps<T>(ordered: seq<T>, page: nat, pageSize: nat, p: T -> bool)
    requires page >= 1 && pageSize >= 1
    requires forall i :: 0 <= i < |ordered| ==> p(ordered[i])
    ensures forall i :: 0 <= i < |Paginate(ordered, page, pageSize).data| ==>
              p(Paginate(ordered, page, pageSize).data[i])
  {
  }

  /** A page of an ordered listing is itself ordered. */
  lemma PageOrdered<T>(ordered: seq<T>, page: nat, pageSize: nat, lt: (T, T) -> bool)
    requires page >= 1 && pageSize >= 1
    requires forall i, j :: 0 <= i < j < |ordered| ==> lt(ordered[i], ordered[j])
    ensures forall i, j :: 0 <= i < j < |Paginate(ordered, page, pageSize).data| ==>
              lt(Paginate(ordered, page, pageSize).data[i], Paginate(ordered, page, pageSize).data[j])
  {
    var data := Paginate(ordered, page, pageSize).data;
    var off := Offset(page, pageSize);
    forall i, j | 0 <= i < j < |data| ensures lt(data[i], data[j]) {
      assert data[i] == ordered[off + i] && data[j] == ordered[off + j];
    }
  }

  lemma MulMonotone(a: nat, b: nat, c: nat)
    requires a <= b
    ensures a * c <= b * c
  {
  }
}
