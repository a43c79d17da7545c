/**
 * The page arithmetic shared by the listings: `page` and `limit` from the query string
 * (defaults 1 and 10), `skip = (page - 1) * limit`, `totalPages = Math.ceil(total / limit)`.
 */
module Paging {
  import opened Wrappers
  import opened Text

  /** A parsed page request: the numbers echoed back, and the rows skipped. */
  datatype Window = Window(page: int, limit: int, skip: nat)

  const ServerError := "Server error"

  /** `(page - 1) * limit`. */
  function Skip(page: int, limit: int): int {
    (page - 1) * limit
  }

  /**
   * `parseInt` of the two query values, 1 and 10 when absent. A value that does not parse
   * fails in the store (status 500), and so does a negative skip; any limit is passed on
   * as the `take` of the query, a negative one included.
   */
  function ParseWindow(page: Option<string>, limit: Option<string>): (r: Reply<Window>)
    ensures page.None? && limit.None? ==> r == Ok(Window(1, 10, 0))
    ensures r.Ok? <==> var p := if page.None? then Some(1) else ParseInt(page.value);
                      var l := if limit.None? then Some(10) else ParseInt(limit.value);
                      p.Some? && l.Some? && Skip(p.value, l.value) >= 0
    ensures r.Err? ==> r == Err(500, ServerError)
    ensures r.Ok? ==> r.value.skip == Skip(r.value.page, r.value.limit)
    ensures r.Ok? ==> page.None? || ParseInt(page.value) == Some(r.value.page)
    ensures r.Ok? ==> limit.None? || ParseInt(limit.value) == Some(r.value.limit)
  {
    var p := if page.None? then Some(1) else ParseInt(page.value);
    var l := if limit.None? then Some(10) else ParseInt(limit.value);
    if p.None? || l.None? || Skip(p.value, l.value) < 0 then Err(500, ServerError)
    else Ok(Window(p.value, l.value, Skip(p.value, l.value)))
  }

  /** Page 1 skips nothing, so any limit that reads is accepted as it is, negative or zero. */
  lemma FirstPageTakesAnyLimit(pg: string, lim: string)
    requires ParseInt(pg) == Some(1) && ParseInt(lim).Some?
    ensures ParseWindow(Some(pg), Some(lim)) == Ok(Window(1, ParseInt(lim).value, 0))
  {
    var l := ParseInt(lim).value;
    assert Skip(1, l) == 0 * l == 0;
  }

  /** An omitted page is read exactly as the text "1": the default of the listing is its first page. */
  lemma OmittedPageIsFirstPage(limit: Option<string>)
    ensures ParseWindow(None, limit) == ParseWindow(Some("1"), limit)
  {
    NumberOfNatToString(1);
    assert NatToString(1) == "1";
  }

  lemma NonNegativeProduct(a: int, b: int)
    requires a >= 0 && b >= 0
    ensures a * b >= 0
  {
  }

  /**
   * `Math.ceil(total / limit)`; `None` where the division yields NaN or Infinity
   * (a limit of 0), which the JSON reply carries as `null`.
   */
  function TotalPages(total: nat, limit: int): (r: Option<int>)
    ensures r.None? <==> limit == 0
    ensures limit > 0 ==> r.value >= 0
    ensures limit < 0 ==> r.value <= 0
  {
    if limit == 0 then None
    else if limit > 0 then Some((total + limit - 1) / limit)
    else Some(-(total / -limit))
  }

  /** With a negative limit, the quotient is negative and `Math.ceil` rounds it towards zero. */
  lemma TotalPagesOfNegativeLimit(total: nat, limit: int)
    requires limit < 0
    ensures TotalPages(total, limit).value * limit <= total
    ensures (TotalPages(total, limit).value - 1) * limit > total
  {
    var q := total / -limit;
    assert q * -limit + total % -limit == total;
    assert (-q) * limit == q * -limit;
    assert (-q - 1) * limit == q * -limit - limit;
  }

  /** `totalPages` is the least number of pages of `limit` rows that hold `total` rows. */
  lemma TotalPagesIsCeiling(total: nat, limit: nat)
    requires limit > 0
    ensures TotalPages(total, limit).value * limit >= total
    ensures TotalPages(total, limit).value == 0 || (TotalPages(total, limit).value - 1) * limit < total
  {
    var q := (total + limit - 1) / limit;
    var rem := (total + limit - 1) % limit;
    assert q * limit + rem == total + limit - 1;
    assert (q - 1) * limit == q * limit - limit;
  }

  function Abs(x: int): nat {
    if x < 0 then -x else x
  }

  /**
   * Where a page starts in `rows`. A non-negative `take` counts from the front after
   * `skip` rows; a negative one counts backwards from `skip` rows before the end.
   */
  function PageStart(n: nat, skip: nat, limit: int): nat {
    if limit >= 0 then skip
    else if skip >= n then 0
    else if n - skip >= -limit then n - skip + limit
    else 0
  }

  /**
   * The rows of one page, as the store cuts them: `skip` rows dropped and at most `limit`
   * kept; with a negative limit, both counted from the end, the rows kept in their order.
   */
  function PageOf<T>(rows: seq<T>, skip: nat, limit: int): (r: seq<T>)
    ensures |r| <= Abs(limit)
    ensures forall k :: 0 <= k < |r| ==>
      PageStart(|rows|, skip, limit) + k < |rows| && r[k] == rows[PageStart(|rows|, skip, limit) + k]
    ensures limit >= 0 && skip < |rows| ==> |r| == if skip + limit <= |rows| then limit else |rows| - skip
    ensures limit < 0 && skip < |rows| ==>
      |r| == (if |rows| - skip >= -limit then -limit else |rows| - skip)
      && PageStart(|rows|, skip, limit) + |r| == |rows| - skip
    ensures skip >= |rows| ==> r == []
  {
    if skip >= |rows| then []
    else if limit >= 0 then
      var r := rows[skip..if skip + limit <= |rows| then skip + limit else |rows|];
      assert PageStart(|rows|, skip, limit) == skip;
      assert forall k :: 0 <= k < |r| ==> r[k] == rows[skip + k];
      r
    else rows[PageStart(|rows|, skip, limit)..|rows| - skip]
  }

  /** A page is drawn from the rows and keeps their order by any key. */
  lemma PageKeepsOrder<T>(rows: seq<T>, skip: nat, limit: int, key: T -> int)
    ensures forall k :: 0 <= k < |PageOf(rows, skip, limit)| ==> PageOf(rows, skip, limit)[k] in rows
    ensures (forall i, j :: 0 <= i < j < |rows| ==> key(rows[i]) <= key(rows[j])) ==>
      forall i, j :: 0 <= i < j < |PageOf(rows, skip, limit)| ==>
        key(PageOf(rows, skip, limit)[i]) <= key(PageOf(rows, skip, limit)[j])
  {
    var p := PageOf(rows, skip, limit);
    var s := PageStart(|rows|, skip, limit);
    if forall i, j :: 0 <= i < j < |rows| ==> key(rows[i]) <= key(rows[j]) {
      forall i, j | 0 <= i < j < |p|
        ensures key(p[i]) <= key(p[j])
      {
        assert p[i] == rows[s + i] && p[j] == rows[s + j];
      }
    }
  }

  /**
   * Pages 1 to `totalPages` cover every row: row `i` is at place `i % limit` of page
   * `i / limit + 1`, and that page is not past the last.
   */
  lemma PagesCoverRows<T>(rows: seq<T>, limit: nat, i: nat)
    requires limit > 0 && i < |rows|
    ensures 1 <= i / limit + 1 <= TotalPages(|rows|, limit).value
    ensures Skip(i / limit + 1, limit) >= 0
    ensures i % limit < |PageOf(rows, Skip(i / limit + 1, limit), limit)|
    ensures PageOf(rows, Skip(i / limit + 1, limit), limit)[i % limit] == rows[i]
  {
    var p := i / limit;
    assert p * limit + i % limit == i;
    assert Skip(p + 1, limit) == p * limit;
    NonNegativeProduct(p, limit);
    TotalPagesIsCeiling(|rows|, limit);
    var t := TotalPages(|rows|, limit).value;
    if t < p + 1 {
      assert t * limit <= p * limit by { MonotoneProduct(t, p, limit); }
    }
  }

  lemma MonotoneProduct(a: nat, b: nat, c: nat)
    requires a <= b
    ensures a * c <= b * c
  {
  }
}
