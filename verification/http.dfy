/** Status codes, response bodies and the `page`/`pageSize` query check shared by the list
    endpoints of the API. */
module Http {
  import opened Wrappers
  import opened Text
  import opened Js

  const OK: nat := 200
  const CREATED: nat := 201
  const BAD_REQUEST: nat := 400
  const NOT_FOUND: nat := 404
  const CONFLICT: nat := 409
  const SERVER_ERROR: nat := 500

  /** A JSON response body: the requested data, `{ message }`, `{ error }`, or the report the
      schema validator sends for a refused body. */
  datatype Body<T> = Payload(value: T) | Message(text: string) | Error(text: string) | ValidationReport

  datatype Reply<T> = Reply(status: nat, body: Body<T>)

  /** The validator's answer to a body that fails the route's schema. */
  function Invalid<T>(): Reply<T> {
    Reply(BAD_REQUEST, ValidationReport)
  }

  /** The caught-exception answer of every handler. */
  function Failed<T>(): Reply<T> {
    Reply(SERVER_ERROR, Error("database error"))
  }

  datatype PagingCheck = Accepted(page: nat, pageSize: nat) | Rejected(message: string)

  const MAX_PAGE_SIZE: nat := 100

  /** `parseInt(query('page') || '1')` and `parseInt(query('pageSize') || '10')`, refused with 400
      when the page is `NaN` or below 1, or the page size is `NaN` or outside 1..100. The page is
      checked first. */
  function CheckPaging(page: Option<string>, pageSize: Option<string>): (r: PagingCheck)
    ensures r.Accepted? <==>
              && ParseInt(Or(page, "1")).Some? && ParseInt(Or(page, "1")).value >= 1
              && ParseInt(Or(pageSize, "10")).Some?
              && 1 <= ParseInt(Or(pageSize, "10")).value <= MAX_PAGE_SIZE
    ensures r.Accepted? ==>
              r.page == ParseInt(Or(page, "1")).value && r.pageSize == ParseInt(Or(pageSize, "10")).value
    ensures r.Rejected? ==>
              r.message == (if ParseInt(Or(page, "1")).None? || ParseInt(Or(page, "1")).value < 1
                            then "Invalid page parameter" else "Invalid pageSize parameter")
  {
    var p := ParseInt(Or(page, "1"));
    var s := ParseInt(Or(pageSize, "10"));
    if p.None? || p.value < 1 then Rejected("Invalid page parameter")
    else if s.None? || s.value < 1 || s.value > MAX_PAGE_SIZE then Rejected("Invalid pageSize parameter")
    else Accepted(p.value, s.value)
  }

  /** Without query parameters a list call asks for page 1 of 10 rows; an empty parameter is
      treated as a missing one. */
  lemma CheckPagingDefaults()
    ensures CheckPaging(None, None) == Accepted(1, 10)
    ensures CheckPaging(Some(""), Some("")) == Accepted(1, 10)
  {
    assert Or(None, "1") == "1" && Or(None, "10") == "10";
    assert Or(Some(""), "1") == "1" && Or(Some(""), "10") == "10";
    assert AllDigits("1") && DecimalValue("1") == 1;
    assert "10"[..1] == "1";
    assert AllDigits("10") && DecimalValue("10") == 10;
  }

  /** Plain decimal parameters are accepted exactly when they are in range. */
  lemma CheckPagingDecimal(page: nat, pageSize: nat)
    ensures CheckPaging(Some(NatToString(page)), Some(NatToString(pageSize))).Accepted?
            <==> page >= 1 && 1 <= pageSize <= MAX_PAGE_SIZE
    ensures page >= 1 && 1 <= pageSize <= MAX_PAGE_SIZE ==>
              CheckPaging(Some(NatToString(page)), Some(NatToString(pageSize))) == Accepted(page, pageSize)
  {
    var ps, ss := NatToString(page), NatToString(pageSize);
    assert Or(Some(ps), "1") == ps && Or(Some(ss), "10") == ss;
    ParseIntNatToString(page);
    ParseIntNatToString(pageSize);
  }

  /** A negative page number is refused. */
  lemma CheckPagingNegative(page: nat, pageSize: Option<string>)
    ensures CheckPaging(Some("-" + NatToString(page)), pageSize) == Rejected("Invalid page parameter")
  {
    var ps := "-" + NatToString(page);
    assert Or(Some(ps), "1") == ps;
    ParseIntNegative(page);
  }
}
