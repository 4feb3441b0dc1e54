/**
  The request URL of one page, as `rb_mse_set_curl_url` formats it:
  `https://<addr>/api/contextaware/v1/location/clients?currentlyTracked=<true|false>&page=<n>`.
 */
module RequestUrl {
  import opened Wrappers

  /** `mse_api_call_url`. */
  const ApiCallPath: string := "api/contextaware/v1/location/clients"

  /** The libcurl error code `rb_mse_set_curl_url` reports itself when no
      service address is stored (`CURLE_BAD_FUNCTION_ARGUMENT`, 43). */
  datatype CurlCode = BadFunctionArgument

  // ---------------------------------------------------------------------
  // `%d` of a page number
  // ---------------------------------------------------------------------

  predicate IsDigit(c: char) {
    '0' <= c <= '9'
  }

  function DigitChar(d: nat): (c: char)
    requires d < 10
    ensures IsDigit(c) && c as nat - '0' as nat == d
  {
    ('0' as nat + d) as char
  }

  /** `%d` of a non-negative number: decimal digits, no leading zero. */
  function Decimal(n: nat): (d: string)
    ensures |d| > 0
    ensures forall i :: 0 <= i < |d| ==> IsDigit(d[i])
    ensures |d| > 1 ==> d[0] != '0'
  {
    if n < 10 then [DigitChar(n)] else Decimal(n / 10) + [DigitChar(n % 10)]
  }

  /** The value of a decimal digit (0 for any other character). */
  function DigitOf(c: char): nat {
    if IsDigit(c) then c as nat - '0' as nat else 0
  }

  /** The number a string of decimal digits denotes. */
  function DecimalValue(d: string): nat
  {
    if |d| == 0 then 0 else 10 * DecimalValue(d[..|d| - 1]) + DigitOf(d[|d| - 1])
  }

  lemma {:induction false} DecimalRoundTrip(n: nat)
    ensures DecimalValue(Decimal(n)) == n
  {
    if n >= 10 {
      DecimalRoundTrip(n / 10);
      var d := Decimal(n);
      assert d[..|d| - 1] == Decimal(n / 10);
    }
  }

  // ---------------------------------------------------------------------
  // The URL
  // ---------------------------------------------------------------------

  function TrackedText(tracked: bool): string {
    if tracked then "true" else "false"
  }

  /** Everything up to and including `currentlyTracked=`. */
  function UrlPrefix(addr: string): string {
    "https://" + addr + "/" + ApiCallPath + "?currentlyTracked="
  }

  function Query(tracked: bool, page: nat): string {
    TrackedText(tracked) + "&page=" + Decimal(page)
  }

  /** `rb_mse_set_curl_url`: the URL of page `page` of one partition, or
      `CURLE_BAD_FUNCTION_ARGUMENT` when no service address was stored. */
  function RequestUrl(addr: Option<string>, tracked: bool, page: nat): (r: Result<string, CurlCode>)
    ensures r.Failure? <==> addr.None?
    ensures r.Failure? ==> r.error == BadFunctionArgument
  {
    match addr
    case None => Failure(BadFunctionArgument)
    case Some(a) => Success(UrlPrefix(a) + Query(tracked, page))
  }

  // ---------------------------------------------------------------------
  // Reading a URL back
  // ---------------------------------------------------------------------

  /** The page number of a `&page=` value: all digits, at least one. */
  function ParsePage(s: string): Option<nat> {
    if |s| > 0 && forall i :: 0 <= i < |s| ==> IsDigit(s[i]) then Some(DecimalValue(s)) else None
  }

  /** The partition flag and page number a query string holds. */
  function ParseQuery(q: string): Option<(bool, nat)> {
    var t := "true&page=";
    var f := "false&page=";
    if |q| >= |t| && q[..|t|] == t then
      match ParsePage(q[|t|..])
      case Some(n) => Some((true, n))
      case None => None
    else if |q| >= |f| && q[..|f|] == f then
      match ParsePage(q[|f|..])
      case Some(n) => Some((false, n))
      case None => None
    else None
  }

  /** The partition flag and page number a request URL for `addr` asks for. */
  function ParseRequest(addr: string, url: string): Option<(bool, nat)> {
    var p := UrlPrefix(addr);
    if |url| < |p| || url[..|p|] != p then None else ParseQuery(url[|p|..])
  }

  lemma ParsePageRoundTrip(page: nat)
    ensures ParsePage(Decimal(page)) == Some(page)
  {
    DecimalRoundTrip(page);
  }

  lemma ParseQueryRoundTrip(tracked: bool, page: nat)
    ensures ParseQuery(Query(tracked, page)) == Some((tracked, page))
  {
    var q := Query(tracked, page);
    ParsePageRoundTrip(page);
    var key := TrackedText(tracked) + "&page=";
    assert q[..|key|] == key && q[|key|..] == Decimal(page);
    if !tracked {
      assert q[..|"true&page="|] != "true&page=" by {
        assert q[..|"true&page="|][0] == 'f';
      }
    }
  }

  /** The URL of a page names exactly that partition and that page. */
  lemma RequestUrlRoundTrip(addr: string, tracked: bool, page: nat)
    ensures RequestUrl(Some(addr), tracked, page).Success?
    ensures ParseRequest(addr, RequestUrl(Some(addr), tracked, page).value) == Some((tracked, page))
  {
    var p := UrlPrefix(addr);
    var q := Query(tracked, page);
    assert (p + q)[..|p|] == p && (p + q)[|p|..] == q;
    ParseQueryRoundTrip(tracked, page);
  }

  /** Distinct pages, or the two partitions, never share a URL. */
  lemma RequestUrlInjective(addr: string, t1: bool, p1: nat, t2: bool, p2: nat)
    requires RequestUrl(Some(addr), t1, p1) == RequestUrl(Some(addr), t2, p2)
    ensures t1 == t2 && p1 == p2
  {
    RequestUrlRoundTrip(addr, t1, p1);
    RequestUrlRoundTrip(addr, t2, p2);
  }
}
