/** The stored cookie row and its conversion into an HTTP cookie record
    (models/types.go). */
module Models {

  /** One row of the browser's cookie table, as the generated query code returns it. */
  datatype Row = Row(
    expiry: int,        // Unix seconds, possibly in the past
    host: string,
    name: string,
    value: string,
    path: string,
    isSecure: bool,
    isHttpOnly: bool)

  /** `http.SameSite`; the zero value is `SameSiteUnset`. */
  datatype SameSite = SameSiteUnset | SameSiteDefaultMode | SameSiteLaxMode | SameSiteStrictMode | SameSiteNoneMode

  /** An instant as whole seconds and nanoseconds since the Unix epoch. */
  datatype Time = Time(unixSec: int, nsec: int)

  const Epoch: Time := Time(0, 0)

  /** `time.Unix(sec, 0)`. */
  function UnixTime(sec: int): Time {
    Time(sec, 0)
  }

  /** `http.Cookie`, with the fields a converted cookie can carry. */
  datatype HttpCookie = HttpCookie(
    name: string,
    value: string,
    path: string,
    domain: string,
    expires: Time,
    rawExpires: string,
    maxAge: int,
    secure: bool,
    httpOnly: bool,
    sameSite: SameSite,
    raw: string,
    unparsed: seq<string>)

  /** The cookie built from one row; every field it does not set keeps Go's zero value. */
  function ConvertRow(c: Row): HttpCookie {
    HttpCookie(
      name := c.name,
      value := c.value,
      path := c.path,
      domain := c.host,
      expires := UnixTime(c.expiry),
      rawExpires := "",
      maxAge := 0,
      secure := c.isSecure,
      httpOnly := c.isHttpOnly,
      sameSite := SameSiteUnset,
      raw := "",
      unparsed := [])
  }

  /** Converts rows to cookies one for one, in order, by appending as it goes. */
  function Convert(res: seq<Row>): (cookies: seq<HttpCookie>)
    ensures |cookies| == |res|
    ensures forall i :: 0 <= i < |res| ==>
      && cookies[i].name == res[i].name
      && cookies[i].value == res[i].value
      && cookies[i].path == res[i].path
      && cookies[i].domain == res[i].host
      && cookies[i].secure == res[i].isSecure
      && cookies[i].httpOnly == res[i].isHttpOnly
    ensures forall i :: 0 <= i < |res| ==>
      cookies[i].expires.unixSec == res[i].expiry && cookies[i].expires.nsec == 0
    ensures forall i :: 0 <= i < |res| ==> IsStoredShape(cookies[i])
    decreases |res|
  {
    if |res| == 0 then []
    else Convert(res[..|res| - 1]) + [ConvertRow(res[|res| - 1])]
  }

  /** A cookie that only a conversion could have produced: whole-second expiry and
      every field the row does not supply at its zero value, same-site included. */
  predicate IsStoredShape(c: HttpCookie) {
    && c.expires.nsec == 0
    && c.rawExpires == ""
    && c.maxAge == 0
    && c.sameSite == SameSiteUnset
    && c.raw == ""
    && c.unparsed == []
  }

  /** Reads back the row a cookie was built from. */
  function RowOf(c: HttpCookie): Row {
    Row(c.expires.unixSec, c.domain, c.name, c.value, c.path, c.secure, c.httpOnly)
  }

  function Unconvert(cookies: seq<HttpCookie>): (rows: seq<Row>)
    ensures |rows| == |cookies|
    decreases |cookies|
  {
    if |cookies| == 0 then []
    else Unconvert(cookies[..|cookies| - 1]) + [RowOf(cookies[|cookies| - 1])]
  }

  /** One row converts to a cookie of stored shape, and a cookie of stored shape is the
      conversion of exactly one row. */
  lemma ConvertRowBijection(r: Row, c: HttpCookie)
    ensures IsStoredShape(ConvertRow(r)) && RowOf(ConvertRow(r)) == r
    ensures IsStoredShape(c) <==> ConvertRow(RowOf(c)) == c
  {
  }

  /** Conversion loses nothing: the rows can be read back from the cookies. */
  lemma {:induction false} ConvertRoundTrip(res: seq<Row>)
    ensures Unconvert(Convert(res)) == res
    decreases |res|
  {
    if |res| > 0 {
      var n := |res| - 1;
      ConvertRoundTrip(res[..n]);
      assert Convert(res)[..n] == Convert(res[..n]);
      assert res[..n] + [res[n]] == res;
    }
  }

  /** Conversion commutes with concatenation, so it neither reorders nor mixes rows. */
  lemma ConvertAppend(a: seq<Row>, b: seq<Row>)
    ensures Convert(a + b) == Convert(a) + Convert(b)
  {
  }

  /** A zero expiry means the epoch instant itself. */
  lemma ConvertZeroExpiry(r: Row)
    requires r.expiry == 0
    ensures Convert([r])[0].expires == Epoch
  {
  }
}
