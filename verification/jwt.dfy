/** Bearer tokens (`middleware/jwt.go`).  Signing and verifying a token is
    the JWT library's business: a token is an opaque string, and token
    validation is a function the caller supplies. */
module Jwt {
  import opened Wrappers
  import opened Text

  /** The application claims carried by a token. */
  datatype Claims = Claims(userId: nat, email: string, tenantId: nat, role: string)

  /** What the JWT library reports for a token string: its claims when the
      signature and time window check out, `None` otherwise. */
  type Validator = string -> Option<Claims>

  const HeaderRequired := "authorization header required"
  const BadHeaderFormat := "invalid authorization header format"

  /** `ExtractToken`: the header must be exactly `<scheme> <token>` with one
      single space and a scheme equal to "bearer" ignoring case. */
  function ExtractToken(header: string): (r: Result<string>)
    ensures header == "" ==> r == Err(HeaderRequired)
    ensures r.Ok? <==> header != "" && |Split(header, ' ')| == 2 && Lower(Split(header, ' ')[0]) == "bearer"
    ensures r.Ok? ==> ' ' !in r.value
    ensures r.Err? && header != "" ==> r.msg == BadHeaderFormat
  {
    if header == "" then Err(HeaderRequired)
    else
      var parts := Split(header, ' ');
      if |parts| != 2 || Lower(parts[0]) != "bearer" then Err(BadHeaderFormat)
      else Ok(parts[1])
  }

  /** Round trip: a space-free token behind any spelling of "Bearer" is
      extracted unchanged; this includes the empty token of "Bearer ". */
  lemma ExtractBearer(scheme: string, token: string)
    requires Lower(scheme) == "bearer" && ' ' !in scheme
    requires ' ' !in token
    ensures ExtractToken(scheme + " " + token) == Ok(token)
  {
    SplitJoin([scheme, token], ' ');
    assert Join([scheme, token], ' ') == scheme + " " + token by {
      assert [scheme, token][1..] == [token];
    }
  }

  /** Conversely, every header that is accepted is `<scheme> <token>` for a
      scheme spelling "bearer" and the extracted token. */
  lemma ExtractedHeaderShape(header: string)
    requires ExtractToken(header).Ok?
    ensures exists scheme :: Lower(scheme) == "bearer" && header == scheme + " " + ExtractToken(header).value
  {
    var parts := Split(header, ' ');
    JoinSplit(header, ' ');
    assert parts[1..] == [parts[1]];
    assert header == parts[0] + " " + parts[1];
  }

  /** "Bearer " with nothing after it yields the empty token, not an error. */
  lemma BearerWithoutToken()
    ensures ExtractToken("Bearer ") == Ok("")
  {
    assert Lower("Bearer") == "bearer";
    ExtractBearer("Bearer", "");
    assert "Bearer" + " " + "" == "Bearer ";
  }
}
