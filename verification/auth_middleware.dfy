/** The bearer-token guard in front of the favorites routes. It follows the header shape of
    section 2.1 of RFC 6750 (`Authorization: Bearer <token>`), with the scheme matched
    case-sensitively. The token verifier is a parameter: it yields the decoded claims or
    nothing (a token that is malformed, badly signed or expired). */
module AuthMiddleware {
  import opened Wrappers
  import opened JsText

  const Scheme := "Bearer "
  const UnauthorizedMessage := "Unauthorized"
  const BadTokenMessage := "Token invalid or expired"

  /** The decoded token payload; `userId` is whatever the token carried under that name. */
  datatype Claims = Claims(userId: Option<string>)

  /** Either a 401 reply is written and the route is not reached, or the route is reached
      once with `req.user.id` set. */
  datatype Outcome = Reject(status: int, message: string) | Next(userId: Option<string>)

  /** `header.split(" ")[1]` for a header that starts with the scheme: the text after the
      first space up to the next space (empty when two spaces follow each other). */
  function BearerToken(header: string): (token: string)
    requires StartsWith(header, Scheme)
    ensures ' ' !in token
    ensures Scheme + token <= header
    ensures |Scheme + token| == |header| || header[|Scheme + token|] == ' '
  {
    assert header[..7] == Scheme;
    var token := BeforeFirst(header[7..], ' ');
    assert header == Scheme + header[7..];
    token
  }

  /** `protect`. */
  function Protect(authorization: Option<string>, verify: string -> Option<Claims>): (r: Outcome)
    ensures !Truthy(authorization) || !StartsWith(authorization.value, Scheme) ==> r == Reject(401, UnauthorizedMessage)
    ensures r.Next? <==> Truthy(authorization) && StartsWith(authorization.value, Scheme)
                         && verify(BearerToken(authorization.value)).Some?
    ensures r.Next? ==> r.userId == verify(BearerToken(authorization.value)).value.userId
    ensures r.Reject? ==> r.status == 401
  {
    if !Truthy(authorization) || !StartsWith(authorization.value, Scheme) then Reject(401, UnauthorizedMessage)
    else
      match verify(BearerToken(authorization.value))
      case None => Reject(401, BadTokenMessage)
      case Some(claims) => Next(claims.userId)
  }

  // ---------------------------------------------------------------------------
  // Properties

  /** A token without spaces, sent as RFC 6750 prescribes, reaches the verifier unchanged. */
  lemma {:induction false} TokenRoundTrip(token: string)
    requires ' ' !in token
    ensures StartsWith(Scheme + token, Scheme)
    ensures BearerToken(Scheme + token) == token
  {
    var h := Scheme + token;
    var t := BearerToken(h);
    assert h[7..] == token;
    assert Scheme + t <= h;
    assert t <= token;
    if |t| < |token| {
      assert h[|Scheme + t|] == token[|t|];
    }
  }

  /** A header whose token the verifier refuses gets "Token invalid or expired". */
  lemma RefusedToken(header: string, verify: string -> Option<Claims>)
    requires StartsWith(header, Scheme) && verify(BearerToken(header)).None?
    ensures Protect(Some(header), verify) == Reject(401, BadTokenMessage)
  {
  }

  /** The scheme is case-sensitive: a lower-case `bearer` never reaches the verifier, whatever it would say. */
  lemma LowerCaseSchemeRejected(token: string, verify: string -> Option<Claims>)
    ensures Protect(Some("bearer " + token), verify) == Reject(401, UnauthorizedMessage)
  {
    assert ("bearer " + token)[0] == 'b';
  }

  /** A bare scheme with nothing after it is accepted as a header and hands the empty token to the verifier. */
  lemma EmptyTokenReachesVerifier(verify: string -> Option<Claims>)
    ensures StartsWith(Scheme, Scheme) && BearerToken(Scheme) == ""
    ensures Protect(Some(Scheme), verify) == (if verify("").Some? then Next(verify("").value.userId) else Reject(401, BadTokenMessage))
  {
    assert Scheme[7..] == "";
  }
}
