/**
 * The bearer-token guard in front of every protected route. Token
 * verification and the user lookup are abstract: `verify` yields the
 * decoded claims or fails, `subject` reads the user id out of the claims,
 * and `lookup` finds the user, reports it absent, or fails.
 */
module AuthMiddleware {
  import opened Options
  import opened Strings

  const NoToken := "Access denied. No token provided."
  const UserMissing := "User not found."
  const BadToken := "Invalid or expired token."
  const Bearer := "Bearer "

  /** Either a refusal, or the claims the request proceeds with. */
  datatype Decision<C> = Deny(status: int, message: string) | Next(claims: C)

  /** The outcome of `User.findById`. */
  datatype Lookup = Found | Absent | Failed

  /** The header splits into "Bearer" and the fields of what follows the first space. */
  lemma BearerFields(header: string)
    requires StartsWith(header, Bearer)
    ensures Split(header, ' ') == ["Bearer"] + Split(header[7..], ' ')
  {
    assert header == "Bearer" + [' '] + header[7..];
    assert ' ' !in "Bearer";
    CharIndexAfter("Bearer", ' ', header[7..]);
    assert CharIndex(header, ' ') == 6;
    assert header[..6] == "Bearer";
  }

  /** `authHeader.split(" ")[1]`: what follows "Bearer " up to the next space, possibly nothing. */
  function Token(header: string): (token: string)
    requires StartsWith(header, Bearer)
    ensures var rest := header[7..];
      |token| <= |rest| && token == rest[..|token|] && ' ' !in token
      && (|token| == |rest| || rest[|token|] == ' ')
  {
    BearerFields(header);
    Split(header[7..], ' ')[0]
  }

  /** With two spaces after "Bearer" the token is empty. */
  lemma DoubleSpaceEmptyToken(rest: string)
    ensures Token(Bearer + " " + rest) == ""
  {
    var h := Bearer + " " + rest;
    assert StartsWith(h, Bearer) by { assert h[..7] == Bearer; }
    assert h[7..][0] == ' ';
  }

  /** A well-formed header carries the token verbatim. */
  lemma TokenOfHeader(token: string)
    requires ' ' !in token
    ensures Token(Bearer + token) == token
  {
    var h := Bearer + token;
    assert StartsWith(h, Bearer) by { assert h[..7] == Bearer; }
    assert h[7..] == token;
  }

  /** `verifyToken`: the response it sends, or the claims it calls `next` with. */
  function Decide<C>(header: Option<string>, verify: string -> Option<C>, subject: C -> nat, lookup: nat -> Lookup)
    : (d: Decision<C>)
    ensures header.None? || !StartsWith(header.value, Bearer) ==> d == Deny(401, NoToken)
    ensures d.Next? <==>
      && header.Some? && StartsWith(header.value, Bearer)
      && verify(Token(header.value)).Some?
      && lookup(subject(verify(Token(header.value)).value)) == Found
    ensures d.Next? ==> d.claims == verify(Token(header.value)).value
    ensures d == Deny(401, UserMissing) <==>
      && header.Some? && StartsWith(header.value, Bearer)
      && verify(Token(header.value)).Some?
      && lookup(subject(verify(Token(header.value)).value)) == Absent
    ensures d.Deny? && d.status == 403 ==> d.message == BadToken
    ensures d.Deny? ==> d.status in {401, 403}
  {
    if header.None? || !StartsWith(header.value, Bearer) then Deny(401, NoToken)
    else
      var token := Token(header.value);
      match verify(token)
      case None => Deny(403, BadToken)
      case Some(claims) =>
        match lookup(subject(claims))
        case Failed => Deny(403, BadToken)
        case Absent => Deny(401, UserMissing)
        case Found => Next(claims)
  }

  /** The parts of a request and its response that the guard touches. */
  class Exchange<C> {
    var user: Option<C>
    var nextCalls: nat
    var sent: Option<(int, string)>

    constructor ()
      ensures user == None && nextCalls == 0 && sent == None
    {
      user := None;
      nextCalls := 0;
      sent := None;
    }

    /** Runs the guard: on success `req.user` is the claims and `next` is called once; otherwise only the refusal is sent. */
    method VerifyToken(header: Option<string>, verify: string -> Option<C>, subject: C -> nat, lookup: nat -> Lookup)
      modifies this
      ensures var d := Decide(header, verify, subject, lookup);
        && (d.Next? ==> user == Some(d.claims) && nextCalls == old(nextCalls) + 1 && sent == old(sent))
        && (d.Deny? ==> user == old(user) && nextCalls == old(nextCalls) && sent == Some((d.status, d.message)))
    {
      var d := Decide(header, verify, subject, lookup);
      if d.Next? {
        user := Some(d.claims);
        nextCalls := nextCalls + 1;
      } else {
        sent := Some((d.status, d.message));
      }
    }
  }
}
