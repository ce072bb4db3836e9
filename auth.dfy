/** The authentication gate that runs in front of every route except
    registration and login. */
module Auth {
  import opened Js
  import opened Db

  /** `authorization?.split(' ')[1]`, kept only when it is truthy: the second
      space-separated field of the header, unless the header is absent or
      that field is missing or empty. */
  function BearerToken(authorization: Option<string>): (token: Option<string>)
    ensures authorization.None? ==> token.None?
    ensures token.Some? ==> token.value != "" && ' ' !in token.value
  {
    match authorization
    case None => None
    case Some(h) =>
      var fields := Split(h, ' ');
      if |fields| >= 2 && fields[1] != "" then Some(fields[1]) else None
  }

  /** Every header made of a scheme, a space, a non-empty token and then
      nothing or a space and anything at all yields that token. */
  lemma TokenAfterScheme(scheme: string, token: string, rest: seq<string>)
    requires ' ' !in scheme && ' ' !in token && token != ""
    requires forall i :: 0 <= i < |rest| ==> ' ' !in rest[i]
    ensures BearerToken(Some(Join([scheme, token] + rest, ' '))) == Some(token)
  {
    var fields := [scheme, token] + rest;
    forall i | 0 <= i < |fields| ensures ' ' !in fields[i] {
      if i >= 2 { assert fields[i] == rest[i - 2]; }
    }
    SplitJoin(fields, ' ');
  }

  /** Conversely, a header yields a token only when it has that shape. */
  lemma TokenHasScheme(header: string) returns (scheme: string, rest: seq<string>)
    requires BearerToken(Some(header)).Some?
    ensures ' ' !in scheme && forall i :: 0 <= i < |rest| ==> ' ' !in rest[i]
    ensures header == Join([scheme, BearerToken(Some(header)).value] + rest, ' ')
  {
    var fields := Split(header, ' ');
    JoinSplit(header, ' ');
    scheme, rest := fields[0], fields[2..];
    assert fields == [scheme, fields[1]] + rest;
  }

  /** A header with no space in it (a bare token, say) carries no token. */
  lemma NoSpaceNoToken(header: string)
    requires ' ' !in header
    ensures BearerToken(Some(header)) == None
  {
    SplitJoin([header], ' ');
  }

  /** Two spaces after the scheme leave the second field empty, which the
      gate treats as no token at all. */
  lemma DoubleSpaceNoToken(scheme: string, rest: string)
    requires ' ' !in scheme
    ensures BearerToken(Some(scheme + "  " + rest)) == None
  {
    var tail := "  " + rest;
    assert scheme + "  " + rest == scheme + tail;
    SplitPrefix(scheme, tail, ' ');
    assert tail[1..] == " " + rest;
    assert (" " + rest)[1..] == rest;
    assert Split(tail, ' ')[1..] == Split(" " + rest, ' ');
  }

  /** The part of an incoming request the gate reads and writes. */
  class Request {
    const authorization: Option<string>   // req.headers.authorization
    var user: Option<Object>              // req.user, the decoded token payload

    constructor (authorization: Option<string>)
      ensures this.authorization == authorization && user == None
    {
      this.authorization := authorization;
      user := None;
    }

    /** `authenticate`: answers 401 "Missing token" when there is no token and
        401 "Invalid token" when `verify` rejects it; otherwise attaches the
        decoded payload as `req.user` and returns `None`, letting the route
        handler run. `verify` stands for `jwt.verify` with the server's key. */
    method Authenticate(verify: string -> Option<Object>) returns (rejection: Option<Outcome>)
      modifies this
      ensures BearerToken(authorization).None? ==>
        rejection == Some(Reply(401, Error("Missing token"))) && user == old(user)
      ensures BearerToken(authorization).Some? && verify(BearerToken(authorization).value).None? ==>
        rejection == Some(Reply(401, Error("Invalid token"))) && user == old(user)
      ensures BearerToken(authorization).Some? && verify(BearerToken(authorization).value).Some? ==>
        rejection == None && user == verify(BearerToken(authorization).value)
    {
      var token := BearerToken(authorization);
      if token.None? {
        return Some(Reply(401, Error("Missing token")));
      }
      var decoded := verify(token.value);
      if decoded.None? {
        return Some(Reply(401, Error("Invalid token")));
      }
      user := decoded;
      rejection := None;
    }
  }
}
