/** CustomJWTAuthentication.authenticate (store/authentication.py): reads
    the Authorization header "<prefix> <token>", checks the prefix, decodes
    the token and looks the user up. Decoding belongs to the token library
    and is a parameter here. */
module Authentication {
  import opened Common
  import opened Models
  import opened Exceptions

  /** What decoding a token gives: the library refuses it, or it yields its
      claims, of which only user_id (possibly absent) is read. */
  datatype Decoded = Refused | Claims(userId: Option<UserId>)

  /** The authenticator's outcome: no credentials (anonymous), a user with
      the token, an AuthenticationFailed with its detail, or an exception
      the authenticator does not catch. */
  datatype AuthOutcome = Anonymous | Authenticated(user: UserId, token: string) | Failed(detail: string) | Escaped

  const InvalidToken: string := "Invalid token."
  const InvalidHeader: string := "Invalid token header. No credentials provided."

  /** str.split(' '): the parts between single spaces, empty ones kept. */
  function Split(s: string): (r: seq<string>)
    ensures |r| >= 1
    ensures forall i :: 0 <= i < |r| ==> ' ' !in r[i]
  {
    if s == [] then [""]
    else if s[0] == ' ' then [""] + Split(s[1..])
    else
      var rest := Split(s[1..]);
      [[s[0]] + rest[0]] + rest[1..]
  }

  /** The inverse of Split: the parts joined by single spaces. */
  function Join(parts: seq<string>): string
    requires |parts| >= 1
  {
    if |parts| == 1 then parts[0] else parts[0] + " " + Join(parts[1..])
  }

  /** Splitting loses nothing: joining the parts gives the header back. */
  lemma {:induction false} SplitJoin(s: string)
    ensures Join(Split(s)) == s
  {
    if s == [] {
    } else if s[0] == ' ' {
      SplitJoin(s[1..]);
      assert Split(s)[1..] == Split(s[1..]);
      assert s == [' '] + s[1..];
    } else {
      SplitJoin(s[1..]);
      var rest := Split(s[1..]);
      if |rest| == 1 {
      } else {
        assert Split(s)[1..] == rest[1..];
        assert Join(rest) == rest[0] + " " + Join(rest[1..]);
      }
      assert s == [s[0]] + s[1..];
    }
  }

  /** A space-free word followed by one space splits back into the word and
      the remainder's parts. */
  lemma {:induction false} SplitAfterWord(word: string, rest: string)
    requires ' ' !in word
    ensures Split(word + " " + rest) == [word] + Split(rest)
  {
    if word == [] {
      assert word + " " + rest == [' '] + rest;
      assert (word + " " + rest)[1..] == rest;
    } else {
      SplitAfterWord(word[1..], rest);
      var s := word + " " + rest;
      assert s[0] == word[0] && s[1..] == word[1..] + " " + rest;
      assert [word[0]] + word[1..] == word;
    }
  }

  /** ASCII lower-casing, as str.lower() does on these letters. */
  function LowerChar(c: char): (d: char)
    ensures 'A' <= c <= 'Z' ==> d as int == c as int + 32
    ensures !('A' <= c <= 'Z') ==> d == c
  {
    if 'A' <= c <= 'Z' then (c as int + 32) as char else c
  }

  function Lower(s: string): (r: string)
    ensures |r| == |s|
    ensures forall i :: 0 <= i < |s| ==> r[i] == LowerChar(s[i])
  {
    if s == [] then [] else [LowerChar(s[0])] + Lower(s[1..])
  }

  /** The prefix is compared case-insensitively with "bearer". */
  predicate IsBearer(prefix: string)
  {
    Lower(prefix) == "bearer"
  }

  /** authenticate(request). `decode` stands for AccessToken(token) and the
      `get('user_id')` that follows. A token the library refuses (invalid,
      expired) raises its TokenError, which is not a ValueError: the except
      clause lets it through, so it escapes as an unexpected error rather
      than an AuthenticationFailed. */
  function Authenticate(header: Option<string>, decode: string -> Decoded, users: map<UserId, User>): (r: AuthOutcome)
    ensures header.None? || header == Some("") <==> r.Anonymous?
    ensures r.Authenticated? ==>
              && r.user in users
              && header.Some? && Split(header.value) == [Split(header.value)[0], r.token]
              && IsBearer(Split(header.value)[0])
              && decode(r.token) == Claims(Some(r.user))
    ensures header.Some? && |Split(header.value)| != 2 && header.value != "" ==> r == Failed(InvalidToken)
    ensures header.Some? && |Split(header.value)| == 2 && !IsBearer(Split(header.value)[0]) ==> r == Failed(InvalidHeader)
    ensures header.Some? && |Split(header.value)| == 2 && IsBearer(Split(header.value)[0]) &&
            decode(Split(header.value)[1]).Claims? &&
            (decode(Split(header.value)[1]).userId.None? || decode(Split(header.value)[1]).userId.value !in users) ==>
              r == Failed(InvalidToken)
    ensures r.Escaped? ==> header.Some? && |Split(header.value)| == 2 && decode(Split(header.value)[1]).Refused?
    ensures header.Some? && |Split(header.value)| == 2 && IsBearer(Split(header.value)[0]) &&
            decode(Split(header.value)[1]).Refused? ==>
              r == Escaped
    ensures r.Failed? ==> r.detail == InvalidToken || r.detail == InvalidHeader
  {
    match header
    case None => Anonymous
    case Some(h) =>
      if h == "" then Anonymous
      else
        var parts := Split(h);
        if |parts| != 2 then Failed(InvalidToken)
        else if !IsBearer(parts[0]) then Failed(InvalidHeader)
        else
          match decode(parts[1])
          case Refused => Escaped
          case Claims(id) =>
            if id.None? || id.value !in users then Failed(InvalidToken)
            else Authenticated(id.value, parts[1])
  }

  /** The accepting direction: "<prefix> <token>" with a bearer prefix, a
      space-free token and a token that decodes to an existing user
      authenticates that user with exactly that token. */
  lemma BearerHeaderAuthenticates(prefix: string, token: string, decode: string -> Decoded, users: map<UserId, User>, u: UserId)
    requires ' ' !in prefix && ' ' !in token && IsBearer(prefix)
    requires decode(token) == Claims(Some(u)) && u in users
    ensures Authenticate(Some(prefix + " " + token), decode, users) == Authenticated(u, token)
  {
    SplitAfterWord(prefix, token);
    assert Split(token) == [token] by { TokenAlone(token); }
  }

  /** A space-free string is a single part. */
  lemma {:induction false} TokenAlone(s: string)
    requires ' ' !in s
    ensures Split(s) == [s]
  {
    if s != [] {
      TokenAlone(s[1..]);
      assert [s[0]] + s[1..] == s;
    }
  }

  /** "Bearer", "bearer" and "BEARER" are all accepted prefixes. */
  lemma PrefixCaseIgnored()
    ensures IsBearer("Bearer") && IsBearer("bearer") && IsBearer("BEARER")
  {
  }

  /** Two spaces between prefix and token give three parts, so the header
      is refused as an invalid token, whatever the prefix. */
  lemma DoubleSpaceRejected(prefix: string, token: string, decode: string -> Decoded, users: map<UserId, User>)
    requires ' ' !in prefix && ' ' !in token
    ensures Authenticate(Some(prefix + " " + (" " + token)), decode, users) == Failed(InvalidToken)
  {
    SplitAfterWord(prefix, " " + token);
    assert " " + token == "" + " " + token;
    SplitAfterWord("", token);
    TokenAlone(token);
    assert |Split(prefix + " " + (" " + token))| == 3;
  }

  /** What the client sees when authentication does not let the request
      through: an AuthenticationFailed becomes a 401 with the fixed message,
      whatever its detail; an escaped exception becomes a 500. */
  function Rejection(r: AuthOutcome): (e: Option<Envelope<Empty>>)
    ensures r.Failed? ==> e == Some(Envelope(401, 401, UnauthorizedMessage, Some(Empty), false))
    ensures r.Escaped? ==> e == Some(Envelope(500, 500, UnexpectedMessage, Some(Empty), false))
    ensures e.None? <==> r.Anonymous? || r.Authenticated?
  {
    match r
    case Failed(d) => Some(HandleException(AuthenticationFailed(d)))
    case Escaped => Some(HandleException(Unhandled))
    case _ => None
  }

  /** An invalid or expired token under a well-formed bearer header is
      answered with a 500, not a 401. */
  lemma RefusedTokenAnswers500(prefix: string, token: string, decode: string -> Decoded, users: map<UserId, User>)
    requires ' ' !in prefix && ' ' !in token && IsBearer(prefix)
    requires decode(token).Refused?
    ensures Rejection(Authenticate(Some(prefix + " " + token), decode, users)) ==
              Some(Envelope(500, 500, UnexpectedMessage, Some(Empty), false))
  {
    SplitAfterWord(prefix, token);
    TokenAlone(token);
  }
}
