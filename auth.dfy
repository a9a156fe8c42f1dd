/** Request authentication by bearer token: find the header, take the token,
    decode it and look up the user by the `googleId` claim. */
module Auth {
  import opened Wrappers
  import opened Strings
  import opened Models

  /** What decoding the token with the shared secret gave. `Decoded` carries the
      `googleId` claim, `None` when it is missing or null; `DecodeCrash` is any
      other exception raised while decoding. */
  datatype DecodeOutcome =
    | ExpiredSignature
    | InvalidToken
    | DecodeCrash
    | Decoded(googleId: Option<string>)

  /** `None` (no credentials, so the request is anonymous), a failure with its
      message, or the user together with the token. */
  datatype AuthOutcome =
    | NoCredentials
    | AuthFailed(message: string)
    | Authenticated(user: User, token: string)

  const MsgExpired: string := "Token has expired"
  const MsgInvalid: string := "Invalid token"
  const MsgUserNotFound: string := "User not found"

  const BearerPrefix: string := "Bearer "

  /** The `Authorization` header, falling back to the raw `HTTP_AUTHORIZATION`
      server variable when the header is missing or empty. */
  function AuthHeader(primary: Option<string>, meta: Option<string>): (h: Option<string>)
    ensures primary.Some? && primary.value != "" ==> h == primary
    ensures !(primary.Some? && primary.value != "") ==> h == meta
  {
    if primary.Some? && primary.value != "" then primary else meta
  }

  /** The header is present, non-empty and starts with `Bearer `. */
  predicate HasBearer(h: Option<string>)
  {
    h.Some? && h.value != "" && StartsWith(h.value, BearerPrefix)
  }

  lemma NoSpaceInScheme()
    ensures !Contains("Bearer", " ")
  {
    forall k: nat | k <= 6
      ensures !OccursAt("Bearer", " ", k)
    {
      if k + 1 <= 6 {
        assert "Bearer"[k..k + 1] == ["Bearer"[k]];
      }
    }
  }

  /** A `Bearer ` header splits on spaces into the scheme and what follows. */
  lemma SplitBearer(h: string)
    requires StartsWith(h, BearerPrefix)
    ensures Split(h, " ") == ["Bearer"] + Split(h[7..], " ")
  {
    NoSpaceInScheme();
    SeparatorsAreUnbordered();
    assert h == "Bearer" + " " + h[7..];
    FirstOccurrenceAfterPiece("Bearer", " ", h[7..]);
    assert h[..6] == "Bearer";
  }

  /** `auth_header.split(' ')[1]`. */
  function BearerToken(h: string): string
    requires StartsWith(h, BearerPrefix)
  {
    SplitBearer(h);
    Split(h, " ")[1]
  }

  /** The token is the text after `Bearer ` up to the next space, or to the end. */
  lemma BearerTokenIsNextWord(h: string)
    requires StartsWith(h, BearerPrefix)
    ensures var t := BearerToken(h);
            && 7 + |t| <= |h| && h[7..7 + |t|] == t
            && (forall j :: 0 <= j < |t| ==> t[j] != ' ')
            && (7 + |t| == |h| || h[7 + |t|] == ' ')
  {
    SplitBearer(h);
    var rest := h[7..];
    var t := BearerToken(h);
    assert t == Split(rest, " ")[0];
    match IndexOf(rest, " ")
    case None =>
      assert t == rest;
      forall j | 0 <= j < |t|
        ensures t[j] != ' '
      {
        if t[j] == ' ' {
          assert OccursAt(rest, " ", j) by { assert rest[j..j + 1] == [rest[j]]; }
        }
      }
    case Some(i) =>
      assert t == rest[..i];
      assert rest[i..i + 1] == " ";
      forall j | 0 <= j < |t|
        ensures t[j] != ' '
      {
        assert !OccursAt(rest, " ", j);
        assert rest[j..j + 1] == [rest[j]];
      }
  }

  /** A header `Bearer <t>` with no space in `t` yields exactly `t`. */
  lemma BearerTokenOfHeader(t: string)
    requires forall j :: 0 <= j < |t| ==> t[j] != ' '
    ensures StartsWith(BearerPrefix + t, BearerPrefix)
    ensures BearerToken(BearerPrefix + t) == t
  {
    var h := BearerPrefix + t;
    assert h[..7] == BearerPrefix;
    BearerTokenIsNextWord(h);
    var r := BearerToken(h);
    assert h[7..] == t;
    assert |r| <= |t|;
  }

  /** `JWTGoogleAuthentication.authenticate`. Every failure inside the `try`
      other than an expired signature or an unknown user, including the
      missing-claim failure it raises itself, ends in the catch-all and reads
      "Invalid token". */
  function Authenticate(primary: Option<string>, meta: Option<string>,
                        decode: string -> DecodeOutcome, lookup: string -> Option<User>): (r: AuthOutcome)
    ensures r.NoCredentials? <==> !HasBearer(AuthHeader(primary, meta))
    ensures r.AuthFailed? ==> r.message in {MsgExpired, MsgInvalid, MsgUserNotFound}
    ensures r.Authenticated? <==>
              && HasBearer(AuthHeader(primary, meta))
              && var d := decode(BearerToken(AuthHeader(primary, meta).value));
              && d.Decoded? && d.googleId.Some? && d.googleId.value != ""
              && lookup(d.googleId.value).Some?
    ensures r.Authenticated? ==>
              var token := BearerToken(AuthHeader(primary, meta).value);
              r == Authenticated(lookup(decode(token).googleId.value).value, token)
    ensures r == AuthFailed(MsgExpired) <==>
              HasBearer(AuthHeader(primary, meta)) && decode(BearerToken(AuthHeader(primary, meta).value)).ExpiredSignature?
    ensures r == AuthFailed(MsgUserNotFound) <==>
              && HasBearer(AuthHeader(primary, meta))
              && var d := decode(BearerToken(AuthHeader(primary, meta).value));
              && d.Decoded? && d.googleId.Some? && d.googleId.value != "" && lookup(d.googleId.value).None?
  {
    var h := AuthHeader(primary, meta);
    if !HasBearer(h) then NoCredentials
    else
      var token := BearerToken(h.value);
      match decode(token)
      case ExpiredSignature => AuthFailed(MsgExpired)
      case InvalidToken => AuthFailed(MsgInvalid)
      case DecodeCrash => AuthFailed(MsgInvalid)
      case Decoded(googleId) =>
        if googleId.None? || googleId.value == "" then AuthFailed(MsgInvalid)
        else
          match lookup(googleId.value)
          case None => AuthFailed(MsgUserNotFound)
          case Some(user) => Authenticated(user, token)
  }
}
