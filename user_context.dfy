/** The session provider (context/UserContext.js): reading the signed-in user out of the
    `token` cookie on mount, the cached copy of the user, logout, and profile updates. The cookie
    and the local cache are fields; base64 decoding and JSON parsing of the token are one opaque
    function passed in; the user-details reply is an argument. */
module UserContext {
  import opened Common

  // ---------------------------------------------------------------------------------------
  // The token

  /** `token.split('.')[1]`: the payload segment of a JSON web token, absent when the token
      has no dot. */
  function TokenSegment(token: string): (r: Option<string>)
    ensures r.None? <==> '.' !in token
    ensures r.Some? ==> '.' !in r.value
  {
    var parts := Split(token, '.');
    if |parts| >= 2 then Some(parts[1]) else None
  }

  /** The segment is the text after the first dot, up to the next dot or the end. */
  lemma TokenSegmentAfterFirstDot(token: string)
    requires '.' in token
    ensures var i := IndexOf(token, '.').value; var seg := TokenSegment(token).value;
      seg <= token[i + 1..] && (i + 1 + |seg| == |token| || token[i + 1 + |seg|] == '.')
  {
    var i := IndexOf(token, '.').value;
    var rest := token[i + 1..];
    SplitAtFirst(token, '.');
    assert TokenSegment(token).value == Split(rest, '.')[0];
    SplitFirst(rest, '.');
    if '.' in rest {
      var j := IndexOf(rest, '.').value;
      assert token[i + 1 + j] == rest[j];
    }
  }

  /** The base64url-to-base64 fix-up: every '-' becomes '+' and every '_' becomes '/'. */
  function Base64FromUrl(s: string): (r: string)
    ensures |r| == |s| && '-' !in r && '_' !in r
    ensures forall i :: 0 <= i < |s| ==>
      r[i] == (if s[i] == '-' then '+' else if s[i] == '_' then '/' else s[i])
  {
    ReplaceAll(ReplaceAll(s, '-', '+'), '_', '/')
  }

  /** The token issuer's direction: '+' becomes '-' and '/' becomes '_'. */
  function Base64ToUrl(s: string): (r: string)
    ensures |r| == |s| && '+' !in r && '/' !in r
    ensures forall i :: 0 <= i < |s| ==>
      r[i] == (if s[i] == '+' then '-' else if s[i] == '/' then '_' else s[i])
  {
    ReplaceAll(ReplaceAll(s, '+', '-'), '/', '_')
  }

  /** A base64url segment (no '+' or '/') survives the fix-up and its inverse unchanged. */
  lemma UrlRoundTrip(s: string)
    requires '+' !in s && '/' !in s
    ensures Base64ToUrl(Base64FromUrl(s)) == s
  {
    var r := Base64ToUrl(Base64FromUrl(s));
    forall i | 0 <= i < |s| ensures r[i] == s[i] {
      assert s[i] != '+' && s[i] != '/';
    }
  }

  /** A base64 string (no '-' or '_') survives the encoding and the fix-up unchanged. */
  lemma StandardRoundTrip(s: string)
    requires '-' !in s && '_' !in s
    ensures Base64FromUrl(Base64ToUrl(s)) == s
  {
    var r := Base64FromUrl(Base64ToUrl(s));
    forall i | 0 <= i < |s| ensures r[i] == s[i] {
      assert s[i] != '-' && s[i] != '_';
    }
  }

  /** The claims the session reads from the token payload. */
  datatype Payload = Payload(sub: Option<string>, role: Option<string>)

  /** `JSON.parse(window.atob(segment))`: a failure, or a value that may be null. */
  datatype Decoded = Malformed | Parsed(payload: Option<Payload>)

  // ---------------------------------------------------------------------------------------
  // Who is signed in

  /** The user a valid token signs in: the user-details data with the token's `sub` and `role`
      over it; without data, the cached user if it has that id; otherwise only the token's
      claims. */
  function ResolveUser(sub: string, role: Option<string>, details: Reply<Option<User>>,
                       cached: Option<User>): (r: User)
    ensures r.empId == sub
    ensures details.Ok? && details.data.Some? ==>
      r == details.data.value.(empId := sub, role := role)
    ensures !(details.Ok? && details.data.Some?) ==>
      r == if cached.Some? && cached.value.empId == sub then cached.value else User(sub, role, None, None)
  {
    if details.Ok? && details.data.Some? then details.data.value.(empId := sub, role := role)
    else if cached.Some? && cached.value.empId == sub then cached.value
    else User(sub, role, None, None)
  }

  /** A cached user with another id is never adopted: the outcome is as if nothing was cached. */
  lemma OtherCachedUserIgnored(sub: string, role: Option<string>, details: Reply<Option<User>>, cached: User)
    requires cached.empId != sub
    ensures ResolveUser(sub, role, details, Some(cached)) == ResolveUser(sub, role, details, None)
  {
  }

  /** The payload of a token: Malformed when it has no payload segment or the segment does not
      decode. */
  function DecodeToken(token: string, decode: string -> Decoded): (r: Decoded)
    ensures '.' !in token ==> r.Malformed?
    ensures '.' in token ==> r == decode(Base64FromUrl(TokenSegment(token).value))
  {
    var segment := TokenSegment(token);
    if segment.None? then Malformed else decode(Base64FromUrl(segment.value))
  }

  /** A token as the issuer writes it, header, base64url payload and signature joined by dots,
      decodes to whatever its standard base64 payload decodes to. */
  lemma DecodeIssuedToken(header: string, payload: string, signature: string, decode: string -> Decoded)
    requires '.' !in header && '.' !in payload && '-' !in payload && '_' !in payload
    ensures DecodeToken(header + "." + Base64ToUrl(payload) + "." + signature, decode) == decode(payload)
  {
    var url := Base64ToUrl(payload);
    assert '.' !in url by {
      forall i | 0 <= i < |url| ensures url[i] != '.' {
        assert payload[i] != '.';
      }
    }
    var token := header + "." + url + "." + signature;
    assert token == header + ['.'] + (url + ['.'] + signature);
    SplitPrefix(header, url + ['.'] + signature, '.');
    SplitPrefix(url, signature, '.');
    StandardRoundTrip(payload);
  }

  /** What checkUserLoggedIn concludes from the cookie. */
  datatype Checked =
    | NoToken             // no cookie, or an empty one
    | BadToken            // no payload segment, or one that does not decode: the cookie is removed
    | NoSubject           // a decoded payload without a truthy `sub`: nobody is signed in
    | SignedIn(user: User)

  function Check(token: Option<string>, decode: string -> Decoded, details: Reply<Option<User>>,
                 cached: Option<User>): (r: Checked)
    ensures r.NoToken? <==> token.None? || token.value == ""
    ensures r.BadToken? <==> (token.Some? && token.value != "" && DecodeToken(token.value, decode).Malformed?)
    ensures r.SignedIn? <==>
      (token.Some? && token.value != "" && DecodeToken(token.value, decode).Parsed?
       && DecodeToken(token.value, decode).payload.Some?
       && StrOr(DecodeToken(token.value, decode).payload.value.sub, "") != "")
    ensures r.SignedIn? ==>
      token.Some? && DecodeToken(token.value, decode).Parsed? && DecodeToken(token.value, decode).payload.Some?
      && var payload := DecodeToken(token.value, decode).payload.value;
         payload.sub.Some? && payload.sub.value != ""
         && r.user == ResolveUser(payload.sub.value, payload.role, details, cached)
  {
    if token.None? || token.value == "" then NoToken
    else
      var decoded := DecodeToken(token.value, decode);
      if decoded.Malformed? then BadToken
      else if decoded.payload.None? || StrOr(decoded.payload.value.sub, "") == "" then NoSubject
      else
        var payload := decoded.payload.value;
        SignedIn(ResolveUser(payload.sub.value, payload.role, details, cached))
  }

  /** A signed-in user always carries the token's subject as its id. */
  lemma SignedInAsSubject(token: Option<string>, decode: string -> Decoded, details: Reply<Option<User>>,
                          cached: Option<User>)
    requires Check(token, decode, details, cached).SignedIn?
    ensures var sub := DecodeToken(token.value, decode).payload.value.sub.value;
      Check(token, decode, details, cached).user.empId == sub && sub != ""
  {
  }

  // ---------------------------------------------------------------------------------------
  // Profile updates

  /** The fields a profile update sends; a present field overrides the user's. */
  datatype UserPatch = UserPatch(empId: Option<string>, role: Option<string>, name: Option<string>,
                                 email: Option<string>)

  /** `{...user, ...patch}`. */
  function Merge(u: User, p: UserPatch): (r: User)
    ensures r.empId == (if p.empId.Some? then p.empId.value else u.empId)
    ensures p.role.Some? ==> r.role == p.role
    ensures p.role.None? ==> r.role == u.role
    ensures p.name.Some? ==> r.name == p.name
    ensures p.name.None? ==> r.name == u.name
    ensures p.email.Some? ==> r.email == p.email
    ensures p.email.None? ==> r.email == u.email
  {
    User(p.empId.GetOr(u.empId),
         if p.role.Some? then p.role else u.role,
         if p.name.Some? then p.name else u.name,
         if p.email.Some? then p.email else u.email)
  }

  /** Applying the same update twice changes nothing more. */
  lemma MergeIdempotent(u: User, p: UserPatch)
    ensures Merge(Merge(u, p), p) == Merge(u, p)
  {
  }

  /** An empty update keeps the user as it is. */
  lemma MergeEmpty(u: User)
    ensures Merge(u, UserPatch(None, None, None, None)) == u
  {
  }

  // ---------------------------------------------------------------------------------------
  // The provider

  class Session {
    var user: Option<User>
    var loading: bool
    /** The `token` cookie. */
    var token: Option<string>
    /** The `user_data` entry of local storage. */
    var cache: Option<User>

    /** The cache-write effect keeps the cache equal to any signed-in user. */
    ghost predicate Valid()
      reads this
    {
      user.Some? ==> cache == user
    }

    constructor (token: Option<string>, cache: Option<User>)
      ensures user.None? && loading && this.token == token && this.cache == cache && Valid()
    {
      user, loading := None, true;
      this.token, this.cache := token, cache;
    }

    /** checkUserLoggedIn: sign in the user the cookie names, drop an unreadable cookie, and end
        loading in every case. */
    method CheckUserLoggedIn(decode: string -> Decoded, details: Reply<Option<User>>)
      requires Valid()
      modifies this`user, this`loading, this`token, this`cache
      ensures Valid() && !loading
      ensures var c := Check(old(token), decode, details, old(cache));
        user == (if c.SignedIn? then Some(c.user) else old(user))
        && cache == (if c.SignedIn? then Some(c.user) else old(cache))
        && token == (if c.BadToken? then None else old(token))
    {
      var c := Check(token, decode, details, cache);
      match c {
        case NoToken =>
        case BadToken =>
          token := None;
        case NoSubject =>
        case SignedIn(u) =>
          user := Some(u);
          cache := Some(u);
      }
      loading := false;
    }

    /** logout: remove the cookie and the cached user and sign out (then go to the login page). */
    method Logout()
      modifies this`user, this`token, this`cache
      ensures user.None? && token.None? && cache.None? && Valid()
    {
      token := None;
      cache := None;
      user := None;
    }

    /** updateUser: without a signed-in user it fails before sending anything; otherwise it sends
        the patch for the user's id and, on success, merges it into the user. Loading ends false
        either way. Returns the request sent and whether the update succeeded. */
    method UpdateUser(patch: UserPatch, reply: Reply<()>)
      returns (request: Option<(string, UserPatch)>, ok: bool)
      requires Valid()
      modifies this`user, this`loading, this`cache
      ensures Valid() && !loading
      ensures request == if old(user).Some? then Some((old(user).value.empId, patch)) else None
      ensures ok <==> old(user).Some? && reply.Ok?
      ensures user == if ok then Some(Merge(old(user).value, patch)) else old(user)
      ensures cache == if ok then user else old(cache)
    {
      if user.None? {
        request, ok := None, false;
      } else {
        loading := true;
        request := Some((user.value.empId, patch));
        ok := reply.Ok?;
        if ok {
          user := Some(Merge(user.value, patch));
          cache := user;
        }
      }
      loading := false;
    }
  }
}
