/**
  The bearer-token gate of internal/middlewares/auth.go and the getters
  that read the authenticated user back from the request context.

  The token verifier (JWT parsing and signature check) is a foreign
  library; it is a function parameter `verify` here.
 */
module Auth {
  import opened Wrappers
  import Text

  /** HTTP 401 Unauthorized. */
  const StatusUnauthorized: nat := 401

  /** The typed context keys of the package; keys of other packages never collide with them. */
  datatype ContextKey = IDKey | UserKey | RoleKey | ForeignKey(name: string)

  /** A context value together with its dynamic type, as a type assertion sees it. */
  datatype ContextValue = UintValue(u: nat) | StringValue(s: string) | OtherValue

  /** The values of a request context. */
  type Context = map<ContextKey, ContextValue>

  /** What VerifyToken yields for a valid token: id, username and role. */
  datatype Claims = Claims(id: nat, username: string, role: string)

  /** The middleware's decision: answer 401, or call the next handler once with this context. */
  datatype Decision = Unauthorized(status: nat, message: string) | Forward(ctx: Context)

  /** The token part of a well-formed header: exactly "Bearer", one space, and a token without spaces. */
  predicate BearerOf(header: string, token: string)
  {
    header == "Bearer" + " " + token && ' ' !in token
  }

  /**
    AuthMiddleware. An empty header, a header that does not split on single
    spaces into exactly "Bearer" and one token, and a token the verifier
    refuses each give 401; otherwise the request goes on with the id, the
    username and the role added to its context.
   */
  function Authorize(header: string, ctx: Context, verify: string -> Result<Claims>): (d: Decision)
    ensures header == "" ==> d == Unauthorized(StatusUnauthorized, "Missing Authorization header")
    ensures d.Forward? <==> exists t :: BearerOf(header, t) && verify(t).Ok?
    ensures d.Unauthorized? ==> d.status == StatusUnauthorized
    ensures forall t :: BearerOf(header, t) && verify(t).Ok? ==>
      d == Forward(ctx[IDKey := UintValue(verify(t).value.id)][UserKey := StringValue(verify(t).value.username)][RoleKey := StringValue(verify(t).value.role)])
  {
    if header == "" then Unauthorized(StatusUnauthorized, "Missing Authorization header")
    else
      var parts := Text.Split(header, ' ');
      BearerSplitAll(header);
      if |parts| != 2 || parts[0] != "Bearer" then Unauthorized(StatusUnauthorized, "Invalid Authorization format")
      else
        var token := parts[1];
        assert parts == ["Bearer", token];
        match verify(token)
        case Err(_) => Unauthorized(StatusUnauthorized, "Invalid or expired token")
        case Ok(c) => Forward(ctx[IDKey := UintValue(c.id)][UserKey := StringValue(c.username)][RoleKey := StringValue(c.role)])
  }

  /** A header is well formed for token `t` exactly when splitting it on spaces gives ["Bearer", t]. */
  lemma BearerSplit(header: string, t: string)
    ensures Text.Split(header, ' ') == ["Bearer", t] <==> BearerOf(header, t)
  {
    Text.SplitTwo(header, ' ', "Bearer", t);
  }

  lemma BearerSplitAll(header: string)
    ensures forall t :: Text.Split(header, ' ') == ["Bearer", t] <==> BearerOf(header, t)
  {
    forall t {
      BearerSplit(header, t);
    }
  }

  /**
    The scheme match is case-sensitive and the separator is exactly one
    space: "bearer x", "Bearer  x" and "Bearer x y" are refused whatever the
    verifier says, while "Bearer " hands the empty token to the verifier.
   */
  lemma MalformedHeadersRejected(ctx: Context, verify: string -> Result<Claims>)
    ensures Authorize("bearer x", ctx, verify).Unauthorized?
    ensures Authorize("Bearer  x", ctx, verify).Unauthorized?
    ensures Authorize("Bearer x y", ctx, verify).Unauthorized?
    ensures verify("").Ok? ==> Authorize("Bearer ", ctx, verify).Forward?
  {
    forall t ensures !BearerOf("bearer x", t) {
      assert ("Bearer" + " " + t)[0] == 'B';
    }
    var twoSpaces, threeParts := "Bearer  x", "Bearer x y";
    assert twoSpaces[7..][0] == ' ' && threeParts[7..][1] == ' ';
    forall t ensures !BearerOf(twoSpaces, t) && !BearerOf(threeParts, t) {
      assert ("Bearer" + " " + t)[7..] == t;
    }
    assert BearerOf("Bearer ", "");
  }

  /** GetUserIDFromContext: the stored id when it is there with type uint, else 0. */
  function UserID(ctx: Context): nat
  {
    if IDKey in ctx && ctx[IDKey].UintValue? then ctx[IDKey].u else 0
  }

  /** GetUsernameFromContext: the stored username when it is there with type string, else "". */
  function Username(ctx: Context): string
  {
    if UserKey in ctx && ctx[UserKey].StringValue? then ctx[UserKey].s else ""
  }

  /** GetRoleFromContext: the stored role when it is there with type string, else "". */
  function Role(ctx: Context): string
  {
    if RoleKey in ctx && ctx[RoleKey].StringValue? then ctx[RoleKey].s else ""
  }

  /** Behind the gate the getters return exactly the claims the verifier produced. */
  lemma GettersReadClaims(header: string, ctx: Context, verify: string -> Result<Claims>, t: string)
    requires BearerOf(header, t) && verify(t).Ok?
    ensures Authorize(header, ctx, verify).Forward?
    ensures var c := Authorize(header, ctx, verify).ctx;
      UserID(c) == verify(t).value.id && Username(c) == verify(t).value.username && Role(c) == verify(t).value.role
  {
  }

  /**
    Each getter, for any context: a missing key and a value of the wrong
    type both yield the zero value, and a value of the right type is
    returned as stored.
   */
  lemma GettersDefault(ctx: Context)
    ensures IDKey !in ctx ==> UserID(ctx) == 0
    ensures IDKey in ctx && !ctx[IDKey].UintValue? ==> UserID(ctx) == 0
    ensures IDKey in ctx && ctx[IDKey].UintValue? ==> UserID(ctx) == ctx[IDKey].u
    ensures UserKey !in ctx ==> Username(ctx) == ""
    ensures UserKey in ctx && !ctx[UserKey].StringValue? ==> Username(ctx) == ""
    ensures UserKey in ctx && ctx[UserKey].StringValue? ==> Username(ctx) == ctx[UserKey].s
    ensures RoleKey !in ctx ==> Role(ctx) == ""
    ensures RoleKey in ctx && !ctx[RoleKey].StringValue? ==> Role(ctx) == ""
    ensures RoleKey in ctx && ctx[RoleKey].StringValue? ==> Role(ctx) == ctx[RoleKey].s
  {
  }
}
