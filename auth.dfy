/**
 * The admin guard of the Go backend (server/internal/middleware/auth.go):
 * the Authorization header must be "Bearer <token>", the token must verify,
 * and its role must be one of the route's roles; only then are the username
 * and role put in the request context and the next handler run. JWT parsing
 * and signature checking are a parameter.
 */
module Auth {
  import opened Wrappers
  import Text

  datatype Claims = Claims(username: string, role: string)

  /** What jwt.ParseWithClaims and the claims cast give for a token string. */
  datatype TokenCheck = Unverified | OtherClaims | Verified(claims: Claims)

  /** The index of the first occurrence of c, if any. */
  function IndexOf(s: string, c: char): (r: Option<nat>)
    ensures r.Some? ==> r.value < |s| && s[r.value] == c && c !in s[..r.value]
    ensures r.None? ==> c !in s
  {
    if |s| == 0 then None
    else if s[0] == c then Some(0)
    else
      var r := IndexOf(s[1..], c);
      if r.Some? then
        assert s[..r.value + 1] == [s[0]] + s[1..][..r.value];
        Some(r.value + 1)
      else None
  }

  /** strings.SplitN(s, " ", 2): the text before the first space and everything after it, or s alone. */
  function SplitN2(s: string): (parts: seq<string>)
    ensures 1 <= |parts| <= 2
    ensures |parts| == 1 <==> ' ' !in s
    ensures |parts| == 2 ==> s == parts[0] + " " + parts[1] && ' ' !in parts[0]
  {
    match IndexOf(s, ' ')
    case None => [s]
    case Some(i) =>
      assert s == s[..i] + " " + s[i + 1..];
      [s[..i], s[i + 1..]]
  }

  /** Why the guard refuses a request, or the claims it lets through (auth.go:38-81). */
  function Decide(header: string, roles: seq<string>, verify: string -> TokenCheck): (r: Result<Claims, string>)
    ensures r.Ok? ==> r.value.role in roles
    ensures header == "" ==> r == Err("Authorization header required")
  {
    if header == "" then Err("Authorization header required")
    else
      var parts := SplitN2(header);
      if |parts| != 2 || parts[0] != "Bearer" then Err("Invalid authorization format")
      else
        match verify(parts[1])
        case Unverified => Err("Could not validate credentials")
        case OtherClaims => Err("Invalid claims")
        case Verified(claims) => if claims.role in roles then Ok(claims) else Err("Insufficient role")
  }

  /**
   * The header has the accepted form exactly when it is "Bearer", one space,
   * then the token, which is everything after that first space (and may
   * itself contain spaces).
   */
  lemma BearerFormat(header: string)
    ensures var parts := SplitN2(header);
            (|parts| == 2 && parts[0] == "Bearer") <==> Text.StartsWith(header, "Bearer ")
    ensures Text.StartsWith(header, "Bearer ") ==> SplitN2(header)[1] == header[7..]
  {
    var parts := SplitN2(header);
    if Text.StartsWith(header, "Bearer ") {
      assert header[..7] == "Bearer ";
      assert header[6] == ' ';
      assert ' ' !in header[..6];
      var i := IndexOf(header, ' ').value;
      assert i <= 6 by {
        assert header[..i + 1][..6] == header[..6] || i < 6;
      }
      assert i == 6;
    }
    if |parts| == 2 && parts[0] == "Bearer" {
      assert header == "Bearer" + " " + parts[1];
      assert header[..7] == "Bearer ";
    }
  }

  /** The only token that passes is one whose verified role is listed; the rest of the claims do not matter. */
  lemma PassesOnlyListedRoles(header: string, roles: seq<string>, verify: string -> TokenCheck)
    ensures Decide(header, roles, verify).Ok? <==>
              Text.StartsWith(header, "Bearer ")
              && verify(header[7..]).Verified? && verify(header[7..]).claims.role in roles
  {
    BearerFormat(header);
  }

  /** The route's role scan (auth.go:70-76): true once a listed role equals the token's. */
  method RoleAllowed(roles: seq<string>, role: string) returns (allowed: bool)
    ensures allowed <==> role in roles
  {
    allowed := false;
    for i := 0 to |roles|
      invariant allowed == false
      invariant role !in roles[..i]
    {
      if role == roles[i] {
        allowed := true;
        break;
      }
    }
    if !allowed {
      assert roles[..|roles|] == roles;
    }
  }

  /** The parts of gin.Context the guard touches. */
  class Context {
    var keys: map<string, string>
    var status: int
    var detail: string
    var aborted: bool
    var nextRan: bool

    constructor()
      ensures keys == map[] && status == 200 && detail == "" && !aborted && !nextRan
    {
      keys := map[];
      status := 200;
      detail := "";
      aborted := false;
      nextRan := false;
    }

    /** c.JSON(401, …) followed by c.Abort(). */
    method Reject(message: string)
      modifies this`status, this`detail, this`aborted
      ensures status == 401 && detail == message && aborted
    {
      status := 401;
      detail := message;
      aborted := true;
    }

    method Set(key: string, value: string)
      modifies this`keys
      ensures keys == old(keys)[key := value]
    {
      keys := keys[key := value];
    }

    method Next()
      modifies this`nextRan
      ensures nextRan
    {
      nextRan := true;
    }
  }

  /**
   * AuthMiddleware's handler: a refused request gets 401 with the reason and
   * is aborted, with nothing put in the context and the next handler not
   * run; an accepted one gets the username and role and runs the next handler.
   */
  method AuthMiddleware(c: Context, roles: seq<string>, header: string, verify: string -> TokenCheck)
    requires !c.nextRan
    modifies c
    ensures var d := Decide(header, roles, verify);
            (d.Err? ==> c.status == 401 && c.detail == d.error && c.aborted
                        && c.keys == old(c.keys) && !c.nextRan)
            && (d.Ok? ==> c.keys == old(c.keys)["username" := d.value.username]["role" := d.value.role]
                          && c.nextRan && c.status == old(c.status) && c.aborted == old(c.aborted))
  {
    if header == "" {
      c.Reject("Authorization header required");
      return;
    }
    var parts := SplitN2(header);
    if |parts| != 2 || parts[0] != "Bearer" {
      c.Reject("Invalid authorization format");
      return;
    }
    var tokenString := parts[1];
    var token := verify(tokenString);
    if token.Unverified? {
      c.Reject("Could not validate credentials");
      return;
    }
    if token.OtherClaims? {
      c.Reject("Invalid claims");
      return;
    }
    var claims := token.claims;
    var allowed := RoleAllowed(roles, claims.role);
    if !allowed {
      c.Reject("Insufficient role");
      return;
    }
    c.Set("username", claims.username);
    c.Set("role", claims.role);
    c.Next();
  }
}
