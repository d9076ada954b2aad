/** Request authentication and the role-based permissions of the developer
    portal. Token signing and verification and password hashing are foreign
    calls: verification is a parameter, a password hash is passed in. */
module Auth {
  import opened Wrappers
  import opened Json
  import Text
  import Store

  /** What a verified token, or a stored user, says about its holder. */
  datatype AuthUser = AuthUser(id: string, username: string, role: string)

  /** Token verification with the server's secret: `None` for an invalid or expired token. */
  type Verifier = string -> Option<AuthUser>

  const BearerPrefix := "Bearer "

  /** The token of an `Authorization: Bearer <token>` header. */
  function BearerToken(header: Option<string>): (r: Option<string>)
    ensures r.Some? <==> header.Some? && Text.StartsWith(header.value, BearerPrefix)
    ensures r.Some? ==> header.value == BearerPrefix + r.value
  {
    if header.Some? && Text.StartsWith(header.value, BearerPrefix) then
      assert header.value == header.value[..7] + header.value[7..];
      Some(header.value[7..])
    else None
  }

  /** The first stored user with identifier `id`. */
  function FindUser(users: seq<Store.User>, id: string): (r: Option<Store.User>)
    ensures r.Some? ==> r.value in users && r.value.id == id
    ensures r.None? ==> forall i :: 0 <= i < |users| ==> users[i].id != id
  {
    if users == [] then None
    else if users[0].id == id then Some(users[0])
    else FindUser(users[1..], id)
  }

  /** The caller of a request: a Bearer token that verifies and names a user
      that still exists. Username and role come from the store, not the token. */
  function Authenticate(header: Option<string>, verify: Verifier, users: seq<Store.User>): (r: Option<AuthUser>)
    ensures r.Some? ==> exists token, u ::
      && header == Some(BearerPrefix + token)
      && verify(token).Some?
      && u in users && u.id == verify(token).value.id
      && r.value == AuthUser(u.id, u.username, u.role)
    ensures r.None? ==> || BearerToken(header).None?
                        || verify(BearerToken(header).value).None?
                        || forall u :: u in users ==> u.id != verify(BearerToken(header).value).value.id
  {
    match BearerToken(header)
    case None => None
    case Some(token) =>
      match verify(token)
      case None => None
      case Some(claims) =>
        match FindUser(users, claims.id)
        case None => None
        case Some(u) => Some(AuthUser(u.id, u.username, u.role))
  }

  /** `include: { createdByUser: { select: { username: true } } }`: the
      creator's row reduced to its username. The store's foreign key makes the
      row exist; without one the relation would be `null`. */
  function CreatorJson(users: seq<Store.User>, id: string): (r: Json)
    ensures r != JNull <==> exists u :: u in users && u.id == id
    ensures r != JNull ==> exists u :: u in users && u.id == id && r == JObj(map["username" := JStr(u.username)])
  {
    match FindUser(users, id)
    case Some(u) => JObj(map["username" := JStr(u.username)])
    case None =>
      assert forall u :: u in users ==> u.id != id;
      JNull
  }

  /** A row the caller creates names the caller's own username as its creator. */
  lemma CallerIsCreator(header: Option<string>, verify: Verifier, users: seq<Store.User>)
    requires Authenticate(header, verify, users).Some?
    ensures var a := Authenticate(header, verify, users).value;
      CreatorJson(users, a.id) == JObj(map["username" := JStr(a.username)])
  {
    var token := BearerToken(header).value;
    var u := FindUser(users, verify(token).value.id).value;
    assert Authenticate(header, verify, users).value == AuthUser(u.id, u.username, u.role);
  }

  predicate CanManageSites(role: string) {
    role == "technical" || role == "admin"
  }

  predicate CanViewAnalytics(role: string) {
    role == "admin"
  }

  predicate CanManageCMS(role: string) {
    role == "admin"
  }

  predicate CanAccessDeveloperPortal(role: string) {
    role == "technical" || role == "admin"
  }

  /** The admin-only permissions are a subset of the technical ones. */
  lemma PermissionsNest(role: string)
    ensures CanViewAnalytics(role) ==> CanManageSites(role)
    ensures CanManageCMS(role) ==> CanManageSites(role)
    ensures CanManageSites(role) <==> CanAccessDeveloperPortal(role)
    ensures CanViewAnalytics(role) <==> CanManageCMS(role)
  {
  }

  predicate HasUsername(users: seq<Store.User>, username: string) {
    exists i :: 0 <= i < |users| && users[i].username == username
  }

  /** The user table after making sure an account named `username` exists:
      unchanged if one does, otherwise with a new admin account appended. */
  function EnsureAdmin(users: seq<Store.User>, username: string, passwordHash: string, freshId: string): (r: seq<Store.User>)
    ensures HasUsername(r, username)
    ensures users <= r && |r| <= |users| + 1
    ensures HasUsername(users, username) <==> r == users
    ensures |r| == |users| + 1 ==> r[|users|] == Store.User(freshId, username, passwordHash, "admin")
  {
    if HasUsername(users, username) then users
    else
      var r := users + [Store.User(freshId, username, passwordHash, "admin")];
      assert r[|users|].username == username;
      r
  }

  /** A second call changes nothing, whatever identifier and hash it would use. */
  lemma EnsureAdminIdempotent(users: seq<Store.User>, username: string, h1: string, h2: string, id1: string, id2: string)
    ensures var once := EnsureAdmin(users, username, h1, id1);
      EnsureAdmin(once, username, h2, id2) == once
  {
  }

  /** `createDefaultAdmin`: the username and password come from the
      environment, each falling back when unset or empty; `hash` stands for
      the password hashing. */
  method CreateDefaultAdmin(db: Store.Database, envUsername: Option<string>, envPassword: Option<string>,
                            hash: string -> string, freshId: string)
    modifies db`users
    ensures db.users == EnsureAdmin(old(db.users), Text.OrElse(envUsername, "admin"),
                                    hash(Text.OrElse(envPassword, "admin123")), freshId)
  {
    var username := Text.OrElse(envUsername, "admin");
    var password := Text.OrElse(envPassword, "admin123");
    var i := 0;
    while i < |db.users|
      invariant 0 <= i <= |db.users|
      invariant forall k :: 0 <= k < i ==> db.users[k].username != username
    {
      if db.users[i].username == username {
        return;
      }
      i := i + 1;
    }
    db.users := db.users + [Store.User(freshId, username, hash(password), "admin")];
  }
}
