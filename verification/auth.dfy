/**
 * The session side of the application: who is logged in, what their role
 * grants, how the user record returned by the backend is validated, what is
 * kept in the browser's storage and where the user goes after logging in.
 *
 * The browser's `localStorage` is a map from keys to stored values; the
 * HTTP calls are replaced by their responses, passed in as parameters.
 */
module Auth {
  import opened Common

  /** The roles a route or a check can ask for. */
  datatype Role = CLIENTE | EMPLEADO | ADMIN

  function RoleName(r: Role): string {
    match r
    case CLIENTE => "CLIENTE"
    case EMPLEADO => "EMPLEADO"
    case ADMIN => "ADMIN"
  }

  /**
   * The logged-in user. `rol` is a string: a user restored from storage is
   * not re-validated, so it may hold any text.
   */
  datatype AuthUser = AuthUser(id: int, nombre: string, email: string, rol: string)

  /** One of the three role names the backend may send. */
  predicate ValidRol(rol: string) {
    rol == "CLIENTE" || rol == "EMPLEADO" || rol == "ADMIN"
  }

  /** The hierarchy, stated once: what each role name grants. */
  function Granted(rol: string): (g: set<Role>)
    ensures g != {} <==> ValidRol(rol)
  {
    if rol == "ADMIN" then {ADMIN, EMPLEADO}
    else if rol == "EMPLEADO" then {EMPLEADO}
    else if rol == "CLIENTE" then {CLIENTE}
    else {}
  }

  /** `hasRole`: nobody has a role without a user; ADMIN also counts as EMPLEADO. */
  function UserHasRole(user: Option<AuthUser>, role: Role): (r: bool)
    ensures r <==> user.Some? && role in Granted(user.value.rol)
  {
    if user.None? then false
    else if role == ADMIN then user.value.rol == "ADMIN"
    else if role == EMPLEADO then user.value.rol == "EMPLEADO" || user.value.rol == "ADMIN"
    else user.value.rol == RoleName(role)
  }

  /** ADMIN implies EMPLEADO, and a CLIENTE has neither staff role. */
  lemma RoleHierarchy(user: Option<AuthUser>)
    ensures UserHasRole(user, ADMIN) ==> UserHasRole(user, EMPLEADO)
    ensures UserHasRole(user, CLIENTE) ==> !UserHasRole(user, EMPLEADO) && !UserHasRole(user, ADMIN)
    ensures UserHasRole(user, EMPLEADO) ==> !UserHasRole(user, CLIENTE)
  {
  }

  /** The body of the `/auth/me` response. An absent field is `None` or the empty string. */
  datatype UserResponse = UserResponse(id: Option<int>, nombre: string, email: string, rol: string, token: string)

  datatype AuthError =
    | DatosIncompletos   // "Datos de usuario inválidos o incompletos ..."
    | RolInvalido        // "Rol de usuario inválido ..."
    | LoginFallido(status: int)

  /**
   * The validation step of `fetchUserDetails`. `None` stands for a missing
   * body (and for a failed request, which ends the same way).
   */
  function ValidarUsuario(resp: Option<UserResponse>): (r: Result<AuthUser, AuthError>)
    ensures r.Ok? <==>
      resp.Some? && resp.value.id.Some? && resp.value.email != "" && resp.value.nombre != "" && ValidRol(resp.value.rol)
    ensures r.Ok? ==>
      r.value == AuthUser(resp.value.id.value, resp.value.nombre, resp.value.email, resp.value.rol)
    ensures r.Err? && r.error == RolInvalido ==> resp.Some? && resp.value.rol != "" && !ValidRol(resp.value.rol)
    ensures (resp.Some? && resp.value.id.Some? && resp.value.email != "" && resp.value.nombre != "" &&
             resp.value.rol != "" && !ValidRol(resp.value.rol)) ==> r == Err(RolInvalido)
  {
    if resp.None? || resp.value.id.None? || resp.value.email == "" || resp.value.rol == "" || resp.value.nombre == "" then
      Err(DatosIncompletos)
    else if !ValidRol(resp.value.rol) then
      Err(RolInvalido)
    else
      Ok(AuthUser(resp.value.id.value, resp.value.nombre, resp.value.email, resp.value.rol))
  }

  /** Where `login` navigates: the remembered URL if there is one, else the role's dashboard. */
  function DestinoTrasLogin(redirectUrl: Option<string>, user: AuthUser): (url: string)
    ensures url != ""
    ensures StrTruthy(redirectUrl) ==> url == redirectUrl.value
    ensures !StrTruthy(redirectUrl) && ValidRol(user.rol) ==>
      (url == "/cliente" <==> UserHasRole(Some(user), CLIENTE)) &&
      (url == "/empleado" <==> UserHasRole(Some(user), EMPLEADO))
  {
    if StrTruthy(redirectUrl) then redirectUrl.value
    else if user.rol == "CLIENTE" then "/cliente"
    else "/empleado"
  }

  /**
   * What `localStorage` holds under a key, classified by what `JSON.parse`
   * makes of it:
   * - `UserJson`: text that parses to a truthy value (any object, array,
   *   non-empty string or non-zero number). The application reads it field by
   *   field; a missing field reads as `0` or the empty string, which the
   *   application treats like `undefined` (it only tests truthiness or
   *   compares with role names). So `"{}"` is `UserJson(AuthUser(0, "", "", ""))`.
   * - `JsonFalsy`: text that parses to a falsy value (`null`, `false`, `0`, `""`).
   * - `Text`: text that `JSON.parse` rejects, or the empty string.
   */
  datatype Stored = UserJson(user: AuthUser) | JsonFalsy | Text(text: string)

  const CurrentUserKey: string := "currentUser"
  const AuthTokenKey: string := "authToken"

  /**
   * `getUserFromStorage`: the parsed entry when it is present and parses to a
   * truthy value; no user for a missing, empty, falsy or unparsable entry.
   */
  function UserFromStorage(storage: map<string, Stored>): (u: Option<AuthUser>)
    ensures u.Some? <==> CurrentUserKey in storage && storage[CurrentUserKey].UserJson?
    ensures u.Some? ==> u.value == storage[CurrentUserKey].user
  {
    if CurrentUserKey in storage && storage[CurrentUserKey].UserJson? then Some(storage[CurrentUserKey].user)
    else None
  }

  /**
   * What `setUserInStorage` writes is what `getUserFromStorage` reads back,
   * and after the session keys are removed nothing is read back.
   */
  lemma StorageRoundTrip(storage: map<string, Stored>, user: AuthUser)
    ensures UserFromStorage(storage[CurrentUserKey := UserJson(user)]) == Some(user)
    ensures UserFromStorage(storage - {CurrentUserKey, AuthTokenKey}).None?
  {
  }

  /** `getUserFromStorage` removes a non-empty entry that `JSON.parse` rejects, and nothing else. */
  predicate Unparsable(storage: map<string, Stored>) {
    CurrentUserKey in storage && storage[CurrentUserKey].Text? && storage[CurrentUserKey].text != ""
  }

  /**
   * A stored `"{}"` restores a session: somebody is logged in, with no role.
   * A stored `"null"` restores nobody, and the entry stays.
   */
  lemma RestaurarSinUsuario(storage: map<string, Stored>)
    requires CurrentUserKey in storage
    ensures storage[CurrentUserKey] == UserJson(AuthUser(0, "", "", "")) ==>
      UserFromStorage(storage).Some? && forall role :: !UserHasRole(UserFromStorage(storage), role)
    ensures storage[CurrentUserKey] == JsonFalsy ==> UserFromStorage(storage).None? && !Unparsable(storage)
  {
    if storage[CurrentUserKey] == UserJson(AuthUser(0, "", "", "")) {
      forall role ensures !UserHasRole(UserFromStorage(storage), role) {
        assert Granted("") == {};
      }
    }
  }

  class AuthService {
    var currentUser: Option<AuthUser>
    var redirectUrl: Option<string>
    var storage: map<string, Stored>

    /**
     * The service starts with the value parsed from storage, dropping a
     * non-empty entry that `JSON.parse` rejects; an entry that parses is kept.
     */
    constructor (stored: map<string, Stored>)
      ensures currentUser == UserFromStorage(stored)
      ensures storage == if Unparsable(stored) then stored - {CurrentUserKey} else stored
      ensures redirectUrl.None?
    {
      currentUser := UserFromStorage(stored);
      storage := if Unparsable(stored) then stored - {CurrentUserKey} else stored;
      redirectUrl := None;
    }

    /** `isLoggedIn`: somebody is logged in; nobody who is not has any role. */
    predicate IsLoggedIn()
      reads this
      ensures !IsLoggedIn() ==> forall role :: !UserHasRole(currentUser, role)
    {
      currentUser.Some?
    }

    function HasRole(role: Role): (r: bool)
      reads this
      ensures r ==> IsLoggedIn()
      ensures r <==> currentUser.Some? && role in Granted(currentUser.value.rol)
    {
      UserHasRole(currentUser, role)
    }

    /** `isAdmin`: an administrator is also an employee. */
    function IsAdmin(): (r: bool)
      reads this
      ensures r ==> HasRole(EMPLEADO) && !HasRole(CLIENTE)
      ensures r <==> currentUser.Some? && currentUser.value.rol == "ADMIN"
    {
      HasRole(ADMIN)
    }

    /** Stores a user, or with `None` forgets both the user and the token. */
    method SetUserInStorage(user: Option<AuthUser>)
      modifies this
      ensures currentUser == user && redirectUrl == old(redirectUrl)
      ensures user.Some? ==> storage == old(storage)[CurrentUserKey := UserJson(user.value)]
      ensures user.None? ==> storage == old(storage) - {CurrentUserKey, AuthTokenKey}
      ensures UserFromStorage(storage) == user
    {
      if user.Some? {
        storage := storage[CurrentUserKey := UserJson(user.value)];
      } else {
        storage := storage - {CurrentUserKey};
        storage := storage - {AuthTokenKey};
      }
      currentUser := user;
    }

    method ClearUserAndTokenFromStorage()
      modifies this
      ensures currentUser.None? && redirectUrl == old(redirectUrl)
      ensures storage == old(storage) - {CurrentUserKey, AuthTokenKey}
      ensures CurrentUserKey !in storage && AuthTokenKey !in storage
    {
      storage := storage - {CurrentUserKey};
      storage := storage - {AuthTokenKey};
      currentUser := None;
    }

    /**
     * `fetchUserDetails` once the `/auth/me` response is in: a valid record is
     * returned and its non-empty token stored; otherwise storage is cleared.
     */
    method FetchUserDetails(resp: Option<UserResponse>) returns (r: Result<AuthUser, AuthError>)
      modifies this
      ensures r == ValidarUsuario(resp)
      ensures r.Ok? ==> currentUser == old(currentUser)
      ensures r.Ok? ==> storage == if resp.value.token != "" then old(storage)[AuthTokenKey := Text(resp.value.token)] else old(storage)
      ensures r.Err? ==> currentUser.None? && storage == old(storage) - {CurrentUserKey, AuthTokenKey}
      ensures redirectUrl == old(redirectUrl)
    {
      r := ValidarUsuario(resp);
      if r.Err? {
        ClearUserAndTokenFromStorage();
        return;
      }
      if resp.value.token != "" {
        storage := storage[AuthTokenKey := Text(resp.value.token)];
      }
    }

    /**
     * `login` once the responses are in: `status` is that of the POST to
     * `/login`, `resp` the `/auth/me` body. Returns the outcome and the URL
     * the router is sent to.
     */
    method Login(status: int, resp: Option<UserResponse>) returns (r: Result<AuthUser, AuthError>, navigateTo: string)
      modifies this
      ensures status != 200 ==> r == Err(LoginFallido(status))
      ensures status == 200 ==> r == ValidarUsuario(resp)
      ensures r.Ok? ==> currentUser == Some(r.value) && UserFromStorage(storage) == Some(r.value)
      ensures r.Ok? ==> navigateTo == DestinoTrasLogin(old(redirectUrl), r.value) && redirectUrl.None?
      ensures r.Ok? ==> storage == (if resp.value.token != "" then old(storage)[AuthTokenKey := Text(resp.value.token)] else old(storage))[CurrentUserKey := UserJson(r.value)]
      ensures r.Err? ==> currentUser.None? && navigateTo == "/auth/login" && redirectUrl == old(redirectUrl)
      ensures r.Err? ==> storage == old(storage) - {CurrentUserKey, AuthTokenKey}
    {
      if status != 200 {
        r := Err(LoginFallido(status));
      } else {
        r := FetchUserDetails(resp);
      }
      if r.Err? {
        ClearUserAndTokenFromStorage();
        navigateTo := "/auth/login";
        return;
      }
      SetUserInStorage(Some(r.value));
      navigateTo := DestinoTrasLogin(redirectUrl, r.value);
      redirectUrl := None;
    }

    /** `logout`: whatever the backend answers, the session is forgotten and the user sent to the login page. */
    method Logout() returns (navigateTo: string)
      modifies this
      ensures currentUser.None? && !IsLoggedIn()
      ensures storage == old(storage) - {CurrentUserKey, AuthTokenKey}
      ensures navigateTo == "/auth/login" && redirectUrl == old(redirectUrl)
    {
      ClearUserAndTokenFromStorage();
      navigateTo := "/auth/login";
    }
  }
}
