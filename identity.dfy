/** The sign-up and sign-in rules of the storefront's auth form, over the
    user directory kept under the "auth:users" storage key. */
module Identity {
  import opened Base
  import Text

  datatype Role = Factory | Investor

  /** A directory record. Older versions stored the bare password string
      (`Legacy`); current ones store an object whose role may be missing. */
  datatype UserRecord = Legacy(password: string) | Account(password: string, role: Option<Role>, farmId: Option<int>)

  /** The signed-in session user. */
  datatype User = User(username: string, role: Role, farmId: Option<int>)

  type Directory = map<string, UserRecord>

  datatype Mode = Login | Signup

  /** The submitted form fields as typed. `confirm`, `role` and `farmId` are
      absent when the form does not render them; `farmId` is the number the
      farm selector holds. */
  datatype Form = Form(username: string, password: string, confirm: Option<string>, role: Option<Role>, farmId: Option<int>)

  datatype AuthError = EnterUsername | PasswordTooShort | UserExists | PasswordMismatch | SelectFactory | InvalidCredentials

  /** The names a plain JavaScript object inherits from `Object.prototype`.
      The directory is such an object (parsed JSON or `{}`), so looking up
      one of these names that it does not hold as its own key yields a
      function or the prototype itself: truthy, and without a `password`. */
  const InheritedNames: set<string> := {
    "constructor", "hasOwnProperty", "isPrototypeOf", "propertyIsEnumerable",
    "toLocaleString", "toString", "valueOf", "__proto__",
    "__defineGetter__", "__defineSetter__", "__lookupGetter__", "__lookupSetter__"
  }

  /** The directory holds a truthy record of its own under `name`: one that
      is not an empty legacy string. */
  predicate Stored(users: Directory, name: string)
  {
    name in users && (users[name].Legacy? ==> users[name].password != "")
  }

  /** `users[name]` is truthy: an own truthy record, or an inherited name
      that no own key shadows. */
  predicate Registered(users: Directory, name: string)
  {
    if name in users then Stored(users, name) else name in InheritedNames
  }

  /** `!selectedFarmId` fails: a farm id is present and is not 0. */
  predicate FarmGiven(farmId: Option<int>)
  {
    farmId.Some? && farmId.value != 0
  }

  /** The checks both modes apply first, on the trimmed fields
      (App.tsx:399-408). */
  function CheckCredentials(username: string, password: string): (r: Option<AuthError>)
    ensures r == None <==> username != [] && |password| >= 4
    ensures r != None ==> r == Some(if username == [] then EnterUsername else PasswordTooShort)
  {
    if username == [] then Some(EnterUsername)
    else if |password| < 4 then Some(PasswordTooShort)
    else None
  }

  /** The sign-up branch (App.tsx:410-435) on trimmed fields that passed
      `CheckCredentials`: it fails on a taken name, a confirmation mismatch
      or a factory without a farm, and otherwise adds exactly one key. */
  function SignUp(users: Directory, username: string, password: string, confirm: Option<string>, role: Role, farmId: Option<int>): (r: Result<(Directory, User), AuthError>)
    ensures r.Success? <==> !Registered(users, username) && confirm == Some(password) && (role == Factory ==> FarmGiven(farmId))
    ensures Registered(users, username) ==> r == Failure(UserExists)
    ensures r.Failure? && !Registered(users, username) ==> r.error == (if confirm != Some(password) then PasswordMismatch else SelectFactory)
    ensures r.Success? ==> var (dir, user) := r.value;
      && dir.Keys == users.Keys + {username}
      && (forall k :: k in users && k != username ==> dir[k] == users[k])
      && dir[username] == Account(password, Some(role), farmId)
      && user == User(username, role, farmId)
  {
    if Registered(users, username) then Failure(UserExists)
    else if confirm != Some(password) then Failure(PasswordMismatch)
    else if role == Factory && !FarmGiven(farmId) then Failure(SelectFactory)
    else Success((users[username := Account(password, Some(role), farmId)], User(username, role, farmId)))
  }

  /** The sign-in branch (App.tsx:437-461): an unknown name or a wrong
      password is refused; a legacy record signs in as an investor, an
      object record with its stored role (investor if missing) and farm.
      An inherited name passes the truthiness test but is refused too,
      because its `password` is undefined and never equals the typed one. */
  function LogIn(users: Directory, username: string, password: string): (r: Result<User, AuthError>)
    ensures r.Success? <==> Stored(users, username) && users[username].password == password
    ensures r.Failure? ==> r.error == InvalidCredentials
    ensures r.Success? ==> r.value.username == username
    ensures r.Success? && users[username].Legacy? ==> r.value.role == Investor && r.value.farmId == None
    ensures r.Success? && users[username].Account? ==>
      r.value.farmId == users[username].farmId
      && r.value.role == (if users[username].role.Some? then users[username].role.value else Investor)
  {
    if !Stored(users, username) then Failure(InvalidCredentials)
    else match users[username]
      case Legacy(pw) =>
        if pw != password then Failure(InvalidCredentials) else Success(User(username, Investor, None))
      case Account(pw, role, farmId) =>
        if pw != password then Failure(InvalidCredentials)
        else Success(User(username, if role.Some? then role.value else Investor, farmId))
  }

  /** The confirmation as the handler reads it: trimmed, when rendered. */
  function ConfirmOf(form: Form): Option<string>
  {
    if form.confirm.Some? then Some(Text.Trim(form.confirm.value)) else None
  }

  /** The selected role, investor when the form renders no selector. */
  function RoleOf(form: Form): Role
  {
    if form.role.Some? then form.role.value else Investor
  }

  /** The whole form handler `handleLogin`: trims the fields, applies the
      common checks, then the branch of the current mode. The result is the
      directory after the call and the new session user. */
  function Authenticate(mode: Mode, form: Form, users: Directory): (r: Result<(Directory, User), AuthError>)
    ensures Text.Trim(form.username) == [] ==> r == Failure(EnterUsername)
    ensures Text.Trim(form.username) != [] && |Text.Trim(form.password)| < 4 ==> r == Failure(PasswordTooShort)
    ensures r.Success? ==> r.value.1.username == Text.Trim(form.username) && |Text.Trim(form.password)| >= 4 && Text.Trim(form.username) != []
    ensures mode == Login && r.Success? ==> r.value.0 == users
    ensures mode == Signup && Text.Trim(form.username) != [] && |Text.Trim(form.password)| >= 4 && Registered(users, Text.Trim(form.username)) ==> r == Failure(UserExists)
    ensures CheckCredentials(Text.Trim(form.username), Text.Trim(form.password)) == None && mode == Signup ==>
      r == SignUp(users, Text.Trim(form.username), Text.Trim(form.password), ConfirmOf(form), RoleOf(form), form.farmId)
    ensures CheckCredentials(Text.Trim(form.username), Text.Trim(form.password)) == None && mode == Login ==>
      var login := LogIn(users, Text.Trim(form.username), Text.Trim(form.password));
      && (r.Success? <==> login.Success?)
      && (r.Success? ==> r.value == (users, login.value))
      && (r.Failure? ==> r == Failure(InvalidCredentials))
  {
    var username := Text.Trim(form.username);
    var password := Text.Trim(form.password);
    match CheckCredentials(username, password)
    case Some(e) => Failure(e)
    case None =>
      if mode == Signup then
        SignUp(users, username, password, ConfirmOf(form), RoleOf(form), form.farmId)
      else
        match LogIn(users, username, password)
        case Failure(e) => Failure(e)
        case Success(u) => Success((users, u))
  }

  /** A name inherited from `Object.prototype` that the directory does
      not hold can neither sign up nor sign in, whatever else the form
      holds. */
  lemma InheritedNamesRefused(users: Directory, username: string, password: string, confirm: Option<string>, role: Role, farmId: Option<int>)
    requires username in InheritedNames && username !in users
    ensures SignUp(users, username, password, confirm, role, farmId) == Failure(UserExists)
    ensures LogIn(users, username, password) == Failure(InvalidCredentials)
  {
  }

  /** Signing in right after a sign-up, with the same name and password,
      restores the same session user. */
  lemma SignUpThenLogIn(users: Directory, username: string, password: string, confirm: Option<string>, role: Role, farmId: Option<int>)
    requires SignUp(users, username, password, confirm, role, farmId).Success?
    ensures var (dir, user) := SignUp(users, username, password, confirm, role, farmId).value;
      LogIn(dir, username, password) == Success(user)
  {
  }

  /** A second sign-up under a name that just signed up is refused. */
  lemma SignUpTwiceRefused(users: Directory, username: string, password: string, confirm: Option<string>, role: Role, farmId: Option<int>,
                           password': string, confirm': Option<string>, role': Role, farmId': Option<int>)
    requires SignUp(users, username, password, confirm, role, farmId).Success?
    ensures SignUp(SignUp(users, username, password, confirm, role, farmId).value.0, username, password', confirm', role', farmId') == Failure(UserExists)
  {
  }
}
