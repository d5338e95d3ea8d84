/** The users app: UserViewSet with its per-action permissions, the
    registration, login, update and password-change serializers, the admin's
    list filters and the guards on deleting a user. Passwords are held as the
    text check_password compares with (hashing is not modelled); Django's own
    field validators (the username pattern, lengths, the e-mail format and
    validate_password) are a parameter `check(field, value)` giving their
    messages. */
module Users {
  import opened Wrappers
  import opened Numbers
  import opened Text
  import opened Store
  import opened Common
  import ExcelImporter
  import Favorites

  // ------------------------------------------------------------ get_permissions

  /** The permission classes an action runs under. */
  datatype Permission = AllowAny | AdminOnly | SignedIn

  const AdminActions: seq<string> := ["list", "retrieve", "create", "update", "partial_update", "destroy"]

  /** get_permissions: register and login are open, the CRUD actions need
      IsAdminUser, everything else IsAuthenticated. */
  function PermissionOf(action: string): Permission
  {
    if action in ["register", "login"] then AllowAny
    else if action in AdminActions then AdminOnly
    else SignedIn
  }

  predicate Permits(perm: Permission, me: Principal)
  {
    match perm
    case AllowAny => true
    case AdminOnly => IsAdminUser(me)
    case SignedIn => IsAuthenticated(me)
  }

  /** The refusal DRF sends when the permission fails: 401 to the anonymous
      user (the JWT authenticator is configured), 403 to anyone else. */
  function Gate(action: string, me: Principal): (r: Option<Response>)
    ensures r.None? <==> Permits(PermissionOf(action), me)
    ensures r.Some? ==> r.value.status == (if me.Member? then 403 else 401)
  {
    if Permits(PermissionOf(action), me) then None
    else if me.Member? then Some(Refusal(403, PermissionDeniedDetail))
    else Some(Unauthenticated)
  }

  /** The whole table: the anonymous user reaches register and login only;
      an administrator (the "admin" role or a superuser) reaches every
      action; a signed-in user who is not one is refused exactly the six
      CRUD actions, with a 403. */
  lemma GateTable(action: string, me: Principal)
    ensures Gate(action, Anonymous).None? <==> action == "register" || action == "login"
    ensures IsAdminUser(me) ==> Gate(action, me).None?
    ensures me.Member? && !IsAdminUser(me) ==>
      (Gate(action, me).Some? <==> action in AdminActions)
      && (Gate(action, me).Some? ==> Gate(action, me).value == Refusal(403, PermissionDeniedDetail))
  {
  }

  // ------------------------------------------------------------ serializer fields

  /** What a serializer field yields: nothing (an optional field left out),
      a value, or its error messages. */
  datatype Field<T> = Skip | Value(value: T) | Bad(msgs: seq<string>)

  const FieldBlank := "该字段不能为空。"
  const NotABoolean := "必须是有效的布尔值。"
  /** The unique validators DRF builds from the model: AbstractUser's own
      text for the username, Django's generic one for the phone. */
  const UsernameUnique := "已存在一位使用该名字的用户。"
  const PhoneUnique := "具有 手机号 的 用户 已存在。"
  const UsernameRegistered := "该用户名已被注册"
  const PhoneRegistered := "该手机号已被注册"
  const EmailRegistered := "该邮箱已被注册"
  const PasswordsDiffer := "两次密码不一致"
  const OldPasswordWrong := "旧密码错误"
  const BadCredentials := "用户名或密码错误"

  function InvalidChoice(input: string): string
  {
    "“" + input + "” 不是合法选项。"
  }

  /** A CharField (whitespace trimmed): absent is required or skipped, null
      and non-text values are refused, a blank text is refused unless blank
      is allowed (and then skips the validators), and any other text goes
      through the validators. */
  function TextField(v: Option<Json>, required: bool, allowBlank: bool, problems: string -> seq<string>): (r: Field<string>)
    ensures r.Bad? ==> r.msgs != []
    ensures r.Skip? <==> v.None? && !required
    ensures r.Value? ==> v.Some? && (v.value.JStr? || v.value.JInt? || v.value.JNum?) && r.value == Strip(Show(v.value))
    ensures r.Value? ==> (r.value == "" ==> allowBlank) && (r.value != "" ==> problems(r.value) == [])
    ensures v.Some? && v.value.JStr? && Strip(v.value.s) == "" ==> r == (if allowBlank then Value("") else Bad([FieldBlank]))
    ensures v.Some? && v.value.JStr? && Strip(v.value.s) != "" && problems(Strip(v.value.s)) != [] ==>
      r == Bad(problems(Strip(v.value.s)))
    ensures v.Some? && v.value.JStr? && Strip(v.value.s) != "" && problems(Strip(v.value.s)) == [] ==>
      r == Value(Strip(v.value.s))
  {
    match v
    case None => if required then Bad([Favorites.FieldRequired]) else Skip
    case Some(j) =>
      if j.JNull? then Bad([Favorites.FieldNull])
      else if j.JBool? || j.JList? || j.JObj? then Bad([Favorites.NotAString])
      else
        var s := Strip(Show(j));
        if s == "" then (if allowBlank then Value("") else Bad([FieldBlank]))
        else if problems(s) != [] then Bad(problems(s))
        else Value(s)
  }

  /** A validate_<field> method: it runs on the field's value only, and
      refuses it with its message. */
  function Hook(f: Field<string>, refuse: string -> bool, msg: string): (r: Field<string>)
    ensures f.Value? && refuse(f.value) ==> r == Bad([msg])
    ensures !(f.Value? && refuse(f.value)) ==> r == f
  {
    if f.Value? && refuse(f.value) then Bad([msg]) else f
  }

  /** A ChoiceField over the roles: str() of the input must be a choice. */
  function RoleField(v: Option<Json>): (r: Field<string>)
    ensures r.Bad? ==> r.msgs != []
    ensures r.Value? ==> r.value in RoleChoices
    ensures r.Skip? <==> v.None?
    ensures v.Some? && v.value.JStr? && v.value.s in RoleChoices ==> r == Value(v.value.s)
  {
    match v
    case None => Skip
    case Some(j) =>
      if j.JNull? then Bad([Favorites.FieldNull])
      else if Show(j) in RoleChoices then Value(Show(j))
      else Bad([InvalidChoice(Show(j))])
  }

  /** A BooleanField: the literal texts DRF accepts for true and false, the
      numbers 1 and 0, and the booleans themselves. */
  function BoolField(v: Option<Json>): (r: Field<bool>)
    ensures r.Bad? ==> r.msgs != []
    ensures r.Skip? <==> v.None?
    ensures v.Some? && v.value.JBool? ==> r == Value(v.value.b)
    ensures v.Some? && v.value == JStr("true") ==> r == Value(true)
    ensures v.Some? && v.value == JStr("false") ==> r == Value(false)
  {
    match v
    case None => Skip
    case Some(JNull) => Bad([Favorites.FieldNull])
    case Some(JBool(b)) => Value(b)
    case Some(JInt(i)) => if i == 1 then Value(true) else if i == 0 then Value(false) else Bad([NotABoolean])
    case Some(JNum(d)) =>
      if d.coef == Pow10(d.places) then Value(true) else if d.coef == 0 then Value(false) else Bad([NotABoolean])
    case Some(JStr(s)) =>
      if s in TrueTexts then Value(true) else if s in FalseTexts then Value(false) else Bad([NotABoolean])
    case Some(_) => Bad([NotABoolean])
  }

  const TrueTexts: set<string> := {"t", "T", "y", "Y", "yes", "Yes", "YES", "true", "True", "TRUE", "on", "On", "ON", "1"}
  const FalseTexts: set<string> := {"f", "F", "n", "N", "no", "No", "NO", "false", "False", "FALSE", "off", "Off", "OFF", "0"}

  function Msgs<T>(f: Field<T>): seq<string>
  {
    if f.Bad? then f.msgs else []
  }

  function Messages(msgs: seq<string>): Json
  {
    JList(seq(|msgs|, i requires 0 <= i < |msgs| => JStr(msgs[i])))
  }

  /** The errors dict: the fields with messages, in field order. */
  function ErrorsOf(fields: seq<(string, seq<string>)>): (r: seq<(string, Json)>)
    ensures r == [] <==> forall i :: 0 <= i < |fields| ==> fields[i].1 == []
    ensures forall i :: 0 <= i < |fields| && fields[i].1 != [] ==> (fields[i].0, Messages(fields[i].1)) in r
  {
    if fields == [] then []
    else
      var rest := ErrorsOf(fields[1..]);
      assert forall i :: 1 <= i < |fields| ==> fields[i] == fields[1..][i - 1];
      if fields[0].1 != [] then [(fields[0].0, Messages(fields[0].1))] + rest else rest
  }

  predicate UsernameTaken(t: Tables, name: string)
  {
    exists k :: k in t.users && t.users[k].username == name
  }

  /** Some user other than `except` has the phone. */
  predicate PhoneTaken(t: Tables, phone: string, except: Option<nat>)
  {
    exists k :: k in t.users && Some(k) != except && t.users[k].phone == phone
  }

  predicate EmailTaken(t: Tables, email: string)
  {
    exists k :: k in t.users && t.users[k].email == email
  }

  function NoProblems(s: string): seq<string>
  {
    []
  }

  // ------------------------------------------------------------ UserRegisterSerializer

  /** The username: Django's validators and the unique one, then
      validate_username. */
  function UsernameField(t: Tables, v: Option<Json>, check: (string, string) -> seq<string>): (r: Field<string>)
    ensures !r.Skip? && (r.Bad? ==> r.msgs != [])
    ensures r.Value? ==> !UsernameTaken(t, r.value)
  {
    Hook(UsernameBase(t, v, check), s => UsernameTaken(t, s), UsernameRegistered)
  }

  function UsernameBase(t: Tables, v: Option<Json>, check: (string, string) -> seq<string>): Field<string>
  {
    TextField(v, true, false, s => check("username", s) + (if UsernameTaken(t, s) then [UsernameUnique] else []))
  }

  /** The phone: required unless partial, unique among the users other than
      `except`; validate_phone only on registration. */
  function PhoneBase(t: Tables, v: Option<Json>, required: bool, except: Option<nat>, check: (string, string) -> seq<string>): Field<string>
  {
    TextField(v, required, false, s => check("phone", s) + (if PhoneTaken(t, s, except) then [PhoneUnique] else []))
  }

  function PhoneField(t: Tables, v: Option<Json>, check: (string, string) -> seq<string>): (r: Field<string>)
    ensures !r.Skip? && (r.Bad? ==> r.msgs != [])
    ensures r.Value? ==> !PhoneTaken(t, r.value, None)
  {
    Hook(PhoneBase(t, v, true, None, check), s => PhoneTaken(t, s, None), PhoneRegistered)
  }

  /** The e-mail: optional and may be blank; validate_email runs on whatever
      value the field gives, the empty one included. */
  function EmailField(t: Tables, v: Option<Json>, check: (string, string) -> seq<string>): (r: Field<string>)
    ensures r.Bad? ==> r.msgs != []
    ensures r.Skip? <==> v.None?
    ensures r.Value? ==> !EmailTaken(t, r.value)
  {
    Hook(TextField(v, false, true, s => check("email", s)), s => EmailTaken(t, s), EmailRegistered)
  }

  /** The two validate_<field> methods that repeat a unique validator can
      never refuse anything: the unique validator already refused the value
      (with its own message) before the method runs. */
  lemma HooksInert(t: Tables, v: Option<Json>, check: (string, string) -> seq<string>)
    ensures UsernameField(t, v, check) == UsernameBase(t, v, check)
    ensures PhoneField(t, v, check) == PhoneBase(t, v, true, None, check)
  {
    var u := UsernameBase(t, v, check);
    if u.Value? {
      assert check("username", u.value) + (if UsernameTaken(t, u.value) then [UsernameUnique] else []) == [];
    }
    var p := PhoneBase(t, v, true, None, check);
    if p.Value? {
      assert check("phone", p.value) + (if PhoneTaken(t, p.value, None) then [PhoneUnique] else []) == [];
    }
  }

  /** BaseUserManager.normalize_email: the domain after the last "@" is
      lower-cased; a text without "@" is kept. */
  function NormalizeEmail(email: string): (r: string)
    ensures |r| == |email|
    ensures '@' !in email ==> r == email
  {
    if '@' !in email then email
    else
      var at := LastAt(email);
      email[..at + 1] + ExcelImporter.Lower(email[at + 1..])
  }

  function LastAt(s: string): (i: nat)
    requires '@' in s
    ensures i < |s| && s[i] == '@' && '@' !in s[i + 1..]
  {
    if s[|s| - 1] == '@' then |s| - 1
    else
      assert '@' in s[..|s| - 1] by {
        var k :| 0 <= k < |s| && s[k] == '@';
        assert s[..|s| - 1][k] == '@';
      }
      var i := LastAt(s[..|s| - 1]);
      assert s[i + 1..] == s[..|s| - 1][i + 1..] + [s[|s| - 1]];
      i
  }

  /** create_user: the row a registration creates; password2 is not part of
      it, and an omitted role or e-mail takes the model default. */
  function NewUser(username: string, password: string, phone: string, email: Field<string>, role: Field<string>): User
  {
    User(username, password, phone,
      if email.Value? then NormalizeEmail(email.value) else "",
      if role.Value? then role.value else "user",
      "", "", false, true, false, false)
  }

  /** The six fields of UserRegisterSerializer, each as it validates alone. */
  datatype RegisterForm = RegisterForm(
    username: Field<string>, password: Field<string>, password2: Field<string>,
    phone: Field<string>, email: Field<string>, role: Field<string>)
  {
    function Errors(): seq<(string, Json)>
    {
      ErrorsOf([("username", Msgs(username)), ("password", Msgs(password)), ("password2", Msgs(password2)),
        ("phone", Msgs(phone)), ("email", Msgs(email)), ("role", Msgs(role))])
    }

    predicate Sound(t: Tables)
    {
      && !username.Skip? && !password.Skip? && !password2.Skip? && !phone.Skip?
      && (username.Value? ==> !UsernameTaken(t, username.value))
      && (phone.Value? ==> !PhoneTaken(t, phone.value, None))
      && (role.Value? ==> role.value in RoleChoices)
      && (username.Bad? ==> username.msgs != []) && (password.Bad? ==> password.msgs != [])
      && (password2.Bad? ==> password2.msgs != []) && (phone.Bad? ==> phone.msgs != [])
      && (email.Bad? ==> email.msgs != []) && (role.Bad? ==> role.msgs != [])
    }
  }

  /** Without errors, every required field has a value. */
  lemma NoErrorsAllValues(t: Tables, f: RegisterForm)
    requires f.Sound(t) && f.Errors() == []
    ensures f.username.Value? && f.password.Value? && f.password2.Value? && f.phone.Value?
    ensures !f.email.Bad? && !f.role.Bad?
  {
    var fields := [("username", Msgs(f.username)), ("password", Msgs(f.password)), ("password2", Msgs(f.password2)),
        ("phone", Msgs(f.phone)), ("email", Msgs(f.email)), ("role", Msgs(f.role))];
    assert fields[0].1 == [] && fields[1].1 == [] && fields[2].1 == [];
    assert fields[3].1 == [] && fields[4].1 == [] && fields[5].1 == [];
  }

  function ReadRegister(t: Tables, body: map<string, Json>, check: (string, string) -> seq<string>): (f: RegisterForm)
    ensures f.Sound(t)
  {
    RegisterForm(
      UsernameField(t, Favorites.Opt(body, "username"), check),
      TextField(Favorites.Opt(body, "password"), true, false, s => check("password", s)),
      TextField(Favorites.Opt(body, "password2"), true, false, NoProblems),
      PhoneField(t, Favorites.Opt(body, "phone"), check),
      EmailField(t, Favorites.Opt(body, "email"), check),
      RoleField(Favorites.Opt(body, "role")))
  }

  /** UserRegisterSerializer on a request body: the fields, then validate()'s
      refusal of two different passwords, then create(). */
  function RegisterCheck(t: Tables, body: map<string, Json>, check: (string, string) -> seq<string>): (r: Favorites.Checked<User>)
    ensures r.Accepted? ==> !UsernameTaken(t, r.value.username) && !PhoneTaken(t, r.value.phone, None)
    ensures r.Accepted? ==> r.value.role in RoleChoices && r.value.active && !r.value.staff && !r.value.superuser
    ensures r.Rejected? ==> r.errors != []
  {
    var f := ReadRegister(t, body, check);
    if f.Errors() != [] then Favorites.Rejected(f.Errors())
    else
      NoErrorsAllValues(t, f);
      if f.password.value != f.password2.value then Favorites.Rejected([("password", Messages([PasswordsDiffer]))])
      else Favorites.Accepted(NewUser(f.username.value, f.password.value, f.phone.value, f.email, f.role))
  }

  /** Both password fields read as the stored password, and two readable
      passwords that differ are refused. */
  lemma RegisterPasswordsAgree(t: Tables, body: map<string, Json>, check: (string, string) -> seq<string>)
    ensures var r, f := RegisterCheck(t, body, check), ReadRegister(t, body, check);
      r.Accepted? ==> f.password == Value(r.value.password) && f.password2 == Value(r.value.password)
    ensures var r, f := RegisterCheck(t, body, check), ReadRegister(t, body, check);
      f.password.Value? && f.password2.Value? && f.password.value != f.password2.value ==> r.Rejected?
  {
    var f := ReadRegister(t, body, check);
    if f.Errors() == [] {
      NoErrorsAllValues(t, f);
    }
  }

  /** A username or phone already registered, or an e-mail some user already
      has (the empty one included, when the body sends it), is refused under
      that field's name. The username and phone are refused by their unique
      validators, after Django's own messages for the value. */
  lemma RegisterRefusesTaken(t: Tables, body: map<string, Json>, check: (string, string) -> seq<string>)
    ensures var r, name := RegisterCheck(t, body, check), Favorites.Opt(body, "username");
      name.Some? && name.value.JStr? && Strip(name.value.s) != "" && UsernameTaken(t, Strip(name.value.s)) ==>
        r.Rejected? && ("username", Messages(check("username", Strip(name.value.s)) + [UsernameUnique])) in r.errors
    ensures var r, phone := RegisterCheck(t, body, check), Favorites.Opt(body, "phone");
      phone.Some? && phone.value.JStr? && Strip(phone.value.s) != "" && PhoneTaken(t, Strip(phone.value.s), None) ==>
        r.Rejected? && ("phone", Messages(check("phone", Strip(phone.value.s)) + [PhoneUnique])) in r.errors
    ensures var r, email := RegisterCheck(t, body, check), Favorites.Opt(body, "email");
      email.Some? && email.value.JStr? && EmailTaken(t, Strip(email.value.s))
      && (Strip(email.value.s) == "" || check("email", Strip(email.value.s)) == []) ==>
        r.Rejected? && ("email", Messages([EmailRegistered])) in r.errors
  {
    var f := ReadRegister(t, body, check);
    HooksInert(t, Favorites.Opt(body, "username"), check);
    HooksInert(t, Favorites.Opt(body, "phone"), check);
    RegisterErrorsListed(t, body, check);
  }

  /** Every field that fails is reported under its name. */
  lemma RegisterErrorsListed(t: Tables, body: map<string, Json>, check: (string, string) -> seq<string>)
    ensures var f, r := ReadRegister(t, body, check), RegisterCheck(t, body, check);
      f.username.Bad? ==> r.Rejected? && ("username", Messages(f.username.msgs)) in r.errors
    ensures var f, r := ReadRegister(t, body, check), RegisterCheck(t, body, check);
      f.phone.Bad? ==> r.Rejected? && ("phone", Messages(f.phone.msgs)) in r.errors
    ensures var f, r := ReadRegister(t, body, check), RegisterCheck(t, body, check);
      f.email.Bad? ==> r.Rejected? && ("email", Messages(f.email.msgs)) in r.errors
  {
    var f := ReadRegister(t, body, check);
    var fields := [("username", Msgs(f.username)), ("password", Msgs(f.password)), ("password2", Msgs(f.password2)),
        ("phone", Msgs(f.phone)), ("email", Msgs(f.email)), ("role", Msgs(f.role))];
    assert f.Errors() == ErrorsOf(fields);
    assert fields[0].0 == "username" && fields[3].0 == "phone" && fields[4].0 == "email";
  }

  /** create() drops password2: two bodies that differ only in it create
      the same user when both are accepted. */
  lemma RegisterIgnoresPassword2(t: Tables, body: map<string, Json>, other: Json, check: (string, string) -> seq<string>)
    ensures var r, r' := RegisterCheck(t, body, check), RegisterCheck(t, body["password2" := other], check);
      r.Accepted? && r'.Accepted? ==> r.value == r'.value
  {
    var body' := body["password2" := other];
    assert forall k :: k != "password2" ==> Favorites.Opt(body', k) == Favorites.Opt(body, k);
  }

  /** The role is whatever the request names among the three choices, and
      "user" when it names none: anyone can register an administrator. */
  lemma RegisterChoosesRole(t: Tables, body: map<string, Json>, check: (string, string) -> seq<string>, id: nat)
    ensures var r := RegisterCheck(t, body, check);
      r.Accepted? && "role" !in body ==> r.value.role == "user"
    ensures var r := RegisterCheck(t, body, check);
      r.Accepted? && "role" in body && body["role"] == JStr("admin") ==> IsAdminUser(Member(id, r.value))
  {
    var f := ReadRegister(t, body, check);
    if f.Errors() == [] {
      NoErrorsAllValues(t, f);
    }
  }

  /** UserSerializer: the public fields of a user; never the password. */
  function UserJson(id: nat, u: User): (j: Json)
    ensures j.JObj? && forall i :: 0 <= i < |j.entries| ==> j.entries[i].0 != "password"
  {
    JObj([("id", JInt(id)), ("username", JStr(u.username)), ("phone", JStr(u.phone)), ("email", JStr(u.email)),
      ("role", JStr(u.role)), ("real_name", JStr(u.realName)), ("company", JStr(u.company)),
      ("is_verified", JBool(u.verified)), ("is_active", JBool(u.active)), ("is_superuser", JBool(u.superuser))])
  }

  /** POST /api/users/register/: open to anyone. */
  method Register(db: Db, body: map<string, Json>, check: (string, string) -> seq<string>) returns (resp: Response)
    requires db.Valid()
    modifies db
    ensures db.Valid()
    ensures RegisterCheck(old(db.tables), body, check).Rejected? ==>
      && db.tables == old(db.tables)
      && resp == ErrorResponse("注册失败", 400, JObj(RegisterCheck(old(db.tables), body, check).errors))
    ensures RegisterCheck(old(db.tables), body, check).Accepted? ==>
      var u := RegisterCheck(old(db.tables), body, check).value;
      && db.tables == old(db.tables).(users := old(db.tables.users)[old(db.tables.nextId) := u], nextId := old(db.tables.nextId) + 1)
      && resp == SuccessResponse(JObj([("user", UserJson(old(db.tables.nextId), u)), ("message", JStr("注册成功"))]), "注册成功")
  {
    var checked := RegisterCheck(db.tables, body, check);
    if checked.Rejected? {
      return ErrorResponse("注册失败", 400, JObj(checked.errors));
    }
    var id := InsertUser(db, checked.value);
    resp := SuccessResponse(JObj([("user", UserJson(id, checked.value)), ("message", JStr("注册成功"))]), "注册成功");
  }

  /** POST /api/users/: the same serializer, for an administrator. */
  method Create(db: Db, me: Principal, body: map<string, Json>, check: (string, string) -> seq<string>) returns (resp: Response)
    requires db.Valid()
    modifies db
    ensures db.Valid()
    ensures Gate("create", me).Some? ==> resp == Gate("create", me).value && db.tables == old(db.tables)
    ensures Gate("create", me).None? && RegisterCheck(old(db.tables), body, check).Rejected? ==>
      && db.tables == old(db.tables)
      && resp == ErrorResponse("创建失败", 400, JObj(RegisterCheck(old(db.tables), body, check).errors))
    ensures Gate("create", me).None? && RegisterCheck(old(db.tables), body, check).Accepted? ==>
      var u := RegisterCheck(old(db.tables), body, check).value;
      && db.tables == old(db.tables).(users := old(db.tables.users)[old(db.tables.nextId) := u], nextId := old(db.tables.nextId) + 1)
      && resp == SuccessResponse(UserJson(old(db.tables.nextId), u), "用户创建成功", 201)
  {
    var refusal := Gate("create", me);
    if refusal.Some? {
      return refusal.value;
    }
    var checked := RegisterCheck(db.tables, body, check);
    if checked.Rejected? {
      return ErrorResponse("创建失败", 400, JObj(checked.errors));
    }
    var id := InsertUser(db, checked.value);
    resp := SuccessResponse(UserJson(id, checked.value), "用户创建成功", 201);
  }

  /** User.objects.create_user on the store. */
  method InsertUser(db: Db, u: User) returns (id: nat)
    requires db.Valid() && !UsernameTaken(db.tables, u.username) && !PhoneTaken(db.tables, u.phone, None)
    modifies db
    ensures db.Valid() && id == old(db.tables.nextId)
    ensures db.tables == old(db.tables).(users := old(db.tables.users)[id := u], nextId := id + 1)
  {
    forall k | k in db.tables.users
      ensures db.tables.users[k].username != u.username && db.tables.users[k].phone != u.phone
    {
      assert db.tables.users[k] == db.tables.users[k];
    }
    id := db.AddUser(u);
  }

  // ------------------------------------------------------------ login

  function UsernameIs(name: string): User -> bool
  {
    (u: User) => u.username == name
  }

  /** authenticate() with the model backend: the user with that username,
      when the password matches and the account is active. */
  function Authenticate(t: Tables, username: string, password: string): (r: Option<nat>)
    ensures r.Some? ==>
      && r.value in t.users && t.users[r.value].username == username
      && t.users[r.value].password == password && t.users[r.value].active
  {
    match FirstKey(t.users, UsernameIs(username), 0, t.nextId)
    case None => None
    case Some(k) => if t.users[k].password == password && t.users[k].active then Some(k) else None
  }

  /** In a consistent store authentication fails only when no active user
      has that username and password. */
  lemma AuthenticateExactly(t: Tables, username: string, password: string)
    requires t.Valid()
    ensures Authenticate(t, username, password).None? <==>
      forall k :: k in t.users && t.users[k].username == username ==> t.users[k].password != password || !t.users[k].active
  {
    if Authenticate(t, username, password).None? {
      forall k | k in t.users && t.users[k].username == username
        ensures t.users[k].password != password || !t.users[k].active
      {
        assert UsernameIs(username)(t.users[k]);
        var first := FirstKey(t.users, UsernameIs(username), 0, t.nextId);
        assert first.Some?;
        assert first.value == k;
      }
    }
  }

  /** POST /api/users/login/: tokens(id) is the (access, refresh) pair
      simplejwt issues for the user. */
  function Login(t: Tables, body: map<string, Json>, tokens: nat -> (string, string)): (r: Response)
  {
    var username := TextField(Favorites.Opt(body, "username"), true, false, NoProblems);
    var password := TextField(Favorites.Opt(body, "password"), true, false, NoProblems);
    var errors := ErrorsOf([("username", Msgs(username)), ("password", Msgs(password))]);
    if errors != [] then ErrorResponse("参数错误", 400, JObj(errors))
    else
      assert [("username", Msgs(username)), ("password", Msgs(password))][0].1 == [];
      assert [("username", Msgs(username)), ("password", Msgs(password))][1].1 == [];
      Welcome(t, username.value, password.value, tokens)
  }

  /** The answer to a well-formed login. */
  function Welcome(t: Tables, username: string, password: string, tokens: nat -> (string, string)): (r: Response)
  {
    match Authenticate(t, username, password)
    case None => ErrorResponse(BadCredentials, 401)
    case Some(k) =>
      SuccessResponse(JObj([("user", UserJson(k, t.users[k])), ("access", JStr(tokens(k).0)), ("refresh", JStr(tokens(k).1))]), "登录成功")
  }

  /** A body with two non-blank texts is well formed; they are trimmed. */
  lemma LoginWellFormed(t: Tables, name: string, password: string, tokens: nat -> (string, string))
    requires Strip(name) != "" && Strip(password) != ""
    ensures Login(t, map["username" := JStr(name), "password" := JStr(password)], tokens)
      == Welcome(t, Strip(name), Strip(password), tokens)
  {
    var body := map["username" := JStr(name), "password" := JStr(password)];
    LoginTexts(body, name, password);
    LoginOfTexts(t, body, Strip(name), Strip(password), tokens);
  }

  lemma LoginOfTexts(t: Tables, body: map<string, Json>, name: string, password: string, tokens: nat -> (string, string))
    requires TextField(Favorites.Opt(body, "username"), true, false, NoProblems) == Value(name)
    requires TextField(Favorites.Opt(body, "password"), true, false, NoProblems) == Value(password)
    ensures Login(t, body, tokens) == Welcome(t, name, password, tokens)
  {
  }

  lemma LoginTexts(body: map<string, Json>, name: string, password: string)
    requires body == map["username" := JStr(name), "password" := JStr(password)]
    requires Strip(name) != "" && Strip(password) != ""
    ensures TextField(Favorites.Opt(body, "username"), true, false, NoProblems) == Value(Strip(name))
    ensures TextField(Favorites.Opt(body, "password"), true, false, NoProblems) == Value(Strip(password))
  {
    assert Favorites.Opt(body, "username") == Some(JStr(name));
    assert Favorites.Opt(body, "password") == Some(JStr(password));
  }

  /** Login succeeds exactly for the (trimmed) username and password of an
      active user; wrong credentials give code 401, sent with HTTP status
      400 since only the envelope's code carries it. */
  lemma LoginOutcome(t: Tables, name: string, password: string, tokens: nat -> (string, string))
    requires t.Valid() && Strip(name) != "" && Strip(password) != ""
    ensures var r := Login(t, map["username" := JStr(name), "password" := JStr(password)], tokens);
      && (r.msg == "登录成功" <==> HasLogin(t, Strip(name), Strip(password)))
      && (r.msg != "登录成功" ==> r == Response(401, BadCredentials, JObj([]), 400))
  {
    LoginWellFormed(t, name, password, tokens);
    AuthenticateExactly(t, Strip(name), Strip(password));
  }

  /** Some active user has that username and password. */
  predicate HasLogin(t: Tables, username: string, password: string)
  {
    exists k :: k in t.users && t.users[k].username == username && t.users[k].password == password && t.users[k].active
  }

  // ------------------------------------------------------------ list

  /** The query parameters of the list, absent ones as "". */
  datatype UserQuery = UserQuery(search: string, role: string, isActive: string)

  function QueryOf(search: Option<string>, role: Option<string>, isActive: Option<string>): UserQuery
  {
    UserQuery(search.GetOr(""), role.GetOr(""), isActive.GetOr(""))
  }

  /** q occurs in s at position i, ignoring ASCII case. */
  predicate FoldedAt(s: string, q: string, i: nat)
  {
    i + |q| <= |s| && ExcelImporter.Lower(s[i..i + |q|]) == ExcelImporter.Lower(q)
  }

  /** __icontains. */
  predicate ContainsFolded(s: string, q: string)
  {
    exists i: nat :: i <= |s| && FoldedAt(s, q, i)
  }

  /** The filters of list: a search over four columns (any of them), the
      exact role, and is_active compared with whether the parameter
      lower-cases to "true". */
  predicate Matches(u: User, q: UserQuery)
  {
    && (q.search == "" || ContainsFolded(u.username, q.search) || ContainsFolded(u.phone, q.search)
        || ContainsFolded(u.realName, q.search) || ContainsFolded(u.email, q.search))
    && (q.role == "" || u.role == q.role)
    && (q.isActive == "" || u.active == (ExcelImporter.Lower(q.isActive) == "true"))
  }

  /** The ids below bound of the users that match, newest (largest id,
      latest date_joined) first. */
  function Listed(t: Tables, q: UserQuery, bound: nat): (r: seq<nat>)
    ensures forall k :: k in r <==> k < bound && k in t.users && Matches(t.users[k], q)
    ensures forall i, j :: 0 <= i < j < |r| ==> r[i] > r[j]
  {
    if bound == 0 then []
    else
      var rest := Listed(t, q, bound - 1);
      if bound - 1 in t.users && Matches(t.users[bound - 1], q) then
        MembersBelow(rest, bound - 1);
        DescendingCons(bound - 1, rest);
        [bound - 1] + rest
      else rest
  }

  lemma MembersBelow(xs: seq<nat>, b: nat)
    requires forall k :: k in xs ==> k < b
    ensures forall j :: 0 <= j < |xs| ==> xs[j] < b
  {
    assert forall j :: 0 <= j < |xs| ==> xs[j] in xs;
  }

  lemma DescendingCons(b: nat, xs: seq<nat>)
    requires forall j :: 0 <= j < |xs| ==> xs[j] < b
    requires forall i, j :: 0 <= i < j < |xs| ==> xs[i] > xs[j]
    ensures forall i, j :: 0 <= i < j < |[b] + xs| ==> ([b] + xs)[i] > ([b] + xs)[j]
  {
  }

  /** GET /api/users/: the filtered users ordered by -date_joined. */
  function ListUsers(t: Tables, q: UserQuery): (r: seq<nat>)
    requires t.IdsBelow()
    ensures forall k :: k in r <==> k in t.users && Matches(t.users[k], q)
    ensures forall i, j :: 0 <= i < j < |r| ==> r[i] > r[j]
  {
    Listed(t, q, t.nextId)
  }

  /** The is_active filter takes only "true" in any case as true: "1" or
      "yes" select the inactive users; an empty query selects everyone. */
  lemma ActiveFilter(u: User)
    ensures Matches(u, UserQuery("", "", "True")) <==> u.active
    ensures Matches(u, UserQuery("", "", "1")) <==> !u.active
    ensures Matches(u, UserQuery("", "", ""))
  {
    assert ExcelImporter.Lower("True") == "true";
    assert ExcelImporter.Lower("1") == "1";
  }

  /** A search term matches a user whose username contains it, in any ASCII
      case. */
  lemma SearchFindsUsername(u: User, q: string, i: nat)
    requires q != "" && i + |q| <= |u.username| && ExcelImporter.Lower(u.username[i..i + |q|]) == ExcelImporter.Lower(q)
    ensures Matches(u, UserQuery(q, "", ""))
  {
    assert FoldedAt(u.username, q, i);
  }

  // ------------------------------------------------------------ update

  /** The writable fields of AdminUserUpdateSerializer (username is
      read-only: the body's username is ignored), also used for
      UserUpdateSerializer with the fields it lacks skipped. */
  datatype UpdateForm = UpdateForm(
    email: Field<string>, phone: Field<string>, realName: Field<string>, company: Field<string>,
    role: Field<string>, active: Field<bool>, verified: Field<bool>)
  {
    function Errors(): seq<(string, Json)>
    {
      ErrorsOf([("email", Msgs(email)), ("phone", Msgs(phone)), ("real_name", Msgs(realName)),
        ("company", Msgs(company)), ("role", Msgs(role)), ("is_active", Msgs(active)), ("is_verified", Msgs(verified))])
    }
  }

  /** The admin's form for user id: on PUT (not partial) the phone is
      required; it must not be another user's. */
  function ReadAdminUpdate(t: Tables, id: nat, body: map<string, Json>, partial: bool, check: (string, string) -> seq<string>): (f: UpdateForm)
    ensures f.phone.Value? ==> !PhoneTaken(t, f.phone.value, Some(id))
    ensures f.phone.Skip? <==> partial && "phone" !in body
    ensures f.email.Skip? <==> "email" !in body
    ensures f.realName.Skip? <==> "real_name" !in body
    ensures f.company.Skip? <==> "company" !in body
    ensures f.role.Skip? <==> "role" !in body
    ensures f.active.Skip? <==> "is_active" !in body
    ensures f.verified.Skip? <==> "is_verified" !in body
    ensures f.role.Value? ==> f.role.value in RoleChoices
  {
    UpdateForm(
      TextField(Favorites.Opt(body, "email"), false, true, s => check("email", s)),
      PhoneBase(t, Favorites.Opt(body, "phone"), !partial, Some(id), check),
      TextField(Favorites.Opt(body, "real_name"), false, true, s => check("real_name", s)),
      TextField(Favorites.Opt(body, "company"), false, true, s => check("company", s)),
      RoleField(Favorites.Opt(body, "role")),
      BoolField(Favorites.Opt(body, "is_active")),
      BoolField(Favorites.Opt(body, "is_verified")))
  }

  /** save(): the fields that have a value replace the row's; the others
      stay as they were. */
  function Applied(u: User, f: UpdateForm): User
  {
    u.(email := if f.email.Value? then f.email.value else u.email,
       phone := if f.phone.Value? then f.phone.value else u.phone,
       realName := if f.realName.Value? then f.realName.value else u.realName,
       company := if f.company.Value? then f.company.value else u.company,
       role := if f.role.Value? then f.role.value else u.role,
       active := if f.active.Value? then f.active.value else u.active,
       verified := if f.verified.Value? then f.verified.value else u.verified)
  }

  function AdminUpdateCheck(t: Tables, id: nat, body: map<string, Json>, partial: bool, check: (string, string) -> seq<string>): (r: Favorites.Checked<User>)
    requires id in t.users
    ensures r.Accepted? ==> r.value.username == t.users[id].username
    ensures r.Accepted? ==> r.value.phone == t.users[id].phone || !PhoneTaken(t, r.value.phone, Some(id))
    ensures r.Rejected? ==> r.errors != []
  {
    var f := ReadAdminUpdate(t, id, body, partial, check);
    if f.Errors() != [] then Favorites.Rejected(f.Errors()) else Favorites.Accepted(Applied(t.users[id], f))
  }

  /** The admin update never touches the username, the password or the
      staff and superuser flags; a column the body does not name keeps its
      value; PUT without a phone is refused. */
  lemma AdminUpdateKeeps(t: Tables, id: nat, body: map<string, Json>, partial: bool, check: (string, string) -> seq<string>)
    requires id in t.users
    ensures var r, u := AdminUpdateCheck(t, id, body, partial, check), t.users[id];
      r.Accepted? ==>
        && r.value.username == u.username && r.value.password == u.password
        && r.value.staff == u.staff && r.value.superuser == u.superuser
        && ("email" !in body ==> r.value.email == u.email)
        && ("phone" !in body ==> r.value.phone == u.phone)
        && ("role" !in body ==> r.value.role == u.role)
        && ("is_active" !in body ==> r.value.active == u.active)
    ensures !partial && "phone" !in body ==>
      AdminUpdateCheck(t, id, body, partial, check).Rejected?
      && ("phone", Messages([Favorites.FieldRequired])) in AdminUpdateCheck(t, id, body, partial, check).errors
  {
    var f := ReadAdminUpdate(t, id, body, partial, check);
    var fields := [("email", Msgs(f.email)), ("phone", Msgs(f.phone)), ("real_name", Msgs(f.realName)),
        ("company", Msgs(f.company)), ("role", Msgs(f.role)), ("is_active", Msgs(f.active)), ("is_verified", Msgs(f.verified))];
    assert f.Errors() == ErrorsOf(fields);
    if !partial && "phone" !in body {
      assert Favorites.Opt(body, "phone").None?;
      assert fields[1] == ("phone", [Favorites.FieldRequired]);
    }
  }

  /** PUT or PATCH /api/users/{pk}/: for an administrator. */
  method Update(db: Db, me: Principal, pk: int, body: map<string, Json>, partial: bool, check: (string, string) -> seq<string>)
    returns (resp: Response)
    requires db.Valid()
    modifies db
    ensures db.Valid()
    ensures Gate(if partial then "partial_update" else "update", me).Some? ==>
      resp == Gate(if partial then "partial_update" else "update", me).value && db.tables == old(db.tables)
    ensures Gate(if partial then "partial_update" else "update", me).None? && !Favorites.IsKey(old(db.tables.users), pk) ==>
      resp == NotFound && db.tables == old(db.tables)
    ensures Gate(if partial then "partial_update" else "update", me).None? && Favorites.IsKey(old(db.tables.users), pk) ==>
      var r := AdminUpdateCheck(old(db.tables), pk as nat, body, partial, check);
      && (r.Rejected? ==> resp == ErrorResponse("更新失败", 400, JObj(r.errors)) && db.tables == old(db.tables))
      && (r.Accepted? ==>
            && db.tables == old(db.tables).(users := old(db.tables.users)[pk as nat := r.value])
            && resp == SuccessResponse(UserJson(pk as nat, r.value), "用户更新成功"))
  {
    var refusal := Gate(if partial then "partial_update" else "update", me);
    if refusal.Some? {
      return refusal.value;
    }
    if !Favorites.IsKey(db.tables.users, pk) {
      return NotFound;
    }
    var id := pk as nat;
    var checked := AdminUpdateCheck(db.tables, id, body, partial, check);
    if checked.Rejected? {
      return ErrorResponse("更新失败", 400, JObj(checked.errors));
    }
    SaveUser(db, id, checked.value);
    resp := SuccessResponse(UserJson(id, checked.value), "用户更新成功");
  }

  /** Saving a row that keeps its username and either keeps its phone or
      takes one nobody else has. */
  method SaveUser(db: Db, id: nat, u: User)
    requires db.Valid() && id in db.tables.users && u.username == db.tables.users[id].username
    requires u.phone == db.tables.users[id].phone || !PhoneTaken(db.tables, u.phone, Some(id))
    modifies db
    ensures db.Valid()
    ensures db.tables == old(db.tables).(users := old(db.tables.users)[id := u])
  {
    forall k | k in db.tables.users && k != id
      ensures db.tables.users[k].username != u.username && db.tables.users[k].phone != u.phone
    {
      assert db.tables.users[k] == db.tables.users[k];
    }
    db.SetUser(id, u);
  }

  /** request.user is the row of the signed-in user. */
  predicate Current(t: Tables, me: Principal)
  {
    me.Member? ==> me.id in t.users && t.users[me.id] == me.user
  }

  /** UserUpdateSerializer, always partial: e-mail, real name and company. */
  function ReadProfileUpdate(body: map<string, Json>, check: (string, string) -> seq<string>): (f: UpdateForm)
    ensures f.phone.Skip? && f.role.Skip? && f.active.Skip? && f.verified.Skip?
  {
    UpdateForm(
      TextField(Favorites.Opt(body, "email"), false, true, s => check("email", s)),
      Skip,
      TextField(Favorites.Opt(body, "real_name"), false, true, s => check("real_name", s)),
      TextField(Favorites.Opt(body, "company"), false, true, s => check("company", s)),
      Skip, Skip, Skip)
  }

  /** A user editing their own profile cannot change their username, phone,
      role, activity, verification or password, whatever the body holds. */
  lemma ProfileCannotEscalate(u: User, body: map<string, Json>, check: (string, string) -> seq<string>)
    ensures var v := Applied(u, ReadProfileUpdate(body, check));
      && v.username == u.username && v.phone == u.phone && v.role == u.role && v.password == u.password
      && v.active == u.active && v.verified == u.verified && v.staff == u.staff && v.superuser == u.superuser
  {
  }

  /** PUT or PATCH /api/users/update_profile/. */
  method UpdateProfile(db: Db, me: Principal, body: map<string, Json>, check: (string, string) -> seq<string>)
    returns (resp: Response)
    requires db.Valid() && Current(db.tables, me)
    modifies db
    ensures db.Valid()
    ensures !me.Member? ==> resp == Unauthenticated && db.tables == old(db.tables)
    ensures me.Member? ==>
      var f := ReadProfileUpdate(body, check);
      && (f.Errors() != [] ==> resp == ErrorResponse("更新失败", 400, JObj(f.Errors())) && db.tables == old(db.tables))
      && (f.Errors() == [] ==>
            var v := Applied(old(db.tables.users)[me.id], f);
            && db.tables == old(db.tables).(users := old(db.tables.users)[me.id := v])
            && resp == SuccessResponse(JObj([("email", JStr(v.email)), ("real_name", JStr(v.realName)), ("company", JStr(v.company))]), "更新成功"))
  {
    if !me.Member? {
      return Unauthenticated;
    }
    var f := ReadProfileUpdate(body, check);
    if f.Errors() != [] {
      return ErrorResponse("更新失败", 400, JObj(f.Errors()));
    }
    var v := Applied(db.tables.users[me.id], f);
    SaveUser(db, me.id, v);
    resp := SuccessResponse(JObj([("email", JStr(v.email)), ("real_name", JStr(v.realName)), ("company", JStr(v.company))]), "更新成功");
  }

  // ------------------------------------------------------------ password

  /** The three fields of PasswordChangeSerializer. */
  datatype PasswordForm = PasswordForm(oldPassword: Field<string>, newPassword: Field<string>, newPassword2: Field<string>)
  {
    function Errors(): seq<(string, Json)>
    {
      ErrorsOf([("old_password", Msgs(oldPassword)), ("new_password", Msgs(newPassword)), ("new_password2", Msgs(newPassword2))])
    }

    /** Every field is required, and a refused field says why. */
    predicate Sound()
    {
      && !oldPassword.Skip? && !newPassword.Skip? && !newPassword2.Skip?
      && (oldPassword.Bad? ==> oldPassword.msgs != []) && (newPassword.Bad? ==> newPassword.msgs != [])
      && (newPassword2.Bad? ==> newPassword2.msgs != [])
    }
  }

  /** Only the new password goes through the password validators. */
  function ReadPasswordChange(body: map<string, Json>, check: (string, string) -> seq<string>): (f: PasswordForm)
    ensures f.Sound()
    ensures f.newPassword.Value? ==> check("new_password", f.newPassword.value) == []
  {
    PasswordForm(
      TextField(Favorites.Opt(body, "old_password"), true, false, NoProblems),
      TextField(Favorites.Opt(body, "new_password"), true, false, s => check("new_password", s)),
      TextField(Favorites.Opt(body, "new_password2"), true, false, NoProblems))
  }

  lemma NoPasswordErrors(f: PasswordForm)
    requires f.Sound() && f.Errors() == []
    ensures f.oldPassword.Value? && f.newPassword.Value? && f.newPassword2.Value?
  {
    var fields := [("old_password", Msgs(f.oldPassword)), ("new_password", Msgs(f.newPassword)), ("new_password2", Msgs(f.newPassword2))];
    assert fields[0].1 == [] && fields[1].1 == [] && fields[2].1 == [];
  }

  /** The serializer's verdict: the (old, new) passwords, or its errors. */
  function PasswordCheck(body: map<string, Json>, check: (string, string) -> seq<string>): (r: Favorites.Checked<(string, string)>)
    ensures r.Accepted? ==> r.value.1 != "" && check("new_password", r.value.1) == []
    ensures r.Rejected? ==> r.errors != []
  {
    var f := ReadPasswordChange(body, check);
    if f.Errors() != [] then Favorites.Rejected(f.Errors())
    else
      NoPasswordErrors(f);
      if f.newPassword.value != f.newPassword2.value then Favorites.Rejected([("new_password", Messages([PasswordsDiffer]))])
      else Favorites.Accepted((f.oldPassword.value, f.newPassword.value))
  }

  /** The two new-password fields agree on what is accepted, and two readable
      ones that differ are refused under new_password. */
  lemma PasswordCheckAgree(body: map<string, Json>, check: (string, string) -> seq<string>)
    ensures var r, f := PasswordCheck(body, check), ReadPasswordChange(body, check);
      r.Accepted? ==> f.newPassword == Value(r.value.1) && f.newPassword2 == Value(r.value.1) && f.oldPassword == Value(r.value.0)
    ensures var r, f := PasswordCheck(body, check), ReadPasswordChange(body, check);
      f.oldPassword.Value? && f.newPassword.Value? && f.newPassword2.Value? && f.newPassword.value != f.newPassword2.value ==>
        r == Favorites.Rejected([("new_password", Messages([PasswordsDiffer]))])
  {
    var f := ReadPasswordChange(body, check);
    if f.Errors() == [] {
      NoPasswordErrors(f);
    }
    if f.oldPassword.Value? && f.newPassword.Value? && f.newPassword2.Value? {
      PasswordFormClean(f);
    }
  }

  lemma PasswordFormClean(f: PasswordForm)
    requires f.oldPassword.Value? && f.newPassword.Value? && f.newPassword2.Value?
    ensures f.Errors() == []
  {
    var fields := [("old_password", Msgs(f.oldPassword)), ("new_password", Msgs(f.newPassword)), ("new_password2", Msgs(f.newPassword2))];
    assert forall i :: 0 <= i < |fields| ==> fields[i].1 == [];
  }

  /** POST /api/users/change_password/ on the tables: the new state and the
      response. */
  function ChangePasswordOn(t: Tables, me: Principal, body: map<string, Json>, check: (string, string) -> seq<string>): (Tables, Response)
    requires Current(t, me)
  {
    if !me.Member? then (t, Unauthenticated)
    else match PasswordCheck(body, check)
      case Rejected(errors) => (t, ErrorResponse("参数错误", 400, JObj(errors)))
      case Accepted(pw) =>
        if t.users[me.id].password != pw.0 then (t, ErrorResponse(OldPasswordWrong, 400))
        else (t.(users := t.users[me.id := t.users[me.id].(password := pw.1)]), SuccessResponse(JNull, "密码修改成功"))
  }

  /** A changed password keeps the store consistent. */
  lemma PasswordSetValid(t: Tables, id: nat, password: string, r: Tables)
    requires t.Valid() && id in t.users
    requires r == t.(users := t.users[id := t.users[id].(password := password)])
    ensures r.Valid()
  {
    var u := t.users[id].(password := password);
    assert forall k :: k in t.users && k != id ==> t.users[k].username != u.username && t.users[k].phone != u.phone;
    UserSavedValid(t, id, u, t.nextId, r);
  }

  /** The password changes only when the old one is given right, and only
      the caller's; anything else changes nothing. Afterwards the new
      password signs the caller in (if active) and a different old one no
      longer does. */
  lemma ChangePasswordOutcome(t: Tables, me: Principal, body: map<string, Json>, check: (string, string) -> seq<string>)
    requires t.Valid() && Current(t, me)
    ensures var r, c := ChangePasswordOn(t, me, body, check), PasswordCheck(body, check);
      r.1.code == 200 <==> me.Member? && c.Accepted? && t.users[me.id].password == c.value.0
    ensures var r := ChangePasswordOn(t, me, body, check);
      r.1.code != 200 ==> r.0 == t
    ensures var r, c := ChangePasswordOn(t, me, body, check), PasswordCheck(body, check);
      r.1.code == 200 ==>
        && r.0.Valid() && r.0.users.Keys == t.users.Keys
        && (forall k :: k in t.users && k != me.id ==> r.0.users[k] == t.users[k])
        && r.0.users[me.id] == me.user.(password := c.value.1)
        && Authenticate(r.0, me.user.username, c.value.1) == (if me.user.active then Some(me.id) else None)
        && (c.value.0 != c.value.1 ==> Authenticate(r.0, me.user.username, c.value.0).None?)
  {
    var r, c := ChangePasswordOn(t, me, body, check), PasswordCheck(body, check);
    if r.1.code == 200 {
      PasswordChanged(t, me.id, c.value.0, c.value.1);
    }
  }

  /** Replacing a user's password (the one given) by a new one (taken) in a
      consistent store: only that user changes, and the new password signs
      them in while the old one no longer does. */
  lemma PasswordChanged(t: Tables, id: nat, given: string, taken: string)
    requires t.Valid() && id in t.users && t.users[id].password == given
    ensures var s := t.(users := t.users[id := t.users[id].(password := taken)]);
      && s.Valid() && s.users.Keys == t.users.Keys
      && (forall k :: k in t.users && k != id ==> s.users[k] == t.users[k])
      && Authenticate(s, t.users[id].username, taken) == (if t.users[id].active then Some(id) else None)
      && (given != taken ==> Authenticate(s, t.users[id].username, given).None?)
  {
    var s := t.(users := t.users[id := t.users[id].(password := taken)]);
    PasswordSetValid(t, id, taken, s);
    SignsInExactly(s, id, taken);
    SignsInExactly(s, id, given);
  }

  /** In a consistent store, a user's username and a password sign in as
      that user exactly when the password is theirs and they are active. */
  lemma SignsInExactly(t: Tables, id: nat, password: string)
    requires t.Valid() && id in t.users
    ensures Authenticate(t, t.users[id].username, password) ==
      (if t.users[id].password == password && t.users[id].active then Some(id) else None)
  {
    AuthenticateExactly(t, t.users[id].username, password);
  }

  /** The view on the store. */
  method ChangePassword(db: Db, me: Principal, body: map<string, Json>, check: (string, string) -> seq<string>)
    returns (resp: Response)
    requires db.Valid() && Current(db.tables, me)
    modifies db
    ensures db.Valid()
    ensures (db.tables, resp) == ChangePasswordOn(old(db.tables), me, body, check)
  {
    var r := ChangePasswordOn(db.tables, me, body, check);
    if r.0 != db.tables {
      var pw := PasswordCheck(body, check).value.1;
      PasswordSetValid(db.tables, me.id, pw, r.0);
      db.Restore(r.0);
    }
    resp := r.1;
  }

  // ------------------------------------------------------------ destroy

  /** DELETE /api/users/{pk}/ on the tables. */
  function DestroyOn(t: Tables, me: Principal, pk: int): (Tables, Response)
  {
    match Gate("destroy", me)
    case Some(refusal) => (t, refusal)
    case None =>
      if !Favorites.IsKey(t.users, pk) then (t, NotFound)
      else if me.Member? && pk == me.id then (t, ErrorResponse("不能删除自己的账户", 400))
      else if t.users[pk as nat].superuser then (t, ErrorResponse("不能删除超级管理员", 400))
      else (WithoutUser(t, pk as nat), SuccessResponse(JNull, "用户删除成功", 204))
  }

  /** Only an administrator deletes, never themself and never a superuser;
      a deletion removes exactly that one user (sent as code 204 with HTTP
      status 200), and every refusal changes nothing. */
  lemma DestroyGuards(t: Tables, me: Principal, pk: int)
    requires t.Valid()
    ensures var r := DestroyOn(t, me, pk);
      r.0.Valid()
    ensures var r := DestroyOn(t, me, pk);
      r.1.code == 204 <==>
        && Permits(AdminOnly, me) && Favorites.IsKey(t.users, pk) && pk != me.id && !t.users[pk as nat].superuser
    ensures var r := DestroyOn(t, me, pk);
      r.1.code == 204 ==> r.0.users == t.users - {pk as nat} && r.1.status == 200
    ensures var r := DestroyOn(t, me, pk);
      r.1.code != 204 ==> r.0 == t
    ensures var r := DestroyOn(t, me, pk);
      && (me.Member? && me.id in t.users ==> me.id in r.0.users)
      && (forall k :: k in t.users && t.users[k].superuser ==> k in r.0.users)
  {
    GateTable("destroy", me);
    WithoutUserValid(t, if pk >= 0 then pk as nat else 0);
  }

  method Destroy(db: Db, me: Principal, pk: int) returns (resp: Response)
    requires db.Valid()
    modifies db
    ensures db.Valid()
    ensures (db.tables, resp) == DestroyOn(old(db.tables), me, pk)
  {
    var refusal := Gate("destroy", me);
    if refusal.Some? {
      return refusal.value;
    }
    if !Favorites.IsKey(db.tables.users, pk) {
      return NotFound;
    }
    if me.Member? && pk == me.id {
      return ErrorResponse("不能删除自己的账户", 400);
    }
    if db.tables.users[pk as nat].superuser {
      return ErrorResponse("不能删除超级管理员", 400);
    }
    db.DeleteUser(pk as nat);
    resp := SuccessResponse(JNull, "用户删除成功", 204);
  }

  // ------------------------------------------------------------ profile, logout

  /** GET /api/users/profile/: the caller's own row, or 401. */
  function Profile(me: Principal): (r: Response)
    ensures r.code == 200 <==> me.Member?
    ensures me.Member? ==> r.data == UserJson(me.id, me.user)
    ensures !me.Member? ==> r == Unauthenticated
  {
    match Gate("profile", me)
    case Some(refusal) => refusal
    case None => SuccessResponse(UserJson(me.id, me.user))
  }

  /** POST /api/users/logout/: nothing is revoked; any signed-in caller gets
      the same answer. */
  function Logout(me: Principal): (r: Response)
    ensures me.Member? ==> r == Response(200, "登出成功", JObj([]), 200)
    ensures !me.Member? ==> r == Unauthenticated
  {
    match Gate("logout", me)
    case Some(refusal) => refusal
    case None => SuccessResponse(JNull, "登出成功")
  }
}
