/** The API's shared pieces: the JSON envelope every endpoint answers with,
    the exception handler that turns a raised error into that envelope, and
    the three permission predicates. */
module Common {
  import opened Wrappers
  import opened Text
  import opened Numbers
  import Store

  /** A JSON value as the views build it; JNull is Python's None. */
  datatype Json =
    | JNull
    | JBool(b: bool)
    | JInt(i: int)
    | JNum(d: Dec)
    | JStr(s: string)
    | JList(items: seq<Json>)
    | JObj(entries: seq<(string, Json)>)

  /** A decimal as DRF renders a DecimalField (COERCE_DECIMAL_TO_STRING is
      on): text at the field's places. */
  function DecimalJson(d: Dec, places: nat): Json
  {
    JStr(Render(Quantize(d, places)))
  }

  /** The value under a key of an object: the first entry carrying it. */
  function Lookup(entries: seq<(string, Json)>, key: string): (r: Option<Json>)
    ensures r.Some? <==> exists k :: 0 <= k < |entries| && entries[k].0 == key
    ensures r.Some? ==> exists k :: 0 <= k < |entries| && entries[k] == (key, r.value)
  {
    if entries == [] then None
    else if entries[0].0 == key then Some(entries[0].1)
    else
      var r := Lookup(entries[1..], key);
      assert r.Some? ==> entries[1..][0].0 == key || exists k :: 1 <= k < |entries| && entries[k] == (key, r.value) by {
        if r.Some? {
          var k :| 0 <= k < |entries[1..]| && entries[1..][k] == (key, r.value);
          assert entries[k + 1] == (key, r.value);
        }
      }
      assert (exists k :: 0 <= k < |entries| && entries[k].0 == key) ==> r.Some? by {
        if exists k :: 0 <= k < |entries| && entries[k].0 == key {
          var k :| 0 <= k < |entries| && entries[k].0 == key;
          assert entries[1..][k - 1].0 == key;
        }
      }
      r
  }

  /** Python's truthiness of a JSON value. */
  predicate Truthy(j: Json)
  {
    match j
    case JNull => false
    case JBool(b) => b
    case JInt(i) => i != 0
    case JNum(d) => d.coef != 0
    case JStr(s) => s != ""
    case JList(items) => items != []
    case JObj(entries) => entries != []
  }

  // ------------------------------------------------------------ str() / repr()

  /** str(value): a string is itself, everything else its repr. */
  function Show(j: Json): string
  {
    if j.JStr? then j.s else Repr(j)
  }

  /** type(value).__name__ of the Python value a JSON value parses to. */
  function TypeNameOf(j: Json): string
  {
    match j
    case JNull => "NoneType"
    case JBool(_) => "bool"
    case JInt(_) => "int"
    case JNum(_) => "float"
    case JStr(_) => "str"
    case JList(_) => "list"
    case JObj(_) => "dict"
  }

  /** repr(value) as Python writes it (quotes inside strings are not escaped). */
  function Repr(j: Json): string
    decreases j, 1
  {
    match j
    case JNull => "None"
    case JBool(b) => if b then "True" else "False"
    case JInt(i) => IntToString(i)
    case JNum(d) => Render(d)
    case JStr(s) => "'" + s + "'"
    case JList(items) => "[" + ReprItems(items, j) + "]"
    case JObj(entries) => "{" + ReprEntries(entries, j) + "}"
  }

  function ReprItems(items: seq<Json>, ghost whole: Json): string
    requires forall x :: x in items ==> x < whole
    decreases whole, 0, |items|
  {
    if items == [] then ""
    else
      assert items[0] in items;
      assert forall x :: x in items[1..] ==> x in items;
      Repr(items[0]) + (if |items| == 1 then "" else ", " + ReprItems(items[1..], whole))
  }

  function ReprEntries(entries: seq<(string, Json)>, ghost whole: Json): string
    requires forall e :: e in entries ==> e.1 < whole
    decreases whole, 0, |entries|
  {
    if entries == [] then ""
    else
      assert entries[0] in entries;
      assert forall e :: e in entries[1..] ==> e in entries;
      "'" + entries[0].0 + "': " + Repr(entries[0].1)
        + (if |entries| == 1 then "" else ", " + ReprEntries(entries[1..], whole))
  }

  // ------------------------------------------------------------ request values

  /** int(text) for an optionally signed run of decimal digits between white
      space; None where int() raises. */
  function ParseInt(text: string): (r: Option<int>)
  {
    match ParseDec(text)
    case Some(d) => if d.places == 0 && '.' !in text then Some(d.coef) else None
    case None => None
  }

  /** Reading back an integer's decimal text gives the integer. */
  lemma ParseIntRender(i: int)
    ensures ParseInt(IntToString(i)) == Some(i)
  {
    ParseIntText(i);
  }

  /** The integer Django makes of a request value used as an id in a lookup
      (filter(id=value), get(pk=value)); Err with the text of the ValueError
      or TypeError it raises otherwise. */
  function LookupKey(j: Json): (r: Result<int>)
    ensures j.JInt? ==> r == Ok(j.i)
    ensures j.JStr? ==> (r.Ok? <==> ParseInt(j.s).Some?)
    ensures j.JStr? && r.Ok? ==> r.value == ParseInt(j.s).value
    ensures j.JList? || j.JObj? || j.JNull? ==> r.Err?
  {
    match j
    case JInt(i) => Ok(i)
    case JBool(b) => Ok(if b then 1 else 0)
    case JNum(d) => Ok(Trunc(d))
    case JStr(s) =>
      (match ParseInt(s)
       case Some(i) => Ok(i)
       case None => Err("Field 'id' expected a number but got " + Repr(j) + "."))
    case _ => Err("Field 'id' expected a number but got " + Repr(j) + ".")
  }

  /** A query-string parameter as a JSON value: absent is None. */
  function Param(p: Option<string>): (j: Json)
    ensures Truthy(j) <==> p.Some? && p.value != ""
  {
    if p.Some? then JStr(p.value) else JNull
  }

  // ------------------------------------------------------------ the envelope

  /** The body {"code", "msg", "data"} and the HTTP status it is sent with. */
  datatype Response = Response(code: int, msg: string, data: Json, status: int)

  /** The HTTP status of an envelope: the explicit one when given, otherwise
      the class of the code (2xx, 4xx, 5xx) mapped to 200, 400 or 500, and
      anything else to 200. */
  function StatusFor(code: int, statusCode: Option<int>): (s: int)
    ensures statusCode.Some? ==> s == statusCode.value
    ensures statusCode.None? ==> s in {200, 400, 500}
    ensures statusCode.None? && 200 <= code < 600 && code / 100 != 3 ==> s / 100 == code / 100
    ensures statusCode.None? && !(200 <= code < 300 || 400 <= code < 600) ==> s == 200
  {
    if statusCode.Some? then statusCode.value
    else if 200 <= code < 300 then 200
    else if 400 <= code < 500 then 400
    else if 500 <= code < 600 then 500
    else 200
  }

  /** APIResponse(code, msg, data, status_code). */
  function ApiResponse(code: int, msg: string, data: Json, statusCode: Option<int>): (r: Response)
    ensures r.code == code && r.msg == msg && r.status == StatusFor(code, statusCode)
    ensures data == JNull ==> r.data == JObj([])
    ensures data != JNull ==> r.data == data
  {
    Response(code, msg, if data == JNull then JObj([]) else data, StatusFor(code, statusCode))
  }

  /** success_response(data=None, msg='success', code=200). */
  function SuccessResponse(data: Json := JNull, msg: string := "success", code: int := 200): (r: Response)
    ensures r == ApiResponse(code, msg, data, None)
  {
    ApiResponse(code, msg, data, None)
  }

  /** error_response(msg='error', code=400, data=None). */
  function ErrorResponse(msg: string := "error", code: int := 400, data: Json := JNull): (r: Response)
    ensures r == ApiResponse(code, msg, data, None)
  {
    ApiResponse(code, msg, data, None)
  }

  /** The defaults: a bare success is code and status 200 with msg "success"
      and data {}; a bare error is code and status 400. Both helpers build the
      same envelope from the same arguments, and a code such as 201 or 204 is
      sent with status 200. */
  lemma ResponseDefaults(data: Json, msg: string, code: int)
    ensures SuccessResponse() == Response(200, "success", JObj([]), 200)
    ensures ErrorResponse() == Response(400, "error", JObj([]), 400)
    ensures ErrorResponse(msg).status == 400
    ensures SuccessResponse(data, msg, code) == ErrorResponse(msg, code, data)
    ensures 200 <= code < 300 ==> SuccessResponse(data, msg, code).status == 200
  {
  }

  // ------------------------------------------------------------ exceptions

  /** An exception as DRF's default handler sees it: one it turns into a
      response (with that response's status and data), or one it does not. */
  datatype Raised = Handled(status: int, data: Json) | Unhandled(text: string)

  /** The REST_FRAMEWORK setting NON_FIELD_ERRORS_KEY: validate()'s
      object-level errors are reported under "errors". */
  const NonFieldErrorsKey := "errors"

  const RequestFailed := "请求失败"
  const ServerErrorPrefix := "服务器内部错误: "

  /** DRF's own detail texts under the zh-hans locale. */
  const NotAuthenticatedDetail := "身份认证信息未提供。"
  const PermissionDeniedDetail := "您没有执行该操作的权限。"
  const NotFoundDetail := "未找到。"

  /** The error message extracted from a handled exception's data; None when
      the extraction itself raises (the first field's value is an empty list). */
  function ErrorMessage(data: Json): (r: Option<string>)
    ensures data.JObj? && Lookup(data.entries, "detail").Some? ==>
      r == Some(Show(Lookup(data.entries, "detail").value))
    ensures data.JObj? && Lookup(data.entries, "detail").None? && Lookup(data.entries, "error").Some? ==>
      r == Some(Show(Lookup(data.entries, "error").value))
    ensures data.JObj? && r.Some? && Lookup(data.entries, "detail").None? && Lookup(data.entries, "error").None? ==>
      (data.entries == [] && r.value == RequestFailed)
      || (data.entries != [] && StartsWith(r.value, data.entries[0].0 + ": "))
    ensures r.None? <==> (data.JObj? && Lookup(data.entries, "detail").None? && Lookup(data.entries, "error").None?
      && data.entries != [] && data.entries[0].1 == JList([]))
    ensures data.JList? ==> r == Some(if data.items == [] then RequestFailed else Show(data.items[0]))
    ensures !data.JObj? && !data.JList? ==> r == Some(Show(data))
  {
    match data
    case JObj(entries) =>
      var detail := Lookup(entries, "detail");
      var error := Lookup(entries, "error");
      if detail.Some? then Some(Show(detail.value))
      else if error.Some? then Some(Show(error.value))
      else if entries == [] then Some(RequestFailed)
      else
        var (key, value) := entries[0];
        var shown := if value.JList? then (if value.items == [] then None else Some(Show(value.items[0])))
          else Some(Show(value));
        if shown.None? then None
        else
          var text := key + ": " + shown.value;
          assert text[..|key + ": "|] == key + ": ";
          Some(text)
    case JList(items) => Some(if items == [] then RequestFailed else Show(items[0]))
    case _ => Some(Show(data))
  }

  /** custom_exception_handler: a handled exception keeps its status as both
      the code and the HTTP status; an unhandled one becomes a 500. None when
      the handler itself raises. */
  function ExceptionHandler(e: Raised): (r: Option<Response>)
    ensures e.Handled? ==> (r.Some? <==> ErrorMessage(e.data).Some?)
    ensures e.Handled? && r.Some? ==>
      r.value == Response(e.status, ErrorMessage(e.data).value, JObj([]), e.status)
    ensures e.Unhandled? ==> (r.Some? && r.value.code == 500 && r.value.status == 500
      && r.value.msg == ServerErrorPrefix + e.text && r.value.data == JObj([]))
  {
    match e
    case Handled(status, data) =>
      (match ErrorMessage(data)
       case None => None
       case Some(msg) => Some(ApiResponse(status, msg, JNull, Some(status))))
    case Unhandled(text) => Some(ApiResponse(500, ServerErrorPrefix + text, JNull, Some(500)))
  }

  /** The envelope of one of DRF's own refusals (401, 403, 404), which carry
      their text under "detail". */
  function Refusal(status: int, detail: string): (r: Response)
    ensures r == Response(status, detail, JObj([]), status)
  {
    var data := JObj([("detail", JStr(detail))]);
    assert Lookup(data.entries, "detail") == Some(JStr(detail));
    ExceptionHandler(Handled(status, data)).value
  }

  /** The envelope for an anonymous request to a view that needs a signed-in user. */
  const Unauthenticated: Response := Refusal(401, NotAuthenticatedDetail)

  /** The envelope for get_object() or get_object_or_404() finding no row. */
  const NotFound: Response := Refusal(404, NotFoundDetail)

  /** The message precedence for a dict payload: "detail" wins over "error",
      "error" over the first field, and a field holding a list reports its
      first item. */
  lemma MessagePrecedence(d: string, e: string, key: string, first: string, rest: seq<Json>)
    requires key != "detail" && key != "error"
    ensures ErrorMessage(JObj([("error", JStr(e)), ("detail", JStr(d))])) == Some(d)
    ensures ErrorMessage(JObj([(key, JStr(first)), ("error", JStr(e))])) == Some(e)
    ensures ErrorMessage(JObj([(key, JList([JStr(first)] + rest))])) == Some(key + ": " + first)
    ensures ErrorMessage(JObj([(key, JList([]))])) == None
    ensures ErrorMessage(JList([])) == Some(RequestFailed)
  {
    var o1 := [("error", JStr(e)), ("detail", JStr(d))];
    assert Lookup(o1, "detail") == Some(JStr(d)) by {
      assert o1[1..] == [("detail", JStr(d))];
    }
    var o2 := [(key, JStr(first)), ("error", JStr(e))];
    assert Lookup(o2, "detail") == None by {
      assert o2[1..] == [("error", JStr(e))];
      assert o2[1..][1..] == [];
    }
    assert Lookup(o2, "error") == Some(JStr(e)) by {
      assert o2[1..] == [("error", JStr(e))];
    }
    var o3 := [(key, JList([JStr(first)] + rest))];
    assert Lookup(o3, "detail") == None && Lookup(o3, "error") == None by {
      assert o3[1..] == [];
    }
    var o4 := [(key, JList([]))];
    assert Lookup(o4, "detail") == None && Lookup(o4, "error") == None by {
      assert o4[1..] == [];
    }
  }

  // ------------------------------------------------------------ permissions

  /** request.user: the anonymous user or a signed-in user row. */
  datatype Principal = Anonymous | Member(id: nat, user: Store.User)

  predicate IsAuthenticated(p: Principal)
  {
    p.Member?
  }

  /** GET, HEAD and OPTIONS. */
  predicate SafeMethod(verb: string)
  {
    verb == "GET" || verb == "HEAD" || verb == "OPTIONS"
  }

  /** IsOwnerOrReadOnly.has_object_permission for an object owned by `owner`. */
  predicate IsOwnerOrReadOnly(verb: string, owner: nat, p: Principal)
  {
    SafeMethod(verb) || (p.Member? && p.id == owner)
  }

  /** IsAgentOrAdmin.has_permission. */
  predicate IsAgentOrAdmin(p: Principal)
  {
    IsAuthenticated(p) && (p.user.role in ["agent", "admin"] || p.user.staff)
  }

  /** IsAdminUser.has_permission. */
  predicate IsAdminUser(p: Principal)
  {
    IsAuthenticated(p) && (p.user.role == "admin" || p.user.superuser)
  }

  /** The owner may do anything; anyone else (the anonymous user included)
      only reads. */
  lemma OwnerOrReadOnlyExactly(verb: string, owner: nat, p: Principal)
    ensures p.Member? && p.id == owner ==> IsOwnerOrReadOnly(verb, owner, p)
    ensures !(p.Member? && p.id == owner) ==> (IsOwnerOrReadOnly(verb, owner, p) <==> SafeMethod(verb))
    ensures IsOwnerOrReadOnly("GET", owner, Anonymous) && !IsOwnerOrReadOnly("DELETE", owner, Anonymous)
  {
  }

  /** The role predicates: the admin role passes both, the anonymous user
      neither, and an agent role or staff flag passes the weaker one only. */
  lemma RolePredicates(p: Principal)
    ensures !IsAuthenticated(p) ==> !IsAgentOrAdmin(p) && !IsAdminUser(p)
    ensures IsAuthenticated(p) && p.user.role == "admin" ==> IsAdminUser(p) && IsAgentOrAdmin(p)
    ensures IsAuthenticated(p) && !p.user.superuser && p.user.role != "admin" ==> !IsAdminUser(p)
    ensures IsAuthenticated(p) && p.user.role == "agent" ==> IsAgentOrAdmin(p)
  {
  }

  /** IsAdminUser does not imply IsAgentOrAdmin: a superuser whose role is
      "user" and who is not staff passes the first and fails the second. */
  lemma SuperuserIsNotAgent(u: Store.User, id: nat)
    requires u.role == "user" && u.superuser && !u.staff
    ensures IsAdminUser(Member(id, u)) && !IsAgentOrAdmin(Member(id, u))
  {
  }
}
