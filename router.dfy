/** The single-page front end's route table and the guard that runs before
    every navigation: it sets the page title, sends a visitor without a
    token to the login page and a signed-in non-administrator away from the
    admin pages. */
module Router {
  import opened Wrappers
  import opened Common
  import opened Text

  const SiteName := "二手房可视化系统"
  const LoginFirst := "请先登录"
  const AdminNeeded := "需要管理员权限"

  /** A route's meta: title, requireAuth and requireAdmin (absent is false). */
  datatype Meta = Meta(title: Option<string>, requireAuth: bool, requireAdmin: bool)

  datatype RouteRecord = RouteRecord(path: string, name: string, meta: Meta)

  /** The target of a navigation: its full path (query and hash included)
      and the meta of the matched route. */
  datatype Target = Target(fullPath: string, meta: Meta)

  /** What next() is called with: nothing, or a location with its query. */
  datatype Nav = Proceed | Redirect(path: string, query: seq<(string, string)>)

  /** The toast shown alongside: none, ElMessage.warning or ElMessage.error. */
  datatype Notice = Quiet | Warning(text: string) | Failure(text: string)

  function Plain(title: string): Meta { Meta(Some(title), false, false) }
  function Private(title: string): Meta { Meta(Some(title), true, false) }
  function AdminPage(title: string): Meta { Meta(Some(title), true, true) }

  /** The routes, the Layout children flattened, in declaration order. */
  const Routes: seq<RouteRecord> := [
    RouteRecord("/", "", Meta(None, false, false)),
    RouteRecord("/home", "Home", Plain("首页")),
    RouteRecord("/houses", "HouseList", Plain("房源列表")),
    RouteRecord("/houses/:id", "HouseDetail", Plain("房源详情")),
    RouteRecord("/map", "Map", Plain("地图找房")),
    RouteRecord("/analysis", "Analysis", Plain("数据分析")),
    RouteRecord("/favorites", "Favorites", Private("我的收藏")),
    RouteRecord("/alerts", "PriceAlerts", Private("价格提醒")),
    RouteRecord("/profile", "Profile", Private("个人中心")),
    RouteRecord("/my-houses", "MyHouses", Private("我的房源")),
    RouteRecord("/admin", "Admin", AdminPage("管理中心")),
    RouteRecord("/admin/users", "AdminUsers", AdminPage("用户管理")),
    RouteRecord("/admin/houses", "AdminHouses", AdminPage("房源管理")),
    RouteRecord("/admin/districts", "AdminDistricts", AdminPage("区域管理")),
    RouteRecord("/login", "Login", Plain("登录")),
    RouteRecord("/register", "Register", Plain("注册")),
    RouteRecord("/:pathMatch(.*)*", "NotFound", Plain("404"))
  ]

  /** The admin check sits inside the login check, so it only guards routes
      that also require a login: every admin route in the table does; the
      login page, the root and the pages the guard redirects to require
      nothing, so a redirect is never redirected again. */
  lemma RouteTableConsistent()
    ensures forall i :: 0 <= i < |Routes| && Routes[i].meta.requireAdmin ==> Routes[i].meta.requireAuth
    ensures forall i :: 0 <= i < |Routes| && Routes[i].path in {"/", "/home", "/login", "/register"} ==>
      !Routes[i].meta.requireAuth
    ensures forall i, j :: 0 <= i < j < |Routes| ==> Routes[i].path != Routes[j].path
  {
  }

  /** document.title: the route's title before the site name, or the site
      name alone when the title is missing or empty. */
  function PageTitle(meta: Meta): (s: string)
    ensures meta.title.Some? && meta.title.value != "" ==> s == meta.title.value + " - " + SiteName
    ensures !(meta.title.Some? && meta.title.value != "") ==> s == SiteName
    ensures EndsWith(s, SiteName)
  {
    if meta.title.Some? && meta.title.value != "" then meta.title.value + " - " + SiteName else SiteName
  }

  /** The stored user is an administrator: the parsed user_info is an object
      whose role property is the string "admin". */
  predicate AdminInfo(info: Option<Json>)
  {
    info.Some? && info.value.JObj? && Property(info.value.entries, "role") == Some(JStr("admin"))
  }

  /** A property of a parsed JSON object: with repeated keys the last one
      wins, as JSON.parse keeps it. */
  function Property(entries: seq<(string, Json)>, key: string): (r: Option<Json>)
    ensures r.Some? ==> exists k :: 0 <= k < |entries| && entries[k] == (key, r.value)
    ensures r.None? ==> forall k :: 0 <= k < |entries| ==> entries[k].0 != key
  {
    if entries == [] then None
    else if entries[|entries| - 1].0 == key then Some(entries[|entries| - 1].1)
    else
      var r := Property(entries[..|entries| - 1], key);
      assert forall k :: 0 <= k < |entries| - 1 ==> entries[..|entries| - 1][k] == entries[k];
      r
  }

  /** The guard's decision for a target, given the stored token (null when
      absent) and the parsed stored user (null when absent). */
  function Decide(to: Target, token: Option<string>, info: Option<Json>): (r: (Nav, Notice))
  {
    if !to.meta.requireAuth then (Proceed, Quiet)
    else if token.None? || token.value == "" then (Redirect("/login", [("redirect", to.fullPath)]), Warning(LoginFirst))
    else if to.meta.requireAdmin && !AdminInfo(info) then (Redirect("/", []), Failure(AdminNeeded))
    else (Proceed, Quiet)
  }

  /** The guard lets a navigation through exactly when the route needs no
      login, or a token is stored and the route needs no administrator or
      the stored user is one; otherwise it redirects to the login page
      (remembering where the visitor was going) when the token is missing,
      and to the root when the administrator is missing. A redirect always
      comes with its toast and a pass never does. */
  lemma GuardDecision(to: Target, token: Option<string>, info: Option<Json>)
    ensures var r, signed := Decide(to, token, info), token.Some? && token.value != "";
      r.0 == Proceed <==> !to.meta.requireAuth || (signed && (!to.meta.requireAdmin || AdminInfo(info)))
    ensures var r, signed := Decide(to, token, info), token.Some? && token.value != "";
      r.0 == Redirect("/login", [("redirect", to.fullPath)]) <==> to.meta.requireAuth && !signed
    ensures var r, signed := Decide(to, token, info), token.Some? && token.value != "";
      r.0 == Redirect("/", []) <==> to.meta.requireAuth && signed && to.meta.requireAdmin && !AdminInfo(info)
    ensures var r := Decide(to, token, info);
      (r.0 == Proceed <==> r.1 == Quiet)
  {
  }

  /** A route that needs no login passes whatever the storage holds; the
      stored user is consulted only for admin routes. */
  lemma GuardIgnoresStorage(to: Target, token: Option<string>, info: Option<Json>, token': Option<string>, info': Option<Json>)
    ensures !to.meta.requireAuth ==> Decide(to, token, info) == Decide(to, token', info') == (Proceed, Quiet)
    ensures !to.meta.requireAdmin ==> Decide(to, token, info) == Decide(to, token, info')
  {
  }

  /** The guard's effects: the document title and the toasts shown. */
  class Page {
    var title: string
    var toasts: seq<Notice>

    constructor(title0: string)
      ensures title == title0 && toasts == []
    {
      title := title0;
      toasts := [];
    }

    /** router.beforeEach: sets the title, shows the toast if any, and
        returns what next() is called with. */
    method BeforeEach(to: Target, token: Option<string>, info: Option<Json>) returns (nav: Nav)
      modifies this
      ensures title == PageTitle(to.meta)
      ensures nav == Decide(to, token, info).0
      ensures toasts == old(toasts) + (if nav == Proceed then [] else [Decide(to, token, info).1])
    {
      title := PageTitle(to.meta);
      var decision := Decide(to, token, info);
      GuardDecision(to, token, info);
      if decision.1 != Quiet {
        toasts := toasts + [decision.1];
      }
      nav := decision.0;
    }
  }
}
