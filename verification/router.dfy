/** The static route table (as data: name, path and meta of each
    destination) and the navigation guard run before every transition. */
module Router {
  import opened Common
  import AuthStore
  import Numerals

  /** A destination's meta: all three entries are optional. */
  datatype RouteMeta = RouteMeta(title: Option<string>, requiresAuth: Option<bool>, menuId: Option<string>)

  datatype Route = Route(name: Option<string>, path: string, meta: RouteMeta)

  function Public(name: string, path: string, title: string): (r: Route)
  {
    Route(Some(name), path, RouteMeta(Some(title), None, None))
  }

  function Protected(name: string, path: string, title: Option<string>): (r: Route)
  {
    Route(Some(name), path, RouteMeta(title, Some(true), None))
  }

  function Menu(name: string, path: string, title: string, menuId: string): (r: Route)
  {
    Route(Some(name), path, RouteMeta(Some(title), Some(true), Some(menuId)))
  }

  /** The first three routes, the targets of the guard's redirects. */
  const LoginRoute := Public("Login", "/login", "Login")
  const HomeRoute := Protected("Home", "/", Some("Beranda"))
  const UnauthorizedRoute := Protected("Unauthorized", "/unauthorized", None)

  /** The application's routes, in declaration order. */
  const RouteTable: seq<Route> := [LoginRoute, HomeRoute, UnauthorizedRoute] + [
    Route(Some("NotFound"), "/:pathMatch(.*)*", RouteMeta(None, None, None)),
    Protected("Manual Program", "/manual", Some("Petunjuk Penggunaan")),
    Protected("Riwayat Update", "/history-updates", Some("Riwayat Update")),
    Protected("Cek Versi", "/update-program", Some("Cek Versi")),
    Protected("Update Buffer Stok", "/update-buffer-stock", Some("Update Buffer Stok")),
    Menu("frmPengaturan", "/settings", "Setting", "3"),
    Menu("frmUser", "/users", "Master User", "1"),
    Protected("Ganti Password", "/ganti-password", Some("Ganti Password")),
    Menu("frmBrowCus", "/customers", "Master Customer", "9"),
    Menu("frmBrowMember", "/members", "Master Member", "7"),
    Menu("frmBrowSupplier", "/suppliers", "Master Supplier", "8"),
    Menu("frmBrowSC", "/sales-counters", "Master Sales Counter", "10"),
    Menu("frmBrowBcd", "/cetak-barcode", "Cetak Barcode", "11"),
    Protected("Buat Barcode", "/cetak-barcode/new", Some("Buat Barcode")),
    Menu("frmBrowPenawaran", "/penawaran", "Penawaran", "42"),
    Protected("Buat Penawaran", "/penawaran/new", Some("Buat Penawaran")),
    Protected("Ubah Penawaran", "/penawaran/ubah/:nomor", Some("Ubah Penawaran")),
    Menu("frmBrowPengajuanHarga", "/pengajuan-harga", "Pengajuan Harga", "38"),
    Protected("Buat Pengajuan Harga", "/pengajuan-harga/new", Some("Buat Pengajuan Harga")),
    Protected("Ubah Pengajuan Harga", "/pengajuan-harga/ubah/:nomor", Some("Ubah Pengajuan Harga"))
  ]

  /** Where a redirect goes: `next('/login')` names a path,
      `next({ name: 'Unauthorized' })` a route name. */
  datatype Location = ByPath(path: string) | ByName(name: string)

  datatype Decision = Allow | Redirect(to: Location)

  const ToLogin := Redirect(ByPath("/login"))
  const ToHome := Redirect(ByPath("/"))
  const ToUnauthorized := Redirect(ByName("Unauthorized"))

  /** The guard's outcome and the document title it wrote, if any. */
  datatype Verdict = Verdict(decision: Decision, title: Option<string>)

  const TitleSuffix := " - Retail Kaosan"
  const FallbackTitle := "Retail"

  /** `meta.title || name || 'Retail'`: the first non-empty of the three. */
  function TitleBase(to: Route): (t: string)
    ensures t != ""
    ensures Truthy(to.meta.title) ==> t == to.meta.title.value
    ensures !Truthy(to.meta.title) && Truthy(to.name) ==> t == to.name.value
    ensures !Truthy(to.meta.title) && !Truthy(to.name) ==> t == FallbackTitle
  {
    if Truthy(to.meta.title) then to.meta.title.value
    else if Truthy(to.name) then to.name.value
    else FallbackTitle
  }

  /** `!meta.requiresAuth`: an absent flag counts as public. */
  predicate RequiresAuth(to: Route)
  {
    to.meta.requiresAuth == Some(true)
  }

  /** `meta.menuId` when it is a non-empty string. */
  predicate HasMenuId(to: Route)
  {
    Truthy(to.meta.menuId)
  }

  /** The `beforeEach` guard, in the order the checks are written: same path,
      title, public route, login, login page, menu permission. */
  function Guard(from: Route, to: Route, loggedIn: bool, allowedMenus: seq<string>): (v: Verdict)
    ensures v.decision in {Allow, ToLogin, ToHome, ToUnauthorized}
    ensures from.path == to.path ==> v == Verdict(Allow, None)
    ensures from.path != to.path ==> v.title == Some(TitleBase(to) + TitleSuffix)
  {
    if from.path == to.path then Verdict(Allow, None)
    else
      var title := Some(TitleBase(to) + TitleSuffix);
      if !RequiresAuth(to) then Verdict(Allow, title)
      else if !loggedIn then Verdict(ToLogin, title)
      else if to.name == Some("Login") then Verdict(ToHome, title)
      else if HasMenuId(to) && to.meta.menuId.value !in allowedMenus then Verdict(ToUnauthorized, title)
      else Verdict(Allow, title)
  }

  /** The guard as wired to the session store. */
  function GuardSession(from: Route, to: Route, s: AuthStore.Session): (v: Verdict)
    ensures v.decision == Allow <==>
              from.path == to.path || Admits(to, AuthStore.IsAuthenticated(s), AuthStore.AllowedMenus(s.permissions))
    ensures from.path != to.path && RequiresAuth(to) && !AuthStore.IsAuthenticated(s) ==> v.decision == ToLogin
  {
    Guard(from, to, AuthStore.IsAuthenticated(s), AuthStore.AllowedMenus(s.permissions))
  }

  /** After logout every protected destination reached from another path
      redirects to the login page, whatever its menu id. */
  lemma LoggedOutGoesToLogin(from: Route, to: Route, s: AuthStore.Session, st: AuthStore.Storage)
    requires RequiresAuth(to) && from.path != to.path
    ensures GuardSession(from, to, AuthStore.Logout(s, st).session).decision == ToLogin
  {
  }

  /** A logged-in session holding a permission with `view` on id n passes
      the guard of a protected route whose menu id is n rendered in decimal. */
  lemma GrantedMenuAllowed(from: Route, to: Route, s: AuthStore.Session, i: nat)
    requires AuthStore.IsAuthenticated(s)
    requires i < |s.permissions| && s.permissions[i].view
    requires to.meta.menuId == Some(Numerals.IntToString(s.permissions[i].id))
    requires to.name != Some("Login")
    ensures GuardSession(from, to, s).decision == Allow
  {
    AuthStore.AllowedMenusMembership(s.permissions, to.meta.menuId.value);
  }

  /** The destinations the guard admits, stated without the order of checks. */
  predicate Admits(to: Route, loggedIn: bool, allowedMenus: seq<string>)
  {
    || !RequiresAuth(to)
    || (&& loggedIn
        && to.name != Some("Login")
        && (HasMenuId(to) ==> to.meta.menuId.value in allowedMenus))
  }

  /** The guard allows exactly the same-path transitions and the admitted
      destinations. */
  lemma GuardAllowsIff(from: Route, to: Route, loggedIn: bool, allowedMenus: seq<string>)
    ensures Guard(from, to, loggedIn, allowedMenus).decision == Allow <==>
              from.path == to.path || Admits(to, loggedIn, allowedMenus)
  {
  }

  /** Each redirect, with the condition that produces it. */
  lemma GuardRedirects(from: Route, to: Route, loggedIn: bool, allowedMenus: seq<string>)
    ensures var d := Guard(from, to, loggedIn, allowedMenus).decision;
            && (d == ToLogin <==> from.path != to.path && RequiresAuth(to) && !loggedIn)
            && (d == ToHome <==> from.path != to.path && RequiresAuth(to) && loggedIn && to.name == Some("Login"))
            && (d == ToUnauthorized <==>
                  from.path != to.path && RequiresAuth(to) && loggedIn && to.name != Some("Login")
                  && HasMenuId(to) && to.meta.menuId.value !in allowedMenus)
  {
  }

  /** A public destination is allowed whatever the session and menu id. */
  lemma PublicAlwaysAllowed(from: Route, to: Route, loggedIn: bool, allowedMenus: seq<string>)
    requires !RequiresAuth(to)
    ensures Guard(from, to, loggedIn, allowedMenus).decision == Allow
  {
  }

  /** The route has the path or the name the location gives. */
  predicate Names(route: Route, loc: Location)
  {
    match loc
    case ByPath(p) => route.path == p
    case ByName(n) => route.name == Some(n)
  }

  /** First route in the table that a location names. */
  function Resolve(table: seq<Route>, loc: Location): (r: Option<nat>)
    ensures r.Some? ==> r.value < |table| && Names(table[r.value], loc)
    ensures r.Some? ==> forall j :: 0 <= j < r.value ==> !Names(table[j], loc)
    ensures r.None? ==> forall j :: 0 <= j < |table| ==> !Names(table[j], loc)
  {
    if table == [] then None
    else if Names(table[0], loc) then Some(0)
    else
      match Resolve(table[1..], loc)
      case None => None
      case Some(k) => Some(k + 1)
  }

  lemma RedirectTargets()
    ensures Resolve(RouteTable, ByPath("/login")) == Some(0)
    ensures Resolve(RouteTable, ByPath("/")) == Some(1)
    ensures Resolve(RouteTable, ByName("Unauthorized")) == Some(2)
  {
    var t1 := RouteTable[1..];
    var t2 := t1[1..];
    assert RouteTable[0] == LoginRoute;
    assert t1[0] == HomeRoute;
    assert t2[0] == UnauthorizedRoute;
    assert Resolve(t1, ByPath("/")) == Some(0);
    assert Resolve(t2, ByName("Unauthorized")) == Some(0);
    assert Resolve(t1, ByName("Unauthorized")) == Some(1);
  }

  /** Redirect chains have length one: under the same session, the guard
      allows the destination of any redirect it issues, whatever route the
      second navigation starts from. */
  lemma RedirectsTerminate(from: Route, to: Route, loggedIn: bool, allowedMenus: seq<string>, from': Route)
    requires Guard(from, to, loggedIn, allowedMenus).decision.Redirect?
    ensures var loc := Guard(from, to, loggedIn, allowedMenus).decision.to;
            && Resolve(RouteTable, loc).Some?
            && Guard(from', RouteTable[Resolve(RouteTable, loc).value], loggedIn, allowedMenus).decision == Allow
  {
    RedirectTargets();
    assert RouteTable[0] == LoginRoute && RouteTable[1] == HomeRoute && RouteTable[2] == UnauthorizedRoute;
  }

  /** The login-page redirect never fires for the application's routes: the
      Login route carries no `requiresAuth`, so the public-route check has
      already allowed it. */
  lemma LoginRedirectUnreachable(from: Route, i: nat, loggedIn: bool, allowedMenus: seq<string>)
    requires i < |RouteTable|
    ensures Guard(from, RouteTable[i], loggedIn, allowedMenus).decision != ToHome
  {
  }

  /** The same-path check runs before any authentication check: a
      transition whose start already has the target's path is allowed
      without a session, even to a protected destination such as Home. */
  lemma SamePathSkipsAuthentication(from: Route, allowedMenus: seq<string>)
    requires from.path == "/"
    ensures RequiresAuth(RouteTable[1])
    ensures Guard(from, RouteTable[1], false, allowedMenus) == Verdict(Allow, None)
  {
  }

  /** An authenticated session that is not allowed the Customer menu ("9")
      is sent to Unauthorized; one that is allowed it gets through. */
  lemma CustomerMenuScenario(from: Route)
    requires from.path != "/customers"
    ensures Guard(from, RouteTable[11], true, ["1", "9"]).decision == Allow
    ensures Guard(from, RouteTable[11], true, ["1"]).decision == ToUnauthorized
  {
  }
}
