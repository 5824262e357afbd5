/**
 * The application root: the state it starts from, the once-only load step
 * that turns what was saved into that state (with the tolerant defaults for
 * old records), and the rule that decides which pages are reachable.
 */
module App {
  import opened Wrappers
  import opened Types

  // ---------------------------------------------------------------------------
  // What storage may hand back
  // ---------------------------------------------------------------------------

  /**
   * An invoice as read back from storage. Records written by earlier versions
   * may lack `status` (or hold a falsy value there); `None` stands for both.
   */
  datatype SavedInvoice = SavedInvoice(
    id: string,
    invoiceNumber: int,
    customerId: string,
    customerName: string,
    date: string,
    items: seq<InvoiceItem>,
    subtotal: int,
    discount: int,
    total: int,
    status: Option<Status>,
    returned: Option<seq<InvoiceItem>>,
    createdBy: Option<string>)

  /** A settings record as read back from storage: any field may be missing. */
  datatype SavedSettings = SavedSettings(
    companyName: Option<string>,
    currency: Option<string>,
    logo: Option<Nullable<string>>,
    companyPhone: Option<string>,
    companyEmail: Option<string>,
    instagramAccount: Option<string>,
    instagramQR: Option<Nullable<string>>,
    bankAccountBalance: Option<int>)

  /** Every stored entry the loader reads; `None` is a key that is not there. */
  datatype Saved = Saved(
    products: Option<seq<Product>>,
    customers: Option<seq<Customer>>,
    invoices: Option<seq<SavedInvoice>>,
    expenses: Option<seq<Expense>>,
    users: Option<seq<User>>,
    currentUser: Option<User>,
    settings: Option<SavedSettings>)

  /** The state held at the application root. */
  datatype AppState = AppState(
    products: seq<Product>,
    customers: seq<Customer>,
    invoices: seq<Invoice>,
    expenses: seq<Expense>,
    users: seq<User>,
    currentUser: Option<User>,
    settings: Settings)

  // ---------------------------------------------------------------------------
  // Constants
  // ---------------------------------------------------------------------------

  /** The currency label older versions stored ("Bahraini dinar" in Arabic). */
  const LegacyCurrency: string := "دينار بحريني"

  const DefaultCurrency: string := "BHD"

  /** The settings the application starts with. */
  const DefaultSettings: Settings := Settings(
    companyName := "برنامج نور لإدارة المبيعات",
    currency := DefaultCurrency,
    logo := Null,
    companyPhone := Some(""),
    companyEmail := Some(""),
    instagramAccount := Some(""),
    instagramQR := Some(Null),
    bankAccountBalance := 0)

  /** The administrator seeded when no users are stored. */
  const DefaultAdmin: User := User(
    id := "default-admin-01",
    name := "المدير",
    username := "admin",
    email := Some("admin@system.com"),
    password := "admin",
    role := Admin,
    language := None)

  /** The state before anything is loaded: empty collections, nobody signed in. */
  const InitialState: AppState := AppState([], [], [], [], [], None, DefaultSettings)

  // ---------------------------------------------------------------------------
  // Invoices
  // ---------------------------------------------------------------------------

  /** The record a loaded invoice is stored as, and read back as. */
  function SaveInvoice(inv: Invoice): (r: SavedInvoice)
    ensures r.status == Some(inv.status) && r.returned == inv.returned
  {
    SavedInvoice(inv.id, inv.invoiceNumber, inv.customerId, inv.customerName, inv.date,
                 inv.items, inv.subtotal, inv.discount, inv.total,
                 Some(inv.status), inv.returned, inv.createdBy)
  }

  /** Back-fills the two fields old records may lack; every other field is copied. */
  function NormalizeInvoice(inv: SavedInvoice): (r: Invoice)
    ensures inv.status == None ==> r.status == Unpaid
    ensures forall s :: inv.status == Some(s) ==> r.status == s
    ensures inv.returned == None ==> r.returned == Some([])
    ensures inv.returned.Some? ==> r.returned == inv.returned
    ensures SaveInvoice(r) == inv.(status := Some(r.status), returned := r.returned)
  {
    Invoice(inv.id, inv.invoiceNumber, inv.customerId, inv.customerName, inv.date,
            inv.items, inv.subtotal, inv.discount, inv.total,
            inv.status.GetOr(Unpaid), Some(inv.returned.GetOr([])), inv.createdBy)
  }

  /** An invoice that loading leaves as it is: its returns list is present. */
  predicate Normalized(inv: Invoice)
  {
    inv.returned.Some?
  }

  /** The back-fill applied to each saved invoice, in order. */
  function NormalizeInvoices(xs: seq<SavedInvoice>): (r: seq<Invoice>)
    ensures |r| == |xs|
    ensures forall i :: 0 <= i < |xs| ==> r[i] == NormalizeInvoice(xs[i])
    ensures forall i :: 0 <= i < |r| ==> Normalized(r[i])
  {
    seq(|xs|, i requires 0 <= i < |xs| => NormalizeInvoice(xs[i]))
  }

  function SaveInvoices(xs: seq<Invoice>): (r: seq<SavedInvoice>)
    ensures |r| == |xs|
    ensures forall i :: 0 <= i < |xs| ==> r[i] == SaveInvoice(xs[i])
  {
    seq(|xs|, i requires 0 <= i < |xs| => SaveInvoice(xs[i]))
  }

  /** Reading back a normalised invoice gives the same invoice. */
  lemma NormalizeSavedInvoice(inv: Invoice)
    requires Normalized(inv)
    ensures NormalizeInvoice(SaveInvoice(inv)) == inv
  {
  }

  /** Storing and re-loading normalised invoices changes nothing. */
  lemma NormalizeInvoicesOfNormalized(xs: seq<Invoice>)
    requires forall i :: 0 <= i < |xs| ==> Normalized(xs[i])
    ensures NormalizeInvoices(SaveInvoices(xs)) == xs
  {
  }

  /** Normalisation is idempotent: the back-fill applied twice is the back-fill applied once. */
  lemma NormalizeInvoicesIdempotent(xs: seq<SavedInvoice>)
    ensures NormalizeInvoices(SaveInvoices(NormalizeInvoices(xs))) == NormalizeInvoices(xs)
  {
  }

  // ---------------------------------------------------------------------------
  // Users
  // ---------------------------------------------------------------------------

  /** The stored users as they are, or a single seeded administrator when none are stored. */
  function LoadUsers(saved: Option<seq<User>>): (r: seq<User>)
    ensures saved.None? ==>
      |r| == 1 && r[0].id == "default-admin-01" && r[0].username == "admin" && r[0].role == Admin
    ensures saved.None? ==> r == [DefaultAdmin]
    ensures saved.Some? ==> r == saved.value
  {
    match saved
    case None => [DefaultAdmin]
    case Some(us) => us
  }

  // ---------------------------------------------------------------------------
  // Settings
  // ---------------------------------------------------------------------------

  /** Rewrites the legacy currency label to its code; any other value passes through. */
  function MigrateCurrency(saved: SavedSettings): (r: SavedSettings)
    ensures saved.currency == Some(LegacyCurrency) ==> r.currency == Some(DefaultCurrency)
    ensures saved.currency != Some(LegacyCurrency) ==> r.currency == saved.currency
    ensures r == saved.(currency := r.currency)
  {
    if saved.currency == Some(LegacyCurrency) then saved.(currency := Some(DefaultCurrency))
    else saved
  }

  /** Overlays the fields present in `saved` onto `prev`; absent fields keep `prev`'s value. */
  function MergeSettings(prev: Settings, saved: SavedSettings): (r: Settings)
    ensures saved.companyName.Some? ==> r.companyName == saved.companyName.value
    ensures saved.companyName.None? ==> r.companyName == prev.companyName
    ensures saved.currency.Some? ==> r.currency == saved.currency.value
    ensures saved.currency.None? ==> r.currency == prev.currency
    ensures saved.logo.Some? ==> r.logo == saved.logo.value
    ensures saved.logo.None? ==> r.logo == prev.logo
    ensures saved.companyPhone.Some? ==> r.companyPhone == saved.companyPhone
    ensures saved.companyPhone.None? ==> r.companyPhone == prev.companyPhone
    ensures saved.companyEmail.Some? ==> r.companyEmail == saved.companyEmail
    ensures saved.companyEmail.None? ==> r.companyEmail == prev.companyEmail
    ensures saved.instagramAccount.Some? ==> r.instagramAccount == saved.instagramAccount
    ensures saved.instagramAccount.None? ==> r.instagramAccount == prev.instagramAccount
    ensures saved.instagramQR.Some? ==> r.instagramQR == saved.instagramQR
    ensures saved.instagramQR.None? ==> r.instagramQR == prev.instagramQR
    ensures saved.bankAccountBalance.Some? ==> r.bankAccountBalance == saved.bankAccountBalance.value
    ensures saved.bankAccountBalance.None? ==> r.bankAccountBalance == prev.bankAccountBalance
  {
    Settings(
      companyName := saved.companyName.GetOr(prev.companyName),
      currency := saved.currency.GetOr(prev.currency),
      logo := saved.logo.GetOr(prev.logo),
      companyPhone := if saved.companyPhone.Some? then saved.companyPhone else prev.companyPhone,
      companyEmail := if saved.companyEmail.Some? then saved.companyEmail else prev.companyEmail,
      instagramAccount := if saved.instagramAccount.Some? then saved.instagramAccount else prev.instagramAccount,
      instagramQR := if saved.instagramQR.Some? then saved.instagramQR else prev.instagramQR,
      bankAccountBalance := saved.bankAccountBalance.GetOr(prev.bankAccountBalance))
  }

  /** The settings record as it is stored. */
  function SaveSettings(s: Settings): (r: SavedSettings)
    ensures r.companyName == Some(s.companyName) && r.currency == Some(s.currency)
    ensures r.companyPhone == s.companyPhone && r.instagramQR == s.instagramQR
  {
    SavedSettings(Some(s.companyName), Some(s.currency), Some(s.logo), s.companyPhone,
                  s.companyEmail, s.instagramAccount, s.instagramQR, Some(s.bankAccountBalance))
  }

  /** Every optional field is present. */
  predicate Complete(s: Settings)
  {
    s.companyPhone.Some? && s.companyEmail.Some? && s.instagramAccount.Some? && s.instagramQR.Some?
  }

  /** An empty saved record changes nothing. */
  lemma MergeNothing(prev: Settings)
    ensures MergeSettings(prev, SavedSettings(None, None, None, None, None, None, None, None)) == prev
  {
  }

  /** A stored record with every field present replaces the previous settings entirely. */
  lemma MergeComplete(prev: Settings, s: Settings)
    requires Complete(s)
    ensures MergeSettings(prev, SaveSettings(s)) == s
  {
  }

  /** The settings after loading: the defaults, overlaid with the migrated stored record. */
  function LoadSettings(saved: Option<SavedSettings>): (r: Settings)
    ensures saved.None? ==> r == DefaultSettings
    ensures saved.Some? && saved.value.currency.None? ==> r.currency == DefaultCurrency
    ensures saved.Some? && saved.value.currency == Some(LegacyCurrency) ==> r.currency == DefaultCurrency
    ensures r.currency != LegacyCurrency
    ensures Complete(r)
    ensures saved.Some? && saved.value.companyName.Some? ==> r.companyName == saved.value.companyName.value
    ensures saved.Some? && saved.value.companyName.None? ==> r.companyName == DefaultSettings.companyName
    ensures saved.Some? && saved.value.currency.Some? && saved.value.currency != Some(LegacyCurrency) ==>
      r.currency == saved.value.currency.value
    ensures saved.Some? && saved.value.logo.Some? ==> r.logo == saved.value.logo.value
    ensures saved.Some? && saved.value.logo.None? ==> r.logo == DefaultSettings.logo
    ensures saved.Some? && saved.value.companyPhone.Some? ==> r.companyPhone == saved.value.companyPhone
    ensures saved.Some? && saved.value.companyPhone.None? ==> r.companyPhone == DefaultSettings.companyPhone
    ensures saved.Some? && saved.value.companyEmail.Some? ==> r.companyEmail == saved.value.companyEmail
    ensures saved.Some? && saved.value.companyEmail.None? ==> r.companyEmail == DefaultSettings.companyEmail
    ensures saved.Some? && saved.value.instagramAccount.Some? ==> r.instagramAccount == saved.value.instagramAccount
    ensures saved.Some? && saved.value.instagramAccount.None? ==> r.instagramAccount == DefaultSettings.instagramAccount
    ensures saved.Some? && saved.value.instagramQR.Some? ==> r.instagramQR == saved.value.instagramQR
    ensures saved.Some? && saved.value.instagramQR.None? ==> r.instagramQR == DefaultSettings.instagramQR
    ensures saved.Some? && saved.value.bankAccountBalance.Some? ==>
      r.bankAccountBalance == saved.value.bankAccountBalance.value
    ensures saved.Some? && saved.value.bankAccountBalance.None? ==>
      r.bankAccountBalance == DefaultSettings.bankAccountBalance
  {
    match saved
    case None => DefaultSettings
    case Some(s) => MergeSettings(DefaultSettings, MigrateCurrency(s))
  }

  /** Storing the loaded settings and loading them again gives the same settings. */
  lemma LoadSettingsIdempotent(saved: Option<SavedSettings>)
    ensures LoadSettings(Some(SaveSettings(LoadSettings(saved)))) == LoadSettings(saved)
  {
  }

  // ---------------------------------------------------------------------------
  // The load step
  // ---------------------------------------------------------------------------

  /**
   * The state after the load step: a missing collection stays empty, saved
   * ones are taken as they are except that invoices are back-filled, missing
   * users are seeded with the administrator, and the settings are migrated and
   * overlaid onto the defaults.
   */
  function Load(saved: Saved): (st: AppState)
    ensures st.products == saved.products.GetOr([])
    ensures st.customers == saved.customers.GetOr([])
    ensures st.expenses == saved.expenses.GetOr([])
    ensures saved.invoices.None? ==> st.invoices == []
    ensures saved.invoices.Some? ==>
      |st.invoices| == |saved.invoices.value| &&
      forall i :: 0 <= i < |st.invoices| ==> st.invoices[i] == NormalizeInvoice(saved.invoices.value[i])
    ensures forall i :: 0 <= i < |st.invoices| ==> Normalized(st.invoices[i])
    ensures st.users == LoadUsers(saved.users)
    ensures st.currentUser == saved.currentUser
    ensures st.settings == LoadSettings(saved.settings)
    ensures st.settings.currency != LegacyCurrency
  {
    AppState(
      products := saved.products.GetOr(InitialState.products),
      customers := saved.customers.GetOr(InitialState.customers),
      invoices := if saved.invoices.Some? then NormalizeInvoices(saved.invoices.value) else InitialState.invoices,
      expenses := saved.expenses.GetOr(InitialState.expenses),
      users := LoadUsers(saved.users),
      currentUser := saved.currentUser,
      settings := LoadSettings(saved.settings))
  }

  /** A first start with nothing stored: the initial state plus the seeded administrator. */
  lemma LoadNothingSaved()
    ensures Load(Saved(None, None, None, None, None, None, None)) == InitialState.(users := [DefaultAdmin])
  {
  }

  /** A stored empty user list is kept: the administrator is seeded only when the entry is missing. */
  lemma LoadEmptyUsers(saved: Saved)
    requires saved.users == Some([])
    ensures Load(saved).users == []
  {
  }

  // ---------------------------------------------------------------------------
  // Which pages are reachable
  // ---------------------------------------------------------------------------

  datatype Page =
    | LoginPage
    | DashboardPage
    | ProductsPage
    | CustomersPage
    | InvoicesPage
    | ExpensesPage
    | ReportsPage
    | SettingsPage

  datatype Route = Route(path: string, page: Page)

  const SettingsPath: string := "/settings"

  /** The six routes every signed-in user gets, whatever the role. */
  const SignedInRoutes: seq<Route> := [
    Route("/", DashboardPage),
    Route("/products", ProductsPage),
    Route("/customers", CustomersPage),
    Route("/invoices", InvoicesPage),
    Route("/expenses", ExpensesPage),
    Route("/reports", ReportsPage)]

  /** The routes offered to a signed-in user; the settings route only to an administrator. */
  function Routes(user: User): (rs: seq<Route>)
    ensures user.role == Employee ==> rs == SignedInRoutes
    ensures user.role == Admin ==> rs == SignedInRoutes + [Route(SettingsPath, SettingsPage)]
    ensures (exists i :: 0 <= i < |rs| && rs[i].page == SettingsPage) <==> user.role == Admin
    ensures forall i :: 0 <= i < |rs| ==> rs[i].page != LoginPage
    ensures forall i, j :: 0 <= i < j < |rs| ==> rs[i].path != rs[j].path
    ensures forall i :: 0 <= i < |rs| ==> (rs[i].path == SettingsPath <==> rs[i].page == SettingsPage)
  {
    var common := SignedInRoutes;
    if user.role == Admin then
      var rs := common + [Route(SettingsPath, SettingsPage)];
      assert rs[|common|].page == SettingsPage;
      rs
    else common
  }

  /** The page of the first route whose path is `path`, if any. */
  function MatchRoute(rs: seq<Route>, path: string): (p: Option<Page>)
    ensures p.None? <==> forall i :: 0 <= i < |rs| ==> rs[i].path != path
    ensures p.Some? ==>
      exists i :: (0 <= i < |rs| && rs[i].path == path && rs[i].page == p.value &&
                   forall j :: 0 <= j < i ==> rs[j].path != path)
    decreases |rs|
  {
    if rs == [] then None
    else if rs[0].path == path then Some(rs[0].page)
    else MatchRoute(rs[1..], path)
  }

  /**
   * What is shown at `path`: nobody signed in sees the login page whatever the
   * path; a signed-in user sees the matching route's page, or nothing.
   */
  function Render(currentUser: Option<User>, path: string): (p: Option<Page>)
    ensures currentUser.None? ==> p == Some(LoginPage)
    ensures currentUser.Some? ==> p != Some(LoginPage)
    ensures currentUser.Some? ==>
      (p == Some(SettingsPage) <==> path == SettingsPath && currentUser.value.role == Admin)
  {
    match currentUser
    case None => Some(LoginPage)
    case Some(u) => MatchRoute(Routes(u), path)
  }

  /** The pages some path leads to. */
  function Offered(currentUser: Option<User>): set<Page>
  {
    match currentUser
    case None => {LoginPage}
    case Some(u) => set i | 0 <= i < |Routes(u)| :: Routes(u)[i].page
  }

  /** With nobody signed in only the login page is offered; the settings page exactly to administrators. */
  lemma OfferedPages(currentUser: Option<User>)
    ensures currentUser.None? ==> Offered(currentUser) == {LoginPage}
    ensures currentUser.Some? ==> LoginPage !in Offered(currentUser)
    ensures currentUser.Some? ==> (SettingsPage in Offered(currentUser) <==> currentUser.value.role == Admin)
    ensures currentUser.Some? ==>
      Offered(currentUser) == {DashboardPage, ProductsPage, CustomersPage, InvoicesPage, ExpensesPage, ReportsPage}
                              + (if currentUser.value.role == Admin then {SettingsPage} else {})
  {
    if currentUser.Some? {
      OfferedSignedIn(currentUser.value);
    }
  }

  /** The pages offered to a signed-in user, by role. */
  lemma OfferedSignedIn(u: User)
    ensures Offered(Some(u))
         == {DashboardPage, ProductsPage, CustomersPage, InvoicesPage, ExpensesPage, ReportsPage}
            + (if u.role == Admin then {SettingsPage} else {})
  {
    var rs := Routes(u);
    var expected := {DashboardPage, ProductsPage, CustomersPage, InvoicesPage, ExpensesPage, ReportsPage}
                    + (if u.role == Admin then {SettingsPage} else {});
    var offered := set i | 0 <= i < |rs| :: rs[i].page;
    assert offered == Offered(Some(u));
    forall i | 0 <= i < |rs| ensures rs[i].page in expected { }
    assert rs[0].page in offered && rs[1].page in offered && rs[2].page in offered;
    assert rs[3].page in offered && rs[4].page in offered && rs[5].page in offered;
    if u.role == Admin {
      assert rs[6].page in offered;
    }
  }

  /** What a signed-in user sees at each of the six common paths. */
  lemma RenderSignedIn(u: User)
    ensures Render(Some(u), "/") == Some(DashboardPage)
    ensures Render(Some(u), "/products") == Some(ProductsPage)
    ensures Render(Some(u), "/customers") == Some(CustomersPage)
    ensures Render(Some(u), "/invoices") == Some(InvoicesPage)
    ensures Render(Some(u), "/expenses") == Some(ExpensesPage)
    ensures Render(Some(u), "/reports") == Some(ReportsPage)
  {
    RenderSignedInAt(u, 0);
    RenderSignedInAt(u, 1);
    RenderSignedInAt(u, 2);
    RenderSignedInAt(u, 3);
    RenderSignedInAt(u, 4);
    RenderSignedInAt(u, 5);
  }

  /** Each common route's path leads a signed-in user to its page. */
  lemma RenderSignedInAt(u: User, k: int)
    requires 0 <= k < |SignedInRoutes|
    ensures Render(Some(u), SignedInRoutes[k].path) == Some(SignedInRoutes[k].page)
  {
    var rs := Routes(u);
    assert rs[k] == SignedInRoutes[k];
    MatchFirst(rs, k);
  }

  /** `Offered` is exactly what `Render` can show. */
  lemma RenderShowsOffered(currentUser: Option<User>, page: Page)
    ensures page in Offered(currentUser) <==> exists path :: Render(currentUser, path) == Some(page)
  {
    match currentUser
    case None =>
      assert Render(currentUser, "/") == Some(LoginPage);
    case Some(u) =>
      var rs := Routes(u);
      if page in Offered(currentUser) {
        var i :| 0 <= i < |rs| && rs[i].page == page;
        MatchFirst(rs, i);
        assert Render(currentUser, rs[i].path) == Some(page);
      }
  }

  /** With distinct paths, a route's own path leads to its page. */
  lemma {:induction false} MatchFirst(rs: seq<Route>, i: int)
    requires 0 <= i < |rs|
    requires forall j, k :: 0 <= j < k < |rs| ==> rs[j].path != rs[k].path
    ensures MatchRoute(rs, rs[i].path) == Some(rs[i].page)
    decreases |rs|
  {
    if i > 0 {
      assert rs[0].path != rs[i].path;
      MatchFirst(rs[1..], i - 1);
    }
  }
}
