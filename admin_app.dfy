/**
 * The account revision (aplikasi_admin.py): self-service registration with a
 * first-user-becomes-admin bootstrap, a three-field session, an admin-only
 * user manager and payroll, owner-stamped deliveries, and reports whose rows
 * a non-admin sees only when they are their own.
 */
module AdminApp {
  import opened Wrappers
  import opened Calendar
  import opened Ledger
  import opened Sql
  import opened Aggregate
  import opened Reports
  import opened Accounts

  datatype MenuItem =
    | KirimKeWarung   // record a delivery
    | RekapPenjualan  // recap
    | DashboardHarian // daily dashboard
    | LaporanBulanan  // monthly report
    | GajiKaryawan    // payroll

  /** The sidebar menu for the session's role. */
  function MenuOptions(isAdmin: bool): (menu: seq<MenuItem>)
    ensures GajiKaryawan in menu <==> isAdmin
    ensures KirimKeWarung in menu <==> !isAdmin
    ensures RekapPenjualan in menu && DashboardHarian in menu && LaporanBulanan in menu
    ensures |menu| == 4
  {
    if isAdmin then [RekapPenjualan, DashboardHarian, LaporanBulanan, GajiKaryawan]
    else [KirimKeWarung, RekapPenjualan, DashboardHarian, LaporanBulanan]
  }

  class App {
    var users: Users
    /** `st.session_state.logged_in`, `.username` and `.is_admin`. */
    var loggedIn: bool
    var username: string
    var isAdmin: bool
    const ledger: KirimTable

    ghost predicate Valid()
      reads this, ledger
    {
      && ledger.Valid()
      && (users != map[] ==> HasAdmin(users))
      && (loggedIn ==> username in users && users[username].isAdmin == isAdmin)
      && (!loggedIn ==> username == "" && !isAdmin)
      && (forall r :: r in ledger.rows ==> Plausible(r) && r.user.Some? && r.user.value in users)
    }

    /** Fresh tables and the session defaults `(False, "", False)`. */
    constructor ()
      ensures Valid() && fresh(ledger)
      ensures users == map[] && ledger.rows == [] && ledger.lastId == 0
      ensures !loggedIn && username == "" && !isAdmin
    {
      users := map[];
      loggedIn, username, isAdmin := false, "", false;
      ledger := new KirimTable();
    }

    /** The "Daftar" form, reachable only while logged out. */
    method Register(newUser: string, newPass: string) returns (accepted: bool)
      requires Valid() && !loggedIn
      modifies this
      ensures Valid()
      ensures accepted <==> newUser !in old(users)
      ensures accepted ==> users == Accounts.Register(old(users), newUser, newPass).value
      ensures !accepted ==> users == old(users)
      ensures loggedIn == old(loggedIn) && username == old(username) && isAdmin == old(isAdmin)
    {
      var r := Accounts.Register(users, newUser, newPass);
      if r.Success? {
        RegisterKeepsAnAdmin(users, newUser, newPass);
        users := r.value;
        accepted := true;
      } else {
        accepted := false;
      }
    }

    /** The "Masuk" button. On failure the session is left as it was. */
    method Login(user: string, password: string) returns (ok: bool)
      requires Valid() && !loggedIn
      modifies this
      ensures Valid()
      ensures ok <==> Authenticate(users, user, password).Some?
      ensures ok ==> loggedIn && username == user && isAdmin == users[user].isAdmin
      ensures !ok ==> loggedIn == old(loggedIn) && username == old(username) && isAdmin == old(isAdmin)
      ensures users == old(users)
    {
      var row := Authenticate(users, user, password);
      if row.Some? {
        loggedIn := true;
        username := user;
        isAdmin := row.value;
        ok := true;
      } else {
        ok := false;
      }
    }

    method Logout()
      requires Valid() && loggedIn
      modifies this
      ensures Valid()
      ensures !loggedIn && username == "" && !isAdmin
      ensures users == old(users)
    {
      loggedIn := false;
      username := "";
      isAdmin := false;
    }

    /** "Jadikan Admin": offered to a logged-in admin, for the current non-admins only. */
    method PromoteUser(target: string)
      requires Valid() && loggedIn && isAdmin
      requires target in NonAdmins(users)
      modifies this
      ensures Valid()
      ensures users == Promote(old(users), target)
      ensures loggedIn == old(loggedIn) && username == old(username) && isAdmin == old(isAdmin)
    {
      PromoteKeepsAnAdmin(users, target);
      users := Promote(users, target);
    }

    /** "Simpan" on the delivery form, which only a non-admin's menu offers. */
    method SaveDelivery(tgl: Date, warung: string, kirim: nat, jual: nat, harga: nat) returns (err: Option<SaveError>)
      requires Valid() && loggedIn && KirimKeWarung in MenuOptions(isAdmin)
      modifies ledger
      ensures Valid()
      ensures err == CheckDelivery(warung, kirim, jual)
      ensures err.Some? ==> ledger.rows == old(ledger.rows) && ledger.lastId == old(ledger.lastId)
      ensures err.None? ==>
        && ledger.rows == old(ledger.rows) + [Delivery(old(ledger.lastId) + 1, tgl, warung, kirim, jual, harga, Some(username))]
        && ledger.lastId == old(ledger.lastId) + 1
    {
      err := CheckDelivery(warung, kirim, jual);
      if err.None? {
        var row := ledger.Insert(tgl, warung, kirim, jual, harga, Some(username));
      }
    }
  }

  /** The extra `AND user = ?` a non-admin's dashboard and monthly report carry. */
  function OwnerScope(isAdmin: bool, username: string): (scope: seq<Cond>)
    ensures forall r :: HoldsAll(r, scope) <==> isAdmin || r.user == Some(username)
  {
    HoldsAllSingle(OwnerIs(Some(username)));
    if isAdmin then [] else [OwnerIs(Some(username))]
  }

  function DailyDashboard(rows: seq<Delivery>, isAdmin: bool, username: string, today: Date): (d: Reports.Dashboard)
    ensures forall r :: r in d.table.rows <==> r in rows && r.tanggal == today && (isAdmin || r.user == Some(username))
    ensures forall r ::
      multiset(d.table.rows)[r] ==
        if r.tanggal == today && (isAdmin || r.user == Some(username)) then multiset(rows)[r] else 0
    ensures RevenueColumn(d.table)
    ensures d.table.total == TotalRevenue(d.table.rows)
    ensures SumAmounts(d.perOutlet) == d.table.total
    ensures forall i, j :: 0 <= i < j < |d.perOutlet| ==> d.perOutlet[i].key != d.perOutlet[j].key
    ensures forall r :: r in d.table.rows ==> Listed(d.perOutlet, r.warung)
    ensures forall i :: 0 <= i < |d.perOutlet| ==>
      && Occurs(d.table.rows, Outlet, d.perOutlet[i].key)
      && d.perOutlet[i].amount == TotalRevenue(WithKey(d.table.rows, Outlet, d.perOutlet[i].key))
  {
    Daily(rows, today, OwnerScope(isAdmin, username))
  }

  function MonthlyReport(rows: seq<Delivery>, isAdmin: bool, username: string, bulan: int, tahun: int): (t: Table)
    requires 1 <= bulan <= 12
    ensures forall r :: r in t.rows <==>
      r in rows && r.tanggal.month == bulan && r.tanggal.year == tahun && 1000 <= tahun
      && (isAdmin || r.user == Some(username))
    ensures forall r ::
      multiset(t.rows)[r] ==
        if r.tanggal.month == bulan && r.tanggal.year == tahun && 1000 <= tahun && (isAdmin || r.user == Some(username))
        then multiset(rows)[r] else 0
    ensures RevenueColumn(t)
    ensures t.total == TotalRevenue(t.rows)
  {
    Monthly(rows, bulan, tahun, OwnerScope(isAdmin, username))
  }

  /** The recap's owner filter: the admin's choice in the select box, or the session's own name. */
  function RecapOwner(isAdmin: bool, username: string, choice: Option<string>): Option<string> {
    if isAdmin then choice else Some(username)
  }

  /**
   * The recap's query as the source assembles it: `WHERE user = ?` unless the
   * owner filter is the literal "Semua", then `warung LIKE ?` if an outlet
   * filter was typed, joined with `AND`.
   */
  function RecapQuery(filterUser: Option<string>, filterWarung: string): (q: seq<Cond>)
    ensures forall r :: HoldsAll(r, q) <==>
      && (filterUser == Some("Semua") || (filterUser.Some? && r.user == filterUser))
      && (filterWarung == "" || Contains(r.warung, filterWarung))
  {
    var byUser := if filterUser != Some("Semua") then [OwnerIs(filterUser)] else [];
    var byWarung := if filterWarung != "" then [OutletLike(filterWarung)] else [];
    HoldsAllConcat(byUser, byWarung);
    HoldsAllSingle(OwnerIs(filterUser));
    HoldsAllSingle(OutletLike(filterWarung));
    byUser + byWarung
  }

  /** "Rekap Penjualan", as written. */
  function Recap(rows: seq<Delivery>, isAdmin: bool, username: string, choice: Option<string>, filterWarung: string): (t: Table)
    ensures forall r :: r in t.rows <==>
      && r in rows
      && (RecapOwner(isAdmin, username, choice) == Some("Semua")
          || (RecapOwner(isAdmin, username, choice).Some? && r.user == RecapOwner(isAdmin, username, choice)))
      && (filterWarung == "" || Contains(r.warung, filterWarung))
    ensures forall r ::
      multiset(t.rows)[r] ==
        if && (RecapOwner(isAdmin, username, choice) == Some("Semua")
               || (RecapOwner(isAdmin, username, choice).Some? && r.user == RecapOwner(isAdmin, username, choice)))
           && (filterWarung == "" || Contains(r.warung, filterWarung))
        then multiset(rows)[r] else 0
    ensures RevenueColumn(t)
    ensures t.total == TotalRevenue(t.rows)
  {
    Tabulate(Select(rows, RecapQuery(RecapOwner(isAdmin, username, choice), filterWarung)))
  }

  /** A non-admin sees only their own rows in the recap, unless their name is "Semua". */
  lemma RecapVisibility(rows: seq<Delivery>, username: string, choice: Option<string>, filterWarung: string)
    requires username != "Semua"
    ensures forall r :: r in Recap(rows, false, username, choice, filterWarung).rows <==>
      r in rows && r.user == Some(username) && (filterWarung == "" || Contains(r.warung, filterWarung))
    ensures forall r ::
      multiset(Recap(rows, false, username, choice, filterWarung).rows)[r] ==
        if r.user == Some(username) && (filterWarung == "" || Contains(r.warung, filterWarung))
        then multiset(rows)[r] else 0
  {
  }

  /** As written: a non-admin registered as "Semua" is shown every row of the table. */
  lemma RecapSemuaSeesEverything(rows: seq<Delivery>, choice: Option<string>)
    ensures Recap(rows, false, "Semua", choice, "").rows == rows
  {
    var q := RecapQuery(Some("Semua"), "");
    assert q == [];
    SelectAll(rows);
  }

  lemma {:induction false} SelectAll(rows: seq<Delivery>)
    ensures Select(rows, []) == rows
  {
    if rows != [] {
      SelectAll(rows[1..]);
    }
  }

  /** The recap's query with the owner filter decided by the role, not by the name "Semua". */
  function ScopedRecapQuery(isAdmin: bool, username: string, choice: Option<string>, filterWarung: string): (q: seq<Cond>)
    ensures forall r :: HoldsAll(r, q) <==>
      && (if isAdmin then choice == Some("Semua") || (choice.Some? && r.user == choice) else r.user == Some(username))
      && (filterWarung == "" || Contains(r.warung, filterWarung))
  {
    var byUser := if isAdmin then (if choice != Some("Semua") then [OwnerIs(choice)] else []) else [OwnerIs(Some(username))];
    var byWarung := if filterWarung != "" then [OutletLike(filterWarung)] else [];
    HoldsAllConcat(byUser, byWarung);
    HoldsAllSingle(OwnerIs(choice));
    HoldsAllSingle(OwnerIs(Some(username)));
    HoldsAllSingle(OutletLike(filterWarung));
    byUser + byWarung
  }

  /** The corrected recap: a non-admin sees exactly their own rows, whatever their name. */
  function ScopedRecap(rows: seq<Delivery>, isAdmin: bool, username: string, choice: Option<string>, filterWarung: string): (t: Table)
    ensures !isAdmin ==> forall r :: r in t.rows <==>
      r in rows && r.user == Some(username) && (filterWarung == "" || Contains(r.warung, filterWarung))
    ensures !isAdmin ==> forall r ::
      multiset(t.rows)[r] ==
        if r.user == Some(username) && (filterWarung == "" || Contains(r.warung, filterWarung))
        then multiset(rows)[r] else 0
    ensures isAdmin ==> t == Recap(rows, isAdmin, username, choice, filterWarung)
    ensures RevenueColumn(t)
    ensures t.total == TotalRevenue(t.rows)
  {
    Tabulate(Select(rows, ScopedRecapQuery(isAdmin, username, choice, filterWarung)))
  }

  /**
   * The path that reaches the as-written recap leak: registration accepts the
   * name "Semua", and that user's recap then lists another employee's delivery.
   */
  method SemuaScenario() returns (shown: seq<Delivery>)
    ensures exists r :: r in shown && r.user == Some("bob")
  {
    var app := new App();
    var ok := app.Register("admin1", "rahasia");
    ok := app.Register("bob", "bob123");
    ok := app.Register("Semua", "semua");
    assert app.users["bob"] == Account("bob123", false);
    assert app.users["Semua"] == Account("semua", false);
    ok := app.Login("bob", "bob123");
    assert ok && !app.isAdmin;
    var err := app.SaveDelivery(YearMonthDay(2024, 5, 1), "Toko A", 100, 40, 5000);
    assert app.ledger.rows[0].user == Some("bob");
    app.Logout();
    ok := app.Login("Semua", "semua");
    assert ok;
    assert app.loggedIn && !app.isAdmin && app.username == "Semua";
    shown := Recap(app.ledger.rows, app.isAdmin, app.username, Some("Semua"), "").rows;
    assert app.ledger.rows[0] in shown;
  }
}
