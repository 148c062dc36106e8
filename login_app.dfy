/**
 * The fixed-credential revision (Kerupuk.py): a hard-coded username/password
 * map guards the whole page, deliveries are validated before they are stored,
 * and every report covers the whole `kirim` table (it has no `user` column).
 */
module LoginApp {
  import opened Wrappers
  import opened Calendar
  import opened Ledger
  import opened Sql
  import opened Aggregate
  import opened Reports

  /** `USERS`: the only accepted usernames and their passwords. */
  const Credentials: map<string, string> := map["admin" := "1234", "aceng" := "kerupuk"]

  /** `username in USERS and USERS[username] == password`. */
  function CredentialsOk(username: string, password: string): (ok: bool)
    ensures ok <==> (username, password) == ("admin", "1234") || (username, password) == ("aceng", "kerupuk")
  {
    username in Credentials && Credentials[username] == password
  }

  class App {
    /** `st.session_state.logged_in`. */
    var loggedIn: bool
    const ledger: KirimTable

    ghost predicate Valid()
      reads this, ledger
    {
      && ledger.Valid()
      && (forall r :: r in ledger.rows ==> Plausible(r) && r.user == None)
    }

    constructor ()
      ensures Valid() && fresh(ledger)
      ensures !loggedIn && ledger.rows == [] && ledger.lastId == 0
    {
      loggedIn := false;
      ledger := new KirimTable();
    }

    /**
     * The "Login" button, shown only while logged out; everything below it
     * waits behind `st.stop()` until it succeeds. There is no logout, so
     * `loggedIn` only ever moves from false to true.
     */
    method Login(username: string, password: string) returns (ok: bool)
      requires Valid() && !loggedIn
      modifies this
      ensures Valid()
      ensures ok == CredentialsOk(username, password)
      ensures loggedIn == ok
    {
      ok := CredentialsOk(username, password);
      if ok {
        loggedIn := true;
      }
    }

    /** "Simpan" on the delivery form: the same two checks as the account revision, no owner. */
    method SaveDelivery(tanggal: Date, warung: string, jumlahKirim: nat, jumlahTerjual: nat, hargaSatuan: nat)
      returns (err: Option<SaveError>)
      requires Valid() && loggedIn
      modifies ledger
      ensures Valid()
      ensures err == CheckDelivery(warung, jumlahKirim, jumlahTerjual)
      ensures err.Some? ==> ledger.rows == old(ledger.rows) && ledger.lastId == old(ledger.lastId)
      ensures err.None? ==>
        && ledger.rows == old(ledger.rows) + [Delivery(old(ledger.lastId) + 1, tanggal, warung, jumlahKirim, jumlahTerjual, hargaSatuan, None)]
        && ledger.lastId == old(ledger.lastId) + 1
    {
      err := CheckDelivery(warung, jumlahKirim, jumlahTerjual);
      if err.None? {
        var row := ledger.Insert(tanggal, warung, jumlahKirim, jumlahTerjual, hargaSatuan, None);
      }
    }
  }

  /**
   * "Dashboard": today's rows, their total and the per-outlet breakdown. The
   * recap and the monthly report are `Reports.FullRecap` and `Reports.MonthlyAll`.
   */
  function DashboardToday(rows: seq<Delivery>, today: Date): (d: Reports.Dashboard)
    ensures forall r :: r in d.table.rows <==> r in rows && r.tanggal == today
    ensures forall r :: multiset(d.table.rows)[r] == if r.tanggal == today then multiset(rows)[r] else 0
    ensures RevenueColumn(d.table)
    ensures d.table.total == TotalRevenue(d.table.rows)
    ensures SumAmounts(d.perOutlet) == d.table.total
    ensures forall i, j :: 0 <= i < j < |d.perOutlet| ==> d.perOutlet[i].key != d.perOutlet[j].key
    ensures forall r :: r in d.table.rows ==> Listed(d.perOutlet, r.warung)
    ensures forall i :: 0 <= i < |d.perOutlet| ==>
      && Occurs(d.table.rows, Outlet, d.perOutlet[i].key)
      && d.perOutlet[i].amount == TotalRevenue(WithKey(d.table.rows, Outlet, d.perOutlet[i].key))
  {
    Daily(rows, today, [])
  }
}
