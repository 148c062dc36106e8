/**
 * The reports every revision offers, over the `kirim` rows: the daily
 * dashboard, the monthly report and (in the account revision) payroll.
 * `scope` is the extra `WHERE` conditions a revision adds for the viewer
 * (none, or `user = ?` for a non-admin).
 */
module Reports {
  import opened Wrappers
  import opened Calendar
  import opened Ledger
  import opened Sql
  import opened Aggregate

  function Outlet(r: Delivery): string {
    r.warung
  }

  /** The dashboard's table and the data of its bar chart (`groupby("warung")["Pendapatan"].sum()`). */
  datatype Dashboard = Dashboard(table: Table, perOutlet: seq<Subtotal<string>>)

  /** `WHERE tanggal = ?` with today's date, then the scope. */
  function DailyQuery(today: Date, scope: seq<Cond>): (q: seq<Cond>)
    ensures forall r :: HoldsAll(r, q) <==> r.tanggal == today && HoldsAll(r, scope)
  {
    HoldsAllConcat([DateIs(today)], scope);
    HoldsAllSingle(DateIs(today));
    [DateIs(today)] + scope
  }

  function Daily(rows: seq<Delivery>, today: Date, scope: seq<Cond>): (d: Dashboard)
    ensures forall r :: r in d.table.rows <==> r in rows && r.tanggal == today && HoldsAll(r, scope)
    ensures forall r ::
      multiset(d.table.rows)[r] == if r.tanggal == today && HoldsAll(r, scope) then multiset(rows)[r] else 0
    ensures RevenueColumn(d.table)
    ensures d.table.total == TotalRevenue(d.table.rows)
    ensures SumAmounts(d.perOutlet) == d.table.total
    ensures forall i, j :: 0 <= i < j < |d.perOutlet| ==> d.perOutlet[i].key != d.perOutlet[j].key
    ensures forall r :: r in d.table.rows ==> Listed(d.perOutlet, r.warung)
    ensures forall i :: 0 <= i < |d.perOutlet| ==>
      && Occurs(d.table.rows, Outlet, d.perOutlet[i].key)
      && d.perOutlet[i].amount == TotalRevenue(WithKey(d.table.rows, Outlet, d.perOutlet[i].key))
  {
    var shown := Select(rows, DailyQuery(today, scope));
    GroupSumsTotal(shown, Outlet, Revenue);
    GroupSumsKeysDistinct(shown, Outlet, Revenue);
    GroupSumsKeysListed(shown, Outlet, Revenue);
    GroupSumsKeysOccur(shown, Outlet, Revenue);
    GroupSumsAmounts(shown, Outlet, Revenue);
    Dashboard(Tabulate(shown), GroupSums(shown, Outlet, Revenue))
  }

  /**
   * `WHERE strftime('%m', tanggal) = ? AND strftime('%Y', tanggal) = ?` with
   * `f"{bulan:02}"` and `str(tahun)`, then the scope.
   */
  function MonthlyQuery(bulan: int, tahun: int, scope: seq<Cond>): seq<Cond>
    requires 1 <= bulan <= 12
  {
    [MonthIs(TwoDigits(bulan)), YearIs(IntText(tahun))] + scope
  }

  /** The month and year tests select by calendar month and year, whatever the day. */
  lemma MonthlyQueryMeans(bulan: int, tahun: int, scope: seq<Cond>)
    requires 1 <= bulan <= 12
    ensures forall r :: HoldsAll(r, MonthlyQuery(bulan, tahun, scope)) <==>
      r.tanggal.month == bulan && r.tanggal.year == tahun && 1000 <= tahun && HoldsAll(r, scope)
  {
    forall r: Delivery
      ensures HoldsAll(r, MonthlyQuery(bulan, tahun, scope)) <==>
        r.tanggal.month == bulan && r.tanggal.year == tahun && 1000 <= tahun && HoldsAll(r, scope)
    {
      MonthFieldMatches(r.tanggal, bulan);
      YearFieldExactly(r.tanggal, tahun);
      var q := MonthlyQuery(bulan, tahun, scope);
      assert q[0] == MonthIs(TwoDigits(bulan)) && q[1] == YearIs(IntText(tahun));
      assert HoldsAll(r, q) <==> Holds(r, q[0]) && Holds(r, q[1]) && HoldsAll(r, scope);
    }
  }

  function Monthly(rows: seq<Delivery>, bulan: int, tahun: int, scope: seq<Cond>): (t: Table)
    requires 1 <= bulan <= 12
    ensures forall r :: r in t.rows <==>
      r in rows && r.tanggal.month == bulan && r.tanggal.year == tahun && 1000 <= tahun && HoldsAll(r, scope)
    ensures forall r ::
      multiset(t.rows)[r] ==
        if r.tanggal.month == bulan && r.tanggal.year == tahun && 1000 <= tahun && HoldsAll(r, scope)
        then multiset(rows)[r] else 0
    ensures RevenueColumn(t)
    ensures t.total == TotalRevenue(t.rows)
  {
    MonthlyQueryMeans(bulan, tahun, scope);
    Tabulate(Select(rows, MonthlyQuery(bulan, tahun, scope)))
  }

  /**
   * A save changes the monthly report by at most the new row: the report of
   * the longer table is the old report followed by the new row when that row
   * is in the month, year and scope, and its total grows by that row's revenue.
   */
  lemma MonthlyAfterSave(rows: seq<Delivery>, row: Delivery, bulan: int, tahun: int, scope: seq<Cond>)
    requires 1 <= bulan <= 12
    ensures var shown := row.tanggal.month == bulan && row.tanggal.year == tahun && 1000 <= tahun && HoldsAll(row, scope);
      && Monthly(rows + [row], bulan, tahun, scope).rows
         == Monthly(rows, bulan, tahun, scope).rows + (if shown then [row] else [])
      && Monthly(rows + [row], bulan, tahun, scope).total
         == Monthly(rows, bulan, tahun, scope).total + (if shown then Revenue(row) else 0)
  {
    var q := MonthlyQuery(bulan, tahun, scope);
    MonthlyQueryMeans(bulan, tahun, scope);
    SelectAppend(rows, [row], q);
    assert [row][1..] == [];
    var added := if HoldsAll(row, q) then [row] else [];
    assert Select([row], q) == added;
    SumOfAppend(Select(rows, q), added, Revenue);
    assert SumOf(added, Revenue) == if HoldsAll(row, q) then Revenue(row) else 0 by {
      if HoldsAll(row, q) {
        assert SumOf([row], Revenue) == Revenue(row) + SumOf([row][1..], Revenue);
      }
    }
  }

  /** "Rekap Penjualan" with no filter: `SELECT * FROM kirim`, its revenue column and its total. */
  function FullRecap(rows: seq<Delivery>): (t: Table)
    ensures t.rows == rows
    ensures |t.pendapatan| == |rows|
    ensures forall i :: 0 <= i < |rows| ==> t.pendapatan[i] == Revenue(rows[i])
    ensures t.total == TotalRevenue(rows)
  {
    Tabulate(rows)
  }

  /** With the non-negative inputs the forms enforce, the recap's total is never negative. */
  lemma FullRecapNonNegative(rows: seq<Delivery>)
    requires forall r :: r in rows ==> NonNegative(r)
    ensures FullRecap(rows).total >= 0
  {
    TotalRevenueNonNegative(rows);
  }

  /** The monthly report of the revisions without accounts, which every viewer sees in full. */
  function MonthlyAll(rows: seq<Delivery>, bulan: int, tahun: int): (t: Table)
    requires 1 <= bulan <= 12
    ensures forall r :: r in t.rows <==>
      r in rows && r.tanggal.month == bulan && r.tanggal.year == tahun && 1000 <= tahun
    ensures forall r ::
      multiset(t.rows)[r] ==
        if r.tanggal.month == bulan && r.tanggal.year == tahun && 1000 <= tahun then multiset(rows)[r] else 0
    ensures RevenueColumn(t)
    ensures t.total == TotalRevenue(t.rows)
  {
    Monthly(rows, bulan, tahun, [])
  }

  /** `margin_per_kerupuk`: the wage per cracker sold, in Rupiah. */
  const MarginPerKerupuk: int := 1000

  function Sold(r: Delivery): int {
    r.jumlahTerjual
  }

  /** The payroll's `GROUP BY tanggal, user` key. */
  function DayAndUser(r: Delivery): (Date, Option<string>) {
    (r.tanggal, r.user)
  }

  /** One payroll row: units sold by one user on one day, and that day's pay ("Gaji Hari Itu"). */
  datatype PayLine = PayLine(tanggal: Date, user: Option<string>, totalTerjual: int, gaji: int)

  datatype PayReport = PayReport(lines: seq<PayLine>, total: int)

  function SumGaji(lines: seq<PayLine>): int {
    if lines == [] then 0 else lines[0].gaji + SumGaji(lines[1..])
  }

  /** `df["Gaji Hari Itu"] = df["total_terjual"] * margin_per_kerupuk`. */
  function PayLines(gs: seq<Subtotal<(Date, Option<string>)>>): (lines: seq<PayLine>)
    ensures |lines| == |gs|
    ensures forall i :: 0 <= i < |gs| ==>
      && (lines[i].tanggal, lines[i].user) == gs[i].key
      && lines[i].totalTerjual == gs[i].amount
      && lines[i].gaji == gs[i].amount * MarginPerKerupuk
    ensures SumGaji(lines) == SumAmounts(gs) * MarginPerKerupuk
  {
    if gs == [] then []
    else [PayLine(gs[0].key.0, gs[0].key.1, gs[0].amount, gs[0].amount * MarginPerKerupuk)] + PayLines(gs[1..])
  }

  /** Every row's (date, user) pair has a payroll line. */
  lemma PayrollCoversRows(rows: seq<Delivery>)
    ensures var lines := PayLines(GroupSums<(Date, Option<string>)>(rows, DayAndUser, Sold));
      forall r :: r in rows ==> exists i :: 0 <= i < |lines| && lines[i].tanggal == r.tanggal && lines[i].user == r.user
  {
    var gs := GroupSums<(Date, Option<string>)>(rows, DayAndUser, Sold);
    var lines := PayLines(gs);
    GroupSumsKeysListed<(Date, Option<string>)>(rows, DayAndUser, Sold);
    forall r | r in rows
      ensures exists i :: 0 <= i < |lines| && lines[i].tanggal == r.tanggal && lines[i].user == r.user
    {
      assert Listed(gs, DayAndUser(r));
      var i :| 0 <= i < |gs| && gs[i].key == DayAndUser(r);
      assert (lines[i].tanggal, lines[i].user) == gs[i].key;
      assert 0 <= i < |lines| && lines[i].tanggal == r.tanggal && lines[i].user == r.user;
    }
    assert lines == PayLines(GroupSums<(Date, Option<string>)>(rows, DayAndUser, Sold));
  }

  /** `SELECT tanggal, user, SUM(jumlah_terjual) FROM kirim GROUP BY tanggal, user`, with pay and grand total. */
  function Payroll(rows: seq<Delivery>): (p: PayReport)
    ensures forall i, j :: 0 <= i < j < |p.lines| ==>
      (p.lines[i].tanggal, p.lines[i].user) != (p.lines[j].tanggal, p.lines[j].user)
    ensures forall r :: r in rows ==> exists i :: 0 <= i < |p.lines| && p.lines[i].tanggal == r.tanggal && p.lines[i].user == r.user
    ensures forall i :: 0 <= i < |p.lines| ==>
      && Occurs(rows, DayAndUser, (p.lines[i].tanggal, p.lines[i].user))
      && p.lines[i].totalTerjual == SumOf(WithKey(rows, DayAndUser, (p.lines[i].tanggal, p.lines[i].user)), Sold)
      && p.lines[i].gaji == p.lines[i].totalTerjual * MarginPerKerupuk
    ensures p.total == SumGaji(p.lines)
    ensures p.total == SumOf(rows, Sold) * MarginPerKerupuk
  {
    var gs := GroupSums(rows, DayAndUser, Sold);
    GroupSumsTotal(rows, DayAndUser, Sold);
    GroupSumsKeysDistinct(rows, DayAndUser, Sold);
    PayrollCoversRows(rows);
    GroupSumsKeysOccur(rows, DayAndUser, Sold);
    GroupSumsAmounts(rows, DayAndUser, Sold);
    var lines := PayLines(gs);
    PayReport(lines, SumGaji(lines))
  }
}
