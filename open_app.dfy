/**
 * The earliest revision (kerupuk.py): no login and no validation; the save
 * button stores whatever the form holds, and the reports cover every row.
 */
module OpenApp {
  import opened Wrappers
  import opened Calendar
  import opened Ledger
  import opened Sql
  import opened Aggregate
  import opened Reports

  class App {
    const ledger: KirimTable

    /** The number inputs have `min_value=0`, so every stored row is non-negative; nothing else is promised. */
    ghost predicate Valid()
      reads this, ledger
    {
      && ledger.Valid()
      && (forall r :: r in ledger.rows ==> r.user == None && NonNegative(r))
    }

    constructor ()
      ensures Valid() && fresh(ledger)
      ensures ledger.rows == [] && ledger.lastId == 0
    {
      ledger := new KirimTable();
    }

    /** "Simpan": an unconditional `INSERT`. */
    method SaveDelivery(tanggal: Date, warung: string, jumlahKirim: nat, jumlahTerjual: nat, hargaSatuan: nat)
      returns (row: Delivery)
      requires Valid()
      modifies ledger
      ensures Valid()
      ensures row == Delivery(old(ledger.lastId) + 1, tanggal, warung, jumlahKirim, jumlahTerjual, hargaSatuan, None)
      ensures ledger.rows == old(ledger.rows) + [row]
      ensures ledger.lastId == row.id
    {
      row := ledger.Insert(tanggal, warung, jumlahKirim, jumlahTerjual, hargaSatuan, None);
    }
  }

  /**
   * "Dashboard Harian": today's rows and their total; this revision draws no
   * chart. The recap is `Reports.FullRecap`. The monthly report splices the
   * month in as `'{bulan:02}'` and the year as `'{tahun}'`, the same texts the
   * other revisions bind as parameters, so it is `Reports.MonthlyAll`.
   */
  function DashboardToday(rows: seq<Delivery>, today: Date): (t: Table)
    ensures forall r :: r in t.rows <==> r in rows && r.tanggal == today
    ensures forall r :: multiset(t.rows)[r] == if r.tanggal == today then multiset(rows)[r] else 0
    ensures RevenueColumn(t)
    ensures t.total == TotalRevenue(t.rows)
  {
    Daily(rows, today, []).table
  }

  /** Without validation, a row with no outlet that sells more than was delivered is stored and counted. */
  method UnvalidatedScenario() returns (stored: Table)
    ensures |stored.rows| == 1
    ensures stored.rows[0].warung == "" && stored.rows[0].jumlahTerjual > stored.rows[0].jumlahKirim
    ensures stored.total == 50000
  {
    var app := new App();
    var row := app.SaveDelivery(YearMonthDay(2024, 5, 1), "", 5, 10, 5000);
    stored := FullRecap(app.ledger.rows);
    assert stored.rows == [row];
    assert [row][1..] == [];
    assert SumOf([row], Revenue) == Revenue(row) + SumOf([], Revenue);
  }
}
