/**
 * The `kirim` table: one row per delivery of crackers to an outlet ("warung"),
 * with how many were delivered, how many sold and the unit price in Rupiah.
 * Rows are only ever appended; `id` is SQLite's AUTOINCREMENT key.
 */
module Ledger {
  import opened Wrappers
  import opened Calendar

  /** One row of `kirim`. `user` is NULL (None) in the revisions whose table has no such column. */
  datatype Delivery = Delivery(
    id: int,
    tanggal: Date,
    warung: string,
    jumlahKirim: int,
    jumlahTerjual: int,
    hargaSatuan: int,
    user: Option<string>)

  /** The "Pendapatan" column every report derives: units sold times unit price. */
  function Revenue(r: Delivery): int {
    r.jumlahTerjual * r.hargaSatuan
  }

  /** The number inputs all have `min_value=0`. */
  predicate NonNegative(r: Delivery) {
    r.jumlahKirim >= 0 && r.jumlahTerjual >= 0 && r.hargaSatuan >= 0
  }

  /** What the validated revisions check before inserting. */
  predicate Plausible(r: Delivery) {
    r.warung != "" && r.jumlahTerjual <= r.jumlahKirim
  }

  datatype SaveError =
    | EmptyOutlet  // "Nama warung wajib diisi."
    | Oversold     // "Jumlah terjual tidak boleh lebih besar dari jumlah kirim."

  /** The save button's checks, in the source's order: an empty outlet is reported first. */
  function CheckDelivery(warung: string, jumlahKirim: int, jumlahTerjual: int): (r: Option<SaveError>)
    ensures r == None <==> warung != "" && jumlahTerjual <= jumlahKirim
    ensures r == Some(EmptyOutlet) <==> warung == ""
    ensures r == Some(Oversold) <==> warung != "" && jumlahTerjual > jumlahKirim
  {
    if warung == "" then Some(EmptyOutlet)
    else if jumlahTerjual > jumlahKirim then Some(Oversold)
    else None
  }

  predicate IdsIncreasing(rows: seq<Delivery>) {
    forall i, j :: 0 <= i < j < |rows| ==> rows[i].id < rows[j].id
  }

  class KirimTable {
    var rows: seq<Delivery>
    /** The largest id handed out so far (SQLite's `sqlite_sequence` entry). */
    var lastId: int

    ghost predicate Valid()
      reads this
    {
      && 0 <= lastId
      && IdsIncreasing(rows)
      && (forall r :: r in rows ==> 1 <= r.id <= lastId && NonNegative(r))
    }

    /** `CREATE TABLE IF NOT EXISTS kirim (...)` on a fresh database. */
    constructor ()
      ensures Valid()
      ensures rows == [] && lastId == 0
    {
      rows := [];
      lastId := 0;
    }

    /** `INSERT INTO kirim (...) VALUES (...)`: one new row with the next id. */
    method Insert(tanggal: Date, warung: string, jumlahKirim: nat, jumlahTerjual: nat, hargaSatuan: nat,
                  user: Option<string>) returns (row: Delivery)
      requires Valid()
      modifies this
      ensures Valid()
      ensures row == Delivery(old(lastId) + 1, tanggal, warung, jumlahKirim, jumlahTerjual, hargaSatuan, user)
      ensures rows == old(rows) + [row]
      ensures lastId == row.id
    {
      lastId := lastId + 1;
      row := Delivery(lastId, tanggal, warung, jumlahKirim, jumlahTerjual, hargaSatuan, user);
      rows := rows + [row];
    }
  }
}
