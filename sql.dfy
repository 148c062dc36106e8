/**
 * The `WHERE` clauses the reports send to SQLite, as data: a query is a list
 * of conditions joined by `AND` (the recap's "WHERE ... AND ..." assembly), and
 * `Select` is `SELECT * FROM kirim WHERE ...`, keeping the table's row order.
 */
module Sql {
  import opened Wrappers
  import opened Calendar
  import opened Ledger

  datatype Cond =
    | OwnerIs(owner: Option<string>)   // user = ?
    | OutletLike(pattern: string)      // warung LIKE '%pattern%'
    | DateIs(day: Date)                // tanggal = ?
    | MonthIs(mm: string)              // strftime('%m', tanggal) = ?
    | YearIs(yyyy: string)             // strftime('%Y', tanggal) = ?

  /** `text LIKE '%part%'`, read as a plain substring test. */
  predicate Contains(text: string, part: string)
    decreases |text|
  {
    if |part| > |text| then false
    else if text[..|part|] == part then true
    else |text| > 0 && Contains(text[1..], part)
  }

  /** `part` stands in `text` from position `i` on. */
  predicate OccursAt(text: string, part: string, i: int) {
    0 <= i <= |text| - |part| && text[i..i + |part|] == part
  }

  lemma {:induction false} ContainsIffOccurs(text: string, part: string)
    ensures Contains(text, part) <==> exists i :: OccursAt(text, part, i)
    decreases |text|
  {
    if |part| > |text| {
    } else if text[..|part|] == part {
      assert OccursAt(text, part, 0);
    } else if |text| > 0 {
      ContainsIffOccurs(text[1..], part);
      if Contains(text[1..], part) {
        var i :| OccursAt(text[1..], part, i);
        assert text[i + 1..i + 1 + |part|] == text[1..][i..i + |part|];
        assert OccursAt(text, part, i + 1);
      } else {
        forall i | OccursAt(text, part, i)
          ensures false
        {
          assert i != 0;
          assert text[i..i + |part|] == text[1..][i - 1..i - 1 + |part|];
          assert OccursAt(text[1..], part, i - 1);
        }
      }
    }
  }

  /** When a row passes one condition. SQL's `user = NULL` is never true. */
  predicate Holds(r: Delivery, c: Cond) {
    match c
    case OwnerIs(u) => u.Some? && r.user == u
    case OutletLike(p) => Contains(r.warung, p)
    case DateIs(d) => r.tanggal == d
    case MonthIs(mm) => MonthField(r.tanggal) == mm
    case YearIs(yyyy) => YearField(r.tanggal) == yyyy
  }

  predicate HoldsAll(r: Delivery, conds: seq<Cond>) {
    forall c :: c in conds ==> Holds(r, c)
  }

  /** Joining two lists of conditions with `AND`. */
  lemma HoldsAllConcat(a: seq<Cond>, b: seq<Cond>)
    ensures forall r :: HoldsAll(r, a + b) <==> HoldsAll(r, a) && HoldsAll(r, b)
  {
    forall r: Delivery
      ensures HoldsAll(r, a + b) <==> HoldsAll(r, a) && HoldsAll(r, b)
    {
      assert forall c :: c in a + b <==> c in a || c in b;
    }
  }

  lemma HoldsAllSingle(c: Cond)
    ensures forall r :: HoldsAll(r, [c]) <==> Holds(r, c)
  {
    forall r: Delivery
      ensures HoldsAll(r, [c]) <==> Holds(r, c)
    {
      assert c in [c];
    }
  }

  /** The rows of `rows`, in order, that pass every condition. */
  function Select(rows: seq<Delivery>, conds: seq<Cond>): (out: seq<Delivery>)
    ensures forall r :: multiset(out)[r] == if HoldsAll(r, conds) then multiset(rows)[r] else 0
    ensures forall r :: r in out <==> r in rows && HoldsAll(r, conds)
    ensures |out| <= |rows|
  {
    if rows == [] then []
    else
      assert rows == [rows[0]] + rows[1..];
      (if HoldsAll(rows[0], conds) then [rows[0]] else []) + Select(rows[1..], conds)
  }

  lemma {:induction false} SelectAppend(a: seq<Delivery>, b: seq<Delivery>, conds: seq<Cond>)
    ensures Select(a + b, conds) == Select(a, conds) + Select(b, conds)
  {
    if a == [] {
      assert a + b == b;
    } else {
      assert (a + b)[1..] == a[1..] + b;
      SelectAppend(a[1..], b, conds);
    }
  }
}
