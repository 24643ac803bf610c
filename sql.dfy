/** The part of SQL the searches rely on besides the engine itself. */
module Sql {
  import opened Wrappers

  /** The optional `AND column IN (...)` condition: a missing or empty
      filter list adds no condition, and a NULL column value is in no
      list. */
  predicate InFilter(value: Option<string>, filter: seq<string>) {
    filter == [] || (value.Some? && value.value in filter)
  }

  /** The rows a `WHERE` clause keeps, in the order the engine gives them. */
  function Where<T>(rows: seq<T>, keep: T -> bool): (r: seq<T>)
    ensures |r| <= |rows|
    decreases |rows|
  {
    if rows == [] then []
    else Where(rows[..|rows| - 1], keep) + if keep(rows[|rows| - 1]) then [rows[|rows| - 1]] else []
  }

  /** A row is kept exactly when the condition holds of it. */
  lemma {:induction false} WhereSpec<T>(rows: seq<T>, keep: T -> bool)
    ensures forall row :: row in Where(rows, keep) <==> row in rows && keep(row)
    decreases |rows|
  {
    if rows != [] {
      WhereSpec(rows[..|rows| - 1], keep);
      assert rows == rows[..|rows| - 1] + [rows[|rows| - 1]];
    }
  }

  /** A kept row is one of the rows and satisfies the condition. */
  lemma WhereMember<T>(rows: seq<T>, keep: T -> bool, row: T)
    requires row in Where(rows, keep)
    ensures row in rows && keep(row)
  {
    WhereSpec(rows, keep);
  }

  /** A condition no row satisfies keeps nothing. */
  lemma WhereNone<T>(rows: seq<T>, keep: T -> bool)
    ensures (forall row :: row in rows ==> !keep(row)) ==> Where(rows, keep) == []
  {
    WhereSpec(rows, keep);
    var kept := Where(rows, keep);
    if kept != [] {
      assert kept[0] in kept;
    }
  }
}
