/** Ordered keyword tables, the shape of every classifier in the system
    (criterion categories, section types from titles, what-if scenarios):
    rows are consulted in order and the label of the first row with a term
    occurring in the text is chosen. */
module Keywords {
  import opened Wrappers
  import opened Text

  /** Row `k` of `table` is the first whose terms occur in `s`. */
  predicate FirstRowMatching(s: string, table: seq<(string, seq<string>)>, k: nat)
    requires k < |table|
  {
    ContainsAny(s, table[k].1)
    && forall j :: 0 <= j < k ==> !ContainsAny(s, table[j].1)
  }

  /** No row of `table` has a term occurring in `s`. */
  predicate NoRowMatches(s: string, table: seq<(string, seq<string>)>) {
    forall j :: 0 <= j < |table| ==> !ContainsAny(s, table[j].1)
  }

  /** The label of the first row from `k` on whose terms occur in `s`. */
  function FirstMatchFrom(s: string, table: seq<(string, seq<string>)>, k: nat): Option<string>
    decreases |table| - k
  {
    if k >= |table| then None
    else if ContainsAny(s, table[k].1) then Some(table[k].0)
    else FirstMatchFrom(s, table, k + 1)
  }

  /** The label of the first row whose terms occur in `s`, if any. */
  function FirstMatch(s: string, table: seq<(string, seq<string>)>): Option<string> {
    FirstMatchFrom(s, table, 0)
  }

  lemma {:induction false} FirstMatchFromNone(s: string, table: seq<(string, seq<string>)>, k: nat)
    requires k <= |table|
    requires forall j :: 0 <= j < k ==> !ContainsAny(s, table[j].1)
    ensures FirstMatchFrom(s, table, k).None? <==> NoRowMatches(s, table)
    decreases |table| - k
  {
    if k < |table| && !ContainsAny(s, table[k].1) {
      FirstMatchFromNone(s, table, k + 1);
    }
  }

  lemma {:induction false} FirstMatchFromRow(s: string, table: seq<(string, seq<string>)>, j: nat, k: nat)
    requires j <= k < |table| && FirstRowMatching(s, table, k)
    ensures FirstMatchFrom(s, table, j) == Some(table[k].0)
    decreases k - j
  {
    if j < k {
      assert !ContainsAny(s, table[j].1);
      FirstMatchFromRow(s, table, j + 1, k);
    }
  }

  /** There is no label exactly when no row matches. */
  lemma FirstMatchNone(s: string, table: seq<(string, seq<string>)>)
    ensures FirstMatch(s, table).None? <==> NoRowMatches(s, table)
  {
    FirstMatchFromNone(s, table, 0);
  }

  /** The label is that of the first matching row. */
  lemma FirstMatchRow(s: string, table: seq<(string, seq<string>)>, k: nat)
    requires k < |table| && FirstRowMatching(s, table, k)
    ensures FirstMatch(s, table) == Some(table[k].0)
  {
    FirstMatchFromRow(s, table, 0, k);
  }

  /** A term at a known position selects its row, unless an earlier row
      matches too. */
  lemma TermSelectsRow(s: string, table: seq<(string, seq<string>)>, k: nat, t: nat, at: nat)
    requires k < |table| && t < |table[k].1| && OccursAt(s, table[k].1[t], at)
    requires forall j :: 0 <= j < k ==> !ContainsAny(s, table[j].1)
    ensures FirstMatch(s, table) == Some(table[k].0)
  {
    assert Contains(s, table[k].1[t]);
    FirstMatchRow(s, table, k);
  }

  /** Every label the first-match lookup returns is a label of the table. */
  lemma {:induction false} FirstMatchLabel(s: string, table: seq<(string, seq<string>)>, k: nat)
    requires FirstMatchFrom(s, table, k).Some?
    ensures exists j :: k <= j < |table| && FirstMatchFrom(s, table, k).value == table[j].0
    decreases |table| - k
  {
    if !ContainsAny(s, table[k].1) {
      FirstMatchLabel(s, table, k + 1);
    }
  }

  /** The labels of a keyword table, in order. */
  function Labels(table: seq<(string, seq<string>)>): (r: seq<string>)
    ensures |r| == |table|
    ensures forall k :: 0 <= k < |table| ==> r[k] == table[k].0
  {
    seq(|table|, k requires 0 <= k < |table| => table[k].0)
  }

  /** The first-match lookup only ever returns one of the table's labels. */
  lemma FirstMatchIsLabel(s: string, table: seq<(string, seq<string>)>)
    ensures FirstMatch(s, table).Some? ==> FirstMatch(s, table).value in Labels(table)
  {
    if FirstMatch(s, table).Some? {
      FirstMatchLabel(s, table, 0);
      var j :| 0 <= j < |table| && FirstMatch(s, table).value == table[j].0;
      assert Labels(table)[j] == table[j].0;
    }
  }
}
