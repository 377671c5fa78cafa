/** The two numpy reductions `run_model` applies to a prediction row:
    `np.argmax` and `np.max`. Scores are real numbers here (see README). */
module NumpyReduce {

  /** `k` is where `row` attains its maximum for the first time. */
  predicate IsFirstMax(row: seq<real>, k: nat) {
    && k < |row|
    && (forall j :: 0 <= j < |row| ==> row[j] <= row[k])
    && (forall j :: 0 <= j < k ==> row[j] < row[k])
  }

  /** `np.argmax(row)`: a left-to-right scan that moves to a new index only
      on a strictly greater value, so ties go to the lowest index. */
  function ArgMax(row: seq<real>): (k: nat)
    requires |row| > 0
    ensures IsFirstMax(row, k)
  {
    if |row| == 1 then 0
    else
      var k := ArgMax(row[..|row| - 1]);
      if row[|row| - 1] > row[k] then |row| - 1 else k
  }

  /** `np.max(row)` */
  function Max(row: seq<real>): (m: real)
    requires |row| > 0
    ensures m in row
    ensures forall j :: 0 <= j < |row| ==> row[j] <= m
  {
    if |row| == 1 then row[0]
    else
      var m := Max(row[..|row| - 1]);
      if row[|row| - 1] > m then row[|row| - 1] else m
  }

  /** At most one index is the first maximum: the argmax is determined by
      the row alone. */
  lemma FirstMaxUnique(row: seq<real>, k1: nat, k2: nat)
    requires IsFirstMax(row, k1) && IsFirstMax(row, k2)
    ensures k1 == k2
  {
    assert row[k1] == row[k2];
  }

  /** The two reductions agree: the maximum is the value at the argmax. */
  lemma MaxAtArgMax(row: seq<real>)
    requires |row| > 0
    ensures Max(row) == row[ArgMax(row)]
  {
    var m, k := Max(row), ArgMax(row);
    var j :| 0 <= j < |row| && row[j] == m;
    assert row[j] <= row[k] && row[k] <= m;
  }
}
