/** Row-major flattening: rows concatenated in order. Both the water grid
    and the mesh generator lay out two-dimensional data this way. */
module RowMajor {

  /** The concatenation of rows `0 .. x - 1`. */
  function Rows<T>(row: nat -> seq<T>, x: nat): seq<T>
    decreases x
  {
    if x == 0 then [] else Rows(row, x - 1) + row(x - 1)
  }

  /** Concatenated rows of width `gy` are laid out row-major: entry `j` of
      row `i` sits at `i * gy + j`. */
  lemma {:induction false} RowsAt<T>(row: nat -> seq<T>, gy: nat, x: nat, i: nat, j: nat)
    requires forall r: nat | r < x :: |row(r)| == gy
    requires i < x && j < gy
    ensures |Rows(row, x)| == x * gy
    ensures i * gy + j < |Rows(row, x)| && Rows(row, x)[i * gy + j] == row(i)[j]
    decreases x
  {
    RowsLength(row, gy, x - 1);
    var prev := Rows(row, x - 1);
    assert |prev| == (x - 1) * gy;
    assert (x - 1) * gy + gy == x * gy;
    if i < x - 1 {
      RowsAt(row, gy, x - 1, i, j);
    } else {
      assert i * gy + j == |prev| + j;
    }
  }

  lemma {:induction false} RowsLength<T>(row: nat -> seq<T>, gy: nat, x: nat)
    requires forall r: nat | r < x :: |row(r)| == gy
    ensures |Rows(row, x)| == x * gy
    decreases x
  {
    if x > 0 {
      RowsLength(row, gy, x - 1);
      assert (x - 1) * gy + gy == x * gy;
    }
  }

  /** Fewer rows give a prefix of the concatenation. */
  lemma {:induction false} RowsPrefix<T>(row: nat -> seq<T>, x: nat, y: nat)
    requires x <= y
    ensures Rows(row, x) <= Rows(row, y)
    decreases y
  {
    if x < y {
      RowsPrefix(row, x, y - 1);
    }
  }

  /** Extending a prefix by one element. */
  lemma PrefixStep<T>(s: seq<T>, y: nat)
    requires y < |s|
    ensures s[..y + 1] == s[..y] + [s[y]]
  {
  }
}
