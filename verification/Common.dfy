/** An optional value, the reversal of a sequence, and leaving out one of its values. */
module Common {

  datatype Option<+T> = None | Some(value: T)

  function Backwards<T>(s: seq<T>): seq<T> {
    seq(|s|, i requires 0 <= i < |s| => s[|s| - 1 - i])
  }

  function Abs(x: int): nat {
    if x < 0 then -x else x
  }

  /** The first `k` members of `s` other than `x`. */
  function Without<T(==)>(s: seq<T>, x: T, k: nat): seq<T>
    requires k <= |s|
  {
    if k == 0 then [] else Without(s, x, k - 1) + if s[k - 1] != x then [s[k - 1]] else []
  }

  lemma {:induction false} WithoutExact<T>(s: seq<T>, x: T, k: nat, t: T)
    requires k <= |s|
    ensures t in Without(s, x, k) <==> t != x && t in s[..k]
  {
    if k > 0 {
      WithoutExact(s, x, k - 1, t);
      assert s[..k] == s[..k - 1] + [s[k - 1]];
    }
  }
}

/** Cells of a grid numbered row by row.  Rows are counted by addition and indexes by subtraction, so
    that no proof about grids needs a product or a quotient; `RowsIsProduct` and `RowAndCol` show that
    these are the products, quotients and remainders the programs compute. */
module Grid {

  /** The number of cells in `k` rows of `n` cells. */
  function Rows(n: nat, k: nat): nat {
    if k == 0 then 0 else Rows(n, k - 1) + n
  }

  function Row(n: nat, index: nat): nat
    requires n > 0
  {
    if index < n then 0 else 1 + Row(n, index - n)
  }

  function Col(n: nat, index: nat): (c: nat)
    requires n > 0
    ensures c < n
  {
    if index < n then index else Col(n, index - n)
  }

  lemma {:induction false} RowsIsProduct(n: nat, k: nat)
    ensures Rows(n, k) == n * k
  {
    if k > 0 {
      RowsIsProduct(n, k - 1);
    }
  }

  lemma {:induction false} RowAndCol(n: nat, index: nat)
    requires n > 0
    ensures Row(n, index) == index / n && Col(n, index) == index % n
  {
    RowQuotient(n, index);
    var d := Row(n, index) - index / n;
    assert n * d == index % n - Col(n, index);
    assert d >= 1 ==> n * d >= n;
    assert d <= -1 ==> n * d <= 0 - n;
  }

  lemma {:induction false} RowQuotient(n: nat, index: nat)
    requires n > 0
    ensures index == n * Row(n, index) + Col(n, index)
  {
    if index >= n {
      RowQuotient(n, index - n);
    }
  }

  lemma {:induction false} RowsMonotone(n: nat, j: nat, k: nat)
    requires j <= k
    ensures Rows(n, j) <= Rows(n, k)
  {
    if j < k {
      RowsMonotone(n, j, k - 1);
    }
  }

  /** The cell in row `y` and column `x` is below row `k` when `y` is, and is found again by its index. */
  lemma {:induction false} CellIndex(n: nat, x: nat, y: nat)
    requires x < n
    ensures Row(n, Rows(n, y) + x) == y && Col(n, Rows(n, y) + x) == x
  {
    if y > 0 {
      CellIndex(n, x, y - 1);
      assert Rows(n, y) + x - n == Rows(n, y - 1) + x;
    }
  }

  lemma CellBelow(n: nat, x: nat, y: nat, k: nat)
    requires x < n && y < k
    ensures Rows(n, y) + x < Rows(n, k)
  {
    RowsMonotone(n, y + 1, k);
  }

  lemma {:induction false} IndexCell(n: nat, index: nat)
    requires n > 0
    ensures Rows(n, Row(n, index)) + Col(n, index) == index
  {
    if index >= n {
      IndexCell(n, index - n);
    }
  }

  lemma RowBelow(n: nat, index: nat, k: nat)
    requires n > 0 && index < Rows(n, k)
    ensures Row(n, index) < k
  {
    IndexCell(n, index);
    if Row(n, index) >= k {
      RowsMonotone(n, k, Row(n, index));
    }
  }
}

/** Random values, and the indexes drawn with them. */
module Draws {

  /** What `random()` may return. */
  type Unit = r: real | 0.0 <= r < 1.0 witness 0.0

  /** The index drawn from `count` candidates by the i-th call of `random()`. */
  type Picker = p: (nat, nat) -> nat | forall i, count :: count > 0 ==> p(i, count) < count witness (i, count) => 0

  /** Every stream of random values gives such draws: the value is scaled by the number of candidates. */
  function PickerOf(random: nat -> Unit): (p: Picker)
    ensures forall i, count :: p(i, count) as int == (random(i) * count as real).Floor
  {
    var p: (nat, nat) -> nat := (i: nat, count: nat) => RandomIndex(random(i), count);
    assert forall i, count :: p(i, count) == RandomIndex(random(i), count);
    p
  }

  function RandomIndex(r: Unit, count: nat): (i: nat)
    ensures count > 0 ==> i < count
  {
    ScaledBelow(r, count as real);
    (r * count as real).Floor
  }

  lemma ScaledBelow(r: Unit, x: real)
    requires x >= 0.0
    ensures 0.0 <= r * x
    ensures x > 0.0 ==> r * x < x
  {
    assert (1.0 - r) * x == x - r * x;
  }
}
