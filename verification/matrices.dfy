/** `Matrix<T, ROWS, COLS>` (includes/matrix.hpp): a fixed-size grid of
    scalars stored row by row, value-initialised to zero, with identity, zero
    and diagonal constructors, entrywise arithmetic, scalar multiplication and
    division, the matrix product and the transpose. Modelled over `real`; the
    template's dimensions become the `rows` and `cols` fields, and the
    template's `ROWS >= 1 && COLS >= 1` constraint becomes part of `Valid`. */
module Matrices {
  import opened Scalars

  datatype Matrix = Matrix(rows: nat, cols: nat, data: seq<seq<real>>)

  /** The storage really is `rows` rows of `cols` entries each. */
  predicate Valid(m: Matrix) {
    m.rows >= 1 && m.cols >= 1 && |m.data| == m.rows &&
    forall i :: 0 <= i < |m.data| ==> |m.data[i]| == m.cols
  }

  predicate SameShape(a: Matrix, b: Matrix) {
    a.rows == b.rows && a.cols == b.cols
  }

  /** `operator()(i, j)`; the source does not check the indices, so the
      model asks for them to be in range. */
  function At(m: Matrix, i: nat, j: nat): real
    requires Valid(m) && i < m.rows && j < m.cols
  {
    m.data[i][j]
  }

  /** The entry (i, j) replaced by `v`: one write `data[i][j] = v`. */
  function Set(m: Matrix, i: nat, j: nat, v: real): (r: Matrix)
    requires Valid(m) && i < m.rows && j < m.cols
    ensures Valid(r) && SameShape(r, m)
  {
    Matrix(m.rows, m.cols, m.data[i := m.data[i][j := v]])
  }

  /** `operator()` hands out a reference: a write through it changes that one
      entry, and every other entry reads as before. */
  lemma WriteThroughAccess(m: Matrix, i: nat, j: nat, v: real, i': nat, j': nat)
    requires Valid(m) && i < m.rows && j < m.cols && i' < m.rows && j' < m.cols
    ensures At(Set(m, i, j, v), i', j') == (if i' == i && j' == j then v else At(m, i', j'))
  {
  }

  /** Two valid matrices of one shape are equal when their entries are. */
  lemma Extensionality(a: Matrix, b: Matrix)
    requires Valid(a) && Valid(b) && SameShape(a, b)
    requires forall i, j :: 0 <= i < a.rows && 0 <= j < a.cols ==> a.data[i][j] == b.data[i][j]
    ensures a == b
  {
    forall i | 0 <= i < a.rows
      ensures a.data[i] == b.data[i]
    {
      assert forall j :: 0 <= j < a.cols ==> a.data[i][j] == b.data[i][j];
    }
  }

  // ---------- constructors ----------

  /** `zero()`, i.e. `Matrix{}`: every entry value-initialised. */
  function Zero(rows: nat, cols: nat): (r: Matrix)
    requires rows >= 1 && cols >= 1
    ensures Valid(r) && r.rows == rows && r.cols == cols
  {
    Matrix(rows, cols, seq(rows, i => seq(cols, j => 0.0)))
  }

  /** `diagonal(values)` as a reference definition: `values[i]` at (i, i),
      zero elsewhere. */
  function Diagonal(values: seq<real>): (r: Matrix)
    requires |values| >= 1
    ensures Valid(r) && r.rows == |values| && r.cols == |values|
  {
    var n := |values|;
    Matrix(n, n, seq(n, i requires 0 <= i < n =>
                        seq(n, j => if i == j then values[i] else 0.0)))
  }

  /** `identity()` as a reference definition. */
  function Identity(n: nat): (r: Matrix)
    requires n >= 1
    ensures Valid(r) && r.rows == n && r.cols == n
  {
    Matrix(n, n, seq(n, i => seq(n, j => if i == j then 1.0 else 0.0)))
  }

  // ---------- entrywise operations ----------

  /** The per-entry step of the entrywise loops: unary `-`, `+`/`+=`,
      `-`/`-=`, scalar `*`/`*=` and scalar `/`/`/=`. */
  datatype EntryOp = Negation | Sum | Difference | Times(s: real) | Quotient(s: real)

  /** Division by a zero scalar has no real-valued result. */
  predicate Defined(op: EntryOp) {
    op.Quotient? ==> op.s != 0.0
  }

  function Apply(op: EntryOp, x: real, y: real): real
    requires Defined(op)
  {
    match op
    case Negation => -x
    case Sum => x + y
    case Difference => x - y
    case Times(s) => x * s
    case Quotient(s) => x / s
  }

  /** The reference definition of every entrywise operation: entry (i, j) of
      the result is the step applied to entry (i, j) of each operand. */
  function Entrywise(op: EntryOp, a: Matrix, b: Matrix): (r: Matrix)
    requires Valid(a) && Valid(b) && SameShape(a, b) && Defined(op)
    ensures Valid(r) && SameShape(r, a)
  {
    Matrix(a.rows, a.cols,
           seq(a.rows, i requires 0 <= i < a.rows =>
             seq(a.cols, j requires 0 <= j < a.cols => Apply(op, a.data[i][j], b.data[i][j]))))
  }

  function Negate(a: Matrix): Matrix
    requires Valid(a)
  {
    Entrywise(Negation, a, a)
  }

  function Add(a: Matrix, b: Matrix): Matrix
    requires Valid(a) && Valid(b) && SameShape(a, b)
  {
    Entrywise(Sum, a, b)
  }

  function Sub(a: Matrix, b: Matrix): Matrix
    requires Valid(a) && Valid(b) && SameShape(a, b)
  {
    Entrywise(Difference, a, b)
  }

  function Scale(a: Matrix, s: real): Matrix
    requires Valid(a)
  {
    Entrywise(Times(s), a, a)
  }

  function Div(a: Matrix, s: real): Matrix
    requires Valid(a) && s != 0.0
  {
    Entrywise(Quotient(s), a, a)
  }

  /** The entries of the matrix at positions visited before (i, j) in
      row-major order. */
  predicate Before(i': nat, j': nat, i: nat, j: nat) {
    i' < i || (i' == i && j' < j)
  }

  /** The value-returning operators (`-()`, `+`, `-`, `* scalar`, `/ scalar`):
      a zero-initialised result whose entries are written one at a time in
      row-major order. */
  method EntrywiseLoop(op: EntryOp, a: Matrix, b: Matrix) returns (r: Matrix)
    requires Valid(a) && Valid(b) && SameShape(a, b) && Defined(op)
    ensures r == Entrywise(op, a, b)
  {
    ghost var e := Entrywise(op, a, b);
    r := Zero(a.rows, a.cols);
    for i := 0 to a.rows
      invariant Valid(r) && SameShape(r, a)
      invariant forall i', j' :: 0 <= i' < a.rows && 0 <= j' < a.cols ==>
                  r.data[i'][j'] == (if i' < i then e.data[i'][j'] else 0.0)
    {
      for j := 0 to a.cols
        invariant Valid(r) && SameShape(r, a)
        invariant forall i', j' :: 0 <= i' < a.rows && 0 <= j' < a.cols ==>
                    r.data[i'][j'] == (if Before(i', j', i, j) then e.data[i'][j'] else 0.0)
      {
        r := Set(r, i, j, Apply(op, a.data[i][j], b.data[i][j]));
      }
    }
    Extensionality(r, e);
  }

  /** The compound operators (`+=`, `-=`, `*=`, `/=`): the receiver is updated
      in place, each entry read and written once, in row-major order; the
      state afterwards is the matching value-returning operator's result. */
  method EntrywiseInPlace(op: EntryOp, self: Matrix, other: Matrix) returns (after: Matrix)
    requires Valid(self) && Valid(other) && SameShape(self, other) && Defined(op)
    ensures after == Entrywise(op, self, other)
  {
    ghost var e := Entrywise(op, self, other);
    after := self;
    for i := 0 to self.rows
      invariant Valid(after) && SameShape(after, self)
      invariant forall i', j' :: 0 <= i' < self.rows && 0 <= j' < self.cols ==>
                  after.data[i'][j'] == (if i' < i then e.data[i'][j'] else self.data[i'][j'])
    {
      for j := 0 to self.cols
        invariant Valid(after) && SameShape(after, self)
        invariant forall i', j' :: 0 <= i' < self.rows && 0 <= j' < self.cols ==>
                    after.data[i'][j'] == (if Before(i', j', i, j) then e.data[i'][j'] else self.data[i'][j'])
      {
        after := Set(after, i, j, Apply(op, after.data[i][j], other.data[i][j]));
      }
    }
    Extensionality(after, e);
  }

  /** Unary `operator-`. */
  method OperatorNegate(a: Matrix) returns (r: Matrix)
    requires Valid(a)
    ensures r == Negate(a)
  {
    r := EntrywiseLoop(Negation, a, a);
  }

  /** `operator+(other)`. */
  method OperatorAdd(a: Matrix, b: Matrix) returns (r: Matrix)
    requires Valid(a) && Valid(b) && SameShape(a, b)
    ensures r == Add(a, b)
  {
    r := EntrywiseLoop(Sum, a, b);
  }

  /** `operator-(other)`. */
  method OperatorSub(a: Matrix, b: Matrix) returns (r: Matrix)
    requires Valid(a) && Valid(b) && SameShape(a, b)
    ensures r == Sub(a, b)
  {
    r := EntrywiseLoop(Difference, a, b);
  }

  /** `operator*(T scalar)`. */
  method OperatorScale(a: Matrix, s: real) returns (r: Matrix)
    requires Valid(a)
    ensures r == Scale(a, s)
  {
    r := EntrywiseLoop(Times(s), a, a);
  }

  /** `operator/(T scalar)`; a zero scalar has no real-valued result. */
  method OperatorDiv(a: Matrix, s: real) returns (r: Matrix)
    requires Valid(a) && s != 0.0
    ensures r == Div(a, s)
  {
    r := EntrywiseLoop(Quotient(s), a, a);
  }

  /** `operator+=(other)`: the receiver afterwards. */
  method AddAssign(self: Matrix, other: Matrix) returns (after: Matrix)
    requires Valid(self) && Valid(other) && SameShape(self, other)
    ensures after == Add(self, other)
  {
    after := EntrywiseInPlace(Sum, self, other);
  }

  /** `operator-=(other)`: the receiver afterwards. */
  method SubAssign(self: Matrix, other: Matrix) returns (after: Matrix)
    requires Valid(self) && Valid(other) && SameShape(self, other)
    ensures after == Sub(self, other)
  {
    after := EntrywiseInPlace(Difference, self, other);
  }

  /** `operator*=(T scalar)`: the receiver afterwards. */
  method ScaleAssign(self: Matrix, s: real) returns (after: Matrix)
    requires Valid(self)
    ensures after == Scale(self, s)
  {
    after := EntrywiseInPlace(Times(s), self, self);
  }

  /** `operator/=(T scalar)`: the receiver afterwards. */
  method DivAssign(self: Matrix, s: real) returns (after: Matrix)
    requires Valid(self) && s != 0.0
    ensures after == Div(self, s)
  {
    after := EntrywiseInPlace(Quotient(s), self, self);
  }

  /** `identity()`: a zero matrix with ones written along the diagonal. */
  method IdentityLoop(n: nat) returns (m: Matrix)
    requires n >= 1
    ensures m == Identity(n)
  {
    m := Zero(n, n);
    for i := 0 to n
      invariant Valid(m) && m.rows == n && m.cols == n
      invariant forall i', j' :: 0 <= i' < n && 0 <= j' < n ==>
                  m.data[i'][j'] == (if i' == j' && i' < i then 1.0 else 0.0)
    {
      m := Set(m, i, i, 1.0);
    }
    Extensionality(m, Identity(n));
  }

  /** `diagonal(values)`: a zero matrix with `values` written along the
      diagonal. */
  method DiagonalLoop(values: seq<real>) returns (m: Matrix)
    requires |values| >= 1
    ensures m == Diagonal(values)
  {
    var n := |values|;
    m := Zero(n, n);
    for i := 0 to n
      invariant Valid(m) && m.rows == n && m.cols == n
      invariant forall i', j' :: 0 <= i' < n && 0 <= j' < n ==>
                  m.data[i'][j'] == (if i' == j' && i' < i then values[i'] else 0.0)
    {
      m := Set(m, i, i, values[i]);
    }
    Extensionality(m, Diagonal(values));
  }

  // ---------- product ----------

  /** The sum over k < n of `a(i, k) * b(k, j)`: the accumulator of the
      product's innermost loop after n steps. */
  function RowCol(a: Matrix, b: Matrix, i: nat, j: nat, n: nat): real
    requires Valid(a) && Valid(b) && a.cols == b.rows
    requires i < a.rows && j < b.cols && n <= a.cols
  {
    if n == 0 then 0.0 else RowCol(a, b, i, j, n - 1) + a.data[i][n - 1] * b.data[n - 1][j]
  }

  /** The product as a reference definition. */
  function Product(a: Matrix, b: Matrix): (r: Matrix)
    requires Valid(a) && Valid(b) && a.cols == b.rows
    ensures Valid(r) && r.rows == a.rows && r.cols == b.cols
  {
    Matrix(a.rows, b.cols,
           seq(a.rows, i requires 0 <= i < a.rows =>
             seq(b.cols, j requires 0 <= j < b.cols => RowCol(a, b, i, j, a.cols))))
  }

  /** `operator*(other)`: a zero-initialised result whose entry (i, j) is
      accumulated with `+=` over k. */
  method ProductLoop(a: Matrix, b: Matrix) returns (r: Matrix)
    requires Valid(a) && Valid(b) && a.cols == b.rows
    ensures r == Product(a, b)
  {
    ghost var p := Product(a, b);
    r := Zero(a.rows, b.cols);
    for i := 0 to a.rows
      invariant Valid(r) && SameShape(r, p)
      invariant forall i', j' :: 0 <= i' < a.rows && 0 <= j' < b.cols ==>
                  r.data[i'][j'] == (if i' < i then p.data[i'][j'] else 0.0)
    {
      for j := 0 to b.cols
        invariant Valid(r) && SameShape(r, p)
        invariant forall i', j' :: 0 <= i' < a.rows && 0 <= j' < b.cols ==>
                    r.data[i'][j'] == (if Before(i', j', i, j) then p.data[i'][j'] else 0.0)
      {
        for k := 0 to a.cols
          invariant Valid(r) && SameShape(r, p)
          invariant r.data[i][j] == RowCol(a, b, i, j, k)
          invariant forall i', j' :: 0 <= i' < a.rows && 0 <= j' < b.cols && (i', j') != (i, j) ==>
                      r.data[i'][j'] == (if Before(i', j', i, j) then p.data[i'][j'] else 0.0)
        {
          r := Set(r, i, j, r.data[i][j] + a.data[i][k] * b.data[k][j]);
        }
      }
    }
    Extensionality(r, p);
  }

  // ---------- transpose ----------

  /** Transpose as intended: entry (i, j) of the input lands at (j, i) of a
      `cols` x `rows` result. */
  function Transpose(a: Matrix): (r: Matrix)
    requires Valid(a)
    ensures Valid(r) && r.rows == a.cols && r.cols == a.rows
  {
    Matrix(a.cols, a.rows,
           seq(a.cols, j requires 0 <= j < a.cols =>
             seq(a.rows, i requires 0 <= i < a.rows => a.data[i][j])))
  }

  /** `transpose()`: the loop over the input writes each entry to its mirrored
      position of a zero-initialised result, shaped `cols` x `rows`. */
  method TransposeLoop(a: Matrix) returns (r: Matrix)
    requires Valid(a)
    ensures r == Transpose(a)
  {
    r := Zero(a.cols, a.rows);
    for i := 0 to a.rows
      invariant Valid(r) && r.rows == a.cols && r.cols == a.rows
      invariant forall p, q {:trigger r.data[p][q]} :: 0 <= p < a.cols && 0 <= q < a.rows ==>
                  r.data[p][q] == (if q < i then a.data[q][p] else 0.0)
    {
      for j := 0 to a.cols
        invariant Valid(r) && r.rows == a.cols && r.cols == a.rows
        invariant forall p, q {:trigger r.data[p][q]} :: 0 <= p < a.cols && 0 <= q < a.rows ==>
                    r.data[p][q] == (if Before(q, p, i, j) then a.data[q][p] else 0.0)
      {
        r := Set(r, j, i, a.data[i][j]);
      }
    }
    Extensionality(r, Transpose(a));
  }

  /** A position (row, column) in a matrix. */
  datatype Position = Position(row: nat, col: nat)

  /** The source's `transpose()` writes input entry (i, j) to position
      (j, i) of a result shaped like the input, `rows` x `cols`. */
  function AsWrittenTransposeTarget(i: nat, j: nat): Position {
    Position(j, i)
  }

  predicate InRange(rows: nat, cols: nat, p: Position) {
    p.row < rows && p.col < cols
  }

  predicate AsWrittenTransposeInRange(rows: nat, cols: nat) {
    forall i, j :: 0 <= i < rows && 0 <= j < cols ==> InRange(rows, cols, AsWrittenTransposeTarget(i, j))
  }

  /** Every write of the source's `transpose()` stays in range exactly when
      the matrix is square. */
  lemma AsWrittenTransposeInRangeIffSquare(rows: nat, cols: nat)
    requires rows >= 1 && cols >= 1
    ensures AsWrittenTransposeInRange(rows, cols) <==> rows == cols
  {
    if rows < cols {
      assert !InRange(rows, cols, AsWrittenTransposeTarget(0, cols - 1));
    } else if cols < rows {
      assert !InRange(rows, cols, AsWrittenTransposeTarget(rows - 1, 0));
    }
  }

  /** A one-row, two-column matrix: the write for entry (0, 1) goes to row 1
      of a one-row result. */
  lemma AsWrittenTransposeOverrunExample(a: Matrix)
    requires Valid(a) && a.rows == 1 && a.cols == 2
    ensures !AsWrittenTransposeInRange(a.rows, a.cols)
    ensures Transpose(a).rows == 2 && Transpose(a).data[1][0] == a.data[0][1]
  {
    assert !InRange(a.rows, a.cols, AsWrittenTransposeTarget(0, 1));
  }

  // ---------- algebraic laws ----------

  lemma AddZero(a: Matrix)
    requires Valid(a)
    ensures Add(a, Zero(a.rows, a.cols)) == a
  {
    Extensionality(Add(a, Zero(a.rows, a.cols)), a);
  }

  lemma AddCommutative(a: Matrix, b: Matrix)
    requires Valid(a) && Valid(b) && SameShape(a, b)
    ensures Add(a, b) == Add(b, a)
  {
    Extensionality(Add(a, b), Add(b, a));
  }

  lemma SubSelf(a: Matrix)
    requires Valid(a)
    ensures Sub(a, a) == Zero(a.rows, a.cols)
  {
    Extensionality(Sub(a, a), Zero(a.rows, a.cols));
  }

  lemma NegateInvolution(a: Matrix)
    requires Valid(a)
    ensures Negate(Negate(a)) == a
  {
    Extensionality(Negate(Negate(a)), a);
  }

  /** Subtraction is addition of the negation. */
  lemma SubIsAddNegate(a: Matrix, b: Matrix)
    requires Valid(a) && Valid(b) && SameShape(a, b)
    ensures Sub(a, b) == Add(a, Negate(b))
  {
    Extensionality(Sub(a, b), Add(a, Negate(b)));
  }

  /** Scalar division undoes scalar multiplication by the same non-zero scalar. */
  lemma DivUndoesScale(a: Matrix, s: real)
    requires Valid(a) && s != 0.0
    ensures Div(Scale(a, s), s) == a
  {
    forall i, j | 0 <= i < a.rows && 0 <= j < a.cols
      ensures Div(Scale(a, s), s).data[i][j] == a.data[i][j]
    {
      MulDivCancel(a.data[i][j], s);
    }
    Extensionality(Div(Scale(a, s), s), a);
  }

  /** Transposing twice gives the matrix back. */
  lemma TransposeInvolution(a: Matrix)
    requires Valid(a)
    ensures Transpose(Transpose(a)) == a
  {
    Extensionality(Transpose(Transpose(a)), a);
  }

  /** For a square matrix, the corrected transpose has the source's shape and
      moves entry (i, j) to (j, i), as the source's loop does. */
  lemma TransposeSquare(a: Matrix)
    requires Valid(a) && a.rows == a.cols
    ensures SameShape(Transpose(a), a)
    ensures forall i, j :: 0 <= i < a.rows && 0 <= j < a.cols ==> Transpose(a).data[j][i] == a.data[i][j]
  {
  }

  /** A diagonal matrix of ones is the identity. */
  lemma DiagonalOfOnes(values: seq<real>)
    requires |values| >= 1
    requires forall i :: 0 <= i < |values| ==> values[i] == 1.0
    ensures Diagonal(values) == Identity(|values|)
  {
    Extensionality(Diagonal(values), Identity(|values|));
  }

  /** A diagonal matrix is its own transpose. */
  lemma DiagonalSymmetric(values: seq<real>)
    requires |values| >= 1
    ensures Transpose(Diagonal(values)) == Diagonal(values)
  {
    Extensionality(Transpose(Diagonal(values)), Diagonal(values));
  }

  /** With the identity on the left, the accumulator picks out row i's entry
      once k has passed i. */
  lemma {:induction false} RowColIdentityLeft(m: Matrix, i: nat, j: nat, k: nat)
    requires Valid(m) && i < m.rows && j < m.cols && k <= m.rows
    ensures RowCol(Identity(m.rows), m, i, j, k) == (if i < k then m.data[i][j] else 0.0)
  {
    if k > 0 {
      RowColIdentityLeft(m, i, j, k - 1);
      EntryTimes(Identity(m.rows).data[i][k - 1], m.data[k - 1][j], i == k - 1);
    }
  }

  /** With the identity on the right, the accumulator picks out column j's
      entry once k has passed j. */
  lemma {:induction false} RowColIdentityRight(m: Matrix, i: nat, j: nat, k: nat)
    requires Valid(m) && i < m.rows && j < m.cols && k <= m.cols
    ensures RowCol(m, Identity(m.cols), i, j, k) == (if j < k then m.data[i][j] else 0.0)
  {
    if k > 0 {
      RowColIdentityRight(m, i, j, k - 1);
      TimesEntry(m.data[i][k - 1], Identity(m.cols).data[k - 1][j], j == k - 1);
    }
  }

  /** A one-or-zero factor either keeps or annihilates the other. */
  lemma EntryTimes(e: real, x: real, on: bool)
    requires e == (if on then 1.0 else 0.0)
    ensures e * x == (if on then x else 0.0)
  {
  }

  lemma TimesEntry(x: real, e: real, on: bool)
    requires e == (if on then 1.0 else 0.0)
    ensures x * e == (if on then x else 0.0)
  {
  }

  /** The identity is neutral for the product on both sides. */
  lemma ProductIdentity(m: Matrix)
    requires Valid(m)
    ensures Product(Identity(m.rows), m) == m
    ensures Product(m, Identity(m.cols)) == m
  {
    forall i, j | 0 <= i < m.rows && 0 <= j < m.cols
      ensures Product(Identity(m.rows), m).data[i][j] == m.data[i][j]
      ensures Product(m, Identity(m.cols)).data[i][j] == m.data[i][j]
    {
      RowColIdentityLeft(m, i, j, m.rows);
      RowColIdentityRight(m, i, j, m.cols);
    }
    Extensionality(Product(Identity(m.rows), m), m);
    Extensionality(Product(m, Identity(m.cols)), m);
  }

  /** Every partial sum against a zero matrix is zero. */
  lemma {:induction false} RowColZero(a: Matrix, cols: nat, i: nat, j: nat, k: nat)
    requires Valid(a) && cols >= 1 && i < a.rows && j < cols && k <= a.cols
    ensures RowCol(a, Zero(a.cols, cols), i, j, k) == 0.0
  {
    if k > 0 {
      RowColZero(a, cols, i, j, k - 1);
      TimesEntry(a.data[i][k - 1], Zero(a.cols, cols).data[k - 1][j], false);
    }
  }

  /** Every partial sum with a zero matrix on the left is zero. */
  lemma {:induction false} ZeroRowCol(rows: nat, b: Matrix, i: nat, j: nat, k: nat)
    requires Valid(b) && rows >= 1 && i < rows && j < b.cols && k <= b.rows
    ensures RowCol(Zero(rows, b.rows), b, i, j, k) == 0.0
  {
    if k > 0 {
      ZeroRowCol(rows, b, i, j, k - 1);
      EntryTimes(Zero(rows, b.rows).data[i][k - 1], b.data[k - 1][j], false);
    }
  }

  /** A product with a zero matrix, on either side, is zero. */
  lemma ProductZero(a: Matrix, rows: nat, cols: nat)
    requires Valid(a) && rows >= 1 && cols >= 1
    ensures Product(a, Zero(a.cols, cols)) == Zero(a.rows, cols)
    ensures Product(Zero(rows, a.rows), a) == Zero(rows, a.cols)
  {
    forall i, j | 0 <= i < a.rows && 0 <= j < cols
      ensures Product(a, Zero(a.cols, cols)).data[i][j] == 0.0
    {
      RowColZero(a, cols, i, j, a.cols);
    }
    Extensionality(Product(a, Zero(a.cols, cols)), Zero(a.rows, cols));
    forall i, j | 0 <= i < rows && 0 <= j < a.cols
      ensures Product(Zero(rows, a.rows), a).data[i][j] == 0.0
    {
      ZeroRowCol(rows, a, i, j, a.rows);
    }
    Extensionality(Product(Zero(rows, a.rows), a), Zero(rows, a.cols));
  }
}
