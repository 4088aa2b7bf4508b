/** Pooling of token embeddings, over exact arithmetic. */
module Pooling {
  import opened Names

  datatype Config = Config(dimension: nat, cls: bool, max: bool, mean: bool, meanSqrt: bool, weighted: bool, last: bool)

  predicate Enabled(c: Config) {
    c.cls || c.max || c.mean || c.meanSqrt || c.weighted || c.last
  }

  /** One position of a row: its attention mask and its hidden vector. */
  datatype Token = Token(mask: int, hidden: seq<real>)

  ghost predicate Shaped(row: seq<Token>, dim: nat) {
    forall t | t in row :: |t.hidden| == dim
  }

  // ---------------------------------------------------------------- a row, one column at a time

  /** The largest value at an unmasked position, if there is one. */
  function MaxAt(row: seq<Token>, dim: nat, n: nat, col: nat): Option<real>
    requires n <= |row| && col < dim && Shaped(row, dim)
  {
    if n == 0 then None
    else
      var t, m := row[n - 1], MaxAt(row, dim, n - 1, col);
      if t.mask == 0 then m else Some(Larger(m, t.hidden[col]))
  }

  function Larger(m: Option<real>, x: real): real {
    if m.Some? && m.value > x then m.value else x
  }

  function Times(x: real, y: real): real {
    x * y
  }

  function Over(x: real, y: real): real
    requires y > 0.0
  {
    x / y
  }

  function SumAt(row: seq<Token>, dim: nat, n: nat, col: nat): real
    requires n <= |row| && col < dim && Shaped(row, dim)
  {
    if n == 0 then 0.0
    else SumAt(row, dim, n - 1, col) + Times(row[n - 1].hidden[col], row[n - 1].mask as real)
  }

  function WeightedAt(row: seq<Token>, dim: nat, n: nat, col: nat): real
    requires n <= |row| && col < dim && Shaped(row, dim)
  {
    if n == 0 then 0.0
    else WeightedAt(row, dim, n - 1, col) + Times(row[n - 1].hidden[col], Weight(row, n - 1))
  }

  function Weight(row: seq<Token>, i: nat): real
    requires i < |row|
  {
    Times((i + 1) as real, row[i].mask as real)
  }

  function TokenCount(row: seq<Token>, n: nat): real
    requires n <= |row|
  {
    if n == 0 then 0.0 else TokenCount(row, n - 1) + row[n - 1].mask as real
  }

  function WeightTotal(row: seq<Token>, n: nat): real
    requires n <= |row|
  {
    if n == 0 then 0.0 else WeightTotal(row, n - 1) + Weight(row, n - 1)
  }

  /** One past the last unmasked position, or 0. */
  function LastLive(row: seq<Token>, n: nat): (r: nat)
    requires n <= |row|
    ensures r <= n
  {
    if n == 0 then 0 else if row[n - 1].mask != 0 then n else LastLive(row, n - 1)
  }

  function AtLeast(x: real): (d: real)
    ensures d > 0.0
  {
    if x > 0.000000001 then x else 0.000000001
  }

  // ---------------------------------------------------------------- a pooled row

  function MaxBlock(row: seq<Token>, dim: nat): seq<real>
    requires Shaped(row, dim)
  {
    seq(dim, col requires 0 <= col < dim
      && Shaped(row, dim) => match MaxAt(row, dim, |row|, col) case Some(x) => x case None => 0.0)
  }

  function MeanBlock(row: seq<Token>, dim: nat, denominator: real): seq<real>
    requires Shaped(row, dim) && denominator > 0.0
  {
    seq(dim, col requires 0 <= col < dim && Shaped(row, dim) => Over(SumAt(row, dim, |row|, col), denominator))
  }

  function WeightedBlock(row: seq<Token>, dim: nat): seq<real>
    requires Shaped(row, dim)
  {
    seq(dim, col requires 0 <= col < dim
      && Shaped(row, dim) => Over(WeightedAt(row, dim, |row|, col), AtLeast(WeightTotal(row, |row|))))
  }

  function LastBlock(row: seq<Token>, dim: nat): seq<real> {
    if LastLive(row, |row|) == 0 then seq(dim, _ => 0.0) else row[LastLive(row, |row|) - 1].hidden
  }

  function FirstBlock(row: seq<Token>): seq<real> {
    if row == [] then [] else row[0].hidden
  }

  /** The enabled modes, one after the other. */
  function PoolRow(c: Config, row: seq<Token>, dim: nat, root: real -> real): seq<real>
    requires Shaped(row, dim) && (c.cls ==> row != [] || dim == 0)
  {
    (if c.cls then FirstBlock(row) else []) +
    (if c.max then MaxBlock(row, dim) else []) +
    (if c.mean then MeanBlock(row, dim, AtLeast(TokenCount(row, |row|))) else []) +
    (if c.meanSqrt then MeanBlock(row, dim, AtLeast(root(TokenCount(row, |row|)))) else []) +
    (if c.weighted then WeightedBlock(row, dim) else []) +
    (if c.last then LastBlock(row, dim) else [])
  }

  // ---------------------------------------------------------------- padding does not matter

  /** The second row differs from the first at masked positions only, and may have more of them at its end. */
  ghost predicate PaddedLike(a: seq<Token>, b: seq<Token>) {
    && |a| <= |b|
    && (forall i | 0 <= i < |a| :: a[i].mask == b[i].mask && (a[i].mask != 0 ==> a[i] == b[i]))
    && (forall i | |a| <= i < |b| :: b[i].mask == 0)
  }

  function Least(x: nat, y: nat): nat {
    if x < y then x else y
  }

  lemma {:induction false} ColumnsSame(a: seq<Token>, b: seq<Token>, dim: nat, n: nat, col: nat)
    requires PaddedLike(a, b) && Shaped(a, dim) && Shaped(b, dim) && n <= |b| && col < dim
    ensures var m := Least(n, |a|);
            && MaxAt(b, dim, n, col) == MaxAt(a, dim, m, col)
            && SumAt(b, dim, n, col) == SumAt(a, dim, m, col)
            && WeightedAt(b, dim, n, col) == WeightedAt(a, dim, m, col)
  {
    hide Larger, Times, Weight;
    if n > 0 {
      if n <= |a| { WeightSame(a, b, n - 1); }
      ColumnsSame(a, b, dim, n - 1, col);
      if b[n - 1].mask == 0 { MaskedAddsNothing(b, dim, n - 1, col); }
      if n <= |a| && a[n - 1].mask == 0 { MaskedAddsNothing(a, dim, n - 1, col); }
    }
  }

  lemma MaskedAddsNothing(row: seq<Token>, dim: nat, i: nat, col: nat)
    requires Shaped(row, dim) && i < |row| && col < dim && row[i].mask == 0
    ensures Weight(row, i) == 0.0 && Times(row[i].hidden[col], row[i].mask as real) == 0.0
              && Times(row[i].hidden[col], Weight(row, i)) == 0.0
  {
  }

  lemma WeightSame(a: seq<Token>, b: seq<Token>, i: nat)
    requires PaddedLike(a, b) && i < |a|
    ensures Weight(a, i) == Weight(b, i)
  {
    hide Times;
  }

  lemma MaskedWeight(row: seq<Token>, i: nat)
    requires i < |row| && row[i].mask == 0
    ensures Weight(row, i) == 0.0
  {
  }

  lemma {:induction false} TotalsSame(a: seq<Token>, b: seq<Token>, n: nat)
    requires PaddedLike(a, b) && n <= |b|
    ensures var m := Least(n, |a|);
            && TokenCount(b, n) == TokenCount(a, m) && WeightTotal(b, n) == WeightTotal(a, m)
              && LastLive(b, n) == LastLive(a, m)
  {
    hide Weight;
    if n > 0 {
      TotalsSame(a, b, n - 1);
      if n <= |a| { WeightSame(a, b, n - 1); } else { MaskedWeight(b, n - 1); }
    }
  }

  lemma {:induction false} LastIsLive(row: seq<Token>, n: nat)
    requires n <= |row| && LastLive(row, n) > 0
    ensures row[LastLive(row, n) - 1].mask != 0
  {
    if row[n - 1].mask == 0 { LastIsLive(row, n - 1); }
  }

  /**
   * Masked positions, at the end or elsewhere, have no influence on the pooled row; only the first position
   * counts even when it is masked, and only in CLS mode.
   */
  lemma PaddingIgnored(c: Config, a: seq<Token>, b: seq<Token>, dim: nat, root: real -> real)
    requires PaddedLike(a, b) && Shaped(a, dim) && Shaped(b, dim)
    requires c.cls ==> (a != [] || dim == 0) && FirstBlock(a) == FirstBlock(b)
    ensures PoolRow(c, b, dim, root) == PoolRow(c, a, dim, root)
  {
    hide MaxBlock, MeanBlock, WeightedBlock, LastBlock, TokenCount, AtLeast, PaddedLike;
    PaddedLonger(a, b);
    TotalsSame(a, b, |b|);
    MaxSame(a, b, dim);
    MeanSame(a, b, dim, AtLeast(TokenCount(a, |a|)));
    MeanSame(a, b, dim, AtLeast(root(TokenCount(a, |a|))));
    WeightedSame(a, b, dim);
    LastSame(a, b, dim);
  }

  lemma MaxSame(a: seq<Token>, b: seq<Token>, dim: nat)
    requires PaddedLike(a, b) && Shaped(a, dim) && Shaped(b, dim)
    ensures MaxBlock(b, dim) == MaxBlock(a, dim)
  {
    hide MaxAt, SumAt, WeightedAt;
    forall col | 0 <= col < dim
      ensures MaxAt(b, dim, |b|, col) == MaxAt(a, dim, |a|, col)
    {
      ColumnsSame(a, b, dim, |b|, col);
    }
  }

  lemma MeanSame(a: seq<Token>, b: seq<Token>, dim: nat, denominator: real)
    requires PaddedLike(a, b) && Shaped(a, dim) && Shaped(b, dim) && denominator > 0.0
    ensures MeanBlock(b, dim, denominator) == MeanBlock(a, dim, denominator)
  {
    hide MaxAt, SumAt, WeightedAt, Over;
    forall col | 0 <= col < dim
      ensures SumAt(b, dim, |b|, col) == SumAt(a, dim, |a|, col)
    {
      ColumnsSame(a, b, dim, |b|, col);
    }
  }

  lemma WeightedSame(a: seq<Token>, b: seq<Token>, dim: nat)
    requires PaddedLike(a, b) && Shaped(a, dim) && Shaped(b, dim)
    ensures WeightedBlock(b, dim) == WeightedBlock(a, dim)
  {
    hide MaxAt, SumAt, WeightedAt, Over, AtLeast;
    TotalsSame(a, b, |b|);
    forall col | 0 <= col < dim
      ensures WeightedAt(b, dim, |b|, col) == WeightedAt(a, dim, |a|, col)
    {
      ColumnsSame(a, b, dim, |b|, col);
    }
  }

  lemma PaddedLonger(a: seq<Token>, b: seq<Token>)
    requires PaddedLike(a, b)
    ensures |a| <= |b| && Least(|b|, |a|) == |a|
  {
  }

  lemma LastSame(a: seq<Token>, b: seq<Token>, dim: nat)
    requires PaddedLike(a, b) && LastLive(b, |b|) == LastLive(a, |a|)
    ensures LastBlock(b, dim) == LastBlock(a, dim)
  {
    if LastLive(a, |a|) > 0 { LastIsLive(a, |a|); }
  }

  // ---------------------------------------------------------------- every mode is an average

  /** All unmasked positions hold this vector; there is at least one, and masks are 0 or 1. */
  ghost predicate Constant(row: seq<Token>, v: seq<real>) {
    && (forall t | t in row :: t.mask == 0 || (t.mask == 1 && t.hidden == v))
    && exists t | t in row :: t.mask == 1
  }

  lemma {:induction false} ConstantColumn(row: seq<Token>, v: seq<real>, n: nat, col: nat)
    requires Shaped(row, |v|) && Constant(row, v) && n <= |row| && col < |v|
    ensures SumAt(row, |v|, n, col) == Times(v[col], TokenCount(row, n))
    ensures WeightedAt(row, |v|, n, col) == Times(v[col], WeightTotal(row, n))
    ensures MaxAt(row, |v|, n, col) == (if LastLive(row, n) == 0 then None else Some(v[col]))
  {
    if n > 0 {
      var t := row[n - 1];
      assert t in row;
      ConstantColumn(row, v, n - 1, col);
      if t.mask == 0 {
        MaskedAddsNothing(row, |v|, n - 1, col);
      } else {
        assert t.hidden[col] == v[col];
        Distribute(v[col], TokenCount(row, n - 1), t.mask as real);
        Distribute(v[col], WeightTotal(row, n - 1), Weight(row, n - 1));
      }
    }
  }

  lemma Distribute(x: real, y: real, z: real)
    ensures Times(x, y) + Times(x, z) == Times(x, y + z)
  {
  }

  lemma {:induction false} ConstantTotals(row: seq<Token>, n: nat)
    requires n <= |row| && forall t | t in row :: t.mask == 0 || t.mask == 1
    ensures TokenCount(row, n) >= 0.0 && WeightTotal(row, n) >= 0.0
    ensures LastLive(row, n) > 0 ==> TokenCount(row, n) >= 1.0 && WeightTotal(row, n) >= 1.0
  {
    if n > 0 {
      assert row[n - 1] in row;
      ConstantTotals(row, n - 1);
      if row[n - 1].mask == 1 { assert Weight(row, n - 1) == n as real; }
    }
  }

  lemma {:induction false} SomeLive(row: seq<Token>, n: nat, i: nat)
    requires i < n <= |row| && row[i].mask != 0
    ensures LastLive(row, n) > 0
  {
    if i < n - 1 && row[n - 1].mask == 0 { SomeLive(row, n - 1, i); }
  }

  lemma Quotient(x: real, y: real)
    requires y >= 1.0
    ensures Over(Times(x, y), AtLeast(y)) == x
  {
  }

  lemma ConstantLive(row: seq<Token>, v: seq<real>)
    requires Constant(row, v)
    ensures LastLive(row, |row|) > 0
  {
    hide LastLive;
    var t :| t in row && t.mask == 1;
    var i :| 0 <= i < |row| && row[i] == t;
    SomeLive(row, |row|, i);
  }

  lemma ConstantAt(row: seq<Token>, v: seq<real>, i: nat)
    requires Constant(row, v) && i < |row| && row[i].mask != 0
    ensures row[i].hidden == v
  {
    assert row[i] in row;
  }

  lemma ConstantMasks(row: seq<Token>, v: seq<real>)
    requires Constant(row, v)
    ensures forall t | t in row :: t.mask == 0 || t.mask == 1
  {
  }

  lemma ConstantLast(row: seq<Token>, v: seq<real>)
    requires Constant(row, v)
    ensures LastLive(row, |row|) > 0 && TokenCount(row, |row|) >= 1.0 && WeightTotal(row, |row|) >= 1.0
    ensures LastBlock(row, |v|) == v
  {
    hide LastLive, TokenCount, WeightTotal, Constant;
    ConstantLive(row, v);
    ConstantMasks(row, v);
    ConstantTotals(row, |row|);
    LastIsLive(row, |row|);
    ConstantAt(row, v, LastLive(row, |row|) - 1);
  }

  lemma ConstantMax(row: seq<Token>, v: seq<real>)
    requires Shaped(row, |v|) && Constant(row, v) && LastLive(row, |row|) > 0
    ensures MaxBlock(row, |v|) == v
  {
    hide MaxAt, Constant, LastLive, Shaped;
    forall col | 0 <= col < |v| ensures MaxBlock(row, |v|)[col] == v[col] { ConstantColumn(row, v, |row|, col); }
  }

  lemma ConstantMean(row: seq<Token>, v: seq<real>)
    requires Shaped(row, |v|) && Constant(row, v) && TokenCount(row, |row|) >= 1.0
    ensures MeanBlock(row, |v|, AtLeast(TokenCount(row, |row|))) == v
  {
    hide SumAt, Constant, TokenCount, Shaped, AtLeast, Over, Times;
    forall col | 0 <= col < |v| ensures MeanBlock(row, |v|, AtLeast(TokenCount(row, |row|)))[col] == v[col] {
      ConstantColumn(row, v, |row|, col);
      Quotient(v[col], TokenCount(row, |row|));
    }
  }

  lemma ConstantWeighted(row: seq<Token>, v: seq<real>)
    requires Shaped(row, |v|) && Constant(row, v) && WeightTotal(row, |row|) >= 1.0
    ensures WeightedBlock(row, |v|) == v
  {
    hide WeightedAt, Constant, WeightTotal, Shaped, AtLeast, Over, Times;
    forall col | 0 <= col < |v| ensures WeightedBlock(row, |v|)[col] == v[col] {
      ConstantColumn(row, v, |row|, col);
      Quotient(v[col], WeightTotal(row, |row|));
    }
  }

  /**
   * Where all unmasked positions agree, the maximum, the mean, the weighted mean and the last position agree
   * with them.
   */
  lemma ConstantRow(row: seq<Token>, v: seq<real>)
    requires Shaped(row, |v|) && Constant(row, v)
    ensures MaxBlock(row, |v|) == v && LastBlock(row, |v|) == v && WeightedBlock(row, |v|) == v
    ensures MeanBlock(row, |v|, AtLeast(TokenCount(row, |row|))) == v
  {
    hide *;
    ConstantLast(row, v);
    ConstantMax(row, v);
    ConstantMean(row, v);
    ConstantWeighted(row, v);
  }

  // ---------------------------------------------------------------- the flat tensor

  lemma CellInRange(batch: nat, seqs: nat, dim: nat, row: nat, token: nat)
    requires row < batch && token < seqs
    ensures 0 <= (row * seqs + token) * dim && (row * seqs + token) * dim + dim <= batch * seqs * dim
    ensures row * seqs + token < batch * seqs
  {
    var k := row * seqs + token;
    Scaled(row + 1, batch, seqs);
    Scaled(k + 1, batch * seqs, dim);
  }

  lemma Scaled(x: nat, y: nat, z: nat)
    requires 0 < x <= y
    ensures (x - 1) * z + z <= y * z && 0 <= (x - 1) * z
  {
    assert (x - 1) * z + z == x * z;
    assert y * z - x * z == (y - x) * z;
  }

  predicate Fits(hidden: seq<real>, mask: seq<int>, batch: nat, seqs: nat, dim: nat) {
    |hidden| == batch * seqs * dim && |mask| == batch * seqs
  }

  function TokenOf(hidden: seq<real>, mask: seq<int>, batch: nat, seqs: nat, dim: nat, row: nat, token: nat): (t: Token)
    requires Fits(hidden, mask, batch, seqs, dim) && row < batch && token < seqs
    ensures |t.hidden| == dim
  {
    CellInRange(batch, seqs, dim, row, token);
    var k := row * seqs + token;
    Token(mask[k], hidden[k * dim..k * dim + dim])
  }

  function RowOf(hidden: seq<real>, mask: seq<int>, batch: nat, seqs: nat, dim: nat, row: nat): (r: seq<Token>)
    requires Fits(hidden, mask, batch, seqs, dim) && row < batch
    ensures |r| == seqs && Shaped(r, dim)
  {
    seq(seqs, i requires 0 <= i < seqs
      && Fits(hidden, mask, batch, seqs, dim) => TokenOf(hidden, mask, batch, seqs, dim, row, i))
  }

  /** The accumulators of the passes over a row's positions. */
  datatype Totals = Totals(max: seq<Option<real>>, sum: seq<real>, weighted: seq<real>, count: real, weight: real)

  ghost predicate Accumulated(row: seq<Token>, dim: nat, n: nat, t: Totals)
    requires n <= |row| && Shaped(row, dim)
  {
    && |t.max| == |t.sum| == |t.weighted| == dim
    && (forall col | 0 <= col < dim ::
          t.max[col] == MaxAt(row, dim, n, col) && t.sum[col] == SumAt(row, dim, n, col)
            && t.weighted[col] == WeightedAt(row, dim, n, col))
    && t.count == TokenCount(row, n) && t.weight == WeightTotal(row, n)
  }

  /** Add one position to the accumulators; a masked one adds nothing. */
  method AddToken(ghost row: seq<Token>, dim: nat, n: nat, token: Token, t: Totals) returns (r: Totals)
    requires Shaped(row, dim) && n < |row| && row[n] == token && Accumulated(row, dim, n, t)
    ensures Accumulated(row, dim, n + 1, r)
  {
    hide Larger, Times;
    assert token in row;
    if token.mask == 0 {
      forall col | 0 <= col < dim
        ensures Times(token.hidden[col], token.mask as real) == 0.0 && Times(token.hidden[col], Weight(row, n)) == 0.0
      {
        MaskedAddsNothing(row, dim, n, col);
      }
      MaskedWeight(row, n);
      return t;
    }
    var m := token.mask as real;
    var weight := Times((n + 1) as real, m);
    assert weight == Weight(row, n);
    var max, sum, weighted := t.max, t.sum, t.weighted;
    var col := 0;
    while col < dim
      invariant col <= dim && |max| == |sum| == |weighted| == dim
      invariant forall k | 0 <= k < col ::
                  && max[k] == Some(Larger(t.max[k], token.hidden[k])) && sum[k] == t.sum[k] + Times(token.hidden[k], m)
                  && weighted[k] == t.weighted[k] + Times(token.hidden[k], weight)
      invariant forall k | col <= k < dim :: max[k] == t.max[k] && sum[k] == t.sum[k] && weighted[k] == t.weighted[k]
    {
      max := max[col := Some(Larger(max[col], token.hidden[col]))];
      sum := sum[col := sum[col] + Times(token.hidden[col], m)];
      weighted := weighted[col := weighted[col] + Times(token.hidden[col], weight)];
      col := col + 1;
    }
    r := Totals(max, sum, weighted, t.count + m, t.weight + weight);
  }

  method Divide(values: seq<real>, denominator: real) returns (r: seq<real>)
    requires denominator > 0.0
    ensures |r| == |values| && forall i | 0 <= i < |r| :: r[i] == Over(values[i], denominator)
  {
    r := [];
    var i := 0;
    while i < |values|
      invariant i <= |values| && |r| == i && forall k | 0 <= k < i :: r[k] == Over(values[k], denominator)
    {
      r := r + [Over(values[i], denominator)];
      i := i + 1;
    }
  }

  /** Positions without any unmasked token leave no maximum, and count as 0. */
  method Finite(values: seq<Option<real>>) returns (r: seq<real>)
    ensures |r| == |values| && forall i | 0 <= i < |r| :: r[i] == match values[i] case Some(x) => x case None => 0.0
  {
    r := [];
    var i := 0;
    while i < |values|
      invariant i <= |values| && |r| == i
                  && forall k | 0 <= k < i :: r[k] == match values[k] case Some(x) => x case None => 0.0
    {
      r := r + [match values[i] case Some(x) => x case None => 0.0];
      i := i + 1;
    }
  }

  method FindLast(row: seq<Token>) returns (at: nat)
    ensures at == LastLive(row, |row|)
  {
    at := |row|;
    while at > 0 && row[at - 1].mask == 0
      invariant at <= |row| && LastLive(row, |row|) == LastLive(row, at)
    {
      at := at - 1;
    }
  }

  method PoolOne(c: Config, row: seq<Token>, dim: nat, root: real -> real) returns (pooled: seq<real>)
    requires Shaped(row, dim) && (c.cls ==> row != [] || dim == 0)
    ensures pooled == PoolRow(c, row, dim, root)
  {
    hide MaxAt, SumAt, WeightedAt, TokenCount, WeightTotal, LastLive, AtLeast, Over;
    var t := Totals(seq(dim, _ => None), seq(dim, _ => 0.0), seq(dim, _ => 0.0), 0.0, 0.0);
    NoneYet(row, dim, t);
    var n := 0;
    while n < |row|
      invariant n <= |row| && Accumulated(row, dim, n, t)
    {
      t := AddToken(row, dim, n, row[n], t);
      n := n + 1;
    }
    var largest := Finite(t.max);
    assert largest == MaxBlock(row, dim);
    var mean := Divide(t.sum, AtLeast(t.count));
    assert mean == MeanBlock(row, dim, AtLeast(TokenCount(row, |row|)));
    var meanSqrt := Divide(t.sum, AtLeast(root(t.count)));
    assert meanSqrt == MeanBlock(row, dim, AtLeast(root(TokenCount(row, |row|))));
    var weighted := Divide(t.weighted, AtLeast(t.weight));
    assert weighted == WeightedBlock(row, dim);
    var at := FindLast(row);
    var last := if at == 0 then seq(dim, _ => 0.0) else row[at - 1].hidden;
    assert last == LastBlock(row, dim);
    pooled := (if c.cls then FirstBlock(row) else []) + (if c.max then largest else []) + (if c.mean then mean else [])
      + (if c.meanSqrt then meanSqrt else []) + (if c.weighted then weighted else []) + (if c.last then last else []);
  }

  lemma NoneYet(row: seq<Token>, dim: nat, t: Totals)
    requires Shaped(row, dim) && t == Totals(seq(dim, _ => None), seq(dim, _ => 0.0), seq(dim, _ => 0.0), 0.0, 0.0)
    ensures Accumulated(row, dim, 0, t)
  {
  }

  /** Rows are pooled one by one, or the tensor is refused because its shape or the configuration does not fit. */
  method PoolTokenEmbeddings(hidden: seq<real>, batch: nat, seqs: nat, dim: nat, mask: seq<int>, c: Config,
                             root: real -> real)
    returns (r: Option<seq<seq<real>>>)
    requires c.cls && batch > 0 ==> seqs > 0 || dim == 0
    ensures r.Some? <==> Fits(hidden, mask, batch, seqs, dim) && c.dimension == dim && Enabled(c)
    ensures r.Some? ==> |r.value| == batch && forall i | 0 <= i < batch ::
              r.value[i] == PoolRow(c, RowOf(hidden, mask, batch, seqs, dim, i), dim, root)
  {
    hide PoolRow, RowOf;
    if |hidden| != batch * seqs * dim || |mask| != batch * seqs { return None; }
    if c.dimension != dim || !Enabled(c) { return None; }
    var rows := [];
    var i := 0;
    while i < batch
      invariant i <= batch && |rows| == i
      invariant forall k | 0 <= k < i :: rows[k] == PoolRow(c, RowOf(hidden, mask, batch, seqs, dim, k), dim, root)
    {
      var pooled := PoolOne(c, RowOf(hidden, mask, batch, seqs, dim, i), dim, root);
      rows := rows + [pooled];
      i := i + 1;
    }
    return Some(rows);
  }
}
