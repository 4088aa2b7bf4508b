/** What each pooling mode gives, said of the positions of a row and their masks. */
module PoolingModes {
  import opened Names
  import opened Pooling

  // ---------------------------------------------------------------- maximum and last position

  /** A live position is one that is not masked. */
  predicate Live(row: seq<Token>, i: int) {
    0 <= i < |row| && row[i].mask != 0
  }

  /** The value is that of some live position, and no live position has a larger one. */
  ghost predicate IsLargest(row: seq<Token>, n: nat, col: nat, x: real)
    requires forall t | t in row :: col < |t.hidden|
  {
    && (exists i :: i < n && Live(row, i) && row[i].hidden[col] == x)
    && forall i | i < n && Live(row, i) :: row[i].hidden[col] <= x
  }

  lemma {:induction false} MaxExactly(row: seq<Token>, dim: nat, n: nat, col: nat)
    requires Shaped(row, dim) && n <= |row| && col < dim
    ensures var m := MaxAt(row, dim, n, col);
            if exists i :: i < n && Live(row, i) then m.Some? && IsLargest(row, n, col, m.value) else m.None?
  {
    if n > 0 {
      MaxExactly(row, dim, n - 1, col);
      if row[n - 1].mask != 0 { assert Live(row, n - 1); }
    }
  }

  /** The last live position, counted from 1. */
  lemma {:induction false} LastExactly(row: seq<Token>, n: nat)
    requires n <= |row|
    ensures var k := LastLive(row, n);
            if k > 0 then Live(row, k - 1) && forall i | k <= i < n :: !Live(row, i)
            else forall i | i < n :: !Live(row, i)
  {
    if n > 0 && row[n - 1].mask == 0 { LastExactly(row, n - 1); }
  }

  // ---------------------------------------------------------------- sums

  function Total(xs: seq<real>): real {
    if xs == [] then 0.0 else xs[0] + Total(xs[1..])
  }

  lemma {:induction false} TotalLast(xs: seq<real>, x: real)
    ensures Total(xs + [x]) == Total(xs) + x
  {
    if xs == [] {
      assert (xs + [x])[1..] == [];
    } else {
      assert (xs + [x])[1..] == xs[1..] + [x];
      TotalLast(xs[1..], x);
    }
  }

  /** The masks of the first positions. */
  function Masks(row: seq<Token>, n: nat): (r: seq<real>)
    requires n <= |row|
    ensures |r| == n && forall i | 0 <= i < n :: r[i] == row[i].mask as real
  {
    seq(n, i requires 0 <= i < n => row[i].mask as real)
  }

  /** The masks of the first positions, each times its place counted from 1. */
  function Placed(row: seq<Token>, n: nat): (r: seq<real>)
    requires n <= |row|
    ensures |r| == n && forall i | 0 <= i < n :: r[i] == Product((i + 1) as real, row[i].mask as real)
  {
    seq(n, i requires 0 <= i < n => Product((i + 1) as real, row[i].mask as real))
  }

  function Product(x: real, y: real): real {
    x * y
  }

  /** A column's values, each times a factor of its own. */
  function Factored(row: seq<Token>, dim: nat, col: nat, factors: seq<real>): (r: seq<real>)
    requires Shaped(row, dim) && |factors| <= |row| && col < dim
    ensures |r| == |factors| && forall i | 0 <= i < |r| :: r[i] == Product(row[i].hidden[col], factors[i])
  {
    seq(|factors|, i requires 0 <= i < |factors| && |row[i].hidden| == dim => Product(row[i].hidden[col], factors[i]))
  }

  lemma TimesIsProduct(x: real, y: real)
    ensures Times(x, y) == Product(x, y)
  {
  }

  lemma FactorsLast(row: seq<Token>, n: nat)
    requires 0 < n <= |row|
    ensures Masks(row, n) == Masks(row, n - 1) + [row[n - 1].mask as real]
    ensures Placed(row, n) == Placed(row, n - 1) + [Weight(row, n - 1)]
  {
    hide Product, Times;
    TimesIsProduct(n as real, row[n - 1].mask as real);
  }

  lemma {:induction false} TotalsExactly(row: seq<Token>, n: nat)
    requires n <= |row|
    ensures TokenCount(row, n) == Total(Masks(row, n)) && WeightTotal(row, n) == Total(Placed(row, n))
  {
    hide Total, Weight, Masks, Placed;
    if n > 0 {
      TotalsExactly(row, n - 1);
      FactorsLast(row, n);
      TotalLast(Masks(row, n - 1), row[n - 1].mask as real);
      TotalLast(Placed(row, n - 1), Weight(row, n - 1));
    } else {
      NoTotal(Masks(row, 0));
      NoTotal(Placed(row, 0));
    }
  }

  lemma NoTotal(xs: seq<real>)
    requires |xs| == 0
    ensures Total(xs) == 0.0
  {
  }

  lemma {:induction false} SumsExactly(row: seq<Token>, dim: nat, n: nat, col: nat)
    requires Shaped(row, dim) && n <= |row| && col < dim
    ensures SumAt(row, dim, n, col) == Total(Factored(row, dim, col, Masks(row, n)))
    ensures WeightedAt(row, dim, n, col) == Total(Factored(row, dim, col, Placed(row, n)))
  {
    hide Total, Weight, Masks, Placed, Factored, Times, Product;
    if n > 0 {
      SumsExactly(row, dim, n - 1, col);
      FactorsLast(row, n);
      var x, y, w := row[n - 1].hidden[col], row[n - 1].mask as real, Weight(row, n - 1);
      FactoredLast(row, dim, col, Masks(row, n - 1), y);
      FactoredLast(row, dim, col, Placed(row, n - 1), w);
      TimesIsProduct(x, y);
      TimesIsProduct(x, w);
      TotalLast(Factored(row, dim, col, Masks(row, n - 1)), Product(x, y));
      TotalLast(Factored(row, dim, col, Placed(row, n - 1)), Product(x, w));
    } else {
      NoTotal(Factored(row, dim, col, Masks(row, 0)));
      NoTotal(Factored(row, dim, col, Placed(row, 0)));
    }
  }

  lemma FactoredLast(row: seq<Token>, dim: nat, col: nat, factors: seq<real>, y: real)
    requires Shaped(row, dim) && |factors| < |row| && col < dim
    ensures Factored(row, dim, col, factors + [y])
         == Factored(row, dim, col, factors) + [Product(row[|factors|].hidden[col], y)]
  {
    hide Product;
  }

  // ---------------------------------------------------------------- the pooled row

  datatype Mode = Cls | Max | Mean | MeanSqrt | Weighted | Last

  const MODES: seq<Mode> := [Cls, Max, Mean, MeanSqrt, Weighted, Last]

  predicate On(c: Config, m: Mode) {
    match m
    case Cls => c.cls
    case Max => c.max
    case Mean => c.mean
    case MeanSqrt => c.meanSqrt
    case Weighted => c.weighted
    case Last => c.last
  }

  /** How many of the first modes are enabled. */
  function OnBefore(c: Config, n: nat): nat
    requires n <= |MODES|
  {
    if n == 0 then 0 else OnBefore(c, n - 1) + if On(c, MODES[n - 1]) then 1 else 0
  }

  /** What a mode gives for a column. */
  ghost predicate Gives(m: Mode, row: seq<Token>, dim: nat, root: real -> real, col: nat, x: real)
    requires Shaped(row, dim) && col < dim
  {
    var masks, placed := Masks(row, |row|), Placed(row, |row|);
    match m
    case Cls => row != [] ==> x == row[0].hidden[col]
    case Max => if exists i :: Live(row, i) then IsLargest(row, |row|, col, x) else x == 0.0
    case Mean => IsQuotient(x, Total(Factored(row, dim, col, masks)), Total(masks))
    case MeanSqrt => IsQuotient(x, Total(Factored(row, dim, col, masks)), root(Total(masks)))
    case Weighted => IsQuotient(x, Total(Factored(row, dim, col, placed)), Total(placed))
    case Last =>
      if exists i :: Live(row, i)
      then exists i :: Live(row, i) && row[i].hidden[col] == x && forall j | j > i :: !Live(row, j)
      else x == 0.0
  }

  /** Division by at least a billionth. */
  predicate IsQuotient(x: real, sum: real, divisor: real) {
    if divisor > 0.000000001 then x * divisor == sum else x == sum * 1000000000.0
  }

  ghost predicate BlockGives(m: Mode, row: seq<Token>, dim: nat, root: real -> real, block: seq<real>)
    requires Shaped(row, dim)
  {
    |block| == dim && forall col | 0 <= col < dim :: Gives(m, row, dim, root, col, block[col])
  }

  lemma OverIsQuotient(sum: real, divisor: real)
    ensures IsQuotient(Over(sum, AtLeast(divisor)), sum, divisor)
  {
    if divisor > 0.000000001 {
      assert sum / divisor * divisor == sum;
    } else {
      assert sum / 0.000000001 == sum * 1000000000.0;
    }
  }

  lemma MeansGive(row: seq<Token>, dim: nat, root: real -> real)
    requires Shaped(row, dim)
    ensures BlockGives(Mean, row, dim, root, MeanBlock(row, dim, AtLeast(TokenCount(row, |row|))))
    ensures BlockGives(MeanSqrt, row, dim, root, MeanBlock(row, dim, AtLeast(root(TokenCount(row, |row|)))))
    ensures BlockGives(Weighted, row, dim, root, WeightedBlock(row, dim))
  {
    hide SumAt, WeightedAt, TokenCount, WeightTotal, Over, AtLeast, IsQuotient, Masks, Placed, Factored, Total;
    TotalsExactly(row, |row|);
    forall col | 0 <= col < dim
      ensures Gives(Mean, row, dim, root, col, MeanBlock(row, dim, AtLeast(TokenCount(row, |row|)))[col])
      ensures Gives(MeanSqrt, row, dim, root, col, MeanBlock(row, dim, AtLeast(root(TokenCount(row, |row|))))[col])
      ensures Gives(Weighted, row, dim, root, col, WeightedBlock(row, dim)[col])
    {
      SumsExactly(row, dim, |row|, col);
      OverIsQuotient(SumAt(row, dim, |row|, col), TokenCount(row, |row|));
      OverIsQuotient(SumAt(row, dim, |row|, col), root(TokenCount(row, |row|)));
      OverIsQuotient(WeightedAt(row, dim, |row|, col), WeightTotal(row, |row|));
    }
  }

  lemma OthersGive(row: seq<Token>, dim: nat, root: real -> real)
    requires Shaped(row, dim)
    ensures row != [] || dim == 0 ==> BlockGives(Cls, row, dim, root, FirstBlock(row))
    ensures BlockGives(Max, row, dim, root, MaxBlock(row, dim))
    ensures BlockGives(Last, row, dim, root, LastBlock(row, dim))
  {
    hide MaxAt, LastLive, Masks, Placed, Factored, Total, IsQuotient, IsLargest;
    LastExactly(row, |row|);
    assert row != [] ==> row[0] in row;
    if LastLive(row, |row|) > 0 { assert row[LastLive(row, |row|) - 1] in row; }
    forall col | 0 <= col < dim ensures Gives(Max, row, dim, root, col, MaxBlock(row, dim)[col]) {
      MaxExactly(row, dim, |row|, col);
    }
  }

  /** The block of a mode. */
  function Block(c: Config, row: seq<Token>, dim: nat, root: real -> real, m: Mode): seq<real>
    requires Shaped(row, dim)
  {
    if !On(c, m) then []
    else match m
      case Cls => FirstBlock(row)
      case Max => MaxBlock(row, dim)
      case Mean => MeanBlock(row, dim, AtLeast(TokenCount(row, |row|)))
      case MeanSqrt => MeanBlock(row, dim, AtLeast(root(TokenCount(row, |row|))))
      case Weighted => WeightedBlock(row, dim)
      case Last => LastBlock(row, dim)
  }

  function Blocks(c: Config, row: seq<Token>, dim: nat, root: real -> real, n: nat): seq<real>
    requires Shaped(row, dim) && n <= |MODES|
  {
    if n == 0 then [] else Blocks(c, row, dim, root, n - 1) + Block(c, row, dim, root, MODES[n - 1])
  }

  lemma PoolRowIsBlocks(c: Config, row: seq<Token>, dim: nat, root: real -> real)
    requires Shaped(row, dim) && (c.cls ==> row != [] || dim == 0)
    ensures PoolRow(c, row, dim, root) == Blocks(c, row, dim, root, 6)
  {
    hide MaxBlock, MeanBlock, WeightedBlock, LastBlock, FirstBlock, Shaped, AtLeast, TokenCount;
    assert Blocks(c, row, dim, root, 0) == [];
    assert Blocks(c, row, dim, root, 1) == if c.cls then FirstBlock(row) else [];
    assert Blocks(c, row, dim, root, 2) == Blocks(c, row, dim, root, 1) + if c.max then MaxBlock(row, dim) else [];
    assert Blocks(c, row, dim, root, 3) == Blocks(c, row, dim, root, 2) + Block(c, row, dim, root, Mean);
    assert Blocks(c, row, dim, root, 4) == Blocks(c, row, dim, root, 3) + Block(c, row, dim, root, MeanSqrt);
    assert Blocks(c, row, dim, root, 5) == Blocks(c, row, dim, root, 4) + Block(c, row, dim, root, Weighted);
    assert Blocks(c, row, dim, root, 6) == Blocks(c, row, dim, root, 5) + Block(c, row, dim, root, Last);
  }

  lemma BlockExactly(c: Config, row: seq<Token>, dim: nat, root: real -> real, m: Mode)
    requires Shaped(row, dim) && (c.cls ==> row != [] || dim == 0) && On(c, m)
    ensures BlockGives(m, row, dim, root, Block(c, row, dim, root, m))
  {
    hide Gives, MaxBlock, MeanBlock, WeightedBlock, LastBlock, FirstBlock, Shaped, AtLeast, TokenCount, BlockGives;
    MeansGive(row, dim, root);
    OthersGive(row, dim, root);
  }

  lemma {:induction false} BlockStarts(c: Config, row: seq<Token>, dim: nat, root: real -> real, n: nat)
    requires Shaped(row, dim) && (c.cls ==> row != [] || dim == 0) && n <= |MODES|
    ensures |Blocks(c, row, dim, root, n)| == OnBefore(c, n) * dim
  {
    hide Gives, Block, BlockGives, Shaped;
    if n > 0 {
      BlockStarts(c, row, dim, root, n - 1);
      var m := MODES[n - 1];
      BlockLength(c, row, dim, root, m);
      assert OnBefore(c, n) * dim == OnBefore(c, n - 1) * dim + if On(c, m) then dim else 0;
    }
  }

  lemma BlockLength(c: Config, row: seq<Token>, dim: nat, root: real -> real, m: Mode)
    requires Shaped(row, dim) && (c.cls ==> row != [] || dim == 0)
    ensures |Block(c, row, dim, root, m)| == if On(c, m) then dim else 0
  {
    hide Gives;
    if On(c, m) { BlockExactly(c, row, dim, root, m); } else { NoBlock(c, row, dim, root, m); }
  }

  lemma NoBlock(c: Config, row: seq<Token>, dim: nat, root: real -> real, m: Mode)
    requires Shaped(row, dim) && !On(c, m)
    ensures Block(c, row, dim, root, m) == []
  {
  }

  lemma {:induction false} BlockAt(c: Config, row: seq<Token>, dim: nat, root: real -> real, n: nat, k: nat)
    requires Shaped(row, dim) && k < n <= |MODES|
    ensures var b, start := Blocks(c, row, dim, root, n), |Blocks(c, row, dim, root, k)|;
            && start + |Block(c, row, dim, root, MODES[k])| <= |b|
            && b[start..][..|Block(c, row, dim, root, MODES[k])|] == Block(c, row, dim, root, MODES[k])
  {
    hide Block, Shaped;
    if k < n - 1 { BlockAt(c, row, dim, root, n - 1, k); }
  }

  /**
   * A pooled row is as long as its enabled modes ask, and each of them gives its block of it, in the order of
   * the modes: the first position's vector; the largest live values; the sum of the values by their masks
   * over the masks' sum, or over its root; the same by masks times places; the last live position's vector.
   */
  lemma PooledExactly(c: Config, row: seq<Token>, dim: nat, root: real -> real, k: nat)
    requires Shaped(row, dim) && (c.cls ==> row != [] || dim == 0) && k < |MODES| && On(c, MODES[k])
    ensures |PoolRow(c, row, dim, root)| == OnBefore(c, |MODES|) * dim
    ensures var start := OnBefore(c, k) * dim;
            && start + dim <= |PoolRow(c, row, dim, root)|
            && BlockGives(MODES[k], row, dim, root, PoolRow(c, row, dim, root)[start..][..dim])
  {
    hide PoolRow, Block, Blocks, BlockGives, Shaped;
    PoolRowIsBlocks(c, row, dim, root);
    BlockStarts(c, row, dim, root, |MODES|);
    BlockStarts(c, row, dim, root, k);
    BlockLength(c, row, dim, root, MODES[k]);
    BlockAt(c, row, dim, root, |MODES|, k);
    BlockExactly(c, row, dim, root, MODES[k]);
  }

  /** A row of the flat tensor: the value and the mask of each position lie where the shape says. */
  lemma CellAt(hidden: seq<real>, mask: seq<int>, batch: nat, seqs: nat, dim: nat, row: nat, token: nat, col: nat)
    requires |hidden| == batch * seqs * dim && |mask| == batch * seqs
    requires row < batch && token < seqs && col < dim
    ensures var at := (row * seqs + token) * dim + col;
            && 0 <= at < |hidden| && 0 <= row * seqs + token < |mask|
            && RowOf(hidden, mask, batch, seqs, dim, row)[token].hidden[col] == hidden[at]
            && RowOf(hidden, mask, batch, seqs, dim, row)[token].mask == mask[row * seqs + token]
  {
    CellInRange(batch, seqs, dim, row, token);
  }
}
