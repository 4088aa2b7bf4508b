/** Encoding in batches of a given size, padded to a fixed shape where the model needs one. */
module Batching {
  import opened Names
  import opened Pooling

  type Encoder<!V> = seq<string> -> Option<seq<V>>

  function Map<V>(f: string -> V, texts: seq<string>): (r: seq<V>)
    ensures |r| == |texts|
  {
    seq(|texts|, i requires 0 <= i < |texts| => f(texts[i]))
  }

  /** The encoder gives every text its own vector, whatever else is in the batch; it may fail. */
  ghost predicate RowWise<V(!new)>(enc: Encoder<V>, f: string -> V) {
    forall texts :: enc(texts).Some? ==> enc(texts).value == Map(f, texts)
  }

  ghost predicate Total<V(!new)>(enc: Encoder<V>) {
    forall texts :: enc(texts).Some?
  }

  function Chunk(texts: seq<string>, size: nat, from: nat): seq<string>
    requires size > 0 && from <= |texts|
  {
    if from + size <= |texts| then texts[from..from + size] else texts[from..]
  }

  function Pad(texts: seq<string>, rows: nat): (r: seq<string>)
    requires |texts| <= rows
    ensures |r| == rows && r[..|texts|] == texts
  {
    texts + seq(rows - |texts|, _ => "")
  }

  lemma MapJoin<V>(f: string -> V, a: seq<string>, b: seq<string>)
    ensures Map(f, a + b) == Map(f, a) + Map(f, b)
  {
  }

  lemma MapPrefix<V>(f: string -> V, texts: seq<string>, n: nat)
    requires n <= |texts|
    ensures Map(f, texts)[..n] == Map(f, texts[..n])
  {
  }

  /** One call of the model; a fixed shape is filled up with empty texts whose vectors are dropped again. */
  method Encode<V(!new)>(enc: Encoder<V>, shape: Option<nat>, texts: seq<string>,
                  ghost f: string -> V) returns (r: Option<seq<V>>)
    requires RowWise(enc, f) && (shape.Some? ==> shape.value > 0)
    ensures r.Some? ==> r.value == Map(f, texts)
    ensures Total(enc) ==> r.Some?
  {
    if shape.None? { return enc(texts); }
    var rows := shape.value;
    var result, i := [], 0;
    while i < |texts|
      invariant i <= |texts| && result == Map(f, texts[..i])
    {
      var batch := Chunk(texts, rows, i);
      var vectors := enc(Pad(batch, rows));
      if vectors.None? { return None; }
      MapPrefix(f, Pad(batch, rows), |batch|);
      MapJoin(f, texts[..i], batch);
      assert texts[..i] + batch == texts[..i + |batch|];
      result := result + vectors.value[..|batch|];
      i := i + |batch|;
    }
    assert texts[..i] == texts;
    return Some(result);
  }

  /** For every batch size the result is that of encoding each text on its own, in order. */
  method EncodeBatches<V(!new)>(enc: Encoder<V>, shape: Option<nat>, texts: seq<string>, size: nat,
                         ghost f: string -> V)
    returns (r: Option<seq<V>>)
    requires RowWise(enc, f) && (shape.Some? ==> shape.value > 0)
    ensures size == 0 ==> r.None?
    ensures r.Some? ==> r.value == Map(f, texts)
    ensures Total(enc) && size > 0 ==> r.Some?
  {
    if size == 0 { return None; }
    var result, i := [], 0;
    while i < |texts|
      invariant i <= |texts| && result == Map(f, texts[..i])
    {
      var batch := Chunk(texts, size, i);
      var vectors := Encode(enc, shape, batch, f);
      if vectors.None? { return None; }
      MapJoin(f, texts[..i], batch);
      assert texts[..i] + batch == texts[..i + |batch|];
      result := result + vectors.value;
      i := i + |batch|;
    }
    assert texts[..i] == texts;
    return Some(result);
  }

  // ---------------------------------------------------------------- why the encoder works text by text

  /**
   * The tokenizer with its limit and padding token, and the model, which takes rows of tokens and their
   * attention mask; `alone` is what it makes of one row by itself.
   */
  datatype Model = Model(
    tokens: string -> seq<int>, cut: (seq<int>, nat) -> seq<int>, limit: nat, pad: int,
    run: (seq<seq<int>>, seq<seq<int>>) -> seq<seq<seq<real>>>, alone: seq<int> -> seq<seq<real>>, dim: nat)

  /** The tokens of a text, cut down to the limit. */
  function Ids(m: Model, text: string): seq<int> {
    var ids := m.tokens(text);
    if |ids| <= m.limit then ids else m.cut(ids, m.limit)
  }

  function Tokenized(m: Model, texts: seq<string>): (r: seq<seq<int>>)
    ensures |r| == |texts|
  {
    seq(|texts|, i requires 0 <= i < |texts| => Ids(m, texts[i]))
  }

  function Longest(rows: seq<seq<int>>): (n: nat)
    ensures Within(rows, n)
  {
    if rows == [] then 0
    else
      var rest := Longest(rows[1..]);
      if |rows[0]| < rest then rest else |rows[0]|
  }

  predicate Within(rows: seq<seq<int>>, n: nat) {
    forall i | 0 <= i < |rows| :: |rows[i]| <= n
  }

  function Padded(m: Model, rows: seq<seq<int>>, n: nat): seq<seq<int>>
    requires Within(rows, n)
  {
    seq(|rows|, i requires 0 <= i < |rows| => rows[i] + seq(n - |rows[i]|, _ => m.pad))
  }

  function Masks(rows: seq<seq<int>>, n: nat): seq<seq<int>>
    requires Within(rows, n)
  {
    seq(|rows|, i requires 0 <= i < |rows| => Mask(|rows[i]|, n))
  }

  function Mask(live: nat, n: nat): seq<int> {
    seq(n, j => if j < live then 1 else 0)
  }

  /**
   * The tokenizer cuts to its limit; masked positions and other rows have no influence on what the model
   * gives a row.
   */
  ghost predicate Heeds(m: Model) {
    && (forall ids :: |ids| > m.limit ==> |m.cut(ids, m.limit)| <= m.limit)
    && (forall ids :: |ids| <= m.limit ==> |m.alone(ids)| == |ids| && forall h | h in m.alone(ids) :: |h| == m.dim)
    && forall rows, n: nat :: Within(rows, n) && 0 < n <= m.limit ==>
         RunFits(m, rows, n, m.run(Padded(m, rows, n), Masks(rows, n)))
  }

  ghost predicate RunFits(m: Model, rows: seq<seq<int>>, n: nat, out: seq<seq<seq<real>>>) {
    |out| == |rows| && forall i | 0 <= i < |rows| :: RowFits(m, rows[i], n, out[i])
  }

  ghost predicate RowFits(m: Model, ids: seq<int>, n: nat, out: seq<seq<real>>) {
    && |m.alone(ids)| == |ids| <= n == |out| && (forall h | h in out :: |h| == m.dim)
    && forall j | 0 <= j < |ids| :: out[j] == m.alone(ids)[j]
  }

  function Row(mask: seq<int>, hidden: seq<seq<real>>): seq<Token>
    requires |mask| == |hidden|
  {
    seq(|mask|, j requires 0 <= j < |mask| => Token(mask[j], hidden[j]))
  }

  function Modes(c: Config): nat {
    (if c.cls then 1 else 0) + (if c.max then 1 else 0) + (if c.mean then 1 else 0) + (if c.meanSqrt then 1 else 0)
    + (if c.weighted then 1 else 0) + (if c.last then 1 else 0)
  }

  function Zeros(n: nat): seq<real> {
    seq(n, _ => 0.0)
  }

  /** In CLS mode every text has a token. */
  ghost predicate Fits(m: Model, c: Config) {
    Heeds(m) && (c.cls ==> forall text :: Ids(m, text) != [])
  }

  lemma TokenizedWithin(m: Model, c: Config, texts: seq<string>)
    requires Fits(m, c)
    ensures Within(Tokenized(m, texts), m.limit) && Longest(Tokenized(m, texts)) <= m.limit
  {
    LongestLeast(Tokenized(m, texts), m.limit);
  }

  lemma {:induction false} LongestLeast(rows: seq<seq<int>>, k: nat)
    requires Within(rows, k)
    ensures Longest(rows) <= k
  {
    if rows != [] { LongestLeast(rows[1..], k); }
  }

  lemma RanFits(m: Model, c: Config, rows: seq<seq<int>>, n: nat)
    requires Fits(m, c) && Within(rows, n) && 0 < n <= m.limit
    ensures RunFits(m, rows, n, m.run(Padded(m, rows, n), Masks(rows, n)))
  {
  }

  /** Tokenize, pad to the longest row or to the limit, run the model, and pool each row; without any token, zeros. */
  ghost function Pipeline(m: Model, c: Config, root: real -> real, fixed: bool): Encoder<seq<real>>
    requires Fits(m, c)
  {
    texts =>
      TokenizedWithin(m, c, texts);
      Some(PoolAll(m, c, root, Tokenized(m, texts), if fixed then m.limit else Longest(Tokenized(m, texts))))
  }

  ghost function PoolAll(m: Model, c: Config, root: real -> real, rows: seq<seq<int>>, n: nat): (r: seq<seq<real>>)
    requires Fits(m, c) && Within(rows, n) && n <= m.limit
    ensures |r| == |rows|
  {
    if n == 0 then seq(|rows|, _ => Zeros(m.dim * Modes(c)))
    else
      RanFits(m, c, rows, n);
      var out := m.run(Padded(m, rows, n), Masks(rows, n));
      seq(|rows|, i requires 0 <= i < |rows| && RunFits(m, rows, n, out) =>
        PooledRow(m, c, root, rows[i], n, out[i]))
  }

  ghost function PooledRow(m: Model, c: Config, root: real -> real, ids: seq<int>, n: nat,
                           out: seq<seq<real>>): seq<real>
    requires n > 0 && RowFits(m, ids, n, out)
  {
    PoolRow(c, Row(Mask(|ids|, n), out), m.dim, root)
  }

  ghost predicate AloneFits(m: Model, c: Config, ids: seq<int>) {
    |m.alone(ids)| == |ids| && (c.cls ==> ids != []) && forall h | h in m.alone(ids) :: |h| == m.dim
  }

  /** A text's own vector: its tokens by themselves, without padding. */
  ghost function Alone(m: Model, c: Config, root: real -> real): string -> seq<real> {
    text =>
      if AloneFits(m, c, Ids(m, text))
      then PoolRow(c, Row(Mask(|Ids(m, text)|, |Ids(m, text)|), m.alone(Ids(m, text))), m.dim, root) else []
  }

  lemma ZerosJoin(a: nat, b: nat)
    ensures Zeros(a) + Zeros(b) == Zeros(a + b)
  {
  }

  function If(enabled: bool, n: nat): nat {
    if enabled then n else 0
  }

  lemma ZerosIf(enabled: bool, n: nat)
    ensures (if enabled then Zeros(n) else []) == Zeros(If(enabled, n))
  {
  }

  lemma ModesTimes(c: Config, n: nat)
    ensures If(c.cls, n) + If(c.max, n) + If(c.mean, n) + If(c.meanSqrt, n) + If(c.weighted, n) + If(c.last, n) ==
              n * Modes(c)
  {
  }

  /** Pooling no position at all gives zeros in every mode but CLS. */
  lemma EmptyPool(c: Config, dim: nat, root: real -> real)
    requires !c.cls
    ensures PoolRow(c, [], dim, root) == Zeros(dim * Modes(c))
  {
    hide Over, AtLeast, MeanBlock, WeightedBlock, MaxBlock, LastBlock, Zeros, Modes;
    NoMaximum(dim);
    NoSum(dim, AtLeast(TokenCount([], 0)));
    NoSum(dim, AtLeast(root(TokenCount([], 0))));
    NoWeights(dim);
    var n1, n2, n3, n4, n5 := If(c.max, dim), If(c.mean, dim), If(c.meanSqrt, dim), If(c.weighted, dim),
      If(c.last, dim);
    ZerosIf(c.max, dim);
    ZerosIf(c.mean, dim);
    ZerosIf(c.meanSqrt, dim);
    ZerosIf(c.weighted, dim);
    ZerosIf(c.last, dim);
    ZerosJoin(n1, n2);
    ZerosJoin(n1 + n2, n3);
    ZerosJoin(n1 + n2 + n3, n4);
    ZerosJoin(n1 + n2 + n3 + n4, n5);
    ModesTimes(c, dim);
    EmptyBlocks(c, dim, root);
  }

  lemma EmptyBlocks(c: Config, dim: nat, root: real -> real)
    requires !c.cls
    ensures PoolRow(c, [], dim, root) ==
              (if c.max then MaxBlock([], dim) else []) +
              (if c.mean then MeanBlock([], dim, AtLeast(TokenCount([], 0))) else []) +
              (if c.meanSqrt then MeanBlock([], dim, AtLeast(root(TokenCount([], 0)))) else []) +
              (if c.weighted then WeightedBlock([], dim) else []) + (if c.last then LastBlock([], dim) else [])
  {
    hide AtLeast, MeanBlock, WeightedBlock, MaxBlock, LastBlock, TokenCount;
  }

  lemma NoMaximum(dim: nat)
    ensures MaxBlock([], dim) == Zeros(dim) && LastBlock([], dim) == Zeros(dim)
  {
  }

  lemma NoSum(dim: nat, d: real)
    requires d > 0.0
    ensures MeanBlock([], dim, d) == Zeros(dim)
  {
  }

  lemma NoWeights(dim: nat)
    ensures WeightedBlock([], dim) == Zeros(dim)
  {
  }

  /** Padding a row leaves its vector. */
  lemma PaddedRow(m: Model, c: Config, root: real -> real, ids: seq<int>, n: nat, out: seq<seq<real>>)
    requires n > 0 && RowFits(m, ids, n, out) && (c.cls ==> ids != [])
    ensures AloneFits(m, c, ids)
    ensures PooledRow(m, c, root, ids, n, out) == PoolRow(c, Row(Mask(|ids|, |ids|), m.alone(ids)), m.dim, root)
  {
    hide PoolRow;
    assert forall j | 0 <= j < |ids| :: out[j] in out;
    var a, b := Row(Mask(|ids|, |ids|), m.alone(ids)), Row(Mask(|ids|, n), out);
    assert PaddedLike(a, b);
    if c.cls { assert a[0] == b[0]; }
    PaddingIgnored(c, a, b, m.dim, root);
  }

  /** The vectors of a batch are those of its texts, at every length that holds them. */
  lemma PooledAlone(m: Model, c: Config, root: real -> real, texts: seq<string>, n: nat)
    requires Fits(m, c) && Within(Tokenized(m, texts), n) && n <= m.limit
    ensures PoolAll(m, c, root, Tokenized(m, texts), n) == Map(Alone(m, c, root), texts)
  {
    hide PoolRow, PooledRow, Heeds;
    var rows := Tokenized(m, texts);
    forall i | 0 <= i < |texts| ensures PoolAll(m, c, root, rows, n)[i] == Alone(m, c, root)(texts[i]) {
      if n == 0 {
        assert rows[i] == [];
        EmptyAlone(m, c, root, rows[i]);
      } else {
        RanFits(m, c, rows, n);
        PaddedRow(m, c, root, rows[i], n, m.run(Padded(m, rows, n), Masks(rows, n))[i]);
      }
    }
  }

  lemma EmptyAlone(m: Model, c: Config, root: real -> real, ids: seq<int>)
    requires Heeds(m) && ids == [] && !c.cls
    ensures AloneFits(m, c, ids)
    ensures PoolRow(c, Row(Mask(|ids|, |ids|), m.alone(ids)), m.dim, root) == Zeros(m.dim * Modes(c))
  {
    assert Row(Mask(0, 0), m.alone(ids)) == [];
    EmptyPool(c, m.dim, root);
  }

  /**
   * So every text gets the vector of its own tokens, cut to the limit, whatever the batch and the padding:
   * the pipeline is row-wise, and encoding in batches of any size and shape is encoding text by text.
   */
  lemma PipelineRowWise(m: Model, c: Config, root: real -> real, fixed: bool)
    requires Fits(m, c)
    ensures RowWise(Pipeline(m, c, root, fixed), Alone(m, c, root)) && Total(Pipeline(m, c, root, fixed))
  {
    hide Alone, PoolAll, Heeds, Tokenized;
    forall texts
      ensures Pipeline(m, c, root, fixed)(texts) == Some(Map(Alone(m, c, root), texts))
    {
      TokenizedWithin(m, c, texts);
      PooledAlone(m, c, root, texts, if fixed then m.limit else Longest(Tokenized(m, texts)));
    }
  }

  /** Batching that pipeline gives each text the vector of its own tokens. */
  lemma PipelineBatches(m: Model, c: Config, root: real -> real, fixed: bool, a: seq<string>, b: seq<string>)
    requires Fits(m, c)
    ensures var enc := Pipeline(m, c, root, fixed);
            && enc(a + b).Some? && enc(a).Some? && enc(b).Some?
            && enc(a + b).value == enc(a).value + enc(b).value
  {
    hide Alone, PoolAll, Pipeline;
    PipelineRowWise(m, c, root, fixed);
    var enc := Pipeline(m, c, root, fixed);
    assert enc(a + b).Some? && enc(a).Some? && enc(b).Some?;
    MapJoin(Alone(m, c, root), a, b);
  }

  /**
   * A text's own vector: if its tokens are within the limit all of them count, and otherwise those that the
   * tokenizer leaves; each is pooled with mask 1.
   */
  lemma AloneExactly(m: Model, c: Config, root: real -> real, text: string, ids: seq<int>, row: seq<Token>)
    requires Fits(m, c)
    requires |m.tokens(text)| <= m.limit ==> ids == m.tokens(text)
    requires |m.tokens(text)| > m.limit ==> ids == m.cut(m.tokens(text), m.limit)
    requires |row| == |m.alone(ids)| && forall j | 0 <= j < |row| :: row[j] == Token(1, m.alone(ids)[j])
    ensures AloneFits(m, c, ids) && Shaped(row, m.dim) && Alone(m, c, root)(text) == PoolRow(c, row, m.dim, root)
  {
    hide PoolRow;
    assert Ids(m, text) == ids;
    assert Row(Mask(|ids|, |ids|), m.alone(ids)) == row;
    forall t | t in row ensures |t.hidden| == m.dim { assert t.hidden in m.alone(ids); }
  }
}
