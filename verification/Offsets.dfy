/** Byte spans of a text as character spans, in one sweep. */
module Offsets {

  /** Bytes of a character, as in section 3 of RFC 3629. */
  function Width(c: char): (w: nat)
    ensures 1 <= w <= 4
  {
    if c as int < 0x80 then 1 else if c as int < 0x800 then 2 else if c as int < 0x10000 then 3 else 4
  }

  /** Where a character begins; after the last one, the length of the text. */
  function ByteAt(text: string, i: nat): nat
    requires i <= |text|
  {
    if i == 0 then 0 else ByteAt(text, i - 1) + Width(text[i - 1])
  }

  /** The naive conversion: how many characters begin before a byte. */
  function Count(text: string, b: nat): nat {
    CountFrom(text, b, 0)
  }

  function CountFrom(text: string, b: nat, i: nat): nat
    requires i <= |text|
    decreases |text| - i
  {
    if i == |text| || ByteAt(text, i) >= b then 0 else 1 + CountFrom(text, b, i + 1)
  }

  /** Spans as one sequence of boundaries. */
  function Boundary(spans: seq<(nat, nat)>, k: nat): nat
    requires k < 2 * |spans|
  {
    if k % 2 == 0 then spans[k / 2].0 else spans[k / 2].1
  }

  /** The largest boundary up to this one. */
  function Highest(spans: seq<(nat, nat)>, k: nat): nat
    requires k < 2 * |spans|
  {
    var b := Boundary(spans, k);
    if k == 0 then b else if Highest(spans, k - 1) < b then b else Highest(spans, k - 1)
  }

  // ---------------------------------------------------------------- counting

  lemma {:induction false} Grows(text: string, i: nat, j: nat)
    requires i <= j <= |text|
    ensures ByteAt(text, i) + (j - i) <= ByteAt(text, j)
    decreases j
  {
    if i < j { Grows(text, i, j - 1); }
  }

  lemma {:induction false} CountFromIs(text: string, b: nat, i: nat)
    requires i <= |text|
    ensures var n := i + CountFrom(text, b, i);
            n <= |text| && (n > i ==> ByteAt(text, n - 1) < b) && (n < |text| ==> ByteAt(text, n) >= b)
    decreases |text| - i
  {
    if i < |text| && ByteAt(text, i) < b { CountFromIs(text, b, i + 1); }
  }

  /** The count is the first position that does not begin before the byte. */
  lemma CountIs(text: string, b: nat, n: nat)
    requires n <= |text| && (n > 0 ==> ByteAt(text, n - 1) < b) && (n < |text| ==> ByteAt(text, n) >= b)
    ensures Count(text, b) == n
  {
    CountFromIs(text, b, 0);
    var m := Count(text, b);
    if m < n { Grows(text, m, n - 1); }
    if n < m { Grows(text, n, m - 1); }
  }

  /** Counting undoes the conversion from characters to bytes. */
  lemma CountAtBoundary(text: string, i: nat)
    requires i <= |text|
    ensures Count(text, ByteAt(text, i)) == i
  {
    if i > 0 { Grows(text, i - 1, i); }
    CountIs(text, ByteAt(text, i), i);
  }

  /** Counting takes exactly the characters that begin before the byte. */
  lemma CountExactly(text: string, b: nat)
    ensures Count(text, b) <= |text|
    ensures forall i: nat | i < |text| :: i < Count(text, b) <==> ByteAt(text, i) < b
  {
    CountFromIs(text, b, 0);
    var n := Count(text, b);
    forall i: nat | i < |text| ensures i < n <==> ByteAt(text, i) < b {
      if i < n { Grows(text, i, n - 1); } else { Grows(text, n, i); }
    }
  }

  /** How many bits of a code point so many bytes hold, as in section 3 of RFC 3629. */
  function CodeSpace(bytes: nat): int {
    match bytes
    case 1 => 0x80
    case 2 => 0x800
    case 3 => 0x1_0000
    case 4 => 0x20_0000
    case _ => 0
  }

  /** A character takes the fewest bytes that hold its code point. */
  lemma WidthExactly(c: char)
    ensures c as int < CodeSpace(Width(c)) && forall w | 1 <= w < Width(c) :: c as int >= CodeSpace(w)
  {
  }

  // ---------------------------------------------------------------- the sweep

  /** Go on to the first character that does not begin before the boundary. */
  method Advance(text: string, from: nat, at: nat, b: nat) returns (i: nat, byte: nat)
    requires from <= |text| && at == ByteAt(text, from)
    ensures from <= i <= |text| && byte == ByteAt(text, i)
    ensures i > from ==> ByteAt(text, i - 1) < b
    ensures i < |text| ==> byte >= b
  {
    i, byte := from, at;
    while i < |text| && byte < b
      invariant from <= i <= |text| && byte == ByteAt(text, i) && (i > from ==> ByteAt(text, i - 1) < b)
    {
      byte := byte + Width(text[i]);
      i := i + 1;
    }
  }

  lemma AdvanceCounts(text: string, from: nat, high: nat, b: nat, i: nat)
    requires from == Count(text, high) && from <= i <= |text|
    requires (i > from ==> ByteAt(text, i - 1) < b) && (i < |text| ==> ByteAt(text, i) >= b)
    ensures i == Count(text, if high < b then b else high)
  {
    CountFromIs(text, high, 0);
    if i == from {
      CountIs(text, if high < b then b else high, i);
    } else {
      assert high < b by { Grows(text, from, i - 1); }
      CountIs(text, b, i);
    }
  }

  /** Each boundary becomes the number of characters that begin before the largest boundary seen so far. */
  method ByteSpansToCharSpans(text: string, spans: seq<(nat, nat)>) returns (result: seq<(nat, nat)>)
    ensures |result| == |spans|
    ensures forall k | 0 <= k < 2 * |spans| :: Boundary(result, k) == Count(text, Highest(spans, k))
  {
    hide Count, ByteAt, Highest, Boundary;
    result := [];
    var i, byte, n := 0, ByteAt(text, 0), 0;
    CountAtBoundary(text, 0);
    assert byte == 0 by { StartsAtZero(text); }
    ghost var high := 0;
    while n < |spans|
      invariant n <= |spans| && |result| == n && i <= |text| && byte == ByteAt(text, i)
      invariant high == (if n == 0 then 0 else Highest(spans, 2 * n - 1)) && i == Count(text, high)
      invariant Converted(text, spans, result)
    {
      var (start, end) := spans[n];
      HighestAt(spans, n);
      var before := i;
      i, byte := Advance(text, i, byte, start);
      AdvanceCounts(text, before, high, start, i);
      var cs := i;
      i, byte := Advance(text, i, byte, end);
      AdvanceCounts(text, cs, Highest(spans, 2 * n), end, i);
      high := Highest(spans, 2 * n + 1);
      ConvertedOn(text, spans, result, cs, i);
      result := result + [(cs, i)];
      n := n + 1;
    }
  }

  predicate Converted(text: string, spans: seq<(nat, nat)>, result: seq<(nat, nat)>) {
    |result| <= |spans| && forall k | 0 <= k < 2 * |result| :: Boundary(result, k) == Count(text, Highest(spans, k))
  }

  lemma HighestAt(spans: seq<(nat, nat)>, n: nat)
    requires n < |spans|
    ensures var high := if n == 0 then 0 else Highest(spans, 2 * n - 1);
            && Highest(spans, 2 * n) == (if high < spans[n].0 then spans[n].0 else high)
            && Highest(spans, 2 * n + 1) ==
              (if Highest(spans, 2 * n) < spans[n].1 then spans[n].1 else Highest(spans, 2 * n))
  {
    assert Boundary(spans, 2 * n) == spans[n].0 && Boundary(spans, 2 * n + 1) == spans[n].1;
  }

  lemma ConvertedOn(text: string, spans: seq<(nat, nat)>, result: seq<(nat, nat)>, cs: nat, ce: nat)
    requires Converted(text, spans, result) && |result| < |spans|
    requires cs == Count(text, Highest(spans, 2 * |result|)) && ce == Count(text, Highest(spans, 2 * |result| + 1))
    ensures Converted(text, spans, result + [(cs, ce)])
  {
    hide Count, Highest;
    var after := result + [(cs, ce)];
    forall k | 0 <= k < 2 * |after| ensures Boundary(after, k) == Count(text, Highest(spans, k)) {
      if k < 2 * |result| { assert Boundary(after, k) == Boundary(result, k); }
    }
  }

  lemma StartsAtZero(text: string)
    ensures ByteAt(text, 0) == 0
  {
  }

  // ---------------------------------------------------------------- when the sweep is exact

  predicate Nondecreasing(spans: seq<(nat, nat)>) {
    forall k | 0 < k < 2 * |spans| :: Boundary(spans, k - 1) <= Boundary(spans, k)
  }

  /** The result of the sweep is the naive conversion of every boundary. */
  predicate Exact(text: string, spans: seq<(nat, nat)>) {
    forall k | 0 <= k < 2 * |spans| :: Count(text, Highest(spans, k)) == Count(text, Boundary(spans, k))
  }

  lemma {:induction false} HighestIsLast(spans: seq<(nat, nat)>, k: nat)
    requires Nondecreasing(spans) && k < 2 * |spans|
    ensures Highest(spans, k) == Boundary(spans, k)
  {
    if k > 0 {
      HighestIsLast(spans, k - 1);
      assert Boundary(spans, k - 1) <= Boundary(spans, k);
    }
  }

  lemma NondecreasingExact(text: string, spans: seq<(nat, nat)>)
    requires Nondecreasing(spans)
    ensures Exact(text, spans)
  {
    hide Count, Boundary;
    forall k | 0 <= k < 2 * |spans| ensures Count(text, Highest(spans, k)) == Count(text, Boundary(spans, k)) {
      HighestIsLast(spans, k);
    }
  }

  /** Every boundary is one of the text's own. */
  ghost predicate OnCharacters(text: string, spans: seq<(nat, nat)>) {
    forall k | 0 <= k < 2 * |spans| :: exists i | 0 <= i <= |text| :: ByteAt(text, i) == Boundary(spans, k)
  }

  lemma {:induction false} HighestIsSome(spans: seq<(nat, nat)>, k: nat) returns (j: nat)
    requires k < 2 * |spans|
    ensures j <= k && Highest(spans, k) == Boundary(spans, j)
  {
    j := k;
    if k > 0 && Highest(spans, k - 1) >= Boundary(spans, k) { j := HighestIsSome(spans, k - 1); }
  }

  lemma CountTells(text: string, spans: seq<(nat, nat)>, j: nat, k: nat)
    requires OnCharacters(text, spans) && j < 2 * |spans| && k < 2 * |spans|
    requires Count(text, Boundary(spans, j)) == Count(text, Boundary(spans, k))
    ensures Boundary(spans, j) == Boundary(spans, k)
  {
    hide Count, Boundary, ByteAt;
    var x :| 0 <= x <= |text| && ByteAt(text, x) == Boundary(spans, j);
    var y :| 0 <= y <= |text| && ByteAt(text, y) == Boundary(spans, k);
    CountAtBoundary(text, x);
    CountAtBoundary(text, y);
  }

  /** On spans of whole characters the sweep is exact if and only if the boundaries never go back. */
  lemma ExactIff(text: string, spans: seq<(nat, nat)>)
    requires OnCharacters(text, spans)
    ensures Exact(text, spans) <==> Nondecreasing(spans)
  {
    hide Count, Boundary, OnCharacters;
    if Nondecreasing(spans) { NondecreasingExact(text, spans); }
    if Exact(text, spans) {
      forall k | 0 < k < 2 * |spans| ensures Boundary(spans, k - 1) <= Boundary(spans, k) {
        var j := HighestIsSome(spans, k);
        CountTells(text, spans, j, k);
        assert Highest(spans, k) == Boundary(spans, k);
        assert Boundary(spans, k - 1) <= Highest(spans, k - 1);
      }
    }
  }

  /** Being ordered by start is not enough: the second of two nested spans comes out empty. */
  lemma StartOrderIsNotEnough()
    ensures var spans := [(0, 4), (2, 3)];
            && spans[0].0 <= spans[1].0 && OnCharacters("abcd", spans) && !Exact("abcd", spans)
            && Count("abcd", Highest(spans, 2)) == 4 == Count("abcd", Highest(spans, 3))
  {
    var text, spans := "abcd", [(0, 4), (2, 3)];
    assert ByteAt(text, 0) == 0 && ByteAt(text, 1) == 1 && ByteAt(text, 2) == 2 && ByteAt(text, 3) == 3
      && ByteAt(text, 4) == 4;
    forall k | 0 <= k < 2 * |spans| ensures exists i | 0 <= i <= |text| :: ByteAt(text, i) == Boundary(spans, k) {
      assert ByteAt(text, Boundary(spans, k)) == Boundary(spans, k);
    }
    assert Boundary(spans, 0) == 0 && Boundary(spans, 1) == 4 && Boundary(spans, 2) == 2 && Boundary(spans, 3) == 3;
    assert Highest(spans, 1) == 4 && Highest(spans, 2) == 4 && Highest(spans, 3) == 4;
    CountAtBoundary(text, 4);
    CountAtBoundary(text, 2);
    assert Count(text, Highest(spans, 2)) != Count(text, Boundary(spans, 2));
  }
}
