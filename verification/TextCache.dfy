/**
 * One cached call: hash the texts, look them up, compute the unique misses, store them, and answer
 * in input order.  The stored table may be changed by others between the lookup and the store.
 */
module TextCache {
  import opened Names
  import opened VectorCodec

  /** What a value depends on besides the text. */
  datatype CacheScope = CacheScope(model: string, fingerprint: string, provider: string)

  datatype Key = Key(scope: CacheScope, hash: string)

  /** The encoder and the text hash. */
  datatype Encoder = Encoder(encode: (CacheScope, string) -> Vector, hash: string -> string)

  type Rows = map<Key, Row>

  /** Two texts in play never share a hash. */
  ghost predicate Collisionless(enc: Encoder, texts: set<string>) {
    forall a, b | a in texts && b in texts && enc.hash(a) == enc.hash(b) :: a == b
  }

  /** Every stored row that decodes holds what the encoder gives for the texts in play. */
  ghost predicate Faithful(enc: Encoder, texts: set<string>, rows: Rows) {
    forall scope, t | t in texts && Key(scope, enc.hash(t)) in rows && Decode(rows[Key(scope, enc.hash(t))]).Some? ::
      Decode(rows[Key(scope, enc.hash(t))]).value == enc.encode(scope, t)
  }

  function Hashes(enc: Encoder, texts: seq<string>): (r: seq<string>)
    ensures |r| == |texts|
  {
    seq(|texts|, i requires 0 <= i < |texts| => enc.hash(texts[i]))
  }

  /** The requested hashes with a decodable row; undecodable rows count as misses. */
  function Fetch(rows: Rows, scope: CacheScope, hashes: seq<string>): map<string, Vector> {
    map h | h in hashes && Key(scope, h) in rows && Decode(rows[Key(scope, h)]).Some? ::
      Decode(rows[Key(scope, h)]).value
  }

  /** Distinct missing texts, in order of first appearance. */
  function Misses(enc: Encoder, texts: seq<string>, cached: set<string>): seq<string> {
    if texts == [] then []
    else
      var before := Misses(enc, texts[..|texts| - 1], cached);
      var t := texts[|texts| - 1];
      if enc.hash(t) in cached || enc.hash(t) in Hashes(enc, before) then before else before + [t]
  }

  /** Insert, leaving a row alone that is already there. */
  function InsertOrIgnore(rows: Rows, scope: CacheScope, hashes: seq<string>, values: seq<Vector>): Rows
    requires |hashes| == |values|
    decreases hashes
  {
    if hashes == [] then rows
    else
      var k := Key(scope, hashes[0]);
      var rows1 := if k in rows then rows else rows[k := Encode(values[0])];
      InsertOrIgnore(rows1, scope, hashes[1..], values[1..])
  }

  /** The encoder mapped over the texts. */
  function Computed(enc: Encoder, scope: CacheScope, texts: seq<string>): (r: seq<Vector>)
    ensures |r| == |texts|
  {
    seq(|texts|, i requires 0 <= i < |texts| => enc.encode(scope, texts[i]))
  }

  function AddAll(cached: map<string, Vector>, hashes: seq<string>, values: seq<Vector>): map<string, Vector>
    requires |hashes| == |values|
    decreases hashes
  {
    if hashes == [] then cached else AddAll(cached[hashes[0] := values[0]], hashes[1..], values[1..])
  }

  // ---------------------------------------------------------------- misses

  /** The misses are distinct, come from the texts, and with the cached hashes cover every text. */
  lemma {:induction false} MissesCover(enc: Encoder, texts: seq<string>, cached: set<string>)
    ensures var m := Misses(enc, texts, cached);
            && (forall i, j | 0 <= i < j < |m| :: enc.hash(m[i]) != enc.hash(m[j]))
            && (forall t | t in m :: t in texts && enc.hash(t) !in cached)
            && (forall t | t in texts :: enc.hash(t) in cached || enc.hash(t) in Hashes(enc, m))
  {
    if texts != [] {
      var rest := texts[..|texts| - 1];
      var t := texts[|texts| - 1];
      var before, m := Misses(enc, rest, cached), Misses(enc, texts, cached);
      MissesCover(enc, rest, cached);
      assert texts == rest + [t];
      forall i, j | 0 <= i < j < |m| ensures enc.hash(m[i]) != enc.hash(m[j]) {
        if j == |before| { assert Hashes(enc, before)[i] in Hashes(enc, before); }
      }
      forall u | u in texts ensures enc.hash(u) in cached || enc.hash(u) in Hashes(enc, m) {
        if m == before + [t] {
          assert Hashes(enc, m) == Hashes(enc, before) + [enc.hash(t)];
        }
      }
    }
  }

  /** Positions in increasing order. */
  ghost predicate Increasing(at: seq<nat>) {
    forall j, k | 0 <= j < k < |at| :: at[j] < at[k]
  }

  /** The texts at these positions. */
  ghost predicate TextsAt(texts: seq<string>, at: seq<nat>, m: seq<string>) {
    |m| == |at| && Increasing(at) && forall k | 0 <= k < |at| :: at[k] < |texts| && m[k] == texts[at[k]]
  }

  /** The first text of its hash. */
  ghost predicate FirstOfHash(enc: Encoder, texts: seq<string>, i: nat)
    requires i < |texts|
  {
    forall j | 0 <= j < i :: enc.hash(texts[j]) != enc.hash(texts[i])
  }

  /** Where the misses are: at the first text of each hash that is not cached. */
  ghost predicate MissPositions(enc: Encoder, texts: seq<string>, cached: set<string>, at: seq<nat>) {
    forall i | 0 <= i < |texts| :: i in at <==> enc.hash(texts[i]) !in cached && FirstOfHash(enc, texts, i)
  }

  lemma FirstOfPrefix(enc: Encoder, texts: seq<string>, n: nat, i: nat)
    requires i < n <= |texts|
    ensures FirstOfHash(enc, texts, i) <==> FirstOfHash(enc, texts[..n], i)
  {
    assert forall j | 0 <= j <= i :: texts[..n][j] == texts[j];
  }

  /** The last text is a miss unless its hash is cached or that of an earlier miss. */
  lemma LastMiss(enc: Encoder, texts: seq<string>, cached: set<string>, at: seq<nat>)
    requires texts != []
    requires var rest := texts[..|texts| - 1];
             TextsAt(rest, at, Misses(enc, rest, cached)) && MissPositions(enc, rest, cached, at)
    ensures var n := |texts| - 1; var t, before := texts[n], Misses(enc, texts[..n], cached);
            (enc.hash(t) !in cached && FirstOfHash(enc, texts, n)) <==>
            !(enc.hash(t) in cached || enc.hash(t) in Hashes(enc, before))
  {
    hide Misses;
    var n := |texts| - 1;
    var rest, t := texts[..n], texts[n];
    var before := Misses(enc, rest, cached);
    MissesCover(enc, rest, cached);
    if enc.hash(t) in Hashes(enc, before) {
      var k :| 0 <= k < |before| && Hashes(enc, before)[k] == enc.hash(t);
      assert texts[at[k]] == rest[at[k]];
    } else if enc.hash(t) !in cached {
      forall j | 0 <= j < n ensures enc.hash(texts[j]) != enc.hash(t) { assert rest[j] in rest; }
    }
  }

  lemma {:induction false} MissesAt(enc: Encoder, texts: seq<string>, cached: set<string>) returns (at: seq<nat>)
    ensures TextsAt(texts, at, Misses(enc, texts, cached)) && MissPositions(enc, texts, cached, at)
  {
    hide FirstOfHash, Hashes, TextsAt, MissPositions;
    at := [];
    if texts == [] {
      NoPositions(enc, cached);
    } else {
      var n := |texts| - 1;
      var rest := MissesAt(enc, texts[..n], cached);
      LastMiss(enc, texts, cached, rest);
      if enc.hash(texts[n]) !in cached && FirstOfHash(enc, texts, n) { at := rest + [n]; } else { at := rest; }
      AddPosition(enc, texts, cached, rest, Misses(enc, texts[..n], cached));
    }
  }

  lemma NoPositions(enc: Encoder, cached: set<string>)
    ensures TextsAt([], [], []) && MissPositions(enc, [], cached, [])
  {
  }

  lemma AddPosition(enc: Encoder, texts: seq<string>, cached: set<string>, rest: seq<nat>, m: seq<string>)
    requires texts != []
    requires var init := texts[..|texts| - 1]; TextsAt(init, rest, m) && MissPositions(enc, init, cached, rest)
    ensures var n := |texts| - 1; var here := enc.hash(texts[n]) !in cached && FirstOfHash(enc, texts, n);
            var at, all := if here then rest + [n] else rest, if here then m + [texts[n]] else m;
            TextsAt(texts, at, all) && MissPositions(enc, texts, cached, at)
  {
    hide FirstOfHash;
    var n := |texts| - 1;
    NotInRest(texts[..n], rest, m);
    forall i | 0 <= i < n ensures FirstOfHash(enc, texts, i) <==> FirstOfHash(enc, texts[..n], i) {
      FirstOfPrefix(enc, texts, n, i);
    }
  }

  lemma NotInRest(texts: seq<string>, at: seq<nat>, m: seq<string>)
    requires TextsAt(texts, at, m)
    ensures forall i | i in at :: i < |texts|
  {
  }

  ghost predicate SameElements(a: seq<nat>, b: seq<nat>) {
    forall i :: i in a <==> i in b
  }

  lemma AllButLast(a: seq<nat>)
    requires Increasing(a) && a != []
    ensures forall i :: i in a[..|a| - 1] <==> i in a && i != a[|a| - 1]
    ensures a[|a| - 1] in a && forall i | i in a :: i <= a[|a| - 1]
  {
    assert a == a[..|a| - 1] + [a[|a| - 1]];
  }

  lemma SomeElement(a: seq<nat>)
    ensures a == [] || exists i :: i in a
  {
    if a != [] { assert a[0] in a; }
  }

  /** Increasing positions are determined by which they are. */
  lemma {:induction false} SamePositions(a: seq<nat>, b: seq<nat>)
    requires Increasing(a) && Increasing(b) && SameElements(a, b)
    ensures a == b
    decreases |a|
  {
    SomeElement(a);
    SomeElement(b);
    if a != [] {
      AllButLast(a);
      assert a[|a| - 1] in b;
      AllButLast(b);
      assert b[|b| - 1] in a && a[|a| - 1] == b[|b| - 1];
      var x, y, last := a[..|a| - 1], b[..|b| - 1], a[|a| - 1];
      forall i ensures i in x <==> i in y {
        assert i in x <==> i in a && i != last;
        assert i in y <==> i in b && i != last;
      }
      SamePositions(a[..|a| - 1], b[..|b| - 1]);
      assert a == a[..|a| - 1] + [a[|a| - 1]] && b == b[..|b| - 1] + [b[|b| - 1]];
    }
  }

  method UniqueMisses(enc: Encoder, texts: seq<string>, hashes: seq<string>, cached: map<string, Vector>)
    returns (missHashes: seq<string>, missTexts: seq<string>)
    requires hashes == Hashes(enc, texts)
    ensures missTexts == Misses(enc, texts, cached.Keys) && missHashes == Hashes(enc, missTexts)
    ensures exists at: seq<nat> :: TextsAt(texts, at, missTexts) && MissPositions(enc, texts, cached.Keys, at)
  {
    ghost var at := MissesAt(enc, texts, cached.Keys);
    var seen: set<string> := {};
    missHashes, missTexts := [], [];
    var i := 0;
    while i < |texts|
      invariant i <= |texts| && seen == Elements(missHashes)
      invariant missTexts == Misses(enc, texts[..i], cached.Keys) && missHashes == Hashes(enc, missTexts)
    {
      var part := texts[..i + 1];
      assert part[..|part| - 1] == texts[..i] && part[|part| - 1] == texts[i];
      if hashes[i] !in cached && hashes[i] !in seen {
        seen := seen + {hashes[i]};
        missHashes := missHashes + [hashes[i]];
        missTexts := missTexts + [texts[i]];
      }
      i := i + 1;
    }
    assert texts[..i] == texts;
  }

  // ---------------------------------------------------------------- storing

  /** Storing never changes a row that is there, and adds exactly the keys of the entries. */
  lemma {:induction false} InsertKeeps(rows: Rows, scope: CacheScope, hashes: seq<string>, values: seq<Vector>)
    requires |hashes| == |values|
    ensures var after := InsertOrIgnore(rows, scope, hashes, values);
            && (forall k | k in rows :: k in after && after[k] == rows[k])
            && (forall h | h in hashes :: Key(scope, h) in after)
            && (forall k | k in after && k !in rows ::
              exists i :: 0 <= i < |hashes| && k == Key(scope, hashes[i]) && after[k] == Encode(values[i]))
    decreases hashes
  {
    if hashes != [] {
      var k := Key(scope, hashes[0]);
      var rows1 := if k in rows then rows else rows[k := Encode(values[0])];
      InsertKeeps(rows1, scope, hashes[1..], values[1..]);
      var after := InsertOrIgnore(rows, scope, hashes, values);
      forall x | x in after && x !in rows
        ensures exists i :: 0 <= i < |hashes| && x == Key(scope, hashes[i]) && after[x] == Encode(values[i])
      {
        if x in rows1 {
          assert x == k && after[x] == Encode(values[0]);
        } else {
          var i :| 0 <= i < |hashes[1..]| && x == Key(scope, hashes[1..][i]) && after[x] == Encode(values[1..][i]);
          assert hashes[1..][i] == hashes[i + 1] && values[1..][i] == values[i + 1];
        }
      }
    }
  }

  /** Storing computed values keeps every row faithful. */
  lemma InsertFaithful(enc: Encoder, texts: set<string>, rows: Rows, scope: CacheScope, misses: seq<string>)
    requires Collisionless(enc, texts) && Faithful(enc, texts, rows) && forall t | t in misses :: t in texts
    ensures Faithful(enc, texts, InsertOrIgnore(rows, scope, Hashes(enc, misses), Computed(enc, scope, misses)))
  {
    var hashes, values := Hashes(enc, misses), Computed(enc, scope, misses);
    var after := InsertOrIgnore(rows, scope, hashes, values);
    InsertKeeps(rows, scope, hashes, values);
    forall sc, t | t in texts && Key(sc, enc.hash(t)) in after && Decode(after[Key(sc, enc.hash(t))]).Some?
      ensures Decode(after[Key(sc, enc.hash(t))]).value == enc.encode(sc, t)
    {
      var k := Key(sc, enc.hash(t));
      if k !in rows {
        var i :| 0 <= i < |hashes| && k == Key(scope, hashes[i]) && after[k] == Encode(values[i]);
        assert misses[i] in misses;
        DecodeEncode(values[i]);
      }
    }
  }

  // ---------------------------------------------------------------- the answer

  lemma {:induction false} AddAllGives(enc: Encoder, scope: CacheScope, cached: map<string, Vector>,
                                       misses: seq<string>, t: string)
    requires forall i, j | 0 <= i < j < |misses| :: enc.hash(misses[i]) != enc.hash(misses[j])
    ensures var after := AddAll(cached, Hashes(enc, misses), Computed(enc, scope, misses));
            && (enc.hash(t) !in Hashes(enc, misses) && enc.hash(t) in cached ==>
              enc.hash(t) in after && after[enc.hash(t)] == cached[enc.hash(t)])
            && (forall i | 0 <= i < |misses| && enc.hash(misses[i]) == enc.hash(t) ::
                  enc.hash(t) in after && after[enc.hash(t)] == enc.encode(scope, misses[i]))
    decreases misses
  {
    if misses != [] {
      var hashes, values := Hashes(enc, misses), Computed(enc, scope, misses);
      assert hashes[1..] == Hashes(enc, misses[1..]) && values[1..] == Computed(enc, scope, misses[1..]);
      assert hashes == [hashes[0]] + hashes[1..];
      AddAllGives(enc, scope, cached[hashes[0] := values[0]], misses[1..], t);
      if enc.hash(misses[0]) == enc.hash(t) {
        forall j | 0 <= j < |hashes[1..]| ensures hashes[1..][j] != enc.hash(t) {
          assert hashes[1..][j] == enc.hash(misses[j + 1]);
        }
      }
      forall i | 0 <= i < |misses| && enc.hash(misses[i]) == enc.hash(t)
        ensures var after := AddAll(cached, hashes, values);
                  enc.hash(t) in after && after[enc.hash(t)] == enc.encode(scope, misses[i])
      {
        if i > 0 { assert misses[1..][i - 1] == misses[i]; }
      }
    }
  }

  /** Faithful rows give faithful answers: every text's hash ends up with what the encoder gives for it. */
  lemma AnswersEncoder(enc: Encoder, play: set<string>, rows: Rows, scope: CacheScope, texts: seq<string>, t: string)
    requires Collisionless(enc, play) && Faithful(enc, play, rows) && (forall u | u in texts :: u in play) && t in texts
    ensures var cached := Fetch(rows, scope, Hashes(enc, texts));
            var misses := Misses(enc, texts, cached.Keys);
            var all := AddAll(cached, Hashes(enc, misses), Computed(enc, scope, misses));
            enc.hash(t) in all && all[enc.hash(t)] == enc.encode(scope, t)
  {
    var cached := Fetch(rows, scope, Hashes(enc, texts));
    var misses := Misses(enc, texts, cached.Keys);
    MissesCover(enc, texts, cached.Keys);
    AddAllGives(enc, scope, cached, misses, t);
    if enc.hash(t) in Hashes(enc, misses) {
      var i :| 0 <= i < |misses| && Hashes(enc, misses)[i] == enc.hash(t);
      assert misses[i] in misses;
    }
  }

  // ---------------------------------------------------------------- one call

  datatype CallResult = Values(values: seq<Vector>) | Refused(reason: Reason)
  datatype Reason = LookupFailed | ComputeFailed | WrongCount | StoreFailed | MissingHash

  /** The miss encoder behaves: it fails, or gives the encoder's value for each text. */
  ghost predicate Encodes(enc: Encoder, scope: CacheScope, compute: seq<string> -> Option<seq<Vector>>) {
    forall texts :: compute(texts).Some? ==> compute(texts).value == Computed(enc, scope, texts)
  }

  /** Values in input order, or nothing when some hash has none. */
  method Expand(hashes: seq<string>, all: map<string, Vector>) returns (r: Option<seq<Vector>>)
    ensures r.Some? <==> forall h | h in hashes :: h in all
    ensures r.Some? ==> |r.value| == |hashes| && forall i | 0 <= i < |hashes| :: r.value[i] == all[hashes[i]]
  {
    var out: seq<Vector> := [];
    var i := 0;
    while i < |hashes|
      invariant i <= |hashes| && |out| == i && forall j | 0 <= j < i :: hashes[j] in all && out[j] == all[hashes[j]]
    {
      if hashes[i] !in all { return None; }
      out := out + [all[hashes[i]]];
      i := i + 1;
    }
    return Some(out);
  }

  /** The lookup, the misses and the answer of a call, given the table at its lookup. */
  function Found(enc: Encoder, scope: CacheScope, texts: seq<string>, rows: Rows): map<string, Vector> {
    Fetch(rows, scope, Hashes(enc, texts))
  }

  function Missing(enc: Encoder, scope: CacheScope, texts: seq<string>, rows: Rows): seq<string> {
    Misses(enc, texts, Found(enc, scope, texts, rows).Keys)
  }

  function Answer(enc: Encoder, scope: CacheScope, texts: seq<string>, rows: Rows): map<string, Vector> {
    var m := Missing(enc, scope, texts, rows);
    AddAll(Found(enc, scope, texts, rows), Hashes(enc, m), Computed(enc, scope, m))
  }

  /** A row is there, and its blob has the length that its dimension asks for. */
  predicate Stored(rows: Rows, k: Key) {
    k in rows && |rows[k].blob| == 4 * rows[k].dim
  }

  /**
   * A requested text is found exactly if its row is stored, then as the vector that the row encodes, and it
   * is not computed again.
   */
  lemma FoundExactly(enc: Encoder, scope: CacheScope, texts: seq<string>, rows: Rows, t: string)
    requires t in texts
    ensures var k, found := Key(scope, enc.hash(t)), Found(enc, scope, texts, rows);
            && (enc.hash(t) in found <==> Stored(rows, k))
            && (Stored(rows, k) ==> Encode(found[enc.hash(t)]) == rows[k] && t !in Missing(enc, scope, texts, rows))
  {
    hide Misses;
    var k := Key(scope, enc.hash(t));
    var i :| 0 <= i < |texts| && texts[i] == t;
    assert Hashes(enc, texts)[i] == enc.hash(t);
    MissesCover(enc, texts, Found(enc, scope, texts, rows).Keys);
    if Stored(rows, k) { EncodeDecode(rows[k]); }
  }

  /** Where a text is the first of its hash and its row is absent or of another length. */
  ghost predicate UnstoredAt(enc: Encoder, scope: CacheScope, texts: seq<string>, rows: Rows, at: seq<nat>) {
    forall i | 0 <= i < |texts| ::
      i in at <==> !Stored(rows, Key(scope, enc.hash(texts[i]))) && FirstOfHash(enc, texts, i)
  }

  /** These are the first texts of their hashes whose rows are absent or of another length, in order. */
  ghost predicate AreMisses(enc: Encoder, scope: CacheScope, texts: seq<string>, rows: Rows, m: seq<string>) {
    exists at: seq<nat> :: TextsAt(texts, at, m) && UnstoredAt(enc, scope, texts, rows, at)
  }

  lemma MissesUnstored(enc: Encoder, scope: CacheScope, texts: seq<string>, rows: Rows, at: seq<nat>)
    ensures MissPositions(enc, texts, Found(enc, scope, texts, rows).Keys, at) <==>
            UnstoredAt(enc, scope, texts, rows, at)
  {
    hide FirstOfHash, Stored, Found, Missing;
    forall i | 0 <= i < |texts|
      ensures enc.hash(texts[i]) in Found(enc, scope, texts, rows) <==> Stored(rows, Key(scope, enc.hash(texts[i])))
    {
      FoundExactly(enc, scope, texts, rows, texts[i]);
    }
  }

  /** What a call computes is exactly that. */
  lemma MissingExactly(enc: Encoder, scope: CacheScope, texts: seq<string>, rows: Rows, m: seq<string>)
    ensures Missing(enc, scope, texts, rows) == m <==> AreMisses(enc, scope, texts, rows, m)
  {
    hide Misses, Fetch, Stored;
    var at := MissesAt(enc, texts, Found(enc, scope, texts, rows).Keys);
    MissesUnstored(enc, scope, texts, rows, at);
    if b: seq<nat> :| TextsAt(texts, b, m) && UnstoredAt(enc, scope, texts, rows, b) {
      NotInRest(texts, at, Missing(enc, scope, texts, rows));
      NotInRest(texts, b, m);
      SamePositions(at, b);
    }
  }

  /** Expanded in input order, the answer is the encoder mapped over the texts. */
  lemma AnswerIsEncoded(enc: Encoder, play: set<string>, scope: CacheScope, texts: seq<string>, rows: Rows)
    requires Collisionless(enc, play) && Faithful(enc, play, rows) && forall t | t in texts :: t in play
    ensures var all := Answer(enc, scope, texts, rows);
            forall i | 0 <= i < |texts| ::
              enc.hash(texts[i]) in all && all[enc.hash(texts[i])] == enc.encode(scope, texts[i])
  {
    hide Fetch, Misses, AddAll, Faithful, Collisionless;
    forall i | 0 <= i < |texts|
      ensures var all := Answer(enc, scope, texts, rows);
              enc.hash(texts[i]) in all && all[enc.hash(texts[i])] == enc.encode(scope, texts[i])
    {
      assert texts[i] in texts;
      AnswersEncoder(enc, play, rows, scope, texts, texts[i]);
    }
  }

  /** Storing a call's misses adds a row for each of them and keeps all others. */
  lemma StoreMisses(enc: Encoder, play: set<string>, scope: CacheScope, texts: seq<string>, rows: Rows, later: Rows)
    requires Collisionless(enc, play) && Faithful(enc, play, later) && forall t | t in texts :: t in play
    ensures var m := Missing(enc, scope, texts, rows);
            var after := InsertOrIgnore(later, scope, Hashes(enc, m), Computed(enc, scope, m));
            && Faithful(enc, play, after) && (forall k | k in later :: k in after && after[k] == later[k])
            && (forall t | t in texts && enc.hash(t) !in Found(enc, scope, texts, rows) ::
              Key(scope, enc.hash(t)) in after)
  {
    hide Fetch, Misses, InsertOrIgnore, Faithful, Collisionless;
    var m := Missing(enc, scope, texts, rows);
    MissesCover(enc, texts, Found(enc, scope, texts, rows).Keys);
    InsertKeeps(later, scope, Hashes(enc, m), Computed(enc, scope, m));
    InsertFaithful(enc, play, later, scope, m);
  }

  /** One of the steps that a call needs fails. */
  predicate Fails(enc: Encoder, scope: CacheScope, texts: seq<string>, rows: Rows,
                  compute: seq<string> -> Option<seq<Vector>>, lookupFails: bool, storeFails: bool) {
    var m := Missing(enc, scope, texts, rows);
    texts != [] && (lookupFails || (m != [] && (compute(m).None? || storeFails)))
  }

  /**
   * One call under a lease.  `rows` is the table at the lookup and `later` the table when the new
   * values are stored: others may have added rows in between.
   */
  method GetOrInsert(enc: Encoder, ghost play: set<string>, scope: CacheScope, texts: seq<string>, rows: Rows,
                     later: Rows,
                     compute: seq<string> -> Option<seq<Vector>>, lookupFails: bool, storeFails: bool)
    returns (r: CallResult, after: Rows)
    requires Collisionless(enc, play) && (forall t | t in texts :: t in play) && Encodes(enc, scope, compute)
    requires Faithful(enc, play, rows) && Faithful(enc, play, later)
    ensures r.Values? ==> r.values == Computed(enc, scope, texts)
    ensures r.Refused? <==> Fails(enc, scope, texts, rows, compute, lookupFails, storeFails)
    ensures forall m | AreMisses(enc, scope, texts, rows, m) ::
              r.Refused? <==> texts != [] && (lookupFails || (m != [] && (compute(m).None? || storeFails)))
    ensures !lookupFails && (forall t | t in texts :: Stored(rows, Key(scope, enc.hash(t)))) ==>
              r.Values? && after == later
    ensures r.Refused? ==> after == later
    ensures Faithful(enc, play, after) && forall k | k in later :: k in after && after[k] == later[k]
    ensures r.Values? ==> forall t | t in texts && enc.hash(t) !in Found(enc, scope, texts, rows) ::
              Key(scope, enc.hash(t)) in after
  {
    hide Fetch, Misses, AddAll, InsertOrIgnore, Faithful, Collisionless, AreMisses, Stored;
    forall m ensures AreMisses(enc, scope, texts, rows, m) <==> m == Missing(enc, scope, texts, rows) {
      MissingExactly(enc, scope, texts, rows, m);
    }
    if forall t | t in texts :: Stored(rows, Key(scope, enc.hash(t))) {
      NothingUnstored(enc, scope, texts, rows);
    }
    after := later;
    if texts == [] {
      NoMisses(enc, scope, rows);
      return Values([]), later;
    }
    if lookupFails { return Refused(LookupFailed), later; }
    var hashes := Hashes(enc, texts);
    var cached := Fetch(rows, scope, hashes);
    var missHashes, missTexts := UniqueMisses(enc, texts, hashes, cached);
    AnswerIsEncoded(enc, play, scope, texts, rows);
    StoreMisses(enc, play, scope, texts, rows, later);
    if missTexts == [] {
      NothingMissing(enc, scope, texts, rows, later);
    } else {
      var values := compute(missTexts);
      if values.None? { return Refused(ComputeFailed), later; }
      if |values.value| != |missTexts| { return Refused(WrongCount), later; }
      if storeFails { return Refused(StoreFailed), later; }
      after := InsertOrIgnore(later, scope, missHashes, values.value);
      cached := AddAll(cached, missHashes, values.value);
    }
    assert cached == Answer(enc, scope, texts, rows);
    var out := Expand(hashes, cached);
    if out.None? { return Refused(MissingHash), after; }
    r := Values(out.value);
  }

  lemma NothingUnstored(enc: Encoder, scope: CacheScope, texts: seq<string>, rows: Rows)
    requires forall t | t in texts :: Stored(rows, Key(scope, enc.hash(t)))
    ensures Missing(enc, scope, texts, rows) == []
  {
    hide Misses, Fetch, Stored;
    var m := Missing(enc, scope, texts, rows);
    MissesCover(enc, texts, Found(enc, scope, texts, rows).Keys);
    if m != [] {
      assert m[0] in m;
      FoundExactly(enc, scope, texts, rows, m[0]);
    }
  }

  lemma NoMisses(enc: Encoder, scope: CacheScope, rows: Rows)
    ensures Missing(enc, scope, [], rows) == []
  {
  }

  lemma NothingMissing(enc: Encoder, scope: CacheScope, texts: seq<string>, rows: Rows, later: Rows)
    requires Missing(enc, scope, texts, rows) == []
    ensures Answer(enc, scope, texts, rows) == Found(enc, scope, texts, rows)
    ensures InsertOrIgnore(later, scope, Hashes(enc, []), Computed(enc, scope, [])) == later
  {
  }
}
