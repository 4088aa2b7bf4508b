/**
 * A reference that the walk misclaims really goes astray: on some rows its value is another one.
 *
 * The witness fills every column with a value that tells its place, and reads struct fields by keeping
 * the value and the names.
 */
module SqlStrays {
  import opened Names
  import opened SqlTree
  import opened SqlSemantics
  import opened SqlRewrite
  import opened SqlColumns
  import opened SqlScopes
  import opened SqlMeaning

  function Mark(d: nat, i: nat, j: nat): Value {
    Struct([("", Num(d)), ("", Num(i)), ("", Num(j))])
  }

  function Kept(v: Value, rest: seq<string>): Value {
    Struct([("field", v)] + seq(|rest|, k requires 0 <= k < |rest| => (rest[k], Null)))
  }

  const TELLS := Engine((op, vs) => Null, (v, rest) => Kept(v, rest), (op, vs) => [], op => [], (kind, tests) => [],
                        (tag, labels, rows) => [], (tag, labels) => [], (op, l, r) => [], 0)

  function Marks(cols: seq<string>, d: nat, i: nat): seq<Value> {
    seq(|cols|, j requires 0 <= j < |cols| => Mark(d, i, j))
  }

  function MarkedScope(items: seq<Item>, d: nat): seq<Bound> {
    seq(|items|, i requires 0 <= i < |items| => Bound(items[i], Marks(items[i].cols, d, i)))
  }

  function Marked(scopes: seq<seq<Item>>): seq<seq<Bound>> {
    seq(|scopes|, d requires 0 <= d < |scopes| => MarkedScope(scopes[d], d))
  }

  lemma MarkedShape(scopes: seq<seq<Item>>)
    ensures Shape(Marked(scopes)) == scopes
  {
    forall d | 0 <= d < |scopes| ensures ItemsOf(Marked(scopes)[d]) == scopes[d] {
    }
  }

  lemma MarkedAlike(seen: seq<seq<Entry>>)
    ensures Alike(seen, Marked(Befores(seen)), Marked(Afters(seen)))
  {
    hide AlikeRow;
    forall d | 0 <= d < |seen| ensures AlikeRow(seen[d], Marked(Befores(seen))[d], Marked(Afters(seen))[d]) {
      ScopeAlike(seen[d], d);
    }
  }

  lemma ScopeAlike(es: seq<Entry>, d: nat)
    ensures AlikeRow(es, MarkedScope(BeforeItems(es), d), MarkedScope(AfterItems(es), d))
  {
    assert ItemsOf(MarkedScope(BeforeItems(es), d)) == BeforeItems(es);
    assert ItemsOf(MarkedScope(AfterItems(es), d)) == AfterItems(es);
  }

  // ---------------------------------------------------------------- values tell

  /** The first column by a name. */
  function Index(cols: seq<string>, name: string): (r: nat)
    requires HasColumn(cols, name)
    ensures r < |cols| && Same(cols[r], name)
  {
    if Same(cols[0], name) then 0 else 1 + Index(cols[1..], name)
  }

  lemma {:induction false} ColumnIs(cols: seq<string>, vals: seq<Value>, name: string)
    requires HasColumn(cols, name) && |vals| == |cols|
    ensures ColumnAt(cols, vals, name) == vals[Index(cols, name)]
  {
    if !Same(cols[0], name) { ColumnIs(cols[1..], vals[1..], name); }
  }

  /** The value of names in the marked scopes. */
  function Told(scopes: seq<seq<Item>>, names: seq<string>): Value {
    match Resolve(scopes, names)
    case Lost => Null
    case Column(d, i, n) =>
      var cols := scopes[d][i].cols;
      if HasColumn(cols, names[n]) then Fields(TELLS, Mark(d, i, Index(cols, names[n])), LowerAll(names[n + 1..]))
        else Null
    case Row(d, i) => RowOf(scopes[d][i].cols, d, i)
  }

  function RowOf(cols: seq<string>, d: nat, i: nat): Value {
    Struct(seq(|cols|, j requires 0 <= j < |cols| => (cols[j], Mark(d, i, j))))
  }

  /** What a scope claims by a qualifier has the column. */
  lemma {:induction false} ResolvedHas(scopes: seq<seq<Item>>, names: seq<string>)
    ensures var s := Resolve(scopes, names); s.Column? ==> HasColumn(scopes[s.scope][s.item].cols, names[s.used])
  {
    if scopes != [] && names != [] { ResolvedHas(scopes[1..], names); }
  }

  lemma LookupTells(scopes: seq<seq<Item>>, names: seq<string>)
    ensures Lookup(TELLS, Marked(scopes), names) == Told(scopes, names)
  {
    hide Resolve, LowerAll, HasColumn;
    MarkedShape(scopes);
    ResolvedHas(scopes, names);
    match Resolve(scopes, names)
    case Column(d, i, n) => ColumnIs(scopes[d][i].cols, Marks(scopes[d][i].cols, d, i), names[n]);
    case Row(d, i) =>
      var b := Marked(scopes)[d][i];
      assert b.item == scopes[d][i] && |b.vals| == |b.item.cols|;
    case Lost =>
  }

  lemma FieldsDiffer(d: nat, i: nat, j: nat, rest: seq<string>, d': nat, i': nat, j': nat, rest': seq<string>)
    requires (d, i, j, rest) != (d', i', j', rest')
    ensures Fields(TELLS, Mark(d, i, j), rest) != Fields(TELLS, Mark(d', i', j'), rest')
  {
    MarksDiffer(d, i, j, d', i', j');
    NotKept(d, i, j, Mark(d', i', j'), rest');
    NotKept(d', i', j', Mark(d, i, j), rest);
    if rest != [] && rest' != [] { KeptDiffer(Mark(d, i, j), rest, Mark(d', i', j'), rest'); }
  }

  lemma MarksDiffer(d: nat, i: nat, j: nat, d': nat, i': nat, j': nat)
    ensures Mark(d, i, j) == Mark(d', i', j') <==> (d, i, j) == (d', i', j')
  {
    var a, b := Mark(d, i, j).fields, Mark(d', i', j').fields;
    assert a[0].1 == Num(d) && a[1].1 == Num(i) && a[2].1 == Num(j);
    assert b[0].1 == Num(d') && b[1].1 == Num(i') && b[2].1 == Num(j');
  }

  lemma NotKept(d: nat, i: nat, j: nat, v: Value, rest: seq<string>)
    ensures Mark(d, i, j) != Kept(v, rest)
  {
    assert Mark(d, i, j).fields[0].0 == "" && Kept(v, rest).fields[0].0 == "field";
  }

  lemma KeptDiffer(v: Value, rest: seq<string>, v': Value, rest': seq<string>)
    requires v != v' || rest != rest'
    ensures Kept(v, rest) != Kept(v', rest')
  {
    var a, b := Kept(v, rest).fields, Kept(v', rest').fields;
    assert a[0].1 == v && b[0].1 == v';
    if a == b {
      forall k | 0 <= k < |rest| ensures rest[k] == rest'[k] { assert a[k + 1] == b[k + 1]; }
    }
  }

  /** A row is not a column's value or a field of it. */
  lemma RowDiffers(cols: seq<string>, d: nat, i: nat, d': nat, i': nat, j': nat, rest: seq<string>)
    ensures RowOf(cols, d, i) != Fields(TELLS, Mark(d', i', j'), rest)
  {
    var a := RowOf(cols, d, i).fields;
    if |cols| > 0 {
      assert a[0].1 == Mark(d, i, 0);
      assert Mark(d', i', j').fields[0].1 == Num(d');
    }
    if rest != [] && |cols| > 1 {
      assert a[1].1 == Mark(d, i, 1) && Kept(Mark(d', i', j'), rest).fields[1].1 == Null;
    }
  }

  lemma RowsDiffer(cols: seq<string>, d: nat, i: nat, cols': seq<string>, d': nat, i': nat)
    requires cols != [] && (d, i) != (d', i')
    ensures RowOf(cols, d, i) != RowOf(cols', d', i')
  {
    MarksDiffer(d, i, 0, d', i', 0);
    if cols' != [] { assert RowOf(cols, d, i).fields[0].1 == Mark(d, i, 0)
      && RowOf(cols', d', i').fields[0].1 == Mark(d', i', 0); }
  }

  // ---------------------------------------------------------------- the converse

  predicate HaveColumns(seen: seq<seq<Entry>>) {
    forall es, e | es in seen && e in es :: e.cols != []
  }

  lemma SameColumns(seen: seq<seq<Entry>>, d: nat, i: nat)
    requires d < |seen| && i < |seen[d]|
    ensures Befores(seen)[d][i].cols == Afters(seen)[d][i].cols == seen[d][i].cols
  {
  }

  lemma FieldsAreStruct(d: nat, i: nat, j: nat, rest: seq<string>)
    ensures Fields(TELLS, Mark(d, i, j), rest).Struct?
  {
  }

  /** Names that differ up to case from here on differ here or after here. */
  lemma TailsDiffer(a: seq<string>, b: seq<string>, n: nat)
    requires |a| == |b| > n && LowerAll(a[n..]) != LowerAll(b[n..])
    ensures Lower(a[n]) != Lower(b[n]) || LowerAll(a[n + 1..]) != LowerAll(b[n + 1..])
  {
    hide Lower;
    if Lower(a[n]) == Lower(b[n]) && LowerAll(a[n + 1..]) == LowerAll(b[n + 1..]) {
      forall k | 0 <= k < |a| - n ensures LowerAll(a[n..])[k] == LowerAll(b[n..])[k] {
        if k > 0 { assert LowerAll(a[n + 1..])[k - 1] == LowerAll(b[n + 1..])[k - 1]; }
      }
    }
  }

  /** A column, and whatever else the new names denote. */
  lemma ColumnTells(seen: seq<seq<Entry>>, names: seq<string>, out: seq<string>)
    requires |out| == |names| && !SameSpot(seen, names, out) && Resolve(Befores(seen), names).Column?
    ensures Told(Afters(seen), out) != Told(Befores(seen), names)
  {
    hide Resolve, LowerAll, Lower, HasColumn, Fields, RowOf, Befores, Afters, Mark;
    ResolvedHas(Befores(seen), names);
    ResolvedHas(Afters(seen), out);
    var was := Resolve(Befores(seen), names);
    var d, i, n := was.scope, was.item, was.used;
    Sizes(seen);
    SameColumns(seen, d, i);
    var j, rest := Index(seen[d][i].cols, names[n]), LowerAll(names[n + 1..]);
    match Resolve(Afters(seen), out)
    case Lost => FieldsAreStruct(d, i, j, rest);
    case Row(d', i') => RowDiffers(Afters(seen)[d'][i'].cols, d', i', d, i, j, rest);
    case Column(d', i', n') =>
      SameColumns(seen, d', i');
      var j', rest' := Index(seen[d'][i'].cols, out[n']), LowerAll(out[n' + 1..]);
      if (d', i', n') == (d, i, n) { TailsDiffer(out, names, n); }
      assert |rest| == |names| - n - 1 && |rest'| == |names| - n' - 1;
      FieldsDiffer(d', i', j', rest', d, i, j, rest);
  }

  lemma Sizes(seen: seq<seq<Entry>>)
    ensures forall d | 0 <= d < |seen| :: |Befores(seen)[d]| == |Afters(seen)[d]| == |seen[d]|
  {
  }

  /** A row, and whatever else the new names denote. */
  lemma RowTells(seen: seq<seq<Entry>>, names: seq<string>, out: seq<string>)
    requires HaveColumns(seen) && |out| == |names| && !SameSpot(seen, names, out) && Resolve(Befores(seen), names).Row?
    ensures Told(Afters(seen), out) != Told(Befores(seen), names)
  {
    hide Resolve, LowerAll, HasColumn, Fields, RowOf, Befores, Afters, HaveColumns;
    ResolvedHas(Afters(seen), out);
    var was := Resolve(Befores(seen), names);
    var d, i := was.scope, was.item;
    Sizes(seen);
    SameColumns(seen, d, i);
    var cols := seen[d][i].cols;
    match Resolve(Afters(seen), out)
    case Lost => RowIsStruct(cols, d, i);
    case Row(d', i') =>
      Columned(seen, d, i);
      RowsDiffer(cols, d, i, Afters(seen)[d'][i'].cols, d', i');
    case Column(d', i', n') =>
      RowDiffers(cols, d, i, d', i', Index(Afters(seen)[d'][i'].cols, out[n']), LowerAll(out[n' + 1..]));
  }

  lemma RowIsStruct(cols: seq<string>, d: nat, i: nat)
    ensures RowOf(cols, d, i).Struct?
  {
  }

  lemma Columned(seen: seq<seq<Entry>>, d: nat, i: nat)
    requires HaveColumns(seen) && d < |seen| && i < |seen[d]|
    ensures seen[d][i].cols != []
  {
    assert seen[d] in seen && seen[d][i] in seen[d];
  }

  /** Names that no longer denote what they denoted have another value in the marked scopes. */
  lemma SpotStrays(seen: seq<seq<Entry>>, names: seq<string>, out: seq<string>)
    requires HaveColumns(seen) && |out| == |names| && !SameSpot(seen, names, out)
               && Resolve(Befores(seen), names) != Lost
    ensures exists eng: Engine, env, env' | Alike(seen, env, env') :: Lookup(eng, env', out) != Lookup(eng, env, names)
  {
    hide HaveColumns, Resolve, Alike, SameSpot, Lookup, Told, Befores, Afters;
    if Resolve(Befores(seen), names).Column? { ColumnTells(seen, names, out); } else { RowTells(seen, names, out); }
    MarkedAlike(seen);
    LookupTells(Befores(seen), names);
    LookupTells(Afters(seen), out);
  }

  /**
   * The condition is exact in values: on rows of every shape that the scopes allow, the rewritten
   * reference has another value than the one it had on some of them if and only if it is misclaimed.
   */
  lemma MisclaimedStrays(r: Renaming, ws: seq<Entry>, seen: seq<seq<Entry>>, names: seq<string>)
    requires Lawful(r) && CleanNames(r, names) && Settled(r, ws) && AllKnown(r, seen)
    requires HaveColumns(seen) && Resolve(Befores(seen), names) != Lost
    ensures Misclaimed(r, ws, seen, names) <==>
            exists eng: Engine, env, env' | Alike(seen, env, env') ::
              Lookup(eng, env', RewriteNames(names, Flat(ws))) != Lookup(eng, env, names)
  {
    hide Lawful, CleanNames, Settled, AllKnown, HaveColumns, Resolve, Alike, SameSpot, Misclaimed, Lookup, Told,
      RewriteNames, Flat, Befores, Afters, ClaimsSource, RenamedFirst, LowerAll;
    var out := RewriteNames(names, Flat(ws));
    ReferenceStays(r, ws, seen, names);
    if Misclaimed(r, ws, seen, names) {
      RewriteTakes(r, ws, names);
      SpotStrays(seen, names, out);
    } else {
      forall eng: Engine, env, env' | Alike(seen, env, env') ensures Lookup(eng, env', out) == Lookup(eng, env, names) {
        ReferenceSame(eng, names, out, seen, env, env');
      }
    }
  }
}
