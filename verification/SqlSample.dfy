/** A small database and engine on which single views can be evaluated. */
module SqlSample {
  import opened Names
  import opened SqlTree
  import opened SqlSemantics
  import opened SqlRewrite
  import opened SqlScopes
  import opened SqlMeaning
  import opened SqlTheorems

  const SOURCE := Relation("main", "s")
  const TARGET := Relation("main", "t")
  const OTHER := Relation("main", "o")
  const NAMESAKE := Relation("other", "s")
  const RENAME := Replacement(SOURCE, TARGET)
  const CONTEXT := Context("db", "main", [], [SOURCE, OTHER, NAMESAKE])

  /** Operators give Null, fields 2, table functions one row without columns; a SELECT's rows are its clauses'. */
  function Stub(): Engine {
    Engine((op, args) => Null, (v, names) => Num(2), (op, args) => [[]], op => [], (kind, tests) => [(0, 0)],
           (tag, labels, rows) => seq(|rows|, i requires 0 <= i < |rows| => Concat(rows[i])), (tag, labels) => ["x"],
           (op, a: Table, b) => a.rows, 0)
  }

  /** One column and one row. */
  function Cell(column: string, n: int): Table {
    Table([column], [[Num(n)]])
  }

  /** The source or the target with a column, and two further tables. */
  function Holding(r: Relation, column: string): Database {
    Database(map[KeyOf(OTHER) := Cell("x", 3), KeyOf(NAMESAKE) := Cell("y", 4), KeyOf(r) := Cell(column, 1)],
             (c, s, n) => EMPTY)
  }

  function Start(column: string): World {
    World(Stub(), Holding(SOURCE, column), CONTEXT)
  }

  function End(column: string): World {
    World(Stub(), Holding(TARGET, column), CONTEXT)
  }

  /** A table of the sample. */
  ghost predicate Has(w: World, schema: string, name: string, t: Table) {
    && w.eng == Stub() && w.ctx == CONTEXT && schema != "" && Lower(schema) == schema && Lower(name) == name
    && (schema, name) in w.db.tables && w.db.tables[(schema, name)] == t
  }

  lemma LowerCase(s: string)
    requires forall i | 0 <= i < |s| :: !('A' <= s[i] <= 'Z')
    ensures Lower(s) == s
  {
  }

  lemma Spelled()
    ensures Lower("main") == "main" && Lower("other") == "other" && Lower("db") == "db" && Lower("") == ""
    ensures Lower("s") == "s" && Lower("t") == "t" && Lower("o") == "o" && Lower("q") == "q" && Lower("v") == "v"
    ensures Lower("x") == "x" && Lower("y") == "y" && Lower("f") == "f"
  {
    LowerCase("main");
    LowerCase("other");
    LowerCase("db");
    LowerCase("s");
    LowerCase("t");
    LowerCase("o");
    LowerCase("q");
    LowerCase("v");
    LowerCase("x");
    LowerCase("y");
    LowerCase("f");
  }

  lemma SampleKeys()
    ensures KeyOf(SOURCE) == ("main", "s") && KeyOf(TARGET) == ("main", "t") && KeyOf(OTHER) == ("main", "o")
    ensures KeyOf(NAMESAKE) == ("other", "s")
  {
    Spelled();
  }

  lemma Setting(column: string)
    ensures Catalogued(Start(column)) && Moved(Start(column).db, End(column).db, SOURCE, TARGET)
    ensures SafeTarget(RENAME)
  {
    hide Lower;
    Spelled();
    SampleKeys();
    IsCatalogued(column);
    IsMoved(column);
  }

  lemma IsMoved(column: string)
    ensures Moved(Start(column).db, End(column).db, SOURCE, TARGET)
  {
    hide KeyOf, Lower;
    Spelled();
    SampleKeys();
  }

  lemma IsCatalogued(column: string)
    ensures Catalogued(Start(column))
  {
    hide KeyOf;
    SampleKeys();
    assert SOURCE in CONTEXT.catalogue && OTHER in CONTEXT.catalogue && NAMESAKE in CONTEXT.catalogue;
    forall k: (string, string)
      ensures k in Start(column).db.tables <==> exists r :: r in CONTEXT.catalogue && KeyOf(r) == k
    {
      if k in Start(column).db.tables { assert k == KeyOf(SOURCE) || k == KeyOf(OTHER) || k == KeyOf(NAMESAKE); }
    }
  }

  /** The tables of the sample, before and after. */
  lemma Tables(column: string)
    ensures Has(Start(column), "main", "s", Cell(column, 1)) && Has(End(column), "main", "t", Cell(column, 1))
    ensures Has(Start(column), "main", "o", Cell("x", 3)) && Has(End(column), "main", "o", Cell("x", 3))
    ensures Has(Start(column), "other", "s", Cell("y", 4)) && Has(End(column), "other", "s", Cell("y", 4))
  {
    hide KeyOf, Lower, Cell;
    Spelled();
    SampleKeys();
  }

  // ---------------------------------------------------------------- one SELECT

  /** `SELECT c` over one row. */
  lemma SelectOne(w: World, t: Tree, e: map<string, Table>, env: seq<seq<Bound>>, v: FromValue)
    requires t.Select? && |t.clauses| == 1 && w.eng == Stub()
    requires v == From(w, t.from, Defs(w, t.defs, e, env), env) && |v.rows| == 1
    ensures Query(w, t, e, env) ==
              Table(["x"], [Clause(w, t.clauses[0], Defs(w, t.defs, e, env), Attach(v.items, v.rows[0]), env)])
  {
    hide Clause, Attach, LabelTable, From, Defs;
    var e1 := Defs(w, t.defs, e, env);
    var row := ClauseRow(w, t.clauses, e1, Attach(v.items, v.rows[0]), env);
    assert |row| == 1;
    assert Concat(row) == row[0] by { assert row[1..] == [] && Concat(row[1..]) == []; }
    assert ClauseTable(w, t.clauses, e1, v, env) == [row];
  }

  function Paths(schema: string, name: string): seq<seq<string>> {
    TablePaths("db", schema, name)
  }

  function Row1(paths: seq<seq<string>>, t: Table): seq<Bound>
    requires |t.rows| == 1
  {
    [Bound(Item(paths, t.cols), t.rows[0])]
  }

  lemma SingleRow(paths: seq<seq<string>>, t: Table)
    requires |t.rows| == 1
    ensures var v := Single(paths, t); |v.rows| == 1 && Attach(v.items, v.rows[0]) == Row1(paths, t)
  {
  }

  function Called(schema: string, name: string, alias: string): seq<seq<string>> {
    if alias == "" then Paths(schema, name) else [[Lower(alias)]]
  }

  lemma FoundFirst(w: World, schema: string, name: string, t: Table)
    requires Has(w, schema, name, t)
    ensures forall more :: FirstHolding([schema] + more, name, w.db.tables.Keys) == Some(schema)
  {
    forall more ensures ([schema] + more)[0] == schema { }
  }

  lemma TableFrom(w: World, schema: string, name: string, alias: string, t: Table, e: map<string, Table>,
                  env: seq<seq<Bound>>)
    requires Has(w, schema, name, t)
    ensures From(w, Base("", schema, name, alias), e, env) == Single(Called(schema, name, alias), t)
  {
    Spelled();
    var b := Base("", schema, name, alias);
    FoundFirst(w, schema, name, t);
    assert FirstHolding(Places(CONTEXT, b), name, w.db.tables.Keys) == Some(schema);
    assert StoredKey(w.db.tables.Keys, CONTEXT, b) == (schema, name);
  }

  /** `SELECT c FROM schema.name AS alias`, over a table of one row. */
  lemma SelectFrom(w: World, schema: string, name: string, alias: string, t: Table, c: Tree, e: map<string, Table>,
                   env: seq<seq<Bound>>)
    requires Has(w, schema, name, t) && |t.rows| == 1
    ensures Query(w, Select([], Base("", schema, name, alias), [c], ""), e, env) ==
              Table(["x"], [Clause(w, c, e, Row1(Called(schema, name, alias), t), env)])
  {
    hide Clause, Single, From, Called;
    TableFrom(w, schema, name, alias, t, e, env);
    SingleRow(Called(schema, name, alias), t);
    assert Defs(w, [], e, env) == e;
    SelectOne(w, Select([], Base("", schema, name, alias), [c], ""), e, env, Single(Called(schema, name, alias), t));
  }

  lemma RefClause(w: World, names: seq<string>, e: map<string, Table>, bs: seq<Bound>, env: seq<seq<Bound>>)
    requires w.eng == Stub()
    ensures Clause(w, Ref(names, ""), e, bs, env) == [Lookup(Stub(), [bs] + env, names)]
  {
    hide Lookup, Stub;
  }

  // ---------------------------------------------------------------- one lookup

  /** A scope that resolves nothing is passed. */
  lemma Passed(bs: seq<Bound>, env: seq<seq<Bound>>, names: seq<string>)
    requires names != [] && Here(ItemsOf(bs), names) == SqlSemantics.Lost
    ensures Lookup(Stub(), [bs] + env, names) == Lookup(Stub(), env, names)
  {
    hide Here, ItemsOf, Fields, ColumnAt, RowValue, Shape, Resolve, LowerAll, Stub;
    var all := [bs] + env;
    ResolvePassed(bs, env, names);
    match Resolve(Shape(env), names)
    case Column(d, _, _) => assert all[d + 1] == env[d];
    case Row(d, _) => assert all[d + 1] == env[d];
    case Lost =>
  }

  lemma ResolvePassed(bs: seq<Bound>, env: seq<seq<Bound>>, names: seq<string>)
    requires names != [] && Here(ItemsOf(bs), names) == SqlSemantics.Lost
    ensures Resolve(Shape([bs] + env), names) == Outwards(Resolve(Shape(env), names))
  {
    hide Here, ItemsOf, Shape;
    PassedShape(bs, env);
    assert ([ItemsOf(bs)] + Shape(env))[1..] == Shape(env);
  }

  lemma PassedShape(bs: seq<Bound>, env: seq<seq<Bound>>)
    ensures Shape([bs] + env) == [ItemsOf(bs)] + Shape(env)
  {
  }

  lemma NowhereLeft(names: seq<string>)
    ensures Lookup(Stub(), [], names) == Null
  {
  }

  /** A scope of a single item that resolves the names. */
  lemma FoundHere(paths: seq<seq<string>>, t: Table, env: seq<seq<Bound>>, names: seq<string>)
    requires names != [] && |t.rows| == 1 && Here([Item(paths, t.cols)], names) != SqlSemantics.Lost
    ensures Lookup(Stub(), [Row1(paths, t)] + env, names) ==
              match Here([Item(paths, t.cols)], names)
              case Column(_, _, n) => Fields(Stub(), ColumnAt(t.cols, t.rows[0], names[n]), LowerAll(names[n + 1..]))
              case Row(_, _) => RowValue(Row1(paths, t)[0])
              case Lost => Null
  {
    hide Here, LowerAll;
    var all := [Row1(paths, t)] + env;
    assert Shape(all)[0] == [Item(paths, t.cols)];
  }

  lemma OneColumn(c: string, name: string)
    ensures HasColumn([c], name) <==> Same(c, name)
  {
    assert c in [c];
  }

  /** A one-part name in a scope of one item with at most one column. */
  lemma HereBare(it: Item, a: string)
    ensures Here([it], [a]) ==
              if HasColumn(it.cols, a) then Column(0, 0, 0)
              else if [Lower(a)] in it.paths then Row(0, 0) else SqlSemantics.Lost
  {
    assert [it][1..] == [];
    assert LowerAll([a]) == [Lower(a)];
  }

  lemma HerePair(it: Item, a: string, b: string)
    ensures Here([it], [a, b]) ==
              if [Lower(a)] in it.paths && HasColumn(it.cols, b) then Column(0, 0, 1)
              else if HasColumn(it.cols, a) then Column(0, 0, 0)
              else if [Lower(a), Lower(b)] in it.paths then Row(0, 0) else SqlSemantics.Lost
  {
    hide HasColumn;
    assert [it][1..] == [];
    assert LowerAll([a, b][..1]) == [Lower(a)] && LowerAll([a, b]) == [Lower(a), Lower(b)];
    assert ClaimIn([it], [a, b], 0) == if HasColumn(it.cols, a) then Claimed(0, 0) else Unclaimed;
  }

  lemma HereTriple(it: Item, a: string, b: string, c: string)
    requires !HasColumn(it.cols, b) && !HasColumn(it.cols, a) && [Lower(a), Lower(b), Lower(c)] !in it.paths
    ensures Here([it], [a, b, c]) ==
              if [Lower(a), Lower(b)] in it.paths && HasColumn(it.cols, c) then Column(0, 0, 2) else SqlSemantics.Lost
  {
    hide HasColumn;
    var names := [a, b, c];
    assert [it][1..] == [];
    assert LowerAll(names[..2]) == [Lower(a), Lower(b)] && LowerAll(names) == [Lower(a), Lower(b), Lower(c)];
    assert ClaimIn([it], names, 0) == Unclaimed;
    assert ClaimIn([it], names, 1) == Unclaimed;
  }

  // ---------------------------------------------------------------- one definition

  /** `WITH key AS (SELECT one() AS x FROM one())`. */
  const UNIT := Select([], Op("one", [], ""), [Op("one", [], "x")], "")
  const UNIT_ROWS := Table(["x"], [[Null]])

  lemma UnitRows(w: World, e: map<string, Table>, env: seq<seq<Bound>>)
    requires w.eng == Stub()
    ensures Query(w, UNIT, e, env) == UNIT_ROWS
  {
    var v := Single([], Table([], [[]]));
    assert Defs(w, [], e, env) == e;
    assert From(w, UNIT.from, e, env) == v;
    assert v.rows == [[[]]];
    SelectOne(w, UNIT, e, env, v);
  }

  lemma UnitDef(w: World, key: string, e: map<string, Table>, env: seq<seq<Bound>>)
    requires w.eng == Stub()
    ensures Defs(w, [Cte(key, UNIT)], e, env) == e[Lower(key) := UNIT_ROWS]
  {
    hide Query;
    UnitRows(w, e, env);
    var d := Cte(key, UNIT);
    assert [d][1..] == [];
    assert Def(w, d, e, env) == UNIT_ROWS;
    assert Defs(w, [], e[Lower(key) := UNIT_ROWS], env) == e[Lower(key) := UNIT_ROWS];
  }
}
