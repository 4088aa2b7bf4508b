/**
 * What a query means.  Operators, joins, grouping, ordering and set operations are parameters;
 * scoping, name resolution, CTEs, recursion, correlation and lateral items are spelled out.
 *
 * A reference is resolved scope by scope, from the innermost: by the longest qualifier of an item that
 * has the column, then as a column, with the names left over reading struct fields, then as the row of
 * an item.  The semantics is total: an unknown table is empty, a name that no scope resolves is Null,
 * and of several items in one scope the leftmost wins.  DuckDB rejects those queries.
 */
module SqlSemantics {
  import opened Names
  import opened SqlTree

  datatype Value = Null | Num(n: int) | Text(s: string) | Struct(fields: seq<(string, Value)>) | Rows(table: Table)
  datatype Table = Table(cols: seq<string>, rows: seq<seq<Value>>)

  const EMPTY: Table := Table([], [])

  /** Stored tables by lower-cased schema and name; `foreign` answers for other attached databases. */
  datatype Database = Database(
    tables: map<(string, string), Table>,
    foreign: (string, string, string) -> Table)

  /**
   * The engine's operators.  The columns of a select list and of a table function do not depend on rows.
   * `rounds` bounds recursive CTEs; every result below holds for every bound.
   */
  datatype Engine = Engine(
    call: (string, seq<Value>) -> Value,
    field: (Value, seq<string>) -> Value,
    table: (string, seq<Value>) -> seq<seq<Value>>,
    tableColumns: string -> seq<string>,
    join: (string, seq<seq<seq<Value>>>) -> seq<(int, int)>,
    finish: (string, seq<seq<string>>, seq<seq<seq<Value>>>) -> seq<seq<Value>>,
    columns: (string, seq<seq<string>>) -> seq<string>,
    setop: (string, Table, Table) -> seq<seq<Value>>,
    rounds: nat)

  datatype World = World(eng: Engine, db: Database, ctx: Context)

  /** A FROM item: the qualifiers (lower-cased) that reach it, and its columns. */
  datatype Item = Item(paths: seq<seq<string>>, cols: seq<string>)
  datatype FromValue = FromValue(items: seq<Item>, rows: seq<seq<seq<Value>>>)

  /** A FROM item on one row. */
  datatype Bound = Bound(item: Item, vals: seq<Value>)

  function Attach(items: seq<Item>, row: seq<seq<Value>>): (r: seq<Bound>)
    ensures |r| == |items|
  {
    seq(|items|, j requires 0 <= j < |items| => Bound(items[j], if j < |row| then row[j] else []))
  }

  function ItemsOf(bs: seq<Bound>): (r: seq<Item>)
    ensures |r| == |bs|
  {
    seq(|bs|, i requires 0 <= i < |bs| => bs[i].item)
  }

  function Shape(env: seq<seq<Bound>>): (r: seq<seq<Item>>)
    ensures |r| == |env|
  {
    seq(|env|, i requires 0 <= i < |env| => ItemsOf(env[i]))
  }

  // ---------------------------------------------------------------- names

  predicate HasColumn(cols: seq<string>, name: string) {
    exists c | c in cols :: Same(c, name)
  }

  /** The item has a column by the name after the first `n`, and these, if any, are one of its qualifiers. */
  predicate Claims(it: Item, names: seq<string>, n: nat) {
    n < |names| && (n == 0 || LowerAll(names[..n]) in it.paths) && HasColumn(it.cols, names[n])
  }

  /** The first item of a scope that claims names by a qualifier of this length. */
  function ClaimAt(items: seq<Item>, names: seq<string>, n: nat): (r: Option<nat>)
    ensures r.Some? ==> r.value < |items| && Claims(items[r.value], names, n)
    ensures r.Some? ==> forall i | 0 <= i < r.value :: !Claims(items[i], names, n)
    ensures r.None? ==> forall i | 0 <= i < |items| :: !Claims(items[i], names, n)
  {
    if items == [] then None
    else if Claims(items[0], names, n) then Some(0)
    else match ClaimAt(items[1..], names, n)
      case None => None
      case Some(i) => Some(i + 1)
  }

  /** An item, and how many names its qualifier takes. */
  datatype Claim = Unclaimed | Claimed(item: nat, used: nat)

  /** The longest qualifier, of at most `n` names, by which a scope claims the names. */
  function ClaimIn(items: seq<Item>, names: seq<string>, n: nat): (r: Claim)
    ensures r.Claimed? ==> r.used <= n && ClaimAt(items, names, r.used) == Some(r.item)
    ensures r.Claimed? ==> forall m | r.used < m <= n :: ClaimAt(items, names, m).None?
    ensures r.Unclaimed? ==> forall m | 0 <= m <= n :: ClaimAt(items, names, m).None?
  {
    match ClaimAt(items, names, n)
    case Some(i) => Claimed(i, n)
    case None => if n == 0 then Unclaimed else ClaimIn(items, names, n - 1)
  }

  /** The first item of a scope that is called by exactly these names. */
  function RowAt(items: seq<Item>, names: seq<string>): (r: Option<nat>)
    ensures r.Some? ==> r.value < |items| && LowerAll(names) in items[r.value].paths
    ensures r.Some? ==> forall i | 0 <= i < r.value :: LowerAll(names) !in items[i].paths
    ensures r.None? ==> forall i | 0 <= i < |items| :: LowerAll(names) !in items[i].paths
  {
    if items == [] then None
    else if LowerAll(names) in items[0].paths then Some(0)
    else match RowAt(items[1..], names)
      case None => None
      case Some(i) => Some(i + 1)
  }

  /** What names denote: a column of an item of some scope, after a qualifier, or an item's row. */
  datatype Spot = Lost | Column(scope: nat, item: nat, used: nat) | Row(scope: nat, item: nat)

  /** What one scope makes of the names, were it the only one. */
  function Here(items: seq<Item>, names: seq<string>): (r: Spot)
    requires names != []
    ensures r.Column? ==> r.scope == 0 && r.item < |items| && r.used < |names|
    ensures r.Row? ==> r.scope == 0 && r.item < |items|
  {
    match ClaimIn(items, names, |names| - 1)
    case Claimed(i, n) => Column(0, i, n)
    case Unclaimed => match RowAt(items, names) case Some(i) => Row(0, i) case None => Lost
  }

  function Outwards(s: Spot): Spot {
    match s
    case Lost => Lost
    case Column(d, i, n) => Column(d + 1, i, n)
    case Row(d, i) => Row(d + 1, i)
  }

  function Resolve(scopes: seq<seq<Item>>, names: seq<string>): (r: Spot)
    ensures r.Column? ==> r.scope < |scopes| && r.item < |scopes[r.scope]| && r.used < |names|
    ensures r.Row? ==> r.scope < |scopes| && r.item < |scopes[r.scope]|
  {
    if scopes == [] || names == [] then Lost
    else if Here(scopes[0], names) != Lost then Here(scopes[0], names)
    else Outwards(Resolve(scopes[1..], names))
  }

  // ---------------------------------------------------------------- values of references

  /** The value in a column, by name; Null when the item has no such column. */
  function ColumnAt(cols: seq<string>, vals: seq<Value>, name: string): Value {
    if cols == [] || vals == [] then Null
    else if Same(cols[0], name) then vals[0]
    else ColumnAt(cols[1..], vals[1..], name)
  }

  /** A whole row as a value. */
  function RowValue(b: Bound): Value {
    var cols, vals := b.item.cols, b.vals;
    Struct(seq(if |cols| < |vals| then |cols|
      else |vals|, i requires 0 <= i < |cols| && i < |vals| => (cols[i], vals[i])))
  }

  /** The value of a reference; names left over read struct fields, in any case. */
  function Lookup(eng: Engine, env: seq<seq<Bound>>, names: seq<string>): Value {
    match Resolve(Shape(env), names)
    case Lost => Null
    case Column(d, i, n) =>
      Fields(eng, ColumnAt(env[d][i].item.cols, env[d][i].vals, names[n]), LowerAll(names[n + 1..]))
    case Row(d, i) => RowValue(env[d][i])
  }

  function Fields(eng: Engine, v: Value, rest: seq<string>): Value {
    if rest == [] then v else eng.field(v, rest)
  }

  // ---------------------------------------------------------------- tables

  /** The stored table an identifier names: the first schema that holds it. */
  function FirstHolding(schemas: seq<string>, name: string, keys: set<(string, string)>): Option<string> {
    if schemas == [] then None
    else if (Lower(schemas[0]), Lower(name)) in keys then Some(schemas[0])
    else FirstHolding(schemas[1..], name, keys)
  }

  /** A single qualifier of a table may be the name of the database, and not of a schema. */
  predicate ByDatabase(ctx: Context, b: Tree)
    requires b.Base?
  {
    b.catalog == "" && b.schema != "" && Same(b.schema, ctx.database)
  }

  /** The schemas in which SQL looks a table up. */
  function Places(ctx: Context, b: Tree): seq<string>
    requires b.Base?
  {
    if ByDatabase(ctx, b) then [b.schema] + Schemas(ctx, "") else Schemas(ctx, b.schema)
  }

  function StoredKey(keys: set<(string, string)>, ctx: Context, b: Tree): (string, string)
    requires b.Base?
  {
    match FirstHolding(Places(ctx, b), b.name, keys)
    case Some(schema) => (Lower(schema), Lower(b.name))
    case None => (Lower(if b.schema == "" then ctx.schema else b.schema), Lower(b.name))
  }

  function Stored(db: Database, key: (string, string)): Table {
    if key in db.tables then db.tables[key] else EMPTY
  }

  /** The rows a base table reads and the qualifiers that reach them. */
  function BaseTable(db: Database, ctx: Context, ctes: map<string, Table>, b: Tree): Table
    requires b.Base?
  {
    if IsCte(b, ctes.Keys) then ctes[Lower(b.name)]
    else if IsLocal(b, ctx) then Stored(db, StoredKey(db.tables.Keys, ctx, b))
    else db.foreign(Lower(b.catalog), Lower(b.schema), Lower(b.name))
  }

  function BasePaths(db: Database, ctx: Context, ctes: set<string>, b: Tree): seq<seq<string>>
    requires b.Base?
  {
    var name := Lower(b.name);
    if b.alias != "" then [[Lower(b.alias)]]
    else if IsCte(b, ctes) then [[name]]
    else if IsLocal(b, ctx) then
      TablePaths(Lower(ctx.database), StoredKey(db.tables.Keys, ctx, b).0, name)
    else
      TablePaths(Lower(b.catalog), Lower(b.schema), name)
  }

  /** A table without an alias goes by its name, behind its schema, its database or both. */
  function TablePaths(database: string, schema: string, name: string): seq<seq<string>> {
    [[database, schema, name], [schema, name], [database, name], [name]]
  }

  function AliasPaths(alias: string): seq<seq<string>> {
    if alias == "" then [] else [[Lower(alias)]]
  }

  // ---------------------------------------------------------------- rows of items

  function Single(paths: seq<seq<string>>, t: Table): FromValue {
    FromValue([Item(paths, t.cols)], seq(|t.rows|, i requires 0 <= i < |t.rows| => [t.rows[i]]))
  }

  function Nulls(items: seq<Item>): (r: seq<seq<Value>>) {
    seq(|items|, j requires 0 <= j < |items| => seq(|items[j].cols|, i => Null))
  }

  function Side(v: FromValue, pick: int): seq<seq<Value>> {
    if 0 <= pick < |v.rows| then v.rows[pick] else Nulls(v.items)
  }

  function Concat<T>(parts: seq<seq<T>>): seq<T> {
    if parts == [] then [] else parts[0] + Concat(parts[1..])
  }

  /** Values of `q.*`, or of `*`, over the items of the own FROM clause. */
  function StarValues(bs: seq<Bound>, q: seq<string>): seq<Value> {
    if q == [] then Concat(seq(|bs|, i requires 0 <= i < |bs| => bs[i].vals))
    else match RowAt(ItemsOf(bs), q) case Some(i) => bs[i].vals case None => []
  }

  function StarColumns(items: seq<Item>, q: seq<string>): seq<string> {
    if q == [] then Concat(seq(|items|, i requires 0 <= i < |items| => items[i].cols))
    else match RowAt(items, q) case Some(i) => items[i].cols case None => []
  }

  /** Output labels of one clause: a star's columns, an alias, or a reference's last name. */
  function Labels(items: seq<Item>, c: Tree): seq<string> {
    match c
    case Star(q) => StarColumns(items, q)
    case Ref(names, alias) => [if alias != "" then alias else if names == [] then "" else names[|names| - 1]]
    case Op(_, _, alias) => [alias]
    case Sub(_, alias) => [alias]
    case _ => [""]
  }

  function LabelTable(items: seq<Item>, clauses: seq<Tree>): seq<seq<string>> {
    seq(|clauses|, i requires 0 <= i < |clauses| => Labels(items, clauses[i]))
  }

  // ---------------------------------------------------------------- evaluation

  /** The rows of a query node, given the CTEs and the scopes around it. */
  function Query(w: World, t: Tree, ctes: map<string, Table>, env: seq<seq<Bound>>): Table
    decreases t, 1
  {
    match t
    case Select(defs, from, clauses, tag) =>
      var ctes1 := Defs(w, defs, ctes, env);
      var v := From(w, from, ctes1, env);
      var labels := LabelTable(v.items, clauses);
      Table(w.eng.columns(tag, labels), w.eng.finish(tag, labels, ClauseTable(w, clauses, ctes1, v, env)))
    case SetOp(defs, op, left, right) =>
      var ctes1 := Defs(w, defs, ctes, env);
      var l := Query(w, left, ctes1, env);
      Table(l.cols, w.eng.setop(op, l, Query(w, right, ctes1, env)))
    case _ => EMPTY
  }

  /** Each CTE sees the ones before it, and itself when it is recursive. */
  function Defs(w: World, defs: seq<Tree>, ctes: map<string, Table>, env: seq<seq<Bound>>): (r: map<string, Table>)
    ensures r.Keys == ctes.Keys + Keys(defs)
    decreases defs, 1
  {
    if defs == [] then ctes
    else
      assert Keys(defs) == Keys(defs[..1]) + Keys(defs[1..]) by { assert defs == defs[..1] + defs[1..]; }
      var d := defs[0];
      if d.Cte? then
        assert Keys(defs[..1]) == {Lower(d.key)};
        Defs(w, defs[1..], ctes[Lower(d.key) := Def(w, d, ctes, env)], env)
      else
        Defs(w, defs[1..], ctes, env)
  }

  function Def(w: World, d: Tree, ctes: map<string, Table>, env: seq<seq<Bound>>): Table
    requires d.Cte?
    decreases d, 1
  {
    if d.query.Recursive? then Rounds(w, d.query, Lower(d.key), ctes, env, w.eng.rounds)
    else Query(w, d.query, ctes, env)
  }

  /** The anchor, then `n` rounds of the recursive side over the rows so far. */
  function Rounds(w: World, t: Tree, key: string, ctes: map<string, Table>, env: seq<seq<Bound>>, n: nat): Table
    requires t.Recursive?
    decreases t, 2, n
  {
    if n == 0 then
      Query(w, t.left, Defs(w, t.defs, ctes[key := EMPTY], env), env)
    else
      var before := Rounds(w, t, key, ctes, env, n - 1);
      var right := Query(w, t.right, Defs(w, t.defs, ctes[key := before], env), env);
      Table(before.cols, w.eng.setop(t.op, before, right))
  }

  /** The rows of a FROM clause; what stands to the right in it sees the row of what stands to the left. */
  function From(w: World, t: Tree, ctes: map<string, Table>, env: seq<seq<Bound>>): FromValue
    decreases t, 2
  {
    match t
    case Base(_, _, _, _) =>
      Single(BasePaths(w.db, w.ctx, ctes.Keys, t), BaseTable(w.db, w.ctx, ctes, t))
    case Join(kind, left, right, on) =>
      var l := From(w, left, ctes, env);
      var picks := w.eng.join(kind, Tests(w, t, ctes, l, env));
      FromValue(
        l.items + Right(w, right, ctes, l, -1, env).items,
        seq(|picks|, k requires 0 <= k < |picks| => Picked(w, right, ctes, l, picks[k], env)))
    case Sub(query, alias) => Single(AliasPaths(alias), Query(w, query, ctes, env))
    case Op(op, args, alias) =>
      Single(AliasPaths(alias), Table(w.eng.tableColumns(op), w.eng.table(op, Values(w, args, ctes, env))))
    case _ => FromValue([], [[]])
  }

  /** The right side of a join, on one row of the left side or on no row of it. */
  function Right(w: World, right: Tree, ctes: map<string, Table>, l: FromValue, pick: int,
                 env: seq<seq<Bound>>): FromValue
    decreases right, 3
  {
    From(w, right, ctes, [Attach(l.items, Side(l, pick))] + env)
  }

  /** One row of a join; a side that is not picked is Null. */
  function Picked(w: World, right: Tree, ctes: map<string, Table>, l: FromValue, pick: (int, int), env: seq<seq<Bound>>)
    : seq<seq<Value>>
    decreases right, 4
  {
    Side(l, pick.0) + Side(Right(w, right, ctes, l, pick.0, env), pick.1)
  }

  /** For every pair of rows, the values of the join's conditions. */
  function Tests(w: World, t: Tree, ctes: map<string, Table>, l: FromValue, env: seq<seq<Bound>>): seq<seq<seq<Value>>>
    requires t.Join?
    decreases t, 1
  {
    seq(|l.rows|, i requires 0 <= i < |l.rows| => TestsOn(w, t.on, ctes, l, Right(w, t.right, ctes, l, i, env), i, env))
  }

  function TestsOn(w: World, on: seq<Tree>, ctes: map<string, Table>, l: FromValue, r: FromValue, i: nat,
                   env: seq<seq<Bound>>): seq<seq<Value>>
    decreases on, 3
  {
    seq(|r.rows|, j requires 0 <= j < |r.rows| =>
      Values(w, on, ctes, [Attach(l.items + r.items, Side(l, i) + r.rows[j])] + env))
  }

  function Values(w: World, args: seq<Tree>, ctes: map<string, Table>, env: seq<seq<Bound>>): seq<Value>
    decreases args, 2
  {
    seq(|args|, i requires 0 <= i < |args| => Expr(w, args[i], ctes, env))
  }

  /** Per row, the values that a Select node hands to the engine. */
  function ClauseTable(w: World, clauses: seq<Tree>, ctes: map<string, Table>, v: FromValue, env: seq<seq<Bound>>)
    : seq<seq<seq<Value>>>
    decreases clauses, 3
  {
    seq(|v.rows|, r requires 0 <= r < |v.rows| => ClauseRow(w, clauses, ctes, Attach(v.items, v.rows[r]), env))
  }

  function ClauseRow(w: World, clauses: seq<Tree>, ctes: map<string, Table>, bs: seq<Bound>, env: seq<seq<Bound>>)
    : seq<seq<Value>>
    decreases clauses, 2
  {
    seq(|clauses|, i requires 0 <= i < |clauses| => Clause(w, clauses[i], ctes, bs, env))
  }

  function Clause(w: World, c: Tree, ctes: map<string, Table>, bs: seq<Bound>, env: seq<seq<Bound>>): seq<Value>
    decreases c, 2
  {
    if c.Star? then StarValues(bs, c.qualifier) else [Expr(w, c, ctes, [bs] + env)]
  }

  function Expr(w: World, t: Tree, ctes: map<string, Table>, env: seq<seq<Bound>>): Value
    decreases t, 1
  {
    match t
    case Ref(names, _) => Lookup(w.eng, env, names)
    case Sub(query, _) => Rows(Query(w, query, ctes, env))
    case Op(op, args, _) => w.eng.call(op, Values(w, args, ctes, env))
    case _ => Null
  }
}
