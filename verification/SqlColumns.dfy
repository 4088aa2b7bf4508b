/**
 * What SQL sees at each place of a query: the items of the scopes around it, by the qualifiers that
 * really reach them, and their columns.  Columns are known from the catalogue and from select lists.
 */
module SqlColumns {
  import opened Names
  import opened SqlTree
  import opened SqlSemantics
  import opened SqlRewrite

  /** Columns of stored tables, of other databases' tables, of table functions and of select lists. */
  datatype Shapes = Shapes(
    stored: map<(string, string), seq<string>>,
    foreign: (string, string, string) -> seq<string>,
    table: string -> seq<string>,
    select: (string, seq<seq<string>>) -> seq<string>)

  function ShapesOf(w: World): Shapes {
    Shapes(map k | k in w.db.tables :: w.db.tables[k].cols, (c, s, n) => w.db.foreign(c, s, n).cols,
           w.eng.tableColumns, w.eng.columns)
  }

  /** The shapes and the context that a query is read against, and the replacement in it, if any. */
  datatype Reading = Reading(sh: Shapes, ctx: Context, rep: Option<Replacement>)

  /** The columns of the CTEs in scope. */
  type Columns = map<string, seq<string>>

  function BaseColumns(r: Reading, c: Columns, b: Tree): seq<string>
    requires b.Base?
  {
    if IsCte(b, c.Keys) then c[Lower(b.name)]
    else if IsLocal(b, r.ctx) then
      var k := StoredKey(r.sh.stored.Keys, r.ctx, b);
      if k in r.sh.stored then r.sh.stored[k] else []
    else r.sh.foreign(Lower(b.catalog), Lower(b.schema), Lower(b.name))
  }

  function BaseEntry(r: Reading, c: Columns, b: Tree): Entry
    requires b.Base?
  {
    var cols := BaseColumns(r, c, b);
    if b.alias != "" then AliasEntry(b.alias, cols)
    else if IsCte(b, c.Keys) then Entry([[b.name]], [[b.name]], cols)
    else if IsLocal(b, r.ctx) then
      if Hit(r.ctx, c.Keys, r.rep, b)
      then Entry(TablePaths(r.ctx.database, RelationOf(r.ctx, c.Keys, b).schema, b.name),
                 TablePaths(r.ctx.database, r.rep.value.target.schema, r.rep.value.target.name), cols)
      else
        var paths := TablePaths(r.ctx.database, StoredKey(r.sh.stored.Keys, r.ctx, b).0, b.name);
        Entry(paths, paths, cols)
    else
      var foreign := TablePaths(b.catalog, b.schema, b.name);
      Entry(foreign, foreign, cols)
  }

  function BeforeItems(es: seq<Entry>): (r: seq<Item>)
    ensures |r| == |es|
  {
    seq(|es|, i requires 0 <= i < |es| => Item(LowerPaths(es[i].before), es[i].cols))
  }

  function AfterItems(es: seq<Entry>): (r: seq<Item>)
    ensures |r| == |es|
  {
    seq(|es|, i requires 0 <= i < |es| => Item(LowerPaths(es[i].after), es[i].cols))
  }

  function Befores(scopes: seq<seq<Entry>>): (r: seq<seq<Item>>)
    ensures |r| == |scopes|
  {
    seq(|scopes|, i requires 0 <= i < |scopes| => BeforeItems(scopes[i]))
  }

  function Afters(scopes: seq<seq<Entry>>): (r: seq<seq<Item>>)
    ensures |r| == |scopes|
  {
    seq(|scopes|, i requires 0 <= i < |scopes| => AfterItems(scopes[i]))
  }

  /** The items of a FROM clause. */
  function Entries(r: Reading, c: Columns, t: Tree): seq<Entry>
    decreases t, 2
  {
    match t
    case Base(_, _, _, _) => [BaseEntry(r, c, t)]
    case Join(_, left, right, _) => Entries(r, c, left) + Entries(r, c, right)
    case Sub(query, alias) => [AliasEntry(alias, QueryColumns(r, c, query))]
    case Op(op, _, alias) => [AliasEntry(alias, r.sh.table(op))]
    case _ => []
  }

  function QueryColumns(r: Reading, c: Columns, t: Tree): seq<string>
    decreases t, 1
  {
    match t
    case Select(defs, from, clauses, tag) =>
      r.sh.select(tag, LabelTable(BeforeItems(Entries(r, DefColumns(r, c, defs), from)), clauses))
    case SetOp(defs, _, left, _) => QueryColumns(r, DefColumns(r, c, defs), left)
    case _ => []
  }

  function DefColumns(r: Reading, c: Columns, defs: seq<Tree>): (d: Columns)
    ensures d.Keys == c.Keys + Keys(defs)
    decreases defs, 1
  {
    if defs == [] then c
    else
      assert Keys(defs) == Keys(defs[..1]) + Keys(defs[1..]) by { assert defs == defs[..1] + defs[1..]; }
      DefColumns(r, AddColumns(r, c, defs[0]), defs[1..])
  }

  function AddColumns(r: Reading, c: Columns, d: Tree): (e: Columns)
    ensures e.Keys == c.Keys + Keys([d])
    decreases d, 2
  {
    if d.Cte? then
      assert Keys([d]) == {Lower(d.key)};
      c[Lower(d.key) := OwnColumns(r, c, d)]
    else
      assert Keys([d]) == {};
      c
  }

  /** A recursive definition's anchor sees the definition without columns. */
  function AnchorIn(c: Columns, d: Tree): Columns
    requires d.Cte?
  {
    c[Lower(d.key) := []]
  }

  /** The columns of a definition; a recursive one has those of its anchor. */
  function OwnColumns(r: Reading, c: Columns, d: Tree): seq<string>
    requires d.Cte?
    decreases d, 1
  {
    if d.query.Recursive? then QueryColumns(r, DefColumns(r, AnchorIn(c, d), d.query.defs), d.query.left)
    else QueryColumns(r, c, d.query)
  }

  /** Its rounds see it with the anchor's columns. */
  function RoundIn(r: Reading, c: Columns, d: Tree): Columns
    requires d.Cte?
  {
    c[Lower(d.key) := OwnColumns(r, c, d)]
  }
}
